/** Parsed JSON bodies and the few Python operations main.py applies to them.
    Python's None is `Null`: a body that is JSON `null` and a missing
    response look the same to every caller, as they do in Python. */
module PyJson {
  import opened Wrappers

  datatype Json =
    | Null
    | Bool(b: bool)
    | Num(n: int)
    | Str(s: string)
    | Arr(items: seq<Json>)
    | Obj(fields: map<string, Json>)

  /** Python truthiness: None, False, 0, "", [] and {} are false. */
  predicate Truthy(j: Json) {
    match j
    case Null => false
    case Bool(b) => b
    case Num(n) => n != 0
    case Str(s) => s != ""
    case Arr(items) => items != []
    case Obj(fields) => fields != map[]
  }

  /** `j.get(key)`: only a dict has `get`; a missing key gives None. */
  function Get(j: Json, key: string): Py<Json> {
    match j
    case Obj(fields) => Returned(if key in fields then fields[key] else Null)
    case _ => Raised
  }

  /** `j[key]` with a string key: KeyError or TypeError unless j is a dict holding key. */
  function Index(j: Json, key: string): Py<Json> {
    match j
    case Obj(fields) => if key in fields then Returned(fields[key]) else Raised
    case _ => Raised
  }

  /** `j[0]`: the first element of a list or the first character of a string;
      IndexError when empty, KeyError on a dict (JSON keys are strings),
      TypeError on anything else. */
  function First(j: Json): Py<Json> {
    match j
    case Arr(items) => if |items| > 0 then Returned(items[0]) else Raised
    case Str(s) => if |s| > 0 then Returned(Str(s[..1])) else Raised
    case _ => Raised
  }

  predicate IsSubstring(p: string, s: string) {
    exists i | 0 <= i <= |s| :: p <= s[i..]
  }

  /** `key in j`: dict membership, list membership, substring test;
      TypeError on None, booleans and numbers. */
  function Contains(j: Json, key: string): Py<bool> {
    match j
    case Obj(fields) => Returned(key in fields)
    case Arr(items) => Returned(Str(key) in items)
    case Str(s) => Returned(IsSubstring(key, s))
    case _ => Raised
  }

  /** Schema-level reading of a body: the value under `key` when j is an
      object that has it. Used to state what the Python code extracts. */
  function Field(j: Json, key: string): Option<Json> {
    if j.Obj? && key in j.fields then Some(j.fields[key]) else None
  }
}
