/** check_tester_exists, add_tester_to_group and get_invitation_link: the
    decisions made around App Store Connect responses. Each response is the
    value api_request returned for that call (Null for None); the model
    records which calls were issued, in order. */
module Registration {
  import opened Wrappers
  import opened PyJson

  /** Placeholder profile fields sent when a tester is created. */
  const FirstName: string := "Test"
  const LastName: string := "User"
  /** The lookup asks for at most one tester. */
  const LookupLimit: nat := 1

  /** The App Store Connect calls the pipeline issues. There is no delete or
      other compensating call. */
  datatype Call =
    | LookupTester(email: Json, limit: nat)
    | CreateTester(email: Json, firstName: string, lastName: string)
    | EnrolTester(groupId: string, testerId: Json)
    | FetchInviteUrl(testerId: Json)

  /** Schema reading of a lookup response: the id of the first tester
      listed under `data`. */
  function ListedId(lookup: Json): Option<Json> {
    match Field(lookup, "data")
    case Some(Arr(items)) =>
      if |items| > 0 then Field(items[0], "id") else None
    case _ => None
  }

  /** A lookup response that lists no tester: no response at all, or an
      object whose `data` is missing, null or empty. */
  predicate ListsNoTester(lookup: Json) {
    !Truthy(lookup) || (lookup.Obj? && (Field(lookup, "data").None? || !Truthy(Field(lookup, "data").value)))
  }

  /** The lookup bodies check_tester_exists cannot read: a truthy body that
      is not an object (no `.get`), or a truthy `data` that is not a list
      (`[0]` fails, or yields a character with no `id`), or a first listed
      entry without an `id` key. */
  predicate LookupMalformed(lookup: Json) {
    Truthy(lookup)
    && (!lookup.Obj?
        || (var data := Field(lookup, "data");
            data.Some? && Truthy(data.value) && (!data.value.Arr? || Field(data.value.items[0], "id").None?)))
  }

  /** check_tester_exists: the id of the tester the lookup found, None when
      it found none; raises when the body does not have the expected shape. */
  function CheckTesterExists(lookup: Json): (r: Py<Json>)
    ensures ListedId(lookup).Some? ==> r == Returned(ListedId(lookup).value)
    ensures r.Returned? && r.value != Null ==> ListedId(lookup) == Some(r.value)
    ensures ListsNoTester(lookup) ==> r == Returned(Null)
    // it raises exactly on the malformed bodies, and otherwise returns the
    // listed id or None
    ensures r.Raised? <==> LookupMalformed(lookup)
    ensures !LookupMalformed(lookup) ==> r == Returned(ListedId(lookup).GetOr(Null))
  {
    if !Truthy(lookup) then Returned(Null)
    else
      var data :- Get(lookup, "data");
      if !Truthy(data) then Returned(Null)
      else
        // `lookup['data']` is the truthy value `.get` just returned
        var first :- First(data);
        Index(first, "id")
  }

  /** Schema reading of a create response: `data.id`. */
  function CreatedId(create: Json): Option<Json> {
    match Field(create, "data")
    case Some(data) => Field(data, "id")
    case None => None
  }

  /** A create response that counts as a failed create: no response, or a
      truthy body for which `'data' in body` is false (a dict without the
      key, a list without the string, a string without the substring). */
  predicate CreateFailed(create: Json) {
    || !Truthy(create)
    || (create.Obj? && "data" !in create.fields)
    || (create.Arr? && Str("data") !in create.items)
    || (create.Str? && !IsSubstring("data", create.s))
  }

  /** A create response that passes the `'data' in` test but has no
      readable `data.id`, or on which that test itself raises: reading the
      id fails and no enrol follows. */
  predicate CreateMalformed(create: Json) {
    !CreateFailed(create) && CreatedId(create).None?
  }

  /** The lookup ran and found no tester (check_tester_exists returned a
      falsy value without raising). */
  predicate NotFound(lookup: Json) {
    CheckTesterExists(lookup).Returned? && !Truthy(CheckTesterExists(lookup).value)
  }

  /** The only call sequences add_tester_to_group can issue: a lookup, then
      possibly one create, then possibly one enrol into the given group. */
  predicate LookupCreateEnrol(calls: seq<Call>, email: Json, groupId: string) {
    && 1 <= |calls| <= 3
    && calls[0] == LookupTester(email, LookupLimit)
    && (|calls| >= 2 ==> calls[1] == CreateTester(email, FirstName, LastName))
    && (|calls| == 3 ==> calls[2].EnrolTester? && calls[2].groupId == groupId)
  }

  /** What add_tester_to_group returns (Null for None, Raised if an exception
      escapes) and the calls it issued. */
  datatype AddResult = AddResult(tester: Py<Json>, calls: seq<Call>)

  /** add_tester_to_group(email, beta_group_id), with the responses to its
      lookup, create and enrol calls. */
  function AddTesterToGroup(email: Json, groupId: string, lookup: Json, create: Json, enrol: Json): (reg: AddResult)
    ensures LookupCreateEnrol(reg.calls, email, groupId)
    // an existing tester is returned as found: no create, no enrol
    ensures ListedId(lookup).Some? && Truthy(ListedId(lookup).value) ==>
              reg == AddResult(Returned(ListedId(lookup).value), [LookupTester(email, LookupLimit)])
    // a malformed lookup body raises before anything else is issued
    ensures CheckTesterExists(lookup).Raised? ==> reg == AddResult(Raised, [LookupTester(email, LookupLimit)])
    // no tester found: exactly one create
    ensures NotFound(lookup) <==> |reg.calls| >= 2
    // the create failed: None, and no enrol
    ensures NotFound(lookup) && CreateFailed(create) ==>
              reg == AddResult(Returned(Null), [LookupTester(email, LookupLimit), CreateTester(email, FirstName, LastName)])
    // the create answered without a readable id: it raises, and no enrol
    ensures NotFound(lookup) && CreateMalformed(create) ==>
              reg == AddResult(Raised, [LookupTester(email, LookupLimit), CreateTester(email, FirstName, LastName)])
    // an enrol is issued only for a create whose id could be read
    ensures |reg.calls| == 3 ==> CreatedId(create).Some?
    // an exception escapes exactly from a malformed lookup or create body
    ensures reg.tester.Raised? <==> CheckTesterExists(lookup).Raised? || (NotFound(lookup) && CreateMalformed(create))
    // the create succeeded: exactly one enrol of the new id; the id is
    // returned only if the enrol response is truthy
    ensures NotFound(lookup) && CreatedId(create).Some? ==>
              var id := CreatedId(create).value;
              reg == AddResult(if Truthy(enrol) then Returned(id) else Returned(Null),
                                  [LookupTester(email, LookupLimit), CreateTester(email, FirstName, LastName),
                                   EnrolTester(groupId, id)])
    // a truthy id comes either from the lookup or from a create and enrol
    // that both answered
    ensures reg.tester.Returned? && Truthy(reg.tester.value) ==>
              |reg.calls| == 1 || (|reg.calls| == 3 && Truthy(enrol) && reg.calls[2] == EnrolTester(groupId, reg.tester.value))
  {
    var lookupCalls := [LookupTester(email, LookupLimit)];
    match CheckTesterExists(lookup)
    case Raised => AddResult(Raised, lookupCalls)
    case Returned(existing) =>
      if Truthy(existing) then AddResult(Returned(existing), lookupCalls)
      else
        var createCalls := lookupCalls + [CreateTester(email, FirstName, LastName)];
        if !Truthy(create) then AddResult(Returned(Null), createCalls)
        else match Contains(create, "data")
          case Raised => AddResult(Raised, createCalls)
          case Returned(hasData) =>
            if !hasData then AddResult(Returned(Null), createCalls)
            else match Index(create, "data")
              case Raised => AddResult(Raised, createCalls)
              case Returned(data) =>
                match Index(data, "id")
                case Raised => AddResult(Raised, createCalls)
                case Returned(id) =>
                  var enrolCalls := createCalls + [EnrolTester(groupId, id)];
                  if !Truthy(enrol) then AddResult(Returned(Null), enrolCalls)
                  else AddResult(Returned(id), enrolCalls)
  }

  /** A create that answers `{"data": {}}`: `'data' in` passes, reading
      `data.id` raises, and the tester is never enrolled. */
  lemma CreateWithoutIdStops(email: Json, groupId: string, enrol: Json)
    ensures AddTesterToGroup(email, groupId, Null, Obj(map["data" := Obj(map[])]), enrol)
            == AddResult(Raised, [LookupTester(email, LookupLimit), CreateTester(email, FirstName, LastName)])
  {
  }

  /** Schema reading of a tester-detail response: `data.attributes.inviteUrl`. */
  function InviteUrl(resp: Json): Option<Json> {
    match Field(resp, "data")
    case None => None
    case Some(data) =>
      match Field(data, "attributes")
      case None => None
      case Some(attributes) => Field(attributes, "inviteUrl")
  }

  /** A level of a response that `.get` is called on but cannot serve:
      present, truthy, and not an object. */
  predicate NotADict(level: Option<Json>) {
    level.Some? && Truthy(level.value) && !level.value.Obj?
  }

  /** The tester-detail bodies get_invitation_link cannot read: the body,
      its `data`, or `data.attributes` is truthy but not an object. A falsy
      level stops the chain before it is read. */
  predicate DetailMalformed(resp: Json) {
    var data := Field(resp, "data");
    NotADict(Some(resp)) || NotADict(data) || (data.Some? && NotADict(Field(data.value, "attributes")))
  }

  /** A readable tester-detail body without a usable URL: no response, or
      `data`, `attributes` or `inviteUrl` missing or falsy. */
  predicate CarriesNoUrl(resp: Json) {
    !DetailMalformed(resp) && (InviteUrl(resp).None? || !Truthy(InviteUrl(resp).value))
  }

  /** get_invitation_link: the invite URL if the response carries a truthy
      one, None otherwise; raises when a level of the chain that is truthy
      is not an object. */
  function GetInvitationLink(resp: Json): (link: Py<Json>)
    ensures link.Returned? ==> link.value == Null || Truthy(link.value)
    ensures link.Returned? && link.value != Null ==> InviteUrl(resp) == Some(link.value)
    ensures InviteUrl(resp).Some? ==>
              link == Returned(if Truthy(InviteUrl(resp).value) then InviteUrl(resp).value else Null)
    ensures !Truthy(resp) ==> link == Returned(Null)
    // it raises exactly on the malformed bodies; a missing or falsy key
    // anywhere in the chain gives None
    ensures link.Raised? <==> DetailMalformed(resp)
    ensures CarriesNoUrl(resp) ==> link == Returned(Null)
  {
    // Once `.get(k)` gave a truthy value, `[k]` gives that same value, so the
    // repeated subscripts of the source are not repeated here.
    if !Truthy(resp) then Returned(Null)
    else
      var data :- Get(resp, "data");
      if !Truthy(data) then Returned(Null)
      else
        var attributes :- Get(data, "attributes");
        if !Truthy(attributes) then Returned(Null)
        else
          var url :- Get(attributes, "inviteUrl");
          if !Truthy(url) then Returned(Null) else Returned(url)
  }
}
