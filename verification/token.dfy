/** Claim set and header of the ES256 token that authenticates every
    App Store Connect call (create_jwt). The signature itself is produced by
    a foreign library and enters the model as an oracle value. */
module Token {
  import opened Wrappers

  const IssuerId: string := "0376081d-4ffe-488f-8bbd-9022065cbe73"
  const KeyId: string := "CXH5GY5U42"
  const Audience: string := "appstoreconnect-v1"
  const Algorithm: string := "ES256"
  const TokenType: string := "JWT"

  const MicrosPerSecond: int := 1_000_000
  /** Fifteen minutes, the longest lifetime the remote API accepts. */
  const LifetimeSeconds: int := 15 * 60

  datatype Claims = Claims(iss: string, exp: int, aud: string)
  datatype Header = Header(alg: string, kid: string, typ: string)
  datatype Jwt = Jwt(header: Header, claims: Claims, signature: string)

  /** Python's int() on a float: truncation toward zero. */
  function TruncSeconds(micros: int): (s: int)
    ensures micros >= 0 ==> s * MicrosPerSecond <= micros < (s + 1) * MicrosPerSecond
    ensures micros < 0 ==> (s - 1) * MicrosPerSecond < micros <= s * MicrosPerSecond
  {
    if micros >= 0 then micros / MicrosPerSecond else -((-micros) / MicrosPerSecond)
  }

  /** The `exp` claim minted at wall-clock time `nowMicros` (microseconds
      since the epoch): int((now + 15 min).timestamp()). */
  function ExpiryAt(nowMicros: int): (exp: int)
    // strictly in the future at mint time
    ensures nowMicros < exp * MicrosPerSecond
    // never more than fifteen minutes ahead (once the expiry is after the epoch)
    ensures nowMicros + LifetimeSeconds * MicrosPerSecond >= 0 ==>
              exp * MicrosPerSecond <= nowMicros + LifetimeSeconds * MicrosPerSecond
    // and within one second of the fifteen-minute mark
    ensures nowMicros + (LifetimeSeconds - 1) * MicrosPerSecond < exp * MicrosPerSecond
              < nowMicros + (LifetimeSeconds + 1) * MicrosPerSecond
  {
    TruncSeconds(nowMicros + LifetimeSeconds * MicrosPerSecond)
  }

  /** create_jwt: `signature` is what jwt.encode yields, None when it raises
      (in which case create_jwt logs and returns None). */
  function CreateJwt(nowMicros: int, signature: Option<string>): (t: Option<Jwt>)
    ensures t.Some? <==> signature.Some?
    ensures t.Some? ==> t.value.header == Header(Algorithm, KeyId, TokenType)
    ensures t.Some? ==> t.value.claims.iss == IssuerId && t.value.claims.aud == Audience
    // the expiry is the one minted at nowMicros, with ExpiryAt's bounds
    ensures t.Some? ==> t.value.claims.exp == ExpiryAt(nowMicros)
    ensures t.Some? ==> t.value.signature == signature.value
  {
    match signature
    case None => None
    case Some(sig) =>
      Some(Jwt(Header(Algorithm, KeyId, TokenType), Claims(IssuerId, ExpiryAt(nowMicros), Audience), sig))
  }
}
