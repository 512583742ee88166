/** The signed tokens auth-svc issues, and the two places that check them. HMAC-SHA256 and the
    compact serialisation stay abstract: all that is assumed of them is stated in Faithful. */
module Tokens {
  import opened Base
  import Strconv

  /** Clock readings are in nanoseconds; claims carry whole seconds. */
  const SECOND: int := 1_000_000_000
  const BEARER: string := "Bearer "

  datatype Alg = HS256 | OtherAlg(name: string)

  datatype Claims = Claims(sub: string, iss: string, iat: Option<int>, exp: Option<int>, nbf: Option<int>)

  datatype Jwt = Jwt(alg: Alg, claims: Claims, signature: string)

  datatype Crypto = Crypto(mac: (string, Claims) -> string, encode: Jwt -> string, decode: string -> Option<Jwt>)
  {
    /** A serialised token is nonempty, does not begin with the header prefix, and reads back. */
    ghost predicate Faithful() {
      forall j :: decode(encode(j)) == Some(j) && encode(j) != "" && !(BEARER <= encode(j))
    }
  }

  datatype Signer = Signer(crypto: Crypto, secret: string, issuer: string, ttl: int)

  function Claim(t: Signer, uid: int, now: int): Claims {
    Claims(Strconv.FormatInt(uid), t.issuer, Some(now / SECOND), Some((now + t.ttl) / SECOND), None)
  }

  function Sign(t: Signer, claims: Claims): Jwt {
    Jwt(HS256, claims, t.crypto.mac(t.secret, claims))
  }

  function Issue(t: Signer, uid: int, now: int): string {
    t.crypto.encode(Sign(t, Claim(t, uid, now)))
  }

  /** Expiry is required and strict; a start time is honoured when present; an empty expected issuer
      switches the issuer check off. */
  predicate ClaimsHold(c: Claims, issuer: string, now: int) {
    && c.exp.Some? && now < c.exp.value * SECOND
    && (c.nbf.Some? ==> now >= c.nbf.value * SECOND)
    && (issuer == "" || c.iss == issuer)
  }

  function CheckedClaims(t: Signer, raw: string, now: int): Option<Claims> {
    match t.crypto.decode(raw)
    case None => None
    case Some(j) =>
      if j.alg != HS256 then None
      else if j.signature != t.crypto.mac(t.secret, j.claims) then None
      else if ClaimsHold(j.claims, t.issuer, now) then Some(j.claims)
      else None
  }

  function Parse(t: Signer, raw: string, now: int): Option<int> {
    match CheckedClaims(t, raw, now)
    case None => None
    case Some(c) => Strconv.ParseInt(c.sub)
  }

  function TrimPrefix(s: string, prefix: string): string {
    if prefix <= s then s[|prefix|..] else s
  }

  /** The uid auth-svc's `me` takes from a header. */
  function MeUid(t: Signer, header: string, now: int): Option<int> {
    var tok := TrimPrefix(header, BEARER);
    if tok == header || tok == "" then None else Parse(t, tok, now)
  }

  /** The uid tasks-svc's middleware attaches to a request; its own copy of the checks. */
  function AuthMw(t: Signer, header: string, now: int): Option<int> {
    var raw := TrimPrefix(header, BEARER);
    if raw == "" then None
    else
      match CheckedClaims(t, raw, now)
      case None => None
      case Some(c) => Strconv.ParseInt(c.sub)
  }

  /** First nanosecond at which a token issued at the given time is no longer accepted. */
  function Expiry(t: Signer, issued: int): int {
    (issued + t.ttl) / SECOND * SECOND
  }

  /** Every 64-bit uid comes back from its token strictly before the truncated expiry and never
      after; an integer outside 64 bits never does. */
  lemma ParseIssued(t: Signer, uid: int, issued: int, now: int)
    requires t.crypto.Faithful()
    ensures Parse(t, Issue(t, uid, issued), now)
         == if now < Expiry(t, issued) && Strconv.IsInt64(uid) then Some(uid) else None
  {
    var j := Sign(t, Claim(t, uid, issued));
    assert t.crypto.decode(t.crypto.encode(j)) == Some(j);
    Strconv.ParseFormat(uid);
  }

  /** What is in an issued token: the uid in decimal, the issuer, issue time and expiry in whole seconds. */
  lemma IssuedIs(t: Signer, uid: int, now: int)
    requires t.crypto.Faithful()
    ensures var j := t.crypto.decode(Issue(t, uid, now));
            && j.Some? && j.value.alg == HS256
            && j.value.claims == Claims(Strconv.FormatInt(uid), t.issuer, Some(now / 1_000_000_000),
                                        Some((now + t.ttl) / 1_000_000_000), None)
            && j.value.signature == t.crypto.mac(t.secret, j.value.claims)
  {
    var j := Sign(t, Claim(t, uid, now));
    assert t.crypto.decode(t.crypto.encode(j)) == Some(j);
  }

  /** Whoever made it, a token is read as a uid exactly when it is an HS256 token signed over its claims
      with the shared secret, for the expected issuer if one is, past its start if it has one, strictly
      before its expiry, which it must have, and its subject is that uid in decimal. */
  lemma AcceptedIff(t: Signer, raw: string, now: int, uid: int)
    ensures Parse(t, raw, now) == Some(uid) <==>
            && t.crypto.decode(raw).Some?
            && var j := t.crypto.decode(raw).value;
            && j.alg == HS256
            && j.signature == t.crypto.mac(t.secret, j.claims)
            && (t.issuer == "" || j.claims.iss == t.issuer)
            && (j.claims.nbf.Some? ==> j.claims.nbf.value * 1_000_000_000 <= now)
            && j.claims.exp.Some? && now < j.claims.exp.value * 1_000_000_000
            && -9223372036854775808 <= uid <= 9223372036854775807
            && exists sign, d :: Strconv.Spells(j.claims.sub, sign, d, uid)
  {
    if t.crypto.decode(raw).Some? {
      Strconv.ParseIntIff(t.crypto.decode(raw).value.claims.sub, uid);
    }
  }

  /** A nonempty token behind "Bearer " is what both services check; without it auth-svc refuses, and
      tasks-svc checks the header itself. */
  lemma HeaderIs(t: Signer, tok: string, header: string, now: int)
    ensures var bearer := "Bearer " + tok;
            && MeUid(t, bearer, now) == AuthMw(t, bearer, now) == (if tok == "" then None else Parse(t, tok, now))
    ensures !("Bearer " <= header) ==>
              && MeUid(t, header, now) == None
              && AuthMw(t, header, now) == if header == "" then None else Parse(t, header, now)
  {
    assert ("Bearer " + tok)[|BEARER|..] == tok;
  }

  /** A token issued under one secret and issuer, read under another: accepted exactly when the two
      secrets sign its claims alike and the reader expects that issuer or none. */
  lemma ForeignToken(t: Signer, other: Signer, uid: int, issued: int, now: int)
    requires t.crypto.Faithful() && other.crypto == t.crypto && Strconv.IsInt64(uid)
    ensures Parse(other, Issue(t, uid, issued), now) == Some(uid) <==>
            && now < Expiry(t, issued)
            && (other.issuer == "" || other.issuer == t.issuer)
            && t.crypto.mac(other.secret, Claim(t, uid, issued)) == t.crypto.mac(t.secret, Claim(t, uid, issued))
    ensures Parse(other, Issue(t, uid, issued), now) in {None, Some(uid)}
  {
    var j := Sign(t, Claim(t, uid, issued));
    assert t.crypto.decode(t.crypto.encode(j)) == Some(j);
    Strconv.ParseFormat(uid);
  }

  /** The token lives its configured time less at most one second: until then it parses to its uid,
      and from the end of the configured time on it never does. */
  lemma ExpiryWithinSecond(t: Signer, uid: int, issued: int, now: int)
    requires t.crypto.Faithful() && Strconv.IsInt64(uid)
    ensures issued + t.ttl - SECOND < Expiry(t, issued) <= issued + t.ttl
    ensures now <= issued + t.ttl - SECOND ==> Parse(t, Issue(t, uid, issued), now) == Some(uid)
    ensures now >= issued + t.ttl ==> Parse(t, Issue(t, uid, issued), now) == None
  {
    ParseIssued(t, uid, issued, now);
  }

  /** An issued token in a Bearer header gives both services the same uid. */
  lemma IssuedHeaderAccepted(t: Signer, uid: int, issued: int, now: int)
    requires t.crypto.Faithful()
    ensures var header := BEARER + Issue(t, uid, issued);
            && MeUid(t, header, now) == Parse(t, Issue(t, uid, issued), now)
            && AuthMw(t, header, now) == MeUid(t, header, now)
  {
  }

  /** Under one secret and issuer the two checks agree on a header exactly when it carries the
      Bearer prefix or is not itself an acceptable token: only tasks-svc takes a bare token. */
  lemma VerifiersAgree(t: Signer, header: string, now: int)
    ensures MeUid(t, header, now) == AuthMw(t, header, now) <==>
            BEARER <= header || header == "" || Parse(t, header, now) == None
  {
  }

  /** A bare issued token: tasks-svc accepts it, auth-svc does not. */
  lemma BareTokenSplitsThem(t: Signer, uid: int, issued: int, now: int)
    requires t.crypto.Faithful() && Strconv.IsInt64(uid) && now < Expiry(t, issued)
    ensures AuthMw(t, Issue(t, uid, issued), now) == Some(uid)
    ensures MeUid(t, Issue(t, uid, issued), now) == None
  {
    ParseIssued(t, uid, issued, now);
    var j := Sign(t, Claim(t, uid, issued));
    assert t.crypto.encode(j) != "" && !(BEARER <= t.crypto.encode(j));
  }
}
