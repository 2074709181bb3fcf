/** auth/es256.go and auth/jwks.go: stamping a token, and the checks a verifier
    makes. A signature is an unforgeable pairing of a key id with its claims. Time
    is counted in nanoseconds; claims hold whole seconds. */
module Tokens {

  const SECOND := 1_000_000_000

  /** tokenClockSkew, in seconds. */
  const SKEW := 30

  datatype Option<+T> = None | Some(value: T)

  datatype Result<+T> = Ok(value: T) | Invalid | Expired | NoSigningKey | ScopeTooBroad

  /** The claims of sections 4.1.1 to 4.1.7 of RFC 7519 plus the service's own. */
  datatype Claims = Claims(sub: string, typ: string, scope: seq<string>, aud: string, iss: string,
                           iat: int, nbf: int, exp: int, jti: string, parentJti: string, folder: string)

  datatype Token = Token(kid: string, claims: Claims)

  datatype Subject = Subject(sub: string, typ: string, scope: seq<string>, aud: string,
                             jti: string, parentJti: string, folder: string, issuedAt: int, expires: int)

  /** `retired` holds a second for each retired key that still serves. */
  datatype KeySet = KeySet(keys: set<string>, retired: map<string, int>)

  datatype Config = Config(accessTtl: int, maxAccessTtl: int)

  /** An access lifetime inside the maximum, which is a whole number of seconds. */
  predicate Configured(cfg: Config) {
    SECOND <= cfg.accessTtl <= cfg.maxAccessTtl && cfg.maxAccessTtl % SECOND == 0
  }

  function Unix(t: int): int { t / SECOND }

  /** Sign: the issuer is forced, the three times come from one clock reading. */
  function Sign(kid: string, c: Claims, ttl: int, now: int, newJti: string): Token {
    Token(kid, c.(iss := "authd", iat := Unix(now), nbf := Unix(now), exp := Unix(now + ttl),
                  jti := if c.jti == "" then newJti else c.jti))
  }

  predicate KnownType(c: Claims) {
    c.typ == "user" || c.typ == "service" || (c.typ == "downscoped" && c.parentJti != "")
  }

  /** subjectFromPayload: issuer, required times, type and time window. */
  function SubjectFrom(c: Claims, now: int): Result<Subject> {
    if c.iss != "authd" || c.exp == 0 || c.nbf == 0 || c.iat == 0 || !KnownType(c) then Invalid
    else if Unix(now) + SKEW < c.nbf then Invalid
    else if Unix(now) > c.exp + SKEW then Expired
    else Ok(Subject(c.sub, c.typ, c.scope, c.aud, c.jti, c.parentJti, c.folder, c.iat, c.exp))
  }

  /** VerifyToken on the local key set. */
  function VerifyToken(t: Token, ks: KeySet, now: int): Result<Subject> {
    if t.kid !in ks.keys then Invalid
    else
      var s := SubjectFrom(t.claims, now);
      if s.Ok? && t.kid in ks.retired && s.value.issuedAt > ks.retired[t.kid] then Invalid else s
  }

  /** The lifetime signMinted gives: the default when none is asked, never above the maximum. */
  function ClampTtl(cfg: Config, ttl: int): int {
    var t := if ttl <= 0 then cfg.accessTtl else ttl;
    if cfg.maxAccessTtl > 0 && t > cfg.maxAccessTtl then cfg.maxAccessTtl else t
  }

  /** A stamped token lives at most the maximum, counted in the seconds its claims hold. */
  lemma StampedLifetime(cfg: Config, kid: string, c: Claims, ttl: int, now: int, newJti: string)
    requires Configured(cfg) && ttl <= cfg.maxAccessTtl
    ensures var t := Sign(kid, c, ttl, now, newJti);
            t.claims.exp <= t.claims.iat + cfg.maxAccessTtl / SECOND
  {
    var m := cfg.maxAccessTtl / SECOND;
    assert cfg.maxAccessTtl == m * SECOND;
    UnixMonotone(now + ttl, now + m * SECOND);
    assert Unix(now + m * SECOND) == Unix(now) + m;
  }

  /** A signed token is accepted exactly when it is a user's or a service's, or a
      downscoped one that names its parent, from thirty seconds before its issue to the
      end of the thirtieth second after its expiry; it is then read back as it was
      stamped. */
  lemma AcceptanceWindow(kid: string, c: Claims, ttl: int, now: int, newJti: string, n: int)
    requires SECOND <= now && 0 <= ttl
    ensures var t := Sign(kid, c, ttl, now, newJti).claims;
            && (SubjectFrom(t, n).Ok? <==>
                  && (c.typ == "user" || c.typ == "service" || (c.typ == "downscoped" && c.parentJti != ""))
                  && (now / SECOND - 30) * SECOND <= n < ((now + ttl) / SECOND + 31) * SECOND)
            && (SubjectFrom(t, n).Ok? ==>
                  SubjectFrom(t, n).value == Subject(c.sub, c.typ, c.scope, c.aud, if c.jti == "" then newJti else c.jti,
                                                     c.parentJti, c.folder, now / SECOND, (now + ttl) / SECOND))
  {
    UnixMonotone(SECOND, now);
    UnixMonotone(now, now + ttl);
    var t := Sign(kid, c, ttl, now, newJti).claims;
    assert Unix(n) >= t.iat - SKEW <==> n >= (t.iat - SKEW) * SECOND;
    assert Unix(n) <= t.exp + SKEW <==> n < (t.exp + SKEW + 1) * SECOND;
  }

  lemma UnixMonotone(a: int, b: int)
    requires a <= b
    ensures Unix(a) <= Unix(b)
  {}
}
