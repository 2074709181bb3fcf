/** Minting from a parent token in authd/server.go: a descendant never exceeds an
    ancestor. */
module Downscoping {
  import opened Acl
  import opened Scope
  import opened Tokens

  /** folderWithin: an empty parent folder bounds nothing. */
  predicate FolderWithin(parent: string, child: string) {
    parent == "" || Contains(parent, child)
  }

  /** The folder is the bound itself or lies under it; no bound holds nothing back. */
  predicate Inside(bound: string, folder: string) {
    bound == "" || folder == bound || bound + "/" <= folder
  }

  lemma FolderWithinIff(parent: string, child: string)
    ensures FolderWithin(parent, child) <==> Inside(parent, child)
  {}

  /** signMinted. `active` is the signing key held in memory. */
  function SignMinted(cfg: Config, active: Option<string>, c: Claims, ttl: int, now: int, jti: string): Result<Token> {
    if active.None? then NoSigningKey
    else Ok(Sign(active.value, c.(jti := jti), ClampTtl(cfg, ttl), now, jti))
  }

  ghost predicate WithinParent(parent: Subject, requested: seq<string>, folder: string) {
    && (forall want | want in requested :: CoveredBy(parent.scope, want))
    && (folder == "" || FolderWithin(parent.folder, folder))
  }

  /** The lifetime asked for, cut to what the parent has left while it has any left. */
  function RemainingTtl(parent: Subject, ttl: int, now: int): int {
    var rem := parent.expires * SECOND - now;
    if rem > 0 && (ttl <= 0 || ttl > rem) then rem else ttl
  }

  function Child(parent: Subject, requested: seq<string>, folder: string): Claims {
    Claims(parent.sub, "downscoped", if requested == [] then parent.scope else requested, parent.aud,
           "", 0, 0, 0, "", parent.jti, if folder == "" then parent.folder else folder)
  }

  /** Downscope. It reads the clock for the parent's remainder (`now`) and again to
      stamp (`later`). */
  method Downscope(cfg: Config, active: Option<string>, parent: Subject, requested: seq<string>, folder: string,
                   ttl: int, now: int, later: int, jti: string) returns (r: Result<Token>)
    ensures if WithinParent(parent, requested, folder)
            then r == SignMinted(cfg, active, Child(parent, requested, folder), RemainingTtl(parent, ttl, now), later, jti)
            else r == ScopeTooBroad
    // It refuses what exceeds the parent, and nothing else.
    ensures r == ScopeTooBroad <==>
              (exists want | want in requested :: !CoveredBy(parent.scope, want)) || (folder != "" && !Inside(parent.folder, folder))
    ensures r == NoSigningKey <==> r != ScopeTooBroad && active.None?
    // The token is the parent's subject under the scope and folder that were asked for.
    ensures r.Ok? ==>
              var c := r.value.claims;
              && Some(r.value.kid) == active && c.typ == "downscoped" && c.sub == parent.sub && c.aud == parent.aud
              && c.parentJti == parent.jti && (jti != "" ==> c.jti == jti)
              && (requested != [] ==> c.scope == requested) && (requested == [] ==> c.scope == parent.scope)
              && (folder != "" ==> c.folder == folder) && (folder == "" ==> c.folder == parent.folder)
    // It lives as long as was asked, as the parent does, or as long as any token may.
    ensures r.Ok? ==> r.value.claims.iat == Unix(later)
    ensures var left := parent.expires * SECOND - now;
            r.Ok? && 0 < ttl && (0 < left ==> ttl <= left) && (0 < cfg.maxAccessTtl ==> ttl <= cfg.maxAccessTtl) ==>
              r.value.claims.exp == Unix(later + ttl)
    ensures var left := parent.expires * SECOND - now;
            r.Ok? && 0 < left && (ttl <= 0 || left < ttl) && (0 < cfg.maxAccessTtl ==> left <= cfg.maxAccessTtl) ==>
              r.value.claims.exp == Unix(later + left)
    ensures var left := parent.expires * SECOND - now;
            r.Ok? && 0 < cfg.maxAccessTtl && (if 0 < left then cfg.maxAccessTtl < left && (ttl <= 0 || cfg.maxAccessTtl < ttl)
                                              else cfg.maxAccessTtl < ttl) ==>
              r.value.claims.exp == Unix(later + cfg.maxAccessTtl)
    ensures r.Ok? && parent.expires * SECOND <= now && ttl <= 0 && (0 < cfg.maxAccessTtl ==> cfg.accessTtl <= cfg.maxAccessTtl) ==>
              r.value.claims.exp == Unix(later + cfg.accessTtl)
  {
    FolderWithinIff(parent.folder, folder);
    for i := 0 to |requested|
      invariant forall k | 0 <= k < i :: CoveredBy(parent.scope, requested[k])
    {
      var covered := ScopeCoveredBy(parent.scope, requested[i]);
      if !covered {
        return ScopeTooBroad;
      }
    }
    if folder != "" && !FolderWithin(parent.folder, folder) {
      return ScopeTooBroad;
    }
    var scope, within, left := requested, folder, ttl;
    if |scope| == 0 {
      scope := parent.scope;
    }
    if within == "" {
      within := parent.folder;
    }
    var rem := parent.expires * SECOND - now;
    if rem > 0 && (left <= 0 || left > rem) {
      left := rem;
    }
    if active.None? {
      return NoSigningKey;
    }
    if left <= 0 {
      left := cfg.accessTtl;
    }
    if cfg.maxAccessTtl > 0 && left > cfg.maxAccessTtl {
      left := cfg.maxAccessTtl;
    }
    var c := Claims(parent.sub, "downscoped", scope, parent.aud, "", 0, 0, 0, jti, parent.jti, within);
    return Ok(Sign(active.value, c, left, later, jti));
  }

  /** MintForSubject: the scope is the target's grants, or what was asked of them. */
  method MintForSubject(cfg: Config, active: Option<string>, c: Claims, targetGrants: seq<string>, now: int, jti: string)
    returns (r: Result<Token>)
    ensures r.Ok? <==> active.Some?
    ensures r.Ok? ==> r.value.kid == active.value && r.value.claims.sub == c.sub
    ensures r.Ok? ==> Attenuates(targetGrants, r.value.claims.scope)
    ensures r.Ok? && c.scope != [] ==> Attenuates(c.scope, r.value.claims.scope)
    ensures r.Ok? ==> forall s | s in c.scope && CoveredBy(targetGrants, s) :: s in r.value.claims.scope
    ensures r.Ok? ==> r.value.claims.iat == Unix(now) && r.value.claims.exp == Unix(now + cfg.accessTtl)
  {
    if active.None? {
      return NoSigningKey;
    }
    var scope := c.scope;
    if |scope| == 0 {
      scope := targetGrants;
    } else {
      ghost var at;
      scope, at := IntersectScopes(scope, targetGrants);
    }
    return Ok(Sign(active.value, c.(scope := scope), cfg.accessTtl, now, jti));
  }

  /** IssuerMint: bounded by the target's grants, never by the caller's scope. */
  method IssuerMint(cfg: Config, active: Option<string>, sub: string, typ: string, requested: seq<string>,
                    targetGrants: seq<string>, folder: string, aud: string, ttl: int, now: int, jti: string)
    returns (r: Result<Token>)
    ensures r == ScopeTooBroad <==> exists want | want in requested :: !CoveredBy(targetGrants, want)
    ensures r.Ok? ==> var c := r.value.claims;
                      && Some(r.value.kid) == active && c.sub == sub && c.typ == typ && c.folder == folder && c.aud == aud
                      && Attenuates(targetGrants, c.scope) && (requested != [] ==> c.scope == requested)
                      && (Configured(cfg) ==> c.exp <= c.iat + cfg.maxAccessTtl / SECOND)
    ensures !r.Ok? && r != ScopeTooBroad ==> r == NoSigningKey && active.None?
  {
    for i := 0 to |requested|
      invariant forall k | 0 <= k < i :: CoveredBy(targetGrants, requested[k])
    {
      var covered := ScopeCoveredBy(targetGrants, requested[i]);
      if !covered {
        return ScopeTooBroad;
      }
    }
    CoveredAttenuates(targetGrants, requested);
    var c := Claims(sub, typ, if |requested| == 0 then targetGrants else requested, aud, "", 0, 0, 0, "", "", folder);
    if Configured(cfg) && active.Some? {
      StampedLifetime(cfg, active.value, c.(jti := jti), ClampTtl(cfg, ttl), now, jti);
    }
    r := SignMinted(cfg, active, c, ttl, now, jti);
  }

  // ----- Attenuation along a chain -----

  /** One downscope: the request, the key and the instants it ran at. */
  datatype Mint = Mint(cfg: Config, key: string, requested: seq<string>, folder: string, ttl: int,
                       now: int, later: int, jti: string, verifiedAt: int)

  /** `child` is what a verifier reads from the token Downscope answers. */
  ghost predicate Minted(parent: Subject, child: Subject, m: Mint) {
    && WithinParent(parent, m.requested, m.folder)
    && (var token := SignMinted(m.cfg, Some(m.key), Child(parent, m.requested, m.folder),
                                RemainingTtl(parent, m.ttl, m.now), m.later, m.jti).value;
        SubjectFrom(token.claims, m.verifiedAt) == Ok(child))
  }

  ghost predicate Derives(parent: Subject, child: Subject) {
    exists m :: Minted(parent, child, m)
  }

  /** What the descendant keeps and what it cannot exceed. */
  ghost predicate Within(ancestor: Subject, descendant: Subject) {
    && descendant.sub == ancestor.sub
    && Attenuates(ancestor.scope, descendant.scope)
    && Inside(ancestor.folder, descendant.folder)
    && (ancestor.folder == "" || descendant.folder != "")
  }

  lemma DerivesWithin(parent: Subject, child: Subject)
    requires Derives(parent, child)
    ensures Within(parent, child) && child.parentJti == parent.jti
  {
    var m :| Minted(parent, child, m);
    if m.requested != [] { CoveredAttenuates(parent.scope, m.requested); }
    FolderWithinIff(parent.folder, m.folder);
  }

  /** What one mint asked for: the parent's own where it named nothing. */
  function AskedScope(parent: Subject, m: Mint): seq<string> { if m.requested == [] then parent.scope else m.requested }

  function AskedFolder(parent: Subject, m: Mint): string { if m.folder == "" then parent.folder else m.folder }

  /** Nor does a descendant ever authorize anything beyond what some mint on the way asked
      for: each is bounded by every request above it, not only by the parents. */
  lemma {:induction false} ChainWithinRequests(chain: seq<Subject>, ms: seq<Mint>, i: nat, j: nat)
    requires |chain| == |ms| + 1 && forall k | 0 <= k < |ms| :: Minted(chain[k], chain[k + 1], ms[k])
    requires i < j < |chain|
    ensures chain[i + 1].scope == AskedScope(chain[i], ms[i]) && chain[i + 1].folder == AskedFolder(chain[i], ms[i])
    ensures Attenuates(AskedScope(chain[i], ms[i]), chain[j].scope) && Inside(AskedFolder(chain[i], ms[i]), chain[j].folder)
  {
    assert Minted(chain[i], chain[i + 1], ms[i]);
    if i + 1 < j {
      forall k | 0 <= k < |chain| - 1 ensures Derives(chain[k], chain[k + 1]) { assert Minted(chain[k], chain[k + 1], ms[k]); }
      ChainAttenuates(chain, i + 1, j);
    }
  }

  lemma WithinTransitive(a: Subject, b: Subject, c: Subject)
    requires Within(a, b) && Within(b, c)
    ensures Within(a, c)
  {
    forall resource, verb | HasScope(c.scope, resource, verb) ensures HasScope(a.scope, resource, verb) {
      assert HasScope(b.scope, resource, verb);
    }
    if a.folder != "" {
      FolderWithinIff(a.folder, b.folder);
      FolderWithinIff(b.folder, c.folder);
      ContainsTransitive(a.folder, b.folder, c.folder);
    }
  }

  /** Downscoping attenuates along any chain: every descendant lies within every
      ancestor. */
  lemma {:induction false} ChainAttenuates(chain: seq<Subject>, i: nat, j: nat)
    requires forall k | 0 <= k < |chain| - 1 :: Derives(chain[k], chain[k + 1])
    requires i < j < |chain|
    ensures Within(chain[i], chain[j])
    decreases j - i
  {
    DerivesWithin(chain[j - 1], chain[j]);
    if i < j - 1 {
      ChainAttenuates(chain, i, j - 1);
      WithinTransitive(chain[i], chain[j - 1], chain[j]);
    }
  }

  /** With one clock reading the child outlives its parent exactly when the parent
      was presented at or after its expiry, inside the verifier's skew, where the
      cut does not apply. Requests are in whole seconds. */
  lemma ExpiryBoundIff(cfg: Config, active: Option<string>, parent: Subject, c: Claims, ttl: int, now: int, jti: string)
    requires Configured(cfg) && active.Some? && (ttl <= 0 || ttl >= SECOND)
    ensures var r := SignMinted(cfg, active, c, RemainingTtl(parent, ttl, now), now, jti);
            r.value.claims.exp <= parent.expires <==> now < parent.expires * SECOND
  {
    var left := RemainingTtl(parent, ttl, now);
    var given := ClampTtl(cfg, left);
    if now < parent.expires * SECOND {
      UnixMonotone(now + given, parent.expires * SECOND);
    } else {
      UnixMonotone(parent.expires * SECOND + SECOND, now + given);
    }
  }

  /** The second clock reading can add no more than the time between the two. */
  lemma ExpiryBoundTwoReadings(cfg: Config, active: Option<string>, parent: Subject, c: Claims, ttl: int,
                               now: int, later: int, jti: string)
    requires Configured(cfg) && active.Some? && now <= later && now < parent.expires * SECOND
    ensures var r := SignMinted(cfg, active, c, RemainingTtl(parent, ttl, now), later, jti);
            r.value.claims.exp * SECOND <= parent.expires * SECOND + (later - now)
  {
    var given := ClampTtl(cfg, RemainingTtl(parent, ttl, now));
    assert given <= parent.expires * SECOND - now;
    assert Unix(later + given) * SECOND <= later + given;
  }

  /** One mint of a parent that had time left, its second clock reading not before its first. */
  ghost predicate InTime(parent: Subject, child: Subject, m: Mint) {
    && Minted(parent, child, m) && Configured(m.cfg)
    && m.now <= m.later && m.now < parent.expires * SECOND
  }

  /** The time that passed between the two readings, over all mints. */
  ghost function Slack(ms: seq<Mint>): int {
    if ms == [] then 0 else Slack(ms[..|ms| - 1]) + ms[|ms| - 1].later - ms[|ms| - 1].now
  }

  /** Along any chain whose parents were presented before they expired, no descendant
      outlives an ancestor by more than the clock moved inside the mints; with one
      reading a mint, not at all. */
  lemma {:induction false} ChainExpires(chain: seq<Subject>, ms: seq<Mint>)
    requires |chain| == |ms| + 1 && forall k | 0 <= k < |ms| :: InTime(chain[k], chain[k + 1], ms[k])
    ensures chain[|ms|].expires * SECOND <= chain[0].expires * SECOND + Slack(ms)
    ensures (forall m | m in ms :: m.now == m.later) ==> Slack(ms) == 0 && chain[|ms|].expires <= chain[0].expires
    decreases |ms|
  {
    if ms != [] {
      var n := |ms| - 1;
      var m, parent := ms[n], chain[n];
      assert InTime(chain[n], chain[n + 1], m);
      assert ms == ms[..n] + [m];
      ChainExpires(chain[..|ms|], ms[..n]);
      ExpiryBoundTwoReadings(m.cfg, Some(m.key), parent, Child(parent, m.requested, m.folder), m.ttl, m.now, m.later, m.jti);
    }
  }

  /** A verifier does accept such a parent: its last thirty seconds are borrowed. */
  lemma SkewAcceptsExpired(c: Claims, now: int)
    requires c.iss == "authd" && KnownType(c) && c.nbf == c.iat && 0 < c.iat <= c.exp
    requires c.exp * SECOND <= now < (c.exp + SKEW + 1) * SECOND
    ensures SubjectFrom(c, now).Ok? && SubjectFrom(c, now).value.expires * SECOND <= now
  {
    UnixMonotone(c.exp * SECOND, now);
  }
}
