/** The signing keys of authd/server.go over authd/authstore/signing_keys.go: one key
    signs, retired keys keep verifying until their window closes. The store's table
    and slot are shared; `active` and `serving` are the process's memory of them. */
module Keyring {
  import opened StoreWrites
  import opened Tokens
  import opened Downscoping

  /** `table` gives each key's retirement second; `slot` names the key that signs. */
  datatype Ring = Ring(table: map<string, Option<int>>, slot: Option<string>,
                       active: Option<string>, serving: map<string, Option<int>>)

  predicate Serves(table: map<string, Option<int>>, slot: Option<string>, cfg: Config, now: int, kid: string) {
    && kid in table
    && (|| slot == Some(kid)
        || (table[kid].Some? && now < table[kid].value * SECOND + cfg.maxAccessTtl))
  }

  /** What reload leaves in memory of the slot and the keys it read. */
  function Loaded(r: Ring, slot: Option<string>, table: map<string, Option<int>>, cfg: Config, now: int): Ring {
    r.(active := if slot.Some? && slot.value in table then slot else None,
       serving := map kid | kid in table && Serves(table, slot, cfg, now, kid) :: table[kid])
  }

  /** A reload that nothing comes between. */
  function Reloaded(r: Ring, cfg: Config, now: int): Ring { Loaded(r, r.slot, r.table, cfg, now) }

  /** The guarded batch refuses a kid that exists and a slot whose key is gone. */
  predicate CanInstall(r: Ring, kid: string) {
    kid !in r.table && (r.slot.Some? ==> r.slot.value in r.table)
  }

  /** RotateActiveKey's batch: retire the slot's key and install the new one. */
  function Installed(r: Ring, kid: string, at: int): Ring {
    var retired := if r.slot.Some? then r.table[r.slot.value := Some(Unix(at))] else r.table;
    r.(table := retired[kid := None], slot := Some(kid))
  }

  function LocalKeys(r: Ring): KeySet {
    KeySet(r.serving.Keys, map kid | kid in r.serving && r.serving[kid].Some? :: r.serving[kid].value)
  }

  datatype RotateOutcome = Rotated | Lost | StoreFailed

  /** The signer itself. */
  class Authd {
    const cfg: Config
    var table: map<string, Option<int>>
    var slot: Option<string>
    var active: Option<string>
    var serving: map<string, Option<int>>

    function State(): Ring
      reads this
    {
      Ring(table, slot, active, serving)
    }

    constructor (cfg: Config)
      ensures this.cfg == cfg && State() == Ring(map[], None, None, map[])
    {
      this.cfg, table, slot, active, serving := cfg, map[], None, None, map[];
    }

    /** The locked half of reload: rebuild active and serving from what was read. */
    method Load(read: Option<string>, keys: map<string, Option<int>>, now: int)
      modifies this`active, this`serving
      ensures State() == Loaded(old(State()), read, keys, cfg, now)
    {
      active, serving := None, map[];
      var rest := keys.Keys;
      while rest != {}
        invariant rest <= keys.Keys
        invariant active == if read.Some? && read.value in keys.Keys - rest then read else None
        invariant serving == map kid | kid in keys && kid !in rest && Serves(keys, read, cfg, now, kid) :: keys[kid]
        decreases rest
      {
        var kid :| kid in rest;
        rest := rest - {kid};
        if read == Some(kid) {
          active := read;
          serving := serving[kid := keys[kid]];
        } else if keys[kid].Some? && now < keys[kid].value * SECOND + cfg.maxAccessTtl {
          serving := serving[kid := keys[kid]];
        }
      }
    }

    /** reload, when the slot read and the key query see one state of the store. */
    method Reload(now: int)
      modifies this`active, this`serving
      ensures State() == Reloaded(old(State()), cfg, now)
    {
      Load(slot, table, now);
    }

    /** Rotate: the batch at `at`, then a reload at `now`. A batch that reports a
        failure may still have committed; memory is then left as it was. */
    method Rotate(kid: string, at: int, batch: Batch, now: int) returns (r: RotateOutcome)
      modifies this
      ensures r == if batch != Answered then StoreFailed
                   else if kid !in old(table) && (old(slot).Some? ==> old(slot).value in old(table)) then Rotated else Lost
      ensures State() ==
              if batch == FailedBefore || !CanInstall(old(State()), kid) then old(State())
              else if batch == FailedAfter then Installed(old(State()), kid, at)
              else Reloaded(Installed(old(State()), kid, at), cfg, now)
    {
      if batch == FailedBefore {
        return StoreFailed;
      }
      var committed := kid !in table && (slot.Some? ==> slot.value in table);
      if committed {
        if slot.Some? {
          table := table[slot.value := Some(Unix(at))];
        }
        table, slot := table[kid := None], Some(kid);
      }
      if batch == FailedAfter {
        return StoreFailed;
      }
      if !committed {
        return Lost;
      }
      Reload(now);
      return Rotated;
    }

    /** signMinted under the key held in memory. */
    method Mint(c: Claims, ttl: int, now: int, jti: string) returns (r: Result<Token>)
      ensures r == SignMinted(cfg, active, c, ttl, now, jti)
      ensures r.Ok? <==> active.Some?
      ensures r.Ok? && Configured(cfg) ==>
                r.value.claims.sub == c.sub && r.value.claims.exp <= Unix(now) + cfg.maxAccessTtl / SECOND
      ensures r.Ok? && 0 < ttl && (0 < cfg.maxAccessTtl ==> ttl <= cfg.maxAccessTtl) ==> r.value.claims.exp == Unix(now + ttl)
      ensures r.Ok? && ttl <= 0 && (0 < cfg.maxAccessTtl ==> cfg.accessTtl <= cfg.maxAccessTtl) ==>
                r.value.claims.exp == Unix(now + cfg.accessTtl)
      ensures r.Ok? && 0 < cfg.maxAccessTtl < ttl ==> r.value.claims.exp == Unix(now + cfg.maxAccessTtl)
    {
      if active.None? {
        return NoSigningKey;
      }
      if Configured(cfg) {
        StampedLifetime(cfg, active.value, c.(jti := jti), ClampTtl(cfg, ttl), now, jti);
      }
      return Ok(Sign(active.value, c.(jti := jti), ClampTtl(cfg, ttl), now, jti));
    }

    /** VerifyToken over LocalKeySet. */
    method Verify(t: Token, now: int) returns (r: Result<Subject>)
      ensures r == VerifyToken(t, LocalKeys(State()), now)
      ensures r.Ok? ==> t.kid in serving && t.claims.iss == "authd" && r.value.sub == t.claims.sub && r.value.scope == t.claims.scope
      ensures r.Ok? ==> now < (t.claims.exp + SKEW + 1) * SECOND
      ensures r.Ok? && serving[t.kid].Some? ==> t.claims.iat <= serving[t.kid].value
    {
      r := VerifyToken(t, LocalKeys(State()), now);
    }
  }

  // ----- Runs -----

  /** Rotate is batch and reload with nothing between; Commit is a batch whose reload
      has not run (or failed); Reload is also a restart. ReadSlot, ReadKeys and Load are
      the three parts of a reload `k` that other steps come between. */
  datatype Event =
    | Stamp(at: int, c: Claims, ttl: int, jti: string)
    | Rotate(at: int, kid: string)
    | Commit(at: int, kid: string)
    | Reload(at: int)
    | ReadSlot(at: int, k: nat)
    | ReadKeys(at: int, k: nat)
    | Load(at: int, k: nat)

  /** What a reload in progress has read. */
  datatype Loading = SlotRead(slot: Option<string>) | KeysRead(slot: Option<string>, table: map<string, Option<int>>)

  /** `issued` is every token minted so far, `loads` the reloads in progress, `loadedAt`
      the instant of the last load. */
  datatype World = World(ring: Ring, issued: set<Token>, now: int, loadedAt: int, loads: map<nat, Loading>)

  const BOOT := World(Ring(map[], None, None, map[]), {}, SECOND, SECOND, map[])

  function Apply(cfg: Config, w: World, e: Event): World {
    if e.at < w.now then w
    else
      var later := w.(now := e.at);
      match e
      case Stamp(at, c, ttl, jti) =>
        var r := SignMinted(cfg, w.ring.active, c, ttl, at, jti);
        if r.Ok? && KnownType(c) then later.(issued := w.issued + {r.value}) else later
      case Rotate(at, kid) =>
        if CanInstall(w.ring, kid) then later.(ring := Reloaded(Installed(w.ring, kid, at), cfg, at), loadedAt := at)
        else later
      case Commit(at, kid) =>
        if CanInstall(w.ring, kid) then later.(ring := Installed(w.ring, kid, at)) else later
      case Reload(at) =>
        later.(ring := Reloaded(w.ring, cfg, at), loadedAt := at)
      case ReadSlot(at, k) =>
        if k in w.loads then later else later.(loads := w.loads[k := SlotRead(w.ring.slot)])
      case ReadKeys(at, k) =>
        if k in w.loads && w.loads[k].SlotRead? then later.(loads := w.loads[k := KeysRead(w.loads[k].slot, w.ring.table)])
        else later
      case Load(at, k) =>
        if k in w.loads && w.loads[k].KeysRead? then
          later.(ring := Loaded(w.ring, w.loads[k].slot, w.loads[k].table, cfg, at), loadedAt := at, loads := w.loads - {k})
        else later
  }

  function Run(cfg: Config, w: World, es: seq<Event>): World {
    if es == [] then w else Apply(cfg, Run(cfg, w, es[..|es| - 1]), es[|es| - 1])
  }

  /** The step leaves no rotation and no reload half done. */
  predicate Whole(e: Event) { e.Stamp? || e.Rotate? || e.Reload? }

  ghost predicate Atomic(es: seq<Event>) { forall e | e in es :: Whole(e) }

  /** A key other than the slot's is retired, and not in the future. */
  ghost predicate TableInv(r: Ring, now: int) {
    && (r.slot.Some? ==> r.slot.value in r.table && r.table[r.slot.value].None?)
    && (forall kid | kid in r.table && r.slot != Some(kid) :: r.table[kid].Some? && r.table[kid].value * SECOND <= now)
  }

  /** An older reading of the keys: none that is gone, and what was retired was retired
      at that second. */
  ghost predicate Behind(keys: map<string, Option<int>>, table: map<string, Option<int>>) {
    forall kid | kid in keys :: kid in table && (keys[kid].Some? ==> table[kid] == keys[kid])
  }

  /** Memory may be behind the store, never at odds with it, and so may what a reload in
      progress has read; the key that signs is served. */
  ghost predicate MemoryInv(w: World) {
    && Behind(w.ring.serving, w.ring.table)
    && (w.ring.active.Some? ==> w.ring.active.value in w.ring.serving)
    && (forall k | k in w.loads && w.loads[k].KeysRead? :: Behind(w.loads[k].table, w.ring.table))
  }

  ghost predicate TokenInv(cfg: Config, t: Token, r: Ring, now: int) {
    && t.kid in r.table
    && t.claims.iss == "authd" && KnownType(t.claims)
    && t.claims.nbf == t.claims.iat && 1 <= t.claims.iat <= t.claims.exp
    && t.claims.exp <= t.claims.iat + cfg.maxAccessTtl / SECOND
    && t.claims.iat * SECOND <= now
  }

  ghost predicate Inv(cfg: Config, w: World) {
    && SECOND <= w.now
    && TableInv(w.ring, w.now) && MemoryInv(w)
    && forall t | t in w.issued :: TokenInv(cfg, t, w.ring, w.now)
  }

  /** Memory agrees with the store as of the last reload. */
  ghost predicate Fresh(cfg: Config, w: World) {
    w.loadedAt <= w.now && w.ring == Reloaded(w.ring, cfg, w.loadedAt)
  }

  /** The token was not stamped after its key was retired. */
  predicate StampedInTime(t: Token, r: Ring) {
    t.kid in r.table && (r.table[t.kid].Some? ==> t.claims.iat <= r.table[t.kid].value)
  }

  lemma MintedInv(cfg: Config, kid: string, c: Claims, ttl: int, at: int, jti: string, r: Ring)
    requires Configured(cfg) && KnownType(c) && kid in r.table && SECOND <= at
    ensures TokenInv(cfg, Sign(kid, c.(jti := jti), ClampTtl(cfg, ttl), at, jti), r, at)
  {
    StampedLifetime(cfg, kid, c.(jti := jti), ClampTtl(cfg, ttl), at, jti);
    UnixMonotone(SECOND, at);
    UnixMonotone(at, at + ClampTtl(cfg, ttl));
  }

  lemma TableStep(cfg: Config, w: World, e: Event)
    requires Inv(cfg, w)
    ensures var t := Apply(cfg, w, e);
            && SECOND <= t.now && w.now <= t.now && TableInv(t.ring, t.now) && Behind(w.ring.table, t.ring.table)
  {}

  lemma BehindStays(keys: map<string, Option<int>>, a: map<string, Option<int>>, b: map<string, Option<int>>)
    requires Behind(keys, a) && Behind(a, b)
    ensures Behind(keys, b)
  {}

  lemma LoadedBehind(r: Ring, slot: Option<string>, keys: map<string, Option<int>>, cfg: Config, now: int)
    requires Behind(keys, r.table)
    ensures var t := Loaded(r, slot, keys, cfg, now);
            Behind(t.serving, t.table) && (t.active.Some? ==> t.active.value in t.serving)
  {}

  lemma MemoryStep(cfg: Config, w: World, e: Event)
    requires Inv(cfg, w)
    ensures MemoryInv(Apply(cfg, w, e))
  {
    var t := Apply(cfg, w, e);
    TableStep(cfg, w, e);
    BehindStays(w.ring.serving, w.ring.table, t.ring.table);
    forall k | k in w.loads && w.loads[k].KeysRead? ensures Behind(w.loads[k].table, t.ring.table) {
      BehindStays(w.loads[k].table, w.ring.table, t.ring.table);
    }
    if w.now <= e.at {
      match e
      case Rotate(at, kid) =>
        if CanInstall(w.ring, kid) {
          var r := Installed(w.ring, kid, at);
          LoadedBehind(r, r.slot, r.table, cfg, at);
        }
      case Reload(at) => LoadedBehind(w.ring, w.ring.slot, w.ring.table, cfg, at);
      case Load(at, k) =>
        if k in w.loads && w.loads[k].KeysRead? { LoadedBehind(w.ring, w.loads[k].slot, w.loads[k].table, cfg, at); }
      case _ =>
    }
  }

  lemma StepKeepsInv(cfg: Config, w: World, e: Event)
    requires Configured(cfg) && Inv(cfg, w)
    ensures Inv(cfg, Apply(cfg, w, e))
  {
    TableStep(cfg, w, e);
    MemoryStep(cfg, w, e);
    if e.Stamp? && w.ring.active.Some? && KnownType(e.c) && w.now <= e.at {
      MintedInv(cfg, w.ring.active.value, e.c, e.ttl, e.at, e.jti, w.ring);
    }
    var t := Apply(cfg, w, e);
    forall token | token in t.issued ensures TokenInv(cfg, token, t.ring, t.now) {
      if token in w.issued { assert TokenInv(cfg, token, w.ring, w.now); }
    }
  }

  lemma {:induction false} RunKeepsInv(cfg: Config, es: seq<Event>)
    requires Configured(cfg)
    ensures Inv(cfg, Run(cfg, BOOT, es))
    decreases |es|
  {
    if es != [] {
      RunKeepsInv(cfg, es[..|es| - 1]);
      StepKeepsInv(cfg, Run(cfg, BOOT, es[..|es| - 1]), es[|es| - 1]);
    }
  }

  /** Once memory is fresh, a live token verifies exactly when it was stamped no later
      than its key's retirement. */
  lemma LiveTokenVerifiesIff(cfg: Config, w: World, t: Token, n: int)
    requires Configured(cfg) && Inv(cfg, w) && Fresh(cfg, w) && t in w.issued
    requires w.now <= n < t.claims.exp * SECOND
    ensures VerifyToken(t, LocalKeys(w.ring), n).Ok? <==> StampedInTime(t, w.ring)
  {
    var r, m := w.ring, cfg.maxAccessTtl / SECOND;
    assert cfg.maxAccessTtl == m * SECOND && TokenInv(cfg, t, r, w.now);
    if r.slot != Some(t.kid) {
      var at := r.table[t.kid].value;
      if t.claims.iat <= at {
        assert w.loadedAt <= n < (at + m) * SECOND;
        assert (at + m) * SECOND == at * SECOND + cfg.maxAccessTtl;
        assert t.kid in r.serving;
      }
    }
    UnixMonotone(t.claims.iat * SECOND, n);
    UnixMonotone(n, t.claims.exp * SECOND);
  }

  lemma {:induction false} AtomicRuns(cfg: Config, es: seq<Event>)
    requires Configured(cfg) && Atomic(es)
    ensures var w := Run(cfg, BOOT, es);
            Inv(cfg, w) && Fresh(cfg, w) && forall t | t in w.issued :: StampedInTime(t, w.ring)
    decreases |es|
  {
    RunKeepsInv(cfg, es);
    if es != [] {
      var before, e := es[..|es| - 1], es[|es| - 1];
      AtomicRuns(cfg, before);
      AtomicStep(cfg, Run(cfg, BOOT, before), e);
    }
  }

  lemma AtomicStep(cfg: Config, w: World, e: Event)
    requires Configured(cfg) && Inv(cfg, w) && Fresh(cfg, w) && Whole(e)
    requires forall t | t in w.issued :: StampedInTime(t, w.ring)
    ensures var w' := Apply(cfg, w, e);
            Fresh(cfg, w') && forall t | t in w'.issued :: StampedInTime(t, w'.ring)
  {
    var w' := Apply(cfg, w, e);
    forall t | t in w'.issued ensures StampedInTime(t, w'.ring) {
      if e.Rotate? && t in w.issued {
        assert TokenInv(cfg, t, w.ring, w.now);
        if w.now <= e.at { UnixMonotone(t.claims.iat * SECOND, e.at); }
      }
    }
  }

  /** No live token is orphaned: over any run of mints, rotations and restarts, a
      token verifies at every instant before its expiry. */
  lemma NoLiveTokenIsOrphaned(cfg: Config, es: seq<Event>, t: Token, n: int)
    requires Configured(cfg) && Atomic(es)
    requires var w := Run(cfg, BOOT, es); t in w.issued && w.now <= n < t.claims.exp * SECOND
    ensures VerifyToken(t, LocalKeys(Run(cfg, BOOT, es).ring), n).Ok?
  {
    AtomicRuns(cfg, es);
    LiveTokenVerifiesIff(cfg, Run(cfg, BOOT, es), t, n);
  }

  /** A retirement is never undone or moved. */
  lemma {:induction false} RetirementStays(cfg: Config, w: World, es: seq<Event>, kid: string)
    requires Configured(cfg) && Inv(cfg, w) && kid in w.ring.table && w.ring.table[kid].Some?
    ensures var w' := Run(cfg, w, es);
            Inv(cfg, w') && kid in w'.ring.table && w'.ring.table[kid] == w.ring.table[kid]
    decreases |es|
  {
    if es != [] {
      RetirementStays(cfg, w, es[..|es| - 1], kid);
      StepKeepsInv(cfg, Run(cfg, w, es[..|es| - 1]), es[|es| - 1]);
    }
  }

  /** Memory has seen the key's retirement: it serves the key as retired, or not at all. */
  predicate Seen(r: Ring, kid: string) { kid in r.serving ==> r.serving[kid].Some? }

  /** A token stamped after its key's retirement verifies exactly while memory has not
      seen the retirement and the token is in its own window. */
  lemma LateTokenHonouredIff(cfg: Config, w: World, t: Token, n: int)
    requires Inv(cfg, w) && t.kid in w.ring.table && w.ring.table[t.kid].Some?
    requires t.claims.iat > w.ring.table[t.kid].value
    ensures VerifyToken(t, LocalKeys(w.ring), n).Ok? <==> !Seen(w.ring, t.kid) && SubjectFrom(t.claims, n).Ok?
  {}

  /** The load of a reload that read the slot and the keys before the key was retired. */
  predicate Forgets(w: World, e: Event, kid: string) {
    && e.Load? && w.now <= e.at && e.k in w.loads && w.loads[e.k].KeysRead?
    && w.loads[e.k].slot == Some(kid) && kid in w.loads[e.k].table && w.loads[e.k].table[kid].None?
  }

  /** What memory has seen it forgets by such a load and by nothing else. */
  lemma SeenLostIff(cfg: Config, w: World, e: Event, kid: string)
    requires Inv(cfg, w) && kid in w.ring.table && w.ring.table[kid].Some? && Seen(w.ring, kid)
    ensures Seen(Apply(cfg, w, e).ring, kid) <==> !Forgets(w, e, kid)
  {}

  lemma {:induction false} SeenStays(cfg: Config, w: World, es: seq<Event>, kid: string)
    requires Configured(cfg) && Inv(cfg, w) && kid in w.ring.table && w.ring.table[kid].Some? && Seen(w.ring, kid)
    requires forall i | 0 <= i < |es| :: !Forgets(Run(cfg, w, es[..i]), es[i], kid)
    ensures Seen(Run(cfg, w, es).ring, kid)
    decreases |es|
  {
    if es != [] {
      var n := |es| - 1;
      forall i | 0 <= i < n ensures !Forgets(Run(cfg, w, es[..n][..i]), es[..n][i], kid) {
        assert es[..n][..i] == es[..i] && es[..n][i] == es[i];
      }
      SeenStays(cfg, w, es[..n], kid);
      RetirementStays(cfg, w, es[..n], kid);
      SeenLostIff(cfg, Run(cfg, w, es[..n]), es[n], kid);
    }
  }

  /** No late token is honoured: whoever holds a retired key, what it stamps after the
      retirement never verifies once memory has seen the retirement, in that state or any
      later one, until a reload that read before the retirement is loaded. */
  lemma NoLateTokenIsHonoured(cfg: Config, w: World, es: seq<Event>, t: Token, n: int)
    requires Configured(cfg) && Inv(cfg, w) && t.kid in w.ring.table && w.ring.table[t.kid].Some?
    requires t.claims.iat > w.ring.table[t.kid].value
    requires Fresh(cfg, Run(cfg, w, es))
             || (Seen(w.ring, t.kid) && forall i | 0 <= i < |es| :: !Forgets(Run(cfg, w, es[..i]), es[i], t.kid))
    ensures !VerifyToken(t, LocalKeys(Run(cfg, w, es).ring), n).Ok?
  {
    RetirementStays(cfg, w, es, t.kid);
    if !Fresh(cfg, Run(cfg, w, es)) { SeenStays(cfg, w, es, t.kid); }
    LateTokenHonouredIff(cfg, Run(cfg, w, es), t, n);
  }

  /** Two rotations of one process whose reloads overlap: the first one's reading, loaded
      last, makes the process sign with the key the second one retired. */
  lemma OverlappedReloadForgets(cfg: Config)
    requires cfg == Config(900 * SECOND, 3600 * SECOND)
    ensures var es := [Rotate(SECOND, "k1"), ReadSlot(2 * SECOND, 0), ReadKeys(2 * SECOND, 0), Rotate(3 * SECOND, "k2")];
            var w, t := Run(cfg, BOOT, es), Run(cfg, BOOT, es + [Load(4 * SECOND, 0)]);
            && w.ring.active == Some("k2") && Seen(w.ring, "k1")
            && t.ring.active == Some("k1") && t.ring.table == map["k1" := Some(3), "k2" := None] && !Seen(t.ring, "k1")
  {
    var e1, e2, e3, e4, e5 := Rotate(SECOND, "k1"), ReadSlot(2 * SECOND, 0), ReadKeys(2 * SECOND, 0), Rotate(3 * SECOND, "k2"), Load(4 * SECOND, 0);
    assert [e1, e2, e3, e4] + [e5] == [e1, e2, e3, e4, e5];
    RunFour(cfg, e1, e2, e3, e4);
    RunFive(cfg, e1, e2, e3, e4, e5);
    var w1 := Apply(cfg, BOOT, e1);
    FirstKey(cfg);
    assert "k1"[1] != "k2"[1];
    var w3 := Apply(cfg, Apply(cfg, w1, e2), e3);
    assert w3.loads == map[0 := KeysRead(Some("k1"), map["k1" := None])] && w3.ring == w1.ring && w3.now == 2 * SECOND;
    SecondKey(cfg, w3);
    LoadsFirst(cfg, Apply(cfg, w3, e4));
  }

  lemma SecondKey(cfg: Config, w: World)
    requires w.ring == Ring(map["k1" := None], Some("k1"), Some("k1"), map["k1" := None]) && w.now == 2 * SECOND
    ensures var t := Apply(cfg, w, Rotate(3 * SECOND, "k2"));
            && t.ring.table == map["k1" := Some(3), "k2" := None] && t.ring.active == Some("k2") && Seen(t.ring, "k1")
            && t.loads == w.loads && t.now == 3 * SECOND
  {
    assert "k1"[1] != "k2"[1];
  }

  lemma LoadsFirst(cfg: Config, w: World)
    requires w.loads == map[0 := KeysRead(Some("k1"), map["k1" := None])] && w.now == 3 * SECOND
    ensures var t := Apply(cfg, w, Load(4 * SECOND, 0));
            t.ring.active == Some("k1") && t.ring.table == w.ring.table && !Seen(t.ring, "k1")
  {}

  /** A reload whose slot read and key query lie on either side of a rotation signs with a
      key it knows to be retired: what it mints is refused at once. */
  lemma StraddlingReloadRefusesItsOwn(cfg: Config, c: Claims, n: int)
    requires cfg == Config(900 * SECOND, 3600 * SECOND) && c.typ == "user"
    ensures var w := Run(cfg, BOOT, [Rotate(SECOND, "k1"), ReadSlot(2 * SECOND, 0), Commit(3 * SECOND, "k2"),
                                     ReadKeys(3 * SECOND, 0), Load(4 * SECOND, 0)]);
            var t := SignMinted(cfg, w.ring.active, c, 0, 5 * SECOND, "j");
            w.ring.active == Some("k1") && t.Ok? && !VerifyToken(t.value, LocalKeys(w.ring), n).Ok?
  {
    var e1, e2, e3, e4, e5 := Rotate(SECOND, "k1"), ReadSlot(2 * SECOND, 0), Commit(3 * SECOND, "k2"), ReadKeys(3 * SECOND, 0), Load(4 * SECOND, 0);
    RunFive(cfg, e1, e2, e3, e4, e5);
    var w1 := Apply(cfg, BOOT, e1);
    FirstKey(cfg);
    assert "k1"[1] != "k2"[1];
    var w3 := Apply(cfg, Apply(cfg, w1, e2), e3);
    assert w3.ring.table == map["k1" := Some(3), "k2" := None] && w3.loads == map[0 := SlotRead(Some("k1"))];
    var w4 := Apply(cfg, w3, e4);
    assert w4.loads == map[0 := KeysRead(Some("k1"), w3.ring.table)];
  }

  lemma FirstKey(cfg: Config)
    ensures var w := Apply(cfg, BOOT, Rotate(SECOND, "k1"));
            && w.ring == Ring(map["k1" := None], Some("k1"), Some("k1"), map["k1" := None])
            && w.loads == map[] && w.now == SECOND && w.issued == {}
  {}

  /** Memory that has not seen it does honour one: between a rotation's batch and its
      reload, a token stamped two seconds after the retirement verifies to its expiry. */
  lemma StaleMemoryHonoursLate(cfg: Config, c: Claims, n: int)
    requires cfg == Config(900 * SECOND, 3600 * SECOND) && c.typ == "user"
    requires 4 * SECOND <= n < 904 * SECOND
    ensures var w := Run(cfg, BOOT, [Rotate(SECOND, "k1"), Commit(2 * SECOND, "k2"), Stamp(4 * SECOND, c, 0, "j")]);
            var t := Sign("k1", c.(jti := "j"), 900 * SECOND, 4 * SECOND, "j");
            && t in w.issued && "k1" in w.ring.table && w.ring.table["k1"] == Some(2) && t.claims.iat == 4
            && VerifyToken(t, LocalKeys(w.ring), n).Ok?
  {
    var e1, e2, e3 := Rotate(SECOND, "k1"), Commit(2 * SECOND, "k2"), Stamp(4 * SECOND, c, 0, "j");
    RunFour(cfg, e1, e2, e3, e3);
    var w1 := Apply(cfg, BOOT, e1);
    assert w1.ring.active == Some("k1") && w1.ring.serving == map["k1" := None];
    assert "k1"[1] != "k2"[1];
    var w2 := Apply(cfg, w1, e2);
    assert w2.ring.active == Some("k1") && w2.ring.table["k1"] == Some(2) && w2.ring.serving == w1.ring.serving;
  }

  /** Mint then Verify: in every reachable state the token just minted is read back with
      its subject, scope and folder exactly from thirty seconds before its issue to the end
      of the thirtieth second after its expiry, unless memory signs with a key it serves as
      retired before that second. */
  lemma MintThenVerify(cfg: Config, w: World, c: Claims, ttl: int, at: int, jti: string, n: int)
    requires Configured(cfg) && Inv(cfg, w) && w.ring.active.Some? && SECOND <= at
    ensures var t := SignMinted(cfg, w.ring.active, c, ttl, at, jti).value;
            var r := VerifyToken(t, LocalKeys(w.ring), n);
            var served := w.ring.serving[w.ring.active.value];
            && (r.Ok? <==>
                  && (c.typ == "user" || c.typ == "service" || (c.typ == "downscoped" && c.parentJti != ""))
                  && (t.claims.iat - SKEW) * SECOND <= n < (t.claims.exp + SKEW + 1) * SECOND
                  && (served.Some? ==> Unix(at) <= served.value))
            && (r.Ok? ==> r.value == Subject(c.sub, c.typ, c.scope, c.aud, t.claims.jti, c.parentJti, c.folder,
                                             Unix(at), Unix(at + ClampTtl(cfg, ttl))))
  {
    AcceptanceWindow(w.ring.active.value, c.(jti := jti), ClampTtl(cfg, ttl), at, jti, n);
  }

  /** The window closes: once memory was rebuilt after it, nothing a retired key signed
      verifies. */
  lemma WindowCloses(cfg: Config, w: World, t: Token, n: int)
    requires Inv(cfg, w) && Fresh(cfg, w) && t.kid in w.ring.table && w.ring.table[t.kid].Some?
    requires w.loadedAt >= w.ring.table[t.kid].value * SECOND + cfg.maxAccessTtl
    ensures !VerifyToken(t, LocalKeys(w.ring), n).Ok?
  {
    assert w.ring.serving == Reloaded(w.ring, cfg, w.loadedAt).serving;
    assert !Serves(w.ring.table, w.ring.slot, cfg, w.loadedAt, t.kid);
  }

  /** Atomicity is needed: a mint between a rotation's batch and its reload signs with
      the key just retired, and the token is refused for the rest of its life. */
  lemma SplitRotationOrphans(cfg: Config, c: Claims, n: int)
    requires cfg == Config(900 * SECOND, 3600 * SECOND) && c.typ == "user"
    requires 5 * SECOND <= n < 904 * SECOND
    ensures var w := Run(cfg, BOOT, [Rotate(SECOND, "k1"), Commit(2 * SECOND, "k2"), Stamp(4 * SECOND, c, 0, "j"), Reload(5 * SECOND)]);
            var t := Sign("k1", c.(jti := "j"), 900 * SECOND, 4 * SECOND, "j");
            t in w.issued && w.now <= n < t.claims.exp * SECOND && !VerifyToken(t, LocalKeys(w.ring), n).Ok?
  {
    var e1, e2, e3, e4 := Rotate(SECOND, "k1"), Commit(2 * SECOND, "k2"), Stamp(4 * SECOND, c, 0, "j"), Reload(5 * SECOND);
    RunFour(cfg, e1, e2, e3, e4);
    var w1 := Apply(cfg, BOOT, e1);
    assert w1.ring.active == Some("k1");
    assert "k1"[1] != "k2"[1];
    var w2 := Apply(cfg, w1, e2);
    assert w2.ring.active == Some("k1") && w2.ring.table["k1"] == Some(2);
    var w3 := Apply(cfg, w2, e3);
    var w4 := Apply(cfg, w3, e4);
    assert w4.ring.table["k1"] == Some(2);
  }

  lemma RunFour(cfg: Config, e1: Event, e2: Event, e3: Event, e4: Event)
    ensures Run(cfg, BOOT, [e1, e2, e3, e4]) == Apply(cfg, Apply(cfg, Apply(cfg, Apply(cfg, BOOT, e1), e2), e3), e4)
    ensures Run(cfg, BOOT, [e1, e2, e3]) == Apply(cfg, Apply(cfg, Apply(cfg, BOOT, e1), e2), e3)
  {
    assert [e1][..0] == [];
    assert Run(cfg, BOOT, [e1]) == Apply(cfg, BOOT, e1);
    assert [e1, e2][..1] == [e1];
    assert Run(cfg, BOOT, [e1, e2]) == Apply(cfg, Apply(cfg, BOOT, e1), e2);
    assert [e1, e2, e3][..2] == [e1, e2];
    assert [e1, e2, e3, e4][..3] == [e1, e2, e3];
  }

  lemma RunFive(cfg: Config, e1: Event, e2: Event, e3: Event, e4: Event, e5: Event)
    ensures Run(cfg, BOOT, [e1, e2, e3, e4, e5]) ==
            Apply(cfg, Apply(cfg, Apply(cfg, Apply(cfg, Apply(cfg, BOOT, e1), e2), e3), e4), e5)
  {
    RunFour(cfg, e1, e2, e3, e4);
    assert [e1, e2, e3, e4, e5][..4] == [e1, e2, e3, e4];
  }

  /** A mint in memory's name is issued: whoever it is for, a user, a service or a child
      that names its parent. */
  lemma StampIssues(cfg: Config, w: World, at: int, c: Claims, ttl: int, jti: string)
    requires w.now <= at && w.ring.active.Some?
    requires c.typ == "user" || c.typ == "service" || (c.typ == "downscoped" && c.parentJti != "")
    ensures SignMinted(cfg, w.ring.active, c, ttl, at, jti).value in Apply(cfg, w, Stamp(at, c, ttl, jti)).issued
  {}

  /** A rotation hands the signing over at once: the new key signs, the old one only
      verifies, and a token minted next verifies under the new key. */
  lemma RotationHandsOver(cfg: Config, w: World, kid: string, c: Claims, ttl: int, jti: string, at: int)
    requires Configured(cfg) && Inv(cfg, w) && w.now <= at && kid !in w.ring.table && (c.typ == "user" || c.typ == "service")
    ensures var t := Apply(cfg, w, Rotate(at, kid));
            var m := Apply(cfg, t, Stamp(at, c, ttl, jti));
            var token := Sign(kid, c.(jti := jti), ClampTtl(cfg, ttl), at, jti);
            && t.ring.active == Some(kid) && t.ring.slot == Some(kid)
            && (w.ring.slot.Some? ==> t.ring.table[w.ring.slot.value] == Some(Unix(at)) && w.ring.slot.value in t.ring.serving)
            && token in m.issued && VerifyToken(token, LocalKeys(m.ring), at).Ok?
  {
    var t := Apply(cfg, w, Rotate(at, kid));
    StepKeepsInv(cfg, w, Rotate(at, kid));
    MintedInv(cfg, kid, c, ttl, at, jti, t.ring);
    UnixMonotone(SECOND, at);
    if w.ring.slot.Some? {
      assert at < Unix(at) * SECOND + cfg.maxAccessTtl;
    }
  }
}
