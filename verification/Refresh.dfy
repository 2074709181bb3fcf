/** Refresh-token rotation: authd/server.go's Refresh over the guarded batches of
    authd/authstore/refresh_tokens.go, the rotation with reuse detection of section
    4.14.2 of RFC 9700. A call is a sequence of atomic steps; between two steps of
    one call any step of any other call may run. Tokens are addressed by their
    secret, since the hash is taken to be injective. */
module RefreshProtocol {
  import opened StoreWrites

  datatype TokenRow = TokenRow(family: string, sub: string, expires: int, used: bool)

  datatype Family = Family(sub: string, rotations: nat, revoked: bool)

  datatype Db = Db(tokens: map<string, TokenRow>, families: map<string, Family>)

  // ----- The store's atomic writes -----

  /** StartRefreshFamily: the family and its first token, both absent before. */
  predicate CanStart(db: Db, fam: string, secret: string) {
    fam !in db.families && secret !in db.tokens
  }

  function Started(db: Db, fam: string, secret: string, sub: string, expires: int): Db {
    Db(db.tokens[secret := TokenRow(fam, sub, expires, false)], db.families[fam := Family(sub, 1, false)])
  }

  /** ClaimAndRotateRefresh's conditions: family live, count as read, token unused,
      successor absent. */
  predicate CanClaim(db: Db, raw: string, fam: string, count: nat, next: string) {
    && fam in db.families && !db.families[fam].revoked && db.families[fam].rotations == count
    && raw in db.tokens && !db.tokens[raw].used
    && next !in db.tokens
  }

  function Claimed(db: Db, raw: string, fam: string, sub: string, count: nat, next: string, expires: int): Db
    requires raw in db.tokens
  {
    Db(db.tokens[raw := db.tokens[raw].(used := true)][next := TokenRow(fam, sub, expires, false)],
       db.families[fam := Family(sub, count + 1, false)])
  }

  /** RevokeFamily: a family that is missing or already dead is left alone. */
  function Killed(db: Db, fam: string): Db {
    if fam in db.families then db.(families := db.families[fam := db.families[fam].(revoked := true)]) else db
  }

  // ----- Calls in flight -----

  datatype Outcome =
    | Unknown | ReadFailed | RevokedSeen | ExpiredSeen | GrantsDown | StoreFailed | Crashed
    | Reuse(killed: bool)
    | Won(next: string, minted: bool)

  /** Where one Refresh call stands. */
  datatype Call =
    | Presented(raw: string)
    | Looked(raw: string, row: TokenRow)
    | Granted(raw: string, row: TokenRow)
    | Counted(raw: string, row: TokenRow, count: nat)
    | Killing(raw: string, family: string)
    | Done(raw: string, outcome: Outcome)

  /** The store with two histories: each family's tokens in the order they were
      issued, and which call spent each token. */
  datatype Store = Store(db: Db, chain: map<string, seq<string>>, winner: map<string, nat>)

  datatype State = State(store: Store, calls: map<nat, Call>)

  const EMPTY := State(Store(Db(map[], map[]), map[], map[]), map[])

  datatype Event =
    | Login(fam: string, secret: string, sub: string, expires: int)
    | Kill(fam: string)
    | Present(id: nat, raw: string)
    | ReadToken(id: nat, fails: bool)
    | ReadFamily(id: nat, fails: bool, now: int, grantsAnswer: bool)
    | ReadCount(id: nat, fails: bool)
    | Rotate(id: nat, next: string, expires: int, batch: Batch, mints: bool)
    | Revoke(id: nat, batch: Batch)
    | Crash(id: nat)

  // ----- What a step writes to the store -----

  datatype Write =
    | Nothing
    | Start(fam: string, secret: string, sub: string, expires: int)
    | Kills(fam: string)
    | Claim(id: nat, raw: string, row: TokenRow, count: nat, next: string, expires: int)

  function CallAt(s: State, id: nat): Call {
    if id in s.calls then s.calls[id] else Done("", Crashed)
  }

  function WriteOf(s: State, e: Event): (w: Write)
    ensures w.Claim? ==> CanClaim(s.store.db, w.raw, w.row.family, w.count, w.next)
  {
    match e
    case Login(fam, secret, sub, expires) =>
      if CanStart(s.store.db, fam, secret) then Start(fam, secret, sub, expires) else Nothing
    case Kill(fam) => Kills(fam)
    case Rotate(id, next, expires, batch, _) =>
      (match CallAt(s, id)
       case Counted(raw, row, count) =>
         if batch != FailedBefore && CanClaim(s.store.db, raw, row.family, count, next)
         then Claim(id, raw, row, count, next, expires) else Nothing
       case _ => Nothing)
    case Revoke(id, batch) =>
      (match CallAt(s, id)
       case Killing(_, family) => if batch == FailedBefore then Nothing else Kills(family)
       case _ => Nothing)
    case _ => Nothing
  }

  function Written(st: Store, w: Write): Store
    requires w.Claim? ==> w.raw in st.db.tokens
  {
    match w
    case Nothing => st
    case Start(fam, secret, sub, expires) =>
      st.(db := Started(st.db, fam, secret, sub, expires), chain := st.chain[fam := [secret]])
    case Kills(fam) => st.(db := Killed(st.db, fam))
    case Claim(id, raw, row, count, next, expires) =>
      Store(Claimed(st.db, raw, row.family, row.sub, count, next, expires),
            st.chain[row.family := (if row.family in st.chain then st.chain[row.family] else []) + [next]],
            st.winner[raw := id])
  }

  // ----- Where a step leaves its call -----

  /** What the checks after the family read decide. */
  function Judge(raw: string, row: TokenRow, revoked: bool, now: int, grantsAnswer: bool): Call {
    if revoked then Done(raw, RevokedSeen)
    else if row.used then Killing(raw, row.family)
    else if now > row.expires then Done(raw, ExpiredSeen)
    else if !grantsAnswer then Done(raw, GrantsDown)
    else Granted(raw, row)
  }

  predicate FamilyRevoked(db: Db, fam: string) {
    fam !in db.families || db.families[fam].revoked
  }

  function NextCall(s: State, c: Call, e: Event): Call {
    var db := s.store.db;
    match (c, e)
    case (Presented(raw), ReadToken(_, fails)) =>
      if fails || raw !in db.tokens then Done(raw, Unknown) else Looked(raw, db.tokens[raw])
    case (Looked(raw, row), ReadFamily(_, fails, now, grantsAnswer)) =>
      if fails then Done(raw, ReadFailed) else Judge(raw, row, FamilyRevoked(db, row.family), now, grantsAnswer)
    case (Granted(raw, row), ReadCount(_, fails)) =>
      if fails || row.family !in db.families then Done(raw, StoreFailed)
      else Counted(raw, row, db.families[row.family].rotations)
    case (Counted(raw, row, count), Rotate(_, next, _, batch, mints)) =>
      if batch != Answered then Done(raw, StoreFailed)
      else if CanClaim(db, raw, row.family, count, next) then Done(raw, Won(next, mints))
      else Killing(raw, row.family)
    case (Killing(raw, family), Revoke(_, batch)) => Done(raw, Reuse(batch == Answered))
    case (_, Crash(_)) => if c.Done? then c else Done(c.raw, Crashed)
    case _ => c
  }

  function NextCalls(s: State, e: Event): map<nat, Call> {
    if e.Login? || e.Kill? then s.calls
    else if e.Present? then (if e.id in s.calls then s.calls else s.calls[e.id := Presented(e.raw)])
    else if e.id in s.calls then s.calls[e.id := NextCall(s, s.calls[e.id], e)]
    else s.calls
  }

  function Step(s: State, e: Event): State {
    State(Written(s.store, WriteOf(s, e)), NextCalls(s, e))
  }

  function Run(s: State, es: seq<Event>): State {
    if es == [] then s else Step(Run(s, es[..|es| - 1]), es[|es| - 1])
  }

  // ----- The lineage invariant -----

  ghost predicate ChainInv(db: Db, fam: string, chain: seq<string>) {
    && fam in db.families
    && |chain| >= 1 && |chain| == db.families[fam].rotations
    && (forall i | 0 <= i < |chain| ::
          && chain[i] in db.tokens
          && db.tokens[chain[i]].family == fam
          && db.tokens[chain[i]].sub == db.families[fam].sub
          && (db.tokens[chain[i]].used <==> i < |chain| - 1))
    && (forall i, j | 0 <= i < j < |chain| :: chain[i] != chain[j])
  }

  /** Every family's tokens form one chain, spent but for the last, as long as the
      family's count; every token is on its family's chain. */
  ghost predicate Lineage(st: Store) {
    && st.chain.Keys == st.db.families.Keys
    && (forall f | f in st.chain :: ChainInv(st.db, f, st.chain[f]))
    && (forall k | k in st.db.tokens :: st.db.tokens[k].family in st.chain && k in st.chain[st.db.tokens[k].family])
    && (forall k | k in st.winner :: k in st.db.tokens && st.db.tokens[k].used)
  }

  /** `b` was written as the successor of `a`. */
  ghost predicate Succeeds(st: Store, a: string, b: string) {
    exists f, i | f in st.chain && 0 <= i < |st.chain[f]| - 1 :: st.chain[f][i] == a && st.chain[f][i + 1] == b
  }

  ghost predicate KnownRow(st: Store, raw: string, row: TokenRow) {
    && raw in st.db.tokens
    && st.db.tokens[raw].family == row.family && st.db.tokens[raw].sub == row.sub
    && (row.used ==> st.db.tokens[raw].used)
  }

  ghost predicate FamilyDead(st: Store, raw: string) {
    && raw in st.db.tokens
    && st.db.tokens[raw].family in st.db.families
    && st.db.families[st.db.tokens[raw].family].revoked
  }

  ghost predicate CallInv(st: Store, id: nat, c: Call) {
    match c
    case Presented(_) => true
    case Looked(raw, row) => KnownRow(st, raw, row)
    case Granted(raw, row) => KnownRow(st, raw, row)
    case Counted(raw, row, _) => KnownRow(st, raw, row)
    case Killing(raw, family) => raw in st.db.tokens && st.db.tokens[raw].family == family
    case Done(raw, o) =>
      && (o == RevokedSeen || o == Reuse(true) ==> FamilyDead(st, raw))
      && (o.Won? ==> raw in st.winner && st.winner[raw] == id && Succeeds(st, raw, o.next))
  }

  ghost predicate Inv(s: State) {
    Lineage(s.store) && forall id | id in s.calls :: CallInv(s.store, id, s.calls[id])
  }

  /** What only ever grows: tokens, spent marks, dead families, chains, winners. */
  ghost predicate Grows(a: Store, b: Store) {
    && (forall k | k in a.db.tokens ::
          && k in b.db.tokens
          && b.db.tokens[k].family == a.db.tokens[k].family && b.db.tokens[k].sub == a.db.tokens[k].sub
          && (a.db.tokens[k].used ==> b.db.tokens[k].used))
    && (forall f | f in a.db.families ::
          f in b.db.families && (a.db.families[f].revoked ==> b.db.families[f].revoked))
    && (forall f | f in a.chain :: f in b.chain && a.chain[f] <= b.chain[f])
    && (forall k | k in a.winner :: k in b.winner && b.winner[k] == a.winner[k])
  }

  lemma GrowsKeepsCall(a: Store, b: Store, id: nat, c: Call)
    requires Grows(a, b) && CallInv(a, id, c)
    ensures CallInv(b, id, c)
  {
    if c.Done? && c.outcome.Won? {
      var f, i :| f in a.chain && 0 <= i < |a.chain[f]| - 1 && a.chain[f][i] == c.raw && a.chain[f][i + 1] == c.outcome.next;
      assert b.chain[f][i] == c.raw && b.chain[f][i + 1] == c.outcome.next;
    }
  }

  /** A claim that commits spends the last token of its family, which was unspent. */
  lemma ClaimSpendsTheLast(st: Store, raw: string, row: TokenRow, count: nat, next: string)
    requires Lineage(st) && KnownRow(st, raw, row) && CanClaim(st.db, raw, row.family, count, next)
    ensures row.family in st.chain && raw !in st.winner
    ensures var c := st.chain[row.family]; |c| == count && c[|c| - 1] == raw
  {
    var c := st.chain[row.family];
    assert ChainInv(st.db, row.family, c);
    var i :| 0 <= i < |c| && c[i] == raw;
  }

  lemma ClaimExtendsChain(db: Db, raw: string, fam: string, c: seq<string>, next: string, expires: int)
    requires ChainInv(db, fam, c) && c[|c| - 1] == raw && next !in db.tokens && !db.families[fam].revoked
    ensures ChainInv(Claimed(db, raw, fam, db.families[fam].sub, |c|, next, expires), fam, c + [next])
  {
    var t := Claimed(db, raw, fam, db.families[fam].sub, |c|, next, expires);
    var d := c + [next];
    forall i | 0 <= i < |d|
      ensures d[i] in t.tokens && t.tokens[d[i]].family == fam && t.tokens[d[i]].sub == t.families[fam].sub
      ensures t.tokens[d[i]].used <==> i < |d| - 1
    {
      if i < |c| - 1 { assert c[i] != c[|c| - 1]; }
    }
  }

  lemma ClaimLeavesOthers(db: Db, raw: string, fam: string, sub: string, count: nat, next: string, expires: int,
                          f: string, c: seq<string>)
    requires ChainInv(db, f, c) && f != fam && raw in db.tokens && db.tokens[raw].family == fam && next !in db.tokens
    ensures ChainInv(Claimed(db, raw, fam, sub, count, next, expires), f, c)
  {}

  lemma ClaimKeepsLineage(st: Store, w: Write)
    requires w.Claim? && Lineage(st) && KnownRow(st, w.raw, w.row)
    requires CanClaim(st.db, w.raw, w.row.family, w.count, w.next)
    ensures Lineage(Written(st, w)) && Succeeds(Written(st, w), w.raw, w.next)
  {
    ClaimSpendsTheLast(st, w.raw, w.row, w.count, w.next);
    var t := Written(st, w);
    var fam, c := w.row.family, st.chain[w.row.family];
    assert ChainInv(st.db, fam, c) && st.db.families[fam].sub == w.row.sub;
    ClaimExtendsChain(st.db, w.raw, fam, c, w.next, w.expires);
    forall f | f in t.chain ensures ChainInv(t.db, f, t.chain[f]) {
      if f != fam { ClaimLeavesOthers(st.db, w.raw, fam, w.row.sub, w.count, w.next, w.expires, f, st.chain[f]); }
    }
    ClaimSucceeds(t, fam, c, w.raw, w.next);
    ClaimKeepsTokens(st, w);
  }

  lemma ClaimKeepsTokens(st: Store, w: Write)
    requires w.Claim? && Lineage(st) && KnownRow(st, w.raw, w.row) && w.row.family in st.chain
    ensures var t := Written(st, w);
            forall k | k in t.db.tokens :: t.db.tokens[k].family in t.chain && k in t.chain[t.db.tokens[k].family]
  {
    var t := Written(st, w);
    var fam, c := w.row.family, st.chain[w.row.family];
    forall k | k in t.db.tokens ensures t.db.tokens[k].family in t.chain && k in t.chain[t.db.tokens[k].family] {
      if k == w.next { assert t.chain[fam][|c|] == k; }
    }
  }

  lemma ClaimGrows(st: Store, w: Write)
    requires w.Claim? && Lineage(st) && KnownRow(st, w.raw, w.row)
    requires CanClaim(st.db, w.raw, w.row.family, w.count, w.next)
    ensures Grows(st, Written(st, w))
  {
    ClaimSpendsTheLast(st, w.raw, w.row, w.count, w.next);
  }

  lemma ClaimSucceeds(t: Store, fam: string, c: seq<string>, raw: string, next: string)
    requires c != [] && c[|c| - 1] == raw && fam in t.chain && t.chain[fam] == c + [next]
    ensures Succeeds(t, raw, next)
  {
    assert t.chain[fam][|c| - 1] == raw && t.chain[fam][|c| - 1 + 1] == next;
  }

  lemma StartLeavesOthers(db: Db, fam: string, secret: string, sub: string, expires: int, f: string, c: seq<string>)
    requires ChainInv(db, f, c) && CanStart(db, fam, secret)
    ensures ChainInv(Started(db, fam, secret, sub, expires), f, c)
  {}

  lemma StartKeepsLineage(st: Store, w: Write)
    requires w.Start? && Lineage(st) && CanStart(st.db, w.fam, w.secret)
    ensures Lineage(Written(st, w)) && Grows(st, Written(st, w))
  {
    var t := Written(st, w);
    forall f | f in t.chain ensures ChainInv(t.db, f, t.chain[f]) {
      if f != w.fam { StartLeavesOthers(st.db, w.fam, w.secret, w.sub, w.expires, f, st.chain[f]); }
    }
  }

  lemma KillKeepsLineage(st: Store, fam: string)
    requires Lineage(st)
    ensures Lineage(Written(st, Kills(fam))) && Grows(st, Written(st, Kills(fam)))
  {
    var t := Written(st, Kills(fam));
    forall f | f in t.chain ensures ChainInv(t.db, f, t.chain[f]) {
      assert ChainInv(st.db, f, st.chain[f]);
    }
  }

  lemma WriteKeepsLineage(s: State, e: Event)
    requires Inv(s)
    ensures Lineage(Step(s, e).store) && Grows(s.store, Step(s, e).store)
  {
    var w := WriteOf(s, e);
    match w
    case Nothing =>
    case Start(_, _, _, _) => StartKeepsLineage(s.store, w);
    case Kills(fam) => KillKeepsLineage(s.store, fam);
    case Claim(id, raw, row, count, next, _) =>
      assert CallInv(s.store, id, s.calls[id]);
      ClaimKeepsLineage(s.store, w);
      ClaimGrows(s.store, w);
  }

  lemma JudgedCall(st: Store, id: nat, raw: string, row: TokenRow, now: int, grantsAnswer: bool)
    requires Lineage(st) && KnownRow(st, raw, row)
    ensures CallInv(st, id, Judge(raw, row, FamilyRevoked(st.db, row.family), now, grantsAnswer))
  {}

  lemma RotatedCall(s: State, e: Event, c: Call)
    requires Inv(s) && e.Rotate? && e.id in s.calls && c == s.calls[e.id] && c.Counted?
    requires Grows(s.store, Step(s, e).store)
    ensures CallInv(Step(s, e).store, e.id, NextCall(s, c, e))
  {
    assert CallInv(s.store, e.id, c);
    var w := Claim(e.id, c.raw, c.row, c.count, e.next, e.expires);
    if CanClaim(s.store.db, c.raw, c.row.family, c.count, e.next) {
      if e.batch == Answered {
        assert WriteOf(s, e) == w;
        ClaimKeepsLineage(s.store, w);
      }
    } else {
      GrowsKeepsCall(s.store, Step(s, e).store, e.id, c);
    }
  }

  lemma KilledCall(s: State, e: Event, c: Call)
    requires Inv(s) && e.Revoke? && e.id in s.calls && c == s.calls[e.id] && c.Killing?
    ensures CallInv(Step(s, e).store, e.id, NextCall(s, c, e))
  {
    assert CallInv(s.store, e.id, c);
    assert c.family in s.store.chain;
  }

  lemma ReadingCall(s: State, e: Event, c: Call)
    requires Lineage(s.store) && (e.ReadToken? || e.ReadCount? || e.ReadFamily?) && CallInv(s.store, e.id, c)
    ensures CallInv(s.store, e.id, NextCall(s, c, e))
  {
    if c.Looked? && e.ReadFamily? {
      JudgedCall(s.store, e.id, c.raw, c.row, e.now, e.grantsAnswer);
    }
  }

  lemma OwnCall(s: State, e: Event, c: Call)
    requires Inv(s) && !e.Login? && !e.Kill? && !e.Present? && e.id in s.calls && c == s.calls[e.id]
    requires Grows(s.store, Step(s, e).store)
    ensures CallInv(Step(s, e).store, e.id, NextCall(s, c, e))
  {
    assert CallInv(s.store, e.id, c);
    if c.Counted? && e.Rotate? {
      RotatedCall(s, e, c);
    } else if c.Killing? && e.Revoke? {
      KilledCall(s, e, c);
    } else if e.ReadToken? || e.ReadCount? || e.ReadFamily? {
      ReadingCall(s, e, c);
    } else {
      GrowsKeepsCall(s.store, Step(s, e).store, e.id, c);
    }
  }

  lemma StepKeepsInv(s: State, e: Event)
    requires Inv(s)
    ensures Inv(Step(s, e)) && Grows(s.store, Step(s, e).store)
  {
    WriteKeepsLineage(s, e);
    var t := Step(s, e);
    forall id | id in t.calls ensures CallInv(t.store, id, t.calls[id]) {
      if id in s.calls {
        GrowsKeepsCall(s.store, t.store, id, s.calls[id]);
        if !e.Login? && !e.Kill? && !e.Present? && e.id == id { OwnCall(s, e, s.calls[id]); }
      }
    }
  }

  lemma {:induction false} RunKeepsInv(s: State, es: seq<Event>)
    requires Inv(s)
    ensures Inv(Run(s, es)) && Grows(s.store, Run(s, es).store)
    decreases |es|
  {
    if es != [] {
      RunKeepsInv(s, es[..|es| - 1]);
      StepKeepsInv(Run(s, es[..|es| - 1]), es[|es| - 1]);
      GrowsTransitive(s.store, Run(s, es[..|es| - 1]).store, Run(s, es).store);
    }
  }

  lemma GrowsTransitive(a: Store, b: Store, c: Store)
    requires Grows(a, b) && Grows(b, c)
    ensures Grows(a, c)
  {}

  // ----- What holds of every run -----

  /** Every reachable state has a lineage of chains. */
  lemma LineageIsAChain(es: seq<Event>)
    ensures Inv(Run(EMPTY, es))
  {
    RunKeepsInv(EMPTY, es);
  }

  ghost function SpentOf(db: Db, fam: string): set<string> {
    set k | k in db.tokens && db.tokens[k].family == fam && db.tokens[k].used
  }

  /** A family holds exactly one unspent token, whoever raced for it, and its count is
      one more than the number it has spent: the count is of tokens issued. */
  lemma OneUnspentToken(es: seq<Event>, fam: string) returns (unspent: string)
    requires fam in Run(EMPTY, es).store.db.families
    ensures var db := Run(EMPTY, es).store.db;
            && unspent in db.tokens
            && (forall k | k in db.tokens && db.tokens[k].family == fam :: !db.tokens[k].used <==> k == unspent)
            && db.families[fam].rotations == |SpentOf(db, fam)| + 1
  {
    LineageIsAChain(es);
    var st := Run(EMPTY, es).store;
    var c := st.chain[fam];
    assert ChainInv(st.db, fam, c);
    unspent := c[|c| - 1];
    var spent := c[..|c| - 1];
    forall k | k in st.db.tokens && st.db.tokens[k].family == fam
      ensures st.db.tokens[k].used <==> k in spent
    {
      var i :| 0 <= i < |c| && c[i] == k;
      if i < |c| - 1 { assert spent[i] == k; }
    }
    assert SpentOf(st.db, fam) == set k | k in spent;
    DistinctSize(spent);
  }

  lemma {:induction false} DistinctSize(s: seq<string>)
    requires forall i, j | 0 <= i < j < |s| :: s[i] != s[j]
    ensures |set k | k in s| == |s|
  {
    if s != [] {
      DistinctSize(s[1..]);
      assert (set k | k in s) == {s[0]} + set k | k in s[1..];
      assert s[0] !in s[1..];
    }
  }

  /** A token has at most one successor and is the successor of at most one. */
  lemma SuccessorIsUnique(es: seq<Event>, a: string, b: string, c: string)
    ensures var st := Run(EMPTY, es).store;
            && (Succeeds(st, a, b) && Succeeds(st, a, c) ==> b == c)
            && (Succeeds(st, b, a) && Succeeds(st, c, a) ==> b == c)
  {
    LineageIsAChain(es);
    var st := Run(EMPTY, es).store;
    forall f, g, i, j | f in st.chain && g in st.chain && 0 <= i < |st.chain[f]| && 0 <= j < |st.chain[g]|
                        && st.chain[f][i] == st.chain[g][j]
      ensures f == g && i == j
    {
      assert ChainInv(st.db, f, st.chain[f]) && ChainInv(st.db, g, st.chain[g]);
    }
  }

  /** Rotation never changes whose session it is. */
  lemma SubjectIsKept(es: seq<Event>, a: string, b: string)
    requires Succeeds(Run(EMPTY, es).store, a, b)
    ensures var db := Run(EMPTY, es).store.db;
            && a in db.tokens && b in db.tokens
            && db.tokens[a].sub == db.tokens[b].sub && db.tokens[a].family == db.tokens[b].family
            && db.tokens[a].used
  {
    LineageIsAChain(es);
    var st := Run(EMPTY, es).store;
    var f, i :| f in st.chain && 0 <= i < |st.chain[f]| - 1 && st.chain[f][i] == a && st.chain[f][i + 1] == b;
    assert ChainInv(st.db, f, st.chain[f]);
  }

  lemma DeadStep(s: State, e: Event, fam: string)
    requires Inv(s) && fam in s.store.db.families && s.store.db.families[fam].revoked
    ensures var t := Step(s, e).store;
            fam in t.db.families && t.db.families[fam].revoked && fam in t.chain && t.chain[fam] == s.store.chain[fam]
  {}

  /** Revocation is final: no later step of any call revives the family or writes a
      successor into it. */
  lemma {:induction false} RevocationIsFinal(s: State, es: seq<Event>, fam: string)
    requires Inv(s) && fam in s.store.db.families && s.store.db.families[fam].revoked
    ensures var t := Run(s, es).store;
            fam in t.db.families && t.db.families[fam].revoked && fam in t.chain && t.chain[fam] == s.store.chain[fam]
    decreases |es|
  {
    if es != [] {
      RevocationIsFinal(s, es[..|es| - 1], fam);
      RunKeepsInv(s, es[..|es| - 1]);
      DeadStep(Run(s, es[..|es| - 1]), es[|es| - 1], fam);
    }
  }

  /** At most one presentation of a secret wins. */
  lemma OneWinner(es: seq<Event>, i: nat, j: nat)
    requires var calls := Run(EMPTY, es).calls;
             && i in calls && j in calls && calls[i].Done? && calls[j].Done?
             && calls[i].raw == calls[j].raw && calls[i].outcome.Won? && calls[j].outcome.Won?
    ensures i == j
  {
    LineageIsAChain(es);
    var s := Run(EMPTY, es);
    assert CallInv(s.store, i, s.calls[i]) && CallInv(s.store, j, s.calls[j]);
  }

  /** A call that answered reuse after its kill, or that read a dead family, leaves
      the family of its secret dead. */
  lemma ReuseLeavesTheFamilyDead(es: seq<Event>, id: nat)
    requires var calls := Run(EMPTY, es).calls; id in calls && calls[id].Done?
    requires var o := Run(EMPTY, es).calls[id].outcome; o == Reuse(true) || o == RevokedSeen
    ensures FamilyDead(Run(EMPTY, es).store, Run(EMPTY, es).calls[id].raw)
  {
    LineageIsAChain(es);
    var s := Run(EMPTY, es);
    assert CallInv(s.store, id, s.calls[id]);
  }

  /** Where a call that presents an already spent secret can stand. */
  predicate Caught(c: Call) {
    match c
    case Presented(_) => true
    case Looked(_, row) => row.used
    case Killing(_, _) => true
    case Done(_, o) => o in {Unknown, ReadFailed, RevokedSeen, Crashed, Reuse(true), Reuse(false)}
    case _ => false
  }

  ghost predicate LateInv(s: State, id: nat, raw: string) {
    && raw in s.store.db.tokens && s.store.db.tokens[raw].used
    && (id in s.calls && s.calls[id].raw == raw ==> Caught(s.calls[id]))
  }

  lemma CaughtNext(s: State, c: Call, e: Event)
    requires Caught(c) && c.raw in s.store.db.tokens && s.store.db.tokens[c.raw].used
    ensures Caught(NextCall(s, c, e)) && NextCall(s, c, e).raw == c.raw
  {}

  lemma LateStep(s: State, e: Event, id: nat, raw: string)
    requires Grows(s.store, Step(s, e).store) && LateInv(s, id, raw)
    ensures LateInv(Step(s, e), id, raw)
  {
    if id in s.calls && s.calls[id].raw == raw { CaughtNext(s, s.calls[id], e); }
    if id in s.calls && s.calls[id].raw != raw { SameSecret(s, s.calls[id], e); }
  }

  lemma SameSecret(s: State, c: Call, e: Event)
    ensures NextCall(s, c, e).raw == c.raw
  {}

  /** Reuse is caught: once a secret is spent, no call that presents it afterwards
      wins, whatever interleaves; it ends with the family dead unless a store read or
      write failed or the call crashed. */
  lemma {:induction false} LatePresentationIsCaught(s: State, es: seq<Event>, id: nat, raw: string)
    requires Inv(s) && raw in s.store.db.tokens && s.store.db.tokens[raw].used && id !in s.calls
    ensures var t := Run(s, es);
            Inv(t) && LateInv(t, id, raw)
            && (id in t.calls && t.calls[id].Done? && t.calls[id].raw == raw ==>
                  || t.calls[id].outcome in {Unknown, ReadFailed, Crashed, Reuse(false)}
                  || FamilyDead(t.store, raw))
    decreases |es|
  {
    if es != [] {
      LatePresentationIsCaught(s, es[..|es| - 1], id, raw);
      StepKeepsInv(Run(s, es[..|es| - 1]), es[|es| - 1]);
      LateStep(Run(s, es[..|es| - 1]), es[|es| - 1], id, raw);
      var t := Run(s, es);
      if id in t.calls { assert CallInv(t.store, id, t.calls[id]); }
    }
  }

  /** A call still in flight when its secret was spent. */
  ghost predicate Racing(s: State, id: nat, raw: string) {
    && raw in s.store.db.tokens && s.store.db.tokens[raw].used
    && id in s.calls && s.calls[id].raw == raw
    && (s.calls[id].Done? ==> !s.calls[id].outcome.Won?)
  }

  lemma RacingStep(s: State, e: Event, id: nat, raw: string)
    requires Racing(s, id, raw) && Grows(s.store, Step(s, e).store)
    ensures Racing(Step(s, e), id, raw)
  {
    SameSecret(s, s.calls[id], e);
  }

  /** Neither does a presentation that was in flight already: whatever it had read, it
      does not win, and it ends with the family dead unless it stopped short of the
      claim, a store call failed, or it crashed. */
  lemma {:induction false} RacingPresentationIsCaught(s: State, es: seq<Event>, id: nat, raw: string)
    requires Inv(s) && Racing(s, id, raw) && !s.calls[id].Done?
    ensures var t := Run(s, es);
            Inv(t) && Racing(t, id, raw)
            && (t.calls[id].Done? ==>
                  || t.calls[id].outcome in {Unknown, ReadFailed, ExpiredSeen, GrantsDown, StoreFailed, Crashed, Reuse(false)}
                  || FamilyDead(t.store, raw))
    decreases |es|
  {
    if es != [] {
      RacingPresentationIsCaught(s, es[..|es| - 1], id, raw);
      StepKeepsInv(Run(s, es[..|es| - 1]), es[|es| - 1]);
      RacingStep(Run(s, es[..|es| - 1]), es[|es| - 1], id, raw);
    }
    RacingEnds(Run(s, es), id, raw);
  }

  lemma RacingEnds(t: State, id: nat, raw: string)
    requires Inv(t) && Racing(t, id, raw)
    ensures t.calls[id].Done? ==>
              || t.calls[id].outcome in {Unknown, ReadFailed, ExpiredSeen, GrantsDown, StoreFailed, Crashed, Reuse(false)}
              || FamilyDead(t.store, raw)
  {
    assert CallInv(t.store, id, t.calls[id]);
  }

  /** The call lost its claim: it kills the family, failed to, or crashed. */
  ghost predicate LostRace(c: Call) {
    c.Killing? || (c.Done? && c.outcome in {Reuse(true), Reuse(false), Crashed})
  }

  lemma LostStep(s: State, e: Event, id: nat)
    requires id in s.calls && LostRace(s.calls[id])
    ensures id in Step(s, e).calls && LostRace(Step(s, e).calls[id])
  {}

  lemma ClaimIsLost(s: State, e: Event, raw: string)
    requires Inv(s) && e.Rotate? && e.batch == Answered && Racing(s, e.id, raw) && s.calls[e.id].Counted?
    ensures Inv(Step(s, e)) && Racing(Step(s, e), e.id, raw) && LostRace(Step(s, e).calls[e.id])
  {
    StepKeepsInv(s, e);
    RacingStep(s, e, e.id, raw);
    assert NextCall(s, s.calls[e.id], e) == Killing(raw, s.calls[e.id].row.family);
  }

  /** A claim on a spent secret that the store answers is a lost race: the call ends in
      Reuse with the family dead, unless its kill failed or it crashed. */
  lemma {:induction false} LostClaimKills(s: State, e: Event, es: seq<Event>, raw: string)
    requires Inv(s) && e.Rotate? && e.batch == Answered && Racing(s, e.id, raw) && s.calls[e.id].Counted?
    ensures var t := Run(Step(s, e), es);
            && Inv(t) && Racing(t, e.id, raw) && LostRace(t.calls[e.id])
            && (t.calls[e.id] == Done(raw, Reuse(true)) ==> FamilyDead(t.store, raw))
    decreases |es|
  {
    if es == [] {
      ClaimIsLost(s, e, raw);
    } else {
      var u, last := Run(Step(s, e), es[..|es| - 1]), es[|es| - 1];
      LostClaimKills(s, e, es[..|es| - 1], raw);
      StepKeepsInv(u, last);
      RacingStep(u, last, e.id, raw);
      LostStep(u, last, e.id);
    }
    ReuseIsDead(Run(Step(s, e), es), e.id);
  }

  lemma ReuseIsDead(t: State, id: nat)
    requires Inv(t) && id in t.calls
    ensures t.calls[id].Done? && t.calls[id].outcome == Reuse(true) ==> FamilyDead(t.store, t.calls[id].raw)
  {
    assert CallInv(t.store, id, t.calls[id]);
  }

  // ----- The call as it is written -----

  /** A failure a call may meet, step by step. */
  datatype Faults = Faults(tokenRead: bool, familyRead: bool, grantsDown: bool, countRead: bool,
                           batch: Batch, kill: Batch, mintFails: bool)

  predicate Foreign(e: Event, id: nat) { e.Login? || e.Kill? || e.id != id }

  lemma {:induction false} RunConcat(s: State, a: seq<Event>, b: seq<Event>)
    ensures Run(s, a + b) == Run(Run(s, a), b)
    decreases |b|
  {
    if b == [] {
      assert a + b == a;
    } else {
      RunConcat(s, a, b[..|b| - 1]);
      assert (a + b)[..|a + b| - 1] == a + b[..|b| - 1];
    }
  }

  lemma {:induction false} ForeignKeepsCall(s: State, es: seq<Event>, id: nat)
    requires id in s.calls && forall e | e in es :: Foreign(e, id)
    ensures id in Run(s, es).calls && Run(s, es).calls[id] == s.calls[id]
    decreases |es|
  {
    if es != [] {
      ForeignKeepsCall(s, es[..|es| - 1], id);
      assert Foreign(es[|es| - 1], id);
    }
  }

  /** The daemon: its state is the outcome of the steps so far. */
  class Service {
    var state: State
    ghost var log: seq<Event>

    ghost predicate Valid()
      reads this
    {
      state == Run(EMPTY, log)
    }

    constructor ()
      ensures Valid() && log == []
    {
      state, log := EMPTY, [];
    }

    method Do(e: Event)
      requires Valid()
      modifies this
      ensures Valid() && log == old(log) + [e] && state == Step(old(state), e)
    {
      state, log := Step(state, e), log + [e];
      assert log[..|log| - 1] == old(log);
    }

    /** Whatever other calls, logins and revokes do in between. */
    method Interleave(es: seq<Event>, id: nat)
      requires Valid() && id in state.calls && forall e | e in es :: Foreign(e, id)
      modifies this
      ensures Valid() && old(log) <= log && id in state.calls && state.calls[id] == old(state.calls[id])
    {
      RunConcat(EMPTY, log, es);
      ForeignKeepsCall(state, es, id);
      state, log := Run(state, es), log + es;
    }

    /** Refresh. `between` is what interleaves before each of its steps. The call ends
        where the protocol says a call with these answers ends. */
    method Refresh(id: nat, raw: string, next: string, expires: int, now: int, between: seq<seq<Event>>, f: Faults)
      returns (o: Outcome)
      requires Valid() && id !in state.calls
      requires |between| == 5 && forall es, e | es in between && e in es :: Foreign(e, id)
      modifies this
      ensures Valid() && old(log) <= log
      ensures id in state.calls && state.calls[id] == Done(raw, o)
    {
      Do(Present(id, raw));
      Interleave(between[0], id);
      var known, r := ReadToken(id, raw, f.tokenRead);
      if !known {
        return Unknown;
      }
      Interleave(between[1], id);
      o := CheckAndRotate(id, raw, r, next, expires, now, between, f);
    }

    /** From the family read on: the checks in order, then the claim. */
    method CheckAndRotate(id: nat, raw: string, r: TokenRow, next: string, expires: int, now: int,
                          between: seq<seq<Event>>, f: Faults) returns (o: Outcome)
      requires Valid() && id in state.calls && state.calls[id] == Looked(raw, r)
      requires |between| == 5 && forall es, e | es in between && e in es :: Foreign(e, id)
      modifies this
      ensures Valid() && old(log) <= log
      ensures id in state.calls && state.calls[id] == Done(raw, o)
    {
      var revoked := ReadFamily(id, raw, r, now, f);
      if f.familyRead {
        return ReadFailed;
      }
      if revoked {
        return RevokedSeen;
      }
      if r.used {
        o := KillAndReport(id, raw, r.family, between[2], f.kill);
        return;
      }
      if now > r.expires {
        return ExpiredSeen;
      }
      if f.grantsDown {
        return GrantsDown;
      }
      Interleave(between[2], id);
      o := ClaimAndRotate(id, raw, r, next, expires, between[3], between[4], f);
    }

    /** The token half of RefreshTokenBySecret. */
    method ReadToken(id: nat, raw: string, fails: bool) returns (known: bool, r: TokenRow)
      requires Valid() && id in state.calls && state.calls[id] == Presented(raw)
      modifies this
      ensures Valid() && old(log) <= log && id in state.calls
      ensures state.calls[id] == if known then Looked(raw, r) else Done(raw, Unknown)
    {
      known := !fails && raw in state.store.db.tokens;
      r := if known then state.store.db.tokens[raw] else TokenRow("", "", 0, false);
      Do(Event.ReadToken(id, fails));
    }

    /** The family half, and the checks Refresh makes on what it read. */
    method ReadFamily(id: nat, raw: string, r: TokenRow, now: int, f: Faults) returns (revoked: bool)
      requires Valid() && id in state.calls && state.calls[id] == Looked(raw, r)
      modifies this
      ensures Valid() && old(log) <= log && id in state.calls
      ensures state.calls[id] == if f.familyRead then Done(raw, ReadFailed) else Judge(raw, r, revoked, now, !f.grantsDown)
    {
      var families := state.store.db.families;
      revoked := r.family !in families || families[r.family].revoked;
      Do(Event.ReadFamily(id, f.familyRead, now, !f.grantsDown));
    }

    /** ClaimAndRotateRefresh: the count, then the guarded batch; a lost race kills. */
    method ClaimAndRotate(id: nat, raw: string, r: TokenRow, next: string, expires: int,
                          beforeBatch: seq<Event>, beforeKill: seq<Event>, f: Faults) returns (o: Outcome)
      requires Valid() && id in state.calls && state.calls[id] == Granted(raw, r)
      requires forall e | e in beforeBatch || e in beforeKill :: Foreign(e, id)
      modifies this
      ensures Valid() && old(log) <= log
      ensures id in state.calls && state.calls[id] == Done(raw, o)
    {
      var families := state.store.db.families;
      Do(ReadCount(id, f.countRead));
      if f.countRead || r.family !in families {
        return StoreFailed;
      }
      var count := families[r.family].rotations;
      Interleave(beforeBatch, id);
      var won := CanClaim(state.store.db, raw, r.family, count, next);
      Do(Rotate(id, next, expires, f.batch, !f.mintFails));
      if f.batch != Answered {
        return StoreFailed;
      }
      if !won {
        o := KillAndReport(id, raw, r.family, beforeKill, f.kill);
        return;
      }
      return Won(next, !f.mintFails);
    }

    method KillAndReport(id: nat, raw: string, family: string, between: seq<Event>, kill: Batch) returns (o: Outcome)
      requires Valid() && id in state.calls && state.calls[id] == Killing(raw, family)
      requires forall e | e in between :: Foreign(e, id)
      modifies this
      ensures Valid() && old(log) <= log
      ensures id in state.calls && state.calls[id] == Done(raw, o) && o == Reuse(kill == Answered)
    {
      Interleave(between, id);
      Do(Revoke(id, kill));
      return Reuse(kill == Answered);
    }
  }
}
