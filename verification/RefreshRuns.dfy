/** What holds of whole runs of refresh-token rotation: what a win took, what it wrote, and
    what a call is answered when nothing comes between its steps. */
module RefreshRuns {
  import opened StoreWrites
  import opened RefreshProtocol

  // ----- What a win took -----

  /** At event `k` of the run the call passed the checks: its token as read was unspent
      and unexpired, its family live at that instant, and grants answered. */
  ghost predicate PassedAt(es: seq<Event>, id: nat, raw: string, k: nat) {
    && k < |es| && es[k].ReadFamily? && es[k].id == id && !es[k].fails && es[k].grantsAnswer
    && var p := Run(EMPTY, es[..k]);
       && id in p.calls && p.calls[id].Looked? && p.calls[id].raw == raw
       && !p.calls[id].row.used && es[k].now <= p.calls[id].row.expires
       && !FamilyRevoked(p.store.db, p.calls[id].row.family)
  }

  /** At event `k` of the run the call's own batch committed. */
  ghost predicate CommittedAt(es: seq<Event>, id: nat, raw: string, next: string, k: nat) {
    && k < |es| && es[k].Rotate? && es[k].id == id && es[k].batch == Answered && es[k].next == next
    && var p := Run(EMPTY, es[..k]);
       && id in p.calls && p.calls[id].Counted? && p.calls[id].raw == raw
       && CanClaim(p.store.db, raw, p.calls[id].row.family, p.calls[id].count, next)
  }

  /** How a step brings a call past the checks, to the count and to a win. */
  lemma OnlyWayIn(s: State, e: Event, id: nat)
    requires id in Step(s, e).calls && !(id in s.calls && s.calls[id] == Step(s, e).calls[id])
    ensures var d := Step(s, e).calls[id];
            && (d.Granted? || d.Counted? || (d.Done? && d.outcome.Won?) ==> id in s.calls && s.calls[id].raw == d.raw)
            && (d.Granted? ==>
                  && e.ReadFamily? && e.id == id && s.calls[id] == Looked(d.raw, d.row) && !e.fails && e.grantsAnswer
                  && !d.row.used && e.now <= d.row.expires && !FamilyRevoked(s.store.db, d.row.family))
            && (d.Counted? ==> s.calls[id].Granted?)
            && (d.Done? && d.outcome.Won? ==>
                  && e.Rotate? && e.id == id && e.batch == Answered && e.next == d.outcome.next && s.calls[id].Counted?
                  && CanClaim(s.store.db, d.raw, s.calls[id].row.family, s.calls[id].count, e.next))
  {}

  lemma {:induction false} ClaimantPassed(es: seq<Event>, id: nat) returns (k: nat)
    requires var s := Run(EMPTY, es); id in s.calls && (s.calls[id].Granted? || s.calls[id].Counted?)
    ensures PassedAt(es, id, Run(EMPTY, es).calls[id].raw, k)
    decreases |es|
  {
    var before, e := es[..|es| - 1], es[|es| - 1];
    var s, t := Run(EMPTY, before), Run(EMPTY, es);
    if id in s.calls && s.calls[id] == t.calls[id] {
      k := ClaimantPassed(before, id);
      assert before[..k] == es[..k];
    } else {
      OnlyWayIn(s, e, id);
      if t.calls[id].Granted? {
        k := |es| - 1;
      } else {
        k := ClaimantPassed(before, id);
        assert before[..k] == es[..k];
      }
    }
  }

  /** Over any run, a call that won did first pass every check and then commit its own
      batch on the family as it stood: there is no other way to a successor. */
  lemma {:induction false} WinnerPassedEveryCheck(es: seq<Event>, id: nat) returns (k: nat, j: nat)
    requires var s := Run(EMPTY, es); id in s.calls && s.calls[id].Done? && s.calls[id].outcome.Won?
    ensures var c := Run(EMPTY, es).calls[id];
            k < j && PassedAt(es, id, c.raw, k) && CommittedAt(es, id, c.raw, c.outcome.next, j)
    decreases |es|
  {
    var before, e := es[..|es| - 1], es[|es| - 1];
    var s, t := Run(EMPTY, before), Run(EMPTY, es);
    if id in s.calls && s.calls[id] == t.calls[id] {
      k, j := WinnerPassedEveryCheck(before, id);
      assert before[..k] == es[..k] && before[..j] == es[..j];
    } else {
      OnlyWayIn(s, e, id);
      k := ClaimantPassed(before, id);
      j := |es| - 1;
      assert before[..k] == es[..k];
    }
  }

  /** With nothing in between and no failure, a live unspent token is rotated: it is
      spent, and its successor is the family's unspent token. */
  lemma QuietRefreshWins(s: State, id: nat, raw: string, next: string, now: int, expires: int)
    requires Inv(s) && id !in s.calls && raw in s.store.db.tokens && next !in s.store.db.tokens
    requires var r := s.store.db.tokens[raw]; !r.used && now <= r.expires && !FamilyRevoked(s.store.db, r.family)
    ensures var t := Run(s, [Present(id, raw), ReadToken(id, false), ReadFamily(id, false, now, true),
                             ReadCount(id, false), Rotate(id, next, expires, Answered, true)]);
            && Inv(t) && t.calls == s.calls[id := Done(raw, Won(next, true))]
            && SpentFor(t.store, raw, next)
            && (var r := s.store.db.tokens[raw];
                t.store.db.tokens[next] == TokenRow(r.family, r.sub, expires, false) && !FamilyRevoked(t.store.db, r.family))
  {
    var e1, e2, e3, e4 := Present(id, raw), ReadToken(id, false), ReadFamily(id, false, now, true), ReadCount(id, false);
    RunFive(s, e1, e2, e3, e4, Rotate(id, next, expires, Answered, true));
    RunKeepsInv(s, [e1, e2, e3, e4, Rotate(id, next, expires, Answered, true)]);
    QuietReads(s, id, raw, now);
    QuietClaim(s, Step(Step(Step(Step(s, e1), e2), e3), e4), id, raw, next, expires);
  }

  /** And so it goes on: until its own expiry the successor is rotated in its turn. */
  lemma QuietRefreshWinsAgain(s: State, id: nat, again: nat, raw: string, next: string, third: string,
                              now: int, later: int, expires: int, after: int)
    requires Inv(s) && id !in s.calls && again !in s.calls && id != again
    requires raw in s.store.db.tokens && next !in s.store.db.tokens && third !in s.store.db.tokens && third != next
    requires var r := s.store.db.tokens[raw]; !r.used && now <= r.expires && !FamilyRevoked(s.store.db, r.family)
    requires later <= expires
    ensures var t := Run(s, [Present(id, raw), ReadToken(id, false), ReadFamily(id, false, now, true),
                             ReadCount(id, false), Rotate(id, next, expires, Answered, true)]);
            var u := Run(t, [Present(again, next), ReadToken(again, false), ReadFamily(again, false, later, true),
                             ReadCount(again, false), Rotate(again, third, after, Answered, true)]);
            again in u.calls && u.calls[again] == Done(next, Won(third, true)) && SpentFor(u.store, next, third)
  {
    QuietRefreshWins(s, id, raw, next, now, expires);
    var t := Run(s, [Present(id, raw), ReadToken(id, false), ReadFamily(id, false, now, true),
                     ReadCount(id, false), Rotate(id, next, expires, Answered, true)]);
    QuietTokens(s, id, raw, next, third, now, expires);
    QuietRefreshWins(t, again, next, third, later, after);
  }

  /** A quiet refresh issues its successor and no other token. */
  lemma QuietTokens(s: State, id: nat, raw: string, next: string, other: string, now: int, expires: int)
    requires Inv(s) && id !in s.calls && raw in s.store.db.tokens && next !in s.store.db.tokens && other != next
    requires var r := s.store.db.tokens[raw]; !r.used && now <= r.expires && !FamilyRevoked(s.store.db, r.family)
    ensures other in Run(s, [Present(id, raw), ReadToken(id, false), ReadFamily(id, false, now, true), ReadCount(id, false),
                             Rotate(id, next, expires, Answered, true)]).store.db.tokens
            ==> other in s.store.db.tokens
  {
    var e1, e2, e3, e4 := Present(id, raw), ReadToken(id, false), ReadFamily(id, false, now, true), ReadCount(id, false);
    RunFive(s, e1, e2, e3, e4, Rotate(id, next, expires, Answered, true));
    QuietReads(s, id, raw, now);
  }

  // ----- What was written is what is read -----

  /** A token's family, subject and expiry never change. */
  ghost predicate SameRows(a: Db, b: Db) {
    forall k | k in a.tokens ::
      && k in b.tokens && b.tokens[k].family == a.tokens[k].family
      && b.tokens[k].sub == a.tokens[k].sub && b.tokens[k].expires == a.tokens[k].expires
  }

  lemma StepKeepsRows(s: State, e: Event)
    ensures SameRows(s.store.db, Step(s, e).store.db)
  {}

  lemma {:induction false} RunKeepsRows(s: State, es: seq<Event>)
    ensures SameRows(s.store.db, Run(s, es).store.db)
    decreases |es|
  {
    if es != [] {
      RunKeepsRows(s, es[..|es| - 1]);
      StepKeepsRows(Run(s, es[..|es| - 1]), es[|es| - 1]);
    }
  }

  /** The row of a token: whose it is, and until when. */
  ghost predicate Row(st: Store, raw: string, family: string, sub: string, expires: int) {
    && raw in st.db.tokens && st.db.tokens[raw].family == family
    && st.db.tokens[raw].sub == sub && st.db.tokens[raw].expires == expires
  }

  lemma RowsStay(es: seq<Event>, k: nat, raw: string, family: string, sub: string, expires: int)
    requires k <= |es| && Row(Run(EMPTY, es[..k]).store, raw, family, sub, expires)
    ensures Row(Run(EMPTY, es).store, raw, family, sub, expires)
  {
    assert es[..k] + es[k..] == es;
    RunConcat(EMPTY, es[..k], es[k..]);
    RunKeepsRows(Run(EMPTY, es[..k]), es[k..]);
  }

  /** The call judges by the token's own expiry. */
  ghost predicate JudgesByOwn(db: Db, c: Call) {
    c.Looked? || c.Granted? || c.Counted? ==> c.raw in db.tokens && db.tokens[c.raw].expires == c.row.expires
  }

  ghost predicate AllJudgeByOwn(s: State) {
    forall id | id in s.calls :: JudgesByOwn(s.store.db, s.calls[id])
  }

  /** Over any run, whatever a call in flight has read, the expiry it holds is the one its
      token was issued with. */
  lemma {:induction false} ExpiryIsTheTokens(es: seq<Event>)
    ensures AllJudgeByOwn(Run(EMPTY, es))
    decreases |es|
  {
    if es != [] {
      ExpiryIsTheTokens(es[..|es| - 1]);
      OwnExpiryStep(Run(EMPTY, es[..|es| - 1]), es[|es| - 1]);
    }
  }

  lemma OwnExpiryStep(s: State, e: Event)
    requires AllJudgeByOwn(s)
    ensures AllJudgeByOwn(Step(s, e))
  {
    StepKeepsRows(s, e);
    forall id | id in Step(s, e).calls ensures JudgesByOwn(Step(s, e).store.db, Step(s, e).calls[id]) {
      if id in s.calls { assert JudgesByOwn(s.store.db, s.calls[id]); }
    }
  }

  /** Over any run, the successor a call won is its own batch's: it has the expiry that
      batch wrote and the family and subject of the token it spent, then and ever after. */
  lemma WonTokenIsAsWritten(es: seq<Event>, id: nat) returns (j: nat, family: string, sub: string)
    requires var s := Run(EMPTY, es); id in s.calls && s.calls[id].Done? && s.calls[id].outcome.Won?
    ensures var s := Run(EMPTY, es);
            var c := s.calls[id];
            && CommittedAt(es, id, c.raw, c.outcome.next, j)
            && c.raw in s.store.db.tokens && s.store.db.tokens[c.raw].family == family && s.store.db.tokens[c.raw].sub == sub
            && Row(s.store, c.outcome.next, family, sub, es[j].expires)
  {
    var k;
    k, j := WinnerPassedEveryCheck(es, id);
    var c := Run(EMPTY, es).calls[id];
    var expires;
    family, sub, expires := CommitIsWritten(es, id, c.raw, c.outcome.next, j);
    RowsStay(es, j + 1, c.outcome.next, family, sub, es[j].expires);
    RowsStay(es, j + 1, c.raw, family, sub, expires);
  }

  lemma CommitIsWritten(es: seq<Event>, id: nat, raw: string, next: string, j: nat)
    returns (family: string, sub: string, expires: int)
    requires CommittedAt(es, id, raw, next, j)
    ensures var st := Run(EMPTY, es[..j + 1]).store;
            Row(st, raw, family, sub, expires) && Row(st, next, family, sub, es[j].expires)
  {
    var p := Run(EMPTY, es[..j]);
    RunKeepsInv(EMPTY, es[..j]);
    assert CallInv(p.store, id, p.calls[id]);
    family, sub, expires := p.calls[id].row.family, p.calls[id].row.sub, p.store.db.tokens[raw].expires;
    CommitWrites(p, es[j]);
    assert es[..j + 1][..j] == es[..j] && Run(EMPTY, es[..j + 1]) == Step(p, es[j]);
  }

  lemma CommitWrites(p: State, e: Event)
    requires e.Rotate? && e.batch == Answered && e.id in p.calls && p.calls[e.id].Counted?
    requires var c := p.calls[e.id]; CanClaim(p.store.db, c.raw, c.row.family, c.count, e.next) && KnownRow(p.store, c.raw, c.row)
    ensures var c, st := p.calls[e.id], Step(p, e).store;
            && Row(st, c.raw, c.row.family, c.row.sub, p.store.db.tokens[c.raw].expires)
            && Row(st, e.next, c.row.family, c.row.sub, e.expires) && !st.db.tokens[e.next].used
  {
    var c := p.calls[e.id];
    assert WriteOf(p, e) == Claim(e.id, c.raw, c.row, c.count, e.next, e.expires);
  }

  /** A login's token is its own: the family, subject and expiry it was started with. */
  lemma LoginIsAsWritten(es: seq<Event>, k: nat)
    requires k < |es| && es[k].Login? && CanStart(Run(EMPTY, es[..k]).store.db, es[k].fam, es[k].secret)
    ensures Row(Run(EMPTY, es).store, es[k].secret, es[k].fam, es[k].sub, es[k].expires)
  {
    assert es[..k + 1][..k] == es[..k] && Run(EMPTY, es[..k + 1]) == Step(Run(EMPTY, es[..k]), es[k]);
    RowsStay(es, k + 1, es[k].secret, es[k].fam, es[k].sub, es[k].expires);
  }

  /** A login under a fresh family and secret is one that can be refreshed. */
  lemma LoginStartsAFamily(s: State, fam: string, secret: string, sub: string, expires: int)
    requires fam !in s.store.db.families && secret !in s.store.db.tokens
    ensures var db := Step(s, Login(fam, secret, sub, expires)).store.db;
            && secret in db.tokens && db.tokens[secret] == TokenRow(fam, sub, expires, false)
            && fam in db.families && db.families[fam] == Family(sub, 1, false)
  {}

  /** A logout kills: from then on the family is dead and its chain ends where it was. */
  lemma LogoutIsFinal(s: State, fam: string, es: seq<Event>)
    requires Inv(s) && fam in s.store.db.families
    ensures var t := Run(s, [Kill(fam)] + es).store;
            fam in t.db.families && t.db.families[fam].revoked && fam in t.chain && t.chain[fam] == s.store.chain[fam]
  {
    var u := Step(s, Kill(fam));
    assert [Kill(fam)][..0] == [] && Run(s, [Kill(fam)]) == u;
    RunConcat(s, [Kill(fam)], es);
    StepKeepsInv(s, Kill(fam));
    assert u.store.db == Killed(s.store.db, fam) && u.store.chain == s.store.chain;
    RevocationIsFinal(u, es, fam);
  }

  /** A refusal burns nothing: whatever interleaves, the step that answers one writes
      nothing, so a grants outage leaves the token to be presented again. */
  lemma RefusalBurnsNothing(s: State, e: Event, id: nat)
    requires id in s.calls && !s.calls[id].Done? && Step(s, e).calls[id].Done?
    requires Step(s, e).calls[id].outcome in {Unknown, ReadFailed, RevokedSeen, ExpiredSeen, GrantsDown}
    ensures Step(s, e).store == s.store
  {}

  /** What a call that nothing disturbs is answered, check by check. */
  lemma QuietChecks(s: State, id: nat, raw: string, now: int, grants: bool)
    requires id !in s.calls
    ensures var t := Run(s, [Present(id, raw), ReadToken(id, false), ReadFamily(id, false, now, grants)]);
            && t.store == s.store && id in t.calls
            && var db := s.store.db;
               if raw !in db.tokens then t.calls[id] == Done(raw, Unknown)
               else if db.tokens[raw].family !in db.families || db.families[db.tokens[raw].family].revoked
               then t.calls[id] == Done(raw, RevokedSeen)
               else if db.tokens[raw].used then t.calls[id] == Killing(raw, db.tokens[raw].family)
               else if db.tokens[raw].expires < now then t.calls[id] == Done(raw, ExpiredSeen)
               else if !grants then t.calls[id] == Done(raw, GrantsDown)
               else t.calls[id] == Granted(raw, db.tokens[raw])
  {
    var e1, e2, e3 := Present(id, raw), ReadToken(id, false), ReadFamily(id, false, now, grants);
    RunFive(s, e1, e2, e3, e3, e3);
    var s1 := Step(s, e1);
    assert s1 == State(s.store, s.calls[id := Presented(raw)]);
    var s2 := Step(s1, e2);
    assert s2.store == s.store;
  }

  ghost predicate SpentFor(st: Store, raw: string, next: string) {
    && raw in st.db.tokens && st.db.tokens[raw].used
    && next in st.db.tokens && !st.db.tokens[next].used
    && Succeeds(st, raw, next)
  }

  lemma QuietReads(s: State, id: nat, raw: string, now: int)
    requires id !in s.calls && raw in s.store.db.tokens
    requires var r := s.store.db.tokens[raw]; !r.used && now <= r.expires && !FamilyRevoked(s.store.db, r.family)
    ensures var r := s.store.db.tokens[raw];
            Step(Step(Step(Step(s, Present(id, raw)), ReadToken(id, false)), ReadFamily(id, false, now, true)), ReadCount(id, false))
            == State(s.store, s.calls[id := Counted(raw, r, s.store.db.families[r.family].rotations)])
  {
    var r := s.store.db.tokens[raw];
    var s1 := Step(s, Present(id, raw));
    var s2 := Step(s1, ReadToken(id, false));
    assert s2 == State(s.store, s.calls[id := Looked(raw, r)]);
    var s3 := Step(s2, ReadFamily(id, false, now, true));
    assert s3 == State(s.store, s.calls[id := Granted(raw, r)]);
  }

  lemma QuietClaim(s: State, u: State, id: nat, raw: string, next: string, expires: int)
    requires Inv(s) && raw in s.store.db.tokens && next !in s.store.db.tokens
    requires var r := s.store.db.tokens[raw];
             && !r.used && !FamilyRevoked(s.store.db, r.family)
             && u == State(s.store, s.calls[id := Counted(raw, r, s.store.db.families[r.family].rotations)])
    ensures var t := Step(u, Rotate(id, next, expires, Answered, true));
            && t.calls == s.calls[id := Done(raw, Won(next, true))]
            && SpentFor(t.store, raw, next)
            && (var r := s.store.db.tokens[raw];
                t.store.db.tokens[next] == TokenRow(r.family, r.sub, expires, false) && !FamilyRevoked(t.store.db, r.family))
  {
    var r := s.store.db.tokens[raw];
    var w := Claim(id, raw, r, s.store.db.families[r.family].rotations, next, expires);
    ClaimedStep(u, id, raw, r, w.count, next, expires);
    ClaimKeepsLineage(s.store, w);
    ClaimIsTheRow(s.store, w);
  }

  /** An answered rotation under its conditions is the write, and the call has won. */
  lemma ClaimedStep(u: State, id: nat, raw: string, row: TokenRow, count: nat, next: string, expires: int)
    requires id in u.calls && u.calls[id] == Counted(raw, row, count) && CanClaim(u.store.db, raw, row.family, count, next)
    ensures var t := Step(u, Rotate(id, next, expires, Answered, true));
            && t.store == Written(u.store, Claim(id, raw, row, count, next, expires))
            && t.calls == u.calls[id := Done(raw, Won(next, true))]
  {
    assert WriteOf(u, Rotate(id, next, expires, Answered, true)) == Claim(id, raw, row, count, next, expires);
  }

  lemma ClaimIsTheRow(st: Store, w: Write)
    requires w.Claim? && CanClaim(st.db, w.raw, w.row.family, w.count, w.next)
    ensures var db := Written(st, w).db;
            && w.raw in db.tokens && db.tokens[w.raw].used
            && w.next in db.tokens && db.tokens[w.next] == TokenRow(w.row.family, w.row.sub, w.expires, false)
            && !FamilyRevoked(db, w.row.family)
  {}

  lemma RunFive(s: State, e1: Event, e2: Event, e3: Event, e4: Event, e5: Event)
    ensures Run(s, [e1, e2, e3, e4, e5]) == Step(Step(Step(Step(Step(s, e1), e2), e3), e4), e5)
    ensures Run(s, [e1, e2, e3]) == Step(Step(Step(s, e1), e2), e3)
  {
    assert [e1][..0] == [];
    assert Run(s, [e1]) == Step(s, e1);
    assert [e1, e2][..1] == [e1];
    assert Run(s, [e1, e2]) == Step(Step(s, e1), e2);
    assert [e1, e2, e3][..2] == [e1, e2];
    assert Run(s, [e1, e2, e3]) == Step(Step(Step(s, e1), e2), e3);
    assert [e1, e2, e3, e4][..3] == [e1, e2, e3];
    assert [e1, e2, e3, e4, e5][..4] == [e1, e2, e3, e4];
  }
}
