/** The inbound half of chanlib: chanlib.go's SendMessage and postInbound, inbound.go's
    retention and sweep, over chanstore/inbound_pending.go. A call is a sequence of
    atomic steps, one for each answer of routd or of the store; between two of them any
    other call may step, and any call may crash. Times are in seconds. */
module Inbound {
  import opened StoreWrites

  const BACKOFF_BASE := 30
  const BACKOFF_MAX := 900
  const SWEEP_BATCH := 50

  datatype Msg = Msg(id: string, chat: string, body: string)

  datatype Payload = Encoded(msg: Msg) | Garbage

  datatype Row = Row(payload: Payload, attempts: nat, firstSeen: int, next: int)

  /** One answer of routd. `code` is the status, 0 for none; a call that failed may
      still have landed, unless routd read the payload and refused it. */
  datatype Answer = Accepted | Failed(code: int, landed: bool)

  /** routd's rows, what the adapter holds, and what is known for good: `refused` by
      routd, `lost` as reported to the adapter's caller. `sent` is every id handed in. */
  datatype Box = Box(routd: map<string, Msg>, held: map<string, Row>, refused: set<string>, lost: set<string>, sent: set<string>)

  datatype Outcome = Delivered | HeldForSweep | Lost | Tried | Crashed

  /** What a call delivers: a message handed to SendMessage, or a row as a sweep read it. */
  datatype Job = Fresh(msg: Msg, encodes: bool) | Swept(id: string, row: Row)

  /** Where one call stands: before its first attempt, between the two, with routd's
      last answer in hand, about to return. */
  datatype Call =
    | First(job: Job)
    | Second(job: Job, failure: Answer)
    | Settling(job: Job, answer: Answer)
    | Returning(job: Job, outcome: Outcome)
    | Done(job: Job, outcome: Outcome)

  datatype State = State(box: Box, calls: map<nat, Call>, serviceToken: bool)

  function Empty(serviceToken: bool): State { State(Box(map[], map[], {}, {}, {}), map[], serviceToken) }

  datatype Event =
    | Send(call: nat, msg: Msg, encodes: bool)
    | Pick(call: nat, id: string)
    | Attempt(call: nat, a: Answer)
    | Retry(call: nat, reregisters: bool, a: Answer)
    | Settle(call: nat, batch: Batch, now: int)
    | Return(call: nat)
    | Crash(call: nat)

  /** PermanentIngress: routd read the payload and refused it. */
  predicate Permanent(a: Answer) { a.Failed? && a.code in {400, 403, 413, 422} }

  predicate Lands(a: Answer) { a.Accepted? || (a.landed && !Permanent(a)) }

  /** No second attempt: a 401 on the registered path whose re-registration fails. */
  predicate GivesUp(failure: Answer, reregisters: bool, serviceToken: bool) {
    failure.Failed? && failure.code == 401 && !serviceToken && !reregisters
  }

  function MsgOf(job: Job): Msg {
    match job
    case Fresh(msg, _) => msg
    case Swept(id, row) => if row.payload.Encoded? then row.payload.msg else Msg(id, "", "")
  }

  function IdOf(job: Job): string { if job.Fresh? then job.msg.id else job.id }

  // ----- Backoff -----

  function Doubled(n: nat): (d: int)
    ensures d >= 1
  {
    if n == 0 then 1 else 2 * Doubled(n - 1)
  }

  function Min(a: int, b: int): int { if a < b then a else b }

  lemma {:induction false} DoubledGrows(m: nat, n: nat)
    requires m <= n
    ensures Doubled(m) <= Doubled(n)
    decreases n
  {
    if m < n { DoubledGrows(m, n - 1); }
  }

  /** inboundBackoff: thirty seconds doubling per failure, capped at fifteen minutes. */
  method InboundBackoff(attempts: nat) returns (d: int)
    ensures d == Min(BACKOFF_BASE * Doubled(attempts), BACKOFF_MAX)
    ensures d == if 30 * Doubled(attempts) < 900 then 30 * Doubled(attempts) else 900
  {
    d := BACKOFF_BASE;
    for i := 0 to attempts
      invariant d == BACKOFF_BASE * Doubled(i) && d < BACKOFF_MAX
    {
      d := d * 2;
      if d >= BACKOFF_MAX {
        DoubledGrows(i + 1, attempts);
        return BACKOFF_MAX;
      }
    }
  }

  // ----- What a step writes -----

  /** routd keeps one row per id: a second delivery of the same id changes nothing. */
  function Stored(b: Box, msg: Msg, lands: bool): Box {
    if lands && msg.id !in b.routd then b.(routd := b.routd[msg.id := msg]) else b
  }

  /** The last answer of a post; a permanent one is a refusal for good. */
  function Heard(b: Box, job: Job, a: Answer): Box {
    var p := Stored(b, MsgOf(job), Lands(a));
    if Permanent(a) then p.(refused := p.refused + {IdOf(job)}) else p
  }

  predicate Retainable(job: Job, a: Answer) {
    job.Fresh? && !Permanent(a) && job.msg.id != "" && job.encodes
  }

  /** Retain: only under an absent item, so a held row keeps its count and its wait. */
  function Retained(b: Box, msg: Msg, batch: Batch, now: int): Box {
    if batch == FailedBefore || msg.id in b.held then b
    else b.(held := b.held[msg.id := Row(Encoded(msg), 0, now, now + BACKOFF_BASE)])
  }

  function Dropped(b: Box, id: string, batch: Batch): Box {
    if batch == FailedBefore then b else b.(held := b.held - {id})
  }

  /** Reschedule: the count is the one the sweep read, plus one. */
  function Rescheduled(b: Box, id: string, row: Row, batch: Batch, now: int): Box {
    if batch == FailedBefore || id !in b.held then b
    else b.(held := b.held[id := b.held[id].(attempts := row.attempts + 1,
                                              next := now + Min(BACKOFF_BASE * Doubled(row.attempts + 1), BACKOFF_MAX))])
  }

  function Settled(b: Box, job: Job, a: Answer, batch: Batch, now: int): Box {
    match job
    case Fresh(msg, _) => if Retainable(job, a) then Retained(b, msg, batch, now) else b
    case Swept(id, row) => if a.Accepted? || Permanent(a) then Dropped(b, id, batch) else Rescheduled(b, id, row, batch, now)
  }

  function BoxAfter(s: State, c: Call, e: Event): Box {
    match (c, e)
    case (First(job), Attempt(_, a)) => Stored(s.box, MsgOf(job), Lands(a))
    case (Second(job, failure), Retry(_, reregisters, a)) =>
      if GivesUp(failure, reregisters, s.serviceToken) then s.box else Heard(s.box, job, a)
    case (Settling(job, a), Settle(_, batch, now)) => Settled(s.box, job, a, batch, now)
    case (Returning(job, o), Return(_)) =>
      if o == Lost then s.box.(lost := s.box.lost + {IdOf(job)}) else s.box
    case _ => s.box
  }

  // ----- Where a step leaves its call -----

  /** A message routd took is done; a row it took is still to be dropped. */
  function Passed(job: Job): Call { if job.Fresh? then Done(job, Delivered) else Settling(job, Accepted) }

  function CallAfter(s: State, c: Call, e: Event): Call {
    match (c, e)
    case (First(job), Attempt(_, a)) => if a.Accepted? then Passed(job) else Second(job, a)
    case (Second(job, failure), Retry(_, reregisters, a)) =>
      if GivesUp(failure, reregisters, s.serviceToken) then Settling(job, failure)
      else if a.Accepted? then Passed(job) else Settling(job, a)
    case (Settling(job, a), Settle(_, batch, _)) =>
      if job.Swept? then Done(job, Tried)
      else Returning(job, if Retainable(job, a) && batch == Answered then HeldForSweep else Lost)
    case (Returning(job, o), Return(_)) => Done(job, o)
    case (_, Crash(_)) => if c.Done? then c else Done(c.job, Crashed)
    case _ => c
  }

  /** A row that does not decode is dropped without an attempt. */
  function Picked(id: string, row: Row): Call {
    if row.payload.Encoded? then First(Swept(id, row)) else Settling(Swept(id, row), Accepted)
  }

  function Step(s: State, e: Event): State {
    match e
    case Send(k, msg, encodes) =>
      if k in s.calls then s
      else s.(box := s.box.(sent := s.box.sent + {msg.id}), calls := s.calls[k := First(Fresh(msg, encodes))])
    case Pick(k, id) =>
      if k in s.calls || id !in s.box.held then s else s.(calls := s.calls[k := Picked(id, s.box.held[id])])
    case _ =>
      if e.call !in s.calls then s
      else
        var c := s.calls[e.call];
        s.(box := BoxAfter(s, c, e), calls := s.calls[e.call := CallAfter(s, c, e)])
  }

  function Run(s: State, es: seq<Event>): State {
    if es == [] then s else Step(Run(s, es[..|es| - 1]), es[|es| - 1])
  }

  // ----- What every step keeps -----

  ghost predicate Accounted(b: Box, id: string) {
    id in b.routd || id in b.held || id in b.refused || id in b.lost
  }

  predicate Genuine(id: string, row: Row) { row.payload.Encoded? && row.payload.msg.id == id }

  ghost predicate CallInv(b: Box, c: Call) {
    && (c.job.Swept? ==> Genuine(c.job.id, c.job.row))
    && (c.Second? ==> c.failure.Failed?)
    && (c.Settling? && c.answer.Accepted? ==> c.job.Swept? && c.job.id in b.routd)
    && (c.Settling? && Permanent(c.answer) ==> IdOf(c.job) in b.refused)
    && ((c.Returning? || c.Done?) && c.outcome == HeldForSweep ==> Accounted(b, IdOf(c.job)))
    && (c.Done? && c.outcome == Delivered ==> IdOf(c.job) in b.routd)
    && (c.Done? && c.outcome == Lost ==> IdOf(c.job) in b.lost)
    && (c.Returning? ==> c.job.Fresh? && c.outcome in {HeldForSweep, Lost})
  }

  ghost predicate Inv(s: State) {
    && (forall id | id in s.box.held :: Genuine(id, s.box.held[id]))
    && (forall k | k in s.calls :: CallInv(s.box, s.calls[k]))
  }

  /** Rows of routd are never replaced, what is known stays known, and a held row is let
      go only once routd has taken or refused it. */
  ghost predicate Follows(b: Box, t: Box) {
    && (forall id | id in b.routd :: id in t.routd && t.routd[id] == b.routd[id])
    && (forall id | id in b.held && id !in t.held :: id in t.routd || id in t.refused)
    && b.refused <= t.refused && b.lost <= t.lost && b.sent <= t.sent
  }

  lemma FollowsKeepsCall(b: Box, t: Box, c: Call)
    requires Follows(b, t) && CallInv(b, c)
    ensures CallInv(t, c)
  {}

  lemma OwnStep(s: State, e: Event)
    requires Inv(s) && !e.Send? && !e.Pick? && e.call in s.calls
    ensures var c := s.calls[e.call];
            var b := BoxAfter(s, c, e);
            && Follows(s.box, b) && CallInv(b, CallAfter(s, c, e))
            && forall id | id in b.held :: Genuine(id, b.held[id])
  {
    var c := s.calls[e.call];
    assert CallInv(s.box, c);
  }

  lemma StepKeepsInv(s: State, e: Event)
    requires Inv(s)
    ensures Inv(Step(s, e)) && Follows(s.box, Step(s, e).box)
  {
    if !e.Send? && !e.Pick? && e.call in s.calls { OwnStep(s, e); }
    var t := Step(s, e);
    forall k | k in t.calls ensures CallInv(t.box, t.calls[k]) {
      if k in s.calls && (k != e.call || e.Send? || e.Pick?) {
        FollowsKeepsCall(s.box, t.box, s.calls[k]);
      }
    }
  }

  lemma {:induction false} RunKeepsInv(s: State, es: seq<Event>)
    requires Inv(s)
    ensures Inv(Run(s, es)) && Follows(s.box, Run(s, es).box)
    decreases |es|
  {
    if es != [] {
      RunKeepsInv(s, es[..|es| - 1]);
      StepKeepsInv(Run(s, es[..|es| - 1]), es[|es| - 1]);
      FollowsTransitive(s.box, Run(s, es[..|es| - 1]).box, Run(s, es).box);
    }
  }

  lemma FollowsTransitive(a: Box, b: Box, c: Box)
    requires Follows(a, b) && Follows(b, c)
    ensures Follows(a, c)
  {}

  lemma AccountedStays(b: Box, t: Box, id: string)
    requires Follows(b, t) && Accounted(b, id)
    ensures Accounted(t, id)
  {}

  // ----- Nothing vanishes -----

  /** The call was handed the message and has not returned. */
  predicate Holds(c: Call, id: string) { c.job.Fresh? && c.job.msg.id == id && !c.Done? }

  ghost predicate InFlight(s: State, id: string) { exists k | k in s.calls :: Holds(s.calls[k], id) }

  /** The one call that still has the message dies before anything else has it: before
      routd took or refused it, before its retention committed, and, when the retention
      failed, before it could say so. */
  ghost predicate DiesWith(s: State, e: Event, id: string) {
    && e.Crash? && e.call in s.calls && Holds(s.calls[e.call], id)
    && !Accounted(s.box, id)
    && forall k | k in s.calls && k != e.call :: !Holds(s.calls[k], id)
  }

  /** A step takes a message out of sight exactly when it is such a crash. */
  lemma LostSilentlyIff(s: State, e: Event, id: string)
    requires Inv(s) && (Accounted(s.box, id) || InFlight(s, id))
    ensures !(Accounted(Step(s, e).box, id) || InFlight(Step(s, e), id)) <==> DiesWith(s, e, id)
  {
    StepKeepsInv(s, e);
    var t := Step(s, e);
    if Accounted(s.box, id) {
      AccountedStays(s.box, t.box, id);
    } else {
      var k :| k in s.calls && Holds(s.calls[k], id);
      if other :| other in s.calls && other != e.call && Holds(s.calls[other], id) {
        assert t.calls[other] == s.calls[other];
      } else if !e.Send? && !e.Pick? {
        OwnCallEnds(s, e, id);
      } else {
        assert t.calls[k] == s.calls[k];
      }
    }
  }

  lemma OwnCallEnds(s: State, e: Event, id: string)
    requires Inv(s) && !e.Send? && !e.Pick? && e.call in s.calls && Holds(s.calls[e.call], id)
    ensures var t := Step(s, e);
            e.call in t.calls && if e.Crash? then t.box == s.box && !Holds(t.calls[e.call], id)
                                 else Holds(t.calls[e.call], id) || Accounted(t.box, id)
  {
    StepKeepsInv(s, e);
    var t := Step(s, e);
    assert CallInv(t.box, t.calls[e.call]) && CallInv(s.box, s.calls[e.call]);
  }

  /** No inbound vanishes: over any run of sends, sweeps, failures and crashes, each id
      handed to SendMessage is a row of routd, held, refused for good, reported lost, or
      in the hand of a call that has not returned, unless the last such call died with it. */
  lemma {:induction false} NothingVanishes(serviceToken: bool, es: seq<Event>, id: string)
    requires id in Run(Empty(serviceToken), es).box.sent
    ensures var s := Run(Empty(serviceToken), es);
            Accounted(s.box, id) || InFlight(s, id)
            || exists i | 0 <= i < |es| :: DiesWith(Run(Empty(serviceToken), es[..i]), es[i], id)
    decreases |es|
  {
    var n := |es| - 1;
    var before, e := Run(Empty(serviceToken), es[..n]), es[n];
    RunKeepsInv(Empty(serviceToken), es[..n]);
    if Accounted(before.box, id) || InFlight(before, id) {
      LostSilentlyIff(before, e, id);
    } else if id in before.box.sent {
      NothingVanishes(serviceToken, es[..n], id);
      var i :| 0 <= i < n && DiesWith(Run(Empty(serviceToken), es[..n][..i]), es[..n][i], id);
      assert es[..n][..i] == es[..i] && es[..n][i] == es[i];
    } else {
      assert e.Send? && Holds(Run(Empty(serviceToken), es).calls[e.call], id);
    }
  }

  /** A crash between the failed post and the write that retains it: the message is
      nowhere and nobody was told. */
  lemma CrashBeforeRetain(msg: Msg, code: int)
    ensures var es := [Send(0, msg, true), Attempt(0, Failed(code, false)), Crash(0)];
            var s := Run(Empty(true), es);
            msg.id in s.box.sent && !Accounted(s.box, msg.id) && !InFlight(s, msg.id)
  {
    var e1, e2, e3 := Send(0, msg, true), Attempt(0, Failed(code, false)), Crash(0);
    assert [e1, e2, e3][..2] == [e1, e2] && [e1, e2][..1] == [e1] && [e1][..0] == [];
    assert Run(Empty(true), [e1]) == Step(Empty(true), e1);
    assert Run(Empty(true), [e1, e2]) == Step(Step(Empty(true), e1), e2);
    assert Run(Empty(true), [e1, e2, e3]) == Step(Step(Step(Empty(true), e1), e2), e3);
  }

  /** A row routd took is never replaced, and a held row is let go only because routd has
      taken or refused it, over any run. */
  lemma RoutdRowsStay(serviceToken: bool, es: seq<Event>, more: seq<Event>)
    ensures Follows(Run(Empty(serviceToken), es).box, Run(Run(Empty(serviceToken), es), more).box)
  {
    RunKeepsInv(Empty(serviceToken), es);
    RunKeepsInv(Run(Empty(serviceToken), es), more);
  }

  /** The step settles a swept row of the id. */
  predicate SettlesRow(s: State, e: Event, id: string) {
    e.Settle? && e.call in s.calls && s.calls[e.call].job.Swept? && s.calls[e.call].job.id == id
  }

  /** A platform that delivers a held id again, however often and whatever fails, resets
      neither its count nor its wait: only a sweep of the row moves them. */
  lemma {:induction false} RedeliveryKeepsTheClock(s: State, es: seq<Event>, id: string)
    requires id in s.box.held && forall i | 0 <= i < |es| :: !SettlesRow(Run(s, es[..i]), es[i], id)
    ensures var b := Run(s, es).box; id in b.held && b.held[id] == s.box.held[id]
    decreases |es|
  {
    if es != [] {
      var n := |es| - 1;
      forall i | 0 <= i < n ensures !SettlesRow(Run(s, es[..n][..i]), es[..n][i], id) {
        assert es[..n][..i] == es[..i] && es[..n][i] == es[i];
      }
      RedeliveryKeepsTheClock(s, es[..n], id);
      ClockStep(Run(s, es[..n]), es[n], id);
    }
  }

  lemma ClockStep(s: State, e: Event, id: string)
    requires id in s.box.held && !SettlesRow(s, e, id)
    ensures var b := Step(s, e).box; id in b.held && b.held[id] == s.box.held[id]
  {}

  // ----- The wait -----

  /** A settle that finds routd unavailable, on the row as the store still has it: one
      pass of the sweep runs at a time. */
  ghost predicate SettlesFailed(s: State, e: Event, id: string) {
    && SettlesRow(s, e, id) && e.batch == Answered && id in s.box.held
    && var c := s.calls[e.call];
       c.Settling? && c.job.row == s.box.held[id] && c.answer.Failed? && !Permanent(c.answer)
  }

  /** How often a row of the id was settled, and when it was last. */
  function Settles(s: State, es: seq<Event>, id: string): nat {
    if es == [] then 0
    else
      var n := |es| - 1;
      Settles(s, es[..n], id) + if SettlesRow(Run(s, es[..n]), es[n], id) then 1 else 0
  }

  function LastSettle(s: State, es: seq<Event>, id: string): int {
    if es == [] then 0
    else
      var n := |es| - 1;
      if SettlesRow(Run(s, es[..n]), es[n], id) then es[n].now else LastSettle(s, es[..n], id)
  }

  /** Whatever else runs in between, after n failed sweeps of a row its count is n higher
      and its wait thirty seconds doubled that often, at most fifteen minutes, from the
      last of them. */
  lemma {:induction false} WaitAfterFailures(s: State, es: seq<Event>, id: string)
    requires id in s.box.held
    requires forall i | 0 <= i < |es| && SettlesRow(Run(s, es[..i]), es[i], id) :: SettlesFailed(Run(s, es[..i]), es[i], id)
    ensures var b := Run(s, es).box;
            && id in b.held
            && b.held[id].attempts == s.box.held[id].attempts + Settles(s, es, id)
            && (Settles(s, es, id) > 0 ==>
                  b.held[id].next == LastSettle(s, es, id) + Min(BACKOFF_BASE * Doubled(b.held[id].attempts), BACKOFF_MAX))
    decreases |es|
  {
    if es != [] {
      var n := |es| - 1;
      var before := Run(s, es[..n]);
      forall i | 0 <= i < n && SettlesRow(Run(s, es[..n][..i]), es[..n][i], id)
        ensures SettlesFailed(Run(s, es[..n][..i]), es[..n][i], id)
      {
        assert es[..n][..i] == es[..i] && es[..n][i] == es[i];
      }
      WaitAfterFailures(s, es[..n], id);
      if SettlesRow(before, es[n], id) {
        assert SettlesFailed(Run(s, es[..n]), es[n], id);
        FailedSettleStep(before, es[n], id);
      } else {
        ClockStep(before, es[n], id);
      }
    }
  }

  lemma FailedSettleStep(s: State, e: Event, id: string)
    requires SettlesFailed(s, e, id)
    ensures var b := Step(s, e).box;
            && id in b.held && b.held[id].attempts == s.box.held[id].attempts + 1
            && b.held[id].next == e.now + Min(BACKOFF_BASE * Doubled(b.held[id].attempts), BACKOFF_MAX)
  {}

  // ----- What a call achieves -----

  lemma RunFive(s: State, e1: Event, e2: Event, e3: Event, e4: Event, e5: Event)
    ensures Run(s, [e1, e2, e3]) == Step(Step(Step(s, e1), e2), e3)
    ensures Run(s, [e1, e2, e3, e4]) == Step(Step(Step(Step(s, e1), e2), e3), e4)
    ensures Run(s, [e1, e2, e3, e4, e5]) == Step(Step(Step(Step(Step(s, e1), e2), e3), e4), e5)
  {
    assert [e1][..0] == [] && Run(s, [e1]) == Step(s, e1);
    assert [e1, e2][..1] == [e1] && Run(s, [e1, e2]) == Step(Step(s, e1), e2);
    assert [e1, e2, e3][..2] == [e1, e2];
    assert [e1, e2, e3, e4][..3] == [e1, e2, e3];
    assert [e1, e2, e3, e4, e5][..4] == [e1, e2, e3, e4];
  }

  /** A held message that routd takes is routd's, and is let go unless the drop failed. */
  lemma SweepDelivers(s: State, k: nat, id: string, batch: Batch, now: int)
    requires Inv(s) && k !in s.calls && id in s.box.held
    ensures var t := Run(s, [Pick(k, id), Attempt(k, Accepted), Settle(k, batch, now)]);
            && id in t.box.routd && (id in t.box.held <==> batch == FailedBefore)
            && (id !in s.box.routd ==> t.box.routd[id] == s.box.held[id].payload.msg)
            && k in t.calls && t.calls[k] == Done(Swept(id, s.box.held[id]), Tried)
  {
    var e := Settle(k, batch, now);
    RunFive(s, Pick(k, id), Attempt(k, Accepted), e, e, e);
  }

  /** routd's last word on a post: its second answer, unless it took the message at once,
      or a 401 on the registered path could not be repaired. */
  function LastWord(c: Cast, serviceToken: bool): Answer {
    if c.first.Accepted? then c.first
    else if c.first.code == 401 && !serviceToken && !c.reregisters then c.first
    else c.second
  }

  /** A status that says routd read the payload and will not have it. */
  predicate Refuses(a: Answer) { a.Failed? && (a.code == 400 || a.code == 403 || a.code == 413 || a.code == 422) }

  function SendOutcome(msg: Msg, encodes: bool, last: Answer, batch: Batch): Outcome {
    if last.Accepted? then Delivered
    else if Refuses(last) || msg.id == "" || !encodes || batch != Answered then Lost
    else HeldForSweep
  }

  /** The held rows after a send: one more, for thirty seconds, where routd did not take the
      message for now and the write took effect; a row held already stays as it is. */
  function HeldAfterSend(held: map<string, Row>, msg: Msg, encodes: bool, last: Answer, batch: Batch, now: int): map<string, Row> {
    if last.Accepted? || Refuses(last) || msg.id == "" || !encodes || batch == FailedBefore || msg.id in held then held
    else held[msg.id := Row(Encoded(msg), 0, now, now + 30)]
  }

  /** What a send does, by the answers it gets. A status that refuses is reported lost with
      nothing newly held; no status, a 401, a 429, a 5xx or any other leaves the message
      held for thirty seconds, a row that was held already as it was. */
  lemma QuietSend(s: State, k: nat, msg: Msg, encodes: bool, c: Cast, batch: Batch, now: int)
    requires k !in s.calls
    ensures var t := Run(s, [Send(k, msg, encodes), Attempt(k, c.first), Retry(k, c.reregisters, c.second), Settle(k, batch, now), Return(k)]);
            var last := LastWord(c, s.serviceToken);
            var o := SendOutcome(msg, encodes, last, batch);
            && t.calls == s.calls[k := Done(Fresh(msg, encodes), o)]
            && (last.Accepted? ==> msg.id in t.box.routd)
            && t.box.held == HeldAfterSend(s.box.held, msg, encodes, last, batch, now)
            && t.box.lost == (if o == Lost then s.box.lost + {msg.id} else s.box.lost)
            && t.box.refused == (if Refuses(last) then s.box.refused + {msg.id} else s.box.refused)
  {
    var e1, e2, e3, e4, e5 := Send(k, msg, encodes), Attempt(k, c.first), Retry(k, c.reregisters, c.second), Settle(k, batch, now), Return(k);
    RunFive(s, e1, e2, e3, e4, e5);
    SentPosts(s, k, msg, encodes, c);
    QuietRetain(Step(Step(Step(s, e1), e2), e3), k, msg, encodes, LastWord(c, s.serviceToken), batch, now);
  }

  lemma SentPosts(s: State, k: nat, msg: Msg, encodes: bool, c: Cast)
    requires k !in s.calls
    ensures var t := Step(Step(Step(s, Send(k, msg, encodes)), Attempt(k, c.first)), Retry(k, c.reregisters, c.second));
            var last, job := LastWord(c, s.serviceToken), Fresh(msg, encodes);
            && t.calls == s.calls[k := if last.Accepted? then Done(job, Delivered) else Settling(job, last)]
            && t.box.held == s.box.held && t.box.lost == s.box.lost
            && t.box.refused == (if Refuses(last) then s.box.refused + {msg.id} else s.box.refused)
            && (last.Accepted? ==> msg.id in t.box.routd)
  {
    var u := Step(s, Send(k, msg, encodes));
    assert u == s.(box := s.box.(sent := s.box.sent + {msg.id}), calls := s.calls[k := First(Fresh(msg, encodes))]);
    QuietPost(u, k, Fresh(msg, encodes), c);
  }

  /** The post of any job that has not been tried. */
  lemma QuietPost(s: State, k: nat, job: Job, c: Cast)
    requires k in s.calls && s.calls[k] == First(job)
    ensures var t := Step(Step(s, Attempt(k, c.first)), Retry(k, c.reregisters, c.second));
            var last := LastWord(c, s.serviceToken);
            && t.serviceToken == s.serviceToken
            && t.calls == s.calls[k := if last.Accepted? then Passed(job) else Settling(job, last)]
            && t.box == s.box.(routd := t.box.routd, refused := if Refuses(last) then s.box.refused + {IdOf(job)} else s.box.refused)
            && (last.Accepted? ==> MsgOf(job).id in t.box.routd)
            && (forall id | id in s.box.routd :: id in t.box.routd && t.box.routd[id] == s.box.routd[id])
            && (last.Accepted? && MsgOf(job).id !in s.box.routd ==> t.box.routd[MsgOf(job).id] == MsgOf(job))
  {
    var u := Step(s, Attempt(k, c.first));
    assert u.calls == s.calls[k := if c.first.Accepted? then Passed(job) else Second(job, c.first)];
    if c.first.Accepted? {
      assert Step(u, Retry(k, c.reregisters, c.second)) == u;
    }
  }

  /** A post whose answer was lost has landed all the same, and the second one changes
      nothing: routd keeps the first. */
  lemma LostAnswerLands(s: State, k: nat, job: Job, code: int, reregisters: bool, second: Answer)
    requires k in s.calls && s.calls[k] == First(job) && !Refuses(Failed(code, true))
    ensures var u := Step(s, Attempt(k, Failed(code, true)));
            var t := Step(u, Retry(k, reregisters, second));
            && u.calls[k] == Second(job, Failed(code, true)) && MsgOf(job).id in u.box.routd
            && (MsgOf(job).id !in s.box.routd ==> u.box.routd == s.box.routd[MsgOf(job).id := MsgOf(job)])
            && t.box.routd == u.box.routd
  {
    var u := Step(s, Attempt(k, Failed(code, true)));
    assert u.calls == s.calls[k := Second(job, Failed(code, true))];
  }

  lemma QuietRetain(s: State, k: nat, msg: Msg, encodes: bool, last: Answer, batch: Batch, now: int)
    requires k in s.calls
    requires s.calls[k] == if last.Accepted? then Done(Fresh(msg, encodes), Delivered) else Settling(Fresh(msg, encodes), last)
    ensures var t := Step(Step(s, Settle(k, batch, now)), Return(k));
            var o := SendOutcome(msg, encodes, last, batch);
            && t.calls == s.calls[k := Done(Fresh(msg, encodes), o)]
            && t.box.routd == s.box.routd && t.box.refused == s.box.refused
            && t.box.held == HeldAfterSend(s.box.held, msg, encodes, last, batch, now)
            && t.box.lost == (if o == Lost then s.box.lost + {msg.id} else s.box.lost)
  {
    var job := Fresh(msg, encodes);
    var u := Step(s, Settle(k, batch, now));
    if last.Accepted? {
      assert u == s;
    } else {
      var o := SendOutcome(msg, encodes, last, batch);
      assert u.calls == s.calls[k := Returning(job, o)];
    }
  }

  /** The held rows after a sweep of one of them: let go when routd took or refuses it, else
      one attempt older and waiting thirty seconds doubled so often. */
  function HeldAfterSweep(held: map<string, Row>, id: string, row: Row, last: Answer, batch: Batch, now: int): map<string, Row> {
    if batch == FailedBefore then held
    else if last.Accepted? || Refuses(last) then held - {id}
    else held[id := Row(row.payload, row.attempts + 1, row.firstSeen, now + Min(BACKOFF_BASE * Doubled(row.attempts + 1), BACKOFF_MAX))]
  }

  /** What a sweep does with a held row, by the answers it gets. */
  lemma QuietSweep(s: State, k: nat, id: string, c: Cast, batch: Batch, now: int)
    requires Inv(s) && k !in s.calls && id in s.box.held
    ensures var t := Run(s, [Pick(k, id), Attempt(k, c.first), Retry(k, c.reregisters, c.second), Settle(k, batch, now)]);
            var last, row := LastWord(c, s.serviceToken), s.box.held[id];
            && t.calls == s.calls[k := Done(Swept(id, row), Tried)]
            && (last.Accepted? ==> id in t.box.routd)
            && t.box.refused == (if Refuses(last) then s.box.refused + {id} else s.box.refused)
            && t.box.held == HeldAfterSweep(s.box.held, id, row, last, batch, now)
  {
    var e1, e2, e3, e4 := Pick(k, id), Attempt(k, c.first), Retry(k, c.reregisters, c.second), Settle(k, batch, now);
    RunFive(s, e1, e2, e3, e4, e4);
    var row := s.box.held[id];
    assert Genuine(id, row);
    SweptPosts(s, k, id, row, c);
    SweptSettles(Step(Step(Step(s, e1), e2), e3), k, id, row, LastWord(c, s.serviceToken), batch, now);
  }

  lemma SweptPosts(s: State, k: nat, id: string, row: Row, c: Cast)
    requires k !in s.calls && id in s.box.held && s.box.held[id] == row && Genuine(id, row)
    ensures var t := Step(Step(Step(s, Pick(k, id)), Attempt(k, c.first)), Retry(k, c.reregisters, c.second));
            var last := LastWord(c, s.serviceToken);
            && t.calls == s.calls[k := Settling(Swept(id, row), last)]
            && t.box == s.box.(routd := t.box.routd, refused := if Refuses(last) then s.box.refused + {id} else s.box.refused)
            && (last.Accepted? ==> id in t.box.routd)
  {
    var u := Step(s, Pick(k, id));
    assert u == s.(calls := s.calls[k := First(Swept(id, row))]);
    QuietPost(u, k, Swept(id, row), c);
  }

  lemma SweptSettles(s: State, k: nat, id: string, row: Row, last: Answer, batch: Batch, now: int)
    requires k in s.calls && s.calls[k] == Settling(Swept(id, row), last) && id in s.box.held && s.box.held[id] == row
    ensures var t := Step(s, Settle(k, batch, now));
            && t.calls == s.calls[k := Done(Swept(id, row), Tried)]
            && t.box.routd == s.box.routd && t.box.refused == s.box.refused
            && t.box.held == HeldAfterSweep(s.box.held, id, row, last, batch, now)
  {}

  /** The statuses of an outage hold the message, whichever answer came first. */
  lemma OutageIsRetained(s: State, k: nat, msg: Msg, c: Cast, now: int)
    requires k !in s.calls && msg.id != ""
    requires var last := LastWord(c, s.serviceToken);
             last.Failed? && (last.code == 0 || last.code == 401 || last.code == 429 || last.code >= 500)
    ensures var t := Run(s, [Send(k, msg, true), Attempt(k, c.first), Retry(k, c.reregisters, c.second), Settle(k, Answered, now), Return(k)]);
            && t.calls == s.calls[k := Done(Fresh(msg, true), HeldForSweep)] && t.box.lost == s.box.lost
            && msg.id in t.box.held && (msg.id in s.box.held ==> t.box.held == s.box.held)
  {
    QuietSend(s, k, msg, true, c, Answered, now);
  }

  // ----- The calls as they are written -----

  predicate Foreign(e: Event, first: nat, n: nat) { e.call < first || e.call >= first + n }

  lemma {:induction false} RunConcat(s: State, a: seq<Event>, b: seq<Event>)
    ensures Run(s, a + b) == Run(Run(s, a), b)
    decreases |b|
  {
    if b == [] {
      assert a + b == a;
    } else {
      assert (a + b)[..|a + b| - 1] == a + b[..|b| - 1];
      RunConcat(s, a, b[..|b| - 1]);
    }
  }

  lemma {:induction false} ForeignKeepsCalls(s: State, es: seq<Event>, first: nat, n: nat)
    requires forall e | e in es :: Foreign(e, first, n)
    ensures forall k | first <= k < first + n ::
              (k in Run(s, es).calls <==> k in s.calls) && (k in s.calls ==> Run(s, es).calls[k] == s.calls[k])
    decreases |es|
  {
    if es != [] {
      ForeignKeepsCalls(s, es[..|es| - 1], first, n);
      assert Foreign(es[|es| - 1], first, n);
    }
  }

  /** The answers a post meets. */
  datatype Cast = Cast(first: Answer, second: Answer, reregisters: bool)

  class RouterClient {
    const serviceToken: bool
    var state: State
    ghost var log: seq<Event>

    ghost predicate Valid()
      reads this
    {
      state == Run(Empty(serviceToken), log)
    }

    constructor (serviceToken: bool)
      ensures Valid() && log == [] && this.serviceToken == serviceToken
    {
      this.serviceToken, state, log := serviceToken, Empty(serviceToken), [];
    }

    method Do(e: Event)
      requires Valid()
      modifies this
      ensures Valid() && log == old(log) + [e] && state == Step(old(state), e)
    {
      state, log := Step(state, e), log + [e];
      assert log[..|log| - 1] == old(log);
    }

    /** Whatever other calls do in between, crashes included. */
    method Interleave(es: seq<Event>, ghost first: nat, ghost n: nat)
      requires Valid() && forall e | e in es :: Foreign(e, first, n)
      modifies this
      ensures Valid() && old(log) <= log
      ensures forall k | first <= k < first + n ::
                (k in state.calls <==> k in old(state).calls) && (k in state.calls ==> state.calls[k] == old(state).calls[k])
    {
      RunConcat(Empty(serviceToken), log, es);
      ForeignKeepsCalls(state, es, first, n);
      state, log := Run(state, es), log + es;
    }

    /** postInbound: two attempts, re-registering once on a 401 of the registered path.
        The call is one of the block of `n` from `first` on. */
    method PostInbound(k: nat, c: Cast, between: seq<seq<Event>>, ghost first: nat, ghost n: nat) returns (last: Answer)
      requires Valid() && k in state.calls && state.calls[k].First? && first <= k < first + n
      requires |between| == 2 && forall es, e | es in between && e in es :: Foreign(e, first, n)
      modifies this
      ensures Valid() && old(log) <= log
      ensures k in state.calls
      ensures last == LastWord(c, serviceToken)
      ensures state.calls[k] == if last.Accepted? then Passed(old(state).calls[k].job) else Settling(old(state).calls[k].job, last)
      ensures Others(old(state).calls, state.calls, k, first, n)
    {
      var job := state.calls[k].job;
      ghost var before := state.calls;
      last := Accepted;
      for attempt := 0 to 2
        invariant Valid() && old(log) <= log && k in state.calls
        invariant attempt == 0 ==> state.calls[k] == First(job)
        invariant attempt == 1 ==> state.calls[k] == Second(job, last) && last.Failed? && last == c.first
        invariant attempt == 2 ==> state.calls[k] == Settling(job, last) && last.Failed? && last == LastWord(c, serviceToken)
        invariant Others(before, state.calls, k, first, n)
      {
        Interleave(between[attempt], first, n);
        if attempt == 0 {
          last := c.first;
          Do(Attempt(k, c.first));
        } else {
          var registered := !GivesUp(last, c.reregisters, serviceToken);
          SameToken(log);
          Do(Retry(k, c.reregisters, c.second));
          if !registered {
            return;
          }
          last := c.second;
        }
        if last.Accepted? {
          return;
        }
      }
    }

    lemma SameToken(es: seq<Event>)
      ensures Run(Empty(serviceToken), es).serviceToken == serviceToken
    {
      TokenStays(serviceToken, es);
    }

    /** SendMessage, with the steps of other calls before each of its own. Delivered means
        a row of routd, held means the message is still accounted for, and lost is what
        the caller was told. */
    method SendMessage(k: nat, msg: Msg, encodes: bool, c: Cast, batch: Batch, now: int, between: seq<seq<Event>>)
      returns (o: Outcome)
      requires Valid() && k !in state.calls
      requires |between| == 4 && forall es, e | es in between && e in es :: Foreign(e, k, 1)
      modifies this
      ensures Valid() && old(log) <= log
      ensures k in state.calls && state.calls[k] == Done(Fresh(msg, encodes), o)
      ensures o == SendOutcome(msg, encodes, LastWord(c, serviceToken), batch)
      ensures o == Delivered ==> msg.id in state.box.routd
      ensures o == HeldForSweep ==> Accounted(state.box, msg.id)
      ensures o == Lost ==> msg.id in state.box.lost
    {
      Do(Send(k, msg, encodes));
      assert state.calls[k] == First(Fresh(msg, encodes));
      var a := PostInbound(k, c, between[..2], k, 1);
      if a.Accepted? {
        Reached(log, k);
        return Delivered;
      }
      Interleave(between[2], k, 1);
      o := RetainInbound(k, msg, encodes, a, batch, now);
      Interleave(between[3], k, 1);
      Do(Return(k));
      Reached(log, k);
    }

    lemma Reached(es: seq<Event>, k: nat)
      requires k in Run(Empty(serviceToken), es).calls
      ensures CallInv(Run(Empty(serviceToken), es).box, Run(Empty(serviceToken), es).calls[k])
    {
      RunKeepsInv(Empty(serviceToken), es);
    }

    /** retainInbound: a refusal, a missing id or a failed write leaves nothing held. */
    method RetainInbound(k: nat, msg: Msg, encodes: bool, cause: Answer, batch: Batch, now: int) returns (o: Outcome)
      requires Valid() && k in state.calls && state.calls[k] == Settling(Fresh(msg, encodes), cause)
      modifies this
      ensures Valid() && old(log) <= log && k in state.calls && state.calls[k] == Returning(Fresh(msg, encodes), o)
      ensures o == if !Refuses(cause) && msg.id != "" && encodes && batch == Answered then HeldForSweep else Lost
      ensures o == HeldForSweep ==> msg.id in state.box.held
    {
      Do(Settle(k, batch, now));
      if Permanent(cause) || msg.id == "" || !encodes || batch != Answered {
        return Lost;
      }
      return HeldForSweep;
    }

    /** One row of the sweep, as the batch read it. */
    method SweepRow(k: nat, c: Cast, batch: Batch, now: int, between: seq<seq<Event>>, ghost first: nat, ghost n: nat)
      requires Valid() && k in state.calls && first <= k < first + n && state.calls[k].job.Swept?
      requires state.calls[k] == Picked(state.calls[k].job.id, state.calls[k].job.row)
      requires |between| == 3 && forall es, e | es in between && e in es :: Foreign(e, first, n)
      modifies this
      ensures Valid() && old(log) <= log
      ensures k in state.calls && state.calls[k] == Done(old(state).calls[k].job, Tried)
      ensures Others(old(state).calls, state.calls, k, first, n)
    {
      if state.calls[k].First? {
        var a := PostInbound(k, c, between[..2], first, n);
      }
      Interleave(between[2], first, n);
      Do(Settle(k, batch, now));
    }

    /** SweepInboundOnce: the due batch is read at once, then each row in turn until the
        context is done after `until` of them. */
    method SweepInboundOnce(first: nat, casts: seq<Cast>, batches: seq<Batch>, until: nat, now: int,
                            between: seq<seq<seq<Event>>>) returns (swept: seq<string>)
      requires Valid() && forall k | first <= k < first + SWEEP_BATCH :: k !in state.calls
      requires |casts| == |batches| == |between| == SWEEP_BATCH
      requires forall b | b in between :: |b| == 3 && forall es, e | es in b && e in es :: Foreign(e, first, SWEEP_BATCH)
      modifies this
      ensures Valid() && old(log) <= log && |swept| <= SWEEP_BATCH
      ensures forall id | id in swept :: id in old(state).box.held && old(state).box.held[id].next <= now
      ensures forall k | first <= k < first + |swept| :: TriedAt(state.calls, k, first, swept, old(state).box.held)
      ensures |swept| < SWEEP_BATCH && |swept| < until ==>
                forall id | id in old(state).box.held && old(state).box.held[id].next <= now :: id in swept
    {
      var held := state.box.held;
      var due := DueForRedelivery(held, now);
      PickAll(first, due);
      var n := if until < |due| then until else |due|;
      for i := 0 to n
        invariant Valid() && old(log) <= log
        invariant forall k | first + i <= k < first + |due| :: PickedAt(state.calls, k, first, due, held)
        invariant forall k | first <= k < first + i :: TriedAt(state.calls, k, first, due, held)
      {
        var k := first + i;
        assert PickedAt(state.calls, k, first, due, held);
        ghost var before := state.calls;
        SweepRow(k, casts[i], batches[i], now, between[i], first, SWEEP_BATCH);
        OthersStand(before, state.calls, k, first, due, held);
        assert TriedAt(state.calls, k, first, due, held);
      }
      swept := due[..n];
      forall k | first <= k < first + n ensures TriedAt(state.calls, k, first, swept, held) {
        assert TriedAt(state.calls, k, first, due, held);
      }
    }

    /** The batch the sweep read: one call a row. */
    method PickAll(first: nat, due: seq<string>)
      requires Valid() && |due| <= SWEEP_BATCH && forall id | id in due :: id in state.box.held
      requires forall k | first <= k < first + SWEEP_BATCH :: k !in state.calls
      modifies this
      ensures Valid() && old(log) <= log && state.box == old(state).box
      ensures forall k | first <= k < first + |due| :: PickedAt(state.calls, k, first, due, old(state).box.held)
    {
      for i := 0 to |due|
        invariant Valid() && old(log) <= log && state.box == old(state).box
        invariant forall k | first <= k < first + i :: PickedAt(state.calls, k, first, due, state.box.held)
        invariant forall k | first + i <= k < first + SWEEP_BATCH :: k !in state.calls
      {
        ghost var before := state.calls;
        var k := first + i;
        Do(Pick(k, due[k - first]));
        OthersStand(before, state.calls, k, first, due, state.box.held);
        assert PickedAt(state.calls, k, first, due, state.box.held);
      }
    }
  }

  /** Call `k` of the block from `first` on stands where the read of its row leaves it. */
  ghost predicate PickedAt(calls: map<nat, Call>, k: nat, first: nat, due: seq<string>, held: map<string, Row>) {
    && first <= k < first + |due|
    && var id := due[k - first]; id in held && k in calls && calls[k] == Picked(id, held[id])
  }

  lemma OthersStand(before: map<nat, Call>, after: map<nat, Call>, k: nat, first: nat, due: seq<string>, held: map<string, Row>)
    requires Others(before, after, k, first, SWEEP_BATCH) && |due| <= SWEEP_BATCH
    ensures forall j | j != k && PickedAt(before, j, first, due, held) :: PickedAt(after, j, first, due, held)
    ensures forall j | j != k && TriedAt(before, j, first, due, held) :: TriedAt(after, j, first, due, held)
  {}

  /** It has tried its row. */
  ghost predicate TriedAt(calls: map<nat, Call>, k: nat, first: nat, due: seq<string>, held: map<string, Row>) {
    && first <= k < first + |due|
    && var id := due[k - first]; id in held && k in calls && calls[k] == Done(Swept(id, held[id]), Tried)
  }

  lemma {:induction false} TokenStays(serviceToken: bool, es: seq<Event>)
    ensures Run(Empty(serviceToken), es).serviceToken == serviceToken
    decreases |es|
  {
    if es != [] { TokenStays(serviceToken, es[..|es| - 1]); }
  }

  /** The other calls of the block stand where they stood. */
  ghost predicate Others(before: map<nat, Call>, after: map<nat, Call>, k: nat, first: nat, n: nat) {
    forall j | first <= j < first + n && j != k ::
      (j in after <==> j in before) && (j in before ==> after[j] == before[j])
  }

  /** DueForRedelivery: the oldest due rows, at most a batch of them. */
  method DueForRedelivery(held: map<string, Row>, now: int) returns (ids: seq<string>)
    ensures |ids| <= SWEEP_BATCH == 50 && forall i, j | 0 <= i < j < |ids| :: ids[i] != ids[j]
    ensures forall id | id in ids :: id in held && held[id].next <= now
    ensures forall i, j | 0 <= i < j < |ids| :: held[ids[i]].firstSeen <= held[ids[j]].firstSeen
    ensures forall id | id in held && held[id].next <= now && id !in ids ::
              |ids| == SWEEP_BATCH && forall other | other in ids :: held[other].firstSeen <= held[id].firstSeen
  {
    var rest := set id | id in held && held[id].next <= now;
    ids := [];
    while rest != {} && |ids| < SWEEP_BATCH
      invariant |ids| <= SWEEP_BATCH
      invariant forall id :: id in held && held[id].next <= now <==> id in rest || id in ids
      invariant forall id | id in ids :: id !in rest
      invariant forall i, j | 0 <= i < j < |ids| :: ids[i] != ids[j]
      invariant forall i, j | 0 <= i < j < |ids| :: held[ids[i]].firstSeen <= held[ids[j]].firstSeen
      invariant forall a, b | a in ids && b in rest :: held[a].firstSeen <= held[b].firstSeen
      decreases rest
    {
      var oldest := Oldest(held, rest);
      rest := rest - {oldest};
      ids := ids + [oldest];
    }
  }

  method Oldest(held: map<string, Row>, ids: set<string>) returns (m: string)
    requires ids != {} && ids <= held.Keys
    ensures m in ids && forall id | id in ids :: held[m].firstSeen <= held[id].firstSeen
  {
    m :| m in ids;
    var rest := ids - {m};
    while rest != {}
      invariant m in ids && rest <= ids
      invariant forall id | id in ids && id !in rest :: held[m].firstSeen <= held[id].firstSeen
      decreases rest
    {
      var id :| id in rest;
      rest := rest - {id};
      if held[id].firstSeen < held[m].firstSeen {
        m := id;
      }
    }
  }
}
