/** chanlib/mark.go over chanlib/chanstore/ack_mark.go: the acknowledgement mark an
    adapter puts on the message that started a turn. Times are in seconds. */
module AckMarks {
  import opened StoreWrites

  const TTL := 1620

  /** A mark as the platform shows it. */
  datatype Mark = Mark(jid: string, target: string, handle: string)

  /** A chat's record; an unreadable `setAt` is None. */
  datatype Instant = Unreadable | At(t: int)

  datatype Record = Record(target: string, handle: string, setAt: Instant)

  datatype Backstop = Backstop(gen: nat, due: int)

  /** A removal answers success, or an error with the mark gone or not. */
  datatype Removal = Removed | RemovalFailed(gone: bool)

  /** `AddFailed` is any other error; the mark may be on the platform all the same. */
  datatype Addition = Added(handle: string) | NoMarkTarget | AddFailed(landed: bool, handle: string)

  /** What one operation meets. */
  datatype Weather = Weather(readFails: bool, remove: Removal, drop: Batch, add: Addition, record: Batch, undo: Removal)

  /** Where the operation that holds the lock stands; `on` says that Typing(on) goes on
      to place a mark once the release is through. */
  datatype Pc =
    | Idle
    | Removing(m: Mark, on: bool)
    | Dropping(m: Mark, on: bool)
    | Adding(jid: string, target: string)
    | Recording(m: Mark)
    | Undoing(m: Mark)

  /** The store's records, the platform's marks, and what the process holds in memory. */
  datatype State = State(records: map<string, Record>, standing: set<Mark>, cand: map<string, string>,
                         timers: map<string, Backstop>, lastGen: nat, pc: Pc)

  function MarkOf(jid: string, r: Record): Mark { Mark(jid, r.target, r.handle) }

  function TakenOff(s: State, m: Mark, how: Removal): State {
    if how.Removed? || how.gone then s.(standing := s.standing - {m}) else s
  }

  // ----- The operations -----

  /** note: a message that can start a turn becomes its chat's candidate. */
  function Noted(s: State, jid: string, id: string, verb: string): State {
    if jid == "" || id == "" || verb !in {"", "message", "mention"} then s else s.(cand := s.cand[jid := id])
  }

  function Dropped(s: State, jid: string, batch: Batch): State {
    if batch == FailedBefore then s else s.(records := s.records - {jid})
  }

  predicate ReleaseSucceeds(w: Weather) { w.remove.Removed? && w.drop == Answered }

  /** release: timer, platform, record, in that order; an error stops it. */
  function Released(s: State, m: Mark, w: Weather): State {
    var off := TakenOff(s.(timers := s.timers - {m.jid}), m, w.remove);
    if w.remove.Removed? then Dropped(off, m.jid, w.drop) else off
  }

  function Armed(s: State, jid: string, due: int): State {
    s.(lastGen := s.lastGen + 1, timers := s.timers[jid := Backstop(s.lastGen + 1, due)])
  }

  /** The second half of Typing(on): add on the candidate, record it, arm. */
  function Placed(s: State, jid: string, now: int, w: Weather): State {
    if jid !in s.cand || s.cand[jid] == "" then s
    else
      match w.add
      case NoMarkTarget => s
      case AddFailed(landed, handle) =>
        var m := Mark(jid, s.cand[jid], handle);
        if landed then s.(standing := s.standing + {m}) else s
      case Added(handle) =>
        var m := Mark(jid, s.cand[jid], handle);
        var up := s.(standing := s.standing + {m});
        var rec := if w.record == FailedBefore then up
                   else up.(records := up.records[jid := Record(m.target, handle, At(now))]);
        if w.record == Answered then Armed(rec, jid, now + TTL) else TakenOff(rec, m, w.undo)
  }

  function Typed(s: State, jid: string, on: bool, now: int, w: Weather): State {
    if w.readFails then s
    else if jid in s.records && !ReleaseSucceeds(w) then Released(s, MarkOf(jid, s.records[jid]), w)
    else
      var free := if jid in s.records then Released(s, MarkOf(jid, s.records[jid]), w) else s;
      if on then Placed(free, jid, now, w) else free
  }

  predicate Old(r: Record, now: int) { r.setAt.Unreadable? || now - r.setAt.t >= TTL }

  /** One row of the boot sweep, as it was read before the lock was taken. */
  function SweptOne(s: State, jid: string, r: Record, now: int, w: Weather): State {
    if Old(r, now) then Released(s, MarkOf(jid, r), w) else Armed(s, jid, r.setAt.t + TTL)
  }

  function Stopped(s: State): State { s.(timers := map[]) }

  function Expired(s: State, jid: string, gen: nat, w: Weather): State {
    if jid !in s.timers || s.timers[jid].gen != gen then s
    else
      var off := s.(timers := s.timers - {jid});
      if w.readFails || jid !in off.records then off else Released(off, MarkOf(jid, off.records[jid]), w)
  }

  // ----- The helper as a class -----

  class AckMark {
    var records: map<string, Record>
    var standing: set<Mark>
    var cand: map<string, string>
    var timers: map<string, Backstop>
    var lastGen: nat

    ghost function Now(): State
      reads this
    {
      State(records, standing, cand, timers, lastGen, Idle)
    }

    /** A helper starts over what an earlier process left in the store and on the
        platform, with no hint and no timer. */
    constructor (records: map<string, Record>, standing: set<Mark>)
      ensures Now() == State(records, standing, map[], map[], 0, Idle)
    {
      this.records, this.standing := records, standing;
      cand, timers, lastGen := map[], map[], 0;
    }

    method Note(jid: string, id: string, verb: string)
      modifies this`cand
      ensures Now() == Noted(old(Now()), jid, id, verb)
    {
      if jid == "" || id == "" {
        return;
      }
      if verb == "" || verb == "message" || verb == "mention" {
        cand := cand[jid := id];
      }
    }

    method TakeOff(m: Mark, how: Removal) returns (ok: bool)
      modifies this`standing
      ensures ok == how.Removed? && Now() == TakenOff(old(Now()), m, how)
    {
      if how.Removed? || how.gone {
        standing := standing - {m};
      }
      ok := how.Removed?;
    }

    method Release(m: Mark, w: Weather) returns (ok: bool)
      modifies this
      ensures ok == ReleaseSucceeds(w) && Now() == Released(old(Now()), m, w)
    {
      timers := timers - {m.jid};
      var off := TakeOff(m, w.remove);
      if !off {
        return false;
      }
      if w.drop != FailedBefore {
        records := records - {m.jid};
      }
      return w.drop == Answered;
    }

    method Arm(jid: string, due: int)
      modifies this
      ensures Now() == Armed(old(Now()), jid, due)
    {
      lastGen := lastGen + 1;
      timers := timers[jid := Backstop(lastGen, due)];
    }

    method Typing(jid: string, on: bool, now: int, w: Weather)
      modifies this
      ensures Now() == Typed(old(Now()), jid, on, now, w)
    {
      if w.readFails {
        return;
      }
      if jid in records {
        var released := Release(MarkOf(jid, records[jid]), w);
        if !released {
          return;
        }
      }
      if !on {
        return;
      }
      if jid !in cand || cand[jid] == "" {
        return;
      }
      var target := cand[jid];
      match w.add
      case NoMarkTarget => return;
      case AddFailed(landed, handle) =>
        if landed {
          standing := standing + {Mark(jid, target, handle)};
        }
        return;
      case Added(handle) =>
        var m := Mark(jid, target, handle);
        standing := standing + {m};
        if w.record != FailedBefore {
          records := records[jid := Record(target, handle, At(now))];
        }
        if w.record != Answered {
          var undone := TakeOff(m, w.undo);
          return;
        }
        Arm(jid, now + TTL);
    }

    /** Sweep over the marks it read before it took the lock. */
    method Sweep(marks: seq<(string, Record)>, now: int, weather: seq<Weather>)
      requires |weather| == |marks|
      modifies this
      ensures Now() == SweptAll(old(Now()), marks, now, weather)
    {
      for i := 0 to |marks|
        invariant Now() == SweptAll(old(Now()), marks[..i], now, weather[..i])
      {
        var (jid, r) := marks[i];
        if Old(r, now) {
          var ok := Release(MarkOf(jid, r), weather[i]);
        } else {
          Arm(jid, r.setAt.t + TTL);
        }
        assert marks[..i + 1][..i] == marks[..i] && weather[..i + 1][..i] == weather[..i];
      }
      assert marks[..|marks|] == marks && weather[..|marks|] == weather;
    }

    method Stop()
      modifies this`timers
      ensures Now() == Stopped(old(Now())) && timers == map[]
    {
      timers := map[];
    }

    method Expire(jid: string, gen: nat, w: Weather)
      modifies this
      ensures Now() == Expired(old(Now()), jid, gen, w)
    {
      if jid !in timers || timers[jid].gen != gen {
        return;
      }
      timers := timers - {jid};
      if w.readFails || jid !in records {
        return;
      }
      var ok := Release(MarkOf(jid, records[jid]), w);
    }
  }

  function SweptAll(s: State, marks: seq<(string, Record)>, now: int, weather: seq<Weather>): State
    requires |weather| == |marks|
  {
    if marks == [] then s
    else
      var n := |marks| - 1;
      SweptOne(SweptAll(s, marks[..n], now, weather[..n]), marks[n].0, marks[n].1, now, weather[n])
  }

  // ----- Atomic steps -----

  /** One call to the store or the platform at a time. The lock keeps operations apart,
      so a second one cannot begin; a note can come at any time, and so can a crash. */
  datatype Event =
    | Note(jid: string, id: string, verb: string)
    | BeginTyping(jid: string, on: bool, readFails: bool)
    | BeginSweep(jid: string, r: Record, now: int)
    | BeginExpire(jid: string, gen: nat, readFails: bool)
    | Remove(how: Removal)
    | Drop(batch: Batch)
    | Add(a: Addition)
    | Save(batch: Batch, now: int)
    | Undo(how: Removal)
    | Stop
    | Crash

  function Releasing(s: State, m: Mark, on: bool): State {
    s.(timers := s.timers - {m.jid}, pc := Removing(m, on))
  }

  /** The candidate is read once the release is through. */
  function Aimed(s: State, jid: string): State {
    s.(pc := if jid in s.cand && s.cand[jid] != "" then Adding(jid, s.cand[jid]) else Idle)
  }

  function Begun(s: State, e: Event): State {
    match e
    case BeginTyping(jid, on, readFails) =>
      if readFails then s
      else if jid in s.records then Releasing(s, MarkOf(jid, s.records[jid]), on)
      else if on then Aimed(s, jid) else s
    case BeginSweep(jid, r, now) =>
      if Old(r, now) then Releasing(s, MarkOf(jid, r), false) else Armed(s, jid, r.setAt.t + TTL)
    case BeginExpire(jid, gen, readFails) =>
      if jid !in s.timers || s.timers[jid].gen != gen then s
      else
        var off := s.(timers := s.timers - {jid});
        if readFails || jid !in off.records then off else Releasing(off, MarkOf(jid, off.records[jid]), false)
    case _ => Stopped(s)
  }

  function Went(s: State, e: Event): State {
    match (s.pc, e)
    case (Removing(m, on), Remove(how)) =>
      TakenOff(s, m, how).(pc := if how.Removed? then Dropping(m, on) else Idle)
    case (Dropping(m, on), Drop(batch)) =>
      var off := Dropped(s, m.jid, batch).(pc := Idle);
      if batch == Answered && on then Aimed(off, m.jid) else off
    case (Adding(jid, target), Add(a)) =>
      (match a
       case NoMarkTarget => s.(pc := Idle)
       case AddFailed(landed, handle) =>
         (if landed then s.(standing := s.standing + {Mark(jid, target, handle)}) else s).(pc := Idle)
       case Added(handle) =>
         var m := Mark(jid, target, handle);
         s.(standing := s.standing + {m}, pc := Recording(m)))
    case (Recording(m), Save(batch, now)) =>
      var rec := if batch == FailedBefore then s else s.(records := s.records[m.jid := Record(m.target, m.handle, At(now))]);
      if batch == Answered then Armed(rec, m.jid, now + TTL).(pc := Idle) else rec.(pc := Undoing(m))
    case (Undoing(m), Undo(how)) => TakenOff(s, m, how).(pc := Idle)
    case _ => s
  }

  /** A new process knows what the store knows. */
  function Restarted(s: State): State { State(s.records, s.standing, map[], map[], 0, Idle) }

  predicate Begins(e: Event) { e.BeginTyping? || e.BeginSweep? || e.BeginExpire? || e.Stop? }

  function Step(s: State, e: Event): State {
    if e.Crash? then Restarted(s)
    else if e.Note? then Noted(s, e.jid, e.id, e.verb)
    else if Begins(e) then (if s.pc.Idle? then Begun(s, e) else s)
    else Went(s, e)
  }

  function Run(s: State, es: seq<Event>): State {
    if es == [] then s else Step(Run(s, es[..|es| - 1]), es[|es| - 1])
  }

  // ----- An operation is a run of its steps -----

  function Rest(w: Weather, now: int): seq<Event> {
    [Remove(w.remove), Drop(w.drop), Add(w.add), Save(w.record, now), Undo(w.undo)]
  }

  /** The two halves: the release, then the placing. */
  function FreedBy(s: State, w: Weather): State { Step(Step(s, Remove(w.remove)), Drop(w.drop)) }

  function PlacedBy(s: State, w: Weather, now: int): State { Step(Step(Step(s, Add(w.add)), Save(w.record, now)), Undo(w.undo)) }

  lemma RunSix(s: State, e: Event, w: Weather, now: int)
    ensures Run(s, [e] + Rest(w, now)) == PlacedBy(FreedBy(Step(s, e), w), w, now)
  {
    var r := Rest(w, now);
    var es := [e] + r;
    assert es == [e, r[0], r[1], r[2], r[3], r[4]];
    assert [e][..0] == [] && Run(s, [e]) == Step(s, e);
    assert [e, r[0]][..1] == [e];
    assert [e, r[0], r[1]][..2] == [e, r[0]];
    assert [e, r[0], r[1], r[2]][..3] == [e, r[0], r[1]];
    assert [e, r[0], r[1], r[2], r[3]][..4] == [e, r[0], r[1], r[2]];
    assert es[..5] == [e, r[0], r[1], r[2], r[3]];
    assert Run(s, [e, r[0]]) == Step(Step(s, e), r[0]);
    assert Run(s, [e, r[0], r[1]]) == Step(Step(Step(s, e), r[0]), r[1]);
    assert Run(s, [e, r[0], r[1], r[2]]) == Step(Step(Step(Step(s, e), r[0]), r[1]), r[2]);
  }

  lemma IdleStays(s: State, w: Weather, now: int)
    requires s.pc == Idle
    ensures FreedBy(s, w) == s && PlacedBy(s, w, now) == s
  {}

  lemma FreedSteps(s: State, m: Mark, on: bool, w: Weather)
    requires s.pc == Idle
    ensures FreedBy(Releasing(s, m, on), w) ==
            if on && ReleaseSucceeds(w) then Aimed(Released(s, m, w), m.jid) else Released(s, m, w)
  {}

  lemma AimedStays(s: State, jid: string, w: Weather)
    requires s.pc == Idle
    ensures FreedBy(Aimed(s, jid), w) == Aimed(s, jid)
  {}

  lemma PlacedSteps(s: State, jid: string, w: Weather, now: int)
    requires s.pc == Idle
    ensures PlacedBy(Aimed(s, jid), w, now) == Placed(s, jid, now, w)
  {
    if jid !in s.cand || s.cand[jid] == "" {
      IdleStays(s, w, now);
    } else if w.add.Added? {
      var m := Mark(jid, s.cand[jid], w.add.handle);
      var up := s.(standing := s.standing + {m}, pc := Recording(m));
      assert Step(Aimed(s, jid), Add(w.add)) == up;
      SavedSteps(up, m, w, now);
    } else {
      var t := Step(Aimed(s, jid), Add(w.add));
      assert t == Placed(s, jid, now, w) && t.pc == Idle;
      assert Step(t, Save(w.record, now)) == t;
    }
  }

  lemma SavedSteps(s: State, m: Mark, w: Weather, now: int)
    requires s.pc == Recording(m)
    ensures var rec := if w.record == FailedBefore then s
                       else s.(records := s.records[m.jid := Record(m.target, m.handle, At(now))]);
            Step(Step(s, Save(w.record, now)), Undo(w.undo)) ==
            (if w.record == Answered then Armed(rec, m.jid, now + TTL) else TakenOff(rec, m, w.undo)).(pc := Idle)
  {}

  /** Taken without interruption, the steps of Typing come to what the method of the
      class computes. */
  lemma TypingIsARun(s: State, jid: string, on: bool, now: int, w: Weather)
    requires s.pc == Idle
    ensures Run(s, [BeginTyping(jid, on, w.readFails)] + Rest(w, now)) == Typed(s, jid, on, now, w)
  {
    RunSix(s, BeginTyping(jid, on, w.readFails), w, now);
    IdleStays(s, w, now);
    if !w.readFails && jid in s.records {
      var m := MarkOf(jid, s.records[jid]);
      FreedSteps(s, m, on, w);
      IdleStays(Released(s, m, w), w, now);
      PlacedSteps(Released(s, m, w), jid, w, now);
    } else if !w.readFails && on {
      AimedStays(s, jid, w);
      PlacedSteps(s, jid, w, now);
    }
  }

  /** So do those of a swept row, and of a backstop. */
  lemma SweepIsARun(s: State, jid: string, r: Record, now: int, w: Weather)
    requires s.pc == Idle
    ensures Run(s, [BeginSweep(jid, r, now)] + Rest(w, now)) == SweptOne(s, jid, r, now, w)
  {
    RunSix(s, BeginSweep(jid, r, now), w, now);
    SweepBegins(s, jid, r, now);
    if Old(r, now) {
      ReleaseIsItsSteps(s, MarkOf(jid, r), w, now);
    } else {
      IdleStays(Armed(s, jid, r.setAt.t + TTL), w, now);
    }
  }

  lemma SweepBegins(s: State, jid: string, r: Record, now: int)
    requires s.pc == Idle
    ensures Step(s, BeginSweep(jid, r, now)) ==
            if Old(r, now) then Releasing(s, MarkOf(jid, r), false) else Armed(s, jid, r.setAt.t + TTL)
  {}

  lemma ExpireIsARun(s: State, jid: string, gen: nat, now: int, w: Weather)
    requires s.pc == Idle
    ensures Run(s, [BeginExpire(jid, gen, w.readFails)] + Rest(w, now)) == Expired(s, jid, gen, w)
  {
    RunSix(s, BeginExpire(jid, gen, w.readFails), w, now);
    if jid !in s.timers || s.timers[jid].gen != gen {
      IdleStays(s, w, now);
    } else {
      var off := s.(timers := s.timers - {jid});
      if w.readFails || jid !in off.records {
        IdleStays(off, w, now);
      } else {
        ReleaseIsItsSteps(off, MarkOf(jid, off.records[jid]), w, now);
      }
    }
  }

  lemma ReleaseIsItsSteps(s: State, m: Mark, w: Weather, now: int)
    requires s.pc == Idle
    ensures PlacedBy(FreedBy(Releasing(s, m, false), w), w, now) == Released(s, m, w)
  {
    FreedSteps(s, m, false, w);
    assert Released(s, m, w).pc == Idle;
    IdleStays(Released(s, m, w), w, now);
  }

  // ----- Marks that nobody can find -----

  /** A mark the store can find again. */
  ghost predicate Recorded(s: State, m: Mark) {
    m.jid in s.records && MarkOf(m.jid, s.records[m.jid]) == m
  }

  /** The operation in progress still holds the mark in hand. */
  predicate Placing(pc: Pc, m: Mark) { pc == Recording(m) || pc == Undoing(m) }

  /** The mark stands, and neither a record nor an operation knows of it. */
  ghost predicate Unfindable(s: State, m: Mark) {
    m in s.standing && !Recorded(s, m) && !Placing(s.pc, m)
  }

  /** What the operation in progress relies on. */
  ghost predicate PcInv(s: State) {
    match s.pc
    case Idle => true
    case Removing(m, _) => m.jid !in s.timers
    case Dropping(m, _) => m !in s.standing && m.jid !in s.timers
    case Adding(jid, _) => jid !in s.records
    case Recording(m) => m.jid !in s.records && m in s.standing
    case Undoing(m) => (m.jid in s.records ==> Recorded(s, m)) && m in s.standing
  }

  lemma {:induction false} RunKeepsPc(s: State, es: seq<Event>)
    requires PcInv(s)
    ensures PcInv(Run(s, es))
    decreases |es|
  {
    if es != [] {
      RunKeepsPc(s, es[..|es| - 1]);
      StepKeepsPc(Run(s, es[..|es| - 1]), es[|es| - 1]);
    }
  }

  lemma StepKeepsPc(s: State, e: Event)
    requires PcInv(s)
    ensures PcInv(Step(s, e))
  {}

  /** The steps that leave a mark behind: an addition that reported a failure but landed;
      an undo that did not take the mark off, its record having failed; a crash between
      the addition and its record; and a drop that hits the record of another mark. */
  ghost predicate Leaves(s: State, e: Event, m: Mark) {
    match (s.pc, e)
    case (Adding(jid, target), Add(AddFailed(landed, handle))) => landed && m == Mark(jid, target, handle)
    case (Undoing(u), Undo(RemovalFailed(gone))) => !gone && m == u && m.jid !in s.records
    case (Recording(u), Crash) => m == u
    case (Undoing(u), Crash) => m == u && m.jid !in s.records
    case (Dropping(u, _), Drop(batch)) => batch != FailedBefore && m.jid == u.jid && m in s.standing && Recorded(s, m)
    case _ => false
  }

  /** Exactly these steps leave a standing mark that nobody can find. A crash does so at
      two points and at no other. */
  lemma LeftBehindIff(s: State, e: Event, m: Mark)
    requires PcInv(s) && !Unfindable(s, m)
    ensures Unfindable(Step(s, e), m) <==> Leaves(s, e, m)
  {}

  /** Over any run, whatever fails and wherever it crashes, a standing mark is recorded,
      in the hand of the operation in progress, or was left behind by one of those steps. */
  lemma {:induction false} StandingMarksAreFindable(s: State, es: seq<Event>, m: Mark)
    requires PcInv(s) && m in Run(s, es).standing
    ensures Recorded(Run(s, es), m) || Placing(Run(s, es).pc, m) || Unfindable(s, m)
            || exists i | 0 <= i < |es| :: Leaves(Run(s, es[..i]), es[i], m)
    decreases |es|
  {
    if es != [] {
      var n := |es| - 1;
      var before := Run(s, es[..n]);
      RunKeepsPc(s, es[..n]);
      if !Unfindable(before, m) {
        LeftBehindIff(before, es[n], m);
      } else {
        StandingMarksAreFindable(s, es[..n], m);
        if i :| 0 <= i < n && Leaves(Run(s, es[..n][..i]), es[..n][i], m) {
          assert es[..n][..i] == es[..i] && es[..n][i] == es[i];
        }
      }
    }
  }

  /** Over any run a chat shows at most one mark that can be found. So it shows two only
      where one of those steps left a mark behind, or one was lost before the run. */
  lemma OneMarkPerChat(s: State, es: seq<Event>, m: Mark, n: Mark)
    requires PcInv(s) && m in Run(s, es).standing && n in Run(s, es).standing && m.jid == n.jid && m != n
    ensures Unfindable(Run(s, es), m) || Unfindable(Run(s, es), n)
    ensures Unfindable(s, m) || Unfindable(s, n)
            || exists i | 0 <= i < |es| :: Leaves(Run(s, es[..i]), es[i], m) || Leaves(Run(s, es[..i]), es[i], n)
  {
    RunKeepsPc(s, es);
    StandingMarksAreFindable(s, es, m);
    StandingMarksAreFindable(s, es, n);
  }

  lemma RunThree(s: State, e1: Event, e2: Event, e3: Event)
    ensures Run(s, [e1, e2, e3]) == Step(Step(Step(s, e1), e2), e3)
  {
    assert [e1, e2, e3][..2] == [e1, e2] && [e1, e2][..1] == [e1] && [e1][..0] == [];
    assert Run(s, [e1]) == Step(s, e1);
    assert Run(s, [e1, e2]) == Step(Step(s, e1), e2);
  }

  /** A crash between the addition and its record leaves a mark for good, no call having
      failed. */
  lemma CrashLeavesAMark(jid: string, target: string, handle: string)
    requires target != ""
    ensures var s := State(map[], {}, map[jid := target], map[], 0, Idle);
            var t := Run(s, [BeginTyping(jid, true, false), Add(Added(handle)), Crash]);
            t.standing == {Mark(jid, target, handle)} && t.records == map[] && Unfindable(t, Mark(jid, target, handle))
  {
    var s := State(map[], {}, map[jid := target], map[], 0, Idle);
    RunThree(s, BeginTyping(jid, true, false), Add(Added(handle)), Crash);
  }

  /** The sweep reads before it locks, so a turn that ends and a turn that starts in
      between make it drop the newer record: the new mark stands unrecorded although
      nothing failed and nothing crashed. */
  lemma SweepRaceLosesTheNewMark(jid: string, first: Record, ok: Weather)
    requires jid != "" && first.target != "m2" && first.setAt == At(0)
    requires ok == Weather(false, Removed, Answered, Added("h2"), Answered, Removed)
    ensures var s := State(map[jid := first], {MarkOf(jid, first)}, map[jid := "m2"], map[], 0, Idle);
            var t := SweptOne(Typed(Typed(s, jid, false, TTL, ok), jid, true, TTL, ok), jid, first, TTL, ok);
            && (forall m :: !Unfindable(s, m))
            && t.standing == {Mark(jid, "m2", "h2")} && t.records == map[] && Unfindable(t, Mark(jid, "m2", "h2"))
  {
    var s := State(map[jid := first], {MarkOf(jid, first)}, map[jid := "m2"], map[], 0, Idle);
    var s1 := Typed(s, jid, false, TTL, ok);
    assert s1 == State(map[], {}, map[jid := "m2"], map[], 0, Idle);
    var s2 := Typed(s1, jid, true, TTL, ok);
    assert s2.records == map[jid := Record("m2", "h2", At(TTL))] && s2.standing == {Mark(jid, "m2", "h2")};
  }

  // ----- Timers -----

  ghost predicate Generations(s: State) {
    && (forall jid | jid in s.timers :: s.timers[jid].gen <= s.lastGen)
    && (forall i, j | i in s.timers && j in s.timers && s.timers[i].gen == s.timers[j].gen :: i == j)
  }

  /** A generation that was given out and is no longer the chat's. */
  predicate Stale(s: State, jid: string, gen: nat) {
    gen <= s.lastGen && (jid in s.timers ==> s.timers[jid].gen != gen)
  }

  /** A timer with a stale generation changes nothing, and stays stale for the life of the
      process: an earlier mark's backstop can never take a newer mark down. */
  lemma {:induction false} StaleTimersAreHarmless(s: State, es: seq<Event>, jid: string, gen: nat, readFails: bool)
    requires Generations(s) && Stale(s, jid, gen) && forall e | e in es :: !e.Crash?
    ensures var t := Run(s, es);
            Generations(t) && Stale(t, jid, gen) && Step(t, BeginExpire(jid, gen, readFails)) == t
    decreases |es|
  {
    if es != [] {
      StaleTimersAreHarmless(s, es[..|es| - 1], jid, gen, readFails);
      TimersStep(Run(s, es[..|es| - 1]), es[|es| - 1]);
    }
  }

  /** A step gives out at most one generation, the next; it moves no other timer. */
  ghost predicate TimersMove(s: State, t: State) {
    && s.lastGen <= t.lastGen <= s.lastGen + 1
    && (forall j | j in t.timers ::
          || (j in s.timers && t.timers[j] == s.timers[j])
          || (t.timers[j].gen == t.lastGen == s.lastGen + 1))
    && (forall i, j | i in t.timers && j in t.timers && t.timers[i].gen == t.timers[j].gen == s.lastGen + 1 :: i == j)
  }

  lemma TimersStep(s: State, e: Event)
    requires Generations(s) && !e.Crash?
    ensures TimersMove(s, Step(s, e))
  {
    if !e.Note? && !Begins(e) {
      WentTimers(s, e);
    }
  }

  lemma WentTimers(s: State, e: Event)
    requires Generations(s)
    ensures TimersMove(s, Went(s, e))
  {}

  /** Every armed backstop is due when its chat's record turns old. */
  ghost predicate Due(s: State) {
    && PcInv(s)
    && forall jid | jid in s.timers :: jid in s.records && s.records[jid].setAt == At(s.timers[jid].due - TTL)
  }

  /** The sweep arms a backstop for a young row whose chat has no record any more, or one
      of another age: it read the row before it took the lock. */
  ghost predicate Misarms(s: State, e: Event) {
    && e.BeginSweep? && s.pc == Idle && !Old(e.r, e.now)
    && !(e.jid in s.records && s.records[e.jid].setAt == e.r.setAt)
  }

  /** A step makes a backstop due at another time than its mark exactly when it misarms. */
  lemma MisarmedIff(s: State, e: Event)
    requires Due(s)
    ensures Due(Step(s, e)) <==> !Misarms(s, e)
  {
    StepKeepsPc(s, e);
    if Misarms(s, e) {
      var t := Step(s, e);
      assert e.jid in t.timers && t.timers[e.jid].due - TTL == e.r.setAt.t;
    }
  }

  /** No backstop fires early or late: in every state of a run each one is due exactly
      when the mark it guards has stood for its time, marks swept at boot included, until
      a sweep misarms one. */
  lemma {:induction false} BackstopsMatchRecords(s: State, es: seq<Event>)
    requires Due(s) && forall i | 0 <= i < |es| :: !Misarms(Run(s, es[..i]), es[i])
    ensures Due(Run(s, es))
    decreases |es|
  {
    if es != [] {
      var n := |es| - 1;
      forall i | 0 <= i < n ensures !Misarms(Run(s, es[..n][..i]), es[..n][i]) {
        assert es[..n][..i] == es[..i] && es[..n][i] == es[i];
      }
      BackstopsMatchRecords(s, es[..n]);
      MisarmedIff(Run(s, es[..n]), es[n]);
    }
  }

  /** The same race as above with a young mark: the sweep cuts the newer mark's time short
      by the age of the one it read. */
  lemma SweepRaceArmsEarly(jid: string, first: Record, ok: Weather)
    requires jid != "" && first.target != "m2" && first.setAt == At(0)
    requires ok == Weather(false, Removed, Answered, Added("h2"), Answered, Removed)
    ensures var s := State(map[jid := first], {MarkOf(jid, first)}, map[jid := "m2"], map[], 0, Idle);
            var u := Typed(Typed(s, jid, false, 600, ok), jid, true, 600, ok);
            var t := SweptOne(u, jid, first, 700, ok);
            && Due(s) && Due(u) && Misarms(u, BeginSweep(jid, first, 700)) && !Due(t)
            && t.records == map[jid := Record("m2", "h2", At(600))]
            && jid in t.timers && t.timers[jid].due == TTL && jid in u.timers && u.timers[jid].due == 600 + TTL
  {
    var s := State(map[jid := first], {MarkOf(jid, first)}, map[jid := "m2"], map[], 0, Idle);
    var s1 := Typed(s, jid, false, 600, ok);
    assert s1 == State(map[], {}, map[jid := "m2"], map[], 0, Idle);
    var u := Typed(s1, jid, true, 600, ok);
    assert u.records == map[jid := Record("m2", "h2", At(600))] && u.timers == map[jid := Backstop(1, 600 + TTL)] && u.pc == Idle;
    SweepBegins(u, jid, first, 700);
    MisarmedIff(u, BeginSweep(jid, first, 700));
  }

  // ----- The candidate -----

  predicate Triggers(e: Event, jid: string) {
    e.Note? && e.jid == jid && jid != "" && e.id != "" && e.verb in {"", "message", "mention"}
  }

  /** Nothing after event `i` replaces the chat's candidate. */
  ghost predicate LastAt(es: seq<Event>, jid: string, i: nat) {
    i < |es| && Triggers(es[i], jid) && forall k | i < k < |es| :: !Triggers(es[k], jid) && !es[k].Crash?
  }

  /** `id` is the chat's newest message of the run, since the last restart, that can
      start a turn. */
  ghost predicate NewestTrigger(es: seq<Event>, jid: string, id: string) {
    exists i: nat :: LastAt(es, jid, i) && es[i].id == id
  }

  /** A process's hint is its newest trigger, whatever else ran in between. */
  lemma {:induction false} CandidateIsNewest(s: State, es: seq<Event>, jid: string)
    requires s.cand == map[]
    ensures var t := Run(s, es);
            forall id :: (jid in t.cand && t.cand[jid] == id) <==> NewestTrigger(es, jid, id)
    decreases |es|
  {
    if es != [] {
      var n := |es| - 1;
      CandidateIsNewest(s, es[..n], jid);
      CandidateStep(Run(s, es[..n]), es[n], jid);
      var t := Run(s, es);
      forall id ensures (jid in t.cand && t.cand[jid] == id) <==> NewestTrigger(es, jid, id) {
        NewestNext(es, jid, id);
      }
    }
  }

  lemma NewestNext(es: seq<Event>, jid: string, id: string)
    requires es != []
    ensures var n := |es| - 1;
            NewestTrigger(es, jid, id) <==>
            if Triggers(es[n], jid) then es[n].id == id else !es[n].Crash? && NewestTrigger(es[..n], jid, id)
  {
    var n := |es| - 1;
    if NewestTrigger(es, jid, id) {
      var i: nat :| LastAt(es, jid, i) && es[i].id == id;
      if i < n {
        assert LastAt(es[..n], jid, i) && es[..n][i] == es[i];
      }
    }
    if Triggers(es[n], jid) {
      assert LastAt(es, jid, n);
    } else if !es[n].Crash? && NewestTrigger(es[..n], jid, id) {
      var i: nat :| LastAt(es[..n], jid, i) && es[..n][i].id == id;
      forall k | i < k < |es| ensures !Triggers(es[k], jid) && !es[k].Crash? {
        if k < n { assert es[..n][k] == es[k]; }
      }
      assert LastAt(es, jid, i) && es[i] == es[..n][i];
    }
  }

  lemma CandidateStep(s: State, e: Event, jid: string)
    ensures var t := Step(s, e);
            if e.Crash? then jid !in t.cand
            else if Triggers(e, jid) then jid in t.cand && t.cand[jid] == e.id
            else (jid in t.cand <==> jid in s.cand) && (jid in t.cand ==> t.cand[jid] == s.cand[jid])
  {}

  // ----- What an operation achieves -----

  predicate AllWell(w: Weather) {
    !w.readFails && ReleaseSucceeds(w) && w.add.Added? && w.record == Answered
  }

  /** After any run Typing(on) takes the chat's earlier mark off, pins the newest message
      that can start a turn, and leaves it recorded under a backstop of its own; no other
      chat's mark moves. */
  lemma TypingOnPinsTheNewest(s0: State, es: seq<Event>, jid: string, id: string, now: int, w: Weather)
    requires s0.cand == map[] && AllWell(w) && NewestTrigger(es, jid, id) && Run(s0, es).pc == Idle
    ensures var s := Run(s0, es);
            var t := Typed(s, jid, true, now, w);
            var m := Mark(jid, id, w.add.handle);
            && m in t.standing && Recorded(t, m)
            && (forall n | n in t.standing && n.jid == jid :: n == m || Unfindable(s, n))
            && (forall n: Mark | n.jid != jid :: n in t.standing <==> n in s.standing)
            && jid in t.timers && t.timers[jid] == Backstop(s.lastGen + 1, now + TTL)
            && (jid in s.timers && s.timers[jid].gen <= s.lastGen ==> Stale(t, jid, s.timers[jid].gen))
  {
    CandidateIsNewest(s0, es, jid);
    assert id != "";
  }

  /** Typing(on) places nothing where the message cannot carry a mark or the chat has no
      candidate, and keeps nothing it could not record. */
  lemma NothingToPin(s: State, jid: string, now: int, w: Weather)
    requires s.pc == Idle && jid !in s.records && !w.readFails
    ensures w.add.NoMarkTarget? || jid !in s.cand || s.cand[jid] == "" ==> Typed(s, jid, true, now, w) == s
    ensures w.add.Added? && w.record == FailedBefore && w.undo.Removed? && jid in s.cand && s.cand[jid] != ""
              && Mark(jid, s.cand[jid], w.add.handle) !in s.standing ==>
              var t := Typed(s, jid, true, now, w); t.standing == s.standing && t.records == s.records && t.timers == s.timers
  {}

  /** The boot sweep takes down a mark that has stood for its time, or whose time cannot be
      read; a younger one stays, under a backstop for exactly the rest of its time. */
  lemma SweepJudgesByAge(s: State, jid: string, r: Record, now: int, w: Weather)
    requires s.pc == Idle && AllWell(w)
    ensures var t := SweptOne(s, jid, r, now, w);
            if r.setAt == Unreadable || now - r.setAt.t >= 1620 then
              jid !in t.records && jid !in t.timers && MarkOf(jid, r) !in t.standing
            else
              && t.standing == s.standing && t.records == s.records
              && jid in t.timers && t.timers[jid].due == r.setAt.t + 1620 && t.timers[jid].due > now
  {}

  /** Typing(off), and the backstop that is still the chat's, clear the chat: no record,
      no timer, and no mark but one that could not be found before. */
  lemma OffAndBackstopClear(s: State, jid: string, now: int, w: Weather)
    requires AllWell(w) && s.pc == Idle
    ensures Cleared(s, Typed(s, jid, false, now, w), jid) || (jid !in s.records && Typed(s, jid, false, now, w) == s)
    ensures jid in s.timers ==> Cleared(s, Expired(s, jid, s.timers[jid].gen, w), jid)
  {}

  ghost predicate Cleared(s: State, t: State, jid: string) {
    jid !in t.records && jid !in t.timers && forall m | m in t.standing && m.jid == jid :: Unfindable(s, m)
  }
}
