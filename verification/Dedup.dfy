/** chanlib/dedup.go over chanlib/chanstore/outbound_dedup.go: at most one platform
    message per idempotency key. A call is a sequence of atomic steps; between two
    of them any other call may step, and any call may crash. */
module DeliveryLedger {
  import opened StoreWrites

  datatype Entry = Inflight | Sent(platformId: string)

  /** What the platform call does. `Refused` is the four error classes that prove
      nothing was posted; `Ambiguous` is every other error, landed or not; `Lied` is
      one of the four classes returned although the message landed. */
  datatype PostAnswer = Accepted(id: string) | Refused | Ambiguous(landed: seq<string>) | Lied(id: string)

  datatype Outcome =
    | Delivered(id: string) | Unresolved | ClaimFailed | ReadFailed | Vanished
    | PostFailed | Crashed

  /** Where one deliverOnce call stands. */
  datatype Call =
    | Unkeyed
    | Claiming(key: string)
    | Reading(key: string)
    | Posting(key: string)
    | Recording(key: string, id: string)
    | Releasing(key: string)
    | Done(key: string, outcome: Outcome)

  /** The ledger, what the platform accepted per key, and who took each claim last. */
  datatype Store = Store(ledger: map<string, Entry>, posted: map<string, seq<string>>, holder: map<string, nat>)

  datatype State = State(store: Store, calls: map<nat, Call>)

  const EMPTY := State(Store(map[], map[], map[]), map[])

  datatype Event =
    | Attempt(id: nat, key: string)
    | Claim(id: nat, batch: Batch)
    | Read(id: nat, fails: bool)
    | Post(id: nat, answer: PostAnswer)
    | Record(id: nat, batch: Batch)
    | Release(id: nat, batch: Batch)
    | Crash(id: nat)

  function PostedFor(st: Store, key: string): seq<string> {
    if key in st.posted then st.posted[key] else []
  }

  function Landed(a: PostAnswer): (s: seq<string>)
    ensures |s| <= 1
  {
    match a
    case Accepted(id) => [id]
    case Refused => []
    case Ambiguous(l) => if l == [] then [] else [l[0]]
    case Lied(id) => [id]
  }

  // ----- The store's atomic operations -----

  /** ClaimDelivery's put: only under an absent item. */
  function Claimed(st: Store, key: string, id: nat, batch: Batch): Store {
    if batch == FailedBefore || key in st.ledger then st
    else st.(ledger := st.ledger[key := Inflight], holder := st.holder[key := id])
  }

  function Accept(st: Store, key: string, a: PostAnswer): Store {
    st.(posted := st.posted[key := PostedFor(st, key) + Landed(a)])
  }

  /** RecordDelivered: an update, so the item has to be there. */
  function Recorded(st: Store, key: string, id: string, batch: Batch): Store {
    if batch == FailedBefore || key !in st.ledger then st else st.(ledger := st.ledger[key := Sent(id)])
  }

  /** ReleaseUnsentClaim: only an inflight claim is dropped. */
  function Released(st: Store, key: string, batch: Batch): Store {
    if batch == FailedBefore || key !in st.ledger || st.ledger[key] != Inflight then st
    else st.(ledger := st.ledger - {key})
  }

  // ----- Steps -----

  function StoreAfter(st: Store, id: nat, c: Call, e: Event): Store {
    match (c, e)
    case (Unkeyed, Post(_, a)) => Accept(st, "", a)
    case (Claiming(key), Claim(_, batch)) => Claimed(st, key, id, batch)
    case (Posting(key), Post(_, a)) => Accept(st, key, a)
    case (Recording(key, pid), Record(_, batch)) => Recorded(st, key, pid, batch)
    case (Releasing(key), Release(_, batch)) => Released(st, key, batch)
    case _ => st
  }

  function AfterPost(key: string, a: PostAnswer): Call {
    match a
    case Accepted(id) => Recording(key, id)
    case Ambiguous(_) => Done(key, PostFailed)
    case _ => Releasing(key)
  }

  function Found(st: Store, key: string): Outcome {
    if key !in st.ledger then Vanished
    else match st.ledger[key] case Sent(id) => Delivered(id) case Inflight => Unresolved
  }

  function CallAfter(st: Store, c: Call, e: Event): Call {
    match (c, e)
    case (Unkeyed, Post(_, a)) => Done("", if a.Accepted? then Delivered(a.id) else PostFailed)
    case (Claiming(key), Claim(_, batch)) =>
      if batch != Answered then Done(key, ClaimFailed)
      else if key in st.ledger then Reading(key) else Posting(key)
    case (Reading(key), Read(_, fails)) => Done(key, if fails then ReadFailed else Found(st, key))
    case (Posting(key), Post(_, a)) => AfterPost(key, a)
    case (Recording(key, id), Record(_, _)) => Done(key, Delivered(id))
    case (Releasing(key), Release(_, _)) => Done(key, PostFailed)
    case (_, Crash(_)) => Fallen(c)
    case _ => c
  }

  function Fallen(c: Call): Call {
    if c.Done? then c else if c.Unkeyed? then Done("", Crashed) else Done(c.key, Crashed)
  }

  function Step(s: State, e: Event): State {
    if e.Attempt? then
      if e.id in s.calls then s
      else s.(calls := s.calls[e.id := if e.key == "" then Unkeyed else Claiming(e.key)])
    else if e.id !in s.calls then s
    else
      var c := s.calls[e.id];
      State(StoreAfter(s.store, e.id, c, e), s.calls[e.id := CallAfter(s.store, c, e)])
  }

  function Run(s: State, es: seq<Event>): State {
    if es == [] then s else Step(Run(s, es[..|es| - 1]), es[|es| - 1])
  }

  // ----- The invariant -----

  /** The call holds the claim of its key. */
  predicate Active(c: Call) { c.Posting? || c.Recording? || c.Releasing? }

  ghost predicate KeyInv(st: Store, key: string) {
    && |PostedFor(st, key)| <= 1
    && (key !in st.ledger ==> PostedFor(st, key) == [])
    && (key in st.ledger && st.ledger[key].Sent? ==> PostedFor(st, key) == [st.ledger[key].platformId])
  }

  ghost predicate CallInv(st: Store, id: nat, c: Call) {
    && (!c.Unkeyed? && !c.Done? ==> c.key != "")
    && (Active(c) ==>
          && c.key in st.ledger && st.ledger[c.key] == Inflight
          && c.key in st.holder && st.holder[c.key] == id
          && PostedFor(st, c.key) == if c.Recording? then [c.id] else [])
    && (c.Done? && c.outcome.Delivered? && c.key != "" ==> PostedFor(st, c.key) == [c.outcome.id])
  }

  ghost predicate Inv(s: State) {
    && (forall key | key != "" :: KeyInv(s.store, key))
    && (forall id | id in s.calls :: CallInv(s.store, id, s.calls[id]))
  }

  predicate Honest(e: Event) { !(e.Post? && e.answer.Lied?) }

  /** A step of another call leaves a call's view intact. */
  lemma OthersKeepCall(s: State, e: Event, id: nat)
    requires Inv(s) && !e.Attempt? && e.id in s.calls && id in s.calls && id != e.id
    ensures CallInv(StoreAfter(s.store, e.id, s.calls[e.id], e), id, s.calls[id])
  {
    var c, d := s.calls[e.id], s.calls[id];
    assert CallInv(s.store, e.id, c) && CallInv(s.store, id, d);
  }

  lemma OwnStep(s: State, e: Event)
    requires Inv(s) && Honest(e) && !e.Attempt? && e.id in s.calls
    ensures var c := s.calls[e.id];
            var st := StoreAfter(s.store, e.id, c, e);
            && CallInv(st, e.id, CallAfter(s.store, c, e))
            && forall key | key != "" :: KeyInv(st, key)
  {
    var c := s.calls[e.id];
    var st := StoreAfter(s.store, e.id, c, e);
    assert CallInv(s.store, e.id, c);
    if !c.Unkeyed? && !c.Done? { assert KeyInv(s.store, c.key); }
    forall key | key != "" ensures KeyInv(st, key) {
      assert KeyInv(s.store, key);
    }
  }

  lemma StepKeepsInv(s: State, e: Event)
    requires Inv(s) && Honest(e)
    ensures Inv(Step(s, e))
  {
    if !e.Attempt? && e.id in s.calls {
      OwnStep(s, e);
      forall id | id in s.calls && id != e.id
        ensures CallInv(Step(s, e).store, id, s.calls[id])
      {
        OthersKeepCall(s, e, id);
      }
    }
  }

  lemma {:induction false} RunKeepsInv(es: seq<Event>)
    requires forall e | e in es :: Honest(e)
    ensures Inv(Run(EMPTY, es))
    decreases |es|
  {
    if es != [] {
      RunKeepsInv(es[..|es| - 1]);
      StepKeepsInv(Run(EMPTY, es[..|es| - 1]), es[|es| - 1]);
    }
  }

  // ----- What holds of every run -----

  /** Over any run of concurrent, repeated and crashing calls the platform accepts at
      most one message per key, and every success carries that message's id. */
  lemma AtMostOnePostPerKey(es: seq<Event>, key: string)
    requires key != "" && forall e | e in es :: Honest(e)
    ensures |PostedFor(Run(EMPTY, es).store, key)| <= 1
    ensures forall id | id in Run(EMPTY, es).calls ::
              var c := Run(EMPTY, es).calls[id];
              c.Done? && c.key == key && c.outcome.Delivered? ==>
                PostedFor(Run(EMPTY, es).store, key) == [c.outcome.id]
  {
    RunKeepsInv(es);
    var s := Run(EMPTY, es);
    assert KeyInv(s.store, key);
    forall id | id in s.calls ensures CallInv(s.store, id, s.calls[id]) {}
  }

  /** Two calls that both report success on a key report the same message. */
  lemma SuccessesAgree(es: seq<Event>, i: nat, j: nat)
    requires forall e | e in es :: Honest(e)
    requires var calls := Run(EMPTY, es).calls;
             && i in calls && j in calls && calls[i].Done? && calls[j].Done?
             && calls[i].key == calls[j].key != ""
             && calls[i].outcome.Delivered? && calls[j].outcome.Delivered?
    ensures Run(EMPTY, es).calls[i].outcome == Run(EMPTY, es).calls[j].outcome
  {
    AtMostOnePostPerKey(es, Run(EMPTY, es).calls[i].key);
  }

  /** The assumption on the four classes is needed: one that returns although the
      message landed frees the key, and the retry posts a second message. */
  lemma LyingRefusalPostsTwice(key: string, a: string, b: string)
    requires key != ""
    ensures PostedFor(Run(EMPTY, Lie(key, a) + Retry(key, b)).store, key) == [a, b]
  {
    LieFreesKey(key, a);
    RunConcat(EMPTY, Lie(key, a), Retry(key, b));
    FreeKeyPosts(Run(EMPTY, Lie(key, a)), key, b);
    assert [a] + [b] == [a, b];
  }

  function Lie(key: string, a: string): seq<Event> {
    [Attempt(0, key), Claim(0, Answered), Post(0, Lied(a)), Release(0, Answered)]
  }

  function Retry(key: string, b: string): seq<Event> {
    [Attempt(1, key), Claim(1, Answered), Post(1, Accepted(b))]
  }

  lemma LieFreesKey(key: string, a: string)
    requires key != ""
    ensures var s := Run(EMPTY, Lie(key, a));
            key !in s.store.ledger && 1 !in s.calls && PostedFor(s.store, key) == [a]
  {
    var es := Lie(key, a);
    var s1 := Step(EMPTY, es[0]);
    assert s1 == State(EMPTY.store, map[0 := Claiming(key)]);
    var s2 := Step(s1, es[1]);
    assert s2 == State(Store(map[key := Inflight], map[], map[key := 0]), map[0 := Posting(key)]);
    var s3 := Step(s2, es[2]);
    assert PostedFor(s2.store, key) + Landed(Lied(a)) == [a];
    assert s3 == State(Store(map[key := Inflight], map[key := [a]], map[key := 0]), map[0 := Releasing(key)]);
    RunFour(EMPTY, es[0], es[1], es[2], es[3]);
  }

  lemma RunFour(s: State, e1: Event, e2: Event, e3: Event, e4: Event)
    ensures Run(s, [e1, e2, e3, e4]) == Step(Step(Step(Step(s, e1), e2), e3), e4)
    ensures Run(s, [e1, e2, e3]) == Step(Step(Step(s, e1), e2), e3)
  {
    assert [e1][..0] == [];
    assert Run(s, [e1]) == Step(s, e1);
    assert [e1, e2][..1] == [e1];
    assert Run(s, [e1, e2]) == Step(Step(s, e1), e2);
    assert [e1, e2, e3][..2] == [e1, e2];
    assert [e1, e2, e3, e4][..3] == [e1, e2, e3];
  }

  lemma FreeKeyPosts(s: State, key: string, b: string)
    requires key != "" && key !in s.store.ledger && 1 !in s.calls
    ensures PostedFor(Run(s, Retry(key, b)).store, key) == PostedFor(s.store, key) + [b]
  {
    var es := Retry(key, b);
    RunFour(s, es[0], es[1], es[2], es[2]);
    assert Step(Step(s, es[0]), es[1]).calls[1] == Posting(key);
  }

  // ----- The call as it is written -----

  predicate Foreign(e: Event, id: nat) { e.id != id }

  lemma {:induction false} RunConcat(s: State, a: seq<Event>, b: seq<Event>)
    ensures Run(s, a + b) == Run(Run(s, a), b)
    decreases |b|
  {
    if b == [] {
      assert a + b == a;
    } else {
      RunConcat(s, a, b[..|b| - 1]);
      assert (a + b)[..|a + b| - 1] == a + b[..|b| - 1];
    }
  }

  lemma {:induction false} ForeignKeepsCall(s: State, es: seq<Event>, id: nat)
    requires id in s.calls && forall e | e in es :: Foreign(e, id)
    ensures id in Run(s, es).calls && Run(s, es).calls[id] == s.calls[id]
    decreases |es|
  {
    if es != [] {
      ForeignKeepsCall(s, es[..|es| - 1], id);
      assert Foreign(es[|es| - 1], id);
    }
  }

  /** What a call may meet: the store's answers and the platform's. */
  datatype Weather = Weather(claim: Batch, read: bool, answer: PostAnswer, settle: Batch)

  class Adapter {
    var state: State
    ghost var log: seq<Event>

    ghost predicate Valid()
      reads this
    {
      state == Run(EMPTY, log)
    }

    constructor ()
      ensures Valid() && log == []
    {
      state, log := EMPTY, [];
    }

    method Do(e: Event)
      requires Valid()
      modifies this
      ensures Valid() && log == old(log) + [e] && state == Step(old(state), e)
    {
      state, log := Step(state, e), log + [e];
      assert log[..|log| - 1] == old(log);
    }

    method Interleave(es: seq<Event>, id: nat)
      requires Valid() && id in state.calls && forall e | e in es :: Foreign(e, id)
      modifies this
      ensures Valid() && old(log) <= log && id in state.calls && state.calls[id] == old(state.calls[id])
    {
      RunConcat(EMPTY, log, es);
      ForeignKeepsCall(state, es, id);
      state, log := Run(state, es), log + es;
    }

    /** deliverOnce, with the steps of other calls before each of its own. It ends
        where the ledger protocol says a call with these answers ends. */
    method DeliverOnce(id: nat, key: string, between: seq<seq<Event>>, w: Weather) returns (o: Outcome)
      requires Valid() && id !in state.calls
      requires |between| == 3 && forall es, e | es in between && e in es :: Foreign(e, id)
      modifies this
      ensures key == "" ==> o == if w.answer.Accepted? then Delivered(w.answer.id) else PostFailed
      ensures key != "" && w.claim != Answered ==> o == ClaimFailed
      // A call that claimed the key answers what the platform did, whatever became of the record.
      ensures key != "" && w.claim == Answered ==>
                || o == (if w.answer.Accepted? then Delivered(w.answer.id) else PostFailed)
                || (if w.read then o == ReadFailed else o.Delivered? || o in {Vanished, Unresolved})
      ensures Valid() && old(log) <= log
      ensures id in state.calls && state.calls[id] == Done(key, o)
    {
      Do(Attempt(id, key));
      Interleave(between[0], id);
      if key == "" {
        Do(Post(id, w.answer));
        return if w.answer.Accepted? then Delivered(w.answer.id) else PostFailed;
      }
      var held := key in state.store.ledger;
      Do(Claim(id, w.claim));
      if w.claim != Answered {
        return ClaimFailed;
      }
      Interleave(between[1], id);
      if held {
        o := Look(id, key, w.read);
        return;
      }
      o := PostAndSettle(id, key, between[2], w);
    }

    /** The platform call and the write that settles the claim. */
    method PostAndSettle(id: nat, key: string, between: seq<Event>, w: Weather) returns (o: Outcome)
      requires Valid() && id in state.calls && state.calls[id] == Posting(key)
      requires forall e | e in between :: Foreign(e, id)
      modifies this
      ensures Valid() && old(log) <= log && id in state.calls && state.calls[id] == Done(key, o)
      ensures o == if w.answer.Accepted? then Delivered(w.answer.id) else PostFailed
    {
      Do(Post(id, w.answer));
      Interleave(between, id);
      match w.answer
      case Accepted(pid) =>
        Do(Record(id, w.settle));
        return Delivered(pid);
      case Ambiguous(_) =>
        return PostFailed;
      case _ =>
        Do(Release(id, w.settle));
        return PostFailed;
    }

    /** The point read behind a refused claim. */
    method Look(id: nat, key: string, fails: bool) returns (o: Outcome)
      requires Valid() && id in state.calls && state.calls[id] == Reading(key)
      modifies this
      ensures Valid() && old(log) <= log && id in state.calls && state.calls[id] == Done(key, o)
      ensures if fails then o == ReadFailed
              else o == if key !in old(state).store.ledger then Vanished
                        else match old(state).store.ledger[key] case Sent(pid) => Delivered(pid) case Inflight => Unresolved
    {
      var ledger := state.store.ledger;
      Do(Read(id, fails));
      if fails {
        return ReadFailed;
      }
      if key !in ledger {
        return Vanished;
      }
      match ledger[key]
      case Sent(pid) => return Delivered(pid);
      case Inflight => return Unresolved;
    }
  }

  // ----- What a call achieves -----

  /** On a free key a call whose post is accepted posts one message and answers its id,
      whether or not the record could be written; the record is there unless the write
      failed before it took effect, and then the key stays claimed. */
  lemma DeliveryIsRecorded(s: State, id: nat, key: string, pid: string, batch: Batch)
    requires Inv(s) && key != "" && key !in s.store.ledger && id !in s.calls
    ensures var t := Run(s, [Attempt(id, key), Claim(id, Answered), Post(id, Accepted(pid)), Record(id, batch)]);
            && id in t.calls && t.calls[id] == Done(key, Delivered(pid))
            && PostedFor(t.store, key) == [pid]
            && key in t.store.ledger && t.store.ledger[key] == if batch == FailedBefore then Inflight else Sent(pid)
  {
    RunFour(s, Attempt(id, key), Claim(id, Answered), Post(id, Accepted(pid)), Record(id, batch));
    assert KeyInv(s.store, key) && [] + [pid] == [pid];
    FreshClaim(s, id, key);
    var u := Step(Step(s, Attempt(id, key)), Claim(id, Answered));
    assert PostedFor(u.store, key) == PostedFor(s.store, key) == [];
    AcceptedIsRecorded(u, id, key, pid, batch);
  }

  lemma AcceptedIsRecorded(s: State, id: nat, key: string, pid: string, batch: Batch)
    requires id in s.calls && s.calls[id] == Posting(key) && key in s.store.ledger && s.store.ledger[key] == Inflight
    ensures var t := Step(Step(s, Post(id, Accepted(pid))), Record(id, batch));
            && id in t.calls && t.calls[id] == Done(key, Delivered(pid))
            && PostedFor(t.store, key) == PostedFor(s.store, key) + [pid]
            && key in t.store.ledger && t.store.ledger[key] == if batch == FailedBefore then Inflight else Sent(pid)
  {
    var u := Step(s, Post(id, Accepted(pid)));
    assert u.calls[id] == Recording(key, pid) && u.store.ledger == s.store.ledger;
  }

  /** A re-send of a key on record posts nothing: it is answered the recorded id, or
      refused while the earlier attempt never settled. */
  lemma ResendPostsNothing(s: State, id: nat, key: string)
    requires key != "" && key in s.store.ledger && id !in s.calls
    ensures var t := Run(s, [Attempt(id, key), Claim(id, Answered), Read(id, false)]);
            && t.store == s.store && id in t.calls
            && t.calls[id] == Done(key, if s.store.ledger[key].Sent? then Delivered(s.store.ledger[key].platformId) else Unresolved)
  {
    var e := Read(id, false);
    RunFour(s, Attempt(id, key), Claim(id, Answered), e, e);
  }

  /** A refusal that proves nothing was posted frees the key for the retry. */
  lemma RefusalFreesTheKey(s: State, id: nat, key: string)
    requires Inv(s) && key != "" && key !in s.store.ledger && id !in s.calls
    ensures var t := Run(s, [Attempt(id, key), Claim(id, Answered), Post(id, Refused), Release(id, Answered)]);
            key !in t.store.ledger && PostedFor(t.store, key) == []
  {
    RunFour(s, Attempt(id, key), Claim(id, Answered), Post(id, Refused), Release(id, Answered));
    assert KeyInv(s.store, key);
    FreshClaim(s, id, key);
    RefusedIsReleased(Step(Step(s, Attempt(id, key)), Claim(id, Answered)), id, key);
  }

  lemma FreshClaim(s: State, id: nat, key: string)
    requires key != "" && key !in s.store.ledger && id !in s.calls
    ensures var t := Step(Step(s, Attempt(id, key)), Claim(id, Answered));
            && id in t.calls && t.calls[id] == Posting(key)
            && t.store.ledger == s.store.ledger[key := Inflight] && t.store.posted == s.store.posted
  {}

  lemma RefusedIsReleased(s: State, id: nat, key: string)
    requires id in s.calls && s.calls[id] == Posting(key) && key in s.store.ledger && s.store.ledger[key] == Inflight
    ensures var t := Step(Step(s, Post(id, Refused)), Release(id, Answered));
            key !in t.store.ledger && PostedFor(t.store, key) == PostedFor(s.store, key)
  {
    var u := Step(s, Post(id, Refused));
    assert u.calls[id] == Releasing(key) && u.store.ledger == s.store.ledger;
  }
}
