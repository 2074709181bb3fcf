/** chanlib/urlcache.go over chanlib/chanstore/file_url.go: a bounded cache of the
    newest file URLs in front of the store's map. */
module UrlCache {
  import opened StoreWrites

  const DEFAULT_SIZE := 4096

  datatype Entry = Entry(id: string, url: string)

  datatype Answer = Found(url: string) | NotFound | StoreError

  /** `order` is the recency list, newest first; `index` its hash map; `backed` is
      false for a cache without a store. */
  datatype Cache = Cache(order: seq<Entry>, index: map<string, Entry>, cap: nat, backed: bool, store: map<string, string>)

  // ----- The operations -----

  /** The list with the entry of `id` taken out. */
  function Without(order: seq<Entry>, id: string): seq<Entry> {
    if order == [] then []
    else if order[0].id == id then order[1..]
    else [order[0]] + Without(order[1..], id)
  }

  function Fit(order: seq<Entry>, cap: nat): seq<Entry> {
    if |order| <= cap then order else order[..cap]
  }

  /** An entry newly at the front; a held one keeps its URL. */
  function Touched(order: seq<Entry>, e: Entry): seq<Entry> {
    [e] + Without(order, e.id)
  }

  function IndexOf(order: seq<Entry>): (m: map<string, Entry>)
    ensures forall e | e in order :: e.id in m
    ensures forall id | id in m :: m[id] in order && m[id].id == id
  {
    if order == [] then map[] else IndexOf(order[1..])[order[0].id := order[0]]
  }

  /** remember: bump a held id, else push it and evict from the back. */
  function Remembered(c: Cache, id: string, url: string): Cache {
    if id in c.index then c.(order := Touched(c.order, c.index[id]))
    else
      var order := Fit([Entry(id, url)] + c.order, c.cap);
      c.(order := order, index := IndexOf(order))
  }

  function Recorded(c: Cache, id: string, url: string, batch: Batch): Cache {
    if !c.backed || batch == FailedBefore then c else c.(store := c.store[id := url])
  }

  function AfterPut(c: Cache, id: string, url: string, batch: Batch): Cache {
    Recorded(Remembered(c, id, url), id, url, batch)
  }

  function Lookup(c: Cache, id: string, fails: bool): Answer {
    if id in c.index then Found(c.index[id].url)
    else if !c.backed then NotFound
    else if fails then StoreError
    else if id in c.store then Found(c.store[id]) else NotFound
  }

  function AfterGet(c: Cache, id: string, fails: bool): Cache {
    var a := Lookup(c, id, fails);
    if a.Found? then Remembered(c, id, a.url) else c
  }

  // ----- Laws of the list -----

  ghost predicate Distinct(order: seq<Entry>) {
    forall i, j | 0 <= i < j < |order| :: order[i].id != order[j].id
  }

  /** The hash map and the list hold the same entries, once each, within the bound. */
  ghost predicate Valid(c: Cache) {
    && c.cap > 0
    && Distinct(c.order)
    && |c.order| <= c.cap
    && SameEntries(c.order, c.index)
  }

  lemma {:induction false} WithoutFacts(order: seq<Entry>, id: string)
    requires Distinct(order)
    ensures Distinct(Without(order, id))
    ensures forall e :: e in Without(order, id) <==> e in order && e.id != id
    ensures |Without(order, id)| == |order| - (if exists e | e in order :: e.id == id then 1 else 0)
  {
    if order != [] {
      var rest := order[1..];
      assert order == [order[0]] + rest;
      assert forall e | e in rest :: e.id != order[0].id;
      WithoutFacts(rest, id);
      if order[0].id == id {
        assert forall e | e in rest :: e.id != id;
      } else {
        var w := Without(rest, id);
        assert Without(order, id) == [order[0]] + w;
        forall i, j | 0 <= i < j < |w| + 1 ensures ([order[0]] + w)[i].id != ([order[0]] + w)[j].id {
          if i == 0 { assert w[j - 1] in w; }
        }
      }
    }
  }

  lemma {:induction false} WithoutAbsent(order: seq<Entry>, id: string)
    requires forall e | e in order :: e.id != id
    ensures Without(order, id) == order
  {
    if order != [] { WithoutAbsent(order[1..], id); }
  }

  lemma {:induction false} WithoutAt(order: seq<Entry>, k: nat)
    requires Distinct(order) && k < |order|
    ensures Without(order, order[k].id) == order[..k] + order[k + 1..]
  {
    if k > 0 {
      assert order[0].id != order[k].id;
      WithoutAt(order[1..], k - 1);
      assert order[1..][k - 1] == order[k];
      assert order[1..][..k - 1] == order[1..k] && order[1..][k - 1 + 1..] == order[k + 1..];
      assert [order[0]] + order[1..k] == order[..k];
    }
  }

  lemma TouchedDistinct(order: seq<Entry>, e: Entry)
    requires Distinct(order)
    ensures Distinct(Touched(order, e))
    ensures forall x :: x in Touched(order, e) <==> x == e || (x in order && x.id != e.id)
  {
    WithoutFacts(order, e.id);
    var w := Without(order, e.id);
    forall i, j | 0 <= i < j < |w| + 1 ensures ([e] + w)[i].id != ([e] + w)[j].id {
      if i == 0 { assert w[j - 1] in w; }
    }
  }

  lemma BumpedValid(c: Cache, id: string, url: string)
    requires Valid(c) && id in c.index
    ensures Valid(Remembered(c, id, url))
    ensures forall e | e in Remembered(c, id, url).order :: e in c.order
  {
    TouchedDistinct(c.order, c.index[id]);
    WithoutFacts(c.order, id);
    assert c.index[id] in c.order;
  }

  lemma IndexOfSame(order: seq<Entry>)
    requires Distinct(order)
    ensures SameEntries(order, IndexOf(order))
  {
    forall x | x in order ensures IndexOf(order)[x.id] == x {
      var i :| 0 <= i < |order| && order[i] == x;
      var j :| 0 <= j < |order| && order[j] == IndexOf(order)[x.id];
    }
  }

  lemma FitDistinct(order: seq<Entry>, cap: nat)
    requires Distinct(order)
    ensures Distinct(Fit(order, cap)) && forall e | e in Fit(order, cap) :: e in order
  {}

  lemma PushedValid(c: Cache, id: string, url: string)
    requires Valid(c) && id !in c.index
    ensures Valid(Remembered(c, id, url)) && Remembered(c, id, url).order[0] == Entry(id, url)
    ensures forall e | e in Remembered(c, id, url).order :: e in c.order || e == Entry(id, url)
  {
    var full := [Entry(id, url)] + c.order;
    PushedEntries(c.order, c.index, Entry(id, url));
    FitDistinct(full, c.cap);
    IndexOfSame(Fit(full, c.cap));
    assert forall e | e in full :: e in c.order || e == Entry(id, url);
  }

  /** remember keeps hash map and list in agreement and within the bound. */
  lemma RememberedValid(c: Cache, id: string, url: string)
    requires Valid(c)
    ensures Valid(Remembered(c, id, url))
    ensures id in Remembered(c, id, url).index
    ensures forall e | e in Remembered(c, id, url).order :: e in c.order || e == Entry(id, url)
  {
    if id in c.index {
      BumpedValid(c, id, url);
    } else {
      PushedValid(c, id, url);
      assert Remembered(c, id, url).order[0] in Remembered(c, id, url).order;
    }
  }

  // ----- The cache as a class -----

  class URLCache {
    const hash: string -> string
    const cap: nat
    const backed: bool
    var order: seq<Entry>
    var index: map<string, Entry>
    var store: map<string, string>

    function State(): Cache
      reads this
    {
      Cache(order, index, cap, backed, store)
    }

    /** NewURLCache: a size that is not positive takes the default. The store may hold
        what an earlier process recorded. */
    constructor (hash: string -> string, size: int, backed: bool, store: map<string, string>)
      ensures this.hash == hash && Valid(State()) && (size <= 0 ==> cap == 4096)
      ensures State() == Cache([], map[], if size <= 0 then DEFAULT_SIZE else size, backed, store)
    {
      this.hash, this.backed, this.store := hash, backed, store;
      cap := if size <= 0 then DEFAULT_SIZE else size;
      order, index := [], map[];
    }

    method Remember(id: string, url: string)
      requires Valid(State())
      modifies this`order, this`index
      ensures State() == Remembered(old(State()), id, url) && Valid(State())
    {
      RememberedValid(State(), id, url);
      if id in index {
        MoveToFront(index[id]);
        return;
      }
      PushFront(Entry(id, url));
    }

    method PushFront(e: Entry)
      requires Valid(State()) && e.id !in index
      modifies this`order, this`index
      ensures order == Fit([e] + old(order), cap) && index == IndexOf(order)
    {
      PushedEntries(order, index, e);
      order := [e] + order;
      index := index[e.id := e];
      Evict();
    }

    /** Drop entries from the back until the bound holds. */
    method Evict()
      requires Distinct(order) && SameEntries(order, index)
      modifies this`order, this`index
      ensures order == Fit(old(order), cap) && index == IndexOf(order)
    {
      while |order| > cap
        invariant |order| <= |old(order)| && order == old(order)[..|order|]
        invariant |order| >= cap || order == old(order)
        invariant Distinct(order) && SameEntries(order, index)
      {
        var back := order[|order| - 1];
        EvictBack(order, index);
        order := order[..|order| - 1];
        index := index - {back.id};
      }
      SameIndex(order, index);
    }

    method MoveToFront(e: Entry)
      requires Valid(State()) && e in order
      modifies this`order
      ensures order == Touched(old(order), e)
    {
      var k := 0;
      while order[k] != e
        invariant k < |order| && e in order[k..]
        decreases |order| - k
      {
        assert order[k..] == [order[k]] + order[k + 1..];
        k := k + 1;
      }
      WithoutAt(order, k);
      order := [e] + order[..k] + order[k + 1..];
    }

    /** Put answers the id even when the record fails. */
    method Put(url: string, batch: Batch) returns (id: string)
      requires Valid(State())
      modifies this
      ensures id == hash(url) && State() == AfterPut(old(State()), hash(url), url, batch) && Valid(State())
    {
      id := hash(url);
      Remember(id, url);
      if !backed {
        return;
      }
      if batch != FailedBefore {
        store := store[id := url];
      }
    }

    /** Get answers from memory, else from the store, and warms the cache. */
    method Get(id: string, fails: bool) returns (a: Answer)
      requires Valid(State())
      modifies this
      ensures a == Lookup(old(State()), id, fails) && State() == AfterGet(old(State()), id, fails) && Valid(State())
    {
      if id in index {
        a := Found(index[id].url);
        Remember(id, index[id].url);
        return;
      }
      if !backed {
        return NotFound;
      }
      if fails {
        return StoreError;
      }
      if id !in store {
        return NotFound;
      }
      a := Found(store[id]);
      Remember(id, store[id]);
    }
  }

  ghost predicate SameEntries(order: seq<Entry>, index: map<string, Entry>) {
    && (forall x | x in order :: x.id in index && index[x.id] == x)
    && (forall id | id in index :: index[id] in order && index[id].id == id)
  }

  lemma PushedEntries(order: seq<Entry>, index: map<string, Entry>, e: Entry)
    requires Distinct(order) && SameEntries(order, index) && e.id !in index
    ensures Distinct([e] + order) && SameEntries([e] + order, index[e.id := e])
  {
    WithoutAbsent(order, e.id);
    TouchedDistinct(order, e);
  }

  lemma EvictBack(order: seq<Entry>, index: map<string, Entry>)
    requires Distinct(order) && SameEntries(order, index) && order != []
    ensures var n := |order| - 1;
            Distinct(order[..n]) && SameEntries(order[..n], index - {order[n].id})
  {
    var n := |order| - 1;
    assert order == order[..n] + [order[n]];
    forall x | x in order[..n] ensures x.id != order[n].id {
      var i :| 0 <= i < n && order[i] == x;
    }
  }

  lemma SameIndex(order: seq<Entry>, index: map<string, Entry>)
    requires SameEntries(order, index)
    ensures index == IndexOf(order)
  {
    forall id | id in index ensures id in IndexOf(order) && IndexOf(order)[id] == index[id] {}
  }

  // ----- Runs -----

  /** The lock is dropped around the store's calls, so a Put is two steps and a Get that
      misses memory is two: the store read `k`, and the warming. Other steps may come
      between them. `Restart` is a new process over the same store. */
  datatype Op =
    | Remember(url: string)
    | Record(url: string, batch: Batch)
    | Hit(id: string)
    | Read(k: nat, id: string, fails: bool)
    | Warm(k: nat)
    | Restart

  /** The cache, the reads whose warming is still to come, and two histories: the plain
      map of everything put, and the list of entries touched since the last restart,
      without a bound. */
  datatype World = World(cache: Cache, pending: map<nat, Entry>, puts: map<string, string>, recent: seq<Entry>)

  function TouchedBy(w: World, e: Entry): World {
    w.(cache := Remembered(w.cache, e.id, e.url), recent := Touched(w.recent, e))
  }

  function Apply(hash: string -> string, w: World, op: Op): World {
    match op
    case Remember(url) => TouchedBy(w.(puts := w.puts[hash(url) := url]), Entry(hash(url), url))
    case Record(url, batch) => w.(cache := Recorded(w.cache, hash(url), url, batch), puts := w.puts[hash(url) := url])
    case Hit(id) => if id in w.cache.index then TouchedBy(w, Entry(id, w.cache.index[id].url)) else w
    case Read(k, id, fails) =>
      if !w.cache.backed || fails || id !in w.cache.store || k in w.pending then w
      else w.(pending := w.pending[k := Entry(id, w.cache.store[id])])
    case Warm(k) => if k in w.pending then TouchedBy(w.(pending := w.pending - {k}), w.pending[k]) else w
    case Restart => World(w.cache.(order := [], index := map[]), map[], w.puts, [])
  }

  function Run(hash: string -> string, w: World, ops: seq<Op>): World {
    if ops == [] then w else Apply(hash, Run(hash, w, ops[..|ops| - 1]), ops[|ops| - 1])
  }

  function New(cap: nat, backed: bool): World {
    World(Cache([], map[], cap, backed, map[]), map[], map[], [])
  }

  /** Put without interruption is its two steps. */
  lemma PutIsItsSteps(hash: string -> string, w: World, url: string, batch: Batch)
    ensures Apply(hash, Apply(hash, w, Remember(url)), Record(url, batch)).cache == AfterPut(w.cache, hash(url), url, batch)
  {}

  /** So is Get, from memory or from the store. */
  lemma GetIsItsSteps(hash: string -> string, w: World, k: nat, id: string, fails: bool)
    requires k !in w.pending && Valid(w.cache)
    ensures id in w.cache.index ==> Apply(hash, w, Hit(id)).cache == AfterGet(w.cache, id, fails)
    ensures id !in w.cache.index ==>
              && Apply(hash, Apply(hash, w, Read(k, id, fails)), Warm(k)).cache == AfterGet(w.cache, id, fails)
              && (Lookup(w.cache, id, fails).Found? <==> k in Apply(hash, w, Read(k, id, fails)).pending)
  {}

  predicate Puts(op: Op) { op.Remember? || op.Record? }

  /** No two URLs put in the run share an id. */
  ghost predicate NoCollision(hash: string -> string, ops: seq<Op>) {
    forall p, q | p in ops && q in ops && Puts(p) && Puts(q) && hash(p.url) == hash(q.url) :: p.url == q.url
  }

  ghost predicate Agrees(w: World, e: Entry) { e.id in w.puts && w.puts[e.id] == e.url }

  ghost predicate Inv(w: World) {
    && Valid(w.cache)
    && Distinct(w.recent)
    && w.cache.order == Fit(w.recent, w.cache.cap)
    && (forall e | e in w.recent :: Agrees(w, e))
    && (forall id | id in w.cache.store :: Agrees(w, Entry(id, w.cache.store[id])))
    && (forall k | k in w.pending :: Agrees(w, w.pending[k]))
  }

  lemma FitTouchHeld(order: seq<Entry>, u: seq<Entry>, cap: nat, k: nat)
    requires Distinct(u) && order == Fit(u, cap) && k < |order|
    ensures Touched(order, order[k]) == Fit(Touched(u, order[k]), cap)
  {
    WithoutAt(u, k);
    if |u| > cap {
      WithoutAt(order, k);
      BumpThenCut(u, k, cap);
    }
  }

  lemma BumpThenCut<T>(u: seq<T>, k: nat, n: nat)
    requires k < n <= |u|
    ensures ([u[k]] + (u[..k] + u[k + 1..]))[..n] == [u[k]] + (u[..n][..k] + u[..n][k + 1..])
  {
    var a, b := ([u[k]] + (u[..k] + u[k + 1..]))[..n], [u[k]] + (u[..n][..k] + u[..n][k + 1..]);
    assert |a| == |b|;
    forall i | 0 <= i < |a| ensures a[i] == b[i] {}
  }

  lemma FitTouchNew(order: seq<Entry>, u: seq<Entry>, cap: nat, e: Entry)
    requires Distinct(u) && order == Fit(u, cap) && cap > 0 && forall x | x in order :: x.id != e.id
    ensures Fit([e] + order, cap) == Fit(Touched(u, e), cap)
  {
    if i :| 0 <= i < |u| && u[i].id == e.id {
      assert forall j | 0 <= j < |order| :: order[j] in order && order[j] == u[j];
      WithoutAt(u, i);
    } else {
      WithoutAbsent(u, e.id);
    }
  }

  /** A touch of the bounded list is the bound of a touch of the unbounded one. */
  lemma TouchFits(w: World, e: Entry)
    requires Inv(w) && Agrees(w, e)
    ensures Remembered(w.cache, e.id, e.url).order == Fit(Touched(w.recent, e), w.cache.cap)
  {
    var c, u := w.cache, w.recent;
    if e.id in c.index {
      assert c.index[e.id] in c.order;
      var k :| 0 <= k < |c.order| && c.order[k] == c.index[e.id];
      assert u[k] in u && u[k] == c.order[k] == e;
      FitTouchHeld(c.order, u, c.cap, k);
    } else {
      FitTouchNew(c.order, u, c.cap, e);
    }
  }

  lemma TouchKeepsInv(w: World, e: Entry)
    requires Inv(w) && Agrees(w, e)
    ensures Inv(TouchedBy(w, e))
  {
    TouchFits(w, e);
    TouchedDistinct(w.recent, e);
    RememberedValid(w.cache, e.id, e.url);
  }

  lemma ApplyKeepsInv(hash: string -> string, w: World, op: Op)
    requires Inv(w)
    requires Puts(op) && hash(op.url) in w.puts ==> w.puts[hash(op.url)] == op.url
    ensures Inv(Apply(hash, w, op))
  {
    match op
    case Remember(url) => TouchKeepsInv(w.(puts := w.puts[hash(url) := url]), Entry(hash(url), url));
    case Record(_, _) =>
    case Hit(id) =>
      if id in w.cache.index {
        assert w.cache.index[id] in w.recent;
        TouchKeepsInv(w, Entry(id, w.cache.index[id].url));
      }
    case Read(_, _, _) =>
    case Warm(k) => if k in w.pending { TouchKeepsInv(w.(pending := w.pending - {k}), w.pending[k]); }
    case Restart =>
  }

  /** No step changes the bound or loses a record. */
  lemma ApplyKeepsStore(hash: string -> string, w: World, op: Op)
    ensures var t := Apply(hash, w, op);
            && t.cache.cap == w.cache.cap && t.cache.backed == w.cache.backed
            && (forall id | id in w.cache.store :: id in t.cache.store)
            && (op.Record? && op.batch != FailedBefore && w.cache.backed ==>
                  hash(op.url) in t.cache.store && t.cache.store[hash(op.url)] == op.url)
  {}

  /** Everything in the plain map was put by one of the operations. */
  ghost predicate PutBy(hash: string -> string, puts: map<string, string>, ops: seq<Op>) {
    forall id | id in puts :: Putter(hash, puts[id], id, ops)
  }

  ghost predicate Putter(hash: string -> string, url: string, id: string, ops: seq<Op>) {
    exists op | op in ops :: Puts(op) && op.url == url && hash(op.url) == id
  }

  lemma PutterStays(hash: string -> string, url: string, id: string, ops: seq<Op>, last: Op)
    requires Putter(hash, url, id, ops)
    ensures Putter(hash, url, id, ops + [last])
  {
    var op :| op in ops && Puts(op) && op.url == url && hash(op.url) == id;
    assert op in ops + [last];
  }

  lemma PutByNext(hash: string -> string, w: World, ops: seq<Op>, last: Op)
    requires PutBy(hash, w.puts, ops)
    ensures PutBy(hash, Apply(hash, w, last).puts, ops + [last])
  {
    assert (ops + [last])[|ops|] == last;
    forall id | id in w.puts ensures Putter(hash, w.puts[id], id, ops + [last]) {
      PutterStays(hash, w.puts[id], id, ops, last);
    }
  }

  /** A put finds only its own URL under its id. */
  lemma NoClash(hash: string -> string, puts: map<string, string>, ops: seq<Op>, last: Op)
    requires NoCollision(hash, ops + [last]) && PutBy(hash, puts, ops)
    requires Puts(last) && hash(last.url) in puts
    ensures puts[hash(last.url)] == last.url
  {
    var id := hash(last.url);
    assert Putter(hash, puts[id], id, ops);
    var op :| op in ops && Puts(op) && op.url == puts[id] && hash(op.url) == id;
    assert op in ops + [last] && (ops + [last])[|ops|] == last;
  }

  lemma {:induction false} RunKeepsInv(hash: string -> string, cap: nat, backed: bool, ops: seq<Op>)
    requires cap > 0 && NoCollision(hash, ops)
    ensures var w := Run(hash, New(cap, backed), ops);
            Inv(w) && w.cache.cap == cap && w.cache.backed == backed && PutBy(hash, w.puts, ops)
    decreases |ops|
  {
    if ops != [] {
      var before, last := ops[..|ops| - 1], ops[|ops| - 1];
      assert ops == before + [last];
      RunKeepsInv(hash, cap, backed, before);
      var w := Run(hash, New(cap, backed), before);
      if Puts(last) && hash(last.url) in w.puts { NoClash(hash, w.puts, before, last); }
      ApplyKeepsInv(hash, w, last);
      ApplyKeepsStore(hash, w, last);
      PutByNext(hash, w, before, last);
      assert Run(hash, New(cap, backed), ops) == Apply(hash, w, last);
    }
  }

  /** The cache refines a plain map: an answer is always the URL that was put under the
      id, an id that was recorded is always answered unless the store fails, an id never
      put is never answered, and neither does what comes between its steps make a Get
      answer another URL. */
  lemma AnswersAreThePlainMap(hash: string -> string, cap: nat, backed: bool, ops: seq<Op>, id: string, fails: bool)
    requires cap > 0 && NoCollision(hash, ops)
    ensures var w := Run(hash, New(cap, backed), ops);
            var a := Lookup(w.cache, id, fails);
            && (a.Found? ==> id in w.puts && a.url == w.puts[id])
            && (a.Found? && id in w.cache.store ==> a.url == w.cache.store[id])
            && (backed && id in w.cache.store && !fails ==> id in w.puts && a == Found(w.puts[id]))
            && (id !in w.puts ==> !a.Found?)
            && (forall k | k in w.pending :: w.pending[k].id in w.puts && w.pending[k].url == w.puts[w.pending[k].id])
  {
    RunKeepsInv(hash, cap, backed, ops);
    var w := Run(hash, New(cap, backed), ops);
    if id in w.cache.index { assert w.cache.index[id] in w.recent; }
  }

  predicate Records(w: World, id: string) { id in w.cache.store }

  lemma {:induction false} RunConcat(hash: string -> string, w: World, a: seq<Op>, b: seq<Op>)
    ensures Run(hash, w, a + b) == Run(hash, Run(hash, w, a), b)
    decreases |b|
  {
    if b == [] {
      assert a + b == a;
    } else {
      assert (a + b)[..|a + b| - 1] == a + b[..|b| - 1];
      RunConcat(hash, w, a, b[..|b| - 1]);
    }
  }

  /** What was recorded stays recorded, over evictions and restarts. */
  lemma {:induction false} RecordStays(hash: string -> string, w: World, ops: seq<Op>, id: string)
    requires Records(w, id)
    ensures Records(Run(hash, w, ops), id)
    decreases |ops|
  {
    if ops != [] {
      RecordStays(hash, w, ops[..|ops| - 1], id);
      RecordKept(hash, Run(hash, w, ops[..|ops| - 1]), ops[|ops| - 1], id);
    }
  }

  lemma RecordKept(hash: string -> string, w: World, op: Op, id: string)
    requires Records(w, id)
    ensures Records(Apply(hash, w, op), id)
  {
    ApplyKeepsStore(hash, w, op);
  }

  lemma RecordMade(hash: string -> string, w: World, url: string, batch: Batch)
    requires w.cache.backed && batch != FailedBefore
    ensures Records(Apply(hash, w, Record(url, batch)), hash(url))
  {}

  lemma {:induction false} BackedStays(hash: string -> string, w0: World, ops: seq<Op>)
    requires w0.cache.backed
    ensures Run(hash, w0, ops).cache.backed
    decreases |ops|
  {
    if ops != [] {
      BackedStays(hash, w0, ops[..|ops| - 1]);
      ApplyKeepsStore(hash, Run(hash, w0, ops[..|ops| - 1]), ops[|ops| - 1]);
    }
  }

  lemma RecordedAt(hash: string -> string, w: World, before: seq<Op>, url: string, batch: Batch, after: seq<Op>)
    requires w.cache.backed && batch != FailedBefore
    ensures Records(Run(hash, w, before + [Record(url, batch)] + after), hash(url))
  {
    var u := Run(hash, w, before);
    BackedStays(hash, w, before);
    RecordMade(hash, u, url, batch);
    var upTo := before + [Record(url, batch)];
    assert upTo[..|upTo| - 1] == before && Run(hash, w, upTo) == Apply(hash, u, Record(url, batch));
    RecordStays(hash, Run(hash, w, upTo), after, hash(url));
    RunConcat(hash, w, upTo, after);
  }

  /** A link given out works for good: once the record of a URL took effect, its id is
      answered with that URL after any further puts, evictions and restarts, whenever
      the store can be read. */
  lemma RecordedLinkWorks(hash: string -> string, cap: nat, before: seq<Op>, url: string, batch: Batch, after: seq<Op>)
    requires cap > 0 && batch != FailedBefore && NoCollision(hash, before + [Record(url, batch)] + after)
    ensures Lookup(Run(hash, New(cap, true), before + [Record(url, batch)] + after).cache, hash(url), false) == Found(url)
  {
    var op := Record(url, batch);
    var ops := before + [op] + after;
    assert ops[|before|] == op && op in ops;
    RecordedAt(hash, New(cap, true), before, url, batch, after);
    AnswersAreThePlainMap(hash, cap, true, ops, hash(url), false);
    RunKeepsInv(hash, cap, true, ops);
    OneUrlAnId(hash, Run(hash, New(cap, true), ops).puts, ops, op);
  }

  lemma OneUrlAnId(hash: string -> string, puts: map<string, string>, ops: seq<Op>, op: Op)
    requires NoCollision(hash, ops) && PutBy(hash, puts, ops) && op in ops && Puts(op) && hash(op.url) in puts
    ensures puts[hash(op.url)] == op.url
  {
    assert Putter(hash, puts[hash(op.url)], hash(op.url), ops);
  }

  /** The list is exactly the newest entries of an unbounded move-to-front list, in
      order, and the hash map holds the same entries. */
  lemma HoldsTheMostRecent(hash: string -> string, cap: nat, backed: bool, ops: seq<Op>)
    requires cap > 0 && NoCollision(hash, ops)
    ensures var w := Run(hash, New(cap, backed), ops);
            && Valid(w.cache) && Distinct(w.recent)
            && w.cache.order == (if |w.recent| <= cap then w.recent else w.recent[..cap])
  {
    RunKeepsInv(hash, cap, backed, ops);
  }

  /** Without the assumption the cache and the store part: of two URLs with one id
      memory answers the first while the store holds the second. */
  lemma CollisionSplitsCacheAndStore(hash: string -> string, cap: nat, u: string, v: string)
    requires cap > 0 && u != v && hash(u) == hash(v)
    ensures var c := Run(hash, New(cap, true), [Remember(u), Record(u, Answered), Remember(v), Record(v, Answered)]).cache;
            Lookup(c, hash(u), false) == Found(u) && hash(u) in c.store && c.store[hash(u)] == v
  {
    var e := Entry(hash(u), u);
    var o1, o2, o3, o4 := Remember(u), Record(u, Answered), Remember(v), Record(v, Answered);
    assert [o1, o2, o3, o4][..3] == [o1, o2, o3] && [o1, o2, o3][..2] == [o1, o2] && [o1, o2][..1] == [o1] && [o1][..0] == [];
    assert Run(hash, New(cap, true), [o1]) == Apply(hash, New(cap, true), o1);
    assert Run(hash, New(cap, true), [o1, o2]) == Apply(hash, Apply(hash, New(cap, true), o1), o2);
    assert IndexOf([e]) == map[e.id := e] by { assert [e][1..] == []; }
    assert [e] + [] == [e];
  }

  /** Put then Get answers the URL, even when the record failed and whatever the store
      does, for as long as the entry is not evicted. */
  lemma PutThenGet(c: Cache, id: string, url: string, batch: Batch, fails: bool)
    requires Valid(c) && (id in c.index ==> c.index[id].url == url)
    ensures Lookup(AfterPut(c, id, url, batch), id, fails) == Found(url)
    ensures c.backed && batch != FailedBefore ==>
              id in AfterPut(c, id, url, batch).store && AfterPut(c, id, url, batch).store[id] == url
  {
    RememberedValid(c, id, url);
    var t := Remembered(c, id, url);
    assert t.index[id] in t.order;
    if id in c.index { assert c.index[id].id == id; } else { PushedValid(c, id, url); assert t.order[0] in t.order; }
  }
}
