/** audit/audit_log.go: the chunked, cursor-driven page of the audit log. The log is
    one ordered partition, read newest first. */
module Pager {
  import opened Text
  import opened Acl

  const DEFAULT_LIMIT := 50
  const MAX_LIMIT := 200
  const TS_WIDTH := 30
  const ID_WIDTH := 39

  datatype Row = Row(id: string, category: string, actor: string, folder: string)

  datatype Filter = Filter(folder: string, category: string, actor: string, before: string, limit: int)

  datatype Result<+T> = Ok(value: T) | BadCursor | ReadFailed

  /** The partition as the store holds it: full-width ids, newest first, each once. */
  ghost predicate Ordered(log: seq<Row>) {
    && (forall r | r in log :: |r.id| == ID_WIDTH)
    && (forall i, j | 0 <= i < j < |log| :: Less(log[j].id, log[i].id))
  }

  // ----- Ids -----

  function IdAt(ts: string, suffix: string): string { ts + "-" + suffix }

  function CreatedAt(id: string): string { if |id| < TS_WIDTH then "" else id[..TS_WIDTH] }

  /** The order of ids is the order of time: by instant, and by suffix within one. */
  lemma {:induction false} IdOrderIsTimeOrder(t: string, s: string, u: string, v: string)
    requires |t| == |u|
    ensures Less(IdAt(t, s), IdAt(u, v)) <==> Less(t, u) || (t == u && Less(s, v))
    ensures |t| == 30 ==> CreatedAt(IdAt(t, s)) == t
  {
    var a, b := IdAt(t, s), IdAt(u, v);
    if t == "" {
      assert a[1..] == s && b[1..] == v && a[0] == b[0] == '-';
    } else {
      IdOrderIsTimeOrder(t[1..], s, u[1..], v);
      assert a[1..] == IdAt(t[1..], s) && b[1..] == IdAt(u[1..], v);
      assert t == [t[0]] + t[1..] && u == [u[0]] + u[1..];
    }
  }

  // ----- What a page means -----

  predicate Older(r: Row, cursor: string) { cursor == "" || Less(r.id, cursor) }

  predicate OfCategory(r: Row, category: string) { category == "" || r.category == category }

  predicate OccursAt(s: string, part: string, i: nat) { i + |part| <= |s| && s[i..i + |part|] == part }

  predicate Holds(s: string, part: string) { exists i: nat | i <= |s| :: OccursAt(s, part, i) }

  /** keeps: folder containment and the actor substring. */
  predicate Keeps(f: Filter, r: Row) {
    (f.folder == "" || Contains(f.folder, r.folder)) && (f.actor == "" || Holds(r.actor, f.actor))
  }

  /** The rows the store answers a query about, newest first. */
  function Candidates(log: seq<Row>, category: string, cursor: string): seq<Row> {
    if log == [] then []
    else
      var rest := Candidates(log[1..], category, cursor);
      if Older(log[0], cursor) && OfCategory(log[0], category) then [log[0]] + rest else rest
  }

  function Kept(rows: seq<Row>, f: Filter): seq<Row> {
    if rows == [] then []
    else if Keeps(f, rows[0]) then [rows[0]] + Kept(rows[1..], f) else Kept(rows[1..], f)
  }

  /** Every row the filter selects, newest first. */
  function Selected(log: seq<Row>, f: Filter, cursor: string): seq<Row> {
    Kept(Candidates(log, f.category, cursor), f)
  }

  function Take(rows: seq<Row>, n: nat): seq<Row> { if |rows| <= n then rows else rows[..n] }

  function Limit(f: Filter): (n: nat)
    ensures 1 <= n <= MAX_LIMIT
  {
    if f.limit <= 0 then DEFAULT_LIMIT else if f.limit > MAX_LIMIT then MAX_LIMIT else f.limit
  }

  // ----- Laws of the selection -----

  lemma {:induction false} KeptConcat(a: seq<Row>, b: seq<Row>, f: Filter)
    ensures Kept(a + b, f) == Kept(a, f) + Kept(b, f)
  {
    if a == [] {
      assert a + b == b;
    } else {
      KeptConcat(a[1..], b, f);
      assert (a + b)[1..] == a[1..] + b;
    }
  }

  lemma {:induction false} CandidatesIn(log: seq<Row>, category: string, cursor: string)
    ensures forall r :: r in Candidates(log, category, cursor) <==> r in log && Older(r, cursor) && OfCategory(r, category)
  {
    if log != [] {
      CandidatesIn(log[1..], category, cursor);
      assert log == [log[0]] + log[1..];
    }
  }

  /** Two cursors with nothing between them in the log select the same rows. */
  lemma {:induction false} SameCandidates(log: seq<Row>, category: string, c: string, d: string)
    requires forall r | r in log :: Older(r, c) <==> Older(r, d)
    ensures Candidates(log, category, c) == Candidates(log, category, d)
  {
    if log != [] {
      assert log[0] in log && forall r | r in log[1..] :: r in log;
      SameCandidates(log[1..], category, c, d);
    }
  }

  lemma OrderedTail(log: seq<Row>)
    requires Ordered(log) && log != []
    ensures Ordered(log[1..]) && forall r | r in log[1..] :: Less(r.id, log[0].id)
  {
    forall r | r in log[1..] ensures Less(r.id, log[0].id) {
      var i :| 0 <= i < |log[1..]| && log[1..][i] == r;
      assert log[i + 1] == r;
    }
  }

  /** A cursor set to a row read leaves exactly the rows after it. */
  lemma {:induction false} CandidatesAfter(log: seq<Row>, category: string, cursor: string, k: nat)
    requires Ordered(log) && k < |Candidates(log, category, cursor)|
    ensures var rest := Candidates(log, category, cursor);
            |rest[k].id| == ID_WIDTH && Candidates(log, category, rest[k].id) == rest[k + 1..]
  {
    var x, tail := log[0], log[1..];
    var rest, below := Candidates(log, category, cursor), Candidates(tail, category, cursor);
    OrderedTail(log);
    assert x in log;
    if rest == [x] + below && k == 0 {
      LessIrreflexive(x.id);
      forall r | r in tail ensures Older(r, x.id) <==> Older(r, cursor) {
        if cursor != "" && Less(x.id, cursor) { LessTransitive(r.id, x.id, cursor); }
      }
      CandidatesIn(log, category, cursor);
      assert rest[0] in rest;
      SameCandidates(tail, category, x.id, cursor);
    } else {
      var j := if rest == [x] + below then k - 1 else k;
      assert rest[k] == below[j];
      CandidatesAfter(tail, category, cursor, j);
      CandidatesIn(tail, category, cursor);
      assert below[j] in below;
      if Less(x.id, below[j].id) {
        LessTransitive(x.id, below[j].id, x.id);
        LessIrreflexive(x.id);
      }
    }
  }

  // ----- The page -----

  /** One store query: at most `ask` rows older than the cursor, newest first. */
  method Query(log: seq<Row>, category: string, cursor: string, ask: nat) returns (items: seq<Row>)
    ensures items == Take(Candidates(log, category, cursor), ask)
  {
    items := Take(Candidates(log, category, cursor), ask);
  }

  /** What is collected and what is still unread make up the whole selection. */
  ghost predicate Progress(log: seq<Row>, f: Filter, out: seq<Row>, cursor: string) {
    |out| < Limit(f) && Selected(log, f, f.before) == out + Selected(log, f, cursor)
  }

  lemma ReadOne(log: seq<Row>, f: Filter, out: seq<Row>, cursor: string)
    requires Ordered(log) && Progress(log, f, out, cursor) && Candidates(log, f.category, cursor) != []
    ensures var rest := Candidates(log, f.category, cursor);
            && |rest[0].id| == ID_WIDTH
            && Candidates(log, f.category, rest[0].id) == rest[1..]
            && Selected(log, f, f.before) ==
                 (if Keeps(f, rest[0]) then out + [rest[0]] else out) + Selected(log, f, rest[0].id)
  {
    CandidatesAfter(log, f.category, cursor, 0);
  }

  /** Take the rows of one chunk in turn; stop when the page is full. */
  method Collect(log: seq<Row>, f: Filter, items: seq<Row>, out: seq<Row>, cursor: string)
    returns (more: seq<Row>, next: string, full: bool)
    requires Ordered(log) && Progress(log, f, out, cursor) && items <= Candidates(log, f.category, cursor)
    ensures full ==> more == Take(Selected(log, f, f.before), Limit(f)) && |more| == Limit(f)
    ensures !full ==> Progress(log, f, more, next)
    ensures !full ==> Candidates(log, f.category, next) == Candidates(log, f.category, cursor)[|items|..]
    ensures !full && f.folder == "" && f.actor == "" ==> |more| == |out| + |items|
  {
    more, next := out, cursor;
    ghost var rest := Candidates(log, f.category, cursor);
    for i := 0 to |items|
      invariant Progress(log, f, more, next)
      invariant Candidates(log, f.category, next) == rest[i..]
      invariant f.folder == "" && f.actor == "" ==> |more| == |out| + i
    {
      var row := items[i];
      assert rest[i..][0] == row && rest[i..][1..] == rest[i + 1..];
      ReadOne(log, f, more, next);
      next := row.id;
      if Keeps(f, row) {
        more := more + [row];
        if |more| == Limit(f) {
          return more, next, true;
        }
      }
    }
    full := false;
  }

  /** page: exactly the first `limit` selected rows, for every chunk size. `fails` says
      which query the store refuses; `queries` counts them. */
  method Page(log: seq<Row>, f: Filter, chunk: nat, fails: nat -> bool) returns (r: Result<seq<Row>>, queries: nat)
    requires Ordered(log) && chunk > 0
    ensures r.BadCursor? <==> f.before != "" && |f.before| != 39
    ensures r.Ok? ==>
              var n, all := if f.limit <= 0 then 50 else if f.limit > 200 then 200 else f.limit, Selected(log, f, f.before);
              r.value == if |all| <= n then all else all[..n]
    ensures r.ReadFailed? ==> queries > 0 && fails(queries - 1)
    ensures r.Ok? ==> forall q: nat | q < queries :: !fails(q)
    ensures f.folder == "" && f.actor == "" ==> queries <= 1
  {
    queries := 0;
    if f.before != "" && |f.before| != ID_WIDTH {
      return BadCursor, queries;
    }
    var filtered := f.folder != "" || f.actor != "";
    var cursor := f.before;
    var out: seq<Row> := [];
    while true
      invariant Progress(log, f, out, cursor)
      invariant forall q: nat | q < queries :: !fails(q)
      invariant !filtered ==> queries == 0 && out == []
      decreases |Candidates(log, f.category, cursor)|
    {
      var ask := if filtered then chunk else Limit(f) - |out|;
      queries := queries + 1;
      if fails(queries - 1) {
        return ReadFailed, queries;
      }
      var items := Query(log, f.category, cursor, ask);
      var more, next, full := Collect(log, f, items, out, cursor);
      if full {
        return Ok(more), queries;
      }
      out, cursor := more, next;
      if |items| < ask {
        return Ok(out), queries;
      }
    }
  }

  // ----- Following the cursors -----

  /** What a page answers. */
  function PageOf(log: seq<Row>, f: Filter, cursor: string): seq<Row> {
    Take(Selected(log, f, cursor), Limit(f))
  }

  /** The selection older than a row of the selection is what follows that row. */
  lemma {:induction false} SelectedAfter(log: seq<Row>, f: Filter, cursor: string, rows: seq<Row>, k: nat, j: nat)
    requires Ordered(log) && k <= |Candidates(log, f.category, cursor)|
    requires rows == Candidates(log, f.category, cursor)[k..] && j < |Kept(rows, f)|
    ensures Selected(log, f, Kept(rows, f)[j].id) == Kept(rows, f)[j + 1..]
    decreases |rows|
  {
    assert rows[1..] == Candidates(log, f.category, cursor)[k + 1..];
    if Keeps(f, rows[0]) && j == 0 {
      CandidatesAfter(log, f.category, cursor, k);
    } else {
      SelectedAfter(log, f, cursor, rows[1..], k + 1, if Keeps(f, rows[0]) then j - 1 else j);
    }
  }

  lemma PageThenRest(log: seq<Row>, f: Filter, cursor: string)
    requires Ordered(log) && |PageOf(log, f, cursor)| == Limit(f)
    ensures var p := PageOf(log, f, cursor);
            Selected(log, f, cursor) == p + Selected(log, f, p[|p| - 1].id)
  {
    var rows := Candidates(log, f.category, cursor);
    assert rows[0..] == rows;
    SelectedAfter(log, f, cursor, rows, 0, Limit(f) - 1);
  }

  lemma {:induction false} KeptIn(rows: seq<Row>, f: Filter)
    ensures forall r :: r in Kept(rows, f) <==> r in rows && Keeps(f, r)
  {
    if rows != [] {
      KeptIn(rows[1..], f);
      assert rows == [rows[0]] + rows[1..];
    }
  }

  /** What a caller asks of a row: older than the cursor, of the category, in the folder or
      under it, and an actor that holds the text; an empty part asks for nothing. */
  ghost predicate Wanted(f: Filter, cursor: string, r: Row) {
    && (cursor == "" || Less(r.id, cursor))
    && (f.category == "" || r.category == f.category)
    && (f.folder == "" || r.folder == f.folder || f.folder + "/" <= r.folder)
    && (f.actor == "" || exists left: string, right: string :: r.actor == left + f.actor + right)
  }

  lemma HoldsIff(s: string, part: string)
    ensures Holds(s, part) <==> exists left: string, right: string :: s == left + part + right
  {
    if i: nat :| i <= |s| && OccursAt(s, part, i) {
      assert s == s[..i] + part + s[i + |part|..];
    }
    if left: string, right: string :| s == left + part + right {
      assert OccursAt(s, part, |left|);
    }
  }

  /** The selection is exactly the rows of the log that are asked for. */
  lemma SelectedIn(log: seq<Row>, f: Filter, cursor: string)
    requires Ordered(log)
    ensures forall r :: r in Selected(log, f, cursor) <==> r in log && Wanted(f, cursor, r)
    ensures forall r | r in Selected(log, f, cursor) :: |r.id| == ID_WIDTH
  {
    CandidatesIn(log, f.category, cursor);
    KeptIn(Candidates(log, f.category, cursor), f);
    forall r: Row ensures Older(r, cursor) && OfCategory(r, f.category) && Keeps(f, r) <==> Wanted(f, cursor, r) {
      HoldsIff(r.actor, f.actor);
    }
  }

  /** Page after page, each from the last row of the one before, until a short page. */
  function Follow(log: seq<Row>, f: Filter, cursor: string): (seen: seq<Row>)
    requires Ordered(log)
    ensures seen == Selected(log, f, cursor)
    decreases |Selected(log, f, cursor)|
  {
    var page := PageOf(log, f, cursor);
    if |page| < Limit(f) then page
    else
      PageThenRest(log, f, cursor);
      page + Follow(log, f, page[|page| - 1].id)
  }

  /** Newest first and each row once, so following the cursors enumerates every
      matching row exactly once. */
  lemma {:induction false} SelectedOrdered(log: seq<Row>, f: Filter, cursor: string)
    requires Ordered(log)
    ensures forall i, j | 0 <= i < j < |Selected(log, f, cursor)| ::
              Less(Selected(log, f, cursor)[j].id, Selected(log, f, cursor)[i].id)
    decreases |log|
  {
    if log != [] {
      OrderedTail(log);
      SelectedOrdered(log[1..], f, cursor);
      SelectedIn(log[1..], f, cursor);
      var rest := Selected(log[1..], f, cursor);
      assert Selected(log, f, cursor) == rest || Selected(log, f, cursor) == [log[0]] + rest by {
        var below := Candidates(log[1..], f.category, cursor);
        assert ([log[0]] + below)[1..] == below;
      }
      forall j | 0 <= j < |rest| ensures Less(rest[j].id, log[0].id) { assert rest[j] in rest; }
    }
  }

  // ----- A log that grows while it is read -----

  /** Rows newer than a cursor are invisible behind it. */
  lemma {:induction false} GrowthIsInvisible(newer: seq<Row>, log: seq<Row>, category: string, cursor: string)
    requires cursor != "" && forall r | r in newer :: !Less(r.id, cursor)
    ensures Candidates(newer + log, category, cursor) == Candidates(log, category, cursor)
    decreases |newer|
  {
    if newer == [] {
      assert newer + log == log;
    } else {
      assert (newer + log)[1..] == newer[1..] + log && newer[0] in newer;
      GrowthIsInvisible(newer[1..], log, category, cursor);
    }
  }

  /** The log stays ordered through every growth at its newest end. */
  ghost predicate GrowsOrdered(log: seq<Row>, growth: seq<seq<Row>>)
    decreases |growth|
  {
    Ordered(log) && (growth != [] ==> GrowsOrdered(growth[0] + log, growth[1..]))
  }

  /** A row of the log is older than every row the log grew by. */
  lemma NewerIsNewer(newer: seq<Row>, log: seq<Row>, r: Row)
    requires Ordered(newer + log) && r in log
    ensures r.id != "" && forall x | x in newer :: !Less(x.id, r.id)
  {
    var all := newer + log;
    var k :| 0 <= k < |log| && log[k] == r;
    assert all[|newer| + k] == r;
    forall x | x in newer ensures !Less(x.id, r.id) {
      var i :| 0 <= i < |newer| && newer[i] == x;
      assert all[i] == x && Less(r.id, x.id);
      if Less(x.id, r.id) {
        LessTransitive(x.id, r.id, x.id);
        LessIrreflexive(x.id);
      }
    }
  }

  lemma GrownSelection(newer: seq<Row>, log: seq<Row>, f: Filter, cursor: string)
    requires Ordered(log) && Ordered(newer + log) && exists r | r in log :: r.id == cursor
    ensures Selected(newer + log, f, cursor) == Selected(log, f, cursor)
  {
    var r :| r in log && r.id == cursor;
    NewerIsNewer(newer, log, r);
    GrowthIsInvisible(newer, log, f.category, cursor);
  }

  /** Page after page while rows are appended between the pages: what is read is what the
      log held when the first page was read, each row once and none of the new ones. */
  ghost function FollowGrowing(log: seq<Row>, growth: seq<seq<Row>>, f: Filter, cursor: string): (seen: seq<Row>)
    requires GrowsOrdered(log, growth)
    ensures seen == Selected(log, f, cursor)
    decreases |Selected(log, f, cursor)|
  {
    var page := PageOf(log, f, cursor);
    if |page| < Limit(f) then page
    else
      PageThenRest(log, f, cursor);
      var next := page[|page| - 1].id;
      if growth == [] then page + FollowGrowing(log, [], f, next)
      else
        LastOfPage(log, f, cursor);
        assert GrowsOrdered(growth[0] + log, growth[1..]);
        GrownSelection(growth[0], log, f, next);
        page + FollowGrowing(growth[0] + log, growth[1..], f, next)
  }

  lemma LastOfPage(log: seq<Row>, f: Filter, cursor: string)
    requires Ordered(log) && |PageOf(log, f, cursor)| == Limit(f)
    ensures var p := PageOf(log, f, cursor); exists r | r in log :: r.id == p[|p| - 1].id
  {
    var p := PageOf(log, f, cursor);
    assert p[|p| - 1] == Selected(log, f, cursor)[|p| - 1];
    SelectedIn(log, f, cursor);
    assert Selected(log, f, cursor)[|p| - 1] in Selected(log, f, cursor);
  }
}
