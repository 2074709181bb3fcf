/** auth/authorize.go with the reads of store/acl.go and store/membership.go: who a
    caller is, which rows reach it, and what those rows permit. */
module Authorization {
  import opened Text
  import opened Acl
  import opened Params

  datatype Row = Row(principal: string, action: string, scope: string, params: string,
                     claim: string, effect: string, grantOption: bool)

  datatype Edge = Edge(child: string, parent: string)

  datatype Caller = Caller(principal: string, claims: map<string, string>, extra: seq<string>, route: string)

  /** The two tables one decision reads, and which of its reads fail. `readable` is false
      when the acl read fails. A pair of `down` is a principal the caller is and a node
      whose parents the walk from that principal cannot read; `routeDown` is the same for
      the walk that collects the route's own principals. */
  datatype Policy = Policy(rows: seq<Row>, edges: seq<Edge>, readable: bool,
                           down: set<(string, string)>, routeDown: set<string>)

  /** The same tables when every membership read answers. */
  function Healthy(pol: Policy): Policy { pol.(down := {}, routeDown := {}) }

  function DownFrom(pol: Policy, start: string): set<string> {
    set d | d in pol.down && d.0 == start :: d.1
  }

  /** What the two writers refuse to store is never there. */
  ghost predicate Stored(pol: Policy) {
    && (forall e | e in pol.edges :: e.child != "" && e.parent != "")
    && (forall r | r in pol.rows :: r.principal != "" && r.action != "" && r.scope != "")
  }

  // ----- Membership -----

  /** `path` lists the parents climbed from `from` up to `to`. */
  ghost predicate Climbs(edges: seq<Edge>, from: string, to: string, path: seq<string>)
    decreases |path|
  {
    if path == [] then from == to
    else Edge(from, path[0]) in edges && Climbs(edges, path[0], to, path[1..])
  }

  /** `to` is `from` or one of its transitive parents. */
  ghost predicate Reaches(edges: seq<Edge>, from: string, to: string) {
    exists path :: Climbs(edges, from, to, path)
  }

  /** The walk from `start` runs into a node it cannot read. */
  ghost predicate Blocked(edges: seq<Edge>, start: string, down: set<string>) {
    exists node | node in down :: Reaches(edges, start, node)
  }

  /** What a walk finds: a blocked one finds its start alone. */
  ghost predicate Finds(edges: seq<Edge>, start: string, down: set<string>, p: string) {
    p == start || (Reaches(edges, start, p) && !Blocked(edges, start, down))
  }

  lemma ReachesSelf(edges: seq<Edge>, p: string)
    ensures Reaches(edges, p, p)
  {
    assert Climbs(edges, p, p, []);
  }

  lemma {:induction false} ClimbOn(edges: seq<Edge>, from: string, e: Edge, path: seq<string>)
    requires Climbs(edges, from, e.child, path) && e in edges
    ensures Climbs(edges, from, e.parent, path + [e.parent])
    decreases |path|
  {
    if path != [] {
      ClimbOn(edges, path[0], e, path[1..]);
      assert (path + [e.parent])[1..] == path[1..] + [e.parent];
    }
  }

  lemma ReachesParent(edges: seq<Edge>, from: string, e: Edge)
    requires Reaches(edges, from, e.child) && e in edges
    ensures Reaches(edges, from, e.parent)
  {
    var path :| Climbs(edges, from, e.child, path);
    ClimbOn(edges, from, e, path);
  }

  /** A set closed under parents holds everything reachable from its members. */
  lemma {:induction false} ClosedReaches(edges: seq<Edge>, closed: set<string>, from: string, to: string, path: seq<string>)
    requires from in closed && Climbs(edges, from, to, path)
    requires forall e | e in edges && e.child in closed :: e.parent in closed
    ensures to in closed
    decreases |path|
  {
    if path != [] {
      assert Edge(from, path[0]).parent in closed;
      ClosedReaches(edges, closed, path[0], to, path[1..]);
    }
  }

  ghost predicate Distinct(s: seq<string>) {
    forall i, j | 0 <= i < j < |s| :: s[i] != s[j]
  }

  /** The parents of one node that the walk has not seen yet, each once. */
  method UnseenParents(edges: seq<Edge>, node: string, seen: set<string>) returns (up: seq<string>)
    ensures forall p :: p in up <==> Edge(node, p) in edges && p !in seen
    ensures Distinct(up)
  {
    up := [];
    for i := 0 to |edges|
      invariant forall p :: p in up <==> Edge(node, p) in edges[..i] && p !in seen
      invariant Distinct(up)
    {
      var e := edges[i];
      assert edges[..i + 1] == edges[..i] + [e];
      if e.child == node && e.parent !in seen && e.parent !in up {
        up := up + [e.parent];
      }
    }
    assert edges[..|edges|] == edges;
  }

  /** What the walk knows: all it has seen is reachable, and the parents of all it
      has left behind are seen. */
  ghost predicate Explored(edges: seq<Edge>, child: string, seen: set<string>, frontier: seq<string>) {
    && child in seen
    && (forall p | p in seen :: Reaches(edges, child, p))
    && (forall p | p in frontier :: p in seen)
    && (forall e | e in edges && e.child in seen && e.child !in frontier :: e.parent in seen)
  }

  lemma ExploredStep(edges: seq<Edge>, child: string, seen: set<string>, rest: seq<string>, node: string, up: seq<string>)
    requires Explored(edges, child, seen, rest + [node])
    requires forall p :: p in up <==> Edge(node, p) in edges && p !in seen
    ensures Explored(edges, child, seen + (set p | p in up), rest + up)
  {
    var open := rest + [node];
    assert node == open[|rest|];
    forall p | p in up ensures Reaches(edges, child, p) {
      ReachesParent(edges, child, Edge(node, p));
    }
    forall p | p in rest ensures p in open {}
    forall e | e in edges && e.child in seen + (set p | p in up) && e.child !in rest + up
      ensures e.parent in seen + set p | p in up
    {
      assert e == Edge(e.child, e.parent);
    }
  }

  lemma ExploredAll(edges: seq<Edge>, child: string, seen: set<string>)
    requires Explored(edges, child, seen, [])
    ensures forall p :: p in seen <==> Reaches(edges, child, p)
  {
    forall p | Reaches(edges, child, p) ensures p in seen {
      var path :| Climbs(edges, child, p, path);
      ClosedReaches(edges, seen, child, p, path);
    }
  }

  /** The state of the walk: what it has seen is what it will answer. */
  ghost predicate Walking(edges: seq<Edge>, child: string, seen: set<string>, frontier: seq<string>, out: seq<string>) {
    && Explored(edges, child, seen, frontier)
    && seen == {child} + (set p | p in out)
    && child !in out && Distinct(out)
  }

  ghost function Unseen(edges: seq<Edge>, child: string, seen: set<string>): set<string> {
    ({child} + set e | e in edges :: e.parent) - seen
  }

  lemma WalkStep(edges: seq<Edge>, child: string, seen: set<string>, rest: seq<string>, node: string,
                 up: seq<string>, out: seq<string>)
    requires Walking(edges, child, seen, rest + [node], out)
    requires Distinct(up) && forall p :: p in up <==> Edge(node, p) in edges && p !in seen
    ensures Walking(edges, child, seen + (set p | p in up), rest + up, out + up)
  {
    ExploredStep(edges, child, seen, rest, node, up);
    DistinctAppend(out, up);
  }

  lemma DistinctAppend(a: seq<string>, b: seq<string>)
    requires Distinct(a) && Distinct(b) && forall p | p in b :: p !in a
    ensures Distinct(a + b)
  {
    forall i, j | 0 <= i < j < |a + b| ensures (a + b)[i] != (a + b)[j] {
      if i < |a| <= j { assert b[j - |a|] in b && a[i] in a; }
    }
  }

  /** Every step that finds a parent leaves fewer to find. */
  lemma WalkProgress(edges: seq<Edge>, child: string, seen: set<string>, more: set<string>, e: Edge)
    requires e in edges && e.parent in more && e.parent !in seen
    ensures |Unseen(edges, child, seen + more)| < |Unseen(edges, child, seen)|
  {
    assert e.parent in Unseen(edges, child, seen);
    SmallerSet(Unseen(edges, child, seen + more), Unseen(edges, child, seen));
  }

  lemma WalkDecreases(edges: seq<Edge>, child: string, seen: set<string>, node: string, up: seq<string>)
    requires forall p :: p in up <==> Edge(node, p) in edges && p !in seen
    ensures var t := seen + set p | p in up;
            |Unseen(edges, child, t)| < |Unseen(edges, child, seen)| || (up == [] && t == seen)
  {
    if up != [] { WalkProgress(edges, child, seen, (set p | p in up), Edge(node, up[0])); }
  }

  lemma LastApart(s: seq<string>)
    requires s != []
    ensures s == s[..|s| - 1] + [s[|s| - 1]]
  {}

  /** Store.Ancestors: a depth-first walk that returns exactly the transitive
      parents, each once, without the child itself; a read that fails on the way makes
      it return none. */
  method Ancestors(edges: seq<Edge>, child: string, down: set<string>) returns (out: seq<string>)
    ensures forall p :: p in out <==> p != child && Finds(edges, child, down, p)
    ensures Distinct(out)
  {
    var seen := {child};
    var frontier := [child];
    out := [];
    ReachesSelf(edges, child);
    while frontier != []
      invariant Walking(edges, child, seen, frontier, out)
      invariant Read(seen, down, frontier)
      decreases |Unseen(edges, child, seen)|, |frontier|
    {
      var node := frontier[|frontier| - 1];
      var rest := frontier[..|frontier| - 1];
      LastApart(frontier);
      if node in down {
        assert node in frontier;
        return [];
      }
      var up := UnseenParents(edges, node, seen);
      WalkStep(edges, child, seen, rest, node, up, out);
      ReadOn(seen, down, rest, node, up);
      WalkDecreases(edges, child, seen, node, up);
      seen := seen + set p | p in up;
      frontier := rest + up;
      out := out + up;
    }
    ExploredAll(edges, child, seen);
    assert !Blocked(edges, child, down);
  }

  /** Every node behind the walk could be read. */
  ghost predicate Read(seen: set<string>, down: set<string>, frontier: seq<string>) {
    forall p | p in down && p in seen :: p in frontier
  }

  lemma ReadOn(seen: set<string>, down: set<string>, rest: seq<string>, node: string, up: seq<string>)
    requires Read(seen, down, rest + [node]) && node !in down
    ensures Read(seen + (set p | p in up), down, rest + up)
  {
    forall p | p in rest + [node] && p != node ensures p in rest + up {}
  }

  lemma SmallerSet<T>(a: set<T>, b: set<T>)
    requires a < b
    ensures |a| < |b|
  {
    var x :| x in b && x !in a;
    assert a <= b - {x};
    SubsetSize(a, b - {x});
  }

  lemma {:induction false} SubsetSize<T>(a: set<T>, b: set<T>)
    requires a <= b
    ensures |a| <= |b|
  {
    if a != {} {
      var x :| x in a;
      SubsetSize(a - {x}, b - {x});
    }
  }

  // ----- The principal set -----

  function FolderPrincipal(folder: string): string { "folder:" + folder }

  function Frontier(c: Caller): seq<string> {
    [c.principal] + c.extra + if c.route != "" then [FolderPrincipal(c.route)] else []
  }

  /** The caller is `p`: by name, by an extra, by its route, or by a membership that
      the walk finds. */
  ghost predicate IsPrincipal(pol: Policy, c: Caller, p: string) {
    p != "" && exists f | f in Frontier(c) :: Finds(pol.edges, f, DownFrom(pol, f), p)
  }

  /** Add the non-empty principals that are not there yet. */
  method AddAll(out: seq<string>, more: seq<string>) returns (r: seq<string>)
    requires Distinct(out)
    ensures Distinct(r)
    ensures forall p :: p in r <==> p in out || (p != "" && p in more)
  {
    r := out;
    var seen := set p | p in out;
    for i := 0 to |more|
      invariant Distinct(r)
      invariant forall p :: p in seen <==> p in r
      invariant forall p :: p in r <==> p in out || (p != "" && p in more[..i])
    {
      var p := more[i];
      assert more[..i + 1] == more[..i] + [p];
      if p != "" && p !in seen {
        seen := seen + {p};
        r := r + [p];
      }
    }
    assert more[..|more|] == more;
  }

  /** expandPrincipals: exactly the caller's principals, each once. */
  method ExpandPrincipals(pol: Policy, c: Caller) returns (out: seq<string>)
    ensures forall p :: p in out <==> IsPrincipal(pol, c, p)
    ensures Distinct(out)
  {
    var frontier := Frontier(c);
    out := AddAll([], frontier);
    for i := 0 to |frontier|
      invariant Distinct(out)
      invariant forall p | p in out :: IsPrincipal(pol, c, p)
      invariant forall p | p in frontier && p != "" :: p in out
      invariant forall k, p | 0 <= k < i && p != "" && Finds(pol.edges, frontier[k], DownFrom(pol, frontier[k]), p) :: p in out
    {
      var ancestors := Ancestors(pol.edges, frontier[i], DownFrom(pol, frontier[i]));
      assert frontier[i] in frontier;
      out := AddAll(out, ancestors);
    }
    forall p | IsPrincipal(pol, c, p) ensures p in out {
      var f :| f in frontier && Finds(pol.edges, f, DownFrom(pol, f), p);
      var k :| 0 <= k < |frontier| && frontier[k] == f;
    }
  }

  /** matchPrincipal: namespace by segGlob, the rest as a path glob. */
  predicate MatchPrincipal(pattern: string, p: string) {
    || pattern == p
    || pattern == "**"
    || (var pat, name := Cut(pattern, ':'), Cut(p, ':');
        SegGlob(pat.before, name.before)
        && ((pat.after == "" && name.after == "") || MatchPattern(pat.after, name.after)))
  }

  /** A row's principal reaches the caller: named exactly, or starred and a glob for one
      of the caller's principals. */
  ghost predicate Reached(pol: Policy, c: Caller, principal: string) {
    || IsPrincipal(pol, c, principal)
    || ('*' in principal && exists p | IsPrincipal(pol, c, p) :: MatchPrincipal(principal, p))
  }

  /** The row is one of the caller's. */
  ghost predicate Reaching(pol: Policy, c: Caller, r: Row) {
    r in pol.rows && Reached(pol, c, r.principal)
  }

  method AnyPrincipalMatches(pattern: string, principals: seq<string>) returns (any: bool)
    ensures any <==> exists p | p in principals :: MatchPrincipal(pattern, p)
  {
    for i := 0 to |principals|
      invariant forall k | 0 <= k < i :: !MatchPrincipal(pattern, principals[k])
    {
      if MatchPrincipal(pattern, principals[i]) {
        return true;
      }
    }
    return false;
  }

  /** The rows named exactly, and behind them the starred rows that glob onto one. */
  method RowsFor(rows: seq<Row>, expanded: seq<string>) returns (out: seq<Row>)
    ensures forall r :: r in out <==> r in rows && (r.principal in expanded || StarMatches(r.principal, expanded))
  {
    out := [];
    for i := 0 to |rows|
      invariant forall r :: r in out <==> r in rows[..i] && r.principal in expanded
    {
      assert rows[..i + 1] == rows[..i] + [rows[i]];
      if rows[i].principal in expanded {
        out := out + [rows[i]];
      }
    }
    assert rows[..|rows|] == rows;
    for i := 0 to |rows|
      invariant forall r :: r in out <==>
        (r in rows && r.principal in expanded) || (r in rows[..i] && StarMatches(r.principal, expanded))
    {
      assert rows[..i + 1] == rows[..i] + [rows[i]];
      if '*' in rows[i].principal {
        var any := AnyPrincipalMatches(rows[i].principal, expanded);
        if any {
          out := out + [rows[i]];
        }
      }
    }
  }

  ghost predicate StarMatches(principal: string, expanded: seq<string>) {
    '*' in principal && exists p | p in expanded :: MatchPrincipal(principal, p)
  }

  /** policyRows: the one read behind every evaluator. */
  method PolicyRows(pol: Policy, c: Caller) returns (r: Result<seq<Row>>)
    ensures r.Ok? <==> pol.readable
    ensures r.Ok? ==> forall row :: row in r.value <==> Reaching(pol, c, row)
  {
    var expanded := ExpandPrincipals(pol, c);
    if !pol.readable {
      return Refused;
    }
    var rows := RowsFor(pol.rows, expanded);
    forall row ensures Reaching(pol, c, row) <==>
                       row in pol.rows && (row.principal in expanded || StarMatches(row.principal, expanded))
    {
      ReachedIff(pol, c, expanded, row.principal);
    }
    return Ok(rows);
  }

  lemma ReachedIff(pol: Policy, c: Caller, expanded: seq<string>, principal: string)
    requires forall p :: p in expanded <==> IsPrincipal(pol, c, p)
    ensures Reached(pol, c, principal) <==> principal in expanded || StarMatches(principal, expanded)
  {}

  // ----- The decision -----

  /** actionCovers: the action lattice. */
  predicate ActionCovers(rowAction: string, requested: string) {
    || rowAction == "*"
    || rowAction == requested
    || (rowAction == "admin" && (requested == "interact" || "mcp:" <= requested))
    || (rowAction == "mcp:*" && "mcp:" <= requested)
  }

  /** identityCovers: the action itself or the wildcard of its own namespace. */
  predicate IdentityCovers(rowAction: string, requested: string) {
    || rowAction == requested
    || (var ns := Cut(requested, ':'); ns.found && rowAction == ns.before + ":*")
  }

  /** withinSubtree: a concrete target at or under the folder. */
  predicate WithinSubtree(folder: string, scope: string) {
    && folder != "" && scope != ""
    && '*' !in scope && '?' !in scope && '[' !in scope
    && (scope == folder || folder + "/" <= scope)
  }

  datatype Request = Request(action: string, scope: string, params: map<string, string>)

  predicate RowApplies(r: Row, q: Request, claims: map<string, string>) {
    MatchPattern(r.scope, q.scope) && PredicateMatches(r.claim, claims) && ParamsMatch(r.params, q.params)
  }

  /** A principal of the route axis: the destination folder or a role above it. */
  ghost predicate OnRoute(pol: Policy, c: Caller, p: string) {
    c.route != "" && Finds(pol.edges, FolderPrincipal(c.route), pol.routeDown, p)
  }

  /** A row's principal, read as a pattern, matches one of the route's. */
  ghost predicate RouteReached(pol: Policy, c: Caller, principal: string) {
    exists p | OnRoute(pol, c, p) :: MatchPrincipal(principal, p)
  }

  ghost predicate RouteReaches(pol: Policy, c: Caller, r: Row) { RouteReached(pol, c, r.principal) }

  /** The action test of the axis the row is reached through. */
  ghost predicate AxisAllows(pol: Policy, c: Caller, r: Row, q: Request) {
    if c.route == "" || RouteReaches(pol, c, r) then ActionCovers(r.action, q.action)
    else WithinSubtree(c.route, q.scope) && IdentityCovers(r.action, q.action)
  }

  ghost predicate Grants(pol: Policy, c: Caller, r: Row, q: Request) {
    Reaching(pol, c, r) && r.effect != "deny" && RowApplies(r, q, c.claims) && AxisAllows(pol, c, r, q)
  }

  ghost predicate Forbids(pol: Policy, c: Caller, r: Row, q: Request) {
    Reaching(pol, c, r) && r.effect == "deny" && RowApplies(r, q, c.claims) && ActionCovers(r.action, q.action)
  }

  ghost predicate Denied(pol: Policy, c: Caller, q: Request) {
    exists r | r in pol.rows :: Forbids(pol, c, r, q)
  }

  /** What Authorize decides: some row grants, no row forbids. */
  ghost predicate Permits(pol: Policy, c: Caller, q: Request) {
    && pol.readable && q.action != "" && (c.principal != "" || c.route != "")
    && (exists r | r in pol.rows :: Grants(pol, c, r, q))
    && !Denied(pol, c, q)
  }

  ghost predicate IsRoute(pol: Policy, c: Caller, route: seq<string>) {
    forall p :: p in route <==> OnRoute(pol, c, p)
  }

  method RoutePrincipals(pol: Policy, c: Caller) returns (out: seq<string>)
    ensures IsRoute(pol, c, out)
  {
    if c.route == "" {
      return [];
    }
    var p := FolderPrincipal(c.route);
    var ancestors := Ancestors(pol.edges, p, pol.routeDown);
    out := [p] + ancestors;
  }

  /** One row's say. A deny is never confined; an allow the route does not reach is
      confined to the route's subtree and to the action itself. */
  method Weigh(pol: Policy, c: Caller, route: seq<string>, r: Row, q: Request) returns (grants: bool, forbids: bool)
    requires Reaching(pol, c, r) && IsRoute(pol, c, route)
    ensures grants <==> Grants(pol, c, r, q)
    ensures forbids <==> Forbids(pol, c, r, q)
  {
    if !RowApplies(r, q, c.claims) {
      return false, false;
    }
    if r.effect == "deny" {
      return false, ActionCovers(r.action, q.action);
    }
    var onRoute := AnyPrincipalMatches(r.principal, route);
    assert onRoute <==> RouteReaches(pol, c, r);
    if c.route == "" || onRoute {
      return ActionCovers(r.action, q.action), false;
    }
    return WithinSubtree(c.route, q.scope) && IdentityCovers(r.action, q.action), false;
  }

  /** The pass over the rows that collects both flags. */
  method Evaluate(pol: Policy, c: Caller, route: seq<string>, rows: seq<Row>, q: Request)
    returns (allowed: bool, denied: bool)
    requires forall r | r in rows :: Reaching(pol, c, r)
    requires IsRoute(pol, c, route)
    ensures allowed <==> Some(r => Grants(pol, c, r, q), rows)
    ensures denied <==> Some(r => Forbids(pol, c, r, q), rows)
  {
    allowed, denied := false, false;
    ghost var grant: Row -> bool := r => Grants(pol, c, r, q);
    ghost var forbid: Row -> bool := r => Forbids(pol, c, r, q);
    for i := 0 to |rows|
      invariant allowed <==> Some(grant, rows[..i])
      invariant denied <==> Some(forbid, rows[..i])
    {
      var grants, forbids := Weigh(pol, c, route, rows[i], q);
      assert grants <==> grant(rows[i]);
      assert forbids <==> forbid(rows[i]);
      SomeNext(grant, rows, i);
      SomeNext(forbid, rows, i);
      allowed := allowed || grants;
      denied := denied || forbids;
    }
    assert rows[..|rows|] == rows;
  }

  ghost predicate Some(test: Row -> bool, rows: seq<Row>) {
    exists r | r in rows :: test(r)
  }

  lemma SomeNext(test: Row -> bool, rows: seq<Row>, i: nat)
    requires i < |rows|
    ensures Some(test, rows[..i + 1]) <==> Some(test, rows[..i]) || test(rows[i])
  {
    assert rows[..i + 1] == rows[..i] + [rows[i]];
  }

  /** Authorize: deny wins, and no row is a deny. */
  method Authorize(pol: Policy, c: Caller, q: Request) returns (ok: bool)
    ensures ok <==> Permits(pol, c, q)
  {
    if q.action == "" || (c.principal == "" && c.route == "") {
      return false;
    }
    var read := PolicyRows(pol, c);
    if read.Refused? {
      return false;
    }
    var rows := read.value;
    var route := RoutePrincipals(pol, c);
    var allowed, denied := Evaluate(pol, c, route, rows, q);
    FoundInRows(pol, c, q, rows);
    ok := allowed && !denied;
  }

  lemma FoundInRows(pol: Policy, c: Caller, q: Request, rows: seq<Row>)
    requires forall row :: row in rows <==> Reaching(pol, c, row)
    ensures Some(r => Grants(pol, c, r, q), rows) <==> exists r | r in pol.rows :: Grants(pol, c, r, q)
    ensures Some(r => Forbids(pol, c, r, q), rows) <==> Denied(pol, c, q)
  {
    if r :| r in pol.rows && Grants(pol, c, r, q) {
      assert r in rows;
    }
    if r :| r in pol.rows && Forbids(pol, c, r, q) {
      assert r in rows;
    }
  }
}
