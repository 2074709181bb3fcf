/** What the two axes of auth/authorize.go guarantee, and the tool list that goes
    with them. */
module Axes {
  import opened Text
  import opened PathMatch
  import opened Acl
  import opened Params
  import opened Authorization

  function RouteAlone(c: Caller): Caller { c.(principal := "", extra := []) }

  function SenderAlone(c: Caller): Caller { c.(route := "") }

  // ----- Principals -----

  lemma {:induction false} ClimbsToStored(edges: seq<Edge>, from: string, to: string, path: seq<string>)
    requires forall e | e in edges :: e.child != "" && e.parent != ""
    requires Climbs(edges, from, to, path)
    ensures from == "" ==> to == ""
    ensures from != "" ==> to != ""
    decreases |path|
  {
    if path != [] {
      assert Edge(from, path[0]).parent != "";
      ClimbsToStored(edges, path[0], to, path[1..]);
    }
  }

  lemma ReachesStored(pol: Policy, from: string, to: string)
    requires Stored(pol) && Reaches(pol.edges, from, to)
    ensures from == "" <==> to == ""
  {
    var path :| Climbs(pol.edges, from, to, path);
    ClimbsToStored(pol.edges, from, to, path);
  }

  /** The full caller's principals are the sender's and those of the route alone. */
  lemma PrincipalsSplit(pol: Policy, c: Caller, p: string)
    requires Stored(pol)
    ensures IsPrincipal(pol, c, p) <==> IsPrincipal(pol, SenderAlone(c), p) || IsPrincipal(pol, RouteAlone(c), p)
    ensures FolderReadsAgree(pol, c) ==> (IsPrincipal(pol, RouteAlone(c), p) <==> OnRoute(pol, c, p))
  {
    var f := FolderPrincipal(c.route);
    var own := [c.principal] + c.extra;
    assert Frontier(SenderAlone(c)) == own;
    assert c.route != "" ==> Frontier(c) == own + [f] && Frontier(RouteAlone(c)) == ["", f];
    assert c.route == "" ==> Frontier(c) == own && Frontier(RouteAlone(c)) == [""];
    if Reaches(pol.edges, "", p) { ReachesStored(pol, "", p); }
    if OnRoute(pol, c, p) && p != f { ReachesStored(pol, f, p); }
    assert c.route != "" ==> f in Frontier(c) && f in Frontier(RouteAlone(c));
    forall o | o in own ensures o in Frontier(c) {}
  }

  /** The two walks from the route's folder, one behind the principals and one behind the
      route's own reading, meet the same fate: both answer or both fail. */
  ghost predicate FolderReadsAgree(pol: Policy, c: Caller) {
    var f := FolderPrincipal(c.route);
    Blocked(pol.edges, f, DownFrom(pol, f)) <==> Blocked(pol.edges, f, pol.routeDown)
  }

  /** So a row's principal reaches the caller exactly when it reaches one of the two. */
  lemma ReachedSplit(pol: Policy, c: Caller, s: string)
    requires Stored(pol)
    ensures Reached(pol, c, s) <==> Reached(pol, SenderAlone(c), s) || Reached(pol, RouteAlone(c), s)
    ensures RouteReached(pol, RouteAlone(c), s) <==> RouteReached(pol, c, s)
  {
    forall p
      ensures IsPrincipal(pol, c, p) <==> IsPrincipal(pol, SenderAlone(c), p) || IsPrincipal(pol, RouteAlone(c), p)
      ensures OnRoute(pol, RouteAlone(c), p) <==> OnRoute(pol, c, p)
    {
      PrincipalsSplit(pol, c, p);
    }
  }

  /** `ns:rest` with something after the colon and no pattern character. */
  predicate PlainPrincipal(p: string) {
    Literal(p) && Cut(p, ':').found && Cut(p, ':').after != ""
  }

  /** A plain principal, read as a pattern, matches itself alone. */
  lemma PlainMatchesItself(p: string, q: string)
    requires PlainPrincipal(p) && MatchPrincipal(p, q)
    ensures p == q
  {
    var pat, name := Cut(p, ':'), Cut(q, ':');
    assert "**"[0] in "**" && IsGlobChar("**"[0]);
    if p != q {
      assert IsGlobChar('*') && forall ch | ch in pat.before || ch in pat.after :: ch in p;
      SegGlobIffSpells(pat.before, name.before);
      StarFreeSpells(pat.before, name.before);
      LiteralScope(pat.after, name.after);
    }
  }

  // ----- Which rows the route decides by -----

  ghost predicate RouteRow(pol: Policy, c: Caller, r: Row) {
    Reaching(pol, c, r) && RouteReaches(pol, c, r)
  }

  /** A row's principal counts as the route's own with the sender beside it, and does not
      reach the route alone. */
  ghost predicate Leaks(pol: Policy, c: Caller, s: string) {
    Reached(pol, c, s) && RouteReached(pol, c, s) && !Reached(pol, RouteAlone(c), s)
  }

  /** A principal the caller is, off the route and without a star, that reads as a
      pattern for a principal of the route. */
  ghost predicate Lookalike(pol: Policy, c: Caller, s: string) {
    IsPrincipal(pol, c, s) && !OnRoute(pol, c, s) && '*' !in s && RouteReached(pol, c, s)
  }

  ghost predicate NoLeak(pol: Policy, c: Caller) { forall r | r in pol.rows :: !Leaks(pol, c, r.principal) }

  ghost predicate NoLookalike(pol: Policy, c: Caller) { forall r | r in pol.rows :: !Lookalike(pol, c, r.principal) }

  /** When the two walks from the folder agree, only a lookalike leaks. */
  lemma LeakIsLookalike(pol: Policy, c: Caller, s: string)
    requires Stored(pol) && FolderReadsAgree(pol, c)
    ensures Leaks(pol, c, s) <==> Lookalike(pol, c, s)
  {
    forall p ensures IsPrincipal(pol, RouteAlone(c), p) <==> OnRoute(pol, c, p) {
      PrincipalsSplit(pol, c, p);
    }
  }

  /** The rows the full caller treats as the route's own are those the route alone treats
      so exactly when no row leaks; with walks that agree those are the rows of the route
      alone exactly when there is no lookalike. */
  lemma RouteRowsIff(pol: Policy, c: Caller)
    requires Stored(pol) && c.route != ""
    ensures NoLeak(pol, c) <==> forall r | r in pol.rows :: RouteRow(pol, c, r) <==> RouteRow(pol, RouteAlone(c), r)
    ensures FolderReadsAgree(pol, c) ==>
              (NoLookalike(pol, c) <==> forall r | r in pol.rows :: RouteRow(pol, c, r) <==> Reaching(pol, RouteAlone(c), r))
  {
    forall r | r in pol.rows
      ensures RouteRow(pol, RouteAlone(c), r) ==> RouteRow(pol, c, r)
      ensures RouteRow(pol, c, r) && !RouteRow(pol, RouteAlone(c), r) <==> Leaks(pol, c, r.principal)
    {
      ReachedSplit(pol, c, r.principal);
    }
    if FolderReadsAgree(pol, c) {
      forall r | r in pol.rows
        ensures Leaks(pol, c, r.principal) <==> Lookalike(pol, c, r.principal)
        ensures Reaching(pol, RouteAlone(c), r) ==> RouteRow(pol, c, r)
      {
        LeakIsLookalike(pol, c, r.principal);
        if Reached(pol, RouteAlone(c), r.principal) { ReachedOnRoute(pol, c, r.principal); }
      }
    }
  }

  lemma ReachedOnRoute(pol: Policy, c: Caller, s: string)
    requires Stored(pol) && FolderReadsAgree(pol, c) && Reached(pol, RouteAlone(c), s)
    ensures Reached(pol, c, s) && RouteReached(pol, c, s)
  {
    ReachedSplit(pol, c, s);
    forall p ensures IsPrincipal(pol, RouteAlone(c), p) <==> OnRoute(pol, c, p) {
      PrincipalsSplit(pol, c, p);
    }
    if OnRoute(pol, c, s) { assert MatchPrincipal(s, s); }
  }

  /** Policies whose star-free principals are plain have no lookalike. */
  lemma PlainHasNoLookalike(pol: Policy, c: Caller)
    requires forall r | r in pol.rows && '*' !in r.principal :: PlainPrincipal(r.principal)
    ensures NoLookalike(pol, c)
  {
    forall r | r in pol.rows && '*' !in r.principal && IsPrincipal(pol, c, r.principal) && !OnRoute(pol, c, r.principal)
      ensures !RouteReaches(pol, c, r)
    {
      if p :| OnRoute(pol, c, p) && MatchPrincipal(r.principal, p) {
        PlainMatchesItself(r.principal, p);
      }
    }
  }

  // ----- Non-interference -----

  /** Outside the route's subtree the verdict is the route's own, less what a row of
      the caller forbids, whoever spoke, unless a row leaks. */
  lemma OutsideSubtreeTheRouteDecides(pol: Policy, c: Caller, q: Request)
    requires Stored(pol) && c.route != "" && NoLeak(pol, c)
    requires !WithinSubtree(c.route, q.scope)
    ensures Permits(pol, c, q) <==> Permits(pol, RouteAlone(c), q) && !Denied(pol, c, q)
  {
    forall r | r in pol.rows
      ensures Grants(pol, c, r, q) <==> Grants(pol, RouteAlone(c), r, q)
      ensures Forbids(pol, RouteAlone(c), r, q) ==> Forbids(pol, c, r, q)
    {
      ReachedSplit(pol, c, r.principal);
      assert !Leaks(pol, c, r.principal);
    }
  }

  // ----- The exact conditions, over all tables -----

  /** The same memberships and reads with another table of rows. */
  function WithRows(pol: Policy, rows: seq<Row>): Policy { pol.(rows := rows) }

  lemma SameWho(pol: Policy, rows: seq<Row>, c: Caller, s: string)
    ensures IsPrincipal(WithRows(pol, rows), c, s) <==> IsPrincipal(pol, c, s)
    ensures OnRoute(WithRows(pol, rows), c, s) <==> OnRoute(pol, c, s)
  {
    forall f ensures DownFrom(WithRows(pol, rows), f) == DownFrom(pol, f) {}
  }

  lemma SameReached(pol: Policy, rows: seq<Row>, c: Caller, s: string)
    ensures Reached(WithRows(pol, rows), c, s) <==> Reached(pol, c, s)
    ensures RouteReached(WithRows(pol, rows), c, s) <==> RouteReached(pol, c, s)
  {
    forall p
      ensures IsPrincipal(WithRows(pol, rows), c, p) <==> IsPrincipal(pol, c, p)
      ensures OnRoute(WithRows(pol, rows), c, p) <==> OnRoute(pol, c, p)
    {
      SameWho(pol, rows, c, p);
    }
  }

  lemma SameLeaks(pol: Policy, rows: seq<Row>, c: Caller, s: string)
    ensures Leaks(WithRows(pol, rows), c, s) <==> Leaks(pol, c, s)
  {
    SameReached(pol, rows, c, s);
    SameReached(pol, rows, RouteAlone(c), s);
  }

  /** Outside the subtree the route decides this request. */
  ghost predicate RouteDecides(pol: Policy, c: Caller, q: Request) {
    !WithinSubtree(c.route, q.scope) ==>
      (Permits(pol, c, q) <==> Permits(pol, RouteAlone(c), q) && !Denied(pol, c, q))
  }

  /** The sender stays without effect outside the subtree, for every table of rows and
      every request and whatever reads fail, exactly when nothing a row may name leaks. */
  lemma RouteDecidesIff(pol: Policy, c: Caller)
    requires Stored(pol) && c.route != "" && pol.readable
    ensures (forall rows, q | Stored(WithRows(pol, rows)) :: RouteDecides(WithRows(pol, rows), c, q))
            <==> !exists s :: Leaks(pol, c, s)
  {
    if s :| Leaks(pol, c, s) {
      var rows, q := [Probe(s, "t")], Request("t", "**", map[]);
      ProbeLeaks(pol, c, s);
      assert Stored(WithRows(pol, rows)) && !RouteDecides(WithRows(pol, rows), c, q);
    } else {
      forall rows, q | Stored(WithRows(pol, rows)) ensures RouteDecides(WithRows(pol, rows), c, q) {
        forall r: Row | r in rows ensures !Leaks(WithRows(pol, rows), c, r.principal) { SameLeaks(pol, rows, c, r.principal); }
        if !WithinSubtree(c.route, q.scope) { OutsideSubtreeTheRouteDecides(WithRows(pol, rows), c, q); }
      }
    }
  }

  /** When the two walks from the folder agree, as they do when every read answers, the
      condition is that none of the sender's principals is a lookalike. */
  lemma RouteDecidesIffNoLookalike(pol: Policy, c: Caller)
    requires Stored(pol) && FolderReadsAgree(pol, c) && c.route != "" && pol.readable
    ensures (forall rows, q | Stored(WithRows(pol, rows)) :: RouteDecides(WithRows(pol, rows), c, q))
            <==> !exists s :: Lookalike(pol, c, s)
  {
    RouteDecidesIff(pol, c);
    forall s ensures Leaks(pol, c, s) <==> Lookalike(pol, c, s) { LeakIsLookalike(pol, c, s); }
  }

  /** One allow row, for a chosen principal, on every folder. */
  function Probe(principal: string, action: string): Row { Row(principal, action, "**", "", "", "allow", false) }

  lemma ProbeLeaks(pol: Policy, c: Caller, s: string)
    requires Stored(pol) && c.route != "" && pol.readable && Leaks(pol, c, s)
    ensures var t := WithRows(pol, [Probe(s, "t")]);
            Stored(t) && !RouteDecides(t, c, Request("t", "**", map[]))
  {
    SameReached(pol, [Probe(s, "t")], c, s);
    SameReached(pol, [Probe(s, "t")], RouteAlone(c), s);
    ProbeDecides(WithRows(pol, [Probe(s, "t")]), c, Probe(s, "t"), Request("t", "**", map[]));
  }

  /** A table of one probe, reached by the route's own reading: it grants the caller, and
      nothing grants the route alone. */
  lemma ProbeDecides(t: Policy, c: Caller, r: Row, q: Request)
    requires t.rows == [r] && r == Probe(r.principal, "t") && q == Request("t", "**", map[])
    requires t.readable && c.route != "" && Reached(t, c, r.principal) && RouteReached(t, c, r.principal)
    requires !Reached(t, RouteAlone(c), r.principal)
    ensures !RouteDecides(t, c, q)
  {
    DoubleStarCoversAll("**");
    assert r in t.rows && Grants(t, c, r, q);
    assert !Reaching(t, RouteAlone(c), r);
    assert '*' in q.scope;
  }

  /** Walks that disagree leak with plain principals alone: the walk behind the principals
      loses the folder's role, the walk behind the route's reading finds it, and a sender
      of the same role carries its grant outside the subtree. */
  lemma SplitReadsLeak(pol: Policy, c: Caller, q: Request)
    requires pol == Policy([Row("role:m", "mcp:t", "x", "", "", "allow", false)],
                           [Edge("folder:a", "role:m"), Edge("u:s", "role:m")], true, {("folder:a", "folder:a")}, {})
    requires c == Caller("u:s", map[], [], "a") && q == Request("mcp:t", "x", map[])
    ensures Stored(pol) && NoLookalike(pol, c) && !NoLeak(pol, c) && !WithinSubtree(c.route, q.scope)
    ensures Permits(pol, c, q) && !Denied(pol, c, q) && !Permits(pol, RouteAlone(c), q)
  {
    var r := pol.rows[0];
    SplitReadsReached(pol, c);
    SplitReadsHidden(pol, c);
    ScopeX();
    LookalikeGranted(pol, c, r, q);
    assert Leaks(pol, c, r.principal) && r in pol.rows;
    assert OnRoute(pol, c, "role:m");
  }

  lemma SplitReadsReached(pol: Policy, c: Caller)
    requires pol.edges == [Edge("folder:a", "role:m"), Edge("u:s", "role:m")]
    requires pol.down == {("folder:a", "folder:a")} && pol.routeDown == {}
    requires c == Caller("u:s", map[], [], "a")
    ensures Reached(pol, c, "role:m") && OnRoute(pol, c, "role:m") && RouteReached(pol, c, "role:m")
  {
    assert FolderPrincipal("a") == "folder:a" && "u:s"[0] != "folder:a"[0];
    ReachesSelf(pol.edges, "folder:a");
    ReachesSelf(pol.edges, "u:s");
    ReachesParent(pol.edges, "folder:a", pol.edges[0]);
    ReachesParent(pol.edges, "u:s", pol.edges[1]);
    assert DownFrom(pol, "u:s") == {};
    assert Finds(pol.edges, "u:s", DownFrom(pol, "u:s"), "role:m") && Frontier(c)[0] == "u:s";
    assert MatchPrincipal("role:m", "role:m");
  }

  lemma SplitReadsHidden(pol: Policy, c: Caller)
    requires Stored(pol) && pol.down == {("folder:a", "folder:a")} && c.route == "a"
    ensures !Reached(pol, RouteAlone(c), "role:m")
  {
    assert FolderPrincipal("a") == "folder:a" && "role:m"[0] != "folder:a"[0] && '*' !in "role:m";
    ReachesSelf(pol.edges, "folder:a");
    assert ("folder:a", "folder:a") in pol.down && "folder:a" in DownFrom(pol, "folder:a");
    assert Frontier(RouteAlone(c)) == ["", "folder:a"];
    if Reaches(pol.edges, "", "role:m") { ReachesStored(pol, "", "role:m"); }
  }

  /** A lookalike leaks: a sender whose name is a `?` pattern for a role of the
      route carries its own grant outside the subtree, where the route alone is
      refused. */
  lemma LookalikeLeaks(pol: Policy, c: Caller, q: Request)
    requires pol == Policy([Row("r:?", "mcp:t", "x", "", "", "allow", false)], [Edge("folder:a", "r:b")], true, {}, {})
    requires c == Caller("r:?", map[], [], "a") && q == Request("mcp:t", "x", map[])
    ensures Stored(pol) && !NoLookalike(pol, c) && !WithinSubtree(c.route, q.scope)
    ensures Permits(pol, c, q) && !Permits(pol, RouteAlone(c), q)
  {
    var r := pol.rows[0];
    LookalikeReached(pol, c, r);
    LookalikeHidden(pol, c, r);
    ScopeX();
    assert q.scope == "x" && c.route == "a";
    LookalikeGranted(pol, c, r, q);
  }

  lemma ScopeX()
    ensures MatchPattern("x", "x") && !WithinSubtree("a", "x")
  {
    LiteralScope("x", "x");
  }

  lemma LookalikeHidden(pol: Policy, c: Caller, r: Row)
    requires Stored(pol) && pol.edges == [Edge("folder:a", "r:b")] && pol.rows == [r] && pol.down == {} && pol.routeDown == {}
    requires c == Caller("r:?", map[], [], "a") && r.principal == "r:?"
    requires Reaching(pol, c, r) && RouteReaches(pol, c, r)
    ensures !NoLookalike(pol, c) && !Reaching(pol, RouteAlone(c), r)
  {
    LookalikeOffRoute(pol, c);
    StarFreeReached(pol, c, "r:?");
    StarFreeReached(pol, RouteAlone(c), "r:?");
    ReadsAgreeWithout(pol, c);
    PrincipalsSplit(pol, c, "r:?");
    LookalikeNamed(pol, c, r);
  }

  lemma StarFreeReached(pol: Policy, c: Caller, s: string)
    requires '*' !in s
    ensures Reached(pol, c, s) <==> IsPrincipal(pol, c, s)
  {}

  lemma ReadsAgreeWithout(pol: Policy, c: Caller)
    requires pol.down == {} && pol.routeDown == {}
    ensures FolderReadsAgree(pol, c)
  {
    assert DownFrom(pol, FolderPrincipal(c.route)) == {};
  }

  lemma LookalikeNamed(pol: Policy, c: Caller, r: Row)
    requires r in pol.rows && '*' !in r.principal && IsPrincipal(pol, c, r.principal) && !OnRoute(pol, c, r.principal)
    requires RouteReaches(pol, c, r)
    ensures !NoLookalike(pol, c)
  {
    assert Lookalike(pol, c, r.principal);
  }

  lemma LookalikeOffRoute(pol: Policy, c: Caller)
    requires pol.edges == [Edge("folder:a", "r:b")] && c.route == "a"
    ensures !OnRoute(pol, c, "r:?")
  {
    RoleOnly(pol.edges[0]);
    assert FolderPrincipal("a") == "folder:a" && "folder:a"[0] != "r:?"[0];
  }

  lemma LookalikeGranted(pol: Policy, c: Caller, r: Row, q: Request)
    requires pol.rows == [r] && pol.readable && c.principal != "" && q.action != ""
    requires Reaching(pol, c, r) && RouteReaches(pol, c, r) && MatchPattern(r.scope, q.scope)
    requires r.params == "" && r.claim == "" && r.effect == "allow" && r.action == q.action
    requires !Reaching(pol, RouteAlone(c), r)
    ensures Permits(pol, c, q) && !Permits(pol, RouteAlone(c), q)
  {
    assert Grants(pol, c, r, q);
  }

  lemma LookalikeReached(pol: Policy, c: Caller, r: Row)
    requires pol.edges == [Edge("folder:a", "r:b")] && c.principal == "r:?" && c.route == "a"
    requires pol.rows == [r] && r.principal == "r:?" && pol.routeDown == {}
    ensures Reaching(pol, c, r) && RouteReaches(pol, c, r)
  {
    assert Finds(pol.edges, "r:?", DownFrom(pol, "r:?"), "r:?");
    assert Frontier(c)[0] == "r:?";
    ReachesSelf(pol.edges, "folder:a");
    assert FolderPrincipal("a") == "folder:a" && pol.edges[0] in pol.edges;
    ReachesParent(pol.edges, "folder:a", pol.edges[0]);
    LookalikeMatches();
    assert OnRoute(pol, c, "r:b");
  }

  lemma LookalikeMatches()
    ensures MatchPrincipal("r:?", "r:b")
  {
    CutJoined("r", ':', "?");
    CutJoined("r", ':', "b");
    assert "r:?" == "r" + [':'] + "?" && "r:b" == "r" + [':'] + "b";
    SplitWhole("?", '/');
    SplitWhole("b", '/');
    assert "?"[1..] == "" && Tokens("") == Got([], "");
    assert [AnyOne] + [] == [AnyOne];
    assert Tokens("?") == Got([AnyOne], "");
    assert TokensTake([AnyOne], "b");
    assert Segment("?", "b") == Match;
    assert ["?"][1..] == [] && ["b"][1..] == [];
  }

  lemma RoleOnly(e: Edge)
    requires e == Edge("folder:a", "r:b")
    ensures !Reaches([e], FolderPrincipal("a"), "r:?")
  {
    assert FolderPrincipal("a") == "folder:a";
    assert "r:?"[2] != "r:b"[2] && "folder:a"[0] != "r:?"[0];
    forall path | Climbs([e], "folder:a", "r:?", path) ensures false {
      ClosedReaches([e], {"folder:a", "r:b"}, "folder:a", "r:?", path);
    }
  }

  /** For an `mcp:` action, anything the full caller may do, the route alone may do
      or the sender alone may do, whatever reads fail: no union of the two confers a tool
      neither has. */
  lemma ToolNeedsOneAxis(pol: Policy, c: Caller, q: Request)
    requires Stored(pol) && "mcp:" <= q.action && c.principal != ""
    requires Permits(pol, c, q)
    ensures Permits(pol, RouteAlone(c), q) || Permits(pol, SenderAlone(c), q)
  {
    forall r | r in pol.rows
      ensures Forbids(pol, RouteAlone(c), r, q) ==> Forbids(pol, c, r, q)
      ensures Forbids(pol, SenderAlone(c), r, q) ==> Forbids(pol, c, r, q)
    {
      ReachedSplit(pol, c, r.principal);
    }
    var r :| r in pol.rows && Grants(pol, c, r, q);
    ReachedSplit(pol, c, r.principal);
    if IdentityCovers(r.action, q.action) { ToolActions(r.action, q.action); }
    if Reaching(pol, SenderAlone(c), r) {
      assert Grants(pol, SenderAlone(c), r, q);
    } else {
      RouteIsNamed(pol, c, r.principal);
      assert Grants(pol, RouteAlone(c), r, q);
    }
  }

  lemma RouteIsNamed(pol: Policy, c: Caller, s: string)
    requires Stored(pol) && Reached(pol, RouteAlone(c), s)
    ensures c.route != ""
  {
    var p :| IsPrincipal(pol, RouteAlone(c), p);
    forall f | f in Frontier(RouteAlone(c)) ensures Finds(pol.edges, f, DownFrom(pol, f), p) ==> c.route != "" {
      if Reaches(pol.edges, f, p) { ReachesStored(pol, f, p); }
    }
  }

  /** The sender has to be named: the guard refuses a caller without a principal
      and a route, so a grant that only an extra principal holds is permitted inside
      the subtree while each axis alone is refused. */
  lemma NamelessSenderNeedsBoth(pol: Policy, c: Caller, q: Request)
    requires pol == Policy([Row("u:x", "mcp:t", "a", "", "", "allow", false)], [], true, {}, {})
    requires c == Caller("", map[], ["u:x"], "a") && q == Request("mcp:t", "a", map[])
    ensures Permits(pol, c, q) && !Permits(pol, RouteAlone(c), q) && !Permits(pol, SenderAlone(c), q)
  {
    var r := pol.rows[0];
    NoEdges();
    assert Finds(pol.edges, "u:x", DownFrom(pol, "u:x"), "u:x");
    assert Frontier(c)[1] == "u:x" && FolderPrincipal("a")[0] == 'f';
    assert Frontier(RouteAlone(c)) == ["", FolderPrincipal("a")];
    LiteralScope("a", "a");
    assert Grants(pol, c, r, q);
    NamelessRouteRefused(pol, c, r, q);
  }

  /** What one axis alone would permit is all the full caller is permitted. */
  ghost predicate OneAxis(pol: Policy, c: Caller, q: Request) {
    Permits(pol, c, q) ==> Permits(pol, RouteAlone(c), q) || Permits(pol, SenderAlone(c), q)
  }

  /** A row's principal reaches the caller and not the route alone, somewhere it can
      count: by the route's own reading, or inside a subtree that holds a target. */
  ghost predicate Separates(pol: Policy, c: Caller, s: string) {
    && c.route != "" && Reached(pol, c, s) && !Reached(pol, RouteAlone(c), s)
    && (WithinSubtree(c.route, c.route) || RouteReached(pol, c, s))
  }

  /** For every table of rows and every tool, whatever reads fail, one axis suffices exactly
      when the sender is named or nothing separates it from the route. */
  lemma OneAxisIff(pol: Policy, c: Caller)
    requires Stored(pol) && pol.readable
    ensures (forall rows, q: Request | Stored(WithRows(pol, rows)) && "mcp:" <= q.action :: OneAxis(WithRows(pol, rows), c, q))
            <==> c.principal != "" || !exists s :: Separates(pol, c, s)
  {
    if c.principal == "" {
      if s :| Separates(pol, c, s) {
        var q := Request("mcp:t", if WithinSubtree(c.route, c.route) then c.route else "**", map[]);
        NamelessProbe(pol, c, s, q);
        assert Stored(WithRows(pol, [Probe(s, "mcp:t")])) && "mcp:" <= q.action;
      } else {
        forall rows, q: Request | Stored(WithRows(pol, rows)) && "mcp:" <= q.action ensures OneAxis(WithRows(pol, rows), c, q) {
          NamelessAtOne(pol, c, rows, q);
        }
      }
    } else {
      forall rows, q: Request | Stored(WithRows(pol, rows)) && "mcp:" <= q.action ensures OneAxis(WithRows(pol, rows), c, q) {
        if Permits(WithRows(pol, rows), c, q) { ToolNeedsOneAxis(WithRows(pol, rows), c, q); }
      }
    }
  }

  lemma NamelessProbe(pol: Policy, c: Caller, s: string, q: Request)
    requires Stored(pol) && pol.readable && c.principal == "" && Separates(pol, c, s)
    requires q == Request("mcp:t", if WithinSubtree(c.route, c.route) then c.route else "**", map[])
    ensures var t := WithRows(pol, [Probe(s, "mcp:t")]); Stored(t) && !OneAxis(t, c, q)
  {
    var r := Probe(s, "mcp:t");
    var t := WithRows(pol, [r]);
    SameReached(pol, [r], c, s);
    SameReached(pol, [r], RouteAlone(c), s);
    DoubleStarCoversAll(q.scope);
    assert r in t.rows && Grants(t, c, r, q);
    assert !Reaching(t, RouteAlone(c), r);
  }

  lemma NamelessAtOne(pol: Policy, c: Caller, rows: seq<Row>, q: Request)
    requires c.principal == "" && forall s :: !Separates(pol, c, s)
    ensures OneAxis(WithRows(pol, rows), c, q)
  {
    var t := WithRows(pol, rows);
    if Permits(t, c, q) {
      var r :| r in t.rows && Grants(t, c, r, q);
      SameReached(pol, rows, c, r.principal);
      SameReached(pol, rows, RouteAlone(c), r.principal);
      assert !Separates(pol, c, r.principal);
      forall p ensures OnRoute(t, c, p) <==> OnRoute(t, RouteAlone(c), p) {}
      if !Reached(pol, RouteAlone(c), r.principal) { SubtreeNeedsPlainFolder(c.route, q.scope); }
      assert Grants(t, RouteAlone(c), r, q);
      forall d | d in t.rows && Forbids(t, RouteAlone(c), d, q) ensures Forbids(t, c, d, q) {
        RouteAloneReachesLess(t, c, d.principal);
      }
    }
  }

  lemma SubtreeNeedsPlainFolder(folder: string, scope: string)
    requires WithinSubtree(folder, scope)
    ensures WithinSubtree(folder, folder)
  {
    forall ch | ch in folder ensures ch in scope {
      var i :| 0 <= i < |folder| && folder[i] == ch;
      assert (folder + "/")[i] == ch && scope[i] == ch;
    }
  }

  lemma RouteAloneReachesLess(pol: Policy, c: Caller, s: string)
    requires c.route != "" && c.principal == "" && Reached(pol, RouteAlone(c), s)
    ensures Reached(pol, c, s)
  {
    assert Frontier(RouteAlone(c)) == ["", FolderPrincipal(c.route)];
    assert Frontier(c)[|Frontier(c)| - 1] == FolderPrincipal(c.route) && Frontier(c)[0] == "";
    forall p | IsPrincipal(pol, RouteAlone(c), p) ensures IsPrincipal(pol, c, p) {}
  }

  lemma NamelessRouteRefused(pol: Policy, c: Caller, r: Row, q: Request)
    requires pol.rows == [r] && pol.edges == [] && r.principal == "u:x" && c.route == "a"
    ensures !Permits(pol, RouteAlone(c), q)
  {
    NoEdges();
    assert FolderPrincipal("a")[0] == 'f';
    assert Frontier(RouteAlone(c)) == ["", FolderPrincipal("a")];
    assert !Reaching(pol, RouteAlone(c), r);
  }

  lemma NoEdges()
    ensures forall from, to :: Reaches([], from, to) ==> from == to
  {
    forall from, to | Reaches([], from, to) ensures from == to {
      var path :| Climbs([], from, to, path);
    }
  }

  lemma ToolActions(rowAction: string, requested: string)
    requires "mcp:" <= requested && IdentityCovers(rowAction, requested)
    ensures ActionCovers(rowAction, requested)
  {
    if rowAction != requested {
      assert requested == "mcp" + [':'] + requested[4..];
      CutJoined("mcp", ':', requested[4..]);
      assert "mcp" + ":*" == "mcp:*";
    }
  }

  // ----- EffectiveActions -----

  /** The tool list a caller is shown. */
  datatype View = Nothing | View(lattice: bool, held: set<string>)

  predicate Lists(v: View, action: string) {
    v.View? && if v.lattice then "mcp:" <= action else action in v.held
  }

  /** The row confers the tool somewhere, on the axis it is reached through. */
  ghost predicate Confers(pol: Policy, c: Caller, r: Row, action: string) {
    && Reaching(pol, c, r) && r.effect != "deny"
    && (if c.route == "" || RouteReaches(pol, c, r) then ActionCovers(r.action, action)
        else IdentityCovers(r.action, action))
  }

  /** EffectiveActions lists an `mcp:` tool exactly when some allow row confers it. */
  method EffectiveActions(pol: Policy, c: Caller) returns (v: View)
    ensures forall a: string | "mcp:" <= a ::
              Lists(v, a) <==> pol.readable && (c.principal != "" || c.route != "")
                               && exists r | r in pol.rows :: Confers(pol, c, r, a)
  {
    if c.principal == "" && c.route == "" {
      return Nothing;
    }
    var read := PolicyRows(pol, c);
    if read.Refused? {
      return Nothing;
    }
    var rows := read.value;
    var route := RoutePrincipals(pol, c);
    var lattice, held := false, {};
    for i := 0 to |rows|
      invariant forall a: string | "mcp:" <= a ::
          lattice || a in held <==> Some(Conferring(pol, c, a), rows[..i])
    {
      var more := Shown(pol, c, route, rows[i]);
      forall a: string | "mcp:" <= a
        ensures Some(Conferring(pol, c, a), rows[..i + 1]) <==>
                Some(Conferring(pol, c, a), rows[..i]) || Lists(more, a)
      {
        SomeNext(Conferring(pol, c, a), rows, i);
      }
      lattice, held := lattice || more.lattice, held + more.held;
    }
    assert rows[..|rows|] == rows;
    v := View(lattice, held);
    forall a: string | "mcp:" <= a
      ensures Lists(v, a) <==> exists r | r in pol.rows :: Confers(pol, c, r, a)
    {
      ConferringRows(pol, c, rows, a);
      assert lattice || a in held <==> Some(Conferring(pol, c, a), rows);
    }
  }

  /** An allow row confers a tool exactly when there is a folder on which its axis would
      grant it: the list is the gate's, over all targets. */
  lemma ConfersIff(pol: Policy, c: Caller, r: Row, action: string)
    requires c.route == "" || WithinSubtree(c.route, c.route)
    ensures Confers(pol, c, r, action) <==>
            && Reaching(pol, c, r) && r.effect != "deny"
            && exists scope: string :: AxisAllows(pol, c, r, Request(action, scope, map[]))
  {
    if Confers(pol, c, r, action) {
      assert AxisAllows(pol, c, r, Request(action, c.route, map[]));
    }
  }

  ghost function Conferring(pol: Policy, c: Caller, action: string): Row -> bool {
    r => Confers(pol, c, r, action)
  }

  lemma ConferringRows(pol: Policy, c: Caller, rows: seq<Row>, a: string)
    requires forall row :: row in rows <==> Reaching(pol, c, row)
    ensures Some(Conferring(pol, c, a), rows) <==> exists r | r in pol.rows :: Confers(pol, c, r, a)
  {
    if r :| r in pol.rows && Confers(pol, c, r, a) {
      assert r in rows && Conferring(pol, c, a)(r);
    }
    if r :| r in rows && Conferring(pol, c, a)(r) {
      assert Confers(pol, c, r, a);
    }
  }

  /** What one row adds to the list: a lattice action every tool, on the route axis
      only; any other action itself. */
  method Shown(pol: Policy, c: Caller, route: seq<string>, r: Row) returns (v: View)
    requires Reaching(pol, c, r) && IsRoute(pol, c, route)
    ensures v.View? && forall a: string | "mcp:" <= a :: Lists(v, a) <==> Confers(pol, c, r, a)
  {
    forall a: string | "mcp:" <= a
      ensures IdentityCovers(r.action, a) <==> r.action == a || r.action == "mcp:*"
    {
      IdentityTool(r.action, a);
    }
    if r.effect == "deny" {
      return View(false, {});
    }
    var onRoute := AnyPrincipalMatches(r.principal, route);
    assert onRoute <==> RouteReaches(pol, c, r);
    if c.route != "" && !onRoute {
      match r.action
      case "mcp:*" => return View(true, {});
      case "*" => return View(false, {});
      case "admin" =>
        assert "admin"[0] != "mcp:"[0];
        return View(false, {});
      case _ => return View(false, {r.action});
    }
    if r.action in {"*", "mcp:*", "admin"} {
      return View(true, {});
    }
    return View(false, {r.action});
  }

  lemma IdentityTool(rowAction: string, a: string)
    requires "mcp:" <= a
    ensures IdentityCovers(rowAction, a) <==> rowAction == a || rowAction == "mcp:*"
  {
    assert a == "mcp" + [':'] + a[4..];
    CutJoined("mcp", ':', a[4..]);
    assert "mcp" + ":*" == "mcp:*";
  }

  /** The list never hides a tool the gate would let through. */
  lemma PermittedToolIsListed(pol: Policy, c: Caller, q: Request, v: View)
    requires "mcp:" <= q.action && Permits(pol, c, q)
    requires Lists(v, q.action) <==> pol.readable && (c.principal != "" || c.route != "")
                                     && exists r | r in pol.rows :: Confers(pol, c, r, q.action)
    ensures Lists(v, q.action)
  {
    var r :| r in pol.rows && Grants(pol, c, r, q);
    assert Confers(pol, c, r, q.action);
  }
}
