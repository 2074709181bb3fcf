/** What a failed membership read does to a decision. store/membership.go's Ancestors
    answers no parents when one of its reads fails, so auth/authorize.go goes on with
    the principals it has: a role is lost, and the denies of the role with it. */
module FailedReads {
  import opened Acl
  import opened Authorization
  import opened Axes
  import opened Delegation

  /** A failed read only hides principals. */
  lemma OnlyHides(pol: Policy, c: Caller, s: string)
    ensures IsPrincipal(pol, c, s) ==> IsPrincipal(Healthy(pol), c, s)
    ensures OnRoute(pol, c, s) ==> OnRoute(Healthy(pol), c, s)
  {
    forall f ensures DownFrom(Healthy(pol), f) == {} {}
  }

  lemma ReachesLess(pol: Policy, c: Caller, s: string)
    ensures Reached(pol, c, s) ==> Reached(Healthy(pol), c, s)
    ensures RouteReached(pol, c, s) ==> RouteReached(Healthy(pol), c, s)
  {
    forall p
      ensures IsPrincipal(pol, c, p) ==> IsPrincipal(Healthy(pol), c, p)
      ensures OnRoute(pol, c, p) ==> OnRoute(Healthy(pol), c, p)
    {
      OnlyHides(pol, c, p);
    }
  }

  // ----- When no verdict changes -----

  /** Whatever a row may name, the failed reads neither hide it from the caller nor take
      it off the route. */
  ghost predicate SameReading(pol: Policy, c: Caller) {
    forall s ::
      && (Reached(pol, c, s) <==> Reached(Healthy(pol), c, s))
      && (Reached(pol, c, s) ==> (RouteReached(pol, c, s) <==> RouteReached(Healthy(pol), c, s)))
  }

  ghost predicate SameVerdict(pol: Policy, c: Caller, q: Request) {
    Permits(pol, c, q) <==> Permits(Healthy(pol), c, q)
  }

  /** Over every table of rows and every request the verdict is that of the stored
      memberships exactly when the failed reads hide nothing a row may name. */
  lemma VerdictUnaffectedIff(pol: Policy, c: Caller)
    requires pol.readable && (c.principal != "" || c.route != "")
    ensures (forall rows, q :: SameVerdict(WithRows(pol, rows), c, q)) <==> SameReading(pol, c)
  {
    if SameReading(pol, c) {
      forall rows, q ensures SameVerdict(WithRows(pol, rows), c, q) { SameReadingDecides(pol, c, rows, q); }
    } else {
      var s :| !(&& (Reached(pol, c, s) <==> Reached(Healthy(pol), c, s))
                 && (Reached(pol, c, s) ==> (RouteReached(pol, c, s) <==> RouteReached(Healthy(pol), c, s))));
      ReachesLess(pol, c, s);
      var q := Request("t", "**", map[]);
      if Reached(pol, c, s) {
        LostRouteShows(pol, c, s);
        assert !SameVerdict(WithRows(pol, [Probe(s, "t")]), c, q);
      } else {
        LostDenyShows(pol, c, s);
        assert !SameVerdict(WithRows(pol, [Probe(Kept(c), "t"), Ban(s, "t")]), c, q);
      }
    }
  }

  /** Reads that all answer hide nothing. */
  lemma AnsweredReadsHideNothing(pol: Policy, c: Caller)
    requires forall f | f in Frontier(c) :: !Blocked(pol.edges, f, DownFrom(pol, f))
    requires c.route != "" ==> !Blocked(pol.edges, FolderPrincipal(c.route), pol.routeDown)
    ensures SameReading(pol, c)
  {
    forall p
      ensures IsPrincipal(pol, c, p) <==> IsPrincipal(Healthy(pol), c, p)
      ensures OnRoute(pol, c, p) <==> OnRoute(Healthy(pol), c, p)
    {
      OnlyHides(pol, c, p);
    }
  }

  lemma SameReadingDecides(pol: Policy, c: Caller, rows: seq<Row>, q: Request)
    requires SameReading(pol, c)
    ensures SameVerdict(WithRows(pol, rows), c, q)
  {
    var t := WithRows(pol, rows);
    assert Healthy(t) == WithRows(Healthy(pol), rows);
    forall r | r in rows
      ensures Grants(t, c, r, q) <==> Grants(Healthy(t), c, r, q)
      ensures Forbids(t, c, r, q) <==> Forbids(Healthy(t), c, r, q)
    {
      SameReached(pol, rows, c, r.principal);
      SameReached(Healthy(pol), rows, c, r.principal);
    }
  }

  /** The principal no read can take from the caller. */
  function Kept(c: Caller): string { if c.route != "" then FolderPrincipal(c.route) else c.principal }

  function Ban(principal: string, action: string): Row { Row(principal, action, "**", "", "", "deny", false) }

  lemma KeptIsGranted(t: Policy, c: Caller, q: Request)
    requires Probe(Kept(c), "t") in t.rows && (c.principal != "" || c.route != "") && q == Request("t", "**", map[])
    ensures Grants(t, c, Probe(Kept(c), "t"), q)
  {
    var k := Kept(c);
    assert k in Frontier(c) by {
      assert Frontier(c)[if c.route != "" then |Frontier(c)| - 1 else 0] == k;
    }
    assert k != "" && Finds(t.edges, k, DownFrom(t, k), k);
    assert MatchPrincipal(k, k);
    if c.route != "" { assert OnRoute(t, c, k); }
    DoubleStarCoversAll("**");
  }

  lemma LostDenyShows(pol: Policy, c: Caller, s: string)
    requires pol.readable && (c.principal != "" || c.route != "")
    requires !Reached(pol, c, s) && Reached(Healthy(pol), c, s)
    ensures var t := WithRows(pol, [Probe(Kept(c), "t"), Ban(s, "t")]);
            Permits(t, c, Request("t", "**", map[])) && !Permits(Healthy(t), c, Request("t", "**", map[]))
  {
    var q, rows := Request("t", "**", map[]), [Probe(Kept(c), "t"), Ban(s, "t")];
    var t := WithRows(pol, rows);
    assert Healthy(t) == WithRows(Healthy(pol), rows);
    SameReached(pol, rows, c, s);
    SameReached(Healthy(pol), rows, c, s);
    KeptIsGranted(t, c, q);
    DoubleStarCoversAll("**");
    assert Forbids(Healthy(t), c, Ban(s, "t"), q);
    forall d | d in t.rows ensures !Forbids(t, c, d, q) {}
  }

  lemma LostRouteShows(pol: Policy, c: Caller, s: string)
    requires pol.readable && Reached(pol, c, s) && Reached(Healthy(pol), c, s)
    requires !RouteReached(pol, c, s) && RouteReached(Healthy(pol), c, s)
    ensures var t := WithRows(pol, [Probe(s, "t")]);
            !Permits(t, c, Request("t", "**", map[])) && Permits(Healthy(t), c, Request("t", "**", map[]))
  {
    var q, rows := Request("t", "**", map[]), [Probe(s, "t")];
    var t := WithRows(pol, rows);
    assert Healthy(t) == WithRows(Healthy(pol), rows);
    SameReached(pol, rows, c, s);
    SameReached(Healthy(pol), rows, c, s);
    DoubleStarCoversAll("**");
    assert c.route != "" && '*' in q.scope;
    assert Grants(Healthy(t), c, rows[0], q);
    forall r | r in t.rows ensures !Grants(t, c, r, q) {}
    forall r | r in t.rows ensures !Forbids(Healthy(t), c, r, q) {}
  }

  // ----- One request -----

  /** Some row grants the request. */
  ghost predicate Granted(pol: Policy, c: Caller, q: Request) {
    exists r | r in pol.rows :: Grants(pol, c, r, q)
  }

  /** For a tool, failed reads change the verdict in two ways only. They lose every deny
      that applies and keep a row that grants; or they lose every row that grants where no
      deny applies. */
  lemma ToolVerdictIff(pol: Policy, c: Caller, q: Request)
    requires "mcp:" <= q.action && pol.readable && (c.principal != "" || c.route != "")
    ensures var h := Healthy(pol);
            SameVerdict(pol, c, q) <==>
            && !(Granted(pol, c, q) && Denied(h, c, q) && !Denied(pol, c, q))
            && !(Granted(h, c, q) && !Denied(h, c, q) && !Granted(pol, c, q))
  {
    forall r | r in pol.rows
      ensures Grants(pol, c, r, q) ==> Grants(Healthy(pol), c, r, q)
      ensures Forbids(pol, c, r, q) ==> Forbids(Healthy(pol), c, r, q)
    {
      ReachesLess(pol, c, r.principal);
      if IdentityCovers(r.action, q.action) { ToolActions(r.action, q.action); }
    }
    assert q.action != "";
  }

  /** An allow held by name and a deny held through a role: when the role cannot be read,
      Authorize permits what the role denies, and Delegate hands it on. */
  lemma RoleDenyIsLost(pol: Policy, w: Row)
    requires pol == Policy([Row("u:g", "mcp:t", "a", "", "", "allow", true), Row("role:r", "mcp:t", "a", "", "", "deny", false)],
                           [Edge("u:g", "role:r")], true, {("u:g", "u:g")}, {})
    requires w == Row("u:x", "mcp:t", "a", "", "", "allow", false)
    ensures var q := Request("mcp:t", "a", map[]);
            Permits(pol, Granter("u:g"), q) && !Permits(Healthy(pol), Granter("u:g"), q)
    ensures Delegable(pol, pol.down, "u:g", [w]) && !Delegable(Healthy(pol), {}, "u:g", [w])
  {
    var h, d := pol.rows[0], pol.rows[1];
    HeldByName(pol, h);
    RoleIsHidden(pol, d);
    RoleIsRead(Healthy(pol), d);
    LostDenyPermits(pol, h, d);
    LostDenyDelegates(pol, h, d, w);
  }

  lemma LostDenyPermits(pol: Policy, h: Row, d: Row)
    requires pol.rows == [h, d] && pol.readable && h.effect == "allow" && d.effect == "deny"
    requires h.action == "mcp:t" == d.action && h.scope == "a" == d.scope && h.params == "" == d.params && h.claim == "" == d.claim
    requires Held(pol, "u:g", h) && !Held(pol, "u:g", d) && Held(Healthy(pol), "u:g", d)
    ensures Permits(pol, Granter("u:g"), Request("mcp:t", "a", map[]))
    ensures !Permits(Healthy(pol), Granter("u:g"), Request("mcp:t", "a", map[]))
  {
    var q, c := Request("mcp:t", "a", map[]), Granter("u:g");
    LiteralScope("a", "a");
    assert Grants(pol, c, h, q) && Forbids(Healthy(pol), c, d, q);
    assert forall r | r in pol.rows :: !Forbids(pol, c, r, q);
  }

  lemma LostDenyDelegates(pol: Policy, h: Row, d: Row, w: Row)
    requires pol.rows == [h, d] && pol.readable && Grantable(h) && d.effect == "deny"
    requires RowCovers(h, w) && d.action == w.action && d.scope == w.scope == "a" && w.effect == "allow" && '*' !in w.principal
    requires Held(pol, "u:g", h) && !Held(pol, "u:g", d) && Held(Healthy(pol), "u:g", d)
    ensures Delegable(pol, pol.down, "u:g", [w]) && !Delegable(Healthy(pol), {}, "u:g", [w])
  {
    assert h.effect != "deny" && MayDelegate(pol, pol.down, "u:g", w) by { assert Late(pol, pol.down) == pol; }
    LiteralScope("a", "a");
    MatchPatternIffCovers("a", "a");
    MayMeetSound("a", "a", "a");
    assert Overlaps(d, w) && w in [w] && Late(Healthy(pol), {}) == Healthy(pol);
    assert !MayDelegate(Healthy(pol), {}, "u:g", w);
  }

  lemma HeldByName(pol: Policy, h: Row)
    requires h in pol.rows && h.principal == "u:g"
    ensures Held(pol, "u:g", h)
  {
    assert Frontier(Granter("u:g"))[0] == "u:g" && Finds(pol.edges, "u:g", DownFrom(pol, "u:g"), "u:g");
  }

  lemma RoleIsHidden(pol: Policy, d: Row)
    requires pol.down == {("u:g", "u:g")} && d.principal == "role:r"
    ensures !Held(pol, "u:g", d)
  {
    var c := Granter("u:g");
    ReachesSelf(pol.edges, "u:g");
    assert ("u:g", "u:g") in pol.down && "u:g" in DownFrom(pol, "u:g");
    assert Frontier(c) == ["u:g"] && "role:r"[0] != "u:g"[0];
    assert '*' !in "role:r";
  }

  lemma RoleIsRead(pol: Policy, d: Row)
    requires pol.edges == [Edge("u:g", "role:r")] && pol.down == {} && d in pol.rows && d.principal == "role:r"
    ensures Held(pol, "u:g", d)
  {
    ReachesSelf(pol.edges, "u:g");
    ReachesParent(pol.edges, "u:g", pol.edges[0]);
    assert Frontier(Granter("u:g"))[0] == "u:g" && Finds(pol.edges, "u:g", DownFrom(pol, "u:g"), "role:r");
  }

  /** Allow and deny both held through one role: no failure that both of Delegate's reads
      meet lets the grant through, yet it goes through when only the deny read fails. */
  lemma RoleOnlyDenyIsLost(pol: Policy, denyDown: set<(string, string)>, w: Row)
    requires pol == Policy([Row("role:r", "mcp:t", "a", "", "", "allow", true), Row("role:r", "mcp:t", "a", "", "", "deny", false)],
                           [Edge("u:g", "role:r")], true, {}, {})
    requires denyDown == {("u:g", "u:g")} && w == Row("u:x", "mcp:t", "a", "", "", "allow", false)
    ensures Delegable(pol, denyDown, "u:g", [w])
    ensures !Permits(pol, Granter("u:g"), Request("mcp:t", "a", map[]))
    ensures forall both :: !Delegable(pol.(down := both), both, "u:g", [w])
  {
    var h, d := pol.rows[0], pol.rows[1];
    RoleIsRead(pol, h);
    RoleIsRead(pol, d);
    RoleIsHidden(Late(pol, denyDown), h);
    RoleIsHidden(Late(pol, denyDown), d);
    HiddenDenyDelegates(pol, denyDown, h, d, w);
    LiteralScope("a", "a");
    assert Forbids(pol, Granter("u:g"), d, Request("mcp:t", "a", map[]));
    SameRowMeets(d, w);
    forall both ensures !Delegable(pol.(down := both), both, "u:g", [w]) { OneFateIsRefused(pol, both, h, d, w); }
  }

  lemma HiddenDenyDelegates(pol: Policy, denyDown: set<(string, string)>, h: Row, d: Row, w: Row)
    requires pol.rows == [h, d] && pol.readable && Held(pol, "u:g", h) && Grantable(h) && RowCovers(h, w)
    requires !Held(Late(pol, denyDown), "u:g", d) && w.effect == "allow" && '*' !in w.principal
    ensures Delegable(pol, denyDown, "u:g", [w])
  {
    assert h.effect != "deny" && MayDelegate(pol, denyDown, "u:g", w);
  }

  lemma SameRowMeets(d: Row, w: Row)
    requires d.action == w.action && d.scope == w.scope == "a"
    ensures Overlaps(d, w)
  {
    LiteralScope("a", "a");
    MatchPatternIffCovers("a", "a");
    MayMeetSound("a", "a", "a");
  }

  lemma OneFateIsRefused(pol: Policy, both: set<(string, string)>, h: Row, d: Row, w: Row)
    requires pol.rows == [h, d] && h.principal == d.principal && h.effect == "allow" && d.effect == "deny" && Overlaps(d, w)
    ensures !Delegable(pol.(down := both), both, "u:g", [w])
  {
    var t := pol.(down := both);
    assert Late(t, both) == t && w in [w];
    assert Held(t, "u:g", h) <==> Held(t, "u:g", d);
  }

  /** A delegation judged while reads fail, in either walk, hands out a request the granter
      does not hold exactly when a deny of the granter for it was hidden from the deny
      read. */
  lemma DelegationSoundIff(pol: Policy, denyDown: set<(string, string)>, granter: string, want: seq<Row>, w: Row, q: Request,
                           claims: map<string, string>)
    requires Delegable(pol, denyDown, granter, want) && w in want && granter != "" && q.action != ""
    requires RowConfers(w, q, claims) && (ActionCovers(w.action, q.action) || "mcp:" <= q.action)
    ensures var c := Caller(granter, claims, [], "");
            Permits(Healthy(pol), c, q) <==>
            !exists d | d in pol.rows :: Forbids(Healthy(pol), c, d, q) && !Held(Late(pol, denyDown), granter, d)
  {
    var c := Caller(granter, claims, [], "");
    DelegationIsSound(pol, denyDown, granter, want, w, q, claims);
    SamePrincipals(Late(pol, denyDown), granter, claims);
    var r :| r in pol.rows && Grantable(r) && Grants(pol, c, r, q);
    ReachesLess(pol, c, r.principal);
    assert Grants(Healthy(pol), c, r, q);
    forall d | d in pol.rows && Held(Late(pol, denyDown), granter, d)
      ensures Forbids(Healthy(pol), c, d, q) ==> Forbids(Late(pol, denyDown), c, d, q)
    {}
  }
}
