/** auth/delegate.go: the syntactic subset check on grants, and why it is enough
    for the evaluator. */
module Delegation {
  import opened Text
  import opened Globs
  import opened PathMatch
  import opened Acl
  import opened Authorization
  import opened Axes

  // ----- Scopes -----

  predicate EndsInSubtree(scope: string) { |scope| >= 3 && scope[|scope| - 3..] == "/**" }

  /** scopeCovers: held spans want, provably. */
  predicate ScopeCovers(held: string, want: string) {
    if held == want || held == "**" then true
    else if EndsInSubtree(held) then Contains(held[..|held| - 3], want)
    else Literal(want) && MatchPattern(held, want)
  }

  /** Whatever the wanted glob covers, the held one covers. */
  lemma ScopeCoversSound(held: string, want: string, path: string)
    requires ScopeCovers(held, want) && Covers(want, path)
    ensures Covers(held, path)
  {
    if held == want {
    } else if held == "**" {
      DoubleStarCoversAll(path);
    } else if EndsInSubtree(held) {
      var base := held[..|held| - 3];
      assert held == base + "/**";
      SubtreeCovers(base, want, path);
    } else {
      MatchPatternIffCovers(want, path);
      LiteralScope(want, path);
      MatchPatternIffCovers(held, want);
    }
  }

  predicate SegmentsMayMeet(a: seq<string>, b: seq<string>) {
    if a == [] || b == [] then |a| == |b| || "**" in a || "**" in b
    else if a[0] == "**" || b[0] == "**" then true
    else if Literal(a[0]) && Literal(b[0]) && a[0] != b[0] then false
    else SegmentsMayMeet(a[1..], b[1..])
  }

  predicate MayMeet(a: string, b: string) {
    SegmentsMayMeet(Split(a, '/'), Split(b, '/'))
  }

  /** mayMeet as it is written: one index over both globs. */
  method MayMeetLoop(a: string, b: string) returns (meet: bool)
    ensures meet <==> MayMeet(a, b)
  {
    var s, t := Split(a, '/'), Split(b, '/');
    var i := 0;
    while i < |s| && i < |t|
      invariant i <= |s| && i <= |t|
      invariant MayMeet(a, b) <==> SegmentsMayMeet(s[i..], t[i..])
      invariant "**" !in s[..i] && "**" !in t[..i]
    {
      if s[i] == "**" || t[i] == "**" {
        return true;
      }
      if Literal(s[i]) && Literal(t[i]) && s[i] != t[i] {
        return false;
      }
      NextSegment(s, i);
      NextSegment(t, i);
      i := i + 1;
    }
    StarLeft(s, i);
    StarLeft(t, i);
    return |s| == |t| || "**" in s || "**" in t;
  }

  lemma NextSegment(s: seq<string>, i: nat)
    requires i < |s| && "**" !in s[..i] && s[i] != "**"
    ensures s[i..][1..] == s[i + 1..] && "**" !in s[..i + 1]
  {
    assert s[..i + 1] == s[..i] + [s[i]];
  }

  lemma StarLeft(s: seq<string>, i: nat)
    requires i <= |s| && "**" !in s[..i]
    ensures "**" in s <==> "**" in s[i..]
  {
    assert s == s[..i] + s[i..];
  }

  /** The answer false is a proof: no path is covered by both globs. */
  lemma MayMeetSound(a: string, b: string, path: string)
    requires Covers(a, path) && Covers(b, path)
    ensures MayMeet(a, b)
  {
    SegmentsMeet(Split(a, '/'), Split(b, '/'), Split(path, '/'));
  }

  lemma {:induction false} SegmentsMeet(a: seq<string>, b: seq<string>, s: seq<string>)
    requires Reads(DoubleStar, SegmentTakes, a, s) && Reads(DoubleStar, SegmentTakes, b, s)
    ensures SegmentsMayMeet(a, b)
    decreases |a|
  {
    if a == [] || b == [] {
      if "**" !in a && "**" !in b {
        PrefixAligns(DoubleStar, SegmentTakes, a, s, |a|);
        PrefixAligns(DoubleStar, SegmentTakes, b, s, |b|);
      }
    } else if a[0] != "**" && b[0] != "**" {
      ReadsOne(DoubleStar, SegmentTakes, a, s);
      ReadsOne(DoubleStar, SegmentTakes, b, s);
      if Literal(a[0]) { LiteralSegment(a[0], s[0]); }
      if Literal(b[0]) { LiteralSegment(b[0], s[0]); }
      SegmentsMeet(a[1..], b[1..], s[1..]);
    }
  }

  // ----- Actions -----

  lemma ActionCoversTransitive(a: string, b: string, c: string)
    requires ActionCovers(a, b) && ActionCovers(b, c)
    ensures ActionCovers(a, c)
  {
    assert "mcp:*"[..4] == "mcp:";
    assert "*"[0] != "mcp:"[0] && "admin"[0] != "mcp:"[0] && "interact"[0] != "mcp:"[0];
  }

  /** Two rows that cover one action are comparable. */
  lemma ActionsLaminar(a: string, b: string, c: string)
    requires ActionCovers(a, c) && ActionCovers(b, c)
    ensures ActionCovers(a, b) || ActionCovers(b, a)
  {
    assert "mcp:*"[..4] == "mcp:";
  }

  // ----- Rows -----

  predicate ParamsCover(held: string, want: string) { held == "" || held == want }

  predicate Grantable(r: Row) {
    r.grantOption && r.claim == "" && (r.effect == "" || r.effect == "allow")
  }

  predicate RowCovers(h: Row, w: Row) {
    ActionCovers(h.action, w.action) && ScopeCovers(h.scope, w.scope) && ParamsCover(h.params, w.params)
  }

  predicate Overlaps(d: Row, w: Row) {
    (ActionCovers(d.action, w.action) || ActionCovers(w.action, d.action)) && MayMeet(d.scope, w.scope)
  }

  function Granter(name: string): Caller { Caller(name, map[], [], "") }

  ghost predicate Held(pol: Policy, granter: string, h: Row) {
    Reaching(pol, Granter(granter), h)
  }

  /** The same tables as the second read sees them: Delegate reads the granter's policy
      once for what it may grant and once for what it is denied, and the walks of the
      two fail apart. */
  function Late(pol: Policy, denyDown: set<(string, string)>): Policy { pol.(down := denyDown) }

  /** What Delegate asks of one wanted row. */
  ghost predicate MayDelegate(pol: Policy, denyDown: set<(string, string)>, granter: string, w: Row) {
    && w.effect != "deny"
    && '*' !in w.principal
    && (exists h | h in pol.rows :: Held(pol, granter, h) && Grantable(h) && RowCovers(h, w))
    && (forall d | d in pol.rows :: Held(Late(pol, denyDown), granter, d) && d.effect == "deny" ==> !Overlaps(d, w))
  }

  ghost predicate Delegable(pol: Policy, denyDown: set<(string, string)>, granter: string, want: seq<Row>) {
    pol.readable && forall w | w in want :: MayDelegate(pol, denyDown, granter, w)
  }

  datatype Reason = DenyRow | WildcardPrincipal | NotHeld | OwnDeny

  datatype Answer = Allowed | Unreadable | RefusedRow(index: nat, why: Reason)

  method GrantableRows(rows: seq<Row>) returns (out: seq<Row>)
    ensures forall r :: r in out <==> r in rows && Grantable(r)
  {
    out := [];
    for i := 0 to |rows|
      invariant forall r :: r in out <==> r in rows[..i] && Grantable(r)
    {
      assert rows[..i + 1] == rows[..i] + [rows[i]];
      if Grantable(rows[i]) {
        out := out + [rows[i]];
      }
    }
    assert rows[..|rows|] == rows;
  }

  method DenyRows(rows: seq<Row>) returns (out: seq<Row>)
    ensures forall r :: r in out <==> r in rows && r.effect == "deny"
  {
    out := [];
    for i := 0 to |rows|
      invariant forall r :: r in out <==> r in rows[..i] && r.effect == "deny"
    {
      assert rows[..i + 1] == rows[..i] + [rows[i]];
      if rows[i].effect == "deny" {
        out := out + [rows[i]];
      }
    }
    assert rows[..|rows|] == rows;
  }

  method CoveredByGrantable(held: seq<Row>, w: Row) returns (covered: bool)
    ensures covered <==> exists h | h in held :: RowCovers(h, w)
  {
    for i := 0 to |held|
      invariant forall k | 0 <= k < i :: !RowCovers(held[k], w)
    {
      if RowCovers(held[i], w) {
        return true;
      }
    }
    return false;
  }

  method BlockedByDeny(denies: seq<Row>, w: Row) returns (blocked: bool)
    ensures blocked <==> exists d | d in denies :: Overlaps(d, w)
  {
    for i := 0 to |denies|
      invariant forall k | 0 <= k < i :: !Overlaps(denies[k], w)
    {
      if Overlaps(denies[i], w) {
        return true;
      }
    }
    return false;
  }

  /** Delegate: every wanted row passes, or the answer names the first that does not.
      `late` says whether the acl read answers the second time too. */
  method Delegate(pol: Policy, denyDown: set<(string, string)>, late: bool, granter: string, want: seq<Row>) returns (a: Answer)
    ensures a.Allowed? <==> late && Delegable(pol, denyDown, granter, want)
    ensures a.Unreadable? <==> !pol.readable || !late
    ensures a.RefusedRow? ==> a.index < |want| && !MayDelegate(pol, denyDown, granter, want[a.index])
                              && Delegable(pol, denyDown, granter, want[..a.index])
  {
    var first := PolicyRows(pol, Granter(granter));
    if first.Refused? {
      return Unreadable;
    }
    var held := GrantableRows(first.value);
    var second := PolicyRows(Late(pol, denyDown).(readable := late), Granter(granter));
    if second.Refused? {
      return Unreadable;
    }
    var denies := DenyRows(second.value);
    SameHeld(pol, denyDown, late, granter);
    for i := 0 to |want|
      invariant Delegable(pol, denyDown, granter, want[..i])
    {
      var w := want[i];
      assert want[..i + 1] == want[..i] + [w];
      if w.effect == "deny" {
        assert w in want && !MayDelegate(pol, denyDown, granter, w);
        return RefusedRow(i, DenyRow);
      }
      if '*' in w.principal {
        return RefusedRow(i, WildcardPrincipal);
      }
      var covered := CoveredByGrantable(held, w);
      var blocked := BlockedByDeny(denies, w);
      RowsDecide(pol, denyDown, granter, first.value, second.value, held, denies, w);
      if !covered {
        return RefusedRow(i, NotHeld);
      }
      if blocked {
        return RefusedRow(i, OwnDeny);
      }
    }
    assert want[..|want|] == want;
    return Allowed;
  }

  lemma SameHeld(pol: Policy, denyDown: set<(string, string)>, late: bool, granter: string)
    ensures forall r :: Reaching(Late(pol, denyDown).(readable := late), Granter(granter), r) <==> Held(Late(pol, denyDown), granter, r)
  {
    var a, b := Late(pol, denyDown).(readable := late), Late(pol, denyDown);
    forall f ensures DownFrom(a, f) == DownFrom(b, f) {}
    forall p ensures IsPrincipal(a, Granter(granter), p) <==> IsPrincipal(b, Granter(granter), p) {}
  }

  lemma RowsDecide(pol: Policy, denyDown: set<(string, string)>, granter: string, first: seq<Row>, second: seq<Row>,
                   held: seq<Row>, denies: seq<Row>, w: Row)
    requires forall row :: row in first <==> Held(pol, granter, row)
    requires forall row :: row in second <==> Held(Late(pol, denyDown), granter, row)
    requires forall r :: r in held <==> r in first && Grantable(r)
    requires forall r :: r in denies <==> r in second && r.effect == "deny"
    ensures MayDelegate(pol, denyDown, granter, w) <==>
            && w.effect != "deny" && '*' !in w.principal
            && (exists h | h in held :: RowCovers(h, w))
            && !(exists d | d in denies :: Overlaps(d, w))
  {
    if h :| h in held && RowCovers(h, w) { assert Held(pol, granter, h) && h in pol.rows; }
    if h :| h in pol.rows && Held(pol, granter, h) && Grantable(h) && RowCovers(h, w) { assert h in held; }
    if d :| d in denies && Overlaps(d, w) { assert Held(Late(pol, denyDown), granter, d) && d in pol.rows; }
    if d :| d in pol.rows && Held(Late(pol, denyDown), granter, d) && d.effect == "deny" && Overlaps(d, w) { assert d in denies; }
  }

  // ----- Soundness for the evaluator -----

  /** What a row confers by itself, on either axis. */
  predicate RowConfers(r: Row, q: Request, claims: map<string, string>) {
    RowApplies(r, q, claims) && (ActionCovers(r.action, q.action) || IdentityCovers(r.action, q.action))
  }

  /** A covering row confers whatever the covered one confers. */
  lemma CoveringRowConfers(h: Row, w: Row, q: Request, claims: map<string, string>)
    requires RowCovers(h, w) && h.claim == "" && RowConfers(w, q, claims)
    ensures RowConfers(h, q, claims)
    ensures ActionCovers(w.action, q.action) ==> ActionCovers(h.action, q.action)
  {
    MatchPatternIffCovers(w.scope, q.scope);
    ScopeCoversSound(h.scope, w.scope, q.scope);
    MatchPatternIffCovers(h.scope, q.scope);
    if ActionCovers(w.action, q.action) {
      ActionCoversTransitive(h.action, w.action, q.action);
    } else if h.action != w.action {
      assert w.action == "mcp:*" ==> "mcp:" <= q.action by { NamespaceOf(w.action, q.action); }
      NamespaceOf(w.action, q.action);
    }
  }

  lemma NamespaceOf(rowAction: string, requested: string)
    requires IdentityCovers(rowAction, requested) && rowAction != requested
    ensures "mcp:" <= rowAction ==> "mcp:" <= requested
    ensures rowAction != "interact"
  {
    var ns := Cut(requested, ':');
    assert rowAction == ns.before + ":*" && rowAction[|rowAction| - 1] == '*';
    assert "interact"[7] == 't';
    if "mcp:" <= rowAction {
      ToolNamespace(ns.before);
      assert requested == ns.before + [':'] + ns.after;
    }
  }

  lemma ToolNamespace(ns: string)
    requires ':' !in ns && "mcp:" <= ns + ":*"
    ensures ns == "mcp"
  {
    var s := ns + ":*";
    assert s[3] == "mcp:"[3] && s[|ns|] == ':';
    assert s[0] == "mcp:"[0] && s[1] == "mcp:"[1] && s[2] == "mcp:"[2];
  }

  /** Delegation is sound: any request a delegable row allows, through the action
      lattice or for any tool on either axis, some row that the granter may hand on
      grants the granter too, and no deny the check could see forbids it. When both reads
      see the same, Authorize already allows it. */
  lemma DelegationIsSound(pol: Policy, denyDown: set<(string, string)>, granter: string, want: seq<Row>, w: Row, q: Request,
                          claims: map<string, string>)
    requires Delegable(pol, denyDown, granter, want) && w in want
    requires granter != "" && q.action != ""
    requires RowConfers(w, q, claims) && (ActionCovers(w.action, q.action) || "mcp:" <= q.action)
    ensures var c := Caller(granter, claims, [], "");
            && (exists h | h in pol.rows :: Grantable(h) && Grants(pol, c, h, q))
            && !Denied(Late(pol, denyDown), c, q)
            && (denyDown == pol.down ==> Permits(pol, c, q))
  {
    var c := Caller(granter, claims, [], "");
    SamePrincipals(pol, granter, claims);
    SamePrincipals(Late(pol, denyDown), granter, claims);
    if IdentityCovers(w.action, q.action) && "mcp:" <= q.action { ToolActions(w.action, q.action); }
    var h :| h in pol.rows && Held(pol, granter, h) && Grantable(h) && RowCovers(h, w);
    CoveringRowConfers(h, w, q, claims);
    assert Grants(pol, c, h, q);
    forall d | d in pol.rows && Forbids(Late(pol, denyDown), c, d, q) ensures false {
      assert Held(Late(pol, denyDown), granter, d);
      SeenDenyIsApart(d, w, q, claims);
    }
    assert denyDown == pol.down ==> Late(pol, denyDown) == pol;
  }

  /** A deny on a request the row allows overlaps the row. */
  lemma SeenDenyIsApart(d: Row, w: Row, q: Request, claims: map<string, string>)
    requires RowApplies(d, q, claims) && RowApplies(w, q, claims)
    requires ActionCovers(d.action, q.action) && ActionCovers(w.action, q.action)
    ensures Overlaps(d, w)
  {
    ActionsLaminar(d.action, w.action, q.action);
    MatchPatternIffCovers(d.scope, q.scope);
    MatchPatternIffCovers(w.scope, q.scope);
    MayMeetSound(d.scope, w.scope, q.scope);
  }

  /** Claims and routes aside, a caller is its principals. */
  lemma SamePrincipals(pol: Policy, granter: string, claims: map<string, string>)
    ensures forall r :: Reaching(pol, Caller(granter, claims, [], ""), r) <==> Held(pol, granter, r)
  {
    var c := Caller(granter, claims, [], "");
    assert Frontier(c) == [granter] && Frontier(Granter(granter)) == [granter];
    forall p ensures IsPrincipal(pol, c, p) <==> IsPrincipal(pol, Granter(granter), p) {}
  }

  /** Nobody delegates without a name. */
  lemma NamelessDelegatesNothing(pol: Policy, denyDown: set<(string, string)>, want: seq<Row>)
    requires Stored(pol) && want != []
    ensures !Delegable(pol, denyDown, "", want)
  {
    assert Frontier(Granter("")) == [""];
    forall p | IsPrincipal(pol, Granter(""), p) ensures false {
      ReachesStored(pol, "", p);
    }
    assert want[0] in want;
    forall r ensures !Held(pol, "", r) {}
  }

  /** An operator's row delegates anything a delegation may name. */
  lemma OperatorDelegatesAnything(pol: Policy, denyDown: set<(string, string)>, granter: string, h: Row, w: Row)
    requires Held(pol, granter, h) && Grantable(h) && h.action == "*" && h.scope == "**" && h.params == ""
    requires forall d | d in pol.rows && Held(Late(pol, denyDown), granter, d) :: d.effect != "deny"
    requires w.effect != "deny" && '*' !in w.principal
    ensures MayDelegate(pol, denyDown, granter, w)
  {
    assert RowCovers(h, w);
  }

  // ----- Runs of grants -----

  /** One attempt, and the membership reads that fail in either walk while it is judged. */
  datatype Grant = Grant(granter: string, row: Row, down: set<(string, string)>, denyDown: set<(string, string)>)

  /** GrantDefaults: what the writer fills in, before Delegate judges the row. */
  function Defaults(r: Row): Row {
    r.(action := if r.action == "" then "admin" else r.action,
       effect := if r.effect == "" then "allow" else r.effect)
  }

  /** The six fields that address a stored row. */
  function Coordinate(r: Row): Row { r.(grantOption := false) }

  predicate Storable(r: Row) {
    r.principal != "" && r.action != "" && r.scope != "" && r.effect in {"allow", "deny"}
  }

  /** The create-if-absent write: a re-grant leaves the stored row as it is. */
  function AddRow(pol: Policy, r: Row): Policy {
    if !Storable(r) || exists s | s in pol.rows :: Coordinate(s) == Coordinate(r) then pol
    else pol.(rows := pol.rows + [r])
  }

  ghost function Give(pol: Policy, g: Grant): Policy {
    var r := Defaults(g.row);
    if Delegable(pol.(down := g.down), g.denyDown, g.granter, [r]) then AddRow(pol, r) else pol
  }

  /** Any number of attempts to grant, by anyone, in order, whatever reads fail. */
  ghost function GiveAll(seed: Policy, gs: seq<Grant>): Policy {
    if gs == [] then seed else Give(GiveAll(seed, gs[..|gs| - 1]), gs[|gs| - 1])
  }

  /** No run amplifies authority: whatever a delegated row confers, a seed row with
      the grant option already conferred. */
  lemma {:induction false} NoRunAmplifies(seed: Policy, gs: seq<Grant>, r: Row, q: Request, claims: map<string, string>)
    requires r in GiveAll(seed, gs).rows && r !in seed.rows && RowConfers(r, q, claims)
    ensures exists h | h in seed.rows :: Grantable(h) && RowConfers(h, q, claims)
    decreases |gs|
  {
    var before, last := gs[..|gs| - 1], gs[|gs| - 1];
    var pol := GiveAll(seed, before);
    if r in pol.rows {
      NoRunAmplifies(seed, before, r, q, claims);
    } else {
      var seen := pol.(down := last.down);
      assert r in [Defaults(last.row)] && MayDelegate(seen, last.denyDown, last.granter, r);
      var h :| h in pol.rows && Held(seen, last.granter, h) && Grantable(h) && RowCovers(h, r);
      CoveringRowConfers(h, r, q, claims);
      if h !in seed.rows {
        NoRunAmplifies(seed, before, h, q, claims);
      }
    }
  }

  lemma {:induction false} RunsKeepTheSeed(seed: Policy, gs: seq<Grant>)
    ensures var pol := GiveAll(seed, gs);
            && pol.edges == seed.edges && pol.readable == seed.readable
            && pol.down == seed.down && pol.routeDown == seed.routeDown
            && (forall r | r in seed.rows :: r in pol.rows)
            && (forall r | r in pol.rows && r !in seed.rows :: r.effect == "allow")
    decreases |gs|
  {
    if gs != [] {
      var before, last := gs[..|gs| - 1], gs[|gs| - 1];
      RunsKeepTheSeed(seed, before);
      var pol, r := GiveAll(seed, before), Defaults(last.row);
      var seen := pol.(down := last.down);
      if Delegable(seen, last.denyDown, last.granter, [r]) {
        assert r in [r] && MayDelegate(seen, last.denyDown, last.granter, r);
      }
    }
  }

  /** So nobody, on either axis, is ever permitted anything that no seed row conferred,
      and whoever a seed row denied stays denied. */
  lemma NobodyGainsBeyondTheSeed(seed: Policy, gs: seq<Grant>, c: Caller, q: Request)
    ensures Permits(GiveAll(seed, gs), c, q) ==>
              exists h | h in seed.rows :: h.effect != "deny" && RowConfers(h, q, c.claims)
    ensures Denied(seed, c, q) ==> !Permits(GiveAll(seed, gs), c, q)
  {
    var pol := GiveAll(seed, gs);
    RunsKeepTheSeed(seed, gs);
    if Permits(pol, c, q) {
      var r :| r in pol.rows && Grants(pol, c, r, q);
      assert RowConfers(r, q, c.claims);
      if r !in seed.rows { NoRunAmplifies(seed, gs, r, q, c.claims); }
    }
    if Denied(seed, c, q) {
      var d :| d in seed.rows && Forbids(seed, c, d, q);
      SameReach(seed, pol, c, d);
      assert Forbids(pol, c, d, q);
    }
  }

  lemma SameReach(a: Policy, b: Policy, c: Caller, r: Row)
    requires a.edges == b.edges && a.down == b.down && a.routeDown == b.routeDown && r in a.rows && r in b.rows
    ensures Reaching(a, c, r) <==> Reaching(b, c, r)
  {
    forall f ensures DownFrom(a, f) == DownFrom(b, f) {}
    forall p ensures IsPrincipal(a, c, p) <==> IsPrincipal(b, c, p) {}
  }
}
