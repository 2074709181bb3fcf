/** What auth/authorize.go decides, said once more without its own tests: a scope covers,
    a pattern spells, an action lies under another. The evaluator is proved to decide
    exactly this. */
module Verdicts {
  import opened Text
  import opened Globs
  import opened PathMatch
  import opened Acl
  import opened Params
  import opened Authorization

  // ----- Who a row's principal names -----

  /** The principal itself, everyone, or whoever's namespace the namespace spells and
      whose rest the rest covers. */
  ghost predicate NamesPrincipal(pattern: string, p: string) {
    || pattern == p
    || pattern == "**"
    || (var pat, name := Cut(pattern, ':'), Cut(p, ':'); Spells(pat.before, name.before) && Covers(pat.after, name.after))
  }

  lemma MatchPrincipalIff(pattern: string, p: string)
    ensures MatchPrincipal(pattern, p) <==> NamesPrincipal(pattern, p)
  {
    var pat, name := Cut(pattern, ':'), Cut(p, ':');
    SegGlobIffSpells(pat.before, name.before);
    MatchPatternIffCovers(pat.after, name.after);
    LiteralScope("", "");
    MatchPatternIffCovers("", "");
  }

  /** A row for `ns:g` names that principal and the members of the namespace whose rest
      `g` covers, and nobody of another namespace. */
  lemma NamespacePattern(ns: string, g: string, p: string)
    requires ':' !in ns && '*' !in ns
    ensures MatchPrincipal(ns + ":" + g, p) <==>
            p == ns + ":" + g || (Cut(p, ':').before == ns && Covers(g, Cut(p, ':').after))
  {
    assert ns + ":" + g == ns + [':'] + g && ':' in ns + ":" + g && ':' !in "**";
    CutJoined(ns, ':', g);
    MatchPrincipalIff(ns + ":" + g, p);
    StarFreeSpells(ns, Cut(p, ':').before);
  }

  ghost predicate ReachedMeans(pol: Policy, c: Caller, s: string) {
    IsPrincipal(pol, c, s) || ('*' in s && exists p | IsPrincipal(pol, c, p) :: NamesPrincipal(s, p))
  }

  ghost predicate OnRouteMeans(pol: Policy, c: Caller, s: string) {
    exists p | OnRoute(pol, c, p) :: NamesPrincipal(s, p)
  }

  lemma ReachedIffMeans(pol: Policy, c: Caller, s: string)
    ensures Reached(pol, c, s) <==> ReachedMeans(pol, c, s)
    ensures RouteReached(pol, c, s) <==> OnRouteMeans(pol, c, s)
  {
    forall p ensures MatchPrincipal(s, p) <==> NamesPrincipal(s, p) { MatchPrincipalIff(s, p); }
  }

  /** Where a caller's principals start: its name, its extras, its route's folder. */
  predicate StartsFrom(c: Caller, f: string) {
    f == c.principal || f in c.extra || (c.route != "" && f == "folder:" + c.route)
  }

  /** A walk finds its start, and what lies above it unless a read on the way fails. */
  ghost predicate WalkFinds(edges: seq<Edge>, start: string, down: iset<string>, p: string) {
    p == start || (Reaches(edges, start, p) && forall node | Reaches(edges, start, node) :: node !in down)
  }

  ghost function DownAt(pol: Policy, start: string): iset<string> { iset node: string | (start, node) in pol.down }

  /** A caller is where it starts and every role a walk from there finds. */
  lemma PrincipalIff(pol: Policy, c: Caller, p: string)
    ensures IsPrincipal(pol, c, p) <==> p != "" && exists f | StartsFrom(c, f) :: WalkFinds(pol.edges, f, DownAt(pol, f), p)
    ensures OnRoute(pol, c, p) <==>
            c.route != "" && WalkFinds(pol.edges, "folder:" + c.route, (iset node | node in pol.routeDown), p)
  {
    forall f
      ensures f in Frontier(c) <==> StartsFrom(c, f)
      ensures Finds(pol.edges, f, DownFrom(pol, f), p) <==> WalkFinds(pol.edges, f, DownAt(pol, f), p)
    {
      FrontierIff(c, f);
      WalkIff(pol, f, p);
    }
  }

  lemma FrontierIff(c: Caller, f: string)
    ensures f in Frontier(c) <==> StartsFrom(c, f)
  {
    assert Frontier(c)[0] == c.principal;
  }

  lemma WalkIff(pol: Policy, f: string, p: string)
    ensures Finds(pol.edges, f, DownFrom(pol, f), p) <==> WalkFinds(pol.edges, f, DownAt(pol, f), p)
  {
    forall node ensures node in DownFrom(pol, f) <==> node in DownAt(pol, f) {
      if (f, node) in pol.down { assert (f, node).0 == f && (f, node).1 == node; }
    }
  }

  /** The row's principal is the caller's own, or stands for a member of its namespace
      that the caller is. */
  ghost predicate MemberReached(pol: Policy, c: Caller, ns: string, g: string) {
    || IsPrincipal(pol, c, ns + ":" + g)
    || ('*' in g && exists p | IsPrincipal(pol, c, p) :: Cut(p, ':').before == ns && Covers(g, Cut(p, ':').after))
  }

  /** A namespace row grants and forbids only those it reaches, and it reaches exactly the
      members its rest covers. */
  lemma NamespaceRowReaches(pol: Policy, c: Caller, r: Row, q: Request, ns: string, g: string)
    requires ':' !in ns && '*' !in ns && r.principal == ns + ":" + g && r in pol.rows
    ensures Reaching(pol, c, r) <==> MemberReached(pol, c, ns, g)
    ensures Grants(pol, c, r, q) || Forbids(pol, c, r, q) ==> MemberReached(pol, c, ns, g)
  {
    assert '*' in r.principal <==> '*' in g;
    forall p ensures MatchPrincipal(r.principal, p) <==> p == r.principal || (Cut(p, ':').before == ns && Covers(g, Cut(p, ':').after)) {
      NamespacePattern(ns, g, p);
    }
  }

  /** So a table of one namespace row permits nothing to a caller outside the namespace. */
  lemma StrangersAreRefused(pol: Policy, c: Caller, r: Row, q: Request, ns: string, g: string)
    requires ':' !in ns && '*' !in ns && r.principal == ns + ":" + g && pol.rows == [r]
    requires forall p | IsPrincipal(pol, c, p) :: Cut(p, ':').before != ns
    ensures !Permits(pol, c, q)
  {
    NamespaceRowReaches(pol, c, r, q, ns, g);
    assert ns + ":" + g == ns + [':'] + g;
    CutJoined(ns, ':', g);
  }

  // ----- What a row says -----

  /** A clause of a rule: a bare name asks for the value to be there (and, of a claim, not
      to be empty), `name=glob` for a value the glob spells; spaces around either part do
      not count, and an empty clause asks for nothing. */
  ghost predicate Says(clause: string, values: map<string, string>, claim: bool) {
    var part := TrimSpace(clause);
    || part == ""
    || ('=' !in part && part in values && (claim ==> values[part] != ""))
    || exists k: string, v: string ::
         part == k + "=" + v && '=' !in k && TrimSpace(k) in values && Spells(TrimSpace(v), values[TrimSpace(k)])
  }

  ghost predicate SaysAll(spec: string, values: map<string, string>, claim: bool) {
    forall clause | clause in Split(spec, ',') :: Says(clause, values, claim)
  }

  lemma ClauseIffSays(clause: string, values: map<string, string>)
    ensures ClauseHolds(clause, values) <==> Says(clause, values, false)
    ensures ClaimHolds(clause, values) <==> Says(clause, values, true)
  {
    var part := TrimSpace(clause);
    var h := Cut(part, '=');
    if h.found {
      var k, v := TrimSpace(h.before), TrimSpace(h.after);
      assert part == h.before + "=" + h.after;
      if k in values { SegGlobIffSpells(v, values[k]); }
      forall k: string, v: string | part == k + "=" + v && '=' !in k ensures k == h.before && v == h.after {
        assert part == k + ['='] + v;
        CutJoined(k, '=', v);
      }
    } else {
      forall k: string, v: string ensures part != k + "=" + v { assert (k + "=" + v)[|k|] == '='; }
    }
  }

  lemma SpecIffSays(spec: string, values: map<string, string>)
    ensures ParamsMatch(spec, values) <==> SaysAll(spec, values, false)
    ensures PredicateMatches(spec, values) <==> SaysAll(spec, values, true)
  {
    forall clause | clause in Split(spec, ',')
      ensures ClauseHolds(clause, values) <==> Says(clause, values, false)
      ensures ClaimHolds(clause, values) <==> Says(clause, values, true)
    {
      ClauseIffSays(clause, values);
    }
  }

  /** The row speaks of the target, the caller's claims and the call's arguments. */
  ghost predicate RowSpeaks(r: Row, q: Request, claims: map<string, string>) {
    Covers(r.scope, q.scope) && SaysAll(r.claim, claims, true) && SaysAll(r.params, q.params, false)
  }

  lemma RowAppliesIff(r: Row, q: Request, claims: map<string, string>)
    ensures RowApplies(r, q, claims) <==> RowSpeaks(r, q, claims)
  {
    MatchPatternIffCovers(r.scope, q.scope);
    SpecIffSays(r.claim, claims);
    SpecIffSays(r.params, q.params);
  }

  // ----- Actions and folders -----

  /** One step down: `*` stands over everything, `admin` over talking and over every tool,
      the tool wildcard over each tool. */
  predicate StandsOver(a: string, b: string) {
    || a == "*"
    || (a == "admin" && b in {"interact", "mcp:*"})
    || (a == "mcp:*" && "mcp:" <= b)
  }

  /** The action or one below it. */
  ghost predicate Under(a: string, b: string) {
    a == b || StandsOver(a, b) || exists m: string :: StandsOver(a, m) && StandsOver(m, b)
  }

  lemma ActionCoversIff(a: string, b: string)
    ensures ActionCovers(a, b) <==> Under(a, b)
  {
    assert "mcp:*"[..4] == "mcp:" && "interact"[0] != "mcp:"[0] && "admin"[0] != "mcp:"[0] && "*"[0] != "mcp:"[0];
    if a == "admin" && "mcp:" <= b { assert StandsOver(a, "mcp:*") && StandsOver("mcp:*", b); }
  }

  /** The action, or the wildcard of the namespace it is in. */
  ghost predicate Alone(a: string, b: string) {
    a == b || exists ns: string, verb: string :: ':' !in ns && b == ns + ":" + verb && a == ns + ":*"
  }

  lemma IdentityCoversIff(a: string, b: string)
    ensures IdentityCovers(a, b) <==> Alone(a, b)
  {
    var h := Cut(b, ':');
    if h.found { assert b == h.before + ":" + h.after; }
    forall ns: string, verb: string | ':' !in ns && b == ns + ":" + verb ensures h.found && h.before == ns {
      assert b == ns + [':'] + verb;
      CutJoined(ns, ':', verb);
    }
  }

  /** A concrete folder at or below `folder`, segment by segment. */
  predicate Beneath(folder: string, scope: string) {
    && folder != "" && scope != "" && (forall ch | ch in scope :: ch !in "*?[")
    && Split(folder, '/') <= Split(scope, '/')
  }

  lemma WithinSubtreeIff(folder: string, scope: string)
    ensures WithinSubtree(folder, scope) <==> Beneath(folder, scope)
  {
    SplitPrefixIff(folder, scope, '/');
    assert "/" == ['/'];
  }

  // ----- The verdict -----

  ghost predicate GrantMeans(pol: Policy, c: Caller, r: Row, q: Request) {
    && r in pol.rows && r.effect != "deny" && ReachedMeans(pol, c, r.principal) && RowSpeaks(r, q, c.claims)
    && if c.route == "" || OnRouteMeans(pol, c, r.principal) then Under(r.action, q.action)
       else Beneath(c.route, q.scope) && Alone(r.action, q.action)
  }

  ghost predicate DenyMeans(pol: Policy, c: Caller, r: Row, q: Request) {
    && r in pol.rows && r.effect == "deny" && ReachedMeans(pol, c, r.principal) && RowSpeaks(r, q, c.claims)
    && Under(r.action, q.action)
  }

  lemma RowIffMeans(pol: Policy, c: Caller, r: Row, q: Request)
    ensures Grants(pol, c, r, q) <==> GrantMeans(pol, c, r, q)
    ensures Forbids(pol, c, r, q) <==> DenyMeans(pol, c, r, q)
  {
    ReachedIffMeans(pol, c, r.principal);
    RowAppliesIff(r, q, c.claims);
    ActionCoversIff(r.action, q.action);
    IdentityCoversIff(r.action, q.action);
    WithinSubtreeIff(c.route, q.scope);
  }

  /** Authorize permits exactly when someone asks for something, the table can be read,
      some row grants by its meaning and none denies by its meaning. */
  lemma VerdictIff(pol: Policy, c: Caller, q: Request)
    ensures Permits(pol, c, q) <==>
            && pol.readable && q.action != "" && (c.principal != "" || c.route != "")
            && (exists r | r in pol.rows :: GrantMeans(pol, c, r, q))
            && !(exists r | r in pol.rows :: DenyMeans(pol, c, r, q))
  {
    forall r | r in pol.rows
      ensures Grants(pol, c, r, q) <==> GrantMeans(pol, c, r, q)
      ensures Forbids(pol, c, r, q) <==> DenyMeans(pol, c, r, q)
    {
      RowIffMeans(pol, c, r, q);
    }
  }
}
