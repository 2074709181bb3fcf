/** auth/delegate.go on concrete folders: there its syntactic tests lose nothing, and what
    Delegate asks can be said in the folders themselves. */
module ConcreteGrants {
  import opened Text
  import opened Globs
  import opened PathMatch
  import opened Acl
  import opened Authorization
  import opened Delegation
  import opened Verdicts

  // ----- Folders and subtrees -----

  /** The folder itself or one under it. */
  predicate AtOrUnder(base: string, path: string) { path == base || base + "/" <= path }

  /** A folder's subtree glob covers exactly the folder and what is under it. */
  lemma SubtreeIff(base: string, path: string)
    requires Literal(base)
    ensures Covers(base + "/**", path) <==> AtOrUnder(base, path)
  {
    var bases, parts := Split(base, '/'), Split(path, '/');
    assert base + "/**" == base + ['/'] + "**" && "/" == ['/'];
    SplitConcat(base, '/', "**");
    SplitWhole("**", '/');
    SplitPrefixIff(base, path, '/');
    PartsLiteral(base);
    if bases <= parts {
      assert parts == bases + parts[|bases|..];
      LiteralThenAny(bases, parts[|bases|..]);
    }
    if Covers(base + "/**", path) { LiteralOpens(bases, parts); }
  }

  lemma PartsLiteral(s: string)
    requires Literal(s)
    ensures forall seg | seg in Split(s, '/') :: Literal(seg)
  {
    SplitChars(s, '/');
  }

  lemma {:induction false} LiteralThenAny(lits: seq<string>, rest: seq<string>)
    requires forall seg | seg in lits :: Literal(seg)
    ensures Reads(DoubleStar, SegmentTakes, lits + ["**"], lits + rest)
    decreases |lits|
  {
    var pat, s := lits + ["**"], lits + rest;
    if lits == [] {
      ReadsStar(DoubleStar, SegmentTakes, pat, s);
      ReadsNil(DoubleStar, SegmentTakes, s[|s|..]);
      assert pat[1..] == [] && Reads(DoubleStar, SegmentTakes, pat[1..], s[|s|..]);
    } else {
      assert lits[0] in lits && pat[1..] == lits[1..] + ["**"] && s[1..] == lits[1..] + rest;
      LiteralIsNoStar(lits[0]);
      LiteralSegment(lits[0], lits[0]);
      LiteralThenAny(lits[1..], rest);
      ReadsOne(DoubleStar, SegmentTakes, pat, s);
    }
  }

  lemma LiteralIsNoStar(seg: string)
    requires Literal(seg)
    ensures seg != "**"
  {
    if seg == "**" { assert seg[0] in seg && IsGlobChar(seg[0]); }
  }

  lemma LiteralOpens(lits: seq<string>, parts: seq<string>)
    requires (forall seg | seg in lits :: Literal(seg)) && Reads(DoubleStar, SegmentTakes, lits + ["**"], parts)
    ensures lits <= parts
  {
    var pat := lits + ["**"];
    forall i | 0 <= i < |lits| ensures !DoubleStar(pat[i]) && pat[i] in lits { LiteralIsNoStar(lits[i]); }
    PrefixAligns(DoubleStar, SegmentTakes, pat, parts, |lits|);
    forall i | 0 <= i < |lits| ensures lits[i] == parts[i] {
      assert pat[i] in lits && SegmentTakes(pat[i], parts[i]);
      LiteralSegment(lits[i], parts[i]);
    }
  }

  // ----- scopeCovers -----

  /** Everything, one folder, one folder's subtree, or a glob without a recursive tail. */
  predicate PlainTail(held: string) {
    EndsInSubtree(held) ==> held != "/**" && Literal(held[..|held| - 3])
  }

  /** On a concrete folder the held scope covers, syntactically, exactly what it covers. */
  lemma ScopeCoversConcrete(held: string, want: string)
    requires Literal(want) && PlainTail(held)
    ensures ScopeCovers(held, want) <==> Covers(held, want)
  {
    LiteralScope(want, want);
    MatchPatternIffCovers(want, want);
    MatchPatternIffCovers(held, want);
    if held == "**" { DoubleStarCoversAll(want); }
    if EndsInSubtree(held) {
      var base := held[..|held| - 3];
      assert held == base + "/**";
      SubtreeIff(base, want);
    }
  }

  /** A subtree covers itself and, whatever pattern characters are in it, exactly the
      scopes written under its folder. */
  lemma SubtreeSpansIff(base: string, want: string)
    ensures ScopeCovers(base + "/**", want) <==> want == base + "/**" || (base != "" && AtOrUnder(base, want))
  {
    var held := base + "/**";
    assert held[|held| - 3..] == "/**" && held[..|held| - 3] == base;
    assert base == "" ==> held == "/**";
    assert |held| >= 3;
  }

  /** A recursive scope whose folder is itself a pattern is taken for less than it covers:
      the price of the syntactic test. */
  lemma GlobFolderIsConservative()
    ensures Covers("*/**", "acme") && !ScopeCovers("*/**", "acme")
  {
    StarThenAny("acme");
    assert "*/**" == "*" + "/**";
    SubtreeSpansIff("*", "acme");
    assert "*/**" != "acme" && "*"[0] != "acme"[0];
  }

  lemma StarThenAny(seg: string)
    requires '/' !in seg
    ensures Covers("*/**", seg)
  {
    assert "*/**" == "*" + ['/'] + "**";
    SplitConcat("*", '/', "**");
    SplitWhole("*", '/');
    SplitWhole("**", '/');
    SplitWhole(seg, '/');
    StarTakesAll(seg);
    ReadsTwo(seg);
    assert Split("*/**", '/') == ["*", "**"];
  }

  lemma StarTakesAll(seg: string)
    requires '/' !in seg
    ensures SegmentTakes("*", seg)
  {
    StarMark("", seg);
    assert "*" + "" == "*";
  }

  lemma ReadsTwo(seg: string)
    requires SegmentTakes("*", seg)
    ensures Reads(DoubleStar, SegmentTakes, ["*", "**"], [seg])
  {
    var none: seq<string> := [];
    var runs := [[seg], none];
    assert runs[1..] == [none] && runs[1..][1..] == [];
    assert Flatten(runs) == [seg] + (none + Flatten(runs[1..][1..]));
    assert Fits(DoubleStar, SegmentTakes, ["*", "**"], [seg], runs);
  }

  // ----- mayMeet -----

  /** Segment `i` of both globs is written out and differs, with no `**` up to it. */
  predicate DifferAt(a: seq<string>, b: seq<string>, i: nat) {
    && i < |a| && i < |b| && Literal(a[i]) && Literal(b[i]) && a[i] != b[i]
    && "**" !in a[..i + 1] && "**" !in b[..i + 1]
  }

  ghost predicate Apart(x: seq<string>, y: seq<string>) {
    (exists i: nat :: DifferAt(x, y, i)) || (|x| != |y| && "**" !in x && "**" !in y)
  }

  /** Two globs are kept apart exactly on one of two proofs: a written-out segment that
      differs before either's first `**`, or, without any `**`, another length. */
  lemma ApartIff(a: string, b: string)
    ensures !MayMeet(a, b) <==> Apart(Split(a, '/'), Split(b, '/'))
  {
    SegmentsApartIff(Split(a, '/'), Split(b, '/'));
  }

  lemma {:induction false} SegmentsApartIff(x: seq<string>, y: seq<string>)
    ensures !SegmentsMayMeet(x, y) <==> Apart(x, y)
    decreases |x|
  {
    if x != [] && y != [] {
      assert x[..1] == [x[0]] && y[..1] == [y[0]];
      if x[0] == "**" || y[0] == "**" {
        forall i: nat ensures !DifferAt(x, y, i) {
          if i < |x| && i < |y| { assert x[..i + 1][0] == x[0] && y[..i + 1][0] == y[0]; }
        }
      } else if Literal(x[0]) && Literal(y[0]) && x[0] != y[0] {
        assert DifferAt(x, y, 0);
      } else {
        SegmentsApartIff(x[1..], y[1..]);
        assert x == [x[0]] + x[1..] && y == [y[0]] + y[1..];
        forall i: nat ensures DifferAt(x[1..], y[1..], i) <==> DifferAt(x, y, i + 1) { DifferLater(x, y, i); }
        if i: nat :| DifferAt(x, y, i) { assert i > 0 && DifferAt(x[1..], y[1..], i - 1); }
        if i: nat :| DifferAt(x[1..], y[1..], i) { assert DifferAt(x, y, i + 1); }
      }
    }
  }

  lemma DifferLater(x: seq<string>, y: seq<string>, i: nat)
    requires x != [] && y != [] && x[0] != "**" && y[0] != "**"
    ensures DifferAt(x[1..], y[1..], i) <==> DifferAt(x, y, i + 1)
  {
    if i + 1 < |x| && i + 1 < |y| {
      assert x[..i + 2] == [x[0]] + x[1..][..i + 1] && y[..i + 2] == [y[0]] + y[1..][..i + 1];
    }
  }

  /** Two folders meet when they are one. */
  lemma FoldersMeetIff(a: string, b: string)
    requires Literal(a) && Literal(b)
    ensures MayMeet(a, b) <==> a == b
  {
    PartsLiteral(a);
    PartsLiteral(b);
    LiteralsMeet(Split(a, '/'), Split(b, '/'));
    if Split(a, '/') == Split(b, '/') { SplitInjective(a, b, '/'); }
  }

  lemma {:induction false} LiteralsMeet(x: seq<string>, y: seq<string>)
    requires (forall seg | seg in x :: Literal(seg)) && (forall seg | seg in y :: Literal(seg))
    ensures SegmentsMayMeet(x, y) <==> x == y
    decreases |x|
  {
    forall seg | seg in x || seg in y ensures seg != "**" { LiteralIsNoStar(seg); }
    if x != [] && y != [] {
      assert x[0] in x && y[0] in y && x == [x[0]] + x[1..] && y == [y[0]] + y[1..];
      LiteralsMeet(x[1..], y[1..]);
    }
  }

  /** A subtree and a folder may meet when one lies on the way to the other. */
  lemma SubtreeMeetsIff(base: string, b: string)
    requires Literal(base) && Literal(b)
    ensures MayMeet(base + "/**", b) <==> AtOrUnder(base, b) || AtOrUnder(b, base)
  {
    assert base + "/**" == base + ['/'] + "**" && "/" == ['/'];
    SplitConcat(base, '/', "**");
    SplitWhole("**", '/');
    PartsLiteral(base);
    PartsLiteral(b);
    SplitPrefixIff(base, b, '/');
    SplitPrefixIff(b, base, '/');
    TailMeets(Split(base, '/'), Split(b, '/'));
  }

  lemma {:induction false} TailMeets(x: seq<string>, y: seq<string>)
    requires (forall seg | seg in x :: Literal(seg)) && (forall seg | seg in y :: Literal(seg))
    ensures SegmentsMayMeet(x + ["**"], y) <==> x <= y || y <= x
    decreases |x|
  {
    var pat := x + ["**"];
    if x == [] {
      assert pat[0] == "**" && "**" in pat;
    } else {
      assert pat[0] == x[0] && x[0] in x && pat[1..] == x[1..] + ["**"] && pat[|x|] == "**";
      LiteralIsNoStar(x[0]);
      if y != [] {
        assert y[0] in y;
        LiteralIsNoStar(y[0]);
        TailMeets(x[1..], y[1..]);
        HeadsAndTails(x, y);
      }
    }
  }

  lemma HeadsAndTails(x: seq<string>, y: seq<string>)
    requires x != [] && y != []
    ensures x <= y <==> x[0] == y[0] && x[1..] <= y[1..]
    ensures y <= x <==> x[0] == y[0] && y[1..] <= x[1..]
  {
    assert x == [x[0]] + x[1..] && y == [y[0]] + y[1..];
  }

  /** Meeting is symmetric. */
  lemma {:induction false} MeetingIsSymmetric(a: seq<string>, b: seq<string>)
    ensures SegmentsMayMeet(a, b) <==> SegmentsMayMeet(b, a)
    decreases |a|
  {
    if a != [] && b != [] { MeetingIsSymmetric(a[1..], b[1..]); }
  }

  /** So a deny below a wanted folder is taken to meet it although no folder is in both. */
  lemma AboveIsConservative(path: string)
    ensures MayMeet("acme/eng/**", "acme") && !(Covers("acme/eng/**", path) && Covers("acme", path))
  {
    assert "acme/eng" + "/**" == "acme/eng/**" && "acme" + "/" <= "acme/eng";
    SubtreeMeetsIff("acme/eng", "acme");
    SubtreeIff("acme/eng", path);
    LiteralScope("acme", path);
    MatchPatternIffCovers("acme", path);
  }

  // ----- Delegate on a concrete folder -----

  /** The scopes rows are written with: everything, a folder, a folder's subtree. */
  predicate PlainScope(s: string) {
    s == "**" || Literal(s) || (EndsInSubtree(s) && s != "/**" && Literal(s[..|s| - 3]))
  }

  /** Such a scope may meet the folder. */
  predicate NearBy(s: string, folder: string) {
    || s == "**" || s == folder
    || (EndsInSubtree(s) && (AtOrUnder(s[..|s| - 3], folder) || AtOrUnder(folder, s[..|s| - 3])))
  }

  lemma PlainMeetsIff(s: string, folder: string)
    requires PlainScope(s) && Literal(folder)
    ensures MayMeet(s, folder) <==> NearBy(s, folder)
  {
    SubtreeIsAPattern(s);
    if s == "**" {
      SplitWhole("**", '/');
    } else if Literal(s) {
      FoldersMeetIff(s, folder);
    } else {
      assert s == s[..|s| - 3] + "/**";
      SubtreeMeetsIff(s[..|s| - 3], folder);
    }
  }

  lemma SubtreeIsAPattern(s: string)
    ensures EndsInSubtree(s) ==> !Literal(s)
  {
    if EndsInSubtree(s) { assert s[|s| - 3..][2] == '*' && s[|s| - 1] in s; }
  }

  /** A grant-option allow of the granter, without a claim, whose action stands over the
      wanted one, which asks for nothing or for the same arguments, and which covers the
      wanted folder. */
  ghost predicate HandsOn(pol: Policy, granter: string, h: Row, w: Row) {
    && h in pol.rows && Reached(pol, Granter(granter), h.principal)
    && h.grantOption && h.claim == "" && h.effect in {"", "allow"}
    && Under(h.action, w.action) && (h.params == "" || h.params == w.params) && Covers(h.scope, w.scope)
  }

  /** A deny of the granter on a comparable action near the wanted folder. */
  ghost predicate HoldsBack(pol: Policy, granter: string, d: Row, w: Row) {
    && d in pol.rows && Reached(pol, Granter(granter), d.principal) && d.effect == "deny"
    && (Under(d.action, w.action) || Under(w.action, d.action)) && NearBy(d.scope, w.scope)
  }

  ghost predicate PlainRows(pol: Policy) {
    forall r | r in pol.rows :: if r.effect == "deny" then PlainScope(r.scope) else PlainTail(r.scope)
  }

  /** On a concrete folder Delegate accepts a row exactly when it is an allow for one
      principal, the granter holds a row that hands it on, and no deny of the granter
      holds it back. */
  lemma ConcreteDelegationIff(pol: Policy, denyDown: set<(string, string)>, granter: string, w: Row)
    requires Literal(w.scope) && PlainRows(pol)
    ensures MayDelegate(pol, denyDown, granter, w) <==>
            && w.effect != "deny" && '*' !in w.principal
            && (exists h | h in pol.rows :: HandsOn(pol, granter, h, w))
            && !(exists d | d in pol.rows :: HoldsBack(Late(pol, denyDown), granter, d, w))
  {
    forall h | h in pol.rows
      ensures Held(pol, granter, h) && Grantable(h) && RowCovers(h, w) <==> HandsOn(pol, granter, h, w)
    {
      HandsOnIff(pol, granter, h, w);
    }
    var late := Late(pol, denyDown);
    forall d | d in pol.rows
      ensures Held(late, granter, d) && d.effect == "deny" && Overlaps(d, w) <==> HoldsBack(late, granter, d, w)
    {
      HoldsBackIff(late, granter, d, w);
    }
  }

  lemma HandsOnIff(pol: Policy, granter: string, h: Row, w: Row)
    requires Literal(w.scope) && h in pol.rows && (h.effect != "deny" ==> PlainTail(h.scope))
    ensures Held(pol, granter, h) && Grantable(h) && RowCovers(h, w) <==> HandsOn(pol, granter, h, w)
  {
    if h.effect != "deny" { ScopeCoversConcrete(h.scope, w.scope); }
    ActionCoversIff(h.action, w.action);
  }

  lemma HoldsBackIff(pol: Policy, granter: string, d: Row, w: Row)
    requires Literal(w.scope) && d in pol.rows && (d.effect == "deny" ==> PlainScope(d.scope))
    ensures Held(pol, granter, d) && d.effect == "deny" && Overlaps(d, w) <==> HoldsBack(pol, granter, d, w)
  {
    if d.effect == "deny" { PlainMeetsIff(d.scope, w.scope); }
    ActionCoversIff(d.action, w.action);
    ActionCoversIff(w.action, d.action);
  }

  // ----- Writing a grant -----

  /** A row a granter may hand on is in the table afterwards, with the writer's defaults,
      unless its coordinate is taken; a taken one stays as it is, grant option and all. */
  lemma GivenIsStored(pol: Policy, g: Grant)
    requires g.row.principal != "" && g.row.scope != ""
    requires Delegable(pol.(down := g.down), g.denyDown, g.granter, [Defaults(g.row)])
    requires Defaults(g.row).effect in {"allow", "deny"}
    ensures var row := g.row.(action := if g.row.action == "" then "admin" else g.row.action,
                              effect := if g.row.effect == "" then "allow" else g.row.effect);
            Give(pol, g).rows == if exists s | s in pol.rows :: s.(grantOption := row.grantOption) == row then pol.rows
                                 else pol.rows + [row]
  {
    var row := Defaults(g.row);
    forall s | s in pol.rows ensures Coordinate(s) == Coordinate(row) <==> s.(grantOption := row.grantOption) == row {}
  }

  /** A row it may not hand on changes nothing. */
  lemma RefusedGivesNothing(pol: Policy, g: Grant)
    requires !Delegable(pol.(down := g.down), g.denyDown, g.granter, [Defaults(g.row)])
    ensures Give(pol, g) == pol
  {}
}
