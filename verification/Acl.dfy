/** auth/acl.go and groupfolder/folder.go: the scope globs that decide which
    folders a grant covers. */
module Acl {
  import opened Text
  import opened Globs
  import opened PathMatch

  predicate DoubleStar(seg: string) { seg == "**" }

  predicate SegmentTakes(pat: string, seg: string) { Segment(pat, seg) == Match }

  /** What a scope glob means: `**` stands for any run of path segments and every
      other segment for one segment that path.Match accepts. */
  ghost predicate Covers(pattern: string, path: string) {
    Reads(DoubleStar, SegmentTakes, Split(pattern, '/'), Split(path, '/'))
  }

  /** The three answers of matchSegments. */
  function SegmentsVerdict(pat: seq<string>, input: seq<string>): Verdict
    decreases |pat|, 0
  {
    if pat == [] then (if input == [] then Match else NoMatch)
    else if pat[0] == "**" then
      if |pat| == 1 then Match else TailsVerdict(pat[1..], input)
    else if input == [] then NoMatch
    else
      match Segment(pat[0], input[0])
      case Match => SegmentsVerdict(pat[1..], input[1..])
      case other => other
  }

  /** The answer after a `**`: the first tail of the input that is not refused. */
  function TailsVerdict(rest: seq<string>, input: seq<string>): Verdict
    decreases |rest|, |input| + 1
  {
    var v := SegmentsVerdict(rest, input);
    if v != NoMatch || input == [] then v else TailsVerdict(rest, input[1..])
  }

  /** matchSegments, with its loop over pattern segments that consumes the input. */
  method MatchSegments(pat: seq<string>, input: seq<string>) returns (v: Verdict)
    ensures v == SegmentsVerdict(pat, input)
    decreases |pat|
  {
    var rest := input;
    for i := 0 to |pat|
      invariant SegmentsVerdict(pat, input) == SegmentsVerdict(pat[i..], rest)
    {
      if pat[i] == "**" {
        var tail := pat[i + 1..];
        assert pat[i..][1..] == tail;
        if |tail| == 0 {
          return Match;
        }
        for j := 0 to |rest| + 1
          invariant j <= |rest| ==> SegmentsVerdict(pat, input) == TailsVerdict(tail, rest[j..])
          invariant j > |rest| ==> SegmentsVerdict(pat, input) == NoMatch
        {
          var found := MatchSegments(tail, rest[j..]);
          if found != NoMatch {
            return found;
          }
          assert j < |rest| ==> rest[j..][1..] == rest[j + 1..];
        }
        return NoMatch;
      }
      if |rest| == 0 {
        return NoMatch;
      }
      var one := Segment(pat[i], rest[0]);
      if one != Match {
        return one;
      }
      assert pat[i..][1..] == pat[i + 1..];
      rest := rest[1..];
    }
    v := if |rest| == 0 then Match else NoMatch;
  }

  /** matchPattern: a malformed pattern denies. */
  predicate MatchPattern(pattern: string, path: string) {
    SegmentsVerdict(Split(pattern, '/'), Split(path, '/')) == Match
  }

  predicate SegmentsWellFormed(pat: seq<string>) {
    forall seg | seg in pat :: seg == "**" || WellFormed(seg)
  }

  /** Matching implies the meaning; the meaning implies every segment parses. */
  lemma {:induction false} VerdictSound(pat: seq<string>, input: seq<string>)
    requires SegmentsVerdict(pat, input) == Match
    ensures Reads(DoubleStar, SegmentTakes, pat, input)
    decreases |pat|, 0
  {
    if pat == [] {
      ReadsNil(DoubleStar, SegmentTakes, input);
    } else if pat[0] == "**" {
      ReadsStar(DoubleStar, SegmentTakes, pat, input);
      if |pat| == 1 {
        ReadsNil(DoubleStar, SegmentTakes, input[|input|..]);
        assert Reads(DoubleStar, SegmentTakes, pat[1..], input[|input|..]);
      } else {
        var k := TailsSound(pat[1..], input);
      }
    } else {
      VerdictSound(pat[1..], input[1..]);
      ReadsOne(DoubleStar, SegmentTakes, pat, input);
    }
  }

  lemma {:induction false} TailsSound(rest: seq<string>, input: seq<string>) returns (k: nat)
    requires TailsVerdict(rest, input) == Match
    ensures k <= |input| && Reads(DoubleStar, SegmentTakes, rest, input[k..])
    decreases |rest|, |input| + 1
  {
    if SegmentsVerdict(rest, input) == Match {
      VerdictSound(rest, input);
      k := 0;
    } else {
      k := TailsSound(rest, input[1..]);
      assert input[1..][k..] == input[k + 1..];
      k := k + 1;
    }
  }

  /** A well-formed pattern is never reported malformed, and what it reads it matches. */
  lemma {:induction false} VerdictComplete(pat: seq<string>, input: seq<string>)
    requires SegmentsWellFormed(pat)
    ensures SegmentsVerdict(pat, input) != Malformed
    ensures Reads(DoubleStar, SegmentTakes, pat, input) ==> SegmentsVerdict(pat, input) == Match
    decreases |pat|, 0
  {
    if pat == [] {
      ReadsNil(DoubleStar, SegmentTakes, input);
    } else if pat[0] == "**" {
      ReadsStar(DoubleStar, SegmentTakes, pat, input);
      if |pat| > 1 {
        TailsComplete(pat[1..], input);
      }
    } else {
      ReadsOne(DoubleStar, SegmentTakes, pat, input);
      assert pat[0] in pat;
      if input != [] { VerdictComplete(pat[1..], input[1..]); }
    }
  }

  lemma {:induction false} TailsComplete(rest: seq<string>, input: seq<string>)
    requires SegmentsWellFormed(rest)
    ensures TailsVerdict(rest, input) != Malformed
    ensures forall k | 0 <= k <= |input| && Reads(DoubleStar, SegmentTakes, rest, input[k..]) ::
              TailsVerdict(rest, input) == Match
    decreases |rest|, |input| + 1
  {
    VerdictComplete(rest, input);
    if input != [] {
      TailsComplete(rest, input[1..]);
    }
    forall k | 0 <= k <= |input| && Reads(DoubleStar, SegmentTakes, rest, input[k..])
      ensures TailsVerdict(rest, input) == Match
    {
      if k == 0 { assert input[k..] == input; }
      else { assert input[k..] == input[1..][k - 1..]; }
    }
  }

  /** matchPattern decides exactly the meaning of the glob, for every pattern and
      every path. A pattern with a malformed segment has no meaning and covers
      nothing. */
  lemma MatchPatternIffCovers(pattern: string, path: string)
    ensures MatchPattern(pattern, path) <==> Covers(pattern, path)
    ensures !SegmentsWellFormed(Split(pattern, '/')) ==> !MatchPattern(pattern, path)
  {
    var pat, input := Split(pattern, '/'), Split(path, '/');
    if MatchPattern(pattern, path) { VerdictSound(pat, input); }
    if Covers(pattern, path) {
      var runs :| Fits(DoubleStar, SegmentTakes, pat, input, runs);
      forall seg | seg in pat ensures seg == "**" || WellFormed(seg) {
        var i :| 0 <= i < |pat| && pat[i] == seg;
        assert DoubleStar(pat[i]) || SegmentTakes(pat[i], runs[i][0]);
      }
      VerdictComplete(pat, input);
    }
  }

  /** A scope without a pattern character covers exactly itself. */
  lemma LiteralScope(scope: string, path: string)
    requires Literal(scope)
    ensures MatchPattern(scope, path) <==> scope == path
  {
    SplitChars(scope, '/');
    LiteralSegments(Split(scope, '/'), Split(path, '/'), scope);
    if MatchPattern(scope, path) { SplitInjective(scope, path, '/'); }
  }

  lemma {:induction false} SplitChars(s: string, sep: char)
    ensures forall p, c | p in Split(s, sep) && c in p :: c in s
  {
    if s != "" {
      SplitChars(s[1..], sep);
      var rest := Split(s[1..], sep);
      forall p, c | p in Split(s, sep) && c in p ensures c in s {
        if s[0] != sep && p == Split(s, sep)[0] {
          assert c == s[0] || c in rest[0];
        } else if p != "" {
          assert p in rest;
        }
      }
    }
  }

  lemma {:induction false} LiteralSegments(pat: seq<string>, input: seq<string>, source: string)
    requires Literal(source) && forall p, c | p in pat && c in p :: c in source
    ensures SegmentsVerdict(pat, input) == if pat == input then Match else NoMatch
  {
    if pat != [] {
      forall c | c in pat[0] ensures !IsGlobChar(c) {}
      assert "**"[0] in "**" && IsGlobChar("**"[0]);
      if input != [] {
        LiteralSegment(pat[0], input[0]);
        LiteralSegments(pat[1..], input[1..], source);
        assert pat == [pat[0]] + pat[1..] && input == [input[0]] + input[1..];
      }
    }
  }

  // ----- Callers of the matcher -----

  /** MatchGroups: some allowed pattern covers the folder. */
  method MatchGroups(allowed: seq<string>, folder: string) returns (ok: bool)
    ensures ok <==> SomeCovers(allowed, folder)
  {
    for i := 0 to |allowed|
      invariant forall k | 0 <= k < i :: !Covers(allowed[k], folder)
    {
      MatchPatternIffCovers(allowed[i], folder);
      if allowed[i] == "**" {
        DoubleStarCoversAll(folder);
        return true;
      }
      if MatchPattern(allowed[i], folder) {
        return true;
      }
    }
    return false;
  }

  /** The slot path without the slashes around it. */
  function TrimSlashes(s: string): string
    decreases |s|
  {
    if s != "" && s[0] == '/' then TrimSlashes(s[1..])
    else if s != "" && s[|s| - 1] == '/' then TrimSlashes(s[..|s| - 1])
    else s
  }

  predicate Slashes(s: string) { forall c | c in s :: c == '/' }

  /** Only slashes go, and none is left at either end. */
  lemma {:induction false} TrimSlashesTakesSlashes(s: string) returns (left: string, right: string)
    ensures s == left + TrimSlashes(s) + right && Slashes(left) && Slashes(right)
    ensures var r := TrimSlashes(s); r == "" || (r[0] != '/' && r[|r| - 1] != '/')
    decreases |s|
  {
    left, right := "", "";
    if s != "" && s[0] == '/' {
      left, right := TrimSlashesTakesSlashes(s[1..]);
      left := ['/'] + left;
    } else if s != "" && s[|s| - 1] == '/' {
      left, right := TrimSlashesTakesSlashes(s[..|s| - 1]);
      right := right + ['/'];
    }
  }

  /** MatchSlot: some folder on the way down to the slot path is covered. */
  method MatchSlot(allowed: seq<string>, slotPath: string) returns (ok: bool)
    ensures var segs := Split(TrimSlashes(slotPath), '/');
            ok <==> TrimSlashes(slotPath) != "" && exists n | 1 <= n <= |segs| :: SomeCovers(allowed, Join(segs[..n], '/'))
  {
    var path := TrimSlashes(slotPath);
    if path == "" {
      return false;
    }
    var segs := Split(path, '/');
    for i := 1 to |segs| + 1
      invariant forall n | 1 <= n < i :: !SomeCovers(allowed, Join(segs[..n], '/'))
    {
      var covered := MatchGroups(allowed, Join(segs[..i], '/'));
      if covered {
        assert segs[..i] == Split(TrimSlashes(slotPath), '/')[..i];
        return true;
      }
    }
    return false;
  }

  ghost predicate SomeCovers(allowed: seq<string>, folder: string) {
    exists p | p in allowed :: Covers(p, folder)
  }

  lemma DoubleStarCoversAll(path: string)
    ensures Covers("**", path) && MatchPattern("**", path)
  {
    SplitWhole("**", '/');
    MatchPatternIffCovers("**", path);
  }

  // ----- Folder containment -----

  /** groupfolder.Contains: the folder itself or a string under it; an empty
      parent contains nothing. */
  predicate Contains(parent: string, child: string) {
    parent != "" && (child == parent || parent + "/" <= child)
  }

  /** Containment is segment by segment, and an empty parent contains nothing. */
  lemma ContainsIff(parent: string, child: string)
    ensures Contains(parent, child) <==> parent != "" && Split(parent, '/') <= Split(child, '/')
  {
    SplitPrefixIff(parent, child, '/');
    assert "/" == ['/'];
  }

  /** A folder contains what its children contain. */
  lemma ContainsTransitive(a: string, b: string, c: string)
    requires Contains(a, b) && Contains(b, c)
    ensures Contains(a, c)
  {
    if b != a && c != b {
      assert c[..|a| + 1] == (b + "/")[..|a| + 1] == b[..|a| + 1];
    }
  }

  /** Containment is segment-wise: whatever a contained glob covers, the parent
      followed by a slash and `**` covers. */
  lemma SubtreeCovers(base: string, want: string, path: string)
    requires Contains(base, want) && Covers(want, path)
    ensures Covers(base + "/**", path)
  {
    var bases := Split(base, '/');
    SplitConcat(base, '/', "**");
    SplitWhole("**", '/');
    assert base + "/**" == base + ['/'] + "**";
    var under: seq<string> := [];
    if want == base {
      assert bases + under == Split(want, '/');
    } else {
      var below := want[|base| + 1..];
      assert want == base + ['/'] + below;
      SplitConcat(base, '/', below);
      under := Split(below, '/');
    }
    StarTailAbsorbs(DoubleStar, SegmentTakes, bases, under, "**", Split(path, '/'));
  }
}
