/** What a glob means, stated once. A pattern is a list of elements; a star
    element stands for any run of inputs and every other element stands for
    exactly one. The three matchers of the repository (path segments, one
    segment's characters, principal and parameter values) are instances. */
module Globs {

  function Flatten<E>(runs: seq<seq<E>>): seq<E> {
    if |runs| == 0 then [] else runs[0] + Flatten(runs[1..])
  }

  /** `runs` assigns to each pattern element the stretch of `s` it reads. */
  ghost predicate Fits<P, E>(star: P -> bool, one: (P, E) -> bool, pat: seq<P>, s: seq<E>, runs: seq<seq<E>>) {
    && |runs| == |pat|
    && Flatten(runs) == s
    && forall i | 0 <= i < |pat| :: star(pat[i]) || (|runs[i]| == 1 && one(pat[i], runs[i][0]))
  }

  /** The meaning of a glob: some assignment of runs spells the whole input. */
  ghost predicate Reads<P, E(!new)>(star: P -> bool, one: (P, E) -> bool, pat: seq<P>, s: seq<E>) {
    exists runs: seq<seq<E>> :: Fits(star, one, pat, s, runs)
  }

  lemma {:induction false} FlattenAppend<E>(a: seq<seq<E>>, b: seq<seq<E>>)
    ensures Flatten(a + b) == Flatten(a) + Flatten(b)
  {
    if |a| == 0 {
      assert a + b == b;
    } else {
      assert (a + b)[1..] == a[1..] + b;
      FlattenAppend(a[1..], b);
    }
  }

  lemma ReadsNil<P, E(!new)>(star: P -> bool, one: (P, E) -> bool, s: seq<E>)
    ensures Reads(star, one, [], s) <==> s == []
  {
    if s == [] { assert Fits(star, one, [], s, []); }
  }

  /** A pattern that opens with a star reads its tail after some prefix. */
  lemma ReadsStar<P, E(!new)>(star: P -> bool, one: (P, E) -> bool, pat: seq<P>, s: seq<E>)
    requires |pat| > 0 && star(pat[0])
    ensures Reads(star, one, pat, s) <==> exists k | 0 <= k <= |s| :: Reads(star, one, pat[1..], s[k..])
  {
    if Reads(star, one, pat, s) {
      var runs :| Fits(star, one, pat, s, runs);
      var k := |runs[0]|;
      assert s[k..] == Flatten(runs[1..]);
      assert Fits(star, one, pat[1..], s[k..], runs[1..]);
    }
    if k :| 0 <= k <= |s| && Reads(star, one, pat[1..], s[k..]) {
      var runs :| Fits(star, one, pat[1..], s[k..], runs);
      var all := [s[..k]] + runs;
      assert all[1..] == runs && s[..k] + s[k..] == s;
      forall i | 0 <= i < |pat|
        ensures star(pat[i]) || (|all[i]| == 1 && one(pat[i], all[i][0]))
      {
        if i > 0 { assert pat[i] == pat[1..][i - 1] && all[i] == runs[i - 1]; }
      }
      assert Fits(star, one, pat, s, all);
    }
  }

  /** A pattern that opens with anything else reads one input, then its tail. */
  lemma ReadsOne<P, E(!new)>(star: P -> bool, one: (P, E) -> bool, pat: seq<P>, s: seq<E>)
    requires |pat| > 0 && !star(pat[0])
    ensures Reads(star, one, pat, s) <==> s != [] && one(pat[0], s[0]) && Reads(star, one, pat[1..], s[1..])
  {
    if Reads(star, one, pat, s) {
      var runs :| Fits(star, one, pat, s, runs);
      assert runs[0] == [runs[0][0]] && s[1..] == Flatten(runs[1..]);
      assert Fits(star, one, pat[1..], s[1..], runs[1..]);
    }
    if s != [] && one(pat[0], s[0]) && Reads(star, one, pat[1..], s[1..]) {
      var runs :| Fits(star, one, pat[1..], s[1..], runs);
      var all := [[s[0]]] + runs;
      assert all[1..] == runs && [s[0]] + s[1..] == s;
      forall i | 0 <= i < |pat|
        ensures star(pat[i]) || (|all[i]| == 1 && one(pat[i], all[i][0]))
      {
        if i > 0 { assert pat[i] == pat[1..][i - 1] && all[i] == runs[i - 1]; }
      }
      assert Fits(star, one, pat, s, all);
    }
  }

  /** Whatever `a + b` reads, `a` followed by one star reads too. */
  lemma StarTailAbsorbs<P, E(!new)>(star: P -> bool, one: (P, E) -> bool, a: seq<P>, b: seq<P>, tail: P, s: seq<E>)
    requires star(tail) && Reads(star, one, a + b, s)
    ensures Reads(star, one, a + [tail], s)
  {
    var runs :| Fits(star, one, a + b, s, runs);
    var head, rest := runs[..|a|], runs[|a|..];
    FlattenAppend(head, rest);
    assert head + rest == runs;
    FlattenAppend(head, [Flatten(rest)]);
    assert Flatten([Flatten(rest)]) == Flatten(rest);
    var all := head + [Flatten(rest)];
    forall i | 0 <= i < |a| + 1
      ensures star((a + [tail])[i]) || (|all[i]| == 1 && one((a + [tail])[i], all[i][0]))
    {
      if i < |a| { assert (a + b)[i] == a[i] && runs[i] == head[i]; }
    }
    assert Fits(star, one, a + [tail], s, all);
  }

  /** Before the first star, pattern elements and inputs align one to one. */
  lemma {:induction false} PrefixAligns<P, E(!new)>(star: P -> bool, one: (P, E) -> bool, pat: seq<P>, s: seq<E>, k: nat)
    requires k <= |pat| && (forall i | 0 <= i < k :: !star(pat[i])) && Reads(star, one, pat, s)
    ensures k <= |s| && forall i | 0 <= i < k :: one(pat[i], s[i])
    ensures k == |pat| ==> |s| == k
    decreases k
  {
    if k == 0 {
      if |pat| == 0 { ReadsNil(star, one, s); assert pat == []; }
    } else {
      ReadsOne(star, one, pat, s);
      PrefixAligns(star, one, pat[1..], s[1..], k - 1);
      forall i | 0 <= i < k ensures i < |s| && one(pat[i], s[i]) {
        if i > 0 { assert pat[1..][i - 1] == pat[i] && s[1..][i - 1] == s[i]; }
      }
    }
  }
}
