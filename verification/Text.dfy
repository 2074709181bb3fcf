/** The string operations of Go's `strings` package that the authorization and
    pager code is written in, with the laws the proofs above them use. A Go
    string is modelled as a sequence of characters. */
module Text {

  // ----- Split and Join on one separator character -----

  function Split(s: string, sep: char): (parts: seq<string>)
    ensures |parts| >= 1
    ensures forall p | p in parts :: sep !in p
  {
    if s == "" then [""]
    else Prefixed(s[0], Split(s[1..], sep), sep)
  }

  function Join(parts: seq<string>, sep: char): string {
    if |parts| == 0 then ""
    else if |parts| == 1 then parts[0]
    else parts[0] + [sep] + Join(parts[1..], sep)
  }

  /** Splitting loses nothing: joining the parts gives the string back. */
  lemma {:induction false} JoinSplit(s: string, sep: char)
    ensures Join(Split(s, sep), sep) == s
  {
    if s != "" {
      JoinSplit(s[1..], sep);
      var rest := Split(s[1..], sep);
      var parts := Split(s, sep);
      if s[0] == sep {
        assert parts[1..] == rest;
      } else if |rest| > 1 {
        assert parts[1..] == rest[1..];
      }
    }
  }

  /** Splitting is injective, because joining undoes it. */
  lemma SplitInjective(a: string, b: string, sep: char)
    requires Split(a, sep) == Split(b, sep)
    ensures a == b
  {
    JoinSplit(a, sep);
    JoinSplit(b, sep);
  }

  /** A string without the separator is its own single part. */
  lemma {:induction false} SplitWhole(s: string, sep: char)
    requires sep !in s
    ensures Split(s, sep) == [s]
  {
    if s != "" {
      SplitWhole(s[1..], sep);
      assert [s[0]] + s[1..] == s;
    }
  }

  /** A separator between two strings splits them apart. */
  lemma {:induction false} SplitConcat(a: string, sep: char, b: string)
    ensures Split(a + [sep] + b, sep) == Split(a, sep) + Split(b, sep)
  {
    var s := a + [sep] + b;
    if a == "" {
      assert s[1..] == b;
    } else {
      assert s[0] == a[0] && s[1..] == a[1..] + [sep] + b;
      SplitConcat(a[1..], sep, b);
      SplitFirst(a[0], Split(a[1..], sep), Split(b, sep), sep);
    }
  }

  lemma {:induction false} JoinConcat(x: seq<string>, y: seq<string>, sep: char)
    requires x != [] && y != []
    ensures Join(x + y, sep) == Join(x, sep) + [sep] + Join(y, sep)
    decreases |x|
  {
    if |x| == 1 {
      assert (x + y)[1..] == y;
    } else {
      assert (x + y)[1..] == x[1..] + y;
      JoinConcat(x[1..], y, sep);
    }
  }

  /** The parts of one string open the parts of another exactly when the string is the
      other one or is followed in it by the separator. */
  lemma SplitPrefixIff(a: string, b: string, sep: char)
    ensures Split(a, sep) <= Split(b, sep) <==> a == b || a + [sep] <= b
  {
    if a + [sep] <= b {
      assert b == a + [sep] + b[|a| + 1..];
      SplitConcat(a, sep, b[|a| + 1..]);
    }
    if Split(a, sep) <= Split(b, sep) { PartsOpen(a, b, sep); }
  }

  lemma PartsOpen(a: string, b: string, sep: char)
    requires Split(a, sep) <= Split(b, sep)
    ensures a == b || a + [sep] <= b
  {
    var x, y := Split(a, sep), Split(b, sep);
    var z := y[|x|..];
    JoinSplit(a, sep);
    JoinSplit(b, sep);
    assert y == x + z;
    if z == [] {
      assert x == y;
    } else {
      JoinConcat(x, z, sep);
      Opens(a + [sep], Join(z, sep), b);
    }
  }

  lemma Opens(a: string, rest: string, b: string)
    requires b == a + rest
    ensures a <= b
  {}

  /** What a first character adds to the parts after it. */
  function Prefixed(c: char, parts: seq<string>, sep: char): seq<string>
    requires |parts| >= 1
  {
    if c == sep then [""] + parts else [[c] + parts[0]] + parts[1..]
  }

  lemma SplitFirst(c: char, x: seq<string>, y: seq<string>, sep: char)
    requires |x| >= 1
    ensures Prefixed(c, x + y, sep) == Prefixed(c, x, sep) + y
  {
    assert (x + y)[1..] == x[1..] + y;
  }

  /** Splitting undoes joining on parts that do not hold the separator. */
  lemma {:induction false} SplitJoin(parts: seq<string>, sep: char)
    requires |parts| >= 1
    requires forall p | p in parts :: sep !in p
    ensures Split(Join(parts, sep), sep) == parts
  {
    SplitWhole(parts[0], sep);
    if |parts| > 1 {
      SplitJoin(parts[1..], sep);
      SplitConcat(parts[0], sep, Join(parts[1..], sep));
      assert [parts[0]] + parts[1..] == parts;
    } else {
      assert [parts[0]] == parts;
    }
  }

  // ----- Cut at the first separator -----

  datatype Halves = Halves(before: string, after: string, found: bool)

  /** strings.Cut: the parts around the first `sep`, or the whole string. */
  function Cut(s: string, sep: char): (h: Halves)
    ensures sep !in h.before
    ensures h.found ==> s == h.before + [sep] + h.after
    ensures !h.found ==> h.before == s && h.after == ""
    ensures h.found <==> sep in s
  {
    if s == "" then Halves("", "", false)
    else if s[0] == sep then Halves("", s[1..], true)
    else
      var h := Cut(s[1..], sep);
      Halves([s[0]] + h.before, h.after, h.found)
  }

  /** Cut finds the separator that was put after a separator-free string. */
  lemma {:induction false} CutJoined(a: string, sep: char, b: string)
    requires sep !in a
    ensures Cut(a + [sep] + b, sep) == Halves(a, b, true)
  {
    var s := a + [sep] + b;
    if a == "" {
      assert s[1..] == b;
    } else {
      assert s[1..] == a[1..] + [sep] + b;
      CutJoined(a[1..], sep, b);
      assert [a[0]] + a[1..] == a;
    }
  }

  // ----- Trimming -----

  /** unicode.IsSpace. */
  predicate IsSpace(c: char) {
    || c in "\t\n\r "
    || c as int in {0x0B, 0x0C, 0x85, 0xA0, 0x1680, 0x2028, 0x2029, 0x202F, 0x205F, 0x3000}
    || 0x2000 <= c as int <= 0x200A
  }

  function TrimLeft(s: string): (r: string)
    ensures |r| <= |s|
  {
    if s != "" && IsSpace(s[0]) then TrimLeft(s[1..]) else s
  }

  function TrimRight(s: string): (r: string)
    ensures |r| <= |s|
  {
    if s != "" && IsSpace(s[|s| - 1]) then TrimRight(s[..|s| - 1]) else s
  }

  function TrimSpace(s: string): string {
    TrimRight(TrimLeft(s))
  }

  /** A string is its own trimming exactly when neither end is a space. */
  lemma TrimmedIff(s: string)
    ensures TrimSpace(s) == s <==> s == "" || (!IsSpace(s[0]) && !IsSpace(s[|s| - 1]))
  {
    if s != "" && IsSpace(s[0]) {
      assert |TrimSpace(s)| <= |TrimLeft(s[1..])| < |s|;
    }
  }

  predicate Spaces(s: string) { forall c | c in s :: IsSpace(c) }

  /** Trimming takes the spaces off both ends and nothing else. */
  lemma TrimSpaceTakesSpaces(s: string) returns (left: string, right: string)
    ensures s == left + TrimSpace(s) + right && Spaces(left) && Spaces(right)
    ensures TrimSpace(s) == "" || (!IsSpace(TrimSpace(s)[0]) && !IsSpace(TrimSpace(s)[|TrimSpace(s)| - 1]))
  {
    left := TrimLeftTakes(s);
    right := TrimRightTakes(TrimLeft(s));
    if TrimSpace(s) != "" { assert TrimSpace(s)[0] == TrimLeft(s)[0]; }
  }

  lemma {:induction false} TrimLeftTakes(s: string) returns (left: string)
    ensures s == left + TrimLeft(s) && Spaces(left)
    ensures TrimLeft(s) == "" || !IsSpace(TrimLeft(s)[0])
  {
    left := "";
    if s != "" && IsSpace(s[0]) {
      left := TrimLeftTakes(s[1..]);
      left := [s[0]] + left;
    }
  }

  lemma {:induction false} TrimRightTakes(s: string) returns (right: string)
    ensures s == TrimRight(s) + right && Spaces(right)
    ensures TrimRight(s) == "" || !IsSpace(TrimRight(s)[|TrimRight(s)| - 1])
    decreases |s|
  {
    right := "";
    if s != "" && IsSpace(s[|s| - 1]) {
      right := TrimRightTakes(s[..|s| - 1]);
      right := right + [s[|s| - 1]];
    }
  }

  // ----- Byte order -----

  /** Text comparison, the order of sort keys. */
  predicate Less(a: string, b: string) {
    if b == "" then false
    else if a == "" then true
    else if a[0] != b[0] then a[0] < b[0]
    else Less(a[1..], b[1..])
  }

  lemma {:induction false} LessTransitive(a: string, b: string, c: string)
    requires Less(a, b) && Less(b, c)
    ensures Less(a, c)
  {
    if a != "" && a[0] == b[0] && b[0] == c[0] {
      LessTransitive(a[1..], b[1..], c[1..]);
    }
  }

  lemma {:induction false} LessIrreflexive(a: string)
    ensures !Less(a, a)
  {
    if a != "" { LessIrreflexive(a[1..]); }
  }

  /** The order is lexicographic: a proper prefix comes first, else the first character
      that differs decides. */
  lemma {:induction false} LessIff(a: string, b: string)
    ensures Less(a, b) <==> exists k: nat :: DecidesAt(a, b, k)
  {
    if a != "" && b != "" && a[0] == b[0] {
      LessIff(a[1..], b[1..]);
      if k: nat :| DecidesAt(a[1..], b[1..], k) {
        assert a[..k + 1] == [a[0]] + a[1..][..k] && b[..k + 1] == [b[0]] + b[1..][..k];
        assert DecidesAt(a, b, k + 1);
      }
      if k: nat :| DecidesAt(a, b, k) {
        assert k > 0 && a[1..][..k - 1] == a[..k][1..] && b[1..][..k - 1] == b[..k][1..];
        assert DecidesAt(a[1..], b[1..], k - 1);
      }
    } else if Less(a, b) {
      assert DecidesAt(a, b, 0);
    }
  }

  predicate DecidesAt(a: string, b: string, k: nat) {
    k <= |a| && k < |b| && a[..k] == b[..k] && (k == |a| || a[k] < b[k])
  }
}
