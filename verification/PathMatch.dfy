/** Go's path.Match on one path segment, after its documentation: `*` stands for
    any characters but '/', `?` for one, `[...]` for a character class, `\` quotes
    the next character. A pattern that does not parse is malformed whatever the
    name is. */
module PathMatch {
  import opened Globs

  datatype Verdict = Match | NoMatch | Malformed

  datatype Token = Star | AnyOne | Lit(c: char) | Class(negated: bool, ranges: seq<(char, char)>)

  datatype Parsed<+T> = Bad | Got(value: T, rest: string)

  /** The four characters that make a segment a pattern. */
  predicate IsGlobChar(c: char) { c in "*?[\\" }

  predicate Literal(seg: string) { forall c | c in seg :: !IsGlobChar(c) }

  /** One end of a class range; more of the class has to follow it. */
  function ClassChar(s: string): (r: Parsed<char>)
    ensures r.Got? ==> 0 < |r.rest| < |s|
  {
    if s == "" || s[0] == '-' || s[0] == ']' then Bad
    else
      var body := if s[0] == '\\' then s[1..] else s;
      if |body| < 2 then Bad else Got(body[0], body[1..])
  }

  /** The ranges of a class up to its closing bracket; at least one is needed. */
  function ClassRanges(s: string, none: bool): (r: Parsed<seq<(char, char)>>)
    ensures r.Got? ==> |r.rest| < |s|
    decreases |s|
  {
    if s != "" && s[0] == ']' && !none then Got([], s[1..])
    else
      var lo := ClassChar(s);
      if lo.Bad? then Bad
      else
        var hi := if lo.rest[0] == '-' then ClassChar(lo.rest[1..]) else lo;
        if hi.Bad? then Bad
        else
          var more := ClassRanges(hi.rest, false);
          if more.Bad? then Bad else Got([(lo.value, hi.value)] + more.value, more.rest)
  }

  function Tokens(pattern: string): Parsed<seq<Token>>
    decreases |pattern|
  {
    if pattern == "" then Got([], "")
    else if pattern[0] == '[' then
      var negated := |pattern| > 1 && pattern[1] == '^';
      var ranges := ClassRanges(if negated then pattern[2..] else pattern[1..], true);
      if ranges.Bad? then Bad else Before(Class(negated, ranges.value), Tokens(ranges.rest))
    else if pattern[0] == '\\' then
      if |pattern| == 1 then Bad else Before(Lit(pattern[1]), Tokens(pattern[2..]))
    else
      var token := match pattern[0] case '*' => Star case '?' => AnyOne case c => Lit(c);
      Before(token, Tokens(pattern[1..]))
  }

  function Before(token: Token, rest: Parsed<seq<Token>>): Parsed<seq<Token>> {
    if rest.Bad? then Bad else Got([token] + rest.value, rest.rest)
  }

  predicate TokenTakes(token: Token, c: char) {
    match token
    case Star => false
    case AnyOne => c != '/'
    case Lit(l) => c == l
    case Class(negated, ranges) => (exists r | r in ranges :: r.0 <= c <= r.1) != negated
  }

  predicate TokensTake(tokens: seq<Token>, name: string)
    decreases |tokens| + |name|
  {
    if tokens == [] then name == ""
    else if tokens[0] == Star then
      || TokensTake(tokens[1..], name)
      || (name != "" && name[0] != '/' && TokensTake(tokens, name[1..]))
    else name != "" && TokenTakes(tokens[0], name[0]) && TokensTake(tokens[1..], name[1..])
  }

  /** path.Match(pattern, name). */
  function Segment(pattern: string, name: string): Verdict {
    var tokens := Tokens(pattern);
    if tokens.Bad? then Malformed
    else if TokensTake(tokens.value, name) then Match
    else NoMatch
  }

  predicate WellFormed(pattern: string) { Tokens(pattern).Got? }

  /** A segment without a pattern character matches itself and nothing else. */
  lemma {:induction false} LiteralSegment(seg: string, name: string)
    requires Literal(seg)
    ensures Segment(seg, name) == if seg == name then Match else NoMatch
  {
    if seg != "" {
      var next := if name == "" then "" else name[1..];
      assert seg[0] in seg && !IsGlobChar(seg[0]);
      LiteralSegment(seg[1..], next);
      assert Tokens(seg).value[1..] == Tokens(seg[1..]).value;
      assert seg == [seg[0]] + seg[1..];
      assert name != "" ==> name == [name[0]] + name[1..];
    }
  }

  // ----- What the pattern characters stand for -----

  predicate IsStar(token: Token) { token == Star }

  /** On a segment the tokens read as any glob does: a star stands for any characters,
      every other token for one that it takes. */
  lemma {:induction false} TokensRead(tokens: seq<Token>, name: string)
    requires '/' !in name
    ensures TokensTake(tokens, name) <==> Reads(IsStar, TokenTakes, tokens, name)
    decreases |tokens| + |name|
  {
    if tokens == [] {
      ReadsNil(IsStar, TokenTakes, name);
    } else if tokens[0] == Star {
      ReadsStar(IsStar, TokenTakes, tokens, name);
      TokensRead(tokens[1..], name);
      assert name[0..] == name;
      if name != "" {
        TokensRead(tokens, name[1..]);
        ReadsStar(IsStar, TokenTakes, tokens, name[1..]);
        forall k | 0 < k <= |name| ensures name[k..] == name[1..][k - 1..] {}
        forall k | 0 <= k <= |name[1..]| ensures name[1..][k..] == name[k + 1..] {}
      }
    } else {
      ReadsOne(IsStar, TokenTakes, tokens, name);
      if name != "" { TokensRead(tokens[1..], name[1..]); }
    }
  }

  /** `?` stands for any one character of the segment. */
  lemma QuestionMark(lit: string, name: string)
    requires Literal(lit) && '/' !in name
    ensures Segment("?" + lit, name) == Match <==> |name| > 0 && name[1..] == lit
  {
    LiteralSegment(lit, lit);
    assert ("?" + lit)[1..] == lit;
    assert ([AnyOne] + Tokens(lit).value)[1..] == Tokens(lit).value;
    if name != "" { LiteralSegment(lit, name[1..]); }
  }

  /** `*` stands for any characters of the segment. */
  lemma StarMark(lit: string, name: string)
    requires Literal(lit) && '/' !in name
    ensures Segment("*" + lit, name) == Match <==> |lit| <= |name| && name[|name| - |lit|..] == lit
  {
    LiteralSegment(lit, lit);
    assert ("*" + lit)[1..] == lit;
    var tokens := [Star] + Tokens(lit).value;
    assert tokens[1..] == Tokens(lit).value;
    TokensRead(tokens, name);
    ReadsStar(IsStar, TokenTakes, tokens, name);
    forall k | 0 <= k <= |name| ensures Reads(IsStar, TokenTakes, tokens[1..], name[k..]) <==> name[k..] == lit {
      TokensRead(tokens[1..], name[k..]);
      LiteralSegment(lit, name[k..]);
    }
    if |lit| <= |name| && name[|name| - |lit|..] == lit {
      assert Reads(IsStar, TokenTakes, tokens[1..], name[|name| - |lit|..]);
    }
  }

  /** `\` takes the next character as it is. */
  lemma Quoted(c: char, lit: string, name: string)
    requires Literal(lit)
    ensures Segment("\\" + [c] + lit, name) == Match <==> name == [c] + lit
  {
    var pattern := "\\" + [c] + lit;
    assert pattern[0] == '\\' && pattern[1] == c && pattern[2..] == lit;
    LiteralSegment(lit, lit);
    assert ([Lit(c)] + Tokens(lit).value)[1..] == Tokens(lit).value;
    if name != "" {
      LiteralSegment(lit, name[1..]);
      assert name == [name[0]] + name[1..];
    }
  }

  /** `[a-b]` stands for one character of the range, `[^a-b]` for one outside it. */
  lemma CharacterRange(a: char, b: char, negated: bool, lit: string, name: string)
    requires Literal(lit) && a !in "-]\\^" && b !in "-]\\"
    ensures Segment((if negated then "[^" else "[") + [a] + "-" + [b] + "]" + lit, name) == Match <==>
            |name| > 0 && (a <= name[0] <= b) != negated && name[1..] == lit
  {
    var pattern := (if negated then "[^" else "[") + [a] + "-" + [b] + "]" + lit;
    var inner := [a] + "-" + [b] + "]" + lit;
    assert pattern[if negated then 2 else 1..] == inner && pattern[0] == '[';
    assert negated <==> pattern[1] == '^';
    RangeParses(a, b, lit);
    LiteralSegment(lit, lit);
    var tok := Class(negated, [(a, b)]);
    assert Tokens(pattern) == Before(tok, Tokens(lit));
    assert ([tok] + Tokens(lit).value)[1..] == Tokens(lit).value;
    if name != "" {
      LiteralSegment(lit, name[1..]);
      assert (exists r | r in [(a, b)] :: r.0 <= name[0] <= r.1) <==> a <= name[0] <= b by { assert (a, b) in [(a, b)]; }
    }
  }

  lemma RangeParses(a: char, b: char, lit: string)
    requires a !in "-]\\" && b !in "-]\\"
    ensures ClassRanges([a] + "-" + [b] + "]" + lit, true) == Got([(a, b)], lit)
  {
    var s := [a] + "-" + [b] + "]" + lit;
    assert s[1..] == "-" + [b] + "]" + lit && s[1..][1..] == [b] + "]" + lit && ([b] + "]" + lit)[1..] == "]" + lit;
    assert ("]" + lit)[1..] == lit;
    assert ClassChar(s) == Got(a, s[1..]);
    assert ClassChar([b] + "]" + lit) == Got(b, "]" + lit);
    assert ClassRanges("]" + lit, false) == Got([], lit);
    assert [(a, b)] + [] == [(a, b)];
  }

  /** An open class and a quote of nothing are malformed, whatever the name. */
  lemma OpenIsMalformed(name: string)
    ensures Segment("[", name) == Malformed && Segment("\\", name) == Malformed && Segment("[]", name) == Malformed
  {}
}
