/** The argument rules of auth/authorize.go: the one-segment glob, the clauses of
    a `params` spec, and the two writers of such specs. */
module Params {
  import opened Text
  import opened Globs

  datatype Result<+T> = Ok(value: T) | Refused

  // ----- segGlob -----

  predicate StarChar(c: char) { c == '*' }

  predicate SameChar(p: char, c: char) { p == c }

  /** What segGlob's pattern means: each star stands for some string, every other
      character for itself. */
  ghost predicate Spells(pat: string, s: string) {
    Reads(StarChar, SameChar, pat, s)
  }

  function TrimStars(pat: string): (r: string)
    ensures |r| <= |pat|
    ensures pat != "" && pat[0] == '*' ==> |r| < |pat|
  {
    if pat != "" && pat[0] == '*' then TrimStars(pat[1..]) else pat
  }

  predicate SegGlob(pat: string, s: string)
    decreases |pat|, 1
  {
    pat == "*" || pat == "**" || pat == s || Walk(pat, s)
  }

  predicate Walk(pat: string, s: string)
    decreases |pat|, 0
  {
    if pat == "" then s == ""
    else if pat[0] == '*' then exists i | 0 <= i <= |s| :: SegGlob(TrimStars(pat), s[i..])
    else s != "" && pat[0] == s[0] && Walk(pat[1..], s[1..])
  }

  lemma SpellsStar(pat: string, s: string)
    requires pat != "" && pat[0] == '*'
    ensures Spells(pat, s) <==> exists k | 0 <= k <= |s| :: Spells(pat[1..], s[k..])
  {
    ReadsStar(StarChar, SameChar, pat, s);
  }

  /** A run of stars reads as one. */
  lemma {:induction false} SpellsStars(pat: string, s: string)
    requires pat != "" && pat[0] == '*'
    ensures Spells(pat, s) <==> exists k | 0 <= k <= |s| :: Spells(TrimStars(pat), s[k..])
  {
    SpellsStar(pat, s);
    if pat[1..] != "" && pat[1] == '*' {
      forall k | 0 <= k <= |s|
        ensures Spells(pat[1..], s[k..]) <==> exists m | k <= m <= |s| :: Spells(TrimStars(pat), s[m..])
      {
        SpellsStars(pat[1..], s[k..]);
        forall j | 0 <= j <= |s| - k ensures s[k..][j..] == s[k + j..] {}
        if m :| k <= m <= |s| && Spells(TrimStars(pat), s[m..]) {
          assert s[k..][m - k..] == s[m..];
        }
      }
      if k :| 0 <= k <= |s| && Spells(TrimStars(pat), s[k..]) {
        assert Spells(pat[1..], s[k..]);
      }
    }
  }

  lemma {:induction false} SpellsItself(s: string)
    ensures Spells(s, s)
  {
    if s == "" {
      ReadsNil(StarChar, SameChar, s);
    } else {
      SpellsItself(s[1..]);
      if s[0] == '*' {
        ReadsStar(StarChar, SameChar, s, s);
      } else {
        ReadsOne(StarChar, SameChar, s, s);
      }
    }
  }

  lemma {:induction false} StarsSpellAll(pat: string, s: string)
    requires pat == "*" || pat == "**"
    ensures Spells(pat, s)
  {
    SpellsStars(pat, s);
    ReadsNil(StarChar, SameChar, s[|s|..]);
    assert TrimStars(pat) == "" && Spells(TrimStars(pat), s[|s|..]);
  }

  /** segGlob decides exactly the meaning of its pattern. */
  lemma {:induction false} SegGlobIffSpells(pat: string, s: string)
    ensures SegGlob(pat, s) <==> Spells(pat, s)
    ensures Walk(pat, s) <==> Spells(pat, s)
    decreases |pat|
  {
    if pat == s { SpellsItself(s); }
    if pat == "*" || pat == "**" { StarsSpellAll(pat, s); }
    if pat == "" {
      ReadsNil(StarChar, SameChar, s);
    } else if pat[0] == '*' {
      SpellsStars(pat, s);
      forall i | 0 <= i <= |s|
        ensures SegGlob(TrimStars(pat), s[i..]) <==> Spells(TrimStars(pat), s[i..])
      {
        SegGlobIffSpells(TrimStars(pat), s[i..]);
      }
    } else {
      ReadsOne(StarChar, SameChar, pat, s);
      if s != "" { SegGlobIffSpells(pat[1..], s[1..]); }
    }
  }

  /** segGlob as it is written: a loop that consumes pattern and string. */
  method SegGlobLoop(pattern: string, str: string) returns (ok: bool)
    ensures ok <==> Spells(pattern, str)
    decreases |pattern|
  {
    SegGlobIffSpells(pattern, str);
    if pattern == "*" || pattern == "**" || pattern == str {
      return true;
    }
    var pat, s := pattern, str;
    while true
      invariant |pat| <= |pattern|
      invariant Spells(pattern, str) <==> Spells(pat, s)
      decreases |pat|
    {
      SegGlobIffSpells(pat, s);
      if pat == "" {
        return s == "";
      }
      if pat[0] == '*' {
        SpellsStars(pat, s);
        pat := TrimStars(pat);
        for i := 0 to |s| + 1
          invariant forall k | 0 <= k < i :: !Spells(pat, s[k..])
        {
          var rest := SegGlobLoop(pat, s[i..]);
          if rest {
            return true;
          }
        }
        return false;
      }
      ReadsOne(StarChar, SameChar, pat, s);
      if s == "" || pat[0] != s[0] {
        return false;
      }
      pat, s := pat[1..], s[1..];
    }
  }

  /** Without a star a pattern spells itself alone. */
  lemma {:induction false} StarFreeSpells(pat: string, s: string)
    requires '*' !in pat
    ensures Spells(pat, s) <==> pat == s
  {
    if pat == "" {
      ReadsNil(StarChar, SameChar, s);
    } else {
      ReadsOne(StarChar, SameChar, pat, s);
      if s != "" {
        StarFreeSpells(pat[1..], s[1..]);
        assert pat == [pat[0]] + pat[1..] && s == [s[0]] + s[1..];
      }
    }
  }

  // ----- Evaluating a spec -----

  predicate ClauseHolds(clause: string, params: map<string, string>) {
    var part := TrimSpace(clause);
    var h := Cut(part, '=');
    || part == ""
    || (if !h.found then part in params
        else
          var k, v := TrimSpace(h.before), TrimSpace(h.after);
          k in params && SegGlob(v, params[k]))
  }

  /** paramsMatch: every clause of the spec holds of the arguments. */
  predicate ParamsMatch(spec: string, params: map<string, string>) {
    spec == "" || forall c | c in Split(spec, ',') :: ClauseHolds(c, params)
  }

  predicate ClaimHolds(clause: string, claims: map<string, string>) {
    var part := TrimSpace(clause);
    var h := Cut(part, '=');
    || part == ""
    || (if !h.found then part in claims && claims[part] != ""
        else
          var k, v := TrimSpace(h.before), TrimSpace(h.after);
          k in claims && SegGlob(v, claims[k]))
  }

  /** predicateMatches: every clause of the predicate holds of the claims. */
  predicate PredicateMatches(pred: string, claims: map<string, string>) {
    pred == "" || forall c | c in Split(pred, ',') :: ClaimHolds(c, claims)
  }

  // ----- Accepting a spec for storage -----

  function ClauseName(clause: string): string { Cut(clause, '=').before }

  /** A clause that says at write time what it will say at read time. */
  predicate ExactClause(clause: string) {
    var h := Cut(clause, '=');
    h.before != "" && TrimSpace(h.before) == h.before && (h.found ==> TrimSpace(h.after) == h.after)
  }

  ghost predicate All(test: string -> bool, s: seq<string>) {
    forall x | x in s :: test(x)
  }

  ghost predicate DistinctBy(name: string -> string, s: seq<string>) {
    forall i, j | 0 <= i < j < |s| :: name(s[i]) != name(s[j])
  }

  ghost predicate ValidSpec(spec: string) {
    var clauses := Split(spec, ',');
    spec == "" || (All(ExactClause, clauses) && DistinctBy(ClauseName, clauses))
  }

  /** `seen` is the names of the clauses so far. */
  ghost predicate NamesOf(name: string -> string, s: seq<string>, seen: set<string>) {
    && (forall x | x in s :: name(x) in seen)
    && (forall n | n in seen :: exists x | x in s :: name(x) == n)
  }

  lemma NextClause(test: string -> bool, name: string -> string, s: seq<string>, i: nat, seen: set<string>)
    requires i < |s| && NamesOf(name, s[..i], seen)
    ensures All(test, s) ==> test(s[i])
    ensures All(test, s[..i]) && test(s[i]) ==> All(test, s[..i + 1])
    ensures DistinctBy(name, s) ==> name(s[i]) !in seen
    ensures DistinctBy(name, s[..i]) && name(s[i]) !in seen ==> DistinctBy(name, s[..i + 1])
    ensures NamesOf(name, s[..i + 1], seen + {name(s[i])})
  {
    assert s[..i + 1] == s[..i] + [s[i]];
    if name(s[i]) in seen {
      var x :| x in s[..i] && name(x) == name(s[i]);
      var k :| 0 <= k < i && s[k] == x;
    }
    forall k | 0 <= k < i ensures s[k] in s[..i] { assert s[..i][k] == s[k]; }
  }

  /** ValidateParams: exactly the specs whose clauses are exact and whose names differ. */
  method ValidateParams(spec: string) returns (ok: bool)
    ensures ok <==> ValidSpec(spec)
  {
    if spec == "" {
      return true;
    }
    var clauses := Split(spec, ',');
    var seen: set<string> := {};
    for i := 0 to |clauses|
      invariant All(ExactClause, clauses[..i]) && DistinctBy(ClauseName, clauses[..i])
      invariant NamesOf(ClauseName, clauses[..i], seen)
    {
      NextClause(ExactClause, ClauseName, clauses, i, seen);
      var exact := ClauseIsExact(clauses[i]);
      if !exact {
        return false;
      }
      if ClauseName(clauses[i]) in seen {
        return false;
      }
      seen := seen + {ClauseName(clauses[i])};
    }
    assert clauses[..|clauses|] == clauses;
    return true;
  }

  /** The checks on one clause: no surrounding spaces, no empty name. */
  method ClauseIsExact(clause: string) returns (ok: bool)
    ensures ok <==> ExactClause(clause)
  {
    var h := Cut(clause, '=');
    if h.before != TrimSpace(h.before) || (h.found && h.after != TrimSpace(h.after)) {
      return false;
    }
    return h.before != "";
  }

  /** The clause read with no trimming at all. */
  predicate ClauseHoldsAsWritten(clause: string, params: map<string, string>) {
    var h := Cut(clause, '=');
    if !h.found then clause in params else h.before in params && SegGlob(h.after, params[h.before])
  }

  /** On a spec the writer accepts, trimming changes nothing: each clause is its
      own trimming, and the spec holds exactly when the clauses hold as written. */
  lemma AcceptedSpecReadsAsWritten(spec: string, params: map<string, string>)
    requires ValidSpec(spec) && spec != ""
    ensures forall c | c in Split(spec, ',') :: c != "" && TrimSpace(c) == c
    ensures ParamsMatch(spec, params) <==> forall c | c in Split(spec, ',') :: ClauseHoldsAsWritten(c, params)
  {
    forall c | c in Split(spec, ',')
      ensures c != "" && TrimSpace(c) == c
      ensures ClauseHolds(c, params) <==> ClauseHoldsAsWritten(c, params)
    {
      ExactClauseTrimmed(c);
    }
  }

  lemma ExactClauseTrimmed(c: string)
    requires ExactClause(c)
    ensures c != "" && TrimSpace(c) == c
  {
    var h := Cut(c, '=');
    TrimmedIff(h.before);
    TrimmedIff(h.after);
    TrimmedIff(c);
    if h.found {
      assert c[0] == h.before[0];
      assert c[|c| - 1] == if h.after == "" then '=' else h.after[|h.after| - 1];
    }
  }

  // ----- Writing a spec from concrete arguments -----

  predicate Exact(s: string) { ',' !in s && '*' !in s && TrimSpace(s) == s }

  /** The arguments that can be stated as an exact rule. */
  predicate Statable(k: string, v: string) {
    k != "" && '=' !in k && Exact(k) && Exact(v)
  }

  ghost predicate Agrees(values: map<string, string>, params: map<string, string>) {
    forall k | k in values :: k in params && params[k] == values[k]
  }

  ghost predicate Enumerates(keys: seq<string>, values: map<string, string>) {
    && (forall k :: k in keys <==> k in values)
    && (forall i, j | 0 <= i < j < |keys| :: keys[i] != keys[j])
  }

  /** ParamsSpec. It answers a rule exactly when every argument is statable, and
      the rule holds of exactly the calls that agree with the values on every key.
      `keys` is the order the clauses are written in. */
  method ParamsSpec(keys: seq<string>, values: map<string, string>) returns (r: Result<string>)
    requires Enumerates(keys, values)
    ensures r.Ok? <==> forall k | k in values ::
              && k != "" && '=' !in k && ',' !in k && '*' !in k && ',' !in values[k] && '*' !in values[k]
              && TrimSpace(k) == k && TrimSpace(values[k]) == values[k]
    ensures r.Ok? ==> ValidSpec(r.value)
    ensures r.Ok? ==> forall p: map<string, string> :: ParamsMatch(r.value, p) <==> Agrees(values, p)
  {
    var parts: seq<string> := [];
    for i := 0 to |keys|
      invariant |parts| == i
      invariant forall k | 0 <= k < i ::
          && '=' !in keys[k] && Exact(keys[k]) && Exact(values[keys[k]])
          && parts[k] == keys[k] + ['='] + values[keys[k]]
    {
      var k, v := keys[i], values[keys[i]];
      if '=' in k || !Exact(k) || !Exact(v) {
        assert k in values && !Statable(k, v);
        return Refused;
      }
      parts := parts + [k + ['='] + v];
    }
    var spec := Join(parts, ',');
    var valid := ValidateParams(spec);
    RenderedValid(keys, values, parts);
    if "" !in keys {
      forall p: map<string, string> ensures ParamsMatch(spec, p) <==> Agrees(values, p) {
        RenderedMatches(keys, values, parts, p);
      }
    }
    if !valid {
      return Refused;
    }
    if !ParamsMatch(spec, values) {
      assert false;
      return Refused;
    }
    return Ok(spec);
  }

  /** One clause a key, in order, with nothing in it that the reader would split,
      widen or strip. */
  ghost predicate Rendered(keys: seq<string>, values: map<string, string>, parts: seq<string>) {
    && Enumerates(keys, values)
    && |parts| == |keys|
    && (forall i | 0 <= i < |keys| ::
          && '=' !in keys[i] && Exact(keys[i]) && Exact(values[keys[i]])
          && parts[i] == keys[i] + ['='] + values[keys[i]])
  }

  lemma RenderedSplits(keys: seq<string>, values: map<string, string>, parts: seq<string>)
    requires Rendered(keys, values, parts) && |keys| > 0
    ensures Split(Join(parts, ','), ',') == parts && Join(parts, ',') != ""
    ensures forall i | 0 <= i < |keys| :: Cut(parts[i], '=') == Halves(keys[i], values[keys[i]], true)
  {
    forall i | 0 <= i < |keys|
      ensures ',' !in parts[i] && Cut(parts[i], '=') == Halves(keys[i], values[keys[i]], true)
    {
      CutJoined(keys[i], '=', values[keys[i]]);
    }
    SplitJoin(parts, ',');
    assert Split("", ',') == [""];
    assert parts[0] != "";
  }

  /** The rendered rule is storable exactly when no name is empty. */
  lemma RenderedValid(keys: seq<string>, values: map<string, string>, parts: seq<string>)
    requires Rendered(keys, values, parts)
    ensures ValidSpec(Join(parts, ',')) <==> "" !in keys
  {
    if keys == [] { return; }
    RenderedSplits(keys, values, parts);
    RenderedClauses(keys, values, parts);
    if "" in keys {
      var i :| 0 <= i < |keys| && keys[i] == "";
      assert parts[i] in parts && !ExactClause(parts[i]);
    } else {
      forall c | c in parts ensures ExactClause(c) {}
    }
  }

  lemma RenderedClauses(keys: seq<string>, values: map<string, string>, parts: seq<string>)
    requires Rendered(keys, values, parts)
    requires forall i | 0 <= i < |keys| :: Cut(parts[i], '=') == Halves(keys[i], values[keys[i]], true)
    ensures forall i | 0 <= i < |keys| :: ExactClause(parts[i]) <==> keys[i] != ""
    ensures DistinctBy(ClauseName, parts)
  {
    forall i | 0 <= i < |keys| ensures ExactClause(parts[i]) <==> keys[i] != "" {
      ExactIfNamed(keys[i], values[keys[i]], parts[i]);
    }
    forall i | 0 <= i < |keys| ensures ClauseName(parts[i]) == keys[i] {}
  }

  lemma ExactIfNamed(k: string, v: string, part: string)
    requires Exact(k) && Exact(v) && Cut(part, '=') == Halves(k, v, true)
    ensures ExactClause(part) <==> k != ""
  {}

  /** A storable rendered rule holds of exactly the calls that agree with it. */
  lemma RenderedMatches(keys: seq<string>, values: map<string, string>, parts: seq<string>, p: map<string, string>)
    requires Rendered(keys, values, parts) && "" !in keys
    ensures ParamsMatch(Join(parts, ','), p) <==> Agrees(values, p)
  {
    if keys == [] { return; }
    RenderedSplits(keys, values, parts);
    forall i | 0 <= i < |keys|
      ensures ClauseHolds(parts[i], p) <==> keys[i] in p && p[keys[i]] == values[keys[i]]
    {
      var k, v := keys[i], values[keys[i]];
      assert k in keys && ExactClause(parts[i]);
      ExactClauseTrimmed(parts[i]);
      if k in p {
        SegGlobIffSpells(v, p[k]);
        StarFreeSpells(v, p[k]);
      }
    }
    if ParamsMatch(Join(parts, ','), p) {
      forall k | k in values ensures k in p && p[k] == values[k] {
        var i :| 0 <= i < |keys| && keys[i] == k;
        assert parts[i] in parts;
      }
    }
    if Agrees(values, p) {
      forall c | c in parts ensures ClauseHolds(c, p) {
        var i :| 0 <= i < |parts| && parts[i] == c;
        assert keys[i] in keys;
      }
    }
  }
}
