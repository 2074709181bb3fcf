/** auth/scope.go: the `resource:verb` scopes a token carries. */
module Scope {
  import opened Text

  datatype Parts = Parts(resource: string, verb: string) | NotAScope

  /** splitScope: both halves around the first colon have to be non-empty. */
  function SplitScope(s: string): Parts {
    var h := Cut(s, ':');
    if h.before == "" || h.after == "" then NotAScope else Parts(h.before, h.after)
  }

  /** scopeMatches: the same scope, or the held one is its resource's wildcard. */
  predicate ScopeMatches(held: string, want: string) {
    && held != "*:*" && held != "*"
    && (|| held == want
        || (var h, w := SplitScope(held), SplitScope(want);
            h.Parts? && h.verb == "*" && w.Parts? && h.resource == w.resource))
  }

  /** A held scope stands for itself and, when it is its resource's wildcard, for every
      verb of that resource; the two blanket scopes stand for nothing. */
  ghost predicate StandsFor(held: string, want: string) {
    held != "*:*" && held != "*" && (held == want || WildcardOf(held, want))
  }

  ghost predicate WildcardOf(held: string, want: string) {
    exists resource: string, verb: string :: IsWildcard(held, want, resource, verb)
  }

  predicate IsWildcard(held: string, want: string, resource: string, verb: string) {
    resource != "" && verb != "" && ':' !in resource && held == resource + ":" + "*" && want == resource + ":" + verb
  }

  lemma ScopeMatchesIff(held: string, want: string)
    ensures ScopeMatches(held, want) <==> StandsFor(held, want)
  {
    var h, w := SplitScope(held), SplitScope(want);
    if WildcardOf(held, want) {
      var resource: string, verb: string :| IsWildcard(held, want, resource, verb);
      PartsOf(resource, "*");
      PartsOf(resource, verb);
    } else if h.Parts? && h.verb == "*" && w.Parts? && h.resource == w.resource {
      ScopeParts(held);
      ScopeParts(want);
      assert IsWildcard(held, want, h.resource, w.verb);
    }
  }

  lemma ScopeParts(s: string)
    requires SplitScope(s).Parts?
    ensures var p := SplitScope(s); p.resource != "" && p.verb != "" && ':' !in p.resource && s == p.resource + ":" + p.verb
  {}

  lemma PartsOf(resource: string, verb: string)
    requires resource != "" && verb != "" && ':' !in resource
    ensures SplitScope(resource + ":" + verb) == Parts(resource, verb)
  {
    assert resource + ":" + verb == resource + [':'] + verb;
    CutJoined(resource, ':', verb);
  }

  /** HasScope: the scope list authorizes the verb on the resource. */
  ghost predicate HasScope(scope: seq<string>, resource: string, verb: string) {
    exists s | s in scope :: ScopeMatches(s, resource + ":" + verb)
  }

  ghost predicate CoveredBy(scope: seq<string>, want: string) {
    exists s | s in scope :: ScopeMatches(s, want)
  }

  /** `narrow` authorizes nothing that `wide` does not. */
  ghost predicate Attenuates(wide: seq<string>, narrow: seq<string>) {
    forall resource, verb :: HasScope(narrow, resource, verb) ==> HasScope(wide, resource, verb)
  }

  lemma ScopeMatchesTransitive(a: string, b: string, c: string)
    requires ScopeMatches(a, b) && ScopeMatches(b, c)
    ensures ScopeMatches(a, c)
  {}

  /** Scopes that are each covered authorize nothing more. */
  lemma CoveredAttenuates(wide: seq<string>, narrow: seq<string>)
    requires forall s | s in narrow :: CoveredBy(wide, s)
    ensures Attenuates(wide, narrow)
  {
    forall resource, verb | HasScope(narrow, resource, verb) ensures HasScope(wide, resource, verb) {
      var s :| s in narrow && ScopeMatches(s, resource + ":" + verb);
      var w :| w in wide && ScopeMatches(w, s);
      ScopeMatchesTransitive(w, s, resource + ":" + verb);
    }
  }

  method ScopeCoveredBy(parent: seq<string>, want: string) returns (ok: bool)
    ensures ok <==> CoveredBy(parent, want)
  {
    for i := 0 to |parent|
      invariant forall k | 0 <= k < i :: !ScopeMatches(parent[k], want)
    {
      if ScopeMatches(parent[i], want) {
        return true;
      }
    }
    return false;
  }

  /** intersectScopes: the requested scopes that are covered, each once, in the
      order of their first request (`at` lists the positions they came from). */
  method IntersectScopes(requested: seq<string>, grants: seq<string>) returns (out: seq<string>, ghost at: seq<nat>)
    ensures forall s :: s in out <==> s in requested && CoveredBy(grants, s)
    ensures |at| == |out|
    ensures forall i | 0 <= i < |out| :: at[i] < |requested| && requested[at[i]] == out[i] && out[i] !in requested[..at[i]]
    ensures forall i, j | 0 <= i < j < |out| :: at[i] < at[j] && out[i] != out[j]
    ensures Attenuates(grants, out)
  {
    out, at := [], [];
    var seen: set<string> := {};
    for k := 0 to |requested|
      invariant forall s :: s in seen <==> s in out
      invariant forall s :: s in out <==> s in requested[..k] && CoveredBy(grants, s)
      invariant |at| == |out|
      invariant forall i | 0 <= i < |out| :: at[i] < k && requested[at[i]] == out[i] && out[i] !in requested[..at[i]]
      invariant forall i, j | 0 <= i < j < |out| :: at[i] < at[j] && out[i] != out[j]
    {
      var r := requested[k];
      assert requested[..k + 1] == requested[..k] + [r];
      if r in seen {
        continue;
      }
      var covered := ScopeCoveredBy(grants, r);
      if covered {
        out, at := out + [r], at + [k];
        seen := seen + {r};
      }
    }
    assert requested[..|requested|] == requested;
    CoveredAttenuates(grants, out);
  }
}
