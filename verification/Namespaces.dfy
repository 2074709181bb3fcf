/** The namespaced rules of auth/authorize.go (CheckHold, ShellEnvKeys): rows read
    exactly, never through the action lattice. */
module Namespaces {
  import opened Authorization
  import opened Verdicts

  /** The action is the name's, or the whole namespace's. */
  predicate NamesAction(action: string, prefix: string, name: string) {
    action == prefix + name || action == prefix + "*"
  }

  predicate Names(r: Row, prefix: string, name: string) { NamesAction(r.action, prefix, name) }

  predicate Speaks(r: Row, prefix: string, name: string, scope: string, claims: map<string, string>, params: map<string, string>) {
    Names(r, prefix, name) && RowApplies(r, Request(prefix + name, scope, params), claims)
  }

  ghost predicate Ruled(rows: seq<Row>, prefix: string, name: string, scope: string,
                        claims: map<string, string>, params: map<string, string>) {
    && (exists r | r in rows :: r.effect != "deny" && Speaks(r, prefix, name, scope, claims, params))
    && (forall r | r in rows :: r.effect == "deny" ==> !Speaks(r, prefix, name, scope, claims, params))
  }

  /** namespacedAllows: an allow row speaks and no deny row does. */
  method NamespacedAllows(rows: seq<Row>, prefix: string, name: string, scope: string,
                          claims: map<string, string>, params: map<string, string>) returns (ok: bool)
    ensures ok <==> Ruled(rows, prefix, name, scope, claims, params)
  {
    var allowed, denied := false, false;
    ghost var speaks: Row -> bool := r => Speaks(r, prefix, name, scope, claims, params);
    for i := 0 to |rows|
      invariant allowed <==> exists k | 0 <= k < i :: rows[k].effect != "deny" && speaks(rows[k])
      invariant denied <==> exists k | 0 <= k < i :: rows[k].effect == "deny" && speaks(rows[k])
    {
      var r := rows[i];
      assert r in rows;
      var said := Speaks(r, prefix, name, scope, claims, params);
      assert said <==> speaks(r);
      if !said {
        continue;
      }
      if r.effect == "deny" {
        denied := true;
      } else {
        allowed := true;
      }
    }
    RulesFound(rows, speaks);
    ok := allowed && !denied;
  }

  lemma RulesFound(rows: seq<Row>, speaks: Row -> bool)
    ensures (exists k | 0 <= k < |rows| :: rows[k].effect != "deny" && speaks(rows[k])) <==>
            (exists r | r in rows :: r.effect != "deny" && speaks(r))
    ensures (exists k | 0 <= k < |rows| :: rows[k].effect == "deny" && speaks(rows[k])) <==>
            !(forall r | r in rows :: r.effect == "deny" ==> !speaks(r))
  {
    if r :| r in rows && r.effect != "deny" && speaks(r) { var k :| 0 <= k < |rows| && rows[k] == r; }
    if r :| r in rows && r.effect == "deny" && speaks(r) { var k :| 0 <= k < |rows| && rows[k] == r; }
  }

  /** A row outside the namespace, an operator's blanket row included, decides nothing:
      holds and shell credentials are only ever granted by their own rows. */
  lemma {:induction false} OthersDecideNothing(rows: seq<Row>, own: seq<Row>, prefix: string, name: string, scope: string,
                            claims: map<string, string>, params: map<string, string>)
    requires forall r :: r in own <==> r in rows && Names(r, prefix, name)
    ensures Ruled(rows, prefix, name, scope, claims, params) <==> Ruled(own, prefix, name, scope, claims, params)
  {
    if Ruled(rows, prefix, name, scope, claims, params) {
      var r :| r in rows && r.effect != "deny" && Speaks(r, prefix, name, scope, claims, params);
      assert r in own;
    }
    if Ruled(own, prefix, name, scope, claims, params) {
      var r :| r in own && r.effect != "deny" && Speaks(r, prefix, name, scope, claims, params);
      assert r in rows;
      forall d | d in rows && d.effect == "deny" ensures !Speaks(d, prefix, name, scope, claims, params) {
        if Names(d, prefix, name) { assert d in own; }
      }
    }
  }

  /** So an operator who holds everything and nothing else is never held up, and is
      handed no shell credential. */
  lemma OperatorIsNotHeld(rows: seq<Row>, prefix: string, name: string, scope: string,
                          claims: map<string, string>, params: map<string, string>)
    requires prefix != "" && forall r | r in rows :: r.action == "*"
    requires prefix + name != "*"
    ensures !Ruled(rows, prefix, name, scope, claims, params)
  {
    forall r | r in rows ensures !Names(r, prefix, name) {
      assert |prefix + "*"| >= 2;
    }
  }

  // ----- The two readers -----

  const HOLD := "hold:mcp:"
  const SHELL_ENV := "shell:env:"

  /** The caller's own rows rule the name. */
  ghost predicate RuledFor(pol: Policy, c: Caller, prefix: string, name: string, scope: string, params: map<string, string>) {
    && (exists r | r in pol.rows :: Reaching(pol, c, r) && r.effect != "deny" && Speaks(r, prefix, name, scope, c.claims, params))
    && (forall r | r in pol.rows :: Reaching(pol, c, r) && r.effect == "deny" ==> !Speaks(r, prefix, name, scope, c.claims, params))
  }

  lemma RulesReached(pol: Policy, c: Caller, rows: seq<Row>, prefix: string, name: string, scope: string, params: map<string, string>)
    requires forall row :: row in rows <==> Reaching(pol, c, row)
    ensures Ruled(rows, prefix, name, scope, c.claims, params) <==> RuledFor(pol, c, prefix, name, scope, params)
  {
    if r :| r in pol.rows && Reaching(pol, c, r) && r.effect != "deny" && Speaks(r, prefix, name, scope, c.claims, params) {
      assert r in rows;
    }
    if r :| r in pol.rows && Reaching(pol, c, r) && r.effect == "deny" && Speaks(r, prefix, name, scope, c.claims, params) {
      assert r in rows;
    }
  }

  /** CheckHold: an unreadable table holds nothing. */
  method CheckHold(pol: Policy, c: Caller, tool: string, scope: string, params: map<string, string>) returns (held: bool)
    ensures held <==> pol.readable && c.principal != "" && tool != "" && RuledFor(pol, c, "hold:mcp:", tool, scope, params)
  {
    if c.principal == "" || tool == "" {
      return false;
    }
    var read := PolicyRows(pol, c);
    if read.Refused? {
      return false;
    }
    held := NamespacedAllows(read.value, HOLD, tool, scope, c.claims, params);
    RulesReached(pol, c, read.value, HOLD, tool, scope, params);
  }

  /** ShellEnvKeys before its final sort: the keys asked for that a rule grants, in
      the order they were asked. */
  method ShellEnvKeys(pol: Policy, c: Caller, scope: string, keys: seq<string>) returns (out: seq<string>)
    ensures out == if pol.readable && c.principal != "" then Granted(pol, c, scope, keys) else []
  {
    if c.principal == "" || |keys| == 0 {
      return [];
    }
    var read := PolicyRows(pol, c);
    if read.Refused? {
      return [];
    }
    out := [];
    for i := 0 to |keys|
      invariant out == Granted(pol, c, scope, keys[..i])
    {
      var ok := NamespacedAllows(read.value, SHELL_ENV, keys[i], scope, c.claims, map[]);
      RulesReached(pol, c, read.value, SHELL_ENV, keys[i], scope, map[]);
      assert keys[..i + 1][..i] == keys[..i];
      if ok {
        out := out + [keys[i]];
      }
    }
    assert keys[..|keys|] == keys;
  }

  ghost function Granted(pol: Policy, c: Caller, scope: string, keys: seq<string>): seq<string> {
    if keys == [] then []
    else
      var last := keys[|keys| - 1];
      Granted(pol, c, scope, keys[..|keys| - 1]) + if RuledFor(pol, c, SHELL_ENV, last, scope, map[]) then [last] else []
  }

  /** Exactly the granted keys, each as often as it was asked for. */
  lemma {:induction false} GrantedKeys(pol: Policy, c: Caller, scope: string, keys: seq<string>, k: string)
    ensures multiset(Granted(pol, c, scope, keys))[k] ==
            if RuledFor(pol, c, SHELL_ENV, k, scope, map[]) then multiset(keys)[k] else 0
  {
    if keys != [] {
      assert keys == keys[..|keys| - 1] + [keys[|keys| - 1]];
      GrantedKeys(pol, c, scope, keys[..|keys| - 1], k);
    }
  }

  /** By its meaning: an allow that reaches the caller and speaks of the target names the
      rule or its whole namespace, and no deny does. */
  lemma RuledForIff(pol: Policy, c: Caller, prefix: string, name: string, scope: string, params: map<string, string>)
    ensures RuledFor(pol, c, prefix, name, scope, params) <==>
            && (exists r | r in pol.rows :: r.effect != "deny" && RuleMeans(pol, c, r, prefix, name, scope, params))
            && !(exists r | r in pol.rows :: r.effect == "deny" && RuleMeans(pol, c, r, prefix, name, scope, params))
  {
    forall r | r in pol.rows
      ensures Reaching(pol, c, r) && Speaks(r, prefix, name, scope, c.claims, params) <==>
              RuleMeans(pol, c, r, prefix, name, scope, params)
    {
      ReachedIffMeans(pol, c, r.principal);
      RowAppliesIff(r, Request(prefix + name, scope, params), c.claims);
    }
  }

  ghost predicate RuleMeans(pol: Policy, c: Caller, r: Row, prefix: string, name: string, scope: string, params: map<string, string>) {
    && (r.action == prefix + name || r.action == prefix + "*")
    && ReachedMeans(pol, c, r.principal) && RowSpeaks(r, Request(prefix + name, scope, params), c.claims)
  }
}
