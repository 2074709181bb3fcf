/** How far auth/delegate.go keeps its promise that a granter cannot delegate past its
    own deny. The overlap test reads actions through the lattice alone. Authorize's
    sender axis also reads `ns:*` in an allow as a wildcard of its namespace, and the
    hold and shell-key rules read `prefix*` so in an allow and in a deny. */
module OwnDenies {
  import opened Text
  import opened Acl
  import opened Authorization
  import opened Axes
  import opened Delegation
  import opened Namespaces

  /** The deny names one action of the namespace the wanted wildcard spans, outside
      `mcp:`. */
  predicate SlipsPast(want: string, deny: string) {
    IdentityCovers(want, deny) && want != deny && !("mcp:" <= deny)
  }

  predicate ActionsOverlap(a: string, b: string) { ActionCovers(a, b) || ActionCovers(b, a) }

  /** As Authorize reads the two: the overlap test misses a deny on an action the row
      confers exactly when the deny slips past. */
  lemma OverlapMissesIff(want: string, deny: string)
    ensures (exists a :: Conferred(want, a) && ActionCovers(deny, a)) && !ActionsOverlap(want, deny)
            <==> SlipsPast(want, deny)
  {
    if SlipsPast(want, deny) {
      SlippingIsMissed(want, deny);
      assert Conferred(want, deny) && ActionCovers(deny, deny);
    }
    if a :| Conferred(want, a) && ActionCovers(deny, a) && !ActionsOverlap(want, deny) {
      MissedSlips(want, deny, a);
    }
  }

  predicate Conferred(rowAction: string, a: string) { ActionCovers(rowAction, a) || IdentityCovers(rowAction, a) }

  lemma SlippingIsMissed(want: string, deny: string)
    requires SlipsPast(want, deny)
    ensures !ActionsOverlap(want, deny)
  {
    var ns := Cut(deny, ':');
    assert want == ns.before + ":*" && want[|ns.before|] == ':' && |want| == |ns.before| + 2;
    assert deny == ns.before + [':'] + ns.after;
    assert deny[|ns.before|] == ':' && ':' !in "admin" && ':' !in "*";
    assert ':' in want && ':' in deny;
    assert "mcp:*"[..4] == "mcp:";
    NamespaceOf(want, deny);
    assert !("mcp:" <= want);
  }

  lemma MissedSlips(want: string, deny: string, a: string)
    requires Conferred(want, a) && ActionCovers(deny, a) && !ActionsOverlap(want, deny)
    ensures SlipsPast(want, deny)
  {
    if ActionCovers(want, a) {
      ActionsLaminar(want, deny, a);
    } else if "mcp:" <= a {
      ToolActions(want, a);
    } else {
      assert ':' !in "interact";
    }
  }

  /** Delegate accepts the row, with `pol` as its deny read and whatever reads failing in
      its grant read. */
  ghost predicate Checked(pol: Policy, grantDown: set<(string, string)>, granter: string, w: Row) {
    MayDelegate(pol.(down := grantDown), pol.down, granter, w)
  }

  lemma CheckedApart(pol: Policy, grantDown: set<(string, string)>, granter: string, w: Row)
    requires Checked(pol, grantDown, granter, w)
    ensures forall d | d in pol.rows && Held(pol, granter, d) && d.effect == "deny" :: !Overlaps(d, w)
  {
    assert Late(pol.(down := grantDown), pol.down) == pol;
  }

  /** On any target the wanted row reaches, the row confers some action the granter is
      denied exactly when one of the granter's denies applies there and slips past. */
  lemma OwnDenyBrokenIff(pol: Policy, grantDown: set<(string, string)>, granter: string, w: Row, scope: string,
                         params: map<string, string>, claims: map<string, string>)
    requires Checked(pol, grantDown, granter, w) && RowApplies(w, Request("", scope, params), claims)
    ensures (exists a :: RowConfers(w, Request(a, scope, params), claims)
                         && Denied(pol, Caller(granter, claims, [], ""), Request(a, scope, params)))
            <==>
            exists d | d in pol.rows :: Held(pol, granter, d) && d.effect == "deny" && SlipsPast(w.action, d.action)
                                        && RowApplies(d, Request("", scope, params), claims)
  {
    var c := Caller(granter, claims, [], "");
    SamePrincipals(pol, granter, claims);
    CheckedApart(pol, grantDown, granter, w);
    if a :| RowConfers(w, Request(a, scope, params), claims) && Denied(pol, c, Request(a, scope, params)) {
      var d :| d in pol.rows && Forbids(pol, c, d, Request(a, scope, params));
      assert Held(pol, granter, d);
      MatchPatternIffCovers(d.scope, scope);
      MatchPatternIffCovers(w.scope, scope);
      MayMeetSound(d.scope, w.scope, scope);
      assert !Overlaps(d, w);
      OverlapMissesIff(w.action, d.action);
    }
    if d :| d in pol.rows && Held(pol, granter, d) && d.effect == "deny" && SlipsPast(w.action, d.action)
            && RowApplies(d, Request("", scope, params), claims) {
      assert Forbids(pol, c, d, Request(d.action, scope, params));
      assert RowConfers(w, Request(d.action, scope, params), claims);
    }
  }

  /** Where no such deny applies, delegation is sound on both axes: what the row confers,
      a row the granter may hand on confers, and the granter is not denied it. */
  lemma BothAxesAreSound(pol: Policy, grantDown: set<(string, string)>, granter: string, w: Row, q: Request,
                         claims: map<string, string>)
    requires Checked(pol, grantDown, granter, w) && RowConfers(w, q, claims)
    requires forall d | d in pol.rows && Held(pol, granter, d) && d.effect == "deny" && SlipsPast(w.action, d.action) ::
               !RowApplies(d, q, claims)
    ensures exists h | h in pol.rows :: Held(pol.(down := grantDown), granter, h) && Grantable(h) && RowConfers(h, q, claims)
    ensures !Denied(pol, Caller(granter, claims, [], ""), q)
  {
    var h :| h in pol.rows && Held(pol.(down := grantDown), granter, h) && Grantable(h) && RowCovers(h, w);
    CoveringRowConfers(h, w, q, claims);
    OwnDenyBrokenIff(pol, grantDown, granter, w, q.scope, q.params, claims);
    assert q == Request(q.action, q.scope, q.params);
  }

  // ----- The namespaced rules -----

  /** As the namespaced rules read the two: the overlap test misses a deny that shares a
      name with the wanted action exactly when one of them is the whole namespace and
      the other is not. */
  lemma OverlapMissesRuleIff(want: string, deny: string, prefix: string)
    requires prefix in {HOLD, SHELL_ENV}
    ensures (exists name :: NamesAction(want, prefix, name) && NamesAction(deny, prefix, name)) && !ActionsOverlap(want, deny)
            <==> want != deny && prefix <= want && prefix <= deny && (want == prefix + "*" || deny == prefix + "*")
  {
    if want != deny && prefix <= want && prefix <= deny && (want == prefix + "*" || deny == prefix + "*") {
      var name := if want == prefix + "*" then deny[|prefix|..] else want[|prefix|..];
      assert NamesAction(want, prefix, name) && NamesAction(deny, prefix, name);
      RuleActionsApart(want, deny, prefix);
    }
  }

  /** Rule actions are comparable only when they are equal. */
  lemma RuleActionsApart(a: string, b: string, prefix: string)
    requires prefix in {HOLD, SHELL_ENV} && prefix <= a && prefix <= b && a != b
    ensures !ActionsOverlap(a, b)
  {
    assert a[0] == prefix[0] && b[0] == prefix[0] && prefix[0] in {'h', 's'};
    assert "mcp:"[0] == 'm' && "interact"[0] == 'i';
  }

  ghost predicate AllowsRule(pol: Policy, granter: string, r: Row, prefix: string, name: string, scope: string,
                             params: map<string, string>, claims: map<string, string>) {
    Held(pol, granter, r) && r.effect != "deny" && Speaks(r, prefix, name, scope, claims, params)
  }

  ghost predicate DeniesRule(pol: Policy, granter: string, r: Row, prefix: string, name: string, scope: string,
                             params: map<string, string>, claims: map<string, string>) {
    Held(pol, granter, r) && r.effect == "deny" && Speaks(r, prefix, name, scope, claims, params)
  }

  /** A rule a granter may hand on is one it is ruled by itself exactly when some allow
      of its own speaks of it and no deny spelled another way does; a granter that may
      hand it on by more than the blanket action has such an allow. */
  lemma NamespacedDelegationIff(pol: Policy, grantDown: set<(string, string)>, granter: string, w: Row,
                                prefix: string, name: string, scope: string, params: map<string, string>, claims: map<string, string>)
    requires Checked(pol, grantDown, granter, w) && Speaks(w, prefix, name, scope, claims, params)
    requires prefix in {HOLD, SHELL_ENV}
    ensures RuledFor(pol, Caller(granter, claims, [], ""), prefix, name, scope, params) <==>
            && (exists r | r in pol.rows :: AllowsRule(pol, granter, r, prefix, name, scope, params, claims))
            && !(exists d | d in pol.rows :: DeniesRule(pol, granter, d, prefix, name, scope, params, claims) && d.action != w.action)
    ensures (exists h | h in pol.rows :: Held(pol, granter, h) && Grantable(h) && RowCovers(h, w) && h.action != "*") ==>
            exists r | r in pol.rows :: AllowsRule(pol, granter, r, prefix, name, scope, params, claims)
  {
    RuledByItself(pol, granter, prefix, name, scope, params, claims);
    forall d | d in pol.rows && DeniesRule(pol, granter, d, prefix, name, scope, params, claims) ensures d.action != w.action {
      DenyIsSpelledOtherwise(pol, grantDown, granter, w, d, prefix, name, scope, params, claims);
    }
    if h :| h in pol.rows && Held(pol, granter, h) && Grantable(h) && RowCovers(h, w) && h.action != "*" {
      CoveringRuleSpeaks(h, w, prefix, name, scope, params, claims);
      assert AllowsRule(pol, granter, h, prefix, name, scope, params, claims);
    }
  }

  lemma RuledByItself(pol: Policy, granter: string, prefix: string, name: string, scope: string,
                      params: map<string, string>, claims: map<string, string>)
    ensures RuledFor(pol, Caller(granter, claims, [], ""), prefix, name, scope, params) <==>
            && (exists r | r in pol.rows :: AllowsRule(pol, granter, r, prefix, name, scope, params, claims))
            && !(exists d | d in pol.rows :: DeniesRule(pol, granter, d, prefix, name, scope, params, claims))
  {
    SamePrincipals(pol, granter, claims);
  }

  lemma DenyIsSpelledOtherwise(pol: Policy, grantDown: set<(string, string)>, granter: string, w: Row, d: Row,
                               prefix: string, name: string, scope: string, params: map<string, string>, claims: map<string, string>)
    requires Checked(pol, grantDown, granter, w) && Speaks(w, prefix, name, scope, claims, params)
    requires d in pol.rows && DeniesRule(pol, granter, d, prefix, name, scope, params, claims)
    ensures d.action != w.action
  {
    CheckedApart(pol, grantDown, granter, w);
    MatchPatternIffCovers(w.scope, scope);
    MatchPatternIffCovers(d.scope, scope);
    MayMeetSound(d.scope, w.scope, scope);
  }

  lemma CoveringRuleSpeaks(h: Row, w: Row, prefix: string, name: string, scope: string,
                           params: map<string, string>, claims: map<string, string>)
    requires RowCovers(h, w) && h.claim == "" && h.action != "*" && prefix in {HOLD, SHELL_ENV}
    requires Speaks(w, prefix, name, scope, claims, params)
    ensures Speaks(h, prefix, name, scope, claims, params)
  {
    assert w.action[0] == prefix[0] && prefix[0] in {'h', 's'} && "mcp:"[0] == 'm' && "interact"[0] == 'i';
    assert h.action == w.action;
    MatchPatternIffCovers(w.scope, scope);
    ScopeCoversSound(h.scope, w.scope, scope);
    MatchPatternIffCovers(h.scope, scope);
  }

  /** A granter who may hand on every shell key but one hands on that one too: the deny
      names the key, the wanted row the namespace, and the two are not compared. */
  lemma KeySlipsPastTheOwnDeny(pol: Policy, w: Row)
    requires pol == Policy([Row("u:g", "shell:env:*", "a", "", "", "allow", true),
                            Row("u:g", "shell:env:K", "a", "", "", "deny", false)], [], true, {}, {})
    requires w == Row("u:x", "shell:env:*", "a", "", "", "allow", false)
    ensures Delegable(pol, {}, "u:g", [w])
    ensures !RuledFor(pol, Granter("u:g"), SHELL_ENV, "K", "a", map[])
    ensures RuledFor(AddRow(pol, w), Granter("u:x"), SHELL_ENV, "K", "a", map[])
  {
    LiteralScope("a", "a");
    assert SHELL_ENV + "*" == "shell:env:*" && SHELL_ENV + "K" == "shell:env:K" && "K"[0] != "*"[0];
    assert "shell:env:*"[10] != "shell:env:K"[10];
    KeyIsHandedOn(pol, pol.rows[0], pol.rows[1], w);
  }

  /** And the other way round: a granter denied every shell key hands on the one key it
      holds by name, though that deny does not slip past as Authorize reads it. */
  lemma NamespaceDenyIsNotCompared(pol: Policy, w: Row)
    requires pol == Policy([Row("u:g", "shell:env:K", "a", "", "", "allow", true),
                            Row("u:g", "shell:env:*", "a", "", "", "deny", false)], [], true, {}, {})
    requires w == Row("u:x", "shell:env:K", "a", "", "", "allow", false)
    ensures Delegable(pol, {}, "u:g", [w]) && !SlipsPast(w.action, "shell:env:*")
    ensures !RuledFor(pol, Granter("u:g"), SHELL_ENV, "K", "a", map[])
    ensures RuledFor(AddRow(pol, w), Granter("u:x"), SHELL_ENV, "K", "a", map[])
  {
    LiteralScope("a", "a");
    assert SHELL_ENV + "*" == "shell:env:*" && SHELL_ENV + "K" == "shell:env:K" && "K"[0] != "*"[0];
    assert "shell:env:*"[10] != "shell:env:K"[10];
    KeyIsHandedOn(pol, pol.rows[0], pol.rows[1], w);
  }

  lemma KeyIsHandedOn(pol: Policy, h: Row, d: Row, w: Row)
    requires pol.rows == [h, d] && pol.edges == [] && pol.readable && pol.down == {} && h.principal == d.principal == "u:g" && w.principal == "u:x"
    requires h.action == w.action && d.action != w.action && h.scope == w.scope == "a" && h.params == ""
    requires h.effect == w.effect == "allow" && d.effect == "deny" && Grantable(h)
    requires Speaks(w, SHELL_ENV, "K", "a", map[], map[]) && Speaks(d, SHELL_ENV, "K", "a", map[], map[])
    ensures Delegable(pol, {}, "u:g", [w])
    ensures !RuledFor(pol, Granter("u:g"), SHELL_ENV, "K", "a", map[])
    ensures RuledFor(AddRow(pol, w), Granter("u:x"), SHELL_ENV, "K", "a", map[])
  {
    OwnRow(pol, "u:g", h);
    OwnRow(pol, "u:g", d);
    RuleActionsApart(w.action, d.action, SHELL_ENV);
    ApartIsDelegable(pol, h, d, w);
    KeyIsDelegated(pol, w, AddRow(pol, w));
  }

  lemma ApartIsDelegable(pol: Policy, h: Row, d: Row, w: Row)
    requires pol.rows == [h, d] && pol.readable && Held(pol, "u:g", h) && Grantable(h) && RowCovers(h, w)
    requires !ActionsOverlap(d.action, w.action) && w.effect == "allow" && '*' !in w.principal
    ensures Delegable(pol, {}, "u:g", [w])
  {
    assert h.effect != "deny" && !Overlaps(d, w) && MayDelegate(pol, {}, "u:g", w);
  }

  lemma OwnRow(pol: Policy, name: string, r: Row)
    requires r in pol.rows && r.principal == name && name != ""
    ensures Held(pol, name, r)
  {
    assert Finds(pol.edges, name, DownFrom(pol, name), name);
    assert Frontier(Granter(name))[0] == name;
  }

  lemma OtherRow(pol: Policy, name: string, r: Row)
    requires pol.edges == [] && r.principal != name && '*' !in r.principal
    ensures !Held(pol, name, r)
  {
    NoEdges();
    assert Frontier(Granter(name)) == [name];
  }

  lemma KeyIsDelegated(pol: Policy, w: Row, t: Policy)
    requires t.rows == pol.rows + [w] && t.edges == [] && w.principal == "u:x" && w.effect == "allow"
    requires Speaks(w, SHELL_ENV, "K", "a", map[], map[])
    requires forall r | r in pol.rows :: r.principal == "u:g"
    ensures RuledFor(t, Granter("u:x"), SHELL_ENV, "K", "a", map[])
  {
    OwnRow(t, "u:x", w);
    assert "u:g"[2] != "u:x"[2] && '*' !in "u:g";
    forall r | r in pol.rows ensures !Held(t, "u:x", r) { OtherRow(t, "u:x", r); }
  }
}
