/** chanreg/chanreg.go: the channel registry and its three indexes over shared entries.
    A principal stands for its own hash, which is taken to be injective. */
module ChannelRegistry {
  datatype Outcome = Registered(token: string) | BadUrl | Pinned | TokenFailed

  datatype Token = Generated(value: string) | GeneratorFailed

  class Entry {
    const name: string
    const prefixes: seq<string>
    const token: string
    const originIP: string
    const principal: string
    var healthFails: nat

    constructor (name: string, prefixes: seq<string>, token: string, originIP: string, principal: string)
      ensures this.name == name && this.prefixes == prefixes && this.token == token
      ensures this.originIP == originIP && this.principal == principal && healthFails == 0
    {
      this.name, this.prefixes, this.token := name, prefixes, token;
      this.originIP, this.principal, healthFails := originIP, principal, 0;
    }

    /** Owns: the JID starts with a registered prefix. */
    predicate Owns(jid: string) { exists p | p in prefixes :: p <= jid }
  }

  // ----- The principal index as maps -----

  ghost predicate Found(entries: map<string, Entry>, index: map<string, Entry>) {
    forall n | n in entries && entries[n].principal != "" :: entries[n].principal in index
  }

  ghost predicate Shared(entries: map<string, Entry>, name: string, principal: string) {
    principal != "" && exists n | n in entries && n != name :: entries[n].principal == principal
  }

  /** Taking a name's principal out of the index loses exactly the others that share it. */
  lemma FoundBeside(entries: map<string, Entry>, index: map<string, Entry>, name: string)
    requires Found(entries, index) && name in entries
    ensures var p := entries[name].principal;
            Found(entries - {name}, index - {p}) <==> !Shared(entries, name, p)
  {
    var p := entries[name].principal;
    if n :| n in entries && n != name && entries[n].principal == p {
      assert n in entries - {name} && p !in index - {p};
    }
  }

  /** Putting an entry under a name gives its principal back. */
  lemma FoundWith(entries: map<string, Entry>, index: map<string, Entry>, name: string, e: Entry)
    requires name in entries && Found(entries, index)
    ensures var p := entries[name].principal;
            Found(entries[name := e], Indexed(index - {p}, e)) <==> !(p != e.principal && Shared(entries, name, p))
  {
    var p, found := entries[name].principal, Indexed(index - {entries[name].principal}, e);
    if p != e.principal && Shared(entries, name, p) {
      var n :| n in entries && n != name && entries[n].principal == p;
      assert n in entries[name := e] && entries[name := e][n].principal == p && p !in found;
    }
  }

  ghost predicate Tokened(entries: map<string, Entry>, index: map<string, Entry>) {
    forall n | n in entries :: entries[n].token in index && index[entries[n].token] == entries[n]
  }

  /** A new entry under its own token leaves every entry found that was. */
  lemma TokenedWith(entries: map<string, Entry>, index: map<string, Entry>, name: string, e: Entry)
    requires Tokened(entries, index) && (forall n | n in entries :: entries[n].name == n && entries[n].token != e.token)
    ensures var left := if name in entries then index - {entries[name].token} else index;
            Tokened(entries[name := e], left[e.token := e])
  {}

  function Indexed(index: map<string, Entry>, e: Entry): map<string, Entry> {
    if e.principal == "" then index else index[e.principal := e]
  }

  class Registry {
    var entries: map<string, Entry>
    var byToken: map<string, Entry>
    var byPrincipal: map<string, Entry>

    predicate Live(e: Entry)
      reads this`entries
    {
      e.name in entries && entries[e.name] == e
    }

    /** Every hit of an index is a live entry under its own name, token or principal. */
    ghost predicate Valid()
      reads this
    {
      && (forall n | n in entries :: entries[n].name == n)
      && (forall t | t in byToken :: byToken[t].token == t && Live(byToken[t]))
      && (forall p | p in byPrincipal :: p != "" && byPrincipal[p].principal == p && Live(byPrincipal[p]))
    }

    /** Every live entry is found by its token, so the token index is the exact inverse
        of the entries' tokens. */
    ghost predicate Complete()
      reads this
    {
      Tokened(entries, byToken)
    }

    /** Every live entry's principal is found, by that entry or another of its own. */
    ghost predicate PrincipalComplete()
      reads this
    {
      Found(entries, byPrincipal)
    }

    /** Some live entry other than the name's has the principal. */
    ghost predicate SharedBeside(name: string, principal: string)
      reads this`entries
    {
      Shared(entries, name, principal)
    }

    /** No entry and no index has seen the token. */
    ghost predicate Unused(t: string)
      reads this
    {
      t !in byToken && forall n | n in entries :: entries[n].token != t
    }

    constructor ()
      ensures Valid() && Complete() && PrincipalComplete() && entries == map[]
    {
      entries, byToken, byPrincipal := map[], map[], map[];
    }

    /** The presented principal is refused for the name. */
    predicate PinRefuses(name: string, originIP: string, principal: string)
      reads this`entries
    {
      && name in entries
      && (entries[name].originIP != "" || principal != "")
      && entries[name].principal != principal
    }

    /** RegisterWithOrigin. A name that is taken loses its old token and its principal
        index before the new token is generated. */
    method RegisterWithOrigin(name: string, urlOk: bool, prefixes: seq<string>, originIP: string, principal: string, t: Token)
      returns (r: Outcome)
      requires Valid() && (t.Generated? ==> Unused(t.value))
      modifies this
      ensures Valid()
      ensures r == if !urlOk then BadUrl
                   else if name in old(entries) && old(entries)[name].principal != principal
                           && (old(entries)[name].originIP != "" || principal != "") then Pinned
                   else if t.GeneratorFailed? then TokenFailed
                   else Registered(t.value)
      ensures r.BadUrl? || r.Pinned? ==> entries == old(entries) && byToken == old(byToken) && byPrincipal == old(byPrincipal)
      ensures r.TokenFailed? ==> entries == old(entries)
      ensures r.Registered? ==> name in entries && fresh(entries[name]) && entries == old(entries)[name := entries[name]]
      ensures r.Registered? ==> entries[name].token == r.token && entries[name].principal == principal
      ensures r.Registered? ==> entries[name].prefixes == prefixes && entries[name].originIP == originIP
      ensures r.Registered? ==> r.token in byToken && byToken[r.token] == entries[name]
      ensures r.Registered? && principal != "" ==> principal in byPrincipal && byPrincipal[principal] == entries[name]
      // The token index stays exact, except that a failed generator drops the name's.
      ensures old(Complete()) ==> (Complete() <==> !(r.TokenFailed? && name in entries))
      // The principal index stays complete, except that a failed generator drops the
      // name's, and that a name which gives its principal up takes it from the others.
      ensures old(PrincipalComplete()) ==>
                (PrincipalComplete() <==>
                 && !(r.TokenFailed? && name in entries && entries[name].principal != "")
                 && !(r.Registered? && name in old(entries) && old(entries)[name].principal != principal
                      && old(SharedBeside(name, entries[name].principal))))
      // The name keeps its principal, except where neither side identified itself.
      ensures r.Registered? && name in old(entries) ==>
                (entries[name].principal != old(entries)[name].principal <==>
                 old(entries)[name].principal != "" && old(entries)[name].originIP == "" && principal == "")
    {
      if !urlOk {
        return BadUrl;
      }
      if name in entries {
        var old' := entries[name];
        if old'.originIP != "" || principal != "" {
          if old'.principal != principal {
            return Pinned;
          }
        }
      }
      r := Enrol(name, prefixes, originIP, principal, t);
    }

    /** What registration does with a name it accepts: forget the entry that had it, then
        put the new one in its place once there is a token. */
    method Enrol(name: string, prefixes: seq<string>, originIP: string, principal: string, t: Token) returns (r: Outcome)
      requires Valid() && (t.Generated? ==> Unused(t.value))
      modifies this
      ensures Valid() && r == if t.GeneratorFailed? then TokenFailed else Registered(t.value)
      ensures r.TokenFailed? ==> entries == old(entries)
      ensures r.Registered? ==> name in entries && fresh(entries[name]) && entries == old(entries)[name := entries[name]]
      ensures r.Registered? ==> entries[name].token == r.token && entries[name].principal == principal
      ensures r.Registered? ==> entries[name].prefixes == prefixes && entries[name].originIP == originIP
      ensures r.Registered? ==> r.token in byToken && byToken[r.token] == entries[name]
      ensures r.Registered? && principal != "" ==> principal in byPrincipal && byPrincipal[principal] == entries[name]
      ensures old(Complete()) ==> (Complete() <==> !(r.TokenFailed? && name in entries))
      ensures old(PrincipalComplete()) ==>
                (PrincipalComplete() <==>
                 && !(r.TokenFailed? && name in entries && entries[name].principal != "")
                 && !(r.Registered? && name in old(entries) && old(entries)[name].principal != principal
                      && old(SharedBeside(name, entries[name].principal))))
    {
      if name in entries {
        Unindex(entries[name]);
      }
      if t.GeneratorFailed? {
        return TokenFailed;
      }
      var e := new Entry(name, prefixes, t.value, originIP, principal);
      if old(Complete()) {
        TokenedWith(old(entries), old(byToken), name, e);
      }
      if name in entries && old(PrincipalComplete()) {
        FoundWith(old(entries), old(byPrincipal), name, e);
      }
      Install(e);
      return Registered(t.value);
    }

    /** Forget a live entry's token and its principal's index. */
    method Unindex(e: Entry)
      requires Valid() && Live(e)
      modifies this`byToken, this`byPrincipal
      ensures Valid() && byToken == old(byToken) - {e.token}
      ensures byPrincipal == old(byPrincipal) - {e.principal}
      ensures e.token !in byToken && e.principal !in byPrincipal
      ensures old(Complete()) ==> forall n | n in entries && n != e.name :: entries[n].token in byToken && byToken[entries[n].token] == entries[n]
    {
      byToken := byToken - {e.token};
      if e.principal != "" {
        byPrincipal := byPrincipal - {e.principal};
      }
    }

    /** Put an entry under its name, token and principal; nothing points at what it replaces. */
    method Install(e: Entry)
      requires Valid() && Unused(e.token)
      requires e.name in entries ==> entries[e.name].token !in byToken && entries[e.name].principal !in byPrincipal
      modifies this
      ensures Valid() && entries == old(entries)[e.name := e] && byToken == old(byToken)[e.token := e]
      ensures byPrincipal == Indexed(old(byPrincipal), e)
    {
      entries := entries[e.name := e];
      byToken := byToken[e.token := e];
      if e.principal != "" {
        byPrincipal := byPrincipal[e.principal := e];
      }
    }

    /** Deregister. The principal's index entry goes even if another account of the same
        adapter put it there. */
    method Deregister(name: string)
      requires Valid()
      modifies this
      ensures Valid() && name !in entries && entries == old(entries) - {name}
      ensures old(Complete()) ==> Complete()
      ensures old(PrincipalComplete()) ==>
                (PrincipalComplete() <==> !(name in old(entries) && old(SharedBeside(name, entries[name].principal))))
      ensures name !in old(entries) ==> byToken == old(byToken) && byPrincipal == old(byPrincipal)
      ensures name in old(entries) ==> byToken == old(byToken) - {old(entries)[name].token}
                                       && byPrincipal == old(byPrincipal) - {old(entries)[name].principal}
    {
      if name in entries {
        var e := entries[name];
        if PrincipalComplete() {
          FoundBeside(entries, byPrincipal, name);
        }
        Unindex(e);
        Forget(e);
      }
    }

    /** Drop an entry that no index leads to. */
    method Forget(e: Entry)
      requires Valid() && Live(e) && e.token !in byToken && e.principal !in byPrincipal
      modifies this`entries
      ensures Valid() && entries == old(entries) - {e.name}
    {
      entries := entries - {e.name};
    }

    method ByToken(token: string) returns (e: Entry?)
      requires Valid()
      ensures e != null ==> e.token == token && Live(e)
      ensures Complete() ==> (e == null <==> forall n | n in entries :: entries[n].token != token)
    {
      e := if token in byToken then byToken[token] else null;
    }

    method ByPrincipal(principal: string) returns (e: Entry?)
      requires Valid()
      ensures e != null ==> principal != "" && e.principal == principal && Live(e)
      ensures e == null <==> principal !in byPrincipal
    {
      e := if principal in byPrincipal then byPrincipal[principal] else null;
    }

    /** Resolve: the pinned name if it is live, else any entry that owns the JID. */
    method Resolve(name: string, jid: string) returns (e: Entry?)
      requires Valid()
      ensures name != "" && name in entries ==> e == entries[name]
      ensures !(name != "" && name in entries) ==>
                if e == null then forall n, p | n in entries && p in entries[n].prefixes :: !(p <= jid)
                else Live(e) && exists p | p in e.prefixes :: p <= jid
    {
      if name != "" && name in entries {
        return entries[name];
      }
      var rest := entries.Keys;
      while rest != {}
        invariant rest <= entries.Keys
        invariant forall n | n in entries && n !in rest :: !entries[n].Owns(jid)
        decreases rest
      {
        var n :| n in rest;
        if entries[n].Owns(jid) {
          return entries[n];
        }
        rest := rest - {n};
      }
      return null;
    }

    /** RecordHealthFail: the count is seen through every index, for the entry is one. */
    method RecordHealthFail(name: string) returns (fails: nat)
      requires Valid()
      modifies entries.Values
      ensures Valid() && (name !in entries ==> fails == 0)
      ensures name in entries ==> fails == old(entries[name].healthFails) + 1 && entries[name].healthFails == fails
      ensures forall e | e in entries.Values && e.name != name :: e.healthFails == old(e.healthFails)
    {
      if name !in entries {
        return 0;
      }
      var e := entries[name];
      e.healthFails := e.healthFails + 1;
      return e.healthFails;
    }

    method ResetHealth(name: string)
      requires Valid()
      modifies entries.Values
      ensures Valid() && (name in entries ==> entries[name].healthFails == 0)
      ensures forall e | e in entries.Values && e.name != name :: e.healthFails == old(e.healthFails)
    {
      if name in entries {
        var e := entries[name];
        e.healthFails := 0;
      }
    }

    /** Any sequence of steps with fresh tokens keeps the indexes consistent. The token
        index is exact as long as the generator does not fail on a taken name, the
        principal index complete as long as no step forgets a shared principal, and a
        name keeps its principal until it is removed or re-registered with none. */
    method Serve(steps: seq<Request>) returns (broken: bool, forgot: bool)
      requires Valid() && Complete() && PrincipalComplete()
      requires forall i | 0 <= i < |steps| && steps[i].Register? && steps[i].t.Generated? :: Unused(steps[i].t.value)
      requires forall i, j | 0 <= i < j < |steps| && steps[i].Register? && steps[j].Register?
                               && steps[i].t.Generated? && steps[j].t.Generated? :: steps[i].t != steps[j].t
      modifies this, entries.Values
      ensures Valid()
      ensures !broken ==> Complete()
      ensures broken ==> exists i | 0 <= i < |steps| :: steps[i].Register? && steps[i].t.GeneratorFailed?
      ensures !forgot ==> PrincipalComplete()
      ensures forgot ==> exists i | 0 <= i < |steps| :: MayForget(steps[i])
      ensures forall n | n in old(entries) && SparesAll(steps, n) ::
                n in entries && entries[n].principal == old(entries)[n].principal
    {
      broken, forgot := false, false;
      for i := 0 to |steps|
        invariant Valid() && (!broken ==> Complete()) && (!forgot ==> PrincipalComplete())
        invariant broken ==> exists k | 0 <= k < i :: steps[k].Register? && steps[k].t.GeneratorFailed?
        invariant forgot ==> exists k | 0 <= k < i :: MayForget(steps[k])
        invariant forall n | n in old(entries) && SparesAll(steps, n) ::
            n in entries && entries[n].principal == old(entries)[n].principal
        invariant forall n | n in entries :: fresh(entries[n]) || entries[n] in old(entries.Values)
        invariant forall k | i <= k < |steps| && steps[k].Register? && steps[k].t.Generated? :: Unused(steps[k].t.value)
      {
        var failed, lost := ServeOne(steps[i]);
        broken, forgot := broken || failed, forgot || lost;
      }
    }

    /** One step; `failed` and `lost` say whether it broke an index that was whole. */
    method ServeOne(step: Request) returns (failed: bool, lost: bool)
      requires Valid() && (step.Register? && step.t.Generated? ==> Unused(step.t.value))
      modifies this, entries.Values
      ensures Valid()
      ensures old(Complete()) ==> (Complete() <==> !failed)
      ensures old(PrincipalComplete()) ==> (PrincipalComplete() <==> !lost)
      ensures failed ==> step.Register? && step.t.GeneratorFailed?
      ensures lost ==> MayForget(step)
      ensures forall n | n in old(entries) && Spares(step, n) :: n in entries && entries[n].principal == old(entries)[n].principal
      ensures forall n | n in entries :: fresh(entries[n]) || entries[n] in old(entries.Values)
      ensures forall t | old(Unused(t)) && !(step.Register? && step.t == Generated(t)) :: Unused(t)
    {
      failed, lost := false, false;
      match step
      case Register(_, _, _, _, _, _) => failed, lost := ServeRegister(step);
      case Remove(name) =>
        var before := if name in entries then entries[name].principal else "";
        lost := IsShared(name, before);
        Deregister(name);
      case Failed(name) => var n := RecordHealthFail(name);
      case Healthy(name) => ResetHealth(name);
    }

    method ServeRegister(step: Request) returns (failed: bool, lost: bool)
      requires Valid() && step.Register? && (step.t.Generated? ==> Unused(step.t.value))
      modifies this
      ensures Valid()
      ensures old(Complete()) ==> (Complete() <==> !failed)
      ensures old(PrincipalComplete()) ==> (PrincipalComplete() <==> !lost)
      ensures failed ==> step.t.GeneratorFailed?
      ensures lost ==> MayForget(step)
      ensures forall n | n in old(entries) && Spares(step, n) :: n in entries && entries[n].principal == old(entries)[n].principal
      ensures forall n | n in entries :: fresh(entries[n]) || entries[n] in old(entries.Values)
      ensures forall t | old(Unused(t)) && step.t != Generated(t) :: Unused(t)
    {
      var before := if step.name in entries then entries[step.name].principal else "";
      var shared := IsShared(step.name, before);
      var r := RegisterWithOrigin(step.name, step.urlOk, step.prefixes, step.originIP, step.principal, step.t);
      failed := r.TokenFailed? && step.name in entries;
      lost := (failed && before != "") || (r.Registered? && before != "" && before != step.principal && shared);
    }

    method IsShared(name: string, principal: string) returns (shared: bool)
      ensures shared <==> SharedBeside(name, principal)
    {
      shared := principal != "" && exists n | n in entries && n != name :: entries[n].principal == principal;
    }
  }

  /** The steps that can take a principal from the index. */
  predicate MayForget(step: Request) {
    step.Remove? || (step.Register? && (step.t.GeneratorFailed? || step.principal == ""))
  }

  /** The step neither removes the name nor registers it without a principal. */
  predicate Spares(step: Request, n: string) {
    step != Remove(n) && !(step.Register? && step.name == n && step.principal == "")
  }

  ghost predicate SparesAll(steps: seq<Request>, n: string) {
    forall i | 0 <= i < |steps| :: Spares(steps[i], n)
  }

  datatype Request =
    | Register(name: string, urlOk: bool, prefixes: seq<string>, originIP: string, principal: string, t: Token)
    | Remove(name: string)
    | Failed(name: string)
    | Healthy(name: string)

  /** The principal index is not complete: two accounts of one adapter share a
      principal, and when the first leaves the second is live and not found. */
  method SharedPrincipalIsForgotten(p: string) returns (r: Registry, e: Entry?)
    requires p != ""
    ensures r.Valid() && r.Complete() && !r.PrincipalComplete() && "b" in r.entries && r.entries["b"].principal == p
    ensures e == null && p !in r.byPrincipal
  {
    r := new Registry();
    var a := r.RegisterWithOrigin("a", true, [], "", p, Generated("t1"));
    assert "t1"[1] != "t2"[1];
    var b := r.RegisterWithOrigin("b", true, [], "", p, Generated("t2"));
    r.Deregister("a");
    e := r.ByPrincipal(p);
  }
}
