/** The impersonation table while the policy is reloaded.  A cached chain is handed out before the policy
    is asked, so an answer is the one of the current policy exactly when there was no cached chain for its
    host, or the host is still enabled. */
module ImpersonateReload {
  import opened Prelude
  import opened GoStrings
  import opened Cache = Impersonate
  import Policy = PolicyFile
  import Kit = SslKit
  import Agreement = PolicyAgreement

  type Pems = string -> Option<Chain>

  /** What one call finds: the switch and the enabled hosts of the policy that it is served. */
  datatype Served = Served(on: bool, enabled: string -> bool)

  function ConfigOf(p: Served, load: Pems): Config { Config(p.on, p.enabled, load) }

  /** The invariant of the table without the policy: a cached chain is the chain of the slot's host. */
  function AnyPolicy(load: Pems): Config { Config(true, _ => true, load) }

  datatype Step = Step(policy: Served, call: Cache.Call)

  function After(load: Pems, steps: seq<Step>): Table {
    if steps == [] then Zeroed()
    else
      var t, last := After(load, steps[..|steps| - 1]), steps[|steps| - 1];
      match last.call
      case Bind(s, name) => BindHost(t, s, name)
      case Lookup(s, sni) => ChainForSsl(ConfigOf(last.policy, load), t, s, sni).table
  }

  lemma BindKeeps(load: Pems, t: Table, s: Ssl, name: string)
    requires TableOk(AnyPolicy(load), t)
    ensures TableOk(AnyPolicy(load), BindHost(t, s, name))
  {
    if s != 0 && name != "" {
      var t1 := NoteHost(t, name);
      FaceKeepsTable(AnyPolicy(load), t1, s);
      var f := FaceOf(t1, s);
      WritesKeepTable(AnyPolicy(load), f.table, f.slot, name, []);
    }
  }

  lemma LookupKeeps(load: Pems, p: Served, t: Table, s: Ssl, sni: string)
    requires TableOk(AnyPolicy(load), t)
    ensures TableOk(AnyPolicy(load), ChainForSsl(ConfigOf(p, load), t, s, sni).table)
  {
    if p.on && s != 0 {
      FaceKeepsTable(AnyPolicy(load), t, s);
      var f := FaceOf(t, s);
      var host := PickHost(f.table, f.slot, sni);
      if load(host).Some? {
        WritesKeepTable(AnyPolicy(load), f.table, f.slot, host, load(host).value);
      }
    }
  }

  lemma {:induction false} TableStaysOk(load: Pems, steps: seq<Step>)
    ensures TableOk(AnyPolicy(load), After(load, steps))
  {
    if steps != [] {
      var last := steps[|steps| - 1];
      TableStaysOk(load, steps[..|steps| - 1]);
      var t := After(load, steps[..|steps| - 1]);
      match last.call
      case Bind(s, name) => BindKeeps(load, t, s, name);
      case Lookup(s, sni) => LookupKeeps(load, last.policy, t, s, sni);
    }
  }

  /** The host that a lookup settles on, and the chain that the table has for it. */
  function Picked(t: Table, s: Ssl, sni: string): string {
    var f := FaceOf(t, s);
    PickHost(f.table, f.slot, sni)
  }

  function Hit(t: Table, s: Ssl, sni: string): Option<Chain> {
    var f := FaceOf(t, s);
    Cached(f.table, f.slot, PickHost(f.table, f.slot, sni))
  }

  /** The answer of a machine without a cache, under the policy of this call. */
  function Current(load: Pems, p: Served, t: Table, s: Ssl, sni: string): Option<Chain> {
    if !p.on || s == 0 then None else LoadFor(ConfigOf(p, load), Picked(t, s, sni))
  }

  lemma HitIsLoaded(load: Pems, t: Table, s: Ssl, sni: string)
    requires TableOk(AnyPolicy(load), t) && s != 0 && Hit(t, s, sni).Some?
    ensures Picked(t, s, sni) != "" && Hit(t, s, sni) == load(Picked(t, s, sni))
  {
    FaceKeepsTable(AnyPolicy(load), t, s);
    var f := FaceOf(t, s);
    assert ChainIsOwn(AnyPolicy(load), f.table.faces[f.slot.value]);
  }

  /** After any history of calls, each under its own policy, a lookup's answer is the one of the policy it
      is served, if and only if nothing was cached for its host or the host is enabled. */
  lemma CurrentExactlyWhenMissedOrEnabled(load: Pems, steps: seq<Step>, p: Served, s: Ssl, sni: string)
    requires p.on && s != 0
    ensures var t := After(load, steps);
            ChainForSsl(ConfigOf(p, load), t, s, sni).chain == Current(load, p, t, s, sni) <==>
            Hit(t, s, sni).None? || p.enabled(Picked(t, s, sni))
  {
    var t := After(load, steps);
    TableStaysOk(load, steps);
    if Hit(t, s, sni).Some? {
      HitIsLoaded(load, t, s, sni);
    }
  }

  /** A bind drops the cached chain, so the next lookup of that pointer is answered by the policy. */
  lemma BindMakesCurrent(load: Pems, steps: seq<Step>, p: Served, q: Served, s: Ssl, name: string, sni: string)
    requires p.on && s != 0 && name != ""
    ensures var t := After(load, steps + [Step(q, Bind(s, name))]);
            ChainForSsl(ConfigOf(p, load), t, s, sni).chain == Current(load, p, t, s, sni)
  {
    var all := steps + [Step(q, Bind(s, name))];
    assert all[..|steps|] == steps;
    TableStaysOk(load, steps);
    BoundHasNoChain(load, After(load, steps), s, name, sni);
    CurrentExactlyWhenMissedOrEnabled(load, all, p, s, sni);
  }

  lemma BoundHasNoChain(load: Pems, t: Table, s: Ssl, name: string, sni: string)
    requires TableOk(AnyPolicy(load), t) && s != 0 && name != ""
    ensures Hit(BindHost(t, s, name), s, sni).None?
  {
    var t1 := NoteHost(t, name);
    var f := FaceOf(t1, s);
    FaceKeepsTable(AnyPolicy(load), t1, s);
    var t2 := BindHost(t, s, name);
    BindKeeps(load, t, s, name);
    FaceKeepsTable(AnyPolicy(load), t2, s);
    var g := FaceOf(t2, s);
    if f.slot.Some? {
      assert t2.faces[f.slot.value].ssl == s && t2.faces[f.slot.value].chain == None;
      assert FindSlot(t2.faces, s, 0).Some?;
      SameSlot(t2.faces, s, f.slot.value);
    }
  }

  lemma SameSlot(faces: seq<Face>, s: Ssl, i: nat)
    requires NoSharedSsl(faces) && s != 0 && i < |faces| && faces[i].ssl == s
    ensures FindSlot(faces, s, 0) == Some(i)
  {
    assert FindSlot(faces, s, 0).Some?;
  }

  /** A host that is switched off keeps its chain on a connection that has it. */
  lemma StaleAnswerExists(load: Pems)
    requires load("a") == Some(["a"])
    ensures var steps := [Step(Served(true, _ => true), Lookup(5, "a"))];
            var off := Served(true, _ => false);
            && ChainForSsl(ConfigOf(off, load), After(load, steps), 5, "a").chain == Some(["a"])
            && Current(load, off, After(load, steps), 5, "a") == None
  {
    var on, off := Served(true, _ => true), Served(true, _ => false);
    var steps := [Step(on, Lookup(5, "a"))];
    assert steps[..0] == [];
    var t0 := Zeroed();
    var taken := t0.(faces := t0.faces[0 := Face(5, "", None)]);
    assert t0.faces[0].ssl == 0 && FindSlot(t0.faces, 5, 0).None?;
    assert FaceOf(t0, 5) == Found(taken, Some(0));
    var t := t0.(faces := t0.faces[0 := Face(5, "a", Some(["a"]))]);
    assert taken.faces[0 := Face(5, "a", Some(["a"]))] == t.faces;
    assert After(load, steps) == t;
    assert FindSlot(t.faces, 5, 0) == Some(0);
  }

  /** The served policy as the C accessors show it. */
  ghost predicate IsServed(p: Served, policy: Policy.Policy) {
    && p.on == Policy.ImpersonateOn(policy)
    && forall h :: p.enabled(h) == Policy.ImpersonateHost(policy, h)
  }

  /** From the Go map to the certificate: a lookup that finds nothing cached is answered with a chain
      exactly when, at a policy call less than two seconds earlier, the Go map had its host enabled, and
      the host has a chain. */
  lemma MissedLookupFollowsGo(states: seq<Kit.Store>, ops: seq<Kit.Op>, pems: seq<Kit.PemDir>,
                              calls: seq<Policy.Call>, at: seq<nat>,
                              load: Pems, steps: seq<Step>, p: Served, s: Ssl, sni: string)
    returns (j: nat, order: seq<string>)
    requires Kit.IsRun(true, states, ops, pems) && Kit.InStep(states[0])
    requires calls != [] && |at| == |calls| && Policy.ClockMonotone(calls)
    requires forall i :: 0 <= i < |calls| ==> at[i] < |states| && Agreement.Legal(states[at[i]].hosts)
    requires forall i :: 0 <= i < |calls| ==> Agreement.Reads(calls[i].world, states[at[i]].conf)
    requires IsServed(p, Policy.RunReader(calls).policy)
    requires s != 0 && Hit(After(load, steps), s, sni).None?
    ensures j < |calls| && 0 <= calls[|calls| - 1].now - calls[j].now < 2
    ensures Kit.IsRenderingIn(order, states[at[j]].conf, states[at[j]].hosts)
    ensures Agreement.Fits(Policy.ImpersonateHosts, Kit.ImpersonateNames(order, states[at[j]].hosts)) ==>
              var host := Picked(After(load, steps), s, sni);
              (ChainForSsl(ConfigOf(p, load), After(load, steps), s, sni).chain.Some? <==>
               TrimSpace(host) == host && Kit.ImpersonateEnabled(states[at[j]].hosts, host) && load(host).Some?)
  {
    var t := After(load, steps);
    var host := Picked(t, s, sni);
    j, order := Agreement.EndToEnd(states, ops, pems, calls, at, host);
    MissedAnswer(load, t, p, s, sni);
    assert Policy.ImpersonateHost(Policy.RunReader(calls).policy, host) ==> p.on && host != "";
  }

  lemma MissedAnswer(load: Pems, t: Table, p: Served, s: Ssl, sni: string)
    requires s != 0 && Hit(t, s, sni).None?
    ensures ChainForSsl(ConfigOf(p, load), t, s, sni).chain == Current(load, p, t, s, sni)
  {
  }
}
