/** registry.go: per-host state, hit counter and a ring of the last 64 flows, specified by the whole
    history of registry events. */
module Registry {
  import opened Prelude

  /** A gomitm flow: its host, and everything else. */
  datatype Flow = Flow(host: string, data: string)

  const OBSERVED: string := "OBSERVED"
  const INTERCEPTED: string := "INTERCEPTED"
  const MOCKED: string := "MOCKED"

  const RING: nat := 64

  datatype RegState = RegState(states: map<string, string>, hits: map<string, nat>, flows: map<string, seq<Flow>>)

  datatype Event =
    | Observe(host: string)
    | SetState(host: string, state: string)
    | AddFlow(flow: Flow)
    | DeleteHost(host: string)
    | ClearFlows(host: string)
    | Reset
    | LoadStates(m: map<string, string>)

  function FlowsOf(r: RegState, h: string): seq<Flow> {
    if h in r.flows then r.flows[h] else []
  }

  function HitsOf(r: RegState, h: string): nat {
    if h in r.hits then r.hits[h] else 0
  }

  function StateOf(r: RegState, h: string): string {
    if h in r.states then r.states[h] else OBSERVED
  }

  /** One locked operation. */
  function Apply(r: RegState, e: Event): RegState {
    match e
    case Observe(h) =>
      if h == "" then r
      else RegState(if h in r.states then r.states else r.states[h := OBSERVED], r.hits[h := HitsOf(r, h) + 1], r.flows)
    case SetState(h, s) => r.(states := r.states[h := s])
    case AddFlow(f) => r.(flows := r.flows[f.host := Last(FlowsOf(r, f.host) + [f], RING)])
    case DeleteHost(h) => if h == "" then r else RegState(r.states - {h}, r.hits - {h}, r.flows - {h})
    case ClearFlows(h) => if h == "" then r.(flows := map[]) else r.(flows := r.flows - {h})
    case Reset => RegState(map[], map[], map[])
    case LoadStates(m) => r.(states := r.states + m)
  }

  function Replay(hist: seq<Event>): RegState {
    if hist == [] then RegState(map[], map[], map[]) else Apply(Replay(hist[..|hist| - 1]), hist[|hist| - 1])
  }

  // ---- the unbounded log ----

  /** Does e forget the flows of h? */
  predicate Clears(e: Event, h: string) {
    match e
    case DeleteHost(x) => x != "" && x == h
    case ClearFlows(x) => x == "" || x == h
    case Reset => true
    case _ => false
  }

  predicate Adds(e: Event, h: string) { e.AddFlow? && e.flow.host == h }

  /** The positions in the history of all flows added for h since h was last cleared. */
  function LogOf(hist: seq<Event>, h: string): (l: seq<nat>)
    ensures forall k :: 0 <= k < |l| ==> l[k] < |hist| && Adds(hist[l[k]], h)
  {
    if hist == [] then []
    else
      var n := |hist| - 1;
      if Adds(hist[n], h) then LogOf(hist[..n], h) + [n]
      else if Clears(hist[n], h) then []
      else LogOf(hist[..n], h)
  }

  function FlowsAt(hist: seq<Event>, at: seq<nat>): (fs: seq<Flow>)
    requires forall k :: 0 <= k < |at| ==> at[k] < |hist| && hist[at[k]].AddFlow?
    ensures |fs| == |at| && forall k :: 0 <= k < |at| ==> fs[k] == hist[at[k]].flow
  {
    seq(|at|, k requires 0 <= k < |at| => hist[at[k]].flow)
  }

  /** The positions of the flows that the ring of h still holds. */
  function RingOf(hist: seq<Event>, h: string): (l: seq<nat>)
    ensures forall k :: 0 <= k < |l| ==> l[k] < |hist| && Adds(hist[l[k]], h)
  {
    Last(LogOf(hist, h), RING)
  }

  lemma LastOfLast<T>(s: seq<T>, x: T, n: nat)
    requires n > 0
    ensures Last(Last(s, n) + [x], n) == Last(s + [x], n)
  {
  }

  lemma FlowsAtLast(hist: seq<Event>, at: seq<nat>, n: nat)
    requires forall k :: 0 <= k < |at| ==> at[k] < |hist| && hist[at[k]].AddFlow?
    ensures FlowsAt(hist, Last(at, n)) == Last(FlowsAt(hist, at), n)
  {
  }

  /** The whole log, ring or no ring. */
  function LoggedFlows(hist: seq<Event>, h: string): seq<Flow> {
    FlowsAt(hist, LogOf(hist, h))
  }

  lemma LoggedFlowsStep(hist: seq<Event>, h: string)
    requires hist != []
    ensures var n := |hist| - 1;
            LoggedFlows(hist, h) ==
            if Adds(hist[n], h) then LoggedFlows(hist[..n], h) + [hist[n].flow]
            else if Clears(hist[n], h) then []
            else LoggedFlows(hist[..n], h)
  {
  }

  lemma FlowsStep(r: RegState, e: Event, h: string)
    ensures FlowsOf(Apply(r, e), h) ==
            if Adds(e, h) then Last(FlowsOf(r, h) + [e.flow], RING)
            else if Clears(e, h) then []
            else FlowsOf(r, h)
  {
  }

  /** The ring is the end of the unbounded log, after any run. */
  lemma {:induction false} RingRefinesLog(hist: seq<Event>, h: string)
    ensures FlowsOf(Replay(hist), h) == Last(LoggedFlows(hist, h), RING) == FlowsAt(hist, RingOf(hist, h))
  {
    FlowsAtLast(hist, LogOf(hist, h), RING);
    if hist != [] {
      var n := |hist| - 1;
      var init, e := hist[..n], hist[n];
      RingRefinesLog(init, h);
      LoggedFlowsStep(hist, h);
      FlowsStep(Replay(init), e, h);
      if Adds(e, h) {
        LastOfLast(LoggedFlows(init, h), e.flow, RING);
      }
    }
  }

  predicate ClearedAfter(hist: seq<Event>, i: nat, h: string) {
    exists j :: i < j < |hist| && Clears(hist[j], h)
  }

  /** How many flows were added for h behind position i. */
  function AddsAfter(hist: seq<Event>, i: nat, h: string): nat {
    if |hist| <= i + 1 then 0
    else AddsAfter(hist[..|hist| - 1], i, h) + if Adds(hist[|hist| - 1], h) then 1 else 0
  }

  lemma {:induction false} LogPosition(hist: seq<Event>, i: nat, h: string)
    requires i < |hist| && Adds(hist[i], h)
    ensures ClearedAfter(hist, i, h) ==> i !in LogOf(hist, h)
    ensures !ClearedAfter(hist, i, h) ==>
              var k := |LogOf(hist, h)| - 1 - AddsAfter(hist, i, h);
              0 <= k && LogOf(hist, h)[k] == i
    decreases |hist|
  {
    var n := |hist| - 1;
    var init := hist[..n];
    if i < n {
      LogPosition(init, i, h);
      assert forall j :: 0 <= j < n ==> init[j] == hist[j];
      if ClearedAfter(init, i, h) {
        var j :| i < j < n && Clears(init[j], h);
        assert Clears(hist[j], h);
      } else {
        assert Clears(hist[n], h) <==> ClearedAfter(hist, i, h);
      }
    } else {
      assert LogOf(hist, h)[|LogOf(hist, h)| - 1] == i;
    }
  }

  lemma {:induction false} LogIncreases(hist: seq<Event>, h: string)
    ensures forall a, b :: 0 <= a < b < |LogOf(hist, h)| ==> LogOf(hist, h)[a] < LogOf(hist, h)[b]
  {
    if hist != [] {
      LogIncreases(hist[..|hist| - 1], h);
    }
  }

  lemma LastMembers(s: seq<nat>, n: nat)
    ensures forall x :: x in Last(s, n) ==> x in s
  {
  }

  lemma LastOfIncreasing(s: seq<nat>, n: nat, k: nat)
    requires forall a, b :: 0 <= a < b < |s| ==> s[a] < s[b]
    requires k < |s|
    ensures s[k] in Last(s, n) <==> |s| - k <= n
  {
    var r := Last(s, n);
    var skip := |s| - |r|;
    assert forall j :: 0 <= j < |r| ==> r[j] == s[j + skip];
    if k >= skip {
      assert r[k - skip] == s[k];
    }
  }

  /** Exactly which flows are still in the ring: those not cleared since, with fewer than 64 later ones. */
  lemma RingHoldsExactly(hist: seq<Event>, i: nat, h: string)
    requires i < |hist| && Adds(hist[i], h)
    ensures i in RingOf(hist, h) <==> !ClearedAfter(hist, i, h) && AddsAfter(hist, i, h) < 64
  {
    LogPosition(hist, i, h);
    LogIncreases(hist, h);
    var log := LogOf(hist, h);
    LastMembers(log, RING);
    if !ClearedAfter(hist, i, h) {
      LastOfIncreasing(log, RING, |log| - 1 - AddsAfter(hist, i, h));
    }
  }

  // ---- states ----

  /** The state that the history gives a host: what it was last set to, or OBSERVED once it was observed, since it
      was last deleted or all was reset. */
  function GivenState(hist: seq<Event>, h: string): Option<string> {
    if hist == [] then None
    else
      var e, before := hist[|hist| - 1], GivenState(hist[..|hist| - 1], h);
      if e == SetState(h, if e.SetState? then e.state else "") then Some(e.state)
      else if e.LoadStates? && h in e.m then Some(e.m[h])
      else if e == Observe(h) && h != "" && before == None then Some("OBSERVED")
      else if (e == DeleteHost(h) && h != "") || e.Reset? then None
      else before
  }

  /** After any run a host has the state that the history gives it, and OBSERVED if none. */
  lemma {:induction false} StateIsGiven(hist: seq<Event>, h: string)
    ensures h in Replay(hist).states <==> GivenState(hist, h).Some?
    ensures StateOf(Replay(hist), h) ==
            if GivenState(hist, h).Some? then GivenState(hist, h).value else "OBSERVED"
  {
    if hist != [] {
      StateIsGiven(hist[..|hist| - 1], h);
    }
  }

  // ---- hits and domains ----

  /** Observe(h) calls since h was last deleted or everything was reset. */
  function Observations(hist: seq<Event>, h: string): nat {
    if hist == [] then 0
    else
      var e, before := hist[|hist| - 1], Observations(hist[..|hist| - 1], h);
      match e
      case Observe(x) => if x == h then before + 1 else before
      case DeleteHost(x) => if x == h then 0 else before
      case Reset => 0
      case _ => before
  }

  lemma {:induction false} HitsCountObservations(hist: seq<Event>, h: string)
    requires h != ""
    ensures HitsOf(Replay(hist), h) == Observations(hist, h)
  {
    if hist != [] {
      HitsCountObservations(hist[..|hist| - 1], h);
    }
  }

  /** A host that was hit has a state, so Domains shows every counter. */
  lemma {:induction false} HitsHaveStates(hist: seq<Event>)
    ensures Replay(hist).hits.Keys <= Replay(hist).states.Keys
  {
    if hist != [] {
      HitsHaveStates(hist[..|hist| - 1]);
    }
  }

  datatype DomainInfo = DomainInfo(host: string, state: string, hits: nat)

  function DomainsIn(r: RegState, order: seq<string>): seq<DomainInfo>
    requires forall k :: k in order ==> k in r.states
  {
    seq(|order|, i requires 0 <= i < |order| => DomainInfo(order[i], r.states[order[i]], HitsOf(r, order[i])))
  }

  /** The list has each host with a state once, with that state and its observations. */
  lemma DomainsList(hist: seq<Event>, order: seq<string>)
    requires Enumerates(order, Replay(hist).states.Keys)
    ensures forall k :: k in order ==> k in Replay(hist).states
    ensures var l := DomainsIn(Replay(hist), order);
            && (forall h :: GivenState(hist, h).Some? <==> exists i :: 0 <= i < |l| && l[i].host == h)
            && (forall i, j :: 0 <= i < j < |l| ==> l[i].host != l[j].host)
            && (forall i :: 0 <= i < |l| ==> GivenState(hist, l[i].host) == Some(l[i].state))
            && (forall i :: 0 <= i < |l| && l[i].host != "" ==> l[i].hits == Observations(hist, l[i].host))
  {
    var r := Replay(hist);
    assert forall k :: k in order ==> k in r.states;
    var l := DomainsIn(r, order);
    forall h ensures GivenState(hist, h).Some? <==> exists i :: 0 <= i < |l| && l[i].host == h {
      StateIsGiven(hist, h);
      if h in order {
        var i :| 0 <= i < |order| && order[i] == h;
        assert l[i].host == h;
      }
      if i :| 0 <= i < |l| && l[i].host == h {
        assert order[i] == h;
      }
    }
    forall i | 0 <= i < |l|
      ensures GivenState(hist, l[i].host) == Some(l[i].state)
      ensures l[i].host != "" ==> l[i].hits == Observations(hist, l[i].host)
    {
      assert l[i].host == order[i] && order[i] in order;
      StateIsGiven(hist, order[i]);
      if order[i] != "" { HitsCountObservations(hist, order[i]); }
    }
  }

  /** loadStates has copied the entries of m outside todo. */
  ghost predicate PartlyLoaded(was: map<string, string>, m: map<string, string>,
                               todo: set<string>, now: map<string, string>) {
    && todo <= m.Keys && now.Keys == was.Keys + (m.Keys - todo)
    && forall k :: k in now ==> now[k] == if k in m && k !in todo then m[k] else was[k]
  }

  lemma LoadOne(was: map<string, string>, m: map<string, string>,
                todo: set<string>, now: map<string, string>, k: string)
    requires PartlyLoaded(was, m, todo, now) && k in todo
    ensures PartlyLoaded(was, m, todo - {k}, now[k := m[k]])
  {
  }

  lemma LoadedAll(r: RegState, m: map<string, string>, now: map<string, string>)
    requires PartlyLoaded(r.states, m, {}, now)
    ensures r.(states := now) == Apply(r, Event.LoadStates(m))
  {
    assert now == r.states + m;
  }

  // ---- the object ----

  class Registry {
    var states: map<string, string>
    var hits: map<string, nat>
    var flows: map<string, seq<Flow>>
    const ringN: nat

    ghost function Value(): RegState
      reads this
    {
      RegState(states, hits, flows)
    }

    constructor ()
      ensures Value() == Replay([]) && ringN == RING
    {
      states, hits, flows, ringN := map[], map[], map[], 64;
    }

    method Observe(host: string)
      modifies this
      ensures Value() == Apply(old(Value()), Event.Observe(host))
    {
      if host == "" { return; }
      if host !in states {
        states := states[host := OBSERVED];
      }
      hits := hits[host := (if host in hits then hits[host] else 0) + 1];
    }

    method State(host: string) returns (s: string)
      ensures s == StateOf(Value(), host)
    {
      s := if host in states then states[host] else OBSERVED;
    }

    method SetState(host: string, s: string)
      modifies this
      ensures Value() == Apply(old(Value()), Event.SetState(host, s))
    {
      states := states[host := s];
    }

    method AddFlow(f: Flow)
      requires ringN == RING
      modifies this
      ensures Value() == Apply(old(Value()), Event.AddFlow(f))
    {
      var buf := if f.host in flows then flows[f.host] else [];
      buf := buf + [f];
      if |buf| > ringN {
        buf := buf[|buf| - ringN..];
      }
      flows := flows[f.host := buf];
    }

    method Flows(host: string) returns (out: seq<Flow>)
      ensures out == FlowsOf(Value(), host)
    {
      out := if host in flows then flows[host] else [];
    }

    /** Every host with a state, once, in iteration order. */
    method Domains() returns (out: seq<DomainInfo>, ghost order: seq<string>)
      ensures Enumerates(order, states.Keys) && out == DomainsIn(Value(), order)
    {
      out, order := [], [];
      var todo := states.Keys;
      while todo != {}
        invariant todo <= states.Keys && Enumerates(order, states.Keys - todo)
        invariant out == DomainsIn(Value(), order)
        decreases |todo|
      {
        var h :| h in todo;
        out := out + [DomainInfo(h, states[h], if h in hits then hits[h] else 0)];
        order := order + [h];
        todo := todo - {h};
      }
      assert states.Keys - {} == states.Keys;
    }

    method LoadStates(m: map<string, string>)
      modifies this`states
      ensures Value() == Apply(old(Value()), Event.LoadStates(m))
    {
      var todo := m.Keys;
      ghost var was := Value();
      while todo != {}
        invariant PartlyLoaded(was.states, m, todo, states)
        decreases |todo|
      {
        var k :| k in todo;
        LoadOne(was.states, m, todo, states, k);
        states := states[k := m[k]];
        todo := todo - {k};
      }
      LoadedAll(was, m, states);
    }

    method DeleteHost(host: string)
      modifies this
      ensures Value() == Apply(old(Value()), Event.DeleteHost(host))
    {
      if host == "" { return; }
      states, hits, flows := states - {host}, hits - {host}, flows - {host};
    }

    method ClearFlows(host: string)
      modifies this
      ensures Value() == Apply(old(Value()), Event.ClearFlows(host))
    {
      if host == "" {
        flows := map[];
        return;
      }
      flows := flows - {host};
    }

    method Reset()
      modifies this
      ensures Value() == Apply(old(Value()), Event.Reset)
    {
      states, hits, flows := map[], map[], map[];
    }
  }
}
