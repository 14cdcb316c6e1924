/** App.OnRequest under interleaving: one state read and up to two rule lookups, each its own lock
    region, while rules and states are edited in between. */
module OnRequest {
  import opened Prelude
  import opened CStrings
  import opened Rules
  import Registry

  /** What OnRequest does to a request: forward it as it is, rewrite it by a rule and forward it, or
      answer it from a rule. */
  datatype Outcome = Upstream | Rewritten(rule: Rule) | Mock(rule: Rule)

  /** The code, on the list of the first lookup and the list of the second one. */
  function TwoLookups(st: string, first: seq<Rule>, second: seq<Rule>, q: Query): Outcome {
    var r := FirstMatch(first, q);
    if r.Some? && IsRewrite(r.value) then
      if st == Registry.INTERCEPTED || st == Registry.MOCKED then Rewritten(r.value) else Upstream
    else if st != Registry.MOCKED then Upstream
    else
      var r2 := FirstMatch(second, q);
      if r2.None? || IsRewrite(r2.value) then Upstream else Mock(r2.value)
  }

  /** The single-lookup specification: one rule list decides. */
  function Decide(st: string, rules: seq<Rule>, q: Query): Outcome {
    match FirstMatch(rules, q)
    case None => Upstream
    case Some(r) =>
      if IsRewrite(r) && (st == Registry.INTERCEPTED || st == Registry.MOCKED) then Rewritten(r)
      else if !IsRewrite(r) && st == Registry.MOCKED then Mock(r)
      else Upstream
  }

  /** The guard of the failing branch: the first list has a mock for the request, the second a rewrite. */
  predicate Torn(st: string, first: seq<Rule>, second: seq<Rule>, q: Query) {
    && st == Registry.MOCKED
    && FirstMatch(first, q).Some? && !IsRewrite(FirstMatch(first, q).value)
    && FirstMatch(second, q).Some? && IsRewrite(FirstMatch(second, q).value)
  }

  /** Exactly when the outcome is the decision of one of the two lists. */
  lemma OneListExplains(st: string, first: seq<Rule>, second: seq<Rule>, q: Query)
    ensures TwoLookups(st, first, second, q) in {Decide(st, first, q), Decide(st, second, q)} <==>
            !Torn(st, first, second, q)
    ensures first == second ==> TwoLookups(st, first, second, q) == Decide(st, first, q)
  {
    var r, r2 := FirstMatch(first, q), FirstMatch(second, q);
    if st == Registry.MOCKED && r.None? && r2.Some? && IsRewrite(r2.value) {
      assert TwoLookups(st, first, second, q) == Upstream == Decide(st, first, q);
    }
  }

  // ---- the interleaved machine ----

  type Tid = nat

  /** A request between its lock regions.  `v1` and `v2` are the rule-list versions its lookups saw. */
  datatype Thread =
    | Start(q: Query)
    | GotState(q: Query, st: string, at: nat)
    | GotRule(q: Query, st: string, at: nat, v1: nat, rule: Option<Rule>)
    | Done(q: Query, st: string, at: nat, v1: nat, v2: nat, outcome: Outcome)

  /** `versions` lists every rule list there ever was, `log` every state map; the last ones are current. */
  datatype World = World(log: seq<map<string, string>>, versions: seq<seq<Rule>>, threads: map<Tid, Thread>)

  datatype Move =
    | EditRules(e: Edit)
    | EditStates(m: map<string, string>)
    | Arrive(tid: Tid, q: Query)
    | Go(tid: Tid)

  ghost predicate Enabled(w: World, m: Move) {
    match m
    case EditRules(e) => EditOk(e)
    case EditStates(_) => true
    case Arrive(tid, _) => tid !in w.threads
    case Go(tid) => tid in w.threads
  }

  function StateIn(m: map<string, string>, host: string): string {
    if host in m then m[host] else Registry.OBSERVED
  }

  /** One lock region of OnRequest. */
  function Advance(w: World, th: Thread): Thread
    requires w.log != [] && w.versions != []
  {
    var now := |w.versions| - 1;
    match th
    case Start(q) => GotState(q, StateIn(w.log[|w.log| - 1], q.host), |w.log| - 1)
    case GotState(q, st, at) => GotRule(q, st, at, now, FirstMatch(w.versions[now], q))
    case GotRule(q, st, at, v1, r) =>
      if r.Some? && IsRewrite(r.value) then
        Done(q, st, at, v1, v1,
             if st == Registry.INTERCEPTED || st == Registry.MOCKED then Rewritten(r.value) else Upstream)
      else if st != Registry.MOCKED then Done(q, st, at, v1, v1, Upstream)
      else
        var r2 := FirstMatch(w.versions[now], q);
        Done(q, st, at, v1, now, if r2.None? || IsRewrite(r2.value) then Upstream else Mock(r2.value))
    case Done(_, _, _, _, _, _) => th
  }

  ghost function Next(w: World, m: Move): World
    requires w.log != [] && w.versions != [] && Enabled(w, m)
  {
    match m
    case EditRules(e) => w.(versions := w.versions + [ApplyEdit(w.versions[|w.versions| - 1], e)])
    case EditStates(s) => w.(log := w.log + [s])
    case Arrive(tid, q) => w.(threads := w.threads[tid := Start(q)])
    case Go(tid) => w.(threads := w.threads[tid := Advance(w, w.threads[tid])])
  }

  /** What a finished request can rely on. */
  ghost predicate ThreadOk(w: World, th: Thread) {
    match th
    case Start(_) => true
    case GotState(q, st, at) => at < |w.log| && st == StateIn(w.log[at], q.host)
    case GotRule(q, st, at, v1, r) =>
      at < |w.log| && st == StateIn(w.log[at], q.host) && v1 < |w.versions| && r == FirstMatch(w.versions[v1], q)
    case Done(q, st, at, v1, v2, outcome) =>
      && at < |w.log| && st == StateIn(w.log[at], q.host) && v1 <= v2 < |w.versions|
      && outcome == TwoLookups(st, w.versions[v1], w.versions[v2], q)
  }

  ghost predicate WorldOk(w: World) {
    && w.log != [] && w.versions != []
    && forall tid :: tid in w.threads ==> ThreadOk(w, w.threads[tid])
  }

  /** What a waiting request has seen stays in the growing histories. */
  lemma SeenStaysSeen(w: World, w': World, th: Thread)
    requires ThreadOk(w, th) && w.log <= w'.log && w.versions <= w'.versions
    ensures ThreadOk(w', th)
  {
  }

  lemma AdvanceKeeps(w: World, th: Thread)
    requires w.log != [] && w.versions != [] && ThreadOk(w, th)
    ensures ThreadOk(w, Advance(w, th))
  {
  }

  lemma StepKeepsWorld(w: World, m: Move)
    requires WorldOk(w) && Enabled(w, m)
    ensures WorldOk(Next(w, m))
  {
    var w' := Next(w, m);
    forall tid | tid in w'.threads ensures ThreadOk(w', w'.threads[tid]) {
      if m == Go(tid) {
        AdvanceKeeps(w, w.threads[tid]);
        SeenStaysSeen(w, w', w'.threads[tid]);
      } else if tid in w.threads {
        SeenStaysSeen(w, w', w.threads[tid]);
      }
    }
  }

  ghost predicate IsRun(worlds: seq<World>, moves: seq<Move>) {
    && |worlds| == |moves| + 1
    && |worlds[0].log| == 1 && |worlds[0].versions| == 1 && worlds[0].threads == map[]
    && forall i :: 0 <= i < |moves| ==>
         && worlds[i].log != [] && worlds[i].versions != []
         && Enabled(worlds[i], moves[i]) && worlds[i + 1] == Next(worlds[i], moves[i])
  }

  lemma {:induction false} ReachableWorldsAreOk(worlds: seq<World>, moves: seq<Move>, i: nat)
    requires IsRun(worlds, moves) && i < |worlds|
    ensures WorldOk(worlds[i])
  {
    if i > 0 {
      ReachableWorldsAreOk(worlds, moves, i - 1);
      StepKeepsWorld(worlds[i - 1], moves[i - 1]);
    }
  }

  // ---- a run with a torn decision ----

  const MOCK_RULE: Rule := Rule("a", "", "", "", 0, "", "", "mock", map[], "", "")
  const REWRITE_RULE: Rule := Rule("b", "", "", "", 0, "", "", "rewrite", map[], "x", "")
  const TORN_QUERY: Query := Query("h", "/", "GET")

  lemma TornRules()
    ensures FirstMatch([MOCK_RULE], TORN_QUERY) == Some(MOCK_RULE) && !IsRewrite(MOCK_RULE)
    ensures FirstMatch([REWRITE_RULE], TORN_QUERY) == Some(REWRITE_RULE) && IsRewrite(REWRITE_RULE)
    ensures ApplyEdit([MOCK_RULE], SetRules([REWRITE_RULE], ["b"])) == [REWRITE_RULE]
  {
    assert |Lower("mock")| != |Lower("rewrite")|;
  }

  /** The states of a mocked host's request whose only rule, a mock, gives way to a rewrite between its two
      lookups. */
  function TornWorlds(): seq<World> {
    var log := [map["h" := Registry.MOCKED]];
    var q, st := TORN_QUERY, Registry.MOCKED;
    var before, after := [[MOCK_RULE]], [[MOCK_RULE], [REWRITE_RULE]];
    [World(log, before, map[]),
     World(log, before, map[0 := Start(q)]),
     World(log, before, map[0 := GotState(q, st, 0)]),
     World(log, before, map[0 := GotRule(q, st, 0, 0, Some(MOCK_RULE))]),
     World(log, after, map[0 := GotRule(q, st, 0, 0, Some(MOCK_RULE))]),
     World(log, after, map[0 := Done(q, st, 0, 0, 1, Upstream)])]
  }

  function TornMoves(): seq<Move> {
    [Arrive(0, TORN_QUERY), Go(0), Go(0), EditRules(SetRules([REWRITE_RULE], ["b"])), Go(0)]
  }

  /** The machine reaches a torn decision: the request is neither answered nor rewritten, though either
      rule list alone would do one of the two. */
  lemma TornDecisionExists()
    ensures IsRun(TornWorlds(), TornMoves())
    ensures var w := TornWorlds()[5];
            && w.threads[0] == Done(TORN_QUERY, Registry.MOCKED, 0, 0, 1, Upstream)
            && Torn(Registry.MOCKED, w.versions[0], w.versions[1], TORN_QUERY)
            && Decide(Registry.MOCKED, w.versions[0], TORN_QUERY) == Mock(MOCK_RULE)
            && Decide(Registry.MOCKED, w.versions[1], TORN_QUERY) == Rewritten(REWRITE_RULE)
  {
    TornRules();
    var ws, ms := TornWorlds(), TornMoves();
    assert ws[1] == Next(ws[0], ms[0]);
    assert ws[2] == Next(ws[1], ms[1]);
    assert ws[3] == Next(ws[2], ms[2]);
    assert ws[4] == Next(ws[3], ms[3]);
    assert ws[5] == Next(ws[4], ms[4]);
  }

  /** Every answer given under interleaving: only for a host whose state was read as MOCKED, and it
      renders the first matching rule, not a rewrite, of a real version no older than the first
      lookup's; a rewrite is one of the version first looked up; and when no edit fell between the
      lookups, the outcome is the single-lookup decision on that version. */
  lemma FinishedRequests(worlds: seq<World>, moves: seq<Move>, i: nat, tid: Tid)
    requires IsRun(worlds, moves) && i < |worlds| && tid in worlds[i].threads && worlds[i].threads[tid].Done?
    ensures var w, th := worlds[i], worlds[i].threads[tid];
            && th.at < |w.log| && th.st == StateIn(w.log[th.at], th.q.host)
            && th.v1 <= th.v2 < |w.versions|
            && (th.outcome.Mock? ==> th.st == "MOCKED" && !IsRewrite(th.outcome.rule)
                                     && FirstMatch(w.versions[th.v2], th.q) == Some(th.outcome.rule))
            && (th.outcome.Rewritten? ==> th.st in {"INTERCEPTED", "MOCKED"} && IsRewrite(th.outcome.rule)
                                          && FirstMatch(w.versions[th.v1], th.q) == Some(th.outcome.rule))
            && (th.v1 == th.v2 ==> th.outcome == Decide(th.st, w.versions[th.v1], th.q))
            && (!Torn(th.st, w.versions[th.v1], w.versions[th.v2], th.q) ==>
                  th.outcome in {Decide(th.st, w.versions[th.v1], th.q), Decide(th.st, w.versions[th.v2], th.q)})
  {
    ReachableWorldsAreOk(worlds, moves, i);
    var w, th := worlds[i], worlds[i].threads[tid];
    assert ThreadOk(w, th);
    OneListExplains(th.st, w.versions[th.v1], w.versions[th.v2], th.q);
  }

  lemma ThreeSteps(w: World, tid: Tid, q: Query) returns (w': World)
    requires w.log != [] && w.versions != [] && tid !in w.threads
    ensures w' == Next(Next(Next(Next(w, Arrive(tid, q)), Go(tid)), Go(tid)), Go(tid))
    ensures tid in w'.threads && w'.threads[tid].Done?
    ensures w'.threads[tid].outcome ==
            Decide(StateIn(w.log[|w.log| - 1], q.host), w.versions[|w.versions| - 1], q)
  {
    var w1 := Next(w, Arrive(tid, q));
    var w2 := Next(w1, Go(tid));
    var w3 := Next(w2, Go(tid));
    w' := Next(w3, Go(tid));
    OneListExplains(w2.threads[tid].st, w.versions[|w.versions| - 1], w.versions[|w.versions| - 1], q);
  }

  /** Edits are seen: a request that runs alone after them meets the decision of the edited states and rules. */
  lemma EditsAreSeen(w: World, m: map<string, string>, e: Edit, tid: Tid, q: Query) returns (w': World)
    requires w.log != [] && w.versions != [] && tid !in w.threads && EditOk(e)
    ensures var edited := Next(Next(w, EditStates(m)), EditRules(e));
            w' == Next(Next(Next(Next(edited, Arrive(tid, q)), Go(tid)), Go(tid)), Go(tid))
    ensures tid in w'.threads && w'.threads[tid].Done?
    ensures var st := if q.host in m then m[q.host] else "OBSERVED";
            w'.threads[tid].outcome == Decide(st, ApplyEdit(w.versions[|w.versions| - 1], e), q)
  {
    w' := ThreeSteps(Next(Next(w, EditStates(m)), EditRules(e)), tid, q);
  }
}
