/** load_once has no lock, and it marks itself loaded before it has read the files.  So a thread that is
    told "loaded" reads the buffers while another one is still writing them, one assignment at a time. */
module PolicyRaces {
  import opened Prelude
  import opened CStrings
  import opened PolicyFile

  // ---- a load as a list of assignments ----

  /** PutIfEmpty is the SSLKEYLOGFILE line. */
  datatype Op = Put(s: Setting, v: string) | PutIfEmpty(s: Setting, v: string)

  function Do(p: Policy, op: Op): Policy {
    match op
    case Put(s, v) => p.Copy(s, v)
    case PutIfEmpty(s, v) => if p.Get(s) == "" then p.Copy(s, v) else p
  }

  function DoAll(p: Policy, ops: seq<Op>): Policy {
    if ops == [] then p else Do(DoAll(p, ops[..|ops| - 1]), ops[|ops| - 1])
  }

  function PairOps(kvs: seq<KV>): seq<Op> {
    if kvs == [] then []
    else PairOps(kvs[..|kvs| - 1]) +
         (var kv := kvs[|kvs| - 1];
          if SettingOf(kv.key).Some? then [Put(SettingOf(kv.key).value, kv.val)] else [])
  }

  function FileOps(file: Option<string>): seq<Op> {
    if file.None? then [] else PairOps(Pairs(file.value))
  }

  function EnvOp(w: World, s: Setting): seq<Op> {
    if Name(s) in w.env then [Put(s, w.env[Name(s)])] else []
  }

  function KeylogOp(w: World): seq<Op> {
    if "SSLKEYLOGFILE" in w.env then [PutIfEmpty(Keylog, w.env["SSLKEYLOGFILE"])] else []
  }

  /** The two lists are emptied first. */
  function Emptied(): seq<Op> { [Put(ImpersonateHosts, ""), Put(KitHosts, "")] }

  function ListDefaultOps(): seq<Op> {
    [Put(Pin, Default(Pin)), Put(Ca, Default(Ca)), Put(Proxy, Default(Proxy))]
  }

  function PathDefaultOps(): seq<Op> {
    [Put(Verify, Default(Verify)), Put(PinOverride, Default(PinOverride)), Put(Keylog, Default(Keylog)),
     Put(Impersonate, Default(Impersonate)), Put(OriginCertDir, Default(OriginCertDir))]
  }

  function EnvOps(w: World): seq<Op> {
    EnvOp(w, Pin) + EnvOp(w, Ca) + EnvOp(w, Proxy) + EnvOp(w, Verify) + EnvOp(w, PinOverride)
    + EnvOp(w, Keylog) + KeylogOp(w)
    + EnvOp(w, Impersonate) + EnvOp(w, OriginCertDir) + EnvOp(w, ImpersonateHosts) + EnvOp(w, KitHosts)
  }

  /** Everything that load_once assigns, in order. */
  function Ops(w: World): seq<Op> {
    Emptied() + (ListDefaultOps() + PathDefaultOps() + FileOps(w.etc) + FileOps(w.certs) + EnvOps(w))
  }

  lemma {:induction false} DoAllConcat(p: Policy, a: seq<Op>, b: seq<Op>)
    ensures DoAll(p, a + b) == DoAll(DoAll(p, a), b)
    decreases |b|
  {
    if b == [] {
      assert a + b == a;
    } else {
      assert (a + b)[..|a + b| - 1] == a + b[..|b| - 1];
      DoAllConcat(p, a, b[..|b| - 1]);
    }
  }

  lemma DoOne(p: Policy, op: Op)
    ensures DoAll(p, [op]) == Do(p, op)
  {
    assert [op][..0] == [];
    assert DoAll(p, []) == p;
  }

  lemma {:induction false} PairOpsApply(p: Policy, kvs: seq<KV>)
    ensures DoAll(p, PairOps(kvs)) == ApplyAll(p, kvs)
  {
    if kvs != [] {
      var n := |kvs| - 1;
      PairOpsApply(p, kvs[..n]);
      ApplyAllAppend(p, kvs[..n], [kvs[n]]);
      assert kvs == kvs[..n] + [kvs[n]];
      assert [kvs[n]][1..] == [];
      var q := ApplyAll(p, kvs[..n]);
      assert ApplyAll(q, [kvs[n]]) == ApplyKv(q, kvs[n]);
      if SettingOf(kvs[n].key).Some? {
        DoAllConcat(p, PairOps(kvs[..n]), [Put(SettingOf(kvs[n].key).value, kvs[n].val)]);
        DoOne(q, Put(SettingOf(kvs[n].key).value, kvs[n].val));
      } else {
        assert PairOps(kvs) == PairOps(kvs[..n]);
      }
    }
  }

  lemma FileOpsRead(p: Policy, file: Option<string>)
    ensures DoAll(p, FileOps(file)) == ReadConf(p, file)
  {
    if file.Some? {
      PairOpsApply(p, Pairs(file.value));
    }
  }

  lemma EnvOpSteps(p: Policy, w: World, s: Setting)
    ensures DoAll(p, EnvOp(w, s)) == EnvStep(p, w, s)
  {
    if Name(s) in w.env {
      DoOne(p, Put(s, w.env[Name(s)]));
    }
  }

  lemma KeylogOpSteps(p: Policy, w: World)
    ensures DoAll(p, KeylogOp(w)) == KeylogStep(p, w)
  {
    if "SSLKEYLOGFILE" in w.env {
      DoOne(p, PutIfEmpty(Keylog, w.env["SSLKEYLOGFILE"]));
    }
  }

  /** Doing one more list of assignments. */
  lemma Then(p: Policy, a: seq<Op>, b: seq<Op>, q: Policy)
    requires DoAll(p, a) == q
    ensures DoAll(p, a + b) == DoAll(q, b)
  {
    DoAllConcat(p, a, b);
  }

  lemma EnvPathsAre(p: Policy, w: World) returns (q: Policy)
    ensures q == EnvPaths(p, w)
    ensures DoAll(p, EnvOp(w, Pin) + EnvOp(w, Ca) + EnvOp(w, Proxy) + EnvOp(w, Verify) + EnvOp(w, PinOverride)) == q
  {
    var ops := EnvOp(w, Pin);
    q := EnvStep(p, w, Pin);
    EnvOpSteps(p, w, Pin);
    ops, q := EnvThen(p, w, ops, q, Ca);
    ops, q := EnvThen(p, w, ops, q, Proxy);
    ops, q := EnvThen(p, w, ops, q, Verify);
    ops, q := EnvThen(p, w, ops, q, PinOverride);
  }

  lemma EnvThen(p: Policy, w: World, ops: seq<Op>, q: Policy, s: Setting) returns (ops': seq<Op>, q': Policy)
    requires DoAll(p, ops) == q
    ensures ops' == ops + EnvOp(w, s) && q' == EnvStep(q, w, s) && DoAll(p, ops') == q'
  {
    ops', q' := ops + EnvOp(w, s), EnvStep(q, w, s);
    Then(p, ops, EnvOp(w, s), q);
    EnvOpSteps(q, w, s);
  }

  lemma EnvOpsStep(p: Policy, w: World)
    ensures DoAll(p, EnvOps(w)) == EnvRest(EnvPaths(p, w), w)
  {
    var q := EnvPathsAre(p, w);
    var ops := EnvOp(w, Pin) + EnvOp(w, Ca) + EnvOp(w, Proxy) + EnvOp(w, Verify) + EnvOp(w, PinOverride);
    ops, q := EnvThen(p, w, ops, q, Keylog);
    Then(p, ops, KeylogOp(w), q);
    KeylogOpSteps(q, w);
    ops, q := ops + KeylogOp(w), KeylogStep(q, w);
    ops, q := EnvThen(p, w, ops, q, Impersonate);
    ops, q := EnvThen(p, w, ops, q, OriginCertDir);
    ops, q := EnvThen(p, w, ops, q, ImpersonateHosts);
    ops, q := EnvThen(p, w, ops, q, KitHosts);
    assert ops == EnvOps(w);
  }

  lemma PutThen(p: Policy, ops: seq<Op>, q: Policy, s: Setting, v: string) returns (ops': seq<Op>, q': Policy)
    requires DoAll(p, ops) == q
    ensures ops' == ops + [Put(s, v)] && q' == q.Copy(s, v) && DoAll(p, ops') == q'
  {
    ops', q' := ops + [Put(s, v)], q.Copy(s, v);
    Then(p, ops, [Put(s, v)], q);
    DoOne(q, Put(s, v));
  }

  lemma ListDefaultsAre(p: Policy)
    ensures DoAll(p, Emptied() + ListDefaultOps()) == CopyListDefaults(p)
  {
    var ops, q := PutThen(p, [], p, ImpersonateHosts, "");
    ops, q := PutThen(p, ops, q, KitHosts, "");
    ops, q := PutThen(p, ops, q, Pin, Default(Pin));
    ops, q := PutThen(p, ops, q, Ca, Default(Ca));
    ops, q := PutThen(p, ops, q, Proxy, Default(Proxy));
    assert ops == Emptied() + ListDefaultOps();
  }

  lemma PathDefaultsAre(p: Policy)
    ensures DoAll(p, PathDefaultOps()) == CopyPathDefaults(p)
  {
    var ops, q := PutThen(p, [], p, Verify, Default(Verify));
    ops, q := PutThen(p, ops, q, PinOverride, Default(PinOverride));
    ops, q := PutThen(p, ops, q, Keylog, Default(Keylog));
    ops, q := PutThen(p, ops, q, Impersonate, Default(Impersonate));
    ops, q := PutThen(p, ops, q, OriginCertDir, Default(OriginCertDir));
    assert ops == PathDefaultOps();
  }

  lemma FiveThen(p: Policy, a: seq<Op>, b: seq<Op>, c: seq<Op>, d: seq<Op>, e: seq<Op>)
    ensures DoAll(p, a + b + c + d + e) == DoAll(DoAll(DoAll(DoAll(DoAll(p, a), b), c), d), e)
  {
    DoAllConcat(p, a, b);
    DoAllConcat(p, a + b, c);
    DoAllConcat(p, a + b + c, d);
    DoAllConcat(p, a + b + c + d, e);
  }

  lemma Regroup(x: seq<Op>, a: seq<Op>, b: seq<Op>, c: seq<Op>, d: seq<Op>, e: seq<Op>)
    ensures x + (a + b + c + d + e) == (x + a) + b + c + d + e
  {
  }

  /** All assignments together are the load, whatever the buffers held. */
  lemma OpsAreLoad(p: Policy, w: World)
    requires Full(p)
    ensures DoAll(p, Ops(w)) == Load(w)
  {
    Regroup(Emptied(), ListDefaultOps(), PathDefaultOps(), FileOps(w.etc), FileOps(w.certs), EnvOps(w));
    FiveThen(p, Emptied() + ListDefaultOps(), PathDefaultOps(), FileOps(w.etc), FileOps(w.certs), EnvOps(w));
    ListDefaultsAre(p);
    PathDefaultsAre(CopyListDefaults(p));
    CopyDefaultsForgets(p);
    FileOpsRead(Defaults(), w.etc);
    FileOpsRead(ReadConf(Defaults(), w.etc), w.certs);
    EnvOpsStep(ReadConf(ReadConf(Defaults(), w.etc), w.certs), w);
  }

  // ---- the gate during a load ----

  /** The last value given to the kit list. */
  function LastKit(ops: seq<Op>): Option<string> {
    if ops == [] then None
    else if ops[|ops| - 1].s == KitHosts then Some(ops[|ops| - 1].v)
    else LastKit(ops[..|ops| - 1])
  }

  /** The kit list after these assignments. */
  function ListAfter(was: string, ops: seq<Op>): string {
    match LastKit(ops)
    case None => was
    case Some(v) => Cut(v, Size(KitHosts))
  }

  /** Keylog is the only setting whose old value decides whether it is assigned. */
  ghost predicate OnlyKeylogAsks(ops: seq<Op>) {
    forall i :: 0 <= i < |ops| && ops[i].PutIfEmpty? ==> ops[i].s == Keylog
  }

  lemma {:induction false} PairOpsPut(kvs: seq<KV>)
    ensures OnlyKeylogAsks(PairOps(kvs))
  {
    if kvs != [] {
      PairOpsPut(kvs[..|kvs| - 1]);
    }
  }

  lemma PutConcat(a: seq<Op>, b: seq<Op>)
    requires OnlyKeylogAsks(a) && OnlyKeylogAsks(b)
    ensures OnlyKeylogAsks(a + b)
  {
  }

  lemma FilesPut(etc: seq<Op>, certs: seq<Op>, env: seq<Op>)
    requires OnlyKeylogAsks(etc) && OnlyKeylogAsks(certs) && OnlyKeylogAsks(env)
    ensures OnlyKeylogAsks(Emptied() + (ListDefaultOps() + PathDefaultOps() + etc + certs + env))
  {
    PutConcat(ListDefaultOps(), PathDefaultOps());
    PutConcat(ListDefaultOps() + PathDefaultOps(), etc);
    PutConcat(ListDefaultOps() + PathDefaultOps() + etc, certs);
    PutConcat(ListDefaultOps() + PathDefaultOps() + etc + certs, env);
    PutConcat(Emptied(), ListDefaultOps() + PathDefaultOps() + etc + certs + env);
  }

  lemma FilePut(file: Option<string>)
    ensures OnlyKeylogAsks(FileOps(file))
  {
    if file.Some? { PairOpsPut(Pairs(file.value)); }
  }

  lemma EnvPut(ops: seq<Op>, w: World, s: Setting)
    requires OnlyKeylogAsks(ops)
    ensures OnlyKeylogAsks(ops + EnvOp(w, s))
  {
  }

  lemma EnvOpsPut(w: World)
    ensures OnlyKeylogAsks(EnvOps(w))
  {
    var ops := EnvOp(w, Pin);
    EnvPut(ops, w, Ca);
    ops := ops + EnvOp(w, Ca);
    EnvPut(ops, w, Proxy);
    ops := ops + EnvOp(w, Proxy);
    EnvPut(ops, w, Verify);
    ops := ops + EnvOp(w, Verify);
    EnvPut(ops, w, PinOverride);
    ops := ops + EnvOp(w, PinOverride);
    EnvPut(ops, w, Keylog);
    ops := ops + EnvOp(w, Keylog);
    PutConcat(ops, KeylogOp(w));
    ops := ops + KeylogOp(w);
    EnvPut(ops, w, Impersonate);
    ops := ops + EnvOp(w, Impersonate);
    EnvPut(ops, w, OriginCertDir);
    ops := ops + EnvOp(w, OriginCertDir);
    EnvPut(ops, w, ImpersonateHosts);
    ops := ops + EnvOp(w, ImpersonateHosts);
    EnvPut(ops, w, KitHosts);
    assert ops + EnvOp(w, KitHosts) == EnvOps(w);
  }

  lemma OpsPut(w: World)
    ensures OnlyKeylogAsks(Ops(w))
  {
    FilePut(w.etc);
    FilePut(w.certs);
    EnvOpsPut(w);
    FilesPut(FileOps(w.etc), FileOps(w.certs), EnvOps(w));
  }

  /** A load: its assignments, which begin with the emptied lists, and the policy that they make of any. */
  datatype Job = Job(ops: seq<Op>, result: Policy)

  ghost predicate JobOk(j: Job) {
    && |j.ops| >= 2 && j.ops[..2] == Emptied() && OnlyKeylogAsks(j.ops)
    && Full(j.result)
    && forall p :: Full(p) ==> DoAll(p, j.ops) == j.result
  }

  function JobOf(w: World): Job { Job(Ops(w), Load(w)) }

  lemma {:induction false} DoAllKeepsFull(p: Policy, ops: seq<Op>)
    requires Full(p)
    ensures Full(DoAll(p, ops))
  {
    if ops != [] {
      DoAllKeepsFull(p, ops[..|ops| - 1]);
    }
  }

  /** load_once is such a load. */
  lemma LoadIsJob(w: World)
    ensures JobOk(JobOf(w))
  {
    forall p: Policy | Full(p) ensures DoAll(p, Ops(w)) == Load(w) {
      OpsAreLoad(p, w);
    }
    CurrentIsFull([]);
    OpsAreLoad(Zero(), w);
    DoAllKeepsFull(Zero(), Ops(w));
    OpsPut(w);
    FrontOf(Emptied(), ListDefaultOps() + PathDefaultOps() + FileOps(w.etc) + FileOps(w.certs) + EnvOps(w));
  }

  lemma FrontOf(a: seq<Op>, b: seq<Op>)
    ensures (a + b)[..|a|] == a && |a + b| >= |a|
  {
  }

  /** What skytap_kit_host says when it finds this list. */
  ghost predicate Gate(list: string, host: string) { list == "" || HostInList(list, host) }

  lemma GateIsKitHost(p: Policy, host: string)
    ensures KitHost(p, host) <==> Gate(p.Get(KitHosts), host)
  {
  }

  lemma {:induction false} KitOfDoAll(p: Policy, ops: seq<Op>)
    requires OnlyKeylogAsks(ops)
    ensures DoAll(p, ops).Get(KitHosts) == ListAfter(p.Get(KitHosts), ops)
  {
    if ops != [] {
      var n := |ops| - 1;
      assert forall i :: 0 <= i < n ==> ops[..n][i] == ops[i];
      KitOfDoAll(p, ops[..n]);
      if ops[n].s == KitHosts {
        assert ops[n].Put?;
      }
    }
  }

  lemma {:induction false} LastKitIsThere(ops: seq<Op>, i: nat)
    requires i < |ops| && ops[i].s == KitHosts
    ensures LastKit(ops).Some?
  {
    var n := |ops| - 1;
    if i < n {
      LastKitIsThere(ops[..n], i);
    }
  }

  lemma EmptiedKit(ops: seq<Op>)
    requires |ops| >= 2 && ops[..2] == Emptied()
    ensures LastKit(ops[..0]) == LastKit(ops[..1]) == None && LastKit(ops[..2]) == Some("")
    ensures ops[1].s == KitHosts
  {
    assert ops[0] == ops[..2][0] && ops[1] == ops[..2][1];
    assert ops[..1] == [ops[0]] && ops[..1][..0] == [];
  }

  /** The list after the first k assignments of a load over the policy p, for every k: the last value it has
      been given, cut to the buffer.  So it is the old list until it is emptied, then none, then whatever it
      is assigned, and at the end that of the policy being loaded. */
  lemma ListDuringLoad(p: Policy, j: Job, k: nat)
    requires Full(p) && JobOk(j) && k <= |j.ops|
    ensures DoAll(p, j.ops[..k]).Get(KitHosts) == ListAfter(p.Get(KitHosts), j.ops[..k])
    ensures LastKit(j.ops[..k]).None? <==> k <= 1
    ensures k == 2 ==> ListAfter(p.Get(KitHosts), j.ops[..k]) == ""
    ensures k == |j.ops| ==> ListAfter(p.Get(KitHosts), j.ops[..k]) == j.result.Get(KitHosts)
  {
    assert forall i :: 0 <= i < k ==> j.ops[..k][i] == j.ops[i];
    KitOfDoAll(p, j.ops[..k]);
    EmptiedKit(j.ops);
    if k >= 2 { LastKitIsThere(j.ops[..k], 1); }
    if k == |j.ops| { assert j.ops[..k] == j.ops; }
  }

  // ---- threads ----

  type Tid = nat

  /** A skytap_kit_host call: it has found the policy missing or old, it is loading, it has passed
      load_once and is about to look at the list, or it has looked. */
  datatype Thread =
    | Stale(host: string, now: int, job: Job)
    | Loading(host: string, job: Job, done: nat)
    | Asking(host: string)
    | Told(host: string, list: string)

  /** `started` is the history: the loads begun so far. */
  datatype State = State(bufs: Policy, loadedAt: Option<int>, threads: map<Tid, Thread>, started: seq<Job>)

  datatype Move =
    | Enter(tid: Tid, host: string, now: int, job: Job)
    | Mark(tid: Tid)    // g_loaded and g_loaded_at
    | Write(tid: Tid)   // one assignment, or the end of the load
    | Ask(tid: Tid)     // the list

  function Nothing(s: Setting): string { "" }

  function Zero(): Policy { Policy(map s: Setting :: Nothing(s)) }

  function Init(): State { State(Zero(), None, map[], []) }

  ghost predicate Enabled(s: State, m: Move) {
    match m
    case Enter(tid, _, _, job) => JobOk(job) && (tid in s.threads ==> s.threads[tid].Told?)
    case Mark(tid) => tid in s.threads && s.threads[tid].Stale?
    case Write(tid) => tid in s.threads && s.threads[tid].Loading?
    case Ask(tid) => tid in s.threads && s.threads[tid].Asking?
  }

  predicate Recent(s: State, now: int) { s.loadedAt.Some? && now - s.loadedAt.value < 2 }

  /** That is the time check of load_once. */
  lemma RecentIsServed(s: State, now: int, p: Policy, w: World)
    requires s.loadedAt.Some?
    ensures Recent(s, now) <==> LoadOnce(Loaded(p, s.loadedAt.value), Call(now, w)).at == s.loadedAt.value
  {
  }

  function Written(th: Thread, p: Policy): (Policy, Thread)
    requires th.Loading?
  {
    if th.done < |th.job.ops| then (Do(p, th.job.ops[th.done]), th.(done := th.done + 1)) else (p, Asking(th.host))
  }

  ghost function Next(s: State, m: Move): State
    requires Enabled(s, m)
  {
    match m
    case Enter(tid, host, now, job) =>
      s.(threads := s.threads[tid := if Recent(s, now) then Asking(host) else Stale(host, now, job)])
    case Mark(tid) =>
      var th := s.threads[tid];
      s.(loadedAt := Some(th.now), started := s.started + [th.job],
         threads := s.threads[tid := Loading(th.host, th.job, 0)])
    case Write(tid) =>
      var r := Written(s.threads[tid], s.bufs);
      s.(bufs := r.0, threads := s.threads[tid := r.1])
    case Ask(tid) =>
      s.(threads := s.threads[tid := Told(s.threads[tid].host, s.bufs.Get(KitHosts))])
  }

  ghost predicate Path(states: seq<State>, moves: seq<Move>) {
    && |states| == |moves| + 1
    && forall i :: 0 <= i < |moves| ==> Enabled(states[i], moves[i]) && states[i + 1] == Next(states[i], moves[i])
  }

  // ---- loads that do not overlap ----

  predicate IsLoading(s: State, tid: Tid) { tid in s.threads && s.threads[tid].Loading? }

  ghost predicate NoLoader(s: State) { forall t :: !IsLoading(s, t) }

  ghost predicate Alone(s: State) {
    forall t, u :: IsLoading(s, t) && IsLoading(s, u) ==> t == u
  }

  /** The policy after the loads begun so far. */
  function Current(started: seq<Job>): Policy {
    if started == [] then Zero() else started[|started| - 1].result
  }

  /** The policy before the last of them. */
  function Before(started: seq<Job>): Policy
    requires started != []
  {
    Current(started[..|started| - 1])
  }

  ghost predicate JobsOk(s: State) {
    && (forall i :: 0 <= i < |s.started| ==> JobOk(s.started[i]))
    && (forall t :: t in s.threads ==> s.threads[t].Stale? || s.threads[t].Loading? ==> JobOk(s.threads[t].job))
  }

  ghost predicate LoaderOk(s: State, th: Thread)
    requires th.Loading?
  {
    && s.started != [] && th.job == s.started[|s.started| - 1] && th.done <= |th.job.ops|
    && s.bufs == DoAll(Before(s.started), th.job.ops[..th.done])
  }

  ghost predicate StateOk(s: State) {
    && JobsOk(s)
    && (forall t :: IsLoading(s, t) ==> LoaderOk(s, s.threads[t]))
    && (NoLoader(s) ==> s.bufs == Current(s.started))
  }

  lemma CurrentIsFull(started: seq<Job>)
    requires forall i :: 0 <= i < |started| ==> JobOk(started[i])
    ensures Full(Current(started))
  {
    if started != [] {
      assert JobOk(started[|started| - 1]);
    }
  }

  lemma JobsKept(s: State, m: Move)
    requires JobsOk(s) && Enabled(s, m)
    ensures JobsOk(Next(s, m))
  {
  }

  lemma MarkKeeps(s: State, tid: Tid)
    requires StateOk(s) && Enabled(s, Mark(tid)) && Alone(Next(s, Mark(tid)))
    ensures StateOk(Next(s, Mark(tid)))
  {
    var s' := Next(s, Mark(tid));
    JobsKept(s, Mark(tid));
    assert IsLoading(s', tid);
    forall t ensures !IsLoading(s, t) {
      assert IsLoading(s, t) ==> IsLoading(s', t) && t != tid;
    }
    assert s'.started[..|s'.started| - 1] == s.started;
    assert s'.threads[tid].job.ops[..0] == [];
    forall t | IsLoading(s', t) ensures LoaderOk(s', s'.threads[t]) {
      assert t == tid;
    }
  }

  lemma OneMore(p: Policy, ops: seq<Op>, k: nat)
    requires k < |ops|
    ensures DoAll(p, ops[..k + 1]) == Do(DoAll(p, ops[..k]), ops[k])
  {
    assert ops[..k + 1][..k] == ops[..k];
  }

  lemma WriteKeeps(s: State, tid: Tid)
    requires StateOk(s) && Enabled(s, Write(tid)) && Alone(s) && s.threads[tid].done < |s.threads[tid].job.ops|
    ensures StateOk(Next(s, Write(tid)))
  {
    var s', th := Next(s, Write(tid)), s.threads[tid];
    JobsKept(s, Write(tid));
    assert IsLoading(s, tid) && LoaderOk(s, th);
    OneMore(Before(s.started), th.job.ops, th.done);
    assert IsLoading(s', tid);
    forall t | IsLoading(s', t) ensures LoaderOk(s', s'.threads[t]) {
      assert IsLoading(s, t);
    }
  }

  lemma EndKeeps(s: State, tid: Tid)
    requires StateOk(s) && Enabled(s, Write(tid)) && Alone(s) && s.threads[tid].done >= |s.threads[tid].job.ops|
    ensures StateOk(Next(s, Write(tid)))
  {
    var s', th := Next(s, Write(tid)), s.threads[tid];
    JobsKept(s, Write(tid));
    assert IsLoading(s, tid) && LoaderOk(s, th);
    assert th.job.ops[..th.done] == th.job.ops;
    CurrentIsFull(s.started[..|s.started| - 1]);
    forall t ensures !IsLoading(s', t) {
      assert IsLoading(s', t) ==> IsLoading(s, t) && t != tid;
    }
  }

  lemma SameLoaders(s: State, s': State)
    requires StateOk(s) && JobsOk(s') && s'.bufs == s.bufs && s'.started == s.started
    requires forall t :: IsLoading(s', t) <==> IsLoading(s, t)
    requires forall t :: IsLoading(s, t) ==> t in s'.threads && s'.threads[t] == s.threads[t]
    ensures StateOk(s')
  {
    forall t | IsLoading(s', t) ensures LoaderOk(s', s'.threads[t]) {
      assert IsLoading(s, t) && LoaderOk(s, s.threads[t]);
    }
    if NoLoader(s') {
      forall t ensures !IsLoading(s, t) {
        assert !IsLoading(s', t);
      }
    }
  }

  lemma OthersKeep(s: State, m: Move)
    requires StateOk(s) && Enabled(s, m) && (m.Enter? || m.Ask?)
    ensures StateOk(Next(s, m))
  {
    var s' := Next(s, m);
    JobsKept(s, m);
    assert forall t :: t != m.tid && t in s.threads ==> t in s'.threads && s'.threads[t] == s.threads[t];
    SameLoaders(s, s');
  }

  lemma StepKeepsState(s: State, m: Move)
    requires StateOk(s) && Enabled(s, m) && Alone(s) && Alone(Next(s, m))
    ensures StateOk(Next(s, m))
  {
    match m
    case Mark(tid) => MarkKeeps(s, tid);
    case Write(tid) =>
      if s.threads[tid].done < |s.threads[tid].job.ops| { WriteKeeps(s, tid); } else { EndKeeps(s, tid); }
    case _ => OthersKeep(s, m);
  }

  /** A run in which no load begins while another one is under way. */
  ghost predicate IsRun(states: seq<State>, moves: seq<Move>) {
    && Path(states, moves) && states[0] == Init()
    && forall i :: 0 <= i < |states| ==> Alone(states[i])
  }

  lemma {:induction false} ReachableStatesAreOk(states: seq<State>, moves: seq<Move>, i: nat)
    requires IsRun(states, moves) && i < |states|
    ensures StateOk(states[i])
  {
    if i > 0 {
      ReachableStatesAreOk(states, moves, i - 1);
      StepKeepsState(states[i - 1], moves[i - 1]);
    }
  }

  // ---- answers ----

  /** A thread that looks when no load is under way finds the list of the last loaded policy.  While one is,
      it finds the last list that the assignments made so far have given, or else the one of the policy
      before. */
  lemma FoundLists(states: seq<State>, moves: seq<Move>, i: nat, tid: Tid)
    requires IsRun(states, moves) && i < |moves| && moves[i] == Ask(tid)
    ensures tid in states[i + 1].threads && states[i + 1].threads[tid].Told?
    ensures var s, list := states[i], states[i + 1].threads[tid].list;
            && (NoLoader(s) ==> list == Current(s.started).Get(KitHosts))
            && forall t :: IsLoading(s, t) ==>
                 var th := s.threads[t];
                 && s.started != [] && th.job == s.started[|s.started| - 1] && th.done <= |th.job.ops|
                 && list == ListAfter(Before(s.started).Get(KitHosts), th.job.ops[..th.done])
  {
    ReachableStatesAreOk(states, moves, i);
    var s := states[i];
    forall t | IsLoading(s, t)
      ensures LoaderOk(s, s.threads[t])
      ensures var th := s.threads[t];
              s.bufs.Get(KitHosts) == ListAfter(Before(s.started).Get(KitHosts), th.job.ops[..th.done])
    {
      CurrentIsFull(s.started[..|s.started| - 1]);
      ListDuringLoad(Before(s.started), s.threads[t].job, s.threads[t].done);
    }
  }

  /** One move leads from s to s'. */
  ghost predicate Leads(s: State, m: Move, s': State) { Enabled(s, m) && Next(s, m) == s' }

  lemma StaleEnters(s: State, t: Tid, host: string, now: int, job: Job)
    requires t !in s.threads && JobOk(job) && !Recent(s, now)
    ensures Leads(s, Enter(t, host, now, job), s.(threads := s.threads[t := Stale(host, now, job)]))
  {
  }

  lemma RecentEnters(s: State, t: Tid, host: string, now: int, job: Job)
    requires t !in s.threads && JobOk(job) && Recent(s, now)
    ensures Leads(s, Enter(t, host, now, job), s.(threads := s.threads[t := Asking(host)]))
  {
  }

  lemma Marks(s: State, t: Tid, host: string, now: int, job: Job)
    requires t in s.threads && s.threads[t] == Stale(host, now, job)
    ensures Leads(s, Mark(t), State(s.bufs, Some(now), s.threads[t := Loading(host, job, 0)], s.started + [job]))
  {
  }

  lemma Writes(s: State, t: Tid, host: string, job: Job, k: nat, f: Setting, v: string)
    requires t in s.threads && s.threads[t] == Loading(host, job, k) && k < |job.ops| && job.ops[k] == Put(f, v)
    ensures Leads(s, Write(t), s.(bufs := s.bufs.Copy(f, v), threads := s.threads[t := Loading(host, job, k + 1)]))
  {
  }

  lemma Asks(s: State, t: Tid, host: string)
    requires t in s.threads && s.threads[t] == Asking(host)
    ensures Leads(s, Ask(t), s.(threads := s.threads[t := Told(host, s.bufs.Get(KitHosts))]))
  {
  }

  lemma PathThen(states: seq<State>, moves: seq<Move>, m: Move, s: State)
    returns (states': seq<State>, moves': seq<Move>)
    requires Path(states, moves) && Leads(states[|moves|], m, s)
    ensures states' == states + [s] && moves' == moves + [m] && Path(states', moves')
  {
    states', moves' := states + [s], moves + [m];
    forall i | 0 <= i < |moves'| ensures Leads(states'[i], moves'[i], states'[i + 1]) {
      if i < |moves| { assert states'[i] == states[i] && states'[i + 1] == states[i + 1]; }
    }
  }

  lemma TwoWrites(s: State, t: Tid, host: string, job: Job) returns (s': State, s'': State)
    requires JobOk(job) && t in s.threads && s.threads[t] == Loading(host, job, 0)
    ensures Leads(s, Write(t), s') && Leads(s', Write(t), s'')
    ensures s''.bufs.Get(KitHosts) == "" && s''.loadedAt == s.loadedAt
    ensures s''.threads == s.threads[t := Loading(host, job, 2)]
  {
    assert job.ops[0] == job.ops[..2][0] && job.ops[1] == job.ops[..2][1];
    Writes(s, t, host, job, 0, ImpersonateHosts, "");
    s' := s.(bufs := s.bufs.Copy(ImpersonateHosts, ""), threads := s.threads[t := Loading(host, job, 1)]);
    Writes(s', t, host, job, 1, KitHosts, "");
    s'' := s'.(bufs := s'.bufs.Copy(KitHosts, ""), threads := s'.threads[t := Loading(host, job, 2)]);
  }

  lemma Begins(s: State, t: Tid, host: string, now: int, job: Job) returns (s': State, s'': State)
    requires t !in s.threads && JobOk(job) && !Recent(s, now)
    ensures Leads(s, Enter(t, host, now, job), s') && Leads(s', Mark(t), s'')
    ensures s''.loadedAt == Some(now) && s''.threads == s.threads[t := Loading(host, job, 0)]
  {
    StaleEnters(s, t, host, now, job);
    s' := s.(threads := s.threads[t := Stale(host, now, job)]);
    Marks(s', t, host, now, job);
    s'' := State(s.bufs, Some(now), s'.threads[t := Loading(host, job, 0)], s.started + [job]);
  }

  lemma Looks(s: State, u: Tid, host: string, now: int, job: Job) returns (s': State, s'': State)
    requires u !in s.threads && JobOk(job) && Recent(s, now)
    ensures Leads(s, Enter(u, host, now, job), s') && Leads(s', Ask(u), s'')
    ensures s''.threads == s.threads[u := Told(host, s.bufs.Get(KitHosts))]
  {
    RecentEnters(s, u, host, now, job);
    s' := s.(threads := s.threads[u := Asking(host)]);
    Asks(s', u, host);
    s'' := s'.(threads := s'.threads[u := Told(host, s.bufs.Get(KitHosts))]);
  }

  /** Every reload opens the gate for a moment: from any state whose policy is old, six steps of two threads
      end with the second one finding no list, whatever the policy before and the one being loaded say. */
  lemma ReloadOpensGate(s: State, t: Tid, u: Tid, host: string, now: int, job: Job)
    returns (states: seq<State>, moves: seq<Move>)
    requires JobOk(job) && t != u && t !in s.threads && u !in s.threads && !Recent(s, now)
    ensures Path(states, moves) && |moves| == 6 && states[0] == s
    ensures states[6].threads == s.threads[t := Loading(host, job, 2)][u := Told(host, "")]
  {
    var s1, s2 := Begins(s, t, host, now, job);
    var s3, s4 := TwoWrites(s2, t, host, job);
    assert s4.threads == s.threads[t := Loading(host, job, 2)];
    var s5, s6 := Looks(s4, u, host, now, job);
    states, moves := PathThen([s], [], Enter(t, host, now, job), s1);
    states, moves := PathThen(states, moves, Mark(t), s2);
    states, moves := PathThen(states, moves, Write(t), s3);
    states, moves := PathThen(states, moves, Write(t), s4);
    states, moves := PathThen(states, moves, Enter(u, host, now, job), s5);
    states, moves := PathThen(states, moves, Ask(u), s6);
  }

  const SHUT: World := World(None, None, map["SKYTAP_SSL_KIT_HOSTS" := "a"])

  lemma ShutList()
    ensures Load(SHUT).Get(KitHosts) == "a"
  {
    LoadResolves(SHUT, KitHosts);
    assert Name(KitHosts) in SHUT.env;
  }

  /** A policy that lets one host in and another one not. */
  lemma GateCanBeShut()
    ensures KitHost(Load(SHUT), "a") && !KitHost(Load(SHUT), "b")
  {
    ShutList();
    OneName();
    GateIsKitHost(Load(SHUT), "a");
    GateIsKitHost(Load(SHUT), "b");
  }

  lemma OneName()
    ensures Gate("a", "a") && !Gate("a", "b")
  {
    assert Span("a", DELIMS) == 1;
    assert "a"[..1] == "a" && "a"[1..] == "";
    assert Tokens("a", DELIMS) == ["a"];
    assert Lower("a")[0] == 'a' && Lower("b")[0] == 'b';
    AmongStep(["a"], "a");
    AmongStep(["a"], "b");
  }
}
