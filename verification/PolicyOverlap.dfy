/** Two threads may both find the policy old before either has marked it loaded, so loads can overlap.  Here
    any number of them do, each over its own files and environment. */
module PolicyOverlap {
  import opened CStrings
  import opened PolicyFile
  import opened PolicyRaces

  /** What a load of its own has made of one setting after k assignments. */
  function SoFar(j: Job, k: nat, f: Setting): string
    requires k <= |j.ops|
  {
    DoAll(Zero(), j.ops[..k]).Get(f)
  }

  /** Every load under way has begun. */
  ghost predicate Begun(s: State) {
    forall t :: IsLoading(s, t) ==> s.threads[t].job in s.started && s.threads[t].done <= |s.threads[t].job.ops|
  }

  /** The setting is as a finished load left it. */
  ghost predicate Settled(s: State, f: Setting) {
    exists j :: j in s.started && s.bufs.Get(f) == j.result.Get(f)
  }

  /** The setting is as the load of thread t has made it so far. */
  ghost predicate MadeBy(s: State, f: Setting, t: Tid) {
    && IsLoading(s, t) && s.threads[t].done <= |s.threads[t].job.ops|
    && s.bufs.Get(f) == SoFar(s.threads[t].job, s.threads[t].done, f)
  }

  ghost predicate Untouched(s: State, f: Setting) { s.started == [] && s.bufs.Get(f) == "" }

  ghost predicate SettingOk(s: State, f: Setting) {
    && JobsOk(s) && Begun(s)
    && (Untouched(s, f) || Settled(s, f) || exists t :: MadeBy(s, f, t))
  }

  lemma DoOther(p: Policy, op: Op, f: Setting)
    requires op.s != f
    ensures Do(p, op).Get(f) == p.Get(f)
  {
  }

  lemma DoPut(p: Policy, op: Op, f: Setting)
    requires op.Put? && op.s == f
    ensures Do(p, op).Get(f) == Cut(op.v, Size(f))
  {
  }

  /** An assignment to a setting forgets what was there, an assignment to another one keeps it. */
  lemma SoFarMore(j: Job, k: nat, f: Setting, p: Policy)
    requires JobOk(j) && k < |j.ops| && f != Keylog
    requires j.ops[k].s != f ==> p.Get(f) == SoFar(j, k, f)
    ensures Do(p, j.ops[k]).Get(f) == SoFar(j, k + 1, f)
  {
    OneMore(Zero(), j.ops, k);
    if j.ops[k].s == f {
      assert j.ops[k].Put?;
      DoPut(p, j.ops[k], f);
      DoPut(DoAll(Zero(), j.ops[..k]), j.ops[k], f);
    } else {
      DoOther(p, j.ops[k], f);
      DoOther(DoAll(Zero(), j.ops[..k]), j.ops[k], f);
    }
  }

  lemma SoFarAll(j: Job, f: Setting)
    requires JobOk(j)
    ensures SoFar(j, |j.ops|, f) == j.result.Get(f)
  {
    CurrentIsFull([]);
    assert j.ops[..|j.ops|] == j.ops;
  }

  lemma FirstMark(s: State, tid: Tid, f: Setting)
    requires Untouched(s, f) && Enabled(s, Mark(tid))
    ensures MadeBy(Next(s, Mark(tid)), f, tid)
  {
    assert s.threads[tid].job.ops[..0] == [];
  }

  lemma MarkFrame(s: State, tid: Tid)
    requires JobsOk(s) && Begun(s) && Enabled(s, Mark(tid))
    ensures JobsOk(Next(s, Mark(tid))) && Begun(Next(s, Mark(tid)))
  {
    var s' := Next(s, Mark(tid));
    JobsKept(s, Mark(tid));
    forall t | IsLoading(s', t)
      ensures s'.threads[t].job in s'.started && s'.threads[t].done <= |s'.threads[t].job.ops|
    {
      assert t != tid ==> IsLoading(s, t);
    }
  }

  lemma MarkSettles(s: State, tid: Tid, f: Setting)
    requires SettingOk(s, f) && Enabled(s, Mark(tid))
    ensures SettingOk(Next(s, Mark(tid)), f)
  {
    var s' := Next(s, Mark(tid));
    MarkFrame(s, tid);
    if Untouched(s, f) {
      FirstMark(s, tid, f);
    } else if Settled(s, f) {
      assert Settled(s', f);
    } else {
      var t :| MadeBy(s, f, t);
      MadeKept(s, s', f, t);
    }
  }

  lemma MadeKept(s: State, s': State, f: Setting, t: Tid)
    requires MadeBy(s, f, t) && t in s'.threads && s'.threads[t] == s.threads[t] && s'.bufs.Get(f) == s.bufs.Get(f)
    ensures MadeBy(s', f, t)
  {
  }

  lemma SettledKept(s: State, s': State, f: Setting)
    requires Settled(s, f) && s'.started == s.started && s'.bufs.Get(f) == s.bufs.Get(f)
    ensures Settled(s', f)
  {
  }

  /** The state after a write or the end of a load, apart from the buffers. */
  lemma WriteFrame(s: State, tid: Tid)
    requires JobsOk(s) && Begun(s) && Enabled(s, Write(tid))
    ensures var s' := Next(s, Write(tid));
            && JobsOk(s') && Begun(s') && s'.started == s.started && s.started != []
            && forall t :: t != tid && t in s.threads ==> t in s'.threads && s'.threads[t] == s.threads[t]
    ensures JobOk(s.threads[tid].job) && s.threads[tid].job in s.started
  {
    var s' := Next(s, Write(tid));
    JobsKept(s, Write(tid));
    assert IsLoading(s, tid);
    forall t | IsLoading(s', t)
      ensures s'.threads[t].job in s'.started && s'.threads[t].done <= |s'.threads[t].job.ops|
    {
      assert IsLoading(s, t);
    }
  }

  lemma OwnWrite(s: State, tid: Tid, f: Setting)
    requires Begun(s) && Enabled(s, Write(tid)) && JobOk(s.threads[tid].job) && f != Keylog
    requires s.threads[tid].done < |s.threads[tid].job.ops|
    requires s.threads[tid].job.ops[s.threads[tid].done].s == f || MadeBy(s, f, tid)
    ensures MadeBy(Next(s, Write(tid)), f, tid)
  {
    SoFarMore(s.threads[tid].job, s.threads[tid].done, f, s.bufs);
  }

  lemma OtherWrite(s: State, tid: Tid, f: Setting)
    requires SettingOk(s, f) && Enabled(s, Write(tid)) && !MadeBy(s, f, tid)
    requires s.threads[tid].done < |s.threads[tid].job.ops|
    requires s.threads[tid].job.ops[s.threads[tid].done].s != f
    ensures Settled(Next(s, Write(tid)), f) || exists t :: MadeBy(Next(s, Write(tid)), f, t)
  {
    var s', th := Next(s, Write(tid)), s.threads[tid];
    WriteFrame(s, tid);
    DoOther(s.bufs, th.job.ops[th.done], f);
    if Settled(s, f) {
      SettledKept(s, s', f);
    } else {
      var t :| MadeBy(s, f, t);
      MadeKept(s, s', f, t);
    }
  }

  lemma WriteSettles(s: State, tid: Tid, f: Setting)
    requires SettingOk(s, f) && Enabled(s, Write(tid)) && f != Keylog
    requires s.threads[tid].done < |s.threads[tid].job.ops|
    ensures SettingOk(Next(s, Write(tid)), f)
  {
    WriteFrame(s, tid);
    if s.threads[tid].job.ops[s.threads[tid].done].s == f || MadeBy(s, f, tid) {
      OwnWrite(s, tid, f);
    } else {
      OtherWrite(s, tid, f);
    }
  }

  lemma EndOfOwn(s: State, tid: Tid, f: Setting)
    requires MadeBy(s, f, tid) && s.threads[tid].done >= |s.threads[tid].job.ops|
    requires JobOk(s.threads[tid].job) && s.threads[tid].job in s.started
    ensures Settled(s, f)
  {
    SoFarAll(s.threads[tid].job, f);
    assert s.bufs.Get(f) == s.threads[tid].job.result.Get(f);
  }

  lemma EndSettles(s: State, tid: Tid, f: Setting)
    requires SettingOk(s, f) && Enabled(s, Write(tid))
    requires s.threads[tid].done >= |s.threads[tid].job.ops|
    ensures SettingOk(Next(s, Write(tid)), f)
  {
    var s' := Next(s, Write(tid));
    WriteFrame(s, tid);
    if MadeBy(s, f, tid) {
      EndOfOwn(s, tid, f);
    }
    if Settled(s, f) {
      SettledKept(s, s', f);
    } else {
      var t :| MadeBy(s, f, t);
      MadeKept(s, s', f, t);
    }
  }

  lemma RestFrame(s: State, m: Move)
    requires JobsOk(s) && Begun(s) && Enabled(s, m) && (m.Enter? || m.Ask?)
    ensures var s' := Next(s, m);
            && JobsOk(s') && Begun(s') && s'.started == s.started && s'.bufs == s.bufs
            && forall t :: IsLoading(s, t) ==> t in s'.threads && s'.threads[t] == s.threads[t]
  {
    var s' := Next(s, m);
    JobsKept(s, m);
    assert !IsLoading(s, m.tid) && !IsLoading(s', m.tid);
    forall t | IsLoading(s', t)
      ensures s'.threads[t].job in s'.started && s'.threads[t].done <= |s'.threads[t].job.ops|
    {
      assert IsLoading(s, t);
    }
  }

  lemma RestSettles(s: State, m: Move, f: Setting)
    requires SettingOk(s, f) && Enabled(s, m) && (m.Enter? || m.Ask?)
    ensures SettingOk(Next(s, m), f)
  {
    var s' := Next(s, m);
    RestFrame(s, m);
    if Settled(s, f) {
      SettledKept(s, s', f);
    } else if !Untouched(s, f) {
      var t :| MadeBy(s, f, t);
      MadeKept(s, s', f, t);
    }
  }

  /** Any path of steps from the start, whatever overlaps. */
  ghost predicate IsAnyRun(states: seq<State>, moves: seq<Move>) {
    Path(states, moves) && states[0] == Init()
  }

  lemma StepSettles(s: State, m: Move, f: Setting)
    requires SettingOk(s, f) && Enabled(s, m) && f != Keylog
    ensures SettingOk(Next(s, m), f)
  {
    match m
    case Mark(tid) => MarkSettles(s, tid, f);
    case Write(tid) =>
      if s.threads[tid].done < |s.threads[tid].job.ops| { WriteSettles(s, tid, f); } else { EndSettles(s, tid, f); }
    case _ => RestSettles(s, m, f);
  }

  /** In every reachable state each setting but keylog is as some one load has left it, or has made it so far. */
  lemma {:induction false} EverySettingIsSomeLoads(states: seq<State>, moves: seq<Move>, i: nat, f: Setting)
    requires IsAnyRun(states, moves) && i < |states| && f != Keylog
    ensures SettingOk(states[i], f)
  {
    if i > 0 {
      EverySettingIsSomeLoads(states, moves, i - 1, f);
      StepSettles(states[i - 1], moves[i - 1], f);
    }
  }

  lemma SettlesTo(states: seq<State>, moves: seq<Move>, i: nat, f: Setting) returns (j: Job)
    requires IsAnyRun(states, moves) && i < |states| && NoLoader(states[i]) && states[i].started != []
    requires f != Keylog
    ensures j in states[i].started && states[i].bufs.Get(f) == j.result.Get(f)
  {
    var s := states[i];
    EverySettingIsSomeLoads(states, moves, i, f);
    forall t ensures !MadeBy(s, f, t) {
      assert !IsLoading(s, t);
    }
    j :| j in s.started && s.bufs.Get(f) == j.result.Get(f);
  }

  /** The gate of some one load begun so far. */
  ghost predicate GateOf(s: State, j: Job) {
    j in s.started && forall host :: KitHost(s.bufs, host) <==> KitHost(j.result, host)
  }

  /** Once no load is under way, the gate is the one of some load begun before, however they overlapped. */
  lemma OverlappingLoadsSettle(states: seq<State>, moves: seq<Move>, i: nat)
    requires IsAnyRun(states, moves) && i < |states| && NoLoader(states[i]) && states[i].started != []
    ensures exists j :: GateOf(states[i], j)
  {
    var j := SettlesTo(states, moves, i, KitHosts);
    forall host ensures KitHost(states[i].bufs, host) <==> KitHost(j.result, host) {
      GateIsKitHost(states[i].bufs, host);
      GateIsKitHost(j.result, host);
    }
    assert GateOf(states[i], j);
  }

  /** If they all load the same files and environment, every setting but keylog ends as one load alone
      would leave it. */
  lemma SameLoadsSettleAlike(states: seq<State>, moves: seq<Move>, i: nat, w: World, f: Setting)
    requires IsAnyRun(states, moves) && i < |states| && NoLoader(states[i]) && states[i].started != []
    requires f != Keylog && forall j :: j in states[i].started ==> j == JobOf(w)
    ensures states[i].bufs.Get(f) == Load(w).Get(f)
  {
    var j := SettlesTo(states, moves, i, f);
  }
}
