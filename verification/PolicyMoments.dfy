/** When the answer of a thread that looks during a load is that of a policy at all: of the one before or
    of the one being loaded. */
module PolicyMoments {
  import opened Prelude
  import opened CStrings
  import opened PolicyFile
  import SslKit
  import opened PolicyAgreement
  import opened PolicyRaces

  // ---- lists as sets of names ----

  predicate Lets(list: string, host: string) { list == "" || Lower(host) in Names(list) }

  lemma LetsIsGate(list: string, host: string)
    ensures Gate(list, host) <==> Lets(list, host)
  {
    InListExactly(list, host);
  }

  /** With the policies of these lists before and after, the answer for the host on the list found is that
      of one of them. */
  predicate RightFor(list: string, before: string, loaded: string, host: string) {
    if Lets(list, host) then Lets(before, host) || Lets(loaded, host)
    else !Lets(before, host) || !Lets(loaded, host)
  }

  /** The same for all hosts, told from the names alone. */
  predicate Harmless(list: string, before: string, loaded: string) {
    if list == "" then before == "" || loaded == ""
    else if before == "" then loaded != "" && Names(loaded) <= Names(list)
    else if loaded == "" then Names(before) <= Names(list)
    else Names(before) * Names(loaded) <= Names(list) <= Names(before) + Names(loaded)
  }

  lemma Stranger(names: set<string>) returns (h: string)
    ensures Lower(h) !in names
  {
    var n := LongerThanAll(names);
    h := seq(n, _ => 'x');
    assert |Lower(h)| == n;
  }

  lemma HarmlessIsRight(list: string, before: string, loaded: string, host: string)
    requires Harmless(list, before, loaded)
    ensures RightFor(list, before, loaded, host)
  {
  }

  /** A list that is not harmless is wrong about some host. */
  lemma HarmfulIsWrong(list: string, before: string, loaded: string) returns (h: string)
    requires !Harmless(list, before, loaded)
    ensures !RightFor(list, before, loaded, h)
  {
    if list == "" {
      h := Stranger(Names(before) + Names(loaded));
    } else if before == "" && loaded == "" {
      h := Stranger(Names(list));
    } else {
      var n := NameThatShows(list, before, loaded);
      h := n;
    }
  }

  lemma NameThatShows(list: string, before: string, loaded: string) returns (n: string)
    requires !Harmless(list, before, loaded) && list != "" && (before != "" || loaded != "")
    ensures Lower(n) == n && !RightFor(list, before, loaded, n)
  {
    if before == "" {
      n :| n in Names(loaded) && n !in Names(list);
      NamesAreLower(loaded, n);
    } else if loaded == "" {
      n :| n in Names(before) && n !in Names(list);
      NamesAreLower(before, n);
    } else if !(Names(before) * Names(loaded) <= Names(list)) {
      n :| n in Names(before) * Names(loaded) && n !in Names(list);
      NamesAreLower(before, n);
    } else {
      n :| n in Names(list) && n !in Names(before) + Names(loaded);
      NamesAreLower(list, n);
    }
  }

  /** A list gives every host the answer of one of the two policies if and only if it is harmless. */
  lemma HarmlessExactly(list: string, before: string, loaded: string)
    ensures Harmless(list, before, loaded) <==> forall host :: RightFor(list, before, loaded, host)
  {
    if Harmless(list, before, loaded) {
      forall host ensures RightFor(list, before, loaded, host) {
        HarmlessIsRight(list, before, loaded, host);
      }
    } else {
      var h := HarmfulIsWrong(list, before, loaded);
    }
  }

  // ---- answers during a load ----

  /** The answer of a thread that looks while a load is under way is that of the policy before or of the one
      being loaded, if and only if the last list assigned so far is right for its host. */
  lemma AnswerIsAPolicysExactly(states: seq<State>, moves: seq<Move>, i: nat, tid: Tid, t: Tid)
    requires IsRun(states, moves) && i < |moves| && moves[i] == Ask(tid) && IsLoading(states[i], t)
    ensures tid in states[i + 1].threads && states[i + 1].threads[tid].Told? && states[i].started != []
    ensures states[i].threads[t].done <= |states[i].threads[t].job.ops|
    ensures var told, th, started := states[i + 1].threads[tid], states[i].threads[t], states[i].started;
            var answer := Gate(told.list, told.host);
            var before, loaded := Before(started), Current(started);
            answer in {KitHost(before, told.host), KitHost(loaded, told.host)} <==>
            RightFor(ListAfter(before.Get(KitHosts), th.job.ops[..th.done]),
                     before.Get(KitHosts), loaded.Get(KitHosts), told.host)
  {
    FoundLists(states, moves, i, tid);
    var told, started := states[i + 1].threads[tid], states[i].started;
    LetsIsGate(told.list, told.host);
    LetsIsGate(Before(started).Get(KitHosts), told.host);
    LetsIsGate(Current(started).Get(KitHosts), told.host);
  }

  /** Every answer at every moment of a load over the list `before` is that of a policy. */
  ghost predicate NeverWrong(before: string, j: Job) {
    forall k, host :: 0 <= k <= |j.ops| ==>
      RightFor(ListAfter(before, j.ops[..k]), before, j.result.Get(KitHosts), host)
  }

  lemma MomentsAreLists(p: Policy, j: Job)
    requires Full(p) && JobOk(j)
    ensures ListAfter(p.Get(KitHosts), j.ops[..0]) == ListAfter(p.Get(KitHosts), j.ops[..1]) == p.Get(KitHosts)
    ensures ListAfter(p.Get(KitHosts), j.ops[..2]) == ""
  {
    ListDuringLoad(p, j, 0);
    ListDuringLoad(p, j, 1);
    ListDuringLoad(p, j, 2);
  }

  /** A load is never wrong about any host if and only if each list that it passes through is harmless; as
      it begins by emptying the list, that takes a policy before or after it that lets every host in. */
  lemma LoadIsHarmlessExactly(p: Policy, j: Job)
    requires Full(p) && JobOk(j)
    ensures NeverWrong(p.Get(KitHosts), j) <==>
            forall k :: 2 <= k <= |j.ops| ==>
              Harmless(ListAfter(p.Get(KitHosts), j.ops[..k]), p.Get(KitHosts), j.result.Get(KitHosts))
    ensures NeverWrong(p.Get(KitHosts), j) ==> p.Get(KitHosts) == "" || j.result.Get(KitHosts) == ""
  {
    var before, loaded := p.Get(KitHosts), j.result.Get(KitHosts);
    MomentsAreLists(p, j);
    if NeverWrong(before, j) {
      forall k | 2 <= k <= |j.ops| ensures Harmless(ListAfter(before, j.ops[..k]), before, loaded) {
        HarmlessExactly(ListAfter(before, j.ops[..k]), before, loaded);
      }
      assert Harmless(ListAfter(before, j.ops[..2]), before, loaded);
    }
    if forall k :: 2 <= k <= |j.ops| ==> Harmless(ListAfter(before, j.ops[..k]), before, loaded) {
      forall k, host | 0 <= k <= |j.ops| ensures RightFor(ListAfter(before, j.ops[..k]), before, loaded, host) {
        if k >= 2 { HarmlessIsRight(ListAfter(before, j.ops[..k]), before, loaded, host); }
      }
    }
  }

  // ---- every moment is reached ----

  /** Some run in which loads do not overlap ends in s. */
  ghost predicate Reached(s: State) {
    exists states: seq<State>, moves: seq<Move> :: IsRun(states, moves) && states[|moves|] == s
  }

  lemma ReachedInit()
    ensures Reached(Init())
  {
    var states: seq<State>, moves: seq<Move> := [Init()], [];
    assert IsRun(states, moves) && states[|moves|] == Init();
  }

  lemma ReachedThen(s: State, m: Move, s': State)
    requires Reached(s) && Leads(s, m, s') && Alone(s')
    ensures Reached(s')
  {
    var states: seq<State>, moves: seq<Move> :| IsRun(states, moves) && states[|moves|] == s;
    var states', moves' := PathThen(states, moves, m, s');
    assert IsRun(states', moves');
    assert states'[|moves'|] == s';
  }

  /** Thread t is at its k-th assignment over the policy p, and no other thread is loading. */
  ghost predicate At(s: State, t: Tid, host: string, j: Job, k: nat, p: Policy) {
    && k <= |j.ops| && t in s.threads && s.threads[t] == Loading(host, j, k)
    && s.bufs == DoAll(p, j.ops[..k])
    && forall u :: IsLoading(s, u) ==> u == t
  }

  lemma OneWrite(s: State, t: Tid, host: string, j: Job, k: nat, p: Policy) returns (s': State)
    requires Reached(s) && At(s, t, host, j, k, p) && k < |j.ops|
    ensures Reached(s') && At(s', t, host, j, k + 1, p)
    ensures s'.started == s.started && s'.loadedAt == s.loadedAt && s'.threads.Keys == s.threads.Keys
  {
    s' := Next(s, Write(t));
    OneMore(p, j.ops, k);
    forall u | IsLoading(s', u) ensures u == t {
      assert u != t ==> IsLoading(s, u);
    }
    ReachedThen(s, Write(t), s');
  }

  lemma {:induction false} Writing(s: State, t: Tid, host: string, j: Job, k: nat, n: nat, p: Policy)
    returns (s': State)
    requires Reached(s) && At(s, t, host, j, k, p) && k <= n <= |j.ops|
    ensures Reached(s') && At(s', t, host, j, n, p)
    ensures s'.started == s.started && s'.loadedAt == s.loadedAt && s'.threads.Keys == s.threads.Keys
    decreases n - k
  {
    s' := s;
    if k < n {
      s' := OneWrite(s, t, host, j, k, p);
      s' := Writing(s', t, host, j, k + 1, n, p);
    }
  }

  lemma NoLoaderThen(s: State, s': State, t: Tid)
    requires NoLoader(s) && forall u :: u != t && u in s'.threads ==> u in s.threads && s'.threads[u] == s.threads[u]
    ensures forall u :: IsLoading(s', u) ==> u == t
  {
    forall u | IsLoading(s', u) ensures u == t {
      assert !IsLoading(s, u);
    }
  }

  lemma Beginning(s: State, t: Tid, host: string, now: int, j: Job) returns (s': State)
    requires Reached(s) && NoLoader(s) && t !in s.threads && JobOk(j) && !Recent(s, now)
    ensures Reached(s') && At(s', t, host, j, 0, s.bufs)
    ensures s'.started == s.started + [j] && s'.loadedAt == Some(now) && s'.threads.Keys == s.threads.Keys + {t}
  {
    var a := s.(threads := s.threads[t := Stale(host, now, j)]);
    StaleEnters(s, t, host, now, j);
    NoLoaderThen(s, a, t);
    ReachedThen(s, Enter(t, host, now, j), a);
    s' := State(a.bufs, Some(now), a.threads[t := Loading(host, j, 0)], a.started + [j]);
    Marks(a, t, host, now, j);
    NoLoaderThen(s, s', t);
    ReachedThen(a, Mark(t), s');
    assert j.ops[..0] == [];
  }

  lemma Ending(s: State, t: Tid, host: string, j: Job, p: Policy) returns (s': State)
    requires Reached(s) && At(s, t, host, j, |j.ops|, p) && JobOk(j) && Full(p)
    ensures Reached(s') && NoLoader(s') && s'.bufs == j.result
    ensures s'.started == s.started && s'.loadedAt == s.loadedAt && s'.threads.Keys == s.threads.Keys
  {
    assert j.ops[..|j.ops|] == j.ops;
    s' := Next(s, Write(t));
    forall u ensures !IsLoading(s', u) {
      assert u != t && IsLoading(s', u) ==> IsLoading(s, u);
    }
    ReachedThen(s, Write(t), s');
  }

  /** One whole load from the start. */
  lemma LoadedOnce(host: string, j: Job) returns (s: State)
    requires JobOk(j)
    ensures Reached(s) && NoLoader(s) && s.bufs == j.result
    ensures s.started == [j] && s.loadedAt == Some(0) && s.threads.Keys == {0}
  {
    ReachedInit();
    CurrentIsFull([]);
    s := Beginning(Init(), 0, host, 0, j);
    s := Writing(s, 0, host, j, 0, |j.ops|, Zero());
    s := Ending(s, 0, host, j, Zero());
  }

  /** A second thread looks, for this host, after k assignments of the load j over the policy of i. */
  ghost predicate Looking(s: State, i: Job, j: Job, k: nat, host: string)
    requires k <= |j.ops|
  {
    && Reached(s) && s.started == [i, j]
    && 1 in s.threads && s.threads[1] == Loading(host, j, k)
    && 2 in s.threads && s.threads[2] == Asking(host)
    && s.bufs.Get(KitHosts) == ListAfter(i.result.Get(KitHosts), j.ops[..k])
  }

  lemma Reaching(i: Job, j: Job, k: nat, host: string) returns (s: State)
    requires JobOk(i) && JobOk(j) && k <= |j.ops|
    ensures Reached(s) && At(s, 1, host, j, k, i.result)
    ensures s.started == [i, j] && s.loadedAt == Some(2) && 2 !in s.threads
  {
    s := LoadedOnce(host, i);
    s := Beginning(s, 1, host, 2, j);
    s := Writing(s, 1, host, j, 0, k, i.result);
  }

  /** Every moment of every load over every loaded policy is reached by some run, and seen there. */
  lemma EveryMomentIsSeen(i: Job, j: Job, k: nat, host: string) returns (s: State)
    requires JobOk(i) && JobOk(j) && k <= |j.ops|
    ensures Looking(s, i, j, k, host)
    ensures Leads(s, Ask(2), s.(threads := s.threads[2 := Told(host, ListAfter(i.result.Get(KitHosts), j.ops[..k]))]))
  {
    var r := Reaching(i, j, k, host);
    ListDuringLoad(i.result, j, k);
    s := Enters(r, host, j, k, i.result);
    Asks(s, 2, host);
  }

  lemma Enters(s: State, host: string, j: Job, k: nat, p: Policy) returns (s': State)
    requires Reached(s) && At(s, 1, host, j, k, p) && JobOk(j) && s.loadedAt == Some(2) && 2 !in s.threads
    ensures Reached(s') && s'.bufs == s.bufs && s'.started == s.started
    ensures s'.threads == s.threads[2 := Asking(host)]
  {
    s' := s.(threads := s.threads[2 := Asking(host)]);
    RecentEnters(s, 2, host, 2, j);
    forall u | IsLoading(s', u) ensures u == 1 {
      assert IsLoading(s, u);
    }
    ReachedThen(s, Enter(2, host, 2, j), s');
  }

  // ---- two ways to be wrong ----

  /** Between two policies that both have a list, some host is let in by neither of them, and is let in
      in between. */
  lemma OpenMomentIsWrong(i: Job, j: Job) returns (s: State, host: string)
    requires JobOk(i) && JobOk(j) && i.result.Get(KitHosts) != "" && j.result.Get(KitHosts) != ""
    ensures Looking(s, i, j, 2, host) && s.bufs.Get(KitHosts) == ""
    ensures Gate("", host) && !KitHost(i.result, host) && !KitHost(j.result, host)
  {
    host := HarmfulIsWrong("", i.result.Get(KitHosts), j.result.Get(KitHosts));
    LetsIsGate(i.result.Get(KitHosts), host);
    LetsIsGate(j.result.Get(KitHosts), host);
    s := EveryMomentIsSeen(i, j, 2, host);
    MomentsAreLists(i.result, j);
  }

  function OneLine(key: string, v: string): string { key + "=" + v + "\n" }

  /** The first file says v, the second one u. */
  function Twice(v: string, u: string): World {
    World(Some(OneLine(Name(KitHosts), v)), Some(OneLine(Name(KitHosts), u)), map[])
  }

  ghost predicate ShortName(v: string) { LegalName(v) && |v| < 700 }

  lemma OnePair(key: string, v: string)
    requires PlainKey(key) && LegalText(v) && |key| + 1 + |v| < CHUNK
    ensures Pairs(OneLine(key, v)) == [KV(key, v)]
  {
    var f := OneLine(key, v);
    NoNewlineInLine(key, v);
    ChunkInLine(key + "=" + v, "", CHUNK);
    assert key + "=" + v + "\n" + "" == f;
    KeyChunk(key, v, "\n");
    assert f[..|f|] == f && f[|f|..] == "";
  }

  lemma OnePairOps(kv: KV, s: Setting)
    requires SettingOf(kv.key) == Some(s)
    ensures PairOps([kv]) == [Put(s, kv.val)]
  {
    var kvs := [kv];
    assert kvs[..|kvs| - 1] == [];
    assert PairOps(kvs[..|kvs| - 1]) == [];
  }

  lemma OneLineFile(key: string, v: string, s: Setting)
    requires PlainKey(key) && LegalText(v) && |key| + 1 + |v| < CHUNK && SettingOf(key) == Some(s)
    ensures FileOps(Some(OneLine(key, v))) == [Put(s, v)]
  {
    OnePair(key, v);
    OnePairOps(KV(key, v), s);
  }

  lemma KitLine(v: string)
    requires ShortName(v)
    ensures FileOps(Some(OneLine(Name(KitHosts), v))) == [Put(KitHosts, v)]
  {
    ListKeysArePlain();
    NameIsShort(KitHosts);
    NamesAreKnown(KitHosts);
    NameIsText(v);
    OneLineFile(Name(KitHosts), v, KitHosts);
  }

  lemma NoEnvOps(w: World)
    requires w.env == map[]
    ensures EnvOps(w) == []
  {
  }

  lemma LastTwo(a: seq<Op>, b: seq<Op>, c: seq<Op>, x: Op, y: Op)
    requires |a| == 2 && |b| == 3 && |c| == 5
    ensures var ops := a + (b + c + [x] + [y] + []); |ops| == 12 && ops[10] == x && ops[11] == y
  {
  }

  lemma TwiceOps(v: string, u: string, ops: seq<Op>)
    requires ShortName(v) && ShortName(u) && ops == Ops(Twice(v, u))
    ensures |ops| == 12 && ops[10] == Put(KitHosts, v) && ops[11] == Put(KitHosts, u)
  {
    KitLine(v);
    KitLine(u);
    NoEnvOps(Twice(v, u));
    LastTwo(Emptied(), ListDefaultOps(), PathDefaultOps(), Put(KitHosts, v), Put(KitHosts, u));
  }

  lemma KitGivenLast(ops: seq<Op>, k: nat, v: string, was: string)
    requires k < |ops| && ops[k] == Put(KitHosts, v) && |v| < 2048
    ensures ListAfter(was, ops[..k + 1]) == v
  {
    assert ops[..k + 1][k] == ops[k];
  }

  /** The list such a load ends with, and the one it passes through before. */
  lemma TwiceLists(v: string, u: string, j: Job, was: string)
    requires ShortName(v) && ShortName(u) && j == JobOf(Twice(v, u))
    ensures JobOk(j) && |j.ops| == 12 && j.result.Get(KitHosts) == u && ListAfter(was, j.ops[..11]) == v
  {
    LoadIsJob(Twice(v, u));
    TwiceOps(v, u, j.ops);
    ListDuringLoad(j.result, j, 12);
    KitGivenLast(j.ops, 11, u, j.result.Get(KitHosts));
    KitGivenLast(j.ops, 10, v, was);
  }

  /** A list of one name. */
  lemma OneNameDecides(v: string, h: string)
    requires ShortName(v)
    ensures Gate(v, h) <==> Lower(h) == v
  {
    assert LegalNames([v]) && SslKit.Join([v]) == v;
    LegalNamesAreSolid([v]);
    WholeListDecides([v], h);
  }

  /** For any two names, the first file saying one and the second the other: u is let in and not v, before
      the reload and after it, and between the assignments of the two files it is the other way round. */
  lemma SwitchMomentIsWrong(v: string, u: string) returns (j: Job, s: State, s': State)
    requires ShortName(v) && ShortName(u) && v != u
    ensures j == JobOf(Twice(v, u)) && JobOk(j) && |j.ops| == 12
    ensures Looking(s, j, j, 11, v) && s.bufs.Get(KitHosts) == v
    ensures Looking(s', j, j, 11, u) && s'.bufs.Get(KitHosts) == v
    ensures Gate(v, v) && !KitHost(j.result, v)
    ensures !Gate(v, u) && KitHost(j.result, u)
  {
    j := JobOf(Twice(v, u));
    TwiceLists(v, u, j, u);
    LegalIsLower(v);
    LegalIsLower(u);
    OneNameDecides(v, v);
    OneNameDecides(v, u);
    OneNameDecides(u, v);
    OneNameDecides(u, u);
    s := EveryMomentIsSeen(j, j, 11, v);
    s' := EveryMomentIsSeen(j, j, 11, u);
  }
}
