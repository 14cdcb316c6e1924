/** The impersonation table under threads.  Every locked region of the C code is one atomic step,
    the PEM load runs outside the lock, and threads interleave in any way. */
module ImpersonateRuns {
  import opened Prelude
  import opened Impersonate

  type Tid = nat

  /** Where a thread stands.  `due` is the uncached answer at the moment the thread picked its host. */
  datatype Thread =
    | Idle
    | BindNote(s: Ssl, name: string)
    | BindFind(s: Ssl, name: string)
    | BindStore(s: Ssl, name: string, slot: Option<nat>)
    | ChainFind(s: Ssl, sni: string)
    | ChainPick(s: Ssl, sni: string, slot: Option<nat>)
    | ChainLoad(s: Ssl, host: string, slot: Option<nat>, due: Option<Chain>)
    | ChainStore(s: Ssl, host: string, slot: Option<nat>, loaded: Chain, due: Option<Chain>)
    | Returned(answer: Option<Chain>, due: Option<Chain>)

  datatype World = World(table: Table, threads: map<Tid, Thread>)

  datatype Move = Start(tid: Tid, call: Call) | Go(tid: Tid)

  /** A call begins: the tests made before any lock is taken. */
  function Begin(cfg: Config, call: Call): Thread {
    match call
    case Bind(s, name) => if s == 0 || name == "" then Idle else BindNote(s, name)
    case Lookup(s, sni) => if !cfg.on || s == 0 then Returned(None, None) else ChainFind(s, sni)
  }

  predicate SlotInRange(t: Table, th: Thread) {
    th.BindStore? || th.ChainPick? || th.ChainLoad? || th.ChainStore? ==>
      th.slot.Some? ==> th.slot.value < |t.faces|
  }

  /** One thread step: at most one locked region. */
  function Advance(cfg: Config, t: Table, th: Thread): (r: (Table, Thread))
    requires SlotInRange(t, th)
  {
    match th
    case Idle => (t, th)
    case Returned(_, _) => (t, Idle)
    case BindNote(s, name) => (NoteHost(t, name), BindFind(s, name))
    case BindFind(s, name) => var f := FaceOf(t, s); (f.table, BindStore(s, name, f.slot))
    case BindStore(s, name, slot) => (BindWrite(t, slot, name), Idle)
    case ChainFind(s, sni) => var f := FaceOf(t, s); (f.table, ChainPick(s, sni, f.slot))
    case ChainPick(s, sni, slot) =>
      var host := PickHost(t, slot, sni);
      var due := LoadFor(cfg, host);
      var cached := Cached(t, slot, host);
      if cached.Some? then (t, Returned(cached, due)) else (t, ChainLoad(s, host, slot, due))
    case ChainLoad(s, host, slot, due) =>
      if host == "" || !cfg.enabled(host) || cfg.load(host).None? then (t, Returned(None, due))
      else (t, ChainStore(s, host, slot, cfg.load(host).value, due))
    case ChainStore(s, host, slot, chain, due) => (Install(t, slot, host, chain), Returned(Some(chain), due))
  }

  ghost predicate Ready(t: Table, th: Thread) {
    th.BindStore? || th.ChainPick? || th.ChainLoad? || th.ChainStore? ==>
      match th.slot
      case Some(i) => i < |t.faces| && t.faces[i].ssl == th.s
      case None => forall i :: 0 <= i < |t.faces| ==> t.faces[i].ssl != 0 && t.faces[i].ssl != th.s
  }

  ghost predicate ThreadOk(cfg: Config, t: Table, th: Thread) {
    && Ready(t, th)
    && (th.BindNote? || th.BindFind? || th.BindStore? ==> th.s != 0 && th.name != "")
    && (th.ChainFind? || th.ChainPick? || th.ChainLoad? || th.ChainStore? ==> th.s != 0 && cfg.on)
    && (th.ChainLoad? ==> th.due == LoadFor(cfg, th.host))
    && (th.ChainStore? ==> LoadFor(cfg, th.host) == Some(th.loaded) == th.due)
    && (th.Returned? ==> th.answer == th.due)
  }

  ghost predicate WorldOk(cfg: Config, w: World) {
    TableOk(cfg, w.table) && forall tid :: tid in w.threads ==> ThreadOk(cfg, w.table, w.threads[tid])
  }

  function Do(cfg: Config, w: World, m: Move): World {
    match m
    case Start(tid, call) =>
      if tid in w.threads && w.threads[tid] != Idle then w
      else w.(threads := w.threads[tid := Begin(cfg, call)])
    case Go(tid) =>
      if tid !in w.threads || !SlotInRange(w.table, w.threads[tid]) then w
      else
        var r := Advance(cfg, w.table, w.threads[tid]);
        World(r.0, w.threads[tid := r.1])
  }

  /** The step of one thread keeps the table, evicts nothing and keeps its own promise. */
  lemma AdvanceKeeps(cfg: Config, t: Table, th: Thread)
    requires TableOk(cfg, t) && ThreadOk(cfg, t, th)
    ensures var r := Advance(cfg, t, th);
            TableOk(cfg, r.0) && NoEviction(t, r.0) && ThreadOk(cfg, r.0, r.1)
  {
    match th
    case Idle =>
    case Returned(_, _) =>
    case BindNote(s, name) =>
    case BindFind(s, name) => FaceKeepsTable(cfg, t, s);
    case BindStore(s, name, slot) => WritesKeepTable(cfg, t, slot, name, []);
    case ChainFind(s, sni) => FaceKeepsTable(cfg, t, s);
    case ChainPick(s, sni, slot) =>
      if slot.Some? { assert ChainIsOwn(cfg, t.faces[slot.value]); }
    case ChainLoad(s, host, slot, due) =>
    case ChainStore(s, host, slot, chain, due) => WritesKeepTable(cfg, t, slot, host, chain);
  }

  /** No eviction means that what a waiting thread knows about its slot stays true. */
  lemma OthersStayReady(cfg: Config, t: Table, t': Table, th: Thread)
    requires TableOk(cfg, t) && ThreadOk(cfg, t, th) && NoEviction(t, t')
    ensures ThreadOk(cfg, t', th)
  {
  }

  lemma StepKeepsWorld(cfg: Config, w: World, m: Move)
    requires WorldOk(cfg, w)
    ensures WorldOk(cfg, Do(cfg, w, m)) && NoEviction(w.table, Do(cfg, w, m).table)
  {
    match m
    case Start(tid, call) =>
    case Go(tid) =>
      if tid in w.threads {
        AdvanceKeeps(cfg, w.table, w.threads[tid]);
        var w' := Do(cfg, w, m);
        forall other | other in w'.threads ensures ThreadOk(cfg, w'.table, w'.threads[other]) {
          if other != tid {
            OthersStayReady(cfg, w.table, w'.table, w.threads[other]);
          }
        }
      }
  }

  ghost predicate IsRun(cfg: Config, worlds: seq<World>, moves: seq<Move>) {
    && |worlds| == |moves| + 1 && worlds[0] == World(Zeroed(), map[])
    && forall i :: 0 <= i < |moves| ==> worlds[i + 1] == Do(cfg, worlds[i], moves[i])
  }

  /** In every reachable state: occupied slots form a prefix, no two hold the same pointer, every
      cached chain is the chain of its slot's own host, and every answer given is the uncached one
      for the host picked under the lock. */
  lemma {:induction false} ReachableWorldsAreOk(cfg: Config, worlds: seq<World>, moves: seq<Move>, i: nat)
    requires IsRun(cfg, worlds, moves) && i < |worlds|
    ensures WorldOk(cfg, worlds[i])
  {
    if i > 0 {
      ReachableWorldsAreOk(cfg, worlds, moves, i - 1);
      StepKeepsWorld(cfg, worlds[i - 1], moves[i - 1]);
    }
  }

  /** Along a run no slot is ever taken from its SSL pointer. */
  lemma {:induction false} NothingIsEvicted(cfg: Config, worlds: seq<World>, moves: seq<Move>, i: nat, j: nat)
    requires IsRun(cfg, worlds, moves) && i <= j < |worlds|
    ensures NoEviction(worlds[i].table, worlds[j].table)
    decreases j
  {
    if i < j {
      NothingIsEvicted(cfg, worlds, moves, i, j - 1);
      ReachableWorldsAreOk(cfg, worlds, moves, j - 1);
      StepKeepsWorld(cfg, worlds[j - 1], moves[j - 1]);
    }
  }

  /** An answer under interleaving: the thread that picks its host in state w will return what an
      uncached lookup in that very state returns, whatever other threads do until then. */
  lemma PickedAnswerIsUncached(cfg: Config, w: World, m: Memory, tid: Tid)
    requires WorldOk(cfg, w) && Means(w.table, m)
    requires tid in w.threads && w.threads[tid].ChainPick?
    ensures var th, th' := w.threads[tid], Do(cfg, w, Go(tid)).threads[tid];
            && (th'.Returned? || th'.ChainLoad?)
            && th'.due == RefLoad(cfg, m, th.s, th.sni).chain
  {
    var th := w.threads[tid];
    assert ThreadOk(cfg, w.table, th);
    if th.s in m.names {
      var i :| 0 <= i < |w.table.faces| && w.table.faces[i].ssl == th.s;
      assert th.slot.Some? && i == th.slot.value;
    }
    PickRefines(cfg, w.table, m, th.slot, th.s, th.sni);
  }
}
