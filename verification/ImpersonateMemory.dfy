/** What interleaved threads do to the names that the table remembers.  A run of the threads is a run of
    a machine that remembers names only: no slots, no chains.  A lookup writes its host back after its
    load.  That is a write at its pick unless another name was written for the pointer in between, by a
    bind or by a lookup; then a lookup without server name fits into no place between the other steps,
    and one with a server name still fits in where it writes. */
module ImpersonateMemory {
  import opened Prelude
  import opened Impersonate
  import opened ImpersonateRuns

  /** What a step does to the memory: note a name, make room for a pointer, name a pointer. */
  datatype Event = Nothing | Noted(name: string) | Seen(s: Ssl) | Named(s: Ssl, host: string)

  function Change(m: Memory, e: Event): Memory {
    match e
    case Nothing => m
    case Noted(name) => m.(last := name)
    case Seen(s) => Remember(m, s)
    case Named(s, host) => Rename(m, s, host)
  }

  function ChangeAll(m: Memory, es: seq<Event>): Memory {
    if es == [] then m else Change(ChangeAll(m, es[..|es| - 1]), es[|es| - 1])
  }

  function EventOfThread(th: Thread): Event {
    match th
    case BindNote(_, name) => Noted(name)
    case BindFind(s, _) => Seen(s)
    case BindStore(s, name, _) => Named(s, name)
    case ChainFind(s, _) => Seen(s)
    case ChainStore(s, host, _, _, _) => Named(s, host)
    case _ => Nothing
  }

  function EventOf(w: World, m: Move): Event {
    if m.Go? && m.tid in w.threads then EventOfThread(w.threads[m.tid]) else Nothing
  }

  /** The events of a run from move i up to move j. */
  function Events(worlds: seq<World>, moves: seq<Move>, i: nat, j: nat): seq<Event>
    requires i <= j <= |moves| && |worlds| == |moves| + 1
  {
    seq(j - i, k requires 0 <= k < j - i => EventOf(worlds[i + k], moves[i + k]))
  }

  const NO_MEMORY: Memory := Memory(map[], "")

  function MemoryAt(worlds: seq<World>, moves: seq<Move>, i: nat): Memory
    requires i <= |moves| && |worlds| == |moves| + 1
  {
    ChangeAll(NO_MEMORY, Events(worlds, moves, 0, i))
  }

  // ---- the runs refine the memory ----

  lemma KnowsSlot(t: Table, m: Memory, th: Thread)
    requires Means(t, m) && Ready(t, th) &&
             (th.BindStore? || th.ChainPick? || th.ChainStore? || th.ChainLoad?) && th.s != 0
    ensures th.slot.Some? <==> th.s in m.names
  {
    if th.s in m.names {
      var i :| 0 <= i < |t.faces| && t.faces[i].ssl == th.s;
    }
  }

  lemma FindMeans(cfg: Config, t: Table, th: Thread, m: Memory)
    requires TableOk(cfg, t) && ThreadOk(cfg, t, th) && Means(t, m) && (th.BindFind? || th.ChainFind?)
    ensures Means(Advance(cfg, t, th).0, Change(m, EventOfThread(th)))
  {
    FaceMeansRemember(cfg, t, m, th.s);
  }

  lemma BindStoreMeans(cfg: Config, t: Table, th: Thread, m: Memory)
    requires TableOk(cfg, t) && ThreadOk(cfg, t, th) && Means(t, m) && th.BindStore?
    ensures Means(Advance(cfg, t, th).0, Change(m, EventOfThread(th)))
  {
    KnowsSlot(t, m, th);
    WriteMeansRename(cfg, t, m, th.slot, th.s, Face(th.s, th.name, None));
  }

  lemma ChainStoreMeans(cfg: Config, t: Table, th: Thread, m: Memory)
    requires TableOk(cfg, t) && ThreadOk(cfg, t, th) && Means(t, m) && th.ChainStore?
    ensures Means(Advance(cfg, t, th).0, Change(m, EventOfThread(th)))
  {
    KnowsSlot(t, m, th);
    WriteMeansRename(cfg, t, m, th.slot, th.s, Face(th.s, th.host, Some(th.loaded)));
  }

  lemma AdvanceMeans(cfg: Config, t: Table, th: Thread, m: Memory)
    requires TableOk(cfg, t) && ThreadOk(cfg, t, th) && Means(t, m)
    ensures Means(Advance(cfg, t, th).0, Change(m, EventOfThread(th)))
  {
    match th
    case BindFind(_, _) => FindMeans(cfg, t, th, m);
    case ChainFind(_, _) => FindMeans(cfg, t, th, m);
    case BindStore(_, _, _) => BindStoreMeans(cfg, t, th, m);
    case ChainStore(_, _, _, _, _) => ChainStoreMeans(cfg, t, th, m);
    case _ =>
  }

  lemma StepMeans(cfg: Config, w: World, mv: Move, m: Memory)
    requires WorldOk(cfg, w) && Means(w.table, m)
    ensures Means(Do(cfg, w, mv).table, Change(m, EventOf(w, mv)))
  {
    if mv.Go? && mv.tid in w.threads {
      assert ThreadOk(cfg, w.table, w.threads[mv.tid]);
      AdvanceMeans(cfg, w.table, w.threads[mv.tid], m);
    }
  }

  lemma EventsSnoc(worlds: seq<World>, moves: seq<Move>, i: nat, j: nat)
    requires i < j <= |moves| && |worlds| == |moves| + 1
    ensures Events(worlds, moves, i, j) == Events(worlds, moves, i, j - 1) + [EventOf(worlds[j - 1], moves[j - 1])]
  {
  }

  lemma ChangeSnoc(m: Memory, es: seq<Event>, e: Event)
    ensures ChangeAll(m, es + [e]) == Change(ChangeAll(m, es), e)
  {
    assert (es + [e])[..|es|] == es;
  }

  lemma OneEvent(worlds: seq<World>, moves: seq<Move>, i: nat)
    requires i < |moves| && |worlds| == |moves| + 1
    ensures MemoryAt(worlds, moves, i + 1) == Change(MemoryAt(worlds, moves, i), EventOf(worlds[i], moves[i]))
  {
    EventsSnoc(worlds, moves, 0, i + 1);
    ChangeSnoc(NO_MEMORY, Events(worlds, moves, 0, i), EventOf(worlds[i], moves[i]));
  }

  /** In every reachable state the table means the memory that the steps so far have made. */
  lemma {:induction false} RunMeansMemory(cfg: Config, worlds: seq<World>, moves: seq<Move>, i: nat)
    requires IsRun(cfg, worlds, moves) && i < |worlds|
    ensures Means(worlds[i].table, MemoryAt(worlds, moves, i))
  {
    if i > 0 {
      RunMeansMemory(cfg, worlds, moves, i - 1);
      ReachableWorldsAreOk(cfg, worlds, moves, i - 1);
      StepMeans(cfg, worlds[i - 1], moves[i - 1], MemoryAt(worlds, moves, i - 1));
      OneEvent(worlds, moves, i - 1);
    }
  }

  /** The answer of a thread is fixed when it picks its host: it is the uncached answer on the names that
      the steps up to then have made, whatever happens before the thread returns. */
  lemma AnswerFollowsTheNames(cfg: Config, worlds: seq<World>, moves: seq<Move>, p: nat, tid: Tid)
    requires IsRun(cfg, worlds, moves) && p < |moves| && moves[p] == Go(tid)
    requires tid in worlds[p].threads && worlds[p].threads[tid].ChainPick?
    ensures var m, th, th' := MemoryAt(worlds, moves, p), worlds[p].threads[tid], worlds[p + 1].threads[tid];
            && (th'.Returned? || th'.ChainLoad?)
            && th'.due == RefLoad(cfg, m, th.s, th.sni).chain
            && (th'.ChainLoad? ==> th'.s == th.s && th'.host == HostFor(m, th.s, th.sni) && th'.slot == th.slot)
  {
    RunMeansMemory(cfg, worlds, moves, p);
    ReachableWorldsAreOk(cfg, worlds, moves, p);
    var w, m := worlds[p], MemoryAt(worlds, moves, p);
    var th := w.threads[tid];
    PickedAnswerIsUncached(cfg, w, m, tid);
    assert ThreadOk(cfg, w.table, th);
    KnowsSlot(w.table, m, th);
    PickRefines(cfg, w.table, m, th.slot, th.s, th.sni);
  }

  // ---- the name of a pointer ----

  function LastName(es: seq<Event>, s: Ssl): Option<string> {
    if es == [] then None
    else if es[|es| - 1].Named? && es[|es| - 1].s == s then Some(es[|es| - 1].host)
    else LastName(es[..|es| - 1], s)
  }

  /** A remembered pointer has the last name it was given; one that was named but is not remembered
      found the table full. */
  ghost predicate NamesFollow(m: Memory, es: seq<Event>) {
    forall s :: LastName(es, s).Some? ==>
      if s in m.names then m.names[s] == LastName(es, s).value else |m.names| >= MAX_SSL
  }

  lemma ChangeFollows(m: Memory, es: seq<Event>, e: Event)
    requires NamesFollow(m, es)
    requires e.Named? && e.s !in m.names ==> |m.names| >= MAX_SSL
    ensures NamesFollow(Change(m, e), es + [e])
  {
    assert (es + [e])[..|es|] == es;
    forall s ensures LastName(es + [e], s) == if e.Named? && e.s == s then Some(e.host) else LastName(es, s) {
    }
  }

  lemma NamerIsKnown(cfg: Config, w: World, mv: Move, m: Memory)
    requires WorldOk(cfg, w) && Means(w.table, m)
    ensures var e := EventOf(w, mv); e.Named? && e.s !in m.names ==> |m.names| >= MAX_SSL
  {
    var e := EventOf(w, mv);
    if e.Named? {
      var th := w.threads[mv.tid];
      assert ThreadOk(cfg, w.table, th);
      KnowsSlot(w.table, m, th);
      FullMeansFull(cfg, w.table, m);
    }
  }

  /** In every reachable state each remembered pointer has the name that was last written for it, by a
      bind or by a lookup. */
  lemma {:induction false} LastNameWins(cfg: Config, worlds: seq<World>, moves: seq<Move>, i: nat)
    requires IsRun(cfg, worlds, moves) && i < |worlds|
    ensures NamesFollow(MemoryAt(worlds, moves, i), Events(worlds, moves, 0, i))
  {
    if i > 0 {
      LastNameWins(cfg, worlds, moves, i - 1);
      RunMeansMemory(cfg, worlds, moves, i - 1);
      ReachableWorldsAreOk(cfg, worlds, moves, i - 1);
      var e := EventOf(worlds[i - 1], moves[i - 1]);
      NamerIsKnown(cfg, worlds[i - 1], moves[i - 1], MemoryAt(worlds, moves, i - 1));
      OneEvent(worlds, moves, i - 1);
      EventsSnoc(worlds, moves, 0, i);
      ChangeFollows(MemoryAt(worlds, moves, i - 1), Events(worlds, moves, 0, i - 1), e);
    }
  }

  // ---- lost binds ----

  function NameAfter(es: seq<Event>, s: Ssl, host: string): string {
    if LastName(es, s).Some? then LastName(es, s).value else host
  }

  lemma ChangeCommutes(m: Memory, e: Event, s: Ssl, v: string)
    requires s in m.names
    ensures s in Change(m, e).names
    ensures Change(Rename(m, s, v), e) == Rename(Change(m, e), s, if e.Named? && e.s == s then e.host else v)
  {
    if e.Named? && e.s != s && e.s in m.names {
      assert m.names[s := v][e.s := e.host] == m.names[e.s := e.host][s := v];
    } else if e.Seen? && e.s !in m.names {
      assert |m.names[s := v].Keys| == |m.names.Keys|;
      assert m.names[s := v][e.s := m.last] == m.names[e.s := m.last][s := v];
    } else if e.Named? && e.s == s {
      assert m.names[s := v][s := e.host] == m.names[s := e.host][s := e.host];
    }
  }

  /** Naming a pointer first, and then changing the memory. */
  lemma {:induction false} RenameFirst(m: Memory, es: seq<Event>, s: Ssl, host: string)
    requires s in m.names
    ensures s in ChangeAll(m, es).names
    ensures ChangeAll(Rename(m, s, host), es) == Rename(ChangeAll(m, es), s, NameAfter(es, s, host))
  {
    if es != [] {
      var n := |es| - 1;
      RenameFirst(m, es[..n], s, host);
      ChangeCommutes(ChangeAll(m, es[..n]), es[n], s, NameAfter(es[..n], s, host));
    }
  }

  /** Naming it last is the same exactly when it got no other name in between. */
  lemma RenameCommutesExactly(m: Memory, es: seq<Event>, s: Ssl, host: string)
    requires s in m.names
    ensures Rename(ChangeAll(m, es), s, host) == ChangeAll(Rename(m, s, host), es) <==>
            LastName(es, s) in {None, Some(host)}
  {
    RenameFirst(m, es, s, host);
    var f := ChangeAll(m, es);
    assert Rename(f, s, host).names[s] == host;
    assert Rename(f, s, NameAfter(es, s, host)).names[s] == NameAfter(es, s, host);
  }

  /** From world p + 1 to world q thread tid is inside the call that picked its host at move p. */
  ghost predicate SameCall(worlds: seq<World>, tid: Tid, p: nat, q: nat) {
    && q < |worlds|
    && forall i :: p < i <= q ==>
      tid in worlds[i].threads && (worlds[i].threads[tid].ChainLoad? || worlds[i].threads[tid].ChainStore?)
  }

  lemma OthersLeaveThread(cfg: Config, w: World, m: Move, tid: Tid)
    requires WorldOk(cfg, w) && tid in w.threads && (w.threads[tid].ChainLoad? || w.threads[tid].ChainStore?)
    requires tid in Do(cfg, w, m).threads
    ensures var th, th' := w.threads[tid], Do(cfg, w, m).threads[tid];
            th'.ChainLoad? || th'.ChainStore? ==> th'.s == th.s && th'.host == th.host && th'.slot == th.slot
  {
    assert ThreadOk(cfg, w.table, w.threads[tid]);
  }

  lemma {:induction false} CallKeepsHost(cfg: Config, worlds: seq<World>, moves: seq<Move>, tid: Tid, p: nat, q: nat)
    requires IsRun(cfg, worlds, moves) && p < q && SameCall(worlds, tid, p, q)
    ensures var th, th' := worlds[p + 1].threads[tid], worlds[q].threads[tid];
            th'.s == th.s && th'.host == th.host && th'.slot == th.slot
    decreases q
  {
    if q > p + 1 {
      CallKeepsHost(cfg, worlds, moves, tid, p, q - 1);
      ReachableWorldsAreOk(cfg, worlds, moves, q - 1);
      OthersLeaveThread(cfg, worlds[q - 1], moves[q - 1], tid);
    }
  }

  lemma {:induction false} MemoryFrom(worlds: seq<World>, moves: seq<Move>, p: nat, q: nat)
    requires p <= q <= |moves| && |worlds| == |moves| + 1
    ensures MemoryAt(worlds, moves, q) == ChangeAll(MemoryAt(worlds, moves, p), Events(worlds, moves, p, q))
    decreases q
  {
    if q > p {
      MemoryFrom(worlds, moves, p, q - 1);
      OneEvent(worlds, moves, q - 1);
      EventsSnoc(worlds, moves, p, q);
      var e := EventOf(worlds[q - 1], moves[q - 1]);
      ChangeSnoc(MemoryAt(worlds, moves, p), Events(worlds, moves, p, q - 1), e);
    }
  }

  /** A lookup that picks its host at move p and writes it back at move q. */
  ghost predicate PicksAndStores(cfg: Config, worlds: seq<World>, moves: seq<Move>, tid: Tid, p: nat, q: nat) {
    && IsRun(cfg, worlds, moves) && p < q < |moves|
    && moves[p] == Go(tid) && tid in worlds[p].threads && worlds[p].threads[tid].ChainPick?
    && SameCall(worlds, tid, p, q)
    && moves[q] == Go(tid) && worlds[q].threads[tid].ChainStore?
  }

  lemma StoreRenames(cfg: Config, worlds: seq<World>, moves: seq<Move>, tid: Tid, p: nat, q: nat)
    requires PicksAndStores(cfg, worlds, moves, tid, p, q)
    ensures var th := worlds[p].threads[tid];
            var m, mid := MemoryAt(worlds, moves, p), Events(worlds, moves, p + 1, q);
            var host := HostFor(m, th.s, th.sni);
            && MemoryAt(worlds, moves, p + 1) == m
            && MemoryAt(worlds, moves, q + 1) == Rename(ChangeAll(m, mid), th.s, host)
            && (th.s in m.names <==> th.s in ChangeAll(m, mid).names)
  {
    var th, th' := worlds[p].threads[tid], worlds[q].threads[tid];
    AnswerFollowsTheNames(cfg, worlds, moves, p, tid);
    CallKeepsHost(cfg, worlds, moves, tid, p, q);
    OneEvent(worlds, moves, p);
    MemoryFrom(worlds, moves, p + 1, q);
    OneEvent(worlds, moves, q);
    SlotsKnown(cfg, worlds, moves, tid, p, q);
  }

  lemma SlotsKnown(cfg: Config, worlds: seq<World>, moves: seq<Move>, tid: Tid, p: nat, q: nat)
    requires PicksAndStores(cfg, worlds, moves, tid, p, q)
    requires worlds[p].threads[tid].slot == worlds[q].threads[tid].slot &&
             worlds[p].threads[tid].s == worlds[q].threads[tid].s
    ensures worlds[p].threads[tid].s in MemoryAt(worlds, moves, p).names <==>
            worlds[p].threads[tid].s in MemoryAt(worlds, moves, q).names
  {
    ReachableWorldsAreOk(cfg, worlds, moves, p);
    ReachableWorldsAreOk(cfg, worlds, moves, q);
    RunMeansMemory(cfg, worlds, moves, p);
    RunMeansMemory(cfg, worlds, moves, q);
    KnowsSlot(worlds[p].table, MemoryAt(worlds, moves, p), worlds[p].threads[tid]);
    KnowsSlot(worlds[q].table, MemoryAt(worlds, moves, q), worlds[q].threads[tid]);
  }

  /** A lookup's late write leaves the memory that a write at its pick would have left, if and only if the
      table had no room for the pointer, or it got no other name between the pick and the write. */
  lemma LateWriteIsAtomicExactlyWhenAlone(cfg: Config, worlds: seq<World>, moves: seq<Move>, tid: Tid, p: nat, q: nat)
    requires PicksAndStores(cfg, worlds, moves, tid, p, q)
    ensures var th := worlds[p].threads[tid];
            var m, mid := MemoryAt(worlds, moves, p), Events(worlds, moves, p + 1, q);
            var host := HostFor(m, th.s, th.sni);
            MemoryAt(worlds, moves, q + 1) == ChangeAll(Rename(m, th.s, host), mid) <==>
            th.s !in m.names || LastName(mid, th.s) in {None, Some(host)}
  {
    StoreRenames(cfg, worlds, moves, tid, p, q);
    var th := worlds[p].threads[tid];
    var m := MemoryAt(worlds, moves, p);
    if th.s in m.names {
      RenameCommutesExactly(m, Events(worlds, moves, p + 1, q), th.s, HostFor(m, th.s, th.sni));
    }
  }

  // ---- a lookup as one step ----

  /** The memory and the answer, if the whole lookup happened at once between the events before and after. */
  function Placed(cfg: Config, m: Memory, before: seq<Event>, after: seq<Event>, s: Ssl, sni: string): RefAnswer {
    var r := RefLoad(cfg, ChangeAll(m, before), s, sni);
    RefAnswer(ChangeAll(r.memory, after), r.chain)
  }

  /** Some place between its pick and its write makes the lookup one step: same memory, same answer. */
  ghost predicate ActsAtOnce(cfg: Config, worlds: seq<World>, moves: seq<Move>, tid: Tid, p: nat, q: nat)
    requires PicksAndStores(cfg, worlds, moves, tid, p, q)
  {
    var th := worlds[p].threads[tid];
    var m, mid := MemoryAt(worlds, moves, p), Events(worlds, moves, p + 1, q);
    exists k :: 0 <= k <= |mid|
      && Placed(cfg, m, mid[..k], mid[k..], th.s, th.sni)
         == RefAnswer(MemoryAt(worlds, moves, q + 1), Some(worlds[q].threads[tid].loaded))
  }

  ghost predicate NoEmptyName(es: seq<Event>) {
    forall i :: 0 <= i < |es| && es[i].Named? ==> es[i].host != ""
  }

  lemma RunGivesNames(cfg: Config, worlds: seq<World>, moves: seq<Move>, i: nat, j: nat)
    requires IsRun(cfg, worlds, moves) && i <= j <= |moves|
    ensures NoEmptyName(Events(worlds, moves, i, j))
  {
    var es := Events(worlds, moves, i, j);
    forall k | 0 <= k < |es| && es[k].Named? ensures es[k].host != "" {
      ReachableWorldsAreOk(cfg, worlds, moves, i + k);
      NamerHasName(cfg, worlds[i + k], moves[i + k]);
    }
  }

  lemma NamerHasName(cfg: Config, w: World, m: Move)
    requires WorldOk(cfg, w)
    ensures EventOf(w, m).Named? ==> EventOf(w, m).host != ""
  {
    if EventOf(w, m).Named? {
      assert ThreadOk(cfg, w.table, w.threads[m.tid]);
    }
  }

  lemma {:induction false} LastNameIsName(es: seq<Event>, s: Ssl)
    requires NoEmptyName(es) && LastName(es, s).Some?
    ensures LastName(es, s).value != ""
  {
    var n := |es| - 1;
    if !(es[n].Named? && es[n].s == s) {
      LastNameIsName(es[..n], s);
    }
  }

  lemma {:induction false} LastNameSplit(a: seq<Event>, b: seq<Event>, s: Ssl)
    ensures LastName(a + b, s) == if LastName(b, s).Some? then LastName(b, s) else LastName(a, s)
  {
    if b == [] {
      assert a + b == a;
    } else {
      var n := |b| - 1;
      assert (a + b)[..|a| + n] == a + b[..n];
      LastNameSplit(a, b[..n], s);
    }
  }

  /** The name of a remembered pointer after some events. */
  lemma {:induction false} NameOf(m: Memory, es: seq<Event>, s: Ssl)
    requires s in m.names
    ensures s in ChangeAll(m, es).names && ChangeAll(m, es).names[s] == NameAfter(es, s, m.names[s])
  {
    if es != [] {
      NameOf(m, es[..|es| - 1], s);
    }
  }

  /** Wherever a lookup without server name is placed, the pointer does not end with the picked host if
      another name came in between. */
  lemma PlacedElsewhere(cfg: Config, m: Memory, mid: seq<Event>, k: nat, s: Ssl, host: string)
    requires s in m.names && k <= |mid| && NoEmptyName(mid)
    requires LastName(mid, s).Some? && LastName(mid, s).value != host
    ensures var r := Placed(cfg, m, mid[..k], mid[k..], s, "");
            s in r.memory.names && r.memory.names[s] != host
  {
    assert mid == mid[..k] + mid[k..];
    LastNameSplit(mid[..k], mid[k..], s);
    LastNameIsName(mid, s);
    NameOf(m, mid[..k], s);
    NameOf(RefLoad(cfg, ChangeAll(m, mid[..k]), s, "").memory, mid[k..], s);
  }

  lemma LoadedIsDue(cfg: Config, worlds: seq<World>, moves: seq<Move>, tid: Tid, p: nat, q: nat)
    requires PicksAndStores(cfg, worlds, moves, tid, p, q)
    ensures var th := worlds[p].threads[tid];
            var host := HostFor(MemoryAt(worlds, moves, p), th.s, th.sni);
            LoadFor(cfg, host) == Some(worlds[q].threads[tid].loaded)
  {
    AnswerFollowsTheNames(cfg, worlds, moves, p, tid);
    CallKeepsHost(cfg, worlds, moves, tid, p, q);
    ReachableWorldsAreOk(cfg, worlds, moves, q);
    assert ThreadOk(cfg, worlds[q].table, worlds[q].threads[tid]);
  }

  /** A lookup without server name acts at once if and only if its pointer found no room, or got no other
      name between the pick and the write. */
  lemma LookupActsAtOnceExactlyWhenAlone(cfg: Config, worlds: seq<World>, moves: seq<Move>, tid: Tid, p: nat, q: nat)
    requires PicksAndStores(cfg, worlds, moves, tid, p, q) && worlds[p].threads[tid].sni == ""
    ensures var th := worlds[p].threads[tid];
            var m, mid := MemoryAt(worlds, moves, p), Events(worlds, moves, p + 1, q);
            ActsAtOnce(cfg, worlds, moves, tid, p, q) <==>
            th.s !in m.names || LastName(mid, th.s) in {None, Some(HostFor(m, th.s, ""))}
  {
    var th := worlds[p].threads[tid];
    var m, mid := MemoryAt(worlds, moves, p), Events(worlds, moves, p + 1, q);
    var host := HostFor(m, th.s, "");
    LoadedIsDue(cfg, worlds, moves, tid, p, q);
    LateWriteIsAtomicExactlyWhenAlone(cfg, worlds, moves, tid, p, q);
    if th.s !in m.names || LastName(mid, th.s) in {None, Some(host)} {
      assert mid[..0] == [] && mid[0..] == mid;
      assert Placed(cfg, m, mid[..0], mid[0..], th.s, "").memory == MemoryAt(worlds, moves, q + 1);
    } else {
      RunGivesNames(cfg, worlds, moves, p + 1, q);
      StoreRenames(cfg, worlds, moves, tid, p, q);
      forall k | 0 <= k <= |mid|
        ensures Placed(cfg, m, mid[..k], mid[k..], th.s, "").memory != MemoryAt(worlds, moves, q + 1) {
        PlacedElsewhere(cfg, m, mid, k, th.s, host);
      }
    }
  }

  /** A lookup with a server name acts at once where it writes, whatever happened in between. */
  lemma SniLookupActsAtOnce(cfg: Config, worlds: seq<World>, moves: seq<Move>, tid: Tid, p: nat, q: nat)
    requires PicksAndStores(cfg, worlds, moves, tid, p, q) && worlds[p].threads[tid].sni != ""
    ensures ActsAtOnce(cfg, worlds, moves, tid, p, q)
  {
    var th := worlds[p].threads[tid];
    var m, mid := MemoryAt(worlds, moves, p), Events(worlds, moves, p + 1, q);
    LoadedIsDue(cfg, worlds, moves, tid, p, q);
    StoreRenames(cfg, worlds, moves, tid, p, q);
    var k := |mid|;
    assert mid[..k] == mid && mid[k..] == [];
    assert Placed(cfg, m, mid[..k], mid[k..], th.s, th.sni).memory == MemoryAt(worlds, moves, q + 1);
  }

  // ---- a lost bind ----

  /** Everything is switched on, and the chain of a host is its name. */
  const OPEN: Config := Config(true, _ => true, h => Some([h]))

  /** A table whose first slot is taken by pointer 5. */
  function Slot(host: string, chain: Option<Chain>, last: string): Table {
    Table(Zeroed().faces[0 := Face(5, host, chain)], last)
  }

  lemma FaceOfSlot(host: string, chain: Option<Chain>, last: string)
    ensures FaceOf(Slot(host, chain, last), 5) == Found(Slot(host, chain, last), Some(0))
  {
    assert FindSlot(Slot(host, chain, last).faces, 5, 0).Some?;
  }

  lemma FirstFace(last: string)
    ensures FaceOf(Zeroed().(last := last), 5) == Found(Slot(last, None, last), Some(0))
  {
    var faces := Zeroed().faces;
    assert faces[0].ssl == 0;
    assert FindSlot(faces, 5, 0).None?;
    assert FindSlot(faces, 0, 0) == Some(0);
  }

  function LostMoves(): seq<Move> {
    [Start(1, Bind(5, "z")), Go(1), Go(1), Go(1),
     Start(2, Lookup(5, "")), Go(2), Go(2),
     Start(1, Bind(5, "y")), Go(1), Go(1), Go(1),
     Go(2), Go(2)]
  }

  /** Pointer 5 is bound to z; a lookup picks z; the pointer is bound to y; the lookup loads and writes. */
  function LostWorlds(): seq<World> {
    var z, load := Slot("z", None, "z"), ChainLoad(5, "z", Some(0), Some(["z"]));
    [World(Zeroed(), map[]),
     World(Zeroed(), map[1 := BindNote(5, "z")]),
     World(Zeroed().(last := "z"), map[1 := BindFind(5, "z")]),
     World(z, map[1 := BindStore(5, "z", Some(0))]),
     World(z, map[1 := Idle]),
     World(z, map[1 := Idle, 2 := ChainFind(5, "")]),
     World(z, map[1 := Idle, 2 := ChainPick(5, "", Some(0))]),
     World(z, map[1 := Idle, 2 := load]),
     World(z, map[1 := BindNote(5, "y"), 2 := load]),
     World(Slot("z", None, "y"), map[1 := BindFind(5, "y"), 2 := load]),
     World(Slot("z", None, "y"), map[1 := BindStore(5, "y", Some(0)), 2 := load]),
     World(Slot("y", None, "y"), map[1 := Idle, 2 := load]),
     World(Slot("y", None, "y"), map[1 := Idle, 2 := ChainStore(5, "z", Some(0), ["z"], Some(["z"]))]),
     World(Slot("z", Some(["z"]), "y"), map[1 := Idle, 2 := Returned(Some(["z"]), Some(["z"]))])]
  }

  lemma FirstBindStarts(ws: seq<World>, ms: seq<Move>)
    requires ws == LostWorlds() && ms == LostMoves()
    ensures forall i :: 0 <= i < 2 ==> ws[i + 1] == Do(OPEN, ws[i], ms[i])
  {
    assert ws[1] == Do(OPEN, ws[0], ms[0]);
    assert ws[2] == Do(OPEN, ws[1], ms[1]);
  }

  lemma FirstBindEnds(ws: seq<World>, ms: seq<Move>)
    requires ws == LostWorlds() && ms == LostMoves()
    ensures forall i :: 2 <= i < 4 ==> ws[i + 1] == Do(OPEN, ws[i], ms[i])
  {
    FirstFace("z");
    assert ws[3] == Do(OPEN, ws[2], ms[2]);
    assert ws[4] == Do(OPEN, ws[3], ms[3]);
  }

  lemma LookupPicks(ws: seq<World>, ms: seq<Move>)
    requires ws == LostWorlds() && ms == LostMoves()
    ensures forall i :: 4 <= i < 7 ==> ws[i + 1] == Do(OPEN, ws[i], ms[i])
  {
    FaceOfSlot("z", None, "z");
    assert ws[5] == Do(OPEN, ws[4], ms[4]);
    assert ws[6] == Do(OPEN, ws[5], ms[5]);
    assert ws[7] == Do(OPEN, ws[6], ms[6]);
  }

  lemma SecondBindRuns(ws: seq<World>, ms: seq<Move>)
    requires ws == LostWorlds() && ms == LostMoves()
    ensures forall i :: 7 <= i < 11 ==> ws[i + 1] == Do(OPEN, ws[i], ms[i])
  {
    FaceOfSlot("z", None, "y");
    assert ws[8] == Do(OPEN, ws[7], ms[7]);
    assert ws[9] == Do(OPEN, ws[8], ms[8]);
    assert ws[10] == Do(OPEN, ws[9], ms[9]);
    assert ws[11] == Do(OPEN, ws[10], ms[10]);
  }

  lemma LookupWrites(ws: seq<World>, ms: seq<Move>)
    requires ws == LostWorlds() && ms == LostMoves()
    ensures forall i :: 11 <= i < 13 ==> ws[i + 1] == Do(OPEN, ws[i], ms[i])
  {
    assert ws[12] == Do(OPEN, ws[11], ms[11]);
    assert ws[13] == Do(OPEN, ws[12], ms[12]);
  }

  /** A run that loses a bind: its last write puts pointer 5 back to z, although the bind to y was complete. */
  lemma LostBindExists()
    ensures PicksAndStores(OPEN, LostWorlds(), LostMoves(), 2, 6, 12)
    ensures LostWorlds()[11].table.faces[0].host == "y" && LostWorlds()[13].table.faces[0].host == "z"
  {
    var ws, ms := LostWorlds(), LostMoves();
    FirstBindStarts(ws, ms);
    FirstBindEnds(ws, ms);
    LookupPicks(ws, ms);
    SecondBindRuns(ws, ms);
    LookupWrites(ws, ms);
    forall i | 0 <= i < 13 ensures ws[i + 1] == Do(OPEN, ws[i], ms[i]) {
    }
  }

  /** No order of the three calls, one after the other and the first bind first, ends with that name. */
  lemma NoOrderLosesIt()
    ensures RunMemory(OPEN, [Bind(5, "z"), Lookup(5, ""), Bind(5, "y")]).memory.names == map[5 := "y"]
    ensures RunMemory(OPEN, [Bind(5, "z"), Bind(5, "y"), Lookup(5, "")]).memory.names == map[5 := "y"]
  {
    var b, l, y := Bind(5, "z"), Lookup(5, ""), Bind(5, "y");
    assert [b, l, y][..2] == [b, l] && [b, y, l][..2] == [b, y];
    assert [b, l][..1] == [b] && [b, y][..1] == [b] && [b][..0] == [];
    assert RunMemory(OPEN, [b]).memory == Memory(map[5 := "z"], "z");
    assert RunMemory(OPEN, [b, l]).memory == Memory(map[5 := "z"], "z");
    assert RunMemory(OPEN, [b, y]).memory == Memory(map[5 := "y"], "y");
  }
}
