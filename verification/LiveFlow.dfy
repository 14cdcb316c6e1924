/** The live-flow protocol of app.go, hub.go, registry.go and ws.go under every interleaving.  One step
    is one lock region, or some bytes of one socket write. */
module LiveFlow {
  import opened Prelude
  import opened Registry
  import opened WsCodec

  type Cid = nat
  type Pid = nat

  datatype Msg = Live(flow: Flow) | Snapshot(flows: seq<Flow>)

  /** json.Marshal of the two message kinds. */
  datatype Json = Json(live: Flow -> seq<byte>, snapshot: seq<Flow> -> seq<byte>)

  function Payload(js: Json, m: Msg): seq<byte> {
    match m
    case Live(f) => js.live(f)
    case Snapshot(fs) => js.snapshot(fs)
  }

  function FrameFor(js: Json, m: Msg): seq<byte> { ServerFrame(1, Payload(js, m)) }

  /** Who holds a client's write lock, what it is writing, and how many bytes of it are out. */
  datatype Writer = Nobody | Publisher(msg: Msg, count: nat) | Handler(msg: Msg, count: nat)

  /** Where handleWS stands: registered, collecting the snapshot, sending it, reading, removed. */
  datatype Phase = Joined | Collecting | SendingSnapshot | Streaming | Gone

  /** `joined`, `joinedHist`, `left`, `domainsAt` and `readAt` record when things happened, as lengths
      of the publish order and of the registry history. */
  datatype Client = Client(phase: Phase, writer: Writer, written: seq<byte>, sent: seq<Msg>,
                           domains: seq<string>, acc: seq<Flow>,
                           joined: nat, joinedHist: nat, left: nat, domainsAt: nat, readAt: seq<nat>)

  /** A flow between AddFlow and Publish, or published: with the position of its AddFlow. */
  datatype Publication = Publication(flow: Flow, at: nat)

  /** The Publish call that holds hub.mu: clients not served yet, and the one being served. */
  datatype HubLock = Unlocked | Publishing(todo: set<Cid>, serving: Option<Cid>)

  datatype World = World(reg: RegState, hist: seq<Event>, pending: map<Pid, Publication>,
                         published: seq<Publication>, hub: set<Cid>, mu: HubLock, clients: map<Cid, Client>)

  datatype Move =
    | Other(e: Event)                       // any registry call but AddFlow
    | Record(p: Pid, f: Flow)               // OnFlow: AddFlow
    | BeginPublish(p: Pid)                  // OnFlow: Publish takes hub.mu
    | BeginLive(c: Cid)                     // Publish: send takes c.wmu
    | WriteSome(c: Cid, k: nat)             // k more bytes reach the connection
    | EndWrite(c: Cid)                      // send releases c.wmu
    | EndPublish                            // Publish releases hub.mu
    | Join(c: Cid)                          // handleWS: hub.add
    | ListDomains(c: Cid, order: seq<string>)
    | ReadFlows(c: Cid)                     // one reg.Flows call
    | BeginSnapshot(c: Cid)                 // send takes c.wmu
    | Leave(c: Cid)                         // hub.remove

  function Init(): World {
    World(Replay([]), [], map[], [], {}, Unlocked, map[])
  }

  ghost predicate Enabled(js: Json, w: World, m: Move) {
    match m
    case Other(e) => !e.AddFlow?
    case Record(p, f) => p !in w.pending
    case BeginPublish(p) => p in w.pending && w.mu.Unlocked?
    case BeginLive(c) => w.mu.Publishing? && w.mu.serving.None? && c in w.mu.todo && c in w.clients
                         && w.clients[c].writer.Nobody? && w.published != []
    case WriteSome(c, k) => c in w.clients && !w.clients[c].writer.Nobody?
                            && w.clients[c].writer.count + k <= |FrameFor(js, w.clients[c].writer.msg)|
    case EndWrite(c) => c in w.clients && !w.clients[c].writer.Nobody?
                        && w.clients[c].writer.count == |FrameFor(js, w.clients[c].writer.msg)|
    case EndPublish => w.mu == Publishing({}, None)
    case Join(c) => w.mu.Unlocked? && c !in w.clients
    case ListDomains(c, order) => c in w.clients && w.clients[c].phase.Joined? && Enumerates(order, w.reg.states.Keys)
    case ReadFlows(c) => c in w.clients && w.clients[c].phase.Collecting?
                         && |w.clients[c].readAt| < |w.clients[c].domains|
    case BeginSnapshot(c) => c in w.clients && w.clients[c].phase.Collecting? && w.clients[c].writer.Nobody?
                             && |w.clients[c].readAt| == |w.clients[c].domains|
    case Leave(c) => c in w.clients && w.clients[c].phase.Streaming? && w.mu.Unlocked?
  }

  ghost function Next(js: Json, w: World, m: Move): World
    requires Enabled(js, w, m)
  {
    match m
    case Other(e) => w.(reg := Apply(w.reg, e), hist := w.hist + [e])
    case Record(p, f) =>
      w.(reg := Apply(w.reg, AddFlow(f)), hist := w.hist + [AddFlow(f)],
         pending := w.pending[p := Publication(f, |w.hist|)])
    case BeginPublish(p) =>
      w.(pending := w.pending - {p}, published := w.published + [w.pending[p]], mu := Publishing(w.hub, None))
    case BeginLive(c) =>
      w.(mu := Publishing(w.mu.todo - {c}, Some(c)),
         clients := w.clients[c := w.clients[c].(writer := Publisher(Live(w.published[|w.published| - 1].flow), 0))])
    case WriteSome(c, k) => w.(clients := w.clients[c := Written(js, w.clients[c], k)])
    case EndWrite(c) =>
      w.(clients := w.clients[c := Finished(w.clients[c])],
         mu := if w.clients[c].writer.Publisher? && w.mu.Publishing? then w.mu.(serving := None) else w.mu)
    case EndPublish => w.(mu := Unlocked)
    case Join(c) =>
      w.(hub := w.hub + {c},
         clients := w.clients[c := Client(Phase.Joined, Nobody, [], [], [], [], |w.published|, |w.hist|, 0, 0, [])])
    case ListDomains(c, order) =>
      w.(clients := w.clients[c := w.clients[c].(phase := Collecting, domains := order, domainsAt := |w.hist|)])
    case ReadFlows(c) => w.(clients := w.clients[c := HostRead(w.reg, |w.hist|, w.clients[c])])
    case BeginSnapshot(c) =>
      w.(clients := w.clients[c := w.clients[c].(phase := SendingSnapshot,
                                                 writer := Handler(Snapshot(w.clients[c].acc), 0))])
    case Leave(c) =>
      w.(hub := w.hub - {c}, clients := w.clients[c := w.clients[c].(phase := Gone, left := |w.published|)])
  }

  function Written(js: Json, cl: Client, k: nat): Client
    requires !cl.writer.Nobody? && cl.writer.count + k <= |FrameFor(js, cl.writer.msg)|
  {
    var n := cl.writer.count;
    cl.(written := cl.written + FrameFor(js, cl.writer.msg)[n..n + k], writer := cl.writer.(count := n + k))
  }

  function Finished(cl: Client): Client
    requires !cl.writer.Nobody?
  {
    cl.(writer := Nobody, sent := cl.sent + [cl.writer.msg],
       phase := if cl.writer.Handler? then Streaming else cl.phase)
  }

  function HostRead(reg: RegState, now: nat, cl: Client): Client
    requires |cl.readAt| < |cl.domains|
  {
    cl.(acc := cl.acc + FlowsOf(reg, cl.domains[|cl.readAt|]), readAt := cl.readAt + [now])
  }

  // ---- what a client has received ----

  function Frames(js: Json, ms: seq<Msg>): seq<byte> {
    if ms == [] then [] else Frames(js, ms[..|ms| - 1]) + FrameFor(js, ms[|ms| - 1])
  }

  function LiveOf(ms: seq<Msg>): seq<Flow> {
    if ms == [] then []
    else LiveOf(ms[..|ms| - 1]) + if ms[|ms| - 1].Live? then [ms[|ms| - 1].flow] else []
  }

  function SnapshotsOf(ms: seq<Msg>): seq<seq<Flow>> {
    if ms == [] then []
    else SnapshotsOf(ms[..|ms| - 1]) + if ms[|ms| - 1].Snapshot? then [ms[|ms| - 1].flows] else []
  }

  function PublishedFlows(ps: seq<Publication>): seq<Flow> {
    seq(|ps|, i requires 0 <= i < |ps| => ps[i].flow)
  }

  /** The positions of the flows that the snapshot holds: the rings, each at its own reading time. */
  function SnapshotPositions(hist: seq<Event>, domains: seq<string>, readAt: seq<nat>): (l: seq<nat>)
    requires |readAt| <= |domains| && forall d :: 0 <= d < |readAt| ==> readAt[d] <= |hist|
    ensures forall k :: 0 <= k < |l| ==> l[k] < |hist| && hist[l[k]].AddFlow?
  {
    if readAt == [] then []
    else
      var d := |readAt| - 1;
      SnapshotPositions(hist, domains, readAt[..d]) + RingOf(hist[..readAt[d]], domains[d])
  }

  // ---- the invariant ----

  /** Frames are never torn: whole frames, then at most the part of the lock holder's frame. */
  ghost predicate BytesOk(js: Json, cl: Client) {
    if cl.writer.Nobody? then cl.written == Frames(js, cl.sent)
    else
      var f := FrameFor(js, cl.writer.msg);
      cl.writer.count <= |f| && cl.written == Frames(js, cl.sent) + f[..cl.writer.count]
  }

  /** How much of the publish order this client has got completely. */
  function Upto(w: World, c: Cid): int
    requires c in w.clients
  {
    if w.clients[c].phase.Gone? then w.clients[c].left
    else if w.mu.Publishing? && (c in w.mu.todo || w.mu.serving == Some(c)) then |w.published| - 1
    else |w.published|
  }

  /** The live messages are the publish order from `joined` up to `upto`. */
  ghost predicate LivePart(published: seq<Publication>, joined: nat, upto: int, sent: seq<Msg>) {
    && joined <= upto <= |published|
    && LiveOf(sent) == PublishedFlows(published[joined..upto])
  }

  ghost predicate LiveOk(w: World, c: Cid)
    requires c in w.clients
  {
    var cl := w.clients[c];
    && LivePart(w.published, cl.joined, Upto(w, c), cl.sent)
    && (c in w.hub <==> !cl.phase.Gone?)
    && (cl.writer.Publisher? <==> w.mu.Publishing? && w.mu.serving == Some(c))
    && (cl.writer.Publisher? ==> w.published != [] && cl.writer.msg == Live(w.published[|w.published| - 1].flow))
  }

  ghost predicate HubOk(w: World) {
    && w.hub <= w.clients.Keys
    && (w.mu.Publishing? ==>
          && w.published != [] && w.mu.todo <= w.hub
          && (w.mu.serving.Some? ==> w.mu.serving.value in w.hub && w.mu.serving.value !in w.mu.todo))
  }

  ghost predicate Recorded(hist: seq<Event>, p: Publication) {
    p.at < |hist| && hist[p.at] == AddFlow(p.flow)
  }

  ghost predicate HistoryOk(w: World) {
    && w.reg == Replay(w.hist)
    && (forall p :: p in w.pending ==> Recorded(w.hist, w.pending[p]))
    && (forall k :: 0 <= k < |w.published| ==> Recorded(w.hist, w.published[k]))
  }

  /** What was published before the client joined was recorded before it joined. */
  ghost predicate JoinOk(published: seq<Publication>, hist: seq<Event>, cl: Client) {
    && cl.joined <= |published| && cl.joinedHist <= |hist|
    && forall k :: 0 <= k < cl.joined ==> published[k].at < cl.joinedHist
  }

  /** The snapshot collected so far: the rings as they stood when they were read. */
  ghost predicate CollectedOk(hist: seq<Event>, cl: Client) {
    && |cl.readAt| <= |cl.domains|
    && Within(cl.readAt, cl.joinedHist, |hist|)
    && cl.acc == FlowsAt(hist, SnapshotPositions(hist, cl.domains, cl.readAt))
  }

  /** The hosts it covers: those with a state when Domains was called, once each. */
  ghost predicate DomainsOk(hist: seq<Event>, cl: Client) {
    && (if cl.phase.Joined? then cl.domains == []
        else cl.joinedHist <= cl.domainsAt <= |hist| &&
             Enumerates(cl.domains, Replay(hist[..cl.domainsAt]).states.Keys))
    && (!cl.phase.Joined? && !cl.phase.Collecting? ==> |cl.readAt| == |cl.domains|)
  }

  /** It is sent once, between collecting and streaming. */
  ghost predicate SendingOk(cl: Client) {
    && (cl.writer.Handler? <==> cl.phase.SendingSnapshot?)
    && (cl.writer.Handler? ==> cl.writer.msg == Snapshot(cl.acc))
    && SnapshotsOf(cl.sent) == if cl.phase.Streaming? || cl.phase.Gone? then [cl.acc] else []
  }

  ghost predicate SnapshotOk(hist: seq<Event>, cl: Client) {
    CollectedOk(hist, cl) && DomainsOk(hist, cl) && SendingOk(cl)
  }

  ghost predicate WorldOk(js: Json, w: World) {
    && HubOk(w) && HistoryOk(w)
    && forall c :: c in w.clients ==>
         && BytesOk(js, w.clients[c]) && LiveOk(w, c)
         && JoinOk(w.published, w.hist, w.clients[c]) && SnapshotOk(w.hist, w.clients[c])
  }

  ghost predicate IsRun(js: Json, worlds: seq<World>, moves: seq<Move>) {
    && |worlds| == |moves| + 1 && worlds[0] == Init()
    && forall i :: 0 <= i < |moves| ==>
      Enabled(js, worlds[i], moves[i]) && worlds[i + 1] == Next(js, worlds[i], moves[i])
  }

  // ---- every step keeps it ----

  lemma HistoryGrows(js: Json, w: World, m: Move)
    requires Enabled(js, w, m)
    ensures w.hist <= Next(js, w, m).hist && w.published <= Next(js, w, m).published
  {
  }

  lemma HistoryKept(js: Json, w: World, m: Move)
    requires HistoryOk(w) && Enabled(js, w, m)
    ensures HistoryOk(Next(js, w, m))
  {
    match m
    case Other(e) => assert (w.hist + [e])[..|w.hist|] == w.hist;
    case Record(p, f) => assert (w.hist + [AddFlow(f)])[..|w.hist|] == w.hist;
    case _ =>
  }

  lemma HubKept(js: Json, w: World, m: Move)
    requires WorldOk(js, w) && Enabled(js, w, m)
    ensures HubOk(Next(js, w, m))
  {
    match m
    case EndWrite(c) => assert LiveOk(w, c);
    case Leave(c) =>
    case _ =>
  }

  lemma MoreBytes(done: seq<byte>, written: seq<byte>, f: seq<byte>, n: nat, k: nat)
    requires n + k <= |f| && written == done + f[..n]
    ensures written + f[n..n + k] == done + f[..n + k]
  {
  }

  lemma WrittenKeepsBytes(js: Json, cl: Client, k: nat)
    requires BytesOk(js, cl) && !cl.writer.Nobody? && cl.writer.count + k <= |FrameFor(js, cl.writer.msg)|
    ensures BytesOk(js, Written(js, cl, k))
  {
    MoreBytes(Frames(js, cl.sent), cl.written, FrameFor(js, cl.writer.msg), cl.writer.count, k);
  }

  lemma FinishedKeepsBytes(js: Json, cl: Client)
    requires BytesOk(js, cl) && !cl.writer.Nobody? && cl.writer.count == |FrameFor(js, cl.writer.msg)|
    ensures BytesOk(js, Finished(cl))
  {
    var f := FrameFor(js, cl.writer.msg);
    assert f[..cl.writer.count] == f;
    FramesSnoc(js, cl.sent, cl.writer.msg);
  }

  lemma FramesSnoc(js: Json, ms: seq<Msg>, m: Msg)
    ensures Frames(js, ms + [m]) == Frames(js, ms) + FrameFor(js, m)
  {
    assert (ms + [m])[..|ms|] == ms;
  }

  lemma BytesKept(js: Json, w: World, m: Move, c: Cid)
    requires Enabled(js, w, m) && c in Next(js, w, m).clients
    requires c in w.clients ==> BytesOk(js, w.clients[c])
    ensures BytesOk(js, Next(js, w, m).clients[c])
  {
    if c in w.clients {
      var cl := w.clients[c];
      match m
      case WriteSome(d, k) => if d == c { WrittenKeepsBytes(js, cl, k); }
      case EndWrite(d) => if d == c { FinishedKeepsBytes(js, cl); }
      case BeginLive(d) => EmptyPrefix(js, cl, Next(js, w, m).clients[c]);
      case BeginSnapshot(d) => EmptyPrefix(js, cl, Next(js, w, m).clients[c]);
      case _ => SameBytes(js, cl, Next(js, w, m).clients[c]);
    }
  }

  lemma SameBytes(js: Json, cl: Client, cl': Client)
    requires BytesOk(js, cl) && cl'.writer == cl.writer && cl'.sent == cl.sent && cl'.written == cl.written
    ensures BytesOk(js, cl')
  {
  }

  lemma EmptyPrefix(js: Json, cl: Client, cl': Client)
    requires BytesOk(js, cl)
    requires cl' != cl ==> cl.writer.Nobody? && !cl'.writer.Nobody? && cl'.writer.count == 0
                           && cl'.sent == cl.sent && cl'.written == cl.written
    ensures BytesOk(js, cl')
  {
    if cl' != cl {
      assert FrameFor(js, cl'.writer.msg)[..0] == [];
      assert cl.written + [] == cl.written;
    }
  }

  // -- the publish order --

  lemma LiveSnoc(ms: seq<Msg>, m: Msg)
    ensures LiveOf(ms + [m]) == LiveOf(ms) + if m.Live? then [m.flow] else []
    ensures SnapshotsOf(ms + [m]) == SnapshotsOf(ms) + if m.Snapshot? then [m.flows] else []
  {
    assert (ms + [m])[..|ms|] == ms;
  }

  lemma PublishedSnoc(ps: seq<Publication>, i: nat)
    requires i < |ps|
    ensures PublishedFlows(ps[i..]) == PublishedFlows(ps[i..|ps| - 1]) + [ps[|ps| - 1].flow]
  {
  }

  ghost predicate HandlerOk(cl: Client) {
    cl.writer.Handler? ==> cl.phase.SendingSnapshot? && cl.writer.msg.Snapshot?
  }

  lemma LiveKeptByPublish(js: Json, w: World, p: Pid, c: Cid)
    requires Enabled(js, w, BeginPublish(p)) && HubOk(w) && c in w.clients && LiveOk(w, c)
    ensures LiveOk(Next(js, w, BeginPublish(p)), c)
  {
    var w' := Next(js, w, BeginPublish(p));
    assert Upto(w', c) == Upto(w, c);
    assert w'.published[w.clients[c].joined..Upto(w, c)] == w.published[w.clients[c].joined..Upto(w, c)];
  }

  /** The frame of the newest publication completes the part up to it. */
  lemma LiveFrameEnds(ps: seq<Publication>, joined: nat, sent: seq<Msg>)
    requires ps != [] && LivePart(ps, joined, |ps| - 1, sent)
    ensures LivePart(ps, joined, |ps|, sent + [Live(ps[|ps| - 1].flow)])
  {
    LiveSnoc(sent, Live(ps[|ps| - 1].flow));
    PublishedSnoc(ps, joined);
    assert ps[joined..|ps|] == ps[joined..];
  }

  lemma SnapshotEnds(ps: seq<Publication>, joined: nat, upto: int, sent: seq<Msg>, m: Msg)
    requires LivePart(ps, joined, upto, sent) && m.Snapshot?
    ensures LivePart(ps, joined, upto, sent + [m])
  {
    LiveSnoc(sent, m);
  }

  lemma LiveKeptByEnd(js: Json, w: World, c: Cid)
    requires Enabled(js, w, EndWrite(c)) && HubOk(w) && LiveOk(w, c) && HandlerOk(w.clients[c])
    ensures LiveOk(Next(js, w, EndWrite(c)), c)
  {
    if w.clients[c].writer.Publisher? {
      LiveKeptByPublisher(js, w, c);
    } else {
      LiveKeptByHandler(js, w, c);
    }
  }

  lemma LiveKeptByPublisher(js: Json, w: World, c: Cid)
    requires Enabled(js, w, EndWrite(c)) && HubOk(w) && LiveOk(w, c) && w.clients[c].writer.Publisher?
    ensures LiveOk(Next(js, w, EndWrite(c)), c)
  {
    LiveFrameEnds(w.published, w.clients[c].joined, w.clients[c].sent);
    assert Upto(Next(js, w, EndWrite(c)), c) == |w.published|;
  }

  lemma LiveKeptByHandler(js: Json, w: World, c: Cid)
    requires Enabled(js, w, EndWrite(c)) && HubOk(w) && LiveOk(w, c) && HandlerOk(w.clients[c])
    requires w.clients[c].writer.Handler?
    ensures LiveOk(Next(js, w, EndWrite(c)), c)
  {
    var cl := w.clients[c];
    SnapshotEnds(w.published, cl.joined, Upto(w, c), cl.sent, cl.writer.msg);
    assert Upto(Next(js, w, EndWrite(c)), c) == Upto(w, c);
  }

  lemma LiveKeptByOther(js: Json, w: World, m: Move, c: Cid, d: Cid)
    requires Enabled(js, w, m) && HubOk(w) && c in w.clients && LiveOk(w, c)
    requires d in w.clients && LiveOk(w, d)
    requires (m == EndWrite(d) && d != c) || m == BeginLive(d) || m == BeginSnapshot(d) || m == Leave(d)
    ensures LiveOk(Next(js, w, m), c)
  {
  }

  /** Moves that leave the publish order and this client's part in it alone. */
  lemma LiveKeptByFrame(js: Json, w: World, m: Move, c: Cid)
    requires Enabled(js, w, m) && c in w.clients && LiveOk(w, c)
    requires m.Other? || m.Record? || m.WriteSome? || m.EndPublish? || m.ListDomains? || m.ReadFlows?
    ensures LiveOk(Next(js, w, m), c)
  {
  }

  lemma LiveKeptByJoin(js: Json, w: World, c: Cid, d: Cid)
    requires Enabled(js, w, Join(d)) && HubOk(w) && (c == d || (c in w.clients && LiveOk(w, c)))
    ensures LiveOk(Next(js, w, Join(d)), c)
  {
  }

  lemma LiveKept(js: Json, w: World, m: Move, c: Cid)
    requires Enabled(js, w, m) && HubOk(w) && c in Next(js, w, m).clients
    requires forall d :: d in w.clients ==> LiveOk(w, d) && HandlerOk(w.clients[d])
    ensures LiveOk(Next(js, w, m), c)
  {
    match m
    case BeginPublish(p) => LiveKeptByPublish(js, w, p, c);
    case EndWrite(d) => if d == c { LiveKeptByEnd(js, w, c); } else { LiveKeptByOther(js, w, m, c, d); }
    case BeginLive(d) => LiveKeptByOther(js, w, m, c, d);
    case BeginSnapshot(d) => LiveKeptByOther(js, w, m, c, d);
    case Leave(d) => LiveKeptByOther(js, w, m, c, d);
    case Join(d) => LiveKeptByJoin(js, w, c, d);
    case _ => LiveKeptByFrame(js, w, m, c);
  }

  lemma JoinKept(js: Json, w: World, m: Move, c: Cid)
    requires Enabled(js, w, m) && HistoryOk(w) && c in Next(js, w, m).clients
    requires c in w.clients ==> JoinOk(w.published, w.hist, w.clients[c])
    ensures JoinOk(Next(js, w, m).published, Next(js, w, m).hist, Next(js, w, m).clients[c])
  {
    if c !in w.clients {
      assert forall k :: 0 <= k < |w.published| ==> Recorded(w.hist, w.published[k]);
    }
  }

  // -- the snapshot --

  lemma {:induction false} PositionsStable(hist: seq<Event>, hist': seq<Event>, domains: seq<string>, readAt: seq<nat>)
    requires hist <= hist' && |readAt| <= |domains| && forall d :: 0 <= d < |readAt| ==> readAt[d] <= |hist|
    ensures SnapshotPositions(hist', domains, readAt) == SnapshotPositions(hist, domains, readAt)
  {
    if readAt != [] {
      var d := |readAt| - 1;
      assert hist'[..readAt[d]] == hist[..readAt[d]];
      PositionsStable(hist, hist', domains, readAt[..d]);
    }
  }

  lemma SnapshotStable(hist: seq<Event>, hist': seq<Event>, cl: Client)
    requires hist <= hist' && SnapshotOk(hist, cl)
    ensures SnapshotOk(hist', cl)
  {
    PositionsStable(hist, hist', cl.domains, cl.readAt);
    var at := SnapshotPositions(hist, cl.domains, cl.readAt);
    assert FlowsAt(hist', at) == FlowsAt(hist, at);
    if !cl.phase.Joined? { assert hist'[..cl.domainsAt] == hist[..cl.domainsAt]; }
  }

  lemma FlowsAtConcat(hist: seq<Event>, a: seq<nat>, b: seq<nat>)
    requires forall k :: 0 <= k < |a| ==> a[k] < |hist| && hist[a[k]].AddFlow?
    requires forall k :: 0 <= k < |b| ==> b[k] < |hist| && hist[b[k]].AddFlow?
    ensures forall k :: 0 <= k < |a + b| ==> (a + b)[k] < |hist| && hist[(a + b)[k]].AddFlow?
    ensures FlowsAt(hist, a + b) == FlowsAt(hist, a) + FlowsAt(hist, b)
  {
  }

  lemma PositionsSnoc(hist: seq<Event>, domains: seq<string>, r: seq<nat>)
    requires r != [] && |r| <= |domains| && forall d :: 0 <= d < |r| ==> r[d] <= |hist|
    requires r[|r| - 1] == |hist|
    ensures SnapshotPositions(hist, domains, r) ==
            SnapshotPositions(hist, domains, r[..|r| - 1]) + RingOf(hist, domains[|r| - 1])
  {
    assert hist[..|hist|] == hist;
  }

  lemma ReadAcc(hist: seq<Event>, domains: seq<string>, readAt: seq<nat>)
    requires |readAt| < |domains| && forall d :: 0 <= d < |readAt| ==> readAt[d] <= |hist|
    ensures FlowsAt(hist, SnapshotPositions(hist, domains, readAt + [|hist|])) ==
            FlowsAt(hist, SnapshotPositions(hist, domains, readAt)) + FlowsOf(Replay(hist), domains[|readAt|])
  {
    var h, r := domains[|readAt|], readAt + [|hist|];
    assert r[..|r| - 1] == readAt;
    PositionsSnoc(hist, domains, r);
    RingRefinesLog(hist, h);
    FlowsAtConcat(hist, SnapshotPositions(hist, domains, readAt), RingOf(hist, h));
  }

  ghost predicate Within(readAt: seq<nat>, lo: nat, hi: nat) {
    forall d :: 0 <= d < |readAt| ==> lo <= readAt[d] <= hi
  }

  lemma WithinSnoc(readAt: seq<nat>, lo: nat, hi: nat)
    requires Within(readAt, lo, hi) && lo <= hi
    ensures Within(readAt + [hi], lo, hi)
  {
  }

  lemma ReadKeepsCollected(hist: seq<Event>, cl: Client)
    requires CollectedOk(hist, cl) && cl.joinedHist <= |hist| && |cl.readAt| < |cl.domains|
    ensures CollectedOk(hist, HostRead(Replay(hist), |hist|, cl))
  {
    WithinSnoc(cl.readAt, cl.joinedHist, |hist|);
    ReadAcc(hist, cl.domains, cl.readAt);
  }

  /** One reg.Flows call adds the ring of its host as it stands now. */
  lemma ReadKeepsSnapshot(hist: seq<Event>, cl: Client)
    requires SnapshotOk(hist, cl) && cl.phase.Collecting? && |cl.readAt| < |cl.domains|
    ensures SnapshotOk(hist, HostRead(Replay(hist), |hist|, cl))
  {
    ReadKeepsCollected(hist, cl);
    assert DomainsOk(hist, HostRead(Replay(hist), |hist|, cl));
  }

  lemma EndKeepsSnapshot(hist: seq<Event>, cl: Client)
    requires SnapshotOk(hist, cl) && !cl.writer.Nobody?
    requires cl.writer.Publisher? ==> cl.writer.msg.Live?
    ensures SnapshotOk(hist, Finished(cl))
  {
    LiveSnoc(cl.sent, cl.writer.msg);
  }

  lemma SnapshotKeptByRead(js: Json, w: World, d: Cid, c: Cid)
    requires Enabled(js, w, ReadFlows(d)) && HistoryOk(w) && c in w.clients && SnapshotOk(w.hist, w.clients[c])
    ensures SnapshotOk(w.hist, Next(js, w, ReadFlows(d)).clients[c])
  {
    if d == c { ReadKeepsSnapshot(w.hist, w.clients[c]); }
  }

  lemma SnapshotKeptByEnd(js: Json, w: World, d: Cid, c: Cid)
    requires Enabled(js, w, EndWrite(d)) && c in w.clients && SnapshotOk(w.hist, w.clients[c]) && LiveOk(w, c)
    ensures SnapshotOk(w.hist, Next(js, w, EndWrite(d)).clients[c])
  {
    if d == c { EndKeepsSnapshot(w.hist, w.clients[c]); }
  }

  lemma SnapshotKept(js: Json, w: World, m: Move, c: Cid)
    requires Enabled(js, w, m) && HistoryOk(w) && c in Next(js, w, m).clients
    requires c in w.clients ==>
      SnapshotOk(w.hist, w.clients[c]) && LiveOk(w, c) && JoinOk(w.published, w.hist, w.clients[c])
    ensures SnapshotOk(Next(js, w, m).hist, Next(js, w, m).clients[c])
  {
    if c in w.clients {
      var cl := w.clients[c];
      match m
      case Other(e) => SnapshotStable(w.hist, w.hist + [e], cl);
      case Record(_, f) => SnapshotStable(w.hist, w.hist + [AddFlow(f)], cl);
      case ReadFlows(d) => SnapshotKeptByRead(js, w, d, c);
      case EndWrite(d) => SnapshotKeptByEnd(js, w, d, c);
      case _ => SnapshotKeptByRest(js, w, m, c);
    }
  }

  lemma SnapshotKeptByRest(js: Json, w: World, m: Move, c: Cid)
    requires Enabled(js, w, m) && HistoryOk(w) && c in w.clients && SnapshotOk(w.hist, w.clients[c])
    requires JoinOk(w.published, w.hist, w.clients[c])
    requires m.BeginPublish? || m.BeginLive? || m.WriteSome? || m.EndPublish? || m.Join? || m.ListDomains?
             || m.BeginSnapshot? || m.Leave?
    ensures SnapshotOk(w.hist, Next(js, w, m).clients[c])
  {
    assert w.hist[..|w.hist|] == w.hist;
  }

  lemma StepKeepsWorld(js: Json, w: World, m: Move)
    requires WorldOk(js, w) && Enabled(js, w, m)
    ensures WorldOk(js, Next(js, w, m))
  {
    var w' := Next(js, w, m);
    HistoryKept(js, w, m);
    HistoryGrows(js, w, m);
    HubKept(js, w, m);
    forall c | c in w'.clients
      ensures BytesOk(js, w'.clients[c]) && LiveOk(w', c)
      ensures JoinOk(w'.published, w'.hist, w'.clients[c]) && SnapshotOk(w'.hist, w'.clients[c])
    {
      BytesKept(js, w, m, c);
      LiveKept(js, w, m, c);
      JoinKept(js, w, m, c);
      SnapshotKept(js, w, m, c);
    }
  }

  // ---- theorems about every run ----

  lemma {:induction false} ReachableWorldsAreOk(js: Json, worlds: seq<World>, moves: seq<Move>, i: nat)
    requires IsRun(js, worlds, moves) && i < |worlds|
    ensures WorldOk(js, worlds[i])
  {
    if i > 0 {
      ReachableWorldsAreOk(js, worlds, moves, i - 1);
      StepKeepsWorld(js, worlds[i - 1], moves[i - 1]);
    }
  }

  /** The marshalled message has these bytes. */
  predicate Marshals(js: Json, m: Msg, bytes: seq<byte>) {
    && (m.Live? ==> bytes == js.live(m.flow))
    && (m.Snapshot? ==> bytes == js.snapshot(m.flows))
  }

  lemma PayloadMarshals(js: Json, m: Msg)
    ensures Marshals(js, m, Payload(js, m))
  {
  }

  /** A message that its reader can allocate. */
  predicate Short(js: Json, m: Msg, room: Room) {
    && (m.Live? ==> |js.live(m.flow)| < room)
    && (m.Snapshot? ==> |js.snapshot(m.flows)| < room)
  }

  predicate AllShort(js: Json, ms: seq<Msg>, room: Room) {
    forall i :: 0 <= i < |ms| ==> Short(js, ms[i], room)
  }

  function Payloads(js: Json, ms: seq<Msg>): seq<seq<byte>> {
    if ms == [] then [] else Payloads(js, ms[..|ms| - 1]) + [Payload(js, ms[|ms| - 1])]
  }

  function PlainFrames(js: Json, ms: seq<Msg>): seq<Frame> {
    if ms == [] then [] else PlainFrames(js, ms[..|ms| - 1]) + [Plain(1, Payload(js, ms[|ms| - 1]))]
  }

  lemma {:induction false} FramesAreAStream(js: Json, ms: seq<Msg>, room: Room)
    requires AllShort(js, ms, room)
    ensures ValidFrames(PlainFrames(js, ms)) && AllFit(PlainFrames(js, ms), room) && !HasClose(PlainFrames(js, ms))
    ensures Stream(PlainFrames(js, ms)) == Frames(js, ms)
    ensures UpToClose(PlainFrames(js, ms)) == Payloads(js, ms)
  {
    if ms != [] {
      var m := ms[|ms| - 1];
      var init := ms[..|ms| - 1];
      assert forall i :: 0 <= i < |init| ==> init[i] == ms[i];
      FramesAreAStream(js, init, room);
      ServerFrameIsWire(1, Payload(js, m));
      assert Opcode(WithTop(1)) == 1;
      StreamSnoc(PlainFrames(js, init), Plain(1, Payload(js, m)));
      UpToCloseSnoc(PlainFrames(js, init), Plain(1, Payload(js, m)));
    }
  }

  lemma WholeFramesRead(js: Json, ms: seq<Msg>, room: Room)
    requires AllShort(js, ms, room) && room > 0
    ensures ReadAll(Frames(js, ms), room) == Session(Payloads(js, ms), Cut)
  {
    FramesAreAStream(js, ms, room);
    var f := Plain(1, []);
    StreamReadsBack(PlainFrames(js, ms), f, 0, room);
    assert Frames(js, ms) + Wire(f)[..0] == Frames(js, ms);
  }

  lemma PartFrameRead(js: Json, ms: seq<Msg>, m: Msg, n: nat, room: Room)
    requires AllShort(js, ms, room) && Short(js, m, room) && n < |FrameFor(js, m)|
    ensures ReadAll(Frames(js, ms) + FrameFor(js, m)[..n], room) == Session(Payloads(js, ms), Cut)
  {
    FramesAreAStream(js, ms, room);
    ServerFrameIsWire(1, Payload(js, m));
    StreamReadsBack(PlainFrames(js, ms), Plain(1, Payload(js, m)), n, room);
  }

  /** The messages of which a client has every byte: those sent, and the one whose last byte is out
      while its sender still holds the lock. */
  function Received(js: Json, cl: Client): seq<Msg> {
    if !cl.writer.Nobody? && cl.writer.count == |FrameFor(js, cl.writer.msg)| then cl.sent + [cl.writer.msg]
    else cl.sent
  }

  /** The messages sent to this client, and the one under way, are no longer than it can allocate. */
  predicate CanAllocate(js: Json, cl: Client, room: Room) {
    room > 0 && AllShort(js, cl.sent, room) && (!cl.writer.Nobody? ==> Short(js, cl.writer.msg, room))
  }

  /** These payloads are the marshalled messages, one by one. */
  ghost predicate AllMarshalled(js: Json, ms: seq<Msg>, payloads: seq<seq<byte>>) {
    |payloads| == |ms| && forall k :: 0 <= k < |ms| ==> Marshals(js, ms[k], payloads[k])
  }

  lemma {:induction false} PayloadsMarshal(js: Json, ms: seq<Msg>)
    ensures AllMarshalled(js, ms, Payloads(js, ms))
  {
    if ms != [] {
      var n := |ms| - 1;
      PayloadsMarshal(js, ms[..n]);
      PayloadMarshals(js, ms[n]);
    }
  }

  /** Frames are never torn.  In every reachable state a client that decodes what it has received gets
      exactly those messages, marshalled, whole and in order, and at most a cut frame at the end. */
  lemma FramesAreNeverTorn(js: Json, worlds: seq<World>, moves: seq<Move>, i: nat, c: Cid, room: Room)
    requires IsRun(js, worlds, moves) && i < |worlds| && c in worlds[i].clients
    requires CanAllocate(js, worlds[i].clients[c], room)
    ensures var cl := worlds[i].clients[c];
            && ReadAll(cl.written, room).end == Cut
            && AllMarshalled(js, Received(js, cl), ReadAll(cl.written, room).payloads)
            && cl.sent <= Received(js, cl) && (cl.writer.Nobody? ==> cl.written == Frames(js, cl.sent))
  {
    ReachableWorldsAreOk(js, worlds, moves, i);
    BytesDecode(js, worlds[i].clients[c], room);
    PayloadsMarshal(js, Received(js, worlds[i].clients[c]));
  }

  lemma BytesDecode(js: Json, cl: Client, room: Room)
    requires BytesOk(js, cl) && CanAllocate(js, cl, room)
    ensures ReadAll(cl.written, room) == Session(Payloads(js, Received(js, cl)), Cut)
  {
    if cl.writer.Nobody? {
      WholeFramesRead(js, cl.sent, room);
    } else if cl.writer.count < |FrameFor(js, cl.writer.msg)| {
      PartFrameRead(js, cl.sent, cl.writer.msg, cl.writer.count, room);
    } else {
      var f := FrameFor(js, cl.writer.msg);
      assert f[..cl.writer.count] == f;
      FramesSnoc(js, cl.sent, cl.writer.msg);
      WholeFramesRead(js, cl.sent + [cl.writer.msg], room);
    }
  }

  /** One order for everybody: a client's live frames are the publish order from its joining on, without
      gaps, repetitions or changes of place. */
  lemma LiveFramesAreASegment(js: Json, worlds: seq<World>, moves: seq<Move>, i: nat, c: Cid)
    requires IsRun(js, worlds, moves) && i < |worlds| && c in worlds[i].clients
    ensures var w := worlds[i];
            && w.clients[c].joined <= Upto(w, c) <= |w.published|
            && LiveOf(w.clients[c].sent) == PublishedFlows(w.published[w.clients[c].joined..Upto(w, c)])
            && (w.mu.Unlocked? && !w.clients[c].phase.Gone? ==> Upto(w, c) == |w.published|)
  {
    ReachableWorldsAreOk(js, worlds, moves, i);
    assert LiveOk(worlds[i], c);
  }

  /** Histories and the publish order only grow. */
  lemma {:induction false} OrdersGrow(js: Json, worlds: seq<World>, moves: seq<Move>, i: nat, j: nat)
    requires IsRun(js, worlds, moves) && i <= j < |worlds|
    ensures worlds[i].published <= worlds[j].published && worlds[i].hist <= worlds[j].hist
    decreases j
  {
    if i < j {
      OrdersGrow(js, worlds, moves, i, j - 1);
      HistoryGrows(js, worlds[j - 1], moves[j - 1]);
    }
  }

  lemma {:induction false} SnapshotPositionsAre(hist: seq<Event>, domains: seq<string>, readAt: seq<nat>, at: nat)
    requires |readAt| <= |domains| && forall d :: 0 <= d < |readAt| ==> readAt[d] <= |hist|
    requires at < |hist| && hist[at].AddFlow?
    ensures at in SnapshotPositions(hist, domains, readAt) <==>
            exists d :: 0 <= d < |readAt| && at in RingOf(hist[..readAt[d]], domains[d])
  {
    if readAt != [] {
      var d := |readAt| - 1;
      var init := readAt[..d];
      SnapshotPositionsAre(hist, domains, init, at);
      assert forall e :: 0 <= e < d ==> init[e] == readAt[e];
      assert at in SnapshotPositions(hist, domains, readAt) <==>
             at in SnapshotPositions(hist, domains, init) || at in RingOf(hist[..readAt[d]], domains[d]);
    }
  }

  /** The flow recorded at position `at` was still in the ring when host d was read. */
  ghost predicate Survived(hist: seq<Event>, cl: Client, at: nat, d: nat)
    requires at < |hist| && hist[at].AddFlow? && d < |cl.domains| && |cl.readAt| == |cl.domains|
    requires forall e :: 0 <= e < |cl.readAt| ==> cl.readAt[e] <= |hist|
  {
    var past := hist[..cl.readAt[d]];
    && cl.domains[d] == hist[at].flow.host && at < cl.readAt[d]
    && !ClearedAfter(past, at, cl.domains[d]) && AddsAfter(past, at, cl.domains[d]) < RING
  }

  lemma RingThen(hist: seq<Event>, n: nat, at: nat, h: string)
    requires n <= |hist| && at < |hist| && hist[at].AddFlow?
    ensures at in RingOf(hist[..n], h) <==>
            at < n && h == hist[at].flow.host && !ClearedAfter(hist[..n], at, h) && AddsAfter(hist[..n], at, h) < RING
  {
    var past := hist[..n];
    if at < n && h == hist[at].flow.host {
      RingHoldsExactly(past, at, h);
    } else {
      var ring := RingOf(past, h);
      assert forall k :: 0 <= k < |ring| ==> ring[k] < n && Adds(past[ring[k]], h);
    }
  }

  /** The one snapshot message that the client was sent: the rings of all hosts that had a state when
      Domains was called, each as it stood when it was read. */
  ghost predicate SnapshotIs(hist: seq<Event>, cl: Client) {
    && |cl.readAt| == |cl.domains|
    && (forall d :: 0 <= d < |cl.readAt| ==> cl.joinedHist <= cl.readAt[d] <= |hist|)
    && cl.joinedHist <= cl.domainsAt <= |hist|
    && Enumerates(cl.domains, Replay(hist[..cl.domainsAt]).states.Keys)
    && SnapshotsOf(cl.sent) == [cl.acc]
    && cl.acc == FlowsAt(hist, SnapshotPositions(hist, cl.domains, cl.readAt))
  }

  /** Exactly which earlier flows the snapshot holds. */
  lemma SnapshotHoldsExactly(hist: seq<Event>, cl: Client, at: nat)
    requires SnapshotIs(hist, cl) && at < |hist| && hist[at].AddFlow?
    ensures at in SnapshotPositions(hist, cl.domains, cl.readAt) <==>
            exists d :: 0 <= d < |cl.domains| && Survived(hist, cl, at, d)
  {
    SnapshotPositionsAre(hist, cl.domains, cl.readAt, at);
    forall d | 0 <= d < |cl.domains|
      ensures at in RingOf(hist[..cl.readAt[d]], cl.domains[d]) <==> Survived(hist, cl, at, d)
    {
      RingThen(hist, cl.readAt[d], at, cl.domains[d]);
    }
  }

  lemma SnapshotSent(js: Json, w: World, c: Cid)
    requires WorldOk(js, w) && c in w.clients && (w.clients[c].phase.Streaming? || w.clients[c].phase.Gone?)
    ensures SnapshotIs(w.hist, w.clients[c])
  {
    assert SnapshotOk(w.hist, w.clients[c]);
  }

  /** The flow at place k of the publish order was sent as the live frame at that place. */
  ghost predicate SentLive(w: World, cl: Client, k: nat)
    requires k < |w.published|
  {
    && cl.joined <= k && k - cl.joined < |LiveOf(cl.sent)|
    && LiveOf(cl.sent)[k - cl.joined] == w.published[k].flow
  }

  /** It was recorded before the client joined, and the snapshot holds it unless it was gone. */
  ghost predicate KnownBefore(w: World, cl: Client, k: nat)
    requires k < |w.published| && SnapshotIs(w.hist, cl) && Recorded(w.hist, w.published[k])
  {
    var at := w.published[k].at;
    && k < cl.joined && at < cl.joinedHist
    && (at in SnapshotPositions(w.hist, cl.domains, cl.readAt) <==>
        exists d :: 0 <= d < |cl.domains| && Survived(w.hist, cl, at, d))
  }

  lemma LiveFrameAt(w: World, c: Cid, k: nat)
    requires c in w.clients && LiveOk(w, c) && k < |w.published| && w.clients[c].joined <= k < Upto(w, c)
    ensures SentLive(w, w.clients[c], k)
  {
    var joined := w.clients[c].joined;
    assert w.published[joined..Upto(w, c)][k - joined] == w.published[k];
  }

  lemma EarlierFlow(js: Json, w: World, c: Cid, k: nat)
    requires WorldOk(js, w) && c in w.clients && SnapshotIs(w.hist, w.clients[c])
    requires k < |w.published| && k < w.clients[c].joined
    ensures Recorded(w.hist, w.published[k]) && KnownBefore(w, w.clients[c], k)
  {
    assert JoinOk(w.published, w.hist, w.clients[c]) && Recorded(w.hist, w.published[k]);
    SnapshotHoldsExactly(w.hist, w.clients[c], w.published[k].at);
  }

  /** No flow is lost.  Take any reachable state, any client that was sent its snapshot, and any flow
      published before the client's removal (and delivered, if Publish is still at work).  Either it was
      published while the client was registered, and then it is the client's live frame at that very
      place of the publish order; or it was recorded before the client joined, and then the snapshot
      holds it exactly when its host had a state and the flow was neither cleared nor pushed out of the
      ring by 64 later flows of its host. */
  lemma NoFlowIsLost(js: Json, worlds: seq<World>, moves: seq<Move>, i: nat, c: Cid, k: nat)
    requires IsRun(js, worlds, moves) && i < |worlds| && c in worlds[i].clients
    requires worlds[i].clients[c].phase.Streaming? || worlds[i].clients[c].phase.Gone?
    requires k < |worlds[i].published| && k < Upto(worlds[i], c)
    ensures var w, cl := worlds[i], worlds[i].clients[c];
            && SnapshotIs(w.hist, cl) && Recorded(w.hist, w.published[k])
            && (SentLive(w, cl, k) || KnownBefore(w, cl, k))
  {
    ReachableWorldsAreOk(js, worlds, moves, i);
    var w := worlds[i];
    SnapshotSent(js, w, c);
    if k < w.clients[c].joined {
      EarlierFlow(js, w, c, k);
    } else {
      assert LiveOk(w, c) && Recorded(w.hist, w.published[k]);
      LiveFrameAt(w, c, k);
    }
  }

  // ---- on the wire ----

  /** Every message goes out as one final, unmasked text frame in the shortest length form. */
  lemma MessageIsTextFrame(js: Json, m: Msg, payload: seq<byte>)
    requires Marshals(js, m, payload) && |payload| < LEN_LIMIT
    ensures var f := Frame(0x81, if |payload| < 126 then Len7 else if |payload| < 65536 then Len16 else Len64,
                           None, payload);
            ValidFrame(f) && FrameFor(js, m) == Wire(f)
  {
    ServerFrameIsWire(1, payload);
  }

  /** Messages with one snapshot: it stands at place p, and the others are the live ones in order. */
  lemma {:induction false} OneSnapshot(ms: seq<Msg>, fs: seq<Flow>) returns (p: nat)
    requires SnapshotsOf(ms) == [fs]
    ensures p < |ms| && ms[p] == Snapshot(fs) && |LiveOf(ms)| == |ms| - 1
    ensures forall k :: 0 <= k < p ==> ms[k] == Live(LiveOf(ms)[k])
    ensures forall k :: p < k < |ms| ==> ms[k] == Live(LiveOf(ms)[k - 1])
  {
    var n := |ms| - 1;
    if ms[n].Snapshot? {
      OneAndNone(SnapshotsOf(ms[..n]), ms[n].flows, fs);
      AllAreLive(ms[..n]);
      p := n;
    } else {
      p := OneSnapshot(ms[..n], fs);
    }
  }

  lemma OneAndNone(a: seq<seq<Flow>>, b: seq<Flow>, c: seq<Flow>)
    requires a + [b] == [c]
    ensures a == [] && b == c
  {
    assert |a + [b]| == 1;
    assert (a + [b])[0] == c;
  }

  lemma {:induction false} AllAreLive(ms: seq<Msg>)
    requires SnapshotsOf(ms) == []
    ensures |LiveOf(ms)| == |ms| && forall k :: 0 <= k < |ms| ==> ms[k] == Live(LiveOf(ms)[k])
  {
    if ms != [] {
      AllAreLive(ms[..|ms| - 1]);
    }
  }

  /** What a client has received, seen from the publish order and the registry. */
  ghost predicate ReceivedOk(w: World, cl: Client, upto: int, ms: seq<Msg>) {
    && (cl.phase.Streaming? || cl.phase.Gone? ==> SnapshotsOf(ms) == [cl.acc])
    && LivePart(w.published, cl.joined, cl.joined + |LiveOf(ms)|, ms)
    && upto <= cl.joined + |LiveOf(ms)|
  }

  lemma PublisherReceives(w: World, cl: Client)
    requires ReceivedOk(w, cl, |w.published| - 1, cl.sent) && w.published != []
    requires LivePart(w.published, cl.joined, |w.published| - 1, cl.sent)
    ensures ReceivedOk(w, cl, |w.published| - 1, cl.sent + [Live(w.published[|w.published| - 1].flow)])
  {
    LiveSnoc(cl.sent, Live(w.published[|w.published| - 1].flow));
    LiveFrameEnds(w.published, cl.joined, cl.sent);
  }

  lemma HandlerReceives(w: World, cl: Client, upto: int)
    requires ReceivedOk(w, cl, upto, cl.sent) && !cl.phase.Streaming? && !cl.phase.Gone?
    ensures ReceivedOk(w, cl, upto, cl.sent + [Snapshot(cl.acc)])
  {
    LiveSnoc(cl.sent, Snapshot(cl.acc));
  }

  lemma SentIsReceived(w: World, c: Cid)
    requires c in w.clients && LiveOk(w, c) && SnapshotOk(w.hist, w.clients[c])
    ensures ReceivedOk(w, w.clients[c], Upto(w, c), w.clients[c].sent)
  {
    assert |LiveOf(w.clients[c].sent)| == Upto(w, c) - w.clients[c].joined;
  }

  lemma PublisherIsBehind(w: World, c: Cid)
    requires HubOk(w) && c in w.clients && LiveOk(w, c) && w.clients[c].writer.Publisher?
    ensures Upto(w, c) == |w.published| - 1 && w.published != []
    ensures w.clients[c].writer.msg == Live(w.published[|w.published| - 1].flow)
  {
  }

  lemma ReceivedIs(js: Json, w: World, c: Cid)
    requires WorldOk(js, w) && c in w.clients
    ensures ReceivedOk(w, w.clients[c], Upto(w, c), Received(js, w.clients[c]))
  {
    var cl := w.clients[c];
    assert LiveOk(w, c) && SnapshotOk(w.hist, cl);
    SentIsReceived(w, c);
    if Received(js, cl) != cl.sent {
      if cl.writer.Publisher? {
        PublisherIsBehind(w, c);
        PublisherReceives(w, cl);
      } else {
        HandlerReceives(w, cl, Upto(w, c));
      }
    }
  }

  /** The payload at place p is the marshalled snapshot, and the others are, in order, the marshalled
      publications from the client's joining on. */
  ghost predicate OnTheWire(js: Json, w: World, cl: Client, payloads: seq<seq<byte>>, p: nat) {
    && p < |payloads| && cl.joined + |payloads| - 1 <= |w.published|
    && payloads[p] == js.snapshot(cl.acc)
    && (forall k :: 0 <= k < p ==> payloads[k] == js.live(w.published[cl.joined + k].flow))
    && (forall k :: p < k < |payloads| ==> payloads[k] == js.live(w.published[cl.joined + k - 1].flow))
  }

  lemma FlowAt(ps: seq<Publication>, joined: nat, n: nat, k: nat)
    requires k < n && joined + n <= |ps|
    ensures PublishedFlows(ps[joined..joined + n])[k] == ps[joined + k].flow
  {
  }

  lemma MarshalledAt(js: Json, ms: seq<Msg>, payloads: seq<seq<byte>>, k: nat)
    requires AllMarshalled(js, ms, payloads) && k < |ms|
    ensures Marshals(js, ms[k], payloads[k])
  {
  }

  lemma MarshalledOnTheWire(js: Json, w: World, cl: Client, ms: seq<Msg>, payloads: seq<seq<byte>>) returns (p: nat)
    requires AllMarshalled(js, ms, payloads) && SnapshotsOf(ms) == [cl.acc]
    requires LivePart(w.published, cl.joined, cl.joined + |LiveOf(ms)|, ms)
    ensures OnTheWire(js, w, cl, payloads, p) && |payloads| == |LiveOf(ms)| + 1
  {
    p := OneSnapshot(ms, cl.acc);
    MarshalledAt(js, ms, payloads, p);
    var n := |LiveOf(ms)|;
    forall k | 0 <= k < p ensures payloads[k] == js.live(w.published[cl.joined + k].flow) {
      FlowAt(w.published, cl.joined, n, k);
      MarshalledAt(js, ms, payloads, k);
    }
    forall k | p < k < |payloads| ensures payloads[k] == js.live(w.published[cl.joined + k - 1].flow) {
      FlowAt(w.published, cl.joined, n, k - 1);
      MarshalledAt(js, ms, payloads, k);
    }
  }

  lemma WireOfReceived(js: Json, w: World, cl: Client, upto: int, ms: seq<Msg>, payloads: seq<seq<byte>>)
    returns (p: nat)
    requires ReceivedOk(w, cl, upto, ms) && (cl.phase.Streaming? || cl.phase.Gone?)
    requires AllMarshalled(js, ms, payloads)
    ensures OnTheWire(js, w, cl, payloads, p) && upto < cl.joined + |payloads|
  {
    p := MarshalledOnTheWire(js, w, cl, ms, payloads);
  }

  /** What a client past its snapshot finds in its bytes: the marshalled snapshot, which holds exactly the
      flows at the positions read, and around it every publication from its joining on, marshalled, in the
      publish order, at least up to the last one delivered. */
  lemma BytesHoldEverything(js: Json, worlds: seq<World>, moves: seq<Move>, i: nat, c: Cid, room: Room)
    returns (p: nat)
    requires IsRun(js, worlds, moves) && i < |worlds| && c in worlds[i].clients
    requires worlds[i].clients[c].phase.Streaming? || worlds[i].clients[c].phase.Gone?
    requires CanAllocate(js, worlds[i].clients[c], room)
    ensures var w, cl := worlds[i], worlds[i].clients[c];
            var payloads := ReadAll(cl.written, room).payloads;
            && OnTheWire(js, w, cl, payloads, p) && Upto(w, c) < cl.joined + |payloads|
            && SnapshotIs(w.hist, cl)
  {
    var w, payloads := worlds[i], ReadAll(worlds[i].clients[c].written, room).payloads;
    ReachableWorldsAreOk(js, worlds, moves, i);
    FramesAreNeverTorn(js, worlds, moves, i, c, room);
    SnapshotSent(js, w, c);
    ReceivedIs(js, w, c);
    p := WireOfReceived(js, w, w.clients[c], Upto(w, c), Received(js, w.clients[c]), payloads);
  }

  lemma PlaceOf(js: Json, w: World, cl: Client, payloads: seq<seq<byte>>, p: nat, k: nat) returns (at: nat)
    requires OnTheWire(js, w, cl, payloads, p) && cl.joined <= k && k + 1 < cl.joined + |payloads|
    ensures at < |payloads| && at != p && payloads[at] == js.live(w.published[k].flow)
  {
    at := if k - cl.joined < p then k - cl.joined else k - cl.joined + 1;
    assert cl.joined + (k - cl.joined) == k && cl.joined + (k - cl.joined + 1) - 1 == k;
  }

  /** So no flow is lost on the wire either: a flow published before the client's removal is, marshalled, the
      payload at its place, or it is in the marshalled snapshot unless it was gone. */
  lemma NoFlowIsLostOnTheWire(js: Json, worlds: seq<World>, moves: seq<Move>, i: nat, c: Cid, k: nat, room: Room)
    returns (p: nat, at: nat)
    requires IsRun(js, worlds, moves) && i < |worlds| && c in worlds[i].clients
    requires worlds[i].clients[c].phase.Streaming? || worlds[i].clients[c].phase.Gone?
    requires k < |worlds[i].published| && k < Upto(worlds[i], c)
    requires CanAllocate(js, worlds[i].clients[c], room)
    ensures var w, cl := worlds[i], worlds[i].clients[c];
            var payloads := ReadAll(cl.written, room).payloads;
            && SnapshotIs(w.hist, cl) && Recorded(w.hist, w.published[k])
            && p < |payloads| && payloads[p] == js.snapshot(cl.acc)
            && (if cl.joined <= k then at < |payloads| && at != p && payloads[at] == js.live(w.published[k].flow)
                else KnownBefore(w, cl, k))
  {
    NoFlowIsLost(js, worlds, moves, i, c, k);
    p := BytesHoldEverything(js, worlds, moves, i, c, room);
    var cl := worlds[i].clients[c];
    at := 0;
    if cl.joined <= k {
      at := PlaceOf(js, worlds[i], cl, ReadAll(cl.written, room).payloads, p, k);
    }
  }

  // ---- a complete run ----

  /** Some run ends in w. */
  ghost predicate Reached(js: Json, w: World) {
    exists worlds, moves :: IsRun(js, worlds, moves) && worlds[|moves|] == w
  }

  lemma ReachedInit(js: Json)
    ensures Reached(js, Init())
  {
    var worlds: seq<World>, moves: seq<Move> := [Init()], [];
    assert IsRun(js, worlds, moves) && worlds[|moves|] == Init();
  }

  lemma Step(js: Json, w: World, m: Move) returns (w': World)
    requires Reached(js, w) && Enabled(js, w, m)
    ensures w' == Next(js, w, m) && Reached(js, w')
  {
    w' := Next(js, w, m);
    var worlds, moves :| IsRun(js, worlds, moves) && worlds[|moves|] == w;
    var worlds', moves' := worlds + [w'], moves + [m];
    forall i | 0 <= i < |moves'|
      ensures Enabled(js, worlds'[i], moves'[i]) && worlds'[i + 1] == Next(js, worlds'[i], moves'[i])
    {
      if i < |moves| { assert worlds'[i] == worlds[i] && worlds'[i + 1] == worlds[i + 1]; }
    }
    assert IsRun(js, worlds', moves') && worlds'[|moves'|] == w';
  }

  /** Nobody is connected, and the ring of the one known host holds f. */
  ghost predicate OneFlow(w: World, f: Flow) {
    && w.mu.Unlocked? && w.clients == map[] && w.hub == {} && w.pending == map[]
    && w.reg.states.Keys == {f.host} && FlowsOf(w.reg, f.host) == [f]
  }

  lemma FirstFlow(js: Json, f: Flow) returns (w: World)
    requires f.host != ""
    ensures Reached(js, w) && OneFlow(w, f)
  {
    ReachedInit(js);
    w := Step(js, Init(), Other(Observe(f.host)));
    w := Step(js, w, Record(0, f));
    w := Step(js, w, BeginPublish(0));
    w := Step(js, w, EndPublish);
  }

  /** Client 1 is connected and served: these are the messages it was sent. */
  ghost predicate Served(w: World, sent: seq<Msg>) {
    && w.mu.Unlocked? && w.hub == {1} && w.pending == map[] && w.clients.Keys == {1}
    && w.clients[1].phase.Streaming? && w.clients[1].writer.Nobody? && w.clients[1].sent == sent
  }

  lemma FlowsAreRead(js: Json, w: World, f: Flow) returns (w': World)
    requires Reached(js, w) && OneFlow(w, f)
    ensures Reached(js, w') && w'.mu.Unlocked? && w'.hub == {1} && w'.pending == map[] && w'.clients.Keys == {1}
    ensures w'.clients[1].phase.Collecting? && w'.clients[1].writer.Nobody? && w'.clients[1].sent == []
    ensures |w'.clients[1].readAt| == |w'.clients[1].domains| && w'.clients[1].acc == [f]
  {
    w' := Step(js, w, Join(1));
    var order := [f.host];
    assert order[0] in order;
    w' := Step(js, w', ListDomains(1, order));
    w' := Step(js, w', ReadFlows(1));
    assert [] + [f] == [f];
  }

  lemma Joining(js: Json, w: World, f: Flow) returns (w': World)
    requires Reached(js, w) && OneFlow(w, f)
    ensures Reached(js, w') && Served(w', [Snapshot([f])])
  {
    w' := FlowsAreRead(js, w, f);
    w' := Step(js, w', BeginSnapshot(1));
    w' := Step(js, w', WriteSome(1, |FrameFor(js, Snapshot([f]))|));
    w' := Step(js, w', EndWrite(1));
  }

  /** Publish holds the lock and is serving client 1, or has served it. */
  ghost predicate Serving(w: World, sent: seq<Msg>, serving: Option<Cid>, writer: Writer) {
    && w.mu == Publishing({}, serving) && w.hub == {1} && w.pending == map[] && w.clients.Keys == {1}
    && w.clients[1].phase.Streaming? && w.clients[1].writer == writer && w.clients[1].sent == sent
  }

  lemma FlowIsPublished(js: Json, w: World, g: Flow, sent: seq<Msg>) returns (w': World)
    requires Reached(js, w) && Served(w, sent)
    ensures Reached(js, w') && Serving(w', sent, Some(1), Publisher(Live(g), 0))
  {
    w' := Step(js, w, Record(0, g));
    w' := Step(js, w', BeginPublish(0));
    assert w'.pending == map[] && w'.mu == Publishing({1}, None);
    w' := Step(js, w', BeginLive(1));
  }

  lemma FlowIsWritten(js: Json, w: World, g: Flow, sent: seq<Msg>) returns (w': World)
    requires Reached(js, w) && Serving(w, sent, Some(1), Publisher(Live(g), 0))
    ensures Reached(js, w') && Serving(w', sent + [Live(g)], None, Nobody)
  {
    w' := Step(js, w, WriteSome(1, |FrameFor(js, Live(g))|));
    w' := Step(js, w', EndWrite(1));
  }

  lemma SecondFlow(js: Json, w: World, g: Flow, sent: seq<Msg>) returns (w': World)
    requires Reached(js, w) && Served(w, sent)
    ensures Reached(js, w') && Served(w', sent + [Live(g)])
  {
    w' := FlowIsPublished(js, w, g, sent);
    w' := FlowIsWritten(js, w', g, sent);
    w' := Step(js, w', EndPublish);
  }

  /** The protocol gets there: for any two flows of any host there is a run in which the first is recorded, a client
      joins and reads, the second is published, and the client finds the snapshot with the first flow, then the
      second one, in its bytes; and it can leave. */
  lemma CompleteRunExists(js: Json, f: Flow, g: Flow, room: Room) returns (worlds: seq<World>, moves: seq<Move>)
    requires f.host != "" && |js.snapshot([f])| < room && |js.live(g)| < room
    ensures IsRun(js, worlds, moves) && worlds[|moves|].clients.Keys == {1}
    ensures var cl := worlds[|moves|].clients[1];
            ReadAll(cl.written, room).payloads == [js.snapshot([f]), js.live(g)]
    ensures Enabled(js, worlds[|moves|], Leave(1))
  {
    var w := FirstFlow(js, f);
    w := Joining(js, w, f);
    w := SecondFlow(js, w, g, [Snapshot([f])]);
    worlds, moves :| IsRun(js, worlds, moves) && worlds[|moves|] == w;
    assert [Snapshot([f])] + [Live(g)] == [Snapshot([f]), Live(g)];
    ServedReads(js, worlds, moves, f, g, room);
  }

  lemma ServedReads(js: Json, worlds: seq<World>, moves: seq<Move>, f: Flow, g: Flow, room: Room)
    requires IsRun(js, worlds, moves) && Served(worlds[|moves|], [Snapshot([f]), Live(g)])
    requires |js.snapshot([f])| < room && |js.live(g)| < room
    ensures ReadAll(worlds[|moves|].clients[1].written, room).payloads == [js.snapshot([f]), js.live(g)]
  {
    FramesAreNeverTorn(js, worlds, moves, |moves|, 1, room);
    TwoMarshalled(js, f, g, ReadAll(worlds[|moves|].clients[1].written, room).payloads);
  }

  lemma TwoMarshalled(js: Json, f: Flow, g: Flow, payloads: seq<seq<byte>>)
    requires AllMarshalled(js, [Snapshot([f]), Live(g)], payloads)
    ensures payloads == [js.snapshot([f]), js.live(g)]
  {
    var ms := [Snapshot([f]), Live(g)];
    assert Marshals(js, ms[0], payloads[0]) && Marshals(js, ms[1], payloads[1]);
  }
}
