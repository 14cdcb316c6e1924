/** sslkit/skytap_impersonate.c: a table of 256 slots that remembers a host and a certificate chain
    per SSL pointer.  The table is a cache: every answer is the one of a machine that remembers
    names only and loads the chain each time. */
module Impersonate {
  import opened Prelude

  /** An SSL*; 0 is NULL, and marks an empty slot. */
  type Ssl = nat
  type Chain = seq<string>

  const MAX_SSL: nat := 256

  /** The fixed surroundings: skytap_impersonate_on, skytap_impersonate_host and the PEM loader. */
  datatype Config = Config(on: bool, enabled: string -> bool, load: string -> Option<Chain>)

  datatype Face = Face(ssl: Ssl, host: string, chain: Option<Chain>)

  datatype Table = Table(faces: seq<Face>, last: string)

  // ---- the locked regions ----

  /** skytap_note_host. */
  function NoteHost(t: Table, name: string): Table {
    if name == "" then t else t.(last := name)
  }

  /** The first slot from i on that holds s. */
  function FindSlot(faces: seq<Face>, s: Ssl, i: nat): (r: Option<nat>)
    requires i <= |faces|
    ensures r.Some? ==> i <= r.value < |faces| && faces[r.value].ssl == s
    ensures r.Some? ==> forall k :: i <= k < r.value ==> faces[k].ssl != s
    ensures r.None? ==> forall k :: i <= k < |faces| ==> faces[k].ssl != s
    decreases |faces| - i
  {
    if i == |faces| then None else if faces[i].ssl == s then Some(i) else FindSlot(faces, s, i + 1)
  }

  datatype Found = Found(table: Table, slot: Option<nat>)

  /** skytap_face(s, 1): find the slot of s, or take the first empty one, or give up. */
  function FaceOf(t: Table, s: Ssl): Found {
    var mine := FindSlot(t.faces, s, 0);
    var empty := FindSlot(t.faces, 0, 0);
    if mine.Some? then Found(t, mine)
    else if empty.Some? then Found(t.(faces := t.faces[empty.value := Face(s, t.last, None)]), empty)
    else Found(t, None)
  }

  /** The locked write at the end of skytap_bind_host. */
  function BindWrite(t: Table, slot: Option<nat>, name: string): Table
    requires slot.Some? ==> slot.value < |t.faces|
  {
    if slot.None? then t
    else t.(faces := t.faces[slot.value := t.faces[slot.value].(host := name, chain := None)])
  }

  /** The host that skytap_chain_for_ssl settles on. */
  function PickHost(t: Table, slot: Option<nat>, sni: string): string
    requires slot.Some? ==> slot.value < |t.faces|
  {
    if sni != "" then sni
    else if slot.Some? && t.faces[slot.value].host != "" then t.faces[slot.value].host
    else t.last
  }

  /** The chain in the slot, if it is the one of that host. */
  function Cached(t: Table, slot: Option<nat>, host: string): Option<Chain>
    requires slot.Some? ==> slot.value < |t.faces|
  {
    if slot.Some? && t.faces[slot.value].host != "" && t.faces[slot.value].host == host
    then t.faces[slot.value].chain else None
  }

  /** The locked write after a load. */
  function Install(t: Table, slot: Option<nat>, host: string, chain: Chain): Table
    requires slot.Some? ==> slot.value < |t.faces|
  {
    if slot.None? then t
    else t.(faces := t.faces[slot.value := t.faces[slot.value].(host := host, chain := Some(chain))])
  }

  // ---- whole calls, run without interference ----

  function BindHost(t: Table, s: Ssl, name: string): Table {
    if s == 0 || name == "" then t
    else
      var f := FaceOf(NoteHost(t, name), s);
      BindWrite(f.table, f.slot, name)
  }

  datatype Answer = Answer(table: Table, chain: Option<Chain>)

  /** The part of skytap_chain_for_ssl behind skytap_face. */
  function PickOrLoad(cfg: Config, t: Table, slot: Option<nat>, sni: string): Answer
    requires slot.Some? ==> slot.value < |t.faces|
  {
    var host := PickHost(t, slot, sni);
    var cached := Cached(t, slot, host);
    if cached.Some? then Answer(t, cached)
    else if host == "" || !cfg.enabled(host) || cfg.load(host).None? then Answer(t, None)
    else Answer(Install(t, slot, host, cfg.load(host).value), cfg.load(host))
  }

  function ChainForSsl(cfg: Config, t: Table, s: Ssl, sni: string): Answer {
    if !cfg.on || s == 0 then Answer(t, None)
    else
      var f := FaceOf(t, s);
      PickOrLoad(cfg, f.table, f.slot, sni)
  }

  /** skytap_impersonate_leaf. */
  function Leaf(chain: Option<Chain>): Option<string> {
    if chain.None? || chain.value == [] then None else Some(chain.value[0])
  }

  // ---- the invariant of the table ----

  /** Occupied slots come first. */
  ghost predicate Prefix(faces: seq<Face>) {
    forall i, j :: 0 <= i < j < |faces| && faces[j].ssl != 0 ==> faces[i].ssl != 0
  }

  ghost predicate NoSharedSsl(faces: seq<Face>) {
    forall i, j :: 0 <= i < j < |faces| && faces[i].ssl != 0 ==> faces[i].ssl != faces[j].ssl
  }

  /** A cached chain is the chain of the slot's own, enabled, host. */
  ghost predicate ChainIsOwn(cfg: Config, f: Face) {
    f.chain.Some? ==> f.host != "" && cfg.enabled(f.host) && cfg.load(f.host) == f.chain
  }

  ghost predicate TableOk(cfg: Config, t: Table) {
    && |t.faces| == MAX_SSL
    && Prefix(t.faces) && NoSharedSsl(t.faces)
    && forall i :: 0 <= i < |t.faces| ==> ChainIsOwn(cfg, t.faces[i])
  }

  /** Occupied slots are never given to another SSL pointer. */
  ghost predicate NoEviction(t: Table, t': Table) {
    && |t.faces| == |t'.faces|
    && forall i :: 0 <= i < |t.faces| && t.faces[i].ssl != 0 ==> t'.faces[i].ssl == t.faces[i].ssl
  }

  lemma FaceKeepsTable(cfg: Config, t: Table, s: Ssl)
    requires TableOk(cfg, t) && s != 0
    ensures var f := FaceOf(t, s);
            && TableOk(cfg, f.table) && NoEviction(t, f.table) && f.table.last == t.last
            && (f.slot.Some? ==> f.slot.value < MAX_SSL && f.table.faces[f.slot.value].ssl == s)
            && (f.slot.None? ==>
                f.table == t && forall i :: 0 <= i < MAX_SSL ==> t.faces[i].ssl != 0 && t.faces[i].ssl != s)
  {
  }

  lemma WritesKeepTable(cfg: Config, t: Table, slot: Option<nat>, host: string, chain: Chain)
    requires TableOk(cfg, t) && (slot.Some? ==> slot.value < MAX_SSL)
    ensures TableOk(cfg, BindWrite(t, slot, host)) && NoEviction(t, BindWrite(t, slot, host))
    ensures host != "" && cfg.enabled(host) && cfg.load(host) == Some(chain) ==>
              TableOk(cfg, Install(t, slot, host, chain)) && NoEviction(t, Install(t, slot, host, chain))
  {
  }

  // ---- the uncached reference ----

  /** What the table means without its chains and slots: up to 256 pointers with a name each. */
  datatype Memory = Memory(names: map<Ssl, string>, last: string)

  function Remember(m: Memory, s: Ssl): Memory {
    if s in m.names || |m.names| >= MAX_SSL then m else m.(names := m.names[s := m.last])
  }

  function Rename(m: Memory, s: Ssl, host: string): Memory {
    if s in m.names then m.(names := m.names[s := host]) else m
  }

  function HostFor(m: Memory, s: Ssl, sni: string): string {
    if sni != "" then sni
    else if s in m.names && m.names[s] != "" then m.names[s]
    else m.last
  }

  /** The uncached answer: check the policy, load the file. */
  function LoadFor(cfg: Config, host: string): Option<Chain> {
    if host == "" || !cfg.enabled(host) then None else cfg.load(host)
  }

  function RefBind(m: Memory, s: Ssl, name: string): Memory {
    if s == 0 || name == "" then m else Rename(Remember(m.(last := name), s), s, name)
  }

  datatype RefAnswer = RefAnswer(memory: Memory, chain: Option<Chain>)

  function RefLoad(cfg: Config, m: Memory, s: Ssl, sni: string): RefAnswer {
    var host := HostFor(m, s, sni);
    var chain := LoadFor(cfg, host);
    RefAnswer(if chain.Some? then Rename(m, s, host) else m, chain)
  }

  function RefChain(cfg: Config, m: Memory, s: Ssl, sni: string): RefAnswer {
    if !cfg.on || s == 0 then RefAnswer(m, None) else RefLoad(cfg, Remember(m, s), s, sni)
  }

  /** The table t means the memory m. */
  ghost predicate Means(t: Table, m: Memory) {
    && t.last == m.last
    && (forall i :: 0 <= i < |t.faces| && t.faces[i].ssl != 0 ==>
          t.faces[i].ssl in m.names && m.names[t.faces[i].ssl] == t.faces[i].host)
    && (forall s :: s in m.names ==> s != 0 && exists i :: 0 <= i < |t.faces| && t.faces[i].ssl == s)
  }

  /** The pointers in the slots are exactly keys. */
  ghost predicate Holds(faces: seq<Face>, keys: set<Ssl>) {
    && (forall i :: 0 <= i < |faces| && faces[i].ssl != 0 ==> faces[i].ssl in keys)
    && (forall s :: s in keys ==> s != 0 && exists i :: 0 <= i < |faces| && faces[i].ssl == s)
  }

  lemma HoldsWithoutLast(faces: seq<Face>, keys: set<Ssl>)
    requires faces != [] && NoSharedSsl(faces) && Holds(faces, keys)
    ensures Holds(faces[..|faces| - 1], keys - {faces[|faces| - 1].ssl})
  {
    var n := |faces| - 1;
    var init, last := faces[..n], faces[n].ssl;
    forall s | s in keys - {last} ensures exists i :: 0 <= i < |init| && init[i].ssl == s {
      var i :| 0 <= i < |faces| && faces[i].ssl == s;
      assert init[i].ssl == s;
    }
  }

  ghost predicate NoEmptySlot(faces: seq<Face>) {
    forall i :: 0 <= i < |faces| ==> faces[i].ssl != 0
  }

  lemma NoEmptySlotLast(faces: seq<Face>)
    requires faces != []
    ensures NoEmptySlot(faces) <==> NoEmptySlot(faces[..|faces| - 1]) && faces[|faces| - 1].ssl != 0
  {
    var init := faces[..|faces| - 1];
    assert forall i :: 0 <= i < |init| ==> init[i] == faces[i];
  }

  lemma NoSharedSslInit(faces: seq<Face>)
    requires faces != [] && NoSharedSsl(faces)
    ensures NoSharedSsl(faces[..|faces| - 1])
  {
  }

  lemma SizeWithout(keys: set<Ssl>, s: Ssl)
    ensures |keys - {s}| == if s in keys then |keys| - 1 else |keys|
  {
    if s !in keys {
      assert keys - {s} == keys;
    }
  }

  /** The memory is full exactly when the table is. */
  lemma {:induction false} OccupiedCount(faces: seq<Face>, keys: set<Ssl>)
    requires NoSharedSsl(faces) && Holds(faces, keys)
    ensures |keys| <= |faces|
    ensures |keys| == |faces| <==> NoEmptySlot(faces)
  {
    if faces == [] {
      if s :| s in keys { assert false; }
    } else {
      var n := |faces| - 1;
      NoSharedSslInit(faces);
      HoldsWithoutLast(faces, keys);
      OccupiedCount(faces[..n], keys - {faces[n].ssl});
      SizeWithout(keys, faces[n].ssl);
      NoEmptySlotLast(faces);
      assert faces[n].ssl != 0 <==> faces[n].ssl in keys;
    }
  }

  lemma KnownMeansSlot(t: Table, m: Memory, s: Ssl)
    requires Means(t, m) && s != 0
    ensures FindSlot(t.faces, s, 0).Some? <==> s in m.names
  {
    if s in m.names {
      var i :| 0 <= i < |t.faces| && t.faces[i].ssl == s;
    }
  }

  lemma FullMeansFull(cfg: Config, t: Table, m: Memory)
    requires TableOk(cfg, t) && Means(t, m)
    ensures FindSlot(t.faces, 0, 0).None? <==> |m.names| >= MAX_SSL
  {
    OccupiedCount(t.faces, m.names.Keys);
  }

  lemma NewSlotMeans(t: Table, m: Memory, e: nat, s: Ssl)
    requires Means(t, m) && s != 0 && s !in m.names && e < |t.faces| && t.faces[e].ssl == 0
    ensures Means(t.(faces := t.faces[e := Face(s, t.last, None)]), m.(names := m.names[s := m.last]))
  {
    var faces := t.faces[e := Face(s, t.last, None)];
    var names := m.names[s := m.last];
    forall r | r in names ensures r != 0 && exists i :: 0 <= i < |faces| && faces[i].ssl == r {
      if r == s {
        assert faces[e].ssl == r;
      } else {
        var i :| 0 <= i < |t.faces| && t.faces[i].ssl == r;
        assert faces[i].ssl == r;
      }
    }
  }

  lemma FaceMeansRemember(cfg: Config, t: Table, m: Memory, s: Ssl)
    requires TableOk(cfg, t) && Means(t, m) && s != 0
    ensures Means(FaceOf(t, s).table, Remember(m, s))
    ensures FaceOf(t, s).slot.Some? <==> s in Remember(m, s).names
  {
    KnownMeansSlot(t, m, s);
    FullMeansFull(cfg, t, m);
    var empty := FindSlot(t.faces, 0, 0);
    if s !in m.names && empty.Some? {
      NewSlotMeans(t, m, empty.value, s);
    }
  }

  lemma WriteMeansRename(cfg: Config, t: Table, m: Memory, slot: Option<nat>, s: Ssl, f: Face)
    requires TableOk(cfg, t) && Means(t, m) && s != 0
    requires slot.Some? <==> s in m.names
    requires slot.Some? ==> slot.value < MAX_SSL && t.faces[slot.value].ssl == s && f.ssl == s
    ensures slot.Some? ==> Means(t.(faces := t.faces[slot.value := f]), Rename(m, s, f.host))
    ensures slot.None? ==> Rename(m, s, f.host) == m
  {
    if slot.Some? {
      var t' := t.(faces := t.faces[slot.value := f]);
      forall r | r in Rename(m, s, f.host).names ensures exists i :: 0 <= i < |t'.faces| && t'.faces[i].ssl == r {
        var i :| 0 <= i < |t.faces| && t.faces[i].ssl == r;
        assert t'.faces[i].ssl == r;
      }
    }
  }

  /** Binding refines the reference. */
  lemma BindRefines(cfg: Config, t: Table, m: Memory, s: Ssl, name: string)
    requires TableOk(cfg, t) && Means(t, m)
    ensures TableOk(cfg, BindHost(t, s, name)) && NoEviction(t, BindHost(t, s, name))
    ensures Means(BindHost(t, s, name), RefBind(m, s, name))
  {
    if s != 0 && name != "" {
      var t1, m1 := NoteHost(t, name), m.(last := name);
      FaceRefines(cfg, t1, m1, s);
      var f := FaceOf(t1, s);
      BindWriteRefines(cfg, f.table, Remember(m1, s), f.slot, s, name);
      NoEvictionChains(t, f.table, BindHost(t, s, name));
    }
  }

  lemma NoEvictionChains(t: Table, t': Table, t'': Table)
    requires NoEviction(t, t') && NoEviction(t', t'')
    ensures NoEviction(t, t'')
  {
  }

  lemma FaceRefines(cfg: Config, t: Table, m: Memory, s: Ssl)
    requires TableOk(cfg, t) && Means(t, m) && s != 0
    ensures var f, m' := FaceOf(t, s), Remember(m, s);
            && TableOk(cfg, f.table) && NoEviction(t, f.table) && Means(f.table, m')
            && (f.slot.Some? <==> s in m'.names)
            && (f.slot.Some? ==> f.slot.value < MAX_SSL && f.table.faces[f.slot.value].ssl == s)
  {
    FaceKeepsTable(cfg, t, s);
    FaceMeansRemember(cfg, t, m, s);
  }

  lemma BindWriteRefines(cfg: Config, t: Table, m: Memory, slot: Option<nat>, s: Ssl, name: string)
    requires TableOk(cfg, t) && Means(t, m) && s != 0
    requires slot.Some? <==> s in m.names
    requires slot.Some? ==> slot.value < MAX_SSL && t.faces[slot.value].ssl == s
    ensures var t' := BindWrite(t, slot, name);
            TableOk(cfg, t') && NoEviction(t, t') && Means(t', Rename(m, s, name))
  {
    WritesKeepTable(cfg, t, slot, name, []);
    WriteMeansRename(cfg, t, m, slot, s, Face(s, name, None));
  }

  /** The locked look at the slot: the same host, and a cached chain only if it is the right one. */
  lemma PickRefines(cfg: Config, t: Table, m: Memory, slot: Option<nat>, s: Ssl, sni: string)
    requires TableOk(cfg, t) && Means(t, m) && s != 0
    requires slot.Some? <==> s in m.names
    requires slot.Some? ==> slot.value < MAX_SSL && t.faces[slot.value].ssl == s
    ensures PickHost(t, slot, sni) == HostFor(m, s, sni)
    ensures var host := HostFor(m, s, sni);
            Cached(t, slot, host).Some? ==>
              Cached(t, slot, host) == LoadFor(cfg, host) && Rename(m, s, host) == m
  {
    if slot.Some? {
      assert ChainIsOwn(cfg, t.faces[slot.value]);
      assert m.names[s] == t.faces[slot.value].host;
      assert m.names[s := m.names[s]] == m.names;
    }
  }

  /** A lookup gives the uncached answer, and leaves the memory that the uncached lookup leaves. */
  lemma ChainRefines(cfg: Config, t: Table, m: Memory, s: Ssl, sni: string)
    requires TableOk(cfg, t) && Means(t, m)
    ensures var a, r := ChainForSsl(cfg, t, s, sni), RefChain(cfg, m, s, sni);
            && a.chain == r.chain && Means(a.table, r.memory)
            && TableOk(cfg, a.table) && NoEviction(t, a.table)
  {
    if cfg.on && s != 0 {
      FaceRefines(cfg, t, m, s);
      var f, m1 := FaceOf(t, s), Remember(m, s);
      PickOrLoadRefines(cfg, f.table, m1, f.slot, s, sni);
    }
  }

  lemma PickOrLoadRefines(cfg: Config, t: Table, m: Memory, slot: Option<nat>, s: Ssl, sni: string)
    requires TableOk(cfg, t) && Means(t, m) && s != 0
    requires slot.Some? <==> s in m.names
    requires slot.Some? ==> slot.value < MAX_SSL && t.faces[slot.value].ssl == s
    ensures var a, r := PickOrLoad(cfg, t, slot, sni), RefLoad(cfg, m, s, sni);
            && a.chain == r.chain && Means(a.table, r.memory)
            && TableOk(cfg, a.table) && NoEviction(t, a.table)
  {
    PickRefines(cfg, t, m, slot, s, sni);
    var host := HostFor(m, s, sni);
    if Cached(t, slot, host).None? && LoadFor(cfg, host).Some? {
      InstallRefines(cfg, t, m, slot, s, host);
    }
  }

  lemma InstallRefines(cfg: Config, t: Table, m: Memory, slot: Option<nat>, s: Ssl, host: string)
    requires TableOk(cfg, t) && Means(t, m) && s != 0 && LoadFor(cfg, host).Some?
    requires slot.Some? <==> s in m.names
    requires slot.Some? ==> slot.value < MAX_SSL && t.faces[slot.value].ssl == s
    ensures var t' := Install(t, slot, host, LoadFor(cfg, host).value);
            Means(t', Rename(m, s, host)) && TableOk(cfg, t') && NoEviction(t, t')
  {
    var chain := LoadFor(cfg, host).value;
    WritesKeepTable(cfg, t, slot, host, chain);
    WriteMeansRename(cfg, t, m, slot, s, Face(s, host, Some(chain)));
  }

  // ---- histories ----

  datatype Call = Bind(s: Ssl, name: string) | Lookup(s: Ssl, sni: string)

  /** The statically zeroed table. */
  function Zeroed(): Table {
    Table(seq(MAX_SSL, i => Face(0, "", None)), "")
  }

  function RunTable(cfg: Config, calls: seq<Call>): Answer {
    if calls == [] then Answer(Zeroed(), None)
    else
      var before := RunTable(cfg, calls[..|calls| - 1]).table;
      match calls[|calls| - 1]
      case Bind(s, name) => Answer(BindHost(before, s, name), None)
      case Lookup(s, sni) => ChainForSsl(cfg, before, s, sni)
  }

  function RunMemory(cfg: Config, calls: seq<Call>): RefAnswer {
    if calls == [] then RefAnswer(Memory(map[], ""), None)
    else
      var before := RunMemory(cfg, calls[..|calls| - 1]).memory;
      match calls[|calls| - 1]
      case Bind(s, name) => RefAnswer(RefBind(before, s, name), None)
      case Lookup(s, sni) => RefChain(cfg, before, s, sni)
  }

  /** After any history of calls the next answer is the uncached one, full table included. */
  lemma {:induction false} CacheIsTransparent(cfg: Config, calls: seq<Call>)
    ensures RunTable(cfg, calls).chain == RunMemory(cfg, calls).chain
    ensures Means(RunTable(cfg, calls).table, RunMemory(cfg, calls).memory)
    ensures TableOk(cfg, RunTable(cfg, calls).table)
  {
    if calls != [] {
      var init := calls[..|calls| - 1];
      CacheIsTransparent(cfg, init);
      var t, m := RunTable(cfg, init).table, RunMemory(cfg, init).memory;
      match calls[|calls| - 1]
      case Bind(s, name) => BindRefines(cfg, t, m, s, name);
      case Lookup(s, sni) => ChainRefines(cfg, t, m, s, sni);
    }
  }

  /** A new pointer is remembered by a bind exactly while fewer than 256 are. */
  lemma BindRemembersExactlyWhenRoom(cfg: Config, calls: seq<Call>, s: Ssl, name: string)
    requires s != 0 && name != ""
    ensures var before, after := RunMemory(cfg, calls).memory, RunMemory(cfg, calls + [Bind(s, name)]).memory;
            && (s in after.names <==> s in before.names || |before.names| < 256)
            && (s in after.names ==> after.names[s] == name) && after.last == name
            && forall r :: r != s ==> (r in after.names <==> r in before.names)
                                      && (r in before.names ==> after.names[r] == before.names[r])
  {
    assert (calls + [Bind(s, name)])[..|calls|] == calls;
  }

  /** The certificate shown after any history: the first one that the directory has for the host, which is the
      server name, else the name remembered for the pointer, else the last one noted; if impersonation is on and the
      host enabled. */
  lemma LeafIsFirstCertificate(cfg: Config, calls: seq<Call>, s: Ssl, sni: string, x: string)
    ensures var m := RunMemory(cfg, calls).memory;
            var host := if sni != "" then sni
                        else if s in m.names && m.names[s] != "" then m.names[s]
                        else m.last;
            Leaf(ChainForSsl(cfg, RunTable(cfg, calls).table, s, sni).chain) == Some(x) <==>
            && cfg.on && s != 0 && host != "" && cfg.enabled(host)
            && cfg.load(host).Some? && cfg.load(host).value != [] && cfg.load(host).value[0] == x
  {
    CacheIsTransparent(cfg, calls);
    ChainRefines(cfg, RunTable(cfg, calls).table, RunMemory(cfg, calls).memory, s, sni);
  }

  lemma SlotIsFound(faces: seq<Face>, s: Ssl, i: nat)
    requires NoSharedSsl(faces) && s != 0 && i < |faces| && faces[i].ssl == s
    ensures FindSlot(faces, s, 0) == Some(i)
  {
  }

  /** What a lookup has cached is handed out to the next one of the same pointer, under any policy that is on,
      without another load. */
  lemma SecondLookupHits(cfg: Config, other: Config, t: Table, s: Ssl, sni: string)
    requires TableOk(cfg, t) && cfg.on && other.on && s != 0
    requires var a := ChainForSsl(cfg, t, s, sni); a.chain.Some? && FaceOf(t, s).slot.Some?
    ensures var a := ChainForSsl(cfg, t, s, sni); ChainForSsl(other, a.table, s, sni) == a
  {
    var a, f := ChainForSsl(cfg, t, s, sni), FaceOf(t, s);
    FaceKeepsTable(cfg, t, s);
    var host := PickHost(f.table, f.slot, sni);
    if Cached(f.table, f.slot, host).None? {
      WritesKeepTable(cfg, f.table, f.slot, host, a.chain.value);
      assert a.table == Install(f.table, f.slot, host, a.chain.value);
    }
    SlotIsFound(a.table.faces, s, f.slot.value);
    assert FaceOf(a.table, s) == Found(a.table, f.slot);
    assert PickHost(a.table, f.slot, sni) == host;
    assert ChainIsOwn(cfg, f.table.faces[f.slot.value]);
  }
}
