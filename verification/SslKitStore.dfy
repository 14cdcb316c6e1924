/** The store of sslkit.go as an object: a map that Put, Capture and refreshLocked reassign, and the
    client file that only persistLocked writes.  Every method is proved to be the step of module
    SslKit with its name. */
module SslKitStore {
  import opened Prelude
  import opened SslKit

  class SSLKitStore {
    const hasDataDir: bool
    var hosts: Hosts
    /** The contents of skytap-ssl.conf on disk. */
    var conf: string

    ghost function State(): Store
      reads this
    {
      Store(hosts, conf)
    }

    /** NewSSLKitStore on the decoded sslkit.json: the client file is written in any case. */
    constructor (hasDataDir: bool, saved: Hosts)
      ensures this.hasDataDir == hasDataDir && hosts == saved
      ensures IsRendering(conf, hosts)
    {
      this.hasDataDir := hasDataDir;
      hosts, conf := saved, "";
      new;
      WriteClientConfLocked();
    }

    method WriteClientConfLocked()
      modifies this`conf
      ensures hosts == old(hosts) && IsRendering(conf, hosts)
    {
      var kit, imp, pins, vers: seq<string> := [], [], [], [];
      ghost var order: seq<string> := [];
      var todo := hosts.Keys;
      while todo != {}
        invariant Collected(hosts, todo, order, kit, imp, pins, vers)
        decreases |todo|
      {
        var k :| k in todo;
        var p := hosts[k];
        CollectOne(hosts, todo, order, kit, imp, pins, vers, k);
        if p.kit { kit := kit + [p.host]; }
        if p.impersonate { imp := imp + [p.host]; }
        if p.pin != "" { pins := pins + [p.host + "=" + p.pin]; }
        if p.verify != "" { vers := vers + [p.host + "=" + p.verify]; }
        order, todo := order + [k], todo - {k};
      }
      conf := Body(kit, imp, pins, vers);
      AllCollected(hosts, order, kit, imp, pins, vers);
    }

    method PersistLocked()
      modifies this`conf
      ensures Persisted(hasDataDir, old(conf), State())
    {
      if !hasDataDir { return; }
      WriteClientConfLocked();
    }

    method RefreshLocked(p: HostPolicy, pem: PemDir) returns (q: HostPolicy)
      modifies this`hosts
      ensures q == Refreshed(p, pem(p.host))
      ensures hosts == HostsAfterRefresh(old(hosts), p, pem)
    {
      match pem(p.host)
      case NoDumpDir => q := p;
      case Unreadable => q := p.(captured := false);
      case NotACertificate => q := p;
      case Certificate(spki, subject, issuer) =>
        q := p.(spki := spki, subject := subject, issuer := issuer, captured := true);
        hosts := hosts[p.host := q];
    }

    method Get(host: string, pem: PemDir) returns (p: HostPolicy)
      modifies this
      ensures Next(hasDataDir, old(State()), OpGet(host), pem, State())
      ensures p == if Normalise(host) in old(hosts)
                   then Refreshed(old(hosts)[Normalise(host)], pem(old(hosts)[Normalise(host)].host))
                   else HostPolicy(Normalise(host), false, false, "off", "ca", false, "", "", "")
    {
      var key := Normalise(host);
      if key !in hosts {
        return HostPolicy(key, false, false, "off", "ca", false, "", "", "");
      }
      p := RefreshLocked(hosts[key], pem);
    }

    /** The list order is the iteration order of the map.  Refreshing can add the entry of another key
        while the loop runs, when a saved map is not keyed by its entries' hosts; the runtime may or may
        not visit such an entry. */
    method All(pem: PemDir) returns (out: seq<HostPolicy>, ghost order: seq<string>)
      modifies this`hosts
      ensures conf == old(conf) && AllResult(hasDataDir, conf, old(hosts), hosts, out, order, pem)
    {
      out, order := [], [];
      ghost var was, bare := hosts, BareEntries(hosts);
      var todo := hosts.Keys;
      VisitBegins(was, pem);
      while todo != {}
        invariant Visiting(was, hosts, todo, out, order, pem) && Sourced(bare, hosts, out, pem)
        invariant Settled(was, hosts, out, pem)
        decreases Adding(hosts, todo), |todo|
      {
        var k :| k in todo;
        ghost var before := hosts;
        var p, more := Visit(k, pem);
        VisitStep(was, before, todo, out, order, pem, k, more);
        VisitEnds(before, todo, pem, k, more);
        VisitKeepsSource(bare, before, out, pem, k);
        VisitSettles(was, before, out, pem, k);
        out, order, todo := out + [p], order + [k], todo - {k} + more;
      }
      AllVisited(was, hosts, out, order, pem, hasDataDir, conf);
    }

    /** Refreshes one entry; `more` is the key that this adds, if the loop is to visit it. */
    method Visit(k: string, pem: PemDir) returns (p: HostPolicy, more: set<string>)
      requires k in hosts
      modifies this`hosts
      ensures hosts == HostsAfterRefresh(old(hosts), old(hosts)[k], pem)
      ensures p == Refreshed(old(hosts)[k], pem(old(hosts)[k].host))
      ensures more == {} || (hosts.Keys != old(hosts).Keys && more == {old(hosts)[k].host})
    {
      var before := hosts;
      p := RefreshLocked(hosts[k], pem);
      more := {};
      if hosts.Keys != before.Keys {
        if * { more := {before[k].host}; }
      }
    }

    /** The common end of Put and Capture: refresh the entry, store it, persist. */
    method StoreEntry(p: HostPolicy, pem: PemDir) returns (q: HostPolicy)
      modifies this
      ensures q == Refreshed(p, pem(p.host)) && hosts == old(hosts)[p.host := q]
      ensures Persisted(hasDataDir, old(conf), State())
    {
      q := RefreshLocked(p, pem);
      hosts := hosts[q.host := q];
      PersistLocked();
    }

    method Put(p: HostPolicy, pem: PemDir) returns (q: HostPolicy)
      modifies this
      ensures Next(hasDataDir, old(State()), OpPut(p), pem, State())
      ensures q == PutEntry(old(hosts), p, pem)
    {
      q := p.(host := Normalise(p.host));
      if q.pin == "" { q := q.(pin := "off"); }
      if q.verify == "" { q := q.(verify := "ca"); }
      var cur := Lookup(hosts, q.host);
      if q.spki == "" {
        q := q.(spki := cur.spki, subject := cur.subject, issuer := cur.issuer, captured := cur.captured);
      }
      StoredUnderOwnName(hosts, p, "", pem);
      q := StoreEntry(q, pem);
    }

    /** dumped: whether DumpOriginChain succeeded. */
    method Capture(host: string, dumped: bool, pem: PemDir) returns (r: Option<HostPolicy>)
      modifies this
      ensures Next(hasDataDir, old(State()), OpCapture(host, dumped), pem, State())
      ensures r == if Normalise(host) == "" || !dumped then None
                   else Some(CaptureEntry(old(hosts), Normalise(host), pem))
    {
      var key := Normalise(host);
      if key == "" || !dumped { return None; }
      var p := Lookup(hosts, key).(host := key);
      if p.pin == "" { p := p.(pin := "off"); }
      if p.verify == "" { p := p.(verify := "ca"); }
      p := StoreEntry(p, pem);
      r := Some(p);
    }

    method ImpersonateEnabledFor(host: string) returns (r: bool)
      ensures r == ImpersonateEnabled(hosts, host)
    {
      var key := Normalise(host);
      r := key in hosts && hosts[key].impersonate;
    }
  }

  /** All has refreshed the entries outside todo. */
  ghost predicate PartlyRefreshed(was: Hosts, now: Hosts, todo: set<string>, pem: PemDir) {
    && now.Keys == was.Keys
    && forall k :: k in was ==> now[k] == if k in todo then was[k] else HostsAfterAll(was, pem)[k]
  }

  lemma RefreshOne(was: Hosts, now: Hosts, todo: set<string>, k: string, pem: PemDir)
    requires Keyed(was) && k in todo && todo <= was.Keys && PartlyRefreshed(was, now, todo, pem)
    ensures PartlyRefreshed(was, HostsAfterRefresh(now, now[k], pem), todo - {k}, pem)
  {
    assert now[k] == was[k] && was[k].host == k;
    RefreshInPlace(now, k, pem);
    var next := HostsAfterRefresh(now, now[k], pem);
    assert next[k] == HostsAfterAll(was, pem)[k];
  }

  lemma RefreshInPlace(now: Hosts, k: string, pem: PemDir)
    requires k in now && now[k].host == k
    ensures var next := HostsAfterRefresh(now, now[k], pem);
            && next.Keys == now.Keys && (forall x :: x in now && x != k ==> next[x] == now[x])
            && next[k] == if pem(k).Certificate? then Refreshed(now[k], pem(k)) else now[k]
  {
  }

  /** The list holds the refreshed entries outside todo, in the order given. */
  ghost predicate Listed(out: seq<HostPolicy>, order: seq<string>, was: Hosts, todo: set<string>, pem: PemDir) {
    && Enumerates(order, was.Keys - todo) && |out| == |order|
    && (forall i :: 0 <= i < |order| ==> order[i] in was)
    && forall i :: 0 <= i < |order| ==> out[i] == Refreshed(was[order[i]], pem(order[i]))
  }

  lemma ListOne(out: seq<HostPolicy>, order: seq<string>, was: Hosts, todo: set<string>, k: string, pem: PemDir)
    requires k in todo && todo <= was.Keys && Listed(out, order, was, todo, pem)
    ensures Listed(out + [Refreshed(was[k], pem(k))], order + [k], was, todo - {k}, pem)
  {
    ExtendOrder(order, was, todo, k);
  }

  /** No entry is gone, and added entries stand under their own hosts. */
  ghost predicate Grown(was: Hosts, now: Hosts) {
    && was.Keys <= now.Keys
    && forall k :: k in now && k !in was ==> now[k].host == k
  }

  /** An entry without its captured data. */
  function Bare(p: HostPolicy): HostPolicy { p.(captured := false, spki := "", subject := "", issuer := "") }

  function BareEntries(hosts: Hosts): set<HostPolicy> {
    set k | k in hosts :: Bare(hosts[k])
  }

  /** The captured data are those of the host's file, as far as that says something. */
  predicate Fresh(p: HostPolicy, pem: PemDir) {
    match pem(p.host)
    case Certificate(spki, subject, issuer) =>
      p.captured && p.spki == spki && p.subject == subject && p.issuer == issuer
    case Unreadable => !p.captured
    case _ => true
  }

  /** Every stored and every listed entry is one of the bare ones, captured data aside, and the listed
      ones are refreshed. */
  ghost predicate Sourced(bare: set<HostPolicy>, now: Hosts, out: seq<HostPolicy>, pem: PemDir) {
    && (forall k {:trigger Bare(now[k])} :: k in now ==> Bare(now[k]) in bare)
    && (forall i {:trigger Bare(out[i])} :: 0 <= i < |out| ==> Bare(out[i]) in bare && Fresh(out[i], pem))
  }

  lemma RefreshedIsFresh(p: HostPolicy, pem: PemDir)
    ensures var q := Refreshed(p, pem(p.host)); Bare(q) == Bare(p) && Fresh(q, pem)
  {
  }

  lemma VisitKeepsSource(bare: set<HostPolicy>, now: Hosts, out: seq<HostPolicy>, pem: PemDir, k: string)
    requires Sourced(bare, now, out, pem) && k in now
    ensures var q := Refreshed(now[k], pem(now[k].host));
            Sourced(bare, HostsAfterRefresh(now, now[k], pem), out + [q], pem)
  {
    RefreshedIsFresh(now[k], pem);
    var q, next := Refreshed(now[k], pem(now[k].host)), HostsAfterRefresh(now, now[k], pem);
    assert Bare(now[k]) in bare;
    forall x | x in next ensures Bare(next[x]) in bare {
      assert next[x] == q || (x in now && next[x] == now[x]);
      assert x in now ==> Bare(now[x]) in bare;
    }
    forall i | 0 <= i < |out| + 1 ensures Bare((out + [q])[i]) in bare && Fresh((out + [q])[i], pem) {
      assert i < |out| ==> Bare(out[i]) in bare;
    }
  }

  /** The loop has stored an entry under k: one of the listed ones has that host, and a certificate. */
  ghost predicate Stored(out: seq<HostPolicy>, k: string, pem: PemDir) {
    pem(k).Certificate? && exists i :: 0 <= i < |out| && out[i].host == k
  }

  /** Under such a key stands a listed entry of that host, under every other one what was there before. */
  ghost predicate Settled(was: Hosts, now: Hosts, out: seq<HostPolicy>, pem: PemDir) {
    && (forall k :: Stored(out, k, pem) ==> k in now && now[k] in out && now[k].host == k)
    && (forall k :: !Stored(out, k, pem) ==> (k in now <==> k in was))
    && (forall k :: k in now && !Stored(out, k, pem) ==> now[k] == was[k])
  }

  lemma StoredMore(out: seq<HostPolicy>, q: HostPolicy, k: string, pem: PemDir)
    ensures Stored(out + [q], k, pem) <==> Stored(out, k, pem) || (q.host == k && pem(k).Certificate?)
  {
    var all := out + [q];
    assert all[|out|] == q && forall i :: 0 <= i < |out| ==> all[i] == out[i];
  }

  lemma VisitSettles(was: Hosts, now: Hosts, out: seq<HostPolicy>, pem: PemDir, k: string)
    requires Settled(was, now, out, pem) && k in now
    ensures Settled(was, HostsAfterRefresh(now, now[k], pem), out + [Refreshed(now[k], pem(now[k].host))], pem)
  {
    var q := Refreshed(now[k], pem(now[k].host));
    RefreshedIsFresh(now[k], pem);
    assert q.host == now[k].host && (out + [q])[|out|] == q;
    forall x ensures Stored(out + [q], x, pem) <==> Stored(out, x, pem) || (q.host == x && pem(x).Certificate?) {
      StoredMore(out, q, x, pem);
    }
  }

  /** Where the loop of All stands: the keys in todo are still to be visited. */
  ghost predicate Visiting(was: Hosts, now: Hosts, todo: set<string>, out: seq<HostPolicy>,
                           order: seq<string>, pem: PemDir) {
    && Grown(was, now) && todo <= now.Keys
    && |out| == |order| && (forall k :: k in was ==> k in order || k in todo)
    && (Keyed(was) ==> todo <= was.Keys && Listed(out, order, was, todo, pem) && PartlyRefreshed(was, now, todo, pem))
  }

  /** The keys to be visited whose refresh could still add an entry. */
  function Adding(hosts: Hosts, todo: set<string>): nat { |Adders(hosts, todo)| }

  function Adders(hosts: Hosts, todo: set<string>): set<string> {
    set k | k in todo && k in hosts && hosts[k].host !in hosts
  }

  lemma VisitBegins(was: Hosts, pem: PemDir)
    ensures Visiting(was, was, was.Keys, [], [], pem)
  {
    assert was.Keys - was.Keys == {};
  }

  lemma AddedKey(now: Hosts, k: string, pem: PemDir)
    requires k in now
    ensures var next := HostsAfterRefresh(now, now[k], pem);
            && Refreshed(now[k], pem(now[k].host)).host == now[k].host
            && (next.Keys == now.Keys ||
                (next.Keys == now.Keys + {now[k].host} && next[now[k].host].host == now[k].host))
  {
  }

  /** Visiting k; `more` is empty, or the key that this visit has added. */
  lemma VisitStep(was: Hosts, now: Hosts, todo: set<string>, out: seq<HostPolicy>, order: seq<string>, pem: PemDir,
                  k: string, more: set<string>)
    requires Visiting(was, now, todo, out, order, pem) && k in todo
    requires var next := HostsAfterRefresh(now, now[k], pem);
      more == {} || (next.Keys != now.Keys && more == {now[k].host})
    ensures Visiting(was, HostsAfterRefresh(now, now[k], pem), todo - {k} + more,
                     out + [Refreshed(now[k], pem(now[k].host))], order + [k], pem)
  {
    var next := HostsAfterRefresh(now, now[k], pem);
    AddedKey(now, k, pem);
    assert Grown(was, next);
    if Keyed(was) {
      KeyedVisit(was, now, todo, k, out, order, pem);
      assert todo - {k} + {} == todo - {k};
    }
  }

  lemma KeyedVisit(was: Hosts, now: Hosts, todo: set<string>, k: string,
                   out: seq<HostPolicy>, order: seq<string>, pem: PemDir)
    requires Keyed(was) && todo <= was.Keys && k in todo
    requires Listed(out, order, was, todo, pem) && PartlyRefreshed(was, now, todo, pem)
    ensures now[k] == was[k] && now[k].host == k && HostsAfterRefresh(now, now[k], pem).Keys == now.Keys
    ensures Listed(out + [Refreshed(now[k], pem(now[k].host))], order + [k], was, todo - {k}, pem)
    ensures PartlyRefreshed(was, HostsAfterRefresh(now, now[k], pem), todo - {k}, pem)
  {
    RefreshOne(was, now, todo, k, pem);
    ListOne(out, order, was, todo, k, pem);
  }

  /** Every visit brings the loop nearer to its end. */
  lemma VisitEnds(now: Hosts, todo: set<string>, pem: PemDir, k: string, more: set<string>)
    requires todo <= now.Keys && k in todo
    requires var next := HostsAfterRefresh(now, now[k], pem);
      more == {} || (next.Keys != now.Keys && more == {now[k].host})
    ensures var next := HostsAfterRefresh(now, now[k], pem);
            var todo' := todo - {k} + more;
            Adding(next, todo') < Adding(now, todo) || (Adding(next, todo') <= Adding(now, todo) && |todo'| < |todo|)
  {
    var next := HostsAfterRefresh(now, now[k], pem);
    var todo' := todo - {k} + more;
    AddersShrink(now, todo, pem, k, more);
    SubsetCount(Adders(next, todo'), Adders(now, todo));
    if next.Keys != now.Keys {
      SubsetCount(Adders(next, todo'), Adders(now, todo) - {k});
    } else {
      assert todo' == todo - {k};
    }
  }

  lemma AddersShrink(now: Hosts, todo: set<string>, pem: PemDir, k: string, more: set<string>)
    requires todo <= now.Keys && k in todo
    requires var next := HostsAfterRefresh(now, now[k], pem);
      more == {} || (next.Keys != now.Keys && more == {now[k].host})
    ensures var next := HostsAfterRefresh(now, now[k], pem);
            && Adders(next, todo - {k} + more) <= Adders(now, todo)
            && (next.Keys != now.Keys ==> k in Adders(now, todo) && k !in Adders(next, todo - {k} + more))
  {
    AddedKey(now, k, pem);
  }

  lemma SubsetCount(a: set<string>, b: set<string>)
    requires a <= b
    ensures |a| <= |b|
  {
    assert b == a + (b - a);
  }

  /** What All does.  On every map: no entry is lost and every one is listed, all go back to old ones, and
      each key holds a listed entry of its own host if there is one with a certificate, else what it held.
      On a keyed map: exactly the All step, every entry once. */
  ghost predicate AllResult(hasDataDir: bool, conf: string, was: Hosts, now: Hosts,
                            out: seq<HostPolicy>, order: seq<string>, pem: PemDir) {
    && Grown(was, now) && |out| == |order| && (forall k :: k in was ==> k in order)
    && Sourced(BareEntries(was), now, out, pem) && Settled(was, now, out, pem)
    && (Keyed(was) ==>
          && Listed(out, order, was, {}, pem)
          && Next(hasDataDir, Store(was, conf), OpAll, pem, Store(now, conf)))
  }

  lemma AllVisited(was: Hosts, now: Hosts, out: seq<HostPolicy>, order: seq<string>, pem: PemDir,
                   hasDataDir: bool, conf: string)
    requires Visiting(was, now, {}, out, order, pem) && Sourced(BareEntries(was), now, out, pem)
    requires Settled(was, now, out, pem)
    ensures AllResult(hasDataDir, conf, was, now, out, order, pem)
  {
    if Keyed(was) {
      assert now == HostsAfterAll(was, pem);
    }
  }

  /** The loop of writeClientConfLocked has listed the entries outside todo. */
  ghost predicate Collected(hosts: Hosts, todo: set<string>, order: seq<string>,
                            kit: seq<string>, imp: seq<string>, pins: seq<string>, vers: seq<string>) {
    && todo <= hosts.Keys && Enumerates(order, hosts.Keys - todo) && (forall k :: k in order ==> k in hosts)
    && kit == KitNames(order, hosts) && imp == ImpersonateNames(order, hosts)
    && pins == PinEntries(order, hosts) && vers == VerifyEntries(order, hosts)
  }

  lemma CollectOne(hosts: Hosts, todo: set<string>, order: seq<string>,
                   kit: seq<string>, imp: seq<string>, pins: seq<string>, vers: seq<string>, k: string)
    requires Collected(hosts, todo, order, kit, imp, pins, vers) && k in todo
    ensures var p := hosts[k];
            Collected(hosts, todo - {k}, order + [k],
                      if p.kit then kit + [p.host] else kit,
                      if p.impersonate then imp + [p.host] else imp,
                      if p.pin != "" then pins + [p.host + "=" + p.pin] else pins,
                      if p.verify != "" then vers + [p.host + "=" + p.verify] else vers)
  {
    ExtendOrder(order, hosts, todo, k);
  }

  lemma AllCollected(hosts: Hosts, order: seq<string>,
                     kit: seq<string>, imp: seq<string>, pins: seq<string>, vers: seq<string>)
    requires Collected(hosts, {}, order, kit, imp, pins, vers)
    ensures IsRendering(Body(kit, imp, pins, vers), hosts)
  {
    assert hosts.Keys - {} == hosts.Keys;
    assert IsRenderingIn(order, Body(kit, imp, pins, vers), hosts);
  }

  lemma ExtendOrder(order: seq<string>, hosts: Hosts, todo: set<string>, k: string)
    requires todo <= hosts.Keys && k in todo && Enumerates(order, hosts.Keys - todo)
    ensures Enumerates(order + [k], hosts.Keys - (todo - {k}))
    ensures (order + [k])[..|order|] == order
  {
  }
}
