/** sslkit.go: the host policy store, the client configuration file it renders, and the invariant
    that ties the file on disk to the map in memory over every run. */
module SslKit {
  import opened Prelude
  import opened CStrings
  import opened GoStrings

  datatype HostPolicy = HostPolicy(host: string, kit: bool, impersonate: bool, pin: string, verify: string,
                                   captured: bool, spki: string, subject: string, issuer: string)

  type Hosts = map<string, HostPolicy>

  /** What reading <dump dir>/<host>.pem gives; the PEM and X.509 codecs are not modelled. */
  datatype PemRead =
    | NoDumpDir
    | Unreadable
    | NotACertificate
    | Certificate(spki: string, subject: string, issuer: string)

  type PemDir = string -> PemRead

  // ---- host names ----

  function Normalise(host: string): string { Lower(TrimSpace(host)) }

  lemma LowerKeepsSpaces(s: string, i: nat)
    requires i < |s|
    ensures Lower(s)[i] in SPACES <==> s[i] in SPACES
    ensures !IsUpper(Lower(s)[i])
  {
  }

  /** A normalised name is its own normal form, so map keys can be looked up by themselves. */
  lemma NormaliseIdempotent(host: string)
    ensures Normalise(Normalise(host)) == Normalise(host)
  {
    var i, j := TrimIsInner(host, SPACES);
    var t := TrimSpace(host);
    var n := Normalise(host);
    if t != [] {
      LowerKeepsSpaces(t, 0);
      LowerKeepsSpaces(t, |t| - 1);
    }
    TrimOfSolid(n, SPACES);
    forall c | c in n ensures !IsUpper(c) {
      var k :| 0 <= k < |n| && n[k] == c;
      LowerKeepsSpaces(t, k);
    }
    LowerOfLower(n);
  }

  // ---- the operations on the map ----

  /** The entry that refreshLocked returns. */
  function Refreshed(p: HostPolicy, r: PemRead): HostPolicy {
    match r
    case NoDumpDir => p
    case Unreadable => p.(captured := false)
    case NotACertificate => p
    case Certificate(spki, subject, issuer) =>
      p.(spki := spki, subject := subject, issuer := issuer, captured := true)
  }

  /** The map after refreshLocked(p): written only when a certificate was read. */
  function HostsAfterRefresh(hosts: Hosts, p: HostPolicy, pem: PemDir): Hosts {
    if pem(p.host).Certificate? then hosts[p.host := Refreshed(p, pem(p.host))] else hosts
  }

  function HostsAfterGet(hosts: Hosts, key: string, pem: PemDir): Hosts {
    if key in hosts then HostsAfterRefresh(hosts, hosts[key], pem) else hosts
  }

  function HostsAfterAll(hosts: Hosts, pem: PemDir): Hosts {
    map k | k in hosts :: if pem(hosts[k].host).Certificate? then Refreshed(hosts[k], pem(hosts[k].host)) else hosts[k]
  }

  function Blank(host: string): HostPolicy {
    HostPolicy(host, false, false, "", "", false, "", "", "")
  }

  function Lookup(hosts: Hosts, key: string): HostPolicy {
    if key in hosts then hosts[key] else Blank("")
  }

  function WithDefaults(p: HostPolicy): HostPolicy {
    p.(pin := if p.pin == "" then "off" else p.pin, verify := if p.verify == "" then "ca" else p.verify)
  }

  /** The entry that Put stores. */
  function PutEntry(hosts: Hosts, p: HostPolicy, pem: PemDir): HostPolicy {
    var q := WithDefaults(p.(host := Normalise(p.host)));
    var cur := Lookup(hosts, q.host);
    var q := if q.spki == ""
             then q.(spki := cur.spki, subject := cur.subject, issuer := cur.issuer, captured := cur.captured)
             else q;
    Refreshed(q, pem(q.host))
  }

  /** The entry that Capture stores once the origin chain was dumped. */
  function CaptureEntry(hosts: Hosts, key: string, pem: PemDir): HostPolicy {
    Refreshed(WithDefaults(Lookup(hosts, key).(host := key)), pem(key))
  }

  function ImpersonateEnabled(hosts: Hosts, host: string): bool {
    Normalise(host) in hosts && hosts[Normalise(host)].impersonate
  }

  // ---- the file ----

  function KitNames(order: seq<string>, hosts: Hosts): seq<string>
    requires forall k :: k in order ==> k in hosts
  {
    if order == [] then []
    else KitNames(order[..|order| - 1], hosts) +
         (var p := hosts[order[|order| - 1]]; if p.kit then [p.host] else [])
  }

  function ImpersonateNames(order: seq<string>, hosts: Hosts): seq<string>
    requires forall k :: k in order ==> k in hosts
  {
    if order == [] then []
    else ImpersonateNames(order[..|order| - 1], hosts) +
         (var p := hosts[order[|order| - 1]]; if p.impersonate then [p.host] else [])
  }

  function PinEntries(order: seq<string>, hosts: Hosts): seq<string>
    requires forall k :: k in order ==> k in hosts
  {
    if order == [] then []
    else PinEntries(order[..|order| - 1], hosts) +
         (var p := hosts[order[|order| - 1]]; if p.pin != "" then [p.host + "=" + p.pin] else [])
  }

  function VerifyEntries(order: seq<string>, hosts: Hosts): seq<string>
    requires forall k :: k in order ==> k in hosts
  {
    if order == [] then []
    else VerifyEntries(order[..|order| - 1], hosts) +
         (var p := hosts[order[|order| - 1]]; if p.verify != "" then [p.host + "=" + p.verify] else [])
  }

  /** strings.Join(ss, ","). */
  function Join(ss: seq<string>): string {
    if ss == [] then "" else if |ss| == 1 then ss[0] else ss[0] + "," + Join(ss[1..])
  }

  datatype ConfLine = ConfLine(key: string, value: string)

  function Line(l: ConfLine): string { l.key + "=" + l.value + "\n" }

  function Text(lines: seq<ConfLine>): string {
    if lines == [] then "" else Line(lines[0]) + Text(lines[1..])
  }

  function OnOff(v: bool): string { if v then "on" else "off" }

  /** The format string of writeClientConfLocked. */
  function ConfLines(kit: seq<string>, imp: seq<string>, pins: seq<string>, vers: seq<string>): seq<ConfLine> {
    [ConfLine("SKYTAP_SSL_CA", "/certs/ca.crt"),
     ConfLine("SKYTAP_SSL_PROXY", "http://skytap:8080"),
     ConfLine("SKYTAP_SSL_ORIGIN_CERT_DIR", "/certs/origin-cache"),
     ConfLine("SKYTAP_SSL_KIT_HOSTS", Join(kit)),
     ConfLine("SKYTAP_SSL_IMPERSONATE_HOSTS", Join(imp)),
     ConfLine("SKYTAP_SSL_IMPERSONATE", OnOff(imp != [])),
     ConfLine("SKYTAP_SSL_PIN_BY_HOST", Join(pins)),
     ConfLine("SKYTAP_SSL_VERIFY_BY_HOST", Join(vers))]
  }

  function Body(kit: seq<string>, imp: seq<string>, pins: seq<string>, vers: seq<string>): string {
    Text(ConfLines(kit, imp, pins, vers))
  }

  function Render(order: seq<string>, hosts: Hosts): string
    requires forall k :: k in order ==> k in hosts
  {
    Body(KitNames(order, hosts), ImpersonateNames(order, hosts),
         PinEntries(order, hosts), VerifyEntries(order, hosts))
  }

  function KeyLine(key: string, value: string): string { key + "=" + value + "\n" }

  lemma TextStep(key: string, value: string, more: seq<ConfLine>)
    ensures Text([ConfLine(key, value)] + more) == KeyLine(key, value) + Text(more)
  {
    assert ([ConfLine(key, value)] + more)[1..] == more;
  }

  lemma LastLines(imp: string, on: string, pins: string, vers: string)
    ensures Text([ConfLine("SKYTAP_SSL_IMPERSONATE_HOSTS", imp), ConfLine("SKYTAP_SSL_IMPERSONATE", on),
                  ConfLine("SKYTAP_SSL_PIN_BY_HOST", pins), ConfLine("SKYTAP_SSL_VERIFY_BY_HOST", vers)]) ==
            KeyLine("SKYTAP_SSL_IMPERSONATE_HOSTS", imp) + (KeyLine("SKYTAP_SSL_IMPERSONATE", on) +
            (KeyLine("SKYTAP_SSL_PIN_BY_HOST", pins) + KeyLine("SKYTAP_SSL_VERIFY_BY_HOST", vers)))
  {
    var d := [ConfLine("SKYTAP_SSL_VERIFY_BY_HOST", vers)];
    var c := [ConfLine("SKYTAP_SSL_PIN_BY_HOST", pins)] + d;
    var b := [ConfLine("SKYTAP_SSL_IMPERSONATE", on)] + c;
    TextStep("SKYTAP_SSL_VERIFY_BY_HOST", vers, []);
    assert d == [ConfLine("SKYTAP_SSL_VERIFY_BY_HOST", vers)] + [];
    TextStep("SKYTAP_SSL_PIN_BY_HOST", pins, d);
    TextStep("SKYTAP_SSL_IMPERSONATE", on, c);
    TextStep("SKYTAP_SSL_IMPERSONATE_HOSTS", imp, b);
    assert [ConfLine("SKYTAP_SSL_IMPERSONATE_HOSTS", imp), ConfLine("SKYTAP_SSL_IMPERSONATE", on),
            ConfLine("SKYTAP_SSL_PIN_BY_HOST", pins), ConfLine("SKYTAP_SSL_VERIFY_BY_HOST", vers)]
           == [ConfLine("SKYTAP_SSL_IMPERSONATE_HOSTS", imp)] + b;
    assert KeyLine("SKYTAP_SSL_VERIFY_BY_HOST", vers) + "" == KeyLine("SKYTAP_SSL_VERIFY_BY_HOST", vers);
  }

  lemma FirstLines(ca: string, proxy: string, dir: string, kit: string, more: seq<ConfLine>)
    ensures Text([ConfLine("SKYTAP_SSL_CA", ca), ConfLine("SKYTAP_SSL_PROXY", proxy),
                  ConfLine("SKYTAP_SSL_ORIGIN_CERT_DIR", dir), ConfLine("SKYTAP_SSL_KIT_HOSTS", kit)] + more) ==
            KeyLine("SKYTAP_SSL_CA", ca) + (KeyLine("SKYTAP_SSL_PROXY", proxy) +
            (KeyLine("SKYTAP_SSL_ORIGIN_CERT_DIR", dir) + (KeyLine("SKYTAP_SSL_KIT_HOSTS", kit) + Text(more))))
  {
    var d := [ConfLine("SKYTAP_SSL_KIT_HOSTS", kit)] + more;
    var c := [ConfLine("SKYTAP_SSL_ORIGIN_CERT_DIR", dir)] + d;
    var b := [ConfLine("SKYTAP_SSL_PROXY", proxy)] + c;
    TextStep("SKYTAP_SSL_KIT_HOSTS", kit, more);
    TextStep("SKYTAP_SSL_ORIGIN_CERT_DIR", dir, d);
    TextStep("SKYTAP_SSL_PROXY", proxy, c);
    TextStep("SKYTAP_SSL_CA", ca, b);
    assert [ConfLine("SKYTAP_SSL_CA", ca), ConfLine("SKYTAP_SSL_PROXY", proxy),
            ConfLine("SKYTAP_SSL_ORIGIN_CERT_DIR", dir), ConfLine("SKYTAP_SSL_KIT_HOSTS", kit)] + more
           == [ConfLine("SKYTAP_SSL_CA", ca)] + b;
  }

  lemma EightLines(kit: seq<string>, imp: seq<string>, pins: seq<string>, vers: seq<string>)
    ensures ConfLines(kit, imp, pins, vers) ==
            [ConfLine("SKYTAP_SSL_CA", "/certs/ca.crt"), ConfLine("SKYTAP_SSL_PROXY", "http://skytap:8080"),
             ConfLine("SKYTAP_SSL_ORIGIN_CERT_DIR", "/certs/origin-cache"), ConfLine("SKYTAP_SSL_KIT_HOSTS", Join(kit))]
            + [ConfLine("SKYTAP_SSL_IMPERSONATE_HOSTS", Join(imp)),
               ConfLine("SKYTAP_SSL_IMPERSONATE", if imp != [] then "on" else "off"),
               ConfLine("SKYTAP_SSL_PIN_BY_HOST", Join(pins)), ConfLine("SKYTAP_SSL_VERIFY_BY_HOST", Join(vers))]
  {
  }

  /** The text of a file with these four lists, line by line. */
  lemma RenderedText(kit: seq<string>, imp: seq<string>, pins: seq<string>, vers: seq<string>)
    ensures Body(kit, imp, pins, vers) ==
            KeyLine("SKYTAP_SSL_CA", "/certs/ca.crt") + (KeyLine("SKYTAP_SSL_PROXY", "http://skytap:8080") +
            (KeyLine("SKYTAP_SSL_ORIGIN_CERT_DIR", "/certs/origin-cache") +
            (KeyLine("SKYTAP_SSL_KIT_HOSTS", Join(kit)) + (KeyLine("SKYTAP_SSL_IMPERSONATE_HOSTS", Join(imp)) +
            (KeyLine("SKYTAP_SSL_IMPERSONATE", if imp != [] then "on" else "off") +
            (KeyLine("SKYTAP_SSL_PIN_BY_HOST", Join(pins)) + KeyLine("SKYTAP_SSL_VERIFY_BY_HOST", Join(vers))))))))
  {
    var on := if imp != [] then "on" else "off";
    EightLines(kit, imp, pins, vers);
    LastLines(Join(imp), on, Join(pins), Join(vers));
    FirstLines("/certs/ca.crt", "http://skytap:8080", "/certs/origin-cache", Join(kit),
               [ConfLine("SKYTAP_SSL_IMPERSONATE_HOSTS", Join(imp)), ConfLine("SKYTAP_SSL_IMPERSONATE", on),
                ConfLine("SKYTAP_SSL_PIN_BY_HOST", Join(pins)), ConfLine("SKYTAP_SSL_VERIFY_BY_HOST", Join(vers))]);
  }

  /** The by-host lists have one entry for each host with a pin, or a verify. */
  lemma {:induction false} ByHostEntries(order: seq<string>, hosts: Hosts)
    requires forall k :: k in order ==> k in hosts
    ensures forall e :: e in PinEntries(order, hosts) <==>
              exists k :: k in order && hosts[k].pin != "" && e == hosts[k].host + "=" + hosts[k].pin
    ensures forall e :: e in VerifyEntries(order, hosts) <==>
              exists k :: k in order && hosts[k].verify != "" && e == hosts[k].host + "=" + hosts[k].verify
  {
    if order != [] {
      var n := |order| - 1;
      assert order == order[..n] + [order[n]];
      ByHostEntries(order[..n], hosts);
    }
  }

  /** conf lists the map in some iteration order. */
  ghost predicate IsRenderingIn(order: seq<string>, conf: string, hosts: Hosts) {
    Enumerates(order, hosts.Keys) && conf == Render(order, hosts)
  }

  ghost predicate IsRendering(conf: string, hosts: Hosts) {
    exists order :: IsRenderingIn(order, conf, hosts)
  }

  // ---- the invariant ----

  ghost predicate Keyed(hosts: Hosts) {
    forall k :: k in hosts ==> hosts[k].host == k && Normalise(k) == k
  }

  datatype Store = Store(hosts: Hosts, conf: string)

  ghost predicate InStep(s: Store) {
    Keyed(s.hosts) && IsRendering(s.conf, s.hosts)
  }

  /** Both maps render alike: same keys, and entries that differ in captured data only. */
  ghost predicate SamePolicies(a: Hosts, b: Hosts) {
    && a.Keys == b.Keys
    && forall k :: k in a ==>
         && a[k].host == b[k].host && a[k].kit == b[k].kit && a[k].impersonate == b[k].impersonate
         && a[k].pin == b[k].pin && a[k].verify == b[k].verify
  }

  lemma {:induction false} SamePoliciesRenderAlike(order: seq<string>, a: Hosts, b: Hosts)
    requires SamePolicies(a, b) && forall k :: k in order ==> k in a
    ensures KitNames(order, a) == KitNames(order, b)
    ensures ImpersonateNames(order, a) == ImpersonateNames(order, b)
    ensures PinEntries(order, a) == PinEntries(order, b)
    ensures VerifyEntries(order, a) == VerifyEntries(order, b)
  {
    if order != [] {
      assert order[|order| - 1] in order;
      SamePoliciesRenderAlike(order[..|order| - 1], a, b);
    }
  }

  lemma StillRendering(conf: string, a: Hosts, b: Hosts)
    requires IsRendering(conf, a) && SamePolicies(a, b)
    ensures IsRendering(conf, b)
  {
    var order :| IsRenderingIn(order, conf, a);
    SamePoliciesRenderAlike(order, a, b);
    assert IsRenderingIn(order, conf, b);
  }

  datatype Op =
    | OpGet(host: string)
    | OpAll
    | OpPut(p: HostPolicy)
    | OpCapture(host: string, dumped: bool)

  /** persistLocked: without a data directory nothing is written, the client file included. */
  ghost predicate Persisted(hasDataDir: bool, before: string, t: Store) {
    if hasDataDir then IsRendering(t.conf, t.hosts) else t.conf == before
  }

  /** One locked operation of the store. */
  ghost predicate Next(hasDataDir: bool, s: Store, op: Op, pem: PemDir, t: Store) {
    match op
    case OpGet(host) => t == Store(HostsAfterGet(s.hosts, Normalise(host), pem), s.conf)
    case OpAll => t == Store(HostsAfterAll(s.hosts, pem), s.conf)
    case OpPut(p) =>
      var q := PutEntry(s.hosts, p, pem);
      t.hosts == s.hosts[q.host := q] && Persisted(hasDataDir, s.conf, t)
    case OpCapture(host, dumped) =>
      var key := Normalise(host);
      if key == "" || !dumped then t == s
      else t.hosts == s.hosts[key := CaptureEntry(s.hosts, key, pem)] && Persisted(hasDataDir, s.conf, t)
  }

  // ---- what an operation leaves ----

  /** Nothing but the entry under k differs, and there is one. */
  ghost predicate OnlyChanged(before: Hosts, after: Hosts, k: string) {
    && after.Keys == before.Keys + {k}
    && forall x :: x in before && x != k ==> after[x] == before[x]
  }

  /** The certificate data of an entry: those of the certificate read, if there is one, else these, and marked as
      not captured if the file could not be read. */
  ghost predicate Certified(q: HostPolicy, r: PemRead, captured: bool, spki: string, subject: string, issuer: string) {
    && (r.Certificate? ==> q.captured && q.spki == r.spki && q.subject == r.subject && q.issuer == r.issuer)
    && (!r.Certificate? ==> q.spki == spki && q.subject == subject && q.issuer == issuer)
    && (r.Unreadable? ==> !q.captured)
    && (r.NoDumpDir? || r.NotACertificate? ==> q.captured == captured)
  }

  /** The same as in the entry under k, or empty if there is none. */
  ghost predicate CertifiedAsBefore(q: HostPolicy, r: PemRead, hosts: Hosts, k: string) {
    && (k in hosts ==> Certified(q, r, hosts[k].captured, hosts[k].spki, hosts[k].subject, hosts[k].issuer))
    && (k !in hosts ==> Certified(q, r, false, "", "", ""))
  }

  lemma RefreshedIs(p: HostPolicy, r: PemRead)
    ensures var q := Refreshed(p, r);
            && q.host == p.host && q.kit == p.kit && q.impersonate == p.impersonate
            && q.pin == p.pin && q.verify == p.verify
            && Certified(q, r, p.captured, p.spki, p.subject, p.issuer)
  {
  }

  /** The switches and texts of an entry stored under k. */
  ghost predicate Holds(q: HostPolicy, k: string, kit: bool, impersonate: bool, pin: string, verify: string) {
    && q.host == k && q.kit == kit && q.impersonate == impersonate
    && q.pin == (if pin == "" then "off" else pin)
    && q.verify == (if verify == "" then "ca" else verify)
  }

  lemma PutEntryIs(hosts: Hosts, p: HostPolicy, pem: PemDir)
    ensures var q, k := PutEntry(hosts, p, pem), Normalise(p.host);
            && Holds(q, k, p.kit, p.impersonate, p.pin, p.verify)
            && (p.spki != "" ==> Certified(q, pem(k), p.captured, p.spki, p.subject, p.issuer))
            && (p.spki == "" ==> CertifiedAsBefore(q, pem(k), hosts, k))
  {
    var q := WithDefaults(p.(host := Normalise(p.host)));
    var cur := Lookup(hosts, q.host);
    if q.spki == "" {
      q := q.(spki := cur.spki, subject := cur.subject, issuer := cur.issuer, captured := cur.captured);
    }
    RefreshedIs(q, pem(q.host));
  }

  lemma CaptureEntryIs(hosts: Hosts, k: string, pem: PemDir)
    ensures var q := CaptureEntry(hosts, k, pem);
            && (k in hosts ==>
                  Holds(q, k, hosts[k].kit, hosts[k].impersonate, hosts[k].pin, hosts[k].verify))
            && (k !in hosts ==> Holds(q, k, false, false, "", ""))
            && CertifiedAsBefore(q, pem(k), hosts, k)
  {
    RefreshedIs(WithDefaults(Lookup(hosts, k).(host := k)), pem(k));
  }

  lemma Stored(before: Hosts, after: Hosts, k: string, q: HostPolicy)
    requires after == before[k := q]
    ensures OnlyChanged(before, after, k) && after[k] == q
  {
  }

  /** Put stores what it was sent under the normalised name, with "off" and "ca" for an empty pin and verify; the
      certificate data are its own if it has a key hash, else those known before, unless one is read. */
  lemma PutLeaves(hasDataDir: bool, s: Store, p: HostPolicy, pem: PemDir, t: Store)
    requires Next(hasDataDir, s, OpPut(p), pem, t)
    ensures var k := Normalise(p.host);
            && OnlyChanged(s.hosts, t.hosts, k)
            && Holds(t.hosts[k], k, p.kit, p.impersonate, p.pin, p.verify)
            && (p.spki != "" ==> Certified(t.hosts[k], pem(k), p.captured, p.spki, p.subject, p.issuer))
            && (p.spki == "" ==> CertifiedAsBefore(t.hosts[k], pem(k), s.hosts, k))
    ensures forall h :: Normalise(h) == Normalise(p.host) ==> ImpersonateEnabled(t.hosts, h) == p.impersonate
    ensures if hasDataDir then IsRendering(t.conf, t.hosts) else t.conf == s.conf
  {
    PutEntryIs(s.hosts, p, pem);
    Stored(s.hosts, t.hosts, Normalise(p.host), PutEntry(s.hosts, p, pem));
  }

  /** Capture without a name, or without a chain, changes nothing.  Else it keeps the switches of the entry, fills in
      an empty pin and verify, and renews the certificate data. */
  lemma CaptureLeaves(hasDataDir: bool, s: Store, host: string, dumped: bool, pem: PemDir, t: Store)
    requires Next(hasDataDir, s, OpCapture(host, dumped), pem, t)
    ensures Normalise(host) == "" || !dumped ==> t == s
    ensures Normalise(host) != "" && dumped ==>
              var k, h := Normalise(host), s.hosts;
              && OnlyChanged(h, t.hosts, k)
              && (k in h ==> Holds(t.hosts[k], k, h[k].kit, h[k].impersonate, h[k].pin, h[k].verify))
              && (k !in h ==> Holds(t.hosts[k], k, false, false, "", ""))
              && CertifiedAsBefore(t.hosts[k], pem(k), h, k)
              && (if hasDataDir then IsRendering(t.conf, t.hosts) else t.conf == s.conf)
  {
    var k := Normalise(host);
    if k != "" && dumped {
      CaptureEntryIs(s.hosts, k, pem);
      Stored(s.hosts, t.hosts, k, CaptureEntry(s.hosts, k, pem));
    }
  }

  /** An entry that a reading operation leaves: the one of before, with the certificate data renewed if a
      certificate was read. */
  ghost predicate Renewed(q: HostPolicy, p: HostPolicy, r: PemRead) {
    && q.host == p.host && q.kit == p.kit && q.impersonate == p.impersonate && q.pin == p.pin && q.verify == p.verify
    && (r.Certificate? ==> q.captured && q.spki == r.spki && q.subject == r.subject && q.issuer == r.issuer)
    && (!r.Certificate? ==> q == p)
  }

  /** Get and All renew entries in memory and leave the file alone. */
  lemma ReadingLeaves(hasDataDir: bool, s: Store, op: Op, pem: PemDir, t: Store)
    requires Keyed(s.hosts) && Next(hasDataDir, s, op, pem, t) && (op.OpGet? || op.OpAll?)
    ensures t.conf == s.conf && t.hosts.Keys == s.hosts.Keys
    ensures forall k :: k in s.hosts ==>
              if op.OpGet? && k != Normalise(op.host) then t.hosts[k] == s.hosts[k]
              else Renewed(t.hosts[k], s.hosts[k], pem(k))
  {
    if op.OpGet? { GetRenews(s.hosts, Normalise(op.host), pem); } else { AllRenews(s.hosts, pem); }
  }

  lemma GetRenews(hosts: Hosts, key: string, pem: PemDir)
    requires Keyed(hosts)
    ensures var after := HostsAfterGet(hosts, key, pem);
            && after.Keys == hosts.Keys
            && forall k :: k in hosts ==>
                 if k != key then after[k] == hosts[k] else Renewed(after[k], hosts[k], pem(k))
  {
    if key in hosts { RefreshedIs(hosts[key], pem(key)); }
  }

  lemma AllRenews(hosts: Hosts, pem: PemDir)
    requires Keyed(hosts)
    ensures var after := HostsAfterAll(hosts, pem);
            && after.Keys == hosts.Keys
            && forall k :: k in hosts ==> Renewed(after[k], hosts[k], pem(k))
  {
    forall k | k in hosts ensures Renewed(HostsAfterAll(hosts, pem)[k], hosts[k], pem(k)) {
      RefreshedIs(hosts[k], pem(k));
    }
  }

  /** A run: the operations, the PEM directory each of them sees, and the states in between. */
  ghost predicate IsRun(hasDataDir: bool, states: seq<Store>, ops: seq<Op>, pems: seq<PemDir>) {
    && |states| == |ops| + 1 && |pems| == |ops|
    && forall i :: 0 <= i < |ops| ==> Next(hasDataDir, states[i], ops[i], pems[i], states[i + 1])
  }

  lemma GetKeepsPolicies(hosts: Hosts, key: string, pem: PemDir)
    requires Keyed(hosts)
    ensures SamePolicies(hosts, HostsAfterGet(hosts, key, pem))
  {
    if key in hosts {
      var p := hosts[key];
      assert Refreshed(p, pem(p.host)).host == key;
    }
  }

  lemma AllKeepsPolicies(hosts: Hosts, pem: PemDir)
    ensures SamePolicies(hosts, HostsAfterAll(hosts, pem))
  {
  }

  lemma StoredUnderOwnName(hosts: Hosts, p: HostPolicy, key: string, pem: PemDir)
    ensures PutEntry(hosts, p, pem).host == Normalise(p.host)
    ensures CaptureEntry(hosts, key, pem).host == key
  {
  }

  lemma StaysKeyed(hasDataDir: bool, s: Store, op: Op, pem: PemDir, t: Store)
    requires Keyed(s.hosts) && Next(hasDataDir, s, op, pem, t)
    ensures Keyed(t.hosts)
  {
    match op
    case OpGet(host) => GetKeepsPolicies(s.hosts, Normalise(host), pem);
    case OpAll => AllKeepsPolicies(s.hosts, pem);
    case OpPut(p) =>
      NormaliseIdempotent(p.host);
      StoredUnderOwnName(s.hosts, p, "", pem);
    case OpCapture(host, dumped) =>
      NormaliseIdempotent(host);
      StoredUnderOwnName(s.hosts, Blank(""), Normalise(host), pem);
  }

  lemma StepStaysInStep(s: Store, op: Op, pem: PemDir, t: Store)
    requires InStep(s) && Next(true, s, op, pem, t)
    ensures InStep(t)
  {
    StaysKeyed(true, s, op, pem, t);
    match op
    case OpGet(host) =>
      GetKeepsPolicies(s.hosts, Normalise(host), pem);
      StillRendering(s.conf, s.hosts, t.hosts);
    case OpAll =>
      AllKeepsPolicies(s.hosts, pem);
      StillRendering(s.conf, s.hosts, t.hosts);
    case OpPut(p) =>
    case OpCapture(host, dumped) =>
  }

  lemma StepFollows(states: seq<Store>, ops: seq<Op>, pems: seq<PemDir>, i: nat)
    requires IsRun(true, states, ops, pems) && i < |ops| && InStep(states[i])
    ensures InStep(states[i + 1])
  {
    var s, op, pem, t := states[i], ops[i], pems[i], states[i + 1];
    assert Next(true, s, op, pem, t);
    StepStaysInStep(s, op, pem, t);
  }

  /** With a data directory, the file on disk renders the current map after every operation,
      although Get and All write the map without writing the file. */
  lemma {:induction false} RunStaysInStep(states: seq<Store>, ops: seq<Op>, pems: seq<PemDir>, i: nat)
    requires IsRun(true, states, ops, pems) && InStep(states[0]) && i < |states|
    ensures InStep(states[i])
  {
    if i > 0 {
      RunStaysInStep(states, ops, pems, i - 1);
      StepFollows(states, ops, pems, i - 1);
    }
  }

  /** Without one, the file never changes. */
  lemma {:induction false} FileNeverChanges(states: seq<Store>, ops: seq<Op>, pems: seq<PemDir>, i: nat)
    requires IsRun(false, states, ops, pems) && Keyed(states[0].hosts) && i < |states|
    ensures states[i].conf == states[0].conf && Keyed(states[i].hosts)
  {
    if i > 0 {
      FileNeverChanges(states, ops, pems, i - 1);
      StaysKeyed(false, states[i - 1], ops[i - 1], pems[i - 1], states[i]);
    }
  }
}
