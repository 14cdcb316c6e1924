/** sslkit/skytap_ssl_policy.c as a function of its inputs: how a policy file is cut into fgets
    chunks, parsed into settings, and resolved against defaults, two files and the environment. */
module PolicyFile {
  import opened Prelude
  import opened CStrings

  datatype Setting =
    | Pin | Ca | Proxy | Verify | PinOverride | Keylog
    | Impersonate | OriginCertDir | ImpersonateHosts | KitHosts

  /** The file key and the environment variable of a setting. */
  function Name(s: Setting): string {
    match s
    case Pin => "SKYTAP_SSL_PIN"
    case Ca => "SKYTAP_SSL_CA"
    case Proxy => "SKYTAP_SSL_PROXY"
    case Verify => "SKYTAP_SSL_VERIFY"
    case PinOverride => "SKYTAP_SSL_PIN_OVERRIDE"
    case Keylog => "SKYTAP_SSL_KEYLOG"
    case Impersonate => "SKYTAP_SSL_IMPERSONATE"
    case OriginCertDir => "SKYTAP_SSL_ORIGIN_CERT_DIR"
    case ImpersonateHosts => "SKYTAP_SSL_IMPERSONATE_HOSTS"
    case KitHosts => "SKYTAP_SSL_KIT_HOSTS"
  }

  /** The size of the static buffer behind a setting. */
  function Size(s: Setting): nat {
    match s
    case Pin => 32
    case Ca => 512
    case Proxy => 256
    case Verify => 16
    case PinOverride => 128
    case Keylog => 512
    case Impersonate => 8
    case OriginCertDir => 512
    case ImpersonateHosts => 2048
    case KitHosts => 2048
  }

  function Default(s: Setting): (v: string)
    ensures NUL !in v
  {
    match s
    case Pin => "off"
    case Ca => "/certs/ca.crt"
    case Proxy => "http://skytap:8080"
    case Verify => "ca"
    case PinOverride => ""
    case Keylog => ""
    case Impersonate => "on"
    case OriginCertDir => "/certs/origin-cache"
    case ImpersonateHosts => ""
    case KitHosts => ""
  }

  /** The comparisons of apply_kv. */
  function SettingOf(k: string): (r: Option<Setting>)
    ensures forall s :: r == Some(s) ==> k == Name(s)
  {
    if k == Name(Pin) then Some(Pin)
    else if k == Name(Ca) then Some(Ca)
    else if k == Name(Proxy) then Some(Proxy)
    else if k == Name(Verify) then Some(Verify)
    else if k == Name(PinOverride) then Some(PinOverride)
    else if k == Name(Keylog) then Some(Keylog)
    else if k == Name(Impersonate) then Some(Impersonate)
    else if k == Name(OriginCertDir) then Some(OriginCertDir)
    else if k == Name(ImpersonateHosts) then Some(ImpersonateHosts)
    else if k == Name(KitHosts) then Some(KitHosts)
    else None
  }

  /** The contents of the ten static buffers, as C strings. */
  datatype Policy = Policy(values: map<Setting, string>) {
    function Get(s: Setting): string {
      if s in values then values[s] else ""
    }

    /** The policy after strncpy of v into the buffer of s. */
    function Copy(s: Setting, v: string): (p: Policy)
      ensures forall t :: p.Get(t) == if t == s then Cut(v, Size(s)) else Get(t)
      ensures p.values.Keys == values.Keys + {s}
    {
      Policy(values[s := Cut(v, Size(s))])
    }
  }

  /** The line buffer has 768 bytes, so one fgets call takes at most 767 bytes of the file. */
  const LINE_SIZE: nat := 768
  const CHUNK: nat := 767

  /** How many bytes one fgets call takes from the front of f: up to and including a newline, or
      `max` bytes, or everything. */
  function ChunkLen(f: string, max: nat): (n: nat)
    requires max > 0
    ensures n <= max && n <= |f| && (f != [] ==> n > 0)
    ensures forall i :: 0 <= i < n - 1 ==> f[i] != '\n'
    ensures n < |f| && n < max ==> f[n - 1] == '\n'
    decreases |f|
  {
    if f == [] then 0
    else if f[0] == '\n' || max == 1 then 1
    else 1 + ChunkLen(f[1..], max - 1)
  }

  datatype KV = KV(key: string, val: string)

  /** One chunk in load_conf: comments and chunks without '=' give nothing. */
  function ParseChunk(c: string): seq<KV> {
    var l := CStr(c);
    var eq := IndexOf(l, '=');
    if l != [] && (l[0] == '#' || l[0] == ';') then []
    else if eq == |l| then []
    else [KV(Trim(l[..eq]), Trim(l[eq + 1..]))]
  }

  /** Every key/value pair that load_conf hands to apply_kv, in file order. */
  function Pairs(f: string): seq<KV>
    decreases |f|
  {
    if f == [] then []
    else
      var n := ChunkLen(f, CHUNK);
      ParseChunk(f[..n]) + Pairs(f[n..])
  }

  function ApplyKv(p: Policy, kv: KV): Policy {
    match SettingOf(kv.key)
    case None => p
    case Some(s) => p.Copy(s, kv.val)
  }

  function ApplyAll(p: Policy, kvs: seq<KV>): Policy
    decreases |kvs|
  {
    if kvs == [] then p else ApplyAll(ApplyKv(p, kvs[0]), kvs[1..])
  }

  lemma {:induction false} ApplyAllAppend(p: Policy, a: seq<KV>, b: seq<KV>)
    ensures ApplyAll(p, a + b) == ApplyAll(ApplyAll(p, a), b)
    decreases |a|
  {
    if a == [] {
      assert a + b == b;
    } else {
      assert (a + b)[1..] == a[1..] + b;
      ApplyAllAppend(ApplyKv(p, a[0]), a[1..], b);
    }
  }

  /** load_conf: a missing file changes nothing. */
  function ReadConf(p: Policy, file: Option<string>): Policy {
    match file
    case None => p
    case Some(f) => ApplyAll(p, Pairs(f))
  }

  /** What a load can see: /etc/skytap-ssl.conf, /certs/skytap-ssl.conf and the environment. */
  datatype World = World(etc: Option<string>, certs: Option<string>, env: map<string, string>)

  /** Environment values are C strings. */
  ghost predicate EnvOk(w: World) {
    forall k :: k in w.env ==> NUL !in w.env[k]
  }

  function Defaults(): (p: Policy)
    ensures forall s :: p.Get(s) == Default(s)
  {
    Policy(map s: Setting :: Default(s))
  }

  /** The first lines of load_once: two lists emptied, eight defaults copied. */
  function CopyDefaults(p: Policy): Policy {
    CopyPathDefaults(CopyListDefaults(p))
  }

  function CopyListDefaults(p: Policy): Policy {
    p.Copy(ImpersonateHosts, "").Copy(KitHosts, "").Copy(Pin, Default(Pin))
     .Copy(Ca, Default(Ca)).Copy(Proxy, Default(Proxy))
  }

  function CopyPathDefaults(p: Policy): Policy {
    p.Copy(Verify, Default(Verify)).Copy(PinOverride, Default(PinOverride)).Copy(Keylog, Default(Keylog))
     .Copy(Impersonate, Default(Impersonate)).Copy(OriginCertDir, Default(OriginCertDir))
  }

  ghost predicate Full(p: Policy) {
    forall s: Setting :: s in p.values
  }

  lemma CopyDefaultsGet(p: Policy, s: Setting)
    ensures CopyDefaults(p).Get(s) == Default(s)
  {
    ListDefaultsGet(p, s);
    PathDefaultsGet(CopyListDefaults(p), s);
    DefaultFits(s);
  }

  lemma CopyDefaultsKeepsFull(p: Policy)
    requires Full(p)
    ensures Full(CopyDefaults(p))
  {
    assert Full(CopyListDefaults(p));
  }

  lemma SamePolicy(p: Policy, q: Policy)
    requires Full(p) && Full(q) && forall s :: p.Get(s) == q.Get(s)
    ensures p == q
  {
    forall s: Setting ensures s in p.values && s in q.values && p.values[s] == q.values[s] {
      assert p.Get(s) == q.Get(s);
    }
    assert p.values == q.values;
  }

  /** Whatever the buffers held before a load, they hold the defaults after its first lines. */
  lemma CopyDefaultsForgets(p: Policy)
    requires Full(p)
    ensures CopyDefaults(p) == Defaults()
  {
    CopyDefaultsKeepsFull(p);
    forall s: Setting ensures CopyDefaults(p).Get(s) == Defaults().Get(s) {
      CopyDefaultsGet(p, s);
    }
    SamePolicy(CopyDefaults(p), Defaults());
  }

  lemma ListDefaultsGet(p: Policy, s: Setting)
    ensures p.values.Keys <= CopyListDefaults(p).values.Keys
    ensures s !in {Verify, PinOverride, Keylog, Impersonate, OriginCertDir} ==>
              CopyListDefaults(p).Get(s) == Cut(Default(s), Size(s))
  {
    var p1 := p.Copy(ImpersonateHosts, "").Copy(KitHosts, "");
    var p2 := p1.Copy(Pin, Default(Pin)).Copy(Ca, Default(Ca));
  }

  lemma PathDefaultsGet(p: Policy, s: Setting)
    ensures p.values.Keys <= CopyPathDefaults(p).values.Keys
    ensures CopyPathDefaults(p).Get(s) ==
            if s in {Verify, PinOverride, Keylog, Impersonate, OriginCertDir}
            then Cut(Default(s), Size(s)) else p.Get(s)
  {
    var p1 := p.Copy(Verify, Default(Verify)).Copy(PinOverride, Default(PinOverride));
    var p2 := p1.Copy(Keylog, Default(Keylog)).Copy(Impersonate, Default(Impersonate));
  }

  lemma DefaultFits(s: Setting)
    ensures |Default(s)| < Size(s)
  {
  }

  function EnvStep(p: Policy, w: World, s: Setting): (q: Policy)
    ensures forall t :: q.Get(t) == if t == s && Name(s) in w.env then Cut(w.env[Name(s)], Size(s)) else p.Get(t)
  {
    if Name(s) in w.env then p.Copy(s, w.env[Name(s)]) else p
  }

  /** SSLKEYLOGFILE is looked at only while the keylog path is empty. */
  function KeylogStep(p: Policy, w: World): (q: Policy)
    ensures forall t :: q.Get(t) ==
                        if t == Keylog && "SSLKEYLOGFILE" in w.env && p.Get(Keylog) == ""
                        then Cut(w.env["SSLKEYLOGFILE"], Size(Keylog)) else p.Get(t)
  {
    if "SSLKEYLOGFILE" in w.env && p.Get(Keylog) == "" then p.Copy(Keylog, w.env["SSLKEYLOGFILE"]) else p
  }

  /** The getenv lines of load_once, in two groups. */
  function EnvPaths(p: Policy, w: World): Policy {
    EnvStep(EnvStep(EnvStep(EnvStep(EnvStep(p, w, Pin), w, Ca), w, Proxy), w, Verify), w, PinOverride)
  }

  function EnvRest(p: Policy, w: World): Policy {
    EnvStep(EnvStep(EnvStep(EnvStep(
      KeylogStep(EnvStep(p, w, Keylog), w), w, Impersonate), w, OriginCertDir), w, ImpersonateHosts), w, KitHosts)
  }

  /** load_once past its time check, as the source runs it. */
  function Load(w: World): Policy {
    EnvRest(EnvPaths(ReadConf(ReadConf(Defaults(), w.etc), w.certs), w), w)
  }

  /** The value that the last pair for s in a list of pairs carries. */
  function LastValue(kvs: seq<KV>, s: Setting): Option<string> {
    if kvs == [] then None
    else if SettingOf(kvs[|kvs| - 1].key) == Some(s) then Some(kvs[|kvs| - 1].val)
    else LastValue(kvs[..|kvs| - 1], s)
  }

  function InFile(file: Option<string>, s: Setting): Option<string> {
    if file.None? then None else LastValue(Pairs(file.value), s)
  }

  /** Where a setting comes from: environment, else second file, else first file, else default. */
  function Source(w: World, s: Setting): string {
    if Name(s) in w.env then w.env[Name(s)]
    else if InFile(w.certs, s).Some? then InFile(w.certs, s).value
    else if InFile(w.etc, s).Some? then InFile(w.etc, s).value
    else Default(s)
  }

  function Resolve(w: World, s: Setting): string {
    if s == Keylog && Source(w, Keylog) == "" && "SSLKEYLOGFILE" in w.env
    then Cut(w.env["SSLKEYLOGFILE"], Size(s))
    else Cut(Source(w, s), Size(s))
  }

  lemma {:induction false} ApplyAllIsLast(p: Policy, kvs: seq<KV>, s: Setting)
    ensures ApplyAll(p, kvs).Get(s) ==
            match LastValue(kvs, s)
            case Some(v) => Cut(v, Size(s))
            case None => p.Get(s)
  {
    if kvs != [] {
      var n := |kvs| - 1;
      assert kvs == kvs[..n] + [kvs[n]];
      ApplyAllAppend(p, kvs[..n], [kvs[n]]);
      var q := ApplyAll(p, kvs[..n]);
      assert [kvs[n]][1..] == [];
      assert ApplyAll(q, [kvs[n]]) == ApplyKv(q, kvs[n]);
      ApplyAllIsLast(p, kvs[..n], s);
    }
  }

  /** The two files alone. */
  lemma FilesResolve(w: World, s: Setting)
    ensures ReadConf(ReadConf(Defaults(), w.etc), w.certs).Get(s) ==
            Cut(if InFile(w.certs, s).Some? then InFile(w.certs, s).value
                else if InFile(w.etc, s).Some? then InFile(w.etc, s).value
                else Default(s), Size(s))
  {
    if w.etc.Some? { ApplyAllIsLast(Defaults(), Pairs(w.etc.value), s); }
    if w.certs.Some? { ApplyAllIsLast(ReadConf(Defaults(), w.etc), Pairs(w.certs.value), s); }
  }

  lemma EnvPathsGet(p: Policy, w: World, s: Setting)
    ensures EnvPaths(p, w).Get(s) ==
            if s in {Pin, Ca, Proxy, Verify, PinOverride} && Name(s) in w.env
            then Cut(w.env[Name(s)], Size(s)) else p.Get(s)
  {
    var p1 := EnvStep(p, w, Pin);
    var p2 := EnvStep(p1, w, Ca);
    var p3 := EnvStep(p2, w, Proxy);
    var p4 := EnvStep(p3, w, Verify);
    assert EnvPaths(p, w) == EnvStep(p4, w, PinOverride);
  }

  lemma EnvRestGet(p: Policy, w: World, s: Setting)
    ensures var own := if Name(s) in w.env then Cut(w.env[Name(s)], Size(s)) else p.Get(s);
            EnvRest(p, w).Get(s) ==
            if s == Keylog && own == "" && "SSLKEYLOGFILE" in w.env
            then Cut(w.env["SSLKEYLOGFILE"], Size(s))
            else if s in {Pin, Ca, Proxy, Verify, PinOverride} then p.Get(s)
            else own
  {
    var p1 := KeylogStep(EnvStep(p, w, Keylog), w);
    var p2 := EnvStep(p1, w, Impersonate);
    var p3 := EnvStep(p2, w, OriginCertDir);
    var p4 := EnvStep(p3, w, ImpersonateHosts);
    assert EnvRest(p, w) == EnvStep(p4, w, KitHosts);
  }

  /** Every setting is resolved independently of the others and of the order of the assignments. */
  lemma LoadResolves(w: World, s: Setting)
    ensures Load(w).Get(s) == Resolve(w, s)
  {
    FilesResolve(w, s);
    var p := ReadConf(ReadConf(Defaults(), w.etc), w.certs);
    EnvPathsGet(p, w, s);
    EnvRestGet(EnvPaths(p, w), w, s);
  }

  // ---- host lists ----

  const DELIMS: string := ", \t\n"

  ghost predicate Among(toks: seq<string>, host: string) {
    exists t :: t in toks && EqualFold(t, host)
  }

  /** host_in_list. */
  ghost predicate HostInList(list: string, host: string) {
    host != "" && list != "" && Among(Tokens(Cut(list, 2048), DELIMS), host)
  }

  lemma AmongStep(toks: seq<string>, host: string)
    requires toks != []
    ensures Among(toks, host) <==> EqualFold(toks[0], host) || Among(toks[1..], host)
  {
    assert toks == [toks[0]] + toks[1..];
    if EqualFold(toks[0], host) {
      assert toks[0] in toks;
    }
  }

  /** skytap_impersonate_on, skytap_impersonate_host and skytap_kit_host on a loaded policy. */
  predicate ImpersonateOn(p: Policy) { p.Get(Impersonate) != "off" }

  ghost predicate ImpersonateHost(p: Policy, host: string) {
    ImpersonateOn(p) && HostInList(p.Get(ImpersonateHosts), host)
  }

  ghost predicate KitHost(p: Policy, host: string) {
    p.Get(KitHosts) == "" || HostInList(p.Get(KitHosts), host)
  }

  // ---- the timed reload, over whole runs ----

  datatype Reader = Unloaded | Loaded(policy: Policy, at: int)

  /** One accessor call at time `now`: load_once, then the policy is served. */
  datatype Call = Call(now: int, world: World)

  function LoadOnce(r: Reader, c: Call): (r': Reader)
    ensures r'.Loaded?
  {
    if r.Loaded? && c.now - r.at < 2 then r else Loaded(Load(c.world), c.now)
  }

  function RunReader(calls: seq<Call>): Reader {
    if calls == [] then Unloaded
    else LoadOnce(RunReader(calls[..|calls| - 1]), calls[|calls| - 1])
  }

  ghost predicate ClockMonotone(calls: seq<Call>) {
    forall i, j :: 0 <= i <= j < |calls| ==> calls[i].now <= calls[j].now
  }

  /** The served policy is exactly what some call of the run loaded; earlier loads leave no trace. */
  lemma {:induction false} ServedIsSomeLoad(calls: seq<Call>) returns (i: nat)
    requires calls != []
    ensures i < |calls|
    ensures RunReader(calls) == Loaded(Load(calls[i].world), calls[i].now)
    ensures calls[|calls| - 1].now - calls[i].now < 2
  {
    var n := |calls| - 1;
    var before := RunReader(calls[..n]);
    if before.Loaded? && calls[n].now - before.at < 2 {
      i := ServedIsSomeLoad(calls[..n]);
    } else {
      i := n;
    }
  }

  /** A call starts a load exactly when none was made, or the last one is two seconds old or more; until then every
      call is served by that one, whatever the files say meanwhile. */
  lemma {:induction false} LoadServesTwoSeconds(calls: seq<Call>, i: nat)
    requires i < |calls| && RunReader(calls[..i + 1]) == Loaded(Load(calls[i].world), calls[i].now)
    requires forall j :: i < j < |calls| ==> calls[j].now - calls[i].now < 2
    ensures RunReader(calls) == Loaded(Load(calls[i].world), calls[i].now)
    decreases |calls|
  {
    var n := |calls| - 1;
    if i < n {
      assert calls[..n][..i + 1] == calls[..i + 1];
      LoadServesTwoSeconds(calls[..n], i);
    } else {
      assert calls[..i + 1] == calls;
    }
  }

  lemma LoadsAgainAfterTwoSeconds(calls: seq<Call>)
    requires calls != []
    requires var before := RunReader(calls[..|calls| - 1]);
             before.Unloaded? || calls[|calls| - 1].now - before.at >= 2
    ensures RunReader(calls) == Loaded(Load(calls[|calls| - 1].world), calls[|calls| - 1].now)
  {
  }

  /** With a clock that never steps back, a served policy is younger than two seconds. */
  lemma ServedIsFresh(calls: seq<Call>) returns (i: nat)
    requires calls != [] && ClockMonotone(calls)
    ensures i < |calls|
    ensures forall s :: RunReader(calls).policy.Get(s) == Resolve(calls[i].world, s)
    ensures 0 <= calls[|calls| - 1].now - calls[i].now < 2
  {
    i := ServedIsSomeLoad(calls);
    forall s ensures RunReader(calls).policy.Get(s) == Resolve(calls[i].world, s) {
      LoadResolves(calls[i].world, s);
    }
  }
}
