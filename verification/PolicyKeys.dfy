/** The ten settings by their literal names: what a line of a file, a variable of the environment and the
    rendered file set, and what is there when nothing is set. */
module PolicyKeys {
  import opened Prelude
  import opened CStrings
  import opened PolicyFile
  import opened SslKit
  import opened PolicyAgreement
  import opened PolicyNames

  /** v is in a buffer of this size: cut, if need be, so that one byte is left. */
  predicate Fills(buffer: string, v: string, size: nat) {
    buffer <= v && |buffer| == if |v| < size then |v| else if size == 0 then 0 else size - 1
  }

  lemma CutFills(v: string, size: nat)
    requires size > 0
    ensures Fills(Cut(v, size), v, size)
  {
  }

  lemma SizesArePositive(s: Setting)
    ensures Size(s) > 0
  {
  }

  // ---- lines ----

  /** A pair with this key sets this setting, whose buffer has this size, and no other. */
  ghost predicate KeySets(key: string, s: Setting, size: nat) {
    forall p: Policy, v ::
      var q := ApplyAll(p, [KV(key, v)]);
      Fills(q.Get(s), v, size) && forall t: Setting :: t != s ==> q.Get(t) == p.Get(t)
  }

  lemma NameSets(s: Setting)
    ensures KeySets(Name(s), s, Size(s))
  {
    NamesAreKnown(s);
    SizesArePositive(s);
    forall p: Policy, v
      ensures var q := ApplyAll(p, [KV(Name(s), v)]);
              Fills(q.Get(s), v, Size(s)) && forall t: Setting :: t != s ==> q.Get(t) == p.Get(t)
    {
      ApplyOnly(p, KV(Name(s), v));
      CutFills(v, Size(s));
    }
  }

  lemma KeyIs(key: string, s: Setting, size: nat)
    requires Name(s) == key && Size(s) == size
    ensures KeySets(key, s, size)
  {
    NameSets(s);
  }

  /** The ten keys, the settings they set, and the sizes of their buffers. */
  lemma KeysSetTheirSettings()
    ensures KeySets("SKYTAP_SSL_PIN", Pin, 32) && KeySets("SKYTAP_SSL_CA", Ca, 512)
    ensures KeySets("SKYTAP_SSL_PROXY", Proxy, 256) && KeySets("SKYTAP_SSL_VERIFY", Verify, 16)
    ensures KeySets("SKYTAP_SSL_PIN_OVERRIDE", PinOverride, 128) && KeySets("SKYTAP_SSL_KEYLOG", Keylog, 512)
    ensures KeySets("SKYTAP_SSL_IMPERSONATE", Impersonate, 8)
    ensures KeySets("SKYTAP_SSL_ORIGIN_CERT_DIR", OriginCertDir, 512)
    ensures KeySets("SKYTAP_SSL_IMPERSONATE_HOSTS", ImpersonateHosts, 2048)
    ensures KeySets("SKYTAP_SSL_KIT_HOSTS", KitHosts, 2048)
  {
    KeyIs("SKYTAP_SSL_PIN", Pin, 32);
    KeyIs("SKYTAP_SSL_CA", Ca, 512);
    KeyIs("SKYTAP_SSL_PROXY", Proxy, 256);
    KeyIs("SKYTAP_SSL_VERIFY", Verify, 16);
    KeyIs("SKYTAP_SSL_PIN_OVERRIDE", PinOverride, 128);
    KeyIs("SKYTAP_SSL_KEYLOG", Keylog, 512);
    KeyIs("SKYTAP_SSL_IMPERSONATE", Impersonate, 8);
    KeyIs("SKYTAP_SSL_ORIGIN_CERT_DIR", OriginCertDir, 512);
    KeyIs("SKYTAP_SSL_IMPERSONATE_HOSTS", ImpersonateHosts, 2048);
    KeyIs("SKYTAP_SSL_KIT_HOSTS", KitHosts, 2048);
  }

  // ---- the environment ----

  /** A variable of this name overrides both files, unless it is the empty keylog with SSLKEYLOGFILE set. */
  ghost predicate EnvSets(name: string, s: Setting, size: nat) {
    forall w: World :: name in w.env ==>
      if s == Keylog && w.env[name] == "" && "SSLKEYLOGFILE" in w.env
      then Fills(Load(w).Get(s), w.env["SSLKEYLOGFILE"], size)
      else Fills(Load(w).Get(s), w.env[name], size)
  }

  lemma NameOverrides(s: Setting)
    ensures EnvSets(Name(s), s, Size(s))
  {
    SizesArePositive(s);
    forall w: World | Name(s) in w.env
      ensures if s == Keylog && w.env[Name(s)] == "" && "SSLKEYLOGFILE" in w.env
              then Fills(Load(w).Get(s), w.env["SSLKEYLOGFILE"], Size(s))
              else Fills(Load(w).Get(s), w.env[Name(s)], Size(s))
    {
      LoadResolves(w, s);
      CutFills(w.env[Name(s)], Size(s));
      if "SSLKEYLOGFILE" in w.env { CutFills(w.env["SSLKEYLOGFILE"], Size(s)); }
    }
  }

  lemma VariableIs(name: string, s: Setting, size: nat)
    requires Name(s) == name && Size(s) == size
    ensures EnvSets(name, s, size)
  {
    NameOverrides(s);
  }

  /** The same ten names as variables. */
  lemma VariablesOverride()
    ensures EnvSets("SKYTAP_SSL_PIN", Pin, 32) && EnvSets("SKYTAP_SSL_CA", Ca, 512)
    ensures EnvSets("SKYTAP_SSL_PROXY", Proxy, 256) && EnvSets("SKYTAP_SSL_VERIFY", Verify, 16)
    ensures EnvSets("SKYTAP_SSL_PIN_OVERRIDE", PinOverride, 128) && EnvSets("SKYTAP_SSL_KEYLOG", Keylog, 512)
  {
    VariableIs("SKYTAP_SSL_PIN", Pin, 32);
    VariableIs("SKYTAP_SSL_CA", Ca, 512);
    VariableIs("SKYTAP_SSL_PROXY", Proxy, 256);
    VariableIs("SKYTAP_SSL_VERIFY", Verify, 16);
    VariableIs("SKYTAP_SSL_PIN_OVERRIDE", PinOverride, 128);
    VariableIs("SKYTAP_SSL_KEYLOG", Keylog, 512);
  }

  lemma ListVariablesOverride()
    ensures EnvSets("SKYTAP_SSL_IMPERSONATE", Impersonate, 8)
    ensures EnvSets("SKYTAP_SSL_ORIGIN_CERT_DIR", OriginCertDir, 512)
    ensures EnvSets("SKYTAP_SSL_IMPERSONATE_HOSTS", ImpersonateHosts, 2048)
    ensures EnvSets("SKYTAP_SSL_KIT_HOSTS", KitHosts, 2048)
  {
    VariableIs("SKYTAP_SSL_IMPERSONATE", Impersonate, 8);
    VariableIs("SKYTAP_SSL_ORIGIN_CERT_DIR", OriginCertDir, 512);
    VariableIs("SKYTAP_SSL_IMPERSONATE_HOSTS", ImpersonateHosts, 2048);
    VariableIs("SKYTAP_SSL_KIT_HOSTS", KitHosts, 2048);
  }

  /** The switch is off for the word "off" alone, not for any longer or other text. */
  lemma OnlyOffSwitchesOff(w: World)
    requires "SKYTAP_SSL_IMPERSONATE" in w.env
    ensures ImpersonateOn(Load(w)) <==> w.env["SKYTAP_SSL_IMPERSONATE"] != "off"
  {
    VariableIs("SKYTAP_SSL_IMPERSONATE", Impersonate, 8);
    var v, b := w.env["SKYTAP_SSL_IMPERSONATE"], Load(w).Get(Impersonate);
    assert Fills(b, v, 8);
    assert |b| == 3 ==> b == v;
  }

  // ---- nothing set ----

  /** Without files and environment, whatever was loaded before: every host passes the kit gate, none is
      impersonated although the switch is on, and the rest is as compiled in. */
  lemma NothingSet(host: string)
    ensures var p := Load(World(None, None, map[]));
            && p.Get(Pin) == "off" && p.Get(Ca) == "/certs/ca.crt" && p.Get(Proxy) == "http://skytap:8080"
            && p.Get(Verify) == "ca" && p.Get(PinOverride) == "" && p.Get(Keylog) == ""
            && p.Get(OriginCertDir) == "/certs/origin-cache"
            && p.Get(Impersonate) == "on" && p.Get(ImpersonateHosts) == "" && p.Get(KitHosts) == ""
            && ImpersonateOn(p) && !ImpersonateHost(p, host) && KitHost(p, host)
  {
    var w := World(None, None, map[]);
    forall s: Setting ensures Load(w).Get(s) == Default(s) {
      LoadResolves(w, s);
      DefaultFits(s);
    }
  }

  // ---- the rendered file ----

  /** The one line of a setting, with a value that arrives whole. */
  lemma PathTaken(p: Policy, lines: seq<ConfLine>, s: Setting, i: nat, v: string)
    requires AllQuiet(lines) && OnlyAt(lines, s, i) && lines[i].value == v
    requires PlainKey(Name(s)) && Neat(v) && |Name(s)| + 1 + |v| <= CHUNK && |v| < Size(s)
    ensures ReadConf(p, Some(Text(lines))).Get(s) == v
  {
    TakesOnly(p, lines, s, i);
    TakenWhole(Name(s), v);
  }

  lemma LegalIsNeat(v: string)
    requires LegalText(v)
    ensures Neat(v)
  {
    NoNewline(v);
    assert v != "" ==> ValueChar(v[0]) && ValueChar(v[|v| - 1]);
  }

  lemma FixedValuesAreNeat()
    ensures Neat("/certs/ca.crt") && Neat("http://skytap:8080") && Neat("/certs/origin-cache")
  {
    FixedValuesAreLegal(true);
    DirIsLegal();
    LegalIsNeat("/certs/ca.crt");
    LegalIsNeat("http://skytap:8080");
    LegalIsNeat("/certs/origin-cache");
  }

  lemma PathsAreOnly(lines: seq<ConfLine>, kit: seq<string>, imp: seq<string>, pins: seq<string>, vers: seq<string>)
    requires lines == ConfLines(kit, imp, pins, vers)
    ensures OnlyAt(lines, Ca, 0) && OnlyAt(lines, Proxy, 1) && OnlyAt(lines, OriginCertDir, 2)
    ensures lines[0].value == "/certs/ca.crt" && lines[1].value == "http://skytap:8080"
    ensures lines[2].value == "/certs/origin-cache"
  {
    forall j | 0 <= j < |lines|
      ensures SettingOf(lines[j].key).Some? ==> Name(SettingOf(lines[j].key).value) == lines[j].key
    {
      SettingNames(lines[j].key);
    }
  }

  /** None of the three paths is in the environment. */
  predicate PathsUnset(w: World) {
    && "SKYTAP_SSL_CA" !in w.env && "SKYTAP_SSL_PROXY" !in w.env && "SKYTAP_SSL_ORIGIN_CERT_DIR" !in w.env
  }

  lemma FileDecides(w: World, s: Setting)
    requires Name(s) !in w.env && s != Keylog
    ensures Load(w).Get(s) == ReadConf(ReadConf(Defaults(), w.etc), w.certs).Get(s)
  {
    LoadResolves(w, s);
    FilesResolve(w, s);
  }

  ghost predicate PathsAre(p: Policy) {
    && p.Get(Ca) == "/certs/ca.crt" && p.Get(Proxy) == "http://skytap:8080"
    && p.Get(OriginCertDir) == "/certs/origin-cache"
  }

  lemma PathKeysFit()
    ensures |Name(Ca)| < 40 && |Name(Proxy)| < 40 && |Name(OriginCertDir)| < 40
    ensures Size(Ca) > 40 && Size(Proxy) > 40 && Size(OriginCertDir) > 40
  {
    NameIsShort(Ca);
    NameIsShort(Proxy);
    NameIsShort(OriginCertDir);
  }

  lemma PathsTaken(p: Policy, lines: seq<ConfLine>, kit: seq<string>, imp: seq<string>,
                   pins: seq<string>, vers: seq<string>)
    requires lines == ConfLines(kit, imp, pins, vers) && AllQuiet(lines)
    ensures PathsAre(ReadConf(p, Some(Text(lines))))
  {
    PathsAreOnly(lines, kit, imp, pins, vers);
    FixedValuesAreNeat();
    PathKeysFit();
    SettingNameIsPlain(Ca);
    SettingNameIsPlain(Proxy);
    SettingNameIsPlain(OriginCertDir);
    PathTaken(p, lines, Ca, 0, lines[0].value);
    PathTaken(p, lines, Proxy, 1, lines[1].value);
    PathTaken(p, lines, OriginCertDir, 2, lines[2].value);
  }

  lemma PathsStay(w: World)
    requires PathsUnset(w) && PathsAre(ReadConf(ReadConf(Defaults(), w.etc), w.certs))
    ensures PathsAre(Load(w))
  {
    FileDecides(w, Ca);
    FileDecides(w, Proxy);
    FileDecides(w, OriginCertDir);
  }

  /** After loading a rendered file the paths are the ones that Go writes, whatever the first file says. */
  lemma RenderedPathsAreLoaded(order: seq<string>, conf: string, hosts: Hosts, w: World)
    requires IsRenderingIn(order, conf, hosts) && Tame(order, hosts) && w.certs == Some(conf) && PathsUnset(w)
    ensures Load(w).Get(Ca) == "/certs/ca.crt" && Load(w).Get(Proxy) == "http://skytap:8080"
    ensures Load(w).Get(OriginCertDir) == "/certs/origin-cache"
  {
    var kit, imp := KitNames(order, hosts), ImpersonateNames(order, hosts);
    var pins, vers := PinEntries(order, hosts), VerifyEntries(order, hosts);
    TameLinesAreQuiet(order, hosts);
    PathsTaken(ReadConf(Defaults(), w.etc), ConfLines(kit, imp, pins, vers), kit, imp, pins, vers);
    PathsStay(w);
  }

  lemma {:induction false} NoneOf(kvs: seq<KV>, s: Setting)
    requires NoPair(kvs, s)
    ensures LastValue(kvs, s) == None
  {
    if kvs != [] {
      NoneOf(kvs[..|kvs| - 1], s);
    }
  }

  lemma NoLineOf(lines: seq<ConfLine>, kit: seq<string>, imp: seq<string>, pins: seq<string>, vers: seq<string>,
                 s: Setting)
    requires lines == ConfLines(kit, imp, pins, vers) && s in {Pin, Verify, PinOverride, Keylog}
    ensures forall j :: 0 <= j < |lines| ==> SettingOf(lines[j].key) != Some(s)
  {
    forall j | 0 <= j < |lines|
      ensures SettingOf(lines[j].key).Some? ==> Name(SettingOf(lines[j].key).value) == lines[j].key
    {
      SettingNames(lines[j].key);
    }
  }

  lemma QuietFileKeeps(p: Policy, lines: seq<ConfLine>, s: Setting)
    requires AllQuiet(lines) && forall j :: 0 <= j < |lines| ==> SettingOf(lines[j].key) != Some(s)
    ensures ReadConf(p, Some(Text(lines))).Get(s) == p.Get(s)
  {
    TakesText(p, lines);
    NoPairOf(lines, s);
    KeptByAll(p, AllTaken(lines), s);
  }

  ghost predicate NoPair(kvs: seq<KV>, s: Setting) {
    forall j :: 0 <= j < |kvs| ==> SettingOf(kvs[j].key) != Some(s)
  }

  lemma NoPairOf(lines: seq<ConfLine>, s: Setting)
    requires forall j :: 0 <= j < |lines| ==> SettingOf(lines[j].key) != Some(s)
    ensures NoPair(AllTaken(lines), s)
  {
  }

  lemma KeptByAll(p: Policy, kvs: seq<KV>, s: Setting)
    requires NoPair(kvs, s)
    ensures ApplyAll(p, kvs).Get(s) == p.Get(s)
  {
    NoneOf(kvs, s);
    ApplyAllIsLast(p, kvs, s);
  }

  lemma SameFilesLoadAlike(w: World, s: Setting)
    requires ReadConf(ReadConf(Defaults(), w.etc), w.certs).Get(s) == ReadConf(Defaults(), w.etc).Get(s)
    ensures Load(w).Get(s) == Load(w.(certs := None)).Get(s)
  {
    var p, q := ReadConf(ReadConf(Defaults(), w.etc), w.certs), ReadConf(Defaults(), w.etc);
    EnvPathsGet(p, w, s);
    EnvPathsGet(q, w, s);
    EnvRestGet(EnvPaths(p, w), w, s);
    EnvRestGet(EnvPaths(q, w), w, s);
    SameEnv(q, w);
  }

  lemma SameEnv(q: Policy, w: World)
    ensures EnvRest(EnvPaths(q, w), w) == EnvRest(EnvPaths(q, w.(certs := None)), w.(certs := None))
  {
  }

  /** The other four settings are as if there were no such file. */
  lemma RenderedFileKeepsTheRest(order: seq<string>, conf: string, hosts: Hosts, w: World, s: Setting)
    requires IsRenderingIn(order, conf, hosts) && Tame(order, hosts) && w.certs == Some(conf)
    requires s in {Pin, Verify, PinOverride, Keylog}
    ensures Load(w).Get(s) == Load(World(w.etc, None, w.env)).Get(s)
  {
    var kit, imp := KitNames(order, hosts), ImpersonateNames(order, hosts);
    var pins, vers := PinEntries(order, hosts), VerifyEntries(order, hosts);
    TameLinesAreQuiet(order, hosts);
    NoLineOf(ConfLines(kit, imp, pins, vers), kit, imp, pins, vers, s);
    QuietFileKeeps(ReadConf(Defaults(), w.etc), ConfLines(kit, imp, pins, vers), s);
    SameFilesLoadAlike(w, s);
  }
}
