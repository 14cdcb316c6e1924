/** sslkit/skytap_ssl_policy.c in its own form: ten static buffers that every load overwrites in
    place, one 768-byte line buffer, and the time-limited reload.  Each method is proved against the
    functions of module PolicyFile. */
module PolicyReader {
  import opened Prelude
  import opened CStrings
  import opened PolicyFile

  const SETTINGS: seq<Setting> := [Pin, Ca, Proxy, Verify, PinOverride, Keylog, Impersonate,
                                   OriginCertDir, ImpersonateHosts, KitHosts]

  lemma SettingListed(s: Setting)
    ensures s in SETTINGS
  {
    match s
    case Pin => assert SETTINGS[0] == s;
    case Ca => assert SETTINGS[1] == s;
    case Proxy => assert SETTINGS[2] == s;
    case Verify => assert SETTINGS[3] == s;
    case PinOverride => assert SETTINGS[4] == s;
    case Keylog => assert SETTINGS[5] == s;
    case Impersonate => assert SETTINGS[6] == s;
    case OriginCertDir => assert SETTINGS[7] == s;
    case ImpersonateHosts => assert SETTINGS[8] == s;
    case KitHosts => assert SETTINGS[9] == s;
  }

  /** A zeroed buffer. */
  method NewBuffer(size: nat) returns (b: array<char>)
    ensures fresh(b) && b.Length == size && forall k :: 0 <= k < size ==> b[k] == NUL
  {
    b := new char[size](_ => NUL);
  }

  class SslPolicy {
    /** g_pin, g_ca, ...: the static buffer of each setting. */
    const bufs: map<Setting, array<char>>
    var loaded: bool
    var loadedAt: int

    /** Ten separate buffers of the declared sizes, each ending in a NUL that nothing overwrites. */
    ghost predicate Valid()
      reads bufs.Values
    {
      && (forall s: Setting :: s in bufs)
      && (forall s, t | s != t :: bufs[s] != bufs[t])
      && (forall s :: bufs[s].Length == Size(s) && bufs[s][Size(s) - 1] == NUL)
    }

    /** The C strings in the buffers. */
    ghost function Values(): (p: Policy)
      reads bufs.Values
    {
      Policy(map s | s in bufs :: CStr(bufs[s][..]))
    }

    /** The reader that these buffers and the load time stand for. */
    ghost function State(): Reader
      reads this, bufs.Values
    {
      if loaded then Loaded(Values(), loadedAt) else Unloaded
    }

    constructor ()
      ensures Valid() && State() == Unloaded && fresh(bufs.Values)
    {
      var m: map<Setting, array<char>> := map[];
      for i := 0 to |SETTINGS|
        invariant forall j :: 0 <= j < i ==> SETTINGS[j] in m
        invariant forall s | s in m ::
          m[s].Length == Size(s) && fresh(m[s]) && forall k :: 0 <= k < Size(s) ==> m[s][k] == NUL
        invariant forall s | s in m :: s in SETTINGS[..i]
        invariant forall s, t | s in m && t in m && s != t :: m[s] != m[t]
      {
        var b := NewBuffer(Size(SETTINGS[i]));
        m := m[SETTINGS[i] := b];
      }
      forall s ensures s in m {
        SettingListed(s);
      }
      bufs, loaded, loadedAt := m, false, 0;
    }

    method Copy(s: Setting, v: string)
      requires Valid() && NUL !in v
      modifies bufs.Values
      ensures Valid() && Values() == old(Values()).Copy(s, v)
    {
      CopyBytes(s, v);
      OthersKept(old(Values()), Values(), s, v);
    }

    method CopyBytes(s: Setting, v: string)
      requires Valid() && NUL !in v
      modifies bufs.Values
      ensures Valid() && CStr(bufs[s][..]) == Cut(v, Size(s))
      ensures forall t | t != s :: bufs[t][..] == old(bufs[t][..])
    {
      assert s in bufs;
      StrNCpy(bufs[s], v);
      forall t | t != s ensures bufs[t][..] == old(bufs[t][..]) && bufs[t][Size(t) - 1] == NUL {
        assert t in bufs && bufs[t] != bufs[s];
      }
    }

    /** Empties the string; the rest of the buffer keeps its old bytes. */
    method Empty(s: Setting)
      requires Valid() && Size(s) > 1
      modifies bufs.Values
      ensures Valid() && Values() == old(Values()).Copy(s, "")
    {
      EmptyBytes(s);
      OthersKept(old(Values()), Values(), s, "");
    }

    method EmptyBytes(s: Setting)
      requires Valid() && Size(s) > 1
      modifies bufs.Values
      ensures Valid() && CStr(bufs[s][..]) == ""
      ensures forall t | t != s :: bufs[t][..] == old(bufs[t][..])
    {
      assert s in bufs;
      bufs[s][0] := NUL;
      forall t | t != s ensures bufs[t][..] == old(bufs[t][..]) && bufs[t][Size(t) - 1] == NUL {
        assert t in bufs && bufs[t] != bufs[s];
      }
    }

    method Show(s: Setting) returns (v: string)
      requires Valid()
      ensures v == Values().Get(s)
    {
      assert s in bufs;
      HoldsBuffer(bufs[s][..]);
      v := ReadStr(bufs[s], 0, CStr(bufs[s][..]));
    }

    method ApplyPair(k: string, v: string)
      requires Valid() && NUL !in v
      modifies bufs.Values
      ensures Valid() && Values() == ApplyKv(old(Values()), KV(k, v))
    {
      match SettingOf(k)
      case Some(s) => Copy(s, v);
      case None =>
    }

    /** One pass of the loop in load_conf, on the chunk c in the line buffer. */
    method LoadLine(line: array<char>, ghost c: string)
      requires Valid() && line !in bufs.Values
      requires |c| < line.Length && line[..|c|] == c && line[|c|] == NUL
      modifies bufs.Values, line
      ensures Valid() && Values() == ApplyAll(old(Values()), ParseChunk(c))
    {
      var found, k, v := SplitLine(line, c);
      if found {
        ApplyPair(k, v);
        ApplyOne(old(Values()), KV(k, v));
      }
    }

    /** fgets and the loop body; f is what is left of the file. */
    method LoadChunk(line: array<char>, f: string) returns (n: nat)
      requires Valid() && line !in bufs.Values && line.Length == LINE_SIZE && f != ""
      modifies bufs.Values, line
      ensures Valid() && 0 < n <= |f|
      ensures ApplyAll(old(Values()), Pairs(f)) == ApplyAll(Values(), Pairs(f[n..]))
    {
      n := Fgets(line, f);
      ApplyAllAppend(Values(), ParseChunk(f[..n]), Pairs(f[n..]));
      LoadLine(line, f[..n]);
    }

    method LoadConf(file: Option<string>)
      requires Valid()
      modifies bufs.Values
      ensures Valid() && Values() == ReadConf(old(Values()), file)
    {
      if file.Some? {
        LoadLines(file.value);
      }
    }

    method LoadLines(f: string)
      requires Valid()
      modifies bufs.Values
      ensures Valid() && Values() == ApplyAll(old(Values()), Pairs(f))
    {
      var line := new char[LINE_SIZE];
      var rest := f;
      while rest != ""
        invariant Valid() && line !in bufs.Values
        invariant ApplyAll(Values(), Pairs(rest)) == ApplyAll(old(Values()), Pairs(f))
        decreases |rest|
      {
        var n := LoadChunk(line, rest);
        rest := rest[n..];
      }
    }

    method CopyEnv(s: Setting, w: World)
      requires Valid() && EnvOk(w)
      modifies bufs.Values
      ensures Valid() && Values() == EnvStep(old(Values()), w, s)
    {
      if Name(s) in w.env {
        Copy(s, w.env[Name(s)]);
      }
    }

    method CopyAllDefaults()
      requires Valid()
      modifies bufs.Values
      ensures Valid() && Values() == Defaults()
    {
      CopyDefaultsForgets(Values());
      Empty(ImpersonateHosts);
      Empty(KitHosts);
      Copy(Pin, Default(Pin));
      Copy(Ca, Default(Ca));
      Copy(Proxy, Default(Proxy));
      CopyOtherDefaults();
    }

    method CopyOtherDefaults()
      requires Valid()
      modifies bufs.Values
      ensures Valid() && Values() == CopyPathDefaults(old(Values()))
    {
      Copy(Verify, Default(Verify));
      Copy(PinOverride, Default(PinOverride));
      Copy(Keylog, Default(Keylog));
      Copy(Impersonate, Default(Impersonate));
      Copy(OriginCertDir, Default(OriginCertDir));
    }

    method CopyEnvPaths(w: World)
      requires Valid() && EnvOk(w)
      modifies bufs.Values
      ensures Valid() && Values() == EnvPaths(old(Values()), w)
    {
      CopyEnv(Pin, w);
      CopyEnv(Ca, w);
      CopyEnv(Proxy, w);
      CopyEnv(Verify, w);
      CopyEnv(PinOverride, w);
    }

    method CopyEnvRest(w: World)
      requires Valid() && EnvOk(w)
      modifies bufs.Values
      ensures Valid() && Values() == EnvRest(old(Values()), w)
    {
      CopyEnv(Keylog, w);
      var path := Show(Keylog);
      if "SSLKEYLOGFILE" in w.env && path == "" {
        Copy(Keylog, w.env["SSLKEYLOGFILE"]);
      }
      CopyEnv(Impersonate, w);
      CopyEnv(OriginCertDir, w);
      CopyEnv(ImpersonateHosts, w);
      CopyEnv(KitHosts, w);
    }

    /** load_once: `now` is time(NULL), w is what the process can see at that moment. */
    method LoadOnceInPlace(now: int, w: World)
      requires Valid() && EnvOk(w)
      modifies this, bufs.Values
      ensures Valid() && State() == LoadOnce(old(State()), Call(now, w))
    {
      if loaded && now - loadedAt < 2 { return; }
      loaded, loadedAt := true, now;
      CopyAllDefaults();
      LoadConf(w.etc);
      LoadConf(w.certs);
      CopyEnvPaths(w);
      CopyEnvRest(w);
    }

    method SkytapImpersonateOn(now: int, w: World) returns (on: bool)
      requires Valid() && EnvOk(w)
      modifies this, bufs.Values
      ensures Valid() && State() == LoadOnce(old(State()), Call(now, w))
      ensures on == ImpersonateOn(Values())
    {
      LoadOnceInPlace(now, w);
      var imp := Show(Impersonate);
      on := imp != "off";
    }

    /** skytap_impersonate_host: two load_once calls, the second one at time `later`. */
    method SkytapImpersonateHost(host: string, now: int, w: World, later: int, w': World) returns (r: bool)
      requires Valid() && EnvOk(w) && EnvOk(w') && NUL !in host
      modifies this, bufs.Values
      ensures Valid() && State() == LoadOnce(LoadOnce(old(State()), Call(now, w)), Call(later, w'))
      ensures r == ImpersonateHost(Values(), host)
    {
      LoadOnceInPlace(now, w);
      var on := SkytapImpersonateOn(later, w');
      if !on { return false; }
      r := FindInShown(ImpersonateHosts, host);
    }

    method FindInShown(s: Setting, host: string) returns (r: bool)
      requires Valid() && NUL !in host
      ensures r == HostInList(Values().Get(s), host)
    {
      var list := Show(s);
      r := FindInList(list, host);
    }

    method SkytapKitHost(host: string, now: int, w: World) returns (r: bool)
      requires Valid() && EnvOk(w) && NUL !in host
      modifies this, bufs.Values
      ensures Valid() && State() == LoadOnce(old(State()), Call(now, w))
      ensures r == KitHost(Values(), host)
    {
      LoadOnceInPlace(now, w);
      var list := Show(KitHosts);
      if list == "" { return true; }
      r := FindInList(list, host);
    }
  }

  lemma OthersKept(p: Policy, q: Policy, s: Setting, v: string)
    requires (forall t: Setting :: t in p.values && t in q.values)
    requires q.values[s] == Cut(v, Size(s)) && forall t: Setting :: t != s ==> q.values[t] == p.values[t]
    ensures q == p.Copy(s, v)
  {
    assert q.values == p.values[s := Cut(v, Size(s))];
  }

  /** One fgets call into the line buffer, where f is what is left of the file. */
  method Fgets(line: array<char>, f: string) returns (n: nat)
    requires line.Length == LINE_SIZE && f != ""
    modifies line
    ensures n == ChunkLen(f, CHUNK)
    ensures line[..n] == f[..n] && line[n] == NUL
  {
    n := 0;
    while n < line.Length - 1 && n < |f| && (n == 0 || line[n - 1] != '\n')
      invariant n <= line.Length - 1 && n <= |f|
      invariant forall i :: 0 <= i < n ==> line[i] == f[i]
      invariant forall i :: 0 <= i < n - 1 ==> f[i] != '\n'
    {
      line[n] := f[n];
      n := n + 1;
    }
    line[n] := NUL;
    ChunkLenIs(f, CHUNK, n);
  }

  lemma {:induction false} ChunkLenIs(f: string, max: nat, n: nat)
    requires f != [] && 0 < n <= max && n <= |f|
    requires forall i :: 0 <= i < n - 1 ==> f[i] != '\n'
    requires n == max || n == |f| || f[n - 1] == '\n'
    ensures ChunkLen(f, max) == n
  {
    if n > 1 {
      ChunkLenIs(f[1..], max - 1, n - 1);
    }
  }

  /** host_in_list: tokenises a local copy of the list and compares without regard to case. */
  method FindInList(list: string, host: string) returns (r: bool)
    requires NUL !in list && NUL !in host
    ensures r == HostInList(list, host)
  {
    if host == "" || list == "" { return false; }
    var buf := new char[2048];
    buf[2047] := NUL;
    StrNCpy(buf, list);
    ghost var all := Cut(list, 2048);
    ghost var rest := all;
    HoldsBuffer(buf[..]);
    var found, start, next: nat := true, 0, 0;
    while found
      invariant found ==> Holds(buf[..], next, rest)
      invariant !found ==> Tokens(rest, DELIMS) == []
      invariant Among(Tokens(all, DELIMS), host) <==> Among(Tokens(rest, DELIMS), host)
      decreases |rest| + if found then 1 else 0
    {
      ghost var toks := Tokens(rest, DELIMS);
      ghost var after;
      found, start, next, after := StrTok(buf, next, DELIMS, rest);
      if found {
        var tok := ReadStr(buf, start, toks[0]);
        AmongStep(toks, host);
        if EqualFold(tok, host) {
          return true;
        }
        rest := after;
      }
    }
    r := false;
  }

  /** A buffer whose last byte is NUL holds the string it shows. */
  lemma HoldsBuffer(b: seq<char>)
    requires b != [] && b[|b| - 1] == NUL
    ensures Holds(b, 0, CStr(b))
  {
    var s := CStr(b);
    assert b[|b| - 1] == NUL;
    assert forall i :: 0 <= i < |s| ==> b[i] == s[i] && s[i] != NUL;
  }

  lemma ApplyOne(p: Policy, kv: KV)
    ensures ApplyAll(p, [kv]) == ApplyKv(p, kv)
  {
    assert [kv][1..] == [];
  }

  /** Comment test, strchr, and the two trims, inside the line buffer. */
  method SplitLine(line: array<char>, ghost c: string) returns (found: bool, k: string, v: string)
    requires |c| < line.Length && line[..|c|] == c && line[|c|] == NUL
    modifies line
    ensures ParseChunk(c) == if found then [KV(k, v)] else []
    ensures NUL !in v
  {
    ghost var l := CStr(c);
    HoldsChunk(line[..], c);
    var s := ReadStr(line, 0, l);
    found, k, v := false, "", "";
    if s != [] && (s[0] == '#' || s[0] == ';') {
      return;
    }
    var eq := IndexOf(s, '=');
    if eq == |s| {
      return;
    }
    TrimHalves(line, l, eq);
    found := true;
    k := ReadStr(line, 0, Trim(l[..eq]));
    v := ReadStr(line, eq + 1, Trim(l[eq + 1..]));
  }

  lemma HoldsChunk(b: seq<char>, c: string)
    requires |c| < |b| && b[..|c|] == c && b[|c|] == NUL
    ensures Holds(b, 0, CStr(c))
  {
  }
}
