/** Which names may be in the map.  A store takes any trimmed, lower-case name and any pin or verify text;
    C takes the file apart at newlines and the lists at commas and blanks.  Here is for which maps the two
    sides still agree. */
module PolicyNames {
  import opened Prelude
  import opened CStrings
  import opened GoStrings
  import opened PolicyFile
  import opened SslKit
  import opened PolicyAgreement
  import opened PolicyTails

  // ---- reading any line ----

  /** The chunks that fgets makes of a text. */
  function Chunked(f: string): seq<string>
    decreases |f|
  {
    if f == "" then []
    else
      var n := ChunkLen(f, CHUNK);
      [f[..n]] + Chunked(f[n..])
  }

  /** The value that the first chunk of a line carries. */
  function Taken(key: string, value: string): string {
    var f := Line(ConfLine(key, value));
    var n := ChunkLen(f, CHUNK);
    if n <= |key| then "" else Trim(CStr(f[|key| + 1..n]))
  }

  /** What follows the first chunk, on the same line or behind a newline in the value, sets nothing. */
  ghost predicate QuietLine(l: ConfLine) {
    PlainKey(l.key) && QuietAll(Chunked(Line(l)[ChunkLen(Line(l), CHUNK)..]))
  }

  lemma {:induction false} ChunkedReads(p: Policy, f: string)
    ensures ApplyAll(p, Pairs(f)) == Through(p, Chunked(f))
    decreases |f|
  {
    if f != "" {
      var n := ChunkLen(f, CHUNK);
      OneChunkThen(p, f);
      ChunkedReads(ApplyAll(p, ParseChunk(f[..n])), f[n..]);
      ThroughOne(p, f[..n], Chunked(f[n..]));
    }
  }

  lemma {:induction false} ChunkInFront(f: string, rest: string, max: nat)
    requires f != "" && f[|f| - 1] == '\n' && max > 0
    ensures ChunkLen(f + rest, max) == ChunkLen(f, max)
    decreases |f|
  {
    assert (f + rest)[0] == f[0];
    if f[0] != '\n' && max > 1 {
      assert (f + rest)[1..] == f[1..] + rest;
      ChunkInFront(f[1..], rest, max - 1);
    }
  }

  lemma PairsStep(f: string, c: string, rest: string)
    requires f != "" && f == c + rest && ChunkLen(f, CHUNK) == |c|
    ensures Pairs(f) == ParseChunk(c) + Pairs(rest)
  {
    assert f[..|c|] == c && f[|c|..] == rest;
  }

  lemma CutChunk(f: string) returns (c: string, more: string)
    requires f != "" && f[|f| - 1] == '\n'
    ensures f == c + more && |c| == ChunkLen(f, CHUNK) > 0
    ensures more != "" ==> more[|more| - 1] == '\n'
  {
    var n := ChunkLen(f, CHUNK);
    c, more := f[..n], f[n..];
  }

  lemma Regroup(a: string, b: string, c: string)
    ensures (a + b) + c == a + (b + c)
  {
  }

  lemma RegroupPairs(a: seq<KV>, b: seq<KV>, c: seq<KV>)
    ensures (a + b) + c == a + (b + c)
  {
  }

  lemma StepInFront(f: string, rest: string, c: string, more: string)
    requires f != "" && f[|f| - 1] == '\n' && f == c + more && |c| == ChunkLen(f, CHUNK)
    ensures Pairs(f + rest) == ParseChunk(c) + Pairs(more + rest)
  {
    ChunkInFront(f, rest, CHUNK);
    Regroup(c, more, rest);
    PairsStep(f + rest, c, more + rest);
  }

  /** Chunks never reach over the end of a line. */
  lemma {:induction false} PairsConcat(f: string, rest: string)
    requires f != "" ==> f[|f| - 1] == '\n'
    ensures Pairs(f + rest) == Pairs(f) + Pairs(rest)
    decreases |f|
  {
    if f == "" {
      assert f + rest == rest;
    } else {
      var c, more := CutChunk(f);
      PairsConcat(more, rest);
      PairsStep(f, c, more);
      StepInFront(f, rest, c, more);
      RegroupPairs(ParseChunk(c), Pairs(more), Pairs(rest));
    }
  }

  /** The first chunk of a line holds its key. */
  lemma KeyIsInChunk(key: string, value: string)
    requires PlainKey(key)
    ensures var f := Line(ConfLine(key, value));
            var n := ChunkLen(f, CHUNK);
            |key| < n <= |f| && f[..n] == key + "=" + f[|key| + 1..n]
  {
    var f := Line(ConfLine(key, value));
    var n := ChunkLen(f, CHUNK);
    assert f[..|key| + 1] == key + "=";
    assert '\n' == BLANKS[3];
    assert forall k :: 0 <= k <= |key| ==> f[k] != '\n';
    assert f[..n] == f[..|key| + 1] + f[|key| + 1..n];
  }

  lemma KeyChunkTaken(key: string, v: string)
    requires PlainKey(key)
    ensures ParseChunk(key + "=" + v) == [KV(key, Trim(CStr(v)))]
  {
    PlainKeyHasNoNul(key);
    CStrBehind(key + "=", v);
    LineOf(key, CStr(v));
    IndexOfSplit(key, '=', CStr(v));
    var c := key + "=" + v;
    assert CStr(c) == key + ['='] + CStr(v);
    assert CStr(c)[0] == key[0];
  }

  lemma LineOf(key: string, v: string)
    ensures var l := key + ['='] + v; l[..|key|] == key && l[|key| + 1..] == v && (key + "=") + v == l
  {
  }

  lemma ApplyOnly(p: Policy, kv: KV)
    ensures ApplyAll(p, [kv]) == ApplyKv(p, kv)
  {
    assert [kv][1..] == [];
  }

  function TakenPair(l: ConfLine): KV { KV(l.key, Taken(l.key, l.value)) }

  lemma TakesLine(p: Policy, l: ConfLine)
    requires QuietLine(l)
    ensures ApplyAll(p, Pairs(Line(l))) == ApplyKv(p, TakenPair(l))
  {
    var f := Line(l);
    var n := ChunkLen(f, CHUNK);
    var q := ApplyKv(p, TakenPair(l));
    assert l == ConfLine(l.key, l.value);
    KeyIsInChunk(l.key, l.value);
    KeyChunkTaken(l.key, f[|l.key| + 1..n]);
    ApplyOnly(p, TakenPair(l));
    OneChunkThen(p, f);
    ChunkedReads(q, f[n..]);
    QuietChunks(q, Chunked(f[n..]));
  }

  lemma TakesLineThen(p: Policy, l: ConfLine, rest: string)
    requires QuietLine(l)
    ensures ApplyAll(p, Pairs(Line(l) + rest)) == ApplyAll(ApplyKv(p, TakenPair(l)), Pairs(rest))
  {
    PairsConcat(Line(l), rest);
    ApplyAllAppend(p, Pairs(Line(l)), Pairs(rest));
    TakesLine(p, l);
  }

  function AllTaken(lines: seq<ConfLine>): seq<KV> {
    seq(|lines|, i requires 0 <= i < |lines| => TakenPair(lines[i]))
  }

  lemma {:induction false} AllTakenCons(lines: seq<ConfLine>)
    requires lines != []
    ensures AllTaken(lines) == [TakenPair(lines[0])] + AllTaken(lines[1..])
  {
  }

  lemma ApplyCons(p: Policy, kv: KV, more: seq<KV>)
    ensures ApplyAll(p, [kv] + more) == ApplyAll(ApplyKv(p, kv), more)
  {
    assert ([kv] + more)[1..] == more;
  }

  lemma {:induction false} TakesText(p: Policy, lines: seq<ConfLine>)
    requires AllQuiet(lines)
    ensures ReadConf(p, Some(Text(lines))) == ApplyAll(p, AllTaken(lines))
    decreases |lines|
  {
    if lines != [] {
      var kv := TakenPair(lines[0]);
      TakesLineThen(p, lines[0], Text(lines[1..]));
      TakesText(ApplyKv(p, kv), lines[1..]);
      AllTakenCons(lines);
      ApplyCons(p, kv, AllTaken(lines[1..]));
    }
  }

  ghost predicate AllQuiet(lines: seq<ConfLine>) {
    forall i :: 0 <= i < |lines| ==> QuietLine(lines[i])
  }

  lemma {:induction false} LastIsOnly(kvs: seq<KV>, s: Setting, i: nat)
    requires i < |kvs| && SettingOf(kvs[i].key) == Some(s)
    requires forall j :: 0 <= j < |kvs| && j != i ==> SettingOf(kvs[j].key) != Some(s)
    ensures LastValue(kvs, s) == Some(kvs[i].val)
  {
    var n := |kvs| - 1;
    if i < n {
      LastIsOnly(kvs[..n], s, i);
    }
  }

  /** The setting has exactly one line, at place i. */
  ghost predicate OnlyAt(lines: seq<ConfLine>, s: Setting, i: nat) {
    && i < |lines| && lines[i].key == Name(s)
    && forall j :: 0 <= j < |lines| && j != i ==> SettingOf(lines[j].key) != Some(s)
  }

  /** A setting with exactly one line gets what the first chunk of that line carries. */
  lemma {:induction false} TakesOnly(p: Policy, lines: seq<ConfLine>, s: Setting, i: nat)
    requires AllQuiet(lines) && OnlyAt(lines, s, i)
    ensures ReadConf(p, Some(Text(lines))).Get(s) == Cut(Taken(Name(s), lines[i].value), Size(s))
  {
    NamesAreKnown(s);
    TakesText(p, lines);
    LastIsOnly(AllTaken(lines), s, i);
    ApplyAllIsLast(p, AllTaken(lines), s);
  }

  // ---- what the first chunk carries ----

  lemma {:induction false} CStrOfSolid(v: string)
    requires NUL !in v
    ensures CStr(v) == v
  {
    CStrUnique(v, v);
  }

  lemma TrimHasNoNul(v: string)
    requires NUL !in v
    ensures NUL !in Trim(v)
  {
    var i, j := TrimIsInner(v, BLANKS);
    assert forall c :: c in v[i..j] ==> c in v;
  }

  lemma TakenHasNoNul(key: string, value: string)
    ensures NUL !in Taken(key, value)
  {
    var f := Line(ConfLine(key, value));
    var n := ChunkLen(f, CHUNK);
    if n > |key| {
      TrimHasNoNul(CStr(f[|key| + 1..n]));
    }
  }

  /** No newline and no NUL, and no blank in front or at the end. */
  predicate Neat(v: string) {
    '\n' !in v && NUL !in v && (v != "" ==> v[0] !in BLANKS && v[|v| - 1] !in BLANKS)
  }

  lemma ValueEnds(key: string, value: string)
    requires PlainKey(key) && '\n' !in value
    ensures var f := Line(ConfLine(key, value));
            ChunkLen(f, CHUNK) == if |key| + 1 + |value| < CHUNK then |f| else CHUNK
    ensures Line(ConfLine(key, value))[|key| + 1..] == value + "\n"
  {
    var line := key + "=" + value;
    assert '\n' == BLANKS[3];
    ChunkInLine(line, "", CHUNK);
    assert line + "\n" + "" == Line(ConfLine(key, value));
  }

  /** A neat value that fits arrives whole. */
  lemma TakenWhole(key: string, value: string)
    requires PlainKey(key) && Neat(value) && |key| + 1 + |value| <= CHUNK
    ensures Taken(key, value) == value
  {
    ValueEnds(key, value);
    var f := Line(ConfLine(key, value));
    if |key| + 1 + |value| < CHUNK {
      assert f[|key| + 1..|f|] == value + "\n" == value + ['\n'];
      CStrOfSolid(value + "\n");
      TrimOfLine(value);
    } else {
      assert f[|key| + 1..CHUNK] == (value + "\n")[..|value|] == value;
      CStrOfSolid(value);
      TrimOfSolid(value, BLANKS);
    }
  }

  /** A longer one loses its end. */
  lemma TakenCut(key: string, value: string) returns (m: nat)
    requires PlainKey(key) && Neat(value) && |key| + 1 + |value| > CHUNK
    ensures m < |value| && m < CHUNK && Taken(key, value) == value[..m]
  {
    ValueEnds(key, value);
    var f, k := Line(ConfLine(key, value)), CHUNK - 1 - |key|;
    var v := value[..k];
    assert f[|key| + 1..CHUNK] == f[|key| + 1..][..k] == v;
    CStrOfSolid(v);
    m := TrimOfFront(v);
    assert v[..m] == value[..m];
  }

  lemma TrimOfFront(v: string) returns (m: nat)
    requires v != "" ==> v[0] !in BLANKS
    ensures m <= |v| && Trim(v) == v[..m]
  {
    assert TrimLeft(v, BLANKS) == v;
    m := TrimRightDrops(v, BLANKS);
  }

  // ---- lines without upper-case letters ----

  lemma {:induction false} LowerTextIsQuiet(f: string)
    requires NoUpper(f)
    ensures QuietAll(Chunked(f))
    decreases |f|
  {
    if f != "" {
      var n := ChunkLen(f, CHUNK);
      LowerKeyIsUnknown(f[..n]);
      LowerTextIsQuiet(f[n..]);
      QuietCons(Chunked(f));
    }
  }

  lemma LowerLineIsQuiet(key: string, value: string)
    requires PlainKey(key) && NoUpper(value)
    ensures QuietLine(ConfLine(key, value))
  {
    KeyIsInChunk(key, value);
    var f := Line(ConfLine(key, value));
    var n := ChunkLen(f, CHUNK);
    assert forall k :: |key| < k < |f| ==> f[k] == (value + "\n")[k - |key| - 1];
    LowerTextIsQuiet(f[n..]);
  }

  /** So is a line that fits one chunk. */
  lemma ShortLineIsQuiet(key: string, value: string)
    requires PlainKey(key) && '\n' !in value && |key| + 1 + |value| < CHUNK
    ensures QuietLine(ConfLine(key, value))
  {
    ValueEnds(key, value);
  }

  // ---- the maps ----

  /** Any keyed map of which both by-host lines are lines that C ignores. */
  ghost predicate Tame(order: seq<string>, hosts: Hosts)
    requires forall k :: k in order ==> k in hosts
  {
    && Keyed(hosts)
    && QuietLine(ConfLine("SKYTAP_SSL_PIN_BY_HOST", Join(PinEntries(order, hosts))))
    && QuietLine(ConfLine("SKYTAP_SSL_VERIFY_BY_HOST", Join(VerifyEntries(order, hosts))))
  }

  lemma KeyedIsNormal(hosts: Hosts, k: string)
    requires Keyed(hosts) && k in hosts
    ensures TrimSpace(k) == k && NoUpper(k)
  {
    var i, j := TrimIsInner(k, SPACES);
    assert |Lower(TrimSpace(k))| == j - i;
    assert k[0..|k|] == k;
    forall m | 0 <= m < |k| ensures !IsUpper(k[m]) {
      assert k[m] == Lower(TrimSpace(k))[m] == LowerChar(TrimSpace(k)[m]);
    }
  }

  lemma KeyedAreLower(names: seq<string>, hosts: Hosts)
    requires Keyed(hosts) && forall n :: n in names ==> n in hosts
    ensures LowerNames(names)
  {
    forall i | 0 <= i < |names| ensures NoUpper(names[i]) {
      assert names[i] in names;
      KeyedIsNormal(hosts, names[i]);
    }
  }

  lemma NamesLineIsQuiet(key: string, names: seq<string>, hosts: Hosts)
    requires PlainKey(key) && Keyed(hosts) && (forall n :: n in names ==> n in hosts)
    ensures QuietLine(ConfLine(key, Join(names)))
  {
    KeyedAreLower(names, hosts);
    JoinIsLower(names);
    LowerLineIsQuiet(key, Join(names));
  }

  lemma FixedLineIsQuiet(key: string, value: string)
    requires PlainKey(key) && LegalText(value) && |key| + 1 + |value| < CHUNK
    ensures QuietLine(ConfLine(key, value))
  {
    NoNewline(value);
    ShortLineIsQuiet(key, value);
  }

  lemma FixedLinesAreQuiet(on: bool)
    ensures QuietLine(ConfLine("SKYTAP_SSL_CA", "/certs/ca.crt"))
    ensures QuietLine(ConfLine("SKYTAP_SSL_PROXY", "http://skytap:8080"))
    ensures QuietLine(ConfLine("SKYTAP_SSL_ORIGIN_CERT_DIR", "/certs/origin-cache"))
    ensures QuietLine(ConfLine("SKYTAP_SSL_IMPERSONATE", OnOff(on)))
  {
    PathKeysArePlain();
    DirKeyIsPlain();
    ListKeysArePlain();
    FixedValuesAreLegal(on);
    DirIsLegal();
    FixedLineIsQuiet("SKYTAP_SSL_CA", "/certs/ca.crt");
    FixedLineIsQuiet("SKYTAP_SSL_PROXY", "http://skytap:8080");
    FixedLineIsQuiet("SKYTAP_SSL_ORIGIN_CERT_DIR", "/certs/origin-cache");
    FixedLineIsQuiet("SKYTAP_SSL_IMPERSONATE", OnOff(on));
  }

  lemma EightQuiet(a: ConfLine, b: ConfLine, c: ConfLine, d: ConfLine,
                   e: ConfLine, f: ConfLine, g: ConfLine, h: ConfLine)
    requires QuietLine(a) && QuietLine(b) && QuietLine(c) && QuietLine(d)
    requires QuietLine(e) && QuietLine(f) && QuietLine(g) && QuietLine(h)
    ensures AllQuiet([a, b, c, d, e, f, g, h])
  {
  }

  lemma TameLinesAreQuiet(order: seq<string>, hosts: Hosts)
    requires Distinct(order) && (forall k :: k in order ==> k in hosts) && Tame(order, hosts)
    ensures AllQuiet(ConfLines(KitNames(order, hosts), ImpersonateNames(order, hosts),
                               PinEntries(order, hosts), VerifyEntries(order, hosts)))
  {
    var kit, imp := KitNames(order, hosts), ImpersonateNames(order, hosts);
    KitNamesAre(order, hosts);
    ImpersonateNamesAre(order, hosts);
    FixedLinesAreQuiet(imp != []);
    ListKeysArePlain();
    NamesLineIsQuiet("SKYTAP_SSL_KIT_HOSTS", kit, hosts);
    NamesLineIsQuiet("SKYTAP_SSL_IMPERSONATE_HOSTS", imp, hosts);
    EightQuiet(ConfLine("SKYTAP_SSL_CA", "/certs/ca.crt"), ConfLine("SKYTAP_SSL_PROXY", "http://skytap:8080"),
               ConfLine("SKYTAP_SSL_ORIGIN_CERT_DIR", "/certs/origin-cache"),
               ConfLine("SKYTAP_SSL_KIT_HOSTS", Join(kit)), ConfLine("SKYTAP_SSL_IMPERSONATE_HOSTS", Join(imp)),
               ConfLine("SKYTAP_SSL_IMPERSONATE", OnOff(imp != [])),
               ConfLine("SKYTAP_SSL_PIN_BY_HOST", Join(PinEntries(order, hosts))),
               ConfLine("SKYTAP_SSL_VERIFY_BY_HOST", Join(VerifyEntries(order, hosts))));
  }

  // ---- what C reads of such a map ----

  /** The three list settings have one line each, at places 3, 4 and 5. */
  ghost predicate HasThree(lines: seq<ConfLine>) {
    OnlyAt(lines, KitHosts, 3) && OnlyAt(lines, ImpersonateHosts, 4) && OnlyAt(lines, Impersonate, 5)
  }

  lemma {:induction false} TakesThree(p: Policy, lines: seq<ConfLine>)
    requires HasThree(lines) && AllQuiet(lines)
    ensures var q := ReadConf(p, Some(Text(lines)));
            && q.Get(KitHosts) == Cut(Taken(Name(KitHosts), lines[3].value), Size(KitHosts))
            && q.Get(ImpersonateHosts) == Cut(Taken(Name(ImpersonateHosts), lines[4].value), Size(ImpersonateHosts))
            && q.Get(Impersonate) == Cut(Taken(Name(Impersonate), lines[5].value), Size(Impersonate))
  {
    TakesOnly(p, lines, KitHosts, 3);
    TakesOnly(p, lines, ImpersonateHosts, 4);
    TakesOnly(p, lines, Impersonate, 5);
  }

  lemma {:induction false} TakesRendered(p: Policy, lines: seq<ConfLine>, kit: seq<string>, imp: seq<string>,
                                         pins: seq<string>, vers: seq<string>)
    requires lines == ConfLines(kit, imp, pins, vers) && AllQuiet(lines)
    ensures var q := ReadConf(p, Some(Text(lines)));
            && q.Get(KitHosts) == Cut(Taken(Name(KitHosts), Join(kit)), Size(KitHosts))
            && q.Get(ImpersonateHosts) == Cut(Taken(Name(ImpersonateHosts), Join(imp)), Size(ImpersonateHosts))
            && q.Get(Impersonate) == Cut(Taken(Name(Impersonate), OnOff(imp != [])), Size(Impersonate))
  {
    KeysAreOnly(lines, kit, imp, pins, vers);
    ConfValues(lines, kit, imp, pins, vers);
    TakesThree(p, lines);
  }

  lemma {:induction false} KeysAreOnly(lines: seq<ConfLine>, kit: seq<string>, imp: seq<string>,
                                       pins: seq<string>, vers: seq<string>)
    requires lines == ConfLines(kit, imp, pins, vers)
    ensures HasThree(lines)
  {
    OnlyKeys(kit, imp, pins, vers);
    forall j | 0 <= j < |lines|
      ensures SettingOf(lines[j].key).Some? ==> Name(SettingOf(lines[j].key).value) == lines[j].key
    {
      SettingNames(lines[j].key);
    }
  }

  lemma SwitchTaken(on: bool)
    ensures Cut(Taken(Name(Impersonate), OnOff(on)), 8) == OnOff(on)
  {
    NameIsShort(Impersonate);
    ListKeysArePlain();
    FixedValuesAreLegal(on);
    NoNewline(OnOff(on));
    TakenWhole(Name(Impersonate), OnOff(on));
    assert |OnOff(on)| <= 3;
  }

  /** The three list settings of a load, for a tame map. */
  lemma TameLists(order: seq<string>, conf: string, hosts: Hosts, w: World)
    requires IsRenderingIn(order, conf, hosts) && Tame(order, hosts) && Reads(w, conf)
    ensures Load(w).Get(KitHosts) == Cut(Taken(Name(KitHosts), Join(KitNames(order, hosts))), Size(KitHosts))
    ensures Load(w).Get(ImpersonateHosts)
            == Cut(Taken(Name(ImpersonateHosts), Join(ImpersonateNames(order, hosts))), Size(ImpersonateHosts))
    ensures Load(w).Get(Impersonate) == OnOff(ImpersonateNames(order, hosts) != [])
  {
    var kit, imp := KitNames(order, hosts), ImpersonateNames(order, hosts);
    var pins, vers := PinEntries(order, hosts), VerifyEntries(order, hosts);
    TameLinesAreQuiet(order, hosts);
    var p := ReadConf(Defaults(), w.etc);
    TakesRendered(p, ConfLines(kit, imp, pins, vers), kit, imp, pins, vers);
    SwitchTaken(imp != []);
    EnvKeepsLists(ReadConf(p, w.certs), w);
  }

  // ---- names that C never finds ----

  predicate HasDelim(n: string) { exists i :: 0 <= i < |n| && IsDelim(n[i]) }

  /** A name that can be a token of a list in memory. */
  predicate Findable(n: string) { Solid(n) && NUL !in n }

  ghost predicate AllFindable(names: seq<string>) {
    forall i :: 0 <= i < |names| ==> Findable(names[i])
  }

  lemma {:induction false} TokensHaveNoDelims(s: string)
    ensures forall t :: t in Tokens(s, DELIMS) ==> !HasDelim(t)
    decreases |s|
  {
    DelimsAre();
    if s != "" {
      if s[0] in DELIMS {
        TokensHaveNoDelims(s[1..]);
      } else {
        TokensHaveNoDelims(s[Span(s, DELIMS)..]);
      }
    }
  }

  lemma DelimStays(c: char)
    ensures IsDelim(LowerChar(c)) <==> IsDelim(c)
  {
  }

  lemma FoldKeepsDelims(t: string, n: string)
    requires EqualFold(t, n) && HasDelim(n)
    ensures HasDelim(t)
  {
    var i :| 0 <= i < |n| && IsDelim(n[i]);
    assert |Lower(t)| == |Lower(n)| && Lower(t)[i] == Lower(n)[i];
    DelimStays(t[i]);
    DelimStays(n[i]);
  }

  /** Whatever the list is, C never finds an empty name, or one with a comma, blank, tab or newline in it. */
  lemma DelimNameIsNeverFound(list: string, n: string)
    requires n == "" || HasDelim(n)
    ensures !HostInList(list, n)
  {
    var toks := Tokens(Cut(list, 2048), DELIMS);
    TokensHaveNoDelims(Cut(list, 2048));
    forall t | t in toks && n != "" ensures !EqualFold(t, n) {
      if EqualFold(t, n) { FoldKeepsDelims(t, n); }
    }
  }

  lemma FoldKeepsNul(t: string, n: string)
    requires EqualFold(t, n) && NUL in n
    ensures NUL in t
  {
    var i :| 0 <= i < |n| && n[i] == NUL;
    assert |Lower(t)| == |Lower(n)| && Lower(t)[i] == Lower(n)[i];
    assert LowerChar(t[i]) == LowerChar(NUL) == NUL;
    assert t[i] == NUL;
  }

  /** A list in memory ends at its first NUL, so no name with one is in it. */
  lemma NulNameIsNeverFound(list: string, n: string)
    requires NUL !in list && NUL in n
    ensures !HostInList(list, n)
  {
    var toks := Tokens(Cut(list, 2048), DELIMS);
    TokensAreInner(Cut(list, 2048));
    forall t | t in toks ensures !EqualFold(t, n) {
      assert NUL !in t;
      if EqualFold(t, n) { FoldKeepsNul(t, n); }
    }
  }

  lemma UnfindableIsNeverFound(list: string, n: string)
    requires NUL !in list && !Findable(n)
    ensures !HostInList(list, n)
  {
    if NUL in n {
      NulNameIsNeverFound(list, n);
    } else {
      assert n == "" || HasDelim(n);
      DelimNameIsNeverFound(list, n);
    }
  }

  // ---- lists of findable names ----

  lemma {:induction false} JoinIsNeat(names: seq<string>, hosts: Hosts)
    requires AllFindable(names) && Keyed(hosts) && forall n :: n in names ==> n in hosts
    ensures Neat(Join(names)) && (names != [] ==> Join(names) != "")
  {
    if names != [] {
      var n := names[0];
      assert n in names && Findable(n);
      NameIsNeat(hosts, n);
      if |names| > 1 {
        assert forall i :: 0 <= i < |names[1..]| ==> names[1..][i] == names[i + 1];
        JoinIsNeat(names[1..], hosts);
        NeatConcat(n, Join(names[1..]));
      }
    }
  }

  lemma NameIsNeat(hosts: Hosts, n: string)
    requires Keyed(hosts) && n in hosts && Findable(n)
    ensures Neat(n) && n != ""
  {
    KeyedIsNormal(hosts, n);
    var i, j := TrimIsInner(n, SPACES);
    assert n[i..j] == n;
    BlanksAreSpaces(n[0]);
    BlanksAreSpaces(n[|n| - 1]);
  }

  lemma BlanksAreSpaces(c: char)
    ensures c in BLANKS ==> c in SPACES
  {
    assert SPACES[0] == ' ' && SPACES[1] == '\t' && SPACES[2] == '\n' && SPACES[3] == '\r';
  }

  lemma NeatConcat(a: string, b: string)
    requires Neat(a) && Neat(b) && a != "" && b != ""
    ensures Neat(a + "," + b) && a + "," + b != ""
  {
    var s := a + "," + b;
    assert s[0] == a[0] && s[|s| - 1] == b[|b| - 1];
  }

  /** A list that fits arrives whole. */
  lemma FittingListTaken(s: Setting, names: seq<string>, hosts: Hosts)
    requires AllFindable(names) && Keyed(hosts) && (forall n :: n in names ==> n in hosts)
    requires PlainKey(Name(s)) && Fits(s, names)
    ensures Cut(Taken(Name(s), Join(names)), 2048) == Join(names)
  {
    JoinIsNeat(names, hosts);
    TakenWhole(Name(s), Join(names));
  }

  lemma FindableAreSolid(names: seq<string>)
    requires AllFindable(names)
    ensures SolidNames(names)
  {
    forall i | 0 <= i < |names| ensures Solid(names[i]) {
      assert Findable(names[i]);
    }
  }

  /** One that does not loses a name. */
  lemma OverlongListTaken(s: Setting, names: seq<string>, hosts: Hosts) returns (n: string)
    requires AllFindable(names) && Distinct(names) && Keyed(hosts) && (forall k :: k in names ==> k in hosts)
    requires PlainKey(Name(s)) && !Fits(s, names)
    ensures n in names && !HostInList(Cut(Taken(Name(s), Join(names)), 2048), n)
  {
    JoinIsNeat(names, hosts);
    var m := TakenCut(Name(s), Join(names));
    KeyedAreLower(names, hosts);
    FindableAreSolid(names);
    n := CutListLosesName(names, m);
    NotFoundIn(Cut(Taken(Name(s), Join(names)), 2048), Join(names)[..m], n);
  }

  lemma ListKeysAreLong()
    ensures Size(KitHosts) == Size(ImpersonateHosts) == 2048
    ensures PlainKey(Name(KitHosts)) && PlainKey(Name(ImpersonateHosts))
  {
    ListKeysArePlain();
  }

  // ---- the agreement ----

  ghost predicate ImpersonateSame(hosts: Hosts, w: World) {
    forall h :: TrimSpace(h) == h ==> (ImpersonateHost(Load(w), h) <==> ImpersonateEnabled(hosts, h))
  }

  /** The trimmed names for which C impersonates. */
  function Found(p: Policy): set<string> {
    if ImpersonateOn(p) then set n | n in Names(p.Get(ImpersonateHosts)) && TrimSpace(n) == n else {}
  }

  function Enabled(hosts: Hosts): set<string> {
    set n | n in hosts && hosts[n].impersonate
  }

  lemma LowerIsTrimmed(h: string)
    requires TrimSpace(h) == h
    ensures TrimSpace(Lower(h)) == Lower(h) && Normalise(h) == Lower(h)
  {
    if h != "" {
      var i, j := TrimIsInner(h, SPACES);
      assert h[i..j] == h;
      LowerKeepsSpaces(h, 0);
      LowerKeepsSpaces(h, |h| - 1);
      TrimOfSolid(Lower(h), SPACES);
    }
  }

  /** Whatever was loaded, from whatever by-host lines: C and Go agree on every trimmed name if and only if
      the trimmed names on the list, if the switch is on, are the enabled ones. */
  lemma SameExactly(hosts: Hosts, w: World)
    requires Keyed(hosts)
    ensures ImpersonateSame(hosts, w) <==> Found(Load(w)) == Enabled(hosts)
  {
    var p := Load(w);
    forall h | TrimSpace(h) == h
      ensures ImpersonateHost(p, h) <==> Lower(h) in Found(p)
      ensures ImpersonateEnabled(hosts, h) <==> Lower(h) in Enabled(hosts)
    {
      InListExactly(p.Get(ImpersonateHosts), h);
      LowerIsTrimmed(h);
    }
    if ImpersonateSame(hosts, w) {
      forall n ensures n in Found(p) <==> n in Enabled(hosts) {
        if n in Found(p) { NamesAreLower(p.Get(ImpersonateHosts), n); }
        if n in Enabled(hosts) { EnabledIsNormal(hosts, n); }
      }
    }
  }

  lemma EnabledIsNormal(hosts: Hosts, n: string)
    requires Keyed(hosts) && n in hosts
    ensures TrimSpace(n) == n && Lower(n) == n
  {
    KeyedIsNormal(hosts, n);
    LowerOfLower(n);
  }

  lemma NotSame(hosts: Hosts, w: World, n: string)
    requires Keyed(hosts) && n in hosts && hosts[n].impersonate
    requires !HostInList(Load(w).Get(ImpersonateHosts), n)
    ensures !ImpersonateSame(hosts, w)
  {
    KeyedIsNormal(hosts, n);
    assert ImpersonateEnabled(hosts, n) && !ImpersonateHost(Load(w), n);
  }

  /** An enabled name that is empty or has a separator in it: C and Go disagree, whatever else there is. */
  lemma DelimNameDisagrees(hosts: Hosts, w: World, n: string)
    requires Keyed(hosts) && n in hosts && hosts[n].impersonate && (n == "" || HasDelim(n))
    ensures !ImpersonateSame(hosts, w)
  {
    DelimNameIsNeverFound(Load(w).Get(ImpersonateHosts), n);
    NotSame(hosts, w, n);
  }

  lemma UnfindableDisagrees(order: seq<string>, conf: string, hosts: Hosts, w: World)
    requires IsRenderingIn(order, conf, hosts) && Tame(order, hosts) && Reads(w, conf)
    requires !AllFindable(ImpersonateNames(order, hosts))
    ensures !ImpersonateSame(hosts, w)
  {
    var imp := ImpersonateNames(order, hosts);
    TameLists(order, conf, hosts, w);
    ImpersonateNamesAre(order, hosts);
    var i :| 0 <= i < |imp| && !Findable(imp[i]);
    assert imp[i] in imp;
    TakenHasNoNul(Name(ImpersonateHosts), Join(imp));
    UnfindableIsNeverFound(Load(w).Get(ImpersonateHosts), imp[i]);
    NotSame(hosts, w, imp[i]);
  }

  lemma OverlongDisagrees(order: seq<string>, conf: string, hosts: Hosts, w: World)
    requires IsRenderingIn(order, conf, hosts) && Tame(order, hosts) && Reads(w, conf)
    requires AllFindable(ImpersonateNames(order, hosts)) && !Fits(ImpersonateHosts, ImpersonateNames(order, hosts))
    ensures !ImpersonateSame(hosts, w)
  {
    var imp := ImpersonateNames(order, hosts);
    TameLists(order, conf, hosts, w);
    ImpersonateNamesAre(order, hosts);
    ListKeysAreLong();
    var n := OverlongListTaken(ImpersonateHosts, imp, hosts);
    NotSame(hosts, w, n);
  }

  lemma FindableAgree(order: seq<string>, conf: string, hosts: Hosts, w: World, h: string)
    requires IsRenderingIn(order, conf, hosts) && Tame(order, hosts) && Reads(w, conf) && TrimSpace(h) == h
    requires AllFindable(ImpersonateNames(order, hosts)) && Fits(ImpersonateHosts, ImpersonateNames(order, hosts))
    ensures ImpersonateHost(Load(w), h) <==> ImpersonateEnabled(hosts, h)
  {
    var imp := ImpersonateNames(order, hosts);
    TameLists(order, conf, hosts, w);
    ImpersonateNamesAre(order, hosts);
    ListKeysAreLong();
    FittingListTaken(ImpersonateHosts, imp, hosts);
    ListDecides(hosts, imp, Load(w), h);
  }

  /** The list, taken whole and with the switch on exactly when it is not empty, decides like Go. */
  lemma ListDecides(hosts: Hosts, imp: seq<string>, q: Policy, h: string)
    requires Keyed(hosts) && TrimSpace(h) == h
    requires forall n :: n in imp <==> n in hosts && hosts[n].impersonate
    requires AllFindable(imp) && |Join(imp)| < 2048
    requires q.Get(ImpersonateHosts) == Join(imp) && q.Get(Impersonate) == OnOff(imp != [])
    ensures ImpersonateHost(q, h) <==> ImpersonateEnabled(hosts, h)
  {
    KeyedAreLower(imp, hosts);
    FindableAreSolid(imp);
    WholeListDecides(imp, h);
    assert ImpersonateEnabled(hosts, h) <==> Lower(h) in imp;
    assert Lower(h) in imp ==> imp != [];
  }

  /** For any keyed map with quiet by-host lines, C and Go agree on every trimmed name if and only if no
      enabled name is empty or has a comma, blank, tab, newline or NUL in it, and the list line fits one
      chunk. */
  lemma ImpersonateAgreesExactly(order: seq<string>, conf: string, hosts: Hosts, w: World)
    requires IsRenderingIn(order, conf, hosts) && Tame(order, hosts) && Reads(w, conf)
    ensures ImpersonateSame(hosts, w) <==>
            AllFindable(ImpersonateNames(order, hosts)) && Fits(ImpersonateHosts, ImpersonateNames(order, hosts))
  {
    var imp := ImpersonateNames(order, hosts);
    if !AllFindable(imp) {
      UnfindableDisagrees(order, conf, hosts, w);
    } else if !Fits(ImpersonateHosts, imp) {
      OverlongDisagrees(order, conf, hosts, w);
    } else {
      forall h | TrimSpace(h) == h ensures ImpersonateHost(Load(w), h) <==> ImpersonateEnabled(hosts, h) {
        FindableAgree(order, conf, hosts, w, h);
      }
    }
  }

  // ---- the kit gate ----

  ghost predicate KitSame(hosts: Hosts, w: World) {
    forall h :: TrimSpace(h) == h ==>
      (KitHost(Load(w), h) <==> Normalise(h) in hosts && hosts[Normalise(h)].kit)
  }

  /** A host that is not in the map. */
  lemma FreshHost(hosts: Hosts) returns (h: string)
    ensures TrimSpace(h) == h && Normalise(h) !in hosts
  {
    var n := LongerThanAll(hosts.Keys);
    h := seq(n, _ => 'x');
    TrimOfSolid(h, SPACES);
    assert |Normalise(h)| == n;
  }

  /** An empty list opens the gate to hosts without Kit. */
  lemma OpenToAll(hosts: Hosts, w: World)
    requires Load(w).Get(KitHosts) == ""
    ensures !KitSame(hosts, w)
  {
    var h := FreshHost(hosts);
    assert KitHost(Load(w), h);
  }

  function OnKitList(p: Policy): set<string> {
    set n | n in Names(p.Get(KitHosts)) && TrimSpace(n) == n
  }

  function WithKit(hosts: Hosts): set<string> {
    set n | n in hosts && hosts[n].kit
  }

  /** The same for the kit gate: the list must not be empty, and its trimmed names those with Kit. */
  lemma KitSameExactly(hosts: Hosts, w: World)
    requires Keyed(hosts)
    ensures KitSame(hosts, w) <==> Load(w).Get(KitHosts) != "" && OnKitList(Load(w)) == WithKit(hosts)
  {
    var p := Load(w);
    if p.Get(KitHosts) == "" {
      OpenToAll(hosts, w);
    } else {
      forall h | TrimSpace(h) == h
        ensures KitHost(p, h) <==> Lower(h) in OnKitList(p)
        ensures Normalise(h) in hosts && hosts[Normalise(h)].kit <==> Lower(h) in WithKit(hosts)
      {
        InListExactly(p.Get(KitHosts), h);
        LowerIsTrimmed(h);
      }
      if KitSame(hosts, w) {
        forall n ensures n in OnKitList(p) <==> n in WithKit(hosts) {
          if n in OnKitList(p) { NamesAreLower(p.Get(KitHosts), n); }
          if n in WithKit(hosts) { EnabledIsNormal(hosts, n); }
        }
      }
    }
  }

  lemma NotKitSame(hosts: Hosts, w: World, n: string)
    requires Keyed(hosts) && n in hosts && hosts[n].kit && !HostInList(Load(w).Get(KitHosts), n)
    ensures !KitSame(hosts, w)
  {
    if Load(w).Get(KitHosts) == "" {
      OpenToAll(hosts, w);
    } else {
      KeyedIsNormal(hosts, n);
      assert !KitHost(Load(w), n) && Normalise(n) == n;
    }
  }

  lemma UnfindableKitDisagrees(order: seq<string>, conf: string, hosts: Hosts, w: World)
    requires IsRenderingIn(order, conf, hosts) && Tame(order, hosts) && Reads(w, conf)
    requires !AllFindable(KitNames(order, hosts))
    ensures !KitSame(hosts, w)
  {
    var kit := KitNames(order, hosts);
    TameLists(order, conf, hosts, w);
    KitNamesAre(order, hosts);
    var i :| 0 <= i < |kit| && !Findable(kit[i]);
    assert kit[i] in kit;
    TakenHasNoNul(Name(KitHosts), Join(kit));
    UnfindableIsNeverFound(Load(w).Get(KitHosts), kit[i]);
    NotKitSame(hosts, w, kit[i]);
  }

  lemma OverlongKitDisagrees(order: seq<string>, conf: string, hosts: Hosts, w: World)
    requires IsRenderingIn(order, conf, hosts) && Tame(order, hosts) && Reads(w, conf)
    requires AllFindable(KitNames(order, hosts)) && !Fits(KitHosts, KitNames(order, hosts))
    ensures !KitSame(hosts, w)
  {
    var kit := KitNames(order, hosts);
    TameLists(order, conf, hosts, w);
    KitNamesAre(order, hosts);
    ListKeysAreLong();
    var n := OverlongListTaken(KitHosts, kit, hosts);
    NotKitSame(hosts, w, n);
  }

  lemma FindableKitAgrees(order: seq<string>, conf: string, hosts: Hosts, w: World, h: string)
    requires IsRenderingIn(order, conf, hosts) && Tame(order, hosts) && Reads(w, conf) && TrimSpace(h) == h
    requires KitNames(order, hosts) != []
    requires AllFindable(KitNames(order, hosts)) && Fits(KitHosts, KitNames(order, hosts))
    ensures KitHost(Load(w), h) <==> Normalise(h) in hosts && hosts[Normalise(h)].kit
  {
    var kit := KitNames(order, hosts);
    TameLists(order, conf, hosts, w);
    KitNamesAre(order, hosts);
    ListKeysAreLong();
    FittingListTaken(KitHosts, kit, hosts);
    KeyedAreLower(kit, hosts);
    FindableAreSolid(kit);
    WholeListDecides(kit, h);
    JoinNotEmpty(kit);
  }

  /** The same for the kit gate, once some host has Kit. */
  lemma KitAgreesExactly(order: seq<string>, conf: string, hosts: Hosts, w: World)
    requires IsRenderingIn(order, conf, hosts) && Tame(order, hosts) && Reads(w, conf)
    requires KitNames(order, hosts) != []
    ensures KitSame(hosts, w) <==>
            AllFindable(KitNames(order, hosts)) && Fits(KitHosts, KitNames(order, hosts))
  {
    var kit := KitNames(order, hosts);
    if !AllFindable(kit) {
      UnfindableKitDisagrees(order, conf, hosts, w);
    } else if !Fits(KitHosts, kit) {
      OverlongKitDisagrees(order, conf, hosts, w);
    } else {
      forall h | TrimSpace(h) == h
        ensures KitHost(Load(w), h) <==> Normalise(h) in hosts && hosts[Normalise(h)].kit
      {
        FindableKitAgrees(order, conf, hosts, w, h);
      }
    }
  }

  // ---- witnesses ----

  const COMMA: HostPolicy := HostPolicy("a,b", false, true, "off", "ca", false, "", "", "")

  lemma CommaIsKeyed()
    ensures Keyed(map["a,b" := COMMA]) && HasDelim("a,b")
  {
    var n := "a,b";
    assert n[0] !in SPACES && n[2] !in SPACES;
    TrimOfSolid(n, SPACES);
    LowerOfLower(n);
    assert IsDelim(n[1]);
  }

  /** One enabled host "a,b", whatever the file and the load: C and Go do not agree. */
  lemma CommaNameDisagrees(w: World)
    ensures !ImpersonateSame(map["a,b" := COMMA], w)
  {
    CommaIsKeyed();
    DelimNameDisagrees(map["a,b" := COMMA], w, "a,b");
  }

  // ---- newlines in values ----

  /** A newline in a value is the end of its line: the rest is a line of its own. */
  lemma NewlineMakesTwoLines(key: string, a: string, other: string, b: string)
    ensures Line(ConfLine(key, a + "\n" + other + "=" + b)) == Line(ConfLine(key, a)) + Line(ConfLine(other, b))
  {
  }

  lemma NewlineSplitsText(front: seq<ConfLine>, key: string, a: string, other: string, b: string, back: seq<ConfLine>)
    ensures Text(front + [ConfLine(key, a + "\n" + other + "=" + b)] + back)
            == Text(front + [ConfLine(key, a), ConfLine(other, b)] + back)
    decreases |front|
  {
    var one, two := [ConfLine(key, a + "\n" + other + "=" + b)], [ConfLine(key, a), ConfLine(other, b)];
    if front == [] {
      NewlineMakesTwoLines(key, a, other, b);
      assert (front + one + back)[1..] == back && (front + two + back)[1..] == [two[1]] + back;
      assert ([two[1]] + back)[1..] == back;
      Regroup(Line(two[0]), Line(two[1]), Text(back));
    } else {
      assert (front + one + back)[1..] == front[1..] + one + back;
      assert (front + two + back)[1..] == front[1..] + two + back;
      NewlineSplitsText(front[1..], key, a, other, b, back);
    }
  }

  lemma PinKeysArePlain()
    ensures PlainKey("SKYTAP_SSL_PIN") && PlainKey("SKYTAP_SSL_PIN_OVERRIDE")
  {
  }

  lemma VerifyKeysArePlain()
    ensures PlainKey("SKYTAP_SSL_VERIFY") && PlainKey("SKYTAP_SSL_KEYLOG")
  {
  }

  lemma SettingNameIsPlain(s: Setting)
    ensures PlainKey(Name(s))
  {
    match s
    case Pin | PinOverride => PinKeysArePlain();
    case Verify | Keylog => VerifyKeysArePlain();
    case Ca | Proxy => PathKeysArePlain();
    case OriginCertDir => DirKeyIsPlain();
    case Impersonate | ImpersonateHosts | KitHosts => ListKeysArePlain();
  }

  function SixLines(): seq<ConfLine> { ConfLines([], [], [], [])[..6] }

  /** The file of one host "a" whose pin text is "off", a newline, and the line that sets s to v. */
  function Split(s: Setting, v: string): seq<ConfLine> {
    SixLines() + [ConfLine("SKYTAP_SSL_PIN_BY_HOST", "a=off"), ConfLine(Name(s), v)]
    + [ConfLine("SKYTAP_SSL_VERIFY_BY_HOST", "a=ca")]
  }

  function Broken(s: Setting, v: string): Hosts {
    map["a" := HostPolicy("a", false, false, "off\n" + Name(s) + "=" + v, "ca", false, "", "", "")]
  }

  lemma BrokenEntries(s: Setting, v: string)
    ensures Enumerates(["a"], Broken(s, v).Keys)
    ensures var hosts := Broken(s, v);
            && KitNames(["a"], hosts) == [] && ImpersonateNames(["a"], hosts) == []
            && PinEntries(["a"], hosts) == ["a=" + ("off\n" + Name(s) + "=" + v)]
            && VerifyEntries(["a"], hosts) == ["a=ca"]
  {
    var order := ["a"];
    assert order[0] in order && order[..0] == [];
    assert "a" + "=" == "a=" && "a=" + "ca" == "a=ca";
  }

  lemma SixThenTwo(pin: string, ver: string)
    ensures ConfLines([], [], [pin], [ver]) ==
            SixLines() + [ConfLine("SKYTAP_SSL_PIN_BY_HOST", pin)] + [ConfLine("SKYTAP_SSL_VERIFY_BY_HOST", ver)]
  {
  }

  lemma PinAsLines(name: string, v: string)
    ensures "a=" + ("off\n" + name + "=" + v) == "a=off" + "\n" + name + "=" + v
  {
  }

  lemma BrokenText(s: Setting, v: string)
    requires forall k :: k in ["a"] ==> k in Broken(s, v)
    ensures Render(["a"], Broken(s, v)) == Text(Split(s, v))
  {
    BrokenEntries(s, v);
    PinAsLines(Name(s), v);
    SixThenTwo("a=off" + "\n" + Name(s) + "=" + v, "a=ca");
    NewlineSplitsText(SixLines(), "SKYTAP_SSL_PIN_BY_HOST", "a=off", Name(s), v,
                      [ConfLine("SKYTAP_SSL_VERIFY_BY_HOST", "a=ca")]);
  }

  lemma SixQuiet(a: ConfLine, b: ConfLine, c: ConfLine, d: ConfLine, e: ConfLine, f: ConfLine)
    requires QuietLine(a) && QuietLine(b) && QuietLine(c) && QuietLine(d) && QuietLine(e) && QuietLine(f)
    ensures AllQuiet([a, b, c, d, e, f])
  {
  }

  lemma SixAre()
    ensures SixLines() ==
            [ConfLine("SKYTAP_SSL_CA", "/certs/ca.crt"), ConfLine("SKYTAP_SSL_PROXY", "http://skytap:8080"),
             ConfLine("SKYTAP_SSL_ORIGIN_CERT_DIR", "/certs/origin-cache"), ConfLine("SKYTAP_SSL_KIT_HOSTS", ""),
             ConfLine("SKYTAP_SSL_IMPERSONATE_HOSTS", ""), ConfLine("SKYTAP_SSL_IMPERSONATE", OnOff(false))]
  {
  }

  lemma SixAreQuiet()
    ensures AllQuiet(SixLines())
  {
    FixedLinesAreQuiet(false);
    ListKeysArePlain();
    LowerLineIsQuiet("SKYTAP_SSL_KIT_HOSTS", "");
    LowerLineIsQuiet("SKYTAP_SSL_IMPERSONATE_HOSTS", "");
    SixAre();
    SixQuiet(ConfLine("SKYTAP_SSL_CA", "/certs/ca.crt"), ConfLine("SKYTAP_SSL_PROXY", "http://skytap:8080"),
             ConfLine("SKYTAP_SSL_ORIGIN_CERT_DIR", "/certs/origin-cache"), ConfLine("SKYTAP_SSL_KIT_HOSTS", ""),
             ConfLine("SKYTAP_SSL_IMPERSONATE_HOSTS", ""), ConfLine("SKYTAP_SSL_IMPERSONATE", OnOff(false)));
  }

  lemma ThreeMoreQuiet(front: seq<ConfLine>, a: ConfLine, b: ConfLine, c: ConfLine)
    requires AllQuiet(front) && QuietLine(a) && QuietLine(b) && QuietLine(c)
    ensures AllQuiet(front + [a, b] + [c])
  {
  }

  lemma TwoHaveNoUpper()
    ensures NoUpper("a=off") && NoUpper("a=ca")
  {
  }

  lemma TwoAreQuiet()
    ensures QuietLine(ConfLine("SKYTAP_SSL_PIN_BY_HOST", "a=off"))
    ensures QuietLine(ConfLine("SKYTAP_SSL_VERIFY_BY_HOST", "a=ca"))
  {
    ByHostKeysAreUnknown();
    TwoHaveNoUpper();
    LowerLineIsQuiet("SKYTAP_SSL_PIN_BY_HOST", "a=off");
    LowerLineIsQuiet("SKYTAP_SSL_VERIFY_BY_HOST", "a=ca");
  }

  lemma SplitIsQuiet(s: Setting, v: string)
    requires '\n' !in v && |Name(s)| + 1 + |v| < CHUNK
    ensures AllQuiet(Split(s, v))
  {
    SixAreQuiet();
    SettingNameIsPlain(s);
    ShortLineIsQuiet(Name(s), v);
    TwoAreQuiet();
    ThreeMoreQuiet(SixLines(), ConfLine("SKYTAP_SSL_PIN_BY_HOST", "a=off"), ConfLine(Name(s), v),
                   ConfLine("SKYTAP_SSL_VERIFY_BY_HOST", "a=ca"));
  }

  lemma LastButOne(kvs: seq<KV>, s: Setting)
    requires |kvs| >= 2 && SettingOf(kvs[|kvs| - 1].key) == None && SettingOf(kvs[|kvs| - 2].key) == Some(s)
    ensures LastValue(kvs, s) == Some(kvs[|kvs| - 2].val)
  {
    assert kvs[..|kvs| - 1][|kvs| - 2] == kvs[|kvs| - 2];
  }

  /** So a pin text can give any setting any value: the file written for the one host "a", whose policy has
      neither kit nor impersonation, sets s to v, whatever was read before. */
  lemma NewlineSetsAnything(p: Policy, s: Setting, v: string)
    requires '\n' !in v && |Name(s)| + 1 + |v| < CHUNK
    ensures Enumerates(["a"], Broken(s, v).Keys)
    ensures ReadConf(p, Some(Render(["a"], Broken(s, v)))).Get(s) == Cut(Taken(Name(s), v), Size(s))
  {
    BrokenEntries(s, v);
    BrokenText(s, v);
    SplitIsQuiet(s, v);
    TakesText(p, Split(s, v));
    NamesAreKnown(s);
    ByHostKeysAreUnknown();
    LastButOne(AllTaken(Split(s, v)), s);
    ApplyAllIsLast(p, AllTaken(Split(s, v)), s);
  }
}
