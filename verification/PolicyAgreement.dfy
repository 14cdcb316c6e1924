/** The file that Go writes and C reads: for which host maps the decision taken in C is the decision
    of the Go map, and what exactly goes wrong for the others. */
module PolicyAgreement {
  import opened Prelude
  import opened CStrings
  import opened GoStrings
  import opened PolicyFile
  import opened SslKit

  // ---- what a store may hold ----

  /** Lower-case and separator-free. */
  predicate NameChar(c: char) {
    c !in SPACES && c != ',' && c != NUL && !IsUpper(c)
  }

  predicate ValueChar(c: char) {
    c !in BLANKS && c != NUL && !IsUpper(c)
  }

  ghost predicate LegalName(n: string) {
    n != "" && forall i :: 0 <= i < |n| ==> NameChar(n[i])
  }

  ghost predicate LegalText(v: string) {
    forall i :: 0 <= i < |v| ==> ValueChar(v[i])
  }

  ghost predicate Legal(hosts: Hosts) {
    && Keyed(hosts)
    && forall k :: k in hosts ==> LegalName(k) && LegalText(hosts[k].pin) && LegalText(hosts[k].verify)
  }

  // ---- reading one line ----

  /** The part of a value that the chunk with the key still holds. */
  function Visible(key: string, value: string): (v: string)
    ensures v <= value
    ensures |key| + 1 + |value| <= CHUNK ==> v == value
  {
    if |key| + 1 + |value| <= CHUNK || |key| + 1 > CHUNK then value else value[..CHUNK - 1 - |key|]
  }

  /** Keys as the Go side writes them. */
  predicate PlainKey(key: string) {
    && 0 < |key| < CHUNK - 1 && key[0] != '#' && key[0] != ';'
    && forall i :: 0 <= i < |key| ==> key[i] != '=' && key[i] != NUL && key[i] !in BLANKS
  }

  predicate NoUpper(s: string) {
    forall i :: 0 <= i < |s| ==> !IsUpper(s[i])
  }

  lemma SettingNames(key: string)
    ensures SettingOf(key).Some? ==> Name(SettingOf(key).value) == key
  {
  }

  lemma NameBeginsUpper(s: Setting)
    ensures Name(s) != "" && IsUpper(Name(s)[0])
  {
  }

  lemma UnknownKey(k: string)
    requires NoUpper(k)
    ensures SettingOf(k) == None
  {
    if SettingOf(k).Some? {
      SettingNames(k);
      NameBeginsUpper(SettingOf(k).value);
    }
  }

  lemma TrimmedHasNoUpper(s: string)
    requires NoUpper(s)
    ensures NoUpper(Trim(s))
  {
    var i, j := TrimIsInner(s, BLANKS);
    var k := Trim(s);
    assert forall m :: 0 <= m < |k| ==> k[m] == s[i..j][m];
  }

  lemma FrontHasNoUpper(s: string, t: string, n: nat)
    requires NoUpper(s) && t <= s && n <= |t|
    ensures NoUpper(t[..n])
  {
    assert forall m :: 0 <= m < n ==> t[..n][m] == s[m];
  }

  /** What stands in front of the first '=' of such a chunk names nothing. */
  lemma LowerKeyIsUnknown(c: string)
    requires NoUpper(c)
    ensures SettingOf(Trim(CStr(c)[..IndexOf(CStr(c), '=')])) == None
  {
    var l := CStr(c);
    FrontHasNoUpper(c, l, IndexOf(l, '='));
    TrimmedHasNoUpper(l[..IndexOf(l, '=')]);
    UnknownKey(Trim(l[..IndexOf(l, '=')]));
  }

  lemma UnknownPair(p: Policy, kv: KV)
    requires SettingOf(kv.key) == None
    ensures ApplyAll(p, [kv]) == p
  {
    assert [kv][1..] == [];
  }

  /** A chunk that starts inside a value sets nothing. */
  lemma HarmlessChunk(p: Policy, c: string)
    requires NoUpper(c)
    ensures ApplyAll(p, ParseChunk(c)) == p
  {
    LowerKeyIsUnknown(c);
    if ParseChunk(c) != [] {
      UnknownPair(p, ParseChunk(c)[0]);
      assert ParseChunk(c) == [ParseChunk(c)[0]];
    }
  }

  /** fgets never reads past the newline, whatever follows it. */
  lemma {:induction false} ChunkInLine(line: string, rest: string, max: nat)
    requires max > 0 && '\n' !in line
    ensures ChunkLen(line + "\n" + rest, max) == if |line| < max then |line| + 1 else max
  {
    var f := line + "\n" + rest;
    if line == "" {
      assert f[0] == '\n';
    } else {
      assert f[0] == line[0] && line[0] in line;
      if max > 1 {
        assert f[1..] == line[1..] + "\n" + rest;
        ChunkInLine(line[1..], rest, max - 1);
      }
    }
  }

  /** The rest of an over-long line, split into any number of chunks, sets nothing. */
  lemma {:induction false} HarmlessTail(p: Policy, tail: string, rest: string)
    requires LegalText(tail)
    ensures ApplyAll(p, Pairs(tail + "\n" + rest)) == ApplyAll(p, Pairs(rest))
    decreases |tail|
  {
    NoNewline(tail);
    ChunkInLine(tail, rest, CHUNK);
    var f := tail + "\n" + rest;
    var n := ChunkLen(f, CHUNK);
    HarmlessChunk(p, f[..n]);
    ApplyAllAppend(p, ParseChunk(f[..n]), Pairs(f[n..]));
    if |tail| < CHUNK {
      assert f[n..] == rest;
    } else {
      assert f[n..] == tail[CHUNK..] + "\n" + rest;
      HarmlessTail(p, tail[CHUNK..], rest);
    }
  }

  lemma NoNewline(v: string)
    requires LegalText(v)
    ensures '\n' !in v
  {
    assert '\n' == BLANKS[3];
  }

  lemma KeyChunkHasNoNul(key: string, v: string, end: string)
    requires PlainKey(key) && LegalText(v) && (end == "" || end == "\n")
    ensures CStr(key + "=" + v + end) == key + "=" + v + end
  {
    var c := key + "=" + v + end;
    forall i | 0 <= i < |c| ensures c[i] != NUL {
      if i < |key| { assert c[i] == key[i]; }
      else if |key| < i <= |key| + |v| { assert c[i] == v[i - |key| - 1]; }
    }
    CStrUnique(c, c);
  }

  lemma TrimOfValue(v: string, end: string)
    requires LegalText(v) && (end == "" || end == "\n")
    ensures Trim(v + end) == v
  {
    if end == "" {
      assert v + end == v;
      TrimOfSolid(v, BLANKS);
    } else {
      TrimOfLine(v);
    }
  }

  /** The chunk with the key: exactly the key and the visible part of the value. */
  lemma KeyChunk(key: string, v: string, end: string)
    requires PlainKey(key) && LegalText(v) && (end == "" || end == "\n")
    ensures ParseChunk(key + "=" + v + end) == [KV(key, v)]
  {
    KeyChunkHasNoNul(key, v, end);
    TrimOfValue(v, end);
    TrimOfSolid(key, BLANKS);
    KeyAndRest(key, v, end);
    ParsesAs(key + "=" + v + end, key, v + end);
  }

  lemma ParsesAs(c: string, key: string, rest: string)
    requires CStr(c) == c == key + ['='] + rest && key != "" && '=' !in key && key[0] != '#' && key[0] != ';'
    ensures ParseChunk(c) == [KV(Trim(key), Trim(rest))]
  {
    IndexOfSplit(key, '=', rest);
    assert c[0] == key[0] && c[..|key|] == key && c[|key| + 1..] == rest;
  }

  lemma KeyAndRest(key: string, v: string, end: string)
    ensures var c := key + "=" + v + end;
            && c == key + ['='] + (v + end) && c[..|key|] == key && c[|key| + 1..] == v + end
            && (key != "" ==> c[0] == key[0])
  {
    var c := key + ['='] + (v + end);
    assert key + "=" + v + end == c;
    assert c[..|key|] == key && c[|key| + 1..] == v + end;
  }

  lemma ReadShortLine(p: Policy, key: string, value: string, rest: string)
    requires PlainKey(key) && LegalText(value) && |key| + 1 + |value| < CHUNK
    ensures ApplyAll(p, Pairs(Line(ConfLine(key, value)) + rest)) == ApplyAll(ApplyKv(p, KV(key, value)), Pairs(rest))
  {
    var line := key + "=" + value;
    assert Line(ConfLine(key, value)) + rest == line + "\n" + rest;
    NoNewlineInLine(key, value);
    ChunkInLine(line, rest, CHUNK);
    KeyChunk(key, value, "\n");
    FirstChunk(p, Line(ConfLine(key, value)), rest, KV(key, value));
  }

  lemma ReadLongLine(p: Policy, key: string, value: string, rest: string)
    requires PlainKey(key) && LegalText(value) && |key| + 1 + |value| >= CHUNK
    ensures ApplyAll(p, Pairs(Line(ConfLine(key, value)) + rest)) ==
            ApplyAll(ApplyKv(p, KV(key, value[..CHUNK - 1 - |key|])), Pairs(rest))
  {
    var v, tail := value[..CHUNK - 1 - |key|], value[CHUNK - 1 - |key|..];
    var c, after := key + "=" + v, tail + "\n" + rest;
    LongLineSplit(key, value, rest);
    KeyChunk(key, v, "");
    assert c + "" == c;
    FirstChunk(p, c, after, KV(key, v));
    HarmlessTail(ApplyKv(p, KV(key, v)), tail, rest);
  }

  lemma LongLineSplit(key: string, value: string, rest: string)
    requires PlainKey(key) && LegalText(value) && |key| + 1 + |value| >= CHUNK
    ensures var c := key + "=" + value[..CHUNK - 1 - |key|];
            var after := value[CHUNK - 1 - |key|..] + "\n" + rest;
            Line(ConfLine(key, value)) + rest == c + after && ChunkLen(c + after, CHUNK) == |c| == CHUNK
  {
    var line := key + "=" + value;
    NoNewlineInLine(key, value);
    ChunkInLine(line, rest, CHUNK);
    var c := key + "=" + value[..CHUNK - 1 - |key|];
    var after := value[CHUNK - 1 - |key|..] + "\n" + rest;
    assert Line(ConfLine(key, value)) + rest == line + "\n" + rest == c + after;
  }

  /** Reading a whole line, however long: its key gets the visible part of its value. */
  lemma ReadLine(p: Policy, key: string, value: string, rest: string)
    requires PlainKey(key) && LegalText(value)
    ensures ApplyAll(p, Pairs(Line(ConfLine(key, value)) + rest)) ==
            ApplyAll(ApplyKv(p, KV(key, Visible(key, value))), Pairs(rest))
  {
    if |key| + 1 + |value| < CHUNK {
      ReadShortLine(p, key, value, rest);
    } else {
      ReadLongLine(p, key, value, rest);
      assert Visible(key, value) == value[..CHUNK - 1 - |key|];
    }
  }

  lemma FirstChunk(p: Policy, c: string, rest: string, kv: KV)
    requires c != "" && ChunkLen(c + rest, CHUNK) == |c| && ParseChunk(c) == [kv]
    ensures ApplyAll(p, Pairs(c + rest)) == ApplyAll(ApplyKv(p, kv), Pairs(rest))
  {
    assert (c + rest)[..|c|] == c && (c + rest)[|c|..] == rest;
    ApplyAllAppend(p, [kv], Pairs(rest));
    assert [kv][1..] == [];
  }

  lemma NoNewlineInLine(key: string, value: string)
    requires PlainKey(key) && LegalText(value)
    ensures '\n' !in key + "=" + value
  {
    NoNewline(value);
    assert '\n' == BLANKS[3];
  }

  // ---- reading the whole file ----

  ghost predicate PlainLine(l: ConfLine) {
    PlainKey(l.key) && LegalText(l.value)
  }

  /** What is left of a file of such lines once it went through the chunks. */
  function LinesRead(p: Policy, lines: seq<ConfLine>): Policy
    decreases |lines|
  {
    if lines == [] then p
    else LinesRead(ApplyKv(p, KV(lines[0].key, Visible(lines[0].key, lines[0].value))), lines[1..])
  }

  lemma {:induction false} ReadText(p: Policy, lines: seq<ConfLine>)
    requires forall i :: 0 <= i < |lines| ==> PlainLine(lines[i])
    ensures ReadConf(p, Some(Text(lines))) == LinesRead(p, lines)
    decreases |lines|
  {
    if lines != [] {
      var l := lines[0];
      assert PlainLine(l) && l == ConfLine(l.key, l.value);
      ReadLine(p, l.key, l.value, Text(lines[1..]));
      ReadText(ApplyKv(p, KV(l.key, Visible(l.key, l.value))), lines[1..]);
    }
  }

  lemma {:induction false} OtherLines(p: Policy, lines: seq<ConfLine>, s: Setting)
    requires forall i :: 0 <= i < |lines| ==> lines[i].key != Name(s)
    ensures LinesRead(p, lines).Get(s) == p.Get(s)
    decreases |lines|
  {
    if lines != [] {
      var q := ApplyKv(p, KV(lines[0].key, Visible(lines[0].key, lines[0].value)));
      assert q.Get(s) == p.Get(s);
      OtherLines(q, lines[1..], s);
    }
  }

  /** A setting with exactly one line gets the visible part of that line's value. */
  lemma {:induction false} OnlyLine(p: Policy, lines: seq<ConfLine>, s: Setting, i: nat)
    requires i < |lines| && lines[i].key == Name(s)
    requires forall j :: 0 <= j < |lines| && j != i ==> lines[j].key != Name(s)
    ensures LinesRead(p, lines).Get(s) == Cut(Visible(Name(s), lines[i].value), Size(s))
    decreases |lines|
  {
    var q := ApplyKv(p, KV(lines[0].key, Visible(lines[0].key, lines[0].value)));
    if i == 0 {
      NamesAreKnown(s);
      OtherLines(q, lines[1..], s);
    } else {
      OnlyLine(q, lines[1..], s, i - 1);
    }
  }

  lemma NamesAreKnown(s: Setting)
    ensures SettingOf(Name(s)) == Some(s)
  {
  }

  lemma PathKeysArePlain()
    ensures PlainKey("SKYTAP_SSL_CA") && PlainKey("SKYTAP_SSL_PROXY")
  {
  }

  lemma DirKeyIsPlain()
    ensures PlainKey("SKYTAP_SSL_ORIGIN_CERT_DIR")
  {
  }

  lemma ListKeysArePlain()
    ensures PlainKey("SKYTAP_SSL_KIT_HOSTS") && PlainKey("SKYTAP_SSL_IMPERSONATE_HOSTS")
    ensures PlainKey("SKYTAP_SSL_IMPERSONATE")
  {
  }

  lemma ByHostKeysArePlain()
    ensures PlainKey("SKYTAP_SSL_PIN_BY_HOST") && PlainKey("SKYTAP_SSL_VERIFY_BY_HOST")
  {
  }

  lemma FixedValuesAreLegal(on: bool)
    ensures LegalText("/certs/ca.crt") && LegalText("http://skytap:8080") && LegalText(OnOff(on))
  {
  }

  lemma DirIsLegal()
    ensures LegalText("/certs/origin-cache")
  {
  }

  lemma {:induction false} ConfLinesArePlain(kit: seq<string>, imp: seq<string>, pins: seq<string>, vers: seq<string>)
    requires LegalText(Join(kit)) && LegalText(Join(imp)) && LegalText(Join(pins)) && LegalText(Join(vers))
    ensures var lines := ConfLines(kit, imp, pins, vers);
            forall i :: 0 <= i < |lines| ==> PlainLine(lines[i])
  {
    PathKeysArePlain();
    DirKeyIsPlain();
    ListKeysArePlain();
    ByHostKeysArePlain();
    FixedValuesAreLegal(imp != []);
    DirIsLegal();
  }

  lemma NameIsShort(s: Setting)
    ensures |Name(s)| < 40
  {
  }

  lemma ReadOnly(p: Policy, lines: seq<ConfLine>, s: Setting, i: nat)
    requires forall j :: 0 <= j < |lines| ==> PlainLine(lines[j])
    requires i < |lines| && lines[i].key == Name(s)
    requires forall j :: 0 <= j < |lines| && j != i ==> lines[j].key != Name(s)
    ensures ReadConf(p, Some(Text(lines))).Get(s) == Cut(Visible(Name(s), lines[i].value), Size(s))
  {
    ReadText(p, lines);
    OnlyLine(p, lines, s, i);
  }

  lemma SwitchFits(on: bool)
    ensures Cut(Visible(Name(Impersonate), OnOff(on)), Size(Impersonate)) == OnOff(on)
  {
    NameIsShort(Impersonate);
    assert |OnOff(on)| <= 3;
  }

  lemma ReadLists(p: Policy, lines: seq<ConfLine>, kit: seq<string>, imp: seq<string>,
                  pins: seq<string>, vers: seq<string>)
    requires LegalText(Join(kit)) && LegalText(Join(imp)) && LegalText(Join(pins)) && LegalText(Join(vers))
    requires lines == ConfLines(kit, imp, pins, vers)
    ensures var q := ReadConf(p, Some(Text(lines)));
            && q.Get(KitHosts) == Cut(Visible(Name(KitHosts), lines[3].value), Size(KitHosts))
            && q.Get(ImpersonateHosts) == Cut(Visible(Name(ImpersonateHosts), lines[4].value), Size(ImpersonateHosts))
            && q.Get(Impersonate) == Cut(Visible(Name(Impersonate), lines[5].value), Size(Impersonate))
  {
    ConfLinesArePlain(kit, imp, pins, vers);
    OnlyKeys(kit, imp, pins, vers);
    ReadOnly(p, lines, KitHosts, 3);
    ReadOnly(p, lines, ImpersonateHosts, 4);
    ReadOnly(p, lines, Impersonate, 5);
  }

  lemma ConfValues(lines: seq<ConfLine>, kit: seq<string>, imp: seq<string>, pins: seq<string>, vers: seq<string>)
    requires lines == ConfLines(kit, imp, pins, vers)
    ensures |lines| == 8 && lines[3].value == Join(kit) &&
      lines[4].value == Join(imp) && lines[5].value == OnOff(imp != [])
  {
  }

  lemma ListsFrom(q: Policy, kit: string, imp: string, on: bool)
    requires q.Get(KitHosts) == Cut(Visible(Name(KitHosts), kit), Size(KitHosts))
    requires q.Get(ImpersonateHosts) == Cut(Visible(Name(ImpersonateHosts), imp), Size(ImpersonateHosts))
    requires q.Get(Impersonate) == Cut(Visible(Name(Impersonate), OnOff(on)), Size(Impersonate))
    ensures ListsAre(q, kit, imp, on)
  {
    SwitchFits(on);
  }

  /** The three list settings of a policy. */
  ghost predicate ListsAre(q: Policy, kit: string, imp: string, on: bool) {
    && q.Get(KitHosts) == Cut(Visible(Name(KitHosts), kit), 2048)
    && q.Get(ImpersonateHosts) == Cut(Visible(Name(ImpersonateHosts), imp), 2048)
    && q.Get(Impersonate) == OnOff(on)
  }

  lemma ReadBodyLines(p: Policy, lines: seq<ConfLine>, kit: seq<string>, imp: seq<string>,
                      pins: seq<string>, vers: seq<string>)
    requires LegalText(Join(kit)) && LegalText(Join(imp)) && LegalText(Join(pins)) && LegalText(Join(vers))
    requires lines == ConfLines(kit, imp, pins, vers)
    ensures ListsAre(ReadConf(p, Some(Text(lines))), Join(kit), Join(imp), imp != [])
  {
    ReadLists(p, lines, kit, imp, pins, vers);
    ConfValues(lines, kit, imp, pins, vers);
    ListsFrom(ReadConf(p, Some(Text(lines))), Join(kit), Join(imp), imp != []);
  }

  /** The three list settings after reading a rendered file into any policy. */
  lemma ReadBody(p: Policy, kit: seq<string>, imp: seq<string>, pins: seq<string>, vers: seq<string>)
    requires LegalText(Join(kit)) && LegalText(Join(imp)) && LegalText(Join(pins)) && LegalText(Join(vers))
    ensures ListsAre(ReadConf(p, Some(Body(kit, imp, pins, vers))), Join(kit), Join(imp), imp != [])
  {
    ReadBodyLines(p, ConfLines(kit, imp, pins, vers), kit, imp, pins, vers);
  }

  lemma OnlyKeys(kit: seq<string>, imp: seq<string>, pins: seq<string>, vers: seq<string>)
    ensures var lines := ConfLines(kit, imp, pins, vers);
            forall j :: 0 <= j < |lines| ==>
              && (lines[j].key == Name(KitHosts) <==> j == 3)
              && (lines[j].key == Name(ImpersonateHosts) <==> j == 4)
              && (lines[j].key == Name(Impersonate) <==> j == 5)
  {
  }

  // ---- lists and tokens ----

  ghost predicate LegalNames(names: seq<string>) {
    forall i :: 0 <= i < |names| ==> LegalName(names[i])
  }

  /** A name that the list separators do not take apart. */
  predicate Solid(n: string) {
    n != "" && forall i :: 0 <= i < |n| ==> !IsDelim(n[i])
  }

  predicate IsDelim(c: char) { c == ',' || c == ' ' || c == '\t' || c == '\n' }

  lemma DelimsAre()
    ensures forall c :: c in DELIMS <==> IsDelim(c)
  {
    assert DELIMS[0] == ',' && DELIMS[1] == ' ' && DELIMS[2] == '\t' && DELIMS[3] == '\n';
  }

  ghost predicate SolidNames(names: seq<string>) {
    forall i :: 0 <= i < |names| ==> Solid(names[i])
  }

  ghost predicate LowerNames(names: seq<string>) {
    forall i :: 0 <= i < |names| ==> NoUpper(names[i])
  }

  lemma LegalNamesAreSolid(names: seq<string>)
    requires LegalNames(names)
    ensures SolidNames(names) && LowerNames(names)
  {
    forall i | 0 <= i < |names|
      ensures Solid(names[i]) && NoUpper(names[i])
    {
      NameIsText(names[i]);
      DelimsAre();
      assert forall k :: 0 <= k < |names[i]| ==> NameChar(names[i][k]);
    }
  }

  lemma {:induction false} JoinIsLegal(names: seq<string>)
    requires forall i :: 0 <= i < |names| ==> LegalText(names[i])
    ensures LegalText(Join(names))
  {
    if |names| > 1 {
      JoinIsLegal(names[1..]);
    }
  }

  lemma NameIsText(n: string)
    requires LegalName(n)
    ensures LegalText(n) && (forall i :: 0 <= i < |n| ==> n[i] !in DELIMS)
  {
    forall i | 0 <= i < |n| ensures ValueChar(n[i]) && n[i] !in DELIMS {
      assert NameChar(n[i]);
      assert BLANKS[0] in SPACES && BLANKS[1] in SPACES && BLANKS[2] in SPACES && BLANKS[3] in SPACES;
      assert DELIMS[0] == ',' && DELIMS[1] in SPACES && DELIMS[2] in SPACES && DELIMS[3] in SPACES;
    }
  }

  lemma TokensOfName(n: string, rest: string)
    requires n != "" && forall i :: 0 <= i < |n| ==> n[i] !in DELIMS
    requires rest != "" ==> rest[0] == ','
    ensures Tokens(n + rest, DELIMS) == [n] + (if rest == "" then [] else Tokens(rest[1..], DELIMS))
  {
    var s := n + rest;
    assert DELIMS[0] == ',';
    assert s[0] == n[0];
    SpanIs(s, DELIMS, |n|);
    assert s[..|n|] == n && s[|n|..] == rest;
  }

  /** The tokens of a rendered list are its names, in order. */
  lemma {:induction false} TokensOfJoin(names: seq<string>)
    requires SolidNames(names)
    ensures Tokens(Join(names), DELIMS) == names
  {
    DelimsAre();
    if names != [] {
      var n := names[0];
      assert Solid(n);
      if |names| == 1 {
        assert n + "" == n;
        TokensOfName(n, "");
        assert names == [n];
      } else {
        var more := Join(names[1..]);
        assert Join(names) == n + ("," + more);
        TokensOfName(n, "," + more);
        assert ("," + more)[1..] == more;
        TokensOfJoin(names[1..]);
        assert names == [n] + names[1..];
      }
    }
  }

  /** A list cut anywhere before its end has lost one of its names. */
  lemma {:induction false} CutLosesName(names: seq<string>, m: nat) returns (j: nat)
    requires SolidNames(names) && Distinct(names) && m < |Join(names)|
    ensures j < |names| && names[j] !in Tokens(Join(names)[..m], DELIMS)
    decreases |names|
  {
    var n := names[0];
    DelimsAre();
    assert Solid(n);
    var cut := Join(names)[..m];
    if m <= |n| {
      assert cut == n[..m] && cut + "" == cut;
      if m > 0 {
        TokensOfName(cut, "");
      }
      if m < |n| {
        j := 0;
      } else {
        j := 1;
        assert names[0] != names[1] && cut == names[0];
      }
    } else {
      var more := names[1..];
      var m' := m - |n| - 1;
      assert Join(names) == n + ("," + Join(more));
      var k := CutLosesName(more, m');
      assert cut == n + ("," + Join(more)[..m']);
      TokensOfName(n, "," + Join(more)[..m']);
      assert ("," + Join(more)[..m'])[1..] == Join(more)[..m'];
      j := k + 1;
      assert names[j] == more[k] && names[0] != names[j];
    }
  }

  /** For any names, a length that none of them has. */
  lemma {:induction false} LongerThanAll(names: set<string>) returns (n: nat)
    ensures n > 0 && forall k :: k in names ==> |k| < n
    decreases |names|
  {
    if names == {} {
      n := 1;
    } else {
      var k :| k in names;
      n := LongerThanAll(names - {k});
      n := if |k| < n then n else |k| + 1;
    }
  }

  // ---- the names in the lists ----

  lemma {:induction false} KitNamesAre(order: seq<string>, hosts: Hosts)
    requires Keyed(hosts) && Distinct(order) && forall k :: k in order ==> k in hosts
    ensures forall n :: n in KitNames(order, hosts) <==> n in order && hosts[n].kit
    ensures Distinct(KitNames(order, hosts))
  {
    if order != [] {
      var last := |order| - 1;
      assert order == order[..last] + [order[last]];
      assert order[last] in order;
      KitNamesAre(order[..last], hosts);
    }
  }

  lemma {:induction false} ImpersonateNamesAre(order: seq<string>, hosts: Hosts)
    requires Keyed(hosts) && Distinct(order) && forall k :: k in order ==> k in hosts
    ensures forall n :: n in ImpersonateNames(order, hosts) <==> n in order && hosts[n].impersonate
    ensures Distinct(ImpersonateNames(order, hosts))
  {
    if order != [] {
      var last := |order| - 1;
      assert order == order[..last] + [order[last]];
      assert order[last] in order;
      ImpersonateNamesAre(order[..last], hosts);
    }
  }

  lemma EntryIsLegal(n: string, v: string)
    requires LegalText(n) && LegalText(v)
    ensures LegalText(n + "=" + v)
  {
    assert ValueChar('=');
  }

  lemma {:induction false} ByHostEntriesAreLegal(order: seq<string>, hosts: Hosts)
    requires Legal(hosts) && forall k :: k in order ==> k in hosts
    ensures forall i :: 0 <= i < |PinEntries(order, hosts)| ==> LegalText(PinEntries(order, hosts)[i])
    ensures forall i :: 0 <= i < |VerifyEntries(order, hosts)| ==> LegalText(VerifyEntries(order, hosts)[i])
  {
    if order != [] {
      var last := |order| - 1;
      var k := order[last];
      assert k in order;
      ByHostEntriesAreLegal(order[..last], hosts);
      NameIsText(k);
      EntryIsLegal(k, hosts[k].pin);
      EntryIsLegal(k, hosts[k].verify);
    }
  }

  lemma NamesAreLegal(names: seq<string>, hosts: Hosts)
    requires Legal(hosts) && forall n :: n in names ==> n in hosts
    ensures LegalNames(names) && LegalText(Join(names))
  {
    forall i | 0 <= i < |names| ensures LegalName(names[i]) && LegalText(names[i]) {
      assert names[i] in names;
      NameIsText(names[i]);
    }
    JoinIsLegal(names);
  }

  // ---- lists as sets of names ----

  /** The names on a list, lower-cased. */
  function Names(list: string): set<string> {
    set t | t in Tokens(Cut(list, 2048), DELIMS) :: Lower(t)
  }

  lemma {:induction false} TokensAreSomething(s: string)
    ensures "" !in Tokens(s, DELIMS)
    decreases |s|
  {
    if s != "" {
      if s[0] in DELIMS {
        TokensAreSomething(s[1..]);
      } else {
        TokensAreSomething(s[Span(s, DELIMS)..]);
        assert s[..Span(s, DELIMS)] != "";
      }
    }
  }

  /** Being on a list is being one of its names, up to case. */
  lemma InListExactly(list: string, host: string)
    ensures HostInList(list, host) <==> Lower(host) in Names(list)
  {
    TokensAreSomething(Cut(list, 2048));
    if Lower(host) in Names(list) {
      var t :| t in Tokens(Cut(list, 2048), DELIMS) && Lower(t) == Lower(host);
      assert EqualFold(t, host);
    }
  }

  lemma LowerTwice(s: string)
    ensures Lower(Lower(s)) == Lower(s)
  {
    forall c | c in Lower(s) ensures !IsUpper(c) {
      var i :| 0 <= i < |Lower(s)| && Lower(s)[i] == c;
      assert c == LowerChar(s[i]);
    }
    LowerOfLower(Lower(s));
  }

  lemma NamesAreLower(list: string, n: string)
    requires n in Names(list)
    ensures Lower(n) == n
  {
    var t :| t in Tokens(Cut(list, 2048), DELIMS) && Lower(t) == n;
    LowerTwice(t);
  }

  // ---- the agreement ----

  /** The rendered file is the second file, and the environment overrides none of its lists. */
  ghost predicate Reads(w: World, conf: string) {
    && w.certs == Some(conf)
    && Name(KitHosts) !in w.env && Name(ImpersonateHosts) !in w.env && Name(Impersonate) !in w.env
  }

  /** The list line, newline not counted, fits one fgets chunk of 767 characters. */
  predicate Fits(s: Setting, names: seq<string>) {
    |Name(s)| + 1 + |Join(names)| <= 767
  }

  /** Whatever the first file says and whatever was loaded before. */
  lemma LoadedLists(order: seq<string>, conf: string, hosts: Hosts, w: World)
    requires Legal(hosts) && IsRenderingIn(order, conf, hosts) && Reads(w, conf)
    ensures var kit, imp := KitNames(order, hosts), ImpersonateNames(order, hosts);
            && Load(w).Get(KitHosts) == Visible(Name(KitHosts), Join(kit))
            && Load(w).Get(ImpersonateHosts) == Visible(Name(ImpersonateHosts), Join(imp))
            && Load(w).Get(Impersonate) == OnOff(imp != [])
  {
    var kit, imp := KitNames(order, hosts), ImpersonateNames(order, hosts);
    KitNamesAre(order, hosts);
    ImpersonateNamesAre(order, hosts);
    NamesAreLegal(kit, hosts);
    NamesAreLegal(imp, hosts);
    ByHostEntriesAreLegal(order, hosts);
    JoinIsLegal(PinEntries(order, hosts));
    JoinIsLegal(VerifyEntries(order, hosts));
    var p := ReadConf(Defaults(), w.etc);
    ReadBody(p, kit, imp, PinEntries(order, hosts), VerifyEntries(order, hosts));
    EnvKeepsLists(ReadConf(p, w.certs), w);
    NameIsShort(KitHosts);
    VisibleIsShort(Name(KitHosts), Join(kit));
    NameIsShort(ImpersonateHosts);
    VisibleIsShort(Name(ImpersonateHosts), Join(imp));
  }

  lemma EnvKeepsLists(p: Policy, w: World)
    requires Name(KitHosts) !in w.env && Name(ImpersonateHosts) !in w.env && Name(Impersonate) !in w.env
    ensures var q := EnvRest(EnvPaths(p, w), w);
            && q.Get(KitHosts) == p.Get(KitHosts) && q.Get(ImpersonateHosts) == p.Get(ImpersonateHosts)
            && q.Get(Impersonate) == p.Get(Impersonate)
  {
    EnvPathsGet(p, w, KitHosts);
    EnvRestGet(EnvPaths(p, w), w, KitHosts);
    EnvPathsGet(p, w, ImpersonateHosts);
    EnvRestGet(EnvPaths(p, w), w, ImpersonateHosts);
    EnvPathsGet(p, w, Impersonate);
    EnvRestGet(EnvPaths(p, w), w, Impersonate);
  }

  lemma VisibleIsShort(key: string, value: string)
    requires |key| < CHUNK
    ensures |Visible(key, value)| <= CHUNK
  {
  }

  /** host_in_list on a list that arrived whole. */
  lemma WholeListDecides(names: seq<string>, h: string)
    requires SolidNames(names) && LowerNames(names) && |Join(names)| < 2048
    ensures HostInList(Join(names), h) <==> Lower(h) in names
  {
    TokensOfJoin(names);
    forall i | 0 <= i < |names| ensures Lower(names[i]) == names[i] && names[i] != "" {
      assert Solid(names[i]);
      LowerOfLower(names[i]);
    }
    if Lower(h) in names {
      assert EqualFold(Lower(h), h);
      JoinNotEmpty(names);
    }
  }

  lemma LegalIsLower(n: string)
    requires LegalName(n)
    ensures Lower(n) == n
  {
    forall c | c in n ensures !IsUpper(c) {
      var i :| 0 <= i < |n| && n[i] == c;
      assert NameChar(n[i]);
    }
    LowerOfLower(n);
  }

  lemma JoinNotEmpty(names: seq<string>)
    requires SolidNames(names)
    ensures Join(names) == "" <==> names == []
  {
    if names != [] { assert Solid(names[0]); }
  }

  /** A name of the map is not changed by normalising, and only trimmed text can equal it up to case. */
  lemma NamesAreTrimmed(n: string, h: string)
    requires LegalName(n) && Lower(h) == n
    ensures TrimSpace(h) == h && Normalise(h) == n
  {
    assert NameChar(n[0]) && NameChar(n[|n| - 1]);
    LowerKeepsSpaces(h, 0);
    LowerKeepsSpaces(h, |h| - 1);
    TrimOfSolid(h, SPACES);
  }

  /** The C side impersonates exactly the hosts that the Go side has enabled, for every iteration
      order, first file and earlier load, as long as the list line fits one chunk.  Text with
      spaces around it is the one exception: Go trims it, C does not. */
  lemma ImpersonateAgrees(order: seq<string>, conf: string, hosts: Hosts, w: World, h: string)
    requires Legal(hosts) && IsRenderingIn(order, conf, hosts) && Reads(w, conf)
    requires Fits(ImpersonateHosts, ImpersonateNames(order, hosts))
    ensures ImpersonateHost(Load(w), h) <==> TrimSpace(h) == h && ImpersonateEnabled(hosts, h)
  {
    var imp := ImpersonateNames(order, hosts);
    LoadedLists(order, conf, hosts, w);
    ImpersonateNamesAre(order, hosts);
    NamesAreLegal(imp, hosts);
    LegalNamesAreSolid(imp);
    WholeListDecides(imp, h);
    if Lower(h) in imp {
      NamesAreTrimmed(Lower(h), h);
    }
  }

  /** A blank in front of an enabled name: enabled for Go, unknown to C. */
  lemma PaddedNameDisagrees(order: seq<string>, conf: string, hosts: Hosts, w: World, n: string)
    requires Legal(hosts) && IsRenderingIn(order, conf, hosts) && Reads(w, conf)
    requires Fits(ImpersonateHosts, ImpersonateNames(order, hosts)) && LegalName(n) && ImpersonateEnabled(hosts, n)
    ensures ImpersonateEnabled(hosts, " " + n) && !ImpersonateHost(Load(w), " " + n)
  {
    PaddedTrims(n);
    ImpersonateAgrees(order, conf, hosts, w, " " + n);
  }

  lemma PaddedTrims(n: string)
    requires LegalName(n)
    ensures TrimSpace(" " + n) == TrimSpace(n) != " " + n
  {
    LegalIsLower(n);
    NamesAreTrimmed(n, n);
    assert (" " + n)[0] == ' ' == SPACES[0] && (" " + n)[1..] == n;
    assert TrimLeft(" " + n, SPACES) == TrimLeft(n, SPACES);
    assert |n| != |" " + n|;
  }

  /** The kit gate: open for all when no host has Kit, else for exactly the hosts that have it. */
  lemma KitAgrees(order: seq<string>, conf: string, hosts: Hosts, w: World, h: string)
    requires Legal(hosts) && IsRenderingIn(order, conf, hosts) && Reads(w, conf)
    requires Fits(KitHosts, KitNames(order, hosts))
    ensures KitHost(Load(w), h) <==>
            || (forall k :: k in hosts ==> !hosts[k].kit)
            || (TrimSpace(h) == h && Normalise(h) in hosts && hosts[Normalise(h)].kit)
  {
    var kit := KitNames(order, hosts);
    LoadedLists(order, conf, hosts, w);
    KitNamesAre(order, hosts);
    NamesAreLegal(kit, hosts);
    LegalNamesAreSolid(kit);
    WholeListDecides(kit, h);
    JoinNotEmpty(kit);
    if kit != [] { assert kit[0] in kit; }
    if Lower(h) in kit {
      NamesAreTrimmed(Lower(h), h);
    }
  }

  lemma CutListLosesName(names: seq<string>, m: nat) returns (n: string)
    requires SolidNames(names) && LowerNames(names) && Distinct(names) && m < |Join(names)|
    ensures n in names && !Among(Tokens(Join(names)[..m], DELIMS), n)
  {
    var j := CutLosesName(names, m);
    n := names[j];
    TokensAreLower(names, m);
    LowerOfLower(n);
    NotAmong(Tokens(Join(names)[..m], DELIMS), n);
  }

  /** An over-long list: some listed name is no longer found. */
  lemma OverlongListLosesName(s: Setting, names: seq<string>) returns (n: string)
    requires LegalNames(names) && Distinct(names) && !Fits(s, names)
    ensures n in names && !HostInList(Visible(Name(s), Join(names)), n)
  {
    NameIsShort(s);
    LegalNamesAreSolid(names);
    var m := CHUNK - 1 - |Name(s)|;
    n := CutListLosesName(names, m);
    CutOfVisible(s, Join(names));
    NotFoundIn(Visible(Name(s), Join(names)), Join(names)[..m], n);
  }

  lemma NotFoundIn(list: string, cut: string, n: string)
    requires Cut(list, 2048) == cut && !Among(Tokens(cut, DELIMS), n)
    ensures !HostInList(list, n)
  {
  }

  lemma CutOfVisible(s: Setting, list: string)
    requires |Name(s)| + 1 + |list| > CHUNK
    ensures Cut(Visible(Name(s), list), 2048) == list[..CHUNK - 1 - |Name(s)|]
  {
    NameIsShort(s);
  }

  lemma NotAmong(toks: seq<string>, n: string)
    requires (forall t :: t in toks ==> forall c :: c in t ==> !IsUpper(c)) && Lower(n) == n && n !in toks
    ensures !Among(toks, n)
  {
    forall t | t in toks ensures !EqualFold(t, n) {
      LowerOfLower(t);
    }
  }

  lemma {:induction false} JoinIsLower(names: seq<string>)
    requires LowerNames(names)
    ensures NoUpper(Join(names))
  {
    if |names| > 1 {
      assert forall i :: 0 <= i < |names[1..]| ==> names[1..][i] == names[i + 1];
      JoinIsLower(names[1..]);
      assert Join(names) == names[0] + ("," + Join(names[1..]));
    }
  }

  lemma TokensAreLower(names: seq<string>, m: nat)
    requires LowerNames(names) && m <= |Join(names)|
    ensures forall t :: t in Tokens(Join(names)[..m], DELIMS) ==> forall c :: c in t ==> !IsUpper(c)
  {
    JoinIsLower(names);
    TokensAreInner(Join(names)[..m]);
  }

  lemma {:induction false} TokensAreInner(s: string)
    ensures forall t, c :: t in Tokens(s, DELIMS) && c in t ==> c in s
    decreases |s|
  {
    if s != "" {
      if s[0] in DELIMS {
        TokensAreInner(s[1..]);
      } else {
        TokensAreInner(s[Span(s, DELIMS)..]);
      }
    }
  }

  /** One name of 800 characters is enough. */
  lemma OverlongListExists()
    ensures var names := [seq(800, _ => 'a')];
            LegalNames(names) && Distinct(names) && !Fits(ImpersonateHosts, names) && !Fits(KitHosts, names)
  {
    var n := seq(800, _ => 'a');
    assert NameChar('a');
    assert Join([n]) == n;
  }

  /** The exact limit: C and Go agree on every (trimmed) name if and only if the line fits. */
  lemma ImpersonateAgreesExactlyWhenFits(order: seq<string>, conf: string, hosts: Hosts, w: World)
    requires Legal(hosts) && IsRenderingIn(order, conf, hosts) && Reads(w, conf)
    ensures Fits(ImpersonateHosts, ImpersonateNames(order, hosts)) <==>
            forall h :: TrimSpace(h) == h ==> (ImpersonateHost(Load(w), h) <==> ImpersonateEnabled(hosts, h))
  {
    var imp := ImpersonateNames(order, hosts);
    if Fits(ImpersonateHosts, imp) {
      forall h { ImpersonateAgrees(order, conf, hosts, w, h); }
    } else {
      LoadedLists(order, conf, hosts, w);
      ImpersonateNamesAre(order, hosts);
      NamesAreLegal(imp, hosts);
      var n := OverlongListLosesName(ImpersonateHosts, imp);
      LegalIsLower(n);
      NamesAreTrimmed(n, n);
    }
  }

  lemma KitDisagrees(order: seq<string>, conf: string, hosts: Hosts, w: World) returns (n: string)
    requires Legal(hosts) && IsRenderingIn(order, conf, hosts) && Reads(w, conf)
    requires !Fits(KitHosts, KitNames(order, hosts))
    ensures TrimSpace(n) == n && Normalise(n) in hosts && hosts[Normalise(n)].kit && !KitHost(Load(w), n)
  {
    var kit := KitNames(order, hosts);
    LoadedLists(order, conf, hosts, w);
    KitNamesAre(order, hosts);
    NamesAreLegal(kit, hosts);
    n := OverlongListLosesName(KitHosts, kit);
    NameIsShort(KitHosts);
    assert Visible(Name(KitHosts), Join(kit)) != "";
    LegalIsLower(n);
    NamesAreTrimmed(n, n);
  }

  lemma KitAgreesExactlyWhenFits(order: seq<string>, conf: string, hosts: Hosts, w: World)
    requires Legal(hosts) && IsRenderingIn(order, conf, hosts) && Reads(w, conf)
    requires KitNames(order, hosts) != []
    ensures Fits(KitHosts, KitNames(order, hosts)) <==>
            forall h :: TrimSpace(h) == h ==>
              (KitHost(Load(w), h) <==> Normalise(h) in hosts && hosts[Normalise(h)].kit)
  {
    if Fits(KitHosts, KitNames(order, hosts)) {
      KitNamesAre(order, hosts);
      assert KitNames(order, hosts)[0] in KitNames(order, hosts);
      forall h { KitAgrees(order, conf, hosts, w, h); }
    } else {
      var n := KitDisagrees(order, conf, hosts, w);
    }
  }

  /** What Put was sent is what C decides, once it has loaded the file that Put wrote. */
  lemma PutReachesC(s: Store, p: HostPolicy, pem: PemDir, t: Store, order: seq<string>, w: World)
    requires Next(true, s, OpPut(p), pem, t) && Legal(t.hosts) && IsRenderingIn(order, t.conf, t.hosts)
    requires Reads(w, t.conf)
    ensures Fits(ImpersonateHosts, ImpersonateNames(order, t.hosts)) ==>
              (ImpersonateHost(Load(w), Normalise(p.host)) <==> p.impersonate)
    ensures Fits(KitHosts, KitNames(order, t.hosts)) ==>
              (KitHost(Load(w), Normalise(p.host)) <==> p.kit || forall k :: k in t.hosts ==> !t.hosts[k].kit)
  {
    var k := Normalise(p.host);
    PutLeaves(true, s, p, pem, t);
    LegalIsLower(k);
    NamesAreTrimmed(k, k);
    LoadDecides(order, t.conf, t.hosts, w, k);
  }

  /** Both decisions about h are those of the map, wherever the list lines fit. */
  ghost predicate DecidesLike(p: Policy, order: seq<string>, hosts: Hosts, h: string)
    requires forall k :: k in order ==> k in hosts
  {
    && (Fits(ImpersonateHosts, ImpersonateNames(order, hosts)) ==>
          (ImpersonateHost(p, h) <==> TrimSpace(h) == h && ImpersonateEnabled(hosts, h)))
    && (Fits(KitHosts, KitNames(order, hosts)) ==>
          (KitHost(p, h) <==>
            || (forall k :: k in hosts ==> !hosts[k].kit)
            || (TrimSpace(h) == h && Normalise(h) in hosts && hosts[Normalise(h)].kit)))
  }

  lemma LoadDecides(order: seq<string>, conf: string, hosts: Hosts, w: World, h: string)
    requires Legal(hosts) && IsRenderingIn(order, conf, hosts) && Reads(w, conf)
    ensures DecidesLike(Load(w), order, hosts, h)
  {
    if Fits(ImpersonateHosts, ImpersonateNames(order, hosts)) {
      ImpersonateAgrees(order, conf, hosts, w, h);
    }
    if Fits(KitHosts, KitNames(order, hosts)) {
      KitAgrees(order, conf, hosts, w, h);
    }
  }

  /** End to end.  The Go store runs; C accessor calls happen meanwhile, call j while the store is in
      state at[j], on a clock that never steps back.  Whatever C decides at its last call is what the
      Go map said at some call less than two seconds earlier, wherever the list lines fit. */
  lemma EndToEnd(states: seq<Store>, ops: seq<Op>, pems: seq<PemDir>, calls: seq<Call>, at: seq<nat>, h: string)
    returns (j: nat, order: seq<string>)
    requires IsRun(true, states, ops, pems) && InStep(states[0])
    requires calls != [] && |at| == |calls| && ClockMonotone(calls)
    requires forall i :: 0 <= i < |calls| ==> at[i] < |states| && Legal(states[at[i]].hosts)
    requires forall i :: 0 <= i < |calls| ==> Reads(calls[i].world, states[at[i]].conf)
    ensures j < |calls| && 0 <= calls[|calls| - 1].now - calls[j].now < 2
    ensures IsRenderingIn(order, states[at[j]].conf, states[at[j]].hosts)
    ensures DecidesLike(RunReader(calls).policy, order, states[at[j]].hosts, h)
  {
    j := ServedIsSomeLoad(calls);
    RunStaysInStep(states, ops, pems, at[j]);
    var s := states[at[j]];
    order :| IsRenderingIn(order, s.conf, s.hosts);
    LoadDecides(order, s.conf, s.hosts, calls[j].world, h);
  }
}
