/** What a rendered client file tells about the map behind it: everything but the captured data.  So a
    store without a data directory, whose file is never written again, is in step exactly while its
    policies are the ones it started with. */
module RenderedPolicies {
  import opened Prelude
  import opened SslKit
  import opened PolicyAgreement

  /** Put and Capture fill in every pin and verify. */
  ghost predicate FilledIn(hosts: Hosts) {
    forall k :: k in hosts ==> ValueOk(hosts[k].pin) && ValueOk(hosts[k].verify)
  }

  predicate ValueOk(v: string) { v != "" && '=' !in v }

  // ---- cutting equal texts alike ----

  lemma CutAtFirst(v: string, c: char, r: string, v': string, r': string)
    requires c !in v && c !in v' && v + [c] + r == v' + [c] + r'
    ensures v == v' && r == r'
  {
    var t := v + [c] + r;
    assert t[|v|] == c && t[|v'|] == c;
    assert forall i :: 0 <= i < |v| ==> t[i] == v[i] && v[i] in v;
    assert forall i :: 0 <= i < |v'| ==> t[i] == v'[i] && v'[i] in v';
    assert |v| == |v'|;
    assert t[..|v|] == v && t[..|v'|] == v' && t[|v| + 1..] == r && t[|v'| + 1..] == r';
  }

  /** The last place of c: it cannot lie to the right of another one. */
  lemma NotBehind(t: string, r: string, c: char, v: string, k: nat)
    requires c !in v && t == r + [c] + v && k < |t| && t[k] == c
    ensures k <= |r|
  {
    assert forall i :: |r| < i < |t| ==> t[i] == v[i - |r| - 1];
  }

  lemma CutAtLast(r: string, c: char, v: string, r': string, v': string)
    requires c !in v && c !in v' && r + [c] + v == r' + [c] + v'
    ensures v == v' && r == r'
  {
    var t := r + [c] + v;
    assert t[|r|] == c && t[|r'|] == c;
    NotBehind(t, r, c, v, |r'|);
    NotBehind(t, r', c, v', |r|);
    assert t[..|r|] == r && t[..|r'|] == r' && t[|r| + 1..] == v && t[|r'| + 1..] == v';
  }

  // ---- the lines ----

  /** The text of a file fixes the values of its lines. */
  lemma {:induction false} TextFixesLines(a: seq<ConfLine>, b: seq<ConfLine>)
    requires |a| == |b| && Text(a) == Text(b)
    requires forall i :: 0 <= i < |a| ==> a[i].key == b[i].key && '\n' !in a[i].value && '\n' !in b[i].value
    ensures a == b
  {
    if a != [] {
      FirstLine(a[0], Text(a[1..]), b[0], Text(b[1..]));
      TextFixesLines(a[1..], b[1..]);
      assert a == [a[0]] + a[1..] && b == [b[0]] + b[1..];
    }
  }

  lemma FirstLine(l: ConfLine, rest: string, l': ConfLine, rest': string)
    requires l.key == l'.key && '\n' !in l.value && '\n' !in l'.value && Line(l) + rest == Line(l') + rest'
    ensures l == l' && rest == rest'
  {
    var head := l.key + "=";
    var a, b := l.value + ['\n'] + rest, l'.value + ['\n'] + rest';
    assert Line(l) + rest == head + a && Line(l') + rest' == head + b;
    assert a == (head + a)[|head|..] == (head + b)[|head|..] == b;
    CutAtFirst(l.value, '\n', rest, l'.value, rest');
  }

  // ---- a list of host=value entries ----

  datatype Entry = Entry(host: string, value: string)

  ghost predicate EntryOk(e: Entry) { ',' !in e.host && '=' !in e.value }

  function Show(e: Entry): string { e.host + "=" + e.value }

  function Shown(es: seq<Entry>): seq<string> {
    seq(|es|, i requires 0 <= i < |es| => Show(es[i]))
  }

  lemma ShownSnoc(es: seq<Entry>, e: Entry)
    ensures Shown(es + [e]) == Shown(es) + [Show(e)]
  {
  }

  lemma {:induction false} JoinSnoc(ss: seq<string>, s: string)
    ensures Join(ss + [s]) == if ss == [] then s else Join(ss) + "," + s
  {
    if |ss| > 0 {
      assert (ss + [s])[1..] == ss[1..] + [s];
      JoinSnoc(ss[1..], s);
    }
  }

  /** What stands in front of the last entry. */
  function Front(ss: seq<string>): string { if ss == [] then "" else Join(ss) + "," }

  lemma LastEntry(es: seq<Entry>)
    requires es != []
    ensures var n := |es| - 1; Join(Shown(es)) == Front(Shown(es[..n])) + es[n].host + "=" + es[n].value
  {
    var n := |es| - 1;
    ShownSnoc(es[..n], es[n]);
    assert es == es[..n] + [es[n]];
    JoinSnoc(Shown(es[..n]), Show(es[n]));
  }

  lemma FrontNotLonger(f: string, h: string, f': string, h': string)
    requires ',' !in h && f + h == f' + h' && (f' == "" || f'[|f'| - 1] == ',')
    ensures |f'| <= |f|
  {
    var t := f + h;
    assert forall i :: |f| <= i < |t| ==> t[i] == h[i - |f|] && h[i - |f|] in h;
    assert f' != "" ==> t[|f'| - 1] == (f' + h')[|f'| - 1] == ',';
  }

  lemma FrontFixesHost(f: string, h: string, f': string, h': string)
    requires ',' !in h && ',' !in h' && f + h == f' + h'
    requires (f == "" || f[|f| - 1] == ',') && (f' == "" || f'[|f'| - 1] == ',')
    ensures f == f' && h == h'
  {
    FrontNotLonger(f, h, f', h');
    FrontNotLonger(f', h', f, h);
    assert f == (f + h)[..|f|] && f' == (f' + h')[..|f|];
    assert h == (f + h)[|f|..] && h' == (f' + h')[|f|..];
  }

  lemma FrontFixesJoin(ss: seq<string>, ss': seq<string>)
    requires Front(ss) == Front(ss')
    ensures Join(ss) == Join(ss') && (ss == [] <==> ss' == [])
  {
    var f := Front(ss);
    assert ss != [] ==> Join(ss) == f[..|f| - 1];
    assert ss' != [] ==> Join(ss') == f[..|f| - 1];
  }

  lemma JoinOfNone(es: seq<Entry>)
    ensures Join(Shown(es)) == "" <==> es == []
  {
    if es != [] { LastEntry(es); }
  }

  /** A joined list of entries can be taken apart in one way only. */
  lemma {:induction false} JoinFixesEntries(es: seq<Entry>, es': seq<Entry>)
    requires (forall i :: 0 <= i < |es| ==> EntryOk(es[i])) && (forall i :: 0 <= i < |es'| ==> EntryOk(es'[i]))
    requires Join(Shown(es)) == Join(Shown(es'))
    ensures es == es'
    decreases |es|
  {
    JoinOfNone(es);
    JoinOfNone(es');
    if es != [] {
      var n, n' := |es| - 1, |es'| - 1;
      LastEntries(es, es');
      JoinFixesEntries(es[..n], es'[..n']);
      assert es == es[..n] + [es[n]] && es' == es'[..n'] + [es'[n']];
    }
  }

  lemma LastEntries(es: seq<Entry>, es': seq<Entry>)
    requires es != [] && es' != [] && EntryOk(es[|es| - 1]) && EntryOk(es'[|es'| - 1])
    requires Join(Shown(es)) == Join(Shown(es'))
    ensures es[|es| - 1] == es'[|es'| - 1] && Join(Shown(es[..|es| - 1])) == Join(Shown(es'[..|es'| - 1]))
  {
    var e, e' := es[|es| - 1], es'[|es'| - 1];
    var f, f' := Front(Shown(es[..|es| - 1])), Front(Shown(es'[..|es'| - 1]));
    LastEntry(es);
    LastEntry(es');
    CutAtLast(f + e.host, '=', e.value, f' + e'.host, e'.value);
    FrontFixesHost(f, e.host, f', e'.host);
    FrontFixesJoin(Shown(es[..|es| - 1]), Shown(es'[..|es'| - 1]));
  }

  // ---- the lists of a map ----

  function Pins(order: seq<string>, hosts: Hosts): seq<Entry>
    requires forall k :: k in order ==> k in hosts
  {
    seq(|order|, i requires 0 <= i < |order| => Entry(order[i], hosts[order[i]].pin))
  }

  function Verifies(order: seq<string>, hosts: Hosts): seq<Entry>
    requires forall k :: k in order ==> k in hosts
  {
    seq(|order|, i requires 0 <= i < |order| => Entry(order[i], hosts[order[i]].verify))
  }

  lemma PinsSnoc(order: seq<string>, hosts: Hosts)
    requires order != [] && forall k :: k in order ==> k in hosts
    ensures var n := |order| - 1; Pins(order, hosts) == Pins(order[..n], hosts) + [Entry(order[n], hosts[order[n]].pin)]
  {
  }

  lemma {:induction false} PinsAreShown(order: seq<string>, hosts: Hosts)
    requires Keyed(hosts) && FilledIn(hosts) && forall k :: k in order ==> k in hosts
    ensures PinEntries(order, hosts) == Shown(Pins(order, hosts))
  {
    if order != [] {
      var n := |order| - 1;
      assert order[n] in order;
      PinsAreShown(order[..n], hosts);
      PinsSnoc(order, hosts);
      ShownSnoc(Pins(order[..n], hosts), Entry(order[n], hosts[order[n]].pin));
    }
  }

  lemma VerifiesSnoc(order: seq<string>, hosts: Hosts)
    requires order != [] && forall k :: k in order ==> k in hosts
    ensures var n := |order| - 1;
      Verifies(order, hosts) == Verifies(order[..n], hosts) + [Entry(order[n], hosts[order[n]].verify)]
  {
  }

  lemma {:induction false} VerifiesAreShown(order: seq<string>, hosts: Hosts)
    requires Keyed(hosts) && FilledIn(hosts) && forall k :: k in order ==> k in hosts
    ensures VerifyEntries(order, hosts) == Shown(Verifies(order, hosts))
  {
    if order != [] {
      var n := |order| - 1;
      assert order[n] in order;
      VerifiesAreShown(order[..n], hosts);
      VerifiesSnoc(order, hosts);
      ShownSnoc(Verifies(order[..n], hosts), Entry(order[n], hosts[order[n]].verify));
    }
  }

  lemma NamesHaveNoComma(order: seq<string>, hosts: Hosts)
    requires Legal(hosts) && FilledIn(hosts) && forall k :: k in order ==> k in hosts
    ensures forall i :: 0 <= i < |order| ==> EntryOk(Pins(order, hosts)[i]) && EntryOk(Verifies(order, hosts)[i])
  {
    forall i | 0 <= i < |order| ensures ',' !in order[i] && order[i] in hosts {
      assert order[i] in order && LegalName(order[i]);
      assert forall j :: 0 <= j < |order[i]| ==> NameChar(order[i][j]);
    }
  }

  lemma SamePins(order: seq<string>, a: Hosts, order': seq<string>, b: Hosts)
    requires (forall k :: k in order ==> k in a) && (forall k :: k in order' ==> k in b)
    requires Pins(order, a) == Pins(order', b)
    ensures order == order' && forall k :: k in order ==> a[k].pin == b[k].pin
  {
    var es, es' := Pins(order, a), Pins(order', b);
    assert |order| == |es| && |order'| == |es'|;
    assert forall i :: 0 <= i < |order| ==> order[i] == es[i].host == es'[i].host == order'[i];
    assert forall i :: 0 <= i < |order| ==> a[order[i]].pin == es[i].value == es'[i].value;
  }

  lemma PinsFixOrder(order: seq<string>, a: Hosts, order': seq<string>, b: Hosts)
    requires Legal(a) && FilledIn(a) && (forall k :: k in order ==> k in a)
    requires Legal(b) && FilledIn(b) && (forall k :: k in order' ==> k in b)
    requires Join(PinEntries(order, a)) == Join(PinEntries(order', b))
    ensures order == order' && forall k :: k in order ==> a[k].pin == b[k].pin
  {
    PinsAreShown(order, a);
    PinsAreShown(order', b);
    NamesHaveNoComma(order, a);
    NamesHaveNoComma(order', b);
    JoinFixesEntries(Pins(order, a), Pins(order', b));
    SamePins(order, a, order', b);
  }

  lemma SameVerifies(order: seq<string>, a: Hosts, b: Hosts)
    requires (forall k :: k in order ==> k in a) && (forall k :: k in order ==> k in b)
    requires Verifies(order, a) == Verifies(order, b)
    ensures forall k :: k in order ==> a[k].verify == b[k].verify
  {
    var es, es' := Verifies(order, a), Verifies(order, b);
    assert forall i :: 0 <= i < |order| ==> a[order[i]].verify == es[i].value == es'[i].value;
  }

  lemma VerifiesFixed(order: seq<string>, a: Hosts, b: Hosts)
    requires Legal(a) && FilledIn(a) && (forall k :: k in order ==> k in a)
    requires Legal(b) && FilledIn(b) && (forall k :: k in order ==> k in b)
    requires Join(VerifyEntries(order, a)) == Join(VerifyEntries(order, b))
    ensures forall k :: k in order ==> a[k].verify == b[k].verify
  {
    VerifiesAreShown(order, a);
    VerifiesAreShown(order, b);
    NamesHaveNoComma(order, a);
    NamesHaveNoComma(order, b);
    JoinFixesEntries(Verifies(order, a), Verifies(order, b));
    SameVerifies(order, a, b);
  }

  lemma FlagsFixed(order: seq<string>, a: Hosts, b: Hosts)
    requires Legal(a) && Legal(b) && Enumerates(order, a.Keys) && Enumerates(order, b.Keys)
    requires Join(KitNames(order, a)) == Join(KitNames(order, b))
    requires Join(ImpersonateNames(order, a)) == Join(ImpersonateNames(order, b))
    ensures forall k :: k in order ==> a[k].kit == b[k].kit && a[k].impersonate == b[k].impersonate
  {
    KitNamesAre(order, a);
    KitNamesAre(order, b);
    ImpersonateNamesAre(order, a);
    ImpersonateNamesAre(order, b);
    NamesAreLegal(KitNames(order, a), a);
    NamesAreLegal(KitNames(order, b), b);
    NamesAreLegal(ImpersonateNames(order, a), a);
    NamesAreLegal(ImpersonateNames(order, b), b);
    LegalNamesAreSolid(KitNames(order, a));
    TokensOfJoin(KitNames(order, a));
    LegalNamesAreSolid(KitNames(order, b));
    TokensOfJoin(KitNames(order, b));
    LegalNamesAreSolid(ImpersonateNames(order, a));
    TokensOfJoin(ImpersonateNames(order, a));
    LegalNamesAreSolid(ImpersonateNames(order, b));
    TokensOfJoin(ImpersonateNames(order, b));
  }

  // ---- the whole file ----

  /** The four lists in a rendered file. */
  datatype Lists = Lists(kit: string, imp: string, pins: string, vers: string)

  function ListsOf(order: seq<string>, hosts: Hosts): Lists
    requires forall k :: k in order ==> k in hosts
  {
    Lists(Join(KitNames(order, hosts)), Join(ImpersonateNames(order, hosts)),
          Join(PinEntries(order, hosts)), Join(VerifyEntries(order, hosts)))
  }

  lemma LinesHoldLists(order: seq<string>, hosts: Hosts, lines: seq<ConfLine>)
    requires Legal(hosts) && Enumerates(order, hosts.Keys)
    requires lines == ConfLines(KitNames(order, hosts), ImpersonateNames(order, hosts),
      PinEntries(order, hosts), VerifyEntries(order, hosts))
    ensures |lines| == 8 && forall i :: 0 <= i < 8 ==> '\n' !in lines[i].value
    ensures ListsOf(order, hosts) == Lists(lines[3].value, lines[4].value, lines[6].value, lines[7].value)
  {
    KitNamesAre(order, hosts);
    ImpersonateNamesAre(order, hosts);
    NamesAreLegal(KitNames(order, hosts), hosts);
    NamesAreLegal(ImpersonateNames(order, hosts), hosts);
    ByHostEntriesAreLegal(order, hosts);
    JoinIsLegal(PinEntries(order, hosts));
    JoinIsLegal(VerifyEntries(order, hosts));
    ConfLinesArePlain(KitNames(order, hosts), ImpersonateNames(order, hosts),
      PinEntries(order, hosts), VerifyEntries(order, hosts));
    forall i | 0 <= i < 8 ensures '\n' !in lines[i].value {
      assert PlainLine(lines[i]);
      NoNewline(lines[i].value);
    }
  }

  lemma SameKeys(kit: seq<string>, imp: seq<string>, pins: seq<string>, vers: seq<string>,
                 kit': seq<string>, imp': seq<string>, pins': seq<string>, vers': seq<string>)
    ensures var a, b := ConfLines(kit, imp, pins, vers), ConfLines(kit', imp', pins', vers');
            |a| == |b| && forall i :: 0 <= i < |a| ==> a[i].key == b[i].key
  {
  }

  lemma RenderFixesLists(order: seq<string>, a: Hosts, order': seq<string>, b: Hosts)
    requires Legal(a) && Enumerates(order, a.Keys) && Legal(b) && Enumerates(order', b.Keys)
    requires Render(order, a) == Render(order', b)
    ensures ListsOf(order, a) == ListsOf(order', b)
  {
    var lines := ConfLines(KitNames(order, a), ImpersonateNames(order, a),
      PinEntries(order, a), VerifyEntries(order, a));
    var lines' := ConfLines(KitNames(order', b), ImpersonateNames(order', b),
      PinEntries(order', b), VerifyEntries(order', b));
    LinesHoldLists(order, a, lines);
    LinesHoldLists(order', b, lines');
    SameKeys(KitNames(order, a), ImpersonateNames(order, a), PinEntries(order, a), VerifyEntries(order, a),
             KitNames(order', b), ImpersonateNames(order', b), PinEntries(order', b), VerifyEntries(order', b));
    TextFixesLines(lines, lines');
  }

  lemma SameInOrder(order: seq<string>, a: Hosts, b: Hosts)
    requires Keyed(a) && Keyed(b) && Enumerates(order, a.Keys) && Enumerates(order, b.Keys)
    requires forall k :: k in order ==> a[k].pin == b[k].pin && a[k].verify == b[k].verify
    requires forall k :: k in order ==> a[k].kit == b[k].kit && a[k].impersonate == b[k].impersonate
    ensures SamePolicies(a, b)
  {
    assert forall k :: k in a.Keys <==> k in order;
    assert forall k :: k in b.Keys <==> k in order;
    assert a.Keys == b.Keys;
  }

  lemma ListsFixPolicies(order: seq<string>, a: Hosts, b: Hosts)
    requires Legal(a) && FilledIn(a) && Enumerates(order, a.Keys)
    requires Legal(b) && FilledIn(b) && Enumerates(order, b.Keys)
    requires ListsOf(order, a) == ListsOf(order, b)
    ensures SamePolicies(a, b)
  {
    PinsFixOrder(order, a, order, b);
    VerifiesFixed(order, a, b);
    FlagsFixed(order, a, b);
    SameInOrder(order, a, b);
  }

  /** Rendering is one-to-one up to captured data. */
  lemma RenderFixesPolicies(order: seq<string>, a: Hosts, order': seq<string>, b: Hosts)
    requires Legal(a) && FilledIn(a) && Enumerates(order, a.Keys)
    requires Legal(b) && FilledIn(b) && Enumerates(order', b.Keys)
    requires Render(order, a) == Render(order', b)
    ensures SamePolicies(a, b)
  {
    RenderFixesLists(order, a, order', b);
    PinsFixOrder(order, a, order', b);
    ListsFixPolicies(order, a, b);
  }

  /** Two maps share a rendering exactly when they hold the same policies. */
  lemma RendersAlikeExactlyWhenSame(conf: string, a: Hosts, b: Hosts)
    requires IsRendering(conf, a) && Legal(a) && FilledIn(a) && Legal(b) && FilledIn(b)
    ensures IsRendering(conf, b) <==> SamePolicies(a, b)
  {
    if IsRendering(conf, b) {
      var order :| IsRenderingIn(order, conf, a);
      var order' :| IsRenderingIn(order', conf, b);
      RenderFixesPolicies(order, a, order', b);
    }
    if SamePolicies(a, b) {
      StillRendering(conf, a, b);
    }
  }

  /** Without a data directory the file is in step exactly while the policies are those of the start. */
  lemma RunWithoutDataDir(states: seq<Store>, ops: seq<Op>, pems: seq<PemDir>, i: nat)
    requires IsRun(false, states, ops, pems) && InStep(states[0]) && i < |states|
    requires Legal(states[0].hosts) && FilledIn(states[0].hosts) && Legal(states[i].hosts) && FilledIn(states[i].hosts)
    ensures states[i].conf == states[0].conf
    ensures InStep(states[i]) <==> SamePolicies(states[0].hosts, states[i].hosts)
  {
    FileNeverChanges(states, ops, pems, i);
    RendersAlikeExactlyWhenSame(states[0].conf, states[0].hosts, states[i].hosts);
  }

  const NEW_HOST: HostPolicy := HostPolicy("a", false, true, "off", "ca", false, "", "", "")

  lemma NewHostIsLegal()
    ensures Normalise("a") == "a" && Legal(map["a" := NEW_HOST]) && FilledIn(map["a" := NEW_HOST])
  {
    assert LegalName("a");
    LegalIsLower("a");
    NamesAreTrimmed("a", "a");
    ValuesAreLegal();
  }

  lemma ValuesAreLegal()
    ensures LegalText("off") && LegalText("ca") && ValueOk("off") && ValueOk("ca")
  {
  }

  lemma NewHostIsStored()
    ensures PutEntry(map[], NEW_HOST, _ => NoDumpDir) == NEW_HOST
  {
    NewHostIsLegal();
  }

  lemma PutIsNext(conf: string)
    ensures Next(false, Store(map[], conf), OpPut(NEW_HOST), _ => NoDumpDir, Store(map["a" := NEW_HOST], conf))
  {
    NewHostIsStored();
  }

  lemma NoHostRendersOtherwise(conf: string, b: Hosts, k: string)
    requires IsRendering(conf, map[]) && Legal(b) && FilledIn(b) && k in b
    ensures !IsRendering(conf, b)
  {
    RendersAlikeExactlyWhenSame(conf, map[], b);
  }

  lemma NewHostIsStale(conf: string)
    requires IsRendering(conf, map[])
    ensures !IsRendering(conf, map["a" := NEW_HOST])
  {
    NewHostIsLegal();
    NoHostRendersOtherwise(conf, map["a" := NEW_HOST], "a");
  }

  /** One Put of a new host without a data directory, and the file is stale. */
  lemma StaleFileExists(conf: string)
    requires IsRendering(conf, map[])
    ensures var states := [Store(map[], conf), Store(map["a" := NEW_HOST], conf)];
            && IsRun(false, states, [OpPut(NEW_HOST)], [_ => NoDumpDir])
            && InStep(states[0]) && !InStep(states[1])
  {
    PutIsNext(conf);
    NewHostIsStale(conf);
  }
}
