/** handleSOCKS5 of proxy.go as a parser of the client's bytes (sections 3 to 6 of RFC 1928). */
module Socks {
  import opened Prelude
  import opened WsCodec
  import opened HostPort

  const VERSION: byte := 5
  const CONNECT: byte := 1

  /** What the server sends: the chosen method, and the three replies. */
  const NO_AUTH: seq<byte> := [5, 0]
  const GRANTED: seq<byte> := [5, 0, 0, 1, 0, 0, 0, 0, 0, 0]
  const BAD_COMMAND: seq<byte> := [5, 7, 0, 1, 0, 0, 0, 0, 0, 0]
  const BAD_TYPE: seq<byte> := [5, 8, 0, 1, 0, 0, 0, 0, 0, 0]

  datatype Addr = V4(bytes: seq<byte>) | Name(bytes: seq<byte>) | V6(bytes: seq<byte>)

  /** A greeting and a CONNECT request.  The reserved byte and the methods are whatever the client sent. */
  datatype Hello = Hello(methods: seq<byte>, reserved: byte, addr: Addr, port: nat)

  predicate AddrOk(a: Addr) {
    match a
    case V4(b) => |b| == 4
    case Name(b) => |b| < 256
    case V6(b) => |b| == 16
  }

  predicate HelloOk(h: Hello) { |h.methods| < 256 && AddrOk(h.addr) && h.port < 65536 }

  // ---- as section 4 lays it out ----

  function AddrType(a: Addr): byte {
    match a
    case V4(_) => 1
    case Name(_) => 3
    case V6(_) => 4
  }

  function AddrBytes(a: Addr): seq<byte>
    requires AddrOk(a)
  {
    match a
    case V4(b) => b
    case Name(b) => [ToByte(|b|)] + b
    case V6(b) => b
  }

  function GreetingBytes(h: Hello): seq<byte>
    requires HelloOk(h)
  {
    [VERSION, ToByte(|h.methods|)] + h.methods
  }

  function Encode(h: Hello): seq<byte>
    requires HelloOk(h)
  {
    GreetingBytes(h) + ([VERSION, CONNECT, h.reserved, AddrType(h.addr)] + (AddrBytes(h.addr) + BigEndian(h.port, 2)))
  }

  // ---- the handler ----

  datatype Outcome =
    | HungUp(sent: seq<byte>)
    | Tunnel(sent: seq<byte>, addr: Addr, port: nat, rest: seq<byte>)

  /** What follows the greeting, or None when the connection is closed before any answer. */
  function AfterGreeting(bs: seq<byte>): Option<seq<byte>> {
    if |bs| < 2 || bs[0] != VERSION || |bs| < 2 + Val(bs[1]) then None else Some(bs[2 + Val(bs[1])..])
  }

  datatype AddrRead = Missing | Unknown | Found(addr: Addr, rest: seq<byte>)

  function ReadAddr(kind: byte, bs: seq<byte>): AddrRead {
    if kind == 1 then if |bs| < 4 then Missing else Found(V4(bs[..4]), bs[4..])
    else if kind == 3 then
      if |bs| < 1 || |bs| < 1 + Val(bs[0]) then Missing
      else Found(Name(bs[1..1 + Val(bs[0])]), bs[1 + Val(bs[0])..])
    else if kind == 4 then if |bs| < 16 then Missing else Found(V6(bs[..16]), bs[16..])
    else Unknown
  }

  /** The request after an accepted greeting. */
  function HandleRequest(bs: seq<byte>): Outcome {
    if |bs| < 4 then HungUp(NO_AUTH)
    else if bs[0] != VERSION || bs[1] != CONNECT then HungUp(NO_AUTH + BAD_COMMAND)
    else HandleAddress(bs[3], bs[4..])
  }

  /** The address and the port. */
  function HandleAddress(kind: byte, bs: seq<byte>): Outcome {
    match ReadAddr(kind, bs)
    case Missing => HungUp(NO_AUTH)
    case Unknown => HungUp(NO_AUTH + BAD_TYPE)
    case Found(addr, rest) => HandlePort(addr, rest)
  }

  function HandlePort(addr: Addr, bs: seq<byte>): Outcome {
    if |bs| < 2 then HungUp(NO_AUTH)
    else Tunnel(NO_AUTH + GRANTED, addr, Val(bs[0]) * 256 + Val(bs[1]), bs[2..])
  }

  function Handle(bs: seq<byte>): Outcome {
    var req := AfterGreeting(bs);
    if req.None? then HungUp([]) else HandleRequest(req.value)
  }

  // ---- parsing what was encoded ----

  lemma PortBytes(b: seq<byte>)
    requires |b| == 2
    ensures FromBigEndian(b) == Val(b[0]) * 256 + Val(b[1])
    ensures BigEndian(Val(b[0]) * 256 + Val(b[1]), 2) == b
  {
    FromBigEndianRoundTrip(b);
    assert b[..1][..0] == [] && FromBigEndian([]) == 0;
    assert FromBigEndian(b[..1]) == Val(b[0]);
  }

  lemma PortReadsBack(n: nat)
    requires n < 65536
    ensures var b := BigEndian(n, 2); Val(b[0]) * 256 + Val(b[1]) == n
  {
    assert Pow256(2) == 256 * (256 * Pow256(0));
    BigEndianRoundTrip(n, 2);
    PortBytes(BigEndian(n, 2));
  }

  lemma AddrReadsBack(a: Addr, rest: seq<byte>)
    requires AddrOk(a)
    ensures ReadAddr(AddrType(a), AddrBytes(a) + rest) == Found(a, rest)
  {
    var bs := AddrBytes(a) + rest;
    match a
    case V4(b) => assert bs[..4] == b && bs[4..] == rest;
    case V6(b) => assert bs[..16] == b && bs[16..] == rest;
    case Name(b) =>
      assert bs[1..1 + |b|] == b && bs[1 + |b|..] == rest;
  }

  lemma GreetingReadsBack(h: Hello, rest: seq<byte>)
    requires HelloOk(h)
    ensures AfterGreeting(GreetingBytes(h) + rest) == Some(rest)
  {
    assert (GreetingBytes(h) + rest)[2 + |h.methods|..] == rest;
  }

  lemma RequestReadsBack(h: Hello, rest: seq<byte>)
    requires HelloOk(h)
    ensures HandleRequest([VERSION, CONNECT, h.reserved, AddrType(h.addr)] +
      (AddrBytes(h.addr) + (BigEndian(h.port, 2) + rest)))
            == Tunnel(NO_AUTH + GRANTED, h.addr, h.port, rest)
  {
    var port := BigEndian(h.port, 2);
    var tail := AddrBytes(h.addr) + (port + rest);
    var bs := [VERSION, CONNECT, h.reserved, AddrType(h.addr)] + tail;
    assert bs[4..] == tail;
    AddrReadsBack(h.addr, port + rest);
    PortReadsBack(h.port);
    assert (port + rest)[2..] == rest;
  }

  /** Every greeting with a CONNECT request opens the tunnel to its address and port, and the bytes after
      it are the tunnel's. */
  lemma HandshakeReadsBack(h: Hello, rest: seq<byte>)
    requires HelloOk(h)
    ensures Handle(Encode(h) + rest) == Tunnel(NO_AUTH + GRANTED, h.addr, h.port, rest)
  {
    var head := [VERSION, CONNECT, h.reserved, AddrType(h.addr)];
    var req := head + (AddrBytes(h.addr) + (BigEndian(h.port, 2) + rest));
    Regroup(GreetingBytes(h), head, AddrBytes(h.addr), BigEndian(h.port, 2), rest);
    GreetingReadsBack(h, req);
    RequestReadsBack(h, rest);
  }

  // ---- only what was encoded ----

  lemma NameWasEncoded(bs: seq<byte>)
    requires |bs| > 0 && |bs| >= 1 + Val(bs[0])
    ensures var name := bs[1..1 + Val(bs[0])]; bs == [ToByte(|name|)] + name + bs[1 + Val(bs[0])..]
  {
    FirstThen(bs, 1 + Val(bs[0]));
  }

  lemma FirstThen(bs: seq<byte>, n: nat)
    requires 1 <= n <= |bs|
    ensures bs == [bs[0]] + bs[1..n] + bs[n..]
  {
  }

  lemma AddrWasEncoded(kind: byte, bs: seq<byte>)
    requires ReadAddr(kind, bs).Found?
    ensures var r := ReadAddr(kind, bs); AddrOk(r.addr) && AddrType(r.addr) == kind && bs == AddrBytes(r.addr) + r.rest
  {
    if kind == 3 {
      NameWasEncoded(bs);
    }
  }

  /** The greeting and request in front of an opened tunnel. */
  ghost function HelloOf(bs: seq<byte>): Hello
    requires Handle(bs).Tunnel?
  {
    var n := Val(bs[1]);
    Hello(bs[2..2 + n], bs[2 + n..][2], Handle(bs).addr, Handle(bs).port)
  }

  lemma GreetingWasEncoded(bs: seq<byte>)
    requires AfterGreeting(bs).Some?
    ensures bs == [VERSION, ToByte(|bs[2..2 + Val(bs[1])]|)] + bs[2..2 + Val(bs[1])] + AfterGreeting(bs).value
  {
    TwoThen(bs, 2 + Val(bs[1]));
  }

  lemma TwoThen(bs: seq<byte>, n: nat)
    requires 2 <= n <= |bs|
    ensures bs == [bs[0], bs[1]] + bs[2..n] + bs[n..]
  {
  }

  lemma PortWasEncoded(bs: seq<byte>)
    requires |bs| >= 2
    ensures var n := Val(bs[0]) * 256 + Val(bs[1]); n < 65536 && bs == BigEndian(n, 2) + bs[2..]
  {
    PortBytes(bs[..2]);
    assert bs == bs[..2] + bs[2..];
  }

  lemma AddressWasEncoded(kind: byte, bs: seq<byte>)
    requires HandleAddress(kind, bs).Tunnel?
    ensures var t := HandleAddress(kind, bs);
            && AddrOk(t.addr) && t.port < 65536 && kind == AddrType(t.addr)
            && bs == AddrBytes(t.addr) + (BigEndian(t.port, 2) + t.rest)
  {
    AddrWasEncoded(kind, bs);
    PortWasEncoded(ReadAddr(kind, bs).rest);
  }

  lemma RequestWasEncoded(bs: seq<byte>)
    requires HandleRequest(bs).Tunnel?
    ensures var t := HandleRequest(bs);
            && AddrOk(t.addr) && t.port < 65536
            && bs == [VERSION, CONNECT, bs[2], AddrType(t.addr)] + (AddrBytes(t.addr) + (BigEndian(t.port, 2) + t.rest))
  {
    AddressWasEncoded(bs[3], bs[4..]);
    assert bs == [bs[0], bs[1], bs[2], bs[3]] + bs[4..];
  }

  /** Only an encoded handshake opens a tunnel; all other streams end closed. */
  lemma TunnelMeansHandshake(bs: seq<byte>)
    requires Handle(bs).Tunnel?
    ensures HelloOk(HelloOf(bs)) && bs == Encode(HelloOf(bs)) + Handle(bs).rest
  {
    var req := AfterGreeting(bs).value;
    var h := HelloOf(bs);
    GreetingWasEncoded(bs);
    RequestWasEncoded(req);
    Regroup(GreetingBytes(h), [VERSION, CONNECT, h.reserved, AddrType(h.addr)],
      AddrBytes(h.addr), BigEndian(h.port, 2), Handle(bs).rest);
  }

  lemma Regroup(a: seq<byte>, b: seq<byte>, c: seq<byte>, d: seq<byte>, e: seq<byte>)
    ensures a + (b + (c + (d + e))) == (a + (b + (c + d))) + e
  {
  }

  /** Two handshakes in front of the same stream are the same one. */
  lemma OneHandshake(h: Hello, rest: seq<byte>, h': Hello, rest': seq<byte>)
    requires HelloOk(h) && HelloOk(h') && Encode(h) + rest == Encode(h') + rest'
    ensures h == h' && rest == rest'
  {
    HandshakeReadsBack(h, rest);
    HandshakeReadsBack(h', rest');
    EncodeFixesHead(h, rest);
    EncodeFixesHead(h', rest');
  }

  lemma EncodeFixesHead(h: Hello, rest: seq<byte>)
    requires HelloOk(h)
    ensures var bs := Encode(h) + rest;
            |bs| > 4 + |h.methods| && Val(bs[1]) == |h.methods| &&
            bs[2..2 + |h.methods|] == h.methods && bs[4 + |h.methods|] == h.reserved
  {
  }

  /** A handshake that is cut off anywhere is closed without a tunnel and without a refusal; the method
      is answered as soon as the greeting is complete. */
  lemma CutHandshakeIsClosed(h: Hello, n: nat)
    requires HelloOk(h) && n < |Encode(h)|
    ensures Handle(Encode(h)[..n]) == HungUp(if n < 2 + |h.methods| then [] else [5, 0])
  {
    var greeting := GreetingBytes(h);
    var whole := [VERSION, CONNECT, h.reserved, AddrType(h.addr)] + (AddrBytes(h.addr) + BigEndian(h.port, 2));
    if n < |greeting| {
      assert (greeting + whole)[..n] == greeting[..n];
      CutGreeting(h, n);
    } else {
      CutBehind(greeting, whole, n);
      GreetingReadsBack(h, whole[..n - |greeting|]);
      CutRequestIsClosed(h, n - |greeting|);
    }
  }

  lemma CutBehind(a: seq<byte>, b: seq<byte>, n: nat)
    requires |a| <= n <= |a| + |b|
    ensures (a + b)[..n] == a + b[..n - |a|]
  {
  }

  lemma CutGreeting(h: Hello, n: nat)
    requires HelloOk(h) && n < |GreetingBytes(h)|
    ensures AfterGreeting(GreetingBytes(h)[..n]).None?
  {
  }

  lemma CutRequestIsClosed(h: Hello, n: nat)
    requires HelloOk(h)
    requires n < 4 + |AddrBytes(h.addr)| + 2
    ensures var whole := [VERSION, CONNECT, h.reserved, AddrType(h.addr)] + (AddrBytes(h.addr) + BigEndian(h.port, 2));
            HandleRequest(whole[..n]) == HungUp(NO_AUTH)
  {
    if n >= 4 {
      CutBehindHead([VERSION, CONNECT, h.reserved, AddrType(h.addr)], AddrBytes(h.addr) + BigEndian(h.port, 2), n);
      CutAddr(h.addr, BigEndian(h.port, 2), n - 4);
    }
  }

  lemma CutBehindHead(head: seq<byte>, tail: seq<byte>, n: nat)
    requires |head| == 4 && 4 <= n <= 4 + |tail|
    ensures var bs := (head + tail)[..n];
            bs[4..] == tail[..n - 4] && bs[0] == head[0] && bs[1] == head[1] && bs[2] == head[2] && bs[3] == head[3]
  {
  }

  lemma CutAddr(a: Addr, port: seq<byte>, n: nat)
    requires AddrOk(a) && |port| == 2 && n < |AddrBytes(a)| + 2
    ensures var r := ReadAddr(AddrType(a), (AddrBytes(a) + port)[..n]);
            r == Missing || (r.Found? && |r.rest| < 2)
  {
    var bs := (AddrBytes(a) + port)[..n];
    if a.Name? {
      assert n > 0 ==> bs[0] == ToByte(|a.bytes|);
    }
  }

  /** Which streams are refused, and how: another version or command first, another address type then;
      neither looks at the bytes that follow. */
  lemma RefusedExactly(bs: seq<byte>)
    requires |bs| >= 2 && bs[0] == 5 && |bs| >= 2 + Val(bs[1])
    ensures var req := bs[2 + Val(bs[1])..];
            && (Handle(bs) == HungUp([5, 0, 5, 7, 0, 1, 0, 0, 0, 0, 0, 0]) <==>
                  |req| >= 4 && (req[0] != 5 || req[1] != 1))
            && (Handle(bs) == HungUp([5, 0, 5, 8, 0, 1, 0, 0, 0, 0, 0, 0]) <==>
                  |req| >= 4 && req[0] == 5 && req[1] == 1 && req[3] !in {1, 3, 4})
  {
    assert NO_AUTH + BAD_COMMAND == [5, 0, 5, 7, 0, 1, 0, 0, 0, 0, 0, 0];
    assert NO_AUTH + BAD_TYPE == [5, 0, 5, 8, 0, 1, 0, 0, 0, 0, 0, 0];
    assert (NO_AUTH + BAD_COMMAND)[3] == 7 && (NO_AUTH + BAD_TYPE)[3] == 8;
  }

  /** A tunnel, told by the bytes alone: a greeting of version 5, a request to connect, the address by its type,
      two bytes of port; the client is told method 0 and success. */
  ghost predicate TunnelStands(bs: seq<byte>, o: Outcome, r: nat, e: nat)
    requires o.Tunnel?
  {
    && |bs| >= 2 && bs[0] == 5 && r == 2 + Val(bs[1]) && r + 4 < e && e + 2 <= |bs|
    && bs[r] == 5 && bs[r + 1] == 1 && bs[r + 3] in {1, 3, 4}
    && (bs[r + 3] == 1 ==> e == r + 8 && o.addr == V4(bs[r + 4..e]))
    && (bs[r + 3] == 3 ==> e == r + 5 + Val(bs[r + 4]) && o.addr == Name(bs[r + 5..e]))
    && (bs[r + 3] == 4 ==> e == r + 20 && o.addr == V6(bs[r + 4..e]))
    && o.port == Val(bs[e]) * 256 + Val(bs[e + 1]) && o.rest == bs[e + 2..]
    && o.sent == [5, 0, 5, 0, 0, 1, 0, 0, 0, 0, 0, 0]
  }

  /** The same for the request, its bytes counted from its start. */
  ghost predicate RequestStands(req: seq<byte>, o: Outcome, e: nat)
    requires o.Tunnel?
  {
    && 4 < e && e + 2 <= |req|
    && req[0] == 5 && req[1] == 1 && req[3] in {1, 3, 4}
    && (req[3] == 1 ==> e == 8 && o.addr == V4(req[4..e]))
    && (req[3] == 3 ==> e == 5 + Val(req[4]) && o.addr == Name(req[5..e]))
    && (req[3] == 4 ==> e == 20 && o.addr == V6(req[4..e]))
    && o.port == Val(req[e]) * 256 + Val(req[e + 1]) && o.rest == req[e + 2..]
    && o.sent == [5, 0, 5, 0, 0, 1, 0, 0, 0, 0, 0, 0]
  }

  lemma AnswersAre()
    ensures NO_AUTH + GRANTED == [5, 0, 5, 0, 0, 1, 0, 0, 0, 0, 0, 0]
  {
  }

  lemma PortStands(addr: Addr, rest: seq<byte>)
    requires HandlePort(addr, rest).Tunnel?
    ensures var o := HandlePort(addr, rest);
            && |rest| >= 2 && o.addr == addr && o.port == Val(rest[0]) * 256 + Val(rest[1]) && o.rest == rest[2..]
            && o.sent == [5, 0, 5, 0, 0, 1, 0, 0, 0, 0, 0, 0]
  {
    AnswersAre();
  }

  lemma RequestByBytes(req: seq<byte>) returns (e: nat)
    requires HandleRequest(req).Tunnel?
    ensures RequestStands(req, HandleRequest(req), e)
  {
    var n := AddressEnds(req[3], req[4..]);
    var rest := req[4..][n..];
    PortStands(ReadAddr(req[3], req[4..]).addr, rest);
    e := 4 + n;
    assert rest == req[e..];
    assert req[4..][..n] == req[4..e] && (n > 0 ==> req[4..][1..n] == req[5..e]);
  }

  lemma TunnelByBytes(bs: seq<byte>) returns (r: nat, e: nat)
    requires Handle(bs).Tunnel?
    ensures TunnelStands(bs, Handle(bs), r, e)
  {
    r := 2 + Val(bs[1]);
    var req := bs[r..];
    e := RequestByBytes(req);
    RequestInStream(bs, r, e);
    e := r + e;
  }

  lemma RequestInStream(bs: seq<byte>, r: nat, e: nat)
    requires r <= |bs| && 5 <= e && e + 2 <= |bs[r..]|
    ensures var req := bs[r..];
            && (forall k :: 0 <= k < |req| ==> req[k] == bs[r + k])
            && req[4..e] == bs[r + 4..r + e] && req[5..e] == bs[r + 5..r + e] && req[e + 2..] == bs[r + e + 2..]
  {
  }

  /** Where an address ends. */
  lemma AddressEnds(kind: byte, bs: seq<byte>) returns (e: nat)
    requires ReadAddr(kind, bs).Found?
    ensures 0 < e <= |bs| && kind in {1, 3, 4}
    ensures var f := ReadAddr(kind, bs);
            && f.rest == bs[e..]
            && (kind == 1 ==> e == 4 && f.addr == V4(bs[..e]))
            && (kind == 3 ==> e == 1 + Val(bs[0]) && f.addr == Name(bs[1..e]))
            && (kind == 4 ==> e == 16 && f.addr == V6(bs[..e]))
  {
    e := |bs| - |ReadAddr(kind, bs).rest|;
  }

  // ---- the choice of a method ----

  const NOT_ACCEPTABLE: byte := 0xff

  /** The answer that section 3 asks of a server that supports method 0 only. */
  function MethodFor(methods: seq<byte>): byte { if 0 in methods then 0 else NOT_ACCEPTABLE }

  /** The method that the client is told. */
  function Answered(o: Outcome): Option<byte> { if |o.sent| < 2 then None else Some(o.sent[1]) }

  /** The handler's answer is that one exactly when the client offered method 0. */
  lemma MethodIsRightExactlyWhenOffered(h: Hello, rest: seq<byte>)
    requires HelloOk(h)
    ensures Answered(Handle(Encode(h) + rest)) == Some(MethodFor(h.methods)) <==> 0 in h.methods
    ensures Answered(Handle(Encode(h) + rest)) == Some(0)
  {
    HandshakeReadsBack(h, rest);
  }

  /** A client that offers a password only is told a method it did not offer, and gets a tunnel. */
  lemma UnofferedMethodExists(rest: seq<byte>)
    ensures var h := Hello([2], 0, V4([127, 0, 0, 1]), 80);
            && HelloOk(h) && Handle(Encode(h) + rest) == Tunnel(NO_AUTH + GRANTED, h.addr, h.port, rest)
            && Answered(Handle(Encode(h) + rest)) == Some(0) && 0 !in h.methods
  {
    HandshakeReadsBack(Hello([2], 0, V4([127, 0, 0, 1]), 80), rest);
  }

  // ---- the destination ----

  /** The host text of an address; the text of an IP address is a parameter. */
  function HostText(a: Addr, ipText: seq<byte> -> string): string {
    if a.Name? then seq(|a.bytes|, i requires 0 <= i < |a.bytes| => Val(a.bytes[i]) as char) else ipText(a.bytes)
  }

  function Destination(a: Addr, port: nat, ipText: seq<byte> -> string): string {
    JoinHostPort(HostText(a, ipText), Decimal(port))
  }

  /** Its text: the host, in brackets if it has a colon, a colon, and the port in plain digits. */
  lemma DestinationText(h: Hello, rest: seq<byte>, ipText: seq<byte> -> string) returns (port: string)
    requires HelloOk(h)
    ensures var t := Handle(Encode(h) + rest);
            && t.Tunnel?
            && Destination(t.addr, t.port, ipText) ==
               (if ':' in HostText(h.addr, ipText) then "[" + HostText(h.addr, ipText) + "]:"
                else HostText(h.addr, ipText) + ":") + port
    ensures Number(port) == h.port && (forall i :: 0 <= i < |port| ==> '0' <= port[i] <= '9')
    ensures port != "" && (port[0] == '0' <==> h.port == 0)
    ensures h.addr.Name? ==>
              && |HostText(h.addr, ipText)| == |h.addr.bytes|
              && forall i :: 0 <= i < |h.addr.bytes| ==> HostText(h.addr, ipText)[i] as int == h.addr.bytes[i] as int
    ensures !h.addr.Name? ==> HostText(h.addr, ipText) == ipText(h.addr.bytes)
  {
    HandshakeReadsBack(h, rest);
    port := Decimal(h.port);
    DecimalReadsBack(h.port);
    DecimalIsPlain(h.port);
  }

  /** The destination handed to the engine stands for the host and port that the client sent, exactly
      when the host has no brackets. */
  lemma DestinationSplits(h: Hello, rest: seq<byte>, ipText: seq<byte> -> string)
    requires HelloOk(h)
    ensures var t := Handle(Encode(h) + rest);
            && t.Tunnel?
            && var parts := SplitHostPort(Destination(t.addr, t.port, ipText));
               (parts.Some? && parts.value.host == HostText(h.addr, ipText) && Number(parts.value.port) == h.port)
               <==> Bracketless(HostText(h.addr, ipText))
  {
    HandshakeReadsBack(h, rest);
    var host := HostText(h.addr, ipText);
    SplitsBackExactlyWhenBracketless(host, Decimal(h.port));
    DecimalReadsBack(h.port);
    if SplitHostPort(JoinHostPort(host, Decimal(h.port))).Some? {
      SplitDenotes(JoinHostPort(host, Decimal(h.port)));
    }
  }
}
