/** handleSOCKS5 as it runs: sequential reads from a buffered stream and replies written in between. */
module SocksIo {
  import opened Prelude
  import opened WsCodec
  import opened Socks
  import WsIo

  class Conn {
    var out: seq<byte>
    var closed: bool

    constructor ()
      ensures out == [] && !closed
    {
      out, closed := [], false;
    }

    method Write(bs: seq<byte>)
      modifies this`out
      ensures out == old(out) + bs
    {
      out := out + bs;
    }

    method Close()
      modifies this`closed
      ensures closed
    {
      closed := true;
    }
  }

  method ReadGreeting(br: WsIo.ByteReader) returns (ok: bool)
    modifies br
    ensures ok == AfterGreeting(old(br.rest)).Some?
    ensures ok ==> br.rest == AfterGreeting(old(br.rest)).value
  {
    var hdr;
    ok, hdr := br.ReadFull(2);
    if !ok { return; }
    if hdr[0] != VERSION { return false; }
    var methods;
    ok, methods := br.ReadFull(Val(hdr[1]));
  }

  method ReadAddress(br: WsIo.ByteReader, kind: byte) returns (r: Option<Addr>)
    requires kind in {1, 3, 4}
    modifies br
    ensures ReadAddr(kind, old(br.rest)) == if r.None? then Missing else Found(r.value, br.rest)
  {
    var ok, bytes;
    if kind == 1 {
      ok, bytes := br.ReadFull(4);
      r := if ok then Some(V4(bytes[..])) else None;
    } else if kind == 3 {
      r := ReadName(br);
    } else {
      ok, bytes := br.ReadFull(16);
      r := if ok then Some(V6(bytes[..])) else None;
    }
  }

  method ReadName(br: WsIo.ByteReader) returns (r: Option<Addr>)
    modifies br
    ensures ReadAddr(3, old(br.rest)) == if r.None? then Missing else Found(r.value, br.rest)
  {
    ghost var bs := br.rest;
    var ok, bytes := br.ReadFull(1);
    if !ok { return None; }
    assert bytes[..] == bs[..1] && bytes[0] == bs[0];
    var n := Val(bytes[0]);
    ok, bytes := br.ReadFull(n);
    if !ok { return None; }
    WsIo.TwoCuts(bs, 1, n);
    r := Some(Name(bytes[..]));
  }

  /** The request after the greeting.  None means that the connection was closed. */
  method ReadRequest(br: WsIo.ByteReader, c: Conn) returns (t: Option<(Addr, nat)>)
    requires c.out == NO_AUTH && !c.closed
    modifies br, c
    ensures match HandleRequest(old(br.rest))
            case HungUp(sent) => t == None && c.closed && c.out == sent
            case Tunnel(sent, addr, port, rest) =>
              t == Some((addr, port)) && !c.closed && br.rest == rest && c.out == sent
  {
    ghost var bs := br.rest;
    var ok, req := br.ReadFull(4);
    if !ok { c.Close(); return None; }
    assert req[..] == bs[..4] && req[0] == bs[0] && req[1] == bs[1] && req[3] == bs[3];
    if req[0] != VERSION || req[1] != CONNECT {
      c.Write(BAD_COMMAND);
      c.Close();
      return None;
    }
    t := ReadDestination(br, c, req[3]);
  }

  method ReadDestination(br: WsIo.ByteReader, c: Conn, kind: byte) returns (t: Option<(Addr, nat)>)
    requires c.out == NO_AUTH && !c.closed
    modifies br, c
    ensures match HandleAddress(kind, old(br.rest))
            case HungUp(sent) => t == None && c.closed && c.out == sent
            case Tunnel(sent, addr, port, rest) =>
              t == Some((addr, port)) && !c.closed && br.rest == rest && c.out == sent
  {
    if kind !in {1, 3, 4} {
      c.Write(BAD_TYPE);
      c.Close();
      return None;
    }
    var addr := ReadAddress(br, kind);
    if addr.Some? {
      t := ReadPortOf(br, c, addr.value);
    } else {
      c.Close();
      t := None;
    }
  }

  method ReadPortOf(br: WsIo.ByteReader, c: Conn, addr: Addr) returns (t: Option<(Addr, nat)>)
    requires c.out == NO_AUTH && !c.closed
    modifies br, c
    ensures match HandlePort(addr, old(br.rest))
            case HungUp(sent) => t == None && c.closed && c.out == sent
            case Tunnel(sent, addr, port, rest) =>
              t == Some((addr, port)) && !c.closed && br.rest == rest && c.out == sent
  {
    var port := ReadPort(br);
    if port.Some? {
      c.Write(GRANTED);
      t := Some((addr, port.value));
    } else {
      c.Close();
      t := None;
    }
  }

  method ReadPort(br: WsIo.ByteReader) returns (port: Option<nat>)
    modifies br
    ensures var bs := old(br.rest);
            if |bs| < 2 then port == None
            else port == Some(Val(bs[0]) * 256 + Val(bs[1])) && br.rest == bs[2..]
  {
    ghost var bs := br.rest;
    var ok, b := br.ReadFull(2);
    if !ok { return None; }
    assert b[..] == bs[..2] && b[0] == bs[0] && b[1] == bs[1];
    port := Some(Val(b[0]) * 256 + Val(b[1]));
  }

  /** The bytes written, the tunnel's address, port and remaining stream, and the closing are those of
      the parser. */
  method HandleSocks5(br: WsIo.ByteReader, c: Conn) returns (t: Option<(Addr, nat)>)
    requires c.out == [] && !c.closed
    modifies br, c
    ensures match Handle(old(br.rest))
            case HungUp(sent) => t == None && c.closed && c.out == sent
            case Tunnel(sent, addr, port, rest) =>
              t == Some((addr, port)) && !c.closed && br.rest == rest && c.out == sent
  {
    var ok := ReadGreeting(br);
    if !ok { c.Close(); return None; }
    c.Write(NO_AUTH);
    t := ReadRequest(br, c);
  }
}
