/** The connection side of ws.go and hub.go: writes in two steps, sequential reads into buffers,
    unmasking in place, and the fan-out to every client. */
module WsIo {
  import opened Prelude
  import opened WsCodec

  method MakeHeader(opcode: byte, n: nat) returns (hdr: seq<byte>)
    ensures hdr == Header(opcode, n)
  {
    if n < 126 {
      hdr := [WithTop(opcode), ToByte(n)];
    } else if n < 65536 {
      hdr := [WithTop(opcode), 126, ToByte(n / 256), ToByte(n % 256)];
    } else {
      hdr := [WithTop(opcode), 127] + BigEndian(n, 8);
    }
  }

  lemma TwoCuts(bs: seq<byte>, at: nat, n: nat)
    requires at + n <= |bs|
    ensures bs[at..][..n] == bs[at..at + n] && bs[at..][n..] == bs[at + n..]
  {
  }

  /** A client connection; `out` is everything written to it. */
  class WsConn {
    var out: seq<byte>

    constructor ()
      ensures out == []
    {
      out := [];
    }

    method Write(bs: seq<byte>)
      modifies this
      ensures out == old(out) + bs
    {
      out := out + bs;
    }

    /** The header by the length, then the payload. */
    method WriteWSFrame(opcode: byte, payload: seq<byte>)
      modifies this
      ensures out == old(out) + ServerFrame(opcode, payload)
    {
      var hdr := MakeHeader(opcode, |payload|);
      Write(hdr);
      Write(payload);
    }

    method Send(payload: seq<byte>)
      modifies this
      ensures out == old(out) + ServerFrame(1, payload)
    {
      WriteWSFrame(1, payload);
    }
  }

  /** A buffered reader; `rest` is what was not read yet. */
  class ByteReader {
    var rest: seq<byte>

    constructor (bs: seq<byte>)
      ensures rest == bs
    {
      rest := bs;
    }

    /** io.ReadFull into a buffer of n bytes: all of them, or an error at the end of the stream. */
    method ReadFull(n: nat) returns (ok: bool, data: array<byte>)
      modifies this
      ensures fresh(data) && ok == (|old(rest)| >= n)
      ensures ok ==> data[..] == old(rest)[..n] && rest == old(rest)[n..]
      ensures !ok ==> rest == []
    {
      data := new byte[n](_ => 0);
      ok := |rest| >= n;
      if ok {
        forall i | 0 <= i < n {
          data[i] := rest[i];
        }
        assert data[..] == rest[..n];
        rest := rest[n..];
      } else {
        rest := [];
      }
    }

    /** The extended length, if the second byte announces one. */
    method ReadLength(second: byte) returns (ok: bool, n: nat)
      modifies this
      ensures var k := ExtBytes(FormOf(second));
              && ok == (|old(rest)| >= k)
              && (ok ==> n == LenOf(second, old(rest)[..k]) && rest == old(rest)[k..])
    {
      ok, n := true, Low7(second);
      if n == 126 {
        var ext;
        ok, ext := ReadFull(2);
        n := FromBigEndian(ext[..]);
      } else if n == 127 {
        var ext;
        ok, ext := ReadFull(8);
        n := FromBigEndian(ext[..]);
      }
    }

    method ReadMask(masked: bool) returns (ok: bool, mask: Option<seq<byte>>)
      modifies this
      ensures ok == (masked ==> |old(rest)| >= 4)
      ensures ok ==> mask == (if masked then Some(old(rest)[..4]) else None)
      ensures ok ==> rest == old(rest)[if masked then 4 else 0..]
    {
      ok, mask := true, None;
      if masked {
        var m;
        ok, m := ReadFull(4);
        mask := Some(m[..]);
      }
    }

    /** The two fixed bytes, the length and the mask. */
    method ReadHeader() returns (ok: bool, first: byte, mask: Option<seq<byte>>, n: nat)
      modifies this
      ensures var bs := old(rest);
              && ok == (|bs| >= 2 && |bs| >= ExtEnd(bs) && |bs| >= HeaderEnd(bs))
              && (ok ==> first == bs[0] && mask == MaskOf(bs) && n == LenOf(bs[1], bs[2..ExtEnd(bs)])
                         && rest == bs[HeaderEnd(bs)..])
    {
      ghost var bs := rest;
      first, mask, n := 0, None, 0;
      var h;
      ok, h := ReadFull(2);
      if !ok { return; }
      first := h[0];
      var second := h[1];
      assert first == bs[0] && second == bs[1];
      ok, n := ReadLength(second);
      if !ok { return; }
      assert bs[2..][..ExtBytes(FormOf(second))] == bs[2..ExtEnd(bs)];
      assert rest == bs[ExtEnd(bs)..];
      ok, mask := ReadMask(Top(second));
      if !ok { return; }
      if mask.Some? { assert bs[ExtEnd(bs)..][..4] == bs[ExtEnd(bs)..HeaderEnd(bs)]; }
    }

    /** readWSFrame.  The result is that of ReadFrame on the unread bytes, and a frame that was read
        is gone from the stream. */
    method ReadWSFrame(room: Room) returns (r: ReadResult)
      modifies this
      ensures r == ReadFrame(old(rest), room)
      ensures r.Got? || r.Closed? ==> rest == r.rest
    {
      ghost var bs := rest;
      var ok, first, mask, n := ReadHeader();
      if !ok { return Cut; }
      if n >= room { return Panicked; }
      ghost var at := HeaderEnd(bs);
      if |bs| >= at + n { TwoCuts(bs, at, n); }
      r := ReadPayload(first, mask, n);
    }

    method ReadPayload(first: byte, mask: Option<seq<byte>>, n: nat) returns (r: ReadResult)
      requires mask.Some? ==> |mask.value| == 4
      modifies this
      ensures r == if |old(rest)| < n then Cut
                   else if Opcode(first) == CLOSE then Closed(old(rest)[n..])
                   else Got(Unmasked(old(rest)[..n], mask), old(rest)[n..])
      ensures r.Got? || r.Closed? ==> rest == r.rest
    {
      var ok, payload := ReadFull(n);
      if !ok { return Cut; }
      if mask.Some? {
        UnmaskInPlace(payload, mask.value);
      }
      if Opcode(first) == CLOSE { return Closed(rest); }
      r := Got(payload[..], rest);
    }
  }

  /** Unmasks the payload where it stands. */
  method UnmaskInPlace(payload: array<byte>, mask: seq<byte>)
    requires |mask| == 4
    modifies payload
    ensures payload[..] == Masked(old(payload[..]), mask)
  {
    for i := 0 to payload.Length
      invariant forall k :: 0 <= k < i ==> payload[k] == Xor(old(payload[k]), mask[k % 4])
      invariant forall k :: i <= k < payload.Length ==> payload[k] == old(payload[k])
    {
      payload[i] := Xor(payload[i], mask[i % 4]);
    }
  }

  /** hub.go without its lock: each method is one locked region. */
  class Hub {
    var clients: set<WsConn>

    constructor ()
      ensures clients == {}
    {
      clients := {};
    }

    method Add(c: WsConn)
      modifies this
      ensures clients == old(clients) + {c}
    {
      clients := clients + {c};
    }

    method Remove(c: WsConn)
      modifies this
      ensures clients == old(clients) - {c}
    {
      clients := clients - {c};
    }

    /** Every registered client gets the message as one whole frame, exactly once, in any order. */
    method Publish(message: seq<byte>)
      modifies clients
      ensures forall c :: c in clients ==> c.out == old(c.out) + ServerFrame(1, message)
    {
      var todo := clients;
      while todo != {}
        invariant todo <= clients
        invariant forall c :: c in clients ==>
                    c.out == if c in todo then old(c.out) else old(c.out) + ServerFrame(1, message)
        decreases |todo|
      {
        var c :| c in todo;
        c.Send(message);
        todo := todo - {c};
      }
    }
  }
}
