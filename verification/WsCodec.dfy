/** ws.go: WebSocket frames as bytes (sections 5.2, 5.3 and 5.5.1 of RFC 6455). */
module WsCodec {
  import opened Prelude

  newtype byte = x: int | 0 <= x < 256

  function ToByte(n: int): byte
    requires 0 <= n < 256
  {
    n as byte
  }

  function Val(b: byte): (n: int)
    ensures 0 <= n < 256
  {
    b as int
  }

  // ---- operations on bits, as arithmetic ----

  /** b & 0x7f. */
  function Low7(b: byte): (n: nat)
    ensures n < 128
  {
    Val(b) % 128
  }

  /** b & 0x80 != 0. */
  predicate Top(b: byte) { b >= 128 }

  /** b | 0x80. */
  function WithTop(b: byte): byte { if Top(b) then b else b + 128 }

  /** b & 0x0f. */
  function Low4(b: byte): byte { b % 16 }

  /** a ^ b. */
  function Xor(a: byte, b: byte): byte { ((a as bv8 ^ b as bv8) as int) as byte }

  lemma Successor(x: bv8)
    requires x != 255
    ensures (x + 1) as int == x as int + 1
  {
  }

  lemma {:induction false} Conversion(n: int)
    requires 0 <= n < 256
    ensures (n as bv8) as int == n
    decreases n
  {
    if n > 0 {
      Conversion(n - 1);
      Successor((n - 1) as bv8);
    }
  }

  lemma BitsOf(x: bv8)
    ensures (x & 0x7f) as int == x as int % 128
    ensures x & 0x80 != 0 <==> x as int >= 128
    ensures (x | 0x80) as int == if x as int >= 128 then x as int else x as int + 128
    ensures (x & 0x0f) as int == x as int % 16
  {
  }

  /** The arithmetic is the bit operations of the source. */
  lemma BitOperations(b: byte)
    ensures Low7(b) == (b as bv8 & 0x7f) as int
    ensures Top(b) <==> b as bv8 & 0x80 != 0
    ensures WithTop(b) as int == (b as bv8 | 0x80) as int
    ensures Low4(b) as int == (b as bv8 & 0x0f) as int
  {
    Conversion(b as int);
    BitsOf(b as bv8);
  }

  const WEIGHTS: seq<nat> := [1, 2, 4, 8, 16, 32, 64, 128]

  /** Bit k of a byte, counted from the least significant one. */
  predicate Bit(b: byte, k: nat)
    requires k < 8
  {
    Val(b) / WEIGHTS[k] % 2 == 1
  }

  /** The byte whose only set bit is k. */
  function OnlyBit(k: nat): bv8
    requires k < 8
  {
    if k == 0 then 1 else if k == 1 then 2 else if k == 2 then 4 else if k == 3 then 8
    else if k == 4 then 16 else if k == 5 then 32 else if k == 6 then 64 else 128
  }

  lemma BitZero(x: bv8)
    ensures x & 1 != 0 <==> x as int % 2 == 1
  {
  }

  lemma BitOne(x: bv8)
    ensures x & 2 != 0 <==> x as int / 2 % 2 == 1
  {
  }

  lemma BitTwo(x: bv8)
    ensures x & 4 != 0 <==> x as int / 4 % 2 == 1
  {
  }

  lemma BitThree(x: bv8)
    ensures x & 8 != 0 <==> x as int / 8 % 2 == 1
  {
  }

  lemma BitFour(x: bv8)
    ensures x & 16 != 0 <==> x as int / 16 % 2 == 1
  {
  }

  lemma BitFive(x: bv8)
    ensures x & 32 != 0 <==> x as int / 32 % 2 == 1
  {
  }

  lemma BitSix(x: bv8)
    ensures x & 64 != 0 <==> x as int / 64 % 2 == 1
  {
  }

  lemma BitSeven(x: bv8)
    ensures x & 128 != 0 <==> x as int / 128 % 2 == 1
  {
  }

  lemma BitIs(x: bv8, k: nat)
    requires k < 8
    ensures x & OnlyBit(k) != 0 <==> x as int / WEIGHTS[k] % 2 == 1
  {
    if k == 0 { BitZero(x); }
    else if k == 1 { BitOne(x); }
    else if k == 2 { BitTwo(x); }
    else if k == 3 { BitThree(x); }
    else if k == 4 { BitFour(x); }
    else if k == 5 { BitFive(x); }
    else if k == 6 { BitSix(x); }
    else { BitSeven(x); }
  }

  predicate HasBit(x: bv8, k: nat)
    requires k < 8
  {
    x & OnlyBit(k) != 0
  }

  lemma XorAt(x: bv8, y: bv8, z: bv8, k: nat)
    requires k < 8 && z == x ^ y
    ensures HasBit(z, k) <==> HasBit(x, k) != HasBit(y, k)
  {
  }

  lemma BitOfByte(b: byte, x: bv8, k: nat)
    requires k < 8 && x == b as bv8
    ensures Bit(b, k) <==> HasBit(x, k)
  {
    Conversion(b as int);
    BitIs(x, k);
  }

  lemma XorOfBytes(a: byte, b: byte) returns (x: bv8, y: bv8, z: bv8)
    ensures x == a as bv8 && y == b as bv8 && z == Xor(a, b) as bv8 && z == x ^ y
  {
    x, y := a as bv8, b as bv8;
    z := x ^ y;
    BackAndForth(z);
  }

  /** A bit of a ^ b is set exactly when the bits of a and b differ. */
  lemma XorByBits(a: byte, b: byte, k: nat)
    requires k < 8
    ensures Bit(Xor(a, b), k) <==> Bit(a, k) != Bit(b, k)
  {
    var x, y, z := XorOfBytes(a, b);
    BitOfByte(a, x, k);
    BitOfByte(b, y, k);
    BitOfByte(Xor(a, b), z, k);
    XorAt(x, y, z, k);
  }

  lemma BackAndForth(x: bv8)
    ensures (x as int) as bv8 == x
  {
  }

  lemma XorOfBits(x: bv8, y: bv8)
    ensures (x ^ y) ^ y == x
  {
  }

  /** k bytes of n, most significant first: encoding/binary.BigEndian. */
  function BigEndian(n: nat, k: nat): (bs: seq<byte>)
    ensures |bs| == k
  {
    if k == 0 then [] else BigEndian(n / 256, k - 1) + [ToByte(n % 256)]
  }

  function FromBigEndian(bs: seq<byte>): nat {
    if bs == [] then 0 else FromBigEndian(bs[..|bs| - 1]) * 256 + Val(bs[|bs| - 1])
  }

  function Pow256(k: nat): (p: nat)
    ensures p > 0
  {
    if k == 0 then 1 else 256 * Pow256(k - 1)
  }

  lemma QuotientBelow(n: nat, p: nat)
    requires n < 256 * p
    ensures n / 256 < p
  {
  }

  lemma DigitBelow(a: nat, p: nat, b: nat)
    requires a < p && b < 256
    ensures a * 256 + b < 256 * p
  {
  }

  lemma DigitSplits(a: nat, b: nat)
    requires b < 256
    ensures (a * 256 + b) / 256 == a && (a * 256 + b) % 256 == b
  {
  }

  /** The value of a number with one more byte behind it. */
  lemma ValueSnoc(init: seq<byte>, last: byte)
    ensures FromBigEndian(init + [last]) == FromBigEndian(init) * 256 + Val(last)
  {
    assert (init + [last])[..|init|] == init;
  }

  lemma BytesSnoc(n: nat, k: nat)
    ensures BigEndian(n, k + 1) == BigEndian(n / 256, k) + [ToByte(n % 256)]
  {
  }

  /** A number is its last digit behind the rest of it. */
  lemma LastDigit(n: nat, k: nat, p: nat) returns (q: nat, r: nat)
    requires n < 256 * p
    ensures q < p && r < 256 && n == q * 256 + r
    ensures BigEndian(n, k + 1) == BigEndian(q, k) + [ToByte(r)]
  {
    q, r := n / 256, n % 256;
    QuotientBelow(n, p);
    BytesSnoc(n, k);
  }

  lemma {:induction false} BigEndianRoundTrip(n: nat, k: nat)
    requires n < Pow256(k)
    ensures FromBigEndian(BigEndian(n, k)) == n
  {
    if k > 0 {
      var q, r := LastDigit(n, k - 1, Pow256(k - 1));
      BigEndianRoundTrip(q, k - 1);
      ValueSnoc(BigEndian(q, k - 1), ToByte(r));
    }
  }

  lemma {:induction false} FromBigEndianBound(bs: seq<byte>)
    ensures FromBigEndian(bs) < Pow256(|bs|)
  {
    if bs != [] {
      var init, last := bs[..|bs| - 1], bs[|bs| - 1];
      FromBigEndianBound(init);
      DigitBelow(FromBigEndian(init), Pow256(|init|), Val(last));
    }
  }

  lemma {:induction false} FromBigEndianRoundTrip(bs: seq<byte>)
    ensures FromBigEndian(bs) < Pow256(|bs|)
    ensures BigEndian(FromBigEndian(bs), |bs|) == bs
  {
    FromBigEndianBound(bs);
    if bs != [] {
      var init, last := bs[..|bs| - 1], bs[|bs| - 1];
      FromBigEndianRoundTrip(init);
      SnocBytes(init, FromBigEndian(init), last);
      assert bs == init + [last];
    }
  }

  lemma SnocBytes(init: seq<byte>, a: nat, last: byte)
    requires BigEndian(a, |init|) == init
    ensures BigEndian(a * 256 + Val(last), |init| + 1) == init + [last]
  {
    DigitSplits(a, Val(last));
    BytesSnoc(a * 256 + Val(last), |init|);
  }

  // ---- frames ----

  const LEN_LIMIT: nat := 0x8000_0000_0000_0000

  /** The shortest slice that the runtime refuses to allocate; it refuses every longer one, and no signed
      length reaches 2^63. */
  type Room = n: nat | n <= LEN_LIMIT

  /** The three ways to write a payload length. */
  datatype LenForm = Len7 | Len16 | Len64

  /** A frame as section 5.2 lays it out: first byte (FIN, reserved bits, opcode), length form,
      optional masking key, payload. */
  datatype Frame = Frame(first: byte, form: LenForm, mask: Option<seq<byte>>, payload: seq<byte>)

  function Opcode(first: byte): byte { Low4(first) }

  const CLOSE: byte := 8

  predicate ValidFrame(f: Frame) {
    && (f.mask.Some? ==> |f.mask.value| == 4)
    && match f.form
       case Len7 => |f.payload| < 126
       case Len16 => |f.payload| < 65536
       case Len64 => |f.payload| < LEN_LIMIT
  }

  function Masked(payload: seq<byte>, mask: seq<byte>): (r: seq<byte>)
    requires |mask| == 4
    ensures |r| == |payload| && forall i :: 0 <= i < |r| ==> r[i] == Xor(payload[i], mask[i % 4])
  {
    seq(|payload|, i requires 0 <= i < |payload| => Xor(payload[i], mask[i % 4]))
  }

  /** Masking is its own inverse. */
  lemma MaskedTwice(payload: seq<byte>, mask: seq<byte>)
    requires |mask| == 4
    ensures Masked(Masked(payload, mask), mask) == payload
  {
    var m := Masked(payload, mask);
    forall i | 0 <= i < |payload| ensures Xor(m[i], mask[i % 4]) == payload[i] {
      XorTwice(payload[i], mask[i % 4]);
    }
  }

  lemma XorTwice(a: byte, b: byte)
    ensures Xor(Xor(a, b), b) == a
  {
    BackAndForth(a as bv8 ^ b as bv8);
    XorOfBits(a as bv8, b as bv8);
    Conversion(a as int);
  }

  function LenCode(form: LenForm, n: nat): (c: nat)
    requires form.Len7? ==> n < 126
    ensures c < 128
  {
    match form
    case Len7 => n
    case Len16 => 126
    case Len64 => 127
  }

  function ExtBytes(form: LenForm): nat {
    match form
    case Len7 => 0
    case Len16 => 2
    case Len64 => 8
  }

  /** The second byte of a header: the mask bit and the length code. */
  function SecondOf(masked: bool, code: nat): byte
    requires code < 128
  {
    if masked then WithTop(ToByte(code)) else ToByte(code)
  }

  /** The bytes in front of the payload. */
  function WireHeader(f: Frame): seq<byte>
    requires ValidFrame(f)
  {
    [f.first, SecondOf(f.mask.Some?, LenCode(f.form, |f.payload|))]
    + BigEndian(|f.payload|, ExtBytes(f.form))
    + (if f.mask.Some? then f.mask.value else [])
  }

  function Wire(f: Frame): seq<byte>
    requires ValidFrame(f)
  {
    WireHeader(f) + Unmasked(f.payload, f.mask)
  }

  // ---- readWSFrame ----

  /** Closed: a close frame was consumed.  Cut: the stream ended inside a frame.  Panicked: no slice of
      the announced length can be allocated. */
  datatype ReadResult =
    | Got(payload: seq<byte>, rest: seq<byte>)
    | Closed(rest: seq<byte>)
    | Cut
    | Panicked

  function FormOf(second: byte): LenForm {
    var n := Low7(second);
    if n == 126 then Len16 else if n == 127 then Len64 else Len7
  }

  function LenOf(second: byte, ext: seq<byte>): nat {
    if FormOf(second).Len7? then Low7(second) else FromBigEndian(ext)
  }

  /** Where the extended length ends, and where the payload starts. */
  function ExtEnd(bs: seq<byte>): (k: nat)
    requires |bs| >= 2
  {
    2 + ExtBytes(FormOf(bs[1]))
  }

  function HeaderEnd(bs: seq<byte>): (k: nat)
    requires |bs| >= 2
  {
    ExtEnd(bs) + if Top(bs[1]) then 4 else 0
  }

  function MaskOf(bs: seq<byte>): (mask: Option<seq<byte>>)
    requires |bs| >= 2 && |bs| >= HeaderEnd(bs)
    ensures mask.Some? ==> |mask.value| == 4
  {
    if Top(bs[1]) then Some(bs[ExtEnd(bs)..HeaderEnd(bs)]) else None
  }

  function ReadFrame(bs: seq<byte>, room: Room): ReadResult {
    if |bs| < 2 || |bs| < ExtEnd(bs) || |bs| < HeaderEnd(bs) then Cut
    else
      var n, at := LenOf(bs[1], bs[2..ExtEnd(bs)]), HeaderEnd(bs);
      if n >= room then Panicked
      else if |bs| < at + n then Cut
      else if Opcode(bs[0]) == CLOSE then Closed(bs[at + n..])
      else Got(Unmasked(bs[at..at + n], MaskOf(bs)), bs[at + n..])
  }

  function Unmasked(raw: seq<byte>, mask: Option<seq<byte>>): (r: seq<byte>)
    requires mask.Some? ==> |mask.value| == 4
    ensures |r| == |raw|
  {
    if mask.Some? then Masked(raw, mask.value) else raw
  }

  lemma SecondByte(n: nat, masked: bool)
    requires n < 128
    ensures var b := SecondOf(masked, n); Low7(b) == n && (Top(b) <==> masked)
  {
  }

  /** What the reader makes of a header: the form, the length and the mask that were written. */
  lemma HeaderReads(f: Frame, bs: seq<byte>)
    requires ValidFrame(f) && WireHeader(f) <= bs
    ensures var k := ExtBytes(f.form);
            && bs[0] == f.first && FormOf(bs[1]) == f.form
            && (Top(bs[1]) <==> f.mask.Some?)
            && LenOf(bs[1], bs[2..2 + k]) == |f.payload|
            && (f.mask.Some? ==> bs[2 + k..6 + k] == f.mask.value)
  {
    var k := ExtBytes(f.form);
    HeaderParts(f, bs);
    SecondByte(LenCode(f.form, |f.payload|), f.mask.Some?);
    LengthReads(f);
  }

  lemma HeaderParts(f: Frame, bs: seq<byte>)
    requires ValidFrame(f) && WireHeader(f) <= bs
    ensures var k := ExtBytes(f.form);
            && |bs| >= 2 + k + (if f.mask.Some? then 4 else 0)
            && bs[0] == f.first && bs[1] == SecondOf(f.mask.Some?, LenCode(f.form, |f.payload|))
            && bs[2..2 + k] == BigEndian(|f.payload|, k)
            && (f.mask.Some? ==> bs[2 + k..6 + k] == f.mask.value)
  {
    var k, h := ExtBytes(f.form), WireHeader(f);
    var mask := if f.mask.Some? then f.mask.value else [];
    var second := SecondOf(f.mask.Some?, LenCode(f.form, |f.payload|));
    var ext := BigEndian(|f.payload|, k);
    assert h == [f.first, second] + ext + mask;
    assert bs[..|h|] == h;
    SliceOfHeader(bs, f.first, second, ext, mask);
  }

  lemma SliceOfHeader(bs: seq<byte>, first: byte, second: byte, ext: seq<byte>, mask: seq<byte>)
    requires [first, second] + ext + mask <= bs
    ensures bs[0] == first && bs[1] == second && bs[2..2 + |ext|] == ext
    ensures bs[2 + |ext|..2 + |ext| + |mask|] == mask
  {
  }

  lemma LengthReads(f: Frame)
    requires ValidFrame(f)
    ensures !f.form.Len7? ==> FromBigEndian(BigEndian(|f.payload|, ExtBytes(f.form))) == |f.payload|
  {
    if !f.form.Len7? {
      assert Pow256(2) == 65536 by { assert Pow256(1) == 256; }
      Pow256Of8();
      BigEndianRoundTrip(|f.payload|, ExtBytes(f.form));
    }
  }

  lemma Pow256Of8()
    ensures Pow256(8) == 2 * LEN_LIMIT
  {
    assert Pow256(4) == 256 * 256 * 256 * 256 by {
      assert Pow256(2) == 256 * 256;
    }
    assert Pow256(6) == 256 * 256 * Pow256(4);
  }

  /** Where the payload and the rest stand. */
  lemma PayloadStands(f: Frame, rest: seq<byte>)
    requires ValidFrame(f)
    ensures var bs := Wire(f) + rest;
            var at, n := |WireHeader(f)|, |f.payload|;
            && at + n <= |bs| && bs[at + n..] == rest
            && bs[at..at + n] == if f.mask.Some? then Masked(f.payload, f.mask.value) else f.payload
  {
    var bs := Wire(f) + rest;
    var at, n := |WireHeader(f)|, |f.payload|;
    var sent := if f.mask.Some? then Masked(f.payload, f.mask.value) else f.payload;
    assert bs == WireHeader(f) + sent + rest;
  }

  /** Every encoding of every frame is read back, and exactly its bytes are consumed. */
  lemma ReadsBack(f: Frame, rest: seq<byte>, room: Room)
    requires ValidFrame(f) && |f.payload| < room
    ensures ReadFrame(Wire(f) + rest, room) ==
            if Opcode(f.first) == CLOSE then Closed(rest) else Got(f.payload, rest)
  {
    var bs := Wire(f) + rest;
    HeaderReads(f, bs);
    PayloadStands(f, rest);
    if f.mask.Some? {
      MaskedTwice(f.payload, f.mask.value);
    }
  }

  /** A frame cut short anywhere is an error, never a shorter message; once its header is complete, a
      length that cannot be allocated is a panic instead. */
  lemma CutFrameFails(f: Frame, k: nat, room: Room)
    requires ValidFrame(f) && k < |Wire(f)|
    ensures ReadFrame(Wire(f)[..k], room) == if k >= |WireHeader(f)| && |f.payload| >= room then Panicked else Cut
  {
    if k < |WireHeader(f)| {
      CutHeaderFails(f, k, room);
    } else {
      CutPayloadFails(f, k, room);
    }
  }

  lemma CutHeaderFails(f: Frame, k: nat, room: Room)
    requires ValidFrame(f) && k < |WireHeader(f)|
    ensures ReadFrame(Wire(f)[..k], room) == Cut
  {
    HeaderReads(f, Wire(f));
    assert k >= 2 ==> Wire(f)[..k][1] == Wire(f)[1];
  }

  lemma CutPayloadFails(f: Frame, k: nat, room: Room)
    requires ValidFrame(f) && |WireHeader(f)| <= k < |Wire(f)|
    ensures ReadFrame(Wire(f)[..k], room) == if |f.payload| >= room then Panicked else Cut
  {
    assert WireHeader(f) <= Wire(f)[..k];
    HeaderReads(f, Wire(f)[..k]);
  }

  lemma UnmaskedTwice(raw: seq<byte>, mask: Option<seq<byte>>)
    requires mask.Some? ==> |mask.value| == 4
    ensures Unmasked(Unmasked(raw, mask), mask) == raw
  {
    if mask.Some? { MaskedTwice(raw, mask.value); }
  }

  /** The frame that a successful read has seen. */
  function FrameSeen(bs: seq<byte>, room: Room): Frame
    requires ReadFrame(bs, room).Got? || ReadFrame(bs, room).Closed?
  {
    var n, at := LenOf(bs[1], bs[2..ExtEnd(bs)]), HeaderEnd(bs);
    Frame(bs[0], FormOf(bs[1]), MaskOf(bs), Unmasked(bs[at..at + n], MaskOf(bs)))
  }

  lemma SecondByteBack(b: byte)
    ensures SecondOf(Top(b), Low7(b)) == b
  {
  }

  lemma LengthSeen(second: byte, ext: seq<byte>)
    requires |ext| == ExtBytes(FormOf(second))
    ensures var n, form := LenOf(second, ext), FormOf(second);
            && (form.Len7? ==> n < 126) && (form.Len16? ==> n < 65536)
            && BigEndian(n, |ext|) == ext
            && (form.Len7? ==> LenCode(form, n) == Low7(second))
            && (!form.Len7? ==> LenCode(form, 0) == Low7(second))
  {
    FromBigEndianRoundTrip(ext);
    assert Pow256(2) == 65536 by { assert Pow256(1) == 256; }
  }

  lemma HeaderRebuilt(first: byte, second: byte, ext: seq<byte>, mask: Option<seq<byte>>, payload: seq<byte>)
    requires |ext| == ExtBytes(FormOf(second)) && |payload| == LenOf(second, ext) < LEN_LIMIT
    requires (mask.Some? <==> Top(second)) && (mask.Some? ==> |mask.value| == 4)
    ensures var f := Frame(first, FormOf(second), mask, payload);
            ValidFrame(f) && WireHeader(f) == [first, second] + ext + if mask.Some? then mask.value else []
  {
    LengthSeen(second, ext);
    SecondByteBack(second);
    var f := Frame(first, FormOf(second), mask, payload);
    assert LenCode(f.form, |payload|) == Low7(second);
    assert SecondOf(f.mask.Some?, LenCode(f.form, |payload|)) == second;
  }

  lemma HeaderSeen(bs: seq<byte>, f: Frame)
    requires |bs| >= 2 && |bs| >= HeaderEnd(bs)
    requires |f.payload| == LenOf(bs[1], bs[2..ExtEnd(bs)]) < LEN_LIMIT
    requires f.first == bs[0] && f.form == FormOf(bs[1]) && f.mask == MaskOf(bs)
    ensures ValidFrame(f) && WireHeader(f) == bs[..HeaderEnd(bs)]
  {
    HeaderRebuilt(bs[0], bs[1], bs[2..ExtEnd(bs)], f.mask, f.payload);
    assert bs[..ExtEnd(bs)] == [bs[0], bs[1]] + bs[2..ExtEnd(bs)];
  }

  /** Conversely, whatever is read was a frame: the consumed bytes are an encoding of it. */
  lemma ReadMeansFrame(bs: seq<byte>, room: Room)
    requires ReadFrame(bs, room).Got? || ReadFrame(bs, room).Closed?
    ensures var f, r := FrameSeen(bs, room), ReadFrame(bs, room);
            && ValidFrame(f) && |f.payload| < room && bs == Wire(f) + r.rest
            && (r.Closed? <==> Opcode(f.first) == CLOSE)
            && (r.Got? ==> r.payload == f.payload)
  {
    var f := FrameSeen(bs, room);
    HeaderSeen(bs, f);
    var at, n := HeaderEnd(bs), |f.payload|;
    UnmaskedTwice(bs[at..at + n], f.mask);
    ThreeParts(bs, at, at + n);
  }

  lemma ThreeParts(bs: seq<byte>, i: nat, j: nat)
    requires i <= j <= |bs|
    ensures bs == bs[..i] + bs[i..j] + bs[j..]
  {
  }

  // ---- lengths that do not fit ----

  lemma ShiftByOne(a: int, p: int, x: int, l: int)
    ensures (a * p + x) * 256 + l == a * (256 * p) + (x * 256 + l)
  {
  }

  lemma LastByteCounts(bs: seq<byte>)
    requires bs != []
    ensures var n := |bs| - 1; FromBigEndian(bs) == FromBigEndian(bs[..n]) * 256 + Val(bs[n])
  {
  }

  /** The first byte counts for as many times 256 as there are bytes behind it. */
  lemma {:induction false} FirstByteCounts(bs: seq<byte>, top: int, p: nat)
    requires bs != [] && top == Val(bs[0]) && p == Pow256(|bs| - 1)
    ensures FromBigEndian(bs) == top * p + FromBigEndian(bs[1..])
    decreases |bs|
  {
    var n := |bs| - 1;
    LastByteCounts(bs);
    if n > 0 {
      FirstByteCounts(bs[..n], top, Pow256(n - 1));
      LastByteCounts(bs[1..]);
      assert bs[..n][1..] == bs[1..][..n - 1];
      ShiftByOne(top, Pow256(n - 1), FromBigEndian(bs[..n][1..]), Val(bs[n]));
    } else {
      assert bs[..0] == [] && bs[1..] == [];
      assert FromBigEndian([]) == 0 && Pow256(0) == 1;
    }
  }

  lemma HalfOfTop(top: int, p: int, r: int)
    requires 0 <= r < p
    ensures top * p + r >= 128 * p <==> top >= 128
  {
    if top >= 128 {
      assert (top - 128) * p >= 0;
    } else {
      assert (127 - top) * p >= 0;
    }
  }

  lemma TopBitMeansTooLong(ext: seq<byte>, top: int)
    requires |ext| == 8 && top == Val(ext[0])
    ensures FromBigEndian(ext) >= LEN_LIMIT <==> top >= 128
  {
    FirstByteCounts(ext, top, Pow256(7));
    FromBigEndianRoundTrip(ext[1..]);
    Pow256Of8();
    assert Pow256(8) == 256 * Pow256(7);
    HalfOfTop(top, Pow256(7), FromBigEndian(ext[1..]));
  }

  lemma ShortLengthFits(second: byte, ext: seq<byte>)
    requires |ext| == ExtBytes(FormOf(second)) && !FormOf(second).Len64?
    ensures LenOf(second, ext) < LEN_LIMIT
  {
    LengthSeen(second, ext);
  }

  /** The header is complete: two bytes, the extended length and the mask. */
  predicate HeaderComplete(bs: seq<byte>) { |bs| >= 2 && |bs| >= HeaderEnd(bs) }

  /** It has a 64-bit length, and the top bit of that is set. */
  predicate TopBitSet(bs: seq<byte>)
    requires HeaderComplete(bs)
  {
    Low7(bs[1]) == 127 && Val(bs[2]) >= 128
  }

  lemma TopBitExactly(bs: seq<byte>)
    requires HeaderComplete(bs)
    ensures LenOf(bs[1], bs[2..ExtEnd(bs)]) >= LEN_LIMIT <==> TopBitSet(bs)
  {
    var ext := bs[2..ExtEnd(bs)];
    if FormOf(bs[1]).Len64? {
      assert ext[0] == bs[2];
      TopBitMeansTooLong(ext, Val(bs[2]));
    } else {
      ShortLengthFits(bs[1], ext);
    }
  }

  // ---- the layout, in numbers ----

  /** The number of bytes between the first two and the mask, and the length that the header announces. */
  function ExtOf(second: nat): nat {
    if second % 128 == 126 then 2 else if second % 128 == 127 then 8 else 0
  }

  function Announced(bs: seq<byte>): nat
    requires |bs| >= 2 + ExtOf(if |bs| < 2 then 0 else Val(bs[1]))
  {
    var code := Val(bs[1]) % 128;
    if code == 126 then Val(bs[2]) * 256 + Val(bs[3])
    else if code == 127 then
      ((((((Val(bs[2]) * 256 + Val(bs[3])) * 256 + Val(bs[4])) * 256 + Val(bs[5])) * 256 + Val(bs[6])) * 256
        + Val(bs[7])) * 256 + Val(bs[8])) * 256 + Val(bs[9])
    else code
  }

  lemma TwoByteNumber(a: byte, b: byte)
    ensures FromBigEndian([a, b]) == Val(a) * 256 + Val(b)
  {
    ValueSnoc([], a);
    assert [] + [a] == [a];
    ValueSnoc([a], b);
    assert [a] + [b] == [a, b];
  }

  lemma FourByteNumber(a: byte, b: byte, c: byte, d: byte)
    ensures FromBigEndian([a, b, c, d]) == ((Val(a) * 256 + Val(b)) * 256 + Val(c)) * 256 + Val(d)
  {
    TwoByteNumber(a, b);
    ValueSnoc([a, b], c);
    assert [a, b] + [c] == [a, b, c];
    ValueSnoc([a, b, c], d);
    assert [a, b, c] + [d] == [a, b, c, d];
  }

  lemma MoreNumber(front: seq<byte>, a: byte, b: byte)
    ensures FromBigEndian(front + [a, b]) == (FromBigEndian(front) * 256 + Val(a)) * 256 + Val(b)
  {
    ValueSnoc(front, a);
    ValueSnoc(front + [a], b);
    assert front + [a] + [b] == front + [a, b];
  }

  lemma EightByteNumber(n: seq<byte>)
    requires |n| == 8
    ensures FromBigEndian(n) ==
            ((((((Val(n[0]) * 256 + Val(n[1])) * 256 + Val(n[2])) * 256 + Val(n[3])) * 256 + Val(n[4])) * 256
              + Val(n[5])) * 256 + Val(n[6])) * 256 + Val(n[7])
  {
    FourByteNumber(n[0], n[1], n[2], n[3]);
    MoreNumber([n[0], n[1], n[2], n[3]], n[4], n[5]);
    MoreNumber([n[0], n[1], n[2], n[3]] + [n[4], n[5]], n[6], n[7]);
    assert n == [n[0], n[1], n[2], n[3]] + [n[4], n[5]] + [n[6], n[7]];
  }

  lemma AnnouncedIsLength(bs: seq<byte>)
    requires |bs| >= 2 && |bs| >= ExtEnd(bs)
    ensures ExtEnd(bs) == 2 + ExtOf(Val(bs[1])) && LenOf(bs[1], bs[2..ExtEnd(bs)]) == Announced(bs)
  {
    var ext := bs[2..ExtEnd(bs)];
    if Val(bs[1]) % 128 == 126 {
      TwoByteNumber(bs[2], bs[3]);
      assert ext == [bs[2], bs[3]];
    } else if Val(bs[1]) % 128 == 127 {
      EightByteNumber(ext);
    }
  }

  function Behind(masked: bool, key: nat): nat { key + if masked then 4 else 0 }

  /** Bit k of byte i of the payload is the one behind the key, unless there is a mask and its bit is set. */
  predicate BitFlips(payload: seq<byte>, bs: seq<byte>, masked: bool, key: nat, i: nat, k: nat)
    requires Behind(masked, key) + |payload| <= |bs| && i < |payload| && k < 8
  {
    Bit(payload[i], k) <==> Bit(bs[Behind(masked, key) + i], k) != (masked && Bit(bs[key + i % 4], k))
  }

  ghost predicate Flipped(payload: seq<byte>, bs: seq<byte>, masked: bool, key: nat) {
    && Behind(masked, key) + |payload| <= |bs|
    && forall i, k :: 0 <= i < |payload| && 0 <= k < 8 ==> BitFlips(payload, bs, masked, key, i, k)
  }

  /** What a successful read returns, told by the bytes alone: where the payload starts, how long it is, and
      each of its bits, flipped exactly where the mask is there and its bit is set. */
  lemma ReadByBits(bs: seq<byte>, room: Room)
    requires ReadFrame(bs, room).Got?
    ensures |bs| >= 2 && |bs| >= 2 + ExtOf(Val(bs[1]))
    ensures var masked, r := Val(bs[1]) >= 128, ReadFrame(bs, room);
            var key, n := 2 + ExtOf(Val(bs[1])), Announced(bs);
            var at := key + if masked then 4 else 0;
            && at + n <= |bs| && r.rest == bs[at + n..] && |r.payload| == n && Val(bs[0]) % 16 != 8
            && Flipped(r.payload, bs, masked, key)
  {
    ReadParts(bs, room);
    PayloadBits(ReadFrame(bs, room).payload, bs, Val(bs[1]) >= 128, 2 + ExtOf(Val(bs[1])));
  }

  /** The payload as it stands behind the key. */
  ghost predicate Stands(payload: seq<byte>, bs: seq<byte>, masked: bool, key: nat) {
    var at := key + if masked then 4 else 0;
    && at + |payload| <= |bs|
    && payload == if masked then Masked(bs[at..at + |payload|], bs[key..at]) else bs[at..at + |payload|]
  }

  lemma PayloadBit(payload: seq<byte>, bs: seq<byte>, masked: bool, key: nat, i: nat, k: nat)
    requires Stands(payload, bs, masked, key) && i < |payload| && k < 8
    ensures BitFlips(payload, bs, masked, key, i, k)
  {
    if masked {
      var raw, mask := bs[key + 4..key + 4 + |payload|], bs[key..key + 4];
      MaskedBit(raw, mask, i, k);
      assert raw[i] == bs[key + 4 + i] && mask[i % 4] == bs[key + i % 4];
    }
  }

  lemma PayloadBits(payload: seq<byte>, bs: seq<byte>, masked: bool, key: nat)
    requires Stands(payload, bs, masked, key)
    ensures Flipped(payload, bs, masked, key)
  {
    forall i, k | 0 <= i < |payload| && 0 <= k < 8 ensures BitFlips(payload, bs, masked, key, i, k) {
      PayloadBit(payload, bs, masked, key, i, k);
    }
  }

  lemma MaskedBit(raw: seq<byte>, mask: seq<byte>, i: nat, k: nat)
    requires |mask| == 4 && i < |raw| && k < 8
    ensures Bit(Masked(raw, mask)[i], k) <==> Bit(raw[i], k) != Bit(mask[i % 4], k)
  {
    XorByBits(raw[i], mask[i % 4], k);
  }

  lemma ReadParts(bs: seq<byte>, room: Room)
    requires ReadFrame(bs, room).Got?
    ensures |bs| >= 2 && |bs| >= 2 + ExtOf(Val(bs[1]))
    ensures var masked, r := Val(bs[1]) >= 128, ReadFrame(bs, room);
            var key, n := 2 + ExtOf(Val(bs[1])), Announced(bs);
            var at := key + if masked then 4 else 0;
            && at + n <= |bs| && r.rest == bs[at + n..] && |r.payload| == n && Val(bs[0]) % 16 != 8
            && Stands(r.payload, bs, masked, key)
  {
    AnnouncedIsLength(bs);
  }

  /** A read ends the session exactly on a whole frame of opcode 8. */
  lemma ClosedByBits(bs: seq<byte>, room: Room)
    requires |bs| >= 2 && |bs| >= 2 + ExtOf(Val(bs[1])) && Announced(bs) < room
    ensures ReadFrame(bs, room).Closed? <==>
            && Val(bs[0]) % 16 == 8
            && |bs| >= 2 + ExtOf(Val(bs[1])) + (if Val(bs[1]) >= 128 then 4 else 0) + Announced(bs)
  {
    AnnouncedIsLength(bs);
  }

  const HELLO: seq<byte> := [0x48, 0x65, 0x6c, 0x6c, 0x6f]
  const HELLO_KEY: seq<byte> := [0x37, 0xfa, 0x21, 0x3d]

  lemma HelloXors()
    ensures Xor(0x48, 0x37) == 0x7f && Xor(0x65, 0xfa) == 0x9f && Xor(0x6c, 0x21) == 0x4d
    ensures Xor(0x6c, 0x3d) == 0x51 && Xor(0x6f, 0x37) == 0x58
  {
  }

  lemma FiveMasked(p: seq<byte>, m: seq<byte>)
    requires |p| == 5 && |m| == 4
    ensures Masked(p, m) == [Xor(p[0], m[0]), Xor(p[1], m[1]), Xor(p[2], m[2]), Xor(p[3], m[3]), Xor(p[4], m[0])]
  {
  }

  lemma MaskedHello()
    ensures Masked(HELLO, HELLO_KEY) == [0x7f, 0x9f, 0x4d, 0x51, 0x58]
  {
    HelloXors();
    FiveMasked(HELLO, HELLO_KEY);
  }

  lemma HelloHeader()
    ensures var f := Frame(0x81, Len7, Some(HELLO_KEY), HELLO);
            ValidFrame(f) && WireHeader(f) == [0x81, 0x85, 0x37, 0xfa, 0x21, 0x3d]
  {
    assert BigEndian(5, 0) == [];
  }

  /** The masked frame of section 5.7 of RFC 6455 is read as "Hello". */
  lemma HelloIsRead(rest: seq<byte>, room: Room)
    requires room > 5
    ensures ReadFrame([0x81, 0x85, 0x37, 0xfa, 0x21, 0x3d, 0x7f, 0x9f, 0x4d, 0x51, 0x58] + rest, room)
            == Got([0x48, 0x65, 0x6c, 0x6c, 0x6f], rest)
  {
    var f := Frame(0x81, Len7, Some(HELLO_KEY), HELLO);
    HelloHeader();
    MaskedHello();
    assert Wire(f) == [0x81, 0x85, 0x37, 0xfa, 0x21, 0x3d, 0x7f, 0x9f, 0x4d, 0x51, 0x58];
    ReadsBack(f, rest, room);
  }

  /** The reader panics exactly on a complete header whose length the runtime refuses.  It refuses every
      length with the top bit set, and a runtime that can allocate all others panics on nothing else. */
  lemma PanicsExactlyWhenRefused(bs: seq<byte>, room: Room)
    ensures ReadFrame(bs, room) == Panicked <==> HeaderComplete(bs) && LenOf(bs[1], bs[2..ExtEnd(bs)]) >= room
    ensures HeaderComplete(bs) && TopBitSet(bs) ==> ReadFrame(bs, room) == Panicked
    ensures room == LEN_LIMIT ==> (ReadFrame(bs, room) == Panicked <==> HeaderComplete(bs) && TopBitSet(bs))
  {
    if HeaderComplete(bs) {
      TopBitExactly(bs);
    }
  }

  /** Ten bytes that announce 2^63 bytes, and ten that announce 2^62. */
  lemma PanicExists(room: Room)
    ensures ReadFrame([0x82, 0x7f, 0x80, 0, 0, 0, 0, 0, 0, 0], room) == Panicked
    ensures room <= 0x4000_0000_0000_0000 ==> ReadFrame([0x82, 0x7f, 0x40, 0, 0, 0, 0, 0, 0, 0], room) == Panicked
  {
    LongHeader(0x80);
    PanicsExactlyWhenRefused([0x82, 0x7f, 0x80, 0, 0, 0, 0, 0, 0, 0], room);
    LongHeader(0x40);
    PanicsExactlyWhenRefused([0x82, 0x7f, 0x40, 0, 0, 0, 0, 0, 0, 0], room);
  }

  lemma LongHeader(top: byte)
    ensures var bs: seq<byte> := [0x82, 0x7f, top, 0, 0, 0, 0, 0, 0, 0];
            && HeaderComplete(bs) && Low7(bs[1]) == 127
            && LenOf(bs[1], bs[2..ExtEnd(bs)]) == Val(top) * 0x100_0000_0000_0000
  {
    var bs: seq<byte> := [0x82, 0x7f, top, 0, 0, 0, 0, 0, 0, 0];
    var ext: seq<byte> := [top, 0, 0, 0, 0, 0, 0, 0];
    assert bs[2..10] == ext;
    FirstByteCounts(ext, Val(top), Pow256(7));
    assert ext[1..] == seq(7, _ => 0 as byte);
    ZerosAreZero(7);
    Pow256Of7();
  }

  lemma {:induction false} ZerosAreZero(n: nat)
    ensures FromBigEndian(seq(n, _ => 0 as byte)) == 0
  {
    if n > 0 {
      ZerosAreZero(n - 1);
      assert seq(n, _ => 0 as byte) == seq(n - 1, _ => 0 as byte) + [0];
      ValueSnoc(seq(n - 1, _ => 0 as byte), 0);
    }
  }

  lemma Pow256Of7()
    ensures Pow256(7) == 0x100_0000_0000_0000
  {
    Pow256Of8();
    assert Pow256(8) == 256 * Pow256(7);
  }

  // ---- streams of frames ----

  ghost predicate ValidFrames(fs: seq<Frame>) {
    forall i :: 0 <= i < |fs| ==> ValidFrame(fs[i])
  }

  function Stream(fs: seq<Frame>): seq<byte>
    requires ValidFrames(fs)
  {
    if fs == [] then [] else Wire(fs[0]) + Stream(fs[1..])
  }

  /** What a loop of readWSFrame calls delivers until its first error. */
  datatype Session = Session(payloads: seq<seq<byte>>, end: ReadResult)

  function ReadAll(bs: seq<byte>, room: Room): Session
    decreases |bs|
  {
    match ReadFrame(bs, room)
    case Got(payload, rest) =>
      var s := ReadAll(rest, room);
      Session([payload] + s.payloads, s.end)
    case Closed(rest) => Session([], Closed(rest))
    case Cut => Session([], Cut)
    case Panicked => Session([], Panicked)
  }

  /** The payloads of the frames before the first close frame. */
  function UpToClose(fs: seq<Frame>): seq<seq<byte>> {
    if fs == [] || Opcode(fs[0].first) == CLOSE then [] else [fs[0].payload] + UpToClose(fs[1..])
  }

  predicate HasClose(fs: seq<Frame>) {
    exists i :: 0 <= i < |fs| && Opcode(fs[i].first) == CLOSE
  }

  lemma ReadAllStep(f: Frame, more: seq<byte>, room: Room)
    requires ValidFrame(f) && |f.payload| < room
    ensures ReadAll(Wire(f) + more, room) ==
            if Opcode(f.first) == CLOSE then Session([], Closed(more))
            else Session([f.payload] + ReadAll(more, room).payloads, ReadAll(more, room).end)
  {
    ReadsBack(f, more, room);
  }

  lemma FrontFrame(fs: seq<Frame>, tail: seq<byte>)
    requires ValidFrames(fs) && fs != []
    ensures Stream(fs) + tail == Wire(fs[0]) + (Stream(fs[1..]) + tail)
  {
  }

  lemma CloseAtFrontOrBehind(fs: seq<Frame>)
    requires fs != []
    ensures HasClose(fs) <==> Opcode(fs[0].first) == CLOSE || HasClose(fs[1..])
  {
    if HasClose(fs) && Opcode(fs[0].first) != CLOSE {
      var i :| 0 <= i < |fs| && Opcode(fs[i].first) == CLOSE;
      assert fs[1..][i - 1] == fs[i];
    }
  }

  /** Every payload can be allocated. */
  ghost predicate AllFit(fs: seq<Frame>, room: Room) {
    forall i :: 0 <= i < |fs| ==> |fs[i].payload| < room
  }

  /** Reading a stream of frames, followed by a cut frame or by nothing, gives exactly the payloads up
      to the first close frame, and ends in an error. */
  lemma {:induction false} StreamReadsBack(fs: seq<Frame>, last: Frame, k: nat, room: Room)
    requires ValidFrames(fs) && AllFit(fs, room)
    requires ValidFrame(last) && |last.payload| < room && k < |Wire(last)|
    ensures var s := ReadAll(Stream(fs) + Wire(last)[..k], room);
            && s.payloads == UpToClose(fs)
            && if HasClose(fs) then s.end.Closed? else s.end == Cut
  {
    var tail := Wire(last)[..k];
    if fs == [] {
      assert Stream(fs) + tail == tail;
      CutFrameFails(last, k, room);
    } else {
      var more := Stream(fs[1..]) + tail;
      FrontFrame(fs, tail);
      ReadAllStep(fs[0], more, room);
      StreamReadsBack(fs[1..], last, k, room);
      CloseAtFrontOrBehind(fs);
    }
  }

  lemma ValidSnoc(fs: seq<Frame>, f: Frame)
    requires ValidFrames(fs) && ValidFrame(f)
    ensures ValidFrames(fs + [f])
  {
  }

  lemma StreamCons(f: Frame, fs: seq<Frame>)
    requires ValidFrame(f) && ValidFrames(fs)
    ensures ValidFrames([f] + fs) && Stream([f] + fs) == Wire(f) + Stream(fs)
  {
    assert ([f] + fs)[1..] == fs;
  }

  lemma {:induction false} StreamSnoc(fs: seq<Frame>, f: Frame)
    requires ValidFrames(fs) && ValidFrame(f)
    ensures ValidFrames(fs + [f]) && Stream(fs + [f]) == Stream(fs) + Wire(f)
  {
    ValidSnoc(fs, f);
    if fs == [] {
      StreamCons(f, []);
      assert fs + [f] == [f] + [];
    } else {
      var more := fs[1..];
      StreamSnoc(more, f);
      StreamCons(fs[0], more + [f]);
      FrontSnoc(fs, f);
      RegroupBytes(Wire(fs[0]), Stream(more), Wire(f));
    }
  }

  lemma FrontSnoc(fs: seq<Frame>, f: Frame)
    requires fs != []
    ensures fs + [f] == [fs[0]] + (fs[1..] + [f])
  {
  }

  lemma RegroupBytes(a: seq<byte>, b: seq<byte>, c: seq<byte>)
    ensures a + b + c == a + (b + c)
  {
  }

  lemma {:induction false} UpToCloseSnoc(fs: seq<Frame>, f: Frame)
    requires !HasClose(fs) && Opcode(f.first) != CLOSE
    ensures !HasClose(fs + [f]) && UpToClose(fs + [f]) == UpToClose(fs) + [f.payload]
  {
    if fs == [] {
      assert fs + [f] == [f] && [f][1..] == [];
    } else {
      assert (fs + [f])[1..] == fs[1..] + [f];
      assert forall i :: 0 <= i < |fs[1..]| ==> fs[1..][i] == fs[i + 1];
      UpToCloseSnoc(fs[1..], f);
    }
  }

  // ---- writeWSFrame ----

  /** The header that writeWSFrame builds. */
  function Header(opcode: byte, n: nat): seq<byte> {
    if n < 126 then [WithTop(opcode), ToByte(n)]
    else if n < 65536 then [WithTop(opcode), 126, ToByte(n / 256), ToByte(n % 256)]
    else [WithTop(opcode), 127] + BigEndian(n, 8)
  }

  function ServerFrame(opcode: byte, payload: seq<byte>): seq<byte> {
    Header(opcode, |payload|) + payload
  }

  function ShortestForm(n: nat): LenForm {
    if n < 126 then Len7 else if n < 65536 then Len16 else Len64
  }

  /** The shortest length form, no mask. */
  function Plain(opcode: byte, payload: seq<byte>): Frame {
    Frame(WithTop(opcode), ShortestForm(|payload|), None, payload)
  }

  lemma HeaderBytes(opcode: byte, n: nat)
    ensures Header(opcode, n) ==
            [WithTop(opcode), ToByte(LenCode(ShortestForm(n), n))] + BigEndian(n, ExtBytes(ShortestForm(n)))
  {
    if n < 126 {
      assert BigEndian(n, 0) == [];
    } else if n < 65536 {
      TwoBytes(n);
    }
  }

  lemma UnmaskedHeader(f: Frame)
    requires ValidFrame(f) && f.mask.None?
    ensures WireHeader(f) == [f.first, ToByte(LenCode(f.form, |f.payload|))] + BigEndian(|f.payload|, ExtBytes(f.form))
  {
  }

  lemma PlainHeader(opcode: byte, payload: seq<byte>)
    requires |payload| < LEN_LIMIT
    ensures ValidFrame(Plain(opcode, payload)) && WireHeader(Plain(opcode, payload)) == Header(opcode, |payload|)
  {
    UnmaskedHeader(Plain(opcode, payload));
    HeaderBytes(opcode, |payload|);
  }

  /** What writeWSFrame writes is the wire form of an unmasked final frame. */
  lemma ServerFrameIsWire(opcode: byte, payload: seq<byte>)
    requires |payload| < LEN_LIMIT
    ensures ValidFrame(Plain(opcode, payload)) && ServerFrame(opcode, payload) == Wire(Plain(opcode, payload))
  {
    PlainHeader(opcode, payload);
  }

  lemma TwoBytes(n: nat)
    requires n < 65536
    ensures BigEndian(n, 2) == [ToByte(n / 256), ToByte(n % 256)]
  {
    assert BigEndian(n / 256, 1) == BigEndian(n / 256 / 256, 0) + [ToByte(n / 256 % 256)];
  }

  /** Text frames of the server are read back by any reader of this codec. */
  lemma ServerFrameReadsBack(payload: seq<byte>, rest: seq<byte>, room: Room)
    requires |payload| < room
    ensures ReadFrame(ServerFrame(1, payload) + rest, room) == Got(payload, rest)
  {
    ServerFrameIsWire(1, payload);
    ReadsBack(Plain(1, payload), rest, room);
    assert Opcode(WithTop(1)) == 1;
  }
}
