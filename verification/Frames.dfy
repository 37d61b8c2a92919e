/** Bytes as small integers, with exclusive or defined bit by bit. */
module Bytes {
  type byte = x: int | 0 <= x < 0x100

  function Pow2(n: nat): (p: nat)
    ensures 1 <= p
  {
    if n == 0 then 1 else 2 * Pow2(n - 1)
  }

  /** Exclusive or of two n-bit numbers. */
  function XorBits(n: nat, a: nat, b: nat): (c: nat)
    requires a < Pow2(n) && b < Pow2(n)
    ensures c < Pow2(n)
  {
    if n == 0 then 0 else 2 * XorBits(n - 1, a / 2, b / 2) + (if a % 2 == b % 2 then 0 else 1)
  }

  lemma {:induction false} XorBitsHalves(n: nat, a: nat, b: nat)
    requires 0 < n && a < Pow2(n) && b < Pow2(n)
    ensures XorBits(n, a, b) / 2 == XorBits(n - 1, a / 2, b / 2)
    ensures XorBits(n, a, b) % 2 == (if a % 2 == b % 2 then 0 else 1)
  {
  }

  lemma {:induction false} XorBitsCommutes(n: nat, a: nat, b: nat)
    requires a < Pow2(n) && b < Pow2(n)
    ensures XorBits(n, a, b) == XorBits(n, b, a)
    ensures XorBits(n, a, b) == 0 <==> a == b
    ensures XorBits(n, a, 0) == a
  {
    if n == 0 {
    } else {
      XorBitsCommutes(n - 1, a / 2, b / 2);
    }
  }

  lemma {:induction false} XorBitsAssociates(n: nat, a: nat, b: nat, c: nat)
    requires a < Pow2(n) && b < Pow2(n) && c < Pow2(n)
    ensures XorBits(n, XorBits(n, a, b), c) == XorBits(n, a, XorBits(n, b, c))
  {
    if n == 0 {
    } else {
      XorBitsAssociates(n - 1, a / 2, b / 2, c / 2);
      var ab, bc := XorBits(n, a, b), XorBits(n, b, c);
      XorBitsHalves(n, a, b);
      XorBitsHalves(n, b, c);
      XorBitsHalves(n, ab, c);
      XorBitsHalves(n, a, bc);
      assert XorBits(n, ab, c) % 2 == XorBits(n, a, bc) % 2;
    }
  }

  function XorByte(a: byte, b: byte): byte {
    assert Pow2(8) == 0x100;
    XorBits(8, a, b)
  }

  lemma XorByteLaws(a: byte, b: byte, c: byte)
    ensures XorByte(a, b) == XorByte(b, a)
    ensures XorByte(XorByte(a, b), c) == XorByte(a, XorByte(b, c))
    ensures XorByte(a, 0) == a
    ensures XorByte(a, b) == 0 <==> a == b
  {
    assert Pow2(8) == 0x100;
    XorBitsCommutes(8, a, b);
    XorBitsAssociates(8, a, b, c);
  }

  // ----- single bits -----

  /** The truth of `x & (1 << k)`. */
  predicate HasBit(x: int, k: nat)
    decreases k
  {
    if k == 0 then x % 2 == 1 else HasBit(x / 2, k - 1)
  }

  /** The number with the given bits, the lowest first. */
  function FromBits(bits: seq<bool>): nat {
    if bits == [] then 0 else (if bits[0] then 1 else 0) + 2 * FromBits(bits[1..])
  }

  lemma {:induction false} FromBitsFits(bits: seq<bool>)
    ensures FromBits(bits) < Pow2(|bits|)
  {
    if bits == [] {
    } else {
      FromBitsFits(bits[1..]);
    }
  }

  /** Each bit that was put into a number is read back. */
  lemma {:induction false} BitsReadBack(bits: seq<bool>, k: nat)
    requires k < |bits|
    ensures HasBit(FromBits(bits), k) == bits[k]
  {
    if k == 0 {
    } else {
      BitsReadBack(bits[1..], k - 1);
    }
  }

  /** A bit of an exclusive or is set iff exactly one of the two bits is. */
  lemma {:induction false} XorBitsBit(n: nat, a: nat, b: nat, k: nat)
    requires a < Pow2(n) && b < Pow2(n) && k < n
    ensures HasBit(XorBits(n, a, b), k) == (HasBit(a, k) != HasBit(b, k))
  {
    XorBitsHalves(n, a, b);
    if k == 0 {
    } else {
      XorBitsBit(n - 1, a / 2, b / 2, k - 1);
    }
  }

  lemma XorByteBit(a: byte, b: byte, k: nat)
    requires k < 8
    ensures HasBit(XorByte(a, b), k) == (HasBit(a, k) != HasBit(b, k))
  {
    assert Pow2(8) == 0x100;
    XorBitsBit(8, a, b, k);
  }

  lemma {:induction false} ZeroHasNoBit(k: nat)
    ensures !HasBit(0, k)
  {
    if k == 0 {
    } else {
      ZeroHasNoBit(k - 1);
    }
  }

  lemma HigherBit(x: nat, k: nat)
    requires 0 < k
    ensures HasBit(x, k) == HasBit(x / 2, k - 1)
  {
  }

  lemma LowestBit(x: nat, k: nat)
    requires k == 0
    ensures HasBit(x, k) == (x % 2 == 1)
  {
  }

  /** A number below 2^n is 0 iff none of its n bits is set. */
  lemma {:induction false} ZeroIffNoBit(n: nat, x: nat)
    requires x < Pow2(n)
    ensures x == 0 <==> forall k | 0 <= k < n :: !HasBit(x, k)
  {
    if x == 0 {
      forall k | 0 <= k < n ensures !HasBit(x, k) {
        ZeroHasNoBit(k);
      }
    } else if x % 2 == 1 {
      assert n != 0;
      LowestBit(x, 0);
    } else {
      ZeroIffNoBit(n - 1, x / 2);
      var k :| 0 <= k < n - 1 && HasBit(x / 2, k);
      HigherBit(x, k + 1);
    }
  }
}

/** The Marstek wire format: [0x73][length][0x23][command][payload...][xor].

    `IsFrame` and `Build` are the reference definitions. The three builders and the three
    whole-frame checks of the repository are methods proved against them. */
module Frames {
  import opened Wrappers
  import opened Bytes

  const START: byte := 0x73
  const IDENTIFIER: byte := 0x23
  const MAX_PAYLOAD: nat := 250

  /** Why a byte string was refused, in the order `parse_frame` looks. */
  datatype FrameError = TooShort | BadStart | BadLength | BadChecksum | BadIdentifier

  datatype BuildError = LengthByteOverflow

  datatype Message = Message(command: byte, payload: seq<byte>)

  function Xor(b: seq<byte>): byte {
    if b == [] then 0 else XorByte(Xor(b[..|b| - 1]), b[|b| - 1])
  }

  predicate IsFrame(f: seq<byte>) {
    && 5 <= |f|
    && f[0] == START
    && f[1] == |f|
    && f[2] == IDENTIFIER
    && f[|f| - 1] == Xor(f[..|f| - 1])
  }

  function MessageOf(f: seq<byte>): Message
    requires IsFrame(f)
  {
    Message(f[3], f[4..|f| - 1])
  }

  function Header(command: byte, payload: seq<byte>): seq<byte>
    requires |payload| <= MAX_PAYLOAD
  {
    [START, (|payload| + 5), IDENTIFIER, command] + payload
  }

  function Build(command: byte, payload: seq<byte>): seq<byte>
    requires |payload| <= MAX_PAYLOAD
  {
    Header(command, payload) + [Xor(Header(command, payload))]
  }

  // ----- laws of the checksum -----

  /** Replacing one byte moves the checksum by exactly the difference of the two bytes. */
  lemma {:induction false} XorUpdate(b: seq<byte>, i: nat, v: byte)
    requires i < |b|
    ensures Xor(b[i := v]) == XorByte(Xor(b), XorByte(b[i], v))
  {
    var last := |b| - 1;
    var before, x, d := Xor(b[..last]), b[last], XorByte(b[i], v);
    if i == last {
      assert b[i := v][..last] == b[..last];
      XorByteLaws(before, x, d);
      XorByteLaws(x, x, v);
      XorByteLaws(0, v, v);
      XorByteLaws(v, 0, v);
    } else {
      assert b[i := v][..last] == b[..last][i := v];
      XorUpdate(b[..last], i, v);
      XorByteLaws(before, d, x);
      XorByteLaws(before, x, d);
      XorByteLaws(d, x, x);
    }
  }

  /** A frame is exactly a byte string with a right header whose total checksum is zero. */
  lemma FrameXorsToZero(f: seq<byte>)
    requires 5 <= |f| && f[0] == START && f[1] == |f| && f[2] == IDENTIFIER
    ensures IsFrame(f) <==> Xor(f) == 0
  {
    XorByteLaws(Xor(f[..|f| - 1]), f[|f| - 1], 0);
  }

  // ----- the format as a codec -----

  /** `Build` and `MessageOf` are inverse: every message has a frame that decodes to it, and every
      frame is the one built from its message. */
  lemma BuildDecodes(command: byte, payload: seq<byte>)
    requires |payload| <= MAX_PAYLOAD
    ensures IsFrame(Build(command, payload))
    ensures MessageOf(Build(command, payload)) == Message(command, payload)
  {
    var h := Header(command, payload);
    var f := Build(command, payload);
    assert f[..|f| - 1] == h;
    assert f[4..|f| - 1] == payload;
  }

  lemma FrameIsBuilt(f: seq<byte>)
    requires IsFrame(f)
    ensures |MessageOf(f).payload| <= MAX_PAYLOAD
    ensures f == Build(MessageOf(f).command, MessageOf(f).payload)
  {
    var m := MessageOf(f);
    assert f[..|f| - 1] == Header(m.command, m.payload);
  }

  /** No substitution of a single byte of a frame, checksum included, gives a frame. */
  lemma SingleByteCorruptionIsRejected(f: seq<byte>, i: nat, v: byte)
    requires IsFrame(f) && i < |f| && v != f[i]
    ensures !IsFrame(f[i := v])
  {
    var g := f[i := v];
    var d := XorByte(f[i], v);
    XorUpdate(f, i, v);
    FrameXorsToZero(f);
    XorByteLaws(f[i], v, 0);
    XorByteLaws(0, d, d);
    XorByteLaws(d, 0, 0);
    if IsFrame(g) {
      FrameXorsToZero(g);
    }
  }

  // ----- what the checksum is -----

  /** How many of the bytes have bit k. */
  function BitCount(b: seq<byte>, k: nat): nat {
    if b == [] then 0 else (if HasBit(b[0], k) then 1 else 0) + BitCount(b[1..], k)
  }

  lemma {:induction false} BitCountAppend(b: seq<byte>, x: byte, k: nat)
    ensures BitCount(b + [x], k) == BitCount(b, k) + if HasBit(x, k) then 1 else 0
  {
    if b == [] {
      assert [] + [x] == [x] && [x][1..] == [];
    } else {
      assert (b + [x])[1..] == b[1..] + [x];
      BitCountAppend(b[1..], x, k);
    }
  }

  /** Bit k of the checksum is the parity of the number of bytes that have it. */
  lemma {:induction false} ChecksumIsParity(b: seq<byte>, k: nat)
    requires k < 8
    ensures HasBit(Xor(b), k) <==> BitCount(b, k) % 2 == 1
  {
    hide HasBit, XorByte;
    if b == [] {
      ZeroHasNoBit(k);
    } else {
      var init, last := b[..|b| - 1], b[|b| - 1];
      assert b == init + [last];
      ChecksumIsParity(init, k);
      BitCountAppend(init, last, k);
      XorByteBit(Xor(init), last, k);
    }
  }

  /** A byte string is a frame iff it has the two marker bytes, its own length, and, for each of the
      eight bits, an even number of bytes with it. */
  lemma FrameIffEvenParity(f: seq<byte>)
    ensures IsFrame(f) <==>
      && 5 <= |f| && f[0] == 0x73 && f[1] == |f| && f[2] == 0x23
      && forall k | 0 <= k < 8 :: BitCount(f, k) % 2 == 0
  {
    hide HasBit, BitCount;
    if f != [] {
      XorByteLaws(Xor(f[..|f| - 1]), f[|f| - 1], 0);
      assert Xor(f) == 0 <==> f[|f| - 1] == Xor(f[..|f| - 1]);
      EvenIffZero(f);
    }
  }

  lemma EvenIffZero(f: seq<byte>)
    ensures Xor(f) == 0 <==> forall k | 0 <= k < 8 :: BitCount(f, k) % 2 == 0
  {
    hide HasBit, BitCount, Xor;
    assert Pow2(8) == 0x100;
    ZeroIffNoBit(8, Xor(f));
    forall k | 0 <= k < 8 ensures BitCount(f, k) % 2 == 0 <==> !HasBit(Xor(f), k) {
      ChecksumIsParity(f, k);
    }
    if Xor(f) == 0 {
      forall k | 0 <= k < 8 ensures BitCount(f, k) % 2 == 0 {
        assert !HasBit(Xor(f), k);
      }
    } else {
      var k :| 0 <= k < 8 && HasBit(Xor(f), k);
      assert BitCount(f, k) % 2 != 0;
    }
  }

  // ----- the code -----

  method Checksum(b: seq<byte>) returns (c: byte)
    ensures c == Xor(b)
  {
    c := 0;
    for i := 0 to |b|
      invariant c == Xor(b[..i])
    {
      c := XorByte(c, b[i]);
      assert b[..i + 1][..i] == b[..i];
    }
    assert b[..|b|] == b;
  }

  /** `create_command_frame`: the length byte is known before the payload is appended. */
  method CreateCommandFrame(command: byte, payload: seq<byte>) returns (r: Result<seq<byte>, BuildError>)
    ensures r == if |payload| <= MAX_PAYLOAD then Success(Build(command, payload)) else Failure(LengthByteOverflow)
  {
    var totalLength := |payload| + 5;
    if totalLength > 0xFF {
      return Failure(LengthByteOverflow);
    }
    var frame := [START, totalLength, IDENTIFIER, command];
    frame := frame + payload;
    var checksum := Checksum(frame);
    r := Success(frame + [checksum]);
  }

  /** `MarstekProtocol.build_command`, and `ProductProtocol.build_command` word for word: the
      length byte is patched in after the payload was appended. */
  method BuildCommand(command: byte, payload: seq<byte>) returns (r: Result<seq<byte>, BuildError>)
    ensures r == if |payload| <= MAX_PAYLOAD then Success(Build(command, payload)) else Failure(LengthByteOverflow)
  {
    var frame: seq<byte> := [0x73, 0x00, 0x23, command];
    frame := frame + payload;
    if |frame| + 1 > 0xFF {
      return Failure(LengthByteOverflow);
    }
    frame := frame[1 := (|frame| + 1)];
    assert frame == Header(command, payload);
    var checksum := Checksum(frame);
    r := Success(frame + [checksum]);
  }

  /** `parse_frame` of the standalone tool. The error is that of the first check that fails. */
  method ParseFrame(frame: seq<byte>) returns (r: Result<Message, FrameError>)
    ensures r.Success? <==> IsFrame(frame)
    ensures r.Success? ==> r.value == MessageOf(frame) == Message(frame[3], frame[4..|frame| - 1])
    ensures r == Failure(TooShort) <==> |frame| < 5
    ensures r == Failure(BadStart) <==> 5 <= |frame| && frame[0] != 0x73
    ensures r == Failure(BadLength) <==> 5 <= |frame| && frame[0] == 0x73 && frame[1] != |frame|
    ensures r == Failure(BadChecksum) <==> 5 <= |frame| && frame[0] == 0x73 && frame[1] == |frame| && Xor(frame) != 0
    ensures r == Failure(BadIdentifier) <==>
      5 <= |frame| && frame[0] == 0x73 && frame[1] == |frame| && Xor(frame) == 0 && frame[2] != 0x23
  {
    if |frame| < 5 {
      return Failure(TooShort);
    }
    if frame[0] != START {
      return Failure(BadStart);
    }
    if frame[1] != |frame| {
      return Failure(BadLength);
    }
    var checksum := Checksum(frame[..|frame| - 1]);
    XorByteLaws(checksum, frame[|frame| - 1], 0);
    if checksum != frame[|frame| - 1] {
      return Failure(BadChecksum);
    }
    if frame[2] != IDENTIFIER {
      return Failure(BadIdentifier);
    }
    return Success(Message(frame[3], frame[4..|frame| - 1]));
  }

  /** The envelope check shared by `MarstekProtocol.parse_notification` and
      `ProductProtocol.parse_notification`: identifier before length, length before checksum. */
  method CheckEnvelope(data: seq<byte>) returns (r: Result<Message, FrameError>)
    ensures r.Success? <==> IsFrame(data)
    ensures r.Success? ==> r.value == MessageOf(data) == Message(data[3], data[4..|data| - 1])
    ensures r == Failure(TooShort) <==> |data| < 5
    ensures r == Failure(BadStart) <==> 5 <= |data| && (data[0] != 0x73 || data[2] != 0x23)
    ensures r == Failure(BadLength) <==> 5 <= |data| && data[0] == 0x73 && data[2] == 0x23 && data[1] != |data|
  {
    if |data| < 5 {
      return Failure(TooShort);
    }
    if data[0] != 0x73 || data[2] != 0x23 {
      return Failure(BadStart);
    }
    if data[1] != |data| {
      return Failure(BadLength);
    }
    var expected := Checksum(data[..|data| - 1]);
    if data[|data| - 1] != expected {
      return Failure(BadChecksum);
    }
    return Success(Message(data[3], data[4..|data| - 1]));
  }
}
