/** What the binary readers read: numbers written low byte first come back, through either Venus
    parser, at every declared field. */
module VenusReadings {
  import opened Wrappers
  import opened Bytes
  import opened Frames
  import opened Schema
  import opened VenusModel

  // ----- writing numbers -----

  /** The lowest `size` bytes of n, the lowest first. */
  function LittleEndian(n: nat, size: nat): (b: seq<byte>)
    ensures |b| == size
  {
    if size == 0 then [] else [n % 0x100] + LittleEndian(n / 0x100, size - 1)
  }

  /** The numbers that a scalar format can hold. */
  predicate Fits(f: Format, n: int) {
    match f
    case U8 => 0 <= n <= 0xFF
    case S8 => -0x80 <= n <= 0x7F
    case U16 => 0 <= n <= 0xFFFF
    case S16 => -0x8000 <= n <= 0x7FFF
    case U32 => 0 <= n <= 0xFFFF_FFFF
    case U16x16 => false
  }

  /** `struct.pack(f, n)`; a negative number is written as its two's complement. */
  function Packed(f: Format, n: int): (b: seq<byte>)
    requires Fits(f, n)
    ensures |b| == Size(f)
  {
    if 0 <= n then LittleEndian(n, Size(f))
    else if f == S8 then LittleEndian(n + 0x100, 1)
    else LittleEndian(n + 0x1_0000, 2)
  }

  lemma OneByte(n: nat)
    requires n < 0x100
    ensures LittleEndian(n, 1) == [n]
  {
    assert LittleEndian(n / 0x100, 0) == [];
  }

  lemma TwoBytes(n: nat)
    requires n < 0x1_0000
    ensures LittleEndian(n, 2) == [n % 0x100, n / 0x100]
  {
    OneByte(n / 0x100);
  }

  lemma FourBytes(n: nat)
    requires n < 0x1_0000_0000
    ensures LittleEndian(n, 4) == [n % 0x100, n / 0x100 % 0x100, n / 0x1_0000 % 0x100, n / 0x100_0000]
  {
    var m := n / 0x100;
    assert LittleEndian(m, 3) == [m % 0x100] + LittleEndian(m / 0x100, 2);
    TwoBytes(m / 0x100);
    assert m / 0x100 == n / 0x1_0000 && m / 0x100 / 0x100 == n / 0x100_0000;
  }

  // ----- reading them back -----

  predicate Holds(payload: seq<byte>, offset: nat, f: Format, n: int) {
    Fits(f, n) && offset + Size(f) <= |payload| && payload[offset..offset + Size(f)] == Packed(f, n)
  }

  lemma U16ReadsBack(payload: seq<byte>, offset: nat, n: nat)
    requires n < 0x1_0000 && offset + 2 <= |payload| && payload[offset..offset + 2] == LittleEndian(n, 2)
    ensures U16At(payload, offset) == n
  {
    TwoBytes(n);
    var b := payload[offset..offset + 2];
    assert payload[offset] == b[0] && payload[offset + 1] == b[1];
  }

  lemma U32ReadsBack(payload: seq<byte>, offset: nat, n: nat)
    requires n < 0x1_0000_0000 && offset + 4 <= |payload| && payload[offset..offset + 4] == LittleEndian(n, 4)
    ensures U32At(payload, offset) == n
  {
    FourBytes(n);
    var b := payload[offset..offset + 4];
    assert payload[offset] == b[0] && payload[offset + 1] == b[1];
    assert payload[offset + 2] == b[2] && payload[offset + 3] == b[3];
  }

  /** A number written in a format is read back, down to the most negative one. */
  lemma ReadsBack(payload: seq<byte>, offset: nat, f: Format, n: int)
    requires Holds(payload, offset, f, n)
    ensures RawAt(payload, offset, f) == n
  {
    hide LittleEndian, U16At, U32At;
    var b := payload[offset..offset + Size(f)];
    match f
    case U8 => OneByte(n); assert b[0] == payload[offset];
    case S8 => OneByte(if n < 0 then n + 0x100 else n); assert b[0] == payload[offset];
    case U16 => U16ReadsBack(payload, offset, n);
    case S16 => U16ReadsBack(payload, offset, if n < 0 then n + 0x1_0000 else n);
    case U32 => U32ReadsBack(payload, offset, n);
  }

  // ----- converted values -----

  /** The quotient times the divisor is the number. */
  lemma QuotientUndone(x: int, divisor: nat)
    requires 0 < divisor
    ensures Quotient(x, divisor).Real? && Quotient(x, divisor).r * divisor as real == x as real
  {
  }

  /** What a number becomes. */
  ghost predicate Becomes(c: Converter, n: int, v: Val) {
    match c
    case Identity => v == Int(n)
    case Float => v == Real(n as real)
    case DivideBy(k) => 0 < k ==> v.Real? && v.r * k as real == n as real
    case DivideEachBy(_) => true
    case Bit(k) => v.Bool? && forall bits | k < |bits| && FromBits(bits) == n :: v.b == bits[k]
    case Nonzero => v == Bool(n != 0)
  }

  lemma ConvertBecomes(c: Converter, n: int)
    ensures Becomes(c, n, ConvertRaw(c, n))
  {
    hide Quotient, HasBit;
    match c
    case DivideBy(k) =>
      if 0 < k {
        QuotientUndone(n, k);
      }
    case Bit(k) =>
      forall bits | k < |bits| && FromBits(bits) == n ensures HasBit(n, k) == bits[k] {
        BitsReadBack(bits, k);
      }
    case _ =>
  }

  // ----- declared fields -----

  predicate IsText(p: Packet) {
    p == DEVICE || p == WIFI || p == METER || p == NETWORK || p == LOCAL_API
  }

  /** A declared field that a message of this command carries. */
  predicate Carried(d: Declared, payload: seq<byte>) {
    && FitsPacket(d.packet, |payload|) && PacketFor(d.packet.command) == Some(d.packet) && !IsText(d.packet)
    && (d.minLength.Some? ==> d.minLength.value <= |payload|)
  }

  /** A number written at a declared field is what the message supplies there, converted. */
  lemma MessageReads(a: Attribute, d: Declared, payload: seq<byte>, n: int)
    requires SourceOf(a) == Some(d) && Carried(d, payload) && Holds(payload, d.offset, d.format, n)
    ensures var update := Decoded(Message(d.packet.command, payload));
      update.Some? && a in update.value && Becomes(d.converter, n, update.value[a])
  {
    hide SourceOf, RawAt, Becomes, Binary, Packed, PacketFor;
    ReadsBack(payload, d.offset, d.format, n);
    ConvertBecomes(d.converter, n);
    BinaryReads(d.packet, payload, a);
  }

  /** So are sixteen numbers written one after another, each divided. */
  lemma CellsRead(payload: seq<byte>, ns: seq<int>, i: nat)
    requires FitsPacket(BMS, |payload|) && |ns| == 16 && i < 16
    requires forall k | 0 <= k < 16 :: Holds(payload, 48 + 2 * k, U16, ns[k])
    ensures var update := Decoded(Message(0x14, payload));
      && update.Some? && Battery(CellVoltages) in update.value
      && var v := update.value[Battery(CellVoltages)];
         && v.Cells? && |v.cells| == 16 && v.cells[i].Some? && v.cells[i].value * 1000.0 == ns[i] as real
  {
    hide U16At, Binary, Quotient, Packed;
    ReadsBack(payload, 48 + 2 * i, U16, ns[i]);
    QuotientUndone(ns[i], 1000);
    BinaryReads(BMS, payload, Battery(CellVoltages));
    assert BatterySource(CellVoltages) == Declared(BMS, 0x30, U16x16, DivideEachBy(1000), None);
    assert CellsAt(payload, 48, 1000).cells[i] == CellAt(payload, 48, i, 1000);
  }

  /** A built frame supplies what its message does. */
  lemma BuiltFrameSupplies(command: byte, payload: seq<byte>)
    requires |payload| <= MAX_PAYLOAD
    ensures FrameUpdate(Build(command, payload)) == Decoded(Message(command, payload))
  {
    hide Decoded, IsFrame, Build;
    BuildDecodes(command, payload);
  }

  // ----- two readings -----

  /** A 0x14 frame whose bytes 8 and 9 are 85 and 0 reads a charge of 85. */
  lemma ChargeOf85(payload: seq<byte>)
    requires 80 <= |payload| <= MAX_PAYLOAD && payload[8] == 85 && payload[9] == 0
    ensures var update := FrameUpdate(Build(0x14, payload));
      update.Some? && Battery(BatterySoc) in update.value && update.value[Battery(BatterySoc)] == Real(85.0)
  {
    hide Build, IsFrame, Decoded, FrameUpdate;
    BuiltFrameSupplies(0x14, payload);
    TwoBytes(85);
    assert payload[8..10] == [85, 0];
    MessageReads(Battery(BatterySoc), Declared(BMS, 8, U16, Float, None), payload, 85);
  }

  /** A long 0x03 frame that begins with 0x9C, 0xFF reads a grid power of -100. */
  lemma GridPowerOfMinus100(payload: seq<byte>)
    requires 100 <= |payload| <= MAX_PAYLOAD && payload[0] == 0x9C && payload[1] == 0xFF
    ensures var update := FrameUpdate(Build(0x03, payload));
      update.Some? && Runtime(GridPower) in update.value && update.value[Runtime(GridPower)] == Real(-100.0)
  {
    hide Build, IsFrame, Decoded, FrameUpdate;
    BuiltFrameSupplies(0x03, payload);
    TwoBytes(0xFF9C);
    assert payload[0..2] == [0x9C, 0xFF];
    MessageReads(Runtime(GridPower), Declared(RUNTIME, 0, S16, Float, Some(100)), payload, -100);
  }
}
