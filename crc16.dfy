/** CRC-16/MODBUS (reflected polynomial 0xA001, initial value 0xFFFF, no
    final xor), as defined in section 6.2.2 of "Modbus over Serial Line
    V1.02" and as produced by crcmod's predefined "modbus" function. */
module Crc16 {

  type Byte = bv8

  /** One bit of the shift register. */
  function ShiftBit(c: bv16): bv16 {
    if c & 1 == 1 then (c >> 1) ^ 0xA001 else c >> 1
  }

  function ShiftBits(c: bv16, k: nat): bv16
    decreases k
  {
    if k == 0 then c else ShiftBits(ShiftBit(c), k - 1)
  }

  /** Feeds one byte into the register. */
  function Feed(c: bv16, b: Byte): bv16 {
    ShiftBits(c ^ (b as bv16), 8)
  }

  function FeedAll(c: bv16, s: seq<Byte>): bv16
    decreases |s|
  {
    if s == [] then c else FeedAll(Feed(c, s[0]), s[1..])
  }

  /** The CRC of a message. */
  function Crc(s: seq<Byte>): bv16 {
    FeedAll(0xFFFF, s)
  }

  function LowByte(c: bv16): Byte { (c & 0xFF) as bv8 }

  function HighByte(c: bv16): Byte { (c >> 8) as bv8 }

  /** The CRC field as the serial line carries it: low-order byte first. */
  function CrcField(s: seq<Byte>): (field: seq<Byte>)
    ensures |field| == 2
  {
    [LowByte(Crc(s)), HighByte(Crc(s))]
  }

  /** A receiver's check of a message whose last two bytes are the CRC field. */
  predicate CrcChecks(frame: seq<Byte>) {
    |frame| >= 2 && frame[|frame| - 2..] == CrcField(frame[..|frame| - 2])
  }

  // ---------------------------------------------------------------- lemmas

  /** The byte of a value below 256 converts back to that value. */
  lemma ByteRoundTrip(n: nat)
    requires n < 256
    ensures (n as bv8) as int == n
  {
    assert n % 256 == n;
  }

  /** With the low bit clear, a shift never xors the polynomial in. */
  lemma EvenShift(y: bv16)
    requires y & 1 == 0
    ensures ShiftBit(y) == y >> 1
  {
  }

  /** With the low byte clear, eight shifts never xor the polynomial in. */
  lemma LowByteClearShifts(x: bv16)
    requires x & 0xFF == 0
    ensures ShiftBits(x, 8) == x >> 8
  {
    EvenShift(x);
    EvenShift(x >> 1);
    EvenShift(x >> 2);
    EvenShift(x >> 3);
    EvenShift(x >> 4);
    EvenShift(x >> 5);
    EvenShift(x >> 6);
    EvenShift(x >> 7);
    assert ShiftBits(x, 8) == ShiftBits(x >> 1, 7) == ShiftBits(x >> 2, 6) == ShiftBits(x >> 3, 5);
    assert ShiftBits(x >> 3, 5) == ShiftBits(x >> 4, 4) == ShiftBits(x >> 5, 3) == ShiftBits(x >> 6, 2);
    assert ShiftBits(x >> 6, 2) == ShiftBits(x >> 7, 1) == ShiftBits(x >> 8, 0);
  }

  lemma {:induction false} FeedAllAppend(c: bv16, s: seq<Byte>, t: seq<Byte>)
    ensures FeedAll(c, s + t) == FeedAll(FeedAll(c, s), t)
    decreases |s|
  {
    if s != [] {
      assert (s + t)[1..] == s[1..] + t;
      FeedAllAppend(Feed(c, s[0]), s[1..], t);
    } else {
      assert s + t == t;
    }
  }

  lemma FeedLowByte(c: bv16)
    ensures Feed(c, LowByte(c)) == c >> 8
  {
    assert (LowByte(c) as bv16) == c & 0xFF;
    LowByteClearShifts(c ^ (c & 0xFF));
  }

  lemma FeedHighByte(c: bv16)
    ensures Feed(c >> 8, HighByte(c)) == 0
  {
    assert (HighByte(c) as bv16) == c >> 8;
    LowByteClearShifts(0);
  }

  /** Feeding a register its own value, low byte first, leaves zero. */
  lemma FeedOwnValue(c: bv16)
    ensures FeedAll(c, [LowByte(c), HighByte(c)]) == 0
  {
    var lo, hi := LowByte(c), HighByte(c);
    FeedLowByte(c);
    FeedHighByte(c);
    var msg: seq<Byte> := [lo, hi];
    assert msg[1..] == [hi] && [hi][1..] == [];
    assert FeedAll(c, msg) == FeedAll(Feed(c, lo), [hi]);
    assert FeedAll(c >> 8, [hi]) == FeedAll(Feed(c >> 8, hi), []);
  }

  /** The residue property of section 6.2.2: a message followed by its CRC
      field (low byte first) has CRC zero. */
  lemma ResidueIsZero(s: seq<Byte>)
    ensures Crc(s + CrcField(s)) == 0
  {
    var c := FeedAll(0xFFFF, s);
    FeedAllAppend(0xFFFF, s, CrcField(s));
    FeedOwnValue(c);
  }

  lemma CrcFieldChecks(s: seq<Byte>)
    ensures CrcChecks(s + CrcField(s))
  {
    var f := s + CrcField(s);
    assert f[..|f| - 2] == s;
    assert f[|f| - 2..] == CrcField(s);
  }
}
