/** The Modbus protocol helper of the custom component: the TLD frame
    decoder ([start:2][count:2][count 16-bit words]), the function-06 write
    frame builder, and the read/write entry points. */
module TldCodec {
  import opened Wrappers
  import opened NumText
  import opened Crc16
  import opened Descriptor

  /** The parts of the protocol document this helper reads. */
  datatype Protocol = Protocol(
    endianness: Option<string>,
    writeCommand: Option<int>,
    registers: Table<string>)

  /** struct's "<" prefix is used only for exactly "LE"; a missing or
      unsupported endianness falls back to ">". */
  predicate LittleEndian(endianness: Option<string>) {
    endianness.GetOr("BE") == "LE"
  }

  /** An unsigned 16-bit value from its high and low byte. */
  function Word(hi: Byte, lo: Byte): (w: nat)
    ensures w < 0x1_0000
  {
    hi as int * 256 + lo as int
  }

  /** struct.unpack("H") of bytes [2i, 2i+2). */
  function WordAt(b: seq<Byte>, i: nat, little: bool): (w: nat)
    requires 2 * i + 2 <= |b|
    ensures w < 0x1_0000
  {
    if little then Word(b[2 * i + 1], b[2 * i]) else Word(b[2 * i], b[2 * i + 1])
  }

  /** The key parse_data gives word i of a frame starting at start. */
  function KeyAt(start: nat, i: nat): string {
    HexKey(start + i)
  }

  /** The first n words of a body, keyed "0x%02X" by address. */
  function Registers(start: nat, body: seq<Byte>, little: bool, n: nat): map<string, nat>
    requires 2 * n <= |body|
  {
    if n == 0 then map[]
    else Registers(start, body, little, n - 1)[KeyAt(start, n - 1) := WordAt(body, n - 1, little)]
  }

  /** What parse_data returns: the empty map for a short payload or a data
      part of the wrong size, else one entry per word. */
  function ParseTld(data: seq<Byte>, endianness: Option<string>): map<string, nat> {
    if |data| < 4 then map[]
    else
      var little := LittleEndian(endianness);
      var start, count := WordAt(data, 0, little), WordAt(data, 1, little);
      if |data| - 4 != 2 * count then map[]
      else Registers(start, data[4..], little, count)
  }

  /** The decoding loop of parse_data. */
  method ParseData(p: Protocol, data: seq<Byte>) returns (parsed: map<string, nat>)
    ensures parsed == ParseTld(data, p.endianness)
  {
    if |data| < 4 {
      return map[];
    }
    var little := LittleEndian(p.endianness);
    var start := WordAt(data, 0, little);
    var length := WordAt(data, 1, little);
    var body := data[4..];
    if |body| != 2 * length {
      return map[];
    }
    parsed := map[];
    var i := 0;
    while i < length
      invariant 0 <= i <= length
      invariant parsed == Registers(start, body, little, i)
    {
      parsed := parsed[KeyAt(start, i) := WordAt(body, i, little)];
      i := i + 1;
    }
  }

  /** The big- or little-endian bytes of a 16-bit value. */
  function Put16(w: nat, little: bool): (b: seq<Byte>)
    requires w < 0x1_0000
    ensures |b| == 2
  {
    var hi, lo := (w / 256) as bv8, (w % 256) as bv8;
    if little then [lo, hi] else [hi, lo]
  }

  /** A TLD frame carrying the given words from address start on. */
  function EncodeTld(start: nat, words: seq<nat>, little: bool): (b: seq<Byte>)
    requires start < 0x1_0000 && |words| < 0x1_0000
    requires forall i :: 0 <= i < |words| ==> words[i] < 0x1_0000
    ensures |b| == 4 + 2 * |words|
  {
    Put16(start, little) + Put16(|words|, little) + Body(words, little)
  }

  function Body(words: seq<nat>, little: bool): (b: seq<Byte>)
    requires forall i :: 0 <= i < |words| ==> words[i] < 0x1_0000
    ensures |b| == 2 * |words|
  {
    if words == [] then [] else Body(words[..|words| - 1], little) + Put16(words[|words| - 1], little)
  }

  /** struct.pack(">B", n) succeeds only for 0 <= n <= 255. */
  predicate FitsByte(n: int) { 0 <= n < 256 }

  /** struct.pack(">H", n) succeeds only for 0 <= n <= 65535. */
  predicate FitsWord(n: int) { 0 <= n < 0x1_0000 }

  /** The six bytes slave, function, address, value that precede the CRC. */
  function WriteBody(slave: nat, command: nat, address: nat, value: nat): (b: seq<Byte>)
    requires slave < 256 && command < 256 && address < 0x1_0000 && value < 0x1_0000
    ensures |b| == 6
  {
    [slave as bv8, command as bv8] + Put16(address, false) + Put16(value, false)
  }

  /** pack_data as written: the CRC is appended with struct.pack(">H"),
      high-order byte first. A missing write_command raises KeyError, an
      out-of-range field struct.error. */
  function PackDataAsWritten(p: Protocol, slave: int, address: int, value: int): Result<seq<Byte>> {
    if p.writeCommand.None? then Err(KeyError)
    else if !FitsByte(slave) || !FitsByte(p.writeCommand.value) || !FitsWord(address) || !FitsWord(value) then Err(StructError)
    else
      var body := WriteBody(slave, p.writeCommand.value, address, value);
      Ok(body + [HighByte(Crc(body)), LowByte(Crc(body))])
  }

  /** pack_data with the CRC field in serial-line order (low-order byte
      first), which is what a Modbus RTU receiver checks. */
  function PackData(p: Protocol, slave: int, address: int, value: int): Result<seq<Byte>> {
    if p.writeCommand.None? then Err(KeyError)
    else if !FitsByte(slave) || !FitsByte(p.writeCommand.value) || !FitsWord(address) || !FitsWord(value) then Err(StructError)
    else
      var body := WriteBody(slave, p.writeCommand.value, address, value);
      Ok(body + CrcField(body))
  }

  /** A receiver's view of an 8-byte write frame: the four fields, when the
      CRC checks. */
  function UnpackWrite(frame: seq<Byte>): Option<(nat, nat, nat, nat)> {
    if |frame| == 8 && CrcChecks(frame) then
      Some((frame[0] as int, frame[1] as int, Word(frame[2], frame[3]), Word(frame[4], frame[5])))
    else None
  }

  /** write_data: an unknown register, or one whose descriptor entry is
      empty, raises ValueError; otherwise the callback receives the register
      name and the value unchanged (the invocation is the result). */
  function WriteData(p: Protocol, register: string, value: CmdValue): (r: Result<(string, CmdValue)>)
    ensures r.Ok? <==> register in p.registers.entries && !IsEmptyEntry(p.registers.entries[register])
    ensures r.Ok? ==> r.value == (register, value)
    ensures r.Err? ==> r.error == ValueError
  {
    match p.registers.Get(register)
    case None => Err(ValueError)
    case Some(d) => if IsEmptyEntry(d) then Err(ValueError) else Ok((register, value))
  }

  /** read_data never produces a value in this helper. */
  function ReadData(p: Protocol, register: string): (r: Option<int>)
    ensures r == None
  {
    None
  }

  // ---------------------------------------------------------------- lemmas

  lemma Put16RoundTrip(w: nat, little: bool)
    requires w < 0x1_0000
    ensures var b := Put16(w, little); WordAt(b, 0, little) == w
  {
    ByteRoundTrip(w / 256);
    ByteRoundTrip(w % 256);
  }

  /** m holds exactly the first n words of body, word i under KeyAt(start, i). */
  ghost predicate HoldsWords(m: map<string, nat>, start: nat, body: seq<Byte>, little: bool, n: nat)
    requires 2 * n <= |body|
  {
    && |m| == n
    && (forall i :: 0 <= i < n ==> KeyAt(start, i) in m && m[KeyAt(start, i)] == WordAt(body, i, little))
    && (forall k :: k in m ==> exists i :: 0 <= i < n && k == KeyAt(start, i))
  }

  /** Distinct words get distinct keys. */
  lemma KeyAtInjective(start: nat, i: nat, j: nat)
    requires i != j
    ensures KeyAt(start, i) != KeyAt(start, j)
  {
    HexKeyInjective(start + i, start + j);
  }

  /** Word i of the first n sits under its own key. */
  lemma {:induction false} RegistersHas(start: nat, body: seq<Byte>, little: bool, n: nat, i: nat)
    requires 2 * n <= |body| && i < n
    ensures KeyAt(start, i) in Registers(start, body, little, n)
    ensures Registers(start, body, little, n)[KeyAt(start, i)] == WordAt(body, i, little)
  {
    if i < n - 1 {
      RegistersHas(start, body, little, n - 1, i);
      KeyAtInjective(start, i, n - 1);
    }
  }

  /** No key other than those of the first n words. */
  lemma {:induction false} RegistersOnly(start: nat, body: seq<Byte>, little: bool, n: nat, k: string)
    requires 2 * n <= |body| && k in Registers(start, body, little, n)
    ensures exists i :: 0 <= i < n && k == KeyAt(start, i)
  {
    if k != KeyAt(start, n - 1) {
      RegistersOnly(start, body, little, n - 1, k);
      var i :| 0 <= i < n - 1 && k == KeyAt(start, i);
    }
  }

  /** One entry per word. */
  lemma {:induction false} RegistersSize(start: nat, body: seq<Byte>, little: bool, n: nat)
    requires 2 * n <= |body|
    ensures |Registers(start, body, little, n)| == n
  {
    if n > 0 {
      RegistersSize(start, body, little, n - 1);
      if KeyAt(start, n - 1) in Registers(start, body, little, n - 1) {
        RegistersOnly(start, body, little, n - 1, KeyAt(start, n - 1));
        var i :| 0 <= i < n - 1 && KeyAt(start, n - 1) == KeyAt(start, i);
        KeyAtInjective(start, i, n - 1);
      }
    }
  }

  lemma RegistersSpec(start: nat, body: seq<Byte>, little: bool, n: nat)
    requires 2 * n <= |body|
    ensures HoldsWords(Registers(start, body, little, n), start, body, little, n)
  {
    RegistersSize(start, body, little, n);
    forall i | 0 <= i < n
      ensures KeyAt(start, i) in Registers(start, body, little, n)
      ensures Registers(start, body, little, n)[KeyAt(start, i)] == WordAt(body, i, little)
    {
      RegistersHas(start, body, little, n, i);
    }
    forall k | k in Registers(start, body, little, n) ensures exists i :: 0 <= i < n && k == KeyAt(start, i) {
      RegistersOnly(start, body, little, n, k);
    }
  }

  /** The start address and word count of a frame. */
  function StartOf(data: seq<Byte>, endianness: Option<string>): nat
    requires |data| >= 4
  {
    WordAt(data, 0, LittleEndian(endianness))
  }

  function CountOf(data: seq<Byte>, endianness: Option<string>): nat
    requires |data| >= 4
  {
    WordAt(data, 1, LittleEndian(endianness))
  }

  /** The all-or-nothing decode: a short payload or a mis-sized data part
      gives the empty map; otherwise word i of the data part sits under
      "0x%02X" of start + i, and nothing else is in the map. */
  lemma ParseTldSpec(data: seq<Byte>, endianness: Option<string>)
    ensures |data| < 4 ==> ParseTld(data, endianness) == map[]
    ensures |data| >= 4 && |data| != 4 + 2 * CountOf(data, endianness) ==> ParseTld(data, endianness) == map[]
    ensures |data| >= 4 && |data| == 4 + 2 * CountOf(data, endianness) ==>
      HoldsWords(ParseTld(data, endianness), StartOf(data, endianness), data[4..], LittleEndian(endianness), CountOf(data, endianness))
  {
    if |data| >= 4 && |data| == 4 + 2 * CountOf(data, endianness) {
      RegistersSpec(StartOf(data, endianness), data[4..], LittleEndian(endianness), CountOf(data, endianness));
    }
  }

  /** Every decoded value is an unsigned 16-bit number. */
  lemma ParseTldValuesFit(data: seq<Byte>, endianness: Option<string>, k: string)
    requires k in ParseTld(data, endianness)
    ensures ParseTld(data, endianness)[k] < 0x1_0000
  {
    ParseTldSpec(data, endianness);
    var i :| 0 <= i < CountOf(data, endianness) && k == KeyAt(StartOf(data, endianness), i);
  }

  /** Any endianness other than "LE" (missing, "BE" or unsupported) decodes
      as big-endian. */
  lemma EndiannessFallback(data: seq<Byte>, endianness: Option<string>)
    requires endianness != Some("LE")
    ensures ParseTld(data, endianness) == ParseTld(data, Some("BE"))
  {
  }

  lemma {:induction false} BodyWords(words: seq<nat>, little: bool, i: nat)
    requires forall j :: 0 <= j < |words| ==> words[j] < 0x1_0000
    requires i < |words|
    ensures WordAt(Body(words, little), i, little) == words[i]
  {
    var b := Body(words, little);
    var last := |words| - 1;
    var init := Body(words[..last], little);
    if i < last {
      BodyWords(words[..last], little, i);
      assert b[2 * i] == init[2 * i] && b[2 * i + 1] == init[2 * i + 1];
    } else {
      Put16RoundTrip(words[last], little);
      assert b[2 * i..2 * i + 2] == Put16(words[last], little);
    }
  }

  /** Decoding an encoded frame, in the same byte order, gives back each
      word under its address and nothing else. */
  lemma TldRoundTrip(start: nat, words: seq<nat>, little: bool)
    requires start < 0x1_0000 && |words| < 0x1_0000
    requires forall i :: 0 <= i < |words| ==> words[i] < 0x1_0000
    ensures var r := ParseTld(EncodeTld(start, words, little), if little then Some("LE") else Some("BE"));
      && |r| == |words|
      && (forall i :: 0 <= i < |words| ==> KeyAt(start, i) in r && r[KeyAt(start, i)] == words[i])
  {
    var data := EncodeTld(start, words, little);
    var e := if little then Some("LE") else Some("BE");
    assert LittleEndian(e) == little;
    Put16RoundTrip(start, little);
    Put16RoundTrip(|words|, little);
    assert data[..2] == Put16(start, little);
    assert data[2..4] == Put16(|words|, little);
    assert WordAt(data, 0, little) == start;
    assert WordAt(data, 1, little) == |words|;
    assert data[4..] == Body(words, little);
    RegistersSpec(start, data[4..], little, |words|);
    forall i | 0 <= i < |words| ensures WordAt(data[4..], i, little) == words[i] {
      BodyWords(words, little, i);
    }
  }

  /** pack_data fails exactly on a missing write_command or a field that
      does not fit; otherwise the frame is 8 bytes: slave, write_command,
      address and value big-endian, then the CRC of those six bytes. */
  lemma PackDataSpec(p: Protocol, slave: int, address: int, value: int)
    ensures var r := PackData(p, slave, address, value);
      && (p.writeCommand.None? ==> r == Err(KeyError))
      && (p.writeCommand.Some? ==>
            (r.Ok? <==> FitsByte(slave) && FitsByte(p.writeCommand.value) && FitsWord(address) && FitsWord(value)))
      && (r.Err? ==> r.error == KeyError || r.error == StructError)
      && (r.Ok? ==>
            && |r.value| == 8
            && r.value[0] as int == slave
            && r.value[1] as int == p.writeCommand.value
            && Word(r.value[2], r.value[3]) == address
            && Word(r.value[4], r.value[5]) == value
            && CrcChecks(r.value))
  {
    var r := PackData(p, slave, address, value);
    if r.Ok? {
      var body := WriteBody(slave, p.writeCommand.value, address, value);
      ByteRoundTrip(slave);
      ByteRoundTrip(p.writeCommand.value);
      Put16RoundTrip(address, false);
      Put16RoundTrip(value, false);
      assert r.value[..6] == body;
      CrcFieldChecks(body);
    }
  }

  /** A receiver recovers the four fields of every frame pack_data builds. */
  lemma PackUnpackRoundTrip(p: Protocol, slave: int, address: int, value: int)
    requires PackData(p, slave, address, value).Ok?
    ensures UnpackWrite(PackData(p, slave, address, value).value) == Some((slave, p.writeCommand.value, address, value))
  {
    PackDataSpec(p, slave, address, value);
  }

  /** The frame as written differs from the corrected one only in the
      order of the two CRC bytes. */
  lemma AsWrittenSwapsCrc(p: Protocol, slave: int, address: int, value: int)
    ensures var w, c := PackDataAsWritten(p, slave, address, value), PackData(p, slave, address, value);
      && w.Ok? == c.Ok?
      && (w.Err? ==> w.error == c.error)
      && (w.Ok? ==> |w.value| == 8 && w.value[..6] == c.value[..6] && w.value[6] == c.value[7] && w.value[7] == c.value[6])
  {
  }

  /** The CRC of the counterexample request "01 06 00 00 00 01". */
  lemma CounterexampleCrc()
    ensures Crc([1, 6, 0, 0, 0, 1]) == 0x0A48
  {
    var s: seq<Byte> := [1, 6, 0, 0, 0, 1];
    FeedStep(0xFFFF, 1, 0x807E);
    FeedStep(0x807E, 6, 0x2280);
    FeedStep(0x2280, 0, 0xA023);
    FeedStep(0xA023, 0, 0xD9E1);
    FeedStep(0xD9E1, 0, 0x4819);
    FeedStep(0x4819, 1, 0x0A48);
    assert s[1..] == [6, 0, 0, 0, 1];
    assert s[1..][1..] == [0, 0, 0, 1];
    assert s[1..][1..][1..] == [0, 0, 1];
    assert s[1..][1..][1..][1..] == [0, 1];
    assert s[1..][1..][1..][1..][1..] == [1];
    assert FeedAll(0x4819, [1]) == FeedAll(0x0A48, []);
  }

  /** One byte fed into the register, evaluated bit by bit. */
  lemma FeedStep(c: bv16, b: Byte, d: bv16)
    requires ShiftBit(ShiftBit(ShiftBit(ShiftBit(ShiftBit(ShiftBit(ShiftBit(ShiftBit(c ^ b as bv16)))))))) == d
    ensures Feed(c, b) == d
  {
    var x := c ^ b as bv16;
    assert ShiftBits(x, 8) == ShiftBits(ShiftBit(x), 7);
    assert ShiftBits(ShiftBit(x), 7) == ShiftBits(ShiftBit(ShiftBit(x)), 6);
    assert ShiftBits(ShiftBit(ShiftBit(x)), 6) == ShiftBits(ShiftBit(ShiftBit(ShiftBit(x))), 5);
    assert ShiftBits(ShiftBit(ShiftBit(ShiftBit(x))), 5) == ShiftBits(ShiftBit(ShiftBit(ShiftBit(ShiftBit(x)))), 4);
    assert ShiftBits(ShiftBit(ShiftBit(ShiftBit(ShiftBit(x)))), 4)
        == ShiftBits(ShiftBit(ShiftBit(ShiftBit(ShiftBit(ShiftBit(x))))), 3);
    assert ShiftBits(ShiftBit(ShiftBit(ShiftBit(ShiftBit(ShiftBit(x))))), 3)
        == ShiftBits(ShiftBit(ShiftBit(ShiftBit(ShiftBit(ShiftBit(ShiftBit(x)))))), 2);
    assert ShiftBits(ShiftBit(ShiftBit(ShiftBit(ShiftBit(ShiftBit(ShiftBit(x)))))), 2)
        == ShiftBits(ShiftBit(ShiftBit(ShiftBit(ShiftBit(ShiftBit(ShiftBit(ShiftBit(x))))))), 1);
  }

  /** The frame as written fails the receiver's CRC check whenever the two
      CRC bytes differ; for slave 1, write_command 6, address 0, value 1 it
      is "01 06 00 00 00 01 0A 48", while a receiver expects "... 48 0A". */
  lemma AsWrittenFailsCheck()
    ensures var p := Protocol(None, Some(6), Table([], map[]));
      && PackDataAsWritten(p, 1, 0, 1).Ok?
      && !CrcChecks(PackDataAsWritten(p, 1, 0, 1).value)
      && CrcChecks(PackData(p, 1, 0, 1).value)
  {
    var p := Protocol(None, Some(6), Table([], map[]));
    var body := WriteBody(1, 6, 0, 1);
    ByteRoundTrip(0);
    ByteRoundTrip(1);
    assert body == [1, 6, 0, 0, 0, 1];
    CounterexampleCrc();
    var w := PackDataAsWritten(p, 1, 0, 1).value;
    assert w[6] == 0x0A && w[7] == 0x48;
    assert w[..6] == body;
    assert w[6..] != CrcField(body);
    PackDataSpec(p, 1, 0, 1);
  }
}
