/** The older Modbus protocol helper: parse_data walks the descriptor's
    registers in document order and consumes two bytes (UINT16) or four
    (any other type) of the payload for each one at or above the start
    address, keeping what it decoded in a cache that read_data answers
    from. Writes and write frames are those of the newer helper. */
module LegacyCodec {
  import opened Wrappers
  import opened NumText
  import opened Crc16
  import opened Descriptor
  import TldCodec

  /** Bytes a register occupies: two for UINT16, four for anything else. */
  function Width(typ: string): (w: nat)
    ensures w == 2 || w == 4
  {
    if typ == "UINT16" then 2 else 4
  }

  /** struct.unpack of two or four bytes as an unsigned integer. */
  function Unsigned(b: seq<Byte>, little: bool): (v: nat)
    requires |b| == 2 || |b| == 4
    ensures v < (if |b| == 2 then 0x1_0000 else 0x1_0000_0000)
  {
    if |b| == 2 then
      if little then TldCodec.Word(b[1], b[0]) else TldCodec.Word(b[0], b[1])
    else
      var hi := if little then TldCodec.Word(b[3], b[2]) else TldCodec.Word(b[0], b[1]);
      var lo := if little then TldCodec.Word(b[1], b[0]) else TldCodec.Word(b[2], b[3]);
      hi * 0x1_0000 + lo
  }

  /** protocol_data.get("endianness", "BE") names a byte order parse_data knows. */
  predicate KnownEndianness(endianness: Option<string>) {
    endianness.GetOr("BE") == "BE" || endianness.GetOr("BE") == "LE"
  }

  /** The cache after a scan, the offset the scan stopped at, and the
      exception that ended it, if any. */
  datatype ScanOut = ScanOut(parsed: map<string, int>, offset: nat, raised: Option<Raised>)

  /** What parse_data does with one register. */
  datatype Step = Skip | Stop(raised: Option<Raised>) | Take(name: string, value: int, width: nat)

  /** One register of the offset-walking scan: an address that is not
      hexadecimal raises ValueError; a register below start is skipped
      without consuming bytes; a missing "type" raises KeyError; a register
      that does not fit ends the scan; an unknown byte order raises
      ValueError; a missing "name" raises KeyError; otherwise the (scaled)
      value is taken and the register's width consumed. */
  function ScanStep(item: (string, RegisterInfo), data: seq<Byte>, start: int, offset: nat, endianness: Option<string>): (s: Step)
    ensures s.Take? ==> offset + s.width <= |data|
  {
    var (register, d) := item;
    match ParseHex(register)
    case None => Stop(Some(ValueError))
    case Some(address) =>
      if address < start then Skip
      else if d.typ.None? then Stop(Some(KeyError))
      else
        var length := Width(d.typ.value);
        if offset + length > |data| then Stop(None)
        else if !KnownEndianness(endianness) then Stop(Some(ValueError))
        else if d.name.None? then Stop(Some(KeyError))
        else Take(d.name.value, Unsigned(data[offset..offset + length], endianness.GetOr("BE") == "LE") * d.scale.GetOr(1), length)
  }

  /** The scan from the given register on. Values cached before an
      exception stay in the cache. */
  function Scan(parsed: map<string, int>, items: seq<(string, RegisterInfo)>, data: seq<Byte>, start: int,
                offset: nat, endianness: Option<string>): ScanOut
    decreases |items|
  {
    if items == [] then ScanOut(parsed, offset, None)
    else
      match ScanStep(items[0], data, start, offset, endianness)
      case Skip => Scan(parsed, items[1..], data, start, offset, endianness)
      case Stop(x) => ScanOut(parsed, offset, x)
      case Take(name, v, w) => Scan(parsed[name := v], items[1..], data, start, offset + w, endianness)
  }

  /** The value read_data makes up for a register that was never decoded. */
  function Stub(typ: string): int {
    if typ == "UINT16" then 1 else if typ == "UINT32" then 56789 else 0
  }

  /** The body of parse_data's loop for one register. */
  method DecodeRegister(item: (string, RegisterInfo), data: seq<Byte>, start: int, offset: nat, endianness: Option<string>)
    returns (step: Step)
    ensures step == ScanStep(item, data, start, offset, endianness)
  {
    var (register, d) := item;
    var address := ParseHex(register);
    if address.None? {
      return Stop(Some(ValueError));
    }
    if address.value < start {
      return Skip;
    }
    if d.typ.None? {
      return Stop(Some(KeyError));
    }
    var length := Width(d.typ.value);
    if offset + length > |data| {
      return Stop(None);
    }
    var order := endianness.GetOr("BE");
    var little;
    if order == "BE" {
      little := false;
    } else if order == "LE" {
      little := true;
    } else {
      return Stop(Some(ValueError));
    }
    var value := Unsigned(data[offset..offset + length], little);
    if d.scale.GetOr(1) != 1 {
      value := value * d.scale.value;
    }
    if d.name.None? {
      return Stop(Some(KeyError));
    }
    step := Take(d.name.value, value, length);
  }

  /** One register of the scan, then the rest. */
  lemma ScanCons(parsed: map<string, int>, items: seq<(string, RegisterInfo)>, data: seq<Byte>, start: int,
                 offset: nat, endianness: Option<string>, step: Step)
    requires items != [] && step == ScanStep(items[0], data, start, offset, endianness)
    ensures Scan(parsed, items, data, start, offset, endianness) ==
      match step
      case Skip => Scan(parsed, items[1..], data, start, offset, endianness)
      case Stop(x) => ScanOut(parsed, offset, x)
      case Take(name, v, w) => Scan(parsed[name := v], items[1..], data, start, offset + w, endianness)
  {
  }

  /** The loop of parse_data over the descriptor's registers, from offset 0. */
  method ScanLoop(parsed0: map<string, int>, items: seq<(string, RegisterInfo)>, data: seq<Byte>, start: int,
                  endianness: Option<string>) returns (r: ScanOut)
    ensures r == Scan(parsed0, items, data, start, 0, endianness)
  {
    var parsed := parsed0;
    var offset: nat := 0;
    var i := 0;
    while i < |items|
      invariant 0 <= i <= |items|
      invariant Scan(parsed, items[i..], data, start, offset, endianness) == Scan(parsed0, items, data, start, 0, endianness)
    {
      assert items[i..][1..] == items[i + 1..];
      var step := DecodeRegister(items[i], data, start, offset, endianness);
      ScanCons(parsed, items[i..], data, start, offset, endianness, step);
      match step {
        case Stop(x) =>
          return ScanOut(parsed, offset, x);
        case Take(name, value, width) =>
          parsed := parsed[name := value];
          offset := offset + width;
        case Skip =>
      }
      i := i + 1;
    }
    assert items[i..] == [];
    r := ScanOut(parsed, offset, None);
  }

  class LegacyHelper {
    const protocol: TldCodec.Protocol
    var parsed: map<string, int>

    constructor (protocol: TldCodec.Protocol)
      requires protocol.registers.WellFormed()
      ensures this.protocol == protocol && parsed == map[]
    {
      this.protocol := protocol;
      parsed := map[];
    }

    /** parse_data. */
    method ParseData(data: seq<Byte>, start: int) returns (raised: Option<Raised>)
      requires protocol.registers.WellFormed()
      modifies this`parsed
      ensures var r := Scan(old(parsed), protocol.registers.Items(), data, start, 0, protocol.endianness);
        parsed == r.parsed && raised == r.raised
    {
      var r := ScanLoop(parsed, protocol.registers.Items(), data, start, protocol.endianness);
      parsed, raised := r.parsed, r.raised;
    }

    /** read_data: an unknown register (or an empty entry) raises
        ValueError; a decoded register answers from the cache; any other
        gets the stub value of its type times its scale. A missing "name",
        "type" or "scale" key raises KeyError. */
    function ReadData(register: string): (r: Result<int>)
      reads this
      ensures r.Ok? && register in protocol.registers.entries && protocol.registers.entries[register].name.Some? &&
              protocol.registers.entries[register].name.value in parsed ==>
        r.value == parsed[protocol.registers.entries[register].name.value]
      ensures register !in protocol.registers.entries ==> r == Err(ValueError)
    {
      match protocol.registers.Get(register)
      case None => Err(ValueError)
      case Some(d) =>
        if IsEmptyEntry(d) then Err(ValueError)
        else if d.name.None? then Err(KeyError)
        else if d.name.value in parsed then Ok(parsed[d.name.value])
        else if d.typ.None? then Err(KeyError)
        else if d.scale.None? then Err(KeyError)
        else Ok(Stub(d.typ.value) * d.scale.value)
    }
  }

  // ---------------------------------------------------------------- lemmas

  /** The scan never moves past the end of the payload nor backwards, and
      the cache only gains keys. */
  lemma {:induction false} ScanBounds(parsed: map<string, int>, items: seq<(string, RegisterInfo)>, data: seq<Byte>,
                                      start: int, offset: nat, endianness: Option<string>)
    requires offset <= |data|
    ensures var r := Scan(parsed, items, data, start, offset, endianness);
      offset <= r.offset <= |data| && parsed.Keys <= r.parsed.Keys
    decreases |items|
  {
    if items != [] {
      match ScanStep(items[0], data, start, offset, endianness)
      case Skip => ScanBounds(parsed, items[1..], data, start, offset, endianness);
      case Stop(_) =>
      case Take(name, v, w) => ScanBounds(parsed[name := v], items[1..], data, start, offset + w, endianness);
    }
  }

  /** The scan writes only under the names of the registers it walks. */
  lemma {:induction false} ScanFrame(parsed: map<string, int>, items: seq<(string, RegisterInfo)>, data: seq<Byte>,
                                     start: int, offset: nat, endianness: Option<string>, k: string)
    requires forall i :: 0 <= i < |items| ==> items[i].1.name != Some(k)
    ensures var r := Scan(parsed, items, data, start, offset, endianness);
      (k in r.parsed <==> k in parsed) && (k in parsed ==> r.parsed[k] == parsed[k])
    decreases |items|
  {
    if items != [] {
      assert forall i :: 0 <= i < |items[1..]| ==> items[1..][i] == items[i + 1];
      match ScanStep(items[0], data, start, offset, endianness)
      case Skip => ScanFrame(parsed, items[1..], data, start, offset, endianness, k);
      case Stop(_) =>
      case Take(name, v, w) =>
        assert items[0].1.name != Some(k);
        ScanFrame(parsed[name := v], items[1..], data, start, offset + w, endianness, k);
    }
  }

  /** With a byte order other than "BE" or "LE" nothing is ever decoded. */
  lemma {:induction false} ScanUnknownEndianness(parsed: map<string, int>, items: seq<(string, RegisterInfo)>, data: seq<Byte>,
                                                 start: int, offset: nat, endianness: Option<string>)
    requires !KnownEndianness(endianness)
    ensures var r := Scan(parsed, items, data, start, offset, endianness);
      r.parsed == parsed && r.offset == offset
    decreases |items|
  {
    if items != [] {
      match ScanStep(items[0], data, start, offset, endianness)
      case Skip => ScanUnknownEndianness(parsed, items[1..], data, start, offset, endianness);
      case Stop(_) =>
      case Take(_, _, _) => assert false;
    }
  }

  /** A well-formed 16-bit register at or above the start address. */
  predicate Word16At(item: (string, RegisterInfo), start: int) {
    && ParseHex(item.0).Some? && ParseHex(item.0).value >= start
    && item.1.typ == Some("UINT16") && item.1.name.Some?
  }

  /** The value a UINT16 register decodes to from the given offset. */
  function WordValue(d: RegisterInfo, data: seq<Byte>, offset: nat, endianness: Option<string>): int
    requires offset + 2 <= |data|
  {
    Unsigned(data[offset..offset + 2], endianness.GetOr("BE") == "LE") * d.scale.GetOr(1)
  }

  /** One well-formed UINT16 register that fits: cached, and two bytes consumed. */
  lemma ScanWordStep(parsed: map<string, int>, items: seq<(string, RegisterInfo)>, data: seq<Byte>,
                     start: int, offset: nat, endianness: Option<string>)
    requires KnownEndianness(endianness)
    requires items != [] && Word16At(items[0], start) && offset + 2 <= |data|
    ensures Scan(parsed, items, data, start, offset, endianness)
         == Scan(parsed[items[0].1.name.value := WordValue(items[0].1, data, offset, endianness)], items[1..], data, start, offset + 2, endianness)
  {
  }

  /** UINT16 registers at or above start, each named, with distinct names. */
  predicate Words16(items: seq<(string, RegisterInfo)>, start: int) {
    && (forall i :: 0 <= i < |items| ==> Word16At(items[i], start))
    && (forall i, j :: 0 <= i < j < |items| ==> items[i].1.name != items[j].1.name)
  }

  lemma Words16Rest(items: seq<(string, RegisterInfo)>, start: int)
    requires items != [] && Words16(items, start)
    ensures Words16(items[1..], start)
    ensures forall j :: 0 <= j < |items[1..]| ==> items[1..][j].1.name != items[0].1.name
  {
    assert forall j :: 0 <= j < |items[1..]| ==> items[1..][j] == items[j + 1];
  }

  /** The positional decode of named 16-bit registers: register i from
      bytes [offset + 2i, offset + 2i + 2), later names overriding earlier. */
  function Positional(parsed: map<string, int>, items: seq<(string, RegisterInfo)>, data: seq<Byte>,
                      offset: nat, endianness: Option<string>): map<string, int>
    requires forall i :: 0 <= i < |items| ==> items[i].1.name.Some?
    requires offset + 2 * |items| <= |data|
    decreases |items|
  {
    if items == [] then parsed
    else Positional(parsed[items[0].1.name.value := WordValue(items[0].1, data, offset, endianness)], items[1..], data, offset + 2, endianness)
  }

  /** Over well-formed UINT16 registers with room for all of them, the
      offset-walking scan is the positional decode, consuming two bytes per
      register and raising nothing. */
  lemma {:induction false} ScanPositional(parsed: map<string, int>, items: seq<(string, RegisterInfo)>, data: seq<Byte>,
                                          start: int, offset: nat, endianness: Option<string>)
    requires KnownEndianness(endianness) && Words16(items, start)
    requires offset + 2 * |items| <= |data|
    ensures Scan(parsed, items, data, start, offset, endianness)
         == ScanOut(Positional(parsed, items, data, offset, endianness), offset + 2 * |items|, None)
    decreases |items|
  {
    if items != [] {
      ScanWordStep(parsed, items, data, start, offset, endianness);
      Words16Rest(items, start);
      ScanPositional(parsed[items[0].1.name.value := WordValue(items[0].1, data, offset, endianness)], items[1..], data, start, offset + 2, endianness);
    }
  }

  /** The positional decode leaves alone every name it does not decode. */
  lemma {:induction false} PositionalFrame(parsed: map<string, int>, items: seq<(string, RegisterInfo)>, data: seq<Byte>,
                                           offset: nat, endianness: Option<string>, k: string)
    requires forall i :: 0 <= i < |items| ==> items[i].1.name.Some? && items[i].1.name.value != k
    requires offset + 2 * |items| <= |data|
    ensures var m := Positional(parsed, items, data, offset, endianness);
      (k in m <==> k in parsed) && (k in parsed ==> m[k] == parsed[k])
    decreases |items|
  {
    if items != [] {
      assert forall i :: 0 <= i < |items[1..]| ==> items[1..][i] == items[i + 1];
      PositionalFrame(parsed[items[0].1.name.value := WordValue(items[0].1, data, offset, endianness)], items[1..], data, offset + 2, endianness, k);
    }
  }

  /** With distinct names, register i holds the word at bytes
      [offset + 2i, offset + 2i + 2). */
  lemma {:induction false} PositionalValue(parsed: map<string, int>, items: seq<(string, RegisterInfo)>, data: seq<Byte>,
                                           offset: nat, endianness: Option<string>, i: nat)
    requires forall i :: 0 <= i < |items| ==> items[i].1.name.Some?
    requires forall i, j :: 0 <= i < j < |items| ==> items[i].1.name != items[j].1.name
    requires offset + 2 * |items| <= |data| && i < |items|
    ensures var m := Positional(parsed, items, data, offset, endianness);
      items[i].1.name.value in m && m[items[i].1.name.value] == WordValue(items[i].1, data, offset + 2 * i, endianness)
    decreases |items|
  {
    var rest := items[1..];
    assert forall j :: 0 <= j < |rest| ==> rest[j] == items[j + 1];
    var p := parsed[items[0].1.name.value := WordValue(items[0].1, data, offset, endianness)];
    if i == 0 {
      PositionalFrame(p, rest, data, offset + 2, endianness, items[0].1.name.value);
    } else {
      PositionalValue(p, rest, data, offset + 2, endianness, i - 1);
      assert offset + 2 + 2 * (i - 1) == offset + 2 * i;
    }
  }

  /** Over UINT16 registers at or above start whose names are distinct and
      with room for all of them, register i is decoded from bytes
      [offset + 2i, offset + 2i + 2) and the offset ends 2 bytes per
      register further on. */
  lemma ScanWords(parsed: map<string, int>, items: seq<(string, RegisterInfo)>, data: seq<Byte>,
                  start: int, offset: nat, endianness: Option<string>)
    requires KnownEndianness(endianness) && Words16(items, start)
    requires offset + 2 * |items| <= |data|
    ensures var r := Scan(parsed, items, data, start, offset, endianness);
      && r.raised.None?
      && r.offset == offset + 2 * |items|
      && forall i :: 0 <= i < |items| ==>
           items[i].1.name.Some? && items[i].1.name.value in r.parsed &&
           r.parsed[items[i].1.name.value] == WordValue(items[i].1, data, offset + 2 * i, endianness)
  {
    ScanPositional(parsed, items, data, start, offset, endianness);
    forall i | 0 <= i < |items|
      ensures var m := Positional(parsed, items, data, offset, endianness);
        items[i].1.name.value in m && m[items[i].1.name.value] == WordValue(items[i].1, data, offset + 2 * i, endianness)
    {
      PositionalValue(parsed, items, data, offset, endianness, i);
    }
  }

  /** After a successful decode, read_data answers with the decoded value. */
  lemma ReadAfterParse(h: LegacyHelper, register: string)
    requires register in h.protocol.registers.entries
    requires var d := h.protocol.registers.entries[register]; !IsEmptyEntry(d) && d.name.Some? && d.name.value in h.parsed
    ensures h.ReadData(register) == Ok(h.parsed[h.protocol.registers.entries[register].name.value])
  {
  }

  /** A register never decoded reads as its type's stub value times its scale. */
  lemma ReadStub(h: LegacyHelper, register: string)
    requires register in h.protocol.registers.entries
    requires var d := h.protocol.registers.entries[register];
      !IsEmptyEntry(d) && d.name.Some? && d.name.value !in h.parsed && d.typ.Some? && d.scale.Some?
    ensures var d := h.protocol.registers.entries[register];
      && h.ReadData(register).Ok?
      && h.ReadData(register).value == (if d.typ.value == "UINT16" then 1 else if d.typ.value == "UINT32" then 56789 else 0) * d.scale.value
  {
  }

  /** Two or four bytes decode back from their big- or little-endian
      encoding. */
  lemma UnsignedRoundTrip(w: nat, little: bool)
    requires w < 0x1_0000
    ensures Unsigned(TldCodec.Put16(w, little), little) == w
  {
    TldCodec.Put16RoundTrip(w, little);
  }
}
