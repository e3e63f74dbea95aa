/** The parsed protocol descriptor (one JSON document per device model) and
    the values that flow between the codec, the register store and the
    entity layer. JSON objects are ordered: a descriptor table keeps its
    keys in document order. */
module Descriptor {
  import opened Wrappers
  import opened NumText

  /** One register entry of the descriptor; a key absent from the JSON object is None. */
  datatype RegisterInfo = RegisterInfo(
    name: Option<string>,
    sensorType: Option<string>,
    access: Option<string>,
    typ: Option<string>,
    scale: Option<int>,
    writeCommand: Option<int>,
    writeValue: Option<int>,
    minValue: Option<int>,
    maxValue: Option<int>,
    step: Option<int>,
    enumMap: Option<seq<(string, string)>>,
    hasRange: bool)

  /** A JSON object with no keys at all (falsy in Python). */
  predicate IsEmptyEntry(d: RegisterInfo) {
    d == RegisterInfo(None, None, None, None, None, None, None, None, None, None, None, false)
  }

  /** An ordered JSON object of register entries. */
  datatype Table<K(==)> = Table(keys: seq<K>, entries: map<K, RegisterInfo>) {
    ghost predicate WellFormed() {
      && (forall i, j :: 0 <= i < j < |keys| ==> keys[i] != keys[j])
      && entries.Keys == set i | 0 <= i < |keys| :: keys[i]
    }

    /** dict.get(k) */
    function Get(k: K): Option<RegisterInfo> {
      if k in entries then Some(entries[k]) else None
    }

    /** dict.items(), in document order. */
    function Items(): (r: seq<(K, RegisterInfo)>)
      requires WellFormed()
      ensures |r| == |keys|
      ensures forall i :: 0 <= i < |keys| ==> r[i].0 == keys[i] && keys[i] in entries && r[i].1 == entries[keys[i]]
    {
      seq(|keys|, i requires 0 <= i < |keys| => (keys[i], entries[keys[i]]))
    }
  }

  /** A value JSON can hold in a segment or a diagnostics message. */
  datatype Json = JNull | JBool(b: bool) | JInt(i: int) | JStr(s: string)

  /** One configuration segment pushed to the device (a flat JSON object). */
  type Segment = map<string, Json>

  predicate IsSpace(c: char) { c == ' ' || c == '\t' || c == '\n' || c == '\r' || c == 11 as char || c == 12 as char }

  /** s.strip() == "" */
  predicate IsBlank(s: string) { forall i :: 0 <= i < |s| ==> IsSpace(s[i]) }

  /** `name and isinstance(name, str) and name.strip()`: the check that
      PZemV04, MakeSkyBlue, Megarevo and MakeSkyBlueIoTrix apply. */
  predicate HasUsableName(d: RegisterInfo) {
    d.name.Some? && !IsBlank(d.name.value)
  }

  /** `if not name: continue`: the check that DDSU666 and JkBMS apply. */
  predicate HasTruthyName(d: RegisterInfo) {
    d.name.Some? && d.name.value != ""
  }

  /** `{int(k, 16) if k.startswith("0x") else int(k): v for k, v in enum.items()}`;
      a key that does not parse raises ValueError. */
  function EnumMapping(e: seq<(string, string)>): Result<map<nat, string>> {
    if e == [] then Ok(map[])
    else
      match EnumMapping(e[..|e| - 1])
      case Err(x) => Err(x)
      case Ok(m) =>
        match ParseEnumKey(e[|e| - 1].0)
        case None => Err(ValueError)
        case Some(k) => Ok(m[k := e[|e| - 1].1])
  }

  /** The values the register store holds. */
  datatype Value = IntVal(i: int) | StrVal(s: string) | SchedVal(time: string, intervalDays: int)

  /** The store is keyed by logical name, and by raw register where a plugin
      caches the last raw value it decoded. */
  datatype Key = Name(name: string) | Reg(reg: int)

  /** A command value as the entity layer hands it to handle_cmd. A float
      is modelled by its integral value (scale 1). */
  datatype CmdValue =
    | CInt(i: int)
    | CFloat(f: int)
    | CStr(s: string)
    | CDict(fields: map<string, CmdValue>)
    | COther

  /** What a plugin publishes on its command topic: the result of a
      pack_data call (three-argument form: no write command), or a string
      command verbatim. */
  datatype Frame =
    | Packed(slave: int, address: int, value: int, writeCommand: Option<int>)
    | Verbatim(text: string)

  /** A registered entity; only its advertised number bounds (in tenths of
      the unit) are modelled. */
  datatype Entity = Entity(minValue: Option<int>, maxValue: Option<int>)

  /** One entity description of unpack_device_info. Display-only
      attributes (icon, unit, precision, offset, device and state class,
      float scale) are not modelled. */
  datatype InfoEntry = InfoEntry(
    name: string,
    diagnostic: bool,
    register: Option<int>,
    enumMapping: Option<map<nat, string>>,
    options: Option<seq<string>>,
    minValue: Option<int>,
    maxValue: Option<int>,
    step: Option<int>,
    writeCommand: Option<int>,
    payloadPress: Option<int>)

  /** An entry with only a name. */
  function Named(name: string): InfoEntry {
    InfoEntry(name, false, None, None, None, None, None, None, None, None)
  }

  /** The groups of unpack_device_info; the "time" group exists only once
      something was added to it. */
  datatype DeviceInfo = DeviceInfo(
    sensor: seq<InfoEntry>,
    number: seq<InfoEntry>,
    select: seq<InfoEntry>,
    switch: seq<InfoEntry>,
    button: seq<InfoEntry>,
    time: Option<seq<InfoEntry>>)

  /** The descriptor's values of an enum, in document order. */
  function EnumValues(e: seq<(string, string)>): (r: seq<string>)
    ensures |r| == |e| && forall i :: 0 <= i < |e| ==> r[i] == e[i].1
  {
    seq(|e|, i requires 0 <= i < |e| => e[i].1)
  }

  // ---------------------------------------------------------------- lemmas

  /** The enum mapping fails exactly when some key does not parse. */
  lemma {:induction false} EnumMappingFails(e: seq<(string, string)>)
    ensures EnumMapping(e).Ok? <==> forall i :: 0 <= i < |e| ==> ParseEnumKey(e[i].0).Some?
  {
    if e != [] {
      var p := e[..|e| - 1];
      EnumMappingFails(p);
      assert forall i :: 0 <= i < |p| ==> p[i] == e[i];
    }
  }

  /** A successful mapping is keyed by exactly the parsed keys. */
  lemma {:induction false} EnumMappingKeys(e: seq<(string, string)>, k: nat)
    requires EnumMapping(e).Ok?
    ensures k in EnumMapping(e).value <==> exists i :: 0 <= i < |e| && ParseEnumKey(e[i].0) == Some(k)
  {
    if e != [] {
      var p := e[..|e| - 1];
      EnumMappingKeys(p, k);
      assert forall i :: 0 <= i < |p| ==> p[i] == e[i];
      if k != ParseEnumKey(e[|e| - 1].0).value && k in EnumMapping(e).value {
        var i :| 0 <= i < |p| && ParseEnumKey(p[i].0) == Some(k);
        assert ParseEnumKey(e[i].0) == Some(k);
      }
    }
  }

  /** The last entry whose key parses to a value decides that value's text. */
  lemma {:induction false} EnumMappingLastWins(e: seq<(string, string)>, i: nat)
    requires EnumMapping(e).Ok? && i < |e|
    requires forall j :: i < j < |e| ==> ParseEnumKey(e[j].0) != ParseEnumKey(e[i].0)
    ensures ParseEnumKey(e[i].0).Some?
    ensures ParseEnumKey(e[i].0).value in EnumMapping(e).value
    ensures EnumMapping(e).value[ParseEnumKey(e[i].0).value] == e[i].1
  {
    var p := e[..|e| - 1];
    if i < |e| - 1 {
      assert p[i] == e[i];
      forall j | i < j < |p| ensures ParseEnumKey(p[j].0) != ParseEnumKey(p[i].0) {
        assert p[j] == e[j];
      }
      EnumMappingLastWins(p, i);
    }
  }
}
