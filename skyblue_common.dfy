/** What the two MakeSkyBlue inverter plugins (the classic one and the
    IoTrix one) share, at their own register addresses: the latch on the
    first AC-voltage reading, the rated-voltage gate that rewrites the
    bounds of the two battery-voltage numbers, the split of the combined
    power-factor register, and the check of AC-voltage commands against
    that latch and the register's enum. */
module SkyBlueCommon {
  import opened Wrappers
  import opened NumText
  import opened Descriptor
  import opened PluginCommon
  import Base

  /** Number bounds, in tenths of a volt. */
  datatype Bounds = Bounds(lo: int, hi: int)

  /** Rated voltage text -> (discharge-minimum bounds, start-discharge bounds). */
  type RangeTable = map<string, (Bounds, Bounds)>

  const DischargeMin := "battery_discharge_min_voltage"
  const StartDischarge := "battery_start_discharge_voltage"
  const InverterFactor := "inverter_factor"
  const PowerFactor := "power_factor"

  /** The latch: the first AC-voltage value seen is kept for good. */
  function Latch(latch: Option<int>, frame: RawFrame, reg: int): (r: Option<int>)
    ensures latch.Some? ==> r == latch
    ensures latch.None? ==> r == FrameGet(frame, reg)
  {
    if latch.None? then FrameGet(frame, reg) else latch
  }

  // ---------------------------------------------------- rated-voltage gate

  /** The rated voltage of a raw reading: the value of the first enum key
      whose hexadecimal value equals raw times the register's scale. A key
      that does not parse raises ValueError; a missing scale raises KeyError
      as soon as the first key is compared. */
  function RatedLookup(e: seq<(string, string)>, raw: int, scale: Option<int>): Result<Option<string>>
    decreases |e|
  {
    if e == [] then Ok(None)
    else
      match ParseHex(e[0].0)
      case None => Err(ValueError)
      case Some(k) =>
        if scale.None? then Err(KeyError)
        else if k == raw * scale.value then Ok(Some(e[0].1))
        else RatedLookup(e[1..], raw, scale)
  }

  /** The for-loop with break that looks the rated voltage up. */
  method FindRated(e: seq<(string, string)>, raw: int, scale: Option<int>) returns (r: Result<Option<string>>)
    ensures r == RatedLookup(e, raw, scale)
  {
    var i := 0;
    while i < |e|
      invariant 0 <= i <= |e|
      invariant RatedLookup(e[i..], raw, scale) == RatedLookup(e, raw, scale)
    {
      var k := ParseHex(e[i].0);
      if k.None? {
        return Err(ValueError);
      }
      if scale.None? {
        return Err(KeyError);
      }
      if k.value == raw * scale.value {
        return Ok(Some(e[i].1));
      }
      assert e[i..][1..] == e[i + 1..];
      i := i + 1;
    }
    return Ok(None);
  }

  /** What the gate leaves behind: the cached raw reading, the entities
      with their bounds, the changed set, and an exception if one escaped. */
  datatype GateOut = GateOut(rated: Option<int>, entities: map<string, Option<Entity>>, changed: set<string>, raised: Option<Raised>)

  /** Set the bounds of one registered entity and mark it changed. */
  function Rebound(entities: map<string, Option<Entity>>, changed: set<string>, name: string, b: Bounds): (map<string, Option<Entity>>, set<string>) {
    if name in entities && entities[name].Some? then
      (entities[name := Some(Entity(Some(b.lo), Some(b.hi)))], changed + {name})
    else (entities, changed)
  }

  /** The gate on one raw rated-voltage reading: a reading equal to the
      cached one does nothing; otherwise it is cached first, then looked up
      in the register's enum, and a known rated voltage rewrites the bounds
      of both battery-voltage numbers. */
  function Gate(rated: Option<int>, entities: map<string, Option<Entity>>, changed: set<string>, raw: int,
                info: Option<RegisterInfo>, ranges: RangeTable): GateOut {
    if rated == Some(raw) then GateOut(rated, entities, changed, None)
    else if info.None? || info.value.enumMap.None? then GateOut(Some(raw), entities, changed, Some(KeyError))
    else
      match RatedLookup(info.value.enumMap.value, raw, info.value.scale)
      case Err(x) => GateOut(Some(raw), entities, changed, Some(x))
      case Ok(None) => GateOut(Some(raw), entities, changed, None)
      case Ok(Some(v)) =>
        if v !in ranges then GateOut(Some(raw), entities, changed, None)
        else
          var (e1, c1) := Rebound(entities, changed, DischargeMin, ranges[v].0);
          var (e2, c2) := Rebound(e1, c1, StartDischarge, ranges[v].1);
          GateOut(Some(raw), e2, c2, None)
  }

  /** The gate on a notification: run when the frame holds the
      rated-voltage register, a no-op otherwise. */
  function GateStage(rated: Option<int>, entities: map<string, Option<Entity>>, changed: set<string>, frame: RawFrame,
                     reg: int, t: Table<int>, ranges: RangeTable): GateOut {
    var raw := FrameGet(frame, reg);
    if raw.Some? then Gate(rated, entities, changed, raw.value, t.Get(reg), ranges)
    else GateOut(rated, entities, changed, None)
  }

  /** Everything a notification changes, and the exception that ends it early. */
  datatype NotifyOut = NotifyOut(p: Progress, entities: map<string, Option<Entity>>, latch: Option<int>, rated: Option<int>, raised: Option<Raised>)

  /** The gate as the notify handler runs it, when the frame holds the
      rated-voltage register. */
  method RunGate(dev: Base.BaseDevice, rated: Option<int>, changed: set<string>, raw: int, info: Option<RegisterInfo>, ranges: RangeTable)
      returns (rated': Option<int>, changed': set<string>, raised: Option<Raised>)
    modifies dev`entities
    ensures var g := Gate(rated, old(dev.entities), changed, raw, info, ranges);
      rated' == g.rated && dev.entities == g.entities && changed' == g.changed && raised == g.raised
  {
    rated', changed', raised := rated, changed, None;
    if rated == Some(raw) {
      return;
    }
    rated' := Some(raw);
    if info.None? || info.value.enumMap.None? {
      raised := Some(KeyError);
      return;
    }
    var found := FindRated(info.value.enumMap.value, raw, info.value.scale);
    if found.Err? {
      raised := Some(found.error);
      return;
    }
    if found.value.None? || found.value.value !in ranges {
      return;
    }
    var (b8, b9) := ranges[found.value.value];
    if DischargeMin in dev.entities && dev.entities[DischargeMin].Some? {
      dev.entities := dev.entities[DischargeMin := Some(Entity(Some(b8.lo), Some(b8.hi)))];
      changed' := changed' + {DischargeMin};
    }
    if StartDischarge in dev.entities && dev.entities[StartDischarge].Some? {
      dev.entities := dev.entities[StartDischarge := Some(Entity(Some(b9.lo), Some(b9.hi)))];
      changed' := changed' + {StartDischarge};
    }
  }

  // ------------------------------------------------ power-factor split

  /** Store a value under a name when it differs, and mark the name changed
      whether or not an entity is registered for it. */
  function ForceUpdate(p: Progress, name: string, v: Value): (r: Progress)
    ensures Name(name) in r.store && r.store[Name(name)] == v
    ensures forall k :: k != Name(name) ==> (k in r.store <==> k in p.store) && (k in r.store ==> r.store[k] == p.store[k])
    ensures r.changed == if Name(name) in p.store && p.store[Name(name)] == v then p.changed else p.changed + {name}
    ensures r.unknown == p.unknown && r.warned == p.warned
  {
    if Name(name) in p.store && p.store[Name(name)] == v then p
    else p.(store := p.store[Name(name) := v], changed := p.changed + {name})
  }

  /** High byte of a register value. */
  function HighByte(raw: int): int { raw / 256 % 256 }

  /** Low byte of a register value. */
  function LowByte(raw: int): int { raw % 256 }

  /** The combined power-factor register: inverter factor in the high byte,
      power factor in the low byte. */
  function Split(p: Progress, raw: int): Progress {
    ForceUpdate(ForceUpdate(p, InverterFactor, IntVal(HighByte(raw))), PowerFactor, IntVal(LowByte(raw)))
  }

  // ------------------------------------------------- AC-voltage commands

  /** The number a command value compares as, if it is one. */
  function NumOf(v: CmdValue): Option<int> {
    match v
    case CInt(i) => Some(i)
    case CFloat(f) => Some(f)
    case _ => None
  }

  /** Whether some enum key, parsed as hexadecimal, equals the value;
      parsing stops at the first match, and a key that does not parse
      before it raises ValueError. */
  function EnumHas(e: seq<(string, string)>, target: Option<int>): Result<bool>
    decreases |e|
  {
    if e == [] then Ok(false)
    else
      match ParseHex(e[0].0)
      case None => Err(ValueError)
      case Some(k) => if target == Some(k) then Ok(true) else EnumHas(e[1..], target)
  }

  /** The for-loop with break over the enum keys. */
  method FindKey(e: seq<(string, string)>, target: Option<int>) returns (r: Result<bool>)
    ensures r == EnumHas(e, target)
  {
    var i := 0;
    while i < |e|
      invariant 0 <= i <= |e|
      invariant EnumHas(e[i..], target) == EnumHas(e, target)
    {
      var k := ParseHex(e[i].0);
      if k.None? {
        return Err(ValueError);
      }
      if target == Some(k.value) {
        return Ok(true);
      }
      assert e[i..][1..] == e[i + 1..];
      i := i + 1;
    }
    return Ok(false);
  }

  /** The validation of an AC-voltage command: with a latched value of at
      least 2 a lower value is refused (comparing a non-number raises
      TypeError); then the value must be one of the register's enum keys
      (a missing register or enum raises KeyError). Ok(true) lets the
      command through, Ok(false) drops it. */
  function AcVoltageCheck(latch: Option<int>, value: CmdValue, info: Option<RegisterInfo>): Result<bool> {
    if latch.Some? && latch.value >= 2 && NumOf(value).None? then Err(TypeError)
    else if latch.Some? && latch.value >= 2 && NumOf(value).value < 2 then Ok(false)
    else if info.None? || info.value.enumMap.None? then Err(KeyError)
    else EnumHas(info.value.enumMap.value, NumOf(value))
  }

  /** The validation as handle_cmd runs it. */
  method CheckAcVoltage(latch: Option<int>, value: CmdValue, info: Option<RegisterInfo>) returns (r: Result<bool>)
    ensures r == AcVoltageCheck(latch, value, info)
  {
    if latch.Some? && latch.value >= 2 {
      var n := NumOf(value);
      if n.None? {
        return Err(TypeError);
      }
      if n.value < 2 {
        return Ok(false);
      }
    }
    if info.None? || info.value.enumMap.None? {
      return Err(KeyError);
    }
    r := FindKey(info.value.enumMap.value, NumOf(value));
  }

  // ---------------------------------------------------------------- lemmas

  /** The lookup finds the first enum entry whose key equals raw times the
      scale, when every key before it parses. */
  lemma {:induction false} RatedLookupFirst(e: seq<(string, string)>, raw: int, scale: int, i: nat)
    requires i < |e| && ParseHex(e[i].0) == Some(raw * scale)
    requires forall j :: 0 <= j < i ==> ParseHex(e[j].0).Some? && ParseHex(e[j].0).value != raw * scale
    ensures RatedLookup(e, raw, Some(scale)) == Ok(Some(e[i].1))
    decreases i
  {
    if i > 0 {
      forall j | 0 <= j < i - 1 ensures ParseHex(e[1..][j].0).Some? && ParseHex(e[1..][j].0).value != raw * scale {
        assert e[1..][j] == e[j + 1];
      }
      RatedLookupFirst(e[1..], raw, scale, i - 1);
    }
  }

  /** A found rated voltage is the value of an entry whose key matches. */
  lemma {:induction false} RatedLookupSound(e: seq<(string, string)>, raw: int, scale: Option<int>)
    requires RatedLookup(e, raw, scale).Ok? && RatedLookup(e, raw, scale).value.Some?
    ensures scale.Some?
    ensures exists i :: 0 <= i < |e| && ParseHex(e[i].0) == Some(raw * scale.value) && e[i].1 == RatedLookup(e, raw, scale).value.value
    decreases |e|
  {
    if ParseHex(e[0].0).value != raw * scale.value {
      RatedLookupSound(e[1..], raw, scale);
      var i :| 0 <= i < |e[1..]| && ParseHex(e[1..][i].0) == Some(raw * scale.value) && e[1..][i].1 == RatedLookup(e, raw, scale).value.value;
      assert e[i + 1] == e[1..][i];
    }
  }

  /** A reading equal to the cached one changes nothing; any other reading
      is cached, whatever the lookup gives. */
  lemma GateCaches(rated: Option<int>, entities: map<string, Option<Entity>>, changed: set<string>, raw: int, info: Option<RegisterInfo>, ranges: RangeTable)
    ensures var g := Gate(rated, entities, changed, raw, info, ranges);
      && g.rated == Some(raw)
      && (rated == Some(raw) ==> g == GateOut(rated, entities, changed, None))
  {
  }

  /** The gate touches only the bounds of the two battery-voltage numbers,
      and only when they are registered: no entity is added or removed, and
      only those two names can join the changed set. */
  lemma GateOnlyBounds(rated: Option<int>, entities: map<string, Option<Entity>>, changed: set<string>, raw: int, info: Option<RegisterInfo>, ranges: RangeTable)
    ensures var g := Gate(rated, entities, changed, raw, info, ranges);
      && g.entities.Keys == entities.Keys
      && (forall n :: n in entities && n != DischargeMin && n != StartDischarge ==> g.entities[n] == entities[n])
      && (forall n :: n in entities && entities[n].None? ==> g.entities[n].None?)
      && changed <= g.changed && g.changed <= changed + {DischargeMin, StartDischarge}
  {
  }

  /** A rated voltage found in the table gives each registered
      battery-voltage number exactly its bounds from the table. */
  lemma GateSetsBounds(rated: Option<int>, entities: map<string, Option<Entity>>, changed: set<string>, raw: int, info: RegisterInfo, ranges: RangeTable, v: string)
    requires rated != Some(raw) && info.enumMap.Some?
    requires RatedLookup(info.enumMap.value, raw, info.scale) == Ok(Some(v)) && v in ranges
    ensures var g := Gate(rated, entities, changed, raw, Some(info), ranges);
      && g.raised.None?
      && (DischargeMin in entities && entities[DischargeMin].Some? ==>
            g.entities[DischargeMin] == Some(Entity(Some(ranges[v].0.lo), Some(ranges[v].0.hi))) && DischargeMin in g.changed)
      && (StartDischarge in entities && entities[StartDischarge].Some? ==>
            g.entities[StartDischarge] == Some(Entity(Some(ranges[v].1.lo), Some(ranges[v].1.hi))) && StartDischarge in g.changed)
  {
  }

  /** The two bytes of a 16-bit register value put back together give the
      value, and each fits a byte. */
  lemma SplitRoundTrip(raw: int)
    requires 0 <= raw < 65536
    ensures 0 <= HighByte(raw) < 256 && 0 <= LowByte(raw) < 256
    ensures HighByte(raw) * 256 + LowByte(raw) == raw
  {
  }

  /** The split stores both factors and changes no other key. */
  lemma SplitStores(p: Progress, raw: int)
    ensures var r := Split(p, raw);
      && Name(InverterFactor) in r.store && r.store[Name(InverterFactor)] == IntVal(HighByte(raw))
      && Name(PowerFactor) in r.store && r.store[Name(PowerFactor)] == IntVal(LowByte(raw))
      && (forall k :: k != Name(InverterFactor) && k != Name(PowerFactor) ==>
            (k in r.store <==> k in p.store) && (k in r.store ==> r.store[k] == p.store[k]))
      && p.changed <= r.changed && r.changed <= p.changed + {InverterFactor, PowerFactor}
  {
  }

  /** When every key parses, the enum check answers exactly whether the
      value is one of the keys. */
  lemma {:induction false} EnumHasSpec(e: seq<(string, string)>, target: Option<int>)
    requires forall i :: 0 <= i < |e| ==> ParseHex(e[i].0).Some?
    ensures EnumHas(e, target) == Ok(exists i :: 0 <= i < |e| && Some(ParseHex(e[i].0).value) == target)
    decreases |e|
  {
    if e != [] {
      forall i | 0 <= i < |e| - 1 ensures ParseHex(e[1..][i].0).Some? {
        assert e[1..][i] == e[i + 1];
      }
      EnumHasSpec(e[1..], target);
      if Some(ParseHex(e[0].0).value) != target {
        if exists i :: 0 <= i < |e| && Some(ParseHex(e[i].0).value) == target {
          var i :| 0 <= i < |e| && Some(ParseHex(e[i].0).value) == target;
          assert e[1..][i - 1] == e[i];
        }
        if exists i :: 0 <= i < |e[1..]| && Some(ParseHex(e[1..][i].0).value) == target {
          var i :| 0 <= i < |e[1..]| && Some(ParseHex(e[1..][i].0).value) == target;
          assert e[1..][i] == e[i + 1];
        }
      }
    }
  }

  /** An accepted AC-voltage command is a number that is an enum key and,
      once the latch holds 2 or more, is itself at least 2. */
  lemma {:induction false} AcVoltageAccepted(latch: Option<int>, value: CmdValue, info: Option<RegisterInfo>)
    requires AcVoltageCheck(latch, value, info) == Ok(true)
    ensures NumOf(value).Some? && info.Some? && info.value.enumMap.Some?
    ensures latch.Some? && latch.value >= 2 ==> NumOf(value).value >= 2
    ensures exists i :: 0 <= i < |info.value.enumMap.value| && ParseHex(info.value.enumMap.value[i].0) == NumOf(value)
  {
    EnumHasFound(info.value.enumMap.value, NumOf(value));
  }

  lemma {:induction false} EnumHasFound(e: seq<(string, string)>, target: Option<int>)
    requires EnumHas(e, target) == Ok(true)
    ensures target.Some? && exists i :: 0 <= i < |e| && ParseHex(e[i].0) == target
    decreases |e|
  {
    if Some(ParseHex(e[0].0).value) != target {
      EnumHasFound(e[1..], target);
      var i :| 0 <= i < |e[1..]| && ParseHex(e[1..][i].0) == target;
      assert e[i + 1] == e[1..][i];
    }
  }

  /** With the latch at 2 or more, a numeric value below 2 is dropped
      before the enum is consulted. */
  lemma AcVoltageFloor(latch: int, value: CmdValue, info: Option<RegisterInfo>)
    requires latch >= 2 && NumOf(value).Some? && NumOf(value).value < 2
    ensures AcVoltageCheck(Some(latch), value, info) == Ok(false)
  {
  }
}
