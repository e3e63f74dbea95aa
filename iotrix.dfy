/** The MakeSkyBlue inverter behind an IoTrix bridge: the register map sits
    at 0x300000, the device reports its firmware version in register
    0x300091, the battery bounds table differs in the 72 V row, and
    commands other than the AC voltage carry the register's write
    command. */
module IoTrix {
  import opened Wrappers
  import opened NumText
  import opened Descriptor
  import opened PluginCommon
  import opened SkyBlueCommon
  import opened Arith
  import Base

  const BridgeSegment := "makeskyblue/iotrix"
  const SlaveId := 1
  const DefaultWrite := 6

  const AcVoltageRegister := 0x300002
  const RatedVoltageRegister := 0x300007
  const VersionRegister := 0x300091
  const PowerFactorRegister := 0x30006E

  /** Battery-voltage bounds per rated voltage, in tenths of a volt. */
  const Ranges: RangeTable := map[
    "72v" := (Bounds(600, 705), Bounds(720, 880)),
    "48v" := (Bounds(400, 470), Bounds(480, 560)),
    "24v" := (Bounds(200, 235), Bounds(240, 280)),
    "12v" := (Bounds(100, 117), Bounds(120, 140))]

  // ------------------------------------------------------------- version

  function Major(v: int): nat { v / 1024 % 4 }
  function Minor(v: int): nat { v / 64 % 16 }
  function Patch(v: int): nat { v % 64 }

  /** The firmware version word as "V<major>.<minor>.<patch>", from bits
      11..10, 9..6 and 5..0. */
  function VersionText(v: int): string {
    "V" + DecText(Major(v)) + "." + DecText(Minor(v)) + "." + DecText(Patch(v))
  }

  // ----------------------------------------------------------- unpacking

  /** What one descriptor register contributes; a register without a
      sensor type contributes nothing, and switches carry their write
      command (6 by default). */
  function Entry(reg: int, d: RegisterInfo): Pick {
    if !HasUsableName(d) || d.sensorType.None? then Ok(None)
    else
      var name := d.name.value;
      var kind := d.sensorType.value;
      if kind == "sensor" then Lift(GSensor, SensorEntry(name, d))
      else if kind == "number" then Ok(Some((GNumber, NumberEntry(reg, name, d.minValue, d.maxValue, d.step.GetOr(d.scale.GetOr(1))))))
      else if kind == "select" then
        (match SelectEntry(reg, name, d)
         case Err(x) => Err(x)
         case Ok(None) => Ok(None)
         case Ok(Some(e)) => Ok(Some((GSelect, e))))
      else if kind == "switch" then Ok(Some((GSwitch, RegisterEntry(reg, name).(writeCommand := Some(d.writeCommand.GetOr(DefaultWrite))))))
      else Ok(None)
  }

  /** unpack_device_info: the descriptor's entries, then the
      inverter-factor sensor. */
  function Unpacked(pd: ProtocolData, diagnostics: bool): Result<DeviceInfo>
    requires pd.registers.WellFormed()
  {
    match Collect(pd.registers.Items(), Base.BaseDeviceInfo(diagnostics), Entry)
    case Err(x) => Err(x)
    case Ok(info) => Ok(Append(info, GSensor, Named(InverterFactor)))
  }

  // -------------------------------------------------------------- notify

  /** The version register: stored as text under its name when it has one,
      and never passed on to the generic loop. */
  function VersionStage(p: Progress, frame: RawFrame, names: map<int, string>, registered: set<string>): Progress {
    var raw := FrameGet(frame, VersionRegister);
    if raw.Some? && HasName(names, VersionRegister) then Update(p, names[VersionRegister], StrVal(VersionText(raw.value)), registered)
    else p
  }

  /** The registers the generic rule sees: all but the version and the
      combined power factor. */
  function Remaining(frame: RawFrame): RawFrame {
    Without(Without(frame, VersionRegister), PowerFactorRegister)
  }

  /** Before the generic rule: the version, then the power-factor split. */
  function Prepare(p: Progress, frame: RawFrame, names: map<int, string>, registered: set<string>): Progress {
    var p1 := VersionStage(p, frame, names, registered);
    var raw6e := FrameGet(frame, PowerFactorRegister);
    if raw6e.Some? then Split(p1, raw6e.value) else p1
  }

  /** After the gate: the version, the power-factor split, then the
      generic rule with a seen-set over what is left. */
  function AfterGate(p: Progress, frame: RawFrame, names: map<int, string>, registered: set<string>): Progress {
    GenericAll(Prepare(p, frame, names, registered), Remaining(frame), names, registered, true)
  }

  /** handle_notify: latch, gate, then the rest. */
  function Notify(p: Progress, entities: map<string, Option<Entity>>, latch: Option<int>, rated: Option<int>,
                  frame: RawFrame, names: map<int, string>, t: Table<int>): NotifyOut {
    var latch' := Latch(latch, frame, AcVoltageRegister);
    var g := GateStage(rated, entities, p.changed, frame, RatedVoltageRegister, t, Ranges);
    if g.raised.Some? then NotifyOut(p.(changed := g.changed), g.entities, latch', g.rated, g.raised)
    else NotifyOut(AfterGate(p.(changed := g.changed), frame, names, g.entities.Keys), g.entities, latch', g.rated, None)
  }

  // ------------------------------------------------------------- command

  /** The frame a command publishes and the value it then stores, or the
      exception; None when the command is dropped. */
  function Outgoing(latch: Option<int>, t: Table<int>, cmd: int, value: CmdValue): Result<Option<(Frame, Value)>> {
    if cmd == AcVoltageRegister then
      match AcVoltageCheck(latch, value, t.Get(AcVoltageRegister))
      case Err(x) => Err(x)
      case Ok(ok) =>
        if !ok || NumOf(value).None? then Ok(None)
        else Ok(Some((Packed(SlaveId, cmd, NumOf(value).value, None), IntVal(NumOf(value).value))))
    else
      match value
      case CStr(s) => Ok(Some((Verbatim(s), StrVal(s))))
      case CInt(_) | CFloat(_) =>
        var info := InfoFor(t, cmd);
        (match NumericWrite(value, info.scale.GetOr(1))
         case Err(x) => Err(x)
         case Ok(v) => Ok(Some((Packed(SlaveId, cmd, v, Some(info.writeCommand.GetOr(DefaultWrite))), IntVal(v)))))
      case _ => Ok(None)
  }

  /** The decision of handle_cmd: the AC-voltage check for register 2,
      the frame and the value to store otherwise. */
  method Decide(latch: Option<int>, t: Table<int>, cmd: int, value: CmdValue) returns (out: Result<Option<(Frame, Value)>>)
    ensures out == Outgoing(latch, t, cmd, value)
  {
    if cmd == AcVoltageRegister {
      var ok := CheckAcVoltage(latch, value, t.Get(AcVoltageRegister));
      if ok.Err? {
        return Err(ok.error);
      }
      var n := NumOf(value);
      if !ok.value || n.None? {
        return Ok(None);
      }
      out := Ok(Some((Packed(SlaveId, cmd, n.value, None), IntVal(n.value))));
    } else {
      out := Outgoing(latch, t, cmd, value);
    }
  }

  /** handle_cmd: publish, then store the value under the register's name
      when that entity is registered; refreshing an entity unregistered to
      None raises AttributeError. */
  function Command(store: map<Key, Value>, entities: map<string, Option<Entity>>, names: map<int, string>,
                   latch: Option<int>, t: Table<int>, cmd: int, value: CmdValue): CmdOut {
    match Outgoing(latch, t, cmd, value)
    case Err(x) => CmdOut(None, store, Some(x))
    case Ok(None) => CmdOut(None, store, None)
    case Ok(Some((frame, v))) => Deliver(store, entities, names, cmd, frame, v)
  }

  // --------------------------------------------------------------- device

  class IoTrixDevice {
    const dev: Base.BaseDevice
    const protocol: ProtocolData
    var registerToName: map<int, string>
    var unknown: set<int>
    var warned: seq<int>
    var rated: Option<int>
    var latch: Option<int>

    ghost predicate Valid()
      reads this`unknown, this`warned, dev`notifyTask, dev`diagnosticsTask, dev`nextHandle, dev`cancelled, dev`diagnostics, dev`diagnosticEntities
    {
      && protocol.registers.WellFormed()
      && dev.Valid()
      && WarnedOnce(unknown, warned)
    }

    constructor (sn: string, model: string, protocol: ProtocolData)
      requires protocol.registers.WellFormed()
      ensures Valid() && fresh(dev)
      ensures this.protocol == protocol && dev.sn == sn && dev.model == model && dev.topicSegment == BridgeSegment
      ensures dev.cmdTopic == Base.BuildTopic(sn, BridgeSegment, ["control", "cmd"])
      ensures registerToName == map[] && unknown == {} && warned == [] && rated.None? && latch.None?
      ensures dev.store == map[] && dev.entities == map[] && dev.outbox == []
    {
      dev := new Base.BaseDevice(sn, model, Some(BridgeSegment), true);
      this.protocol := protocol;
      registerToName := map[];
      unknown := {};
      warned := [];
      rated := None;
      latch := None;
    }

    /** send_config: only the segments, on the device's config topic. */
    method SendConfig()
      modifies dev`outbox
      ensures dev.outbox == old(dev.outbox) + [Base.Message(dev.Topic(["config"]), Base.Config(map[], protocol.segments))]
    {
      dev.Publish(dev.Topic(["config"]), Base.Config(map[], protocol.segments));
    }

    method UnpackDeviceInfo() returns (r: Result<DeviceInfo>)
      requires Valid()
      modifies this`registerToName
      ensures Valid()
      ensures r == Unpacked(protocol, dev.diagnosticsEnabled)
      ensures registerToName == NameMap(protocol.registers.Items(), true)
    {
      registerToName := BuildNameMap(protocol.registers.Items(), true);
      r := CollectLoop(protocol.registers.Items(), Base.BaseDeviceInfo(dev.diagnosticsEnabled), Entry);
      if r.Ok? {
        r := Ok(Append(r.value, GSensor, Named(InverterFactor)));
      }
    }

    /** handle_notify on a decoded frame; an exception from the gate ends it
        before the store is touched and before the timer is reset. */
    method HandleNotify(frame: RawFrame) returns (refreshed: set<string>, raised: Option<Raised>)
      requires Valid() && DistinctRegs(frame)
      modifies dev`store, dev`entities, dev`notifyTask, dev`nextHandle, dev`cancelled
      modifies this`unknown, this`warned, this`rated, this`latch
      ensures Valid()
      ensures var o := Notify(Progress(old(dev.store), {}, old(unknown), old(warned)), old(dev.entities), old(latch), old(rated),
                              frame, registerToName, protocol.registers);
        && dev.store == o.p.store && unknown == o.p.unknown && warned == o.p.warned
        && dev.entities == o.entities && latch == o.latch && rated == o.rated && raised == o.raised
        && (raised.None? ==> (refreshed == Refreshed(o.p.changed, dev.entities) &&
              dev.notifyTask == Some(old(dev.nextHandle)) && dev.nextHandle == old(dev.nextHandle) + 1))
        && (raised.Some? ==> refreshed == {} && dev.notifyTask == old(dev.notifyTask) && dev.nextHandle == old(dev.nextHandle))
    {
      var changed;
      changed, raised := LatchAndGate(frame);
      if raised.Some? {
        return {}, raised;
      }
      refreshed := FinishNotify(frame, changed);
    }

    method LatchAndGate(frame: RawFrame) returns (changed: set<string>, raised: Option<Raised>)
      modifies dev`entities, this`rated, this`latch
      ensures var g := GateStage(old(rated), old(dev.entities), {}, frame, RatedVoltageRegister, protocol.registers, Ranges);
        && latch == Latch(old(latch), frame, AcVoltageRegister)
        && rated == g.rated && changed == g.changed && dev.entities == g.entities && raised == g.raised
    {
      latch := Latch(latch, frame, AcVoltageRegister);
      changed := {};
      raised := None;
      var raw7 := FrameGet(frame, RatedVoltageRegister);
      if raw7.Some? {
        rated, changed, raised := RunGate(dev, rated, changed, raw7.value, protocol.registers.Get(RatedVoltageRegister), Ranges);
      }
    }

    method FinishNotify(frame: RawFrame, changed: set<string>) returns (refreshed: set<string>)
      requires Valid() && DistinctRegs(frame)
      modifies dev`store, dev`notifyTask, dev`nextHandle, dev`cancelled, this`unknown, this`warned
      ensures Valid()
      ensures var q := AfterGate(Progress(old(dev.store), changed, old(unknown), old(warned)), frame, registerToName, dev.entities.Keys);
        && dev.store == q.store && unknown == q.unknown && warned == q.warned && refreshed == Refreshed(q.changed, dev.entities)
        && dev.notifyTask == Some(old(dev.nextHandle)) && dev.nextHandle == old(dev.nextHandle) + 1
    {
      var p := Prepare(Progress(dev.store, changed, unknown, warned), frame, registerToName, dev.entities.Keys);
      GenericAllUnknown(p, Remaining(frame), registerToName, dev.entities.Keys, true);
      dev.store := p.store;
      var c;
      c, unknown, warned := NotifyLoop(dev, Remaining(frame), registerToName, true, p.changed, p.unknown, p.warned);
      refreshed := Refreshed(c, dev.entities);
      dev.ResetNotifyTimer();
    }

    method HandleCmd(cmd: int, value: CmdValue) returns (raised: Option<Raised>)
      requires Valid()
      modifies dev`store, dev`outbox
      ensures Valid()
      ensures var o := Command(old(dev.store), dev.entities, registerToName, latch, protocol.registers, cmd, value);
        && dev.store == o.store && raised == o.raised
        && dev.outbox == old(dev.outbox) + (if o.sent.Some? then [Base.Message(dev.cmdTopic, Base.Command(o.sent.value))] else [])
    {
      var out := Decide(latch, protocol.registers, cmd, value);
      if out.Err? {
        return Some(out.error);
      }
      if out.value.None? {
        return None;
      }
      var (frame, v) := out.value.value;
      dev.Publish(dev.cmdTopic, Base.Command(frame));
      raised := None;
      if HasName(registerToName, cmd) && registerToName[cmd] in dev.entities {
        dev.store := dev.store[Name(registerToName[cmd]) := v];
        if dev.entities[registerToName[cmd]].None? {
          raised := Some(AttributeError);
        }
      }
    }
  }

  // ---------------------------------------------------------------- lemmas

  /** The version text splits into three decimal fields that read back as
      the version's major, minor and patch, which together are the low
      twelve bits of the word. */
  lemma VersionRoundTrip(v: int)
    ensures var s := VersionText(v);
      && |s| >= 1 && s[0] == 'V'
      && Fields(s[1..], '.') == [DecText(Major(v)), DecText(Minor(v)), DecText(Patch(v))]
      && ParseDecimal(DecText(Major(v))) == Some(Major(v))
      && ParseDecimal(DecText(Minor(v))) == Some(Minor(v))
      && ParseDecimal(DecText(Patch(v))) == Some(Patch(v))
      && Major(v) < 4 && Minor(v) < 16 && Patch(v) < 64
      && Major(v) * 1024 + Minor(v) * 64 + Patch(v) == v % 4096
  {
    Dotted(Major(v), Minor(v), Patch(v));
    assert VersionText(v)[1..] == DecText(Major(v)) + "." + DecText(Minor(v)) + "." + DecText(Patch(v));
    VersionBits(v);
  }

  /** Three decimals joined by dots split back into those decimals. */
  lemma Dotted(x: nat, y: nat, z: nat)
    ensures Fields(DecText(x) + "." + DecText(y) + "." + DecText(z), '.') == [DecText(x), DecText(y), DecText(z)]
    ensures ParseDecimal(DecText(x)) == Some(x) && ParseDecimal(DecText(y)) == Some(y) && ParseDecimal(DecText(z)) == Some(z)
  {
    var a, b, c := DecText(x), DecText(y), DecText(z);
    NoDot(x);
    NoDot(y);
    NoDot(z);
    DecTextParses(x);
    DecTextParses(y);
    DecTextParses(z);
    FieldsNoSep(c, '.');
    FieldsSplit(b, '.', c);
    FieldsSplit(a, '.', b + "." + c);
    assert a + "." + b + "." + c == a + "." + (b + "." + c);
  }

  lemma NoDot(n: nat)
    ensures forall i :: 0 <= i < |DecText(n)| ==> DecText(n)[i] != '.'
  {
    DigitsRoundTrip(n, 10);
    forall i | 0 <= i < |DecText(n)| ensures DecText(n)[i] != '.' {
      assert IsHexDigit(DecText(n)[i]) && HexDigitValue(DecText(n)[i]) < 10;
    }
  }

  lemma VersionBits(v: int)
    ensures Major(v) * 1024 + Minor(v) * 64 + Patch(v) == v % 4096
  {
    DivDiv(v, 64, 16);
    DivDiv(v, 1024, 4);
    var x, y, z := v / 64, v / 1024, v / 4096;
    assert v == x * 64 + v % 64;
    assert x == y * 16 + x % 16;
    assert y == z * 4 + y % 4;
    DivUnique(v, 4096, z, Major(v) * 1024 + Minor(v) * 64 + Patch(v));
  }

  /** Entries follow their sensor type, with no default: a register
      without one contributes nothing. */
  lemma EntrySpec(reg: int, d: RegisterInfo)
    ensures d.sensorType.None? ==> Entry(reg, d) == Ok(None)
    ensures Entry(reg, d).Ok? && Entry(reg, d).value.Some? ==>
      var (g, e) := Entry(reg, d).value.value;
      && HasUsableName(d) && e.name == d.name.value
      && (g == GSensor <==> d.sensorType == Some("sensor"))
      && (g == GSwitch ==> e.register == Some(reg) && e.writeCommand == Some(d.writeCommand.GetOr(DefaultWrite)))
  {
  }

  /** A notification that clears the gate never hands the version or the
      combined power-factor register to the generic rule: neither is
      recorded as unknown. */
  lemma NotifySkipsSpecial(p: Progress, entities: map<string, Option<Entity>>, latch: Option<int>, rated: Option<int>,
                           frame: RawFrame, names: map<int, string>, t: Table<int>)
    requires DistinctRegs(frame) && WarnedOnce(p.unknown, p.warned)
    requires VersionRegister !in p.unknown && PowerFactorRegister !in p.unknown
    ensures var o := Notify(p, entities, latch, rated, frame, names, t);
      && WarnedOnce(o.p.unknown, o.p.warned)
      && VersionRegister !in o.p.unknown && PowerFactorRegister !in o.p.unknown
  {
    var g := GateStage(rated, entities, p.changed, frame, RatedVoltageRegister, t, Ranges);
    if g.raised.None? {
      AfterGateSkipsSpecial(p.(changed := g.changed), frame, names, g.entities.Keys);
    }
  }

  lemma AfterGateSkipsSpecial(p: Progress, frame: RawFrame, names: map<int, string>, registered: set<string>)
    requires WarnedOnce(p.unknown, p.warned)
    requires VersionRegister !in p.unknown && PowerFactorRegister !in p.unknown
    ensures var q := AfterGate(p, frame, names, registered);
      && WarnedOnce(q.unknown, q.warned)
      && VersionRegister !in q.unknown && PowerFactorRegister !in q.unknown
  {
    var p2 := Prepare(p, frame, names, registered);
    var last := Remaining(frame);
    GenericAllUnknown(p2, last, names, registered, true);
    forall i | 0 <= i < |last| ensures last[i].0 != VersionRegister && last[i].0 != PowerFactorRegister {
      assert last[i] in last;
      assert last[i] in Without(frame, VersionRegister);
    }
  }

  /** An accepted AC-voltage command carries a number, sent without a
      write command. */
  lemma AcVoltageSends(store: map<Key, Value>, entities: map<string, Option<Entity>>, names: map<int, string>,
                       latch: Option<int>, t: Table<int>, value: CmdValue)
    requires AcVoltageCheck(latch, value, t.Get(AcVoltageRegister)) == Ok(true)
    ensures NumOf(value).Some?
    ensures Command(store, entities, names, latch, t, AcVoltageRegister, value).sent == Some(Packed(SlaveId, AcVoltageRegister, NumOf(value).value, None))
  {
    if !(latch.Some? && latch.value >= 2 && (NumOf(value).None? || NumOf(value).value < 2)) {
      EnumHasFound(t.Get(AcVoltageRegister).value.enumMap.value, NumOf(value));
    }
  }

  /** Any other command goes out with the register's write command (6 by
      default), and what it stores is exactly the value sent. */
  lemma CommandSends(store: map<Key, Value>, entities: map<string, Option<Entity>>, names: map<int, string>,
                     latch: Option<int>, t: Table<int>, cmd: int, i: int)
    requires cmd != AcVoltageRegister
    ensures var o := Command(store, entities, names, latch, t, cmd, CInt(i));
      && o.sent == Some(Packed(SlaveId, cmd, i, Some(InfoFor(t, cmd).writeCommand.GetOr(DefaultWrite))))
      && (HasName(names, cmd) && names[cmd] in entities ==> o.store == store[Name(names[cmd]) := IntVal(i)])
      && (!(HasName(names, cmd) && names[cmd] in entities) ==> o.store == store && o.raised.None?)
  {
  }
}
