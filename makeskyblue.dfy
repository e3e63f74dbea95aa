/** The MakeSkyBlue solar inverter plugin. Besides the generic register
    rule it decodes the four forced charge/discharge schedule registers
    (hour:5 | minute:6 | interval-days:5), exposes the interval days of the
    two start registers as pseudo-registers 0x10020 and 0x10022 whose
    writes go to the target register with the stored time kept, splits the
    power-factor register 0x6E into two bytes, rewrites the battery-voltage
    bounds from the rated voltage in register 7, latches the first AC
    voltage of register 2, and packs the current time into two words. */
module MakeSkyBlue {
  import opened Wrappers
  import opened NumText
  import opened Descriptor
  import opened PluginCommon
  import opened SkyBlueCommon
  import opened Arith
  import Base

  /** The schedule registers and the names they are stored under. */
  const SpecialNames: map<int, string> := map[
    0x20 := "scheduled_force_charge_start_time",
    0x21 := "scheduled_force_charge_end_time",
    0x22 := "scheduled_force_discharge_start_time",
    0x23 := "scheduled_force_discharge_end_time"]

  const ChargeInterval := "force_charge_interval"
  const DischargeInterval := "force_discharge_interval"

  /** Pseudo-register -> (interval name, target register). */
  const PseudoRegisters: map<int, (string, int)> := map[
    0x10020 := (ChargeInterval, 0x20),
    0x10022 := (DischargeInterval, 0x22)]

  /** Commands that go through the schedule logic. */
  const TimeCommands: set<int> := {0x20, 0x22, 0x10020, 0x10022}

  const AcVoltageRegister := 0x02
  const RatedVoltageRegister := 0x07
  const PowerFactorRegister := 0x6E
  const NetworkTimeHigh := 0x1E
  const NetworkTimeLow := 0x1F

  /** Battery-voltage bounds per rated voltage, in tenths of a volt. */
  const Ranges: RangeTable := map[
    "72V" := (Bounds(600, 705), Bounds(720, 840)),
    "48V" := (Bounds(400, 470), Bounds(480, 560)),
    "24V" := (Bounds(200, 235), Bounds(240, 280)),
    "12V" := (Bounds(100, 117), Bounds(120, 140))]

  // ------------------------------------------------------ schedule words

  datatype Schedule = Schedule(hour: nat, minute: nat, interval: nat)

  /** A schedule register: hour in bits 15..11, minute in bits 10..5,
      interval days in bits 4..0; None for a time of day that does not exist. */
  function DecodeSchedule(v: int): (r: Option<Schedule>)
    ensures r.Some? ==> r.value.hour <= 23 && r.value.minute <= 59 && r.value.interval <= 31
  {
    var hour := v / 2048 % 32;
    var minute := v / 32 % 64;
    var interval := v % 32;
    if hour <= 23 && minute <= 59 then Some(Schedule(hour, minute, interval)) else None
  }

  /** The stored form of a decoded schedule: "HH:MM" and the interval. */
  function SchedValue(s: Schedule): Value
    requires s.hour <= 23 && s.minute <= 59
  {
    SchedVal(ClockText(s.hour, s.minute), s.interval)
  }

  /** The command-side packing of a schedule register, each field masked
      to its width. */
  function EncodeSchedule(hour: int, minute: int, interval: int): int {
    (hour % 32) * 2048 + (minute % 64) * 32 + interval % 32
  }

  /** The time entity's command value: hour in the high byte, minute in the
      low byte. */
  function TimeHour(v: int): int { v / 256 % 256 }
  function TimeMinute(v: int): int { v % 256 }

  /** The interval name that shadows a target start register. */
  function IntervalName(target: int): string {
    if target == 0x20 then ChargeInterval else DischargeInterval
  }

  // --------------------------------------------------------- network time

  datatype DateTime = DateTime(year: int, month: int, day: int, hour: int, minute: int, second: int)

  /** The 32-bit network time: year-2024 in bits 31..26, month 25..22, day
      21..17, hour 16..12, minute 11..6, second 5..0; None for a date the
      device cannot hold. */
  function NetworkTime(dt: DateTime): Option<int> {
    var year := dt.year - 2024;
    if !(0 <= year <= 63 && 1 <= dt.month <= 12 && 1 <= dt.day <= 31) then None
    else Some(year % 64 * 0x400_0000 + dt.month % 16 * 0x40_0000 + dt.day % 32 * 0x2_0000
              + dt.hour % 32 * 0x1000 + dt.minute % 64 * 0x40 + dt.second % 64)
  }

  /** What _send_network_time publishes on the command topic: the high
      word of the network time to 0x1E, then the low word to 0x1F; nothing
      for a date out of range. */
  function TimeMessages(topic: string, slave: int, now: DateTime): seq<Base.Message> {
    match NetworkTime(now)
    case None => []
    case Some(packed) =>
      [Base.Message(topic, Base.Command(Packed(slave, NetworkTimeHigh, packed / 0x1_0000 % 0x1_0000, None))),
       Base.Message(topic, Base.Command(Packed(slave, NetworkTimeLow, packed % 0x1_0000, None)))]
  }

  // ----------------------------------------------------------- unpacking

  /** What one descriptor register contributes: the schedule registers are
      time entities whatever their type; otherwise sensors (the default),
      numbers, selects with their options, switches and time entities. */
  function Entry(reg: int, d: RegisterInfo): Pick {
    if !HasUsableName(d) then Ok(None)
    else
      var name := d.name.value;
      var kind := if reg in SpecialNames then "time" else d.sensorType.GetOr("sensor");
      if kind == "sensor" then Lift(GSensor, SensorEntry(name, d))
      else if kind == "number" then Ok(Some((GNumber, NumberEntry(reg, name, d.minValue, d.maxValue, d.step.GetOr(d.scale.GetOr(1))))))
      else if kind == "select" then
        (match SelectEntry(reg, name, d)
         case Err(x) => Err(x)
         case Ok(None) => Ok(None)
         case Ok(Some(e)) => Ok(Some((GSelect, e))))
      else if kind == "switch" then Ok(Some((GSwitch, RegisterEntry(reg, name))))
      else if kind == "time" then Ok(Some((GTime, RegisterEntry(reg, name))))
      else Ok(None)
  }

  /** The entries added after the descriptor's: the inverter-factor sensor
      and the two interval numbers on their pseudo-registers. */
  function WithExtras(info: DeviceInfo): DeviceInfo {
    var s := Append(info, GSensor, Named(InverterFactor));
    var n := Append(s, GNumber, NumberEntry(0x10020, ChargeInterval, Some(0), Some(31), 1));
    Append(n, GNumber, NumberEntry(0x10022, DischargeInterval, Some(0), Some(31), 1))
  }

  /** unpack_device_info: the serial settings must be present, then the
      descriptor's entries, then the extras. */
  function Unpacked(pd: ProtocolData, diagnostics: bool): Result<DeviceInfo>
    requires pd.registers.WellFormed()
  {
    if pd.slaveId.None? || pd.readCommand.None? || pd.writeCommand.None? then Err(KeyError)
    else
      match Collect(pd.registers.Items(), Base.BaseDeviceInfo(diagnostics), Entry)
      case Err(x) => Err(x)
      case Ok(info) => Ok(WithExtras(info))
  }

  /** The result of unpack_device_info: KeyError for a missing serial
      setting, else the collected entries and the extras. */
  method CollectEntries(pd: ProtocolData, diagnostics: bool) returns (r: Result<DeviceInfo>)
    requires pd.registers.WellFormed()
    ensures r == Unpacked(pd, diagnostics)
  {
    if pd.slaveId.None? || pd.readCommand.None? || pd.writeCommand.None? {
      return Err(KeyError);
    }
    r := CollectLoop(pd.registers.Items(), Base.BaseDeviceInfo(diagnostics), Entry);
    if r.Ok? {
      r := Ok(WithExtras(r.value));
    }
  }

  // -------------------------------------------------------------- notify

  /** The interval of a start register, stored only when its number entity
      is registered. */
  function IntervalOf(reg: int): Option<string> {
    if reg == 0x20 then Some(ChargeInterval) else if reg == 0x22 then Some(DischargeInterval) else None
  }

  /** One schedule register of a notification. */
  function SpecialStep(p: Progress, reg: int, v: int, registered: set<string>): Progress
    requires reg in SpecialNames
  {
    match DecodeSchedule(v)
    case None => p
    case Some(s) =>
      var q := Update(p, SpecialNames[reg], SchedValue(s), registered);
      var iname := IntervalOf(reg);
      if iname.Some? && iname.value in registered then Update(q, iname.value, IntVal(s.interval), registered) else q
  }

  /** One register of the notification loop: schedule registers decoded,
      the rest by the generic rule with a seen-set. */
  function Step(p: Progress, reg: int, v: int, names: map<int, string>, registered: set<string>): Progress {
    if reg in SpecialNames then SpecialStep(p, reg, v, registered) else Generic(p, reg, IntVal(v), names, registered, true)
  }

  function Steps(p: Progress, frame: RawFrame, names: map<int, string>, registered: set<string>): Progress
    decreases |frame|
  {
    if frame == [] then p else Steps(Step(p, frame[0].0, frame[0].1, names, registered), frame[1..], names, registered)
  }

  /** After the gate: split 0x6E into its two factors, then the loop over
      the other registers. */
  function AfterGate(p: Progress, frame: RawFrame, names: map<int, string>, registered: set<string>): Progress {
    var raw6e := FrameGet(frame, PowerFactorRegister);
    var p2 := if raw6e.Some? then Split(p, raw6e.value) else p;
    Steps(p2, Without(frame, PowerFactorRegister), names, registered)
  }

  /** handle_notify: latch register 2, run the rated-voltage gate on
      register 7, split 0x6E and drop it, then the per-register loop. */
  function Notify(p: Progress, entities: map<string, Option<Entity>>, latch: Option<int>, rated: Option<int>,
                  frame: RawFrame, names: map<int, string>, t: Table<int>): NotifyOut {
    var latch' := Latch(latch, frame, AcVoltageRegister);
    var g := GateStage(rated, entities, p.changed, frame, RatedVoltageRegister, t, Ranges);
    if g.raised.Some? then NotifyOut(p.(changed := g.changed), g.entities, latch', g.rated, g.raised)
    else NotifyOut(AfterGate(p.(changed := g.changed), frame, names, g.entities.Keys), g.entities, latch', g.rated, None)
  }

  /** The notification loop over the registers that remain. */
  method StepsLoop(p: Progress, frame: RawFrame, names: map<int, string>, registered: set<string>) returns (q: Progress)
    ensures q == Steps(p, frame, names, registered)
  {
    var store, changed, unknown, warned := p.store, p.changed, p.unknown, p.warned;
    var i := 0;
    while i < |frame|
      invariant 0 <= i <= |frame|
      invariant Steps(Progress(store, changed, unknown, warned), frame[i..], names, registered) == Steps(p, frame, names, registered)
    {
      var (reg, v) := frame[i];
      if reg in SpecialNames {
        var sched := DecodeSchedule(v);
        if sched.Some? {
          var name := SpecialNames[reg];
          var val := SchedValue(sched.value);
          if !(Name(name) in store && store[Name(name)] == val) {
            store := store[Name(name) := val];
            if name in registered {
              changed := changed + {name};
            }
          }
          var iname := IntervalOf(reg);
          if iname.Some? && iname.value in registered {
            var days := IntVal(sched.value.interval);
            if !(Name(iname.value) in store && store[Name(iname.value)] == days) {
              store := store[Name(iname.value) := days];
              changed := changed + {iname.value};
            }
          }
        }
      } else if reg in names && names[reg] != "" {
        var name := names[reg];
        if !(Name(name) in store && store[Name(name)] == IntVal(v)) {
          store := store[Name(name) := IntVal(v)];
          if name in registered {
            changed := changed + {name};
          }
        }
      } else if reg !in unknown {
        unknown := unknown + {reg};
        warned := warned + [reg];
      }
      assert frame[i..][1..] == frame[i + 1..];
      i := i + 1;
    }
    assert frame[i..] == [];
    q := Progress(store, changed, unknown, warned);
  }

  // ------------------------------------------------------------- command

  /** The schedule part of a command to 0x20, 0x22 or a pseudo-register:
      None when the command is dropped, else the frame and the new store
      (or an exception). */
  function ScheduleCmd(store: map<Key, Value>, entities: map<string, Option<Entity>>, names: map<int, string>,
                       slave: int, cmd: int, value: CmdValue): Option<CmdOut>
    requires cmd in TimeCommands
  {
    var target := if cmd in {0x20, 0x22} then cmd else PseudoRegisters[cmd].1;
    if target !in names || names[target] == "" then None
    else
      var entity := names[target];
      var current := if Name(entity) in store then Some(store[Name(entity)]) else None;
      if current.Some? && !current.value.SchedVal? then Some(CmdOut(None, store, Some(AttributeError)))
      else
        var storedInterval := if current.Some? then current.value.intervalDays else 0;
        var storedTime := if current.Some? then current.value.time else "00:00";
        var hm: Result<Option<(int, int, int)>> :=
          if cmd in {0x20, 0x22} then
            if !value.CInt? || value.i > 0xFFFF then Ok(None)
            else if TimeHour(value.i) <= 23 && TimeMinute(value.i) <= 59 then Ok(Some((TimeHour(value.i), TimeMinute(value.i), storedInterval)))
            else Ok(None)
          else
            if !value.CInt? || !(0 <= value.i <= 31) then Ok(None)
            else if ':' !in storedTime then Ok(Some((0, 0, value.i)))
            else
              match ParseClock(storedTime)
              case None => Err(ValueError)
              case Some((h, m)) => if h <= 23 && m <= 59 then Ok(Some((h, m, value.i))) else Ok(None);
        match hm
        case Err(x) => Some(CmdOut(None, store, Some(x)))
        case Ok(None) => None
        case Ok(Some((h, m, iv))) =>
          var store' := store[Name(entity) := SchedVal(ClockText(h, m), iv)][Name(IntervalName(target)) := IntVal(iv)];
          var bad := (entity in entities && entities[entity].None?) || (IntervalName(target) in entities && entities[IntervalName(target)].None?);
          if bad then Some(CmdOut(None, store', Some(AttributeError)))
          else Some(CmdOut(Some(Packed(slave, target, EncodeSchedule(h, m, iv), None)), store', None))
  }

  /** The whole of handle_cmd. */
  function Command(store: map<Key, Value>, entities: map<string, Option<Entity>>, names: map<int, string>,
                   latch: Option<int>, t: Table<int>, slave: int, cmd: int, value0: CmdValue): CmdOut {
    var dropped := CmdOut(None, store, None);
    if cmd in {0x21, 0x23} && !value0.CInt? then CmdOut(None, store, Some(TypeError))
    else
      var value := if cmd in {0x21, 0x23} then CInt(EncodeSchedule(TimeHour(value0.i), TimeMinute(value0.i), 0)) else value0;
      var sched := if cmd in TimeCommands then ScheduleCmd(store, entities, names, slave, cmd, value) else None;
      if cmd in TimeCommands && sched.None? then dropped
      else if sched.Some? && sched.value.raised.Some? then sched.value
      else
        var check := if cmd == AcVoltageRegister then AcVoltageCheck(latch, value, t.Get(AcVoltageRegister)) else Ok(true);
        if check.Err? then CmdOut(None, store, Some(check.error))
        else if check == Ok(false) then dropped
        else
          var st := if sched.Some? then sched.value.store else store;
          var scale := InfoFor(t, cmd).scale.GetOr(1);
          var out: Option<(Frame, Option<int>)> :=
            match value
            case CStr(s) => Some((Verbatim(s), None))
            case CInt(i) => Some((if sched.Some? then sched.value.sent.value else Packed(slave, cmd, i, None), Some(i)))
            case CFloat(f) => if scale == 0 then None else Some((Packed(slave, cmd, TruncDiv(f, scale), None), Some(TruncDiv(f, scale))))
            case _ => None;
          if value.CFloat? && scale == 0 then CmdOut(None, st, Some(ZeroDivisionError))
          else if out.None? then CmdOut(None, st, None)
          else
            var (frame, written) := out.value;
            if written.None? || cmd in TimeCommands then CmdOut(Some(frame), st, None)
            else
              var st' := st[Reg(cmd) := IntVal(written.value)];
              var bad := cmd in names && names[cmd] != "" && names[cmd] in entities && entities[names[cmd]].None?;
              CmdOut(Some(frame), st', if bad then Some(AttributeError) else None)
  }

  // --------------------------------------------------------------- device

  class MakeSkyBlueDevice {
    const dev: Base.BaseDevice
    const protocol: ProtocolData
    var slaveId: int
    var readCommand: int
    var writeCommand: int
    var registerToName: map<int, string>
    var unknown: set<int>
    var warned: seq<int>
    /** The last raw rated-voltage reading. */
    var rated: Option<int>
    /** The first AC-voltage reading. */
    var latch: Option<int>

    ghost predicate Valid()
      reads this`unknown, this`warned, dev`notifyTask, dev`diagnosticsTask, dev`nextHandle, dev`cancelled, dev`diagnostics, dev`diagnosticEntities
    {
      && protocol.registers.WellFormed()
      && dev.Valid()
      && WarnedOnce(unknown, warned)
    }

    constructor (sn: string, model: string, protocol: ProtocolData)
      requires protocol.registers.WellFormed()
      ensures Valid() && fresh(dev)
      ensures this.protocol == protocol && dev.sn == sn && dev.model == model
      ensures slaveId == 1 && readCommand == 3 && writeCommand == 6
      ensures dev.cmdTopic == sn + "/control/cmd"
      ensures registerToName == map[] && unknown == {} && warned == [] && rated.None? && latch.None?
      ensures dev.store == map[] && dev.entities == map[] && dev.outbox == []
    {
      dev := new Base.BaseDevice(sn, model, None, true);
      this.protocol := protocol;
      slaveId := 1;
      readCommand := 3;
      writeCommand := 6;
      registerToName := map[];
      unknown := {};
      warned := [];
      rated := None;
      latch := None;
      new;
      dev.cmdTopic := sn + "/control/cmd";
    }

    /** _send_network_time: the packed time as two register writes, high
        word to 0x1E and low word to 0x1F; nothing for a date out of range. */
    method SendNetworkTime(now: DateTime)
      modifies dev`outbox
      ensures NetworkTime(now).None? ==> dev.outbox == old(dev.outbox)
      ensures NetworkTime(now).Some? ==> dev.outbox == old(dev.outbox) + [
        Base.Message(dev.cmdTopic, Base.Command(Packed(slaveId, NetworkTimeHigh, NetworkTime(now).value / 0x1_0000 % 0x1_0000, None))),
        Base.Message(dev.cmdTopic, Base.Command(Packed(slaveId, NetworkTimeLow, NetworkTime(now).value % 0x1_0000, None)))]
      ensures dev.outbox == old(dev.outbox) + TimeMessages(dev.cmdTopic, slaveId, now)
    {
      var packed := NetworkTime(now);
      if packed.None? {
        return;
      }
      dev.Publish(dev.cmdTopic, Base.Command(Packed(slaveId, NetworkTimeHigh, packed.value / 0x1_0000 % 0x1_0000, None)));
      dev.Publish(dev.cmdTopic, Base.Command(Packed(slaveId, NetworkTimeLow, packed.value % 0x1_0000, None)));
    }

    /** send_config: the serial settings and segments to sn/config, then the
        network time. */
    method SendConfig(now: DateTime)
      modifies dev`outbox
      ensures var config := Base.Message(dev.sn + "/config", Base.Config(
          map["slave_id" := JInt(slaveId), "read_command" := JInt(readCommand), "write_command" := JInt(writeCommand)], protocol.segments));
        dev.outbox == old(dev.outbox) + [config] + TimeMessages(dev.cmdTopic, slaveId, now)
    {
      dev.Publish(dev.sn + "/config", Base.Config(
        map["slave_id" := JInt(slaveId), "read_command" := JInt(readCommand), "write_command" := JInt(writeCommand)], protocol.segments));
      SendNetworkTime(now);
    }

    /** unpack_device_info: read the serial settings (a missing one raises
        KeyError after the ones before it were taken), name the registers,
        collect the entries and add the extras. */
    method UnpackDeviceInfo() returns (r: Result<DeviceInfo>)
      requires Valid()
      modifies this`slaveId, this`readCommand, this`writeCommand, this`registerToName
      ensures Valid()
      ensures r == Unpacked(protocol, dev.diagnosticsEnabled)
      ensures slaveId == protocol.slaveId.GetOr(old(slaveId))
      ensures readCommand == (if protocol.slaveId.Some? then protocol.readCommand.GetOr(old(readCommand)) else old(readCommand))
      ensures writeCommand == (if protocol.slaveId.Some? && protocol.readCommand.Some? then protocol.writeCommand.GetOr(old(writeCommand)) else old(writeCommand))
      ensures protocol.slaveId.None? || protocol.readCommand.None? || protocol.writeCommand.None? ==> registerToName == old(registerToName)
      ensures protocol.slaveId.Some? && protocol.readCommand.Some? && protocol.writeCommand.Some? ==>
        registerToName == NameMap(protocol.registers.Items(), true)
    {
      var s, rc, wc, names := slaveId, readCommand, writeCommand, registerToName;
      if protocol.slaveId.Some? {
        s := protocol.slaveId.value;
        if protocol.readCommand.Some? {
          rc := protocol.readCommand.value;
          if protocol.writeCommand.Some? {
            wc := protocol.writeCommand.value;
            names := BuildNameMap(protocol.registers.Items(), true);
          }
        }
      }
      slaveId, readCommand, writeCommand, registerToName := s, rc, wc, names;
      r := CollectEntries(protocol, dev.diagnosticsEnabled);
    }

    /** handle_notify on a decoded frame. An exception from the gate ends
        the handler before the store is touched and before the timer is
        reset; otherwise the changed entities are refreshed and the
        notify-clear timer restarts. */
    method HandleNotify(frame: RawFrame) returns (refreshed: set<string>, raised: Option<Raised>)
      requires Valid() && DistinctRegs(frame)
      modifies dev`store, dev`entities, dev`notifyTask, dev`nextHandle, dev`cancelled
      modifies this`unknown, this`warned, this`rated, this`latch
      ensures Valid()
      ensures var o := Notify(Progress(old(dev.store), {}, old(unknown), old(warned)), old(dev.entities), old(latch), old(rated),
                              frame, registerToName, protocol.registers);
        && dev.store == o.p.store && unknown == o.p.unknown && warned == o.p.warned
        && dev.entities == o.entities && latch == o.latch && rated == o.rated && raised == o.raised
        && (raised.None? ==> (refreshed == Refreshed(o.p.changed, dev.entities) &&
              dev.notifyTask == Some(old(dev.nextHandle)) && dev.nextHandle == old(dev.nextHandle) + 1))
        && (raised.Some? ==> refreshed == {} && dev.notifyTask == old(dev.notifyTask) && dev.nextHandle == old(dev.nextHandle))
    {
      NotifyUnknown(Progress(dev.store, {}, unknown, warned), dev.entities, latch, rated, frame, registerToName, protocol.registers);
      var changed;
      changed, raised := LatchAndGate(frame);
      if raised.Some? {
        return {}, raised;
      }
      refreshed := FinishNotify(frame, changed);
    }

    /** The first half of handle_notify: the AC-voltage latch and the
        rated-voltage gate. */
    method LatchAndGate(frame: RawFrame) returns (changed: set<string>, raised: Option<Raised>)
      modifies dev`entities, this`rated, this`latch
      ensures var g := GateStage(old(rated), old(dev.entities), {}, frame, RatedVoltageRegister, protocol.registers, Ranges);
        && latch == Latch(old(latch), frame, AcVoltageRegister)
        && rated == g.rated && changed == g.changed && dev.entities == g.entities && raised == g.raised
    {
      latch := Latch(latch, frame, AcVoltageRegister);
      changed := {};
      raised := None;
      var raw7 := FrameGet(frame, RatedVoltageRegister);
      if raw7.Some? {
        rated, changed, raised := RunGate(dev, rated, changed, raw7.value, protocol.registers.Get(RatedVoltageRegister), Ranges);
      }
    }

    /** The second half of handle_notify: the power-factor split, the
        register loop and the timer reset. */
    method FinishNotify(frame: RawFrame, changed: set<string>) returns (refreshed: set<string>)
      requires Valid()
      modifies dev`store, dev`notifyTask, dev`nextHandle, dev`cancelled, this`unknown, this`warned
      ensures Valid()
      ensures var q := AfterGate(Progress(old(dev.store), changed, old(unknown), old(warned)), frame, registerToName, dev.entities.Keys);
        && dev.store == q.store && unknown == q.unknown && warned == q.warned && refreshed == Refreshed(q.changed, dev.entities)
        && dev.notifyTask == Some(old(dev.nextHandle)) && dev.nextHandle == old(dev.nextHandle) + 1
    {
      var p := Progress(dev.store, changed, unknown, warned);
      var raw6e := FrameGet(frame, PowerFactorRegister);
      if raw6e.Some? {
        p := Split(p, raw6e.value);
      }
      StepsUnknown(p, Without(frame, PowerFactorRegister), registerToName, dev.entities.Keys);
      p := StepsLoop(p, Without(frame, PowerFactorRegister), registerToName, dev.entities.Keys);
      dev.store, unknown, warned := p.store, p.unknown, p.warned;
      refreshed := Refreshed(p.changed, dev.entities);
      dev.ResetNotifyTimer();
    }

    /** handle_cmd: the decision is Command; the frame (if any) is published
        and the store takes the values the command wrote. */
    method HandleCmd(cmd: int, value: CmdValue) returns (raised: Option<Raised>)
      requires Valid()
      modifies dev`store, dev`outbox
      ensures Valid()
      ensures var o := Command(old(dev.store), dev.entities, registerToName, latch, protocol.registers, slaveId, cmd, value);
        && dev.store == o.store && raised == o.raised
        && dev.outbox == old(dev.outbox) + (if o.sent.Some? then [Base.Message(dev.cmdTopic, Base.Command(o.sent.value))] else [])
    {
      var o := Command(dev.store, dev.entities, registerToName, latch, protocol.registers, slaveId, cmd, value);
      if o.sent.Some? {
        dev.Publish(dev.cmdTopic, Base.Command(o.sent.value));
      }
      dev.store := o.store;
      raised := o.raised;
    }
  }

  // ---------------------------------------------------------------- lemmas

  /** A valid time of day and interval survive the command packing and the
      notify decode, and the packed word fits 16 bits. */
  lemma ScheduleRoundTrip(hour: nat, minute: nat, interval: nat)
    requires hour <= 23 && minute <= 59 && interval <= 31
    ensures 0 <= EncodeSchedule(hour, minute, interval) < 0x1_0000
    ensures DecodeSchedule(EncodeSchedule(hour, minute, interval)) == Some(Schedule(hour, minute, interval))
  {
    var v := EncodeSchedule(hour, minute, interval);
    var e := hour * 64 + minute;
    DivMod(0, hour, 32);
    DivMod(0, minute, 64);
    DivMod(0, interval, 32);
    assert v == e * 32 + interval;
    DivMod(e, interval, 32);
    DivMod(hour, minute, 64);
    DivDiv(v, 32, 64);
  }

  /** A 16-bit word that decodes is exactly the packing of what it decodes to. */
  lemma ScheduleWordRoundTrip(v: int)
    requires 0 <= v < 0x1_0000 && DecodeSchedule(v).Some?
    ensures var s := DecodeSchedule(v).value; EncodeSchedule(s.hour, s.minute, s.interval) == v
  {
    DivDiv(v, 32, 64);
    assert v == v / 32 * 32 + v % 32;
    assert v / 32 == v / 32 / 64 * 64 + v / 32 % 64;
  }

  /** The time entity's (hour << 8) | minute reads back as hour and minute. */
  lemma TimeWordRoundTrip(hour: nat, minute: nat)
    requires hour <= 23 && minute <= 59
    ensures TimeHour(hour * 256 + minute) == hour && TimeMinute(hour * 256 + minute) == minute
  {
    DivMod(hour, minute, 256);
  }

  /** A 32-bit value is its high word times 0x10000 plus its low word. */
  lemma SplitWords(w: int)
    requires 0 <= w < 0x1_0000_0000
    ensures w / 0x1_0000 % 0x1_0000 * 0x1_0000 + w % 0x1_0000 == w
  {
    DivDiv(w, 0x1_0000, 0x1_0000);
    assert w / 0x1_0000 < 0x1_0000;
  }

  /** The low fields (hour, minute, second) read back from a packed word. */
  lemma LowFields(c: int, h: int, mi: int, s: int)
    requires 0 <= h < 32 && 0 <= mi < 64 && 0 <= s < 64
    ensures var w := ((c * 32 + h) * 64 + mi) * 64 + s;
      && w / 0x1000 == c * 32 + h && w / 0x1000 % 32 == h && w / 0x40 % 64 == mi && w % 64 == s
  {
    var d := c * 32 + h;
    var e := d * 64 + mi;
    var w := e * 64 + s;
    DivMod(e, s, 64);
    DivMod(d, mi, 64);
    DivMod(c, h, 32);
    DivDiv(w, 0x40, 64);
  }

  /** The high fields (year offset, month, day) read back from the word
      above the hour. */
  lemma HighFields(a: int, m: int, day: int, d: int)
    requires 0 <= m < 16 && 0 <= day < 32
    requires d / 32 == (a * 16 + m) * 32 + day
    ensures d / 0x20 % 32 == day && d / 0x400 % 16 == m && d / 0x4000 == a
  {
    var b := a * 16 + m;
    var c := b * 32 + day;
    DivMod(b, day, 32);
    DivMod(a, m, 16);
    DivDiv(d, 0x20, 32);
    DivDiv(d, 0x400, 16);
  }

  /** The six fields of a packed network time read back from it. */
  lemma PackedFields(a: int, m: int, day: int, h: int, mi: int, s: int)
    requires 0 <= a < 64 && 0 <= m < 16 && 0 <= day < 32 && 0 <= h < 32 && 0 <= mi < 64 && 0 <= s < 64
    ensures var w := a * 0x400_0000 + m * 0x40_0000 + day * 0x2_0000 + h * 0x1000 + mi * 0x40 + s;
      && 0 <= w < 0x1_0000_0000
      && w / 0x400_0000 == a && w / 0x40_0000 % 16 == m && w / 0x2_0000 % 32 == day
      && w / 0x1000 % 32 == h && w / 0x40 % 64 == mi && w % 64 == s
  {
    var c := (a * 16 + m) * 32 + day;
    var w := a * 0x400_0000 + m * 0x40_0000 + day * 0x2_0000 + h * 0x1000 + mi * 0x40 + s;
    assert w == ((c * 32 + h) * 64 + mi) * 64 + s;
    LowFields(c, h, mi, s);
    DivMod(c, h, 32);
    HighFields(a, m, day, w / 0x1000);
    DivDiv(w, 0x1000, 0x20);
    DivDiv(w, 0x1000, 0x400);
    DivDiv(w, 0x1000, 0x4000);
  }

  /** Each field of the network time reads back from the two words sent. */
  lemma NetworkTimeFields(dt: DateTime)
    requires NetworkTime(dt).Some?
    ensures var w := NetworkTime(dt).value;
      && 0 <= w < 0x1_0000_0000
      && w / 0x1_0000 % 0x1_0000 * 0x1_0000 + w % 0x1_0000 == w
      && w / 0x400_0000 == dt.year - 2024
      && w / 0x40_0000 % 16 == dt.month
      && w / 0x2_0000 % 32 == dt.day
      && w / 0x1000 % 32 == dt.hour % 32
      && w / 0x40 % 64 == dt.minute % 64
      && w % 64 == dt.second % 64
  {
    var a := dt.year - 2024;
    assert a % 64 == a && dt.month % 16 == dt.month && dt.day % 32 == dt.day;
    PackedFields(a, dt.month, dt.day, dt.hour % 32, dt.minute % 64, dt.second % 64);
    SplitWords(NetworkTime(dt).value);
  }

  /** Schedule registers become time entities, whatever the descriptor
      says; other registers follow their sensor type (sensor by default),
      and entries with a register carry their own. */
  lemma EntrySpec(reg: int, d: RegisterInfo)
    ensures !HasUsableName(d) ==> Entry(reg, d) == Ok(None)
    ensures HasUsableName(d) && reg in SpecialNames ==> Entry(reg, d) == Ok(Some((GTime, RegisterEntry(reg, d.name.value))))
    ensures Entry(reg, d).Ok? && Entry(reg, d).value.Some? ==>
      var (g, e) := Entry(reg, d).value.value;
      && e.name == d.name.value
      && (g != GSensor ==> e.register == Some(reg))
      && (g == GSensor <==> reg !in SpecialNames && d.sensorType.GetOr("sensor") == "sensor")
      && (g == GSelect ==> e.options == Some(EnumValues(d.enumMap.value)))
  {
  }

  /** A successful unpack ends with the inverter-factor sensor and the two
      interval numbers (0 to 31, step 1) on their pseudo-registers. */
  lemma UnpackedExtras(pd: ProtocolData, diagnostics: bool)
    requires pd.registers.WellFormed() && Unpacked(pd, diagnostics).Ok?
    ensures var info := Unpacked(pd, diagnostics).value;
      && |info.sensor| >= 1 && info.sensor[|info.sensor| - 1] == Named(InverterFactor)
      && |info.number| >= 2
      && info.number[|info.number| - 2] == NumberEntry(0x10020, ChargeInterval, Some(0), Some(31), 1)
      && info.number[|info.number| - 1] == NumberEntry(0x10022, DischargeInterval, Some(0), Some(31), 1)
    ensures pd.slaveId.Some? && pd.readCommand.Some? && pd.writeCommand.Some?
  {
  }

  /** The AC-voltage latch, once set, never changes. */
  lemma NotifyLatch(p: Progress, entities: map<string, Option<Entity>>, latch: Option<int>, rated: Option<int>,
                    frame: RawFrame, names: map<int, string>, t: Table<int>)
    ensures var o := Notify(p, entities, latch, rated, frame, names, t);
      && (latch.Some? ==> o.latch == latch)
      && (latch.None? ==> o.latch == FrameGet(frame, AcVoltageRegister))
  {
  }

  /** The keys of the store one register of the loop may write. */
  function StepKeys(reg: int, names: map<int, string>): set<Key> {
    if reg in SpecialNames then {Name(SpecialNames[reg])} + (if IntervalOf(reg).Some? then {Name(IntervalOf(reg).value)} else {})
    else if HasName(names, reg) then {Name(names[reg])}
    else {}
  }

  /** A store key that no register of the loop writes keeps its value; the
      seen-set and warnings stay one per unknown address. */
  lemma {:induction false} StepsFrame(p: Progress, frame: RawFrame, names: map<int, string>, registered: set<string>, k: Key)
    requires forall i :: 0 <= i < |frame| ==> k !in StepKeys(frame[i].0, names)
    ensures var r := Steps(p, frame, names, registered);
      (k in r.store <==> k in p.store) && (k in p.store ==> r.store[k] == p.store[k])
    decreases |frame|
  {
    if frame != [] {
      var q := Step(p, frame[0].0, frame[0].1, names, registered);
      assert k !in StepKeys(frame[0].0, names);
      assert (k in q.store <==> k in p.store) && (k in p.store ==> q.store[k] == p.store[k]);
      forall i | 0 <= i < |frame| - 1 ensures k !in StepKeys(frame[1..][i].0, names) {
        assert frame[1..][i] == frame[i + 1];
      }
      StepsFrame(q, frame[1..], names, registered, k);
    }
  }

  lemma {:induction false} StepsUnknown(p: Progress, frame: RawFrame, names: map<int, string>, registered: set<string>)
    requires WarnedOnce(p.unknown, p.warned)
    ensures WarnedOnce(Steps(p, frame, names, registered).unknown, Steps(p, frame, names, registered).warned)
    decreases |frame|
  {
    if frame != [] {
      var q := Step(p, frame[0].0, frame[0].1, names, registered);
      assert WarnedOnce(q.unknown, q.warned);
      StepsUnknown(q, frame[1..], names, registered);
    }
  }

  /** After the gate, the two factors hold the high and low byte of the
      combined power-factor register, and the register loop does not
      overwrite them. */
  lemma AfterGateSplits(p: Progress, frame: RawFrame, names: map<int, string>, registered: set<string>, raw: int)
    requires DistinctRegs(frame) && (PowerFactorRegister, raw) in frame
    requires forall i :: 0 <= i < |frame| ==> frame[i].0 in SpecialNames || !HasName(names, frame[i].0) || names[frame[i].0] !in {InverterFactor, PowerFactor}
    requires forall r :: r in SpecialNames ==> SpecialNames[r] !in {InverterFactor, PowerFactor}
    ensures var q := AfterGate(p, frame, names, registered);
      && Name(InverterFactor) in q.store && q.store[Name(InverterFactor)] == IntVal(HighByte(raw))
      && Name(PowerFactor) in q.store && q.store[Name(PowerFactor)] == IntVal(LowByte(raw))
  {
    var rest := Without(frame, PowerFactorRegister);
    var i :| 0 <= i < |frame| && frame[i] == (PowerFactorRegister, raw);
    assert FrameGet(frame, PowerFactorRegister) == Some(raw);
    var p2 := Split(p, raw);
    SplitStores(p, raw);
    forall j | 0 <= j < |rest| ensures Name(InverterFactor) !in StepKeys(rest[j].0, names) && Name(PowerFactor) !in StepKeys(rest[j].0, names) {
      assert rest[j] in rest;
    }
    StepsFrame(p2, rest, names, registered, Name(InverterFactor));
    StepsFrame(p2, rest, names, registered, Name(PowerFactor));
  }

  /** Without the rated-voltage register the gate passes, so the
      power-factor split above decides both factors. */
  lemma NotifySplitsPowerFactor(p: Progress, entities: map<string, Option<Entity>>, latch: Option<int>, rated: Option<int>,
                                frame: RawFrame, names: map<int, string>, t: Table<int>, raw: int)
    requires DistinctRegs(frame) && (PowerFactorRegister, raw) in frame
    requires forall i :: 0 <= i < |frame| ==> frame[i].0 != RatedVoltageRegister
    requires forall i :: 0 <= i < |frame| ==> frame[i].0 in SpecialNames || !HasName(names, frame[i].0) || names[frame[i].0] !in {InverterFactor, PowerFactor}
    requires forall r :: r in SpecialNames ==> SpecialNames[r] !in {InverterFactor, PowerFactor}
    ensures var o := Notify(p, entities, latch, rated, frame, names, t);
      && o.raised.None?
      && Name(InverterFactor) in o.p.store && o.p.store[Name(InverterFactor)] == IntVal(HighByte(raw))
      && Name(PowerFactor) in o.p.store && o.p.store[Name(PowerFactor)] == IntVal(LowByte(raw))
  {
    assert FrameGet(frame, RatedVoltageRegister).None?;
    assert p.(changed := p.changed) == p;
    AfterGateSplits(p, frame, names, entities.Keys, raw);
  }

  /** The stages after the gate keep one warning per unknown address. */
  lemma AfterGateUnknown(p: Progress, frame: RawFrame, names: map<int, string>, registered: set<string>)
    requires WarnedOnce(p.unknown, p.warned)
    ensures WarnedOnce(AfterGate(p, frame, names, registered).unknown, AfterGate(p, frame, names, registered).warned)
  {
    var raw6e := FrameGet(frame, PowerFactorRegister);
    var p2 := if raw6e.Some? then Split(p, raw6e.value) else p;
    StepsUnknown(p2, Without(frame, PowerFactorRegister), names, registered);
  }

  /** The seen-set and warning log stay one warning per unknown address. */
  lemma NotifyUnknown(p: Progress, entities: map<string, Option<Entity>>, latch: Option<int>, rated: Option<int>,
                      frame: RawFrame, names: map<int, string>, t: Table<int>)
    requires WarnedOnce(p.unknown, p.warned)
    ensures var o := Notify(p, entities, latch, rated, frame, names, t); WarnedOnce(o.p.unknown, o.p.warned)
  {
    var g := GateStage(rated, entities, p.changed, frame, RatedVoltageRegister, t, Ranges);
    if g.raised.None? {
      AfterGateUnknown(p.(changed := g.changed), frame, names, g.entities.Keys);
    }
  }

  /** The gate keeps the entity keys, so the loop sees the same registered set. */
  lemma GateKeys(raw7: Option<int>, rated: Option<int>, entities: map<string, Option<Entity>>, changed: set<string>, info: Option<RegisterInfo>)
    ensures raw7.Some? ==> Gate(rated, entities, changed, raw7.value, info, Ranges).entities.Keys == entities.Keys
  {
    if raw7.Some? {
      GateOnlyBounds(rated, entities, changed, raw7.value, info, Ranges);
    }
  }

  /** A schedule command that the schedule part accepts is sent and
      stored exactly as that part says. */
  lemma CommandScheduled(store: map<Key, Value>, entities: map<string, Option<Entity>>, names: map<int, string>,
                         latch: Option<int>, t: Table<int>, slave: int, cmd: int, value: CmdValue)
    requires cmd in TimeCommands && cmd !in {0x21, 0x23} && value.CInt?
    requires var s := ScheduleCmd(store, entities, names, slave, cmd, value); s.Some? && s.value.raised.None? && s.value.sent.Some?
    ensures Command(store, entities, names, latch, t, slave, cmd, value) == ScheduleCmd(store, entities, names, slave, cmd, value).value
  {
  }

  /** The schedule part of a time command within range. */
  lemma TimeSchedule(store: map<Key, Value>, entities: map<string, Option<Entity>>, names: map<int, string>,
                     slave: int, cmd: int, hour: nat, minute: nat)
    requires cmd in {0x20, 0x22} && HasName(names, cmd) && hour <= 23 && minute <= 59
    requires Name(names[cmd]) !in store || store[Name(names[cmd])].SchedVal?
    requires forall n :: n in entities ==> entities[n].Some?
    ensures var iv := if Name(names[cmd]) in store then store[Name(names[cmd])].intervalDays else 0;
      ScheduleCmd(store, entities, names, slave, cmd, CInt(hour * 256 + minute)) ==
        Some(CmdOut(Some(Packed(slave, cmd, EncodeSchedule(hour, minute, iv), None)),
                    store[Name(names[cmd]) := SchedVal(ClockText(hour, minute), iv)][Name(IntervalName(cmd)) := IntVal(iv)], None))
  {
    TimeWordRoundTrip(hour, minute);
    assert hour * 256 + minute <= 0xFFFF;
  }

  /** A time command keeps the stored interval days (0 when nothing is
      stored), sends hour:minute:interval to its register, and stores the
      schedule and the interval. */
  lemma TimeCommandKeepsInterval(store: map<Key, Value>, entities: map<string, Option<Entity>>, names: map<int, string>,
                                 latch: Option<int>, t: Table<int>, slave: int, cmd: int, hour: nat, minute: nat)
    requires cmd in {0x20, 0x22} && HasName(names, cmd) && hour <= 23 && minute <= 59
    requires Name(names[cmd]) !in store || store[Name(names[cmd])].SchedVal?
    requires forall n :: n in entities ==> entities[n].Some?
    ensures var iv := if Name(names[cmd]) in store then store[Name(names[cmd])].intervalDays else 0;
      var o := Command(store, entities, names, latch, t, slave, cmd, CInt(hour * 256 + minute));
      && o.raised.None?
      && o.sent == Some(Packed(slave, cmd, EncodeSchedule(hour, minute, iv), None))
      && o.store == store[Name(names[cmd]) := SchedVal(ClockText(hour, minute), iv)][Name(IntervalName(cmd)) := IntVal(iv)]
  {
    TimeSchedule(store, entities, names, slave, cmd, hour, minute);
    CommandScheduled(store, entities, names, latch, t, slave, cmd, CInt(hour * 256 + minute));
  }

  /** A time command out of range, or above 0xFFFF, is dropped: nothing
      sent, the store unchanged. */
  lemma TimeCommandRejects(store: map<Key, Value>, entities: map<string, Option<Entity>>, names: map<int, string>,
                           latch: Option<int>, t: Table<int>, slave: int, cmd: int, v: int)
    requires cmd in {0x20, 0x22} && HasName(names, cmd)
    requires Name(names[cmd]) !in store || store[Name(names[cmd])].SchedVal?
    requires v > 0xFFFF || TimeHour(v) > 23 || TimeMinute(v) > 59
    ensures Command(store, entities, names, latch, t, slave, cmd, CInt(v)) == CmdOut(None, store, None)
  {
  }

  /** An interval command goes to the target register with the stored time
      kept and stores the new interval under both names. */
  lemma IntervalCommandKeepsTime(store: map<Key, Value>, entities: map<string, Option<Entity>>, names: map<int, string>,
                                 latch: Option<int>, t: Table<int>, slave: int, pseudo: int, hour: nat, minute: nat, days: int, days0: int)
    requires pseudo in PseudoRegisters && HasName(names, PseudoRegisters[pseudo].1)
    requires hour <= 23 && minute <= 59 && 0 <= days <= 31
    requires var n := names[PseudoRegisters[pseudo].1]; Name(n) in store && store[Name(n)] == SchedVal(ClockText(hour, minute), days0)
    requires forall n :: n in entities ==> entities[n].Some?
    ensures var target := PseudoRegisters[pseudo].1;
      var o := Command(store, entities, names, latch, t, slave, pseudo, CInt(days));
      && o.raised.None?
      && o.sent == Some(Packed(slave, target, EncodeSchedule(hour, minute, days), None))
      && o.store == store[Name(names[target]) := SchedVal(ClockText(hour, minute), days)][Name(PseudoRegisters[pseudo].0) := IntVal(days)]
  {
    ClockRoundTrip(hour, minute);
    TwoDigitsParse(hour);
    assert ClockText(hour, minute)[2] == ':';
    var target := PseudoRegisters[pseudo].1;
    assert ScheduleCmd(store, entities, names, slave, pseudo, CInt(days)) ==
      Some(CmdOut(Some(Packed(slave, target, EncodeSchedule(hour, minute, days), None)),
                  store[Name(names[target]) := SchedVal(ClockText(hour, minute), days)][Name(IntervalName(target)) := IntVal(days)], None));
    CommandScheduled(store, entities, names, latch, t, slave, pseudo, CInt(days));
  }

  /** An interval outside 0..31 is dropped. */
  lemma IntervalCommandRejects(store: map<Key, Value>, entities: map<string, Option<Entity>>, names: map<int, string>,
                               latch: Option<int>, t: Table<int>, slave: int, pseudo: int, days: int)
    requires pseudo in PseudoRegisters && HasName(names, PseudoRegisters[pseudo].1)
    requires var n := names[PseudoRegisters[pseudo].1]; Name(n) !in store || store[Name(n)].SchedVal?
    requires !(0 <= days <= 31)
    ensures Command(store, entities, names, latch, t, slave, pseudo, CInt(days)) == CmdOut(None, store, None)
  {
  }

  /** With the latched AC voltage at 2 or more, a lower value is dropped. */
  lemma AcVoltageLatchRule(store: map<Key, Value>, entities: map<string, Option<Entity>>, names: map<int, string>,
                           latch: int, t: Table<int>, slave: int, v: int)
    requires latch >= 2 && v < 2
    ensures Command(store, entities, names, Some(latch), t, slave, AcVoltageRegister, CInt(v)) == CmdOut(None, store, None)
  {
  }

  /** A plain numeric write is sent as given and remembered under its
      register number. */
  lemma PlainWrite(store: map<Key, Value>, entities: map<string, Option<Entity>>, names: map<int, string>,
                   latch: Option<int>, t: Table<int>, slave: int, cmd: int, v: int)
    requires cmd !in TimeCommands && cmd !in {0x21, 0x23, AcVoltageRegister}
    ensures var o := Command(store, entities, names, latch, t, slave, cmd, CInt(v));
      && o.sent == Some(Packed(slave, cmd, v, None))
      && o.store == store[Reg(cmd) := IntVal(v)]
  {
  }
}
