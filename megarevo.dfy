/** The Megarevo inverter plugin. Four date-time registers carry two bytes
    each (year/month, day/unused, hour/minute, second/week) with a range
    per byte; twelve schedule registers carry an HHMM decimal; registers
    0x303153..0x303181 arrive with their 16-bit halves swapped; everything
    else follows the generic register rule. Time registers cache their raw
    value so that an unchanged reading is skipped. */
module Megarevo {
  import opened Wrappers
  import opened NumText
  import opened Descriptor
  import opened PluginCommon
  import opened Arith
  import Base

  const SlaveId := 1

  /** The action buttons and the register each one writes 1 to. */
  const Buttons: map<string, int> := map[
    "restore_factory_setting" := 0x3416,
    "clear_record" := 0x3417,
    "clear_statistical" := 0x341D,
    "clear_arc_alarm" := 0x3429]

  /** A date-time register: the names of its high and low byte and the
      accepted range of each. */
  datatype BaseField = BaseField(reg: int, highName: string, lowName: string, highMin: int, highMax: int, lowMin: int, lowMax: int)

  const TimeBase: seq<BaseField> := [
    BaseField(0x303500, "year", "month", 0, 99, 1, 12),
    BaseField(0x303501, "day", "unused", 1, 31, 0, 0),
    BaseField(0x303502, "hour", "minute", 0, 23, 0, 59),
    BaseField(0x303503, "second", "week", 0, 59, 1, 7)]

  const Schedule: seq<(int, string)> := [
    (0x303504, "charge_time1_start"), (0x303505, "charge_time1_end"),
    (0x303506, "discharge_time1_start"), (0x303507, "discharge_time1_end"),
    (0x303508, "charge_time2_start"), (0x303509, "charge_time2_end"),
    (0x30350A, "discharge_time2_start"), (0x30350B, "discharge_time2_end"),
    (0x30350C, "charge_time3_start"), (0x30350D, "charge_time3_end"),
    (0x30350E, "discharge_time3_start"), (0x30350F, "discharge_time3_end")]

  const ScheduleNames: set<string> := {
    "charge_time1_start", "charge_time1_end", "discharge_time1_start", "discharge_time1_end",
    "charge_time2_start", "charge_time2_end", "discharge_time2_start", "discharge_time2_end",
    "charge_time3_start", "charge_time3_end", "discharge_time3_start", "discharge_time3_end"}

  predicate IsTimeBase(reg: int) { 0x303500 <= reg <= 0x303503 }
  predicate IsSchedule(reg: int) { 0x303504 <= reg <= 0x30350F }
  predicate IsTimeRegister(reg: int) { IsTimeBase(reg) || IsSchedule(reg) }

  /** The registers whose 16-bit halves arrive swapped. */
  predicate InSwapRange(reg: int) { 0x303153 <= reg <= 0x303181 }

  function BaseOf(reg: int): BaseField
    requires IsTimeBase(reg)
  {
    TimeBase[reg - 0x303500]
  }

  function ScheduleName(reg: int): string
    requires IsSchedule(reg)
  {
    Schedule[reg - 0x303504].1
  }

  /** The name map before the descriptor is read: the high-byte names of
      the date-time registers and the schedule names. */
  const InitialNames: map<int, string> := map[
    0x303500 := "year", 0x303501 := "day", 0x303502 := "hour", 0x303503 := "second",
    0x303504 := "charge_time1_start", 0x303505 := "charge_time1_end",
    0x303506 := "discharge_time1_start", 0x303507 := "discharge_time1_end",
    0x303508 := "charge_time2_start", 0x303509 := "charge_time2_end",
    0x30350A := "discharge_time2_start", 0x30350B := "discharge_time2_end",
    0x30350C := "charge_time3_start", 0x30350D := "charge_time3_end",
    0x30350E := "discharge_time3_start", 0x30350F := "discharge_time3_end"]

  // --------------------------------------------------------- conversions

  /** Exchange the high and low 16-bit halves of a 32-bit word. */
  function Swap16(v: int): int {
    (v % 0x1_0000) * 0x1_0000 + v / 0x1_0000 % 0x1_0000
  }

  /** The value stored for a named register. */
  function Corrected(reg: int, v: int): int {
    if InSwapRange(reg) then Swap16(v) else v
  }

  /** hour and minute as the HHMM decimal a schedule register holds. */
  function HHMM(hour: int, minute: int): int { hour * 100 + minute }

  // -------------------------------------------------------------- notify

  /** One date-time register of a notification: skipped when absent or
      equal to the cached raw value; the high byte is validated and stored,
      then the low byte; only when both pass is the raw value cached and
      every registered schedule entity refreshed. */
  function BaseStep(p: Progress, f: BaseField, frame: RawFrame, registered: set<string>): Progress {
    var raw := FrameGet(frame, f.reg);
    if raw.None? || (Reg(f.reg) in p.store && p.store[Reg(f.reg)] == IntVal(raw.value)) then p
    else
      var hi := raw.value / 256 % 256;
      var lo := raw.value % 256;
      if f.highName != "unused" && !(f.highMin <= hi <= f.highMax) then p
      else
        var q := if f.highName != "unused" then Update(p, f.highName, IntVal(hi), registered) else p;
        if !(f.lowMin <= lo <= f.lowMax) then q
        else
          var r := Update(q, f.lowName, IntVal(lo), registered);
          r.(store := r.store[Reg(f.reg) := IntVal(raw.value)], changed := r.changed + ScheduleNames * registered)
  }

  function BaseAll(p: Progress, fs: seq<BaseField>, frame: RawFrame, registered: set<string>): Progress
    decreases |fs|
  {
    if fs == [] then p else BaseAll(BaseStep(p, fs[0], frame, registered), fs[1..], frame, registered)
  }

  /** One schedule register: skipped when absent or equal to the cached raw
      value; otherwise hour = v div 100 and minute = v mod 100, stored as
      "HH:MM" and cached when both are in range. */
  function ScheduleStep(p: Progress, s: (int, string), frame: RawFrame, registered: set<string>): Progress {
    var raw := FrameGet(frame, s.0);
    if raw.None? || (Reg(s.0) in p.store && p.store[Reg(s.0)] == IntVal(raw.value)) then p
    else
      var hour := raw.value / 100;
      var minute := raw.value % 100;
      if !(0 <= hour <= 23 && 0 <= minute <= 59) then p
      else
        var q := Update(p, s.1, StrVal(ClockText(hour, minute)), registered);
        q.(store := q.store[Reg(s.0) := IntVal(raw.value)])
  }

  function ScheduleAll(p: Progress, ss: seq<(int, string)>, frame: RawFrame, registered: set<string>): Progress
    decreases |ss|
  {
    if ss == [] then p else ScheduleAll(ScheduleStep(p, ss[0], frame, registered), ss[1..], frame, registered)
  }

  /** One register of the generic loop: time registers are left to their
      own stages, swapped registers are corrected, the rest as received. */
  function RegisterStep(p: Progress, reg: int, v: int, names: map<int, string>, registered: set<string>): Progress {
    if IsTimeRegister(reg) then p else Generic(p, reg, IntVal(Corrected(reg, v)), names, registered, true)
  }

  function RegisterAll(p: Progress, frame: RawFrame, names: map<int, string>, registered: set<string>): Progress
    decreases |frame|
  {
    if frame == [] then p else RegisterAll(RegisterStep(p, frame[0].0, frame[0].1, names, registered), frame[1..], names, registered)
  }

  /** handle_notify: the date-time stage, the schedule stage, then the
      generic loop. */
  function Notify(p: Progress, frame: RawFrame, names: map<int, string>, registered: set<string>): Progress {
    RegisterAll(ScheduleAll(BaseAll(p, TimeBase, frame, registered), Schedule, frame, registered), frame, names, registered)
  }

  /** _process_time_base_registers. */
  method BaseLoop(p: Progress, frame: RawFrame, registered: set<string>) returns (q: Progress)
    ensures q == BaseAll(p, TimeBase, frame, registered)
  {
    var store, changed := p.store, p.changed;
    var i := 0;
    while i < |TimeBase|
      invariant 0 <= i <= |TimeBase|
      invariant BaseAll(p.(store := store, changed := changed), TimeBase[i..], frame, registered) == BaseAll(p, TimeBase, frame, registered)
    {
      var f := TimeBase[i];
      var raw := FrameGet(frame, f.reg);
      if raw.Some? && !(Reg(f.reg) in store && store[Reg(f.reg)] == IntVal(raw.value)) {
        var hi, lo := raw.value / 256 % 256, raw.value % 256;
        if f.highName == "unused" || f.highMin <= hi <= f.highMax {
          if f.highName != "unused" && !(Name(f.highName) in store && store[Name(f.highName)] == IntVal(hi)) {
            store := store[Name(f.highName) := IntVal(hi)];
            if f.highName in registered {
              changed := changed + {f.highName};
            }
          }
          if f.lowMin <= lo <= f.lowMax {
            if !(Name(f.lowName) in store && store[Name(f.lowName)] == IntVal(lo)) {
              store := store[Name(f.lowName) := IntVal(lo)];
              if f.lowName in registered {
                changed := changed + {f.lowName};
              }
            }
            store := store[Reg(f.reg) := IntVal(raw.value)];
            changed := changed + ScheduleNames * registered;
          }
        }
      }
      assert TimeBase[i..][1..] == TimeBase[i + 1..];
      i := i + 1;
    }
    q := p.(store := store, changed := changed);
  }

  /** _process_time_schedule_registers. */
  method ScheduleLoop(p: Progress, frame: RawFrame, registered: set<string>) returns (q: Progress)
    ensures q == ScheduleAll(p, Schedule, frame, registered)
  {
    var store, changed := p.store, p.changed;
    var i := 0;
    while i < |Schedule|
      invariant 0 <= i <= |Schedule|
      invariant ScheduleAll(p.(store := store, changed := changed), Schedule[i..], frame, registered) == ScheduleAll(p, Schedule, frame, registered)
    {
      var (reg, name) := Schedule[i];
      var raw := FrameGet(frame, reg);
      if raw.Some? && !(Reg(reg) in store && store[Reg(reg)] == IntVal(raw.value)) {
        var hour, minute := raw.value / 100, raw.value % 100;
        if 0 <= hour <= 23 && 0 <= minute <= 59 {
          var text := StrVal(ClockText(hour, minute));
          if !(Name(name) in store && store[Name(name)] == text) {
            store := store[Name(name) := text];
            if name in registered {
              changed := changed + {name};
            }
          }
          store := store[Reg(reg) := IntVal(raw.value)];
        }
      }
      assert Schedule[i..][1..] == Schedule[i + 1..];
      i := i + 1;
    }
    q := p.(store := store, changed := changed);
  }

  /** The generic loop of handle_notify. */
  method RegisterLoop(p: Progress, frame: RawFrame, names: map<int, string>, registered: set<string>) returns (q: Progress)
    ensures q == RegisterAll(p, frame, names, registered)
  {
    var store, changed, unknown, warned := p.store, p.changed, p.unknown, p.warned;
    var i := 0;
    while i < |frame|
      invariant 0 <= i <= |frame|
      invariant RegisterAll(Progress(store, changed, unknown, warned), frame[i..], names, registered) == RegisterAll(p, frame, names, registered)
    {
      var (reg, v) := frame[i];
      if !IsTimeRegister(reg) {
        if reg in names && names[reg] != "" {
          var name := names[reg];
          var value := IntVal(if InSwapRange(reg) then Swap16(v) else v);
          if !(Name(name) in store && store[Name(name)] == value) {
            store := store[Name(name) := value];
            if name in registered {
              changed := changed + {name};
            }
          }
        } else if reg !in unknown {
          unknown := unknown + {reg};
          warned := warned + [reg];
        }
      }
      assert frame[i..][1..] == frame[i + 1..];
      i := i + 1;
    }
    assert frame[i..] == [];
    q := Progress(store, changed, unknown, warned);
  }

  /** The three stages of handle_notify in order. */
  method NotifyStages(p: Progress, frame: RawFrame, names: map<int, string>, registered: set<string>) returns (q: Progress)
    requires WarnedOnce(p.unknown, p.warned)
    ensures q == Notify(p, frame, names, registered)
    ensures WarnedOnce(q.unknown, q.warned)
  {
    NotifyUnknown(p, frame, names, registered);
    q := BaseLoop(p, frame, registered);
    q := ScheduleLoop(q, frame, registered);
    q := RegisterLoop(q, frame, names, registered);
  }

  // ------------------------------------------------------------- command

  /** Some schedule entity was registered without a platform object, so
      refreshing it raises. */
  predicate ScheduleUnregistered(entities: map<string, Option<Entity>>) {
    exists n :: n in ScheduleNames && n in entities && entities[n].None?
  }

  /** _handle_time_base_cmd: a {"high", "low"} value, each byte an int in
      its range, sent as (high << 8) | low; both names and the raw cache are
      stored, then every registered schedule entity is refreshed (one
      unregistered to None raises before anything is sent). A malformed
      value is dropped. */
  function BaseCommand(store: map<Key, Value>, entities: map<string, Option<Entity>>, cmd: int, value: CmdValue): CmdOut
    requires IsTimeBase(cmd)
  {
    var f := BaseOf(cmd);
    var dropped := CmdOut(None, store, None);
    if !(value.CDict? && "high" in value.fields && "low" in value.fields) then dropped
    else
      var high := value.fields["high"];
      var low := value.fields["low"];
      if f.highName != "unused" && !(high.CInt? && f.highMin <= high.i <= f.highMax) then dropped
      else if !(low.CInt? && f.lowMin <= low.i <= f.lowMax) then dropped
      else
        var hi := if f.highName != "unused" then high.i else 0;
        // both bytes are non-negative and the low one is below 256, so the
        // bitwise or is a sum
        var packed := hi * 256 + low.i;
        var st0 := if f.highName != "unused" then store[Name(f.highName) := IntVal(hi)] else store;
        var st := st0[Name(f.lowName) := IntVal(low.i)][Reg(cmd) := IntVal(packed)];
        if ScheduleUnregistered(entities) then CmdOut(None, st, Some(AttributeError))
        else CmdOut(Some(Packed(SlaveId, cmd, packed, None)), st, None)
  }

  /** _handle_time_schedule_cmd for the value types it handles: "HH:MM"
      text (stored as given) or (hour << 8) | minute (stored as "HH:MM"),
      sent as HHMM and cached; anything out of range is dropped. A value of
      any other type is dropped too. */
  function ScheduleCommand(store: map<Key, Value>, cmd: int, value: CmdValue): (r: CmdOut)
    requires IsSchedule(cmd)
    ensures r.raised.None?
  {
    var dropped := CmdOut(None, store, None);
    var name := ScheduleName(cmd);
    match value
    case CStr(s) =>
      (match ParseClock(s)
       case None => dropped
       case Some((hour, minute)) =>
         if hour <= 23 && minute <= 59 then
           CmdOut(Some(Packed(SlaveId, cmd, HHMM(hour, minute), None)), store[Name(name) := StrVal(s)][Reg(cmd) := IntVal(HHMM(hour, minute))], None)
         else dropped)
    case CInt(v) =>
      var hour := v / 256 % 256;
      var minute := v % 256;
      if hour <= 23 && minute <= 59 then
        CmdOut(Some(Packed(SlaveId, cmd, HHMM(hour, minute), None)), store[Name(name) := StrVal(ClockText(hour, minute))][Reg(cmd) := IntVal(HHMM(hour, minute))], None)
      else dropped
    case _ => dropped
  }

  /** _handle_time_schedule_cmd as written: for a value that is neither
      text nor an int, `data` is read before it is ever assigned. */
  function ScheduleCommandAsWritten(store: map<Key, Value>, cmd: int, value: CmdValue): CmdOut
    requires IsSchedule(cmd)
  {
    if value.CStr? || value.CInt? then ScheduleCommand(store, cmd, value) else CmdOut(None, store, Some(UnboundLocalError))
  }

  /** Any other register: text verbatim, a number through the register's
      scale, sent without a write command; then the written value is
      delivered to the register's entity. */
  function PlainCommand(store: map<Key, Value>, entities: map<string, Option<Entity>>, names: map<int, string>,
                        t: Table<int>, cmd: int, value: CmdValue): CmdOut {
    match value
    case CStr(s) => Deliver(store, entities, names, cmd, Verbatim(s), StrVal(s))
    case CInt(_) | CFloat(_) =>
      (match NumericWrite(value, InfoFor(t, cmd).scale.GetOr(1))
       case Err(x) => CmdOut(None, store, Some(x))
       case Ok(v) => Deliver(store, entities, names, cmd, Packed(SlaveId, cmd, v, None), IntVal(v)))
    case _ => CmdOut(None, store, None)
  }

  /** handle_cmd. */
  function Command(store: map<Key, Value>, entities: map<string, Option<Entity>>, names: map<int, string>,
                   t: Table<int>, cmd: int, value: CmdValue): CmdOut {
    if IsTimeBase(cmd) then BaseCommand(store, entities, cmd, value)
    else if IsSchedule(cmd) then ScheduleCommand(store, cmd, value)
    else PlainCommand(store, entities, names, t, cmd, value)
  }

  // ----------------------------------------------------------- unpacking

  function Entry(reg: int, d: RegisterInfo): Pick {
    if !HasUsableName(d) then Ok(None)
    else
      var name := d.name.value;
      var kind := d.sensorType.GetOr("sensor");
      if kind == "sensor" then Lift(GSensor, SensorEntry(name, d))
      else if kind == "number" then Ok(Some((GNumber, NumberEntry(reg, name, d.minValue, d.maxValue, d.step.GetOr(d.scale.GetOr(1))))))
      else if kind == "select" then
        (match SelectEntry(reg, name, d)
         case Err(x) => Err(x)
         case Ok(None) => Ok(None)
         case Ok(Some(e)) => Ok(Some((GSelect, e))))
      else if kind == "switch" then Ok(Some((GSwitch, RegisterEntry(reg, name))))
      else if kind == "button" then Ok(Some((GButton, RegisterEntry(reg, name))))
      else Ok(None)
  }

  /** The date-time numbers, each on the register that holds its byte. */
  const TimeNumbers: seq<InfoEntry> := [
    NumberEntry(0x303500, "year", Some(0), Some(99), 1),
    NumberEntry(0x303500, "month", Some(1), Some(12), 1),
    NumberEntry(0x303501, "day", Some(1), Some(31), 1),
    NumberEntry(0x303502, "hour", Some(0), Some(23), 1),
    NumberEntry(0x303502, "minute", Some(0), Some(59), 1),
    NumberEntry(0x303503, "second", Some(0), Some(59), 1),
    NumberEntry(0x303503, "week", Some(1), Some(7), 1)]

  /** The entries added after the descriptor's: the date-time numbers, then
      a time entity per schedule register. */
  function WithExtras(info: DeviceInfo): DeviceInfo {
    var t := if info.time.None? then [] else info.time.value;
    info.(number := info.number + TimeNumbers,
          time := Some(t + seq(|Schedule|, i requires 0 <= i < |Schedule| => RegisterEntry(Schedule[i].0, Schedule[i].1))))
  }

  function Unpacked(pd: ProtocolData, diagnostics: bool): Result<DeviceInfo>
    requires pd.registers.WellFormed()
  {
    match Collect(pd.registers.Items(), Base.BaseDeviceInfo(diagnostics), Entry)
    case Err(x) => Err(x)
    case Ok(info) => Ok(WithExtras(info))
  }

  // --------------------------------------------------------------- device

  class MegarevoDevice {
    const dev: Base.BaseDevice
    const protocol: ProtocolData
    var registerToName: map<int, string>
    var unknown: set<int>
    var warned: seq<int>

    ghost predicate Valid()
      reads this`unknown, this`warned, dev`notifyTask, dev`diagnosticsTask, dev`nextHandle, dev`cancelled, dev`diagnostics, dev`diagnosticEntities
    {
      && protocol.registers.WellFormed()
      && dev.Valid()
      && WarnedOnce(unknown, warned)
    }

    constructor (sn: string, model: string, protocol: ProtocolData)
      requires protocol.registers.WellFormed()
      ensures Valid() && fresh(dev)
      ensures this.protocol == protocol && dev.sn == sn && dev.model == model
      ensures dev.cmdTopic == sn + "/control/cmd"
      ensures registerToName == InitialNames && unknown == {} && warned == []
      ensures dev.store == map[] && dev.entities == map[] && dev.outbox == []
    {
      dev := new Base.BaseDevice(sn, model, None, true);
      this.protocol := protocol;
      registerToName := InitialNames;
      unknown := {};
      warned := [];
      new;
      dev.cmdTopic := sn + "/control/cmd";
    }

    method SendConfig()
      modifies dev`outbox
      ensures dev.outbox == old(dev.outbox) + [Base.Message(dev.sn + "/config", Base.Config(map[], protocol.segments))]
    {
      dev.Publish(dev.sn + "/config", Base.Config(map[], protocol.segments));
    }

    /** unpack_device_info; the name map is rebuilt from the descriptor
        alone, so the initial date-time and schedule names are dropped. */
    method UnpackDeviceInfo() returns (r: Result<DeviceInfo>)
      requires Valid()
      modifies this`registerToName
      ensures Valid()
      ensures r == Unpacked(protocol, dev.diagnosticsEnabled)
      ensures registerToName == NameMap(protocol.registers.Items(), true)
    {
      registerToName := BuildNameMap(protocol.registers.Items(), true);
      r := CollectLoop(protocol.registers.Items(), Base.BaseDeviceInfo(dev.diagnosticsEnabled), Entry);
      if r.Ok? {
        r := Ok(WithExtras(r.value));
      }
    }

    method HandleNotify(frame: RawFrame) returns (refreshed: set<string>)
      requires Valid()
      modifies dev`store, dev`notifyTask, dev`nextHandle, dev`cancelled, this`unknown, this`warned
      ensures Valid()
      ensures var q := Notify(Progress(old(dev.store), {}, old(unknown), old(warned)), frame, registerToName, dev.entities.Keys);
        && dev.store == q.store && unknown == q.unknown && warned == q.warned && refreshed == Refreshed(q.changed, dev.entities)
      ensures dev.notifyTask == Some(old(dev.nextHandle)) && dev.nextHandle == old(dev.nextHandle) + 1
    {
      var p := NotifyStages(Progress(dev.store, {}, unknown, warned), frame, registerToName, dev.entities.Keys);
      refreshed := Refreshed(p.changed, dev.entities);
      Commit(p);
    }

    /** Keep the outcome of a notification and restart the notify timer. */
    method Commit(p: Progress)
      requires Valid() && WarnedOnce(p.unknown, p.warned)
      modifies dev`store, dev`notifyTask, dev`nextHandle, dev`cancelled, this`unknown, this`warned
      ensures Valid()
      ensures dev.store == p.store && unknown == p.unknown && warned == p.warned
      ensures dev.notifyTask == Some(old(dev.nextHandle)) && dev.nextHandle == old(dev.nextHandle) + 1
    {
      dev.store := p.store;
      dev.ResetNotifyTimer();
      unknown, warned := p.unknown, p.warned;
    }

    method HandleCmd(cmd: int, value: CmdValue) returns (raised: Option<Raised>)
      requires Valid()
      modifies dev`store, dev`outbox
      ensures Valid()
      ensures var o := Command(old(dev.store), dev.entities, registerToName, protocol.registers, cmd, value);
        && dev.store == o.store && raised == o.raised
        && dev.outbox == old(dev.outbox) + (if o.sent.Some? then [Base.Message(dev.cmdTopic, Base.Command(o.sent.value))] else [])
    {
      var o := Command(dev.store, dev.entities, registerToName, protocol.registers, cmd, value);
      if o.sent.Some? {
        dev.Publish(dev.cmdTopic, Base.Command(o.sent.value));
      }
      dev.store := o.store;
      raised := o.raised;
    }

    /** perform_action: the base actions, then a button writes 1 to its
        register. */
    method PerformAction(action: string) returns (raised: Option<Raised>)
      requires Valid()
      modifies dev`store, dev`outbox
      ensures Valid()
      ensures var base := old(dev.outbox) + (if action in {"restart", "reconfig"} then [Base.Message(dev.Topic(["control", action]), Base.Text(action))] else []);
        if action in Buttons then
          var o := Command(old(dev.store), dev.entities, registerToName, protocol.registers, Buttons[action], CInt(1));
          && dev.store == o.store && raised == o.raised
          && dev.outbox == base + (if o.sent.Some? then [Base.Message(dev.cmdTopic, Base.Command(o.sent.value))] else [])
        else dev.store == old(dev.store) && raised.None? && dev.outbox == base
    {
      dev.PerformAction(action);
      raised := None;
      if action in Buttons {
        raised := HandleCmd(Buttons[action], CInt(1));
      }
    }
  }

  // ---------------------------------------------------------------- lemmas

  /** The half-swap keeps a 32-bit word within 32 bits and undoes itself. */
  lemma Swap16Involution(v: int)
    requires 0 <= v < 0x1_0000_0000
    ensures 0 <= Swap16(v) < 0x1_0000_0000
    ensures Swap16(Swap16(v)) == v
  {
    var lo := v % 0x1_0000;
    var hi := v / 0x1_0000;
    DivUnique(v, 0x1_0000, hi, lo);
    DivMod(0, hi, 0x1_0000);
    var s := Swap16(v);
    assert s == lo * 0x1_0000 + hi;
    DivMod(lo, hi, 0x1_0000);
    DivMod(0, lo, 0x1_0000);
    assert Swap16(s) == hi * 0x1_0000 + lo;
  }

  /** Every step of the first two stages leaves the seen-set and warnings alone. */
  lemma {:induction false} BaseAllKeepsUnknown(p: Progress, fs: seq<BaseField>, frame: RawFrame, registered: set<string>)
    ensures BaseAll(p, fs, frame, registered).unknown == p.unknown && BaseAll(p, fs, frame, registered).warned == p.warned
    decreases |fs|
  {
    if fs != [] {
      BaseAllKeepsUnknown(BaseStep(p, fs[0], frame, registered), fs[1..], frame, registered);
    }
  }

  lemma {:induction false} ScheduleAllKeepsUnknown(p: Progress, ss: seq<(int, string)>, frame: RawFrame, registered: set<string>)
    ensures ScheduleAll(p, ss, frame, registered).unknown == p.unknown && ScheduleAll(p, ss, frame, registered).warned == p.warned
    decreases |ss|
  {
    if ss != [] {
      ScheduleAllKeepsUnknown(ScheduleStep(p, ss[0], frame, registered), ss[1..], frame, registered);
    }
  }

  /** The generic loop never records a date-time or schedule register as
      unknown, and warns once per unknown address. */
  lemma {:induction false} RegisterAllUnknown(p: Progress, frame: RawFrame, names: map<int, string>, registered: set<string>)
    requires WarnedOnce(p.unknown, p.warned)
    ensures var r := RegisterAll(p, frame, names, registered);
      && WarnedOnce(r.unknown, r.warned)
      && p.unknown <= r.unknown
      && (forall reg :: reg in r.unknown && reg !in p.unknown ==> !IsTimeRegister(reg) && !HasName(names, reg))
    decreases |frame|
  {
    if frame != [] {
      var q := RegisterStep(p, frame[0].0, frame[0].1, names, registered);
      assert WarnedOnce(q.unknown, q.warned);
      RegisterAllUnknown(q, frame[1..], names, registered);
    }
  }

  lemma NotifyUnknown(p: Progress, frame: RawFrame, names: map<int, string>, registered: set<string>)
    requires WarnedOnce(p.unknown, p.warned)
    ensures var r := Notify(p, frame, names, registered);
      && WarnedOnce(r.unknown, r.warned)
      && p.unknown <= r.unknown
      && (forall reg :: reg in r.unknown && reg !in p.unknown ==> !IsTimeRegister(reg) && !HasName(names, reg))
  {
    var b := BaseAll(p, TimeBase, frame, registered);
    BaseAllKeepsUnknown(p, TimeBase, frame, registered);
    ScheduleAllKeepsUnknown(b, Schedule, frame, registered);
    RegisterAllUnknown(ScheduleAll(b, Schedule, frame, registered), frame, names, registered);
  }

  /** A named register outside the time registers is stored half-swapped
      inside 0x303153..0x303181 and as received elsewhere. */
  lemma RegisterStepStores(p: Progress, reg: int, v: int, names: map<int, string>, registered: set<string>)
    requires !IsTimeRegister(reg) && HasName(names, reg)
    ensures var r := RegisterStep(p, reg, v, names, registered);
      && Name(names[reg]) in r.store
      && r.store[Name(names[reg])] == IntVal(if InSwapRange(reg) then Swap16(v) else v)
      && r.unknown == p.unknown
  {
  }

  /** The date-time decode: an absent or unchanged register does nothing;
      otherwise the raw value is cached exactly when both bytes pass, and
      the high byte is stored even when the low byte then fails. */
  lemma BaseStepSpec(p: Progress, f: BaseField, frame: RawFrame, registered: set<string>)
    requires f in TimeBase
    ensures var r := BaseStep(p, f, frame, registered);
      var raw := FrameGet(frame, f.reg);
      && r.unknown == p.unknown && r.warned == p.warned
      && (raw.None? || (Reg(f.reg) in p.store && p.store[Reg(f.reg)] == IntVal(raw.value)) ==> r == p)
      && (raw.Some? && !(Reg(f.reg) in p.store && p.store[Reg(f.reg)] == IntVal(raw.value)) ==>
           var hi := raw.value / 256 % 256;
           var lo := raw.value % 256;
           var okHigh := f.highMin <= hi <= f.highMax;
           var okLow := f.lowMin <= lo <= f.lowMax;
           && ((Reg(f.reg) in r.store && r.store[Reg(f.reg)] == IntVal(raw.value)) <==> okHigh && okLow)
           && (okHigh ==> Name(f.highName) in r.store && r.store[Name(f.highName)] == IntVal(hi))
           && (okHigh && okLow ==>
                (Name(f.lowName) in r.store && r.store[Name(f.lowName)] == IntVal(lo) && ScheduleNames * registered <= r.changed))
           && (!okHigh ==> r == p))
  {
  }

  /** The schedule decode: hour = v div 100, minute = v mod 100; a valid
      time is stored as "HH:MM" and the raw value cached; anything else
      leaves the state alone. */
  lemma ScheduleStepSpec(p: Progress, s: (int, string), frame: RawFrame, registered: set<string>)
    ensures var r := ScheduleStep(p, s, frame, registered);
      var raw := FrameGet(frame, s.0);
      && r.unknown == p.unknown && r.warned == p.warned
      && (raw.None? || (Reg(s.0) in p.store && p.store[Reg(s.0)] == IntVal(raw.value)) ==> r == p)
      && (raw.Some? && !(Reg(s.0) in p.store && p.store[Reg(s.0)] == IntVal(raw.value)) ==>
           var hour := raw.value / 100;
           var minute := raw.value % 100;
           && (0 <= hour <= 23 && minute <= 59 ==>
                && Name(s.1) in r.store && r.store[Name(s.1)] == StrVal(ClockText(hour, minute))
                && Reg(s.0) in r.store && r.store[Reg(s.0)] == IntVal(raw.value))
           && (!(0 <= hour <= 23 && minute <= 59) ==> r == p))
  {
  }

  /** A schedule command (text or (hour << 8) | minute) sends HHMM, which
      the notify decode reads back as the same hour and minute; the store
      then holds the time and the raw cache, so the device's echo of that
      value is skipped. */
  lemma ScheduleCommandRoundTrip(store: map<Key, Value>, entities: map<string, Option<Entity>>, names: map<int, string>,
                                 t: Table<int>, cmd: int, hour: nat, minute: nat, frame: RawFrame, registered: set<string>)
    requires IsSchedule(cmd) && hour <= 23 && minute <= 59
    ensures var o := Command(store, entities, names, t, cmd, CInt(hour * 256 + minute));
      && o == Command(store, entities, names, t, cmd, CStr(ClockText(hour, minute)))
      && o.sent == Some(Packed(SlaveId, cmd, HHMM(hour, minute), None))
      && HHMM(hour, minute) / 100 == hour && HHMM(hour, minute) % 100 == minute
      && o.store == store[Name(ScheduleName(cmd)) := StrVal(ClockText(hour, minute))][Reg(cmd) := IntVal(HHMM(hour, minute))]
      && o.raised.None?
    ensures FrameGet(frame, cmd) == Some(HHMM(hour, minute)) ==>
      var p := Progress(Command(store, entities, names, t, cmd, CInt(hour * 256 + minute)).store, {}, {}, []);
      ScheduleStep(p, (cmd, ScheduleName(cmd)), frame, registered) == p
  {
    DivMod(hour, minute, 256);
    DivMod(0, hour, 256);
    DivMod(hour, minute, 100);
    ClockRoundTrip(hour, minute);
  }

  /** A schedule command out of range or of another type sends nothing and
      changes nothing. */
  lemma ScheduleCommandRejects(store: map<Key, Value>, entities: map<string, Option<Entity>>, names: map<int, string>,
                               t: Table<int>, cmd: int, value: CmdValue)
    requires IsSchedule(cmd)
    requires value.CInt? ==> value.i / 256 % 256 > 23 || value.i % 256 > 59
    requires value.CStr? ==> ParseClock(value.s).None? || ParseClock(value.s).value.0 > 23 || ParseClock(value.s).value.1 > 59
    ensures Command(store, entities, names, t, cmd, value) == CmdOut(None, store, None)
  {
  }

  /** Without the correction, a float (or any value that is neither text
      nor an int) sent to a schedule register escapes as UnboundLocalError;
      handle_cmd with the correction drops it, sending and storing nothing. */
  lemma ScheduleFloatUnbound(store: map<Key, Value>, entities: map<string, Option<Entity>>, names: map<int, string>,
                             t: Table<int>, cmd: int, value: CmdValue)
    requires IsSchedule(cmd) && !value.CStr? && !value.CInt?
    ensures ScheduleCommandAsWritten(store, cmd, value) == CmdOut(None, store, Some(UnboundLocalError))
    ensures Command(store, entities, names, t, cmd, value) == CmdOut(None, store, None)
  {
  }

  /** The corrected schedule handler agrees with the code as written on
      every text and int value, and never raises. */
  lemma ScheduleCommandAgrees(store: map<Key, Value>, cmd: int, value: CmdValue)
    requires IsSchedule(cmd)
    ensures value.CStr? || value.CInt? ==> ScheduleCommandAsWritten(store, cmd, value) == ScheduleCommand(store, cmd, value)
    ensures ScheduleCommand(store, cmd, value).raised.None?
  {
  }

  /** A date-time command with both bytes in range sends (high << 8) | low,
      whose bytes split back into the pair, and stores both names and the
      raw cache. */
  lemma BaseCommandSends(store: map<Key, Value>, entities: map<string, Option<Entity>>, names: map<int, string>,
                         t: Table<int>, cmd: int, high: int, low: int)
    requires IsTimeBase(cmd)
    requires BaseOf(cmd).highMin <= high <= BaseOf(cmd).highMax && BaseOf(cmd).lowMin <= low <= BaseOf(cmd).lowMax
    requires !ScheduleUnregistered(entities)
    ensures var f := BaseOf(cmd);
      var o := Command(store, entities, names, t, cmd, CDict(map["high" := CInt(high), "low" := CInt(low)]));
      && o.raised.None?
      && o.sent == Some(Packed(SlaveId, cmd, high * 256 + low, None))
      && (high * 256 + low) / 256 % 256 == high && (high * 256 + low) % 256 == low
      && o.store == store[Name(f.highName) := IntVal(high)][Name(f.lowName) := IntVal(low)][Reg(cmd) := IntVal(high * 256 + low)]
  {
    assert BaseOf(cmd).highName != "unused";
    DivMod(high, low, 256);
    DivMod(0, high, 256);
  }

  /** After a date-time command, the device's echo of the value it sent is
      recognised by the raw cache and skipped. */
  lemma BaseCommandEchoSkipped(store: map<Key, Value>, entities: map<string, Option<Entity>>, names: map<int, string>,
                               t: Table<int>, cmd: int, high: int, low: int, frame: RawFrame, registered: set<string>)
    requires IsTimeBase(cmd)
    requires BaseOf(cmd).highMin <= high <= BaseOf(cmd).highMax && BaseOf(cmd).lowMin <= low <= BaseOf(cmd).lowMax
    requires FrameGet(frame, cmd) == Some(high * 256 + low)
    ensures var p := Progress(Command(store, entities, names, t, cmd, CDict(map["high" := CInt(high), "low" := CInt(low)])).store, {}, {}, []);
      BaseStep(p, BaseOf(cmd), frame, registered) == p
  {
    var o := Command(store, entities, names, t, cmd, CDict(map["high" := CInt(high), "low" := CInt(low)]));
    assert BaseOf(cmd).highName != "unused";
    assert Reg(cmd) in o.store && o.store[Reg(cmd)] == IntVal(high * 256 + low);
  }

  /** A date-time command with a byte out of range, or not a
      {"high", "low"} record, sends nothing and changes nothing. */
  lemma BaseCommandRejects(store: map<Key, Value>, entities: map<string, Option<Entity>>, names: map<int, string>,
                           t: Table<int>, cmd: int, value: CmdValue)
    requires IsTimeBase(cmd)
    requires var f := BaseOf(cmd);
      !(value.CDict? && "high" in value.fields && "low" in value.fields) ||
      !(value.fields["high"].CInt? && f.highMin <= value.fields["high"].i <= f.highMax) ||
      !(value.fields["low"].CInt? && f.lowMin <= value.fields["low"].i <= f.lowMax)
    ensures Command(store, entities, names, t, cmd, value) == CmdOut(None, store, None)
  {
    assert BaseOf(cmd).highName != "unused";
  }

  /** Commands to the time registers never write under the register's
      entity name; any other command stores what it sent only when its
      entity is registered. */
  lemma PlainCommandStores(store: map<Key, Value>, entities: map<string, Option<Entity>>, names: map<int, string>,
                           t: Table<int>, cmd: int, i: int)
    requires !IsTimeRegister(cmd)
    ensures var o := Command(store, entities, names, t, cmd, CInt(i));
      && o.sent == Some(Packed(SlaveId, cmd, i, None))
      && (HasName(names, cmd) && names[cmd] in entities ==> o.store == store[Name(names[cmd]) := IntVal(i)])
      && (!(HasName(names, cmd) && names[cmd] in entities) ==> o.store == store && o.raised.None?)
  {
  }

}
