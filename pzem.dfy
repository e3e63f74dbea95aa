/** The PZEM-004T energy meter plugin: sensors and numbers taken from the
    descriptor, the generic notify rule, and writes of numbers and raw
    strings. */
module PZem {
  import opened Wrappers
  import opened Descriptor
  import opened PluginCommon
  import Base

  /** The Modbus slave the meter answers to. */
  const SlaveId := 1

  /** Default function code of a numeric write (write single register). */
  const DefaultWrite := 6

  /** What one descriptor register contributes to unpack_device_info: a
      sensor (the default type), possibly with an enum mapping, or a number
      with its bounds, its step (else its scale, else 1) and its register. */
  function Entry(reg: int, d: RegisterInfo): Pick {
    if !HasUsableName(d) then Ok(None)
    else
      var name := d.name.value;
      var kind := d.sensorType.GetOr("sensor");
      if kind == "sensor" then Lift(GSensor, SensorEntry(name, d))
      else if kind == "number" then Ok(Some((GNumber, NumberEntry(reg, name, d.minValue, d.maxValue, d.step.GetOr(d.scale.GetOr(1))))))
      else Ok(None)
  }

  /** The frame a command publishes and the value then offered to the
      store; None for a value type the meter does not accept. */
  function CmdOutcome(t: Table<int>, cmd: int, value: CmdValue): Result<Option<(Frame, Value)>> {
    match value
    case CStr(s) => Ok(Some((Verbatim(s), StrVal(s))))
    case CInt(_) | CFloat(_) =>
      var info := InfoFor(t, cmd);
      (match NumericWrite(value, info.scale.GetOr(1))
       case Err(x) => Err(x)
       case Ok(v) => Ok(Some((Packed(SlaveId, cmd, v, Some(info.writeCommand.GetOr(DefaultWrite))), IntVal(v)))))
    case _ => Ok(None)
  }

  class PZemV04 {
    const dev: Base.BaseDevice
    const protocol: ProtocolData
    var registerToName: map<int, string>
    var unknown: set<int>
    /** The unknown-register warnings logged, in order. */
    var warned: seq<int>

    ghost predicate Valid()
      reads this`unknown, this`warned, dev`notifyTask, dev`diagnosticsTask, dev`nextHandle, dev`cancelled, dev`diagnostics, dev`diagnosticEntities
    {
      && protocol.registers.WellFormed()
      && dev.Valid()
      && WarnedOnce(unknown, warned)
    }

    constructor (sn: string, model: string, protocol: ProtocolData)
      requires protocol.registers.WellFormed()
      ensures Valid() && fresh(dev)
      ensures this.protocol == protocol && dev.sn == sn && dev.model == model && dev.diagnosticsEnabled
      ensures dev.cmdTopic == sn + "/control/cmd"
      ensures registerToName == map[] && unknown == {} && warned == []
      ensures dev.store == map[] && dev.entities == map[] && dev.outbox == []
    {
      dev := new Base.BaseDevice(sn, model, None, true);
      this.protocol := protocol;
      registerToName := map[];
      unknown := {};
      warned := [];
      new;
      dev.cmdTopic := sn + "/control/cmd";
    }

    /** send_config: the descriptor's segments, unchanged, to sn/config. */
    method SendConfig()
      modifies dev`outbox
      ensures dev.outbox == old(dev.outbox) + [Base.Message(dev.sn + "/config", Base.Config(map[], protocol.segments))]
    {
      dev.Publish(dev.sn + "/config", Base.Config(map[], protocol.segments));
    }

    /** unpack_device_info: first the name map of every register with a
        non-blank name, then the base groups extended register by register. */
    method UnpackDeviceInfo() returns (r: Result<DeviceInfo>)
      requires Valid()
      modifies this`registerToName
      ensures registerToName == NameMap(protocol.registers.Items(), true)
      ensures r == Collect(protocol.registers.Items(), Base.BaseDeviceInfo(dev.diagnosticsEnabled), Entry)
    {
      registerToName := BuildNameMap(protocol.registers.Items(), true);
      r := CollectLoop(protocol.registers.Items(), Base.BaseDeviceInfo(dev.diagnosticsEnabled), Entry);
    }

    /** handle_notify on a decoded frame: the generic rule with a seen-set of
        unknown addresses, then a fresh notify-clear timer. Returns the
        entities whose state is refreshed. */
    method HandleNotify(frame: RawFrame) returns (refreshed: set<string>)
      requires Valid()
      modifies dev`store, dev`notifyTask, dev`nextHandle, dev`cancelled, this`unknown, this`warned
      ensures Valid()
      ensures var p := GenericAll(Progress(old(dev.store), {}, old(unknown), old(warned)), frame, registerToName, dev.entities.Keys, true);
        dev.store == p.store && unknown == p.unknown && warned == p.warned && refreshed == Refreshed(p.changed, dev.entities)
      ensures dev.notifyTask == Some(old(dev.nextHandle)) && dev.nextHandle == old(dev.nextHandle) + 1
    {
      GenericAllUnknown(Progress(dev.store, {}, unknown, warned), frame, registerToName, dev.entities.Keys, true);
      var changed;
      changed, unknown, warned := NotifyLoop(dev, frame, registerToName, true, {}, unknown, warned);
      refreshed := Refreshed(changed, dev.entities);
      dev.ResetNotifyTimer();
    }

    /** handle_cmd: publish the frame on the command topic, then store the
        sent value under the register's name when that entity is
        registered; refreshing an entity unregistered to None raises. */
    method HandleCmd(cmd: int, value: CmdValue) returns (raised: Option<Raised>)
      requires Valid()
      modifies dev`outbox, dev`store
      ensures Valid()
      ensures var c := CmdOutcome(protocol.registers, cmd, value);
        && (c.Err? ==> raised == Some(c.error) && dev.outbox == old(dev.outbox) && dev.store == old(dev.store))
        && (c == Ok(None) ==> raised == None && dev.outbox == old(dev.outbox) && dev.store == old(dev.store))
        && (c.Ok? && c.value.Some? ==>
             && dev.outbox == old(dev.outbox) + [Base.Message(dev.cmdTopic, Base.Command(c.value.value.0))]
             && (if HasName(registerToName, cmd) && registerToName[cmd] in dev.entities
                 then dev.store == old(dev.store)[Name(registerToName[cmd]) := c.value.value.1] &&
                      raised == (if dev.entities[registerToName[cmd]].None? then Some(AttributeError) else None)
                 else dev.store == old(dev.store) && raised == None))
    {
      var c := CmdOutcome(protocol.registers, cmd, value);
      if c.Err? {
        return Some(c.error);
      }
      if c.value.None? {
        return None;
      }
      var (frame, stored) := c.value.value;
      dev.Publish(dev.cmdTopic, Base.Command(frame));
      raised := None;
      if cmd in registerToName && registerToName[cmd] != "" && registerToName[cmd] in dev.entities {
        var name := registerToName[cmd];
        dev.store := dev.store[Name(name) := stored];
        if dev.entities[name].None? {
          raised := Some(AttributeError);
        }
      }
    }
  }

  // ---------------------------------------------------------------- lemmas

  /** Registers without a usable name contribute nothing; a register raises
      exactly when it is a sensor whose enum has a key that does not parse;
      sensors are the default type and numbers carry their register, bounds
      and step. */
  lemma EntrySpec(reg: int, d: RegisterInfo)
    ensures !HasUsableName(d) ==> Entry(reg, d) == Ok(None)
    ensures Entry(reg, d).Err? <==>
      HasUsableName(d) && d.sensorType.GetOr("sensor") == "sensor" && d.enumMap.Some? && EnumMapping(d.enumMap.value).Err?
    ensures Entry(reg, d).Ok? && Entry(reg, d).value.Some? ==>
      var (g, e) := Entry(reg, d).value.value;
      && e.name == d.name.value
      && (g == GSensor <==> d.sensorType.GetOr("sensor") == "sensor")
      && (g == GNumber <==> d.sensorType == Some("number"))
      && (g == GNumber ==> (e.register == Some(reg) && e.minValue == d.minValue && e.maxValue == d.maxValue &&
            e.step == Some(if d.step.Some? then d.step.value else d.scale.GetOr(1))))
    ensures HasUsableName(d) && d.sensorType.GetOr("sensor") in {"sensor", "number"} ==> Entry(reg, d) != Ok(None)
  {
  }

  /** A string is forwarded verbatim and stored as sent; a number is packed
      for slave 1 with the register's write command (6 by default), an int
      unchanged and a float divided by the register's scale; other values
      publish nothing. */
  lemma CmdOutcomeSpec(t: Table<int>, cmd: int, value: CmdValue)
    ensures value.CStr? ==> CmdOutcome(t, cmd, value) == Ok(Some((Verbatim(value.s), StrVal(value.s))))
    ensures value.CInt? ==> (CmdOutcome(t, cmd, value) ==
      Ok(Some((Packed(1, cmd, value.i, Some(if cmd in t.entries && t.entries[cmd].writeCommand.Some? then t.entries[cmd].writeCommand.value else 6)), IntVal(value.i)))))
    ensures value.CFloat? ==> (CmdOutcome(t, cmd, value).Err? <==> cmd in t.entries && t.entries[cmd].scale == Some(0))
    ensures (value.CDict? || value.COther?) ==> CmdOutcome(t, cmd, value) == Ok(None)
  {
  }

  /** A frame whose named values the store already holds leaves the store
      as it is and refreshes no entity. */
  lemma NotifyIdle(store: map<Key, Value>, frame: RawFrame, names: map<int, string>, entities: map<string, Option<Entity>>, unknown: set<int>, warned: seq<int>)
    requires forall i :: 0 <= i < |frame| && NamedAt(frame, names, i) ==>
      Name(NameAt(frame, names, i)) in store && store[Name(NameAt(frame, names, i))] == IntVal(frame[i].1)
    ensures var p := GenericAll(Progress(store, {}, unknown, warned), frame, names, entities.Keys, true);
      p.store == store && Refreshed(p.changed, entities) == {}
  {
    GenericAllIdle(Progress(store, {}, unknown, warned), frame, names, entities.Keys, true);
  }
}
