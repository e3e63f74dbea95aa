/** The JK battery management system plugin: slave 15, sensors, numbers
    with wide default bounds and switches from the descriptor, the generic
    notify rule without unknown-address tracking, and numeric writes with
    function code 10 by default. */
module JkBms {
  import opened Wrappers
  import opened Descriptor
  import opened PluginCommon
  import Base

  /** The BMS's Modbus slave address. */
  const SlaveId := 15

  /** Default function code of a write (write multiple registers). */
  const DefaultWrite := 10

  /** Default bounds and step of a number entry. */
  const DefaultMin := -500000000
  const DefaultMax := 500000000
  const DefaultStep := 1

  /** What one descriptor register contributes: a sensor (the default
      type), a number (bounds and step defaulted) or a switch with its
      write command. */
  function Entry(reg: int, d: RegisterInfo): Pick {
    if !HasTruthyName(d) then Ok(None)
    else
      var name := d.name.value;
      var kind := d.sensorType.GetOr("sensor");
      if kind == "sensor" then Lift(GSensor, SensorEntry(name, d))
      else if kind == "number" then
        Ok(Some((GNumber, NumberEntry(reg, name, Some(d.minValue.GetOr(DefaultMin)), Some(d.maxValue.GetOr(DefaultMax)), d.step.GetOr(DefaultStep)))))
      else if kind == "switch" then
        Ok(Some((GSwitch, RegisterEntry(reg, name).(writeCommand := Some(d.writeCommand.GetOr(DefaultWrite))))))
      else Ok(None)
  }

  class JkBmsDevice {
    const dev: Base.BaseDevice
    const protocol: ProtocolData
    var registerToName: map<int, string>

    ghost predicate Valid()
      reads dev`notifyTask, dev`diagnosticsTask, dev`nextHandle, dev`cancelled, dev`diagnostics, dev`diagnosticEntities
    {
      protocol.registers.WellFormed() && dev.Valid()
    }

    constructor (sn: string, model: string, protocol: ProtocolData)
      requires protocol.registers.WellFormed()
      ensures Valid() && fresh(dev)
      ensures this.protocol == protocol && dev.sn == sn && dev.model == model
      ensures dev.cmdTopic == Base.BuildTopic(sn, "", ["control", "cmd"])
      ensures registerToName == map[] && dev.store == map[] && dev.outbox == []
    {
      dev := new Base.BaseDevice(sn, model, None, true);
      this.protocol := protocol;
      registerToName := map[];
    }

    /** send_config: the descriptor's segments, unchanged, to <sn>/config. */
    method SendConfig()
      modifies dev`outbox
      ensures dev.outbox == old(dev.outbox) + [Base.Message(dev.Topic(["config"]), Base.Config(map[], protocol.segments))]
    {
      dev.Publish(dev.Topic(["config"]), Base.Config(map[], protocol.segments));
    }

    /** unpack_device_info: one loop that names and classifies each register. */
    method UnpackDeviceInfo() returns (r: Result<DeviceInfo>)
      requires Valid()
      modifies this`registerToName
      ensures r == Collect(protocol.registers.Items(), Base.BaseDeviceInfo(dev.diagnosticsEnabled), Entry)
      ensures r.Ok? ==> registerToName == NameMap(protocol.registers.Items(), false)
      ensures var items := protocol.registers.Items();
        r.Err? ==> exists k :: (0 <= k < |items| && PickAt(items, Entry, k).Err? &&
          Collect(items[..k], Base.BaseDeviceInfo(dev.diagnosticsEnabled), Entry).Ok? && registerToName == NameMap(items[..k + 1], false))
    {
      var items := protocol.registers.Items();
      forall i | 0 <= i < |items| ensures !HasTruthyName(items[i].1) ==> PickAt(items, Entry, i) == Ok(None) { }
      registerToName, r := CollectNamed(items, Base.BaseDeviceInfo(dev.diagnosticsEnabled), Entry);
    }

    /** handle_notify: the generic rule, unknown addresses ignored silently. */
    method HandleNotify(frame: RawFrame) returns (refreshed: set<string>)
      requires Valid()
      modifies dev`store, dev`notifyTask, dev`nextHandle, dev`cancelled
      ensures Valid()
      ensures var p := GenericAll(Progress(old(dev.store), {}, {}, []), frame, registerToName, dev.entities.Keys, false);
        dev.store == p.store && refreshed == Refreshed(p.changed, dev.entities)
      ensures dev.notifyTask == Some(old(dev.nextHandle)) && dev.nextHandle == old(dev.nextHandle) + 1
    {
      var changed, _, _ := NotifyLoop(dev, frame, registerToName, false, {}, {}, []);
      refreshed := Refreshed(changed, dev.entities);
      dev.ResetNotifyTimer();
    }

    /** handle_cmd: a numeric value is packed for slave 15 and published;
        nothing else is sent, and the store is never touched. */
    method HandleCmd(cmd: int, value: CmdValue) returns (raised: Option<Raised>)
      modifies dev`outbox
      ensures var c := NumericFrame(protocol.registers, SlaveId, cmd, value, DefaultWrite);
        && (c.Err? ==> raised == Some(c.error) && dev.outbox == old(dev.outbox))
        && (c.Ok? ==> (raised == None &&
             dev.outbox == old(dev.outbox) + (if c.value.Some? then [Base.Message(dev.cmdTopic, Base.Command(c.value.value))] else [])))
    {
      var c := NumericFrame(protocol.registers, SlaveId, cmd, value, DefaultWrite);
      if c.Err? {
        return Some(c.error);
      }
      raised := None;
      if c.value.Some? {
        dev.Publish(dev.cmdTopic, Base.Command(c.value.value));
      }
    }
  }

  // ---------------------------------------------------------------- lemmas

  /** Registers without a non-empty name contribute nothing; numbers carry
      their register and default to the bounds ±500000000 and step 1;
      switches default to write command 10. */
  lemma EntrySpec(reg: int, d: RegisterInfo)
    ensures !HasTruthyName(d) ==> Entry(reg, d) == Ok(None)
    ensures Entry(reg, d).Err? <==>
      HasTruthyName(d) && d.sensorType.GetOr("sensor") == "sensor" && d.enumMap.Some? && EnumMapping(d.enumMap.value).Err?
    ensures Entry(reg, d).Ok? && Entry(reg, d).value.Some? ==>
      var (g, e) := Entry(reg, d).value.value;
      && e.name == d.name.value
      && (g == GSensor <==> d.sensorType.GetOr("sensor") == "sensor")
      && (g == GNumber <==> d.sensorType == Some("number"))
      && (g == GSwitch <==> d.sensorType == Some("switch"))
      && (g == GNumber ==> (e.register == Some(reg) && e.minValue == Some(if d.minValue.Some? then d.minValue.value else -500000000) &&
                            e.maxValue == Some(if d.maxValue.Some? then d.maxValue.value else 500000000) &&
                            e.step == Some(if d.step.Some? then d.step.value else 1)))
      && (g == GSwitch ==> e.register == Some(reg) && e.writeCommand == Some(if d.writeCommand.Some? then d.writeCommand.value else 10))
  {
  }

  /** A numeric write goes to slave 15 with write command 10 unless the
      register names another; a non-numeric value sends nothing. */
  lemma WriteDefaults(t: Table<int>, cmd: int, value: CmdValue)
    requires cmd !in t.entries || t.entries[cmd].writeCommand.None?
    ensures var c := NumericFrame(t, SlaveId, cmd, value, DefaultWrite);
      && (value.CInt? ==> c == Ok(Some(Packed(15, cmd, value.i, Some(10)))))
      && (!value.CInt? && !value.CFloat? ==> c == Ok(None))
  {
  }
}
