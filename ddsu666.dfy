/** The Chint DDSU666 energy meter plugin: configurable slave address,
    sensors and buttons from the descriptor, the generic notify rule
    without unknown-address tracking, and numeric writes that leave the
    store alone. */
module Ddsu666 {
  import opened Wrappers
  import opened Descriptor
  import opened PluginCommon
  import Base

  /** Default function code of a write (write single register). */
  const DefaultWrite := 6

  /** Default value a button press writes. */
  const DefaultPress := 1

  /** send_config's segments: each copied with slave_id set to the device's. */
  function WithSlave(segments: seq<Segment>, slave: int): (r: seq<Segment>)
    ensures |r| == |segments|
  {
    seq(|segments|, i requires 0 <= i < |segments| => segments[i]["slave_id" := JInt(slave)])
  }

  /** What one descriptor register contributes: a sensor (the default type,
      with an enum mapping when given) or a button with its register, write
      command (6 by default) and press value (1 by default). */
  function Entry(reg: int, d: RegisterInfo): Pick {
    if !HasTruthyName(d) then Ok(None)
    else
      var name := d.name.value;
      var kind := d.sensorType.GetOr("sensor");
      if kind == "sensor" then Lift(GSensor, SensorEntry(name, d))
      else if kind == "button" then
        Ok(Some((GButton, RegisterEntry(reg, name).(writeCommand := Some(d.writeCommand.GetOr(DefaultWrite)),
                                                     payloadPress := Some(d.writeValue.GetOr(DefaultPress))))))
      else Ok(None)
  }

  class ChintDdsu666 {
    const dev: Base.BaseDevice
    const protocol: ProtocolData
    const slaveId: int
    var registerToName: map<int, string>

    ghost predicate Valid()
      reads dev`notifyTask, dev`diagnosticsTask, dev`nextHandle, dev`cancelled, dev`diagnostics, dev`diagnosticEntities
    {
      protocol.registers.WellFormed() && dev.Valid()
    }

    constructor (sn: string, model: string, protocol: ProtocolData, id: int)
      requires protocol.registers.WellFormed()
      ensures Valid() && fresh(dev)
      ensures this.protocol == protocol && slaveId == id && dev.sn == sn && dev.model == model
      ensures dev.cmdTopic == Base.BuildTopic(sn, "", ["control", "cmd"])
      ensures registerToName == map[] && dev.store == map[] && dev.outbox == []
    {
      dev := new Base.BaseDevice(sn, model, None, true);
      this.protocol := protocol;
      slaveId := id;
      registerToName := map[];
    }

    /** send_config: the segments with this device's slave_id, to <sn>/config. */
    method SendConfig()
      modifies dev`outbox
      ensures dev.outbox == old(dev.outbox) + [Base.Message(dev.Topic(["config"]), Base.Config(map[], WithSlave(protocol.segments, slaveId)))]
    {
      dev.Publish(dev.Topic(["config"]), Base.Config(map[], WithSlave(protocol.segments, slaveId)));
    }

    /** unpack_device_info: one loop that names every register with a
        non-empty name and then classifies it; an enum key that does not
        parse raises after that register was named. */
    method UnpackDeviceInfo() returns (r: Result<DeviceInfo>)
      requires Valid()
      modifies this`registerToName
      ensures r == Collect(protocol.registers.Items(), Base.BaseDeviceInfo(dev.diagnosticsEnabled), Entry)
      ensures r.Ok? ==> registerToName == NameMap(protocol.registers.Items(), false)
      ensures var items := protocol.registers.Items();
        r.Err? ==> exists k :: (0 <= k < |items| && PickAt(items, Entry, k).Err? &&
          Collect(items[..k], Base.BaseDeviceInfo(dev.diagnosticsEnabled), Entry).Ok? && registerToName == NameMap(items[..k + 1], false))
    {
      var items := protocol.registers.Items();
      forall i | 0 <= i < |items| ensures !HasTruthyName(items[i].1) ==> PickAt(items, Entry, i) == Ok(None) { }
      registerToName, r := CollectNamed(items, Base.BaseDeviceInfo(dev.diagnosticsEnabled), Entry);
    }

    /** handle_notify: the generic rule, unknown addresses ignored silently. */
    method HandleNotify(frame: RawFrame) returns (refreshed: set<string>)
      requires Valid()
      modifies dev`store, dev`notifyTask, dev`nextHandle, dev`cancelled
      ensures Valid()
      ensures var p := GenericAll(Progress(old(dev.store), {}, {}, []), frame, registerToName, dev.entities.Keys, false);
        dev.store == p.store && refreshed == Refreshed(p.changed, dev.entities)
      ensures dev.notifyTask == Some(old(dev.nextHandle)) && dev.nextHandle == old(dev.nextHandle) + 1
    {
      var changed, _, _ := NotifyLoop(dev, frame, registerToName, false, {}, {}, []);
      refreshed := Refreshed(changed, dev.entities);
      dev.ResetNotifyTimer();
    }

    /** handle_cmd: a numeric value is packed and published; nothing else is
        sent, and the store is never touched. */
    method HandleCmd(cmd: int, value: CmdValue) returns (raised: Option<Raised>)
      modifies dev`outbox
      ensures var c := NumericFrame(protocol.registers, slaveId, cmd, value, DefaultWrite);
        && (c.Err? ==> raised == Some(c.error) && dev.outbox == old(dev.outbox))
        && (c.Ok? ==> (raised == None &&
             dev.outbox == old(dev.outbox) + (if c.value.Some? then [Base.Message(dev.cmdTopic, Base.Command(c.value.value))] else [])))
    {
      var c := NumericFrame(protocol.registers, slaveId, cmd, value, DefaultWrite);
      if c.Err? {
        return Some(c.error);
      }
      raised := None;
      if c.value.Some? {
        dev.Publish(dev.cmdTopic, Base.Command(c.value.value));
      }
    }
  }

  // ---------------------------------------------------------------- lemmas

  /** Every rewritten segment carries the device's slave_id, keeps every
      other key and value, and gains no key besides slave_id. */
  lemma WithSlaveSpec(segments: seq<Segment>, slave: int, i: nat, k: string)
    requires i < |segments|
    ensures "slave_id" in WithSlave(segments, slave)[i] && WithSlave(segments, slave)[i]["slave_id"] == JInt(slave)
    ensures k != "slave_id" ==> (k in WithSlave(segments, slave)[i] <==> k in segments[i])
    ensures k != "slave_id" && k in segments[i] ==> WithSlave(segments, slave)[i][k] == segments[i][k]
  {
  }

  /** Registers without a non-empty name contribute nothing; only sensors
      and buttons are kept; a button gets the write command and press value
      of its register, 6 and 1 by default. */
  lemma EntrySpec(reg: int, d: RegisterInfo)
    ensures !HasTruthyName(d) ==> Entry(reg, d) == Ok(None)
    ensures Entry(reg, d).Err? <==>
      HasTruthyName(d) && d.sensorType.GetOr("sensor") == "sensor" && d.enumMap.Some? && EnumMapping(d.enumMap.value).Err?
    ensures Entry(reg, d).Ok? && Entry(reg, d).value.Some? ==>
      var (g, e) := Entry(reg, d).value.value;
      && e.name == d.name.value
      && (g == GSensor || g == GButton)
      && (g == GButton <==> d.sensorType == Some("button"))
      && (g == GButton ==> (e.register == Some(reg) && e.writeCommand == Some(d.writeCommand.GetOr(6)) &&
                            e.payloadPress == Some(d.writeValue.GetOr(1))))
  {
  }
}
