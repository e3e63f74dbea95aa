/** The state every device plugin shares: the register value store, the
    entity registries, the diagnostics record, the two clear-timer handles,
    the MQTT subscriptions and what the device has published. */
module Base {
  import opened Wrappers
  import opened NumText
  import opened Descriptor

  /** What a device hands to the MQTT manager. */
  datatype Payload =
    | Text(text: string)
    | Command(frame: Frame)
    | Config(settings: map<string, Json>, segments: seq<Segment>)

  datatype Message = Message(topic: string, payload: Payload)

  /** '/'.join(parts) */
  function JoinParts(parts: seq<string>): string {
    if parts == [] then ""
    else if |parts| == 1 then parts[0]
    else parts[0] + "/" + JoinParts(parts[1..])
  }

  /** _build_topic: "sn/segment/p1/.../pn", or "sn/p1/.../pn" without a segment. */
  function BuildTopic(sn: string, segment: string, parts: seq<string>): string {
    (if segment != "" then sn + "/" + segment else sn) + "/" + JoinParts(parts)
  }

  predicate NoSlash(s: string) { forall i :: 0 <= i < |s| ==> s[i] != '/' }

  /** The diagnostics keys. */
  const DiagnosticKeys: set<string> := {"ssid", "rssi", "led"}

  /** json null for a key the payload lacks, as dict.get does. */
  function JsonGet(data: map<string, Json>, k: string): Json {
    if k in data then data[k] else JNull
  }

  class BaseDevice {
    const sn: string
    const model: string
    const topicSegment: string
    const diagnosticsEnabled: bool
    /** The command topic; several plugins override it after construction. */
    var cmdTopic: string
    /** _data_dict */
    var store: map<Key, Value>
    /** _entities: None once an entity is unregistered. */
    var entities: map<string, Option<Entity>>
    /** _diagnostic_entities: false once unregistered. */
    var diagnosticEntities: map<string, bool>
    /** _diagnostics */
    var diagnostics: map<string, Json>
    /** The handles of the two clear timers; a handle below nextHandle that
        is not in cancelled is still scheduled. */
    var notifyTask: Option<nat>
    var diagnosticsTask: Option<nat>
    var nextHandle: nat
    var cancelled: set<nat>
    /** Topics with a registered MQTT callback. */
    var subscriptions: set<string>
    /** Everything published, oldest first. */
    var outbox: seq<Message>
    /** False once cleanup has dropped the parser, MQTT manager, protocol
        data and Home Assistant references. */
    var attached: bool

    /** A timer handle is live when it was issued and not cancelled. */
    ghost predicate Live(h: nat) reads this`nextHandle, this`cancelled {
      h < nextHandle && h !in cancelled
    }

    ghost predicate TimersValid() reads this`notifyTask, this`diagnosticsTask, this`nextHandle, this`cancelled {
      && (notifyTask.Some? ==> Live(notifyTask.value))
      && (diagnosticsTask.Some? ==> Live(diagnosticsTask.value))
      && (notifyTask.Some? && diagnosticsTask.Some? ==> notifyTask.value != diagnosticsTask.value)
      && (forall h: nat :: Live(h) ==> notifyTask == Some(h) || diagnosticsTask == Some(h))
      && (forall h :: h in cancelled ==> h < nextHandle)
    }

    ghost predicate Valid()
      reads this`notifyTask, this`diagnosticsTask, this`nextHandle, this`cancelled, this`diagnostics, this`diagnosticEntities
    {
      && TimersValid()
      && (diagnosticsEnabled ==> diagnostics.Keys == DiagnosticKeys)
      && (!diagnosticsEnabled ==> diagnostics == map[] && diagnosticEntities == map[] && diagnosticsTask == None)
    }

    constructor (sn: string, model: string, segment: Option<string>, enableDiagnostics: bool)
      ensures Valid()
      ensures this.sn == sn && this.model == model && this.diagnosticsEnabled == enableDiagnostics
      ensures topicSegment == segment.GetOr("")
      ensures cmdTopic == BuildTopic(sn, topicSegment, ["control", "cmd"])
      ensures diagnostics == (if enableDiagnostics then map["ssid" := JNull, "rssi" := JNull, "led" := JNull] else map[])
      ensures store == map[] && entities == map[] && diagnosticEntities == map[]
      ensures notifyTask == None && diagnosticsTask == None && nextHandle == 0 && cancelled == {}
      ensures subscriptions == {} && outbox == [] && attached
    {
      this.sn := sn;
      this.model := model;
      topicSegment := segment.GetOr("");
      diagnosticsEnabled := enableDiagnostics;
      cmdTopic := BuildTopic(sn, segment.GetOr(""), ["control", "cmd"]);
      diagnostics := if enableDiagnostics then map["ssid" := JNull, "rssi" := JNull, "led" := JNull] else map[];
      store := map[];
      entities := map[];
      diagnosticEntities := map[];
      notifyTask := None;
      diagnosticsTask := None;
      nextHandle := 0;
      cancelled := {};
      subscriptions := {};
      outbox := [];
      attached := true;
    }

    /** _build_topic on this device. */
    function Topic(parts: seq<string>): string {
      BuildTopic(sn, topicSegment, parts)
    }

    /** get_dict: the stored value, or None. */
    function GetDict(k: Key): (r: Option<Value>)
      reads this`store
      ensures r.Some? <==> k in store
      ensures r.Some? ==> r.value == store[k]
    {
      if k in store then Some(store[k]) else None
    }

    /** get_diagnostics: a copy of the record, or {} when disabled. */
    function GetDiagnostics(): (r: map<string, Json>)
      reads this`notifyTask, this`diagnosticsTask, this`nextHandle, this`cancelled, this`diagnostics, this`diagnosticEntities
      requires Valid()
      ensures diagnosticsEnabled ==> r == diagnostics && r.Keys == DiagnosticKeys
      ensures !diagnosticsEnabled ==> r == map[]
    {
      if diagnosticsEnabled then diagnostics else map[]
    }

    /** The topics async_init registers callbacks for: notify, online, and
        diagnostics when enabled. */
    function CallbackTopics(): set<string> {
      {Topic(["notify"]), Topic(["online"])} + (if diagnosticsEnabled then {Topic(["diagnostics"])} else {})
    }

    /** mqtt_manager.publish */
    method Publish(topic: string, payload: Payload)
      modifies this`outbox
      ensures outbox == old(outbox) + [Message(topic, payload)]
    {
      outbox := outbox + [Message(topic, payload)];
    }

    /** async_init without the protocol load and send_config: the callback
        registrations and the first two timers. */
    method AsyncInit()
      requires Valid()
      modifies this
      ensures Valid()
      ensures subscriptions == old(subscriptions) + CallbackTopics()
      ensures notifyTask.Some? && (diagnosticsEnabled <==> diagnosticsTask.Some?)
      ensures store == old(store) && entities == old(entities) && diagnostics == old(diagnostics)
      ensures diagnosticEntities == old(diagnosticEntities) && outbox == old(outbox) && cmdTopic == old(cmdTopic)
      ensures attached == old(attached)
    {
      subscriptions := subscriptions + CallbackTopics();
      if diagnosticsEnabled {
        ResetDiagnosticsTimer();
      }
      ResetNotifyTimer();
    }

    /** register_entity */
    method RegisterEntity(name: string, e: Entity)
      modifies this`entities
      ensures entities == old(entities)[name := Some(e)]
    {
      entities := entities[name := Some(e)];
    }

    /** unregister_entity keeps the name with value None; an absent name is left alone. */
    method UnregisterEntity(name: string)
      modifies this`entities
      ensures name in old(entities) ==> entities == old(entities)[name := None]
      ensures name !in old(entities) ==> entities == old(entities)
    {
      if name in entities {
        entities := entities[name := None];
      }
    }

    /** register_diagnostic_entity does nothing when diagnostics are disabled. */
    method RegisterDiagnosticEntity(name: string)
      requires Valid()
      modifies this`diagnosticEntities
      ensures Valid()
      ensures diagnosticEntities == if diagnosticsEnabled then old(diagnosticEntities)[name := true] else old(diagnosticEntities)
    {
      if !diagnosticsEnabled {
        return;
      }
      diagnosticEntities := diagnosticEntities[name := true];
    }

    method UnregisterDiagnosticEntity(name: string)
      requires Valid()
      modifies this`diagnosticEntities
      ensures Valid()
      ensures diagnosticEntities ==
        if diagnosticsEnabled && name in old(diagnosticEntities) then old(diagnosticEntities)[name := false]
        else old(diagnosticEntities)
    {
      if !diagnosticsEnabled {
        return;
      }
      if name in diagnosticEntities {
        diagnosticEntities := diagnosticEntities[name := false];
      }
    }

    /** _reset_diagnostics_clear_timer: cancel the running handle, then
        schedule a fresh one; nothing when diagnostics are disabled. */
    method ResetDiagnosticsTimer()
      requires Valid()
      modifies this`diagnosticsTask, this`nextHandle, this`cancelled
      ensures Valid()
      ensures !diagnosticsEnabled ==> diagnosticsTask == old(diagnosticsTask) && nextHandle == old(nextHandle) && cancelled == old(cancelled)
      ensures diagnosticsEnabled ==>
        && diagnosticsTask == Some(old(nextHandle)) && nextHandle == old(nextHandle) + 1
        && cancelled == old(cancelled) + (if old(diagnosticsTask).Some? then {old(diagnosticsTask).value} else {})
    {
      if !diagnosticsEnabled {
        return;
      }
      if diagnosticsTask.Some? {
        cancelled := cancelled + {diagnosticsTask.value};
      }
      diagnosticsTask := Some(nextHandle);
      nextHandle := nextHandle + 1;
      forall h: nat | Live(h) ensures notifyTask == Some(h) || diagnosticsTask == Some(h) {
        if h != old(nextHandle) {
          assert old(Live(h));
        }
      }
    }

    /** _reset_notify_clear_timer: at most one notify timer is ever live. */
    method ResetNotifyTimer()
      requires Valid()
      modifies this`notifyTask, this`nextHandle, this`cancelled
      ensures Valid()
      ensures notifyTask == Some(old(nextHandle)) && nextHandle == old(nextHandle) + 1
      ensures cancelled == old(cancelled) + (if old(notifyTask).Some? then {old(notifyTask).value} else {})
    {
      if notifyTask.Some? {
        cancelled := cancelled + {notifyTask.value};
      }
      notifyTask := Some(nextHandle);
      nextHandle := nextHandle + 1;
      forall h: nat | Live(h) ensures notifyTask == Some(h) || diagnosticsTask == Some(h) {
        if h != old(nextHandle) {
          assert old(Live(h));
        }
      }
    }

    /** _clear_diagnostics: ssid, rssi and led back to null, then every
        diagnostic entity still registered is refreshed. */
    method ClearDiagnostics() returns (refreshed: set<string>)
      requires Valid()
      modifies this`diagnostics
      ensures Valid()
      ensures diagnostics == if diagnosticsEnabled then map["ssid" := JNull, "rssi" := JNull, "led" := JNull] else old(diagnostics)
      ensures diagnosticsEnabled ==> forall n :: n in refreshed <==> n in diagnosticEntities && diagnosticEntities[n]
      ensures !diagnosticsEnabled ==> refreshed == {}
    {
      if !diagnosticsEnabled {
        return {};
      }
      diagnostics := diagnostics["ssid" := JNull]["rssi" := JNull]["led" := JNull];
      refreshed := set n | n in diagnosticEntities && diagnosticEntities[n];
    }

    /** _clear_notify: dict.clear() on the store, then every entity still
        registered is refreshed. */
    method ClearNotify() returns (refreshed: set<string>)
      modifies this`store
      ensures store == map[]
      ensures forall n :: n in refreshed <==> n in entities && entities[n].Some?
    {
      store := map[];
      refreshed := set n | n in entities && entities[n].Some?;
    }

    /** update_diagnostics: ssid and rssi as given (null when absent), led
        true exactly when the payload's led is "on"; then the diagnostics
        timer is reset and every diagnostic entity still registered is
        refreshed. */
    method UpdateDiagnostics(data: map<string, Json>) returns (refreshed: set<string>)
      requires Valid()
      modifies this`diagnostics, this`diagnosticsTask, this`nextHandle, this`cancelled
      ensures Valid()
      ensures !diagnosticsEnabled ==>
        && diagnostics == old(diagnostics) && diagnosticsTask == old(diagnosticsTask)
        && nextHandle == old(nextHandle) && cancelled == old(cancelled)
        && refreshed == {}
      ensures diagnosticsEnabled ==> forall n :: n in refreshed <==> n in diagnosticEntities && diagnosticEntities[n]
      ensures diagnosticsEnabled ==>
        && diagnostics == map["ssid" := JsonGet(data, "ssid"), "rssi" := JsonGet(data, "rssi"),
                              "led" := JBool(JsonGet(data, "led") == JStr("on"))]
        && diagnosticsTask == Some(old(nextHandle))
    {
      if !diagnosticsEnabled {
        return {};
      }
      diagnostics := diagnostics["ssid" := JsonGet(data, "ssid")]["rssi" := JsonGet(data, "rssi")]
                                ["led" := JBool(JsonGet(data, "led") == JStr("on"))];
      ResetDiagnosticsTimer();
      refreshed := set n | n in diagnosticEntities && diagnosticEntities[n];
    }

    /** perform_action publishes only "restart" and "reconfig", to control/<action>. */
    method PerformAction(action: string)
      modifies this`outbox
      ensures outbox == old(outbox) + (if action in {"restart", "reconfig"} then [Message(Topic(["control", action]), Text(action))] else [])
    {
      if action in {"restart", "reconfig"} {
        Publish(Topic(["control", action]), Text(action));
      }
    }

    /** set_led: record the state, publish "on"/"off" to control/led, reset
        the diagnostics timer and refresh every diagnostic entity still
        registered; nothing when diagnostics are disabled. */
    method SetLed(state: bool) returns (refreshed: set<string>)
      requires Valid()
      modifies this`diagnostics, this`outbox, this`diagnosticsTask, this`nextHandle, this`cancelled
      ensures Valid()
      ensures !diagnosticsEnabled ==>
        && diagnostics == old(diagnostics) && outbox == old(outbox) && diagnosticsTask == old(diagnosticsTask)
        && nextHandle == old(nextHandle) && cancelled == old(cancelled)
        && refreshed == {}
      ensures diagnosticsEnabled ==> forall n :: n in refreshed <==> n in diagnosticEntities && diagnosticEntities[n]
      ensures diagnosticsEnabled ==>
        && diagnostics == old(diagnostics)["led" := JBool(state)]
        && outbox == old(outbox) + [Message(Topic(["control", "led"]), Text(if state then "on" else "off"))]
        && diagnosticsTask == Some(old(nextHandle))
    {
      if !diagnosticsEnabled {
        return {};
      }
      diagnostics := diagnostics["led" := JBool(state)];
      Publish(Topic(["control", "led"]), Text(if state then "on" else "off"));
      ResetDiagnosticsTimer();
      refreshed := set n | n in diagnosticEntities && diagnosticEntities[n];
    }

    /** cleanup: unsubscribe, drop both registries and the store, cancel
        both timers, release the references. */
    method Cleanup()
      requires Valid()
      modifies this
      ensures Valid()
      ensures subscriptions == old(subscriptions) - CallbackTopics()
      ensures entities == map[] && diagnosticEntities == map[] && store == map[]
      ensures notifyTask == None && diagnosticsTask == None
      ensures forall h: nat :: !Live(h)
      ensures cancelled == old(cancelled) + old(TaskHandles())
      ensures nextHandle == old(nextHandle) && diagnostics == old(diagnostics) && outbox == old(outbox)
      ensures !attached
    {
      subscriptions := subscriptions - CallbackTopics();
      diagnosticEntities := map[];
      entities := map[];
      attached := false;
      store := map[];
      CancelTimers();
    }

    /** The handles of the timers currently scheduled. */
    function TaskHandles(): set<nat> reads this`notifyTask, this`diagnosticsTask {
      (if notifyTask.Some? then {notifyTask.value} else {})
        + (if diagnosticsTask.Some? then {diagnosticsTask.value} else {})
    }

    /** Cancel both timers and forget their handles. */
    method CancelTimers()
      requires TimersValid()
      modifies this`notifyTask, this`diagnosticsTask, this`cancelled
      ensures TimersValid()
      ensures notifyTask == None && diagnosticsTask == None
      ensures cancelled == old(cancelled) + old(TaskHandles())
      ensures forall h: nat :: !Live(h)
    {
      cancelled := cancelled + TaskHandles();
      diagnosticsTask := None;
      notifyTask := None;
      forall h: nat | h < nextHandle && h !in old(cancelled) ensures h in cancelled {
        assert old(Live(h));
      }
    }
  }

  /** A diagnostic entry of the base device information. */
  function Diagnostic(name: string): InfoEntry {
    Named(name).(diagnostic := true)
  }

  /** The base unpack_device_info. */
  function BaseDeviceInfo(diagnosticsEnabled: bool): (r: DeviceInfo)
    ensures r.number == [] && r.select == [] && r.time.None?
    ensures !diagnosticsEnabled ==> r.sensor == [] && r.switch == [] && r.button == []
    ensures diagnosticsEnabled ==>
      && |r.sensor| == 2 && |r.switch| == 1 && |r.button| == 2
      && (forall e :: e in r.sensor + r.switch + r.button ==> e.diagnostic && e.register.None?)
      && r.sensor[0].name == "SSID" && r.sensor[1].name == "RSSI" && r.switch[0].name == "LED"
      && r.button[0].name == "restart" && r.button[1].name == "reconfig"
  {
    if diagnosticsEnabled then
      DeviceInfo([Diagnostic("SSID"), Diagnostic("RSSI")], [], [], [Diagnostic("LED")],
                 [Diagnostic("restart"), Diagnostic("reconfig")], None)
    else DeviceInfo([], [], [], [], [], None)
  }

  // ---------------------------------------------------------------- lemmas

  lemma {:induction false} JoinPartsFields(parts: seq<string>)
    requires parts != []
    requires forall i :: 0 <= i < |parts| ==> NoSlash(parts[i])
    ensures Fields(JoinParts(parts), '/') == parts
  {
    if |parts| == 1 {
      FieldsNoSep(parts[0], '/');
    } else {
      JoinPartsFields(parts[1..]);
      FieldsSplit(parts[0], '/', JoinParts(parts[1..]));
      assert [parts[0]] + parts[1..] == parts;
    }
  }

  /** Splitting a built topic at '/' gives back the serial number, the
      segment when there is one, and the parts. */
  lemma TopicFields(sn: string, segment: string, parts: seq<string>)
    requires NoSlash(sn) && NoSlash(segment) && parts != []
    requires forall i :: 0 <= i < |parts| ==> NoSlash(parts[i])
    ensures Fields(BuildTopic(sn, segment, parts), '/') == [sn] + (if segment != "" then [segment] else []) + parts
  {
    JoinPartsFields(parts);
    if segment != "" {
      assert BuildTopic(sn, segment, parts) == sn + "/" + (segment + "/" + JoinParts(parts));
      FieldsSplit(segment, '/', JoinParts(parts));
      FieldsSplit(sn, '/', segment + "/" + JoinParts(parts));
    } else {
      FieldsSplit(sn, '/', JoinParts(parts));
    }
  }

  /** Two devices' topics coincide only when serial, segment and parts all do. */
  lemma TopicInjective(sn1: string, seg1: string, p1: seq<string>, sn2: string, seg2: string, p2: seq<string>)
    requires NoSlash(sn1) && NoSlash(seg1) && p1 != [] && forall i :: 0 <= i < |p1| ==> NoSlash(p1[i])
    requires NoSlash(sn2) && NoSlash(seg2) && p2 != [] && forall i :: 0 <= i < |p2| ==> NoSlash(p2[i])
    requires seg1 != "" && seg2 != ""
    ensures BuildTopic(sn1, seg1, p1) == BuildTopic(sn2, seg2, p2) ==> sn1 == sn2 && seg1 == seg2 && p1 == p2
  {
    TopicFields(sn1, seg1, p1);
    TopicFields(sn2, seg2, p2);
    if BuildTopic(sn1, seg1, p1) == BuildTopic(sn2, seg2, p2) {
      var f := [sn1] + [seg1] + p1;
      assert f[0] == sn1 && f[1] == seg1 && f[2..] == p1;
      var g := [sn2] + [seg2] + p2;
      assert g[0] == sn2 && g[1] == seg2 && g[2..] == p2;
    }
  }
}
