/** What the Modbus device plugins share: the register-to-name map built
    from the descriptor, and the update rule every handle_notify applies to
    a decoded register: look the name up, store only a differing value,
    report the change only for a registered entity, and note an unknown
    address once. */
module PluginCommon {
  import opened Wrappers
  import opened Descriptor
  import Base

  /** The parts of a plugin's protocol document the plugins read: the
      register table keyed by address, the segments pushed to the device,
      and the serial settings MakeSkyBlue requires. */
  datatype ProtocolData = ProtocolData(
    registers: Table<int>,
    segments: seq<Segment>,
    slaveId: Option<int>,
    readCommand: Option<int>,
    writeCommand: Option<int>)

  /** A decoded notification: (register, raw value) in payload order. */
  type RawFrame = seq<(int, int)>

  /** A decoded frame is a dict: its registers are distinct. */
  predicate DistinctRegs(frame: RawFrame) {
    forall i, j :: 0 <= i < j < |frame| ==> frame[i].0 != frame[j].0
  }

  /** `reg in parsed_data` with its value. */
  function FrameGet(frame: RawFrame, reg: int): (r: Option<int>)
    ensures r.None? <==> forall i :: 0 <= i < |frame| ==> frame[i].0 != reg
    ensures r.Some? ==> exists i :: 0 <= i < |frame| && frame[i] == (reg, r.value)
    ensures DistinctRegs(frame) ==> forall i :: 0 <= i < |frame| && frame[i].0 == reg ==> r == Some(frame[i].1)
  {
    if frame == [] then None
    else if frame[0].0 == reg then Some(frame[0].1)
    else
      var r := FrameGet(frame[1..], reg);
      assert forall i :: 1 <= i < |frame| ==> frame[i] == frame[1..][i - 1];
      r
  }

  /** `del parsed_data[reg]`: the other entries, in their order. */
  function Without(frame: RawFrame, reg: int): (r: RawFrame)
    ensures forall i :: 0 <= i < |r| ==> r[i].0 != reg
    ensures forall x :: x in r <==> x in frame && x.0 != reg
    ensures DistinctRegs(frame) ==> DistinctRegs(r)
  {
    if frame == [] then []
    else
      var rest := Without(frame[1..], reg);
      assert forall x :: x in frame[1..] ==> x in frame;
      if frame[0].0 == reg then rest else [frame[0]] + rest
  }

  /** What handling one notification carries from register to register:
      the store, the set of entities to refresh, the addresses seen
      without a name and the warnings logged for them. */
  datatype Progress = Progress(store: map<Key, Value>, changed: set<string>, unknown: set<int>, warned: seq<int>)

  /** The store and changed set after offering one value under a name. */
  function Update(p: Progress, name: string, v: Value, registered: set<string>): (r: Progress)
    ensures Name(name) in r.store && r.store[Name(name)] == v
    ensures forall k :: k != Name(name) ==> (k in r.store <==> k in p.store) && (k in r.store ==> r.store[k] == p.store[k])
    ensures r.changed == if (Name(name) in p.store && p.store[Name(name)] == v) || name !in registered then p.changed else p.changed + {name}
    ensures r.unknown == p.unknown && r.warned == p.warned
  {
    if Name(name) in p.store && p.store[Name(name)] == v then p
    else p.(store := p.store[Name(name) := v], changed := if name in registered then p.changed + {name} else p.changed)
  }

  /** Whether register reg has a usable name in the map. */
  predicate HasName(names: map<int, string>, reg: int) {
    reg in names && names[reg] != ""
  }

  /** The generic step for one register; track says whether the plugin
      keeps a seen-set of unknown addresses. */
  function Generic(p: Progress, reg: int, v: Value, names: map<int, string>, registered: set<string>, track: bool): Progress {
    if HasName(names, reg) then Update(p, names[reg], v, registered)
    else if track && reg !in p.unknown then p.(unknown := p.unknown + {reg}, warned := p.warned + [reg])
    else p
  }

  /** The generic step over a whole frame. */
  function GenericAll(p: Progress, frame: RawFrame, names: map<int, string>, registered: set<string>, track: bool): Progress
    decreases |frame|
  {
    if frame == [] then p
    else GenericAll(Generic(p, frame[0].0, IntVal(frame[0].1), names, registered, track), frame[1..], names, registered, track)
  }

  /** Entry i of the frame has a name. */
  predicate NamedAt(frame: RawFrame, names: map<int, string>, i: nat)
    requires i < |frame|
  {
    HasName(names, frame[i].0)
  }

  /** The name of a named frame entry. */
  function NameAt(frame: RawFrame, names: map<int, string>, i: nat): string
    requires i < |frame| && NamedAt(frame, names, i)
  {
    names[frame[i].0]
  }

  /** The warnings logged so far are one per unknown address. */
  ghost predicate WarnedOnce(unknown: set<int>, warned: seq<int>) {
    && (forall i, j :: 0 <= i < j < |warned| ==> warned[i] != warned[j])
    && (forall r :: r in unknown <==> r in warned)
  }

  // ---------------------------------------------------------------- lemmas

  /** The store gains exactly the names of the frame's named entries. */
  lemma {:induction false} GenericAllKeys(p: Progress, frame: RawFrame, names: map<int, string>, registered: set<string>, track: bool, k: Key)
    ensures k in GenericAll(p, frame, names, registered, track).store <==>
      k in p.store || exists i :: 0 <= i < |frame| && NamedAt(frame, names, i) && k == Name(NameAt(frame, names, i))
    decreases |frame|
  {
    if frame != [] {
      var q := Generic(p, frame[0].0, IntVal(frame[0].1), names, registered, track);
      GenericAllKeys(q, frame[1..], names, registered, track, k);
      assert k in q.store <==> k in p.store || (NamedAt(frame, names, 0) && k == Name(NameAt(frame, names, 0)));
      if exists i :: 0 <= i < |frame| - 1 && NamedAt(frame[1..], names, i) && k == Name(NameAt(frame[1..], names, i)) {
        var i :| 0 <= i < |frame| - 1 && NamedAt(frame[1..], names, i) && k == Name(NameAt(frame[1..], names, i));
        assert frame[1..][i] == frame[i + 1];
        assert NamedAt(frame, names, i + 1);
      }
      if exists i :: 0 <= i < |frame| && NamedAt(frame, names, i) && k == Name(NameAt(frame, names, i)) {
        var i :| 0 <= i < |frame| && NamedAt(frame, names, i) && k == Name(NameAt(frame, names, i));
        if i > 0 {
          assert frame[1..][i - 1] == frame[i];
          assert NamedAt(frame[1..], names, i - 1);
        }
      }
    }
  }

  /** A key that no named entry of the frame writes keeps its value. */
  lemma {:induction false} GenericAllKeeps(p: Progress, frame: RawFrame, names: map<int, string>, registered: set<string>, track: bool, k: Key)
    requires k in p.store
    requires forall i :: 0 <= i < |frame| && NamedAt(frame, names, i) ==> k != Name(NameAt(frame, names, i))
    ensures var r := GenericAll(p, frame, names, registered, track); k in r.store && r.store[k] == p.store[k]
    decreases |frame|
  {
    if frame != [] {
      var q := Generic(p, frame[0].0, IntVal(frame[0].1), names, registered, track);
      forall i | 0 <= i < |frame| - 1 && NamedAt(frame[1..], names, i) ensures k != Name(NameAt(frame[1..], names, i)) {
        assert frame[1..][i] == frame[i + 1];
        assert NamedAt(frame, names, i + 1);
      }
      if NamedAt(frame, names, 0) {
        assert k != Name(NameAt(frame, names, 0));
      }
      assert k in q.store && q.store[k] == p.store[k];
      GenericAllKeeps(q, frame[1..], names, registered, track, k);
    }
  }

  /** A named entry that no later entry overrides leaves its value in the store. */
  lemma {:induction false} GenericAllLastWins(p: Progress, frame: RawFrame, names: map<int, string>, registered: set<string>, track: bool, i: nat)
    requires i < |frame| && NamedAt(frame, names, i)
    requires forall j :: i < j < |frame| && NamedAt(frame, names, j) ==> NameAt(frame, names, j) != NameAt(frame, names, i)
    ensures var r := GenericAll(p, frame, names, registered, track);
      Name(NameAt(frame, names, i)) in r.store && r.store[Name(NameAt(frame, names, i))] == IntVal(frame[i].1)
    decreases |frame|
  {
    var q := Generic(p, frame[0].0, IntVal(frame[0].1), names, registered, track);
    var n := NameAt(frame, names, i);
    if i > 0 {
      forall j | i - 1 < j < |frame| - 1 && NamedAt(frame[1..], names, j) ensures NameAt(frame[1..], names, j) != NameAt(frame[1..], names, i - 1) {
        assert frame[1..][j] == frame[j + 1];
        assert NamedAt(frame, names, j + 1);
      }
      GenericAllLastWins(q, frame[1..], names, registered, track, i - 1);
    } else {
      forall j | 0 <= j < |frame| - 1 && NamedAt(frame[1..], names, j) ensures Name(n) != Name(NameAt(frame[1..], names, j)) {
        assert frame[1..][j] == frame[j + 1];
        assert NamedAt(frame, names, j + 1);
      }
      GenericAllKeeps(q, frame[1..], names, registered, track, Name(n));
    }
  }

  /** Only registered entities whose name appears in the frame are reported. */
  lemma {:induction false} GenericAllChanged(p: Progress, frame: RawFrame, names: map<int, string>, registered: set<string>, track: bool, n: string)
    requires n in GenericAll(p, frame, names, registered, track).changed
    ensures n in p.changed || (n in registered && exists i :: 0 <= i < |frame| && NamedAt(frame, names, i) && NameAt(frame, names, i) == n)
    decreases |frame|
  {
    if frame != [] {
      var q := Generic(p, frame[0].0, IntVal(frame[0].1), names, registered, track);
      GenericAllChanged(q, frame[1..], names, registered, track, n);
      if n !in q.changed {
        var i :| 0 <= i < |frame| - 1 && NamedAt(frame[1..], names, i) && NameAt(frame[1..], names, i) == n;
        assert frame[1..][i] == frame[i + 1];
        assert NamedAt(frame, names, i + 1);
      } else if n !in p.changed {
        assert NamedAt(frame, names, 0);
      }
    }
  }

  /** A frame that repeats what the store already holds changes nothing and
      reports nothing. */
  lemma {:induction false} GenericAllIdle(p: Progress, frame: RawFrame, names: map<int, string>, registered: set<string>, track: bool)
    requires forall i :: 0 <= i < |frame| && NamedAt(frame, names, i) ==>
      Name(NameAt(frame, names, i)) in p.store && p.store[Name(NameAt(frame, names, i))] == IntVal(frame[i].1)
    ensures GenericAll(p, frame, names, registered, track).store == p.store
    ensures GenericAll(p, frame, names, registered, track).changed == p.changed
    decreases |frame|
  {
    if frame != [] {
      var q := Generic(p, frame[0].0, IntVal(frame[0].1), names, registered, track);
      assert q.store == p.store && q.changed == p.changed;
      forall i | 0 <= i < |frame| - 1 && NamedAt(frame[1..], names, i)
        ensures Name(NameAt(frame[1..], names, i)) in q.store && q.store[Name(NameAt(frame[1..], names, i))] == IntVal(frame[1..][i].1)
      {
        assert frame[1..][i] == frame[i + 1];
        assert NamedAt(frame, names, i + 1);
      }
      GenericAllIdle(q, frame[1..], names, registered, track);
    }
  }

  /** Unknown addresses: with a seen-set, every unnamed address joins it and
      is warned about once; without one, nothing is recorded. */
  lemma {:induction false} GenericAllUnknown(p: Progress, frame: RawFrame, names: map<int, string>, registered: set<string>, track: bool)
    requires WarnedOnce(p.unknown, p.warned)
    ensures var r := GenericAll(p, frame, names, registered, track);
      && WarnedOnce(r.unknown, r.warned)
      && (!track ==> r.unknown == p.unknown && r.warned == p.warned)
      && (track ==> forall reg :: reg in r.unknown <==> reg in p.unknown || exists i :: 0 <= i < |frame| && !NamedAt(frame, names, i) && frame[i].0 == reg)
    decreases |frame|
  {
    if frame != [] {
      var q := Generic(p, frame[0].0, IntVal(frame[0].1), names, registered, track);
      assert WarnedOnce(q.unknown, q.warned);
      GenericAllUnknown(q, frame[1..], names, registered, track);
      var r := GenericAll(p, frame, names, registered, track);
      if track {
        forall reg ensures reg in r.unknown <==> reg in p.unknown || exists i :: 0 <= i < |frame| && !NamedAt(frame, names, i) && frame[i].0 == reg {
          if reg in r.unknown && reg !in q.unknown {
            var i :| 0 <= i < |frame| - 1 && !NamedAt(frame[1..], names, i) && frame[1..][i].0 == reg;
            assert frame[1..][i] == frame[i + 1];
            assert !NamedAt(frame, names, i + 1);
          }
          if exists i :: 0 <= i < |frame| && !NamedAt(frame, names, i) && frame[i].0 == reg {
            var i :| 0 <= i < |frame| && !NamedAt(frame, names, i) && frame[i].0 == reg;
            if i > 0 {
              assert frame[1..][i - 1] == frame[i];
              assert !NamedAt(frame[1..], names, i - 1);
            }
          }
        }
      }
    }
  }

  // ------------------------------------------------ the register-to-name map

  /** Whether a plugin keeps a register in its name map: PZemV04,
      MakeSkyBlue, Megarevo and MakeSkyBlueIoTrix want a non-blank name,
      DDSU666 and JkBMS any non-empty one. */
  predicate Accepts(d: RegisterInfo, strict: bool) {
    if strict then HasUsableName(d) else HasTruthyName(d)
  }

  /** The name map built from the descriptor's registers, in order. */
  function NameMap(items: seq<(int, RegisterInfo)>, strict: bool): map<int, string>
  {
    if items == [] then map[]
    else
      var m := NameMap(items[..|items| - 1], strict);
      var (reg, d) := items[|items| - 1];
      if Accepts(d, strict) then m[reg := d.name.value] else m
  }

  /** With distinct registers, the map holds exactly the accepted
      registers, each with its own name. */
  lemma {:induction false} NameMapSpec(items: seq<(int, RegisterInfo)>, strict: bool, reg: int)
    requires forall i, j :: 0 <= i < j < |items| ==> items[i].0 != items[j].0
    ensures reg in NameMap(items, strict) <==> exists i :: 0 <= i < |items| && items[i].0 == reg && Accepts(items[i].1, strict)
    ensures forall i :: 0 <= i < |items| && items[i].0 == reg && Accepts(items[i].1, strict) ==>
      NameMap(items, strict)[reg] == items[i].1.name.value
  {
    if items != [] {
      var init := items[..|items| - 1];
      NameMapSpec(init, strict, reg);
      forall i | 0 <= i < |init| ensures init[i] == items[i] { }
      if reg in NameMap(items, strict) && reg != items[|items| - 1].0 {
        var i :| 0 <= i < |init| && init[i].0 == reg && Accepts(init[i].1, strict);
      }
    }
  }

  /** Every name in the map is non-empty (so the lookup `if name:` succeeds). */
  lemma {:induction false} NameMapNonEmpty(items: seq<(int, RegisterInfo)>, strict: bool, reg: int)
    requires reg in NameMap(items, strict)
    ensures NameMap(items, strict)[reg] != ""
  {
    var init := items[..|items| - 1];
    if reg in NameMap(init, strict) && (reg != items[|items| - 1].0 || !Accepts(items[|items| - 1].1, strict)) {
      NameMapNonEmpty(init, strict, reg);
    }
  }

  // ---------------------------------------------------- the notify loop

  /** Entities whose state is refreshed after a notification: the changed
      names that are registered with an entity (not unregistered to None). */
  function Refreshed(changed: set<string>, entities: map<string, Option<Entity>>): (r: set<string>)
    ensures forall n :: n in r <==> n in changed && n in entities && entities[n].Some?
  {
    set n | n in changed && n in entities && entities[n].Some?
  }

  /** The loop of handle_notify that offers every decoded register to the
      generic rule, updating the device store and the seen-set in place. */
  method NotifyLoop(dev: Base.BaseDevice, frame: RawFrame, names: map<int, string>, track: bool,
                    changed0: set<string>, unknown0: set<int>, warned0: seq<int>)
      returns (changed: set<string>, unknown: set<int>, warned: seq<int>)
    modifies dev`store
    ensures var r := GenericAll(Progress(old(dev.store), changed0, unknown0, warned0), frame, names, dev.entities.Keys, track);
      dev.store == r.store && changed == r.changed && unknown == r.unknown && warned == r.warned
  {
    ghost var goal := GenericAll(Progress(dev.store, changed0, unknown0, warned0), frame, names, dev.entities.Keys, track);
    changed, unknown, warned := changed0, unknown0, warned0;
    var i := 0;
    while i < |frame|
      invariant 0 <= i <= |frame|
      invariant GenericAll(Progress(dev.store, changed, unknown, warned), frame[i..], names, dev.entities.Keys, track) == goal
      modifies dev`store
    {
      var (reg, v) := frame[i];
      if reg in names && names[reg] != "" {
        var name := names[reg];
        if !(Name(name) in dev.store && dev.store[Name(name)] == IntVal(v)) {
          dev.store := dev.store[Name(name) := IntVal(v)];
          if name in dev.entities {
            changed := changed + {name};
          }
        }
      } else if track && reg !in unknown {
        unknown := unknown + {reg};
        warned := warned + [reg];
      }
      assert frame[i..][1..] == frame[i + 1..];
      i := i + 1;
    }
  }

  // ------------------------------------------------- unpack_device_info

  /** The groups of unpack_device_info an entry can join. */
  datatype Group = GSensor | GNumber | GSelect | GSwitch | GButton | GTime

  /** The entries of one group; an absent "time" group reads as empty. */
  function GroupOf(info: DeviceInfo, g: Group): seq<InfoEntry> {
    match g
    case GSensor => info.sensor
    case GNumber => info.number
    case GSelect => info.select
    case GSwitch => info.switch
    case GButton => info.button
    case GTime => info.time.GetOr([])
  }

  /** device_info[g].append(e), creating the "time" group on first use. */
  function Append(info: DeviceInfo, g: Group, e: InfoEntry): (r: DeviceInfo)
    ensures GroupOf(r, g) == GroupOf(info, g) + [e]
    ensures forall h :: h != g ==> GroupOf(r, h) == GroupOf(info, h)
    ensures r.time.None? <==> info.time.None? && g != GTime
  {
    match g
    case GSensor => info.(sensor := info.sensor + [e])
    case GNumber => info.(number := info.number + [e])
    case GSelect => info.(select := info.select + [e])
    case GSwitch => info.(switch := info.switch + [e])
    case GButton => info.(button := info.button + [e])
    case GTime => info.(time := Some(info.time.GetOr([]) + [e]))
  }

  /** What one descriptor register contributes: nothing, one entry to one
      group, or an exception (an enum key that does not parse). */
  type Pick = Result<Option<(Group, InfoEntry)>>

  function PickAt(items: seq<(int, RegisterInfo)>, entry: (int, RegisterInfo) -> Pick, i: nat): Pick
    requires i < |items|
  {
    entry(items[i].0, items[i].1)
  }

  /** The per-register loop of unpack_device_info over the descriptor's
      registers in order, starting from the base groups. */
  function Collect(items: seq<(int, RegisterInfo)>, base: DeviceInfo, entry: (int, RegisterInfo) -> Pick): Result<DeviceInfo>
  {
    if items == [] then Ok(base)
    else
      match Collect(items[..|items| - 1], base, entry)
      case Err(x) => Err(x)
      case Ok(info) =>
        match entry(items[|items| - 1].0, items[|items| - 1].1)
        case Err(x) => Err(x)
        case Ok(None) => Ok(info)
        case Ok(Some(ge)) => Ok(Append(info, ge.0, ge.1))
  }

  /** Once a register raises, the whole unpack raises with its exception. */
  lemma {:induction false} CollectStops(items: seq<(int, RegisterInfo)>, base: DeviceInfo, entry: (int, RegisterInfo) -> Pick, i: nat)
    requires i < |items| && Collect(items[..i], base, entry).Ok? && PickAt(items, entry, i).Err?
    ensures Collect(items, base, entry) == Err(PickAt(items, entry, i).error)
    decreases |items|
  {
    var init := items[..|items| - 1];
    if i == |items| - 1 {
      assert init == items[..i];
    } else {
      assert init[..i] == items[..i];
      CollectStops(init, base, entry, i);
    }
  }

  /** The unpack succeeds exactly when no register raises. */
  lemma {:induction false} CollectOk(items: seq<(int, RegisterInfo)>, base: DeviceInfo, entry: (int, RegisterInfo) -> Pick)
    ensures Collect(items, base, entry).Ok? <==> forall i :: 0 <= i < |items| ==> PickAt(items, entry, i).Ok?
  {
    if items != [] {
      var init := items[..|items| - 1];
      CollectOk(init, base, entry);
      assert forall i :: 0 <= i < |init| ==> PickAt(init, entry, i) == PickAt(items, entry, i);
      assert PickAt(items, entry, |items| - 1) == entry(items[|items| - 1].0, items[|items| - 1].1);
    }
  }

  /** What one register's pick adds to group g. */
  function Contribution(p: Pick, g: Group): seq<InfoEntry> {
    if p.Ok? && p.value.Some? && p.value.value.0 == g then [p.value.value.1] else []
  }

  /** The entries the registers pick for group g, in register order. */
  function Picked(items: seq<(int, RegisterInfo)>, entry: (int, RegisterInfo) -> Pick, g: Group): seq<InfoEntry>
    decreases |items|
  {
    if items == [] then []
    else Picked(items[..|items| - 1], entry, g) + Contribution(PickAt(items, entry, |items| - 1), g)
  }

  /** On success each group is its base entries followed by the entries the
      registers picked for it, in register order. */
  lemma {:induction false} CollectGroup(items: seq<(int, RegisterInfo)>, base: DeviceInfo, entry: (int, RegisterInfo) -> Pick, g: Group)
    requires Collect(items, base, entry).Ok?
    ensures GroupOf(Collect(items, base, entry).value, g) == GroupOf(base, g) + Picked(items, entry, g)
    decreases |items|
  {
    if items != [] {
      var init := items[..|items| - 1];
      CollectGroup(init, base, entry, g);
      var c := Contribution(PickAt(items, entry, |items| - 1), g);
      assert GroupOf(base, g) + Picked(init, entry, g) + c == GroupOf(base, g) + (Picked(init, entry, g) + c);
    }
  }

  /** An entry is picked for group g exactly when some register picks it
      for g. */
  lemma {:induction false} PickedMembers(items: seq<(int, RegisterInfo)>, entry: (int, RegisterInfo) -> Pick, g: Group, e: InfoEntry)
    ensures e in Picked(items, entry, g) <==> exists i :: 0 <= i < |items| && PickAt(items, entry, i) == Ok(Some((g, e)))
    decreases |items|
  {
    if items != [] {
      var init := items[..|items| - 1];
      PickedMembers(init, entry, g, e);
      assert forall i :: 0 <= i < |init| ==> PickAt(init, entry, i) == PickAt(items, entry, i);
      if e in Contribution(PickAt(items, entry, |items| - 1), g) {
        assert PickAt(items, entry, |items| - 1) == Ok(Some((g, e)));
      }
    }
  }

  /** The loop of unpack_device_info, for plugins that build the name map
      before it. */
  method CollectLoop(items: seq<(int, RegisterInfo)>, base: DeviceInfo, entry: (int, RegisterInfo) -> Pick) returns (r: Result<DeviceInfo>)
    ensures r == Collect(items, base, entry)
  {
    var info := base;
    var i := 0;
    while i < |items|
      invariant 0 <= i <= |items|
      invariant Collect(items[..i], base, entry) == Ok(info)
    {
      var pick := entry(items[i].0, items[i].1);
      if pick.Err? {
        CollectStops(items, base, entry, i);
        return Err(pick.error);
      }
      if pick.value.Some? {
        info := Append(info, pick.value.value.0, pick.value.value.1);
      }
      assert items[..i + 1][..i] == items[..i];
      i := i + 1;
    }
    assert items[..i] == items;
    r := Ok(info);
  }

  /** The loop of unpack_device_info for DDSU666 and JkBMS, which fill the
      name map in the same loop: when a register raises, the map holds the
      registers up to and including the one that raised. */
  method CollectNamed(items: seq<(int, RegisterInfo)>, base: DeviceInfo, entry: (int, RegisterInfo) -> Pick)
      returns (names: map<int, string>, r: Result<DeviceInfo>)
    requires forall i :: 0 <= i < |items| ==> !HasTruthyName(items[i].1) ==> PickAt(items, entry, i) == Ok(None)
    ensures r == Collect(items, base, entry)
    ensures r.Ok? ==> names == NameMap(items, false)
    ensures r.Err? ==> exists k :: (0 <= k < |items| && PickAt(items, entry, k).Err? &&
      Collect(items[..k], base, entry).Ok? && names == NameMap(items[..k + 1], false))
  {
    var info := base;
    names := map[];
    var i := 0;
    while i < |items|
      invariant 0 <= i <= |items|
      invariant Collect(items[..i], base, entry) == Ok(info)
      invariant names == NameMap(items[..i], false)
    {
      assert items[..i + 1][..i] == items[..i];
      var (reg, d) := items[i];
      if !HasTruthyName(d) {
        i := i + 1;
        continue;
      }
      names := names[reg := d.name.value];
      var pick := entry(reg, d);
      if pick.Err? {
        CollectStops(items, base, entry, i);
        return names, Err(pick.error);
      }
      if pick.value.Some? {
        info := Append(info, pick.value.value.0, pick.value.value.1);
      }
      i := i + 1;
    }
    assert items[..i] == items;
    r := Ok(info);
  }

  /** A method-side copy of the name-map construction. */
  method BuildNameMap(items: seq<(int, RegisterInfo)>, strict: bool) returns (names: map<int, string>)
    ensures names == NameMap(items, strict)
  {
    names := map[];
    var i := 0;
    while i < |items|
      invariant 0 <= i <= |items|
      invariant names == NameMap(items[..i], strict)
    {
      assert items[..i + 1][..i] == items[..i];
      if Accepts(items[i].1, strict) {
        names := names[items[i].0 := items[i].1.name.value];
      }
      i := i + 1;
    }
    assert items[..i] == items;
  }

  // ------------------------------------------------------- entry builders

  /** A sensor entry, with the parsed enum mapping when the descriptor has
      an "enum". */
  function SensorEntry(name: string, d: RegisterInfo): (r: Result<InfoEntry>)
    ensures r.Err? <==> d.enumMap.Some? && EnumMapping(d.enumMap.value).Err?
    ensures r.Ok? ==> (r.value.name == name && r.value.register.None? &&
      r.value.enumMapping == (if d.enumMap.Some? then Some(EnumMapping(d.enumMap.value).value) else None))
  {
    if d.enumMap.None? then Ok(Named(name))
    else
      match EnumMapping(d.enumMap.value)
      case Err(x) => Err(x)
      case Ok(m) => Ok(Named(name).(enumMapping := Some(m)))
  }

  /** A select entry: options are the enum values in order; a register with
      no enum contributes nothing. */
  function SelectEntry(reg: int, name: string, d: RegisterInfo): (r: Result<Option<InfoEntry>>)
    ensures r.Err? <==> d.enumMap.Some? && EnumMapping(d.enumMap.value).Err?
    ensures r.Ok? ==> (r.value.Some? <==> d.enumMap.Some?)
    ensures r.Ok? && r.value.Some? ==> (r.value.value.name == name && r.value.value.register == Some(reg) &&
      r.value.value.options == Some(EnumValues(d.enumMap.value)) && r.value.value.enumMapping == Some(EnumMapping(d.enumMap.value).value))
  {
    if d.enumMap.None? then Ok(None)
    else
      match EnumMapping(d.enumMap.value)
      case Err(x) => Err(x)
      case Ok(m) => Ok(Some(Named(name).(register := Some(reg), options := Some(EnumValues(d.enumMap.value)), enumMapping := Some(m))))
  }

  /** A number entry with its bounds, step and register. */
  function NumberEntry(reg: int, name: string, minValue: Option<int>, maxValue: Option<int>, step: int): InfoEntry {
    Named(name).(register := Some(reg), minValue := minValue, maxValue := maxValue, step := Some(step))
  }

  /** A switch, button or time entry: the name and its register. */
  function RegisterEntry(reg: int, name: string): InfoEntry {
    Named(name).(register := Some(reg))
  }

  /** A single-entry pick from a builder that may raise. */
  function Lift(g: Group, r: Result<InfoEntry>): (p: Pick)
    ensures p.Err? <==> r.Err?
    ensures r.Ok? ==> p == Ok(Some((g, r.value)))
  {
    match r
    case Err(x) => Err(x)
    case Ok(e) => Ok(Some((g, e)))
  }

  // --------------------------------------------------------- handle_cmd

  /** Python's int(a / b) on exact values: the quotient truncated toward zero. */
  function TruncDiv(a: int, b: int): int
    requires b != 0
  {
    var q := (if a < 0 then -a else a) / (if b < 0 then -b else b);
    if (a < 0) == (b < 0) then q else -q
  }

  /** The truncated quotient times the divisor lies between zero and the
      dividend and within one divisor of it: rounding is toward zero. */
  lemma TruncDivSpec(a: int, b: int)
    requires b != 0
    ensures var p := TruncDiv(a, b) * b;
      && (a >= 0 ==> 0 <= p <= a && a - p < (if b < 0 then -b else b))
      && (a < 0 ==> a <= p <= 0 && p - a < (if b < 0 then -b else b))
  {
    var aa := if a < 0 then -a else a;
    var bb := if b < 0 then -b else b;
    var q := aa / bb;
    var m := q * bb;
    DivFacts(aa, bb);
    var t := TruncDiv(a, b);
    if a >= 0 && b > 0 {
      assert t == q && b == bb;
    } else if a >= 0 {
      calc {
        t * b;
        (-q) * (-bb);
        { NegProduct(q, bb); }
        m;
      }
    } else if b > 0 {
      calc {
        t * b;
        (-q) * bb;
        { NegProduct(q, bb); }
        -m;
      }
    } else {
      calc {
        t * b;
        q * (-bb);
        { NegProduct(q, bb); }
        -m;
      }
    }
  }

  lemma DivFacts(a: nat, b: nat)
    requires b > 0
    ensures 0 <= (a / b) * b <= a < (a / b) * b + b
  {
    assert a == (a / b) * b + a % b;
  }

  lemma NegProduct(x: int, y: int)
    ensures (-x) * y == -(x * y) && x * (-y) == -(x * y) && (-x) * (-y) == x * y
  {
  }

  /** The register entry a command addresses, or an empty entry. */
  function InfoFor(t: Table<int>, cmd: int): RegisterInfo {
    t.Get(cmd).GetOr(RegisterInfo(None, None, None, None, None, None, None, None, None, None, None, false))
  }

  /** What a command leaves: the frame published (if any), the store, and
      the exception that escaped (if any). */
  datatype CmdOut = CmdOut(sent: Option<Frame>, store: map<Key, Value>, raised: Option<Raised>)

  /** After a frame is published: the value goes into the store under the
      register's name when that entity is registered, and refreshing an
      entity unregistered to None raises AttributeError. */
  function Deliver(store: map<Key, Value>, entities: map<string, Option<Entity>>, names: map<int, string>,
                   cmd: int, frame: Frame, v: Value): CmdOut {
    if HasName(names, cmd) && names[cmd] in entities then
      CmdOut(Some(frame), store[Name(names[cmd]) := v], if entities[names[cmd]].None? then Some(AttributeError) else None)
    else CmdOut(Some(frame), store, None)
  }

  /** The value written for a numeric command: an int as is, a float
      divided by the register's scale and truncated. */
  function NumericWrite(value: CmdValue, scale: int): (r: Result<int>)
    requires value.CInt? || value.CFloat?
    ensures value.CInt? ==> r == Ok(value.i)
    ensures value.CFloat? ==> (r.Err? <==> scale == 0)
    ensures value.CFloat? && scale != 0 ==> r == Ok(TruncDiv(value.f, scale))
  {
    if value.CInt? then Ok(value.i)
    else if scale == 0 then Err(ZeroDivisionError)
    else Ok(TruncDiv(value.f, scale))
  }

  /** The frame of a numeric write with the register's write command (or
      the plugin's default); other value types publish nothing. */
  function NumericFrame(t: Table<int>, slave: int, cmd: int, value: CmdValue, defaultWrite: int): (r: Result<Option<Frame>>)
    ensures !(value.CInt? || value.CFloat?) ==> r == Ok(None)
    ensures r.Ok? && r.value.Some? ==> (r.value.value.Packed? && r.value.value.slave == slave && r.value.value.address == cmd &&
      r.value.value.writeCommand == Some(InfoFor(t, cmd).writeCommand.GetOr(defaultWrite)))
    ensures value.CInt? ==> r == Ok(Some(Packed(slave, cmd, value.i, Some(InfoFor(t, cmd).writeCommand.GetOr(defaultWrite)))))
    ensures value.CFloat? ==> (r.Err? <==> InfoFor(t, cmd).scale == Some(0))
  {
    if !(value.CInt? || value.CFloat?) then Ok(None)
    else
      var info := InfoFor(t, cmd);
      match NumericWrite(value, info.scale.GetOr(1))
      case Err(x) => Err(x)
      case Ok(v) => Ok(Some(Packed(slave, cmd, v, Some(info.writeCommand.GetOr(defaultWrite)))))
  }
}
