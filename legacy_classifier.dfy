/** The older MakeSkyBlue plugin's unpack_device_info: each register of the
    descriptor is classified by its access mode, read-only registers
    becoming sensors, read-write registers with a range becoming numbers
    and read-write registers with an enum (and no range) becoming selects
    whose options are the enum's values in document order. */
module LegacyClassifier {
  import opened Wrappers
  import opened Descriptor

  /** One emitted entry: the entity name, the descriptor key it came from
      and, for a select, its options. */
  datatype Brief = Brief(name: string, register: string, options: seq<string>)

  /** The three groups the old plugin emits. */
  datatype Groups = Groups(sensor: seq<Brief>, number: seq<Brief>, select: seq<Brief>)

  /** Where one register goes. */
  datatype Place = Sensor | Number | Select | Dropped

  function PlaceOf(d: RegisterInfo): Place {
    if d.access == Some("R") then Sensor
    else if d.access == Some("RW") then
      if d.hasRange then Number
      else if d.enumMap.Some? then Select
      else Dropped
    else Dropped
  }

  /** The entry a placed register contributes. */
  function BriefOf(register: string, d: RegisterInfo): Brief
    requires d.name.Some?
  {
    Brief(d.name.value, register, if PlaceOf(d) == Select then EnumValues(d.enumMap.value) else [])
  }

  /** Append a register to its group; "name" and "access" are read first,
      so a register missing either raises KeyError even if it would be
      dropped. */
  function Place1(g: Groups, register: string, d: RegisterInfo): Result<Groups> {
    if d.name.None? || d.access.None? then Err(KeyError)
    else
      match PlaceOf(d)
      case Sensor => Ok(g.(sensor := g.sensor + [BriefOf(register, d)]))
      case Number => Ok(g.(number := g.number + [BriefOf(register, d)]))
      case Select => Ok(g.(select := g.select + [BriefOf(register, d)]))
      case Dropped => Ok(g)
  }

  /** The registers from the given one on, appended in document order. */
  function Classify(g: Groups, items: seq<(string, RegisterInfo)>): Result<Groups>
    decreases |items|
  {
    if items == [] then Ok(g)
    else
      match Place1(g, items[0].0, items[0].1)
      case Err(x) => Err(x)
      case Ok(h) => Classify(h, items[1..])
  }

  /** unpack_device_info. */
  method UnpackDeviceInfo(registers: Table<string>) returns (r: Result<Groups>)
    requires registers.WellFormed()
    ensures r == Classify(Groups([], [], []), registers.Items())
  {
    var items := registers.Items();
    var sensor, number, select := [], [], [];
    var i := 0;
    while i < |items|
      invariant 0 <= i <= |items|
      invariant Classify(Groups(sensor, number, select), items[i..]) == Classify(Groups([], [], []), items)
    {
      assert items[i..][1..] == items[i + 1..];
      var (register, d) := items[i];
      if d.name.None? || d.access.None? {
        return Err(KeyError);
      }
      var name := d.name.value;
      if d.access.value == "R" {
        sensor := sensor + [Brief(name, register, [])];
      } else if d.access.value == "RW" {
        if d.hasRange {
          number := number + [Brief(name, register, [])];
        } else if d.enumMap.Some? {
          select := select + [Brief(name, register, EnumValues(d.enumMap.value))];
        }
      }
      i := i + 1;
    }
    assert items[i..] == [];
    r := Ok(Groups(sensor, number, select));
  }

  // ---------------------------------------------------------------- lemmas

  /** The classification fails exactly when some register lacks "name" or
      "access". */
  lemma {:induction false} ClassifyFails(g: Groups, items: seq<(string, RegisterInfo)>)
    ensures Classify(g, items).Err? <==> exists i :: 0 <= i < |items| && (items[i].1.name.None? || items[i].1.access.None?)
    ensures Classify(g, items).Err? ==> Classify(g, items).error == KeyError
    decreases |items|
  {
    if items != [] {
      var p := Place1(g, items[0].0, items[0].1);
      if p.Ok? {
        ClassifyFails(p.value, items[1..]);
        if exists i :: 0 <= i < |items[1..]| && (items[1..][i].1.name.None? || items[1..][i].1.access.None?) {
          var i :| 0 <= i < |items[1..]| && (items[1..][i].1.name.None? || items[1..][i].1.access.None?);
          assert items[i + 1] == items[1..][i];
        }
        if exists i :: 0 <= i < |items| && (items[i].1.name.None? || items[i].1.access.None?) {
          var i :| 0 <= i < |items| && (items[i].1.name.None? || items[i].1.access.None?);
          assert i != 0;
          assert items[1..][i - 1] == items[i];
        }
      }
    }
  }

  /** The entries of the registers placed in the given group, in document
      order. */
  function Placed(items: seq<(string, RegisterInfo)>, place: Place): seq<Brief>
    requires forall i :: 0 <= i < |items| ==> items[i].1.name.Some?
    decreases |items|
  {
    if items == [] then []
    else (if PlaceOf(items[0].1) == place then [BriefOf(items[0].0, items[0].1)] else []) + Placed(items[1..], place)
  }

  /** The group a place names (nothing for a dropped register). */
  function GroupOf(g: Groups, place: Place): seq<Brief> {
    match place
    case Sensor => g.sensor
    case Number => g.number
    case Select => g.select
    case Dropped => []
  }

  /** Placing one register appends its entry to its own group only. */
  lemma Place1Groups(g: Groups, register: string, d: RegisterInfo, place: Place)
    requires d.name.Some? && d.access.Some? && place != Dropped
    ensures Place1(g, register, d).Ok?
    ensures GroupOf(Place1(g, register, d).value, place) == GroupOf(g, place) + (if PlaceOf(d) == place then [BriefOf(register, d)] else [])
  {
  }

  /** Without a register lacking "name" or "access" the classification
      succeeds, and each group is what it held before followed by the
      entries of the registers placed in it, in document order. */
  lemma {:induction false} ClassifyGroups(g: Groups, items: seq<(string, RegisterInfo)>, place: Place)
    requires place != Dropped
    requires forall i :: 0 <= i < |items| ==> items[i].1.name.Some? && items[i].1.access.Some?
    ensures Classify(g, items).Ok?
    ensures GroupOf(Classify(g, items).value, place) == GroupOf(g, place) + Placed(items, place)
    decreases |items|
  {
    if items != [] {
      var rest := items[1..];
      assert forall i :: 0 <= i < |rest| ==> rest[i] == items[i + 1];
      Place1Groups(g, items[0].0, items[0].1, place);
      var h := Place1(g, items[0].0, items[0].1).value;
      ClassifyGroups(h, rest, place);
      var b := if PlaceOf(items[0].1) == place then [BriefOf(items[0].0, items[0].1)] else [];
      assert GroupOf(g, place) + b + Placed(rest, place) == GroupOf(g, place) + (b + Placed(rest, place));
    }
  }

  /** A register is in exactly the group its access decides (a range wins
      over an enum; other access modes are dropped), with its key and, for
      a select, the enum's values in order. */
  lemma {:induction false} PlacedMembers(items: seq<(string, RegisterInfo)>, place: Place, b: Brief)
    requires place != Dropped
    requires forall i :: 0 <= i < |items| ==> items[i].1.name.Some?
    ensures b in Placed(items, place) <==>
      exists i :: 0 <= i < |items| && PlaceOf(items[i].1) == place && b == BriefOf(items[i].0, items[i].1)
    decreases |items|
  {
    if items != [] {
      var rest := items[1..];
      assert forall i :: 0 <= i < |rest| ==> rest[i] == items[i + 1];
      PlacedMembers(rest, place, b);
      if b in Placed(rest, place) {
        var i :| 0 <= i < |rest| && PlaceOf(rest[i].1) == place && b == BriefOf(rest[i].0, rest[i].1);
        assert items[i + 1] == rest[i];
      }
      if exists i :: 0 <= i < |items| && PlaceOf(items[i].1) == place && b == BriefOf(items[i].0, items[i].1) {
        var i :| 0 <= i < |items| && PlaceOf(items[i].1) == place && b == BriefOf(items[i].0, items[i].1);
        if i > 0 {
          assert rest[i - 1] == items[i];
        }
      }
    }
  }

  /** Every register lands in at most one group, so the three groups
      together hold no more entries than there are registers. */
  lemma {:induction false} PlacedCount(items: seq<(string, RegisterInfo)>)
    requires forall i :: 0 <= i < |items| ==> items[i].1.name.Some?
    ensures |Placed(items, Sensor)| + |Placed(items, Number)| + |Placed(items, Select)| <= |items|
    decreases |items|
  {
    if items != [] {
      assert forall i :: 0 <= i < |items[1..]| ==> items[1..][i] == items[i + 1];
      PlacedCount(items[1..]);
    }
  }

  /** A read-write register with both a range and an enum is a number. */
  lemma RangeBeatsEnum(d: RegisterInfo)
    requires d.access == Some("RW") && d.hasRange && d.enumMap.Some?
    ensures PlaceOf(d) == Number
  {
  }
}
