/** The Jupiter data tree: every declared field under its name, for any table of packet sources. */
module JupiterData {
  import opened Wrappers
  import opened Paths
  import opened PathKeys
  import opened Schema
  import opened Sequences
  import opened Frames
  import opened Bytes
  import opened Freshness
  import opened Jupiter

  /** The packet sources of each leaf, by section and name, and the strides of each repeated section. */
  datatype Declarations = Declarations(
    sources: (string, string) -> map<Packet, Source<JupiterValue>>, strides: string -> map<Packet, Stride>)

  type JupiterFields = seq<Field<string, JupiterValue>>

  const ROOT_NAMES: seq<string> := [
    "runtime", "energy", "inverter", "mppt", "pv_inputs", "battery", "events", "identity", "raw_status"]

  const PV_NAMES: seq<string> := ["power", "connected", "voltage", "current"]

  const RUNTIME_NAMES: seq<string> := [
    "ac_output_power", "grid_connection_valid", "ac_output_active", "battery_state", "stored_battery_energy",
    "battery_soc", "operational_status", "surplus_feed_in_active", "ems_firmware_version",
    "inverter_firmware_version", "mppt_firmware_version", "bms_firmware_version"]

  const ENERGY_NAMES: seq<string> := [
    "daily_pv_generation", "monthly_pv_generation", "total_pv_generation", "daily_output_energy",
    "monthly_output_energy", "local_total_output_energy"]

  const INVERTER_NAMES: seq<string> := [
    "state_flags", "error_code", "warning_code", "grid_voltage", "grid_current", "grid_power_factor",
    "grid_frequency", "bus_voltage", "temperature"]

  const MPPT_NAMES: seq<string> := [
    "state_flags", "controller_ready", "pv_input_1_active", "pv_input_2_active", "pv_input_3_active",
    "pv_input_4_active", "error_code", "temperature", "warning_code", "dc_output_voltage", "dc_output_current"]

  const PACK_NAMES: seq<string> := [
    "highest_cell_index", "lowest_cell_index", "highest_cell_voltage", "lowest_cell_voltage", "status"]

  const BATTERY_LIMITS: seq<string> := [
    "base_voltage", "pe_voltage", "charge_voltage_limit", "charge_current_limit", "discharge_current_limit", "soh",
    "rated_capacity", "voltage", "current", "temperature"]

  const BATTERY_STATUS: seq<string> := [
    "error_code_1", "warning_code_1", "error_code_2", "warning_code_2", "cell_flags", "status_flags", "pack_count",
    "packs", "temp_sensor_1", "temp_sensor_2", "temp_sensor_3", "temp_sensor_4", "environment_temperature",
    "mosfet_temperature"]

  const BATTERY_NAMES: seq<string> := BATTERY_LIMITS + BATTERY_STATUS

  const EVENT_NAMES: seq<string> := [
    "summary", "year", "month", "day", "hour", "minute", "event_code", "event_value", "event_state"]

  const IDENTITY_NAMES: seq<string> := ["device_type", "device_id", "mac_address", "wifi_ssid"]

  const RAW_NAMES: seq<string> := ["status_21", "status_22", "status_24"]

  // ----- the tree -----

  function Fields(names: seq<string>, node: string -> Node<string, JupiterValue>): JupiterFields {
    if names == [] then [] else [Field(names[0], node(names[0]))] + Fields(names[1..], node)
  }

  function Leaves(d: Declarations, section: string, names: seq<string>): JupiterFields {
    Fields(names, name => Leaf(d.sources(section, name), Nothing))
  }

  function Same(count: nat, record: Record<string, JupiterValue>): seq<Record<string, JupiterValue>> {
    if count == 0 then [] else [record] + Same(count - 1, record)
  }

  function Repeat(d: Declarations, section: string, count: nat, names: seq<string>): Node<string, JupiterValue> {
    Repeated(count, d.strides(section), Same(count, Record(Leaves(d, section, names))))
  }

  function Body(fields: JupiterFields): Node<string, JupiterValue> {
    Section(None, Record(fields))
  }

  function BatteryNode(d: Declarations, name: string): Node<string, JupiterValue> {
    if name == "packs" then Repeat(d, "packs", 4, PACK_NAMES) else Leaf(d.sources("battery", name), Nothing)
  }

  function RootNode(d: Declarations, name: string): Node<string, JupiterValue> {
    if name == "runtime" then Body(Leaves(d, "runtime", RUNTIME_NAMES))
    else if name == "energy" then Body(Leaves(d, "energy", ENERGY_NAMES))
    else if name == "inverter" then Body(Leaves(d, "inverter", INVERTER_NAMES))
    else if name == "mppt" then Body(Leaves(d, "mppt", MPPT_NAMES))
    else if name == "pv_inputs" then Repeat(d, "pv_inputs", 4, PV_NAMES)
    else if name == "battery" then Body(Fields(BATTERY_NAMES, n => BatteryNode(d, n)))
    else if name == "events" then Repeat(d, "events", 20, EVENT_NAMES)
    else if name == "identity" then Body(Fields(IDENTITY_NAMES, _ => Plain(Nothing)))
    else Body(Leaves(d, "raw_status", RAW_NAMES))
  }

  /** A fresh `JupiterData`. */
  function JupiterTree(d: Declarations): JupiterFields {
    Fields(ROOT_NAMES, name => RootNode(d, name))
  }

  // ----- names -----

  ghost predicate GoodNames(names: seq<string>) {
    (forall i | 0 <= i < |names| :: Identifier(names[i])) && NoRepeat(names)
  }

  lemma RootNamesAreGood()
    ensures GoodNames(ROOT_NAMES)
  {
  }

  lemma PvNamesAreGood()
    ensures GoodNames(PV_NAMES)
  {
  }

  lemma RuntimeNamesAreIdentifiers()
    ensures forall i | 0 <= i < |RUNTIME_NAMES| :: Identifier(RUNTIME_NAMES[i])
  {
  }

  lemma RuntimeNamesDiffer()
    ensures NoRepeat(RUNTIME_NAMES)
  {
  }

  lemma RuntimeNamesAreGood()
    ensures GoodNames(RUNTIME_NAMES)
  {
    hide Identifier, NoRepeat;
    RuntimeNamesAreIdentifiers();
    RuntimeNamesDiffer();
  }

  lemma EnergyNamesAreIdentifiers()
    ensures forall i | 0 <= i < |ENERGY_NAMES| :: Identifier(ENERGY_NAMES[i])
  {
  }

  lemma EnergyNamesDiffer()
    ensures NoRepeat(ENERGY_NAMES)
  {
  }

  lemma EnergyNamesAreGood()
    ensures GoodNames(ENERGY_NAMES)
  {
    hide Identifier, NoRepeat;
    EnergyNamesAreIdentifiers();
    EnergyNamesDiffer();
  }

  lemma InverterNamesAreIdentifiers()
    ensures forall i | 0 <= i < |INVERTER_NAMES| :: Identifier(INVERTER_NAMES[i])
  {
  }

  lemma InverterNamesDiffer()
    ensures NoRepeat(INVERTER_NAMES)
  {
  }

  lemma InverterNamesAreGood()
    ensures GoodNames(INVERTER_NAMES)
  {
    hide Identifier, NoRepeat;
    InverterNamesAreIdentifiers();
    InverterNamesDiffer();
  }

  lemma MpptNamesAreIdentifiers()
    ensures forall i | 0 <= i < |MPPT_NAMES| :: Identifier(MPPT_NAMES[i])
  {
  }

  lemma MpptNamesDiffer()
    ensures NoRepeat(MPPT_NAMES)
  {
  }

  lemma MpptNamesAreGood()
    ensures GoodNames(MPPT_NAMES)
  {
    hide Identifier, NoRepeat;
    MpptNamesAreIdentifiers();
    MpptNamesDiffer();
  }

  lemma PackNamesAreGood()
    ensures GoodNames(PACK_NAMES)
  {
  }

  lemma BatteryLimitsAreIdentifiers()
    ensures forall i | 0 <= i < |BATTERY_LIMITS| :: Identifier(BATTERY_LIMITS[i])
  {
  }

  lemma BatteryLimitsDiffer()
    ensures NoRepeat(BATTERY_LIMITS)
  {
  }

  lemma BatteryLimitsAreGood()
    ensures GoodNames(BATTERY_LIMITS)
  {
    hide Identifier, NoRepeat;
    BatteryLimitsAreIdentifiers();
    BatteryLimitsDiffer();
  }

  lemma BatteryStatusAreIdentifiers()
    ensures forall i | 0 <= i < |BATTERY_STATUS| :: Identifier(BATTERY_STATUS[i])
  {
  }

  lemma BatteryStatusDiffer()
    ensures NoRepeat(BATTERY_STATUS)
  {
  }

  lemma BatteryStatusAreGood()
    ensures GoodNames(BATTERY_STATUS)
  {
    hide Identifier, NoRepeat;
    BatteryStatusAreIdentifiers();
    BatteryStatusDiffer();
  }

  lemma EventNamesAreGood()
    ensures GoodNames(EVENT_NAMES)
  {
  }

  lemma IdentityNamesAreGood()
    ensures GoodNames(IDENTITY_NAMES)
  {
  }

  lemma RawNamesAreGood()
    ensures GoodNames(RAW_NAMES)
  {
  }

  lemma BatteryNamesAreGood()
    ensures GoodNames(BATTERY_NAMES)
  {
    hide Identifier, NoRepeat;
    BatteryLimitsAreGood();
    BatteryStatusAreGood();
    NoRepeatJoin(BATTERY_LIMITS, BATTERY_STATUS);
    BatteryHalvesDiffer();
  }

  lemma BatteryHalvesDiffer()
    ensures forall n | n in BATTERY_LIMITS :: n !in BATTERY_STATUS
  {
  }

  // ----- shape -----

  predicate NamedParts(q: Path<string>) {
    forall e | e in q :: e.Name? ==> Identifier(e.name)
  }

  ghost predicate GoodNode(node: Node<string, JupiterValue>) {
    WellShapedIn(node) && forall q :: ValueIn(node, q).Some? ==> NamedParts(q)
  }

  lemma {:induction false} FindNamed(names: seq<string>, node: string -> Node<string, JupiterValue>, n: string)
    ensures var i := FindField(Fields(names, node), n);
      if n in names then i.Some? && Fields(names, node)[i.value].node == node(n) else i.None?
  {
    if names == [] {
    } else {
      assert Fields(names, node)[1..] == Fields(names[1..], node);
      FindNamed(names[1..], node, n);
    }
  }

  lemma {:induction false} FieldsAreShaped(names: seq<string>, node: string -> Node<string, JupiterValue>)
    requires NoRepeat(names) && forall n | n in names :: WellShapedIn(node(n))
    ensures WellShaped(Fields(names, node))
  {
    hide WellShapedIn;
    if names == [] {
    } else {
      assert Fields(names, node)[1..] == Fields(names[1..], node);
      NoRepeatJoin([names[0]], names[1..]);
      assert [names[0]] + names[1..] == names;
      FindNamed(names[1..], node, names[0]);
      FieldsAreShaped(names[1..], node);
    }
  }

  /** A record with good names and good fields. */
  lemma FieldsAreGood(names: seq<string>, node: string -> Node<string, JupiterValue>, q: Path<string>)
    requires GoodNames(names) && forall n | n in names :: GoodNode(node(n))
    ensures WellShaped(Fields(names, node))
    ensures ValueAt(Fields(names, node), q).Some? ==> NamedParts(q) && q != [] && q[0].Name?
  {
    hide NoRepeat, Identifier, WellShapedIn, ValueIn, Fields;
    FieldsAreShaped(names, node);
    if ValueAt(Fields(names, node), q).Some? {
      FindNamed(names, node, q[0].name);
      var n := q[0].name;
      assert n in names && ValueIn(node(n), q[1..]).Some?;
      assert GoodNode(node(n)) && NamedParts(q[1..]);
      forall e | e in q ensures e.Name? ==> Identifier(e.name) {
        assert e == q[0] || e in q[1..];
      }
    }
  }

  lemma LeavesAreGood(d: Declarations, section: string, names: seq<string>)
    requires GoodNames(names)
    ensures GoodNode(Body(Leaves(d, section, names)))
  {
    hide NoRepeat, Identifier;
    SectionIsGood(names, name => Leaf(d.sources(section, name), Nothing));
  }

  lemma SectionIsGood(names: seq<string>, node: string -> Node<string, JupiterValue>)
    requires GoodNames(names) && forall n | n in names :: GoodNode(node(n))
    ensures GoodNode(Body(Fields(names, node)))
  {
    hide GoodNames, GoodNode, Fields, NamedParts, WellShaped, ValueAt;
    FieldsAreGood(names, node, []);
    forall q ensures ValueAt(Fields(names, node), q).Some? ==> NamedParts(q) {
      FieldsAreGood(names, node, q);
    }
    GoodSection(Fields(names, node));
  }

  lemma GoodSection(fields: JupiterFields)
    requires WellShaped(fields) && forall q :: ValueAt(fields, q).Some? ==> NamedParts(q)
    ensures GoodNode(Body(fields))
  {
    hide NamedParts;
    forall q ensures ValueIn(Body(fields), q) == ValueAt(fields, q) {
    }
  }

  lemma {:induction false} SameRecords(count: nat, record: Record<string, JupiterValue>)
    ensures |Same(count, record)| == count && forall i | 0 <= i < count :: Same(count, record)[i] == record
    ensures WellShaped(record.fields) ==> WellShapedItems(Same(count, record))
  {
    hide WellShaped;
    if count == 0 {
    } else {
      SameRecords(count - 1, record);
      assert Same(count, record)[1..] == Same(count - 1, record);
    }
  }

  lemma RepeatIsGood(d: Declarations, section: string, count: nat, names: seq<string>)
    requires GoodNames(names)
    ensures GoodNode(Repeat(d, section, count, names))
  {
    hide Identifier, NoRepeat;
    var record := Record(Leaves(d, section, names));
    SameRecords(count, record);
    LeavesAreGood(d, section, names);
    assert WellShaped(record.fields) && forall q :: ValueAt(record.fields, q).Some? ==> NamedParts(q) by {
      assert forall q :: ValueIn(Body(record.fields), q) == ValueAt(record.fields, q);
    }
    forall q | ValueIn(Repeat(d, section, count, names), q).Some? ensures NamedParts(q) {
      assert q == [q[0]] + q[1..];
      assert NamedParts(q[1..]);
    }
  }

  lemma BatteryIsGood(d: Declarations)
    ensures GoodNode(Body(Fields(BATTERY_NAMES, n => BatteryNode(d, n))))
  {
    hide GoodNames, GoodNode, Fields, BATTERY_NAMES, PACK_NAMES, Repeat;
    BatteryNamesAreGood();
    PackNamesAreGood();
    forall n ensures GoodNode(BatteryNode(d, n)) {
      RepeatIsGood(d, "packs", 4, PACK_NAMES);
      LeafIsGood(d.sources("battery", n));
    }
    SectionIsGood(BATTERY_NAMES, n => BatteryNode(d, n));
  }

  lemma LeafIsGood(sources: map<Packet, Source<JupiterValue>>)
    ensures GoodNode(Leaf(sources, Nothing)) && GoodNode(Plain(Nothing))
  {
  }

  lemma IdentityIsGood()
    ensures GoodNode(Body(Fields(IDENTITY_NAMES, _ => Plain(Nothing))))
  {
    hide GoodNames, GoodNode, Fields, IDENTITY_NAMES;
    IdentityNamesAreGood();
    LeafIsGood(map[]);
    SectionIsGood(IDENTITY_NAMES, _ => Plain(Nothing));
  }

  lemma RootNodesAreGood(d: Declarations, name: string)
    ensures GoodNode(RootNode(d, name))
  {
    hide GoodNames, GoodNode, Fields, Leaves, Repeat, Body, BatteryNode;
    RuntimeNamesAreGood();
    LeavesAreGood(d, "runtime", RUNTIME_NAMES);
    EnergyNamesAreGood();
    LeavesAreGood(d, "energy", ENERGY_NAMES);
    InverterNamesAreGood();
    LeavesAreGood(d, "inverter", INVERTER_NAMES);
    MpptNamesAreGood();
    LeavesAreGood(d, "mppt", MPPT_NAMES);
    PvNamesAreGood();
    RepeatIsGood(d, "pv_inputs", 4, PV_NAMES);
    BatteryIsGood(d);
    EventNamesAreGood();
    RepeatIsGood(d, "events", 20, EVENT_NAMES);
    IdentityIsGood();
    RawNamesAreGood();
    LeavesAreGood(d, "raw_status", RAW_NAMES);
  }

  /** The fields of the section called `section`, where the root has it. */
  lemma AtSection(d: Declarations, section: string, name: string)
    requires section in ROOT_NAMES
    ensures ValueAt(JupiterTree(d), PathOf(section, name)) == ValueIn(RootNode(d, section), [Name(name)])
  {
    hide RootNode, ROOT_NAMES, Fields;
    FindNamed(ROOT_NAMES, n => RootNode(d, n), section);
    assert PathOf(section, name)[1..] == [Name(name)];
  }

  lemma RuntimeHas(d: Declarations, name: string)
    requires name in RUNTIME_NAMES
    ensures ValueAt(JupiterTree(d), PathOf("runtime", name)).Some?
  {
    hide RUNTIME_NAMES, Fields, JupiterTree, PathOf;
    AtSection(d, "runtime", name);
    var node: string -> Node<string, JupiterValue> := n => Leaf(d.sources("runtime", n), Nothing);
    FindNamed(RUNTIME_NAMES, node, name);
    var fields := Fields(RUNTIME_NAMES, node);
    assert Leaves(d, "runtime", RUNTIME_NAMES) == fields;
    assert RootNode(d, "runtime") == Body(fields);
    BodyHas(fields, name);
  }

  /** A leaf or plain field of a record is found one step down. */
  lemma BodyHas(fields: JupiterFields, name: string)
    requires var i := FindField(fields, name); i.Some? && (fields[i.value].node.Leaf? || fields[i.value].node.Plain?)
    ensures ValueIn(Body(fields), [Name(name)]).Some?
  {
    var q: Path<string> := [Name(name)];
    assert q[1..] == [];
    assert ValueIn(Body(fields), q) == ValueAt(fields, q);
  }

  lemma IdentityHas(d: Declarations, name: string)
    requires name in IDENTITY_NAMES
    ensures ValueAt(JupiterTree(d), PathOf("identity", name)).Some?
  {
    hide IDENTITY_NAMES, Fields, JupiterTree, PathOf;
    AtSection(d, "identity", name);
    var node: string -> Node<string, JupiterValue> := _ => Plain(Nothing);
    FindNamed(IDENTITY_NAMES, node, name);
    assert RootNode(d, "identity") == Body(Fields(IDENTITY_NAMES, node));
    BodyHas(Fields(IDENTITY_NAMES, node), name);
  }

  /** The Jupiter data tree has the shape that its parsers need. */
  lemma TreeHasShape(d: Declarations)
    ensures JupiterShape(JupiterTree(d))
  {
    hide RootNode, GoodNode, WellShaped, ValueAt, GoodNames, Fields, Identifier, PathOf;
    var tree := JupiterTree(d);
    RootNamesAreGood();
    forall n ensures GoodNode(RootNode(d, n)) {
      RootNodesAreGood(d, n);
    }
    forall q ensures WellShaped(tree) && (ValueAt(tree, q).Some? ==> WellNamed(q)) {
      FieldsAreGood(ROOT_NAMES, n => RootNode(d, n), q);
    }
    forall field | field in IDENTITY_FIELDS ensures ValueAt(tree, PathOf("identity", field.1)).Some? {
      IdentityHas(d, field.1);
    }
    forall field | field in VERSION_FIELDS ensures ValueAt(tree, PathOf("runtime", field.1)).Some? {
      RuntimeHas(d, field.1);
    }
    IdentityHas(d, "wifi_ssid");
  }

  /** Every field lies in a section. */
  lemma FieldsAreDeep(d: Declarations, q: Path<string>)
    requires ValueAt(JupiterTree(d), q).Some?
    ensures 2 <= |q|
  {
    hide JupiterTree;
    if |q| == 1 {
      NoFieldAtRoot(d, q);
    }
  }

  lemma NoFieldAtRoot(d: Declarations, q: Path<string>)
    requires |q| == 1
    ensures ValueAt(JupiterTree(d), q).None?
  {
    hide Fields, RootNode, ROOT_NAMES;
    assert q[1..] == [];
    if q[0].Name? {
      FindNamed(ROOT_NAMES, n => RootNode(d, n), q[0].name);
      NotALeaf(d, q[0].name);
    }
  }

  lemma NotALeaf(d: Declarations, name: string)
    ensures ValueIn(RootNode(d, name), []).None?
  {
    hide Fields, Leaves;
  }

  // ----- the product -----

  /** Jupiter is a sound product on its own data tree, whatever its packet sources. */
  lemma JupiterIsSound(d: Declarations, intOf: string -> Option<int>, utf8: seq<byte> -> Option<string>)
    ensures Sound(JupiterProduct(intOf, utf8), JupiterTree(d))
  {
    hide Sound, JupiterShape, JupiterTree;
    TreeHasShape(d);
    SoundOnShape(JupiterTree(d), intOf, utf8);
  }

  /** After any frames at any times, every Jupiter field has the value of the last frame that supplied
      it, and its entry names that frame; a field never supplied is as it began, without an entry. */
  lemma JupiterIsFresh(
      d: Declarations, intOf: string -> Option<int>, utf8: seq<byte> -> Option<string>, arrivals: seq<Arrival>,
      q: Path<string>)
    requires ValueAt(JupiterTree(d), q).Some?
    ensures var product, tree := JupiterProduct(intOf, utf8), JupiterTree(d);
      var s, last := Run(product, State(tree, map[]), arrivals), LastSupplier(product, tree, arrivals, q);
      var key := DottedPath(product, q);
      if last.None? then ValueAt(s.root, q) == ValueAt(tree, q) && key !in s.updates
      else
        var a := arrivals[last.value];
        && ValueAt(s.root, q) == Supplies(product, tree, a.frame, q)
        && key in s.updates && NamesArrival(s.updates[key], a)
  {
    hide Sound, JupiterTree, JupiterProduct, Run, Supplies, DottedPath, ValueAt, IsFrame;
    JupiterIsSound(d, intOf, utf8);
    FieldsAreDeep(d, q);
    ValueAndMetadataAgree(JupiterProduct(intOf, utf8), JupiterTree(d), arrivals, q);
  }
}
