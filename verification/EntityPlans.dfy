/** The entity planner: a data object of a declared schema, the walk that plans its entities, and
    the walk that looks for grown repeated sections. */
module EntityPlans {
  import opened Wrappers
  import opened Paths
  import opened Text
  import opened PathKeys

  datatype Platform = Sensor | BinarySensor

  datatype Spec = Spec(platform: Platform, key: string)

  datatype IndexedSpec = IndexedSpec(platform: Platform, count: nat, key: nat -> string)

  /** A repeated section: its fixed limit, the sibling attribute that counts the populated records,
      and the key prefix of the child devices. */
  datatype RepeatSpec = RepeatSpec(count: nat, active: Option<string>, child: Option<string>)

  datatype DataField = DataField(name: string, specs: seq<Spec>, indexed: seq<IndexedSpec>, value: DataValue)

  datatype DataRecord = DataRecord(fields: seq<DataField>)

  datatype DataValue =
    | Scalar(number: Option<int>)
    | Numbers(numbers: seq<Option<int>>)
    | Nested(body: DataRecord)
    | Repeat(spec: RepeatSpec, items: seq<DataRecord>)

  datatype Presence = Presence(countPath: Path<string>, index: nat, maximum: nat)

  datatype Binding = Binding(platform: Platform, key: string, device: string, path: Option<Path<string>>,
                             presence: Option<Presence>, repeatedKey: Option<string>)

  datatype Device = MainDevice | ChildDevice(parent: string, index: nat)

  datatype Plan = Plan(entities: seq<Binding>, counts: map<string, nat>, devices: map<string, Device>)

  datatype Change = Change(path: Path<string>, configured: nat, discovered: nat, maximum: nat)

  /** What the walk hands down: where it is, and the device, presence and key prefix in force. */
  datatype Ctx = Ctx(path: Path<string>, device: string, presence: Option<Presence>, prefix: Option<string>)

  const ROOT := Ctx([], "main", None, None)

  // ----- counts -----

  /** `_count`. */
  function Clamp(v: Option<int>, maximum: nat): (r: nat)
    ensures v.None? || v.value < 0 ==> r == 0
    ensures v.Some? && 0 <= v.value <= maximum ==> r == v.value
    ensures v.Some? && maximum < v.value ==> r == maximum
  {
    if v.None? then 0 else if maximum < v.value then maximum else if v.value < 0 then 0 else v.value
  }

  /** `getattr`. */
  function FieldOf(fields: seq<DataField>, name: string): Option<DataField> {
    if fields == [] then None else if fields[0].name == name then Some(fields[0]) else FieldOf(fields[1..], name)
  }

  /** `_active_count`; None where it raises. */
  function Active(parent: DataRecord, spec: RepeatSpec): (r: Option<nat>)
    ensures r.Some? ==> r.value <= spec.count
  {
    if spec.active.None? then Some(spec.count)
    else
      match FieldOf(parent.fields, spec.active.value)
      case Some(DataField(_, _, _, Scalar(v))) => Some(Clamp(v, spec.count))
      case _ => None
  }

  type Overrides = map<string, int>

  function Configured(parent: DataRecord, spec: RepeatSpec, path: Path<string>, overrides: Overrides): (r: Option<nat>)
    ensures r.Some? ==> r.value <= spec.count
  {
    match Active(parent, spec)
    case None => None
    case Some(discovered) =>
      Some(Clamp(Some(if PathKey(path) in overrides then overrides[PathKey(path)] else discovered), spec.count))
  }

  /** `_resolve`; None where it raises. */
  function Resolve(v: DataValue, path: Path<string>): Option<DataValue>
    decreases |path|
  {
    if path == [] then Some(v)
    else
      match (v, path[0])
      case (Nested(r), Name(n)) =>
        (match FieldOf(r.fields, n)
         case Some(f) => Resolve(f.value, path[1..])
         case None => None)
      case (Repeat(_, items), Index(i)) => if i < |items| then Resolve(Nested(items[i]), path[1..]) else None
      case (Numbers(ns), Index(i)) => if i < |ns| then Resolve(Scalar(ns[i]), path[1..]) else None
      case _ => None
  }

  /** `PresenceBinding.is_present`; None where it raises. */
  function IsPresent(p: Presence, data: DataRecord): Option<bool> {
    match Resolve(Nested(data), p.countPath)
    case Some(Scalar(v)) => Some(p.index < Clamp(v, p.maximum))
    case _ => None
  }

  // ----- planning -----

  function Length(v: DataValue): Option<nat> {
    match v
    case Numbers(ns) => Some(|ns|)
    case Repeat(_, items) => Some(|items|)
    case _ => None
  }

  function Simple(specs: seq<Spec>, ctx: Ctx, name: string): seq<Binding> {
    seq(|specs|, i requires 0 <= i < |specs| =>
      Binding(specs[i].platform, specs[i].key, ctx.device, Some(ctx.path + [Name(name)]), ctx.presence, ctx.prefix))
  }

  function IndexedKey(ctx: Ctx, name: string, i: nat): string {
    if ctx.prefix.Some? then ctx.prefix.value + "_" + Decimal(i)
    else PathKey(ctx.path + [Name(name)]) + "_" + Decimal(i)
  }

  function Expanded(spec: IndexedSpec, ctx: Ctx, name: string): seq<Binding> {
    seq(spec.count, i requires 0 <= i < spec.count =>
      Binding(spec.platform, spec.key(i), ctx.device, Some(ctx.path + [Name(name), Index(i)]), ctx.presence,
              Some(IndexedKey(ctx, name, i))))
  }

  function Indexed(specs: seq<IndexedSpec>, v: DataValue, ctx: Ctx, name: string): Option<seq<Binding>> {
    if specs == [] then Some([])
    else if Length(v).None? || Length(v).value < specs[0].count then None
    else
      match Indexed(specs[1..], v, ctx, name)
      case Some(rest) => Some(Expanded(specs[0], ctx, name) + rest)
      case None => None
  }

  /** The bindings of one field itself. */
  function Own(f: DataField, ctx: Ctx): Option<seq<Binding>> {
    match Indexed(f.indexed, f.value, ctx, f.name)
    case Some(bs) => Some(Simple(f.specs, ctx, f.name) + bs)
    case None => None
  }

  function ItemCtx(ctx: Ctx, name: string, spec: RepeatSpec, i: nat): Ctx {
    var path := ctx.path + [Name(name)];
    var key := PathKey(path) + "_" + Decimal(i);
    Ctx(path + [Index(i)],
        if spec.child.Some? then spec.child.value + "_" + Decimal(i) else ctx.device,
        if spec.active.Some? then Some(Presence(ctx.path + [Name(spec.active.value)], i, spec.count)) else ctx.presence,
        if spec.child.Some? then None else if ctx.prefix.Some? then Some(ctx.prefix.value + "_" + key) else Some(key))
  }

  function ChildOf(ctx: Ctx, spec: RepeatSpec, i: nat): map<string, Device> {
    if spec.child.None? then map[] else map[spec.child.value + "_" + Decimal(i) := ChildDevice(ctx.device, i)]
  }

  function Join(a: Option<Plan>, b: Option<Plan>): Option<Plan> {
    if a.None? || b.None? then None
    else Some(Plan(a.value.entities + b.value.entities, a.value.counts + b.value.counts,
      a.value.devices + b.value.devices))
  }

  const NOTHING := Plan([], map[], map[])

  function CollectFields(fields: seq<DataField>, parent: DataRecord, ctx: Ctx, overrides: Overrides): Option<Plan>
    decreases fields, 1, 0
  {
    if fields == [] then Some(NOTHING)
    else
      assert fields[0] in fields;
      Join(CollectField(fields[0], parent, ctx, overrides), CollectFields(fields[1..], parent, ctx, overrides))
  }

  function CollectField(f: DataField, parent: DataRecord, ctx: Ctx, overrides: Overrides): Option<Plan>
    decreases f, 0, 0
  {
    match Own(f, ctx)
    case None => None
    case Some(own) => Join(Some(Plan(own, map[], map[])), CollectValue(f.value, f.name, parent, ctx, overrides))
  }

  function CollectValue(v: DataValue, name: string, parent: DataRecord, ctx: Ctx, overrides: Overrides): Option<Plan>
    decreases v, 0, 0
  {
    var path := ctx.path + [Name(name)];
    match v
    case Nested(body) => CollectFields(body.fields, body, ctx.(path := path), overrides)
    case Repeat(spec, items) =>
      (match Configured(parent, spec, path, overrides)
       case None => None
       case Some(n) =>
         Join(Some(Plan([], map[PathKey(path) := n], map[])), CollectItems(items, 0, n, spec, name, ctx, overrides)))
    case _ => Some(NOTHING)
  }

  /** The items from k to n - 1; a list that is too short raises. */
  function CollectItems(
      items: seq<DataRecord>, k: nat, n: nat, spec: RepeatSpec, name: string, ctx: Ctx,
      overrides: Overrides): Option<Plan>
    decreases items, 2, n - k
  {
    if n <= k then Some(NOTHING)
    else if |items| <= k then None
    else
      var item := items[k];
      Join(Join(Some(Plan([], map[], ChildOf(ctx, spec, k))),
        CollectFields(item.fields, item, ItemCtx(ctx, name, spec, k), overrides)),
           CollectItems(items, k + 1, n, spec, name, ctx, overrides))
  }

  /** `build_entity_plan`; the derived entities have no path. */
  function BuildPlan(data: DataRecord, derived: seq<Spec>, overrides: Overrides): Option<Plan> {
    Join(Join(Some(Plan([], map[], map["main" := MainDevice])), CollectFields(data.fields, data, ROOT, overrides)),
         Some(Plan(Derived(derived), map[], map[])))
  }

  function Derived(derived: seq<Spec>): seq<Binding> {
    seq(|derived|, i requires 0 <= i < |derived| =>
      Binding(derived[i].platform, derived[i].key, "main", None, None, None))
  }

  // ----- looking for increases -----

  function Plus(a: Option<seq<Change>>, b: Option<seq<Change>>): Option<seq<Change>> {
    if a.None? || b.None? then None else Some(a.value + b.value)
  }

  function GrowthInFields(
      fields: seq<DataField>, parent: DataRecord, path: Path<string>, counts: map<string, nat>): Option<seq<Change>>
    decreases fields, 1
  {
    if fields == [] then Some([])
    else
      assert fields[0] in fields;
      Plus(GrowthInField(fields[0], parent, path, counts), GrowthInFields(fields[1..], parent, path, counts))
  }

  function GrowthInField(
      f: DataField, parent: DataRecord, path: Path<string>, counts: map<string, nat>): Option<seq<Change>>
    decreases f, 0
  {
    var at := path + [Name(f.name)];
    match f.value
    case Nested(body) => GrowthInFields(body.fields, body, at, counts)
    case Repeat(spec, items) =>
      (match Active(parent, spec)
       case None => None
       case Some(n) => Plus(Some(Grown(spec, n, at, counts)), GrowthInItems(items, 0, at, counts)))
    case _ => Some([])
  }

  function Grown(spec: RepeatSpec, discovered: nat, at: Path<string>, counts: map<string, nat>): seq<Change> {
    var recorded := if PathKey(at) in counts then counts[PathKey(at)] else discovered;
    if recorded < discovered then [Change(at, recorded, discovered, spec.count)] else []
  }

  function GrowthInItems(
      items: seq<DataRecord>, k: nat, at: Path<string>, counts: map<string, nat>): Option<seq<Change>>
    decreases items, 2
  {
    if items == [] then Some([])
    else Plus(GrowthInFields(items[0].fields, items[0], at + [Index(k)], counts),
      GrowthInItems(items[1..], k + 1, at, counts))
  }

  /** `detect_expansion_increases`. */
  function DetectIncreases(data: DataRecord, plan: Plan): Option<seq<Change>> {
    GrowthInFields(data.fields, data, [], plan.counts)
  }
}
