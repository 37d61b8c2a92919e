/** When the entities of one repeated record are added, and when they are present. */
module EntityPacks {
  import opened Wrappers
  import opened Paths
  import opened Text
  import opened PathKeys
  import opened EntityPlans
  import opened EntityPlanProofs
  import opened EntityDiff
  import opened EntityManager

  /** An entity declared on a field of the records of a repeated section: where the section is and
      how it is declared, the device and key prefix in force there, the field and its entity. */
  datatype PackEntity = PackEntity(
    at: Path<string>, section: RepeatSpec, device: string, prefix: Option<string>, field: string, spec: Spec)

  /** The section is where it should be, as declared, and each of its records declares the entity. */
  ghost predicate HasPacks(d: DataRecord, e: PackEntity) {
    var s := Reach(d, Planned(map[]), e.at);
    && Named(d.fields)
    && s.Some? && s.value.field.value.Repeat? && s.value.ctx.device == e.device && s.value.ctx.prefix == e.prefix
    && var v := s.value.field.value;
       && v.spec == e.section && Active(s.value.parent, v.spec).Some?
       && forall item | item in v.items ::
            FieldOf(item.fields, e.field).Some? && e.spec in FieldOf(item.fields, e.field).value.specs
  }

  /** The clamped count of the section. */
  ghost function PackCount(d: DataRecord, e: PackEntity): nat
    requires HasPacks(d, e)
  {
    var s := Reach(d, Planned(map[]), e.at).value;
    Active(s.parent, s.field.value.spec).value
  }

  function LeafOf(e: PackEntity, i: nat): Path<string> {
    e.at + [Index(i), Name(e.field)]
  }

  /** The unique key of the entity in record i: under its child device if the section has one, else
      under the device in force and the path of the record. */
  function KeyOf(e: PackEntity, i: nat): string {
    var numbered := PathKey(e.at) + "_" + Decimal(i);
    var own := if e.prefix.Some? then e.prefix.value + "_" + numbered else numbered;
    if e.section.child.Some? then e.section.child.value + "_" + Decimal(i) + "_" + e.spec.key
    else if e.device != "main" then e.device + "_" + e.spec.key
    else own + "_" + e.spec.key
  }

  // ----- reaching into a record -----

  lemma {:induction false} AtThrough(
      fields: seq<DataField>, parent: DataRecord, ctx: Ctx, scope: Scope, path: Path<string>, rest: Path<string>)
    requires At(fields, parent, ctx, scope, path).Some? && rest != []
    ensures var s := At(fields, parent, ctx, scope, path).value;
      At(fields, parent, ctx, scope, path + rest) == Inside(s.field.value, s.field.name, s.parent, s.ctx, scope, rest)
    decreases |path|
  {
    hide Covers, ItemCtx;
    var f := FieldOf(fields, path[0].name).value;
    assert (path + rest)[0] == path[0] && (path + rest)[1..] == path[1..] + rest;
    if |path| <= 1 {
    } else {
      var more := path[1..];
      assert (more + rest)[0] == more[0] && (more + rest)[1..] == more[1..] + rest;
      match f.value
      case Nested(body) => AtThrough(body.fields, body, ctx.(path := ctx.path + [Name(f.name)]), scope, more, rest);
      case Repeat(spec, items) =>
        var item := items[more[0].index];
        AtThrough(item.fields, item, ItemCtx(ctx, f.name, spec, more[0].index), scope, more[1..], rest);
    }
  }

  /** The entity's field in record i is on a live path iff i is below the count. */
  lemma PackReached(d: DataRecord, e: PackEntity, i: nat)
    requires HasPacks(d, e)
    ensures var s, t := Reach(d, Planned(map[]), e.at).value, Reach(d, Planned(map[]), LeafOf(e, i));
      if i < PackCount(d, e) && i < |s.field.value.items| then
        var item := s.field.value.items[i];
        t == Some(Spot(FieldOf(item.fields, e.field).value, item, ItemCtx(s.ctx, s.field.name, s.field.value.spec, i)))
      else t.None?
  {
    hide ItemCtx, Named, Active, Configured;
    var s := Reach(d, Planned(map[]), e.at).value;
    var rest: Path<string> := [Index(i), Name(e.field)];
    assert rest[1..] == [Name(e.field)];
    AtThrough(d.fields, d, ROOT, Planned(map[]), e.at, rest);
    WithoutOverrides(s.parent, s.field.value.spec, s.ctx.path + [Name(s.field.name)]);
  }

  /** Where a plan was built, the section holds at least as many records as it counts. */
  lemma EnoughRecords(d: DataRecord, derived: seq<Spec>, e: PackEntity)
    requires HasPacks(d, e) && BuildPlan(d, derived, map[]).Some?
    ensures PackCount(d, e) <= |Reach(d, Planned(map[]), e.at).value.field.value.items|
  {
    hide At, Own, Configured, Named;
    var s := Reach(d, Planned(map[]), e.at).value;
    Complete(d.fields, d, ROOT, map[], e.at);
    AtIsNamed(d, Planned(map[]), e.at);
    WithoutOverrides(s.parent, s.field.value.spec, e.at);
  }

  // ----- keys -----

  lemma {:induction false} PlanKeysExact(bs: seq<Binding>, platform: Platform, k: string)
    ensures k in PlanKeys(bs, platform) <==> exists b :: b in bs && b.platform == platform && LiveKey(b) == k
  {
    hide LiveKey;
    if bs == [] {
    } else {
      PlanKeysExact(bs[1..], platform, k);
      assert bs == [bs[0]] + bs[1..];
    }
  }

  /** The binding of record i has the entity's key. */
  lemma RecordKey(e: PackEntity, i: nat, outer: Ctx, name: string, b: Binding)
    requires outer.device == e.device && outer.prefix == e.prefix && outer.path + [Name(name)] == e.at
    requires var inner := ItemCtx(outer, name, e.section, i);
      b.device == inner.device && b.repeatedKey == inner.prefix && b.key == e.spec.key && b.path == Some(LeafOf(e, i))
    ensures LiveKey(b) == KeyOf(e, i)
  {
    var path := b.path.value;
    assert path[|path| - 1] == Name(e.field);
    if e.section.child.Some? {
      assert b.device[|e.section.child.value|] == '_';
      assert forall c | c in "main" :: c != '_';
    }
  }

  lemma SimpleBinding(f: DataField, ctx: Ctx, spec: Spec) returns (b: Binding)
    requires Own(f, ctx).Some? && spec in f.specs
    ensures b in Own(f, ctx).value && b.platform == spec.platform && b.key == spec.key
    ensures b.device == ctx.device && b.repeatedKey == ctx.prefix && b.path == Some(ctx.path + [Name(f.name)])
  {
    var i :| 0 <= i < |f.specs| && f.specs[i] == spec;
    b := Simple(f.specs, ctx, f.name)[i];
  }

  // ----- added iff seen -----

  /** Another binding of the platform has the key of the entity in record i. */
  ghost predicate KeyElsewhere(plan: Plan, e: PackEntity, i: nat) {
    exists b :: b in plan.entities && b.platform == e.spec.platform && LiveKey(b) == KeyOf(e, i) &&
      b.path != Some(LeafOf(e, i))
  }

  /** A plan has the key of the entity in record i iff it counts more than i records or has the key
      for another binding. */
  lemma PlannedIff(d: DataRecord, derived: seq<Spec>, e: PackEntity, i: nat)
    requires HasPacks(d, e) && BuildPlan(d, derived, map[]).Some?
    ensures var plan := BuildPlan(d, derived, map[]).value;
      KeyOf(e, i) in PlanKeys(plan.entities, e.spec.platform) <==> i < PackCount(d, e) || KeyElsewhere(plan, e, i)
  {
    hide BuildPlan, At, LiveKey, Own, Named, PackCount, KeyOf, ItemCtx;
    var entities := BuildPlan(d, derived, map[]).value.entities;
    PlanKeysExact(entities, e.spec.platform, KeyOf(e, i));
    PackReached(d, e, i);
    EnoughRecords(d, derived, e);
    if i < PackCount(d, e) {
      var b := RecordBinding(d, derived, e, i);
    } else {
      forall b | b in entities && b.path == Some(LeafOf(e, i)) ensures false {
        NotElsewhere(d, derived, e, i, b);
      }
    }
  }

  lemma RecordBinding(d: DataRecord, derived: seq<Spec>, e: PackEntity, i: nat) returns (b: Binding)
    requires HasPacks(d, e) && BuildPlan(d, derived, map[]).Some? && i < PackCount(d, e)
    ensures b in BuildPlan(d, derived, map[]).value.entities && b.platform == e.spec.platform
    ensures LiveKey(b) == KeyOf(e, i)
  {
    hide BuildPlan, At, LiveKey, Own, PackCount, KeyOf, ItemCtx;
    PackReached(d, e, i);
    EnoughRecords(d, derived, e);
    var s := Reach(d, Planned(map[]), e.at).value;
    var t := Reach(d, Planned(map[]), LeafOf(e, i)).value;
    AtIsNamed(d, Planned(map[]), e.at);
    AtIsNamed(d, Planned(map[]), LeafOf(e, i));
    OwnPlanned(d, derived, LeafOf(e, i));
    b := SimpleBinding(t.field, t.ctx, e.spec);
    assert BoundAt(d, map[], LeafOf(e, i), b);
    BindingsExact(d, derived, map[], b);
    RecordKey(e, i, s.ctx, s.field.name, b);
  }

  lemma OwnPlanned(d: DataRecord, derived: seq<Spec>, path: Path<string>)
    requires BuildPlan(d, derived, map[]).Some? && Reach(d, Planned(map[]), path).Some?
    ensures var t := Reach(d, Planned(map[]), path).value; Own(t.field, t.ctx).Some?
  {
    hide At, Own;
    Complete(d.fields, d, ROOT, map[], path);
  }

  /** A binding at the entity's path in record i comes from that path. */
  lemma NotElsewhere(d: DataRecord, derived: seq<Spec>, e: PackEntity, i: nat, b: Binding)
    requires Named(d.fields) && BuildPlan(d, derived, map[]).Some? && b in BuildPlan(d, derived, map[]).value.entities
    requires b.path == Some(LeafOf(e, i))
    ensures BoundAt(d, map[], LeafOf(e, i), b)
  {
    hide At, Own, BuildPlan;
    BindingsExact(d, derived, map[], b);
    var path :| BoundAt(d, map[], path, b);
    var s := Reach(d, Planned(map[]), path).value;
    AtIsNamed(d, Planned(map[]), path);
    OwnPath(s.field, s.ctx, b);
    var leaf := LeafOf(e, i);
    assert leaf[|leaf| - 1] == Name(e.field);
  }

  ghost predicate Built(s: Sync, derived: seq<Spec>) {
    s.data.Some? && BuildPlan(s.data.value, derived, map[]).Some?
  }

  /** The key of record i's entity is added iff some call whose entities were taken saw more than i
      records or planned the key for another binding, however the counts rose and fell and whichever
      other calls failed. */
  lemma AddedIffSeen(syncs: seq<Sync>, derived: seq<Spec>, e: PackEntity, i: nat)
    requires forall s | s in syncs && Built(s, derived) :: HasPacks(s.data.value, e)
    ensures KeyOf(e, i) in AfterAll(syncs, derived, e.spec.platform).known <==>
      exists s :: s in syncs && s.taken && Built(s, derived)
               && (i < PackCount(s.data.value, e) || KeyElsewhere(BuildPlan(s.data.value, derived, map[]).value, e, i))
  {
    hide BuildPlan, HasPacks, KeyElsewhere, PackCount, AfterAll, KeyOf, PlanKeys;
    KnownExact(syncs, derived, e.spec.platform, KeyOf(e, i));
    forall s | s in syncs
      ensures KeyOf(e, i) in KeysOf(s, derived, e.spec.platform) <==>
        Built(s, derived) &&
          (i < PackCount(s.data.value, e) || KeyElsewhere(BuildPlan(s.data.value, derived, map[]).value, e, i))
    {
      if Built(s, derived) {
        PlannedIff(s.data.value, derived, e, i);
      }
    }
  }

  // ----- present iff counted -----

  lemma {:induction false} ParentResolves(
      root: DataRecord, parent: DataRecord, ctx: Ctx, scope: Scope, path: Path<string>)
    requires At(parent.fields, parent, ctx, scope, path).Some?
    requires Resolve(Nested(root), ctx.path) == Some(Nested(parent))
    ensures var s := At(parent.fields, parent, ctx, scope, path).value;
      Resolve(Nested(root), s.ctx.path) == Some(Nested(s.parent))
    decreases |path|
  {
    hide Covers;
    var f := FieldOf(parent.fields, path[0].name).value;
    FieldOfName(parent.fields, path[0].name);
    if |path| <= 1 {
    } else {
      var rest := path[1..];
      var step: Path<string> := [Name(f.name)];
      assert step[1..] == [];
      ResolveJoin(Nested(root), ctx.path, step);
      assert Resolve(Nested(root), ctx.path + step) == Resolve(f.value, []);
      match f.value
      case Nested(body) => ParentResolves(root, body, ctx.(path := ctx.path + step), scope, rest);
      case Repeat(spec, items) =>
        var into: Path<string> := [Index(rest[0].index)];
        assert into[1..] == [];
        ResolveJoin(Nested(root), ctx.path + step, into);
        ItemPath(ctx, f.name, spec, rest[0].index);
        assert (ctx.path + step) + into == ctx.path + [Name(f.name), Index(rest[0].index)];
        ParentResolves(root, items[rest[0].index], ItemCtx(ctx, f.name, spec, rest[0].index), scope, rest[1..]);
    }
  }

  /** A binding that was planned for record i from one data object is present in another iff that
      one's count exceeds i. */
  lemma PresentIffCounted(d: DataRecord, derived: seq<Spec>, now: DataRecord, e: PackEntity, i: nat, b: Binding)
    requires HasPacks(d, e) && HasPacks(now, e) && e.section.active.Some?
    requires BuildPlan(d, derived, map[]).Some? && b in BuildPlan(d, derived, map[]).value.entities
    requires b.path == Some(LeafOf(e, i))
    ensures b.presence.Some? && IsPresent(b.presence.value, now) == Some(i < PackCount(now, e))
  {
    hide At, IsPresent, ItemCtx, Named, BuildPlan, Own;
    NotElsewhere(d, derived, e, i, b);
    PackReached(d, e, i);
    var t := Reach(d, Planned(map[]), LeafOf(e, i)).value;
    OwnDevice(t.field, t.ctx, b);
    var s, r := Reach(d, Planned(map[]), e.at).value, Reach(now, Planned(map[]), e.at).value;
    AtIsNamed(d, Planned(map[]), e.at);
    AtIsNamed(now, Planned(map[]), e.at);
    SamePresence(s.ctx, s.field.name, r.ctx, r.field.name, e.section, i);
    ParentResolves(now, now, ROOT, Planned(map[]), e.at);
    PresenceIsCount(now, r.parent, r.ctx, r.field.name, e.section, i);
  }

  /** The presence of a record depends on the path of its section alone. */
  lemma SamePresence(a: Ctx, x: string, b: Ctx, y: string, spec: RepeatSpec, i: nat)
    requires a.path + [Name(x)] == b.path + [Name(y)] && spec.active.Some?
    ensures ItemCtx(a, x, spec, i).presence == ItemCtx(b, y, spec, i).presence
  {
    assert (a.path + [Name(x)])[..|a.path|] == a.path && (b.path + [Name(y)])[..|b.path|] == b.path;
  }
}
