/** The planner's walks as the code runs them: they append to shared lists while they recurse. */
module EntityWalk {
  import opened Wrappers
  import opened Paths
  import opened PathKeys
  import opened EntityPlans

  class Planner {
    const overrides: Overrides
    var entities: seq<Binding>
    var counts: map<string, nat>
    var devices: map<string, Device>
    var changes: seq<Change>

    constructor (overrides: Overrides)
      ensures this.overrides == overrides && Contents() == Plan([], map[], map["main" := MainDevice]) && changes == []
    {
      this.overrides := overrides;
      entities, counts, devices, changes := [], map[], map["main" := MainDevice], [];
    }

    function Contents(): Plan
      reads this
    {
      Plan(entities, counts, devices)
    }

    /** `_collect`; false where it raises. */
    method Collect(current: DataRecord, ctx: Ctx) returns (ok: bool)
      modifies this
      ensures var r := Join(Some(old(Contents())), CollectFields(current.fields, current, ctx, overrides));
        ok == r.Some? && (ok ==> Contents() == r.value)
      decreases current, 1
    {
      hide Own, ItemCtx, Configured, CollectField;
      var fields := current.fields;
      ghost var start := Contents();
      JoinNothing(start);
      for i := 0 to |fields|
        invariant Join(Some(start), CollectFields(fields, current, ctx, overrides))
          == Join(Some(Contents()), CollectFields(fields[i..], current, ctx, overrides))
      {
        var f := fields[i];
        assert fields[i..][0] == f && fields[i..][1..] == fields[i + 1..];
        JoinAssociative(Some(Contents()), CollectField(f, current, ctx, overrides),
          CollectFields(fields[i + 1..], current, ctx, overrides));
        ok := CollectOne(f, current, ctx);
        if !ok {
          return;
        }
      }
      JoinNothing(Contents());
      return true;
    }

    /** One turn of the loop of `_collect`. */
    method CollectOne(f: DataField, parent: DataRecord, ctx: Ctx) returns (ok: bool)
      modifies this
      ensures var r := Join(Some(old(Contents())), CollectField(f, parent, ctx, overrides));
        ok == r.Some? && (ok ==> Contents() == r.value)
      decreases f, 0
    {
      hide Simple, Indexed, ItemCtx, Configured;
      ghost var start := Contents();
      entities := entities + Simple(f.specs, ctx, f.name);
      ok := CollectIndexed(f.indexed, f.value, ctx, f.name);
      if !ok {
        return;
      }
      var own := Plan(Own(f, ctx).value, map[], map[]);
      assert Contents() == Join(Some(start), Some(own)).value;
      JoinAssociative(Some(start), Some(own), CollectValue(f.value, f.name, parent, ctx, overrides));
      match f.value
      case Nested(body) => ok := Collect(body, ctx.(path := ctx.path + [Name(f.name)]));
      case Repeat(spec, items) => ok := CollectRepeated(f.value, f.name, parent, ctx);
      case _ => JoinNothing(Contents());
    }

    method CollectIndexed(specs: seq<IndexedSpec>, v: DataValue, ctx: Ctx, name: string) returns (ok: bool)
      modifies this`entities
      ensures ok == Indexed(specs, v, ctx, name).Some?
      ensures ok ==> entities == old(entities) + Indexed(specs, v, ctx, name).value
    {
      hide Expanded;
      ghost var start := entities;
      for i := 0 to |specs|
        invariant Indexed(specs, v, ctx, name).Some? <==> Indexed(specs[i..], v, ctx, name).Some?
        invariant Indexed(specs, v, ctx, name).Some? ==>
          start + Indexed(specs, v, ctx, name).value == entities + Indexed(specs[i..], v, ctx, name).value
      {
        assert specs[i..][0] == specs[i] && specs[i..][1..] == specs[i + 1..];
        if Length(v).None? || Length(v).value < specs[i].count {
          return false;
        }
        entities := entities + Expanded(specs[i], ctx, name);
      }
      return true;
    }

    /** `_collect_repeated`. */
    method CollectRepeated(v: DataValue, name: string, parent: DataRecord, ctx: Ctx) returns (ok: bool)
      requires v.Repeat?
      modifies this
      ensures var r := Join(Some(old(Contents())), CollectValue(v, name, parent, ctx, overrides));
        ok == r.Some? && (ok ==> Contents() == r.value)
      decreases v, 0
    {
      hide ItemCtx, Configured, PathKey, CollectItems;
      var path := ctx.path + [Name(name)];
      var configured := Configured(parent, v.spec, path, overrides);
      if configured.None? {
        return false;
      }
      var n := configured.value;
      ghost var start := Contents();
      ghost var noted := Plan([], map[PathKey(path) := n], map[]);
      JoinAssociative(Some(start), Some(noted), CollectItems(v.items, 0, n, v.spec, name, ctx, overrides));
      counts := counts[PathKey(path) := n];
      assert Contents() == Join(Some(start), Some(noted)).value;
      ok := CollectConfigured(v.items, n, v.spec, name, ctx);
    }

    /** The loop of `_collect_repeated`. */
    method CollectConfigured(
        items: seq<DataRecord>, n: nat, spec: RepeatSpec, name: string, ctx: Ctx) returns (ok: bool)
      modifies this
      ensures var r := Join(Some(old(Contents())), CollectItems(items, 0, n, spec, name, ctx, overrides));
        ok == r.Some? && (ok ==> Contents() == r.value)
      decreases items, 3
    {
      hide ItemCtx, ChildOf, CollectFields, Join;
      ghost var start := Contents();
      for k := 0 to n
        invariant Join(Some(start), CollectItems(items, 0, n, spec, name, ctx, overrides))
          == Join(Some(Contents()), CollectItems(items, k, n, spec, name, ctx, overrides))
      {
        if |items| <= k {
          JoinNone(start, Contents());
          return false;
        }
        ok := CollectItem(items[k], k, spec, name, ctx, n, items);
        if !ok {
          return;
        }
      }
      JoinNothing(Contents());
      return true;
    }

    /** One turn of the loop of `_collect_repeated`. */
    method CollectItem(
        item: DataRecord, k: nat, spec: RepeatSpec, name: string, ctx: Ctx, n: nat, ghost items: seq<DataRecord>)
        returns (ok: bool)
      requires k < n && k < |items| && items[k] == item
      modifies this
      ensures Join(Some(old(Contents())), CollectItems(items, k, n, spec, name, ctx, overrides))
        == if ok then Join(Some(Contents()), CollectItems(items, k + 1, n, spec, name, ctx, overrides)) else None
      decreases item, 2
    {
      hide ItemCtx, CollectFields;
      ghost var start := Contents();
      ghost var child := Plan([], map[], ChildOf(ctx, spec, k));
      ghost var body := CollectFields(item.fields, item, ItemCtx(ctx, name, spec, k), overrides);
      ghost var rest := CollectItems(items, k + 1, n, spec, name, ctx, overrides);
      JoinAssociative(Some(start), Join(Some(child), body), rest);
      JoinAssociative(Some(start), Some(child), body);
      devices := devices + ChildOf(ctx, spec, k);
      assert Contents() == Join(Some(start), Some(child)).value;
      ok := Collect(item, ItemCtx(ctx, name, spec, k));
    }

    /** `_find_increases`. */
    method FindIncreases(current: DataRecord, path: Path<string>, configured: map<string, nat>) returns (ok: bool)
      modifies this`changes
      ensures var r := Plus(Some(old(changes)), GrowthInFields(current.fields, current, path, configured));
        ok == r.Some? && (ok ==> changes == r.value)
      decreases current, 1
    {
      hide Active, Grown;
      var fields := current.fields;
      ghost var start := changes;
      for i := 0 to |fields|
        invariant Plus(Some(start), GrowthInFields(fields, current, path, configured))
          == Plus(Some(changes), GrowthInFields(fields[i..], current, path, configured))
      {
        var f := fields[i];
        assert fields[i..][0] == f && fields[i..][1..] == fields[i + 1..];
        PlusAssociative(Some(changes), GrowthInField(f, current, path, configured),
          GrowthInFields(fields[i + 1..], current, path, configured));
        ok := FindInField(f, current, path, configured);
        if !ok {
          return;
        }
      }
      return true;
    }

    method FindInField(
        f: DataField, parent: DataRecord, path: Path<string>, configured: map<string, nat>) returns (ok: bool)
      modifies this`changes
      ensures var r := Plus(Some(old(changes)), GrowthInField(f, parent, path, configured));
        ok == r.Some? && (ok ==> changes == r.value)
      decreases f, 0
    {
      hide Active;
      var at := path + [Name(f.name)];
      match f.value
      case Nested(body) => ok := FindIncreases(body, at, configured);
      case Repeat(spec, items) =>
        var discovered := Active(parent, spec);
        if discovered.None? {
          return false;
        }
        ghost var start := changes;
        PlusAssociative(Some(start), Some(Grown(spec, discovered.value, at, configured)),
          GrowthInItems(items, 0, at, configured));
        var recorded := if PathKey(at) in configured then configured[PathKey(at)] else discovered.value;
        if recorded < discovered.value {
          changes := changes + [Change(at, recorded, discovered.value, spec.count)];
        }
        assert changes == start + Grown(spec, discovered.value, at, configured);
        ghost var begun := changes;
        for k := 0 to |items|
          invariant Plus(Some(begun), GrowthInItems(items, 0, at, configured))
            == Plus(Some(changes), GrowthInItems(items[k..], k, at, configured))
        {
          assert items[k..][0] == items[k] && items[k..][1..] == items[k + 1..];
          PlusAssociative(Some(changes), GrowthInFields(items[k].fields, items[k], at + [Index(k)], configured),
            GrowthInItems(items[k + 1..], k + 1, at, configured));
          ok := FindIncreases(items[k], at + [Index(k)], configured);
          if !ok {
            return;
          }
        }
        return true;
      case _ => ok := true;
    }
  }

  lemma JoinAssociative(a: Option<Plan>, b: Option<Plan>, c: Option<Plan>)
    ensures Join(Join(a, b), c) == Join(a, Join(b, c))
  {
    if a.Some? && b.Some? && c.Some? {
      var x, y, z := a.value, b.value, c.value;
      assert x.entities + y.entities + z.entities == x.entities + (y.entities + z.entities);
      assert x.counts + y.counts + z.counts == x.counts + (y.counts + z.counts);
      assert x.devices + y.devices + z.devices == x.devices + (y.devices + z.devices);
    }
  }

  lemma JoinNothing(a: Plan)
    ensures Join(Some(a), Some(NOTHING)) == Some(a)
  {
    assert a.entities + [] == a.entities && a.counts + map[] == a.counts && a.devices + map[] == a.devices;
  }

  lemma JoinNone(a: Plan, b: Plan)
    ensures Join(Some(a), None) == None == Join(Some(b), None)
  {
  }

  lemma PlusAssociative(a: Option<seq<Change>>, b: Option<seq<Change>>, c: Option<seq<Change>>)
    ensures Plus(Plus(a, b), c) == Plus(a, Plus(b, c))
  {
    if a.Some? && b.Some? && c.Some? {
      assert a.value + b.value + c.value == a.value + (b.value + c.value);
    }
  }

  /** `build_entity_plan`. */
  method BuildEntityPlan(data: DataRecord, derived: seq<Spec>, overrides: Overrides) returns (r: Option<Plan>)
    ensures r == BuildPlan(data, derived, overrides)
  {
    hide CollectFields;
    var planner := new Planner(overrides);
    var ok := planner.Collect(data, ROOT);
    if !ok {
      return None;
    }
    r := Some(Plan(planner.entities + Derived(derived), planner.counts, planner.devices));
    assert planner.counts + map[] == planner.counts && planner.devices + map[] == planner.devices;
  }

  /** `detect_expansion_increases`. */
  method DetectExpansionIncreases(data: DataRecord, plan: Plan) returns (r: Option<seq<Change>>)
    ensures r == DetectIncreases(data, plan)
  {
    hide GrowthInFields;
    var planner := new Planner(map[]);
    var ok := planner.FindIncreases(data, [], plan.counts);
    if !ok {
      return None;
    }
    r := Some(planner.changes);
    ghost var found := GrowthInFields(data.fields, data, [], plan.counts).value;
    assert [] + found == found;
  }
}
