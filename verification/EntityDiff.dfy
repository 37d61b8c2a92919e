/** What `detect_expansion_increases` reports, and what presence means. */
module EntityDiff {
  import opened Wrappers
  import opened Paths
  import opened PathKeys
  import opened EntityPlans
  import opened EntityPlanProofs

  /** A section whose populated records outnumber the recorded count, and what is reported for it. */
  ghost predicate Grew(s: Spot, counts: map<string, nat>, c: Change) {
    && s.field.value.Repeat?
    && c.path == s.ctx.path + [Name(s.field.name)]
    && Active(s.parent, s.field.value.spec) == Some(c.discovered)
    && c.maximum == s.field.value.spec.count
    && PathKey(c.path) in counts && c.configured == counts[PathKey(c.path)] && c.configured < c.discovered
  }

  lemma GrownExact(s: Spot, counts: map<string, nat>, c: Change)
    requires s.field.value.Repeat? && Active(s.parent, s.field.value.spec).Some?
    ensures var spec, at := s.field.value.spec, s.ctx.path + [Name(s.field.name)];
      c in Grown(spec, Active(s.parent, spec).value, at, counts) <==> Grew(s, counts, c)
  {
    hide PathKey;
  }

  // ----- every grown section is reported -----

  lemma {:induction false} FindsGrown(
      fields: seq<DataField>, parent: DataRecord, ctx: Ctx, counts: map<string, nat>, path: Path<string>,
      c: Change)
    requires GrowthInFields(fields, parent, ctx.path, counts).Some?
    requires At(fields, parent, ctx, Everything, path).Some?
    requires Grew(At(fields, parent, ctx, Everything, path).value, counts, c)
    ensures c in GrowthInFields(fields, parent, ctx.path, counts).value
    decreases fields, 1
  {
    hide Grew, Active, ItemCtx, Grown;
    assert fields[0] in fields;
    if fields[0].name == path[0].name {
      var f := fields[0];
      if |path| == 1 {
        assert f.value.Repeat? by { GrewRepeats(Spot(f, parent, ctx), counts, c); }
        GrownExact(Spot(f, parent, ctx), counts, c);
      } else {
        FindsGrownInside(f, parent, ctx, counts, path[1..], c);
      }
    } else {
      FindsGrown(fields[1..], parent, ctx, counts, path, c);
    }
  }

  lemma GrewRepeats(s: Spot, counts: map<string, nat>, c: Change)
    requires Grew(s, counts, c)
    ensures s.field.value.Repeat?
  {
  }

  lemma {:induction false} FindsGrownInside(
      f: DataField, parent: DataRecord, ctx: Ctx, counts: map<string, nat>, path: Path<string>, c: Change)
    requires path != [] && GrowthInField(f, parent, ctx.path, counts).Some?
    requires var s := Inside(f.value, f.name, parent, ctx, Everything, path); s.Some? && Grew(s.value, counts, c)
    ensures c in GrowthInField(f, parent, ctx.path, counts).value
    decreases f, 0
  {
    hide Grew, Active, ItemCtx, Grown;
    match f.value
    case Nested(body) => FindsGrown(body.fields, body, ctx.(path := ctx.path + [Name(f.name)]), counts, path, c);
    case Repeat(spec, items) => FindsGrownInItems(items, 0, spec, f.name, ctx, counts, path, c);
  }

  lemma {:induction false} FindsGrownInItems(
      items: seq<DataRecord>, k: nat, spec: RepeatSpec, name: string, ctx: Ctx, counts: map<string, nat>,
      path: Path<string>, c: Change)
    requires GrowthInItems(items, k, ctx.path + [Name(name)], counts).Some?
    requires path != [] && path[0].Index? && k <= path[0].index < k + |items|
    requires var item := items[path[0].index - k];
      var s := At(item.fields, item, ItemCtx(ctx, name, spec, path[0].index), Everything, path[1..]);
      s.Some? && Grew(s.value, counts, c)
    ensures c in GrowthInItems(items, k, ctx.path + [Name(name)], counts).value
    decreases items, 2
  {
    hide Grew, Active, ItemCtx, Grown;
    if path[0].index == k {
      ItemPath(ctx, name, spec, k);
      assert (ctx.path + [Name(name)]) + [Index(k)] == ctx.path + [Name(name), Index(k)];
      FindsGrown(items[0].fields, items[0], ItemCtx(ctx, name, spec, k), counts, path[1..], c);
    } else {
      assert items[1..][path[0].index - (k + 1)] == items[path[0].index - k];
      FindsGrownInItems(items[1..], k + 1, spec, name, ctx, counts, path, c);
    }
  }

  // ----- nothing else is reported -----

  lemma {:induction false} FoundGrew(
      fields: seq<DataField>, parent: DataRecord, ctx: Ctx, counts: map<string, nat>, c: Change)
      returns (path: Path<string>)
    requires Named(fields) && GrowthInFields(fields, parent, ctx.path, counts).Some?
    requires c in GrowthInFields(fields, parent, ctx.path, counts).value
    ensures var s := At(fields, parent, ctx, Everything, path); s.Some? && Grew(s.value, counts, c)
    decreases fields, 1
  {
    hide Grew, Active, ItemCtx, Grown;
    assert fields[0] in fields;
    if c in GrowthInFields(fields[1..], parent, ctx.path, counts).value {
      path := FoundGrew(fields[1..], parent, ctx, counts, c);
      assert path[0].name != fields[0].name;
    } else {
      path := FoundGrewInField(fields[0], parent, ctx, counts, c);
    }
  }

  lemma {:induction false} FoundGrewInField(
      f: DataField, parent: DataRecord, ctx: Ctx, counts: map<string, nat>, c: Change) returns (path: Path<string>)
    requires NamedValue(f.value) && GrowthInField(f, parent, ctx.path, counts).Some?
    requires c in GrowthInField(f, parent, ctx.path, counts).value
    ensures path != [] && path[0] == Name(f.name)
    ensures var s := if |path| == 1 then Some(Spot(f, parent, ctx))
      else Inside(f.value, f.name, parent, ctx, Everything, path[1..]);
      s.Some? && Grew(s.value, counts, c)
    decreases f, 0
  {
    hide Grew, Active, ItemCtx, Grown;
    match f.value
    case Nested(body) =>
      var rest := FoundGrew(body.fields, body, ctx.(path := ctx.path + [Name(f.name)]), counts, c);
      path := [Name(f.name)] + rest;
      assert path[1..] == rest;
    case Repeat(spec, items) =>
      var at := ctx.path + [Name(f.name)];
      if c in GrowthInItems(items, 0, at, counts).value {
        var rest := FoundGrewInItems(items, 0, spec, f.name, ctx, counts, c);
        path := [Name(f.name)] + rest;
        assert path[1..] == rest;
      } else {
        path := [Name(f.name)];
        GrownExact(Spot(f, parent, ctx), counts, c);
      }
  }

  lemma {:induction false} FoundGrewInItems(
      items: seq<DataRecord>, k: nat, spec: RepeatSpec, name: string, ctx: Ctx, counts: map<string, nat>,
      c: Change) returns (path: Path<string>)
    requires forall item | item in items :: Named(item.fields)
    requires GrowthInItems(items, k, ctx.path + [Name(name)], counts).Some?
    requires c in GrowthInItems(items, k, ctx.path + [Name(name)], counts).value
    ensures path != [] && path[0].Index? && k <= path[0].index < k + |items|
    ensures var item := items[path[0].index - k];
      var s := At(item.fields, item, ItemCtx(ctx, name, spec, path[0].index), Everything, path[1..]);
      s.Some? && Grew(s.value, counts, c)
    decreases items, 2
  {
    hide Grew, Active, ItemCtx, Grown;
    if c in GrowthInItems(items[1..], k + 1, ctx.path + [Name(name)], counts).value {
      path := FoundGrewInItems(items[1..], k + 1, spec, name, ctx, counts, c);
    } else {
      ItemPath(ctx, name, spec, k);
      assert (ctx.path + [Name(name)]) + [Index(k)] == ctx.path + [Name(name), Index(k)];
      var rest := FoundGrew(items[0].fields, items[0], ItemCtx(ctx, name, spec, k), counts, c);
      path := [Index(k)] + rest;
      assert path[1..] == rest;
    }
  }

  // ----- each section once -----

  ghost predicate DistinctChanges(cs: seq<Change>) {
    forall i, j | 0 <= i < j < |cs| :: cs[i].path != cs[j].path
  }

  lemma DistinctPlus(a: seq<Change>, b: seq<Change>)
    requires DistinctChanges(a) && DistinctChanges(b) && forall c, d | c in a && d in b :: c.path != d.path
    ensures DistinctChanges(a + b)
  {
  }

  /** A change lies below the field it was found in. */
  lemma FoundBelow(
      fields: seq<DataField>, parent: DataRecord, ctx: Ctx, counts: map<string, nat>, c: Change)
      returns (path: Path<string>)
    requires Named(fields) && GrowthInFields(fields, parent, ctx.path, counts).Some?
    requires c in GrowthInFields(fields, parent, ctx.path, counts).value
    ensures c.path == ctx.path + path && path != [] && path[0].Name? && FieldOf(fields, path[0].name).Some?
  {
    hide Active, ItemCtx;
    path := FoundGrew(fields, parent, ctx, counts, c);
    AtKnowsPath(fields, parent, ctx, Everything, path);
  }

  lemma {:induction false} FindsOnce(fields: seq<DataField>, parent: DataRecord, ctx: Ctx, counts: map<string, nat>)
    requires Named(fields) && GrowthInFields(fields, parent, ctx.path, counts).Some?
    ensures DistinctChanges(GrowthInFields(fields, parent, ctx.path, counts).value)
    decreases fields, 1
  {
    hide DistinctChanges, Active, ItemCtx;
    if fields == [] {
      NoChanges();
    } else {
      assert fields[0] in fields;
      var a, b := GrowthInField(fields[0], parent, ctx.path, counts).value,
        GrowthInFields(fields[1..], parent, ctx.path, counts).value;
      FindsOnceInField(fields[0], parent, ctx, counts);
      FindsOnce(fields[1..], parent, ctx, counts);
      forall c, d | c in a && d in b ensures c.path != d.path {
        var p := FoundInField(fields[0], parent, ctx, counts, c);
        var q := FoundBelow(fields[1..], parent, ctx, counts, d);
        assert c.path[|ctx.path|] == Name(fields[0].name) && d.path[|ctx.path|] == q[0];
      }
      DistinctPlus(a, b);
    }
  }

  lemma NoChanges()
    ensures DistinctChanges([])
  {
  }

  lemma FoundInField(
      f: DataField, parent: DataRecord, ctx: Ctx, counts: map<string, nat>, c: Change) returns (path: Path<string>)
    requires NamedValue(f.value) && GrowthInField(f, parent, ctx.path, counts).Some?
    requires c in GrowthInField(f, parent, ctx.path, counts).value
    ensures c.path == ctx.path + ([Name(f.name)] + path)
  {
    hide Active, ItemCtx, Named;
    path := FoundGrewInField(f, parent, ctx, counts, c);
    if |path| > 1 {
      AtKnowsPath([f], parent, ctx, Everything, path);
    }
    assert path == [Name(f.name)] + path[1..];
    path := path[1..];
  }

  lemma {:induction false} FindsOnceInField(f: DataField, parent: DataRecord, ctx: Ctx, counts: map<string, nat>)
    requires NamedValue(f.value) && GrowthInField(f, parent, ctx.path, counts).Some?
    ensures DistinctChanges(GrowthInField(f, parent, ctx.path, counts).value)
    decreases f, 0
  {
    hide DistinctChanges, Active, ItemCtx, Grown;
    match f.value
    case Nested(body) => FindsOnce(body.fields, body, ctx.(path := ctx.path + [Name(f.name)]), counts);
    case Repeat(spec, items) =>
      var at := ctx.path + [Name(f.name)];
      var a, b := Grown(spec, Active(parent, spec).value, at, counts), GrowthInItems(items, 0, at, counts).value;
      FindsOnceInItems(items, 0, spec, f.name, ctx, counts);
      GrownOnce(spec, Active(parent, spec).value, at, counts);
      forall c, d | c in a && d in b ensures c.path != d.path {
        var rest := FoundBelowItems(items, 0, spec, f.name, ctx, counts, d);
      }
      DistinctPlus(a, b);
    case _ => NoChanges();
  }

  lemma GrownOnce(spec: RepeatSpec, n: nat, at: Path<string>, counts: map<string, nat>)
    ensures DistinctChanges(Grown(spec, n, at, counts))
    ensures forall c | c in Grown(spec, n, at, counts) :: c.path == at
  {
    hide PathKey;
  }

  /** A change found in the items lies below one of them. */
  lemma FoundBelowItems(
      items: seq<DataRecord>, k: nat, spec: RepeatSpec, name: string, ctx: Ctx, counts: map<string, nat>,
      c: Change) returns (rest: Path<string>)
    requires forall item | item in items :: Named(item.fields)
    requires GrowthInItems(items, k, ctx.path + [Name(name)], counts).Some?
    requires c in GrowthInItems(items, k, ctx.path + [Name(name)], counts).value
    ensures rest != [] && rest[0].Index? && k <= rest[0].index && c.path == (ctx.path + [Name(name)]) + rest
  {
    hide Active, ItemCtx;
    rest := FoundGrewInItems(items, k, spec, name, ctx, counts, c);
    var item := items[rest[0].index - k];
    ItemPath(ctx, name, spec, rest[0].index);
    AtKnowsPath(item.fields, item, ItemCtx(ctx, name, spec, rest[0].index), Everything, rest[1..]);
    assert (ctx.path + [Name(name), rest[0]]) + rest[1..] == (ctx.path + [Name(name)]) + rest;
  }

  lemma {:induction false} FindsOnceInItems(
      items: seq<DataRecord>, k: nat, spec: RepeatSpec, name: string, ctx: Ctx, counts: map<string, nat>)
    requires forall item | item in items :: Named(item.fields)
    requires GrowthInItems(items, k, ctx.path + [Name(name)], counts).Some?
    ensures DistinctChanges(GrowthInItems(items, k, ctx.path + [Name(name)], counts).value)
    decreases items, 2
  {
    hide DistinctChanges, Active, ItemCtx;
    if items == [] {
      NoChanges();
    } else {
      var at := ctx.path + [Name(name)];
      var inner := ItemCtx(ctx, name, spec, k);
      ItemPath(ctx, name, spec, k);
      assert inner.path == at + [Index(k)];
      var a, b := GrowthInFields(items[0].fields, items[0], at + [Index(k)], counts).value,
        GrowthInItems(items[1..], k + 1, at, counts).value;
      FindsOnce(items[0].fields, items[0], inner, counts);
      FindsOnceInItems(items[1..], k + 1, spec, name, ctx, counts);
      forall c, d | c in a && d in b ensures c.path != d.path {
        var p := FoundBelow(items[0].fields, items[0], inner, counts, c);
        var q := FoundBelowItems(items[1..], k + 1, spec, name, ctx, counts, d);
        assert c.path[|at|] == Index(k) && d.path[|at|] == q[0];
      }
      DistinctPlus(a, b);
    }
  }

  // ----- plan and diff agree -----

  /** A section that the plan of one data object covers and that holds more populated records in
      another, with both counts. */
  ghost predicate GrewBetween(before: DataRecord, after: DataRecord, c: Change) {
    var s, t := Reach(before, Planned(map[]), c.path), Reach(after, Everything, c.path);
    && s.Some? && s.value.field.value.Repeat? && Active(s.value.parent, s.value.field.value.spec) == Some(c.configured)
    && t.Some? && t.value.field.value.Repeat? && Active(t.value.parent, t.value.field.value.spec) == Some(c.discovered)
    && c.maximum == t.value.field.value.spec.count && c.configured < c.discovered
  }

  lemma WithoutOverrides(parent: DataRecord, spec: RepeatSpec, path: Path<string>)
    ensures Configured(parent, spec, path, map[]) == Active(parent, spec)
  {
  }

  /** The reported increases are exactly the sections the plan recorded whose clamped count is larger
      now, each reported once with the old and the new count. */
  lemma PlanAndDiffAgree(before: DataRecord, after: DataRecord, derived: seq<Spec>, c: Change)
    requires Named(before.fields) && Named(after.fields) && BuildPlan(before, derived, map[]).Some?
    requires DetectIncreases(after, BuildPlan(before, derived, map[]).value).Some?
    ensures var changes := DetectIncreases(after, BuildPlan(before, derived, map[]).value).value;
      (c in changes <==> GrewBetween(before, after, c)) && DistinctChanges(changes)
  {
    hide At, BuildPlan, Named, Active, Configured, GrowthInFields, DistinctChanges, PathKey;
    var counts := BuildPlan(before, derived, map[]).value.counts;
    FindsOnce(after.fields, after, ROOT, counts);
    if c in DetectIncreases(after, BuildPlan(before, derived, map[]).value).value {
      var path := FoundGrew(after.fields, after, ROOT, counts, c);
      AtIsNamed(after, Everything, path);
      CountsExact(before, derived, map[], c.path);
      var s := Reach(before, Planned(map[]), c.path).value;
      WithoutOverrides(s.parent, s.field.value.spec, c.path);
    }
    if GrewBetween(before, after, c) {
      AtIsNamed(after, Everything, c.path);
      CountsExact(before, derived, map[], c.path);
      var s := Reach(before, Planned(map[]), c.path).value;
      WithoutOverrides(s.parent, s.field.value.spec, c.path);
      assert Grew(Reach(after, Everything, c.path).value, counts, c);
      FindsGrown(after.fields, after, ROOT, counts, c.path, c);
    }
  }

  lemma {:induction false} PlannedIsReached(
      fields: seq<DataField>, parent: DataRecord, ctx: Ctx, overrides: Overrides, path: Path<string>)
    requires At(fields, parent, ctx, Planned(overrides), path).Some?
    ensures At(fields, parent, ctx, Everything, path) == At(fields, parent, ctx, Planned(overrides), path)
    decreases |path|
  {
    hide ItemCtx, Configured;
    var f := FieldOf(fields, path[0].name).value;
    if |path| <= 1 {
    } else {
      var rest := path[1..];
      match f.value
      case Nested(body) =>
        PlannedIsReached(body.fields, body, ctx.(path := ctx.path + [Name(f.name)]), overrides, rest);
      case Repeat(spec, items) =>
        var item := items[rest[0].index];
        PlannedIsReached(item.fields, item, ItemCtx(ctx, f.name, spec, rest[0].index), overrides, rest[1..]);
    }
  }

  /** Every repeated section, in every record, has a scalar field for its active count. */
  predicate CountsReadable(fields: seq<DataField>, parent: DataRecord)
    decreases fields, 1
  {
    fields == [] ||
    (assert fields[0] in fields;
     CountsReadableIn(fields[0].value, parent) && CountsReadable(fields[1..], parent))
  }

  predicate CountsReadableIn(v: DataValue, parent: DataRecord)
    decreases v, 0
  {
    match v
    case Nested(body) => CountsReadable(body.fields, body)
    case Repeat(spec, items) =>
      Active(parent, spec).Some? && forall item | item in items :: CountsReadable(item.fields, item)
    case _ => true
  }

  /** The search raises exactly on data in which some active count cannot be read. */
  lemma {:induction false} SearchSucceedsIff(
    fields: seq<DataField>, parent: DataRecord, path: Path<string>, counts: map<string, nat>)
    ensures GrowthInFields(fields, parent, path, counts).Some? <==> CountsReadable(fields, parent)
    decreases fields, 1
  {
    hide Active, Grown;
    if fields == [] {
    } else {
      assert fields[0] in fields;
      var f := fields[0];
      match f.value {
        case Nested(body) => SearchSucceedsIff(body.fields, body, path + [Name(f.name)], counts);
        case Repeat(_, items) => ItemSearchSucceedsIff(items, 0, path + [Name(f.name)], counts);
        case _ =>
      }
      SearchSucceedsIff(fields[1..], parent, path, counts);
    }
  }

  lemma {:induction false} ItemSearchSucceedsIff(
      items: seq<DataRecord>, k: nat, at: Path<string>, counts: map<string, nat>)
    ensures GrowthInItems(items, k, at, counts).Some? <==>
      forall item | item in items :: CountsReadable(item.fields, item)
    decreases items, 2
  {
    if items == [] {
    } else {
      SearchSucceedsIff(items[0].fields, items[0], at + [Index(k)], counts);
      ItemSearchSucceedsIff(items[1..], k + 1, at, counts);
      assert items == [items[0]] + items[1..];
    }
  }

  /** The data a plan was made from has not grown: the search reports nothing, and raises only where
      some active count, if only of a record that the plan does not cover, cannot be read. */
  lemma UnchangedDataHasNotGrown(data: DataRecord, derived: seq<Spec>)
    requires Named(data.fields) && BuildPlan(data, derived, map[]).Some?
    ensures DetectIncreases(data, BuildPlan(data, derived, map[]).value)
      == if CountsReadable(data.fields, data) then Some([]) else None
  {
    hide At, BuildPlan, Named, Active, DistinctChanges, GrowthInFields, CountsReadable;
    var plan := BuildPlan(data, derived, map[]).value;
    SearchSucceedsIff(data.fields, data, [], plan.counts);
    var changes := DetectIncreases(data, plan);
    if changes.Some? && changes.value != [] {
      var c := changes.value[0];
      PlanAndDiffAgree(data, data, derived, c);
      PlannedIsReached(data.fields, data, ROOT, map[], c.path);
      assert false;
    }
  }

  // ----- presence -----

  /** In any data object a repeated record is present iff its index is below the clamped count that
      a plan of that object would give its section. */
  lemma PresenceIsCount(data: DataRecord, parent: DataRecord, ctx: Ctx, name: string, spec: RepeatSpec, i: nat)
    requires Resolve(Nested(data), ctx.path) == Some(Nested(parent)) && spec.active.Some?
    ensures var p, n := ItemCtx(ctx, name, spec, i).presence, Active(parent, spec);
      p.Some? && IsPresent(p.value, data) == if n.Some? then Some(i < n.value) else None
  {
    var step: Path<string> := [Name(spec.active.value)];
    ResolveJoin(Nested(data), ctx.path, step);
    assert step[1..] == [];
    match FieldOf(parent.fields, spec.active.value)
    case None => assert Resolve(Nested(parent), step).None?;
    case Some(f) => assert Resolve(Nested(parent), step) == Resolve(f.value, step[1..]);
  }

  /** The presence handed down the walk holds in the data that was walked. */
  lemma {:induction false} PresenceAlongPath(root: DataRecord, parent: DataRecord, ctx: Ctx, path: Path<string>)
    requires At(parent.fields, parent, ctx, Planned(map[]), path).Some?
    requires Resolve(Nested(root), ctx.path) == Some(Nested(parent))
    requires ctx.presence.Some? ==> IsPresent(ctx.presence.value, root) == Some(true)
    ensures var s := At(parent.fields, parent, ctx, Planned(map[]), path).value;
      s.ctx.presence.Some? ==> IsPresent(s.ctx.presence.value, root) == Some(true)
    decreases |path|
  {
    hide IsPresent, Configured, PathKey, Active;
    var f := FieldOf(parent.fields, path[0].name).value;
    FieldOfName(parent.fields, path[0].name);
    if |path| <= 1 {
    } else {
      var rest := path[1..];
      var step: Path<string> := [Name(f.name)];
      assert step[1..] == [];
      ResolveJoin(Nested(root), ctx.path, step);
      assert Resolve(Nested(root), ctx.path + step) == Resolve(f.value, []);
      match f.value
      case Nested(body) => PresenceAlongPath(root, body, ctx.(path := ctx.path + step), rest);
      case Repeat(spec, items) =>
        var i := rest[0].index;
        var into: Path<string> := [Index(i)];
        assert into[1..] == [];
        ResolveJoin(Nested(root), ctx.path + step, into);
        ItemPath(ctx, f.name, spec, i);
        assert (ctx.path + step) + into == ctx.path + [Name(f.name), Index(i)];
        WithoutOverrides(parent, spec, ctx.path + step);
        if spec.active.Some? {
          PresenceIsCount(root, parent, ctx, f.name, spec, i);
        }
        PresenceAlongPath(root, items[i], ItemCtx(ctx, f.name, spec, i), rest[1..]);
    }
  }

  /** Everything a plan without overrides holds is present in the data it was planned from. */
  lemma PlannedIsPresent(data: DataRecord, derived: seq<Spec>, b: Binding)
    requires Named(data.fields) && BuildPlan(data, derived, map[]).Some?
    requires b in BuildPlan(data, derived, map[]).value.entities
    ensures b.presence.Some? ==> IsPresent(b.presence.value, data) == Some(true)
  {
    hide At, BuildPlan, Own, IsPresent;
    BindingsExact(data, derived, map[], b);
    if b !in Derived(derived) {
      var path :| BoundAt(data, map[], path, b);
      PresenceAlongPath(data, data, ROOT, path);
      var s := Reach(data, Planned(map[]), path).value;
      OwnDevice(s.field, s.ctx, b);
    }
  }
}
