/** Plan and diff against a reference that follows one path at a time. */
module EntityPlanProofs {
  import opened Wrappers
  import opened Paths
  import opened PathKeys
  import opened EntityPlans

  /** A field, the record it lies in, and what the walk hands down to that record. */
  datatype Spot = Spot(field: DataField, parent: DataRecord, ctx: Ctx)

  /** Which records of a repeated section a path may go through: those a plan covers, or all. */
  datatype Scope = Planned(overrides: Overrides) | Everything

  predicate Covers(scope: Scope, parent: DataRecord, spec: RepeatSpec, path: Path<string>, i: nat) {
    match scope
    case Everything => true
    case Planned(overrides) =>
      Configured(parent, spec, path, overrides).Some? && i < Configured(parent, spec, path, overrides).value
  }

  /** The field at a path. */
  function At(fields: seq<DataField>, parent: DataRecord, ctx: Ctx, scope: Scope, path: Path<string>): Option<Spot>
    decreases |path|, 0
  {
    if path == [] || path[0].Index? then None
    else
      match FieldOf(fields, path[0].name)
      case None => None
      case Some(f) =>
        if |path| == 1 then Some(Spot(f, parent, ctx)) else Inside(f.value, f.name, parent, ctx, scope, path[1..])
  }

  function Inside(
      v: DataValue, name: string, parent: DataRecord, ctx: Ctx, scope: Scope, path: Path<string>): Option<Spot>
    requires path != []
    decreases |path|, 1
  {
    match v
    case Nested(body) => At(body.fields, body, ctx.(path := ctx.path + [Name(name)]), scope, path)
    case Repeat(spec, items) =>
      if path[0].Name? || |items| <= path[0].index ||
        !Covers(scope, parent, spec, ctx.path + [Name(name)], path[0].index) then None
      else
        var item := items[path[0].index];
        At(item.fields, item, ItemCtx(ctx, name, spec, path[0].index), scope, path[1..])
    case _ => None
  }

  /** The field at a path from the root. */
  function Reach(data: DataRecord, scope: Scope, path: Path<string>): Option<Spot> {
    At(data.fields, data, ROOT, scope, path)
  }

  /** Attribute names are identifiers and distinct within each record. */
  predicate Named(fields: seq<DataField>)
    decreases fields, 1
  {
    fields == [] ||
    (assert fields[0] in fields;
     && Identifier(fields[0].name)
     && FieldOf(fields[1..], fields[0].name).None?
     && NamedValue(fields[0].value)
     && Named(fields[1..]))
  }

  predicate NamedValue(v: DataValue)
    decreases v, 0
  {
    match v
    case Nested(body) => Named(body.fields)
    case Repeat(_, items) => forall item | item in items :: Named(item.fields)
    case _ => true
  }

  lemma {:induction false} FieldIsNamed(fields: seq<DataField>, name: string)
    requires Named(fields) && FieldOf(fields, name).Some?
    ensures Identifier(name) && NamedValue(FieldOf(fields, name).value.value)
    ensures FieldOf(fields, name).value.name == name
    ensures FieldOf(fields, name).value in fields
  {
    if fields[0].name != name {
      FieldIsNamed(fields[1..], name);
    }
  }

  /** A path that leads to a field is made of identifiers and indices. */
  lemma {:induction false} AtIsWellNamed(
      fields: seq<DataField>, parent: DataRecord, ctx: Ctx, scope: Scope, path: Path<string>)
    requires Named(fields) && At(fields, parent, ctx, scope, path).Some?
    ensures WellNamed(path)
    decreases |path|
  {
    hide PathKey, Covers, ItemCtx, Identifier;
    FieldIsNamed(fields, path[0].name);
    var f := FieldOf(fields, path[0].name).value;
    if |path| <= 1 {
    } else {
      var rest := path[1..];
      match f.value
      case Nested(body) => AtIsWellNamed(body.fields, body, ctx.(path := ctx.path + [Name(f.name)]), scope, rest);
      case Repeat(spec, items) =>
        var item := items[rest[0].index];
        AtIsWellNamed(item.fields, item, ItemCtx(ctx, f.name, spec, rest[0].index), scope, rest[1..]);
        assert rest == [rest[0]] + rest[1..];
      assert path == [path[0]] + rest;
    }
  }

  lemma ItemPath(ctx: Ctx, name: string, spec: RepeatSpec, i: nat)
    ensures ItemCtx(ctx, name, spec, i).path == ctx.path + [Name(name), Index(i)]
  {
  }

  lemma FieldOfName(fields: seq<DataField>, name: string)
    ensures FieldOf(fields, name).Some? ==> FieldOf(fields, name).value.name == name
  {
  }

  /** A field knows its path. */
  lemma {:induction false} AtKnowsPath(
      fields: seq<DataField>, parent: DataRecord, ctx: Ctx, scope: Scope, path: Path<string>)
    requires At(fields, parent, ctx, scope, path).Some?
    ensures var s := At(fields, parent, ctx, scope, path).value; ctx.path + path == s.ctx.path + [Name(s.field.name)]
    decreases |path|
  {
    hide PathKey, Covers, ItemCtx;
    FieldOfName(fields, path[0].name);
    var f := FieldOf(fields, path[0].name).value;
    assert path == [path[0]] + path[1..];
    if |path| <= 1 {
    } else {
      var rest := path[1..];
      match f.value
      case Nested(body) =>
        AtKnowsPath(body.fields, body, ctx.(path := ctx.path + [Name(f.name)]), scope, rest);
        assert ctx.path + path == (ctx.path + [Name(f.name)]) + rest;
      case Repeat(spec, items) =>
        var item := items[rest[0].index];
        ItemPath(ctx, f.name, spec, rest[0].index);
        AtKnowsPath(item.fields, item, ItemCtx(ctx, f.name, spec, rest[0].index), scope, rest[1..]);
        assert ctx.path + path == (ctx.path + [Name(f.name), rest[0]]) + rest[1..];
    }
  }

  lemma AtIsNamed(data: DataRecord, scope: Scope, path: Path<string>)
    requires Named(data.fields) && Reach(data, scope, path).Some?
    ensures WellNamed(path)
    ensures var s := Reach(data, scope, path).value; path == s.ctx.path + [Name(s.field.name)]
  {
    hide At;
    AtIsWellNamed(data.fields, data, ROOT, scope, path);
    AtKnowsPath(data.fields, data, ROOT, scope, path);
    assert ROOT.path + path == path;
  }

  // ----- where the planned bindings and counts come from -----

  /** What the plan records for one field. */
  ghost predicate Accounts(plan: Plan, s: Spot, overrides: Overrides) {
    var path := s.ctx.path + [Name(s.field.name)];
    && Own(s.field, s.ctx).Some?
    && (forall b | b in Own(s.field, s.ctx).value :: b in plan.entities)
    && (s.field.value.Repeat? ==>
          && PathKey(path) in plan.counts && Configured(s.parent, s.field.value.spec, path, overrides).Some?
          && Configured(s.parent, s.field.value.spec, path, overrides).value <= |s.field.value.items|)
  }

  lemma AccountsInJoin(a: Plan, b: Plan, s: Spot, overrides: Overrides)
    requires Accounts(a, s, overrides) || Accounts(b, s, overrides)
    ensures Accounts(Join(Some(a), Some(b)).value, s, overrides)
  {
    hide Own, Configured;
  }

  /** A section that counts more records than it holds has no plan. */
  lemma {:induction false} EnoughItems(
      items: seq<DataRecord>, k: nat, n: nat, spec: RepeatSpec, name: string, ctx: Ctx, overrides: Overrides)
    requires CollectItems(items, k, n, spec, name, ctx, overrides).Some?
    ensures n <= k || n <= |items|
    decreases n - k
  {
    hide ItemCtx, CollectFields;
    if n <= k {
    } else {
      EnoughItems(items, k + 1, n, spec, name, ctx, overrides);
    }
  }

  /** Every field that the walk reaches has its own bindings in the plan. */
  lemma {:induction false} Complete(
      fields: seq<DataField>, parent: DataRecord, ctx: Ctx, overrides: Overrides, path: Path<string>)
    requires CollectFields(fields, parent, ctx, overrides).Some?
    requires At(fields, parent, ctx, Planned(overrides), path).Some?
    ensures Accounts(CollectFields(fields, parent, ctx, overrides).value,
      At(fields, parent, ctx, Planned(overrides), path).value, overrides)
    decreases fields, 1, 0
  {
    hide Own, Configured, ItemCtx;
    assert fields[0] in fields;
    if fields[0].name == path[0].name {
      var f := fields[0];
      var s := At(fields, parent, ctx, Planned(overrides), path).value;
      var own, inner :=
        Plan(Own(f, ctx).value, map[], map[]), CollectValue(f.value, f.name, parent, ctx, overrides).value;
      if |path| > 1 {
        CompleteValue(f.value, f.name, parent, ctx, overrides, path[1..]);
        AccountsInJoin(own, inner, s, overrides);
      } else if f.value.Repeat? {
        var n := Configured(parent, f.value.spec, ctx.path + [Name(f.name)], overrides).value;
        EnoughItems(f.value.items, 0, n, f.value.spec, f.name, ctx, overrides);
      }
      assert CollectField(f, parent, ctx, overrides) == Join(Some(own), Some(inner));
      assert Accounts(CollectField(f, parent, ctx, overrides).value, s, overrides);
      AccountsInJoin(CollectField(f, parent, ctx, overrides).value,
        CollectFields(fields[1..], parent, ctx, overrides).value, s, overrides);
    } else {
      Complete(fields[1..], parent, ctx, overrides, path);
    }
  }

  lemma {:induction false} CompleteValue(
      v: DataValue, name: string, parent: DataRecord, ctx: Ctx, overrides: Overrides, path: Path<string>)
    requires path != [] && CollectValue(v, name, parent, ctx, overrides).Some?
    requires Inside(v, name, parent, ctx, Planned(overrides), path).Some?
    ensures Accounts(CollectValue(v, name, parent, ctx, overrides).value,
      Inside(v, name, parent, ctx, Planned(overrides), path).value, overrides)
    decreases v, 0, 0
  {
    hide Own, Configured, ItemCtx;
    match v
    case Nested(body) => Complete(body.fields, body, ctx.(path := ctx.path + [Name(name)]), overrides, path);
    case Repeat(spec, items) =>
      var n := Configured(parent, spec, ctx.path + [Name(name)], overrides).value;
      CompleteItems(items, 0, n, spec, name, ctx, overrides, path);
  }

  lemma {:induction false} CompleteItems(
      items: seq<DataRecord>, k: nat, n: nat, spec: RepeatSpec, name: string, ctx: Ctx, overrides: Overrides,
      path: Path<string>)
    requires CollectItems(items, k, n, spec, name, ctx, overrides).Some?
    requires path != [] && path[0].Index? && k <= path[0].index < n && path[0].index < |items|
    requires var item, inner := items[path[0].index], ItemCtx(ctx, name, spec, path[0].index);
      At(item.fields, item, inner, Planned(overrides), path[1..]).Some?
    ensures var item, inner := items[path[0].index], ItemCtx(ctx, name, spec, path[0].index);
      var s := At(item.fields, item, inner, Planned(overrides), path[1..]).value;
      Accounts(CollectItems(items, k, n, spec, name, ctx, overrides).value, s, overrides)
    decreases items, 2, n - k
  {
    hide Own, Configured, ItemCtx;
    if path[0].index == k {
      Complete(items[k].fields, items[k], ItemCtx(ctx, name, spec, k), overrides, path[1..]);
    } else {
      CompleteItems(items, k + 1, n, spec, name, ctx, overrides, path);
    }
  }

  /** Where one binding and one count of a plan come from. */
  ghost predicate Explains(s: Spot, what: Item, count: nat, overrides: Overrides) {
    var path := s.ctx.path + [Name(s.field.name)];
    match what
    case Entity(b) => Own(s.field, s.ctx).Some? && b in Own(s.field, s.ctx).value
    case Count(k) =>
      s.field.value.Repeat? && k == PathKey(path) &&
        Configured(s.parent, s.field.value.spec, path, overrides) == Some(count)
  }

  datatype Item = Entity(binding: Binding) | Count(key: string)

  ghost predicate Lists(plan: Plan, what: Item) {
    match what
    case Entity(b) => b in plan.entities
    case Count(k) => k in plan.counts
  }

  ghost function CountOf(plan: Plan, what: Item): nat
    requires Lists(plan, what)
  {
    if what.Count? then plan.counts[what.key] else 0
  }

  /** Nothing else is in the plan. */
  lemma {:induction false} Origin(
      fields: seq<DataField>, parent: DataRecord, ctx: Ctx, overrides: Overrides, what: Item)
      returns (path: Path<string>)
    requires Named(fields)
    requires CollectFields(fields, parent, ctx, overrides).Some?
    requires Lists(CollectFields(fields, parent, ctx, overrides).value, what)
    ensures var s := At(fields, parent, ctx, Planned(overrides), path);
      s.Some? && Explains(s.value, what, CountOf(CollectFields(fields, parent, ctx, overrides).value, what), overrides)
    decreases fields, 1, 0
  {
    hide Own, Configured, ItemCtx;
    assert fields[0] in fields;
    var f := fields[0];
    var rest := CollectFields(fields[1..], parent, ctx, overrides).value;
    if Lists(rest, what) {
      path := Origin(fields[1..], parent, ctx, overrides, what);
      assert path[0].name != f.name;
    } else if what.Entity? && what.binding in Own(f, ctx).value {
      path := [Name(f.name)];
    } else {
      path := OriginInValue(f.value, f.name, parent, ctx, overrides, what);
      path := [Name(f.name)] + path;
      assert path[1..] == path[1..];
    }
  }

  lemma {:induction false} OriginInValue(
      v: DataValue, name: string, parent: DataRecord, ctx: Ctx, overrides: Overrides, what: Item)
      returns (path: Path<string>)
    requires NamedValue(v)
    requires CollectValue(v, name, parent, ctx, overrides).Some?
    requires Lists(CollectValue(v, name, parent, ctx, overrides).value, what)
    ensures path == [] ==>
      Explains(Spot(DataField(name, [], [], v), parent, ctx), what,
        CountOf(CollectValue(v, name, parent, ctx, overrides).value, what), overrides) && what.Count?
    ensures path != [] ==>
      var s := Inside(v, name, parent, ctx, Planned(overrides), path);
      s.Some? && Explains(s.value, what, CountOf(CollectValue(v, name, parent, ctx, overrides).value, what), overrides)
    decreases v, 0, 0
  {
    hide Own, Configured, ItemCtx;
    match v
    case Nested(body) => path := Origin(body.fields, body, ctx.(path := ctx.path + [Name(name)]), overrides, what);
    case Repeat(spec, items) =>
      var at := ctx.path + [Name(name)];
      var n := Configured(parent, spec, at, overrides).value;
      var inner := CollectItems(items, 0, n, spec, name, ctx, overrides).value;
      if Lists(inner, what) {
        path := OriginInItems(items, 0, n, spec, name, ctx, overrides, what);
      } else {
        path := [];
      }
  }

  lemma {:induction false} OriginInItems(
      items: seq<DataRecord>, k: nat, n: nat, spec: RepeatSpec, name: string, ctx: Ctx, overrides: Overrides,
      what: Item) returns (path: Path<string>)
    requires forall item | item in items :: Named(item.fields)
    requires CollectItems(items, k, n, spec, name, ctx, overrides).Some?
    requires Lists(CollectItems(items, k, n, spec, name, ctx, overrides).value, what)
    ensures path != [] && path[0].Index? && k <= path[0].index < n && path[0].index < |items|
    ensures var item, inner := items[path[0].index], ItemCtx(ctx, name, spec, path[0].index);
      var s := At(item.fields, item, inner, Planned(overrides), path[1..]);
      s.Some? && Explains(s.value, what, CountOf(CollectItems(items, k, n, spec, name, ctx, overrides).value, what),
        overrides)
    decreases items, 2, n - k
  {
    hide Own, Configured, ItemCtx;
    var rest := CollectItems(items, k + 1, n, spec, name, ctx, overrides).value;
    if Lists(rest, what) {
      path := OriginInItems(items, k + 1, n, spec, name, ctx, overrides, what);
    } else {
      path := Origin(items[k].fields, items[k], ItemCtx(ctx, name, spec, k), overrides, what);
      path := [Index(k)] + path;
    }
  }

  // ----- the plan, exactly -----

  ghost predicate BoundAt(data: DataRecord, overrides: Overrides, path: Path<string>, b: Binding) {
    var s := Reach(data, Planned(overrides), path);
    s.Some? && Own(s.value.field, s.value.ctx).Some? && b in Own(s.value.field, s.value.ctx).value
  }

  /** A plan holds the derived entities and the bindings of the fields that lie on live paths: those
      whose every index into a repeated section is below its count. */
  lemma BindingsExact(data: DataRecord, derived: seq<Spec>, overrides: Overrides, b: Binding)
    requires Named(data.fields) && BuildPlan(data, derived, overrides).Some?
    ensures b in BuildPlan(data, derived, overrides).value.entities <==>
      b in Derived(derived) || exists path :: BoundAt(data, overrides, path, b)
  {
    hide Own, At, CollectFields;
    var plan := BuildPlan(data, derived, overrides).value;
    var walk := CollectFields(data.fields, data, ROOT, overrides).value;
    if b in walk.entities {
      var path := Origin(data.fields, data, ROOT, overrides, Entity(b));
      assert BoundAt(data, overrides, path, b);
    }
    forall path | BoundAt(data, overrides, path, b) ensures b in walk.entities {
      Complete(data.fields, data, ROOT, overrides, path);
    }
  }

  /** A plan records a count for exactly the repeated sections on live paths; it is the clamped
      number of populated records, or the clamped override, and within the limit. */
  lemma CountsExact(data: DataRecord, derived: seq<Spec>, overrides: Overrides, path: Path<string>)
    requires Named(data.fields) && BuildPlan(data, derived, overrides).Some? && WellNamed(path)
    ensures var counts, s := BuildPlan(data, derived, overrides).value.counts, Reach(data, Planned(overrides), path);
      if s.Some? && s.value.field.value.Repeat? then
        && PathKey(path) in counts && counts[PathKey(path)] <= s.value.field.value.spec.count
        && Configured(s.value.parent, s.value.field.value.spec, path, overrides) == Some(counts[PathKey(path)])
      else PathKey(path) !in counts
  {
    hide Own, At, CollectFields, Configured, PathKey;
    var walk := CollectFields(data.fields, data, ROOT, overrides).value;
    var s := Reach(data, Planned(overrides), path);
    if s.Some? && s.value.field.value.Repeat? {
      Complete(data.fields, data, ROOT, overrides, path);
      AtIsNamed(data, Planned(overrides), path);
    }
    if PathKey(path) in walk.counts {
      var q := Origin(data.fields, data, ROOT, overrides, Count(PathKey(path)));
      AtIsNamed(data, Planned(overrides), q);
      PathKeyInjective(path, q);
    }
  }

  /** Every recorded count belongs to a section. */
  lemma CountsAreSections(
      data: DataRecord, derived: seq<Spec>, overrides: Overrides, k: string) returns (path: Path<string>)
    requires Named(data.fields) && BuildPlan(data, derived, overrides).Some?
    requires k in BuildPlan(data, derived, overrides).value.counts
    ensures WellNamed(path) && PathKey(path) == k
    ensures Reach(data, Planned(overrides), path).Some?
    ensures Reach(data, Planned(overrides), path).value.field.value.Repeat?
  {
    hide Own, At, CollectFields, Configured, PathKey;
    path := Origin(data.fields, data, ROOT, overrides, Count(k));
    AtIsNamed(data, Planned(overrides), path);
  }

  // ----- bindings resolve -----

  lemma {:induction false} ResolveJoin(v: DataValue, a: Path<string>, b: Path<string>)
    requires Resolve(v, a).Some?
    ensures Resolve(v, a + b) == Resolve(Resolve(v, a).value, b)
    decreases |a|
  {
    if a == [] {
      assert a + b == b;
    } else {
      assert (a + b)[1..] == a[1..] + b && (a + b)[0] == a[0];
      match (v, a[0])
      case (Nested(r), Name(n)) => ResolveJoin(FieldOf(r.fields, n).value.value, a[1..], b);
      case (Repeat(_, items), Index(i)) => ResolveJoin(Nested(items[i]), a[1..], b);
      case (Numbers(ns), Index(i)) => ResolveJoin(Scalar(ns[i]), a[1..], b);
    }
  }

  /** Following a path with `_resolve` gives the value of the field there. */
  lemma {:induction false} AtResolves(parent: DataRecord, ctx: Ctx, scope: Scope, path: Path<string>)
    requires At(parent.fields, parent, ctx, scope, path).Some?
    ensures Resolve(Nested(parent), path) == Some(At(parent.fields, parent, ctx, scope, path).value.field.value)
    decreases |path|
  {
    hide Covers, ItemCtx;
    var f := FieldOf(parent.fields, path[0].name).value;
    if |path| <= 1 {
    } else {
      var rest := path[1..];
      match f.value
      case Nested(body) => AtResolves(body, ctx.(path := ctx.path + [Name(f.name)]), scope, rest);
      case Repeat(spec, items) =>
        AtResolves(items[rest[0].index], ItemCtx(ctx, f.name, spec, rest[0].index), scope, rest[1..]);
    }
  }

  lemma {:induction false} IndexedPath(specs: seq<IndexedSpec>, v: DataValue, ctx: Ctx, name: string, b: Binding)
    requires Indexed(specs, v, ctx, name).Some? && b in Indexed(specs, v, ctx, name).value
    ensures exists i: nat :: b.path == Some(ctx.path + [Name(name), Index(i)]) && Length(v).Some? && i < Length(v).value
  {
    hide IndexedKey;
    var rest := Indexed(specs[1..], v, ctx, name).value;
    if b in rest {
      IndexedPath(specs[1..], v, ctx, name, b);
    } else {
      var i :| 0 <= i < specs[0].count && Expanded(specs[0], ctx, name)[i] == b;
      assert b.path == Some(ctx.path + [Name(name), Index(i)]);
    }
  }

  /** Every path binding of a plan resolves in the data it was planned from. */
  lemma BindingsResolve(data: DataRecord, derived: seq<Spec>, overrides: Overrides, b: Binding)
    requires Named(data.fields) && BuildPlan(data, derived, overrides).Some?
    requires b in BuildPlan(data, derived, overrides).value.entities && b.path.Some?
    ensures Resolve(Nested(data), b.path.value).Some?
  {
    hide At, CollectFields, Indexed, Simple;
    BindingsExact(data, derived, overrides, b);
    var path :| BoundAt(data, overrides, path, b);
    var s := Reach(data, Planned(overrides), path).value;
    AtResolves(data, ROOT, Planned(overrides), path);
    AtIsNamed(data, Planned(overrides), path);
    OwnPath(s.field, s.ctx, b);
    if b.path.value != path {
      var i: nat :| b.path.value == path + [Index(i)] && Resolve(s.field.value, [Index(i)]).Some?;
      ResolveJoin(Nested(data), path, [Index(i)]);
    }
  }

  lemma OwnPath(f: DataField, ctx: Ctx, b: Binding)
    requires Own(f, ctx).Some? && b in Own(f, ctx).value
    ensures b.path == Some(ctx.path + [Name(f.name)])
      || exists i: nat :: b.path == Some((ctx.path + [Name(f.name)]) + [Index(i)]) && Resolve(f.value, [Index(i)]).Some?
  {
    hide Indexed;
    if b !in Simple(f.specs, ctx, f.name) {
      IndexedPath(f.indexed, f.value, ctx, f.name, b);
      var i: nat :| b.path == Some(ctx.path + [Name(f.name), Index(i)]) && Length(f.value).Some? &&
        i < Length(f.value).value;
      assert (ctx.path + [Name(f.name)]) + [Index(i)] == ctx.path + [Name(f.name), Index(i)];
      var step: Path<string> := [Index(i)];
      assert step[1..] == [];
    }
  }

  // ----- devices -----

  /** Bindings lie on the device in force or on one of the plan's, and so do the parents of its
      child devices. */
  ghost predicate DevicesKnown(plan: Plan, device: string) {
    && (forall b | b in plan.entities :: b.device == device || b.device in plan.devices)
    && (forall k | k in plan.devices ::
          plan.devices[k].ChildDevice? && (plan.devices[k].parent == device || plan.devices[k].parent in plan.devices))
  }

  lemma DevicesInJoin(a: Plan, b: Plan, device: string)
    requires DevicesKnown(a, device) && DevicesKnown(b, device)
    ensures DevicesKnown(Join(Some(a), Some(b)).value, device)
  {
  }

  /** A child device that the plan itself adds may be in force below it. */
  lemma DevicesUnderChild(child: Plan, body: Plan, device: string, inner: string)
    requires DevicesKnown(child, device) && DevicesKnown(body, inner) && (inner == device || inner in child.devices)
    ensures DevicesKnown(Join(Some(child), Some(body)).value, device)
  {
  }

  lemma {:induction false} FieldsKnowDevices(fields: seq<DataField>, parent: DataRecord, ctx: Ctx, overrides: Overrides)
    requires CollectFields(fields, parent, ctx, overrides).Some?
    ensures DevicesKnown(CollectFields(fields, parent, ctx, overrides).value, ctx.device)
    decreases fields, 1, 0
  {
    hide DevicesKnown, Own, Configured, ItemCtx;
    NothingKnowsDevices(ctx.device);
    if fields == [] {
    } else {
      assert fields[0] in fields;
      var f := fields[0];
      var own, inner :=
        Plan(Own(f, ctx).value, map[], map[]), CollectValue(f.value, f.name, parent, ctx, overrides).value;
      OwnKnowsDevices(f, ctx);
      ValueKnowsDevices(f.value, f.name, parent, ctx, overrides);
      DevicesInJoin(own, inner, ctx.device);
      FieldsKnowDevices(fields[1..], parent, ctx, overrides);
      DevicesInJoin(CollectField(f, parent, ctx, overrides).value,
        CollectFields(fields[1..], parent, ctx, overrides).value, ctx.device);
    }
  }

  lemma NothingKnowsDevices(device: string)
    ensures DevicesKnown(NOTHING, device)
  {
  }

  lemma OwnKnowsDevices(f: DataField, ctx: Ctx)
    requires Own(f, ctx).Some?
    ensures DevicesKnown(Plan(Own(f, ctx).value, map[], map[]), ctx.device)
  {
    hide Own;
    forall b | b in Own(f, ctx).value ensures b.device == ctx.device {
      OwnDevice(f, ctx, b);
    }
  }

  lemma OwnDevice(f: DataField, ctx: Ctx, b: Binding)
    requires Own(f, ctx).Some? && b in Own(f, ctx).value
    ensures b.presence == ctx.presence && b.device == ctx.device
  {
    if b !in Simple(f.specs, ctx, f.name) {
      IndexedDevice(f.indexed, f.value, ctx, f.name, b);
    }
  }

  lemma {:induction false} IndexedDevice(specs: seq<IndexedSpec>, v: DataValue, ctx: Ctx, name: string, b: Binding)
    requires Indexed(specs, v, ctx, name).Some? && b in Indexed(specs, v, ctx, name).value
    ensures b.presence == ctx.presence && b.device == ctx.device
  {
    if b in Indexed(specs[1..], v, ctx, name).value {
      IndexedDevice(specs[1..], v, ctx, name, b);
    }
  }

  lemma {:induction false} ValueKnowsDevices(
      v: DataValue, name: string, parent: DataRecord, ctx: Ctx, overrides: Overrides)
    requires CollectValue(v, name, parent, ctx, overrides).Some?
    ensures DevicesKnown(CollectValue(v, name, parent, ctx, overrides).value, ctx.device)
    decreases v, 0, 0
  {
    hide DevicesKnown, Configured, PathKey;
    var path := ctx.path + [Name(name)];
    match v
    case Nested(body) => FieldsKnowDevices(body.fields, body, ctx.(path := path), overrides);
    case Repeat(spec, items) =>
      var n := Configured(parent, spec, path, overrides).value;
      ItemsKnowDevices(items, 0, n, spec, name, ctx, overrides);
      CountKnowsDevices(PathKey(path), n, ctx.device);
      DevicesInJoin(Plan([], map[PathKey(path) := n], map[]),
        CollectItems(items, 0, n, spec, name, ctx, overrides).value, ctx.device);
    case _ => NothingKnowsDevices(ctx.device);
  }

  lemma CountKnowsDevices(key: string, n: nat, device: string)
    ensures DevicesKnown(Plan([], map[key := n], map[]), device)
  {
  }

  lemma {:induction false} ItemsKnowDevices(
      items: seq<DataRecord>, k: nat, n: nat, spec: RepeatSpec, name: string, ctx: Ctx, overrides: Overrides)
    requires CollectItems(items, k, n, spec, name, ctx, overrides).Some?
    ensures DevicesKnown(CollectItems(items, k, n, spec, name, ctx, overrides).value, ctx.device)
    decreases items, 2, n - k
  {
    hide DevicesKnown, Join;
    NothingKnowsDevices(ctx.device);
    if n <= k {
    } else {
      var child := Plan([], map[], ChildOf(ctx, spec, k));
      var inner := ItemCtx(ctx, name, spec, k);
      JoinBoth(Some(child), CollectFields(items[k].fields, items[k], inner, overrides));
      JoinBoth(Join(Some(child), CollectFields(items[k].fields, items[k], inner, overrides)),
        CollectItems(items, k + 1, n, spec, name, ctx, overrides));
      var body := CollectFields(items[k].fields, items[k], inner, overrides).value;
      FieldsKnowDevices(items[k].fields, items[k], inner, overrides);
      ChildKnowsDevices(ctx, name, spec, k);
      DevicesUnderChild(child, body, ctx.device, inner.device);
      ItemsKnowDevices(items, k + 1, n, spec, name, ctx, overrides);
      DevicesInJoin(Join(Some(child), Some(body)).value,
        CollectItems(items, k + 1, n, spec, name, ctx, overrides).value, ctx.device);
    }
  }

  lemma JoinBoth(a: Option<Plan>, b: Option<Plan>)
    ensures Join(a, b).Some? <==> a.Some? && b.Some?
  {
  }

  lemma ChildKnowsDevices(ctx: Ctx, name: string, spec: RepeatSpec, k: nat)
    ensures DevicesKnown(Plan([], map[], ChildOf(ctx, spec, k)), ctx.device)
    ensures var inner := ItemCtx(ctx, name, spec, k).device; inner == ctx.device || inner in ChildOf(ctx, spec, k)
  {
  }

  /** Every binding of a plan lies on a device of the plan, and every child device has its parent in
      the plan. */
  lemma DevicesExist(data: DataRecord, derived: seq<Spec>, overrides: Overrides)
    requires BuildPlan(data, derived, overrides).Some?
    ensures var plan := BuildPlan(data, derived, overrides).value;
      && "main" in plan.devices
      && (forall b | b in plan.entities :: b.device in plan.devices)
      && (forall k | k in plan.devices && plan.devices[k].ChildDevice? :: plan.devices[k].parent in plan.devices)
  {
    hide CollectFields;
    FieldsKnowDevices(data.fields, data, ROOT, overrides);
  }
}
