/** What counts, bindings and keys of the planner are, case by case. */
module EntityLaws {
  import opened Wrappers
  import opened Paths
  import opened Text
  import opened PathKeys
  import opened EntityPlans
  import opened EntityPlanProofs
  import opened EntityManager

  // ----- counts -----

  /** The field found under a name is the first of that name. */
  lemma {:induction false} FieldOfFirst(fields: seq<DataField>, i: nat)
    requires i < |fields| && forall j | 0 <= j < i :: fields[j].name != fields[i].name
    ensures FieldOf(fields, fields[i].name) == Some(fields[i])
  {
    if i == 0 {
    } else {
      assert fields[0].name != fields[i].name;
      FieldOfFirst(fields[1..], i - 1);
    }
  }

  lemma {:induction false} FieldOfMissing(fields: seq<DataField>, name: string)
    ensures FieldOf(fields, name).None? <==> forall i | 0 <= i < |fields| :: fields[i].name != name
  {
    if fields == [] {
    } else {
      FieldOfMissing(fields[1..], name);
    }
  }

  /** What well-named data is: every name is an identifier, no two fields of a record share one, and the
      same holds of every record inside. */
  lemma {:induction false} NamedExactly(fields: seq<DataField>)
    ensures Named(fields) <==>
      && (forall i | 0 <= i < |fields| :: Identifier(fields[i].name))
      && (forall i, j | 0 <= i < j < |fields| :: fields[i].name != fields[j].name)
      && (forall i | 0 <= i < |fields| && fields[i].value.Nested? :: Named(fields[i].value.body.fields))
      && (forall i, k | 0 <= i < |fields| && fields[i].value.Repeat? && 0 <= k < |fields[i].value.items| ::
            Named(fields[i].value.items[k].fields))
  {
    hide Identifier, FieldOf;
    if fields == [] {
    } else {
      var rest := fields[1..];
      NamedExactly(rest);
      FieldOfMissing(rest, fields[0].name);
      assert forall i | 0 < i < |fields| :: fields[i] == rest[i - 1];
    }
  }

  /** A section without an active count is full; one with it has the clamped number in that field. */
  lemma ActiveCount(parent: DataRecord, spec: RepeatSpec)
    ensures spec.active.None? ==> Active(parent, spec) == Some(spec.count)
    ensures spec.active.Some? ==>
      Active(parent, spec) ==
        match FieldOf(parent.fields, spec.active.value)
        case None => None
        case Some(f) => if f.value.Scalar? then Some(Clamp(f.value.number, spec.count)) else None
  {
  }

  /** An override replaces the count that was read, and is clamped too; without one it stands. */
  lemma ConfiguredCount(parent: DataRecord, spec: RepeatSpec, path: Path<string>, overrides: Overrides)
    ensures Active(parent, spec).None? ==> Configured(parent, spec, path, overrides).None?
    ensures Active(parent, spec).Some? ==>
      Configured(parent, spec, path, overrides) ==
        if PathKey(path) in overrides then Some(Clamp(Some(overrides[PathKey(path)]), spec.count))
        else Active(parent, spec)
  {
  }

  // ----- when planning succeeds -----

  /** A field has as many items as each of its indexed entities counts. */
  ghost predicate Enough(f: DataField) {
    forall spec | spec in f.indexed ::
      match f.value
      case Numbers(ns) => spec.count <= |ns|
      case Repeat(_, items) => spec.count <= |items|
      case _ => false
  }

  /** Every field that the plan covers has enough items, and every section it covers a readable count
      and the records that it is configured to have. */
  ghost predicate Plannable(fields: seq<DataField>, parent: DataRecord, path: Path<string>, overrides: Overrides)
    decreases fields, 1
  {
    forall f | f in fields :: Enough(f) && PlannableIn(f.value, parent, path + [Name(f.name)], overrides)
  }

  ghost predicate PlannableIn(v: DataValue, parent: DataRecord, path: Path<string>, overrides: Overrides)
    decreases v, 0
  {
    match v
    case Nested(body) => Plannable(body.fields, body, path, overrides)
    case Repeat(spec, items) =>
      var n := Configured(parent, spec, path, overrides);
      && n.Some? && n.value <= |items|
      && forall k | 0 <= k < n.value :: Plannable(items[k].fields, items[k], path + [Index(k)], overrides)
    case _ => true
  }

  /** Planning raises exactly on the data that cannot be planned so. */
  lemma PlanSucceedsIff(data: DataRecord, derived: seq<Spec>, overrides: Overrides)
    ensures BuildPlan(data, derived, overrides).Some? <==> Plannable(data.fields, data, [], overrides)
  {
    hide Plannable, CollectFields;
    FieldsSucceedIff(data.fields, data, ROOT, overrides);
  }

  lemma {:induction false} FieldsSucceedIff(
      fields: seq<DataField>, parent: DataRecord, ctx: Ctx, overrides: Overrides)
    ensures CollectFields(fields, parent, ctx, overrides).Some? <==> Plannable(fields, parent, ctx.path, overrides)
    decreases fields, 1
  {
    hide Enough, Own, PlannableIn, CollectValue;
    if fields == [] {
    } else {
      var f := fields[0];
      assert f in fields;
      OwnSucceedsIff(f, ctx);
      ValueSucceedsIff(f.value, f.name, parent, ctx, overrides);
      FieldsSucceedIff(fields[1..], parent, ctx, overrides);
      assert fields == [f] + fields[1..];
    }
  }

  lemma OwnSucceedsIff(f: DataField, ctx: Ctx)
    ensures Own(f, ctx).Some? <==> Enough(f)
  {
    hide Simple;
    IndexedSucceedsIff(f, f.indexed, ctx);
  }

  lemma {:induction false} IndexedSucceedsIff(f: DataField, specs: seq<IndexedSpec>, ctx: Ctx)
    ensures Indexed(specs, f.value, ctx, f.name).Some? <==> Enough(f.(indexed := specs))
  {
    hide Expanded;
    if specs == [] {
    } else {
      IndexedSucceedsIff(f, specs[1..], ctx);
      assert specs == [specs[0]] + specs[1..];
    }
  }

  lemma {:induction false} ValueSucceedsIff(
      v: DataValue, name: string, parent: DataRecord, ctx: Ctx, overrides: Overrides)
    ensures CollectValue(v, name, parent, ctx, overrides).Some? <==>
      PlannableIn(v, parent, ctx.path + [Name(name)], overrides)
    decreases v, 0
  {
    hide Plannable, CollectFields, Configured;
    match v
    case Nested(body) =>
      FieldsSucceedIff(body.fields, body, ctx.(path := ctx.path + [Name(name)]), overrides);
    case Repeat(spec, items) =>
      var n := Configured(parent, spec, ctx.path + [Name(name)], overrides);
      if n.Some? {
        ItemsSucceedIff(items, 0, n.value, spec, name, ctx, overrides);
      }
    case _ =>
  }

  /** The records from k to n - 1 exist and can be planned. */
  ghost predicate ItemsPlannable(items: seq<DataRecord>, k: nat, n: nat, path: Path<string>, overrides: Overrides) {
    && (k < n ==> n <= |items|)
    && forall i | k <= i < n && i < |items| :: Plannable(items[i].fields, items[i], path + [Index(i)], overrides)
  }

  lemma ItemsPlannableStep(items: seq<DataRecord>, k: nat, n: nat, path: Path<string>, overrides: Overrides)
    requires k < n && k < |items|
    ensures ItemsPlannable(items, k, n, path, overrides) <==>
      && Plannable(items[k].fields, items[k], path + [Index(k)], overrides)
      && ItemsPlannable(items, k + 1, n, path, overrides)
  {
    hide Plannable;
  }

  lemma ItemsPlannableEnd(items: seq<DataRecord>, k: nat, n: nat, path: Path<string>, overrides: Overrides)
    requires n <= k || |items| <= k
    ensures ItemsPlannable(items, k, n, path, overrides) <==> n <= k
  {
  }

  lemma {:induction false} ItemsSucceedIff(
      items: seq<DataRecord>, k: nat, n: nat, spec: RepeatSpec, name: string, ctx: Ctx, overrides: Overrides)
    ensures CollectItems(items, k, n, spec, name, ctx, overrides).Some? <==>
      ItemsPlannable(items, k, n, ctx.path + [Name(name)], overrides)
    decreases items, 2, n - k
  {
    hide Plannable, CollectFields, ChildOf, ItemsPlannable;
    var path := ctx.path + [Name(name)];
    if n <= k || |items| <= k {
      ItemsPlannableEnd(items, k, n, path, overrides);
    } else {
      assert ItemCtx(ctx, name, spec, k).path == path + [Index(k)];
      hide ItemCtx;
      FieldsSucceedIff(items[k].fields, items[k], ItemCtx(ctx, name, spec, k), overrides);
      ItemsSucceedIff(items, k + 1, n, spec, name, ctx, overrides);
      ItemsPlannableStep(items, k, n, path, overrides);
    }
  }

  // ----- bindings -----

  /** The binding of one entity of a field. */
  ghost predicate IsSimple(f: DataField, ctx: Ctx, spec: Spec, b: Binding) {
    && b.platform == spec.platform && b.key == spec.key && b.device == ctx.device && b.presence == ctx.presence
    && b.path == Some(ctx.path + [Name(f.name)]) && b.repeatedKey == ctx.prefix
  }

  /** The binding of one item of an indexed field. */
  ghost predicate IsIndexed(f: DataField, ctx: Ctx, spec: IndexedSpec, i: nat, b: Binding) {
    && b.platform == spec.platform && b.key == spec.key(i) && b.device == ctx.device && b.presence == ctx.presence
    && b.path == Some(ctx.path + [Name(f.name), Index(i)])
    && b.repeatedKey == Some(
         (if ctx.prefix.Some? then ctx.prefix.value else PathKey(ctx.path + [Name(f.name)])) + "_" + Decimal(i))
  }

  /** A field has a binding for each of its entities and for each index of its indexed entities, and
      no other; planning raises exactly if the field has fewer items than an indexed entity counts. */
  lemma OwnExact(f: DataField, ctx: Ctx, b: Binding)
    ensures Own(f, ctx).Some? <==>
            forall spec | spec in f.indexed :: Length(f.value).Some? && spec.count <= Length(f.value).value
    ensures Own(f, ctx).Some? ==>
      (b in Own(f, ctx).value <==>
        || (exists spec :: spec in f.specs && IsSimple(f, ctx, spec, b))
        || (exists spec, i: nat :: spec in f.indexed && i < spec.count && IsIndexed(f, ctx, spec, i, b)))
  {
    hide Simple, Indexed;
    IndexedExact(f, f.indexed, ctx, b);
    SimpleExact(f, f.specs, ctx, b);
  }

  lemma SimpleExact(f: DataField, specs: seq<Spec>, ctx: Ctx, b: Binding)
    ensures b in Simple(specs, ctx, f.name) <==> exists spec :: spec in specs && IsSimple(f, ctx, spec, b)
  {
    var bs := Simple(specs, ctx, f.name);
    if b in bs {
      var i :| 0 <= i < |bs| && bs[i] == b;
      assert IsSimple(f, ctx, specs[i], b);
    }
    forall spec | spec in specs && IsSimple(f, ctx, spec, b) ensures b in bs {
      var i :| 0 <= i < |specs| && specs[i] == spec;
      assert bs[i] == b;
    }
  }

  lemma {:induction false} IndexedExact(f: DataField, specs: seq<IndexedSpec>, ctx: Ctx, b: Binding)
    ensures Indexed(specs, f.value, ctx, f.name).Some? <==>
      forall spec | spec in specs :: Length(f.value).Some? && spec.count <= Length(f.value).value
    ensures Indexed(specs, f.value, ctx, f.name).Some? ==>
      (b in Indexed(specs, f.value, ctx, f.name).value <==>
        exists spec, i: nat :: spec in specs && i < spec.count && IsIndexed(f, ctx, spec, i, b))
  {
    hide Expanded, IsIndexed;
    if specs == [] {
    } else {
      IndexedExact(f, specs[1..], ctx, b);
      ExpandedExact(f, specs[0], ctx, b);
      assert specs == [specs[0]] + specs[1..];
    }
  }

  lemma ExpandedExact(f: DataField, spec: IndexedSpec, ctx: Ctx, b: Binding)
    ensures b in Expanded(spec, ctx, f.name) <==> exists i: nat :: i < spec.count && IsIndexed(f, ctx, spec, i, b)
  {
    var bs := Expanded(spec, ctx, f.name);
    if b in bs {
      var i :| 0 <= i < |bs| && bs[i] == b;
      assert IsIndexed(f, ctx, spec, i, b);
    }
    forall i: nat | i < spec.count && IsIndexed(f, ctx, spec, i, b) ensures b in bs {
      assert bs[i] == b;
    }
  }

  /** The derived entities lie on the main device and have no path. */
  lemma DerivedExact(derived: seq<Spec>, b: Binding)
    ensures b in Derived(derived) <==>
      exists spec :: spec in derived && b == Binding(spec.platform, spec.key, "main", None, None, None)
  {
    var bs := Derived(derived);
    if b in bs {
      var i :| 0 <= i < |bs| && bs[i] == b;
      assert derived[i] in derived && b == Binding(derived[i].platform, derived[i].key, "main", None, None, None);
    }
    forall spec | spec in derived && b == Binding(spec.platform, spec.key, "main", None, None, None) ensures b in bs {
      var i :| 0 <= i < |derived| && derived[i] == spec;
      assert bs[i] == b;
    }
  }

  // ----- unique keys -----

  /** An entity of a field has its own key on the main device, the key of the record before it in a
      repeated record, and the device before it on a child device. */
  lemma KeyOfField(f: DataField, ctx: Ctx, spec: Spec, b: Binding)
    requires IsSimple(f, ctx, spec, b)
    ensures LiveKey(b) ==
      if ctx.device != "main" then ctx.device + "_" + spec.key
      else if ctx.prefix.Some? then ctx.prefix.value + "_" + spec.key
      else spec.key
  {
    var path := b.path.value;
    assert path[|path| - 1] == Name(f.name);
  }

  /** An item of an indexed field outside the repeated records keeps its own key on the main device. */
  lemma KeyOfItem(f: DataField, ctx: Ctx, spec: IndexedSpec, i: nat, b: Binding)
    requires IsIndexed(f, ctx, spec, i, b)
    ensures ctx.device == "main" && ctx.prefix.None? ==> LiveKey(b) == spec.key(i)
    ensures ctx.device == "main" && ctx.prefix.Some? && ctx.prefix.value != PathKey(ctx.path + [Name(f.name)]) ==>
      LiveKey(b) == ctx.prefix.value + "_" + Decimal(i) + "_" + spec.key(i)
    ensures ctx.device != "main" ==> LiveKey(b) == ctx.device + "_" + spec.key(i)
  {
    var path := b.path.value;
    assert path[|path| - 1] == Index(i);
    assert path[..|path| - 1] == ctx.path + [Name(f.name)];
    if ctx.prefix.Some? && ctx.prefix.value != PathKey(ctx.path + [Name(f.name)]) {
      SameTail(ctx.prefix.value, PathKey(ctx.path + [Name(f.name)]), "_" + Decimal(i));
      assert ctx.prefix.value + "_" + Decimal(i) == ctx.prefix.value + ("_" + Decimal(i));
      var key := PathKey(ctx.path + [Name(f.name)]);
      assert key + "_" + Decimal(i) == key + ("_" + Decimal(i));
    }
  }

  lemma SameTail(a: string, b: string, t: string)
    ensures a + t == b + t ==> a == b
  {
    assert (a + t)[..|a|] == a && (b + t)[..|b|] == b;
    assert |a + t| == |a| + |t| && |b + t| == |b| + |t|;
  }
}
