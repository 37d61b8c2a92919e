/** The walk of `Schema` refines its reference: exactness, atomicity, bounds. */
module SchemaProofs {
  import opened Wrappers
  import opened Paths
  import opened Bytes
  import opened Schema

  /** The value the updates carry for a path. */
  function Lookup<N(==), V>(us: seq<Update<N, V>>, path: Path<N>): Option<V> {
    if us == [] then None else if us[0].path == path then Some(us[0].value) else Lookup(us[1..], path)
  }

  lemma {:induction false} LookupJoin<N, V>(a: seq<Update<N, V>>, b: seq<Update<N, V>>, path: Path<N>)
    ensures Lookup(a + b, path) == if Lookup(a, path).Some? then Lookup(a, path) else Lookup(b, path)
  {
    if a == [] {
      assert a + b == b;
    } else {
      assert (a + b)[1..] == a[1..] + b;
      LookupJoin(a[1..], b, path);
    }
  }

  lemma {:induction false} LookupMissing<N, V>(us: seq<Update<N, V>>, path: Path<N>)
    ensures Lookup(us, path).None? <==> forall u | u in us :: u.path != path
  {
    if us == [] {
    } else {
      LookupMissing(us[1..], path);
      assert us == [us[0]] + us[1..];
    }
  }

  // ----- bounds -----

  /** Guarded reads are in bounds: the walk never meets the length error of `parse_from`; only a
      converter or a wrong number of items can stop it. */
  lemma {:induction false} FieldsInBounds<N, V>(
      payload: seq<byte>, p: Packet, fields: seq<Field<N, V>>, base: nat, path: Path<N>)
    ensures var r := IterFields(payload, p, fields, base, path);
            r.Failure? ==> r.error == ConverterFailed || r.error == WrongItemCount
    decreases fields, 1
  {
    if fields == [] {
    } else {
      var Field(name, node) := fields[0];
      assert node < fields[0] && fields[0] in fields;
      NodeInBounds(payload, p, node, base, path + [Name(name)]);
      FieldsInBounds(payload, p, fields[1..], base, path);
    }
  }

  lemma {:induction false} NodeInBounds<N, V>(payload: seq<byte>, p: Packet, node: Node<N, V>, base: nat, path: Path<N>)
    ensures var r := IterNode(payload, p, node, base, path);
            r.Failure? ==> r.error == ConverterFailed || r.error == WrongItemCount
    decreases node, 0
  {
    match node
    case Leaf(_, _) =>
    case Plain(_) =>
    case Section(at, body) =>
      FieldsInBounds(payload, p, body.fields, base + (if at.Some? && p in at.value then at.value[p] else 0), path);
    case Repeated(_, strides, items) =>
      if p in strides {
        ItemsInBounds(payload, p, items, 0, base + strides[p].offset, strides[p].stride, path);
      }
  }

  lemma {:induction false} ItemsInBounds<N, V>(
      payload: seq<byte>, p: Packet, items: seq<Record<N, V>>, k: nat, base: nat, stride: nat, path: Path<N>)
    ensures var r := IterItems(payload, p, items, k, base, stride, path);
            r.Failure? ==> r.error == ConverterFailed || r.error == WrongItemCount
    decreases items, 2
  {
    if items == [] {
    } else {
      FieldsInBounds(payload, p, items[0].fields, base, path + [Index(k)]);
      ItemsInBounds(payload, p, items[1..], k + 1, base + stride, stride, path);
    }
  }

  // ----- where the yielded paths lie -----

  lemma {:induction false} FieldsPaths<N, V>(
      payload: seq<byte>, p: Packet, fields: seq<Field<N, V>>, base: nat, path: Path<N>)
    requires IterFields(payload, p, fields, base, path).Success?
    ensures forall u | u in IterFields(payload, p, fields, base, path).value ::
              path < u.path && u.path[|path|].Name? && FindField(fields, u.path[|path|].name).Some?
    decreases fields, 1
  {
    if fields == [] {
    } else {
      var Field(name, node) := fields[0];
      assert node < fields[0] && fields[0] in fields;
      NodePaths(payload, p, node, base, path + [Name(name)]);
      FieldsPaths(payload, p, fields[1..], base, path);
    }
  }

  lemma {:induction false} NodePaths<N, V>(payload: seq<byte>, p: Packet, node: Node<N, V>, base: nat, path: Path<N>)
    requires IterNode(payload, p, node, base, path).Success?
    ensures forall u | u in IterNode(payload, p, node, base, path).value :: path <= u.path
    decreases node, 0
  {
    match node
    case Leaf(_, _) =>
    case Plain(_) =>
    case Section(at, body) =>
      if at.None? || p in at.value {
        FieldsPaths(payload, p, body.fields, base + (if at.Some? then at.value[p] else 0), path);
      }
    case Repeated(count, strides, items) =>
      if p in strides && |items| == count {
        ItemsPaths(payload, p, items, 0, base + strides[p].offset, strides[p].stride, path);
      }
  }

  lemma {:induction false} ItemsPaths<N, V>(
      payload: seq<byte>, p: Packet, items: seq<Record<N, V>>, k: nat, base: nat, stride: nat, path: Path<N>)
    requires IterItems(payload, p, items, k, base, stride, path).Success?
    ensures forall u | u in IterItems(payload, p, items, k, base, stride, path).value ::
              path < u.path && u.path[|path|].Index? && k <= u.path[|path|].index < k + |items|
    decreases items, 2
  {
    if items == [] {
    } else {
      FieldsPaths(payload, p, items[0].fields, base, path + [Index(k)]);
      ItemsPaths(payload, p, items[1..], k + 1, base + stride, stride, path);
    }
  }

  // ----- exactness -----

  lemma {:induction false} FieldsExact<N, V>(
      payload: seq<byte>, p: Packet, fields: seq<Field<N, V>>, base: nat, path: Path<N>, rel: Path<N>)
    requires WellShaped(fields) && IterFields(payload, p, fields, base, path).Success?
    ensures var slot := Locate(fields, p, rel, base);
            && Lookup(IterFields(payload, p, fields, base, path).value, path + rel) == Supplied(slot, payload)
            && (Gated(slot, payload) ==> Supplied(slot, payload).Some?)
    decreases fields, 1
  {
    if fields == [] {
    } else {
      var Field(name, node) := fields[0];
      assert node < fields[0] && fields[0] in fields;
      var here := path + [Name(name)];
      var a, b := IterNode(payload, p, node, base, here).value, IterFields(payload, p, fields[1..], base, path).value;
      LookupJoin(a, b, path + rel);
      FieldsExact(payload, p, fields[1..], base, path, rel);
      NodePaths(payload, p, node, base, here);
      LookupMissing(a, path + rel);
      if rel != [] && rel[0] == Name(name) {
        assert path + rel == here + rel[1..];
        NodeExact(payload, p, node, base, here, rel[1..]);
      } else {
        forall u | u in a ensures u.path != path + rel {
          assert here[|path|] == u.path[|path|];
        }
      }
    }
  }

  lemma LeafExact<N, V>(payload: seq<byte>, p: Packet, leaf: Node<N, V>, base: nat, path: Path<N>, rel: Path<N>)
    requires leaf.Leaf? && IterNode(payload, p, leaf, base, path).Success?
    ensures var slot := LocateNode(leaf, p, rel, base);
            && Lookup(IterNode(payload, p, leaf, base, path).value, path + rel) == Supplied(slot, payload)
            && (Gated(slot, payload) ==> Supplied(slot, payload).Some?)
  {
    assert (path + rel == path) <==> (rel == []);
  }

  lemma {:induction false} NodeExact<N, V>(
      payload: seq<byte>, p: Packet, node: Node<N, V>, base: nat, path: Path<N>, rel: Path<N>)
    requires WellShapedIn(node) && IterNode(payload, p, node, base, path).Success?
    ensures var slot := LocateNode(node, p, rel, base);
            && Lookup(IterNode(payload, p, node, base, path).value, path + rel) == Supplied(slot, payload)
            && (Gated(slot, payload) ==> Supplied(slot, payload).Some?)
    decreases node, 0
  {
    NothingSupplied<V>(payload);
    hide Supplied, Gated;
    match node
    case Leaf(_, _) => LeafExact(payload, p, node, base, path, rel);
    case Plain(_) =>
    case Section(at, body) =>
      if at.None? || p in at.value {
        FieldsExact(payload, p, body.fields, base + (if at.Some? then at.value[p] else 0), path, rel);
      }
    case Repeated(count, strides, items) =>
      LocateRepeated(node, p, rel, base);
      hide Locate, LocateNode, LocateItem, IterItems;
      if p in strides {
        ItemsExact(payload, p, items, 0, base + strides[p].offset, strides[p].stride, path, rel);
      }
  }

  lemma LocateRepeated<N, V>(node: Node<N, V>, p: Packet, rel: Path<N>, base: nat)
    requires node.Repeated?
    ensures LocateNode(node, p, rel, base) ==
      if p in node.strides
      then LocateItem(node.items, 0, p, rel, base + node.strides[p].offset, node.strides[p].stride) else None
  {
  }

  lemma {:induction false} ItemsExact<N, V>(
      payload: seq<byte>, p: Packet, items: seq<Record<N, V>>, k: nat, base: nat, stride: nat, path: Path<N>,
      rel: Path<N>)
    requires WellShapedItems(items) && IterItems(payload, p, items, k, base, stride, path).Success?
    ensures var slot := LocateItem(items, k, p, rel, base, stride);
            && Lookup(IterItems(payload, p, items, k, base, stride, path).value, path + rel) == Supplied(slot, payload)
            && (Gated(slot, payload) ==> Supplied(slot, payload).Some?)
    decreases items, 2
  {
    hide Supplied, Gated;
    hide Locate, LocateItem, IterFields;
    NothingSupplied<V>(payload);
    if items == [] {
      LocateItemEnds(items, k, p, rel, base, stride);
    } else {
      var here := path + [Index(k)];
      var a, b := IterFields(payload, p, items[0].fields, base, here).value,
                  IterItems(payload, p, items[1..], k + 1, base + stride, stride, path).value;
      LookupJoin(a, b, path + rel);
      ItemsExact(payload, p, items[1..], k + 1, base + stride, stride, path, rel);
      FieldsPaths(payload, p, items[0].fields, base, here);
      LookupMissing(a, path + rel);
      if rel != [] && rel[0] == Index(k) {
        assert path + rel == here + rel[1..];
        FieldsExact(payload, p, items[0].fields, base, here, rel[1..]);
        LocateItemEnds(items, k, p, rel, base, stride);
        LocateItemEnds(items[1..], k + 1, p, rel, base + stride, stride);
      } else {
        forall u | u in a ensures u.path != path + rel {
          assert here[|path|] == u.path[|path|];
        }
        LocateItemTail(items, k, p, rel, base, stride);
      }
    }
  }

  lemma NothingSupplied<V>(payload: seq<byte>)
    ensures Supplied<V>(None, payload) == None && !Gated<V>(None, payload)
  {
  }

  /** `Locate` below an item of a repeated section whose first remaining item has number k. */
  function LocateItem<N(==), V>(
      items: seq<Record<N, V>>, k: nat, p: Packet, rel: Path<N>, base: nat, stride: nat): Option<Slot<V>> {
    if rel == [] || rel[0].Name? || rel[0].index < k || k + |items| <= rel[0].index then None
    else Locate(items[rel[0].index - k].fields, p, rel[1..], base + (rel[0].index - k) * stride)
  }

  lemma LocateItemEnds<N, V>(items: seq<Record<N, V>>, k: nat, p: Packet, rel: Path<N>, base: nat, stride: nat)
    ensures items == [] ==> LocateItem(items, k, p, rel, base, stride).None?
    ensures rel != [] && rel[0].Index? && rel[0].index < k ==> LocateItem(items, k, p, rel, base, stride).None?
    ensures items != [] && rel != [] && rel[0] == Index(k) ==>
      LocateItem(items, k, p, rel, base, stride) == Locate(items[0].fields, p, rel[1..], base)
  {
  }

  lemma LocateItemTail<N, V>(items: seq<Record<N, V>>, k: nat, p: Packet, rel: Path<N>, base: nat, stride: nat)
    requires items != [] && (rel == [] || rel[0] != Index(k))
    ensures LocateItem(items, k, p, rel, base, stride) == LocateItem(items[1..], k + 1, p, rel, base + stride, stride)
  {
    if rel != [] && rel[0].Index? && k < rel[0].index < k + |items| {
      var j := rel[0].index - k;
      assert base + j * stride == base + stride + (j - 1) * stride;
    }
  }

  // ----- no path twice -----

  ghost predicate DistinctPaths<N, V>(us: seq<Update<N, V>>) {
    forall i, j | 0 <= i < j < |us| :: us[i].path != us[j].path
  }

  lemma DistinctJoin<N, V>(a: seq<Update<N, V>>, b: seq<Update<N, V>>)
    requires DistinctPaths(a) && DistinctPaths(b)
    requires forall u, w | u in a && w in b :: u.path != w.path
    ensures DistinctPaths(a + b)
  {
  }

  lemma {:induction false} FieldsDistinct<N, V>(
      payload: seq<byte>, p: Packet, fields: seq<Field<N, V>>, base: nat, path: Path<N>)
    requires WellShaped(fields) && IterFields(payload, p, fields, base, path).Success?
    ensures DistinctPaths(IterFields(payload, p, fields, base, path).value)
    decreases fields, 1
  {
    if fields == [] {
    } else {
      var Field(name, node) := fields[0];
      assert node < fields[0] && fields[0] in fields;
      var here := path + [Name(name)];
      var a, b := IterNode(payload, p, node, base, here).value, IterFields(payload, p, fields[1..], base, path).value;
      NodeDistinct(payload, p, node, base, here);
      FieldsDistinct(payload, p, fields[1..], base, path);
      NodePaths(payload, p, node, base, here);
      FieldsPaths(payload, p, fields[1..], base, path);
      forall u, w | u in a && w in b ensures u.path != w.path {
        assert here[|path|] == u.path[|path|];
      }
      DistinctJoin(a, b);
    }
  }

  lemma {:induction false} NodeDistinct<N, V>(payload: seq<byte>, p: Packet, node: Node<N, V>, base: nat, path: Path<N>)
    requires WellShapedIn(node) && IterNode(payload, p, node, base, path).Success?
    ensures DistinctPaths(IterNode(payload, p, node, base, path).value)
    decreases node, 0
  {
    match node
    case Leaf(_, _) =>
    case Plain(_) =>
    case Section(at, body) =>
      if at.None? || p in at.value {
        FieldsDistinct(payload, p, body.fields, base + (if at.Some? then at.value[p] else 0), path);
      }
    case Repeated(count, strides, items) =>
      if p in strides && |items| == count {
        ItemsDistinct(payload, p, items, 0, base + strides[p].offset, strides[p].stride, path);
      }
  }

  lemma {:induction false} ItemsDistinct<N, V>(
      payload: seq<byte>, p: Packet, items: seq<Record<N, V>>, k: nat, base: nat, stride: nat, path: Path<N>)
    requires WellShapedItems(items) && IterItems(payload, p, items, k, base, stride, path).Success?
    ensures DistinctPaths(IterItems(payload, p, items, k, base, stride, path).value)
    decreases items, 2
  {
    if items == [] {
    } else {
      var here := path + [Index(k)];
      var a, b := IterFields(payload, p, items[0].fields, base, here).value,
                  IterItems(payload, p, items[1..], k + 1, base + stride, stride, path).value;
      FieldsDistinct(payload, p, items[0].fields, base, here);
      ItemsDistinct(payload, p, items[1..], k + 1, base + stride, stride, path);
      FieldsPaths(payload, p, items[0].fields, base, here);
      ItemsPaths(payload, p, items[1..], k + 1, base + stride, stride, path);
      forall u, w | u in a && w in b ensures u.path != w.path {
        assert here[|path|] == u.path[|path|];
      }
      DistinctJoin(a, b);
    }
  }

  // ----- why a walk fails -----

  /** A failed walk over well-shaped data has a culprit: a leaf whose gates are passed and whose
      converter fails. */
  lemma {:induction false} FieldsCulprit<N, V>(
      payload: seq<byte>, p: Packet, fields: seq<Field<N, V>>, base: nat, path: Path<N>) returns (rel: Path<N>)
    requires WellShaped(fields) && IterFields(payload, p, fields, base, path).Failure?
    ensures var slot := Locate(fields, p, rel, base); Gated(slot, payload) && Supplied(slot, payload).None?
    decreases fields, 1
  {
    var Field(name, node) := fields[0];
    assert node < fields[0] && fields[0] in fields;
    if IterNode(payload, p, node, base, path + [Name(name)]).Failure? {
      var below := NodeCulprit(payload, p, node, base, path + [Name(name)]);
      rel := [Name(name)] + below;
      assert rel[1..] == below;
    } else {
      rel := FieldsCulprit(payload, p, fields[1..], base, path);
    }
  }

  lemma {:induction false} NodeCulprit<N, V>(
      payload: seq<byte>, p: Packet, node: Node<N, V>, base: nat, path: Path<N>) returns (rel: Path<N>)
    requires WellShapedIn(node) && IterNode(payload, p, node, base, path).Failure?
    ensures var slot := LocateNode(node, p, rel, base); Gated(slot, payload) && Supplied(slot, payload).None?
    decreases node, 0
  {
    match node
    case Leaf(_, _) => rel := [];
    case Plain(_) =>
    case Section(at, body) =>
      rel := FieldsCulprit(payload, p, body.fields, base + (if at.Some? then at.value[p] else 0), path);
    case Repeated(count, strides, items) =>
      rel := ItemsCulprit(payload, p, items, 0, base + strides[p].offset, strides[p].stride, path);
  }

  lemma {:induction false} ItemsCulprit<N, V>(
      payload: seq<byte>, p: Packet, items: seq<Record<N, V>>, k: nat, base: nat, stride: nat, path: Path<N>)
      returns (rel: Path<N>)
    requires WellShapedItems(items) && IterItems(payload, p, items, k, base, stride, path).Failure?
    ensures var slot := LocateItem(items, k, p, rel, base, stride);
      Gated(slot, payload) && Supplied(slot, payload).None?
    decreases items, 2
  {
    if IterFields(payload, p, items[0].fields, base, path + [Index(k)]).Failure? {
      var below := FieldsCulprit(payload, p, items[0].fields, base, path + [Index(k)]);
      rel := [Index(k)] + below;
      assert rel[1..] == below;
    } else {
      rel := ItemsCulprit(payload, p, items[1..], k + 1, base + stride, stride, path);
      NothingSupplied<V>(payload);
      LocateItemTail(items, k, p, rel, base, stride);
    }
  }

  /** When a packet is refused: for data of the declared shape, exactly when its length is wrong or
      some leaf that declares it and passes its gates has a converter that fails. */
  lemma RefusedIff<N, V>(payload: seq<byte>, p: Packet, root: seq<Field<N, V>>)
    requires WellShaped(root)
    ensures IterFields(payload, p, root, 0, []).Failure? <==>
      exists path :: Gated(Locate(root, p, path, 0), payload) && Supplied(Locate(root, p, path, 0), payload).None?
  {
    hide Gated, Supplied;
    if IterFields(payload, p, root, 0, []).Failure? {
      var path := FieldsCulprit(payload, p, root, 0, []);
    } else {
      forall path ensures Gated(Locate(root, p, path, 0), payload) ==>
        Supplied(Locate(root, p, path, 0), payload).Some? {
        FieldsExact(payload, p, root, 0, [], path);
      }
    }
  }

  // ----- assigning one field -----

  lemma {:induction false} FindFieldKeeps<N, V>(fields: seq<Field<N, V>>, i: nat, node: Node<N, V>, n: N)
    requires i < |fields|
    ensures FindField(fields[i := fields[i].(node := node)], n) == FindField(fields, n)
  {
    var changed := fields[i := fields[i].(node := node)];
    if i > 0 {
      assert changed[1..] == fields[1..][i - 1 := fields[1..][i - 1].(node := node)];
      FindFieldKeeps(fields[1..], i - 1, node, n);
    } else {
      assert changed[1..] == fields[1..];
    }
  }

  /** Assigning a field changes what is read at its path and at no other path, and it changes no
      source and no offset. */
  lemma {:induction false} SetThenRead<N, V>(
      fields: seq<Field<N, V>>, path: Path<N>, v: V, q: Path<N>, p: Packet, base: nat)
    requires ValueAt(fields, path).Some?
    ensures ValueAt(SetAt(fields, path, v), q) == if q == path then Some(v) else ValueAt(fields, q)
    ensures Locate(SetAt(fields, path, v), p, q, base) == Locate(fields, p, q, base)
    decreases |path|, 1
  {
    var i := FindField(fields, path[0].name).value;
    var node := SetIn(fields[i].node, path[1..], v);
    if q != [] && q[0].Name? {
      FindFieldKeeps(fields, i, node, q[0].name);
      if FindField(fields, q[0].name) == Some(i) {
        SetThenReadIn(fields[i].node, path[1..], v, q[1..], p, base);
        assert q == path <==> q[1..] == path[1..] by {
          assert q == [q[0]] + q[1..] && path == [path[0]] + path[1..];
        }
      }
    }
  }

  lemma {:induction false} SetThenReadIn<N, V>(node: Node<N, V>, path: Path<N>, v: V, q: Path<N>, p: Packet, base: nat)
    requires ValueIn(node, path).Some?
    ensures ValueIn(SetIn(node, path, v), q) == if q == path then Some(v) else ValueIn(node, q)
    ensures LocateNode(SetIn(node, path, v), p, q, base) == LocateNode(node, p, q, base)
    decreases |path|, 2
  {
    hide SetAt, ValueAt, Locate;
    match node
    case Leaf(_, _) =>
    case Plain(_) =>
    case Section(at, body) =>
      SetThenRead(body.fields, path, v, q, p, base + (if at.Some? && p in at.value then at.value[p] else 0));
    case Repeated(_, strides, items) =>
      var k := path[0].index;
      if q != [] && q[0] == path[0] {
        SetThenRead(items[k].fields, path[1..], v, q[1..], p,
                    if p in strides then base + strides[p].offset + k * strides[p].stride else 0);
        assert q == [q[0]] + q[1..] && path == [path[0]] + path[1..];
      }
  }

  /** Assigning at a path that leads to no field changes nothing. */
  lemma {:induction false} SetNowhere<N, V>(fields: seq<Field<N, V>>, path: Path<N>, v: V)
    requires ValueAt(fields, path).None?
    ensures SetAt(fields, path, v) == fields
    decreases |path|, 1
  {
    if path != [] && path[0].Name? && FindField(fields, path[0].name).Some? {
      var i := FindField(fields, path[0].name).value;
      SetNowhereIn(fields[i].node, path[1..], v);
      assert fields[i := fields[i]] == fields;
    }
  }

  lemma {:induction false} SetNowhereIn<N, V>(node: Node<N, V>, path: Path<N>, v: V)
    requires ValueIn(node, path).None?
    ensures SetIn(node, path, v) == node
    decreases |path|, 2
  {
    match node
    case Leaf(_, _) =>
    case Plain(_) =>
    case Section(_, body) =>
      SetNowhere(body.fields, path, v);
    case Repeated(_, _, items) =>
      if path != [] && path[0].Index? && path[0].index < |items| {
        var k := path[0].index;
        SetNowhere(items[k].fields, path[1..], v);
        assert items[k := items[k]] == items;
      }
  }

  /** A located leaf has a value. */
  lemma {:induction false} LocatedHasValue<N, V>(fields: seq<Field<N, V>>, p: Packet, path: Path<N>, base: nat)
    requires Locate(fields, p, path, base).Some?
    ensures ValueAt(fields, path).Some?
    decreases |path|, 1
  {
    var i := FindField(fields, path[0].name).value;
    LocatedHasValueIn(fields[i].node, p, path[1..], base);
  }

  lemma {:induction false} LocatedHasValueIn<N, V>(node: Node<N, V>, p: Packet, path: Path<N>, base: nat)
    requires LocateNode(node, p, path, base).Some?
    ensures ValueIn(node, path).Some?
    decreases |path|, 2
  {
    match node
    case Leaf(_, _) =>
    case Section(at, body) =>
      LocatedHasValue(body.fields, p, path, base + (if at.Some? then at.value[p] else 0));
    case Repeated(_, strides, items) =>
      LocatedHasValue(items[path[0].index].fields, p, path[1..],
        base + strides[p].offset + path[0].index * strides[p].stride);
  }

  lemma {:induction false} ApplyAllReads<N, V>(fields: seq<Field<N, V>>, us: seq<Update<N, V>>, q: Path<N>, p: Packet)
    requires DistinctPaths(us) && forall u | u in us :: ValueAt(fields, u.path).Some?
    ensures ValueAt(ApplyAll(fields, us), q) == if Lookup(us, q).Some? then Lookup(us, q) else ValueAt(fields, q)
    ensures Locate(ApplyAll(fields, us), p, q, 0) == Locate(fields, p, q, 0)
    decreases |us|
  {
    if us == [] {
    } else {
      var Update(path, v) := us[0];
      var next := SetAt(fields, path, v);
      SetThenRead(fields, path, v, q, p, 0);
      forall u | u in us[1..] ensures ValueAt(next, u.path).Some? {
        SetThenRead(fields, path, v, u.path, p, 0);
      }
      ApplyAllReads(next, us[1..], q, p);
      if q == path {
        LookupMissing(us[1..], q);
      }
    }
  }

  // ----- shape -----

  lemma {:induction false} ReplaceNode<N, V>(fields: seq<Field<N, V>>, i: nat, node: Node<N, V>)
    requires i < |fields| && WellShaped(fields) && WellShapedIn(node)
    ensures WellShaped(fields[i := fields[i].(node := node)])
    ensures WellShapedIn(fields[i].node)
  {
    var changed := fields[i := fields[i].(node := node)];
    if i == 0 {
      assert changed[1..] == fields[1..];
    } else {
      assert changed[1..] == fields[1..][i - 1 := fields[1..][i - 1].(node := node)];
      ReplaceNode(fields[1..], i - 1, node);
      FindFieldKeeps(fields[1..], i - 1, node, fields[0].name);
    }
  }

  lemma {:induction false} FieldShape<N, V>(fields: seq<Field<N, V>>, i: nat)
    requires i < |fields| && WellShaped(fields)
    ensures WellShapedIn(fields[i].node)
  {
    if i == 0 {
    } else {
      FieldShape(fields[1..], i - 1);
    }
  }

  lemma {:induction false} ItemShape<N, V>(items: seq<Record<N, V>>, k: nat)
    requires k < |items| && WellShapedItems(items)
    ensures WellShaped(items[k].fields)
  {
    if k == 0 {
    } else {
      ItemShape(items[1..], k - 1);
    }
  }

  lemma {:induction false} ReplaceItem<N, V>(items: seq<Record<N, V>>, k: nat, item: Record<N, V>)
    requires k < |items| && WellShapedItems(items) && WellShaped(item.fields)
    ensures WellShapedItems(items[k := item])
  {
    if k == 0 {
      assert items[k := item][1..] == items[1..];
    } else {
      assert items[k := item][1..] == items[1..][k - 1 := item];
      ReplaceItem(items[1..], k - 1, item);
    }
  }

  /** Assigning a value keeps the shape of the data. */
  lemma {:induction false} SetKeepsShape<N, V>(fields: seq<Field<N, V>>, path: Path<N>, v: V)
    requires WellShaped(fields)
    ensures WellShaped(SetAt(fields, path, v))
    decreases |path|, 1
  {
    if path != [] && path[0].Name? && FindField(fields, path[0].name).Some? {
      var i := FindField(fields, path[0].name).value;
      FieldShape(fields, i);
      SetKeepsShapeIn(fields[i].node, path[1..], v);
      ReplaceNode(fields, i, SetIn(fields[i].node, path[1..], v));
    }
  }

  lemma {:induction false} SetKeepsShapeIn<N, V>(node: Node<N, V>, path: Path<N>, v: V)
    requires WellShapedIn(node)
    ensures WellShapedIn(SetIn(node, path, v))
    decreases |path|, 2
  {
    match node
    case Leaf(_, _) =>
    case Plain(_) =>
    case Section(at, body) => SetKeepsShape(body.fields, path, v);
    case Repeated(count, strides, items) =>
      if path != [] && path[0].Index? && path[0].index < |items| {
        var k := path[0].index;
        ItemShape(items, k);
        SetKeepsShape(items[k].fields, path[1..], v);
        ReplaceItem(items, k, Record(SetAt(items[k].fields, path[1..], v)));
      }
  }

  lemma {:induction false} ApplyAllKeepsShape<N, V>(fields: seq<Field<N, V>>, us: seq<Update<N, V>>)
    requires WellShaped(fields)
    ensures WellShaped(ApplyAll(fields, us))
    decreases |us|
  {
    if us == [] {
    } else {
      SetKeepsShape(fields, us[0].path, us[0].value);
      ApplyAllKeepsShape(SetAt(fields, us[0].path, us[0].value), us[1..]);
    }
  }

  /** What one packet does: a refused packet changes nothing; an accepted one changes exactly the
      leaves that declare it and pass their length gates, each to what its converter makes of its
      bytes at its absolute offset. No source and no offset moves. */
  lemma AfterParse<N, V>(root: seq<Field<N, V>>, payload: seq<byte>, p: Packet, q: Path<N>, p2: Packet)
    requires WellShaped(root)
    ensures var r := IterFields(payload, p, root, 0, []);
            r.Success? ==>
              && DistinctPaths(r.value)
              && WellShaped(ApplyAll(root, r.value))
              && (var after := ApplyAll(root, r.value);
                  var supplied := Supplied(Locate(root, p, q, 0), payload);
                  && ValueAt(after, q) == (if supplied.Some? then supplied else ValueAt(root, q))
                  && Locate(after, p2, q, 0) == Locate(root, p2, q, 0))
  {
    var r := IterFields(payload, p, root, 0, []);
    if r.Success? {
      FieldsDistinct(payload, p, root, 0, []);
      FieldsExact(payload, p, root, 0, [], q);
      assert [] + q == q;
      forall u | u in r.value ensures ValueAt(root, u.path).Some? {
        FieldsExact(payload, p, root, 0, [], u.path);
        assert [] + u.path == u.path;
        LookupMissing(r.value, u.path);
        LocatedHasValue(root, p, u.path, 0);
      }
      ApplyAllReads(root, r.value, q, p2);
      ApplyAllKeepsShape(root, r.value);
    }
  }

  /** A leaf supplies something only if its bytes lie in the payload and the payload's length is within
      the leaf's own limits, both inclusive; and then its converter gets exactly those bytes. */
  lemma SuppliedExactly<V>(slot: Slot<V>, payload: seq<byte>)
    ensures var start, size := slot.base + slot.source.offset, slot.source.size;
      if start + size <= |payload|
         && (match slot.source.minLength case None => true case Some(least) => least <= |payload|)
         && (match slot.source.maxLength case None => true case Some(most) => |payload| <= most)
      then
        && Gated(Some(slot), payload)
        && Supplied(Some(slot), payload) == slot.source.decode(payload[start..start + size])
      else !Gated(Some(slot), payload) && Supplied(Some(slot), payload) == None
  {
  }
}
