/** The declarative packet parser.

    A result object is a tree that carries, field by field, the packet sources declared for it and
    its current value. `IterFields` is the recursive walk that collects the pending updates, and
    `ProductObject.ParseInto` applies them afterwards. `Locate` is the reference: it follows one
    path from the root, adds up the offsets on the way, and knows nothing of the walk. */
module Schema {
  import opened Wrappers
  import opened Paths
  import opened Bytes

  /** A packet schema; two that differ in name alone are different keys of a source table. */
  datatype Packet = Packet(name: string, command: byte, minLength: nat, maxLength: Option<nat>)

  /** One field's representation in one packet. The struct format and the converter together are
      `decode`; a converter that raises is one that returns None. */
  datatype Source<!V> = Source(
    offset: nat, size: nat, minLength: Option<nat>, maxLength: Option<nat>, decode: seq<byte> -> Option<V>)

  datatype Stride = Stride(offset: nat, stride: nat)

  datatype Field<N, !V> = Field(name: N, node: Node<N, V>)

  datatype Record<N, !V> = Record(fields: seq<Field<N, V>>)

  datatype Node<N, !V> =
    | Leaf(sources: map<Packet, Source<V>>, value: V)
    | Plain(plain: V)                                                // a value without a packet source
    | Section(at: Option<map<Packet, nat>>, body: Record<N, V>)
    | Repeated(count: nat, strides: map<Packet, Stride>, items: seq<Record<N, V>>)

  datatype ParseError = PayloadTooShort | PayloadTooLong | ReadPastEnd | ConverterFailed | WrongItemCount

  datatype Update<+N, +V> = Update(path: Path<N>, value: V)

  type Updates<+N, +V> = Result<seq<Update<N, V>>, ParseError>

  // ----- FieldSource and PacketSchema -----

  predicate FitsPacket(p: Packet, length: nat) {
    p.minLength <= length && (p.maxLength.Some? ==> length <= p.maxLength.value)
  }

  function ValidatePayload(p: Packet, length: nat): (r: Result<(), ParseError>)
    ensures r.Success? <==> FitsPacket(p, length)
    ensures r == Failure(PayloadTooShort) <==> length < p.minLength
    ensures r == Failure(PayloadTooLong) <==> p.minLength <= length && p.maxLength.Some? && p.maxLength.value < length
  {
    if length < p.minLength then Failure(PayloadTooShort)
    else if p.maxLength.Some? && p.maxLength.value < length then Failure(PayloadTooLong)
    else Success(())
  }

  predicate AppliesTo<V>(src: Source<V>, length: nat, base: nat) {
    && base + src.offset + src.size <= length
    && (src.minLength.Some? ==> src.minLength.value <= length)
    && (src.maxLength.Some? ==> length <= src.maxLength.value)
  }

  function ParseFrom<V>(src: Source<V>, payload: seq<byte>, base: nat): Result<V, ParseError> {
    var absolute := base + src.offset;
    if |payload| < absolute + src.size then Failure(ReadPastEnd)
    else
      match src.decode(payload[absolute..absolute + src.size])
      case Some(v) => Success(v)
      case None => Failure(ConverterFailed)
  }

  // ----- the walk -----

  function Then<N, V>(first: Updates<N, V>, second: Updates<N, V>): Updates<N, V> {
    if first.Failure? then first
    else if second.Failure? then second
    else Success(first.value + second.value)
  }

  function IterFields<N, V>(
      payload: seq<byte>, p: Packet, fields: seq<Field<N, V>>, base: nat, path: Path<N>): Updates<N, V>
    decreases fields, 1
  {
    if fields == [] then Success([])
    else
      var Field(name, node) := fields[0];
      assert node < fields[0] && fields[0] in fields;
      Then(IterNode(payload, p, node, base, path + [Name(name)]), IterFields(payload, p, fields[1..], base, path))
  }

  function IterNode<N, V>(payload: seq<byte>, p: Packet, node: Node<N, V>, base: nat, path: Path<N>): Updates<N, V>
    decreases node, 0
  {
    match node
    case Leaf(sources, _) =>
      if p !in sources || !AppliesTo(sources[p], |payload|, base) then Success([])
      else
        (match ParseFrom(sources[p], payload, base)
         case Success(v) => Success([Update(path, v)])
         case Failure(e) => Failure(e))
    case Plain(_) => Success([])
    case Repeated(count, strides, items) =>
      if p !in strides then Success([])
      else if |items| != count then Failure(WrongItemCount)
      else IterItems(payload, p, items, 0, base + strides[p].offset, strides[p].stride, path)
    case Section(at, body) =>
      if at.Some? && p !in at.value then Success([])
      else IterFields(payload, p, body.fields, base + (if at.Some? then at.value[p] else 0), path)
  }

  /** The items from number k on; base is the offset of item number k. */
  function IterItems<N, V>(
      payload: seq<byte>, p: Packet, items: seq<Record<N, V>>, k: nat, base: nat, stride: nat,
      path: Path<N>): Updates<N, V>
    decreases items, 2
  {
    if items == [] then Success([])
    else Then(IterFields(payload, p, items[0].fields, base, path + [Index(k)]),
              IterItems(payload, p, items[1..], k + 1, base + stride, stride, path))
  }

  // ----- the reference: one path at a time -----

  /** The position of the field called n. */
  function FindField<N(==), V>(fields: seq<Field<N, V>>, n: N): (r: Option<nat>)
    ensures r.Some? ==> r.value < |fields| && fields[r.value].name == n
  {
    if fields == [] then None
    else if fields[0].name == n then Some(0)
    else
      match FindField(fields[1..], n)
      case Some(i) => Some(i + 1)
      case None => None
  }

  /** A leaf together with the base offset of the record it lies in. */
  datatype Slot<!V> = Slot(source: Source<V>, base: nat)

  /** The leaf at a path if it and every section on the way declare the packet. Its offset is the
      sum of the section offsets, index * stride of the items, and its own offset. */
  function Locate<N(==), V>(fields: seq<Field<N, V>>, p: Packet, path: Path<N>, base: nat): Option<Slot<V>>
    decreases |path|, 1
  {
    if path == [] || path[0].Index? then None
    else
      match FindField(fields, path[0].name)
      case None => None
      case Some(i) => LocateNode(fields[i].node, p, path[1..], base)
  }

  function LocateNode<N(==), V>(node: Node<N, V>, p: Packet, path: Path<N>, base: nat): Option<Slot<V>>
    decreases |path|, 2
  {
    match node
    case Leaf(sources, _) => if path == [] && p in sources then Some(Slot(sources[p], base)) else None
    case Plain(_) => None
    case Section(at, body) =>
      if at.Some? && p !in at.value then None
      else Locate(body.fields, p, path, base + (if at.Some? then at.value[p] else 0))
    case Repeated(count, strides, items) =>
      if p !in strides || path == [] || path[0].Name? || |items| <= path[0].index then None
      else Locate(items[path[0].index].fields, p, path[1..],
        base + strides[p].offset + path[0].index * strides[p].stride)
  }

  /** What a packet supplies for a slot: nothing unless the length gates of its source are passed. */
  function Supplied<V>(slot: Option<Slot<V>>, payload: seq<byte>): Option<V> {
    if slot.None? || !AppliesTo(slot.value.source, |payload|, slot.value.base) then None
    else
      var start := slot.value.base + slot.value.source.offset;
      slot.value.source.decode(payload[start..start + slot.value.source.size])
  }

  predicate Gated<V>(slot: Option<Slot<V>>, payload: seq<byte>) {
    slot.Some? && AppliesTo(slot.value.source, |payload|, slot.value.base)
  }

  /** The current value of a leaf or plain field. */
  function ValueAt<N(==), V>(fields: seq<Field<N, V>>, path: Path<N>): Option<V>
    decreases |path|, 1
  {
    if path == [] || path[0].Index? then None
    else
      match FindField(fields, path[0].name)
      case None => None
      case Some(i) => ValueIn(fields[i].node, path[1..])
  }

  function ValueIn<N(==), V>(node: Node<N, V>, path: Path<N>): Option<V>
    decreases |path|, 2
  {
    match node
    case Leaf(_, v) => if path == [] then Some(v) else None
    case Plain(v) => if path == [] then Some(v) else None
    case Section(_, body) => ValueAt(body.fields, path)
    case Repeated(_, _, items) =>
      if path == [] || path[0].Name? || |items| <= path[0].index then None
      else ValueAt(items[path[0].index].fields, path[1..])
  }

  /** Assigns the field at a path. */
  function SetAt<N(==), V>(fields: seq<Field<N, V>>, path: Path<N>, v: V): (r: seq<Field<N, V>>)
    decreases |path|, 1
  {
    if path == [] || path[0].Index? then fields
    else
      match FindField(fields, path[0].name)
      case None => fields
      case Some(i) => fields[i := fields[i].(node := SetIn(fields[i].node, path[1..], v))]
  }

  function SetIn<N(==), V>(node: Node<N, V>, path: Path<N>, v: V): Node<N, V>
    decreases |path|, 2
  {
    match node
    case Leaf(_, _) => if path == [] then node.(value := v) else node
    case Plain(_) => if path == [] then Plain(v) else node
    case Section(_, body) => node.(body := Record(SetAt(body.fields, path, v)))
    case Repeated(_, _, items) =>
      if path == [] || path[0].Name? || |items| <= path[0].index then node
      else node.(items := items[path[0].index := Record(SetAt(items[path[0].index].fields, path[1..], v))])
  }

  function ApplyAll<N(==), V>(fields: seq<Field<N, V>>, us: seq<Update<N, V>>): seq<Field<N, V>>
    decreases |us|
  {
    if us == [] then fields else ApplyAll(SetAt(fields, us[0].path, us[0].value), us[1..])
  }

  /** Field names are distinct within each record, as attribute names are, and every repeated
      section holds as many items as it declares. */
  predicate WellShaped<N(==), V>(fields: seq<Field<N, V>>)
    decreases fields, 1
  {
    fields == [] ||
    (var Field(name, node) := fields[0];
     assert node < fields[0] && fields[0] in fields;
     FindField(fields[1..], name).None? && WellShapedIn(node) && WellShaped(fields[1..]))
  }

  predicate WellShapedIn<N(==), V>(node: Node<N, V>)
    decreases node, 0
  {
    match node
    case Section(_, body) => WellShaped(body.fields)
    case Repeated(count, _, items) => |items| == count && WellShapedItems(items)
    case _ => true
  }

  predicate WellShapedItems<N(==), V>(items: seq<Record<N, V>>)
    decreases items, 2
  {
    items == [] || (WellShaped(items[0].fields) && WellShapedItems(items[1..]))
  }

  // ----- the code -----

  class ProductObject<N(==), V> {
    var root: seq<Field<N, V>>

    constructor (root: seq<Field<N, V>>)
      ensures this.root == root
    {
      this.root := root;
    }

    /** `parse_into`: every update is decoded before the first one is applied. */
    method ParseInto(payload: seq<byte>, p: Packet) returns (r: Updates<N, V>)
      modifies this
      ensures r == if FitsPacket(p, |payload|) then IterFields(payload, p, old(root), 0, [])
                   else Failure(ValidatePayload(p, |payload|).error)
      ensures root == if r.Success? then ApplyAll(old(root), r.value) else old(root)
    {
      var valid := ValidatePayload(p, |payload|);
      if valid.Failure? {
        return Failure(valid.error);
      }
      r := IterFields(payload, p, root, 0, []);
      if r.Failure? {
        return;
      }
      var us := r.value;
      for i := 0 to |us|
        invariant ApplyAll(old(root), us) == ApplyAll(root, us[i..])
      {
        assert us[i..][1..] == us[i + 1..];
        root := SetAt(root, us[i].path, us[i].value);
      }
    }
  }
}
