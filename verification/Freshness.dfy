/** Values and their update metadata over whole runs, for any product. */
module Freshness {
  import opened Wrappers
  import opened Paths
  import opened Bytes
  import opened Frames
  import opened Schema
  import opened SchemaProofs
  import opened PathKeys

  /** An entry of `field_updates`; an empty payload is recorded as no payload. */
  datatype Stamp = Stamp(command: byte, time: int, payload: Option<seq<byte>>)

  function StampOf(m: Message, time: int): Stamp {
    Stamp(m.command, time, if m.payload == [] then None else Some(m.payload))
  }

  /** What a payload parser does: the fields it assigns, in order, and the paths it returns. */
  datatype Parsed<N, V> = Parsed(changes: seq<Update<N, V>>, paths: seq<Path<N>>)

  /** A product runtime; `aliases` is its `_metadata_aliases`, `text` spells attribute names. A parser
      that raises or returns None gives None. */
  datatype Product<!N, !V> = Product(packets: map<byte, Packet>, parsers: map<byte, seq<byte> -> Option<Parsed<N, V>>>,
                                 aliases: Path<N> -> seq<string>, text: N -> string)

  function PathsOf<N, V>(us: seq<Update<N, V>>): seq<Path<N>> {
    seq(|us|, i requires 0 <= i < |us| => us[i].path)
  }

  /** What `parse_payload` is going to apply. */
  function Decode<N, V>(product: Product<N, V>, root: seq<Field<N, V>>, m: Message): Option<Parsed<N, V>> {
    var c := m.command;
    if c !in product.packets && c !in product.parsers then None
    else if c in product.packets && !FitsPacket(product.packets[c], |m.payload|) then None
    else if c in product.parsers then product.parsers[c](m.payload)
    else
      match IterFields(m.payload, product.packets[c], root, 0, [])
      case Success(us) => Some(Parsed(us, PathsOf(us)))
      case Failure(_) => None
  }

  function Keys<N, V>(product: Product<N, V>, path: Path<N>): seq<string> {
    [DottedPath(product, path)] + product.aliases(path)
  }

  /** `_path_key`. */
  function DottedPath<N, V>(product: Product<N, V>, path: Path<N>): string {
    PathKey(Rendered(path, product.text))
  }

  type FieldUpdates = map<string, Stamp>

  function Write(updates: FieldUpdates, keys: seq<string>, stamp: Stamp): FieldUpdates
    decreases |keys|
  {
    if keys == [] then updates else Write(updates[keys[0] := stamp], keys[1..], stamp)
  }

  function MarkAll<N, V>(product: Product<N, V>, updates: FieldUpdates, paths: seq<Path<N>>, stamp: Stamp): FieldUpdates
    decreases |paths|
  {
    if paths == [] then updates else MarkAll(product, Write(updates, Keys(product, paths[0]), stamp), paths[1..], stamp)
  }

  datatype Arrival = Arrival(frame: seq<byte>, time: int)

  datatype State<!N, !V> = State(root: seq<Field<N, V>>, updates: FieldUpdates)

  function Accepted<N, V>(product: Product<N, V>, root: seq<Field<N, V>>, frame: seq<byte>): (r: Option<Parsed<N, V>>)
    ensures r.Some? ==> IsFrame(frame)
  {
    if IsFrame(frame) then Decode(product, root, MessageOf(frame)) else None
  }

  function Step<N(==), V>(product: Product<N, V>, s: State<N, V>, a: Arrival): State<N, V> {
    match Accepted(product, s.root, a.frame)
    case None => s
    case Some(parsed) =>
      State(ApplyAll(s.root, parsed.changes),
        MarkAll(product, s.updates, parsed.paths, StampOf(MessageOf(a.frame), a.time)))
  }

  function Run<N(==), V>(product: Product<N, V>, s: State<N, V>, arrivals: seq<Arrival>): State<N, V> {
    if arrivals == [] then s
    else Step(product, Run(product, s, arrivals[..|arrivals| - 1]), arrivals[|arrivals| - 1])
  }

  // ----- the code -----

  class TrackedProduct<N(==, !new), V(!new)> {
    const product: Product<N, V>
    var root: seq<Field<N, V>>
    var fieldUpdates: FieldUpdates

    constructor (product: Product<N, V>, root: seq<Field<N, V>>)
      ensures this.product == product && this.root == root && fieldUpdates == map[]
    {
      this.product, this.root, fieldUpdates := product, root, map[];
    }

    method MarkFieldUpdate(path: Path<N>, stamp: Stamp)
      modifies this`fieldUpdates
      ensures fieldUpdates == Write(old(fieldUpdates), Keys(product, path), stamp)
    {
      var keys := [DottedPath(product, path)] + product.aliases(path);
      ghost var before := fieldUpdates;
      for i := 0 to |keys|
        invariant Write(before, keys, stamp) == Write(fieldUpdates, keys[i..], stamp)
      {
        assert keys[i..][1..] == keys[i + 1..];
        fieldUpdates := fieldUpdates[keys[i] := stamp];
      }
    }

    method ParsePayload(m: Message) returns (paths: Option<seq<Path<N>>>)
      modifies this`root
      ensures var parsed := Decode(product, old(root), m);
        && (paths.Some? <==> parsed.Some?)
        && (if parsed.Some? then paths.value == parsed.value.paths && root == ApplyAll(old(root), parsed.value.changes)
            else root == old(root))
    {
      var parsed := Decode(product, root, m);
      if parsed.None? {
        return None;
      }
      var us := parsed.value.changes;
      ghost var before := root;
      for i := 0 to |us|
        invariant ApplyAll(before, us) == ApplyAll(root, us[i..])
      {
        assert us[i..][1..] == us[i + 1..];
        root := SetAt(root, us[i].path, us[i].value);
      }
      return Some(parsed.value.paths);
    }

    /** `ProductProtocol.parse_notification`. */
    method ParseNotification(frame: seq<byte>, time: int) returns (ok: bool)
      modifies this
      ensures ok == Accepted(product, old(root), frame).Some?
      ensures State(root, fieldUpdates) == Step(product, State(old(root), old(fieldUpdates)), Arrival(frame, time))
    {
      hide Decode, Write;
      var envelope := CheckEnvelope(frame);
      if envelope.Failure? {
        return false;
      }
      var m := envelope.value;
      var reported := ParsePayload(m);
      if reported.None? {
        return false;
      }
      var paths, stamp := reported.value, StampOf(m, time);
      ghost var before, parsed := fieldUpdates, root;
      for i := 0 to |paths|
        invariant root == parsed
        invariant MarkAll(product, before, paths, stamp) == MarkAll(product, fieldUpdates, paths[i..], stamp)
      {
        assert paths[i..][1..] == paths[i + 1..];
        MarkFieldUpdate(paths[i], stamp);
      }
      assert paths[|paths|..] == [];
      return true;
    }
  }

  // ----- what a frame supplies -----

  /** The value the changes leave in a field: that of the last change to it. */
  function LastOf<N(==), V>(us: seq<Update<N, V>>, q: Path<N>): Option<V> {
    if us == [] then None
    else if LastOf(us[1..], q).Some? then LastOf(us[1..], q)
    else if us[0].path == q then Some(us[0].value)
    else None
  }

  lemma {:induction false} LastOfChanges<N, V>(us: seq<Update<N, V>>, q: Path<N>)
    ensures LastOf(us, q).Some? <==> exists u | u in us :: u.path == q
    ensures LastOf(us, q).Some? <==> q in PathsOf(us)
  {
    if us == [] {
    } else {
      LastOfChanges(us[1..], q);
      assert us == [us[0]] + us[1..];
      assert PathsOf(us) == [us[0].path] + PathsOf(us[1..]);
    }
  }

  lemma {:induction false} LastOfJoin<N, V>(a: seq<Update<N, V>>, b: seq<Update<N, V>>, q: Path<N>)
    ensures LastOf(a + b, q) == if LastOf(b, q).Some? then LastOf(b, q) else LastOf(a, q)
  {
    if a == [] {
      assert a + b == b;
    } else {
      assert (a + b)[1..] == a[1..] + b;
      LastOfJoin(a[1..], b, q);
    }
  }

  lemma LastOfOne<N, V>(path: Path<N>, v: V, q: Path<N>)
    ensures LastOf([Update(path, v)], q) == if path == q then Some(v) else None
  {
    var us := [Update(path, v)];
    assert us[1..] == [];
  }

  /** Without repetition the last change is the only one. */
  lemma {:induction false} LastOfDistinct<N, V>(us: seq<Update<N, V>>, q: Path<N>)
    requires DistinctPaths(us)
    ensures LastOf(us, q) == Lookup(us, q)
  {
    if us == [] {
    } else {
      forall i, j | 0 <= i < j < |us[1..]| ensures us[1..][i].path != us[1..][j].path {
        assert us[1..][i] == us[i + 1] && us[1..][j] == us[j + 1];
      }
      LastOfDistinct(us[1..], q);
      LastOfChanges(us[1..], q);
      forall u | u in us[1..] ensures u.path != us[0].path {
        var j :| 0 <= j < |us[1..]| && us[1..][j] == u;
        assert us[j + 1] == u;
      }
    }
  }

  ghost predicate Honest<N(!new), V(!new)>(root: seq<Field<N, V>>, parsed: Parsed<N, V>) {
    && (forall u | u in parsed.changes :: ValueAt(root, u.path).Some?)
    && (forall q :: q in parsed.paths <==> LastOf(parsed.changes, q).Some?)
  }

  /** What a product definition has to satisfy: attribute names are identifiers and distinct within
      a record, aliases have no dot, and a payload parser returns the paths of the fields it
      assigns, which exist. */
  ghost predicate Sound<N(!new), V(!new)>(product: Product<N, V>, root: seq<Field<N, V>>) {
    && WellShaped(root)
    && (forall q | ValueAt(root, q).Some? ::
          WellNamed(Rendered(q, product.text)) && forall k | k in product.aliases(q) :: '.' !in k)
    && (forall q, r | ValueAt(root, q).Some? && ValueAt(root, r).Some? &&
      Rendered(q, product.text) == Rendered(r, product.text) ::
          q == r)
    && (forall c, payload | c in product.parsers && product.parsers[c](payload).Some? ::
          Honest(root, product.parsers[c](payload).value))
  }

  /** The same fields and sources, whatever the values. */
  ghost predicate SameShape<N(!new), V(!new)>(root: seq<Field<N, V>>, root0: seq<Field<N, V>>) {
    && WellShaped(root)
    && (forall p, q :: Locate(root, p, q, 0) == Locate(root0, p, q, 0))
    && (forall q :: ValueAt(root, q).Some? <==> ValueAt(root0, q).Some?)
  }

  function Supplies<N(==), V>(
      product: Product<N, V>, root: seq<Field<N, V>>, frame: seq<byte>, q: Path<N>): (r: Option<V>)
    ensures r.Some? ==> IsFrame(frame)
  {
    match Accepted(product, root, frame)
    case None => None
    case Some(parsed) => LastOf(parsed.changes, q)
  }

  lemma WalkIsHonest<N(!new), V(!new)>(root: seq<Field<N, V>>, p: Packet, payload: seq<byte>)
    requires WellShaped(root) && IterFields(payload, p, root, 0, []).Success?
    ensures var us := IterFields(payload, p, root, 0, []).value;
      Honest(root, Parsed(us, PathsOf(us))) && forall q :: LastOf(us, q) == Supplied(Locate(root, p, q, 0), payload)
  {
    hide Locate, IterFields, Supplied, Gated, ValueAt, LastOf, Lookup, WellShaped;
    var us := IterFields(payload, p, root, 0, []).value;
    FieldsDistinct(payload, p, root, 0, []);
    forall q ensures LastOf(us, q) == Supplied(Locate(root, p, q, 0), payload)
      ensures q in PathsOf(us) <==> LastOf(us, q).Some?
    {
      FieldsExact(payload, p, root, 0, [], q);
      assert [] + q == q;
      LastOfDistinct(us, q);
      LastOfChanges(us, q);
    }
    forall u | u in us ensures ValueAt(root, u.path).Some? {
      LastOfChanges(us, u.path);
      SuppliedHasSlot(Locate(root, p, u.path, 0), payload);
      LocatedHasValue(root, p, u.path, 0);
    }
  }

  lemma SuppliedHasSlot<V>(slot: Option<Slot<V>>, payload: seq<byte>)
    ensures Supplied(slot, payload).Some? ==> slot.Some?
  {
  }

  lemma RefusalByShape<N(!new), V(!new)>(root: seq<Field<N, V>>, root0: seq<Field<N, V>>, p: Packet, payload: seq<byte>)
    requires WellShaped(root) && WellShaped(root0) && forall q :: Locate(root, p, q, 0) == Locate(root0, p, q, 0)
    ensures IterFields(payload, p, root, 0, []).Failure? ==> IterFields(payload, p, root0, 0, []).Failure?
  {
    hide Locate, IterFields, Supplied, Gated, WellShaped;
    if IterFields(payload, p, root, 0, []).Failure? {
      var path := FieldsCulprit(payload, p, root, 0, []);
      assert Locate(root, p, path, 0) == Locate(root0, p, path, 0);
      RefusedIff(payload, p, root0);
    }
  }

  /** What a frame supplies does not depend on the current values. */
  lemma SuppliesByShape<N(!new), V(!new)>(
      product: Product<N, V>, root: seq<Field<N, V>>, root0: seq<Field<N, V>>, frame: seq<byte>, q: Path<N>)
    requires Sound(product, root0) && SameShape(root, root0)
    ensures Accepted(product, root, frame).Some? ==> Honest(root, Accepted(product, root, frame).value)
    ensures Supplies(product, root, frame, q) == Supplies(product, root0, frame, q)
  {
    hide Locate, IterFields, Supplied, Gated, ValueAt, LastOf, WellShaped, FitsPacket;
    if IsFrame(frame) {
      var m := MessageOf(frame);
      if m.command in product.packets && m.command !in product.parsers {
        var p := product.packets[m.command];
        RefusalByShape(root, root0, p, m.payload);
        RefusalByShape(root0, root, p, m.payload);
        if IterFields(m.payload, p, root, 0, []).Success? {
          WalkIsHonest(root, p, m.payload);
          WalkIsHonest(root0, p, m.payload);
        }
      }
    }
  }

  // ----- one step -----

  lemma {:induction false} ApplyAllLast<N(!new), V(!new)>(
      root: seq<Field<N, V>>, us: seq<Update<N, V>>, root0: seq<Field<N, V>>, q: Path<N>)
    requires SameShape(root, root0) && forall u | u in us :: ValueAt(root, u.path).Some?
    ensures SameShape(ApplyAll(root, us), root0)
    ensures ValueAt(ApplyAll(root, us), q) == if LastOf(us, q).Some? then LastOf(us, q) else ValueAt(root, q)
    decreases |us|
  {
    hide Locate, ValueAt, SetAt, WellShaped;
    if us == [] {
    } else {
      var next := SetAt(root, us[0].path, us[0].value);
      SetKeepsShape(root, us[0].path, us[0].value);
      forall p, r ensures Locate(next, p, r, 0) == Locate(root, p, r, 0) {
        SetThenRead(root, us[0].path, us[0].value, r, p, 0);
      }
      forall r ensures ValueAt(next, r) == if r == us[0].path then Some(us[0].value) else ValueAt(root, r) {
        SetThenRead(root, us[0].path, us[0].value, r, Packet("", 0, 0, None), 0);
      }
      ApplyAllLast(next, us[1..], root0, q);
    }
  }

  lemma {:induction false} WriteReads(updates: FieldUpdates, keys: seq<string>, stamp: Stamp, k: string)
    ensures var after := Write(updates, keys, stamp);
      if k in keys then k in after && after[k] == stamp
      else (k in after <==> k in updates) && (k in after ==> after[k] == updates[k])
    decreases |keys|
  {
    if keys == [] {
    } else {
      WriteReads(updates[keys[0] := stamp], keys[1..], stamp, k);
      assert keys == [keys[0]] + keys[1..];
    }
  }

  lemma {:induction false} MarkAllReads<N(!new), V(!new)>(
      product: Product<N, V>, updates: FieldUpdates, paths: seq<Path<N>>, stamp: Stamp, k: string)
    ensures var after := MarkAll(product, updates, paths, stamp);
      if exists q | q in paths :: k in Keys(product, q) then k in after && after[k] == stamp
      else (k in after <==> k in updates) && (k in after ==> after[k] == updates[k])
    decreases |paths|
  {
    hide Keys, Write;
    if paths == [] {
    } else {
      var next := Write(updates, Keys(product, paths[0]), stamp);
      WriteReads(updates, Keys(product, paths[0]), stamp, k);
      MarkAllReads(product, next, paths[1..], stamp, k);
      assert paths == [paths[0]] + paths[1..];
    }
  }

  /** Whether a frame supplies some field that has k among its keys. */
  ghost predicate Touches<N(!new), V(!new)>(
      product: Product<N, V>, root: seq<Field<N, V>>, frame: seq<byte>, k: string) {
    exists q :: Supplies(product, root, frame, q).Some? && k in Keys(product, q)
  }

  /** An entry names an arrival: the command byte of its frame, its time, and the bytes between header and
      checksum, if there are any. */
  predicate NamesArrival(stamp: Stamp, a: Arrival)
    requires 5 <= |a.frame|
  {
    && stamp.command == a.frame[3]
    && stamp.time == a.time
    && stamp.payload == if |a.frame| == 5 then None else Some(a.frame[4..|a.frame| - 1])
  }

  lemma StampNamesArrival(a: Arrival)
    requires IsFrame(a.frame)
    ensures NamesArrival(StampOf(MessageOf(a.frame), a.time), a)
  {
  }

  lemma StepIsFresh<N(!new), V(!new)>(
      product: Product<N, V>, s: State<N, V>, root0: seq<Field<N, V>>, a: Arrival, q: Path<N>, k: string)
    requires Sound(product, root0) && SameShape(s.root, root0)
    ensures var t := Step(product, s, a);
      && SameShape(t.root, root0)
      && ValueAt(t.root, q) ==
        (if Supplies(product, root0, a.frame, q).Some? then Supplies(product, root0, a.frame, q)
          else ValueAt(s.root, q))
      && (if Touches(product, root0, a.frame, k)
          then k in t.updates && NamesArrival(t.updates[k], a)
          else (k in t.updates <==> k in s.updates) && (k in t.updates ==> t.updates[k] == s.updates[k]))
  {
    hide Accepted, Sound, SameShape, ValueAt, LastOf, Keys, ApplyAll, MarkAll, Locate;
    var parsed := Accepted(product, s.root, a.frame);
    forall r ensures Supplies(product, s.root, a.frame, r) == Supplies(product, root0, a.frame, r) {
      SuppliesByShape(product, s.root, root0, a.frame, r);
    }
    SuppliesByShape(product, s.root, root0, a.frame, q);
    if parsed.Some? {
      ApplyAllLast(s.root, parsed.value.changes, root0, q);
      StampNamesArrival(a);
      MarkAllReads(product, s.updates, parsed.value.paths, StampOf(MessageOf(a.frame), a.time), k);
      assert forall r :: r in parsed.value.paths <==> Supplies(product, s.root, a.frame, r).Some?;
    } else {
      assert forall r :: Supplies(product, s.root, a.frame, r).None?;
    }
  }

  // ----- runs -----

  /** The last arrival whose frame supplies q. */
  function LastSupplier<N(==), V>(
      product: Product<N, V>, root: seq<Field<N, V>>, arrivals: seq<Arrival>, q: Path<N>): (r: Option<nat>)
    ensures r.Some? ==> r.value < |arrivals| && Supplies(product, root, arrivals[r.value].frame, q).Some?
    ensures forall i | (if r.Some? then r.value else -1) < i < |arrivals| ::
      Supplies(product, root, arrivals[i].frame, q).None?
  {
    var n := |arrivals|;
    if n == 0 then None
    else if Supplies(product, root, arrivals[n - 1].frame, q).Some? then Some(n - 1)
    else LastSupplier(product, root, arrivals[..n - 1], q)
  }

  ghost function LastToucher<N(!new), V(!new)>(
      product: Product<N, V>, root: seq<Field<N, V>>, arrivals: seq<Arrival>, k: string): (r: Option<nat>)
    ensures r.Some? ==>
      r.value < |arrivals| && IsFrame(arrivals[r.value].frame) && Touches(product, root, arrivals[r.value].frame, k)
    ensures forall i | (if r.Some? then r.value else -1) < i < |arrivals| ::
      !Touches(product, root, arrivals[i].frame, k)
  {
    var n := |arrivals|;
    if n == 0 then None
    else if Touches(product, root, arrivals[n - 1].frame, k) then Some(n - 1)
    else LastToucher(product, root, arrivals[..n - 1], k)
  }

  /** After any run a field holds what the last accepted frame supplying it decodes to, and every
      metadata key names the last frame that touched one of its fields. */
  lemma {:induction false} RunIsFresh<N(!new), V(!new)>(
      product: Product<N, V>, root0: seq<Field<N, V>>, arrivals: seq<Arrival>, q: Path<N>, k: string)
    requires Sound(product, root0)
    ensures var s, last, touch :=
      Run(product, State(root0, map[]), arrivals), LastSupplier(product, root0, arrivals, q),
        LastToucher(product, root0, arrivals, k);
      && SameShape(s.root, root0)
      && ValueAt(s.root, q) ==
        (if last.None? then ValueAt(root0, q) else Supplies(product, root0, arrivals[last.value].frame, q))
      && (k in s.updates <==> touch.Some?)
      && (touch.Some? ==> NamesArrival(s.updates[k], arrivals[touch.value]))
  {
    hide Sound, SameShape, Step, Supplies, Touches, ValueAt;
    var n := |arrivals|;
    if n == 0 {
      ShapeOfItself(product, root0);
    } else {
      RunIsFresh(product, root0, arrivals[..n - 1], q, k);
      StepIsFresh(product, Run(product, State(root0, map[]), arrivals[..n - 1]), root0, arrivals[n - 1], q, k);
    }
  }

  lemma ShapeOfItself<N(!new), V(!new)>(product: Product<N, V>, root0: seq<Field<N, V>>)
    requires Sound(product, root0)
    ensures SameShape(root0, root0)
  {
  }

  lemma SuppliedIsField<N(!new), V(!new)>(product: Product<N, V>, root0: seq<Field<N, V>>, frame: seq<byte>, q: Path<N>)
    requires Sound(product, root0) && Supplies(product, root0, frame, q).Some?
    ensures ValueAt(root0, q).Some?
  {
    hide ValueAt, LastOf, WellShaped, Locate;
    ShapeOfItself(product, root0);
    SuppliesByShape(product, root0, root0, frame, q);
    LastOfChanges(Accepted(product, root0, frame).value.changes, q);
  }

  /** The only field with a given dotted key is the one at that path: no alias, and no other path,
      ever writes there. */
  lemma DottedKeyHasOneOwner<N(!new), V(!new)>(
      product: Product<N, V>, root0: seq<Field<N, V>>, frame: seq<byte>, q: Path<N>)
    requires Sound(product, root0) && ValueAt(root0, q).Some? && 2 <= |q|
    ensures Touches(product, root0, frame, DottedPath(product, q)) <==> Supplies(product, root0, frame, q).Some?
  {
    hide Supplies, ValueAt, DottedPath, Sound;
    forall r | Supplies(product, root0, frame, r).Some? && DottedPath(product, q) in Keys(product, r) ensures r == q {
      SuppliedIsField(product, root0, frame, r);
      SameDottedPath(product, root0, q, r);
    }
    assert DottedPath(product, q) in Keys(product, q);
  }

  lemma SameDottedPath<N(!new), V(!new)>(product: Product<N, V>, root0: seq<Field<N, V>>, q: Path<N>, r: Path<N>)
    requires Sound(product, root0) && ValueAt(root0, q).Some? && ValueAt(root0, r).Some? && 2 <= |q|
    requires DottedPath(product, q) in Keys(product, r)
    ensures q == r
  {
    hide ValueAt, WellShaped, Rendered, PathKey;
    DottedKey(Rendered(q, product.text));
    AliasIsPlain(product, root0, r, DottedPath(product, q));
    PathKeyInjective(Rendered(q, product.text), Rendered(r, product.text));
  }

  /** Values and freshness agree: under the dotted path of a field, the metadata names the command,
      the time and the payload of the very frame its value came from; a field that was never
      supplied has its first value and no entry. */
  lemma {:induction false} ValueAndMetadataAgree<N(!new), V(!new)>(
      product: Product<N, V>, root0: seq<Field<N, V>>, arrivals: seq<Arrival>, q: Path<N>)
    requires Sound(product, root0) && ValueAt(root0, q).Some? && 2 <= |q|
    ensures var s, last := Run(product, State(root0, map[]), arrivals), LastSupplier(product, root0, arrivals, q);
      if last.None? then ValueAt(s.root, q) == ValueAt(root0, q) && DottedPath(product, q) !in s.updates
      else
        var a := arrivals[last.value];
        && ValueAt(s.root, q) == Supplies(product, root0, a.frame, q)
        && DottedPath(product, q) in s.updates && NamesArrival(s.updates[DottedPath(product, q)], a)
  {
    hide Sound, SameShape, Supplies, Touches, ValueAt, Run, DottedPath;
    RunIsFresh(product, root0, arrivals, q, DottedPath(product, q));
    ToucherIsSupplier(product, root0, arrivals, q);
  }

  lemma {:induction false} ToucherIsSupplier<N(!new), V(!new)>(
      product: Product<N, V>, root0: seq<Field<N, V>>, arrivals: seq<Arrival>, q: Path<N>)
    requires Sound(product, root0) && ValueAt(root0, q).Some? && 2 <= |q|
    ensures LastToucher(product, root0, arrivals, DottedPath(product, q)) == LastSupplier(product, root0, arrivals, q)
  {
    hide Sound, Supplies, Touches, ValueAt, DottedPath;
    if arrivals == [] {
    } else {
      DottedKeyHasOneOwner(product, root0, arrivals[|arrivals| - 1].frame, q);
      ToucherIsSupplier(product, root0, arrivals[..|arrivals| - 1], q);
    }
  }

  /** Every other dotted key stays absent. */
  lemma {:induction false} DottedKeysAreFields<N(!new), V(!new)>(
      product: Product<N, V>, root0: seq<Field<N, V>>, arrivals: seq<Arrival>, k: string)
    requires Sound(product, root0) && '.' in k
    requires k in Run(product, State(root0, map[]), arrivals).updates
    ensures exists q :: ValueAt(root0, q).Some? && DottedPath(product, q) == k
  {
    hide Sound, Supplies, ValueAt, DottedPath, Run, SameShape;
    RunIsFresh(product, root0, arrivals, [], k);
    var i :| 0 <= i < |arrivals| && Touches(product, root0, arrivals[i].frame, k);
    var q := TouchedField(product, root0, arrivals[i].frame, k);
    SuppliedIsField(product, root0, arrivals[i].frame, q);
    AliasIsPlain(product, root0, q, k);
  }

  lemma TouchedField<N(!new), V(!new)>(
      product: Product<N, V>, root0: seq<Field<N, V>>, frame: seq<byte>, k: string) returns (q: Path<N>)
    requires Touches(product, root0, frame, k)
    ensures Supplies(product, root0, frame, q).Some? && k in Keys(product, q)
  {
    hide Supplies, Keys;
    q :| Supplies(product, root0, frame, q).Some? && k in Keys(product, q);
  }

  lemma AliasIsPlain<N(!new), V(!new)>(product: Product<N, V>, root0: seq<Field<N, V>>, q: Path<N>, k: string)
    requires Sound(product, root0) && ValueAt(root0, q).Some? && k in Keys(product, q) && '.' in k
    ensures k == DottedPath(product, q)
  {
    hide ValueAt, DottedPath, WellShaped;
  }

  /** The aliases that every product gives: the last part of the path. */
  function BaseAliases(path: Path<string>): seq<string> {
    if path == [] then [] else [Part(path[|path| - 1])]
  }

  lemma BaseAliasesArePlain(path: Path<string>)
    requires WellNamed(path)
    ensures forall k | k in BaseAliases(path) :: '.' !in k
  {
    PartsDiffer(path[|path| - 1], path[|path| - 1]);
  }
}
