/** The Venus product runtime: the declarative walk for binary packets, custom parsers for text. */
module VenusProduct {
  import opened Wrappers
  import opened Paths
  import opened Bytes
  import opened Frames
  import opened Schema
  import opened SchemaProofs
  import opened Text
  import opened Sequences
  import opened VenusModel

  // ----- the shape of the tree -----

  lemma BatteryNamesDistinct()
    ensures forall i, j | 0 <= i < j < |Names(BatterySection)| :: Names(BatterySection)[i] != Names(BatterySection)[j]
  {
  }

  lemma RuntimeNamesDistinct()
    ensures forall i, j | 0 <= i < j < |Names(RuntimeSection)| :: Names(RuntimeSection)[i] != Names(RuntimeSection)[j]
  {
  }

  lemma NamesDistinct(s: SectionName)
    ensures forall i, j | 0 <= i < j < |Names(s)| :: Names(s)[i] != Names(s)[j]
  {
    if s == BatterySection {
      BatteryNamesDistinct();
    } else if s == RuntimeSection {
      RuntimeNamesDistinct();
    }
  }

  lemma OwnSection(s: SectionName)
    ensures forall i | 0 <= i < |Names(s)| :: SectionOf(Names(s)[i]) == s
  {
  }

  lemma Listed(a: Attribute)
    ensures a in Names(SectionOf(a))
  {
    match a
    case Runtime(f) => assert RuntimeSource(f).packet == RUNTIME;
    case Battery(f) => assert BatterySource(f).packet == BMS;
    case System(f) => assert SystemSource(f).packet == SYSTEM;
    case Timer(f) => assert TimerSource(f).packet == TIMER;
    case Configuration(f) => assert ConfigurationSource(f).packet == if f == CtPollingRate then CT else CONFIG;
    case Device(f) =>
      assert f.DeviceType? || f.DeviceId? || f.SerialNumber? || f.MacAddress? || f.FirmwareVersion? ||
        f.HardwareVersion?;
    case Network(f) =>
      assert f.WifiSsid? || f.MeterIp? || f.NetworkInfo? || f.IpAddress? || f.Gateway? || f.SubnetMask? ||
        f.DnsServer? || f.LocalApiStatus?;
  }

  lemma {:induction false} LeavesFind(names: seq<Attribute>, n: VName)
    ensures var i := FindField(Leaves(names), n);
      if n.Attr? && n.attribute in names then i.Some? && Leaves(names)[i.value].node == NodeOf(n.attribute) else i.None?
  {
    hide NodeOf;
    if names == [] {
    } else {
      assert Leaves(names)[1..] == Leaves(names[1..]);
      LeavesFind(names[1..], n);
    }
  }

  lemma {:induction false} LeavesShape(names: seq<Attribute>)
    requires forall i, j | 0 <= i < j < |names| :: names[i] != names[j]
    ensures WellShaped(Leaves(names))
  {
    if names == [] {
    } else {
      assert Leaves(names)[1..] == Leaves(names[1..]);
      forall i, j | 0 <= i < j < |names[1..]| ensures names[1..][i] != names[1..][j] {
        assert names[1..][i] == names[i + 1] && names[1..][j] == names[j + 1];
      }
      LeavesShape(names[1..]);
      LeavesFind(names[1..], Attr(names[0]));
    }
  }

  function SectionNode(s: SectionName): Node<VName, Val> {
    Section(None, Record(Leaves(Names(s))))
  }

  lemma {:induction false} SectionsFind(sections: seq<SectionName>, n: VName)
    ensures var i := FindField(Sections(sections), n);
      if n.Sect? && n.section in sections
      then i.Some? && Sections(sections)[i.value].node == SectionNode(n.section) else i.None?
  {
    hide Names, Leaves;
    if sections == [] {
    } else {
      assert Sections(sections)[1..] == Sections(sections[1..]);
      SectionsFind(sections[1..], n);
    }
  }

  lemma {:induction false} SectionsShape(sections: seq<SectionName>)
    requires forall i, j | 0 <= i < j < |sections| :: sections[i] != sections[j]
    ensures WellShaped(Sections(sections))
  {
    hide Names, Leaves;
    if sections == [] {
    } else {
      assert Sections(sections)[1..] == Sections(sections[1..]);
      forall i, j | 0 <= i < j < |sections[1..]| ensures sections[1..][i] != sections[1..][j] {
        assert sections[1..][i] == sections[i + 1] && sections[1..][j] == sections[j + 1];
      }
      SectionsShape(sections[1..]);
      SectionsFind(sections[1..], Sect(sections[0]));
      NamesDistinct(sections[0]);
      LeavesShape(Names(sections[0]));
    }
  }

  lemma TreeFind(n: VName)
    ensures var i := FindField(Tree(), n);
      if n.Sect? then i.Some? && Tree()[i.value].node == SectionNode(n.section) else i.None?
  {
    hide Sections, SectionNode;
    SectionsFind(ALL_SECTIONS, n);
    if n.Sect? {
      var s := n.section;
      assert s.RuntimeSection? || s.BatterySection? || s.SystemSection? || s.TimerSection? || s.ConfigurationSection?
          || s.DeviceSection? || s.NetworkSection?;
    }
  }

  lemma NodeLocates(a: Attribute, p: Packet, rest: Path<VName>)
    ensures LocateNode(NodeOf(a), p, rest, 0) == if rest == [] then SlotOf(a, p) else None
    ensures ValueIn(NodeOf(a), rest) == if rest == [] then Some(Initial(a)) else None
  {
    hide SourceOf, Initial, SourceIn;
  }

  lemma LeavesLocate(names: seq<Attribute>, p: Packet, q: Path<VName>)
    ensures var slot, value := Locate(Leaves(names), p, q, 0), ValueAt(Leaves(names), q);
      if |q| == 1 && q[0].Name? && q[0].name.Attr? && q[0].name.attribute in names
      then slot == SlotOf(q[0].name.attribute, p) && value == Some(Initial(q[0].name.attribute))
      else slot.None? && value.None?
  {
    hide NodeOf, SlotOf, Initial, Leaves;
    if q != [] && q[0].Name? {
      LeavesFind(names, q[0].name);
      if q[0].name.Attr? {
        NodeLocates(q[0].name.attribute, p, q[1..]);
      }
    }
  }

  /** The attribute whose flat path is q. */
  function AttributeAt(q: Path<VName>): (r: Option<Attribute>)
    ensures r.Some? ==> q == FlatPath(r.value)
  {
    if |q| == 2 && q[1].Name? && q[1].name.Attr? && q == FlatPath(q[1].name.attribute)
    then Some(q[1].name.attribute) else None
  }

  /** Following a path from the root finds the attribute of that path, and nothing else. */
  lemma TreeLocates(p: Packet, q: Path<VName>)
    ensures var a, slot, value := AttributeAt(q), Locate(Tree(), p, q, 0), ValueAt(Tree(), q);
      if a.Some? then slot == SlotOf(a.value, p) && value == Some(Initial(a.value)) else slot.None? && value.None?
  {
    hide Tree, Leaves, Initial, SourceOf, SlotOf, Names, SectionOf;
    if q != [] && q[0].Name? {
      TreeFind(q[0].name);
      if q[0].name.Sect? {
        var s := q[0].name.section;
        LeavesLocate(Names(s), p, q[1..]);
        if |q| == 2 && q[1].Name? && q[1].name.Attr? {
          Listed(q[1].name.attribute);
          OwnSection(s);
        }
      }
    }
  }

  lemma AttributeLocated(p: Packet, a: Attribute)
    ensures Locate(Tree(), p, FlatPath(a), 0) == SlotOf(a, p) && ValueAt(Tree(), FlatPath(a)) == Some(Initial(a))
    ensures AttributeAt(FlatPath(a)) == Some(a)
  {
    hide Tree, Locate, ValueAt, SlotOf, Initial, SectionOf;
    assert FlatPath(a)[1] == Name(Attr(a));
    TreeLocates(p, FlatPath(a));
  }

  /** No leaf of the tree has a converter that can fail. */
  lemma TotalDecoders(p: Packet, q: Path<VName>, payload: seq<byte>)
    ensures Gated(Locate(Tree(), p, q, 0), payload) ==> Supplied(Locate(Tree(), p, q, 0), payload).Some?
  {
    hide SourceOf, ConvertAt, Tree, Locate;
    TreeLocates(p, q);
  }

  // ----- product data -----

  /** Venus data with its fields in place, whatever their values. */
  ghost predicate Shaped(root: seq<Field<VName, Val>>) {
    && WellShaped(root)
    && (forall p, q :: Locate(root, p, q, 0) == Locate(Tree(), p, q, 0))
    && (forall q :: ValueAt(root, q).Some? <==> ValueAt(Tree(), q).Some?)
  }

  /** The flat reads of `VenusData.__getattr__`, all of them. */
  function FlatValues(root: seq<Field<VName, Val>>): Values {
    map a | a in ATTRIBUTES && ValueAt(root, FlatPath(a)).Some? :: ValueAt(root, FlatPath(a)).value
  }

  lemma FlatRead(root: seq<Field<VName, Val>>, a: Attribute)
    ensures a in FlatValues(root) <==> ValueAt(root, FlatPath(a)).Some?
    ensures a in FlatValues(root) ==> FlatValues(root)[a] == ValueAt(root, FlatPath(a)).value
  {
    hide ATTRIBUTES, FlatPath, ValueAt;
    EveryAttribute(a);
  }

  /** Fresh data has every attribute at its default. */
  lemma FreshTree()
    ensures Shaped(Tree()) && FlatValues(Tree()) == map a | a in ATTRIBUTES :: Initial(a)
  {
    hide Initial, ATTRIBUTES, ValueAt, Tree;
    assert WellShaped(Tree()) by { TreeShape(); }
    forall a: Attribute ensures ValueAt(Tree(), FlatPath(a)) == Some(Initial(a)) {
      TreeLocates(RUNTIME, FlatPath(a));
    }
  }

  lemma TreeShape()
    ensures WellShaped(Tree())
  {
    hide Sections;
    SectionsShape(ALL_SECTIONS);
  }

  /** Assigning one attribute changes it and no other. */
  lemma Assigned(root: seq<Field<VName, Val>>, a: Attribute, x: Val)
    requires Shaped(root)
    ensures Shaped(SetAt(root, FlatPath(a), x))
    ensures FlatValues(SetAt(root, FlatPath(a), x)) == FlatValues(root)[a := x]
  {
    hide Locate, ValueAt, SetAt, WellShaped, Tree, Initial, ATTRIBUTES, FlatValues;
    var after := SetAt(root, FlatPath(a), x);
    AttributeLocated(RUNTIME, a);
    SetKeepsShape(root, FlatPath(a), x);
    forall p, q ensures Locate(after, p, q, 0) == Locate(Tree(), p, q, 0) {
      SetThenRead(root, FlatPath(a), x, q, p, 0);
    }
    forall q ensures ValueAt(after, q) == if q == FlatPath(a) then Some(x) else ValueAt(root, q) {
      SetThenRead(root, FlatPath(a), x, q, RUNTIME, 0);
    }
    forall b: Attribute ensures b in FlatValues(after) <==> b in FlatValues(root)[a := x]
      ensures b in FlatValues(after) ==> FlatValues(after)[b] == FlatValues(root)[a := x][b]
    {
      FlatRead(after, b);
      FlatRead(root, b);
    }
  }

  /** The walk never fails on a payload of a valid length, and does what the packet supplies. */
  lemma Walked(root: seq<Field<VName, Val>>, p: Packet, payload: seq<byte>)
    requires Shaped(root)
    ensures var r := IterFields(payload, p, root, 0, []);
      r.Success? && Shaped(ApplyAll(root, r.value)) &&
        FlatValues(ApplyAll(root, r.value)) == FlatValues(root) + Binary(p, payload)
  {
    hide Locate, ValueAt, IterFields, ApplyAll, WellShaped, Tree, Initial, ATTRIBUTES, FlatValues, Supplied, Gated,
      SourceOf, Binary;
    forall q ensures Gated(Locate(root, p, q, 0), payload) ==> Supplied(Locate(root, p, q, 0), payload).Some? {
      TotalDecoders(p, q, payload);
    }
    RefusedIff(payload, p, root);
    var after := ApplyAll(root, IterFields(payload, p, root, 0, []).value);
    forall p2, q ensures Locate(after, p2, q, 0) == Locate(Tree(), p2, q, 0) {
      AfterParse(root, payload, p, q, p2);
    }
    forall q ensures ValueAt(after, q).Some? <==> ValueAt(Tree(), q).Some? {
      AfterParse(root, payload, p, q, p);
      if Locate(root, p, q, 0).Some? {
        LocatedHasValue(root, p, q, 0);
      } else {
        NothingSupplied<Val>(payload);
      }
    }
    AfterParse(root, payload, p, [], p);
    forall a: Attribute ensures a in FlatValues(after) <==> a in FlatValues(root) + Binary(p, payload)
      ensures a in FlatValues(after) ==> FlatValues(after)[a] == (FlatValues(root) + Binary(p, payload))[a]
    {
      FlatRead(after, a);
      FlatRead(root, a);
      AfterParse(root, payload, p, FlatPath(a), p);
      AttributeLocated(p, a);
      BinaryReads(p, payload, a);
      SuppliedReads(p, payload, a);
    }
  }

  // ----- the paths a parse reports -----

  /** The reported paths are those of the attributes in v, each once. */
  ghost predicate Reports(paths: seq<Path<VName>>, v: Values) {
    && (forall q :: q in paths <==> AttributeAt(q).Some? && AttributeAt(q).value in v)
    && NoRepeat(paths)
  }

  lemma ReportMore(paths: seq<Path<VName>>, v: Values, a: Attribute, x: Val)
    requires Reports(paths, v)
    ensures Reports(if FlatPath(a) in paths then paths else paths + [FlatPath(a)], v[a := x])
  {
    hide FlatPath, AttributeAt, NoRepeat;
    var more := if FlatPath(a) in paths then paths else paths + [FlatPath(a)];
    forall q ensures q in more <==> AttributeAt(q).Some? && AttributeAt(q).value in v[a := x] {
      AttributeUnique(q, a);
    }
    if FlatPath(a) !in paths {
      NoRepeatAppend(paths, FlatPath(a));
    }
  }

  lemma AttributeUnique(q: Path<VName>, a: Attribute)
    ensures AttributeAt(q) == Some(a) <==> q == FlatPath(a)
  {
    AttributeLocated(RUNTIME, a);
  }

  lemma ReportOne(a: Attribute, x: Val)
    ensures Reports([FlatPath(a)], map[a := x])
  {
    hide FlatPath;
    ReportMore([], map[], a, x);
    assert [] + [FlatPath(a)] == [FlatPath(a)];
  }

  lemma WalkReports(root: seq<Field<VName, Val>>, p: Packet, payload: seq<byte>, paths: seq<Path<VName>>)
    requires Shaped(root)
    requires var r := IterFields(payload, p, root, 0, []);
      r.Success? && |paths| == |r.value| && forall i | 0 <= i < |paths| :: paths[i] == r.value[i].path
    ensures Reports(paths, Binary(p, payload))
  {
    hide Locate, IterFields, Tree, Initial, Supplied, Gated, SourceOf, Binary, FlatPath, WellShaped, ValueAt;
    var us := IterFields(payload, p, root, 0, []).value;
    FieldsDistinct(payload, p, root, 0, []);
    forall q ensures q in paths <==> Supplied(Locate(Tree(), p, q, 0), payload).Some? {
      FieldsExact(payload, p, root, 0, [], q);
      TotalDecoders(p, q, payload);
      assert [] + q == q;
      LookupMissing(us, q);
      SuppliedIsGated(Locate(Tree(), p, q, 0), payload);
    }
    forall q ensures q in paths <==> AttributeAt(q).Some? && AttributeAt(q).value in Binary(p, payload) {
      TreeLocates(p, q);
      NothingSupplied<Val>(payload);
      if AttributeAt(q).Some? {
        BinaryReads(p, payload, AttributeAt(q).value);
        SuppliedReads(p, payload, AttributeAt(q).value);
      }
    }
  }

  lemma SuppliedIsGated<V>(slot: Option<Slot<V>>, payload: seq<byte>)
    ensures Supplied(slot, payload).Some? ==> Gated(slot, payload) && slot.Some?
  {
  }

  // ----- the code -----

  /** `setattr` on a section. */
  method SetAttribute(data: ProductObject<VName, Val>, a: Attribute, x: Val)
    requires Shaped(data.root)
    modifies data
    ensures Shaped(data.root) && FlatValues(data.root) == FlatValues(old(data.root))[a := x]
  {
    hide Shaped, FlatValues;
    Assigned(data.root, a, x);
    data.root := SetAt(data.root, FlatPath(a), x);
  }

  method ParsePair(item: string, sep: char, keys: map<string, Attribute>, data: ProductObject<VName, Val>,
                   paths0: seq<Path<VName>>, ghost v: Values) returns (paths: seq<Path<VName>>)
    requires Shaped(data.root) && Reports(paths0, v)
    modifies data
    ensures Shaped(data.root) && FlatValues(data.root) == FlatValues(old(data.root)) + OnePair(item, sep, keys)
    ensures Reports(paths, v + OnePair(item, sep, keys))
  {
    hide Shaped, FlatValues, SplitOnce, Strip, Reports, FlatPath;
    paths := paths0;
    assert v + map[] == v;
    var pair := SplitOnce(item, sep);
    if pair.Some? {
      var key, text := Strip(pair.value.0), Strip(pair.value.1);
      if key in keys {
        var a := keys[key];
        SetAttribute(data, a, Str(text));
        assert v + map[a := Str(text)] == v[a := Str(text)];
        ReportMore(paths, v, a, Str(text));
        if FlatPath(a) !in paths {
          paths := paths + [FlatPath(a)];
        }
      }
    }
  }

  /** The loop of `_parse_device_information` and of `_parse_network_information`. */
  method ParsePairs(items: seq<string>, sep: char, keys: map<string, Attribute>, data: ProductObject<VName, Val>,
                    paths0: seq<Path<VName>>, ghost v: Values) returns (paths: seq<Path<VName>>)
    requires Shaped(data.root) && Reports(paths0, v)
    modifies data
    ensures Shaped(data.root) && FlatValues(data.root) == FlatValues(old(data.root)) + Pairs(items, sep, keys)
    ensures Reports(paths, v + Pairs(items, sep, keys))
  {
    hide Shaped, FlatValues, OnePair, Pairs, Reports;
    paths := paths0;
    ghost var before := FlatValues(data.root);
    NoPairs(before, sep, keys);
    NoPairs(v, sep, keys);
    assert items[..0] == [];
    for i := 0 to |items|
      invariant Shaped(data.root) && FlatValues(data.root) == before + Pairs(items[..i], sep, keys)
      invariant Reports(paths, v + Pairs(items[..i], sep, keys))
    {
      PairsStep(before, items, i, sep, keys);
      PairsStep(v, items, i, sep, keys);
      paths := ParsePair(items[i], sep, keys, data, paths, v + Pairs(items[..i], sep, keys));
    }
    assert items[..|items|] == items;
  }

  method ParseOne(data: ProductObject<VName, Val>, a: Attribute, x: Val) returns (paths: seq<Path<VName>>)
    requires Shaped(data.root)
    modifies data
    ensures Shaped(data.root) && FlatValues(data.root) == FlatValues(old(data.root)) + map[a := x]
    ensures Reports(paths, map[a := x])
  {
    hide Shaped, FlatValues, FlatPath, Reports;
    SetAttribute(data, a, x);
    paths := [FlatPath(a)];
    ReportOne(a, x);
  }

  method WalkPacket(p: Packet, payload: seq<byte>, data: ProductObject<VName, Val>) returns (paths: seq<Path<VName>>)
    requires Shaped(data.root) && FitsPacket(p, |payload|)
    modifies data
    ensures Shaped(data.root) && FlatValues(data.root) == FlatValues(old(data.root)) + Binary(p, payload)
    ensures Reports(paths, Binary(p, payload))
  {
    hide Shaped, FlatValues, Binary, Reports;
    ghost var root := data.root;
    Walked(root, p, payload);
    var r := data.ParseInto(payload, p);
    paths := seq(|r.value|, i requires 0 <= i < |r.value| => r.value[i].path);
    WalkReports(root, p, payload, paths);
  }

  /** `ProductRuntime.parse_payload`; a payload whose length is refused raises, which is None here. */
  method ParsePayload(
      command: byte, payload: seq<byte>, data: ProductObject<VName, Val>) returns (r: Option<seq<Path<VName>>>)
    requires Shaped(data.root)
    modifies data
    ensures var d := Decoded(Message(command, payload));
      && (r.Some? <==> d.Some?)
      && Shaped(data.root) && FlatValues(data.root) == FlatValues(old(data.root)) + (if d.Some? then d.value else map[])
      && (r.Some? ==> Reports(r.value, d.value))
  {
    hide Shaped, FlatValues, Binary, Reports, MeterText, ApiText, Pairs, Strip, Split, AsciiIgnore, Decimal;
    var packet := PacketFor(command);
    if packet.None? {
      return None;
    }
    var p := packet.value;
    var valid := ValidatePayload(p, |payload|);
    if valid.Failure? {
      return None;
    }
    var paths: seq<Path<VName>>;
    if command == 0x04 {
      EmptyReport();
      paths := ParsePairs(Split(AsciiIgnore(payload), ','), '=', DEVICE_KEYS, data, [], map[]);
      assert map[] + Pairs(Split(AsciiIgnore(payload), ','), '=', DEVICE_KEYS) ==
        Pairs(Split(AsciiIgnore(payload), ','), '=', DEVICE_KEYS);
    } else if command == 0x08 {
      paths := ParseOne(data, Network(WifiSsid), Str(Strip(AsciiIgnore(payload))));
    } else if command == 0x21 {
      paths := ParseOne(data, Network(MeterIp), Str(MeterText(payload)));
    } else if command == 0x24 {
      paths := ParseNetworkInformation(payload, data);
    } else if command == 0x28 {
      paths := ParseOne(data, Network(LocalApiStatus), Str(ApiText(payload)));
    } else {
      paths := WalkPacket(p, payload, data);
    }
    return Some(paths);
  }

  lemma EmptyReport()
    ensures Reports([], map[])
  {
  }

  method ParseNetworkInformation(payload: seq<byte>, data: ProductObject<VName, Val>) returns (paths: seq<Path<VName>>)
    requires Shaped(data.root)
    modifies data
    ensures Shaped(data.root) && FlatValues(data.root) == FlatValues(old(data.root)) + NetworkValues(payload)
    ensures Reports(paths, NetworkValues(payload))
  {
    hide Shaped, FlatValues, Reports, Pairs, Strip, Split, AsciiIgnore;
    var text := Strip(AsciiIgnore(payload));
    paths := ParseOne(data, Network(NetworkInfo), Str(text));
    paths := ParsePairs(Split(text, ','), ':', NETWORK_KEYS, data, paths, map[Network(NetworkInfo) := Str(text)]);
  }

  /** `ProductProtocol.parse_notification`, with the paths it marks as updated. */
  method ParseNotification(
      frame: seq<byte>, data: ProductObject<VName, Val>) returns (ok: bool, paths: seq<Path<VName>>)
    requires Shaped(data.root)
    modifies data
    ensures ok == FrameUpdate(frame).Some?
    ensures Shaped(data.root)
    ensures FlatValues(data.root) == FlatValues(old(data.root)) + (if ok then FrameUpdate(frame).value else map[])
    ensures Reports(paths, if ok then FrameUpdate(frame).value else map[])
  {
    hide Shaped, FlatValues, Reports, Decoded;
    EmptyReport();
    ok, paths := false, [];
    var envelope := CheckEnvelope(frame);
    if envelope.Failure? {
      return;
    }
    var r := ParsePayload(envelope.value.command, envelope.value.payload, data);
    if r.None? {
      return;
    }
    ok, paths := true, r.value;
  }
}
