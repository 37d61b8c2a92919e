/** The Venus product as an instance of the product runtime: what holds of every sound product over
    whole runs holds of it. */
module VenusFreshness {
  import opened Wrappers
  import opened Paths
  import opened Bytes
  import opened Frames
  import opened Text
  import opened Schema
  import opened PathKeys
  import opened Freshness
  import opened VenusModel
  import opened VenusNames
  import opened VenusProduct

  type VenusUpdate = Update<VName, Val>

  // ----- the payload parsers, as functions -----

  /** The assignments of one item of a text packet. */
  function ItemChanges(item: string, sep: char, keys: map<string, Attribute>): seq<VenusUpdate> {
    match SplitOnce(item, sep)
    case None => []
    case Some(kv) => if Strip(kv.0) in keys then [Update(FlatPath(keys[Strip(kv.0)]), Str(Strip(kv.1)))] else []
  }

  function PairChanges(items: seq<string>, sep: char, keys: map<string, Attribute>): seq<VenusUpdate> {
    if items == [] then []
    else PairChanges(items[..|items| - 1], sep, keys) + ItemChanges(items[|items| - 1], sep, keys)
  }

  /** Each path once, where it occurs first. */
  function Once(paths: seq<Path<VName>>): seq<Path<VName>> {
    if paths == [] then []
    else
      var before := Once(paths[..|paths| - 1]);
      if paths[|paths| - 1] in before then before else before + [paths[|paths| - 1]]
  }

  function Report(us: seq<VenusUpdate>): Option<Parsed<VName, Val>> {
    Some(Parsed(us, Once(PathsOf(us))))
  }

  function ParseDevice(payload: seq<byte>): Option<Parsed<VName, Val>> {
    Report(PairChanges(Split(AsciiIgnore(payload), ','), '=', DEVICE_KEYS))
  }

  function ParseWifi(payload: seq<byte>): Option<Parsed<VName, Val>> {
    Report([Update(FlatPath(Network(WifiSsid)), Str(Strip(AsciiIgnore(payload))))])
  }

  function ParseMeter(payload: seq<byte>): Option<Parsed<VName, Val>> {
    Report([Update(FlatPath(Network(MeterIp)), Str(MeterText(payload)))])
  }

  function ParseNetwork(payload: seq<byte>): Option<Parsed<VName, Val>> {
    var text := Strip(AsciiIgnore(payload));
    Report([Update(FlatPath(Network(NetworkInfo)), Str(text))] + PairChanges(Split(text, ','), ':', NETWORK_KEYS))
  }

  /** Reading past the end of the payload raises. */
  function ParseLocalApi(payload: seq<byte>): Option<Parsed<VName, Val>> {
    if |payload| < 3 then None
    else Report([Update(FlatPath(Network(LocalApiStatus)), Str(ApiText(payload)))])
  }

  // ----- the alias hook -----

  function CellName(i: nat): string {
    "cell_" + Decimal(i + 1) + "_voltage"
  }

  function VenusAliases(path: Path<string>): seq<string> {
    BaseAliases(path) +
    if path == [Name("battery"), Name("cell_voltages")]
    then seq(16, i requires 0 <= i < 16 => CellName(i)) else []
  }

  lemma CellNameIsPlain(i: nat)
    ensures '.' !in CellName(i)
  {
    DecimalReads(i + 1);
  }

  /** No alias of a Venus field has a dot in it. */
  lemma VenusAliasesArePlain(path: Path<string>)
    requires WellNamed(path)
    ensures forall k | k in VenusAliases(path) :: '.' !in k
  {
    hide CellName;
    BaseAliasesArePlain(path);
    forall i: nat | i < 16 ensures '.' !in CellName(i) {
      CellNameIsPlain(i);
    }
  }

  // ----- the product -----

  const PACKETS: map<byte, Packet> := map[
    0x03 := RUNTIME, 0x04 := DEVICE, 0x08 := WIFI, 0x0D := SYSTEM, 0x13 := TIMER, 0x14 := BMS,
    0x1A := CONFIG, 0x21 := METER, 0x22 := CT, 0x24 := NETWORK, 0x28 := LOCAL_API]

  const PARSERS: map<byte, seq<byte> -> Option<Parsed<VName, Val>>> := map[
    0x04 := ParseDevice, 0x08 := ParseWifi, 0x21 := ParseMeter, 0x24 := ParseNetwork, 0x28 := ParseLocalApi]

  /** `VENUS_RUNTIME`. */
  const VENUS: Product<VName, Val> :=
    Product(PACKETS, PARSERS, path => VenusAliases(Rendered(path, VenusText)), VenusText)

  // ----- it is sound -----

  /** No path is reported twice, and what was reported first stays first. */
  lemma {:induction false} OnceDistinct(paths: seq<Path<VName>>, q: Path<VName>)
    ensures forall i, j | 0 <= i < j < |Once(paths)| :: Once(paths)[i] != Once(paths)[j]
    ensures Once(paths + [q]) == if q in paths then Once(paths) else Once(paths) + [q]
  {
    assert (paths + [q])[..|paths|] == paths;
    OnceKeeps(paths, q);
    if paths == [] {
    } else {
      OnceDistinct(paths[..|paths| - 1], q);
    }
  }

  lemma {:induction false} OnceKeeps(paths: seq<Path<VName>>, q: Path<VName>)
    ensures q in Once(paths) <==> q in paths
  {
    if paths == [] {
    } else {
      OnceKeeps(paths[..|paths| - 1], q);
      OnceKeeps(paths[..|paths| - 1], paths[|paths| - 1]);
      assert paths == paths[..|paths| - 1] + [paths[|paths| - 1]];
    }
  }

  /** Assignments to attributes are honestly reported. */
  lemma ReportIsHonest(us: seq<VenusUpdate>)
    requires forall u | u in us :: AttributeAt(u.path).Some?
    ensures Honest(Tree(), Report(us).value)
  {
    hide Tree, Once, PathsOf, AttributeAt;
    forall u | u in us ensures ValueAt(Tree(), u.path).Some? {
      TreeLocates(RUNTIME, u.path);
    }
    forall q ensures q in Once(PathsOf(us)) <==> LastOf(us, q).Some? {
      OnceKeeps(PathsOf(us), q);
      LastOfChanges(us, q);
    }
  }

  lemma {:induction false} PairChangesAreFlat(items: seq<string>, sep: char, keys: map<string, Attribute>)
    ensures forall u | u in PairChanges(items, sep, keys) :: AttributeAt(u.path).Some?
  {
    hide Strip, SplitOnce, AttributeAt, FlatPath;
    if items == [] {
    } else {
      PairChangesAreFlat(items[..|items| - 1], sep, keys);
      forall a ensures AttributeAt(FlatPath(a)) == Some(a) {
        AttributeLocated(RUNTIME, a);
      }
    }
  }

  lemma ParsersAreHonest(c: byte, payload: seq<byte>)
    requires c in PARSERS && PARSERS[c](payload).Some?
    ensures Honest(Tree(), PARSERS[c](payload).value)
  {
    hide Honest, Report, Tree, AttributeAt, FlatPath, Strip, AsciiIgnore, Split, MeterText, ApiText, PairChanges;
    forall a ensures AttributeAt(FlatPath(a)) == Some(a) {
      AttributeLocated(RUNTIME, a);
    }
    if c == 0x04 {
      var us := PairChanges(Split(AsciiIgnore(payload), ','), '=', DEVICE_KEYS);
      PairChangesAreFlat(Split(AsciiIgnore(payload), ','), '=', DEVICE_KEYS);
      ReportIsHonest(us);
    } else if c == 0x08 {
      ReportIsHonest([Update(FlatPath(Network(WifiSsid)), Str(Strip(AsciiIgnore(payload))))]);
    } else if c == 0x21 {
      ReportIsHonest([Update(FlatPath(Network(MeterIp)), Str(MeterText(payload)))]);
    } else if c == 0x24 {
      var text := Strip(AsciiIgnore(payload));
      PairChangesAreFlat(Split(text, ','), ':', NETWORK_KEYS);
      ReportIsHonest([Update(FlatPath(Network(NetworkInfo)), Str(text))] +
        PairChanges(Split(text, ','), ':', NETWORK_KEYS));
    } else {
      ReportIsHonest([Update(FlatPath(Network(LocalApiStatus)), Str(ApiText(payload)))]);
    }
  }

  /** Venus is a sound product. */
  lemma VenusIsSound()
    ensures Sound(VENUS, Tree())
  {
    hide Tree, Honest, PARSERS, PACKETS, Rendered, WellNamed, VenusAliases, ValueAt, AttributeAt, WellShaped;
    TreeShape();
    forall q | ValueAt(Tree(), q).Some?
      ensures WellNamed(Rendered(q, VENUS.text)) && forall k | k in VENUS.aliases(q) :: '.' !in k
    {
      TreeLocates(RUNTIME, q);
      FlatPathsDiffer(AttributeAt(q).value, AttributeAt(q).value);
      VenusAliasesArePlain(Rendered(q, VenusText));
    }
    forall q, r | ValueAt(Tree(), q).Some? && ValueAt(Tree(), r).Some? &&
      Rendered(q, VENUS.text) == Rendered(r, VENUS.text)
      ensures q == r
    {
      TreeLocates(RUNTIME, q);
      TreeLocates(RUNTIME, r);
      FlatPathsDiffer(AttributeAt(q).value, AttributeAt(r).value);
    }
    forall c, payload | c in PARSERS && PARSERS[c](payload).Some? ensures Honest(Tree(), PARSERS[c](payload).value) {
      ParsersAreHonest(c, payload);
    }
  }

  // ----- and supplies what the messages supply -----

  function At(v: Values, a: Attribute): Option<Val> {
    if a in v then Some(v[a]) else None
  }

  lemma {:induction false} PairChangesExact(items: seq<string>, sep: char, keys: map<string, Attribute>, a: Attribute)
    ensures LastOf(PairChanges(items, sep, keys), FlatPath(a)) == At(Pairs(items, sep, keys), a)
  {
    hide Strip, SplitOnce, FlatPath;
    if items == [] {
    } else {
      var init, item := items[..|items| - 1], items[|items| - 1];
      PairChangesExact(init, sep, keys, a);
      LastOfJoin(PairChanges(init, sep, keys), ItemChanges(item, sep, keys), FlatPath(a));
      ItemChangesExact(item, sep, keys, a);
    }
  }

  lemma ItemChangesExact(item: string, sep: char, keys: map<string, Attribute>, a: Attribute)
    ensures LastOf(ItemChanges(item, sep, keys), FlatPath(a)) == At(OnePair(item, sep, keys), a)
  {
    hide Strip, FlatPath;
    match SplitOnce(item, sep)
    case None =>
    case Some(kv) =>
      if Strip(kv.0) in keys {
        OneChange(keys[Strip(kv.0)], Str(Strip(kv.1)), a);
      }
  }

  lemma OneChange(b: Attribute, x: Val, a: Attribute)
    ensures LastOf([Update(FlatPath(b), x)], FlatPath(a)) == At(map[b := x], a)
  {
    hide FlatPath, AttributeAt, LastOf;
    AttributeUnique(FlatPath(b), a);
    AttributeUnique(FlatPath(b), b);
    LastOfOne(FlatPath(b), x, FlatPath(a));
  }

  lemma NetworkChangesExact(payload: seq<byte>, a: Attribute)
    ensures LastOf(ParseNetwork(payload).value.changes, FlatPath(a)) == At(NetworkValues(payload), a)
  {
    hide FlatPath, Strip, AsciiIgnore, Split, Pairs, PairChanges;
    var text := Strip(AsciiIgnore(payload));
    OneChange(Network(NetworkInfo), Str(text), a);
    PairChangesExact(Split(text, ','), ':', NETWORK_KEYS, a);
    LastOfJoin([Update(FlatPath(Network(NetworkInfo)), Str(text))], PairChanges(Split(text, ','), ':', NETWORK_KEYS),
      FlatPath(a));
  }

  lemma WalkChangesExact(p: Packet, payload: seq<byte>, a: Attribute)
    ensures var r := IterFields(payload, p, Tree(), 0, []);
      r.Success? && LastOf(r.value, FlatPath(a)) == At(Binary(p, payload), a)
  {
    hide Tree, IterFields, FlatPath, Binary, LastOf, Supplied;
    FreshTree();
    Walked(Tree(), p, payload);
    WalkIsHonest(Tree(), p, payload);
    AttributeLocated(p, a);
    BinaryReads(p, payload, a);
    SuppliedReads(p, payload, a);
  }

  /** The runtime accepts and supplies exactly what the message supplies. */
  lemma VenusDecodes(m: Message, a: Attribute)
    ensures var parsed := Decode(VENUS, Tree(), m);
      && (parsed.Some? <==> Decoded(m).Some?)
      && (parsed.Some? ==> LastOf(parsed.value.changes, FlatPath(a)) == At(Decoded(m).value, a))
  {
    hide Tree, FlatPath, Binary, LastOf, NetworkValues, Pairs, MeterText, ApiText, Strip, AsciiIgnore, Split,
      PairChanges, IterFields, At;
    var c, payload := m.command, m.payload;
    assert c in PACKETS <==> PacketFor(c).Some?;
    if c in PACKETS && FitsPacket(PACKETS[c], |payload|) {
      if c == 0x04 {
        PairChangesExact(Split(AsciiIgnore(payload), ','), '=', DEVICE_KEYS, a);
      } else if c == 0x08 {
        OneChange(Network(WifiSsid), Str(Strip(AsciiIgnore(payload))), a);
      } else if c == 0x21 {
        OneChange(Network(MeterIp), Str(MeterText(payload)), a);
      } else if c == 0x24 {
        NetworkChangesExact(payload, a);
      } else if c == 0x28 {
        OneChange(Network(LocalApiStatus), Str(ApiText(payload)), a);
      } else {
        WalkChangesExact(PACKETS[c], payload, a);
      }
    }
  }

  lemma VenusSupplies(frame: seq<byte>, a: Attribute)
    ensures Supplies(VENUS, Tree(), frame, FlatPath(a))
      == if FrameUpdate(frame).Some? then At(FrameUpdate(frame).value, a) else None
  {
    hide Tree, FlatPath, LastOf, Decode, Decoded, IsFrame;
    if IsFrame(frame) {
      VenusDecodes(MessageOf(frame), a);
    }
  }

  /** After any frames at any times, every attribute has the value of the last frame that supplied it,
      and its entry names that frame; an attribute never supplied is at its default, without an entry. */
  lemma VenusIsFresh(arrivals: seq<Arrival>, a: Attribute)
    ensures var s, last :=
      Run(VENUS, State(Tree(), map[]), arrivals), LastSupplier(VENUS, Tree(), arrivals, FlatPath(a));
      var key := DottedPath(VENUS, FlatPath(a));
      if last.None? then
        ValueAt(s.root, FlatPath(a)) == Some(Initial(a)) && key !in s.updates
      else
        var frame := arrivals[last.value].frame;
        && FrameUpdate(frame).Some? && a in FrameUpdate(frame).value
        && ValueAt(s.root, FlatPath(a)) == Some(FrameUpdate(frame).value[a])
        && key in s.updates && NamesArrival(s.updates[key], arrivals[last.value])
  {
    hide Tree, Sound, Run, ValueAt, Supplies, FrameUpdate, IsFrame, DottedPath, SectionOf, Initial;
    VenusIsSound();
    AttributeLocated(RUNTIME, a);
    ValueAndMetadataAgree(VENUS, Tree(), arrivals, FlatPath(a));
    var last := LastSupplier(VENUS, Tree(), arrivals, FlatPath(a));
    if last.Some? {
      VenusSupplies(arrivals[last.value].frame, a);
    }
  }

  /** Besides its dotted key an attribute has its own name as a key, and the cells one key each. */
  lemma VenusKeys(a: Attribute, k: string)
    ensures k in Keys(VENUS, FlatPath(a)) <==>
      || k == SectionText(SectionOf(a)) + "." + AttributeText(a)
      || k == AttributeText(a)
      || (a == Battery(CellVoltages) && exists n: nat :: 1 <= n <= 16 && k == "cell_" + Decimal(n) + "_voltage")
  {
    hide SectionText, AttributeText, CellName, SectionOf, FlatPath, Rendered;
    RenderedFlat(a);
    var path := Rendered(FlatPath(a), VenusText);
    assert path[1..] == [Name(AttributeText(a))];
    assert PathKey(path) == SectionText(SectionOf(a)) + "." + AttributeText(a);
    assert BaseAliases(path) == [AttributeText(a)];
    CellsPath(a);
    CellNames(k);
  }

  lemma CellsPath(a: Attribute)
    ensures Rendered(FlatPath(a), VenusText) == [Name("battery"), Name("cell_voltages")] <==> a == Battery(CellVoltages)
  {
    hide SectionText, AttributeText, SectionOf, FlatPath, Rendered;
    var c := Battery(CellVoltages);
    RenderedFlat(c);
    assert Rendered(FlatPath(c), VenusText) == [Name("battery"), Name("cell_voltages")] by {
      CellsText();
    }
    FlatPathsDiffer(a, c);
  }

  lemma CellsText()
    ensures SectionText(SectionOf(Battery(CellVoltages))) == "battery"
    ensures AttributeText(Battery(CellVoltages)) == "cell_voltages"
  {
  }

  lemma CellNames(k: string)
    ensures k in seq(16, i requires 0 <= i < 16 => CellName(i)) <==>
      exists n: nat :: 1 <= n <= 16 && k == "cell_" + Decimal(n) + "_voltage"
  {
    hide Decimal;
    var names := seq(16, i requires 0 <= i < 16 => CellName(i));
    forall n: nat | 1 <= n <= 16 ensures "cell_" + Decimal(n) + "_voltage" in names {
      assert names[n - 1] == CellName(n - 1);
    }
    if k in names {
      var i :| 0 <= i < 16 && names[i] == k;
      assert k == "cell_" + Decimal(i + 1) + "_voltage";
    }
  }
}
