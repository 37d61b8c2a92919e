/** The custom payload parsers of the Jupiter runtime, the second instance of the product runtime.
    Number parsing and UTF-8 decoding are parameters. */
module Jupiter {
  import opened Wrappers
  import opened Paths
  import opened Bytes
  import opened Frames
  import opened Schema
  import opened Text
  import opened PathKeys
  import opened Freshness

  datatype JupiterValue = Nothing | Words(text: string) | Number(number: int)

  const IDENTITY_FIELDS: seq<(string, string)> := [("type", "device_type"), ("id", "device_id"), ("mac", "mac_address")]

  const VERSION_FIELDS: seq<(string, string)> := [
    ("ems_v", "ems_firmware_version"), ("inv_v", "inverter_firmware_version"),
    ("mppt_v", "mppt_firmware_version"), ("bms_v", "bms_firmware_version")]

  predicate IsAscii(b: seq<byte>) {
    forall x | x in b :: x < 0x80
  }

  /** The `key=value` items as a dictionary; a later item overwrites an earlier one. */
  function Table(items: seq<string>): map<string, string> {
    if items == [] then map[]
    else
      var rest := Table(items[..|items| - 1]);
      match SplitOnce(items[|items| - 1], '=')
      case None => rest
      case Some(kv) => rest[Strip(kv.0) := Strip(kv.1)]
  }

  function PathOf(section: string, attribute: string): Path<string> {
    [Name(section), Name(attribute)]
  }

  function First(
      field: (string, string), section: string, table: map<string, string>,
      read: string -> Option<JupiterValue>): seq<Update<string, JupiterValue>> {
    if field.0 in table && read(table[field.0]).Some?
    then [Update(PathOf(section, field.1), read(table[field.0]).value)] else []
  }

  /** What the fields of a list take from the dictionary; a value that `read` refuses is passed over. */
  function Taken(
      fields: seq<(string, string)>, section: string, table: map<string, string>,
      read: string -> Option<JupiterValue>): seq<Update<string, JupiterValue>> {
    if fields == [] then []
    else First(fields[0], section, table, read) + Taken(fields[1..], section, table, read)
  }

  const AS_TEXT: string -> Option<JupiterValue> := s => Some(Words(s))

  function AsNumber(intOf: string -> Option<int>): string -> Option<JupiterValue> {
    s => match intOf(s) case Some(n) => Some(Number(n)) case None => None
  }

  /** `_parse_device_information`: a payload that is not ASCII is accepted and changes nothing. */
  function DeviceInformation(payload: seq<byte>, intOf: string -> Option<int>): Parsed<string, JupiterValue> {
    if !IsAscii(payload) then Parsed([], [])
    else
      var table := Table(Split(AsciiIgnore(payload), ','));
      var us := Taken(IDENTITY_FIELDS, "identity", table, AS_TEXT) +
        Taken(VERSION_FIELDS, "runtime", table, AsNumber(intOf));
      Parsed(us, PathsOf(us))
  }

  /** `_parse_wifi_ssid`. */
  function WifiSsid(payload: seq<byte>, utf8: seq<byte> -> Option<string>): Parsed<string, JupiterValue> {
    match utf8(payload)
    case None => Parsed([], [])
    case Some(s) =>
      var us := [Update(PathOf("identity", "wifi_ssid"), Words(StripRight(s, c => c == 0 as char)))];
      Parsed(us, PathsOf(us))
  }

  // ----- the code -----

  method ParseDeviceInformation(
      payload: seq<byte>, intOf: string -> Option<int>) returns (r: Parsed<string, JupiterValue>)
    ensures r == DeviceInformation(payload, intOf)
  {
    hide Strip, SplitOnce, Split, AsciiIgnore;
    if exists x | x in payload :: 0x80 <= x {
      return Parsed([], []);
    }
    var items := Split(AsciiIgnore(payload), ',');
    var values: map<string, string> := map[];
    assert items[..0] == [];
    for i := 0 to |items|
      invariant values == Table(items[..i])
    {
      assert items[..i + 1][..i] == items[..i];
      var pair := SplitOnce(items[i], '=');
      if pair.Some? {
        values := values[Strip(pair.value.0) := Strip(pair.value.1)];
      }
    }
    assert items[..|items|] == items;
    var identity := Take(IDENTITY_FIELDS, "identity", values, AS_TEXT);
    var versions := Take(VERSION_FIELDS, "runtime", values, AsNumber(intOf));
    var us := identity + versions;
    return Parsed(us, PathsOf(us));
  }

  method Take(
      fields: seq<(string, string)>, section: string, table: map<string, string>,
      read: string -> Option<JupiterValue>) returns (us: seq<Update<string, JupiterValue>>)
    ensures us == Taken(fields, section, table, read)
  {
    hide PathOf, Taken;
    us := [];
    TakenNothing(section, table, read);
    assert fields[0..] == fields && fields[|fields|..] == [];
    for i := 0 to |fields|
      invariant us + Taken(fields[i..], section, table, read) == Taken(fields, section, table, read)
    {
      TakenStep(fields, i, section, table, read);
      ghost var before := us;
      if fields[i].0 in table {
        var value := read(table[fields[i].0]);
        if value.Some? {
          us := us + [Update(PathOf(section, fields[i].1), value.value)];
        }
      }
      assert us == before + First(fields[i], section, table, read);
    }
  }

  lemma TakenStep(
      fields: seq<(string, string)>, i: nat, section: string, table: map<string, string>,
      read: string -> Option<JupiterValue>)
    requires i < |fields|
    ensures Taken(fields[i..], section, table, read) ==
      First(fields[i], section, table, read) + Taken(fields[i + 1..], section, table, read)
  {
    hide First;
    assert fields[i..][0] == fields[i] && fields[i..][1..] == fields[i + 1..];
  }

  lemma TakenNothing(section: string, table: map<string, string>, read: string -> Option<JupiterValue>)
    ensures Taken([], section, table, read) == []
  {
  }

  // ----- what they supply -----

  lemma {:induction false} TakenPaths(
      fields: seq<(string, string)>, section: string, table: map<string, string>,
      read: string -> Option<JupiterValue>, attribute: string)
    requires forall field | field in fields :: field.1 != attribute
    ensures LastOf(Taken(fields, section, table, read), PathOf(section, attribute)).None?
  {
    hide PathOf;
    if fields == [] {
    } else {
      TakenPaths(fields[1..], section, table, read, attribute);
      LastOfFirst(fields[0], section, table, read, attribute);
      LastOfJoin(First(fields[0], section, table, read), Taken(fields[1..], section, table, read),
        PathOf(section, attribute));
    }
  }

  lemma LastOfFirst(
      field: (string, string), section: string, table: map<string, string>,
      read: string -> Option<JupiterValue>, attribute: string)
    ensures LastOf(First(field, section, table, read), PathOf(section, attribute)) ==
      if field.1 == attribute && field.0 in table then read(table[field.0]) else None
  {
    assert PathOf(section, attribute)[1] == Name(attribute) && PathOf(section, field.1)[1] == Name(field.1);
  }

  /** Attributes of a list are assigned at most once, each from its own key. */
  lemma {:induction false} TakenExact(
      fields: seq<(string, string)>, section: string, table: map<string, string>,
      read: string -> Option<JupiterValue>, k: nat)
    requires k < |fields| && forall i, j | 0 <= i < j < |fields| :: fields[i].1 != fields[j].1
    ensures LastOf(Taken(fields, section, table, read), PathOf(section, fields[k].1))
      == if fields[k].0 in table then read(table[fields[k].0]) else None
  {
    hide PathOf, First, LastOf;
    LastOfFirst(fields[0], section, table, read, fields[k].1);
    LastOfJoin(First(fields[0], section, table, read), Taken(fields[1..], section, table, read),
      PathOf(section, fields[k].1));
    if k == 0 {
      TakenPaths(fields[1..], section, table, read, fields[0].1);
    } else {
      TakenExact(fields[1..], section, table, read, k - 1);
    }
  }

  lemma DistinctAttributes()
    ensures forall i, j | 0 <= i < j < |IDENTITY_FIELDS| :: IDENTITY_FIELDS[i].1 != IDENTITY_FIELDS[j].1
    ensures forall i, j | 0 <= i < j < |VERSION_FIELDS| :: VERSION_FIELDS[i].1 != VERSION_FIELDS[j].1
  {
    var a, b, c := IDENTITY_FIELDS[0].1, IDENTITY_FIELDS[1].1, IDENTITY_FIELDS[2].1;
    assert |a| == 11 && |b| == 9 && |c| == 11 && a[0] != c[0];
    var p, q, r, t := VERSION_FIELDS[0].1, VERSION_FIELDS[1].1, VERSION_FIELDS[2].1, VERSION_FIELDS[3].1;
    assert p[0] == 'e' && q[0] == 'i' && r[0] == 'm' && t[0] == 'b';
  }

  lemma {:induction false} OtherSection(
      fields: seq<(string, string)>, section: string, table: map<string, string>,
      read: string -> Option<JupiterValue>, q: Path<string>)
    requires q != [] && q[0] != Name(section)
    ensures LastOf(Taken(fields, section, table, read), q).None?
  {
    if fields == [] {
    } else {
      OtherSection(fields[1..], section, table, read, q);
      LastOfJoin(First(fields[0], section, table, read), Taken(fields[1..], section, table, read), q);
    }
  }

  /** Only the listed attributes are assigned. */
  lemma {:induction false} TakenIsListed(
      fields: seq<(string, string)>, section: string, table: map<string, string>,
      read: string -> Option<JupiterValue>, q: Path<string>)
    requires LastOf(Taken(fields, section, table, read), q).Some?
    ensures exists field :: field in fields && q == PathOf(section, field.1)
  {
    hide PathOf;
    LastOfJoin(First(fields[0], section, table, read), Taken(fields[1..], section, table, read), q);
    if LastOf(Taken(fields[1..], section, table, read), q).Some? {
      TakenIsListed(fields[1..], section, table, read, q);
      var field :| field in fields[1..] && q == PathOf(section, field.1);
      assert field in fields;
    } else {
      assert fields[0] in fields;
    }
  }

  /** The paths returned are those of the fields set, and these are among the seven. */
  lemma DeviceInformationPaths(payload: seq<byte>, intOf: string -> Option<int>, q: Path<string>)
    ensures var parsed := DeviceInformation(payload, intOf);
      && (q in parsed.paths <==> LastOf(parsed.changes, q).Some?)
      && (q in parsed.paths ==>
            || (exists field :: field in IDENTITY_FIELDS && q == PathOf("identity", field.1))
            || (exists field :: field in VERSION_FIELDS && q == PathOf("runtime", field.1)))
  {
    hide Taken, LastOf, IDENTITY_FIELDS, VERSION_FIELDS, Table, Split, AsciiIgnore, PathOf;
    var parsed := DeviceInformation(payload, intOf);
    LastOfChanges(parsed.changes, q);
    if q in parsed.paths {
      var table := Table(Split(AsciiIgnore(payload), ','));
      var identity := Taken(IDENTITY_FIELDS, "identity", table, AS_TEXT);
      var versions := Taken(VERSION_FIELDS, "runtime", table, AsNumber(intOf));
      LastOfJoin(identity, versions, q);
      if LastOf(versions, q).Some? {
        TakenIsListed(VERSION_FIELDS, "runtime", table, AsNumber(intOf), q);
      } else {
        TakenIsListed(IDENTITY_FIELDS, "identity", table, AS_TEXT, q);
      }
    }
  }

  /** Device information sets each identity attribute to the last text given for its key and each
      version to the last number given for it, and nothing where the key is missing or no number;
      the paths it returns are those of the fields it sets, and there are no
      others than these seven. */
  lemma DeviceInformationExact(payload: seq<byte>, intOf: string -> Option<int>, k: nat, q: Path<string>)
    requires k < 4
    ensures var parsed, table := DeviceInformation(payload, intOf), Table(Split(AsciiIgnore(payload), ','));
      && (q in parsed.paths <==> LastOf(parsed.changes, q).Some?)
      && (q in parsed.paths ==>
            || (exists field :: field in IDENTITY_FIELDS && q == PathOf("identity", field.1))
            || (exists field :: field in VERSION_FIELDS && q == PathOf("runtime", field.1)))
      && (k < 3 ==>
            LastOf(parsed.changes, PathOf("identity", IDENTITY_FIELDS[k].1)) ==
              if IsAscii(payload) && IDENTITY_FIELDS[k].0 in table
              then Some(Words(table[IDENTITY_FIELDS[k].0])) else None)
      && (LastOf(parsed.changes, PathOf("runtime", VERSION_FIELDS[k].1)) ==
            if IsAscii(payload) && VERSION_FIELDS[k].0 in table
            then AsNumber(intOf)(table[VERSION_FIELDS[k].0]) else None)
  {
    hide Taken, LastOf, IDENTITY_FIELDS, VERSION_FIELDS, Table, Split, AsciiIgnore;
    LengthOfTables();
    DeviceInformationPaths(payload, intOf, q);
    var parsed, table := DeviceInformation(payload, intOf), Table(Split(AsciiIgnore(payload), ','));
    NothingLast<string, JupiterValue>(PathOf("identity", IDENTITY_FIELDS[if k < 3 then k else 0].1));
    NothingLast<string, JupiterValue>(PathOf("runtime", VERSION_FIELDS[k].1));
    if IsAscii(payload) {
      DistinctAttributes();
      var identity := Taken(IDENTITY_FIELDS, "identity", table, AS_TEXT);
      var versions := Taken(VERSION_FIELDS, "runtime", table, AsNumber(intOf));
      if k < 3 {
        var path := PathOf("identity", IDENTITY_FIELDS[k].1);
        TakenExact(IDENTITY_FIELDS, "identity", table, AS_TEXT, k);
        SectionsDiffer();
        OtherSection(VERSION_FIELDS, "runtime", table, AsNumber(intOf), path);
        LastOfJoin(identity, versions, path);
      }
      var path := PathOf("runtime", VERSION_FIELDS[k].1);
      TakenExact(VERSION_FIELDS, "runtime", table, AsNumber(intOf), k);
      SectionsDiffer();
      OtherSection(IDENTITY_FIELDS, "identity", table, AS_TEXT, path);
      LastOfJoin(identity, versions, path);
    }
  }

  lemma SectionsDiffer()
    ensures "identity" != "runtime"
  {
    assert "identity"[0] != "runtime"[0];
  }

  lemma LengthOfTables()
    ensures |IDENTITY_FIELDS| == 3 && |VERSION_FIELDS| == 4
  {
  }

  lemma NothingLast<N, V>(q: Path<N>)
    ensures LastOf<N, V>([], q).None?
  {
  }

  /** The network name, without trailing zero bytes; a payload that is not UTF-8 changes nothing. */
  lemma WifiSsidExact(payload: seq<byte>, utf8: seq<byte> -> Option<string>, q: Path<string>)
    ensures var parsed := WifiSsid(payload, utf8);
      && (q in parsed.paths <==> LastOf(parsed.changes, q).Some?)
      && LastOf(parsed.changes, q) ==
           if utf8(payload).Some? && q == PathOf("identity", "wifi_ssid")
           then Some(Words(StripRight(utf8(payload).value, c => c == 0 as char))) else None
  {
    LastOfChanges(WifiSsid(payload, utf8).changes, q);
  }

  // ----- the alias hook -----

  /** `_FLAT_PATHS`, in three parts. */
  const FLAT_BATTERY: seq<(string, Path<string>)> := [
    ("battery_voltage", PathOf("battery", "voltage")),
    ("battery_current", PathOf("battery", "current")),
    ("battery_soc", PathOf("runtime", "battery_soc")),
    ("battery_soh", PathOf("battery", "soh")),
    ("battery_temp", PathOf("battery", "temperature")),
    ("design_capacity", PathOf("battery", "rated_capacity")),
    ("grid_power", PathOf("runtime", "ac_output_power")),
    ("out1_power", PathOf("runtime", "ac_output_power")),
    ("daily_energy_discharged", PathOf("energy", "daily_output_energy"))]

  const FLAT_RUNTIME: seq<(string, Path<string>)> := [
    ("monthly_energy_discharged", PathOf("energy", "monthly_output_energy")),
    ("total_energy_discharged", PathOf("energy", "local_total_output_energy")),
    ("mosfet_temp", PathOf("battery", "mosfet_temperature")),
    ("temp_sensor_1", PathOf("battery", "temp_sensor_1")),
    ("temp_sensor_2", PathOf("battery", "temp_sensor_2")),
    ("temp_sensor_3", PathOf("battery", "temp_sensor_3")),
    ("temp_sensor_4", PathOf("battery", "temp_sensor_4")),
    ("bms_version", PathOf("runtime", "bms_firmware_version")),
    ("voltage_limit", PathOf("battery", "charge_voltage_limit"))]

  const FLAT_DETAILS: seq<(string, Path<string>)> := [
    ("charge_current_limit", PathOf("battery", "charge_current_limit")),
    ("discharge_current_limit", PathOf("battery", "discharge_current_limit")),
    ("error_code", PathOf("battery", "error_code_1")),
    ("warning_code", PathOf("battery", "warning_code_1")),
    ("device_type", PathOf("identity", "device_type")),
    ("device_id", PathOf("identity", "device_id")),
    ("mac_address", PathOf("identity", "mac_address")),
    ("wifi_ssid", PathOf("identity", "wifi_ssid")),
    ("out1_active", PathOf("runtime", "ac_output_active"))]

  const FLAT_PATHS := FLAT_BATTERY + FLAT_RUNTIME + FLAT_DETAILS

  /** The names that a flat table gives for a path. */
  function FlatNames(flat: seq<(string, Path<string>)>, path: Path<string>): seq<string> {
    if flat == [] then [] else (if flat[0].1 == path then [flat[0].0] else []) + FlatNames(flat[1..], path)
  }

  function JupiterAliases(path: Path<string>): seq<string> {
    BaseAliases(path) + FlatNames(FLAT_PATHS, path)
    + (if path != [] && path[0] == Name("pv_inputs") && path[|path| - 1] == Name("power") then ["solar_power"] else [])
    + (if path == PathOf("runtime", "battery_soc") || path == PathOf("battery", "rated_capacity")
       then ["remaining_capacity", "available_capacity"] else [])
  }

  predicate PlainNames(flat: seq<(string, Path<string>)>) {
    forall entry | entry in flat :: '.' !in entry.0
  }

  lemma FlatBatteryIsPlain()
    ensures PlainNames(FLAT_BATTERY)
  {
    hide PathOf;
  }

  lemma FlatRuntimeIsPlain()
    ensures PlainNames(FLAT_RUNTIME)
  {
    hide PathOf;
  }

  lemma FlatDetailsArePlain()
    ensures PlainNames(FLAT_DETAILS)
  {
    hide PathOf;
  }

  lemma {:induction false} FlatNamesArePlain(flat: seq<(string, Path<string>)>, path: Path<string>)
    requires PlainNames(flat)
    ensures forall k | k in FlatNames(flat, path) :: '.' !in k
  {
    if flat == [] {
    } else {
      FlatNamesArePlain(flat[1..], path);
    }
  }

  /** No alias of a Jupiter field has a dot in it. */
  lemma JupiterAliasesArePlain(path: Path<string>)
    requires WellNamed(path)
    ensures forall k | k in JupiterAliases(path) :: '.' !in k
  {
    hide FLAT_BATTERY, FLAT_RUNTIME, FLAT_DETAILS, FlatNames, BaseAliases;
    BaseAliasesArePlain(path);
    FlatBatteryIsPlain();
    FlatRuntimeIsPlain();
    FlatDetailsArePlain();
    FlatNamesArePlain(FLAT_PATHS, path);
    ExtraNamesArePlain();
  }

  lemma {:induction false} FlatNamesExact(flat: seq<(string, Path<string>)>, path: Path<string>, k: string)
    ensures k in FlatNames(flat, path) <==> (k, path) in flat
  {
    if flat == [] {
    } else {
      FlatNamesExact(flat[1..], path, k);
      assert flat == [flat[0]] + flat[1..];
    }
  }

  /** The aliases of a Jupiter field: its own name, its flat names, and the names of what is derived
      from it. */
  lemma JupiterAliasesExact(path: Path<string>, k: string)
    requires path != []
    ensures k in JupiterAliases(path) <==>
      || k == Part(path[|path| - 1])
      || (k, path) in FLAT_PATHS
      || (k == "solar_power" && path[0] == Name("pv_inputs") && path[|path| - 1] == Name("power"))
      || ((k == "remaining_capacity" || k == "available_capacity") &&
           (path == PathOf("runtime", "battery_soc") || path == PathOf("battery", "rated_capacity")))
  {
    hide FLAT_PATHS, PathOf;
    FlatNamesExact(FLAT_PATHS, path, k);
  }

  lemma ExtraNamesArePlain()
    ensures '.' !in "solar_power" && '.' !in "remaining_capacity" && '.' !in "available_capacity"
  {
  }

  // ----- the product -----

  const JUPITER_PACKETS: map<byte, Packet> := map[
    0x03 := Packet("jupiter_runtime_information", 0x03, 74, Some(74)),
    0x04 := Packet("jupiter_device_information", 0x04, 0, None),
    0x08 := Packet("jupiter_wifi_ssid", 0x08, 0, None),
    0x0D := Packet("jupiter_unresolved_status", 0x0D, 12, Some(12)),
    0x13 := Packet("jupiter_event_history", 0x13, 160, Some(160)),
    0x14 := Packet("jupiter_detailed_telemetry", 0x14, 166, Some(166)),
    0x21 := Packet("jupiter_raw_status_21", 0x21, 1, Some(1)),
    0x22 := Packet("jupiter_raw_status_22", 0x22, 1, Some(1)),
    0x24 := Packet("jupiter_raw_status_24", 0x24, 1, Some(1))]

  /** `JUPITER_RUNTIME`. */
  function JupiterProduct(
      intOf: string -> Option<int>, utf8: seq<byte> -> Option<string>): Product<string, JupiterValue> {
    Product(JUPITER_PACKETS,
            map[0x04 := payload => Some(DeviceInformation(payload, intOf)),
              0x08 := payload => Some(WifiSsid(payload, utf8))],
            JupiterAliases, name => name)
  }

  /** Which messages Jupiter takes, and which parser takes them: device information and the network name
      at any length, the seven fixed packets at their own length, through the walk; no other command. */
  lemma JupiterDispatch(
      root: seq<Field<string, JupiterValue>>,
      intOf: string -> Option<int>, utf8: seq<byte> -> Option<string>, m: Message)
    ensures var r := Decode(JupiterProduct(intOf, utf8), root, m);
      && (m.command == 0x04 ==> r == Some(DeviceInformation(m.payload, intOf)))
      && (m.command == 0x08 ==> r == Some(WifiSsid(m.payload, utf8)))
      && (m.command != 0x04 && m.command != 0x08 && FixedLength(m.command) != Some(|m.payload|) ==> r == None)
      && (m.command != 0x04 && m.command != 0x08 && FixedLength(m.command) == Some(|m.payload|) ==>
            var walk := IterFields(m.payload, JUPITER_PACKETS[m.command], root, 0, []);
            && (r.Some? <==> walk.Success?)
            && (walk.Success? ==> r.value.changes == walk.value && r.value.paths == PathsOf(walk.value)))
  {
    hide DeviceInformation, WifiSsid, JupiterAliases, IterFields;
  }

  function FixedLength(command: byte): Option<nat> {
    match command
    case 0x03 => Some(74)
    case 0x0D => Some(12)
    case 0x13 => Some(160)
    case 0x14 => Some(166)
    case 0x21 => Some(1)
    case 0x22 => Some(1)
    case 0x24 => Some(1)
    case _ => None
  }

  /** Data with identifiers for attribute names, which has the fields that the two parsers assign. */
  ghost predicate JupiterShape(root: seq<Field<string, JupiterValue>>) {
    && WellShaped(root)
    && (forall q | ValueAt(root, q).Some? :: WellNamed(q))
    && (forall field | field in IDENTITY_FIELDS :: ValueAt(root, PathOf("identity", field.1)).Some?)
    && (forall field | field in VERSION_FIELDS :: ValueAt(root, PathOf("runtime", field.1)).Some?)
    && ValueAt(root, PathOf("identity", "wifi_ssid")).Some?
  }

  lemma RenderedAsItself(path: Path<string>, text: string -> string)
    requires forall s :: text(s) == s
    ensures Rendered(path, text) == path
  {
  }

  lemma DeviceInformationIsHonest(
      root: seq<Field<string, JupiterValue>>, payload: seq<byte>, intOf: string -> Option<int>)
    requires JupiterShape(root)
    ensures Honest(root, DeviceInformation(payload, intOf))
  {
    hide IDENTITY_FIELDS, VERSION_FIELDS, Taken, Table, Split, AsciiIgnore, WellShaped, ValueAt, LastOf, PathsOf,
      PathOf;
    var us := DeviceInformation(payload, intOf).changes;
    forall q ensures q in DeviceInformation(payload, intOf).paths <==> LastOf(us, q).Some? {
      DeviceInformationPaths(payload, intOf, q);
    }
    forall u | u in us ensures ValueAt(root, u.path).Some? {
      LastOfChanges(us, u.path);
      DeviceInformationPaths(payload, intOf, u.path);
    }
  }

  lemma WifiSsidIsHonest(root: seq<Field<string, JupiterValue>>, payload: seq<byte>, utf8: seq<byte> -> Option<string>)
    requires JupiterShape(root)
    ensures Honest(root, WifiSsid(payload, utf8))
  {
    hide IDENTITY_FIELDS, VERSION_FIELDS, WellShaped, ValueAt, LastOf, PathsOf, PathOf;
    var us := WifiSsid(payload, utf8).changes;
    forall q ensures q in WifiSsid(payload, utf8).paths <==> LastOf(us, q).Some? {
      WifiSsidExact(payload, utf8, q);
    }
  }

  /** On such data Jupiter is a sound product. */
  lemma SoundOnShape(
      root: seq<Field<string, JupiterValue>>, intOf: string -> Option<int>, utf8: seq<byte> -> Option<string>)
    requires JupiterShape(root)
    ensures Sound(JupiterProduct(intOf, utf8), root)
  {
    hide WellShaped, ValueAt, Honest, DeviceInformation, WifiSsid, JupiterAliases, Rendered, WellNamed,
      JUPITER_PACKETS, IDENTITY_FIELDS, VERSION_FIELDS, PathOf;
    var product := JupiterProduct(intOf, utf8);
    forall q ensures Rendered(q, product.text) == q {
      RenderedAsItself(q, product.text);
    }
    forall q | ValueAt(root, q).Some? ensures forall k | k in product.aliases(q) :: '.' !in k {
      JupiterAliasesArePlain(q);
    }
    forall c, payload | c in product.parsers && product.parsers[c](payload).Some?
      ensures Honest(root, product.parsers[c](payload).value)
    {
      DeviceInformationIsHonest(root, payload, intOf);
      WifiSsidIsHonest(root, payload, utf8);
    }
  }
}
