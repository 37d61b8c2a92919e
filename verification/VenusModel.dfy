/** The Venus result object: attributes, packets, sources, and what a message supplies. */
module VenusModel {
  import opened Wrappers
  import opened Paths
  import opened Bytes
  import opened Frames
  import opened Schema
  import opened Text

  /** An attribute value; floating-point values are real numbers, `None` is Unset. */
  datatype Val =
    | Unset
    | Int(i: int)
    | Real(r: real)
    | Bool(b: bool)
    | Str(s: string)
    | Cells(cells: seq<Option<real>>)

  datatype RuntimeField =
    | Out1Power | TempLow | TempHigh | WifiConnected | MqttConnected | Out1Active | Extern1Connected
    | GridPower | SolarPower | WorkMode | ProductCode | PowerRating
    | DailyEnergyCharged | MonthlyEnergyCharged | DailyEnergyDischarged | MonthlyEnergyDischarged
    | TotalEnergyCharged | TotalEnergyDischarged

  datatype BatteryField =
    | BmsVersion | VoltageLimit | ChargeCurrentLimit | DischargeCurrentLimit | BatterySoc | BatterySoh
    | DesignCapacity | BatteryVoltage | BatteryCurrent | BatteryTemp | ErrorCode | WarningCode | RuntimeHours
    | MosfetTemp | TempSensor1 | TempSensor2 | TempSensor3 | TempSensor4 | CellVoltages

  datatype SystemField = SystemStatus | SystemValue1 | SystemValue2 | SystemValue3 | SystemValue4 | SystemValue5

  datatype TimerField = AdaptiveModeEnabled | SmartMeterConnected | AdaptivePowerOut

  datatype ConfigurationField = ConfigMode | ConfigStatus | ConfigValue | CtPollingRate

  datatype DeviceField = DeviceType | DeviceId | SerialNumber | MacAddress | FirmwareVersion | HardwareVersion

  datatype NetworkField =
    | WifiSsid | MeterIp | NetworkInfo | IpAddress | Gateway | SubnetMask | DnsServer | LocalApiStatus

  /** The flat attribute names, grouped by the section that `_FLAT_FIELD_PATHS` gives for them. */
  datatype Attribute =
    | Runtime(runtime: RuntimeField)
    | Battery(battery: BatteryField)
    | System(system: SystemField)
    | Timer(timer: TimerField)
    | Configuration(configuration: ConfigurationField)
    | Device(device: DeviceField)
    | Network(network: NetworkField)

  const ATTRIBUTES: set<Attribute> :=
    (set f: RuntimeField | true :: Runtime(f)) + (set f: BatteryField | true :: Battery(f))
    + (set f: SystemField | true :: System(f)) + (set f: TimerField | true :: Timer(f))
    + (set f: ConfigurationField | true :: Configuration(f)) + (set f: DeviceField | true :: Device(f))
    + (set f: NetworkField | true :: Network(f))

  lemma EveryAttribute(a: Attribute)
    ensures a in ATTRIBUTES
  {
  }

  datatype SectionName =
    | RuntimeSection | BatterySection | SystemSection | TimerSection | ConfigurationSection
    | DeviceSection | NetworkSection

  datatype VName = Sect(section: SectionName) | Attr(attribute: Attribute)

  // ----- struct formats and converters -----

  datatype Format = U8 | S8 | U16 | S16 | U32 | U16x16

  datatype Converter =
    | Identity
    | Float
    | DivideBy(divisor: nat)
    | DivideEachBy(divisor: nat)
    | Bit(number: nat)
    | Nonzero

  function Size(f: Format): nat {
    match f
    case U8 => 1
    case S8 => 1
    case U16 => 2
    case S16 => 2
    case U32 => 4
    case U16x16 => 32
  }

  /** `struct.unpack("<H", payload[offset:offset + 2])[0]`, and so on for the other formats. */
  function U16At(payload: seq<byte>, offset: nat): nat
    requires offset + 2 <= |payload|
  {
    payload[offset] as int + 0x100 * payload[offset + 1] as int
  }

  function S16At(payload: seq<byte>, offset: nat): int
    requires offset + 2 <= |payload|
  {
    var u := U16At(payload, offset);
    if 0x8000 <= u then u - 0x1_0000 else u
  }

  function U32At(payload: seq<byte>, offset: nat): nat
    requires offset + 4 <= |payload|
  {
    U16At(payload, offset) + 0x1_0000 * U16At(payload, offset + 2)
  }

  function S8At(payload: seq<byte>, offset: nat): int
    requires offset < |payload|
  {
    if 0x80 <= payload[offset] then payload[offset] as int - 0x100 else payload[offset] as int
  }

  /** Division of a raw value by a constant; exact, where the code divides floating-point numbers. */
  function Quotient(x: int, divisor: nat): Val {
    if divisor == 0 then Unset else Real(x as real / divisor as real)
  }

  /** The integer of one of the scalar formats. */
  function RawAt(payload: seq<byte>, offset: nat, f: Format): int
    requires offset + Size(f) <= |payload|
  {
    match f
    case U8 => payload[offset]
    case S8 => S8At(payload, offset)
    case U16 => U16At(payload, offset)
    case S16 => S16At(payload, offset)
    case U32 => U32At(payload, offset)
    case U16x16 => U16At(payload, offset)
  }

  function CellAt(payload: seq<byte>, offset: nat, i: nat, divisor: nat): Option<real>
    requires offset + 2 * i + 2 <= |payload|
  {
    var q := Quotient(U16At(payload, offset + 2 * i), divisor);
    if q.Real? then Some(q.r) else None
  }

  function CellsAt(payload: seq<byte>, offset: nat, divisor: nat): Val
    requires offset + 32 <= |payload|
  {
    Cells(seq(16, i requires 0 <= i < 16 => CellAt(payload, offset, i, divisor)))
  }

  function ConvertRaw(c: Converter, raw: int): Val {
    match c
    case Identity => Int(raw)
    case Float => Real(raw as real)
    case DivideBy(k) => Quotient(raw, k)
    case DivideEachBy(_) => Unset
    case Bit(k) => Bool(HasBit(raw, k))
    case Nonzero => Bool(raw != 0)
  }

  /** The value of a field whose bytes start at offset. */
  function ConvertAt(payload: seq<byte>, offset: nat, f: Format, c: Converter): Val
    requires offset + Size(f) <= |payload|
  {
    if c.DivideEachBy? && f == U16x16 then CellsAt(payload, offset, c.divisor)
    else ConvertRaw(c, RawAt(payload, offset, f))
  }

  // ----- packets and sources -----

  const RUNTIME := Packet("venus_runtime_information", 0x03, 37, None)
  const DEVICE := Packet("venus_device_information", 0x04, 1, None)
  const WIFI := Packet("venus_wifi_ssid", 0x08, 0, None)
  const SYSTEM := Packet("venus_system_data", 0x0D, 11, None)
  const TIMER := Packet("venus_timer_information", 0x13, 45, None)
  const BMS := Packet("venus_bms_data", 0x14, 80, None)
  const CONFIG := Packet("venus_configuration_data", 0x1A, 17, None)
  const METER := Packet("venus_meter_ip", 0x21, 1, None)
  const CT := Packet("venus_ct_polling_rate", 0x22, 1, None)
  const NETWORK := Packet("venus_network_information", 0x24, 0, None)
  const LOCAL_API := Packet("venus_local_api_status", 0x28, 3, None)

  function PacketFor(command: byte): (r: Option<Packet>)
    ensures r.Some? ==> r.value.command == command
  {
    if command == 0x03 then Some(RUNTIME)
    else if command == 0x04 then Some(DEVICE)
    else if command == 0x08 then Some(WIFI)
    else if command == 0x0D then Some(SYSTEM)
    else if command == 0x13 then Some(TIMER)
    else if command == 0x14 then Some(BMS)
    else if command == 0x1A then Some(CONFIG)
    else if command == 0x21 then Some(METER)
    else if command == 0x22 then Some(CT)
    else if command == 0x24 then Some(NETWORK)
    else if command == 0x28 then Some(LOCAL_API)
    else None
  }

  /** One `sources={packet: FieldSource(offset, format, converter, minimum_packet_length)}`. */
  datatype Declared = Declared(
    packet: Packet, offset: nat, format: Format, converter: Converter, minLength: Option<nat>)

  function RuntimeSource(f: RuntimeField): Declared {
    match f
    case Out1Power => Declared(RUNTIME, 0x14, U16, Float, None)
    case TempLow => Declared(RUNTIME, 0x21, S16, DivideBy(10), Some(60))
    case TempHigh => Declared(RUNTIME, 0x23, S16, DivideBy(10), Some(60))
    case WifiConnected => Declared(RUNTIME, 0x0F, U8, Bit(0), None)
    case MqttConnected => Declared(RUNTIME, 0x0F, U8, Bit(1), None)
    case Out1Active => Declared(RUNTIME, 0x10, U8, Nonzero, None)
    case Extern1Connected => Declared(RUNTIME, 0x1C, U8, Nonzero, None)
    case GridPower => Declared(RUNTIME, 0x00, S16, Float, Some(100))
    case SolarPower => Declared(RUNTIME, 0x02, S16, Float, Some(100))
    case WorkMode => Declared(RUNTIME, 0x04, U8, Identity, Some(100))
    case ProductCode => Declared(RUNTIME, 0x0C, U16, Identity, Some(100))
    case PowerRating => Declared(RUNTIME, 0x4A, U16, Identity, Some(100))
    case DailyEnergyCharged => Declared(RUNTIME, 0x0E, U32, DivideBy(100), Some(100))
    case MonthlyEnergyCharged => Declared(RUNTIME, 0x12, U32, DivideBy(1000), Some(100))
    case DailyEnergyDischarged => Declared(RUNTIME, 0x16, U32, DivideBy(100), Some(100))
    case MonthlyEnergyDischarged => Declared(RUNTIME, 0x1A, U32, DivideBy(100), Some(100))
    case TotalEnergyCharged => Declared(RUNTIME, 0x29, U32, DivideBy(100), Some(100))
    case TotalEnergyDischarged => Declared(RUNTIME, 0x2D, U32, DivideBy(100), Some(100))
  }

  function BatterySource(f: BatteryField): Declared {
    match f
    case BmsVersion => Declared(BMS, 0x00, U16, Identity, None)
    case VoltageLimit => Declared(BMS, 0x02, U16, DivideBy(10), None)
    case ChargeCurrentLimit => Declared(BMS, 0x04, U16, DivideBy(10), None)
    case DischargeCurrentLimit => Declared(BMS, 0x06, S16, DivideBy(10), None)
    case BatterySoc => Declared(BMS, 0x08, U16, Float, None)
    case BatterySoh => Declared(BMS, 0x0A, U16, Float, None)
    case DesignCapacity => Declared(BMS, 0x0C, U16, Float, None)
    case BatteryVoltage => Declared(BMS, 0x0E, U16, DivideBy(100), None)
    case BatteryCurrent => Declared(BMS, 0x10, S16, DivideBy(10), None)
    case BatteryTemp => Declared(BMS, 0x12, U16, Float, None)
    case ErrorCode => Declared(BMS, 0x1A, U16, Identity, None)
    case WarningCode => Declared(BMS, 0x1C, U32, Identity, None)
    case RuntimeHours => Declared(BMS, 0x20, U32, DivideBy(3600000), None)
    case MosfetTemp => Declared(BMS, 0x26, U16, Float, None)
    case TempSensor1 => Declared(BMS, 0x28, U16, Float, None)
    case TempSensor2 => Declared(BMS, 0x2A, U16, Float, None)
    case TempSensor3 => Declared(BMS, 0x2C, U16, Float, None)
    case TempSensor4 => Declared(BMS, 0x2E, U16, Float, None)
    case CellVoltages => Declared(BMS, 0x30, U16x16, DivideEachBy(1000), None)
  }

  function SystemSource(f: SystemField): Declared {
    match f
    case SystemStatus => Declared(SYSTEM, 0x00, U8, Identity, None)
    case SystemValue1 => Declared(SYSTEM, 0x01, U16, Identity, None)
    case SystemValue2 => Declared(SYSTEM, 0x03, U16, Identity, None)
    case SystemValue3 => Declared(SYSTEM, 0x05, U16, Identity, None)
    case SystemValue4 => Declared(SYSTEM, 0x07, U16, Identity, None)
    case SystemValue5 => Declared(SYSTEM, 0x09, U16, Identity, None)
  }

  function TimerSource(f: TimerField): Declared {
    match f
    case AdaptiveModeEnabled => Declared(TIMER, 0x00, U8, Nonzero, None)
    case SmartMeterConnected => Declared(TIMER, 0x25, U8, Nonzero, None)
    case AdaptivePowerOut => Declared(TIMER, 0x26, U16, Float, None)
  }

  function ConfigurationSource(f: ConfigurationField): Declared {
    match f
    case ConfigMode => Declared(CONFIG, 0x00, U8, Identity, None)
    case ConfigStatus => Declared(CONFIG, 0x04, S8, Identity, None)
    case ConfigValue => Declared(CONFIG, 0x10, U8, Identity, None)
    case CtPollingRate => Declared(CT, 0x00, U8, Identity, None)
  }

  function SourceOf(a: Attribute): Option<Declared> {
    match a
    case Runtime(f) => Some(RuntimeSource(f))
    case Battery(f) => Some(BatterySource(f))
    case System(f) => Some(SystemSource(f))
    case Timer(f) => Some(TimerSource(f))
    case Configuration(f) => Some(ConfigurationSource(f))
    case Device(_) => None
    case Network(_) => None
  }

  function SourceIn(d: Declared): Source<Val> {
    Source(d.offset, Size(d.format), d.minLength, None, 
           (b: seq<byte>) => if |b| == Size(d.format) then Some(ConvertAt(b, 0, d.format, d.converter)) else None)
  }

  function NodeOf(a: Attribute): Node<VName, Val> {
    if SourceOf(a).None? then Plain(Initial(a))
    else Leaf(map[SourceOf(a).value.packet := SourceIn(SourceOf(a).value)], Initial(a))
  }

  function Initial(a: Attribute): Val {
    if a == Battery(CellVoltages) then Cells(seq(16, _ => None)) else Unset
  }

  // ----- the tree -----

  function Names(s: SectionName): seq<Attribute> {
    match s
    case RuntimeSection => [
      Runtime(Out1Power), Runtime(TempLow), Runtime(TempHigh), Runtime(WifiConnected),
      Runtime(MqttConnected), Runtime(Out1Active), Runtime(Extern1Connected),
      Runtime(GridPower), Runtime(SolarPower), Runtime(WorkMode), Runtime(ProductCode),
      Runtime(PowerRating), Runtime(DailyEnergyCharged), Runtime(MonthlyEnergyCharged),
      Runtime(DailyEnergyDischarged), Runtime(MonthlyEnergyDischarged),
      Runtime(TotalEnergyCharged), Runtime(TotalEnergyDischarged)]
    case BatterySection => [
      Battery(BmsVersion), Battery(VoltageLimit), Battery(ChargeCurrentLimit),
      Battery(DischargeCurrentLimit), Battery(BatterySoc), Battery(BatterySoh),
      Battery(DesignCapacity), Battery(BatteryVoltage), Battery(BatteryCurrent),
      Battery(BatteryTemp), Battery(ErrorCode), Battery(WarningCode), Battery(RuntimeHours),
      Battery(MosfetTemp), Battery(TempSensor1), Battery(TempSensor2), Battery(TempSensor3),
      Battery(TempSensor4), Battery(CellVoltages)]
    case SystemSection => [
      System(SystemStatus), System(SystemValue1), System(SystemValue2), System(SystemValue3),
      System(SystemValue4), System(SystemValue5)]
    case TimerSection => [
      Timer(AdaptiveModeEnabled), Timer(SmartMeterConnected), Timer(AdaptivePowerOut)]
    case ConfigurationSection => [
      Configuration(ConfigMode), Configuration(ConfigStatus), Configuration(ConfigValue),
      Configuration(CtPollingRate)]
    case DeviceSection => [
      Device(DeviceType), Device(DeviceId), Device(SerialNumber), Device(MacAddress),
      Device(FirmwareVersion), Device(HardwareVersion)]
    case NetworkSection => [
      Network(WifiSsid), Network(MeterIp), Network(NetworkInfo), Network(IpAddress),
      Network(Gateway), Network(SubnetMask), Network(DnsServer), Network(LocalApiStatus)]
  }

  function SectionOf(a: Attribute): SectionName {
    match a
    case Runtime(_) => RuntimeSection
    case Battery(_) => BatterySection
    case System(_) => SystemSection
    case Timer(_) => TimerSection
    case Configuration(_) => ConfigurationSection
    case Device(_) => DeviceSection
    case Network(_) => NetworkSection
  }

  function FlatPath(a: Attribute): Path<VName> {
    [Name(Sect(SectionOf(a))), Name(Attr(a))]
  }

  function Leaves(names: seq<Attribute>): seq<Field<VName, Val>> {
    if names == [] then [] else [Field(Attr(names[0]), NodeOf(names[0]))] + Leaves(names[1..])
  }

  function Sections(sections: seq<SectionName>): seq<Field<VName, Val>> {
    if sections == [] then []
    else [Field(Sect(sections[0]), Section(None, Record(Leaves(Names(sections[0])))))] + Sections(sections[1..])
  }

  const ALL_SECTIONS := [
    RuntimeSection, BatterySection, SystemSection, TimerSection, ConfigurationSection, DeviceSection, NetworkSection]

  /** A fresh `VenusData`. */
  function Tree(): seq<Field<VName, Val>> {
    Sections(ALL_SECTIONS)
  }

  // ----- what a message supplies -----

  type Values = map<Attribute, Val>

  function SlotOf(a: Attribute, p: Packet): Option<Slot<Val>> {
    if SourceOf(a).Some? && SourceOf(a).value.packet == p then Some(Slot(SourceIn(SourceOf(a).value), 0)) else None
  }

  function Binary(p: Packet, payload: seq<byte>): Values {
    map a | a in ATTRIBUTES && Supplied(SlotOf(a, p), payload).Some? :: Supplied(SlotOf(a, p), payload).value
  }

  const DEVICE_KEYS: map<string, Attribute> := map[
    "type" := Device(DeviceType), "id" := Device(DeviceId), "sn" := Device(SerialNumber),
    "mac" := Device(MacAddress), "hw" := Device(HardwareVersion),
    "dev_ver" := Device(FirmwareVersion), "fc_ver" := Device(FirmwareVersion), "fw" := Device(FirmwareVersion)]

  const NETWORK_KEYS: map<string, Attribute> := map[
    "ip" := Network(IpAddress), "gate" := Network(Gateway), "gateway" := Network(Gateway),
    "mask" := Network(SubnetMask), "dns" := Network(DnsServer)]

  function OneKey(key: string, text: string, keys: map<string, Attribute>): Values {
    if key in keys then map[keys[key] := Str(text)] else map[]
  }

  /** One `key<sep>value` item. */
  function OnePair(item: string, sep: char, keys: map<string, Attribute>): Values {
    match SplitOnce(item, sep)
    case None => map[]
    case Some(kv) => OneKey(Strip(kv.0), Strip(kv.1), keys)
  }

  /** The items read from left to right; a later item overwrites an earlier one. */
  function Pairs(items: seq<string>, sep: char, keys: map<string, Attribute>): Values {
    if items == [] then map[] else Pairs(items[..|items| - 1], sep, keys) + OnePair(items[|items| - 1], sep, keys)
  }

  lemma PairsStep(v: Values, items: seq<string>, i: nat, sep: char, keys: map<string, Attribute>)
    requires i < |items|
    ensures v + Pairs(items[..i + 1], sep, keys) == v + Pairs(items[..i], sep, keys) + OnePair(items[i], sep, keys)
  {
    hide OnePair;
    assert items[..i + 1][..i] == items[..i];
  }

  lemma NoPairs(v: Values, sep: char, keys: map<string, Attribute>)
    ensures v + Pairs([], sep, keys) == v
  {
  }

  function MeterText(payload: seq<byte>): string {
    if forall b | b in payload :: b == 0xFF then "(not set)" else StripNul(AsciiIgnore(payload))
  }

  function ApiText(payload: seq<byte>): string
    requires 3 <= |payload|
  {
    (if payload[0] == 1 then "enabled" else "disabled") + "/" + Decimal(U16At(payload, 1))
  }

  function NetworkValues(payload: seq<byte>): Values {
    var text := Strip(AsciiIgnore(payload));
    map[Network(NetworkInfo) := Str(text)] + Pairs(Split(text, ','), ':', NETWORK_KEYS)
  }

  /** The attributes a message supplies and their values; None if the message is refused. */
  function Decoded(m: Message): Option<Values> {
    var payload := m.payload;
    match PacketFor(m.command)
    case None => None
    case Some(p) =>
      if !FitsPacket(p, |payload|) then None
      else if p == DEVICE then Some(Pairs(Split(AsciiIgnore(payload), ','), '=', DEVICE_KEYS))
      else if p == WIFI then Some(map[Network(WifiSsid) := Str(Strip(AsciiIgnore(payload)))])
      else if p == METER then Some(map[Network(MeterIp) := Str(MeterText(payload))])
      else if p == NETWORK then Some(NetworkValues(payload))
      else if p == LOCAL_API then Some(map[Network(LocalApiStatus) := Str(ApiText(payload))])
      else Some(Binary(p, payload))
  }

  function FrameUpdate(frame: seq<byte>): Option<Values> {
    if IsFrame(frame) then Decoded(MessageOf(frame)) else None
  }

  /** A declared field read in place. */
  function ReadsFrom(d: Declared, p: Packet, payload: seq<byte>): Option<Val> {
    if d.packet == p && d.offset + Size(d.format) <= |payload| && (d.minLength.Some? ==> d.minLength.value <= |payload|)
    then Some(ConvertAt(payload, d.offset, d.format, d.converter))
    else None
  }

  function Reads(a: Attribute, p: Packet, payload: seq<byte>): Option<Val> {
    if SourceOf(a).None? then None else ReadsFrom(SourceOf(a).value, p, payload)
  }

  /** Converting the bytes of a field out of context is converting them in place. */
  lemma ConvertInSlice(payload: seq<byte>, start: nat, f: Format, c: Converter)
    requires start + Size(f) <= |payload|
    ensures ConvertAt(payload[start..start + Size(f)], 0, f, c) == ConvertAt(payload, start, f, c)
  {
    hide Quotient, HasBit;
    var b := payload[start..start + Size(f)];
    if c.DivideEachBy? && f == U16x16 {
      var k := c.divisor;
      assert CellsAt(b, 0, k).cells == seq(16, i requires 0 <= i < 16 => CellAt(payload, start, i, k));
    }
  }

  lemma SuppliedReads(p: Packet, payload: seq<byte>, a: Attribute)
    ensures Reads(a, p, payload) == Supplied(SlotOf(a, p), payload)
  {
    hide SourceOf, ConvertAt;
    if SourceOf(a).Some? {
      var d := SourceOf(a).value;
      if d.offset + Size(d.format) <= |payload| {
        ConvertInSlice(payload, d.offset, d.format, d.converter);
      }
    }
  }

  lemma BinaryReads(p: Packet, payload: seq<byte>, a: Attribute)
    ensures a in Binary(p, payload) <==> Reads(a, p, payload).Some?
    ensures a in Binary(p, payload) ==> Binary(p, payload)[a] == Reads(a, p, payload).value
  {
    hide SourceOf, Reads, Supplied, SlotOf, ATTRIBUTES;
    SuppliedReads(p, payload, a);
    EveryAttribute(a);
  }
}
