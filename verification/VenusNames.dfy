/** How Venus attributes and sections are spelt. */
module VenusNames {
  import opened Paths
  import opened VenusModel
  import opened PathKeys

  function RuntimeText(f: RuntimeField): string {
    match f
    case Out1Power => "out1_power"
    case TempLow => "temp_low"
    case TempHigh => "temp_high"
    case WifiConnected => "wifi_connected"
    case MqttConnected => "mqtt_connected"
    case Out1Active => "out1_active"
    case Extern1Connected => "extern1_connected"
    case GridPower => "grid_power"
    case SolarPower => "solar_power"
    case WorkMode => "work_mode"
    case ProductCode => "product_code"
    case PowerRating => "power_rating"
    case DailyEnergyCharged => "daily_energy_charged"
    case MonthlyEnergyCharged => "monthly_energy_charged"
    case DailyEnergyDischarged => "daily_energy_discharged"
    case MonthlyEnergyDischarged => "monthly_energy_discharged"
    case TotalEnergyCharged => "total_energy_charged"
    case TotalEnergyDischarged => "total_energy_discharged"
  }

  function BatteryText(f: BatteryField): string {
    match f
    case BmsVersion => "bms_version"
    case VoltageLimit => "voltage_limit"
    case ChargeCurrentLimit => "charge_current_limit"
    case DischargeCurrentLimit => "discharge_current_limit"
    case BatterySoc => "battery_soc"
    case BatterySoh => "battery_soh"
    case DesignCapacity => "design_capacity"
    case BatteryVoltage => "battery_voltage"
    case BatteryCurrent => "battery_current"
    case BatteryTemp => "battery_temp"
    case ErrorCode => "error_code"
    case WarningCode => "warning_code"
    case RuntimeHours => "runtime_hours"
    case MosfetTemp => "mosfet_temp"
    case TempSensor1 => "temp_sensor_1"
    case TempSensor2 => "temp_sensor_2"
    case TempSensor3 => "temp_sensor_3"
    case TempSensor4 => "temp_sensor_4"
    case CellVoltages => "cell_voltages"
  }

  function SystemText(f: SystemField): string {
    match f
    case SystemStatus => "system_status"
    case SystemValue1 => "system_value_1"
    case SystemValue2 => "system_value_2"
    case SystemValue3 => "system_value_3"
    case SystemValue4 => "system_value_4"
    case SystemValue5 => "system_value_5"
  }

  function TimerText(f: TimerField): string {
    match f
    case AdaptiveModeEnabled => "adaptive_mode_enabled"
    case SmartMeterConnected => "smart_meter_connected"
    case AdaptivePowerOut => "adaptive_power_out"
  }

  function ConfigurationText(f: ConfigurationField): string {
    match f
    case ConfigMode => "config_mode"
    case ConfigStatus => "config_status"
    case ConfigValue => "config_value"
    case CtPollingRate => "ct_polling_rate"
  }

  function DeviceText(f: DeviceField): string {
    match f
    case DeviceType => "device_type"
    case DeviceId => "device_id"
    case SerialNumber => "serial_number"
    case MacAddress => "mac_address"
    case FirmwareVersion => "firmware_version"
    case HardwareVersion => "hardware_version"
  }

  function NetworkText(f: NetworkField): string {
    match f
    case WifiSsid => "wifi_ssid"
    case MeterIp => "meter_ip"
    case NetworkInfo => "network_info"
    case IpAddress => "ip_address"
    case Gateway => "gateway"
    case SubnetMask => "subnet_mask"
    case DnsServer => "dns_server"
    case LocalApiStatus => "local_api_status"
  }

  function SectionText(s: SectionName): string {
    match s
    case RuntimeSection => "runtime"
    case BatterySection => "battery"
    case SystemSection => "system"
    case TimerSection => "timer"
    case ConfigurationSection => "configuration"
    case DeviceSection => "device"
    case NetworkSection => "network"
  }

  function AttributeText(a: Attribute): string {
    match a
    case Runtime(f) => RuntimeText(f)
    case Battery(f) => BatteryText(f)
    case System(f) => SystemText(f)
    case Timer(f) => TimerText(f)
    case Configuration(f) => ConfigurationText(f)
    case Device(f) => DeviceText(f)
    case Network(f) => NetworkText(f)
  }

  function VenusText(n: VName): string {
    match n
    case Sect(s) => SectionText(s)
    case Attr(a) => AttributeText(a)
  }

  // ----- the names are identifiers -----

  lemma EnergyIdentifiers(f: RuntimeField)
    requires f in {DailyEnergyCharged, MonthlyEnergyCharged, DailyEnergyDischarged, MonthlyEnergyDischarged}
    ensures Identifier(RuntimeText(f))
  {
  }

  lemma RuntimeIdentifiers(f: RuntimeField)
    ensures Identifier(RuntimeText(f))
  {
    if f in {DailyEnergyCharged, MonthlyEnergyCharged, DailyEnergyDischarged, MonthlyEnergyDischarged} {
      EnergyIdentifiers(f);
    }
  }

  lemma BatteryIdentifiers(f: BatteryField)
    ensures Identifier(BatteryText(f))
  {
  }

  lemma SystemIdentifiers(f: SystemField)
    ensures Identifier(SystemText(f))
  {
  }

  lemma TimerIdentifiers(f: TimerField)
    ensures Identifier(TimerText(f))
  {
  }

  lemma ConfigurationIdentifiers(f: ConfigurationField)
    ensures Identifier(ConfigurationText(f))
  {
  }

  lemma DeviceIdentifiers(f: DeviceField)
    ensures Identifier(DeviceText(f))
  {
  }

  lemma NetworkIdentifiers(f: NetworkField)
    ensures Identifier(NetworkText(f))
  {
  }

  lemma SectionIdentifiers(s: SectionName)
    ensures Identifier(SectionText(s))
  {
  }

  lemma AttributeIdentifiers(a: Attribute)
    ensures Identifier(AttributeText(a))
  {
    hide Identifier;
    match a
    case Runtime(f) => RuntimeIdentifiers(f);
    case Battery(f) => BatteryIdentifiers(f);
    case System(f) => SystemIdentifiers(f);
    case Timer(f) => TimerIdentifiers(f);
    case Configuration(f) => ConfigurationIdentifiers(f);
    case Device(f) => DeviceIdentifiers(f);
    case Network(f) => NetworkIdentifiers(f);
  }

  // ----- and distinct within each section -----

  lemma SectionsDiffer(s: SectionName, t: SectionName)
    requires SectionText(s) == SectionText(t)
    ensures s == t
  {
    assert |SectionText(s)| == |SectionText(t)| && SectionText(s)[0] == SectionText(t)[0];
  }

  lemma RuntimeTextsDiffer(f: RuntimeField, g: RuntimeField)
    requires RuntimeText(f) == RuntimeText(g)
    ensures f == g
  {
    var s, t := RuntimeText(f), RuntimeText(g);
    assert |s| == |t| && s[0] == t[0] && s[|s| - 1] == t[|t| - 1];
  }

  lemma BatteryTextsDiffer(f: BatteryField, g: BatteryField)
    requires BatteryText(f) == BatteryText(g)
    ensures f == g
  {
    var s, t := BatteryText(f), BatteryText(g);
    assert |s| == |t| && s[0] == t[0] && s[|s| - 1] == t[|t| - 1];
  }

  lemma SystemTextsDiffer(f: SystemField, g: SystemField)
    requires SystemText(f) == SystemText(g)
    ensures f == g
  {
    var s, t := SystemText(f), SystemText(g);
    assert |s| == |t| && s[0] == t[0] && s[|s| - 1] == t[|t| - 1];
  }

  lemma TimerTextsDiffer(f: TimerField, g: TimerField)
    requires TimerText(f) == TimerText(g)
    ensures f == g
  {
    var s, t := TimerText(f), TimerText(g);
    assert |s| == |t| && s[0] == t[0] && s[|s| - 1] == t[|t| - 1];
  }

  lemma ConfigurationTextsDiffer(f: ConfigurationField, g: ConfigurationField)
    requires ConfigurationText(f) == ConfigurationText(g)
    ensures f == g
  {
    var s, t := ConfigurationText(f), ConfigurationText(g);
    assert |s| == |t| && s[0] == t[0] && s[|s| - 1] == t[|t| - 1];
  }

  lemma DeviceTextsDiffer(f: DeviceField, g: DeviceField)
    requires DeviceText(f) == DeviceText(g)
    ensures f == g
  {
    var s, t := DeviceText(f), DeviceText(g);
    assert |s| == |t| && s[0] == t[0] && s[|s| - 1] == t[|t| - 1];
  }

  lemma NetworkTextsDiffer(f: NetworkField, g: NetworkField)
    requires NetworkText(f) == NetworkText(g)
    ensures f == g
  {
    var s, t := NetworkText(f), NetworkText(g);
    assert |s| == |t| && s[0] == t[0] && s[|s| - 1] == t[|t| - 1];
  }

  lemma AttributesDiffer(a: Attribute, b: Attribute)
    requires SectionOf(a) == SectionOf(b) && AttributeText(a) == AttributeText(b)
    ensures a == b
  {
    match a
    case Runtime(f) => RuntimeTextsDiffer(f, b.runtime);
    case Battery(f) => BatteryTextsDiffer(f, b.battery);
    case System(f) => SystemTextsDiffer(f, b.system);
    case Timer(f) => TimerTextsDiffer(f, b.timer);
    case Configuration(f) => ConfigurationTextsDiffer(f, b.configuration);
    case Device(f) => DeviceTextsDiffer(f, b.device);
    case Network(f) => NetworkTextsDiffer(f, b.network);
  }

  lemma RenderedFlat(a: Attribute)
    ensures Rendered(FlatPath(a), VenusText) == [Name(SectionText(SectionOf(a))), Name(AttributeText(a))]
  {
    hide SectionText, AttributeText, SectionOf;
    var p := Rendered(FlatPath(a), VenusText);
    assert FlatPath(a)[0] == Name(Sect(SectionOf(a))) && FlatPath(a)[1] == Name(Attr(a));
    assert p[0] == Name(VenusText(Sect(SectionOf(a))));
    assert p[1] == Name(VenusText(Attr(a)));
  }

  /** The flat paths, spelt out: identifiers, and no two alike. */
  lemma FlatPathsDiffer(a: Attribute, b: Attribute)
    ensures WellNamed(Rendered(FlatPath(a), VenusText))
    ensures Rendered(FlatPath(a), VenusText) == Rendered(FlatPath(b), VenusText) ==> a == b
  {
    hide Identifier, SectionText, AttributeText, Rendered, FlatPath;
    SectionIdentifiers(SectionOf(a));
    AttributeIdentifiers(a);
    RenderedFlat(a);
    RenderedFlat(b);
    var p, q := Rendered(FlatPath(a), VenusText), Rendered(FlatPath(b), VenusText);
    if p == q {
      assert p[0] == q[0] && p[1] == q[1];
      SectionsDiffer(SectionOf(a), SectionOf(b));
      AttributesDiffer(a, b);
    }
  }
}
