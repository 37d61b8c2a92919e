/** The hand-written parser `MarstekProtocol.parse_notification`, packet by packet, proved against
    what the declarative model says a message supplies. */
module VenusLegacy {
  import opened Wrappers
  import opened Bytes
  import opened Frames
  import opened Schema
  import opened Text
  import opened VenusModel

  /** The flat values and the fields tracked so far in one parse. */
  datatype Flat = Flat(values: Values, tracked: set<Attribute>)

  /** One parse. The tracked fields hold what the packet supplies for them, the others are as before. */
  datatype Parse = Parse(packet: Packet, payload: seq<byte>, before: Values) {
    ghost predicate Did(now: Flat) {
      forall a: Attribute ::
        if a in now.tracked then a in now.values && Reads(a, packet, payload) == Some(now.values[a])
        else (a in now.values <==> a in before) && (a in now.values ==> now.values[a] == before[a])
    }

    lemma Begin()
      ensures Did(Flat(before, {}))
    {
    }

    /** Once nothing that the packet supplies is left, the parse has done exactly what it should. */
    lemma Finish(now: Flat)
      requires Did(now) && forall a: Attribute | Reads(a, packet, payload).Some? :: a in now.tracked
      ensures now.values == before + Binary(packet, payload)
    {
      hide Reads, Binary;
      var after := before + Binary(packet, payload);
      forall a: Attribute ensures a in now.values <==> a in after
        ensures a in now.values ==> now.values[a] == after[a]
      {
        BinaryReads(packet, payload, a);
      }
    }
  }

  /** `device_data.a = x`, and the tracking of a. */
  function Put(ghost t: Parse, s: Flat, a: Attribute, x: Val): (r: Flat)
    requires t.Did(s) && Reads(a, t.packet, t.payload) == Some(x)
    ensures t.Did(r) && r.tracked == s.tracked + {a}
  {
    Flat(s.values[a := x], s.tracked + {a})
  }

  /** The attributes that a packet carries all lie in one section. */
  predicate Carries(p: Packet, a: Attribute) {
    match a
    case Runtime(_) => p == RUNTIME
    case Battery(_) => p == BMS
    case System(_) => p == SYSTEM
    case Timer(_) => p == TIMER
    case Configuration(f) => p == if f == CtPollingRate then CT else CONFIG
    case _ => false
  }

  lemma OnlyCarriedIsRead(p: Packet, payload: seq<byte>, a: Attribute)
    requires Reads(a, p, payload).Some?
    ensures Carries(p, a)
  {
    hide ConvertAt;
  }

  lemma {:induction false} Complete(t: Parse, s: Flat)
    requires t.Did(s) && forall a: Attribute | Carries(t.packet, a) && Reads(a, t.packet, t.payload).Some? ::
      a in s.tracked
    ensures s.values == t.before + Binary(t.packet, t.payload)
  {
    hide Reads, Carries, Binary, Parse.Did;
    forall a: Attribute | Reads(a, t.packet, t.payload).Some? ensures a in s.tracked {
      OnlyCarriedIsRead(t.packet, t.payload, a);
    }
    t.Finish(s);
  }

  /** The first block of the 0x14 payload: version, limits, charge, health and capacity. */
  const BMS_LIMITS: set<Attribute> := {
    Battery(BmsVersion), Battery(VoltageLimit), Battery(ChargeCurrentLimit),
    Battery(DischargeCurrentLimit), Battery(BatterySoc), Battery(BatterySoh),
    Battery(DesignCapacity)}

  method BmsLimits(payload: seq<byte>, ghost t: Parse, s0: Flat) returns (s: Flat)
    requires 80 <= |payload| && t.packet == BMS && t.payload == payload && t.Did(s0)
    ensures t.Did(s) && s.tracked == s0.tracked + BMS_LIMITS
  {
    hide U16At, S16At, U32At, CellsAt, Quotient, HasBit, Parse.Did, Put;
    s := s0;
    s := Put(t, s, Battery(BmsVersion), Int(U16At(payload, 0)));
    s := Put(t, s, Battery(VoltageLimit), Quotient(U16At(payload, 2), 10));
    s := Put(t, s, Battery(ChargeCurrentLimit), Quotient(U16At(payload, 4), 10));
    s := Put(t, s, Battery(DischargeCurrentLimit), Quotient(S16At(payload, 6), 10));
    s := Put(t, s, Battery(BatterySoc), Real(U16At(payload, 8) as real));
    s := Put(t, s, Battery(BatterySoh), Real(U16At(payload, 10) as real));
    s := Put(t, s, Battery(DesignCapacity), Real(U16At(payload, 12) as real));
  }

  /** Voltage, current, temperature, error codes and running time. */
  const BMS_STATE: set<Attribute> := {
    Battery(BatteryVoltage), Battery(BatteryCurrent), Battery(BatteryTemp), Battery(ErrorCode),
    Battery(WarningCode), Battery(RuntimeHours)}

  method BmsState(payload: seq<byte>, ghost t: Parse, s0: Flat) returns (s: Flat)
    requires 80 <= |payload| && t.packet == BMS && t.payload == payload && t.Did(s0)
    ensures t.Did(s) && s.tracked == s0.tracked + BMS_STATE
  {
    hide U16At, S16At, U32At, CellsAt, Quotient, HasBit, Parse.Did, Put;
    s := s0;
    s := Put(t, s, Battery(BatteryVoltage), Quotient(U16At(payload, 14), 100));
    s := Put(t, s, Battery(BatteryCurrent), Quotient(S16At(payload, 16), 10));
    s := Put(t, s, Battery(BatteryTemp), Real(U16At(payload, 18) as real));
    s := Put(t, s, Battery(ErrorCode), Int(U16At(payload, 26)));
    s := Put(t, s, Battery(WarningCode), Int(U32At(payload, 28)));
    s := Put(t, s, Battery(RuntimeHours), Quotient(U32At(payload, 32), 3600000));
  }

  /** The loop over the cells of the list; a cell whose bytes are missing keeps its value. */
  method ReadCells(payload: seq<byte>, cells0: seq<Option<real>>) returns (cells: seq<Option<real>>)
    requires |cells0| == 16
    ensures |cells| == 16
    ensures forall i | 0 <= i < 16 ::
      cells[i] == if 48 + 2 * i + 1 < |payload| then Some(U16At(payload, 48 + 2 * i) as real / 1000.0) else cells0[i]
  {
    hide U16At;
    cells := cells0;
    for i := 0 to 16
      invariant |cells| == 16 && forall j | i <= j < 16 :: cells[j] == cells0[j]
      invariant forall j | 0 <= j < i ::
        cells[j] == if 48 + 2 * j + 1 < |payload| then Some(U16At(payload, 48 + 2 * j) as real / 1000.0) else cells0[j]
    {
      var offset := 48 + i * 2;
      if offset + 1 < |payload| {
        cells := cells[i := Some(U16At(payload, offset) as real / 1000.0)];
      }
    }
  }

  /** The declared field of sixteen numbers reads the same cells. */
  lemma CellsAgree(payload: seq<byte>, cells: seq<Option<real>>)
    requires 80 <= |payload| && |cells| == 16
    requires forall i | 0 <= i < 16 :: cells[i] == Some(U16At(payload, 48 + 2 * i) as real / 1000.0)
    ensures Cells(cells) == CellsAt(payload, 48, 1000)
  {
    hide U16At;
    forall i | 0 <= i < 16 ensures cells[i] == CellAt(payload, 48, i, 1000) {
    }
  }

  /** The temperature sensors and the sixteen cells. */
  const BMS_SENSORS: set<Attribute> := {
    Battery(MosfetTemp), Battery(TempSensor1), Battery(TempSensor2), Battery(TempSensor3),
    Battery(TempSensor4), Battery(CellVoltages)}

  method BmsSensors(payload: seq<byte>, ghost t: Parse, s0: Flat, cells0: seq<Option<real>>) returns (s: Flat)
    requires |cells0| == 16
    requires 80 <= |payload| && t.packet == BMS && t.payload == payload && t.Did(s0)
    ensures t.Did(s) && s.tracked == s0.tracked + BMS_SENSORS
  {
    hide U16At, S16At, U32At, CellsAt, Quotient, HasBit, Parse.Did, Put;
    s := s0;
    s := Put(t, s, Battery(MosfetTemp), Real(U16At(payload, 38) as real));
    s := Put(t, s, Battery(TempSensor1), Real(U16At(payload, 40) as real));
    s := Put(t, s, Battery(TempSensor2), Real(U16At(payload, 42) as real));
    s := Put(t, s, Battery(TempSensor3), Real(U16At(payload, 44) as real));
    s := Put(t, s, Battery(TempSensor4), Real(U16At(payload, 46) as real));
    var cells := ReadCells(payload, cells0);
    CellsAgree(payload, cells);
    s := Put(t, s, Battery(CellVoltages), Cells(cells));
  }

  /** The short form of the 0x03 payload. Its inner guards, at 16 to 29 bytes, hold from 37 bytes on. */
  const RUNTIME_SHORT: set<Attribute> := {
    Runtime(WifiConnected), Runtime(MqttConnected), Runtime(Out1Active), Runtime(Out1Power),
    Runtime(Extern1Connected)}

  method RuntimeShort(payload: seq<byte>, ghost t: Parse, s0: Flat) returns (s: Flat)
    requires 37 <= |payload| && t.packet == RUNTIME && t.payload == payload && t.Did(s0)
    ensures t.Did(s) && s.tracked == s0.tracked + RUNTIME_SHORT
  {
    hide U16At, S16At, U32At, CellsAt, Quotient, HasBit, Parse.Did, Put;
    s := s0;
    s := Put(t, s, Runtime(WifiConnected), Bool(HasBit(payload[15], 0)));
    s := Put(t, s, Runtime(MqttConnected), Bool(HasBit(payload[15], 1)));
    s := Put(t, s, Runtime(Out1Active), Bool(payload[16] != 0));
    s := Put(t, s, Runtime(Out1Power), Real(U16At(payload, 20) as real));
    s := Put(t, s, Runtime(Extern1Connected), Bool(payload[28] != 0));
  }

  /** The standard form, from 60 bytes on. */
  const RUNTIME_LONG: set<Attribute> := {
    Runtime(Out1Power), Runtime(TempLow), Runtime(TempHigh), Runtime(WifiConnected),
    Runtime(MqttConnected), Runtime(Out1Active), Runtime(Extern1Connected)}

  method RuntimeLong(payload: seq<byte>, ghost t: Parse, s0: Flat) returns (s: Flat)
    requires 60 <= |payload| && t.packet == RUNTIME && t.payload == payload && t.Did(s0)
    ensures t.Did(s) && s.tracked == s0.tracked + RUNTIME_LONG
  {
    hide U16At, S16At, U32At, CellsAt, Quotient, HasBit, Parse.Did, Put;
    s := s0;
    s := Put(t, s, Runtime(Out1Power), Real(U16At(payload, 20) as real));
    s := Put(t, s, Runtime(TempLow), Quotient(S16At(payload, 33), 10));
    s := Put(t, s, Runtime(TempHigh), Quotient(S16At(payload, 35), 10));
    s := Put(t, s, Runtime(WifiConnected), Bool(HasBit(payload[15], 0)));
    s := Put(t, s, Runtime(MqttConnected), Bool(HasBit(payload[15], 1)));
    s := Put(t, s, Runtime(Out1Active), Bool(payload[16] != 0));
    s := Put(t, s, Runtime(Extern1Connected), Bool(payload[28] != 0));
  }

  /** The additional fields of payloads of 100 bytes and more: power, mode, energy charged, */
  const RUNTIME_POWER: set<Attribute> := {
    Runtime(GridPower), Runtime(SolarPower), Runtime(WorkMode), Runtime(ProductCode),
    Runtime(DailyEnergyCharged), Runtime(MonthlyEnergyCharged)}

  method RuntimePower(payload: seq<byte>, ghost t: Parse, s0: Flat) returns (s: Flat)
    requires 100 <= |payload| && t.packet == RUNTIME && t.payload == payload && t.Did(s0)
    ensures t.Did(s) && s.tracked == s0.tracked + RUNTIME_POWER
  {
    hide U16At, S16At, U32At, CellsAt, Quotient, HasBit, Parse.Did, Put;
    s := s0;
    s := Put(t, s, Runtime(GridPower), Real(S16At(payload, 0) as real));
    s := Put(t, s, Runtime(SolarPower), Real(S16At(payload, 2) as real));
    s := Put(t, s, Runtime(WorkMode), Int(payload[4]));
    s := Put(t, s, Runtime(ProductCode), Int(U16At(payload, 12)));
    s := Put(t, s, Runtime(DailyEnergyCharged), Quotient(U32At(payload, 14), 100));
    s := Put(t, s, Runtime(MonthlyEnergyCharged), Quotient(U32At(payload, 18), 1000));
  }

  /** and energy discharged, totals and rating. */
  const RUNTIME_ENERGY: set<Attribute> := {
    Runtime(DailyEnergyDischarged), Runtime(MonthlyEnergyDischarged), Runtime(TotalEnergyCharged),
    Runtime(TotalEnergyDischarged), Runtime(PowerRating)}

  method RuntimeEnergy(payload: seq<byte>, ghost t: Parse, s0: Flat) returns (s: Flat)
    requires 100 <= |payload| && t.packet == RUNTIME && t.payload == payload && t.Did(s0)
    ensures t.Did(s) && s.tracked == s0.tracked + RUNTIME_ENERGY
  {
    hide U16At, S16At, U32At, CellsAt, Quotient, HasBit, Parse.Did, Put;
    s := s0;
    s := Put(t, s, Runtime(DailyEnergyDischarged), Quotient(U32At(payload, 22), 100));
    s := Put(t, s, Runtime(MonthlyEnergyDischarged), Quotient(U32At(payload, 26), 100));
    s := Put(t, s, Runtime(TotalEnergyCharged), Quotient(U32At(payload, 41), 100));
    s := Put(t, s, Runtime(TotalEnergyDischarged), Quotient(U32At(payload, 45), 100));
    s := Put(t, s, Runtime(PowerRating), Int(U16At(payload, 74)));
  }

  /** 0x0D. */
  const SYSTEM_FIELDS: set<Attribute> := {
    System(SystemStatus), System(SystemValue1), System(SystemValue2), System(SystemValue3),
    System(SystemValue4), System(SystemValue5)}

  method SystemFields(payload: seq<byte>, ghost t: Parse, s0: Flat) returns (s: Flat)
    requires 11 <= |payload| && t.packet == SYSTEM && t.payload == payload && t.Did(s0)
    ensures t.Did(s) && s.tracked == s0.tracked + SYSTEM_FIELDS
  {
    hide U16At, S16At, U32At, CellsAt, Quotient, HasBit, Parse.Did, Put;
    s := s0;
    s := Put(t, s, System(SystemStatus), Int(payload[0]));
    s := Put(t, s, System(SystemValue1), Int(U16At(payload, 1)));
    s := Put(t, s, System(SystemValue2), Int(U16At(payload, 3)));
    s := Put(t, s, System(SystemValue3), Int(U16At(payload, 5)));
    s := Put(t, s, System(SystemValue4), Int(U16At(payload, 7)));
    s := Put(t, s, System(SystemValue5), Int(U16At(payload, 9)));
  }

  /** 0x13. */
  const TIMER_FIELDS: set<Attribute> := {
    Timer(AdaptiveModeEnabled), Timer(SmartMeterConnected), Timer(AdaptivePowerOut)}

  method TimerFields(payload: seq<byte>, ghost t: Parse, s0: Flat) returns (s: Flat)
    requires 45 <= |payload| && t.packet == TIMER && t.payload == payload && t.Did(s0)
    ensures t.Did(s) && s.tracked == s0.tracked + TIMER_FIELDS
  {
    hide U16At, S16At, U32At, CellsAt, Quotient, HasBit, Parse.Did, Put;
    s := s0;
    s := Put(t, s, Timer(AdaptiveModeEnabled), Bool(payload[0] != 0));
    s := Put(t, s, Timer(SmartMeterConnected), Bool(payload[37] != 0));
    s := Put(t, s, Timer(AdaptivePowerOut), Real(U16At(payload, 38) as real));
  }

  /** 0x1A. */
  const CONFIG_FIELDS: set<Attribute> := {
    Configuration(ConfigMode), Configuration(ConfigStatus), Configuration(ConfigValue)}

  method ConfigFields(payload: seq<byte>, ghost t: Parse, s0: Flat) returns (s: Flat)
    requires 17 <= |payload| && t.packet == CONFIG && t.payload == payload && t.Did(s0)
    ensures t.Did(s) && s.tracked == s0.tracked + CONFIG_FIELDS
  {
    hide U16At, S16At, U32At, CellsAt, Quotient, HasBit, Parse.Did, Put;
    s := s0;
    s := Put(t, s, Configuration(ConfigMode), Int(payload[0]));
    s := Put(t, s, Configuration(ConfigStatus), Int(S8At(payload, 4)));
    s := Put(t, s, Configuration(ConfigValue), Int(payload[16]));
  }

  /** 0x22. */
  const CT_FIELDS: set<Attribute> := {
    Configuration(CtPollingRate)}

  method CtFields(payload: seq<byte>, ghost t: Parse, s0: Flat) returns (s: Flat)
    requires 1 <= |payload| && t.packet == CT && t.payload == payload && t.Did(s0)
    ensures t.Did(s) && s.tracked == s0.tracked + CT_FIELDS
  {
    hide U16At, S16At, U32At, CellsAt, Quotient, HasBit, Parse.Did, Put;
    s := s0;
    s := Put(t, s, Configuration(CtPollingRate), Int(payload[0]));
  }

  /** Every attribute that a packet carries is assigned in one of the blocks. */
  lemma Blocks(a: Attribute)
    ensures Carries(BMS, a) ==> a in BMS_LIMITS + BMS_STATE + BMS_SENSORS
    ensures Carries(SYSTEM, a) ==> a in SYSTEM_FIELDS
    ensures Carries(TIMER, a) ==> a in TIMER_FIELDS
    ensures Carries(CONFIG, a) ==> a in CONFIG_FIELDS
    ensures Carries(CT, a) ==> a in CT_FIELDS
  {
    match a
    case Battery(f) => assert BatterySource(f).packet == BMS;
    case System(f) => assert SystemSource(f).packet == SYSTEM;
    case Timer(f) => assert TimerSource(f).packet == TIMER;
    case Configuration(f) => assert ConfigurationSource(f).packet == if f == CtPollingRate then CT else CONFIG;
    case _ =>
  }

  lemma RuntimeBlocks(payload: seq<byte>, a: Attribute)
    requires Carries(RUNTIME, a) && Reads(a, RUNTIME, payload).Some?
    ensures a in if |payload| < 60 then RUNTIME_SHORT else if |payload| < 100 then RUNTIME_LONG
                 else RUNTIME_LONG + RUNTIME_POWER + RUNTIME_ENERGY
  {
    hide ConvertAt;
    assert RuntimeSource(a.runtime).packet == RUNTIME;
  }

  /** The cell voltages are a list of sixteen. */
  predicate HasCells(v: Values) {
    Battery(CellVoltages) in v && v[Battery(CellVoltages)].Cells? && |v[Battery(CellVoltages)].cells| == 16
  }

  /** No message changes that. */
  lemma UpdateKeepsCells(v: Values, frame: seq<byte>)
    requires HasCells(v)
    ensures HasCells(v + if FrameUpdate(frame).Some? then FrameUpdate(frame).value else map[])
  {
    hide IsFrame, MeterText, ApiText, Split, Strip, AsciiIgnore, U16At, Pairs, Binary;
    if FrameUpdate(frame).Some? {
      var m := MessageOf(frame);
      PairsAreText(Split(AsciiIgnore(m.payload), ','), '=', DEVICE_KEYS);
      PairsAreText(Split(Strip(AsciiIgnore(m.payload)), ','), ':', NETWORK_KEYS);
      BinaryCells(PacketFor(m.command).value, m.payload);
    }
  }

  lemma BinaryCells(p: Packet, payload: seq<byte>)
    ensures HasCells(Binary(p, payload)) || Battery(CellVoltages) !in Binary(p, payload)
  {
    hide Binary, CellAt;
    BinaryReads(p, payload, Battery(CellVoltages));
  }

  /** The keys of the text packets are not the cells. */
  lemma {:induction false} PairsAreText(items: seq<string>, sep: char, keys: map<string, Attribute>)
    requires Battery(CellVoltages) !in keys.Values
    ensures Battery(CellVoltages) !in Pairs(items, sep, keys)
  {
    hide Strip, SplitOnce;
    if items == [] {
    } else {
      PairsAreText(items[..|items| - 1], sep, keys);
    }
  }

  class MarstekData {
    var values: Values

    constructor ()
      ensures HasCells(values)
      ensures values == map a | a in ATTRIBUTES :: Initial(a)
    {
      values := map a | a in ATTRIBUTES :: Initial(a);
    }

    /** 0x14. */
    method ParseBmsData(payload: seq<byte>) returns (ok: bool)
      requires HasCells(values)
      modifies this
      ensures ok == (80 <= |payload|)
      ensures values == old(values) + if ok then Binary(BMS, payload) else map[]
    {
      hide U16At, S16At, U32At, CellsAt, Quotient, HasBit, Parse.Did, Put, Binary, Reads, Carries;
      if |payload| < 80 {
        return false;
      }
      ghost var t := Parse(BMS, payload, values);
      var s := Flat(values, {});
      t.Begin();
      s := BmsLimits(payload, t, s);
      s := BmsState(payload, t, s);
      s := BmsSensors(payload, t, s, values[Battery(CellVoltages)].cells);
      forall a | Carries(BMS, a) ensures a in s.tracked {
        Blocks(a);
      }
      Complete(t, s);
      values := s.values;
      return true;
    }

    /** 0x0D. */
    method ParseSystemData(payload: seq<byte>) returns (ok: bool)
      modifies this
      ensures ok == (11 <= |payload|)
      ensures values == old(values) + if ok then Binary(SYSTEM, payload) else map[]
    {
      hide U16At, S16At, U32At, CellsAt, Quotient, HasBit, Parse.Did, Put, Binary, Reads, Carries;
      if |payload| < 11 {
        return false;
      }
      ghost var t := Parse(SYSTEM, payload, values);
      var s := Flat(values, {});
      t.Begin();
      s := SystemFields(payload, t, s);
      forall a | Carries(SYSTEM, a) ensures a in s.tracked {
        Blocks(a);
      }
      Complete(t, s);
      values := s.values;
      return true;
    }

    /** 0x13. */
    method ParseTimerInfo(payload: seq<byte>) returns (ok: bool)
      modifies this
      ensures ok == (45 <= |payload|)
      ensures values == old(values) + if ok then Binary(TIMER, payload) else map[]
    {
      hide U16At, S16At, U32At, CellsAt, Quotient, HasBit, Parse.Did, Put, Binary, Reads, Carries;
      if |payload| < 45 {
        return false;
      }
      ghost var t := Parse(TIMER, payload, values);
      var s := Flat(values, {});
      t.Begin();
      s := TimerFields(payload, t, s);
      forall a | Carries(TIMER, a) ensures a in s.tracked {
        Blocks(a);
      }
      Complete(t, s);
      values := s.values;
      return true;
    }

    /** 0x1A. */
    method ParseConfigData(payload: seq<byte>) returns (ok: bool)
      modifies this
      ensures ok == (17 <= |payload|)
      ensures values == old(values) + if ok then Binary(CONFIG, payload) else map[]
    {
      hide U16At, S16At, U32At, CellsAt, Quotient, HasBit, Parse.Did, Put, Binary, Reads, Carries;
      if |payload| < 17 {
        return false;
      }
      ghost var t := Parse(CONFIG, payload, values);
      var s := Flat(values, {});
      t.Begin();
      s := ConfigFields(payload, t, s);
      forall a | Carries(CONFIG, a) ensures a in s.tracked {
        Blocks(a);
      }
      Complete(t, s);
      values := s.values;
      return true;
    }

    /** 0x22. */
    method ParseCtPollingRate(payload: seq<byte>) returns (ok: bool)
      modifies this
      ensures ok == (1 <= |payload|)
      ensures values == old(values) + if ok then Binary(CT, payload) else map[]
    {
      hide U16At, S16At, U32At, CellsAt, Quotient, HasBit, Parse.Did, Put, Binary, Reads, Carries;
      if |payload| < 1 {
        return false;
      }
      ghost var t := Parse(CT, payload, values);
      var s := Flat(values, {});
      t.Begin();
      s := CtFields(payload, t, s);
      forall a | Carries(CT, a) ensures a in s.tracked {
        Blocks(a);
      }
      Complete(t, s);
      values := s.values;
      return true;
    }

    /** 0x03, in its three length bands. */
    method ParseRuntimeInfo(payload: seq<byte>) returns (ok: bool)
      modifies this
      ensures ok == (37 <= |payload|)
      ensures values == old(values) + if ok then Binary(RUNTIME, payload) else map[]
    {
      hide U16At, S16At, U32At, CellsAt, Quotient, HasBit, Parse.Did, Put, Binary, Reads, Carries;
      if |payload| < 37 {
        return false;
      }
      ghost var t := Parse(RUNTIME, payload, values);
      var s := Flat(values, {});
      t.Begin();
      if |payload| < 60 {
        s := RuntimeShort(payload, t, s);
      } else {
        s := RuntimeLong(payload, t, s);
        if 100 <= |payload| {
          s := RuntimePower(payload, t, s);
          s := RuntimeEnergy(payload, t, s);
        }
      }
      forall a | Carries(RUNTIME, a) && Reads(a, RUNTIME, payload).Some? ensures a in s.tracked {
        RuntimeBlocks(payload, a);
      }
      Complete(t, s);
      values := s.values;
      return true;
    }

    /** 0x04: comma-separated `key=value` pairs. */
    method ParseDeviceInfo(payload: seq<byte>) returns (ok: bool)
      modifies this
      ensures ok == (1 <= |payload|)
      ensures values == old(values) + if ok then Pairs(Split(AsciiIgnore(payload), ','), '=', DEVICE_KEYS) else map[]
    {
      hide OneKey, Split, SplitOnce, Strip, AsciiIgnore, Pairs, DEVICE_KEYS, NETWORK_KEYS;
      if payload == [] {
        return false;
      }
      var items := Split(AsciiIgnore(payload), ',');
      var v := values;
      ghost var first := v;
      NoPairs(v, '=', DEVICE_KEYS);
      assert items[..0] == [];
      for i := 0 to |items|
        invariant v == first + Pairs(items[..i], '=', DEVICE_KEYS)
      {
        PairsStep(first, items, i, '=', DEVICE_KEYS);
        var pair := SplitOnce(items[i], '=');
        if pair.Some? {
          v := AssignDevice(v, Strip(pair.value.0), Strip(pair.value.1));
        }
      }
      assert items[..|items|] == items;
      values := v;
      return true;
    }

    /** 0x08. */
    method ParseWifiSsid(payload: seq<byte>)
      modifies this
      ensures values == old(values) + map[Network(WifiSsid) := Str(Strip(AsciiIgnore(payload)))]
    {
      values := values[Network(WifiSsid) := Str(Strip(AsciiIgnore(payload)))];
    }

    /** 0x21. */
    method ParseMeterIp(payload: seq<byte>) returns (ok: bool)
      modifies this
      ensures ok == (1 <= |payload|)
      ensures values == old(values) + if ok then map[Network(MeterIp) := Str(MeterText(payload))] else map[]
    {
      if payload == [] {
        return false;
      }
      if forall b | b in payload :: b == 0xFF {
        values := values[Network(MeterIp) := Str("(not set)")];
      } else {
        values := values[Network(MeterIp) := Str(StripNul(AsciiIgnore(payload)))];
      }
      return true;
    }

    /** 0x24: the whole text, and its comma-separated `key:value` pairs. */
    method ParseNetworkInfo(payload: seq<byte>)
      modifies this
      ensures values == old(values) + NetworkValues(payload)
    {
      hide OneKey, Split, SplitOnce, Strip, AsciiIgnore, Pairs, DEVICE_KEYS, NETWORK_KEYS;
      var text := Strip(AsciiIgnore(payload));
      var v := values[Network(NetworkInfo) := Str(text)];
      ghost var first := v;
      NoPairs(v, ':', NETWORK_KEYS);
      if text != "" {
        var items := Split(text, ',');
        assert items[..0] == [];
        for i := 0 to |items|
          invariant v == first + Pairs(items[..i], ':', NETWORK_KEYS)
        {
          PairsStep(first, items, i, ':', NETWORK_KEYS);
          var pair := SplitOnce(items[i], ':');
          if pair.Some? {
            v := AssignNetwork(v, Strip(pair.value.0), Strip(pair.value.1));
          }
        }
        assert items[..|items|] == items;
      } else {
        NothingToSplit();
      }
      values := v;
    }

    /** 0x28. */
    method ParseLocalApiStatus(payload: seq<byte>) returns (ok: bool)
      modifies this
      ensures ok == (3 <= |payload|)
      ensures values == old(values) + if ok then map[Network(LocalApiStatus) := Str(ApiText(payload))] else map[]
    {
      if |payload| < 3 {
        return false;
      }
      var enabled := if payload[0] == 1 then "enabled" else "disabled";
      values := values[Network(LocalApiStatus) := Str(enabled + "/" + Decimal(U16At(payload, 1)))];
      return true;
    }

    /** The envelope checks. */
    method ParseNotification(data: seq<byte>) returns (ok: bool)
      requires HasCells(values)
      modifies this
      ensures HasCells(values)
      ensures ok == FrameUpdate(data).Some?
      ensures values == old(values) + if ok then FrameUpdate(data).value else map[]
    {
      hide HasCells, Decoded;
      UpdateKeepsCells(values, data);
      var envelope := CheckEnvelope(data);
      if envelope.Failure? {
        assert values == values + map[];
        return false;
      }
      ok := ParseCommand(envelope.value.command, envelope.value.payload);
    }

    /** The dispatch on the command byte. */
    method ParseCommand(command: byte, payload: seq<byte>) returns (ok: bool)
      requires HasCells(values)
      modifies this
      ensures ok == Decoded(Message(command, payload)).Some?
      ensures values == old(values) + if ok then Decoded(Message(command, payload)).value else map[]
    {
      hide Binary, Pairs, MeterText, ApiText, U16At, NetworkValues, HasCells, Strip, AsciiIgnore, Split;
      if command == 0x03 {
        ok := ParseRuntimeInfo(payload);
      } else if command == 0x04 {
        ok := ParseDeviceInfo(payload);
      } else if command == 0x08 {
        ParseWifiSsid(payload);
        ok := true;
      } else if command == 0x0D {
        ok := ParseSystemData(payload);
      } else if command == 0x13 {
        ok := ParseTimerInfo(payload);
      } else if command == 0x14 {
        ok := ParseBmsData(payload);
      } else if command == 0x1A {
        ok := ParseConfigData(payload);
      } else if command == 0x21 {
        ok := ParseMeterIp(payload);
      } else if command == 0x22 {
        ok := ParseCtPollingRate(payload);
      } else if command == 0x24 {
        ParseNetworkInfo(payload);
        ok := true;
      } else if command == 0x28 {
        ok := ParseLocalApiStatus(payload);
      } else {
        ok := false;
      }
    }
  }

  /** An empty text has one item, without a separator. */
  lemma NothingToSplit()
    ensures Pairs(Split("", ','), ':', NETWORK_KEYS) == map[]
  {
    assert Split("", ',') == [""];
    assert SplitOnce("", ':').None?;
  }

  method AssignDevice(v: Values, key: string, text: string) returns (w: Values)
    ensures w == v + OneKey(key, text, DEVICE_KEYS)
  {
    w := v;
    if key == "type" {
      w := w[Device(DeviceType) := Str(text)];
    } else if key == "id" {
      w := w[Device(DeviceId) := Str(text)];
    } else if key == "sn" {
      w := w[Device(SerialNumber) := Str(text)];
    } else if key == "mac" {
      w := w[Device(MacAddress) := Str(text)];
    } else if key in {"dev_ver", "fc_ver", "fw"} {
      w := w[Device(FirmwareVersion) := Str(text)];
    } else if key == "hw" {
      w := w[Device(HardwareVersion) := Str(text)];
    }
  }

  method AssignNetwork(v: Values, key: string, text: string) returns (w: Values)
    ensures w == v + OneKey(key, text, NETWORK_KEYS)
  {
    w := v;
    if key == "ip" {
      w := w[Network(IpAddress) := Str(text)];
    } else if key in {"gate", "gateway"} {
      w := w[Network(Gateway) := Str(text)];
    } else if key == "mask" {
      w := w[Network(SubnetMask) := Str(text)];
    } else if key == "dns" {
      w := w[Network(DnsServer) := Str(text)];
    }
  }
}
