/** What device information supplies on Jupiter: the pairs that were written into it come back, each
    under the attribute of its key. */
module JupiterTexts {
  import opened Wrappers
  import opened Paths
  import opened Bytes
  import opened Text
  import opened TextLaws
  import opened Freshness
  import opened VenusTexts
  import opened Jupiter

  /** The i-th pair is the last one with this key. */
  predicate LastWith(pairs: seq<Pair>, key: string, i: nat) {
    i < |pairs| && pairs[i].key == key && forall j | i < j < |pairs| :: pairs[j].key != key
  }

  lemma {:induction false} TableReads(pairs: seq<Pair>, key: string, i: nat)
    requires forall j | 0 <= j < |pairs| :: Writable(pairs[j], '=')
    requires LastWith(pairs, key, i)
    ensures var table := Table(Items(pairs, '=')); key in table && table[key] == pairs[i].value
  {
    hide Table, Strip;
    var init, p := pairs[..|pairs| - 1], pairs[|pairs| - 1];
    assert Items(pairs, '=') == Items(init, '=') + [p.key + "=" + p.value];
    TableOf(Items(init, '='), p.key, p.value);
    TrimmedStays(p.key);
    TrimmedStays(p.value);
    if i == |pairs| - 1 {
    } else {
      TableReads(init, key, i);
    }
  }

  lemma WrittenTable(pairs: seq<Pair>, payload: seq<byte>, key: string, i: nat)
    requires pairs != [] && forall j | 0 <= j < |pairs| :: Writable(pairs[j], '=')
    requires IsAsciiText(Joined(Items(pairs, '='))) && payload == Ascii(Joined(Items(pairs, '=')))
    requires LastWith(pairs, key, i)
    ensures var table := Table(Split(AsciiIgnore(payload), ','));
      IsAscii(payload) && key in table && table[key] == pairs[i].value
  {
    hide Table, Split, AsciiIgnore, Joined;
    AsciiReadsBack(Joined(Items(pairs, '=')));
    ItemsHaveNoComma(pairs, '=');
    SplitJoined(Items(pairs, '='));
    TableReads(pairs, key, i);
  }

  /** The last text written under a key of the identity becomes the attribute of that key. */
  lemma IdentityReads(pairs: seq<Pair>, payload: seq<byte>, intOf: string -> Option<int>, i: nat)
    requires i < |pairs| && forall j | 0 <= j < |pairs| :: Writable(pairs[j], '=')
    requires IsAsciiText(Joined(Items(pairs, '='))) && payload == Ascii(Joined(Items(pairs, '=')))
    requires LastWith(pairs, pairs[i].key, i)
    ensures var us, text := DeviceInformation(payload, intOf).changes, Some(Words(pairs[i].value));
      && (pairs[i].key == "type" ==> LastOf(us, [Name("identity"), Name("device_type")]) == text)
      && (pairs[i].key == "id" ==> LastOf(us, [Name("identity"), Name("device_id")]) == text)
      && (pairs[i].key == "mac" ==> LastOf(us, [Name("identity"), Name("mac_address")]) == text)
  {
    hide DeviceInformation, LastOf, Table, Split, AsciiIgnore, Joined, IsAscii;
    WrittenTable(pairs, payload, pairs[i].key, i);
    forall k: nat | k < 3 && IDENTITY_FIELDS[k].0 == pairs[i].key
      ensures LastOf(DeviceInformation(payload, intOf).changes, PathOf("identity", IDENTITY_FIELDS[k].1))
        == Some(Words(pairs[i].value))
    {
      DeviceInformationExact(payload, intOf, k, []);
    }
    assert IDENTITY_FIELDS[0] == ("type", "device_type");
    assert IDENTITY_FIELDS[1] == ("id", "device_id");
    assert IDENTITY_FIELDS[2] == ("mac", "mac_address");
  }

  /** The last number written under the key of a version becomes that version. */
  lemma VersionsRead(pairs: seq<Pair>, payload: seq<byte>, intOf: string -> Option<int>, i: nat)
    requires i < |pairs| && forall j | 0 <= j < |pairs| :: Writable(pairs[j], '=')
    requires IsAsciiText(Joined(Items(pairs, '='))) && payload == Ascii(Joined(Items(pairs, '=')))
    requires LastWith(pairs, pairs[i].key, i) && intOf(pairs[i].value).Some?
    ensures var us, number := DeviceInformation(payload, intOf).changes, Some(Number(intOf(pairs[i].value).value));
      && (pairs[i].key == "ems_v" ==> LastOf(us, [Name("runtime"), Name("ems_firmware_version")]) == number)
      && (pairs[i].key == "inv_v" ==> LastOf(us, [Name("runtime"), Name("inverter_firmware_version")]) == number)
      && (pairs[i].key == "mppt_v" ==> LastOf(us, [Name("runtime"), Name("mppt_firmware_version")]) == number)
      && (pairs[i].key == "bms_v" ==> LastOf(us, [Name("runtime"), Name("bms_firmware_version")]) == number)
  {
    hide DeviceInformation, LastOf, Table, Split, AsciiIgnore, Joined, IsAscii;
    WrittenTable(pairs, payload, pairs[i].key, i);
    forall k: nat | k < 4 && VERSION_FIELDS[k].0 == pairs[i].key
      ensures LastOf(DeviceInformation(payload, intOf).changes, PathOf("runtime", VERSION_FIELDS[k].1))
        == Some(Number(intOf(pairs[i].value).value))
    {
      DeviceInformationExact(payload, intOf, k, []);
    }
    assert VERSION_FIELDS[0] == ("ems_v", "ems_firmware_version");
    assert VERSION_FIELDS[1] == ("inv_v", "inverter_firmware_version");
    assert VERSION_FIELDS[2] == ("mppt_v", "mppt_firmware_version");
    assert VERSION_FIELDS[3] == ("bms_v", "bms_firmware_version");
  }
}
