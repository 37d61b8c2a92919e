/** What the text messages of Venus supply: the text that was written into them comes back, field by
    field. */
module VenusTexts {
  import opened Wrappers
  import opened Bytes
  import opened Frames
  import opened Text
  import opened TextLaws
  import opened VenusModel
  import opened VenusReadings

  // ----- writing text -----

  predicate IsAsciiText(s: string) {
    forall i | 0 <= i < |s| :: s[i] as int < 0x80
  }

  function Ascii(s: string): (b: seq<byte>)
    requires IsAsciiText(s)
    ensures |b| == |s|
  {
    seq(|s|, i requires 0 <= i < |s| => s[i] as byte)
  }

  /** The items with a comma between each two. */
  function Joined(items: seq<string>): string
    requires items != []
  {
    if |items| == 1 then items[0] else items[0] + "," + Joined(items[1..])
  }

  datatype Pair = Pair(key: string, value: string)

  predicate Trimmed(s: string) {
    s != "" ==> !IsSpace(s[0]) && !IsSpace(s[|s| - 1])
  }

  /** A pair that can be written as an item of a list. */
  predicate Writable(p: Pair, sep: char) {
    && ',' !in p.key && ',' !in p.value && sep !in p.key && sep != ','
    && Trimmed(p.key) && Trimmed(p.value)
  }

  function Items(pairs: seq<Pair>, sep: char): (items: seq<string>)
    ensures |items| == |pairs|
  {
    seq(|pairs|, i requires 0 <= i < |pairs| => pairs[i].key + [sep] + pairs[i].value)
  }

  // ----- reading it back -----

  lemma {:induction false} AsciiReadsBack(s: string)
    requires IsAsciiText(s)
    ensures AsciiIgnore(Ascii(s)) == s
  {
    if s == "" {
    } else {
      assert Ascii(s)[1..] == Ascii(s[1..]);
      AsciiReadsBack(s[1..]);
    }
  }

  lemma {:induction false} SplitJoined(items: seq<string>)
    requires items != [] && forall i | 0 <= i < |items| :: ',' !in items[i]
    ensures Split(Joined(items), ',') == items
  {
    hide Split;
    if |items| == 1 {
      SplitNowhere(items[0], ',');
    } else {
      SplitJoined(items[1..]);
      SplitAt(items[0], ',', Joined(items[1..]));
    }
  }

  /** The i-th pair is the last one whose key stands for the attribute. */
  predicate LastFor(pairs: seq<Pair>, keys: map<string, Attribute>, a: Attribute, i: nat) {
    && i < |pairs| && pairs[i].key in keys && keys[pairs[i].key] == a
    && forall j | i < j < |pairs| && pairs[j].key in keys :: keys[pairs[j].key] != a
  }

  /** Values made of pairs: each attribute has the value of the last pair with a key of its own, and no
      other attribute has one. */
  ghost predicate Lists(values: Values, pairs: seq<Pair>, keys: map<string, Attribute>) {
    && (forall a, i: nat | LastFor(pairs, keys, a, i) :: a in values && values[a] == Str(pairs[i].value))
    && (forall a | a in values :: exists i: nat :: LastFor(pairs, keys, a, i))
  }

  lemma {:induction false} PairsReadBack(pairs: seq<Pair>, sep: char, keys: map<string, Attribute>)
    requires forall i | 0 <= i < |pairs| :: Writable(pairs[i], sep)
    ensures Lists(Pairs(Items(pairs, sep), sep, keys), pairs, keys)
  {
    hide Strip;
    if pairs == [] {
    } else {
      var init, p := pairs[..|pairs| - 1], pairs[|pairs| - 1];
      assert Items(pairs, sep) == Items(init, sep) + [p.key + [sep] + p.value];
      PairsReadBack(init, sep, keys);
      PairsOf(Items(init, sep), p.key, sep, p.value, keys);
      TrimmedStays(p.key);
      TrimmedStays(p.value);
      ListsMore(Pairs(Items(init, sep), sep, keys), init, p, keys);
      assert pairs == init + [p];
    }
  }

  lemma TrimmedStays(s: string)
    requires Trimmed(s)
    ensures Strip(s) == s
  {
    StripOf("", s, "");
    assert "" + s + "" == s;
  }

  lemma ListsMore(values: Values, pairs: seq<Pair>, p: Pair, keys: map<string, Attribute>)
    requires Lists(values, pairs, keys)
    ensures Lists(if p.key in keys then values[keys[p.key] := Str(p.value)] else values, pairs + [p], keys)
  {
    var more := pairs + [p];
    var next := if p.key in keys then values[keys[p.key] := Str(p.value)] else values;
    forall a, i: nat | LastFor(more, keys, a, i) ensures a in next && next[a] == Str(more[i].value) {
      if i < |pairs| {
        assert more[|pairs|] == p;
        assert forall j | i < j < |pairs| :: more[j] == pairs[j];
        assert LastFor(pairs, keys, a, i);
      }
    }
    forall a | a in next ensures exists i: nat :: LastFor(more, keys, a, i) {
      if p.key in keys && keys[p.key] == a {
        assert LastFor(more, keys, a, |pairs|);
      } else {
        var i: nat :| LastFor(pairs, keys, a, i);
        assert LastFor(more, keys, a, i);
      }
    }
  }

  lemma ItemsHaveNoComma(pairs: seq<Pair>, sep: char)
    requires forall i | 0 <= i < |pairs| :: Writable(pairs[i], sep)
    ensures forall i | 0 <= i < |pairs| :: ',' !in Items(pairs, sep)[i]
  {
  }

  lemma InKeys(values: Values, pairs: seq<Pair>, keys: map<string, Attribute>)
    requires Lists(values, pairs, keys)
    ensures values.Keys <= keys.Values
  {
  }

  // ----- messages -----

  /** Device information: a list of pairs gives each attribute the last value written for it. */
  lemma DeviceReads(pairs: seq<Pair>, payload: seq<byte>)
    requires pairs != [] && forall i | 0 <= i < |pairs| :: Writable(pairs[i], '=')
    requires IsAsciiText(Joined(Items(pairs, '='))) && payload == Ascii(Joined(Items(pairs, '=')))
    ensures var update := Decoded(Message(0x04, payload));
      update.Some? && Lists(update.value, pairs, DEVICE_KEYS)
  {
    hide Pairs, Split, AsciiIgnore, DEVICE_KEYS, Lists, Ascii;
    AsciiReadsBack(Joined(Items(pairs, '=')));
    assert Items(pairs, '=')[0] != "" && Joined(Items(pairs, '=')) != "";
    ItemsHaveNoComma(pairs, '=');
    SplitJoined(Items(pairs, '='));
    PairsReadBack(pairs, '=', DEVICE_KEYS);
  }

  /** Network information: the whole text between the white space, and the same for its pairs. */
  lemma NetworkReads(l: string, pairs: seq<Pair>, r: string, payload: seq<byte>)
    requires pairs != [] && forall i | 0 <= i < |pairs| :: Writable(pairs[i], ':')
    requires All(l, IsSpace) && All(r, IsSpace) && Trimmed(Joined(Items(pairs, ':')))
    requires IsAsciiText(l + Joined(Items(pairs, ':')) + r) && payload == Ascii(l + Joined(Items(pairs, ':')) + r)
    ensures var update := Decoded(Message(0x24, payload));
      && update.Some? && Network(NetworkInfo) in update.value
      && update.value[Network(NetworkInfo)] == Str(Joined(Items(pairs, ':')))
      && Lists(update.value - {Network(NetworkInfo)}, pairs, NETWORK_KEYS)
  {
    hide Pairs, Split, AsciiIgnore, Strip, Lists, Ascii, Joined;
    var text := Joined(Items(pairs, ':'));
    AsciiReadsBack(l + text + r);
    StripOf(l, text, r);
    ItemsHaveNoComma(pairs, ':');
    SplitJoined(Items(pairs, ':'));
    PairsReadBack(pairs, ':', NETWORK_KEYS);
    var listed := Pairs(Items(pairs, ':'), ':', NETWORK_KEYS);
    InKeys(listed, pairs, NETWORK_KEYS);
    assert map[Network(NetworkInfo) := Str(text)] + listed - {Network(NetworkInfo)} == listed;
  }

  /** The network name: the text between the white space. */
  lemma WifiReads(l: string, t: string, r: string, payload: seq<byte>)
    requires All(l, IsSpace) && All(r, IsSpace) && Trimmed(t)
    requires IsAsciiText(l + t + r) && payload == Ascii(l + t + r)
    ensures Decoded(Message(0x08, payload)) == Some(map[Network(WifiSsid) := Str(t)])
  {
    hide AsciiIgnore, Strip, Ascii;
    AsciiReadsBack(l + t + r);
    StripOf(l, t, r);
  }

  /** The meter address: the text between the zero bytes; nothing but 0xFF bytes stands for none. */
  lemma MeterReads(l: string, t: string, r: string, payload: seq<byte>)
    requires All(l, IsNul) && All(r, IsNul) && (t != "" ==> !IsNul(t[0]) && !IsNul(t[|t| - 1]))
    requires IsAsciiText(l + t + r) && payload == Ascii(l + t + r) && payload != []
    ensures Decoded(Message(0x21, payload)) == Some(map[Network(MeterIp) := Str(t)])
  {
    hide AsciiIgnore, StripNul;
    assert payload[0] == (l + t + r)[0] as byte && payload[0] in payload;
    AsciiReadsBack(l + t + r);
    StripNulOf(l, t, r);
  }

  lemma NoMeterReads(payload: seq<byte>)
    requires payload != [] && forall b | b in payload :: b == 0xFF
    ensures Decoded(Message(0x21, payload)) == Some(map[Network(MeterIp) := Str("(not set)")])
  {
  }

  /** The local interface: whether its first byte is 1, and the port that follows. */
  lemma LocalApiReads(payload: seq<byte>, port: nat)
    requires 3 <= |payload| && port < 0x1_0000 && payload[1..3] == LittleEndian(port, 2)
    ensures Decoded(Message(0x28, payload)) ==
            Some(map[Network(LocalApiStatus) :=
              Str(if payload[0] == 1 then "enabled/" + Decimal(port) else "disabled/" + Decimal(port))])
  {
    hide U16At, LittleEndian, Decimal;
    U16ReadsBack(payload, 1, port);
    assert "enabled/" == "enabled" + "/" && "disabled/" == "disabled" + "/";
  }
}
