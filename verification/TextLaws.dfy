/** What the string operations mean. Each is fixed by what it does to strings put together from their
    parts. */
module TextLaws {
  import opened Wrappers
  import opened Paths
  import opened Bytes
  import opened Text
  import opened PathKeys
  import opened VenusModel
  import opened Jupiter

  // ----- decoding -----

  /** Bytes decode one by one; those above 0x7F leave nothing. */
  lemma AsciiIgnoreOne(x: byte)
    ensures AsciiIgnore([x]) == if x < 0x80 then [x as char] else ""
  {
    var b := [x];
    assert b[1..] == [] && AsciiIgnore(b[1..]) == "";
  }

  lemma {:induction false} AsciiIgnoreJoin(a: seq<byte>, b: seq<byte>)
    ensures AsciiIgnore(a + b) == AsciiIgnore(a) + AsciiIgnore(b)
  {
    if a == [] {
      assert a + b == b;
    } else {
      assert (a + b)[1..] == a[1..] + b;
      AsciiIgnoreJoin(a[1..], b);
    }
  }

  /** Decoding keeps every byte iff the strict decoder accepts the bytes. */
  lemma {:induction false} AsciiIffKept(b: seq<byte>)
    ensures |AsciiIgnore(b)| <= |b| && (IsAscii(b) <==> |AsciiIgnore(b)| == |b|)
  {
    if b == [] {
    } else {
      AsciiIffKept(b[1..]);
      if IsAscii(b) {
        assert b[0] in b && forall x | x in b[1..] :: x in b;
      } else {
        var x :| x in b && 0x80 <= x;
        assert x == b[0] || x in b[1..];
      }
    }
  }

  // ----- stripping -----

  predicate All(s: string, drop: char -> bool) {
    forall c | c in s :: drop(c)
  }

  lemma {:induction false} StripLeftOf(l: string, t: string, drop: char -> bool)
    requires All(l, drop) && (t != "" ==> !drop(t[0]))
    ensures StripLeft(l + t, drop) == t
  {
    if l == "" {
      assert l + t == t;
    } else {
      assert (l + t)[1..] == l[1..] + t;
      StripLeftOf(l[1..], t, drop);
    }
  }

  lemma {:induction false} StripRightOf(t: string, r: string, drop: char -> bool)
    requires All(r, drop) && (t != "" ==> !drop(t[|t| - 1]))
    ensures StripRight(t + r, drop) == t
  {
    if r == "" {
      assert t + r == t;
    } else {
      assert (t + r)[..|t + r| - 1] == t + r[..|r| - 1];
      StripRightOf(t, r[..|r| - 1], drop);
    }
  }

  /** Exactly the white space at both ends goes. */
  lemma StripOf(l: string, t: string, r: string)
    requires All(l, IsSpace) && All(r, IsSpace) && (t != "" ==> !IsSpace(t[0]) && !IsSpace(t[|t| - 1]))
    ensures Strip(l + t + r) == t
  {
    assert l + t + r == l + (t + r);
    if t == "" {
      assert l + t + r == (l + r) + "";
      StripLeftOf(l + r, "", IsSpace);
      StripRightOf("", "", IsSpace);
    } else {
      StripLeftOf(l, t + r, IsSpace);
      StripRightOf(t, r, IsSpace);
    }
  }

  predicate IsNul(c: char) {
    c as int == 0
  }

  lemma StripNulOf(l: string, t: string, r: string)
    requires All(l, IsNul) && All(r, IsNul) && (t != "" ==> !IsNul(t[0]) && !IsNul(t[|t| - 1]))
    ensures StripNul(l + t + r) == t
  {
    var drop: char -> bool := c => c == 0 as char;
    assert l + t + r == l + (t + r);
    if t == "" {
      assert l + t + r == (l + r) + "";
      StripLeftOf(l + r, "", drop);
      StripRightOf("", "", drop);
    } else {
      StripLeftOf(l, t + r, drop);
      StripRightOf(t, r, drop);
    }
  }

  /** White space: tab to carriage return, the four separators, and the blank. */
  lemma WhiteSpace(c: char)
    ensures IsSpace(c) <==> c as int in {0x09, 0x0A, 0x0B, 0x0C, 0x0D, 0x1C, 0x1D, 0x1E, 0x1F, 0x20}
  {
  }

  // ----- splitting -----

  /** The first separator splits. */
  lemma {:induction false} SplitOnceAt(k: string, sep: char, v: string)
    requires sep !in k
    ensures SplitOnce(k + [sep] + v, sep) == Some((k, v))
  {
    var s := k + [sep] + v;
    if k == "" {
      assert s[0] == sep && s[1..] == v;
    } else {
      assert s[0] == k[0] && s[1..] == k[1..] + [sep] + v;
      SplitOnceAt(k[1..], sep, v);
      assert [k[0]] + k[1..] == k;
    }
  }

  lemma {:induction false} SplitOnceNowhere(s: string, sep: char)
    requires sep !in s
    ensures SplitOnce(s, sep) == None
  {
    if s == "" {
    } else {
      SplitOnceNowhere(s[1..], sep);
    }
  }

  lemma {:induction false} SplitAt(k: string, sep: char, v: string)
    requires sep !in k
    ensures Split(k + [sep] + v, sep) == [k] + Split(v, sep)
  {
    var s := k + [sep] + v;
    if k == "" {
      assert s[0] == sep && s[1..] == v;
    } else {
      assert s[0] == k[0] && s[1..] == k[1..] + [sep] + v;
      SplitAt(k[1..], sep, v);
      assert [k[0]] + k[1..] == k;
    }
  }

  lemma {:induction false} SplitNowhere(s: string, sep: char)
    requires sep !in s
    ensures Split(s, sep) == [s]
  {
    if s == "" {
    } else {
      SplitNowhere(s[1..], sep);
      assert [s[0]] + s[1..] == s;
    }
  }

  // ----- numerals and dotted keys -----

  /** A numeral has no leading zero. */
  lemma {:induction false} NoLeadingZero(n: nat)
    ensures Decimal(n) != "" && (Decimal(n)[0] == '0' <==> n == 0)
  {
    if n < 10 {
    } else {
      NoLeadingZero(n / 10);
    }
  }

  function Parts(path: Path<string>): seq<string> {
    if path == [] then []
    else [if path[0].Name? then path[0].name else Decimal(path[0].index)] + Parts(path[1..])
  }

  /** Splitting a dotted key at its dots gives the parts of the path. */
  lemma {:induction false} KeySplits(path: Path<string>)
    requires WellNamed(path)
    ensures Split(PathKey(path), '.') == Parts(path)
  {
    hide Split, Identifier, Decimal;
    PartsDiffer(path[0], path[0]);
    assert path == [path[0]] + path[1..];
    if |path| == 1 {
      assert Parts(path[1..]) == [];
      SplitNowhere(Part(path[0]), '.');
    } else {
      SplitAt(Part(path[0]), '.', PathKey(path[1..]));
      KeySplits(path[1..]);
    }
  }

  // ----- lists of pairs -----

  /** Each further item with a known key overwrites; any other leaves the values alone. */
  lemma PairsOf(items: seq<string>, k: string, sep: char, v: string, keys: map<string, Attribute>)
    requires sep !in k
    ensures Pairs(items + [k + [sep] + v], sep, keys)
      == if Strip(k) in keys then Pairs(items, sep, keys)[keys[Strip(k)] := Str(Strip(v))] else Pairs(items, sep, keys)
  {
    hide Strip;
    var more := items + [k + [sep] + v];
    assert more[..|more| - 1] == items;
    SplitOnceAt(k, sep, v);
    assert Pairs(items, sep, keys) + map[] == Pairs(items, sep, keys);
  }

  lemma PairsOfOther(items: seq<string>, s: string, sep: char, keys: map<string, Attribute>)
    requires sep !in s
    ensures Pairs(items + [s], sep, keys) == Pairs(items, sep, keys)
  {
    var more := items + [s];
    assert more[..|more| - 1] == items;
    SplitOnceNowhere(s, sep);
    assert Pairs(items, sep, keys) + map[] == Pairs(items, sep, keys);
  }

  lemma TableOf(items: seq<string>, k: string, v: string)
    requires '=' !in k
    ensures Table(items + [k + "=" + v]) == Table(items)[Strip(k) := Strip(v)]
  {
    hide Strip;
    var more := items + [k + "=" + v];
    assert more[..|more| - 1] == items;
    SplitOnceAt(k, '=', v);
  }

  lemma TableOfOther(items: seq<string>, s: string)
    requires '=' !in s
    ensures Table(items + [s]) == Table(items)
  {
    var more := items + [s];
    assert more[..|more| - 1] == items;
    SplitOnceNowhere(s, '=');
  }
}
