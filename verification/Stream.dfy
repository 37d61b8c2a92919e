/** Theorems about whole streams: what cutting into chunks does, and where every byte goes. */
module Stream {
  import opened Wrappers
  import opened Bytes
  import opened Frames
  import opened Decoder

  function Concat<T>(chunks: seq<seq<T>>): seq<T> {
    if chunks == [] then [] else chunks[0] + Concat(chunks[1..])
  }

  /** The frames emitted and the buffer left by successive `Feed` calls. */
  function FeedAll(buffer: seq<byte>, chunks: seq<seq<byte>>): (r: (seq<seq<byte>>, seq<byte>))
    decreases |chunks|
  {
    if chunks == [] then ([], buffer)
    else
      var later := FeedAll(Residue(buffer + chunks[0]), chunks[1..]);
      (Scan(buffer + chunks[0]) + later.0, later.1)
  }

  method Replay(chunks: seq<seq<byte>>) returns (frames: seq<seq<byte>>, decoder: FrameBuffer)
    ensures frames == FeedAll([], chunks).0
    ensures decoder.buffer == FeedAll([], chunks).1
  {
    hide Scan, Residue;
    decoder := new FrameBuffer();
    frames := [];
    for i := 0 to |chunks|
      invariant fresh(decoder)
      invariant FeedAll([], chunks).0 == frames + FeedAll(decoder.buffer, chunks[i..]).0
      invariant FeedAll([], chunks).1 == FeedAll(decoder.buffer, chunks[i..]).1
    {
      var more := decoder.Feed(chunks[i]);
      assert chunks[i..][1..] == chunks[i + 1..];
      frames := frames + more;
    }
  }

  // ----- when does cutting not matter -----

  /** The frame at p begins behind the frame at o and is complete before it. */
  predicate Overtakes(s: seq<byte>, p: nat, o: nat) {
    o < p && FrameAt(s, o) && FrameAt(s, p) && FrameEnd(s, p) < FrameEnd(s, o)
  }

  /** No frame that the scan takes is overtaken by another frame inside it. */
  ghost predicate Unnested(s: seq<byte>)
    decreases |s|
  {
    match FindFrame(s, 0)
    case None => true
    case Some(o) => (forall p: nat :: !Overtakes(s, p, o)) && Unnested(s[FrameEnd(s, o)..])
  }

  lemma OvertakesShift(s: seq<byte>, d: nat, p: nat, o: nat)
    requires d <= |s| && d <= o && d <= p
    ensures Overtakes(s[d..], p - d, o - d) <==> Overtakes(s, p, o)
  {
    FrameAtShift(s, d, o);
    FrameAtShift(s, d, p);
    hide FrameAt, FrameEnd;
  }

  lemma UnnestedDrop(s: seq<byte>, d: nat)
    requires d <= |s| && forall o | 0 <= o < d :: !FrameAt(s, o)
    requires Unnested(s)
    ensures Unnested(s[d..])
  {
    hide FrameAt, FrameEnd, FindFrame, Overtakes;
    FindFrameShift(s, d);
    if FindFrame(s, 0).Some? {
      var o := FindFrame(s, 0).value;
      FrameAtShift(s, d, o);
      EndInside(s, o);
      assert s[d..][FrameEnd(s[d..], o - d)..] == s[FrameEnd(s, o)..];
      var w := o - d;
      forall p: nat ensures !Overtakes(s[d..], p, w) {
        if p <= w {
          NotOvertaking(s[d..], p, w);
        } else {
          OvertakesShift(s, d, d + p, o);
        }
      }
    }
  }

  lemma NotOvertaking(s: seq<byte>, p: nat, o: nat)
    requires p <= o
    ensures !Overtakes(s, p, o)
  {
  }

  /** What `Trim` drops can start no frame, whatever follows. */
  lemma {:induction false} TrimDropsDead(s: seq<byte>, c: seq<byte>, o: nat)
    requires FindFrame(s, 0).None? && o < |s| - |Trim(s)|
    ensures !FrameAt(s + c, o)
    decreases |s|
  {
    FrameAtExtend(s, c, o);
    if s[o] != START {
      NotAtNoise(s + c, o);
    } else if s[0] != START {
      var k := FindStart(s, 0).value;
      TrimTail(s, c, k, o);
    } else if o > 0 {
      TrimTail(s, c, 1, o);
    }
  }

  lemma {:induction false} TrimTail(s: seq<byte>, c: seq<byte>, k: nat, o: nat)
    requires FindFrame(s, 0).None? && 0 < k <= o < |s| - |Trim(s)| && Trim(s) == Trim(s[k..])
    ensures !FrameAt(s + c, o)
    decreases |s|, 0
  {
    hide FrameAt, Trim;
    assert (s + c)[k..] == s[k..] + c;
    FindFrameShift(s, k);
    TrimDropsDead(s[k..], c, o - k);
    FrameAtShift(s + c, k, o);
  }

  /** An unnested stream may be cut anywhere: the frames of the first part are taken, and the
      residue with the second part gives the others. */
  lemma {:induction false} SplitOnce(b: seq<byte>, c: seq<byte>)
    requires Unnested(b + c)
    ensures Scan(b + c) == Scan(b) + Scan(Residue(b) + c)
    ensures Unnested(Residue(b) + c)
    decreases |b|
  {
    hide FrameAt, FrameEnd, FrameBytes, FindFrame, Trim, Overtakes;
    match FindFrame(b, 0)
    case None =>
      var d := |b| - |Trim(b)|;
      forall o | 0 <= o < d ensures !FrameAt(b + c, o) {
        TrimDropsDead(b, c, o);
      }
      assert (b + c)[d..] == Trim(b) + c;
      DropSkips(b + c, d);
      UnnestedDrop(b + c, d);
    case Some(o) =>
      FirstStaysFirst(b, c);
      FrameAtExtend(b, c, o);
      EndInside(b, o);
      var e := FrameEnd(b, o);
      ExtendEnd(b, c, o);
      assert (b + c)[e..] == b[e..] + c;
      SplitOnce(b[e..], c);
  }

  lemma ExtendEnd(s: seq<byte>, c: seq<byte>, o: nat)
    requires FrameAt(s, o)
    ensures FrameAt(s + c, o) && FrameEnd(s + c, o) == FrameEnd(s, o)
  {
    FrameAtExtend(s, c, o);
  }

  lemma FirstStaysFirst(b: seq<byte>, c: seq<byte>)
    requires Unnested(b + c) && FindFrame(b, 0).Some?
    ensures FindFrame(b + c, 0) == FindFrame(b, 0)
  {
    var o := FindFrame(b, 0).value;
    ExtendEnd(b, c, o);
    EndInside(b, o);
    var q := FindFrame(b + c, 0).value;
    FrameAtExtend(b, c, q);
    if q < o {
      assert Overtakes(b + c, o, q);
    }
  }

  lemma {:induction false} UnnestedRun(buffer: seq<byte>, chunks: seq<seq<byte>>)
    requires Unnested(buffer + Concat(chunks)) && FindFrame(buffer, 0).None?
    ensures FeedAll(buffer, chunks).0 == Scan(buffer + Concat(chunks))
    decreases |chunks|
  {
    hide FrameAt, FindFrame, Unnested;
    if chunks == [] {
      assert buffer + Concat(chunks) == buffer;
    } else {
      var b, c := buffer + chunks[0], Concat(chunks[1..]);
      assert buffer + Concat(chunks) == b + c;
      SplitOnce(b, c);
      ResidueHasNone(b);
      UnnestedRun(Residue(b), chunks[1..]);
    }
  }

  // ----- and when it does -----

  /** A stream with an overtaken frame has a cut after which the decoder has emitted a frame that a
      single feed never emits. */
  lemma {:induction false} NestedCut(s: seq<byte>) returns (e: nat)
    requires !Unnested(s)
    ensures e <= |s| && !(Scan(s[..e]) <= Scan(s))
    decreases |s|
  {
    var o := FindFrame(s, 0).value;
    EndInside(s, o);
    if p: nat :| Overtakes(s, p, o) {
      e := FrameEnd(s, p);
      EndInside(s, p);
      OvertakenIsLost(s, o, p, e);
    } else {
      var f := FrameEnd(s, o);
      var d := NestedCut(s[f..]);
      e := f + d;
      PrefixFirst(s, o, e);
      hide FrameAt, FrameBytes, FrameEnd, FindFrame;
      assert s[..e][f..] == s[f..][..d];
      assert Scan(s) == [FrameBytes(s, o)] + Scan(s[f..]);
      assert Scan(s[..e]) == [FrameBytes(s, o)] + Scan(s[f..][..d]);
      ConsPrefix(FrameBytes(s, o), Scan(s[f..][..d]), Scan(s[f..]));
    }
  }

  lemma ConsPrefix<T>(x: T, a: seq<T>, b: seq<T>)
    ensures [x] + a <= [x] + b ==> a <= b
  {
    if [x] + a <= [x] + b {
      forall i | 0 <= i < |a| ensures a[i] == b[i] {
        assert a[i] == ([x] + a)[i + 1] == ([x] + b)[i + 1];
      }
    }
  }

  lemma ScanFirst(s: seq<byte>, o: nat)
    requires FindFrame(s, 0) == Some(o)
    ensures Scan(s) == [FrameBytes(s, o)] + Scan(s[FrameEnd(s, o)..])
    ensures |FrameBytes(s, o)| == FrameEnd(s, o) - o
  {
    EndInside(s, o);
    hide FrameAt, FrameBytes, FrameEnd, FindFrame;
  }

  lemma PrefixFirst(s: seq<byte>, o: nat, e: nat)
    requires FindFrame(s, 0) == Some(o) && FrameEnd(s, o) <= e <= |s|
    ensures FindFrame(s[..e], 0) == Some(o) && FrameEnd(s[..e], o) == FrameEnd(s, o)
    ensures FrameBytes(s[..e], o) == FrameBytes(s, o)
  {
    hide *;
    assert s == s[..e] + s[e..];
    FirstInHead(s[..e], s[e..], o);
  }

  lemma FirstInHead(a: seq<byte>, c: seq<byte>, o: nat)
    requires FindFrame(a + c, 0) == Some(o) && FrameEnd(a + c, o) <= |a|
    ensures FindFrame(a, 0) == Some(o) && FrameEnd(a, o) == FrameEnd(a + c, o)
    ensures FrameBytes(a, o) == FrameBytes(a + c, o)
  {
    hide *;
    FrameAtExtend(a, c, o);
    ExtendEnd(a, c, o);
    var q := FindFrame(a, 0).value;
    FrameAtExtend(a, c, q);
  }

  lemma FirstInPrefix(s: seq<byte>, o: nat, p: nat, e: nat) returns (q: nat)
    requires FindFrame(s, 0) == Some(o) && Overtakes(s, p, o) && e == FrameEnd(s, p) && e <= |s|
    ensures FindFrame(s[..e], 0) == Some(q) && o < q
  {
    assert s == s[..e] + s[e..];
    FrameAtExtend(s[..e], s[e..], p);
    hide FrameAt, FindFrame;
    q := FindFrame(s[..e], 0).value;
    FrameAtExtend(s[..e], s[e..], q);
    FrameAtExtend(s[..e], s[e..], o);
  }

  lemma OvertakenIsLost(s: seq<byte>, o: nat, p: nat, e: nat)
    requires FindFrame(s, 0) == Some(o) && Overtakes(s, p, o) && e == FrameEnd(s, p) && e <= |s|
    ensures !(Scan(s[..e]) <= Scan(s))
  {
    var q := FirstInPrefix(s, o, p, e);
    ScanFirst(s, o);
    ScanFirst(s[..e], q);
    EndInside(s[..e], q);
    assert e < FrameEnd(s, o);
    hide *;
    assert |Scan(s[..e])[0]| < |Scan(s)[0]|;
  }

  /** Cutting is invisible: whatever the chunks, empty ones included, the decoder emits what one
      `Feed` of the whole stream emits. */
  ghost predicate CutInvariant(s: seq<byte>) {
    forall chunks: seq<seq<byte>> | Concat(chunks) == s :: FeedAll([], chunks).0 == Scan(s)
  }

  lemma NestedIsCut(s: seq<byte>) returns (chunks: seq<seq<byte>>)
    requires !Unnested(s)
    ensures Concat(chunks) == s && FeedAll([], chunks).0 != Scan(s)
  {
    hide Unnested, Scan, Residue;
    var e := NestedCut(s);
    chunks := [s[..e], s[e..]];
    ConcatTwo(s[..e], s[e..]);
    assert [] + s[..e] == s[..e];
    assert Scan(s[..e]) <= FeedAll([], chunks).0;
  }

  /** The exact condition: cutting is invisible precisely for the unnested streams. */
  lemma CutInvariantIffUnnested(s: seq<byte>)
    ensures CutInvariant(s) <==> Unnested(s)
  {
    hide Unnested, Scan, Residue, FeedAll, Concat, FindFrame;
    if Unnested(s) {
      forall chunks: seq<seq<byte>> | Concat(chunks) == s ensures FeedAll([], chunks).0 == Scan(s) {
        assert [] + Concat(chunks) == s;
        EmptyHasNone();
        UnnestedRun([], chunks);
      }
    } else {
      var chunks := NestedIsCut(s);
    }
  }

  lemma ConcatTwo<T>(a: seq<T>, b: seq<T>)
    ensures Concat([a, b]) == a + b
  {
    assert [a, b][1..] == [b];
    assert Concat([b]) == b + Concat([b][1..]);
  }

  lemma EmptyHasNone()
    ensures FindFrame([], 0).None?
  {
  }

  // ----- streams whose frame occurrences are disjoint -----

  ghost predicate Disjoint(s: seq<byte>) {
    forall o: nat, p: nat | o < p && FrameAt(s, o) && FrameAt(s, p) :: FrameEnd(s, o) <= p
  }

  /** Every complete valid frame of s from offset start on, in stream order. */
  function Occurrences(s: seq<byte>, start: nat): seq<seq<byte>>
    decreases |s| - start
  {
    if |s| <= start then []
    else (if FrameAt(s, start) then [FrameBytes(s, start)] else []) + Occurrences(s, start + 1)
  }

  lemma {:induction false} OccurrencesSkip(s: seq<byte>, k: nat, e: nat)
    requires k <= e <= |s| && forall o | k <= o < e :: !FrameAt(s, o)
    ensures Occurrences(s, k) == Occurrences(s, e)
    decreases e - k
  {
    hide FrameAt;
    if k < e {
      OccurrencesSkip(s, k + 1, e);
    }
  }

  lemma {:induction false} ScanIsOccurrences(s: seq<byte>, k: nat)
    requires Disjoint(s) && k <= |s|
    ensures Scan(s[k..]) == Occurrences(s, k)
    ensures Unnested(s[k..])
    decreases |s| - k
  {
    hide FrameAt, FrameEnd, FrameBytes, FindFrame, Disjoint, Overtakes;
    FoundInTail(s, k);
    match FindFrame(s, k)
    case None =>
      OccurrencesSkip(s, k, |s|);
    case Some(o) =>
      EndInside(s, o);
      var e := FrameEnd(s, o);
      FrameAtShift(s, k, o);
      assert s[k..][FrameEnd(s[k..], o - k)..] == s[e..];
      DisjointNext(s, k, o, o - k);
      OccurrencesSkip(s, k, o);
      OccurrencesSkip(s, o + 1, e);
      ScanIsOccurrences(s, e);
  }

  lemma DisjointNext(s: seq<byte>, k: nat, o: nat, w: nat)
    requires Disjoint(s) && k <= o < |s| && FrameAt(s, o) && w == o - k
    ensures forall p: nat | o < p < FrameEnd(s, o) :: !FrameAt(s, p)
    ensures forall p: nat :: !Overtakes(s[k..], p, w)
  {
    FrameAtShift(s, k, o);
    EndInside(s, o);
    forall p: nat ensures !Overtakes(s[k..], p, w) {
      FrameAtShift(s, k, k + p);
      hide FrameAt, FrameEnd;
      if FrameAt(s, k + p) {
        FrameAtShift(s, k, k + p);
      }
    }
  }

  lemma FoundInTail(s: seq<byte>, k: nat)
    requires k <= |s|
    ensures FindFrame(s, k).None? ==> FindFrame(s[k..], 0) == None
    ensures FindFrame(s, k).Some? ==> FindFrame(s[k..], 0) == Some(FindFrame(s, k).value - k)
  {
    hide *;
    var here, there := FindFrame(s, k), FindFrame(s[k..], 0);
    if here.Some? {
      FrameAtShift(s, k, here.value);
    }
    if there.Some? {
      FrameAtShift(s, k, k + there.value);
    }
  }

  /** Chunking does not matter: a stream of disjoint frame occurrences, cut in any way, gives
      exactly those occurrences, each once, in stream order. */
  lemma DisjointStreamDelivered(chunks: seq<seq<byte>>)
    requires Disjoint(Concat(chunks))
    ensures FeedAll([], chunks).0 == Occurrences(Concat(chunks), 0)
  {
    hide Disjoint, FeedAll;
    var s := Concat(chunks);
    ScanIsOccurrences(s, 0);
    assert s[0..] == s;
    CutInvariantIffUnnested(s);
  }

  // ----- frames put on the wire -----

  function Wire(messages: seq<Message>): seq<seq<byte>>
    requires forall i | 0 <= i < |messages| :: |messages[i].payload| <= MAX_PAYLOAD
  {
    if messages == [] then []
    else [Build(messages[0].command, messages[0].payload)] + Wire(messages[1..])
  }

  lemma FrameLeads(f: seq<byte>, c: seq<byte>)
    requires IsFrame(f)
    ensures FrameAt(f + c, 0) && FrameBytes(f + c, 0) == f && (f + c)[FrameEnd(f + c, 0)..] == c
  {
    assert (f + c)[0..|f|] == f;
    assert (f + c)[|f|..] == c;
  }

  /** Built frames sent back to back and received whole come out as sent, whatever their payloads. */
  lemma {:induction false} WireRoundTrip(messages: seq<Message>)
    requires forall i | 0 <= i < |messages| :: |messages[i].payload| <= MAX_PAYLOAD
    ensures Scan(Concat(Wire(messages))) == Wire(messages)
  {
    if messages == [] {
    } else {
      var m := messages[0];
      var f, c := Build(m.command, m.payload), Concat(Wire(messages[1..]));
      BuildDecodes(m.command, m.payload);
      FrameLeads(f, c);
      hide Build, FrameAt, FrameBytes, FrameEnd, IsFrame;
      assert FindFrame(f + c, 0) == Some(0);
      assert Concat(Wire(messages)) == f + c;
      WireRoundTrip(messages[1..]);
    }
  }

  /** A frame that carries a frame in its payload, cut before its last byte, is abandoned for the
      inner one: the concrete stream on which cutting is visible. */
  lemma NestedFrameIsAbandoned()
    ensures var inner := Build(0, []);
            var outer := Build(1, inner);
            && |outer| == 10
            && FeedAll([], [outer]).0 == [outer]
            && FeedAll([], [outer[..9], outer[9..]]).0 == [inner]
  {
    var inner := Build(0, []);
    var outer := Build(1, inner);
    BuildDecodes(0, []);
    BuildDecodes(1, inner);
    var first, last := outer[..9], outer[9..];
    assert first[4..] == inner && first[4..9] == inner;
    assert FrameAt(first, 4) && FrameBytes(first, 4) == inner && FrameEnd(first, 4) == 9;
    assert !FrameAt(first, 0) && !FrameAt(first, 1) && !FrameAt(first, 2) && !FrameAt(first, 3);
    FrameLeads(outer, []);
    assert outer + [] == outer;
    hide Build, FrameAt, IsFrame, FrameBytes, FrameEnd;
    NoFrameInShort([]);
    NoFrameInShort(last);
    assert first[9..] == [];
    assert FindFrame(first, 0) == Some(4);
    assert Scan(first) == [inner] && Rest(first) == [];
    assert FindFrame(outer, 0) == Some(0);
    assert Scan(outer) == [outer];
    assert [] + last == last;
    FeedOne(outer);
    FeedTwo(first, last);
  }

  lemma FeedOne(a: seq<byte>)
    ensures FeedAll([], [a]).0 == Scan(a)
  {
    hide Scan, Residue;
    assert [] + a == a;
    assert FeedAll(Residue(a), [a][1..]).0 == [];
  }

  lemma FeedTwo(a: seq<byte>, b: seq<byte>)
    ensures FeedAll([], [a, b]).0 == Scan(a) + Scan(Residue(a) + b)
  {
    hide Scan, Residue;
    assert [] + a == a;
    var left := Residue(a);
    assert [a, b][1..] == [b];
    assert FeedAll(left, [b]).0 == Scan(left + b) + FeedAll(Residue(left + b), [b][1..]).0;
  }

  lemma NoFrameInShort(s: seq<byte>)
    requires |s| < 5
    ensures FindFrame(s, 0).None?
  {
  }
}
