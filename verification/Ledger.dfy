/** Where every byte of a stream goes. */
module Ledger {
  import opened Bytes
  import opened Frames
  import opened Decoder
  import opened Stream

  /** One step of the account of a stream: a frame handed out, bytes skipped to reach the frame
      handed out next, or bytes given up for good. */
  datatype Entry = Emitted(bytes: seq<byte>) | Skipped(bytes: seq<byte>) | Dead(bytes: seq<byte>)

  /** No continuation of s has a frame at offset o. */
  ghost predicate DeadAt(s: seq<byte>, o: nat) {
    forall c :: !FrameAt(s + c, o)
  }

  /** The entry e describes the first bytes of s truthfully when tail is what follows it. */
  ghost predicate Holds(s: seq<byte>, e: Entry, tail: seq<Entry>) {
    && e.bytes <= s
    && match e
       case Emitted(b) => FrameAt(s, 0) && b == FrameBytes(s, 0)
       case Skipped(b) => tail != [] && tail[0].Emitted?
       case Dead(b) => forall o: nat | o < |b| :: DeadAt(s, o)
  }

  /** The entries cut the stream s into pieces, in order, and leave rest. */
  ghost predicate Accounts(s: seq<byte>, entries: seq<Entry>, rest: seq<byte>) {
    if entries == [] then s == rest
    else Holds(s, entries[0], entries[1..]) && Accounts(s[|entries[0].bytes|..], entries[1..], rest)
  }

  function FramesOf(entries: seq<Entry>): seq<seq<byte>> {
    if entries == [] then []
    else (if entries[0].Emitted? then [entries[0].bytes] else []) + FramesOf(entries[1..])
  }

  /** The account of one `Feed` whose buffer and chunk together are s. */
  function FeedLedger(s: seq<byte>): seq<Entry>
    decreases |s|
  {
    match FindFrame(s, 0)
    case None => [Dead(s[..|s| - |Trim(s)|])]
    case Some(o) =>
      var emitted := [Emitted(FrameBytes(s, o))] + FeedLedger(s[FrameEnd(s, o)..]);
      if o == 0 then emitted else [Skipped(s[..o])] + emitted
  }

  function RunLedger(buffer: seq<byte>, chunks: seq<seq<byte>>): seq<Entry>
    decreases |chunks|
  {
    if chunks == [] then []
    else FeedLedger(buffer + chunks[0]) + RunLedger(Residue(buffer + chunks[0]), chunks[1..])
  }

  lemma AccountsCons(s: seq<byte>, e: Entry, tail: seq<Entry>, rest: seq<byte>)
    requires Holds(s, e, tail) && Accounts(s[|e.bytes|..], tail, rest)
    ensures Accounts(s, [e] + tail, rest)
    ensures FramesOf([e] + tail) == (if e.Emitted? then [e.bytes] else []) + FramesOf(tail)
  {
    assert ([e] + tail)[1..] == tail;
    hide Holds;
  }

  lemma EmittedHolds(s: seq<byte>, o: nat, tail: seq<Entry>)
    requires FrameAt(s, o)
    ensures Holds(s[o..], Emitted(FrameBytes(s, o)), tail)
    ensures s[o..][|FrameBytes(s, o)|..] == s[FrameEnd(s, o)..]
  {
    FrameAtShift(s, o, o);
    EndInside(s, o);
    hide FrameAt;
  }

  lemma DeadHolds(s: seq<byte>)
    requires FindFrame(s, 0).None?
    ensures Holds(s, Dead(s[..|s| - |Trim(s)|]), [])
  {
    hide FrameAt, Trim, FindFrame;
    forall o: nat | o < |s| - |Trim(s)| ensures DeadAt(s, o) {
      forall c ensures !FrameAt(s + c, o) {
        TrimDropsDead(s, c, o);
      }
    }
  }

  /** The account of a single `Feed`. Its skipped bytes precede a frame of the same `Feed`. */
  lemma {:induction false} FeedAccounts(s: seq<byte>)
    ensures Accounts(s, FeedLedger(s), Residue(s))
    ensures FramesOf(FeedLedger(s)) == Scan(s)
    decreases |s|
  {
    hide FrameAt, FrameBytes, FrameEnd, FindFrame, Trim, Holds;
    match FindFrame(s, 0)
    case None =>
      var dead := Dead(s[..|s| - |Trim(s)|]);
      DeadHolds(s);
      AccountsCons(s, dead, [], Trim(s));
      assert [dead] + [] == [dead];
    case Some(o) =>
      EndInside(s, o);
      var e, f := FrameEnd(s, o), Emitted(FrameBytes(s, o));
      var tail := FeedLedger(s[e..]);
      FeedAccounts(s[e..]);
      EmittedHolds(s, o, tail);
      AccountsCons(s[o..], f, tail, Residue(s));
      if o == 0 {
        assert s[o..] == s;
      } else {
        SkippedHolds(s, o, [f] + tail);
        AccountsCons(s, Skipped(s[..o]), [f] + tail, Residue(s));
      }
  }

  lemma SkippedHolds(s: seq<byte>, o: nat, tail: seq<Entry>)
    requires o <= |s| && tail != [] && tail[0].Emitted?
    ensures Holds(s, Skipped(s[..o]), tail)
  {
  }

  /** What is dead for a stream is dead for every longer one. */
  lemma HoldsExtend(s: seq<byte>, e: Entry, tail: seq<Entry>, more: seq<byte>)
    requires Holds(s, e, tail)
    ensures Holds(s + more, e, tail)
  {
    FrameAtExtend(s, more, 0);
    hide FrameAt, FrameBytes;
    if e.Dead? {
      forall o: nat | o < |e.bytes| ensures DeadAt(s + more, o) {
        assert DeadAt(s, o);
        forall c ensures !FrameAt(s + more + c, o) {
          assert s + more + c == s + (more + c);
        }
      }
    }
  }

  lemma {:induction false} AccountsExtend(s: seq<byte>, entries: seq<Entry>, rest: seq<byte>, more: seq<byte>)
    requires Accounts(s, entries, rest)
    ensures Accounts(s + more, entries, rest + more)
    decreases |entries|
  {
    if entries == [] {
    } else {
      var n := |entries[0].bytes|;
      assert n <= |s|;
      HoldsExtend(s, entries[0], entries[1..], more);
      hide Holds;
      assert (s + more)[n..] == s[n..] + more;
      AccountsExtend(s[n..], entries[1..], rest, more);
    }
  }

  lemma HoldsLonger(s: seq<byte>, e: Entry, tail: seq<Entry>, more: seq<Entry>)
    requires Holds(s, e, tail)
    ensures Holds(s, e, tail + more)
  {
    hide FrameAt, FrameBytes, DeadAt;
  }

  lemma AccountsHead(s: seq<byte>, e: Entry, tail: seq<Entry>, rest: seq<byte>)
    requires Accounts(s, [e] + tail, rest)
    ensures Holds(s, e, tail) && |e.bytes| <= |s| && Accounts(s[|e.bytes|..], tail, rest)
    ensures FramesOf([e] + tail) == (if e.Emitted? then [e.bytes] else []) + FramesOf(tail)
  {
    assert ([e] + tail)[1..] == tail;
    hide FrameAt, FrameBytes, DeadAt;
  }

  lemma AppendAssociates<T>(a: seq<T>, b: seq<T>, c: seq<T>)
    ensures a + b + c == a + (b + c)
  {
  }

  lemma {:induction false} AccountsJoin(
      s: seq<byte>, first: seq<Entry>, mid: seq<byte>, second: seq<Entry>, rest: seq<byte>)
    requires Accounts(s, first, mid) && Accounts(mid, second, rest)
    ensures Accounts(s, first + second, rest)
    ensures FramesOf(first + second) == FramesOf(first) + FramesOf(second)
    decreases |first|
  {
    if first == [] {
      assert first + second == second;
    } else {
      hide *;
      var e, tail := first[0], first[1..];
      assert first == [e] + tail;
      AccountsHead(s, e, tail, mid);
      HoldsLonger(s, e, tail, second);
      AccountsJoin(s[|e.bytes|..], tail, mid, second, rest);
      AccountsCons(s, e, tail + second, rest);
      AppendAssociates([e], tail, second);
      AppendAssociates(if e.Emitted? then [e.bytes] else [], FramesOf(tail), FramesOf(second));
    }
  }

  /** No valid frame is lost needlessly: over any run the whole stream is cut into emitted frames,
      bytes skipped to reach an emitted frame, and bytes at which no frame can start under any
      continuation of the stream; what is left is the buffer. */
  lemma {:induction false} RunAccounts(buffer: seq<byte>, chunks: seq<seq<byte>>)
    ensures Accounts(buffer + Concat(chunks), RunLedger(buffer, chunks), FeedAll(buffer, chunks).1)
    ensures FramesOf(RunLedger(buffer, chunks)) == FeedAll(buffer, chunks).0
    decreases |chunks|
  {
    if chunks == [] {
      assert buffer + Concat(chunks) == buffer;
    } else {
      var s, more := buffer + chunks[0], Concat(chunks[1..]);
      assert buffer + Concat(chunks) == s + more;
      FeedAccounts(s);
      RunAccounts(Residue(s), chunks[1..]);
      AccountsExtend(s, FeedLedger(s), Residue(s), more);
      hide Accounts, FramesOf, FeedLedger, Scan, Residue;
      AccountsJoin(s + more, FeedLedger(s), Residue(s) + more, RunLedger(Residue(s), chunks[1..]),
        FeedAll(buffer, chunks).1);
    }
  }

  // ----- what an account says -----

  function BytesOf(entries: seq<Entry>): seq<byte> {
    if entries == [] then [] else entries[0].bytes + BytesOf(entries[1..])
  }

  /** The pieces and the rest put together are the stream. */
  lemma {:induction false} PiecesMakeStream(s: seq<byte>, entries: seq<Entry>, rest: seq<byte>)
    requires Accounts(s, entries, rest)
    ensures s == BytesOf(entries) + rest
    decreases |entries|
  {
    if entries == [] {
    } else {
      var e, tail := entries[0], entries[1..];
      assert entries == [e] + tail;
      AccountsHead(s, e, tail, rest);
      hide Accounts;
      PiecesMakeStream(s[|e.bytes|..], tail, rest);
      assert e.bytes <= s;
      assert s == e.bytes + s[|e.bytes|..];
      AppendAssociates(e.bytes, BytesOf(tail), rest);
    }
  }

  lemma HeadTells(s: seq<byte>, e: Entry, tail: seq<Entry>, more: seq<byte>, o: nat)
    requires Holds(s, e, tail) && o < |e.bytes|
    ensures e.Emitted? ==> IsFrame(e.bytes)
    ensures e.Skipped? ==> tail != [] && tail[0].Emitted?
    ensures e.Dead? ==> !FrameAt(s + more, o)
  {
    hide IsFrame;
    if e.Dead? {
      assert DeadAt(s, o);
    }
  }

  lemma FrameAtLater(s: seq<byte>, n: nat, more: seq<byte>, o: nat)
    requires n <= |s| && FrameAt(s + more, n + o)
    ensures FrameAt(s[n..] + more, o)
  {
    hide FrameAt;
    assert (s + more)[n..] == s[n..] + more;
    FrameAtShift(s + more, n, n + o);
  }

  /** What each piece says of the stream: an emitted one is a frame, a skipped one comes before an emitted
      one, and no frame begins within a dead one however the stream goes on. */
  lemma {:induction false} PieceTells(
      s: seq<byte>, entries: seq<Entry>, rest: seq<byte>, k: nat, more: seq<byte>, o: nat)
    requires Accounts(s, entries, rest) && k < |entries| && o < |entries[k].bytes|
    ensures entries[k].Emitted? ==> IsFrame(entries[k].bytes)
    ensures entries[k].Skipped? ==> k + 1 < |entries| && entries[k + 1].Emitted?
    ensures entries[k].Dead? ==> !FrameAt(s + more, |BytesOf(entries[..k])| + o)
    decreases |entries|
  {
    hide Accounts, Holds, FrameAt, IsFrame;
    var e, tail := entries[0], entries[1..];
    assert entries == [e] + tail;
    AccountsHead(s, e, tail, rest);
    if k == 0 {
      HeadTells(s, e, tail, more, o);
    } else {
      PieceTells(s[|e.bytes|..], tail, rest, k - 1, more, o);
      assert entries[..k][1..] == tail[..k - 1];
      if FrameAt(s + more, |BytesOf(entries[..k])| + o) {
        FrameAtLater(s, |e.bytes|, more, |BytesOf(tail[..k - 1])| + o);
      }
    }
  }
}
