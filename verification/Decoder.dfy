/** The resynchronising stream decoder `FrameBuffer`.

    `Scan` is what the decoder is for: read a byte string from the left, take the least offset at
    which a complete valid frame lies, continue behind it. `Residue` is what stays buffered. The
    in-place loop of `feed` is proved to compute exactly these two, and the theorems about cutting
    a stream into chunks are about them. */
module Decoder {
  import opened Wrappers
  import opened Bytes
  import opened Frames

  // ----- frames inside a longer byte string -----

  /** A complete valid frame starts at offset o of s. */
  predicate FrameAt(s: seq<byte>, o: nat) {
    && o + 5 <= |s|
    && o + s[o + 1] <= |s|
    && 5 <= s[o + 1]
    && IsFrame(s[o..o + s[o + 1]])
  }

  function FrameEnd(s: seq<byte>, o: nat): nat
    requires FrameAt(s, o)
  {
    o + s[o + 1]
  }

  function FrameBytes(s: seq<byte>, o: nat): seq<byte>
    requires FrameAt(s, o)
  {
    s[o..FrameEnd(s, o)]
  }

  /** The least offset at or after start that carries a complete valid frame. */
  function FindFrame(s: seq<byte>, start: nat): (r: Option<nat>)
    ensures r.Some? ==> start <= r.value < |s| && FrameAt(s, r.value)
    ensures forall o | start <= o && FrameAt(s, o) :: r.Some? && r.value <= o
    decreases |s| - start
  {
    if |s| <= start then None
    else if FrameAt(s, start) then Some(start)
    else FindFrame(s, start + 1)
  }

  function Scan(s: seq<byte>): seq<seq<byte>>
    decreases |s|
  {
    match FindFrame(s, 0)
    case None => []
    case Some(o) => [FrameBytes(s, o)] + Scan(s[FrameEnd(s, o)..])
  }

  /** What follows the last frame that `Scan` takes. */
  function Rest(s: seq<byte>): (r: seq<byte>)
    ensures FindFrame(r, 0).None?
    decreases |s|
  {
    match FindFrame(s, 0)
    case None => s
    case Some(o) => Rest(s[FrameEnd(s, o)..])
  }

  /** The least offset at or after start that carries the start byte. */
  function FindStart(s: seq<byte>, start: nat): (r: Option<nat>)
    ensures r.Some? ==> start <= r.value < |s| && s[r.value] == START
    ensures forall o | start <= o < |s| && s[o] == START :: r.Some? && r.value <= o
    decreases |s| - start
  {
    if |s| <= start then None
    else if s[start] == START then Some(start)
    else FindStart(s, start + 1)
  }

  /** Drops what can no longer begin a frame from a byte string that contains none. */
  function Trim(s: seq<byte>): (r: seq<byte>)
    ensures |r| <= |s| && r == s[|s| - |r|..]
    ensures |r| <= 254
    decreases |s|, 1
  {
    if |s| < 2 then s
    else if s[0] != START then
      match FindStart(s, 0)
      case None => []
      case Some(k) => TrimFrom(s, k)
    else if 5 <= s[1] && |s| < s[1] then s
    else TrimFrom(s, 1)
  }

  function TrimFrom(s: seq<byte>, k: nat): (r: seq<byte>)
    requires 0 < k <= |s|
    ensures |r| <= |s| && r == s[|s| - |r|..]
    ensures |r| <= 254 && r == Trim(s[k..])
    decreases |s|, 0
  {
    var r := Trim(s[k..]);
    assert s[k..][|s| - k - |r|..] == s[|s| - |r|..];
    r
  }

  function Residue(s: seq<byte>): (r: seq<byte>)
    ensures |r| <= 254
  {
    Trim(Rest(s))
  }

  // ----- moving a frame -----

  lemma EndInside(s: seq<byte>, o: nat)
    requires FrameAt(s, o)
    ensures o + 5 <= FrameEnd(s, o) <= |s| && |FrameBytes(s, o)| == FrameEnd(s, o) - o
  {
  }

  lemma FrameAtShift(s: seq<byte>, k: nat, o: nat)
    requires k <= o && k <= |s|
    ensures FrameAt(s[k..], o - k) <==> FrameAt(s, o)
    ensures FrameAt(s, o) ==>
      FrameBytes(s[k..], o - k) == FrameBytes(s, o) && FrameEnd(s[k..], o - k) == FrameEnd(s, o) - k
  {
    if o + 5 <= |s| && o + s[o + 1] <= |s| {
      assert s[k..][o - k..o - k + s[o + 1]] == s[o..o + s[o + 1]];
    }
  }

  lemma FrameAtExtend(s: seq<byte>, c: seq<byte>, o: nat)
    ensures FrameAt(s, o) <==> FrameAt(s + c, o) && FrameEnd(s + c, o) <= |s|
    ensures FrameAt(s, o) ==> FrameBytes(s + c, o) == FrameBytes(s, o)
  {
    if o + 5 <= |s| && o + s[o + 1] <= |s| {
      assert (s + c)[o..o + s[o + 1]] == s[o..o + s[o + 1]];
    }
  }

  lemma FindFrameShift(s: seq<byte>, d: nat)
    requires d <= |s| && forall o | 0 <= o < d :: !FrameAt(s, o)
    ensures FindFrame(s, 0).None? ==> FindFrame(s[d..], 0) == None
    ensures FindFrame(s, 0).Some? ==>
      d <= FindFrame(s, 0).value && FindFrame(s[d..], 0) == Some(FindFrame(s, 0).value - d)
  {
    hide *;
    var here, there := FindFrame(s, 0), FindFrame(s[d..], 0);
    if here.Some? {
      FrameAtShift(s, d, here.value);
    }
    if there.Some? {
      FrameAtShift(s, d, d + there.value);
    }
  }

  /** Dropping a prefix in which no frame starts changes neither the frames nor the rest. */
  lemma DropSkips(s: seq<byte>, d: nat)
    requires d <= |s| && forall o | 0 <= o < d :: !FrameAt(s, o)
    ensures Scan(s[d..]) == Scan(s)
    ensures FindFrame(s, 0).Some? ==> Rest(s[d..]) == Rest(s)
  {
    FindFrameShift(s, d);
    match FindFrame(s, 0)
    case None =>
    case Some(o) =>
      FrameAtShift(s, d, o);
      EndInside(s, o);
      hide FrameAt, FrameBytes, FrameEnd, FindFrame;
      assert s[d..][FrameEnd(s[d..], o - d)..] == s[FrameEnd(s, o)..];
  }

  /** What stays buffered contains no complete valid frame at any offset. */
  lemma ResidueHasNone(s: seq<byte>)
    ensures FindFrame(Residue(s), 0).None?
    ensures forall o: nat :: !FrameAt(Residue(s), o)
  {
    hide FrameAt, FindFrame, Rest, Trim;
    var r := Rest(s);
    assert Residue(s) == r[|r| - |Trim(r)|..];
    FindFrameShift(r, |r| - |Trim(r)|);
  }

  // ----- one step of the loop -----

  /** No frame starts before the next start byte. */
  lemma FindFromStart(s: seq<byte>, start: nat)
    ensures FindStart(s, start).None? ==> FindFrame(s, start) == None
    ensures FindStart(s, start).Some? ==> FindFrame(s, start) == FindFrame(s, FindStart(s, start).value)
    decreases |s| - start
  {
    if start < |s| && s[start] != START {
      NotAtNoise(s, start);
      hide FrameAt;
      FindFromStart(s, start + 1);
    }
  }

  lemma NotAtNoise(s: seq<byte>, o: nat)
    requires o < |s| && s[o] != START
    ensures !FrameAt(s, o)
  {
  }

  /** A step of the loop that drops bytes before which no frame starts, and that `Trim` takes too. */
  lemma NoiseStep(s: seq<byte>, d: nat)
    requires 2 <= |s| && d <= |s| && forall o | 0 <= o < d :: !FrameAt(s, o)
    requires if s[0] != START then FindStart(s, 0) == Some(d) else d == 1 && (s[1] < 5 || s[1] <= |s|)
    ensures Scan(s[d..]) == Scan(s)
    ensures Residue(s[d..]) == Residue(s)
  {
    hide FrameAt, FrameBytes, FrameEnd, Scan, FindFrame, FindStart;
    DropSkips(s, d);
    FindFrameShift(s, d);
    if FindFrame(s, 0).None? {
      assert Rest(s) == s && Rest(s[d..]) == s[d..];
    }
  }

  lemma TooShortHeader(s: seq<byte>)
    requires 2 <= |s| && s[1] < 5
    ensures !FrameAt(s, 0)
  {
  }

  lemma IncompleteHeader(s: seq<byte>)
    requires 2 <= |s| && |s| < s[1]
    ensures !FrameAt(s, 0)
  {
  }

  lemma JumpStep(s: seq<byte>, d: nat)
    requires !FrameAt(s, 0) && FindFrame(s, 1) == Some(d)
    ensures Scan(s[d..]) == Scan(s)
    ensures Residue(s[d..]) == Residue(s)
  {
    hide FrameAt, FrameBytes, FrameEnd, Trim;
    DropSkips(s, d);
  }

  lemma EmitStep(s: seq<byte>)
    requires FrameAt(s, 0)
    ensures Scan(s) == [s[..s[1]]] + Scan(s[s[1]..])
    ensures Residue(s) == Residue(s[s[1]..])
  {
    assert FrameBytes(s, 0) == s[..s[1]];
    assert FrameEnd(s, 0) == s[1];
    hide FrameAt, FrameBytes, FrameEnd, Trim;
    assert FindFrame(s, 0) == Some(0);
  }

  lemma NoStart(s: seq<byte>)
    requires 2 <= |s| && FindStart(s, 0).None?
    ensures Scan(s) == [] && Residue(s) == []
  {
    FindFromStart(s, 0);
  }

  /** The loop stops in front of a frame that is still incomplete. */
  lemma StopStep(s: seq<byte>)
    requires |s| < 2 || (s[0] == START && 5 <= s[1] && |s| < s[1] && FindFrame(s, 1).None?)
    ensures Scan(s) == [] && Residue(s) == s
  {
    assert !FrameAt(s, 0);
    hide FrameAt;
    assert FindFrame(s, 0).None?;
  }

  // ----- the code -----

  class FrameBuffer {
    var buffer: seq<byte>

    constructor ()
      ensures buffer == []
    {
      buffer := [];
    }

    method IsCompleteValidFrame(offset: nat) returns (r: bool)
      requires offset <= |buffer|
      ensures r == FrameAt(buffer, offset)
    {
      var remaining := |buffer| - offset;
      if remaining < 5 {
        return false;
      }
      if buffer[offset] != START {
        return false;
      }
      var frameLen := buffer[offset + 1];
      if frameLen < 5 || remaining < frameLen {
        return false;
      }
      if buffer[offset + 2] != IDENTIFIER {
        return false;
      }
      var checksum := Checksum(buffer[offset..offset + frameLen - 1]);
      assert buffer[offset..offset + frameLen][..frameLen - 1] == buffer[offset..offset + frameLen - 1];
      return checksum == buffer[offset + frameLen - 1];
    }

    /** Jumps from start byte to start byte. */
    method FindCompleteValidFrame(start: nat) returns (r: Option<nat>)
      requires start <= |buffer|
      ensures r == FindFrame(buffer, start)
    {
      hide *;
      var offset := FindStart(buffer, start);
      FindFromStart(buffer, start);
      while offset.Some?
        invariant offset.Some? ==> offset.value < |buffer|
        invariant FindFrame(buffer, start) == if offset.Some? then FindFrame(buffer, offset.value) else None
        decreases if offset.Some? then |buffer| - offset.value else 0, offset.Some?
      {
        var found := IsCompleteValidFrame(offset.value);
        if found {
          return offset;
        }
        FindFromStart(buffer, offset.value + 1);
        offset := FindStart(buffer, offset.value + 1);
      }
      return None;
    }

    method Feed(chunk: seq<byte>) returns (frames: seq<seq<byte>>)
      modifies this
      ensures frames == Scan(old(buffer) + chunk)
      ensures buffer == Residue(old(buffer) + chunk)
    {
      hide *;
      frames := [];
      buffer := buffer + chunk;
      ghost var input := buffer;
      while true
        invariant Scan(input) == frames + Scan(buffer)
        invariant Residue(input) == Residue(buffer)
        decreases |buffer|
      {
        if |buffer| < 2 {
          StopStep(buffer);
          break;
        }

        if buffer[0] != START {
          var nextStart := FindStart(buffer, 0);
          if nextStart.None? {
            NoStart(buffer);
            buffer := [];
            StopStep([]);
            break;
          }
          forall o | 0 <= o < nextStart.value ensures !FrameAt(buffer, o) {
            NotAtNoise(buffer, o);
          }
          NoiseStep(buffer, nextStart.value);
          buffer := buffer[nextStart.value..];
          continue;
        }

        var frameLen := buffer[1];
        if frameLen < 5 {
          TooShortHeader(buffer);
          NoiseStep(buffer, 1);
          buffer := buffer[1..];
          continue;
        }

        if |buffer| < frameLen {
          IncompleteHeader(buffer);
          var nextFrame := FindCompleteValidFrame(1);
          if nextFrame.Some? {
            JumpStep(buffer, nextFrame.value);
            buffer := buffer[nextFrame.value..];
            continue;
          }
          StopStep(buffer);
          break;
        }

        var valid := IsCompleteValidFrame(0);
        if !valid {
          var nextFrame := FindCompleteValidFrame(1);
          if nextFrame.Some? {
            JumpStep(buffer, nextFrame.value);
            buffer := buffer[nextFrame.value..];
          } else {
            NoiseStep(buffer, 1);
            buffer := buffer[1..];
          }
          continue;
        }

        var frame := buffer[..frameLen];
        EmitStep(buffer);
        buffer := buffer[frameLen..];
        frames := frames + [frame];
      }
    }
  }
}
