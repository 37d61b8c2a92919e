/** The session behind the decoder: per-command queues of waiting requests, oldest first.

    A request is named by its position in the order of sending. Its future is modelled by the
    entry it gets, once, in `outcomes`. */
module Session {
  import opened Wrappers
  import opened Bytes
  import opened Frames
  import opened Decoder

  datatype Outcome = Answered(payload: seq<byte>) | WriteFailed | TimedOut | SessionClosed

  datatype State = State(
    commands: seq<byte>,             // the command of every request ever sent
    pending: map<byte, seq<nat>>,    // the deque of waiting requests, by command
    outcomes: map<nat, Outcome>,
    raised: set<nat>,                // the requests whose frame could not be built: nobody waits for them
    closed: bool)

  const FRESH := State([], map[], map[], {}, false)

  function Queue(st: State, command: byte): seq<nat> {
    if command in st.pending then st.pending[command] else []
  }

  function PendingIds(st: State): set<nat> {
    set c, i | c in st.pending && 0 <= i < |st.pending[c]| :: st.pending[c][i]
  }

  // ----- what one step does -----

  /** A request with a payload of the given length. It is queued before its frame is built, and stays
      queued if that raises. */
  function Submit(st: State, command: byte, length: nat): State {
    st.(commands := st.commands + [command],
        pending := st.pending[command := Queue(st, command) + [|st.commands|]],
        raised := if length <= MAX_PAYLOAD then st.raised else st.raised + {|st.commands|})
  }

  /** The oldest request waiting for this command gets the payload; an unsolicited response is dropped. */
  function Deliver(st: State, m: Message): State {
    var queue := Queue(st, m.command);
    if queue == [] then st
    else st.(pending := st.pending[m.command := queue[1..]], outcomes := st.outcomes[queue[0] := Answered(m.payload)])
  }

  function DeliverAll(st: State, frames: seq<seq<byte>>): State
    decreases |frames|
  {
    if frames == [] then st
    else DeliverAll(if IsFrame(frames[0]) then Deliver(st, MessageOf(frames[0])) else st, frames[1..])
  }

  function Remove(queue: seq<nat>, id: nat): seq<nat> {
    if queue == [] then [] else if queue[0] == id then queue[1..] else [queue[0]] + Remove(queue[1..], id)
  }

  /** A failed write or a timeout takes the request out of its queue, if it still waits there. */
  function Withdraw(st: State, id: nat, outcome: Outcome): State
    requires id < |st.commands|
  {
    var c := st.commands[id];
    if id !in Queue(st, c) then st
    else st.(pending := st.pending[c := Remove(st.pending[c], id)], outcomes := st.outcomes[id := outcome])
  }

  function Failed(ids: set<nat>): map<nat, Outcome> {
    map id | id in ids :: SessionClosed
  }

  function Close(st: State): State {
    if st.closed then st
    else st.(closed := true, pending := map[], outcomes := st.outcomes + Failed(PendingIds(st)))
  }

  // ----- the code -----

  class BLEDeviceSession {
    const decoder: FrameBuffer
    var commands: seq<byte>
    var pending: map<byte, seq<nat>>
    var outcomes: map<nat, Outcome>
    ghost var raised: set<nat>
    var closed: bool

    ghost function Abstract(): State
      reads this
    {
      State(commands, pending, outcomes, raised, closed)
    }

    constructor ()
      ensures Abstract() == FRESH && decoder.buffer == [] && fresh(decoder)
    {
      decoder := new FrameBuffer();
      commands, pending, outcomes, raised, closed := [], map[], map[], {}, false;
    }

    /** The part of `send_command` up to the write: the frame to write and the future to wait for. */
    method SendCommand(command: byte, payload: seq<byte>) returns (id: nat, frame: Result<seq<byte>, BuildError>)
      modifies this
      ensures Abstract() == Submit(old(Abstract()), command, |payload|) && id == |old(commands)|
      ensures frame.Success? ==> IsFrame(frame.value) && MessageOf(frame.value) == Message(command, payload)
      ensures frame.Success? <==> |payload| <= MAX_PAYLOAD
    {
      var queue := if command in pending then pending[command] else [];
      id := |commands|;
      commands := commands + [command];
      pending := pending[command := queue + [id]];
      frame := CreateCommandFrame(command, payload);
      if frame.Success? {
        BuildDecodes(command, payload);
      } else {
        raised := raised + {id};
      }
    }

    /** The `except` branch of `send_command`. */
    method Fail(id: nat, outcome: Outcome)
      requires id < |commands|
      modifies this
      ensures Abstract() == Withdraw(old(Abstract()), id, outcome)
    {
      var queue := if commands[id] in pending then pending[commands[id]] else [];
      if id in queue {
        pending := pending[commands[id] := Remove(queue, id)];
        outcomes := outcomes[id := outcome];
      }
    }

    method HandleNotification(data: seq<byte>)
      modifies this, decoder
      ensures Abstract() == DeliverAll(old(Abstract()), Scan(old(decoder.buffer) + data))
      ensures decoder.buffer == Residue(old(decoder.buffer) + data)
    {
      hide Scan, Residue, IsFrame;
      var frames := decoder.Feed(data);
      ghost var st := Abstract();
      for i := 0 to |frames|
        invariant decoder.buffer == Residue(old(decoder.buffer) + data)
        invariant DeliverAll(st, frames) == DeliverAll(Abstract(), frames[i..])
      {
        assert frames[i..][1..] == frames[i + 1..];
        var parsed := ParseFrame(frames[i]);
        if parsed.Failure? {
          continue;
        }
        var command, payload := parsed.value.command, parsed.value.payload;
        var queue := if command in pending then pending[command] else [];
        if queue != [] {
          pending := pending[command := queue[1..]];
          outcomes := outcomes[queue[0] := Answered(payload)];
        }
      }
    }

    /** Pops one deque until it is empty and fails every future in it. */
    method FailAll(command: byte)
      requires command in pending
      modifies this`pending, this`outcomes
      ensures pending == old(pending)[command := []]
      ensures outcomes == old(outcomes) + Failed(set id | id in old(pending[command]))
    {
      ghost var queue := pending[command];
      ghost var k := 0;
      while pending[command] != []
        invariant command in pending && k <= |queue|
        invariant pending == old(pending)[command := queue[k..]]
        invariant outcomes == old(outcomes) + Failed(set id | id in queue[..k])
        decreases |pending[command]|
      {
        assert queue[..k + 1] == queue[..k] + [pending[command][0]];
        outcomes := outcomes[pending[command][0] := SessionClosed];
        pending := pending[command := pending[command][1..]];
        k := k + 1;
      }
      assert queue[..k] == queue;
    }

    method CloseSession()
      modifies this
      ensures Abstract() == Close(old(Abstract()))
    {
      if closed {
        return;
      }
      hide Failed, IdsOutside, PendingIds;
      closed := true;
      var left := pending.Keys;
      ghost var st := Abstract();
      IdsOutsideEnds(st);
      while left != {}
        invariant left <= st.pending.Keys == pending.Keys
        invariant commands == st.commands && raised == st.raised && closed == st.closed
        invariant forall c | c in left :: pending[c] == st.pending[c]
        invariant outcomes == st.outcomes + Failed(IdsOutside(st, left))
        decreases left
      {
        var c :| c in left;
        FailedJoin(st.outcomes, IdsOutside(st, left), set id | id in st.pending[c]);
        IdsOutsideStep(st, left, c);
        FailAll(c);
        left := left - {c};
      }
      pending := map[];
    }
  }

  /** The requests waiting in the queues that `close` has already drained. */
  ghost function IdsOutside(st: State, left: set<byte>): set<nat> {
    set c, i | c in st.pending && c !in left && 0 <= i < |st.pending[c]| :: st.pending[c][i]
  }

  lemma FailedJoin(outcomes: map<nat, Outcome>, a: set<nat>, b: set<nat>)
    ensures outcomes + Failed(a) + Failed(b) == outcomes + Failed(a + b)
    ensures outcomes + Failed({}) == outcomes
  {
  }

  lemma IdsOutsideEnds(st: State)
    ensures IdsOutside(st, st.pending.Keys) == {} && IdsOutside(st, {}) == PendingIds(st)
    ensures st.outcomes + Failed({}) == st.outcomes
  {
  }

  lemma IdsOutsideStep(st: State, left: set<byte>, c: byte)
    requires c in left && c in st.pending
    ensures IdsOutside(st, left - {c}) == IdsOutside(st, left) + set id | id in st.pending[c]
  {
    forall id | id in IdsOutside(st, left - {c})
      ensures id in IdsOutside(st, left) || id in st.pending[c]
    {
      var d, i :| d in st.pending && d !in left - {c} && 0 <= i < |st.pending[d]| && st.pending[d][i] == id;
    }
  }
}
