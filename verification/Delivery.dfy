/** End-to-end delivery: what every reachable session state satisfies. */
module Delivery {
  import opened Bytes
  import opened Frames
  import opened Decoder
  import opened Stream
  import opened Session

  predicate Ascending(q: seq<nat>) {
    forall i, j | 0 <= i < j < |q| :: q[i] < q[j]
  }

  /** A queue for command c holds, oldest first, unanswered requests for c. */
  predicate QueueSound(st: State, c: byte) {
    && Ascending(Queue(st, c))
    && forall id | id in Queue(st, c) :: id < |st.commands| && st.commands[id] == c && id !in st.outcomes
  }

  /** Every request is accounted for exactly once: it has an outcome or waits in the queue of its
      own command. */
  ghost predicate Sound(st: State) {
    && (forall c: byte :: QueueSound(st, c))
    && (forall id: nat | id < |st.commands| :: id in st.outcomes || id in Queue(st, st.commands[id]))
    && (forall id | id in st.outcomes :: id < |st.commands|)
  }

  // ----- runs -----

  /** What can happen to a session: a request is sent with a payload of some length, its write fails,
      it times out, a chunk of notifications arrives, the session is closed. */
  datatype Event =
    | Sent(command: byte, length: nat)
    | WriteFails(id: nat)
    | TimesOut(id: nat)
    | Notified(chunk: seq<byte>)
    | Closed

  /** The session together with what its decoder buffers. */
  datatype Run = Run(st: State, buffer: seq<byte>)

  /** Some caller waits for the outcome of this request, or has waited. */
  predicate Waited(st: State, id: nat) {
    id < |st.commands| && id !in st.raised
  }

  function Step(r: Run, e: Event): Run {
    match e
    case Sent(c, length) => r.(st := Submit(r.st, c, length))
    case WriteFails(id) => if Waited(r.st, id) then r.(st := Withdraw(r.st, id, WriteFailed)) else r
    case TimesOut(id) => if Waited(r.st, id) then r.(st := Withdraw(r.st, id, TimedOut)) else r
    case Notified(chunk) => Run(DeliverAll(r.st, Scan(r.buffer + chunk)), Residue(r.buffer + chunk))
    case Closed => r.(st := Session.Close(r.st))
  }

  function Steps(r: Run, events: seq<Event>): Run
    decreases |events|
  {
    if events == [] then r else Steps(Step(r, events[0]), events[1..])
  }

  // ----- each step keeps the account -----

  lemma SubmitSound(st: State, command: byte, length: nat)
    requires Sound(st)
    ensures Sound(Submit(st, command, length))
  {
    hide QueueSound;
    forall c: byte ensures QueueSound(Submit(st, command, length), c) {
      SubmitQueue(st, command, length, c);
    }
  }

  lemma SubmitQueue(st: State, command: byte, length: nat, c: byte)
    requires QueueSound(st, c) && forall id | id in st.outcomes :: id < |st.commands|
    ensures QueueSound(Submit(st, command, length), c)
  {
    var q := Queue(st, c);
    forall i | 0 <= i < |q| ensures q[i] < |st.commands| {
      assert q[i] in q;
    }
  }

  lemma PopFrom(q: seq<nat>)
    requires Ascending(q) && q != []
    ensures Ascending(q[1..])
    ensures forall x :: x in q[1..] <==> x in q && x != q[0]
    ensures forall x | x in q :: q[0] <= x
  {
    assert q == [q[0]] + q[1..];
  }

  lemma DeliverSound(st: State, m: Message)
    requires Sound(st)
    ensures Sound(Deliver(st, m))
  {
    var next := Deliver(st, m);
    assert QueueSound(st, m.command);
    if Queue(st, m.command) != [] {
      PopFrom(Queue(st, m.command));
      assert Queue(st, m.command)[0] in Queue(st, m.command);
    }
    forall c: byte ensures QueueSound(next, c) {
      assert QueueSound(st, c);
    }
  }

  lemma {:induction false} RemoveFrom(q: seq<nat>, id: nat)
    requires Ascending(q)
    ensures Ascending(Remove(q, id))
    ensures forall x :: x in Remove(q, id) <==> x in q && x != id
  {
    if q == [] {
    } else {
      PopFrom(q);
      RemoveFrom(q[1..], id);
      var r := Remove(q[1..], id);
      forall i | 0 <= i < |r| ensures q[0] < r[i] {
        assert r[i] in r;
      }
    }
  }

  lemma WithdrawSound(st: State, id: nat, outcome: Outcome)
    requires Sound(st) && id < |st.commands|
    ensures Sound(Withdraw(st, id, outcome))
  {
    var next := Withdraw(st, id, outcome);
    assert QueueSound(st, st.commands[id]);
    RemoveFrom(Queue(st, st.commands[id]), id);
    forall c: byte ensures QueueSound(next, c) {
      assert QueueSound(st, c);
    }
  }

  lemma PendingIsQueued(st: State, id: nat)
    requires Sound(st)
    ensures id in PendingIds(st) <==> id < |st.commands| && id in Queue(st, st.commands[id])
    ensures id in PendingIds(st) <==> id < |st.commands| && id !in st.outcomes
  {
    if id in PendingIds(st) {
      var c, i :| c in st.pending && 0 <= i < |st.pending[c]| && st.pending[c][i] == id;
      assert QueueSound(st, c) && id in Queue(st, c);
    }
    if id < |st.commands| {
      assert QueueSound(st, st.commands[id]);
    }
  }

  lemma CloseSound(st: State)
    requires Sound(st)
    ensures Sound(Session.Close(st))
    ensures !st.closed ==> PendingIds(Session.Close(st)) == {}
  {
    forall id: nat ensures id in PendingIds(st) <==> id < |st.commands| && id !in st.outcomes {
      PendingIsQueued(st, id);
    }
  }

  lemma {:induction false} DeliverAllSound(st: State, frames: seq<seq<byte>>)
    requires Sound(st)
    ensures Sound(DeliverAll(st, frames))
    decreases |frames|
  {
    hide Sound, Deliver, IsFrame;
    if frames == [] {
    } else {
      if IsFrame(frames[0]) {
        DeliverSound(st, MessageOf(frames[0]));
      }
      DeliverAllSound(if IsFrame(frames[0]) then Deliver(st, MessageOf(frames[0])) else st, frames[1..]);
    }
  }

  lemma StepSound(r: Run, e: Event)
    requires Sound(r.st)
    ensures Sound(Step(r, e).st)
  {
    hide Sound, Scan, Residue, Submit, Withdraw, DeliverAll, Session.Close;
    match e
    case Sent(c, length) => SubmitSound(r.st, c, length);
    case WriteFails(id) => if id < |r.st.commands| { WithdrawSound(r.st, id, WriteFailed); }
    case TimesOut(id) => if id < |r.st.commands| { WithdrawSound(r.st, id, TimedOut); }
    case Notified(chunk) => DeliverAllSound(r.st, Scan(r.buffer + chunk));
    case Closed => CloseSound(r.st);
  }

  lemma {:induction false} StepsSound(r: Run, events: seq<Event>)
    requires Sound(r.st)
    ensures Sound(Steps(r, events).st)
    decreases |events|
  {
    hide Sound, Step;
    if events == [] {
    } else {
      StepSound(r, events[0]);
      StepsSound(Step(r, events[0]), events[1..]);
    }
  }

  // ----- main results -----

  function Below(n: nat): (r: set<nat>)
    ensures forall id: nat :: id in r <==> id < n
  {
    if n == 0 then {} else Below(n - 1) + {n - 1}
  }

  lemma {:induction false} BelowSize(n: nat)
    ensures |Below(n)| == n
  {
    if n == 0 {
    } else {
      BelowSize(n - 1);
    }
  }

  function AnsweredIds(st: State): set<nat> {
    set id | id in st.outcomes && st.outcomes[id].Answered?
  }

  function FailedIds(st: State): set<nat> {
    set id | id in st.outcomes && !st.outcomes[id].Answered?
  }

  /** In every reachable state: sent = answered + failed + pending. */
  lemma Conservation(events: seq<Event>)
    ensures var st := Steps(Run(FRESH, []), events).st;
            |st.commands| == |AnsweredIds(st)| + |FailedIds(st)| + |PendingIds(st)|
  {
    assert Sound(FRESH);
    StepsSound(Run(FRESH, []), events);
    var st := Steps(Run(FRESH, []), events).st;
    hide Steps;
    forall id: nat ensures id in PendingIds(st) <==> id < |st.commands| && id !in st.outcomes {
      PendingIsQueued(st, id);
    }
    assert forall id | id in st.outcomes :: id < |st.commands|;
    hide PendingIds, Sound;
    var a, f, p := AnsweredIds(st), FailedIds(st), PendingIds(st);
    assert a !! f && (a + f) !! p;
    assert Below(|st.commands|) == a + f + p;
    BelowSize(|st.commands|);
  }

  function WaitingFor(st: State, command: byte): set<nat> {
    set id | id in PendingIds(st) && id < |st.commands| && st.commands[id] == command
  }

  /** A response goes to the oldest request still waiting for its command, and to no other. */
  lemma AnswersOldest(st: State, m: Message)
    requires Sound(st)
    ensures var next := Deliver(st, m);
            var waiting := WaitingFor(st, m.command);
            if waiting == {} then next == st
            else exists id :: && id in waiting
                              && (forall other | other in waiting :: id <= other)
                              && next.outcomes == st.outcomes[id := Answered(m.payload)]
                              && PendingIds(next) == PendingIds(st) - {id}
  {
    var q := Queue(st, m.command);
    var next := Deliver(st, m);
    DeliverSound(st, m);
    assert QueueSound(st, m.command);
    forall id: nat ensures id in PendingIds(st) <==> id < |st.commands| && id !in st.outcomes {
      PendingIsQueued(st, id);
    }
    forall id: nat ensures id in PendingIds(next) <==> id < |st.commands| && id !in next.outcomes {
      PendingIsQueued(next, id);
    }
    hide PendingIds;
    if q != [] {
      var id := q[0];
      assert id in q;
      PopFrom(q);
      assert id in WaitingFor(st, m.command);
      forall other | other in WaitingFor(st, m.command) ensures id <= other {
        assert other in q;
      }
    } else {
      forall other ensures other !in WaitingFor(st, m.command) {
        assert other in WaitingFor(st, m.command) ==> other in q;
      }
    }
  }

  /** A request gets at most one outcome: no later step changes or removes it. */
  ghost predicate Keeps(a: State, b: State) {
    && (forall id | id in a.outcomes :: id in b.outcomes && b.outcomes[id] == a.outcomes[id])
    && a.commands <= b.commands
  }

  lemma DeliverKeeps(st: State, m: Message)
    requires Sound(st)
    ensures Keeps(st, Deliver(st, m))
  {
    assert QueueSound(st, m.command);
  }

  lemma {:induction false} DeliverAllKeeps(st: State, frames: seq<seq<byte>>)
    requires Sound(st)
    ensures Keeps(st, DeliverAll(st, frames))
    decreases |frames|
  {
    hide Sound, Deliver, IsFrame;
    if frames == [] {
    } else {
      if IsFrame(frames[0]) {
        var m := MessageOf(frames[0]);
        DeliverSound(st, m);
        DeliverKeeps(st, m);
        DeliverAllKeeps(Deliver(st, m), frames[1..]);
      } else {
        DeliverAllKeeps(st, frames[1..]);
      }
    }
  }

  lemma StepKeeps(r: Run, e: Event)
    requires Sound(r.st)
    ensures Keeps(r.st, Step(r, e).st)
  {
    match e
    case Sent(_, _) =>
    case WriteFails(id) => if id < |r.st.commands| { assert QueueSound(r.st, r.st.commands[id]); }
    case TimesOut(id) => if id < |r.st.commands| { assert QueueSound(r.st, r.st.commands[id]); }
    case Notified(chunk) =>
      hide Scan, Residue, DeliverAll, Sound;
      DeliverAllKeeps(r.st, Scan(r.buffer + chunk));
    case Closed =>
      forall id: nat | id in PendingIds(r.st) ensures id !in r.st.outcomes {
        PendingIsQueued(r.st, id);
      }
  }

  lemma {:induction false} OutcomesAreFinal(r: Run, events: seq<Event>)
    requires Sound(r.st)
    ensures Keeps(r.st, Steps(r, events).st)
    decreases |events|
  {
    hide Sound, Step;
    if events == [] {
    } else {
      StepSound(r, events[0]);
      StepKeeps(r, events[0]);
      OutcomesAreFinal(Step(r, events[0]), events[1..]);
    }
  }

  /** `close` leaves nothing pending precisely when it is the first close or nothing was pending:
      a session that is closed twice keeps the requests sent in between. */
  lemma CloseLeavesNone(st: State)
    requires Sound(st)
    ensures PendingIds(Session.Close(st)) == {} <==> !st.closed || PendingIds(st) == {}
  {
    CloseSound(st);
  }

  /** It can happen: a request sent on a closed session waits on after another close. */
  lemma SecondCloseLeavesRequest()
    ensures var st := Steps(Run(FRESH, []), [Closed, Sent(3, 0), Closed]).st;
      PendingIds(st) == {0} && st.outcomes == map[]
  {
    hide Steps;
    ThreeSteps(Run(FRESH, []), Closed, Sent(3, 0), Closed);
    var closed := Session.Close(FRESH);
    assert closed.outcomes == map[];
    OneQueued(closed, 3, 0);
    assert 0 in PendingIds(Submit(closed, 3, 0)) by {
      assert Submit(closed, 3, 0).pending[3][0] == 0;
    }
  }

  lemma OneQueued(st: State, command: byte, length: nat)
    requires st.commands == [] && st.pending == map[]
    ensures Submit(st, command, length).pending == map[command := [0]]
    ensures Submit(st, command, length).commands == [command]
  {
    assert [] + [0] == [0] && [] + [command] == [command];
    assert map[][command := [0]] == map[command := [0]];
  }

  // ----- requests that nobody waits for -----

  /** No request was abandoned by its caller exactly if every payload fitted a frame. */
  lemma {:induction false} NoneRaisedIff(r: Run, events: seq<Event>)
    ensures Steps(r, events).st.raised == {} <==>
      r.st.raised == {} && forall e | e in events && e.Sent? :: e.length <= MAX_PAYLOAD
    decreases |events|
  {
    hide Scan, Residue, Deliver;
    if events == [] {
    } else {
      RaisedStep(r, events[0]);
      NoneRaisedIff(Step(r, events[0]), events[1..]);
      assert events == [events[0]] + events[1..];
    }
  }

  lemma RaisedStep(r: Run, e: Event)
    ensures Step(r, e).st.raised ==
      r.st.raised + if e.Sent? && MAX_PAYLOAD < e.length then {|r.st.commands|} else {}
  {
    if e.Notified? {
      DeliverAllRaises(r.st, Scan(r.buffer + e.chunk));
    }
  }

  lemma {:induction false} DeliverAllRaises(st: State, frames: seq<seq<byte>>)
    ensures DeliverAll(st, frames).raised == st.raised
    decreases |frames|
  {
    hide IsFrame;
    if frames == [] {
    } else {
      DeliverAllRaises(if IsFrame(frames[0]) then Deliver(st, MessageOf(frames[0])) else st, frames[1..]);
    }
  }

  /** Some queue holds a request that nobody waits for. */
  ghost predicate Orphaned(st: State) {
    exists id :: id in st.raised && id in PendingIds(st)
  }

  lemma {:induction false} StepsJoin(r: Run, a: seq<Event>, b: seq<Event>)
    ensures Steps(r, a + b) == Steps(Steps(r, a), b)
    decreases |a|
  {
    hide Step;
    if a == [] {
      assert a + b == b;
    } else {
      assert (a + b)[0] == a[0] && (a + b)[1..] == a[1..] + b;
      StepsJoin(Step(r, a[0]), a[1..], b);
    }
  }

  /** A request whose payload does not fit stays in its queue. */
  lemma OversizedIsOrphaned(st: State, command: byte, length: nat)
    requires MAX_PAYLOAD < length
    ensures Orphaned(Submit(st, command, length))
  {
    var next, id := Submit(st, command, length), |st.commands|;
    var q := next.pending[command];
    assert q[|q| - 1] == id && command in next.pending;
    assert id in PendingIds(next);
  }

  /** At no point of a run does a queue hold a request that nobody waits for, exactly if every payload
      that was sent fitted a frame. */
  lemma EveryQueuedRequestIsWaitedIff(events: seq<Event>)
    ensures (forall k | 0 <= k <= |events| :: !Orphaned(Steps(Run(FRESH, []), events[..k]).st)) <==>
      forall e | e in events && e.Sent? :: e.length <= MAX_PAYLOAD
  {
    hide Orphaned, Step;
    var start := Run(FRESH, []);
    forall k | 0 <= k < |events| && events[k].Sent? && MAX_PAYLOAD < events[k].length
      ensures Orphaned(Steps(start, events[..k + 1]).st)
    {
      OversizedStep(Steps(start, events[..k]), events[k]);
      assert events[..k + 1] == events[..k] + [events[k]];
      StepsJoin(start, events[..k], [events[k]]);
    }
    if forall e | e in events && e.Sent? :: e.length <= MAX_PAYLOAD {
      forall k | 0 <= k <= |events| ensures !Orphaned(Steps(start, events[..k]).st) {
        NoneRaisedIff(start, events[..k]);
        NoneRaisedNoneOrphaned(Steps(start, events[..k]).st);
      }
    } else {
      var e :| e in events && e.Sent? && MAX_PAYLOAD < e.length;
      var k :| 0 <= k < |events| && events[k] == e;
      assert Orphaned(Steps(start, events[..k + 1]).st);
    }
  }

  lemma OversizedStep(r: Run, e: Event)
    requires e.Sent? && MAX_PAYLOAD < e.length
    ensures Orphaned(Steps(r, [e]).st)
  {
    hide Orphaned;
    var events := [e];
    assert events[1..] == [];
    OversizedIsOrphaned(r.st, e.command, e.length);
  }

  lemma NoneRaisedNoneOrphaned(st: State)
    requires st.raised == {}
    ensures !Orphaned(st)
  {
  }

  /** A waiting request gets the next response to its command iff no request for that command, waited
      for or not, is queued ahead of it. */
  lemma NextResponseIff(st: State, id: nat, payload: seq<byte>)
    requires Sound(st) && id in PendingIds(st)
    ensures id < |st.commands| && id !in st.outcomes
    ensures var m := Message(st.commands[id], payload);
      id in Deliver(st, m).outcomes <==> forall other | other in WaitingFor(st, m.command) :: id <= other
    ensures var after := Deliver(st, Message(st.commands[id], payload)).outcomes;
      id in after ==> after[id] == Answered(payload)
  {
    hide Deliver, PendingIds;
    PendingIsQueued(st, id);
    AnswersOldest(st, Message(st.commands[id], payload));
    assert id in WaitingFor(st, st.commands[id]);
  }

  /** It can happen: a request whose payload did not fit takes the response to the one after it. */
  lemma OversizedRequestTakesResponse(command: byte, length: nat, payload: seq<byte>)
    requires MAX_PAYLOAD < length && |payload| <= MAX_PAYLOAD
    ensures var st :=
      Steps(Run(FRESH, []), [Sent(command, length), Sent(command, 0), Notified(Build(command, payload))]).st;
      st.raised == {0} && st.outcomes == map[0 := Answered(payload)] && st.pending == map[command := [1]]
  {
    hide Scan, Residue, Build, Submit, Deliver, Steps;
    var chunk := Build(command, payload);
    ThreeSteps(Run(FRESH, []), Sent(command, length), Sent(command, 0), Notified(chunk));
    OneFrame(command, payload);
    assert [] + chunk == chunk;
    BuildDecodes(command, payload);
    DeliverOne(Submit(Submit(FRESH, command, length), command, 0), chunk);
    FirstQueuedTakes(command, length, payload);
  }

  lemma ThreeSteps(r: Run, a: Event, b: Event, c: Event)
    ensures Steps(r, [a, b, c]) == Step(Step(Step(r, a), b), c)
  {
    hide Step;
    var events := [a, b, c];
    assert events[1..] == [b, c] && events[1..][1..] == [c] && events[1..][1..][1..] == [];
    assert Steps(r, events) == Steps(Step(r, a), events[1..]) == Steps(Step(Step(r, a), b), events[1..][1..]);
  }

  lemma FirstQueuedTakes(command: byte, length: nat, payload: seq<byte>)
    requires MAX_PAYLOAD < length
    ensures var st := Deliver(Submit(Submit(FRESH, command, length), command, 0), Message(command, payload));
      st.raised == {0} && st.outcomes == map[0 := Answered(payload)] && st.pending == map[command := [1]]
  {
    OneQueued(FRESH, command, length);
    var one := Submit(FRESH, command, length);
    assert Queue(one, command) == [0];
    var two := Submit(one, command, 0);
    assert Queue(two, command) == [0] + [1] && ([0] + [1])[1..] == [1];
    assert two.pending[command := [1]] == map[command := [1]];
  }

  lemma DeliverOne(st: State, f: seq<byte>)
    requires IsFrame(f)
    ensures DeliverAll(st, [f]) == Deliver(st, MessageOf(f))
  {
    hide Deliver, IsFrame;
    var frames := [f];
    assert frames[1..] == [];
    NothingDelivered(Deliver(st, MessageOf(f)));
  }

  lemma OneFrame(command: byte, payload: seq<byte>)
    requires |payload| <= MAX_PAYLOAD
    ensures Scan(Build(command, payload)) == [Build(command, payload)]
  {
    hide Scan, Build;
    var messages := [Message(command, payload)];
    WireRoundTrip(messages);
    assert Wire(messages) == [Build(command, payload)];
    assert Concat(Wire(messages)) == Build(command, payload);
  }

  /** Every frame the decoder emits passes `parse_frame`. */
  lemma {:induction false} EmittedFramesParse(s: seq<byte>)
    ensures forall f | f in Scan(s) :: IsFrame(f)
    decreases |s|
  {
    match FindFrame(s, 0)
    case None =>
    case Some(o) =>
      EndInside(s, o);
      assert IsFrame(FrameBytes(s, o));
      hide IsFrame, FrameAt, FrameBytes, FrameEnd, FindFrame;
      EmittedFramesParse(s[FrameEnd(s, o)..]);
  }

  lemma {:induction false} DeliverAllJoins(st: State, a: seq<seq<byte>>, b: seq<seq<byte>>)
    ensures DeliverAll(st, a + b) == DeliverAll(DeliverAll(st, a), b)
    decreases |a|
  {
    hide Deliver, IsFrame;
    if a == [] {
      assert a + b == b;
    } else {
      assert (a + b)[1..] == a[1..] + b;
      DeliverAllJoins(if IsFrame(a[0]) then Deliver(st, MessageOf(a[0])) else st, a[1..], b);
    }
  }

  function Notifications(chunks: seq<seq<byte>>): seq<Event> {
    if chunks == [] then [] else [Notified(chunks[0])] + Notifications(chunks[1..])
  }

  lemma {:induction false} NotificationsDeliver(st: State, buffer: seq<byte>, chunks: seq<seq<byte>>)
    ensures Steps(Run(st, buffer), Notifications(chunks)).st == DeliverAll(st, FeedAll(buffer, chunks).0)
    decreases |chunks|
  {
    hide Scan, Residue, DeliverAll;
    if chunks == [] {
      assert DeliverAll(st, []) == st by { NothingDelivered(st); }
    } else {
      var s := buffer + chunks[0];
      assert Notifications(chunks)[1..] == Notifications(chunks[1..]);
      NotificationsDeliver(DeliverAll(st, Scan(s)), Residue(s), chunks[1..]);
      DeliverAllJoins(st, Scan(s), FeedAll(Residue(s), chunks[1..]).0);
    }
  }

  lemma NothingDelivered(st: State)
    ensures DeliverAll(st, []) == st
  {
  }

  /** With the waiters fixed, the outcomes do not depend on how an unnested stream was fragmented. */
  lemma FragmentationIsInvisible(st: State, chunks: seq<seq<byte>>, others: seq<seq<byte>>)
    requires Concat(chunks) == Concat(others) && Unnested(Concat(chunks))
    ensures Steps(Run(st, []), Notifications(chunks)).st == Steps(Run(st, []), Notifications(others)).st
  {
    NotificationsDeliver(st, [], chunks);
    NotificationsDeliver(st, [], others);
    hide Unnested, Steps, FeedAll, Notifications;
    CutInvariantIffUnnested(Concat(chunks));
  }

  // ----- withdrawing -----

  lemma {:induction false} RemoveCuts(q: seq<nat>, id: nat) returns (a: seq<nat>, b: seq<nat>)
    requires id in q && Ascending(q)
    ensures q == a + [id] + b && Remove(q, id) == a + b
  {
    if q[0] == id {
      a, b := [], q[1..];
    } else {
      PopFrom(q);
      a, b := RemoveCuts(q[1..], id);
      a := [q[0]] + a;
    }
  }

  /** What sending does: the request is the last of its queue, and it has raised iff no frame can say its
      own length. */
  lemma SentExactly(r: Run, command: byte, length: nat)
    ensures var st, next := r.st, Step(r, Sent(command, length)).st; var id := |st.commands|;
      && Step(r, Sent(command, length)).buffer == r.buffer
      && next.commands == st.commands + [command] && next.outcomes == st.outcomes && next.closed == st.closed
      && (forall c: byte :: Queue(next, c) == if c == command then Queue(st, c) + [id] else Queue(st, c))
      && (forall i: nat :: i in next.raised <==> i in st.raised || (i == id && 0xFF < 5 + length))
  {
  }

  /** What a failed write or a timeout does: a request that waits gets that outcome and leaves its queue,
      where the others keep their places; any other request stays as it is. */
  lemma WithdrawnExactly(r: Run, id: nat, e: Event)
    requires Sound(r.st) && (e == WriteFails(id) || e == TimesOut(id))
    ensures var st, next := r.st, Step(r, e).st;
      && Step(r, e).buffer == r.buffer
      && next.commands == st.commands && next.raised == st.raised && next.closed == st.closed
      && if id in PendingIds(st) && id !in st.raised then
           && id !in PendingIds(next)
           && next.outcomes == st.outcomes[id := if e.TimesOut? then TimedOut else WriteFailed]
           && (forall c: byte | c != st.commands[id] :: Queue(next, c) == Queue(st, c))
           && exists a, b :: Queue(st, st.commands[id]) == a + [id] + b && Queue(next, st.commands[id]) == a + b
         else next == st
  {
    var st, next := r.st, Step(r, e).st;
    PendingIsQueued(st, id);
    if Waited(st, id) {
      var c := st.commands[id];
      assert QueueSound(st, c);
      if id in Queue(st, c) {
        var a, b := RemoveCuts(Queue(st, c), id);
        assert Queue(next, c) == a + b;
        WithdrawSound(st, id, if e.TimesOut? then TimedOut else WriteFailed);
        PendingIsQueued(next, id);
      }
    }
  }

  /** A request that has its outcome is not touched by a late failure. */
  lemma OutcomeStays(r: Run, id: nat, e: Event)
    requires Sound(r.st) && (e == WriteFails(id) || e == TimesOut(id)) && id in r.st.outcomes
    ensures Step(r, e) == r
  {
    hide PendingIds;
    PendingIsQueued(r.st, id);
    WithdrawnExactly(r, id, e);
  }

  /** A first close gives every waiting request its end and leaves the other outcomes; nothing waits any
      more. A later one does nothing. */
  lemma ClosedExactly(r: Run)
    ensures var st, next := r.st, Step(r, Closed).st;
      && Step(r, Closed).buffer == r.buffer
      && if st.closed then next == st
      else
        && next.closed && next.pending == map[] && next.commands == st.commands
        && (forall id :: id in next.outcomes <==> id in st.outcomes || id in PendingIds(st))
        && (forall id | id in PendingIds(st) :: next.outcomes[id] == SessionClosed)
        && (forall id | id in st.outcomes && id !in PendingIds(st) :: next.outcomes[id] == st.outcomes[id])
  {
    hide PendingIds;
  }

  /** After a timeout the next response goes to the next request. */
  lemma ResponseAfterTimeout(command: byte, payload: seq<byte>)
    requires |payload| <= MAX_PAYLOAD
    ensures var events := [Sent(command, 0), Sent(command, 0), TimesOut(0), Notified(Build(command, payload))];
      var st := Steps(Run(FRESH, []), events).st;
      st.outcomes == map[0 := TimedOut, 1 := Answered(payload)] && PendingIds(st) == {}
  {
    hide Scan, Residue, Build, Steps;
    var chunk := Build(command, payload);
    var events := [Sent(command, 0), Sent(command, 0), TimesOut(0)];
    ThreeSteps(Run(FRESH, []), Sent(command, 0), Sent(command, 0), TimesOut(0));
    assert events + [Notified(chunk)] == [Sent(command, 0), Sent(command, 0), TimesOut(0), Notified(chunk)];
    StepsJoin(Run(FRESH, []), events, [Notified(chunk)]);
    OneStep(Steps(Run(FRESH, []), events), Notified(chunk));
    OneFrame(command, payload);
    assert [] + chunk == chunk;
    BuildDecodes(command, payload);
    TimedOutFirst(command);
    DeliverOne(Withdraw(Submit(Submit(FRESH, command, 0), command, 0), 0, TimedOut), chunk);
    AnsweredSecond(command, payload);
  }

  lemma OneStep(r: Run, e: Event)
    ensures Steps(r, [e]) == Step(r, e)
  {
    hide Step;
    var events := [e];
    assert events[1..] == [];
  }

  lemma TimedOutFirst(command: byte)
    ensures var st := Withdraw(Submit(Submit(FRESH, command, 0), command, 0), 0, TimedOut);
      st.outcomes == map[0 := TimedOut] && st.pending == map[command := [1]] && st.raised == {}
  {
    OneQueued(FRESH, command, 0);
    var one := Submit(FRESH, command, 0);
    assert Queue(one, command) == [0];
    var two := Submit(one, command, 0);
    var q: seq<nat> := [0, 1];
    assert Queue(two, command) == [0] + [1] == q;
    assert Remove(q, 0) == q[1..] == [1];
    assert two.commands[0] == command;
    assert two.pending[command := [1]] == map[command := [1]];
    assert two.outcomes[0 := TimedOut] == map[0 := TimedOut];
  }

  lemma AnsweredSecond(command: byte, payload: seq<byte>)
    ensures var two := Submit(Submit(FRESH, command, 0), command, 0);
      var st := Deliver(Withdraw(two, 0, TimedOut), Message(command, payload));
      st.outcomes == map[0 := TimedOut, 1 := Answered(payload)] && PendingIds(st) == {}
  {
    hide Withdraw;
    TimedOutFirst(command);
    var st := Withdraw(Submit(Submit(FRESH, command, 0), command, 0), 0, TimedOut);
    var q: seq<nat> := [1];
    assert Queue(st, command) == q && q[1..] == [];
    assert st.pending[command := []] == map[command := []];
    assert st.outcomes[1 := Answered(payload)] == map[0 := TimedOut, 1 := Answered(payload)];
  }
}
