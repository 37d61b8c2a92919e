/** The device's command protocol: callers that take turns at a lock, one request in flight, retries,
    and the accounting of results. */
module Device {
  import opened Wrappers
  import opened Bytes
  import opened Frames

  /** Where one call of `send_command` stands. A call holds the lock from Connecting to Sleeping. */
  datatype Stage =
    | Queued                     // waits for the lock
    | Connecting
    | Writing                    // the response event exists, the frame is being written
    | Awaiting                   // written, waits for the response event
    | Sleeping                   // pauses after a failed attempt
    | Returned(success: bool)
    | Raised                     // the frame could not be built

  datatype Call = Call(cmd: byte, retry: int, stage: Stage, attempts: nat, writes: nat)

  datatype Stat = Stat(sent: nat, success: nat, failure: nat)

  /** `pending` and `event` are the slot of the command in flight; event says whether it is set. */
  datatype State = State(calls: seq<Call>, holder: Option<nat>, pending: Option<byte>, event: Option<bool>,
                         stats: map<byte, Stat>, totals: Stat)

  const IDLE := State([], None, None, None, map[], Stat(0, 0, 0))

  /** What happens between two suspensions of the code, or to it. A wait may time out although its
      event has just been set. */
  datatype Event =
    | Issue(cmd: byte, payload: seq<byte>, retry: int)
    | Acquire(call: nat)
    | Connected(call: nat)
    | ConnectFailed(call: nat)
    | Written(call: nat)
    | WriteFailed(call: nat)
    | Responded(call: nat)
    | TimedOut(call: nat)
    | Woken(call: nat)
    | Notified(data: seq<byte>)

  predicate Holds(s: State, i: nat, stage: Stage) {
    i < |s.calls| && s.holder == Some(i) && s.calls[i].stage == stage
  }

  predicate Enabled(s: State, e: Event) {
    match e
    case Issue(_, _, _) => true
    case Acquire(i) => i < |s.calls| && s.holder == None && s.calls[i].stage == Queued
    case Connected(i) => Holds(s, i, Connecting)
    case ConnectFailed(i) => Holds(s, i, Connecting)
    case Written(i) => Holds(s, i, Writing)
    case WriteFailed(i) => Holds(s, i, Writing)
    case Responded(i) => Holds(s, i, Awaiting) && s.event == Some(true)
    case TimedOut(i) => Holds(s, i, Awaiting)
    case Woken(i) => Holds(s, i, Sleeping)
    case Notified(_) => true
  }

  // ----- accounting -----

  function StatOf(stats: map<byte, Stat>, cmd: byte): Stat {
    if cmd in stats then stats[cmd] else Stat(0, 0, 0)
  }

  function Count(t: Stat, success: bool): Stat {
    if success then Stat(t.sent + 1, t.success + 1, t.failure) else Stat(t.sent + 1, t.success, t.failure + 1)
  }

  /** `_record_command_result`, and the return that follows it. */
  function Finish(s: State, i: nat, success: bool): State
    requires i < |s.calls|
  {
    var cmd := s.calls[i].cmd;
    s.(calls := s.calls[i := s.calls[i].(stage := Returned(success))], holder := None,
       stats := s.stats[cmd := Count(StatOf(s.stats, cmd), success)], totals := Count(s.totals, success))
  }

  /** The next turn of the loop over attempts, or its end. */
  function NextAttempt(s: State, i: nat): State
    requires i < |s.calls|
  {
    var c := s.calls[i];
    if c.attempts < c.retry
    then s.(calls := s.calls[i := c.(stage := Connecting, attempts := c.attempts + 1)], holder := Some(i))
    else Finish(s, i, false)
  }

  function Clear(s: State): State {
    s.(pending := None, event := None)
  }

  /** After an exception the slot is cleared, and there is a pause, but not after the last attempt. */
  function AfterException(s: State, i: nat): State
    requires i < |s.calls|
  {
    var c := s.calls[i];
    if c.attempts < c.retry then Clear(s).(calls := s.calls[i := c.(stage := Sleeping)]) else Finish(Clear(s), i, false)
  }

  function Step(s: State, e: Event): State
    requires Enabled(s, e)
  {
    match e
    case Issue(cmd, payload, retry) =>
      s.(calls := s.calls + [Call(cmd, retry, if |payload| <= MAX_PAYLOAD then Queued else Raised, 0, 0)])
    case Acquire(i) => NextAttempt(s, i)
    case Connected(i) =>
      var c := s.calls[i];
      s.(calls := s.calls[i := c.(stage := Writing, writes := c.writes + 1)], pending := Some(c.cmd),
        event := Some(false))
    case ConnectFailed(i) => AfterException(s, i)
    case Written(i) => s.(calls := s.calls[i := s.calls[i].(stage := Awaiting)])
    case WriteFailed(i) => AfterException(s, i)
    case Responded(i) => Finish(Clear(s), i, true)
    case TimedOut(i) => NextAttempt(Clear(s), i)
    case Woken(i) => NextAttempt(s, i)
    case Notified(data) =>
      if |data| <= 3 then s
      else
        s.(stats := s.stats[data[3] := StatOf(s.stats, data[3])],
           event := if s.pending == Some(data[3]) && s.event.Some? then Some(true) else s.event)
  }

  // ----- the code -----

  class MarstekBLEDevice {
    var calls: seq<Call>
    var holder: Option<nat>
    var pendingCommand: Option<byte>
    var responseEvent: Option<bool>
    var commandStats: map<byte, Stat>
    var totals: Stat

    constructor ()
      ensures Now() == IDLE
    {
      calls, holder, pendingCommand, responseEvent, commandStats, totals := [], None, None, None, map[], Stat(0, 0, 0);
    }

    function Now(): State
      reads this
    {
      State(calls, holder, pendingCommand, responseEvent, commandStats, totals)
    }

    /** `_record_command_result`. */
    method RecordCommandResult(cmd: byte, success: bool)
      modifies this`commandStats, this`totals
      ensures commandStats == old(commandStats)[cmd := Count(StatOf(old(commandStats), cmd), success)]
      ensures totals == Count(old(totals), success)
    {
      var stats := if cmd in commandStats then commandStats[cmd] else Stat(0, 0, 0);
      stats := stats.(sent := stats.sent + 1);
      totals := totals.(sent := totals.sent + 1);
      if success {
        stats := stats.(success := stats.success + 1);
        totals := totals.(success := totals.success + 1);
      } else {
        stats := stats.(failure := stats.failure + 1);
        totals := totals.(failure := totals.failure + 1);
      }
      commandStats := commandStats[cmd := stats];
    }

    /** `record_notification`. */
    method RecordNotification(data: seq<byte>)
      modifies this
      ensures Now() == Step(old(Now()), Notified(data))
    {
      if 3 < |data| {
        var command := data[3];
        commandStats :=
          commandStats[command := if command in commandStats then commandStats[command] else Stat(0, 0, 0)];
        if pendingCommand == Some(command) && responseEvent.Some? {
          responseEvent := Some(true);
        }
      }
    }

    /** `send_command` up to the lock. */
    method Start(cmd: byte, payload: seq<byte>, retry: int) returns (call: nat)
      modifies this
      ensures call == |old(calls)| && Now() == Step(old(Now()), Issue(cmd, payload, retry))
    {
      call := |calls|;
      var frame := BuildCommand(cmd, payload);
      calls := calls + [Call(cmd, retry, if frame.Success? then Queued else Raised, 0, 0)];
    }

    /** The head of the loop over attempts: the next one, or the failure after the last. */
    method Turn(i: nat)
      requires i < |calls|
      modifies this
      ensures Now() == NextAttempt(old(Now()), i)
    {
      var c := calls[i];
      if c.attempts < c.retry {
        calls, holder := calls[i := c.(stage := Connecting, attempts := c.attempts + 1)], Some(i);
      } else {
        RecordCommandResult(c.cmd, false);
        calls, holder := calls[i := c.(stage := Returned(false))], None;
      }
    }

    method LockAcquired(i: nat)
      requires Enabled(Now(), Acquire(i))
      modifies this
      ensures Now() == Step(old(Now()), Acquire(i))
    {
      Turn(i);
    }

    /** `_ensure_connected` has returned: fill the slot, begin to write. */
    method Arm(i: nat)
      requires Enabled(Now(), Connected(i))
      modifies this
      ensures Now() == Step(old(Now()), Connected(i))
    {
      pendingCommand, responseEvent := Some(calls[i].cmd), Some(false);
      calls := calls[i := calls[i].(stage := Writing, writes := calls[i].writes + 1)];
    }

    method WriteDone(i: nat)
      requires Enabled(Now(), Written(i))
      modifies this
      ensures Now() == Step(old(Now()), Written(i))
    {
      calls := calls[i := calls[i].(stage := Awaiting)];
    }

    /** The `except` branch of an attempt, for a connection or a write that failed. */
    method AttemptFailed(i: nat)
      requires Enabled(Now(), ConnectFailed(i)) || Enabled(Now(), WriteFailed(i))
      modifies this
      ensures Now() == AfterException(old(Now()), i)
    {
      pendingCommand, responseEvent := None, None;
      var c := calls[i];
      if c.attempts < c.retry {
        calls := calls[i := c.(stage := Sleeping)];
      } else {
        Turn(i);
      }
    }

    /** The wait for the response is over: it has seen the event set, or it has timed out. */
    method WaitEnded(i: nat, timedOut: bool)
      requires Enabled(Now(), if timedOut then TimedOut(i) else Responded(i))
      modifies this
      ensures Now() == Step(old(Now()), if timedOut then TimedOut(i) else Responded(i))
    {
      pendingCommand, responseEvent := None, None;
      if timedOut {
        Turn(i);
      } else {
        RecordCommandResult(calls[i].cmd, true);
        calls, holder := calls[i := calls[i].(stage := Returned(true))], None;
      }
    }

    method PauseOver(i: nat)
      requires Enabled(Now(), Woken(i))
      modifies this
      ensures Now() == Step(old(Now()), Woken(i))
    {
      Turn(i);
    }
  }

  // ----- runs -----

  /** A sequence of events each of which can happen where it stands. */
  ghost predicate Possible(events: seq<Event>)
    decreases |events|, 0
  {
    events == [] || (Possible(events[..|events| - 1]) && Enabled(After(events[..|events| - 1]), events[|events| - 1]))
  }

  ghost function After(events: seq<Event>): State
    requires Possible(events)
    decreases |events|, 1
  {
    if events == [] then IDLE else Step(After(events[..|events| - 1]), events[|events| - 1])
  }

  predicate Busy(c: Call) {
    c.stage in {Connecting, Writing, Awaiting, Sleeping}
  }

  /** The number of calls that have returned success, for one command. */
  function Returns(calls: seq<Call>, cmd: byte, success: bool): nat {
    if calls == [] then 0
    else
      Returns(calls[..|calls| - 1], cmd, success)
      + if calls[|calls| - 1].cmd == cmd && calls[|calls| - 1].stage == Returned(success) then 1 else 0
  }

  function Tally(calls: seq<Call>, cmd: byte): Stat {
    Stat(Returns(calls, cmd, true) + Returns(calls, cmd, false), Returns(calls, cmd, true), Returns(calls, cmd, false))
  }

  function Plus(a: Stat, b: Stat): Stat {
    Stat(a.sent + b.sent, a.success + b.success, a.failure + b.failure)
  }

  /** The sum over the commands below n. */
  function Sum(stats: map<byte, Stat>, n: nat): Stat
    requires n <= 256
  {
    if n == 0 then Stat(0, 0, 0) else Plus(Sum(stats, n - 1), StatOf(stats, n - 1))
  }

  ghost predicate SlotInv(s: State) {
    && (s.holder.Some? ==> s.holder.value < |s.calls| && Busy(s.calls[s.holder.value]))
    && (forall i | 0 <= i < |s.calls| && Busy(s.calls[i]) :: s.holder == Some(i))
    && (s.pending.Some? <==> s.event.Some?)
    && (s.pending.Some? <==> s.holder.Some? && s.calls[s.holder.value].stage in {Writing, Awaiting})
    && (s.pending.Some? ==> s.pending.value == s.calls[s.holder.value].cmd)
  }

  /** The frame is handed to the transport at most once an attempt, and there are at most `retry`
      attempts. */
  predicate CallInv(c: Call) {
    && c.writes <= c.attempts && (c.attempts > 0 ==> c.attempts <= c.retry)
    && (c.stage == Connecting ==> c.writes < c.attempts)
    && (c.stage == Queued || c.stage == Raised ==> c.attempts == 0)
    && (c.stage == Returned(true) || c.stage == Writing || c.stage == Awaiting ==> 1 <= c.writes)
    && (c.stage == Returned(false) ==> c.retry <= c.attempts)
  }

  ghost predicate AccountInv(s: State) {
    && (forall cmd: byte :: StatOf(s.stats, cmd) == Tally(s.calls, cmd))
    && s.totals == Sum(s.stats, 256)
  }

  lemma {:induction false} ReturnsUpdate(calls: seq<Call>, i: nat, c: Call, cmd: byte, success: bool)
    requires i < |calls| && calls[i].cmd == c.cmd && !calls[i].stage.Returned?
    ensures Returns(calls[i := c], cmd, success) ==
      Returns(calls, cmd, success) + if c.cmd == cmd && c.stage == Returned(success) then 1 else 0
  {
    var n := |calls| - 1;
    if i < n {
      assert calls[i := c][..n] == calls[..n][i := c];
      ReturnsUpdate(calls[..n], i, c, cmd, success);
    } else {
      assert calls[i := c][..n] == calls[..n];
    }
  }

  lemma {:induction false} SumUpdate(stats: map<byte, Stat>, cmd: byte, t: Stat, n: nat)
    requires n <= 256
    ensures cmd < n ==> Plus(Sum(stats[cmd := t], n), StatOf(stats, cmd)) == Plus(Sum(stats, n), t)
    ensures n <= cmd ==> Sum(stats[cmd := t], n) == Sum(stats, n)
  {
    if n == 0 {
    } else {
      SumUpdate(stats, cmd, t, n - 1);
    }
  }

  lemma FinishAccounts(s: State, i: nat, success: bool)
    requires AccountInv(s) && i < |s.calls| && !s.calls[i].stage.Returned?
    ensures AccountInv(Finish(s, i, success))
  {
    hide Sum, Returns;
    var t := Finish(s, i, success);
    var cmd := s.calls[i].cmd;
    SumUpdate(s.stats, cmd, Count(StatOf(s.stats, cmd), success), 256);
    forall k: byte
      ensures StatOf(t.stats, k) == Tally(t.calls, k)
    {
      assert StatOf(s.stats, k) == Tally(s.calls, k);
      ReturnsUpdate(s.calls, i, t.calls[i], k, true);
      ReturnsUpdate(s.calls, i, t.calls[i], k, false);
    }
  }

  /** A step of a call that does not return leaves the accounts alone. */
  lemma SameAccounts(s: State, t: State, i: nat)
    requires AccountInv(s) && i < |s.calls| && !s.calls[i].stage.Returned?
    requires t.stats == s.stats && t.totals == s.totals
    requires |t.calls| == |s.calls| && t.calls == s.calls[i := t.calls[i]] && t.calls[i].cmd == s.calls[i].cmd
    requires !t.calls[i].stage.Returned?
    ensures AccountInv(t)
  {
    hide Sum, Returns;
    forall k: byte
      ensures StatOf(t.stats, k) == Tally(t.calls, k)
    {
      assert StatOf(s.stats, k) == Tally(s.calls, k);
      ReturnsUpdate(s.calls, i, t.calls[i], k, true);
      ReturnsUpdate(s.calls, i, t.calls[i], k, false);
    }
  }

  lemma StepAccounts(s: State, e: Event)
    requires AccountInv(s) && Enabled(s, e)
    ensures AccountInv(Step(s, e))
  {
    hide Sum, Returns, AccountInv, Finish;
    match e
    case Issue(cmd, payload, retry) => IssueAccounts(s, e);
    case Notified(data) => NotifiedAccounts(s, e);
    case Connected(i) => SameAccounts(s, Step(s, e), i);
    case Written(i) => SameAccounts(s, Step(s, e), i);
    case Acquire(i) => TurnAccounts(s, i);
    case Woken(i) => TurnAccounts(s, i);
    case TimedOut(i) => ClearAccounts(s); TurnAccounts(Clear(s), i);
    case Responded(i) => ClearAccounts(s); FinishAccounts(Clear(s), i, true);
    case ConnectFailed(i) => ExceptionAccounts(s, i);
    case WriteFailed(i) => ExceptionAccounts(s, i);
  }

  lemma ClearAccounts(s: State)
    requires AccountInv(s)
    ensures AccountInv(Clear(s))
  {
  }

  lemma TurnAccounts(s: State, i: nat)
    requires AccountInv(s) && i < |s.calls| && !s.calls[i].stage.Returned?
    ensures AccountInv(NextAttempt(s, i))
  {
    hide AccountInv, Finish;
    if s.calls[i].attempts < s.calls[i].retry {
      SameAccounts(s, NextAttempt(s, i), i);
    } else {
      FinishAccounts(s, i, false);
    }
  }

  lemma ExceptionAccounts(s: State, i: nat)
    requires AccountInv(s) && i < |s.calls| && !s.calls[i].stage.Returned?
    ensures AccountInv(AfterException(s, i))
  {
    hide AccountInv, Finish;
    ClearAccounts(s);
    if s.calls[i].attempts < s.calls[i].retry {
      SameAccounts(s, AfterException(s, i), i);
    } else {
      FinishAccounts(Clear(s), i, false);
    }
  }

  lemma IssueAccounts(s: State, e: Event)
    requires AccountInv(s) && e.Issue?
    ensures AccountInv(Step(s, e))
  {
    hide Sum;
    var t := Step(s, e);
    assert t.calls[..|t.calls| - 1] == s.calls;
  }

  lemma NotifiedAccounts(s: State, e: Event)
    requires AccountInv(s) && e.Notified?
    ensures AccountInv(Step(s, e))
  {
    hide Sum, Returns;
    if 3 < |e.data| {
      SumUpdate(s.stats, e.data[3], StatOf(s.stats, e.data[3]), 256);
    }
  }

  /** At most one command is in flight: the slot is full exactly while the holder of the lock writes
      or waits, and then names its command. */
  lemma StepKeepsSlot(s: State, e: Event)
    requires SlotInv(s) && Enabled(s, e)
    ensures SlotInv(Step(s, e))
  {
  }

  lemma StepKeepsCalls(s: State, e: Event)
    requires (forall c | c in s.calls :: CallInv(c)) && Enabled(s, e)
    ensures forall c | c in Step(s, e).calls :: CallInv(c)
  {
    var t := Step(s, e);
    forall k | 0 <= k < |t.calls| ensures CallInv(t.calls[k]) {
      if k < |s.calls| {
        assert s.calls[k] in s.calls;
      }
    }
  }

  ghost predicate Inv(s: State) {
    SlotInv(s) && AccountInv(s) && forall c | c in s.calls :: CallInv(c)
  }

  /** What every interleaving of callers, notifications, failures and timeouts keeps. */
  lemma {:induction false} RunKeeps(events: seq<Event>)
    requires Possible(events)
    ensures Inv(After(events))
  {
    hide SlotInv, AccountInv, Step, CallInv;
    if events == [] {
      IdleInv();
    } else {
      var before, e := After(events[..|events| - 1]), events[|events| - 1];
      RunKeeps(events[..|events| - 1]);
      StepKeepsSlot(before, e);
      StepKeepsCalls(before, e);
      StepAccounts(before, e);
    }
  }

  lemma IdleInv()
    ensures Inv(IDLE)
  {
    hide Sum;
    EmptySum(256);
  }

  lemma {:induction false} EmptySum(n: nat)
    requires n <= 256
    ensures Sum(map[], n) == Stat(0, 0, 0)
  {
    if n == 0 {
    } else {
      EmptySum(n - 1);
    }
  }

  // ----- what a caller can rely on -----

  /** In every reachable state: one call at most writes or waits; no call hands its frame to the
      transport more than `retry` times; a call that returned False used up its attempts. */
  lemma OneInFlight(events: seq<Event>, i: nat, j: nat)
    requires Possible(events) && i < |After(events).calls| && j < |After(events).calls|
    ensures var s := After(events);
      && (s.calls[i].stage in {Writing, Awaiting} && s.calls[j].stage in {Writing, Awaiting} ==> i == j)
      && (s.calls[i].stage in {Writing, Awaiting} <==> s.pending.Some? && s.holder == Some(i))
      && (s.calls[i].writes == 0 || s.calls[i].writes <= s.calls[i].retry)
      && (s.calls[i].stage == Returned(false) ==>
        s.calls[i].attempts == if s.calls[i].retry < 0 then 0 else s.calls[i].retry)
  {
    hide After, Possible;
    RunKeeps(events);
    assert CallInv(After(events).calls[i]);
  }

  lemma {:induction false} SumBalances(stats: map<byte, Stat>, n: nat)
    requires n <= 256 && forall cmd: byte ::
      StatOf(stats, cmd).sent == StatOf(stats, cmd).success + StatOf(stats, cmd).failure
    ensures Sum(stats, n).sent == Sum(stats, n).success + Sum(stats, n).failure
  {
    if n == 0 {
    } else {
      SumBalances(stats, n - 1);
    }
  }

  /** The accounts balance for every command and in total, count every returned call once, and the
      totals are the sums over the commands. */
  lemma AccountsBalance(events: seq<Event>, cmd: byte)
    requires Possible(events)
    ensures var s := After(events); var t := StatOf(s.stats, cmd);
      && t.sent == t.success + t.failure
      && t.success == Returns(s.calls, cmd, true) && t.failure == Returns(s.calls, cmd, false)
      && s.totals == Sum(s.stats, 256)
      && s.totals.sent == s.totals.success + s.totals.failure
  {
    hide After, Possible, SlotInv, Sum, Returns, StatOf;
    RunKeeps(events);
    SumBalances(After(events).stats, 256);
  }

  /** When a call returns, the slot is empty and the lock free. */
  lemma ReturnLeavesSlotEmpty(events: seq<Event>, i: nat)
    requires Possible(events) && events != [] && i < |After(events).calls| && After(events).calls[i].stage.Returned?
    requires var before := After(events[..|events| - 1]); i < |before.calls| && !before.calls[i].stage.Returned?
    ensures After(events).pending == None && After(events).event == None && After(events).holder == None
  {
    hide AccountInv, Sum, Returns, SlotInv, CallInv, StatOf, Count;
    RunKeeps(events[..|events| - 1]);
    RunKeeps(events);
    EmptySlotWithoutHolder(After(events));
  }

  lemma EmptySlotWithoutHolder(s: State)
    requires SlotInv(s) && s.holder == None
    ensures s.pending == None && s.event == None
  {
  }

  /** A notification that carries a command byte, whatever else is in it. */
  predicate Answers(e: Event, cmd: byte) {
    e.Notified? && 3 < |e.data| && e.data[3] == cmd
  }

  /** The event in the slot was created by the last connection, and is set iff a notification with
      the command byte has arrived since. */
  lemma {:induction false} SlotOrigin(events: seq<Event>) returns (m: nat)
    requires Possible(events) && After(events).event.Some?
    ensures var s := After(events);
      && s.holder.Some? && s.holder.value < |s.calls|
      && m < |events| && events[m] == Connected(s.holder.value) &&
        (forall j | m < j < |events| :: !events[j].Connected?)
      && (s.event == Some(true) <==> exists k :: m < k < |events| && Answers(events[k], s.calls[s.holder.value].cmd))
  {
    hide Inv, Step, SlotInv;
    var n := |events| - 1;
    var init, e := events[..n], events[n];
    RunKeeps(init);
    InvSlot(After(init));
    SlotStep(After(init), e);
    if e.Connected? {
      m := n;
    } else {
      m := SlotOrigin(init);
      assert forall j | 0 <= j < n :: init[j] == events[j];
      assert events[n] == e;
    }
  }

  lemma InvSlot(s: State)
    requires Inv(s)
    ensures SlotInv(s)
  {
  }

  /** How one step leaves a full slot. */
  lemma SlotStep(s: State, e: Event)
    requires SlotInv(s) && Enabled(s, e) && Step(s, e).event.Some?
    ensures var t := Step(s, e);
      && t.holder.Some? && t.holder.value < |t.calls|
      && if e.Connected? then t.holder == Some(e.call) && t.event == Some(false)
         else
           && s.event.Some? && t.holder == s.holder && t.holder.value < |s.calls|
           && t.calls[t.holder.value].cmd == s.calls[s.holder.value].cmd
           && (t.event == Some(true) <==> s.event == Some(true) || Answers(e, s.calls[s.holder.value].cmd))
  {
    hide StatOf, Count;
  }

  /** A call returns True only if a notification with its command byte has arrived after the event of
      that attempt was created; and a wait can end with True as soon as one has. */
  lemma WaitEndsByAnswer(events: seq<Event>, i: nat) returns (m: nat)
    requires Possible(events) && Holds(After(events), i, Awaiting)
    ensures m < |events| && events[m] == Connected(i) && (forall j | m < j < |events| :: !events[j].Connected?)
    ensures var cmd := After(events).calls[i].cmd;
      Possible(events + [Responded(i)]) <==> exists k :: m < k < |events| && Answers(events[k], cmd)
  {
    hide Step, AccountInv, After;
    RunKeeps(events);
    m := SlotOrigin(events);
    assert (events + [Responded(i)])[..|events|] == events;
  }

  /** An outcome is final. */
  lemma OutcomeIsFinal(s: State, e: Event, i: nat)
    requires SlotInv(s) && Enabled(s, e) && i < |s.calls| && (s.calls[i].stage.Returned? || s.calls[i].stage.Raised?)
    ensures i < |Step(s, e).calls| && Step(s, e).calls[i] == s.calls[i]
  {
    hide StatOf, Count;
  }

  // ----- the history of one call -----

  /** The events in which an attempt of call i ends without an answer. */
  predicate Fails(e: Event, i: nat) {
    e == ConnectFailed(i) || e == WriteFailed(i) || e == TimedOut(i)
  }

  function FailedAttempts(events: seq<Event>, i: nat): nat {
    if events == [] then 0
    else FailedAttempts(events[..|events| - 1], i) + if Fails(events[|events| - 1], i) then 1 else 0
  }

  function Writes(events: seq<Event>, i: nat): nat {
    if events == [] then 0
    else Writes(events[..|events| - 1], i) + if events[|events| - 1] == Connected(i) then 1 else 0
  }

  function Most(retry: int): nat {
    if retry < 0 then 0 else retry
  }

  predicate IsOf(e: Event, i: nat) {
    !e.Issue? && !e.Notified? && e.call == i
  }

  /** The last event of call i. */
  function LastOwn(events: seq<Event>, i: nat): Option<Event> {
    if events == [] then None
    else if IsOf(events[|events| - 1], i) then Some(events[|events| - 1])
    else LastOwn(events[..|events| - 1], i)
  }

  /** What has happened to one call. */
  datatype Past = Past(acquired: bool, responded: bool, failed: nat, writes: nat, last: Option<Event>)

  function PastOf(events: seq<Event>, i: nat): Past {
    Past(Acquire(i) in events, Responded(i) in events, FailedAttempts(events, i), Writes(events, i), LastOwn(events, i))
  }

  /** An attempt is going on, or has succeeded. */
  predicate Trying(c: Call) {
    c.stage in {Connecting, Writing, Awaiting, Returned(true)}
  }

  /** What the past of a call has made of it. */
  predicate Tells(p: Past, i: nat, c: Call) {
    && c.writes == p.writes
    && c.attempts == p.failed + (if Trying(c) then 1 else 0)
    && (c.stage == Queued || c.stage == Raised <==> !p.acquired)
    && (c.stage == Returned(true) <==> p.responded)
    && (c.stage == Returned(false) <==> p.acquired && p.failed == Most(c.retry))
    && (c.stage == Sleeping ==> p.last in {Some(ConnectFailed(i)), Some(WriteFailed(i))})
    && (c.stage == Connecting ==> p.last in {Some(Acquire(i)), Some(TimedOut(i)), Some(Woken(i))})
    && (c.stage == Writing <==> p.last == Some(Connected(i)))
    && (c.stage == Awaiting <==> p.last == Some(Written(i)))
  }

  function Later(p: Past, e: Event, i: nat): Past {
    if !IsOf(e, i) then p
    else Past(p.acquired || e.Acquire?, p.responded || e.Responded?, p.failed + (if Fails(e, i) then 1 else 0),
              p.writes + (if e.Connected? then 1 else 0), Some(e))
  }

  lemma PastStep(events: seq<Event>, e: Event, i: nat)
    ensures PastOf(events + [e], i) == Later(PastOf(events, i), e, i)
  {
    assert (events + [e])[..|events|] == events;
  }

  /** In every run, every call is where its own events have brought it: it has written once a
      connection, has had one attempt for each that failed and the one it is at, has returned True iff a
      wait saw its event set, and False iff all its attempts have failed. */
  lemma {:induction false} CallHistory(events: seq<Event>, i: nat)
    requires Possible(events)
    ensures i < |After(events).calls| ==> Tells(PastOf(events, i), i, After(events).calls[i])
    ensures |After(events).calls| <= i ==> PastOf(events, i) == Past(false, false, 0, 0, None)
  {
    hide Tells, Step, Later, Enabled, Inv;
    if events == [] {
    } else {
      var init, e := events[..|events| - 1], events[|events| - 1];
      CallHistory(init, i);
      RunKeeps(init);
      assert events == init + [e];
      PastStep(init, e, i);
      HistoryStep(After(init), PastOf(init, i), i, e);
    }
  }

  lemma HistoryStep(s: State, p: Past, i: nat, e: Event)
    requires Enabled(s, e) && Inv(s)
    requires if i < |s.calls| then Tells(p, i, s.calls[i]) else p == Past(false, false, 0, 0, None)
    ensures var calls := Step(s, e).calls;
      if i < |calls| then Tells(Later(p, e, i), i, calls[i]) else Later(p, e, i) == Past(false, false, 0, 0, None)
  {
    hide StatOf, Count, AccountInv, SlotInv;
    if IsOf(e, i) {
      assert CallInv(s.calls[i]);
      OwnStep(s, p, i, e);
    } else {
      OtherStep(s, i, e);
    }
  }

  lemma OtherStep(s: State, i: nat, e: Event)
    requires Enabled(s, e) && !IsOf(e, i)
    ensures i < |s.calls| ==> i < |Step(s, e).calls| && Step(s, e).calls[i] == s.calls[i]
    ensures |s.calls| <= i < |Step(s, e).calls| ==> e.Issue? && Step(s, e).calls[i].stage in {Queued, Raised}
    ensures |s.calls| <= i < |Step(s, e).calls| ==> Step(s, e).calls[i].attempts == Step(s, e).calls[i].writes == 0
  {
    hide StatOf, Count;
  }

  lemma OwnStep(s: State, p: Past, i: nat, e: Event)
    requires Enabled(s, e) && IsOf(e, i) && i < |s.calls| && Tells(p, i, s.calls[i]) && CallInv(s.calls[i])
    ensures i < |Step(s, e).calls| && Tells(Later(p, e, i), i, Step(s, e).calls[i])
  {
    hide StatOf, Count;
  }

  // ----- going on -----

  /** A call that has neither returned nor raised can go on in every reachable state: one that waits for
      the lock when no other call is trying, and one that is trying at once, whatever comes of what it
      is doing. A wait can time out even when it has been answered. */
  lemma GoesOn(events: seq<Event>, i: nat)
    requires Possible(events) && i < |After(events).calls|
    ensures var s := After(events); var stage := s.calls[i].stage;
      && (stage == Queued && (forall c | c in s.calls :: c.stage !in {Connecting, Writing, Awaiting, Sleeping}) ==>
            Possible(events + [Acquire(i)]))
      && (stage == Connecting ==> Possible(events + [Connected(i)]) && Possible(events + [ConnectFailed(i)]))
      && (stage == Writing ==> Possible(events + [Written(i)]) && Possible(events + [WriteFailed(i)]))
      && (stage == Awaiting ==>
            Possible(events + [TimedOut(i)]) && (s.event == Some(true) ==> Possible(events + [Responded(i)])))
      && (stage == Sleeping ==> Possible(events + [Woken(i)]))
  {
    hide After;
    RunKeeps(events);
    hide AccountInv, CallInv;
    forall e: Event ensures Enabled(After(events), e) ==> Possible(events + [e]) {
      assert (events + [e])[..|events|] == events;
    }
  }

  /** Calls may be issued and notifications may arrive at any time. */
  lemma AnyTime(events: seq<Event>, e: Event)
    requires Possible(events) && (e.Issue? || e.Notified?)
    ensures Possible(events + [e])
  {
    hide After;
    assert (events + [e])[..|events|] == events;
  }

  // ----- which calls there are -----

  function Issues(events: seq<Event>): seq<Event> {
    if events == [] then []
    else Issues(events[..|events| - 1]) + if events[|events| - 1].Issue? then [events[|events| - 1]] else []
  }

  /** The call that the event issued. It has raised iff no frame can say its own length. */
  predicate IsCallOf(c: Call, e: Event) {
    e.Issue? && c.cmd == e.cmd && c.retry == e.retry && (c.stage.Raised? <==> 0xFF < 5 + |e.payload|)
  }

  /** The calls are those that were issued, in order, and exactly the oversized ones have raised. */
  lemma {:induction false} CallsAreIssues(events: seq<Event>)
    requires Possible(events)
    ensures |After(events).calls| == |Issues(events)|
    ensures forall i | 0 <= i < |Issues(events)| :: IsCallOf(After(events).calls[i], Issues(events)[i])
  {
    hide Step, Enabled;
    if events == [] {
    } else {
      var init, e := events[..|events| - 1], events[|events| - 1];
      CallsAreIssues(init);
      StepKeepsIssued(After(init), e);
    }
  }

  lemma StepKeepsIssued(s: State, e: Event)
    requires Enabled(s, e)
    ensures var t := Step(s, e);
      && |t.calls| == |s.calls| + (if e.Issue? then 1 else 0)
      && (e.Issue? ==> IsCallOf(t.calls[|s.calls|], e))
      && forall i | 0 <= i < |s.calls| ::
           && t.calls[i].cmd == s.calls[i].cmd && t.calls[i].retry == s.calls[i].retry
           && (t.calls[i].stage.Raised? <==> s.calls[i].stage.Raised?)
  {
    hide StatOf, Count;
  }

  // ----- returning True -----

  /** A call that has returned True was answered: a notification with its command byte arrived after the
      event of its last connection had been created. */
  lemma {:induction false} TrueMeansAnswered(events: seq<Event>, i: nat) returns (m: nat, k: nat)
    requires Possible(events) && i < |After(events).calls| && After(events).calls[i].stage == Returned(true)
    ensures m < k < |events| && events[m] == Connected(i) && Answers(events[k], After(events).calls[i].cmd)
    ensures forall j | m < j < |events| :: events[j] != Connected(i)
  {
    hide Tells, Step, Inv, SlotInv, CallInv, AccountInv;
    var init, e := events[..|events| - 1], events[|events| - 1];
    if i < |After(init).calls| && After(init).calls[i].stage == Returned(true) {
      m, k := TrueMeansAnswered(init, i);
      NoLateConnection(init, i, e);
    } else {
      TurnsTrue(After(init), i, e);
      assert events == init + [Responded(i)];
      m := WaitEndsByAnswer(init, i);
      k :| m < k < |init| && Answers(init[k], After(init).calls[i].cmd);
    }
    assert forall j | 0 <= j < |init| :: init[j] == events[j];
  }

  /** Only a wait that has seen its event set makes a call return True. */
  lemma TurnsTrue(s: State, i: nat, e: Event)
    requires Enabled(s, e) && i < |Step(s, e).calls| && Step(s, e).calls[i].stage == Returned(true)
    requires i < |s.calls| ==> s.calls[i].stage != Returned(true)
    ensures e == Responded(i) && i < |s.calls| && Step(s, e).calls[i].cmd == s.calls[i].cmd && Holds(s, i, Awaiting)
  {
    hide StatOf, Count;
  }

  lemma NoLateConnection(init: seq<Event>, i: nat, e: Event)
    requires Possible(init) && Enabled(After(init), e)
    requires i < |After(init).calls| && After(init).calls[i].stage == Returned(true)
    ensures e != Connected(i)
    ensures i < |Step(After(init), e).calls| && Step(After(init), e).calls[i] == After(init).calls[i]
  {
    hide AccountInv, StatOf, Count;
    RunKeeps(init);
    OutcomeIsFinal(After(init), e, i);
  }

  // ----- notifications -----

  /** A notification of more than three bytes sets the event exactly if its command is in flight, and makes
      an entry for its command; it counts nothing and moves no call. A shorter one does nothing. */
  lemma NotifiedExactly(s: State, data: seq<byte>)
    ensures var t := Step(s, Notified(data));
      && t.calls == s.calls && t.holder == s.holder && t.pending == s.pending && t.totals == s.totals
      && (forall cmd: byte :: StatOf(t.stats, cmd) == StatOf(s.stats, cmd))
      && (forall cmd :: cmd in t.stats <==> cmd in s.stats || (3 < |data| && cmd == data[3]))
      && t.event ==
           if 3 < |data| && s.pending == Some(data[3]) && s.event.Some? then Some(true) else s.event
  {
  }

  // ----- timing out -----

  /** A timeout with attempts left begins the next one and counts no result; one after the last attempt
      makes the call return False and counts one failure. Either way the slot is empty. */
  lemma AfterTimeout(s: State, i: nat)
    requires Enabled(s, TimedOut(i))
    ensures var t, c := Step(s, TimedOut(i)), s.calls[i];
      && i < |t.calls| && t.pending == None && t.event == None
      && if c.attempts < c.retry then
           && t.calls[i].stage == Connecting && t.calls[i].attempts == c.attempts + 1 && t.holder == Some(i)
           && t.stats == s.stats && t.totals == s.totals
         else
           && t.calls[i].stage == Returned(false) && t.calls[i].attempts == c.attempts && t.holder == None
           && t.totals == Stat(s.totals.sent + 1, s.totals.success, s.totals.failure + 1)
           && (forall cmd: byte :: StatOf(t.stats, cmd) ==
                 var before := StatOf(s.stats, cmd);
                 if cmd == c.cmd then Stat(before.sent + 1, before.success, before.failure + 1) else before)
  {
  }
}
