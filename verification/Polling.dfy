/** The poll schedule of one coordinator: interval clamping, and the cadence of the medium polls. */
module Polling {
  import opened Wrappers
  import opened Bytes
  import B = Backoff

  const MIN_POLL_INTERVAL := 1
  const MAX_POLL_INTERVAL := 60
  const MIN_MEDIUM_POLL_INTERVAL := 5
  const MAX_MEDIUM_POLL_INTERVAL := 300

  function SanitizeFast(requested: int): int {
    if requested < MIN_POLL_INTERVAL then MIN_POLL_INTERVAL
    else if MAX_POLL_INTERVAL < requested then MAX_POLL_INTERVAL
    else requested
  }

  /** `current` is the interval in force, used where no fast interval, or 0, is given. */
  function SanitizeMedium(requested: int, fast: Option<int>, current: int): int {
    var fastInterval := if fast.Some? && fast.value != 0 then fast.value else current;
    var clamped :=
      if requested < MIN_MEDIUM_POLL_INTERVAL then MIN_MEDIUM_POLL_INTERVAL
      else if MAX_MEDIUM_POLL_INTERVAL < requested then MAX_MEDIUM_POLL_INTERVAL
      else requested;
    if clamped < fastInterval then fastInterval else clamped
  }

  predicate InBounds(fast: int, medium: int) {
    && 1 <= fast <= 60
    && 5 <= medium <= 300 && fast <= medium
  }

  /** Whatever is asked for, each interval comes out as the nearest one within bounds: no other lies
      between it and the one asked for. What is within bounds is kept, so that asking again for the
      outcome changes nothing. Where no fast interval is given, or 0, the one in force takes its place. */
  lemma Sanitized(fast: int, medium: int, current: int)
    ensures var f := SanitizeFast(fast); var m := SanitizeMedium(medium, Some(f), current);
      && InBounds(f, m) && SanitizeFast(f) == f && SanitizeMedium(m, Some(f), current) == m
      && (InBounds(fast, medium) ==> f == fast && m == medium)
      && (forall g, n | InBounds(g, n) :: (fast <= g ==> f <= g) && (g <= fast ==> g <= f))
      && (forall n | InBounds(f, n) :: (medium <= n ==> m <= n) && (n <= medium ==> n <= m))
      && SanitizeMedium(medium, None, f) == SanitizeMedium(medium, Some(0), f) == m
  {
  }

  /** `math.ceil(medium / fast)`. */
  function Ceiling(medium: int, fast: int): int
    requires 0 < fast
  {
    -((-medium) / fast)
  }

  function Cycle(medium: int, fast: int): int
    requires 0 < fast
  {
    if Ceiling(medium, fast) < 1 then 1 else Ceiling(medium, fast)
  }

  /** A medium poll comes at least every medium interval rounded up to a whole number of fast ones. */
  lemma CycleCovers(medium: int, fast: int)
    requires InBounds(fast, medium)
    ensures 1 <= Cycle(medium, fast)
    ensures medium <= Cycle(medium, fast) * fast < medium + fast
    ensures forall c: int | medium <= c * fast :: Cycle(medium, fast) <= c
  {
    var q, r := (-medium) / fast, (-medium) % fast;
    assert -medium == q * fast + r && 0 <= r < fast;
    assert (-q) * fast == medium + r;
    if -q < 1 {
      Multiples(-q, 0, fast);
    }
    forall c: int | medium <= c * fast ensures Cycle(medium, fast) <= c {
      assert (-q - 1) * fast == (-q) * fast - fast;
      if c < -q {
        Multiples(c, -q - 1, fast);
      }
    }
  }

  lemma Multiples(a: int, b: int, fast: int)
    requires a <= b && 0 <= fast
    ensures a * fast <= b * fast
  {
  }

  // ----- cadence -----

  /** An entry of `_current_poll_commands`. */
  datatype PollResult = PollResult(command: byte, success: bool)

  /** Where `_async_run_poll` stands; the poll lock lets one poll run at a time. */
  datatype Phase = Idle | PollingFast | PollingMedium | Finishing

  class Coordinator {
    var pollInterval: int
    var mediumPollInterval: int
    var mediumPollCycle: int
    var fastPollCount: nat
    var mediumPollCount: nat
    var initialPollDone: bool
    var phase: Phase
    var currentPollCommands: seq<PollResult>
    const backoff: B.GlobalBackoff       // shared by all coordinators

    /** Where counting last began, at the creation or at an option change: before the decision of
        the initial poll, or while a medium poll was running. */
    ghost var fromStart: bool
    ghost var midMedium: bool

    /** The medium polls that are counted although no cycle ended: the one that was running when
        counting began, and that of the initial poll, unless every poll is a medium poll. */
    ghost function Extra(): nat
      reads this
    {
      (if midMedium then 1 else 0) + (if fromStart && mediumPollCycle > 1 && 1 <= fastPollCount then 1 else 0)
    }

    ghost predicate Valid()
      reads this
    {
      && InBounds(pollInterval, mediumPollInterval)
      && mediumPollCycle == Cycle(mediumPollInterval, pollInterval) && 1 <= mediumPollCycle
      && mediumPollCount + (if phase.PollingMedium? then 1 else 0) == fastPollCount / mediumPollCycle + Extra()
      && !(fromStart && midMedium)
      && (!initialPollDone && (phase.Idle? || phase.PollingFast?) ==> fromStart && fastPollCount == 0)
      && (fromStart && (initialPollDone || phase.PollingMedium? || phase.Finishing?) ==> 1 <= fastPollCount)
    }

    constructor (requestedFast: int, requestedMedium: int, backoff: B.GlobalBackoff)
      ensures this.backoff == backoff
      ensures Valid() && fromStart && !midMedium
      ensures phase == Idle && !initialPollDone && fastPollCount == mediumPollCount == 0
      ensures pollInterval == SanitizeFast(requestedFast)
      ensures mediumPollInterval == SanitizeMedium(requestedMedium, None, pollInterval)
    {
      var f := SanitizeFast(requestedFast);
      var m := SanitizeMedium(requestedMedium, None, f);
      CycleCovers(m, f);
      pollInterval, mediumPollInterval, mediumPollCycle := f, m, Cycle(m, f);
      fastPollCount, mediumPollCount, initialPollDone, phase := 0, 0, false, Idle;
      currentPollCommands, this.backoff := [], backoff;
      fromStart, midMedium := true, false;
    }

    /** `set_poll_intervals`, which may arrive at any point of a poll. */
    method SetPollIntervals(requestedFast: int, requestedMedium: Option<int>)
      requires Valid()
      modifies this
      ensures Valid() && phase == old(phase) && initialPollDone == old(initialPollDone)
      ensures pollInterval == SanitizeFast(requestedFast)
      ensures
        var wanted := if requestedMedium.Some? then requestedMedium.value else old(mediumPollInterval);
        mediumPollInterval == SanitizeMedium(wanted, Some(pollInterval), old(pollInterval))
      ensures pollInterval == old(pollInterval) && mediumPollInterval == old(mediumPollInterval) ==>
        && fastPollCount == old(fastPollCount) && mediumPollCount == old(mediumPollCount)
        && fromStart == old(fromStart) && midMedium == old(midMedium)
      ensures pollInterval != old(pollInterval) || mediumPollInterval != old(mediumPollInterval) ==>
        && fastPollCount == mediumPollCount == 0
        && fromStart == (!initialPollDone && (phase.Idle? || phase.PollingFast?))
        && midMedium == phase.PollingMedium?
    {
      hide Cycle, SanitizeFast, SanitizeMedium;
      var f := SanitizeFast(requestedFast);
      var wanted := if requestedMedium.Some? then requestedMedium.value else mediumPollInterval;
      var m := SanitizeMedium(wanted, Some(f), pollInterval);
      Sanitized(requestedFast, wanted, pollInterval);
      if f == pollInterval && m == mediumPollInterval {
        return;
      }
      CycleCovers(m, f);
      pollInterval, mediumPollInterval, mediumPollCycle := f, m, Cycle(m, f);
      fastPollCount, mediumPollCount := 0, 0;
      fromStart, midMedium := !initialPollDone && (phase.Idle? || phase.PollingFast?), phase.PollingMedium?;
    }

    /** A poll that the backoff does not hold back begins, with no results. */
    method BeginPoll(now: real) returns (starts: bool)
      requires Valid() && phase.Idle? && backoff.Valid()
      modifies this`phase, this`currentPollCommands
      ensures Valid() && starts == !B.HoldsBack(backoff.State(), now)
      ensures phase == if starts then PollingFast else Idle
      ensures currentPollCommands == if starts then [] else old(currentPollCommands)
    {
      starts := backoff.MayStart(now);
      if starts {
        phase, currentPollCommands := PollingFast, [];
      }
    }

    /** `_poll_commands`: every command of a schedule is sent, in order, whichever of them fail. */
    method PollCommands(commands: seq<byte>, outcomes: seq<bool>)
      requires Valid() && (phase.PollingFast? || phase.PollingMedium?) && |commands| == |outcomes|
      modifies this`currentPollCommands
      ensures Valid() && |currentPollCommands| == |old(currentPollCommands)| + |commands|
      ensures currentPollCommands[..|old(currentPollCommands)|] == old(currentPollCommands)
      ensures forall k | 0 <= k < |commands| ::
        currentPollCommands[|old(currentPollCommands)| + k] == PollResult(commands[k], outcomes[k])
    {
      for i := 0 to |commands|
        invariant Valid() && |currentPollCommands| == |old(currentPollCommands)| + i
        invariant currentPollCommands[..|old(currentPollCommands)|] == old(currentPollCommands)
        invariant forall k | 0 <= k < i ::
          currentPollCommands[|old(currentPollCommands)| + k] == PollResult(commands[k], outcomes[k])
      {
        currentPollCommands := currentPollCommands + [PollResult(commands[i], outcomes[i])];
      }
    }

    /** The fast commands are done: count them, and decide on a medium poll. */
    method FastPolled()
      requires Valid() && phase.PollingFast?
      modifies this
      ensures Valid() && initialPollDone == old(initialPollDone)
      ensures pollInterval == old(pollInterval) && mediumPollInterval == old(mediumPollInterval)
      ensures fromStart == old(fromStart) && midMedium == old(midMedium)
      ensures fastPollCount == old(fastPollCount) + 1 && mediumPollCount == old(mediumPollCount)
      ensures phase == if !initialPollDone || fastPollCount % mediumPollCycle == 0 then PollingMedium else Finishing
    {
      hide Cycle;
      NextMultiple(fastPollCount, mediumPollCycle);
      fastPollCount := fastPollCount + 1;
      if !initialPollDone || fastPollCount % mediumPollCycle == 0 {
        phase := PollingMedium;
      } else {
        phase := Finishing;
      }
    }

    /** The medium commands are done. */
    method MediumPolled()
      requires Valid() && phase.PollingMedium?
      modifies this
      ensures Valid() && initialPollDone == old(initialPollDone)
      ensures pollInterval == old(pollInterval) && mediumPollInterval == old(mediumPollInterval)
      ensures fromStart == old(fromStart) && midMedium == old(midMedium)
      ensures fastPollCount == old(fastPollCount) && mediumPollCount == old(mediumPollCount) + 1 && phase == Finishing
    {
      mediumPollCount, phase := mediumPollCount + 1, Finishing;
    }

    /** The poll is over; it has failed if any of its commands has. */
    method FinishPoll(now: real)
      requires Valid() && phase.Finishing? && backoff.Valid()
      modifies this, backoff
      ensures Valid()
      ensures pollInterval == old(pollInterval) && mediumPollInterval == old(mediumPollInterval)
      ensures fromStart == old(fromStart) && midMedium == old(midMedium)
      ensures fastPollCount == old(fastPollCount) && mediumPollCount == old(mediumPollCount)
      ensures phase == Idle && initialPollDone
      ensures backoff.Valid()
      ensures backoff.State() ==
        B.Ended(old(backoff.State()), exists r | r in old(currentPollCommands) :: !r.success, now)
    {
      phase, initialPollDone := Idle, true;
      var hadFailure := exists r | r in currentPollCommands :: !r.success;
      backoff.HandleBackoff(hadFailure, now);
    }

    /** Between polls there have been as many medium polls as whole cycles and at most one more.
        There has been one more exactly if counting began while a medium poll was running, or before
        the initial poll, which has taken place since, with a cycle of more than one poll. */
    lemma Cadence()
      requires Valid() && phase.Idle?
      ensures mediumPollCount == fastPollCount / mediumPollCycle + Extra() && Extra() <= 1
      ensures mediumPollCount == fastPollCount / mediumPollCycle <==>
        !midMedium && !(fromStart && mediumPollCycle > 1 && 1 <= fastPollCount)
    {
    }
  }

  /** It can happen: options that change while the initial medium poll is running leave a count of one
      medium poll and no fast poll. */
  method ChangeDuringMediumPoll() returns (fast: nat, medium: nat)
    ensures fast == 0 && medium == 1
  {
    hide Cycle;
    var backoff := new B.GlobalBackoff();
    var c := new Coordinator(1, 60, backoff);
    var _ := c.BeginPoll(0.0);
    c.FastPolled();
    c.SetPollIntervals(2, None);
    c.MediumPolled();
    c.FinishPoll(1.0);
    fast, medium := c.fastPollCount, c.mediumPollCount;
  }

  /** Counting on by one completes a cycle exactly at the multiples. */
  lemma NextMultiple(n: nat, c: int)
    requires 1 <= c
    ensures (n + 1) / c == n / c + if (n + 1) % c == 0 then 1 else 0
    ensures n == 0 && 1 < c ==> (n + 1) % c != 0
  {
    var q, r := n / c, n % c;
    assert n + 1 == q * c + (r + 1);
    if r + 1 == c {
      assert n + 1 == (q + 1) * c;
      DivisionIsUnique(n + 1, c, q + 1, 0);
    } else {
      DivisionIsUnique(n + 1, c, q, r + 1);
    }
  }

  lemma DivisionIsUnique(n: int, c: int, q: int, r: int)
    requires 0 <= r < c && n == q * c + r
    ensures n / c == q && n % c == r
  {
    var p, s := n / c, n % c;
    assert (p - q) * c == r - s;
    if p < q {
      Multiples(p - q, -1, c);
    } else if q < p {
      Multiples(1, p - q, c);
    }
  }
}
