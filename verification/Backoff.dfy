/** The backoff that all coordinators share. Times are seconds of one non-negative clock. */
module Backoff {
  import opened Wrappers

  /** Seconds by level. */
  const BACKOFF_INTERVALS: seq<real> := [1.0, 5.0, 15.0, 30.0, 60.0]

  datatype Shared = Shared(level: nat, until: Option<real>)

  const CLEAR := Shared(0, None)

  /** Polls are held back; a deadline of 0 counts as none. */
  predicate HoldsBack(b: Shared, now: real) {
    b.until.Some? && b.until.value != 0.0 && now < b.until.value
  }

  function Min(a: nat, b: nat): nat {
    if a < b then a else b
  }

  /** The state after a failed and after a successful poll that ends now. */
  function Ended(b: Shared, failed: bool, now: real): Shared
    requires b.level <= 4
  {
    if failed then Shared(Min(4, b.level + 1), Some(now + BACKOFF_INTERVALS[Min(4, b.level + 1)])) else CLEAR
  }

  /** The module globals. */
  class GlobalBackoff {
    var level: nat
    var until: Option<real>

    constructor ()
      ensures State() == CLEAR
    {
      level, until := 0, None;
    }

    function State(): Shared
      reads this
    {
      Shared(level, until)
    }

    ghost predicate Valid()
      reads this
    {
      level <= 4 && (level == 0 <==> until.None?)
    }

    /** The check at the top of `_async_run_poll`. */
    method MayStart(now: real) returns (starts: bool)
      requires Valid()
      ensures starts == !HoldsBack(State(), now)
    {
      starts := !(until.Some? && until.value != 0.0 && now < until.value);
    }

    /** `_handle_backoff`. */
    method HandleBackoff(hadFailure: bool, now: real)
      requires Valid()
      modifies this
      ensures Valid() && State() == Ended(old(State()), hadFailure, now)
    {
      if hadFailure {
        if level < |BACKOFF_INTERVALS| - 1 {
          level := level + 1;
        }
        until := Some(now + BACKOFF_INTERVALS[level]);
      } else if level > 0 || (until.Some? && until.value != 0.0) {
        level, until := 0, None;
      }
    }
  }

  // ----- any number of coordinators -----

  /** One coordinator is about to poll, or has completed a poll. */
  datatype Event =
    | Attempt(coordinator: nat, now: real)
    | Completed(coordinator: nat, failed: bool, now: real)

  /** The shared state after some events. */
  function After(events: seq<Event>): (b: Shared)
    ensures b.level <= 4 && (b.level == 0 <==> b.until.None?)
  {
    if events == [] then CLEAR
    else
      var e := events[|events| - 1];
      var before := After(events[..|events| - 1]);
      match e
      case Attempt(_, _) => before
      case Completed(_, failed, now) => Ended(before, failed, now)
  }

  /** The completed polls that failed since the last one that succeeded, whoever polled. */
  function Failures(events: seq<Event>): nat {
    if events == [] then 0
    else
      var e := events[|events| - 1];
      if e.Attempt? then Failures(events[..|events| - 1])
      else if e.failed then Failures(events[..|events| - 1]) + 1
      else 0
  }

  /** The time of the last completed poll, if it failed. */
  function LastFailure(events: seq<Event>): Option<real> {
    if events == [] then None
    else
      var e := events[|events| - 1];
      if e.Attempt? then LastFailure(events[..|events| - 1])
      else if e.failed then Some(e.now)
      else None
  }

  /** The level is the number of consecutive failures, up to 4; there is a deadline exactly while
      there are any, and it lies that level's interval after the last of them. */
  lemma {:induction false} LevelCountsFailures(events: seq<Event>)
    ensures var b := After(events);
      && b.level == Min(4, Failures(events))
      && (LastFailure(events).Some? <==> 0 < Failures(events))
      && b.until == if LastFailure(events).None? then None
        else Some(LastFailure(events).value + BACKOFF_INTERVALS[b.level])
  {
    if events == [] {
    } else {
      LevelCountsFailures(events[..|events| - 1]);
    }
  }

  predicate Starts(events: seq<Event>, i: nat)
    requires i < |events|
  {
    events[i].Attempt? && !HoldsBack(After(events[..i]), events[i].now)
  }

  /** After the first failure in a row polls pause for 5 seconds, then 15, then 30, and from the fourth on
      for 60. */
  lemma PauseByFailures(events: seq<Event>)
    requires LastFailure(events).Some?
    ensures var n := Failures(events);
      1 <= n && After(events).until == Some(LastFailure(events).value +
        if n == 1 then 5.0 else if n == 2 then 15.0 else if n == 3 then 30.0 else 60.0)
  {
    LevelCountsFailures(events);
  }

  /** A poll starts only when its level's interval has passed since the last failure of any
      coordinator, or when the last completed poll of all succeeded. */
  lemma StartsAfterDeadline(events: seq<Event>, i: nat)
    requires i < |events| && events[i].Attempt?
    requires forall e | e in events :: 0.0 <= e.now
    ensures var before := events[..i];
      Starts(events, i) <==>
        LastFailure(before).None? ||
          LastFailure(before).value + BACKOFF_INTERVALS[Min(4, Failures(before))] <= events[i].now
  {
    LevelCountsFailures(events[..i]);
    LastFailureIsEvent(events[..i]);
  }

  lemma {:induction false} LastFailureIsEvent(events: seq<Event>)
    requires forall e | e in events :: 0.0 <= e.now
    ensures LastFailure(events).Some? ==> 0.0 <= LastFailure(events).value
  {
    if events == [] {
    } else {
      LastFailureIsEvent(events[..|events| - 1]);
    }
  }

  // ----- one coordinator -----

  /** A poll that ran. */
  datatype Poll = Poll(start: real, end: real, failed: bool)

  function EventsOf(polls: seq<Poll>): seq<Event> {
    if polls == [] then []
    else
      var p := polls[|polls| - 1];
      EventsOf(polls[..|polls| - 1]) + [Attempt(0, p.start), Completed(0, p.failed, p.end)]
  }

  /** The polls of a single coordinator, one after another on a clock that does not go back, each
      started when the backoff let it. */
  ghost predicate Sequential(polls: seq<Poll>) {
    && (forall i | 0 <= i < |polls| :: 0.0 <= polls[i].start <= polls[i].end)
    && (forall i | 0 <= i < |polls| - 1 :: polls[i].end <= polls[i + 1].start)
    && (forall i | 0 <= i < |polls| :: !HoldsBack(After(EventsOf(polls[..i])), polls[i].start))
  }

  lemma {:induction false} AfterPolls(polls: seq<Poll>)
    ensures polls != [] ==>
      After(EventsOf(polls)) ==
        Ended(After(EventsOf(polls[..|polls| - 1])), polls[|polls| - 1].failed, polls[|polls| - 1].end)
  {
    if polls != [] {
      var p := polls[|polls| - 1];
      var before := EventsOf(polls[..|polls| - 1]);
      var events := EventsOf(polls);
      assert events[..|events| - 1] == before + [Attempt(0, p.start)];
      assert (before + [Attempt(0, p.start)])[..|before|] == before;
    }
  }

  /** The level before the j-th of a series of failures that follows a success or the beginning. */
  lemma {:induction false} LevelInSeries(polls: seq<Poll>, first: nat, j: nat)
    requires first + j <= |polls|
    requires forall i | first <= i < first + j :: polls[i].failed
    requires first == 0 || !polls[first - 1].failed
    ensures After(EventsOf(polls[..first + j])).level == Min(4, j)
  {
    var upTo := polls[..first + j];
    AfterPolls(upTo);
    if j == 0 {
    } else {
      assert upTo[..|upTo| - 1] == polls[..first + j - 1];
      LevelInSeries(polls, first, j - 1);
    }
  }

  /** How long a series of k failures lasts at least, from the end of the first to that of the last. */
  function Span(k: nat): real {
    if k <= 1 then 0.0 else Span(k - 1) + BACKOFF_INTERVALS[Min(4, k - 1)]
  }

  lemma {:induction false} SpanValue(k: nat)
    requires 4 <= k
    ensures Span(k) == 50.0 + 60.0 * (k - 4) as real
  {
    if k == 4 {
      assert Span(4) == Span(1) + BACKOFF_INTERVALS[1] + BACKOFF_INTERVALS[2] + BACKOFF_INTERVALS[3] by {
        assert Span(3) == Span(2) + BACKOFF_INTERVALS[2] && Span(2) == Span(1) + BACKOFF_INTERVALS[1];
      }
    } else {
      SpanValue(k - 1);
    }
  }

  lemma {:induction false} SeriesLasts(polls: seq<Poll>, first: nat, k: nat)
    requires Sequential(polls) && 1 <= k && first + k <= |polls|
    requires forall i | first <= i < first + k :: polls[i].failed
    requires first == 0 || !polls[first - 1].failed
    ensures polls[first + k - 1].end - polls[first].end >= Span(k)
  {
    hide Sequential;
    if k <= 1 {
    } else {
      SeriesLasts(polls, first, k - 1);
      PauseAfterFailure(polls, first, k - 1);
    }
  }

  /** After j failures in a row the next poll ends no sooner than their level's interval later. */
  lemma PauseAfterFailure(polls: seq<Poll>, first: nat, j: nat)
    requires Sequential(polls) && 1 <= j && first + j < |polls|
    requires forall i | first <= i < first + j :: polls[i].failed
    requires first == 0 || !polls[first - 1].failed
    ensures polls[first + j].end - polls[first + j - 1].end >= BACKOFF_INTERVALS[Min(4, j)]
  {
    hide After, EventsOf;
    var n := first + j;
    var upTo := polls[..n];
    LevelInSeries(polls, first, j - 1);
    AfterPolls(upTo);
    assert upTo[..|upTo| - 1] == polls[..n - 1] && upTo[|upTo| - 1] == polls[n - 1];
    assert !HoldsBack(After(EventsOf(upTo)), polls[n].start);
    assert After(EventsOf(upTo)).until == Some(polls[n - 1].end + BACKOFF_INTERVALS[Min(4, j)]);
  }

  /** The k-th consecutive failure of a single coordinator, from the fourth on, ends at least
      50 + 60 * (k - 4) seconds after the first one ended. */
  lemma FailuresAreSpaced(polls: seq<Poll>, first: nat, k: nat)
    requires Sequential(polls) && 4 <= k && first + k <= |polls|
    requires forall i | first <= i < first + k :: polls[i].failed
    requires first == 0 || !polls[first - 1].failed
    ensures polls[first + k - 1].end - polls[first].end >= 50.0 + 60.0 * (k - 4) as real
  {
    SeriesLasts(polls, first, k);
    SpanValue(k);
  }
}
