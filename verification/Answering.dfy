/** A notification is parsed before the call that waits for it is woken. */
module Answering {
  import opened Paths
  import opened Bytes
  import opened Schema
  import opened Freshness
  import D = Device

  /** What the coordinator's log would show, in order: a frame has been parsed into the data, or
      something has happened to the device. */
  datatype Entry = Parse(frame: seq<byte>, time: int) | Happened(event: D.Event)

  function Arrivals(log: seq<Entry>): seq<Arrival> {
    if log == [] then []
    else
      var last := log[|log| - 1];
      Arrivals(log[..|log| - 1]) + if last.Parse? then [Arrival(last.frame, last.time)] else []
  }

  function Events(log: seq<Entry>): seq<D.Event> {
    if log == [] then []
    else
      var last := log[|log| - 1];
      Events(log[..|log| - 1]) + if last.Happened? then [last.event] else []
  }

  /** Each notification is recorded by the device right after it was parsed. */
  ghost predicate Handled(log: seq<Entry>) {
    forall k | 0 <= k < |log| && log[k].Happened? && log[k].event.Notified? ::
      0 < k && log[k - 1].Parse? && log[k - 1].frame == log[k].event.data
  }

  lemma {:induction false} EventIsLogged(log: seq<Entry>, j: nat) returns (k: nat)
    requires j < |Events(log)|
    ensures k < |log| && log[k] == Happened(Events(log)[j])
  {
    var init := log[..|log| - 1];
    if j < |Events(init)| {
      k := EventIsLogged(init, j);
    } else {
      k := |log| - 1;
    }
  }

  lemma {:induction false} ParsedHasArrived(log: seq<Entry>, k: nat) returns (a: nat)
    requires k < |log| && log[k].Parse?
    ensures a < |Arrivals(log)| && Arrivals(log)[a] == Arrival(log[k].frame, log[k].time)
  {
    var init := log[..|log| - 1];
    if k < |init| {
      a := ParsedHasArrived(init, k);
    } else {
      a := |Arrivals(init)|;
    }
  }

  /** `_handle_notification`: parse, then record. */
  method HandleNotification<N(==, !new), V(!new)>(
      tracked: TrackedProduct<N, V>, device: D.MarstekBLEDevice, data: seq<byte>, time: int, ghost log: seq<Entry>)
      returns (parsed: bool, ghost more: seq<Entry>)
    modifies tracked, device
    ensures more == log + [Parse(data, time), Happened(D.Notified(data))]
    ensures Handled(log) ==> Handled(more)
    ensures parsed == Accepted(tracked.product, old(tracked.root), data).Some?
    ensures State(tracked.root, tracked.fieldUpdates)
      == Step(tracked.product, State(old(tracked.root), old(tracked.fieldUpdates)), Arrival(data, time))
    ensures device.Now() == D.Step(old(device.Now()), D.Notified(data))
    ensures Arrivals(more) == Arrivals(log) + [Arrival(data, time)] && Events(more) == Events(log) + [D.Notified(data)]
  {
    parsed := tracked.ParseNotification(data, time);
    device.RecordNotification(data);
    more := log + [Parse(data, time), Happened(D.Notified(data))];
    LogTwo(log, data, time);
  }

  lemma LogTwo(log: seq<Entry>, data: seq<byte>, time: int)
    ensures var more := log + [Parse(data, time), Happened(D.Notified(data))];
      && (Handled(log) ==> Handled(more))
      && Arrivals(more) == Arrivals(log) + [Arrival(data, time)] && Events(more) == Events(log) + [D.Notified(data)]
  {
    var more := log + [Parse(data, time), Happened(D.Notified(data))];
    var one := more[..|more| - 1];
    assert one == log + [Parse(data, time)] && one[..|one| - 1] == log;
  }

  /** When a call has returned True, the frame that answered it has been parsed: every field which that
      frame supplies holds what it, or a frame parsed after it, supplies. */
  lemma AnswerWasParsed<N(!new), V(!new)>(
      product: Product<N, V>, root: seq<Field<N, V>>, log: seq<Entry>, i: nat, q: Path<N>) returns (a: nat)
    requires Sound(product, root) && Handled(log)
    requires D.Possible(Events(log)) && i < |D.After(Events(log)).calls|
    requires D.After(Events(log)).calls[i].stage == D.Returned(true)
    ensures a < |Arrivals(log)|
    ensures var frame := Arrivals(log)[a].frame; 3 < |frame| && frame[3] == D.After(Events(log)).calls[i].cmd
    ensures Supplies(product, root, Arrivals(log)[a].frame, q).Some? ==>
      var last := LastSupplier(product, root, Arrivals(log), q);
      && last.Some? && a <= last.value
      && ValueAt(Run(product, State(root, map[]), Arrivals(log)).root, q)
        == Supplies(product, root, Arrivals(log)[last.value].frame, q)
  {
    hide Sound, Supplies, Run, ValueAt, D.After, D.Possible, Arrivals, Events;
    var m, j := D.TrueMeansAnswered(Events(log), i);
    var k := EventIsLogged(log, j);
    a := ParsedHasArrived(log, k - 1);
    RunIsFresh(product, root, Arrivals(log), q, "");
  }
}
