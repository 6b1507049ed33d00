/** The journal of the capture supervisors: the steps that count, each entered by the method
    that performs it, in the order they happened. */
module Events {

  datatype Event =
    | Reset         // the capture supervisor starts over
    | InternalUp    // the transmitter to the receiver was set up and its output enabled
    | ReceiverUp    // the receiver's output table was completed
    | Opened        // the gate in front of capture opened
    | ExternalUp    // the transmitter to the display was set up and its output enabled

  class Journal {
    ghost var events: seq<Event>

    constructor ()
      ensures events == []
    {
      events := [];
    }
  }

  /** The events after the last reset. */
  function SinceReset(events: seq<Event>): seq<Event> {
    if events == [] || events[|events| - 1] == Reset then []
    else SinceReset(events[..|events| - 1]) + [events[|events| - 1]]
  }

  /** The display set-ups up to the last reset, and in all. */
  function ExternalsBefore(events: seq<Event>): nat {
    if events == [] then 0
    else if events[|events| - 1] == Reset then Externals(events)
    else ExternalsBefore(events[..|events| - 1])
  }

  function Externals(events: seq<Event>): nat {
    if events == [] then 0
    else Externals(events[..|events| - 1]) + if events[|events| - 1] == ExternalUp then 1 else 0
  }

  /** The events of the capture supervisor itself. */
  function Inner(events: seq<Event>): seq<Event> {
    if events == [] then []
    else if events[|events| - 1] == ExternalUp then Inner(events[..|events| - 1])
    else Inner(events[..|events| - 1]) + [events[|events| - 1]]
  }

  lemma NextEvent(events: seq<Event>, e: Event)
    ensures SinceReset(events + [e]) == if e == Reset then [] else SinceReset(events) + [e]
    ensures Externals(events + [e]) == Externals(events) + if e == ExternalUp then 1 else 0
    ensures ExternalsBefore(events + [e]) == if e == Reset then Externals(events) else ExternalsBefore(events)
    ensures Inner(events + [e]) == Inner(events) + if e == ExternalUp then [] else [e]
  {
    assert (events + [e])[..|events|] == events;
  }

  lemma {:induction false} ExternalsSplit(events: seq<Event>)
    ensures Externals(events) == ExternalsBefore(events) + Externals(SinceReset(events))
  {
    if events != [] && events[|events| - 1] != Reset {
      var before, e := events[..|events| - 1], events[|events| - 1];
      ExternalsSplit(before);
      NextEvent(SinceReset(before), e);
    }
  }

  lemma {:induction false} InnerIsAll(events: seq<Event>)
    requires Externals(events) == 0
    ensures Inner(events) == events
  {
    if events != [] {
      InnerIsAll(events[..|events| - 1]);
    }
  }

  /** When every display set-up lies before the last reset, the supervisor's events since
      then are all events since then. */
  lemma NoneSince(events: seq<Event>)
    requires ExternalsBefore(events) == Externals(events)
    ensures Inner(SinceReset(events)) == SinceReset(events)
  {
    ExternalsSplit(events);
    InnerIsAll(SinceReset(events));
  }
}
