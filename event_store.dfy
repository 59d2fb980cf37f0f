/** event_store.py: the most recent watcher events, kept in a `deque(maxlen=200)`. */
module EventStore {
  import opened Py
  import opened Schema

  const MaxEvents := 200

  /** The event dictionary of `add_event`. */
  datatype Event = Event(timestamp: int, eventType: string, filePath: string, hashes: Option<Digests>, vtResult: Payload)

  /** `deque.append` on a full-length-bounded deque: below capacity the event is
      added at the end; at capacity the oldest event is dropped first. */
  function Appended(buffer: seq<Event>, e: Event): (r: seq<Event>)
    requires |buffer| <= MaxEvents
    ensures 1 <= |r| <= MaxEvents && r[|r| - 1] == e
    ensures |buffer| < MaxEvents ==> |r| == |buffer| + 1 && r[..|buffer|] == buffer
    ensures |buffer| == MaxEvents ==> |r| == MaxEvents && r[..|r| - 1] == buffer[1..]
  {
    if |buffer| < MaxEvents then buffer + [e] else buffer[1..] + [e]
  }

  /** The last `MaxEvents` events of a history, the bus's reference contents. */
  function Window(history: seq<Event>): (r: seq<Event>)
    ensures |r| <= MaxEvents
  {
    if |history| <= MaxEvents then history else history[|history| - MaxEvents..]
  }

  /** Appending to the window of a history gives the window of the longer history. */
  lemma AppendedWindow(history: seq<Event>, e: Event)
    ensures Appended(Window(history), e) == Window(history + [e])
  {
    var h := history + [e];
    if |history| >= MaxEvents {
      assert Window(history)[1..] + [e] == h[|h| - MaxEvents..];
    }
  }

  /** The events appended one by one to `buffer`, in order. */
  function AppendedAll(buffer: seq<Event>, es: seq<Event>): (r: seq<Event>)
    requires |buffer| <= MaxEvents
    ensures |r| <= MaxEvents
    decreases |es|
  {
    if es == [] then buffer else AppendedAll(Appended(buffer, es[0]), es[1..])
  }

  /** However many events are appended, the bus holds exactly the most recent
      `MaxEvents` of everything appended, in append order. */
  lemma {:induction false} AppendedAllWindow(history: seq<Event>, es: seq<Event>)
    ensures AppendedAll(Window(history), es) == Window(history + es)
    decreases |es|
  {
    if es == [] {
      assert history + es == history;
    } else {
      var longer := history + [es[0]];
      calc {
        AppendedAll(Window(history), es);
        AppendedAll(Appended(Window(history), es[0]), es[1..]);
        { AppendedWindow(history, es[0]); }
        AppendedAll(Window(longer), es[1..]);
        { AppendedAllWindow(longer, es[1..]); }
        Window(longer + es[1..]);
        { assert longer + es[1..] == history + es; }
        Window(history + es);
      }
    }
  }

  /** Appending 250 events to an empty bus leaves the last 200 of them, the oldest
      50 evicted. */
  lemma TwoHundredFiftyAppends(es: seq<Event>)
    requires |es| == 250
    ensures AppendedAll([], es) == es[50..]
  {
    AppendedAllWindow([], es);
    assert [] + es == es;
  }

  class EventLog {
    /** The deque's contents, oldest first. */
    var events: seq<Event>

    ghost predicate Valid()
      reads this
    {
      |events| <= MaxEvents
    }

    constructor ()
      ensures Valid() && events == []
    {
      events := [];
    }

    /** `add_event`: builds the event stamped `now` and appends it. */
    method AddEvent(eventType: string, filePath: string, hashes: Option<Digests>, vtResult: Payload, now: int)
      requires Valid()
      modifies this
      ensures Valid()
      ensures events == Appended(old(events), Event(now, eventType, filePath, hashes, vtResult))
    {
      var e := Event(now, eventType, filePath, hashes, vtResult);
      if |events| < MaxEvents {
        events := events + [e];
      } else {
        events := events[1..] + [e];
      }
    }

    /** `get_events`: a copy of the contents in insertion order; nothing changes. */
    method GetEvents() returns (r: seq<Event>)
      requires Valid()
      ensures r == events && |r| <= MaxEvents
    {
      r := events;
    }
  }
}
