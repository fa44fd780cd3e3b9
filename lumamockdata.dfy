/** The mock event list of the Luma client, whose events have integer ids:
    a new event takes the largest id plus one (1 for an empty list). */
module LumaMockData {
  import opened Text

  datatype Event = Event(id: int, content: string, mood: Option<string>, symbol: Option<string>)

  /** `events.map { $0.id }.max() ?? 0`. */
  function MaxId(events: seq<Event>): (m: int)
    ensures forall j :: 0 <= j < |events| ==> events[j].id <= m
    ensures events == [] ==> m == 0
    ensures events != [] ==> exists j :: 0 <= j < |events| && events[j].id == m
  {
    if events == [] then 0
    else if |events| == 1 then events[0].id
    else
      var rest := MaxId(events[1..]);
      assert exists j :: 0 <= j < |events[1..]| && events[1..][j].id == rest;
      if events[0].id >= rest then events[0].id else rest
  }

  function FirstEvent(events: seq<Event>, id: int): (r: Option<Event>)
    ensures r.Some? ==> r.value.id == id && r.value in events
    ensures r.Some? ==> exists j :: 0 <= j < |events| && events[j] == r.value &&
                                    forall i :: 0 <= i < j ==> events[i].id != id
    ensures r.None? <==> forall j :: 0 <= j < |events| ==> events[j].id != id
  {
    if events == [] then None
    else if events[0].id == id then Some(events[0])
    else
      var r := FirstEvent(events[1..], id);
      if r.Some? then
        var j :| 0 <= j < |events[1..]| && events[1..][j] == r.value &&
                 forall i :: 0 <= i < j ==> events[1..][i].id != id;
        assert events[j + 1] == r.value;
        r
      else r
  }

  class Store {
    var events: seq<Event>

    constructor (events: seq<Event>)
      ensures this.events == events
    {
      this.events := events;
    }

    /** Appends an event whose id is one more than the largest, and returns it. */
    method AddEvent(content: string) returns (e: Event)
      modifies this
      ensures e == Event(MaxId(old(events)) + 1, content, None, None)
      ensures events == old(events) + [e]
      ensures forall j :: 0 <= j < |old(events)| ==> old(events)[j].id < e.id
    {
      var newId := MaxId(events) + 1;
      e := Event(newId, content, None, None);
      events := events + [e];
    }
  }

  /** The id `addEvent` picks is used by no event, so looking it up after
      the append finds the new event. */
  lemma NewIdFound(events: seq<Event>, content: string, e: Event)
    requires e == Event(MaxId(events) + 1, content, None, None)
    ensures FirstEvent(events + [e], e.id) == Some(e)
  {
    FreshFound(events, e, e.id);
  }

  lemma {:induction false} FreshFound(events: seq<Event>, e: Event, id: int)
    requires e.id == id
    requires forall j :: 0 <= j < |events| ==> events[j].id < id
    ensures FirstEvent(events + [e], id) == Some(e)
    decreases |events|
  {
    if events != [] {
      var all := events + [e];
      assert all[0] == events[0] && all[0].id != id;
      assert all[1..] == events[1..] + [e];
      FreshFound(events[1..], e, id);
    } else {
      assert [] + [e] == [e];
    }
  }

  /** The three events the list starts with. */
  const SeedEvents := [Event(1, "A sunny walk in the park", None, None),
                       Event(2, "Coffee with friends", None, None),
                       Event(3, "Reading a good book", None, None)]

  /** On the seeded list, the first event added gets id 4, and looking up
      id 4 afterwards finds it. */
  method SeededNextId(content: string) returns (e: Event, found: Option<Event>)
    ensures e == Event(4, content, None, None)
    ensures found == Some(e)
  {
    var store := new Store(SeedEvents);
    e := store.AddEvent(content);
    NewIdFound(SeedEvents, content, e);
    found := FirstEvent(store.events, 4);
  }
}
