/** The in-memory data of the client's mock mode (ios-app): the moment
    events, the preset mood rooms and the user's own mood rooms, changed in
    place by the editor. Fresh UUIDs and the current date are parameters of
    the operations that create them. */
module MockData {
  import opened Text
  import opened MoodRooms

  datatype Event = Event(id: string, content: string, mood: Option<string>, symbol: Option<string>)

  /** `firstIndex(where: { $0.id == id })`. */
  function RoomIndex(rooms: seq<MoodRoom>, id: string): (r: Option<nat>)
    ensures r.Some? ==> r.value < |rooms| && rooms[r.value].id == id
    ensures r.Some? ==> forall j :: 0 <= j < r.value ==> rooms[j].id != id
    ensures r.None? ==> forall j :: 0 <= j < |rooms| ==> rooms[j].id != id
  {
    if rooms == [] then None
    else if rooms[0].id == id then Some(0)
    else match RoomIndex(rooms[1..], id)
      case None => None
      case Some(i) => Some(i + 1)
  }

  /** The room an update writes: the given fields, the old id and creation
      date, and (as the memberwise initialiser leaves it) no session token. */
  function Edited(old_: MoodRoom, name: string, schedule: string, background: string,
                  textColor: Color, startTime: int, durationMinutes: int): MoodRoom {
    MoodRoom(old_.id, name, schedule, background, textColor, startTime, old_.createdAt, durationMinutes, None)
  }

  /** The user's rooms after `updateMoodRoom`. */
  function Updated(rooms: seq<MoodRoom>, id: string, name: string, schedule: string, background: string,
                   textColor: Color, startTime: int, durationMinutes: int): seq<MoodRoom> {
    match RoomIndex(rooms, id)
    case None => rooms
    case Some(i) => rooms[i := Edited(rooms[i], name, schedule, background, textColor, startTime, durationMinutes)]
  }

  /** The user's rooms after `deleteMoodRoom`. */
  function Deleted(rooms: seq<MoodRoom>, id: string): seq<MoodRoom> {
    match RoomIndex(rooms, id)
    case None => rooms
    case Some(i) => rooms[..i] + rooms[i + 1..]
  }

  /** `events.first { $0.id == id }`. */
  function FirstEvent(events: seq<Event>, id: string): (r: Option<Event>)
    ensures r.Some? ==> r.value.id == id && r.value in events
    ensures r.Some? ==> exists j :: 0 <= j < |events| && events[j] == r.value &&
                                    forall i :: 0 <= i < j ==> events[i].id != id
    ensures r.None? <==> forall j :: 0 <= j < |events| ==> events[j].id != id
  {
    if events == [] then None
    else if events[0].id == id then Some(events[0])
    else
      var r := FirstEvent(events[1..], id);
      if r.Some? then
        var j :| 0 <= j < |events[1..]| && events[1..][j] == r.value &&
                 forall i :: 0 <= i < j ==> events[1..][i].id != id;
        assert events[j + 1] == r.value;
        r
      else r
  }

  class Store {
    var events: seq<Event>
    var presetMoodRooms: seq<MoodRoom>
    var userMoodRooms: seq<MoodRoom>

    /** The seeded events and preset rooms; the user has no rooms yet. */
    constructor (events: seq<Event>, presets: seq<MoodRoom>)
      ensures this.events == events && presetMoodRooms == presets && userMoodRooms == []
    {
      this.events := events;
      presetMoodRooms := presets;
      userMoodRooms := [];
    }

    /** The user's rooms first, then the presets. */
    function MoodRoomList(): (r: seq<MoodRoom>)
      reads this
      ensures |r| == |userMoodRooms| + |presetMoodRooms|
      ensures forall k :: 0 <= k < |userMoodRooms| ==> r[k] == userMoodRooms[k]
      ensures forall k :: 0 <= k < |presetMoodRooms| ==> r[|userMoodRooms| + k] == presetMoodRooms[k]
    {
      userMoodRooms + presetMoodRooms
    }

    /** Inserts a new room at the top of the user's list. */
    method AddMoodRoom(name: string, schedule: string, background: string, textColor: Color,
                       startTime: int, durationMinutes: int, freshId: string, now: int)
      modifies this
      ensures userMoodRooms ==
                [MoodRoom(freshId, name, schedule, background, textColor, startTime, now, durationMinutes, None)] +
                old(userMoodRooms)
      ensures events == old(events) && presetMoodRooms == old(presetMoodRooms)
    {
      var room := MoodRoom(freshId, name, schedule, background, textColor, startTime, now, durationMinutes, None);
      userMoodRooms := [room] + userMoodRooms;
    }

    /** Replaces the first of the user's rooms with that id; nothing happens
        when there is none. */
    method UpdateMoodRoom(id: string, name: string, schedule: string, background: string,
                          textColor: Color, startTime: int, durationMinutes: int)
      modifies this
      ensures userMoodRooms ==
                Updated(old(userMoodRooms), id, name, schedule, background, textColor, startTime, durationMinutes)
      ensures events == old(events) && presetMoodRooms == old(presetMoodRooms)
    {
      var index := RoomIndex(userMoodRooms, id);
      if index.Some? {
        var i := index.value;
        userMoodRooms := userMoodRooms[i := Edited(userMoodRooms[i], name, schedule, background,
                                                   textColor, startTime, durationMinutes)];
      }
    }

    /** Removes the first of the user's rooms with that id, if any. */
    method DeleteMoodRoom(id: string)
      modifies this
      ensures userMoodRooms == Deleted(old(userMoodRooms), id)
      ensures events == old(events) && presetMoodRooms == old(presetMoodRooms)
    {
      var index := RoomIndex(userMoodRooms, id);
      if index.Some? {
        var i := index.value;
        userMoodRooms := userMoodRooms[..i] + userMoodRooms[i + 1..];
      }
    }

    /** Appends a new event with a fresh id and returns it. */
    method AddEvent(content: string, freshId: string) returns (e: Event)
      modifies this
      ensures e == Event(freshId, content, None, None)
      ensures events == old(events) + [e]
      ensures presetMoodRooms == old(presetMoodRooms) && userMoodRooms == old(userMoodRooms)
    {
      e := Event(freshId, content, None, None);
      events := events + [e];
    }
  }

  // ---------------------------------------------------------------------
  // Properties of the list operations

  /** Inserting at the front shifts every old room down by one. */
  lemma InsertShifts(room: MoodRoom, rooms: seq<MoodRoom>)
    ensures var r := [room] + rooms;
      |r| == |rooms| + 1 && r[0] == room && forall k :: 0 <= k < |rooms| ==> r[k + 1] == rooms[k]
  {
  }

  /** An update changes only the first room with the id, keeps its id and
      creation date, and changes nothing when no room has the id. */
  lemma UpdateFacts(rooms: seq<MoodRoom>, id: string, name: string, schedule: string, background: string,
                    textColor: Color, startTime: int, durationMinutes: int)
    ensures var r := Updated(rooms, id, name, schedule, background, textColor, startTime, durationMinutes);
      && |r| == |rooms|
      && (RoomIndex(rooms, id).None? ==> r == rooms)
      && (RoomIndex(rooms, id).Some? ==>
            var i := RoomIndex(rooms, id).value;
            && r[i].id == id && r[i].createdAt == rooms[i].createdAt
            && r[i].name == name && r[i].schedule == schedule && r[i].background == background
            && r[i].textColor == textColor && r[i].startTime == startTime
            && r[i].durationMinutes == durationMinutes
            && (forall k :: 0 <= k < |rooms| && k != i ==> r[k] == rooms[k])
            && (forall k :: 0 <= k < i ==> rooms[k].id != id))
  {
  }

  /** A delete removes exactly the first room with the id, keeping the order
      of the others, and changes nothing when no room has the id. */
  lemma DeleteFacts(rooms: seq<MoodRoom>, id: string)
    ensures var r := Deleted(rooms, id);
      && (RoomIndex(rooms, id).None? ==> r == rooms)
      && (RoomIndex(rooms, id).Some? ==>
            var i := RoomIndex(rooms, id).value;
            && |r| == |rooms| - 1
            && (forall k :: 0 <= k < i ==> r[k] == rooms[k] && rooms[k].id != id)
            && (forall k :: i <= k < |r| ==> r[k] == rooms[k + 1]))
  {
    if RoomIndex(rooms, id).Some? {
      CutFacts(rooms, RoomIndex(rooms, id).value);
    }
  }

  /** The elements of a list with the one at `i` cut out. */
  lemma CutFacts(rooms: seq<MoodRoom>, i: nat)
    requires i < |rooms|
    ensures var r := rooms[..i] + rooms[i + 1..];
      && |r| == |rooms| - 1
      && (forall k :: 0 <= k < i ==> r[k] == rooms[k])
      && (forall k :: i <= k < |r| ==> r[k] == rooms[k + 1])
  {
  }

  /** Deleting a room that exists removes one room with the id: the count of
      rooms with that id drops by exactly one. */
  lemma {:induction false} DeleteCount(rooms: seq<MoodRoom>, id: string)
    requires RoomIndex(rooms, id).Some?
    ensures CountId(Deleted(rooms, id), id) == CountId(rooms, id) - 1
  {
    var i := RoomIndex(rooms, id).value;
    assert rooms == rooms[..i] + [rooms[i]] + rooms[i + 1..];
    CountIdAppend(rooms[..i] + [rooms[i]], rooms[i + 1..], id);
    CountIdAppend(rooms[..i], [rooms[i]], id);
    CountIdAppend(rooms[..i], rooms[i + 1..], id);
  }

  function CountId(rooms: seq<MoodRoom>, id: string): nat {
    if rooms == [] then 0 else (if rooms[0].id == id then 1 else 0) + CountId(rooms[1..], id)
  }

  lemma {:induction false} CountIdAppend(a: seq<MoodRoom>, b: seq<MoodRoom>, id: string)
    ensures CountId(a + b, id) == CountId(a, id) + CountId(b, id)
  {
    if a == [] {
      assert a + b == b;
    } else {
      assert (a + b)[1..] == a[1..] + b;
      CountIdAppend(a[1..], b, id);
    }
  }

  /** After adding an event with an id no event had, looking that id up
      finds the new event. */
  lemma {:induction false} AddedEventFound(events: seq<Event>, e: Event)
    requires forall j :: 0 <= j < |events| ==> events[j].id != e.id
    ensures FirstEvent(events + [e], e.id) == Some(e)
    decreases |events|
  {
    if events == [] {
    } else {
      assert (events + [e])[1..] == events[1..] + [e];
      AddedEventFound(events[1..], e);
    }
  }

  /** Adding an event keeps every earlier lookup that succeeded. */
  lemma {:induction false} AddKeepsLookups(events: seq<Event>, e: Event, id: string)
    requires FirstEvent(events, id).Some?
    ensures FirstEvent(events + [e], id) == FirstEvent(events, id)
    decreases |events|
  {
    if events[0].id != id {
      assert (events + [e])[1..] == events[1..] + [e];
      AddKeepsLookups(events[1..], e, id);
    }
  }
}
