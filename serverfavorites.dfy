/** The server-backed favourites of the Luceam app: the favourite rooms as
    the server last listed them, and the set of their ids. The answers of
    the server (the fetched list, the new state of a toggle, or a failure)
    are parameters. */
module ServerFavorites {
  import opened MoodRooms

  /** The outcome of a call to the server. */
  datatype Outcome<T> = Success(value: T) | Failure

  /** `Set(rooms.map { $0.id })` */
  function Ids(rooms: seq<MoodRoom>): (r: set<string>)
    ensures forall id :: id in r <==> exists k :: 0 <= k < |rooms| && rooms[k].id == id
  {
    set k | 0 <= k < |rooms| :: rooms[k].id
  }

  /** No two rooms share an id. */
  predicate UniqueIds(rooms: seq<MoodRoom>) {
    forall i, j :: 0 <= i < j < |rooms| ==> rooms[i].id != rooms[j].id
  }

  /** The ids of a list are those of its first room and of the rest. */
  lemma IdsSplit(rooms: seq<MoodRoom>)
    requires rooms != []
    ensures Ids(rooms) == {rooms[0].id} + Ids(rooms[1..])
  {
    forall x | x in Ids(rooms) ensures x in {rooms[0].id} + Ids(rooms[1..]) {
      var k :| 0 <= k < |rooms| && rooms[k].id == x;
      if k > 0 { assert rooms[1..][k - 1].id == x; }
    }
  }

  /** `rooms.removeAll { $0.id == id }`: the other rooms, in order. */
  function WithoutId(rooms: seq<MoodRoom>, id: string): (r: seq<MoodRoom>)
    ensures forall x :: x in r <==> x in rooms && x.id != id
    ensures Ids(r) == Ids(rooms) - {id}
    ensures UniqueIds(rooms) ==> UniqueIds(r)
  {
    if rooms == [] then []
    else
      var rest := WithoutId(rooms[1..], id);
      IdsSplit(rooms);
      if rooms[0].id == id then rest
      else
        var r := [rooms[0]] + rest;
        assert r[1..] == rest;
        IdsSplit(r);
        assert UniqueIds(rooms) ==> rooms[0].id !in Ids(rooms[1..]);
        r
  }

  /** `if !rooms.contains(where: { $0.id == room.id }) { rooms.append(room) }` */
  function WithRoom(rooms: seq<MoodRoom>, room: MoodRoom): (r: seq<MoodRoom>)
    ensures Ids(r) == Ids(rooms) + {room.id}
    ensures room.id in Ids(rooms) ==> r == rooms
    ensures room.id !in Ids(rooms) ==> r == rooms + [room]
    ensures UniqueIds(rooms) ==> UniqueIds(r)
  {
    if room.id in Ids(rooms) then rooms
    else
      var r := rooms + [room];
      assert Ids(r) == Ids(rooms) + {room.id} by {
        forall x | x in Ids(r) ensures x in Ids(rooms) + {room.id} {
          var k :| 0 <= k < |r| && r[k].id == x;
          if k < |rooms| { assert rooms[k].id == x; }
        }
        forall x | x in Ids(rooms) ensures x in Ids(r) {
          var k :| 0 <= k < |rooms| && rooms[k].id == x;
          assert r[k].id == x;
        }
        assert r[|rooms|].id == room.id;
      }
      r
  }

  class Store {
    var favoriteIds: set<string>
    var rooms: seq<MoodRoom>

    /** The ids are exactly the ids of the listed rooms. */
    predicate Consistent()
      reads this
    {
      favoriteIds == Ids(rooms)
    }

    constructor ()
      ensures favoriteIds == {} && rooms == [] && Consistent()
    {
      favoriteIds, rooms := {}, [];
    }

    /** `isFavorite`: the id is among the favourites. */
    function IsFavorite(id: string): (r: bool)
      reads this
      ensures r <==> id in favoriteIds
    {
      id in favoriteIds
    }

    /** `loadFavorites`: the server's list and its ids, or nothing at all
        when the call fails. */
    method LoadFavorites(fetched: Outcome<seq<MoodRoom>>)
      modifies this
      ensures Consistent()
      ensures fetched.Success? ==> rooms == fetched.value
      ensures fetched.Failure? ==> rooms == [] && favoriteIds == {}
    {
      match fetched
      case Success(list) =>
        rooms := list;
        favoriteIds := Ids(rooms);
      case Failure =>
        rooms := [];
        favoriteIds := {};
    }

    /** `toggle` with the server's answer: a new state `true` adds the id
        and the room unless a room with that id is listed, `false` removes
        the id and every room with it, a failure changes nothing. */
    method Toggle(room: MoodRoom, newState: Outcome<bool>)
      requires Consistent()
      modifies this
      ensures Consistent()
      ensures newState.Success? && newState.value ==>
        favoriteIds == old(favoriteIds) + {room.id} && rooms == WithRoom(old(rooms), room)
      ensures newState.Success? && !newState.value ==>
        favoriteIds == old(favoriteIds) - {room.id} && rooms == WithoutId(old(rooms), room.id)
      ensures newState.Failure? ==> favoriteIds == old(favoriteIds) && rooms == old(rooms)
      ensures UniqueIds(old(rooms)) ==> UniqueIds(rooms)
      ensures newState.Success? ==> (IsFavorite(room.id) <==> newState.value)
    {
      match newState
      case Success(isFavorite) =>
        if isFavorite {
          favoriteIds := favoriteIds + {room.id};
          rooms := WithRoom(rooms, room);
        } else {
          favoriteIds := favoriteIds - {room.id};
          rooms := WithoutId(rooms, room.id);
        }
      case Failure =>
    }
  }

  /** Adding a room and then removing its id leaves no room with that id;
      when the room was not listed before, the list is back as it was. */
  lemma AddThenRemove(rooms: seq<MoodRoom>, room: MoodRoom)
    ensures Ids(WithoutId(WithRoom(rooms, room), room.id)) == Ids(rooms) - {room.id}
    ensures room.id !in Ids(rooms) ==> WithoutId(WithRoom(rooms, room), room.id) == rooms
  {
    if room.id !in Ids(rooms) {
      WithoutAppend(rooms, room);
    }
  }

  /** Removing an id no room has changes nothing. */
  lemma {:induction false} WithoutAbsent(rooms: seq<MoodRoom>, id: string)
    requires id !in Ids(rooms)
    ensures WithoutId(rooms, id) == rooms
  {
    if rooms != [] {
      assert rooms[0].id != id;
      WithoutAbsent(rooms[1..], id);
      assert rooms == [rooms[0]] + rooms[1..];
    }
  }

  /** Removing the id of a last room whose id no other room has drops
      exactly that room. */
  lemma {:induction false} WithoutAppend(rooms: seq<MoodRoom>, room: MoodRoom)
    requires room.id !in Ids(rooms)
    ensures WithoutId(rooms + [room], room.id) == rooms
  {
    if rooms == [] {
      assert [room][1..] == [];
    } else {
      var full := rooms + [room];
      assert full[0] == rooms[0] && full[1..] == rooms[1..] + [room];
      IdsSplit(rooms);
      assert rooms[0].id != room.id;
      assert WithoutId(full, room.id) == [rooms[0]] + WithoutId(rooms[1..] + [room], room.id);
      WithoutAppend(rooms[1..], room);
      assert rooms == [rooms[0]] + rooms[1..];
    }
  }
}
