/** The backend's favourites: one record per (user, mood room) pair, the
    pair unique as the table's constraint demands. A record is active while
    it has no unfavourite time; toggling flips it and keeps it as history
    instead of deleting it. Timestamps are milliseconds, and the clock
    reading `now` is a parameter. */
module FavoritesService {
  import opened Text

  datatype Favorite = Favorite(favoritedAt: int, unfavoritedAt: Option<int>)

  /** `{ isFavorite }`, or the NotFoundException for an unknown room. */
  datatype ToggleResult = Toggled(isFavorite: bool) | RoomNotFound

  predicate Active(f: Favorite) {
    f.unfavoritedAt.None?
  }

  function Lookup(favs: map<(string, string), Favorite>, key: (string, string)): Option<Favorite> {
    if key in favs then Some(favs[key]) else None
  }

  /** The record a toggle at `now` leaves, and the state it reports: a new
      record, or a re-favourited one, is active with `now` as its time; an
      active one is closed at `now` and keeps its favourite time. */
  function Flip(f: Option<Favorite>, now: int): (r: (Favorite, bool))
    ensures r.1 <==> Active(r.0)
    ensures r.1 <==> f.None? || !Active(f.value)
    ensures r.1 ==> r.0.favoritedAt == now
    ensures !r.1 ==> r.0 == Favorite(f.value.favoritedAt, Some(now))
  {
    if f.None? then (Favorite(now, None), true)
    else if f.value.unfavoritedAt.Some? then (Favorite(now, None), true)
    else (Favorite(f.value.favoritedAt, Some(now)), false)
  }

  /** Consecutive toggles of one pair report alternating states. */
  lemma ToggleAlternates(f: Option<Favorite>, t1: int, t2: int)
    ensures Flip(Some(Flip(f, t1).0), t2).1 == !Flip(f, t1).1
  {
  }

  /** The rooms `list(userId)` returns: those with an active record. */
  function ActiveRooms(favs: map<(string, string), Favorite>, user: string): (r: set<string>)
    ensures forall room :: room in r <==> (user, room) in favs && Active(favs[(user, room)])
  {
    set p | p in favs && p.0 == user && Active(favs[p]) :: p.1
  }

  /** After a toggle the room is listed exactly when the toggle reported it
      a favourite; the user's other rooms and other users' lists are as
      before. */
  lemma ToggleThenList(favs: map<(string, string), Favorite>, user: string, room: string, now: int)
    ensures var f := Flip(Lookup(favs, (user, room)), now);
      var after := favs[(user, room) := f.0];
      && (room in ActiveRooms(after, user) <==> f.1)
      && ActiveRooms(after, user) - {room} == ActiveRooms(favs, user) - {room}
      && forall other :: other != user ==> ActiveRooms(after, other) == ActiveRooms(favs, other)
  {
    var f := Flip(Lookup(favs, (user, room)), now);
    var after := favs[(user, room) := f.0];
    assert ActiveRooms(after, user) - {room} == ActiveRooms(favs, user) - {room} by {
      forall x ensures x in ActiveRooms(after, user) - {room} <==> x in ActiveRooms(favs, user) - {room} {
        if x != room {
          assert (user, x) != (user, room);
        }
      }
    }
    forall other | other != user ensures ActiveRooms(after, other) == ActiveRooms(favs, other) {
      forall x ensures x in ActiveRooms(after, other) <==> x in ActiveRooms(favs, other) {
        assert (other, x) != (user, room);
      }
    }
  }

  class Repository {
    var users: set<string>
    var rooms: set<string>
    var favorites: map<(string, string), Favorite>

    /** Every record belongs to a stored user and a stored room. */
    predicate Valid()
      reads this
    {
      forall p :: p in favorites ==> p.0 in users && p.1 in rooms
    }

    constructor (rooms: set<string>)
      ensures this.rooms == rooms && users == {} && favorites == map[] && Valid()
    {
      this.rooms := rooms;
      users := {};
      favorites := map[];
    }

    /** `toggle(userId, moodRoomId)`: the user is created when missing,
        even when the room then turns out not to exist. */
    method Toggle(userId: string, roomId: string, now: int) returns (result: ToggleResult)
      requires Valid()
      modifies this
      ensures Valid()
      ensures users == old(users) + {userId} && rooms == old(rooms)
      ensures roomId !in rooms ==> result == RoomNotFound && favorites == old(favorites)
      ensures roomId in rooms ==>
        var f := Flip(Lookup(old(favorites), (userId, roomId)), now);
        favorites == old(favorites)[(userId, roomId) := f.0] && result == Toggled(f.1)
    {
      if userId !in users {
        users := users + {userId};
      }
      if roomId !in rooms {
        return RoomNotFound;
      }
      var key := (userId, roomId);
      if key !in favorites {
        favorites := favorites[key := Favorite(now, None)];
        return Toggled(true);
      }
      var fav := favorites[key];
      if fav.unfavoritedAt.Some? {
        favorites := favorites[key := Favorite(now, None)];
        return Toggled(true);
      }
      favorites := favorites[key := fav.(unfavoritedAt := Some(now))];
      return Toggled(false);
    }

    /** `list(userId)` */
    method List(userId: string) returns (listed: set<string>)
      ensures listed == ActiveRooms(favorites, userId)
      ensures forall room :: room in listed ==> (userId, room) in favorites
    {
      listed := set p | p in favorites && p.0 == userId && favorites[p].unfavoritedAt.None? :: p.1;
    }
  }

  /** Two toggles in a row report opposite states and leave the room listed
      as it was. */
  method ToggleTwice(repo: Repository, user: string, room: string, t1: int, t2: int)
    returns (first: ToggleResult, second: ToggleResult)
    requires repo.Valid() && room in repo.rooms
    modifies repo
    ensures first.Toggled? && second.Toggled? && second.isFavorite == !first.isFavorite
    ensures room in ActiveRooms(repo.favorites, user) <==> room in ActiveRooms(old(repo.favorites), user)
  {
    first := repo.Toggle(user, room, t1);
    ToggleThenList(old(repo.favorites), user, room, t1);
    var middle := repo.favorites;
    second := repo.Toggle(user, room, t2);
    ToggleThenList(middle, user, room, t2);
    ToggleAlternates(Lookup(old(repo.favorites), (user, room)), t1, t2);
    if (user, room) in old(repo.favorites) {
      assert room in ActiveRooms(old(repo.favorites), user) <==> Active(old(repo.favorites)[(user, room)]);
    }
  }
}
