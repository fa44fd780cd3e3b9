/** The on-device favourites of the Luma app: a set of mood-room ids,
    flipped one at a time and saved to the user defaults after every flip
    as a list of UUID strings. At launch the saved strings that parse as
    UUIDs become the set again. */
module LocalFavorites {
  import opened Text

  predicate IsHexDigit(c: char) {
    '0' <= c <= '9' || 'a' <= c <= 'f' || 'A' <= c <= 'F'
  }

  /** What `UUID(uuidString:)` accepts: 36 characters, dashes at 8, 13, 18
      and 23, hex digits everywhere else. */
  predicate IsUuid(s: string) {
    |s| == 36 && forall k :: 0 <= k < 36 ==> if k == 8 || k == 13 || k == 18 || k == 23 then s[k] == '-' else IsHexDigit(s[k])
  }

  /** The set read back from a saved list: the entries that parse. */
  function Parsed(stored: Option<set<string>>): (r: set<string>)
    ensures forall id :: id in r <==> stored.Some? && id in stored.value && IsUuid(id)
  {
    if stored.Some? then set id | id in stored.value && IsUuid(id) else {}
  }

  /** One flip of one id. */
  function Flipped(ids: set<string>, id: string): (r: set<string>)
    ensures id in r <==> id !in ids
    ensures forall other :: other != id ==> (other in r <==> other in ids)
  {
    if id in ids then ids - {id} else ids + {id}
  }

  /** Flipping the same id twice gives the set back. */
  lemma FlipTwice(ids: set<string>, id: string)
    ensures Flipped(Flipped(ids, id), id) == ids
  {
    var once := Flipped(ids, id);
    var twice := Flipped(once, id);
    assert forall x :: x in twice <==> x in ids;
  }

  /** Flips of different ids commute. */
  lemma FlipsCommute(ids: set<string>, a: string, b: string)
    ensures Flipped(Flipped(ids, a), b) == Flipped(Flipped(ids, b), a)
  {
    var ab := Flipped(Flipped(ids, a), b);
    var ba := Flipped(Flipped(ids, b), a);
    assert forall x :: x in ab <==> x in ba;
  }

  class Store {
    var favoriteIds: set<string>
    var saved: Option<set<string>>

    /** Every held id is a UUID, and a new launch would read the same set
        back from the user defaults. */
    predicate Valid()
      reads this
    {
      (forall id :: id in favoriteIds ==> IsUuid(id))
      && (saved.Some? ==> Parsed(saved) == favoriteIds)
    }

    /** Reads the saved list: the strings that are UUIDs, or none. */
    constructor (stored: Option<set<string>>)
      ensures favoriteIds == Parsed(stored) && saved == stored
      ensures forall id :: id in favoriteIds ==> IsUuid(id)
    {
      favoriteIds := Parsed(stored);
      saved := stored;
    }

    /** `isFavorite`: the id is among the favourites. */
    function IsFavorite(id: string): (r: bool)
      reads this
      ensures r <==> id in favoriteIds
    {
      id in favoriteIds
    }

    /** Flips the id and saves the whole set. */
    method Toggle(id: string)
      requires Valid() && IsUuid(id)
      modifies this
      ensures Valid()
      ensures favoriteIds == Flipped(old(favoriteIds), id)
      ensures saved == Some(favoriteIds)
      ensures IsFavorite(id) <==> !old(IsFavorite(id))
      ensures forall other :: other != id ==> (IsFavorite(other) <==> old(IsFavorite(other)))
    {
      if id in favoriteIds {
        favoriteIds := favoriteIds - {id};
      } else {
        favoriteIds := favoriteIds + {id};
      }
      saved := Some(favoriteIds);
    }
  }

  /** A launch after a toggle shows the toggled set; toggling twice gives
      the first set back, saved. */
  method ToggleTwiceThenRelaunch(s: Store, id: string) returns (relaunched: Store)
    requires s.Valid() && IsUuid(id)
    modifies s
    ensures s.favoriteIds == old(s.favoriteIds)
    ensures relaunched.favoriteIds == s.favoriteIds
  {
    s.Toggle(id);
    s.Toggle(id);
    FlipTwice(old(s.favoriteIds), id);
    relaunched := new Store(s.saved);
  }
}
