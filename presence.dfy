/** Presence tracking for a moment or mood room (backend presence service):
    join, leave and count over the room's member set, plus the per-window
    analytics a join feeds (peak concurrency and the ids seen in the
    window). Times are milliseconds since the epoch; the clock reading a
    join uses is a parameter. */
module Presence {
  import opened KeyStore
  import opened Arith

  /** ROLLUP_PERIOD_SECONDS when the variable is unset. */
  const DefaultPeriodSeconds: nat := 60

  /** The start of the window that holds `now`, with windows of `period`
      milliseconds aligned to the epoch. The source renders it as an ISO
      timestamp to build keys; here the integer itself is the key. */
  function WindowStart(now: nat, period: nat): (w: nat)
    requires period > 0
    ensures w <= now < w + period
    ensures w % period == 0
  {
    RoundDown(now, period)
  }

  /** The window start as the source computes it, `now - now % period`,
      for any nonzero period. JavaScript's `%` takes the sign of the
      dividend, so a negative period (a negative ROLLUP_PERIOD_SECONDS)
      gives the windows of its magnitude. */
  function WindowStartOf(now: nat, period: int): (w: nat)
    requires period != 0
    ensures w == WindowStart(now, Abs(period))
  {
    now - JsRem(now, period)
  }

  /** The two properties above single the window out: any aligned start
      within one period before `now` is the window start. */
  lemma WindowStartUnique(now: nat, period: nat, w: nat)
    requires period > 0
    requires w <= now < w + period && w % period == 0
    ensures w == WindowStart(now, period)
  {
    DivModUnique(w, period, w / period, 0);
    DivModUnique(now, period, w / period, now - w);
  }

  /** Two instants in the same window share its start, whenever each was observed. */
  lemma SameWindow(a: nat, b: nat, period: nat)
    requires period > 0
    requires WindowStart(a, period) <= b < WindowStart(a, period) + period
    ensures WindowStart(b, period) == WindowStart(a, period)
  {
    WindowStartUnique(b, period, WindowStart(a, period));
  }

  /** The member sets after joining each of `users` in turn. */
  function JoinedAll(m: map<string, set<string>>, room: string, users: seq<string>): map<string, set<string>>
    decreases |users|
  {
    if users == [] then m else JoinedAll(Added(m, room, users[0]), room, users[1..])
  }

  /** Joins accumulate: the room ends up with its old members plus every
      user that joined, and no other room changes. */
  lemma {:induction false} JoinedAllMembers(m: map<string, set<string>>, room: string, users: seq<string>)
    ensures MembersOf(JoinedAll(m, room, users), room) == MembersOf(m, room) + (set u | u in users)
    ensures forall other :: other != room ==> MembersOf(JoinedAll(m, room, users), other) == MembersOf(m, other)
    decreases |users|
  {
    if users != [] {
      JoinedAllMembers(Added(m, room, users[0]), room, users[1..]);
      assert (set u | u in users) == {users[0]} + (set u | u in users[1..]);
    }
  }

  predicate Distinct(users: seq<string>) {
    forall i, j :: 0 <= i < j < |users| ==> users[i] != users[j]
  }

  lemma {:induction false} DistinctCard(users: seq<string>)
    requires Distinct(users)
    ensures |set u | u in users| == |users|
    decreases |users|
  {
    if users != [] {
      DistinctCard(users[1..]);
      var rest := set u | u in users[1..];
      assert (set u | u in users) == rest + {users[0]};
      assert users[0] !in rest;
    }
  }

  /** N distinct participants joining an empty room, in any order, leave
      exactly N members in it. */
  lemma JoinDistinctCount(m: map<string, set<string>>, room: string, users: seq<string>)
    requires MembersOf(m, room) == {}
    requires Distinct(users)
    ensures |MembersOf(JoinedAll(m, room, users), room)| == |users|
  {
    JoinedAllMembers(m, room, users);
    DistinctCard(users);
  }

  /** The order of joins does not matter: two orderings of the same users
      leave the same member sets. */
  lemma JoinOrderIrrelevant(m: map<string, set<string>>, room: string, us: seq<string>, vs: seq<string>)
    requires (set u | u in us) == (set v | v in vs)
    ensures forall r :: MembersOf(JoinedAll(m, room, us), r) == MembersOf(JoinedAll(m, room, vs), r)
  {
    JoinedAllMembers(m, room, us);
    JoinedAllMembers(m, room, vs);
  }

  /** Joining twice with the same id is joining once. */
  lemma JoinIdempotent(m: map<string, set<string>>, room: string, user: string)
    ensures Added(Added(m, room, user), room, user) == Added(m, room, user)
    ensures |MembersOf(Added(m, room, user), room)| >= 1
  {
  }

  /** Leaving a room one is not in changes the count of no room. */
  lemma LeaveAbsent(m: map<string, set<string>>, room: string, user: string)
    requires user !in MembersOf(m, room)
    ensures forall r :: MembersOf(Removed(m, room, {user}), r) == MembersOf(m, r)
  {
  }

  /** A peak update never lowers any window's peak. */
  lemma PeakNeverDecreases(peaks: map<(string, int), int>, key: (string, int), count: int, k: (string, int))
    ensures PeakOf(Raised(peaks, key, count), k) >= PeakOf(peaks, k)
    ensures PeakOf(Raised(peaks, key, count), key) >= count
  {
  }

  /** What a join returns: the room's new size, or the RangeError that
      `toISOString` throws when the rollup period is 0 (`now % 0` is NaN). */
  datatype JoinOutcome = Joined(count: nat) | RangeError

  class PresenceService {
    const store: Store
    /** The analytics window length in milliseconds: whatever integer
        ROLLUP_PERIOD_SECONDS parses to, times 1000. */
    const period: int

    constructor (store: Store, periodSeconds: int)
      ensures this.store == store && period == periodSeconds * 1000
    {
      this.store := store;
      period := periodSeconds * 1000;
    }

    /** Adds `user` to the room, records its timestamp and feeds the
        window's seen-ids, then returns the room's size and raises the
        window peak to it. With a zero period the window key cannot be
        built and the join fails before it writes anything. */
    method Join(room: string, user: string, now: nat) returns (outcome: JoinOutcome)
      modifies store
      ensures outcome.RangeError? <==> period == 0
      ensures outcome.RangeError? ==>
                store.members == old(store.members) && store.lastSeen == old(store.lastSeen) &&
                store.seen == old(store.seen) && store.peaks == old(store.peaks)
      ensures period != 0 ==> store.members == Added(old(store.members), room, user)
      ensures period != 0 ==> store.lastSeen == old(store.lastSeen)[(room, user) := now]
      ensures period != 0 ==> store.seen == Fed(old(store.seen), (room, WindowStartOf(now, period)), user)
      ensures outcome.Joined? ==>
                outcome.count == |store.Members(room)| && user in store.Members(room) && outcome.count >= 1
      ensures outcome.Joined? ==>
                store.peaks == Raised(old(store.peaks), (room, WindowStartOf(now, period)), outcome.count)
      ensures store.locks == old(store.locks)
    {
      if period == 0 {
        return RangeError;
      }
      var win := WindowStartOf(now, period);
      store.SAdd(room, user);
      store.SetTimestamp(room, user, now);
      store.PfAdd(room, win, user);
      var count := store.SCard(room);
      UpdatePeak(room, win, count);
      return Joined(count);
    }

    /** Removes `user` from the room (nothing happens if it is absent or
        the room is unknown) and returns the room's size. */
    method Leave(room: string, user: string) returns (count: nat)
      modifies store
      ensures store.members == Removed(old(store.members), room, {user})
      ensures count == |store.Members(room)| && user !in store.Members(room)
      ensures store.peaks == old(store.peaks) && store.seen == old(store.seen)
      ensures store.lastSeen == old(store.lastSeen) && store.locks == old(store.locks)
    {
      store.SRem(room, {user});
      count := store.SCard(room);
    }

    /** The room's size; 0 for an unknown room. */
    method Count(room: string) returns (count: nat)
      ensures count == |MembersOf(store.members, room)|
      ensures room !in store.members ==> count == 0
    {
      count := store.SCard(room);
    }

    /** One read of the stored peak and, if `count` is larger, one write;
        there is no retry. */
    method UpdatePeak(room: string, win: int, count: int)
      modifies store
      ensures store.peaks == Raised(old(store.peaks), (room, win), count)
      ensures store.members == old(store.members) && store.seen == old(store.seen)
      ensures store.lastSeen == old(store.lastSeen) && store.locks == old(store.locks)
    {
      var current := store.GetPeak(room, win);
      if count > current {
        store.SetPeak(room, win, count);
      }
    }
  }

  /** Two users join, the room is counted, one leaves. */
  method JoinLeaveScenario() returns (a: JoinOutcome, b: JoinOutcome, c: nat, d: nat)
    ensures a == Joined(1) && b == Joined(2) && c == 2 && d == 1
  {
    var store := new Store();
    var service := new PresenceService(store, DefaultPeriodSeconds);
    a := service.Join("moment1", "user1", 1000);
    b := service.Join("moment1", "user2", 2000);
    c := service.Count("moment1");
    d := service.Leave("moment1", "user1");
  }
}
