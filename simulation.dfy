/** The presence simulator: per room, a driver that fills the room's member
    set with synthetic `sim:<n>` members so that an empty room looks
    populated. A room is Idle until a start takes its lock, Running while
    its state exists, and Stopped (lock released, state dropped) after an
    explicit stop or a tick past the maximum duration.

    The tick is a method the caller invokes; the clock reading, the random
    numbers, the eased ramp fraction (`min(1, t)^0.6` in the source) and
    the order in which SMEMBERS lists the set are its parameters. */
module Simulation {
  import opened Text
  import opened KeyStore
  import Presence

  /** Environment-style configuration. */
  datatype SimConfig = SimConfig(
    enabledFlag: Option<string>,  // SIM_PRESENCE_ENABLED
    min: int,                     // SIM_PRESENCE_MIN
    max: int,                     // SIM_PRESENCE_MAX
    decayAfter: int,              // SIM_PRESENCE_DECAY_AFTER_MS
    maxDuration: int,             // SIM_PRESENCE_MAX_DURATION_MS
    periodSeconds: int)           // ROLLUP_PERIOD_SECONDS

  /** The values used when no variable is set. */
  const DefaultConfig := SimConfig(None, 3, 19, 180000, 600000, 60)

  /** Simulation runs unless the flag is exactly "false". */
  predicate Enabled(flag: Option<string>)
    ensures flag.None? ==> Enabled(flag)
  {
    flag != Some("false")
  }

  lemma EnabledUnlessFalse(flag: Option<string>)
    ensures !Enabled(flag) <==> flag.Some? && flag.value == "false"
    ensures Enabled(None) && Enabled(Some("true")) && Enabled(Some("FALSE"))
  {
  }

  /** What a running simulation remembers: the ceiling it drew and when it started. */
  datatype SimState = SimState(targetMax: int, startedAt: int)

  // ---------------------------------------------------------------------
  // Integer arithmetic of a tick

  function Floor(x: real): int {
    x.Floor
  }

  /** `Math.floor(u * (hi - lo + 1)) + lo` for a uniform draw `u` in [0, 1). */
  function RandomInt(lo: int, hi: int, u: real): (r: int)
    requires 0.0 <= u < 1.0
    ensures lo <= hi ==> lo <= r <= hi
  {
    var n := (hi - lo + 1) as real;
    if lo <= hi then
      assert 0.0 <= u * n < n by { ScaleBelow(u, n); }
      Floor(u * n) + lo
    else
      Floor(u * n) + lo
  }

  lemma ScaleBelow(u: real, n: real)
    requires 0.0 <= u < 1.0 && n > 0.0
    ensures 0.0 <= u * n < n
  {
  }

  /** During the ramp: `floor(min + (targetMax - min) * eased)`. */
  function RampTarget(min: int, targetMax: int, eased: real): (r: int)
    requires 0.0 <= eased <= 1.0
    ensures min <= targetMax ==> min <= r <= targetMax
  {
    var span := (targetMax - min) as real;
    if min <= targetMax then
      assert 0.0 <= span * eased <= span by { ScaleAtMost(eased, span); }
      Floor(min as real + span * eased)
    else
      Floor(min as real + span * eased)
  }

  lemma ScaleAtMost(u: real, n: real)
    requires 0.0 <= u <= 1.0 && n >= 0.0
    ensures 0.0 <= u * n <= n
  {
  }

  /** After the ramp: `max(min, floor(current * 0.95))`, with 0.95 taken as 95/100. */
  function DecayTarget(min: int, current: nat): (r: int)
    ensures r >= min && r <= (if min > current then min else current)
  {
    var decayed := current * 95 / 100;
    if min > decayed then min else decayed
  }

  /** `max(min, min(targetMax, x))`. */
  function Clamp(min: int, targetMax: int, x: int): (r: int)
    ensures r >= min
    ensures min <= targetMax ==> r <= targetMax
    ensures min <= x <= targetMax ==> r == x
  {
    var capped := if x < targetMax then x else targetMax;
    if capped < min then min else capped
  }

  /** The target a tick aims for: ramp or decay, plus jitter, clamped. */
  function NextTarget(cfg: SimConfig, st: SimState, now: int, current: nat, eased: real, jitter: int): (r: int)
    requires 0.0 <= eased <= 1.0
    ensures r >= cfg.min
    ensures cfg.min <= st.targetMax ==> r <= st.targetMax
  {
    var base := if now - st.startedAt < cfg.decayAfter then RampTarget(cfg.min, st.targetMax, eased)
                else DecayTarget(cfg.min, current);
    Clamp(cfg.min, st.targetMax, base + jitter)
  }

  // ---------------------------------------------------------------------
  // Synthetic members

  function SimMember(n: nat): string {
    "sim:" + NatToString(n)
  }

  predicate IsSim(m: string) {
    HasPrefix(m, "sim:")
  }

  lemma SimMemberIsSim(n: nat)
    ensures IsSim(SimMember(n))
  {
    assert SimMember(n)[..4] == "sim:";
  }

  /** Distinct numbers give distinct member names. */
  lemma SimMemberInjective(a: nat, b: nat)
    requires SimMember(a) == SimMember(b)
    ensures a == b
  {
    assert SimMember(a)[4..] == NatToString(a);
    assert SimMember(b)[4..] == NatToString(b);
    NatToStringInjective(a, b);
  }

  /** The names an upward tick adds: `sim:<c+1>` through `sim:<c+k>`. */
  function SimRange(c: nat, k: nat): set<string> {
    if k == 0 then {} else SimRange(c, k - 1) + {SimMember(c + k)}
  }

  lemma {:induction false} SimRangeFacts(c: nat, k: nat)
    ensures |SimRange(c, k)| == k
    ensures forall m :: m in SimRange(c, k) ==> IsSim(m)
  {
    if k > 0 {
      SimRangeFacts(c, k - 1);
      SimMemberIsSim(c + k);
      if SimMember(c + k) in SimRange(c, k - 1) {
        SimRangeBelow(c, k - 1, c + k);
      }
    }
  }

  lemma {:induction false} SimRangeBelow(c: nat, k: nat, n: nat)
    requires SimMember(n) in SimRange(c, k)
    ensures c < n <= c + k
  {
    if SimMember(n) == SimMember(c + k) {
      SimMemberInjective(n, c + k);
    } else {
      SimRangeBelow(c, k - 1, n);
    }
  }

  lemma UnionStep(a: set<string>, b: set<string>, x: string)
    ensures (a + b) + {x} == a + (b + {x})
  {
  }

  lemma UnionBounds(a: set<string>, b: set<string>)
    ensures |a| <= |a + b| <= |a| + |b|
  {
    assert a + b == a + (b - a);
    assert |b - a| <= |b| by {
      assert b == (b - a) + (b * a);
    }
    assert a <= a + b;
  }

  /** The members a list holds. */
  function Elems(xs: seq<string>): set<string> {
    set m | m in xs
  }

  /** SMEMBERS returned `listing`: each member once, in some order. */
  predicate ListsExactly(listing: seq<string>, s: set<string>) {
    Presence.Distinct(listing) && Elems(listing) == s
  }

  function Filter(xs: seq<string>): (r: seq<string>)
    ensures forall k :: 0 <= k < |r| ==> IsSim(r[k]) && r[k] in xs
    ensures forall m :: m in xs && IsSim(m) ==> m in r
  {
    if xs == [] then []
    else (if IsSim(xs[0]) then [xs[0]] else []) + Filter(xs[1..])
  }

  /** `members.filter(m => m.startsWith('sim:')).slice(0, n)`. */
  function FirstSims(listing: seq<string>, n: nat): (r: seq<string>)
    ensures |r| == (if |Filter(listing)| <= n then |Filter(listing)| else n)
    ensures r == Filter(listing)[..|r|]
    ensures forall k :: 0 <= k < |r| ==> IsSim(r[k]) && r[k] in listing
  {
    var sims := Filter(listing);
    if |sims| <= n then sims else sims[..n]
  }

  /** The sim members of a set. */
  function SimsOf(s: set<string>): set<string> {
    set m | m in s && IsSim(m)
  }

  lemma {:induction false} FilterDistinct(xs: seq<string>)
    requires Presence.Distinct(xs)
    ensures Presence.Distinct(Filter(xs))
    ensures Elems(Filter(xs)) == SimsOf(Elems(xs))
  {
    if xs != [] {
      FilterDistinct(xs[1..]);
      assert Elems(xs) == {xs[0]} + Elems(xs[1..]);
    }
  }

  /** The members a downward tick removes: `min(n, number of sims)` of the
      sim members, all of them present. */
  lemma FirstSimsFacts(listing: seq<string>, s: set<string>, n: nat)
    requires ListsExactly(listing, s)
    ensures var removed := Elems(FirstSims(listing, n));
      && removed <= SimsOf(s)
      && |removed| == (if |SimsOf(s)| <= n then |SimsOf(s)| else n)
  {
    var sims := Filter(listing);
    FilterDistinct(listing);
    Presence.DistinctCard(sims);
    var removed := Elems(FirstSims(listing, n));
    if |sims| > n {
      var pre := sims[..n];
      assert Presence.Distinct(pre);
      Presence.DistinctCard(pre);
      assert removed <= Elems(sims);
    }
  }

  /** What a tick does to a room's member set, given the target it aimed
      for: real members stay exactly as they were; an upward move ends
      between the old size and the target; a downward move takes away
      `min(sims, size - target)` members, so it ends between the target and
      the old size. */
  ghost predicate MovesToward(before: set<string>, after: set<string>, target: int) {
    && (forall m :: !IsSim(m) ==> (m in after <==> m in before))
    && (target >= |before| ==> |before| <= |after| <= target)
    && (target < |before| ==>
          && |after| == |before| - (if |SimsOf(before)| <= |before| - target then |SimsOf(before)| else |before| - target)
          && target <= |after| <= |before|)
  }

  /** Adding `sim:<c+1>` .. `sim:<target>` to a room of `c` members moves
      it toward `target`. */
  lemma UpwardMoves(before: set<string>, target: int)
    requires target > |before|
    ensures MovesToward(before, before + SimRange(|before|, target - |before|), target)
  {
    SimRangeFacts(|before|, target - |before|);
    UnionBounds(before, SimRange(|before|, target - |before|));
  }

  /** Removing the first `size - target` listed sims moves the room toward
      `target` (a target below zero, possible with a negative minimum,
      removes every sim). */
  lemma DownwardMoves(listing: seq<string>, before: set<string>, target: int)
    requires ListsExactly(listing, before)
    requires target < |before|
    ensures MovesToward(before, before - Elems(FirstSims(listing, |before| - target)), target)
  {
    var removed := Elems(FirstSims(listing, |before| - target));
    FirstSimsFacts(listing, before, |before| - target);
    RemovingSimsMoves(before, removed, target);
  }

  /** Taking away `min(sims, size - target)` sim members moves a room
      toward a lower `target`. */
  lemma RemovingSimsMoves(before: set<string>, removed: set<string>, target: int)
    requires target < |before|
    requires removed <= SimsOf(before)
    requires |removed| == (if |SimsOf(before)| <= |before| - target then |SimsOf(before)| else |before| - target)
    ensures MovesToward(before, before - removed, target)
  {
    assert removed <= before;
    DifferenceCard(before, removed);
    forall m | !IsSim(m)
      ensures m in before - removed <==> m in before
    {
      assert m !in SimsOf(before);
    }
  }

  lemma DifferenceCard(a: set<string>, b: set<string>)
    requires b <= a
    ensures |a - b| == |a| - |b|
  {
    assert a == (a - b) + b;
  }

  /** A tick that aims at the current size changes nothing. */
  lemma StayMoves(before: set<string>)
    ensures MovesToward(before, before, |before|)
  {
  }

  /** The member set a tick leaves behind, given the set it found, the
      order SMEMBERS listed it in and the target it aimed for. */
  function TickResult(before: set<string>, listing: seq<string>, target: int): (r: set<string>)
    ensures forall m :: !IsSim(m) ==> (m in r <==> m in before)
    ensures target > |before| ==> before <= r
    ensures target <= |before| ==> r <= before
  {
    if target > |before| then
      SimRangeFacts(|before|, target - |before|);
      before + SimRange(|before|, target - |before|)
    else if target < |before| then before - Elems(FirstSims(listing, |before| - target))
    else before
  }

  lemma TickResultUp(before: set<string>, listing: seq<string>, target: int)
    requires target > |before|
    ensures TickResult(before, listing, target) == before + SimRange(|before|, target - |before|)
  {
  }

  lemma TickResultDown(before: set<string>, listing: seq<string>, target: int)
    requires target < |before|
    ensures TickResult(before, listing, target) == before - Elems(FirstSims(listing, |before| - target))
  {
  }

  /** Whatever the target, the set a tick leaves moves toward it and keeps
      every real member. */
  lemma TickResultMoves(before: set<string>, listing: seq<string>, target: int)
    requires ListsExactly(listing, before)
    ensures MovesToward(before, TickResult(before, listing, target), target)
  {
    if target > |before| {
      UpwardMoves(before, target);
    } else if target < |before| {
      DownwardMoves(listing, before, target);
    } else {
      StayMoves(before);
    }
  }

  /** The window's seen ids after a tick from `current` members toward
      `target`: an upward tick feeds the new sims to the one window key
      `key`; no other tick, and no other key, changes. */
  ghost predicate SeenFed(before: map<(string, int), set<string>>, after: map<(string, int), set<string>>,
                    key: (string, int), current: nat, target: int)
  {
    && (target > current ==> SeenOf(after, key) == SeenOf(before, key) + SimRange(current, target - current))
    && (target <= current ==> after == before)
    && (forall k :: k != key ==> SeenOf(after, k) == SeenOf(before, k))
  }

  /** The upward loop's effect on the seen ids is `SeenFed`. */
  lemma SeenFedUp(before: map<(string, int), set<string>>, after: map<(string, int), set<string>>,
                  key: (string, int), current: nat, target: int)
    requires target > current
    requires SeenOf(after, key) == SeenOf(before, key) + SimRange(current, target - current)
    requires forall k :: k != key ==> SeenOf(after, k) == SeenOf(before, k)
    ensures SeenFed(before, after, key, current, target)
  {
  }

  // ---------------------------------------------------------------------
  // The driver

  /** How a tick ended. */
  datatype TickOutcome =
    | Expired                          // past the maximum duration: stopped
    | Ticked(target: int, count: nat)  // aimed for `target`; the room now has `count` members
    | Failed(target: int)              // aimed for `target`; the window key threw (a zero period)

  class PresenceSimulator {
    const store: Store
    const cfg: SimConfig
    /** The rooms this process drives (the source keeps their timers). */
    var states: map<string, SimState>

    constructor (store: Store, cfg: SimConfig)
      ensures this.store == store && this.cfg == cfg && states == map[]
    {
      this.store := store;
      this.cfg := cfg;
      states := map[];
    }

    function Period(): int
      reads this
    {
      cfg.periodSeconds * 1000
    }

    /** Takes the room's lock if it is free and starts driving the room
        with a ceiling drawn from [min, max]; `u` is the random draw and
        `now` the clock. */
    method StartForMoment(room: string, now: int, u: real)
      requires 0.0 <= u < 1.0
      modifies this, store
      ensures !Enabled(cfg.enabledFlag) ==> states == old(states) && store.locks == old(store.locks)
      ensures Enabled(cfg.enabledFlag) && room in old(store.locks) ==>
                states == old(states) && store.locks == old(store.locks)
      ensures Enabled(cfg.enabledFlag) && room !in old(store.locks) ==>
                states == old(states)[room := SimState(RandomInt(cfg.min, cfg.max, u), now)] &&
                store.locks == old(store.locks) + {room}
      ensures Enabled(cfg.enabledFlag) && room !in old(store.locks) && cfg.min <= cfg.max ==>
                cfg.min <= states[room].targetMax <= cfg.max
      ensures store.members == old(store.members) && store.peaks == old(store.peaks)
      ensures store.seen == old(store.seen) && store.lastSeen == old(store.lastSeen)
    {
      if !Enabled(cfg.enabledFlag) {
        return;
      }
      var acquired := store.SetLockIfAbsent(room);
      if !acquired {
        return;
      }
      var targetMax := RandomInt(cfg.min, cfg.max, u);
      states := states[room := SimState(targetMax, now)];
    }

    /** Stops the room's driver, if any, and releases the lock either way. */
    method StopForMoment(room: string)
      modifies this, store
      ensures states == old(states) - {room}
      ensures store.locks == old(store.locks) - {room}
      ensures store.members == old(store.members) && store.peaks == old(store.peaks)
      ensures store.seen == old(store.seen) && store.lastSeen == old(store.lastSeen)
    {
      states := states - {room};
      store.DeleteLock(room);
    }

    /** The `for (i < n)` loop of an upward tick: adds `sim:<current+1>`
        through `sim:<current+n>` to the room and feeds each to the
        window's seen-ids. */
    method AddSims(room: string, current: nat, n: nat, win: int)
      modifies store
      ensures store.Members(room) == old(store.Members(room)) + SimRange(current, n)
      ensures forall r :: r != room ==> MembersOf(store.members, r) == MembersOf(old(store.members), r)
      ensures SeenOf(store.seen, (room, win)) == SeenOf(old(store.seen), (room, win)) + SimRange(current, n)
      ensures forall k :: k != (room, win) ==> SeenOf(store.seen, k) == SeenOf(old(store.seen), k)
      ensures store.peaks == old(store.peaks) && store.locks == old(store.locks)
      ensures store.lastSeen == old(store.lastSeen)
    {
      ghost var before := store.Members(room);
      var i := 0;
      while i < n
        invariant 0 <= i <= n
        invariant store.Members(room) == before + SimRange(current, i)
        invariant forall r :: r != room ==> MembersOf(store.members, r) == MembersOf(old(store.members), r)
        invariant SeenOf(store.seen, (room, win)) == SeenOf(old(store.seen), (room, win)) + SimRange(current, i)
        invariant forall k :: k != (room, win) ==> SeenOf(store.seen, k) == SeenOf(old(store.seen), k)
        invariant store.peaks == old(store.peaks) && store.locks == old(store.locks)
        invariant store.lastSeen == old(store.lastSeen)
      {
        var member := SimMember(current + i + 1);
        ghost var added := SimRange(current, i);
        assert SimRange(current, i + 1) == added + {member};
        store.SAdd(room, member);
        store.PfAdd(room, win, member);
        UnionStep(before, added, member);
        UnionStep(SeenOf(old(store.seen), (room, win)), added, member);
        i := i + 1;
      }
    }

    /** The filtered SREM of a downward tick, skipped when there is nothing to remove. */
    method RemoveSims(room: string, sims: set<string>)
      modifies store
      ensures store.Members(room) == old(store.Members(room)) - sims
      ensures forall r :: r != room ==> MembersOf(store.members, r) == MembersOf(old(store.members), r)
      ensures store.peaks == old(store.peaks) && store.seen == old(store.seen)
      ensures store.locks == old(store.locks) && store.lastSeen == old(store.lastSeen)
    {
      if |sims| > 0 {
        store.SRem(room, sims);
      }
    }

    /** The peak read-compare-write that ends a tick. */
    method RaisePeak(room: string, win: int, count: int)
      modifies store
      ensures store.peaks == Raised(old(store.peaks), (room, win), count)
      ensures store.members == old(store.members) && store.seen == old(store.seen)
      ensures store.locks == old(store.locks) && store.lastSeen == old(store.lastSeen)
    {
      var peak := store.GetPeak(room, win);
      if count > peak {
        store.SetPeak(room, win, count);
      }
    }

    /** The body of a tick once its target is known: add or remove sims
        to approach `target`, count the room and raise the window peak. */
    method MoveToward(room: string, target: int, win: int, listing: seq<string>) returns (count: nat)
      requires ListsExactly(listing, store.Members(room))
      modifies store
      ensures store.Members(room) == TickResult(old(store.Members(room)), listing, target)
      ensures forall r :: r != room ==> MembersOf(store.members, r) == MembersOf(old(store.members), r)
      ensures count == |store.Members(room)|
      ensures store.peaks == Raised(old(store.peaks), (room, win), count)
      ensures SeenFed(old(store.seen), store.seen, (room, win), old(|store.Members(room)|), target)
      ensures store.locks == old(store.locks) && store.lastSeen == old(store.lastSeen)
    {
      Approach(room, target, win, listing);
      count := store.SCard(room);
      RaisePeak(room, win, count);
    }

    /** The `diff > 0` loop or the `diff < 0` removal of a tick. */
    method Approach(room: string, target: int, win: int, listing: seq<string>)
      requires ListsExactly(listing, store.Members(room))
      modifies store
      ensures store.Members(room) == TickResult(old(store.Members(room)), listing, target)
      ensures forall r :: r != room ==> MembersOf(store.members, r) == MembersOf(old(store.members), r)
      ensures SeenFed(old(store.seen), store.seen, (room, win), old(|store.Members(room)|), target)
      ensures store.peaks == old(store.peaks)
      ensures store.locks == old(store.locks) && store.lastSeen == old(store.lastSeen)
    {
      ghost var before := store.Members(room);
      ghost var seen := store.seen;
      var current := store.SCard(room);
      if target > current {
        AddSims(room, current, target - current, win);
        TickResultUp(before, listing, target);
        SeenFedUp(seen, store.seen, (room, win), current, target);
      } else if target < current {
        var sims := FirstSims(listing, current - target);
        RemoveSims(room, Elems(sims));
        TickResultDown(before, listing, target);
      }
    }

    /** One timer tick for a running room. `jitterDraw` is the random draw
        behind the +-1 jitter, `eased` the eased ramp fraction, and
        `listing` the order in which SMEMBERS returns the set. With a zero
        period the window key throws a RangeError at its first use: after
        the first SADD of an upward tick, or after the SREM of a downward
        one; the timer itself keeps running. */
    method Tick(room: string, now: nat, jitterDraw: real, eased: real, listing: seq<string>)
      returns (outcome: TickOutcome)
      requires room in states
      requires 0.0 <= jitterDraw < 1.0 && 0.0 <= eased <= 1.0
      requires ListsExactly(listing, store.Members(room))
      modifies this, store
      ensures outcome.Expired? <==> now - old(states)[room].startedAt > cfg.maxDuration
      ensures outcome.Failed? <==> !outcome.Expired? && Period() == 0
      ensures outcome.Expired? ==>
                states == old(states) - {room} && store.locks == old(store.locks) - {room} &&
                store.members == old(store.members) && store.peaks == old(store.peaks) &&
                store.seen == old(store.seen)
      ensures !outcome.Expired? ==> states == old(states) && store.locks == old(store.locks)
      ensures !outcome.Expired? ==>
                outcome.target == NextTarget(cfg, old(states)[room], now, old(|store.Members(room)|),
                                             eased, RandomInt(-1, 1, jitterDraw))
      ensures outcome.Ticked? ==> outcome.count == |store.Members(room)|
      ensures outcome.Ticked? ==> store.Members(room) == TickResult(old(store.Members(room)), listing, outcome.target)
      ensures outcome.Ticked? ==> MovesToward(old(store.Members(room)), store.Members(room), outcome.target)
      ensures forall r :: r != room ==> MembersOf(store.members, r) == MembersOf(old(store.members), r)
      ensures outcome.Ticked? ==>
                store.peaks == Raised(old(store.peaks), (room, Presence.WindowStartOf(now, Period())), outcome.count)
      ensures outcome.Ticked? ==>
                SeenFed(old(store.seen), store.seen, (room, Presence.WindowStartOf(now, Period())),
                        old(|store.Members(room)|), outcome.target)
      ensures outcome.Failed? ==> store.peaks == old(store.peaks) && store.seen == old(store.seen)
      ensures outcome.Failed? && outcome.target > old(|store.Members(room)|) ==>
                store.Members(room) == old(store.Members(room)) + {SimMember(old(|store.Members(room)|) + 1)}
      ensures outcome.Failed? && outcome.target <= old(|store.Members(room)|) ==>
                store.Members(room) == TickResult(old(store.Members(room)), listing, outcome.target)
      ensures store.lastSeen == old(store.lastSeen)
    {
      var st := states[room];
      if now - st.startedAt > cfg.maxDuration {
        store.DeleteLock(room);
        states := states - {room};
        return Expired;
      }
      var current := store.SCard(room);
      var target := Aim(st, now, current, eased, jitterDraw);
      ghost var before := store.Members(room);
      outcome := Step(room, current, target, now, listing);
      TickResultMoves(before, listing, target);
    }

    /** The tick's target: ramp or decay, plus the +-1 jitter drawn from
        `jitterDraw`, clamped. */
    method Aim(st: SimState, now: int, current: nat, eased: real, jitterDraw: real) returns (target: int)
      requires 0.0 <= jitterDraw < 1.0 && 0.0 <= eased <= 1.0
      ensures target == NextTarget(cfg, st, now, current, eased, RandomInt(-1, 1, jitterDraw))
    {
      var jitter := RandomInt(-1, 1, jitterDraw);
      target := NextTarget(cfg, st, now, current, eased, jitter);
    }

    /** A tick once its target is known, on a room of `current` members. */
    method Step(room: string, current: nat, target: int, now: nat, listing: seq<string>)
      returns (outcome: TickOutcome)
      requires current == |store.Members(room)|
      requires ListsExactly(listing, store.Members(room))
      modifies store
      ensures !outcome.Expired? && outcome.target == target
      ensures outcome.Failed? <==> Period() == 0
      ensures store.locks == old(store.locks) && store.lastSeen == old(store.lastSeen)
      ensures forall r :: r != room ==> MembersOf(store.members, r) == MembersOf(old(store.members), r)
      ensures outcome.Ticked? ==> outcome.count == |store.Members(room)|
      ensures outcome.Ticked? ==> store.Members(room) == TickResult(old(store.Members(room)), listing, outcome.target)
      ensures outcome.Ticked? ==>
                store.peaks == Raised(old(store.peaks), (room, Presence.WindowStartOf(now, Period())), outcome.count)
      ensures outcome.Ticked? ==>
                SeenFed(old(store.seen), store.seen, (room, Presence.WindowStartOf(now, Period())),
                        old(|store.Members(room)|), outcome.target)
      ensures outcome.Failed? ==> store.peaks == old(store.peaks) && store.seen == old(store.seen)
      ensures outcome.Failed? && outcome.target > old(|store.Members(room)|) ==>
                store.Members(room) == old(store.Members(room)) + {SimMember(old(|store.Members(room)|) + 1)}
      ensures outcome.Failed? && outcome.target <= old(|store.Members(room)|) ==>
                store.Members(room) == TickResult(old(store.Members(room)), listing, outcome.target)
    {
      if Period() == 0 {
        FailedTick(room, current, target, listing);
        return Failed(target);
      }
      var win := Presence.WindowStartOf(now, Period());
      var count := MoveToward(room, target, win, listing);
      return Ticked(target, count);
    }

    /** What a tick does before the window key throws: at most the first
        SADD of the upward loop, or the whole filtered SREM. */
    method FailedTick(room: string, current: nat, target: int, listing: seq<string>)
      requires current == |store.Members(room)|
      requires ListsExactly(listing, store.Members(room))
      modifies store
      ensures target > current ==> store.Members(room) == old(store.Members(room)) + {SimMember(current + 1)}
      ensures target <= current ==> store.Members(room) == TickResult(old(store.Members(room)), listing, target)
      ensures forall r :: r != room ==> MembersOf(store.members, r) == MembersOf(old(store.members), r)
      ensures store.peaks == old(store.peaks) && store.seen == old(store.seen)
      ensures store.locks == old(store.locks) && store.lastSeen == old(store.lastSeen)
    {
      if target > current {
        store.SAdd(room, SimMember(current + 1));
      } else if target < current {
        var sims := FirstSims(listing, current - target);
        RemoveSims(room, Elems(sims));
      }
    }
  }

  /** A second start on a room whose lock is held keeps the first driver
      and its ceiling. */
  method StartTwiceOneDriver(sim: PresenceSimulator, room: string, t1: int, t2: int, u1: real, u2: real)
    requires 0.0 <= u1 < 1.0 && 0.0 <= u2 < 1.0
    requires Enabled(sim.cfg.enabledFlag) && room !in sim.store.locks
    modifies sim, sim.store
    ensures sim.states == old(sim.states)[room := SimState(RandomInt(sim.cfg.min, sim.cfg.max, u1), t1)]
    ensures sim.store.locks == old(sim.store.locks) + {room}
  {
    sim.StartForMoment(room, t1, u1);
    sim.StartForMoment(room, t2, u2);
  }

  /** After a stop the room can be started again, with a fresh ceiling. */
  method StopThenStart(sim: PresenceSimulator, room: string, t: int, u: real)
    requires 0.0 <= u < 1.0 && Enabled(sim.cfg.enabledFlag)
    modifies sim, sim.store
    ensures room in sim.store.locks
    ensures room in sim.states && sim.states[room] == SimState(RandomInt(sim.cfg.min, sim.cfg.max, u), t)
  {
    sim.StopForMoment(room);
    sim.StartForMoment(room, t, u);
  }
}
