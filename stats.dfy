/** Usage statistics kept on the device: total time spent in moments, time
    spent in mood rooms per kind of room, and how many moments and mood
    rooms were created. A session's length is the difference between the
    clock readings at its start and its end; the clock is passed in as
    `now`. The persisted copy in the user defaults is the field `saved`,
    written after every change; `Restored` is what the next launch reads
    back from it. */
module Stats {
  import opened Text
  import CreateMoodRoom

  // ---------------------------------------------------------------------
  // Keys and accumulation

  /** A schedule counts as recurring when, lower-cased, it mentions "every"
      or "daily" anywhere. */
  predicate IsRecurring(schedule: string)
    ensures IsRecurring(schedule) <==>
      exists i :: OccursAt(Lower(schedule), "every", i) || OccursAt(Lower(schedule), "daily", i)
  {
    ContainsIff(Lower(schedule), "every");
    ContainsIff(Lower(schedule), "daily");
    Contains(Lower(schedule), "every") || Contains(Lower(schedule), "daily")
  }

  /** The kind part of a key; it holds no dash. */
  function Kind(schedule: string): (k: string)
    ensures k == "recurring" <==> IsRecurring(schedule)
    ensures k == "recurring" || k == "once"
    ensures '-' !in k
  {
    if IsRecurring(schedule) then "recurring" else "once"
  }

  /** The key a mood-room session is accumulated under: the background
      name, a dash, and the kind of schedule. */
  function MoodKey(background: string, schedule: string): (k: string)
    ensures |k| > |background| && k[..|background|] == background && k[|background|] == '-'
    ensures k[|background| + 1..] == Kind(schedule)
  {
    background + "-" + Kind(schedule)
  }

  /** A dictionary value read with a default of 0. */
  function TimeOf(m: map<string, int>, key: string): int {
    if key in m then m[key] else 0
  }

  /** `dict[key, default: 0] += delta` */
  function Accumulated(m: map<string, int>, key: string, delta: int): (r: map<string, int>)
    ensures key in r && TimeOf(r, key) == TimeOf(m, key) + delta
    ensures r.Keys == m.Keys + {key}
    ensures forall other :: other != key ==> TimeOf(r, other) == TimeOf(m, other)
  {
    m[key := TimeOf(m, key) + delta]
  }

  /** The totals do not depend on the order in which two sessions end. */
  lemma AccumulateCommutes(m: map<string, int>, k1: string, d1: int, k2: string, d2: int)
    ensures Accumulated(Accumulated(m, k1, d1), k2, d2) == Accumulated(Accumulated(m, k2, d2), k1, d1)
  {
    var a := Accumulated(Accumulated(m, k1, d1), k2, d2);
    var b := Accumulated(Accumulated(m, k2, d2), k1, d1);
    assert a.Keys == b.Keys;
    forall k | k in a.Keys ensures a[k] == b[k] {
      assert a[k] == TimeOf(a, k) && b[k] == TimeOf(b, k);
    }
  }

  /** A schedule written by the mood-room editor for a repeating room is
      counted as recurring. */
  lemma WrittenRecurringIsRecurring(days: set<int>, t: string)
    requires CreateMoodRoom.ValidDays(days)
    ensures IsRecurring(CreateMoodRoom.FormatSchedule(true, days, t))
  {
    EveryAtIsRecurring(Join(CreateMoodRoom.DayNames(CreateMoodRoom.Sorted(days)), ", "), t);
  }

  lemma EveryAtIsRecurring(names: string, t: string)
    ensures IsRecurring("Every " + names + " at " + t)
  {
    var head := "Every " + names;
    var s := head + " at " + t;
    forall k | 0 <= k < 6 ensures s[k] == "Every "[k] {
      assert s[k] == head[k];
    }
    assert s[..6] == "Every ";
    EveryIsRecurring(s);
  }

  /** Any schedule that starts with "Every " is recurring. */
  lemma EveryIsRecurring(s: string)
    requires |s| >= 6 && s[..6] == "Every "
    ensures IsRecurring(s)
  {
    assert Lower(s)[0..5] == "every" by {
      forall k | 0 <= k < 5 ensures Lower(s)[k] == "every"[k] {
        assert s[k] == s[..6][k];
      }
    }
    assert OccursAt(Lower(s), "every", 0);
    ContainsIff(Lower(s), "every");
  }

  // ---------------------------------------------------------------------
  // The persisted copy

  /** What the user defaults hold under the four keys; `None` when a key
      was never written. */
  datatype Saved = Saved(
    timeInMoments: Option<int>,
    timeInMoodRooms: Option<map<string, int>>,
    momentsCreated: Option<int>,
    moodRoomsCreated: Option<int>)

  /** `double(forKey:)` and `integer(forKey:)` read a missing key as 0. */
  function OrZero(v: Option<int>): (r: int)
    ensures v.None? ==> r == 0
    ensures v.Some? ==> r == v.value
  {
    if v.Some? then v.value else 0
  }

  /** The dictionary read falls back to an empty one. */
  function OrEmpty(v: Option<map<string, int>>): (r: map<string, int>)
    ensures v.None? ==> r == map[]
    ensures v.Some? ==> r == v.value
  {
    if v.Some? then v.value else map[]
  }

  class Tracker {
    var timeInMoments: int
    var timeInMoodRooms: map<string, int>
    var momentsCreated: int
    var moodRoomsCreated: int
    var momentStart: Option<int>
    var moodStart: Option<int>
    var currentMoodKey: Option<string>
    var saved: Saved

    /** The counters agree with what a fresh launch would read back. */
    predicate Restored()
      reads this
    {
      && timeInMoments == OrZero(saved.timeInMoments)
      && timeInMoodRooms == OrEmpty(saved.timeInMoodRooms)
      && momentsCreated == OrZero(saved.momentsCreated)
      && moodRoomsCreated == OrZero(saved.moodRoomsCreated)
    }

    /** Loads the four counters; no session is open. */
    constructor (stored: Saved)
      ensures saved == stored && Restored()
      ensures momentStart.None? && moodStart.None? && currentMoodKey.None?
    {
      timeInMoments := OrZero(stored.timeInMoments);
      timeInMoodRooms := OrEmpty(stored.timeInMoodRooms);
      momentsCreated := OrZero(stored.momentsCreated);
      moodRoomsCreated := OrZero(stored.moodRoomsCreated);
      momentStart, moodStart, currentMoodKey := None, None, None;
      saved := stored;
    }

    method StartMoment(now: int)
      modifies this
      ensures momentStart == Some(now)
      ensures timeInMoments == old(timeInMoments) && timeInMoodRooms == old(timeInMoodRooms)
      ensures momentsCreated == old(momentsCreated) && moodRoomsCreated == old(moodRoomsCreated)
      ensures moodStart == old(moodStart) && currentMoodKey == old(currentMoodKey) && saved == old(saved)
    {
      momentStart := Some(now);
    }

    /** Without an open moment nothing changes; otherwise the elapsed time
        is added, saved, and the moment closed. */
    method EndMoment(now: int)
      requires Restored()
      modifies this
      ensures Restored()
      ensures old(momentStart).None? ==> timeInMoments == old(timeInMoments) && saved == old(saved)
      ensures old(momentStart).Some? ==> timeInMoments == old(timeInMoments) + (now - old(momentStart).value)
      ensures old(momentStart).Some? ==> saved == old(saved).(timeInMoments := Some(timeInMoments))
      ensures momentStart.None?
      ensures timeInMoodRooms == old(timeInMoodRooms)
      ensures momentsCreated == old(momentsCreated) && moodRoomsCreated == old(moodRoomsCreated)
      ensures moodStart == old(moodStart) && currentMoodKey == old(currentMoodKey)
    {
      if momentStart.None? {
        return;
      }
      var delta := now - momentStart.value;
      timeInMoments := timeInMoments + delta;
      saved := saved.(timeInMoments := Some(timeInMoments));
      momentStart := None;
    }

    method StartMoodRoom(background: string, schedule: string, now: int)
      modifies this
      ensures moodStart == Some(now) && currentMoodKey == Some(MoodKey(background, schedule))
      ensures timeInMoments == old(timeInMoments) && timeInMoodRooms == old(timeInMoodRooms)
      ensures momentsCreated == old(momentsCreated) && moodRoomsCreated == old(moodRoomsCreated)
      ensures momentStart == old(momentStart) && saved == old(saved)
    {
      moodStart := Some(now);
      currentMoodKey := Some(background + "-" + Kind(schedule));
    }

    /** Needs both a start time and a key; adds the elapsed time to that
        key (starting from 0) and leaves every other key alone. */
    method EndMoodRoom(now: int)
      requires Restored()
      modifies this
      ensures Restored()
      ensures (old(moodStart).None? || old(currentMoodKey).None?) ==>
        timeInMoodRooms == old(timeInMoodRooms) && saved == old(saved)
          && moodStart == old(moodStart) && currentMoodKey == old(currentMoodKey)
      ensures (old(moodStart).Some? && old(currentMoodKey).Some?) ==>
        timeInMoodRooms == Accumulated(old(timeInMoodRooms), old(currentMoodKey).value, now - old(moodStart).value)
          && moodStart.None? && currentMoodKey.None?
          && saved == old(saved).(timeInMoodRooms := Some(timeInMoodRooms))
      ensures timeInMoments == old(timeInMoments)
      ensures momentsCreated == old(momentsCreated) && moodRoomsCreated == old(moodRoomsCreated)
      ensures momentStart == old(momentStart)
    {
      if moodStart.None? || currentMoodKey.None? {
        return;
      }
      var delta := now - moodStart.value;
      var key := currentMoodKey.value;
      var dict := timeInMoodRooms;
      dict := dict[key := TimeOf(dict, key) + delta];
      timeInMoodRooms := dict;
      saved := saved.(timeInMoodRooms := Some(dict));
      moodStart := None;
      currentMoodKey := None;
    }

    method RecordMomentCreated()
      requires Restored()
      modifies this
      ensures Restored()
      ensures momentsCreated == old(momentsCreated) + 1
      ensures saved == old(saved).(momentsCreated := Some(momentsCreated))
      ensures timeInMoments == old(timeInMoments) && timeInMoodRooms == old(timeInMoodRooms)
      ensures moodRoomsCreated == old(moodRoomsCreated)
      ensures momentStart == old(momentStart) && moodStart == old(moodStart) && currentMoodKey == old(currentMoodKey)
    {
      momentsCreated := momentsCreated + 1;
      saved := saved.(momentsCreated := Some(momentsCreated));
    }

    method RecordMoodRoomCreated()
      requires Restored()
      modifies this
      ensures Restored()
      ensures moodRoomsCreated == old(moodRoomsCreated) + 1
      ensures saved == old(saved).(moodRoomsCreated := Some(moodRoomsCreated))
      ensures timeInMoments == old(timeInMoments) && timeInMoodRooms == old(timeInMoodRooms)
      ensures momentsCreated == old(momentsCreated)
      ensures momentStart == old(momentStart) && moodStart == old(moodStart) && currentMoodKey == old(currentMoodKey)
    {
      moodRoomsCreated := moodRoomsCreated + 1;
      saved := saved.(moodRoomsCreated := Some(moodRoomsCreated));
    }
  }

  /** Ending a moment twice counts its time once. */
  method MomentCountedOnce(t: Tracker, start: int, end: int, later: int)
    requires t.Restored()
    modifies t
    ensures t.Restored()
    ensures t.timeInMoments == old(t.timeInMoments) + (end - start)
  {
    t.StartMoment(start);
    t.EndMoment(end);
    t.EndMoment(later);
  }

  /** A mood-room session is credited to its own key only, once, and a new
      launch reads the same totals back. */
  method MoodRoomSession(t: Tracker, background: string, schedule: string, start: int, end: int, later: int)
    returns (relaunched: Tracker)
    requires t.Restored()
    modifies t
    ensures t.Restored()
    ensures t.timeInMoodRooms == Accumulated(old(t.timeInMoodRooms), MoodKey(background, schedule), end - start)
    ensures relaunched.timeInMoodRooms == t.timeInMoodRooms && relaunched.timeInMoments == t.timeInMoments
  {
    t.StartMoodRoom(background, schedule, start);
    t.EndMoodRoom(end);
    t.EndMoodRoom(later);
    relaunched := new Tracker(t.saved);
  }
}
