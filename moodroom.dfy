/** The mood-room record of both clients and its computed schedule
    properties: close time, today's occurrence and joinability.

    Dates are integer seconds since the epoch. The calendar the clients
    consult is a `Clock`: the current instant, the offset of local time
    from UTC (so that "today" and "the hour and minute of the start time"
    are computed in local time) and the full name of today's weekday as the
    calendar spells it (e.g. "Monday"). */
module MoodRooms {
  import opened Text
  import opened Arith

  /** The text colour a room is drawn with. The clients only ever tell white
      from everything else. */
  datatype Color = White | Black | Other(name: string)

  datatype MoodRoom = MoodRoom(
    id: string,
    name: string,
    schedule: string,        // e.g. "Every Mon, Tue at 17:30", "Once at 09:00", "Daily at 22:00"
    background: string,      // image asset name
    textColor: Color,
    startTime: int,          // seconds
    createdAt: int,          // seconds
    durationMinutes: int,
    sessionToken: Option<string>)

  datatype Clock = Clock(now: int, utcOffset: int, weekday: string)

  const SecondsPerDay: int := 86400

  /** Local midnight of the clock's day. */
  function DayStart(c: Clock): (d: int)
    ensures d <= c.now < d + SecondsPerDay
    ensures (d + c.utcOffset) % SecondsPerDay == 0
  {
    RoundDown(c.now + c.utcOffset, SecondsPerDay) - c.utcOffset
  }

  /** Seconds since local midnight. */
  function TimeOfDay(t: int, utcOffset: int): (s: int)
    ensures 0 <= s < SecondsPerDay
  {
    (t + utcOffset) % SecondsPerDay
  }

  /** `startTime + durationMinutes * 60`: a room with a duration closes
      after it starts. */
  function CloseTime(r: MoodRoom): (t: int)
    ensures r.durationMinutes >= 0 ==> r.startTime <= t
    ensures r.durationMinutes > 0 ==> r.startTime < t
  {
    r.startTime + r.durationMinutes * 60
  }

  /** The schedule, lowercased, starts with "once": its first four
      characters spell it in any letter case. */
  predicate IsOnce(schedule: string)
    ensures IsOnce(schedule) <==> |schedule| >= 4 && Lower(schedule[..4]) == "once"
  {
    LowerHasPrefix(schedule, "once");
    HasPrefix(Lower(schedule), "once")
  }

  /** The schedule, lowercased, starts with "every ". */
  predicate IsEvery(schedule: string)
    ensures IsEvery(schedule) <==> |schedule| >= 6 && Lower(schedule[..6]) == "every "
  {
    LowerHasPrefix(schedule, "every ");
    HasPrefix(Lower(schedule), "every ")
  }

  /** A once-off room starts at its start time; any other room starts today
      at the hour and minute of its start time, with zero seconds, so no
      later in the day than the start time itself. */
  function CurrentStartTime(r: MoodRoom, c: Clock): (t: int)
    ensures IsOnce(r.schedule) ==> t == r.startTime
    ensures !IsOnce(r.schedule) ==>
              DayStart(c) <= t <= DayStart(c) + TimeOfDay(r.startTime, c.utcOffset) < DayStart(c) + SecondsPerDay
    ensures !IsOnce(r.schedule) ==> DayStart(c) + TimeOfDay(r.startTime, c.utcOffset) - t < 60
  {
    if IsOnce(r.schedule) then r.startTime
    else DayStart(c) + (TimeOfDay(r.startTime, c.utcOffset) / 60) * 60
  }

  /** The close of the current occurrence: its start plus the duration. */
  function CurrentCloseTime(r: MoodRoom, c: Clock): (t: int)
    ensures IsOnce(r.schedule) ==> t == CloseTime(r)
    ensures r.durationMinutes >= 0 ==> CurrentStartTime(r, c) <= t
  {
    CurrentStartTime(r, c) + r.durationMinutes * 60
  }

  // ---------------------------------------------------------------------
  // The weekday filter of recurring schedules

  /** The text between the six characters of "Every " and the first " at ",
      or None without an " at ". When " at " starts before index 6 (as in
      "Every at 10:00") the days part is empty; see `DaysPartAsWritten`
      for what the clients do there. */
  function DaysPart(schedule: string): (r: Option<string>)
    ensures r.None? <==> IndexOf(schedule, " at ").None?
    ensures r.Some? && 6 <= IndexOf(schedule, " at ").value ==>
              schedule == schedule[..6] + r.value + schedule[IndexOf(schedule, " at ").value..]
  {
    match IndexOf(schedule, " at ")
    case None => None
    case Some(i) => Some(if 6 <= i then schedule[6..i] else [])
  }

  /** Each comma-separated piece, trimmed of spaces and tabs and lowercased. */
  function LowerTokens(pieces: seq<string>): (r: seq<string>)
    ensures |r| == |pieces|
    ensures forall k :: 0 <= k < |r| ==> r[k] == Lower(Trim(pieces[k], Whitespaces))
  {
    if pieces == [] then [] else [Lower(Trim(pieces[0], Whitespaces))] + LowerTokens(pieces[1..])
  }

  function DayTokens(days: string): seq<string> {
    LowerTokens(Split(days, ','))
  }

  /** A token names today when it starts with today's lowercased full name
      or with the first three letters of it. */
  predicate TokenMatches(token: string, weekday: string) {
    var full := Lower(weekday);
    var short := if |full| <= 3 then full else full[..3];
    HasPrefix(token, full) || HasPrefix(token, short)
  }

  predicate AnyMatches(tokens: seq<string>, weekday: string) {
    exists k :: 0 <= k < |tokens| && TokenMatches(tokens[k], weekday)
  }

  /** A recurring schedule that lists days, none of them today. Only an
      "every " schedule is ever excluded, so a once-off room never is. */
  predicate ExcludedToday(schedule: string, weekday: string)
    ensures ExcludedToday(schedule, weekday) ==> IsEvery(schedule) && !IsOnce(schedule)
  {
    && IsEvery(schedule)
    && (EveryIsNotOnce(schedule); DaysPart(schedule).Some?)
    && DayTokens(DaysPart(schedule).value) != []
    && !AnyMatches(DayTokens(DaysPart(schedule).value), weekday)
  }

  /** `isJoinable`: inside the once-off window, or, unless the weekday
      filter excludes today, inside today's window; both ends inclusive. */
  predicate IsJoinable(r: MoodRoom, c: Clock)
    ensures IsJoinable(r, c) ==> CurrentStartTime(r, c) <= c.now <= CurrentCloseTime(r, c)
    ensures IsJoinable(r, c) ==> !ExcludedToday(r.schedule, c.weekday)
  {
    if IsOnce(r.schedule) then r.startTime <= c.now <= CloseTime(r)
    else if ExcludedToday(r.schedule, c.weekday) then false
    else CurrentStartTime(r, c) <= c.now <= CurrentCloseTime(r, c)
  }

  // ---------------------------------------------------------------------
  // Properties

  /** A once-off room's occurrence is its own start and close. */
  lemma OnceOccurrence(r: MoodRoom, c: Clock)
    requires IsOnce(r.schedule)
    ensures CurrentStartTime(r, c) == r.startTime && CurrentCloseTime(r, c) == CloseTime(r)
    ensures CloseTime(r) - r.startTime == r.durationMinutes * 60
  {
  }

  /** Today's occurrence of a repeating room lasts the room's duration, lies
      in today, and starts at the hour and minute its start time has. */
  lemma {:induction false} RepeatingOccurrence(r: MoodRoom, c: Clock)
    requires !IsOnce(r.schedule)
    ensures CurrentCloseTime(r, c) - CurrentStartTime(r, c) == r.durationMinutes * 60
    ensures DayStart(c) <= CurrentStartTime(r, c) < DayStart(c) + SecondsPerDay
    ensures TimeOfDay(CurrentStartTime(r, c), c.utcOffset) == (TimeOfDay(r.startTime, c.utcOffset) / 60) * 60
    ensures TimeOfDay(CurrentStartTime(r, c), c.utcOffset) % 60 == 0
  {
    var m := TimeOfDay(r.startTime, c.utcOffset) / 60;
    var q := (DayStart(c) + c.utcOffset) / SecondsPerDay;
    DivModUnique(DayStart(c) + c.utcOffset, SecondsPerDay, q, 0);
    DivModUnique(CurrentStartTime(r, c) + c.utcOffset, SecondsPerDay, q, m * 60);
    DivModUnique(m * 60, 60, m, 0);
  }

  /** A once-off room can be joined exactly from its start to its close. */
  lemma OnceJoinable(r: MoodRoom, c: Clock)
    requires IsOnce(r.schedule)
    ensures IsJoinable(r, c) <==> r.startTime <= c.now <= CloseTime(r)
  {
  }

  /** A recurring room whose listed days do not include today cannot be
      joined, whatever the time. */
  lemma NotTodayNotJoinable(r: MoodRoom, c: Clock)
    requires IsEvery(r.schedule) && DaysPart(r.schedule).Some?
    requires DayTokens(DaysPart(r.schedule).value) != []
    requires forall k :: 0 <= k < |DayTokens(DaysPart(r.schedule).value)| ==>
               !TokenMatches(DayTokens(DaysPart(r.schedule).value)[k], c.weekday)
    ensures !IsJoinable(r, c)
  {
    EveryIsNotOnce(r.schedule);
  }

  lemma EveryIsNotOnce(s: string)
    requires IsEvery(s)
    ensures !IsOnce(s)
  {
    var l := Lower(s);
    assert l[0] == l[..6][0] == 'e';
    assert l[..4][0] == 'e';
  }

  /** In every other case the room can be joined exactly during today's
      occurrence. */
  lemma TodayJoinable(r: MoodRoom, c: Clock)
    requires !IsOnce(r.schedule) && !ExcludedToday(r.schedule, c.weekday)
    ensures IsJoinable(r, c) <==> CurrentStartTime(r, c) <= c.now <= CurrentCloseTime(r, c)
  {
  }

  /** A schedule that is neither once-off nor "every ..." (such as
      "Daily at 22:00") has no weekday filter at all. */
  lemma DailyHasNoWeekdayFilter(r: MoodRoom, c: Clock)
    requires !IsOnce(r.schedule) && !IsEvery(r.schedule)
    ensures IsJoinable(r, c) <==> CurrentStartTime(r, c) <= c.now <= CurrentCloseTime(r, c)
    ensures forall w :: IsJoinable(r, c) == IsJoinable(r, c.(weekday := w))
  {
  }

  /** A schedule whose days part holds no token (such as "Every  at 10:00")
      is not filtered by weekday either. */
  lemma NoTokensNoFilter(r: MoodRoom, c: Clock, w: string)
    requires !IsOnce(r.schedule)
    requires DaysPart(r.schedule).Some? ==> DayTokens(DaysPart(r.schedule).value) == []
    ensures IsJoinable(r, c) == IsJoinable(r, c.(weekday := w))
  {
  }

  /** A token beginning with today's three-letter abbreviation matches, in
      any letter case. */
  lemma {:induction false} ShortNameMatches(token: string, weekday: string)
    requires |weekday| >= 3 && |token| >= 3
    requires Lower(token[..3]) == Lower(weekday[..3])
    ensures TokenMatches(Lower(token), weekday)
  {
    LowerPrefix(token, 3);
    LowerPrefix(weekday, 3);
  }

  // ---------------------------------------------------------------------
  // The days slice as the clients write it

  datatype DaysSlice = NoAt | Slice(days: string) | Trap

  /** `schedule[schedule.index(startIndex, offsetBy: 6)..<range.lowerBound]`:
      a Swift range whose lower bound exceeds its upper bound is a runtime
      trap, which happens when " at " starts before index 6. */
  function DaysPartAsWritten(schedule: string): (r: DaysSlice)
    ensures r.NoAt? <==> IndexOf(schedule, " at ").None?
    ensures r.Trap? <==> IndexOf(schedule, " at ").Some? && IndexOf(schedule, " at ").value < 6
  {
    match IndexOf(schedule, " at ")
    case None => NoAt
    case Some(i) => if i < 6 then Trap else Slice(schedule[6..i])
  }

  /** "Every at 10:00" passes the "every " test and has " at " at index 5,
      so the clients trap on it. */
  lemma EveryAtTraps()
    ensures IsEvery("Every at 10:00")
    ensures DaysPartAsWritten("Every at 10:00") == Trap
  {
    EveryAtIsEvery();
    EveryAtIndex();
  }

  lemma EveryAtIsEvery()
    ensures IsEvery("Every at 10:00")
  {
    var s := "Every at 10:00";
    assert Lower(s)[..6] == "every ";
  }

  lemma EveryAtIndex()
    ensures IndexOf("Every at 10:00", " at ") == Some(5)
  {
    var s := "Every at 10:00";
    assert OccursAt(s, " at ", 5) by {
      assert s[5..9] == " at ";
    }
    forall j | 0 <= j < 5 ensures !OccursAt(s, " at ", j) {
      assert s[j] != ' ';
      assert s[j..j + 4][0] == s[j];
    }
    IndexOfFirst(s, " at ", 5);
  }

  /** Where the clients do not trap, the corrected days part is theirs; where
      they trap, it is empty, so such a room follows today's window like a
      schedule without days. */
  lemma DaysPartCorrected(schedule: string)
    ensures DaysPartAsWritten(schedule).Slice? ==> DaysPart(schedule) == Some(DaysPartAsWritten(schedule).days)
    ensures DaysPartAsWritten(schedule).NoAt? ==> DaysPart(schedule) == None
    ensures DaysPartAsWritten(schedule).Trap? ==> DaysPart(schedule) == Some([]) && DayTokens([]) == []
  {
  }
}
