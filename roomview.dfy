/** The two time computations of the full-screen mood room: the line that
    says how much time is left, refreshed once a minute, and the decision,
    when the room appears, to close it at once or after the remaining
    time. `remaining` is the room's current close time minus the clock
    reading, in whole seconds. */
module RoomView {
  import opened Text
  import opened DurationText
  import opened MoodRooms
  import CreateMoodRoom

  /** `remainingTimeText`: the under-a-minute line exactly when less than a
      minute is left, and otherwise a line that starts with a number. */
  function RemainingTimeText(remaining: int): (t: string)
    ensures HasSuffix(t, " left")
    ensures t == "Less than 1 minute left" <==> remaining < 60
    ensures remaining >= 60 ==> IsDigit(t[0])
  {
    if remaining <= 0 then
      AppendSuffix("Less than 1 minute", " left");
      "Less than 1 minute left"
    else if remaining < 60 then
      AppendSuffix("Less than 1 minute", " left");
      "Less than 1 minute left"
    else
      var minutes := TruncDiv(remaining, 60);
      var hours := TruncDiv(minutes, 60);
      var mins := TruncMod(minutes, 60);
      var head :=
        if hours > 0 then
          if mins > 0 then IntToString(hours) + "h " + IntToString(mins) + "min"
          else IntToString(hours) + "h"
        else IntToString(mins) + "min";
      assert IsDigit(head[0]);
      AppendSuffix(head, " left");
      head + " left"
  }

  /** Under a minute, including a close time already passed, the line says
      so; from one minute on it uses the duration picker's wording for the
      whole minutes left. */
  lemma RemainingUsesLabels(remaining: int)
    ensures remaining < 60 ==> RemainingTimeText(remaining) == "Less than 1 minute left"
    ensures remaining >= 60 ==> RemainingTimeText(remaining) == CreateMoodRoom.DurationLabel(remaining / 60) + " left"
  {
    if remaining >= 60 {
      var minutes := remaining / 60;
      var hours, mins := minutes / 60, minutes % 60;
      assert TruncDiv(remaining, 60) == minutes;
      assert TruncDiv(minutes, 60) == hours && TruncMod(minutes, 60) == mins;
      assert IntToString(hours) == NatToString(hours) && IntToString(mins) == NatToString(mins);
    }
  }

  /** The line, with " left" taken off, reads back as the whole minutes
      remaining, and never as zero. */
  lemma RemainingReadsBack(remaining: int)
    requires remaining >= 60
    ensures var t := RemainingTimeText(remaining);
      HasSuffix(t, " left") && ReadDuration(t[..|t| - 5]) == Some(remaining / 60) && remaining / 60 >= 1
  {
    var shown := CreateMoodRoom.DurationLabel(remaining / 60);
    RemainingUsesLabels(remaining);
    CreateMoodRoom.DurationLabelReadsBack(remaining / 60);
    var t := shown + " left";
    assert t[..|t| - 5] == shown;
  }

  /** The time-left line of a room at a given clock reading. */
  function TimeLeftText(r: MoodRoom, c: Clock): (t: string)
    ensures t == "Less than 1 minute left" <==> c.now > CurrentCloseTime(r, c) - 60
  {
    RemainingTimeText(CurrentCloseTime(r, c) - c.now)
  }

  /** Opened exactly at its start, a room shows its whole length, worded as
      the picker offered it. */
  lemma OpenedAtStart(r: MoodRoom, c: Clock)
    requires c.now == CurrentStartTime(r, c) && r.durationMinutes >= 1
    ensures TimeLeftText(r, c) == CreateMoodRoom.DurationLabel(r.durationMinutes) + " left"
  {
    var remaining := r.durationMinutes * 60;
    assert CurrentCloseTime(r, c) - c.now == remaining;
    assert remaining / 60 == r.durationMinutes;
    RemainingUsesLabels(remaining);
  }

  /** What `scheduleClose` does when the room appears. */
  datatype CloseAction = DismissNow | DismissAfter(delay: int)

  function ScheduleClose(closeTime: int, now: int): (a: CloseAction)
    ensures a.DismissNow? <==> closeTime <= now
    ensures a.DismissAfter? ==> a.delay > 0 && now + a.delay == closeTime
  {
    var remaining := closeTime - now;
    if remaining > 0 then DismissAfter(remaining) else DismissNow
  }

  /** A room closed at once shows the under-a-minute line; a room opened at
      its start closes after exactly its length. */
  lemma CloseAgreesWithText(r: MoodRoom, c: Clock)
    ensures ScheduleClose(CurrentCloseTime(r, c), c.now).DismissNow? ==>
      TimeLeftText(r, c) == "Less than 1 minute left"
    ensures c.now == CurrentStartTime(r, c) && r.durationMinutes >= 1 ==>
      ScheduleClose(CurrentCloseTime(r, c), c.now) == DismissAfter(r.durationMinutes * 60)
  {
  }
}
