/** The mood-room editor: the constants it offers, how it writes a schedule
    string from its recurring flag, selected weekdays and "HH:mm" time, how
    it reads those back when it opens an existing room, the duration picker
    labels, and the form state its controls update in place. */
module CreateMoodRoom {
  import opened Text
  import opened MoodRooms
  import opened DurationText

  const MaxNameLength: nat := 100
  const Backgrounds: seq<string> := ["MoodRoomHappy", "MoodRoomNight", "MoodRoomNature", "MoodRoomSad"]
  /** The weekday buttons; index 0 is Monday. */
  const Weekdays: seq<string> := ["Mon", "Tue", "Wed", "Thu", "Fri", "Sat", "Sun"]

  predicate ValidDays(days: set<int>) {
    forall d :: d in days ==> 0 <= d < 7
  }

  // ---------------------------------------------------------------------
  // Writing a schedule

  /** `selectedWeekdays.sorted()`, restricted to the days from `from` on. */
  function SortedFrom(days: set<int>, from: nat): (r: seq<int>)
    requires from <= 7
    decreases 7 - from
    ensures forall k :: 0 <= k < |r| ==> from <= r[k] < 7 && r[k] in days
    ensures forall k, l :: 0 <= k < l < |r| ==> r[k] < r[l]
    ensures forall d :: d in days && from <= d < 7 ==> d in r
  {
    if from == 7 then [] else (if from in days then [from] else []) + SortedFrom(days, from + 1)
  }

  function Sorted(days: set<int>): seq<int> {
    SortedFrom(days, 0)
  }

  function DayNames(ds: seq<int>): (r: seq<string>)
    requires forall k :: 0 <= k < |ds| ==> 0 <= ds[k] < 7
    ensures |r| == |ds|
    ensures forall k :: 0 <= k < |r| ==> r[k] == Weekdays[ds[k]]
  {
    if ds == [] then [] else [Weekdays[ds[0]]] + DayNames(ds[1..])
  }

  /** "Every " + the sorted day names joined by ", " + " at " + time, or
      "Once at " + time. */
  function FormatSchedule(recurring: bool, days: set<int>, timeString: string): (s: string)
    requires ValidDays(days)
    ensures recurring <==> HasPrefix(s, "Every ")
    ensures !recurring ==> HasPrefix(s, "Once at ")
    ensures HasSuffix(s, " at " + timeString)
  {
    if recurring then
      var names := Join(DayNames(Sorted(days)), ", ");
      EveryShape(names, timeString);
      "Every " + names + " at " + timeString
    else
      OnceShape(timeString);
      "Once at " + timeString
  }

  lemma EveryShape(names: string, t: string)
    ensures HasPrefix("Every " + names + " at " + t, "Every ")
    ensures HasSuffix("Every " + names + " at " + t, " at " + t)
  {
    var s := "Every " + names + " at " + t;
    assert s == "Every " + (names + " at " + t);
    AppendPrefix("Every ", names + " at " + t);
    assert s == ("Every " + names) + (" at " + t);
    AppendSuffix("Every " + names, " at " + t);
  }

  lemma OnceShape(t: string)
    ensures HasPrefix("Once at " + t, "Once at ") && !HasPrefix("Once at " + t, "Every ")
    ensures HasSuffix("Once at " + t, " at " + t)
  {
    AppendPrefix("Once at ", t);
    assert "Once at " + t == "Once" + (" at " + t);
    AppendSuffix("Once", " at " + t);
    assert ("Once at " + t)[0] == 'O';
  }

  // ---------------------------------------------------------------------
  // Reading a schedule back

  /** What the editor recovers from a room's schedule; no time string means
      the editor keeps the room's start time. */
  datatype ParsedSchedule = ParsedSchedule(recurring: bool, days: set<int>, timeString: Option<string>)

  function TrimAll(pieces: seq<string>): (r: seq<string>)
    ensures |r| == |pieces|
    ensures forall k :: 0 <= k < |r| ==> r[k] == Trim(pieces[k], Whitespaces)
  {
    seq(|pieces|, k requires 0 <= k < |pieces| => Trim(pieces[k], Whitespaces))
  }

  /** `compactMap { weekdays.firstIndex(of:) }`: unknown names are dropped. */
  function KnownIndices(tokens: seq<string>): (r: seq<nat>)
    ensures forall i :: i in r ==> i < 7
  {
    if tokens == [] then []
    else
      var rest := KnownIndices(tokens[1..]);
      match FirstIndex(Weekdays, tokens[0])
      case None => rest
      case Some(i) => [i] + rest
  }

  /** Every index kept is that of a weekday name among the tokens. */
  lemma {:induction false} KnownIndicesSound(tokens: seq<string>)
    ensures forall i :: i in KnownIndices(tokens) ==> Weekdays[i] in tokens
  {
    if tokens != [] {
      KnownIndicesSound(tokens[1..]);
      assert forall x :: x in tokens[1..] ==> x in tokens;
    }
  }

  /** Every weekday name among the tokens gives its index. */
  lemma {:induction false} KnownIndicesComplete(tokens: seq<string>)
    ensures forall k :: 0 <= k < |tokens| && FirstIndex(Weekdays, tokens[k]).Some? ==> FirstIndex(Weekdays, tokens[k]).value in KnownIndices(tokens)
  {
    if tokens != [] {
      KnownIndicesComplete(tokens[1..]);
      KnownIndicesCons(tokens);
      forall k | 1 <= k < |tokens| && FirstIndex(Weekdays, tokens[k]).Some?
        ensures FirstIndex(Weekdays, tokens[k]).value in KnownIndices(tokens)
      {
        assert tokens[k] == tokens[1..][k - 1];
      }
    }
  }

  /** One step of `compactMap`: the head's index, if any, and every index
      of the tail are kept. */
  lemma KnownIndicesCons(tokens: seq<string>)
    requires tokens != []
    ensures forall i :: i in KnownIndices(tokens[1..]) ==> i in KnownIndices(tokens)
    ensures FirstIndex(Weekdays, tokens[0]).Some? ==> FirstIndex(Weekdays, tokens[0]).value in KnownIndices(tokens)
  {
    var rest := KnownIndices(tokens[1..]);
    match FirstIndex(Weekdays, tokens[0])
    case None =>
      assert KnownIndices(tokens) == rest;
    case Some(i) =>
      assert KnownIndices(tokens) == [i] + rest;
  }

  function IndexSet(xs: seq<nat>): set<int> {
    set i | i in xs
  }

  /** The schedule part of the editor's initialiser: "Every " (exactly that
      case) makes the room recurring, and the comma-separated, trimmed names
      before " at " that are weekday names give the selected days. */
  function ParseSchedule(schedule: string): (r: ParsedSchedule)
    ensures r.recurring <==> HasPrefix(schedule, "Every ")
    ensures ValidDays(r.days)
    ensures r.days != {} ==> r.timeString.Some?
    ensures r.timeString.Some? <==> r.recurring && IndexOf(schedule, " at ").Some?
    ensures r.timeString.Some? ==> HasSuffix(schedule, " at " + r.timeString.value)
  {
    if !HasPrefix(schedule, "Every ") then ParsedSchedule(false, {}, None)
    else match IndexOf(schedule, " at ")
      case None => ParsedSchedule(true, {}, None)
      case Some(i) =>
        var names := TrimAll(Split(DaysPart(schedule).value, ','));
        TailAfter(schedule, " at ", i);
        ParsedSchedule(true, IndexSet(KnownIndices(names)), Some(schedule[i + 4..]))
  }

  /** The text after an occurrence of `pat` is a suffix that `pat` precedes. */
  lemma TailAfter(s: string, pat: string, i: nat)
    requires OccursAt(s, pat, i)
    ensures HasSuffix(s, pat + s[i + |pat|..])
  {
    assert s[i..] == pat + s[i + |pat|..];
  }

  // ---------------------------------------------------------------------
  // The round trip

  lemma WeekdayFacts(x: string)
    requires x in Weekdays
    ensures |x| == 3 && ' ' !in x && ',' !in x && x[0] != 'a'
    ensures !InClass(x[0], Whitespaces) && !InClass(x[2], Whitespaces)
  {
  }

  lemma WeekdaysDistinct(i: nat, j: nat)
    requires i < 7 && j < 7 && Weekdays[i] == Weekdays[j]
    ensures i == j
  {
  }

  /** Every space of `j` is followed by a character other than 'a'. */
  predicate SpacesSafe(j: string) {
    forall k :: 0 <= k < |j| && j[k] == ' ' ==> k + 1 < |j| && j[k + 1] != 'a'
  }

  lemma {:induction false} JoinHead(xs: seq<string>, sep: string)
    requires |xs| > 0 && xs[0] != []
    ensures Join(xs, sep) != [] && Join(xs, sep)[0] == xs[0][0]
  {
  }

  lemma {:induction false} JoinedNamesSafe(names: seq<string>)
    requires forall k :: 0 <= k < |names| ==> names[k] in Weekdays
    ensures SpacesSafe(Join(names, ", "))
    ensures Join(names, ", ") != [] ==> Join(names, ", ")[0] != 'a'
    decreases |names|
  {
    if |names| == 1 {
      WeekdayFacts(names[0]);
    } else if |names| > 1 {
      var rest := Join(names[1..], ", ");
      JoinedNamesSafe(names[1..]);
      WeekdayFacts(names[0]);
      WeekdayFacts(names[1]);
      JoinHead(names[1..], ", ");
      var j := Join(names, ", ");
      assert j == names[0] + ", " + rest;
      forall k | 0 <= k < |j| && j[k] == ' '
        ensures k + 1 < |j| && j[k + 1] != 'a'
      {
        if k >= 5 {
          assert j[k] == rest[k - 5];
          assert j[k + 1] == rest[k - 4];
        } else {
          assert k == 4;
          assert j[5] == rest[0];
        }
      }
    }
  }

  /** Where " at " cannot start: not on a non-space, nor on a space
      followed by anything but 'a'. */
  lemma NotAt(s: string, j: nat)
    requires j + 1 < |s| && (s[j] != ' ' || s[j + 1] != 'a')
    ensures !OccursAt(s, " at ", j)
  {
    assert j + 4 <= |s| ==> s[j..j + 4][0] == s[j] && s[j..j + 4][1] == s[j + 1];
  }

  /** In a written recurring schedule the first " at " is the one after the days. */
  lemma FirstAt(j: string, t: string)
    requires SpacesSafe(j) && (j != [] ==> j[0] != 'a')
    ensures IndexOf("Every " + j + " at " + t, " at ") == Some(6 + |j|)
  {
    var s := "Every " + j + " at " + t;
    forall i | 0 <= i < 6 + |j| ensures !OccursAt(s, " at ", i) {
      if i < 5 {
        assert s[i] == "Every"[i];
        assert "Every"[i] in "Every";
        NotAt(s, i);
      } else if i == 5 {
        assert s[6] == if j == [] then ' ' else j[0];
        NotAt(s, i);
      } else {
        assert s[i] == j[i - 6];
        assert s[i + 1] == if i + 1 < 6 + |j| then j[i - 5] else ' ';
        NotAt(s, i);
      }
    }
    assert s[6 + |j|..10 + |j|] == " at ";
    IndexOfFirst(s, " at ", 6 + |j|);
  }

  /** Every piece but the first, with a leading space. */
  function AllSpaced(ys: seq<string>): (r: seq<string>)
    ensures |r| == |ys| && forall k :: 0 <= k < |r| ==> r[k] == " " + ys[k]
  {
    seq(|ys|, k requires 0 <= k < |ys| => " " + ys[k])
  }

  function Spaced(xs: seq<string>): (r: seq<string>)
    ensures |r| == |xs|
    ensures forall k :: 0 <= k < |r| ==> r[k] == if k == 0 then xs[0] else " " + xs[k]
  {
    if xs == [] then [] else [xs[0]] + AllSpaced(xs[1..])
  }

  lemma {:induction false} JoinAllSpaced(ys: seq<string>)
    requires |ys| > 0
    ensures Join(AllSpaced(ys), ",") == " " + Join(ys, ", ")
    decreases |ys|
  {
    if |ys| > 1 {
      JoinAllSpaced(ys[1..]);
      assert AllSpaced(ys)[1..] == AllSpaced(ys[1..]);
    }
  }

  /** Joining with ", " is joining with "," after prefixing every piece but
      the first with a space. */
  lemma JoinSpaced(xs: seq<string>)
    ensures Join(xs, ", ") == Join(Spaced(xs), ",")
  {
    if |xs| > 1 {
      JoinAllSpaced(xs[1..]);
      assert Spaced(xs)[1..] == AllSpaced(xs[1..]);
    }
  }

  /** Splitting the joined names and trimming each piece gives the names. */
  lemma SplitTrimNames(names: seq<string>)
    requires forall k :: 0 <= k < |names| ==> names[k] in Weekdays
    ensures TrimAll(Split(Join(names, ", "), ',')) == names
  {
    JoinSpaced(names);
    SpacedPieces(names);
    SplitJoin(Spaced(names), ',');
    TrimSpaced(names);
  }

  lemma SpacedPieces(names: seq<string>)
    requires forall k :: 0 <= k < |names| ==> names[k] in Weekdays
    ensures forall k :: 0 <= k < |Spaced(names)| ==> Spaced(names)[k] != [] && ',' !in Spaced(names)[k]
  {
    var pieces := Spaced(names);
    forall k | 0 <= k < |pieces| ensures pieces[k] != [] && ',' !in pieces[k] {
      WeekdayFacts(names[k]);
      if k > 0 {
        assert pieces[k] == " " + names[k];
      }
    }
  }

  /** One piece of the split list, with or without its leading space,
      trims to its name. */
  lemma TrimPiece(piece: string, name: string)
    requires name in Weekdays
    requires piece == name || piece == " " + name
    ensures Trim(piece, Whitespaces) == name
  {
    WeekdayFacts(name);
    if piece == name {
      TrimNoop(name, Whitespaces);
    } else {
      TrimLeading(" ", name, Whitespaces);
    }
  }

  lemma TrimSpaced(names: seq<string>)
    requires forall k :: 0 <= k < |names| ==> names[k] in Weekdays
    ensures TrimAll(Spaced(names)) == names
  {
    var pieces := Spaced(names);
    var r := TrimAll(pieces);
    forall k | 0 <= k < |names| ensures r[k] == names[k] {
      TrimPiece(pieces[k], names[k]);
    }
  }

  /** Every index read back from the written names was selected. */
  lemma IndicesOfNamesSelected(days: set<int>)
    requires ValidDays(days)
    ensures IndexSet(KnownIndices(DayNames(Sorted(days)))) <= days
  {
    var ds := Sorted(days);
    var names := DayNames(ds);
    var r := KnownIndices(names);
    KnownIndicesSound(names);
    forall i | i in IndexSet(r) ensures i in days {
      assert i in r;
      assert Weekdays[i] in names;
      var k :| 0 <= k < |names| && names[k] == Weekdays[i];
      assert names[k] == Weekdays[ds[k]];
      WeekdaysDistinct(i, ds[k]);
    }
  }

  /** Every selected index is read back from the written names. */
  lemma IndicesOfNamesFound(days: set<int>)
    requires ValidDays(days)
    ensures days <= IndexSet(KnownIndices(DayNames(Sorted(days))))
  {
    var ds := Sorted(days);
    var names := DayNames(ds);
    var r := KnownIndices(names);
    KnownIndicesComplete(names);
    forall d | d in days ensures d in IndexSet(r) {
      assert d in ds;
      var k :| 0 <= k < |ds| && ds[k] == d;
      assert names[k] == Weekdays[d];
      var v := FirstIndex(Weekdays, names[k]).value;
      assert v in r;
      WeekdaysDistinct(v, d);
    }
  }

  /** The weekday indices named by the days' names are the days. */
  lemma IndicesOfNames(days: set<int>)
    requires ValidDays(days)
    ensures IndexSet(KnownIndices(DayNames(Sorted(days)))) == days
  {
    IndicesOfNamesSelected(days);
    IndicesOfNamesFound(days);
  }

  /** Reading a written recurring schedule gives back the recurring flag,
      exactly the selected weekdays (none included) and the time string. */
  lemma FormatParseRoundTrip(days: set<int>, t: string)
    requires ValidDays(days)
    ensures ParseSchedule(FormatSchedule(true, days, t)) == ParsedSchedule(true, days, Some(t))
  {
    var names := DayNames(Sorted(days));
    FormattedParts(names, t);
    SplitTrimNames(names);
    IndicesOfNames(days);
  }

  /** Where a written recurring schedule has its prefix, days and time. */
  lemma FormattedParts(names: seq<string>, t: string)
    requires forall k :: 0 <= k < |names| ==> names[k] in Weekdays
    ensures var s := "Every " + Join(names, ", ") + " at " + t;
      && HasPrefix(s, "Every ")
      && IndexOf(s, " at ") == Some(6 + |Join(names, ", ")|)
      && DaysPart(s) == Some(Join(names, ", "))
      && s[6 + |Join(names, ", ")| + 4..] == t
  {
    var j := Join(names, ", ");
    var s := "Every " + j + " at " + t;
    JoinedNamesSafe(names);
    FirstAt(j, t);
    assert s[..6] == "Every ";
    assert s[6..6 + |j|] == j;
    assert s[6 + |j| + 4..] == t;
  }

  /** A written once-off schedule reads back as not recurring. */
  lemma OnceParsesOnce(days: set<int>, t: string)
    requires ValidDays(days)
    ensures ParseSchedule(FormatSchedule(false, days, t)) == ParsedSchedule(false, {}, None)
  {
    assert FormatSchedule(false, days, t)[1] == 'n';
  }

  // ---------------------------------------------------------------------
  // Duration picker, background lookup, create guard

  /** The picker's values: 15 to 180 minutes in steps of 15. */
  function DurationOptions(): (r: seq<int>)
    ensures |r| == 12 && forall k :: 0 <= k < 12 ==> r[k] == 15 * (k + 1)
  {
    seq(12, k requires 0 <= k < 12 => 15 * (k + 1))
  }

  /** The picker's label for a length: from an hour on it starts with the
      hours, and it ends with the minutes past the hour unless there are
      none. */
  function DurationLabel(minutes: nat): (r: string)
    ensures minutes >= 60 ==> HasPrefix(r, NatToString(minutes / 60) + "h")
    ensures minutes % 60 != 0 || minutes == 0 ==> HasSuffix(r, NatToString(minutes % 60) + "min")
  {
    var hours := minutes / 60;
    var mins := minutes % 60;
    if hours > 0 then
      if mins == 0 then NatToString(hours) + "h"
      else
        AppendPrefix(NatToString(hours) + "h", " " + NatToString(mins) + "min");
        assert NatToString(hours) + "h" + (" " + NatToString(mins) + "min") ==
               NatToString(hours) + "h " + NatToString(mins) + "min";
        AppendSuffix(NatToString(hours) + "h ", NatToString(mins) + "min");
        NatToString(hours) + "h " + NatToString(mins) + "min"
    else NatToString(mins) + "min"
  }

  /** The labels of the picker, in order. */
  lemma DurationLabels()
    ensures DurationLabel(15) == "15min" && DurationLabel(30) == "30min" && DurationLabel(45) == "45min"
    ensures DurationLabel(60) == "1h" && DurationLabel(75) == "1h 15min" && DurationLabel(90) == "1h 30min"
    ensures DurationLabel(105) == "1h 45min" && DurationLabel(120) == "2h" && DurationLabel(135) == "2h 15min"
    ensures DurationLabel(150) == "2h 30min" && DurationLabel(165) == "2h 45min" && DurationLabel(180) == "3h"
  {
    ShortLabels();
    QuarterPastLabels();
    HalfPastLabels();
    QuarterToLabels();
  }

  lemma ShortLabels()
    ensures DurationLabel(15) == "15min" && DurationLabel(30) == "30min" && DurationLabel(45) == "45min"
    ensures DurationLabel(60) == "1h" && DurationLabel(120) == "2h" && DurationLabel(180) == "3h"
  {
    MinuteLabels();
    HourLabels();
  }

  lemma MinuteLabels()
    ensures DurationLabel(15) == "15min" && DurationLabel(30) == "30min" && DurationLabel(45) == "45min"
  {
    PickerNumerals();
    assert DurationLabel(15) == NatToString(15) + "min";
    assert DurationLabel(30) == NatToString(30) + "min";
    assert DurationLabel(45) == NatToString(45) + "min";
  }

  lemma HourLabels()
    ensures DurationLabel(60) == "1h" && DurationLabel(120) == "2h" && DurationLabel(180) == "3h"
  {
    PickerNumerals();
    assert DurationLabel(60) == NatToString(1) + "h";
    assert DurationLabel(120) == NatToString(2) + "h";
    assert DurationLabel(180) == NatToString(3) + "h";
  }

  lemma QuarterPastLabels()
    ensures DurationLabel(75) == "1h 15min" && DurationLabel(135) == "2h 15min"
  {
    PickerNumerals();
    assert DurationLabel(75) == NatToString(1) + "h " + NatToString(15) + "min";
    assert DurationLabel(135) == NatToString(2) + "h " + NatToString(15) + "min";
  }

  lemma HalfPastLabels()
    ensures DurationLabel(90) == "1h 30min" && DurationLabel(150) == "2h 30min"
  {
    PickerNumerals();
    assert DurationLabel(90) == NatToString(1) + "h " + NatToString(30) + "min";
    assert DurationLabel(150) == NatToString(2) + "h " + NatToString(30) + "min";
  }

  lemma QuarterToLabels()
    ensures DurationLabel(105) == "1h 45min" && DurationLabel(165) == "2h 45min"
  {
    PickerNumerals();
    assert DurationLabel(105) == NatToString(1) + "h " + NatToString(45) + "min";
    assert DurationLabel(165) == NatToString(2) + "h " + NatToString(45) + "min";
  }

  /** The numbers the picker's labels are made of, as digits. */
  lemma PickerNumerals()
    ensures NatToString(1) == "1" && NatToString(2) == "2" && NatToString(3) == "3"
    ensures NatToString(15) == "15" && NatToString(30) == "30" && NatToString(45) == "45"
  {
    assert NatToString(1) == [DigitChar(1)];
    assert NatToString(15) == NatToString(1) + [DigitChar(5)];
    assert NatToString(30) == NatToString(3) + [DigitChar(0)];
    assert NatToString(45) == NatToString(4) + [DigitChar(5)];
  }

  /** Every label reads back as its own number of minutes. */
  lemma DurationLabelReadsBack(minutes: nat)
    ensures ReadDuration(DurationLabel(minutes)) == Some(minutes)
  {
    var hours, mins := minutes / 60, minutes % 60;
    if hours > 0 && mins == 0 {
      WholeHoursLabel(minutes);
    } else if hours > 0 {
      MixedLabel(minutes);
    } else {
      MinutesLabel(minutes);
    }
  }

  lemma WholeHoursLabel(minutes: nat)
    requires minutes >= 60 && minutes % 60 == 0
    ensures ReadDuration(DurationLabel(minutes)) == Some(minutes)
  {
    assert DurationLabel(minutes) == NatToString(minutes / 60) + "h";
    ReadHoursOnly(minutes / 60);
  }

  lemma MixedLabel(minutes: nat)
    requires minutes >= 60 && minutes % 60 != 0
    ensures ReadDuration(DurationLabel(minutes)) == Some(minutes)
  {
    assert DurationLabel(minutes) == NatToString(minutes / 60) + "h " + NatToString(minutes % 60) + "min";
    ReadHoursMinutes(minutes / 60, minutes % 60);
  }

  lemma MinutesLabel(minutes: nat)
    requires minutes < 60
    ensures ReadDuration(DurationLabel(minutes)) == Some(minutes)
  {
    assert DurationLabel(minutes) == NatToString(minutes) + "min";
    ReadMinutesOnly(minutes);
  }

  /** A label leaves out the minutes exactly for a whole number of hours. */
  lemma DurationLabelWholeHours(minutes: nat)
    ensures minutes >= 60 && minutes % 60 == 0 <==> !HasSuffix(DurationLabel(minutes), "min")
  {
    var shown := DurationLabel(minutes);
    if minutes >= 60 && minutes % 60 == 0 {
      assert shown[|shown| - 1] == 'h';
    } else {
      assert shown[|shown| - 3..] == "min";
    }
  }

  /** `backgrounds.firstIndex(of:) ?? 0`. */
  function BackgroundIndex(background: string): (i: nat)
    ensures i < |Backgrounds|
    ensures background in Backgrounds ==> Backgrounds[i] == background
    ensures background !in Backgrounds ==> i == 0
  {
    match FirstIndex(Backgrounds, background)
    case None => 0
    case Some(i) => i
  }

  /** Create is disabled when the trimmed name is empty. */
  predicate CreateDisabled(name: string) {
    Trim(name, WhitespacesAndNewlines) == []
  }

  lemma CreateDisabledIff(name: string)
    ensures CreateDisabled(name) <==> forall k :: 0 <= k < |name| ==> InClass(name[k], WhitespacesAndNewlines)
  {
    TrimEmptyIff(name, WhitespacesAndNewlines);
  }

  // ---------------------------------------------------------------------
  // The form state

  class Form {
    var name: string
    var backgroundIndex: nat
    var recurring: bool
    var selectedWeekdays: set<int>
    var time: int
    var durationMinutes: int
    var textColor: Color

    /** The initialiser: an empty form, or one filled from the room being
        edited, with its schedule read back as `ParseSchedule` does.
        `parseTime` is the `HH:mm` DateFormatter: when the schedule has a
        time string that it parses, that instant replaces the room's start
        time. */
    constructor (editingRoom: Option<MoodRoom>, now: int, parseTime: string -> Option<int>)
      ensures editingRoom.None? ==>
                name == "" && backgroundIndex == 0 && !recurring && selectedWeekdays == {} &&
                time == now && durationMinutes == 15 && textColor == Black
      ensures editingRoom.Some? ==>
                var room := editingRoom.value;
                var parsed := ParseSchedule(room.schedule);
                && name == room.name && backgroundIndex == BackgroundIndex(room.background)
                && textColor == room.textColor
                && durationMinutes == room.durationMinutes
                && recurring == parsed.recurring && selectedWeekdays == parsed.days
      ensures editingRoom.Some? ==>
                var parsed := ParseSchedule(editingRoom.value.schedule);
                time == (if parsed.timeString.Some? && parseTime(parsed.timeString.value).Some?
                         then parseTime(parsed.timeString.value).value
                         else editingRoom.value.startTime)
      ensures Valid()
    {
      match editingRoom
      case None =>
        name, backgroundIndex, recurring, selectedWeekdays := "", 0, false, {};
        time, durationMinutes, textColor := now, 15, Black;
      case Some(room) =>
        var parsed := ParseSchedule(room.schedule);
        IndicesBelowSeven(room.schedule);
        name, backgroundIndex, textColor := room.name, BackgroundIndex(room.background), room.textColor;
        time, durationMinutes := room.startTime, room.durationMinutes;
        recurring, selectedWeekdays := parsed.recurring, parsed.days;
        if parsed.timeString.Some? {
          var t := parseTime(parsed.timeString.value);
          if t.Some? {
            time := t.value;
          }
        }
    }

    /** Only existing weekdays are ever selected. */
    predicate Valid()
      reads this
    {
      ValidDays(selectedWeekdays)
    }

    /** The name editor's `onChange`: a longer name is cut to its first 100
        characters. */
    method NameChanged(newValue: string)
      modifies this
      ensures name == Take(newValue, MaxNameLength)
      ensures |name| <= MaxNameLength && name == newValue[..|name|]
      ensures |newValue| <= MaxNameLength ==> name == newValue
      ensures backgroundIndex == old(backgroundIndex) && recurring == old(recurring)
      ensures selectedWeekdays == old(selectedWeekdays) && time == old(time)
      ensures durationMinutes == old(durationMinutes) && textColor == old(textColor)
    {
      if |newValue| > MaxNameLength {
        name := newValue[..MaxNameLength];
      } else {
        name := newValue;
      }
    }

    /** "\(maxNameLength - name.count) characters left". */
    function CharactersLeft(): (n: int)
      reads this
      ensures |name| <= MaxNameLength ==> 0 <= n && n + |name| == MaxNameLength
    {
      MaxNameLength - |name|
    }

    /** A weekday button: flips the one day it stands for. */
    method ToggleWeekday(day: int)
      requires Valid() && 0 <= day < 7
      modifies this
      ensures day in selectedWeekdays <==> day !in old(selectedWeekdays)
      ensures forall d :: d != day ==> (d in selectedWeekdays <==> d in old(selectedWeekdays))
      ensures Valid()
      ensures name == old(name) && backgroundIndex == old(backgroundIndex) && recurring == old(recurring)
      ensures time == old(time) && durationMinutes == old(durationMinutes) && textColor == old(textColor)
    {
      if day in selectedWeekdays {
        selectedWeekdays := selectedWeekdays - {day};
      } else {
        selectedWeekdays := selectedWeekdays + {day};
      }
    }

    /** The schedule the Create/Update button writes for a time string.
        Reading it back gives the form's recurring flag, its weekdays and
        the time string, or a plain once-off schedule. */
    function Schedule(timeString: string): (s: string)
      requires Valid()
      reads this
      ensures recurring ==> ParseSchedule(s) == ParsedSchedule(true, selectedWeekdays, Some(timeString))
      ensures !recurring ==> ParseSchedule(s) == ParsedSchedule(false, {}, None)
      ensures HasSuffix(s, " at " + timeString)
    {
      if recurring then
        FormatParseRoundTrip(selectedWeekdays, timeString);
        FormatSchedule(true, selectedWeekdays, timeString)
      else
        OnceParsesOnce(selectedWeekdays, timeString);
        FormatSchedule(false, selectedWeekdays, timeString)
    }
  }

  lemma IndicesBelowSeven(schedule: string)
    ensures ValidDays(ParseSchedule(schedule).days)
  {
  }

  /** Opening a room the editor wrote shows the weekdays it was saved with. */
  lemma ReopenShowsDays(days: set<int>, t: string, room: MoodRoom)
    requires ValidDays(days) && room.schedule == FormatSchedule(true, days, t)
    ensures ParseSchedule(room.schedule).recurring && ParseSchedule(room.schedule).days == days
  {
    FormatParseRoundTrip(days, t);
  }
}
