/** What the statistics screen shows: the mood-room keys in ascending
    order, each key turned back into "background (kind)", and lengths of
    time written as "Hh Mmin" or "Mmin". Strings are ordered by comparing
    their characters' code points from the left. */
module StatsView {
  import opened Text
  import opened DurationText
  import Stats
  import Arith

  // ---------------------------------------------------------------------
  // The order on strings

  /** `a < b`: at the first difference `a` has the smaller character, or
      `a` is a proper prefix of `b`. */
  predicate Below(a: string, b: string)
    decreases |a|
  {
    if a == [] then b != []
    else b != [] && (a[0] < b[0] || (a[0] == b[0] && Below(a[1..], b[1..])))
  }

  lemma {:induction false} BelowIrreflexive(a: string)
    ensures !Below(a, a)
    decreases |a|
  {
    if a != [] {
      BelowIrreflexive(a[1..]);
    }
  }

  lemma {:induction false} BelowTransitive(a: string, b: string, c: string)
    requires Below(a, b) && Below(b, c)
    ensures Below(a, c)
    decreases |a|
  {
    if a != [] && a[0] == b[0] && b[0] == c[0] {
      BelowTransitive(a[1..], b[1..], c[1..]);
    }
  }

  lemma {:induction false} BelowTotal(a: string, b: string)
    requires a != b
    ensures Below(a, b) || Below(b, a)
    decreases |a|
  {
    if a != [] && b != [] && a[0] == b[0] {
      assert a == [a[0]] + a[1..] && b == [b[0]] + b[1..];
      BelowTotal(a[1..], b[1..]);
    }
  }

  /** Strictly ascending, so also free of repeats. */
  predicate Ascending(xs: seq<string>) {
    forall i, j :: 0 <= i < j < |xs| ==> Below(xs[i], xs[j])
  }

  /** `x` comes before every other member of `s`. */
  predicate IsLeast(x: string, s: set<string>) {
    x in s && forall y :: y in s ==> y == x || Below(x, y)
  }

  lemma {:induction false} LeastExists(s: set<string>)
    requires s != {}
    ensures exists x :: IsLeast(x, s)
    decreases s
  {
    var y :| y in s;
    if s != {y} {
      LeastExists(s - {y});
      var z :| IsLeast(z, s - {y});
      if Below(y, z) {
        forall w | w in s && w != y ensures Below(y, w) {
          if w != z {
            BelowTransitive(y, z, w);
          }
        }
        assert IsLeast(y, s);
      } else {
        BelowTotal(y, z);
        assert IsLeast(z, s);
      }
    } else {
      assert IsLeast(y, s);
    }
  }

  lemma LeastUnique(s: set<string>)
    ensures forall x, y :: IsLeast(x, s) && IsLeast(y, s) ==> x == y
  {
    forall x, y | IsLeast(x, s) && IsLeast(y, s) ensures x == y {
      if x != y {
        assert Below(x, y) && Below(y, x);
        BelowTransitive(x, y, x);
        BelowIrreflexive(x);
      }
    }
  }

  /** The members of a finite set of strings in ascending order. */
  function SortedSet(s: set<string>): (r: seq<string>)
    ensures |r| == |s| && Ascending(r)
    ensures forall x :: x in r <==> x in s
    decreases s
  {
    if s == {} then []
    else
      LeastExists(s);
      LeastUnique(s);
      var x :| IsLeast(x, s);
      [x] + SortedSet(s - {x})
  }

  /** `timeInMoodRooms.keys.sorted()`: every key once, in ascending order. */
  function SortedMoodKeys(m: map<string, int>): (r: seq<string>)
    ensures Ascending(r) && |r| == |m.Keys|
    ensures forall k :: k in r <==> k in m
  {
    SortedSet(m.Keys)
  }

  /** An ascending listing is fixed by its members: showing the keys does
      not depend on the dictionary's own order. */
  lemma {:induction false} AscendingUnique(xs: seq<string>, ys: seq<string>)
    requires Ascending(xs) && Ascending(ys)
    requires forall x :: x in xs <==> x in ys
    ensures xs == ys
    decreases |xs|
  {
    assert xs != [] ==> xs[0] in xs;
    assert ys != [] ==> ys[0] in ys;
    if xs != [] && ys != [] {
      if xs[0] != ys[0] {
        assert xs[0] in ys && ys[0] in xs;
        var i :| 0 < i < |xs| && xs[i] == ys[0];
        var j :| 0 < j < |ys| && ys[j] == xs[0];
        BelowTransitive(xs[0], xs[i], ys[j]);
        BelowIrreflexive(xs[0]);
      }
      forall x ensures x in xs[1..] <==> x in ys[1..] {
        if x in xs[1..] {
          var j :| 1 <= j < |xs| && xs[j] == x;
          BelowIrreflexive(x);
          assert x in xs;
          assert x in ys;
          var k :| 0 <= k < |ys| && ys[k] == x;
          assert k != 0 && ys[1..][k - 1] == x;
        }
        if x in ys[1..] {
          var j :| 1 <= j < |ys| && ys[j] == x;
          BelowIrreflexive(x);
          assert x in ys;
          assert x in xs;
          var k :| 0 <= k < |xs| && xs[k] == x;
          assert k != 0 && xs[1..][k - 1] == x;
        }
      }
      AscendingUnique(xs[1..], ys[1..]);
      assert xs == [xs[0]] + xs[1..] && ys == [ys[0]] + ys[1..];
    }
  }

  // ---------------------------------------------------------------------
  // Key labels and durations

  /** Split on "-" (empty pieces dropped); with exactly two pieces the key
      reads "background (recurring)" or "background (once)", otherwise it
      is shown as it is. */
  function PrettyMoodKey(key: string): (r: string)
    ensures |Split(key, '-')| != 2 ==> r == key
    ensures |Split(key, '-')| == 2 ==>
              r == Split(key, '-')[0] + " (recurring)" || r == Split(key, '-')[0] + " (once)"
    ensures |Split(key, '-')| == 2 ==>
              (r == Split(key, '-')[0] + " (recurring)" <==> Split(key, '-')[1] == "recurring")
  {
    var parts := Split(key, '-');
    if |parts| != 2 then key
    else parts[0] + " (" + (if parts[1] == "recurring" then "recurring" else "once") + ")"
  }

  /** A key recorded for a background without a dash is shown as the
      background and the kind of its schedule. */
  lemma PrettyStoreKey(background: string, schedule: string)
    requires background != [] && '-' !in background
    ensures PrettyMoodKey(Stats.MoodKey(background, schedule)) == background + " (" + Stats.Kind(schedule) + ")"
  {
    var kind := Stats.Kind(schedule);
    assert '-' !in kind;
    SplitPiece(background, kind, '-');
    SplitWhole(kind, '-');
    assert Stats.MoodKey(background, schedule) == background + ['-'] + kind;
  }

  /** `format(seconds:)`: whole minutes, truncated toward zero, split into
      hours and the remaining minutes. */
  function Format(seconds: int): (r: string)
    ensures HasSuffix(r, "min")
  {
    var minutes := TruncDiv(seconds, 60);
    var hours := TruncDiv(minutes, 60);
    var mins := TruncMod(minutes, 60);
    var head := if hours > 0 then IntToString(hours) + "h " + IntToString(mins) else IntToString(mins);
    AppendSuffix(head, "min");
    head + "min"
  }

  /** A non-negative time reads back as its whole minutes, and the minutes
      part is always written, even when it is 0. From an hour on the text
      is `Hh Mmin` with M the minutes past the hour; below an hour it is
      `Mmin` alone. */
  lemma FormatReadsBack(seconds: int)
    requires seconds >= 0
    ensures ReadDuration(Format(seconds)) == Some(seconds / 60)
    ensures HasSuffix(Format(seconds), "min")
    ensures seconds >= 3600 <==> 'h' in Format(seconds)
    ensures seconds >= 3600 ==>
              (seconds / 60) % 60 < 60 &&
              Format(seconds) == NatToString(seconds / 3600) + "h " + NatToString((seconds / 60) % 60) + "min"
    ensures seconds < 3600 ==> Format(seconds) == NatToString(seconds / 60) + "min"
  {
    if seconds >= 3600 {
      FormatHoursReadsBack(seconds);
    } else {
      FormatMinutesReadsBack(seconds);
    }
  }

  lemma FormatHoursReadsBack(seconds: int)
    requires seconds >= 3600
    ensures ReadDuration(Format(seconds)) == Some(seconds / 60)
    ensures HasSuffix(Format(seconds), "min")
    ensures 'h' in Format(seconds)
    ensures Format(seconds) == NatToString(seconds / 3600) + "h " + NatToString((seconds / 60) % 60) + "min"
  {
    var minutes := seconds / 60;
    var hours, mins := minutes / 60, minutes % 60;
    assert TruncDiv(seconds, 60) == minutes;
    assert TruncDiv(minutes, 60) == hours && TruncMod(minutes, 60) == mins;
    assert 60 * hours + mins == minutes;
    HoursOfSeconds(seconds, minutes, hours, mins);
    var text := NatToString(hours) + "h " + NatToString(mins) + "min";
    assert Format(seconds) == text;
    ReadHoursMinutes(hours, mins);
    assert text[|text| - 3..] == "min";
    assert text[|NatToString(hours)|] == 'h';
  }

  /** Whole hours of seconds: the minutes' hours are the seconds' hours. */
  lemma HoursOfSeconds(seconds: nat, minutes: nat, hours: nat, mins: nat)
    requires minutes == seconds / 60 && 60 * hours + mins == minutes && mins < 60
    ensures hours == seconds / 3600
  {
    var rest := seconds % 60;
    assert seconds == 3600 * hours + (60 * mins + rest);
    Arith.DivModUnique(seconds, 3600, hours, 60 * mins + rest);
  }

  lemma FormatMinutesReadsBack(seconds: int)
    requires 0 <= seconds < 3600
    ensures ReadDuration(Format(seconds)) == Some(seconds / 60)
    ensures HasSuffix(Format(seconds), "min")
    ensures 'h' !in Format(seconds)
    ensures Format(seconds) == NatToString(seconds / 60) + "min"
  {
    var minutes := seconds / 60;
    assert TruncDiv(seconds, 60) == minutes;
    assert TruncDiv(minutes, 60) == 0 && TruncMod(minutes, 60) == minutes;
    var text := NatToString(minutes) + "min";
    assert Format(seconds) == text;
    ReadMinutesOnly(minutes);
    assert text[|text| - 3..] == "min";
    NoHour(NatToString(minutes));
  }

  /** Digits followed by "min" hold no 'h'. */
  lemma NoHour(digits: string)
    requires AllDigits(digits)
    ensures 'h' !in digits + "min"
  {
    var text := digits + "min";
    forall k | 0 <= k < |text|
      ensures text[k] != 'h'
    {
      if k < |digits| {
        assert IsDigit(digits[k]);
      }
    }
  }
}
