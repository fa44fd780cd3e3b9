/** The app writes lengths of time in three shapes: "Hh Mmin", "Hh" and
    "Mmin". `ReadDuration` reads such a text back as a number of minutes;
    it is the reference the duration picker's labels, the statistics
    screen and the time-left line are checked against. */
module DurationText {
  import opened Text

  predicate HasSuffix(s: string, p: string) {
    |p| <= |s| && s[|s| - |p|..] == p
  }

  lemma AppendSuffix(a: string, b: string)
    ensures HasSuffix(a + b, b)
  {
    assert (a + b)[|a + b| - |b|..] == b;
  }

  /** Digits followed by "h", as a number of hours. */
  function ReadHours(s: string): (r: Option<nat>)
    ensures r.Some? ==> |s| >= 2 && s[|s| - 1] == 'h'
  {
    if |s| >= 2 && s[|s| - 1] == 'h' && AllDigits(s[..|s| - 1]) then Some(ParseNat(s[..|s| - 1])) else None
  }

  /** The number of minutes a duration text stands for, or None when the
      text has none of the three shapes. */
  function ReadDuration(s: string): Option<nat> {
    if HasSuffix(s, "min") then ReadMinutesBody(s[..|s| - 3])
    else
      var hours := ReadHours(s);
      if hours.Some? then Some(60 * hours.value) else None
  }

  /** A text that ended in "min", without it: "Hh M" or "M". */
  function ReadMinutesBody(body: string): Option<nat> {
    var i := CharIndex(body, ' ');
    if i < |body| then
      var hours := ReadHours(body[..i]);
      var mins := body[i + 1..];
      if hours.Some? && mins != [] && AllDigits(mins) then Some(60 * hours.value + ParseNat(mins)) else None
    else if body != [] && AllDigits(body) then Some(ParseNat(body))
    else None
  }

  lemma ReadHoursMinutes(h: nat, m: nat)
    ensures ReadDuration(NatToString(h) + "h " + NatToString(m) + "min") == Some(60 * h + m)
  {
    ParseNatToString(h);
    ParseNatToString(m);
    ReadDigitsHoursMinutes(NatToString(h), NatToString(m), h, m);
  }

  /** "<digits>h <digits>min" reads as the hours times sixty plus the
      minutes. */
  lemma ReadDigitsHoursMinutes(hs: string, ms: string, h: nat, m: nat)
    requires hs != [] && AllDigits(hs) && ms != [] && AllDigits(ms)
    requires ParseNat(hs) == h && ParseNat(ms) == m
    ensures ReadDuration(hs + "h " + ms + "min") == Some(60 * h + m)
  {
    var body := hs + "h " + ms;
    var s := body + "min";
    assert s[..|s| - 3] == body && s[|s| - 3..] == "min";
    assert ReadMinutesBody(body) == Some(60 * h + m) by {
      HoursMinutesParts(hs, ms);
      assert ReadHours(hs + "h") == Some(h) by {
        assert (hs + "h")[..|hs|] == hs;
      }
    }
  }

  /** In "<digits>h <rest>" the first space follows the "h". */
  lemma HoursMinutesParts(hs: string, ms: string)
    requires AllDigits(hs)
    ensures var body := hs + "h " + ms;
      && CharIndex(body, ' ') == |hs| + 1
      && body[..|hs| + 1] == hs + "h"
      && body[|hs| + 2..] == ms
  {
    var body := hs + "h " + ms;
    assert body[|hs| + 1] == ' ';
    forall j | 0 <= j <= |hs| ensures body[j] != ' ' {
      if j < |hs| {
        assert body[j] == hs[j];
      }
    }
    assert body[..|hs| + 1] == hs + "h";
    assert body[|hs| + 2..] == ms;
  }

  lemma ReadHoursOnly(h: nat)
    ensures ReadDuration(NatToString(h) + "h") == Some(60 * h)
  {
    var hs := NatToString(h);
    var s := hs + "h";
    assert s[|s| - 1] == 'h';
    assert !HasSuffix(s, "min");
    assert s[..|s| - 1] == hs;
    ParseNatToString(h);
  }

  lemma ReadMinutesOnly(m: nat)
    ensures ReadDuration(NatToString(m) + "min") == Some(m)
  {
    var ms := NatToString(m);
    var s := ms + "min";
    assert HasSuffix(s, "min");
    assert s[..|s| - 3] == ms;
    assert forall j :: 0 <= j < |ms| ==> ms[j] != ' ';
    ParseNatToString(m);
  }
}
