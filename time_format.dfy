/** The two `m:ss` renderings of a number of seconds: the results screen's
    `formatTime` (quiz.js and dashboard.js hold identical copies), and the
    countdown shown by `updateTimerDisplay`, whose minutes are zero-padded too. */
module TimeFormat {
  import opened Wrappers
  import opened Text

  /** `formatTime(seconds)`: `${mins}:${secs.padStart(2, '0')}`; the minutes are not padded. */
  function FormatTime(seconds: nat): (r: string)
    ensures |r| >= 4 && r[|r| - 3] == ':'
    ensures AllDigits(r[..|r| - 3]) && AllDigits(r[|r| - 2..])
    ensures ParseNat(r[..|r| - 3]) * 60 + ParseNat(r[|r| - 2..]) == seconds
    ensures ParseNat(r[|r| - 2..]) < 60
    ensures r[..|r| - 3] == NatToString(seconds / 60)
  {
    var m, s := NatToString(seconds / 60), SecondsField(seconds);
    ParseNatToString(seconds / 60);
    ClockFields(m, s, seconds);
    m + ":" + s
  }

  /** The countdown text of `updateTimerDisplay`: both fields padded to two digits. */
  function TimerText(remaining: nat): (r: string)
    ensures |r| >= 5 && r[|r| - 3] == ':'
    ensures AllDigits(r[..|r| - 3]) && AllDigits(r[|r| - 2..])
    ensures ParseNat(r[..|r| - 3]) * 60 + ParseNat(r[|r| - 2..]) == remaining
    ensures ParseNat(r[|r| - 2..]) < 60
    ensures r[..|r| - 3] == PadStart2(NatToString(remaining / 60))
  {
    var m, s := PadStart2(NatToString(remaining / 60)), SecondsField(remaining);
    ParseNatToString(remaining / 60);
    ParsePadStart2(NatToString(remaining / 60));
    ClockFields(m, s, remaining);
    m + ":" + s
  }

  /** The seconds field both renderings share: `(total % 60)` padded to two digits. */
  function SecondsField(total: nat): (s: string)
    ensures |s| == 2 && AllDigits(s) && ParseNat(s) == total % 60
  {
    var d := NatToString(total % 60);
    ParseNatToString(total % 60);
    ParsePadStart2(d);
    assert |d| <= 2;
    PadStart2(d)
  }

  /** A minutes field worth `total / 60`, a colon, and a seconds field worth `total % 60`
      are worth `total`. */
  lemma ClockFields(m: string, s: string, total: nat)
    requires AllDigits(m) && m != [] && ParseNat(m) == total / 60
    requires |s| == 2 && AllDigits(s) && ParseNat(s) == total % 60
    ensures var r := m + ":" + s;
      && |r| == |m| + 3 && r[|r| - 3] == ':'
      && r[..|r| - 3] == m && r[|r| - 2..] == s
      && ParseNat(m) * 60 + ParseNat(s) == total
  {
    var r := m + ":" + s;
    assert r[..|r| - 3] == m;
    assert r[|r| - 2..] == s;
  }

  /** The fields of an `m:ss` text: digit minutes, two-digit seconds below 60. */
  function ParseClockParts(parts: seq<string>): (r: Option<nat>)
    ensures r.Some? ==> |parts| == 2
  {
    if |parts| == 2 && parts[0] != "" && AllDigits(parts[0]) && |parts[1]| == 2
       && AllDigits(parts[1]) && ParseNat(parts[1]) < 60
    then Some(ParseNat(parts[0]) * 60 + ParseNat(parts[1]))
    else None
  }

  /** Reads an `m:ss` text back into seconds: a reference reading of both renderings. */
  function ParseClock(text: string): (r: Option<nat>)
    ensures r.Some? ==> ':' in text
  {
    var parts := Split(text, ':');
    assert ':' !in text ==> |parts| == 1 by {
      if ':' !in text { SplitNone(text, ':'); }
    }
    ParseClockParts(parts)
  }

  lemma NoColonInDigits(s: string)
    requires AllDigits(s)
    ensures ':' !in s
  {
  }

  lemma ParseClockOf(m: string, s: string)
    requires m != "" && AllDigits(m) && |s| == 2 && AllDigits(s) && ParseNat(s) < 60
    ensures ParseClock(m + ":" + s) == Some(ParseNat(m) * 60 + ParseNat(s))
  {
    var t := m + [':'] + s;
    assert m + ":" + s == t;
    NoColonInDigits(m);
    NoColonInDigits(s);
    SplitJoin(m, ':', s);
    SplitNone(s, ':');
    assert Split(t, ':') == [m, s];
    ParseClockPartsOf(m, s);
  }

  lemma ParseClockPartsOf(m: string, s: string)
    requires m != "" && AllDigits(m) && |s| == 2 && AllDigits(s) && ParseNat(s) < 60
    ensures ParseClockParts([m, s]) == Some(ParseNat(m) * 60 + ParseNat(s))
  {
  }

  /** The results-screen time reads back as the number of seconds it shows. */
  lemma {:induction false} FormatTimeRoundTrip(seconds: nat)
    ensures ParseClock(FormatTime(seconds)) == Some(seconds)
  {
    ParseNatToString(seconds / 60);
    ParseClockOf(NatToString(seconds / 60), SecondsField(seconds));
  }

  /** The countdown reads back as the remaining seconds. */
  lemma {:induction false} TimerTextRoundTrip(remaining: nat)
    ensures ParseClock(TimerText(remaining)) == Some(remaining)
  {
    ParseNatToString(remaining / 60);
    ParsePadStart2(NatToString(remaining / 60));
    ParseClockOf(PadStart2(NatToString(remaining / 60)), SecondsField(remaining));
  }
}
