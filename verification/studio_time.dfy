/**
 * `formatTime` (ui/studio/LessonStudioScreen.kt): renders a millisecond
 * count as `%02d:%02d` minutes and seconds, with Kotlin `Long` division,
 * which truncates toward zero. Minutes are never capped or turned into hours.
 */
module StudioTime {
  import opened Text
  import LessonSegment
  import Wrappers

  /**
   * Division of a `Long` by a positive divisor: rounds toward zero, so
   * what is left over has the sign of the dividend and is smaller than
   * the divisor.
   */
  function TruncDiv(a: int, b: int): (q: int)
    requires b > 0
    ensures a >= 0 ==> 0 <= a - q * b < b
    ensures a < 0 ==> -b < a - q * b <= 0
  {
    if a >= 0 then a / b else -((-a) / b)
  }

  /** Remainder of a `Long` by a positive divisor: takes the sign of the dividend. */
  function TruncRem(a: int, b: int): (r: int)
    requires b > 0
    ensures a == TruncDiv(a, b) * b + r
    ensures a >= 0 ==> 0 <= r < b
    ensures a < 0 ==> -b < r <= 0
  {
    a - TruncDiv(a, b) * b
  }

  /** The minutes field: whole seconds divided by 60. */
  function Minutes(ms: int): int {
    TruncDiv(TruncDiv(ms, 1000), 60)
  }

  /** The seconds field: whole seconds modulo 60. */
  function Seconds(ms: int): int {
    TruncRem(TruncDiv(ms, 1000), 60)
  }

  function FormatTime(ms: int): string {
    ZeroPad2(Minutes(ms)) + ":" + ZeroPad2(Seconds(ms))
  }

  /**
   * For a non-negative time the seconds lie in 0..59, and minutes and
   * seconds together are the whole seconds: the sub-second rest is dropped.
   */
  lemma FieldsOfTime(ms: int)
    requires ms >= 0
    ensures 0 <= Seconds(ms) < 60
    ensures Minutes(ms) * 60 + Seconds(ms) == ms / 1000
    ensures Minutes(ms) == ms / 60000
  {
  }

  /** Below 100 minutes: five characters, `:` at index 2, both fields as two digits. */
  lemma FormatShort(ms: int)
    requires 0 <= ms && Minutes(ms) < 100
    ensures var r := FormatTime(ms);
      |r| == 5 && r[2] == ':'
      && r[..2] == [DigitChar(Minutes(ms) / 10), DigitChar(Minutes(ms) % 10)]
      && r[3..] == [DigitChar(Seconds(ms) / 10), DigitChar(Seconds(ms) % 10)]
  {
    FieldsOfTime(ms);
    ZeroPad2TwoDigits(Minutes(ms));
    ZeroPad2TwoDigits(Seconds(ms));
  }

  /** From 6,000,000 ms on, the minutes field has three or more digits and is not capped. */
  lemma FormatWide(ms: int)
    requires ms >= 6000000
    ensures var r := FormatTime(ms);
      |r| >= 6 && r[|r| - 3] == ':'
      && (forall i :: 0 <= i < |r| - 3 ==> IsDigit(r[i]))
      && DigitsValue(r[..|r| - 3]) == ms / 60000
  {
    FieldsOfTime(ms);
    ZeroPad2Wide(Minutes(ms));
    ZeroPad2TwoDigits(Seconds(ms));
    var r := FormatTime(ms);
    assert r[..|r| - 3] == ZeroPad2(Minutes(ms));
  }

  // ---------------------------------------------------------------------------
  // Agreement with the script markers

  lemma TwoDigits(s: string)
    requires |s| == 2 && IsDigit(s[0]) && IsDigit(s[1])
    ensures DigitsValue(s) == DigitOf(s[0]) * 10 + DigitOf(s[1])
    ensures [DigitChar(DigitsValue(s) / 10), DigitChar(DigitsValue(s) % 10)] == s
  {
    assert s[..1][..0] == [] && s[..1][0] == s[0];
    assert DigitsValue(s[..1]) == DigitOf(s[0]);
  }

  /** The minute digits of a marker as `%02d` shows them. */
  function PaddedMinutes(minutes: string): string {
    if |minutes| == 1 then "0" + minutes else minutes
  }

  /**
   * `formatTime` of the start time of a parsed marker `[m:ss]` with ss below
   * 60 shows the marker's own minutes and seconds, zero-padded.
   */
  lemma FormatMarkerTime(m: LessonSegment.Marker)
    requires LessonSegment.WellFormed(m) && DigitsValue(m.seconds) < 60
    ensures FormatTime(LessonSegment.MarkerTime(m)) == PaddedMinutes(m.minutes) + ":" + m.seconds
  {
    var mm := PaddedMinutes(m.minutes);
    TwoDigits(m.seconds);
    if |m.minutes| == 1 {
      assert mm[..1] == "0" && mm[1] == m.minutes[0];
      assert m.minutes[..0] == [];
    }
    TwoDigits(mm);
    var ms := LessonSegment.MarkerTime(m);
    assert DigitsValue(mm) == DigitsValue(m.minutes);
    FieldsOfTime(ms);
    assert Minutes(ms) == DigitsValue(m.minutes);
    assert Seconds(ms) == DigitsValue(m.seconds);
    ZeroPad2TwoDigits(Minutes(ms));
    ZeroPad2TwoDigits(Seconds(ms));
  }

  /** A five-character `dd:dd` in brackets is found as a marker with empty content. */
  lemma FindBracketed(r: string)
    requires |r| == 5 && r[2] == ':' && IsDigit(r[0]) && IsDigit(r[1]) && IsDigit(r[3]) && IsDigit(r[4])
    ensures LessonSegment.Find("[" + r + "]") == Wrappers.Some(LessonSegment.Marker(r[..2], r[3..], ""))
  {
    var m := LessonSegment.Marker(r[..2], r[3..], "");
    var line := "[" + r + "]";
    assert LessonSegment.Token(m) == line;
    assert line[..7] == line && line[7..] == [];
    LessonSegment.FindAtStart(line, m);
  }

  /**
   * Read back as a script marker, `formatTime` of a time below 100 minutes
   * gives the time rounded down to whole seconds.
   */
  lemma FormatThenParse(ms: int)
    requires 0 <= ms < 6000000
    ensures var r := FormatTime(ms);
      LessonSegment.Find("[" + r + "]") == Wrappers.Some(LessonSegment.Marker(r[..2], r[3..], ""))
      && LessonSegment.MarkerTime(LessonSegment.Marker(r[..2], r[3..], "")) == ms / 1000 * 1000
  {
    var r := FormatTime(ms);
    FieldsOfTime(ms);
    FormatShort(ms);
    assert r[0] == r[..2][0] && r[1] == r[..2][1] && r[3] == r[3..][0] && r[4] == r[3..][1];
    FindBracketed(r);
    TwoDigits(r[..2]);
    TwoDigits(r[3..]);
  }
}
