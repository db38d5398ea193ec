/**
 * Conversions between a number of seconds and an hours/minutes/seconds reading,
 * and the clock-face text the screen shows.
 */
module TimeUtils {
  import KotlinMath
  import opened Decimal
  import opened Wrappers

  /** An hours/minutes/seconds triple, as `fromTotalSeconds` returns it. */
  datatype Hms = Hms(hours: int, minutes: int, seconds: int)

  /** A reading as a clock shows it: whole hours, minutes and seconds each below sixty. */
  predicate IsClockReading(t: Hms) {
    t.hours >= 0 && 0 <= t.minutes < 60 && 0 <= t.seconds < 60
  }

  /**
   * Seconds in an hours/minutes/seconds reading; `toTotalSeconds` does no range check on any part.
   * A clock reading is recovered from its count by division and remainder.
   */
  function ToTotalSeconds(hours: int, minutes: int, seconds: int): (total: int)
    ensures IsClockReading(Hms(hours, minutes, seconds)) ==>
      && total >= 0 && total / 3600 == hours
      && (total % 3600) / 60 == minutes && total % 60 == seconds
  {
    var total := hours * 3600 + minutes * 60 + seconds;
    assert IsClockReading(Hms(hours, minutes, seconds)) ==>
      total / 3600 == hours && (total % 3600) / 60 == minutes && total % 60 == seconds by {
      if IsClockReading(Hms(hours, minutes, seconds)) {
        KotlinMath.EuclidUnique(total, 3600, hours, minutes * 60 + seconds);
        KotlinMath.EuclidUnique(minutes * 60 + seconds, 60, minutes, seconds);
        KotlinMath.EuclidUnique(total, 60, hours * 60 + minutes, seconds);
      }
    }
    total
  }

  /**
   * Split a number of seconds into hours, minutes and seconds with Kotlin's truncating
   * division, so a negative count gives parts that are all zero or negative.
   */
  function FromTotalSeconds(total: int): (t: Hms)
    ensures ToTotalSeconds(t.hours, t.minutes, t.seconds) == total
    ensures total >= 0 ==> IsClockReading(t) && t.hours == total / 3600
    ensures total < 0 ==> t.hours <= 0 && -60 < t.minutes <= 0 && -60 < t.seconds <= 0
  {
    SplitNonNegative(if total >= 0 then total else -total);
    KotlinMath.DivRemOdd(total, 3600);
    KotlinMath.DivRemOdd(total, 60);
    KotlinMath.DivRemOdd(KotlinMath.Rem(total, 3600), 60);
    Hms(KotlinMath.Div(total, 3600),
        KotlinMath.Div(KotlinMath.Rem(total, 3600), 60),
        KotlinMath.Rem(total, 60))
  }

  /** The three-way split of a non-negative count, in Dafny's own division. */
  lemma SplitNonNegative(n: int)
    requires n >= 0
    ensures var h, m, s := KotlinMath.Div(n, 3600), KotlinMath.Div(KotlinMath.Rem(n, 3600), 60), KotlinMath.Rem(n, 60);
            h == n / 3600 && 0 <= m < 60 && 0 <= s < 60 && h * 3600 + m * 60 + s == n
  {
    var q, r := n / 3600, n % 3600;
    KotlinMath.EuclidNonNegative(n, 3600);
    KotlinMath.EuclidNonNegative(r, 60);
    KotlinMath.AgreeOnNonNegative(n, 3600);
    KotlinMath.AgreeOnNonNegative(r, 60);
    KotlinMath.AgreeOnNonNegative(n, 60);
    var m, s := r / 60, r % 60;
    assert n == (q * 60 + m) * 60 + s;
    KotlinMath.EuclidUnique(n, 60, q * 60 + m, s);
  }

  /** The reverse round trip: a clock reading survives conversion to seconds and back. */
  lemma FromTotalSecondsOfClockReading(t: Hms)
    requires IsClockReading(t)
    ensures FromTotalSeconds(ToTotalSeconds(t.hours, t.minutes, t.seconds)) == t
  {
    var total := ToTotalSeconds(t.hours, t.minutes, t.seconds);
    var u := FromTotalSeconds(total);
    assert u.hours == t.hours;
    assert u.minutes * 60 + u.seconds == t.minutes * 60 + t.seconds;
  }

  /**
   * `formatTime`: `HH:MM:SS` when there is at least one whole hour and `MM:SS` otherwise,
   * every field zero-padded to two characters; the parts are those of `FromTotalSeconds`.
   */
  function FormatTime(seconds: int): (text: string)
    ensures 0 <= seconds < 3600 ==> |text| == 5 && text[2] == ':'
    ensures seconds >= 3600 ==> |text| >= 8 && text[|text| - 6] == ':' && text[|text| - 3] == ':'
    ensures seconds >= 0 ==>
      && text[|text| - 5..|text| - 3] == Pad2(FromTotalSeconds(seconds).minutes)
      && text[|text| - 2..] == Pad2(FromTotalSeconds(seconds).seconds)
  {
    var t := FromTotalSeconds(seconds);
    if t.hours > 0 then Pad2(t.hours) + ":" + Pad2(t.minutes) + ":" + Pad2(t.seconds)
    else Pad2(t.minutes) + ":" + Pad2(t.seconds)
  }

  /** Read a clock face written as `MM:SS` or `H…H:MM:SS` back into seconds. */
  function ParseClock(text: string): (r: Option<int>)
    ensures r.Some? ==> r.value >= 0
  {
    var n := |text|;
    if n == 5 && text[2] == ':' && AllDigits(text[..2]) && AllDigits(text[3..])
       && Value(text[..2]) < 60 && Value(text[3..]) < 60 then
      Some(Value(text[..2]) * 60 + Value(text[3..]))
    else if n >= 8 && text[n - 6] == ':' && text[n - 3] == ':'
         && AllDigits(text[..n - 6]) && AllDigits(text[n - 5..n - 3]) && AllDigits(text[n - 2..])
         && Value(text[n - 5..n - 3]) < 60 && Value(text[n - 2..]) < 60
         && Value(text[..n - 6]) > 0 && (n == 8 || text[0] != '0') then
      Some(ToTotalSeconds(Value(text[..n - 6]), Value(text[n - 5..n - 3]), Value(text[n - 2..])))
    else None
  }

  /** What `FormatTime` shows for a non-negative count reads back as that count. */
  lemma ParseClockOfFormatTime(seconds: int)
    requires seconds >= 0
    ensures ParseClock(FormatTime(seconds)) == Some(seconds)
  {
    var t := FromTotalSeconds(seconds);
    ValueOfPad2(t.minutes);
    ValueOfPad2(t.seconds);
    var text := FormatTime(seconds);
    var n := |text|;
    if t.hours > 0 {
      ValueOfPad2(t.hours);
      var hh := Pad2(t.hours);
      assert text == hh + ":" + Pad2(t.minutes) + ":" + Pad2(t.seconds);
      assert text[..n - 6] == hh;
      assert text[n - 5..n - 3] == Pad2(t.minutes);
      assert text[n - 2..] == Pad2(t.seconds);
    } else {
      assert text[..2] == Pad2(t.minutes);
      assert text[3..] == Pad2(t.seconds);
    }
  }

  /**
   * The two clock faces the screen starts with: one minute and zero. Evaluating the
   * faces in one proof is too costly, so the split and the padding are separate steps.
   */
  lemma FormatTimeOfMinuteAndZero()
    ensures FormatTime(60) == "01:00" && FormatTime(0) == "00:00"
  {
    FaceOfMinute();
    FaceOfZero();
    PaddedFaces();
  }

  lemma FaceOfMinute()
    ensures FormatTime(60) == Pad2(1) + ":" + Pad2(0)
  {
    SplitOfMinute();
  }

  lemma FaceOfZero()
    ensures FormatTime(0) == Pad2(0) + ":" + Pad2(0)
  {
    SplitOfZero();
  }

  lemma SplitOfMinute()
    ensures FromTotalSeconds(60) == Hms(0, 1, 0)
  {
    KotlinMath.AgreeOnNonNegative(60, 3600);
    KotlinMath.AgreeOnNonNegative(60, 60);
  }

  lemma SplitOfZero()
    ensures FromTotalSeconds(0) == Hms(0, 0, 0)
  {
    KotlinMath.AgreeOnNonNegative(0, 3600);
    KotlinMath.AgreeOnNonNegative(0, 60);
  }

  lemma PaddedFaces()
    ensures Pad2(1) + ":" + Pad2(0) == "01:00" && Pad2(0) + ":" + Pad2(0) == "00:00"
  {
    assert DigitChar(1) == '1' && DigitChar(0) == '0';
    assert Digits(0) == "0" && Digits(1) == "1";
    assert Pad2(0) == "00" && Pad2(1) == "01";
  }
}
