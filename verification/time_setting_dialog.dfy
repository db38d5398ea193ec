/**
 * The minutes/seconds dialog: the filters its two text fields apply to each edit,
 * and what its confirm button does. The two-argument seconds conversion it calls
 * lives outside the modelled utilities, so it is a parameter.
 */
module TimeSettingDialog {
  import opened Decimal
  import opened Wrappers

  /** The minutes field takes an edit of at most three digits; anything else keeps the current text. */
  function FilterMinutes(current: string, edit: string): (r: string)
    ensures r == edit <==> (AllDigits(edit) && |edit| <= 3) || edit == current
    ensures r == current || r == edit
  {
    if AllDigits(edit) && |edit| <= 3 then edit else current
  }

  /** `toIntOrNull() ?: 0`. */
  function ParseOrZero(text: string): (n: int)
    ensures AllDigits(text) ==> n == Value(text)
  {
    match ToIntOrNull(text)
    case Some(n) => n
    case None => 0
  }

  /** The seconds field takes an edit of at most two digits whose value (empty is 0) is under sixty. */
  function FilterSeconds(current: string, edit: string): (r: string)
    ensures r == edit <==> (AllDigits(edit) && |edit| <= 2 && Value(edit) < 60) || edit == current
    ensures r == current || r == edit
  {
    if AllDigits(edit) && |edit| <= 2 then
      var seconds := ParseOrZero(edit);
      if seconds < 60 then edit else current
    else current
  }

  /** Text the seconds field can hold once the user has typed into it. */
  predicate SecondsText(text: string) {
    AllDigits(text) && |text| <= 2 && Value(text) < 60
  }

  /** Text the minutes field can hold once the user has typed into it. */
  predicate MinutesText(text: string) {
    AllDigits(text) && |text| <= 3
  }

  /** Both filters take the empty text, which then reads as zero. */
  lemma EmptyTextAccepted(current: string)
    ensures FilterMinutes(current, "") == "" && FilterSeconds(current, "") == ""
    ensures ParseOrZero("") == 0
  {
  }

  /** Whatever the filters let through parses to a minute count below 1000 and a second count below 60. */
  lemma FiltersKeepFieldsValid(currentMinutes: string, minutesEdit: string, currentSeconds: string, secondsEdit: string)
    requires MinutesText(currentMinutes) && SecondsText(currentSeconds)
    ensures MinutesText(FilterMinutes(currentMinutes, minutesEdit))
    ensures SecondsText(FilterSeconds(currentSeconds, secondsEdit))
    ensures 0 <= ParseOrZero(FilterMinutes(currentMinutes, minutesEdit)) < 1000
    ensures 0 <= ParseOrZero(FilterSeconds(currentSeconds, secondsEdit)) < 60
  {
    var m := FilterMinutes(currentMinutes, minutesEdit);
    assert Value(m) < Pow10(|m|) <= 1000 by { Pow10Monotone(|m|, 3); }
  }

  lemma {:induction false} Pow10Monotone(i: nat, j: nat)
    requires i <= j
    ensures Pow10(i) <= Pow10(j)
    decreases j
  {
    if i < j {
      Pow10Monotone(i, j - 1);
    }
  }

  /** The seconds field starts from the initial seconds' decimal text, which the filter's rule admits for 0..59. */
  lemma InitialSecondsText(initialSeconds: int)
    requires 0 <= initialSeconds < 60
    ensures SecondsText(IntToString(initialSeconds))
    ensures ParseOrZero(IntToString(initialSeconds)) == initialSeconds
  {
    ValueOfDigits(initialSeconds);
  }

  /** What pressing confirm does: the values handed to `onConfirm`, if it is called, and whether `onDismiss` is. */
  datatype Confirmation = Confirmation(confirmed: Option<(int, int)>, dismissed: bool)

  /** The confirm button: confirm the parsed values only when they make a positive duration, then always dismiss. */
  function Confirm(minutesText: string, secondsText: string, toTotalSeconds: (int, int) -> int): (c: Confirmation)
    ensures c.dismissed
    ensures c.confirmed.Some? <==> toTotalSeconds(ParseOrZero(minutesText), ParseOrZero(secondsText)) > 0
    ensures c.confirmed.Some? ==> c.confirmed.value == (ParseOrZero(minutesText), ParseOrZero(secondsText))
  {
    var minutes := ParseOrZero(minutesText);
    var seconds := ParseOrZero(secondsText);
    var totalSeconds := toTotalSeconds(minutes, seconds);
    Confirmation(if totalSeconds > 0 then Some((minutes, seconds)) else None, true)
  }
}
