/**
 * Wall-clock times in the zero-padded 24-hour form `HH:MM` that the browser's time inputs
 * produce and that listings store, and the minute of the day such a string names.
 */
module TimeOfDay {
  import opened JsString

  /** `HH:MM` with `HH` in 00..23 and `MM` in 00..59. */
  predicate IsHHMM(t: string) {
    |t| == 5 && IsDigit(t[0]) && IsDigit(t[1]) && t[2] == ':' && IsDigit(t[3]) && IsDigit(t[4])
    && TwoDigits(t[0], t[1]) <= 23 && TwoDigits(t[3], t[4]) <= 59
  }

  function Hours(t: string): nat
    requires IsHHMM(t)
  {
    TwoDigits(t[0], t[1])
  }

  function Mins(t: string): nat
    requires IsHHMM(t)
  {
    TwoDigits(t[3], t[4])
  }

  /** The minute of the day `t` names. */
  function MinuteOfDay(t: string): (m: nat)
    requires IsHHMM(t)
    ensures m < 1440
  {
    60 * Hours(t) + Mins(t)
  }

  /** The `HH:MM` string of minute `m` of the day. */
  function FormatHHMM(m: nat): (t: string)
    requires m < 1440
    ensures IsHHMM(t) && MinuteOfDay(t) == m
  {
    var h, mm := m / 60, m % 60;
    [DigitChar(h / 10), DigitChar(h % 10), ':', DigitChar(mm / 10), DigitChar(mm % 10)]
  }

  /** Distinct well-formed strings name distinct minutes, so `FormatHHMM` inverts `MinuteOfDay`. */
  lemma FormatMinuteOfDay(t: string)
    requires IsHHMM(t)
    ensures FormatHHMM(MinuteOfDay(t)) == t
  {
    var m := MinuteOfDay(t);
    assert m / 60 == Hours(t) && m % 60 == Mins(t);
    var h := Hours(t);
    assert h / 10 == DigitValue(t[0]) && h % 10 == DigitValue(t[1]);
    var mm := Mins(t);
    assert mm / 10 == DigitValue(t[3]) && mm % 10 == DigitValue(t[4]);
  }

  /** The two halves of a well-formed `HH:MM` are two-digit strings. */
  lemma HalvesOfHHMM(t: string)
    requires IsHHMM(t)
    ensures |t[..2]| == 2 && AllDigits(t[..2]) && t[..2][0] == t[0] && t[..2][1] == t[1]
    ensures |t[3..]| == 2 && AllDigits(t[3..]) && t[3..][0] == t[3] && t[3..][1] == t[4]
  {
  }

  /** `t.split(':')` of a well-formed `HH:MM` is its two halves. */
  lemma SplitOfHHMM(t: string)
    requires IsHHMM(t)
    ensures Split(t, ':') == [t[..2], t[3..]]
  {
    var a, b := t[..2], t[3..];
    assert ':' !in a by { assert a == [t[0], t[1]]; }
    assert ':' !in b by { assert b == [t[3], t[4]]; }
    assert t == a + [':'] + b;
    SplitPair(a, b, ':');
  }

  /** The hour of `t`, rendered by `String` and padded to two digits, is the first half of `t`. */
  lemma PaddedHours(t: string)
    requires IsHHMM(t)
    ensures PadStart2(NatToString(Hours(t))) == t[..2]
  {
    HalvesOfHHMM(t);
    PadStart2OfSmall(Hours(t));
    TwoDigitsValue(t[..2]);
    TwoDigitStringsEqual(PadStart2(NatToString(Hours(t))), t[..2]);
  }
}
