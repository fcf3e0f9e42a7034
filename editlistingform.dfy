/**
 * The provider's listing editor: the 12-hour/24-hour time converters, the per-day window
 * validation, the per-day time handler that records a per-day error, the initial form state
 * built from the stored listing, and the submit that collapses the week to the days with a
 * time set.
 */
module EditListingForm {
  import opened Wrappers
  import opened JsString
  import opened TimeOfDay
  import opened Marketplace

  // ----- the time converters -----

  /** The hour after the AM/PM adjustment of `convertTo24Hour`; NaN passes through. */
  function Meridiem(hours: Option<int>, modifier: Option<string>): Option<int> {
    if hours.Some? && modifier == Some("PM") && hours.value < 12 then Some(hours.value + 12)
    else if hours.Some? && modifier == Some("AM") && hours.value == 12 then Some(0)
    else hours
  }

  /**
   * `convertTo24Hour`: '' stays ''; otherwise split off the modifier at the first space, read the
   * hour with `parseInt`, shift PM hours below 12 up by 12 and 12 AM down to 0, and pad both
   * halves to two characters. None is the TypeError of a time without ':' (`minutes` is
   * `undefined`).
   */
  function ConvertTo24Hour(time12h: string): (r: Option<string>)
    ensures time12h == "" ==> r == Some("")
    ensures time12h != "" ==> (r.Some? <==> |Split(Split(time12h, ' ')[0], ':')| >= 2)
  {
    if time12h == "" then Some("") else Assemble24(Split(time12h, ' '))
  }

  /** The rest of `convertTo24Hour`, from the pieces of the split at ' '. */
  function Assemble24(pieces: seq<string>): (r: Option<string>)
    requires |pieces| >= 1
    ensures r.Some? <==> |Split(pieces[0], ':')| >= 2
  {
    var modifier := Part(pieces, 1);
    var hm := Split(pieces[0], ':');
    var hours := Meridiem(ParseInt(hm[0]), modifier);
    match Part(hm, 1)
    case None => None
    case Some(minutes) => Some(PadStart2(NumberToString(hours)) + ":" + PadStart2(minutes))
  }

  /** `convertTo24Hour` on a time whose pieces are known. */
  lemma Assemble24Of(pieces: seq<string>, hs: string, minutes: string)
    requires |pieces| >= 1 && Split(pieces[0], ':') == [hs, minutes]
    ensures Assemble24(pieces)
      == Some(PadStart2(NumberToString(Meridiem(ParseInt(hs), Part(pieces, 1)))) + ":" + PadStart2(minutes))
  {
  }

  /** `hours % 12 || 12`: a zero remainder, and a NaN hour, both become 12. */
  function ClockHour(hours: Option<int>): (h: int)
    ensures hours.Some? && 0 <= hours.value ==> 1 <= h <= 12
    ensures hours.Some? && 0 <= hours.value ==> h % 12 == hours.value % 12
  {
    if hours.None? then 12
    else
      var x := JsRemainder(hours.value, 12);
      if x == 0 then 12 else x
  }

  /**
   * `convertTo12Hour`: '' stays ''; otherwise the hour read with `parseInt` becomes a 1..12
   * clock hour, unpadded, the minutes are padded, and the period is PM from hour 12 on. None is
   * the TypeError of a time without ':'.
   */
  function ConvertTo12Hour(time24: string): (r: Option<string>)
    ensures time24 == "" ==> r == Some("")
    ensures time24 != "" ==> (r.Some? <==> |Split(time24, ':')| >= 2)
  {
    if time24 == "" then Some("") else Assemble12(Split(time24, ':'))
  }

  /** The rest of `convertTo12Hour`, from the pieces of the split at ':'. */
  function Assemble12(hm: seq<string>): (r: Option<string>)
    requires |hm| >= 1
    ensures r.Some? <==> |hm| >= 2
  {
    var hours := ParseInt(hm[0]);
    var period := if hours.Some? && hours.value >= 12 then "PM" else "AM";
    match Part(hm, 1)
    case None => None
    case Some(minutes) =>
      Some(IntToString(ClockHour(hours)) + ":" + PadStart2(minutes) + " " + period)
  }

  /** The canonical 12-hour text `H:MM AM` / `H:MM PM`. */
  function Twelve(h: nat, mm: string, period: string): string {
    NatToString(h) + ":" + mm + " " + period
  }

  /** Two digits naming a minute, 00..59. */
  predicate IsMinutes(mm: string) {
    |mm| == 2 && AllDigits(mm) && TwoDigits(mm[0], mm[1]) <= 59
  }

  predicate IsPeriod(p: string) {
    p == "AM" || p == "PM"
  }

  /** The clock: 12 AM is hour 0, 12 PM is hour 12, and PM adds 12 to the other hours. */
  function HourOfDay(h: nat, period: string): (hour: nat)
    requires 1 <= h <= 12 && IsPeriod(period)
    ensures h == 12 && period == "AM" ==> hour == 0
    ensures h == 12 && period == "PM" ==> hour == 12
    ensures h < 12 && period == "AM" ==> hour == h
    ensures h < 12 && period == "PM" ==> hour == h + 12
  {
    h % 12 + (if period == "PM" then 12 else 0)
  }

  /** The clock the other way: the 1..12 hour and the period of an hour of the day. */
  function ClockOf(hour: nat): nat {
    if hour % 12 == 0 then 12 else hour % 12
  }

  function PeriodOf(hour: nat): string {
    if hour >= 12 then "PM" else "AM"
  }

  lemma ClockInverse(h: nat, period: string)
    requires 1 <= h <= 12 && IsPeriod(period)
    ensures HourOfDay(h, period) <= 23
    ensures ClockOf(HourOfDay(h, period)) == h && PeriodOf(HourOfDay(h, period)) == period
  {
  }

  lemma HourOfDayInverse(hour: nat)
    requires hour <= 23
    ensures 1 <= ClockOf(hour) <= 12 && IsPeriod(PeriodOf(hour))
    ensures HourOfDay(ClockOf(hour), PeriodOf(hour)) == hour
  {
  }

  /** `PadStart2(mm)` leaves a two-character string alone. */
  lemma PadTwo(mm: string)
    requires |mm| == 2
    ensures PadStart2(mm) == mm
  {
  }

  /**
   * A canonical 12-hour time converts to the `HH:MM` string of its hour of the day, with the
   * minutes kept: "12:MM AM" gives "00:MM", "H:MM PM" with H < 12 gives H + 12, and every
   * other hour is kept, zero-padded.
   */
  lemma ConvertTo24HourOfTwelve(h: nat, mm: string, period: string)
    requires 1 <= h <= 12 && IsMinutes(mm) && IsPeriod(period)
    ensures var r := ConvertTo24Hour(Twelve(h, mm, period));
      r == Some(PadStart2(NatToString(HourOfDay(h, period))) + ":" + mm)
      && IsHHMM(r.value) && Hours(r.value) == HourOfDay(h, period) && r.value[3..] == mm
  {
    var hs := NatToString(h);
    SplitTwelve(h, mm, period);
    Assemble24Of([hs + ":" + mm, period], hs, mm);
    ParseIntOfNat(h);
    var hour := HourOfDay(h, period);
    MeridiemOfClock(h, period);
    PadTwo(mm);
    PaddedHourIsHHMM(hour, mm);
  }

  /** The AM/PM adjustment of a 1..12 clock hour is its hour of the day. */
  lemma MeridiemOfClock(h: nat, period: string)
    requires 1 <= h <= 12 && IsPeriod(period)
    ensures Meridiem(Some(h), Some(period)) == Some(HourOfDay(h, period))
  {
  }

  /** The two splits `convertTo24Hour` makes of a canonical 12-hour text. */
  lemma SplitTwelve(h: nat, mm: string, period: string)
    requires IsMinutes(mm) && IsPeriod(period)
    ensures Split(Twelve(h, mm, period), ' ') == [NatToString(h) + ":" + mm, period]
    ensures Split(NatToString(h) + ":" + mm, ':') == [NatToString(h), mm]
  {
    var hs := NatToString(h);
    var time := hs + ":" + mm;
    assert ' ' !in time by {
      forall k | 0 <= k < |time| ensures time[k] != ' ' {
        if k < |hs| { assert time[k] == hs[k]; }
        else if k > |hs| { assert time[k] == mm[k - |hs| - 1]; }
      }
    }
    assert ' ' !in period;
    assert Twelve(h, mm, period) == time + [' '] + period;
    SplitPair(time, period, ' ');
    assert ':' !in hs by { assert forall k :: 0 <= k < |hs| ==> hs[k] != ':'; }
    assert ':' !in mm by { assert mm == [mm[0], mm[1]]; }
    assert time == hs + [':'] + mm;
    SplitPair(hs, mm, ':');
  }

  /** A padded hour below 24 and two minute digits make a well-formed `HH:MM`. */
  lemma PaddedHourIsHHMM(hour: nat, mm: string)
    requires hour <= 23 && IsMinutes(mm)
    ensures var r := PadStart2(NatToString(hour)) + ":" + mm;
      IsHHMM(r) && Hours(r) == hour && r[3..] == mm
  {
    PadStart2OfSmall(hour);
    var p := PadStart2(NatToString(hour));
    var r := p + ":" + mm;
    TwoDigitsValue(p);
    assert r[0] == p[0] && r[1] == p[1] && r[2] == ':' && r[3] == mm[0] && r[4] == mm[1];
    assert r[3..] == mm;
  }

  /**
   * A well-formed `HH:MM` converts to the canonical 12-hour text of its clock hour and period,
   * the minutes kept.
   */
  lemma ConvertTo12HourOfHHMM(t: string)
    requires IsHHMM(t)
    ensures ConvertTo12Hour(t) == Some(Twelve(ClockOf(Hours(t)), t[3..], PeriodOf(Hours(t))))
  {
    SplitOfHHMM(t);
    ParseIntOfTwoDigits(t[..2]);
    PadTwo(t[3..]);
    Assemble12Of(t[..2], t[3..], Hours(t));
  }

  /** `convertTo12Hour` on pieces whose hour reads as `hour`. */
  lemma Assemble12Of(hs: string, minutes: string, hour: nat)
    requires ParseInt(hs) == Some(hour) && |minutes| == 2
    ensures Assemble12([hs, minutes]) == Some(Twelve(ClockOf(hour), minutes, PeriodOf(hour)))
  {
    PadTwo(minutes);
  }

  /** Round trip from the 24-hour side: `convertTo24Hour(convertTo12Hour(t)) == t`. */
  lemma RoundTripFrom24(t: string)
    requires IsHHMM(t)
    ensures ConvertTo12Hour(t).Some? && ConvertTo24Hour(ConvertTo12Hour(t).value) == Some(t)
  {
    ConvertTo12HourOfHHMM(t);
    TwelveOfHHMMBack(t);
  }

  /** The canonical 12-hour text of a well-formed `HH:MM` converts back to it. */
  lemma TwelveOfHHMMBack(t: string)
    requires IsHHMM(t)
    ensures ConvertTo24Hour(Twelve(ClockOf(Hours(t)), t[3..], PeriodOf(Hours(t)))) == Some(t)
  {
    HHMMHalves(t);
    ConvertTo24HourOfClock(Hours(t), t[3..]);
  }

  /** A well-formed `HH:MM` is its padded hour, ':' and its minute digits. */
  lemma HHMMHalves(t: string)
    requires IsHHMM(t)
    ensures Hours(t) <= 23 && IsMinutes(t[3..])
    ensures PadStart2(NatToString(Hours(t))) + ":" + t[3..] == t
  {
    PaddedHours(t);
    assert t == t[..2] + ":" + t[3..];
    assert t[3..][0] == t[3] && t[3..][1] == t[4];
  }

  /** The 12-hour text of an hour of the day converts back to that hour, padded. */
  lemma ConvertTo24HourOfClock(hour: nat, mm: string)
    requires hour <= 23 && IsMinutes(mm)
    ensures ConvertTo24Hour(Twelve(ClockOf(hour), mm, PeriodOf(hour)))
      == Some(PadStart2(NatToString(hour)) + ":" + mm)
  {
    HourOfDayInverse(hour);
    ConvertTo24HourOfTwelve(ClockOf(hour), mm, PeriodOf(hour));
  }

  /** Round trip from the 12-hour side: `convertTo12Hour(convertTo24Hour(s)) == s`. */
  lemma RoundTripFrom12(h: nat, mm: string, period: string)
    requires 1 <= h <= 12 && IsMinutes(mm) && IsPeriod(period)
    ensures var r := ConvertTo24Hour(Twelve(h, mm, period));
      r.Some? && ConvertTo12Hour(r.value) == Some(Twelve(h, mm, period))
  {
    ConvertTo24HourOfTwelve(h, mm, period);
    var r := ConvertTo24Hour(Twelve(h, mm, period)).value;
    ConvertTo12HourOfHHMM(r);
    ClockInverse(h, period);
  }

  /** A time already in `HH:MM` form has no modifier and passes `convertTo24Hour` unchanged. */
  lemma ConvertTo24HourOfHHMM(t: string)
    requires IsHHMM(t)
    ensures ConvertTo24Hour(t) == Some(t)
  {
    NoModifier(t);
    AssembleOfHHMM(t);
  }

  lemma AssembleOfHHMM(t: string)
    requires IsHHMM(t)
    ensures Assemble24([t]) == Some(t)
  {
    var a, b := t[..2], t[3..];
    HalvesOfHHMM(t);
    SplitOfHHMM(t);
    Assemble24Of([t], a, b);
    HourOfHHMM(t);
    PadTwo(b);
    RejoinHHMM(t);
  }

  lemma RejoinHHMM(t: string)
    requires |t| == 5 && t[2] == ':'
    ensures t == t[..2] + ":" + t[3..]
  {
  }

  lemma NoModifier(t: string)
    requires IsHHMM(t)
    ensures ConvertTo24Hour(t) == Assemble24([t]) && Part([t], 1) == None
  {
    assert ' ' !in t by { assert t == [t[0], t[1], t[2], t[3], t[4]]; }
    SplitNoSep(t, ' ');
  }

  /** The hour half of `HH:MM`, read, left alone by the AM/PM step and padded again, is itself. */
  lemma HourOfHHMM(t: string)
    requires IsHHMM(t)
    ensures PadStart2(NumberToString(Meridiem(ParseInt(t[..2]), None))) == t[..2]
  {
    var a, h := t[..2], Hours(t);
    HalvesOfHHMM(t);
    ParseIntOfTwoDigits(a);
    assert ParseInt(a) == Some(h);
    NoMeridiem(h);
    PaddedHours(t);
  }

  lemma NoMeridiem(h: nat)
    ensures NumberToString(Meridiem(Some(h), None)) == NatToString(h)
  {
  }

  // ----- validation of one day's window -----

  /**
   * `validateTime`: a day with neither time is fine, a day with exactly one is not, and a day
   * with both needs start before end in string order.
   */
  function ValidateTime(start: string, end: string): (ok: bool)
    ensures start == "" && end == "" ==> ok
    ensures (start == "") != (end == "") ==> !ok
    ensures start != "" && end != "" ==> (ok <==> LexLess(start, end))
  {
    if (start != "" && end == "") || (start == "" && end != "") then false
    else if start == "" && end == "" then true
    else LexLess(start, end)
  }

  /** On zero-padded `HH:MM` strings the string order is the order of the minutes of the day. */
  lemma LexLessOfHHMM(a: string, b: string)
    requires IsHHMM(a) && IsHHMM(b)
    ensures LexLess(a, b) <==> MinuteOfDay(a) < MinuteOfDay(b)
  {
    if a[0] == b[0] {
      LexLessStep(a, b);
      assert a[1..][0] == a[1] && b[1..][0] == b[1];
      if a[1] == b[1] {
        LexLessStep(a[1..], b[1..]);
        assert a[1..][1..] == a[2..] && b[1..][1..] == b[2..];
        LexLessStep(a[2..], b[2..]);
        assert a[2..][1..] == a[3..] && b[2..][1..] == b[3..];
        assert a[3..][0] == a[3] && b[3..][0] == b[3];
        if a[3] == b[3] {
          LexLessStep(a[3..], b[3..]);
          assert a[3..][1..] == a[4..] && b[3..][1..] == b[4..];
          assert a[4..][0] == a[4] && b[4..][0] == b[4];
          if a[4] == b[4] {
            LexLessStep(a[4..], b[4..]);
            assert a[4..][1..] == [] && b[4..][1..] == [];
            assert a == b by { assert a == [a[0], a[1], a[2], a[3], a[4]]; assert b == [b[0], b[1], b[2], b[3], b[4]]; }
          }
        }
      }
    }
  }

  /** Past an equal first character, `<` compares the rests. */
  lemma LexLessStep(a: string, b: string)
    requires a != [] && b != [] && a[0] == b[0]
    ensures LexLess(a, b) == LexLess(a[1..], b[1..])
  {
  }

  /** So for two well-formed times a window is valid exactly when it is non-empty. */
  lemma ValidateTimeOfHHMM(start: string, end: string)
    requires IsHHMM(start) && IsHHMM(end)
    ensures ValidateTime(start, end) <==> MinuteOfDay(start) < MinuteOfDay(end)
  {
    LexLessOfHHMM(start, end);
  }

  // ----- the form state -----

  /** The seven days, each with no times. */
  function BlankWeek(): (w: Availability)
    ensures forall i :: 0 <= i < 7 ==> WeekDays[i] in w && w[WeekDays[i]] == Window("", "")
    ensures forall d :: d in w ==> d in WeekDays
  {
    map d | d in WeekDays :: Window("", "")
  }

  /** Both bounds of every stored window convert without a TypeError. */
  predicate Convertible(stored: Availability) {
    forall d :: d in stored ==>
      ConvertTo24Hour(stored[d].start).Some? && ConvertTo24Hour(stored[d].end).Some?
  }

  /**
   * The initial availability: the blank week with every stored day overwritten by its converted
   * window. None when a stored time makes `convertTo24Hour` throw.
   */
  function InitialAvailability(stored: Availability): (r: Option<Availability>)
    ensures r.Some? <==> Convertible(stored)
    ensures r.Some? ==> forall i :: 0 <= i < 7 ==> WeekDays[i] in r.value
    ensures r.Some? ==> forall d :: d in r.value <==> d in WeekDays || d in stored
    ensures r.Some? ==> forall d :: d in stored ==>
      r.value[d] == Window(ConvertTo24Hour(stored[d].start).value, ConvertTo24Hour(stored[d].end).value)
    ensures r.Some? ==> forall d :: d in r.value && d !in stored ==> r.value[d] == Window("", "")
  {
    if Convertible(stored) then
      Some(map d | d in BlankWeek().Keys + stored.Keys ::
        if d in stored then
          Window(ConvertTo24Hour(stored[d].start).value, ConvertTo24Hour(stored[d].end).value)
        else Window("", ""))
    else None
  }

  /** A week already stored in `HH:MM` form (or with days left empty) is taken over unchanged. */
  lemma InitialOfHHMMWeek(stored: Availability)
    requires forall d :: d in stored ==>
      (stored[d].start == "" || IsHHMM(stored[d].start)) && (stored[d].end == "" || IsHHMM(stored[d].end))
    ensures InitialAvailability(stored) == Some(BlankWeek() + stored)
  {
    forall d | d in stored
      ensures ConvertTo24Hour(stored[d].start) == Some(stored[d].start)
      ensures ConvertTo24Hour(stored[d].end) == Some(stored[d].end)
    {
      if stored[d].start != "" { ConvertTo24HourOfHHMM(stored[d].start); }
      if stored[d].end != "" { ConvertTo24HourOfHHMM(stored[d].end); }
    }
    var r := InitialAvailability(stored).value;
    var expected := BlankWeek() + stored;
    assert r.Keys == expected.Keys;
    forall d | d in r ensures r[d] == expected[d] {
      if d in stored {
        assert r[d] == Window(stored[d].start, stored[d].end);
      }
    }
    assert r == expected;
  }

  /**
   * The form state built from a listing: the text fields fall back to '' (`listing.x || ''`),
   * and the availability is the initial week.
   */
  function InitialFormData(listing: Listing): (r: Option<FormData>)
    ensures r.Some? <==> Convertible(listing.availability)
    ensures r.Some? ==> (r.value.serviceName == OrElse(listing.serviceName, "")
      && r.value.location == OrElse(listing.location, "")
      && r.value.pricePerHour == OrElse(listing.pricePerHour, "")
      && r.value.description == OrElse(listing.description, "")
      && Some(r.value.availability) == InitialAvailability(listing.availability))
  {
    match InitialAvailability(listing.availability)
    case None => None
    case Some(av) =>
      Some(FormData(OrElse(listing.serviceName, ""), OrElse(listing.location, ""),
        OrElse(listing.pricePerHour, ""), OrElse(listing.description, ""), av))
  }

  // ----- editing one day -----

  /**
   * The value normalisation of `handleTimeChange`: '' stays '', anything else is re-padded as
   * `HH:MM` from its first two ':'-pieces. None is the TypeError of a value without ':'.
   */
  function NormaliseTime(value: string): (r: Option<string>)
    ensures value == "" ==> r == Some("")
    ensures value != "" ==> (r.Some? <==> |Split(value, ':')| >= 2)
  {
    if value == "" then Some("")
    else
      var hm := Split(value, ':');
      match Part(hm, 1)
      case None => None
      case Some(minutes) => Some(PadStart2(hm[0]) + ":" + PadStart2(minutes))
  }

  /** What the time input itself produces, `HH:MM`, is stored as it is. */
  lemma NormaliseTimeOfHHMM(t: string)
    requires IsHHMM(t)
    ensures NormaliseTime(t) == Some(t)
  {
    SplitOfHHMM(t);
    PadTwo(t[..2]);
    PadTwo(t[3..]);
    assert t == t[..2] + ":" + t[3..];
  }

  const StartNeedsEndMessage := "When setting start time, end time is required"
  const EndNeedsStartMessage := "When setting end time, start time is required"

  /** The per-day error recorded for an edit: null when the new window is valid. */
  function DayError(u: Window, field: Field): (e: Option<string>)
    ensures e.None? <==> ValidateTime(u.start, u.end)
    ensures e.Some? ==> e.value == (if field == Start then StartNeedsEndMessage else EndNeedsStartMessage)
  {
    if ValidateTime(u.start, u.end) then None
    else if field == Start then Some(StartNeedsEndMessage)
    else Some(EndNeedsStartMessage)
  }

  /** `Object.values(timeErrors).some(error => error)`: some day holds a non-empty message. */
  predicate HasError(errors: map<string, Option<string>>) {
    exists d :: d in errors && errors[d].Some? && errors[d].value != ""
  }

  // ----- submitting -----

  predicate AnyTimeSet(w: Window) {
    w.start != "" || w.end != ""
  }

  /**
   * The collapsed availability the edit submit sends: the days with a start OR an end, their
   * windows unchanged. A one-sided day is kept.
   */
  function Collapse(av: Availability): (r: Availability)
    ensures forall d :: d in r <==> d in av && AnyTimeSet(av[d])
    ensures forall d :: d in r ==> r[d] == av[d]
  {
    map d | d in av && AnyTimeSet(av[d]) :: av[d]
  }

  /** Collapsing twice changes nothing more. */
  lemma CollapseIdempotent(av: Availability)
    ensures Collapse(Collapse(av)) == Collapse(av)
  {
    assert Collapse(Collapse(av)).Keys == Collapse(av).Keys;
  }

  /** The blank week collapses to nothing: a form nobody touched submits no days. */
  lemma CollapseBlankWeek()
    ensures Collapse(BlankWeek()) == map[]
  {
    assert forall d :: d in BlankWeek() ==> !AnyTimeSet(BlankWeek()[d]);
  }

  /**
   * The days validation accepts are empty or two-sided, so once no error is recorded
   * the days the edit submit keeps agree with a both-set filter. This holds only if
   * `timeErrors` tracks every day; a window loaded one-sided from the listing has no error entry.
   */
  lemma ValidWeekKeepsTwoSidedDays(av: Availability)
    requires forall d :: d in av ==> ValidateTime(av[d].start, av[d].end)
    ensures forall d :: d in Collapse(av) ==> av[d].start != "" && av[d].end != ""
  {
  }

  /** What `onSubmit` receives; `pricePerHour` stays the input text (`parseFloat` is not modelled). */
  datatype EditPayload = EditPayload(
    serviceName: string,
    location: string,
    pricePerHour: string,
    description: string,
    availability: AvailabilityBody)

  /** The form component's state: the form data and one optional error per day. */
  class Editor {
    var formData: FormData
    var timeErrors: map<string, Option<string>>

    constructor(data: FormData)
      ensures formData == data && timeErrors == map[]
    {
      formData := data;
      timeErrors := map[];
    }

    /**
     * `handleTimeChange(day, field, value)`: the value is normalised, only `field` of `day` is
     * replaced, and the day's error is recomputed from the new window. A value that makes the
     * normalisation throw changes nothing.
     */
    method HandleTimeChange(day: string, field: Field, value: string)
      requires day in formData.availability
      modifies this
      ensures NormaliseTime(value).None? ==>
        formData == old(formData) && timeErrors == old(timeErrors)
      ensures NormaliseTime(value).Some? ==>
        var u := SetBound(old(formData.availability[day]), field, NormaliseTime(value).value);
        formData == old(formData).(availability := old(formData.availability)[day := u])
        && timeErrors == old(timeErrors)[day := DayError(u, field)]
      ensures formData.availability.Keys == old(formData.availability.Keys)
      ensures forall d :: d in old(formData.availability) && d != day ==>
        formData.availability[d] == old(formData.availability[d])
      ensures forall d :: d in old(timeErrors) && d != day ==> d in timeErrors && timeErrors[d] == old(timeErrors[d])
    {
      var normalised := NormaliseTime(value);
      if normalised.None? {
        return;
      }
      var v := normalised.value;
      var updated := SetBound(formData.availability[day], field, v);
      timeErrors := timeErrors[day := DayError(updated, field)];
      formData := formData.(availability := formData.availability[day := updated]);
    }

    /**
     * `handleSubmit`: nothing is sent while a day holds an error; otherwise the form data goes
     * out with the availability collapsed to the days with a time set, in the envelope.
     */
    method HandleSubmit() returns (r: Option<EditPayload>)
      ensures HasError(timeErrors) ==> r.None?
      ensures !HasError(timeErrors) ==> r == Some(EditPayload(formData.serviceName,
        formData.location, formData.pricePerHour, formData.description,
        AvailabilityBody(Collapse(formData.availability))))
    {
      if HasError(timeErrors) {
        return None;
      }
      var av := formData.availability;
      var formatted: Availability := map[];
      var remaining := av.Keys;
      while remaining != {}
        invariant remaining <= av.Keys
        invariant forall d :: d in formatted <==> d in av && d !in remaining && AnyTimeSet(av[d])
        invariant forall d :: d in formatted ==> formatted[d] == av[d]
        decreases |remaining|
      {
        var d :| d in remaining;
        if AnyTimeSet(av[d]) {
          formatted := formatted[d := av[d]];
        }
        remaining := remaining - {d};
      }
      assert formatted == Collapse(av);
      r := Some(EditPayload(formData.serviceName, formData.location, formData.pricePerHour,
        formData.description, AvailabilityBody(formatted)));
    }
  }
}
