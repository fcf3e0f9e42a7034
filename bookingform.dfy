/**
 * The customer's booking form: the pre-flight check a requested (date, start, end) slot
 * must pass against the listing's weekly availability before it is handed to the
 * booking callback. It reads the availability and changes nothing.
 */
module BookingForm {
  import opened Wrappers
  import opened JsString
  import opened Calendar
  import opened TimeOfDay
  import opened Marketplace

  /** `weekdayMap`, indexed the way `getDay()` counts: 0 is Sunday. */
  const WeekdayMap: seq<string> :=
    ["SUNDAY", "MONDAY", "TUESDAY", "WEDNESDAY", "THURSDAY", "FRIDAY", "SATURDAY"]

  /**
   * `toMinutes`: split on ':', read both pieces with `Number`, and compute `h * 60 + m`.
   * NaN (None) when either piece is not a number or there is no second piece.
   */
  function ToMinutes(t: string): (r: Option<int>)
    ensures r.Some? ==> r.value >= 0
  {
    MinutesOfPieces(Split(t, ':'))
  }

  /** A time without ':' is NaN: the split has no second piece. */
  lemma NoColonIsNaN(t: string)
    requires ':' !in t
    ensures ToMinutes(t).None?
  {
    SplitNoSep(t, ':');
  }

  /** `h * 60 + m` for the pieces of the split. */
  function MinutesOfPieces(parts: seq<string>): (r: Option<int>)
    requires |parts| >= 1
    ensures r.Some? ==> r.value >= 0
  {
    var h := ToNumber(parts[0]);
    var m := if |parts| >= 2 then ToNumber(parts[1]) else None;
    if h.Some? && m.Some? then Some(h.value * 60 + m.value) else None
  }

  /** A well-formed `HH:MM` string reads as its minute of the day, 60·HH + MM, in 0..1439. */
  lemma ToMinutesOfHHMM(t: string)
    requires IsHHMM(t)
    ensures ToMinutes(t) == Some(60 * Hours(t) + Mins(t))
    ensures 0 <= ToMinutes(t).value <= 1439
  {
    SplitOfHHMM(t);
    HalfNumbers(t);
    PiecesOfNumbers(t[..2], t[3..], Hours(t), Mins(t));
  }

  lemma HalfNumbers(t: string)
    requires IsHHMM(t)
    ensures ToNumber(t[..2]) == Some(Hours(t)) && ToNumber(t[3..]) == Some(Mins(t))
  {
    HalvesOfHHMM(t);
    ToNumberOfTwoDigits(t[..2]);
    ToNumberOfTwoDigits(t[3..]);
  }

  lemma PiecesOfNumbers(a: string, b: string, x: int, y: int)
    requires ToNumber(a) == Some(x) && ToNumber(b) == Some(y)
    ensures MinutesOfPieces([a, b]) == Some(60 * x + y)
  {
  }

  /** JavaScript's `a < b` on numbers: false when either side is NaN. */
  predicate Less(a: Option<int>, b: Option<int>) {
    a.Some? && b.Some? && a.value < b.value
  }

  /** `weekdayMap[new Date(date).getDay()]`; an Invalid Date gives index NaN and so `undefined`. */
  function SelectedDay(date: string): (day: string)
    ensures ParseIsoDate(date).Some? ==> day == WeekdayMap[DayOfWeek(ParseIsoDate(date).value)]
    ensures ParseIsoDate(date).None? ==> day == "undefined"
  {
    match ParseIsoDate(date)
    case Some(dt) => WeekdayMap[DayOfWeek(dt)]
    case None => "undefined"
  }

  /** What `onConfirm` receives. */
  datatype BookingRequest = BookingRequest(date: string, start: string, end: string, listingId: string)

  /**
   * The result of a submit: `Rejected(m)` sets the validation error to `m` and calls nothing;
   * `Confirmed(q)` clears the validation error and calls `onConfirm(q)`.
   */
  datatype SubmitOutcome = Rejected(message: string) | Confirmed(request: BookingRequest)

  const MissingFieldsMessage := "Please fill all fields."
  const StartNotBeforeEndMessage := "Start time must be earlier than end time."

  function NotAvailableMessage(day: string): string {
    "This provider is not available on " + day + "."
  }

  function OutsideHoursMessage(w: Window): string {
    "Selected time must be within available hours: " + w.start + " \U{2013} " + w.end
  }

  // The four guards, in the order they run.

  predicate FieldsPresent(date: string, start: string, end: string) {
    date != "" && start != "" && end != ""
  }

  predicate DayOffered(availability: Availability, date: string) {
    SelectedDay(date) in availability
  }

  predicate StartBeforeEnd(start: string, end: string) {
    !(ToMinutes(start).Some? && ToMinutes(end).Some? && ToMinutes(start).value >= ToMinutes(end).value)
  }

  predicate WithinWindow(w: Window, start: string, end: string) {
    !(Less(ToMinutes(start), ToMinutes(w.start)) || Less(ToMinutes(w.end), ToMinutes(end)))
  }

  /**
   * `handleSubmit`: the first guard that fails decides the message; only a request that
   * passes all four reaches `onConfirm`, carrying exactly the entered values and the listing id.
   */
  function HandleSubmit(listing: Listing, date: string, start: string, end: string): (r: SubmitOutcome)
    ensures !FieldsPresent(date, start, end) ==> r == Rejected(MissingFieldsMessage)
    ensures FieldsPresent(date, start, end) && !DayOffered(listing.availability, date)
      ==> r == Rejected(NotAvailableMessage(SelectedDay(date)))
    ensures FieldsPresent(date, start, end) && DayOffered(listing.availability, date)
      && !StartBeforeEnd(start, end)
      ==> r == Rejected(StartNotBeforeEndMessage)
    ensures FieldsPresent(date, start, end) && DayOffered(listing.availability, date)
      && StartBeforeEnd(start, end)
      && !WithinWindow(listing.availability[SelectedDay(date)], start, end)
      ==> r == Rejected(OutsideHoursMessage(listing.availability[SelectedDay(date)]))
    ensures r.Confirmed? <==>
      FieldsPresent(date, start, end) && DayOffered(listing.availability, date)
      && StartBeforeEnd(start, end) && WithinWindow(listing.availability[SelectedDay(date)], start, end)
    ensures r.Confirmed? ==> r.request == BookingRequest(date, start, end, listing.serviceListingId)
  {
    if date == "" || start == "" || end == "" then
      Rejected(MissingFieldsMessage)
    else
      var day := SelectedDay(date);
      if day !in listing.availability then
        Rejected(NotAvailableMessage(day))
      else if ToMinutes(start).Some? && ToMinutes(end).Some?
        && ToMinutes(start).value >= ToMinutes(end).value then
        Rejected(StartNotBeforeEndMessage)
      else
        var w := listing.availability[day];
        if Less(ToMinutes(start), ToMinutes(w.start)) || Less(ToMinutes(w.end), ToMinutes(end)) then
          Rejected(OutsideHoursMessage(w))
        else
          Confirmed(BookingRequest(date, start, end, listing.serviceListingId))
  }

  /**
   * With well-formed times everywhere, a request on a real date is accepted exactly when the
   * date's weekday has a window, start is strictly before end, and the slot lies inside the
   * window with both bounds inclusive.
   */
  lemma AcceptedIffInsideWindow(listing: Listing, date: string, start: string, end: string)
    requires ParseIsoDate(date).Some?
    requires IsHHMM(start) && IsHHMM(end)
    requires forall d :: d in listing.availability ==>
      IsHHMM(listing.availability[d].start) && IsHHMM(listing.availability[d].end)
    ensures var day := WeekdayMap[DayOfWeek(ParseIsoDate(date).value)];
      HandleSubmit(listing, date, start, end).Confirmed? <==>
        day in listing.availability
        && MinuteOfDay(start) < MinuteOfDay(end)
        && MinuteOfDay(listing.availability[day].start) <= MinuteOfDay(start)
        && MinuteOfDay(end) <= MinuteOfDay(listing.availability[day].end)
  {
    StartBeforeEndOfHHMM(start, end);
    var day := SelectedDay(date);
    if day in listing.availability {
      WithinWindowOfHHMM(listing.availability[day], start, end);
    }
  }

  lemma StartBeforeEndOfHHMM(start: string, end: string)
    requires IsHHMM(start) && IsHHMM(end)
    ensures StartBeforeEnd(start, end) <==> MinuteOfDay(start) < MinuteOfDay(end)
  {
    ToMinutesOfHHMM(start);
    ToMinutesOfHHMM(end);
  }

  lemma WithinWindowOfHHMM(w: Window, start: string, end: string)
    requires IsHHMM(start) && IsHHMM(end) && IsHHMM(w.start) && IsHHMM(w.end)
    ensures WithinWindow(w, start, end) <==>
      MinuteOfDay(w.start) <= MinuteOfDay(start) && MinuteOfDay(end) <= MinuteOfDay(w.end)
  {
    ToMinutesOfHHMM(start);
    ToMinutesOfHHMM(end);
    ToMinutesOfHHMM(w.start);
    ToMinutesOfHHMM(w.end);
  }

  /**
   * A start or end that reads as NaN makes every comparison false: the order check passes, and
   * the window only checks the side that is a number.
   */
  lemma UnreadableTimesPassOrder(w: Window, start: string, end: string)
    requires ToMinutes(start).None? || ToMinutes(end).None?
    ensures StartBeforeEnd(start, end)
    ensures ToMinutes(start).None? ==>
      (WithinWindow(w, start, end) <==> !Less(ToMinutes(w.end), ToMinutes(end)))
    ensures ToMinutes(end).None? ==>
      (WithinWindow(w, start, end) <==> !Less(ToMinutes(start), ToMinutes(w.start)))
  {
  }

  /** A slot that starts when it ends is never accepted. */
  lemma EmptySlotRejected(listing: Listing, date: string, t: string)
    requires IsHHMM(t)
    ensures HandleSubmit(listing, date, t, t).Rejected?
  {
    ToMinutesOfHHMM(t);
  }

  /**
   * A stored window whose bounds are not `HH:MM` (for instance the 12-hour form "9:00 AM")
   * reads as NaN, every comparison with it is false, and so it bounds nothing: any slot with
   * start before end is accepted on that day.
   */
  lemma UnreadableWindowBoundsNothing(listing: Listing, date: string, start: string, end: string)
    requires FieldsPresent(date, start, end) && DayOffered(listing.availability, date)
    requires IsHHMM(start) && IsHHMM(end) && MinuteOfDay(start) < MinuteOfDay(end)
    requires ToMinutes(listing.availability[SelectedDay(date)].start).None?
    requires ToMinutes(listing.availability[SelectedDay(date)].end).None?
    ensures HandleSubmit(listing, date, start, end).Confirmed?
  {
    StartBeforeEndOfHHMM(start, end);
  }

  /**
   * The 12-hour form `H:MM AM` / `H:MM PM` that the listing editor produces reads as NaN:
   * the piece after ':' holds a space.
   */
  lemma TwelveHourFormIsNaN(h: string, mm: string, period: string)
    requires |h| >= 1 && AllDigits(h) && |mm| == 2 && AllDigits(mm)
    requires period == "AM" || period == "PM"
    ensures ToMinutes(h + ":" + mm + " " + period) == None
  {
    var b := mm + " " + period;
    assert ':' !in h by { assert forall k :: 0 <= k < |h| ==> h[k] != ':'; }
    ModifierNaN(mm, period);
    TwelveHourPieces(h, mm, period);
    SplitPair(h, b, ':');
    PiecesSecondNaN(h, b);
  }

  lemma TwelveHourPieces(h: string, mm: string, period: string)
    ensures h + ":" + mm + " " + period == h + [':'] + (mm + " " + period)
  {
  }

  /** The piece after ':' of a 12-hour time, `MM AM` or `MM PM`, is NaN to `Number`. */
  lemma ModifierNaN(mm: string, period: string)
    requires |mm| == 2 && AllDigits(mm)
    requires period == "AM" || period == "PM"
    ensures ':' !in mm + " " + period
    ensures ToNumber(mm + " " + period) == None
  {
    var b := mm + " " + period;
    assert b == [mm[0], mm[1], ' ', period[0], period[1]];
    assert !IsWhitespace(b[0]) && !IsWhitespace(b[|b| - 1]);
    TrimUnpadded(b);
    assert !IsDigit(b[2]);
  }

  lemma PiecesSecondNaN(a: string, b: string)
    requires ToNumber(b) == None
    ensures MinutesOfPieces([a, b]) == None
  {
  }

  /** `toMinutes('')` is NaN: `''.split(':')` has no second piece. */
  lemma EmptyIsNaN()
    ensures ToMinutes("") == None
  {
    SplitNoSep("", ':');
  }

  /**
   * A one-sided window whose end is empty only enforces its start.
   */
  lemma EmptyEndBoundsOnlyStart(listing: Listing, date: string, start: string, end: string)
    requires FieldsPresent(date, start, end) && DayOffered(listing.availability, date)
    requires IsHHMM(start) && IsHHMM(end) && MinuteOfDay(start) < MinuteOfDay(end)
    requires IsHHMM(listing.availability[SelectedDay(date)].start)
    requires listing.availability[SelectedDay(date)].end == ""
    ensures HandleSubmit(listing, date, start, end).Confirmed?
      <==> MinuteOfDay(listing.availability[SelectedDay(date)].start) <= MinuteOfDay(start)
  {
    StartBeforeEndOfHHMM(start, end);
    ToMinutesOfHHMM(start);
    ToMinutesOfHHMM(listing.availability[SelectedDay(date)].start);
    EmptyIsNaN();
  }

  /** A listing open on Fridays from 09:00 to 17:00. */
  function FridayListing(): Listing {
    Listing("L1", None, None, None, None, None, None, None, 0, map["FRIDAY" := Window("09:00", "17:00")])
  }

  lemma ExampleDays()
    ensures SelectedDay("2025-01-10") == "FRIDAY" && SelectedDay("2025-01-11") == "SATURDAY"
  {
    KnownWeekdays();
    ParseExamples();
  }

  /** The clock readings the scenarios below use. */
  lemma ExampleTimes()
    ensures ToMinutes("09:00") == Some(540) && ToMinutes("10:00") == Some(600)
    ensures ToMinutes("11:00") == Some(660) && ToMinutes("16:00") == Some(960)
    ensures ToMinutes("17:00") == Some(1020) && ToMinutes("18:00") == Some(1080)
  {
    MinutesOf("09:00", 540);
    MinutesOf("10:00", 600);
    MinutesOf("11:00", 660);
    MinutesOf("16:00", 960);
    MinutesOf("17:00", 1020);
    MinutesOf("18:00", 1080);
  }

  lemma MinutesOf(t: string, m: nat)
    requires IsHHMM(t) && MinuteOfDay(t) == m
    ensures ToMinutes(t) == Some(m)
  {
    ToMinutesOfHHMM(t);
  }

  /** 2025-01-10 is a Friday, inside the window: accepted with the entered values. */
  lemma ScenarioAccepted()
    ensures HandleSubmit(FridayListing(), "2025-01-10", "10:00", "11:00")
      == Confirmed(BookingRequest("2025-01-10", "10:00", "11:00", "L1"))
  {
    ExampleDays();
    ExampleTimes();
  }

  /** 2025-01-11 is a Saturday, a day the listing does not offer. */
  lemma ScenarioClosedDay()
    ensures HandleSubmit(FridayListing(), "2025-01-11", "10:00", "11:00")
      == Rejected(NotAvailableMessage("SATURDAY"))
  {
    ExampleDays();
  }

  /** Running past the window's end is rejected with the window in the message. */
  lemma ScenarioPastClosing()
    ensures HandleSubmit(FridayListing(), "2025-01-10", "16:00", "18:00")
      == Rejected(OutsideHoursMessage(Window("09:00", "17:00")))
  {
    ExampleDays();
    ExampleTimes();
  }

  /** An inverted slot is rejected before the window is looked at. */
  lemma ScenarioInverted()
    ensures HandleSubmit(FridayListing(), "2025-01-10", "11:00", "10:00")
      == Rejected(StartNotBeforeEndMessage)
  {
    ExampleDays();
    ExampleTimes();
  }
}
