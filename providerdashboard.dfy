/**
 * The provider dashboard: the login token's two fields, the blank new-listing form and the
 * create submit that filters and upper-cases its week, the statistics target and booking
 * count, and the date range of the statistics.
 */
module ProviderDashboard {
  import opened Wrappers
  import opened JsString
  import opened Marketplace
  import opened ServiceListingForm
  import EditListingForm

  // ----- the login token -----

  /** `token?.split('|')[0]` and `token?.split('|')[1]`: the username and the provider id. */
  datatype Identity = Identity(username: Option<string>, providerId: Option<string>)

  function TokenFields(token: Option<string>): (r: Identity)
    ensures token.None? ==> r == Identity(None, None)
    ensures token.Some? ==> r.username.Some? && '|' !in r.username.value
    ensures token.Some? && '|' !in token.value ==> r == Identity(token, None)
    ensures r.providerId.Some? ==> '|' !in r.providerId.value
  {
    match token
    case None => Identity(None, None)
    case Some(t) =>
      var parts := Split(t, '|');
      SplitPieces(t, '|');
      assert '|' !in t ==> parts == [t] by {
        if '|' !in t { SplitNoSep(t, '|'); }
      }
      Identity(Some(parts[0]), Part(parts, 1))
  }

  /** A token `username|providerId` gives back both halves. */
  lemma TokenOfPair(username: string, providerId: string)
    requires '|' !in username && '|' !in providerId
    ensures TokenFields(Some(username + "|" + providerId)) == Identity(Some(username), Some(providerId))
  {
    SplitPair(username, providerId, '|');
  }

  /** `!token`: a missing or empty token stops the create submit. */
  predicate HasToken(token: Option<string>) {
    token.Some? && token.value != ""
  }

  // ----- the new-listing form -----

  /** The seven day keys of the new-listing form, in lower case. */
  const LowerWeekDays: seq<string> :=
    ["monday", "tuesday", "wednesday", "thursday", "friday", "saturday", "sunday"]

  /** The availability of a blank new listing: the seven lower-case days, each with no times. */
  function BlankTemplate(): (w: Availability)
    ensures forall i :: 0 <= i < 7 ==> LowerWeekDays[i] in w && w[LowerWeekDays[i]] == Window("", "")
    ensures forall d :: d in w ==> d in LowerWeekDays
  {
    map d | d in LowerWeekDays :: Window("", "")
  }

  /** The new-listing form as it starts and as a successful create leaves it. */
  function BlankListing(): (f: FormData)
    ensures f.serviceName == "" && f.location == "" && f.pricePerHour == "" && f.description == ""
    ensures f.availability == BlankTemplate()
  {
    FormData("", "", "", "", BlankTemplate())
  }

  /** Upper-casing the lower-case keys gives the day names the listing records use. */
  lemma UpperWeekDays()
    ensures forall i :: 0 <= i < 7 ==> ToUpper(LowerWeekDays[i]) == WeekDays[i]
  {
    UpperOf("monday", "MONDAY");
    UpperOf("tuesday", "TUESDAY");
    UpperOf("wednesday", "WEDNESDAY");
    UpperOf("thursday", "THURSDAY");
    UpperOf("friday", "FRIDAY");
    UpperOf("saturday", "SATURDAY");
    UpperOf("sunday", "SUNDAY");
  }

  lemma UpperOf(d: string, u: string)
    requires |d| == |u| && forall k :: 0 <= k < |d| ==> UpperChar(d[k]) == u[k]
    ensures ToUpper(d) == u
  {
  }

  /** `time.start && time.end`: both bounds are non-empty. */
  predicate BothSet(w: Window) {
    w.start != "" && w.end != ""
  }

  /** No other both-set key of `av` upper-cases to the same name as `d`. */
  predicate UniqueUpper(av: Availability, d: string) {
    forall e :: e in av && e != d && BothSet(av[e]) ==> ToUpper(e) != ToUpper(d)
  }

  /**
   * What the create submit sends for a week `av`: the upper-cased name of every both-set day,
   * each holding the window of a both-set day of that name. A day whose name no other
   * both-set day shares keeps its own window; which of two clashing days wins depends on key
   * order, which a map does not have.
   */
  ghost predicate Submitted(av: Availability, r: Availability) {
    (forall d :: d in av && BothSet(av[d]) ==> ToUpper(d) in r)
    && (forall u :: u in r ==> exists d :: d in av && BothSet(av[d]) && ToUpper(d) == u && r[u] == av[d])
    && (forall d :: d in av && BothSet(av[d]) && UniqueUpper(av, d) ==> r[ToUpper(d)] == av[d])
  }

  /** The `reduce` of the create submit over the week's entries. */
  method FilterAvailability(av: Availability) returns (r: Availability)
    ensures Submitted(av, r)
  {
    r := map[];
    var remaining := av.Keys;
    while remaining != {}
      invariant remaining <= av.Keys
      invariant forall d :: d in av && d !in remaining && BothSet(av[d]) ==> ToUpper(d) in r
      invariant forall u :: u in r ==> exists d :: d in av && d !in remaining && BothSet(av[d])
                                                  && ToUpper(d) == u && r[u] == av[d]
      invariant forall d :: d in av && d !in remaining && BothSet(av[d]) && UniqueUpper(av, d)
                            ==> r[ToUpper(d)] == av[d]
      decreases remaining
    {
      var day :| day in remaining;
      if BothSet(av[day]) {
        r := r[ToUpper(day) := av[day]];
      }
      remaining := remaining - {day};
    }
  }

  /** A week where nothing is two-sided submits no days; the blank template is one. */
  lemma NothingSubmitted(av: Availability, r: Availability)
    requires forall d :: d in av ==> !BothSet(av[d])
    requires Submitted(av, r)
    ensures r == map[]
  {
  }

  lemma BlankTemplateSubmitsNothing(r: Availability)
    requires Submitted(BlankTemplate(), r)
    ensures r == map[]
  {
    NothingSubmitted(BlankTemplate(), r);
  }

  /** Distinct lower-case day names upper-case to distinct names. */
  lemma LowerDaysUpperDistinct(d: string, e: string)
    requires d in LowerWeekDays && e in LowerWeekDays && d != e
    ensures ToUpper(d) != ToUpper(e)
  {
    UpperWeekDays();
    var i :| 0 <= i < 7 && LowerWeekDays[i] == d;
    var j :| 0 <= j < 7 && LowerWeekDays[j] == e;
    assert i != j;
  }

  /** The upper-cased name of a lower-case day name is a day name of the listing records. */
  lemma LowerDayUpper(d: string) returns (i: nat)
    requires d in LowerWeekDays
    ensures i < 7 && LowerWeekDays[i] == d && ToUpper(d) == WeekDays[i]
  {
    UpperWeekDays();
    i :| 0 <= i < 7 && LowerWeekDays[i] == d;
  }

  /**
   * On a week keyed by the lower-case day names no two days clash, so the submit sends every
   * both-set day under its upper-cased name with its own window, and nothing else.
   */
  lemma SubmittedLowerWeek(av: Availability, r: Availability)
    requires forall d :: d in av ==> d in LowerWeekDays
    requires Submitted(av, r)
    ensures forall d :: d in av && BothSet(av[d]) ==> ToUpper(d) in r && r[ToUpper(d)] == av[d]
    ensures forall d :: d in av && !BothSet(av[d]) ==> ToUpper(d) !in r
    ensures forall u :: u in r ==> u in WeekDays
  {
    forall d | d in av && BothSet(av[d]) ensures r[ToUpper(d)] == av[d] {
      forall e | e in av && e != d && BothSet(av[e]) ensures ToUpper(e) != ToUpper(d) {
        LowerDaysUpperDistinct(e, d);
      }
      assert UniqueUpper(av, d);
    }
    forall d | d in av && !BothSet(av[d]) ensures ToUpper(d) !in r {
      if ToUpper(d) in r {
        var e :| e in av && BothSet(av[e]) && ToUpper(e) == ToUpper(d) && r[ToUpper(d)] == av[e];
        LowerDaysUpperDistinct(e, d);
      }
    }
    forall u | u in r ensures u in WeekDays {
      var d :| d in av && BothSet(av[d]) && ToUpper(d) == u && r[u] == av[d];
      var j := LowerDayUpper(d);
    }
  }

  /**
   * The two listing forms disagree on one-sided days: on a week keyed by the upper-case day
   * names, every day the create submit sends the edit submit sends too, but a day with only
   * a start or only an end is sent by the edit submit alone.
   */
  lemma CreateKeepsFewerDaysThanEdit(av: Availability, r: Availability)
    requires forall d :: d in av ==> d in WeekDays
    requires Submitted(av, r)
    ensures forall u :: u in r ==> u in EditListingForm.Collapse(av) && r[u] == av[u]
    ensures forall d :: d in av && EditListingForm.AnyTimeSet(av[d]) && !BothSet(av[d])
                ==> d in EditListingForm.Collapse(av) && d !in r
  {
    forall d | d in WeekDays ensures ToUpper(d) == d {
      UpperWeekDays();
      var i :| 0 <= i < 7 && WeekDays[i] == d;
      assert ToUpper(LowerWeekDays[i]) == d;
      assert forall k :: 0 <= k < |d| ==> ToUpper(d)[k] == UpperChar(d[k]) == d[k];
    }
    forall u | u in r ensures u in EditListingForm.Collapse(av) && r[u] == av[u] {
      var d :| d in av && BothSet(av[d]) && ToUpper(d) == u && r[u] == av[d];
    }
    forall d | d in av && !BothSet(av[d]) ensures d !in r {
    }
  }

  /** What the create submit posts; `pricePerHour` stays the input text (`parseFloat` is not modelled). */
  datatype CreatePayload = CreatePayload(
    serviceProviderId: Option<string>,
    serviceName: string,
    location: string,
    pricePerHour: string,
    description: string,
    availability: AvailabilityBody)

  // ----- statistics -----

  /**
   * The listings the statistics cover: every listing when `selectedServiceId` is empty or
   * `'all'`, otherwise the first listing with that id, or none when no listing has it.
   */
  function TargetListings(listings: seq<Listing>, selectedServiceId: string): (r: seq<Listing>)
    ensures selectedServiceId == "" || selectedServiceId == "all" ==> r == listings
    ensures selectedServiceId != "" && selectedServiceId != "all" ==>
      |r| <= 1
      && (r == [] <==> forall l :: l in listings ==> l.serviceListingId != selectedServiceId)
      && (r != [] ==> r[0].serviceListingId == selectedServiceId
                      && exists i :: 0 <= i < |listings| && listings[i] == r[0]
                                     && forall j :: 0 <= j < i ==> listings[j].serviceListingId != selectedServiceId)
  {
    if selectedServiceId == "" || selectedServiceId == "all" then listings
    else
      var i := FindListing(listings, selectedServiceId);
      if i < 0 then [] else [listings[i]]
  }

  /** `day.bookingNumber || 0`: a missing, null or zero count adds nothing. */
  function DayCount(bookingNumber: Option<int>): (n: int)
    ensures bookingNumber.None? ==> n == 0
    ensures bookingNumber.Some? ==> n == bookingNumber.value
  {
    if bookingNumber.None? then 0 else bookingNumber.value
  }

  /** The bookings of one listing over the range: the sum of its daily counts. */
  function ListingBookings(days: seq<Option<int>>): (n: int)
    ensures (forall k :: 0 <= k < |days| ==> days[k].None?) ==> n == 0
    ensures (forall k :: 0 <= k < |days| ==> days[k].Some? && days[k].value == 1) ==> n == |days|
  {
    if days == [] then 0 else ListingBookings(days[..|days| - 1]) + DayCount(days[|days| - 1])
  }

  lemma {:induction false} ListingBookingsAppend(a: seq<Option<int>>, b: seq<Option<int>>)
    ensures ListingBookings(a + b) == ListingBookings(a) + ListingBookings(b)
    decreases |b|
  {
    if b == [] {
      assert a + b == a;
    } else {
      var b' := b[..|b| - 1];
      assert (a + b)[..|a + b| - 1] == a + b';
      ListingBookingsAppend(a, b');
    }
  }

  /** Days without a count do not change the total. */
  lemma MissingDaysCountZero(days: seq<Option<int>>, k: nat)
    requires k <= |days|
    ensures ListingBookings(days[..k] + [None] + days[k..]) == ListingBookings(days)
  {
    ListingBookingsAppend(days[..k] + [None], days[k..]);
    ListingBookingsAppend(days[..k], [None]);
    ListingBookingsAppend(days[..k], days[k..]);
    assert days[..k] + days[k..] == days;
  }

  /** When no day reports a negative count, neither does the listing. */
  lemma {:induction false} ListingBookingsNonNegative(days: seq<Option<int>>)
    requires forall k :: 0 <= k < |days| && days[k].Some? ==> days[k].value >= 0
    ensures ListingBookings(days) >= 0
    decreases |days|
  {
    if days != [] {
      ListingBookingsNonNegative(days[..|days| - 1]);
    }
  }

  /**
   * The booking count over the target listings, or None when a request fails (the whole
   * `Promise.all` is then rejected). `responses` gives each listing id's daily counts.
   */
  function TotalBookings(target: seq<Listing>, responses: string -> Option<seq<Option<int>>>): (r: Option<int>)
    ensures r.None? <==> exists i :: 0 <= i < |target| && responses(target[i].serviceListingId).None?
  {
    if target == [] then Some(0)
    else
      var init := TotalBookings(target[..|target| - 1], responses);
      var last := responses(target[|target| - 1].serviceListingId);
      if init.None? || last.None? then None
      else Some(init.value + ListingBookings(last.value))
  }

  /** The count of a single listing is the count of that listing's days. */
  lemma TotalOfOne(l: Listing, responses: string -> Option<seq<Option<int>>>)
    requires responses(l.serviceListingId).Some?
    ensures TotalBookings([l], responses) == Some(ListingBookings(responses(l.serviceListingId).value))
  {
    assert [l][..0] == [];
  }

  /** Covering more listings adds their counts. */
  lemma {:induction false} TotalAppend(a: seq<Listing>, b: seq<Listing>, responses: string -> Option<seq<Option<int>>>)
    requires TotalBookings(a, responses).Some? && TotalBookings(b, responses).Some?
    ensures TotalBookings(a + b, responses)
         == Some(TotalBookings(a, responses).value + TotalBookings(b, responses).value)
    decreases |b|
  {
    if b == [] {
      assert a + b == a;
    } else {
      var b' := b[..|b| - 1];
      assert (a + b)[..|a + b| - 1] == a + b';
      assert (a + b)[|a + b| - 1] == b[|b| - 1];
      assert TotalBookings(b', responses).Some?;
      TotalAppend(a, b', responses);
    }
  }

  // ----- the dashboard -----

  /** The statistics range, two `YYYY-MM-DD` strings. */
  datatype DateRange = DateRange(start: string, end: string)

  /** The two ends of the range `handleDateChange` can set. */
  datatype RangeSide = StartDate | EndDate

  function WithRangeEnd(r: DateRange, which: RangeSide, value: string): (u: DateRange)
    ensures which == StartDate ==> u.start == value && u.end == r.end
    ensures which == EndDate ==> u.end == value && u.start == r.start
  {
    match which
    case StartDate => r.(start := value)
    case EndDate => r.(end := value)
  }

  class Dashboard {
    var token: Option<string>
    var listings: seq<Listing>
    var selectedServiceId: string
    var dateRange: DateRange
    var bookingCount: int
    var showForm: bool
    var selectedListing: Option<Listing>
    /** The new-listing form state, handed to the create form as its `formData` and `setFormData`. */
    const newListing: ListingDraft

    /** The dashboard as it mounts: no listings, every service selected, a blank form. */
    constructor(token: Option<string>, range: DateRange)
      ensures this.token == token && dateRange == range
      ensures listings == [] && selectedServiceId == "all" && bookingCount == 0
      ensures !showForm && selectedListing.None?
      ensures fresh(newListing) && newListing.form == BlankListing()
    {
      this.token := token;
      listings := [];
      selectedServiceId := "all";
      dateRange := range;
      bookingCount := 0;
      showForm := false;
      selectedListing := None;
      newListing := new ListingDraft(BlankListing());
    }

    /** `handleDateChange(type, value)`: only that end of the range changes. */
    method HandleDateChange(which: RangeSide, value: string)
      modifies this
      ensures dateRange == WithRangeEnd(old(dateRange), which, value)
      ensures token == old(token) && listings == old(listings)
      ensures selectedServiceId == old(selectedServiceId) && bookingCount == old(bookingCount)
      ensures showForm == old(showForm) && selectedListing == old(selectedListing)
    {
      dateRange := WithRangeEnd(dateRange, which, value);
    }

    /**
     * `fetchStatistics`: with no target listing, or when any request fails, the count is
     * left as it was; otherwise it becomes the total over the targets.
     */
    method FetchStatistics(responses: string -> Option<seq<Option<int>>>)
      modifies this
      ensures var target := TargetListings(old(listings), old(selectedServiceId));
              bookingCount == (if target == [] || TotalBookings(target, responses).None?
                               then old(bookingCount)
                               else TotalBookings(target, responses).value)
      ensures token == old(token) && listings == old(listings) && dateRange == old(dateRange)
      ensures selectedServiceId == old(selectedServiceId)
      ensures showForm == old(showForm) && selectedListing == old(selectedListing)
    {
      var target := TargetListings(listings, selectedServiceId);
      if target == [] {
        return;
      }
      var total := TotalBookings(target, responses);
      if total.Some? {
        bookingCount := total.value;
      }
    }

    /**
     * `handleFormSubmit`. Without a token nothing is sent. Otherwise the payload carries
     * the provider id, the text fields and the filtered week; `refreshed` is the listing
     * list the follow-up fetch returns, or None when the create or the fetch fails. On
     * success the list is replaced, the form closed and reset; on failure nothing changes.
     */
    method HandleFormSubmit(refreshed: Option<seq<Listing>>) returns (payload: Option<CreatePayload>)
      modifies this, newListing
      ensures !HasToken(old(token)) ==> payload.None?
      ensures HasToken(old(token)) ==>
        payload.Some?
        && payload.value.serviceProviderId == TokenFields(old(token)).providerId
        && payload.value.serviceName == old(newListing.form.serviceName)
        && payload.value.location == old(newListing.form.location)
        && payload.value.pricePerHour == old(newListing.form.pricePerHour)
        && payload.value.description == old(newListing.form.description)
        && Submitted(old(newListing.form.availability), payload.value.availability.availability)
      ensures HasToken(old(token)) && refreshed.Some? ==>
        listings == refreshed.value && !showForm && selectedListing.None?
        && newListing.form == BlankListing()
      ensures !HasToken(old(token)) || refreshed.None? ==>
        listings == old(listings) && showForm == old(showForm)
        && selectedListing == old(selectedListing) && newListing.form == old(newListing.form)
      ensures token == old(token) && dateRange == old(dateRange)
      ensures selectedServiceId == old(selectedServiceId) && bookingCount == old(bookingCount)
    {
      if !HasToken(token) {
        return None;
      }
      var form := newListing.form;
      var filtered := FilterAvailability(form.availability);
      payload := Some(CreatePayload(TokenFields(token).providerId, form.serviceName, form.location,
                                    form.pricePerHour, form.description, AvailabilityBody(filtered)));
      if refreshed.Some? {
        listings := refreshed.value;
        showForm := false;
        selectedListing := None;
        newListing.form := BlankListing();
      }
    }
  }
}
