/**
 * The customer's dashboard: the listing search, the five-minute cache of fetched listings,
 * and the booking of a slot that the booking form has accepted.
 */
module CustomerDashboard {
  import opened Wrappers
  import opened JsString
  import opened Marketplace
  import opened Sorting
  import BookingForm

  // ----- search -----

  /** `field?.toLowerCase().includes(q)`: a missing field matches nothing. */
  predicate FieldMatches(field: Option<string>, q: string) {
    field.Some? && Includes(ToLower(field.value), q)
  }

  /** The filter of `handleSearch`: the name, the location or the description holds the query. */
  predicate Matches(q: string, l: Listing) {
    FieldMatches(l.serviceName, q) || FieldMatches(l.location, q) || FieldMatches(l.description, q)
  }

  /** `handleSearch` on the typed text: the query is lower-cased, then the listings filtered. */
  function Search(listings: seq<Listing>, typed: string): (r: seq<Listing>)
    ensures forall l :: l in r <==> l in listings && Matches(ToLower(typed), l)
    ensures IsSubsequence(r, listings)
  {
    var q := ToLower(typed);
    FilterIsSubsequence(listings, l => Matches(q, l));
    Filter(listings, l => Matches(q, l))
  }

  /** Lower-casing twice is lower-casing once. */
  lemma ToLowerIdempotent(s: string)
    ensures ToLower(ToLower(s)) == ToLower(s)
  {
  }

  /** The query is lower-cased, so the case it is typed in does not matter. */
  lemma SearchIgnoresCase(listings: seq<Listing>, typed: string)
    ensures Search(listings, ToUpper(typed)) == Search(listings, typed)
  {
    assert ToLower(ToUpper(typed)) == ToLower(typed);
  }

  /** The empty query keeps every listing that has at least one of the three fields. */
  lemma EmptyQueryKeepsAll(listings: seq<Listing>)
    requires forall l :: l in listings ==>
      l.serviceName.Some? || l.location.Some? || l.description.Some?
    ensures Search(listings, "") == listings
  {
    forall k | 0 <= k < |listings| ensures Matches("", listings[k]) {
      EmptyIncluded(listings[k].serviceName);
      EmptyIncluded(listings[k].location);
      EmptyIncluded(listings[k].description);
    }
    FilterAll(listings, l => Matches("", l));
  }

  /**
   * A listing with none of the three text fields never matches, and the empty query matches
   * exactly the listings that have at least one of them.
   */
  lemma MatchesNeedsText(q: string, l: Listing)
    ensures l.serviceName.None? && l.location.None? && l.description.None? ==> !Matches(q, l)
    ensures Matches("", l) <==> l.serviceName.Some? || l.location.Some? || l.description.Some?
  {
    EmptyIncluded(l.serviceName);
    EmptyIncluded(l.location);
    EmptyIncluded(l.description);
  }

  lemma EmptyIncluded(field: Option<string>)
    ensures field.Some? ==> FieldMatches(field, "")
  {
    if field.Some? {
      assert OccursAt(ToLower(field.value), "", 0);
    }
  }

  // ----- fetching the listings -----

  /** `CACHE_DURATION`: five minutes, in milliseconds. */
  const CacheDuration: int := 5 * 60 * 1000

  /** `shouldFetchData`: nothing fetched yet (`!lastFetchTime`), or the cache is older than five minutes. */
  function ShouldFetchData(lastFetchTime: Option<int>, now: int): (fetch: bool)
    ensures lastFetchTime.None? || lastFetchTime == Some(0) ==> fetch
    ensures lastFetchTime.Some? && lastFetchTime.value != 0 ==>
      (fetch <==> now - lastFetchTime.value > 300000)
  {
    if lastFetchTime.None? || lastFetchTime.value == 0 then true
    else now - lastFetchTime.value > CacheDuration
  }

  /** Within five minutes of a fetch no second fetch happens; exactly five minutes later neither. */
  lemma CacheHolds(fetchedAt: int, now: int)
    requires fetchedAt != 0 && fetchedAt <= now <= fetchedAt + 300000
    ensures !ShouldFetchData(Some(fetchedAt), now)
  {
  }

  function CreatedAt(l: Listing): int {
    l.createdAt
  }

  /** `res.data.sort((a, b) => new Date(b.createdAt) - new Date(a.createdAt))`: newest first. */
  function NewestFirst(listings: seq<Listing>): (r: seq<Listing>)
    ensures multiset(r) == multiset(listings)
    ensures forall i, j :: 0 <= i < j < |r| ==> r[i].createdAt >= r[j].createdAt
  {
    SortDesc(listings, CreatedAt)
  }

  /** The thirty newest listings, which the dashboard shuffles and shows eleven of. */
  function Newest(sorted: seq<Listing>): (r: seq<Listing>)
    ensures |r| == if |sorted| < 30 then |sorted| else 30
    ensures r == sorted[..|r|]
  {
    sorted[..if |sorted| < 30 then |sorted| else 30]
  }

  /** The first eleven listings of the shuffle. */
  function Sample(shuffled: seq<Listing>): (r: seq<Listing>)
    ensures |r| <= 11 && |r| <= |shuffled| && r == shuffled[..|r|]
    ensures |shuffled| >= 11 ==> |r| == 11
  {
    shuffled[..if |shuffled| < 11 then |shuffled| else 11]
  }

  /** Every sampled listing is one of the thirty newest. */
  lemma SampleFromNewest(data: seq<Listing>, shuffled: seq<Listing>)
    requires multiset(shuffled) == multiset(Newest(NewestFirst(data)))
    ensures forall l :: l in Sample(shuffled) ==> l in Newest(NewestFirst(data))
  {
    var s := Sample(shuffled);
    forall l | l in s ensures l in Newest(NewestFirst(data)) {
      assert l in shuffled;
      assert l in multiset(shuffled);
    }
  }

  // ----- booking -----

  datatype TimeSlot = TimeSlot(start: string, end: string)

  /** The body of `POST /booking/create`. */
  datatype BookingPayload = BookingPayload(serviceListingId: string, localDate: string, timeSlot: TimeSlot)

  /** The payload of `handleConfirmBooking`: every value of the accepted slot, copied as is. */
  function Payload(info: BookingForm.BookingRequest): (p: BookingPayload)
    ensures p.serviceListingId == info.listingId && p.localDate == info.date
    ensures p.timeSlot.start == info.start && p.timeSlot.end == info.end
  {
    BookingPayload(info.listingId, info.date, TimeSlot(info.start, info.end))
  }

  /** The payload of a slot the booking form accepted names the listing the form was for. */
  lemma PayloadOfAcceptedSlot(listing: Listing, date: string, start: string, end: string)
    requires BookingForm.HandleSubmit(listing, date, start, end).Confirmed?
    ensures var p := Payload(BookingForm.HandleSubmit(listing, date, start, end).request);
      p == BookingPayload(listing.serviceListingId, date, TimeSlot(start, end))
  {
  }

  const SlotTakenMessage := "This time slot is taken, please choose another time slot and chat with provider"

  class Dashboard {
    var selectedMenu: string
    var searchQuery: string
    var listings: seq<Listing>
    var filteredListings: seq<Listing>
    var isLoading: bool
    var lastFetchTime: Option<int>
    var selectedListing: Option<Listing>
    var isBooking: bool
    var isConfirming: bool
    var bookingError: Option<string>

    constructor()
      ensures selectedMenu == "dashboard" && searchQuery == ""
      ensures listings == [] && filteredListings == [] && !isLoading && lastFetchTime == None
      ensures selectedListing == None && !isBooking && !isConfirming && bookingError == None
    {
      selectedMenu := "dashboard";
      searchQuery := "";
      listings := [];
      filteredListings := [];
      isLoading := false;
      lastFetchTime := None;
      selectedListing := None;
      isBooking := false;
      isConfirming := false;
      bookingError := None;
    }

    /** `handleSearch` */
    method HandleSearch(typed: string)
      modifies this
      ensures searchQuery == ToLower(typed)
      ensures filteredListings == Search(old(listings), typed)
      ensures listings == old(listings) && lastFetchTime == old(lastFetchTime)
      ensures selectedListing == old(selectedListing) && isBooking == old(isBooking)
    {
      searchQuery := ToLower(typed);
      filteredListings := Search(listings, typed);
    }

    /**
     * The fetch effect on the search menu, at time `now`. `response` is what the server sent
     * (None for a failure), `shuffled` the random order of the thirty newest, and `fetchedAt`
     * the time the answer came back.
     */
    method FetchListings(now: int, response: Option<seq<Listing>>, shuffled: seq<Listing>, fetchedAt: int)
      requires response.Some? ==>
        multiset(shuffled) == multiset(Newest(NewestFirst(response.value)))
      modifies this
      ensures !(selectedMenu == "search" && ShouldFetchData(old(lastFetchTime), now)) ==>
        listings == old(listings) && filteredListings == old(filteredListings)
        && lastFetchTime == old(lastFetchTime) && isLoading == old(isLoading)
      ensures selectedMenu == "search" && ShouldFetchData(old(lastFetchTime), now) ==>
        !isLoading
        && (response.None? ==> listings == old(listings) && filteredListings == old(filteredListings)
                               && lastFetchTime == old(lastFetchTime))
        && (response.Some? ==> listings == NewestFirst(response.value)
                               && filteredListings == Sample(shuffled)
                               && lastFetchTime == Some(fetchedAt))
      ensures selectedMenu == old(selectedMenu) && searchQuery == old(searchQuery)
      ensures selectedListing == old(selectedListing) && isBooking == old(isBooking)
    {
      if selectedMenu == "search" && ShouldFetchData(lastFetchTime, now) {
        isLoading := true;
        if response.Some? {
          listings := NewestFirst(response.value);
          filteredListings := Sample(shuffled);
          lastFetchTime := Some(fetchedAt);
        }
        isLoading := false;
      }
    }

    /** A menu button, or `handleChat` with "chat". */
    method SelectMenu(menu: string)
      modifies this
      ensures selectedMenu == menu
      ensures listings == old(listings) && filteredListings == old(filteredListings)
      ensures lastFetchTime == old(lastFetchTime) && selectedListing == old(selectedListing)
    {
      selectedMenu := menu;
    }

    /** A click on a listing card. */
    method SelectListing(l: Listing)
      modifies this
      ensures selectedListing == Some(l) && isBooking == old(isBooking)
      ensures listings == old(listings) && filteredListings == old(filteredListings)
    {
      selectedListing := Some(l);
    }

    /** `onBook` (true) and the form's `onCancel` (false). */
    method SetBooking(on: bool)
      modifies this
      ensures isBooking == on && selectedListing == old(selectedListing)
      ensures isConfirming == old(isConfirming) && bookingError == old(bookingError)
    {
      isBooking := on;
    }

    /** `handleBackToResults` */
    method HandleBackToResults()
      modifies this
      ensures selectedListing == None && !isBooking
      ensures listings == old(listings) && filteredListings == old(filteredListings)
      ensures isConfirming == old(isConfirming) && bookingError == old(bookingError)
    {
      selectedListing := None;
      isBooking := false;
    }

    /**
     * `handleConfirmBooking`, given whether the server created the booking. Success leaves the
     * booking mode and keeps `isConfirming` set; failure clears it and shows the slot-taken
     * message.
     */
    method HandleConfirmBooking(info: BookingForm.BookingRequest, created: bool)
      returns (sent: BookingPayload)
      modifies this
      ensures sent == Payload(info)
      ensures created ==> !isBooking && isConfirming && bookingError == None
      ensures !created ==>
        isBooking == old(isBooking) && !isConfirming && bookingError == Some(SlotTakenMessage)
      ensures selectedListing == old(selectedListing) && listings == old(listings)
      ensures filteredListings == old(filteredListings)
    {
      bookingError := None;
      sent := Payload(info);
      isConfirming := true;
      if created {
        isBooking := false;
      } else {
        isConfirming := false;
        bookingError := Some(SlotTakenMessage);
      }
    }
  }
}
