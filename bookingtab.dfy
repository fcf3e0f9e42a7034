/**
 * The bookings tab: the list of a user's bookings, enriched with the details of the listing
 * each one is for, shown under a status tab, and updated in place when the booking detail
 * view reports a new status.
 */
module BookingTab {
  import opened Wrappers
  import opened Marketplace
  import opened Sorting

  // ----- enrichment -----

  /** `{ ...b, serviceName: match.serviceName || 'Unknown', ... }` */
  function Enriched(b: Booking, l: Listing): (e: Booking)
    ensures e.id == b.id && e.serviceListingId == b.serviceListingId
    ensures e.status == b.status && e.localDate == b.localDate
    ensures e.serviceName == OrElse(l.serviceName, "Unknown")
    ensures e.location == OrElse(l.location, "Unknown")
    ensures e.providerId == OrElse(l.serviceProviderId, "Unknown")
    ensures e.providerName == OrElse(l.serviceProviderName, "Unknown")
    ensures e.businessName == OrElse(l.businessName, "Unknown")
  {
    b.(serviceName := OrElse(l.serviceName, "Unknown"),
       location := OrElse(l.location, "Unknown"),
       providerId := OrElse(l.serviceProviderId, "Unknown"),
       providerName := OrElse(l.serviceProviderName, "Unknown"),
       businessName := OrElse(l.businessName, "Unknown"))
  }

  /** Every field the enrichment fills holds a non-empty text. */
  predicate FilledIn(e: Booking) {
    e.serviceName != "" && e.location != "" && e.providerId != ""
    && e.providerName != "" && e.businessName != ""
  }

  lemma EnrichedFilledIn(b: Booking, l: Listing)
    ensures FilledIn(Enriched(b, l))
  {
  }

  /** The provider's bookings have a listing among the provider's own. */
  predicate HasListing(listings: seq<Listing>, b: Booking) {
    FindListing(listings, b.serviceListingId) >= 0
  }

  /** The first of the provider's listings the booking is for. */
  function ListingOf(listings: seq<Listing>, b: Booking): (l: Listing)
    requires HasListing(listings, b)
    ensures l in listings && l.serviceListingId == b.serviceListingId
  {
    listings[FindListing(listings, b.serviceListingId)]
  }

  /**
   * The provider's enrichment: each booking filled from the first listing with its id, and the
   * bookings with no such listing dropped (`.filter(Boolean)`), in their original order.
   */
  function EnrichProvider(combined: seq<Booking>, listings: seq<Listing>): (r: seq<Booking>)
    ensures var kept := Filter(combined, b => HasListing(listings, b));
      |r| == |kept|
      && forall k :: 0 <= k < |r| ==> r[k] == Enriched(kept[k], ListingOf(listings, kept[k]))
  {
    if combined == [] then []
    else
      var rest := EnrichProvider(combined[1..], listings);
      if HasListing(listings, combined[0]) then
        [Enriched(combined[0], ListingOf(listings, combined[0]))] + rest
      else rest
  }

  /** The provider's list holds filled-in bookings only, each for one of the provider's listings. */
  lemma EnrichProviderFilled(combined: seq<Booking>, listings: seq<Listing>)
    ensures forall e :: e in EnrichProvider(combined, listings) ==>
      FilledIn(e) && exists l :: l in listings && l.serviceListingId == e.serviceListingId
  {
    var r := EnrichProvider(combined, listings);
    var kept := Filter(combined, b => HasListing(listings, b));
    forall e | e in r
      ensures FilledIn(e) && exists l :: l in listings && l.serviceListingId == e.serviceListingId
    {
      var k :| 0 <= k < |r| && r[k] == e;
      var l := ListingOf(listings, kept[k]);
      EnrichedFilledIn(kept[k], l);
    }
  }

  /** A booking whose listing is not among the provider's is dropped. */
  lemma EnrichProviderDropsUnmatched(combined: seq<Booking>, listings: seq<Listing>, id: string)
    requires forall l :: l in listings ==> l.serviceListingId != id
    ensures forall e :: e in EnrichProvider(combined, listings) ==> e.serviceListingId != id
  {
    EnrichProviderFilled(combined, listings);
  }

  /** `responses.filter(res => res.data.length > 0).flatMap(res => res.data)` */
  function Flatten(responses: seq<seq<Booking>>): (r: seq<Booking>)
    ensures forall i, b :: 0 <= i < |responses| && b in responses[i] ==> b in r
  {
    if responses == [] then []
    else
      var rest := Flatten(responses[1..]);
      assert forall i :: 1 <= i < |responses| ==> responses[i] == responses[1..][i - 1];
      responses[0] + rest
  }

  lemma {:induction false} FlattenLength(responses: seq<seq<Booking>>)
    ensures |Flatten(responses)| == Count(responses)
  {
    if responses != [] {
      FlattenLength(responses[1..]);
    }
  }

  /**
   * `flatMap` concatenates in response order: the bookings of earlier responses come first,
   * each response's bookings in their own order.
   */
  lemma {:induction false} FlattenAppend(a: seq<seq<Booking>>, b: seq<seq<Booking>>)
    ensures Flatten(a + b) == Flatten(a) + Flatten(b)
    decreases |a|
  {
    if a == [] {
      assert a + b == b;
    } else {
      assert (a + b)[0] == a[0];
      assert (a + b)[1..] == a[1..] + b;
      FlattenAppend(a[1..], b);
    }
  }

  /** A single response is passed through as it is. */
  lemma FlattenOne(x: seq<Booking>)
    ensures Flatten([x]) == x
  {
    assert [x][1..] == [];
  }

  /** The number of bookings over all responses. */
  function Count(responses: seq<seq<Booking>>): nat {
    if responses == [] then 0 else |responses[0]| + Count(responses[1..])
  }

  /**
   * `Object.fromEntries(listingDetails.map(res => [res.data.serviceListingId, res.data]))`:
   * entries are written in order, so a later listing with the same id replaces an earlier one.
   */
  function ServiceMap(details: seq<Listing>): (m: map<string, Listing>)
    ensures forall l :: l in details ==> l.serviceListingId in m
    ensures forall id :: id in m ==> m[id] in details && m[id].serviceListingId == id
  {
    if details == [] then map[]
    else
      var last := details[|details| - 1];
      var m := ServiceMap(details[..|details| - 1])[last.serviceListingId := last];
      assert forall l :: l in details ==> l in details[..|details| - 1] || l == last;
      m
  }

  /** The last listing written under an id is the one the id maps to. */
  lemma ServiceMapLastWins(details: seq<Listing>, l: Listing)
    ensures ServiceMap(details + [l])[l.serviceListingId] == l
  {
    assert (details + [l])[..|details + [l]| - 1] == details;
  }

  /**
   * The customer's enrichment: every booking filled from the listing its id maps to.
   * None is the TypeError of `match.serviceProviderId` on a booking whose id maps to nothing:
   * the whole fetch fails and the list is left as it was.
   */
  function EnrichCustomer(bookings: seq<Booking>, details: seq<Listing>): (r: Option<seq<Booking>>)
    ensures var m := ServiceMap(details);
      (r.None? <==> exists k :: 0 <= k < |bookings| && bookings[k].serviceListingId !in m)
      && (r.Some? ==> |r.value| == |bookings|
                      && forall k :: 0 <= k < |bookings| ==>
                           r.value[k] == Enriched(bookings[k], m[bookings[k].serviceListingId]))
  {
    var m := ServiceMap(details);
    if exists k :: 0 <= k < |bookings| && bookings[k].serviceListingId !in m then None
    else Some(seq(|bookings|, k requires 0 <= k < |bookings| =>
                    Enriched(bookings[k], m[bookings[k].serviceListingId])))
  }

  // ----- the distinct listing ids of a customer's bookings -----

  /** The ids of `s` with repeats dropped, each where it first occurs. */
  function Distinct(s: seq<string>): (r: seq<string>)
    ensures forall i, j :: 0 <= i < j < |r| ==> r[i] != r[j]
    ensures forall x :: x in r <==> x in s
  {
    if s == [] then []
    else
      var d := Distinct(s[..|s| - 1]);
      var x := s[|s| - 1];
      assert forall y :: y in s <==> y in s[..|s| - 1] || y == x;
      if x in d then d else d + [x]
  }

  function ListingIds(bookings: seq<Booking>): (ids: seq<string>)
    ensures |ids| == |bookings|
    ensures forall k :: 0 <= k < |bookings| ==> ids[k] == bookings[k].serviceListingId
  {
    seq(|bookings|, k requires 0 <= k < |bookings| => bookings[k].serviceListingId)
  }

  /** `Array.from(new Set(res.data.map(b => b.serviceListingId)))` */
  function CustomerListings(bookings: seq<Booking>): (ids: seq<string>)
    ensures forall i, j :: 0 <= i < j < |ids| ==> ids[i] != ids[j]
    ensures forall k :: 0 <= k < |bookings| ==> bookings[k].serviceListingId in ids
    ensures forall id :: id in ids ==> exists k :: 0 <= k < |bookings| && bookings[k].serviceListingId == id
  {
    var all := ListingIds(bookings);
    var ids := Distinct(all);
    assert forall k :: 0 <= k < |bookings| ==> all[k] in ids;
    ids
  }

  /**
   * When every distinct id fetched comes back as a listing with that id, every booking finds
   * its listing and the customer's enrichment succeeds.
   */
  lemma AllFetchedEnrichCustomer(bookings: seq<Booking>, details: seq<Listing>)
    requires forall id :: id in CustomerListings(bookings) ==>
               exists l :: l in details && l.serviceListingId == id
    ensures EnrichCustomer(bookings, details).Some?
  {
    var m := ServiceMap(details);
    forall k | 0 <= k < |bookings| ensures bookings[k].serviceListingId in m {
      assert bookings[k].serviceListingId in CustomerListings(bookings);
    }
  }

  // ----- the status tabs -----

  /** `b.id === selectedBooking.id ? { ...b, status: newStatus } : b` over the whole list. */
  function WithStatus(bookings: seq<Booking>, id: string, newStatus: string): (r: seq<Booking>)
    ensures |r| == |bookings|
    ensures forall k :: 0 <= k < |r| ==>
      r[k] == if bookings[k].id == id then bookings[k].(status := newStatus) else bookings[k]
  {
    seq(|bookings|, k requires 0 <= k < |bookings| =>
      if bookings[k].id == id then bookings[k].(status := newStatus) else bookings[k])
  }

  /** An id no booking has changes nothing. */
  lemma WithStatusUnknownId(bookings: seq<Booking>, id: string, newStatus: string)
    requires forall b :: b in bookings ==> b.id != id
    ensures WithStatus(bookings, id, newStatus) == bookings
  {
  }

  /** Setting a status twice is setting it once, to the second value. */
  lemma WithStatusTwice(bookings: seq<Booking>, id: string, s1: string, s2: string)
    ensures WithStatus(WithStatus(bookings, id, s1), id, s2) == WithStatus(bookings, id, s2)
  {
  }

  /** The key both orderings use: `new Date(b.localDate)`. */
  function LocalDate(b: Booking): int {
    b.localDate
  }

  predicate HasStatus(status: string, b: Booking) {
    b.status == status
  }

  /**
   * `filteredBookings`: 'ALL' is every booking, oldest first; any other tab is the bookings of
   * that status, newest first. Both sort a copy, so the list itself keeps its order.
   */
  function FilteredBookings(bookings: seq<Booking>, activeTab: string): (r: seq<Booking>)
    ensures activeTab == "ALL" ==>
      multiset(r) == multiset(bookings) && SortedBy(r, LocalDate)
    ensures activeTab != "ALL" ==>
      (forall b :: b in r <==> b in bookings && b.status == activeTab)
      && multiset(r) == multiset(Filter(bookings, b => HasStatus(activeTab, b)))
      && forall i, j :: 0 <= i < j < |r| ==> r[i].localDate >= r[j].localDate
  {
    if activeTab == "ALL" then SortAsc(bookings, LocalDate)
    else
      var shown := Filter(bookings, b => HasStatus(activeTab, b));
      var r := SortDesc(shown, LocalDate);
      assert forall b :: b in r <==> b in shown by {
        forall b ensures b in r <==> b in shown {
          assert b in r <==> b in multiset(r);
          assert b in shown <==> b in multiset(shown);
        }
      }
      r
  }

  /** Bookings with the same date keep their list order on the 'ALL' tab. */
  lemma AllTabStable(bookings: seq<Booking>, date: int)
    ensures Filter(FilteredBookings(bookings, "ALL"), WithKey(LocalDate, date))
         == Filter(bookings, WithKey(LocalDate, date))
  {
    SortAscStable(bookings, LocalDate, date);
  }

  /**
   * After the selected booking's status changes to `s`, it is shown under tab `s` and under no
   * other status tab.
   */
  lemma StatusChangeMovesTab(bookings: seq<Booking>, k: nat, s: string, tab: string)
    requires k < |bookings| && tab != "ALL"
    ensures var r := WithStatus(bookings, bookings[k].id, s);
      var b := bookings[k].(status := s);
      (b in FilteredBookings(r, tab) <==> tab == s)
  {
    var r := WithStatus(bookings, bookings[k].id, s);
    assert r[k] == bookings[k].(status := s);
  }

  /** `getStatusDisplay`: the five known statuses get their labels; any other text is shown as is. */
  function StatusDisplay(status: string): (shown: string)
    ensures status == "PENDING" ==> shown == "Pending"
    ensures status == "CONFIRMED_UNPAID" ==> shown == "Confirmed (Unpaid)"
    ensures status == "CONFIRMED_PAID" ==> shown == "Confirmed (Paid)"
    ensures status == "COMPLETED" ==> shown == "Completed"
    ensures status == "CANCELLED" ==> shown == "Cancelled"
    ensures !IsKnownStatus(status) ==> shown == status
  {
    match status
    case "PENDING" => "Pending"
    case "CONFIRMED_UNPAID" => "Confirmed (Unpaid)"
    case "CONFIRMED_PAID" => "Confirmed (Paid)"
    case "COMPLETED" => "Completed"
    case "CANCELLED" => "Cancelled"
    case _ => status
  }

  /** The five statuses the tabs offer, `statusCategories`. */
  predicate IsKnownStatus(status: string) {
    status == "PENDING" || status == "CONFIRMED_UNPAID" || status == "CONFIRMED_PAID"
    || status == "COMPLETED" || status == "CANCELLED"
  }

  /** The five known statuses get five different labels, none of them a status name itself. */
  lemma KnownLabelsDistinct(a: string, b: string)
    requires IsKnownStatus(a) && IsKnownStatus(b) && a != b
    ensures StatusDisplay(a) != StatusDisplay(b)
    ensures !IsKnownStatus(StatusDisplay(a))
  {
  }

  // ----- the tab's state -----

  class BookingsTab {
    const token: Option<string>
    const isProvider: bool
    var bookings: seq<Booking>
    var serviceListings: seq<Listing>
    var selectedBooking: Option<Booking>
    var loading: bool
    var activeTab: string

    constructor(token: Option<string>, isProvider: bool)
      ensures this.token == token && this.isProvider == isProvider
      ensures bookings == [] && serviceListings == [] && selectedBooking == None
      ensures loading && activeTab == "ALL"
    {
      this.token := token;
      this.isProvider := isProvider;
      bookings := [];
      serviceListings := [];
      selectedBooking := None;
      loading := true;
      activeTab := "ALL";
    }

    /** What the tab lists. */
    function Shown(): seq<Booking>
      reads this
    {
      FilteredBookings(bookings, activeTab)
    }

    /** A tab button's `onClick`. */
    method SelectTab(tab: string)
      modifies this
      ensures activeTab == tab
      ensures bookings == old(bookings) && selectedBooking == old(selectedBooking)
      ensures serviceListings == old(serviceListings) && loading == old(loading)
    {
      activeTab := tab;
    }

    /** A list item's `onClick`, and the back button. */
    method Select(b: Option<Booking>)
      modifies this
      ensures selectedBooking == b
      ensures bookings == old(bookings) && activeTab == old(activeTab)
      ensures serviceListings == old(serviceListings) && loading == old(loading)
    {
      selectedBooking := b;
    }

    /** `handleStatusChange`, called by the detail view of the selected booking. */
    method HandleStatusChange(newStatus: string)
      requires selectedBooking.Some?
      modifies this
      ensures bookings == WithStatus(old(bookings), old(selectedBooking.value.id), newStatus)
      ensures selectedBooking == old(selectedBooking) && activeTab == old(activeTab)
      ensures serviceListings == old(serviceListings) && loading == old(loading)
    {
      bookings := WithStatus(bookings, selectedBooking.value.id, newStatus);
    }

    /**
     * The provider's fetch. `listings` is the provider's listings, or None when that request
     * failed; `responses` the bookings fetched for each listing, or None when one of those
     * requests failed. Without a token nothing happens. A failure is caught: the listings, once
     * they arrived, are kept, the bookings stay as they were, and loading ends. With no listings
     * the fetch throws on purpose and is caught the same way.
     */
    method LoadProviderBookings(listings: Option<seq<Listing>>, responses: Option<seq<seq<Booking>>>)
      requires isProvider
      modifies this
      ensures !(token.Some? && token.value != "") ==>
        bookings == old(bookings) && serviceListings == old(serviceListings) && loading == old(loading)
      ensures token.Some? && token.value != "" ==>
        !loading
        && serviceListings == (if listings.Some? then listings.value else old(serviceListings))
        && bookings == (if listings.None? || listings.value == [] || responses.None? then old(bookings)
                        else EnrichProvider(Flatten(responses.value), listings.value))
      ensures selectedBooking == old(selectedBooking) && activeTab == old(activeTab)
    {
      if !(token.Some? && token.value != "") {
        return;
      }
      loading := true;
      if listings.Some? {
        serviceListings := listings.value;
        if listings.value != [] && responses.Some? {
          var combined := Flatten(responses.value);
          if combined == [] {
            bookings := [];
          } else {
            bookings := EnrichProvider(combined, listings.value);
          }
        }
      }
      loading := false;
    }

    /**
     * The customer's fetch. `raw` is the customer's bookings and `details` the listing fetched
     * for each distinct id; either is None when its request failed. A failed request, or a
     * booking whose listing did not come back (the TypeError), leaves the list as it was.
     */
    method LoadCustomerBookings(raw: Option<seq<Booking>>, details: Option<seq<Listing>>)
      requires !isProvider
      modifies this
      ensures !(token.Some? && token.value != "") ==>
        bookings == old(bookings) && loading == old(loading)
      ensures token.Some? && token.value != "" ==>
        !loading
        && bookings == (if raw.None? || details.None? then old(bookings)
                        else EnrichCustomer(raw.value, details.value).GetOr(old(bookings)))
      ensures serviceListings == old(serviceListings)
      ensures selectedBooking == old(selectedBooking) && activeTab == old(activeTab)
    {
      if !(token.Some? && token.value != "") {
        return;
      }
      loading := true;
      if raw.Some? && details.Some? {
        var enriched := EnrichCustomer(raw.value, details.value);
        if enriched.Some? {
          bookings := enriched.value;
        }
      }
      loading := false;
    }
  }
}
