/**
 * The records the components pass around, as the remote API delivers them: a listing with
 * its weekly availability, and a booking. Only the fields some modelled rule reads are kept.
 */
module Marketplace {
  import opened Wrappers

  /** One day's open hours, `{ start, end }`, as the strings the inputs produced. */
  datatype Window = Window(start: string, end: string)

  /**
   * A weekly availability object, `availability.availability` of a listing: day name to
   * window. A missing object reads as `{}` everywhere it is used, so it is the empty map here.
   */
  type Availability = map<string, Window>

  /** Which bound of a window an edit replaces. */
  datatype Field = Start | End

  /** The window with one of its bounds replaced, the other kept. */
  function SetBound(w: Window, field: Field, value: string): (u: Window)
    ensures field == Start ==> u.start == value && u.end == w.end
    ensures field == End ==> u.end == value && u.start == w.start
  {
    match field
    case Start => w.(start := value)
    case End => w.(end := value)
  }

  /** The seven day names, Monday first, as the listing forms spell the keys. */
  const WeekDays: seq<string> :=
    ["MONDAY", "TUESDAY", "WEDNESDAY", "THURSDAY", "FRIDAY", "SATURDAY", "SUNDAY"]

  /** The `{ availability: ... }` envelope in which the forms submit a weekly availability. */
  datatype AvailabilityBody = AvailabilityBody(availability: Availability)

  datatype Listing = Listing(
    serviceListingId: string,
    serviceName: Option<string>,
    location: Option<string>,
    description: Option<string>,
    pricePerHour: Option<string>,   // the price as decimal text; its arithmetic is not modelled
    serviceProviderId: Option<string>,
    serviceProviderName: Option<string>,
    businessName: Option<string>,
    createdAt: int,                 // the time value of `new Date(createdAt)`
    availability: Availability)

  /**
   * A booking. `localDate` is the time value of `new Date(localDate)`, the key the booking
   * lists sort on; the last five fields are the ones the bookings tab fills from the listing.
   */
  datatype Booking = Booking(
    id: string,
    serviceListingId: string,
    status: string,
    localDate: int,
    serviceName: string,
    location: string,
    providerId: string,
    providerName: string,
    businessName: string)

  /**
   * The state of a listing form, created or edited: its text fields (`pricePerHour` is the
   * text of the number input) and the weekly availability being entered.
   */
  datatype FormData = FormData(
    serviceName: string,
    location: string,
    pricePerHour: string,
    description: string,
    availability: Availability)

  /** The index of the first listing with id `id`, or -1: `listings.find(...)`. */
  function FindListing(listings: seq<Listing>, id: string): (i: int)
    ensures -1 <= i < |listings|
    ensures i >= 0 ==> listings[i].serviceListingId == id
    ensures forall j :: 0 <= j < |listings| && (i < 0 || j < i) ==> listings[j].serviceListingId != id
  {
    if listings == [] then -1
    else if listings[0].serviceListingId == id then 0
    else
      var k := FindListing(listings[1..], id);
      if k < 0 then -1 else k + 1
  }

  /** `x || fallback` on an optional string: the fallback replaces a missing or empty value. */
  function OrElse(x: Option<string>, fallback: string): (r: string)
    ensures x.Some? && x.value != "" ==> r == x.value
    ensures (x.None? || x.value == "") ==> r == fallback
  {
    if x.Some? && x.value != "" then x.value else fallback
  }
}
