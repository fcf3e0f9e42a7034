/**
 * The create-listing form. It keeps no state of its own: every input writes through the
 * `setFormData` it is given into the form state its caller owns (the provider dashboard's
 * new listing). Each input replaces exactly one value and checks nothing.
 */
module ServiceListingForm {
  import opened Marketplace

  /** The four free-text inputs of the form. */
  datatype TextField = ServiceName | Location | PricePerHour | Description

  /** The form state after a text input reports `value`: that field replaced, the rest kept. */
  function WithText(f: FormData, field: TextField, value: string): (g: FormData)
    ensures g.availability == f.availability
    ensures g.serviceName == (if field == ServiceName then value else f.serviceName)
    ensures g.location == (if field == Location then value else f.location)
    ensures g.pricePerHour == (if field == PricePerHour then value else f.pricePerHour)
    ensures g.description == (if field == Description then value else f.description)
  {
    match field
    case ServiceName => f.(serviceName := value)
    case Location => f.(location := value)
    case PricePerHour => f.(pricePerHour := value)
    case Description => f.(description := value)
  }

  /**
   * The form state after the start or end time input of `day` reports `value`: only that
   * bound of that day changes, whatever the value (an end before the start is accepted).
   */
  function WithDayBound(f: FormData, day: string, field: Field, value: string): (g: FormData)
    requires day in f.availability
    ensures g.availability.Keys == f.availability.Keys
    ensures g.availability[day] == SetBound(f.availability[day], field, value)
    ensures forall d :: d in f.availability && d != day ==> g.availability[d] == f.availability[d]
    ensures g == f.(availability := g.availability)
  {
    f.(availability := f.availability[day := SetBound(f.availability[day], field, value)])
  }

  /** Writing a field twice keeps only the second value. */
  lemma WithTextOverwrites(f: FormData, field: TextField, v1: string, v2: string)
    ensures WithText(WithText(f, field, v1), field, v2) == WithText(f, field, v2)
  {
    match field
    case ServiceName =>
    case Location =>
    case PricePerHour =>
    case Description =>
  }

  /** Writing a bound and then writing it back restores the form. */
  lemma WithDayBoundRestores(f: FormData, day: string, field: Field, value: string)
    requires day in f.availability
    ensures var old_ := if field == Start then f.availability[day].start else f.availability[day].end;
            WithDayBound(WithDayBound(f, day, field, value), day, field, old_) == f
  {
    var g := WithDayBound(f, day, field, value);
    var old_ := if field == Start then f.availability[day].start else f.availability[day].end;
    var h := WithDayBound(g, day, field, old_);
    assert h.availability == f.availability;
  }

  /** Edits of two different days, or of the two bounds of one day, commute. */
  lemma WithDayBoundCommutes(f: FormData, d1: string, b1: Field, v1: string,
                             d2: string, b2: Field, v2: string)
    requires d1 in f.availability && d2 in f.availability
    requires d1 != d2 || b1 != b2
    ensures WithDayBound(WithDayBound(f, d1, b1, v1), d2, b2, v2)
         == WithDayBound(WithDayBound(f, d2, b2, v2), d1, b1, v1)
  {
    var g := WithDayBound(WithDayBound(f, d1, b1, v1), d2, b2, v2);
    var h := WithDayBound(WithDayBound(f, d2, b2, v2), d1, b1, v1);
    assert g.availability == h.availability;
  }

  /**
   * The caller-owned form state the inputs write into: a reference every handler updates
   * in place, as `setFormData` updates the caller's state.
   */
  class ListingDraft {
    var form: FormData

    constructor(initial: FormData)
      ensures form == initial
    {
      form := initial;
    }

    /** A text input's `onChange`. */
    method SetText(field: TextField, value: string)
      modifies this
      ensures form == WithText(old(form), field, value)
    {
      form := WithText(form, field, value);
    }

    /** A day's start or end time input's `onChange`; the days are the form's own keys. */
    method SetDayBound(day: string, field: Field, value: string)
      requires day in form.availability
      modifies this
      ensures form == WithDayBound(old(form), day, field, value)
      ensures form.availability.Keys == old(form.availability.Keys)
    {
      form := WithDayBound(form, day, field, value);
    }
  }
}
