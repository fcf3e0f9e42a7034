/**
 * The listing detail view: the week listed in calendar order, the five-star rating row, and
 * the label each day is shown under.
 */
module ListingDetails {
  import opened JsString
  import opened Marketplace
  import opened Sorting

  // ----- the weekly availability, Monday first -----

  /** One row of the weekly availability: `{ day, time }`. */
  datatype DayWindow = DayWindow(day: string, time: Window)

  function DaysOf(rows: seq<DayWindow>): (days: seq<string>)
    ensures |days| == |rows|
    ensures forall k :: 0 <= k < |rows| ==> days[k] == rows[k].day
  {
    seq(|rows|, k requires 0 <= k < |rows| => rows[k].day)
  }

  /**
   * `sortedAvailability`: the week days, Monday to Sunday, that the availability has, each
   * with its window. Keys that are not one of the seven upper-case day names are not shown.
   */
  function SortedAvailability(av: Availability): (rows: seq<DayWindow>)
    ensures |rows| <= 7
    ensures forall k :: 0 <= k < |rows| ==> rows[k].day in av && rows[k].time == av[rows[k].day]
    ensures forall d :: d in WeekDays && d in av <==> d in DaysOf(rows)
    ensures IsSubsequence(DaysOf(rows), WeekDays)
  {
    Arrange(WeekDays, av)
  }

  /** The days of `order` that `av` has, in that order, each with its window. */
  function Arrange(order: seq<string>, av: Availability): (rows: seq<DayWindow>)
    ensures |rows| <= |order|
    ensures forall k :: 0 <= k < |rows| ==> rows[k].day in av && rows[k].time == av[rows[k].day]
    ensures forall d :: d in order && d in av <==> d in DaysOf(rows)
    ensures IsSubsequence(DaysOf(rows), order)
    ensures DaysOf(rows) == Filter(order, d => d in av)
  {
    var days := Filter(order, d => d in av);
    FilterIsSubsequence(order, d => d in av);
    var rows := seq(|days|, k requires 0 <= k < |days| => DayWindow(days[k], av[days[k]]));
    assert DaysOf(rows) == days;
    rows
  }

  /** The list is empty, and "No availability specified." shown, exactly when no week day is set. */
  lemma NoAvailabilityShown(av: Availability)
    ensures SortedAvailability(av) == [] <==> forall d :: d in WeekDays ==> d !in av
  {
    var rows := SortedAvailability(av);
    if rows != [] {
      assert rows[0].day in DaysOf(rows);
    }
  }

  /** A listing without an availability object shows none. */
  lemma MissingAvailabilityShowsNothing()
    ensures SortedAvailability(map[]) == []
  {
    NoAvailabilityShown(map[]);
  }

  /** A sequence that is a subsequence of one without repeats has no repeats either. */
  lemma {:induction false} SubsequenceDistinct(a: seq<string>, b: seq<string>)
    requires IsSubsequence(a, b)
    requires forall i, j :: 0 <= i < j < |b| ==> b[i] != b[j]
    ensures forall i, j :: 0 <= i < j < |a| ==> a[i] != a[j]
    ensures forall x :: x in a ==> x in b
    decreases |b|
  {
    if a != [] {
      assert b != [];
      if a[0] == b[0] && IsSubsequence(a[1..], b[1..]) {
        SubsequenceDistinct(a[1..], b[1..]);
        forall j | 0 < j < |a| ensures a[0] != a[j] {
          assert a[j] == a[1..][j - 1];
          assert a[j] in b[1..];
        }
        forall x | x in a ensures x in b {
          if x != a[0] { assert x in a[1..]; }
        }
      } else {
        SubsequenceDistinct(a, b[1..]);
      }
    }
  }

  /** No day is listed twice. */
  lemma SortedAvailabilityDistinct(av: Availability)
    ensures forall i, j :: 0 <= i < j < |SortedAvailability(av)| ==>
              SortedAvailability(av)[i].day != SortedAvailability(av)[j].day
  {
    var rows := SortedAvailability(av);
    WeekDaysDistinct();
    SubsequenceDistinct(DaysOf(rows), WeekDays);
  }

  /** The seven day names differ pairwise; the first two letters already tell them apart. */
  lemma WeekDaysDistinct()
    ensures forall i, j :: 0 <= i < j < |WeekDays| ==> WeekDays[i] != WeekDays[j]
  {
    forall i, j | 0 <= i < j < |WeekDays| ensures WeekDays[i] != WeekDays[j] {
      assert WeekDays[i][0] != WeekDays[j][0] || WeekDays[i][1] != WeekDays[j][1];
    }
  }

  /** A full week is listed whole, in calendar order. */
  lemma FullWeekListed(av: Availability)
    requires forall i :: 0 <= i < 7 ==> WeekDays[i] in av
    ensures DaysOf(SortedAvailability(av)) == WeekDays
  {
    ArrangeAll(WeekDays, av);
  }

  lemma ArrangeAll(order: seq<string>, av: Availability)
    requires forall k :: 0 <= k < |order| ==> order[k] in av
    ensures DaysOf(Arrange(order, av)) == order
  {
    FilterAll(order, d => d in av);
  }

  // ----- the rating row -----

  datatype Star = Full | Half | Empty

  /**
   * The five stars of a rating of `halves` half-stars (`Math.round(rating * 2)`): star `i`
   * (from 1) is full when `i` is at most the rating, half when it is half a star above.
   */
  predicate StarsFor(halves: int, stars: seq<Star>) {
    |stars| == 5
    && (forall k :: 0 <= k < 5 ==> (stars[k] == Full <==> 2 * (k + 1) <= halves))
    && (forall k :: 0 <= k < 5 ==> (stars[k] == Half <==> 2 * (k + 1) - 1 == halves))
  }

  /** `renderStars`. */
  method RenderStars(halves: int) returns (stars: seq<Star>)
    ensures StarsFor(halves, stars)
  {
    stars := [];
    var i := 1;
    while i <= 5
      invariant 1 <= i <= 6 && |stars| == i - 1
      invariant forall k :: 0 <= k < i - 1 ==> (stars[k] == Full <==> 2 * (k + 1) <= halves)
      invariant forall k :: 0 <= k < i - 1 ==> (stars[k] == Half <==> 2 * (k + 1) - 1 == halves)
    {
      if 2 * i <= halves {
        stars := stars + [Full];
      } else if 2 * i - 1 == halves {
        stars := stars + [Half];
      } else {
        stars := stars + [Empty];
      }
      i := i + 1;
    }
  }

  /** The full stars come first. */
  lemma FullStarsFirst(halves: int, stars: seq<Star>, k: nat, l: nat)
    requires StarsFor(halves, stars)
    requires k < l < 5 && stars[l] == Full
    ensures stars[k] == Full
  {
  }

  /** At most one star is half full, and it follows the last full one. */
  lemma AtMostOneHalf(halves: int, stars: seq<Star>, k: nat, l: nat)
    requires StarsFor(halves, stars)
    requires k < 5 && l < 5 && stars[k] == Half && stars[l] == Half
    ensures k == l
    ensures forall j :: 0 <= j < k ==> stars[j] == Full
    ensures forall j :: k < j < 5 ==> stars[j] == Empty
  {
  }

  function Count(stars: seq<Star>, s: Star): (n: nat)
    ensures n <= |stars|
  {
    if stars == [] then 0 else (if stars[0] == s then 1 else 0) + Count(stars[1..], s)
  }

  lemma {:induction false} CountPrefix(stars: seq<Star>, s: Star, m: nat)
    requires m <= |stars|
    requires forall k :: 0 <= k < |stars| ==> (stars[k] == s <==> k < m)
    ensures Count(stars, s) == m
  {
    if stars != [] {
      var m' := if m == 0 then 0 else m - 1;
      forall k | 0 <= k < |stars| - 1 ensures (stars[1..][k] == s <==> k < m') {
        assert stars[1..][k] == stars[k + 1];
      }
      CountPrefix(stars[1..], s, m');
    }
  }

  /** The number of full stars is the whole stars of the rating, between 0 and 5. */
  lemma FullStarCount(halves: int, stars: seq<Star>)
    requires StarsFor(halves, stars)
    ensures Count(stars, Full) == if halves <= 0 then 0 else if halves >= 10 then 5 else halves / 2
  {
    var m := if halves <= 0 then 0 else if halves >= 10 then 5 else halves / 2;
    CountPrefix(stars, Full, m);
  }

  /** A half star is shown exactly for an odd rating below five stars. */
  lemma HalfStarShown(halves: int, stars: seq<Star>)
    requires StarsFor(halves, stars)
    ensures Count(stars, Half) == if 1 <= halves <= 9 && halves % 2 == 1 then 1 else 0
  {
    if 1 <= halves <= 9 && halves % 2 == 1 {
      var h := (halves - 1) / 2;
      forall k | 0 <= k < 5 ensures (stars[k] == Half <==> k == h) {
      }
      CountPrefix(stars[h..], Half, 1);
      CountPrefix(stars[..h], Half, 0);
      CountAppend(stars[..h], stars[h..], Half);
      assert stars[..h] + stars[h..] == stars;
    } else {
      CountPrefix(stars, Half, 0);
    }
  }

  lemma {:induction false} CountAppend(a: seq<Star>, b: seq<Star>, s: Star)
    ensures Count(a + b, s) == Count(a, s) + Count(b, s)
  {
    if a != [] {
      assert (a + b)[1..] == a[1..] + b;
      CountAppend(a[1..], b, s);
    } else {
      assert a + b == b;
    }
  }

  // ----- the day label -----

  /** `day.charAt(0) + day.slice(1).toLowerCase()`: the first letter kept, the rest lower-cased. */
  function DayLabel(day: string): (text: string)
    ensures |text| == |day|
    ensures day != [] ==> text[0] == day[0]
    ensures forall k :: 1 <= k < |day| ==> text[k] == LowerChar(day[k])
  {
    if day == [] then [] else [day[0]] + ToLower(day[1..])
  }

  /** "MONDAY" reads as "Monday". */
  lemma MondayLabel()
    ensures DayLabel("MONDAY") == "Monday"
  {
    LabelOf("MONDAY", "Monday");
  }

  lemma LabelOf(day: string, text: string)
    requires |day| == |text| && day != [] && day[0] == text[0]
    requires forall k :: 1 <= k < |day| ==> LowerChar(day[k]) == text[k]
    ensures DayLabel(day) == text
  {
  }

  /** Upper-casing the label of an upper-case name gives the name back. */
  lemma LabelUpperRoundTrip(day: string)
    requires forall k :: 0 <= k < |day| ==> IsUpper(day[k])
    ensures ToUpper(DayLabel(day)) == day
  {
    var t := ToUpper(DayLabel(day));
    forall k | 0 <= k < |day| ensures t[k] == day[k] {
      if k > 0 {
        assert DayLabel(day)[k] == LowerChar(day[k]);
      }
    }
  }

  /** Labelling a label changes nothing. */
  lemma DayLabelIdempotent(day: string)
    ensures DayLabel(DayLabel(day)) == DayLabel(day)
  {
    var l := DayLabel(day);
    forall k | 1 <= k < |day| ensures LowerChar(LowerChar(day[k])) == LowerChar(day[k]) {
    }
  }
}
