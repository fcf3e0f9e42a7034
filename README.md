# Jimmie's Services front end, modelled in Dafny

Jimmie's Services is a marketplace web front end, written in React. Service providers publish
listings with weekly open hours. Customers search those listings, book a time slot, pay, and
follow the booking's status. This project models the parts of the front end that decide things:

- the booking form's slot validator;
- the two listing forms and their 12-hour / 24-hour time conversions;
- the provider dashboard's create submit and statistics;
- the listing detail view (the week in order, the star row, the day labels);
- the booking detail view (the payment form, its input formatters, the provider's status buttons);
- the bookings tab (enrichment, filtering, sorting, status edits, status labels);
- the sign-up validation chain and request;
- the customer dashboard (search, cache expiry, newest-first sampling, booking);
- the notification card's status extraction and colour.

One Dafny module stands for each source file:

| module | source file |
|---|---|
| `BookingForm` | `BookingForm.jsx` |
| `EditListingForm` | `EditListingForm.jsx` |
| `ProviderDashboard` | `ProviderDashboard.jsx` |
| `ServiceListingForm` | `ServiceListingForm.jsx` |
| `ListingDetails` | `ListingDetails.jsx` |
| `BookingDetails` | `BookingDetails.jsx` |
| `BookingTab` | `BookingTab.jsx` |
| `Signup` | `Signup.jsx` |
| `CustomerDashboard` | `CustomerDashboard.jsx` |
| `NotificationMessage` | `NotificationMessage.jsx` |

Shared modules hold what several components use:

- `Wrappers`: an `Option`.
- `JsString`: the JavaScript string built-ins the code calls, namely `trim`, `split`, `includes`, `toLowerCase`/`toUpperCase`, `padStart`, `parseInt`, `Number` and `String`.
- `Calendar`: the Gregorian weekday behind `new Date(date).getDay()`, and the ISO date reading.
- `TimeOfDay`: well-formed `HH:MM` strings.
- `Sorting`: `filter` and the stable `sort` on an integer key.
- `Marketplace`: the listing, window and booking records.

React state becomes a Dafny `class`. Its fields are the `useState` variables, and there is one
`method` per handler. The handlers' pure parts are functions, with lemmas about them.

Modelling conventions:

- A JavaScript `NaN` is `None`, and so is a `TypeError` that aborts a handler.
- Every comparison with `NaN` is false, and the model keeps that.
- The network, the clock and `Math.random` are parameters:
  - what a request returned, or that it failed;
  - the current time;
  - the shuffled order.

The two listing forms disagree in two places, and the model keeps both disagreements:

- **Time format of a window.** The booking form reads a stored window with `toMinutes`, which expects `HH:MM`. The edit form converts stored windows from the 12-hour form. `BookingForm.TwelveHourFormIsNaN` and `BookingForm.UnreadableWindowBoundsNothing` show what happens when the booking form meets the 12-hour form: the window reads as NaN and bounds nothing. `convertTo12Hour` (src/components/EditListingForm.jsx:98-110) is defined inside `handleSubmit` but never called: the edit form submits its windows as `HH:MM`. The round trip lemmas `EditListingForm.RoundTripFrom24` and `EditListingForm.RoundTripFrom12` are therefore about a helper the submission does not use.
- **Which days are submitted.** The edit form submits a day that has a start or an end. The create form submits a day only when it has both. `ProviderDashboard.CreateKeepsFewerDaysThanEdit` states the difference.

- **Message for an inverted window.** The comment in `validateTime` (src/components/EditListingForm.jsx:54) says that a window with both times set needs its end later than its start, and the check rejects such a window. No message of its own is recorded, though: `handleTimeChange` (lines 79-81) reuses the two "…is required" messages and picks one by the edited field. The model follows the code, in `EditListingForm.DayError`.

## Model

| member | source | states |
|---|---|---|
| BookingForm.ToMinutesOfHHMM | src/components/BookingForm.jsx:5-8 | `toMinutes` of a well-formed `HH:MM` is 60·HH + MM, which lies in 0..1439 |
| BookingForm.ToMinutes | src/components/BookingForm.jsx:4-7 | a time that reads as a number is a non-negative count of minutes |
| BookingForm.NoColonIsNaN | src/components/BookingForm.jsx:4-7 | a time without ':' reads as NaN |
| BookingForm.TwelveHourFormIsNaN | src/components/BookingForm.jsx:5-8 | `toMinutes` of the 12-hour text `H:MM AM`/`H:MM PM` is NaN, because the piece after ':' contains a space |
| BookingForm.EmptyIsNaN | src/components/BookingForm.jsx:5-8 | `toMinutes('')` is NaN: the split has no second piece |
| BookingForm.SelectedDay | src/components/BookingForm.jsx:17-33 | the weekday name of a parsed date, indexed from Sunday; an unparseable date gives the key "undefined" |
| BookingForm.HandleSubmit | src/components/BookingForm.jsx:19-52 | the four checks run in order and the first failure's message is the outcome; confirmation happens iff all four pass, and carries exactly date, start, end and the listing id |
| BookingForm.AcceptedIffInsideWindow | src/components/BookingForm.jsx:27-48 | on a real date with well-formed times, a slot is accepted iff its weekday has a window, start < end, and the slot lies inside the window with both bounds inclusive |
| BookingForm.StartBeforeEndOfHHMM | src/components/BookingForm.jsx:35-38 | for well-formed times, the start/end check passes iff start's minute is strictly less than end's |
| BookingForm.WithinWindowOfHHMM | src/components/BookingForm.jsx:40-48 | for well-formed times, the window check passes iff window.start ≤ start and end ≤ window.end |
| BookingForm.EmptySlotRejected | src/components/BookingForm.jsx:35-38 | a slot whose start equals its end is always rejected |
| BookingForm.UnreadableWindowBoundsNothing | src/components/BookingForm.jsx:40-48 | a window whose bounds read as NaN rejects nothing: any slot with start < end on that day is accepted |
| BookingForm.UnreadableTimesPassOrder | src/components/BookingForm.jsx:35-48 | a start or end that reads as NaN passes the start-before-end check, and the window then checks only the other side |
| BookingForm.EmptyEndBoundsOnlyStart | src/components/BookingForm.jsx:40-48 | a window with an empty end only enforces its start |
| BookingForm.ScenarioAccepted | src/components/BookingForm.jsx:19-52 | a Friday 10:00–11:00 request on a Friday 09:00–17:00 listing is confirmed with the entered values |
| BookingForm.ScenarioClosedDay | src/components/BookingForm.jsx:27-33 | a Saturday request on that listing is rejected with a message naming SATURDAY |
| BookingForm.ScenarioPastClosing | src/components/BookingForm.jsx:40-48 | 16:00–18:00 is rejected with the outside-hours message naming the window |
| BookingForm.ScenarioInverted | src/components/BookingForm.jsx:35-38 | 11:00–10:00 is rejected with the start-before-end message |
| EditListingForm.ConvertTo24Hour | src/components/EditListingForm.jsx:4-18 | '' gives ''; any other input fails with a TypeError (None) iff its time part has no piece after ':'; the converted values are stated by `ConvertTo24HourOfTwelve` and `ConvertTo24HourOfHHMM` |
| EditListingForm.ClockHour | src/components/EditListingForm.jsx:105 | for a non-negative hour, `hours % 12 \|\| 12` lies in 1..12 and agrees with the hour modulo 12 |
| EditListingForm.ConvertTo12Hour | src/components/EditListingForm.jsx:98-110 | '' gives ''; any other input fails with a TypeError (None) iff it has no piece after ':'; the converted values are stated by `ConvertTo12HourOfHHMM` |
| EditListingForm.HourOfDay | src/components/EditListingForm.jsx:11-12 | 12 AM is hour 0, 12 PM is 12, and PM adds 12 to the hours 1..11 |
| EditListingForm.ClockInverse | src/components/EditListingForm.jsx:4-18 | an hour of the 12-hour clock and its period survive the 24-hour round trip |
| EditListingForm.HourOfDayInverse | src/components/EditListingForm.jsx:98-110 | an hour of the day 0..23 survives the 12-hour round trip |
| EditListingForm.ConvertTo24HourOfTwelve | src/components/EditListingForm.jsx:4-18 | the canonical 12-hour text converts to the padded hour of the day and the minutes |
| EditListingForm.ConvertTo12HourOfHHMM | src/components/EditListingForm.jsx:98-110 | a well-formed `HH:MM` converts to its clock hour, minutes and period |
| EditListingForm.RoundTripFrom24 | src/components/EditListingForm.jsx:4-110 | `convertTo24Hour(convertTo12Hour(t)) == t` for every well-formed `HH:MM` |
| EditListingForm.RoundTripFrom12 | src/components/EditListingForm.jsx:4-110 | `convertTo12Hour(convertTo24Hour(s)) == s` for every canonical 12-hour text |
| EditListingForm.ConvertTo24HourOfHHMM | src/components/EditListingForm.jsx:4-18 | a time already in `HH:MM` form has no modifier and passes through unchanged |
| EditListingForm.ValidateTime | src/components/EditListingForm.jsx:45-56 | both empty is valid, exactly one set is invalid, and both set is valid iff start < end as strings |
| EditListingForm.LexLessOfHHMM | src/components/EditListingForm.jsx:55 | on well-formed `HH:MM` strings, string order is minute-of-day order |
| EditListingForm.ValidateTimeOfHHMM | src/components/EditListingForm.jsx:45-56 | two well-formed times make a valid window iff the start's minute is below the end's |
| EditListingForm.BlankWeek | src/components/EditListingForm.jsx:32-40 | all seven upper-case days are present, each with empty start and end, and no other key |
| EditListingForm.InitialAvailability | src/components/EditListingForm.jsx:26-40 | all seven days are present; stored days are overwritten with converted times; the other days stay blank; a failing conversion is None |
| EditListingForm.InitialOfHHMMWeek | src/components/EditListingForm.jsx:26-40 | a stored week already in `HH:MM` form is taken over unchanged on top of the blank week |
| EditListingForm.InitialFormData | src/components/EditListingForm.jsx:20-41 | missing text fields become '' and the availability is the initial week |
| EditListingForm.NormaliseTime | src/components/EditListingForm.jsx:59-65 | '' stays ''; any other input fails with a TypeError (None) iff it has no piece after ':' |
| EditListingForm.NormaliseTimeOfHHMM | src/components/EditListingForm.jsx:59-65 | what the time input produces, `HH:MM`, is stored unchanged |
| EditListingForm.DayError | src/components/EditListingForm.jsx:72-83 | the day's error is none iff the updated window is valid; otherwise the message depends on the edited field |
| EditListingForm.Collapse | src/components/EditListingForm.jsx:113-121 | exactly the days with a start or an end are kept, with their windows unchanged |
| EditListingForm.CollapseIdempotent | src/components/EditListingForm.jsx:113-121 | collapsing twice gives the same as collapsing once |
| EditListingForm.CollapseBlankWeek | src/components/EditListingForm.jsx:113-121 | an untouched form submits no days |
| EditListingForm.ValidWeekKeepsTwoSidedDays | src/components/EditListingForm.jsx:113-121 | when every day validates, each submitted day has both bounds set |
| EditListingForm.Editor.HandleTimeChange | src/components/EditListingForm.jsx:58-92 | the day's bound is normalised and set; the day's error is recomputed; other days and errors are unchanged |
| EditListingForm.Editor.HandleSubmit | src/components/EditListingForm.jsx:94-130 | any recorded error stops the submit; otherwise the form data is sent with its collapsed week |
| ProviderDashboard.TokenFields | src/pages/ProviderDashboard.jsx:28-29 | no token gives no fields; the username never contains '\|'; a token without '\|' is all username |
| ProviderDashboard.TokenOfPair | src/pages/ProviderDashboard.jsx:28-29 | `username\|providerId` splits back into both halves |
| ProviderDashboard.BlankTemplate | src/pages/ProviderDashboard.jsx:41-49 | the seven lower-case days, each with empty bounds, and nothing else |
| ProviderDashboard.BlankListing | src/pages/ProviderDashboard.jsx:36-50 | every text field is empty and the week is the blank template |
| ProviderDashboard.UpperWeekDays | src/pages/ProviderDashboard.jsx:174 | upper-casing the lower-case day keys gives the upper-case day names, in order |
| ProviderDashboard.FilterAvailability | src/pages/ProviderDashboard.jsx:171-179 | every day with both bounds is sent under its upper-cased name; every sent day comes from such a day; a name no other day shares keeps its own window |
| ProviderDashboard.NothingSubmitted | src/pages/ProviderDashboard.jsx:171-179 | a week with no two-sided day submits nothing |
| ProviderDashboard.BlankTemplateSubmitsNothing | src/pages/ProviderDashboard.jsx:171-179 | the blank template submits nothing |
| ProviderDashboard.LowerDaysUpperDistinct | src/pages/ProviderDashboard.jsx:174 | distinct lower-case day keys upper-case to distinct names |
| ProviderDashboard.SubmittedLowerWeek | src/pages/ProviderDashboard.jsx:171-179 | on the lower-case week, exactly the two-sided days are sent; each keeps its own window; every key sent is a week day |
| ProviderDashboard.CreateKeepsFewerDaysThanEdit | src/pages/ProviderDashboard.jsx:173 | every day sent by the create submit is also sent by the edit submit, with the same window; a one-sided day is sent by the edit submit only |
| ProviderDashboard.TargetListings | src/pages/ProviderDashboard.jsx:109-113 | '' or 'all' covers every listing; any other id covers the first listing with that id, or none when no listing has it |
| ProviderDashboard.DayCount | src/pages/ProviderDashboard.jsx:130 | `day.bookingNumber \|\| 0`: a missing count adds 0 |
| ProviderDashboard.ListingBookingsAppend | src/pages/ProviderDashboard.jsx:130 | the per-listing sum splits over concatenated day lists |
| ProviderDashboard.MissingDaysCountZero | src/pages/ProviderDashboard.jsx:130 | inserting a day without a count leaves the sum unchanged |
| ProviderDashboard.ListingBookingsNonNegative | src/pages/ProviderDashboard.jsx:130 | non-negative daily counts give a non-negative sum |
| ProviderDashboard.ListingBookings | src/pages/ProviderDashboard.jsx:130 | a listing whose days carry no count has 0 bookings, and one booking on every day gives the number of days |
| ProviderDashboard.TotalBookings | src/pages/ProviderDashboard.jsx:115-142 | the total is None iff the request of some target fails; `TotalOfOne` and `TotalAppend` state the sum |
| ProviderDashboard.TotalOfOne | src/pages/ProviderDashboard.jsx:136-142 | the total over one listing is that listing's sum |
| ProviderDashboard.TotalAppend | src/pages/ProviderDashboard.jsx:136-142 | totals add over concatenated target lists |
| ProviderDashboard.WithRangeEnd | src/pages/ProviderDashboard.jsx:150-155 | only the chosen end of the date range changes |
| ProviderDashboard.Dashboard.HandleDateChange | src/pages/ProviderDashboard.jsx:150-155 | the range becomes `WithRangeEnd` of the old one and nothing else changes |
| ProviderDashboard.Dashboard.FetchStatistics | src/pages/ProviderDashboard.jsx:106-148 | no target, or a failing request, keeps the old count; otherwise the count becomes the total over the targets |
| ProviderDashboard.Dashboard.HandleFormSubmit | src/pages/ProviderDashboard.jsx:162-236 | no token sends nothing; otherwise the payload carries the provider id, the text fields and the filtered week; success replaces the listings and closes and resets the form; failure changes nothing |
| ServiceListingForm.WithText | src/components/ServiceListingForm.jsx:23-50 | replaces exactly one text field and keeps everything else |
| ServiceListingForm.WithDayBound | src/components/ServiceListingForm.jsx:64-88 | replaces one bound of one day; the other bound, the other days and the key set are kept |
| ServiceListingForm.WithTextOverwrites | src/components/ServiceListingForm.jsx:23-50 | the last edit of a field wins |
| ServiceListingForm.WithDayBoundRestores | src/components/ServiceListingForm.jsx:64-88 | writing the old value back restores the form |
| ServiceListingForm.WithDayBoundCommutes | src/components/ServiceListingForm.jsx:64-88 | edits to different day bounds commute |
| ServiceListingForm.ListingDraft.SetText | src/components/ServiceListingForm.jsx:23-50 | the form becomes `WithText` of the old form |
| ServiceListingForm.ListingDraft.SetDayBound | src/components/ServiceListingForm.jsx:64-88 | the form becomes `WithDayBound` of the old form, with the same days |
| ListingDetails.SortedAvailability | src/components/ListingDetails.jsx:8-12 | the week days the availability has, Monday first, each with its own window; a subsequence of the week order |
| ListingDetails.Arrange | src/components/ListingDetails.jsx:10-12 | the days of an order that the availability has, in that order, each with its window |
| ListingDetails.NoAvailabilityShown | src/components/ListingDetails.jsx:176-178 | the list is empty, and the empty message shown, iff no week day is set |
| ListingDetails.MissingAvailabilityShowsNothing | src/components/ListingDetails.jsx:8-12 | a listing without an availability object shows no days |
| ListingDetails.SortedAvailabilityDistinct | src/components/ListingDetails.jsx:9-12 | no day is listed twice |
| ListingDetails.FullWeekListed | src/components/ListingDetails.jsx:9-12 | a full week is listed whole, Monday to Sunday |
| ListingDetails.RenderStars | src/components/ListingDetails.jsx:14-27 | five stars; star k (counting from 1) is full iff 2k ≤ the rating in half stars, and half iff 2k − 1 equals it |
| ListingDetails.FullStarsFirst | src/components/ListingDetails.jsx:14-27 | the full stars come first |
| ListingDetails.AtMostOneHalf | src/components/ListingDetails.jsx:14-27 | at most one star is half full, with only full stars before it and only empty stars after it |
| ListingDetails.FullStarCount | src/components/ListingDetails.jsx:14-27 | the number of full stars is the whole stars of the rating, clamped to 0..5 |
| ListingDetails.HalfStarShown | src/components/ListingDetails.jsx:14-27 | a half star appears exactly for an odd half-star rating below five |
| ListingDetails.DayLabel | src/components/ListingDetails.jsx:171 | the first character is kept and the rest are lower-cased |
| ListingDetails.MondayLabel | src/components/ListingDetails.jsx:171 | MONDAY is shown as Monday |
| ListingDetails.LabelUpperRoundTrip | src/components/ListingDetails.jsx:171 | upper-casing the label of an upper-case name gives the name back |
| ListingDetails.DayLabelIdempotent | src/components/ListingDetails.jsx:171 | labelling a label changes nothing |
| BookingDetails.NameError | src/components/BookingDetails.jsx:97-99 | the name is required iff it is blank |
| BookingDetails.CardError | src/components/BookingDetails.jsx:101-105 | a blank number is required; otherwise sixteen digits after removing white space, else invalid |
| BookingDetails.ExpiryError | src/components/BookingDetails.jsx:107-116 | the expiry is reported as required iff it is blank; `ExpiryErrorCases` states the other outcomes |
| BookingDetails.ExpiryErrorCases | src/components/BookingDetails.jsx:110-116 | the three outcomes for a non-blank expiry, stated on the month and year read |
| BookingDetails.CvcError | src/components/BookingDetails.jsx:118-122 | a blank CVC is required; otherwise 3 or 4 digits, else invalid |
| BookingDetails.ValidateForm | src/components/BookingDetails.jsx:91-126 | each input is checked on its own; the form is valid iff no message is recorded |
| BookingDetails.ExpiryOfShape | src/components/BookingDetails.jsx:107-116 | an `MM/YY` expiry passes iff 1 ≤ MM ≤ 12, YY ≠ 00, and YY/MM is not before the current year and month. A year 00 is refused as malformed, because `!year` holds for it |
| BookingDetails.FormatExpiry | src/components/BookingDetails.jsx:519-523 | fewer than two typed digits show as those digits. From two digits on, the result is the first two digits, a '/', then the third and fourth digits that were typed (none, one or two), and later digits are dropped |
| BookingDetails.FormatExpiryThreeDigits | src/components/BookingDetails.jsx:519-523 | typing `123` shows `12/3` |
| BookingDetails.FormatCvc | src/components/BookingDetails.jsx:536 | the result holds digits only |
| BookingDetails.GroupFoursDigits | src/components/BookingDetails.jsx:505 | grouping a digit string in fours and removing the spaces gives the digits back |
| BookingDetails.FormatCard | src/components/BookingDetails.jsx:505 | the formatted number has a space exactly at every fifth position. Every other position holds the typed digits in order, and there is no trailing space |
| BookingDetails.GroupFoursLayout | src/components/BookingDetails.jsx:505 | before the trim, a space follows every full group of four digits, and the digits sit in order everywhere else |
| BookingDetails.GroupFoursAt | src/components/BookingDetails.jsx:505 | before the trim, position k is a space iff k mod 5 is 4; every other position holds digit k - k/5 |
| BookingDetails.TrimGroupFours | src/components/BookingDetails.jsx:505 | the trim of the grouped digits drops only the space after a final full group of four |
| JsString.TrimTrailingBlank | src/components/BookingDetails.jsx:505 | a string whose first character and character m - 1 are not blank, and which is blank from position m on, trims to its first m characters |
| BookingDetails.FormatCardDigits | src/components/BookingDetails.jsx:505 | removing the white space of a formatted card number gives exactly the digits typed |
| BookingDetails.FormattedCardValid | src/components/BookingDetails.jsx:505 | a formatted card number passes iff sixteen digits were typed |
| BookingDetails.FormatExpiryIdempotent | src/components/BookingDetails.jsx:519-523 | formatting a formatted expiry changes nothing |
| BookingDetails.FormatExpiryShaped | src/components/BookingDetails.jsx:519-523 | four typed digits become `MM/YY` |
| BookingDetails.FormatExpiryTwoDigits | src/components/BookingDetails.jsx:519-523 | two typed digits keep the slash |
| BookingDetails.FormattedCvcValid | src/components/BookingDetails.jsx:536 | a typed CVC passes iff it has three or four digits |
| BookingDetails.ProviderActions | src/components/BookingDetails.jsx:323-377 | a provider gets confirm/cancel on PENDING, cancel-request on CONFIRMED_UNPAID and complete on CONFIRMED_PAID; everyone else gets no buttons |
| BookingDetails.Stage | src/components/BookingDetails.jsx:323-377 | a stage number for each of the five known statuses, from pending to finished; every other status gets −1 |
| BookingDetails.ProviderMovesForward | src/components/BookingDetails.jsx:323-377 | every status button moves the booking to a later stage, or cancels it |
| BookingDetails.PaymentPromptOnlyForCustomers | src/components/BookingDetails.jsx:305-377 | the payment prompt and the provider's buttons never appear together |
| BookingDetails.StatusChangeOutcome | src/components/BookingDetails.jsx:50-69 | success reports the new status; failure shows the server message or the fixed fallback |
| BookingDetails.PaymentOutcome | src/components/BookingDetails.jsx:128-156 | an invalid form sends nothing; success reports CONFIRMED_PAID; failure shows the message or the fallback |
| BookingDetails.PaymentForm.SetCardNumber | src/components/BookingDetails.jsx:505 | stores the formatted number and changes nothing else |
| BookingDetails.PaymentForm.SetExpiry | src/components/BookingDetails.jsx:518-524 | stores the formatted expiry and changes nothing else |
| BookingDetails.PaymentForm.SetCvc | src/components/BookingDetails.jsx:536 | stores the digits of the CVC and changes nothing else |
| BookingDetails.PaymentForm.SetName | src/components/BookingDetails.jsx:494 | stores the name as typed and changes nothing else |
| BookingDetails.PaymentForm.Submit | src/components/BookingDetails.jsx:91-156 | records the validation errors and returns the payment outcome |
| BookingTab.Enriched | src/components/BookingTab.jsx:55-62 | the booking's own fields are kept; each display field is the listing's value, or 'Unknown' for a missing or empty one |
| BookingTab.EnrichedFilledIn | src/components/BookingTab.jsx:55-62 | every display field of an enriched booking is non-empty |
| BookingTab.EnrichProvider | src/components/BookingTab.jsx:48-63 | bookings without a matching listing are dropped; the rest are enriched with the first matching listing, in the original order |
| BookingTab.EnrichProviderFilled | src/components/BookingTab.jsx:48-63 | every kept booking is filled in and has a listing among the provider's listings |
| BookingTab.EnrichProviderDropsUnmatched | src/components/BookingTab.jsx:50-53 | a booking whose listing id no listing has never appears |
| BookingTab.Flatten | src/components/BookingTab.jsx:38-40 | every booking of every response is in the combined list |
| BookingTab.FlattenAppend | src/components/BookingTab.jsx:38-40 | combining responses keeps them in order: the combination of two runs of responses is the first's bookings followed by the second's |
| BookingTab.FlattenOne | src/components/BookingTab.jsx:38-40 | a single response combines to exactly its own bookings |
| BookingTab.FlattenLength | src/components/BookingTab.jsx:38-40 | the combined list has as many bookings as all the responses together |
| BookingTab.Distinct | src/components/BookingTab.jsx:72 | the ids have no repeats, and they are exactly the ids of the bookings |
| BookingTab.ServiceMap | src/components/BookingTab.jsx:82-84 | every fetched listing's id is a key; each key maps to a fetched listing with that id |
| BookingTab.ServiceMapLastWins | src/components/BookingTab.jsx:82-84 | a later listing with the same id replaces an earlier one |
| BookingTab.EnrichCustomer | src/components/BookingTab.jsx:86-97 | None (the TypeError) iff some booking's listing was not fetched; otherwise every booking, in order, enriched with its listing |
| BookingTab.CustomerListings | src/components/BookingTab.jsx:72 | the distinct listing ids of the bookings: no repeats, every booking's id, and nothing else |
| BookingTab.AllFetchedEnrichCustomer | src/components/BookingTab.jsx:72-97 | when the details of every distinct id are fetched, enrichment succeeds |
| BookingTab.WithStatus | src/components/BookingTab.jsx:110-116 | the same length; bookings with the id get the new status; all others are unchanged |
| BookingTab.WithStatusUnknownId | src/components/BookingTab.jsx:110-116 | an id no booking has changes nothing |
| BookingTab.WithStatusTwice | src/components/BookingTab.jsx:110-116 | the second status change wins |
| BookingTab.FilteredBookings | src/components/BookingTab.jsx:143-147 | ALL is a permutation of the bookings, earliest date first; another tab is exactly its bookings with that status, each still in the list, latest date first |
| BookingTab.AllTabStable | src/components/BookingTab.jsx:144 | on ALL, bookings on the same date keep their order |
| BookingTab.StatusChangeMovesTab | src/components/BookingTab.jsx:145-147 | after a status change the booking shows in the new status's tab |
| BookingTab.StatusDisplay | src/components/BookingTab.jsx:127-142 | the five known statuses get their labels; any other status is shown as it is |
| BookingTab.KnownLabelsDistinct | src/components/BookingTab.jsx:127-142 | distinct known statuses get distinct labels, and no label is itself a status |
| BookingTab.BookingsTab.SelectTab | src/components/BookingTab.jsx:10 | only the active tab changes |
| BookingTab.BookingsTab.Select | src/components/BookingTab.jsx:8 | only the selected booking changes |
| BookingTab.BookingsTab.HandleStatusChange | src/components/BookingTab.jsx:110-116 | the bookings become `WithStatus` at the selected booking's id |
| BookingTab.BookingsTab.LoadProviderBookings | src/components/BookingTab.jsx:12-104 | no token changes nothing. A failed request for the listings keeps both lists; no listings or a failed bookings request keeps the bookings; otherwise the bookings become the enriched combined responses. Loading ends in every case |
| BookingTab.BookingsTab.LoadCustomerBookings | src/components/BookingTab.jsx:66-104 | a failed request for the bookings or for the listing details keeps the bookings, and so does a failed enrichment; otherwise they become the enriched bookings. Loading ends in every case |
| Signup.WithField | src/pages/Signup.jsx:19-25 | exactly the named field takes the value |
| Signup.WithFieldRestores | src/pages/Signup.jsx:19-25 | writing the old value back restores the form |
| Signup.EmailValidIffShape | src/pages/Signup.jsx:33-46 | the email check holds iff the string matches `^\S+@\S+\.\S+$`, stated position by position |
| Signup.PhoneValidShape | src/pages/Signup.jsx:34-52 | the phone check holds iff the text is 10 to 15 digits, or a '+' followed by 10 to 15 digits |
| Signup.PasswordExamples | src/pages/Signup.jsx:60-65 | `Secret123` passes; without a capital, without a digit, or with only seven characters it fails |
| Signup.PhoneOfDigits | src/pages/Signup.jsx:34-52 | ten to fifteen digits pass the phone check, with or without a leading '+' |
| Signup.Validate | src/pages/Signup.jsx:36-69 | each error is reported iff all earlier checks pass and its own check fails, in the order name, email, phone, address, password |
| Signup.ValidateAccepts | src/pages/Signup.jsx:36-69 | a form passes iff every check passes; the business name is never checked |
| Signup.EarlierFailureWins | src/pages/Signup.jsx:36-40 | an edit to a later field cannot hide an empty name |
| Signup.Body | src/pages/Signup.jsx:76-79 | a provider sends all six fields; a customer sends every field except the business name; each value comes from the form |
| Signup.Submission | src/pages/Signup.jsx:27-99 | a failing check stops with its message; otherwise the request goes to the role's endpoint with the body |
| Signup.CustomerSendsNoBusinessName | src/pages/Signup.jsx:77-79 | a customer's request never carries a business name |
| Signup.ProviderSendsEverything | src/pages/Signup.jsx:73-79 | a provider's request carries every field, to the provider endpoint |
| Signup.SignupPage.HandleChange | src/pages/Signup.jsx:19-25 | the form becomes `WithField` of the old form |
| Signup.SignupPage.HandleSubmit | src/pages/Signup.jsx:27-99 | a failing check shows its message and sends nothing; otherwise the request is sent, and success leads to the login page while failure shows the error |
| CustomerDashboard.Search | src/pages/CustomerDashboard.jsx:64-73 | a listing is kept iff its lower-cased name, location or description contains the lower-cased query; the result is a subsequence of the listings |
| CustomerDashboard.SearchIgnoresCase | src/pages/CustomerDashboard.jsx:65 | the case the query is typed in does not change the result |
| CustomerDashboard.MatchesNeedsText | src/pages/CustomerDashboard.jsx:67-71 | a listing without name, location or description never matches; the empty query matches exactly the listings that have one of them |
| CustomerDashboard.EmptyQueryKeepsAll | src/pages/CustomerDashboard.jsx:67-71 | the empty query keeps every listing that has one of the three fields |
| CustomerDashboard.ShouldFetchData | src/pages/CustomerDashboard.jsx:35-40 | fetch when nothing was fetched (or the time is 0), otherwise iff strictly more than five minutes have passed |
| CustomerDashboard.CacheHolds | src/pages/CustomerDashboard.jsx:35-40 | up to and including five minutes after a fetch, there is no refetch |
| CustomerDashboard.NewestFirst | src/pages/CustomerDashboard.jsx:46-48 | a permutation of the fetched listings, newest createdAt first |
| CustomerDashboard.Newest | src/pages/CustomerDashboard.jsx:50-51 | the first min(n, 30) listings |
| CustomerDashboard.Sample | src/pages/CustomerDashboard.jsx:53 | the first eleven of the shuffle, or all of them when there are fewer |
| CustomerDashboard.SampleFromNewest | src/pages/CustomerDashboard.jsx:46-53 | every sampled listing is one of the thirty newest |
| CustomerDashboard.Payload | src/pages/CustomerDashboard.jsx:86-94 | the listing id, date, start and end are copied unchanged into the payload |
| CustomerDashboard.PayloadOfAcceptedSlot | src/pages/CustomerDashboard.jsx:86-94 | the payload of a slot the booking form accepted names that listing, date and slot |
| CustomerDashboard.Dashboard.HandleSearch | src/pages/CustomerDashboard.jsx:64-73 | the query becomes the lower-cased text and the shown listings become `Search` of the listings |
| CustomerDashboard.Dashboard.FetchListings | src/pages/CustomerDashboard.jsx:34-62 | fetches only on the search menu with a stale cache; success stores the newest-first list, a sample of the shuffle and the fetch time; failure keeps the data; loading ends false |
| CustomerDashboard.Dashboard.SelectMenu | src/pages/CustomerDashboard.jsx:136-164 | only the menu changes |
| CustomerDashboard.Dashboard.SelectListing | src/pages/CustomerDashboard.jsx:217 | the clicked listing becomes the selected one |
| CustomerDashboard.Dashboard.SetBooking | src/pages/CustomerDashboard.jsx:237-246 | the booking mode is set or cleared |
| CustomerDashboard.Dashboard.HandleBackToResults | src/pages/CustomerDashboard.jsx:79-82 | clears both the selected listing and the booking mode |
| CustomerDashboard.Dashboard.HandleConfirmBooking | src/pages/CustomerDashboard.jsx:84-116 | sends the payload; success leaves booking mode with isConfirming still set; failure clears isConfirming and sets the fixed slot-taken message |
| NotificationMessage.FirstMatchSpec | src/components/NotificationMessage.jsx:22 | the search finds the leftmost position where the marker is followed by a word character, and reports none when there is no such position |
| NotificationMessage.WordRunSpec | src/components/NotificationMessage.jsx:22 | the greedy `\w+` run: only word characters, ending at the end of the message or before a non-word character |
| NotificationMessage.NoMatchIsDefault | src/components/NotificationMessage.jsx:23 | a message without a match shows DEFAULT |
| NotificationMessage.FirstMatchStatus | src/components/NotificationMessage.jsx:22-23 | at the leftmost match, the status is the whole non-empty word run after the marker |
| NotificationMessage.StatusIsWord | src/components/NotificationMessage.jsx:22-23 | the status is DEFAULT or consists of word characters only |
| NotificationMessage.ExtractStatus | src/components/NotificationMessage.jsx:22-23 | the status read from a message is never empty |
| NotificationMessage.StatusAfterMarker | src/components/NotificationMessage.jsx:22-23 | a word right after the leftmost marker, ended by the end of the message or a non-word character, is the status |
| NotificationMessage.ColourIffNamed | src/components/NotificationMessage.jsx:7-20 | PENDING is yellow, CONFIRMED green, CANCELLED red, COMPLETED blue, each iff; every other status is gray |
| NotificationMessage.StatusColor | src/components/NotificationMessage.jsx:7-20 | every status gets one of the five colour classes |
| NotificationMessage.CardClasses | src/components/NotificationMessage.jsx:22-27 | every message's card classes are the fixed layout classes around one of the five colours |
| NotificationMessage.ConfirmedUnpaidIsGray | src/components/NotificationMessage.jsx:17-22 | CONFIRMED_UNPAID is read whole, because '_' is a word character, and is shown gray, not green |
| Marketplace.FindListing | src/components/BookingTab.jsx:49 | the index of the first listing with the id, or −1 when none has it |
| Marketplace.OrElse | src/components/BookingTab.jsx:57-61 | the value when it is present and non-empty, otherwise the fallback |
| Calendar.NextDayOfWeek | src/components/BookingForm.jsx:27 | the weekday advances by one, modulo seven, from each calendar day to the next |
| Calendar.DayOfWeek | src/components/BookingForm.jsx:27 | the weekday of a valid date is an index 0..6, counted from Sunday |
| Calendar.KnownWeekdays | src/components/BookingForm.jsx:27 | known anchors: 1970-01-01 was a Thursday, 2025-01-05 a Sunday, 2025-01-10 a Friday, 2025-01-11 a Saturday, 2000-02-29 a Tuesday, 2100-03-01 a Monday |
| Calendar.ParseIsoDate | src/components/BookingForm.jsx:27 | parsing succeeds iff the string is `YYYY-MM-DD` with a real month and day, and the result is then the date with exactly that year, month and day. The model reads nothing else, because a date input only ever holds "" or a valid `YYYY-MM-DD` |
| Calendar.ParseIsoString | src/components/BookingForm.jsx:64-68 | the `YYYY-MM-DD` text a date input holds for any date with a four-digit year parses back to that date |
| Calendar.IsoStringOfParse | src/components/BookingForm.jsx:64-68 | every string that parses is the `YYYY-MM-DD` text of the date it names, so reading is one-to-one |
| JsString.TrimEmptyIffBlank | src/pages/Signup.jsx:36-58 | `!s.trim()` holds iff every character is white space |
| JsString.Includes | src/pages/CustomerDashboard.jsx:68-70 | `includes` holds iff the query occurs at some position |
| JsString.SplitPieces | src/pages/ProviderDashboard.jsx:28-29 | no piece of a split contains the separator, and joining the pieces gives the string back |
| JsString.ParseIntOfDigits | src/components/EditListingForm.jsx:10-12 | `parseInt` of a digit string is its decimal value |
| Sorting.FilterIsSubsequence | src/pages/CustomerDashboard.jsx:67 | a filter keeps elements in their original order |
| Sorting.SortAscStable | src/components/BookingTab.jsx:144 | the sort is stable: elements with equal keys keep their relative order |
| Sorting.SortDesc | src/components/BookingTab.jsx:147 | a permutation, with keys descending |

## Left out

- Network requests (axios), their headers and URLs: each request is a parameter, either its result or its failure. The server's slot-taken conflict check is not modelled.
- `Promise.all` and its concurrency: only the aggregation of the results is modelled. One failing request fails the whole step, which is the `catch` path of the loaders.
- `ProviderDashboard.TargetListings` compares ids as strings. The source compares the select's string value with `===`, so a listing id the server sends as a number never matches, and the statistics then cover no listing. The model does not distinguish numbers from strings.
- Date fields are modelled as the time values the sorts compare. A booking's `localDate` is the value of `new Date(localDate)`, and a listing's `createdAt` is the value of `new Date(createdAt)`. The model does not connect `localDate` to the `YYYY-MM-DD` text that the booking form submits. A date text that reads as an Invalid Date gives NaN comparisons, and those are not modelled. This covers the booking tab's two sorts and the listings sort `res.data.sort` in `CustomerDashboard.NewestFirst` (src/pages/CustomerDashboard.jsx:46-48).
- Time zones. `new Date('YYYY-MM-DD')` is read as a calendar date. Depending on the viewer's zone, the browser may report the previous day.
- `Date.now()` and the current year and month are parameters.
- `Math.random`: the shuffle is a parameter that must be a permutation of the thirty newest listings.
- Floating point:
  - `parseFloat(pricePerHour)` is not modelled; the price stays the text typed.
  - Ratings come in as a count of half stars, the result of `Math.round(rating * 2)`.
  - Revenue sums are not modelled.
- `Number` and `parseInt` are modelled for what the forms produce:
  - `Number` of a trimmed string is a decimal digit string's value, 0 for the empty string, and NaN for anything else. Signs, decimals, exponents and hex are not modelled.
  - `parseInt` reads an optional sign and leading decimal digits.
- Case mapping covers ASCII letters only. String length is counted in characters, not UTF-16 units.
- JavaScript object key order. The model does not say which of two clashing days wins in `ProviderDashboard.FilterAvailability`: keys such as "monday" and "MONDAY" that upper-case alike clash.
- Regular expressions are replaced by character predicates with the same acceptance. The regex engine itself is not modelled.
- `maxLength` input limits, the `isSubmitting`, `updating` and `loading` spinner flags beyond their final values, and the chat, review and invoice views.
- `handleCancel` in the booking detail view is modelled only as the cancel-request button. The request does not change the booking's status.
- Response data that is not an array is treated as an empty response in `BookingTab.Flatten`.
- Logging out and the auth context (`setToken(null)`).
- The username the customer dashboard reads from its token uses the same split as `ProviderDashboard.TokenFields` and is not modelled a second time.
- Files outside the components and pages named above are not part of this model.
