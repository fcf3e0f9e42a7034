/**
 * The booking detail view: the card payment form (its input formatters and its validation),
 * the payment submit, the status buttons a provider gets at each step of a booking, and the
 * customer's payment prompt.
 */
module BookingDetails {
  import opened Wrappers
  import opened JsString
  import opened Marketplace

  // ----- the payment form -----

  /** The four inputs, `paymentData` (`Expirly` in the source is the expiry). */
  datatype PaymentData = PaymentData(name: string, cardNumber: string, expiry: string, cvc: string)

  /** The messages `validateForm` records. */
  datatype FieldError =
    | NameRequired | CardRequired | CardInvalid | ExpiryRequired | ExpiryInvalid | CardExpired
    | CvcRequired | CvcInvalid

  function Message(e: FieldError): string {
    match e
    case NameRequired => "Name is required"
    case CardRequired => "Card number is required"
    case CardInvalid => "Invalid card number"
    case ExpiryRequired => "Expiry date is required"
    case ExpiryInvalid => "Invalid expiry date format (MM/YY)"
    case CardExpired => "Card has expired"
    case CvcRequired => "CVC is required"
    case CvcInvalid => "Invalid CVC"
  }

  /** `formErrors`: at most one message per input. */
  datatype FormErrors = FormErrors(
    name: Option<FieldError>,
    cardNumber: Option<FieldError>,
    expiry: Option<FieldError>,
    cvc: Option<FieldError>)

  predicate NoErrors(e: FormErrors) {
    e.name.None? && e.cardNumber.None? && e.expiry.None? && e.cvc.None?
  }

  function NameError(name: string): (r: Option<FieldError>)
    ensures r == (if Blank(name) then Some(NameRequired) else None)
  {
    TrimEmptyIffBlank(name);
    if Trim(name) == [] then Some(NameRequired) else None
  }

  /** `/^\d{16}$/` on the number with its white space removed. */
  predicate SixteenDigits(card: string) {
    var d := RemoveWhitespace(card);
    |d| == 16 && AllDigits(d)
  }

  function CardError(card: string): (r: Option<FieldError>)
    ensures Blank(card) ==> r == Some(CardRequired)
    ensures !Blank(card) && !SixteenDigits(card) ==> r == Some(CardInvalid)
    ensures r.None? <==> SixteenDigits(card)
  {
    TrimEmptyIffBlank(card);
    if Trim(card) == [] then
      BlankRemoved(card);
      Some(CardRequired)
    else if !SixteenDigits(card) then Some(CardInvalid)
    else None
  }

  /** Removing white space from a blank string leaves nothing. */
  lemma {:induction false} BlankRemoved(s: string)
    requires Blank(s)
    ensures RemoveWhitespace(s) == []
  {
    if s != [] {
      BlankRemoved(s[1..]);
    }
  }

  /** `Expirly.split('/').map(num => parseInt(num, 10))`: the month and the year read. */
  function ExpiryFields(expiry: string): (Option<int>, Option<int>) {
    var parts := Split(expiry, '/');
    (ParseInt(parts[0]), if |parts| > 1 then ParseInt(parts[1]) else None)
  }

  /** `!x` on a number read by `parseInt`: `NaN` (None) and 0 are falsy. */
  predicate Falsy(x: Option<int>) {
    x.None? || x.value == 0
  }

  /**
   * The expiry check against the current two-digit year `currentYear` and month
   * `currentMonth`: required, then a month 1..12 and a non-zero year, then not in the past.
   */
  function ExpiryError(expiry: string, currentYear: int, currentMonth: int): (r: Option<FieldError>)
    ensures Blank(expiry) <==> r == Some(ExpiryRequired)
  {
    TrimEmptyIffBlank(expiry);
    if Trim(expiry) == [] then Some(ExpiryRequired)
    else
      var (month, year) := ExpiryFields(expiry);
      if Falsy(month) || Falsy(year) || month.value < 1 || month.value > 12 then Some(ExpiryInvalid)
      else if year.value < currentYear || (year.value == currentYear && month.value < currentMonth)
      then Some(CardExpired)
      else None
  }

  /** The three outcomes of a non-blank expiry, in terms of the month and year it reads as. */
  lemma ExpiryErrorCases(expiry: string, currentYear: int, currentMonth: int)
    requires !Blank(expiry)
    ensures var (month, year) := ExpiryFields(expiry);
      var r := ExpiryError(expiry, currentYear, currentMonth);
      (r == Some(ExpiryInvalid) <==> Falsy(month) || Falsy(year) || month.value < 1 || month.value > 12)
      && (r.None? <==> !Falsy(month) && !Falsy(year) && 1 <= month.value <= 12
                       && (year.value > currentYear || (year.value == currentYear && month.value >= currentMonth)))
  {
    TrimEmptyIffBlank(expiry);
  }

  /** `/^\d{3,4}$/` */
  predicate CvcShape(cvc: string) {
    3 <= |cvc| <= 4 && AllDigits(cvc)
  }

  function CvcError(cvc: string): (r: Option<FieldError>)
    ensures Blank(cvc) ==> r == Some(CvcRequired)
    ensures !Blank(cvc) && !CvcShape(cvc) ==> r == Some(CvcInvalid)
    ensures r.None? <==> CvcShape(cvc)
  {
    TrimEmptyIffBlank(cvc);
    if Trim(cvc) == [] then
      assert !CvcShape(cvc) by {
        if cvc != [] { assert IsWhitespace(cvc[0]); }
      }
      Some(CvcRequired)
    else if !CvcShape(cvc) then Some(CvcInvalid)
    else None
  }

  /** `validateForm`: every input is checked, and the form is valid when no message is recorded. */
  function ValidateForm(data: PaymentData, currentYear: int, currentMonth: int): (e: FormErrors)
    ensures NoErrors(e) <==>
      !Blank(data.name) && SixteenDigits(data.cardNumber) && CvcShape(data.cvc)
      && ExpiryError(data.expiry, currentYear, currentMonth).None?
  {
    FormErrors(NameError(data.name), CardError(data.cardNumber),
               ExpiryError(data.expiry, currentYear, currentMonth), CvcError(data.cvc))
  }

  // ----- reading an `MM/YY` expiry -----

  /** Two digits, a slash and two digits, the form the expiry input produces. */
  predicate ExpiryShaped(s: string) {
    |s| == 5 && s[2] == '/' && IsDigit(s[0]) && IsDigit(s[1]) && IsDigit(s[3]) && IsDigit(s[4])
  }

  lemma SplitOfExpiry(s: string)
    requires ExpiryShaped(s)
    ensures Split(s, '/') == [s[..2], s[3..]]
  {
    var a, b := s[..2], s[3..];
    assert '/' !in a by { assert a == [s[0], s[1]]; }
    assert '/' !in b by { assert b == [s[3], s[4]]; }
    assert s == a + ['/'] + b;
    SplitPair(a, b, '/');
  }

  /** An `MM/YY` string reads as its two numbers. */
  lemma ExpiryFieldsOfShape(s: string)
    requires ExpiryShaped(s)
    ensures ExpiryFields(s) == (Some(TwoDigits(s[0], s[1])), Some(TwoDigits(s[3], s[4])))
  {
    SplitOfExpiry(s);
    ParseIntOfTwoDigits(s[..2]);
    ParseIntOfTwoDigits(s[3..]);
  }

  /**
   * An `MM/YY` expiry passes exactly when the month is 01..12, the year is not 00, and the
   * month is not before the current one. A card expiring in year 00 is refused as malformed.
   */
  lemma ExpiryOfShape(s: string, currentYear: int, currentMonth: int)
    requires ExpiryShaped(s)
    ensures var mm, yy := TwoDigits(s[0], s[1]), TwoDigits(s[3], s[4]);
      ExpiryError(s, currentYear, currentMonth)
      == if mm < 1 || mm > 12 || yy == 0 then Some(ExpiryInvalid)
         else if yy < currentYear || (yy == currentYear && mm < currentMonth) then Some(CardExpired)
         else None
  {
    ExpiryFieldsOfShape(s);
    assert !Blank(s) by { assert !IsWhitespace(s[0]); }
  }

  // ----- the input formatters -----

  /** `replace(/(\d{4})/g, '$1 ')` on a digit string: a space after each full group of four. */
  function GroupFours(d: string): (r: string)
    decreases |d|
  {
    if |d| < 4 then d else d[..4] + " " + GroupFours(d[4..])
  }

  /** Grouping adds one space per full group of four. */
  lemma {:induction false} GroupFoursLength(d: string)
    ensures |GroupFours(d)| == |d| + |d| / 4
    decreases |d|
  {
    if |d| >= 4 {
      GroupFoursLength(d[4..]);
    }
  }

  /** Position `k` of the grouped digits: a space iff `k % 5 == 4`, else digit `k - k / 5`. */
  lemma {:induction false} GroupFoursAt(d: string, k: nat)
    requires AllDigits(d) && k < |GroupFours(d)|
    ensures GroupFours(d)[k] == ' ' <==> k % 5 == 4
    ensures k % 5 != 4 ==> k - k / 5 < |d| && GroupFours(d)[k] == d[k - k / 5]
    decreases k
  {
    var g := GroupFours(d);
    if |d| < 4 {
      assert k % 5 == k && k / 5 == 0;
      assert IsDigit(d[k]);
    } else {
      var t := d[4..];
      assert g == d[..4] + " " + GroupFours(t);
      if k < 5 {
        assert k % 5 == k && k / 5 == 0;
        if k < 4 {
          assert g[k] == d[k] && IsDigit(d[k]);
        }
      } else {
        assert AllDigits(t);
        GroupFoursAt(t, k - 5);
        assert (k - 5) % 5 == k % 5 && (k - 5) / 5 == k / 5 - 1;
        assert g[k] == GroupFours(t)[k - 5];
      }
    }
  }

  /** Grouping puts a space at every fifth position and the digits, in order, everywhere else. */
  lemma GroupFoursLayout(d: string)
    requires AllDigits(d)
    ensures |GroupFours(d)| == |d| + |d| / 4
    ensures forall k :: 0 <= k < |GroupFours(d)| ==> (GroupFours(d)[k] == ' ' <==> k % 5 == 4)
    ensures forall k :: 0 <= k < |GroupFours(d)| && k % 5 != 4 ==> GroupFours(d)[k] == d[k - k / 5]
  {
    GroupFoursLength(d);
    forall k | 0 <= k < |GroupFours(d)|
      ensures (GroupFours(d)[k] == ' ' <==> k % 5 == 4)
      ensures k % 5 != 4 ==> GroupFours(d)[k] == d[k - k / 5]
    {
      GroupFoursAt(d, k);
    }
  }

  /**
   * The card number input: digits only, grouped in fours, trimmed. A space separates each full
   * group of four from the next; every other position holds the typed digits in order.
   */
  function FormatCard(input: string): (r: string)
    ensures var d := KeepDigits(input);
      |r| == (if d == [] then 0 else |d| + (|d| - 1) / 4)
      && (forall k :: 0 <= k < |r| ==> (r[k] == ' ' <==> k % 5 == 4))
      && (forall k :: 0 <= k < |r| && k % 5 != 4 ==> r[k] == d[k - k / 5])
  {
    GroupFoursLayout(KeepDigits(input));
    TrimGroupFours(KeepDigits(input));
    Trim(GroupFours(KeepDigits(input)))
  }

  /** Trimming the grouped digits drops only the space after a final full group. */
  lemma TrimGroupFours(d: string)
    requires AllDigits(d)
    ensures var n := if d == [] then 0 else |d| + (|d| - 1) / 4;
      n <= |GroupFours(d)| && Trim(GroupFours(d)) == GroupFours(d)[..n]
  {
    var g := GroupFours(d);
    GroupFoursLength(d);
    if d != [] {
      var n := |d| + (|d| - 1) / 4;
      GroupedLength(|d|);
      GroupFoursAt(d, 0);
      GroupFoursAt(d, n - 1);
      if |g| == n + 1 {
        GroupFoursAt(d, n);
      }
      TrimDigitsThenSpace(g, n);
    } else {
      assert g == [];
    }
  }

  /** A string that ends in a digit at `n - 1`, followed by at most a space, trims to `n` characters. */
  lemma TrimDigitsThenSpace(g: string, n: nat)
    requires 0 < n <= |g| <= n + 1 && IsDigit(g[0]) && IsDigit(g[n - 1])
    requires |g| == n + 1 ==> g[n] == ' '
    ensures Trim(g) == g[..n]
  {
    TrimTrailingBlank(g, n);
  }

  /**
   * The arithmetic of the grouped length: the last digit is not at a space position, and at
   * most one character, a space, follows it.
   */
  lemma GroupedLength(len: nat)
    requires len > 0
    ensures var n := len + (len - 1) / 4;
      0 < n <= len + len / 4 <= n + 1 && (n - 1) % 5 != 4
      && (len + len / 4 == n + 1 ==> n % 5 == 4)
  {
    var q, rest := (len - 1) / 4, (len - 1) % 4;
    var n := len + q;
    assert len - 1 == 4 * q + rest;
    assert n - 1 == 5 * q + rest && (n - 1) % 5 == rest;
    assert len / 4 == if rest == 3 then q + 1 else q;
  }

  /** `replace(/\D/g, '')`, then `MM/YY` once there are two digits. */
  function FormatExpiry(input: string): (r: string)
    ensures var d := KeepDigits(input);
      |d| < 2 ==> r == d
    ensures var d := KeepDigits(input);
      |d| >= 2 ==>
        |r| == 1 + (if |d| < 4 then |d| else 4)
        && r[..2] == d[..2] && r[2] == '/' && r[3..] == d[2..|r| - 1]
  {
    var d := KeepDigits(input);
    if |d| >= 2 then d[..2] + "/" + d[2..if |d| < 4 then |d| else 4] else d
  }

  /** The CVC input: digits only. */
  function FormatCvc(input: string): (r: string)
    ensures AllDigits(r)
  {
    KeepDigits(input)
  }

  lemma {:induction false} GroupFoursDigits(d: string)
    requires AllDigits(d)
    ensures RemoveWhitespace(GroupFours(d)) == d
    decreases |d|
  {
    if |d| >= 4 {
      GroupFoursDigits(d[4..]);
      RemoveWhitespaceAppend(d[..4] + " ", GroupFours(d[4..]));
      RemoveWhitespaceAppend(d[..4], " ");
      assert RemoveWhitespace(d[..4]) == d[..4];
      assert d[..4] + d[4..] == d;
    }
  }

  /** Trimming removes only white space, so it does not change what remains without it. */
  lemma TrimRemovesOnlyWhitespace(s: string)
    ensures RemoveWhitespace(Trim(s)) == RemoveWhitespace(s)
  {
    TrimStartKeeps(s);
    TrimEndKeeps(TrimStart(s));
  }

  lemma TrimStartKeeps(s: string)
    ensures RemoveWhitespace(TrimStart(s)) == RemoveWhitespace(s)
  {
    var t := TrimStart(s);
    var a := s[..|s| - |t|];
    TrimStartDropsBlank(s);
    assert Blank(a);
    assert a + t == s;
    DropBlankPrefix(a, t);
  }

  lemma TrimEndKeeps(t: string)
    ensures RemoveWhitespace(TrimEnd(t)) == RemoveWhitespace(t)
  {
    var u := TrimEnd(t);
    var b := t[|u|..];
    TrimEndDropsBlank(t);
    assert Blank(b);
    assert u + b == t;
    DropBlankSuffix(u, b);
  }

  lemma DropBlankPrefix(a: string, b: string)
    requires Blank(a)
    ensures RemoveWhitespace(a + b) == RemoveWhitespace(b)
  {
    RemoveWhitespaceAppend(a, b);
    BlankRemoved(a);
  }

  lemma DropBlankSuffix(a: string, b: string)
    requires Blank(b)
    ensures RemoveWhitespace(a + b) == RemoveWhitespace(a)
  {
    RemoveWhitespaceAppend(a, b);
    BlankRemoved(b);
  }

  /** Removing the spaces of a formatted card number gives back exactly the digits typed. */
  lemma FormatCardDigits(input: string)
    ensures RemoveWhitespace(FormatCard(input)) == KeepDigits(input)
  {
    TrimRemovesOnlyWhitespace(GroupFours(KeepDigits(input)));
    GroupFoursDigits(KeepDigits(input));
  }

  /** A formatted card number passes the check exactly when sixteen digits were typed. */
  lemma FormattedCardValid(input: string)
    ensures CardError(FormatCard(input)).None? <==> |KeepDigits(input)| == 16
  {
    FormatCardDigits(input);
  }

  /** Formatting a formatted expiry changes nothing. */
  lemma FormatExpiryIdempotent(input: string)
    ensures FormatExpiry(FormatExpiry(input)) == FormatExpiry(input)
  {
    var d := KeepDigits(input);
    if |d| >= 2 {
      var e := if |d| < 4 then |d| else 4;
      ExpiryDigits(d, e);
      var p := d[..e];
      assert p[..2] == d[..2] && p[2..] == d[2..e];
    }
  }

  /** The digits of a formatted expiry are the digits it was made from. */
  lemma ExpiryDigits(d: string, e: nat)
    requires AllDigits(d) && 2 <= e <= |d|
    ensures KeepDigits(d[..2] + "/" + d[2..e]) == d[..e]
  {
    assert d[..2] + "/" + d[2..e] == d[..2] + ("/" + d[2..e]);
    KeepDigitsAppend(d[..2], "/" + d[2..e]);
    KeepDigitsAppend("/", d[2..e]);
    assert AllDigits(d[..2]) && AllDigits(d[2..e]);
    assert KeepDigits("/") == [];
    assert d[..2] + d[2..e] == d[..e];
  }

  lemma {:induction false} KeepDigitsAppend(a: string, b: string)
    ensures KeepDigits(a + b) == KeepDigits(a) + KeepDigits(b)
  {
    if a != [] {
      assert (a + b)[0] == a[0];
      assert (a + b)[1..] == a[1..] + b;
      KeepDigitsAppend(a[1..], b);
    } else {
      assert a + b == b;
    }
  }

  /** Four typed digits become an `MM/YY` expiry that reads as the first and last pair. */
  lemma FormatExpiryShaped(input: string)
    requires |KeepDigits(input)| >= 4
    ensures ExpiryShaped(FormatExpiry(input))
    ensures var d := KeepDigits(input); var r := FormatExpiry(input);
      r[..2] == d[..2] && r[3..] == d[2..4]
  {
  }

  /** After two digits the slash is added again, so deleting back to two digits keeps it. */
  lemma FormatExpiryTwoDigits(input: string)
    requires |KeepDigits(input)| == 2
    ensures FormatExpiry(input) == KeepDigits(input) + "/"
  {
  }

  /** A third digit goes after the slash: typing `123` shows `12/3`. */
  lemma FormatExpiryThreeDigits()
    ensures FormatExpiry("123") == "12/3"
  {
    assert KeepDigits("123") == "123" by {
      assert "123"[1..] == "23" && "23"[1..] == "3" && "3"[1..] == [];
    }
  }

  /** A typed CVC passes exactly when it has three or four digits. */
  lemma FormattedCvcValid(input: string)
    ensures CvcError(FormatCvc(input)).None? <==> 3 <= |KeepDigits(input)| <= 4
  {
  }

  // ----- the status buttons -----

  /** A status button: a `PATCH` to `status`, or the `DELETE` of the cancel request. */
  datatype Action = SetStatus(status: string) | CancelRequest

  /** The buttons a provider is offered for a booking in `status`; a customer gets none. */
  function ProviderActions(isProvider: bool, status: string): (r: seq<Action>)
    ensures !isProvider || status == "COMPLETED" || status == "CANCELLED" ==> r == []
    ensures isProvider && status == "PENDING" ==>
      r == [SetStatus("CONFIRMED_UNPAID"), SetStatus("CANCELLED")]
    ensures isProvider && status == "CONFIRMED_UNPAID" ==> r == [CancelRequest]
    ensures isProvider && status == "CONFIRMED_PAID" ==> r == [SetStatus("COMPLETED")]
  {
    if !isProvider || status == "COMPLETED" || status == "CANCELLED" then []
    else if status == "PENDING" then [SetStatus("CONFIRMED_UNPAID"), SetStatus("CANCELLED")]
    else if status == "CONFIRMED_UNPAID" then [CancelRequest]
    else if status == "CONFIRMED_PAID" then [SetStatus("COMPLETED")]
    else []
  }

  /** The position of a status on the booking's way: pending, confirmed, paid, finished. */
  function Stage(status: string): (n: int)
    ensures n == -1 <==> status !in {"PENDING", "CONFIRMED_UNPAID", "CONFIRMED_PAID", "COMPLETED", "CANCELLED"}
  {
    if status == "PENDING" then 0
    else if status == "CONFIRMED_UNPAID" then 1
    else if status == "CONFIRMED_PAID" then 2
    else if status == "COMPLETED" || status == "CANCELLED" then 3
    else -1
  }

  /**
   * Every status a provider button sets is a later stage of a known status, never
   * `CONFIRMED_PAID` (only the customer's payment sets that), and a finished or unknown
   * booking offers nothing.
   */
  lemma ProviderMovesForward(isProvider: bool, status: string, a: Action)
    requires a in ProviderActions(isProvider, status)
    ensures Stage(status) >= 0 && Stage(status) < 3
    ensures a.SetStatus? ==> Stage(a.status) > Stage(status) && a.status != "CONFIRMED_PAID"
  {
  }

  /** `!isProvider && status === 'CONFIRMED_UNPAID' && !invoiceId`: the customer's "Make Payment". */
  predicate ShowsMakePayment(isProvider: bool, status: string, invoiceId: Option<string>) {
    !isProvider && status == "CONFIRMED_UNPAID" && (invoiceId.None? || invoiceId.value == "")
  }

  /** The payment prompt and the provider's buttons never appear together. */
  lemma PaymentPromptOnlyForCustomers(isProvider: bool, status: string, invoiceId: Option<string>)
    requires ShowsMakePayment(isProvider, status, invoiceId)
    ensures ProviderActions(isProvider, status) == []
    ensures forall p :: ProviderActions(p, status) == (if p then [CancelRequest] else [])
  {
  }

  // ----- the requests -----

  /** How a request ended: success, or an error carrying `err.response?.data?.message`. */
  datatype Response = Succeeded | Failed(message: Option<string>)

  const PaymentFailedMessage := "Payment failed. Please try again."
  const StatusFailedMessage := "Failed to update status."

  /** What a submit tells its caller: not sent, `onStatusChange(status)`, or an error shown. */
  datatype Outcome = NotSent | StatusChanged(status: string) | ShowError(message: string)

  /** `handleStatusChange(newStatus)`: success reports the new status, failure shows a message. */
  function StatusChangeOutcome(newStatus: string, response: Response): (r: Outcome)
    ensures response.Succeeded? ==> r == StatusChanged(newStatus)
    ensures response.Failed? ==> r == ShowError(OrElse(response.message, StatusFailedMessage))
  {
    match response
    case Succeeded => StatusChanged(newStatus)
    case Failed(m) => ShowError(OrElse(m, StatusFailedMessage))
  }

  /**
   * `handlePaymentSubmit` given the recorded errors: a form with any error sends nothing;
   * otherwise a successful payment reports `CONFIRMED_PAID` and a failed one shows the
   * server's message or the default.
   */
  function PaymentOutcome(errors: FormErrors, response: Response): (r: Outcome)
    ensures !NoErrors(errors) <==> r == NotSent
    ensures NoErrors(errors) && response.Succeeded? ==> r == StatusChanged("CONFIRMED_PAID")
    ensures NoErrors(errors) && response.Failed? ==>
      r == ShowError(OrElse(response.message, PaymentFailedMessage))
  {
    if !NoErrors(errors) then NotSent
    else match response
      case Succeeded => StatusChanged("CONFIRMED_PAID")
      case Failed(m) => ShowError(OrElse(m, PaymentFailedMessage))
  }

  /** The payment form's state. */
  class PaymentForm {
    var data: PaymentData
    var formErrors: FormErrors
    var error: Option<string>

    constructor()
      ensures data == PaymentData("", "", "", "") && NoErrors(formErrors) && error.None?
    {
      data := PaymentData("", "", "", "");
      formErrors := FormErrors(None, None, None, None);
      error := None;
    }

    /** The four inputs' `onChange`: each stores its formatted value and nothing else. */
    method SetName(input: string)
      modifies this
      ensures data == old(data).(name := input)
      ensures formErrors == old(formErrors) && error == old(error)
    {
      data := data.(name := input);
    }

    method SetCardNumber(input: string)
      modifies this
      ensures data == old(data).(cardNumber := FormatCard(input))
      ensures formErrors == old(formErrors) && error == old(error)
    {
      data := data.(cardNumber := FormatCard(input));
    }

    method SetExpiry(input: string)
      modifies this
      ensures data == old(data).(expiry := FormatExpiry(input))
      ensures formErrors == old(formErrors) && error == old(error)
    {
      data := data.(expiry := FormatExpiry(input));
    }

    method SetCvc(input: string)
      modifies this
      ensures data == old(data).(cvc := FormatCvc(input))
      ensures formErrors == old(formErrors) && error == old(error)
    {
      data := data.(cvc := FormatCvc(input));
    }

    /**
     * `handlePaymentSubmit`: the errors are recorded and the outcome is `PaymentOutcome`; the
     * error line is cleared when the request is sent and set when it fails.
     */
    method Submit(currentYear: int, currentMonth: int, response: Response) returns (r: Outcome)
      modifies this
      ensures formErrors == ValidateForm(old(data), currentYear, currentMonth) && data == old(data)
      ensures r == PaymentOutcome(formErrors, response)
      ensures error == match r
        case NotSent => old(error)
        case StatusChanged(_) => None
        case ShowError(m) => Some(m)
    {
      var errors := ValidateForm(data, currentYear, currentMonth);
      formErrors := errors;
      r := PaymentOutcome(errors, response);
      match r
      case NotSent =>
      case StatusChanged(_) => error := None;
      case ShowError(m) => error := Some(m);
    }
  }
}
