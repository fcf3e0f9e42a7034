/**
 * The sign-up page for customers and service providers: the form's six fields, the checks
 * a submission must pass before anything is sent, and the request it then sends.
 */
module Signup {
  import opened Wrappers
  import opened JsString

  // ----- the form -----

  /** The six inputs, by their `name` attribute. */
  datatype SignupField = Name | Email | Password | PhoneNumber | Address | BusinessName

  datatype SignupData = SignupData(
    name: string,
    email: string,
    password: string,
    phoneNumber: string,
    address: string,
    businessName: string)
  {
    /** `formData[field]` */
    function Get(field: SignupField): string {
      match field
      case Name => name
      case Email => email
      case Password => password
      case PhoneNumber => phoneNumber
      case Address => address
      case BusinessName => businessName
    }
  }

  const EmptySignup := SignupData("", "", "", "", "", "")

  /** `handleChange`: `{ ...prevState, [name]: value }`. */
  function WithField(f: SignupData, field: SignupField, value: string): (g: SignupData)
    ensures g.Get(field) == value
    ensures forall other :: other != field ==> g.Get(other) == f.Get(other)
  {
    match field
    case Name => f.(name := value)
    case Email => f.(email := value)
    case Password => f.(password := value)
    case PhoneNumber => f.(phoneNumber := value)
    case Address => f.(address := value)
    case BusinessName => f.(businessName := value)
  }

  /** Writing a field and then writing it back restores the form. */
  lemma WithFieldRestores(f: SignupData, field: SignupField, value: string)
    ensures WithField(WithField(f, field, value), field, f.Get(field)) == f
  {
    var g := WithField(WithField(f, field, value), field, f.Get(field));
    assert forall x :: g.Get(x) == f.Get(x);
    assert g.name == f.name && g.email == f.email && g.password == f.password;
    assert g.phoneNumber == f.phoneNumber && g.address == f.address;
    assert g.businessName == f.businessName;
  }

  // ----- the checks -----

  /**
   * What `/^\S+@\S+\.\S+$/` accepts, position by position: no white space anywhere, an '@'
   * with something before it, and a later '.' with something on both of its sides.
   */
  ghost predicate EmailShape(s: string) {
    NoWhitespace(s)
    && exists i, j :: 1 <= i && i + 2 <= j && j + 2 <= |s| && s[i] == '@' && s[j] == '.'
  }

  /** The index of the first '@' at or after `i`, or `|s|`. */
  function FirstAt(s: string, i: nat): (n: nat)
    requires i <= |s|
    ensures i <= n <= |s|
    ensures n < |s| ==> s[n] == '@'
    ensures forall k :: i <= k < n ==> s[k] != '@'
    decreases |s| - i
  {
    if i == |s| || s[i] == '@' then i else FirstAt(s, i + 1)
  }

  /** The index of the last '.' before `j`, or -1. */
  function LastDot(s: string, j: nat): (n: int)
    requires j <= |s|
    ensures -1 <= n < j
    ensures n >= 0 ==> s[n] == '.'
    ensures forall k :: n < k < j ==> s[k] != '.'
  {
    if j == 0 then -1 else if s[j - 1] == '.' then j - 1 else LastDot(s, j - 1)
  }

  /** `emailRegex.test(s)`: the first '@' after the first character, and the last '.' before the last. */
  predicate EmailValid(s: string) {
    NoWhitespace(s) && |s| >= 5 && FirstAt(s, 1) + 2 <= LastDot(s, |s| - 1)
  }

  /** The check accepts exactly the strings the pattern describes. */
  lemma EmailValidIffShape(s: string)
    ensures EmailValid(s) <==> EmailShape(s)
  {
    if EmailValid(s) {
      var i, j := FirstAt(s, 1), LastDot(s, |s| - 1);
      assert 1 <= i && i + 2 <= j && j + 2 <= |s| && s[i] == '@' && s[j] == '.';
    }
    if EmailShape(s) {
      var i, j :| 1 <= i && i + 2 <= j && j + 2 <= |s| && s[i] == '@' && s[j] == '.';
      assert FirstAt(s, 1) <= i;
      assert LastDot(s, |s| - 1) >= j;
    }
  }

  /** The digits of a phone number: everything after one leading '+', if there is one. */
  function PhoneDigits(s: string): (d: string)
    ensures s == d || s == "+" + d
  {
    if s != [] && s[0] == '+' then s[1..] else s
  }

  /** `phoneRegex.test(s)`, `/^\+?[0-9]{10,15}$/`. */
  predicate PhoneValid(s: string) {
    var d := PhoneDigits(s);
    10 <= |d| <= 15 && AllDigits(d)
  }

  /** Ten to fifteen digits are a phone number, with or without a leading '+'. */
  lemma PhoneOfDigits(d: string)
    requires 10 <= |d| <= 15 && AllDigits(d)
    ensures PhoneValid(d) && PhoneValid("+" + d)
  {
    assert ("+" + d)[1..] == d;
  }

  /**
   * The phone check holds exactly when the text is ten to fifteen digits, or a '+' followed by
   * ten to fifteen digits.
   */
  lemma PhoneValidShape(s: string)
    ensures PhoneValid(s) <==>
      (10 <= |s| <= 15 && forall k :: 0 <= k < |s| ==> IsDigit(s[k]))
      || (11 <= |s| <= 16 && s[0] == '+' && forall k :: 1 <= k < |s| ==> IsDigit(s[k]))
  {
    var d := PhoneDigits(s);
    if s != [] && s[0] == '+' {
      assert forall k :: 1 <= k < |s| ==> s[k] == d[k - 1];
      assert !IsDigit(s[0]);
    }
  }

  predicate HasUpper(p: string) {
    exists k :: 0 <= k < |p| && IsUpper(p[k])
  }

  predicate HasDigit(p: string) {
    exists k :: 0 <= k < |p| && IsDigit(p[k])
  }

  /** The password rule: at least eight characters, with an A-Z letter and a digit among them. */
  predicate PasswordValid(p: string) {
    |p| >= 8 && HasUpper(p) && HasDigit(p)
  }

  /**
   * Eight characters with a capital and a digit pass; no capital, no digit or seven
   * characters fail.
   */
  lemma PasswordExamples()
    ensures PasswordValid("Secret123")
    ensures !PasswordValid("secret123")
    ensures !PasswordValid("SecretPass")
    ensures !PasswordValid("Secre12")
  {
    assert IsUpper("Secret123"[0]) && IsDigit("Secret123"[6]);
    assert forall k :: 0 <= k < |"secret123"| ==> !IsUpper("secret123"[k]);
    assert forall k :: 0 <= k < |"SecretPass"| ==> !IsDigit("SecretPass"[k]);
  }

  /** The reasons a submission is stopped, one per check. */
  datatype SignupError = NameEmpty | EmailInvalid | PhoneInvalid | AddressEmpty | PasswordWeak

  function Message(e: SignupError): string {
    match e
    case NameEmpty => "Name must not be empty"
    case EmailInvalid => "Email is invalid"
    case PhoneInvalid => "Phone number is invalid"
    case AddressEmpty => "Address must not be empty"
    case PasswordWeak =>
      "Password must be at least 8 characters long, contain an uppercase letter and a number"
  }

  /**
   * The checks of `handleSubmit`, in order: name, email, phone, address, password. The first
   * one that fails is the one reported.
   */
  function Validate(f: SignupData): (r: Option<SignupError>)
    ensures r == Some(NameEmpty) <==> Blank(f.name)
    ensures r == Some(EmailInvalid) <==> !Blank(f.name) && !EmailValid(f.email)
    ensures r == Some(PhoneInvalid) <==>
      !Blank(f.name) && EmailValid(f.email) && !PhoneValid(f.phoneNumber)
    ensures r == Some(AddressEmpty) <==>
      !Blank(f.name) && EmailValid(f.email) && PhoneValid(f.phoneNumber) && Blank(f.address)
    ensures r == Some(PasswordWeak) <==>
      !Blank(f.name) && EmailValid(f.email) && PhoneValid(f.phoneNumber) && !Blank(f.address)
      && !PasswordValid(f.password)
  {
    TrimEmptyIffBlank(f.name);
    TrimEmptyIffBlank(f.address);
    if Trim(f.name) == [] then Some(NameEmpty)
    else if !EmailValid(f.email) then Some(EmailInvalid)
    else if !PhoneValid(f.phoneNumber) then Some(PhoneInvalid)
    else if Trim(f.address) == [] then Some(AddressEmpty)
    else if !PasswordValid(f.password) then Some(PasswordWeak)
    else None
  }

  /** A form passes exactly when every check passes; the business name is never checked. */
  lemma ValidateAccepts(f: SignupData)
    ensures Validate(f).None? <==>
      !Blank(f.name) && EmailShape(f.email) && PhoneValid(f.phoneNumber) && !Blank(f.address)
      && PasswordValid(f.password)
    ensures forall b :: Validate(f.(businessName := b)) == Validate(f)
  {
    EmailValidIffShape(f.email);
  }

  /** A change to a later field cannot hide an earlier failure. */
  lemma EarlierFailureWins(f: SignupData, field: SignupField, value: string)
    requires Validate(f) == Some(NameEmpty) && field != Name
    ensures Validate(WithField(f, field, value)) == Some(NameEmpty)
  {
  }

  // ----- the request -----

  /** `provider ? '/auth/signup/serviceProvider' : '/auth/signup/customer'` */
  function Endpoint(provider: bool): string {
    if provider then "/auth/signup/serviceProvider" else "/auth/signup/customer"
  }

  /** The JSON key of a field. */
  function Key(field: SignupField): string {
    match field
    case Name => "name"
    case Email => "email"
    case Password => "password"
    case PhoneNumber => "phoneNumber"
    case Address => "address"
    case BusinessName => "businessName"
  }

  const AllFields: set<SignupField> := {Name, Email, Password, PhoneNumber, Address, BusinessName}

  lemma FieldListed(field: SignupField)
    ensures field in AllFields
  {
    match field {
      case Name =>
      case Email =>
      case Password =>
      case PhoneNumber =>
      case Address =>
      case BusinessName =>
    }
  }

  /** `{ ...formData }`, with `businessName` deleted for a customer. */
  function Body(f: SignupData, provider: bool): (body: map<SignupField, string>)
    ensures forall field :: field in body <==> provider || field != BusinessName
    ensures forall field :: field in body ==> body[field] == f.Get(field)
  {
    assert forall field: SignupField :: field in AllFields by {
      forall field: SignupField ensures field in AllFields {
        FieldListed(field);
      }
    }
    map field | field in AllFields && (provider || field != BusinessName) :: f.Get(field)
  }

  datatype SignupRequest = SignupRequest(endpoint: string, body: map<SignupField, string>)

  /** What the page does with a submission: stop with a reason, or send a request. */
  datatype SubmitOutcome = Stopped(reason: SignupError) | Send(request: SignupRequest)

  function Submission(f: SignupData, provider: bool): (o: SubmitOutcome)
    ensures o.Stopped? <==> Validate(f).Some?
    ensures o.Stopped? ==> o.reason == Validate(f).value
    ensures o.Send? ==> o.request == SignupRequest(Endpoint(provider), Body(f, provider))
  {
    match Validate(f)
    case Some(e) => Stopped(e)
    case None => Send(SignupRequest(Endpoint(provider), Body(f, provider)))
  }

  /** A customer's request never carries a business name, whatever was typed into it. */
  lemma CustomerSendsNoBusinessName(f: SignupData)
    ensures Submission(f, false).Send? ==>
      BusinessName !in Submission(f, false).request.body
      && Submission(f, false).request.endpoint == "/auth/signup/customer"
  {
  }

  /** A provider's request carries all six fields, unchanged. */
  lemma ProviderSendsEverything(f: SignupData)
    ensures Submission(f, true).Send? ==>
      forall field :: field in Submission(f, true).request.body
                      && Submission(f, true).request.body[field] == f.Get(field)
  {
  }

  /** The outcome of the `axios.post`: success, or the error's `message`. */
  datatype PostResult = Accepted | Rejected(message: string)

  class SignupPage {
    const provider: bool
    var formData: SignupData
    var error: string
    var loading: bool
    var navigatedToLogin: bool

    constructor(provider: bool)
      ensures this.provider == provider && formData == EmptySignup
      ensures error == "" && !loading && !navigatedToLogin
    {
      this.provider := provider;
      formData := EmptySignup;
      error := "";
      loading := false;
      navigatedToLogin := false;
    }

    /** `handleChange` */
    method HandleChange(field: SignupField, value: string)
      modifies this
      ensures formData == WithField(old(formData), field, value)
      ensures error == old(error) && loading == old(loading)
      ensures navigatedToLogin == old(navigatedToLogin)
    {
      formData := WithField(formData, field, value);
    }

    /**
     * `handleSubmit`, given what the server answers. A failed check shows its message and
     * sends nothing; otherwise the request is sent and success goes to the login page.
     */
    method HandleSubmit(result: PostResult) returns (sent: Option<SignupRequest>)
      modifies this
      ensures formData == old(formData) && !loading
      ensures match Submission(old(formData), provider)
        case Stopped(e) =>
          sent == None && error == Message(e) && navigatedToLogin == old(navigatedToLogin)
        case Send(q) =>
          sent == Some(q)
          && (result.Accepted? ==> error == "" && navigatedToLogin)
          && (result.Rejected? ==> error == result.message
                                   && navigatedToLogin == old(navigatedToLogin))
    {
      error := "";
      loading := true;
      match Submission(formData, provider) {
        case Stopped(e) =>
          error := Message(e);
          sent := None;
        case Send(q) =>
          sent := Some(q);
          match result {
            case Accepted => navigatedToLogin := true;
            case Rejected(message) => error := message;
          }
      }
      loading := false;
    }
  }
}
