/**
 * The three-step booking page script: date selection (step 1), guest details
 * (step 2) and review (step 3), with the phone-number validator and
 * as-you-type formatter, the check-in change handler and the submit guard.
 *
 * Date inputs hold a day number or nothing (an empty value); text inputs hold
 * strings; each input's class list is a set of class names and its feedback
 * element's text a string.
 */
module BookPage {
  import opened Text

  /*** Phone numbers ***/

  function Min(a: int, b: int): int { if a <= b then a else b }

  /** `/^[1-9]\d{1,14}$/`. */
  predicate NationalNumber(d: string) {
    2 <= |d| <= 15 && '1' <= d[0] <= '9' && AllDigits(d)
  }

  /** `/^(\+|00)?[1-9]\d{1,14}$/` applied to a string of digits only (so never with a '+'). */
  predicate InternationalFormat(d: string) {
    NationalNumber(d) || (|d| >= 2 && d[..2] == "00" && NationalNumber(d[2..]))
  }

  /**
   * validatePhoneNumber: at least ten digits. The format test is or-ed with
   * the length test it follows, so it never decides anything.
   */
  function ValidatePhoneNumber(phone: string): (ok: bool)
    ensures ok <==> |Digits(phone)| >= 10
  {
    var digits := Digits(phone);
    if |digits| < 10 then false
    else InternationalFormat(digits) || |digits| >= 10
  }

  /**
   * The value formatPhoneNumber leaves in the input: up to three digits bare,
   * up to six as "(ddd) d..", more as "(ddd) ddd-dddd" from the first ten
   * digits. A value without digits is left as it is.
   */
  function FormatPhone(value: string): (r: string)
    ensures Digits(value) == [] ==> r == value
    ensures 1 <= |Digits(value)| <= 3 ==> r == Digits(value)
    ensures 4 <= |Digits(value)| ==>
              |r| >= 6 && r[0] == '(' && r[1..4] == Digits(value)[..3] && r[4..6] == ") "
    ensures 4 <= |Digits(value)| <= 6 ==> r[6..] == Digits(value)[3..]
    ensures 7 <= |Digits(value)| ==>
              |r| == Min(10, |Digits(value)|) + 4 && r[6..9] == Digits(value)[3..6] && r[9] == '-' &&
              r[10..] == Digits(value)[6..Min(10, |Digits(value)|)]
  {
    var d := Digits(value);
    if |d| == 0 then value
    else if |d| <= 3 then d
    else if |d| <= 6 then "(" + d[..3] + ") " + d[3..]
    else "(" + d[..3] + ") " + d[3..6] + "-" + d[6..Min(10, |d|)]
  }

  /** A separator without digits adds nothing to the digits of what it joins. */
  lemma DigitsAcrossSeparator(x: string, sep: string, y: string)
    requires Digits(sep) == []
    ensures Digits(x + sep + y) == Digits(x) + Digits(y)
  {
    DigitsConcat(x, sep);
    DigitsConcat(x + sep, y);
  }

  /** The digits of "(a) b" are a then b. */
  lemma DigitsOfTwoGroups(a: string, b: string)
    requires AllDigits(a) && AllDigits(b)
    ensures Digits("(" + a + ") " + b) == a + b
  {
    DigitsOfNonDigits("(");
    DigitsOfNonDigits(") ");
    DigitsOfDigits(a);
    DigitsOfDigits(b);
    DigitsConcat("(", a);
    DigitsAcrossSeparator("(" + a, ") ", b);
  }

  /** The digits of "(a) b-c" are a, b, then c. */
  lemma DigitsOfThreeGroups(a: string, b: string, c: string)
    requires AllDigits(a) && AllDigits(b) && AllDigits(c)
    ensures Digits("(" + a + ") " + b + "-" + c) == a + b + c
  {
    DigitsOfTwoGroups(a, b);
    DigitsOfNonDigits("-");
    DigitsOfDigits(c);
    DigitsAcrossSeparator("(" + a + ") " + b, "-", c);
  }

  /** The formatted value keeps exactly the first min(10, n) of the n digits typed. */
  lemma FormatPhoneDigits(value: string)
    ensures Digits(FormatPhone(value)) == Digits(value)[..Min(10, |Digits(value)|)]
  {
    var d := Digits(value);
    if |d| == 0 {
    } else if |d| <= 3 {
      DigitsOfDigits(d);
    } else if |d| <= 6 {
      DigitsOfTwoGroups(d[..3], d[3..]);
      assert d[..3] + d[3..] == d;
    } else {
      FormatLongPhoneDigits(d);
    }
  }

  /** The digits of "(abc) def-ghij" built from a digit string of seven or more. */
  lemma FormatLongPhoneDigits(d: string)
    requires AllDigits(d) && |d| >= 7
    ensures Digits("(" + d[..3] + ") " + d[3..6] + "-" + d[6..Min(10, |d|)]) == d[..Min(10, |d|)]
  {
    var m := Min(10, |d|);
    DigitsOfThreeGroups(d[..3], d[3..6], d[6..m]);
    assert d[..3] + d[3..6] + d[6..m] == d[..m];
  }

  /** Formatting an already formatted value changes nothing. */
  lemma FormatPhoneIdempotent(value: string)
    ensures FormatPhone(FormatPhone(value)) == FormatPhone(value)
  {
    var d := Digits(value);
    var f := FormatPhone(value);
    FormatPhoneDigits(value);
    var d' := Digits(f);
    if |d| == 0 {
    } else if |d| <= 6 {
      assert d' == d;
    } else {
      var m := Min(10, |d|);
      assert d' == d[..m];
      assert d'[..3] == d[..3] && d'[3..6] == d[3..6] && d'[6..Min(10, |d'|)] == d[6..m];
    }
  }

  /*** Step validation ***/

  /** Step 1 passes when both dates are chosen and check-out comes after check-in. */
  function Step1Valid(checkIn: Option<int>, checkOut: Option<int>): (ok: bool)
    ensures !ok <==> checkIn.None? || checkOut.None? || checkOut.value <= checkIn.value
  {
    checkIn.Some? && checkOut.Some? && checkIn.value < checkOut.value
  }

  /** A character `[^\s@]` matches. */
  predicate Plain(c: char) { !IsSpace(c) && c != '@' }

  /** Every character of `s` is plain. */
  predicate AllPlain(s: string) {
    s == [] || (Plain(s[0]) && AllPlain(s[1..]))
  }

  lemma {:induction false} AllPlainAt(s: string)
    ensures AllPlain(s) <==> forall k :: 0 <= k < |s| ==> Plain(s[k])
  {
    if s != [] {
      AllPlainAt(s[1..]);
      assert forall k :: 1 <= k < |s| ==> s[k] == s[1..][k - 1];
    }
  }

  /**
   * `/^[^\s@]+@[^\s@]+\.[^\s@]+$/`, read off the regex: an '@' at `i` and a
   * '.' at `j`, each with at least one character before and after, and no
   * other '@' or white space anywhere.
   */
  predicate EmailPattern(s: string) {
    exists i, j :: 0 < i && i + 1 < j && j + 1 < |s| && s[i] == '@' && s[j] == '.' &&
      forall k :: 0 <= k < |s| && k != i ==> Plain(s[k])
  }

  /** `[^\s@]+\.[^\s@]+$`: a plain domain with a '.' that is neither its first nor its last character. */
  predicate Domain(d: string) {
    |d| >= 3 && AllPlain(d) && '.' in d[1..|d| - 1]
  }

  /**
   * The email test as a left-to-right scan: plain characters up to the first
   * '@' (at least one of them, unless `seen` says one was already read),
   * then a domain.
   */
  predicate LocalThenDomain(s: string, seen: bool)
    decreases |s|
  {
    s != [] &&
    if s[0] == '@' then seen && Domain(s[1..])
    else Plain(s[0]) && LocalThenDomain(s[1..], true)
  }

  predicate EmailMatches(s: string) {
    LocalThenDomain(s, false)
  }

  /** The '@' at `i` ends a local part of plain characters (non-empty unless `seen`) and starts a domain. */
  predicate SplitsAt(s: string, i: int, seen: bool) {
    0 <= i < |s| && s[i] == '@' && (seen || 0 < i) && (forall k :: 0 <= k < i ==> Plain(s[k])) && Domain(s[i + 1..])
  }

  lemma {:induction false} LocalThenDomainSplits(s: string, seen: bool)
    ensures LocalThenDomain(s, seen) <==> exists i :: SplitsAt(s, i, seen)
    decreases |s|
  {
    if s == [] {
    } else if s[0] == '@' {
      if exists i :: SplitsAt(s, i, seen) {
        var i :| SplitsAt(s, i, seen);
        assert i == 0;
      }
      if seen && Domain(s[1..]) {
        assert SplitsAt(s, 0, seen);
      }
    } else if !Plain(s[0]) {
    } else {
      var t := s[1..];
      LocalThenDomainSplits(t, true);
      if LocalThenDomain(t, true) {
        var i :| SplitsAt(t, i, true);
        assert t[i + 1..] == s[i + 2..];
        assert forall k :: 1 <= k < i + 1 ==> s[k] == t[k - 1];
        assert SplitsAt(s, i + 1, seen);
      }
      if exists i :: SplitsAt(s, i, seen) {
        var i :| SplitsAt(s, i, seen);
        assert t[i - 1 + 1..] == s[i + 1..];
        assert forall k :: 0 <= k < i - 1 ==> t[k] == s[k + 1];
        assert SplitsAt(t, i - 1, true);
      }
    }
  }

  lemma EmailMatchesIsPattern(s: string)
    requires EmailMatches(s)
    ensures EmailPattern(s)
  {
    LocalThenDomainSplits(s, false);
    var i :| SplitsAt(s, i, false);
    var domain := s[i + 1..];
    var k :| 0 <= k < |domain| - 2 && domain[1..|domain| - 1][k] == '.';
    var j := i + 2 + k;
    assert s[j] == '.';
    AllPlainAt(domain);
    forall m | 0 <= m < |s| && m != i
      ensures Plain(s[m])
    {
      if m > i {
        assert s[m] == domain[m - i - 1];
      }
    }
  }

  lemma PatternIsEmailMatches(s: string)
    requires EmailPattern(s)
    ensures EmailMatches(s)
  {
    var i, j :| 0 < i && i + 1 < j && j + 1 < |s| && s[i] == '@' && s[j] == '.' &&
      forall k :: 0 <= k < |s| && k != i ==> Plain(s[k]);
    var domain := s[i + 1..];
    AllPlainAt(domain);
    assert domain[1..|domain| - 1][j - i - 2] == '.';
    assert SplitsAt(s, i, false);
    LocalThenDomainSplits(s, false);
  }

  /** The scan and the regex reading accept the same strings. */
  lemma EmailMatchesPattern(s: string)
    ensures EmailMatches(s) <==> EmailPattern(s)
  {
    if EmailMatches(s) {
      EmailMatchesIsPattern(s);
    }
    if EmailPattern(s) {
      PatternIsEmailMatches(s);
    }
  }

  /** The guest-name check of step 2: the message shown, or None when the trimmed name is filled in. */
  function NameError(guestName: string): (e: Option<Message>)
    ensures e.None? <==> Trim(guestName) != []
    ensures e.Some? ==> e == Some(EnterName)
  {
    if Trim(guestName) == [] then Some(EnterName) else None
  }

  /** The email check of step 2: an empty value and a malformed one get different messages. */
  function EmailError(email: string): (e: Option<Message>)
    ensures e.None? <==> EmailMatches(Trim(email))
    ensures Trim(email) == [] ==> e == Some(EnterEmail)
    ensures Trim(email) != [] && e.Some? ==> e == Some(EnterValidEmail)
  {
    var mail := Trim(email);
    if mail == [] then Some(EnterEmail)
    else if !EmailMatches(mail) then Some(EnterValidEmail)
    else None
  }

  /** The phone check of step 2: passes iff the value holds at least ten digits. */
  function PhoneError(phone: string): (e: Option<Message>)
    ensures e.None? <==> |Digits(phone)| >= 10
    ensures Trim(phone) == [] ==> e == Some(EnterPhone)
    ensures Trim(phone) != [] && e.Some? ==> e == Some(EnterValidPhone)
  {
    var tel := Trim(phone);
    TrimKeepsDigits(phone);
    if tel == [] then Some(EnterPhone)
    else if !ValidatePhoneNumber(tel) then Some(EnterValidPhone)
    else None
  }

  /** Step 2 passes when the trimmed name is filled in, the trimmed email is well formed and the phone valid. */
  function Step2Valid(guestName: string, email: string, phone: string): (ok: bool)
    ensures ok <==> Trim(guestName) != [] && EmailMatches(Trim(email)) && |Digits(phone)| >= 10
  {
    NameError(guestName).None? && EmailError(email).None? && PhoneError(phone).None?
  }

  /** Trimming never removes a digit. */
  lemma TrimKeepsDigits(s: string)
    ensures Digits(Trim(s)) == Digits(s)
  {
    var e := TrimEnd(s);
    var r := TrimStart(e);
    TrimEndCutsSpace(s);
    TrimStartCutsSpace(e);
    assert s == e + s[|e|..];
    assert e == e[..|e| - |r|] + r;
    DigitsOfNonDigits(s[|e|..]);
    DigitsOfNonDigits(e[..|e| - |r|]);
    DigitsConcat(e, s[|e|..]);
    DigitsConcat(e[..|e| - |r|], r);
  }

  /*** Page state ***/

  /** The feedback texts the script writes under the inputs. */
  datatype Message =
    | SelectCheckIn | SelectCheckOut | CheckOutNotAfterCheckIn
    | EnterName | EnterEmail | EnterValidEmail | EnterPhone | EnterValidPhone
  {
    function Text(): string {
      match this
      case SelectCheckIn => "Please select a check-in date"
      case SelectCheckOut => "Please select a check-out date"
      case CheckOutNotAfterCheckIn => "Check-out date must be after check-in date"
      case EnterName => "Please enter your full name"
      case EnterEmail => "Please enter your email address"
      case EnterValidEmail => "Please enter a valid email address"
      case EnterPhone => "Please enter your phone number"
      case EnterValidPhone => "Please enter a valid phone number (at least 10 digits)"
    }
  }

  /**
   * The class list after a field check: a failing field gains "is-invalid";
   * a passing one loses "is-invalid" and gains "is-valid". Other classes stay.
   */
  function Marked(cls: set<string>, valid: bool): (r: set<string>)
    ensures "is-invalid" in r <==> !valid
    ensures valid ==> "is-valid" in r
    ensures !valid ==> ("is-valid" in r <==> "is-valid" in cls)
    ensures r - {"is-invalid", "is-valid"} == cls - {"is-invalid", "is-valid"}
  {
    if valid then cls - {"is-invalid"} + {"is-valid"} else cls + {"is-invalid"}
  }

  /** Checking a field twice with the same verdict marks it as checking it once. */
  lemma MarkedTwice(cls: set<string>, valid: bool)
    ensures Marked(Marked(cls, valid), valid) == Marked(cls, valid)
  {
  }

  /**
   * The check-out input's classes after validateStep1: marked by whether it
   * is set, and marked invalid once more when it is not after check-in.
   */
  function CheckOutMarked(cls: set<string>, checkIn: Option<int>, checkOut: Option<int>): (r: set<string>)
    ensures "is-invalid" in r <==> checkOut.None? || (checkIn.Some? && checkOut.value <= checkIn.value)
    ensures checkOut.Some? ==> "is-valid" in r
    ensures r - {"is-invalid", "is-valid"} == cls - {"is-invalid", "is-valid"}
  {
    Marked(cls, checkOut.Some?) +
    (if checkIn.Some? && checkOut.Some? && checkOut.value <= checkIn.value then {"is-invalid"} else {})
  }

  /** The check-out feedback after validateStep1: the order message wins over the missing-date one. */
  function CheckOutMessage(current: Option<Message>, checkIn: Option<int>, checkOut: Option<int>): (r: Option<Message>)
    ensures checkIn.Some? && checkOut.Some? && checkOut.value <= checkIn.value ==> r == Some(CheckOutNotAfterCheckIn)
    ensures checkOut.None? ==> r == Some(SelectCheckOut)
    ensures Step1Valid(checkIn, checkOut) || (checkIn.None? && checkOut.Some?) ==> r == current
  {
    if checkIn.Some? && checkOut.Some? && checkOut.value <= checkIn.value then Some(CheckOutNotAfterCheckIn)
    else if checkOut.None? then Some(SelectCheckOut)
    else current
  }

  /** validateStep1 run twice over the same dates leaves the check-out input as one run does. */
  lemma {:induction false} CheckOutMarkedTwice(cls: set<string>, fb: Option<Message>, checkIn: Option<int>, checkOut: Option<int>)
    ensures CheckOutMarked(CheckOutMarked(cls, checkIn, checkOut), checkIn, checkOut) == CheckOutMarked(cls, checkIn, checkOut)
    ensures CheckOutMessage(CheckOutMessage(fb, checkIn, checkOut), checkIn, checkOut) == CheckOutMessage(fb, checkIn, checkOut)
  {
    var once := CheckOutMarked(cls, checkIn, checkOut);
    if checkIn.Some? && checkOut.Some? && checkOut.value <= checkIn.value {
      assert once == cls - {"is-invalid"} + {"is-valid"} + {"is-invalid"};
      assert CheckOutMarked(once, checkIn, checkOut) == once - {"is-invalid"} + {"is-valid"} + {"is-invalid"};
    } else {
      MarkedTwice(cls, checkOut.Some?);
    }
  }

  /**
   * A feedback element's text after a field check: the failure message, or
   * what it showed before (None: what the page was served with).
   */
  function OrElse(message: Option<Message>, current: Option<Message>): (r: Option<Message>)
    ensures message.Some? ==> r == message
    ensures message.None? ==> r == current
  {
    if message.Some? then message else current
  }

  /** What is typed into the name, email and phone inputs when a handler reads them. */
  datatype GuestDetails = GuestDetails(guestName: string, email: string, phone: string)

  /** The outcome of pressing the submit button. */
  datatype SubmitOutcome = TermsNotAccepted | ReturnedToStep(step: int) | Submitted

  /**
   * The booking page. Each validated input has its class list and the text
   * of its feedback element. `stepNumbers[i]` is the `data-step` of the i-th
   * step element and `stepHidden[i]` whether it carries `d-none`. The room
   * price is in cents. `checkIn` and `checkOut` are the date inputs'
   * values, which the browser writes before `change` fires; the typed
   * guest details are passed to the handlers that read them. Of the class
   * lists the page is served with, only what the script adds is modelled.
   */
  class BookingWizard {
    var checkIn: Option<int>
    var checkOut: Option<int>
    var checkInMin: int
    var checkOutMin: int
    var termsChecked: bool
    var checkInClasses: set<string>
    var checkOutClasses: set<string>
    var nameClasses: set<string>
    var emailClasses: set<string>
    var phoneClasses: set<string>
    var termsClasses: set<string>
    var checkInFeedback: Option<Message>
    var checkOutFeedback: Option<Message>
    var nameFeedback: Option<Message>
    var emailFeedback: Option<Message>
    var phoneFeedback: Option<Message>
    var currentStep: int
    const stepNumbers: seq<int>
    const stepHidden: array<bool>
    const roomPrice: int
    var summaryNights: Option<int>
    var summaryTotal: Option<int>
    var summaryGuest: string
    var submitted: bool

    predicate Valid() {
      stepHidden.Length == |stepNumbers|
    }

    /** Exactly the first step numbered `n`, if there is one, is displayed. */
    predicate Shows(n: int)
      reads stepHidden
    {
      forall i :: 0 <= i < stepHidden.Length ==> (stepHidden[i] <==> FirstIndexOf(stepNumbers, n) != Some(i))
    }

    /** The date inputs carry the marks and messages of one validateStep1 over their state before. */
    twostate predicate Step1Marks()
      reads this
    {
      checkInClasses == Marked(old(checkInClasses), checkIn.Some?) &&
      checkOutClasses == CheckOutMarked(old(checkOutClasses), checkIn, checkOut) &&
      checkInFeedback == OrElse(if checkIn.None? then Some(SelectCheckIn) else None, old(checkInFeedback)) &&
      checkOutFeedback == CheckOutMessage(old(checkOutFeedback), checkIn, checkOut)
    }

    /** The date inputs' marks and messages are as they were. */
    twostate predicate Step1Untouched()
      reads this
    {
      checkInClasses == old(checkInClasses) && checkOutClasses == old(checkOutClasses) &&
      checkInFeedback == old(checkInFeedback) && checkOutFeedback == old(checkOutFeedback)
    }

    /** The guest inputs carry the marks and messages of one validateStep2 of `guest`. */
    twostate predicate Step2Marks(guest: GuestDetails)
      reads this
    {
      nameClasses == Marked(old(nameClasses), NameError(guest.guestName).None?) &&
      emailClasses == Marked(old(emailClasses), EmailError(guest.email).None?) &&
      phoneClasses == Marked(old(phoneClasses), PhoneError(guest.phone).None?) &&
      nameFeedback == OrElse(NameError(guest.guestName), old(nameFeedback)) &&
      emailFeedback == OrElse(EmailError(guest.email), old(emailFeedback)) &&
      phoneFeedback == OrElse(PhoneError(guest.phone), old(phoneFeedback))
    }

    /** The guest inputs' marks and messages are as they were. */
    twostate predicate Step2Untouched()
      reads this
    {
      nameClasses == old(nameClasses) && emailClasses == old(emailClasses) && phoneClasses == old(phoneClasses) &&
      nameFeedback == old(nameFeedback) && emailFeedback == old(emailFeedback) && phoneFeedback == old(phoneFeedback)
    }

    /** The summary shows what updateSummary writes for `guestName`. */
    twostate predicate SummaryUpdated(guestName: string)
      reads this
    {
      (checkIn.Some? && checkOut.Some? ==>
         summaryNights == Some(checkOut.value - checkIn.value) &&
         summaryTotal == Some((checkOut.value - checkIn.value) * roomPrice)) &&
      (checkIn.None? || checkOut.None? ==>
         summaryNights == old(summaryNights) && summaryTotal == old(summaryTotal)) &&
      summaryGuest == if guestName != [] then guestName else old(summaryGuest)
    }

    /** The summary is as it was. */
    twostate predicate SummaryUntouched()
      reads this
    {
      summaryNights == old(summaryNights) && summaryTotal == old(summaryTotal) && summaryGuest == old(summaryGuest)
    }

    /**
     * Page load over the served form, whose date inputs hold `servedCheckIn`
     * and `servedCheckOut` (the booking view fills them from the session):
     * step 1 is current, check-in may start today and check-out tomorrow,
     * and every validated input carries "form-control".
     */
    constructor(stepNumbers: seq<int>, initiallyHidden: seq<bool>, roomPrice: int, today: int,
                servedCheckIn: Option<int>, servedCheckOut: Option<int>)
      requires |initiallyHidden| == |stepNumbers|
      ensures Valid() && stepHidden[..] == initiallyHidden
      ensures currentStep == 1 && checkInMin == today && checkOutMin == today + 1
      ensures checkIn == servedCheckIn && checkOut == servedCheckOut && !termsChecked && !submitted
      ensures this.stepNumbers == stepNumbers && this.roomPrice == roomPrice
      ensures checkInClasses == checkOutClasses == nameClasses == emailClasses == phoneClasses == {"form-control"}
    {
      this.stepNumbers := stepNumbers;
      this.roomPrice := roomPrice;
      stepHidden := new bool[|stepNumbers|](i requires 0 <= i < |initiallyHidden| => initiallyHidden[i]);
      currentStep := 1;
      checkIn, checkOut := servedCheckIn, servedCheckOut;
      checkInMin, checkOutMin := today, today + 1;
      termsChecked, submitted := false, false;
      var control := {"form-control"};
      checkInClasses, checkOutClasses, nameClasses, emailClasses, phoneClasses := control, control, control, control, control;
      termsClasses := {};
      checkInFeedback, checkOutFeedback, nameFeedback, emailFeedback, phoneFeedback := None, None, None, None, None;
      summaryNights, summaryTotal, summaryGuest := None, None, "";
    }

    /**
     * validateStep1: all three checks run. A check-out that is set but not
     * after check-in ends up with both "is-valid" and "is-invalid".
     */
    method ValidateStep1() returns (ok: bool)
      modifies this`checkInClasses, this`checkOutClasses, this`checkInFeedback, this`checkOutFeedback
      ensures ok == Step1Valid(checkIn, checkOut)
      ensures ok <==> "is-invalid" !in checkInClasses && "is-invalid" !in checkOutClasses
      ensures checkInClasses == Marked(old(checkInClasses), checkIn.Some?)
      ensures checkOutClasses == CheckOutMarked(old(checkOutClasses), checkIn, checkOut)
      ensures checkInFeedback == OrElse(if checkIn.None? then Some(SelectCheckIn) else None, old(checkInFeedback))
      ensures checkOutFeedback == CheckOutMessage(old(checkOutFeedback), checkIn, checkOut)
    {
      ok := true;
      checkInClasses := Marked(checkInClasses, checkIn.Some?);
      if checkIn.None? {
        checkInFeedback := Some(SelectCheckIn);
        ok := false;
      }
      checkOutClasses := Marked(checkOutClasses, checkOut.Some?);
      if checkOut.None? {
        checkOutFeedback := Some(SelectCheckOut);
        ok := false;
      }
      if checkIn.Some? && checkOut.Some? && checkOut.value <= checkIn.value {
        checkOutClasses := checkOutClasses + {"is-invalid"};
        checkOutFeedback := Some(CheckOutNotAfterCheckIn);
        ok := false;
      }
    }

    /**
     * validateStep2 over the values currently typed into the name, email and
     * phone inputs: each is checked after trimming, and all three checks run.
     */
    method ValidateStep2(guest: GuestDetails) returns (ok: bool)
      modifies this`nameClasses, this`emailClasses, this`phoneClasses
      modifies this`nameFeedback, this`emailFeedback, this`phoneFeedback
      ensures ok == Step2Valid(guest.guestName, guest.email, guest.phone)
      ensures ok <==> "is-invalid" !in nameClasses && "is-invalid" !in emailClasses && "is-invalid" !in phoneClasses
      ensures nameClasses == Marked(old(nameClasses), NameError(guest.guestName).None?)
      ensures emailClasses == Marked(old(emailClasses), EmailError(guest.email).None?)
      ensures phoneClasses == Marked(old(phoneClasses), PhoneError(guest.phone).None?)
      ensures nameFeedback == OrElse(NameError(guest.guestName), old(nameFeedback))
      ensures emailFeedback == OrElse(EmailError(guest.email), old(emailFeedback))
      ensures phoneFeedback == OrElse(PhoneError(guest.phone), old(phoneFeedback))
    {
      var nameError, emailError, phoneError := NameError(guest.guestName), EmailError(guest.email), PhoneError(guest.phone);
      nameClasses, nameFeedback := Marked(nameClasses, nameError.None?), OrElse(nameError, nameFeedback);
      emailClasses, emailFeedback := Marked(emailClasses, emailError.None?), OrElse(emailError, emailFeedback);
      phoneClasses, phoneFeedback := Marked(phoneClasses, phoneError.None?), OrElse(phoneError, phoneFeedback);
      ok := nameError.None? && emailError.None? && phoneError.None?;
    }

    /** goToStep: every step is hidden, then the first one numbered `n` (if any) is shown. */
    method GoToStep(n: int)
      requires Valid()
      modifies stepHidden, this`currentStep
      ensures currentStep == n
      ensures Shows(n)
    {
      var i := 0;
      while i < stepHidden.Length
        invariant 0 <= i <= stepHidden.Length
        invariant forall k :: 0 <= k < i ==> stepHidden[k]
      {
        stepHidden[i] := true;
        i := i + 1;
      }
      var target := FirstIndexOf(stepNumbers, n);
      if target.Some? {
        stepHidden[target.value] := false;
      }
      currentStep := n;
    }

    /** updateSummary: nights and total only when both dates are set; the guest name only when non-empty. */
    method UpdateSummary(guestName: string)
      modifies this`summaryNights, this`summaryTotal, this`summaryGuest
      ensures checkIn.Some? && checkOut.Some? ==>
                summaryNights == Some(checkOut.value - checkIn.value) &&
                summaryTotal == Some((checkOut.value - checkIn.value) * roomPrice)
      ensures checkIn.None? || checkOut.None? ==>
                summaryNights == old(summaryNights) && summaryTotal == old(summaryTotal)
      ensures summaryGuest == if guestName != [] then guestName else old(summaryGuest)
    {
      if checkIn.Some? && checkOut.Some? {
        var nights := checkOut.value - checkIn.value;
        summaryNights := Some(nights);
        summaryTotal := Some(nights * roomPrice);
      }
      if guestName != [] {
        summaryGuest := guestName;
      }
    }

    /** Next from step 1: moves when step 1 validates. */
    method NextFromStep1(nextStep: int) returns (moved: bool)
      requires Valid()
      modifies this`checkInClasses, this`checkOutClasses, this`checkInFeedback, this`checkOutFeedback
      modifies stepHidden, this`currentStep
      ensures moved == Step1Valid(checkIn, checkOut)
      ensures Step1Marks()
      ensures moved ==> currentStep == nextStep && Shows(nextStep)
      ensures !moved ==> currentStep == old(currentStep) && stepHidden[..] == old(stepHidden[..])
    {
      moved := ValidateStep1();
      if moved {
        GoToStep(nextStep);
      }
    }

    /** Next from step 2: refreshes the summary and moves when step 2 validates. */
    method NextFromStep2(nextStep: int, guest: GuestDetails) returns (moved: bool)
      requires Valid()
      modifies this`nameClasses, this`emailClasses, this`phoneClasses
      modifies this`nameFeedback, this`emailFeedback, this`phoneFeedback
      modifies this`summaryNights, this`summaryTotal, this`summaryGuest, stepHidden, this`currentStep
      ensures moved == Step2Valid(guest.guestName, guest.email, guest.phone)
      ensures Step2Marks(guest)
      ensures moved ==> currentStep == nextStep && Shows(nextStep) && SummaryUpdated(guest.guestName)
      ensures !moved ==> currentStep == old(currentStep) && stepHidden[..] == old(stepHidden[..]) && SummaryUntouched()
    {
      moved := ValidateStep2(guest);
      if moved {
        UpdateSummary(guest.guestName);
        GoToStep(nextStep);
      }
    }

    /**
     * A next button with `data-next` = `nextStep`: from step 1 it moves when
     * step 1 validates, from step 2 when step 2 validates (refreshing the
     * summary first); from any other step it does nothing.
     */
    method Next(nextStep: int, guest: GuestDetails) returns (moved: bool)
      requires Valid()
      modifies this`checkInClasses, this`checkOutClasses, this`checkInFeedback, this`checkOutFeedback
      modifies this`nameClasses, this`emailClasses, this`phoneClasses
      modifies this`nameFeedback, this`emailFeedback, this`phoneFeedback
      modifies this`summaryNights, this`summaryTotal, this`summaryGuest, stepHidden, this`currentStep
      ensures moved <==> (old(currentStep) == 1 && Step1Valid(checkIn, checkOut)) ||
                         (old(currentStep) == 2 && Step2Valid(guest.guestName, guest.email, guest.phone))
      ensures moved ==> currentStep == nextStep && Shows(nextStep)
      ensures !moved ==> currentStep == old(currentStep) && stepHidden[..] == old(stepHidden[..])
      ensures if old(currentStep) == 1 then Step1Marks() else Step1Untouched()
      ensures if old(currentStep) == 2 then Step2Marks(guest) else Step2Untouched()
      ensures if old(currentStep) == 2 && moved then SummaryUpdated(guest.guestName) else SummaryUntouched()
    {
      moved := false;
      if currentStep == 1 {
        moved := NextFromStep1(nextStep);
      } else if currentStep == 2 {
        moved := NextFromStep2(nextStep, guest);
      }
    }

    /** A previous button with `data-prev` = `prevStep`: no validation. */
    method Prev(prevStep: int)
      requires Valid()
      modifies stepHidden, this`currentStep
      ensures currentStep == prevStep
      ensures Shows(prevStep)
    {
      GoToStep(prevStep);
    }

    /**
     * The check-in change handler: check-out may start the day after
     * check-in, and a check-out before that day is moved onto it.
     */
    method OnCheckInChange()
      modifies this`checkOutMin, this`checkOut
      ensures checkIn.None? ==> checkOutMin == old(checkOutMin) && checkOut == old(checkOut)
      ensures checkIn.Some? ==> checkOutMin == checkIn.value + 1
      ensures checkIn.Some? && old(checkOut).Some? ==>
                checkOut == Some(if old(checkOut).value < checkIn.value + 1 then checkIn.value + 1 else old(checkOut).value)
      ensures old(checkOut).None? ==> checkOut == None
      ensures checkIn.Some? && checkOut.Some? ==> Step1Valid(checkIn, checkOut)
    {
      if checkIn.Some? {
        checkOutMin := checkIn.value + 1;
        if checkOut.Some? && checkOut.value < checkIn.value + 1 {
          checkOut := Some(checkIn.value + 1);
        }
      }
    }

    /** The "I Understand" button of the terms dialog. */
    method AcceptTerms()
      modifies this`termsChecked, this`termsClasses
      ensures termsChecked
      ensures termsClasses == old(termsClasses) - {"is-invalid"}
    {
      termsChecked := true;
      termsClasses := termsClasses - {"is-invalid"};
    }

    /**
     * The submit handler's validation once the terms are accepted: both steps
     * are validated (step 2 only when step 1 passes), and on failure each
     * check is run again to pick the step to return to; the repeated check
     * gives the same answer.
     */
    method ValidateForSubmit(guest: GuestDetails) returns (outcome: SubmitOutcome)
      requires Valid()
      modifies this`checkInClasses, this`checkOutClasses, this`checkInFeedback, this`checkOutFeedback
      modifies this`nameClasses, this`emailClasses, this`phoneClasses
      modifies this`nameFeedback, this`emailFeedback, this`phoneFeedback
      modifies stepHidden, this`currentStep
      ensures outcome != TermsNotAccepted
      ensures !Step1Valid(checkIn, checkOut) ==> outcome == ReturnedToStep(1)
      ensures Step1Valid(checkIn, checkOut) && !Step2Valid(guest.guestName, guest.email, guest.phone) ==>
                outcome == ReturnedToStep(2)
      ensures outcome == Submitted <==> Step1Valid(checkIn, checkOut) && Step2Valid(guest.guestName, guest.email, guest.phone)
      ensures outcome == Submitted ==> currentStep == old(currentStep) && stepHidden[..] == old(stepHidden[..])
      ensures outcome.ReturnedToStep? ==> currentStep == outcome.step && Shows(outcome.step)
      ensures Step1Marks()
      ensures if Step1Valid(checkIn, checkOut) then Step2Marks(guest) else Step2Untouched()
    {
      var ok1 := ValidateStep1();
      var ok2 := true;
      if ok1 {
        ok2 := ValidateStep2(guest);
      }
      if !ok1 || !ok2 {
        // The second pass writes the same marks and messages again.
        MarkedTwice(old(checkInClasses), checkIn.Some?);
        CheckOutMarkedTwice(old(checkOutClasses), old(checkOutFeedback), checkIn, checkOut);
        var again1 := ValidateStep1();
        if !again1 {
          GoToStep(1);
          return ReturnedToStep(1);
        }
        MarkedTwice(old(nameClasses), NameError(guest.guestName).None?);
        MarkedTwice(old(emailClasses), EmailError(guest.email).None?);
        MarkedTwice(old(phoneClasses), PhoneError(guest.phone).None?);
        var again2 := ValidateStep2(guest);
        if !again2 {
          GoToStep(2);
          return ReturnedToStep(2);
        }
      }
      return Submitted;
    }

    /**
     * The submit handler. Unchecked terms stop everything and mark the
     * checkbox; otherwise the checkbox loses its error mark and both steps
     * are validated again before the form is sent.
     */
    method Submit(guest: GuestDetails) returns (outcome: SubmitOutcome)
      requires Valid()
      modifies this`termsClasses, this`checkInClasses, this`checkOutClasses, this`checkInFeedback, this`checkOutFeedback
      modifies this`nameClasses, this`emailClasses, this`phoneClasses
      modifies this`nameFeedback, this`emailFeedback, this`phoneFeedback
      modifies stepHidden, this`currentStep, this`submitted
      ensures termsClasses == if termsChecked then old(termsClasses) - {"is-invalid"} else old(termsClasses) + {"is-invalid"}
      ensures !termsChecked ==>
                outcome == TermsNotAccepted && currentStep == old(currentStep) && submitted == old(submitted) &&
                stepHidden[..] == old(stepHidden[..]) && Step1Untouched() && Step2Untouched()
      ensures termsChecked ==> Step1Marks() && if Step1Valid(checkIn, checkOut) then Step2Marks(guest) else Step2Untouched()
      ensures termsChecked && !Step1Valid(checkIn, checkOut) ==> outcome == ReturnedToStep(1) && currentStep == 1
      ensures termsChecked && Step1Valid(checkIn, checkOut) && !Step2Valid(guest.guestName, guest.email, guest.phone) ==>
                outcome == ReturnedToStep(2) && currentStep == 2
      ensures outcome == Submitted <==> termsChecked && Step1Valid(checkIn, checkOut) && Step2Valid(guest.guestName, guest.email, guest.phone)
      ensures outcome == Submitted ==> submitted && currentStep == old(currentStep) && stepHidden[..] == old(stepHidden[..])
      ensures outcome.ReturnedToStep? ==> submitted == old(submitted) && Shows(outcome.step)
    {
      if !termsChecked {
        termsClasses := termsClasses + {"is-invalid"};
        return TermsNotAccepted;
      }
      termsClasses := termsClasses - {"is-invalid"};
      outcome := ValidateForSubmit(guest);
      if outcome == Submitted {
        submitted := true;
      }
    }
  }
}
