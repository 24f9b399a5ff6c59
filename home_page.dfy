/**
 * The room page's booking script: a three-step form (dates, guest details,
 * review and terms) with a price summary, a loose email check and a submit
 * guard over the terms box and the required fields.
 *
 * Dates are day numbers and prices cents; "today" is a parameter. The
 * values typed into the name and email inputs are parameters of the
 * handlers that read them; the empty string is an empty input. The script
 * is a template: the room price and the input ids are filled in when the
 * page is rendered.
 */
module HomePage {
  import opened Text
  import BookPage

  /*** The email test ***/

  /**
   * `/\S+@\S+\.\S+/.test(s)`, read off the regex: the pattern is not
   * anchored, so it asks only for an '@' at `i` and a '.' at `j` with a
   * non-space before the '@', non-spaces from the '@' to the '.', and a
   * non-space after the '.'.
   */
  predicate LooseEmailPattern(s: string) {
    exists i, j :: 0 < i < j < |s| && EmailAt(s, i, j)
  }

  /** The '@' at `i` and the '.' at `j` make the match `\S+@\S+\.\S+` looks for. */
  predicate EmailAt(s: string, i: int, j: int) {
    0 < i && i + 1 < j && j + 1 < |s| && s[i] == '@' && s[j] == '.' &&
    !IsSpace(s[i - 1]) && NoSpaceBetween(s, i, j) && !IsSpace(s[j + 1])
  }

  /** No white space strictly between positions `i` and `j`. */
  predicate NoSpaceBetween(s: string, i: int, j: int)
    requires 0 <= i <= j <= |s|
  {
    forall k :: i < k < j ==> !IsSpace(s[k])
  }

  /**
   * `^\S+\.\S` as a left-to-right scan: non-spaces (at least one, counting
   * what `started` says was read before), then a '.', then a non-space.
   */
  predicate WordThenDot(t: string, started: bool)
    decreases |t|
  {
    t != [] && !IsSpace(t[0]) &&
    ((t[0] == '.' && started && |t| > 1 && !IsSpace(t[1])) || WordThenDot(t[1..], true))
  }

  /**
   * The email test as a scan for an '@' that follows a non-space (`afterWord`
   * says whether the character before `s` was one) and starts `\S+\.\S`.
   */
  predicate AtThenWordDot(s: string, afterWord: bool)
    decreases |s|
  {
    s != [] &&
    ((s[0] == '@' && afterWord && WordThenDot(s[1..], false)) || AtThenWordDot(s[1..], !IsSpace(s[0])))
  }

  predicate LooseEmail(s: string) {
    AtThenWordDot(s, false)
  }

  /** A '.' at `j` closes a run of non-spaces (non-empty unless `started`) and is followed by a non-space. */
  predicate DotAt(t: string, j: int, started: bool) {
    0 <= j && j + 1 < |t| && t[j] == '.' && (started || 0 < j) &&
    (forall k :: 0 <= k < j ==> !IsSpace(t[k])) && !IsSpace(t[j + 1])
  }

  lemma {:induction false} WordThenDotFindsDot(t: string, started: bool)
    ensures WordThenDot(t, started) <==> exists j :: DotAt(t, j, started)
    decreases |t|
  {
    if t == [] {
    } else if IsSpace(t[0]) {
      // A '.' is no white space, so no run of non-spaces ending in one can start here.
    } else {
      var u := t[1..];
      WordThenDotFindsDot(u, true);
      if WordThenDot(t, started) && !(t[0] == '.' && started && |t| > 1 && !IsSpace(t[1])) {
        var j :| DotAt(u, j, true);
        assert forall k :: 1 <= k < j + 1 ==> t[k] == u[k - 1];
        assert DotAt(t, j + 1, started);
      }
      if t[0] == '.' && started && |t| > 1 && !IsSpace(t[1]) {
        assert DotAt(t, 0, started);
      }
      if exists j :: DotAt(t, j, started) {
        var j :| DotAt(t, j, started);
        if j > 0 {
          assert forall k :: 0 <= k < j - 1 ==> u[k] == t[k + 1];
          assert DotAt(u, j - 1, true);
        }
      }
    }
  }

  /** The '@' at `i` follows a non-space and starts `\S+\.\S`. */
  predicate AtAt(s: string, i: int, afterWord: bool) {
    0 <= i < |s| && s[i] == '@' && (if i == 0 then afterWord else !IsSpace(s[i - 1])) && WordThenDot(s[i + 1..], false)
  }

  lemma {:induction false} AtThenWordDotFindsAt(s: string, afterWord: bool)
    ensures AtThenWordDot(s, afterWord) <==> exists i :: AtAt(s, i, afterWord)
    decreases |s|
  {
    if s != [] {
      var u := s[1..];
      AtThenWordDotFindsAt(u, !IsSpace(s[0]));
      if AtThenWordDot(u, !IsSpace(s[0])) {
        var i :| AtAt(u, i, !IsSpace(s[0]));
        assert u[i + 1..] == s[i + 2..];
        assert AtAt(s, i + 1, afterWord);
      }
      if s[0] == '@' && afterWord && WordThenDot(s[1..], false) {
        assert AtAt(s, 0, afterWord);
      }
      if exists i :: AtAt(s, i, afterWord) {
        var i :| AtAt(s, i, afterWord);
        if i > 0 {
          assert u[i - 1 + 1..] == s[i + 1..];
          assert AtAt(u, i - 1, !IsSpace(s[0]));
        }
      }
    }
  }

  lemma LooseEmailIsPattern(s: string)
    requires LooseEmail(s)
    ensures LooseEmailPattern(s)
  {
    AtThenWordDotFindsAt(s, false);
    var i :| AtAt(s, i, false);
    var t := s[i + 1..];
    WordThenDotFindsDot(t, false);
    var j :| DotAt(t, j, false);
    assert s[i + 1 + j] == '.' && s[i + 2 + j] == t[j + 1];
    assert NoSpaceBetween(s, i, i + 1 + j) by {
      forall k | i < k < i + 1 + j
        ensures !IsSpace(s[k])
      {
        assert s[k] == t[k - i - 1];
      }
    }
    assert EmailAt(s, i, i + 1 + j);
  }

  /** A '.' found at `j` is what the scan looks for. */
  lemma DotAtGivesWordThenDot(t: string, j: int, started: bool)
    requires DotAt(t, j, started)
    ensures WordThenDot(t, started)
  {
    WordThenDotFindsDot(t, started);
  }

  /** An '@' found at `i` is what the scan looks for. */
  lemma AtAtGivesLooseEmail(s: string, i: int)
    requires AtAt(s, i, false)
    ensures LooseEmail(s)
  {
    AtThenWordDotFindsAt(s, false);
  }

  lemma PatternIsLooseEmail(s: string)
    requires LooseEmailPattern(s)
    ensures LooseEmail(s)
  {
    var i, j :| 0 < i < j < |s| && EmailAt(s, i, j);
    var t := s[i + 1..];
    var d := j - i - 1;
    forall k | 0 <= k < d
      ensures !IsSpace(t[k])
    {
      assert t[k] == s[i + 1 + k];
    }
    assert t[d] == '.' && t[d + 1] == s[j + 1];
    DotAtGivesWordThenDot(t, d, false);
    AtAtGivesLooseEmail(s, i);
  }

  /** The scan and the regex reading accept the same strings. */
  lemma LooseEmailMeaning(s: string)
    ensures LooseEmail(s) <==> LooseEmailPattern(s)
  {
    if LooseEmail(s) {
      LooseEmailIsPattern(s);
    }
    if LooseEmailPattern(s) {
      PatternIsLooseEmail(s);
    }
  }

  /** Every address the booking page's strict pattern accepts passes this looser test. */
  lemma StrictEmailIsLoose(s: string)
    requires BookPage.EmailPattern(s)
    ensures LooseEmailPattern(s)
  {
    var i, j :| 0 < i && i + 1 < j && j + 1 < |s| && s[i] == '@' && s[j] == '.' &&
      forall k :: 0 <= k < |s| && k != i ==> BookPage.Plain(s[k]);
    assert BookPage.Plain(s[i - 1]) && BookPage.Plain(s[j + 1]);
    assert NoSpaceBetween(s, i, j) by {
      assert forall k :: i < k < j ==> BookPage.Plain(s[k]);
    }
    assert EmailAt(s, i, j);
  }

  /** The converse fails: the loose test passes text with white space before the address. */
  lemma LooseEmailIsNotStrict()
    ensures LooseEmailPattern("a b@c.d") && !BookPage.EmailPattern("a b@c.d")
  {
    var s := "a b@c.d";
    assert NoSpaceBetween(s, 3, 5) by {
      assert s[4] == 'c';
    }
    assert s[3] == '@' && s[5] == '.' && !IsSpace(s[2]) && !IsSpace(s[6]);
    assert EmailAt(s, 3, 5);
    assert !BookPage.Plain(s[1]);
  }

  /*** Step checks ***/

  /** The feedback texts the script writes. */
  datatype Notice = SelectCheckIn | SelectCheckOut | EnterName | EnterEmail | EnterValidEmail {
    function Text(): string {
      match this
      case SelectCheckIn => "Please select a check-in date"
      case SelectCheckOut => "Please select a check-out date"
      case EnterName => "Please enter your name"
      case EnterEmail => "Please enter your email"
      case EnterValidEmail => "Please enter a valid email"
    }
  }

  /** The email check of step 2: an empty value and a malformed one get different notices. */
  function EmailNotice(email: string): (n: Option<Notice>)
    ensures n.None? <==> LooseEmailPattern(email)
    ensures email == [] ==> n == Some(EnterEmail)
    ensures email != [] && n.Some? ==> n == Some(EnterValidEmail)
  {
    LooseEmailMeaning(email);
    if email == [] then Some(EnterEmail)
    else if !LooseEmail(email) then Some(EnterValidEmail)
    else None
  }

  /**
   * validateStep's verdict: step 1 needs both dates (their order is not
   * checked), step 2 a name and a well-formed email; every other step
   * number passes, as the switch has no default.
   */
  function StepValid(step: int, checkIn: Option<int>, checkOut: Option<int>, guestName: string, email: string): (ok: bool)
    ensures step == 1 ==> (ok <==> checkIn.Some? && checkOut.Some?)
    ensures step == 2 ==> (ok <==> guestName != [] && LooseEmailPattern(email))
    ensures step != 1 && step != 2 ==> ok
  {
    if step == 1 then checkIn.Some? && checkOut.Some?
    else if step == 2 then guestName != [] && EmailNotice(email).None?
    else true
  }

  /** The check-in and check-out dates the summary shows. */
  datatype Stay = Stay(checkIn: int, checkOut: int)

  /** The outcome of a next or previous button. */
  datatype NavOutcome =
    | Stayed     // the current step did not validate
    | Moved      // the target step is shown
    | Broken     // no step element has the target number: the handler stops with an error

  /**
   * An input of the booking form: one of the four the script validates by
   * step, or the n-th of the form's other inputs.
   */
  datatype Input = CheckInInput | CheckOutInput | NameInput | EmailInput | OtherInput(n: nat)

  /** What the form's inputs hold when it is submitted; `others[n]` is the value of `OtherInput(n)`. */
  datatype FormValues = FormValues(checkIn: Option<int>, checkOut: Option<int>, guestName: string, email: string, others: seq<string>)

  /** The input `f` has no value. */
  predicate IsEmpty(f: Input, v: FormValues)
    requires f.OtherInput? ==> f.n < |v.others|
  {
    match f
    case CheckInInput => v.checkIn.None?
    case CheckOutInput => v.checkOut.None?
    case NameInput => v.guestName == []
    case EmailInput => v.email == []
    case OtherInput(n) => v.others[n] == []
  }

  /**
   * The "is-invalid" marks of the form's inputs: the four validated inputs,
   * then `others[n]` for `OtherInput(n)`.
   */
  datatype Marks = Marks(checkIn: bool, checkOut: bool, name: bool, email: bool, others: seq<bool>)

  /** The input `f` is known to `m` and to `v`. */
  predicate Known(f: Input, m: Marks, v: FormValues) {
    f.OtherInput? ==> f.n < |m.others| && f.n < |v.others|
  }

  /** One step of the submit loop: `f` is marked invalid iff it is empty. */
  function MarkOne(m: Marks, f: Input, v: FormValues): (r: Marks)
    requires Known(f, m, v)
    ensures |r.others| == |m.others|
  {
    var empty := IsEmpty(f, v);
    match f
    case CheckInInput => m.(checkIn := empty)
    case CheckOutInput => m.(checkOut := empty)
    case NameInput => m.(name := empty)
    case EmailInput => m.(email := empty)
    case OtherInput(n) => m.(others := m.others[n := empty])
  }

  /** The marks after the submit loop has gone through `rs` in order, from `m`. */
  function MarksAfter(rs: seq<Input>, v: FormValues, m: Marks): (r: Marks)
    requires forall i :: 0 <= i < |rs| ==> Known(rs[i], m, v)
    ensures |r.others| == |m.others|
    decreases |rs|
  {
    if rs == [] then m
    else
      var p := rs[..|rs| - 1];
      assert forall i :: 0 <= i < |p| ==> p[i] == rs[i];
      assert Known(rs[|rs| - 1], m, v);
      MarkOne(MarksAfter(p, v, m), rs[|rs| - 1], v)
  }

  /** One step changes only the mark of the input it visits. */
  lemma MarkOneNamed(m: Marks, f: Input, v: FormValues)
    requires Known(f, m, v)
    ensures MarkOne(m, f, v).checkIn == if f == CheckInInput then v.checkIn.None? else m.checkIn
    ensures MarkOne(m, f, v).checkOut == if f == CheckOutInput then v.checkOut.None? else m.checkOut
    ensures MarkOne(m, f, v).name == if f == NameInput then v.guestName == [] else m.name
    ensures MarkOne(m, f, v).email == if f == EmailInput then v.email == [] else m.email
  {
  }

  /** An input is listed in `rs` iff it is listed before the last place or in it. */
  lemma InLastOrBefore(rs: seq<Input>, g: Input)
    requires rs != []
    ensures g in rs <==> g in rs[..|rs| - 1] || g == rs[|rs| - 1]
  {
    assert rs == rs[..|rs| - 1] + [rs[|rs| - 1]];
  }

  /**
   * After the loop, each of the four validated inputs is marked iff it is
   * empty when `rs` lists it, however often, and keeps its mark otherwise.
   */
  lemma {:induction false} MarksAfterNamed(rs: seq<Input>, v: FormValues, m: Marks)
    requires forall i :: 0 <= i < |rs| ==> Known(rs[i], m, v)
    ensures MarksAfter(rs, v, m).checkIn == if CheckInInput in rs then v.checkIn.None? else m.checkIn
    ensures MarksAfter(rs, v, m).checkOut == if CheckOutInput in rs then v.checkOut.None? else m.checkOut
    ensures MarksAfter(rs, v, m).name == if NameInput in rs then v.guestName == [] else m.name
    ensures MarksAfter(rs, v, m).email == if EmailInput in rs then v.email == [] else m.email
    decreases |rs|
  {
    if rs != [] {
      var p, f := rs[..|rs| - 1], rs[|rs| - 1];
      assert forall i :: 0 <= i < |p| ==> p[i] == rs[i];
      MarksAfterNamed(p, v, m);
      assert MarksAfter(rs, v, m) == MarkOne(MarksAfter(p, v, m), f, v);
      MarkOneNamed(MarksAfter(p, v, m), f, v);
      InLastOrBefore(rs, CheckInInput);
      InLastOrBefore(rs, CheckOutInput);
      InLastOrBefore(rs, NameInput);
      InLastOrBefore(rs, EmailInput);
    }
  }

  /**
   * After the loop, each other input is marked iff it is empty when `rs`
   * lists it, however often, and keeps its mark otherwise.
   */
  lemma {:induction false} MarksAfterOthers(rs: seq<Input>, v: FormValues, m: Marks)
    requires forall i :: 0 <= i < |rs| ==> Known(rs[i], m, v)
    ensures forall n :: 0 <= n < |m.others| ==>
              MarksAfter(rs, v, m).others[n] == if OtherInput(n) in rs then n < |v.others| && v.others[n] == [] else m.others[n]
    decreases |rs|
  {
    if rs != [] {
      var p, f := rs[..|rs| - 1], rs[|rs| - 1];
      assert forall i :: 0 <= i < |p| ==> p[i] == rs[i];
      assert Known(f, m, v);
      MarksAfterOthers(p, v, m);
      var before := MarksAfter(p, v, m);
      assert MarksAfter(rs, v, m) == MarkOne(before, f, v);
      forall n | 0 <= n < |m.others|
        ensures MarksAfter(rs, v, m).others[n] == if OtherInput(n) in rs then n < |v.others| && v.others[n] == [] else m.others[n]
      {
        InLastOrBefore(rs, OtherInput(n));
        if f == OtherInput(n) {
          assert MarksAfter(rs, v, m).others == before.others[n := v.others[n] == []];
        } else {
          assert MarksAfter(rs, v, m).others[n] == before.others[n];
        }
      }
    }
  }

  /** Every input in `required` has a value. */
  predicate AllFilled(required: seq<Input>, v: FormValues)
    requires forall i :: 0 <= i < |required| && required[i].OtherInput? ==> required[i].n < |v.others|
  {
    forall i :: 0 <= i < |required| ==> !IsEmpty(required[i], v)
  }

  /**
   * The booking form on the room page. `stepNumbers[k]` is the `data-step`
   * of the k-th step element and `stepHidden[k]` whether it carries
   * `d-none`. `required` lists the inputs carrying `required`, in document
   * order. Each input's `is-invalid` mark is kept once: the four validated
   * inputs have fields of their own, and `otherInvalid[n]` is the mark of
   * `OtherInput(n)`. Summary texts are None as served. `checkIn` and
   * `checkOut` are the date inputs' values, which the browser writes
   * before `change` fires; the typed name and email are passed to the
   * handlers that read them.
   */
  class HomeBooking {
    var checkIn: Option<int>
    var checkOut: Option<int>
    var checkInMin: int
    var checkOutMin: int
    const roomPrice: int
    var summaryDates: Option<Stay>
    var summaryNights: Option<int>
    var summaryTotal: Option<int>
    var summaryGuest: Option<string>
    var checkInInvalid: bool
    var checkOutInvalid: bool
    var nameInvalid: bool
    var emailInvalid: bool
    var checkInNotice: Option<Notice>
    var checkOutNotice: Option<Notice>
    var nameNotice: Option<Notice>
    var emailNotice: Option<Notice>
    var termsChecked: bool
    var termsInvalid: bool
    var progress: Option<int>
    const stepNumbers: seq<int>
    const stepHidden: array<bool>
    const required: seq<Input>
    const otherInvalid: array<bool>

    predicate Valid() {
      stepHidden.Length == |stepNumbers| && stepHidden != otherInvalid &&
      forall i :: 0 <= i < |required| && required[i].OtherInput? ==> required[i].n < otherInvalid.Length
    }

    /** Page load: check-in may start today and check-out tomorrow. */
    constructor(today: int, roomPrice: int, stepNumbers: seq<int>, hidden: seq<bool>, required: seq<Input>, otherCount: nat)
      requires |hidden| == |stepNumbers|
      requires forall i :: 0 <= i < |required| && required[i].OtherInput? ==> required[i].n < otherCount
      ensures Valid() && stepHidden[..] == hidden && otherInvalid.Length == otherCount && this.required == required
      ensures checkInMin == today && checkOutMin == today + 1
      ensures checkIn == None && checkOut == None && !termsChecked
      ensures this.roomPrice == roomPrice && this.stepNumbers == stepNumbers
    {
      checkIn, checkOut := None, None;
      checkInMin, checkOutMin := today, today + 1;
      this.roomPrice, this.stepNumbers := roomPrice, stepNumbers;
      summaryDates, summaryNights, summaryTotal, summaryGuest := None, None, None, None;
      checkInInvalid, checkOutInvalid, nameInvalid, emailInvalid := false, false, false, false;
      checkInNotice, checkOutNotice, nameNotice, emailNotice := None, None, None, None;
      termsChecked, termsInvalid, progress := false, false, None;
      stepHidden := new bool[|stepNumbers|](i requires 0 <= i < |hidden| => hidden[i]);
      this.required := required;
      otherInvalid := new bool[otherCount](_ => false);
    }

    /**
     * The summary as updatePriceSummary leaves it over the current dates:
     * with both dates chosen, the dates, the number of nights and the total
     * are written, whatever the order of the dates; otherwise it stays.
     */
    twostate predicate SummaryRefreshed()
      reads this
    {
      (checkIn.Some? && checkOut.Some? ==>
         summaryDates == Some(Stay(checkIn.value, checkOut.value)) &&
         summaryNights == Some(checkOut.value - checkIn.value) &&
         summaryTotal == Some(roomPrice * (checkOut.value - checkIn.value))) &&
      (checkIn.None? || checkOut.None? ==>
         summaryDates == old(summaryDates) && summaryNights == old(summaryNights) && summaryTotal == old(summaryTotal))
    }

    /** updatePriceSummary: the summary is refreshed as `SummaryRefreshed` says. */
    method UpdatePriceSummary()
      modifies this`summaryDates, this`summaryNights, this`summaryTotal
      ensures SummaryRefreshed()
    {
      if checkIn.Some? && checkOut.Some? {
        var nights := checkOut.value - checkIn.value;
        summaryDates := Some(Stay(checkIn.value, checkOut.value));
        summaryNights := Some(nights);
        summaryTotal := Some(roomPrice * nights);
      }
    }

    /**
     * The check-in change handler: check-out may start the day after
     * check-in, a check-out on or before check-in is moved to that day, and
     * the summary is refreshed.
     */
    method OnCheckInChange()
      modifies this`checkOutMin, this`checkOut, this`summaryDates, this`summaryNights, this`summaryTotal
      ensures checkIn.None? ==>
                checkOutMin == old(checkOutMin) && checkOut == old(checkOut) &&
                summaryDates == old(summaryDates) && summaryNights == old(summaryNights) && summaryTotal == old(summaryTotal)
      ensures checkIn.Some? ==> checkOutMin == checkIn.value + 1 && SummaryRefreshed()
      ensures checkIn.Some? && old(checkOut).Some? ==>
                checkOut == Some(if old(checkOut).value <= checkIn.value then checkIn.value + 1 else old(checkOut).value)
      ensures old(checkOut).None? ==> checkOut == None
      ensures checkIn.Some? && checkOut.Some? ==>
                checkIn.value < checkOut.value && summaryNights == Some(checkOut.value - checkIn.value)
    {
      if checkIn.Some? {
        checkOutMin := checkIn.value + 1;
        if checkOut.Some? && checkOut.value <= checkIn.value {
          checkOut := Some(checkIn.value + 1);
        }
        UpdatePriceSummary();
      }
    }

    /** The marks and notices are as validateStep(step) leaves them over the typed name and email. */
    twostate predicate StepChecked(step: int, guestName: string, email: string)
      reads this
    {
      (step == 1 ==>
         checkInInvalid == checkIn.None? && checkOutInvalid == checkOut.None? &&
         checkInNotice == (if checkIn.None? then Some(SelectCheckIn) else old(checkInNotice)) &&
         checkOutNotice == (if checkOut.None? then Some(SelectCheckOut) else old(checkOutNotice))) &&
      (step == 2 ==>
         nameInvalid == (guestName == []) && emailInvalid == EmailNotice(email).Some? &&
         nameNotice == (if guestName == [] then Some(EnterName) else old(nameNotice)) &&
         emailNotice == (if EmailNotice(email).Some? then EmailNotice(email) else old(emailNotice))) &&
      (step != 1 ==>
         checkInInvalid == old(checkInInvalid) && checkOutInvalid == old(checkOutInvalid) &&
         checkInNotice == old(checkInNotice) && checkOutNotice == old(checkOutNotice)) &&
      (step != 2 ==>
         nameInvalid == old(nameInvalid) && emailInvalid == old(emailInvalid) &&
         nameNotice == old(nameNotice) && emailNotice == old(emailNotice))
    }

    /**
     * validateStep over the typed name and email: step 1 marks each empty
     * date, step 2 the empty name and the empty or malformed email; a
     * passing field loses its mark, its notice stays as it was.
     */
    method ValidateStep(step: int, guestName: string, email: string) returns (ok: bool)
      modifies this`checkInInvalid, this`checkOutInvalid, this`nameInvalid, this`emailInvalid
      modifies this`checkInNotice, this`checkOutNotice, this`nameNotice, this`emailNotice
      ensures ok == StepValid(step, checkIn, checkOut, guestName, email)
      ensures step == 1 ==>
                checkInInvalid == checkIn.None? && checkOutInvalid == checkOut.None? &&
                checkInNotice == (if checkIn.None? then Some(SelectCheckIn) else old(checkInNotice)) &&
                checkOutNotice == (if checkOut.None? then Some(SelectCheckOut) else old(checkOutNotice))
      ensures step == 2 ==>
                nameInvalid == (guestName == []) && emailInvalid == EmailNotice(email).Some? &&
                nameNotice == (if guestName == [] then Some(EnterName) else old(nameNotice)) &&
                emailNotice == (if EmailNotice(email).Some? then EmailNotice(email) else old(emailNotice))
      ensures step != 1 ==>
                checkInInvalid == old(checkInInvalid) && checkOutInvalid == old(checkOutInvalid) &&
                checkInNotice == old(checkInNotice) && checkOutNotice == old(checkOutNotice)
      ensures step != 2 ==>
                nameInvalid == old(nameInvalid) && emailInvalid == old(emailInvalid) &&
                nameNotice == old(nameNotice) && emailNotice == old(emailNotice)
      ensures step == 1 ==> (ok <==> !checkInInvalid && !checkOutInvalid)
      ensures step == 2 ==> (ok <==> !nameInvalid && !emailInvalid)
    {
      ok := true;
      if step == 1 {
        checkInInvalid := checkIn.None?;
        if checkIn.None? {
          checkInNotice := Some(SelectCheckIn);
          ok := false;
        }
        checkOutInvalid := checkOut.None?;
        if checkOut.None? {
          checkOutNotice := Some(SelectCheckOut);
          ok := false;
        }
      } else if step == 2 {
        nameInvalid := guestName == [];
        if guestName == [] {
          nameNotice := Some(EnterName);
          ok := false;
        }
        var notice := EmailNotice(email);
        emailInvalid := notice.Some?;
        if notice.Some? {
          emailNotice := notice;
          ok := false;
        }
      }
    }

    /**
     * The move both buttons make: the progress bar is set for the target,
     * the first step element numbered `current` is hidden and the first
     * numbered `target` shown; with no such target the handler stops with
     * an error after hiding.
     */
    method Navigate(current: int, target: int) returns (outcome: NavOutcome)
      requires Valid() && current in stepNumbers
      modifies this`progress, stepHidden
      ensures outcome != Stayed && progress == Some((target - 1) * 50)
      ensures outcome == Broken <==> target !in stepNumbers
      ensures outcome == Broken ==>
                stepHidden[..] == old(stepHidden[..])[FirstIndexOf(stepNumbers, current).value := true]
      ensures outcome == Moved ==>
                stepHidden[..] ==
                  old(stepHidden[..])[FirstIndexOf(stepNumbers, current).value := true]
                                     [FirstIndexOf(stepNumbers, target).value := false]
    {
      progress := Some((target - 1) * 50);
      var from := FirstIndexOf(stepNumbers, current);
      stepHidden[from.value] := true;
      var to := FirstIndexOf(stepNumbers, target);
      if to.None? {
        return Broken;
      }
      stepHidden[to.value] := false;
      return Moved;
    }

    /**
     * A next button inside the k-th step element, with `data-next` =
     * `nextStep`: when the current step validates, the progress bar moves,
     * the first element with the current number is hidden and the first
     * with the next number shown; arriving at step 3 refreshes the summary.
     */
    method Next(k: nat, nextStep: int, guestName: string, email: string) returns (outcome: NavOutcome)
      requires Valid() && k < |stepNumbers|
      modifies this`checkInInvalid, this`checkOutInvalid, this`nameInvalid, this`emailInvalid
      modifies this`checkInNotice, this`checkOutNotice, this`nameNotice, this`emailNotice
      modifies this`progress, stepHidden, this`summaryDates, this`summaryNights, this`summaryTotal, this`summaryGuest
      ensures outcome == Stayed <==> !StepValid(stepNumbers[k], checkIn, checkOut, guestName, email)
      ensures StepChecked(stepNumbers[k], guestName, email)
      ensures outcome == Stayed ==> progress == old(progress) && stepHidden[..] == old(stepHidden[..])
      ensures outcome != Stayed ==> progress == Some((nextStep - 1) * 50)
      ensures outcome == Broken <==> outcome != Stayed && nextStep !in stepNumbers
      ensures outcome == Broken ==>
                stepHidden[..] == old(stepHidden[..])[FirstIndexOf(stepNumbers, stepNumbers[k]).value := true]
      ensures outcome == Moved ==>
                stepHidden[..] ==
                  old(stepHidden[..])[FirstIndexOf(stepNumbers, stepNumbers[k]).value := true]
                                     [FirstIndexOf(stepNumbers, nextStep).value := false]
      ensures SummaryAfterMove(outcome == Moved && nextStep == 3, guestName)
    {
      var current := stepNumbers[k];
      var ok := ValidateStep(current, guestName, email);
      if !ok {
        return Stayed;
      }
      outcome := Advance(current, nextStep, guestName);
    }

    /**
     * The summary after a next button: when the form arrived at step 3 it
     * shows the guest's name and, with both dates chosen, the dates, the
     * nights and the total; otherwise it is as it was.
     */
    twostate predicate SummaryAfterMove(arrived: bool, guestName: string)
      reads this
    {
      (arrived ==> summaryGuest == Some(guestName)) &&
      (arrived && checkIn.Some? && checkOut.Some? ==>
         summaryDates == Some(Stay(checkIn.value, checkOut.value)) &&
         summaryNights == Some(checkOut.value - checkIn.value) &&
         summaryTotal == Some(roomPrice * (checkOut.value - checkIn.value))) &&
      (!arrived || checkIn.None? || checkOut.None? ==>
         summaryDates == old(summaryDates) && summaryNights == old(summaryNights) && summaryTotal == old(summaryTotal)) &&
      (!arrived ==> summaryGuest == old(summaryGuest))
    }

    /** The second half of a next button, once the step has validated: move, then refresh the summary on step 3. */
    method Advance(current: int, nextStep: int, guestName: string) returns (outcome: NavOutcome)
      requires Valid() && current in stepNumbers
      modifies this`progress, stepHidden, this`summaryDates, this`summaryNights, this`summaryTotal, this`summaryGuest
      ensures outcome != Stayed && progress == Some((nextStep - 1) * 50)
      ensures outcome == Broken <==> nextStep !in stepNumbers
      ensures outcome == Broken ==>
                stepHidden[..] == old(stepHidden[..])[FirstIndexOf(stepNumbers, current).value := true]
      ensures outcome == Moved ==>
                stepHidden[..] ==
                  old(stepHidden[..])[FirstIndexOf(stepNumbers, current).value := true]
                                     [FirstIndexOf(stepNumbers, nextStep).value := false]
      ensures SummaryAfterMove(outcome == Moved && nextStep == 3, guestName)
    {
      outcome := Navigate(current, nextStep);
      if outcome == Moved && nextStep == 3 {
        UpdatePriceSummary();
        summaryGuest := Some(guestName);
      }
    }

    /** A previous button inside the k-th step element, with `data-prev` = `prevStep`: no validation. */
    method Prev(k: nat, prevStep: int) returns (outcome: NavOutcome)
      requires Valid() && k < |stepNumbers|
      modifies this`progress, stepHidden
      ensures outcome != Stayed && progress == Some((prevStep - 1) * 50)
      ensures outcome == Broken <==> prevStep !in stepNumbers
      ensures outcome == Broken ==>
                stepHidden[..] == old(stepHidden[..])[FirstIndexOf(stepNumbers, stepNumbers[k]).value := true]
      ensures outcome == Moved ==>
                stepHidden[..] ==
                  old(stepHidden[..])[FirstIndexOf(stepNumbers, stepNumbers[k]).value := true]
                                     [FirstIndexOf(stepNumbers, prevStep).value := false]
    {
      outcome := Navigate(stepNumbers[k], prevStep);
    }

    /** The marks the form's inputs carry now. */
    function CurrentMarks(): (m: Marks)
      reads this, otherInvalid
      ensures |m.others| == otherInvalid.Length
    {
      Marks(checkInInvalid, checkOutInvalid, nameInvalid, emailInvalid, otherInvalid[..])
    }

    /** One step of the submit loop: the input `f` gains "is-invalid" when empty and loses it otherwise. */
    method MarkInput(f: Input, v: FormValues)
      requires Known(f, CurrentMarks(), v)
      modifies this`checkInInvalid, this`checkOutInvalid, this`nameInvalid, this`emailInvalid, otherInvalid
      ensures CurrentMarks() == MarkOne(old(CurrentMarks()), f, v)
    {
      var empty := IsEmpty(f, v);
      match f {
        case CheckInInput => checkInInvalid := empty;
        case CheckOutInput => checkOutInvalid := empty;
        case NameInput => nameInvalid := empty;
        case EmailInput => emailInvalid := empty;
        case OtherInput(n) => otherInvalid[n] := empty;
      }
    }

    /**
     * The submit loop over the required inputs, in document order, as
     * `MarksAfter` says; `filled` says whether none was empty.
     */
    method MarkRequired(v: FormValues) returns (filled: bool)
      requires Valid() && |v.others| == otherInvalid.Length
      modifies this`checkInInvalid, this`checkOutInvalid, this`nameInvalid, this`emailInvalid, otherInvalid
      ensures filled <==> AllFilled(required, v)
      ensures CurrentMarks() == MarksAfter(required, v, old(CurrentMarks()))
    {
      filled := true;
      var i := 0;
      while i < |required|
        invariant 0 <= i <= |required|
        invariant filled <==> forall k :: 0 <= k < i ==> !IsEmpty(required[k], v)
        invariant CurrentMarks() == MarksAfter(required[..i], v, old(CurrentMarks()))
      {
        var f := required[i];
        MarkInput(f, v);
        if IsEmpty(f, v) {
          filled := false;
        }
        assert required[..i + 1][..i] == required[..i];
        i := i + 1;
      }
      assert required[..i] == required;
    }

    /**
     * The submit handler over the typed name and email and the values of
     * the form's other inputs: unchecked terms block the form and mark the
     * box; otherwise every required input, the validated ones included, is
     * marked or unmarked by whether it is empty, and the form is sent only
     * when none is. Inputs that are not required keep their marks.
     */
    method Submit(guestName: string, email: string, otherValues: seq<string>) returns (sent: bool)
      requires Valid() && |otherValues| == otherInvalid.Length
      modifies this`termsInvalid, this`checkInInvalid, this`checkOutInvalid, this`nameInvalid, this`emailInvalid, otherInvalid
      ensures sent <==> termsChecked && AllFilled(required, FormValues(checkIn, checkOut, guestName, email, otherValues))
      ensures termsInvalid == !termsChecked
      ensures checkInInvalid == if termsChecked && CheckInInput in required then checkIn.None? else old(checkInInvalid)
      ensures checkOutInvalid == if termsChecked && CheckOutInput in required then checkOut.None? else old(checkOutInvalid)
      ensures nameInvalid == if termsChecked && NameInput in required then guestName == [] else old(nameInvalid)
      ensures emailInvalid == if termsChecked && EmailInput in required then email == [] else old(emailInvalid)
      ensures forall n :: 0 <= n < otherInvalid.Length ==>
                otherInvalid[n] == if termsChecked && OtherInput(n) in required then otherValues[n] == [] else old(otherInvalid[n])
    {
      if !termsChecked {
        termsInvalid := true;
        return false;
      }
      termsInvalid := false;
      var v := FormValues(checkIn, checkOut, guestName, email, otherValues);
      ghost var before := CurrentMarks();
      sent := MarkRequired(v);
      MarksAfterNamed(required, v, before);
      MarksAfterOthers(required, v, before);
      forall n | 0 <= n < otherInvalid.Length
        ensures otherInvalid[n] == if OtherInput(n) in required then otherValues[n] == [] else old(otherInvalid[n])
      {
        assert otherInvalid[n] == CurrentMarks().others[n] && old(otherInvalid[n]) == before.others[n];
      }
    }
  }
}
