/**
 * The site-wide booking script: the YYYY-MM-DD date format, the countdown
 * badges of upcoming bookings, the stay-date constraints with the price
 * calculation they trigger, and the multi-step booking form.
 *
 * Dates are day numbers and prices cents; "today" is a parameter. Input
 * values are strings, with the empty string for an empty input.
 */
module MainPage {
  import opened Text

  /*** Date format ***/

  /**
   * formatDate for a date with the given calendar fields: `month` is the
   * 0-based month of `getMonth()`, `day` the day of the month.
   */
  function FormatDate(year: int, month: int, day: int): (s: string)
    requires 0 <= month < 12 && 1 <= day <= 31
    ensures |s| == |ShowInt(year)| + 6
    ensures s[..|s| - 6] == ShowInt(year)
    ensures s[|s| - 6] == '-' && s[|s| - 3] == '-'
    ensures AllDigits(s[|s| - 5..|s| - 3]) && ParseNat(s[|s| - 5..|s| - 3]) == month + 1
    ensures AllDigits(s[|s| - 2..]) && ParseNat(s[|s| - 2..]) == day
  {
    var y, m, d := ShowInt(year), Pad2(month + 1), Pad2(day);
    assert |m| == 2 && |d| == 2;
    var s := y + "-" + m + "-" + d;
    assert |s| == |y| + 6;
    assert s[..|s| - 6] == y;
    assert s[|s| - 6] == '-' && s[|s| - 3] == '-';
    assert s[|s| - 5..|s| - 3] == m;
    assert s[|s| - 2..] == d;
    s
  }

  /** Different dates are formatted differently: the string gives back year, month and day. */
  lemma FormatDateInjective(y1: int, m1: int, d1: int, y2: int, m2: int, d2: int)
    requires 0 <= m1 < 12 && 1 <= d1 <= 31 && 0 <= m2 < 12 && 1 <= d2 <= 31
    requires FormatDate(y1, m1, d1) == FormatDate(y2, m2, d2)
    ensures y1 == y2 && m1 == m2 && d1 == d2
  {
    var s := FormatDate(y1, m1, d1);
    assert ShowInt(y1) == s[..|s| - 6] == ShowInt(y2);
    ShowIntInjective(y1, y2);
  }

  /** A four-digit year gives the ten characters of an ISO 8601 calendar date. */
  lemma FormatDateFourDigitYear(year: int, month: int, day: int)
    requires 0 <= month < 12 && 1 <= day <= 31 && 1000 <= year <= 9999
    ensures |FormatDate(year, month, day)| == 10
    ensures FormatDate(year, month, day)[4] == '-' && FormatDate(year, month, day)[7] == '-'
  {
    ShowNatFourDigits(year);
  }

  /*** Countdown badges ***/

  /** The colour classes a countdown badge loses before it is repainted. */
  const ColourClasses: set<string> := {"bg-primary", "bg-warning", "bg-success", "bg-danger", "text-dark"}

  /** What a badge shows for a booking `days` days ahead. */
  datatype Countdown = DaysAhead(days: int) | Tomorrow | Today | PastDue {
    function Text(): string {
      match this
      case DaysAhead(days) => ShowInt(days) + " days"
      case Tomorrow => "Tomorrow"
      case Today => "Today"
      case PastDue => "Past due"
    }

    function Classes(): set<string> {
      match this
      case DaysAhead(_) => {"bg-primary"}
      case Tomorrow => {"bg-warning", "text-dark"}
      case Today => {"bg-success"}
      case PastDue => {"bg-danger"}
    }
  }

  /** The label choice of updateCountdownDisplay. */
  function Classify(days: int): (c: Countdown)
    ensures c.Classes() <= ColourClasses && c.Classes() != {}
    ensures days > 1 ==> c.Text() == ShowInt(days) + " days"
    ensures days == 1 ==> c.Text() == "Tomorrow"
    ensures days == 0 ==> c.Text() == "Today"
    ensures days < 0 ==> c.Text() == "Past due"
  {
    if days > 1 then DaysAhead(days)
    else if days == 1 then Tomorrow
    else if days == 0 then Today
    else PastDue
  }

  /**
   * A badge's class list after updateCountdownDisplay: the five colour
   * classes are removed, then the scheme for `days` is added, so exactly
   * one background class remains.
   */
  function CountdownClasses(classes: set<string>, days: int): (r: set<string>)
    ensures "bg-primary" in r <==> days > 1
    ensures "bg-warning" in r <==> days == 1
    ensures "text-dark" in r <==> days == 1
    ensures "bg-success" in r <==> days == 0
    ensures "bg-danger" in r <==> days < 0
    ensures r - ColourClasses == classes - ColourClasses
  {
    classes - ColourClasses + Classify(days).Classes()
  }

  /** A badge's text tells the day count apart exactly, except among past dates. */
  lemma CountdownTextIdentifiesDays(a: int, b: int)
    requires Classify(a).Text() == Classify(b).Text()
    ensures a == b || (a < 0 && b < 0)
  {
    var s := Classify(a).Text();
    if a > 1 && b > 1 {
      assert ShowInt(a) == s[..|s| - 5] == ShowInt(b);
      ShowIntInjective(a, b);
    } else if a > 1 || b > 1 {
      DaysTextIsNoWord(if a > 1 then a else b);
    }
  }

  /** The text for two or more days ahead is none of the fixed words. */
  lemma DaysTextIsNoWord(n: int)
    requires n > 1
    ensures Classify(n).Text() != "Tomorrow" && Classify(n).Text() != "Today" && Classify(n).Text() != "Past due"
  {
    var s := Classify(n).Text();
    assert s[|s| - 5..] == " days";
    assert "Tomorrow"[3..] != " days" && "Past due"[3..] != " days";
  }

  /*** Stay dates and price ***/

  /**
   * The check-in and check-out inputs with the price elements they drive.
   * `pricePanel` says whether the base-price, nights and total elements are
   * all on the page, and `hasNightsContainer` whether the nights row is;
   * the room's price per night is in cents. The shown texts are None until
   * first written. `checkIn` and `checkOut` are the date inputs' values,
   * which the browser writes before `change` fires.
   */
  class StayDates {
    var checkIn: Option<int>
    var checkOut: Option<int>
    var checkInMin: int
    var checkOutMin: int
    const pricePanel: bool
    const pricePerNight: int
    var nightsText: Option<int>
    var totalText: Option<int>
    const hasNightsContainer: bool
    var nightsContainerClasses: set<string>
    const hasSummaryNights: bool
    const hasSummaryTotal: bool
    var summaryNights: Option<int>
    var summaryTotal: Option<int>

    /** Both dates are chosen and the stay lasts at least a night: the price can be shown. */
    predicate Priced()
      reads this`checkIn, this`checkOut
    {
      pricePanel && checkIn.Some? && checkOut.Some? && checkOut.value - checkIn.value > 0
    }

    /**
     * Page load over date inputs served with `servedCheckIn` and
     * `servedCheckOut`: check-in may start today, check-out tomorrow, and
     * the initial updatePriceCalculation prices a served stay as
     * `PriceRecalculated` says, from a page with no texts written.
     */
    constructor(today: int, pricePanel: bool, pricePerNight: int, hasSummaryNights: bool, hasSummaryTotal: bool,
                hasNightsContainer: bool, nightsContainerClasses: set<string>,
                servedCheckIn: Option<int>, servedCheckOut: Option<int>)
      ensures checkIn == servedCheckIn && checkOut == servedCheckOut
      ensures checkInMin == today && checkOutMin == today + 1
      ensures this.hasNightsContainer == hasNightsContainer
      ensures this.pricePanel == pricePanel && this.pricePerNight == pricePerNight
      ensures this.hasSummaryNights == hasSummaryNights && this.hasSummaryTotal == hasSummaryTotal
      ensures Priced() ==>
                nightsText == Some(checkOut.value - checkIn.value) &&
                totalText == Some((checkOut.value - checkIn.value) * pricePerNight)
      ensures Priced() && hasNightsContainer ==>
                "d-flex" in this.nightsContainerClasses && "d-none" !in this.nightsContainerClasses &&
                this.nightsContainerClasses - {"d-flex", "d-none"} == nightsContainerClasses - {"d-flex", "d-none"} &&
                summaryNights == (if hasSummaryNights then nightsText else None) &&
                summaryTotal == (if hasSummaryTotal then totalText else None)
      ensures !Priced() || !hasNightsContainer ==>
                this.nightsContainerClasses == nightsContainerClasses && summaryNights == None && summaryTotal == None
      ensures !Priced() ==> nightsText == None && totalText == None
    {
      checkIn, checkOut := servedCheckIn, servedCheckOut;
      checkInMin, checkOutMin := today, today + 1;
      this.pricePanel, this.pricePerNight := pricePanel, pricePerNight;
      this.hasSummaryNights, this.hasSummaryTotal := hasSummaryNights, hasSummaryTotal;
      nightsText, totalText, summaryNights, summaryTotal := None, None, None, None;
      this.hasNightsContainer, this.nightsContainerClasses := hasNightsContainer, nightsContainerClasses;
      new;
      var ok := UpdatePriceCalculation();
    }

    /**
     * The price as updatePriceCalculation leaves it over the current dates,
     * `ok` saying whether it finished: with both dates chosen and a
     * positive number of nights, the nights and the total are written, then
     * the nights row is shown and the summary written; otherwise nothing
     * changes. Without the nights row the handler stops with an error
     * (`ok` false) after writing the nights and the total, and the summary
     * is not reached.
     */
    twostate predicate PriceRecalculated(ok: bool)
      reads this
    {
      (ok <==> !Priced() || hasNightsContainer) &&
      (Priced() ==>
         nightsText == Some(checkOut.value - checkIn.value) &&
         totalText == Some((checkOut.value - checkIn.value) * pricePerNight)) &&
      (Priced() && ok ==>
         "d-flex" in nightsContainerClasses && "d-none" !in nightsContainerClasses &&
         nightsContainerClasses - {"d-flex", "d-none"} == old(nightsContainerClasses) - {"d-flex", "d-none"} &&
         summaryNights == (if hasSummaryNights then nightsText else old(summaryNights)) &&
         summaryTotal == (if hasSummaryTotal then totalText else old(summaryTotal))) &&
      (!ok ==>
         nightsContainerClasses == old(nightsContainerClasses) &&
         summaryNights == old(summaryNights) && summaryTotal == old(summaryTotal)) &&
      (!Priced() ==>
         nightsText == old(nightsText) && totalText == old(totalText) &&
         nightsContainerClasses == old(nightsContainerClasses) &&
         summaryNights == old(summaryNights) && summaryTotal == old(summaryTotal))
    }

    /** updatePriceCalculation: the price is recalculated as `PriceRecalculated` says. */
    method UpdatePriceCalculation() returns (ok: bool)
      modifies this`nightsText, this`totalText, this`nightsContainerClasses, this`summaryNights, this`summaryTotal
      ensures PriceRecalculated(ok)
    {
      ok := true;
      if pricePanel && checkIn.Some? && checkOut.Some? {
        var nights := checkOut.value - checkIn.value;
        if nights > 0 {
          var total := pricePerNight * nights;
          nightsText, totalText := Some(nights), Some(total);
          if !hasNightsContainer {
            return false;
          }
          nightsContainerClasses := nightsContainerClasses - {"d-none"} + {"d-flex"};
          if hasSummaryNights {
            summaryNights := Some(nights);
          }
          if hasSummaryTotal {
            summaryTotal := Some(total);
          }
        }
      }
    }

    /**
     * The check-in change handler: check-out may start the day after
     * check-in, a check-out on or before check-in is moved to that day, and
     * the price is recalculated, which fails (`ok` false) as
     * `UpdatePriceCalculation` says.
     */
    method OnCheckInChange() returns (ok: bool)
      modifies this`checkOutMin, this`checkOut
      modifies this`nightsText, this`totalText, this`nightsContainerClasses, this`summaryNights, this`summaryTotal
      ensures ok <==> !Priced() || hasNightsContainer
      ensures checkIn.None? ==>
                ok && checkOutMin == old(checkOutMin) && checkOut == old(checkOut) &&
                nightsText == old(nightsText) && totalText == old(totalText) &&
                nightsContainerClasses == old(nightsContainerClasses) &&
                summaryNights == old(summaryNights) && summaryTotal == old(summaryTotal)
      ensures checkIn.Some? ==> checkOutMin == checkIn.value + 1 && PriceRecalculated(ok)
      ensures checkIn.Some? && old(checkOut).Some? ==>
                checkOut == Some(if old(checkOut).value <= checkIn.value then checkIn.value + 1 else old(checkOut).value)
      ensures old(checkOut).None? ==> checkOut == None
      ensures checkIn.Some? && checkOut.Some? ==> checkIn.value < checkOut.value && checkOutMin <= checkOut.value
      ensures checkIn.Some? && checkOut.Some? && pricePanel ==>
                totalText == Some((checkOut.value - checkIn.value) * pricePerNight)
    {
      ok := true;
      if checkIn.Some? {
        checkOutMin := checkIn.value + 1;
        if checkOut.Some? && checkOut.value <= checkIn.value {
          checkOut := Some(checkIn.value + 1);
        }
        ok := UpdatePriceCalculation();
      }
    }
  }

  /*** Multi-step form ***/

  /** The outcome of checking a step's required fields. */
  datatype StepCheck = NoSuchStep | Checked(valid: bool)

  /** Every required field placed in the step element at `step` has a value. */
  predicate StepFilled(fieldStep: seq<nat>, values: seq<string>, step: nat)
    requires |values| == |fieldStep|
  {
    forall i :: 0 <= i < |fieldStep| && fieldStep[i] == step ==> values[i] != []
  }

  /**
   * The multi-step booking form. `stepNumbers[k]` is the `data-step` of the
   * k-th step element and `stepHidden[k]` whether it carries `d-none`. For
   * each required field, `fieldStep` gives the position of the step element
   * holding it, `fieldInvalid` whether it carries `is-invalid`, `hasFeedback`
   * whether its feedback element exists and `showsRequired` whether that
   * element says the field is required.
   */
  class MultiStepForm {
    const stepNumbers: seq<int>
    const stepHidden: array<bool>
    const hasProgressBar: bool
    var progress: Option<int>
    const fieldStep: seq<nat>
    const fieldInvalid: array<bool>
    const hasFeedback: seq<bool>
    const showsRequired: array<bool>
    const hasSummaryGuest: bool
    var summaryGuest: string

    predicate Valid() {
      stepHidden.Length == |stepNumbers| &&
      fieldInvalid.Length == |fieldStep| == |hasFeedback| == showsRequired.Length &&
      fieldInvalid != showsRequired && stepHidden != fieldInvalid && stepHidden != showsRequired
    }

    constructor(stepNumbers: seq<int>, hidden: seq<bool>, hasProgressBar: bool,
                fieldStep: seq<nat>, hasFeedback: seq<bool>, hasSummaryGuest: bool)
      requires |hidden| == |stepNumbers| && |hasFeedback| == |fieldStep|
      ensures Valid() && stepHidden[..] == hidden
      ensures forall i :: 0 <= i < fieldInvalid.Length ==> !fieldInvalid[i] && !showsRequired[i]
      ensures this.stepNumbers == stepNumbers && this.fieldStep == fieldStep && this.hasFeedback == hasFeedback
      ensures this.hasProgressBar == hasProgressBar && this.hasSummaryGuest == hasSummaryGuest
      ensures progress == None && summaryGuest == []
    {
      this.stepNumbers, this.hasProgressBar := stepNumbers, hasProgressBar;
      this.fieldStep, this.hasFeedback, this.hasSummaryGuest := fieldStep, hasFeedback, hasSummaryGuest;
      stepHidden := new bool[|stepNumbers|](i requires 0 <= i < |hidden| => hidden[i]);
      fieldInvalid := new bool[|fieldStep|](_ => false);
      showsRequired := new bool[|fieldStep|](_ => false);
      progress, summaryGuest := None, [];
    }

    /** The required fields carry the marks and messages of validateStep(step) over `values`. */
    twostate predicate FieldsChecked(step: int, values: seq<string>)
      requires Valid() && |values| == |fieldStep|
      reads this, fieldInvalid, showsRequired
    {
      (forall i :: 0 <= i < fieldInvalid.Length ==>
         fieldInvalid[i] == if Some(fieldStep[i]) == FirstIndexOf(stepNumbers, step) then values[i] == [] else old(fieldInvalid[i])) &&
      (forall i :: 0 <= i < showsRequired.Length ==>
         showsRequired[i] ==
           if Some(fieldStep[i]) == FirstIndexOf(stepNumbers, step) && values[i] == [] && hasFeedback[i] then true
           else old(showsRequired[i]))
    }

    /** The display, progress bar and guest summary are as showBookingStep(step) leaves them. */
    twostate predicate Displayed(step: int, guestName: Option<string>)
      requires Valid()
      reads this, stepHidden
    {
      (forall k :: 0 <= k < stepHidden.Length ==> (stepHidden[k] <==> FirstIndexOf(stepNumbers, step) != Some(k))) &&
      progress == (if FirstIndexOf(stepNumbers, step).Some? && hasProgressBar then Some((step - 1) * 50) else old(progress)) &&
      summaryGuest ==
        if FirstIndexOf(stepNumbers, step).Some? && step == 3 && guestName.Some? && hasSummaryGuest then guestName.value
        else old(summaryGuest)
    }

    /**
     * validateStep over the values typed into the required fields: the
     * first step element numbered `step` is looked up (none found: the
     * handler stops with an error); each of its required fields is marked
     * invalid when empty, with the "required" message, and unmarked
     * otherwise. Fields of other steps are untouched.
     */
    method ValidateStep(step: int, values: seq<string>) returns (r: StepCheck)
      requires Valid() && |values| == |fieldStep|
      modifies fieldInvalid, showsRequired
      ensures FirstIndexOf(stepNumbers, step).None? ==> r == NoSuchStep
      ensures FirstIndexOf(stepNumbers, step).Some? ==>
                r == Checked(StepFilled(fieldStep, values, FirstIndexOf(stepNumbers, step).value))
      ensures r.Checked? ==>
                (r.valid <==> forall i :: 0 <= i < |fieldStep| && Some(fieldStep[i]) == FirstIndexOf(stepNumbers, step) ==> !fieldInvalid[i])
      ensures forall i :: 0 <= i < fieldInvalid.Length ==>
                fieldInvalid[i] == if Some(fieldStep[i]) == FirstIndexOf(stepNumbers, step) then values[i] == [] else old(fieldInvalid[i])
      ensures forall i :: 0 <= i < showsRequired.Length ==>
                showsRequired[i] ==
                  if Some(fieldStep[i]) == FirstIndexOf(stepNumbers, step) && values[i] == [] && hasFeedback[i] then true
                  else old(showsRequired[i])
    {
      var target := FirstIndexOf(stepNumbers, step);
      if target.None? {
        return NoSuchStep;
      }
      var t := target.value;
      var valid := true;
      var i := 0;
      while i < fieldInvalid.Length
        invariant 0 <= i <= fieldInvalid.Length
        invariant valid <==> forall k :: 0 <= k < i && fieldStep[k] == t ==> values[k] != []
        invariant forall k :: 0 <= k < i ==> fieldInvalid[k] == if fieldStep[k] == t then values[k] == [] else old(fieldInvalid[k])
        invariant forall k :: i <= k < fieldInvalid.Length ==> fieldInvalid[k] == old(fieldInvalid[k])
        invariant forall k :: 0 <= k < i ==>
                    showsRequired[k] == if fieldStep[k] == t && values[k] == [] && hasFeedback[k] then true else old(showsRequired[k])
        invariant forall k :: i <= k < showsRequired.Length ==> showsRequired[k] == old(showsRequired[k])
      {
        if fieldStep[i] == t {
          if values[i] == [] {
            fieldInvalid[i] := true;
            if hasFeedback[i] {
              showsRequired[i] := true;
            }
            valid := false;
          } else {
            fieldInvalid[i] := false;
          }
        }
        i := i + 1;
      }
      return Checked(valid);
    }

    /**
     * showBookingStep: every step element is hidden, then the first one
     * numbered `step` is shown; only then is the progress bar set and, on
     * the review step, the guest summary refreshed from the name input
     * (None: no such input).
     */
    method ShowBookingStep(step: int, guestName: Option<string>)
      requires Valid()
      modifies stepHidden, this`progress, this`summaryGuest
      ensures forall k :: 0 <= k < stepHidden.Length ==> (stepHidden[k] <==> FirstIndexOf(stepNumbers, step) != Some(k))
      ensures progress ==
                if FirstIndexOf(stepNumbers, step).Some? && hasProgressBar then Some((step - 1) * 50) else old(progress)
      ensures summaryGuest ==
                if FirstIndexOf(stepNumbers, step).Some? && step == 3 && guestName.Some? && hasSummaryGuest then guestName.value
                else old(summaryGuest)
    {
      var k := 0;
      while k < stepHidden.Length
        invariant 0 <= k <= stepHidden.Length
        invariant forall j :: 0 <= j < k ==> stepHidden[j]
        modifies stepHidden
      {
        stepHidden[k] := true;
        k := k + 1;
      }
      var target := FirstIndexOf(stepNumbers, step);
      if target.Some? {
        stepHidden[target.value] := false;
        if hasProgressBar {
          progress := Some((step - 1) * 50);
        }
        if step == 3 && guestName.Some? && hasSummaryGuest {
          summaryGuest := guestName.value;
        }
      }
    }

    /**
     * A next button inside the step numbered `buttonStep`, with `data-next`
     * = `nextStep`: the form moves on only when that step's required fields
     * are all filled.
     */
    method Next(buttonStep: int, nextStep: int, values: seq<string>, guestName: Option<string>) returns (moved: bool)
      requires Valid() && |values| == |fieldStep|
      modifies fieldInvalid, showsRequired, stepHidden, this`progress, this`summaryGuest
      ensures moved <==> FirstIndexOf(stepNumbers, buttonStep).Some? &&
                         StepFilled(fieldStep, values, FirstIndexOf(stepNumbers, buttonStep).value)
      ensures FieldsChecked(buttonStep, values)
      ensures moved ==> Displayed(nextStep, guestName)
      ensures !moved ==> stepHidden[..] == old(stepHidden[..]) && progress == old(progress) && summaryGuest == old(summaryGuest)
    {
      var check := ValidateStep(buttonStep, values);
      moved := check == Checked(true);
      if moved {
        ShowBookingStep(nextStep, guestName);
      }
    }

    /** A previous button with `data-prev` = `prevStep`: no validation. */
    method Prev(prevStep: int, guestName: Option<string>)
      requires Valid()
      modifies stepHidden, this`progress, this`summaryGuest
      ensures Displayed(prevStep, guestName)
    {
      ShowBookingStep(prevStep, guestName);
    }
  }
}
