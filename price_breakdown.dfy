/**
 * The price breakdown of the site-wide script (`Hotel.booking.init`): once
 * both dates are chosen it shows the number of nights and their total, or,
 * for a stay of no nights, hides the breakdown and shows the base price.
 *
 * Dates are day numbers and prices cents; "today" is a parameter. The date
 * inputs hold ISO 8601 strings, and the check-in handler compares them as
 * strings: `IsoOrderIsDateOrder` shows that for four-digit years this is
 * the calendar order, which is why the model compares day numbers.
 */
module PriceBreakdown {
  import opened Text
  import MainPage

  /** Two `a-b-c` strings whose first two parts have matching lengths compare part by part. */
  lemma DashedOrder(a1: string, b1: string, c1: string, a2: string, b2: string, c2: string)
    requires |a1| == |a2| && |b1| == |b2|
    ensures StringLess(a1 + "-" + b1 + "-" + c1, a2 + "-" + b2 + "-" + c2) ==
              if a1 != a2 then StringLess(a1, a2) else if b1 != b2 then StringLess(b1, b2) else StringLess(c1, c2)
  {
    assert a1 + "-" + b1 + "-" + c1 == a1 + ("-" + (b1 + ("-" + c1)));
    assert a2 + "-" + b2 + "-" + c2 == a2 + ("-" + (b2 + ("-" + c2)));
    StringLessAppend(a1, a2, "-" + (b1 + ("-" + c1)), "-" + (b2 + ("-" + c2)));
    StringLessAppend("-", "-", b1 + ("-" + c1), b2 + ("-" + c2));
    StringLessAppend(b1, b2, "-" + c1, "-" + c2);
    StringLessAppend("-", "-", c1, c2);
  }

  /**
   * For four-digit years, JavaScript's string `<` on two `yyyy-mm-dd`
   * strings is the order of (year, month, day).
   */
  lemma IsoOrderIsDateOrder(y1: int, m1: int, d1: int, y2: int, m2: int, d2: int)
    requires 1000 <= y1 <= 9999 && 0 <= m1 < 12 && 1 <= d1 <= 31
    requires 1000 <= y2 <= 9999 && 0 <= m2 < 12 && 1 <= d2 <= 31
    ensures StringLess(MainPage.FormatDate(y1, m1, d1), MainPage.FormatDate(y2, m2, d2)) <==>
              y1 < y2 || (y1 == y2 && (m1 < m2 || (m1 == m2 && d1 < d2)))
  {
    var y1s, m1s, d1s := ShowNat(y1), Pad2(m1 + 1), Pad2(d1);
    var y2s, m2s, d2s := ShowNat(y2), Pad2(m2 + 1), Pad2(d2);
    assert MainPage.FormatDate(y1, m1, d1) == y1s + "-" + m1s + "-" + d1s;
    assert MainPage.FormatDate(y2, m2, d2) == y2s + "-" + m2s + "-" + d2s;
    ShowNatFourDigits(y1);
    ShowNatFourDigits(y2);
    DashedOrder(y1s, m1s, d1s, y2s, m2s, d2s);
    ParseShowNat(y1);
    ParseShowNat(y2);
    DigitsOrder(y1s, y2s);
    DigitsOrder(m1s, m2s);
    DigitsOrder(d1s, d2s);
  }

  /**
   * The booking widget. `containerClasses` is the class list of the
   * nights row, `nightsText` and `totalText` what the number-of-nights and
   * total elements show (None as served). `listening` says whether the
   * change handlers are attached. `checkIn` and `checkOut` are the date
   * inputs' values, which the browser writes before `change` fires.
   */
  class Booking {
    const hasBasePrice: bool
    const basePrice: int
    const hasDateInputs: bool
    var listening: bool
    var checkIn: Option<int>
    var checkOut: Option<int>
    var checkInMin: Option<int>
    var checkOutMin: Option<int>
    var containerClasses: set<string>
    var nightsText: Option<int>
    var totalText: Option<int>

    /** The page as served, before the script runs, its date inputs holding `servedCheckIn` and `servedCheckOut`. */
    constructor(hasBasePrice: bool, basePrice: int, hasDateInputs: bool, containerClasses: set<string>,
                servedCheckIn: Option<int>, servedCheckOut: Option<int>)
      ensures this.hasBasePrice == hasBasePrice && this.basePrice == basePrice && this.hasDateInputs == hasDateInputs
      ensures !listening && checkIn == servedCheckIn && checkOut == servedCheckOut && checkInMin == None && checkOutMin == None
      ensures this.containerClasses == containerClasses && nightsText == None && totalText == None
    {
      this.hasBasePrice, this.basePrice, this.hasDateInputs := hasBasePrice, basePrice, hasDateInputs;
      listening := false;
      checkIn, checkOut, checkInMin, checkOutMin := servedCheckIn, servedCheckOut, None, None;
      this.containerClasses := containerClasses;
      nightsText, totalText := None, None;
    }

    /**
     * `init`: without the base-price element it stops at once; otherwise,
     * when both date inputs exist, check-in may start today and the change
     * handlers are attached.
     */
    method Init(today: int)
      modifies this`listening, this`checkInMin
      ensures !hasBasePrice ==> listening == old(listening) && checkInMin == old(checkInMin)
      ensures hasBasePrice && hasDateInputs ==> listening && checkInMin == Some(today)
      ensures hasBasePrice && !hasDateInputs ==> listening == old(listening) && checkInMin == old(checkInMin)
    {
      if !hasBasePrice {
        return;
      }
      if hasDateInputs {
        checkInMin := Some(today);
        listening := true;
      }
    }

    /**
     * The breakdown as updatePriceBreakdown leaves it over the current
     * dates: with both dates chosen, a stay of at least one night shows the
     * row with the nights and their total, any other stay hides it and
     * shows the base price, the nights text then left alone; with a date
     * missing nothing changes. Classes other than `d-none` and `d-flex`
     * stay.
     */
    twostate predicate BreakdownRefreshed()
      reads this
    {
      (checkIn.None? || checkOut.None? ==>
         containerClasses == old(containerClasses) && nightsText == old(nightsText) && totalText == old(totalText)) &&
      (checkIn.Some? && checkOut.Some? && checkOut.value - checkIn.value > 0 ==>
         "d-flex" in containerClasses && "d-none" !in containerClasses &&
         nightsText == Some(checkOut.value - checkIn.value) &&
         totalText == Some((checkOut.value - checkIn.value) * basePrice)) &&
      (checkIn.Some? && checkOut.Some? && checkOut.value - checkIn.value <= 0 ==>
         "d-none" in containerClasses && "d-flex" !in containerClasses &&
         nightsText == old(nightsText) && totalText == Some(basePrice)) &&
      containerClasses - {"d-none", "d-flex"} == old(containerClasses) - {"d-none", "d-flex"}
    }

    /** updatePriceBreakdown: the breakdown is refreshed as `BreakdownRefreshed` says. */
    method UpdatePriceBreakdown()
      modifies this`containerClasses, this`nightsText, this`totalText
      ensures BreakdownRefreshed()
    {
      if checkIn.Some? && checkOut.Some? {
        var nights := checkOut.value - checkIn.value;
        if nights > 0 {
          containerClasses := containerClasses - {"d-none"} + {"d-flex"};
          nightsText := Some(nights);
          totalText := Some(nights * basePrice);
        } else {
          containerClasses := containerClasses + {"d-none"} - {"d-flex"};
          totalText := Some(basePrice);
        }
      }
    }

    /**
     * The check-in change handler: check-out may start on the check-in day,
     * an earlier check-out is moved to that day, and the breakdown is
     * refreshed. Without attached handlers the change does nothing.
     */
    method OnCheckInChange()
      modifies this`checkOutMin, this`checkOut, this`containerClasses, this`nightsText, this`totalText
      ensures !listening ==>
                checkOutMin == old(checkOutMin) && checkOut == old(checkOut) &&
                containerClasses == old(containerClasses) && nightsText == old(nightsText) && totalText == old(totalText)
      ensures listening ==> checkOutMin == checkIn && BreakdownRefreshed()
      ensures listening ==> checkOut == if checkIn.Some? && old(checkOut).Some? && old(checkOut).value < checkIn.value
                                        then checkIn else old(checkOut)
      ensures listening && checkIn.Some? && checkOut.Some? ==>
                checkIn.value <= checkOut.value &&
                ("d-flex" in containerClasses <==> checkIn.value < checkOut.value) &&
                totalText == Some(if checkIn.value < checkOut.value then (checkOut.value - checkIn.value) * basePrice else basePrice)
    {
      if !listening {
        return;
      }
      checkOutMin := checkIn;
      if checkOut.Some? && checkIn.Some? && checkOut.value < checkIn.value {
        checkOut := checkIn;
      }
      UpdatePriceBreakdown();
    }

    /** The check-out change handler: only the breakdown is refreshed. */
    method OnCheckOutChange()
      modifies this`containerClasses, this`nightsText, this`totalText
      ensures listening ==> BreakdownRefreshed()
      ensures !listening ==>
                containerClasses == old(containerClasses) && nightsText == old(nightsText) && totalText == old(totalText)
      ensures listening && checkIn.Some? && checkOut.Some? ==>
                ("d-flex" in containerClasses <==> checkIn.value < checkOut.value) &&
                totalText == Some(if checkIn.value < checkOut.value then (checkOut.value - checkIn.value) * basePrice else basePrice)
    {
      if listening {
        UpdatePriceBreakdown();
      }
    }
  }
}
