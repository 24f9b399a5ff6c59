/**
 * The booking form's cross-field rule (BookingForm.clean): check-out must
 * come after check-in, and check-in must not lie before today. "Today" is a
 * parameter. A date that is absent (missing, or rejected by its own field)
 * switches the rule off.
 */
module Forms {
  import opened Text

  /** The booking form's cleaned data: its five fields, dates as day numbers. */
  datatype BookingFormData = BookingFormData(
    guestName: string,
    email: string,
    phoneNumber: Option<string>,
    checkIn: Option<int>,
    checkOut: Option<int>)

  datatype DateError = CheckOutNotAfterCheckIn | CheckInInPast {
    function Message(): string {
      match this
      case CheckOutNotAfterCheckIn => "Check-out date must be after check-in date"
      case CheckInInPast => "Check-in date cannot be in the past"
    }
  }

  datatype CleanResult = Cleaned(data: BookingFormData) | Rejected(error: DateError)

  /**
   * BookingForm.clean. The ordering error is raised first, so it wins over
   * the past-date error; on success the data comes back unchanged.
   */
  function Clean(data: BookingFormData, today: int): (r: CleanResult)
    ensures r.Cleaned? ==> r.data == data
    ensures data.checkIn.None? || data.checkOut.None? ==> r.Cleaned?
    ensures data.checkIn.Some? && data.checkOut.Some? ==>
              (r.Cleaned? <==> data.checkIn.value < data.checkOut.value && data.checkIn.value >= today)
    ensures r == Rejected(CheckOutNotAfterCheckIn) <==>
              data.checkIn.Some? && data.checkOut.Some? && data.checkIn.value >= data.checkOut.value
    ensures r == Rejected(CheckInInPast) <==>
              data.checkIn.Some? && data.checkOut.Some? &&
              data.checkIn.value < data.checkOut.value && data.checkIn.value < today
  {
    match (data.checkIn, data.checkOut)
    case (Some(checkIn), Some(checkOut)) =>
      if checkIn >= checkOut then Rejected(CheckOutNotAfterCheckIn)
      else if checkIn < today then Rejected(CheckInInPast)
      else Cleaned(data)
    case _ => Cleaned(data)
  }
}
