/**
 * The booking ledger and the room filters of the booking views.
 *
 * The database is a `Hotel` object holding the room table and the booking
 * table. A room's id and a booking's id are their positions in those tables:
 * no modelled operation deletes a row (cancelling only changes a status), so
 * positions are stable. Request data arrives already parsed: dates as day
 * numbers, money in cents, and "today" as a parameter. The outcome of sending
 * the confirmation mail and of saving a row are input flags.
 */
module Views {
  import opened Text
  import opened Models
  import opened Forms

  /*** The overlap test ***/

  /**
   * The half-open overlap test shared by every view: an existing stay
   * [existingIn, existingOut) clashes with a requested one [checkIn, checkOut)
   * when it starts before the request ends and ends after the request starts.
   */
  predicate Overlaps(existingIn: int, existingOut: int, checkIn: int, checkOut: int) {
    existingIn < checkOut && existingOut > checkIn
  }

  lemma OverlapsSymmetric(aIn: int, aOut: int, bIn: int, bOut: int)
    ensures Overlaps(aIn, aOut, bIn, bOut) <==> Overlaps(bIn, bOut, aIn, aOut)
  {
  }

  /** Does booking `b` block the room `roomId` for [checkIn, checkOut)? Its status is not consulted. */
  predicate Blocks(b: Booking, roomId: nat, checkIn: int, checkOut: int) {
    b.roomId == roomId && Overlaps(b.checkIn, b.checkOut, checkIn, checkOut)
  }

  /**
   * `Booking.objects.filter(room, check_in < checkOut, check_out > checkIn)
   * [.exclude(id=...)].exists()`: some booking other than `exclude` blocks the stay.
   */
  function HasConflict(bookings: seq<Booking>, roomId: nat, checkIn: int, checkOut: int, exclude: Option<nat>): (r: bool)
    ensures r <==> exists i :: 0 <= i < |bookings| && Some(i) != exclude && Blocks(bookings[i], roomId, checkIn, checkOut)
  {
    if bookings == [] then false
    else
      var last := |bookings| - 1;
      var prefix := HasConflict(bookings[..last], roomId, checkIn, checkOut, exclude);
      assert forall i :: 0 <= i < last ==> bookings[..last][i] == bookings[i];
      prefix || (Some(last) != exclude && Blocks(bookings[last], roomId, checkIn, checkOut))
  }

  /** A stay that starts when every other stay of the room has ended, or ends when it begins, is free. */
  lemma BackToBackIsFree(bookings: seq<Booking>, roomId: nat, checkIn: int, checkOut: int)
    requires forall i :: 0 <= i < |bookings| && bookings[i].roomId == roomId ==>
               bookings[i].checkOut <= checkIn || bookings[i].checkIn >= checkOut
    ensures !HasConflict(bookings, roomId, checkIn, checkOut, None)
  {
  }

  /** A cancelled booking still blocks new bookings of its room. */
  lemma CancelledStillBlocks(bookings: seq<Booking>, i: nat, checkIn: int, checkOut: int)
    requires i < |bookings| && bookings[i].status == Cancelled
    requires Overlaps(bookings[i].checkIn, bookings[i].checkOut, checkIn, checkOut)
    ensures HasConflict(bookings, bookings[i].roomId, checkIn, checkOut, None)
  {
  }

  /** No two bookings of the same room overlap, whatever their statuses. */
  ghost predicate NoOverlap(bookings: seq<Booking>) {
    forall i, j :: 0 <= i < j < |bookings| && bookings[i].roomId == bookings[j].roomId ==>
      !Overlaps(bookings[i].checkIn, bookings[i].checkOut, bookings[j].checkIn, bookings[j].checkOut)
  }

  predicate IsActive(b: Booking) { b.status != Cancelled }

  /** No two active bookings of the same room overlap. */
  ghost predicate NoActiveOverlap(bookings: seq<Booking>) {
    forall i, j ::
      (0 <= i < j < |bookings| && IsActive(bookings[i]) && IsActive(bookings[j]) &&
       bookings[i].roomId == bookings[j].roomId) ==>
      !Overlaps(bookings[i].checkIn, bookings[i].checkOut, bookings[j].checkIn, bookings[j].checkOut)
  }

  lemma NoOverlapIsStronger(bookings: seq<Booking>)
    requires NoOverlap(bookings)
    ensures NoActiveOverlap(bookings)
  {
  }

  /** Appending a booking that the overlap test let through keeps the table overlap-free. */
  lemma {:induction false} AppendKeepsNoOverlap(bookings: seq<Booking>, b: Booking)
    requires NoOverlap(bookings)
    requires !HasConflict(bookings, b.roomId, b.checkIn, b.checkOut, None)
    ensures NoOverlap(bookings + [b])
  {
    var t := bookings + [b];
    forall i, j | 0 <= i < j < |t| && t[i].roomId == t[j].roomId
      ensures !Overlaps(t[i].checkIn, t[i].checkOut, t[j].checkIn, t[j].checkOut)
    {
      if j == |bookings| {
        assert !Blocks(bookings[i], b.roomId, b.checkIn, b.checkOut);
      } else {
        assert t[i] == bookings[i] && t[j] == bookings[j];
      }
    }
  }

  /** Replacing booking k by one that the edit's overlap test let through keeps the table overlap-free. */
  lemma {:induction false} ReplaceKeepsNoOverlap(bookings: seq<Booking>, k: nat, b: Booking)
    requires k < |bookings| && NoOverlap(bookings)
    requires !HasConflict(bookings, b.roomId, b.checkIn, b.checkOut, Some(k))
    ensures NoOverlap(bookings[k := b])
  {
    var t := bookings[k := b];
    forall i, j | 0 <= i < j < |t| && t[i].roomId == t[j].roomId
      ensures !Overlaps(t[i].checkIn, t[i].checkOut, t[j].checkIn, t[j].checkOut)
    {
      if i == k {
        assert !Blocks(bookings[j], b.roomId, b.checkIn, b.checkOut);
        OverlapsSymmetric(t[i].checkIn, t[i].checkOut, t[j].checkIn, t[j].checkOut);
      } else if j == k {
        assert !Blocks(bookings[i], b.roomId, b.checkIn, b.checkOut);
      }
    }
  }

  /** In an overlap-free table, a booking resubmitted with its own room and dates passes the edit's overlap test. */
  lemma {:induction false} ResubmittingOwnDatesIsFree(bookings: seq<Booking>, k: nat)
    requires k < |bookings| && NoOverlap(bookings)
    ensures !HasConflict(bookings, bookings[k].roomId, bookings[k].checkIn, bookings[k].checkOut, Some(k))
  {
    var b := bookings[k];
    forall i | 0 <= i < |bookings| && i != k
      ensures !Blocks(bookings[i], b.roomId, b.checkIn, b.checkOut)
    {
      if bookings[i].roomId == b.roomId {
        if i < k {
          assert !Overlaps(bookings[i].checkIn, bookings[i].checkOut, b.checkIn, b.checkOut);
        } else {
          assert !Overlaps(b.checkIn, b.checkOut, bookings[i].checkIn, bookings[i].checkOut);
          OverlapsSymmetric(b.checkIn, b.checkOut, bookings[i].checkIn, bookings[i].checkOut);
        }
      }
    }
  }

  /*** Prices ***/

  /** `room.price * (check_out - check_in).days`, in cents. */
  function StayPrice(pricePerNight: int, checkIn: int, checkOut: int): (total: int)
    ensures checkOut == checkIn + 1 ==> total == pricePerNight
    ensures checkOut == checkIn ==> total == 0
  {
    pricePerNight * (checkOut - checkIn)
  }

  /** One more night costs exactly one more nightly price. */
  lemma StayPriceAddsANight(pricePerNight: int, checkIn: int, checkOut: int)
    ensures StayPrice(pricePerNight, checkIn, checkOut + 1) == StayPrice(pricePerNight, checkIn, checkOut) + pricePerNight
  {
  }

  /*** Room filters ***/

  /** The ids below `n` that `keep` accepts, in increasing order. */
  function FilterIds(n: nat, keep: nat -> bool): (r: seq<nat>)
    ensures forall id: nat :: id in r <==> id < n && keep(id)
    ensures forall i, j :: 0 <= i < j < |r| ==> r[i] < r[j]
  {
    if n == 0 then []
    else
      var r := FilterIds(n - 1, keep);
      forall i | 0 <= i < |r|
        ensures r[i] < n - 1
      {
        assert r[i] in r;
      }
      if keep(n - 1) then r + [n - 1] else r
  }

  /**
   * A date GET parameter, told apart as the views' date parsers tell it
   * apart: missing from the query string, present but empty, present but
   * not in date form (`parse_date` gives None and `strptime` raises), in
   * date form but naming no day (both raise), or naming a day.
   */
  datatype DateParam = Absent | Blank | NotADate | NoSuchDay | OnDay(day: int)

  /** The parameter is a non-empty string: the `if check_in and check_out` test. */
  predicate Given(p: DateParam) { p != Absent && p != Blank }

  /**
   * `parse_date` raises on this parameter: on None (no parameter), and on a
   * date-shaped string that names no day.
   */
  predicate ParseDateRaises(p: DateParam) { p == Absent || p == NoSuchDay }

  /**
   * The GET parameters of the room-listing views; `None` stands for an
   * absent parameter. An empty room type is kept as `Some("")`.
   */
  datatype RoomQuery = RoomQuery(
    checkIn: DateParam,
    checkOut: DateParam,
    roomType: Option<string>,
    maxPrice: Option<int>,
    amenities: set<nat>)

  /** Both dates name a day: the only case in which the room-listing views filter by date. */
  predicate HasStay(q: RoomQuery) { q.checkIn.OnDay? && q.checkOut.OnDay? }

  /** What a view answers: a list of room ids, a redirect, or a server error (an uncaught exception). */
  datatype Response = Listed(ids: seq<nat>) | Redirected | ServerError

  /** A room type filters the rooms only when it is a non-empty string (`if room_type:`). */
  predicate TypeRequested(q: RoomQuery) { q.roomType.Some? && q.roomType.value != [] }

  /** The type and price parts of a query, shared by select_room and search_rooms. */
  predicate MatchesTypeAndPrice(room: Room, q: RoomQuery) {
    (TypeRequested(q) ==> room.roomType.Code() == q.roomType.value) &&
    (q.maxPrice.Some? ==> room.price <= q.maxPrice.value)
  }

  /** Some CONFIRMED booking of the room overlaps the stay: the only kind select_room excludes. */
  predicate HasConfirmedConflict(bookings: seq<Booking>, roomId: nat, checkIn: int, checkOut: int) {
    exists i :: 0 <= i < |bookings| && bookings[i].status == Confirmed && Blocks(bookings[i], roomId, checkIn, checkOut)
  }

  predicate SelectKeeps(rooms: seq<Room>, bookings: seq<Booking>, q: RoomQuery, id: nat) {
    id < |rooms| && rooms[id].available &&
    (HasStay(q) ==> !HasConfirmedConflict(bookings, id, q.checkIn.day, q.checkOut.day)) &&
    MatchesTypeAndPrice(rooms[id], q) &&
    (q.amenities != {} ==> rooms[id].amenities * q.amenities != {})
  }

  /**
   * select_room: when both dates are given, each is read with `strptime`,
   * which raises unless it names a day. The list holds the available rooms,
   * without those holding an overlapping CONFIRMED booking when both dates
   * name days, of the requested type, at most the maximum price, and with
   * at least one of the selected amenities.
   */
  function SelectRoom(rooms: seq<Room>, bookings: seq<Booking>, q: RoomQuery): (r: Response)
    ensures !r.Redirected?
    ensures r.ServerError? <==> Given(q.checkIn) && Given(q.checkOut) && !HasStay(q)
    ensures r.Listed? ==> forall id: nat :: id in r.ids ==> id < |rooms| && rooms[id].available
    ensures r.Listed? ==> forall id: nat :: id in r.ids && TypeRequested(q) ==> rooms[id].roomType.Code() == q.roomType.value
    ensures r.Listed? ==> forall id: nat :: id in r.ids && q.maxPrice.Some? ==> rooms[id].price <= q.maxPrice.value
    ensures r.Listed? ==> forall id: nat :: id < |rooms| ==> (id in r.ids <==> SelectKeeps(rooms, bookings, q, id))
  {
    if Given(q.checkIn) && Given(q.checkOut) && !HasStay(q) then ServerError
    else Listed(FilterIds(|rooms|, (id: nat) => SelectKeeps(rooms, bookings, q, id)))
  }

  predicate SearchKeeps(rooms: seq<Room>, bookings: seq<Booking>, q: RoomQuery, id: nat) {
    id < |rooms| && rooms[id].available &&
    (HasStay(q) ==> !HasConflict(bookings, id, q.checkIn.day, q.checkOut.day, None)) &&
    MatchesTypeAndPrice(rooms[id], q)
  }

  /**
   * search_rooms: like select_room, but any overlapping booking excludes a
   * room, whatever its status, and amenities are not filtered. The dates
   * go through `parse_date`: one naming no day raises there, and one not
   * in date form becomes None, which the overlap query refuses.
   */
  function SearchRooms(rooms: seq<Room>, bookings: seq<Booking>, q: RoomQuery): (r: Response)
    ensures !r.Redirected?
    ensures r.ServerError? <==> Given(q.checkIn) && Given(q.checkOut) && !HasStay(q)
    ensures r.Listed? ==> forall id: nat :: id in r.ids ==> id < |rooms| && rooms[id].available
    ensures r.Listed? ==> forall id: nat :: id in r.ids && TypeRequested(q) ==> rooms[id].roomType.Code() == q.roomType.value
    ensures r.Listed? ==> forall id: nat :: id in r.ids && q.maxPrice.Some? ==> rooms[id].price <= q.maxPrice.value
    ensures r.Listed? ==> forall id: nat :: id < |rooms| ==> (id in r.ids <==> SearchKeeps(rooms, bookings, q, id))
  {
    if Given(q.checkIn) && Given(q.checkOut) && !HasStay(q) then ServerError
    else Listed(FilterIds(|rooms|, (id: nat) => SearchKeeps(rooms, bookings, q, id)))
  }

  /**
   * check_availability: on a GET both dates go through `parse_date`, which
   * raises on a missing parameter and on a date-shaped string naming no
   * day; when both name days, the available rooms with no overlapping
   * booking of any status are listed; anything else redirects to the room
   * selection.
   */
  function CheckAvailability(rooms: seq<Room>, bookings: seq<Booking>, isGet: bool,
                             checkIn: DateParam, checkOut: DateParam): (r: Response)
    ensures r.ServerError? <==> isGet && (ParseDateRaises(checkIn) || ParseDateRaises(checkOut))
    ensures r.Listed? <==> isGet && checkIn.OnDay? && checkOut.OnDay?
    ensures r.Listed? ==> forall id: nat :: id < |rooms| ==>
              (id in r.ids <==> rooms[id].available && !HasConflict(bookings, id, checkIn.day, checkOut.day, None))
    ensures r.Listed? ==> forall id: nat :: id in r.ids ==> id < |rooms|
  {
    if !isGet then Redirected
    else if ParseDateRaises(checkIn) || ParseDateRaises(checkOut) then ServerError
    else if checkIn.OnDay? && checkOut.OnDay? then
      Listed(FilterIds(|rooms|, (id: nat) => id < |rooms| && rooms[id].available &&
                                     !HasConflict(bookings, id, checkIn.day, checkOut.day, None)))
    else Redirected
  }

  /** Two filters that agree on every id give the same list. */
  lemma {:induction false} FilterIdsAgree(n: nat, keep1: nat -> bool, keep2: nat -> bool)
    requires forall id: nat :: id < n ==> keep1(id) == keep2(id)
    ensures FilterIds(n, keep1) == FilterIds(n, keep2)
  {
    if n > 0 {
      FilterIdsAgree(n - 1, keep1, keep2);
    }
  }

  /**
   * Only CONFIRMED bookings matter to select_room: deleting a booking of any
   * other status from the table does not change the rooms it lists.
   */
  lemma SelectIgnoresUnconfirmed(rooms: seq<Room>, bookings: seq<Booking>, q: RoomQuery, k: nat)
    requires k < |bookings| && bookings[k].status != Confirmed
    ensures SelectRoom(rooms, bookings, q) == SelectRoom(rooms, bookings[..k] + bookings[k + 1..], q)
  {
    var rest := bookings[..k] + bookings[k + 1..];
    forall id: nat, checkIn: int, checkOut: int
      ensures HasConfirmedConflict(bookings, id, checkIn, checkOut) == HasConfirmedConflict(rest, id, checkIn, checkOut)
    {
      if HasConfirmedConflict(bookings, id, checkIn, checkOut) {
        var i :| 0 <= i < |bookings| && bookings[i].status == Confirmed && Blocks(bookings[i], id, checkIn, checkOut);
        if i < k { assert rest[i] == bookings[i]; } else { assert rest[i - 1] == bookings[i]; }
      }
      if HasConfirmedConflict(rest, id, checkIn, checkOut) {
        var i :| 0 <= i < |rest| && rest[i].status == Confirmed && Blocks(rest[i], id, checkIn, checkOut);
        if i < k { assert rest[i] == bookings[i]; } else { assert rest[i] == bookings[i + 1]; }
      }
    }
    FilterIdsAgree(|rooms|, (id: nat) => SelectKeeps(rooms, bookings, q, id), (id: nat) => SelectKeeps(rooms, rest, q, id));
  }

  /** search_rooms, unlike select_room, hides a room behind an overlapping cancelled booking. */
  lemma SearchHonoursCancelled(rooms: seq<Room>, bookings: seq<Booking>, q: RoomQuery, k: nat)
    requires k < |bookings| && bookings[k].status == Cancelled
    requires HasStay(q)
    requires Overlaps(bookings[k].checkIn, bookings[k].checkOut, q.checkIn.day, q.checkOut.day)
    ensures SearchRooms(rooms, bookings, q).Listed?
    ensures bookings[k].roomId !in SearchRooms(rooms, bookings, q).ids
  {
    assert HasConflict(bookings, bookings[k].roomId, q.checkIn.day, q.checkOut.day, None);
  }

  /*** The ledger ***/

  /** The Django form validation of a booking: the field checks, the two required dates and `clean`. */
  predicate BookingFormValid(form: BookingFormData, fieldsValid: bool, today: int) {
    fieldsValid && form.checkIn.Some? && form.checkOut.Some? && Clean(form, today).Cleaned?
  }

  datatype BookOutcome =
    | RoomNotFound
    | RoomNotAvailable       // "This room is currently not available for booking."
    | DatesNotSelected       // "Please select check-in and check-out dates first."
    | BookingFormShown       // a GET: the form is rendered
    | BookingFormInvalid     // "Form is invalid. ..."
    | DatesTaken             // "The room is not available for the selected dates"
    | SaveFailed             // "An error occurred while saving the booking: ..."
    | Booked(id: nat, mailFailed: bool)

  datatype EditOutcome = BookingNotFound | EditFormShown | EditFormInvalid | EditDatesTaken | Updated

  datatype CancelOutcome = CancelNotFound | NotPosted | CancelledOk | TooLateToCancel

  /** The database: the room table and the booking table. */
  class Hotel {
    var rooms: seq<Room>
    var bookings: seq<Booking>

    /** Every booking refers to an existing room (the foreign key). */
    ghost predicate Valid()
      reads this
    {
      forall i :: 0 <= i < |bookings| ==> bookings[i].roomId < |rooms|
    }

    constructor (rooms: seq<Room>)
      ensures Valid() && this.rooms == rooms && bookings == []
    {
      this.rooms := rooms;
      bookings := [];
    }

    /**
     * book_room for the logged-in user `userId`. The session dates only gate
     * the request; the stay booked is the one posted in the form.
     */
    method BookRoom(roomId: nat, userId: nat, sessionCheckIn: string, sessionCheckOut: string,
                    isPost: bool, form: BookingFormData, fieldsValid: bool, today: int,
                    saveOk: bool, mailSent: bool) returns (outcome: BookOutcome)
      requires Valid()
      modifies this
      ensures Valid() && rooms == old(rooms)
      ensures roomId >= |rooms| ==> outcome == RoomNotFound
      ensures roomId < |rooms| && !rooms[roomId].available ==> outcome == RoomNotAvailable
      ensures roomId < |rooms| && rooms[roomId].available && (sessionCheckIn == "" || sessionCheckOut == "") ==>
                outcome == DatesNotSelected
      ensures outcome.Booked? <==>
                roomId < |rooms| && rooms[roomId].available && sessionCheckIn != "" && sessionCheckOut != "" &&
                isPost && BookingFormValid(form, fieldsValid, today) &&
                !HasConflict(old(bookings), roomId, form.checkIn.value, form.checkOut.value, None) && saveOk
      ensures outcome == DatesTaken <==>
                roomId < |rooms| && rooms[roomId].available && sessionCheckIn != "" && sessionCheckOut != "" &&
                isPost && BookingFormValid(form, fieldsValid, today) &&
                HasConflict(old(bookings), roomId, form.checkIn.value, form.checkOut.value, None)
      ensures !outcome.Booked? ==> bookings == old(bookings)
      ensures outcome.Booked? ==>
                outcome.id == |old(bookings)| && outcome.mailFailed == !mailSent &&
                bookings == old(bookings) + [Booking(Some(userId), roomId, form.guestName, form.email, form.phoneNumber,
                                                     form.checkIn.value, form.checkOut.value,
                                                     StayPrice(rooms[roomId].price, form.checkIn.value, form.checkOut.value),
                                                     Confirmed)]
      ensures NoOverlap(old(bookings)) ==> NoOverlap(bookings)
    {
      if roomId >= |rooms| {
        return RoomNotFound;
      }
      var room := rooms[roomId];
      if !room.available {
        return RoomNotAvailable;
      }
      if sessionCheckIn == "" || sessionCheckOut == "" {
        return DatesNotSelected;
      }
      if !isPost {
        return BookingFormShown;
      }
      if !BookingFormValid(form, fieldsValid, today) {
        return BookingFormInvalid;
      }
      var checkIn, checkOut := form.checkIn.value, form.checkOut.value;
      var booking := NewBooking(Some(userId), roomId, form.guestName, form.email, checkIn, checkOut, 0);
      booking := booking.(phoneNumber := form.phoneNumber);
      booking := booking.(totalPrice := StayPrice(room.price, checkIn, checkOut));
      booking := booking.(status := Confirmed);
      if HasConflict(bookings, roomId, checkIn, checkOut, None) {
        return DatesTaken;
      }
      if !saveOk {
        return SaveFailed;
      }
      if NoOverlap(bookings) {
        AppendKeepsNoOverlap(bookings, booking);
      }
      bookings := bookings + [booking];
      // A failed confirmation mail only adds a warning: the booking stays saved.
      outcome := Booked(|bookings| - 1, !mailSent);
    }

    /**
     * edit_booking by the logged-in user `userId`. The edit form's cleaned
     * dates and status arrive as parameters, with `formValid` for its verdict.
     */
    method EditBooking(bookingId: nat, userId: nat, isPost: bool, formValid: bool,
                       checkIn: int, checkOut: int, status: BookingStatus) returns (outcome: EditOutcome)
      requires Valid()
      modifies this
      ensures Valid() && rooms == old(rooms) && |bookings| == |old(bookings)|
      ensures outcome == BookingNotFound <==>
                bookingId >= |old(bookings)| || old(bookings)[bookingId].user != Some(userId)
      ensures outcome == Updated <==>
                bookingId < |old(bookings)| && old(bookings)[bookingId].user == Some(userId) && isPost && formValid &&
                !HasConflict(old(bookings), old(bookings)[bookingId].roomId, checkIn, checkOut, Some(bookingId))
      ensures outcome != Updated ==> bookings == old(bookings)
      ensures outcome == Updated ==>
                bookings == old(bookings)[bookingId := old(bookings)[bookingId].(
                  checkIn := checkIn, checkOut := checkOut, status := status,
                  totalPrice := StayPrice(rooms[old(bookings)[bookingId].roomId].price, checkIn, checkOut))]
      ensures NoOverlap(old(bookings)) ==> NoOverlap(bookings)
    {
      if bookingId >= |bookings| || bookings[bookingId].user != Some(userId) {
        return BookingNotFound;
      }
      if !isPost {
        return EditFormShown;
      }
      if !formValid {
        return EditFormInvalid;
      }
      var booking := bookings[bookingId];
      if HasConflict(bookings, booking.roomId, checkIn, checkOut, Some(bookingId)) {
        return EditDatesTaken;
      }
      booking := booking.(checkIn := checkIn, checkOut := checkOut, status := status);
      booking := booking.(totalPrice := StayPrice(rooms[booking.roomId].price, checkIn, checkOut));
      if NoOverlap(bookings) {
        ReplaceKeepsNoOverlap(bookings, bookingId, booking);
      }
      bookings := bookings[bookingId := booking];
      outcome := Updated;
    }

    /**
     * cancel_booking by the logged-in user `userId`: on a POST, the booking is
     * marked CANCELLED when its check-in is later than tomorrow. The row is kept.
     */
    method CancelBooking(bookingId: nat, userId: nat, isPost: bool, today: int) returns (outcome: CancelOutcome)
      requires Valid()
      modifies this
      ensures Valid() && rooms == old(rooms) && |bookings| == |old(bookings)|
      ensures outcome == CancelNotFound <==>
                bookingId >= |old(bookings)| || old(bookings)[bookingId].user != Some(userId)
      ensures outcome == CancelledOk <==>
                bookingId < |old(bookings)| && old(bookings)[bookingId].user == Some(userId) &&
                isPost && old(bookings)[bookingId].checkIn > today + 1
      ensures outcome == TooLateToCancel <==>
                bookingId < |old(bookings)| && old(bookings)[bookingId].user == Some(userId) &&
                isPost && old(bookings)[bookingId].checkIn <= today + 1
      ensures outcome != CancelledOk ==> bookings == old(bookings)
      ensures outcome == CancelledOk ==>
                bookings == old(bookings)[bookingId := old(bookings)[bookingId].(status := Cancelled)]
      ensures NoOverlap(old(bookings)) ==> NoOverlap(bookings)
    {
      if bookingId >= |bookings| || bookings[bookingId].user != Some(userId) {
        return CancelNotFound;
      }
      if !isPost {
        return NotPosted;
      }
      var tomorrow := today + 1;
      if bookings[bookingId].checkIn > tomorrow {
        bookings := bookings[bookingId := bookings[bookingId].(status := Cancelled)];
        outcome := CancelledOk;
      } else {
        outcome := TooLateToCancel;
      }
    }
  }
}
