/**
 * The persistent entities of the hotel: users, profiles, amenities, rooms,
 * room images and bookings, with their enumerated field domains, their
 * defaults and their string forms.
 *
 * Dates are day numbers. Money is an integer number of cents: the decimal
 * fields have two decimal places and at most ten digits, so every stored
 * amount is a whole number of cents below 10^10 in magnitude.
 */
module Models {
  import opened Text

  /** Room.ROOM_TYPES. */
  datatype RoomType = Standard | Deluxe | Suite {
    /** The stored value (a CharField of at most three characters). */
    function Code(): (c: string)
      ensures |c| == 3
    {
      match this
      case Standard => "STD"
      case Deluxe => "DLX"
      case Suite => "SUI"
    }

    /** The human-readable label of the choice. */
    function Label(): string {
      match this
      case Standard => "Standard"
      case Deluxe => "Deluxe"
      case Suite => "Suite"
    }
  }

  /** Reads a stored room-type value back; anything outside the choices is rejected. */
  function ParseRoomType(code: string): (r: Option<RoomType>)
    ensures r.Some? ==> r.value.Code() == code
  {
    if code == "STD" then Some(Standard)
    else if code == "DLX" then Some(Deluxe)
    else if code == "SUI" then Some(Suite)
    else None
  }

  lemma RoomTypeCodeRoundTrip(t: RoomType, code: string)
    ensures ParseRoomType(code) == Some(t) <==> code == t.Code()
  {
    if code == t.Code() {
      match t
      case Standard =>
      case Deluxe => assert code != "STD";
      case Suite => assert code != "STD" && code != "DLX";
    }
  }

  /** Booking.STATUS_CHOICES. */
  datatype BookingStatus = Pending | Confirmed | Cancelled {
    /** The stored value (a CharField of at most ten characters). */
    function Code(): (c: string)
      ensures 0 < |c| <= 10
    {
      match this
      case Pending => "PENDING"
      case Confirmed => "CONFIRMED"
      case Cancelled => "CANCELLED"
    }

    function Label(): string {
      match this
      case Pending => "Pending"
      case Confirmed => "Confirmed"
      case Cancelled => "Cancelled"
    }
  }

  /** The status a booking has when none is given. */
  const DefaultStatus: BookingStatus := Pending

  function ParseStatus(code: string): (r: Option<BookingStatus>)
    ensures r.Some? ==> r.value.Code() == code
  {
    if code == "PENDING" then Some(Pending)
    else if code == "CONFIRMED" then Some(Confirmed)
    else if code == "CANCELLED" then Some(Cancelled)
    else None
  }

  lemma StatusCodeRoundTrip(s: BookingStatus, code: string)
    ensures ParseStatus(code) == Some(s) <==> code == s.Code()
  {
    if code == s.Code() {
      match s
      case Pending =>
      case Confirmed => assert code != "PENDING";
      case Cancelled => assert code != "PENDING" && code != "CONFIRMED";
    }
  }

  /** Exclusive bound on the magnitude of a DecimalField(max_digits=10, decimal_places=2), in cents. */
  const MoneyLimit: int := 10_000_000_000

  predicate FitsMoney(cents: int) { -MoneyLimit < cents < MoneyLimit }

  datatype User = User(email: string, username: string, isStaff: bool, isSuperuser: bool)

  /** A user is shown by its email, which is also its login name. */
  function UserStr(u: User): string {
    u.email
  }

  datatype Profile = Profile(user: User, phoneNumber: Option<string>, address: Option<string>, dateOfBirth: Option<int>)

  function ProfileStr(p: Profile): (s: string)
    ensures |s| == |p.user.username| + 10
    ensures s[..|p.user.username|] == p.user.username
    ensures s[|p.user.username|..] == "'s profile"
  {
    p.user.username + "'s profile"
  }

  datatype Amenity = Amenity(name: string)

  /** An amenity is shown by its name. */
  function AmenityStr(a: Amenity): string {
    a.name
  }

  /** A room; `amenities` holds the ids of its amenities (a many-to-many relation). */
  datatype Room = Room(
    name: string,
    description: string,
    roomType: RoomType,
    price: int,
    available: bool,
    amenities: set<nat>,
    maxOccupancy: int,
    size: int)

  /** A room created with only the required fields: the field defaults apply. */
  function NewRoom(name: string, description: string, roomType: RoomType, price: int): (r: Room)
    ensures r.available && r.maxOccupancy == 2 && r.size == 0 && r.amenities == {}
    ensures r.name == name && r.description == description && r.roomType == roomType && r.price == price
  {
    Room(name, description, roomType, price, true, {}, 2, 0)
  }

  /** A room is shown by its name. */
  function RoomStr(r: Room): string {
    r.name
  }

  function RoomImageStr(room: Room): (s: string)
    ensures |s| == 10 + |room.name|
    ensures s[..10] == "Image for " && s[10..] == room.name
  {
    "Image for " + room.name
  }

  /**
   * A booking. `roomId` refers to a room; `user` is the owning user's id, if any.
   * Nothing here orders `checkIn` and `checkOut`: that rule belongs to the booking form.
   */
  datatype Booking = Booking(
    user: Option<nat>,
    roomId: nat,
    guestName: string,
    email: string,
    phoneNumber: Option<string>,
    checkIn: int,
    checkOut: int,
    totalPrice: int,
    status: BookingStatus)

  function NewBooking(user: Option<nat>, roomId: nat, guestName: string, email: string,
                      checkIn: int, checkOut: int, totalPrice: int): (b: Booking)
    ensures b.status == DefaultStatus == Pending
    ensures b.phoneNumber == None
    ensures b.user == user && b.roomId == roomId && b.guestName == guestName && b.email == email
    ensures b.checkIn == checkIn && b.checkOut == checkOut && b.totalPrice == totalPrice
  {
    Booking(user, roomId, guestName, email, None, checkIn, checkOut, totalPrice, DefaultStatus)
  }

  /** "Booking for {room name} by {guest name}". */
  function BookingStr(roomName: string, guestName: string): (s: string)
    ensures |s| == 16 + |roomName| + |guestName|
    ensures s[..12] == "Booking for "
    ensures s[12..12 + |roomName|] == roomName
    ensures s[12 + |roomName|..16 + |roomName|] == " by "
    ensures s[|s| - |guestName|..] == guestName
  {
    "Booking for " + roomName + " by " + guestName
  }

  /** For a given room, the string form tells guests apart. */
  lemma BookingStrInjective(roomName: string, g1: string, g2: string)
    requires BookingStr(roomName, g1) == BookingStr(roomName, g2)
    ensures g1 == g2
  {
    var s := BookingStr(roomName, g1);
    assert g1 == s[16 + |roomName|..];
  }
}
