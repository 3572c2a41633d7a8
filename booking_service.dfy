/** BookingServiceImpl of the server module: creating a booking, the owner's
    decision, reading one booking, and the paged listings by booker and by owner. */
module BookingService {
  import opened Common
  import opened Entities
  import opened Repository

  /** The `state` query parameter of the listings; the six names the switch accepts. */
  function ParseState(s: string): (r: Option<State>)
    ensures r.Some? ==> StateName(r.value) == s
    ensures r.None? <==> s !in {"ALL", "CURRENT", "FUTURE", "PAST", "WAITING", "REJECTED"}
    ensures r != Some(WithStatus(Approved))
  {
    match s
    case "ALL" => Some(All)
    case "CURRENT" => Some(Current)
    case "FUTURE" => Some(Future)
    case "PAST" => Some(Past)
    case "WAITING" => Some(WithStatus(Waiting))
    case "REJECTED" => Some(WithStatus(Rejected))
    case _ => None
  }

  function StateName(q: State): string
  {
    match q
    case All => "ALL"
    case Current => "CURRENT"
    case Future => "FUTURE"
    case Past => "PAST"
    case WithStatus(Waiting) => "WAITING"
    case WithStatus(Approved) => "APPROVED"
    case WithStatus(Rejected) => "REJECTED"
  }

  /** Every state except APPROVED is reachable from its name. */
  lemma ParseStateName(q: State)
    requires q != WithStatus(Approved)
    ensures ParseState(StateName(q)) == Some(q)
  {
  }

  /** A booking as toBooking assembles it, before validation: start and end may be null. */
  datatype Draft = Draft(start: Option<int>, end: Option<int>, item: Item, bookerId: int)

  /** toBooking: the item must exist; the booker is looked up again by getUser. */
  function ToBooking(st: Store, dto: BookingDto, userId: int): (r: Result<Draft>)
    reads st
    ensures r.Ok? <==> dto.itemId in st.items && userId in st.users
    ensures r.Err? ==> r.error == NotFound
    ensures r.Ok? ==> r.value.item == st.items[dto.itemId] && r.value.bookerId == userId
    ensures r.Ok? ==> r.value.start == dto.start && r.value.end == dto.end
  {
    if dto.itemId !in st.items then Err(NotFound)
    else if userId !in st.users then Err(NotFound)
    else Ok(Draft(dto.start, dto.end, st.items[dto.itemId], userId))
  }

  /** validationCheck: the item is available, both instants are present, the
      start is strictly before the end and neither lies before `now`. */
  function ValidationCheck(d: Draft, now: int): (r: Outcome)
    ensures r == Pass <==> d.item.available && d.start.Some? && d.end.Some?
                           && now <= d.start.value < d.end.value
    ensures r != Pass ==> r == Fail(Validation)
  {
    if !d.item.available then Fail(Validation)
    else if d.start.None? || d.end.None?
         || d.start.value == d.end.value || d.end.value < d.start.value
         || d.start.value < now || d.end.value < now
    then Fail(Validation)
    else Pass
  }

  /** The guards of createBooking in their order, giving the booking to save. */
  function Admit(st: Store, dto: BookingDto, userId: int, now: int): (r: Result<Booking>)
    reads st
    requires st.Valid()
    ensures r.Ok? <==> userId in st.users && dto.itemId != userId && dto.itemId in st.items
                       && st.items[dto.itemId].available && dto.start.Some? && dto.end.Some?
                       && now <= dto.start.value < dto.end.value
    ensures r.Err? ==> (r.error == NotFound <==>
                          userId !in st.users || dto.itemId == userId || dto.itemId !in st.items)
    ensures r.Err? ==> r.error != Duplicate
    ensures r.Ok? ==> r.value.itemId == dto.itemId && r.value.bookerId == userId
                      && r.value.start == dto.start.value && r.value.end == dto.end.value
                      && r.value.status == Waiting
  {
    if userId !in st.users then Err(NotFound)
    else if dto.itemId == userId then Err(NotFound)
    else match ToBooking(st, dto, userId)
      case Err(e) => Err(e)
      case Ok(d) =>
        if ValidationCheck(d, now).Fail? then Err(Validation)
        else Ok(Booking(0, d.start.value, d.end.value, d.item.id, d.bookerId, Waiting))
  }

  /** createBooking: a booking that passes every guard is saved under a fresh id. */
  method CreateBooking(st: Store, dto: BookingDto, userId: int, now: int) returns (r: Result<Booking>)
    requires st.Valid()
    modifies st`bookings, st`nextBookingId
    ensures st.Valid()
    ensures old(Admit(st, dto, userId, now)).Err? ==>
              r == Err(old(Admit(st, dto, userId, now)).error) && st.bookings == old(st.bookings)
    ensures old(Admit(st, dto, userId, now)).Ok? ==>
              && r.Ok? && r.value == old(Admit(st, dto, userId, now)).value.(id := r.value.id)
              && r.value.id !in old(st.bookings)
              && st.bookings == old(st.bookings)[r.value.id := r.value]
  {
    var a := Admit(st, dto, userId, now);
    if a.Err? {
      return Err(a.error);
    }
    var saved := st.InsertBooking(a.value);
    r := Ok(saved);
  }

  /** The owner's decision on a booking whose item belongs to `ownerId`. */
  function Decide(b: Booking, ownerId: int, userId: int, approved: bool): (r: Result<Booking>)
    ensures ownerId != userId ==> r == Err(NotFound)
    ensures ownerId == userId && b.status == Approved ==> r == Err(Validation)
    ensures r.Ok? <==> ownerId == userId && b.status != Approved
    ensures r.Ok? ==> r.value == b.(status := if approved then Approved else Rejected)
  {
    if ownerId != userId then Err(NotFound)
    else if b.status == Approved then Err(Validation)
    else Ok(b.(status := if approved then Approved else Rejected))
  }

  /** An approval is final: a second decision on it is refused. */
  lemma ApprovalIsFinal(b: Booking, ownerId: int, first: bool, second: bool)
    requires Decide(b, ownerId, ownerId, first) == Ok(b.(status := Approved))
    ensures Decide(b.(status := Approved), ownerId, ownerId, second) == Err(Validation)
  {
  }

  /** A rejection is not final: the owner may decide again. */
  lemma RejectionCanBeRevised(b: Booking, ownerId: int, second: bool)
    ensures Decide(b.(status := Rejected), ownerId, ownerId, second).Ok?
  {
  }

  /** updateBookingStatus: only the booking's status changes, and only on success. */
  method UpdateBookingStatus(st: Store, userId: int, bookingId: int, approved: bool) returns (r: Result<Booking>)
    requires st.Valid()
    modifies st`bookings
    ensures st.Valid()
    ensures bookingId !in old(st.bookings) ==> r == Err(NotFound)
    ensures bookingId in old(st.bookings) ==>
              r == Decide(old(st.bookings[bookingId]), st.items[old(st.bookings[bookingId]).itemId].ownerId,
                          userId, approved)
    ensures r.Ok? ==> st.bookings == old(st.bookings)[bookingId := r.value]
    ensures r.Err? ==> st.bookings == old(st.bookings)
  {
    if bookingId !in st.bookings {
      return Err(NotFound);
    }
    var b := st.bookings[bookingId];
    r := Decide(b, st.items[b.itemId].ownerId, userId, approved);
    if r.Ok? {
      st.UpdateBooking(r.value);
    }
  }

  /** bookingUserCheck: the booking exists and the caller is its booker or its item's owner. */
  function BookingUserCheck(st: Store, userId: int, bookingId: int): (r: Outcome)
    reads st
    requires st.Valid()
    ensures r == Pass <==> bookingId in st.bookings
                           && (st.bookings[bookingId].bookerId == userId
                               || OwnedBy(st.items, st.bookings[bookingId], userId))
    ensures r != Pass ==> r == Fail(NotFound)
  {
    if bookingId !in st.bookings then Fail(NotFound)
    else
      var b := st.bookings[bookingId];
      if b.bookerId != userId && st.items[b.itemId].ownerId != userId then Fail(NotFound)
      else Pass
  }

  /** getBooking: visible to an existing user who is its booker or its item's owner. */
  function GetBooking(st: Store, userId: int, bookingId: int): (r: Result<Booking>)
    reads st
    requires st.Valid()
    ensures r.Ok? <==> userId in st.users && bookingId in st.bookings
                       && (st.bookings[bookingId].bookerId == userId
                           || OwnedBy(st.items, st.bookings[bookingId], userId))
    ensures r.Ok? ==> r.value == st.bookings[bookingId] && r.value.id == bookingId
    ensures r.Err? ==> r.error == NotFound
  {
    if userId !in st.users then Err(NotFound)
    else if BookingUserCheck(st, userId, bookingId).Fail? then Err(NotFound)
    else Ok(st.bookings[bookingId])
  }

  /** getBookings: page `from / size` of the caller's bookings in `state`, latest start first. */
  function GetBookings(st: Store, userId: int, state: string, from: int, size: int, now: int)
    : (r: Result<seq<Booking>>)
    reads st
    requires st.Valid()
    ensures from < 0 || size <= 0 ==> r == Err(Validation)
    ensures from >= 0 && size > 0 && userId !in st.users ==> r == Err(NotFound)
    ensures from >= 0 && size > 0 && userId in st.users && ParseState(state).None? ==> r == Err(Validation)
    ensures r.Ok? <==> from >= 0 && size > 0 && userId in st.users && ParseState(state).Some?
    ensures r.Ok? ==> && from >= 0 && size > 0 && ParseState(state).Some?
                      && r.value == Page(BookerBookings(st, userId, ParseState(state).value, now), from / size, size)
    ensures r.Ok? ==> |r.value| <= size && SortedDesc(r.value, StartOf)
    ensures r.Ok? ==> forall b | b in r.value ::
                        b in st.bookings.Values && b.bookerId == userId && Matches(b, ParseState(state).value, now)
  {
    if from < 0 then Err(Validation)
    else if size <= 0 then Err(Validation)
    else if userId !in st.users then Err(NotFound)
    else match ParseState(state)
      case None => Err(Validation)
      case Some(q) =>
        var all := BookerBookings(st, userId, q, now);
        PageOfSorted(all, from / size, size, StartOf);
        Ok(Page(all, from / size, size))
  }

  /** getBookingsOwner: the same listing over the bookings of the caller's items. */
  function GetBookingsOwner(st: Store, userId: int, state: string, from: int, size: int, now: int)
    : (r: Result<seq<Booking>>)
    reads st
    requires st.Valid()
    ensures from < 0 || size <= 0 ==> r == Err(Validation)
    ensures from >= 0 && size > 0 && userId !in st.users ==> r == Err(NotFound)
    ensures from >= 0 && size > 0 && userId in st.users && ParseState(state).None? ==> r == Err(Validation)
    ensures r.Ok? <==> from >= 0 && size > 0 && userId in st.users && ParseState(state).Some?
    ensures r.Ok? ==> && from >= 0 && size > 0 && ParseState(state).Some?
                      && r.value == Page(OwnerBookings(st, userId, ParseState(state).value, now), from / size, size)
    ensures r.Ok? ==> |r.value| <= size && SortedDesc(r.value, StartOf)
    ensures r.Ok? ==> forall b | b in r.value ::
                        b in st.bookings.Values && OwnedBy(st.items, b, userId) && Matches(b, ParseState(state).value, now)
  {
    if from < 0 then Err(Validation)
    else if size <= 0 then Err(Validation)
    else if userId !in st.users then Err(NotFound)
    else match ParseState(state)
      case None => Err(Validation)
      case Some(q) =>
        var all := OwnerBookings(st, userId, q, now);
        PageOfSorted(all, from / size, size, StartOf);
        Ok(Page(all, from / size, size))
  }
}
