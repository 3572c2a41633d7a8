/** BookingServiceImpl of the single-module version: the same operations, but the
    listings return every matching booking and the user is checked by checkUser.
    Creating, deciding and reading one booking behave as BookingService models them. */
module BookingServiceUnpaged {
  import opened Common
  import opened Entities
  import opened Repository
  import BookingService

  /** checkUser: the user must exist. */
  function CheckUser(st: Store, userId: int): (r: Outcome)
    reads st
    ensures r == Pass <==> userId in st.users
    ensures r != Pass ==> r == Fail(NotFound)
  {
    if userId !in st.users then Fail(NotFound) else Pass
  }

  /** getBookings(userId, state): all of the caller's bookings in `state`, latest start first. */
  function GetBookings(st: Store, userId: int, state: string, now: int): (r: Result<seq<Booking>>)
    reads st
    requires st.Valid()
    ensures userId !in st.users ==> r == Err(NotFound)
    ensures userId in st.users && BookingService.ParseState(state).None? ==> r == Err(Validation)
    ensures r.Ok? <==> userId in st.users && BookingService.ParseState(state).Some?
    ensures r.Ok? ==> BookingService.ParseState(state).Some?
    ensures r.Ok? ==> forall b | b in st.bookings.Values ::
                        (b in r.value <==> b.bookerId == userId && Matches(b, BookingService.ParseState(state).value, now))
    ensures r.Ok? ==> SortedDesc(r.value, StartOf)
  {
    if CheckUser(st, userId).Fail? then Err(NotFound)
    else match BookingService.ParseState(state)
      case None => Err(Validation)
      case Some(q) => Ok(BookerBookings(st, userId, q, now))
  }

  /** getBookingsOwner(userId, state): all bookings of the caller's items in `state`. */
  function GetBookingsOwner(st: Store, userId: int, state: string, now: int): (r: Result<seq<Booking>>)
    reads st
    requires st.Valid()
    ensures userId !in st.users ==> r == Err(NotFound)
    ensures userId in st.users && BookingService.ParseState(state).None? ==> r == Err(Validation)
    ensures r.Ok? <==> userId in st.users && BookingService.ParseState(state).Some?
    ensures r.Ok? ==> BookingService.ParseState(state).Some?
    ensures r.Ok? ==> forall b | b in st.bookings.Values ::
                        (b in r.value <==> OwnedBy(st.items, b, userId) && Matches(b, BookingService.ParseState(state).value, now))
    ensures r.Ok? ==> SortedDesc(r.value, StartOf)
  {
    if CheckUser(st, userId).Fail? then Err(NotFound)
    else match BookingService.ParseState(state)
      case None => Err(Validation)
      case Some(q) => Ok(OwnerBookings(st, userId, q, now))
  }

  /** The first page of a paged listing, when the page holds every match, is the
      unpaged listing; errors agree as well. */
  lemma {:induction false} FirstPageIsWholeListing(st: Store, userId: int, state: string, size: int, now: int)
    requires st.Valid()
    requires size > 0
    requires GetBookings(st, userId, state, now).Ok? ==> size >= |GetBookings(st, userId, state, now).value|
    ensures BookingService.GetBookings(st, userId, state, 0, size, now) == GetBookings(st, userId, state, now)
  {
    var whole := GetBookings(st, userId, state, now);
    if whole.Ok? {
      PageWhole(whole.value, size);
    }
  }

  lemma {:induction false} FirstOwnerPageIsWholeListing(st: Store, userId: int, state: string, size: int, now: int)
    requires st.Valid()
    requires size > 0
    requires GetBookingsOwner(st, userId, state, now).Ok? ==> size >= |GetBookingsOwner(st, userId, state, now).value|
    ensures BookingService.GetBookingsOwner(st, userId, state, 0, size, now) == GetBookingsOwner(st, userId, state, now)
  {
    var whole := GetBookingsOwner(st, userId, state, now);
    if whole.Ok? {
      PageWhole(whole.value, size);
    }
  }
}
