/** The relational store behind the services, as five id-keyed tables, and the
    Spring Data derived queries the services call, each written as a filter and
    an ORDER BY over the rows of a table. */
module Repository {
  import opened Common
  import opened Entities

  class Store {
    var users: map<int, User>
    var items: map<int, Item>
    var bookings: map<int, Booking>
    var comments: map<int, Comment>
    var requests: map<int, ItemRequest>
    // the next value of each table's IDENTITY column
    var nextUserId: int
    var nextItemId: int
    var nextBookingId: int
    var nextCommentId: int
    var nextRequestId: int

    /** Every row is stored under its own id, ids are positive and below the
        table's next id, and bookings and comments refer to existing rows. */
    ghost predicate Valid()
      reads this
    {
      && 0 < nextUserId && 0 < nextItemId && 0 < nextBookingId && 0 < nextCommentId && 0 < nextRequestId
      && (forall k | k in users :: users[k].id == k && 0 < k < nextUserId)
      && (forall k | k in items :: items[k].id == k && 0 < k < nextItemId)
      && (forall k | k in bookings :: bookings[k].id == k && 0 < k < nextBookingId)
      && (forall k | k in comments :: comments[k].id == k && 0 < k < nextCommentId)
      && (forall k | k in requests :: requests[k].id == k && 0 < k < nextRequestId)
      && (forall k | k in bookings :: bookings[k].itemId in items && bookings[k].bookerId in users)
      && (forall k | k in comments :: comments[k].itemId in items && comments[k].authorId in users)
    }

    /** True when some booking or comment still refers to user `id`. */
    ghost predicate Referenced(id: int)
      reads this
    {
      || (exists k | k in bookings :: bookings[k].bookerId == id)
      || (exists k | k in comments :: comments[k].authorId == id)
    }

    constructor ()
      ensures Valid()
      ensures users == map[] && items == map[] && bookings == map[]
      ensures comments == map[] && requests == map[]
    {
      users, items, bookings, comments, requests := map[], map[], map[], map[], map[];
      nextUserId, nextItemId, nextBookingId, nextCommentId, nextRequestId := 1, 1, 1, 1, 1;
    }

    /** save() of a new user: the row gets the next id. */
    method InsertUser(u: User) returns (saved: User)
      requires Valid()
      modifies this`users, this`nextUserId
      ensures Valid()
      ensures saved == u.(id := old(nextUserId)) && saved.id !in old(users)
      ensures users == old(users)[saved.id := saved]
    {
      saved := u.(id := nextUserId);
      users := users[saved.id := saved];
      nextUserId := nextUserId + 1;
    }

    /** save() of an existing user: the row is overwritten. */
    method UpdateUser(u: User)
      requires Valid() && u.id in users
      modifies this`users
      ensures Valid()
      ensures users == old(users)[u.id := u]
    {
      users := users[u.id := u];
    }

    /** deleteById() of a user. */
    method DeleteUser(id: int)
      requires Valid()
      modifies this`users
      ensures users == old(users) - {id}
      ensures !old(Referenced(id)) ==> Valid()
    {
      users := users - {id};
    }

    method InsertItem(i: Item) returns (saved: Item)
      requires Valid()
      modifies this`items, this`nextItemId
      ensures Valid()
      ensures saved == i.(id := old(nextItemId)) && saved.id !in old(items)
      ensures items == old(items)[saved.id := saved]
    {
      saved := i.(id := nextItemId);
      items := items[saved.id := saved];
      nextItemId := nextItemId + 1;
    }

    method UpdateItem(i: Item)
      requires Valid() && i.id in items
      modifies this`items
      ensures Valid()
      ensures items == old(items)[i.id := i]
    {
      items := items[i.id := i];
    }

    method InsertBooking(b: Booking) returns (saved: Booking)
      requires Valid() && b.itemId in items && b.bookerId in users
      modifies this`bookings, this`nextBookingId
      ensures Valid()
      ensures saved == b.(id := old(nextBookingId)) && saved.id !in old(bookings)
      ensures bookings == old(bookings)[saved.id := saved]
    {
      saved := b.(id := nextBookingId);
      bookings := bookings[saved.id := saved];
      nextBookingId := nextBookingId + 1;
    }

    method UpdateBooking(b: Booking)
      requires Valid() && b.id in bookings && b.itemId in items && b.bookerId in users
      modifies this`bookings
      ensures Valid()
      ensures bookings == old(bookings)[b.id := b]
    {
      bookings := bookings[b.id := b];
    }

    method InsertComment(c: Comment) returns (saved: Comment)
      requires Valid() && c.itemId in items && c.authorId in users
      modifies this`comments, this`nextCommentId
      ensures Valid()
      ensures saved == c.(id := old(nextCommentId)) && saved.id !in old(comments)
      ensures comments == old(comments)[saved.id := saved]
    {
      saved := c.(id := nextCommentId);
      comments := comments[saved.id := saved];
      nextCommentId := nextCommentId + 1;
    }

    method InsertRequest(q: ItemRequest) returns (saved: ItemRequest)
      requires Valid()
      modifies this`requests, this`nextRequestId
      ensures Valid()
      ensures saved == q.(id := old(nextRequestId)) && saved.id !in old(requests)
      ensures requests == old(requests)[saved.id := saved]
    {
      saved := q.(id := nextRequestId);
      requests := requests[saved.id := saved];
      nextRequestId := nextRequestId + 1;
    }
  }

  /** Rows stored under their own ids are pairwise different. */
  lemma TablesInjective(st: Store)
    requires st.Valid()
    ensures Injective(st.users) && Injective(st.items) && Injective(st.bookings)
    ensures Injective(st.comments) && Injective(st.requests)
  {
  }

  /** The state filter of a booking listing. WAITING and REJECTED are status filters. */
  datatype State = All | Current | Future | Past | WithStatus(status: Status)

  /** The derived queries' time and status conditions: CURRENT is
      StartBefore(now) And EndAfter(now), FUTURE StartAfter(now), PAST EndBefore(now). */
  predicate Matches(b: Booking, state: State, now: int)
  {
    match state
    case All => true
    case Current => b.start < now && now < b.end
    case Future => b.start > now
    case Past => b.end < now
    case WithStatus(s) => b.status == s
  }

  predicate OwnedBy(items: map<int, Item>, b: Booking, ownerId: int)
  {
    b.itemId in items && items[b.itemId].ownerId == ownerId
  }

  function BookingRows(st: Store): (r: seq<Booking>)
    reads st
    requires st.Valid()
    ensures forall b | b in r :: b in st.bookings.Values
    ensures forall b | b in st.bookings.Values :: b in r
  {
    Rows(st.bookings, st.nextBookingId)
  }

  /** findAllByBooker_Id[And...]OrderByStartDesc: the bookings of `bookerId` that
      match `state`, latest start first. */
  function BookerBookings(st: Store, bookerId: int, state: State, now: int): (r: seq<Booking>)
    reads st
    requires st.Valid()
    ensures forall b | b in r :: b in st.bookings.Values && b.bookerId == bookerId && Matches(b, state, now)
    ensures forall b | b in st.bookings.Values && b.bookerId == bookerId && Matches(b, state, now) :: b in r
    ensures SortedDesc(r, StartOf)
  {
    SortDesc(Filter(BookingRows(st), (b: Booking) => b.bookerId == bookerId && Matches(b, state, now)), StartOf)
  }

  /** findAllByItem_Owner_Id[And...]OrderByStartDesc: the bookings of items owned
      by `ownerId` that match `state`, latest start first. */
  function OwnerBookings(st: Store, ownerId: int, state: State, now: int): (r: seq<Booking>)
    reads st
    requires st.Valid()
    ensures forall b | b in r :: b in st.bookings.Values && OwnedBy(st.items, b, ownerId) && Matches(b, state, now)
    ensures forall b | b in st.bookings.Values && OwnedBy(st.items, b, ownerId) && Matches(b, state, now) :: b in r
    ensures SortedDesc(r, StartOf)
  {
    var items := st.items;
    SortDesc(Filter(BookingRows(st), (b: Booking) => OwnedBy(items, b, ownerId) && Matches(b, state, now)), StartOf)
  }

  function NegStartOf(b: Booking): int { -b.start }

  function CreatedOf(q: ItemRequest): int { q.created }

  /** findFirstByBooker_IdAndEndAfterOrderByStartDesc: among the bookings of
      `bookerId` that end after `now`, one with the latest start; None when there is none. */
  function LatestUnfinishedOf(st: Store, bookerId: int, now: int): (r: Option<Booking>)
    reads st
    requires st.Valid()
    ensures r.Some? ==> r.value in st.bookings.Values && r.value.bookerId == bookerId && r.value.end > now
    ensures r.Some? ==> forall b | b in st.bookings.Values && b.bookerId == bookerId && b.end > now ::
                          b.start <= r.value.start
    ensures r.None? <==> forall b | b in st.bookings.Values :: !(b.bookerId == bookerId && b.end > now)
  {
    var q := SortDesc(Filter(BookingRows(st), (b: Booking) => b.bookerId == bookerId && b.end > now), StartOf);
    if q == [] then None else Some(q[0])
  }

  /** findFirst2ByItem_IdAndStartBeforeAndStatusOrderByStartDesc(itemId, now, APPROVED),
      first element: the approved booking of the item with the latest start before `now`. */
  function LastApprovedOf(st: Store, itemId: int, now: int): (r: Option<Booking>)
    reads st
    requires st.Valid()
    ensures r.Some? ==> r.value in st.bookings.Values && r.value.itemId == itemId
                        && r.value.start < now && r.value.status == Approved
    ensures r.Some? ==> forall b | b in st.bookings.Values && b.itemId == itemId && b.start < now && b.status == Approved ::
                          b.start <= r.value.start
    ensures r.None? <==> forall b | b in st.bookings.Values :: !(b.itemId == itemId && b.start < now && b.status == Approved)
  {
    var q := SortDesc(Filter(BookingRows(st),
                             (b: Booking) => b.itemId == itemId && b.start < now && b.status == Approved), StartOf);
    if q == [] then None else Some(q[0])
  }

  /** findFirst2ByItem_IdAndStartGreaterThanEqualAndStatusOrderByStartAsc(itemId, now, APPROVED),
      first element: the approved booking of the item with the earliest start at or after `now`. */
  function NextApprovedOf(st: Store, itemId: int, now: int): (r: Option<Booking>)
    reads st
    requires st.Valid()
    ensures r.Some? ==> r.value in st.bookings.Values && r.value.itemId == itemId
                        && r.value.start >= now && r.value.status == Approved
    ensures r.Some? ==> forall b | b in st.bookings.Values && b.itemId == itemId && b.start >= now && b.status == Approved ::
                          r.value.start <= b.start
    ensures r.None? <==> forall b | b in st.bookings.Values :: !(b.itemId == itemId && b.start >= now && b.status == Approved)
  {
    var q := SortDesc(Filter(BookingRows(st),
                             (b: Booking) => b.itemId == itemId && b.start >= now && b.status == Approved), NegStartOf);
    if q == [] then None else Some(q[0])
  }

  /** findAllByItem_Owner_IdAndStartBeforeAndStatusOrderByStartDesc(ownerId, now, APPROVED). */
  function OwnerApprovedBefore(st: Store, ownerId: int, now: int): (r: seq<Booking>)
    reads st
    requires st.Valid()
    ensures forall b | b in r :: b in st.bookings.Values && OwnedBy(st.items, b, ownerId) && b.start < now && b.status == Approved
    ensures forall b | b in st.bookings.Values && OwnedBy(st.items, b, ownerId) && b.start < now && b.status == Approved :: b in r
    ensures SortedDesc(r, StartOf)
  {
    var items := st.items;
    SortDesc(Filter(BookingRows(st),
                    (b: Booking) => OwnedBy(items, b, ownerId) && b.start < now && b.status == Approved), StartOf)
  }

  /** findAllByItem_Owner_IdAndStartAfterAndStatusOrderByStartAsc(ownerId, now, APPROVED). */
  function OwnerApprovedAfter(st: Store, ownerId: int, now: int): (r: seq<Booking>)
    reads st
    requires st.Valid()
    ensures forall b | b in r :: b in st.bookings.Values && OwnedBy(st.items, b, ownerId) && b.start > now && b.status == Approved
    ensures forall b | b in st.bookings.Values && OwnedBy(st.items, b, ownerId) && b.start > now && b.status == Approved :: b in r
    ensures SortedDesc(r, NegStartOf)
  {
    var items := st.items;
    SortDesc(Filter(BookingRows(st),
                    (b: Booking) => OwnedBy(items, b, ownerId) && b.start > now && b.status == Approved), NegStartOf)
  }

  /** findAllByItem_Id: the comments on an item, in id order. */
  function CommentsOf(st: Store, itemId: int): (r: seq<Comment>)
    reads st
    requires st.Valid()
    ensures forall c | c in r :: c in st.comments.Values && c.itemId == itemId
    ensures forall c | c in st.comments.Values && c.itemId == itemId :: c in r
  {
    Filter(Rows(st.comments, st.nextCommentId), (c: Comment) => c.itemId == itemId)
  }

  /** findAllByRequest_Id: the items created for a request, in id order. */
  function ItemsFor(st: Store, requestId: int): (r: seq<Item>)
    reads st
    requires st.Valid()
    ensures forall i | i in r :: i in st.items.Values && i.requestId == Some(requestId)
    ensures forall i | i in st.items.Values && i.requestId == Some(requestId) :: i in r
  {
    Filter(Rows(st.items, st.nextItemId), (i: Item) => i.requestId == Some(requestId))
  }

  /** findAllByRequester_Id: the requests a user made, in id order. */
  function RequestsBy(st: Store, requesterId: int): (r: seq<ItemRequest>)
    reads st
    requires st.Valid()
    ensures forall q | q in r :: q in st.requests.Values && q.requesterId == requesterId
    ensures forall q | q in st.requests.Values && q.requesterId == requesterId :: q in r
  {
    Filter(Rows(st.requests, st.nextRequestId), (q: ItemRequest) => q.requesterId == requesterId)
  }

  /** findAllByRequester_IdNotOrderByCreatedDesc: the requests of everyone else, newest first. */
  function RequestsNotBy(st: Store, requesterId: int): (r: seq<ItemRequest>)
    reads st
    requires st.Valid()
    ensures forall q | q in r :: q in st.requests.Values && q.requesterId != requesterId
    ensures forall q | q in st.requests.Values && q.requesterId != requesterId :: q in r
    ensures SortedDesc(r, CreatedOf)
  {
    SortDesc(Filter(Rows(st.requests, st.nextRequestId), (q: ItemRequest) => q.requesterId != requesterId), CreatedOf)
  }

  /** findByNameContainingIgnoreCaseOrDescriptionContainingIgnoreCaseAndAvailableIsTrue(text, text).
      In a derived query And binds tighter than Or, so availability only restricts
      the description match. */
  function SearchItems(st: Store, text: string): (r: seq<Item>)
    reads st
    requires st.Valid()
    ensures forall i | i in r :: i in st.items.Values
                                 && (ContainsIgnoreCase(i.name, text) || (ContainsIgnoreCase(i.description, text) && i.available))
    ensures forall i | i in st.items.Values
                       && (ContainsIgnoreCase(i.name, text) || (ContainsIgnoreCase(i.description, text) && i.available)) :: i in r
  {
    Filter(Rows(st.items, st.nextItemId),
           (i: Item) => ContainsIgnoreCase(i.name, text) || (ContainsIgnoreCase(i.description, text) && i.available))
  }

  /** findByEmailContainingIgnoreCaseAndIdNot(email, id): the other users whose
      email contains `email`, ignoring case. A null parameter matches no row. */
  function UsersWithEmailLike(st: Store, email: Option<string>, id: int): (r: seq<User>)
    reads st
    requires st.Valid()
    ensures email.None? ==> r == []
    ensures email.Some? ==> forall u | u in r :: u in st.users.Values && u.id != id && ContainsIgnoreCase(u.email, email.value)
    ensures email.Some? ==> forall u | u in st.users.Values && u.id != id && ContainsIgnoreCase(u.email, email.value) :: u in r
  {
    if email.None? then []
    else Filter(Rows(st.users, st.nextUserId), (u: User) => u.id != id && ContainsIgnoreCase(u.email, email.value))
  }

  /** A filtered and sorted listing of a table holds each row at most once. */
  lemma ListingNoDuplicates<T>(m: map<int, T>, next: int, p: T -> bool, key: T -> int)
    requires forall k | k in m :: 0 < k < next
    requires Injective(m)
    ensures NoDuplicates(Filter(Rows(m, next), p))
    ensures NoDuplicates(SortDesc(Filter(Rows(m, next), p), key))
  {
    RowsNoDuplicates(m, next);
    FilterNoDuplicates(Rows(m, next), p);
  }

  /** The booker's and the owner's booking listings hold each stored booking at most
      once, so their lengths and pages count distinct rows. */
  lemma BookingQueriesNoDuplicates(st: Store, userId: int, state: State, now: int)
    requires st.Valid()
    ensures NoDuplicates(BookerBookings(st, userId, state, now))
    ensures NoDuplicates(OwnerBookings(st, userId, state, now))
  {
    TablesInjective(st);
    var items := st.items;
    ListingNoDuplicates(st.bookings, st.nextBookingId,
                        (b: Booking) => b.bookerId == userId && Matches(b, state, now), StartOf);
    ListingNoDuplicates(st.bookings, st.nextBookingId,
                        (b: Booking) => OwnedBy(items, b, userId) && Matches(b, state, now), StartOf);
  }

  /** The owner's approved-before and approved-after listings hold each stored booking
      at most once. */
  lemma ApprovedQueriesNoDuplicates(st: Store, userId: int, now: int)
    requires st.Valid()
    ensures NoDuplicates(OwnerApprovedBefore(st, userId, now))
    ensures NoDuplicates(OwnerApprovedAfter(st, userId, now))
  {
    TablesInjective(st);
    var items := st.items;
    ListingNoDuplicates(st.bookings, st.nextBookingId,
                        (b: Booking) => OwnedBy(items, b, userId) && b.start < now && b.status == Approved, StartOf);
    ListingNoDuplicates(st.bookings, st.nextBookingId,
                        (b: Booking) => OwnedBy(items, b, userId) && b.start > now && b.status == Approved, NegStartOf);
  }

  /** The other listings hold each stored row at most once. */
  lemma OtherQueriesNoDuplicates(st: Store, itemId: int, requestId: int, userId: int, text: string, email: Option<string>)
    requires st.Valid()
    ensures NoDuplicates(CommentsOf(st, itemId))
    ensures NoDuplicates(ItemsFor(st, requestId))
    ensures NoDuplicates(RequestsBy(st, userId))
    ensures NoDuplicates(RequestsNotBy(st, userId))
    ensures NoDuplicates(SearchItems(st, text))
    ensures NoDuplicates(UsersWithEmailLike(st, email, userId))
    ensures NoDuplicates(Rows(st.users, st.nextUserId))
  {
    TablesInjective(st);
    ListingNoDuplicates(st.comments, st.nextCommentId, (c: Comment) => c.itemId == itemId, (c: Comment) => 0);
    ListingNoDuplicates(st.items, st.nextItemId, (i: Item) => i.requestId == Some(requestId), (i: Item) => 0);
    ListingNoDuplicates(st.requests, st.nextRequestId, (q: ItemRequest) => q.requesterId == userId, CreatedOf);
    ListingNoDuplicates(st.requests, st.nextRequestId, (q: ItemRequest) => q.requesterId != userId, CreatedOf);
    ListingNoDuplicates(st.items, st.nextItemId,
      (i: Item) => ContainsIgnoreCase(i.name, text) || (ContainsIgnoreCase(i.description, text) && i.available),
      (i: Item) => 0);
    if email.Some? {
      ListingNoDuplicates(st.users, st.nextUserId,
        (u: User) => u.id != userId && ContainsIgnoreCase(u.email, email.value), (u: User) => 0);
    }
    RowsNoDuplicates(st.users, st.nextUserId);
  }
}
