/** The persistent records of ShareIt and the inputs the services receive.
    A stored record refers to other records by id, as its table row does. */
module Entities {
  import opened Common

  /** The clock is an integer count of seconds; LocalDateTime.plusDays(3) is `now + 3 * DAY`. */
  const DAY: int := 86400

  datatype Status = Waiting | Approved | Rejected

  /** A user row. `name` is nullable (creation does not check it); `email` is
      checked on creation and kept on patch, so a stored user always has one. */
  datatype User = User(id: int, name: Option<string>, email: string)

  /** An item row. Creation refuses a missing name, description or availability
      and patches only overwrite with present values, so these are never null. */
  datatype Item = Item(id: int, name: string, description: string, available: bool,
                       ownerId: int, requestId: Option<int>)

  /** A booking row; start and end are checked present on creation. */
  datatype Booking = Booking(id: int, start: int, end: int, itemId: int, bookerId: int,
                             status: Status)

  datatype Comment = Comment(id: int, text: string, itemId: int, authorId: int)

  datatype ItemRequest = ItemRequest(id: int, description: string, requesterId: int, created: int)

  /** The request body of POST /bookings. */
  datatype BookingDto = BookingDto(itemId: int, start: Option<int>, end: Option<int>)

  /** The user object the controller builds from a request body; None is a JSON null. */
  datatype UserInput = UserInput(name: Option<string>, email: Option<string>)

  /** Item fields sent on create and returned with the new id; also the item
      summary that an item request carries. */
  datatype ItemShort = ItemShort(id: int, name: Option<string>, description: Option<string>,
                                 available: Option<bool>, requestId: int)

  /** The body of PATCH /items/{id}: a None field keeps the stored value. */
  datatype ItemPatch = ItemPatch(name: Option<string>, description: Option<string>,
                                 available: Option<bool>)

  function StartOf(b: Booking): int { b.start }
}
