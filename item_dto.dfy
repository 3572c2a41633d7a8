/** ItemDto: the view of an item returned by GET /items/{id}, with summaries of
    its last and next bookings. Each constructor of the class is a function that
    decides which of the two summaries is present. */
module ItemDtos {
  import opened Common
  import opened Entities
  import opened CommentMapper

  /** ItemDto.BookingDto: a booking reduced to its id and its booker's id. */
  datatype BookingSummary = BookingSummary(id: int, bookerId: int)

  /** A null booking summary is None. */
  datatype ItemDto = ItemDto(id: int, name: string, description: string, available: bool,
                             ownerId: int, lastBooking: Option<BookingSummary>,
                             nextBooking: Option<BookingSummary>, comments: seq<CommentDto>)

  function Summary(b: Booking): (s: BookingSummary)
    ensures s.id == b.id && s.bookerId == b.bookerId
  {
    BookingSummary(b.id, b.bookerId)
  }

  /** The summary of an optional booking; a missing booking has no summary. */
  function SummaryOf(b: Option<Booking>): (s: Option<BookingSummary>)
    ensures s.None? <==> b.None?
    ensures b.Some? ==> s == Some(Summary(b.value))
  {
    if b.None? then None else Some(Summary(b.value))
  }

  /** The view shows the item's own fields. */
  predicate Describes(d: ItemDto, item: Item)
  {
    && d.id == item.id && d.name == item.name && d.description == item.description
    && d.available == item.available && d.ownerId == item.ownerId
  }

  /** ItemDto(bookingNext, bookingLast, comments): the item is the next booking's item. */
  function FromNextAndLast(next: Booking, nextItem: Item, last: Booking, comments: seq<CommentDto>): (d: ItemDto)
    requires nextItem.id == next.itemId
    ensures Describes(d, nextItem) && d.comments == comments
    ensures d.lastBooking == Some(Summary(last)) && d.nextBooking == Some(Summary(next))
  {
    ItemDto(nextItem.id, nextItem.name, nextItem.description, nextItem.available, nextItem.ownerId,
            Some(Summary(last)), Some(Summary(next)), comments)
  }

  /** ItemDto(item, bookingNext, comments): no last booking. */
  function FromItemAndNext(item: Item, next: Booking, comments: seq<CommentDto>): (d: ItemDto)
    ensures Describes(d, item) && d.comments == comments
    ensures d.lastBooking.None? && d.nextBooking == Some(Summary(next))
  {
    ItemDto(item.id, item.name, item.description, item.available, item.ownerId,
            None, Some(Summary(next)), comments)
  }

  /** ItemDto(bookingLast, comments): the item is the last booking's item; no next booking. */
  function FromLast(last: Booking, lastItem: Item, comments: seq<CommentDto>): (d: ItemDto)
    requires lastItem.id == last.itemId
    ensures Describes(d, lastItem) && d.comments == comments
    ensures d.lastBooking == Some(Summary(last)) && d.nextBooking.None?
  {
    ItemDto(lastItem.id, lastItem.name, lastItem.description, lastItem.available, lastItem.ownerId,
            Some(Summary(last)), None, comments)
  }

  /** ItemDto(item, comments): neither booking. */
  function FromItem(item: Item, comments: seq<CommentDto>): (d: ItemDto)
    ensures Describes(d, item) && d.comments == comments
    ensures d.lastBooking.None? && d.nextBooking.None?
  {
    ItemDto(item.id, item.name, item.description, item.available, item.ownerId, None, None, comments)
  }
}
