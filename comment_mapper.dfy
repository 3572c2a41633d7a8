/** CommentMapper: builds a comment row from the booking it is written for,
    and the comment view returned to clients. */
module CommentMapper {
  import opened Common
  import opened Entities

  /** The client view of a comment. The view's constant id and its creation
      instant are not modelled. */
  datatype CommentDto = CommentDto(text: string, authorName: Option<string>)

  /** toComment(booking, text): an unsaved comment (id 0) on the booking's item,
      written by the booking's booker. */
  function ToComment(b: Booking, text: string): (c: Comment)
    ensures c.text == text && c.itemId == b.itemId && c.authorId == b.bookerId
    ensures c.id == 0
  {
    Comment(0, text, b.itemId, b.bookerId)
  }

  /** toCommentDto(booking, text), where `booker` is the booking's booker row. */
  function BookingToCommentDto(b: Booking, booker: User, text: string): (d: CommentDto)
    requires booker.id == b.bookerId
    ensures d.text == text && d.authorName == booker.name
  {
    CommentDto(text, booker.name)
  }

  /** toCommentDto(comment), where `author` is the comment's author row. */
  function ToCommentDto(c: Comment, author: User): (d: CommentDto)
    requires author.id == c.authorId
    ensures d.text == c.text && d.authorName == author.name
  {
    CommentDto(c.text, author.name)
  }

  /** The view of a stored comment is the view the booking produced when it was written. */
  lemma ViewOfStoredComment(b: Booking, booker: User, text: string, id: int)
    requires booker.id == b.bookerId
    ensures ToCommentDto(ToComment(b, text).(id := id), booker) == BookingToCommentDto(b, booker, text)
  {
  }
}
