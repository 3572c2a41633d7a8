# ShareIt service rules in Dafny

ShareIt is a Spring service for lending things. Users offer items and book other users' items for a time slot. Owners approve or reject bookings. Bookers comment on items they have used. Users post requests for items that other users then create. This project models the business rules of the service classes. They run over an abstract store of five id-keyed tables: users, items, bookings, comments and item requests.

Conventions of the model:

- Every operation returns a `Result`, or an `Outcome` for a guard. The error kinds are `Validation` (HTTP 400), `NotFound` (404) and `Duplicate` (409).
- The clock is an integer `now` in seconds, passed in. Three days is `3 * DAY`.
- A Java `null` field is an `Option` that is `None`.
- A record refers to another record by id, as its table row does.

Modules, following the program's classes:

- `Common`: options and results, Java string predicates (`isBlank`, case-insensitive `contains`), Java's truncating division, and the sequence operations the queries are built from (filter, sort descending by a key, page).
- `Entities`: the records and request bodies.
- `Repository`: the class `Store`. Its map fields are the tables, with one IDENTITY counter per table. `Valid()` is the store invariant: each row sits under its own id, and bookings and comments point to existing items and users. `save` and `deleteById` are methods. Each Spring Data derived query the services call is a function stating which rows it returns and in which order.
- `BookingService` and `ItemService`: the paged versions in the `server` module.
- `BookingServiceUnpaged` and `ItemServiceUnpaged`: the older single-module tree. They model only the operations that differ, and lemmas show that a first page large enough to hold everything equals the unpaged result.
- `ItemRequestService`, `UserService`, `CommentMapper`, `ItemDtos`, `ItemRequestMapper`: the remaining services and mappers.

The Java source checks each guard by throwing; the model does so with a guard function that returns the first failing check. A method that changes the store calls the guard. On failure it leaves the touched table unchanged; on success it states the whole new table.

## Deliberate readings of the code

- `createBooking` refuses a booking whose item id equals the caller's user id. It compares the two ids literally, not the caller with the item's owner. A caller can therefore book their own item when its id differs from theirs.
- The search query's name reads `Name ... Or Description ... And AvailableIsTrue`, and And binds tighter than Or. So an item whose name matches is found even when it is unavailable; availability only restricts description matches.
- A REJECTED booking can be decided again, including approved. Only APPROVED is final.
- `patchUser` does not check the new email for '@'. `createUser` does no duplicate-email check. A patch whose email is null matches no duplicate.
- `createItem` (server) links the item to a request only when a request with that id exists. An unknown id is dropped silently.
- `getItemRequests` calls `findAllByRequester_IdNotOrderByCreatedDesc`, while `ItemRequestRepository` declares `findAllByRequester_IdNotLikeOrderByCreatedDesc`. The model follows the call: requests whose requester is not the caller.
- In `createComment`, the booking comes from a query filtered by the caller's id, so the later "booker differs from caller" guard cannot fail on a real store. It is kept in `ItemService.CommentChecks`, which works on any booking.

## Model

| member | source | states |
|---|---|---|
| Common.JavaDiv | server/src/main/java/ru/practicum/shareit/request/ItemRequestServiceImpl.java:66 | integer division truncating toward zero: equal to floor division for non-negative operands, and non-negative exactly when the dividend exceeds minus the divisor |
| Common.Page | server/src/main/java/ru/practicum/shareit/booking/BookingServiceImpl.java:76-77 | PageRequest.of(page, size): the elements from page*size on, at most size of them, empty past the end |
| Repository.Store.InsertUser | src/main/java/ru/practicum/shareit/user/User.java:16-18 | save of a new user gives it the next IDENTITY id, unused so far, and adds exactly that row |
| Repository.Store.UpdateUser | src/main/java/ru/practicum/shareit/user/UserServiceImpl.java:56 | save of an existing user replaces exactly its row |
| Repository.Store.DeleteUser | src/main/java/ru/practicum/shareit/user/UserServiceImpl.java:63 | deleteById removes exactly that row; the store stays consistent if nothing refers to the user |
| Repository.Store.InsertItem | server/src/main/java/ru/practicum/shareit/item/ItemServiceImpl.java:48 | save of a new item adds exactly one row under a fresh id |
| Repository.Store.UpdateItem | server/src/main/java/ru/practicum/shareit/item/ItemServiceImpl.java:96 | save of an existing item replaces exactly its row |
| Repository.Store.InsertBooking | server/src/main/java/ru/practicum/shareit/booking/BookingServiceImpl.java:36 | save of a new booking adds exactly one row under a fresh id |
| Repository.Store.UpdateBooking | server/src/main/java/ru/practicum/shareit/booking/BookingServiceImpl.java:56 | save of an existing booking replaces exactly its row |
| Repository.Store.InsertComment | server/src/main/java/ru/practicum/shareit/item/ItemServiceImpl.java:72 | save of a new comment adds exactly one row under a fresh id |
| Repository.Store.InsertRequest | server/src/main/java/ru/practicum/shareit/request/ItemRequestServiceImpl.java:40 | save of a new request adds exactly one row under a fresh id |
| Repository.BookerBookings | src/main/java/ru/practicum/shareit/booking/BookingRepository.java:10-21 | exactly the booker's bookings that match the state (CURRENT start < now < end, FUTURE start > now, PAST end < now, WAITING/REJECTED by status), latest start first |
| Repository.OwnerBookings | src/main/java/ru/practicum/shareit/booking/BookingRepository.java:23-34 | exactly the bookings of items the owner owns that match the state, latest start first |
| Repository.LatestUnfinishedOf | src/main/java/ru/practicum/shareit/booking/BookingRepository.java:52 | a booking of the booker ending after now with no later start among such bookings; none exactly when there is no such booking |
| Repository.LastApprovedOf | src/main/java/ru/practicum/shareit/booking/BookingRepository.java:36-38 | the approved booking of the item with the latest start before now; none exactly when there is none |
| Repository.NextApprovedOf | src/main/java/ru/practicum/shareit/booking/BookingRepository.java:40-42 | the approved booking of the item with the earliest start at or after now; none exactly when there is none |
| Repository.OwnerApprovedBefore | src/main/java/ru/practicum/shareit/booking/BookingRepository.java:44-46 | exactly the owner's approved bookings that started before now, latest start first |
| Repository.OwnerApprovedAfter | src/main/java/ru/practicum/shareit/booking/BookingRepository.java:48-50 | exactly the owner's approved bookings that start after now, earliest start first |
| Repository.CommentsOf | server/src/main/java/ru/practicum/shareit/item/ItemServiceImpl.java:105 | exactly the comments on the item |
| Repository.ItemsFor | src/main/java/ru/practicum/shareit/item/ItemRepository.java:18 | exactly the items linked to the request |
| Repository.RequestsBy | server/src/main/java/ru/practicum/shareit/request/ItemRequestRepository.java:12 | exactly the requests made by the user |
| Repository.RequestsNotBy | server/src/main/java/ru/practicum/shareit/request/ItemRequestServiceImpl.java:68 | exactly the requests made by other users, newest first |
| Repository.SearchItems | src/main/java/ru/practicum/shareit/item/ItemRepository.java:11-14 | exactly the items whose name contains the text, or whose description contains it and that are available, ignoring case |
| Repository.BookingQueriesNoDuplicates | src/main/java/ru/practicum/shareit/booking/BookingRepository.java:10-34 | the booker's and the owner's listings hold each stored booking at most once |
| Repository.ApprovedQueriesNoDuplicates | src/main/java/ru/practicum/shareit/booking/BookingRepository.java:44-50 | the owner's approved-before and approved-after listings hold each stored booking at most once |
| Repository.OtherQueriesNoDuplicates | src/main/java/ru/practicum/shareit/item/ItemRepository.java:11-18 | the comment, item, request, search, email and user listings hold each stored row at most once |
| Repository.UsersWithEmailLike | src/main/java/ru/practicum/shareit/user/UserServiceImpl.java:77 | exactly the users with another id whose email contains the given one, ignoring case; nobody for a null email |
| BookingService.ParseState | server/src/main/java/ru/practicum/shareit/booking/BookingServiceImpl.java:78-100 | the six accepted state names and no other string, each naming its state; APPROVED is not accepted |
| BookingService.ParseStateName | server/src/main/java/ru/practicum/shareit/booking/BookingServiceImpl.java:116-138 | every accepted state is parsed back from its name |
| BookingService.ToBooking | server/src/main/java/ru/practicum/shareit/booking/BookingServiceImpl.java:166-176 | NotFound unless the item and the user exist; otherwise the draft carries the dto's start and end, the stored item and the caller |
| BookingService.ValidationCheck | server/src/main/java/ru/practicum/shareit/booking/BookingServiceImpl.java:142-154 | passes exactly when the item is available, both instants are present and now <= start < end; otherwise Validation |
| BookingService.Admit | server/src/main/java/ru/practicum/shareit/booking/BookingServiceImpl.java:29-35 | admits exactly the bookings of an existing caller, item id different from the caller's id, existing available item and valid dates; NotFound exactly for the first three failures; the admitted booking is WAITING and has the dto's data |
| BookingService.CreateBooking | server/src/main/java/ru/practicum/shareit/booking/BookingServiceImpl.java:29-37 | a refused booking changes nothing; an admitted one is added under a fresh id and no other booking changes |
| BookingService.Decide | server/src/main/java/ru/practicum/shareit/booking/BookingServiceImpl.java:45-55 | NotFound for a non-owner, Validation for an approved booking; otherwise only the status changes, to APPROVED or REJECTED |
| BookingService.ApprovalIsFinal | server/src/main/java/ru/practicum/shareit/booking/BookingServiceImpl.java:48-50 | once approved, a further decision is refused |
| BookingService.RejectionCanBeRevised | server/src/main/java/ru/practicum/shareit/booking/BookingServiceImpl.java:48-55 | a rejected booking can be decided again |
| BookingService.UpdateBookingStatus | server/src/main/java/ru/practicum/shareit/booking/BookingServiceImpl.java:40-57 | NotFound for a missing booking; otherwise the decision on the stored booking by its item's owner; only that booking changes, and only on success |
| BookingService.BookingUserCheck | server/src/main/java/ru/practicum/shareit/booking/BookingServiceImpl.java:156-164 | passes exactly when the booking exists and the caller is its booker or its item's owner; otherwise NotFound |
| BookingService.GetBooking | server/src/main/java/ru/practicum/shareit/booking/BookingServiceImpl.java:60-64 | the unchanged stored booking exactly for an existing caller who is its booker or owner; otherwise NotFound |
| BookingService.GetBookings | server/src/main/java/ru/practicum/shareit/booking/BookingServiceImpl.java:67-102 | Validation for negative from or non-positive size before the user lookup, then NotFound, then Validation for an unknown state; otherwise page from/size of the booker's listing: at most size bookings, all the caller's and matching the state, latest start first |
| BookingService.GetBookingsOwner | server/src/main/java/ru/practicum/shareit/booking/BookingServiceImpl.java:105-140 | the same guards; page from/size of the bookings of the caller's items in that state, latest start first |
| BookingServiceUnpaged.CheckUser | src/main/java/ru/practicum/shareit/booking/BookingServiceImpl.java:149-153 | passes exactly for an existing user; otherwise NotFound |
| BookingServiceUnpaged.GetBookings | src/main/java/ru/practicum/shareit/booking/BookingServiceImpl.java:66-93 | NotFound, then Validation for an unknown state; otherwise a stored booking is listed exactly when it is the caller's and matches the state, latest start first |
| BookingServiceUnpaged.GetBookingsOwner | src/main/java/ru/practicum/shareit/booking/BookingServiceImpl.java:96-123 | the same over the bookings of the caller's items |
| BookingServiceUnpaged.FirstPageIsWholeListing | src/main/java/ru/practicum/shareit/booking/BookingServiceImpl.java:66-93 | the paged listing with from 0 and a size holding every match equals the unpaged listing, errors included |
| BookingServiceUnpaged.FirstOwnerPageIsWholeListing | src/main/java/ru/practicum/shareit/booking/BookingServiceImpl.java:96-123 | the same for the owner listing |
| ItemService.ValidationCheck | server/src/main/java/ru/practicum/shareit/item/ItemServiceImpl.java:216-227 | passes exactly when name and description are present, the name is not blank, available is present and the caller id is not 0; otherwise Validation |
| ItemService.ValidationCheckPatch | server/src/main/java/ru/practicum/shareit/item/ItemServiceImpl.java:229-233 | passes exactly when the caller id is not 0 |
| ItemService.RequestLink | server/src/main/java/ru/practicum/shareit/item/ItemServiceImpl.java:46-47 | the request id when such a request exists, otherwise no link |
| ItemService.CreateItem | server/src/main/java/ru/practicum/shareit/item/ItemServiceImpl.java:40-51 | Validation before the user lookup, then NotFound, with no change; otherwise one new item owned by the caller, linked only to an existing request, and the input returned with the new id |
| ItemService.CommentChecks | server/src/main/java/ru/practicum/shareit/item/ItemServiceImpl.java:55-71 | blank text is Validation, no booking is NotFound; otherwise passes exactly for the caller's approved booking starting no later than now + 3 days |
| ItemService.CommentGuard | server/src/main/java/ru/practicum/shareit/item/ItemServiceImpl.java:58-71 | the chosen booking is the caller's, unfinished, with the latest start among the caller's unfinished bookings, approved and starting within three days |
| ItemService.CreateComment | server/src/main/java/ru/practicum/shareit/item/ItemServiceImpl.java:54-74 | a refused comment changes nothing; otherwise one comment is added on the booking's item by its booker, and its view has the text and the booker's name |
| ItemService.Patched | server/src/main/java/ru/practicum/shareit/item/ItemServiceImpl.java:86-95 | each present field overwrites, each absent field keeps; id, owner and request are kept |
| ItemService.EmptyPatchKeeps | server/src/main/java/ru/practicum/shareit/item/ItemServiceImpl.java:87-95 | a patch with no fields leaves the item unchanged |
| ItemService.PatchIdempotent | server/src/main/java/ru/practicum/shareit/item/ItemServiceImpl.java:87-95 | a patch applied twice equals the patch applied once |
| ItemService.UpdateGuard | server/src/main/java/ru/practicum/shareit/item/ItemServiceImpl.java:78-85 | Validation for caller id 0; otherwise passes exactly for an existing caller who owns an existing item, and otherwise NotFound |
| ItemService.UpdateItem | server/src/main/java/ru/practicum/shareit/item/ItemServiceImpl.java:77-97 | a refused patch changes nothing; otherwise the patched item replaces the stored one and no other item changes |
| ItemService.GetItem | server/src/main/java/ru/practicum/shareit/item/ItemServiceImpl.java:100-132 | NotFound for a missing user or item; the view shows the item's fields and one comment view per comment, in order; the last and next approved booking summaries for the owner, neither for anyone else |
| ItemService.Equalise | server/src/main/java/ru/practicum/shareit/item/ItemServiceImpl.java:150-159 | when both lists are non-empty, both lengths become the smaller length; each result is a prefix of its input; otherwise nothing changes |
| ItemService.OwnerBookingLists | server/src/main/java/ru/practicum/shareit/item/ItemServiceImpl.java:146-159 | the owner's approved past and future bookings, equalised: prefixes of the query results, each still in its order |
| ItemService.GetItemSearch | server/src/main/java/ru/practicum/shareit/item/ItemServiceImpl.java:201-214 | Validation for negative from or non-positive size before the text is looked at; blank text gives an empty list; otherwise page from/size of the matching items |
| ItemServiceUnpaged.CreateItem | src/main/java/ru/practicum/shareit/item/ItemServiceImpl.java:37-45 | the same validation before the user lookup; otherwise one new item owned by the caller, with no request, returned with its id |
| ItemServiceUnpaged.GetItemSearch | src/main/java/ru/practicum/shareit/item/ItemServiceImpl.java:196-202 | blank text gives an empty list; otherwise exactly the matching items |
| ItemServiceUnpaged.FirstSearchPageIsWholeSearch | src/main/java/ru/practicum/shareit/item/ItemServiceImpl.java:196-202 | the paged search from 0 with a size holding every match equals the unpaged search |
| ItemRequestService.CreateItemRequest | server/src/main/java/ru/practicum/shareit/request/ItemRequestServiceImpl.java:32-41 | NotFound for a missing user, then Validation for a null or blank description, with no change; otherwise one new request with that description, the caller as requester and now as creation time |
| ItemRequestService.RequestView | server/src/main/java/ru/practicum/shareit/request/ItemRequestServiceImpl.java:52-57 | the view copies the request and summarises every item linked to it, and only such items |
| ItemRequestService.Views | server/src/main/java/ru/practicum/shareit/request/ItemRequestServiceImpl.java:69-76 | one view per request, in the given order |
| ItemRequestService.GetItemRequestsOwn | server/src/main/java/ru/practicum/shareit/request/ItemRequestServiceImpl.java:44-60 | NotFound exactly for a missing user; otherwise one view per own request in store order, empty when there are none |
| ItemRequestService.GetItemRequests | server/src/main/java/ru/practicum/shareit/request/ItemRequestServiceImpl.java:63-78 | NotFound exactly for a missing user, whatever from and size are; otherwise page from/size of the other users' requests, newest first, one view each |
| ItemRequestService.GetItemRequest | server/src/main/java/ru/practicum/shareit/request/ItemRequestServiceImpl.java:81-96 | NotFound for a missing user or request; otherwise the request with at most one item; none exactly when no item is linked to it |
| UserService.GetUser | src/main/java/ru/practicum/shareit/user/UserServiceImpl.java:22-28 | the stored user exactly when it exists; otherwise NotFound |
| UserService.GetUsers | src/main/java/ru/practicum/shareit/user/UserServiceImpl.java:31-33 | every stored user, each exactly once, and nothing else |
| UserService.ValidationCheck | src/main/java/ru/practicum/shareit/user/UserServiceImpl.java:70-74 | passes exactly when the email is present and contains '@' |
| UserService.CreateUser | src/main/java/ru/practicum/shareit/user/UserServiceImpl.java:36-39 | Validation with no change; otherwise one new user with the given name and email under a fresh id |
| UserService.ValidationCheckPatch | src/main/java/ru/practicum/shareit/user/UserServiceImpl.java:76-81 | Duplicate exactly when the patch email is present and some other user's email contains it, ignoring case |
| UserService.Merged | src/main/java/ru/practicum/shareit/user/UserServiceImpl.java:45-52 | the target id; a null name or email keeps the old value, a present one replaces it |
| UserService.EmptyPatchKeeps | src/main/java/ru/practicum/shareit/user/UserServiceImpl.java:45-52 | a patch with neither field leaves the user unchanged |
| UserService.MergeIdempotent | src/main/java/ru/practicum/shareit/user/UserServiceImpl.java:45-52 | a patch applied twice equals the patch applied once |
| UserService.PatchUser | src/main/java/ru/practicum/shareit/user/UserServiceImpl.java:42-57 | Duplicate before NotFound, with no change; otherwise only the target row changes, to the merged user |
| UserService.DeleteUser | src/main/java/ru/practicum/shareit/user/UserServiceImpl.java:60-68 | NotFound for an absent id with no change; otherwise exactly that user is removed |
| ItemDtos.Summary | src/main/java/ru/practicum/shareit/item/dto/ItemDto.java:75-79 | a booking summary has the booking's id and its booker's id |
| ItemDtos.FromNextAndLast | src/main/java/ru/practicum/shareit/item/dto/ItemDto.java:21-32 | the item fields of the next booking's item, both summaries set, comments unchanged |
| ItemDtos.FromItemAndNext | src/main/java/ru/practicum/shareit/item/dto/ItemDto.java:34-44 | the item's fields, next summary set, last null, comments unchanged |
| ItemDtos.FromLast | src/main/java/ru/practicum/shareit/item/dto/ItemDto.java:46-56 | the item fields of the last booking's item, last summary set, next null, comments unchanged |
| ItemDtos.FromItem | src/main/java/ru/practicum/shareit/item/dto/ItemDto.java:58-67 | the item's fields, both summaries null, comments unchanged |
| ItemRequestMapper.ShortOf | src/main/java/ru/practicum/shareit/request/dto/ItemRequestMapper.java:15-20 | the summary copies id, name, description and available, and takes the item's request id |
| ItemRequestMapper.ToDtoWithItems | src/main/java/ru/practicum/shareit/request/dto/ItemRequestMapper.java:12-24 | copies the request's fields; exactly one summary per item, in the same order |
| ItemRequestMapper.ToDto | src/main/java/ru/practicum/shareit/request/dto/ItemRequestMapper.java:26-28 | copies the request's fields; no items |
| ItemRequestMapper.ToDtoWithItem | src/main/java/ru/practicum/shareit/request/dto/ItemRequestMapper.java:30-38 | copies the request's fields; exactly that one item |
| ItemRequestMapper.OverloadsAgree | src/main/java/ru/practicum/shareit/request/dto/ItemRequestMapper.java:12-38 | the no-item and one-item overloads give what the list overload gives for an empty and a one-element list |
| CommentMapper.ToComment | server/src/main/java/ru/practicum/shareit/item/dto/CommentMapper.java:7-9 | an unsaved comment with the text, on the booking's item, by the booking's booker |
| CommentMapper.BookingToCommentDto | server/src/main/java/ru/practicum/shareit/item/dto/CommentMapper.java:11-13 | the text and the booker's name |
| CommentMapper.ToCommentDto | server/src/main/java/ru/practicum/shareit/item/dto/CommentMapper.java:15-17 | the comment's text and its author's name |
| CommentMapper.ViewOfStoredComment | server/src/main/java/ru/practicum/shareit/item/dto/CommentMapper.java:7-17 | a comment built from a booking, once saved, has the view the booking gave when it was written |

## Left out

- Controllers, the gateway's forwarding client and both error handlers are routing and the translation of exceptions to HTTP statuses. The error kinds stand in for them.
- Spring Data and JPA are modelled by `Repository.Store`. Transactions, lazy loading and database constraints are not modelled. The unique email column is one such constraint.
- SQL leaves the order among rows with an equal ORDER BY key open. The model picks one order.
- Rows without ORDER BY are returned in id order. `findFirstByRequest_Id` is taken to return the item with the lowest id.
- `LIKE` wildcards inside a searched text or email are treated as plain characters. Case is ignored for ASCII letters only.
- `LocalDateTime.now()` and `Instant.now()` are the parameter `now`. One call stands for the several `now()` calls that one operation makes. Timestamp representation is not modelled.
- A new booking's status is WAITING. The server's Booking entity, which holds that default, is not part of this model.
- Ids, `from` and `size` are unbounded integers. 64-bit and 32-bit overflow is not modelled.
- BookingService.ValidationCheck, ItemService.ValidationCheck, UserService.ValidationCheck, UserService.Merged, UserService.PatchUser and ItemRequestService.CreateItemRequest: in the source, Lombok checks `toString().contains("email=null")`, `contains("name=null")` and similar. These are modelled as null tests. The textual test also fires when a field's value begins with "null", or when another text field contains such a fragment. For example, the email `nullius@x.com` prints as `email=nullius@x.com`: a patch with it keeps the old email (src/main/java/ru/practicum/shareit/user/UserServiceImpl.java:47-49), and create refuses it (line 71). A name beginning with "null" is likewise kept from the old user on patch (line 50). The model does not capture these cases.
- ItemService.CreateItem: the request body can carry an id. The source discards it too: `ItemMapper.toItem` builds a new Item without it, and the returned body gets the saved id.
- UserService.CreateUser: the request body can carry an id; that is not modelled.
- ItemServiceUnpaged.CreateItem: the source saves the body Item as received, with the request link and any id it carries (src/main/java/ru/practicum/shareit/item/ItemServiceImpl.java:38-45). The model takes the body as an `ItemShort` and gives the saved item a fresh id and no request. Neither the body's request link nor a body id is modelled.
- `getItems`: only its two booking lists and their equalisation are modelled (`ItemService.Equalise`, `ItemService.OwnerBookingLists`). The nested loops that build the result are not modelled. They compare ids by bitwise `&` and repeat items once per comment. The `UnsupportedOperationException` that mocked immutable lists raise is also not modelled.
- `getItems` does not check `from` or `size`, and the model puts no precondition on them.
- The older tree's `createBooking`, `updateBookingStatus`, `getBooking`, `createComment`, `updateItem`, `getItem` and `getItems` give the same results as the server versions, so they are modelled once, by `BookingService` and `ItemService`. The older `updateItem` checks ownership through `getItem` before its own existence check, but the errors reached are the same.
- `ItemService.UpdateItem` reads the owner from the stored item. The source reads it from the view that `getItem` builds, which holds the same owner.
- `CommentDto` also has a constant id and a creation instant. The item view's owner is kept as an id. ItemDto's fifth constructor `(name, description, available)` is not one of the record-building constructors and is not modelled.
- `UserService.DeleteUser` keeps the store invariant only when no booking or comment refers to the user. What the database does with such references is not modelled.
- ItemRequestService.GetItemRequests: for an existing user, requires `size >= 1` and a non-negative page index. Outside that range the source throws from the division or from PageRequest.of, and the model does not describe those exceptions. A missing user gets NotFound first, for any `from` and `size`, and the model states that.
