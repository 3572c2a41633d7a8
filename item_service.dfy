/** ItemServiceImpl of the server module: creating and patching items, comments,
    the item view with its booking summaries, the owner's booking lists and search. */
module ItemService {
  import opened Common
  import opened Entities
  import opened Repository
  import opened CommentMapper
  import opened ItemDtos

  /** validationCheck: name and description present, name not blank, available
      present, and a caller id other than 0. */
  function ValidationCheck(userId: int, s: ItemShort): (r: Outcome)
    ensures r == Pass <==> && s.name.Some? && s.description.Some? && !IsBlank(s.name.value)
                           && s.available.Some? && userId != 0
    ensures r != Pass ==> r == Fail(Validation)
  {
    if s.description.None? || s.name.None? || IsBlank(s.name.value) then Fail(Validation)
    else if s.available.None? then Fail(Validation)
    else if userId == 0 then Fail(Validation)
    else Pass
  }

  /** validationCheckPatch: a caller id other than 0. */
  function ValidationCheckPatch(userId: int): (r: Outcome)
    ensures r == Pass <==> userId != 0
    ensures r != Pass ==> r == Fail(Validation)
  {
    if userId == 0 then Fail(Validation) else Pass
  }

  /** The request an item links to: findFirstById gives null for an unknown id. */
  function RequestLink(st: Store, requestId: int): (r: Option<int>)
    reads st
    ensures r.Some? <==> requestId in st.requests
    ensures r.Some? ==> r.value == requestId
  {
    if requestId in st.requests then Some(requestId) else None
  }

  /** createItem: a valid item of an existing caller is saved, owned by the caller;
      the returned record is the input with the new id. */
  method CreateItem(st: Store, userId: int, s: ItemShort) returns (r: Result<ItemShort>)
    requires st.Valid()
    modifies st`items, st`nextItemId
    ensures st.Valid()
    ensures ValidationCheck(userId, s).Fail? ==> r == Err(Validation) && st.items == old(st.items)
    ensures ValidationCheck(userId, s) == Pass && userId !in st.users ==>
              r == Err(NotFound) && st.items == old(st.items)
    ensures ValidationCheck(userId, s) == Pass && userId in st.users ==>
              && r.Ok? && r.value == s.(id := r.value.id) && r.value.id !in old(st.items)
              && st.items == old(st.items)[r.value.id :=
                   Item(r.value.id, s.name.value, s.description.value, s.available.value, userId,
                        RequestLink(st, s.requestId))]
  {
    if ValidationCheck(userId, s).Fail? {
      return Err(Validation);
    }
    if userId !in st.users {
      return Err(NotFound);
    }
    var link := RequestLink(st, s.requestId);
    var item := Item(0, s.name.value, s.description.value, s.available.value, userId, link);
    var saved := st.InsertItem(item);
    r := Ok(s.(id := saved.id));
  }

  /** The guards of createComment applied to `latest`, the booking the query picked:
      blank text, no booking, a booking of someone else, a booking not approved, and
      a booking starting more than three days from now are refused. */
  function CommentChecks(text: string, latest: Option<Booking>, userId: int, now: int): (r: Result<Booking>)
    ensures IsBlank(text) ==> r == Err(Validation)
    ensures !IsBlank(text) && latest.None? ==> r == Err(NotFound)
    ensures !IsBlank(text) && latest.Some? && r.Err? ==> r.error == Validation
    ensures r.Err? ==> r.error != Duplicate
    ensures r.Ok? <==> && !IsBlank(text) && latest.Some? && latest.value.bookerId == userId
                       && latest.value.status == Approved && latest.value.start <= now + 3 * DAY
    ensures r.Ok? ==> r.value == latest.value
  {
    if IsBlank(text) then Err(Validation)
    else match latest
      case None => Err(NotFound)
      case Some(b) =>
        if b.bookerId != userId then Err(Validation)
        else if b.status != Approved then Err(Validation)
        else if b.start > now + 3 * DAY then Err(Validation)
        else Ok(b)
  }

  /** The guards of createComment on the store, giving the booking the comment is
      written for: the caller's booking with the latest start among those not yet
      ended, which must be approved and start no later than three days from now. */
  function CommentGuard(st: Store, userId: int, text: string, now: int): (r: Result<Booking>)
    reads st
    requires st.Valid()
    ensures IsBlank(text) ==> r == Err(Validation)
    ensures !IsBlank(text) && LatestUnfinishedOf(st, userId, now).None? ==> r == Err(NotFound)
    ensures !IsBlank(text) && LatestUnfinishedOf(st, userId, now).Some? && r.Err? ==> r.error == Validation
    ensures r.Err? ==> r.error != Duplicate
    ensures r.Ok? ==> && !IsBlank(text)
                      && r.value in st.bookings.Values && r.value.bookerId == userId && r.value.end > now
                      && r.value.status == Approved && r.value.start <= now + 3 * DAY
    ensures r.Ok? ==> forall b | b in st.bookings.Values && b.bookerId == userId && b.end > now ::
                        b.start <= r.value.start
    ensures !IsBlank(text) && LatestUnfinishedOf(st, userId, now).Some? ==>
              (r.Ok? <==> LatestUnfinishedOf(st, userId, now).value.status == Approved
                          && LatestUnfinishedOf(st, userId, now).value.start <= now + 3 * DAY)
  {
    CommentChecks(text, LatestUnfinishedOf(st, userId, now), userId, now)
  }

  /** createComment: the comment is stored on the booking's item with the booking's
      booker as author; the item id of the request path plays no part. */
  method CreateComment(st: Store, userId: int, itemId: int, text: string, now: int) returns (r: Result<CommentDto>)
    requires st.Valid()
    modifies st`comments, st`nextCommentId
    ensures st.Valid()
    ensures old(CommentGuard(st, userId, text, now)).Err? ==>
              r == Err(old(CommentGuard(st, userId, text, now)).error) && st.comments == old(st.comments)
    ensures old(CommentGuard(st, userId, text, now)).Ok? ==>
              var b := old(CommentGuard(st, userId, text, now)).value;
              var id := old(st.nextCommentId);
              && b.bookerId in st.users
              && r == Ok(BookingToCommentDto(b, st.users[b.bookerId], text))
              && id !in old(st.comments)
              && st.comments == old(st.comments)[id := Comment(id, text, b.itemId, b.bookerId)]
  {
    var g := CommentGuard(st, userId, text, now);
    if g.Err? {
      return Err(g.error);
    }
    var b := g.value;
    var saved := st.InsertComment(ToComment(b, text));
    r := Ok(BookingToCommentDto(b, st.users[b.bookerId], text));
  }

  /** The stored item after a patch: each present field overwrites, each absent one keeps. */
  function Patched(item: Item, p: ItemPatch): (r: Item)
    ensures r.id == item.id && r.ownerId == item.ownerId && r.requestId == item.requestId
    ensures p.name.Some? ==> r.name == p.name.value
    ensures p.name.None? ==> r.name == item.name
    ensures p.description.Some? ==> r.description == p.description.value
    ensures p.description.None? ==> r.description == item.description
    ensures p.available.Some? ==> r.available == p.available.value
    ensures p.available.None? ==> r.available == item.available
  {
    var named := if p.name.Some? then item.(name := p.name.value) else item;
    var described := if p.description.Some? then named.(description := p.description.value) else named;
    if p.available.Some? then described.(available := p.available.value) else described
  }

  /** An empty patch changes nothing. */
  lemma EmptyPatchKeeps(item: Item)
    ensures Patched(item, ItemPatch(None, None, None)) == item
  {
  }

  /** Applying the same patch twice is applying it once. */
  lemma PatchIdempotent(item: Item, p: ItemPatch)
    ensures Patched(Patched(item, p), p) == Patched(item, p)
  {
  }

  /** The guards of updateItem in their order. */
  function UpdateGuard(st: Store, userId: int, itemId: int): (r: Outcome)
    reads st
    ensures userId == 0 ==> r == Fail(Validation)
    ensures r == Pass <==> userId != 0 && userId in st.users && itemId in st.items
                           && st.items[itemId].ownerId == userId
    ensures userId != 0 && r != Pass ==> r == Fail(NotFound)
  {
    if ValidationCheckPatch(userId).Fail? then Fail(Validation)
    else if userId !in st.users then Fail(NotFound)
    else if itemId !in st.items then Fail(NotFound)
    else if st.items[itemId].ownerId != userId then Fail(NotFound)
    else Pass
  }

  /** updateItem: the owner's patch replaces the stored item; no other item changes. */
  method UpdateItem(st: Store, userId: int, p: ItemPatch, itemId: int) returns (r: Result<Item>)
    requires st.Valid()
    modifies st`items
    ensures st.Valid()
    ensures old(UpdateGuard(st, userId, itemId)).Fail? ==>
              r == Err(old(UpdateGuard(st, userId, itemId)).error) && st.items == old(st.items)
    ensures old(UpdateGuard(st, userId, itemId)) == Pass ==>
              && r == Ok(Patched(old(st.items[itemId]), p))
              && st.items == old(st.items)[itemId := r.value]
  {
    var g := UpdateGuard(st, userId, itemId);
    if g.Fail? {
      return Err(g.error);
    }
    var updated := Patched(st.items[itemId], p);
    st.UpdateItem(updated);
    r := Ok(updated);
  }

  /** getItem: the item's own fields and all its comments; the last and next
      approved bookings only when the caller owns the item. */
  method GetItem(st: Store, userId: int, itemId: int, now: int) returns (r: Result<ItemDto>)
    requires st.Valid()
    ensures r.Ok? <==> userId in st.users && itemId in st.items
    ensures r.Err? ==> r.error == NotFound
    ensures r.Ok? ==> Describes(r.value, st.items[itemId])
    ensures r.Ok? ==> var cs := CommentsOf(st, itemId);
                      && |r.value.comments| == |cs|
                      && forall k | 0 <= k < |cs| ::
                           cs[k].authorId in st.users && r.value.comments[k] == ToCommentDto(cs[k], st.users[cs[k].authorId])
    ensures r.Ok? && st.items[itemId].ownerId == userId ==>
              && r.value.lastBooking == SummaryOf(LastApprovedOf(st, itemId, now))
              && r.value.nextBooking == SummaryOf(NextApprovedOf(st, itemId, now))
    ensures r.Ok? && st.items[itemId].ownerId != userId ==>
              r.value.lastBooking.None? && r.value.nextBooking.None?
  {
    if userId !in st.users {
      return Err(NotFound);
    }
    if itemId !in st.items {
      return Err(NotFound);
    }
    var comments := CommentsOf(st, itemId);
    var views: seq<CommentDto> := [];
    for k := 0 to |comments|
      invariant |views| == k
      invariant forall j | 0 <= j < k :: comments[j].authorId in st.users
                                        && views[j] == ToCommentDto(comments[j], st.users[comments[j].authorId])
    {
      var c := comments[k];
      views := views + [ToCommentDto(c, st.users[c.authorId])];
    }
    var last := LastApprovedOf(st, itemId, now);
    var next := NextApprovedOf(st, itemId, now);
    if last.Some? && next.Some? {
      var item := st.items[next.value.itemId];
      if item.ownerId == userId {
        return Ok(FromNextAndLast(next.value, item, last.value, views));
      }
    } else if next.None? && last.Some? {
      var item := st.items[last.value.itemId];
      if item.ownerId == userId {
        return Ok(FromLast(last.value, item, views));
      }
    } else if last.None? && next.Some? {
      var item := st.items[next.value.itemId];
      if item.ownerId == userId {
        return Ok(FromItemAndNext(item, next.value, views));
      }
    }
    r := Ok(FromItem(st.items[itemId], views));
  }

  /** The equalisation step of getItems: when both lists are non-empty, the longer
      one loses elements from its tail until both have the same length. */
  method Equalise<T>(last: seq<T>, next: seq<T>) returns (l: seq<T>, n: seq<T>)
    ensures last == [] || next == [] ==> l == last && n == next
    ensures last != [] && next != [] ==> |l| == |n| == Min(|last|, |next|)
    ensures |l| <= |last| && l == last[..|l|]
    ensures |n| <= |next| && n == next[..|n|]
  {
    l, n := last, next;
    if |l| > 0 && |n| > 0 {
      if |n| > |l| {
        while |n| != |l|
          invariant |l| <= |n| <= |next| && n == next[..|n|] && l == last
          decreases |n|
        {
          n := n[..|n| - 1];
        }
      } else if |l| > |n| {
        while |l| != |n|
          invariant |n| <= |l| <= |last| && l == last[..|l|] && n == next
          decreases |l|
        {
          l := l[..|l| - 1];
        }
      }
    }
  }

  /** The two booking lists getItems pairs up: the owner's approved bookings that
      started before `now` (latest first) and those starting after it (earliest
      first), equalised. */
  method OwnerBookingLists(st: Store, userId: int, now: int) returns (last: seq<Booking>, next: seq<Booking>)
    requires st.Valid()
    ensures forall b | b in last :: b in st.bookings.Values && OwnedBy(st.items, b, userId)
                                   && b.start < now && b.status == Approved
    ensures forall b | b in next :: b in st.bookings.Values && OwnedBy(st.items, b, userId)
                                   && b.start > now && b.status == Approved
    ensures SortedDesc(last, StartOf) && SortedDesc(next, NegStartOf)
    ensures var before := OwnerApprovedBefore(st, userId, now);
            var after := OwnerApprovedAfter(st, userId, now);
            && |last| <= |before| && |next| <= |after|
            && last == before[..|last|] && next == after[..|next|]
            && (before != [] && after != [] ==> |last| == |next| == Min(|before|, |after|))
            && (before == [] || after == [] ==> last == before && next == after)
  {
    var before := OwnerApprovedBefore(st, userId, now);
    var after := OwnerApprovedAfter(st, userId, now);
    last, next := Equalise(before, after);
    PrefixOfSorted(before, |last|, StartOf);
    PrefixOfSorted(after, |next|, NegStartOf);
  }

  lemma PrefixOfSorted<T>(s: seq<T>, k: nat, key: T -> int)
    requires k <= |s| && SortedDesc(s, key)
    ensures SortedDesc(s[..k], key)
    ensures forall x | x in s[..k] :: x in s
  {
  }

  /** getItemSearch: from and size are checked before the text; blank text finds
      nothing; otherwise page `from / size` of the matching items. */
  function GetItemSearch(st: Store, text: string, from: int, size: int): (r: Result<seq<Item>>)
    reads st
    requires st.Valid()
    ensures from < 0 || size <= 0 ==> r == Err(Validation)
    ensures from >= 0 && size > 0 ==> r.Ok?
    ensures r.Ok? && IsBlank(text) ==> r.value == []
    ensures r.Ok? && !IsBlank(text) ==> r.value == Page(SearchItems(st, text), from / size, size)
    ensures r.Ok? ==> |r.value| <= size && forall i | i in r.value ::
                        i in st.items.Values
                        && (ContainsIgnoreCase(i.name, text) || (ContainsIgnoreCase(i.description, text) && i.available))
  {
    if from < 0 then Err(Validation)
    else if size <= 0 then Err(Validation)
    else if IsBlank(text) then Ok([])
    else Ok(Page(SearchItems(st, text), from / size, size))
  }
}
