/** ItemRequestServiceImpl of the server module: creating a request and listing
    requests with the items created for them. */
module ItemRequestService {
  import opened Common
  import opened Entities
  import opened Repository
  import opened ItemRequestMapper

  /** createItemRequest: the caller must exist, then the description must be
      present and not blank; the request is created at `now`. */
  method CreateItemRequest(st: Store, userId: int, description: Option<string>, now: int)
    returns (r: Result<ItemRequest>)
    requires st.Valid()
    modifies st`requests, st`nextRequestId
    ensures st.Valid()
    ensures userId !in st.users ==> r == Err(NotFound) && st.requests == old(st.requests)
    ensures userId in st.users && (description.None? || IsBlank(description.value)) ==>
              r == Err(Validation) && st.requests == old(st.requests)
    ensures userId in st.users && description.Some? && !IsBlank(description.value) ==>
              && r.Ok? && r.value == ItemRequest(r.value.id, description.value, userId, now)
              && r.value.id !in old(st.requests)
              && st.requests == old(st.requests)[r.value.id := r.value]
  {
    if userId !in st.users {
      return Err(NotFound);
    }
    if description.None? || IsBlank(description.value) {
      return Err(Validation);
    }
    var saved := st.InsertRequest(ItemRequest(0, description.value, userId, now));
    r := Ok(saved);
  }

  /** Items found by findAllByRequest_Id always have a request. */
  lemma ItemsForLinked(st: Store, requestId: int)
    requires st.Valid()
    ensures AllLinked(ItemsFor(st, requestId))
  {
  }

  /** The view of a request: its fields and the summaries of every item created for it. */
  function RequestView(st: Store, q: ItemRequest): (d: ItemRequestDto)
    reads st
    requires st.Valid()
    ensures Heads(d, q)
    ensures |d.items| == |ItemsFor(st, q.id)|
    ensures forall s | s in d.items :: s.requestId == q.id
    ensures forall i | i in st.items.Values && i.requestId == Some(q.id) ::
              exists k | 0 <= k < |d.items| :: d.items[k] == ShortOf(i)
  {
    ItemsForLinked(st, q.id);
    var items := ItemsFor(st, q.id);
    var d := ItemRequestDto(q.id, q.description, q.created, ShortsOf(items));
    assert forall i | i in st.items.Values && i.requestId == Some(q.id) ::
             exists k | 0 <= k < |d.items| :: d.items[k] == ShortOf(i) by {
      forall i | i in st.items.Values && i.requestId == Some(q.id)
        ensures exists k | 0 <= k < |d.items| :: d.items[k] == ShortOf(i)
      {
        var k :| 0 <= k < |items| && items[k] == i;
        assert d.items[k] == ShortOf(i);
      }
    }
    assert forall s | s in d.items :: s.requestId == q.id by {
      forall s | s in d.items
        ensures s.requestId == q.id
      {
        var k :| 0 <= k < |d.items| && d.items[k] == s;
        assert items[k] in items;
      }
    }
    d
  }

  /** The loop both listings run: one view per request, in the order given; a
      request without items goes through the no-item overload. */
  method Views(st: Store, qs: seq<ItemRequest>) returns (views: seq<ItemRequestDto>)
    requires st.Valid()
    ensures |views| == |qs|
    ensures forall k | 0 <= k < |qs| :: views[k] == RequestView(st, qs[k])
  {
    views := [];
    for k := 0 to |qs|
      invariant |views| == k
      invariant forall j | 0 <= j < k :: views[j] == RequestView(st, qs[j])
    {
      var q := qs[k];
      var items := ItemsFor(st, q.id);
      ItemsForLinked(st, q.id);
      var d: ItemRequestDto;
      if items != [] {
        d := ToDtoWithItems(q, items);
        assert d.items == ShortsOf(items);
      } else {
        d := ToDto(q);
      }
      views := views + [d];
    }
  }

  /** getItemRequestsOwn: one view per request of the caller, in store order. */
  method GetItemRequestsOwn(st: Store, userId: int) returns (r: Result<seq<ItemRequestDto>>)
    requires st.Valid()
    ensures userId !in st.users <==> r == Err(NotFound)
    ensures r.Ok? <==> userId in st.users
    ensures r.Ok? ==> var own := RequestsBy(st, userId);
                      && |r.value| == |own|
                      && forall k | 0 <= k < |own| :: r.value[k] == RequestView(st, own[k])
    ensures r.Ok? ==> forall d | d in r.value :: d.id in st.requests && st.requests[d.id].requesterId == userId
  {
    if userId !in st.users {
      return Err(NotFound);
    }
    var own := RequestsBy(st, userId);
    if own == [] {
      return Ok([]);
    }
    var views := Views(st, own);
    r := Ok(views);
    forall d | d in views
      ensures d.id in st.requests && st.requests[d.id].requesterId == userId
    {
      var k :| 0 <= k < |views| && views[k] == d;
      assert own[k] in own;
    }
  }

  /** getItemRequests: page `from / size` of the other users' requests, newest first.
      The user lookup comes first, so a missing user is NotFound whatever `from` and
      `size` are. For an existing user, PageRequest.of refuses a negative page index
      and a size below one, and `from / size` divides by zero when size is 0. */
  method GetItemRequests(st: Store, userId: int, from: int, size: int) returns (r: Result<seq<ItemRequestDto>>)
    requires st.Valid()
    requires userId in st.users ==> size >= 1 && JavaDiv(from, size) >= 0
    ensures userId !in st.users <==> r == Err(NotFound)
    ensures r.Ok? <==> userId in st.users
    ensures r.Ok? ==> var others := Page(RequestsNotBy(st, userId), JavaDiv(from, size), size);
                      && |r.value| == |others| <= size
                      && forall k | 0 <= k < |others| :: r.value[k] == RequestView(st, others[k])
    ensures r.Ok? ==> forall d | d in r.value :: d.id in st.requests && st.requests[d.id].requesterId != userId
    ensures r.Ok? ==> forall j, k | 0 <= j < k < |r.value| :: r.value[j].created >= r.value[k].created
  {
    if userId !in st.users {
      return Err(NotFound);
    }
    var all := RequestsNotBy(st, userId);
    var others := Page(all, JavaDiv(from, size), size);
    PageOfSorted(all, JavaDiv(from, size), size, CreatedOf);
    var views := Views(st, others);
    r := Ok(views);
    forall d | d in views
      ensures d.id in st.requests && st.requests[d.id].requesterId != userId
    {
      var k :| 0 <= k < |views| && views[k] == d;
      assert others[k] in others;
    }
    forall j, k | 0 <= j < k < |views|
      ensures views[j].created >= views[k].created
    {
      assert CreatedOf(others[j]) >= CreatedOf(others[k]);
    }
  }

  /** getItemRequest: the request with at most one of its items, the first in store order. */
  function GetItemRequest(st: Store, userId: int, requestId: int): (r: Result<ItemRequestDto>)
    reads st
    requires st.Valid()
    ensures r.Ok? <==> userId in st.users && requestId in st.requests
    ensures r.Err? ==> r.error == NotFound
    ensures r.Ok? ==> Heads(r.value, st.requests[requestId]) && |r.value.items| <= 1
    ensures r.Ok? ==> (r.value.items == [] <==>
                         forall i | i in st.items.Values :: i.requestId != Some(requestId))
    ensures r.Ok? && r.value.items != [] ==>
              exists i | i in st.items.Values && i.requestId == Some(requestId) :: r.value.items[0] == ShortOf(i)
  {
    if userId !in st.users then Err(NotFound)
    else if requestId !in st.requests then Err(NotFound)
    else
      var q := st.requests[requestId];
      var items := ItemsFor(st, requestId);
      if items != [] then
        assert items[0] in items;
        Ok(ToDtoWithItem(q, items[0]))
      else Ok(ToDto(q))
  }
}
