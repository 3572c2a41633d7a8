/** ItemRequestMapper: the view of an item request with the items created for it. */
module ItemRequestMapper {
  import opened Common
  import opened Entities

  datatype ItemRequestDto = ItemRequestDto(id: int, description: string, created: int, items: seq<ItemShort>)

  /** The summary of an item created for a request; `item.getRequest().getId()`
      needs the item to have a request. */
  function ShortOf(item: Item): (s: ItemShort)
    requires item.requestId.Some?
    ensures s.id == item.id && s.name == Some(item.name) && s.description == Some(item.description)
    ensures s.available == Some(item.available) && s.requestId == item.requestId.value
  {
    ItemShort(item.id, Some(item.name), Some(item.description), Some(item.available), item.requestId.value)
  }

  ghost predicate AllLinked(items: seq<Item>)
  {
    forall k | 0 <= k < |items| :: items[k].requestId.Some?
  }

  /** The summaries of `items`, one per item and in the same order. */
  function ShortsOf(items: seq<Item>): (r: seq<ItemShort>)
    requires AllLinked(items)
    ensures |r| == |items| && forall k | 0 <= k < |items| :: r[k] == ShortOf(items[k])
  {
    seq(|items|, k requires 0 <= k < |items| => ShortOf(items[k]))
  }

  /** The view copies the request's id, description and creation instant. */
  predicate Heads(d: ItemRequestDto, q: ItemRequest)
  {
    d.id == q.id && d.description == q.description && d.created == q.created
  }

  /** toItemRequestDto(request, items): one summary per item, built in a loop. */
  method ToDtoWithItems(q: ItemRequest, items: seq<Item>) returns (d: ItemRequestDto)
    requires AllLinked(items)
    ensures Heads(d, q)
    ensures |d.items| == |items|
    ensures forall k | 0 <= k < |items| :: d.items[k] == ShortOf(items[k])
  {
    var shorts: seq<ItemShort> := [];
    for k := 0 to |items|
      invariant |shorts| == k
      invariant forall j | 0 <= j < k :: shorts[j] == ShortOf(items[j])
    {
      shorts := shorts + [ShortOf(items[k])];
    }
    d := ItemRequestDto(q.id, q.description, q.created, shorts);
  }

  /** toItemRequestDto(request): no items. */
  function ToDto(q: ItemRequest): (d: ItemRequestDto)
    ensures Heads(d, q) && d.items == []
  {
    ItemRequestDto(q.id, q.description, q.created, [])
  }

  /** toItemRequestDto(request, item): exactly that item. */
  function ToDtoWithItem(q: ItemRequest, item: Item): (d: ItemRequestDto)
    requires item.requestId.Some?
    ensures Heads(d, q) && d.items == [ShortOf(item)]
  {
    ItemRequestDto(q.id, q.description, q.created, [ShortOf(item)])
  }

  /** The three overloads agree: no items is the empty list, one item the singleton list. */
  lemma OverloadsAgree(q: ItemRequest, item: Item)
    requires item.requestId.Some?
    ensures ToDto(q).items == ShortsOf([])
    ensures ToDtoWithItem(q, item).items == ShortsOf([item])
  {
  }
}
