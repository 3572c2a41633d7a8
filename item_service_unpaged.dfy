/** ItemServiceImpl of the single-module version. Creating an item saves the
    body with its owner set and returns the saved item, and search is not paged. Comments,
    patching, the item view and the list equalisation behave as ItemService
    models them. */
module ItemServiceUnpaged {
  import opened Common
  import opened Entities
  import opened Repository
  import ItemService

  /** createItem(userId, item): the same validation; the saved item is owned by the
      caller and is returned with its new id. The body's fields are carried by an
      ItemShort; its request link and any id of its own are not modelled, so the
      saved item has none. */
  method CreateItem(st: Store, userId: int, s: ItemShort) returns (r: Result<Item>)
    requires st.Valid()
    modifies st`items, st`nextItemId
    ensures st.Valid()
    ensures ItemService.ValidationCheck(userId, s).Fail? ==> r == Err(Validation) && st.items == old(st.items)
    ensures ItemService.ValidationCheck(userId, s) == Pass && userId !in st.users ==>
              r == Err(NotFound) && st.items == old(st.items)
    ensures ItemService.ValidationCheck(userId, s) == Pass && userId in st.users ==>
              && r.Ok? && r.value.id !in old(st.items)
              && r.value == Item(r.value.id, s.name.value, s.description.value, s.available.value, userId, None)
              && st.items == old(st.items)[r.value.id := r.value]
  {
    if ItemService.ValidationCheck(userId, s).Fail? {
      return Err(Validation);
    }
    if userId !in st.users {
      return Err(NotFound);
    }
    var saved := st.InsertItem(Item(0, s.name.value, s.description.value, s.available.value, userId, None));
    r := Ok(saved);
  }

  /** getItemSearch(userId, text): blank text finds nothing; otherwise every matching item. */
  function GetItemSearch(st: Store, text: string): (r: seq<Item>)
    reads st
    requires st.Valid()
    ensures IsBlank(text) ==> r == []
    ensures !IsBlank(text) ==> forall i | i in st.items.Values ::
              (i in r <==> ContainsIgnoreCase(i.name, text) || (ContainsIgnoreCase(i.description, text) && i.available))
    ensures forall i | i in r :: i in st.items.Values
  {
    if IsBlank(text) then [] else SearchItems(st, text)
  }

  /** Page 0 of the paged search, when it can hold every match, equals the unpaged search. */
  lemma {:induction false} FirstSearchPageIsWholeSearch(st: Store, text: string, size: int)
    requires st.Valid()
    requires size > 0 && size >= |GetItemSearch(st, text)|
    ensures ItemService.GetItemSearch(st, text, 0, size) == Ok(GetItemSearch(st, text))
  {
    if !IsBlank(text) {
      PageWhole(SearchItems(st, text), size);
    }
  }
}
