/**
 * The checklist page as a stateful component: the item list, the add form
 * and the filter bar are fields; each handler is a method. A mutation goes
 * to the `ItemStore` and, when it succeeds, the page re-reads the whole
 * collection (`fetchItems`), which may itself fail and leave the list stale.
 */
module ChecklistState {
  import opened Wrappers
  import opened Text
  import opened Items
  import opened Checklist

  class ChecklistPage {
    var items: seq<Item>
    var text: string
    var quantity: int
    var category: string
    var priority: Priority
    var notes: string
    var unitCost: int
    var dueDate: Option<Day>
    var searchTerm: string
    var filterCategory: string
    var filterStatus: Status
    const api: ItemStore

    /** The page as it mounts: an empty list, an empty form and no filter. */
    constructor (api: ItemStore)
      ensures this.api == api && items == []
      ensures CurrentForm() == EmptyForm
      ensures searchTerm == "" && filterCategory == "" && filterStatus == All
    {
      this.api := api;
      items := [];
      text, quantity, category, priority := "", 1, "", Medium;
      notes, unitCost, dueDate := "", 0, None;
      searchTerm, filterCategory, filterStatus := "", "", All;
    }

    /** The add form's current inputs. */
    function CurrentForm(): Form
      reads this
    {
      Form(text, quantity, category, priority, notes, unitCost, dueDate)
    }

    /** `filteredItems`: what the list shows. */
    function Visible(): seq<Item>
      reads this
    {
      Filtered(items, searchTerm, filterCategory, filterStatus)
    }

    /** `fetchItems`: on success the list becomes the stored collection, on failure it stays. */
    method Refresh(ok: bool)
      modifies this
      ensures items == if ok then api.records else old(items)
      ensures CurrentForm() == old(CurrentForm())
      ensures searchTerm == old(searchTerm) && filterCategory == old(filterCategory) && filterStatus == old(filterStatus)
    {
      if ok {
        items := api.records;
      }
    }

    /**
     * `addItem`: a blank label sends nothing and changes nothing. Otherwise
     * the draft is posted; when the post succeeds the list is re-read and
     * the form is cleared, when it fails everything stays.
     */
    method AddItem(delivered: bool, refreshed: bool, newId: string) returns (sent: Option<Request>)
      modifies this, api
      ensures sent == PostOf(AddDraft(old(CurrentForm())))
      ensures sent.None? ==> api.records == old(api.records) && items == old(items) && CurrentForm() == old(CurrentForm())
      ensures sent.Some? ==> api.records == if delivered then old(api.records) + [Created(sent.value.body, newId)] else old(api.records)
      ensures sent.Some? ==> items == if delivered && refreshed then api.records else old(items)
      ensures sent.Some? ==> CurrentForm() == if delivered then EmptyForm else old(CurrentForm())
      ensures searchTerm == old(searchTerm) && filterCategory == old(filterCategory) && filterStatus == old(filterStatus)
    {
      sent := PostOf(AddDraft(CurrentForm()));
      if sent.None? {
        return;
      }
      api.Handle(sent.value, delivered, newId);
      if delivered {
        Refresh(refreshed);
        ClearForm();
      }
    }

    /** The field-by-field reset after a successful add. */
    method ClearForm()
      modifies this
      ensures CurrentForm() == EmptyForm && items == old(items)
      ensures searchTerm == old(searchTerm) && filterCategory == old(filterCategory) && filterStatus == old(filterStatus)
    {
      text := "";
      quantity := 1;
      category := "";
      priority := Medium;
      notes := "";
      unitCost := 0;
      dueDate := None;
    }

    /** Sends `req` (when there is one) and re-reads the list after a success; the form and filters stay. */
    method Send(req: Option<Request>, delivered: bool, refreshed: bool)
      requires req.Some? ==> !req.value.Post?
      modifies this, api
      ensures api.records == if req.Some? && delivered then Apply(old(api.records), req.value, "") else old(api.records)
      ensures items == if req.Some? && delivered && refreshed then api.records else old(items)
      ensures CurrentForm() == old(CurrentForm())
      ensures searchTerm == old(searchTerm) && filterCategory == old(filterCategory) && filterStatus == old(filterStatus)
    {
      if req.Some? {
        api.Handle(req.value, delivered, "");
        if delivered {
          Refresh(refreshed);
        }
      }
    }

    /** `toggleItem(id)`: nothing for an unknown id, else `PUT` of the item with `done` flipped. */
    method ToggleItem(id: string, delivered: bool, refreshed: bool) returns (sent: Option<Request>)
      modifies this, api
      ensures sent == ToggleRequest(old(items), id)
      ensures api.records == if sent.Some? && delivered then Apply(old(api.records), sent.value, "") else old(api.records)
      ensures items == if sent.Some? && delivered && refreshed then api.records else old(items)
      ensures CurrentForm() == old(CurrentForm())
      ensures searchTerm == old(searchTerm) && filterCategory == old(filterCategory) && filterStatus == old(filterStatus)
    {
      sent := ToggleRequest(items, id);
      Send(sent, delivered, refreshed);
    }

    /** `updateItem(id, updates)`: nothing for an unknown id, else `PUT` of the item merged with the update. */
    method UpdateItem(id: string, updates: Patch, delivered: bool, refreshed: bool) returns (sent: Option<Request>)
      modifies this, api
      ensures sent == UpdateRequest(old(items), id, updates)
      ensures api.records == if sent.Some? && delivered then Apply(old(api.records), sent.value, "") else old(api.records)
      ensures items == if sent.Some? && delivered && refreshed then api.records else old(items)
      ensures CurrentForm() == old(CurrentForm())
      ensures searchTerm == old(searchTerm) && filterCategory == old(filterCategory) && filterStatus == old(filterStatus)
    {
      sent := UpdateRequest(items, id, updates);
      Send(sent, delivered, refreshed);
    }

    /** `deleteItem(id)`: always sends `DELETE`, whether or not the list holds the id. */
    method DeleteItem(id: string, delivered: bool, refreshed: bool) returns (sent: Request)
      modifies this, api
      ensures sent == Delete(id)
      ensures api.records == if delivered then Apply(old(api.records), sent, "") else old(api.records)
      ensures items == if delivered && refreshed then api.records else old(items)
      ensures CurrentForm() == old(CurrentForm())
      ensures searchTerm == old(searchTerm) && filterCategory == old(filterCategory) && filterStatus == old(filterStatus)
    {
      sent := Delete(id);
      Send(Some(sent), delivered, refreshed);
    }

    /** The minus button on the row of `it`. */
    method Decrement(it: Item, delivered: bool, refreshed: bool) returns (sent: Option<Request>)
      modifies this, api
      ensures sent == DecrementRequest(old(items), it)
      ensures api.records == if sent.Some? && delivered then Apply(old(api.records), sent.value, "") else old(api.records)
      ensures items == if sent.Some? && delivered && refreshed then api.records else old(items)
      ensures CurrentForm() == old(CurrentForm())
      ensures searchTerm == old(searchTerm) && filterCategory == old(filterCategory) && filterStatus == old(filterStatus)
    {
      var newQuantity := it.quantity - 1;
      if newQuantity > 0 {
        sent := UpdateItem(it.id, QuantityChange(newQuantity), delivered, refreshed);
      } else {
        var del := DeleteItem(it.id, delivered, refreshed);
        sent := Some(del);
      }
    }

    /** The plus button on the row of `it`. */
    method Increment(it: Item, delivered: bool, refreshed: bool) returns (sent: Option<Request>)
      modifies this, api
      ensures sent == IncrementRequest(old(items), it)
      ensures api.records == if sent.Some? && delivered then Apply(old(api.records), sent.value, "") else old(api.records)
      ensures items == if sent.Some? && delivered && refreshed then api.records else old(items)
      ensures CurrentForm() == old(CurrentForm())
      ensures searchTerm == old(searchTerm) && filterCategory == old(filterCategory) && filterStatus == old(filterStatus)
    {
      ghost var before := items;
      sent := UpdateItem(it.id, QuantityChange(it.quantity + 1), delivered, refreshed);
      assert sent == IncrementRequest(before, it);
    }

    /** The quantity input: `Number(value) || 1`, so neither 0 nor `NaN` is kept. */
    method SetQuantityInput(value: Option<int>)
      modifies this
      ensures quantity == OrElse(value, 1) && quantity != 0
      ensures items == old(items) && CurrentForm() == old(CurrentForm()).(quantity := quantity)
      ensures searchTerm == old(searchTerm) && filterCategory == old(filterCategory) && filterStatus == old(filterStatus)
    {
      quantity := OrElse(value, 1);
    }

    /** The unit-cost input: `Number(value) || 0`, so `NaN` reads as 0. */
    method SetUnitCostInput(value: Option<int>)
      modifies this
      ensures unitCost == OrElse(value, 0) && (value.None? ==> unitCost == 0)
      ensures items == old(items) && CurrentForm() == old(CurrentForm()).(unitCost := unitCost)
      ensures searchTerm == old(searchTerm) && filterCategory == old(filterCategory) && filterStatus == old(filterStatus)
    {
      unitCost := OrElse(value, 0);
    }

    /** The Reset button: clears the three filters, after which every item is shown. */
    method ResetFilters()
      modifies this
      ensures searchTerm == "" && filterCategory == "" && filterStatus == All
      ensures items == old(items) && CurrentForm() == old(CurrentForm())
      ensures Visible() == items
    {
      searchTerm := "";
      filterCategory := "";
      filterStatus := All;
      FilteredAfterReset(items);
    }
  }
}
