/**
 * The explore page: a read-only product catalogue, a quantity chosen per
 * product, and the import of one product as a checklist item.
 */
module Explore {
  import opened Wrappers
  import opened Items
  import opened Checklist

  /** A catalogue entry; prices are whole units of the catalogue's currency. */
  datatype Product = Product(
    id: int,
    title: string,
    thumbnail: string,
    price: int,
    category: string,
    description: string)

  /** Rupiah per catalogue currency unit. */
  const ExchangeRate := 15000

  /** The price the product card shows: `price * 15000`. */
  function DisplayPrice(p: Product): int {
    p.price * ExchangeRate
  }

  /** `quantities[id] || 1`: the chosen quantity, 1 while none (or 0) is stored. The input shows this same value. */
  function QuantityFor(quantities: map<int, int>, id: int): (q: int)
    ensures q != 0
    ensures id in quantities && quantities[id] != 0 ==> q == quantities[id]
    ensures (id !in quantities || quantities[id] == 0) ==> q == 1
  {
    if id in quantities && quantities[id] != 0 then quantities[id] else 1
  }

  /**
   * The body `saveItem` posts: the title as label, the category, the
   * description as notes, the thumbnail as photo, the price converted at the
   * fixed rate; priority, due date and done are left to the API.
   */
  function ImportDraft(p: Product, quantity: int): (d: Draft)
    ensures d.name == p.title && d.quantity == quantity
    ensures d.category == Some(p.category) && d.notes == Some(p.description) && d.photo == Some(p.thumbnail)
    ensures d.unitCost == DisplayPrice(p)
    ensures d.priority.None? && d.dueDate.None? && d.done.None?
  {
    Draft(p.title, quantity, Some(p.category), None, Some(p.description),
          p.price * 15000, None, Some(p.thumbnail), None)
  }

  /**
   * The input stores `Number(v) || 1` for product `id`, and the save reads
   * that same value back, whatever else the map holds.
   */
  lemma SavedQuantityIsTyped(quantities: map<int, int>, id: int, v: Option<int>)
    ensures QuantityFor(quantities[id := OrElse(v, 1)], id) == OrElse(v, 1)
  {
  }

  /**
   * The item the API creates from an import: not done, medium priority,
   * labelled with the title, and its line cost is the shown price times the
   * chosen quantity.
   */
  lemma ImportedItem(p: Product, quantity: int, id: string)
    ensures var it := Created(ImportDraft(p, quantity), id);
      && it.name == p.title && it.category == Some(p.category) && !it.done && it.priority == Medium
      && LineCost(it) == DisplayPrice(p) * quantity
  {
  }

  class ExplorePage {
    var quantities: map<int, int>
    const api: ItemStore

    constructor (api: ItemStore)
      ensures this.api == api && quantities == map[]
    {
      this.api := api;
      quantities := map[];
    }

    /** `handleQuantityChange(productId, quantity)`: sets that product's entry, every other entry stays. */
    method HandleQuantityChange(productId: int, quantity: int)
      modifies this
      ensures quantities == old(quantities)[productId := quantity]
      ensures forall id :: id != productId ==> QuantityFor(quantities, id) == QuantityFor(old(quantities), id)
    {
      quantities := quantities[productId := quantity];
    }

    /** The quantity input of a product card: `Number(value) || 1`, so 0 and `NaN` are never stored. */
    method QuantityInput(productId: int, value: Option<int>)
      modifies this
      ensures quantities == old(quantities)[productId := OrElse(value, 1)]
      ensures quantities[productId] != 0
    {
      HandleQuantityChange(productId, OrElse(value, 1));
    }

    /**
     * `saveItem(p)`: posts the product under the chosen quantity; the page
     * moves to the checklist only when the post succeeds.
     */
    method SaveItem(p: Product, delivered: bool, newId: string) returns (sent: Request, navigate: bool)
      modifies api
      ensures sent == Post(ImportDraft(p, QuantityFor(quantities, p.id)))
      ensures navigate == delivered
      ensures api.records == if delivered then old(api.records) + [Created(sent.body, newId)] else old(api.records)
    {
      var quantity := QuantityFor(quantities, p.id);
      sent := Post(ImportDraft(p, quantity));
      api.Handle(sent, delivered, newId);
      navigate := delivered;
    }
  }
}
