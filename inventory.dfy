/** The stock side effects of the order code: one `$inc` of `stock` and
    `soldCount` per order line, issued through `findByIdAndUpdate`, which
    leaves the table alone when the product no longer exists. Reserving
    takes `quantity` from stock and adds it to the sold count; releasing
    does the opposite. */
module Inventory {
  import opened Catalog
  import opened OrderModel

  type Products = map<ProductId, Product>

  /** One `$inc: { stock: -sign * q, soldCount: sign * q }`. */
  function Bump(p: Product, delta: int): (r: Product)
    ensures r == p.(stock := p.stock - delta, soldCount := p.soldCount + delta)
  {
    p.(stock := p.stock - delta, soldCount := p.soldCount + delta)
  }

  /** The update for one line; a product that is gone is skipped. */
  function AdjustLine(ps: Products, it: OrderItem, sign: int): (r: Products)
    ensures r.Keys == ps.Keys
  {
    if it.productId in ps then ps[it.productId := Bump(ps[it.productId], sign * it.quantity)] else ps
  }

  /** The updates for `items`, applied in order. */
  function Adjust(ps: Products, items: seq<OrderItem>, sign: int): (r: Products)
    ensures r.Keys == ps.Keys
    decreases |items|
  {
    if items == [] then ps
    else AdjustLine(Adjust(ps, items[..|items| - 1], sign), items[|items| - 1], sign)
  }

  function Reserve(ps: Products, items: seq<OrderItem>): Products {
    Adjust(ps, items, 1)
  }

  function Release(ps: Products, items: seq<OrderItem>): Products {
    Adjust(ps, items, -1)
  }

  /** The total quantity `items` asks of product `id`, over all its lines. */
  function QuantityOf(items: seq<OrderItem>, id: ProductId): int
    decreases |items|
  {
    if items == [] then 0
    else QuantityOf(items[..|items| - 1], id) + (if items[|items| - 1].productId == id then items[|items| - 1].quantity else 0)
  }

  /** A product's counters after the updates moved by the total quantity of
      its lines, all other fields unchanged; with repeated lines the moves
      add up, which is why a per-line stock check can still overdraw. */
  lemma {:induction false} AdjustAt(ps: Products, items: seq<OrderItem>, sign: int, id: ProductId)
    requires id in ps
    ensures Adjust(ps, items, sign)[id] == Bump(ps[id], sign * QuantityOf(items, id))
    decreases |items|
  {
    if items != [] {
      var init := items[..|items| - 1];
      var last := items[|items| - 1];
      AdjustAt(ps, init, sign, id);
      var q0 := QuantityOf(init, id);
      if last.productId == id {
        assert sign * q0 + sign * last.quantity == sign * (q0 + last.quantity);
      }
    }
  }

  /** A product that no line names keeps its counters. */
  lemma {:induction false} NotOrderedUnchanged(items: seq<OrderItem>, id: ProductId)
    requires forall i :: 0 <= i < |items| ==> items[i].productId != id
    ensures QuantityOf(items, id) == 0
    decreases |items|
  {
    if items != [] {
      NotOrderedUnchanged(items[..|items| - 1], id);
    }
  }

  /** After a reservation each ordered product has `stock - q` and
      `soldCount + q` for its total ordered quantity `q`; products no line
      names are unchanged, and no product is added or removed. */
  lemma ReserveEffect(ps: Products, items: seq<OrderItem>)
    ensures Reserve(ps, items).Keys == ps.Keys
    ensures forall id :: id in ps ==>
      Reserve(ps, items)[id].stock == ps[id].stock - QuantityOf(items, id) &&
      Reserve(ps, items)[id].soldCount == ps[id].soldCount + QuantityOf(items, id) &&
      Reserve(ps, items)[id] == ps[id].(stock := Reserve(ps, items)[id].stock,
                                        soldCount := Reserve(ps, items)[id].soldCount)
    ensures forall id :: id in ps && (forall i :: 0 <= i < |items| ==> items[i].productId != id) ==>
      Reserve(ps, items)[id] == ps[id]
  {
    forall id | id in ps
      ensures Reserve(ps, items)[id] == Bump(ps[id], QuantityOf(items, id))
    {
      AdjustAt(ps, items, 1, id);
    }
    forall id | id in ps && (forall i :: 0 <= i < |items| ==> items[i].productId != id)
      ensures QuantityOf(items, id) == 0
    {
      NotOrderedUnchanged(items, id);
    }
  }

  /** After a release each ordered product has its total ordered quantity
      added back to stock and taken off its sold count; products no line
      names are unchanged. */
  lemma ReleaseEffect(ps: Products, items: seq<OrderItem>)
    ensures Release(ps, items).Keys == ps.Keys
    ensures forall id :: id in ps ==>
      Release(ps, items)[id].stock == ps[id].stock + QuantityOf(items, id) &&
      Release(ps, items)[id].soldCount == ps[id].soldCount - QuantityOf(items, id) &&
      Release(ps, items)[id] == ps[id].(stock := Release(ps, items)[id].stock,
                                        soldCount := Release(ps, items)[id].soldCount)
  {
    forall id | id in ps
      ensures Release(ps, items)[id] == Bump(ps[id], -1 * QuantityOf(items, id))
    {
      AdjustAt(ps, items, -1, id);
    }
  }

  /** A release of the same lines, with no other change to the table in
      between, puts every counter back. */
  lemma ReleaseUndoesReserve(ps: Products, items: seq<OrderItem>)
    ensures Release(Reserve(ps, items), items) == ps
  {
    var mid := Reserve(ps, items);
    var back := Release(mid, items);
    forall id | id in ps
      ensures back[id] == ps[id]
    {
      AdjustAt(ps, items, 1, id);
      AdjustAt(mid, items, -1, id);
    }
    assert back.Keys == ps.Keys;
  }
}
