/** The two MongoDB collections the order code works on, products and
    orders, held by one mutable `Db` object, together with the value
    `Tables` that the specification functions of the controllers map from
    an old state to a new one. */
module Store {
  import opened Wrappers
  import opened Text
  import opened Catalog
  import opened OrderModel
  import opened Inventory

  /** The `_id` of an order document; the store hands them out as decimal
      strings of a counter, standing for MongoDB's ObjectId generation. */
  type OrderKey = string

  function KeyText(n: nat): OrderKey {
    NatToDecimal(n)
  }

  datatype Tables = Tables(products: Products, orders: map<OrderKey, Order>)

  /** The clock as the code reads it: `Date.now()`, the local calendar date,
      and the instant of the local midnight that began that date. */
  datatype Moment = Moment(at: nat, date: CalendarDate, dayStart: int)

  predicate ValidMoment(m: Moment) {
    ValidDate(m.date) && m.dayStart <= m.at
  }

  /** The orders the pre-save hook counts: `createdAt >= midnight`. */
  function OrdersSince(orders: map<OrderKey, Order>, dayStart: int): set<OrderKey> {
    set k | k in orders && orders[k].createdAt >= dayStart
  }

  function CountSince(orders: map<OrderKey, Order>, dayStart: int): nat {
    |OrdersSince(orders, dayStart)|
  }

  /** The document `Order.create(d)` stores at moment `now`: defaults,
      timestamp, and the code the pre-save hook derives from how many
      orders already exist since midnight. */
  function NewOrder(orders: map<OrderKey, Order>, d: OrderDraft, now: Moment): (o: Order)
    ensures o.orderId == OrderCode(now.date, CountSince(orders, now.dayStart))
    ensures o == Instantiate(d, now.at).(orderId := o.orderId)
  {
    PreSave(Instantiate(d, now.at), now.date, CountSince(orders, now.dayStart))
  }

  /** Adding an order created today raises today's count by exactly one. */
  lemma CountSinceInsert(orders: map<OrderKey, Order>, k: OrderKey, o: Order, dayStart: int)
    requires k !in orders && o.createdAt >= dayStart
    ensures CountSince(orders[k := o], dayStart) == CountSince(orders, dayStart) + 1
  {
    assert OrdersSince(orders[k := o], dayStart) == OrdersSince(orders, dayStart) + {k};
  }

  /** Two orders created one after the other on the same day, with no order
      removed in between, get sequence numbers `c + 1` and `c + 2`, where
      `c` counts the day's earlier orders: the sequence strictly grows. */
  lemma SuccessiveOrdersIncrease(orders: map<OrderKey, Order>, k1: OrderKey, d1: OrderDraft, m1: Moment,
                                 d2: OrderDraft, m2: Moment)
    requires k1 !in orders && ValidMoment(m1) && ValidMoment(m2) && m1.date.year >= 10
    requires m2.date == m1.date && m2.dayStart == m1.dayStart
    ensures SequencePart(NewOrder(orders, d1, m1).orderId) == Some(CountSince(orders, m1.dayStart) + 1)
    ensures SequencePart(NewOrder(orders[k1 := NewOrder(orders, d1, m1)], d2, m2).orderId)
         == Some(CountSince(orders, m1.dayStart) + 2)
  {
    var o1 := NewOrder(orders, d1, m1);
    var c := CountSince(orders, m1.dayStart);
    CountSinceInsert(orders, k1, o1, m1.dayStart);
    OrderCodeLayout(m1.date, c);
    OrderCodeLayout(m1.date, c + 1);
  }

  /** What holds of every stored order: it has its code, and it passed the
      schema validators. */
  predicate Stored(o: Order) {
    o.orderId != "" && SchemaValid(o)
  }

  predicate KeyBelow(k: OrderKey, n: nat) {
    IsDigits(k) && DecimalValue(k) < n
  }

  predicate KeysBelow(orders: map<OrderKey, Order>, n: nat) {
    forall k :: k in orders ==> KeyBelow(k, n)
  }

  /** The key rendered from the counter is not yet in use. */
  lemma FreshKey(orders: map<OrderKey, Order>, n: nat)
    requires KeysBelow(orders, n)
    ensures KeyText(n) !in orders && KeyBelow(KeyText(n), n + 1)
  {
    DecimalRoundTrip(n);
  }

  lemma KeysBelowGrow(orders: map<OrderKey, Order>, key: OrderKey, n: nat)
    requires n >= 1 && KeyBelow(key, n) && KeysBelow(orders - {key}, n - 1)
    ensures KeysBelow(orders, n)
  {
    forall k | k in orders ensures KeyBelow(k, n) {
      if k != key {
        assert k in orders - {key};
      }
    }
  }

  lemma NewOrderStored(orders: map<OrderKey, Order>, d: OrderDraft, now: Moment)
    requires SchemaValid(Instantiate(d, now.at))
    ensures Stored(NewOrder(orders, d, now))
  {
    var o := NewOrder(orders, d, now);
    assert o.items == Instantiate(d, now.at).items && o.user == d.user;
  }

  class Db {
    var products: Products
    var orders: map<OrderKey, Order>
    var nextKey: nat

    ghost predicate Valid()
      reads this
    {
      KeysBelow(orders, nextKey) && forall k :: k in orders ==> Stored(orders[k])
    }

    function State(): Tables
      reads this
    {
      Tables(products, orders)
    }

    constructor (catalog: Products)
      ensures Valid() && State() == Tables(catalog, map[])
    {
      products := catalog;
      orders := map[];
      nextKey := 0;
    }

    /** The write of `Order.create`: the new document (built by NewOrder
        from the state before the write) is stored under a fresh key. The
        validators have been run by the caller; a failing one throws before
        anything is written. */
    method Insert(o: Order) returns (key: OrderKey)
      requires Valid() && Stored(o)
      modifies this
      ensures Valid() && key == KeyText(old(nextKey)) && key !in old(orders)
      ensures products == old(products) && orders == old(orders)[key := o]
    {
      key := KeyText(nextKey);
      FreshKey(orders, nextKey);
      orders := orders[key := o];
      nextKey := nextKey + 1;
      KeysBelowGrow(orders, key, nextKey);
    }

    /** `order.save()` of a changed order; its code is kept by the pre-save
        hook (see PreSave), so the stored value is `o` itself. */
    method Save(key: OrderKey, o: Order)
      requires Valid() && key in orders && Stored(o)
      modifies this
      ensures Valid() && products == old(products) && orders == old(orders)[key := o]
      ensures nextKey == old(nextKey)
    {
      orders := orders[key := o];
    }

    /** `product.save()` of a changed product document. */
    method SaveProduct(id: ProductId, p: Product)
      requires Valid() && id in products
      modifies this
      ensures Valid() && products == old(products)[id := p]
      ensures orders == old(orders) && nextKey == old(nextKey)
    {
      products := products[id := p];
    }

    /** One `findByIdAndUpdate(productId, { $inc: ... })` per line, in order. */
    method AdjustStock(items: seq<OrderItem>, sign: int)
      requires Valid()
      modifies this
      ensures Valid() && products == Adjust(old(products), items, sign)
      ensures orders == old(orders) && nextKey == old(nextKey)
    {
      var i := 0;
      while i < |items|
        invariant 0 <= i <= |items|
        invariant products == Adjust(old(products), items[..i], sign)
        invariant orders == old(orders) && nextKey == old(nextKey)
      {
        var it := items[i];
        if it.productId in products {
          var p := products[it.productId];
          products := products[it.productId := p.(stock := p.stock - sign * it.quantity,
                                                  soldCount := p.soldCount + sign * it.quantity)];
        }
        assert items[..i + 1][..i] == items[..i];
        i := i + 1;
      }
      assert items[..|items|] == items;
    }
  }
}
