/** The order endpoints of src/controllers/order.controller.js: placing a
    cash-on-delivery order, the admin status change, cancellation by the
    customer, the lookup by the gateway's order id and the admin list's
    paging. Each state-changing endpoint is a method on `Db` proved equal
    to a specification function from the old `Tables` to the new ones. */
module OrderController {
  import opened Wrappers
  import opened Catalog
  import opened OrderModel
  import opened Inventory
  import opened Store
  import opened Paging

  /** `items.reduce((sum, item) => sum + item.price * item.quantity, 0)`. */
  function Subtotal(items: seq<OrderItem>): int
    decreases |items|
  {
    if items == [] then 0
    else Subtotal(items[..|items| - 1]) + items[|items| - 1].price * items[|items| - 1].quantity
  }

  /** The subtotal of a cart is the sum of the subtotals of its parts. */
  lemma {:induction false} SubtotalConcat(a: seq<OrderItem>, b: seq<OrderItem>)
    ensures Subtotal(a + b) == Subtotal(a) + Subtotal(b)
    decreases |b|
  {
    if b == [] {
      assert a + b == a;
    } else {
      assert (a + b)[..|a + b| - 1] == a + b[..|b| - 1];
      SubtotalConcat(a, b[..|b| - 1]);
    }
  }

  /** The test each line must pass before anything is written: its
      product exists and has at least the line's quantity in stock. */
  predicate LineOk(ps: Products, it: OrderItem) {
    it.productId in ps && ps[it.productId].stock >= it.quantity
  }

  datatype LineProblem = Missing | ShortOfStock

  /** The first line that fails that test, and why. */
  function FirstBadLine(ps: Products, items: seq<OrderItem>): (r: Option<(nat, LineProblem)>)
    ensures r.None? <==> forall i :: 0 <= i < |items| ==> LineOk(ps, items[i])
    ensures r.Some? ==>
      && r.value.0 < |items|
      && !LineOk(ps, items[r.value.0])
      && (forall j :: 0 <= j < r.value.0 ==> LineOk(ps, items[j]))
      && (r.value.1 == Missing <==> items[r.value.0].productId !in ps)
    decreases |items|
  {
    if items == [] then None
    else if !LineOk(ps, items[0]) then Some((0, if items[0].productId in ps then ShortOfStock else Missing))
    else match FirstBadLine(ps, items[1..])
      case None => None
      case Some((j, p)) => Some((j + 1, p))
  }

  /** The validation loop `for (const item of items)` with its two early
      returns. */
  method FindBadLine(ps: Products, items: seq<OrderItem>) returns (r: Option<(nat, LineProblem)>)
    ensures r == FirstBadLine(ps, items)
  {
    var i := 0;
    while i < |items|
      invariant 0 <= i <= |items|
      invariant forall j :: 0 <= j < i ==> LineOk(ps, items[j])
    {
      var it := items[i];
      if it.productId !in ps {
        return Some((i, Missing));
      }
      if ps[it.productId].stock < it.quantity {
        return Some((i, ShortOfStock));
      }
      i := i + 1;
    }
    return None;
  }

  datatype CreateOrderRequest = CreateOrderRequest(
    items: seq<OrderItem>,
    shippingAddress: Option<ShippingAddress>,
    paymentMethod: string,
    subtotal: int,
    deliveryCharge: Option<int>,
    totalAmount: int)

  datatype CreateError =
    | CartEmpty
    | ShippingAddressRequired
    | PaymentMethodRequired
    | ProductNotFound(line: nat)
    | InsufficientStock(line: nat)
    | CartMismatch
    | CreateFailed
  {
    /** The HTTP status of the answer; CreateFailed is the catch block's 500
        after `Order.create` throws: a validator fails, or an absent delivery
        charge makes the total NaN, which the Number cast refuses. */
    function Status(): int {
      match this
      case ProductNotFound(_) => 404
      case CreateFailed => 500
      case _ => 400
    }
  }

  datatype CreateOutcome = Created(key: OrderKey) | Rejected(error: CreateError) {
    function Status(): int {
      match this
      case Created(_) => 201
      case Rejected(e) => e.Status()
    }
  }

  /** The document `createOrder` passes to `Order.create`: the server's own
      subtotal, the total from it, and a pending COD payment record. */
  function CodDraft(caller: UserId, req: CreateOrderRequest, address: ShippingAddress, m: PaymentMethod,
                    charge: int): OrderDraft {
    var sub := Subtotal(req.items);
    OrderDraft(caller, req.items, address, m, None, sub, Some(charge), sub + charge, CodGateway, Some(Pending))
  }

  /** The three presence tests at the top of `createOrder`. */
  predicate RequestComplete(req: CreateOrderRequest) {
    |req.items| > 0 && req.shippingAddress.Some? && req.paymentMethod != ""
  }

  /** Whether `Order.create` accepts the document: the total is a number,
      the payment method is in the enum and the validators pass. */
  predicate Creatable(caller: UserId, req: CreateOrderRequest)
    requires req.shippingAddress.Some?
  {
    && req.deliveryCharge.Some? && ParseMethod(req.paymentMethod).Some?
    && DraftValid(CodDraft(caller, req, req.shippingAddress.value, ParseMethod(req.paymentMethod).value,
                           req.deliveryCharge.value))
  }

  /** Everything `createOrder` checks before its first write, in the order
      it checks them: each answer is given exactly when every earlier test
      passed and its own test fails. */
  function CreateCheck(ps: Products, caller: UserId, req: CreateOrderRequest): (r: Option<CreateError>)
    ensures r == Some(CartEmpty) <==> |req.items| == 0
    ensures r == Some(ShippingAddressRequired) <==> |req.items| > 0 && req.shippingAddress.None?
    ensures r == Some(PaymentMethodRequired) <==>
      |req.items| > 0 && req.shippingAddress.Some? && req.paymentMethod == ""
    ensures r.Some? && (r.value.ProductNotFound? || r.value.InsufficientStock?) <==>
      RequestComplete(req) && FirstBadLine(ps, req.items).Some?
    ensures r.Some? && r.value.ProductNotFound? ==> FirstBadLine(ps, req.items) == Some((r.value.line, Missing))
    ensures r.Some? && r.value.InsufficientStock? ==>
      FirstBadLine(ps, req.items) == Some((r.value.line, ShortOfStock))
    ensures r == Some(CartMismatch) <==>
      && RequestComplete(req)
      && (forall i :: 0 <= i < |req.items| ==> LineOk(ps, req.items[i]))
      && Subtotal(req.items) != req.subtotal
    ensures r == Some(CreateFailed) <==>
      && RequestComplete(req)
      && (forall i :: 0 <= i < |req.items| ==> LineOk(ps, req.items[i]))
      && Subtotal(req.items) == req.subtotal
      && !Creatable(caller, req)
    ensures r.None? <==>
      && RequestComplete(req)
      && (forall i :: 0 <= i < |req.items| ==> LineOk(ps, req.items[i]))
      && Subtotal(req.items) == req.subtotal
      && Creatable(caller, req)
  {
    if |req.items| == 0 then Some(CartEmpty)
    else if req.shippingAddress.None? then Some(ShippingAddressRequired)
    else if req.paymentMethod == "" then Some(PaymentMethodRequired)
    else match FirstBadLine(ps, req.items)
      case Some((i, Missing)) => Some(ProductNotFound(i))
      case Some((i, ShortOfStock)) => Some(InsufficientStock(i))
      case None =>
        if Subtotal(req.items) != req.subtotal then Some(CartMismatch)
        else if Creatable(caller, req) then None
        else Some(CreateFailed)
  }

  /** `createOrder`: a rejection writes nothing; an accepted cart stores the
      new order under `key` and reserves stock for every line. */
  function CreateOrderSpec(t: Tables, caller: UserId, req: CreateOrderRequest, now: Moment, key: OrderKey)
    : (r: (Tables, CreateOutcome))
    ensures r.1.Rejected? <==> CreateCheck(t.products, caller, req).Some?
    ensures r.1.Rejected? ==> r.0 == t && r.1.error == CreateCheck(t.products, caller, req).value
    ensures r.1.Created? ==>
      && r.1.key == key
      && key in r.0.orders && r.0.orders == t.orders[key := r.0.orders[key]]
      && r.0.orders[key].user == caller && r.0.orders[key].items == req.items
      && r.0.orders[key].subtotal == Subtotal(req.items) == req.subtotal
      && r.0.orders[key].totalAmount == req.subtotal + req.deliveryCharge.value
      && r.0.orders[key].deliveryCharge == req.deliveryCharge.value
      && r.0.orders[key].paymentMethod == ParseMethod(req.paymentMethod).value
      && r.0.orders[key].shippingAddress
           == req.shippingAddress.value.(country := Some(req.shippingAddress.value.country.GetOr("India")))
      && r.0.orders[key].createdAt == now.at
      && r.0.orders[key].paymentInfo == PaymentInfo(Some(CodGateway), "", "", Pending)
      && r.0.orders[key].orderStatus == Placed
      && r.0.orders[key].cancellationReason == "" && r.0.orders[key].cancelledBy == None
      && r.0.orders[key].orderId == OrderCode(now.date, CountSince(t.orders, now.dayStart))
    ensures r.1.Created? ==>
      && r.0.products.Keys == t.products.Keys
      && r.0.products == Reserve(t.products, req.items)
      && forall id :: id in t.products ==>
           (r.0.products[id].stock == t.products[id].stock - QuantityOf(req.items, id)
         && r.0.products[id].soldCount == t.products[id].soldCount + QuantityOf(req.items, id))
  {
    match CreateCheck(t.products, caller, req)
    case Some(e) => (t, Rejected(e))
    case None =>
      var d := CodDraft(caller, req, req.shippingAddress.value, ParseMethod(req.paymentMethod).value,
                        req.deliveryCharge.value);
      ReserveEffect(t.products, req.items);
      (Tables(Reserve(t.products, req.items), t.orders[key := NewOrder(t.orders, d, now)]), Created(key))
  }

  method CreateOrder(db: Db, caller: UserId, req: CreateOrderRequest, now: Moment) returns (r: CreateOutcome)
    requires db.Valid() && ValidMoment(now)
    modifies db
    ensures db.Valid()
    ensures (db.State(), r) == CreateOrderSpec(old(db.State()), caller, req, now, KeyText(old(db.nextKey)))
  {
    if |req.items| == 0 {
      return Rejected(CartEmpty);
    }
    if req.shippingAddress.None? {
      return Rejected(ShippingAddressRequired);
    }
    if req.paymentMethod == "" {
      return Rejected(PaymentMethodRequired);
    }
    var bad := FindBadLine(db.products, req.items);
    if bad.Some? {
      return Rejected(if bad.value.1 == Missing then ProductNotFound(bad.value.0) else InsufficientStock(bad.value.0));
    }
    var secureSubtotal := Subtotal(req.items);
    if secureSubtotal != req.subtotal {
      return Rejected(CartMismatch);
    }
    if req.deliveryCharge.None? {
      return Rejected(CreateFailed);
    }
    var m := ParseMethod(req.paymentMethod);
    if m.None? {
      return Rejected(CreateFailed);
    }
    var draft := CodDraft(caller, req, req.shippingAddress.value, m.value, req.deliveryCharge.value);
    if !DraftValid(draft) {
      return Rejected(CreateFailed);
    }
    var order := NewOrder(db.orders, draft, now);
    NewOrderStored(db.orders, draft, now);
    var key := db.Insert(order);
    db.AdjustStock(req.items, 1);
    return Created(key);
  }

  datatype StatusOutcome = StatusUpdated | InvalidStatus | OrderNotFound | DeliveredNotCancellable {
    function Status(): int {
      match this
      case StatusUpdated => 200
      case OrderNotFound => 404
      case _ => 400
    }
  }

  /** `updateOrderStatus` (admin only). A first cancellation puts every
      line's quantity back and records the admin as canceller; any other
      accepted change, CANCELLED to CANCELLED included, only overwrites the
      status. */
  function AdminStatusSpec(t: Tables, key: OrderKey, text: string): (r: (Tables, StatusOutcome))
    ensures r.1 != StatusUpdated ==> r.0 == t
    ensures r.1 == InvalidStatus <==> ParseStatus(text).None?
    ensures r.1 == OrderNotFound <==> ParseStatus(text).Some? && key !in t.orders
    ensures r.1 == DeliveredNotCancellable <==>
      ParseStatus(text) == Some(Cancelled) && key in t.orders && t.orders[key].orderStatus == Delivered
    ensures r.1 == StatusUpdated ==>
      && key in t.orders && key in r.0.orders
      && r.0.orders == t.orders[key := r.0.orders[key]]
      && r.0.orders[key].orderStatus == ParseStatus(text).value
      && r.0.products.Keys == t.products.Keys
    ensures r.1 == StatusUpdated && ParseStatus(text) == Some(Cancelled) && t.orders[key].orderStatus != Cancelled ==>
      && r.0.orders[key] == t.orders[key].(orderStatus := Cancelled, cancelledBy := Some(ByAdmin))
      && r.0.products == Release(t.products, t.orders[key].items)
      && forall id :: id in t.products ==>
           (r.0.products[id].stock == t.products[id].stock + QuantityOf(t.orders[key].items, id)
         && r.0.products[id].soldCount == t.products[id].soldCount - QuantityOf(t.orders[key].items, id))
    ensures r.1 == StatusUpdated && !(ParseStatus(text) == Some(Cancelled) && t.orders[key].orderStatus != Cancelled) ==>
      r.0.orders[key] == t.orders[key].(orderStatus := ParseStatus(text).value) && r.0.products == t.products
  {
    match ParseStatus(text)
    case None => (t, InvalidStatus)
    case Some(s) =>
      if key !in t.orders then (t, OrderNotFound)
      else
        var o := t.orders[key];
        if o.orderStatus == Delivered && s == Cancelled then (t, DeliveredNotCancellable)
        else if s == Cancelled && o.orderStatus != Cancelled then
          ReleaseEffect(t.products, o.items);
          (Tables(Release(t.products, o.items), t.orders[key := o.(orderStatus := Cancelled, cancelledBy := Some(ByAdmin))]),
           StatusUpdated)
        else (Tables(t.products, t.orders[key := o.(orderStatus := s)]), StatusUpdated)
  }

  method UpdateOrderStatus(db: Db, key: OrderKey, text: string) returns (r: StatusOutcome)
    requires db.Valid()
    modifies db
    ensures db.Valid() && db.nextKey == old(db.nextKey)
    ensures (db.State(), r) == AdminStatusSpec(old(db.State()), key, text)
  {
    var status := ParseStatus(text);
    if status.None? {
      return InvalidStatus;
    }
    if key !in db.orders {
      return OrderNotFound;
    }
    var order := db.orders[key];
    var previous := order.orderStatus;
    if previous == Delivered && status.value == Cancelled {
      return DeliveredNotCancellable;
    }
    if status.value == Cancelled && previous != Cancelled {
      db.AdjustStock(order.items, -1);
      order := order.(cancelledBy := Some(ByAdmin));
    }
    order := order.(orderStatus := status.value);
    db.Save(key, order);
    return StatusUpdated;
  }

  /** A repeated admin cancellation changes nothing more: the second one
      finds the order CANCELLED and only rewrites the same status. */
  lemma AdminCancelTwiceIsOnce(t: Tables, key: OrderKey)
    ensures AdminStatusSpec(AdminStatusSpec(t, key, "CANCELLED").0, key, "CANCELLED").0
         == AdminStatusSpec(t, key, "CANCELLED").0
  {
    var once := AdminStatusSpec(t, key, "CANCELLED");
    if once.1 == StatusUpdated {
      var o := once.0.orders[key];
      assert o.orderStatus == Cancelled;
      assert once.0.orders[key := o.(orderStatus := Cancelled)] == once.0.orders;
    }
  }

  /** What the code does NOT prevent: an admin may move a cancelled order
      back to PLACED and cancel it again, and each cancellation puts the
      quantities back, so stock is restored twice. */
  lemma AdminReopenReleasesTwice(t: Tables, key: OrderKey)
    requires key in t.orders && t.orders[key].orderStatus !in {Cancelled, Delivered}
    ensures var t1 := AdminStatusSpec(t, key, "CANCELLED").0;
            var t2 := AdminStatusSpec(t1, key, "PLACED").0;
            AdminStatusSpec(t2, key, "CANCELLED").0.products
              == Release(Release(t.products, t.orders[key].items), t.orders[key].items)
  {
    var items := t.orders[key].items;
    var t1 := AdminStatusSpec(t, key, "CANCELLED").0;
    assert t1.orders[key].items == items && t1.products == Release(t.products, items);
    var t2 := AdminStatusSpec(t1, key, "PLACED").0;
    assert t2.orders[key].orderStatus == Placed && t2.orders[key].items == items;
  }

  datatype CancelOutcome = CancelledByUser | CancelNotFound | NotCancellable {
    function Status(): int {
      match this
      case CancelledByUser => 200
      case CancelNotFound => 404
      case NotCancellable => 400
    }
  }

  /** `cancelOrderByUser`: only the owner's order is found, and one that is
      DELIVERED or CANCELLED is refused. Otherwise every line's quantity
      goes back to stock and the order records the status, the reason
      (`reason || ""`) and the customer as canceller. */
  function UserCancelSpec(t: Tables, caller: UserId, key: OrderKey, reason: string): (r: (Tables, CancelOutcome))
    ensures r.1 != CancelledByUser ==> r.0 == t
    ensures r.1 == CancelNotFound <==> key !in t.orders || t.orders[key].user != caller
    ensures r.1 == NotCancellable <==>
      key in t.orders && t.orders[key].user == caller && t.orders[key].orderStatus in {Delivered, Cancelled}
    ensures r.1 == CancelledByUser ==>
      && r.0.orders == t.orders[key := t.orders[key].(orderStatus := Cancelled, cancellationReason := reason,
                                                     cancelledBy := Some(ByUser))]
      && r.0.products == Release(t.products, t.orders[key].items)
      && forall id :: id in t.products ==>
           (r.0.products[id].stock == t.products[id].stock + QuantityOf(t.orders[key].items, id)
         && r.0.products[id].soldCount == t.products[id].soldCount - QuantityOf(t.orders[key].items, id))
  {
    if key !in t.orders || t.orders[key].user != caller then (t, CancelNotFound)
    else
      var o := t.orders[key];
      if o.orderStatus in {Delivered, Cancelled} then (t, NotCancellable)
      else
        ReleaseEffect(t.products, o.items);
        (Tables(Release(t.products, o.items),
                t.orders[key := o.(orderStatus := Cancelled, cancellationReason := reason, cancelledBy := Some(ByUser))]),
         CancelledByUser)
  }

  method CancelOrderByUser(db: Db, caller: UserId, key: OrderKey, reason: string) returns (r: CancelOutcome)
    requires db.Valid()
    modifies db
    ensures db.Valid() && db.nextKey == old(db.nextKey)
    ensures (db.State(), r) == UserCancelSpec(old(db.State()), caller, key, reason)
  {
    if key !in db.orders || db.orders[key].user != caller {
      return CancelNotFound;
    }
    var order := db.orders[key];
    if order.orderStatus == Delivered || order.orderStatus == Cancelled {
      return NotCancellable;
    }
    db.AdjustStock(order.items, -1);
    order := order.(orderStatus := Cancelled, cancellationReason := reason, cancelledBy := Some(ByUser));
    db.Save(key, order);
    return CancelledByUser;
  }

  /** A COD order cancelled by its customer right after it was placed puts
      the product table back exactly as it was, and a second cancellation
      is refused without any change. */
  lemma CreateThenCancelRestoresStock(t: Tables, caller: UserId, req: CreateOrderRequest, now: Moment,
                                      key: OrderKey, reason: string)
    requires CreateOrderSpec(t, caller, req, now, key).1.Created?
    ensures var t1 := CreateOrderSpec(t, caller, req, now, key).0;
            var t2 := UserCancelSpec(t1, caller, key, reason);
            && t2.1 == CancelledByUser
            && t2.0.products == t.products
            && UserCancelSpec(t2.0, caller, key, reason) == (t2.0, NotCancellable)
  {
    var t1 := CreateOrderSpec(t, caller, req, now, key).0;
    var o := t1.orders[key];
    assert o.user == caller && o.orderStatus == Placed && o.items == req.items;
    var t2 := UserCancelSpec(t1, caller, key, reason);
    assert t2.0.products == Release(Reserve(t.products, req.items), req.items);
    ReleaseUndoesReserve(t.products, req.items);
    assert t2.0.orders[key].orderStatus == Cancelled;
  }

  /** Who may be asking: the order routes pass an authenticated user, but
      the handler also allows for a request without one. */
  datatype Caller = Anonymous | Authenticated(id: UserId, isAdmin: bool)

  datatype CfLookup = CfOrderIdRequired | NotYetReconciled | NotAuthorized | Found(key: OrderKey) {
    function Status(): int {
      match this
      case CfOrderIdRequired => 400
      case NotAuthorized => 403
      case _ => 200
    }
  }

  /** `getOrderByCashfreeId`: an order carrying the gateway's order id, if
      any; "not yet" is a success with a null order; an authenticated
      caller who is neither the owner nor an admin is turned away. */
  method GetOrderByCashfreeId(orders: map<OrderKey, Order>, cfOrderId: string, caller: Caller) returns (r: CfLookup)
    ensures r == CfOrderIdRequired <==> cfOrderId == ""
    ensures r == NotYetReconciled <==>
      cfOrderId != "" && forall k :: k in orders ==> orders[k].paymentInfo.cfOrderId != cfOrderId
    ensures r.Found? ==>
      && r.key in orders && orders[r.key].paymentInfo.cfOrderId == cfOrderId
      && (caller.Authenticated? ==> caller.isAdmin || orders[r.key].user == caller.id)
    ensures r == NotAuthorized ==>
      && caller.Authenticated? && !caller.isAdmin
      && exists k :: k in orders && orders[k].paymentInfo.cfOrderId == cfOrderId && orders[k].user != caller.id
    ensures (cfOrderId != "" && (caller.Anonymous? || caller.isAdmin)
             && exists k :: k in orders && orders[k].paymentInfo.cfOrderId == cfOrderId) ==> r.Found?
  {
    if cfOrderId == "" {
      return CfOrderIdRequired;
    }
    if forall k :: k in orders ==> orders[k].paymentInfo.cfOrderId != cfOrderId {
      return NotYetReconciled;
    }
    var k :| k in orders && orders[k].paymentInfo.cfOrderId == cfOrderId;
    if caller.Authenticated? && orders[k].user != caller.id && !caller.isAdmin {
      return NotAuthorized;
    }
    return Found(k);
  }

  datatype ListWindow = ListWindow(skip: nat, limit: int, page: int, totalPages: nat)

  /** OrdersListFailed is the catch block's 500: the database refuses a
      negative skip. */
  datatype OrderListAnswer = OrdersListed(window: ListWindow) | OrdersListFailed {
    function Status(): int {
      if OrdersListed? then 200 else 500
    }
  }

  /** The paging of `getAllOrders`: defaults page 1 and limit 6, the offset
      of the page, and `Math.ceil(total / limit)` pages; a page below 1
      gives a negative offset and the query fails. */
  function OrderListWindow(page: Option<int>, limit: Option<int>, total: nat): (r: OrderListAnswer)
    requires limit.GetOr(6) >= 1
    ensures r.OrdersListFailed? <==> page.GetOr(1) < 1
    ensures page.None? && limit.None? ==> r.OrdersListed? && r.window.skip == 0 && r.window.limit == 6 && r.window.page == 1
    ensures r.OrdersListed? ==>
      && r.window.page == page.GetOr(1) && r.window.limit == limit.GetOr(6)
      && r.window.skip == (r.window.page - 1) * r.window.limit
      && r.window.totalPages * r.window.limit >= total
      && (total > 0 ==> (r.window.totalPages - 1) * r.window.limit < total)
  {
    var p, l := page.GetOr(1), limit.GetOr(6);
    if Skip(p, l) < 0 then OrdersListFailed
    else OrdersListed(ListWindow(Skip(p, l), l, p, TotalPages(total, l)))
  }
}
