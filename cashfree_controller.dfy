/** The online-payment endpoints of src/controllers/cashfree.controller.js.
    `createCashfreeOrder` stores a temporary order and asks the gateway for
    a payment session; the gateway's reply is an input of the model (None
    when the HTTP call throws). `cashfreeWebhook` checks the HMAC signature,
    then confirms the payment and reserves stock at most once per order. The
    HMAC digest and JSON.parse are function parameters. */
module CashfreeController {
  import opened Wrappers
  import opened Text
  import opened Catalog
  import opened OrderModel
  import opened Inventory
  import opened Store
  import opened OrderController

  datatype OnlineRequest = OnlineRequest(
    items: seq<OrderItem>,
    shippingAddress: Option<ShippingAddress>,
    totalAmount: int)

  /** Every failure is a 400, except the catch block's "Payment init failed" 500. */
  datatype OnlineError = NothingInCart | OutOfStock(line: nat) | TotalMismatch | PaymentInitFailed {
    function Status(): int {
      if PaymentInitFailed? then 500 else 400
    }
  }

  datatype OnlineOutcome =
    | PaymentStarted(cfOrderId: string, paymentSessionId: string)
    | OnlineRejected(error: OnlineError)

  /** The temporary order: ONLINE, no delivery charge, the server's subtotal
      as the total, and a pending Cashfree payment. */
  function OnlineDraft(caller: UserId, items: seq<OrderItem>, address: ShippingAddress): OrderDraft {
    var sub := Subtotal(items);
    OrderDraft(caller, items, address, Online, Some(Placed), sub, Some(0), sub, CashfreeGateway, Some(Pending))
  }

  /** The validation done before the temporary order is written. A missing
      address or an invalid item makes `Order.create` throw: a 500 with
      nothing stored. */
  function OnlineCheck(ps: Products, caller: UserId, req: OnlineRequest): (r: Option<OnlineError>)
    ensures r == Some(NothingInCart) <==> |req.items| == 0
    ensures r.Some? && r.value.OutOfStock? ==>
      && r.value.line < |req.items| && !LineOk(ps, req.items[r.value.line])
      && forall j :: 0 <= j < r.value.line ==> LineOk(ps, req.items[j])
    ensures (exists i :: 0 <= i < |req.items| && !LineOk(ps, req.items[i])) ==> r.Some? && r.value.OutOfStock?
    ensures r == Some(TotalMismatch) <==>
      && |req.items| > 0
      && (forall i :: 0 <= i < |req.items| ==> LineOk(ps, req.items[i]))
      && Subtotal(req.items) != req.totalAmount
    ensures r.None? <==>
      && |req.items| > 0
      && (forall i :: 0 <= i < |req.items| ==> LineOk(ps, req.items[i]))
      && Subtotal(req.items) == req.totalAmount
      && req.shippingAddress.Some?
      && DraftValid(OnlineDraft(caller, req.items, req.shippingAddress.value))
  {
    if |req.items| == 0 then Some(NothingInCart)
    else match FirstBadLine(ps, req.items)
      case Some((i, _)) => Some(OutOfStock(i))
      case None =>
        if Subtotal(req.items) != req.totalAmount then Some(TotalMismatch)
        else if req.shippingAddress.None? then Some(PaymentInitFailed)
        else if !DraftValid(OnlineDraft(caller, req.items, req.shippingAddress.value)) then Some(PaymentInitFailed)
        else None
  }

  /** The gateway reference `"SE-" + Date.now()`. */
  function CfOrderRef(at: nat): string {
    "SE-" + NatToDecimal(at)
  }

  /** `createCashfreeOrder`. Stock is not touched here: it is reserved when
      the webhook confirms the payment. Once validation passes, the temporary
      order stays stored even when the gateway call fails. */
  function OnlineSpec(t: Tables, caller: UserId, req: OnlineRequest, now: Moment, key: OrderKey,
                      reply: Option<string>): (r: (Tables, OnlineOutcome))
    ensures r.0.products == t.products
    ensures OnlineCheck(t.products, caller, req).Some? ==>
      r == (t, OnlineRejected(OnlineCheck(t.products, caller, req).value))
    ensures OnlineCheck(t.products, caller, req).None? ==>
      && key in r.0.orders && r.0.orders == t.orders[key := r.0.orders[key]]
      && r.0.orders[key].user == caller && r.0.orders[key].items == req.items
      && r.0.orders[key].paymentMethod == Online
      && r.0.orders[key].subtotal == r.0.orders[key].totalAmount == req.totalAmount
      && r.0.orders[key].deliveryCharge == 0
      && r.0.orders[key].orderStatus == Placed
      && r.0.orders[key].paymentInfo == PaymentInfo(Some(CashfreeGateway), "", "", Pending)
      && r.0.orders[key].orderId == OrderCode(now.date, CountSince(t.orders, now.dayStart))
    ensures r.1.PaymentStarted? <==> OnlineCheck(t.products, caller, req).None? && reply.Some?
    ensures r.1.PaymentStarted? ==> r.1 == PaymentStarted(CfOrderRef(now.at), reply.value)
  {
    match OnlineCheck(t.products, caller, req)
    case Some(e) => (t, OnlineRejected(e))
    case None =>
      var d := OnlineDraft(caller, req.items, req.shippingAddress.value);
      var t1 := Tables(t.products, t.orders[key := NewOrder(t.orders, d, now)]);
      match reply
      case None => (t1, OnlineRejected(PaymentInitFailed))
      case Some(session) => (t1, PaymentStarted(CfOrderRef(now.at), session))
  }

  method CreateCashfreeOrder(db: Db, caller: UserId, req: OnlineRequest, now: Moment, reply: Option<string>)
    returns (r: OnlineOutcome)
    requires db.Valid() && ValidMoment(now)
    modifies db
    ensures db.Valid()
    ensures (db.State(), r) == OnlineSpec(old(db.State()), caller, req, now, KeyText(old(db.nextKey)), reply)
  {
    if |req.items| == 0 {
      return OnlineRejected(NothingInCart);
    }
    var bad := FindBadLine(db.products, req.items);
    if bad.Some? {
      return OnlineRejected(OutOfStock(bad.value.0));
    }
    var secureSubtotal := Subtotal(req.items);
    if secureSubtotal != req.totalAmount {
      return OnlineRejected(TotalMismatch);
    }
    if req.shippingAddress.None? {
      return OnlineRejected(PaymentInitFailed);
    }
    var draft := OnlineDraft(caller, req.items, req.shippingAddress.value);
    if !DraftValid(draft) {
      return OnlineRejected(PaymentInitFailed);
    }
    var temp := NewOrder(db.orders, draft, now);
    NewOrderStored(db.orders, draft, now);
    var _ := db.Insert(temp);
    if reply.None? {
      return OnlineRejected(PaymentInitFailed);
    }
    return PaymentStarted(CfOrderRef(now.at), reply.value);
  }

  /** The fields the webhook reads from the parsed body; an absent field
      is "". */
  datatype WebhookEvent = WebhookEvent(
    eventType: string,
    cfOrderId: string,
    paymentId: string,
    dbOrderId: OrderKey,
    userId: string)

  datatype WebhookRequest = WebhookRequest(signature: string, timestamp: string, rawBody: string)

  datatype WebhookOutcome = InvalidSignature | Acknowledged {
    function Status(): int {
      if InvalidSignature? then 400 else 200
    }
  }

  /** The two event types that are processed; every other type is acknowledged and ignored. */
  predicate IsSuccessType(eventType: string) {
    eventType == "PAYMENT_SUCCESS_WEBHOOK" || eventType == "PAYMENT.SUCCESS"
  }

  /** `signature === base64(HMAC-SHA256(secret, timestamp + rawBody))`, where
      `digest` is the keyed digest. */
  predicate SignatureValid(digest: string -> string, req: WebhookRequest) {
    req.signature == digest(req.timestamp + req.rawBody)
  }

  /** An event that confirms a payment: a success type, all four tags
      present, the order found and not yet PAID. */
  predicate Confirms(t: Tables, ev: WebhookEvent) {
    && IsSuccessType(ev.eventType)
    && ev.dbOrderId != "" && ev.userId != "" && ev.cfOrderId != "" && ev.paymentId != ""
    && ev.dbOrderId in t.orders
    && t.orders[ev.dbOrderId].paymentInfo.status != Paid
  }

  /** The effect of a parsed event once the signature holds. A body that
      does not parse ends in the catch block, which also answers 200. */
  function ApplyEvent(t: Tables, ev: Option<WebhookEvent>): (r: Tables)
    ensures ev.None? || !Confirms(t, ev.value) ==> r == t
    ensures ev.Some? && Confirms(t, ev.value) ==>
      && r.orders == t.orders[ev.value.dbOrderId := t.orders[ev.value.dbOrderId].(
           paymentInfo := PaymentInfo(Some(CashfreeGateway), ev.value.cfOrderId, ev.value.paymentId, Paid),
           orderStatus := Placed)]
      && r.products == Reserve(t.products, t.orders[ev.value.dbOrderId].items)
      && r.orders[ev.value.dbOrderId].paymentInfo.status == Paid
  {
    if ev.None? || !Confirms(t, ev.value) then t
    else
      var e := ev.value;
      var o := t.orders[e.dbOrderId];
      Tables(Reserve(t.products, o.items),
             t.orders[e.dbOrderId := o.(paymentInfo := PaymentInfo(Some(CashfreeGateway), e.cfOrderId, e.paymentId, Paid),
                                        orderStatus := Placed)])
  }

  /** `cashfreeWebhook`: a bad signature is a 400 with no change; anything
      else is acknowledged with 200. */
  function WebhookSpec(t: Tables, digest: string -> string, parse: string -> Option<WebhookEvent>,
                       req: WebhookRequest): (r: (Tables, WebhookOutcome))
    ensures r.1 == InvalidSignature <==> !SignatureValid(digest, req)
    ensures r.1 == InvalidSignature ==> r.0 == t
    ensures r.1 == Acknowledged ==> r.0 == ApplyEvent(t, parse(req.rawBody))
    ensures r.0.orders.Keys == t.orders.Keys
  {
    if !SignatureValid(digest, req) then (t, InvalidSignature)
    else (ApplyEvent(t, parse(req.rawBody)), Acknowledged)
  }

  method CashfreeWebhook(db: Db, digest: string -> string, parse: string -> Option<WebhookEvent>,
                         req: WebhookRequest) returns (r: WebhookOutcome)
    requires db.Valid()
    modifies db
    ensures db.Valid() && db.nextKey == old(db.nextKey)
    ensures (db.State(), r) == WebhookSpec(old(db.State()), digest, parse, req)
  {
    var expected := digest(req.timestamp + req.rawBody);
    if req.signature != expected {
      return InvalidSignature;
    }
    var event := parse(req.rawBody);
    if event.None? {
      return Acknowledged;
    }
    var ev := event.value;
    if !IsSuccessType(ev.eventType) {
      return Acknowledged;
    }
    if ev.dbOrderId == "" || ev.userId == "" || ev.cfOrderId == "" || ev.paymentId == "" {
      return Acknowledged;
    }
    if ev.dbOrderId !in db.orders {
      return Acknowledged;
    }
    var order := db.orders[ev.dbOrderId];
    if order.paymentInfo.status == Paid {
      return Acknowledged;
    }
    db.AdjustStock(order.items, 1);
    order := order.(paymentInfo := PaymentInfo(Some(CashfreeGateway), ev.cfOrderId, ev.paymentId, Paid),
                    orderStatus := Placed);
    db.Save(ev.dbOrderId, order);
    return Acknowledged;
  }

  /** A redelivered webhook changes nothing: the first delivery left the
      order PAID, so the second one is skipped. */
  lemma WebhookIdempotent(t: Tables, digest: string -> string, parse: string -> Option<WebhookEvent>,
                          req: WebhookRequest)
    ensures var once := WebhookSpec(t, digest, parse, req).0;
            WebhookSpec(once, digest, parse, req) == (once, WebhookSpec(t, digest, parse, req).1)
  {
  }

  /** The whole online flow: after the temporary order is stored and the
      confirming webhook for it arrives twice, the order is PAID and stock
      was reserved exactly once for its lines. */
  lemma OnlinePaymentReservesOnce(t: Tables, caller: UserId, req: OnlineRequest, now: Moment, key: OrderKey,
                                  reply: Option<string>, digest: string -> string,
                                  parse: string -> Option<WebhookEvent>, hook: WebhookRequest)
    requires OnlineCheck(t.products, caller, req).None?
    requires SignatureValid(digest, hook)
    requires parse(hook.rawBody).Some? && parse(hook.rawBody).value.dbOrderId == key
    requires IsSuccessType(parse(hook.rawBody).value.eventType)
    requires var ev := parse(hook.rawBody).value; ev.dbOrderId != "" && ev.userId != "" && ev.cfOrderId != "" && ev.paymentId != ""
    ensures var t1 := OnlineSpec(t, caller, req, now, key, reply).0;
            var t2 := WebhookSpec(t1, digest, parse, hook).0;
            var t3 := WebhookSpec(t2, digest, parse, hook).0;
            && t3.products == Reserve(t.products, req.items)
            && t3.orders[key].paymentInfo.status == Paid
            && t3.orders[key].paymentInfo.cfOrderId == parse(hook.rawBody).value.cfOrderId
  {
    var ev := parse(hook.rawBody).value;
    var t1 := OnlineSpec(t, caller, req, now, key, reply).0;
    assert t1.products == t.products && t1.orders[key].items == req.items;
    assert t1.orders[key].paymentInfo.status == Pending;
    assert Confirms(t1, ev);
    var t2 := WebhookSpec(t1, digest, parse, hook).0;
    assert t2 == ApplyEvent(t1, Some(ev));
    assert t2.products == Reserve(t.products, req.items);
    WebhookIdempotent(t1, digest, parse, hook);
  }

  /** Cancelling the temporary online order before any payment webhook is
      accepted, and it puts back stock the order never took: every product
      ends with its stock raised by the quantity ordered. */
  lemma UnpaidCancelAddsStock(t: Tables, caller: UserId, req: OnlineRequest, now: Moment, key: OrderKey,
                              reply: Option<string>, reason: string)
    requires OnlineCheck(t.products, caller, req).None?
    ensures var t1 := OnlineSpec(t, caller, req, now, key, reply).0;
            var t2 := UserCancelSpec(t1, caller, key, reason);
            && t1.orders[key].paymentInfo.status == Pending
            && t2.1 == CancelledByUser
            && t2.0.products == Release(t.products, req.items)
            && forall id :: id in t.products ==>
                 t2.0.products[id].stock == t.products[id].stock + QuantityOf(req.items, id)
  {
    var t1 := OnlineSpec(t, caller, req, now, key, reply).0;
    assert t1.products == t.products && t1.orders[key].items == req.items;
    assert t1.orders[key].user == caller && t1.orders[key].orderStatus == Placed;
  }
}
