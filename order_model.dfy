/** The order document (src/models/order.model.js): its enumerations and
    defaults, the validity Mongoose enforces on every write, and the
    pre-save hook that gives an order its code `SE-YYMMDD-NNNNN`. */
module OrderModel {
  import opened Wrappers
  import opened Text
  import opened Catalog

  type UserId = string

  datatype OrderStatus = Placed | Confirmed | Shipped | Delivered | Cancelled
  datatype PaymentMethod = Cod | Online
  datatype Gateway = CashfreeGateway | CodGateway
  datatype PaymentStatus = Pending | Paid | Failed
  datatype Canceller = ByUser | ByAdmin

  function StatusName(s: OrderStatus): string {
    match s
    case Placed => "PLACED"
    case Confirmed => "CONFIRMED"
    case Shipped => "SHIPPED"
    case Delivered => "DELIVERED"
    case Cancelled => "CANCELLED"
  }

  /** The status whose stored name is `text`, if `text` is one of the five. */
  function ParseStatus(text: string): (r: Option<OrderStatus>)
    ensures r.Some? ==> StatusName(r.value) == text
  {
    if text == "PLACED" then Some(Placed)
    else if text == "CONFIRMED" then Some(Confirmed)
    else if text == "SHIPPED" then Some(Shipped)
    else if text == "DELIVERED" then Some(Delivered)
    else if text == "CANCELLED" then Some(Cancelled)
    else None
  }

  /** Every status is accepted under its own name; with the postcondition of
      ParseStatus the accepted texts are exactly the five names. */
  lemma ParseStatusName(s: OrderStatus)
    ensures ParseStatus(StatusName(s)) == Some(s)
  {
    match s
    case Placed =>
    case Confirmed =>
    case Shipped =>
    case Delivered =>
    case Cancelled =>
  }

  function MethodName(m: PaymentMethod): string {
    match m
    case Cod => "COD"
    case Online => "ONLINE"
  }

  /** The schema's `paymentMethod` enum check. */
  function ParseMethod(text: string): (r: Option<PaymentMethod>)
    ensures r.Some? <==> text == "COD" || text == "ONLINE"
    ensures r.Some? ==> MethodName(r.value) == text
  {
    if text == "COD" then Some(Cod) else if text == "ONLINE" then Some(Online) else None
  }

  /** One line of an order: a snapshot of the product at order time. */
  datatype OrderItem = OrderItem(productId: ProductId, title: string, image: string, price: int, quantity: int)

  /** The shipping snapshot; `country` is optional in a request. */
  datatype ShippingAddress = ShippingAddress(
    fullName: string, phone: string, street: string, city: string,
    state: string, pincode: string, country: Option<string>)

  datatype PaymentInfo = PaymentInfo(gateway: Option<Gateway>, cfOrderId: string, cfPaymentId: string, status: PaymentStatus)

  datatype Order = Order(
    orderId: string,
    user: UserId,
    items: seq<OrderItem>,
    shippingAddress: ShippingAddress,
    paymentMethod: PaymentMethod,
    orderStatus: OrderStatus,
    subtotal: int,
    deliveryCharge: int,
    totalAmount: int,
    cancellationReason: string,
    cancelledBy: Option<Canceller>,
    paymentInfo: PaymentInfo,
    createdAt: int)

  /** What a controller passes to `Order.create`; a `None` field is one the
      schema's default fills in. */
  datatype OrderDraft = OrderDraft(
    user: UserId,
    items: seq<OrderItem>,
    shippingAddress: ShippingAddress,
    paymentMethod: PaymentMethod,
    orderStatus: Option<OrderStatus>,
    subtotal: int,
    deliveryCharge: Option<int>,
    totalAmount: int,
    gateway: Gateway,
    paymentStatus: Option<PaymentStatus>)

  predicate ItemValid(it: OrderItem) {
    it.productId != "" && it.title != "" && it.image != "" && it.quantity >= 1
  }

  /** What the schema validators demand before any write: a user, and every
      item with its required fields and a quantity of at least 1. (The
      enumerations hold by construction of the datatypes.) */
  predicate SchemaValid(o: Order) {
    o.user != "" && forall i :: 0 <= i < |o.items| ==> ItemValid(o.items[i])
  }

  /** What the validators demand of a draft: a user and valid items. */
  predicate DraftValid(d: OrderDraft) {
    d.user != "" && forall i :: 0 <= i < |d.items| ==> ItemValid(d.items[i])
  }

  /** The document `Order.create` builds from a draft before the pre-save
      hook runs: the schema defaults are PLACED, a delivery charge of 0, an
      empty cancellation reason, no canceller, PENDING payment and the
      country "India". */
  function Instantiate(d: OrderDraft, createdAt: int): (o: Order)
    ensures o.orderId == "" && o.user == d.user && o.items == d.items
    ensures o.orderStatus == d.orderStatus.GetOr(Placed)
    ensures o.deliveryCharge == d.deliveryCharge.GetOr(0)
    ensures o.cancellationReason == "" && o.cancelledBy == None
    ensures o.paymentInfo == PaymentInfo(Some(d.gateway), "", "", d.paymentStatus.GetOr(Pending))
    ensures o.shippingAddress == d.shippingAddress.(country := Some(d.shippingAddress.country.GetOr("India")))
    ensures o.paymentMethod == d.paymentMethod && o.subtotal == d.subtotal && o.totalAmount == d.totalAmount
    ensures o.createdAt == createdAt
    ensures SchemaValid(o) <==> DraftValid(d)
  {
    var a := d.shippingAddress;
    Order(
      "", d.user, d.items,
      a.(country := Some(a.country.GetOr("India"))),
      d.paymentMethod, d.orderStatus.GetOr(Placed),
      d.subtotal, d.deliveryCharge.GetOr(0), d.totalAmount,
      "", None,
      PaymentInfo(Some(d.gateway), "", "", d.paymentStatus.GetOr(Pending)),
      createdAt)
  }

  /** A calendar date as `Date.getFullYear`, `getMonth() + 1` and `getDate`
      report it. */
  datatype CalendarDate = CalendarDate(year: nat, month: nat, day: nat)

  predicate ValidDate(d: CalendarDate) {
    1 <= d.month <= 12 && 1 <= d.day <= 31
  }

  /** `getFullYear().toString().slice(-2)`. */
  function YearCode(year: nat): string {
    TakeLast(NatToDecimal(year), 2)
  }

  /** `String(n).padStart(2, "0")`. */
  function TwoDigits(n: nat): string {
    PadStart(NatToDecimal(n), 2, '0')
  }

  function DateCode(d: CalendarDate): string {
    YearCode(d.year) + TwoDigits(d.month) + TwoDigits(d.day)
  }

  /** `String(count + 1).padStart(5, "0")`: at least five digits, a longer
      number kept whole, and it reads back as `count + 1`. */
  function SequenceCode(count: nat): (r: string)
    ensures |r| >= 5 && IsDigits(r) && DecimalValue(r) == count + 1
  {
    PaddedDecimalValue(count + 1, 5);
    PadStart(NatToDecimal(count + 1), 5, '0')
  }

  function OrderCode(d: CalendarDate, count: nat): string {
    "SE-" + DateCode(d) + "-" + SequenceCode(count)
  }

  /** For a year of two or more digits, YY is the year modulo 100 written
      with two digits. */
  lemma {:induction false} YearCodeIsLastTwoDigits(year: nat)
    requires year >= 10
    ensures YearCode(year) == TwoDigits(year % 100)
  {
    YearCodeDigits(year);
    TwoDigitsDigits(year % 100);
    TensDigit(year);
  }

  lemma YearCodeDigits(year: nat)
    requires year >= 10
    ensures YearCode(year) == [DigitChar((year / 10) % 10), DigitChar(year % 10)]
  {
    var s := NatToDecimal(year);
    var hi := NatToDecimal(year / 10);
    assert s == hi + [DigitChar(year % 10)];
    assert s[|s| - 2..] == [hi[|hi| - 1], DigitChar(year % 10)];
  }

  lemma TwoDigitsDigits(m: nat)
    requires m < 100
    ensures TwoDigits(m) == [DigitChar(m / 10), DigitChar(m % 10)]
  {
    if m < 10 {
      assert NatToDecimal(m) == [DigitChar(m)];
      assert TwoDigits(m) == ['0'] + [DigitChar(m)];
    } else {
      assert NatToDecimal(m) == NatToDecimal(m / 10) + [DigitChar(m % 10)];
    }
  }

  lemma TensDigit(n: nat)
    ensures (n / 10) % 10 == (n % 100) / 10 && n % 10 == (n % 100) % 10
  {
    var a, m := n / 100, n % 100;
    assert n == 100 * a + m;
    var q, r := 10 * a + m / 10, m % 10;
    assert n == 10 * q + r && 0 <= r < 10;
    assert n / 10 == q && n % 10 == r;
    assert q == 10 * a + m / 10 && 0 <= m / 10 < 10;
  }

  lemma TwoDigitsShape(n: nat)
    requires n < 100
    ensures |TwoDigits(n)| == 2 && IsDigits(TwoDigits(n))
  {
    if n >= 10 {
      assert NatToDecimal(n) == NatToDecimal(n / 10) + [DigitChar(n % 10)];
    }
  }

  /** On a valid date of a year with at least two digits the date code is
      six digits. */
  lemma DateCodeShape(d: CalendarDate)
    requires ValidDate(d) && d.year >= 10
    ensures |DateCode(d)| == 6 && IsDigits(DateCode(d))
  {
    YearCodeIsLastTwoDigits(d.year);
    TwoDigitsShape(d.year % 100);
    TwoDigitsShape(d.month);
    TwoDigitsShape(d.day);
    var y, m, dd := YearCode(d.year), TwoDigits(d.month), TwoDigits(d.day);
    assert DateCode(d) == y + m + dd;
    DigitsConcat(y, m);
    DigitsConcat(y + m, dd);
  }

  /** The sequence number an order code carries after its tenth character,
      when that part is all digits. */
  function SequencePart(code: string): Option<nat> {
    if |code| >= 10 && IsDigits(code[10..]) then Some(DecimalValue(code[10..])) else None
  }

  /** The layout of an order code on a valid date: "SE-", the six date
      digits, "-", and a sequence part that reads back as `count + 1`. */
  lemma OrderCodeLayout(d: CalendarDate, count: nat)
    requires ValidDate(d) && d.year >= 10
    ensures |OrderCode(d, count)| >= 15 && |DateCode(d)| == 6 && IsDigits(DateCode(d))
    ensures OrderCode(d, count)[..3] == "SE-" && OrderCode(d, count)[3..9] == DateCode(d)
    ensures OrderCode(d, count)[9] == '-'
    ensures SequencePart(OrderCode(d, count)) == Some(count + 1)
  {
    DateCodeShape(d);
    var dc := DateCode(d);
    var sc := SequenceCode(count);
    var c := "SE-" + dc + "-" + sc;
    assert c == OrderCode(d, count);
    assert c[..3] == "SE-";
    assert c[3..9] == dc;
    assert c[10..] == sc;
  }

  /** Two orders placed on the same day with different counts get different
      codes, and the later count gets the larger sequence number. */
  lemma SameDayCodesOrdered(d: CalendarDate, c1: nat, c2: nat)
    requires ValidDate(d) && d.year >= 10 && c1 < c2
    ensures OrderCode(d, c1) != OrderCode(d, c2)
    ensures SequencePart(OrderCode(d, c1)).Some? && SequencePart(OrderCode(d, c2)).Some?
         && SequencePart(OrderCode(d, c1)).value < SequencePart(OrderCode(d, c2)).value
  {
    OrderCodeLayout(d, c1);
    OrderCodeLayout(d, c2);
  }

  /** The pre-save hook: an order without a code gets one built from the
      clock's date and the number of orders created since midnight; an
      order that has a code keeps it. Nothing else is touched. */
  function PreSave(o: Order, today: CalendarDate, countToday: nat): (r: Order)
    ensures r.orderId != ""
    ensures r == o.(orderId := r.orderId)
    ensures o.orderId != "" ==> r == o
    ensures o.orderId == "" ==> r.orderId == OrderCode(today, countToday)
  {
    if o.orderId != "" then o else o.(orderId := OrderCode(today, countToday))
  }
}
