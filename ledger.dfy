/**
 * The order ledger the pipeline reads: orders, order items and the grade column of
 * sellers. Money is in cents; a timestamp is a count of seconds and a date a count of days
 * on the same reference time line, so that date d starts at d * SecondsPerDay.
 */
module Ledger {
  import opened Wrappers
  import opened Sums

  datatype OrderStatus = PENDING | PAID | SHIPPED | DELIVERED | REFUNDED | CANCELLED

  /** A row of the orders table (its generated id is the key of Ledger.orders). */
  datatype Order = Order(
    buyerId: int,
    status: OrderStatus,
    shippingFee: int,
    couponDiscount: int,
    totalAmount: int,
    orderedAt: int,
    createdAt: int,
    updatedAt: int)

  /** The Order constructor: a missing (null) fee or discount is stored as zero. */
  function NewOrder(buyerId: int, status: OrderStatus, shippingFee: Option<int>,
                    couponDiscount: Option<int>, totalAmount: int, orderedAt: int, now: int): (o: Order)
    ensures shippingFee.None? ==> o.shippingFee == 0
    ensures shippingFee.Some? ==> o.shippingFee == shippingFee.value
    ensures couponDiscount.None? ==> o.couponDiscount == 0
    ensures couponDiscount.Some? ==> o.couponDiscount == couponDiscount.value
    ensures o.buyerId == buyerId && o.status == status && o.orderedAt == orderedAt
    ensures o.totalAmount == totalAmount
    ensures o.createdAt == now && o.updatedAt == now
  {
    Order(buyerId, status,
          if shippingFee.Some? then shippingFee.value else 0,
          if couponDiscount.Some? then couponDiscount.value else 0,
          totalAmount, orderedAt, now, now)
  }

  /** A row of the order_items table. */
  datatype OrderItem = OrderItem(
    orderId: int,
    productId: int,
    sellerId: int,
    quantity: int,
    unitPrice: int,
    totalPrice: int,
    createdAt: int)

  /** An item whose line total agrees with its unit price and quantity. */
  predicate PricedConsistently(it: OrderItem)
  {
    it.totalPrice == it.unitPrice * it.quantity
  }

  /** The OrderItem constructor: the line total is derived, never passed in. */
  function NewOrderItem(orderId: int, productId: int, sellerId: int, quantity: int,
                        unitPrice: int, now: int): (it: OrderItem)
    ensures PricedConsistently(it)
    ensures it.orderId == orderId && it.productId == productId && it.sellerId == sellerId
    ensures it.quantity == quantity && it.unitPrice == unitPrice && it.createdAt == now
    ensures quantity >= 0 && unitPrice >= 0 ==> it.totalPrice >= 0
    ensures quantity == 1 ==> it.totalPrice == unitPrice
  {
    OrderItem(orderId, productId, sellerId, quantity, unitPrice, unitPrice * quantity, now)
  }

  /** The tables the pipeline reads; sellers maps a seller id to its grade column. */
  datatype LedgerTables = LedgerTables(
    orders: map<int, Order>,
    items: seq<OrderItem>,
    sellers: map<int, string>)

  const SecondsPerDay: int := 86400

  /** date.atStartOfDay() */
  function StartOfDay(d: int): int
  {
    d * SecondsPerDay
  }

  /** The half-open window [d 00:00, d+1 00:00) of both settlement queries. */
  predicate InWindow(t: int, d: int)
  {
    StartOfDay(d) <= t < StartOfDay(d + 1)
  }

  /** The calendar day a timestamp falls on. */
  function DayOf(t: int): int
  {
    t / SecondsPerDay
  }

  /** Every timestamp lies in exactly one day's window, so no item is settled on two dates. */
  lemma WindowIsDay(t: int, d: int)
    ensures InWindow(t, d) <==> DayOf(t) == d
  {
  }

  /** The status filter shared by the reader and the verifier: DELIVERED, SHIPPED or PAID. */
  predicate Settleable(s: OrderStatus)
  {
    s == DELIVERED || s == SHIPPED || s == PAID
  }

  /**
   * The JOIN orders ON oi.order_id = o.id together with the WHERE clause of both
   * settlement queries: the item's order exists, has a settleable status and was placed
   * on date d.
   */
  predicate Qualifies(orders: map<int, Order>, it: OrderItem, d: int)
  {
    && it.orderId in orders
    && Settleable(orders[it.orderId].status)
    && InWindow(orders[it.orderId].orderedAt, d)
  }

  /** The qualifying items for date d, in table order. */
  function QualifyingItems(orders: map<int, Order>, items: seq<OrderItem>, d: int): (q: seq<OrderItem>)
    ensures forall it :: it in q <==> it in items && Qualifies(orders, it, d)
    ensures |q| <= |items|
  {
    if items == [] then []
    else (if Qualifies(orders, items[0], d) then [items[0]] else [])
         + QualifyingItems(orders, items[1..], d)
  }

  /** The (seller_id, total_price) pair of each item, the operands of SUM(oi.total_price). */
  function ItemEntries(items: seq<OrderItem>): (es: seq<Entry>)
    ensures |es| == |items|
    ensures forall i :: 0 <= i < |items| ==> es[i] == Entry(items[i].sellerId, items[i].totalPrice)
  {
    if items == [] then [] else [Entry(items[0].sellerId, items[0].totalPrice)] + ItemEntries(items[1..])
  }

  /** An item of a PENDING, REFUNDED or CANCELLED order is never settled, whatever the date. */
  lemma UnsettleableExcluded(orders: map<int, Order>, items: seq<OrderItem>, d: int, it: OrderItem)
    requires it.orderId in orders && !Settleable(orders[it.orderId].status)
    ensures it !in QualifyingItems(orders, items, d)
  {
  }

  /** The same item never qualifies on two different dates. */
  lemma QualifiesOnOneDay(orders: map<int, Order>, it: OrderItem, d1: int, d2: int)
    requires Qualifies(orders, it, d1) && Qualifies(orders, it, d2)
    ensures d1 == d2
  {
    WindowIsDay(orders[it.orderId].orderedAt, d1);
    WindowIsDay(orders[it.orderId].orderedAt, d2);
  }
}
