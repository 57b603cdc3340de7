/** The admin side of the order store: the in-memory list of orders, the status and
    payment-status updates, the newest-first listing and the dashboard statistics. */
module OrderActions {
  import opened Common

  datatype OrderStatus = Pending | Confirmed | Processing | Shipped | Delivered | Cancelled
  datatype PaymentStatus = PaymentPending | Paid | Failed

  /** The fields of an order that these operations read or write. `total` is in
      whole taka; `createdAt` is the creation time in milliseconds, the value
      `new Date(createdAt).getTime()` gives for the stored ISO string. */
  datatype Order = Order(id: string, total: int, status: OrderStatus,
                         paymentStatus: PaymentStatus, paymentMethod: string, createdAt: int)

  const CashOnDelivery := "cod"

  function OrderId(o: Order): string {
    o.id
  }

  /** An order after its status is set: delivering a cash-on-delivery order also
      marks it paid. */
  function WithStatus(o: Order, status: OrderStatus): (r: Order)
    ensures r.status == status
    ensures r.paymentStatus == (if status == Delivered && o.paymentMethod == CashOnDelivery then Paid
                                else o.paymentStatus)
    ensures r.(status := o.status, paymentStatus := o.paymentStatus) == o
  {
    var o' := o.(status := status);
    if status == Delivered && o.paymentMethod == CashOnDelivery then o'.(paymentStatus := Paid) else o'
  }

  /** What either update returns: the updated order, or "Order not found". */
  datatype UpdateResult = Updated(order: Order) | OrderNotFound

  /** `updateOrderStatus` on the list as a value: None when no order has the id;
      otherwise only the first order with that id changes, as `WithStatus` says. */
  function SetOrderStatus(orders: seq<Order>, orderId: string, status: OrderStatus): (r: Option<seq<Order>>)
    ensures r.None? <==> !HasKey(orders, OrderId, orderId)
    ensures r.Some? ==> |r.value| == |orders|
    ensures r.Some? ==> forall k :: 0 <= k < |orders| ==>
              r.value[k] == (if k == FindKey(orders, OrderId, orderId) then WithStatus(orders[k], status) else orders[k])
  {
    var i := FindKey(orders, OrderId, orderId);
    if i == -1 then None else Some(orders[i := WithStatus(orders[i], status)])
  }

  /** `updatePaymentStatus` on the list as a value. */
  function SetPaymentStatus(orders: seq<Order>, orderId: string, paymentStatus: PaymentStatus): (r: Option<seq<Order>>)
    ensures r.None? <==> !HasKey(orders, OrderId, orderId)
    ensures r.Some? ==> |r.value| == |orders|
    ensures r.Some? ==> forall k :: 0 <= k < |orders| ==>
              r.value[k] == (if k == FindKey(orders, OrderId, orderId) then orders[k].(paymentStatus := paymentStatus)
                             else orders[k])
  {
    var i := FindKey(orders, OrderId, orderId);
    if i == -1 then None else Some(orders[i := orders[i].(paymentStatus := paymentStatus)])
  }

  // ---------------------------------------------------------------------------
  // Statistics
  // ---------------------------------------------------------------------------

  function StatusOf(o: Order): OrderStatus {
    o.status
  }

  function PaymentOf(o: Order): PaymentStatus {
    o.paymentStatus
  }

  /** `orders.filter(order => order.status === status)`. */
  function OrdersWithStatus(orders: seq<Order>, status: OrderStatus): seq<Order> {
    KeepKey(orders, StatusOf, status)
  }

  /** `orders.filter(order => order.paymentStatus === paymentStatus)`. */
  function OrdersWithPayment(orders: seq<Order>, paymentStatus: PaymentStatus): seq<Order> {
    KeepKey(orders, PaymentOf, paymentStatus)
  }

  /** The status filter keeps every order with the status, as often as it is
      stored, and no other order. */
  lemma OrdersWithStatusCount(orders: seq<Order>, status: OrderStatus)
    ensures forall o :: multiset(OrdersWithStatus(orders, status))[o]
                        == if o.status == status then multiset(orders)[o] else 0
  {
    KeepKeyCount(orders, StatusOf, status);
  }

  /** The payment filter keeps every order with the payment status, as often as it
      is stored, and no other order. */
  lemma OrdersWithPaymentCount(orders: seq<Order>, paymentStatus: PaymentStatus)
    ensures forall o :: multiset(OrdersWithPayment(orders, paymentStatus))[o]
                        == if o.paymentStatus == paymentStatus then multiset(orders)[o] else 0
  {
    KeepKeyCount(orders, PaymentOf, paymentStatus);
  }

  /** `.reduce((sum, order) => sum + order.total, 0)`. */
  function SumTotals(orders: seq<Order>): int {
    if orders == [] then 0 else orders[0].total + SumTotals(orders[1..])
  }

  function Revenue(orders: seq<Order>, paymentStatus: PaymentStatus): int {
    SumTotals(OrdersWithPayment(orders, paymentStatus))
  }

  datatype OrderStats = OrderStats(totalOrders: nat, pendingOrders: nat, confirmedOrders: nat,
                                   shippedOrders: nat, deliveredOrders: nat, cancelledOrders: nat,
                                   totalRevenue: int, pendingRevenue: int)

  /** `getOrderStats`. Orders in the "processing" status are counted in
      `totalOrders` only. */
  function GetOrderStats(orders: seq<Order>): (stats: OrderStats)
    ensures stats.totalOrders == |orders|
    ensures stats.pendingOrders + stats.confirmedOrders + stats.shippedOrders
            + stats.deliveredOrders + stats.cancelledOrders
            == |orders| - |OrdersWithStatus(orders, Processing)|
  {
    StatusCountsPartition(orders);
    OrderStats(|orders|,
               |OrdersWithStatus(orders, Pending)|,
               |OrdersWithStatus(orders, Confirmed)|,
               |OrdersWithStatus(orders, Shipped)|,
               |OrdersWithStatus(orders, Delivered)|,
               |OrdersWithStatus(orders, Cancelled)|,
               Revenue(orders, Paid),
               Revenue(orders, PaymentPending))
  }

  /** Peeling the first order off the status filter. */
  lemma WithStatusStep(orders: seq<Order>, status: OrderStatus)
    requires orders != []
    ensures |OrdersWithStatus(orders, status)|
            == (if orders[0].status == status then 1 else 0) + |OrdersWithStatus(orders[1..], status)|
  {
  }

  /** Peeling the first order off a revenue sum. */
  lemma RevenueStep(orders: seq<Order>, paymentStatus: PaymentStatus)
    requires orders != []
    ensures Revenue(orders, paymentStatus)
            == (if orders[0].paymentStatus == paymentStatus then orders[0].total else 0)
               + Revenue(orders[1..], paymentStatus)
  {
    var rest := OrdersWithPayment(orders[1..], paymentStatus);
    if orders[0].paymentStatus == paymentStatus {
      assert ([orders[0]] + rest)[1..] == rest;
    }
  }

  /** Every order has exactly one of the six statuses. */
  lemma {:induction false} StatusCountsPartition(orders: seq<Order>)
    ensures |OrdersWithStatus(orders, Pending)| + |OrdersWithStatus(orders, Confirmed)|
            + |OrdersWithStatus(orders, Processing)| + |OrdersWithStatus(orders, Shipped)|
            + |OrdersWithStatus(orders, Delivered)| + |OrdersWithStatus(orders, Cancelled)|
            == |orders|
  {
    if orders != [] {
      StatusCountsPartition(orders[1..]);
      WithStatusStep(orders, Pending);
      WithStatusStep(orders, Confirmed);
      WithStatusStep(orders, Processing);
      WithStatusStep(orders, Shipped);
      WithStatusStep(orders, Delivered);
      WithStatusStep(orders, Cancelled);
    }
  }

  /** Paid, pending and failed revenue together are the sum of all order totals. */
  lemma {:induction false} RevenuePartition(orders: seq<Order>)
    ensures Revenue(orders, Paid) + Revenue(orders, PaymentPending) + Revenue(orders, Failed)
            == SumTotals(orders)
  {
    if orders != [] {
      RevenuePartition(orders[1..]);
      RevenueStep(orders, Paid);
      RevenueStep(orders, PaymentPending);
      RevenueStep(orders, Failed);
    }
  }

  /** Changing the payment status of the order at position i moves its total from
      the revenue of its old payment status to that of its new one. */
  lemma {:induction false} RevenueAfterPaymentChange(orders: seq<Order>, i: nat, ps: PaymentStatus, p: PaymentStatus)
    requires i < |orders|
    ensures Revenue(orders[i := orders[i].(paymentStatus := ps)], p)
            == Revenue(orders, p)
               - (if orders[i].paymentStatus == p then orders[i].total else 0)
               + (if ps == p then orders[i].total else 0)
  {
    var after := orders[i := orders[i].(paymentStatus := ps)];
    if i > 0 {
      assert after[1..] == orders[1..][i - 1 := orders[i].(paymentStatus := ps)];
      RevenueAfterPaymentChange(orders[1..], i - 1, ps, p);
    } else {
      assert after[1..] == orders[1..];
    }
  }

  /** Marking a pending order paid moves its total from pending to total revenue. */
  lemma MarkPaidMovesRevenue(orders: seq<Order>, orderId: string)
    requires HasKey(orders, OrderId, orderId)
    requires orders[FindKey(orders, OrderId, orderId)].paymentStatus == PaymentPending
    ensures var i := FindKey(orders, OrderId, orderId);
            var after := SetPaymentStatus(orders, orderId, Paid).value;
            && GetOrderStats(after).totalRevenue == GetOrderStats(orders).totalRevenue + orders[i].total
            && GetOrderStats(after).pendingRevenue == GetOrderStats(orders).pendingRevenue - orders[i].total
  {
    var i := FindKey(orders, OrderId, orderId);
    var after := SetPaymentStatus(orders, orderId, Paid).value;
    assert after == orders[i := orders[i].(paymentStatus := Paid)];
    RevenueAfterPaymentChange(orders, i, Paid, Paid);
    RevenueAfterPaymentChange(orders, i, Paid, PaymentPending);
  }

  /** A status update never changes the pending revenue unless it delivers a
      cash-on-delivery order, and never changes the number of orders. */
  lemma StatusUpdateKeepsRevenue(orders: seq<Order>, orderId: string, status: OrderStatus)
    requires HasKey(orders, OrderId, orderId)
    ensures var i := FindKey(orders, OrderId, orderId);
            var after := SetOrderStatus(orders, orderId, status).value;
            && GetOrderStats(after).totalOrders == GetOrderStats(orders).totalOrders
            && (!(status == Delivered && orders[i].paymentMethod == CashOnDelivery) ==>
                  GetOrderStats(after).totalRevenue == GetOrderStats(orders).totalRevenue
                  && GetOrderStats(after).pendingRevenue == GetOrderStats(orders).pendingRevenue)
  {
    var i := FindKey(orders, OrderId, orderId);
    var after := SetOrderStatus(orders, orderId, status).value;
    if !(status == Delivered && orders[i].paymentMethod == CashOnDelivery) {
      StatusOnlyRevenue(orders, i, status, Paid);
      StatusOnlyRevenue(orders, i, status, PaymentPending);
    }
  }

  /** Changing only the status of one order leaves every revenue figure alone. */
  lemma {:induction false} StatusOnlyRevenue(orders: seq<Order>, i: nat, status: OrderStatus, p: PaymentStatus)
    requires i < |orders|
    ensures Revenue(orders[i := orders[i].(status := status)], p) == Revenue(orders, p)
  {
    var after := orders[i := orders[i].(status := status)];
    if i > 0 {
      assert after[1..] == orders[1..][i - 1 := orders[i].(status := status)];
      StatusOnlyRevenue(orders[1..], i - 1, status, p);
    } else {
      assert after[1..] == orders[1..];
    }
  }

  function CreatedAt(o: Order): int {
    o.createdAt
  }

  // ---------------------------------------------------------------------------
  // The store
  // ---------------------------------------------------------------------------

  /** The module-level `mockOrders` array. */
  class OrderStore {
    var orders: seq<Order>

    constructor(initial: seq<Order>)
      ensures orders == initial
    {
      orders := initial;
    }

    /** `getAllOrders`: sorts the store itself, newest first, and returns it. */
    method GetAllOrders() returns (result: seq<Order>)
      modifies this
      ensures orders == SortDesc(old(orders), CreatedAt)
      ensures result == orders
    {
      orders := SortDesc(orders, CreatedAt);
      result := orders;
    }

    /** `getOrder`: the first order with that id. */
    method GetOrder(orderId: string) returns (result: Option<Order>)
      ensures result.None? <==> !HasKey(orders, OrderId, orderId)
      ensures result.Some? ==> result.value == orders[FindKey(orders, OrderId, orderId)]
    {
      var i := FindKey(orders, OrderId, orderId);
      if i == -1 {
        return None;
      }
      return Some(orders[i]);
    }

    /** `updateOrderStatus`. */
    method UpdateOrderStatus(orderId: string, status: OrderStatus) returns (result: UpdateResult)
      modifies this
      ensures SetOrderStatus(old(orders), orderId, status).None? ==>
                result == OrderNotFound && orders == old(orders)
      ensures SetOrderStatus(old(orders), orderId, status).Some? ==>
                orders == SetOrderStatus(old(orders), orderId, status).value
                && result == Updated(orders[FindKey(old(orders), OrderId, orderId)])
    {
      var orderIndex := FindKey(orders, OrderId, orderId);
      if orderIndex == -1 {
        return OrderNotFound;
      }
      orders := orders[orderIndex := orders[orderIndex].(status := status)];
      if status == Delivered && orders[orderIndex].paymentMethod == CashOnDelivery {
        orders := orders[orderIndex := orders[orderIndex].(paymentStatus := Paid)];
      }
      result := Updated(orders[orderIndex]);
    }

    /** `updatePaymentStatus`. */
    method UpdatePaymentStatus(orderId: string, paymentStatus: PaymentStatus) returns (result: UpdateResult)
      modifies this
      ensures SetPaymentStatus(old(orders), orderId, paymentStatus).None? ==>
                result == OrderNotFound && orders == old(orders)
      ensures SetPaymentStatus(old(orders), orderId, paymentStatus).Some? ==>
                orders == SetPaymentStatus(old(orders), orderId, paymentStatus).value
                && result == Updated(orders[FindKey(old(orders), OrderId, orderId)])
    {
      var orderIndex := FindKey(orders, OrderId, orderId);
      if orderIndex == -1 {
        return OrderNotFound;
      }
      orders := orders[orderIndex := orders[orderIndex].(paymentStatus := paymentStatus)];
      result := Updated(orders[orderIndex]);
    }
  }
}
