/** The pharmacist routes: the ownership guard every pharmacy-scoped route
    starts with, the inventory listing with its derived fields, the filtered
    order list, the order-status update, the pharmacist's own registrations
    and the dashboard aggregates. */
module Pharmacist {
  import opened Wrappers
  import Js
  import opened Http
  import C = Calculations
  import Stock
  import Orders
  import Tally
  import PharmacyRegistration

  const PharmacyNotFound := "Pharmacy not found"
  const OrderNotFound := "Order not found"
  const ValidationFailed := "Validation failed"
  const Paid := "paid"

  // -------------------------------------------------------------- ownership

  /** `pharmacies.find(p => p.id == pharmacyId)` over the pharmacist's own
      pharmacies: 404 unless the requested pharmacy is one of them. */
  function OwnedPharmacy(owned: seq<int>, pharmacyId: int): (r: Result<int, Refusal>)
    ensures r.Success? <==> pharmacyId in owned
    ensures r.Success? ==> r.value == pharmacyId
    ensures r.Failure? ==> r.error == Refusal(NotFound, PharmacyNotFound)
  {
    if pharmacyId in owned then Success(pharmacyId) else Failure(Refusal(NotFound, PharmacyNotFound))
  }

  // -------------------------------------------------------------- inventory

  /** An inventory row: quantity, unit price and expiry instant. */
  datatype InventoryRow = InventoryRow(quantity: int, price: real, expiryMs: int)

  /** The derived fields of one listed item. */
  datatype Listed = Listed(quantity: int, price: real, isLowStock: bool, isExpiringSoon: bool, totalValue: real)

  function AsStock(inv: seq<InventoryRow>): (s: seq<C.StockItem>)
    ensures |s| == |inv|
    ensures forall i :: 0 <= i < |inv| ==> s[i] == C.StockItem(inv[i].quantity, inv[i].price)
  {
    if |inv| == 0 then [] else [C.StockItem(inv[0].quantity, inv[0].price)] + AsStock(inv[1..])
  }

  /** One listed item: flagged low below 10 units, expiring by the shared
      window, valued at quantity times price. */
  function ListItem(row: InventoryRow, nowMs: int): (l: Listed)
    ensures l.quantity == row.quantity && l.price == row.price
    ensures l.isLowStock <==> row.quantity < Stock.FlagBelow
    ensures l.isExpiringSoon <==> nowMs - C.DayMs < row.expiryMs <= nowMs + 30 * C.DayMs
    ensures l.totalValue == row.quantity as real * row.price
  {
    Listed(row.quantity, row.price, Stock.LowFlag(row.quantity), C.ExpiringSoon(row.expiryMs, nowMs),
           row.quantity as real * row.price)
  }

  /** `inventory.map(...)`: one listed item per row, in order. */
  function ListInventory(inv: seq<InventoryRow>, nowMs: int): (ls: seq<Listed>)
    ensures |ls| == |inv|
    ensures forall i :: 0 <= i < |inv| ==> ls[i] == ListItem(inv[i], nowMs)
  {
    if |inv| == 0 then [] else [ListItem(inv[0], nowMs)] + ListInventory(inv[1..], nowMs)
  }

  /** The sum of the listed items' values. */
  function ListedValue(ls: seq<Listed>): real {
    if |ls| == 0 then 0.0 else ListedValue(ls[..|ls| - 1]) + ls[|ls| - 1].totalValue
  }

  /** The number of listed items flagged low. */
  function ListedLow(ls: seq<Listed>): nat {
    if |ls| == 0 then 0 else (if ls[0].isLowStock then 1 else 0) + ListedLow(ls[1..])
  }

  /** The number of listed items flagged as expiring soon. */
  function ListedExpiring(ls: seq<Listed>): nat {
    if |ls| == 0 then 0 else (if ls[0].isExpiringSoon then 1 else 0) + ListedExpiring(ls[1..])
  }

  /** The number of rows expiring soon. */
  function ExpiringCount(inv: seq<InventoryRow>, nowMs: int): (n: nat)
    ensures n <= |inv|
  {
    if |inv| == 0 then 0
    else (if C.ExpiringSoon(inv[0].expiryMs, nowMs) then 1 else 0) + ExpiringCount(inv[1..], nowMs)
  }

  /** Two lists whose items carry the same values have the same total. */
  lemma {:induction false} ValuesMatch(ls: seq<Listed>, s: seq<C.StockItem>)
    requires |ls| == |s|
    requires forall i :: 0 <= i < |ls| ==> ls[i].totalValue == s[i].quantity as real * s[i].price
    ensures ListedValue(ls) == C.StockValue(s)
    decreases |ls|
  {
    if |ls| > 0 {
      var n := |ls| - 1;
      ValuesMatch(ls[..n], s[..n]);
    }
  }

  /** Two lists whose items carry the same low flags count the same. */
  lemma {:induction false} FlagsMatch(ls: seq<Listed>, s: seq<C.StockItem>)
    requires |ls| == |s|
    requires forall i :: 0 <= i < |ls| ==> (ls[i].isLowStock <==> Stock.LowFlag(s[i].quantity))
    ensures ListedLow(ls) == |C.LowStockItems(s)|
  {
    if |ls| > 0 {
      FlagsMatch(ls[1..], s[1..]);
    }
  }

  /** The per-item values add up to the inventory value the same page
      reports. */
  lemma ListedValuesAddUp(inv: seq<InventoryRow>, nowMs: int)
    ensures ListedValue(ListInventory(inv, nowMs)) == C.StockValue(AsStock(inv))
  {
    ValuesMatch(ListInventory(inv, nowMs), AsStock(inv));
  }

  /** The items flagged low are exactly as many as the low-stock items the
      page counts. */
  lemma ListedLowCounts(inv: seq<InventoryRow>, nowMs: int)
    ensures ListedLow(ListInventory(inv, nowMs)) == |C.LowStockItems(AsStock(inv))|
  {
    FlagsMatch(ListInventory(inv, nowMs), AsStock(inv));
  }

  /** The expiring count the page reports is the number of listed items
      flagged `is_expiring_soon`: both use the same window. */
  lemma {:induction false} ListedExpiringCounts(inv: seq<InventoryRow>, nowMs: int)
    ensures ListedExpiring(ListInventory(inv, nowMs)) == ExpiringCount(inv, nowMs)
  {
    if |inv| > 0 {
      ListedExpiringCounts(inv[1..], nowMs);
      assert ListInventory(inv, nowMs)[1..] == ListInventory(inv[1..], nowMs);
    }
  }

  /** The inventory figures: item count, value, low-stock and expiring
      counts. */
  datatype InventoryStats = InventoryStats(totalItems: nat, totalValue: real, lowStockCount: nat, expiringCount: nat)

  function InventoryFigures(inv: seq<InventoryRow>, nowMs: int): (s: InventoryStats)
    ensures s.totalItems == |inv|
    ensures s.lowStockCount <= s.totalItems && s.expiringCount <= s.totalItems
    ensures s.totalValue == ListedValue(ListInventory(inv, nowMs))
    ensures s.lowStockCount == ListedLow(ListInventory(inv, nowMs))
    ensures s.expiringCount == ListedExpiring(ListInventory(inv, nowMs))
  {
    ListedValuesAddUp(inv, nowMs);
    ListedLowCounts(inv, nowMs);
    ListedExpiringCounts(inv, nowMs);
    InventoryStats(|inv|, C.StockValue(AsStock(inv)), |C.LowStockItems(AsStock(inv))|, ExpiringCount(inv, nowMs))
  }

  // ----------------------------------------------------------------- orders

  /** An order as the pharmacist routes read it. */
  datatype OrderRow = OrderRow(id: int, status: string, paymentStatus: string, totalAmount: real)

  /** `orders.filter(order => order.status === status)` when a status is
      given, all orders otherwise; the order of the list is kept. */
  function FilterByStatus(orders: seq<OrderRow>, status: Js.JsValue): (r: seq<OrderRow>)
    ensures !Js.Truthy(status) ==> r == orders
    ensures forall o :: o in r <==> o in orders && (Js.Truthy(status) ==> status == Js.Str(o.status))
    ensures |r| <= |orders|
  {
    if !Js.Truthy(status) || |orders| == 0 then orders
    else (if status == Js.Str(orders[0].status) then [orders[0]] else []) + FilterByStatus(orders[1..], status)
  }

  /** The filter keeps or drops each order on its own: filtering a
      concatenation filters each part, so the kept orders stay in list order. */
  lemma {:induction false} FilterByStatusConcat(a: seq<OrderRow>, b: seq<OrderRow>, status: Js.JsValue)
    ensures FilterByStatus(a + b, status) == FilterByStatus(a, status) + FilterByStatus(b, status)
  {
    if Js.Truthy(status) && |a| > 0 {
      assert (a + b)[0] == a[0] && (a + b)[1..] == a[1..] + b;
      FilterByStatusConcat(a[1..], b, status);
    } else if Js.Truthy(status) {
      assert a + b == b;
    }
  }

  /** A single order is kept exactly when no status is asked for or it has
      the requested one. */
  lemma FilterByStatusOfOne(o: OrderRow, status: Js.JsValue)
    ensures FilterByStatus([o], status) == if !Js.Truthy(status) || status == Js.Str(o.status) then [o] else []
  {
    assert [o][1..] == [];
  }

  /** The statuses of the orders, in order. */
  function Statuses(orders: seq<OrderRow>): (ss: seq<string>)
    ensures |ss| == |orders|
    ensures forall i :: 0 <= i < |orders| ==> ss[i] == orders[i].status
  {
    if |orders| == 0 then [] else [orders[0].status] + Statuses(orders[1..])
  }

  /** The list's `total` is the number of orders in the requested status. */
  lemma {:induction false} FilterTotal(orders: seq<OrderRow>, s: string)
    requires s != ""
    ensures |FilterByStatus(orders, Js.Str(s))| == Tally.Count(Statuses(orders), s)
  {
    if |orders| > 0 {
      assert Statuses(orders)[1..] == Statuses(orders[1..]);
      FilterTotal(orders[1..], s);
    }
  }

  /** Filtering twice by the same status changes nothing. */
  lemma {:induction false} FilterIdempotent(orders: seq<OrderRow>, status: Js.JsValue)
    ensures FilterByStatus(FilterByStatus(orders, status), status) == FilterByStatus(orders, status)
  {
    if Js.Truthy(status) && |orders| > 0 {
      FilterIdempotent(orders[1..], status);
      var rest := FilterByStatus(orders[1..], status);
      if status == Js.Str(orders[0].status) {
        var r := [orders[0]] + rest;
        assert FilterByStatus(orders, status) == r;
        assert r[0] == orders[0] && r[1..] == rest;
        assert FilterByStatus(r, status) == [r[0]] + FilterByStatus(r[1..], status);
      } else {
        assert FilterByStatus(orders, status) == rest;
      }
    }
  }

  /** Σ total_amount over the paid orders, folded from the left. */
  function Revenue(orders: seq<OrderRow>): real {
    if |orders| == 0 then 0.0
    else Revenue(orders[..|orders| - 1])
         + (if orders[|orders| - 1].paymentStatus == Paid then orders[|orders| - 1].totalAmount else 0.0)
  }

  /** Σ total_amount over all orders. */
  function Turnover(orders: seq<OrderRow>): real {
    if |orders| == 0 then 0.0 else Turnover(orders[..|orders| - 1]) + orders[|orders| - 1].totalAmount
  }

  /** With non-negative amounts the revenue lies between 0 and the
      turnover of all orders, and equals it when every order is paid. */
  lemma {:induction false} RevenueBounds(orders: seq<OrderRow>)
    requires forall o :: o in orders ==> o.totalAmount >= 0.0
    ensures 0.0 <= Revenue(orders) <= Turnover(orders)
    ensures (forall o :: o in orders ==> o.paymentStatus == Paid) ==> Revenue(orders) == Turnover(orders)
    decreases |orders|
  {
    if |orders| > 0 {
      var n := |orders| - 1;
      assert forall o :: o in orders[..n] ==> o in orders;
      assert orders[n] in orders;
      RevenueBounds(orders[..n]);
    }
  }

  /** `orders.filter(o => o.payment_status === 'paid')`, in order. */
  function PaidOrders(orders: seq<OrderRow>): (r: seq<OrderRow>)
    ensures forall o :: o in r <==> o in orders && o.paymentStatus == Paid
  {
    if |orders| == 0 then []
    else
      var n := |orders| - 1;
      assert orders == orders[..n] + [orders[n]];
      PaidOrders(orders[..n]) + (if orders[n].paymentStatus == Paid then [orders[n]] else [])
  }

  /** The dashboard's revenue is the source's filter-then-reduce: the sum
      of the amounts of the paid orders. */
  lemma {:induction false} RevenueIsPaidTurnover(orders: seq<OrderRow>)
    ensures Revenue(orders) == Turnover(PaidOrders(orders))
    decreases |orders|
  {
    if |orders| > 0 {
      var n := |orders| - 1;
      RevenueIsPaidTurnover(orders[..n]);
      var paid := PaidOrders(orders[..n]);
      if orders[n].paymentStatus == Paid {
        assert (paid + [orders[n]])[..|paid|] == paid;
      } else {
        assert paid + [] == paid;
      }
    }
  }

  /** Unpaid orders add nothing to the revenue. */
  lemma {:induction false} UnpaidAddsNothing(orders: seq<OrderRow>, o: OrderRow)
    requires o.paymentStatus != Paid
    ensures Revenue(orders + [o]) == Revenue(orders)
  {
    assert (orders + [o])[..|orders|] == orders;
  }

  // ------------------------------------------------------- status update

  /** The statuses a pharmacist may set: every order status but 'pending'. */
  const PharmacistStatuses: seq<string> := [Orders.Confirmed, Orders.Processing, Orders.Ready,
                                            Orders.Delivered, Orders.Cancelled]

  /** `PUT /orders/:pharmacyId/:orderId/status`: 400 for a status outside
      the five, 404 for a pharmacy not the pharmacist's, 404 for an order
      not the pharmacy's; otherwise the new status. There is no check of
      the order's current status. */
  function UpdateOrderStatus(owned: seq<int>, pharmacyId: int, pharmacyOrders: seq<int>, orderId: int,
                             status: string): (r: Result<string, Refusal>)
    ensures r.Success? <==> status in PharmacistStatuses && pharmacyId in owned && orderId in pharmacyOrders
    ensures r.Success? ==> r.value == status
    ensures status !in PharmacistStatuses ==> r == Failure(Refusal(BadRequest, ValidationFailed))
    ensures status in PharmacistStatuses && pharmacyId !in owned ==> r == Failure(Refusal(NotFound, PharmacyNotFound))
    ensures status in PharmacistStatuses && pharmacyId in owned && orderId !in pharmacyOrders
            ==> r == Failure(Refusal(NotFound, OrderNotFound))
  {
    if status !in PharmacistStatuses then Failure(Refusal(BadRequest, ValidationFailed))
    else match OwnedPharmacy(owned, pharmacyId)
      case Failure(e) => Failure(e)
      case Success(_) =>
        if orderId in pharmacyOrders then Success(status) else Failure(Refusal(NotFound, OrderNotFound))
  }

  /** No pharmacist update sends an order back to 'pending'. */
  lemma NeverBackToPending(owned: seq<int>, pharmacyId: int, pharmacyOrders: seq<int>, orderId: int)
    ensures UpdateOrderStatus(owned, pharmacyId, pharmacyOrders, orderId, Orders.Pending).Failure?
  {
  }

  /** The pharmacist route lacks the terminal guard of the order route: it
      reopens a delivered or cancelled order, which the order route refuses
      to a pharmacist with 400. */
  lemma TerminalNotGuarded(pharmacyId: int, orderId: int, current: string, status: string, me: int, client: int)
    requires Orders.Terminal(current) && status in PharmacistStatuses
    ensures UpdateOrderStatus([pharmacyId], pharmacyId, [orderId], orderId, status) == Success(status)
    ensures Orders.UpdateDecision(Orders.User("pharmacist", me), Some(Orders.Order(client, current)), status)
            == Failure(Refusal(BadRequest, Orders.CannotUpdate))
  {
  }

  // -------------------------------------------------------- registrations

  type Registration = PharmacyRegistration.Registration

  /** `registrations.filter(r => r.user_id === req.user.id)`, in order. */
  function OwnRegistrations(regs: seq<Registration>, userId: int): (r: seq<Registration>)
    ensures forall x :: x in r <==> x in regs && x.userId == userId
    ensures |r| <= |regs|
  {
    if |regs| == 0 then []
    else (if regs[0].userId == userId then [regs[0]] else []) + OwnRegistrations(regs[1..], userId)
  }

  /** The pharmacist's registrations keep the order of the full list:
      listing a concatenation lists each part. */
  lemma {:induction false} OwnRegistrationsConcat(a: seq<Registration>, b: seq<Registration>, userId: int)
    ensures OwnRegistrations(a + b, userId) == OwnRegistrations(a, userId) + OwnRegistrations(b, userId)
  {
    if |a| > 0 {
      assert (a + b)[0] == a[0] && (a + b)[1..] == a[1..] + b;
      OwnRegistrationsConcat(a[1..], b, userId);
    } else {
      assert a + b == b;
    }
  }

  /** A single registration is listed exactly when the pharmacist owns it. */
  lemma OwnRegistrationsOfOne(x: Registration, userId: int)
    ensures OwnRegistrations([x], userId) == if x.userId == userId then [x] else []
  {
    assert [x][1..] == [];
  }

  /** `GET /registrations/:id`: 404 without a registration, 403 for one
      owned by someone else. */
  function RegistrationAccess(reg: Option<Registration>, userId: int): (r: Result<Registration, Refusal>)
    ensures r.Success? <==> reg.Some? && reg.value.userId == userId
    ensures r.Success? ==> r.value == reg.value
    ensures reg.None? ==> r == Failure(Refusal(NotFound, PharmacyRegistration.RegistrationNotFound))
    ensures reg.Some? && reg.value.userId != userId ==> r == Failure(Refusal(Forbidden, PharmacyRegistration.AccessDenied))
  {
    match reg
    case None => Failure(Refusal(NotFound, PharmacyRegistration.RegistrationNotFound))
    case Some(x) => if x.userId == userId then Success(x) else Failure(Refusal(Forbidden, PharmacyRegistration.AccessDenied))
  }

  /** The list and the single view agree: a registration is listed to a
      pharmacist exactly when they may open it. */
  lemma ListedIffOpenable(regs: seq<Registration>, x: Registration, userId: int)
    requires x in regs
    ensures x in OwnRegistrations(regs, userId) <==> RegistrationAccess(Some(x), userId).Success?
  {
  }

  /** The pharmacist's view is the registration route's owner case: what
      it opens, the registration route opens to the same pharmacist. */
  lemma OwnerViewAgrees(reg: Option<Registration>, userId: int)
    ensures RegistrationAccess(reg, userId) == PharmacyRegistration.ReadAccess("pharmacist", userId, reg)
  {
  }

  // ------------------------------------------------------------ dashboard

  /** The order figures of the dashboard. */
  datatype OrderStats = OrderStats(total: nat, pending: nat, processing: nat, ready: nat, totalRevenue: real)

  datatype Dashboard = Dashboard(inventory: InventoryStats, orders: OrderStats)

  /** `GET /dashboard/:pharmacyId` for an owned pharmacy. */
  function DashboardFigures(owned: seq<int>, pharmacyId: int, inv: seq<InventoryRow>, orders: seq<OrderRow>,
                            nowMs: int): (r: Result<Dashboard, Refusal>)
    ensures r.Success? <==> pharmacyId in owned
    ensures r.Success? ==> r.value.inventory == InventoryFigures(inv, nowMs)
    ensures r.Success? ==> var o := r.value.orders;
                           o.total == |orders| && o.totalRevenue == Revenue(orders)
                           && o.pending + o.processing + o.ready <= o.total
                           && o.pending == |FilterByStatus(orders, Js.Str(Orders.Pending))|
                           && o.processing == |FilterByStatus(orders, Js.Str(Orders.Processing))|
                           && o.ready == |FilterByStatus(orders, Js.Str(Orders.Ready))|
  {
    match OwnedPharmacy(owned, pharmacyId)
    case Failure(e) => Failure(e)
    case Success(_) =>
      Tally.CountsOfThree(Statuses(orders), Orders.Pending, Orders.Processing, Orders.Ready);
      FilterTotal(orders, Orders.Pending);
      FilterTotal(orders, Orders.Processing);
      FilterTotal(orders, Orders.Ready);
      Success(Dashboard(InventoryFigures(inv, nowMs),
                        OrderStats(|orders|, Tally.Count(Statuses(orders), Orders.Pending),
                                   Tally.Count(Statuses(orders), Orders.Processing),
                                   Tally.Count(Statuses(orders), Orders.Ready), Revenue(orders))))
  }
}
