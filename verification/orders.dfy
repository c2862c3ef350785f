/** The order routes: who may see an order, the status-update guards, the
    tracking flow and the per-status delivery estimate. */
module Orders {
  import opened Wrappers
  import opened Http
  import ClientRoutes

  const Pending := "pending"
  const Confirmed := "confirmed"
  const Processing := "processing"
  const Ready := "ready"
  const Delivered := "delivered"
  const Cancelled := "cancelled"

  /** The six order statuses. */
  const OrderStatuses: seq<string> := [Pending, Confirmed, Processing, Ready, Delivered, Cancelled]

  /** The statuses no update may leave. */
  predicate Terminal(status: string) {
    status == Delivered || status == Cancelled
  }

  const ValidationFailed := "Validation failed"
  const OrderNotFound := "Order not found"
  const AccessDenied := "Access denied"
  const ClientsOnlyCancel := "Clients can only cancel orders"
  const CannotUpdate := "Order cannot be updated at this stage"

  /** The authenticated user. */
  datatype User = User(role: string, id: int)

  /** What the routes read of an order. */
  datatype Order = Order(clientId: int, status: string)

  /** A client sees only their own orders; pharmacists and admins see all. */
  predicate CanAccess(u: User, o: Order) {
    (u.role == "client" && o.clientId == u.id) || u.role == "pharmacist" || u.role == "admin"
  }

  /** The viewing routes: 404 without an order, 403 without access. */
  function ViewDecision(u: User, order: Option<Order>): (r: Result<Order, Refusal>)
    ensures r.Success? <==> order.Some? && CanAccess(u, order.value)
    ensures order.None? ==> r == Failure(Refusal(NotFound, OrderNotFound))
    ensures order.Some? && !CanAccess(u, order.value) ==> r == Failure(Refusal(Forbidden, AccessDenied))
  {
    match order
    case None => Failure(Refusal(NotFound, OrderNotFound))
    case Some(o) => if CanAccess(u, o) then Success(o) else Failure(Refusal(Forbidden, AccessDenied))
  }

  /** `PUT /:orderId/status`, guards in order: a valid status (400), an
      existing order (404), access (403), clients only cancel (403), not
      terminal (400). The result is the new status. */
  function UpdateDecision(u: User, order: Option<Order>, status: string): (r: Result<string, Refusal>)
    ensures r.Success? <==> status in OrderStatuses && order.Some? && CanAccess(u, order.value)
                            && (u.role == "client" ==> status == Cancelled) && !Terminal(order.value.status)
    ensures r.Success? ==> r.value == status
    ensures status !in OrderStatuses ==> r == Failure(Refusal(BadRequest, ValidationFailed))
    ensures r.Failure? ==> r.error.status in {BadRequest, NotFound, Forbidden}
  {
    if status !in OrderStatuses then Failure(Refusal(BadRequest, ValidationFailed))
    else
      match ViewDecision(u, order)
      case Failure(e) => Failure(e)
      case Success(o) =>
        if u.role == "client" && status != Cancelled then Failure(Refusal(Forbidden, ClientsOnlyCancel))
        else if Terminal(o.status) then Failure(Refusal(BadRequest, CannotUpdate))
        else Success(status)
  }

  /** Delivered and cancelled orders never change, whoever asks and
      whatever they ask for. */
  lemma TerminalIsFinal(u: User, o: Order, status: string)
    requires Terminal(o.status)
    ensures UpdateDecision(u, Some(o), status).Failure?
  {
  }

  /** Every update a client makes cancels. */
  lemma ClientUpdatesCancel(u: User, order: Option<Order>, status: string)
    requires u.role == "client" && UpdateDecision(u, order, status).Success?
    ensures UpdateDecision(u, order, status).value == Cancelled
    ensures order.value.clientId == u.id
  {
  }

  /** The two cancel paths disagree: through this route a client may cancel
      their order while it is processing or ready, which the client route's
      cancel refuses with 400. */
  lemma CancelRoutesDisagree(id: int, status: string)
    requires status == Processing || status == Ready
    ensures UpdateDecision(User("client", id), Some(Order(id, status)), Cancelled).Success?
    ensures ClientRoutes.CancelDecision(Some(ClientRoutes.OrderRef(id, status)), id) == BadRequest
  {
  }

  // --------------------------------------------------------------- tracking

  /** One step of the tracking flow. */
  datatype Step = Step(status: string, description: string, completed: bool)

  /** The forward path of an order. */
  const Forward: seq<string> := [Pending, Confirmed, Processing, Ready, Delivered]

  /** The tracking flow: the five forward steps, each completed as the
      route decides it, then a completed 'cancelled' step for a cancelled
      order. */
  function Flow(status: string): (f: seq<Step>)
    ensures |f| == if status == Cancelled then 6 else 5
    ensures forall i :: 0 <= i < 5 ==> f[i].status == Forward[i]
    ensures f[0].completed
    ensures |f| == 6 ==> f[5] == Step(Cancelled, "Order cancelled", true)
  {
    [Step(Pending, "Order received", true),
     Step(Confirmed, "Order confirmed by pharmacy", status != Pending),
     Step(Processing, "Order being prepared", status in [Processing, Ready, Delivered]),
     Step(Ready, "Order ready for delivery", status in [Ready, Delivered]),
     Step(Delivered, "Order delivered", status == Delivered)]
    + (if status == Cancelled then [Step(Cancelled, "Order cancelled", true)] else [])
  }

  /** The flags are prefix-closed: a completed step has every earlier
      forward step completed. */
  lemma FlowPrefixClosed(status: string, i: int, j: int)
    requires 0 <= i < j < 5 && Flow(status)[j].completed
    ensures Flow(status)[i].completed
  {
  }

  /** For an order on the forward path, exactly the steps up to its own
      status are completed. */
  lemma FlowMarksUpToStatus(k: int, i: int)
    requires 0 <= k < 5 && 0 <= i < 5
    ensures Flow(Forward[k])[i].completed <==> i <= k
  {
  }

  /** A cancelled order shows 'confirmed' as completed, even one cancelled
      while pending, and nothing after it. */
  lemma CancelledFlow()
    ensures var f := Flow(Cancelled);
            f[1].completed && !f[2].completed && !f[3].completed && !f[4].completed && f[5].completed
  {
  }

  // ------------------------------------------------------- delivery estimate

  const DefaultEstimate := "45-60 minutes"

  /** The status-to-estimate table. */
  const Estimates: map<string, string> := map[
    Pending := "45-60 minutes",
    Confirmed := "30-45 minutes",
    Processing := "15-30 minutes",
    Ready := "10-20 minutes",
    Delivered := "Delivered",
    Cancelled := "N/A"]

  /** `estimates[status] || '45-60 minutes'`: the table's entry, the pending
      estimate for anything else. */
  function EstimatedDelivery(status: string): (e: string)
    ensures status in OrderStatuses ==> e == Estimates[status]
    ensures status !in OrderStatuses ==> e == DefaultEstimate
  {
    if status in Estimates && Estimates[status] != "" then Estimates[status] else DefaultEstimate
  }

  /** Every order status has its own entry, the estimate never comes out
      empty, and an unknown status is estimated like a pending order, with
      the same text the client route shows for an order without a known
      location. */
  lemma EstimatesCoverStatuses(status: string)
    ensures Estimates.Keys == set s | s in OrderStatuses
    ensures EstimatedDelivery(status) != ""
    ensures status !in OrderStatuses ==> EstimatedDelivery(status) == EstimatedDelivery(Pending) == ClientRoutes.DefaultEta
  {
  }
}
