/** The admin routes: the unrestricted order-status update, the user
    activation toggle, the registration list figures, the platform average
    order value, and the approve/reject decisions on pharmacy
    registrations. */
module Admin {
  import opened Wrappers
  import Js
  import opened Http
  import Text
  import Orders
  import Tally
  import R = PharmacyRegistration

  const ValidationFailed := "Validation failed"
  const OrderNotFound := "Order not found"
  const UserNotFound := "User not found"
  const OwnAccount := "Cannot deactivate your own account"
  const NotPending := "Registration is not pending approval"


  /** The longest admin note accepted, in characters. */
  const MaxNotes := 500

  // ----------------------------------------------------------------- orders

  /** `PUT /orders/:orderId/status`: any of the six statuses (400
      otherwise), for an existing order (404 otherwise); the order's current
      status is not consulted. */
  function UpdateOrderStatus(order: Option<Orders.Order>, status: string): (r: Result<string, Refusal>)
    ensures r.Success? <==> status in Orders.OrderStatuses && order.Some?
    ensures r.Success? ==> r.value == status
    ensures status !in Orders.OrderStatuses ==> r == Failure(Refusal(BadRequest, ValidationFailed))
    ensures status in Orders.OrderStatuses && order.None? ==> r == Failure(Refusal(NotFound, OrderNotFound))
  {
    if status !in Orders.OrderStatuses then Failure(Refusal(BadRequest, ValidationFailed))
    else if order.None? then Failure(Refusal(NotFound, OrderNotFound))
    else Success(status)
  }

  /** Through this route an admin moves a delivered or cancelled order to
      any status, even back to 'pending'; the order route refuses the same
      admin with 400. */
  lemma AdminReopensTerminal(o: Orders.Order, status: string, adminId: int)
    requires Orders.Terminal(o.status) && status in Orders.OrderStatuses
    ensures UpdateOrderStatus(Some(o), status) == Success(status)
    ensures Orders.UpdateDecision(Orders.User("admin", adminId), Some(o), status)
            == Failure(Refusal(BadRequest, Orders.CannotUpdate))
  {
  }

  // ------------------------------------------------------------------ users

  /** `isBoolean()` as the validator applies it to a JSON body value: a
      boolean, 0 or 1, or one of the strings 'true', 'false', '1', '0'. */
  predicate IsBoolean(v: Js.JsValue) {
    v.Bool? || v == Js.Num(0.0) || v == Js.Num(1.0)
    || (v.Str? && v.s in ["true", "false", "1", "0"])
  }

  /** `PUT /users/:userId/status`: 400 for a value that is not boolean, 404
      for a missing user, 400 when the admin targets their own account
      (whatever the value), otherwise the value to store. */
  function UserStatus(isActive: Js.JsValue, userExists: bool, userId: int, adminId: int): (r: Result<Js.JsValue, Refusal>)
    ensures r.Success? <==> IsBoolean(isActive) && userExists && userId != adminId
    ensures r.Success? ==> r.value == isActive
    ensures IsBoolean(isActive) && userExists && userId == adminId ==> r == Failure(Refusal(BadRequest, OwnAccount))
    ensures !IsBoolean(isActive) ==> r == Failure(Refusal(BadRequest, ValidationFailed))
  {
    if !IsBoolean(isActive) then Failure(Refusal(BadRequest, ValidationFailed))
    else if !userExists then Failure(Refusal(NotFound, UserNotFound))
    else if userId == adminId then Failure(Refusal(BadRequest, OwnAccount))
    else Success(isActive)
  }

  /** The guard is on the account, not on the direction: an admin can
      neither deactivate nor reactivate themselves, and any other existing
      user can be switched both ways. */
  lemma OwnAccountEitherWay(me: int, other: int)
    requires other != me
    ensures UserStatus(Js.Bool(true), true, me, me).Failure? && UserStatus(Js.Bool(false), true, me, me).Failure?
    ensures UserStatus(Js.Bool(true), true, other, me).Success? && UserStatus(Js.Bool(false), true, other, me).Success?
  {
  }

  // ---------------------------------------------------------- registrations

  /** The registration list's figures. */
  datatype RegistrationStats = RegistrationStats(total: nat, pending: nat, approved: nat, rejected: nat)

  /** `GET /pharmacy-registrations`: the list's length and the number in
      each of the three statuses. */
  function Stats(statuses: seq<string>): (s: RegistrationStats)
    ensures s.total == |statuses|
    ensures s.pending + s.approved + s.rejected <= s.total
    ensures (forall x :: x in statuses ==> x in [R.Pending, R.Approved, R.Rejected])
            ==> s.pending + s.approved + s.rejected == s.total
    ensures R.Pending !in statuses ==> s.pending == 0
  {
    Tally.CountsOfThree(statuses, R.Pending, R.Approved, R.Rejected);
    RegistrationStats(|statuses|, Tally.Count(statuses, R.Pending), Tally.Count(statuses, R.Approved),
                      Tally.Count(statuses, R.Rejected))
  }

  /** Appending one registration raises the total and its own status's
      count by one and leaves the other counts alone. */
  lemma {:induction false} StatsOfAppended(statuses: seq<string>, x: string)
    requires x in [R.Pending, R.Approved, R.Rejected]
    ensures var a, b := Stats(statuses), Stats(statuses + [x]);
            b.total == a.total + 1
            && b.pending == a.pending + (if x == R.Pending then 1 else 0)
            && b.approved == a.approved + (if x == R.Approved then 1 else 0)
            && b.rejected == a.rejected + (if x == R.Rejected then 1 else 0)
  {
    CountAppend(statuses, x, R.Pending);
    CountAppend(statuses, x, R.Approved);
    CountAppend(statuses, x, R.Rejected);
  }

  lemma {:induction false} CountAppend(xs: seq<string>, x: string, s: string)
    ensures Tally.Count(xs + [x], s) == Tally.Count(xs, s) + (if x == s then 1 else 0)
  {
    if |xs| > 0 {
      assert (xs + [x])[1..] == xs[1..] + [x];
      CountAppend(xs[1..], x, s);
    } else {
      assert [x][1..] == [];
    }
  }

  // --------------------------------------------------------------- analytics

  /** `totalOrders > 0 ? totalRevenue / totalOrders : 0`. */
  function AverageOrderValue(totalOrders: int, totalRevenue: real): (avg: real)
    ensures totalOrders > 0 ==> avg * totalOrders as real == totalRevenue
    ensures totalOrders <= 0 ==> avg == 0.0
  {
    if totalOrders > 0 then totalRevenue / totalOrders as real else 0.0
  }

  /** The average of a non-negative revenue is non-negative and at most the
      revenue itself. */
  lemma AverageBounded(totalOrders: int, totalRevenue: real)
    requires totalRevenue >= 0.0
    ensures 0.0 <= AverageOrderValue(totalOrders, totalRevenue) <= totalRevenue
  {
    if totalOrders > 0 {
      var n := totalOrders as real;
      assert 1.0 <= n;
      assert totalRevenue / n <= totalRevenue / 1.0;
    }
  }

  // ---------------------------------------------------- approve and reject

  /** The notes as the validator leaves them: trimmed when present. */
  function Notes(notes: Option<string>): (t: Option<string>)
    ensures notes.None? <==> t.None?
    ensures t.Some? ==> |t.value| <= |notes.value|
    ensures t.Some? && |t.value| > 0 ==> !Text.IsSpace(t.value[0]) && !Text.IsSpace(t.value[|t.value| - 1])
  {
    match notes
    case None => None
    case Some(n) => Some(Text.Trim(n))
  }

  /** The shared guard: the registration must exist (404) and be pending
      (400). */
  function PendingGuard(status: Option<string>): (r: Result<string, Refusal>)
    ensures r.Success? <==> status == Some(R.Pending)
    ensures status.None? ==> r == Failure(Refusal(NotFound, R.RegistrationNotFound))
    ensures status.Some? && status.value != R.Pending ==> r == Failure(Refusal(BadRequest, NotPending))
  {
    match status
    case None => Failure(Refusal(NotFound, R.RegistrationNotFound))
    case Some(s) => if s == R.Pending then Success(s) else Failure(Refusal(BadRequest, NotPending))
  }

  /** `PUT .../approve`: optional notes of at most 500 characters after
      trimming (400), then the pending guard; the registration becomes
      approved. */
  function Approve(status: Option<string>, notes: Option<string>): (r: Result<string, Refusal>)
    ensures r.Success? <==> status == Some(R.Pending) && (notes.Some? ==> |Text.Trim(notes.value)| <= MaxNotes)
    ensures r.Success? ==> r.value == R.Approved
    ensures notes.Some? && |Text.Trim(notes.value)| > MaxNotes ==> r == Failure(Refusal(BadRequest, ValidationFailed))
  {
    var t := Notes(notes);
    if t.Some? && |t.value| > MaxNotes then Failure(Refusal(BadRequest, ValidationFailed))
    else match PendingGuard(status)
      case Failure(e) => Failure(e)
      case Success(_) => Success(R.Approved)
  }

  /** The rejection's notes rule: present, 1 to 500 characters after
      trimming. */
  function RequiredNotes(notes: Option<string>): (r: Result<string, Refusal>)
    ensures r.Success? <==> notes.Some? && 1 <= |Text.Trim(notes.value)| <= MaxNotes
    ensures r.Success? ==> r.value == Text.Trim(notes.value)
    ensures r.Failure? ==> r.error == Refusal(BadRequest, ValidationFailed)
  {
    match notes
    case None => Failure(Refusal(BadRequest, ValidationFailed))
    case Some(n) =>
      var t := Text.Trim(n);
      if 1 <= |t| <= MaxNotes then Success(t) else Failure(Refusal(BadRequest, ValidationFailed))
  }

  /** What a rejection stores: the new status and the trimmed notes. */
  datatype Rejection = Rejection(status: string, notes: string)

  /** `PUT .../reject`: notes required, 1 to 500 characters after trimming
      (400), then the pending guard; the registration becomes rejected with
      the trimmed notes. */
  function Reject(status: Option<string>, notes: Option<string>): (r: Result<Rejection, Refusal>)
    ensures r.Success? <==> status == Some(R.Pending) && notes.Some? && 1 <= |Text.Trim(notes.value)| <= MaxNotes
    ensures r.Success? ==> r.value == Rejection(R.Rejected, Text.Trim(notes.value))
    ensures notes.None? ==> r == Failure(Refusal(BadRequest, ValidationFailed))
  {
    match RequiredNotes(notes)
    case Failure(e) => Failure(e)
    case Success(t) =>
      match PendingGuard(status)
      case Failure(e) => Failure(e)
      case Success(_) => Success(Rejection(R.Rejected, t))
  }

  /** Approval and rejection are one-shot: whatever either route leaves
      behind, neither accepts the registration again. */
  lemma DecisionsAreFinal(status: Option<string>, n1: Option<string>, n2: Option<string>, n3: Option<string>)
    ensures Approve(status, n1).Success? ==>
              (Approve(Some(Approve(status, n1).value), n2).Failure?
               && Reject(Some(Approve(status, n1).value), n3).Failure?)
    ensures Reject(status, n1).Success? ==>
              (Approve(Some(Reject(status, n1).value.status), n2).Failure?
               && Reject(Some(Reject(status, n1).value.status), n3).Failure?)
  {
  }

  /** Blank notes do not reject: white space alone trims to nothing. */
  lemma BlankNotesRefused(status: Option<string>, notes: string)
    requires forall i :: 0 <= i < |notes| ==> Text.IsSpace(notes[i])
    ensures Reject(status, Some(notes)) == Failure(Refusal(BadRequest, ValidationFailed))
  {
    Text.TrimBlank(notes);
  }

  /** The two status paths disagree: the admin route's approval refuses a
      rejected registration with 400, the registration route's status
      update approves it. */
  lemma ApprovalPathsDisagree(reg: R.Registration)
    requires reg.status == R.Rejected
    ensures Approve(Some(reg.status), None) == Failure(Refusal(BadRequest, NotPending))
    ensures R.UpdateStatus(R.Approved, None, Some(reg)) == Success(R.RunApproval)
  {
  }
}
