/** The pharmacy-registration routes: the submission's validation and
    defaults, who may read a registration, the owner-only and pending-only
    inventory edits, the inventory item defaults, and the admin status
    update, which has no pending guard. */
module PharmacyRegistration {
  import opened Wrappers
  import Js
  import opened Http
  import Text

  const Pending := "pending"
  const Approved := "approved"
  const Rejected := "rejected"

  /** The statuses the status update accepts. */
  const RegistrationStatuses: seq<string> := [Pending, Approved, Rejected]

  const DefaultCountry := "Cameroon"
  const ValidationFailed := "Validation failed"
  const RegistrationNotFound := "Pharmacy registration not found"
  const AccessDenied := "Access denied"
  const NotEditable := "Cannot modify inventory for non-pending registration"
  const ItemNotFound := "Inventory item not found"

  /** A registration: its id, the pharmacist who submitted it, its status. */
  datatype Registration = Registration(id: int, userId: int, status: string)

  // ------------------------------------------------------------ validation

  /** A length rule of the validator: the field, whether it may be absent,
      and the bounds on its trimmed length. */
  datatype LengthRule = LengthRule(field: string, optional: bool, min: nat, max: nat)

  /** A field passes when it is absent and optional, or when its trimmed
      value has an admissible length. An absent required field is read as
      the empty string. */
  predicate Passes(body: map<string, string>, rule: LengthRule) {
    if rule.field in body then rule.min <= |Text.Trim(body[rule.field])| <= rule.max
    else rule.optional || rule.min == 0
  }

  /** The length rules of a registration, in the order the validator lists
      them. */
  const RegistrationRules: seq<LengthRule> := [
    LengthRule("pharmacy_name", false, 2, 100),
    LengthRule("license_number", true, 5, 50),
    LengthRule("description", true, 0, 500),
    LengthRule("address", false, 5, 200),
    LengthRule("city", false, 2, 50),
    LengthRule("state", false, 2, 50),
    LengthRule("country", true, 2, 50),
    LengthRule("phone", false, 10, 20),
    LengthRule("operating_hours", true, 0, 200)]

  /** The coordinate ranges of a registration: each optional, each within
      its bounds when given. */
  predicate CoordinatesOk(latitude: Option<real>, longitude: Option<real>) {
    (latitude.Some? ==> -90.0 <= latitude.value <= 90.0)
    && (longitude.Some? ==> -180.0 <= longitude.value <= 180.0)
  }

  /** A registration body passes the length rules and the coordinate
      ranges. The e-mail format check is not part of this model. */
  predicate ValidRegistration(body: map<string, string>, latitude: Option<real>, longitude: Option<real>) {
    (forall i :: 0 <= i < |RegistrationRules| ==> Passes(body, RegistrationRules[i]))
    && CoordinatesOk(latitude, longitude)
  }

  /** The five required fields must be present, and present with content:
      a submission without a name, an address, a city, a state or a phone
      number is refused. */
  lemma RequiredFieldsPresent(body: map<string, string>, latitude: Option<real>, longitude: Option<real>)
    requires ValidRegistration(body, latitude, longitude)
    ensures "pharmacy_name" in body && |Text.Trim(body["pharmacy_name"])| >= 2
    ensures "address" in body && |Text.Trim(body["address"])| >= 5
    ensures "city" in body && "state" in body
    ensures "phone" in body && 10 <= |Text.Trim(body["phone"])| <= 20
  {
    assert Passes(body, RegistrationRules[0]);
    assert Passes(body, RegistrationRules[3]);
    assert Passes(body, RegistrationRules[4]);
    assert Passes(body, RegistrationRules[5]);
    assert Passes(body, RegistrationRules[7]);
  }

  /** What a submission stores and reports. */
  datatype Submission = Submission(userId: int, country: string, status: string)

  /** `POST /register`: 400 for a body the validator refuses; otherwise the
      registration belongs to the submitting user, its country is the one
      given or 'Cameroon', and it is reported as pending. */
  function Register(userId: int, body: map<string, string>, latitude: Option<real>,
                    longitude: Option<real>): (r: Result<Submission, Refusal>)
    ensures r.Success? <==> ValidRegistration(body, latitude, longitude)
    ensures r.Failure? ==> r.error == Refusal(BadRequest, ValidationFailed)
    ensures r.Success? ==> r.value.userId == userId && r.value.status == Pending
    ensures r.Success? ==> r.value.country == if "country" in body && Text.Trim(body["country"]) != ""
                                             then Text.Trim(body["country"]) else DefaultCountry
  {
    if !ValidRegistration(body, latitude, longitude) then Failure(Refusal(BadRequest, ValidationFailed))
    else
      var given := if "country" in body then Text.Trim(body["country"]) else "";
      Success(Submission(userId, if given != "" then given else DefaultCountry, Pending))
  }

  /** Only a registration without a country falls back to Cameroon: a
      country that passes the validator is kept. */
  lemma GivenCountryKept(userId: int, body: map<string, string>, latitude: Option<real>, longitude: Option<real>)
    requires ValidRegistration(body, latitude, longitude) && "country" in body
    ensures Register(userId, body, latitude, longitude).value.country == Text.Trim(body["country"])
  {
    assert Passes(body, RegistrationRules[6]);
  }

  // ---------------------------------------------------------------- access

  /** Reading a registration or its inventory: 404 without one, 403 unless
      the reader is an admin or the owner. */
  function ReadAccess(role: string, userId: int, reg: Option<Registration>): (r: Result<Registration, Refusal>)
    ensures r.Success? <==> reg.Some? && (role == "admin" || reg.value.userId == userId)
    ensures r.Success? ==> r.value == reg.value
    ensures reg.None? ==> r == Failure(Refusal(NotFound, RegistrationNotFound))
    ensures reg.Some? && role != "admin" && reg.value.userId != userId ==> r == Failure(Refusal(Forbidden, AccessDenied))
  {
    match reg
    case None => Failure(Refusal(NotFound, RegistrationNotFound))
    case Some(x) =>
      if role != "admin" && x.userId != userId then Failure(Refusal(Forbidden, AccessDenied)) else Success(x)
  }

  /** Adding or deleting inventory: 404 without a registration, 403 for
      anyone but the owner (admins included), 400 once it is no longer
      pending. */
  function EditAccess(userId: int, reg: Option<Registration>): (r: Result<Registration, Refusal>)
    ensures r.Success? <==> reg.Some? && reg.value.userId == userId && reg.value.status == Pending
    ensures r.Success? ==> r.value == reg.value
    ensures reg.None? ==> r == Failure(Refusal(NotFound, RegistrationNotFound))
    ensures reg.Some? && reg.value.userId != userId ==> r == Failure(Refusal(Forbidden, AccessDenied))
    ensures reg.Some? && reg.value.userId == userId && reg.value.status != Pending
            ==> r == Failure(Refusal(BadRequest, NotEditable))
  {
    match reg
    case None => Failure(Refusal(NotFound, RegistrationNotFound))
    case Some(x) =>
      if x.userId != userId then Failure(Refusal(Forbidden, AccessDenied))
      else if x.status != Pending then Failure(Refusal(BadRequest, NotEditable))
      else Success(x)
  }

  /** Whoever may edit may read, whatever their role; an admin may read
      every registration but edit none that is not their own. */
  lemma EditImpliesRead(role: string, userId: int, reg: Option<Registration>)
    ensures EditAccess(userId, reg).Success? ==> ReadAccess(role, userId, reg).Success?
    ensures reg.Some? ==> ReadAccess("admin", userId, reg).Success?
    ensures reg.Some? && reg.value.userId != userId ==> EditAccess(userId, reg).Failure?
  {
  }

  /** `prescription_required || false`: the value given when truthy, false
      otherwise. */
  function PrescriptionRequired(v: Js.JsValue): (r: Js.JsValue)
    ensures Js.Truthy(v) ==> r == v
    ensures !Js.Truthy(v) ==> r == Js.Bool(false)
    ensures !Js.Truthy(r) <==> r == Js.Bool(false)
  {
    Js.Or(v, Js.Bool(false))
  }

  /** `DELETE /:id/inventory/:itemId`: the edit guard, then 404 when no row
      was removed. */
  function DeleteItem(userId: int, reg: Option<Registration>, deleted: nat): (code: int)
    ensures code == Ok <==> EditAccess(userId, reg).Success? && deleted > 0
    ensures EditAccess(userId, reg).Failure? ==> code == EditAccess(userId, reg).error.status
    ensures EditAccess(userId, reg).Success? && deleted == 0 ==> code == NotFound
  {
    match EditAccess(userId, reg)
    case Failure(e) => e.status
    case Success(_) => if deleted == 0 then NotFound else Ok
  }

  // ---------------------------------------------------------- status update

  /** What the admin status update does: run the approval, or store the
      status and the notes as given. */
  datatype StatusAction = RunApproval | Store(status: string, notes: Option<string>)

  /** `PUT /:id/status`: 400 for a status outside the three or notes over
      500 characters after trimming, 404 without a registration; then
      'approved' runs the approval and any other status is stored. The
      registration's current status is not consulted. */
  function UpdateStatus(status: string, notes: Option<string>, reg: Option<Registration>): (r: Result<StatusAction, Refusal>)
    ensures r.Success? <==> status in RegistrationStatuses && (notes.Some? ==> |Text.Trim(notes.value)| <= 500)
                            && reg.Some?
    ensures r.Success? && status == Approved ==> r.value == RunApproval
    ensures r.Success? && status != Approved ==> r.value.Store? && r.value.status == status
    ensures r.Success? && status != Approved && notes.Some? ==> r.value.notes == Some(Text.Trim(notes.value))
  {
    if status !in RegistrationStatuses || (notes.Some? && |Text.Trim(notes.value)| > 500) then
      Failure(Refusal(BadRequest, ValidationFailed))
    else if reg.None? then Failure(Refusal(NotFound, RegistrationNotFound))
    else if status == Approved then Success(RunApproval)
    else Success(Store(status, if notes.Some? then Some(Text.Trim(notes.value)) else None))
  }

  /** Without a pending guard the status route approves a rejected or
      already approved registration again, and reopens a decided one as
      pending. */
  lemma NoPendingGuard(reg: Registration)
    ensures UpdateStatus(Approved, None, Some(reg)) == Success(RunApproval)
    ensures UpdateStatus(Pending, None, Some(reg)) == Success(Store(Pending, None))
  {
  }
}
