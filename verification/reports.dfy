/** The reports (flags) routes: submitting a flag, the filtered listing and
    the admin status update. */
module Reports {
  import opened Wrappers
  import Js
  import opened Http
  import opened Sql

  const Open := "open"
  const Reviewed := "reviewed"
  const Closed := "closed"

  /** The statuses a flag may be given. */
  const FlagStatuses: seq<string> := [Open, Reviewed, Closed]

  const FieldsRequired := "Pharmacy ID and reason are required"
  const InvalidStatus := "Invalid status. Must be: open, reviewed, or closed"

  // ----------------------------------------------------------------- submit

  /** A stored flag. */
  datatype Flag = Flag(pharmacyId: Value, reason: Value, details: Value, userEmail: Value, status: string)

  /** `POST /`: 400 unless both the pharmacy and the reason are given; the
      new flag is 'open', with absent details and e-mail stored as NULL. */
  function SubmitReport(pharmacyId: Js.JsValue, reason: Js.JsValue, details: Js.JsValue,
                        userEmail: Js.JsValue): (r: Result<Flag, Refusal>)
    ensures r.Failure? <==> !Js.Truthy(pharmacyId) || !Js.Truthy(reason)
    ensures r.Failure? ==> r.error == Refusal(BadRequest, FieldsRequired)
    ensures r.Success? ==> r.value.status == Open
    ensures r.Success? ==> r.value.pharmacyId == Raw(pharmacyId) && r.value.reason == Raw(reason)
    ensures r.Success? ==> (r.value.details == Null <==> !Js.Truthy(details))
    ensures r.Success? ==> (r.value.userEmail == Null <==> !Js.Truthy(userEmail))
  {
    if !Js.Truthy(pharmacyId) || !Js.Truthy(reason) then Failure(Refusal(BadRequest, FieldsRequired))
    else Success(Flag(Raw(pharmacyId), Raw(reason), OrValue(details, Null), OrValue(userEmail, Null), Open))
  }

  const InsertFlagText := ["INSERT INTO flags (pharmacy_id, reason, details, user_email, status, created_at) VALUES (",
                           ", ", ", ", ", ", ", 'open', NOW())"]

  /** The INSERT of a submitted flag: four values bound, the 'open' status
      written into the statement. */
  function InsertFlag(f: Flag): (q: Query)
    requires f.status == Open
    ensures AllBound(q) && Placeholders(q) == 4
    ensures Params(q) == [f.pharmacyId, f.reason, f.details, f.userEmail]
  {
    var c := Tmpl(InsertFlagText, [f.pharmacyId, f.reason, f.details, f.userEmail]);
    assert Params([c]) == c.args by { assert [c][1..] == []; }
    BoundCount([c]);
    [c]
  }

  /** What a submission binds is what was submitted: the pharmacy and reason
      as given, details and e-mail as given when truthy. */
  lemma SubmittedValuesBound(pharmacyId: Js.JsValue, reason: Js.JsValue, details: Js.JsValue, userEmail: Js.JsValue)
    requires Js.Truthy(pharmacyId) && Js.Truthy(reason)
    ensures var ps := Params(InsertFlag(SubmitReport(pharmacyId, reason, details, userEmail).value));
            ps[0] == Raw(pharmacyId) && ps[1] == Raw(reason)
            && (Js.Truthy(details) ==> ps[2] == Raw(details))
            && (Js.Truthy(userEmail) ==> ps[3] == Raw(userEmail))
  {
    var f := SubmitReport(pharmacyId, reason, details, userEmail).value;
    assert Params(InsertFlag(f)) == [f.pharmacyId, f.reason, f.details, f.userEmail];
  }

  // ------------------------------------------------------------------- list

  /** A filter condition: the column and the value it must equal. */
  datatype Condition = Condition(column: string, value: Value)

  /** The conditions of the listing, in order: status, then pharmacy. */
  function Conditions(status: Js.JsValue, pharmacyId: Js.JsValue): (cs: seq<Condition>)
    ensures |cs| == (if Js.Truthy(status) then 1 else 0) + (if Js.Truthy(pharmacyId) then 1 else 0)
  {
    If(Js.Truthy(status), [Condition("f.status", Raw(status))])
    + If(Js.Truthy(pharmacyId), [Condition("f.pharmacy_id", Raw(pharmacyId))])
  }

  /** The values of a list of conditions. */
  function ConditionValues(cs: seq<Condition>): (vs: seq<Value>)
    ensures |vs| == |cs|
    ensures forall i :: 0 <= i < |cs| ==> vs[i] == cs[i].value
  {
    if |cs| == 0 then [] else [cs[0].value] + ConditionValues(cs[1..])
  }

  /** `' WHERE ' + conditions.join(' AND ')`, one clause per condition: the
      first opens the WHERE, the others are joined with AND; nothing at all
      without conditions. */
  function Where(cs: seq<Condition>, first: bool): (q: Query)
    ensures AllBound(q) && |q| == |cs|
    ensures Params(q) == ConditionValues(cs)
    ensures forall i :: 0 <= i < |q| ==>
              q[i] == Bind((if first && i == 0 then " WHERE " else " AND ") + cs[i].column + " = ", cs[i].value, "")
  {
    if |cs| == 0 then []
    else
      var c := Bind((if first then " WHERE " else " AND ") + cs[0].column + " = ", cs[0].value, "");
      var rest := Where(cs[1..], false);
      assert Params([c]) == [cs[0].value] by { assert [c][1..] == []; }
      Append([c], rest);
      assert ConditionValues(cs) == [cs[0].value] + ConditionValues(cs[1..]);
      [c] + rest
  }

  const ListColumns := "SELECT f.id, f.pharmacy_id, f.reason, f.details, f.user_email, f.status, f.created_at, "
                       + "f.reviewed_at, f.admin_notes, p.name as pharmacy_name, p.address as pharmacy_address "
                       + "FROM flags f JOIN pharmacies p ON f.pharmacy_id = p.id"
  const ListSelect := Fixed(ListColumns)
  const NewestFirst := Fixed(" ORDER BY f.created_at DESC")

  /** `GET /`: the join, the WHERE clause over the present filters, and
      always the newest-first ordering at the end. */
  function ListQuery(status: Js.JsValue, pharmacyId: Js.JsValue): (q: Query)
    ensures AllBound(q) && Placeholders(q) == |Params(q)|
    ensures Params(q) == If(Js.Truthy(status), [Raw(status)]) + If(Js.Truthy(pharmacyId), [Raw(pharmacyId)])
    ensures |q| == 2 + |Conditions(status, pharmacyId)|
    ensures q[0] == ListSelect && q[|q| - 1] == NewestFirst
  {
    var cs := Conditions(status, pharmacyId);
    var w := Where(cs, true);
    ConditionsBind(status, pharmacyId);
    Framed(w);
    [ListSelect] + w + [NewestFirst]
  }

  /** The values of the conditions are the present filters, in order. */
  lemma ConditionsBind(status: Js.JsValue, pharmacyId: Js.JsValue)
    ensures ConditionValues(Conditions(status, pharmacyId))
            == If(Js.Truthy(status), [Raw(status)]) + If(Js.Truthy(pharmacyId), [Raw(pharmacyId)])
  {
    var cs := Conditions(status, pharmacyId);
    assert forall i :: 0 <= i < |cs| ==> ConditionValues(cs)[i] == cs[i].value;
  }

  /** Framing a bound WHERE part with the SELECT and the ordering adds no
      values. */
  lemma Framed(w: Query)
    requires AllBound(w)
    ensures var q := [ListSelect] + w + [NewestFirst];
            AllBound(q) && Params(q) == Params(w) && Placeholders(q) == |Params(q)|
  {
    Append([ListSelect], w);
    Append([ListSelect] + w, [NewestFirst]);
    assert Params([ListSelect]) == [] by { assert [ListSelect][1..] == []; }
    assert Params([NewestFirst]) == [] by { assert [NewestFirst][1..] == []; }
    BoundCount([ListSelect] + w + [NewestFirst]);
  }

  /** The WHERE keyword appears once, in the first condition clause, exactly
      when some filter is present; every later condition is joined by AND. */
  lemma ListWhereIffFiltered(status: Js.JsValue, pharmacyId: Js.JsValue)
    ensures var q, cs := ListQuery(status, pharmacyId), Conditions(status, pharmacyId);
            (|q| > 2 <==> Js.Truthy(status) || Js.Truthy(pharmacyId))
            && (|cs| > 0 ==> q[1] == Bind(" WHERE " + cs[0].column + " = ", cs[0].value, ""))
            && (|cs| > 1 ==> q[2] == Bind(" AND " + cs[1].column + " = ", cs[1].value, ""))
  {
    var cs := Conditions(status, pharmacyId);
    var w := Where(cs, true);
    assert ListQuery(status, pharmacyId) == [ListSelect] + w + [NewestFirst];
  }

  // ----------------------------------------------------------------- update

  /** `PUT /:id`: 400 unless the status is one of the three flag statuses;
      otherwise the status, the notes (or NULL) and the id are bound. */
  function UpdateStatus(status: Js.JsValue, adminNotes: Js.JsValue, reportId: Value): (r: Result<Query, Refusal>)
    ensures r.Failure? <==> !(status.Str? && status.s in FlagStatuses)
    ensures r.Failure? ==> r.error == Refusal(BadRequest, InvalidStatus)
    ensures r.Success? ==> AllBound(r.value) && Params(r.value) == [Raw(status), OrValue(adminNotes, Null), reportId]
  {
    if !(status.Str? && status.s in FlagStatuses) then Failure(Refusal(BadRequest, InvalidStatus))
    else
      var c := Tmpl(["UPDATE flags SET status = ", ", admin_notes = ", ", reviewed_at = NOW() WHERE id = ", ""],
                    [Raw(status), OrValue(adminNotes, Null), reportId]);
      assert Params([c]) == c.args by { assert [c][1..] == []; }
      Success([c])
  }

  /** A submitted flag always carries a status the update accepts. */
  lemma SubmittedStatusIsValid(pharmacyId: Js.JsValue, reason: Js.JsValue, details: Js.JsValue, userEmail: Js.JsValue,
                               notes: Js.JsValue, id: Value)
    requires Js.Truthy(pharmacyId) && Js.Truthy(reason)
    ensures UpdateStatus(Js.Str(SubmitReport(pharmacyId, reason, details, userEmail).value.status), notes, id).Success?
  {
  }
}
