/** The search handlers: the drug search in its two branches (around a
    point, with the distance computed in SQL, or by name, with each
    pharmacy looked up and kept only when approved) and the suggestion
    guard. */
module SearchRoutes {
  import opened Wrappers
  import Js
  import opened Http
  import opened Sql
  import opened Grouping

  const DrugNameRequired := "Drug name is required"

  /** Which branch the search takes. */
  datatype Mode = AroundPoint | ByName

  /** The search guard and branch: a drug name is required; truthy `lat`
      and `lng` select the location branch. */
  function SearchMode(drug: Js.JsValue, lat: Js.JsValue, lng: Js.JsValue): (r: Result<Mode, Refusal>)
    ensures r.Failure? <==> !Js.Truthy(drug)
    ensures r.Failure? ==> r.error == Refusal(BadRequest, DrugNameRequired)
    ensures r.Success? ==> (r.value == AroundPoint <==> Js.Truthy(lat) && Js.Truthy(lng))
  {
    if !Js.Truthy(drug) then Failure(Refusal(BadRequest, DrugNameRequired))
    else if Js.Truthy(lat) && Js.Truthy(lng) then Success(AroundPoint)
    else Success(ByName)
  }

  // ------------------------------------------------------ location branch

  const LocationSelect := "SELECT p.id as pharmacy_id, p.name as pharmacy_name, p.email, p.phone, p.address, "
                          + "p.gps_lat, p.gps_long, p.status, p.rating, d.id as drug_id, d.name as drug_name, "
                          + "d.price, d.stock, d.expiry_date, "
  const LocationJoin := " AS distance FROM pharmacies p JOIN drugs d ON p.id = d.pharmacy_id WHERE d.name LIKE "
  const LocationFilter := " AND d.stock > 0 AND p.status = 'approved' AND "

  /** The location branch's query: the distance column, the name pattern,
      the distance filter and the order, binding the parsed centre, the
      pattern and the radius. */
  function LocationQuery(lat: real, lng: real, drug: string, radius: real): (q: Query)
    ensures AllBound(q)
    ensures Params(q) == [Num(lat), Num(lng), Num(lat), Like(drug), Num(lat), Num(lng), Num(lat), Num(radius)]
    ensures Placeholders(q) == 8
  {
    var q := [Fixed(LocationSelect),
              Haversine("p.gps_lat", "p.gps_long", Num(lat), Num(lng)),
              Bind(LocationJoin, Like(drug), LocationFilter),
              Haversine("p.gps_lat", "p.gps_long", Num(lat), Num(lng)),
              Bind(" <= ", Num(radius), " ORDER BY distance ASC, d.price ASC")];
    assert AllBound(q);
    assert Params(q[4..]) == q[4].args by { assert q[4..][1..] == []; }
    assert Params(q[3..]) == q[3].args + Params(q[4..]) by { assert q[3..][1..] == q[4..]; }
    assert Params(q[2..]) == q[2].args + Params(q[3..]) by { assert q[2..][1..] == q[3..]; }
    assert Params(q[1..]) == q[1].args + Params(q[2..]) by { assert q[1..][1..] == q[2..]; }
    Alignment(q);
    q
  }

  /** The location branch's grouping: a Map filled row by row, read back in
      insertion order. */
  function LocationGroups<P, D>(rows: seq<Row<P, D>>, dist: P -> real): (r: seq<Group<P, D>>)
    ensures Describes(r, rows)
    ensures RowsByDistance(rows, dist) ==> GroupsByDistance(r, dist)
  {
    GroupRowsDescribes(rows);
    assert RowsByDistance(rows, dist) ==> GroupsByDistance(GroupRows(rows), dist) by {
      if RowsByDistance(rows, dist) { GroupsFollowRowOrder(rows, dist); }
    }
    GroupRows(rows)
  }

  // ---------------------------------------------------------- name branch

  const Approved := "approved"

  /** The name branch's grouping: a drug's pharmacy is looked up until it
      has a group, so an approved pharmacy once and a missing or unapproved
      one for each of its drugs; a missing or unapproved pharmacy gets no
      group and its drugs are dropped. `status` reads a pharmacy's status. */
  function NameGroups<P, D>(drugs: seq<Item<D>>, lookup: int -> Option<P>, status: P -> string): (r: seq<Group<P, D>>)
    ensures r == GroupRows(Admitted(drugs, lookup, p => status(p) == Approved))
    ensures forall g :: g in r ==> status(g.meta) == Approved
  {
    var admit := p => status(p) == Approved;
    GroupWithLookupIsGroupRows(drugs, lookup, admit);
    var rows := Admitted(drugs, lookup, admit);
    GroupsAreDescribed(rows);
    forall g | g in GroupRows(rows) ensures status(g.meta) == Approved {
      var i :| 0 <= i < |rows| && rows[i].key == g.key && rows[i].meta == FirstMeta(rows, g.key);
    }
    GroupWithLookup(drugs, lookup, admit)
  }

  // ----------------------------------------------------------- suggestions

  const SuggestionHead := "SELECT DISTINCT d.name FROM drugs d JOIN pharmacies p ON d.pharmacy_id = p.id WHERE d.name LIKE "
  const SuggestionTail := " AND p.status = 'approved' AND d.stock > 0 ORDER BY d.name ASC LIMIT 10"

  /** The suggestion lookup: nothing, without a query, for an absent `q` or
      one shorter than two characters; otherwise the distinct approved,
      in-stock drug names matching `%q%`. */
  function SuggestionQuery(q: Option<string>): (r: Option<Query>)
    ensures r.None? <==> q.None? || |q.value| < 2
    ensures r.Some? ==> AllBound(r.value) && Params(r.value) == [Like(q.value)]
  {
    if q.None? || |q.value| < 2 then None
    else
      var query := [Bind(SuggestionHead, Like(q.value), SuggestionTail)];
      assert Params(query) == query[0].args by { assert query[1..] == []; }
      Some(query)
  }
}
