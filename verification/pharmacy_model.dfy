/** The Pharmacy model: the constructor's defaults, the `findAll` and
    `searchByDrug` SELECT builders, the whitelist UPDATE with its JSON
    columns, and the soft delete. */
module PharmacyModel {
  import opened Wrappers
  import Js
  import opened Sql

  // ---------------------------------------------------------- constructor

  const Pending := "pending"
  const Suspended := "suspended"

  /** The loosely typed fields the constructor defaults. */
  datatype PharmacyData = PharmacyData(status: Js.JsValue, rating: Js.JsValue, createdByAdmin: Js.JsValue)

  /** `status || 'pending'`, `rating || 0.0`, `created_by_admin || false`. */
  function Construct(d: PharmacyData): (p: PharmacyData)
    ensures Js.Truthy(p.status)
    ensures Js.Truthy(d.status) ==> p.status == d.status
    ensures !Js.Truthy(d.status) ==> p.status == Js.Str(Pending)
    ensures Js.Truthy(d.rating) ==> p.rating == d.rating
    ensures !Js.Truthy(d.rating) ==> p.rating == Js.Num(0.0)
    ensures Js.Truthy(d.createdByAdmin) ==> p.createdByAdmin == d.createdByAdmin
    ensures !Js.Truthy(d.createdByAdmin) ==> p.createdByAdmin == Js.Bool(false)
  {
    PharmacyData(Js.Or(d.status, Js.Str(Pending)), Js.Or(d.rating, Js.Num(0.0)),
                 Js.Or(d.createdByAdmin, Js.Bool(false)))
  }

  /** Constructing twice changes nothing: every default is falsy-stable
      (a falsy rating or flag is replaced by a value that is falsy again, and
      the replacement is the same). */
  lemma ConstructIdempotent(d: PharmacyData)
    ensures Construct(Construct(d)) == Construct(d)
  {
  }

  // -------------------------------------------------------------- findAll

  /** The optional filters of `findAll`. */
  datatype FindAllFilters = FindAllFilters(status: Js.JsValue, search: Js.JsValue, location: Option<LatLng>,
                                           radius: Js.JsValue, limit: Js.JsValue)

  /** `filters.location && filters.radius`. */
  predicate RadiusFiltered(f: FindAllFilters) {
    f.location.Some? && Js.Truthy(f.radius)
  }

  /** The values of the radius filter: latitude, longitude, latitude, radius. */
  function RadiusParams(f: FindAllFilters): (ps: seq<Value>)
    ensures |ps| == if RadiusFiltered(f) then 4 else 0
  {
    if RadiusFiltered(f) then
      [Raw(f.location.value.lat), Raw(f.location.value.lng), Raw(f.location.value.lat), Raw(f.radius)]
    else []
  }

  /** The values `findAll` binds, in order: status (1), search (2), radius
      filter (4), limit (1), each only when its filter is present. */
  function FindAllParams(f: FindAllFilters, parseInt: Js.JsValue -> Js.JsValue): seq<Value> {
    If(Js.Truthy(f.status), [Raw(f.status)])
    + If(Js.Truthy(f.search), [LikeOf(f.search), LikeOf(f.search)])
    + RadiusParams(f)
    + If(Js.Truthy(f.limit), [Raw(parseInt(f.limit))])
  }

  const SelectPharmacies := "SELECT * FROM pharmacies WHERE 1=1"

  /** The status and search filters after `WHERE 1=1`. */
  function FindAllValueFilters(f: FindAllFilters): (q: Query)
    ensures AllBound(q)
    ensures Params(q) == If(Js.Truthy(f.status), [Raw(f.status)])
                         + If(Js.Truthy(f.search), [LikeOf(f.search), LikeOf(f.search)])
  {
    var head := [Fixed(SelectPharmacies)];
    var q1 := When(Js.Truthy(f.status), Bind(" AND status = ", Raw(f.status), ""));
    var q2 := When(Js.Truthy(f.search), Tmpl([" AND (name LIKE ", " OR address LIKE ", ")"],
                                              [LikeOf(f.search), LikeOf(f.search)]));
    assert Params(head) == [] by { assert head[1..] == []; }
    Append(head, q1);
    Append(head + q1, q2);
    head + q1 + q2
  }

  /** ` AND (<distance from the centre>) <= ?`, present only when `RadiusFiltered`. */
  function RadiusClause(f: FindAllFilters): (q: Query)
    ensures AllBound(q) && Params(q) == RadiusParams(f)
  {
    if RadiusFiltered(f) then
      var q := [Fixed(" AND "), Haversine("gps_lat", "gps_long", Raw(f.location.value.lat), Raw(f.location.value.lng)),
                Bind(" <= ", Raw(f.radius), "")];
      assert Params(q[2..]) == [Raw(f.radius)] by { assert q[2..][1..] == []; }
      assert Params(q[1..]) == q[1].args + [Raw(f.radius)] by { assert q[1..][1..] == q[2..]; }
      q
    else []
  }

  const OrderByRating := Fixed(" ORDER BY rating DESC, name ASC")

  /** The ordering by rating, then the optional LIMIT. */
  function FindAllTail(f: FindAllFilters, parseInt: Js.JsValue -> Js.JsValue): (q: Query)
    ensures AllBound(q) && Params(q) == If(Js.Truthy(f.limit), [Raw(parseInt(f.limit))])
    ensures |q| == (if Js.Truthy(f.limit) then 2 else 1) && q[0] == OrderByRating
  {
    var lim := When(Js.Truthy(f.limit), Bind(" LIMIT ", Raw(parseInt(f.limit)), ""));
    Append([OrderByRating], lim);
    assert Params([OrderByRating]) == [] by { assert [OrderByRating][1..] == []; }
    [OrderByRating] + lim
  }

  /** `findAll`: the filters, always the ordering by rating and name, then
      the limit. */
  function FindAllQuery(f: FindAllFilters, parseInt: Js.JsValue -> Js.JsValue): (q: Query)
    ensures AllBound(q)
    ensures Params(q) == FindAllParams(f, parseInt)
    ensures |q| >= 1 && (Js.Truthy(f.limit) ==> |q| >= 2)
    ensures q[|q| - (if Js.Truthy(f.limit) then 2 else 1)] == OrderByRating
  {
    var w := FindAllValueFilters(f);
    var d := RadiusClause(f);
    var t := FindAllTail(f, parseInt);
    Append(w, d);
    Append(w + d, t);
    assert (w + d + t)[|w + d|] == t[0];
    w + d + t
  }

  /** Placeholders equal params for every combination of filters, and the
      count is 1 for a status, 2 for a search, 4 for the radius filter and
      1 for a limit. */
  lemma FindAllPlaceholders(f: FindAllFilters, parseInt: Js.JsValue -> Js.JsValue)
    ensures Placeholders(FindAllQuery(f, parseInt)) == |FindAllParams(f, parseInt)|
    ensures |FindAllParams(f, parseInt)| == (if Js.Truthy(f.status) then 1 else 0)
      + (if Js.Truthy(f.search) then 2 else 0) + (if RadiusFiltered(f) then 4 else 0)
      + (if Js.Truthy(f.limit) then 1 else 0)
  {
    var a, b, c := If(Js.Truthy(f.status), [Raw(f.status)]), If(Js.Truthy(f.search), [LikeOf(f.search), LikeOf(f.search)]),
                   If(Js.Truthy(f.limit), [Raw(parseInt(f.limit))]);
    CountOfParts(FindAllQuery(f, parseInt), a + b, RadiusParams(f), c);
  }

  // --------------------------------------------------------- searchByDrug

  const DefaultRadius := 10.0

  /** The join up to the first LIKE placeholder: approved pharmacies only. */
  const JoinApproved := " FROM pharmacies p INNER JOIN drugs d ON p.id = d.pharmacy_id WHERE p.status = 'approved' "
                        + "AND (d.name LIKE "

  /** The approved, in-stock join matching the drug's name or category. */
  function ApprovedInStock(drugName: string): (c: Clause)
    ensures Bound(c) && c.args == [Like(drugName), Like(drugName)]
  {
    Tmpl(ApprovedInStockText, [Like(drugName), Like(drugName)])
  }

  const ApprovedInStockText := [JoinApproved, " OR d.category LIKE ", ") AND d.stock > 0"]

  const HavingPrefix := " HAVING distance_km <= "

  const OrderByDistance := Fixed(" ORDER BY distance_km ASC, d.stock DESC, p.rating DESC")
  const OrderByStockRating := Fixed(" ORDER BY  d.stock DESC, p.rating DESC")

  /** The ORDER BY of `searchByDrug`: distance first only with a location. */
  function DrugOrder(located: bool): (c: Clause)
    ensures Bound(c) && c.args == []
  {
    if located then OrderByDistance else OrderByStockRating
  }

  const DrugSelect := "SELECT DISTINCT p.*, d.name as drug_name, d.price, d.stock, d.category, "
                      + "CASE WHEN d.stock = 0 THEN 'Out of Stock' WHEN d.stock < 20 THEN "
                      + "CONCAT('Low Stock (', d.stock, ' left)') ELSE 'In Stock' END as stock_status"

  /** The SELECT list: the distance column (binding latitude, longitude,
      latitude) only with a location. */
  function DrugColumns(loc: Option<LatLng>): (q: Query)
    ensures AllBound(q)
    ensures Params(q) == (if loc.Some? then [Raw(loc.value.lat), Raw(loc.value.lng), Raw(loc.value.lat)] else [])
  {
    var head := [Fixed(DrugSelect)];
    assert Params(head) == [] by { assert head[1..] == []; }
    if loc.Some? then
      var dist := [Fixed(", "), Haversine("p.gps_lat", "p.gps_long", Raw(loc.value.lat), Raw(loc.value.lng)),
                   Fixed(" as distance_km")];
      assert Params(dist[2..]) == [] by { assert dist[2..][1..] == []; }
      assert Params(dist[1..]) == dist[1].args by { assert dist[1..][1..] == dist[2..]; }
      Append(head, dist);
      head + dist
    else head
  }

  /** `searchByDrug`'s radius: 10 when not passed. */
  function SearchByDrugRadius(radius: Js.JsValue): Js.JsValue {
    Js.Default(radius, Js.Num(DefaultRadius))
  }

  /** The HAVING clause and ordering after the join. */
  function DrugTail(loc: Option<LatLng>, radius: Js.JsValue): (q: Query)
    ensures AllBound(q)
    ensures Params(q) == If(loc.Some? && Js.Truthy(radius), [Raw(radius)])
    ensures |q| >= 1 && q[|q| - 1] == DrugOrder(loc.Some?)
  {
    var having := When(loc.Some? && Js.Truthy(radius), Bind(HavingPrefix, Raw(radius), ""));
    Append(having, [DrugOrder(loc.Some?)]);
    assert Params([DrugOrder(loc.Some?)]) == [] by { assert [DrugOrder(loc.Some?)][1..] == []; }
    having + [DrugOrder(loc.Some?)]
  }

  /** The SELECT list and the join. */
  function DrugHead(drugName: string, loc: Option<LatLng>): (q: Query)
    ensures AllBound(q)
    ensures Params(q) == (if loc.Some? then [Raw(loc.value.lat), Raw(loc.value.lng), Raw(loc.value.lat)] else [])
                         + [Like(drugName), Like(drugName)]
    ensures |q| > 0 && q[|q| - 1] == ApprovedInStock(drugName)
  {
    var cols := DrugColumns(loc);
    var join := ApprovedInStock(drugName);
    Snoc(cols, join);
    cols + [join]
  }

  /** `searchByDrug(drugName, userLocation, radius)`: the params are the
      centre (latitude, longitude, latitude) with a location, the two LIKE
      patterns, and the radius when there is a location and a truthy radius;
      the approved, in-stock join is always present; the ordering leads with
      distance only with a location. */
  function SearchByDrugQuery(drugName: string, loc: Option<LatLng>, radius: Js.JsValue): (q: Query)
    ensures AllBound(q)
    ensures Params(q) == (if loc.Some? then [Raw(loc.value.lat), Raw(loc.value.lng), Raw(loc.value.lat)] else [])
                         + [Like(drugName), Like(drugName)]
                         + If(loc.Some? && Js.Truthy(SearchByDrugRadius(radius)), [Raw(SearchByDrugRadius(radius))])
  {
    var head := DrugHead(drugName, loc);
    var tail := DrugTail(loc, SearchByDrugRadius(radius));
    Append(head, tail);
    head + tail
  }

  /** Whatever the arguments, the approved in-stock join is present. */
  lemma SearchByDrugShape(drugName: string, loc: Option<LatLng>, radius: Js.JsValue)
    ensures ApprovedInStock(drugName) in SearchByDrugQuery(drugName, loc, radius)
  {
    var head := DrugHead(drugName, loc);
    var tail := DrugTail(loc, SearchByDrugRadius(radius));
    assert (head + tail)[|head| - 1] == ApprovedInStock(drugName);
  }

  /** Placeholders equal params, and there are two values without a
      location, five with a location and a zero radius, six with a location
      and a truthy (or defaulted) radius. */
  lemma SearchByDrugCount(drugName: string, loc: Option<LatLng>, radius: Js.JsValue)
    ensures Placeholders(SearchByDrugQuery(drugName, loc, radius)) == |Params(SearchByDrugQuery(drugName, loc, radius))|
            == 2 + (if loc.Some? then 3 else 0) + (if loc.Some? && Js.Truthy(SearchByDrugRadius(radius)) then 1 else 0)
  {
    var centre := if loc.Some? then [Raw(loc.value.lat), Raw(loc.value.lng), Raw(loc.value.lat)] else [];
    var r := SearchByDrugRadius(radius);
    var tail := If(loc.Some? && Js.Truthy(r), [Raw(r)]);
    CountOfParts(SearchByDrugQuery(drugName, loc, radius), centre, [Like(drugName), Like(drugName)], tail);
  }

  // --------------------------------------------------------------- update

  /** The columns `update` may set. */
  const UpdatableFields: seq<string> := ["name", "phone", "address", "gps_lat", "gps_long",
                                         "license_url", "operating_hours", "services", "status"]

  /** The two columns stored as JSON text. */
  const JsonFields: seq<string> := ["operating_hours", "services"]

  /** How `update` binds a field: JSON-stringified for the JSON columns,
      passed through otherwise. */
  function EncodeField(e: Field): (v: Value)
    ensures e.key in JsonFields ==> v == Json(e.value)
    ensures e.key !in JsonFields ==> v == e.value
  {
    if e.key == "operating_hours" || e.key == "services" then Json(e.value) else e.value
  }

  /** `update`: the whitelisted entries in entry order, the JSON columns
      stringified, `updated_at` stamped and the id last; the error when no
      entry is whitelisted. */
  function UpdatePharmacy(id: Value, entries: seq<Field>): (r: Result<Query, string>)
    ensures r.Failure? <==> forall e :: e in entries ==> e.key !in UpdatableFields
    ensures r.Failure? ==> r.error == NoValidFields
    ensures r.Success? ==> AllBound(r.value) && Stamp in r.value
    ensures r.Success? ==> Params(r.value) == Encoded(Whitelisted(entries, UpdatableFields), EncodeField) + [id]
    ensures r.Success? ==> SetsWhitelisted(r.value, "pharmacies", Whitelisted(entries, UpdatableFields), EncodeField)
  {
    UpdateQuery("pharmacies", UpdatableFields, entries, id, true, EncodeField)
  }

  /** Position by position, the update binds each kept entry's value, wrapped
      in `Json` exactly for the two JSON columns, and then the id. */
  lemma UpdateBindsJsonColumns(id: Value, entries: seq<Field>)
    requires exists e :: e in entries && e.key in UpdatableFields
    ensures var ws := Whitelisted(entries, UpdatableFields);
            var ps := Params(UpdatePharmacy(id, entries).value);
            |ps| == |ws| + 1 && ps[|ws|] == id
            && forall i :: 0 <= i < |ws| ==> (ws[i].key in JsonFields ==> ps[i] == Json(ws[i].value))
                                             && (ws[i].key !in JsonFields ==> ps[i] == ws[i].value)
  {
    var ws := Whitelisted(entries, UpdatableFields);
    var ps := Params(UpdatePharmacy(id, entries).value);
    forall i | 0 <= i < |ws|
      ensures ws[i].key in JsonFields ==> ps[i] == Json(ws[i].value)
      ensures ws[i].key !in JsonFields ==> ps[i] == ws[i].value
    {
      assert ps[i] == EncodeField(ws[i]);
    }
  }

  // --------------------------------------------------------------- delete

  /** Deleting a pharmacy keeps its row and marks it 'suspended'; the table is
      modelled as the status of every stored id. The result is the table
      and the affected-row count. */
  function SoftDelete(statuses: map<int, string>, id: int): (r: (map<int, string>, nat))
    ensures r.0.Keys == statuses.Keys
    ensures id in statuses ==> r.0[id] == Suspended && r.1 == 1
    ensures id !in statuses ==> r.0 == statuses && r.1 == 0
    ensures forall k :: k in statuses && k != id ==> r.0[k] == statuses[k]
  {
    if id in statuses then (statuses[id := Suspended], 1) else (statuses, 0)
  }

  /** Deleting twice is deleting once. */
  lemma SoftDeleteIdempotent(statuses: map<int, string>, id: int)
    ensures SoftDelete(SoftDelete(statuses, id).0, id).0 == SoftDelete(statuses, id).0
  {
  }
}
