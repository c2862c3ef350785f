/** The Drug model: the row defaults of `create` and the constructor, the
    two filtered SELECT builders, the whitelist UPDATE and the low-stock
    selection. Every builder is a list of clauses appended under the same
    conditions as the repository's `query +=` / `params.push` pairs, so
    placeholders and params stay aligned by construction and the contracts
    state which values are bound, in which order. */
module DrugModel {
  import opened Wrappers
  import Js
  import opened Sql
  import opened Sorting
  import Stock

  // --------------------------------------------------------------- create

  /** The fields a caller passes to `create`. */
  datatype DrugInput = DrugInput(pharmacyId: Js.JsValue, name: Js.JsValue, category: Js.JsValue,
                                 description: Js.JsValue, manufacturer: Js.JsValue, price: Js.JsValue,
                                 currency: Js.JsValue, stock: Js.JsValue, expiryDate: Js.JsValue)

  const DefaultCurrency := "XAF"

  /** The nine values of the INSERT, in column order: category, description,
      manufacturer and expiry date fall back to NULL, currency to 'XAF' and
      stock to 0 when falsy. */
  function CreateParams(d: DrugInput): (ps: seq<Value>)
    ensures |ps| == 9
    ensures ps[0] == Raw(d.pharmacyId) && ps[1] == Raw(d.name) && ps[5] == Raw(d.price)
    ensures ps[2] == (if Js.Truthy(d.category) then Raw(d.category) else Null)
    ensures ps[3] == (if Js.Truthy(d.description) then Raw(d.description) else Null)
    ensures ps[4] == (if Js.Truthy(d.manufacturer) then Raw(d.manufacturer) else Null)
    ensures ps[6] == (if Js.Truthy(d.currency) then Raw(d.currency) else Str(DefaultCurrency))
    ensures ps[7] == (if Js.Truthy(d.stock) then Raw(d.stock) else Int(0))
    ensures ps[8] == (if Js.Truthy(d.expiryDate) then Raw(d.expiryDate) else Null)
    ensures forall i :: 0 <= i < 9 ==> ps[i] != Raw(Js.Undefined) || i in {0, 1, 5}
  {
    [Raw(d.pharmacyId), Raw(d.name), OrValue(d.category, Null), OrValue(d.description, Null),
     OrValue(d.manufacturer, Null), Raw(d.price), OrValue(d.currency, Str(DefaultCurrency)),
     OrValue(d.stock, Int(0)), OrValue(d.expiryDate, Null)]
  }

  const CreateText := ["INSERT INTO drugs (pharmacy_id, name, category, description, manufacturer, "
                       + "price, currency, stock, expiry_date) VALUES (", ", ", ", ", ", ", ", ", ", ", ", ", ", ", ", ", ")"]

  /** The INSERT of `create`. */
  function CreateQuery(d: DrugInput): (q: Query)
    ensures AllBound(q) && Params(q) == CreateParams(d)
    ensures Placeholders(q) == 9
  {
    var c := Tmpl(CreateText, CreateParams(d));
    assert Params([c]) == c.args by { assert [c][1..] == []; }
    BoundCount([c]);
    [c]
  }

  /** The currency the constructor gives a row: the stored one, or 'XAF'. */
  function ConstructedCurrency(stored: Js.JsValue): (c: Js.JsValue)
    ensures Js.Truthy(c)
  {
    if Js.Truthy(stored) then stored else Js.Str(DefaultCurrency)
  }

  /** A drug created without a currency is stored with 'XAF', and reading it
      back through the constructor keeps that currency: both defaults agree. */
  lemma CreatedCurrencyReadsBack(d: DrugInput)
    requires !Js.Truthy(d.currency)
    ensures CreateParams(d)[6] == Str(DefaultCurrency)
    ensures ConstructedCurrency(Js.Str(DefaultCurrency)) == Js.Str(DefaultCurrency)
  {
  }

  // -------------------------------------------------------- findByPharmacy

  /** The optional filters of `findByPharmacy`. */
  datatype PharmacyFilters = PharmacyFilters(category: Js.JsValue, search: Js.JsValue, inStockOnly: bool,
                                             expiringSoon: bool, limit: Js.JsValue)

  const InStockOnly := Fixed(" AND stock > 0")
  const ExpiringWithin30 := Fixed(" AND expiry_date <= DATE_ADD(CURRENT_DATE, INTERVAL 30 DAY)")

  /** The clauses of the present filters: category, search term, in stock,
      expiring within 30 days. */
  function PharmacyFilterClauses(f: PharmacyFilters): (q: Query)
    ensures AllBound(q)
    ensures Params(q) == If(Js.Truthy(f.category), [Raw(f.category)])
                         + If(Js.Truthy(f.search), [LikeOf(f.search), LikeOf(f.search)])
  {
    var q1 := When(Js.Truthy(f.category), Bind(" AND category = ", Raw(f.category), ""));
    var q2 := When(Js.Truthy(f.search), Tmpl(SearchLikeText, [LikeOf(f.search), LikeOf(f.search)]));
    var q3 := When(f.inStockOnly, InStockOnly);
    var q4 := When(f.expiringSoon, ExpiringWithin30);
    Append4(q1, q2, q3, q4);
    q1 + q2 + q3 + q4
  }

  const SearchLikeText := [" AND (name LIKE ", " OR description LIKE ", ")"]
  const SelectByPharmacy := "SELECT * FROM drugs WHERE pharmacy_id = "

  /** The filtering part of `findByPharmacy`: the pharmacy, then a clause
      per present filter. */
  function FindByPharmacyWhere(pharmacyId: Value, f: PharmacyFilters): (q: Query)
    ensures AllBound(q)
    ensures Params(q) == [pharmacyId] + If(Js.Truthy(f.category), [Raw(f.category)])
                         + If(Js.Truthy(f.search), [LikeOf(f.search), LikeOf(f.search)])
  {
    var c := Bind(SelectByPharmacy, pharmacyId, "");
    var rest := PharmacyFilterClauses(f);
    Cons(c, rest);
    [c] + rest
  }

  const OrderByName := Fixed(" ORDER BY name ASC")

  /** The ordering by name, then the optional LIMIT. */
  function FindByPharmacyTail(f: PharmacyFilters, parseInt: Js.JsValue -> Js.JsValue): (q: Query)
    ensures AllBound(q) && Params(q) == If(Js.Truthy(f.limit), [Raw(parseInt(f.limit))])
    ensures |q| > 0 && q[0] == OrderByName
  {
    var lim := When(Js.Truthy(f.limit), Bind(" LIMIT ", Raw(parseInt(f.limit)), ""));
    Append([OrderByName], lim);
    assert Params([OrderByName]) == [] by { assert [OrderByName][1..] == []; }
    [OrderByName] + lim
  }

  /** `findByPharmacy`: the filters, the order by name, then the limit when
      one is given; `parseInt` is the limit conversion. */
  function FindByPharmacyQuery(pharmacyId: Value, f: PharmacyFilters, parseInt: Js.JsValue -> Js.JsValue): (q: Query)
    ensures AllBound(q) && Placeholders(q) == |Params(q)|
    ensures Params(q) == [pharmacyId] + If(Js.Truthy(f.category), [Raw(f.category)])
                         + If(Js.Truthy(f.search), [LikeOf(f.search), LikeOf(f.search)])
                         + If(Js.Truthy(f.limit), [Raw(parseInt(f.limit))])
    ensures OrderByName in q
  {
    var w := FindByPharmacyWhere(pharmacyId, f);
    var tail := FindByPharmacyTail(f, parseInt);
    Append(w, tail);
    BoundCount(w + tail);
    assert (w + tail)[|w|] == OrderByName;
    w + tail
  }

  // ---------------------------------------------------------------- search

  /** The optional filters of `search`. */
  datatype SearchFilters = SearchFilters(category: Js.JsValue, maxPrice: Js.JsValue, inStockOnly: bool,
                                         location: Option<LatLng>, radius: Js.JsValue, limit: Js.JsValue)

  /** The distance filter is applied only with a location and a truthy
      radius: a radius of 0 (or NaN) turns it off. */
  predicate DistanceFiltered(f: SearchFilters) {
    f.location.Some? && Js.Truthy(f.radius)
  }

  const OrderByStock := Fixed(" ORDER BY d.stock DESC, d.price ASC, p.rating DESC")

  /** The four values of the distance filter: the centre's latitude,
      longitude and latitude again, then the radius. */
  function DistanceParams(f: SearchFilters): (ps: seq<Value>)
    ensures |ps| == if DistanceFiltered(f) then 4 else 0
  {
    if DistanceFiltered(f) then
      [Raw(f.location.value.lat), Raw(f.location.value.lng), Raw(f.location.value.lat), Raw(f.radius)]
    else []
  }

  /** The values `search` binds for its filters, in order. */
  function SearchParams(term: string, f: SearchFilters, parseInt: Js.JsValue -> Js.JsValue): seq<Value> {
    [Like(term), Like(term), Like(term)]
    + If(Js.Truthy(f.category), [Raw(f.category)])
    + If(Js.Truthy(f.maxPrice), [Raw(f.maxPrice)])
    + DistanceParams(f)
    + If(Js.Truthy(f.limit), [Raw(parseInt(f.limit))])
  }

  /** The head of `search`'s SELECT, up to the first LIKE placeholder. */
  const SearchSelect := "SELECT d.*, p.name as pharmacy_name, p.address as pharmacy_address, p.phone as pharmacy_phone, "
                        + "p.gps_lat, p.gps_long, p.rating, CASE WHEN d.stock = 0 THEN 'Out of Stock' "
                        + "WHEN d.stock < 20 THEN CONCAT('Low Stock (', d.stock, ' left)') ELSE 'In Stock' END as stock_status "
                        + "FROM drugs d INNER JOIN pharmacies p ON d.pharmacy_id = p.id WHERE p.status = 'approved' "
                        + "AND (d.name LIKE "

  /** The approved-pharmacy SELECT matching the term in name, category or
      description. */
  function SearchBase(term: string): (q: Query)
    ensures AllBound(q) && Params(q) == [Like(term), Like(term), Like(term)]
  {
    var q := [Tmpl([SearchSelect, " OR d.category LIKE ", " OR d.description LIKE ", ")"],
                   [Like(term), Like(term), Like(term)])];
    assert Params(q) == q[0].args by { assert q[1..] == []; }
    q
  }

  /** The category, maximum-price and in-stock filters. */
  function SearchValueFilters(f: SearchFilters): (q: Query)
    ensures AllBound(q)
    ensures Params(q) == If(Js.Truthy(f.category), [Raw(f.category)]) + If(Js.Truthy(f.maxPrice), [Raw(f.maxPrice)])
  {
    var q1 := When(Js.Truthy(f.category), Bind(" AND d.category = ", Raw(f.category), ""));
    var q2 := When(Js.Truthy(f.maxPrice), Bind(" AND d.price <= ", Raw(f.maxPrice), ""));
    var q3 := When(f.inStockOnly, Fixed(" AND d.stock > 0"));
    Append3(q1, q2, q3);
    q1 + q2 + q3
  }

  const DistanceText := [" AND (6371 * acos(cos(radians(", ")) * cos(radians(p.gps_lat)) * cos(radians(p.gps_long) - radians(",
                         ")) + sin(radians(", ")) * sin(radians(p.gps_lat)))) <= ", ""]

  /** The Haversine radius filter, present only when `DistanceFiltered`. */
  function DistanceClause(f: SearchFilters): (q: Query)
    ensures AllBound(q) && Params(q) == DistanceParams(f)
  {
    if DistanceFiltered(f) then
      var q := [Tmpl(DistanceText, DistanceParams(f))];
      assert Params(q) == q[0].args by { assert q[1..] == []; }
      q
    else []
  }

  /** The WHERE part of `search` before the ordering. */
  function SearchFilterClauses(term: string, f: SearchFilters): (q: Query)
    ensures AllBound(q)
    ensures Params(q) == [Like(term), Like(term), Like(term)]
                         + If(Js.Truthy(f.category), [Raw(f.category)])
                         + If(Js.Truthy(f.maxPrice), [Raw(f.maxPrice)])
                         + DistanceParams(f)
  {
    var b := SearchBase(term);
    var v := SearchValueFilters(f);
    var d := DistanceClause(f);
    Append3(b, v, d);
    Regroup([Like(term), Like(term), Like(term)], If(Js.Truthy(f.category), [Raw(f.category)]),
            If(Js.Truthy(f.maxPrice), [Raw(f.maxPrice)]), DistanceParams(f));
    b + v + d
  }

  /** The ordering by stock, then the optional LIMIT. */
  function SearchTail(f: SearchFilters, parseInt: Js.JsValue -> Js.JsValue): (q: Query)
    ensures AllBound(q) && Params(q) == If(Js.Truthy(f.limit), [Raw(parseInt(f.limit))])
    ensures |q| == (if Js.Truthy(f.limit) then 2 else 1) && q[0] == OrderByStock
    ensures Js.Truthy(f.limit) ==> q[1] == Bind(" LIMIT ", Raw(parseInt(f.limit)), "")
  {
    var lim := When(Js.Truthy(f.limit), Bind(" LIMIT ", Raw(parseInt(f.limit)), ""));
    Append([OrderByStock], lim);
    assert Params([OrderByStock]) == [] by { assert [OrderByStock][1..] == []; }
    [OrderByStock] + lim
  }

  /** `search`: the three LIKE patterns, then one value per present filter
      and four for the distance filter, then the ordering, then the limit. */
  function SearchQuery(term: string, f: SearchFilters, parseInt: Js.JsValue -> Js.JsValue): (q: Query)
    ensures AllBound(q)
    ensures Params(q) == SearchParams(term, f, parseInt)
    ensures Js.Truthy(f.limit) ==> |q| >= 2 && q[|q| - 2] == OrderByStock && q[|q| - 1] == Bind(" LIMIT ", Raw(parseInt(f.limit)), "")
    ensures !Js.Truthy(f.limit) ==> |q| >= 1 && q[|q| - 1] == OrderByStock
  {
    var w := SearchFilterClauses(term, f);
    var tail := SearchTail(f, parseInt);
    Append(w, tail);
    var q := w + tail;
    assert Params(q) == Params(w) + Params(tail);
    assert q[|w|..] == tail;
    q
  }

  /** Placeholders equal params for every combination of filters: 3, plus
      one for a category, one for a maximum price, four for the distance
      filter and one for a limit. */
  lemma SearchPlaceholders(term: string, f: SearchFilters, parseInt: Js.JsValue -> Js.JsValue)
    ensures Placeholders(SearchQuery(term, f, parseInt)) == |SearchParams(term, f, parseInt)|
    ensures |SearchParams(term, f, parseInt)| == 3 + (if Js.Truthy(f.category) then 1 else 0)
      + (if Js.Truthy(f.maxPrice) then 1 else 0) + (if DistanceFiltered(f) then 4 else 0)
      + (if Js.Truthy(f.limit) then 1 else 0)
  {
    var q := SearchQuery(term, f, parseInt);
    BoundCount(q);
    SearchParamsLength(term, f, parseInt);
  }

  lemma SearchParamsLength(term: string, f: SearchFilters, parseInt: Js.JsValue -> Js.JsValue)
    ensures |SearchParams(term, f, parseInt)| == 3 + (if Js.Truthy(f.category) then 1 else 0)
      + (if Js.Truthy(f.maxPrice) then 1 else 0) + (if DistanceFiltered(f) then 4 else 0)
      + (if Js.Truthy(f.limit) then 1 else 0)
  {
  }

  // ---------------------------------------------------------------- update

  /** The columns `update` may set. */
  const UpdatableFields: seq<string> := ["name", "category", "description", "manufacturer", "price", "currency", "stock", "expiry_date"]

  /** `update`: the whitelisted entries in entry order, their values
      passed through, `updated_at` stamped and the id last; the error when
      no entry is whitelisted. */
  function UpdateDrug(id: Value, entries: seq<Field>): (r: Result<Query, string>)
    ensures r.Failure? <==> forall e :: e in entries ==> e.key !in UpdatableFields
    ensures r.Failure? ==> r.error == NoValidFields
    ensures r.Success? ==> AllBound(r.value) && Stamp in r.value
    ensures r.Success? ==> Params(r.value) == Encoded(Whitelisted(entries, UpdatableFields), (e: Field) => e.value) + [id]
    ensures r.Success? ==> SetsWhitelisted(r.value, "drugs", Whitelisted(entries, UpdatableFields), (e: Field) => e.value)
  {
    UpdateQuery("drugs", UpdatableFields, entries, id, true, (e: Field) => e.value)
  }

  // ------------------------------------------------------------- low stock

  /** A row of the drugs table, as far as the low-stock query reads it. */
  datatype StockRow = StockRow(id: int, pharmacyId: int, stock: int)

  const LowStockText := ["SELECT * FROM drugs WHERE pharmacy_id = ", " AND stock > 0 AND stock <= ",
                          " ORDER BY stock ASC"]

  /** The SELECT of `getLowStock`: two placeholders, bound to the pharmacy
      and to the threshold, 20 when none is given. */
  function LowStockQuery(pharmacyId: int, threshold: Option<int>): (q: Query)
    ensures AllBound(q) && Placeholders(q) == 2
    ensures Params(q) == [Int(pharmacyId), Int(threshold.GetOr(Stock.QueryThresholdDefault))]
  {
    var c := Tmpl(LowStockText, [Int(pharmacyId), Int(threshold.GetOr(Stock.QueryThresholdDefault))]);
    assert Params([c]) == c.args by { assert [c][1..] == []; }
    BoundCount([c]);
    [c]
  }

  function ByStock(r: StockRow): SortKey {
    SortKey(0, r.stock as real, 0)
  }

  /** The rows `getLowStock` selects: the pharmacy's rows with
      `0 < stock <= threshold`. */
  function LowStockSelected(rows: seq<StockRow>, pharmacyId: int, threshold: int): (r: seq<StockRow>)
    ensures forall x :: x in r <==> x in rows && x.pharmacyId == pharmacyId && Stock.LowQuery(x.stock, threshold)
  {
    if |rows| == 0 then []
    else
      var n := |rows| - 1;
      assert rows == rows[..n] + [rows[n]];
      LowStockSelected(rows[..n], pharmacyId, threshold)
      + (if rows[n].pharmacyId == pharmacyId && Stock.LowQuery(rows[n].stock, threshold) then [rows[n]] else [])
  }

  /** Appending a row appends it to the selection exactly when it qualifies. */
  lemma LowStockSelectedSnoc(xs: seq<StockRow>, x: StockRow, pharmacyId: int, threshold: int)
    ensures LowStockSelected(xs + [x], pharmacyId, threshold)
         == LowStockSelected(xs, pharmacyId, threshold)
            + (if x.pharmacyId == pharmacyId && Stock.LowQuery(x.stock, threshold) then [x] else [])
  {
    assert (xs + [x])[..|xs|] == xs;
  }

  /** The selection keeps or drops each row on its own: selecting from a
      concatenation selects from each part, in table order. */
  lemma {:induction false} LowStockSelectedConcat(a: seq<StockRow>, b: seq<StockRow>, pharmacyId: int, threshold: int)
    ensures LowStockSelected(a + b, pharmacyId, threshold)
         == LowStockSelected(a, pharmacyId, threshold) + LowStockSelected(b, pharmacyId, threshold)
    decreases |b|
  {
    if |b| > 0 {
      var n := |b| - 1;
      var init, x := b[..n], b[n];
      assert b == init + [x];
      assert a + b == (a + init) + [x];
      LowStockSelectedConcat(a, init, pharmacyId, threshold);
      LowStockSelectedSnoc(a + init, x, pharmacyId, threshold);
      LowStockSelectedSnoc(init, x, pharmacyId, threshold);
    } else {
      assert a + b == a;
    }
  }

  /** A single row is selected exactly when it is the pharmacy's and its
      stock is in `1..threshold`. */
  lemma LowStockSelectedOfOne(x: StockRow, pharmacyId: int, threshold: int)
    ensures LowStockSelected([x], pharmacyId, threshold)
         == if x.pharmacyId == pharmacyId && Stock.LowQuery(x.stock, threshold) then [x] else []
  {
    assert [x][..0] == [];
  }

  /** `getLowStock` over the table's rows: the selected rows, each once,
      by ascending stock. */
  function LowStock(rows: seq<StockRow>, pharmacyId: int, threshold: Option<int>): (r: seq<StockRow>)
    ensures forall x :: x in r <==> (x in rows && x.pharmacyId == pharmacyId
                                    && Stock.LowQuery(x.stock, threshold.GetOr(Stock.QueryThresholdDefault)))
    ensures multiset(r) == multiset(LowStockSelected(rows, pharmacyId, threshold.GetOr(Stock.QueryThresholdDefault)))
    ensures forall i, j :: 0 <= i < j < |r| ==> r[i].stock <= r[j].stock
  {
    var sel := LowStockSelected(rows, pharmacyId, threshold.GetOr(Stock.QueryThresholdDefault));
    var r := SortBy(sel, ByStock);
    SameMembers(r, sel);
    assert forall i, j :: 0 <= i < j < |r| ==> r[i].stock <= r[j].stock by {
      forall i, j | 0 <= i < j < |r| ensures r[i].stock <= r[j].stock {
        assert KeyLe(ByStock(r[i]), ByStock(r[j]));
      }
    }
    r
  }
}
