/** The public pharmacy-database API: the guards of its endpoints, the Drug
    search filters `search-drugs` builds from the query string, the
    distance-present rule of its results, the availability label of the
    inventory listing, and the `findAll` filters of `nearby`. Number parsing
    (`parseFloat`, `parseInt`, the numeric conversion of `<`) is a function
    parameter; query-string values are strings or absent. */
module PharmacyDb {
  import opened Wrappers
  import Js
  import opened Http
  import opened Sql
  import DrugModel
  import PharmacyModel
  import Stock
  import Text

  const DrugNameRequired := "Drug name is required"
  const CoordinatesRequired := "Latitude and longitude are required"
  const RatingOutOfRange := "Rating must be between 1 and 5"
  const ReasonRequired := "Reason is required"

  const DefaultRadius := 10.0
  const DefaultSearchLimit := 50.0
  const DefaultNearbyLimit := 20.0

  /** `lat && lng` on the query string. */
  predicate Located(lat: Js.JsValue, lng: Js.JsValue) {
    Js.Truthy(lat) && Js.Truthy(lng)
  }

  /** The interpolated search term of `%${drugName}%`. */
  function Term(drugName: Js.JsValue): string {
    match drugName case Str(s) => s case _ => ""
  }

  // ----------------------------------------------------------- search-drugs

  /** `search-drugs`: 400 without a drug name; otherwise in-stock-only
      filters with the parsed limit (50 by default), and the parsed centre
      and radius (10 by default) exactly when both coordinates are given. */
  function SearchDrugsFilters(drugName: Js.JsValue, lat: Js.JsValue, lng: Js.JsValue, radius: Js.JsValue,
                              limit: Js.JsValue, parseFloat: Js.JsValue -> Js.JsValue,
                              parseInt: Js.JsValue -> Js.JsValue): (r: Result<DrugModel.SearchFilters, Refusal>)
    ensures r.Failure? <==> !Js.Truthy(drugName)
    ensures r.Failure? ==> r.error == Refusal(BadRequest, DrugNameRequired)
    ensures r.Success? ==> r.value.inStockOnly && r.value.category == Js.Undefined && r.value.maxPrice == Js.Undefined
    ensures r.Success? ==> r.value.limit == parseInt(Js.Default(limit, Js.Num(DefaultSearchLimit)))
    ensures r.Success? ==> (r.value.location.Some? <==> Located(lat, lng))
    ensures r.Success? && Located(lat, lng) ==>
              r.value.location == Some(LatLng(parseFloat(lat), parseFloat(lng)))
              && r.value.radius == parseFloat(Js.Default(radius, Js.Num(DefaultRadius)))
    ensures r.Success? && !Located(lat, lng) ==> r.value.radius == Js.Undefined
  {
    if !Js.Truthy(drugName) then Failure(Refusal(BadRequest, DrugNameRequired))
    else
      var lim := parseInt(Js.Default(limit, Js.Num(DefaultSearchLimit)));
      if Located(lat, lng) then
        Success(DrugModel.SearchFilters(Js.Undefined, Js.Undefined, true, Some(LatLng(parseFloat(lat), parseFloat(lng))),
                                        parseFloat(Js.Default(radius, Js.Num(DefaultRadius))), lim))
      else
        Success(DrugModel.SearchFilters(Js.Undefined, Js.Undefined, true, None, Js.Undefined, lim))
  }

  /** What `search-drugs` asks the Drug model for: the three term patterns,
      the distance filter's four values only when both coordinates were
      given, and the limit; never a category or a price bound. */
  lemma SearchDrugsBinds(drugName: Js.JsValue, lat: Js.JsValue, lng: Js.JsValue, radius: Js.JsValue,
                         limit: Js.JsValue, parseFloat: Js.JsValue -> Js.JsValue, parseInt: Js.JsValue -> Js.JsValue)
    requires Js.Truthy(drugName)
    ensures var f := SearchDrugsFilters(drugName, lat, lng, radius, limit, parseFloat, parseInt).value;
            var ps := Params(DrugModel.SearchQuery(Term(drugName), f, parseInt));
            ps == [Like(Term(drugName)), Like(Term(drugName)), Like(Term(drugName))]
                  + DrugModel.DistanceParams(f) + If(Js.Truthy(f.limit), [Raw(parseInt(f.limit))])
            && (|DrugModel.DistanceParams(f)| == 4 ==> Located(lat, lng))
  {
    var f := SearchDrugsFilters(drugName, lat, lng, radius, limit, parseFloat, parseInt).value;
    var likes := [Like(Term(drugName)), Like(Term(drugName)), Like(Term(drugName))];
    assert DrugModel.SearchParams(Term(drugName), f, parseInt)
           == likes + [] + [] + DrugModel.DistanceParams(f) + If(Js.Truthy(f.limit), [Raw(parseInt(f.limit))]);
  }

  /** A result's `distance`: computed from the parsed centre when both
      coordinates were given, `null` otherwise. */
  function ResultDistances<R>(rows: seq<R>, lat: Js.JsValue, lng: Js.JsValue, distance: R -> real): (ds: seq<Option<real>>)
    ensures |ds| == |rows|
    ensures forall i :: 0 <= i < |rows| ==> (ds[i].Some? <==> Located(lat, lng))
    ensures forall i :: 0 <= i < |rows| && Located(lat, lng) ==> ds[i] == Some(distance(rows[i]))
  {
    seq(|rows|, i requires 0 <= i < |rows| => if Located(lat, lng) then Some(distance(rows[i])) else None)
  }

  /** A result carries a distance exactly when the search was filtered
      around a centre. */
  lemma DistanceIffLocated<R>(drugName: Js.JsValue, lat: Js.JsValue, lng: Js.JsValue, radius: Js.JsValue,
                              limit: Js.JsValue, parseFloat: Js.JsValue -> Js.JsValue, parseInt: Js.JsValue -> Js.JsValue,
                              rows: seq<R>, distance: R -> real, i: int)
    requires Js.Truthy(drugName) && 0 <= i < |rows|
    ensures ResultDistances(rows, lat, lng, distance)[i].Some?
            <==> SearchDrugsFilters(drugName, lat, lng, radius, limit, parseFloat, parseInt).value.location.Some?
  {
  }

  // -------------------------------------------------------------- inventory

  /** The `stock_status` of each inventory entry, in inventory order. */
  function InventoryStatuses(stocks: seq<int>): (labels: seq<string>)
    ensures |labels| == |stocks|
    ensures forall i :: 0 <= i < |stocks| ==> labels[i] == Stock.StockStatus(stocks[i])
  {
    if |stocks| == 0 then [] else [Stock.StockStatus(stocks[0])] + InventoryStatuses(stocks[1..])
  }

  /** The listing labels an entry 'Out of Stock' exactly when its stock is
      zero, 'In Stock' exactly at 20 or more, and everything else low. */
  lemma InventoryLabels(stocks: seq<int>, i: int)
    requires 0 <= i < |stocks|
    ensures InventoryStatuses(stocks)[i] == Stock.OutOfStock <==> stocks[i] == 0
    ensures InventoryStatuses(stocks)[i] == Stock.InStock <==> stocks[i] >= Stock.LabelBelow
    ensures InventoryStatuses(stocks)[i] == Stock.LowPrefix + Text.IntToString(stocks[i]) + " left)"
            <==> stocks[i] != 0 && stocks[i] < Stock.LabelBelow
  {
    var l := InventoryStatuses(stocks)[i];
    if stocks[i] == 0 || stocks[i] >= Stock.LabelBelow {
      assert l == Stock.OutOfStock || l == Stock.InStock;
    }
  }

  // ----------------------------------------------------------------- nearby

  /** `nearby`: 400 unless both coordinates are given; otherwise approved
      pharmacies around the parsed centre, with the parsed radius (10 by
      default) and limit (20 by default), and no search term. */
  function NearbyFilters(lat: Js.JsValue, lng: Js.JsValue, radius: Js.JsValue, limit: Js.JsValue,
                         parseFloat: Js.JsValue -> Js.JsValue,
                         parseInt: Js.JsValue -> Js.JsValue): (r: Result<PharmacyModel.FindAllFilters, Refusal>)
    ensures r.Failure? <==> !Located(lat, lng)
    ensures r.Failure? ==> r.error == Refusal(BadRequest, CoordinatesRequired)
    ensures r.Success? ==> r.value.status == Js.Str("approved") && r.value.search == Js.Undefined
    ensures r.Success? ==> r.value.location == Some(LatLng(parseFloat(lat), parseFloat(lng)))
    ensures r.Success? ==> r.value.radius == parseFloat(Js.Default(radius, Js.Num(DefaultRadius)))
    ensures r.Success? ==> r.value.limit == parseInt(Js.Default(limit, Js.Num(DefaultNearbyLimit)))
  {
    if !Located(lat, lng) then Failure(Refusal(BadRequest, CoordinatesRequired))
    else Success(PharmacyModel.FindAllFilters(Js.Str("approved"), Js.Undefined,
                                              Some(LatLng(parseFloat(lat), parseFloat(lng))),
                                              parseFloat(Js.Default(radius, Js.Num(DefaultRadius))),
                                              parseInt(Js.Default(limit, Js.Num(DefaultNearbyLimit)))))
  }

  /** Whatever the radius and limit, the `findAll` query `nearby` runs binds
      'approved' first: unapproved pharmacies are never listed. */
  lemma NearbyAlwaysApproved(lat: Js.JsValue, lng: Js.JsValue, radius: Js.JsValue, limit: Js.JsValue,
                             parseFloat: Js.JsValue -> Js.JsValue, parseInt: Js.JsValue -> Js.JsValue)
    requires Located(lat, lng)
    ensures var f := NearbyFilters(lat, lng, radius, limit, parseFloat, parseInt).value;
            var ps := Params(PharmacyModel.FindAllQuery(f, parseInt));
            |ps| >= 1 && ps[0] == Raw(Js.Str("approved"))
  {
    var f := NearbyFilters(lat, lng, radius, limit, parseFloat, parseInt).value;
    assert PharmacyModel.FindAllParams(f, parseInt)
           == [Raw(f.status)] + [] + PharmacyModel.RadiusParams(f) + If(Js.Truthy(f.limit), [Raw(parseInt(f.limit))]);
  }

  // ---------------------------------------------------------------- ratings

  /** The number a relational comparison sees: a number as it is, anything
      else through `toNumber` (which gives `NaN` for non-numeric text). */
  function Numeric(v: Js.JsValue, toNumber: Js.JsValue -> Js.JsValue): Js.JsValue {
    if v.Num? then v else toNumber(v)
  }

  /** `!rating || rating < 1 || rating > 5` gives 400; a comparison with
      `NaN` is false, so only a number outside [1, 5] is refused by range. */
  function RatingCheck(rating: Js.JsValue, toNumber: Js.JsValue -> Js.JsValue): (r: Result<Js.JsValue, Refusal>)
    ensures r.Failure? <==> !Js.Truthy(rating)
                            || (Numeric(rating, toNumber).Num? && !(1.0 <= Numeric(rating, toNumber).n <= 5.0))
    ensures r.Failure? ==> r.error == Refusal(BadRequest, RatingOutOfRange)
    ensures r.Success? ==> r.value == rating
  {
    var n := Numeric(rating, toNumber);
    if !Js.Truthy(rating) || (n.Num? && n.n < 1.0) || (n.Num? && n.n > 5.0) then
      Failure(Refusal(BadRequest, RatingOutOfRange))
    else Success(rating)
  }

  /** For a numeric rating the guard is the closed range [1, 5]. */
  lemma NumericRatingRange(x: real, toNumber: Js.JsValue -> Js.JsValue)
    ensures RatingCheck(Js.Num(x), toNumber).Success? <==> 1.0 <= x <= 5.0
  {
  }

  /** Text that is not a number passes the guard: every comparison with
      `NaN` is false. */
  lemma NonNumericRatingPasses(s: string, toNumber: Js.JsValue -> Js.JsValue)
    requires s != "" && toNumber(Js.Str(s)) == Js.NaN
    ensures RatingCheck(Js.Str(s), toNumber).Success?
  {
  }

  // ---------------------------------------------------------------- reports

  /** A report needs a truthy reason. */
  function ReportCheck(reason: Js.JsValue): (r: Result<Js.JsValue, Refusal>)
    ensures r.Failure? <==> !Js.Truthy(reason)
    ensures r.Failure? ==> r.error == Refusal(BadRequest, ReasonRequired)
    ensures r.Success? ==> r.value == reason
  {
    if Js.Truthy(reason) then Success(reason) else Failure(Refusal(BadRequest, ReasonRequired))
  }
}
