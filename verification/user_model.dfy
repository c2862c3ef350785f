/** The User model: the whitelist UPDATE (which, unlike the Drug and
    Pharmacy models, stamps no `updated_at`), the values of the search log,
    and the nearby-users query. */
module UserModel {
  import opened Wrappers
  import Js
  import opened Sql

  // --------------------------------------------------------------- update

  /** The columns `update` may set. */
  const UpdatableFields: seq<string> := ["email", "phone", "name", "gps_lat", "gps_long",
                                         "blood_group", "allergies", "medical_conditions"]

  /** `update`: the whitelisted entries in entry order, values passed
      through, the id last, and no `updated_at`; the error when no entry is
      whitelisted. */
  function UpdateUser(id: Value, entries: seq<Field>): (r: Result<Query, string>)
    ensures r.Failure? <==> forall e :: e in entries ==> e.key !in UpdatableFields
    ensures r.Failure? ==> r.error == NoValidFields
    ensures r.Success? ==> AllBound(r.value) && Stamp !in r.value
    ensures r.Success? ==> Params(r.value) == Encoded(Whitelisted(entries, UpdatableFields), (e: Field) => e.value) + [id]
    ensures r.Success? ==> SetsWhitelisted(r.value, "users", Whitelisted(entries, UpdatableFields), (e: Field) => e.value)
  {
    UpdateQuery("users", UpdatableFields, entries, id, false, (e: Field) => e.value)
  }

  /** The update binds exactly one value per kept entry, then the id. */
  lemma UpdateUserCount(id: Value, entries: seq<Field>)
    requires exists e :: e in entries && e.key in UpdatableFields
    ensures Placeholders(UpdateUser(id, entries).value) == |Whitelisted(entries, UpdatableFields)| + 1
  {
    var q := UpdateUser(id, entries).value;
    BoundCount(q);
  }

  // ------------------------------------------------------------ logSearch

  /** The five values of the search-log INSERT: the user or NULL, the term,
      the centre's latitude and longitude (`userLocation?.lat || null`), and
      the result count or 0. */
  function LogSearchParams(userId: Js.JsValue, searchTerm: Js.JsValue, location: Option<LatLng>,
                           resultsCount: Js.JsValue): (ps: seq<Value>)
    ensures |ps| == 5 && ps[1] == Raw(searchTerm)
    ensures ps[0] == (if Js.Truthy(userId) then Raw(userId) else Null)
    ensures ps[2] == (if location.Some? && Js.Truthy(location.value.lat) then Raw(location.value.lat) else Null)
    ensures ps[3] == (if location.Some? && Js.Truthy(location.value.lng) then Raw(location.value.lng) else Null)
    ensures ps[4] == (if Js.Truthy(resultsCount) then Raw(resultsCount) else Int(0))
  {
    [OrValue(userId, Null), Raw(searchTerm),
     if location.Some? then OrValue(location.value.lat, Null) else Null,
     if location.Some? then OrValue(location.value.lng, Null) else Null,
     OrValue(resultsCount, Int(0))]
  }

  /** Because the defaults use `||`, a centre on the equator or the prime
      meridian is logged as no centre at all. */
  lemma ZeroCoordinateLogsNull(userId: Js.JsValue, searchTerm: Js.JsValue, lng: Js.JsValue, resultsCount: Js.JsValue)
    ensures LogSearchParams(userId, searchTerm, Some(LatLng(Js.Num(0.0), lng)), resultsCount)[2] == Null
    ensures LogSearchParams(userId, searchTerm, Some(LatLng(lng, Js.Num(0.0))), resultsCount)[3] == Null
  {
  }

  const LogSearchText := ["INSERT INTO search_logs (user_id, search_term, user_lat, user_long, results_count) VALUES (",
                          ", ", ", ", ", ", ", ", ")"]

  /** The INSERT of `logSearch`: five placeholders for the five values. */
  function LogSearchQuery(userId: Js.JsValue, searchTerm: Js.JsValue, location: Option<LatLng>,
                          resultsCount: Js.JsValue): (q: Query)
    ensures AllBound(q) && Params(q) == LogSearchParams(userId, searchTerm, location, resultsCount)
    ensures Placeholders(q) == 5
  {
    var c := Tmpl(LogSearchText, LogSearchParams(userId, searchTerm, location, resultsCount));
    assert Params([c]) == c.args by { assert [c][1..] == []; }
    BoundCount([c]);
    [c]
  }

  // ------------------------------------------------------- getNearbyUsers

  const DefaultRadius := 10.0
  const DefaultLimit := 100

  /** Users without coordinates are never candidates. */
  const HasCoordinates := Fixed(" FROM users WHERE gps_lat IS NOT NULL AND gps_long IS NOT NULL")

  /** `HAVING distance_km <= ? ORDER BY distance_km ASC LIMIT ?`. */
  function RadiusOrderLimit(radius: Value, limit: Value): (c: Clause)
    ensures Bound(c) && c.args == [radius, limit]
  {
    Tmpl(RadiusOrderLimitText, [radius, limit])
  }

  const RadiusOrderLimitText := [" HAVING distance_km <= ", " ORDER BY distance_km ASC LIMIT ", ""]
  const NearbySelect := Fixed("SELECT id, name, gps_lat, gps_long, ")
  const DistanceAlias := Fixed(" as distance_km")

  /** `getNearbyUsers(location, radius = 10, limit = 100)`: the distance
      column binds the centre (latitude, longitude, latitude), then the
      HAVING bound binds the radius and the LIMIT the limit; users without
      coordinates are excluded and the rows come nearest first. */
  function NearbyUsersQuery(location: LatLng, radius: Js.JsValue, limit: Js.JsValue): (q: Query)
    ensures AllBound(q) && Placeholders(q) == 5
    ensures Params(q) == [Raw(location.lat), Raw(location.lng), Raw(location.lat),
                          Raw(Js.Default(radius, Js.Num(DefaultRadius))), Raw(Js.Default(limit, Js.Num(DefaultLimit as real)))]
    ensures HasCoordinates in q
    ensures q[|q| - 1] == RadiusOrderLimit(Raw(Js.Default(radius, Js.Num(DefaultRadius))),
                                          Raw(Js.Default(limit, Js.Num(DefaultLimit as real))))
  {
    var r := Raw(Js.Default(radius, Js.Num(DefaultRadius)));
    var l := Raw(Js.Default(limit, Js.Num(DefaultLimit as real)));
    var tail := RadiusOrderLimit(r, l);
    var centre := Haversine("gps_lat", "gps_long", Raw(location.lat), Raw(location.lng));
    var q4 := [tail];
    Cons(tail, []);
    Cons(HasCoordinates, q4);
    Cons(DistanceAlias, [HasCoordinates] + q4);
    Cons(centre, [DistanceAlias] + ([HasCoordinates] + q4));
    Cons(NearbySelect, [centre] + ([DistanceAlias] + ([HasCoordinates] + q4)));
    var q := [NearbySelect] + ([centre] + ([DistanceAlias] + ([HasCoordinates] + q4)));
    assert q[3] == HasCoordinates;
    assert |q| == 5 && q[4] == tail;
    BoundCount(q);
    q
  }
}
