/** The geometry helpers of the geolocation utility: the bounding box of a
    set of points, map markers, the delivery-zone rings around a pharmacy,
    coordinate validation, and the radius-filter-then-sort step of the
    nearby-pharmacy helper. Distances and routes come from outside (the
    Haversine formula and the routing service are parameters). */
module Geolocation {
  import opened Wrappers
  import opened Text
  import opened Sorting
  import opened Js
  import C = Calculations

  datatype Point = Point(lat: real, lng: real)

  // ------------------------------------------------------------ map bounds

  datatype Bounds = Bounds(north: real, south: real, east: real, west: real, center: Point)

  predicate Inside(p: Point, b: Bounds) {
    b.south <= p.lat <= b.north && b.west <= p.lng <= b.east
  }

  /** The bounding box of the locations and the midpoint of that box, or
      nothing for a missing or empty list. */
  method MapBounds(locations: Option<seq<Point>>) returns (b: Option<Bounds>)
    ensures b.None? <==> locations.None? || |locations.value| == 0
    ensures b.Some? ==> forall p :: p in locations.value ==> Inside(p, b.value)
    ensures b.Some? ==> exists i :: 0 <= i < |locations.value| && locations.value[i].lat == b.value.south
    ensures b.Some? ==> exists i :: 0 <= i < |locations.value| && locations.value[i].lat == b.value.north
    ensures b.Some? ==> exists i :: 0 <= i < |locations.value| && locations.value[i].lng == b.value.west
    ensures b.Some? ==> exists i :: 0 <= i < |locations.value| && locations.value[i].lng == b.value.east
    ensures b.Some? ==> b.value.center == Point((b.value.south + b.value.north) / 2.0,
                                                (b.value.west + b.value.east) / 2.0)
  {
    if locations.None? || |locations.value| == 0 {
      return None;
    }
    var locs := locations.value;
    var minLat, maxLat, minLng, maxLng := locs[0].lat, locs[0].lat, locs[0].lng, locs[0].lng;
    var i := 0;
    while i < |locs|
      invariant 0 <= i <= |locs|
      invariant forall j :: 0 <= j < i ==> minLat <= locs[j].lat <= maxLat && minLng <= locs[j].lng <= maxLng
      invariant exists j :: 0 <= j < |locs| && locs[j].lat == minLat
      invariant exists j :: 0 <= j < |locs| && locs[j].lat == maxLat
      invariant exists j :: 0 <= j < |locs| && locs[j].lng == minLng
      invariant exists j :: 0 <= j < |locs| && locs[j].lng == maxLng
    {
      var p := locs[i];
      if p.lat < minLat { minLat := p.lat; }
      if p.lat > maxLat { maxLat := p.lat; }
      if p.lng < minLng { minLng := p.lng; }
      if p.lng > maxLng { maxLng := p.lng; }
      i := i + 1;
    }
    b := Some(Bounds(maxLat, minLat, maxLng, minLng, Point((minLat + maxLat) / 2.0, (minLng + maxLng) / 2.0)));
  }

  /** A box spanned by valid points has a valid centre. */
  lemma CenterOfValidPoints(locs: seq<Point>, b: Bounds)
    requires forall i :: 0 <= i < |locs| ==> C.IsValidCoordinates(locs[i].lat, locs[i].lng)
    requires exists i :: 0 <= i < |locs| && locs[i].lat == b.south
    requires exists i :: 0 <= i < |locs| && locs[i].lat == b.north
    requires exists i :: 0 <= i < |locs| && locs[i].lng == b.west
    requires exists i :: 0 <= i < |locs| && locs[i].lng == b.east
    requires b.center == Point((b.south + b.north) / 2.0, (b.west + b.east) / 2.0)
    ensures C.IsValidCoordinates(b.center.lat, b.center.lng)
  {
    var s :| 0 <= s < |locs| && locs[s].lat == b.south;
    var n :| 0 <= n < |locs| && locs[n].lat == b.north;
    var w :| 0 <= w < |locs| && locs[w].lng == b.west;
    var e :| 0 <= e < |locs| && locs[e].lng == b.east;
    assert C.IsValidCoordinates(locs[s].lat, locs[s].lng);
    assert C.IsValidCoordinates(locs[n].lat, locs[n].lng);
    assert C.IsValidCoordinates(locs[w].lat, locs[w].lng);
    assert C.IsValidCoordinates(locs[e].lat, locs[e].lng);
  }

  // --------------------------------------------------------------- markers

  /** A pharmacy row as the map helpers read it; coordinates may be null. */
  datatype Site = Site(id: int, name: string, address: string, lat: JsValue, lng: JsValue,
                       distance: JsValue, verified: bool, active: bool)

  const UserTitle := "Your Location"
  const UserDescription := "Current location"

  datatype Marker =
    | PharmacyMarker(id: int, lat: JsValue, lng: JsValue, title: string, description: string,
                     distance: JsValue, isVerified: bool, isActive: bool)
    | UserMarker(position: Point, title: string, description: string)

  function MarkerOf(s: Site): Marker {
    PharmacyMarker(s.id, s.lat, s.lng, s.name, s.address, s.distance, s.verified, s.active)
  }

  /** One pharmacy marker per site in site order, preceded by the user's
      marker when a user location is given. */
  function Markers(sites: seq<Site>, user: Option<Point>): (ms: seq<Marker>)
    ensures |ms| == |sites| + (if user.Some? then 1 else 0)
    ensures user.Some? ==> ms[0] == UserMarker(user.value, UserTitle, UserDescription)
    ensures forall i :: 0 <= i < |ms| ==> (ms[i].UserMarker? <==> user.Some? && i == 0)
    ensures forall i :: 0 <= i < |sites| ==> ms[|ms| - |sites| + i] == MarkerOf(sites[i])
  {
    var pharmacies := seq(|sites|, i requires 0 <= i < |sites| => MarkerOf(sites[i]));
    if user.Some? then [UserMarker(user.value, UserTitle, UserDescription)] + pharmacies else pharmacies
  }

  // ----------------------------------------------------------------- zones

  datatype Zone = Zone(name: string, radius: real, fee: int, time: string, center: Point)

  /** The four delivery rings around a pharmacy. */
  function DeliveryZones(lat: real, lng: real): (zs: seq<Zone>)
    ensures |zs| == 4
    ensures forall i :: 0 <= i < 4 ==> zs[i].center == Point(lat, lng)
    ensures forall i, j :: 0 <= i < j < 4 ==> zs[i].radius < zs[j].radius
    ensures forall i :: 0 <= i < 4 ==> zs[i].fee == C.TierFees[i] && zs[i].time == C.TierTimes[i]
    ensures forall i :: 0 <= i < 3 ==> zs[i].radius == C.TierLimits[i]
    ensures zs[3].radius == 15.0
  {
    var c := Point(lat, lng);
    [Zone("Immediate", 2.0, 500, "15-30 minutes", c),
     Zone("Local", 5.0, 800, "30-45 minutes", c),
     Zone("Extended", 10.0, 1200, "45-60 minutes", c),
     Zone("Far", 15.0, 1500, "60-90 minutes", c)]
  }

  /** Each ring's own radius is priced and timed by the fee and time tiers
      exactly as the ring says. */
  lemma ZonesAgreeWithTiers(lat: real, lng: real, i: int)
    requires 0 <= i < 4
    ensures C.DeliveryFee(DeliveryZones(lat, lng)[i].radius) == DeliveryZones(lat, lng)[i].fee
    ensures C.DeliveryTime(DeliveryZones(lat, lng)[i].radius) == DeliveryZones(lat, lng)[i].time
  {
  }

  /** The zone table stops at 15 km while the fee tiers go on: a distance
      beyond every ring still gets the 1500 fee. */
  lemma ZonesStopShortOfFees(lat: real, lng: real, d: real)
    requires d > 15.0
    ensures forall i :: 0 <= i < 4 ==> DeliveryZones(lat, lng)[i].radius < d
    ensures C.DeliveryFee(d) == 1500
  {
  }

  // ---------------------------------------------------------- validation

  const InvalidCoordinates := "Invalid coordinates provided"

  /** `parseFloat` on both inputs, then the range check. A parse that yields
      NaN is `None` here, and NaN fails every comparison of the check. */
  function ValidateAndFormatCoordinates(latitude: JsValue, longitude: JsValue,
                                        parse: JsValue -> Option<real>): (r: Result<Point, string>)
    ensures r.Success? <==> parse(latitude).Some? && parse(longitude).Some?
                            && C.IsValidCoordinates(parse(latitude).value, parse(longitude).value)
    ensures r.Success? ==> r.value == Point(parse(latitude).value, parse(longitude).value)
    ensures r.Failure? ==> r.error == InvalidCoordinates
  {
    var lat := parse(latitude);
    var lng := parse(longitude);
    if lat.None? || lng.None? || !C.IsValidCoordinates(lat.value, lng.value) then Failure(InvalidCoordinates)
    else Success(Point(lat.value, lng.value))
  }

  // ---------------------------------------------------------------- nearby

  datatype RouteData = RouteData(distance: real, duration: real)

  /** What the routing service did: found a route, answered without one, or
      failed (threw). */
  datatype RouteOutcome = Routed(data: RouteData) | NoRoute | RouteError

  /** The route helper: the service's route, no route, or on an error the
      straight-line fallback at two minutes per km. */
  function CalculateRoute(outcome: RouteOutcome, straight: real): (r: Option<RouteData>)
    ensures outcome.Routed? ==> r == Some(outcome.data)
    ensures outcome.NoRoute? ==> r.None?
    ensures outcome.RouteError? ==> r == Some(RouteData(straight, 2.0 * straight))
  {
    match outcome
    case Routed(data) => Some(data)
    case NoRoute => None
    case RouteError => Some(RouteData(straight, 2.0 * straight))
  }

  /** The delivery estimate text: the route's minutes rounded up, or twice
      the distance rounded up without a route. */
  function Eta(route: Option<RouteData>, distance: real): (s: string)
    ensures route.Some? ==> s == IntToString(C.JsCeil(route.value.duration)) + " minutes"
    ensures route.None? ==> s == IntToString(C.JsCeil(2.0 * distance)) + " minutes"
  {
    var minutes := if route.Some? then C.JsCeil(route.value.duration) else C.JsCeil(2.0 * distance);
    IntToString(minutes) + " minutes"
  }

  /** Whatever the service does, the estimate is the rounded-up minutes of a
      route the helper can stand behind: with an error the fallback route
      gives the same text as no route at all. */
  lemma EtaFallbackAgrees(d: real)
    ensures Eta(CalculateRoute(RouteError, d), d) == Eta(None, d)
  {
  }

  datatype Nearby = Nearby(site: Site, distance: real, route: Option<RouteData>, eta: string)

  /** A site with a non-zero latitude and longitude, as `lat && lng` tests. */
  predicate Locatable(s: Site) {
    Truthy(s.lat) && Truthy(s.lng)
  }

  function Entry(s: Site, dist: Site -> real, route: Site -> RouteOutcome): Nearby {
    var r := CalculateRoute(route(s), dist(s));
    Nearby(s, dist(s), r, Eta(r, dist(s)))
  }

  /** `n` is the entry of a locatable site of `sites` within `radius`. */
  predicate Kept(n: Nearby, sites: seq<Site>, radius: real, dist: Site -> real, route: Site -> RouteOutcome) {
    exists s :: s in sites && Locatable(s) && dist(s) <= radius && n == Entry(s, dist, route)
  }

  /** The sites kept by the loop, in input order, each with its distance,
      route and estimate. */
  function Candidates(sites: seq<Site>, radius: real, dist: Site -> real,
                      route: Site -> RouteOutcome): (r: seq<Nearby>)
    ensures forall n :: n in r <==> Kept(n, sites, radius, dist, route)
  {
    if |sites| == 0 then []
    else
      var s := sites[0];
      var rest := Candidates(sites[1..], radius, dist, route);
      assert forall t :: t in sites <==> t == s || t in sites[1..] by { assert sites == [s] + sites[1..]; }
      if Locatable(s) && dist(s) <= radius then [Entry(s, dist, route)] + rest else rest
  }

  /** The loop keeps site after site: the candidates of two runs of sites
      are the first run's followed by the second's. */
  lemma {:induction false} CandidatesConcat(a: seq<Site>, b: seq<Site>, radius: real, dist: Site -> real,
                                             route: Site -> RouteOutcome)
    ensures Candidates(a + b, radius, dist, route) == Candidates(a, radius, dist, route) + Candidates(b, radius, dist, route)
  {
    if |a| > 0 {
      assert (a + b)[0] == a[0] && (a + b)[1..] == a[1..] + b;
      CandidatesConcat(a[1..], b, radius, dist, route);
    } else {
      assert a + b == b;
    }
  }

  /** One site yields its own entry when it is locatable and within the
      radius, and nothing otherwise. */
  lemma CandidatesOfOne(s: Site, radius: real, dist: Site -> real, route: Site -> RouteOutcome)
    ensures Candidates([s], radius, dist, route)
            == if Locatable(s) && dist(s) <= radius then [Entry(s, dist, route)] else []
  {
    assert [s][1..] == [];
  }

  function ByDistance(n: Nearby): SortKey {
    SortKey(0, n.distance, 0)
  }

  /** The nearby-pharmacy helper with the routing calls abstracted:
      exactly the locatable sites within the radius (10 km when none is
      given), sorted by non-decreasing distance. */
  function NearbyWithRoute(sites: seq<Site>, radius: Option<real>, dist: Site -> real,
                           route: Site -> RouteOutcome): (r: seq<Nearby>)
    ensures forall n :: n in r <==> Kept(n, sites, radius.GetOr(10.0), dist, route)
    ensures multiset(r) == multiset(Candidates(sites, radius.GetOr(10.0), dist, route))
    ensures forall i, j :: 0 <= i < j < |r| ==> r[i].distance <= r[j].distance
    ensures forall i :: 0 <= i < |r| ==> r[i].distance <= radius.GetOr(10.0)
  {
    var cands := Candidates(sites, radius.GetOr(10.0), dist, route);
    var r := SortBy(cands, ByDistance);
    SameMembers(r, cands);
    DistanceOrder(r);
    KeptWithinRadius(r, sites, radius.GetOr(10.0), dist, route);
    r
  }

  lemma KeptWithinRadius(r: seq<Nearby>, sites: seq<Site>, radius: real, dist: Site -> real,
                         route: Site -> RouteOutcome)
    requires forall n :: n in r ==> Kept(n, sites, radius, dist, route)
    ensures forall i :: 0 <= i < |r| ==> r[i].distance <= radius
  {
    forall i | 0 <= i < |r| ensures r[i].distance <= radius {
      assert Kept(r[i], sites, radius, dist, route);
      var s :| s in sites && Locatable(s) && dist(s) <= radius && r[i] == Entry(s, dist, route);
    }
  }

  lemma DistanceOrder(r: seq<Nearby>)
    requires SortedBy(r, ByDistance)
    ensures forall i, j :: 0 <= i < j < |r| ==> r[i].distance <= r[j].distance
  {
    forall i, j | 0 <= i < j < |r| ensures r[i].distance <= r[j].distance {
      assert KeyLe(ByDistance(r[i]), ByDistance(r[j]));
    }
  }
}
