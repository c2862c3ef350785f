/** The client-facing handlers: the drug search with its location fallback
    and group-by-pharmacy response, the order totals, and the cancel rule.
    Distances come from the Haversine helper, which is not part of this
    model: they are given as inputs. */
module ClientRoutes {
  import opened Wrappers
  import opened Js
  import opened Http
  import opened Sorting
  import opened Grouping
  import C = Calculations

  // ---------------------------------------------------------- drug search

  const DrugNameRequired := "Drug name is required"
  const LocationRequired := "Location is required. Please update your profile with your location."

  /** A latitude/longitude pair as the request or the profile holds it. */
  datatype Location = Location(lat: JsValue, lng: JsValue)

  /** The guards of the search: the drug name is required, then the query's
      coordinates fall back one by one to the profile's, and both must end
      up truthy. On success, the location searched around. */
  function SearchLocation(drugName: JsValue, query: Location, profile: Location): (r: Result<Location, Refusal>)
    ensures r.Success? <==> Truthy(drugName) && Truthy(Or(query.lat, profile.lat)) && Truthy(Or(query.lng, profile.lng))
    ensures !Truthy(drugName) ==> r == Failure(Refusal(BadRequest, DrugNameRequired))
    ensures Truthy(drugName) && r.Failure? ==> r == Failure(Refusal(BadRequest, LocationRequired))
    ensures r.Success? ==> Truthy(r.value.lat) && Truthy(r.value.lng)
    ensures r.Success? && Truthy(query.lat) ==> r.value.lat == query.lat
    ensures r.Success? && Truthy(query.lng) ==> r.value.lng == query.lng
  {
    if !Truthy(drugName) then Failure(Refusal(BadRequest, DrugNameRequired))
    else
      var lat := Or(query.lat, profile.lat);
      var lng := Or(query.lng, profile.lng);
      if !Truthy(lat) || !Truthy(lng) then Failure(Refusal(BadRequest, LocationRequired))
      else Success(Location(lat, lng))
  }

  /** A client whose profile holds a location is never refused for lack of
      one, whatever the query carries. */
  lemma ProfileLocationSuffices(drugName: JsValue, query: Location, profile: Location)
    requires Truthy(drugName) && Truthy(profile.lat) && Truthy(profile.lng)
    ensures SearchLocation(drugName, query, profile).Success?
  {
  }

  /** Coordinates given in the query make the profile irrelevant. */
  lemma QueryLocationWins(drugName: JsValue, query: Location, p1: Location, p2: Location)
    requires Truthy(query.lat) && Truthy(query.lng)
    ensures SearchLocation(drugName, query, p1) == SearchLocation(drugName, query, p2)
  {
  }

  // ---------------------------------------------------------- order totals

  /** Every item is priced at this placeholder until inventory prices are
      looked up. */
  const PlaceholderUnitPrice: int := 1000
  const DefaultEta := "45-60 minutes"
  const ValidationFailed := "Validation failed"

  datatype OrderItem = OrderItem(drugId: int, quantity: int)

  datatype PricedItem = PricedItem(drugId: int, quantity: int, unitPrice: int, totalPrice: int)

  datatype OrderTotals = OrderTotals(items: seq<PricedItem>, total: int, fee: int, eta: string)

  /** The body checks of the order route: at least one item, each quantity
      at least 1, an address, and delivery coordinates in range. */
  predicate ValidOrderRequest(items: seq<OrderItem>, address: string, deliveryLat: real, deliveryLng: real) {
    |items| > 0
    && (forall i :: 0 <= i < |items| ==> items[i].quantity >= 1)
    && address != ""
    && C.IsValidCoordinates(deliveryLat, deliveryLng)
  }

  /** Σ quantity over the requested items. */
  function Quantity(items: seq<OrderItem>): int {
    if |items| == 0 then 0 else Quantity(items[..|items| - 1]) + items[|items| - 1].quantity
  }

  /** Σ total_price over the priced items. */
  function ItemsTotal(items: seq<PricedItem>): int {
    if |items| == 0 then 0 else ItemsTotal(items[..|items| - 1]) + items[|items| - 1].totalPrice
  }

  /** The client's stored location is usable for a fee. */
  predicate HasStoredLocation(client: Location) {
    Truthy(client.lat) && Truthy(client.lng)
  }

  /** The totals of a new order: each item priced at the placeholder, the
      delivery fee for `distance` (the client's stored location to the
      delivery point) added only when the client has a stored location, and
      the matching delivery estimate. */
  method CreateOrderTotals(items: seq<OrderItem>, address: string, deliveryLat: real, deliveryLng: real,
                           client: Location, distance: real) returns (r: Result<OrderTotals, Refusal>)
    ensures r.Failure? <==> !ValidOrderRequest(items, address, deliveryLat, deliveryLng)
    ensures r.Failure? ==> r.error == Refusal(BadRequest, ValidationFailed)
    ensures r.Success? ==> |r.value.items| == |items|
    ensures r.Success? ==> forall i :: 0 <= i < |items| ==>
      r.value.items[i].drugId == items[i].drugId && r.value.items[i].quantity == items[i].quantity
      && r.value.items[i].unitPrice == PlaceholderUnitPrice
      && r.value.items[i].totalPrice == r.value.items[i].unitPrice * items[i].quantity
    ensures r.Success? ==> r.value.total == ItemsTotal(r.value.items) + r.value.fee
    ensures r.Success? ==> r.value.total == PlaceholderUnitPrice * Quantity(items) + r.value.fee
    ensures r.Success? ==> r.value.fee == (if HasStoredLocation(client) then C.DeliveryFee(distance) else 0)
    ensures r.Success? ==> r.value.eta == (if HasStoredLocation(client) then C.DeliveryTime(distance) else DefaultEta)
  {
    if !ValidOrderRequest(items, address, deliveryLat, deliveryLng) {
      return Failure(Refusal(BadRequest, ValidationFailed));
    }
    var total := 0;
    var priced: seq<PricedItem> := [];
    var i := 0;
    while i < |items|
      invariant 0 <= i <= |items|
      invariant |priced| == i
      invariant forall k :: 0 <= k < i ==> priced[k] == PricedItem(items[k].drugId, items[k].quantity,
                                                                      PlaceholderUnitPrice, PlaceholderUnitPrice * items[k].quantity)
      invariant total == ItemsTotal(priced)
      invariant total == PlaceholderUnitPrice * Quantity(items[..i])
    {
      var itemTotal := PlaceholderUnitPrice * items[i].quantity;
      assert items[..i + 1][..i] == items[..i];
      assert (priced + [PricedItem(items[i].drugId, items[i].quantity, PlaceholderUnitPrice, itemTotal)])[..i] == priced;
      priced := priced + [PricedItem(items[i].drugId, items[i].quantity, PlaceholderUnitPrice, itemTotal)];
      total := total + itemTotal;
      i := i + 1;
    }
    assert items[..i] == items;
    var fee := 0;
    var eta := DefaultEta;
    if HasStoredLocation(client) {
      fee := C.DeliveryFee(distance);
      total := total + fee;
      eta := C.DeliveryTime(distance);
    }
    return Success(OrderTotals(priced, total, fee, eta));
  }

  // ---------------------------------------------------------------- cancel

  /** What the cancel handler reads of an order. */
  datatype OrderRef = OrderRef(clientId: int, status: string)

  /** The cancel handler's answer: 404 for no order, 403 for another
      client's order, 400 once the order is past confirmation, 200 when it
      cancels. */
  function CancelDecision(order: Option<OrderRef>, userId: int): (code: int)
    ensures code in {Ok, BadRequest, Forbidden, NotFound}
    ensures code == NotFound <==> order.None?
    ensures code == Forbidden <==> order.Some? && order.value.clientId != userId
    ensures code == Ok <==> (order.Some? && order.value.clientId == userId
                             && (order.value.status == "pending" || order.value.status == "confirmed"))
  {
    match order
    case None => NotFound
    case Some(o) =>
      if o.clientId != userId then Forbidden
      else if o.status != "pending" && o.status != "confirmed" then BadRequest
      else Ok
  }
}
