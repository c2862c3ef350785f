/** The delivery, validation and aggregate helpers of the calculations
    utility: distance tiers for the delivery fee and time, coordinate range
    checks, Nigerian phone validation and normalisation, and the sums the
    order and inventory screens show. Distances are given; the Haversine
    formula itself is not part of this model. */
module Calculations {
  import opened Wrappers
  import opened Text
  import Stock

  /** `Math.round(x)`: the integer nearest to `x`, halves rounded up. It is
      the only integer in `(x - 0.5, x + 0.5]`. */
  function JsRound(x: real): (r: int)
    ensures x - 0.5 < r as real <= x + 0.5
  {
    (x + 0.5).Floor
  }

  /** `Math.ceil(x)`: the least integer not below `x`. */
  function JsCeil(x: real): (r: int)
    ensures x <= r as real < x + 1.0
  {
    -((-x).Floor)
  }

  // ---------------------------------------------------------------- tiers

  /** The tier limits of both the fee and the time: 2, 5 and 10 km, each
      inclusive, then an unbounded catch-all. */
  const TierLimits: seq<real> := [2.0, 5.0, 10.0]
  const TierFees: seq<int> := [500, 800, 1200, 1500]
  const TierTimes: seq<string> := ["15-30 minutes", "30-45 minutes", "45-60 minutes", "60-90 minutes"]

  /** The number of tier limits a distance exceeds: the tier it falls in. */
  function Exceeded(d: real, limits: seq<real>): (n: nat)
    ensures n <= |limits|
  {
    if |limits| == 0 then 0 else (if d > limits[0] then 1 else 0) + Exceeded(d, limits[1..])
  }

  function TierOf(d: real): (t: nat)
    ensures t < 4
  {
    Exceeded(d, TierLimits)
  }

  /** The delivery fee in naira for a distance in km. */
  function DeliveryFee(distance: real): (fee: int)
    ensures distance <= 2.0 ==> fee == 500
    ensures distance > 10.0 ==> fee == 1500
    ensures 500 <= fee <= 1500
  {
    if distance <= 2.0 then 500
    else if distance <= 5.0 then 800
    else if distance <= 10.0 then 1200
    else 1500
  }

  /** The delivery time text for a distance in km. */
  function DeliveryTime(distance: real): (time: string)
    ensures time in TierTimes
  {
    if distance <= 2.0 then "15-30 minutes"
    else if distance <= 5.0 then "30-45 minutes"
    else if distance <= 10.0 then "45-60 minutes"
    else "60-90 minutes"
  }

  /** Fee and time are both read off the tier the distance falls in, so the
      two if-chains never disagree about the tier. */
  lemma FeeAndTimeByTier(d: real)
    ensures DeliveryFee(d) == TierFees[TierOf(d)]
    ensures DeliveryTime(d) == TierTimes[TierOf(d)]
  {
    var l1, l2 := TierLimits[1..], TierLimits[1..][1..];
    assert l1 == [5.0, 10.0] && l2 == [10.0] && l2[1..] == [];
    assert Exceeded(d, l2) == (if d > 10.0 then 1 else 0);
    assert Exceeded(d, l1) == (if d > 5.0 then 1 else 0) + Exceeded(d, l2);
    assert TierOf(d) == (if d > 2.0 then 1 else 0) + Exceeded(d, l1);
  }

  /** A farther delivery never costs less. */
  lemma FeeMonotone(d1: real, d2: real)
    requires d1 <= d2
    ensures DeliveryFee(d1) <= DeliveryFee(d2)
    ensures TierOf(d1) <= TierOf(d2)
  {
    FeeAndTimeByTier(d1);
    FeeAndTimeByTier(d2);
  }

  /** Two distances get the same fee exactly when they get the same time. */
  lemma FeeTimeSameTier(d1: real, d2: real)
    ensures DeliveryFee(d1) == DeliveryFee(d2) <==> DeliveryTime(d1) == DeliveryTime(d2)
  {
  }

  // ---------------------------------------------------------- coordinates

  /** Latitude in [-90, 90] and longitude in [-180, 180], bounds included. */
  predicate IsValidCoordinates(lat: real, lng: real) {
    -90.0 <= lat <= 90.0 && -180.0 <= lng <= 180.0
  }

  /** The coordinate check is a closed box around the origin: both poles and
      the antimeridian on either side are valid. */
  lemma ValidCoordinatesBox(lat: real, lng: real)
    ensures IsValidCoordinates(lat, lng)
        <==> (if lat < 0.0 then -lat else lat) <= 90.0 && (if lng < 0.0 then -lng else lng) <= 180.0
    ensures IsValidCoordinates(90.0, 180.0) && IsValidCoordinates(-90.0, -180.0)
    ensures !IsValidCoordinates(lat, lng) <==> lat < -90.0 || lat > 90.0 || lng < -180.0 || lng > 180.0
  {
  }

  // ---------------------------------------------------------------- phones

  /** The ten digits after the country prefix of a Nigerian mobile number:
      an operator digit 7, 8 or 9, then 0 or 1, then eight digits. */
  predicate MobileTail(t: string) {
    |t| == 10 && t[0] in "789" && t[1] in "01" && AllDigits(t[2..])
  }

  /** `/^(\+234|0)[789][01]\d{8}$/`. */
  predicate ValidNigerianPhone(phone: string) {
    (StartsWith(phone, "+234") && MobileTail(phone[4..]))
    || (StartsWith(phone, "0") && MobileTail(phone[1..]))
  }

  /** The two forms the regular expression accepts: "+234" and ten digits
      (14 characters), or "0" and ten digits (11 characters); either way the
      last ten characters are digits. */
  lemma {:induction false} ValidPhoneForms(phone: string)
    ensures ValidNigerianPhone(phone)
        <==> (|phone| == 14 && phone[..4] == "+234" && MobileTail(phone[4..]))
             || (|phone| == 11 && phone[0] == '0' && MobileTail(phone[1..]))
    ensures ValidNigerianPhone(phone) ==> AllDigits(phone[|phone| - 10..])
  {
    if ValidNigerianPhone(phone) {
      var t := phone[|phone| - 10..];
      if StartsWith(phone, "+234") && MobileTail(phone[4..]) {
        assert t == phone[4..];
      } else {
        assert t == phone[1..];
      }
      forall i | 0 <= i < 10 ensures IsDigit(t[i]) {
        if i >= 2 { assert t[i] == t[2..][i - 2]; }
      }
    }
    if |phone| == 11 && phone[0] == '0' {
      assert phone[..1] == "0";
    }
  }

  /** The phone's digits with a leading 0 replaced by "+234", or "+" put in
      front of a leading 234; any other phone is returned as it was given.
      (The source tests the 234 prefix twice; the second test is unreachable.) */
  function FormatNigerianPhone(phone: string): (r: string)
    ensures r == phone || (StartsWith(r, "+234") && AllDigits(r[1..]))
    ensures StartsWith(DigitsOf(phone), "0") ==> r == "+234" + DigitsOf(phone)[1..]
    ensures !StartsWith(DigitsOf(phone), "0") && StartsWith(DigitsOf(phone), "234") ==> r == "+" + DigitsOf(phone)
    ensures !StartsWith(DigitsOf(phone), "0") && !StartsWith(DigitsOf(phone), "234") ==> r == phone
  {
    var cleaned := DigitsOf(phone);
    if StartsWith(cleaned, "0") then
      var r := "+234" + cleaned[1..];
      assert r[1..] == "234" + cleaned[1..];
      r
    else if StartsWith(cleaned, "234") then
      var r := "+" + cleaned;
      assert r[1..] == cleaned == "234" + cleaned[3..];
      r
    else phone
  }

  lemma DigitsOfIntl(x: string)
    requires AllDigits(x)
    ensures DigitsOf("+234" + x) == "234" + x
  {
    DigitsOfConcat("+234", x);
    assert "+234"[1..] == "234" && "234"[1..] == "34" && "34"[1..] == "4" && "4"[1..] == "";
  }

  /** Normalising twice is normalising once, for every input. */
  lemma FormatIdempotent(phone: string)
    ensures FormatNigerianPhone(FormatNigerianPhone(phone)) == FormatNigerianPhone(phone)
  {
    var r := FormatNigerianPhone(phone);
    if r != phone {
      var x := r[4..];
      assert r == "+234" + x;
      DigitsOfIntl(x);
      assert !StartsWith("234" + x, "0");
      assert StartsWith("234" + x, "234");
    }
  }

  /** Every phone the validator accepts normalises to "+234" followed by its
      last ten digits. */
  lemma FormatValid(phone: string)
    requires ValidNigerianPhone(phone)
    ensures |phone| >= 10
    ensures FormatNigerianPhone(phone) == "+234" + phone[|phone| - 10..]
  {
    if StartsWith(phone, "+234") {
      var t := phone[4..];
      assert phone == "+234" + t;
      assert AllDigits(t) by { assert t == [t[0], t[1]] + t[2..]; }
      DigitsOfIntl(t);
    } else {
      var t := phone[1..];
      assert phone == "0" + t;
      assert AllDigits(t) by { assert t == [t[0], t[1]] + t[2..]; }
      DigitsOfConcat("0", t);
      assert DigitsOf("0") == "0";
      assert DigitsOf(phone) == "0" + t;
    }
  }

  // ------------------------------------------------------------ aggregates

  /** A line of an order: unit price and quantity. */
  datatype OrderLine = OrderLine(unitPrice: real, quantity: int)

  /** Σ unit_price · quantity, accumulated left to right. */
  function Subtotal(items: seq<OrderLine>): real {
    if |items| == 0 then 0.0
    else Subtotal(items[..|items| - 1]) + items[|items| - 1].unitPrice * items[|items| - 1].quantity as real
  }

  /** Σ quantity. */
  function TotalItems(items: seq<OrderLine>): int {
    if |items| == 0 then 0 else TotalItems(items[..|items| - 1]) + items[|items| - 1].quantity
  }

  lemma {:induction false} SubtotalConcat(a: seq<OrderLine>, b: seq<OrderLine>)
    ensures Subtotal(a + b) == Subtotal(a) + Subtotal(b)
    ensures TotalItems(a + b) == TotalItems(a) + TotalItems(b)
    decreases |b|
  {
    if |b| > 0 {
      var n := |b| - 1;
      assert (a + b)[..|a + b| - 1] == a + b[..n];
      assert (a + b)[|a + b| - 1] == b[n];
      SubtotalConcat(a, b[..n]);
    } else {
      assert a + b == a;
    }
  }

  /** The order summary: subtotal and item count. */
  method OrderSummary(items: seq<OrderLine>) returns (subtotal: real, totalItems: int)
    ensures subtotal == Subtotal(items)
    ensures totalItems == TotalItems(items)
  {
    subtotal, totalItems := 0.0, 0;
    var i := 0;
    while i < |items|
      invariant 0 <= i <= |items|
      invariant subtotal == Subtotal(items[..i])
      invariant totalItems == TotalItems(items[..i])
    {
      assert items[..i + 1][..i] == items[..i];
      subtotal := subtotal + items[i].unitPrice * items[i].quantity as real;
      totalItems := totalItems + items[i].quantity;
      i := i + 1;
    }
    assert items[..i] == items;
  }

  /** An inventory line: quantity on hand and unit price. */
  datatype StockItem = StockItem(quantity: int, price: real)

  /** Σ quantity · price. */
  function StockValue(inv: seq<StockItem>): real {
    if |inv| == 0 then 0.0
    else StockValue(inv[..|inv| - 1]) + inv[|inv| - 1].quantity as real * inv[|inv| - 1].price
  }

  lemma {:induction false} StockValueConcat(a: seq<StockItem>, b: seq<StockItem>)
    ensures StockValue(a + b) == StockValue(a) + StockValue(b)
    decreases |b|
  {
    if |b| > 0 {
      var n := |b| - 1;
      assert (a + b)[..|a + b| - 1] == a + b[..n];
      assert (a + b)[|a + b| - 1] == b[n];
      StockValueConcat(a, b[..n]);
    } else {
      assert a + b == a;
    }
  }

  /** The inventory's value. */
  method InventoryValue(inv: seq<StockItem>) returns (total: real)
    ensures total == StockValue(inv)
  {
    total := 0.0;
    var i := 0;
    while i < |inv|
      invariant 0 <= i <= |inv|
      invariant total == StockValue(inv[..i])
    {
      assert inv[..i + 1][..i] == inv[..i];
      total := total + inv[i].quantity as real * inv[i].price;
      i := i + 1;
    }
    assert inv[..i] == inv;
  }

  /** The items under the low-stock flag, in inventory order. */
  function LowStockItems(inv: seq<StockItem>): (r: seq<StockItem>)
    ensures forall x :: x in r <==> x in inv && Stock.LowFlag(x.quantity)
    ensures |r| <= |inv|
  {
    if |inv| == 0 then []
    else (if Stock.LowFlag(inv[0].quantity) then [inv[0]] else []) + LowStockItems(inv[1..])
  }

  /** An item put in front is kept in front exactly when it is flagged. */
  lemma LowStockCons(x: StockItem, xs: seq<StockItem>)
    ensures LowStockItems([x] + xs) == (if Stock.LowFlag(x.quantity) then [x] else []) + LowStockItems(xs)
  {
    assert ([x] + xs)[0] == x && ([x] + xs)[1..] == xs;
  }

  /** Filtering distributes over concatenation: the filter keeps the order
      of the items it keeps. */
  lemma {:induction false} LowStockConcat(a: seq<StockItem>, b: seq<StockItem>)
    ensures LowStockItems(a + b) == LowStockItems(a) + LowStockItems(b)
  {
    if |a| > 0 {
      var x, rest := a[0], a[1..];
      assert a == [x] + rest;
      assert a + b == [x] + (rest + b);
      LowStockConcat(rest, b);
      LowStockCons(x, rest + b);
      LowStockCons(x, rest);
      var f, p, q := if Stock.LowFlag(x.quantity) then [x] else [], LowStockItems(rest), LowStockItems(b);
      assert LowStockItems(a + b) == f + (p + q);
      assert LowStockItems(a) == f + p;
      assert f + (p + q) == (f + p) + q;
    } else {
      assert a + b == b;
    }
  }

  function Sum(xs: seq<real>): real {
    if |xs| == 0 then 0.0 else Sum(xs[..|xs| - 1]) + xs[|xs| - 1]
  }

  /** The mean rating rounded to one decimal, or 0 for a missing or empty
      list. */
  function AverageRating(ratings: Option<seq<real>>): (r: real)
    ensures ratings.None? || |ratings.value| == 0 ==> r == 0.0
    ensures ratings.Some? && |ratings.value| > 0 ==>
      var mean := Sum(ratings.value) / |ratings.value| as real;
      mean - 0.05 < r <= mean + 0.05
  {
    if ratings.None? || |ratings.value| == 0 then 0.0
    else
      var mean := Sum(ratings.value) / |ratings.value| as real;
      JsRound(mean * 10.0) as real / 10.0
  }

  lemma {:induction false} SumBounds(xs: seq<real>, lo: real, hi: real)
    requires forall i :: 0 <= i < |xs| ==> lo <= xs[i] <= hi
    ensures lo * |xs| as real <= Sum(xs) <= hi * |xs| as real
  {
    if |xs| > 0 {
      SumBounds(xs[..|xs| - 1], lo, hi);
    }
  }

  /** Ratings on the 1..5 scale average to a value on the same scale. */
  lemma AverageInScale(ratings: seq<real>)
    requires |ratings| > 0
    requires forall i :: 0 <= i < |ratings| ==> 1.0 <= ratings[i] <= 5.0
    ensures 1.0 <= AverageRating(Some(ratings)) <= 5.0
  {
    SumBounds(ratings, 1.0, 5.0);
    var n := |ratings| as real;
    var mean := Sum(ratings) / n;
    DivBetween(Sum(ratings), n, 1.0, 5.0);
    var k := JsRound(mean * 10.0);
    assert 10.0 <= mean * 10.0 <= 50.0;
    assert 10 <= k <= 50;
  }

  /** A quotient by a positive divisor lies between the bounds the dividend
      lies between, scaled. */
  lemma DivBetween(s: real, n: real, lo: real, hi: real)
    requires n > 0.0 && lo * n <= s <= hi * n
    ensures lo <= s / n <= hi
  {
    var m := s / n;
    assert m * n == s;
    assert (m - lo) * n == s - lo * n;
    assert (hi - m) * n == hi * n - s;
  }

  /** The margin in percent, rounded, or 0 when the cost is 0. */
  function ProfitMargin(cost: real, selling: real): (r: int)
    ensures cost == 0.0 ==> r == 0
    ensures cost != 0.0 ==>
      var pct := (selling - cost) / cost * 100.0;
      pct - 0.5 < r as real <= pct + 0.5
  {
    if cost == 0.0 then 0 else JsRound((selling - cost) / cost * 100.0)
  }

  /** Selling at or above a positive cost never shows a negative margin. */
  lemma MarginNonNegative(cost: real, selling: real)
    requires 0.0 < cost <= selling
    ensures ProfitMargin(cost, selling) >= 0
  {
  }

  // --------------------------------------------------------------- expiry

  /** Milliseconds in a day. */
  const DayMs := 86400000

  /** `isExpiringSoon`: the whole days until expiry, rounded up, lie in
      0..30. Because of the rounding up, an item that expired less than a
      day ago still counts: the window is `(now - 1 day, now + 30 days]`.
      Both instants are milliseconds since the epoch; the clock is the
      caller's. */
  function ExpiringSoon(expiryMs: int, nowMs: int): (b: bool)
    ensures b <==> nowMs - DayMs < expiryMs <= nowMs + 30 * DayMs
  {
    var days := JsCeil((expiryMs - nowMs) as real / DayMs as real);
    0 <= days <= 30
  }
}
