/** The browser-side pharmacy data manager: drug search across the loaded
    pharmacies, availability labels, lookups by id, and the category, name
    and suggestion lists. The loaded data is a parameter, and the distance
    the manager attaches to a pharmacy (a random placeholder in the
    repository) is a function parameter. */
module PharmacyData {
  import opened Wrappers
  import opened Text
  import opened Sorting
  import Stock

  datatype Drug = Drug(drugId: string, name: string, category: string, price: real,
                       currency: string, stock: int)

  datatype Pharmacy = Pharmacy(id: string, name: string, address: string, phone: string,
                               services: Option<seq<string>>, inventory: seq<Drug>)

  /** The pharmacy fields copied into a search result; missing services
      become the empty list. */
  datatype PharmacyInfo = PharmacyInfo(id: string, name: string, address: string, phone: string,
                                       services: seq<string>)

  datatype Hit = Hit(pharmacy: PharmacyInfo, drug: Drug, distance: real, availability: string)

  function Info(p: Pharmacy): PharmacyInfo {
    PharmacyInfo(p.id, p.name, p.address, p.phone, p.services.GetOr([]))
  }

  /** The search term: lower-cased, then trimmed. */
  function SearchTerm(drugName: string): string {
    Trim(Lower(drugName))
  }

  /** A drug matches when its lower-cased name or category contains the term. */
  predicate Matches(d: Drug, term: string) {
    Contains(Lower(d.name), term) || Contains(Lower(d.category), term)
  }

  function HitOf(p: Pharmacy, d: Drug, distance: Pharmacy -> real): Hit {
    Hit(Info(p), d, distance(p), Stock.StockStatus(d.stock))
  }

  /** The results of one pharmacy: one per matching drug, in inventory order. */
  function PharmacyHits(p: Pharmacy, inv: seq<Drug>, term: string, distance: Pharmacy -> real): (r: seq<Hit>)
    ensures forall h :: h in r <==> exists d :: d in inv && Matches(d, term) && h == HitOf(p, d, distance)
  {
    if |inv| == 0 then []
    else
      var rest := PharmacyHits(p, inv[1..], term, distance);
      assert forall d :: d in inv <==> d == inv[0] || d in inv[1..] by { assert inv == [inv[0]] + inv[1..]; }
      if Matches(inv[0], term) then [HitOf(p, inv[0], distance)] + rest else rest
  }

  /** `h` is the result for some pharmacy and some matching drug of its inventory. */
  predicate IsHit(h: Hit, ps: seq<Pharmacy>, term: string, distance: Pharmacy -> real) {
    exists p, d :: p in ps && d in p.inventory && Matches(d, term) && h == HitOf(p, d, distance)
  }

  /** The unsorted results: pharmacy by pharmacy, drug by drug. */
  function AllHits(ps: seq<Pharmacy>, term: string, distance: Pharmacy -> real): (r: seq<Hit>)
    ensures forall h :: h in r <==> IsHit(h, ps, term, distance)
  {
    if |ps| == 0 then []
    else
      var mine := PharmacyHits(ps[0], ps[0].inventory, term, distance);
      var rest := AllHits(ps[1..], term, distance);
      assert forall p :: p in ps <==> p == ps[0] || p in ps[1..] by { assert ps == [ps[0]] + ps[1..]; }
      mine + rest
  }

  /** One result per matching drug, in inventory order: the results of a
      split inventory are the results of each part, one after the other. */
  lemma {:induction false} PharmacyHitsConcat(p: Pharmacy, a: seq<Drug>, b: seq<Drug>, term: string,
                                              distance: Pharmacy -> real)
    ensures PharmacyHits(p, a + b, term, distance) == PharmacyHits(p, a, term, distance) + PharmacyHits(p, b, term, distance)
  {
    if |a| > 0 {
      assert (a + b)[0] == a[0] && (a + b)[1..] == a[1..] + b;
      PharmacyHitsConcat(p, a[1..], b, term, distance);
    } else {
      assert a + b == b;
    }
  }

  /** A single drug gives one result when it matches and none otherwise. */
  lemma PharmacyHitsOfOne(p: Pharmacy, d: Drug, term: string, distance: Pharmacy -> real)
    ensures PharmacyHits(p, [d], term, distance) == if Matches(d, term) then [HitOf(p, d, distance)] else []
  {
    assert [d][1..] == [];
  }

  /** Results come pharmacy by pharmacy: the results of a split list of
      pharmacies are the results of each part, one after the other. */
  lemma {:induction false} AllHitsConcat(a: seq<Pharmacy>, b: seq<Pharmacy>, term: string, distance: Pharmacy -> real)
    ensures AllHits(a + b, term, distance) == AllHits(a, term, distance) + AllHits(b, term, distance)
  {
    if |a| > 0 {
      assert (a + b)[0] == a[0] && (a + b)[1..] == a[1..] + b;
      AllHitsConcat(a[1..], b, term, distance);
    } else {
      assert a + b == b;
    }
  }

  /** One pharmacy's share of the results is its own inventory's results. */
  lemma AllHitsOfOne(p: Pharmacy, term: string, distance: Pharmacy -> real)
    ensures AllHits([p], term, distance) == PharmacyHits(p, p.inventory, term, distance)
  {
    assert [p][1..] == [];
  }

  /** A pharmacy whose inventory has no match contributes no result. */
  lemma NoMatchNoHit(ps: seq<Pharmacy>, term: string, distance: Pharmacy -> real, h: Hit)
    requires h in AllHits(ps, term, distance)
    ensures exists p :: p in ps && Info(p) == h.pharmacy && h.drug in p.inventory && Matches(h.drug, term)
  {
    assert IsHit(h, ps, term, distance);
  }

  /** The comparator's key: 'In Stock' first, then by distance. */
  function Priority(h: Hit): SortKey {
    SortKey(if h.availability == Stock.InStock then 0 else 1, h.distance, 0)
  }

  /** `searchDrugInPharmacies`: every (pharmacy, matching drug) pair once,
      in-stock results first and each group by distance. */
  function SearchDrugInPharmacies(ps: seq<Pharmacy>, drugName: string, distance: Pharmacy -> real): (r: seq<Hit>)
    ensures multiset(r) == multiset(AllHits(ps, SearchTerm(drugName), distance))
    ensures forall h :: h in r <==> IsHit(h, ps, SearchTerm(drugName), distance)
    ensures SortedBy(r, Priority)
  {
    var hits := AllHits(ps, SearchTerm(drugName), distance);
    var r := SortBy(hits, Priority);
    SameMembers(r, hits);
    r
  }

  /** In sorted results every 'In Stock' result precedes every other one. */
  lemma InStockFirst(r: seq<Hit>, i: int, j: int)
    requires SortedBy(r, Priority)
    requires 0 <= i < j < |r| && r[j].availability == Stock.InStock
    ensures r[i].availability == Stock.InStock
  {
    assert KeyLe(Priority(r[i]), Priority(r[j]));
  }

  /** Among results of equal availability class, distance does not decrease. */
  lemma DistanceWithinClass(r: seq<Hit>, i: int, j: int)
    requires SortedBy(r, Priority)
    requires 0 <= i < j < |r| && Priority(r[i]).rank == Priority(r[j]).rank
    ensures r[i].distance <= r[j].distance
  {
    assert KeyLe(Priority(r[i]), Priority(r[j]));
  }

  /** `find` by id: the first pharmacy with that id. */
  function PharmacyById(ps: seq<Pharmacy>, id: string): (r: Option<Pharmacy>)
    ensures r.None? <==> forall i :: 0 <= i < |ps| ==> ps[i].id != id
    ensures r.Some? ==> exists i :: 0 <= i < |ps| && ps[i] == r.value
                          && r.value.id == id && forall k :: 0 <= k < i ==> ps[k].id != id
  {
    if |ps| == 0 then None
    else if ps[0].id == id then Some(ps[0])
    else
      var r := PharmacyById(ps[1..], id);
      FirstWithIdShift(ps, id, r);
      r
  }

  /** The first-match facts for `ps[1..]` carry over to `ps` when `ps[0]`
      does not match. */
  lemma FirstWithIdShift(ps: seq<Pharmacy>, id: string, r: Option<Pharmacy>)
    requires |ps| > 0 && ps[0].id != id
    requires r.None? <==> forall i :: 0 <= i < |ps[1..]| ==> ps[1..][i].id != id
    requires r.Some? ==> exists i :: 0 <= i < |ps[1..]| && ps[1..][i] == r.value
                           && r.value.id == id && forall k :: 0 <= k < i ==> ps[1..][k].id != id
    ensures r.None? <==> forall i :: 0 <= i < |ps| ==> ps[i].id != id
    ensures r.Some? ==> exists i :: 0 <= i < |ps| && ps[i] == r.value
                          && r.value.id == id && forall k :: 0 <= k < i ==> ps[k].id != id
  {
    if r.Some? {
      var i :| 0 <= i < |ps[1..]| && ps[1..][i] == r.value
               && r.value.id == id && forall k :: 0 <= k < i ==> ps[1..][k].id != id;
      assert ps[i + 1] == r.value;
      forall k | 0 <= k < i + 1 ensures ps[k].id != id {
        if k > 0 { assert ps[k] == ps[1..][k - 1]; }
      }
    } else {
      forall i | 0 <= i < |ps| ensures ps[i].id != id {
        if i > 0 { assert ps[i] == ps[1..][i - 1]; }
      }
    }
  }

  /** The inventory of the pharmacy with that id, or nothing for an unknown id. */
  function PharmacyInventory(ps: seq<Pharmacy>, id: string): (inv: seq<Drug>)
    ensures (forall i :: 0 <= i < |ps| ==> ps[i].id != id) ==> inv == []
    ensures PharmacyById(ps, id).Some? ==> inv == PharmacyById(ps, id).value.inventory
  {
    var p := PharmacyById(ps, id);
    if p.Some? then p.value.inventory else []
  }

  /** Every drug of every pharmacy, in order. */
  function AllDrugs(ps: seq<Pharmacy>): (ds: seq<Drug>)
    ensures forall d :: d in ds <==> exists p :: p in ps && d in p.inventory
  {
    if |ps| == 0 then []
    else
      assert forall p :: p in ps <==> p == ps[0] || p in ps[1..] by { assert ps == [ps[0]] + ps[1..]; }
      ps[0].inventory + AllDrugs(ps[1..])
  }

  function Categories(ds: seq<Drug>): (cs: seq<string>)
    ensures forall c :: c in cs <==> exists d :: d in ds && d.category == c
  {
    if |ds| == 0 then []
    else
      assert forall d :: d in ds <==> d == ds[0] || d in ds[1..] by { assert ds == [ds[0]] + ds[1..]; }
      [ds[0].category] + Categories(ds[1..])
  }

  function Names(ds: seq<Drug>): (ns: seq<string>)
    ensures forall n :: n in ns <==> exists d :: d in ds && d.name == n
  {
    if |ds| == 0 then []
    else
      assert forall d :: d in ds <==> d == ds[0] || d in ds[1..] by { assert ds == [ds[0]] + ds[1..]; }
      [ds[0].name] + Names(ds[1..])
  }

  /** Every category of every drug, once each, in increasing order. */
  function AllCategories(ps: seq<Pharmacy>): (r: seq<string>)
    ensures StrictlySorted(r)
    ensures forall c :: c in r <==> exists d :: d in AllDrugs(ps) && d.category == c
  {
    SortedDistinct(Categories(AllDrugs(ps)))
  }

  /** Every drug name, once each, in increasing order. */
  function AllDrugNames(ps: seq<Pharmacy>): (r: seq<string>)
    ensures StrictlySorted(r)
    ensures forall n :: n in r <==> exists d :: d in AllDrugs(ps) && d.name == n
  {
    SortedDistinct(Names(AllDrugs(ps)))
  }

  /** `s` is the name or the category of a drug of `ds`, and contains the
      term once lower-cased. */
  predicate Suggestible(s: string, ds: seq<Drug>, term: string) {
    exists d :: d in ds && ((s == d.name && Contains(Lower(d.name), term))
                            || (s == d.category && Contains(Lower(d.category), term)))
  }

  /** What the suggestion loop adds to its set, in order: for each drug, its
      name when the name matches, then its category when that matches. */
  function SuggestionAdds(ds: seq<Drug>, term: string): (r: seq<string>)
    ensures forall s :: s in r <==> Suggestible(s, ds, term)
  {
    if |ds| == 0 then []
    else
      var d := ds[0];
      assert forall x :: x in ds <==> x == d || x in ds[1..] by { assert ds == [d] + ds[1..]; }
      (if Contains(Lower(d.name), term) then [d.name] else [])
      + (if Contains(Lower(d.category), term) then [d.category] else [])
      + SuggestionAdds(ds[1..], term)
  }

  const MaxSuggestions := 5

  /** At most five distinct names or categories containing the query, in
      the order they were first added. */
  function SearchSuggestions(ps: seq<Pharmacy>, query: string): (r: seq<string>)
    ensures |r| <= MaxSuggestions
    ensures forall i, j :: 0 <= i < j < |r| ==> r[i] != r[j]
    ensures forall s :: s in r ==> Suggestible(s, AllDrugs(ps), SearchTerm(query))
    ensures r <= Dedup(SuggestionAdds(AllDrugs(ps), SearchTerm(query)))
    ensures var n := |Dedup(SuggestionAdds(AllDrugs(ps), SearchTerm(query)))|;
      |r| == if n < MaxSuggestions then n else MaxSuggestions
  {
    var adds := SuggestionAdds(AllDrugs(ps), SearchTerm(query));
    var all := Dedup(adds);
    var r := Cap(all, MaxSuggestions);
    CapFacts(all, adds, AllDrugs(ps), SearchTerm(query), r);
    r
  }

  /** `xs.slice(0, n)`. */
  function Cap<T>(xs: seq<T>, n: nat): (r: seq<T>)
    ensures |r| <= n && |r| <= |xs| && r == xs[..|r|]
    ensures |xs| <= n ==> r == xs
    ensures |xs| > n ==> |r| == n
  {
    if |xs| <= n then xs else xs[..n]
  }

  lemma CapFacts(all: seq<string>, adds: seq<string>, ds: seq<Drug>, term: string, r: seq<string>)
    requires forall i, j :: 0 <= i < j < |all| ==> all[i] != all[j]
    requires forall s :: s in all ==> s in adds
    requires forall s :: s in adds ==> Suggestible(s, ds, term)
    requires |r| <= |all| && r == all[..|r|]
    ensures forall i, j :: 0 <= i < j < |r| ==> r[i] != r[j]
    ensures forall s :: s in r ==> Suggestible(s, ds, term)
  {
    forall i, j | 0 <= i < j < |r| ensures r[i] != r[j] { assert r[i] == all[i] && r[j] == all[j]; }
    forall s | s in r ensures Suggestible(s, ds, term) { assert s in all; }
  }

  /** When fewer than five candidates exist, every one is suggested. */
  lemma SuggestionsComplete(ps: seq<Pharmacy>, query: string, s: string)
    requires |Dedup(SuggestionAdds(AllDrugs(ps), SearchTerm(query)))| <= MaxSuggestions
    requires s in SuggestionAdds(AllDrugs(ps), SearchTerm(query))
    ensures s in SearchSuggestions(ps, query)
  {
  }
}
