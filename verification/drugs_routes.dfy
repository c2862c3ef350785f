/** The drug catalogue handlers: the category filter, the limited search,
    the guards of the availability search, and the category list with its
    per-category counts and descriptions. A drug's category is the empty
    string where the row has none (`null` and `""` are both falsy). */
module DrugsRoutes {
  import opened Wrappers
  import opened Js
  import opened Http
  import opened Text
  import opened Sorting

  /** The fields of a drug row the handlers act on. */
  datatype Drug = Drug(id: int, name: string, category: string)

  // ------------------------------------------------------- category filter

  /** The filter's test: the drug has a category equal to `category` up to
      case. */
  predicate InCategory(d: Drug, category: string) {
    d.category != "" && Lower(d.category) == Lower(category)
  }

  /** The drugs of a category, in catalogue order; no category (an absent or
      empty query value) keeps every drug. */
  function CategoryFilter(drugs: seq<Drug>, category: string): (r: seq<Drug>)
    ensures category == "" ==> r == drugs
    ensures category != "" ==> forall d :: d in r <==> d in drugs && InCategory(d, category)
    ensures |r| <= |drugs|
  {
    if category == "" then drugs
    else if |drugs| == 0 then []
    else
      var n := |drugs| - 1;
      var r := CategoryFilter(drugs[..n], category);
      assert drugs == drugs[..n] + [drugs[n]];
      if InCategory(drugs[n], category) then r + [drugs[n]] else r
  }

  /** The filter ignores case: two spellings of a category that differ
      only in case select the same drugs in the same order. */
  lemma {:induction false} CategoryFilterIgnoresCase(drugs: seq<Drug>, c1: string, c2: string)
    requires c1 != "" && c2 != "" && Lower(c1) == Lower(c2)
    ensures CategoryFilter(drugs, c1) == CategoryFilter(drugs, c2)
  {
    if |drugs| > 0 {
      CategoryFilterIgnoresCase(drugs[..|drugs| - 1], c1, c2);
    }
  }

  /** Appending a drug appends it to the filtered list exactly when it passes. */
  lemma CategoryFilterSnoc(xs: seq<Drug>, x: Drug, category: string)
    ensures category != "" ==>
      CategoryFilter(xs + [x], category) == CategoryFilter(xs, category) + (if InCategory(x, category) then [x] else [])
  {
    assert (xs + [x])[..|xs|] == xs;
  }

  /** Filtering a concatenation filters each part: the filter keeps or drops
      every drug on its own, in catalogue order. */
  lemma {:induction false} CategoryFilterConcat(a: seq<Drug>, b: seq<Drug>, category: string)
    ensures CategoryFilter(a + b, category) == CategoryFilter(a, category) + CategoryFilter(b, category)
    decreases |b|
  {
    if category != "" && |b| > 0 {
      var n := |b| - 1;
      var init, x := b[..n], b[n];
      assert b == init + [x];
      assert a + b == (a + init) + [x];
      CategoryFilterConcat(a, init, category);
      CategoryFilterSnoc(a + init, x, category);
      CategoryFilterSnoc(init, x, category);
    } else if category != "" {
      assert a + b == a;
    }
  }

  /** A single drug passes the filter exactly when it is in the category. */
  lemma CategoryFilterOfOne(d: Drug, category: string)
    ensures CategoryFilter([d], category) == if category == "" || InCategory(d, category) then [d] else []
  {
    assert [d][..0] == [];
  }

  // ---------------------------------------------------------------- search

  const QueryRequired := "Search query is required"
  const DefaultSearchLimit := 20.0

  /** The data of a search response: the drugs shown and the number found. */
  datatype Found = Found(drugs: seq<Drug>, totalFound: nat)

  /** The index `slice(0, limit)` stops at in `n` matches, the limit being
      20 when the query string has none. */
  function ShownCount(n: nat, limit: JsValue, toNumber: string -> JsValue): nat {
    SliceEnd(n, ToInteger(Default(limit, Num(DefaultSearchLimit)), toNumber))
  }

  /** `/search`: a query is required; the matches are filtered by category,
      `slice(0, limit)` picks the ones shown, and `total_found` counts every
      filtered match. `matches` are the rows the database search returned
      for `q`; the limit is the raw query-string value. */
  function SearchDrugs(q: string, matches: seq<Drug>, category: string, limit: JsValue,
                       toNumber: string -> JsValue): (r: Result<Found, Refusal>)
    ensures r.Failure? <==> q == ""
    ensures r.Failure? ==> r.error == Refusal(BadRequest, QueryRequired)
    ensures r.Success? ==> r.value.totalFound == |CategoryFilter(matches, category)|
    ensures r.Success? ==> r.value.drugs <= CategoryFilter(matches, category)
    ensures r.Success? ==> |r.value.drugs| == ShownCount(r.value.totalFound, limit, toNumber)
  {
    if q == "" then Failure(Refusal(BadRequest, QueryRequired))
    else
      var filtered := CategoryFilter(matches, category);
      Success(Found(filtered[..ShownCount(|filtered|, limit, toNumber)], |filtered|))
  }

  /** A non-negative limit bounds what is shown, never what is counted: the
      search shows all its matches exactly when they fit within the limit.
      Without a limit that bound is 20. */
  lemma LimitOnlyTruncates(q: string, matches: seq<Drug>, category: string, limit: JsValue,
                           toNumber: string -> JsValue)
    requires q != ""
    requires ToInteger(Default(limit, Num(DefaultSearchLimit)), toNumber) >= 0
    ensures var r := SearchDrugs(q, matches, category, limit, toNumber).value;
      var k := ToInteger(Default(limit, Num(DefaultSearchLimit)), toNumber);
      |r.drugs| <= k && r.totalFound >= |r.drugs|
      && (r.drugs == CategoryFilter(matches, category) <==> r.totalFound <= k)
      && (limit == Undefined ==> k == 20)
  {
  }

  /** A negative limit counts back from the end: `limit=-1` shows every
      match but the last, and text that is not a number shows none. */
  lemma NegativeLimitDropsTail(q: string, matches: seq<Drug>, category: string, limit: JsValue,
                               toNumber: string -> JsValue)
    requires q != ""
    ensures var r := SearchDrugs(q, matches, category, limit, toNumber).value;
      var k := ToInteger(Default(limit, Num(DefaultSearchLimit)), toNumber);
      (k < 0 ==> |r.drugs| == if r.totalFound + k > 0 then r.totalFound + k else 0)
      && (limit.Str? && !toNumber(limit.s).Num? ==> r.drugs == [])
  {
  }

  // --------------------------------------------------- availability guards

  const DrugNameRequired := "Drug name is required"
  const CoordinatesRequired := "Location coordinates are required"
  const InvalidInput := "Invalid coordinates or radius"
  const DefaultRadius := 10.0

  /** The parsed centre and radius of an availability search. */
  datatype Area = Area(lat: real, lng: real, radius: real)

  /** The guards of `/available`, in order: a drug name, truthy coordinates,
      and numbers that `parseFloat` accepts (`parse` returns `None` for
      NaN). An absent radius is the number 10. */
  function AvailableArea(drugName: JsValue, lat: JsValue, lng: JsValue, radius: JsValue,
                         parse: JsValue -> Option<real>): (r: Result<Area, Refusal>)
    ensures !Truthy(drugName) ==> r == Failure(Refusal(BadRequest, DrugNameRequired))
    ensures Truthy(drugName) && !(Truthy(lat) && Truthy(lng)) ==> r == Failure(Refusal(BadRequest, CoordinatesRequired))
    ensures r.Success? <==> Truthy(drugName) && Truthy(lat) && Truthy(lng) && parse(lat).Some? && parse(lng).Some?
                            && parse(Default(radius, Num(DefaultRadius))).Some?
    ensures r.Failure? ==> r.error.status == BadRequest
    ensures r.Success? ==> r.value.lat == parse(lat).value && r.value.lng == parse(lng).value
    ensures r.Success? ==> r.value.radius == parse(Default(radius, Num(DefaultRadius))).value
    ensures r.Success? && radius == Undefined ==> r.value.radius == parse(Num(10.0)).value
  {
    if !Truthy(drugName) then Failure(Refusal(BadRequest, DrugNameRequired))
    else if !Truthy(lat) || !Truthy(lng) then Failure(Refusal(BadRequest, CoordinatesRequired))
    else
      var la, ln := parse(lat), parse(lng);
      var ra := parse(Default(radius, Num(DefaultRadius)));
      if la.None? || ln.None? || ra.None? then Failure(Refusal(BadRequest, InvalidInput))
      else Success(Area(la.value, ln.value, ra.value))
  }

  // ------------------------------------------------------------ categories

  /** The catalogue's categories: `[...new Set(names.filter(Boolean))]`. */
  function CategoryNames(drugs: seq<Drug>): (names: seq<string>)
    ensures forall i, j :: 0 <= i < j < |names| ==> names[i] != names[j]
    ensures forall c :: c in names <==> c != "" && exists d :: d in drugs && d.category == c
  {
    var cats := NonEmptyCategories(drugs);
    Dedup(cats)
  }

  /** The non-empty categories of the drugs, in catalogue order. */
  function NonEmptyCategories(drugs: seq<Drug>): (cats: seq<string>)
    ensures forall c :: c in cats <==> c != "" && exists d :: d in drugs && d.category == c
    ensures |cats| <= |drugs|
  {
    if |drugs| == 0 then []
    else
      var n := |drugs| - 1;
      assert drugs == drugs[..n] + [drugs[n]];
      NonEmptyCategories(drugs[..n]) + (if drugs[n].category != "" then [drugs[n].category] else [])
  }

  /** The number of drugs with category `c`. */
  function DrugCount(drugs: seq<Drug>, c: string): nat {
    if |drugs| == 0 then 0
    else DrugCount(drugs[..|drugs| - 1], c) + (if drugs[|drugs| - 1].category == c then 1 else 0)
  }

  const DefaultDescription := "Medication category"

  /** The descriptions of the known categories. */
  const Descriptions: map<string, string> := map[
    "Antibiotics" := "Medications that fight bacterial infections",
    "Pain Relievers" := "Medications for pain management",
    "Vitamins & Supplements" := "Nutritional supplements and vitamins",
    "Cardiovascular" := "Medications for heart and blood vessel conditions",
    "Diabetes" := "Medications for diabetes management",
    "Respiratory" := "Medications for breathing and lung conditions",
    "Mental Health" := "Medications for mental health conditions",
    "First Aid" := "Basic first aid supplies and medications"]

  /** A known category's description, the generic text otherwise. */
  function CategoryDescription(c: string): (r: string)
    ensures c in Descriptions ==> r == Descriptions[c]
    ensures r == DefaultDescription <==> c !in Descriptions
  {
    if c in Descriptions then Descriptions[c] else DefaultDescription
  }

  datatype CategoryEntry = CategoryEntry(name: string, description: string, drugCount: nat)

  /** `/categories`: each distinct category once, in order of first
      appearance, with its description and the number of its drugs. */
  function CategoryList(drugs: seq<Drug>): (r: seq<CategoryEntry>)
    ensures |r| == |CategoryNames(drugs)|
    ensures forall i :: 0 <= i < |r| ==>
      (r[i].name == CategoryNames(drugs)[i] && r[i].description == CategoryDescription(r[i].name)
       && r[i].drugCount == DrugCount(drugs, r[i].name))
  {
    var names := CategoryNames(drugs);
    seq(|names|, i requires 0 <= i < |names| => CategoryEntry(names[i], CategoryDescription(names[i]), DrugCount(drugs, names[i])))
  }

  /** Σ drug_count over a list of category entries. */
  function CountSum(entries: seq<CategoryEntry>): nat {
    if |entries| == 0 then 0 else CountSum(entries[..|entries| - 1]) + entries[|entries| - 1].drugCount
  }

  /** Σ DrugCount(drugs, c) over the names `cs`. */
  function CountsOver(drugs: seq<Drug>, cs: seq<string>): nat {
    if |cs| == 0 then 0 else CountsOver(drugs, cs[..|cs| - 1]) + DrugCount(drugs, cs[|cs| - 1])
  }

  /** How often `x` occurs in `cs`. */
  function Occurrences(cs: seq<string>, x: string): nat {
    if |cs| == 0 then 0 else Occurrences(cs[..|cs| - 1], x) + (if cs[|cs| - 1] == x then 1 else 0)
  }

  lemma {:induction false} OccurrencesOfDistinct(cs: seq<string>, x: string)
    requires forall i, j :: 0 <= i < j < |cs| ==> cs[i] != cs[j]
    ensures Occurrences(cs, x) == if x in cs then 1 else 0
  {
    if |cs| > 0 {
      var n := |cs| - 1;
      assert cs == cs[..n] + [cs[n]];
      OccurrencesOfDistinct(cs[..n], x);
      assert cs[n] !in cs[..n] by {
        forall i | 0 <= i < n ensures cs[..n][i] != cs[n] { assert cs[..n][i] == cs[i]; }
      }
    }
  }

  /** One more drug adds one to the sum over the names exactly as often as
      its category occurs among them. */
  lemma {:induction false} CountsOverSnoc(drugs: seq<Drug>, x: Drug, cs: seq<string>)
    ensures CountsOver(drugs + [x], cs) == CountsOver(drugs, cs) + Occurrences(cs, x.category)
  {
    if |cs| > 0 {
      var n := |cs| - 1;
      CountsOverSnoc(drugs, x, cs[..n]);
      assert (drugs + [x])[..|drugs|] == drugs;
    }
  }

  lemma {:induction false} CountsOverAppend(drugs: seq<Drug>, cs: seq<string>, c: string)
    ensures CountsOver(drugs, cs + [c]) == CountsOver(drugs, cs) + DrugCount(drugs, c)
  {
    assert (cs + [c])[..|cs|] == cs;
  }

  lemma {:induction false} DrugCountAbsent(drugs: seq<Drug>, c: string)
    requires forall d :: d in drugs ==> d.category != c
    ensures DrugCount(drugs, c) == 0
  {
    if |drugs| > 0 {
      var n := |drugs| - 1;
      assert drugs[n] in drugs;
      assert forall d :: d in drugs[..n] ==> d in drugs;
      DrugCountAbsent(drugs[..n], c);
    }
  }

  /** Summed over the distinct categories, the counts cover every drug that
      has a category exactly once. */
  lemma {:induction false} CountsCoverCategorised(drugs: seq<Drug>)
    ensures CountsOver(drugs, CategoryNames(drugs)) == |NonEmptyCategories(drugs)|
  {
    if |drugs| > 0 {
      var n := |drugs| - 1;
      var pre, x := drugs[..n], drugs[n];
      assert drugs == pre + [x];
      CountsCoverCategorised(pre);
      var names := CategoryNames(pre);
      CountsOverSnoc(pre, x, names);
      OccurrencesOfDistinct(names, x.category);
      var cats := NonEmptyCategories(pre);
      assert NonEmptyCategories(drugs) == cats + (if x.category != "" then [x.category] else []);
      if x.category == "" {
        assert NonEmptyCategories(drugs) == cats;
      } else {
        DedupSnoc(cats, x.category);
        if x.category !in names {
          assert CategoryNames(drugs) == names + [x.category];
          CountsOverAppend(drugs, names, x.category);
          assert forall d :: d in pre ==> d.category != x.category;
          DrugCountAbsent(pre, x.category);
          assert drugs[..n] == pre;
        } else {
          assert CategoryNames(drugs) == names;
        }
      }
    }
  }

  lemma {:induction false} CountSumIsCountsOver(drugs: seq<Drug>, r: seq<CategoryEntry>, names: seq<string>)
    requires |r| == |names|
    requires forall i :: 0 <= i < |r| ==> r[i].drugCount == DrugCount(drugs, names[i])
    ensures CountSum(r) == CountsOver(drugs, names)
  {
    if |r| > 0 {
      CountSumIsCountsOver(drugs, r[..|r| - 1], names[..|names| - 1]);
    }
  }

  /** The listed counts add up to the number of drugs that have a
      category: no categorised drug is missed or counted twice. */
  lemma CategoryCountsSum(drugs: seq<Drug>)
    ensures CountSum(CategoryList(drugs)) == |NonEmptyCategories(drugs)|
  {
    CountSumIsCountsOver(drugs, CategoryList(drugs), CategoryNames(drugs));
    CountsCoverCategorised(drugs);
  }
}
