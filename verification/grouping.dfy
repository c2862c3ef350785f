/** Folding flat (pharmacy, drug) rows into one group per pharmacy. The
    handlers build the groups row by row: the first row of a pharmacy creates
    its group, carrying that row's pharmacy fields, and every row appends its
    drug to its pharmacy's group. `GroupRows` is that fold; `GroupOf` is the
    independent description of one group, and the fold is proved to produce
    exactly the groups `GroupOf` describes, in order of first appearance. */
module Grouping {
  import opened Wrappers
  import opened Sorting

  /** A result row: the pharmacy id, the pharmacy fields, the drug fields. */
  datatype Row<P, D> = Row(key: int, meta: P, item: D)

  datatype Group<P, D> = Group(key: int, meta: P, items: seq<D>)

  function Keys<P, D>(rows: seq<Row<P, D>>): (ks: seq<int>)
    ensures |ks| == |rows| && forall i :: 0 <= i < |rows| ==> ks[i] == rows[i].key
  {
    seq(|rows|, i requires 0 <= i < |rows| => rows[i].key)
  }

  function GroupKeys<P, D>(gs: seq<Group<P, D>>): (ks: seq<int>)
    ensures |ks| == |gs| && forall i :: 0 <= i < |gs| ==> ks[i] == gs[i].key
  {
    seq(|gs|, i requires 0 <= i < |gs| => gs[i].key)
  }

  /** The drugs of the rows with key `k`, in row order. */
  function ItemsWithKey<P, D>(rows: seq<Row<P, D>>, k: int): seq<D> {
    if |rows| == 0 then []
    else
      var n := |rows| - 1;
      ItemsWithKey(rows[..n], k) + (if rows[n].key == k then [rows[n].item] else [])
  }

  /** The pharmacy fields of the first row with key `k`. */
  function FirstMeta<P, D>(rows: seq<Row<P, D>>, k: int): (m: P)
    requires k in Keys(rows)
    ensures exists i :: 0 <= i < |rows| && rows[i].key == k && rows[i].meta == m
                        && forall j :: 0 <= j < i ==> rows[j].key != k
  {
    var n := |rows| - 1;
    assert Keys(rows) == Keys(rows[..n]) + [rows[n].key];
    if k in Keys(rows[..n]) then
      var m := FirstMeta(rows[..n], k);
      assert exists i :: 0 <= i < n && rows[i].key == k && rows[i].meta == m
                         && forall j :: 0 <= j < i ==> rows[j].key != k by {
        var i :| 0 <= i < n && rows[..n][i].key == k && rows[..n][i].meta == m
                 && forall j :: 0 <= j < i ==> rows[..n][j].key != k;
        assert rows[i] == rows[..n][i];
        assert forall j :: 0 <= j < i ==> rows[j] == rows[..n][j];
      }
      m
    else
      assert forall j :: 0 <= j < n ==> rows[j].key != k by {
        forall j | 0 <= j < n ensures rows[j].key != k { assert Keys(rows[..n])[j] == rows[j].key; }
      }
      rows[n].meta
  }

  /** The group the handlers should produce for pharmacy `k`. */
  function GroupOf<P, D>(rows: seq<Row<P, D>>, k: int): Group<P, D>
    requires k in Keys(rows)
  {
    Group(k, FirstMeta(rows, k), ItemsWithKey(rows, k))
  }

  /** The position of the group with key `k`, if there is one. */
  function IndexOfKey<P, D>(gs: seq<Group<P, D>>, k: int): (r: Option<nat>)
    ensures r.None? <==> k !in GroupKeys(gs)
    ensures r.Some? ==> r.value < |gs| && gs[r.value].key == k
  {
    if |gs| == 0 then None
    else
      var n := |gs| - 1;
      assert GroupKeys(gs) == GroupKeys(gs[..n]) + [gs[n].key];
      if gs[n].key == k then Some(n) else IndexOfKey(gs[..n], k)
  }

  /** One step of the fold: append the drug to its pharmacy's group, or
      open a new group for a pharmacy not seen yet. */
  function Add<P, D>(gs: seq<Group<P, D>>, row: Row<P, D>): seq<Group<P, D>> {
    match IndexOfKey(gs, row.key)
    case Some(i) => gs[i := gs[i].(items := gs[i].items + [row.item])]
    case None => gs + [Group(row.key, row.meta, [row.item])]
  }

  /** `g` is the group of its pharmacy's rows. */
  ghost predicate IsGroupOf<P, D>(g: Group<P, D>, rows: seq<Row<P, D>>) {
    g.key in Keys(rows) && g == GroupOf(rows, g.key)
  }

  /** `gs` are the groups of `rows`: one per pharmacy in order of first
      appearance, each exactly as `GroupOf` describes it. */
  ghost predicate Describes<P, D>(gs: seq<Group<P, D>>, rows: seq<Row<P, D>>) {
    GroupKeys(gs) == Dedup(Keys(rows))
    && forall i :: 0 <= i < |gs| ==> gs[i].key in Keys(rows) && gs[i] == GroupOf(rows, gs[i].key)
  }

  /** The handlers' reduce over the rows. */
  function GroupRows<P, D>(rows: seq<Row<P, D>>): seq<Group<P, D>> {
    if |rows| == 0 then []
    else
      var n := |rows| - 1;
      Add(GroupRows(rows[..n]), rows[n])
  }

  lemma ItemsOfAbsentKey<P, D>(rows: seq<Row<P, D>>, k: int)
    requires k !in Keys(rows)
    ensures ItemsWithKey(rows, k) == []
  {
    if |rows| > 0 {
      var n := |rows| - 1;
      assert Keys(rows) == Keys(rows[..n]) + [rows[n].key];
      ItemsOfAbsentKey(rows[..n], k);
    }
  }

  /** How one more row changes the description of a group. */
  lemma GroupOfSnoc<P, D>(pre: seq<Row<P, D>>, x: Row<P, D>, k: int)
    requires k in Keys(pre) || k == x.key
    ensures Keys(pre + [x]) == Keys(pre) + [x.key]
    ensures k in Keys(pre) && k != x.key ==> GroupOf(pre + [x], k) == GroupOf(pre, k)
    ensures k in Keys(pre) && k == x.key ==>
      GroupOf(pre + [x], k) == GroupOf(pre, k).(items := GroupOf(pre, k).items + [x.item])
    ensures k !in Keys(pre) ==> GroupOf(pre + [x], k) == Group(x.key, x.meta, [x.item])
  {
    var rows := pre + [x];
    assert rows[..|pre|] == pre;
    assert Keys(rows) == Keys(pre) + [x.key];
    if k !in Keys(pre) {
      ItemsOfAbsentKey(pre, k);
    }
  }

  /** A row of a pharmacy that already has a group extends that group. */
  lemma AddExisting<P, D>(pre: seq<Row<P, D>>, x: Row<P, D>, acc: seq<Group<P, D>>, j: nat)
    requires Describes(acc, pre)
    requires IndexOfKey(acc, x.key) == Some(j)
    ensures Describes(Add(acc, x), pre + [x])
  {
    var rows := pre + [x];
    var r := Add(acc, x);
    GroupOfSnoc(pre, x, x.key);
    DedupSnoc(Keys(pre), x.key);
    assert GroupKeys(r) == GroupKeys(acc);
    forall i | 0 <= i < |r| ensures r[i].key in Keys(rows) && r[i] == GroupOf(rows, r[i].key) {
      GroupOfSnoc(pre, x, acc[i].key);
    }
  }

  /** A row of a pharmacy without a group opens a new group at the end. */
  lemma AddNew<P, D>(pre: seq<Row<P, D>>, x: Row<P, D>, acc: seq<Group<P, D>>)
    requires Describes(acc, pre)
    requires IndexOfKey(acc, x.key).None?
    ensures Describes(Add(acc, x), pre + [x])
  {
    var rows := pre + [x];
    var r := Add(acc, x);
    GroupOfSnoc(pre, x, x.key);
    DedupSnoc(Keys(pre), x.key);
    assert GroupKeys(r) == GroupKeys(acc) + [x.key];
    forall i | 0 <= i < |r| ensures r[i].key in Keys(rows) && r[i] == GroupOf(rows, r[i].key) {
      if i < |acc| {
        assert r[i] == acc[i];
        GroupOfSnoc(pre, x, acc[i].key);
      }
    }
  }

  /** Adding the last row to the groups of the other rows gives the groups
      of all rows. */
  lemma AddStep<P, D>(pre: seq<Row<P, D>>, x: Row<P, D>, acc: seq<Group<P, D>>)
    requires Describes(acc, pre)
    ensures Describes(Add(acc, x), pre + [x])
  {
    match IndexOfKey(acc, x.key)
    case Some(j) => AddExisting(pre, x, acc, j);
    case None => AddNew(pre, x, acc);
  }

  /** The reduce produces exactly the groups `GroupOf` describes, in order
      of first appearance. */
  lemma {:induction false} GroupRowsDescribes<P, D>(rows: seq<Row<P, D>>)
    ensures Describes(GroupRows(rows), rows)
  {
    if |rows| > 0 {
      var n := |rows| - 1;
      GroupRowsDescribes(rows[..n]);
      assert rows == rows[..n] + [rows[n]];
      AddStep(rows[..n], rows[n], GroupRows(rows[..n]));
    }
  }

  /** Every row's drug is listed in its pharmacy's group. */
  lemma RowInItsGroup<P, D>(rows: seq<Row<P, D>>, j: int)
    requires 0 <= j < |rows|
    ensures rows[j].item in ItemsWithKey(rows, rows[j].key)
  {
    var n := |rows| - 1;
    if j < n {
      assert rows[..n][j] == rows[j];
      RowInItsGroup(rows[..n], j);
    }
  }

  /** Σ number of drugs over the groups. */
  function TotalItems<P, D>(gs: seq<Group<P, D>>): nat {
    if |gs| == 0 then 0 else TotalItems(gs[..|gs| - 1]) + |gs[|gs| - 1].items|
  }

  lemma {:induction false} TotalItemsUpdate<P, D>(gs: seq<Group<P, D>>, i: int, g: Group<P, D>)
    requires 0 <= i < |gs|
    ensures TotalItems(gs[i := g]) + |gs[i].items| == TotalItems(gs) + |g.items|
  {
    var n := |gs| - 1;
    if i == n {
      assert gs[i := g][..n] == gs[..n];
    } else {
      assert gs[i := g][..n] == gs[..n][i := g];
      TotalItemsUpdate(gs[..n], i, g);
    }
  }

  /** The groups hold exactly as many drug entries as there were rows:
      together with `RowInItsGroup`, every row lands in exactly one entry. */
  lemma {:induction false} GroupRowsTotal<P, D>(rows: seq<Row<P, D>>)
    ensures TotalItems(GroupRows(rows)) == |rows|
  {
    if |rows| > 0 {
      var n := |rows| - 1;
      var acc := GroupRows(rows[..n]);
      GroupRowsTotal(rows[..n]);
      match IndexOfKey(acc, rows[n].key)
      case Some(j) =>
        TotalItemsUpdate(acc, j, acc[j].(items := acc[j].items + [rows[n].item]));
      case None =>
        var r := acc + [Group(rows[n].key, rows[n].meta, [rows[n].item])];
        assert r[..|r| - 1] == acc;
    }
  }

  predicate RowsByDistance<P, D>(rows: seq<Row<P, D>>, dist: P -> real) {
    forall i, j :: 0 <= i < j < |rows| ==> dist(rows[i].meta) <= dist(rows[j].meta)
  }

  predicate GroupsByDistance<P, D>(gs: seq<Group<P, D>>, dist: P -> real) {
    forall i, j :: 0 <= i < j < |gs| ==> dist(gs[i].meta) <= dist(gs[j].meta)
  }

  /** A row no nearer than every earlier row keeps the groups ordered. */
  lemma AddKeepsOrder<P, D>(pre: seq<Row<P, D>>, x: Row<P, D>, acc: seq<Group<P, D>>, dist: P -> real)
    requires Describes(acc, pre) && GroupsByDistance(acc, dist)
    requires forall i :: 0 <= i < |pre| ==> dist(pre[i].meta) <= dist(x.meta)
    ensures GroupsByDistance(Add(acc, x), dist)
  {
    var r := Add(acc, x);
    match IndexOfKey(acc, x.key)
    case Some(j) =>
      assert forall i :: 0 <= i < |r| ==> r[i].meta == acc[i].meta;
    case None =>
      forall i | 0 <= i < |acc| ensures dist(acc[i].meta) <= dist(x.meta) {
        var m := FirstMeta(pre, acc[i].key);
        var k :| 0 <= k < |pre| && pre[k].key == acc[i].key && pre[k].meta == m
                 && forall j :: 0 <= j < k ==> pre[j].key != acc[i].key;
      }
      assert r == acc + [Group(x.key, x.meta, [x.item])];
  }

  /** With rows already ordered by the pharmacy's distance (the SQL's
      `ORDER BY distance`), the groups come out ordered by distance too:
      each group keeps the fields of its first row. */
  lemma {:induction false} GroupsFollowRowOrder<P, D>(rows: seq<Row<P, D>>, dist: P -> real)
    requires RowsByDistance(rows, dist)
    ensures GroupsByDistance(GroupRows(rows), dist)
  {
    if |rows| > 0 {
      var n := |rows| - 1;
      var pre, x := rows[..n], rows[n];
      assert rows == pre + [x];
      assert RowsByDistance(pre, dist) by {
        forall i, j | 0 <= i < j < |pre| ensures dist(pre[i].meta) <= dist(pre[j].meta) {
          assert pre[i] == rows[i] && pre[j] == rows[j];
        }
      }
      GroupsFollowRowOrder(pre, dist);
      GroupRowsDescribes(pre);
      forall i | 0 <= i < |pre| ensures dist(pre[i].meta) <= dist(x.meta) {
        assert pre[i] == rows[i];
      }
      AddKeepsOrder(pre, x, GroupRows(pre), dist);
    }
  }

  /** `Object.values(groups).sort(by distance)`. The object's integer keys
      enumerate in ascending id order and the sort is stable, so the result
      is the groups ordered by distance, then by pharmacy id. */
  function SortByDistance<P, D>(gs: seq<Group<P, D>>, dist: P -> real): (r: seq<Group<P, D>>)
    ensures multiset(r) == multiset(gs)
    ensures forall i, j :: 0 <= i < j < |r| ==> dist(r[i].meta) <= dist(r[j].meta)
    ensures forall i, j :: 0 <= i < j < |r| && dist(r[i].meta) == dist(r[j].meta) ==> r[i].key <= r[j].key
  {
    var key := (g: Group<P, D>) => SortKey(0, dist(g.meta), g.key);
    var r := SortBy(gs, key);
    forall i, j | 0 <= i < j < |r|
      ensures dist(r[i].meta) <= dist(r[j].meta)
      ensures dist(r[i].meta) == dist(r[j].meta) ==> r[i].key <= r[j].key
    {
      assert KeyLe(key(r[i]), key(r[j]));
    }
    r
  }

  /** The group of a row's pharmacy lists that row's drug. */
  lemma RowHasGroup<P, D>(rows: seq<Row<P, D>>, j: int) returns (g: Group<P, D>)
    requires 0 <= j < |rows|
    ensures g in GroupRows(rows) && g.key == rows[j].key && rows[j].item in g.items
  {
    var gs := GroupRows(rows);
    GroupRowsDescribes(rows);
    var k := rows[j].key;
    assert Keys(rows)[j] == k;
    assert k in GroupKeys(gs);
    var i :| 0 <= i < |gs| && GroupKeys(gs)[i] == k;
    RowInItsGroup(rows, j);
    g := gs[i];
  }

  /** The groups are GroupOf's groups, one per distinct pharmacy. */
  lemma GroupsAreDescribed<P, D>(rows: seq<Row<P, D>>)
    ensures |GroupRows(rows)| == |Dedup(Keys(rows))|
    ensures forall g :: g in GroupRows(rows) ==> IsGroupOf(g, rows)
  {
    var gs := GroupRows(rows);
    GroupRowsDescribes(rows);
    assert |GroupKeys(gs)| == |gs|;
  }

  /** The reduce followed by the distance sort, as the client and drug
      search handlers do it. */
  function GroupAndSort<P, D>(rows: seq<Row<P, D>>, dist: P -> real): (r: seq<Group<P, D>>)
    ensures multiset(r) == multiset(GroupRows(rows))
    ensures GroupsByDistance(r, dist)
  {
    SortByDistance(GroupRows(rows), dist)
  }

  /** The handlers' response lists one group per distinct pharmacy, each as
      `GroupOf` describes it. */
  lemma GroupAndSortDescribed<P, D>(rows: seq<Row<P, D>>, dist: P -> real)
    ensures |GroupAndSort(rows, dist)| == |Dedup(Keys(rows))|
    ensures forall g :: g in GroupAndSort(rows, dist) ==> IsGroupOf(g, rows)
  {
    var r := GroupAndSort(rows, dist);
    assert |r| == |GroupRows(rows)| by { assert |multiset(r)| == |multiset(GroupRows(rows))|; }
    GroupsAreDescribed(rows);
    forall g | g in r ensures IsGroupOf(g, rows) {
      assert g in multiset(GroupRows(rows));
    }
  }

  /** Every row's drug is in its pharmacy's group of the response. */
  lemma GroupAndSortCovers<P, D>(rows: seq<Row<P, D>>, dist: P -> real, j: int)
    requires 0 <= j < |rows|
    ensures exists g :: g in GroupAndSort(rows, dist) && g.key == rows[j].key && rows[j].item in g.items
  {
    var g := RowHasGroup(rows, j);
    assert g in multiset(GroupRows(rows));
  }

  /** The data of a grouped search response: the pharmacy count and the
      groups. */
  datatype Grouped<P, D> = Grouped(totalPharmacies: nat, pharmacies: seq<Group<P, D>>)

  /** The grouped response for the rows a search returned; `dist` reads the
      pharmacy's distance. */
  function GroupedResponse<P, D>(rows: seq<Row<P, D>>, dist: P -> real): (r: Grouped<P, D>)
    ensures r.totalPharmacies == |r.pharmacies| == |Dedup(Keys(rows))|
    ensures forall g :: g in r.pharmacies ==> IsGroupOf(g, rows)
    ensures GroupsByDistance(r.pharmacies, dist)
  {
    GroupAndSortDescribed(rows, dist);
    var gs := GroupAndSort(rows, dist);
    Grouped(|gs|, gs)
  }

  /** Every row a search returned is listed under its pharmacy. */
  lemma GroupedResponseListsEveryRow<P, D>(rows: seq<Row<P, D>>, dist: P -> real, j: int)
    requires 0 <= j < |rows|
    ensures exists g :: g in GroupedResponse(rows, dist).pharmacies && g.key == rows[j].key && rows[j].item in g.items
  {
    GroupAndSortCovers(rows, dist, j);
  }

  // ------------------------------------------------ grouping with a lookup

  /** A drug row whose pharmacy fields are fetched separately. */
  datatype Item<D> = Item(key: int, item: D)

  /** The drug rows whose pharmacy the lookup finds and admits, joined with
      the pharmacy fields it returns. */
  function Admitted<P, D>(xs: seq<Item<D>>, lookup: int -> Option<P>, admit: P -> bool): (rows: seq<Row<P, D>>)
    ensures forall i :: 0 <= i < |rows| ==>
      (lookup(rows[i].key).Some? && admit(lookup(rows[i].key).value) && rows[i].meta == lookup(rows[i].key).value)
  {
    if |xs| == 0 then []
    else
      var n := |xs| - 1;
      var x := xs[n];
      var p := lookup(x.key);
      Admitted(xs[..n], lookup, admit) + (if p.Some? && admit(p.value) then [Row(x.key, p.value, x.item)] else [])
  }

  /** One pass of the Map-based loop of the non-location search: for a
      pharmacy not yet grouped, look it up and open a group only when it is
      admitted; then append the drug if its pharmacy has a group. */
  function LookupStep<P, D>(acc: seq<Group<P, D>>, x: Item<D>, lookup: int -> Option<P>, admit: P -> bool): seq<Group<P, D>> {
    var p := lookup(x.key);
    var withGroup := if IndexOfKey(acc, x.key).None? && p.Some? && admit(p.value)
                     then acc + [Group(x.key, p.value, [])] else acc;
    match IndexOfKey(withGroup, x.key)
    case Some(i) => withGroup[i := withGroup[i].(items := withGroup[i].items + [x.item])]
    case None => withGroup
  }

  /** The whole loop. */
  function GroupWithLookup<P, D>(xs: seq<Item<D>>, lookup: int -> Option<P>, admit: P -> bool): seq<Group<P, D>> {
    if |xs| == 0 then []
    else
      var n := |xs| - 1;
      LookupStep(GroupWithLookup(xs[..n], lookup, admit), xs[n], lookup, admit)
  }

  /** For an admitted pharmacy, the loop's pass is the fold's step. */
  lemma LookupStepAdmitted<P, D>(acc: seq<Group<P, D>>, x: Item<D>, lookup: int -> Option<P>, admit: P -> bool)
    requires lookup(x.key).Some? && admit(lookup(x.key).value)
    ensures LookupStep(acc, x, lookup, admit) == Add(acc, Row(x.key, lookup(x.key).value, x.item))
  {
    if IndexOfKey(acc, x.key).None? {
      var withGroup := acc + [Group(x.key, lookup(x.key).value, [])];
      assert GroupKeys(withGroup) == GroupKeys(acc) + [x.key];
      assert IndexOfKey(withGroup, x.key) == Some(|acc|);
      var g := Group(x.key, lookup(x.key).value, [x.item]);
      assert withGroup[|acc|].items + [x.item] == [x.item];
      assert withGroup[|acc|].(items := [x.item]) == g;
      assert withGroup[|acc| := withGroup[|acc|].(items := withGroup[|acc|].items + [x.item])] == acc + [g];
    }
  }

  /** For a pharmacy that is missing, not admitted and not grouped, the pass
      changes nothing. */
  lemma LookupStepRejected<P, D>(acc: seq<Group<P, D>>, x: Item<D>, lookup: int -> Option<P>, admit: P -> bool)
    requires !(lookup(x.key).Some? && admit(lookup(x.key).value))
    requires x.key !in GroupKeys(acc)
    ensures LookupStep(acc, x, lookup, admit) == acc
  {
  }

  /** Every key of the admitted rows has an admitted pharmacy. */
  lemma AdmittedKeys<P, D>(xs: seq<Item<D>>, lookup: int -> Option<P>, admit: P -> bool, k: int)
    requires k in Keys(Admitted(xs, lookup, admit))
    ensures lookup(k).Some? && admit(lookup(k).value)
  {
    var rows := Admitted(xs, lookup, admit);
    var i :| 0 <= i < |rows| && Keys(rows)[i] == k;
    assert rows[i].key == k;
  }

  /** The lookup loop groups exactly the admitted rows: a drug whose
      pharmacy is missing or not admitted yields neither a group nor an
      entry. */
  lemma {:induction false} GroupWithLookupIsGroupRows<P, D>(xs: seq<Item<D>>, lookup: int -> Option<P>, admit: P -> bool)
    ensures GroupWithLookup(xs, lookup, admit) == GroupRows(Admitted(xs, lookup, admit))
  {
    if |xs| > 0 {
      var n := |xs| - 1;
      var x := xs[n];
      var pre := Admitted(xs[..n], lookup, admit);
      GroupWithLookupIsGroupRows(xs[..n], lookup, admit);
      var acc := GroupRows(pre);
      assert GroupWithLookup(xs, lookup, admit) == LookupStep(acc, x, lookup, admit);
      if lookup(x.key).Some? && admit(lookup(x.key).value) {
        var row := Row(x.key, lookup(x.key).value, x.item);
        var rows := pre + [row];
        assert Admitted(xs, lookup, admit) == rows;
        assert rows[..|rows| - 1] == pre;
        assert GroupRows(rows) == Add(acc, row);
        LookupStepAdmitted(acc, x, lookup, admit);
      } else {
        assert Admitted(xs, lookup, admit) == pre;
        assert x.key !in Keys(pre) by {
          forall k | k in Keys(pre) ensures k != x.key { AdmittedKeys(xs[..n], lookup, admit, k); }
        }
        GroupRowsDescribes(pre);
        LookupStepRejected(acc, x, lookup, admit);
      }
    }
  }
}
