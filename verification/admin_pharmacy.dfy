/** The admin pharmacy routes: the bearer-token check, the multi-row VALUES
    insert of a registration's inventory, the registration transaction, the
    add-or-update of one inventory item, and the detail statistics. Dates are
    day numbers; "now" is a parameter. */
module AdminPharmacy {
  import opened Wrappers
  import Js
  import opened Http
  import opened Sql
  import Text
  import Stock
  import C = Calculations

  // ------------------------------------------------------------ verifyAdmin

  const AdminToken := "admin-token"
  const NoToken := "No token provided"
  const AdminRequired := "Admin access required"

  /** `req.headers.authorization?.split(' ')[1]`: the second space-separated
      piece of the header, if there is one. */
  function BearerToken(authorization: Option<string>): (t: Option<string>)
    ensures t.Some? <==> authorization.Some? && ' ' in authorization.value
  {
    if authorization.None? then None
    else
      var pieces := Text.Split(authorization.value, ' ');
      SplitHasSecondPiece(authorization.value);
      if |pieces| >= 2 then Some(pieces[1]) else None
  }

  /** A string splits into two or more pieces exactly when it holds the
      separator. */
  lemma {:induction false} SplitHasSecondPiece(s: string)
    ensures |Text.Split(s, ' ')| >= 2 <==> ' ' in s
    decreases |s|
  {
    if |s| > 0 {
      SplitHasSecondPiece(s[1..]);
      assert ' ' in s <==> s[0] == ' ' || ' ' in s[1..] by {
        assert s == [s[0]] + s[1..];
      }
    }
  }

  /** `verifyAdmin`: 401 with no (or an empty) token, proceed on exactly
      'admin-token', 403 for any other token. */
  function VerifyAdmin(authorization: Option<string>): (r: Result<string, Refusal>)
    ensures r.Success? <==> BearerToken(authorization) == Some(AdminToken)
    ensures r.Failure? && r.error.status == Unauthorized <==> BearerToken(authorization) in {None, Some("")}
    ensures r.Failure? ==> r.error == Refusal(Unauthorized, NoToken) || r.error == Refusal(Forbidden, AdminRequired)
  {
    var t := BearerToken(authorization);
    if t.None? || t.value == "" then Failure(Refusal(Unauthorized, NoToken))
    else if t.value == AdminToken then Success(t.value)
    else Failure(Refusal(Forbidden, AdminRequired))
  }

  /** The scheme word is never looked at: `<scheme> <token>` yields the
      token for any space-free scheme and token. */
  lemma SchemeThenToken(scheme: string, token: string)
    requires ' ' !in scheme && ' ' !in token
    ensures BearerToken(Some(scheme + " " + token)) == Some(token)
  {
    var s := scheme + " " + token;
    assert s[..|scheme|] == scheme && s[|scheme| + 1..] == token;
    assert s[|scheme|] == ' ';
    SplitKeepsPrefix(s, |scheme|);
    SplitNoSeparator(token);
    var pieces := Text.Split(s, ' ');
    assert pieces == [scheme, token];
  }

  /** Any space-free scheme word followed by 'admin-token' is let through:
      'Bearer admin-token' and 'Token admin-token' alike. */
  lemma AnySchemePasses(scheme: string)
    requires ' ' !in scheme
    ensures VerifyAdmin(Some(scheme + " " + AdminToken)).Success?
  {
    assert ' ' !in AdminToken;
    SchemeThenToken(scheme, AdminToken);
  }

  /** A second space right after the scheme makes the token empty, which
      is answered as if there were no token. */
  lemma DoubleSpaceIsNoToken(scheme: string, rest: string)
    requires ' ' !in scheme
    ensures VerifyAdmin(Some(scheme + "  " + rest)) == Failure(Refusal(Unauthorized, NoToken))
  {
    var s := scheme + "  " + rest;
    assert s[..|scheme|] == scheme && s[|scheme| + 1..] == " " + rest;
    SplitKeepsPrefix(s, |scheme|);
    SplitKeepsPrefix(" " + rest, 0);
  }

  /** A string without the separator is one piece. */
  lemma {:induction false} SplitNoSeparator(s: string)
    requires ' ' !in s
    ensures Text.Split(s, ' ') == [s]
    decreases |s|
  {
    if |s| > 0 {
      assert ' ' !in s[1..] by { forall c | c in s[1..] ensures c != ' ' { assert c in s; } }
      SplitNoSeparator(s[1..]);
      assert s == [s[0]] + s[1..];
    }
  }

  /** When the first separator is at `k`, the first piece is `s[..k]` and
      the rest is the split of what follows it. */
  lemma {:induction false} SplitKeepsPrefix(s: string, k: nat)
    requires k < |s| && s[k] == ' ' && ' ' !in s[..k]
    ensures Text.Split(s, ' ') == [s[..k]] + Text.Split(s[k + 1..], ' ')
    decreases k
  {
    if k == 0 {
      assert s[1..] == s[k + 1..];
    } else {
      assert s[1..][..k - 1] == s[..k][1..];
      SplitKeepsPrefix(s[1..], k - 1);
      assert s[1..][k..] == s[k + 1..];
      assert s[..k] == [s[0]] + s[1..][..k - 1];
    }
  }

  // ------------------------------------------------------ batch inventory

  /** An inventory item of a registration. */
  datatype Item = Item(name: Value, price: Value, stock: Value, expiry: Value)

  /** The five values of one item's row: pharmacy, name, price, stock,
      expiry. */
  function Row(pharmacyId: Value, it: Item): seq<Value> {
    [pharmacyId, it.name, it.price, it.stock, it.expiry]
  }

  /** `inventoryValues.flat()`. */
  function FlatValues(pharmacyId: Value, items: seq<Item>): (vs: seq<Value>)
    ensures |vs| == 5 * |items|
  {
    if |items| == 0 then [] else Row(pharmacyId, items[0]) + FlatValues(pharmacyId, items[1..])
  }

  /** One `(?, ?, ?, ?, ?)` group per item, joined with ', '. */
  function Groups(pharmacyId: Value, items: seq<Item>, first: bool): (q: Query)
    ensures AllBound(q) && |q| == |items|
    ensures Params(q) == FlatValues(pharmacyId, items)
  {
    if |items| == 0 then []
    else
      var g := Tmpl([(if first then "" else ", ") + "(", ", ", ", ", ", ", ", ", ")"], Row(pharmacyId, items[0]));
      var rest := Groups(pharmacyId, items[1..], false);
      assert Params([g]) == g.args by { assert [g][1..] == []; }
      Append([g], rest);
      [g] + rest
  }

  const BatchInsertHead := "INSERT INTO drugs (pharmacy_id, name, price, stock, expiry_date) VALUES "

  /** The multi-row INSERT: placeholders equal params, five per item. */
  function BatchInsert(pharmacyId: Value, items: seq<Item>): (q: Query)
    ensures AllBound(q) && Params(q) == FlatValues(pharmacyId, items)
    ensures Placeholders(q) == |Params(q)| == 5 * |items|
  {
    var head := [Fixed(BatchInsertHead)];
    var gs := Groups(pharmacyId, items, true);
    assert Params(head) == [] by { assert head[1..] == []; }
    Append(head, gs);
    BoundCount(head + gs);
    head + gs
  }

  /** The k-th group of five values is the k-th item's row: every value
      binds the placeholder of its own item and column. */
  lemma {:induction false} FlatValuesRow(pharmacyId: Value, items: seq<Item>, k: nat)
    requires k < |items|
    ensures FlatValues(pharmacyId, items)[5 * k .. 5 * k + 5] == Row(pharmacyId, items[k])
  {
    var vs := FlatValues(pharmacyId, items);
    assert vs == Row(pharmacyId, items[0]) + FlatValues(pharmacyId, items[1..]);
    if k > 0 {
      FlatValuesRow(pharmacyId, items[1..], k - 1);
      assert vs[5 * k .. 5 * k + 5] == FlatValues(pharmacyId, items[1..])[5 * (k - 1) .. 5 * (k - 1) + 5];
    }
  }

  // ------------------------------------------------- registration transaction

  /** What the registration transaction ends with: committed, with the
      inventory insert when one ran and the item count logged; or rolled
      back. */
  datatype Outcome = Committed(batch: Option<Query>, loggedItems: nat) | RolledBack

  /** The registration as written: the insert is skipped for a missing or
      empty inventory, but the log entry reads `inventory.length`
      unguarded, so a missing inventory throws and rolls back. */
  function RegisterAsWritten(pharmacyId: Value, inventory: Option<seq<Item>>): (o: Outcome)
    ensures o.RolledBack? <==> inventory.None?
    ensures o.Committed? ==> o.loggedItems == |inventory.value|
    ensures o.Committed? ==> (o.batch.Some? <==> |inventory.value| > 0)
  {
    if inventory.Some? && |inventory.value| > 0 then Committed(Some(BatchInsert(pharmacyId, inventory.value)), |inventory.value|)
    else if inventory.None? then RolledBack
    else Committed(None, 0)
  }

  /** A registration without an inventory field fails, although the guard on
      the insert was written to let it through. */
  lemma MissingInventoryRollsBack(pharmacyId: Value)
    ensures RegisterAsWritten(pharmacyId, None) == RolledBack
  {
  }

  /** The registration with the length read guarded like the insert: a
      missing inventory registers the pharmacy with no items. */
  function Register(pharmacyId: Value, inventory: Option<seq<Item>>): (o: Outcome)
    ensures o.Committed?
    ensures o.batch.Some? <==> inventory.Some? && |inventory.value| > 0
    ensures o.loggedItems == if inventory.Some? then |inventory.value| else 0
    ensures o.batch.Some? ==> Placeholders(o.batch.value) == 5 * o.loggedItems
  {
    if inventory.Some? && |inventory.value| > 0 then
      Committed(Some(BatchInsert(pharmacyId, inventory.value)), |inventory.value|)
    else Committed(None, 0)
  }

  /** The two agree on every registration that carries an inventory. */
  lemma RegisterAgreesWhenPresent(pharmacyId: Value, items: seq<Item>)
    ensures Register(pharmacyId, Some(items)) == RegisterAsWritten(pharmacyId, Some(items))
  {
  }

  // ------------------------------------------------------ add/update drug

  const Updated := "updated"
  const Added := "added"
  const UpdatedMessage := "Drug updated successfully"
  const AddedMessage := "Drug added successfully"

  /** The texts around the placeholders of the item update and insert. */
  const UpdateDrugText := ["UPDATE drugs SET price = ", ", stock = ", ", expiry_date = ",
                           ", updated_at = NOW() WHERE id = ", ""]
  const InsertDrugText := ["INSERT INTO drugs (pharmacy_id, name, price, stock, expiry_date) VALUES (",
                           ", ", ", ", ", ", ", ", ")"]

  /** What adding an inventory item does: the statement, the drug id it
      reports, the action it logs and the message it answers with. */
  datatype Upsert = Upsert(query: Query, drugId: Value, action: string, message: string)

  /** `existing` holds the ids the lookup by (pharmacy, name) found; with
      one, the first is updated (price, stock, expiry, stamped); without,
      a row is inserted and `newId` is its id. */
  function UpsertItem(existing: seq<Value>, pharmacyId: Value, name: Value, price: Value, stock: Value,
                      expiry: Value, newId: Value): (u: Upsert)
    ensures AllBound(u.query)
    ensures |existing| > 0 ==> u.drugId == existing[0] && Params(u.query) == [price, stock, expiry, existing[0]]
    ensures |existing| == 0 ==> u.drugId == newId && Params(u.query) == [pharmacyId, name, price, stock, expiry]
    ensures u.action == (if |existing| > 0 then Updated else Added)
    ensures u.message == (if |existing| > 0 then UpdatedMessage else AddedMessage)
  {
    if |existing| > 0 then
      var c := Tmpl(UpdateDrugText,
                    [price, stock, expiry, existing[0]]);
      Single(c);
      Upsert([c], existing[0], Updated, UpdatedMessage)
    else
      var c := Tmpl(InsertDrugText,
                    [pharmacyId, name, price, stock, expiry]);
      Single(c);
      Upsert([c], newId, Added, AddedMessage)
  }

  /** The logged action and the message always tell the same story. */
  lemma UpsertMessageMatchesAction(existing: seq<Value>, pharmacyId: Value, name: Value, price: Value, stock: Value,
                                   expiry: Value, newId: Value)
    ensures var u := UpsertItem(existing, pharmacyId, name, price, stock, expiry, newId);
            (u.action == Updated <==> u.message == UpdatedMessage)
            && (u.action == Added <==> u.message == AddedMessage)
  {
  }

  // ------------------------------------------------------------ detail stats

  /** A drug row of the details page: stock and expiry day (`None` for a
      NULL expiry, which `new Date(null)` reads as day 0). */
  datatype DrugRow = DrugRow(stock: int, expiry: Option<int>)

  /** The expiry day the comparison sees. */
  function ExpiryDay(d: DrugRow): int {
    d.expiry.GetOr(0)
  }

  /** Thirty days from `today`, inclusive; expired drugs count too. */
  predicate ExpiringSoon(d: DrugRow, today: int) {
    ExpiryDay(d) <= today + 30
  }

  datatype DetailStats = DetailStats(totalDrugs: nat, lowStockItems: nat, expiringSoon: nat)

  function LowCount(drugs: seq<DrugRow>): nat {
    if |drugs| == 0 then 0 else (if Stock.LowFlag(drugs[0].stock) then 1 else 0) + LowCount(drugs[1..])
  }

  function ExpiringCount(drugs: seq<DrugRow>, today: int): nat {
    if |drugs| == 0 then 0 else (if ExpiringSoon(drugs[0], today) then 1 else 0) + ExpiringCount(drugs[1..], today)
  }

  /** The `stats` of the details page. */
  function Stats(drugs: seq<DrugRow>, today: int): (s: DetailStats)
    ensures s.totalDrugs == |drugs|
    ensures s.lowStockItems <= s.totalDrugs && s.expiringSoon <= s.totalDrugs
    ensures s.lowStockItems == |C.LowStockItems(AsStockItems(drugs))|
    ensures s.expiringSoon == |ExpiringIndices(drugs, today)|
  {
    LowCountBound(drugs);
    ExpiringCountBound(drugs, today);
    ExpiringCountIsIndices(drugs, today);
    LowCountIsLowStockItems(drugs);
    DetailStats(|drugs|, LowCount(drugs), ExpiringCount(drugs, today))
  }

  lemma {:induction false} LowCountBound(drugs: seq<DrugRow>)
    ensures LowCount(drugs) <= |drugs|
  {
    if |drugs| > 0 { LowCountBound(drugs[1..]); }
  }

  lemma {:induction false} ExpiringCountBound(drugs: seq<DrugRow>, today: int)
    ensures ExpiringCount(drugs, today) <= |drugs|
  {
    if |drugs| > 0 { ExpiringCountBound(drugs[1..], today); }
  }

  /** The positions of the rows `inventory.filter` keeps for `expiringSoon`. */
  function ExpiringIndices(drugs: seq<DrugRow>, today: int): set<int> {
    set i | 0 <= i < |drugs| && ExpiringSoon(drugs[i], today)
  }

  lemma {:induction false} ExpiringCountSnoc(drugs: seq<DrugRow>, x: DrugRow, today: int)
    ensures ExpiringCount(drugs + [x], today) == ExpiringCount(drugs, today) + (if ExpiringSoon(x, today) then 1 else 0)
  {
    if |drugs| > 0 {
      assert (drugs + [x])[1..] == drugs[1..] + [x];
      ExpiringCountSnoc(drugs[1..], x, today);
    } else {
      assert [x][1..] == [];
    }
  }

  /** The expiring positions of a list with one more drug: those of the
      shorter list, plus the new position when its drug expires soon. */
  lemma ExpiringIndicesSnoc(drugs: seq<DrugRow>, today: int)
    requires |drugs| > 0
    ensures var n := |drugs| - 1;
      ExpiringIndices(drugs, today)
      == ExpiringIndices(drugs[..n], today) + (if ExpiringSoon(drugs[n], today) then {n} else {})
  {
    var n := |drugs| - 1;
    forall i | 0 <= i < n ensures drugs[..n][i] == drugs[i] { }
  }

  /** The recursive count is the number of expiring positions: the details
      page's `expiringSoon` counts every row due within 30 days, expired
      ones included. */
  lemma {:induction false} ExpiringCountIsIndices(drugs: seq<DrugRow>, today: int)
    ensures ExpiringCount(drugs, today) == |ExpiringIndices(drugs, today)|
    decreases |drugs|
  {
    if |drugs| > 0 {
      var n := |drugs| - 1;
      assert drugs == drugs[..n] + [drugs[n]];
      ExpiringCountIsIndices(drugs[..n], today);
      ExpiringCountSnoc(drugs[..n], drugs[n], today);
      ExpiringIndicesSnoc(drugs, today);
      assert n !in ExpiringIndices(drugs[..n], today);
    } else {
      assert ExpiringIndices(drugs, today) == {};
    }
  }

  /** The rows as the inventory helpers' items (price is not read). */
  function AsStockItems(drugs: seq<DrugRow>): (inv: seq<C.StockItem>)
    ensures |inv| == |drugs|
    ensures forall i :: 0 <= i < |drugs| ==> inv[i].quantity == drugs[i].stock
  {
    seq(|drugs|, i requires 0 <= i < |drugs| => C.StockItem(drugs[i].stock, 0.0))
  }

  /** The details page counts low stock with the same `< 10` flag as the
      inventory helper's `getLowStockItems`. */
  lemma {:induction false} LowCountIsLowStockItems(drugs: seq<DrugRow>)
    ensures LowCount(drugs) == |C.LowStockItems(AsStockItems(drugs))|
  {
    if |drugs| > 0 {
      LowCountIsLowStockItems(drugs[1..]);
      assert AsStockItems(drugs)[1..] == AsStockItems(drugs[1..]);
    }
  }

  /** A drug that has already expired, and one without an expiry date,
      count as expiring soon. */
  lemma ExpiredCounts(today: int, day: int)
    requires day <= today && today >= -30
    ensures Stats([DrugRow(5, Some(day))], today).expiringSoon == 1
    ensures Stats([DrugRow(5, None)], today).expiringSoon == 1
  {
  }
}
