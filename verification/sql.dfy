/** Parameterised SQL as the models and routes build it: a query is a list of
    clauses, each holding its text, its `?` placeholders and the values it
    pushes onto the params array. The repository appends a clause's text and
    its values in the same `if` branch; `Alignment` proves that, whenever every
    clause carries as many values as placeholders, the k-th `?` of the whole
    query binds the k-th param and both come from the same clause. */
module Sql {
  import opened Wrappers
  import Js

  /** A value bound to a placeholder. `Json(v)` is `JSON.stringify(v)`;
      `Raw(v)` is a request value bound as it arrived. */
  datatype Value = Num(n: real) | Int(i: int) | Str(s: string) | Bool(b: bool) | Null | Json(inner: Value)
                 | Raw(v: Js.JsValue)

  /** SQL text (written without `?`) or one `?` placeholder. */
  datatype Tok = Text(s: string) | Ph

  datatype Clause = Clause(toks: seq<Tok>, args: seq<Value>)

  type Query = seq<Clause>

  function Holes(toks: seq<Tok>): nat {
    if |toks| == 0 then 0 else (if toks[0].Ph? then 1 else 0) + Holes(toks[1..])
  }

  /** A clause binds exactly as many values as it has placeholders. */
  predicate Bound(c: Clause) {
    Holes(c.toks) == |c.args|
  }

  predicate AllBound(q: Query) {
    forall i :: 0 <= i < |q| ==> Bound(q[i])
  }

  /** The query's tokens, clause after clause. */
  function Toks(q: Query): seq<Tok> {
    if |q| == 0 then [] else q[0].toks + Toks(q[1..])
  }

  /** The params array: every clause's values, clause after clause. */
  function Params(q: Query): seq<Value> {
    if |q| == 0 then [] else q[0].args + Params(q[1..])
  }

  function Render(toks: seq<Tok>): string {
    if |toks| == 0 then ""
    else (match toks[0] case Text(s) => s case Ph => "?") + Render(toks[1..])
  }

  /** The SQL string sent to the driver. */
  function SqlText(q: Query): string {
    Render(Toks(q))
  }

  /** The placeholder count of the whole query. */
  function Placeholders(q: Query): nat {
    Holes(Toks(q))
  }

  lemma {:induction false} HolesConcat(a: seq<Tok>, b: seq<Tok>)
    ensures Holes(a + b) == Holes(a) + Holes(b)
  {
    if |a| > 0 {
      assert (a + b)[1..] == a[1..] + b;
      HolesConcat(a[1..], b);
    } else {
      assert a + b == b;
    }
  }

  lemma {:induction false} ParamsConcat(a: Query, b: Query)
    ensures Params(a + b) == Params(a) + Params(b)
  {
    if |a| > 0 {
      assert (a + b)[1..] == a[1..] + b;
      ParamsConcat(a[1..], b);
    } else {
      assert a + b == b;
    }
  }

  lemma {:induction false} PlaceholdersConcat(a: Query, b: Query)
    ensures Placeholders(a + b) == Placeholders(a) + Placeholders(b)
  {
    if |a| > 0 {
      assert (a + b)[1..] == a[1..] + b;
      PlaceholdersConcat(a[1..], b);
      HolesConcat(a[0].toks, Toks(a[1..] + b));
      HolesConcat(a[0].toks, Toks(a[1..]));
    } else {
      assert a + b == b;
    }
  }

  /** The clause holding the k-th placeholder, and its rank inside that clause. */
  function HoleAt(q: Query, k: nat): (r: (nat, nat))
    requires k < Placeholders(q)
    ensures r.0 < |q|
  {
    HolesConcat(q[0].toks, Toks(q[1..]));
    var h := Holes(q[0].toks);
    if k < h then (0, k)
    else var (i, j) := HoleAt(q[1..], k - h); (i + 1, j)
  }

  /** The clause that pushed the k-th param, and its rank inside that clause. */
  function ParamAt(q: Query, k: nat): (r: (nat, nat))
    requires k < |Params(q)|
    ensures r.0 < |q| && r.1 < |q[r.0].args|
    ensures Params(q)[k] == q[r.0].args[r.1]
  {
    var n := |q[0].args|;
    if k < n then (0, k)
    else var (i, j) := ParamAt(q[1..], k - n); (i + 1, j)
  }

  /** When every clause is bound, the query has as many placeholders as
      params. */
  lemma {:induction false} BoundCount(q: Query)
    requires AllBound(q)
    ensures Placeholders(q) == |Params(q)|
  {
    if |q| > 0 {
      assert AllBound(q[1..]) by {
        forall i | 0 <= i < |q[1..]| ensures Bound(q[1..][i]) { assert q[1..][i] == q[i + 1]; }
      }
      BoundCount(q[1..]);
      HolesConcat(q[0].toks, Toks(q[1..]));
      assert Bound(q[0]);
    }
  }

  /** A bound clause in front of a bound query: its values come first. */
  lemma Cons(c: Clause, q: Query)
    requires Bound(c) && AllBound(q)
    ensures AllBound([c] + q)
    ensures Params([c] + q) == c.args + Params(q)
  {
    assert ([c] + q)[1..] == q;
    forall i | 0 <= i < |[c] + q| ensures Bound(([c] + q)[i]) {
      if i > 0 { assert ([c] + q)[i] == q[i - 1]; }
    }
  }

  /** A query of one bound clause is bound and binds that clause's values. */
  lemma Single(c: Clause)
    requires Bound(c)
    ensures AllBound([c]) && Params([c]) == c.args
  {
    assert [c][1..] == [];
  }

  /** A bound clause after a bound query: its values come last. */
  lemma Snoc(q: Query, c: Clause)
    requires AllBound(q) && Bound(c)
    ensures AllBound(q + [c])
    ensures Params(q + [c]) == Params(q) + c.args
  {
    Append(q, [c]);
    assert [c][1..] == [];
  }

  /** Concatenation regrouped, stated once so that callers need not
      rediscover it on large terms. */
  lemma Regroup<T>(a: seq<T>, b: seq<T>, c: seq<T>, d: seq<T>)
    ensures a + (b + c) + d == a + b + c + d
  {
  }

  /** Where the parts of `[h] + (a + b) + [t]` sit, stated once so that
      callers need not rediscover it on large terms. */
  lemma Framed<T>(h: T, a: seq<T>, b: seq<T>, t: T)
    ensures var q := [h] + (a + b) + [t];
      |q| == |a| + |b| + 2 && q[0] == h && q[|q| - 1] == t
      && (forall i :: 0 <= i < |a| ==> q[1 + i] == a[i])
      && (forall i :: 0 <= i < |b| ==> q[1 + |a| + i] == b[i])
  {
  }

  /** Membership in `[h] + (a + b) + [t]`, part by part. */
  lemma InFramed<T>(h: T, a: seq<T>, b: seq<T>, t: T, x: T)
    ensures x in [h] + (a + b) + [t] <==> x == h || x in a || x in b || x == t
  {
  }

  /** Three bound pieces make a bound query whose params are theirs, in
      order. */
  lemma Append3(a: Query, b: Query, c: Query)
    requires AllBound(a) && AllBound(b) && AllBound(c)
    ensures AllBound(a + b + c)
    ensures Params(a + b + c) == Params(a) + Params(b) + Params(c)
  {
    Append(a, b);
    Append(a + b, c);
  }

  /** Four bound pieces make a bound query whose params are theirs, in
      order. */
  lemma Append4(a: Query, b: Query, c: Query, d: Query)
    requires AllBound(a) && AllBound(b) && AllBound(c) && AllBound(d)
    ensures AllBound(a + b + c + d)
    ensures Params(a + b + c + d) == Params(a) + Params(b) + Params(c) + Params(d)
  {
    Append(a, b);
    Append(a + b, c);
    Append(a + b + c, d);
  }

  /** A bound query whose params are three runs has as many placeholders
      as the runs have values together. */
  lemma CountOfParts(q: Query, a: seq<Value>, b: seq<Value>, c: seq<Value>)
    requires AllBound(q) && Params(q) == a + b + c
    ensures Placeholders(q) == |Params(q)| == |a| + |b| + |c|
  {
    BoundCount(q);
  }

  /** When every clause is bound, the query has as many placeholders as params,
      and the k-th placeholder and the k-th param are the same slot of the same
      clause: the value bound to it is the one its clause pushed. */
  lemma {:induction false} Alignment(q: Query)
    requires AllBound(q)
    ensures Placeholders(q) == |Params(q)|
    ensures forall k :: 0 <= k < |Params(q)| ==> HoleAt(q, k) == ParamAt(q, k)
  {
    if |q| > 0 {
      assert AllBound(q[1..]) by {
        forall i | 0 <= i < |q[1..]| ensures Bound(q[1..][i]) { assert q[1..][i] == q[i + 1]; }
      }
      Alignment(q[1..]);
      HolesConcat(q[0].toks, Toks(q[1..]));
      assert Bound(q[0]);
      var n := |q[0].args|;
      assert |Params(q)| == n + |Params(q[1..])|;
      forall k | 0 <= k < |Params(q)| ensures HoleAt(q, k) == ParamAt(q, k) {
        if k >= n {
          assert HoleAt(q[1..], k - n) == ParamAt(q[1..], k - n);
        }
      }
    }
  }

  /** Appending one query to another appends their params, and two bound
      queries make a bound query. */
  lemma Append(a: Query, b: Query)
    ensures Params(a + b) == Params(a) + Params(b)
    ensures AllBound(a) && AllBound(b) ==> AllBound(a + b)
  {
    ParamsConcat(a, b);
    if AllBound(a) && AllBound(b) {
      forall i | 0 <= i < |a + b| ensures Bound((a + b)[i]) {
        if i >= |a| { assert (a + b)[i] == b[i - |a|]; }
      }
    }
  }

  /** `parts[0] ? parts[1] ? … parts[n]`: the texts with one placeholder
      between each two. */
  function Template(parts: seq<string>): (toks: seq<Tok>)
    requires |parts| > 0
    ensures Holes(toks) == |parts| - 1
  {
    if |parts| == 1 then
      assert [Text(parts[0])][1..] == [];
      [Text(parts[0])]
    else
      var rest := Template(parts[1..]);
      var toks := [Text(parts[0]), Ph] + rest;
      assert toks[1..][1..] == rest;
      toks
  }

  /** A clause binding `args` in order, one between each two texts. */
  function Tmpl(parts: seq<string>, args: seq<Value>): (c: Clause)
    requires |parts| == |args| + 1
    ensures Bound(c) && c.args == args
  {
    Clause(Template(parts), args)
  }

  /** A clause of fixed text. */
  function Fixed(s: string): (c: Clause)
    ensures Bound(c) && c.args == []
  {
    Clause([Text(s)], [])
  }

  /** A clause `before ? after` binding one value. */
  function Bind(before: string, v: Value, after: string): (c: Clause)
    ensures Bound(c) && c.args == [v]
  {
    var toks := [Text(before), Ph, Text(after)];
    assert Holes(toks[2..]) == 0 by { assert toks[2..][1..] == []; }
    assert Holes(toks[1..]) == 1 by { assert toks[1..][1..] == toks[2..]; }
    Clause(toks, [v])
  }

  /** The clause when `cond` holds, nothing otherwise: a guarded `query += …`. */
  function When(cond: bool, c: Clause): (q: Query)
    ensures Bound(c) ==> AllBound(q)
    ensures Params(q) == if cond then c.args else []
  {
    if cond then [c] else []
  }

  /** `'%' + term + '%'`, the LIKE pattern the builders bind. */
  function Like(term: string): Value {
    Str("%" + term + "%")
  }

  /** `xs` when `cond` holds, nothing otherwise: values pushed under a guard. */
  function If<T>(cond: bool, xs: seq<T>): seq<T> {
    if cond then xs else []
  }

  /** `'%' + v + '%'` for a request value (template-string interpolation). */
  function LikeOf(v: Js.JsValue): Value {
    Like(match v case Str(s) => s case _ => "")
  }

  /** `v || fallback` bound as a value. */
  function OrValue(v: Js.JsValue, fallback: Value): (r: Value)
    ensures Js.Truthy(v) ==> r == Raw(v)
    ensures !Js.Truthy(v) ==> r == fallback
  {
    if Js.Truthy(v) then Raw(v) else fallback
  }

  /** The centre of a distance filter, as the caller passed it. */
  datatype LatLng = LatLng(lat: Js.JsValue, lng: Js.JsValue)

  /** The Haversine distance expression the SQL builders inline:
      `6371 * acos(cos(radians(?)) * cos(radians(<lat>)) *
      cos(radians(<lng>) - radians(?)) + sin(radians(?)) * sin(radians(<lat>)))`,
      binding the centre's latitude, longitude and latitude again. */
  function Haversine(latCol: string, lngCol: string, lat: Value, lng: Value): (c: Clause)
    ensures Bound(c) && c.args == [lat, lng, lat]
  {
    var toks := [Text("(6371 * acos(cos(radians("), Ph,
                 Text(")) * cos(radians(" + latCol + ")) * cos(radians(" + lngCol + ") - radians("), Ph,
                 Text(")) + sin(radians("), Ph,
                 Text(")) * sin(radians(" + latCol + "))))")];
    assert Holes(toks[6..]) == 0 by { assert toks[6..][1..] == []; }
    assert Holes(toks[5..]) == 1 by { assert toks[5..][1..] == toks[6..]; }
    assert Holes(toks[4..]) == 1 by { assert toks[4..][1..] == toks[5..]; }
    assert Holes(toks[3..]) == 2 by { assert toks[3..][1..] == toks[4..]; }
    assert Holes(toks[2..]) == 2 by { assert toks[2..][1..] == toks[3..]; }
    assert Holes(toks[1..]) == 3 by { assert toks[1..][1..] == toks[2..]; }
    Clause(toks, [lat, lng, lat])
  }

  /** A key/value pair of an update object, in `Object.entries` order. */
  datatype Field = Field(key: string, value: Value)

  /** The entries whose key is on the whitelist, in their original order. */
  function Whitelisted(entries: seq<Field>, allowed: seq<string>): (r: seq<Field>)
    ensures forall f :: f in r <==> f in entries && f.key in allowed
    ensures |r| <= |entries|
  {
    if |entries| == 0 then []
    else (if entries[0].key in allowed then [entries[0]] else []) + Whitelisted(entries[1..], allowed)
  }

  /** The whitelist keeps or drops each entry on its own: filtering a
      concatenation filters each part, so kept entries keep their order. */
  lemma {:induction false} WhitelistedConcat(a: seq<Field>, b: seq<Field>, allowed: seq<string>)
    ensures Whitelisted(a + b, allowed) == Whitelisted(a, allowed) + Whitelisted(b, allowed)
  {
    if |a| > 0 {
      assert (a + b)[0] == a[0] && (a + b)[1..] == a[1..] + b;
      WhitelistedConcat(a[1..], b, allowed);
    } else {
      assert a + b == b;
    }
  }

  /** A single entry is kept exactly when its key is allowed. */
  lemma WhitelistedOfOne(f: Field, allowed: seq<string>)
    ensures Whitelisted([f], allowed) == if f.key in allowed then [f] else []
  {
    assert [f][1..] == [];
  }

  /** The values an update binds, field by field. */
  function Encoded(fs: seq<Field>, encode: Field -> Value): seq<Value> {
    seq(|fs|, i requires 0 <= i < |fs| => encode(fs[i]))
  }

  /** `key = ?` for one field, after a comma unless it opens the SET list,
      binding the field's encoded value. */
  function Assignment(f: Field, first: bool, encode: Field -> Value): (c: Clause)
    ensures Bound(c) && c.args == [encode(f)]
  {
    var toks := [Text((if first then "" else ", ") + f.key + " = "), Ph];
    assert Holes(toks[1..]) == 1 by { assert toks[1..][1..] == []; }
    Clause(toks, [encode(f)])
  }

  /** `key = ?` for each field, comma separated, each binding its encoded
      value: the i-th clause names the i-th field's column. */
  function Assignments(fs: seq<Field>, first: bool, encode: Field -> Value): (q: Query)
    ensures AllBound(q) && |q| == |fs|
    ensures forall i :: 0 <= i < |q| ==> q[i] == Assignment(fs[i], first && i == 0, encode)
    ensures Params(q) == Encoded(fs, encode)
  {
    if |fs| == 0 then []
    else
      var rest := Assignments(fs[1..], false, encode);
      Cons(Assignment(fs[0], first, encode), rest);
      [Assignment(fs[0], first, encode)] + rest
  }

  const NoValidFields := "No valid fields to update"

  /** The `updated_at = CURRENT_TIMESTAMP` clause of the models that stamp updates. */
  const Stamp := Fixed(", updated_at = CURRENT_TIMESTAMP")

  /** The head of an update: `UPDATE <table> SET `. */
  function UpdateHead(table: string): Clause {
    Fixed("UPDATE " + table + " SET ")
  }

  /** `UPDATE <table> SET k1 = ?, …[, updated_at = CURRENT_TIMESTAMP] WHERE id = ?`
      over a non-empty list of fields. */
  function SetQuery(table: string, fs: seq<Field>, id: Value, touch: bool, encode: Field -> Value): (q: Query)
    requires |fs| > 0
    ensures AllBound(q)
    ensures Params(q) == Encoded(fs, encode) + [id]
    ensures Stamp in q <==> touch
    ensures |q| == |fs| + (if touch then 3 else 2)
    ensures q[0] == UpdateHead(table)
    ensures forall i :: 0 <= i < |fs| ==> q[1 + i] == Assignment(fs[i], i == 0, encode)
    ensures touch ==> q[|fs| + 1] == Stamp
    ensures q[|q| - 1] == Bind(" WHERE id = ", id, "")
  {
    var h := UpdateHead(table);
    var sets := Assignments(fs, true, encode);
    var stamp := When(touch, Stamp);
    var t := Bind(" WHERE id = ", id, "");
    assert Stamp != h by { assert ("UPDATE " + table + " SET ")[0] != Stamp.toks[0].s[0]; }
    assert Stamp !in sets by {
      forall c | c in sets ensures |c.args| == 1 { }
    }
    Append(sets, stamp);
    Cons(h, sets + stamp);
    Snoc([h] + (sets + stamp), t);
    var q := [h] + (sets + stamp) + [t];
    InFramed(h, sets, stamp, t, Stamp);
    Framed(h, sets, stamp, t);
    assert touch ==> stamp[0] == Stamp;
    q
  }

  /** The update opens with `UPDATE <table> SET ` and its next clauses
      assign the kept fields, one `key = ?` each, in order. */
  predicate SetsWhitelisted(q: Query, table: string, ws: seq<Field>, encode: Field -> Value) {
    |q| > |ws| && q[0] == UpdateHead(table)
    && forall i :: 0 <= i < |ws| ==> q[1 + i] == Assignment(ws[i], i == 0, encode)
  }

  /** The whitelist UPDATE builder shared by the Drug, Pharmacy and User models:
      the SET clause over the whitelisted entries, or the "no valid fields"
      error when none qualifies. `touch` says whether the model stamps
      `updated_at`; `encode` is how a field's value is bound. */
  function UpdateQuery(table: string, allowed: seq<string>, entries: seq<Field>, id: Value,
                       touch: bool, encode: Field -> Value): (r: Result<Query, string>)
    ensures r.Failure? <==> forall f :: f in entries ==> f.key !in allowed
    ensures r.Failure? ==> r.error == NoValidFields
    ensures r.Success? ==> AllBound(r.value)
    ensures r.Success? ==> Params(r.value) == Encoded(Whitelisted(entries, allowed), encode) + [id]
    ensures r.Success? ==> (Stamp in r.value <==> touch)
    ensures r.Success? ==> SetsWhitelisted(r.value, table, Whitelisted(entries, allowed), encode)
    ensures r.Success? ==> r.value[|r.value| - 1] == Bind(" WHERE id = ", id, "")
  {
    var fs := Whitelisted(entries, allowed);
    if |fs| == 0 then
      assert forall f :: f in entries ==> f.key !in allowed by {
        forall f | f in entries ensures f.key !in allowed { assert f !in fs; }
      }
      Failure(NoValidFields)
    else
      assert fs[0] in entries && fs[0].key in allowed;
      Success(SetQuery(table, fs, id, touch, encode))
  }

  /** Read token by token: an accepted update opens with the table's
      `UPDATE … SET `, and its i-th assignment names the i-th kept field's
      column and binds that field's value. */
  lemma UpdateNamesColumns(table: string, allowed: seq<string>, entries: seq<Field>, id: Value,
                           touch: bool, encode: Field -> Value)
    requires UpdateQuery(table, allowed, entries, id, touch, encode).Success?
    ensures var q := UpdateQuery(table, allowed, entries, id, touch, encode).value;
      var ws := Whitelisted(entries, allowed);
      q[0].toks == [Text("UPDATE " + table + " SET ")]
      && forall i :: 0 <= i < |ws| ==>
           q[1 + i].toks == [Text((if i == 0 then "" else ", ") + ws[i].key + " = "), Ph]
           && q[1 + i].args == [encode(ws[i])]
  {
    var q := UpdateQuery(table, allowed, entries, id, touch, encode).value;
    var ws := Whitelisted(entries, allowed);
    forall i | 0 <= i < |ws|
      ensures q[1 + i].toks == [Text((if i == 0 then "" else ", ") + ws[i].key + " = "), Ph]
    {
      assert q[1 + i] == Assignment(ws[i], i == 0, encode);
    }
  }
}
