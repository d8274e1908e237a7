/** The list page's query (`getPaginatedData`): an order clause, the declared
    filters, one LIKE predicate per search column, one equality per active lens
    and the page size, built up clause by clause; and what such a query selects. */
module ListQuery {
  import opened Values
  import opened Resources
  import opened SqlLike

  /** One call on the query builder. `Filtered` is a declared filter's
      `applyFilter($query, $data)`; what it adds is that filter's own code. */
  datatype Clause =
    | OrderBy(sortColumn: Value, direction: Value)
    | Filtered(filter: string, params: Params)
    | WhereLike(column: string, pattern: string)
    | WhereEquals(column: string, value: Value)
    | WhereAbove(column: string, bound: int)
    | Paginate(perPage: int)

  /** The sequence of builder calls, first call first. */
  type Query = seq<Clause>

  /** What the declared filters keep: filter name, request parameters, row. */
  type FilterSemantics = (string, Params, Record) -> bool

  // ---------------------------------------------------------------------------
  // The query the list page builds

  function OrderColumn(data: Params): Value {
    if Truthy(Get(data, "order_by")) then data["order_by"] else Str("id")
  }

  function OrderDirection(data: Params): Value {
    if Truthy(Get(data, "order_type")) then data["order_type"] else Str("desc")
  }

  /** The free-text term, parameter `_`, or "" when it is absent or falsy. */
  function SearchTerm(data: Params): string {
    if Truthy(Get(data, "_")) then ToText(data["_"]) else ""
  }

  function FilterClauses(filters: seq<string>, data: Params): Query {
    if filters == [] then []
    else FilterClauses(filters[..|filters| - 1], data) + [Filtered(filters[|filters| - 1], data)]
  }

  function SearchClauses(columns: seq<string>, pattern: string): Query {
    if columns == [] then []
    else SearchClauses(columns[..|columns| - 1], pattern) + [WhereLike(columns[|columns| - 1], pattern)]
  }

  function LensClause(field: string, data: Params): Query {
    if IsSet(data, field) then [WhereEquals(field, data[field])] else []
  }

  function LensClauses(lens: seq<string>, data: Params): Query {
    if lens == [] then []
    else LensClauses(lens[..|lens| - 1], data) + LensClause(lens[|lens| - 1], data)
  }

  /** The query of the list page, clause by clause. */
  function ListQueryOf(res: Resource, data: Params): Query {
    [OrderBy(OrderColumn(data), OrderDirection(data))]
      + FilterClauses(res.filters, data)
      + SearchClauses(res.search, Wrapped(SearchTerm(data)))
      + LensClauses(res.lens, data)
      + [Paginate(res.perPage)]
  }

  /** `getPaginatedData`: reassigns the query through three loops, then paginates. */
  method GetPaginatedData(res: Resource, data: Params) returns (q: Query)
    ensures q == ListQueryOf(res, data)
  {
    var orderBy := if Truthy(Get(data, "order_by")) then data["order_by"] else Str("id");
    var orderType := if Truthy(Get(data, "order_type")) then data["order_type"] else Str("desc");
    var perPage := res.perPage;
    q := [OrderBy(orderBy, orderType)];
    ghost var start := q;
    for i := 0 to |res.filters|
      invariant q == start + FilterClauses(res.filters[..i], data)
    {
      assert res.filters[..i + 1][..i] == res.filters[..i];
      q := q + [Filtered(res.filters[i], data)];
    }
    assert res.filters[..|res.filters|] == res.filters;
    var term := if Truthy(Get(data, "_")) then ToText(data["_"]) else "";
    ghost var afterFilters := q;
    for i := 0 to |res.search|
      invariant q == afterFilters + SearchClauses(res.search[..i], Wrapped(term))
    {
      assert res.search[..i + 1][..i] == res.search[..i];
      q := q + [WhereLike(res.search[i], "%" + term + "%")];
    }
    assert res.search[..|res.search|] == res.search;
    ghost var afterSearch := q;
    for i := 0 to |res.lens|
      invariant q == afterSearch + LensClauses(res.lens[..i], data)
    {
      assert res.lens[..i + 1][..i] == res.lens[..i];
      var field := res.lens[i];
      if IsSet(data, field) {
        var value := data[field];
        q := q + [WhereEquals(field, value)];
      }
    }
    assert res.lens[..|res.lens|] == res.lens;
    q := q + [Paginate(perPage)];
  }

  // ---------------------------------------------------------------------------
  // The shape of the query

  lemma {:induction false} FilterClausesAt(filters: seq<string>, data: Params)
    ensures |FilterClauses(filters, data)| == |filters|
    ensures forall k :: 0 <= k < |filters| ==> FilterClauses(filters, data)[k] == Filtered(filters[k], data)
  {
    if filters != [] {
      FilterClausesAt(filters[..|filters| - 1], data);
    }
  }

  lemma {:induction false} SearchClausesAt(columns: seq<string>, pattern: string)
    ensures |SearchClauses(columns, pattern)| == |columns|
    ensures forall k :: 0 <= k < |columns| ==> SearchClauses(columns, pattern)[k] == WhereLike(columns[k], pattern)
  {
    if columns != [] {
      SearchClausesAt(columns[..|columns| - 1], pattern);
    }
  }

  /** The lens part holds an equality for a field exactly when a lens names that
      field and the request sets it, with the request's value; nothing else. */
  lemma {:induction false} LensClausesMembers(lens: seq<string>, data: Params, c: Clause)
    ensures c in LensClauses(lens, data) <==>
      (c.WhereEquals? && c.column in lens && IsSet(data, c.column) && c.value == data[c.column])
  {
    if lens != [] {
      var init := lens[..|lens| - 1];
      LensClausesMembers(init, data, c);
      assert lens == init + [lens[|lens| - 1]];
    }
  }

  /** The lens fields the request sets (present and not null), in lens order. */
  function ActiveLenses(lens: seq<string>, data: Params): seq<string> {
    if lens == [] then []
    else ActiveLenses(lens[..|lens| - 1], data) + (if IsSet(data, lens[|lens| - 1]) then [lens[|lens| - 1]] else [])
  }

  /** The lens part holds exactly one clause per set lens field, in lens order: the
      `j`-th clause is the equality for the `j`-th set field, with the request's
      value; a lens whose field is absent or null produces no clause. */
  lemma {:induction false} LensClausesAt(lens: seq<string>, data: Params)
    ensures |LensClauses(lens, data)| == |ActiveLenses(lens, data)| <= |lens|
    ensures forall j :: 0 <= j < |ActiveLenses(lens, data)| ==>
      (var f := ActiveLenses(lens, data)[j];
       && IsSet(data, f)
       && LensClauses(lens, data)[j] == WhereEquals(f, data[f]))
    ensures forall f :: f in ActiveLenses(lens, data) <==> f in lens && IsSet(data, f)
  {
    if lens != [] {
      var init, last := lens[..|lens| - 1], lens[|lens| - 1];
      LensClausesAt(init, data);
      assert lens == init + [last];
    }
  }

  /** Activity is decided lens by lens: the set fields of two lens lists one after
      the other are those of the first followed by those of the second. */
  lemma {:induction false} ActiveLensesConcat(a: seq<string>, b: seq<string>, data: Params)
    ensures ActiveLenses(a + b, data) == ActiveLenses(a, data) + ActiveLenses(b, data)
    decreases |b|
  {
    if b != [] {
      var init, last := b[..|b| - 1], b[|b| - 1];
      assert (a + b)[..|a + b| - 1] == a + init;
      ActiveLensesConcat(a, init, data);
    } else {
      assert a + b == a;
    }
  }

  /** The list query is the order clause, every filter in declaration order, one
      `%term%` LIKE per search column, the active lenses, then the pagination. */
  lemma ListQueryShape(res: Resource, data: Params)
    ensures var q := ListQueryOf(res, data);
      var nf, ns := |res.filters|, |res.search|;
      && |q| == 2 + nf + ns + |LensClauses(res.lens, data)|
      && q[0] == OrderBy(OrderColumn(data), OrderDirection(data))
      && (forall k :: 0 <= k < nf ==> q[1 + k] == Filtered(res.filters[k], data))
      && (forall k :: 0 <= k < ns ==> q[1 + nf + k] == WhereLike(res.search[k], "%" + SearchTerm(data) + "%"))
      && q[1 + nf + ns..|q| - 1] == LensClauses(res.lens, data)
      && q[|q| - 1] == Paginate(res.perPage)
  {
    FilterClausesAt(res.filters, data);
    SearchClausesAt(res.search, Wrapped(SearchTerm(data)));
    var q := ListQueryOf(res, data);
    var nf, ns := |res.filters|, |res.search|;
    var f, s := FilterClauses(res.filters, data), SearchClauses(res.search, Wrapped(SearchTerm(data)));
    var l := LensClauses(res.lens, data);
    assert q == [q[0]] + f + s + l + [Paginate(res.perPage)];
    forall k | 0 <= k < nf ensures q[1 + k] == Filtered(res.filters[k], data) {
      assert q[1 + k] == f[k];
    }
    forall k | 0 <= k < ns ensures q[1 + nf + k] == WhereLike(res.search[k], "%" + SearchTerm(data) + "%") {
      assert q[1 + nf + k] == s[k];
    }
    assert q[1 + nf + ns..|q| - 1] == l;
  }

  /** The order defaults to ("id", "desc") part by part, exactly when the request's
      `order_by` / `order_type` is absent or falsy; a truthy value is used unchanged. */
  lemma OrderDefaults(data: Params)
    ensures Truthy(Get(data, "order_by")) ==> OrderColumn(data) == data["order_by"]
    ensures !Truthy(Get(data, "order_by")) ==> OrderColumn(data) == Str("id")
    ensures Truthy(Get(data, "order_type")) ==> OrderDirection(data) == data["order_type"]
    ensures !Truthy(Get(data, "order_type")) ==> OrderDirection(data) == Str("desc")
    ensures Truthy(OrderColumn(data)) && Truthy(OrderDirection(data))
  {
  }

  // ---------------------------------------------------------------------------
  // What a query selects

  /** LIKE against a column: SQL's NULL matches no pattern; other values are
      compared in their string form. */
  predicate LikeHolds(v: Value, pattern: string) {
    v != Null && LikeMatch(pattern, ToText(v))
  }

  /** `=` against a column with the database's loose typing: NULL equals nothing,
      and other values are compared in their string form, so the request's "7"
      selects the integer 7. */
  predicate SqlEquals(column: Value, v: Value) {
    column != Null && v != Null && ToText(column) == ToText(v)
  }

  /** `=` never holds against NULL, and a key compares equal to the digits the
      request sends for it, in both directions. */
  lemma SqlEqualsCoerces(n: nat, v: Value)
    ensures !SqlEquals(Null, v) && !SqlEquals(v, Null)
    ensures SqlEquals(Int(n), Str(NatToString(n))) && SqlEquals(Str(NatToString(n)), Int(n))
    ensures v != Null ==> SqlEquals(v, v)
  {
  }

  /** Whether a row passes one clause; order and pagination select nothing away. */
  predicate Admits(c: Clause, r: Record, holds: FilterSemantics) {
    match c
    case OrderBy(_, _) => true
    case Paginate(_) => true
    case Filtered(f, p) => holds(f, p, r)
    case WhereLike(col, pat) => LikeHolds(Get(r, col), pat)
    case WhereEquals(col, v) => SqlEquals(Get(r, col), v)
    case WhereAbove(col, b) => Get(r, col).Int? && Get(r, col).i > b
  }

  /** Successive `where` calls narrow the query: a row is selected when it passes all of them. */
  predicate AdmitsAll(q: Query, r: Record, holds: FilterSemantics) {
    forall k :: 0 <= k < |q| ==> Admits(q[k], r, holds)
  }

  /** `$query->get()`: the rows the query selects, in the table's order. */
  function Select(rows: seq<Record>, q: Query, holds: FilterSemantics): seq<Record> {
    if rows == [] then []
    else
      var last := rows[|rows| - 1];
      Select(rows[..|rows| - 1], q, holds) + (if AdmitsAll(q, last, holds) then [last] else [])
  }

  lemma {:induction false} SelectMembers(rows: seq<Record>, q: Query, holds: FilterSemantics, r: Record)
    ensures r in Select(rows, q, holds) <==> r in rows && AdmitsAll(q, r, holds)
    ensures |Select(rows, q, holds)| <= |rows|
  {
    if rows != [] {
      SelectMembers(rows[..|rows| - 1], q, holds, r);
      assert rows == rows[..|rows| - 1] + [rows[|rows| - 1]];
    }
  }

  lemma AdmitsAllConcat(a: Query, b: Query, r: Record, holds: FilterSemantics)
    ensures AdmitsAll(a + b, r, holds) <==> AdmitsAll(a, r, holds) && AdmitsAll(b, r, holds)
  {
    if AdmitsAll(a, r, holds) && AdmitsAll(b, r, holds) {
      forall k | 0 <= k < |a + b| ensures Admits((a + b)[k], r, holds) {
        if k >= |a| {
          assert (a + b)[k] == b[k - |a|];
        }
      }
    }
    if AdmitsAll(a + b, r, holds) {
      forall k | 0 <= k < |a| ensures Admits(a[k], r, holds) {
        assert (a + b)[k] == a[k];
      }
      forall k | 0 <= k < |b| ensures Admits(b[k], r, holds) {
        assert (a + b)[|a| + k] == b[k];
      }
    }
  }

  lemma {:induction false} AdmitsLens(lens: seq<string>, data: Params, r: Record, holds: FilterSemantics)
    ensures AdmitsAll(LensClauses(lens, data), r, holds) <==>
      (forall f :: f in lens && IsSet(data, f) ==> SqlEquals(Get(r, f), data[f]))
  {
    if lens != [] {
      var init, last := lens[..|lens| - 1], lens[|lens| - 1];
      AdmitsLens(init, data, r, holds);
      AdmitsAllConcat(LensClauses(init, data), LensClause(last, data), r, holds);
      assert lens == init + [last];
      assert forall f :: f in lens <==> f in init || f == last;
      assert AdmitsAll(LensClause(last, data), r, holds) <==> (IsSet(data, last) ==> SqlEquals(Get(r, last), data[last])) by {
        var q := LensClause(last, data);
        if IsSet(data, last) {
          assert q == [WhereEquals(last, data[last])];
          assert AdmitsAll(q, r, holds) <==> Admits(q[0], r, holds);
        } else {
          assert q == [];
        }
      }
    }
  }

  /** A row passes the search clauses exactly when every column is LIKE the pattern. */
  lemma AdmitsSearch(columns: seq<string>, pattern: string, r: Record, holds: FilterSemantics)
    ensures AdmitsAll(SearchClauses(columns, pattern), r, holds) <==>
      (forall k :: 0 <= k < |columns| ==> LikeHolds(Get(r, columns[k]), pattern))
  {
    var s := SearchClauses(columns, pattern);
    SearchClausesAt(columns, pattern);
    if forall k :: 0 <= k < |columns| ==> LikeHolds(Get(r, columns[k]), pattern) {
      forall k | 0 <= k < |s| ensures Admits(s[k], r, holds) {
        assert s[k] == WhereLike(columns[k], pattern);
      }
    }
    if AdmitsAll(s, r, holds) {
      forall k | 0 <= k < |columns| ensures LikeHolds(Get(r, columns[k]), pattern) {
        assert Admits(s[k], r, holds);
      }
    }
  }

  /** A row is on the list exactly when every declared filter keeps it, every search
      column is LIKE `%term%` (the columns are ANDed) and it agrees with every lens
      the request sets. */
  lemma SelectListQuery(res: Resource, data: Params, rows: seq<Record>, holds: FilterSemantics, r: Record)
    ensures r in Select(rows, ListQueryOf(res, data), holds) <==>
      && r in rows
      && (forall k :: 0 <= k < |res.filters| ==> holds(res.filters[k], data, r))
      && (forall k :: 0 <= k < |res.search| ==> LikeHolds(Get(r, res.search[k]), Wrapped(SearchTerm(data))))
      && (forall f :: f in res.lens && IsSet(data, f) ==> SqlEquals(Get(r, f), data[f]))
  {
    var pattern := Wrapped(SearchTerm(data));
    var o: Query := [OrderBy(OrderColumn(data), OrderDirection(data))];
    var f, s := FilterClauses(res.filters, data), SearchClauses(res.search, pattern);
    var l := LensClauses(res.lens, data);
    var p: Query := [Paginate(res.perPage)];
    SelectMembers(rows, ListQueryOf(res, data), holds, r);
    AdmitsAllConcat(o + f + s + l, p, r, holds);
    AdmitsAllConcat(o + f + s, l, r, holds);
    AdmitsAllConcat(o + f, s, r, holds);
    AdmitsAllConcat(o, f, r, holds);
    FilterClausesAt(res.filters, data);
    SearchClausesAt(res.search, pattern);
    AdmitsLens(res.lens, data, r, holds);
    assert AdmitsAll(o, r, holds) && AdmitsAll(p, r, holds);
    assert AdmitsAll(f, r, holds) <==> (forall k :: 0 <= k < |res.filters| ==> holds(res.filters[k], data, r)) by {
      if forall k :: 0 <= k < |res.filters| ==> holds(res.filters[k], data, r) {
        forall k | 0 <= k < |f| ensures Admits(f[k], r, holds) {
          assert f[k] == Filtered(res.filters[k], data);
        }
      }
      if AdmitsAll(f, r, holds) {
        forall k | 0 <= k < |res.filters| ensures holds(res.filters[k], data, r) {
          assert Admits(f[k], r, holds);
        }
      }
    }
    AdmitsSearch(res.search, pattern, r, holds);
  }

  /** With a term free of LIKE wildcards, a search column admits a row exactly when
      the column's text contains the term. */
  lemma SearchIsSubstring(v: Value, term: string)
    requires Literal(term)
    ensures LikeHolds(v, Wrapped(term)) <==> v != Null && Contains(ToText(v), term)
  {
    WrappedLiteralIsContains(ToText(v), term);
  }
}
