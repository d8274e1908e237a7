/** `globalSearch`: every resource that is globally searchable and viewable by the
    user contributes one entry per row whose key is positive and whose search
    columns are all LIKE `%filter%`. */
module GlobalSearch {
  import opened Values
  import opened Resources
  import opened SqlLike
  import opened ListQuery

  /** One hit: the resource's singular label, the row's name and its link. */
  datatype SearchEntry = SearchEntry(resource: string, name: Value, link: string)

  /** A registered resource together with the rows of its table. */
  type Source = (Resource, seq<Record>)

  predicate Contributes(res: Resource) {
    res.perms.globallySearchable && res.perms.canView
  }

  /** `where("id", ">", 0)` then one LIKE clause per search column. */
  function GlobalQuery(res: Resource, filter: Value): Query {
    [WhereAbove("id", 0)] + SearchClauses(res.search, Wrapped(ToText(filter)))
  }

  /** The global query declares no filter, so no filter semantics is consulted. */
  const NoFilters: FilterSemantics := (f: string, p: Params, r: Record) => false

  function EntryFor(res: Resource, row: Record): SearchEntry {
    SearchEntry(res.singularLabel, Get(row, "name"), res.route + "/" + ToText(Get(row, "code")))
  }

  function Entries(res: Resource, rows: seq<Record>): seq<SearchEntry> {
    if rows == [] then [] else Entries(res, rows[..|rows| - 1]) + [EntryFor(res, rows[|rows| - 1])]
  }

  /** The rows a resource's global query selects. */
  function Hits(res: Resource, rows: seq<Record>, filter: Value): seq<Record> {
    Select(rows, GlobalQuery(res, filter), NoFilters)
  }

  /** The response's `data`, resource by resource in registry order. */
  function SearchAll(sources: seq<Source>, filter: Value): seq<SearchEntry> {
    if sources == [] then []
    else
      var last := sources[|sources| - 1];
      SearchAll(sources[..|sources| - 1], filter)
        + (if Contributes(last.0) then Entries(last.0, Hits(last.0, last.1, filter)) else [])
  }

  /** The nested loops of `globalSearch`; `$query->get()` is `Hits`. */
  method Search(sources: seq<Source>, filter: Value) returns (data: seq<SearchEntry>)
    ensures data == SearchAll(sources, filter)
  {
    data := [];
    for j := 0 to |sources|
      invariant data == SearchAll(sources[..j], filter)
    {
      var res := sources[j].0;
      assert sources[..j + 1][..j] == sources[..j];
      if res.perms.globallySearchable && res.perms.canView {
        var hits := Hits(res, sources[j].1, filter);
        ghost var before := data;
        for k := 0 to |hits|
          invariant data == before + Entries(res, hits[..k])
        {
          assert hits[..k + 1][..k] == hits[..k];
          data := data + [SearchEntry(res.singularLabel, Get(hits[k], "name"), res.route + "/" + ToText(Get(hits[k], "code")))];
        }
        assert hits[..|hits|] == hits;
      }
    }
    assert sources[..|sources|] == sources;
  }

  lemma {:induction false} EntriesAt(res: Resource, rows: seq<Record>)
    ensures |Entries(res, rows)| == |rows|
    ensures forall k :: 0 <= k < |rows| ==> Entries(res, rows)[k] == EntryFor(res, rows[k])
  {
    if rows != [] {
      EntriesAt(res, rows[..|rows| - 1]);
    }
  }

  /** A row is a hit exactly when its key is a positive integer and every search
      column is LIKE `%filter%`. */
  lemma HitsMembers(res: Resource, rows: seq<Record>, filter: Value, r: Record)
    ensures r in Hits(res, rows, filter) <==>
      && r in rows
      && Get(r, "id").Int? && Get(r, "id").i > 0
      && forall k :: 0 <= k < |res.search| ==> LikeHolds(Get(r, res.search[k]), Wrapped(ToText(filter)))
  {
    var head: Query := [WhereAbove("id", 0)];
    SelectMembers(rows, GlobalQuery(res, filter), NoFilters, r);
    AdmitsAllConcat(head, SearchClauses(res.search, Wrapped(ToText(filter))), r, NoFilters);
    AdmitsSearch(res.search, Wrapped(ToText(filter)), r, NoFilters);
    assert AdmitsAll(head, r, NoFilters) <==> Admits(head[0], r, NoFilters);
  }

  /** Every entry comes from a hit of a contributing resource. */
  lemma {:induction false} SearchAllSound(sources: seq<Source>, filter: Value, e: SearchEntry)
    requires e in SearchAll(sources, filter)
    ensures exists j :: (&& 0 <= j < |sources| && Contributes(sources[j].0)
                         && e in Entries(sources[j].0, Hits(sources[j].0, sources[j].1, filter)))
  {
    var init, last := sources[..|sources| - 1], sources[|sources| - 1];
    if e in SearchAll(init, filter) {
      SearchAllSound(init, filter, e);
      var j :| 0 <= j < |init| && Contributes(init[j].0) && e in Entries(init[j].0, Hits(init[j].0, init[j].1, filter));
      assert sources[j] == init[j];
    } else {
      assert Contributes(last.0) && e in Entries(last.0, Hits(last.0, last.1, filter));
    }
  }

  /** Every hit of a contributing resource gives an entry: nothing is dropped, and
      rows are not deduplicated across resources. */
  lemma {:induction false} SearchAllComplete(sources: seq<Source>, filter: Value, j: nat, row: Record)
    requires j < |sources| && Contributes(sources[j].0) && row in Hits(sources[j].0, sources[j].1, filter)
    ensures EntryFor(sources[j].0, row) in SearchAll(sources, filter)
  {
    var init, last := sources[..|sources| - 1], sources[|sources| - 1];
    if j < |init| {
      assert sources[j] == init[j];
      SearchAllComplete(init, filter, j, row);
    } else {
      var hits := Hits(last.0, last.1, filter);
      EntriesAt(last.0, hits);
      var k :| 0 <= k < |hits| && hits[k] == row;
      assert Entries(last.0, hits)[k] == EntryFor(last.0, row);
    }
  }

  /** One entry per hit of each contributing resource. */
  function HitCount(sources: seq<Source>, filter: Value): nat {
    if sources == [] then 0
    else
      var last := sources[|sources| - 1];
      HitCount(sources[..|sources| - 1], filter) + (if Contributes(last.0) then |Hits(last.0, last.1, filter)| else 0)
  }

  lemma {:induction false} SearchAllLength(sources: seq<Source>, filter: Value)
    ensures |SearchAll(sources, filter)| == HitCount(sources, filter)
  {
    if sources != [] {
      var last := sources[|sources| - 1];
      SearchAllLength(sources[..|sources| - 1], filter);
      EntriesAt(last.0, Hits(last.0, last.1, filter));
    }
  }

  /** With a filter free of LIKE wildcards, a row is a hit exactly when its key is
      positive and each search column's text contains the filter. */
  lemma HitsAreSubstringMatches(res: Resource, rows: seq<Record>, filter: Value, r: Record)
    requires Literal(ToText(filter))
    ensures r in Hits(res, rows, filter) <==>
      && r in rows
      && Get(r, "id").Int? && Get(r, "id").i > 0
      && forall k :: 0 <= k < |res.search| ==> Get(r, res.search[k]) != Null && Contains(ToText(Get(r, res.search[k])), ToText(filter))
  {
    HitsMembers(res, rows, filter, r);
    forall k | 0 <= k < |res.search| {
      SearchIsSubstring(Get(r, res.search[k]), ToText(filter));
    }
  }
}
