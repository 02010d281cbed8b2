/**
  The `/tables/{tableName}` endpoint of the world server's web API: it reads
  a game table through reflection, parses `limit`, `offset` and field
  filters from the query string, and returns the table's present entries
  that survive the offset and the filters, up to the limit, keyed by index.
  Reflection is abstracted: a table is its `lookup` array, the names of its
  entry type's fields, its `GetEntry` and the text `string.Format` gives a
  field of an entry.
*/
module Tables {
  import opened Base
  import opened Decimal

  /** One item of the query string, `key=value`. */
  datatype QueryItem = QueryItem(key: string, value: string)

  /** A field filter: the entry's field `name`, formatted as text, must equal `value`. */
  datatype Filter = Filter(name: string, value: string)

  /** A game table as the endpoint sees it through reflection. */
  datatype GameTable<!E> = GameTable(
    lookup: CsArray<int32>,
    fieldNames: set<string>,
    getEntry: nat -> E,
    fieldText: (E, string) -> string)

  /** What the query string asks for. */
  datatype Query = Query(limit: int32, offset: int32, filters: seq<Filter>)

  /** One result: the entry at index `id`. */
  datatype Row<E> = Row(id: nat, entry: E)

  /** What the endpoint answers. */
  datatype Response<E> =
    | Json(rows: seq<Row<E>>)             // the result dictionary, in insertion order
    | NullResult                         // the action returned null; the framework rejects that with an exception
    | StatusCode(code: int, message: string)
    | ServerError                        // status 500 with the runtime's exception message

  datatype ParseResult = Parsed(query: Query) | UnknownField(name: string)

  const DEFAULT_LIMIT: int32 := -1
  const DEFAULT_OFFSET: int32 := 0

  /** A key that neither sets `limit` or `offset` nor names a field of the entry type. */
  predicate IsUnknownKey(key: string, fieldNames: set<string>)
  {
    key != "limit" && key != "offset" && key !in fieldNames
  }

  /** The value the last `key` item leaves behind (`int.TryParse` semantics), or `default`. */
  function LastParsed(query: seq<QueryItem>, key: string, default: int32): int32
  {
    if query == [] then default
    else if query[|query| - 1].key == key then TryParseOrZero(query[|query| - 1].value)
    else LastParsed(query[..|query| - 1], key, default)
  }

  /** The last `key` item wins; with no `key` item the default stays. */
  lemma {:induction false} LastParsedIsLast(query: seq<QueryItem>, key: string, default: int32, k: int)
    requires -1 <= k < |query|
    requires k >= 0 ==> query[k].key == key
    requires forall j :: k < j < |query| ==> query[j].key != key
    ensures LastParsed(query, key, default) == if k < 0 then default else TryParseOrZero(query[k].value)
  {
    if query != [] && k < |query| - 1 {
      var init := query[..|query| - 1];
      assert forall j :: k < j < |init| ==> init[j] == query[j];
      LastParsedIsLast(init, key, default, k);
    }
  }

  /**
    The keys of a query string are distinct: ASP.NET collects the items of a
    repeated key into one entry.
  */
  predicate DistinctKeys(query: seq<QueryItem>)
  {
    forall i, j :: 0 <= i < j < |query| ==> query[i].key != query[j].key
  }

  /** With distinct keys, the `key` item, if there is one, decides the value; otherwise the default stays. */
  lemma KeyItemDecides(query: seq<QueryItem>, key: string, default: int32)
    requires DistinctKeys(query)
    ensures (forall k :: 0 <= k < |query| ==> query[k].key != key) ==> LastParsed(query, key, default) == default
    ensures forall k :: 0 <= k < |query| && query[k].key == key ==>
              LastParsed(query, key, default) == TryParseOrZero(query[k].value)
  {
    if forall k :: 0 <= k < |query| ==> query[k].key != key {
      LastParsedIsLast(query, key, default, -1);
    }
    forall k | 0 <= k < |query| && query[k].key == key
      ensures LastParsed(query, key, default) == TryParseOrZero(query[k].value)
    {
      LastParsedIsLast(query, key, default, k);
    }
  }

  /** The filters the query string asks for, in query order. */
  function FiltersOf(query: seq<QueryItem>): (fs: seq<Filter>)
    ensures |fs| <= |query|
  {
    if query == [] then []
    else
      var item := query[|query| - 1];
      FiltersOf(query[..|query| - 1])
        + (if item.key == "limit" || item.key == "offset" then [] else [Filter(item.key, item.value)])
  }

  /** Index of the first item whose key is unknown, if any. */
  function FirstUnknown(query: seq<QueryItem>, fieldNames: set<string>): (r: Option<nat>)
    ensures r.None? <==> forall k :: 0 <= k < |query| ==> !IsUnknownKey(query[k].key, fieldNames)
    ensures r.Some? ==> r.value < |query| && IsUnknownKey(query[r.value].key, fieldNames)
                        && forall j :: 0 <= j < r.value ==> !IsUnknownKey(query[j].key, fieldNames)
  {
    if query == [] then None
    else if IsUnknownKey(query[0].key, fieldNames) then Some(0)
    else match FirstUnknown(query[1..], fieldNames)
      case None => None
      case Some(k) => Some(k + 1)
  }

  lemma FiltersOfStep(query: seq<QueryItem>, k: nat)
    requires k < |query|
    ensures FiltersOf(query[..k + 1])
            == FiltersOf(query[..k])
               + (if query[k].key == "limit" || query[k].key == "offset" then [] else [Filter(query[k].key, query[k].value)])
  {
    assert query[..k + 1][..k] == query[..k];
  }

  lemma LastParsedStep(query: seq<QueryItem>, k: nat, key: string, default: int32)
    requires k < |query|
    ensures LastParsed(query[..k + 1], key, default)
            == if query[k].key == key then TryParseOrZero(query[k].value) else LastParsed(query[..k], key, default)
  {
    assert query[..k + 1][..k] == query[..k];
  }

  /**
    The query-string loop: `limit` and `offset` are parsed where they occur
    (0 when `int.TryParse` fails), every other key becomes a filter, and the
    first key that names no field of the entry type stops parsing with
    "Unknown field: <key>".
  */
  method ParseQuery(query: seq<QueryItem>, fieldNames: set<string>) returns (r: ParseResult)
    requires DistinctKeys(query)
    ensures FirstUnknown(query, fieldNames).Some? <==> r.UnknownField?
    ensures r.UnknownField? ==> r.name == query[FirstUnknown(query, fieldNames).value].key
    ensures r.Parsed? ==> r.query == Query(LastParsed(query, "limit", DEFAULT_LIMIT),
                                           LastParsed(query, "offset", DEFAULT_OFFSET),
                                           FiltersOf(query))
  {
    var limit, offset := DEFAULT_LIMIT, DEFAULT_OFFSET;
    var filters: seq<Filter> := [];
    var k := 0;
    while k < |query|
      invariant 0 <= k <= |query|
      invariant forall j :: 0 <= j < k ==> !IsUnknownKey(query[j].key, fieldNames)
      invariant limit == LastParsed(query[..k], "limit", DEFAULT_LIMIT)
      invariant offset == LastParsed(query[..k], "offset", DEFAULT_OFFSET)
      invariant filters == FiltersOf(query[..k])
    {
      var item := query[k];
      LastParsedStep(query, k, "limit", DEFAULT_LIMIT);
      LastParsedStep(query, k, "offset", DEFAULT_OFFSET);
      FiltersOfStep(query, k);
      if item.key == "limit" {
        limit := TryParseOrZero(item.value);
      } else if item.key == "offset" {
        offset := TryParseOrZero(item.value);
      } else if item.key !in fieldNames {
        return UnknownField(item.key);
      } else {
        filters := filters + [Filter(item.key, item.value)];
      }
      k := k + 1;
    }
    assert query[..k] == query;
    r := Parsed(Query(limit, offset, filters));
  }

  /** The entry passes every filter. */
  predicate Matches<E>(t: GameTable<E>, entry: E, filters: seq<Filter>)
  {
    forall k :: 0 <= k < |filters| ==> t.fieldText(entry, filters[k].name) == filters[k].value
  }

  /** The filter loop: stops at the first filter the entry fails. */
  method MatchesAll<E>(t: GameTable<E>, entry: E, filters: seq<Filter>) returns (matched: bool)
    ensures matched <==> Matches(t, entry, filters)
  {
    matched := true;
    var k := 0;
    while k < |filters|
      invariant 0 <= k <= |filters|
      invariant forall j :: 0 <= j < k ==> t.fieldText(entry, filters[j].name) == filters[j].value
    {
      if t.fieldText(entry, filters[k].name) != filters[k].value {
        matched := false;
        break;
      }
      k := k + 1;
    }
  }

  /** How many entries of `lookup` before index `i` are present (not negative). */
  function PresentBefore(lookup: seq<int32>, i: nat): (c: nat)
    requires i <= |lookup|
    ensures c <= i
  {
    if i == 0 then 0 else PresentBefore(lookup, i - 1) + (if lookup[i - 1] >= 0 then 1 else 0)
  }

  /**
    Index `i` makes it past the offset and the filters: its entry is present,
    at least `offset` present entries come before it, and it passes every filter.
  */
  predicate Qualifies<E>(t: GameTable<E>, offset: int, filters: seq<Filter>, i: nat)
  {
    && i < |t.lookup|
    && t.lookup[i] >= 0
    && PresentBefore(t.lookup, i) >= offset
    && Matches(t, t.getEntry(i), filters)
  }

  /** Every qualifying index below `n`, with its entry, in index order. */
  function Scan<E>(t: GameTable<E>, offset: int, filters: seq<Filter>, n: nat): (r: seq<Row<E>>)
    requires n <= |t.lookup|
    ensures |r| <= n
    ensures forall k :: 0 <= k < |r| ==>
              r[k].id < n && Qualifies(t, offset, filters, r[k].id) && r[k].entry == t.getEntry(r[k].id)
    ensures forall j, k :: 0 <= j < k < |r| ==> r[j].id < r[k].id
  {
    if n == 0 then []
    else
      Scan(t, offset, filters, n - 1)
        + (if Qualifies(t, offset, filters, n - 1) then [Row(n - 1, t.getEntry(n - 1))] else [])
  }

  /** One more index of the scan: the present count and the rows grow by that index's share. */
  lemma ScanStep<E>(t: GameTable<E>, offset: int, filters: seq<Filter>, i: nat)
    requires i < |t.lookup|
    ensures PresentBefore(t.lookup, i + 1) == PresentBefore(t.lookup, i) + (if t.lookup[i] >= 0 then 1 else 0)
    ensures Scan(t, offset, filters, i + 1)
            == Scan(t, offset, filters, i) + (if Qualifies(t, offset, filters, i) then [Row(i, t.getEntry(i))] else [])
  {
  }

  /** At most `limit` rows when `limit` is positive; all of them otherwise. */
  function Take<E>(rows: seq<Row<E>>, limit: int): (r: seq<Row<E>>)
    ensures limit > 0 ==> |r| == if |rows| < limit then |rows| else limit
    ensures limit <= 0 ==> r == rows
    ensures r == rows[..|r|]
  {
    if limit > 0 && |rows| > limit then rows[..limit] else rows
  }

  /** What `GetTable` returns for a parsed query. */
  function Selection<E>(t: GameTable<E>, q: Query): seq<Row<E>>
  {
    Take(Scan(t, q.offset as int, q.filters, |t.lookup|), q.limit as int)
  }

  lemma {:induction false} ScanPrefix<E>(t: GameTable<E>, offset: int, filters: seq<Filter>, i: nat, j: nat)
    requires i <= j <= |t.lookup|
    ensures |Scan(t, offset, filters, i)| <= |Scan(t, offset, filters, j)|
    ensures Scan(t, offset, filters, i) == Scan(t, offset, filters, j)[..|Scan(t, offset, filters, i)|]
    decreases j - i
  {
    if i < j {
      ScanPrefix(t, offset, filters, i, j - 1);
      var a, b := Scan(t, offset, filters, i), Scan(t, offset, filters, j - 1);
      assert Scan(t, offset, filters, j)[..|b|] == b;
      assert b[..|a|] == a;
    }
  }

  /** A qualifying index `i` sits in the full scan right after the qualifying indices before it. */
  lemma QualifyingIsScanned<E>(t: GameTable<E>, offset: int, filters: seq<Filter>, i: nat)
    requires Qualifies(t, offset, filters, i)
    ensures var all := Scan(t, offset, filters, |t.lookup|);
            var before := Scan(t, offset, filters, i);
            |before| < |all| && all[|before|] == Row(i, t.getEntry(i))
  {
    ScanPrefix(t, offset, filters, i + 1, |t.lookup|);
    assert Scan(t, offset, filters, i + 1) == Scan(t, offset, filters, i) + [Row(i, t.getEntry(i))];
  }

  /** Only present entries, past the offset, passing every filter, under their own index. */
  lemma SelectionSound<E>(t: GameTable<E>, q: Query, k: nat)
    requires k < |Selection(t, q)|
    ensures var row := Selection(t, q)[k];
            && row.id < |t.lookup| && t.lookup[row.id] >= 0
            && PresentBefore(t.lookup, row.id) >= q.offset as int
            && Matches(t, row.entry, q.filters)
            && row.entry == t.getEntry(row.id)
  {
    var all := Scan(t, q.offset as int, q.filters, |t.lookup|);
    assert Selection(t, q)[k] == all[k];
  }

  /** The first `offset` present entries never appear, whatever the filters say. */
  lemma OffsetDropsLeadingPresent<E>(t: GameTable<E>, q: Query, i: nat)
    requires i < |t.lookup| && PresentBefore(t.lookup, i) < q.offset as int
    ensures forall k :: 0 <= k < |Selection(t, q)| ==> Selection(t, q)[k].id != i
  {
    forall k | 0 <= k < |Selection(t, q)|
      ensures Selection(t, q)[k].id != i
    {
      SelectionSound(t, q, k);
    }
  }

  /**
    The result is the earliest qualifying indices: a qualifying index is left
    out only when `limit` qualifying indices come before it.
  */
  lemma SelectionComplete<E>(t: GameTable<E>, q: Query, i: nat)
    requires Qualifies(t, q.offset as int, q.filters, i)
    requires q.limit <= 0 || |Scan(t, q.offset as int, q.filters, i)| < q.limit as int
    ensures Row(i, t.getEntry(i)) in Selection(t, q)
  {
    QualifyingIsScanned(t, q.offset as int, q.filters, i);
    var before := Scan(t, q.offset as int, q.filters, i);
    assert Selection(t, q)[|before|] == Row(i, t.getEntry(i));
  }

  /**
    The selection loop over `lookup`: negative entries are skipped, then the
    first `offset` present entries, then entries failing a filter; the loop
    stops once `limit` rows are collected when `limit` is positive.
  */
  method SelectRows<E>(t: GameTable<E>, q: Query) returns (rows: seq<Row<E>>)
    ensures rows == Selection(t, q)
  {
    var lookup := t.lookup;
    var limit, offset := q.limit as int, q.offset as int;
    ghost var all := Scan(t, offset, q.filters, |lookup|);
    rows := [];
    var count := 0;
    var skipped := 0;
    var i := 0;
    while i < |lookup|
      invariant 0 <= i <= |lookup|
      invariant rows == Scan(t, offset, q.filters, i) && count == |rows|
      invariant limit > 0 ==> count < limit
      invariant PresentBefore(lookup, i) <= offset ==> skipped == PresentBefore(lookup, i)
      invariant PresentBefore(lookup, i) > offset ==> skipped >= offset
    {
      ScanStep(t, offset, q.filters, i);
      if lookup[i] >= 0 {
        if offset > 0 && skipped < offset {
          skipped := skipped + 1;
        } else {
          var value := t.getEntry(i);
          var matched := MatchesAll(t, value, q.filters);
          if !matched {
            skipped := skipped + 1;
          } else {
            rows := rows + [Row(i, value)];
            count := count + 1;
            if limit > 0 && limit <= count {
              ScanPrefix(t, offset, q.filters, i + 1, |lookup|);
              return;
            }
          }
        }
      }
      i := i + 1;
    }
  }

  /**
    `GET /tables/{tableName}`. `tables` maps the names of the table manager's
    properties to their values (`None` for null).
  */
  method GetTable<E>(tables: map<string, Option<GameTable<E>>>, tableName: string, query: seq<QueryItem>)
    returns (r: Response<E>)
    requires DistinctKeys(query)
    ensures tableName !in tables ==> r == ServerError
    ensures tableName in tables && tables[tableName].None? ==> r == NullResult
    ensures tableName in tables && tables[tableName].Some? ==>
              var t := tables[tableName].value;
              match FirstUnknown(query, t.fieldNames)
              case Some(k) => r == StatusCode(400, "Unknown field: " + query[k].key)
              case None =>
                r == Json(Selection(t, Query(LastParsed(query, "limit", DEFAULT_LIMIT),
                                             LastParsed(query, "offset", DEFAULT_OFFSET),
                                             FiltersOf(query))))
  {
    if tableName !in tables {
      return ServerError;
    }
    if tables[tableName].None? {
      return NullResult;
    }
    var t := tables[tableName].value;
    var parsed := ParseQuery(query, t.fieldNames);
    match parsed
    case UnknownField(name) =>
      r := StatusCode(400, "Unknown field: " + name);
    case Parsed(q) =>
      var rows := SelectRows(t, q);
      r := Json(rows);
  }
}
