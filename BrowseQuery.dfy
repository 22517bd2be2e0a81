/**
 * The two SQL statements the browsing grid sends for one page: the row query
 * (filter, order, page) and the count query (filter only).
 *
 * Nothing is escaped or parameterised: the table name, the column names and
 * the search term are pasted into the text as they are, and the model keeps
 * it that way.
 */
module BrowseQuery {
  import opened Common
  import opened Schema

  /** The row query, in the parts it is assembled from. */
  datatype RowQuery = RowQuery(table: string, filter: Option<string>, order: Option<SortConfig>,
                               limit: nat, offset: int)

  /** The count query: the same table and filter, no order, no page. */
  datatype CountQuery = CountQuery(table: string, filter: Option<string>)

  /** `${n}` of an integer. */
  function IntToString(i: int): (s: string)
    ensures |s| > 0
  {
    if i < 0 then "-" + NatToString(-i) else NatToString(i)
  }

  /** The text of `${n}` is the decimal value of `n`: digits that read back
      as `n`, after a minus sign when `n` is negative. */
  lemma {:induction false} IntToStringReadsBack(i: int)
    ensures var s := IntToString(i);
      i >= 0 ==> (forall k :: 0 <= k < |s| ==> '0' <= s[k] <= '9') && ParseDecimal(s) == i
    ensures var s := IntToString(i);
      i < 0 ==> s[0] == '-' && (forall k :: 1 <= k < |s| ==> '0' <= s[k] <= '9') && ParseDecimal(s[1..]) == -i
  {
    if i < 0 {
      MinusSignThenDigits(-i, IntToString(i));
    } else {
      NatToStringRoundTrip(i);
    }
  }

  lemma {:induction false} MinusSignThenDigits(n: nat, s: string)
    requires s == "-" + NatToString(n)
    ensures s[0] == '-' && (forall k :: 1 <= k < |s| ==> '0' <= s[k] <= '9') && ParseDecimal(s[1..]) == n
  {
    var d := NatToString(n);
    assert s[1..] == d;
    forall k | 1 <= k < |s| ensures '0' <= s[k] <= '9' {
      assert s[k] == d[k - 1];
    }
    NatToStringRoundTrip(n);
  }

  /** `direction.toUpperCase()`. */
  function DirectionKeyword(d: Direction): string
  {
    match d
    case Asc => "ASC"
    case Desc => "DESC"
  }

  /** One column's search predicate, `name LIKE '%term%'`. */
  function SearchPredicate(col: Column, term: string): (p: string)
    ensures p != ""
  {
    col.name + " LIKE '%" + term + "%'"
  }

  function SearchPredicates(columns: seq<Column>, term: string): (ps: seq<string>)
    ensures |ps| == |columns|
    ensures forall i :: 0 <= i < |columns| ==> ps[i] == SearchPredicate(columns[i], term)
  {
    seq(|columns|, i requires 0 <= i < |columns| => SearchPredicate(columns[i], term))
  }

  /** `tableInfo?.columns.map(...).join(' OR ')`, with `undefined` read as the
      empty (falsy) string. */
  function SearchConditions(columns: Option<seq<Column>>, term: string): string
  {
    match columns
    case None => ""
    case Some(cols) => Join(SearchPredicates(cols, term), " OR ")
  }

  /** The WHERE condition, present only for a non-empty term and a non-empty condition. */
  function Filter(columns: Option<seq<Column>>, term: string): Option<string>
  {
    if term != "" && SearchConditions(columns, term) != "" then Some(SearchConditions(columns, term))
    else None
  }

  /**
   * A filter is added exactly when the term is non-empty and the schema lists
   * at least one column; it then holds one predicate per column, in column
   * order, joined by OR.
   */
  lemma FilterPresence(columns: Option<seq<Column>>, term: string)
    ensures Filter(columns, term).Some? <==> term != "" && columns.Some? && |columns.value| > 0
    ensures Filter(columns, term).Some? ==>
      Filter(columns, term).value == Join(SearchPredicates(columns.value, term), " OR ")
  {
    if columns.Some? && |columns.value| > 0 {
      JoinNonEmpty(SearchPredicates(columns.value, term), " OR ");
    }
  }

  function ComposeRowQuery(table: string, columns: Option<seq<Column>>, term: string,
                           sort: Option<SortConfig>, currentPage: int, pageSize: nat): RowQuery
  {
    RowQuery(table, Filter(columns, term), sort, pageSize, (currentPage - 1) * pageSize)
  }

  function ComposeCountQuery(table: string, columns: Option<seq<Column>>, term: string): CountQuery
  {
    CountQuery(table, Filter(columns, term))
  }

  function WhereClause(filter: Option<string>): string
  {
    match filter
    case None => ""
    case Some(f) => " WHERE " + f
  }

  function OrderClause(order: Option<SortConfig>): string
  {
    match order
    case None => ""
    case Some(s) => " ORDER BY " + s.column + " " + DirectionKeyword(s.direction)
  }

  function PageClause(limit: nat, offset: int): string
  {
    " LIMIT " + IntToString(limit) + " OFFSET " + IntToString(offset)
  }

  function RenderRowQuery(q: RowQuery): string
  {
    "SELECT * FROM " + q.table + WhereClause(q.filter) + OrderClause(q.order) + PageClause(q.limit, q.offset)
  }

  function RenderCountQuery(q: CountQuery): string
  {
    "SELECT COUNT(*) FROM " + q.table + WhereClause(q.filter)
  }

  /** The statements handed to the executor for one page. */
  datatype PageQueries = PageQueries(query: string, countQuery: string)

  /**
   * The query text as `loadData` assembles it, appending one template string
   * per clause. It equals the rendering of the composed row and count queries.
   */
  method BuildQueries(table: string, columns: Option<seq<Column>>, term: string,
                      sort: Option<SortConfig>, currentPage: int, pageSize: nat)
    returns (r: PageQueries)
    ensures r.query == RenderRowQuery(ComposeRowQuery(table, columns, term, sort, currentPage, pageSize))
    ensures r.countQuery == RenderCountQuery(ComposeCountQuery(table, columns, term))
  {
    var query := "SELECT * FROM " + table;
    var countQuery := "SELECT COUNT(*) FROM " + table;
    ghost var filter := Filter(columns, term);
    if term != "" {
      var searchConditions := SearchConditions(columns, term);
      if searchConditions != "" {
        query := query + (" WHERE " + searchConditions);
        countQuery := countQuery + (" WHERE " + searchConditions);
      }
    }
    if filter.None? {
      assert query == query + WhereClause(filter);
      assert countQuery == countQuery + WhereClause(filter);
    }
    if sort.Some? {
      query := query + (" ORDER BY " + sort.value.column + " " + DirectionKeyword(sort.value.direction));
    } else {
      assert query == query + OrderClause(sort);
    }
    var offset := (currentPage - 1) * pageSize;
    query := query + (" LIMIT " + IntToString(pageSize) + " OFFSET " + IntToString(offset));
    r := PageQueries(query, countQuery);
  }

  /**
   * Both statements carry the identical WHERE text, and everything the row
   * query adds after it (order and page) is absent from the count query.
   */
  lemma CountQueryMatchesRowQuery(table: string, columns: Option<seq<Column>>, term: string,
                                  sort: Option<SortConfig>, currentPage: int, pageSize: nat)
    ensures var row := ComposeRowQuery(table, columns, term, sort, currentPage, pageSize);
      var count := ComposeCountQuery(table, columns, term);
      var body := table + WhereClause(count.filter);
      RenderCountQuery(count) == "SELECT COUNT(*) FROM " + body &&
      RenderRowQuery(row) == "SELECT * FROM " + body + OrderClause(sort)
                             + PageClause(pageSize, (currentPage - 1) * pageSize)
  {
    var row := ComposeRowQuery(table, columns, term, sort, currentPage, pageSize);
    var w := WhereClause(row.filter);
    assert "SELECT * FROM " + table + w == "SELECT * FROM " + (table + w);
    assert "SELECT COUNT(*) FROM " + table + w == "SELECT COUNT(*) FROM " + (table + w);
  }

  /** With an empty term neither statement has a WHERE clause. */
  lemma EmptySearchHasNoWhere(table: string, columns: Option<seq<Column>>,
                              sort: Option<SortConfig>, currentPage: int, pageSize: nat)
    ensures RenderRowQuery(ComposeRowQuery(table, columns, "", sort, currentPage, pageSize))
         == "SELECT * FROM " + table + OrderClause(sort) + PageClause(pageSize, (currentPage - 1) * pageSize)
    ensures RenderCountQuery(ComposeCountQuery(table, columns, "")) == "SELECT COUNT(*) FROM " + table
  {
    assert Filter(columns, "") == None;
    var head := "SELECT * FROM " + table;
    assert head + WhereClause(None) == head;
    assert ("SELECT COUNT(*) FROM " + table) + WhereClause(None) == "SELECT COUNT(*) FROM " + table;
  }

  /** Without schema columns a non-empty term is ignored rather than producing an empty WHERE. */
  lemma NoColumnsNoWhere(table: string, columns: Option<seq<Column>>, term: string)
    requires columns.None? || columns == Some([])
    ensures RenderCountQuery(ComposeCountQuery(table, columns, term)) == "SELECT COUNT(*) FROM " + table
  {
    FilterPresence(columns, term);
    assert table + "" == table;
  }
}
