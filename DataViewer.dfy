/**
 * The browsing grid's state: the table being browsed, its search, sort and
 * page, whether an ad-hoc query result is shown instead, and the rows,
 * column names and total row count last loaded.
 *
 * The database is the function `exec` from statement text to what
 * `database.exec(sql)[0]` yields. React re-renders are not modelled: a
 * handler's state updates and the reload its effect triggers happen in one
 * method call.
 */
module GridView {
  import opened Common
  import opened Schema
  import opened CellFormat
  import opened BrowseQuery
  import opened Pagination
  import DataTable
  import TableHeader

  /** The first result set of a statement, none at all, or an exception. */
  datatype ExecResult = Threw | NoResultSet | ResultSet(columns: seq<string>, values: seq<seq<RawValue>>)

  /** How one load ends: the catch branch, or the new rows with the count when one was read. */
  datatype LoadEffect = LoadFailed | Loaded(columns: seq<string>, data: seq<seq<RawValue>>, count: Option<int>)

  /** What the grid shows: column names, rows and the total row count. */
  datatype Shown = Shown(columns: seq<string>, data: seq<seq<RawValue>>, totalRows: int)

  /** `countResult.values[0][0] as number`, when it is a number. */
  function CountCell(countResult: ExecResult): (n: Option<int>)
    ensures n.Some? <==> countResult.ResultSet? && |countResult.values| > 0 && |countResult.values[0]| > 0
                         && countResult.values[0][0].Num?
    ensures n.Some? ==> n.value == countResult.values[0][0].n
  {
    if countResult.ResultSet? && |countResult.values| > 0 && |countResult.values[0]| > 0
       && countResult.values[0][0].Num?
    then Some(countResult.values[0][0].n)
    else None
  }

  /**
   * The outcome of the `try` block of `loadData` from the results of the row
   * and count statements: either statement throwing, or a count result with
   * no rows (reading `values[0][0]` throws), ends in the catch branch.
   */
  function LoadEffectOf(rows: ExecResult, count: ExecResult): (e: LoadEffect)
    ensures e.LoadFailed? <==> rows.Threw? || count.Threw? || (count.ResultSet? && |count.values| == 0)
    ensures e.Loaded? && rows.ResultSet? ==> e.columns == rows.columns && e.data == rows.values
    ensures e.Loaded? && rows.NoResultSet? ==> e.columns == [] && e.data == []
    ensures e.Loaded? && count.NoResultSet? ==> e.count.None?
    ensures e.Loaded? ==> e.count == CountCell(count)
  {
    if rows.Threw? || count.Threw? || (count.ResultSet? && |count.values| == 0) then LoadFailed
    else if rows.ResultSet? then Loaded(rows.columns, rows.values, CountCell(count))
    else Loaded([], [], CountCell(count))
  }

  /** The shown state after a load that ended in `e`. */
  function AfterLoad(e: LoadEffect, previousTotal: int): (s: Shown)
    ensures e.LoadFailed? ==> s == Shown([], [], 0)
    ensures e.Loaded? ==> s.columns == e.columns && s.data == e.data
    ensures e.Loaded? && e.count.Some? ==> s.totalRows == e.count.value
    ensures e.Loaded? && e.count.None? ==> s.totalRows == previousTotal
  {
    match e
    case LoadFailed => Shown([], [], 0)
    case Loaded(c, d, n) => Shown(c, d, if n.Some? then n.value else previousTotal)
  }

  /** The sort after a click on `column` (the updater inside `handleSort`). */
  function NextSort(current: Option<SortConfig>, column: string): (r: Option<SortConfig>)
    ensures !(current.Some? && current.value.column == column) ==> r == Some(SortConfig(column, Asc))
    ensures current == Some(SortConfig(column, Asc)) ==> r == Some(SortConfig(column, Desc))
    ensures current == Some(SortConfig(column, Desc)) ==> r == None
  {
    if current.Some? && current.value.column == column then
      (if current.value.direction == Asc then Some(SortConfig(column, Desc)) else None)
    else Some(SortConfig(column, Asc))
  }

  /** Three clicks on one column from any sort on another column (or none)
      go ascending, descending, unsorted. */
  lemma SortCycle(start: Option<SortConfig>, column: string)
    requires !(start.Some? && start.value.column == column)
    ensures NextSort(start, column) == Some(SortConfig(column, Asc))
    ensures NextSort(NextSort(start, column), column) == Some(SortConfig(column, Desc))
    ensures NextSort(NextSort(NextSort(start, column), column), column) == None
  {
  }

  /** The sort a click produces always concerns the clicked column, if any. */
  lemma NextSortTargetsClickedColumn(current: Option<SortConfig>, column: string)
    ensures NextSort(current, column).Some? ==> NextSort(current, column).value.column == column
    ensures NextSort(current, column).None? <==> current == Some(SortConfig(column, Desc))
  {
  }

  /**
   * The header arrows follow the clicks: up, down, then neutral on the
   * clicked column, and every other column shows the neutral arrow after
   * any click.
   */
  lemma SortClicksDriveHeaderArrows(start: Option<SortConfig>, column: string)
    requires !(start.Some? && start.value.column == column)
    ensures TableHeader.GetSortIcon(NextSort(start, column), column) == TableHeader.Up
    ensures TableHeader.GetSortIcon(NextSort(NextSort(start, column), column), column) == TableHeader.Down
    ensures TableHeader.GetSortIcon(NextSort(NextSort(NextSort(start, column), column), column), column)
         == TableHeader.Neutral
    ensures forall current: Option<SortConfig>, other: string :: other != column ==>
      TableHeader.GetSortIcon(NextSort(current, column), other) == TableHeader.Neutral
  {
    SortCycle(start, column);
    forall current: Option<SortConfig>, other: string | other != column
      ensures TableHeader.GetSortIcon(NextSort(current, column), other) == TableHeader.Neutral
    {
      NextSortTargetsClickedColumn(current, column);
    }
  }

  function ColumnsOf(tableInfo: Option<TableInfo>): Option<seq<Column>>
  {
    if tableInfo.Some? then Some(tableInfo.value.columns) else None
  }

  /** `row.join('\t')`, the text of a row copy: it splits back at its tabs
      into its cells' texts, in column order, when no cell contains a tab. */
  function RowCopyText(row: seq<RawValue>, conv: Conversions): (t: string)
    ensures |row| > 0 && (forall i :: 0 <= i < |row| ==> '\t' !in JoinText(row[i], conv)) ==>
      var cells := Split(t, '\t');
      |cells| == |row| && forall i :: 0 <= i < |row| ==> cells[i] == JoinText(row[i], conv)
  {
    var texts := seq(|row|, i requires 0 <= i < |row| => JoinText(row[i], conv));
    if |row| > 0 && forall i :: 0 <= i < |texts| ==> '\t' !in texts[i] then
      SplitJoinRoundTrip(texts, '\t');
      Join(texts, "\t")
    else Join(texts, "\t")
  }

  /** The browsing parameters and props a load reads. */
  datatype Params = Params(hasDatabase: bool, tableName: string, tableInfo: Option<TableInfo>,
                           searchTerm: string, currentPage: int, sortConfig: Option<SortConfig>,
                           isQueryMode: bool)

  /** `loadData` returns at once without a database, without a table, or in ad-hoc mode. */
  function LoadSkipped(p: Params): bool
  {
    !p.hasDatabase || p.tableName == "" || p.isQueryMode
  }

  /** The parameters right after the table-change effect's reset. */
  function FreshParams(db: bool, name: string, info: Option<TableInfo>): Params
  {
    Params(db, name, info, "", 1, None, false)
  }

  /** The statements one `loadData` call with parameters `p` sends, and the
      grid it leaves, from the grid `shown`. */
  function LoadOutcome(p: Params, shown: Shown, exec: string -> ExecResult): (r: (seq<PageQueries>, Shown))
    ensures LoadSkipped(p) ==> r == ([], shown)
    ensures !LoadSkipped(p) ==> r.0 == [QueriesFor(p)]
  {
    if LoadSkipped(p) then ([], shown)
    else
      var q := QueriesFor(p);
      ([q], AfterLoad(LoadEffectOf(exec(q.query), exec(q.countQuery)), shown.totalRows))
  }

  /** What a load shows, apart from the total, does not depend on the grid before it. */
  lemma LoadedRowsIgnoreEarlierGrid(p: Params, a: Shown, b: Shown, exec: string -> ExecResult)
    requires !LoadSkipped(p)
    ensures LoadOutcome(p, a, exec).1.columns == LoadOutcome(p, b, exec).1.columns
    ensures LoadOutcome(p, a, exec).1.data == LoadOutcome(p, b, exec).1.data
  {
  }

  /** What `LoadData` promises is one `LoadOutcome` step. */
  lemma LoadDataIsLoadOutcome(p: Params, before: Shown, sent: Option<PageQueries>, after: Shown,
                              exec: string -> ExecResult)
    requires LoadSkipped(p) ==> sent.None? && after == before
    requires !LoadSkipped(p) ==>
      sent == Some(QueriesFor(p)) &&
      after == AfterLoad(LoadEffectOf(exec(sent.value.query), exec(sent.value.countQuery)), before.totalRows)
    ensures (if sent.Some? then [sent.value] else [], after) == LoadOutcome(p, before, exec)
  {
  }

  /** A reload with parameters `p` after any earlier load sends, last, the
      statements of `p` and shows what loading `p` directly would show. */
  lemma ReloadEndsAsIntended(p: Params, earlier: seq<PageQueries>, mid: Shown, before: Shown,
                             exec: string -> ExecResult)
    requires !LoadSkipped(p)
    ensures var second := LoadOutcome(p, mid, exec);
      var direct := LoadOutcome(p, before, exec);
      var all := earlier + second.0;
      |all| > 0 && all[|all| - 1] == direct.0[0]
      && second.1.columns == direct.1.columns && second.1.data == direct.1.data
  {
  }

  /**
   * The statements sent and the grid shown after the table-change effects
   * as written, from `stale`: the new table with the previous search, page,
   * sort and mode. The first effect loads with `stale` (and returns at once
   * in ad-hoc mode); the second loads the reset parameters, but only when
   * the reset changed the search, the page or the sort.
   *
   * Except right after an ad-hoc result with default search, page and sort,
   * when nothing is sent and the old rows stay, the last statement sent and
   * the rows and columns shown are those of the intended table change.
   */
  function StaleTableChange(stale: Params, shownBefore: Shown, exec: string -> ExecResult)
    : (r: (seq<PageQueries>, Shown))
    requires stale.hasDatabase && stale.tableName != ""
    ensures var changed := stale.searchTerm != "" || stale.currentPage != 1 || stale.sortConfig.Some?;
      stale.isQueryMode && !changed ==> r == ([], shownBefore)
    ensures var changed := stale.searchTerm != "" || stale.currentPage != 1 || stale.sortConfig.Some?;
      var intended := LoadOutcome(FreshParams(stale.hasDatabase, stale.tableName, stale.tableInfo),
                                  shownBefore, exec);
      !(stale.isQueryMode && !changed) ==>
        |r.0| > 0 && r.0[|r.0| - 1] == intended.0[0]
        && r.1.columns == intended.1.columns && r.1.data == intended.1.data
  {
    var changed := stale.searchTerm != "" || stale.currentPage != 1 || stale.sortConfig.Some?;
    var reset := FreshParams(stale.hasDatabase, stale.tableName, stale.tableInfo);
    var first := LoadOutcome(stale, shownBefore, exec);
    if changed then
      var second := LoadOutcome(reset, first.1, exec);
      ReloadEndsAsIntended(reset, first.0, first.1, shownBefore, exec);
      (first.0 + second.0, second.1)
    else if stale.isQueryMode then first
    else
      assert stale == reset;
      first
  }

  /** The two statements a load with parameters `p` sends. */
  function QueriesFor(p: Params): PageQueries
  {
    PageQueries(
      RenderRowQuery(ComposeRowQuery(p.tableName, ColumnsOf(p.tableInfo), p.searchTerm, p.sortConfig,
                                     p.currentPage, PageSize)),
      RenderCountQuery(ComposeCountQuery(p.tableName, ColumnsOf(p.tableInfo), p.searchTerm)))
  }

  /**
   * The "Showing a to b" line names exactly the rows the row query fetches:
   * `a - 1` is its OFFSET, and on an existing page the range holds as many
   * rows as LIMIT and OFFSET leave of a table of `totalRows` matching rows.
   */
  lemma ShowingNamesFetchedRows(p: Params, totalRows: int)
    requires 1 <= p.currentPage <= Pagination.TotalPages(totalRows, PageSize)
    ensures var q := ComposeRowQuery(p.tableName, ColumnsOf(p.tableInfo), p.searchTerm, p.sortConfig,
                                     p.currentPage, PageSize);
      var r := Showing(p.currentPage, PageSize, totalRows);
      r.first - 1 == q.offset && r.total == totalRows &&
      r.last - q.offset == (if totalRows - q.offset < q.limit then totalRows - q.offset else q.limit)
  {
    ShowingRangeMatchesPage(p.currentPage, PageSize, totalRows);
  }

  class DataViewer {
    // props
    var hasDatabase: bool
    var tableName: string
    var tableInfo: Option<TableInfo>
    // state
    var data: seq<seq<RawValue>>
    var columns: seq<string>
    var searchTerm: string
    var currentPage: int
    var sortConfig: Option<SortConfig>
    var totalRows: int
    var isQueryMode: bool
    // the cell inspector
    var selectedCellContent: Option<string>
    var selectedColumnName: string
    var isCellDialogOpen: bool

    /** Every way the page changes keeps it at 1 or above. */
    ghost predicate Valid()
      reads this
    {
      currentPage >= 1
    }

    function CurrentParams(): Params
      reads this
    {
      Params(hasDatabase, tableName, tableInfo, searchTerm, currentPage, sortConfig, isQueryMode)
    }

    function ShownNow(): Shown
      reads this
    {
      Shown(columns, data, totalRows)
    }

    /** `Math.ceil(totalRows / pageSize)`. */
    function TotalPages(): int
      reads this
    {
      Pagination.TotalPages(totalRows, PageSize)
    }

    constructor ()
      ensures Valid()
      ensures CurrentParams() == Params(false, "", None, "", 1, None, false)
      ensures ShownNow() == Shown([], [], 0)
      ensures selectedCellContent.None? && selectedColumnName == "" && !isCellDialogOpen
    {
      hasDatabase, tableName, tableInfo := false, "", None;
      data, columns := [], [];
      searchTerm, currentPage, sortConfig := "", 1, None;
      totalRows, isQueryMode := 0, false;
      selectedCellContent, selectedColumnName, isCellDialogOpen := None, "", false;
    }

    /**
     * `loadData`: unless skipped, send the row and count statements for the
     * current parameters and store what comes back, or clear the grid when
     * anything throws. The parameters themselves never change.
     */
    method LoadData(exec: string -> ExecResult) returns (sent: Option<PageQueries>)
      requires Valid()
      modifies this
      ensures Valid()
      ensures CurrentParams() == old(CurrentParams())
      ensures selectedCellContent == old(selectedCellContent) && selectedColumnName == old(selectedColumnName)
      ensures isCellDialogOpen == old(isCellDialogOpen)
      ensures LoadSkipped(old(CurrentParams())) ==> sent.None? && ShownNow() == old(ShownNow())
      ensures !LoadSkipped(old(CurrentParams())) ==>
        sent == Some(QueriesFor(old(CurrentParams()))) &&
        ShownNow() == AfterLoad(LoadEffectOf(exec(sent.value.query), exec(sent.value.countQuery)), old(totalRows))
    {
      if !hasDatabase || tableName == "" || isQueryMode {
        return None;
      }
      var q := BuildQueries(tableName, ColumnsOf(tableInfo), searchTerm, sortConfig, currentPage, PageSize);
      sent := Some(q);
      StoreResults(exec, q);
    }

    /** The `try`/`catch` of `loadData` once the statements are built: run
        them and store rows, columns and count, or clear the grid. */
    method StoreResults(exec: string -> ExecResult, q: PageQueries)
      modifies this
      ensures CurrentParams() == old(CurrentParams())
      ensures selectedCellContent == old(selectedCellContent) && selectedColumnName == old(selectedColumnName)
      ensures isCellDialogOpen == old(isCellDialogOpen)
      ensures ShownNow() == AfterLoad(LoadEffectOf(exec(q.query), exec(q.countQuery)), old(totalRows))
    {
      var result := exec(q.query);
      if result.Threw? {
        data, columns, totalRows := [], [], 0;
        return;
      }
      var countResult := exec(q.countQuery);
      if countResult.Threw? {
        data, columns, totalRows := [], [], 0;
        return;
      }
      if result.ResultSet? {
        columns, data := result.columns, result.values;
      } else {
        columns, data := [], [];
      }
      if countResult.ResultSet? {
        if |countResult.values| == 0 {
          // reading values[0][0] throws: the catch branch
          data, columns, totalRows := [], [], 0;
          return;
        }
        var count := CountCell(countResult);
        if count.Some? {
          totalRows := count.value;
        }
      }
    }

    /**
     * The table-change effect, as the grid intends it: a new table starts on
     * page 1 with no search, no sort and out of ad-hoc mode, and is loaded
     * with those parameters. Without a database or a table name nothing but
     * the props changes.
     */
    method SelectTable(db: bool, name: string, info: Option<TableInfo>, exec: string -> ExecResult)
      returns (sent: Option<PageQueries>)
      requires Valid()
      modifies this
      ensures Valid()
      ensures hasDatabase == db && tableName == name && tableInfo == info
      ensures !db || name == "" ==>
        sent.None? && searchTerm == old(searchTerm) && currentPage == old(currentPage)
        && sortConfig == old(sortConfig) && isQueryMode == old(isQueryMode) && ShownNow() == old(ShownNow())
      ensures db && name != "" ==>
        searchTerm == "" && currentPage == 1 && sortConfig.None? && !isQueryMode
        && sent == Some(QueriesFor(FreshParams(db, name, info)))
        && ShownNow() == AfterLoad(LoadEffectOf(exec(sent.value.query), exec(sent.value.countQuery)),
                                   old(totalRows))
    {
      hasDatabase, tableName, tableInfo := db, name, info;
      if !db || name == "" {
        return None;
      }
      ResetBrowsing();
      sent := LoadData(exec);
    }

    /**
     * The table-change effect as the code runs it: the effect's `loadData`
     * still sees the parameters of the render before the reset (in
     * particular the old ad-hoc flag), and the second effect reloads only if
     * the reset changed the search term, the page or the sort.
     */
    method SelectTableAsWritten(db: bool, name: string, info: Option<TableInfo>, exec: string -> ExecResult)
      returns (sent: seq<PageQueries>)
      requires Valid()
      modifies this
      ensures Valid()
      ensures hasDatabase == db && tableName == name && tableInfo == info
      ensures db && name != "" ==> searchTerm == "" && currentPage == 1 && sortConfig.None? && !isQueryMode
      ensures !db || name == "" ==>
        sent == [] && searchTerm == old(searchTerm) && currentPage == old(currentPage)
        && sortConfig == old(sortConfig) && isQueryMode == old(isQueryMode) && ShownNow() == old(ShownNow())
      ensures db && name != "" ==>
        (sent, ShownNow()) == StaleTableChange(
          Params(db, name, info, old(searchTerm), old(currentPage), old(sortConfig), old(isQueryMode)),
          old(ShownNow()), exec)
    {
      hasDatabase, tableName, tableInfo := db, name, info;
      sent := [];
      if !db || name == "" {
        return;
      }
      // the effect's closure: the previous search, page, sort and mode
      ghost var stale := CurrentParams();
      ghost var before := ShownNow();
      var changed := searchTerm != "" || currentPage != 1 || sortConfig.Some?;
      var first := LoadData(exec);
      LoadDataIsLoadOutcome(stale, before, first, ShownNow(), exec);
      if first.Some? {
        sent := [first.value];
      }
      ResetBrowsing();
      if changed {
        ghost var afterFirst := ShownNow();
        var second := LoadData(exec);
        LoadDataIsLoadOutcome(FreshParams(db, name, info), afterFirst, second, ShownNow(), exec);
        sent := sent + [second.value];
      }
    }

    /** The four updates the table-change effect makes before any reload. */
    method ResetBrowsing()
      modifies this
      ensures currentPage == 1 && searchTerm == "" && sortConfig.None? && !isQueryMode
      ensures hasDatabase == old(hasDatabase) && tableName == old(tableName) && tableInfo == old(tableInfo)
      ensures ShownNow() == old(ShownNow())
    {
      currentPage := 1;
      searchTerm := "";
      sortConfig := None;
      isQueryMode := false;
    }

    /** `handleSearchChange`: a new term starts again on page 1; the reload
        runs only if the term or the page actually changed. */
    method SearchChange(value: string, exec: string -> ExecResult) returns (sent: Option<PageQueries>)
      requires Valid()
      modifies this
      ensures Valid()
      ensures searchTerm == value && currentPage == 1
      ensures sortConfig == old(sortConfig) && isQueryMode == old(isQueryMode)
      ensures tableName == old(tableName) && tableInfo == old(tableInfo) && hasDatabase == old(hasDatabase)
      ensures old(searchTerm) == value && old(currentPage) == 1 ==> sent.None? && ShownNow() == old(ShownNow())
      ensures !(old(searchTerm) == value && old(currentPage) == 1) && !LoadSkipped(CurrentParams()) ==>
        sent == Some(QueriesFor(CurrentParams())) &&
        ShownNow() == AfterLoad(LoadEffectOf(exec(sent.value.query), exec(sent.value.countQuery)), old(totalRows))
      ensures LoadSkipped(CurrentParams()) ==> sent.None? && ShownNow() == old(ShownNow())
    {
      var changed := searchTerm != value || currentPage != 1;
      searchTerm := value;
      currentPage := 1;
      sent := None;
      if changed {
        sent := LoadData(exec);
      }
    }

    /** `handleSort`: the sort moves one step on the clicked column, the page
        goes back to 1, and the grid reloads. */
    method SortClick(column: string, exec: string -> ExecResult) returns (sent: Option<PageQueries>)
      requires Valid()
      modifies this
      ensures Valid()
      ensures sortConfig == NextSort(old(sortConfig), column) && currentPage == 1
      ensures searchTerm == old(searchTerm) && isQueryMode == old(isQueryMode)
      ensures tableName == old(tableName) && tableInfo == old(tableInfo) && hasDatabase == old(hasDatabase)
      ensures !LoadSkipped(CurrentParams()) ==>
        sent == Some(QueriesFor(CurrentParams())) &&
        ShownNow() == AfterLoad(LoadEffectOf(exec(sent.value.query), exec(sent.value.countQuery)), old(totalRows))
      ensures LoadSkipped(CurrentParams()) ==> sent.None? && ShownNow() == old(ShownNow())
    {
      sortConfig := NextSort(sortConfig, column);
      currentPage := 1;
      sent := LoadData(exec);
    }

    /** A pager button: a different page reloads, the same page does nothing. */
    method PageChange(page: int, exec: string -> ExecResult) returns (sent: Option<PageQueries>)
      requires Valid()
      requires page >= 1
      modifies this
      ensures Valid()
      ensures currentPage == page
      ensures searchTerm == old(searchTerm) && sortConfig == old(sortConfig) && isQueryMode == old(isQueryMode)
      ensures tableName == old(tableName) && tableInfo == old(tableInfo) && hasDatabase == old(hasDatabase)
      ensures old(currentPage) == page || LoadSkipped(CurrentParams()) ==>
        sent.None? && ShownNow() == old(ShownNow())
      ensures old(currentPage) != page && !LoadSkipped(CurrentParams()) ==>
        sent == Some(QueriesFor(CurrentParams())) &&
        ShownNow() == AfterLoad(LoadEffectOf(exec(sent.value.query), exec(sent.value.countQuery)), old(totalRows))
    {
      sent := None;
      if page != currentPage {
        currentPage := page;
        sent := LoadData(exec);
      }
    }

    /**
     * An ad-hoc result (`handleQueryColumns` then `handleQueryResult`): its
     * columns and rows replace the grid, ad-hoc mode starts, the total is
     * the number of rows and the page goes back to 1. The reload the page
     * change triggers returns at once, since ad-hoc mode is on.
     */
    method QueryResult(queryColumns: seq<string>, rows: seq<seq<RawValue>>)
      requires Valid()
      modifies this
      ensures Valid()
      ensures ShownNow() == Shown(queryColumns, rows, |rows|)
      ensures isQueryMode && currentPage == 1
      ensures searchTerm == old(searchTerm) && sortConfig == old(sortConfig)
      ensures tableName == old(tableName) && tableInfo == old(tableInfo) && hasDatabase == old(hasDatabase)
    {
      columns := queryColumns;
      data := rows;
      isQueryMode := true;
      totalRows := |rows|;
      currentPage := 1;
    }

    /** `handleDataChange`, after a row edit: reload with the same parameters. */
    method DataChange(exec: string -> ExecResult) returns (sent: Option<PageQueries>)
      requires Valid()
      modifies this
      ensures Valid()
      ensures CurrentParams() == old(CurrentParams())
      ensures LoadSkipped(CurrentParams()) ==> sent.None? && ShownNow() == old(ShownNow())
      ensures !LoadSkipped(CurrentParams()) ==>
        sent == Some(QueriesFor(CurrentParams())) &&
        ShownNow() == AfterLoad(LoadEffectOf(exec(sent.value.query), exec(sent.value.countQuery)), old(totalRows))
    {
      sent := LoadData(exec);
    }

    /** `handleCellClick`: the inspector opens on the reported value and column. */
    method CellClick(fullValue: string, columnName: string)
      modifies this
      ensures selectedCellContent == Some(fullValue) && selectedColumnName == columnName && isCellDialogOpen
      ensures CurrentParams() == old(CurrentParams()) && ShownNow() == old(ShownNow())
    {
      selectedCellContent, selectedColumnName, isCellDialogOpen := Some(fullValue), columnName, true;
    }

    /** `handleCopyColumn`: every shown row's value at the column, one per
        line, so that it splits back into those values. */
    function ColumnCopyText(columnIndex: int, conv: Conversions): (t: string)
      reads this
      ensures |data| > 0 && (forall k :: 0 <= k < |data| ==> '\n' !in JoinText(CellAt(data[k], columnIndex), conv)) ==>
        var lines := Split(t, '\n');
        |lines| == |data| &&
        forall k :: 0 <= k < |data| ==> lines[k] == JoinText(CellAt(data[k], columnIndex), conv)
    {
      DataTable.ColumnCopyText(data, columnIndex, conv)
    }
  }

  /**
   * The intended table change leaves ad-hoc mode and sends the new table's
   * first page, whatever state the grid was in.
   */
  method TableChangeLeavesAdHocMode(exec: string -> ExecResult, info: TableInfo)
    returns (sent: Option<PageQueries>, adHoc: bool)
    ensures !adHoc
    ensures sent == Some(QueriesFor(Params(true, "orders", Some(info), "", 1, None, false)))
  {
    var v := new DataViewer();
    var _ := v.SelectTable(true, "users", Some(info), exec);
    v.QueryResult(["id"], [[Num(1)], [Num(2)]]);
    sent := v.SelectTable(true, "orders", Some(info), exec);
    adHoc := v.isQueryMode;
  }

  /**
   * As written, switching tables right after an ad-hoc query (search empty,
   * no sort, page 1) sends no statement at all: the grid leaves ad-hoc mode
   * but keeps showing the ad-hoc rows under the new table's name.
   */
  method StaleAdHocRowsAfterTableChange(exec: string -> ExecResult, info: TableInfo)
    returns (sent: seq<PageQueries>, shown: Shown, adHoc: bool)
    ensures sent == [] && !adHoc
    ensures shown == Shown(["id"], [[Num(1)], [Num(2)]], 2)
  {
    var v := new DataViewer();
    var _ := v.SelectTable(true, "users", Some(info), exec);
    v.QueryResult(["id"], [[Num(1)], [Num(2)]]);
    sent := v.SelectTableAsWritten(true, "orders", Some(info), exec);
    shown := v.ShownNow();
    adHoc := v.isQueryMode;
  }
}
