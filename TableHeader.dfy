/**
 * The header row of the grid: which sort arrow each column shows, which
 * icon marks its role, where a locked header sits, and which action a click
 * on each part of a header cell triggers.
 */
module TableHeader {
  import opened Common
  import opened Schema
  import opened ColumnLock

  /** Neutral double arrow, arrow up, arrow down. */
  datatype SortIcon = Neutral | Up | Down

  /** `getSortIcon(column)`. */
  function GetSortIcon(sortConfig: Option<SortConfig>, column: string): (r: SortIcon)
    ensures r == Neutral <==> !(sortConfig.Some? && sortConfig.value.column == column)
    ensures r == Up <==> sortConfig == Some(SortConfig(column, Asc))
    ensures r == Down <==> sortConfig == Some(SortConfig(column, Desc))
  {
    match sortConfig
    case None => Neutral
    case Some(SortConfig(c, d)) =>
      if c != column then Neutral
      else match d
        case Asc => Up
        case Desc => Down
  }

  /** The arrow actually drawn: none at all while an ad-hoc result is shown. */
  function ShownSortIcon(isQueryMode: bool, sortConfig: Option<SortConfig>, column: string): (r: Option<SortIcon>)
    ensures r.None? <==> isQueryMode
    ensures r.Some? ==> r.value == GetSortIcon(sortConfig, column)
  {
    if isQueryMode then None else Some(GetSortIcon(sortConfig, column))
  }

  /** Key for a primary key, hash otherwise. */
  datatype ColumnIcon = KeyIcon | HashIcon

  /** `getColumnIcon(name)`: the first schema column with that name decides. */
  function GetColumnIcon(tableInfo: Option<TableInfo>, columnName: string): (r: ColumnIcon)
    ensures r == KeyIcon <==>
      tableInfo.Some? &&
      exists i :: 0 <= i < |tableInfo.value.columns| && tableInfo.value.columns[i].name == columnName
        && tableInfo.value.columns[i].pk
        && forall k :: 0 <= k < i ==> tableInfo.value.columns[k].name != columnName
  {
    if tableInfo.None? then HashIcon
    else
      var i := FindByName(tableInfo.value.columns, columnName);
      if i >= 0 && tableInfo.value.columns[i].pk then KeyIcon else HashIcon
  }

  /** With distinct column names the key marks exactly the primary-key columns. */
  lemma KeyIconMarksPrimaryKeys(info: TableInfo, i: int)
    requires 0 <= i < |info.columns|
    requires forall a, b :: 0 <= a < b < |info.columns| ==> info.columns[a].name != info.columns[b].name
    ensures GetColumnIcon(Some(info), info.columns[i].name) == KeyIcon <==> info.columns[i].pk
  {
  }

  /** The part of a header cell that was clicked. */
  datatype HeaderTarget = HeaderBody | LockButton | CopyButton

  /** What reaches the grid when a header part is clicked. */
  datatype HeaderAction = RequestSort(column: string) | ToggleLock(index: int) | CopyColumn(index: int)

  /**
   * The actions one click triggers. The lock and copy buttons stop the
   * click from propagating, so they never sort; a click on the body sorts
   * only outside ad-hoc mode.
   */
  function HeaderClick(target: HeaderTarget, isQueryMode: bool, column: string, index: int): (r: seq<HeaderAction>)
    ensures |r| <= 1
    ensures RequestSort(column) in r <==> target == HeaderBody && !isQueryMode
    ensures forall a :: a in r && a.RequestSort? ==> a == RequestSort(column)
    ensures target == HeaderBody && !isQueryMode ==> r == [RequestSort(column)]
    ensures target == LockButton ==> r == [ToggleLock(index)]
    ensures target == CopyButton ==> r == [CopyColumn(index)]
  {
    match target
    case HeaderBody => if isQueryMode then [] else [RequestSort(column)]
    case LockButton => [ToggleLock(index)]
    case CopyButton => [CopyColumn(index)]
  }

  /** The `left` offset of a header cell: the same rule as body cells use. */
  function HeaderOffset(lockedColumns: seq<int>, index: int): (r: Option<int>)
    ensures r == StickyOffset(lockedColumns, index)
    ensures r.Some? <==> index in lockedColumns
  {
    StickyOffset(lockedColumns, index)
  }

  /** The trailing "Actions" header is shown only outside ad-hoc mode and
      when the table's schema is known. */
  function ShowActionsHeader(isQueryMode: bool, tableInfo: Option<TableInfo>): (r: bool)
    ensures r <==> !isQueryMode && tableInfo.Some?
  {
    !isQueryMode && tableInfo.Some?
  }
}
