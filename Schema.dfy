/**
 * The records the grid components pass between them: a table's column
 * descriptions as schema introspection reports them, and the active sort.
 */
module Schema {

  /** `{name, type, notnull, pk}` of one column. */
  datatype Column = Column(name: string, sqlType: string, notNull: bool, pk: bool)

  /** `{name, columns, rowCount}` of one table. */
  datatype TableInfo = TableInfo(name: string, columns: seq<Column>, rowCount: int)

  datatype Direction = Asc | Desc

  /** `{column, direction}`; the absent sort is `None` where it is used. */
  datatype SortConfig = SortConfig(column: string, direction: Direction)

  /** `columns.findIndex(pred)` for "the column named `name`": the first match. */
  function FindByName(columns: seq<Column>, name: string): (r: int)
    ensures -1 <= r < |columns|
    ensures r >= 0 ==> columns[r].name == name && forall k :: 0 <= k < r ==> columns[k].name != name
    ensures r == -1 ==> forall k :: 0 <= k < |columns| ==> columns[k].name != name
    decreases |columns|
  {
    if |columns| == 0 then -1
    else if columns[0].name == name then 0
    else
      var rest := FindByName(columns[1..], name);
      if rest == -1 then -1 else rest + 1
  }

  /** `columns.findIndex(col => col.pk)`: the first primary-key column. */
  function FindPrimaryKey(columns: seq<Column>): (r: int)
    ensures -1 <= r < |columns|
    ensures r >= 0 ==> columns[r].pk && forall k :: 0 <= k < r ==> !columns[k].pk
    ensures r == -1 ==> forall k :: 0 <= k < |columns| ==> !columns[k].pk
    decreases |columns|
  {
    if |columns| == 0 then -1
    else if columns[0].pk then 0
    else
      var rest := FindPrimaryKey(columns[1..]);
      if rest == -1 then -1 else rest + 1
  }
}
