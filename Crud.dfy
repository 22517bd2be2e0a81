/**
 * The row editor next to the grid: the add/edit form, and the DELETE,
 * UPDATE and INSERT statements with their parameter lists that it hands to
 * the database.
 *
 * The database is the function `run`, which says whether executing a
 * statement succeeds; a statement that throws is a failure. Confirmation
 * dialogs are a boolean the caller passes in.
 */
module Crud {
  import opened Common
  import opened Schema
  import opened CellFormat

  /** Statement text with its positional `?` parameters. */
  datatype Statement = Statement(sql: string, params: seq<RawValue>)

  /**
   * How a delete or save ends: not confirmed, refused for want of a primary
   * key, or the statement sent and either thrown (`Failed`) or completed
   * (`Succeeded`, after which the grid reloads).
   */
  datatype Outcome = Dismissed | MissingPrimaryKey | Failed(statement: Statement) | Succeeded(statement: Statement)

  /** `record[name]`: a missing key reads `undefined`, folded into `Null`. */
  function Lookup(record: map<string, RawValue>, name: string): (v: RawValue)
    ensures name in record ==> v == record[name]
    ensures name !in record ==> v == Null
  {
    if name in record then record[name] else Null
  }

  function ColumnNames(columns: seq<Column>): (names: seq<string>)
    ensures |names| == |columns|
    ensures forall i :: 0 <= i < |columns| ==> names[i] == columns[i].name
  {
    seq(|columns|, i requires 0 <= i < |columns| => columns[i].name)
  }

  // ---------------------------------------------------------------- forms

  /** What `initializeFormData` stores for one column: the row's value when a
      row is given, the empty string otherwise. */
  function InitialValue(row: Option<map<string, RawValue>>, name: string): RawValue
  {
    if row.Some? then Lookup(row.value, name) else Str("")
  }

  /** The record the `forEach` of `initializeFormData` has filled after the given names. */
  function FormOf(names: seq<string>, row: Option<map<string, RawValue>>): map<string, RawValue>
    decreases |names|
  {
    if |names| == 0 then map[]
    else
      var last := names[|names| - 1];
      FormOf(names[..|names| - 1], row)[last := InitialValue(row, last)]
  }

  /** The form holds exactly the column names, each with its initial value. */
  lemma {:induction false} FormOfContents(names: seq<string>, row: Option<map<string, RawValue>>)
    ensures FormOf(names, row).Keys == set n | n in names
    ensures forall n :: n in names ==> FormOf(names, row)[n] == InitialValue(row, n)
    decreases |names|
  {
    if |names| > 0 {
      var init := names[..|names| - 1];
      FormOfContents(init, row);
      assert forall n :: n in names <==> n in init || n == names[|names| - 1] by {
        assert names == init + [names[|names| - 1]];
      }
    }
  }

  /** `initializeFormData`'s loop over the columns. */
  method BuildForm(columns: seq<Column>, row: Option<map<string, RawValue>>)
    returns (data: map<string, RawValue>)
    ensures data == FormOf(ColumnNames(columns), row)
    ensures data.Keys == set n | n in ColumnNames(columns)
    ensures forall n :: n in ColumnNames(columns) ==> data[n] == InitialValue(row, n)
  {
    var names := ColumnNames(columns);
    data := map[];
    var i := 0;
    while i < |columns|
      invariant 0 <= i <= |columns|
      invariant data == FormOf(names[..i], row)
    {
      assert names[..i + 1][..i] == names[..i];
      data := data[columns[i].name := InitialValue(row, columns[i].name)];
      i := i + 1;
    }
    assert names[..|columns|] == names;
    FormOfContents(names, row);
  }

  /** A fresh form (Add) maps every column name to the empty string. */
  lemma FreshFormIsBlank(columns: seq<Column>)
    ensures FormOf(ColumnNames(columns), None).Keys == set n | n in ColumnNames(columns)
    ensures forall n :: n in ColumnNames(columns) ==> FormOf(ColumnNames(columns), None)[n] == Str("")
  {
    FormOfContents(ColumnNames(columns), None);
  }

  /** The record `handleEdit` fills from a positional row after the given columns. */
  function RecordOf(columns: seq<Column>, row: seq<RawValue>): map<string, RawValue>
    decreases |columns|
  {
    if |columns| == 0 then map[]
    else
      var n := |columns| - 1;
      RecordOf(columns[..n], row)[columns[n].name := CellAt(row, n)]
  }

  /** No later column has the same name, so this column's write is the one that stays. */
  predicate LastWithName(columns: seq<Column>, i: int)
    requires 0 <= i < |columns|
  {
    forall j :: i < j < |columns| ==> columns[j].name != columns[i].name
  }

  lemma {:induction false} RecordOfKeys(columns: seq<Column>, row: seq<RawValue>)
    ensures RecordOf(columns, row).Keys == set n | n in ColumnNames(columns)
    decreases |columns|
  {
    if |columns| > 0 {
      var n := |columns| - 1;
      RecordOfKeys(columns[..n], row);
      assert ColumnNames(columns) == ColumnNames(columns[..n]) + [columns[n].name];
    }
  }

  lemma {:induction false} RecordOfValues(columns: seq<Column>, row: seq<RawValue>, i: int)
    requires 0 <= i < |columns| && LastWithName(columns, i)
    ensures columns[i].name in RecordOf(columns, row)
    ensures RecordOf(columns, row)[columns[i].name] == CellAt(row, i)
    decreases |columns|
  {
    var n := |columns| - 1;
    if i < n {
      var init := columns[..n];
      assert init[i] == columns[i];
      assert LastWithName(init, i) by {
        forall j | i < j < |init| ensures init[j].name != init[i].name {
          assert init[j] == columns[j];
        }
      }
      RecordOfValues(init, row, i);
    }
  }

  /**
   * The edit record holds exactly the column names; a name maps to the row's
   * value at the last column carrying it (at its only column when names are
   * distinct), `Null` when the row is shorter.
   */
  lemma RecordOfContents(columns: seq<Column>, row: seq<RawValue>)
    ensures RecordOf(columns, row).Keys == set n | n in ColumnNames(columns)
    ensures forall i :: 0 <= i < |columns| && LastWithName(columns, i) ==>
      RecordOf(columns, row)[columns[i].name] == CellAt(row, i)
  {
    RecordOfKeys(columns, row);
    forall i | 0 <= i < |columns| && LastWithName(columns, i)
      ensures RecordOf(columns, row)[columns[i].name] == CellAt(row, i)
    {
      RecordOfValues(columns, row, i);
    }
  }

  /** `handleEdit`'s loop from positions to names. */
  method BuildRecord(columns: seq<Column>, row: seq<RawValue>) returns (rowData: map<string, RawValue>)
    ensures rowData == RecordOf(columns, row)
    ensures rowData.Keys == set n | n in ColumnNames(columns)
    ensures forall i :: 0 <= i < |columns| && LastWithName(columns, i) ==> rowData[columns[i].name] == CellAt(row, i)
  {
    rowData := map[];
    var i := 0;
    while i < |columns|
      invariant 0 <= i <= |columns|
      invariant rowData == RecordOf(columns[..i], row)
    {
      assert columns[..i + 1][..i] == columns[..i];
      rowData := rowData[columns[i].name := CellAt(row, i)];
      i := i + 1;
    }
    assert columns[..|columns|] == columns;
    RecordOfContents(columns, row);
  }

  /** The edit form shows, for every column whose name is not repeated later,
      the row's value at that column. */
  lemma EditFormShowsRow(columns: seq<Column>, row: seq<RawValue>, i: int)
    requires 0 <= i < |columns| && LastWithName(columns, i)
    ensures var form := FormOf(ColumnNames(columns), Some(RecordOf(columns, row)));
      columns[i].name in form && form[columns[i].name] == CellAt(row, i)
  {
    RecordOfContents(columns, row);
    FormOfContents(ColumnNames(columns), Some(RecordOf(columns, row)));
    assert columns[i].name == ColumnNames(columns)[i];
  }

  /** `value={formData[name] || ''}`: a falsy value shows as the empty field. */
  function FieldText(v: RawValue, conv: Conversions): (t: string)
    ensures v.Null? || v == Bool(false) || v == Num(0) ==> t == ""
    ensures v.Str? ==> t == v.s
    ensures v.Obj? || v == Bool(true) ==> t == ToText(v, conv)
    ensures v.Num? && v.n != 0 ==> t == conv.numberText(v.n)
  {
    match v
    case Null => ""
    case Bool(b) => if b then "true" else ""
    case Num(n) => if n == 0 then "" else conv.numberText(n)
    case Str(s) => s
    case Obj(_) => conv.objectText(v.handle)
  }

  // ----------------------------------------------------------- statements

  /** `columns.filter(col => !col.pk)`, in column order. */
  function NonKey(columns: seq<Column>): (r: seq<Column>)
    ensures |r| <= |columns|
    ensures forall c :: c in r ==> c in columns && !c.pk
    ensures forall i :: 0 <= i < |columns| && !columns[i].pk ==> columns[i] in r
    ensures forall c :: multiset(r)[c] == if c.pk then 0 else multiset(columns)[c]
    decreases |columns|
  {
    if |columns| == 0 then []
    else
      assert columns == [columns[0]] + columns[1..];
      (if columns[0].pk then [] else [columns[0]]) + NonKey(columns[1..])
  }

  /** Filtering a concatenation filters each part and keeps them in order:
      the non-key columns stay in column order. */
  lemma {:induction false} NonKeyAppend(a: seq<Column>, b: seq<Column>)
    ensures NonKey(a + b) == NonKey(a) + NonKey(b)
    decreases |a|
  {
    if |a| == 0 {
      assert a + b == b;
    } else {
      assert (a + b)[1..] == a[1..] + b;
      NonKeyAppend(a[1..], b);
    }
  }

  function SetClause(c: Column): string
  {
    c.name + " = ?"
  }

  function SetClauseList(nk: seq<Column>): (clauses: seq<string>)
    ensures |clauses| == |nk|
    ensures forall i :: 0 <= i < |nk| ==> clauses[i] == SetClause(nk[i])
  {
    seq(|nk|, i requires 0 <= i < |nk| => SetClause(nk[i]))
  }

  /** The SET list: `name = ?` for every non-key column, joined by ", ", so
      one placeholder per non-key column. */
  function SetClauses(columns: seq<Column>): (r: string)
    ensures (forall i :: 0 <= i < |columns| ==> '?' !in columns[i].name) ==>
      CountChar('?', r) == |NonKey(columns)|
  {
    var nk := NonKey(columns);
    if forall i :: 0 <= i < |columns| ==> '?' !in columns[i].name then
      ClauseListCount(columns, nk);
      Join(SetClauseList(nk), ", ")
    else Join(SetClauseList(nk), ", ")
  }

  /** The form values of the non-key columns, in column order. */
  function NonKeyValues(columns: seq<Column>, form: map<string, RawValue>): (vs: seq<RawValue>)
    ensures |vs| == |NonKey(columns)|
    ensures forall i :: 0 <= i < |vs| ==> vs[i] == Lookup(form, NonKey(columns)[i].name)
  {
    var nk := NonKey(columns);
    seq(|nk|, i requires 0 <= i < |nk| => Lookup(form, nk[i].name))
  }

  /** The DELETE of `handleDelete`: one placeholder and one parameter, the
      row's value at the key column. */
  function DeleteStatement(table: string, columns: seq<Column>, pk: int, row: seq<RawValue>): (s: Statement)
    requires 0 <= pk < |columns|
    ensures |s.params| == 1 && s.params[0] == CellAt(row, pk)
    ensures PlainNames(table, columns) ==> CountChar('?', s.sql) == |s.params|
  {
    var head := "DELETE FROM " + table + " WHERE " + columns[pk].name;
    if PlainNames(table, columns) then
      assert '?' !in head;
      NoOccurrence('?', head);
      PlusPlaceholder(head);
      Statement(head + " = ?", [CellAt(row, pk)])
    else Statement(head + " = ?", [CellAt(row, pk)])
  }

  /**
   * The UPDATE of `handleSave`: one placeholder per non-key column and one
   * for the key, and as many parameters: the non-key form values in column
   * order, then the key value the row had when editing began.
   */
  function UpdateStatement(table: string, columns: seq<Column>, pk: int,
                           form: map<string, RawValue>, editing: map<string, RawValue>): (s: Statement)
    requires 0 <= pk < |columns|
    ensures |s.params| == |NonKey(columns)| + 1
    ensures s.params[..|NonKey(columns)|] == NonKeyValues(columns, form)
    ensures s.params[|NonKey(columns)|] == Lookup(editing, columns[pk].name)
    ensures PlainNames(table, columns) ==> CountChar('?', s.sql) == |s.params|
  {
    var s := Statement("UPDATE " + table + " SET " + SetClauses(columns) + " WHERE " + columns[pk].name + " = ?",
                       NonKeyValues(columns, form) + [Lookup(editing, columns[pk].name)]);
    if PlainNames(table, columns) then
      UpdateTextCount(table, SetClauses(columns), columns[pk].name);
      s
    else s
  }

  function Placeholders(n: nat): string
  {
    Join(seq(n, i => "?"), ", ")
  }

  /** The INSERT of `handleSave`: one placeholder and one parameter per
      column, the form values in column order. */
  function InsertStatement(table: string, columns: seq<Column>, form: map<string, RawValue>): (s: Statement)
    ensures |s.params| == |columns|
    ensures forall i :: 0 <= i < |columns| ==> s.params[i] == Lookup(form, columns[i].name)
    ensures PlainNames(table, columns) ==> CountChar('?', s.sql) == |s.params|
  {
    var s := Statement("INSERT INTO " + table + " (" + Join(ColumnNames(columns), ", ") + ") VALUES ("
                       + Placeholders(|columns|) + ")",
                       seq(|columns|, i requires 0 <= i < |columns| => Lookup(form, columns[i].name)));
    if PlainNames(table, columns) then
      ColumnListHasNoPlaceholder(columns);
      PlaceholdersCount(|columns|);
      InsertTextCount(table, Join(ColumnNames(columns), ", "), Placeholders(|columns|));
      s
    else s
  }

  /** `handleDelete`, after the confirmation prompt. */
  function DeleteOutcome(confirmed: bool, table: string, columns: seq<Column>, row: seq<RawValue>,
                         run: Statement -> bool): (r: Outcome)
    ensures r.Dismissed? <==> !confirmed
    ensures r.MissingPrimaryKey? <==> confirmed && forall k :: 0 <= k < |columns| ==> !columns[k].pk
    ensures r.Failed? || r.Succeeded? ==>
      FindPrimaryKey(columns) >= 0 &&
      r.statement == DeleteStatement(table, columns, FindPrimaryKey(columns), row) &&
      (r.Succeeded? <==> run(r.statement))
  {
    if !confirmed then Dismissed
    else
      var pk := FindPrimaryKey(columns);
      if pk < 0 then MissingPrimaryKey
      else
        var s := DeleteStatement(table, columns, pk, row);
        if run(s) then Succeeded(s) else Failed(s)
  }

  // ------------------------------------------------- placeholder counting

  lemma {:induction false} NoOccurrence(c: char, s: string)
    requires c !in s
    ensures CountChar(c, s) == 0
    decreases |s|
  {
    if |s| > 0 {
      assert forall x :: x in s[1..] ==> x in s;
      NoOccurrence(c, s[1..]);
    }
  }

  lemma {:induction false} CountCharAllUniform(c: char, parts: seq<string>, k: nat)
    requires forall i :: 0 <= i < |parts| ==> CountChar(c, parts[i]) == k
    ensures CountCharAll(c, parts) == k * |parts|
    decreases |parts|
  {
    if |parts| > 0 {
      CountCharAllUniform(c, parts[1..], k);
    }
  }

  /** A join of parts with `k` occurrences each, over a separator with none, has `k` per part. */
  lemma JoinCountUniform(c: char, parts: seq<string>, sep: string, k: nat)
    requires forall i :: 0 <= i < |parts| ==> CountChar(c, parts[i]) == k
    requires c !in sep
    ensures CountChar(c, Join(parts, sep)) == k * |parts|
  {
    if |parts| > 0 {
      NoOccurrence(c, sep);
      CountCharJoin(c, parts, sep);
      CountCharAllUniform(c, parts, k);
    }
  }

  /** Appending ` = ?` adds exactly one placeholder. */
  lemma PlusPlaceholder(s: string)
    ensures CountChar('?', s + " = ?") == CountChar('?', s) + 1
  {
    CountCharAppend('?', s, " = ?");
    assert " = ?" == " = " + "?";
    CountCharAppend('?', " = ", "?");
    NoOccurrence('?', " = ");
  }

  /** Table and column names carry no `?`, so every `?` in a statement is a placeholder. */
  predicate PlainNames(table: string, columns: seq<Column>)
  {
    '?' !in table && forall i :: 0 <= i < |columns| ==> '?' !in columns[i].name
  }

  /** The clauses of the non-key columns `nk` of `columns` hold one placeholder each. */
  lemma ClauseListCount(columns: seq<Column>, nk: seq<Column>)
    requires forall i :: 0 <= i < |columns| ==> '?' !in columns[i].name
    requires forall c :: c in nk ==> c in columns
    ensures CountChar('?', Join(SetClauseList(nk), ", ")) == |nk|
  {
    var clauses := SetClauseList(nk);
    forall i | 0 <= i < |clauses| ensures CountChar('?', clauses[i]) == 1 {
      assert nk[i] in columns;
      NoOccurrence('?', nk[i].name);
      PlusPlaceholder(nk[i].name);
    }
    JoinCountUniform('?', clauses, ", ", 1);
  }

  lemma UpdateTextCount(table: string, setClauses: string, key: string)
    requires '?' !in table && '?' !in key
    ensures CountChar('?', "UPDATE " + table + " SET " + setClauses + " WHERE " + key + " = ?")
         == CountChar('?', setClauses) + 1
  {
    var head := "UPDATE " + table + " SET ";
    var target := " WHERE " + key;
    NoOccurrence('?', head);
    NoOccurrence('?', target);
    CountCharAppend('?', head, setClauses);
    CountCharAppend('?', head + setClauses, target);
    PlusPlaceholder(head + setClauses + target);
    assert head + setClauses + " WHERE " + key + " = ?" == head + setClauses + target + " = ?";
  }

  /** `columns.map(() => '?').join(', ')` holds one placeholder per column. */
  lemma PlaceholdersCount(n: nat)
    ensures CountChar('?', Placeholders(n)) == n
  {
    var marks := seq(n, i => "?");
    forall i | 0 <= i < n ensures CountChar('?', marks[i]) == 1 {
      assert marks[i] == "?";
    }
    JoinCountUniform('?', marks, ", ", 1);
  }

  lemma ColumnListHasNoPlaceholder(columns: seq<Column>)
    requires forall i :: 0 <= i < |columns| ==> '?' !in columns[i].name
    ensures CountChar('?', Join(ColumnNames(columns), ", ")) == 0
  {
    var names := ColumnNames(columns);
    forall i | 0 <= i < |names| ensures CountChar('?', names[i]) == 0 {
      NoOccurrence('?', names[i]);
    }
    JoinCountUniform('?', names, ", ", 0);
  }

  lemma InsertTextCount(table: string, names: string, marks: string)
    requires '?' !in table
    ensures CountChar('?', "INSERT INTO " + table + " (" + names + ") VALUES (" + marks + ")")
         == CountChar('?', names) + CountChar('?', marks)
  {
    var head := "INSERT INTO " + table + " (";
    var middle := ") VALUES (";
    NoOccurrence('?', head);
    NoOccurrence('?', middle);
    NoOccurrence('?', ")");
    CountCharAppend('?', head, names);
    CountCharAppend('?', head + names, middle);
    CountCharAppend('?', head + names + middle, marks);
    CountCharAppend('?', head + names + middle + marks, ")");
  }

  /** Edits to the form cannot change which row an UPDATE targets: its last
      parameter comes from the row as it was when editing began. */
  lemma UpdateTargetIgnoresForm(table: string, columns: seq<Column>, pk: int,
                                f1: map<string, RawValue>, f2: map<string, RawValue>,
                                editing: map<string, RawValue>)
    requires 0 <= pk < |columns|
    ensures var s1 := UpdateStatement(table, columns, pk, f1, editing);
      var s2 := UpdateStatement(table, columns, pk, f2, editing);
      s1.sql == s2.sql && s1.params[|s1.params| - 1] == s2.params[|s2.params| - 1]
  {
  }

  // ------------------------------------------------------------ the editor

  class RowEditor {
    var formData: map<string, RawValue>
    /** The record being edited; `None` while adding a row. */
    var editingRow: Option<map<string, RawValue>>
    var dialogOpen: bool

    constructor ()
      ensures formData == map[] && editingRow.None? && !dialogOpen
    {
      formData, editingRow, dialogOpen := map[], None, false;
    }

    method InitializeFormData(columns: seq<Column>, row: Option<map<string, RawValue>>)
      modifies this
      ensures formData == FormOf(ColumnNames(columns), row)
      ensures editingRow == old(editingRow) && dialogOpen == old(dialogOpen)
    {
      formData := BuildForm(columns, row);
    }

    /** `handleAdd`: a blank form for a new row. */
    method Add(columns: seq<Column>)
      modifies this
      ensures formData == FormOf(ColumnNames(columns), None)
      ensures editingRow.None? && dialogOpen
    {
      InitializeFormData(columns, None);
      editingRow := None;
      dialogOpen := true;
    }

    /** `handleEdit`: the positional row becomes a name-keyed record, which both
        fills the form and is kept as the row being edited. */
    method Edit(columns: seq<Column>, row: seq<RawValue>)
      modifies this
      ensures editingRow == Some(RecordOf(columns, row))
      ensures formData == FormOf(ColumnNames(columns), editingRow)
      ensures dialogOpen
    {
      var rowData := BuildRecord(columns, row);
      InitializeFormData(columns, Some(rowData));
      editingRow := Some(rowData);
      dialogOpen := true;
    }

    /** A field's change event; the key field's input is disabled while editing. */
    method Change(column: Column, value: string)
      modifies this
      ensures editingRow.Some? && column.pk ==> formData == old(formData)
      ensures !(editingRow.Some? && column.pk) ==> formData == old(formData)[column.name := Str(value)]
      ensures editingRow == old(editingRow) && dialogOpen == old(dialogOpen)
    {
      if !(editingRow.Some? && column.pk) {
        formData := formData[column.name := Str(value)];
      }
    }

    /** Cancel, or the dialog dismissed. */
    method Close()
      modifies this
      ensures !dialogOpen && formData == old(formData) && editingRow == old(editingRow)
    {
      dialogOpen := false;
    }

    /**
     * `handleSave`: an UPDATE of the edited row by its first key column, or an
     * INSERT of a new one. Only a statement that completes closes the dialog
     * (and reloads the grid).
     */
    method Save(table: string, columns: seq<Column>, run: Statement -> bool) returns (outcome: Outcome)
      modifies this
      ensures formData == old(formData) && editingRow == old(editingRow)
      ensures dialogOpen == (old(dialogOpen) && !outcome.Succeeded?)
      ensures !outcome.Dismissed?
      ensures outcome.MissingPrimaryKey? <==> editingRow.Some? && FindPrimaryKey(columns) < 0
      ensures editingRow.Some? && FindPrimaryKey(columns) >= 0 ==>
        !outcome.MissingPrimaryKey? &&
        outcome.statement == UpdateStatement(table, columns, FindPrimaryKey(columns), formData, editingRow.value)
      ensures editingRow.None? ==> !outcome.MissingPrimaryKey? && outcome.statement == InsertStatement(table, columns, formData)
      ensures outcome.Failed? || outcome.Succeeded? ==> (outcome.Succeeded? <==> run(outcome.statement))
    {
      var statement: Statement;
      if editingRow.Some? {
        var pk := FindPrimaryKey(columns);
        if pk < 0 {
          return MissingPrimaryKey;
        }
        var setClauses := SetClauses(columns);
        var values := NonKeyValues(columns, formData);
        values := values + [Lookup(editingRow.value, columns[pk].name)];
        statement := Statement("UPDATE " + table + " SET " + setClauses + " WHERE " + columns[pk].name + " = ?", values);
      } else {
        var columnNames := Join(ColumnNames(columns), ", ");
        var placeholders := Placeholders(|columns|);
        var form := formData;
        var values := seq(|columns|, i requires 0 <= i < |columns| => Lookup(form, columns[i].name));
        statement := Statement("INSERT INTO " + table + " (" + columnNames + ") VALUES (" + placeholders + ")", values);
      }
      if run(statement) {
        dialogOpen := false;
        outcome := Succeeded(statement);
      } else {
        outcome := Failed(statement);
      }
    }
  }
}
