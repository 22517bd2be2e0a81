# Tabular data grid of the SQLite data explorer, in Dafny

The explorer shows one table of an in-browser SQLite database as a grid with
three features: a search box, sortable column headers, and a pager of 50 rows
per page. It can also show the result of an ad-hoc query in place of the
table. This project models the grid's core and proves properties of it:

- **`BrowseQuery`**: the SQL text the grid sends for one page. The row query
  has an optional `WHERE` of `name LIKE '%term%'` predicates joined by
  `OR`, an optional `ORDER BY`, and `LIMIT`/`OFFSET`. The count query
  carries the same filter.
- **`GridView`**: the grid state as the class `DataViewer`.
  - Its fields are the table, search term, page, sort, ad-hoc flag, rows,
    column names, total row count and the cell inspector.
  - Its methods are the handlers: table change, search, sort click, page
    change, ad-hoc result, reload after an edit, cell click.
  - `LoadData` builds the statements, hands them to the database, and stores
    what comes back. Any failure clears the grid.
  - The module also has the sort cycle and the text of a row copy.
- **`CellFormat`**: how a cell turns a raw value into display text.
  - `null` becomes the NULL marker; an object becomes indented JSON.
  - Text is truncated to 100 UTF-16 code units plus `...`. Lengths and cuts
    count code units, as JavaScript's `length` and `substring` do, so a
    character outside the Basic Multilingual Plane counts twice and a cut may
    split its surrogate pair.
  - Also modelled: the full value handed to the inspector, and the tooltip.
- **`ColumnLock`** and **`DataTable`**: the set of locked columns and its
  toggle. A locked column's sticky `left` offset is 200 px per locked column
  with a smaller index. `DataTable` also builds the text of a column copy.
  The grid's own column-copy handler (`GridView.DataViewer.ColumnCopyText`)
  builds the same text.
- **`TableHeader`**:
  - the sort arrow of each column and the key/hash icon;
  - what a click on each part of a header cell triggers;
  - when the Actions header appears.
- **`Pagination`**: the page count, the window of at most five page buttons,
  Previous/Next, and the "Showing a to b of n" line.
- **`Crud`**: the row editor.
  - The add and edit forms are built by loops in the source.
  - Delete works by the first primary-key column.
  - The UPDATE and INSERT statements are shown with their positional
    parameter lists.
- **`Schema`** and **`Common`**: the records passed between components, and
  `Array.prototype.join`, `String.prototype.split` and decimal rendering.

Two things are parameters rather than modelled:

- The database is a function from statement text to its outcome (`exec` for
  the grid, `run` for the editor).
- The JavaScript conversions `String(x)` and `JSON.stringify` are
  uninterpreted functions in `CellFormat.Conversions`.

Where the code behaves in ways a reader may not expect, the model follows the code:

- Nothing is escaped or parameterised in the browsing statements. The table
  name, column names and search term are pasted into the SQL.
- Loads are not sequenced. `database.exec` answers synchronously, so each
  load stores its own answer.
- Ad-hoc mode is left only by a table change. There is no return to
  browsing.
- The locked-column set is not cleared on a table change or an ad-hoc
  result. It lives in `DataTable` and survives both.
- A row or column copy joins the raw values with `Array.prototype.join`
  semantics: `null` becomes the empty string. It does not use the formatted
  cell text.
- A failed load clears rows, columns and count. No message is shown beyond
  the console.
- The editor builds its own DELETE, UPDATE and INSERT statements with
  positional parameters; these are modelled too.

## Model

| member | source | states |
|---|---|---|
| Schema.FindPrimaryKey | src/components/CrudOperations.tsx:63-73 | The index of the first column flagged as primary key, or -1 exactly when no column is one. |
| Schema.FindByName | src/components/table/TableHeader.tsx:70 | The index of the first column with the given name, or -1 exactly when there is none. |
| CellFormat.JoinText | src/components/DataViewer.tsx:182 | A value as `join` writes it: `null` becomes the empty string, a string stays itself, a boolean becomes "true" or "false", and a number or object becomes its `String` conversion. |
| CellFormat.CellAt | src/components/DataTable.tsx:98 | `row[i]`: the element inside the row, `Null` (standing for `undefined`) outside it. |
| CellFormat.UnitsOf | src/components/table/TableCell.tsx:57-58 | A character below U+10000 is one code unit, its own code; any other is a high surrogate followed by a low surrogate. |
| CellFormat.Utf16 | src/components/table/TableCell.tsx:57-58 | A string's length in code units lies between its number of characters and twice that: equal to it for Basic Multilingual Plane text, twice it for text made only of other characters. |
| CellFormat.BasicPlaneTextIsOneUnitPerChar | src/components/table/TableCell.tsx:57-58 | Text of characters below U+10000 is stored one code unit per character, each unit the character's code. |
| CellFormat.Prefix | src/components/table/TableCell.tsx:45 | `substring(0, n)` below the length: exactly the first `n` code units, which may end inside a surrogate pair, and none for a negative `n`. |
| CellFormat.Truncate | src/components/table/TableCell.tsx:57-61 | The full value is the input. The cell is truncated iff the input has more code units than the limit. A truncated display is the first `limit` code units followed by `...`; an untruncated one is the input's code units. |
| CellFormat.FormatCellValue | src/components/table/TableCell.tsx:36-62 | `null` gives the NULL marker with full value "NULL", never truncated. Any other value has as full value its JSON for objects (falling back to `String` when serialisation fails) or its `String` form, with the code-unit truncation rule above. A string's full value is the string. |
| CellFormat.CellDisplay | src/components/table/TableCell.tsx:64 | The cell uses the default length of 100: a string of at most 100 code units is shown whole, a longer one as its first 100 code units and `...`. |
| CellFormat.ClickReport | src/components/table/TableCell.tsx:76 | A click reports the untruncated value ("NULL" for null, the string itself for a string) and the column name. |
| CellFormat.Tooltip | src/components/table/TableCell.tsx:72 | A tooltip exists exactly for strings longer than 100 code units and carries the whole string. |
| CellFormat.TooltipExactlyWhenStringTruncated | src/components/table/TableCell.tsx:64-72 | For a string cell, the tooltip appears exactly when the display is truncated, and it holds the full value. |
| CellFormat.SupplementaryCharactersCountTwice | src/components/table/TableCell.tsx:57-72 | Sixty characters outside the Basic Multilingual Plane are 120 code units: the cell is truncated and has a tooltip. |
| ColumnLock.StickyOffset | src/components/table/TableCell.tsx:69-71 | A column gets an offset exactly when it is locked. The offset is 200 times the number of locked indices below the column, hence a non-negative multiple of 200. |
| ColumnLock.CountBelowIsCardinality | src/components/table/TableCell.tsx:71 | Counting smaller members in insertion order gives the size of the set of smaller locked indices. |
| ColumnLock.OffsetIgnoresLockingOrder | src/components/table/TableCell.tsx:71 | Two insertion orders of the same locked set give every column the same offset. |
| ColumnLock.OffsetsStackInIndexOrder | src/components/table/TableCell.tsx:71 | For locked `i < j`, column `j` sits at least one 200 px slot right of column `i`, so locked columns never overlap. |
| ColumnLock.SmallestLockedHasNoOffset | src/components/table/TableCell.tsx:71 | The locked column with the smallest index sits at offset 0. |
| DataTable.Remove | src/components/DataTable.tsx:73 | Deleting from the set removes exactly that member and keeps the set free of repetitions; deleting a non-member changes nothing. |
| DataTable.Toggled | src/components/DataTable.tsx:69-79 | A toggle flips the membership of the toggled index and of no other, and the set stays free of repetitions. |
| DataTable.ToggleTwiceRestores | src/components/DataTable.tsx:69-79 | Two toggles of one index restore the locked set and every offset. When the index was unlocked they restore even the insertion order. |
| DataTable.ColumnLocks.constructor | src/components/DataTable.tsx:67 | The locked set starts empty. |
| DataTable.ColumnLocks.ToggleColumnLock | src/components/DataTable.tsx:69-79 | The stored set becomes the toggled copy of the old one, and only the toggled index changes membership. |
| DataTable.ColumnLocks.Offset | src/components/table/TableCell.tsx:69-71 | A cell of a column has an offset exactly when the column is locked, and it is 200 times the number of locked indices below the column. |
| DataTable.ColumnLines | src/components/DataTable.tsx:98 | One line per row, in row order: the row's value at the column as `join` writes it. |
| DataTable.ColumnCopyText | src/components/DataTable.tsx:98 | Splitting a column copy at newlines gives back each row's value at the column, in row order, when no value spans lines. |
| DataTable.HandleCopyColumn | src/components/DataTable.tsx:97-101 | A column copy writes the column text and forwards the same column index to the parent. |
| TableHeader.GetSortIcon | src/components/table/TableHeader.tsx:60-67 | Neutral arrow iff the column is not the sorted one; up iff sorted ascending on it; down iff sorted descending on it. |
| TableHeader.ShownSortIcon | src/components/table/TableHeader.tsx:96 | No arrow at all exactly in ad-hoc mode; otherwise the arrow of `getSortIcon`. |
| TableHeader.GetColumnIcon | src/components/table/TableHeader.tsx:69-75 | Key icon iff the schema is known and the first schema column with that name is a primary key. |
| TableHeader.KeyIconMarksPrimaryKeys | src/components/table/TableHeader.tsx:69-75 | With distinct column names, a column shows the key icon exactly when it is a primary key. |
| TableHeader.HeaderClick | src/components/table/TableHeader.tsx:90-118 | A click triggers at most one action. Only a click on the header body outside ad-hoc mode sorts, and it sorts that column. The lock and copy buttons only toggle the lock or copy the column. |
| TableHeader.HeaderOffset | src/components/table/TableHeader.tsx:84-89 | A header cell uses the body cells' offset rule, present exactly for locked columns. |
| TableHeader.ShowActionsHeader | src/components/table/TableHeader.tsx:127-131 | The Actions header appears exactly outside ad-hoc mode with a known schema. |
| Pagination.TotalPages | src/components/DataViewer.tsx:191 | `ceil(totalRows / pageSize)` is the least page count whose pages hold every row. |
| Pagination.ExistingPageIsNonEmpty | src/components/DataViewer.tsx:101 | On an existing page, the offset is non-negative and below the row count. |
| Pagination.PagerShownExactlyWhenRowsOverflowOnePage | src/components/TableControls.tsx:74 | The pager is drawn exactly when the rows do not fit on one page. |
| Pagination.PageWindow | src/components/TableControls.tsx:93-104 | `min(5, totalPages)` buttons, each carrying the page number of its position. |
| Pagination.WindowIsConsecutive | src/components/TableControls.tsx:93-104 | The buttons are consecutive pages from one start page chosen by the three cases. |
| Pagination.WindowCoversCurrentPage | src/components/TableControls.tsx:93-104 | For an existing page, every button names an existing page and one names the current page. |
| Pagination.PreviousPage | src/components/TableControls.tsx:85 | Previous never goes below page 1 and otherwise steps back one page. |
| Pagination.PreviousDisabled | src/components/TableControls.tsx:86 | From page 1 or above, Previous is disabled exactly when it would not change the page. |
| Pagination.NextPage | src/components/TableControls.tsx:122 | Next never goes beyond the last page and otherwise steps forward one page. |
| Pagination.NextDisabled | src/components/TableControls.tsx:123 | Up to the last page, Next is disabled exactly when it would not change the page. |
| Pagination.StepButtonsStayInRange | src/components/TableControls.tsx:85-123 | From an existing page both targets exist. Each button is disabled exactly when following it would not change the page. |
| Pagination.Showing | src/components/TableControls.tsx:77-78 | The first row shown is `(currentPage - 1) * pageSize + 1`; the last is the smaller of the page end and the total. |
| Pagination.ShowingRangeMatchesPage | src/components/TableControls.tsx:77-78 | On an existing page the range is non-empty and counts exactly the rows of that page: a full page, or the remainder on the last. |
| BrowseQuery.IntToStringReadsBack | src/components/DataViewer.tsx:102 | `${n}`: for `n >= 0`, decimal digits that read back as `n`; for a negative `n`, a minus sign followed by digits that read back as `-n`. |
| BrowseQuery.MinusSignThenDigits | src/components/DataViewer.tsx:102 | A minus sign followed by the decimal text of `n`: the first character is the sign, and the rest are digits that read back as `n`. |
| BrowseQuery.SearchPredicate | src/components/DataViewer.tsx:86 | A column's search predicate is never empty. |
| BrowseQuery.SearchPredicates | src/components/DataViewer.tsx:85-87 | One `LIKE` predicate per schema column, in column order. |
| BrowseQuery.FilterPresence | src/components/DataViewer.tsx:84-92 | A WHERE condition exists exactly when the term is non-empty and the schema lists at least one column. It then joins one predicate per column with OR. |
| BrowseQuery.BuildQueries | src/components/DataViewer.tsx:80-102 | Appending clause by clause yields exactly the rendering of the composed row query and count query. |
| BrowseQuery.CountQueryMatchesRowQuery | src/components/DataViewer.tsx:81-102 | Both statements carry the identical table and WHERE text. ORDER BY and LIMIT/OFFSET, with offset `(page - 1) * pageSize`, follow on the row query only. |
| BrowseQuery.EmptySearchHasNoWhere | src/components/DataViewer.tsx:84 | With an empty term, neither statement has a WHERE clause. |
| BrowseQuery.NoColumnsNoWhere | src/components/DataViewer.tsx:85-89 | Without schema columns, a non-empty term adds no WHERE clause. |
| GridView.CountCell | src/components/DataViewer.tsx:116-117 | A count is read exactly when the result set has a first row whose first cell is a number, and it is that number. |
| GridView.LoadEffectOf | src/components/DataViewer.tsx:105-124 | A load fails exactly when either statement throws or the count result has no row. Otherwise the rows and columns are those of the row result, or empty when it returned no result set, and the count is the one read from the count result. |
| GridView.AfterLoad | src/components/DataViewer.tsx:108-124 | A failed load shows no rows, no columns and a total of 0. A successful one shows the returned rows and columns, with the read count or, without one, the previous total. |
| GridView.NextSort | src/components/DataViewer.tsx:142-150 | A click on another column (or with no sort) sorts it ascending; ascending turns descending; descending turns unsorted. |
| GridView.SortCycle | src/components/DataViewer.tsx:142-152 | Three clicks on one column go ascending, descending, unsorted. |
| GridView.NextSortTargetsClickedColumn | src/components/DataViewer.tsx:142-150 | The resulting sort always concerns the clicked column. It is absent exactly after a descending sort on that column. |
| GridView.SortClicksDriveHeaderArrows | src/components/DataViewer.tsx:142-150 | Repeated clicks show up, down, then the neutral arrow on the clicked column. Every other column shows the neutral arrow. |
| GridView.RowCopyText | src/components/DataViewer.tsx:181-182 | Splitting a copied row at tabs gives back each cell's text in column order, when no cell contains a tab. |
| GridView.LoadOutcome | src/components/DataViewer.tsx:75-125 | A skipped load sends nothing and changes nothing; any other sends exactly the statements for its parameters. |
| GridView.LoadedRowsIgnoreEarlierGrid | src/components/DataViewer.tsx:104-124 | The rows and columns a load shows do not depend on what was shown before it. |
| GridView.ReloadEndsAsIntended | src/components/DataViewer.tsx:75-125 | Reloading with given parameters after any earlier loads ends like a direct load: its statements are the last ones sent, and it shows the same rows and columns. |
| GridView.LoadDataIsLoadOutcome | src/components/DataViewer.tsx:75-125 | What `loadData` sends and shows, taken step by step, is the outcome `LoadOutcome` gives for the same parameters. |
| GridView.StaleTableChange | src/components/DataViewer.tsx:61-73 | The table change as the two effects run it. Right after an ad-hoc result with default search, page and sort, nothing is sent and the grid is unchanged. In every other case the last statement sent and the rows and columns shown are those of the intended table change. |
| GridView.ShowingNamesFetchedRows | src/components/TableControls.tsx:77-78 | The "Showing" line starts right after the row query's OFFSET and, on an existing page, spans as many rows as LIMIT and OFFSET fetch. |
| GridView.DataViewer.constructor | src/components/DataViewer.tsx:45-57 | The grid starts empty on page 1 with no search, no sort, browsing mode and a closed inspector. |
| GridView.DataViewer.LoadData | src/components/DataViewer.tsx:75-125 | Nothing happens without a database, without a table, or in ad-hoc mode. Otherwise the statements for the current parameters are sent and the shown state becomes the outcome of the load (`LoadOutcome`). The browsing parameters never change. |
| GridView.DataViewer.StoreResults | src/components/DataViewer.tsx:104-124 | The shown state becomes the outcome of running the two statements; the parameters stay. |
| GridView.DataViewer.ResetBrowsing | src/components/DataViewer.tsx:64-67 | Page 1, no search, no sort, browsing mode; table and shown data unchanged. |
| GridView.DataViewer.SelectTable | src/components/DataViewer.tsx:61-69 | A new table with a database resets to page 1, no search, no sort and browsing mode. It then loads that table's first unfiltered page. Without a database or name only the props change. |
| GridView.DataViewer.SelectTableAsWritten | src/components/DataViewer.tsx:61-73 | The table change as the effects run it: the reset happens, and the statements sent and the grid shown are those of `StaleTableChange` from the new table with the previous search, page, sort and mode. Without a database or name only the props change. |
| GridView.DataViewer.SearchChange | src/components/DataViewer.tsx:160-163 | The term is set and the page returns to 1. A reload is sent only if the term or the page changed. |
| GridView.DataViewer.SortClick | src/components/DataViewer.tsx:142-152 | The sort advances one step on the clicked column, the page returns to 1, and the grid reloads. |
| GridView.DataViewer.PageChange | src/components/DataViewer.tsx:71-73 | The page is set; only a different page reloads. |
| GridView.DataViewer.QueryResult | src/components/DataViewer.tsx:127-136 | An ad-hoc result replaces columns and rows and turns ad-hoc mode on. The total becomes the row count and the page 1. The browsing search and sort are kept. |
| GridView.DataViewer.DataChange | src/components/DataViewer.tsx:138-140 | After an edit, the grid reloads with unchanged parameters. |
| GridView.DataViewer.CellClick | src/components/DataViewer.tsx:154-158 | The inspector opens on the reported value and column name; nothing else changes. |
| GridView.DataViewer.ColumnCopyText | src/components/DataViewer.tsx:186-189 | The grid's own column copy splits back at newlines into each shown row's value at the column, when no value spans lines. |
| GridView.TableChangeLeavesAdHocMode | src/components/DataViewer.tsx:61-69 | With the intended table change, switching tables after an ad-hoc result leaves ad-hoc mode and sends the new table's first page. |
| GridView.StaleAdHocRowsAfterTableChange | src/components/DataViewer.tsx:61-73 | As written, the same switch sends nothing and keeps the ad-hoc rows on screen outside ad-hoc mode. |
| Crud.FormOfContents | src/components/CrudOperations.tsx:35-41 | The form holds exactly the column names, each with its initial value. |
| Crud.BuildForm | src/components/CrudOperations.tsx:35-41 | The loop fills the form with exactly the column names. Each maps to the row's value, or to "" without a row. |
| Crud.FreshFormIsBlank | src/components/CrudOperations.tsx:43-47 | A new-row form maps every column name to the empty string. |
| Crud.RecordOfContents | src/components/CrudOperations.tsx:49-57 | The edit record holds exactly the column names. A name maps to the row's value at the last column carrying it, or `Null` past the row's end. |
| Crud.BuildRecord | src/components/CrudOperations.tsx:49-57 | The loop builds that record from the positional row. |
| Crud.EditFormShowsRow | src/components/CrudOperations.tsx:49-57 | The edit form shows each column's value from the row, whenever no later column repeats its name. |
| Crud.FieldText | src/components/CrudOperations.tsx:182 | Null, false and 0 show as an empty field; a string shows as itself; true, a non-zero number and an object show as their `String` conversion. |
| Crud.NonKey | src/components/CrudOperations.tsx:109 | Exactly the columns that are not primary keys, each as often as in the column list (once, for distinct columns). |
| Crud.NonKeyAppend | src/components/CrudOperations.tsx:109 | Filtering keeps column order: the non-key columns of a concatenation are those of the first part followed by those of the second. |
| Crud.NonKeyValues | src/components/CrudOperations.tsx:113-115 | The form value of each non-key column, in column order. |
| Crud.DeleteOutcome | src/components/CrudOperations.tsx:59-92 | Nothing happens without confirmation. Without a primary-key column, nothing is executed. Otherwise the DELETE by the first key column is sent, and succeeds exactly when the statement runs. |
| Crud.DeleteStatement | src/components/CrudOperations.tsx:73-76 | The DELETE has one placeholder and one parameter: the row's value at the first key column. |
| Crud.SetClauses | src/components/CrudOperations.tsx:108-111 | The SET list holds one placeholder per non-key column. |
| Crud.ClauseListCount | src/components/CrudOperations.tsx:110-111 | The `name = ?` clauses of the non-key columns hold one placeholder each. |
| Crud.UpdateStatement | src/components/CrudOperations.tsx:108-122 | The UPDATE's placeholders and parameters both number the non-key columns plus one. The parameters are the non-key form values in order, then the edited row's key value. |
| Crud.PlaceholdersCount | src/components/CrudOperations.tsx:131 | The placeholder list holds one `?` per column. |
| Crud.ColumnListHasNoPlaceholder | src/components/CrudOperations.tsx:130 | The column-name list contributes no placeholder. |
| Crud.InsertStatement | src/components/CrudOperations.tsx:130-137 | The INSERT has one placeholder and one parameter per column, the form values in column order. |
| Crud.UpdateTargetIgnoresForm | src/components/CrudOperations.tsx:117 | Form edits change neither the UPDATE text nor its key parameter. |
| Crud.RowEditor.constructor | src/components/CrudOperations.tsx:30-32 | The editor starts closed, not editing, with an empty form. |
| Crud.RowEditor.InitializeFormData | src/components/CrudOperations.tsx:35-41 | The form becomes the one built from the columns and the optional row. |
| Crud.RowEditor.Add | src/components/CrudOperations.tsx:43-47 | A blank form, no edited row, dialog open. |
| Crud.RowEditor.Edit | src/components/CrudOperations.tsx:49-57 | The edited row is the record built from the positional row, the form is built from it, and the dialog opens. |
| Crud.RowEditor.Change | src/components/CrudOperations.tsx:183-187 | A change event sets that field to the typed text, except on a key field while editing (its input is disabled). |
| Crud.RowEditor.Close | src/components/CrudOperations.tsx:195 | Cancel closes the dialog and keeps the form. |
| Crud.RowEditor.Save | src/components/CrudOperations.tsx:94-155 | While editing without a key column, nothing is sent. While editing, the UPDATE is sent; when adding, the INSERT. Only a statement that runs closes the dialog. The form and edited row are kept. |

## Left out

- Clipboard writes, toasts and `console.error` are left out: they are browser sinks. Only the text handed to the clipboard is modelled.
- The SQL engine is left out. The database is a parameter (`exec`, `run`), and nothing about SQL semantics or errors beyond "throws or not" is modelled.
- `String(x)` of numbers and objects and `JSON.stringify` are not interpreted. They are the functions in `CellFormat.Conversions`.
- CellFormat.RawValue: numbers are integers. Fractional numbers, `NaN` and `-0` are not modelled, so `Crud.FieldText` does not cover a `NaN` field.
- React re-render timing and effect ordering are simplified. Each handler and the reload its effect triggers happen in one method call. The table change is also modelled with the effects' timing, as `GridView.DataViewer.SelectTableAsWritten`; `GridView.StaleTableChange` proves that its rows, columns and last statement differ from the intended change only right after an ad-hoc result with default search, page and sort.
- GridView.CountCell: `values[0][0] as number` is only a type assertion. A count cell that is not a number is stored as it is by the source; the model treats it as "no count" and keeps the previous total.
- `undefined` (an index past the row's end, a missing form key) is folded into `Null`. The grid formats and joins both the same way.
- DataTable's column copy writes the text and then forwards the index to the parent, which writes the same text again. The model gives the text once, plus the forwarded index.
- The delete confirmation prompt is a boolean parameter of `Crud.DeleteOutcome`.
- GridView.DataViewer.PageChange accepts any page of at least 1. The pager only offers existing pages (`Pagination.StepButtonsStayInRange`, `Pagination.WindowCoversCurrentPage`), and that link is not proved inside the class.
- `TableControls.tsx` is modelled through `Pagination` only. Its search box and buttons are presentation, and the search box is disabled in ad-hoc mode.
- Dialogs, full-screen mode, the query-editor toggle, CSS and JSX layout are left out as presentation.
- The cell inspector's JSON pretty-printing (`CellViewer.tsx`), the ad-hoc query editor and its language-model call (`QueryEditor.tsx`), database upload and schema reading (`DatabaseUpload.tsx`), and remote databases (`RemoteDatabaseManager.ts`, `RemoteDatabaseConfig.tsx`) are not part of this model.
- The page layout (`Index.tsx`, `SchemaBrowser.tsx`) and the row component (`TableRow.tsx`, whose edit and delete buttons do nothing) are not part of this model.

## Findings

| source | as written | input that shows it | evidently intended | confidence | as-written member | corrected member |
|---|---|---|---|---|---|---|
| src/components/DataViewer.tsx:61-73 | The table-change effect calls the `loadData` of the render before its own reset, which still sees ad-hoc mode on and returns at once. The reset then leaves search "", page 1 and no sort unchanged, so the second effect does not fire either. | Run an ad-hoc query while the search is empty and no sort is set, then pick another table. | Leave ad-hoc mode and load the new table's first page. | likely; not executed | GridView.StaleAdHocRowsAfterTableChange | GridView.TableChangeLeavesAdHocMode |
