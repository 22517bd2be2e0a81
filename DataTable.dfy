/**
 * The grid container: it owns the set of locked columns, lets a header
 * toggle a column's lock, and builds the text of a column copy before
 * forwarding the request to its parent.
 */
module DataTable {
  import opened Common
  import opened CellFormat
  import opened ColumnLock

  /** `set.delete(x)` on the insertion-ordered members: the others keep their order. */
  function Remove(order: seq<int>, x: int): (r: seq<int>)
    ensures forall y :: y in r <==> y in order && y != x
    ensures x !in order ==> r == order
    ensures Distinct(order) ==> Distinct(r)
    decreases |order|
  {
    if |order| == 0 then []
    else
      var rest := Remove(order[1..], x);
      if order[0] == x then rest
      else
        assert Distinct(order) ==> order[0] !in order[1..] by {
          forall k | 0 <= k < |order[1..]| ensures Distinct(order) ==> order[1..][k] != order[0] {
            assert order[1..][k] == order[k + 1];
          }
        }
        assert Distinct(order) ==> Distinct(order[1..]) by {
          if Distinct(order) {
            forall i, j | 0 <= i < j < |order[1..]| ensures order[1..][i] != order[1..][j] {
              assert order[1..][i] == order[i + 1] && order[1..][j] == order[j + 1];
            }
          }
        }
        [order[0]] + rest
  }

  /** The set `toggleColumnLock` stores: the previous set without the index
      if it held it, otherwise with the index added last. Only that index
      changes membership, and the set stays free of repetitions. */
  function Toggled(order: seq<int>, columnIndex: int): (r: seq<int>)
    ensures columnIndex in r <==> columnIndex !in order
    ensures forall j :: j != columnIndex ==> (j in r <==> j in order)
    ensures Distinct(order) ==> Distinct(r)
  {
    if columnIndex in order then Remove(order, columnIndex)
    else
      var r := order + [columnIndex];
      assert Distinct(order) ==> Distinct(r) by {
        if Distinct(order) {
          forall i, j | 0 <= i < j < |r| ensures r[i] != r[j] {
            if j == |order| {
              assert r[i] == order[i];
            }
          }
        }
      }
      r
  }

  /**
   * Toggling the same index twice restores the set of locked columns; when
   * the index was unlocked, even the insertion order comes back unchanged,
   * and in every case all offsets are what they were.
   */
  lemma ToggleTwiceRestores(order: seq<int>, columnIndex: int)
    requires Distinct(order)
    ensures Members(Toggled(Toggled(order, columnIndex), columnIndex)) == Members(order)
    ensures columnIndex !in order ==> Toggled(Toggled(order, columnIndex), columnIndex) == order
    ensures forall index :: StickyOffset(Toggled(Toggled(order, columnIndex), columnIndex), index)
                         == StickyOffset(order, index)
  {
    var once := Toggled(order, columnIndex);
    var twice := Toggled(once, columnIndex);
    if columnIndex !in order {
      RemoveLastAdded(order, columnIndex);
    }
    assert Members(twice) == Members(order);
    forall index ensures StickyOffset(twice, index) == StickyOffset(order, index) {
      OffsetIgnoresLockingOrder(twice, order, index);
    }
  }

  lemma {:induction false} RemoveLastAdded(order: seq<int>, x: int)
    requires x !in order
    ensures Remove(order + [x], x) == order
    decreases |order|
  {
    if |order| > 0 {
      assert (order + [x])[1..] == order[1..] + [x];
      RemoveLastAdded(order[1..], x);
      assert order == [order[0]] + order[1..];
    }
  }

  /** The state of the grid container that survives re-renders. */
  class ColumnLocks {
    /** `lockedColumns`, members in insertion order. */
    var lockedColumns: seq<int>

    ghost predicate Valid()
      reads this
    {
      Distinct(lockedColumns)
    }

    /** The locked set starts empty. */
    constructor ()
      ensures Valid() && lockedColumns == []
    {
      lockedColumns := [];
    }

    /** `toggleColumnLock`: copy the previous set, add or delete the index,
        and store the copy. */
    method ToggleColumnLock(columnIndex: int)
      requires Valid()
      modifies this
      ensures Valid()
      ensures lockedColumns == Toggled(old(lockedColumns), columnIndex)
      ensures columnIndex in lockedColumns <==> columnIndex !in old(lockedColumns)
      ensures forall j :: j != columnIndex ==> (j in lockedColumns <==> j in old(lockedColumns))
    {
      var newSet := lockedColumns;
      if columnIndex in newSet {
        newSet := Remove(newSet, columnIndex);
      } else {
        newSet := newSet + [columnIndex];
      }
      lockedColumns := newSet;
    }

    /** The `left` offset a header or body cell of this column is given. */
    function Offset(index: int): (r: Option<int>)
      reads this
      ensures r.Some? <==> index in lockedColumns
      ensures Valid() && r.Some? ==>
        r.value == LockedColumnWidth * |set x | x in lockedColumns && x < index|
    {
      StickyOffset(lockedColumns, index)
    }
  }

  /** The value each row holds at the column, as the column copy writes it. */
  function ColumnLines(data: seq<seq<RawValue>>, columnIndex: int, conv: Conversions): (lines: seq<string>)
    ensures |lines| == |data|
    ensures forall k :: 0 <= k < |data| ==> lines[k] == JoinText(CellAt(data[k], columnIndex), conv)
  {
    seq(|data|, k requires 0 <= k < |data| => JoinText(CellAt(data[k], columnIndex), conv))
  }

  /** `data.map(row => row[columnIndex]).join('\n')`: one line per row, in row
      order, each the row's value at that column, as long as no value itself
      spans lines. */
  function ColumnCopyText(data: seq<seq<RawValue>>, columnIndex: int, conv: Conversions): (t: string)
    ensures |data| > 0 && (forall k :: 0 <= k < |data| ==> '\n' !in JoinText(CellAt(data[k], columnIndex), conv)) ==>
      var lines := Split(t, '\n');
      |lines| == |data| &&
      forall k :: 0 <= k < |data| ==> lines[k] == JoinText(CellAt(data[k], columnIndex), conv)
  {
    var lines := ColumnLines(data, columnIndex, conv);
    if |data| > 0 && forall k :: 0 <= k < |lines| ==> '\n' !in lines[k] then
      SplitJoinRoundTrip(lines, '\n');
      Join(lines, "\n")
    else Join(lines, "\n")
  }

  /** What a column copy does: the text for the clipboard, and the index it
      forwards to the parent's own column-copy handler. */
  datatype ColumnCopy = ColumnCopy(text: string, forwardedIndex: int)

  function HandleCopyColumn(data: seq<seq<RawValue>>, columnIndex: int, conv: Conversions): (r: ColumnCopy)
    ensures r.forwardedIndex == columnIndex
    ensures r.text == ColumnCopyText(data, columnIndex, conv)
  {
    ColumnCopy(ColumnCopyText(data, columnIndex, conv), columnIndex)
  }
}
