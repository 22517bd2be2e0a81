/**
 * The sticky layout of locked columns, shared verbatim by header cells and
 * body cells: a locked column is shifted right by one fixed slot per locked
 * column with a smaller index; an unlocked column gets no offset.
 *
 * The locked set is a JavaScript `Set<number>`, whose iteration order is the
 * order of insertion. It is modelled as the sequence of its members in that
 * order, without repetitions.
 */
module ColumnLock {
  import opened Common

  /** Pixel width reserved per locked column. */
  const LockedColumnWidth: int := 200

  /** A JavaScript `Set` never holds a member twice. */
  predicate Distinct(order: seq<int>)
  {
    forall i, j :: 0 <= i < j < |order| ==> order[i] != order[j]
  }

  function Members(order: seq<int>): set<int>
  {
    set x | x in order
  }

  /** `Array.from(lockedColumns).filter(i => i < index).length`. */
  function CountBelow(order: seq<int>, index: int): nat
    decreases |order|
  {
    if |order| == 0 then 0
    else (if order[0] < index then 1 else 0) + CountBelow(order[1..], index)
  }

  /** The `left` offset of a column, `None` when it is not locked: one slot
      for every locked index below it. */
  function StickyOffset(order: seq<int>, index: int): (r: Option<int>)
    ensures r.Some? <==> index in order
    ensures r.Some? ==> r.value >= 0 && r.value % LockedColumnWidth == 0
    ensures r.Some? && Distinct(order) ==>
      r.value == LockedColumnWidth * |set x | x in order && x < index|
  {
    if index !in order then None
    else if Distinct(order) then
      CountBelowIsCardinality(order, index);
      Some(CountBelow(order, index) * LockedColumnWidth)
    else Some(CountBelow(order, index) * LockedColumnWidth)
  }

  /** Counting in insertion order gives the size of the set of smaller members. */
  lemma {:induction false} CountBelowIsCardinality(order: seq<int>, index: int)
    requires Distinct(order)
    ensures CountBelow(order, index) == |set x | x in order && x < index|
    decreases |order|
  {
    if |order| == 0 {
      assert (set x | x in order && x < index) == {};
    } else {
      var tail := order[1..];
      assert Distinct(tail) by {
        forall i, j | 0 <= i < j < |tail| ensures tail[i] != tail[j] {
          assert tail[i] == order[i + 1] && tail[j] == order[j + 1];
        }
      }
      CountBelowIsCardinality(tail, index);
      var below := set x | x in tail && x < index;
      assert order[0] !in tail by {
        forall k | 0 <= k < |tail| ensures tail[k] != order[0] {
          assert tail[k] == order[k + 1];
        }
      }
      if order[0] < index {
        assert (set x | x in order && x < index) == below + {order[0]};
      } else {
        assert (set x | x in order && x < index) == below;
      }
    }
  }

  /**
   * The offsets depend on which columns are locked, not on the order in which
   * they were locked.
   */
  lemma OffsetIgnoresLockingOrder(a: seq<int>, b: seq<int>, index: int)
    requires Distinct(a) && Distinct(b) && Members(a) == Members(b)
    ensures StickyOffset(a, index) == StickyOffset(b, index)
  {
    CountBelowIsCardinality(a, index);
    CountBelowIsCardinality(b, index);
    assert index in a <==> index in b by {
      assert index in a <==> index in Members(a);
      assert index in b <==> index in Members(b);
    }
    assert (set x | x in a && x < index) == (set x | x in b && x < index) by {
      forall x ensures x in a <==> x in b {
        assert x in a <==> x in Members(a);
        assert x in b <==> x in Members(b);
      }
    }
  }

  lemma {:induction false} CountBelowSeparates(order: seq<int>, i: int, j: int)
    requires i in order && i < j
    ensures CountBelow(order, j) >= CountBelow(order, i) + 1
    decreases |order|
  {
    if order[0] != i {
      CountBelowSeparates(order[1..], i, j);
    } else {
      CountBelowMonotone(order[1..], i, j);
    }
  }

  lemma {:induction false} CountBelowMonotone(order: seq<int>, i: int, j: int)
    requires i <= j
    ensures CountBelow(order, i) <= CountBelow(order, j)
    decreases |order|
  {
    if |order| > 0 {
      CountBelowMonotone(order[1..], i, j);
    }
  }

  /**
   * Locked columns stack strictly left to right in index order: a locked
   * column to the right of another locked column sits at least one slot
   * further right, so the offsets never overlap.
   */
  lemma OffsetsStackInIndexOrder(order: seq<int>, i: int, j: int)
    requires i in order && j in order && i < j
    ensures StickyOffset(order, i).value + LockedColumnWidth <= StickyOffset(order, j).value
  {
    CountBelowSeparates(order, i, j);
  }

  /** The leftmost locked column is not shifted. */
  lemma SmallestLockedHasNoOffset(order: seq<int>, i: int)
    requires i in order
    requires forall x :: x in order ==> i <= x
    ensures StickyOffset(order, i) == Some(0)
  {
    NothingBelowMinimum(order, i);
  }

  lemma {:induction false} NothingBelowMinimum(order: seq<int>, i: int)
    requires forall x :: x in order ==> i <= x
    ensures CountBelow(order, i) == 0
    decreases |order|
  {
    if |order| > 0 {
      assert order[0] in order;
      assert forall x :: x in order[1..] ==> x in order;
      NothingBelowMinimum(order[1..], i);
    }
  }
}
