/** Table rows, three-valued conditions, and what a one-shot query returns. */
module Rows {

  datatype Option<+T> = None | Some(value: T)

  datatype Truth = True | False | Unknown

  /** Where a new stream starts. */
  datatype Mode = Beginning | Now

  /** A table row as a query sees it: the cursor column (`None` for NULL) and the projected cells as text. */
  datatype Row = Row(cursor: Option<int>, cells: seq<string>)

  /** The meaning of a WHERE text. */
  type Condition = Row -> Truth

  function And(a: Truth, b: Truth): Truth
  {
    if a == False || b == False then False
    else if a == True && b == True then True
    else Unknown
  }

  /** `cursor > bound`; a NULL cursor compares as unknown. */
  function Above(cursor: Option<int>, bound: int): Truth
  {
    match cursor
    case None => Unknown
    case Some(c) => if c > bound then True else False
  }

  /** Is the row kept by `WHERE (filter) AND cursor > after`? */
  predicate Selected(filter: Condition, after: int, r: Row)
  {
    And(filter(r), Above(r.cursor, after)) == True
  }

  /** The rows satisfying `p`, in their original order. */
  ghost function Where(rows: seq<Row>, p: Row -> bool): (kept: seq<Row>)
    ensures forall r {:trigger multiset(kept)[r]} :: multiset(kept)[r] == if p(r) then multiset(rows)[r] else 0
  {
    if rows == [] then []
    else
      var n := |rows| - 1;
      assert rows == rows[..n] + [rows[n]];
      Where(rows[..n], p) + if p(rows[n]) then [rows[n]] else []
  }

  /** The rows a stream standing at `after` has still to see. */
  ghost function Pending(table: seq<Row>, filter: Condition, after: int): seq<Row>
  {
    Where(table, r => Selected(filter, after, r))
  }

  /** The matching rows with lo < cursor <= hi. */
  ghost function Between(table: seq<Row>, filter: Condition, lo: int, hi: int): seq<Row>
  {
    Where(table, r => Selected(filter, lo, r) && r.cursor.value <= hi)
  }

  /** The rows with cursor at most `c`. */
  ghost function UpTo(rows: seq<Row>, c: int): seq<Row>
  {
    Where(rows, (r: Row) => r.cursor.Some? && r.cursor.value <= c)
  }

  /** The rows tied at cursor `c`. */
  ghost function TiedAt(rows: seq<Row>, c: int): seq<Row>
  {
    Where(rows, (r: Row) => r.cursor == Some(c))
  }

  lemma UpToCount(rows: seq<Row>, c: int, r: Row)
    ensures multiset(UpTo(rows, c))[r] == if r.cursor.Some? && r.cursor.value <= c then multiset(rows)[r] else 0
  {
  }

  lemma TiedAtCount(rows: seq<Row>, c: int, r: Row)
    ensures multiset(TiedAt(rows, c))[r] == if r.cursor == Some(c) then multiset(rows)[r] else 0
  {
  }

  ghost predicate Ordered(rows: seq<Row>)
  {
    && (forall i | 0 <= i < |rows| :: rows[i].cursor.Some?)
    && (forall i, j | 0 <= i < j < |rows| :: rows[i].cursor.value <= rows[j].cursor.value)
  }

  /** What ORDER BY may answer: any sorted arrangement, ties in any order. */
  ghost predicate Arrangement(order: seq<Row>, rows: seq<Row>)
  {
    multiset(order) == multiset(rows) && Ordered(order)
  }

  /** No two rows of the table share a (non-NULL) cursor value. */
  ghost predicate UniqueCursors(table: seq<Row>)
  {
    && (forall r | r in table && r.cursor.Some? :: multiset(table)[r] == 1)
    && (forall r, x | r in table && x in table && r.cursor.Some? && r.cursor == x.cursor :: r == x)
  }

  /** Insertion sort by cursor: the reference for ORDER BY when cursors are unique. */
  ghost function SortByCursor(rows: seq<Row>): (sorted: seq<Row>)
    requires forall r | r in rows :: r.cursor.Some?
    ensures Arrangement(sorted, rows)
  {
    if rows == [] then []
    else
      var n := |rows| - 1;
      assert rows == rows[..n] + [rows[n]];
      InsertSorted(SortByCursor(rows[..n]), rows[n])
  }

  ghost function InsertSorted(sorted: seq<Row>, r: Row): (all: seq<Row>)
    requires Ordered(sorted) && r.cursor.Some?
    ensures multiset(all) == multiset(sorted) + multiset{r}
    ensures Ordered(all)
  {
    if sorted == [] || sorted[|sorted| - 1].cursor.value <= r.cursor.value then sorted + [r]
    else
      var n := |sorted| - 1;
      var front := InsertSorted(sorted[..n], r);
      AppendOrdered(front, sorted, r);
      front + [sorted[n]]
  }

  /** Putting the last element back after inserting before it. */
  lemma AppendOrdered(front: seq<Row>, sorted: seq<Row>, r: Row)
    requires Ordered(sorted) && sorted != [] && r.cursor.Some? && r.cursor.value <= sorted[|sorted| - 1].cursor.value
    requires Ordered(front) && multiset(front) == multiset(sorted[..|sorted| - 1]) + multiset{r}
    ensures Ordered(front + [sorted[|sorted| - 1]])
    ensures multiset(front + [sorted[|sorted| - 1]]) == multiset(sorted) + multiset{r}
  {
    var n := |sorted| - 1;
    assert sorted == sorted[..n] + [sorted[n]];
    forall i | 0 <= i < |front| ensures front[i].cursor.value <= sorted[n].cursor.value {
      assert front[i] in multiset(sorted[..n]) + multiset{r};
      if front[i] in multiset(sorted[..n]) {
        var j :| 0 <= j < n && sorted[..n][j] == front[i];
      }
    }
  }

  /** `SELECT ... WHERE (filter) AND lo < cursor AND cursor <= hi ORDER BY cursor`, run once. */
  ghost function OneShot(table: seq<Row>, filter: Condition, lo: int, hi: int): seq<Row>
  {
    BetweenHasCursors(table, filter, lo, hi);
    SortByCursor(Between(table, filter, lo, hi))
  }

  lemma BetweenHasCursors(table: seq<Row>, filter: Condition, lo: int, hi: int)
    ensures forall r | r in Between(table, filter, lo, hi) :: r.cursor.Some?
  {
    forall r | r in Between(table, filter, lo, hi) ensures r.cursor.Some? {
      assert multiset(Between(table, filter, lo, hi))[r] > 0;
    }
  }

  /** Rows with the same cursor are the same row. */
  ghost predicate CursorsDecide(rows: seq<Row>)
  {
    forall i, j | 0 <= i < j < |rows| && rows[i].cursor == rows[j].cursor :: rows[i] == rows[j]
  }

  /** Sorted arrangements of rows that their cursors tell apart are equal. */
  lemma {:induction false} OrderedUnique(a: seq<Row>, b: seq<Row>)
    requires Ordered(a) && Ordered(b) && multiset(a) == multiset(b)
    requires CursorsDecide(a)
    ensures a == b
  {
    SameLength(a, b);
    if a == [] {
    } else {
      var n := |a| - 1;
      assert a[n] == b[n] by { LastAgrees(a, b); }
      assert multiset(a[..n]) == multiset(b[..n]) by { DropLast(a); DropLast(b); }
      OrderedUnique(a[..n], b[..n]);
      assert a == a[..n] + [a[n]] && b == b[..n] + [b[n]];
    }
  }

  lemma SameLength(a: seq<Row>, b: seq<Row>)
    requires multiset(a) == multiset(b)
    ensures |a| == |b|
  {
    assert |multiset(a)| == |a| && |multiset(b)| == |b|;
  }

  lemma DropLast(a: seq<Row>)
    requires a != []
    ensures multiset(a[..|a| - 1]) == multiset(a) - multiset{a[|a| - 1]}
  {
    assert a == a[..|a| - 1] + [a[|a| - 1]];
  }

  lemma LastAgrees(a: seq<Row>, b: seq<Row>)
    requires Ordered(a) && Ordered(b) && multiset(a) == multiset(b) && |a| == |b| > 0
    requires CursorsDecide(a)
    ensures a[|a| - 1] == b[|b| - 1]
  {
    var n := |a| - 1;
    assert a[n] in multiset(b) && b[n] in multiset(a);
    var i :| 0 <= i < |a| && a[i] == b[n];
    var j :| 0 <= j < |b| && b[j] == a[n];
  }

  lemma PendingCount(table: seq<Row>, filter: Condition, after: int, r: Row)
    ensures multiset(Pending(table, filter, after))[r] == if Selected(filter, after, r) then multiset(table)[r] else 0
  {
  }

  lemma BetweenCount(table: seq<Row>, filter: Condition, lo: int, hi: int, r: Row)
    ensures multiset(Between(table, filter, lo, hi))[r]
            == if Selected(filter, lo, r) && r.cursor.value <= hi then multiset(table)[r] else 0
  {
  }

  /** Moving the bound up only drops rows at or below it. */
  lemma SelectedAbove(filter: Condition, lo: int, mid: int, r: Row)
    requires lo <= mid
    ensures Selected(filter, mid, r) <==> Selected(filter, lo, r) && r.cursor.value > mid
  {
  }

  /** A cut at `mid` splits a range of matching rows in two. */
  lemma BetweenSplits(table: seq<Row>, filter: Condition, lo: int, mid: int, hi: int)
    requires lo <= mid <= hi
    ensures multiset(Between(table, filter, lo, hi))
            == multiset(Between(table, filter, lo, mid)) + multiset(Between(table, filter, mid, hi))
  {
    forall r ensures multiset(Between(table, filter, lo, hi))[r]
                     == multiset(Between(table, filter, lo, mid))[r] + multiset(Between(table, filter, mid, hi))[r] {
      BetweenCount(table, filter, lo, hi, r);
      BetweenCount(table, filter, lo, mid, r);
      BetweenCount(table, filter, mid, hi, r);
      SelectedAbove(filter, lo, mid, r);
    }
    SumOfCounts(Between(table, filter, lo, hi), Between(table, filter, lo, mid), Between(table, filter, mid, hi));
  }

  lemma SumOfCounts(all: seq<Row>, low: seq<Row>, high: seq<Row>)
    requires forall r :: multiset(all)[r] == multiset(low)[r] + multiset(high)[r]
    ensures multiset(all) == multiset(low) + multiset(high)
  {
  }

  lemma PendingSplits(table: seq<Row>, filter: Condition, lo: int, mid: int)
    requires lo <= mid
    ensures multiset(Pending(table, filter, lo))
            == multiset(Between(table, filter, lo, mid)) + multiset(Pending(table, filter, mid))
  {
    forall r ensures multiset(Pending(table, filter, lo))[r]
                     == multiset(Between(table, filter, lo, mid))[r] + multiset(Pending(table, filter, mid))[r] {
      PendingCount(table, filter, lo, r);
      BetweenCount(table, filter, lo, mid, r);
      PendingCount(table, filter, mid, r);
      SelectedAbove(filter, lo, mid, r);
    }
    SumOfCounts(Pending(table, filter, lo), Between(table, filter, lo, mid), Pending(table, filter, mid));
  }
}
