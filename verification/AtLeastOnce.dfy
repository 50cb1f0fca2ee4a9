/** Ambiguous sends: what clients receive when a failed send may still have got through. */
module AtLeastOnce {
  import opened Rows
  import opened CursorStream
  import opened Delivery

  /** A log with repeats removed: the first occurrence of each row stays. */
  ghost function Distinct(log: seq<Row>): (firsts: seq<Row>)
    ensures forall r :: r in firsts <==> r in log
  {
    if log == [] then []
    else
      var n := |log| - 1;
      assert log == log[..n] + [log[n]];
      Distinct(log[..n]) + if log[n] in log[..n] then [] else [log[n]]
  }

  lemma {:induction false} DistinctCounts(log: seq<Row>, r: Row)
    ensures multiset(Distinct(log))[r] == if r in log then 1 else 0
  {
    if log != [] {
      var n := |log| - 1;
      assert log == log[..n] + [log[n]];
      DistinctCounts(log[..n], r);
    }
  }

  /** Appending a sorted batch keeps the distinct log sorted when its new rows lie above the old ones. */
  lemma {:induction false} DistinctAppend(log: seq<Row>, batch: seq<Row>, h: int)
    requires Ordered(batch) && Ordered(Distinct(log))
    requires forall r | r in log :: r.cursor.Some? && r.cursor.value <= h
    requires forall i | 0 <= i < |batch| && batch[i] !in log :: h < batch[i].cursor.value
    ensures Ordered(Distinct(log + batch))
    decreases |batch|
  {
    if batch == [] {
      assert log + batch == log;
    } else {
      var n := |batch| - 1;
      DistinctAppend(log, batch[..n], h);
      assert batch == batch[..n] + [batch[n]];
      assert log + batch == (log + batch[..n]) + [batch[n]];
      DistinctAppendOne(log, batch[..n], h, batch[n]);
    }
  }

  lemma DistinctAppendOne(log: seq<Row>, front: seq<Row>, h: int, last: Row)
    requires last.cursor.Some? && Ordered(front + [last]) && Ordered(Distinct(log + front))
    requires forall r | r in log :: r.cursor.Some? && r.cursor.value <= h
    requires last !in log ==> h < last.cursor.value
    ensures Ordered(Distinct(log + front + [last]))
  {
    DistinctSnoc(log + front, last);
    if last !in log + front {
      DistinctBelow(log, front, h, last);
      OrderedSnoc(Distinct(log + front), last);
    }
  }

  lemma DistinctSnoc(log: seq<Row>, last: Row)
    ensures Distinct(log + [last]) == if last in log then Distinct(log) else Distinct(log) + [last]
  {
    assert (log + [last])[..|log|] == log;
  }

  lemma OrderedSnoc(rows: seq<Row>, last: Row)
    requires Ordered(rows) && last.cursor.Some?
    requires forall i | 0 <= i < |rows| :: rows[i].cursor.value <= last.cursor.value
    ensures Ordered(rows + [last])
  {
  }

  lemma DistinctBelow(log: seq<Row>, front: seq<Row>, h: int, last: Row)
    requires last.cursor.Some? && h < last.cursor.value
    requires forall r | r in log :: r.cursor.Some? && r.cursor.value <= h
    requires Ordered(front + [last])
    ensures var firsts := Distinct(log + front);
            forall i | 0 <= i < |firsts| :: firsts[i].cursor.Some? && firsts[i].cursor.value <= last.cursor.value
  {
    var firsts := Distinct(log + front);
    forall k | 0 <= k < |firsts| ensures firsts[k].cursor.Some? && firsts[k].cursor.value <= last.cursor.value {
      var r := firsts[k];
      assert r in log + front;
      if r !in log {
        assert r in front;
        var i :| 0 <= i < |front| && front[i] == r;
        assert (front + [last])[i] == r && (front + [last])[|front|] == last;
      }
    }
  }

  ghost predicate InRange(table: seq<Row>, filter: Condition, lo: int, hi: int, r: Row)
  {
    r in table && Selected(filter, lo, r) && r.cursor.value <= hi
  }

  /** Clients have received exactly the matching rows with start < cursor <= h, first copies in order. */
  ghost predicate ReceivedUpTo(table: seq<Row>, filter: Condition, start: int, received: seq<Row>, h: int)
  {
    && Ordered(Distinct(received))
    && (forall r :: r in received <==> InRange(table, filter, start, h, r))
  }

  /** The batch holds exactly the matching rows with after < cursor <= c, in order. */
  ghost predicate Fills(table: seq<Row>, filter: Condition, after: int, batch: seq<Row>, c: int)
  {
    && after < c
    && Ordered(batch)
    && (forall r :: r in batch <==> InRange(table, filter, after, c, r))
  }

  function Max(a: int, b: int): int
  {
    if a <= b then b else a
  }

  /** A batch read from a clean state holds exactly the matching rows from the cursor to its last row. */
  lemma BatchFills(q: Query, s: Stream, e: Event)
    requires CleanState(q, s) && Clean(q, s, e) && e.Poll? && Batch(e.order, e.scanned) != []
    ensures var batch := Batch(e.order, e.scanned);
            var c := batch[|batch| - 1].cursor;
            c.Some? && HasCursor(s.table, c.value) && Fills(s.table, q.filter, s.cursor, batch, c.value)
  {
    var batch := Batch(e.order, e.scanned);
    var c := BatchOneShot(q, s, e);
    BatchOrdered(e.order, e.scanned);
    LastRowInTable(q, s, e);
    forall r ensures r in batch <==> InRange(s.table, q.filter, s.cursor, c, r) {
      OneShotHolds(s.table, q.filter, s.cursor, c, r);
    }
  }

  lemma OneShotHolds(table: seq<Row>, filter: Condition, lo: int, hi: int, r: Row)
    ensures r in OneShot(table, filter, lo, hi) <==> InRange(table, filter, lo, hi, r)
  {
    var log := OneShot(table, filter, lo, hi);
    assert multiset(log)[r] == multiset(Between(table, filter, lo, hi))[r];
    assert r in log <==> multiset(log)[r] > 0;
    assert r in table <==> multiset(table)[r] > 0;
  }

  /** One more copy of a batch reaching the clients. */
  lemma CopyReceived(
    table: seq<Row>, filter: Condition, start: int, received: seq<Row>, h: int, after: int, batch: seq<Row>, c: int)
    requires ReceivedUpTo(table, filter, start, received, h) && Fills(table, filter, after, batch, c)
            && start <= after <= h
    ensures ReceivedUpTo(table, filter, start, received + batch, Max(h, c))
  {
    forall r ensures r in received + batch <==> InRange(table, filter, start, Max(h, c), r) {
      assert r in received <==> InRange(table, filter, start, h, r);
      assert r in batch <==> InRange(table, filter, after, c, r);
    }
    forall i | 0 <= i < |batch| && batch[i] !in received ensures h < batch[i].cursor.value {
      assert InRange(table, filter, after, c, batch[i]);
      assert !InRange(table, filter, start, h, batch[i]);
    }
    DistinctAppend(received, batch, h);
  }

  lemma {:induction false} CopiesReceived(table: seq<Row>, filter: Condition, start: int, received: seq<Row>, h: int,
                                          after: int, batch: seq<Row>, c: int, copies: nat)
    requires ReceivedUpTo(table, filter, start, received, h) && Fills(table, filter, after, batch, c)
            && start <= after <= h
    ensures ReceivedUpTo(table, filter, start, received + Repeat(batch, copies), if copies == 0 then h else Max(h, c))
    decreases copies
  {
    AppendRepeat(received, batch, copies);
    if copies > 0 {
      CopiesReceived(table, filter, start, received, h, after, batch, c, copies - 1);
      var g := if copies == 1 then h else Max(h, c);
      CopyReceived(table, filter, start, received + Repeat(batch, copies - 1), g, after, batch, c);
    }
  }

  lemma AppendRepeat(received: seq<Row>, batch: seq<Row>, copies: nat)
    ensures received + Repeat(batch, copies) == if copies == 0 then received
            else received + Repeat(batch, copies - 1) + batch
  {
  }

  lemma InsertedBeyond(table: seq<Row>, filter: Condition, start: int, received: seq<Row>, h: int, r: Row)
    requires ReceivedUpTo(table, filter, start, received, h) && Highest(table, r) && (h == start || HasCursor(table, h))
    ensures ReceivedUpTo(table + [r], filter, start, received, h)
    ensures h == start || HasCursor(table + [r], h)
  {
    if h != start {
      var x :| x in table && x.cursor == Some(h);
      assert x in table + [r];
    }
    forall x ensures x in received <==> InRange(table + [r], filter, start, h, x) {
      assert x in received <==> InRange(table, filter, start, h, x);
      assert !InRange(table + [r], filter, start, h, r);
    }
  }

  /** Clients have got to `h`, at or past the cursor. */
  ghost predicate Reached(q: Query, s: Stream, h: int)
  {
    && s.cursor <= h
    && (h == s.start || HasCursor(s.table, h))
    && ReceivedUpTo(s.table, q.filter, s.start, s.received, h)
  }

  /** How far the clients have got after a step: never back, and at least to the cursor. */
  lemma ReceivedStep(q: Query, s: Stream, e: Event, h: int) returns (h': int)
    requires CleanState(q, s) && Clean(q, s, e) && (e.Insert? ==> Highest(s.table, e.row))
    requires Reached(q, s, h)
    ensures h <= h' && Reached(q, Next(q, s, e), h')
  {
    h' := h;
    if e.Insert? {
      InsertedBeyond(s.table, q.filter, s.start, s.received, h, e.row);
    } else if e.Poll? && Batch(e.order, e.scanned) != [] && !e.outcome.EncodeFailed? {
      h' := PollReceived(q, s, e, h);
    }
  }

  lemma PollReceived(q: Query, s: Stream, e: Event, h: int) returns (h': int)
    requires CleanState(q, s) && Clean(q, s, e) && e.Poll? && Batch(e.order, e.scanned) != []
            && !e.outcome.EncodeFailed?
    requires Reached(q, s, h)
    ensures h <= h' && Reached(q, Next(q, s, e), h')
  {
    var batch := Batch(e.order, e.scanned);
    BatchFills(q, s, e);
    var c := batch[|batch| - 1].cursor.value;
    CopiesReceived(s.table, q.filter, s.start, s.received, h, s.cursor, batch, c, e.outcome.copies);
    h' := if e.outcome.copies == 0 then h else Max(h, c);
    PollEffect(q, s, e);
  }

  lemma PollEffect(q: Query, s: Stream, e: Event)
    requires CleanState(q, s) && Clean(q, s, e) && e.Poll? && Batch(e.order, e.scanned) != []
    requires !e.outcome.EncodeFailed?
    ensures var batch := Batch(e.order, e.scanned);
            var t := Next(q, s, e);
            && t.table == s.table && t.start == s.start && t.received == s.received + Repeat(batch, e.outcome.copies)
            && Some(t.cursor) == if e.outcome.Sent? then batch[|batch| - 1].cursor else Some(s.cursor)
  {
    if e.outcome.Sent? {
      LastRead(q, s, e);
      SentEffect(q, s, e);
      SentReceives(q, s, e);
    } else {
      FailedReceives(q, s, e);
    }
  }

  lemma SentReceives(q: Query, s: Stream, e: Event)
    requires Legal(q, s, e) && Acknowledges(e)
    ensures Next(q, s, e).received == s.received + Repeat(Batch(e.order, e.scanned), e.outcome.copies)
  {
  }

  lemma FailedReceives(q: Query, s: Stream, e: Event)
    requires Legal(q, s, e) && e.Poll? && Batch(e.order, e.scanned) != [] && e.outcome.SendFailed?
    ensures Next(q, s, e) == s.(received := s.received + Repeat(Batch(e.order, e.scanned), e.outcome.copies))
  {
  }

  lemma {:induction false} ReceivedRun(q: Query, s: Stream, es: seq<Event>, h: int) returns (h': int)
    requires CleanState(q, s) && InOrderRun(q, s, es) && Reached(q, s, h)
    ensures Reached(q, Run(q, s, es), h')
    decreases |es|
  {
    h' := h;
    if es != [] {
      var g := ReceivedStep(q, s, es[0], h);
      CleanStep(q, s, es[0]);
      h' := ReceivedRun(q, Next(q, s, es[0]), es[1..], g);
    }
  }

  /** Sorted rows split at `mid` are the sorted low part followed by the sorted high part. */
  lemma SplitAt(low: seq<Row>, high: seq<Row>, all: seq<Row>, mid: int)
    requires Ordered(low) && Ordered(high) && Ordered(all) && CursorsDecide(all)
    requires multiset(all) == multiset(low) + multiset(high)
    requires forall i | 0 <= i < |low| :: low[i].cursor.value <= mid
    requires forall i | 0 <= i < |high| :: mid < high[i].cursor.value
    ensures all == low + high
  {
    assert Ordered(low + high);
    OrderedUnique(all, low + high);
  }

  lemma OneShotBounds(table: seq<Row>, filter: Condition, lo: int, hi: int)
    ensures var log := OneShot(table, filter, lo, hi);
            forall i | 0 <= i < |log| :: log[i].cursor.Some? && lo < log[i].cursor.value <= hi && log[i] in table
  {
    var log := OneShot(table, filter, lo, hi);
    forall i | 0 <= i < |log| ensures log[i].cursor.Some? && lo < log[i].cursor.value <= hi && log[i] in table {
      assert multiset(log)[log[i]] > 0;
    }
  }

  lemma AllAboveBounds(table: seq<Row>, filter: Condition, lo: int)
    ensures var log := AllAbove(table, filter, lo);
            forall i | 0 <= i < |log| :: log[i].cursor.Some? && lo < log[i].cursor.value && log[i] in table
  {
    var log := AllAbove(table, filter, lo);
    forall i | 0 <= i < |log| ensures log[i].cursor.Some? && lo < log[i].cursor.value && log[i] in table {
      assert multiset(log)[log[i]] > 0;
    }
  }

  lemma TableDecides(table: seq<Row>, log: seq<Row>)
    requires UniqueCursors(table)
    requires forall i | 0 <= i < |log| :: log[i].cursor.Some? && log[i] in table
    ensures CursorsDecide(log)
  {
  }

  /** The one-shot answer for a range is a prefix of all matching rows above `lo` in cursor order. */
  lemma OneShotPrefix(table: seq<Row>, filter: Condition, lo: int, mid: int)
    requires lo <= mid && UniqueCursors(table)
    ensures AllAbove(table, filter, lo) == OneShot(table, filter, lo, mid) + AllAbove(table, filter, mid)
  {
    var low, high, all := OneShot(table, filter, lo, mid), AllAbove(table, filter, mid), AllAbove(table, filter, lo);
    OneShotBounds(table, filter, lo, mid);
    AllAboveBounds(table, filter, mid);
    AllAboveBounds(table, filter, lo);
    TableDecides(table, all);
    assert multiset(all) == multiset(low) + multiset(high) by { PendingSplits(table, filter, lo, mid); }
    SplitAt(low, high, all, mid);
  }

  /** One-shot answers for adjoining ranges concatenate. */
  lemma OneShotSplits(table: seq<Row>, filter: Condition, lo: int, mid: int, hi: int)
    requires lo <= mid <= hi && UniqueCursors(table)
    ensures OneShot(table, filter, lo, hi) == OneShot(table, filter, lo, mid) + OneShot(table, filter, mid, hi)
  {
    var low, high, all := OneShot(table, filter, lo, mid), OneShot(table, filter, mid, hi),
        OneShot(table, filter, lo, hi);
    OneShotBounds(table, filter, lo, mid);
    OneShotBounds(table, filter, mid, hi);
    OneShotBounds(table, filter, lo, hi);
    TableDecides(table, all);
    assert multiset(all) == multiset(low) + multiset(high) by { BetweenSplits(table, filter, lo, mid, hi); }
    SplitAt(low, high, all, mid);
  }

  /** All matching rows above `lo`, in cursor order. */
  ghost function AllAbove(table: seq<Row>, filter: Condition, lo: int): (rows: seq<Row>)
    ensures Arrangement(rows, Pending(table, filter, lo))
  {
    PendingHasCursors(table, filter, lo);
    SortByCursor(Pending(table, filter, lo))
  }

  lemma PendingHasCursors(table: seq<Row>, filter: Condition, lo: int)
    ensures forall r | r in Pending(table, filter, lo) :: r.cursor.Some?
  {
    forall r | r in Pending(table, filter, lo) ensures r.cursor.Some? {
      assert multiset(Pending(table, filter, lo))[r] > 0;
    }
  }

  /**
   * At-least-once: keeping the first copy of each row, what the clients received is a sorted,
   * gap-free prefix of the matching rows above the start, and it reaches at least the cursor.
   */
  lemma ReceivedIsGapFree(q: Query, table: seq<Row>, start: int, es: seq<Event>) returns (h: int)
    requires UniqueCursors(table) && Parses(q, table) && InOrderRun(q, Opened(table, start), es)
    ensures var t := Run(q, Opened(table, start), es);
            && t.cursor <= h
            && Distinct(t.received) == OneShot(t.table, q.filter, start, h)
            && Distinct(t.received) <= AllAbove(t.table, q.filter, start)
            && t.acked <= Distinct(t.received)
  {
    var s := Opened(table, start);
    OpenedLedger(q, table, start);
    ExactRun(q, s, es);
    StartFixed(q, s, es);
    h := ReceivedRun(q, s, es, start) by {
      NothingReceived(q, s);
    }
    ReceivedIs(q, Run(q, s, es), h);
  }

  /** What was received up to `h`, given that the acknowledged log is exact. */
  lemma ReceivedIs(q: Query, t: Stream, h: int)
    requires ExactState(q, t) && Reached(q, t, h)
    ensures t.cursor <= h && Distinct(t.received) == OneShot(t.table, q.filter, t.start, h)
    ensures Distinct(t.received) <= AllAbove(t.table, q.filter, t.start) && t.acked <= Distinct(t.received)
  {
    ReceivedIsRange(t.table, q.filter, t.start, t.received, h);
    LogIsOneShot(t.table, q.filter, t.start, h, Distinct(t.received));
    LogIsOneShot(t.table, q.filter, t.start, t.cursor, t.acked);
    OneShotPrefix(t.table, q.filter, t.start, h);
    OneShotSplits(t.table, q.filter, t.start, t.cursor, h);
  }

  lemma NothingReceived(q: Query, s: Stream)
    requires s.received == [] && s.cursor == s.start
    ensures Reached(q, s, s.start)
  {
  }

  lemma ReceivedIsRange(table: seq<Row>, filter: Condition, start: int, received: seq<Row>, h: int)
    requires ReceivedUpTo(table, filter, start, received, h) && UniqueCursors(table)
    ensures multiset(Distinct(received)) == multiset(Between(table, filter, start, h))
  {
    forall r ensures multiset(Distinct(received))[r] == multiset(Between(table, filter, start, h))[r] {
      DistinctCounts(received, r);
      assert r in received <==> InRange(table, filter, start, h, r);
      assert r in table <==> multiset(table)[r] > 0;
    }
  }

  /** A batch read from a clean state is the one-shot answer from the cursor to its last row. */
  lemma BatchOneShot(q: Query, s: Stream, e: Event) returns (c: int)
    requires CleanState(q, s) && Clean(q, s, e) && e.Poll? && Batch(e.order, e.scanned) != []
    ensures var batch := Batch(e.order, e.scanned);
            s.cursor < c && batch[|batch| - 1].cursor == Some(c) && batch == OneShot(s.table, q.filter, s.cursor, c)
  {
    AcknowledgedRange(q, s, e);
    AllScanned(e.order, e.scanned);
    NoTies(q, s, e);
    BatchOrdered(e.order, e.scanned);
    var batch := Batch(e.order, e.scanned);
    c := batch[|batch| - 1].cursor.value;
    LogIsOneShot(s.table, q.filter, s.cursor, c, batch);
  }

  lemma {:induction false} InsertsKeepCursor(q: Query, s: Stream, es: seq<Event>)
    requires LegalRun(q, s, es) && forall x | x in es :: x.Insert?
    ensures Run(q, s, es).cursor == s.cursor
    decreases |es|
  {
    if es != [] {
      InsertsKeepCursor(q, Next(q, s, es[0]), es[1..]);
    }
  }

  /** A failed batch and its retry, with only in-order inserts between, agree on a prefix. */
  lemma RetryComparable(q: Query, s: Stream, e: Event, es: seq<Event>, f: Event)
    requires CleanState(q, s) && Clean(q, s, e) && e.Poll? && !Acknowledges(e)
    requires InOrderRun(q, Next(q, s, e), es) && forall x | x in es :: x.Insert?
    requires Clean(q, Run(q, Next(q, s, e), es), f) && f.Poll?
    ensures var first, retry := Batch(e.order, e.scanned), Batch(f.order, f.scanned); first <= retry || retry <= first
  {
    var first, retry := Batch(e.order, e.scanned), Batch(f.order, f.scanned);
    if first != [] && retry != [] {
      var t := Run(q, Next(q, s, e), es);
      RetryState(q, s, e, es);
      var a := FirstBatchStable(q, s, e, Next(q, s, e), es);
      var b := BatchOneShot(q, t, f);
      ComparableRanges(t.table, q.filter, s.cursor, a, b);
    }
  }

  lemma RetryState(q: Query, s: Stream, e: Event, es: seq<Event>)
    requires CleanState(q, s) && Clean(q, s, e) && e.Poll? && !Acknowledges(e)
    requires InOrderRun(q, Next(q, s, e), es) && forall x | x in es :: x.Insert?
    ensures var t := Run(q, Next(q, s, e), es); CleanState(q, t) && t.cursor == s.cursor
    ensures Next(q, s, e).table == s.table
  {
    CleanStep(q, s, e);
    CleanRunKeeps(q, Next(q, s, e), es);
    InsertsKeepCursor(q, Next(q, s, e), es);
    TableStep(q, s, e);
  }

  lemma ComparableRanges(table: seq<Row>, filter: Condition, lo: int, a: int, b: int)
    requires UniqueCursors(table) && lo <= a && lo <= b
    ensures var x, y := OneShot(table, filter, lo, a), OneShot(table, filter, lo, b); x <= y || y <= x
  {
    if a <= b {
      OneShotSplits(table, filter, lo, a, b);
    } else {
      OneShotSplits(table, filter, lo, b, a);
    }
  }

  lemma FirstBatchStable(q: Query, s: Stream, e: Event, s1: Stream, es: seq<Event>) returns (c: int)
    requires CleanState(q, s) && Clean(q, s, e) && e.Poll? && Batch(e.order, e.scanned) != []
    requires s1.table == s.table && InOrderRun(q, s1, es)
    ensures s.cursor < c && Batch(e.order, e.scanned) == OneShot(Run(q, s1, es).table, q.filter, s.cursor, c)
  {
    c := BatchOneShot(q, s, e);
    LastRowInTable(q, s, e);
    RangeStable(q, s1, es, s.cursor, c);
  }
}
