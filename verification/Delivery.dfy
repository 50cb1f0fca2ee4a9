/** What a stream delivers over whole runs: exactness, no duplicates, at-least-once. */
module Delivery {
  import opened Rows
  import opened CursorStream

  // ---- any insertion order, any ties ----

  /** The cursor moves exactly when rows are acknowledged, and then strictly up to the last of them. */
  lemma CursorFollowsAcknowledgement(q: Query, s: Stream, e: Event)
    requires Legal(q, s, e) && Parses(q, s.table)
    ensures var t := Next(q, s, e);
            if t.acked == s.acked then t.cursor == s.cursor && t.rowsSent == s.rowsSent
            else s.acked < t.acked && t.cursor > s.cursor && t.acked[|t.acked| - 1].cursor == Some(t.cursor)
  {
    if Acknowledges(e) {
      AcknowledgedRange(q, s, e);
      SentEffect(q, s, e);
    }
  }

  /** The acknowledged log is sorted and ends at or below the cursor. */
  ghost predicate LogSorted(s: Stream)
  {
    && s.start <= s.cursor
    && Ordered(s.acked)
    && (forall r | r in s.acked :: r.cursor.value <= s.cursor)
  }

  lemma LogSortedStep(q: Query, s: Stream, e: Event)
    requires Legal(q, s, e) && Parses(q, s.table) && LogSorted(s)
    ensures LogSorted(Next(q, s, e))
  {
    if Acknowledges(e) {
      LogSortedSent(q, s, e);
    }
  }

  lemma LogSortedSent(q: Query, s: Stream, e: Event)
    requires Legal(q, s, e) && Parses(q, s.table) && LogSorted(s) && Acknowledges(e)
    ensures LogSorted(Next(q, s, e))
  {
    AcknowledgedRange(q, s, e);
    SentEffect(q, s, e);
    BatchAbove(q, s, e);
    AppendAbove(s.acked, Batch(e.order, e.scanned), s.cursor);
  }

  /** A batch is sorted, lies above the cursor, and ends in its highest row. */
  lemma BatchAbove(q: Query, s: Stream, e: Event)
    requires Legal(q, s, e) && Acknowledges(e)
    ensures var batch := Batch(e.order, e.scanned);
            && Ordered(batch)
            && forall r | r in batch :: s.cursor < r.cursor.value <= batch[|batch| - 1].cursor.value
  {
    var batch := Batch(e.order, e.scanned);
    BatchOrdered(e.order, e.scanned);
    forall r | r in batch ensures s.cursor < r.cursor.value <= batch[|batch| - 1].cursor.value {
      PendingRow(s.table, q.filter, s.cursor, e.order, r);
      BatchBelowLast(batch, r);
    }
  }

  lemma AppendAbove(log: seq<Row>, batch: seq<Row>, c: int)
    requires Ordered(log) && Ordered(batch) && batch != []
    requires forall r | r in log :: r.cursor.value <= c
    requires forall r | r in batch :: c < r.cursor.value <= batch[|batch| - 1].cursor.value
    ensures Ordered(log + batch)
    ensures forall r | r in log + batch :: r.cursor.value <= batch[|batch| - 1].cursor.value
  {
    var last := batch[|batch| - 1];
    assert last in batch;
    forall i, j | 0 <= i < |log| && 0 <= j < |batch| ensures log[i].cursor.value <= batch[j].cursor.value {
      assert log[i] in log && batch[j] in batch;
    }
  }

  /**
   * No row is acknowledged twice, in whatever order rows become visible: counting duplicates,
   * the log is contained in the table, and it is sorted.
   */
  lemma {:induction false} NoDoubleAcknowledgement(q: Query, s: Stream, es: seq<Event>)
    requires Ledger(q, s) && LogSorted(s) && LegalRun(q, s, es) && InsertsParse(q, es)
    ensures var t := Run(q, s, es); multiset(t.acked) <= multiset(t.table) && LogSorted(t) && t.rowsSent == |t.acked|
    decreases |es|
  {
    if es == [] {
      LogWithinTable(q, s);
    } else {
      LedgerStep(q, s, es[0]);
      LogSortedStep(q, s, es[0]);
      NoDoubleAcknowledgement(q, Next(q, s, es[0]), es[1..]);
    }
  }

  lemma LogWithinTable(q: Query, s: Stream)
    requires Ledger(q, s)
    ensures multiset(s.acked) <= multiset(s.table)
  {
    forall r ensures multiset(s.acked)[r] <= multiset(s.table)[r] {
      assert multiset(Between(s.table, q.filter, s.start, s.cursor))[r] <= multiset(s.table)[r];
    }
  }

  /** A row recorded as late was inserted when the cursor had already reached it. */
  lemma {:induction false} LateRowArrivedLate(q: Query, s: Stream, es: seq<Event>, r: Row) returns (k: nat)
    requires LegalRun(q, s, es) && r in Run(q, s, es).late && r !in s.late
    ensures k < |es| && es[k] == Insert(r)
    ensures LegalRun(q, s, es[..k])
    ensures r.cursor.Some? && r.cursor.value <= Run(q, s, es[..k]).cursor
    decreases |es|
  {
    var t := Next(q, s, es[0]);
    if r in t.late {
      k := 0;
      assert es[..0] == [];
    } else {
      var j := LateRowArrivedLate(q, t, es[1..], r);
      k := j + 1;
      assert es[..k][0] == es[0] && es[..k][1..] == es[1..][..j];
    }
  }

  // ---- unique cursors: only lateness can lose a row ----

  /** The inserted row's cursor value is new. */
  ghost predicate NewCursor(table: seq<Row>, r: Row)
  {
    r.cursor.Some? ==> forall x | x in table :: x.cursor != r.cursor
  }

  /** Every row that was read could be scanned, and an inserted row has a readable, new cursor. */
  ghost predicate Clean(q: Query, s: Stream, e: Event)
  {
    && Legal(q, s, e)
    && (e.Poll? ==> forall i | 0 <= i < |e.scanned| :: e.scanned[i])
    && (e.Insert? ==> NewCursor(s.table, e.row) && Parses(q, [e.row]))
  }

  ghost predicate CleanRun(q: Query, s: Stream, es: seq<Event>)
    ensures CleanRun(q, s, es) ==> LegalRun(q, s, es)
    decreases |es|
  {
    es == [] || (Clean(q, s, es[0]) && CleanRun(q, Next(q, s, es[0]), es[1..]))
  }

  ghost predicate CleanState(q: Query, s: Stream)
  {
    && Ledger(q, s) && LogSorted(s) && UniqueCursors(s.table)
    && s.unscanned == multiset{} && s.passed == multiset{}
  }

  lemma {:induction false} AllScanned(order: seq<Row>, scanned: seq<bool>)
    requires |scanned| <= |order| && forall i | 0 <= i < |scanned| :: scanned[i]
    ensures Unscanned(order, scanned) == [] && Batch(order, scanned) == order[..|scanned|]
  {
    if scanned != [] {
      var n := |scanned| - 1;
      AllScanned(order, scanned[..n]);
      assert order[..n + 1] == order[..n] + [order[n]];
    }
  }

  /** With unique cursors no unread row is tied with the batch's end. */
  lemma NoTies(q: Query, s: Stream, e: Event)
    requires Legal(q, s, e) && e.Poll? && UniqueCursors(s.table)
    requires var batch := Batch(e.order, e.scanned); batch != []
    ensures var batch := Batch(e.order, e.scanned);
            var last := batch[|batch| - 1].cursor;
            last.Some? ==> TieLosses(e.order, e.scanned, last.value) == []
  {
    var batch := Batch(e.order, e.scanned);
    var x := batch[|batch| - 1];
    if x.cursor.Some? {
      var tied := TieLosses(e.order, e.scanned, x.cursor.value);
      forall r ensures multiset(tied)[r] == 0 {
        NotTied(q, s, e, r);
      }
      assert |multiset(tied)| == 0;
    }
  }

  lemma NotTied(q: Query, s: Stream, e: Event, r: Row)
    requires Legal(q, s, e) && e.Poll? && UniqueCursors(s.table)
    requires var batch := Batch(e.order, e.scanned); batch != [] && batch[|batch| - 1].cursor.Some?
    ensures var batch := Batch(e.order, e.scanned);
            multiset(TieLosses(e.order, e.scanned, batch[|batch| - 1].cursor.value))[r] == 0
  {
    var batch, rest := Batch(e.order, e.scanned), e.order[|e.scanned|..];
    var x := batch[|batch| - 1];
    TiedAtCount(rest, x.cursor.value, r);
    if r.cursor == x.cursor && r in rest {
      OrderCount(e.order, e.scanned, r);
      BatchOrdered(e.order, e.scanned);
      assert x in batch;
      PendingRow(s.table, q.filter, s.cursor, e.order, r);
      PendingRow(s.table, q.filter, s.cursor, e.order, x);
      PendingCount(s.table, q.filter, s.cursor, r);
      assert false;
    }
  }

  lemma UniqueExtends(table: seq<Row>, r: Row)
    requires UniqueCursors(table) && NewCursor(table, r)
    ensures UniqueCursors(table + [r])
  {
    assert multiset(table + [r]) == multiset(table) + multiset{r};
    assert r.cursor.Some? ==> r !in table;
  }

  lemma NothingLeftBehind(q: Query, s: Stream, e: Event)
    requires CleanState(q, s) && Clean(q, s, e) && Acknowledges(e)
    ensures var t := Next(q, s, e); t.unscanned == s.unscanned && t.passed == s.passed && t.table == s.table
  {
    AllScanned(e.order, e.scanned);
    NoTies(q, s, e);
    LastRead(q, s, e);
    SentEffect(q, s, e);
  }

  lemma CleanStep(q: Query, s: Stream, e: Event)
    requires CleanState(q, s) && Clean(q, s, e)
    ensures CleanState(q, Next(q, s, e))
  {
    var t := Next(q, s, e);
    assert Ledger(q, t) by { LedgerStep(q, s, e); }
    assert LogSorted(t) by { LogSortedStep(q, s, e); }
    if e.Insert? {
      UniqueExtends(s.table, e.row);
    } else if Acknowledges(e) {
      NothingLeftBehind(q, s, e);
    }
  }

  lemma {:induction false} CleanRunKeeps(q: Query, s: Stream, es: seq<Event>)
    requires CleanState(q, s) && CleanRun(q, s, es)
    ensures CleanState(q, Run(q, s, es))
    decreases |es|
  {
    if es != [] {
      CleanStep(q, s, es[0]);
      CleanRunKeeps(q, Next(q, s, es[0]), es[1..]);
    }
  }

  /** A freshly opened stream satisfies the ledger; with unique cursors it is clean. */
  lemma OpenedLedger(q: Query, table: seq<Row>, start: int)
    requires Parses(q, table)
    ensures Ledger(q, Opened(table, start)) && LogSorted(Opened(table, start))
    ensures UniqueCursors(table) ==> CleanState(q, Opened(table, start))
  {
    EmptyRange(table, q.filter, start);
  }

  lemma EmptyRange(table: seq<Row>, filter: Condition, c: int)
    ensures Between(table, filter, c, c) == []
  {
    var none := Between(table, filter, c, c);
    forall r ensures multiset(none)[r] == 0 {
    }
    assert |multiset(none)| == 0;
  }

  /** Every run of a newly opened stream is accounted for and acknowledges no row twice. */
  lemma EveryRunAccounted(q: Query, table: seq<Row>, start: int, es: seq<Event>)
    requires Parses(q, table) && LegalRun(q, Opened(table, start), es) && InsertsParse(q, es)
    ensures var t := Run(q, Opened(table, start), es);
            Ledger(q, t) && LogSorted(t) && multiset(t.acked) <= multiset(t.table)
  {
    OpenedLedger(q, table, start);
    LedgerHolds(q, Opened(table, start), es);
    NoDoubleAcknowledgement(q, Opened(table, start), es);
  }

  /**
   * With unique cursors, a matching row the cursor has passed without delivering it became
   * visible only after the cursor had reached it.
   */
  lemma UndeliveredRowIsLate(q: Query, table: seq<Row>, start: int, es: seq<Event>, r: Row) returns (k: nat)
    requires UniqueCursors(table) && Parses(q, table) && CleanRun(q, Opened(table, start), es)
    requires var t := Run(q, Opened(table, start), es);
             r in t.table && Selected(q.filter, start, r) && r.cursor.value <= t.cursor && r !in t.acked
    ensures k < |es| && es[k] == Insert(r) && LegalRun(q, Opened(table, start), es[..k])
    ensures r.cursor.value <= Run(q, Opened(table, start), es[..k]).cursor
  {
    var s := Opened(table, start);
    OpenedLedger(q, table, start);
    CleanRunKeeps(q, s, es);
    var t := Run(q, s, es);
    StartFixed(q, s, es);
    assert multiset(Between(t.table, q.filter, t.start, t.cursor))[r] > 0;
    assert multiset(t.acked)[r] == 0;
    k := LateRowArrivedLate(q, s, es, r);
  }

  /** The row was inserted when the cursor had already reached it. */
  ghost predicate InsertedLate(q: Query, s: Stream, es: seq<Event>, r: Row, k: nat)
  {
    && k < |es| && es[k] == Insert(r) && LegalRun(q, s, es[..k])
    && r.cursor.Some? && r.cursor.value <= Run(q, s, es[..k]).cursor
  }

  lemma BehindStep(q: Query, s: Stream, e: Event, r: Row)
    requires Legal(q, s, e) && Parses(q, s.table) && r.cursor.Some? && r.cursor.value <= s.cursor && r !in s.acked
    ensures r.cursor.value <= Next(q, s, e).cursor && r !in Next(q, s, e).acked
  {
    CursorFollowsAcknowledgement(q, s, e);
    if Acknowledges(e) {
      AcknowledgedRange(q, s, e);
      SentEffect(q, s, e);
      BatchAbove(q, s, e);
    }
  }

  lemma {:induction false} BehindRun(q: Query, s: Stream, es: seq<Event>, r: Row)
    requires CleanState(q, s) && CleanRun(q, s, es) && r.cursor.Some? && r.cursor.value <= s.cursor && r !in s.acked
    ensures r !in Run(q, s, es).acked
    decreases |es|
  {
    if es != [] {
      BehindStep(q, s, es[0], r);
      CleanStep(q, s, es[0]);
      BehindRun(q, Next(q, s, es[0]), es[1..], r);
    }
  }

  lemma NewIsNotAcknowledged(q: Query, s: Stream, r: Row)
    requires CleanState(q, s) && NewCursor(s.table, r) && r.cursor.Some?
    ensures r !in s.acked
  {
    LogWithinTable(q, s);
    assert multiset(s.acked)[r] <= multiset(s.table)[r];
  }

  /** A row inserted at or below the cursor is never delivered. */
  lemma {:induction false} LateRowNeverDelivered(q: Query, s: Stream, es: seq<Event>, r: Row, k: nat)
    requires CleanState(q, s) && CleanRun(q, s, es) && InsertedLate(q, s, es, r, k)
    ensures r !in Run(q, s, es).acked
    decreases |es|
  {
    CleanStep(q, s, es[0]);
    if k == 0 {
      LateNow(q, s, es, r);
    } else {
      LateLater(q, s, es, r, k);
      LateRowNeverDelivered(q, Next(q, s, es[0]), es[1..], r, k - 1);
    }
  }

  lemma LateNow(q: Query, s: Stream, es: seq<Event>, r: Row)
    requires CleanState(q, s) && CleanRun(q, s, es) && InsertedLate(q, s, es, r, 0)
    ensures r !in Run(q, s, es).acked
  {
    CleanStep(q, s, es[0]);
    NewIsNotAcknowledged(q, s, r);
    BehindStep(q, s, es[0], r);
    BehindRun(q, Next(q, s, es[0]), es[1..], r);
  }

  lemma LateLater(q: Query, s: Stream, es: seq<Event>, r: Row, k: nat)
    requires k > 0 && InsertedLate(q, s, es, r, k)
    ensures Legal(q, s, es[0]) && InsertedLate(q, Next(q, s, es[0]), es[1..], r, k - 1)
  {
    assert es[..k][1..] == es[1..][..k - 1];
  }

  /** With unique cursors, a matching row at or below the cursor is undelivered iff it was inserted late. */
  lemma UndeliveredIff(q: Query, table: seq<Row>, start: int, es: seq<Event>, r: Row)
    requires UniqueCursors(table) && Parses(q, table) && CleanRun(q, Opened(table, start), es)
    requires var t := Run(q, Opened(table, start), es);
             r in t.table && Selected(q.filter, start, r) && r.cursor.value <= t.cursor
    ensures r !in Run(q, Opened(table, start), es).acked
            <==> exists k: nat :: InsertedLate(q, Opened(table, start), es, r, k)
  {
    var s := Opened(table, start);
    OpenedLedger(q, table, start);
    if k: nat :| InsertedLate(q, s, es, r, k) {
      LateRowNeverDelivered(q, s, es, r, k);
    }
    if r !in Run(q, s, es).acked {
      var k := UndeliveredRowIsLate(q, table, start, es, r);
      assert InsertedLate(q, s, es, r, k);
    }
  }

  lemma {:induction false} StartFixed(q: Query, s: Stream, es: seq<Event>)
    requires LegalRun(q, s, es)
    ensures Run(q, s, es).start == s.start
    decreases |es|
  {
    if es != [] {
      StartFixed(q, Next(q, s, es[0]), es[1..]);
    }
  }

  // ---- inserts visible in increasing cursor order: incremental equals one-shot ----

  ghost predicate Highest(table: seq<Row>, r: Row)
  {
    r.cursor.Some? ==> forall x | x in table && x.cursor.Some? :: x.cursor.value < r.cursor.value
  }

  ghost predicate InOrderRun(q: Query, s: Stream, es: seq<Event>)
    ensures InOrderRun(q, s, es) ==> CleanRun(q, s, es)
    decreases |es|
  {
    es == [] || (
      && Clean(q, s, es[0])
      && (es[0].Insert? ==> Highest(s.table, es[0].row))
      && InOrderRun(q, Next(q, s, es[0]), es[1..]))
  }

  /** `c` is the start value or the cursor of some row. */
  ghost predicate Anchored(s: Stream, c: int)
  {
    c == s.start || exists x :: x in s.table && x.cursor == Some(c)
  }

  ghost predicate ExactState(q: Query, s: Stream)
  {
    CleanState(q, s) && s.late == multiset{} && Anchored(s, s.cursor)
  }

  lemma ExactStep(q: Query, s: Stream, e: Event)
    requires ExactState(q, s) && Clean(q, s, e) && (e.Insert? ==> Highest(s.table, e.row))
    ensures ExactState(q, Next(q, s, e))
  {
    assert CleanState(q, Next(q, s, e)) by { CleanStep(q, s, e); }
    if e.Insert? {
      ExactInsert(q, s, e.row);
    } else if Acknowledges(e) {
      ExactSent(q, s, e);
    }
  }

  lemma ExactInsert(q: Query, s: Stream, r: Row)
    requires ExactState(q, s) && Highest(s.table, r)
    ensures var t := Next(q, s, Insert(r)); t.late == multiset{} && Anchored(t, t.cursor)
  {
    AnchoredExtends(s, r, s.cursor);
  }

  lemma ExactSent(q: Query, s: Stream, e: Event)
    requires ExactState(q, s) && Clean(q, s, e) && Acknowledges(e)
    ensures var t := Next(q, s, e); t.late == multiset{} && Anchored(t, t.cursor)
  {
    AcknowledgedRange(q, s, e);
    SentEffect(q, s, e);
    LastRowInTable(q, s, e);
  }

  lemma AnchoredExtends(s: Stream, r: Row, c: int)
    requires Anchored(s, c)
    ensures c == s.start || exists x :: x in s.table + [r] && x.cursor == Some(c)
  {
    if c != s.start {
      var x :| x in s.table && x.cursor == Some(c);
      assert x in s.table + [r];
    }
  }

  lemma LastRowInTable(q: Query, s: Stream, e: Event)
    requires Legal(q, s, e) && e.Poll? && Batch(e.order, e.scanned) != []
    ensures var batch := Batch(e.order, e.scanned); batch[|batch| - 1] in s.table
  {
    var batch := Batch(e.order, e.scanned);
    BatchOrdered(e.order, e.scanned);
    assert batch[|batch| - 1] in batch;
    PendingRow(s.table, q.filter, s.cursor, e.order, batch[|batch| - 1]);
  }

  lemma {:induction false} ExactRun(q: Query, s: Stream, es: seq<Event>)
    requires ExactState(q, s) && InOrderRun(q, s, es)
    ensures ExactState(q, Run(q, s, es))
    decreases |es|
  {
    if es != [] {
      ExactStep(q, s, es[0]);
      ExactRun(q, Next(q, s, es[0]), es[1..]);
    }
  }

  /** A sorted log holding exactly the matching rows of a range is the one-shot answer for it. */
  lemma LogIsOneShot(table: seq<Row>, filter: Condition, lo: int, hi: int, log: seq<Row>)
    requires UniqueCursors(table) && Ordered(log)
    requires multiset(log) == multiset(Between(table, filter, lo, hi))
    ensures log == OneShot(table, filter, lo, hi)
  {
    forall i, j | 0 <= i < j < |log| && log[i].cursor == log[j].cursor ensures log[i] == log[j] {
      assert multiset(log)[log[i]] > 0 && multiset(log)[log[j]] > 0;
      assert log[i] in multiset(table) && log[j] in multiset(table);
    }
    OrderedUnique(log, OneShot(table, filter, lo, hi));
  }

  /**
   * In every reachable state, under unique cursors becoming visible in increasing order, the
   * acknowledged batches concatenate to what one query over (start, cursor] would return.
   */
  lemma IncrementalEqualsOneShot(q: Query, table: seq<Row>, start: int, es: seq<Event>)
    requires UniqueCursors(table) && Parses(q, table) && InOrderRun(q, Opened(table, start), es)
    ensures var t := Run(q, Opened(table, start), es);
            t.acked == OneShot(t.table, q.filter, start, t.cursor) && t.rowsSent == |t.acked|
  {
    OpenedLedger(q, table, start);
    ExactRun(q, Opened(table, start), es);
    var t := Run(q, Opened(table, start), es);
    StartFixed(q, Opened(table, start), es);
    LogIsOneShot(t.table, q.filter, start, t.cursor, t.acked);
  }

  ghost predicate HasCursor(table: seq<Row>, c: int)
  {
    exists x :: x in table && x.cursor == Some(c)
  }

  /** In-order inserts never add to a range that ends at an existing row. */
  lemma {:induction false} RangeStable(q: Query, s: Stream, es: seq<Event>, lo: int, hi: int)
    requires UniqueCursors(s.table) && InOrderRun(q, s, es) && lo <= hi && HasCursor(s.table, hi)
    ensures OneShot(Run(q, s, es).table, q.filter, lo, hi) == OneShot(s.table, q.filter, lo, hi)
    decreases |es|
  {
    if es != [] {
      TableStep(q, s, es[0]);
      if es[0].Insert? {
        RangeStableInsert(s.table, q.filter, lo, hi, es[0].row);
      }
      RangeStable(q, Next(q, s, es[0]), es[1..], lo, hi);
    }
  }

  lemma TableStep(q: Query, s: Stream, e: Event)
    requires Legal(q, s, e)
    ensures Next(q, s, e).table == if e.Insert? then s.table + [e.row] else s.table
  {
  }

  lemma RangeStableInsert(table: seq<Row>, filter: Condition, lo: int, hi: int, r: Row)
    requires UniqueCursors(table) && NewCursor(table, r) && Highest(table, r) && lo <= hi && HasCursor(table, hi)
    ensures UniqueCursors(table + [r]) && HasCursor(table + [r], hi)
    ensures OneShot(table + [r], filter, lo, hi) == OneShot(table, filter, lo, hi)
  {
    UniqueExtends(table, r);
    BetweenExtends(table, filter, lo, hi, r);
    LogIsOneShot(table + [r], filter, lo, hi, OneShot(table, filter, lo, hi));
    var x :| x in table && x.cursor == Some(hi);
    assert x in table + [r];
  }
}
