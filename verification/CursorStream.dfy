/**
 * The polling executor of one query as a transition system.  A poll reads the pending rows in
 * cursor order, sends what it could scan, and moves the cursor only after a successful send.
 */
module CursorStream {
  import opened Rows

  /** `parse` is how the executor reads a row's cursor cell back; it can fail. */
  datatype Query = Query(filter: Condition, parse: Row -> Option<int>, limit: nat)

  /** `copies` counts how many times the frame reached a client, even when an error came back. */
  datatype Outcome = EncodeFailed | SendFailed(copies: nat) | Sent(copies: nat)

  /**
   * `order` is the sorted arrangement the database happened to choose for all pending rows;
   * `scanned` has one flag per row the loop iterated over, false where the scan failed.
   */
  datatype Event =
    | Insert(row: Row)
    | QueryFailed
    | Poll(order: seq<Row>, scanned: seq<bool>, outcome: Outcome)

  /**
   * `acked` is what was sent successfully, `received` what reached a client.  The last three
   * fields record the matching rows the cursor left behind: rows that became visible below it,
   * rows whose scan failed, and rows tied with the end of a batch but cut off.
   */
  datatype Stream = Stream(
    table: seq<Row>, start: int, cursor: int, rowsSent: int, acked: seq<Row>, received: seq<Row>,
    late: multiset<Row>, unscanned: multiset<Row>, passed: multiset<Row>)

  function Opened(table: seq<Row>, start: int): Stream
  {
    Stream(table, start, start, 0, [], [], multiset{}, multiset{}, multiset{})
  }

  function Min(a: nat, b: nat): nat
  {
    if a <= b then a else b
  }

  /** The rows the loop scanned, in reading order. */
  ghost function Batch(order: seq<Row>, scanned: seq<bool>): seq<Row>
    requires |scanned| <= |order|
  {
    if scanned == [] then []
    else
      var n := |scanned| - 1;
      Batch(order, scanned[..n]) + if scanned[n] then [order[n]] else []
  }

  /** The rows the loop read but could not scan. */
  ghost function Unscanned(order: seq<Row>, scanned: seq<bool>): seq<Row>
    requires |scanned| <= |order|
  {
    if scanned == [] then []
    else
      var n := |scanned| - 1;
      Unscanned(order, scanned[..n]) + if scanned[n] then [] else [order[n]]
  }

  ghost function Repeat(batch: seq<Row>, copies: nat): seq<Row>
  {
    if copies == 0 then [] else Repeat(batch, copies - 1) + batch
  }

  /** Scan failures the cursor moves past when it moves to `c`. */
  ghost function ScanLosses(order: seq<Row>, scanned: seq<bool>, c: int): seq<Row>
    requires |scanned| <= |order|
  {
    UpTo(Unscanned(order, scanned), c)
  }

  /** Rows never read that are tied with the new cursor value `c`. */
  ghost function TieLosses(order: seq<Row>, scanned: seq<bool>, c: int): seq<Row>
    requires |scanned| <= |order|
  {
    TiedAt(order[|scanned|..], c)
  }

  ghost predicate Legal(q: Query, s: Stream, e: Event)
  {
    e.Poll? ==>
      && Arrangement(e.order, Pending(s.table, q.filter, s.cursor))
      && |e.scanned| <= Min(q.limit, |e.order|)
      && (e.outcome.Sent? ==> e.outcome.copies >= 1)
  }

  ghost function Next(q: Query, s: Stream, e: Event): Stream
    requires Legal(q, s, e)
  {
    match e
    case Insert(r) =>
      var behind := Selected(q.filter, s.start, r) && r.cursor.value <= s.cursor;
      s.(table := s.table + [r], late := s.late + if behind then multiset{r} else multiset{})
    case QueryFailed => s
    case Poll(order, scanned, outcome) =>
      var batch := Batch(order, scanned);
      if batch == [] then s
      else
        match outcome
        case EncodeFailed => s
        case SendFailed(copies) => s.(received := s.received + Repeat(batch, copies))
        case Sent(copies) => Acknowledged(s, batch, Repeat(batch, copies), q.parse(batch[|batch| - 1]), order, scanned)
  }

  /**
   * The stream after `batch` was sent and `out` reached clients; `read` is the last row's cursor
   * cell.  If that could not be read, the rows count as sent but nothing else moves.
   */
  ghost function Acknowledged(
    s: Stream, batch: seq<Row>, out: seq<Row>, read: Option<int>, order: seq<Row>, scanned: seq<bool>): Stream
    requires |scanned| <= |order|
  {
    var t := s.(received := s.received + out, acked := s.acked + batch);
    match read
    case None => t
    case Some(c) =>
      t.(cursor := c, rowsSent := s.rowsSent + |batch|,
         unscanned := s.unscanned + multiset(ScanLosses(order, scanned, c)),
         passed := s.passed + multiset(TieLosses(order, scanned, c)))
  }

  ghost predicate LegalRun(q: Query, s: Stream, es: seq<Event>)
    decreases |es|
  {
    es == [] || (Legal(q, s, es[0]) && LegalRun(q, Next(q, s, es[0]), es[1..]))
  }

  ghost function Run(q: Query, s: Stream, es: seq<Event>): Stream
    requires LegalRun(q, s, es)
    decreases |es|
  {
    if es == [] then s else Run(q, Next(q, s, es[0]), es[1..])
  }

  /** Every cursor cell of these rows is read back as the cursor it renders. */
  ghost predicate Parses(q: Query, rows: seq<Row>)
  {
    forall r | r in rows && r.cursor.Some? :: q.parse(r) == r.cursor
  }

  ghost predicate InsertsParse(q: Query, es: seq<Event>)
  {
    forall e | e in es && e.Insert? :: Parses(q, [e.row])
  }

  // ---- one poll ----

  lemma {:induction false} BatchSplits(order: seq<Row>, scanned: seq<bool>)
    requires |scanned| <= |order|
    ensures multiset(order[..|scanned|])
            == multiset(Batch(order, scanned)) + multiset(Unscanned(order, scanned))
  {
    if scanned != [] {
      var n := |scanned| - 1;
      BatchSplits(order, scanned[..n]);
      assert order[..n + 1] == order[..n] + [order[n]];
    }
  }

  /** A batch of a sorted answer is sorted, and ends at or before the last row read. */
  lemma {:induction false} BatchOrdered(order: seq<Row>, scanned: seq<bool>)
    requires |scanned| <= |order| && Ordered(order)
    ensures Ordered(Batch(order, scanned))
    ensures forall r | r in Batch(order, scanned) :: r in order
    ensures scanned != [] ==>
              forall r | r in Batch(order, scanned) ::
                  r.cursor.Some? && r.cursor.value <= order[|scanned| - 1].cursor.value
  {
    if scanned != [] {
      var n := |scanned| - 1;
      BatchOrdered(order, scanned[..n]);
    }
  }

  /** With sorted reading, the rows at or below the last scanned cursor are exactly accounted for. */
  lemma PollAccounts(order: seq<Row>, scanned: seq<bool>, c: int)
    requires |scanned| <= |order| && Ordered(order)
    requires var batch := Batch(order, scanned); batch != [] && batch[|batch| - 1].cursor == Some(c)
    ensures multiset(UpTo(order, c))
            == multiset(Batch(order, scanned)) + multiset(ScanLosses(order, scanned, c))
                + multiset(TieLosses(order, scanned, c))
  {
    var below, batch := UpTo(order, c), Batch(order, scanned);
    var lost, tied := ScanLosses(order, scanned, c), TieLosses(order, scanned, c);
    forall r: Row ensures multiset(below)[r] == (multiset(batch) + multiset(lost) + multiset(tied))[r] {
      PollAccountsFor(order, scanned, c, r);
    }
  }

  lemma PollAccountsFor(order: seq<Row>, scanned: seq<bool>, c: int, r: Row)
    requires |scanned| <= |order| && Ordered(order)
    requires var batch := Batch(order, scanned); batch != [] && batch[|batch| - 1].cursor == Some(c)
    ensures multiset(UpTo(order, c))[r]
            == multiset(Batch(order, scanned))[r] + multiset(ScanLosses(order, scanned, c))[r]
                + multiset(TieLosses(order, scanned, c))[r]
  {
    var batch, dropped, rest := Batch(order, scanned), Unscanned(order, scanned), order[|scanned|..];
    OrderCount(order, scanned, r);
    AroundCursor(order, scanned, c, r);
    UpToCount(order, c, r);
    UpToCount(dropped, c, r);
    TiedAtCount(rest, c, r);
    assert r !in rest ==> multiset(rest)[r] == 0;
    assert r !in batch ==> multiset(batch)[r] == 0;
  }

  lemma OrderCount(order: seq<Row>, scanned: seq<bool>, r: Row)
    requires |scanned| <= |order|
    ensures multiset(order)[r]
            == multiset(Batch(order, scanned))[r] + multiset(Unscanned(order, scanned))[r]
                + multiset(order[|scanned|..])[r]
  {
    BatchSplits(order, scanned);
    assert order == order[..|scanned|] + order[|scanned|..];
  }

  lemma AroundCursor(order: seq<Row>, scanned: seq<bool>, c: int, r: Row)
    requires |scanned| <= |order| && Ordered(order)
    requires var batch := Batch(order, scanned); batch != [] && batch[|batch| - 1].cursor == Some(c)
    ensures r in Batch(order, scanned) ==> r.cursor.Some? && r.cursor.value <= c
    ensures r in order[|scanned|..] ==> r.cursor.Some? && c <= r.cursor.value
  {
    BatchOrdered(order, scanned);
    var batch := Batch(order, scanned);
    if r in batch {
      BatchBelowLast(batch, r);
    }
    if r in order[|scanned|..] {
      assert batch[|batch| - 1] in batch;
      var j :| 0 <= j < |order[|scanned|..]| && order[|scanned|..][j] == r;
      assert order[|scanned| + j] == r;
    }
  }

  lemma BatchBelowLast(batch: seq<Row>, r: Row)
    requires Ordered(batch) && r in batch
    ensures r.cursor.Some? && r.cursor.value <= batch[|batch| - 1].cursor.value
  {
  }

  /** What a batch needs so that its acknowledgement is accounted for: the cursor read back is its last row's. */
  lemma AcknowledgedRange(q: Query, s: Stream, e: Event)
    requires Legal(q, s, e) && e.Poll? && Batch(e.order, e.scanned) != [] && Parses(q, s.table)
    ensures var batch := Batch(e.order, e.scanned);
            var c := q.parse(batch[|batch| - 1]);
            && c == batch[|batch| - 1].cursor && c.Some? && c.value > s.cursor
            && multiset(Between(s.table, q.filter, s.cursor, c.value))
               == multiset(batch) + multiset(ScanLosses(e.order, e.scanned, c.value))
                   + multiset(TieLosses(e.order, e.scanned, c.value))
  {
    LastRead(q, s, e);
    var batch := Batch(e.order, e.scanned);
    var c := batch[|batch| - 1].cursor.value;
    PollAccounts(e.order, e.scanned, c);
    RangeOfOrder(s.table, q.filter, s.cursor, e.order, c);
  }

  lemma LastRead(q: Query, s: Stream, e: Event)
    requires Legal(q, s, e) && e.Poll? && Batch(e.order, e.scanned) != [] && Parses(q, s.table)
    ensures var batch := Batch(e.order, e.scanned);
            var c := q.parse(batch[|batch| - 1]);
            c == batch[|batch| - 1].cursor && c.Some? && c.value > s.cursor
  {
    var batch := Batch(e.order, e.scanned);
    BatchOrdered(e.order, e.scanned);
    PendingRow(s.table, q.filter, s.cursor, e.order, batch[|batch| - 1]);
  }

  lemma PendingRow(table: seq<Row>, filter: Condition, after: int, order: seq<Row>, r: Row)
    requires Arrangement(order, Pending(table, filter, after)) && r in order
    ensures r in table && Selected(filter, after, r) && r.cursor.Some? && r.cursor.value > after
  {
    assert multiset(order)[r] > 0;
    assert multiset(Pending(table, filter, after))[r] > 0;
  }

  lemma RangeOfOrder(table: seq<Row>, filter: Condition, after: int, order: seq<Row>, c: int)
    requires Arrangement(order, Pending(table, filter, after))
    ensures multiset(Between(table, filter, after, c))
            == multiset(UpTo(order, c))
  {
    var range, below := Between(table, filter, after, c), UpTo(order, c);
    forall r: Row ensures multiset(range)[r] == multiset(below)[r] {
      assert multiset(order)[r] == multiset(Pending(table, filter, after))[r];
    }
  }

  // ---- the ledger: every matching row the cursor has passed is accounted for ----

  ghost predicate Ledger(q: Query, s: Stream)
  {
    && s.start <= s.cursor
    && multiset(Between(s.table, q.filter, s.start, s.cursor)) == multiset(s.acked) + s.late + s.unscanned + s.passed
    && s.rowsSent == |s.acked|
    && Parses(q, s.table)
  }

  lemma BetweenExtends(table: seq<Row>, filter: Condition, lo: int, hi: int, r: Row)
    requires lo <= hi
    ensures multiset(Between(table + [r], filter, lo, hi))
            == multiset(Between(table, filter, lo, hi))
               + if Selected(filter, lo, r) && r.cursor.value <= hi then multiset{r} else multiset{}
  {
    var all, part := Between(table + [r], filter, lo, hi), Between(table, filter, lo, hi);
    assert multiset(table + [r]) == multiset(table) + multiset{r};
    forall x: Row ensures multiset(all)[x]
      == (multiset(part) + if Selected(filter, lo, r) && r.cursor.value <= hi then multiset{r} else multiset{})[x] {
    }
  }

  lemma LedgerInsert(q: Query, s: Stream, r: Row)
    requires Ledger(q, s) && Parses(q, [r])
    ensures Ledger(q, Next(q, s, Insert(r)))
  {
    BetweenExtends(s.table, q.filter, s.start, s.cursor, r);
    var t := Next(q, s, Insert(r));
    assert r in [r];
  }

  lemma AppendCounts(log: seq<Row>, batch: seq<Row>)
    ensures multiset(log + batch) == multiset(log) + multiset(batch)
  {
  }

  /** A poll that sends a batch successfully. */
  ghost predicate Acknowledges(e: Event)
  {
    e.Poll? && |e.scanned| <= |e.order| && Batch(e.order, e.scanned) != [] && e.outcome.Sent?
  }

  lemma SentEffect(q: Query, s: Stream, e: Event)
    requires Legal(q, s, e) && Acknowledges(e)
    requires var batch := Batch(e.order, e.scanned); q.parse(batch[|batch| - 1]).Some?
    ensures var batch := Batch(e.order, e.scanned);
            var t := Next(q, s, e);
            && t.table == s.table && t.start == s.start && t.late == s.late
            && t.rowsSent == s.rowsSent + |batch|
            && t.unscanned == s.unscanned + multiset(ScanLosses(e.order, e.scanned, t.cursor))
            && t.passed == s.passed + multiset(TieLosses(e.order, e.scanned, t.cursor))
            && t.acked == s.acked + batch && t.acked[|t.acked| - 1] == batch[|batch| - 1]
            && s.acked < t.acked && t.acked != s.acked
            && Some(t.cursor) == q.parse(batch[|batch| - 1])
  {
    assert |s.acked + Batch(e.order, e.scanned)| > |s.acked|;
  }

  lemma LedgerSent(q: Query, s: Stream, e: Event)
    requires Ledger(q, s) && Legal(q, s, e) && Acknowledges(e)
    ensures Ledger(q, Next(q, s, e))
  {
    AcknowledgedRange(q, s, e);
    SentEffect(q, s, e);
    var t := Next(q, s, e);
    LedgerMoves(q, s, t, Batch(e.order, e.scanned), ScanLosses(e.order, e.scanned, t.cursor),
                TieLosses(e.order, e.scanned, t.cursor));
  }

  /** The ledger after the cursor moves over a range that is accounted for. */
  lemma LedgerMoves(q: Query, s: Stream, t: Stream, batch: seq<Row>, failed: seq<Row>, tied: seq<Row>)
    requires Ledger(q, s) && t.table == s.table && t.start == s.start && t.late == s.late && t.cursor >= s.cursor
    requires t.acked == s.acked + batch && t.rowsSent == s.rowsSent + |batch|
    requires t.unscanned == s.unscanned + multiset(failed) && t.passed == s.passed + multiset(tied)
    requires multiset(Between(s.table, q.filter, s.cursor, t.cursor))
            == multiset(batch) + multiset(failed) + multiset(tied)
    ensures Ledger(q, t)
  {
    BetweenSplits(s.table, q.filter, s.start, s.cursor, t.cursor);
    AppendCounts(s.acked, batch);
  }

  lemma LedgerStep(q: Query, s: Stream, e: Event)
    requires Ledger(q, s) && Legal(q, s, e) && InsertsParse(q, [e])
    ensures Ledger(q, Next(q, s, e))
  {
    if e.Insert? {
      assert e in [e];
      LedgerInsert(q, s, e.row);
    } else if Acknowledges(e) {
      LedgerSent(q, s, e);
    }
  }

  /**
   * Whatever the interleaving of inserts and polls, with any outcome and any failed scan, the
   * matching rows up to the cursor are the acknowledged ones plus exactly those left behind.
   */
  lemma {:induction false} LedgerHolds(q: Query, s: Stream, es: seq<Event>)
    requires Ledger(q, s) && LegalRun(q, s, es) && InsertsParse(q, es)
    ensures Ledger(q, Run(q, s, es))
    decreases |es|
  {
    if es != [] {
      LedgerStep(q, s, es[0]);
      LedgerHolds(q, Next(q, s, es[0]), es[1..]);
    }
  }
}
