/** Ties at the batch boundary, how fast a backlog drains, and what the two start modes deliver. */
module Drain {
  import opened Rows
  import opened CursorStream
  import opened Delivery
  import opened AtLeastOnce

  /** A poll that reads to the end of its answer, scans every row, and sends successfully. */
  ghost predicate Perfect(q: Query, e: Event)
  {
    && e.Poll? && e.outcome.Sent?
    && |e.scanned| == Min(q.limit, |e.order|)
    && (forall i | 0 <= i < |e.scanned| :: e.scanned[i])
  }

  // ---- ties ----

  lemma PerfectEffect(q: Query, s: Stream, e: Event)
    requires Legal(q, s, e) && Perfect(q, e) && Parses(q, s.table) && q.limit >= 1 && e.order != []
    ensures var m := Min(q.limit, |e.order|);
            var t := Next(q, s, e);
            && m >= 1 && t.table == s.table && t.start == s.start && t.acked == s.acked + e.order[..m]
            && e.order[m - 1].cursor == Some(t.cursor) && t.cursor > s.cursor
            && t.passed == s.passed + multiset(TiedAt(e.order[m..], t.cursor)) && t.unscanned == s.unscanned
            && multiset(Between(s.table, q.filter, s.cursor, t.cursor))
               == multiset(e.order[..m]) + multiset(TiedAt(e.order[m..], t.cursor))
  {
    AllScanned(e.order, e.scanned);
    AcknowledgedRange(q, s, e);
    SentEffect(q, s, e);
  }

  /**
   * The rows a fully read, successful poll passes over without delivering are exactly the pending
   * rows tied with its last row but cut off by LIMIT, in whatever order ties were returned.
   */
  lemma PollPassesOver(q: Query, s: Stream, e: Event)
    requires Legal(q, s, e) && Perfect(q, e) && Parses(q, s.table) && q.limit >= 1 && e.order != []
    ensures var m := Min(q.limit, |e.order|);
            var t := Next(q, s, e);
            && t.acked == s.acked + e.order[..m]
            && multiset(Pending(s.table, q.filter, s.cursor))
               == multiset(e.order[..m]) + multiset(TiedAt(e.order[m..], t.cursor))
                   + multiset(Pending(t.table, q.filter, t.cursor))
  {
    PerfectEffect(q, s, e);
    PendingSplits(s.table, q.filter, s.cursor, Next(q, s, e).cursor);
  }

  /** Such a poll loses nothing iff the batch is short or the next pending row has a larger cursor. */
  lemma PollLosesNothingIff(q: Query, s: Stream, e: Event)
    requires Legal(q, s, e) && Perfect(q, e) && Parses(q, s.table) && q.limit >= 1 && e.order != []
    ensures multiset(Pending(s.table, q.filter, s.cursor))
              == multiset(Next(q, s, e).acked[|s.acked|..]) + multiset(Pending(s.table, q.filter, Next(q, s, e).cursor))
            <==> (|e.order| <= q.limit || e.order[q.limit - 1].cursor != e.order[q.limit].cursor)
  {
    var m, t := Min(q.limit, |e.order|), Next(q, s, e);
    PerfectEffect(q, s, e);
    PollPassesOver(q, s, e);
    AppendedPart(s.acked, e.order[..m]);
    CutOffTies(e.order, m, t.cursor);
    CancelSum(Pending(s.table, q.filter, s.cursor), e.order[..m], TiedAt(e.order[m..], t.cursor),
        Pending(s.table, q.filter, t.cursor));
  }

  lemma AppendedPart(log: seq<Row>, more: seq<Row>)
    ensures (log + more)[|log|..] == more
  {
  }

  lemma CancelSum(all: seq<Row>, sent: seq<Row>, cut: seq<Row>, rest: seq<Row>)
    requires multiset(all) == multiset(sent) + multiset(cut) + multiset(rest)
    ensures multiset(all) == multiset(sent) + multiset(rest) <==> cut == []
  {
    if multiset(all) == multiset(sent) + multiset(rest) {
      assert |multiset(all)| == |sent| + |rest|;
      assert |multiset(all)| == |sent| + |cut| + |rest|;
    }
  }

  /** Whether a sorted answer cut at `m` leaves ties behind shows in its first unread row. */
  lemma CutOffTies(order: seq<Row>, m: nat, c: int)
    requires Ordered(order) && 1 <= m <= |order| && order[m - 1].cursor == Some(c)
    ensures TiedAt(order[m..], c) == [] <==> (m == |order| || order[m - 1].cursor != order[m].cursor)
  {
    var rest := order[m..];
    var tied := TiedAt(rest, c);
    assert |multiset(tied)| == |tied|;
    if m < |order| {
      if order[m].cursor == Some(c) {
        TiedAtCount(rest, c, order[m]);
        assert rest[0] == order[m];
        assert multiset(tied)[order[m]] > 0;
      } else {
        forall r ensures multiset(tied)[r] == 0 {
          TiedAtCount(rest, c, r);
          if r in rest {
            var i :| 0 <= i < |rest| && rest[i] == r;
            assert order[m].cursor.value <= order[m + i].cursor.value;
          }
        }
        assert tied == [] by { assert |multiset(tied)| == 0; }
      }
    }
  }

  /** With no WHERE clause the pending rows are those above the cursor. */
  lemma AllPending(table: seq<Row>, after: int)
    requires forall i | 0 <= i < |table| :: table[i].cursor.Some? && table[i].cursor.value > after
    ensures multiset(Pending(table, r => True, after)) == multiset(table)
  {
    var all := Pending(table, r => True, after);
    forall r ensures multiset(all)[r] == multiset(table)[r] {
      assert r !in table ==> multiset(table)[r] == 0;
    }
  }

  lemma NonePending(table: seq<Row>, filter: Condition, after: int)
    requires forall i | 0 <= i < |table| :: table[i].cursor.Some? && table[i].cursor.value <= after
    ensures Pending(table, filter, after) == []
  {
    var none := Pending(table, filter, after);
    forall r ensures multiset(none)[r] == 0 {
      assert r !in table ==> multiset(table)[r] == 0;
    }
    assert |multiset(none)| == 0;
  }

  /** Two rows with one cursor value and a batch of one: the second row is never delivered. */
  lemma TiedRowIsLost(q: Query, table: seq<Row>, e: Event)
    requires q == Query(r => True, (r: Row) => r.cursor, 1)
    requires table == [Row(Some(1), ["a"]), Row(Some(1), ["b"])] && e == Poll(table, [true], Sent(1))
    ensures Legal(q, Opened(table, 0), e) && Perfect(q, e)
    ensures var t := Next(q, Opened(table, 0), e);
            |Pending(table, q.filter, 0)| == 2 && |t.acked| == 1 && Pending(table, q.filter, t.cursor) == []
  {
    TwoTied(q, table, e);
    PerfectEffect(q, Opened(table, 0), e);
    NonePending(table, q.filter, 1);
  }

  lemma TwoTied(q: Query, table: seq<Row>, e: Event)
    requires q == Query(r => True, (r: Row) => r.cursor, 1)
    requires table == [Row(Some(1), ["a"]), Row(Some(1), ["b"])] && e == Poll(table, [true], Sent(1))
    ensures Legal(q, Opened(table, 0), e) && |Pending(table, q.filter, 0)| == 2
  {
    AllPending(table, 0);
    assert q.filter == (r => True);
    SameLength(table, Pending(table, q.filter, 0));
  }

  ghost predicate NoInserts(es: seq<Event>)
  {
    forall e | e in es :: !e.Insert?
  }

  lemma {:induction false} FixedTable(q: Query, s: Stream, es: seq<Event>)
    requires LegalRun(q, s, es) && NoInserts(es)
    ensures Run(q, s, es).table == s.table && Run(q, s, es).late == s.late
    decreases |es|
  {
    if es != [] {
      FixedStep(q, s, es[0]);
      FixedTable(q, Next(q, s, es[0]), es[1..]);
    }
  }

  lemma FixedStep(q: Query, s: Stream, e: Event)
    requires Legal(q, s, e) && !e.Insert?
    ensures Next(q, s, e).table == s.table && Next(q, s, e).late == s.late && Next(q, s, e).start == s.start
  {
  }

  /**
   * Over a whole drain of a fixed table, with duplicates and any tie order, delivered plus passed
   * over (ties cut off and rows that failed to scan) is everything that matched.
   */
  lemma DrainAccounts(q: Query, table: seq<Row>, start: int, es: seq<Event>)
    requires Parses(q, table) && LegalRun(q, Opened(table, start), es) && NoInserts(es)
    requires Pending(table, q.filter, Run(q, Opened(table, start), es).cursor) == []
    ensures var t := Run(q, Opened(table, start), es);
            multiset(Pending(table, q.filter, start)) == multiset(t.acked) + t.passed + t.unscanned
  {
    var s := Opened(table, start);
    OpenedLedger(q, table, start);
    LedgerHolds(q, s, es);
    FixedTable(q, s, es);
    StartFixed(q, s, es);
    var t := Run(q, s, es);
    PendingSplits(table, q.filter, start, t.cursor);
  }

  // ---- how fast a backlog drains ----

  lemma OrderLength(q: Query, s: Stream, e: Event)
    requires Legal(q, s, e) && e.Poll?
    ensures |e.order| == |Pending(s.table, q.filter, s.cursor)|
  {
    SameLength(e.order, Pending(s.table, q.filter, s.cursor));
  }

  /** A perfect poll of a table with unique cursors takes one batch off the backlog. */
  lemma PerfectStep(q: Query, s: Stream, e: Event)
    requires CleanState(q, s) && Legal(q, s, e) && Perfect(q, e) && q.limit >= 1
    ensures var n := |Pending(s.table, q.filter, s.cursor)|;
            var t := Next(q, s, e);
            && CleanState(q, t)
            && |t.acked| == |s.acked| + Min(n, q.limit)
            && |Pending(t.table, q.filter, t.cursor)| == n - Min(n, q.limit)
  {
    CleanStep(q, s, e);
    OrderLength(q, s, e);
    if e.order != [] {
      PerfectBatch(q, s, e);
    } else {
      AllScanned(e.order, e.scanned);
    }
  }

  lemma PerfectBatch(q: Query, s: Stream, e: Event)
    requires CleanState(q, s) && Legal(q, s, e) && Perfect(q, e) && q.limit >= 1 && e.order != []
    ensures var m := Min(q.limit, |e.order|);
            var t := Next(q, s, e);
            && |t.acked| == |s.acked| + m && t.table == s.table
            && |Pending(s.table, q.filter, s.cursor)| == m + |Pending(s.table, q.filter, t.cursor)|
  {
    PerfectEffect(q, s, e);
    UntiedRest(q, s, e);
    Sizes(Pending(s.table, q.filter, s.cursor), e.order[..Min(q.limit, |e.order|)],
        Pending(s.table, q.filter, Next(q, s, e).cursor));
  }

  /** With unique cursors a perfect poll leaves exactly the rows it did not send. */
  lemma UntiedRest(q: Query, s: Stream, e: Event)
    requires CleanState(q, s) && Legal(q, s, e) && Perfect(q, e) && q.limit >= 1 && e.order != []
    ensures multiset(Pending(s.table, q.filter, s.cursor))
            == multiset(e.order[..Min(q.limit, |e.order|)]) + multiset(Pending(s.table, q.filter, Next(q, s, e).cursor))
  {
    NoTies(q, s, e);
    PollPassesOver(q, s, e);
    PerfectEffect(q, s, e);
    AllScanned(e.order, e.scanned);
  }

  lemma Sizes(all: seq<Row>, sent: seq<Row>, rest: seq<Row>)
    requires multiset(all) == multiset(sent) + multiset(rest)
    ensures |all| == |sent| + |rest|
  {
    assert |multiset(all)| == |all| && |multiset(sent)| == |sent| && |multiset(rest)| == |rest|;
  }

  /** What one poll taking at most `limit` leaves of `n` rows. */
  function Rest(n: nat, limit: nat): nat
  {
    n - Min(n, limit)
  }

  /** What a run of polls, each taking at most `limit`, leaves of `n` rows. */
  ghost function Remaining(n: nat, polls: seq<Event>, limit: nat): nat
  {
    if polls == [] then n else Remaining(Rest(n, limit), polls[1..], limit)
  }

  lemma {:induction false} RemainingIs(n: nat, polls: seq<Event>, limit: nat)
    ensures 0 <= |polls| * limit
    ensures Remaining(n, polls, limit) == n - Min(n, |polls| * limit)
    decreases |polls|
  {
    if polls != [] {
      RemainingIs(Rest(n, limit), polls[1..], limit);
      OneMore(|polls|, limit);
    }
  }

  lemma OneMore(k: nat, limit: nat)
    requires k >= 1
    ensures k * limit == (k - 1) * limit + limit
  {
  }

  ghost function Backlog(q: Query, s: Stream): nat
  {
    |Pending(s.table, q.filter, s.cursor)|
  }

  ghost predicate PerfectRun(q: Query, s: Stream, es: seq<Event>)
    ensures PerfectRun(q, s, es) ==> LegalRun(q, s, es)
    decreases |es|
  {
    es == [] || (Legal(q, s, es[0]) && Perfect(q, es[0]) && PerfectRun(q, Next(q, s, es[0]), es[1..]))
  }

  lemma {:induction false} PerfectIsClean(q: Query, s: Stream, es: seq<Event>)
    requires PerfectRun(q, s, es)
    ensures CleanRun(q, s, es) && NoInserts(es)
    decreases |es|
  {
    if es != [] {
      PerfectIsClean(q, Next(q, s, es[0]), es[1..]);
      assert es == [es[0]] + es[1..];
    }
  }

  ghost predicate Draining(q: Query, s: Stream, es: seq<Event>)
    ensures Draining(q, s, es) ==> LegalRun(q, s, es)
  {
    CleanState(q, s) && PerfectRun(q, s, es) && q.limit >= 1
  }

  lemma DrainOne(q: Query, s: Stream, es: seq<Event>)
    requires Draining(q, s, es) && es != []
    ensures var t := Next(q, s, es[0]);
            && Draining(q, t, es[1..])
            && Backlog(q, t) == Rest(Backlog(q, s), q.limit)
            && |t.acked| + Backlog(q, t) == |s.acked| + Backlog(q, s)
  {
    PerfectStep(q, s, es[0]);
  }

  lemma {:induction false} DrainLeaves(q: Query, s: Stream, es: seq<Event>)
    requires Draining(q, s, es)
    ensures Backlog(q, Run(q, s, es)) == Remaining(Backlog(q, s), es, q.limit)
    decreases |es|
  {
    if es != [] {
      DrainOne(q, s, es);
      DrainLeaves(q, Next(q, s, es[0]), es[1..]);
    }
  }

  /** What leaves the backlog is delivered. */
  lemma {:induction false} DrainDelivers(q: Query, s: Stream, es: seq<Event>)
    requires Draining(q, s, es)
    ensures |Run(q, s, es).acked| + Backlog(q, Run(q, s, es)) == |s.acked| + Backlog(q, s)
    decreases |es|
  {
    if es != [] {
      DrainOne(q, s, es);
      DrainDelivers(q, Next(q, s, es[0]), es[1..]);
    }
  }

  /** After k perfect polls of n pending rows with unique cursors, exactly min(n, k * limit) more are delivered. */
  lemma DrainRate(q: Query, s: Stream, es: seq<Event>)
    requires Draining(q, s, es)
    ensures 0 <= |es| * q.limit
    ensures var t := Run(q, s, es);
            var m := Min(Backlog(q, s), |es| * q.limit);
            |t.acked| == |s.acked| + m && Backlog(q, t) == Backlog(q, s) - m
  {
    DrainLeaves(q, s, es);
    DrainDelivers(q, s, es);
    RemainingIs(Backlog(q, s), es, q.limit);
  }

  function CeilDiv(n: nat, b: nat): nat
    requires b >= 1
  {
    (n + b - 1) / b
  }

  /** ceil(n / limit) perfect polls drain n pending rows. */
  lemma DrainTerminates(q: Query, s: Stream, es: seq<Event>)
    requires Draining(q, s, es) && |es| == CeilDiv(Backlog(q, s), q.limit)
    ensures Backlog(q, Run(q, s, es)) == 0 && |Run(q, s, es).acked| == |s.acked| + Backlog(q, s)
  {
    CeilLeavesNone(Backlog(q, s), es, q.limit);
    DrainLeaves(q, s, es);
    DrainDelivers(q, s, es);
  }

  lemma CeilLeavesNone(n: nat, polls: seq<Event>, b: nat)
    requires b >= 1 && |polls| == CeilDiv(n, b)
    ensures Remaining(n, polls, b) == 0
  {
    assert n + b - 1 == |polls| * b + (n + b - 1) % b;
    RemainingIs(n, polls, b);
  }

  /** Once drained, polls send nothing and leave the whole state fixed. */
  lemma {:induction false} DrainedStaysFixed(q: Query, s: Stream, es: seq<Event>)
    requires Pending(s.table, q.filter, s.cursor) == [] && LegalRun(q, s, es) && NoInserts(es)
    ensures Run(q, s, es) == s
    decreases |es|
  {
    if es != [] {
      if es[0].Poll? {
        OrderLength(q, s, es[0]);
      }
      DrainedStaysFixed(q, s, es[1..]);
    }
  }

  // ---- start modes ----

  /** `SELECT MAX(cursor)`: NULL when no row has a cursor. */
  ghost function MaxCursor(table: seq<Row>): (max: Option<int>)
    ensures max.None? ==> forall r | r in table :: r.cursor.None?
    ensures max.Some? ==> HasCursor(table, max.value)
    ensures max.Some? ==> forall r | r in table && r.cursor.Some? :: r.cursor.value <= max.value
  {
    if table == [] then None
    else
      var n := |table| - 1;
      assert table == table[..n] + [table[n]];
      var front := MaxCursor(table[..n]);
      match table[n].cursor
      case None => assert front.Some? ==> HasCursor(table, front.value) by { PrefixHasCursor(table, n, front); } front
      case Some(c) =>
        if front.Some? && front.value > c then
          assert HasCursor(table, front.value) by { PrefixHasCursor(table, n, front); } front
        else
          assert HasCursor(table, c) by { assert table[n] in table; } Some(c)
  }

  lemma PrefixHasCursor(table: seq<Row>, n: nat, c: Option<int>)
    requires n <= |table| && (c.Some? ==> HasCursor(table[..n], c.value))
    ensures c.Some? ==> HasCursor(table, c.value)
  {
    if c.Some? {
      var x :| x in table[..n] && x.cursor == c;
      assert x in table;
    }
  }

  /** Where a FROM NOW stream starts. */
  ghost function NowStart(table: seq<Row>, initial: int): int
  {
    match MaxCursor(table)
    case None => initial
    case Some(c) => c
  }

  /** A drained stream has acknowledged every matching row above its start, in cursor order. */
  lemma DrainedStream(q: Query, table: seq<Row>, start: int, es: seq<Event>)
    requires UniqueCursors(table) && Parses(q, table) && InOrderRun(q, Opened(table, start), es)
    requires var t := Run(q, Opened(table, start), es); Pending(t.table, q.filter, t.cursor) == []
    ensures var t := Run(q, Opened(table, start), es);
            UniqueCursors(t.table) && t.acked == AllAbove(t.table, q.filter, start)
  {
    var t := Run(q, Opened(table, start), es);
    OpenedLedger(q, table, start);
    ExactRun(q, Opened(table, start), es);
    StartFixed(q, Opened(table, start), es);
    IncrementalEqualsOneShot(q, table, start, es);
    OneShotPrefix(t.table, q.filter, start, t.cursor);
    assert AllAbove(t.table, q.filter, t.cursor) == [] by {
      SameLength(AllAbove(t.table, q.filter, t.cursor), Pending(t.table, q.filter, t.cursor));
    }
  }

  /** A drained stream delivered every matching row that has a cursor iff all those cursors lie above its start. */
  lemma DeliversAllIff(q: Query, table: seq<Row>, start: int, es: seq<Event>)
    requires UniqueCursors(table) && Parses(q, table) && InOrderRun(q, Opened(table, start), es)
    requires var t := Run(q, Opened(table, start), es); Pending(t.table, q.filter, t.cursor) == []
    ensures var t := Run(q, Opened(table, start), es);
            (forall r | r in t.table && q.filter(r) == True && r.cursor.Some? :: r in t.acked)
            <==> (forall r | r in t.table && q.filter(r) == True && r.cursor.Some? :: r.cursor.value > start)
  {
    var t := Run(q, Opened(table, start), es);
    DrainedStream(q, table, start, es);
    forall r: Row | r in t.table && q.filter(r) == True && r.cursor.Some?
      ensures r in t.acked <==> r.cursor.value > start
    {
      PendingCount(t.table, q.filter, start, r);
      assert multiset(t.acked)[r] == multiset(Pending(t.table, q.filter, start))[r];
    }
  }

  /**
   * Two streams over the same growing table, one from the beginning and one FROM NOW: once both
   * are drained, the first delivered the matching history at registration followed by the second.
   */
  lemma StartModeSplit(q: Query, table: seq<Row>, initial: int, es: seq<Event>, fs: seq<Event>)
    requires UniqueCursors(table) && Parses(q, table) && initial <= NowStart(table, initial)
    requires InOrderRun(q, Opened(table, initial), es) && InOrderRun(q, Opened(table, NowStart(table, initial)), fs)
    requires var a, b := Run(q, Opened(table, initial), es), Run(q, Opened(table, NowStart(table, initial)), fs);
             a.table == b.table && Pending(a.table, q.filter, a.cursor) == []
                 && Pending(b.table, q.filter, b.cursor) == []
    ensures var a, b := Run(q, Opened(table, initial), es), Run(q, Opened(table, NowStart(table, initial)), fs);
            && a.acked == OneShot(table, q.filter, initial, NowStart(table, initial)) + b.acked
            && (MaxCursor(table).None? ==> a.acked == b.acked)
  {
    var now := NowStart(table, initial);
    var final := Run(q, Opened(table, initial), es).table;
    DrainedStream(q, table, initial, es);
    DrainedStream(q, table, now, fs);
    OneShotPrefix(final, q.filter, initial, now);
    HistoryStable(q, table, initial, now, es);
  }

  lemma HistoryStable(q: Query, table: seq<Row>, initial: int, now: int, es: seq<Event>)
    requires UniqueCursors(table) && InOrderRun(q, Opened(table, initial), es) && now == NowStart(table, initial)
            && initial <= now
    ensures OneShot(Run(q, Opened(table, initial), es).table, q.filter, initial, now)
            == OneShot(table, q.filter, initial, now)
  {
    if MaxCursor(table).Some? {
      RangeStable(q, Opened(table, initial), es, initial, now);
    } else {
      EmptyRange(Run(q, Opened(table, initial), es).table, q.filter, now);
      EmptyRange(table, q.filter, now);
    }
  }
}
