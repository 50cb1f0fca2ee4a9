/** When clients receive exactly what was acknowledged: no failed send got out, and no send got out twice. */
module ExactlyOnce {
  import opened Rows
  import opened CursorStream
  import opened Delivery

  /** A poll with rows either reached no client and failed, or reached one and succeeded. */
  ghost predicate Definite(e: Event)
  {
    e.Poll? && |e.scanned| <= |e.order| && Batch(e.order, e.scanned) != [] ==>
      match e.outcome
      case EncodeFailed => true
      case SendFailed(copies) => copies == 0
      case Sent(copies) => copies == 1
  }

  ghost predicate AllDefinite(es: seq<Event>)
  {
    forall i | 0 <= i < |es| :: Definite(es[i])
  }

  lemma {:induction false} RepeatLength(batch: seq<Row>, copies: nat)
    ensures copies == 1 ==> Repeat(batch, copies) == batch
    ensures copies >= 1 ==> |Repeat(batch, copies)| >= |batch|
    ensures copies >= 2 ==> |Repeat(batch, copies)| >= |batch| + |batch|
  {
    if copies > 0 {
      RepeatLength(batch, copies - 1);
    }
    assert copies == 1 ==> Repeat(batch, copies) == [] + batch;
  }

  /** How many more rows clients received than were acknowledged. */
  ghost function Surplus(s: Stream): int
  {
    |s.received| - |s.acked|
  }

  lemma DefiniteStep(q: Query, s: Stream, e: Event)
    requires Legal(q, s, e) && Definite(e) && s.received == s.acked
    ensures Next(q, s, e).received == Next(q, s, e).acked
  {
    if e.Poll? && Batch(e.order, e.scanned) != [] && !e.outcome.EncodeFailed? {
      RepeatLength(Batch(e.order, e.scanned), e.outcome.copies);
    }
  }

  lemma SurplusStep(q: Query, s: Stream, e: Event)
    requires Legal(q, s, e)
    ensures Surplus(Next(q, s, e)) >= Surplus(s)
    ensures !Definite(e) ==> Surplus(Next(q, s, e)) > Surplus(s)
  {
    if e.Poll? && Batch(e.order, e.scanned) != [] && !e.outcome.EncodeFailed? {
      RepeatLength(Batch(e.order, e.scanned), e.outcome.copies);
    }
  }

  lemma {:induction false} SurplusRun(q: Query, s: Stream, es: seq<Event>)
    requires LegalRun(q, s, es)
    ensures Surplus(Run(q, s, es)) >= Surplus(s)
    ensures !AllDefinite(es) ==> Surplus(Run(q, s, es)) > Surplus(s)
    decreases |es|
  {
    if es != [] {
      SurplusStep(q, s, es[0]);
      SurplusRun(q, Next(q, s, es[0]), es[1..]);
      AllDefiniteStep(es);
    }
  }

  lemma AllDefiniteStep(es: seq<Event>)
    requires es != []
    ensures AllDefinite(es) <==> Definite(es[0]) && AllDefinite(es[1..])
  {
    if Definite(es[0]) && AllDefinite(es[1..]) {
      forall i | 0 <= i < |es| ensures Definite(es[i]) {
        assert i > 0 ==> es[i] == es[1..][i - 1];
      }
    }
  }

  lemma {:induction false} DefiniteRun(q: Query, s: Stream, es: seq<Event>)
    requires LegalRun(q, s, es) && AllDefinite(es) && s.received == s.acked
    ensures Run(q, s, es).received == Run(q, s, es).acked
    decreases |es|
  {
    if es != [] {
      AllDefiniteStep(es);
      DefiniteStep(q, s, es[0]);
      DefiniteRun(q, Next(q, s, es[0]), es[1..]);
    }
  }

  /**
   * In every run, with any inserts, ties, truncations and scan failures, clients have received exactly
   * the acknowledged log iff every poll with rows ended definitely: encoding failed, the send failed
   * without reaching a client, or it succeeded and reached one.
   */
  lemma ReceivedOnceIff(q: Query, table: seq<Row>, start: int, es: seq<Event>)
    requires LegalRun(q, Opened(table, start), es)
    ensures var t := Run(q, Opened(table, start), es); t.received == t.acked <==> AllDefinite(es)
  {
    if AllDefinite(es) {
      DefiniteRun(q, Opened(table, start), es);
    } else {
      SurplusRun(q, Opened(table, start), es);
    }
  }

  /** Under in-order inserts with unique cursors, delivery is exactly once iff every poll ended definitely. */
  lemma ExactlyOnceIff(q: Query, table: seq<Row>, start: int, es: seq<Event>)
    requires UniqueCursors(table) && Parses(q, table) && InOrderRun(q, Opened(table, start), es)
    ensures var t := Run(q, Opened(table, start), es);
            t.received == OneShot(t.table, q.filter, start, t.cursor) <==> AllDefinite(es)
  {
    IncrementalEqualsOneShot(q, table, start, es);
    ReceivedOnceIff(q, table, start, es);
  }

  // ---- one row, two copies ----

  lemma OnePending(q: Query, table: seq<Row>)
    requires q == Query(r => True, (r: Row) => r.cursor, 1) && table == [Row(Some(1), ["a"])]
    ensures Arrangement(table, Pending(table, q.filter, 0)) && UniqueCursors(table)
  {
    var pending := Pending(table, q.filter, 0);
    forall r ensures multiset(table)[r] == multiset(pending)[r] {
      PendingCount(table, q.filter, 0, r);
    }
  }

  /** A send that failed after reaching a client, and its retry: one row without ties arrives twice. */
  lemma RowArrivesTwice(q: Query, table: seq<Row>, es: seq<Event>)
    requires q == Query(r => True, (r: Row) => r.cursor, 1) && table == [Row(Some(1), ["a"])]
    requires es == [Poll(table, [true], SendFailed(1)), Poll(table, [true], Sent(1))]
    ensures LegalRun(q, Opened(table, 0), es) && UniqueCursors(table)
    ensures var t := Run(q, Opened(table, 0), es); t.received == table + table && t.acked == table
  {
    var s := Opened(table, 0);
    OnePending(q, table);
    OneBatch(table);
    RepeatLength(table, 1);
    var t := Next(q, s, es[0]);
    assert t == s.(received := [] + table);
    var u := Next(q, t, es[1]);
    assert u.received == [] + table + table && u.acked == [] + table;
    RunTwo(q, s, es[0], es[1]);
  }

  lemma RunTwo(q: Query, s: Stream, e: Event, f: Event)
    requires Legal(q, s, e) && Legal(q, Next(q, s, e), f)
    ensures LegalRun(q, s, [e, f]) && Run(q, s, [e, f]) == Next(q, Next(q, s, e), f)
  {
    var t := Next(q, s, e);
    assert [e, f][1..] == [f] && [f][1..] == [];
    assert LegalRun(q, t, [f]) && Run(q, t, [f]) == Run(q, Next(q, t, f), []);
  }

  lemma OneBatch(table: seq<Row>)
    requires |table| == 1
    ensures Batch(table, [true]) == table
  {
    assert [true][..0] == [];
    assert table == [] + [table[0]];
  }
}
