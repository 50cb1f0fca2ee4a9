/** When a whole drain of a fixed table loses nothing: no tie may fall on a batch boundary. */
module DrainTies {
  import opened Rows
  import opened CursorStream
  import opened Drain

  /** `i` is a multiple of `limit`: a batch ends there. */
  predicate OnCut(i: nat, limit: nat)
    requires limit >= 1
  {
    i == 0 || (i >= limit && OnCut(i - limit, limit))
  }

  lemma {:induction false} OnCutIff(i: nat, limit: nat)
    requires limit >= 1
    ensures OnCut(i, limit) <==> i % limit == 0
  {
    if i >= limit {
      OnCutIff(i - limit, limit);
      RemainderIs(i, (i - limit) / limit + 1, (i - limit) % limit, limit);
    }
  }

  lemma RemainderIs(i: nat, d: nat, r: nat, b: nat)
    requires b >= 1 && r < b && i - b == (d - 1) * b + r
    ensures i % b == r
  {
    var e := i / b - d;
    assert (d - 1) * b + b == d * b;
    assert e * b == r - i % b;
    Multiples(e, b);
  }

  lemma Multiples(e: int, b: nat)
    ensures e >= 1 ==> e * b >= b
    ensures e <= -1 ==> e * b <= 0 - b
  {
    if e >= 1 {
      assert e * b == (e - 1) * b + b;
    } else if e <= -1 {
      assert e * b == (e + 1) * b - b;
    }
  }

  /** No two rows with one cursor stand on both sides of a batch's end. */
  ghost predicate NoTieAtCuts(order: seq<Row>, limit: nat)
    requires limit >= 1
  {
    forall i | 0 < i < |order| && OnCut(i, limit) :: order[i - 1].cursor != order[i].cursor
  }

  lemma ShortHasNoCut(order: seq<Row>, limit: nat)
    requires limit >= 1 && |order| <= limit
    ensures NoTieAtCuts(order, limit)
  {
  }

  lemma CutsStep(order: seq<Row>, limit: nat)
    requires 1 <= limit < |order|
    ensures NoTieAtCuts(order, limit)
            <==> order[limit - 1].cursor != order[limit].cursor && NoTieAtCuts(order[limit..], limit)
  {
    var rest := order[limit..];
    assert OnCut(limit, limit);
    if NoTieAtCuts(order, limit) {
      forall i | 0 < i < |rest| && OnCut(i, limit) ensures rest[i - 1].cursor != rest[i].cursor {
        assert OnCut(i + limit, limit);
        assert order[limit + i - 1].cursor != order[limit + i].cursor;
      }
    }
    if order[limit - 1].cursor != order[limit].cursor && NoTieAtCuts(rest, limit) {
      forall i | 0 < i < |order| && OnCut(i, limit) ensures order[i - 1].cursor != order[i].cursor {
        if i > limit {
          assert rest[i - limit - 1].cursor != rest[i - limit].cursor;
        }
      }
    }
  }

  // ---- any sorted arrangement has the same cursors ----

  /** The rows without their cells. */
  ghost function Strip(rows: seq<Row>): (bare: seq<Row>)
    ensures |bare| == |rows| && forall i | 0 <= i < |rows| :: bare[i] == Row(rows[i].cursor, [])
  {
    seq(|rows|, i requires 0 <= i < |rows| => Row(rows[i].cursor, []))
  }

  lemma StripConcat(a: seq<Row>, b: seq<Row>)
    ensures Strip(a + b) == Strip(a) + Strip(b)
  {
  }

  lemma StripSplits(a: seq<Row>, x: Row, b: seq<Row>)
    ensures multiset(Strip(a + [x] + b)) == multiset(Strip(a + b)) + multiset{Row(x.cursor, [])}
    ensures multiset(a + [x] + b) == multiset(a + b) + multiset{x}
  {
    StripConcat(a + [x], b);
    StripConcat(a, [x]);
    StripConcat(a, b);
    assert Strip([x]) == [Row(x.cursor, [])];
  }

  lemma FindIn(b: seq<Row>, x: Row) returns (front: seq<Row>, back: seq<Row>)
    requires x in b
    ensures b == front + [x] + back
  {
    var j :| 0 <= j < |b| && b[j] == x;
    front, back := b[..j], b[j + 1..];
  }

  lemma CancelOne(a: multiset<Row>, b: multiset<Row>, x: Row)
    requires a + multiset{x} == b + multiset{x}
    ensures a == b
  {
    assert a == a + multiset{x} - multiset{x};
    assert b == b + multiset{x} - multiset{x};
  }

  lemma {:induction false} StripCounts(a: seq<Row>, b: seq<Row>)
    requires multiset(a) == multiset(b)
    ensures multiset(Strip(a)) == multiset(Strip(b))
    decreases |a|
  {
    SameLength(a, b);
    if a != [] {
      var rest := a[1..];
      assert a == [] + [a[0]] + rest && [] + rest == rest;
      assert a[0] in multiset(b);
      var front, back := FindIn(b, a[0]);
      StripSplits([], a[0], rest);
      StripSplits(front, a[0], back);
      CancelOne(multiset(rest), multiset(front + back), a[0]);
      StripCounts(rest, front + back);
    } else {
      assert b == [];
    }
  }

  lemma SameCursors(a: seq<Row>, b: seq<Row>)
    requires Ordered(a) && Ordered(b) && multiset(a) == multiset(b)
    ensures |a| == |b| && forall i | 0 <= i < |a| :: a[i].cursor == b[i].cursor
  {
    StripCounts(a, b);
    OrderedUnique(Strip(a), Strip(b));
  }

  lemma CutsAgree(a: seq<Row>, b: seq<Row>, limit: nat)
    requires Ordered(a) && Ordered(b) && multiset(a) == multiset(b) && limit >= 1
    ensures NoTieAtCuts(a, limit) <==> NoTieAtCuts(b, limit)
  {
    SameCursors(a, b);
  }

  // ---- the whole drain ----

  lemma PassedStep(q: Query, s: Stream, e: Event)
    requires Legal(q, s, e)
    ensures |Next(q, s, e).passed| >= |s.passed|
  {
  }

  lemma {:induction false} PassedGrows(q: Query, s: Stream, es: seq<Event>)
    requires LegalRun(q, s, es)
    ensures |Run(q, s, es).passed| >= |s.passed|
    decreases |es|
  {
    if es != [] {
      PassedStep(q, s, es[0]);
      PassedGrows(q, Next(q, s, es[0]), es[1..]);
    }
  }

  lemma PerfectTable(q: Query, s: Stream, e: Event)
    requires Legal(q, s, e) && Perfect(q, e) && Parses(q, s.table) && q.limit >= 1
    ensures Next(q, s, e).table == s.table && Next(q, s, e).unscanned == s.unscanned
    ensures e.order == [] ==> Next(q, s, e) == s
  {
    if e.order != [] {
      PerfectEffect(q, s, e);
    }
  }

  lemma {:induction false} PerfectKeepsScans(q: Query, s: Stream, es: seq<Event>)
    requires PerfectRun(q, s, es) && Parses(q, s.table) && q.limit >= 1
    ensures Run(q, s, es).unscanned == s.unscanned
    decreases |es|
  {
    if es != [] {
      PerfectTable(q, s, es[0]);
      PerfectKeepsScans(q, Next(q, s, es[0]), es[1..]);
    }
  }

  /** The poll's answer is cut between two different cursors, or not at all. */
  ghost predicate CutsCleanly(q: Query, e: Event)
    requires e.Poll? && q.limit >= 1
  {
    |e.order| <= q.limit || e.order[q.limit - 1].cursor != e.order[q.limit].cursor
  }

  lemma CleanCutUntied(q: Query, s: Stream, e: Event)
    requires Legal(q, s, e) && Perfect(q, e) && Parses(q, s.table) && q.limit >= 1 && e.order != [] && CutsCleanly(q, e)
    ensures TiedAt(e.order[Min(q.limit, |e.order|)..], Next(q, s, e).cursor) == []
  {
    PerfectEffect(q, s, e);
    CutOffTies(e.order, Min(q.limit, |e.order|), Next(q, s, e).cursor);
  }

  lemma CleanCutPassesNothing(q: Query, s: Stream, e: Event)
    requires Legal(q, s, e) && Perfect(q, e) && Parses(q, s.table) && q.limit >= 1 && e.order != [] && CutsCleanly(q, e)
    ensures Next(q, s, e).passed == s.passed
  {
    CleanCutUntied(q, s, e);
    PerfectEffect(q, s, e);
  }

  lemma RestOrdered(order: seq<Row>, m: nat)
    requires Ordered(order) && m <= |order|
    ensures Ordered(order[m..])
  {
  }

  /** The rest of an answer that was cut cleanly is an arrangement of what stays pending. */
  lemma RestIsPending(q: Query, s: Stream, e: Event)
    requires Legal(q, s, e) && Perfect(q, e) && Parses(q, s.table) && q.limit >= 1 && e.order != [] && CutsCleanly(q, e)
    ensures Arrangement(e.order[Min(q.limit, |e.order|)..], Pending(s.table, q.filter, Next(q, s, e).cursor))
  {
    var m, t := Min(q.limit, |e.order|), Next(q, s, e);
    PerfectTable(q, s, e);
    PollPassesOver(q, s, e);
    CleanCutUntied(q, s, e);
    RestOrdered(e.order, m);
    Cancel(e.order, m, Pending(s.table, q.filter, s.cursor), Pending(s.table, q.filter, t.cursor));
  }

  lemma Cancel(order: seq<Row>, m: nat, all: seq<Row>, rest: seq<Row>)
    requires m <= |order| && multiset(order) == multiset(all) == multiset(order[..m]) + multiset(rest)
    ensures multiset(order[m..]) == multiset(rest)
  {
    assert order == order[..m] + order[m..];
    var low := multiset(order[..m]);
    assert multiset(order[m..]) == low + multiset(order[m..]) - low;
    assert multiset(rest) == low + multiset(rest) - low;
  }

  lemma TieIsPassed(q: Query, s: Stream, e: Event)
    requires Legal(q, s, e) && Perfect(q, e) && Parses(q, s.table) && 1 <= q.limit < |e.order|
    requires e.order[q.limit - 1].cursor == e.order[q.limit].cursor
    ensures |Next(q, s, e).passed| > |s.passed|
  {
    PerfectEffect(q, s, e);
    CutOffTies(e.order, q.limit, Next(q, s, e).cursor);
    var tied := TiedAt(e.order[q.limit..], Next(q, s, e).cursor);
    assert |multiset(tied)| == |tied| > 0;
  }

  ghost predicate PassesNothing(q: Query, s: Stream, es: seq<Event>)
    requires LegalRun(q, s, es)
  {
    Run(q, s, es).passed == s.passed
  }

  lemma AfterTie(q: Query, s: Stream, es: seq<Event>)
    requires es != [] && PerfectRun(q, s, es) && Parses(q, s.table) && q.limit >= 1 && !CutsCleanly(q, es[0])
    ensures !PassesNothing(q, s, es)
  {
    TieIsPassed(q, s, es[0]);
    PassedGrows(q, Next(q, s, es[0]), es[1..]);
  }

  lemma AfterCleanCut(q: Query, s: Stream, es: seq<Event>)
    requires es != [] && PerfectRun(q, s, es) && Parses(q, s.table) && q.limit >= 1
    requires es[0].order != [] && CutsCleanly(q, es[0])
    ensures PassesNothing(q, s, es) <==> PassesNothing(q, Next(q, s, es[0]), es[1..])
  {
    CleanCutPassesNothing(q, s, es[0]);
  }

  /** A run of full, successful polls that drains the table passes nothing over iff no tie falls on a cut. */
  lemma {:induction false} PassesNothingIff(q: Query, s: Stream, es: seq<Event>, order: seq<Row>)
    requires PerfectRun(q, s, es) && Parses(q, s.table) && q.limit >= 1
    requires Pending(Run(q, s, es).table, q.filter, Run(q, s, es).cursor) == []
    requires Arrangement(order, Pending(s.table, q.filter, s.cursor))
    ensures PassesNothing(q, s, es) <==> NoTieAtCuts(order, q.limit)
    decreases |es|
  {
    SameLength(order, Pending(s.table, q.filter, s.cursor));
    if order == [] {
      DrainedPassesNothing(q, s, es);
    } else {
      var e := es[0];
      PerfectTable(q, s, e);
      SameLength(e.order, order);
      CutsAgree(order, e.order, q.limit);
      if CutsCleanly(q, e) {
        AfterCleanCut(q, s, es);
        RestIsPending(q, s, e);
        PassesNothingIff(q, Next(q, s, e), es[1..], e.order[Min(q.limit, |e.order|)..]);
        CutsRest(e.order, q.limit);
      } else {
        AfterTie(q, s, es);
        CutsStep(e.order, q.limit);
      }
    }
  }

  lemma DrainedPassesNothing(q: Query, s: Stream, es: seq<Event>)
    requires PerfectRun(q, s, es) && Pending(s.table, q.filter, s.cursor) == []
    ensures PassesNothing(q, s, es)
  {
    PerfectIsClean(q, s, es);
    DrainedStaysFixed(q, s, es);
  }

  lemma CutsRest(order: seq<Row>, limit: nat)
    requires limit >= 1 && (|order| <= limit || order[limit - 1].cursor != order[limit].cursor)
    ensures NoTieAtCuts(order, limit) <==> NoTieAtCuts(order[Min(limit, |order|)..], limit)
  {
    if |order| > limit {
      CutsStep(order, limit);
    } else {
      ShortHasNoCut(order, limit);
      ShortHasNoCut(order[Min(limit, |order|)..], limit);
    }
  }

  /**
   * Draining a fixed table with full, successful polls delivers everything that matched iff, in
   * sorted order, no two rows with one cursor stand on both sides of a multiple of BatchSize.
   */
  lemma DrainLosesNothingIff(q: Query, table: seq<Row>, start: int, es: seq<Event>, order: seq<Row>)
    requires Parses(q, table) && q.limit >= 1 && PerfectRun(q, Opened(table, start), es)
    requires Pending(table, q.filter, Run(q, Opened(table, start), es).cursor) == []
    requires Arrangement(order, Pending(table, q.filter, start))
    ensures multiset(Run(q, Opened(table, start), es).acked) == multiset(Pending(table, q.filter, start))
            <==> forall i | 0 < i < |order| && i % q.limit == 0 :: order[i - 1].cursor != order[i].cursor
  {
    forall i: nat ensures OnCut(i, q.limit) <==> i % q.limit == 0 {
      OnCutIff(i, q.limit);
    }
    DrainMissesNothingIff(q, table, start, es, order);
  }

  lemma DrainMissesNothingIff(q: Query, table: seq<Row>, start: int, es: seq<Event>, order: seq<Row>)
    requires Parses(q, table) && q.limit >= 1 && PerfectRun(q, Opened(table, start), es)
    requires Pending(table, q.filter, Run(q, Opened(table, start), es).cursor) == []
    requires Arrangement(order, Pending(table, q.filter, start))
    ensures multiset(Run(q, Opened(table, start), es).acked) == multiset(Pending(table, q.filter, start))
            <==> NoTieAtCuts(order, q.limit)
  {
    var s := Opened(table, start);
    PerfectKeepsScans(q, s, es);
    PerfectIsClean(q, s, es);
    FixedTable(q, s, es);
    DrainAccounts(q, table, start, es);
    PassesNothingIff(q, s, es, order);
    var t := Run(q, s, es);
    AccountsExactly(multiset(Pending(table, q.filter, start)), multiset(t.acked), t.passed);
  }

  lemma AccountsExactly(all: multiset<Row>, acked: multiset<Row>, passed: multiset<Row>)
    requires all == acked + passed
    ensures acked == all <==> passed == multiset{}
  {
    if acked == all {
      assert |all| == |acked| + |passed|;
    }
  }
}
