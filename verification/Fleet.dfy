/**
 * Many executors polling one growing table.  A poll is not atomic here: reading the rows, sending
 * them (with the global counter), and updating the stream state are separate steps, and any number
 * of inserts and steps of other executors may fall between them.
 */
module Fleet {
  import opened Rows
  import opened CursorStream

  /** Where a member's run goroutine stands inside a poll. */
  datatype Phase =
    | Idle
    | Fetched(batch: seq<Row>, outcome: Outcome)
    | Delivered(cursor: Option<int>, count: nat)

  datatype Member = Member(
    query: Query, start: int, cursor: int, rowsSent: int, acked: seq<Row>, received: seq<Row>, phase: Phase)

  datatype Fleet = Fleet(table: seq<Row>, members: seq<Member>, globalRows: int)

  /** A read commits to the outcome its later send will have. */
  datatype Action =
    | Grow(row: Row)
    | Create(query: Query, start: int)
    | Read(who: nat, order: seq<Row>, scanned: seq<bool>, outcome: Outcome)
    | Send(who: nat)
    | Commit(who: nat)

  ghost predicate Enabled(f: Fleet, a: Action)
  {
    match a
    case Grow(_) => true
    case Create(_, _) => true
    case Read(who, order, scanned, outcome) =>
      && who < |f.members|
      && var m := f.members[who];
         && m.phase.Idle?
         && Arrangement(order, Pending(f.table, m.query.filter, m.cursor))
         && |scanned| <= Min(m.query.limit, |order|)
         && (outcome.Sent? ==> outcome.copies >= 1)
    case Send(who) => who < |f.members| && f.members[who].phase.Fetched?
    case Commit(who) => who < |f.members| && f.members[who].phase.Delivered?
  }

  ghost function AfterSend(m: Member): Member
    requires m.phase.Fetched?
  {
    var batch, outcome := m.phase.batch, m.phase.outcome;
    if batch == [] || outcome.EncodeFailed? then m.(phase := Idle)
    else
      var n := m.(received := m.received + Repeat(batch, outcome.copies), phase := Idle);
      if outcome.SendFailed? then n
      else n.(acked := m.acked + batch, phase := Delivered(m.query.parse(batch[|batch| - 1]), |batch|))
  }

  function AfterCommit(m: Member): Member
    requires m.phase.Delivered?
  {
    match m.phase.cursor
    case None => m.(phase := Idle)
    case Some(c) => m.(cursor := c, rowsSent := m.rowsSent + m.phase.count, phase := Idle)
  }

  ghost function Apply(f: Fleet, a: Action): Fleet
    requires Enabled(f, a)
  {
    match a
    case Grow(r) => f.(table := f.table + [r])
    case Create(q, start) => f.(members := f.members + [Member(q, start, start, 0, [], [], Idle)])
    case Read(who, order, scanned, outcome) =>
      f.(members := f.members[who := f.members[who].(phase := Fetched(Batch(order, scanned), outcome))])
    case Send(who) =>
      var n := AfterSend(f.members[who]);
      f.(members := f.members[who := n], globalRows := f.globalRows + |n.acked| - |f.members[who].acked|)
    case Commit(who) => f.(members := f.members[who := AfterCommit(f.members[who])])
  }

  ghost predicate Schedule(f: Fleet, actions: seq<Action>)
    decreases |actions|
  {
    actions == [] || (Enabled(f, actions[0]) && Schedule(Apply(f, actions[0]), actions[1..]))
  }

  ghost function Execute(f: Fleet, actions: seq<Action>): Fleet
    requires Schedule(f, actions)
    decreases |actions|
  {
    if actions == [] then f else Execute(Apply(f, actions[0]), actions[1..])
  }

  // ---- each member runs as if alone ----

  /** The events member `i` takes part in: every insert, and its own polls at the moment they read. */
  ghost function Project(actions: seq<Action>, i: nat): seq<Event>
    decreases |actions|
  {
    if actions == [] then []
    else
      var rest := Project(actions[1..], i);
      match actions[0]
      case Grow(r) => [Insert(r)] + rest
      case Create(_, _) => rest
      case Read(who, order, scanned, outcome) => if who == i then [Poll(order, scanned, outcome)] + rest else rest
      case Send(_) => rest
      case Commit(_) => rest
  }

  /** The member once the poll it is in has run to its end. */
  ghost function Finished(m: Member): Member
  {
    var n := if m.phase.Fetched? then AfterSend(m) else m;
    if n.phase.Delivered? then AfterCommit(n) else n
  }

  /** The member, with its current poll run to the end, is the stream `s`. */
  ghost predicate Simulates(table: seq<Row>, m: Member, s: Stream)
  {
    Agrees(table, Finished(m), s)
  }

  ghost predicate Agrees(table: seq<Row>, n: Member, s: Stream)
  {
    && s.table == table && s.start == n.start
    && s.cursor == n.cursor && s.rowsSent == n.rowsSent && s.acked == n.acked && s.received == n.received
  }

  lemma ReadSimulates(table: seq<Row>, m: Member, s: Stream, order: seq<Row>, scanned: seq<bool>, outcome: Outcome)
    requires Simulates(table, m, s) && m.phase.Idle? && Legal(m.query, s, Poll(order, scanned, outcome))
    ensures Simulates(table, m.(phase := Fetched(Batch(order, scanned), outcome)),
            Next(m.query, s, Poll(order, scanned, outcome)))
  {
    if Acknowledges(Poll(order, scanned, outcome)) {
      assert outcome == Sent(outcome.copies);
      NextAcknowledges(m.query, s, order, scanned, outcome.copies);
      SentSimulates(table, m, s, Batch(order, scanned), outcome.copies, order, scanned);
    } else {
      OtherReadSimulates(table, m, s, order, scanned, outcome);
    }
  }

  /** Cursor and counter after the state update for a cursor cell that was or was not readable. */
  ghost predicate Committed(cursor: int, rowsSent: int, read: Option<int>, count: nat, newCursor: int, newRowsSent: int)
  {
    if read.None? then newCursor == cursor && newRowsSent == rowsSent
    else newCursor == read.value && newRowsSent == rowsSent + count
  }

  lemma SendDelivers(m: Member, batch: seq<Row>, copies: nat)
    requires batch != []
    ensures AfterSend(m.(phase := Fetched(batch, Sent(copies))))
            == m.(acked := m.acked + batch, received := m.received + Repeat(batch, copies),
                  phase := Delivered(m.query.parse(batch[|batch| - 1]), |batch|))
  {
  }

  lemma CommitUpdates(a: Member)
    requires a.phase.Delivered?
    ensures var n := AfterCommit(a);
            && n.start == a.start && n.acked == a.acked && n.received == a.received
            && Committed(a.cursor, a.rowsSent, a.phase.cursor, a.phase.count, n.cursor, n.rowsSent)
  {
  }

  /** A member that fetched a batch and will send it, at the end of its poll. */
  lemma FinishedSent(m: Member, batch: seq<Row>, copies: nat)
    requires batch != []
    ensures var n := Finished(m.(phase := Fetched(batch, Sent(copies))));
            && n.start == m.start && n.acked == m.acked + batch && n.received == m.received + Repeat(batch, copies)
            && Committed(m.cursor, m.rowsSent, m.query.parse(batch[|batch| - 1]), |batch|, n.cursor, n.rowsSent)
  {
    SendDelivers(m, batch, copies);
    CommitUpdates(AfterSend(m.(phase := Fetched(batch, Sent(copies)))));
  }

  lemma AcknowledgedEffect(
    s: Stream, batch: seq<Row>, out: seq<Row>, read: Option<int>, order: seq<Row>, scanned: seq<bool>)
    requires |scanned| <= |order|
    ensures var t := Acknowledged(s, batch, out, read, order, scanned);
            && t.table == s.table && t.start == s.start && t.acked == s.acked + batch && t.received == s.received + out
            && Committed(s.cursor, s.rowsSent, read, |batch|, t.cursor, t.rowsSent)
  {
  }

  lemma NextAcknowledges(q: Query, s: Stream, order: seq<Row>, scanned: seq<bool>, copies: nat)
    requires Legal(q, s, Poll(order, scanned, Sent(copies))) && Batch(order, scanned) != []
    ensures var batch := Batch(order, scanned);
            Next(q, s, Poll(order, scanned, Sent(copies)))
            == Acknowledged(s, batch, Repeat(batch, copies), q.parse(batch[|batch| - 1]), order, scanned)
  {
  }

  lemma SentSimulates(
    table: seq<Row>, m: Member, s: Stream, batch: seq<Row>, copies: nat, order: seq<Row>, scanned: seq<bool>)
    requires Simulates(table, m, s) && m.phase.Idle? && batch != [] && |scanned| <= |order|
    ensures var t := Acknowledged(s, batch, Repeat(batch, copies), m.query.parse(batch[|batch| - 1]), order, scanned);
            Simulates(table, m.(phase := Fetched(batch, Sent(copies))), t)
  {
    var out, read := Repeat(batch, copies), m.query.parse(batch[|batch| - 1]);
    AcknowledgedEffect(s, batch, out, read, order, scanned);
    FinishedSent(m, batch, copies);
    AgreesAfterSend(table, m, s, Finished(m.(phase := Fetched(batch, Sent(copies)))),
        Acknowledged(s, batch, out, read, order, scanned), batch, out);
  }

  lemma AgreesAfterSend(table: seq<Row>, m: Member, s: Stream, n: Member, t: Stream, batch: seq<Row>, out: seq<Row>)
    requires Agrees(table, m, s) && batch != []
    requires n.start == m.start && n.acked == m.acked + batch && n.received == m.received + out
    requires t.table == s.table && t.start == s.start && t.acked == s.acked + batch && t.received == s.received + out
    requires var read := m.query.parse(batch[|batch| - 1]);
             && Committed(m.cursor, m.rowsSent, read, |batch|, n.cursor, n.rowsSent)
             && Committed(s.cursor, s.rowsSent, read, |batch|, t.cursor, t.rowsSent)
    ensures Agrees(table, n, t)
  {
  }

  lemma OtherReadSimulates(table: seq<Row>, m: Member, s: Stream, order: seq<Row>, scanned: seq<bool>, outcome: Outcome)
    requires Simulates(table, m, s) && m.phase.Idle? && Legal(m.query, s, Poll(order, scanned, outcome))
    requires !Acknowledges(Poll(order, scanned, outcome))
    ensures Simulates(table, m.(phase := Fetched(Batch(order, scanned), outcome)),
            Next(m.query, s, Poll(order, scanned, outcome)))
  {
  }

  /**
   * Non-interference: in every schedule, whatever the other executors do and whatever is inserted
   * in the middle of a poll, a member's logs, cursor and counter are, once its current poll ends,
   * those of a legal run of its query alone over the same inserts and the same outcomes.
   */
  lemma {:induction false} NonInterference(f: Fleet, actions: seq<Action>, i: nat, s: Stream)
    requires Schedule(f, actions) && i < |f.members| && Simulates(f.table, f.members[i], s)
    ensures var g := Execute(f, actions);
            var q := f.members[i].query;
            && i < |g.members| && g.members[i].query == q
            && LegalRun(q, s, Project(actions, i))
            && Simulates(g.table, g.members[i], Run(q, s, Project(actions, i)))
    decreases |actions|
  {
    if actions != [] {
      var t := StepAlone(f, actions[0], i, s);
      NonInterference(Apply(f, actions[0]), actions[1..], i, t);
      ProjectStep(f.members[i].query, s, actions, i, t);
    }
  }

  /** How a member's stream moves with one action of the fleet. */
  ghost predicate Follows(q: Query, s: Stream, a: Action, i: nat, t: Stream)
  {
    if a.Grow? then t == Next(q, s, Insert(a.row))
    else if a.Read? && a.who == i then
      var e := Poll(a.order, a.scanned, a.outcome);
      Legal(q, s, e) && t == Next(q, s, e)
    else t == s
  }

  lemma StepAlone(f: Fleet, a: Action, i: nat, s: Stream) returns (t: Stream)
    requires Enabled(f, a) && i < |f.members| && Simulates(f.table, f.members[i], s)
    ensures var g, q := Apply(f, a), f.members[i].query;
            && i < |g.members| && g.members[i].query == q && Simulates(g.table, g.members[i], t)
            && Follows(q, s, a, i, t)
  {
    var q := f.members[i].query;
    match a
    case Grow(r) => t := Next(q, s, Insert(r));
    case Create(_, _) => t := s;
    case Send(_) => t := s;
    case Commit(_) => t := s;
    case Read(who, order, scanned, outcome) =>
      if who == i {
        t := Next(q, s, Poll(order, scanned, outcome));
        ReadSimulates(f.table, f.members[i], s, order, scanned, outcome);
      } else {
        t := s;
      }
  }

  lemma ProjectStep(q: Query, s: Stream, actions: seq<Action>, i: nat, t: Stream)
    requires actions != [] && LegalRun(q, t, Project(actions[1..], i)) && Follows(q, s, actions[0], i, t)
    ensures LegalRun(q, s, Project(actions, i)) && Run(q, s, Project(actions, i)) == Run(q, t, Project(actions[1..], i))
  {
    var es := Project(actions, i);
    if es != Project(actions[1..], i) {
      assert es[1..] == Project(actions[1..], i);
    }
  }

  /** A newly created member simulates a freshly opened stream over the table of that moment. */
  lemma CreatedSimulates(f: Fleet, q: Query, start: int)
    ensures var g := Apply(f, Create(q, start)); Simulates(g.table, g.members[|f.members|], Opened(f.table, start))
  {
  }

  // ---- the global counter ----

  function Owed(m: Member): nat
  {
    if m.phase.Delivered? then m.phase.count else 0
  }

  function TotalAcked(members: seq<Member>): nat
  {
    if members == [] then 0 else |members[0].acked| + TotalAcked(members[1..])
  }

  function TotalCounted(members: seq<Member>): int
  {
    if members == [] then 0 else members[0].rowsSent + Owed(members[0]) + TotalCounted(members[1..])
  }

  lemma {:induction false} TotalAckedUpdate(members: seq<Member>, i: nat, m: Member)
    requires i < |members|
    ensures TotalAcked(members[i := m]) == TotalAcked(members) - |members[i].acked| + |m.acked|
  {
    if i == 0 {
      assert members[0 := m][1..] == members[1..];
    } else {
      assert members[i := m][1..] == members[1..][i - 1 := m];
      TotalAckedUpdate(members[1..], i - 1, m);
    }
  }

  lemma {:induction false} TotalAckedAppend(members: seq<Member>, m: Member)
    ensures TotalAcked(members + [m]) == TotalAcked(members) + |m.acked|
  {
    if members != [] {
      assert (members + [m])[1..] == members[1..] + [m];
      TotalAckedAppend(members[1..], m);
    }
  }

  /**
   * A member's counter, with what it still owes, is the length of its log, and the cursors it has
   * in hand are readable.
   */
  ghost predicate Counted(m: Member)
  {
    && |m.acked| == m.rowsSent + Owed(m)
    && (m.phase.Delivered? ==> m.phase.cursor.Some?)
    && (m.phase.Fetched? && m.phase.batch != [] ==> m.query.parse(m.phase.batch[|m.phase.batch| - 1]).Some?)
  }

  ghost predicate Conserved(f: Fleet)
  {
    && f.globalRows == TotalAcked(f.members)
    && forall i | 0 <= i < |f.members| :: Counted(f.members[i]) && Parses(f.members[i].query, f.table)
  }

  /** Inserted rows and newly created queries keep every cursor cell readable. */
  ghost predicate KeepsReadable(f: Fleet, a: Action)
  {
    && (a.Grow? ==> forall i | 0 <= i < |f.members| :: Parses(f.members[i].query, [a.row]))
    && (a.Create? ==> Parses(a.query, f.table))
  }

  lemma ReadCounts(f: Fleet, a: Action)
    requires Enabled(f, a) && a.Read? && Conserved(f)
    ensures Counted(f.members[a.who].(phase := Fetched(Batch(a.order, a.scanned), a.outcome)))
  {
    var m := f.members[a.who];
    var batch := Batch(a.order, a.scanned);
    if batch != [] {
      BatchOrdered(a.order, a.scanned);
      assert batch[|batch| - 1] in batch;
      PendingRow(f.table, m.query.filter, m.cursor, a.order, batch[|batch| - 1]);
    }
  }

  lemma ParsesExtends(q: Query, table: seq<Row>, r: Row)
    requires Parses(q, table) && Parses(q, [r])
    ensures Parses(q, table + [r])
  {
    assert r in [r];
  }

  lemma ConservedStep(f: Fleet, a: Action)
    requires Enabled(f, a) && Conserved(f) && KeepsReadable(f, a)
    ensures Conserved(Apply(f, a))
  {
    match a
    case Grow(r) => GrowConserved(f, r);
    case Create(q, start) => TotalAckedAppend(f.members, Member(q, start, start, 0, [], [], Idle));
    case Read(who, order, scanned, outcome) =>
      ReadCounts(f, a);
      TotalAckedUpdate(f.members, who, f.members[who].(phase := Fetched(Batch(order, scanned), outcome)));
    case Send(who) => TotalAckedUpdate(f.members, who, AfterSend(f.members[who]));
    case Commit(who) => TotalAckedUpdate(f.members, who, AfterCommit(f.members[who]));
  }

  lemma GrowConserved(f: Fleet, r: Row)
    requires Conserved(f) && KeepsReadable(f, Grow(r))
    ensures Conserved(Apply(f, Grow(r)))
  {
    forall i | 0 <= i < |f.members| ensures Parses(f.members[i].query, f.table + [r]) {
      ParsesExtends(f.members[i].query, f.table, r);
    }
  }

  ghost predicate ReadableSchedule(f: Fleet, actions: seq<Action>)
    ensures ReadableSchedule(f, actions) ==> Schedule(f, actions)
    decreases |actions|
  {
    actions == [] || (
      && Enabled(f, actions[0]) && KeepsReadable(f, actions[0])
      && ReadableSchedule(Apply(f, actions[0]), actions[1..]))
  }

  lemma {:induction false} TotalsAgree(members: seq<Member>)
    requires forall i | 0 <= i < |members| :: Counted(members[i])
    ensures TotalAcked(members) == TotalCounted(members)
  {
    if members != [] {
      TotalsAgree(members[1..]);
    }
  }

  /**
   * In every schedule with readable cursors the global counter is the sum of all counters of
   * executors ever created, plus the batches sent but not yet counted.
   */
  lemma {:induction false} CounterConservation(f: Fleet, actions: seq<Action>)
    requires Conserved(f) && ReadableSchedule(f, actions)
    ensures var g := Execute(f, actions); Conserved(g) && g.globalRows == TotalCounted(g.members)
    decreases |actions|
  {
    if actions == [] {
      TotalsAgree(f.members);
    } else {
      ConservedStep(f, actions[0]);
      CounterConservation(Apply(f, actions[0]), actions[1..]);
    }
  }

  /** From the moment it is created, a member lives as if alone over the table it found. */
  lemma CreatedRunsAlone(f: Fleet, q: Query, start: int, actions: seq<Action>)
    requires Schedule(Apply(f, Create(q, start)), actions)
    ensures var i, s := |f.members|, Opened(f.table, start);
            var g := Execute(Apply(f, Create(q, start)), actions);
            && i < |g.members| && LegalRun(q, s, Project(actions, i))
            && Simulates(g.table, g.members[i], Run(q, s, Project(actions, i)))
  {
    CreatedSimulates(f, q, start);
    NonInterference(Apply(f, Create(q, start)), actions, |f.members|, Opened(f.table, start));
  }

  /** The counter law from the start: no members yet and a counter at zero. */
  lemma CountersFromStart(table: seq<Row>, actions: seq<Action>)
    requires ReadableSchedule(Fleet(table, [], 0), actions)
    ensures var g := Execute(Fleet(table, [], 0), actions); Conserved(g) && g.globalRows == TotalCounted(g.members)
  {
    CounterConservation(Fleet(table, [], 0), actions);
  }
}
