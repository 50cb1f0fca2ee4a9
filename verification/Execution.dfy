/** The executor of one query as an object: start, the polling loop, stop and state snapshots. */
module Execution {
  import opened Rows
  import opened Text
  import opened Compilation
  import opened CursorStream
  import opened Delivery
  import opened Polling
  import opened Lifecycle

  class StreamState {
    var cursorValue: int
    var rowsSent: int

    constructor (cursorValue: int, rowsSent: int)
      ensures this.cursorValue == cursorValue && this.rowsSent == rowsSent
    {
      this.cursorValue := cursorValue;
      this.rowsSent := rowsSent;
    }
  }

  class Metrics {
    var rowsSent: int
    var errors: int

    constructor ()
      ensures rowsSent == 0 && errors == 0
    {
      rowsSent := 0;
      errors := 0;
    }
  }

  class Channel {
    /** The query whose executor made this channel. */
    ghost const owner: string
    var closed: bool

    constructor (ghost owner: string)
      ensures !closed && this.owner == owner
    {
      this.owner := owner;
      closed := false;
    }

    /** Closing a closed channel panics in Go, so callers must show it is open. */
    method Close()
      requires !closed
      modifies this
      ensures closed
    {
      closed := true;
    }
  }

  /** Which wait of the loop's select was ready; a tick comes with what its poll will meet. */
  datatype Ready = ContextDone | StopSignalled | Ticked(db: DbAnswer, encodes: bool, sends: bool)

  /** The life machine's event for one turn of the loop. */
  ghost function TurnOf(plan: Plan, time: string -> Option<int>, cursor: int, rowsSent: int, ready: Ready): LifeEvent
  {
    match ready
    case ContextDone => SeeCancel
    case StopSignalled => SeeStop
    case Ticked(db, encodes, sends) => Tick(plan, time, cursor, rowsSent, db, encodes, sends)
  }

  /** Between two inserts by others, or at a tick with what its poll will meet. */
  datatype Moment = Inserted | Polled(db: DbAnswer, encodes: bool, sends: bool)

  /** How the loop ends: it is still running when observed, or one of its two exits was taken. */
  datatype Exit = StillRunning | OnCancel | OnStop

  /** The terminal frame of each exit. */
  function LastFrames(exit: Exit): seq<Frame>
  {
    match exit
    case StillRunning => []
    case OnCancel => [Error(ContextCancelled)]
    case OnStop => [Completed]
  }

  /** Every answer has the same columns. */
  ghost predicate OneLayout(moments: seq<Moment>, columns: seq<string>)
  {
    forall k | 0 <= k < |moments| && moments[k].Polled? && moments[k].db.Answer? :: moments[k].db.columns == columns
  }

  lemma AckedExtends(q: Query, s: Stream, e: Event)
    requires Legal(q, s, e)
    ensures s.acked <= Next(q, s, e).acked && (e.Insert? ==> Next(q, s, e).acked == s.acked)
  {
  }

  /** A log that grew twice: its rows since the start are the first growth's and then the second's. */
  lemma LogParts(columns: seq<string>, a: seq<Row>, b: seq<Row>, c: seq<Row>)
    requires a <= b <= c
    ensures BatchMaps(columns, c[|a|..]) == BatchMaps(columns, b[|a|..]) + BatchMaps(columns, c[|b|..])
  {
    assert c[|a|..] == b[|a|..] + c[|b|..];
    BatchMapsConcat(columns, b[|a|..], c[|b|..]);
  }

  /** This moment amounts to this event. */
  ghost predicate Moves(plan: Plan, time: string -> Option<int>, q: Query, s: Stream, e: Event, m: Moment)
  {
    && Legal(q, s, e)
    && if e.Insert? then m.Inserted? else m.Polled? && Answers(plan, time, q, s, e, m.db, m.encodes, m.sends)
  }

  /** The moments of a loop, seen as a run of the stream model: every poll amounts to its event. */
  ghost predicate Drives(
    plan: Plan, time: string -> Option<int>, q: Query, s: Stream, es: seq<Event>, moments: seq<Moment>)
    ensures Drives(plan, time, q, s, es, moments) ==> LegalRun(q, s, es) && |moments| == |es|
    decreases |es|
  {
    |moments| == |es| && (es == [] || (
      && Moves(plan, time, q, s, es[0], moments[0])
      && Drives(plan, time, q, Next(q, s, es[0]), es[1..], moments[1..])))
  }

  /** The poll of one moment, if it has one: the frames handed to the sender, and whether the send succeeds. */
  ghost function MomentTurns(
    plan: Plan, time: string -> Option<int>, cursor: int, rowsSent: int, m: Moment): seq<Turn>
    requires m.Polled? && m.db.Answer? ==> Wide(m.db.rows, |m.db.columns|)
  {
    match m
    case Inserted => []
    case Polled(db, encodes, sends) =>
      [Turn(PollMeaning(plan, time, cursor, rowsSent, db, encodes, sends).frames, sends)]
  }

  /** The turns of a whole loop. */
  ghost function TurnsOf(
    plan: Plan, time: string -> Option<int>, q: Query, s: Stream, es: seq<Event>, moments: seq<Moment>): seq<Turn>
    requires Drives(plan, time, q, s, es, moments)
    decreases |es|
  {
    if es == [] then []
    else
      MomentTurns(plan, time, s.cursor, s.rowsSent, moments[0])
      + TurnsOf(plan, time, q, Next(q, s, es[0]), es[1..], moments[1..])
  }

  /** The batches a loop sends successfully carry, in order, exactly the rows its run acknowledges. */
  lemma {:induction false} RunDelivers(
    plan: Plan, time: string -> Option<int>, q: Query, s: Stream, es: seq<Event>, moments: seq<Moment>,
    columns: seq<string>)
    requires Drives(plan, time, q, s, es, moments) && OneLayout(moments, columns)
    ensures s.acked <= Run(q, s, es).acked
    ensures SentRows(TurnsOf(plan, time, q, s, es, moments)) == BatchMaps(columns, Run(q, s, es).acked[|s.acked|..])
    ensures RowsPair(SentRows(TurnsOf(plan, time, q, s, es, moments)), columns, Run(q, s, es).acked[|s.acked|..])
    decreases |es|
  {
    if es != [] {
      var t := Next(q, s, es[0]);
      RunDelivers(plan, time, q, t, es[1..], moments[1..], columns);
      AckedExtends(q, s, es[0]);
      LogParts(columns, s.acked, t.acked, Run(q, s, es).acked);
      MomentDelivers(plan, time, q, s, es[0], moments[0], columns);
      SentRowsConcat(MomentTurns(plan, time, s.cursor, s.rowsSent, moments[0]),
          TurnsOf(plan, time, q, t, es[1..], moments[1..]));
      PairsConcat(columns, SentRows(MomentTurns(plan, time, s.cursor, s.rowsSent, moments[0])),
          SentRows(TurnsOf(plan, time, q, t, es[1..], moments[1..])), s.acked, t.acked, Run(q, s, es).acked);
    }
  }

  lemma PairsConcat(
    columns: seq<string>, x: seq<RowMap>, y: seq<RowMap>, a: seq<Row>, b: seq<Row>, c: seq<Row>)
    requires a <= b <= c && RowsPair(x, columns, b[|a|..]) && RowsPair(y, columns, c[|b|..])
    ensures RowsPair(x + y, columns, c[|a|..])
  {
    assert c[|a|..] == b[|a|..] + c[|b|..];
    PairsAppend(columns, x, y, b[|a|..], c[|b|..]);
  }

  lemma PairsAppend(columns: seq<string>, x: seq<RowMap>, y: seq<RowMap>, u: seq<Row>, v: seq<Row>)
    requires RowsPair(x, columns, u) && RowsPair(y, columns, v)
    ensures RowsPair(x + y, columns, u + v)
  {
    forall i | 0 <= i < |x + y| ensures Pairs((x + y)[i], columns, (u + v)[i].cells) {
      assert i < |x| ==> (x + y)[i] == x[i] && (u + v)[i] == u[i];
      assert i >= |x| ==> (x + y)[i] == y[i - |x|] && (u + v)[i] == v[i - |x|];
    }
  }

  lemma MomentIsWide(
    plan: Plan, time: string -> Option<int>, q: Query, s: Stream, e: Event, m: Moment, columns: seq<string>)
    requires Moves(plan, time, q, s, e, m) && m.Polled? && (m.db.Answer? ==> m.db.columns == columns)
    ensures |s.acked| <= |Next(q, s, e).acked|
    ensures forall i | 0 <= i < |Next(q, s, e).acked[|s.acked|..]| ::
              |Next(q, s, e).acked[|s.acked|..][i].cells| == |columns|
  {
    if e.Poll? {
      AckedGrows(q, s, e);
      BatchIsWide(plan, time, q, columns, e.order, e.scanned);
    }
  }

  lemma MomentDelivers(
    plan: Plan, time: string -> Option<int>, q: Query, s: Stream, e: Event, m: Moment, columns: seq<string>)
    requires Moves(plan, time, q, s, e, m) && (m.Polled? && m.db.Answer? ==> m.db.columns == columns)
    ensures |s.acked| <= |Next(q, s, e).acked|
    ensures SentRows(MomentTurns(plan, time, s.cursor, s.rowsSent, m))
            == BatchMaps(columns, Next(q, s, e).acked[|s.acked|..])
    ensures RowsPair(SentRows(MomentTurns(plan, time, s.cursor, s.rowsSent, m)), columns,
                     Next(q, s, e).acked[|s.acked|..])
  {
    AckedExtends(q, s, e);
    if m.Polled? {
      MomentIsWide(plan, time, q, s, e, m, columns);
      BatchMapsPair(columns, Next(q, s, e).acked[|s.acked|..]);
      PollDelivers(plan, time, q, s, e, m.db, m.encodes, m.sends, columns);
      var frames := PollMeaning(plan, time, s.cursor, s.rowsSent, m.db, m.encodes, m.sends).frames;
      OneTurnRows(Turn(frames, m.sends));
    }
  }

  /** What the row loop has after these rows: a report per failed scan, the scanned rows, the last cursor cell. */
  ghost predicate Collected(
    plan: Plan, time: string -> Option<int>, columns: seq<string>, index: nat, rows: seq<Fetched>,
    frames: seq<Frame>, rowMaps: seq<RowMap>, maxCursor: Option<int>)
    requires index < |columns|
  {
    var cells := ScannedCells(rows);
    && (forall i | 0 <= i < |cells| :: |cells[i]| == |columns|)
    && frames == Errors(ScanErrorCount(rows), ScanFailed)
    && rowMaps == RowMaps(columns, cells)
    && maxCursor == if cells == [] then None else ParseCursor(plan.cursorType, cells[|cells| - 1][index], time)
  }

  lemma CollectStep(
    plan: Plan, time: string -> Option<int>, columns: seq<string>, index: nat, rows: seq<Fetched>, k: nat,
    frames: seq<Frame>, rowMaps: seq<RowMap>, maxCursor: Option<int>)
    requires index < |columns| && k < |rows| && (rows[k].Cells? ==> |rows[k].values| == |columns|)
    requires Collected(plan, time, columns, index, rows[..k], frames, rowMaps, maxCursor)
    ensures match rows[k]
            case ScanError =>
              Collected(plan, time, columns, index, rows[..k + 1], frames + [Error(ScanFailed)], rowMaps, maxCursor)
            case Cells(values) =>
              Collected(plan, time, columns, index, rows[..k + 1], frames, rowMaps + [ToRowMap(columns, values)],
                        ParseCursor(plan.cursorType, values[index], time))
  {
    PrefixStep(rows, k);
    if rows[k].Cells? {
      RowMapsSnoc(columns, ScannedCells(rows[..k]), rows[k].values);
    }
  }

  /** After `k` moments: the stream is at `t`, the run has `todo` left, and these turns are done. */
  ghost predicate Underway(
    plan: Plan, time: string -> Option<int>, q: Query, s: Stream, es: seq<Event>, moments: seq<Moment>, k: nat,
    t: Stream, todo: seq<Event>, turns: seq<Turn>)
    requires Drives(plan, time, q, s, es, moments) && k <= |moments|
  {
    && Drives(plan, time, q, t, todo, moments[k..]) && Run(q, s, es) == Run(q, t, todo)
    && turns + TurnsOf(plan, time, q, t, todo, moments[k..]) == TurnsOf(plan, time, q, s, es, moments)
  }

  lemma LoopStep(
    plan: Plan, time: string -> Option<int>, q: Query, s: Stream, es: seq<Event>, moments: seq<Moment>, k: nat,
    t: Stream, todo: seq<Event>, turns: seq<Turn>)
    requires Drives(plan, time, q, s, es, moments) && k < |moments|
    requires Underway(plan, time, q, s, es, moments, k, t, todo, turns)
    ensures todo != [] && Moves(plan, time, q, t, todo[0], moments[k])
    ensures var more := MomentTurns(plan, time, t.cursor, t.rowsSent, moments[k]);
            Underway(plan, time, q, s, es, moments, k + 1, Next(q, t, todo[0]), todo[1..], turns + more)
  {
    assert moments[k..][0] == moments[k] && moments[k..][1..] == moments[k + 1..];
    var more := MomentTurns(plan, time, t.cursor, t.rowsSent, moments[k]);
    TurnsAssociate(turns, more, TurnsOf(plan, time, q, Next(q, t, todo[0]), todo[1..], moments[k + 1..]));
  }

  lemma TurnsAssociate(a: seq<Turn>, b: seq<Turn>, c: seq<Turn>)
    ensures a + b + c == a + (b + c)
  {
  }

  /** What a run from a newly opened stream has acknowledged and sent. */
  lemma OpenedRun(
    plan: Plan, time: string -> Option<int>, q: Query, table: seq<Row>, start: int, es: seq<Event>,
    moments: seq<Moment>, columns: seq<string>)
    requires Drives(plan, time, q, Opened(table, start), es, moments) && OneLayout(moments, columns)
    requires Parses(q, table) && InsertsParse(q, es)
    ensures var t, turns := Run(q, Opened(table, start), es), TurnsOf(plan, time, q, Opened(table, start), es, moments);
            && t.rowsSent == |t.acked|
            && SentRows(turns) == BatchMaps(columns, t.acked) && RowsPair(SentRows(turns), columns, t.acked)
            && (UniqueCursors(table) && InOrderRun(q, Opened(table, start), es) ==>
                  t.acked == OneShot(t.table, q.filter, start, t.cursor))
  {
    var t := Run(q, Opened(table, start), es);
    EveryRunAccounted(q, table, start, es);
    RunDelivers(plan, time, q, Opened(table, start), es, moments, columns);
    assert t.acked[0..] == t.acked;
    if UniqueCursors(table) && InOrderRun(q, Opened(table, start), es) {
      IncrementalEqualsOneShot(q, table, start, es);
    }
  }

  class Executor {
    const queryID: string
    var running: bool
    var stopCh: Channel
    var state: StreamState?
    const metrics: Metrics

    /** A running executor's stop channel is open, so Stop never closes a channel twice. */
    ghost predicate Valid()
      reads this, stopCh
    {
      stopCh.owner == queryID && (running ==> !stopCh.closed)
    }

    /** The life machine's view of this executor's flags. */
    ghost predicate Lives(l: Life)
      reads this, stopCh
    {
      l.running == running && l.stopClosed == stopCh.closed
    }

    ghost function CursorNow(): int
      reads this, state
    {
      if state == null then 0 else state.cursorValue
    }

    ghost function CountNow(): int
      reads this, state
    {
      if state == null then 0 else state.rowsSent
    }

    /** The stream model's view of this executor's state. */
    ghost predicate Represents(s: Stream)
      reads this, state
    {
      state != null && state.cursorValue == s.cursor && state.rowsSent == s.rowsSent
    }

    constructor (queryID: string, metrics: Metrics)
      ensures Valid() && !running && state == null && this.queryID == queryID && this.metrics == metrics
              && fresh(stopCh)
    {
      this.queryID := queryID;
      running := false;
      stopCh := new Channel(queryID);
      state := null;
      this.metrics := metrics;
    }

    /** Start's synchronous part; `started` says a run goroutine was launched. */
    method Start(plan: Plan, max: MaxAnswer, time: string -> Option<int>) returns (frames: seq<Frame>, started: bool)
      requires Valid()
      modifies this, metrics
      ensures Valid()
      ensures forall l | old(Lives(l)) && Safe(l) && !l.started ::
                var m := Happen(l, LifeEvent.Start(started)); Lives(m) && m.frames == l.frames + frames
      ensures old(running) ==> !started && frames == [] && unchanged(this) && unchanged(metrics)
      ensures !old(running) ==>
                && fresh(stopCh) && !stopCh.closed
                && (started <==> InitialCursor(plan, max, time).Some?)
                && (started <==> plan.mode == Beginning || !max.MaxError?)
                && (started && plan.mode == Beginning ==> state != null && state.cursorValue == 0)
                && (started && plan.mode == Now && max.MaxText? && max.text != "" ==>
                      state != null && state.cursorValue == ReadCursor(plan.cursorType, max.text, time))
                && running == started
                && (if started then
                      && frames == [] && unchanged(metrics)
                      && state != null && fresh(state)
                      && Some(state.cursorValue) == InitialCursor(plan, max, time) && state.rowsSent == 0
                    else
                      && frames == [Error(InitializationError)] && state == old(state)
                      && metrics.errors == old(metrics.errors) + 1 && metrics.rowsSent == old(metrics.rowsSent))
    {
      if running {
        return [], false;
      }
      StartCursorIs(plan, max, time);
      running := true;
      stopCh := new Channel(queryID);
      match InitialCursor(plan, max, time) {
        case None =>
          metrics.errors := metrics.errors + 1;
          running := false;
          return [Error(InitializationError)], false;
        case Some(c) =>
          state := new StreamState(c, 0);
          return [], true;
      }
    }

    method Stop()
      requires Valid()
      modifies this, stopCh
      ensures Valid() && !running
      ensures forall l | old(Lives(l)) :: Lives(Happen(l, LifeEvent.Stop))
      ensures stopCh == old(stopCh) && state == old(state)
      ensures stopCh.closed == (old(running) || old(stopCh.closed))
    {
      if running {
        running := false;
        stopCh.Close();
      }
    }

    /** GetState hands out a snapshot: later polls do not change it. */
    method GetState() returns (copy: StreamState?)
      ensures copy == null <==> state == null
      ensures forall s | Represents(s) :: copy != null && copy.cursorValue == s.cursor && copy.rowsSent == s.rowsSent
      ensures copy != null ==> fresh(copy) && copy.cursorValue == state.cursorValue && copy.rowsSent == state.rowsSent
    {
      if state == null {
        return null;
      }
      copy := new StreamState(state.cursorValue, state.rowsSent);
    }

    method SendError(kind: ErrorKind) returns (frame: Frame)
      modifies metrics
      ensures frame == Error(kind) && metrics.errors == old(metrics.errors) + 1
              && metrics.rowsSent == old(metrics.rowsSent)
    {
      metrics.errors := metrics.errors + 1;
      frame := Error(kind);
    }

    /** One poll; `frames` are the frames handed to the sender, in order. */
    method Poll(
      plan: Plan, time: string -> Option<int>, db: DbAnswer, encodes: bool, sends: bool) returns (frames: seq<Frame>)
      requires db.Answer? ==> Wide(db.rows, |db.columns|)
      modifies state, metrics
      ensures old(state) == null ==>
                frames == [Error(NotInitialized)] && metrics.errors == old(metrics.errors) + 1
                    && metrics.rowsSent == old(metrics.rowsSent)
      ensures old(state) != null ==>
                var result := PollMeaning(plan, time, old(state.cursorValue), old(state.rowsSent), db, encodes, sends);
                && state.cursorValue == result.cursor && state.rowsSent == result.rowsSent && frames == result.frames
                && metrics.rowsSent == old(metrics.rowsSent) + result.metricRows
                && metrics.errors == old(metrics.errors) + result.metricErrors
      ensures forall i | 0 <= i < |frames| && frames[i].RowBatch? ::
                ReachesRows(plan, db) && MapsPair(frames[i].rows, db.columns, ScannedCells(db.rows))
    {
      ghost var cursor, count := CursorNow(), CountNow();
      PollPairs(plan, time, cursor, count, db, encodes, sends);
      if state == null {
        var f := SendError(NotInitialized);
        return [f];
      }
      if db.QueryError? {
        var f := SendError(QueryFailedError);
        return [f];
      }
      if db.ColumnsError? {
        var f := SendError(ColumnError);
        return [f];
      }
      var cursorColIndex := FirstOf(db.columns, plan.cursorColumn);
      if cursorColIndex == |db.columns| {
        var f := SendError(CursorColumnMissing);
        return [f];
      }
      var rowMaps: seq<RowMap>;
      var maxCursor: Option<int>;
      frames, rowMaps, maxCursor := CollectRows(plan, time, db.columns, cursorColIndex, db.rows);
      if |rowMaps| > 0 {
        if !encodes {
          var f := SendError(EncodeError);
          metrics.errors := metrics.errors + 1;
          return frames + [f];
        }
        if !sends {
          var f := SendError(ErrorKind.SendError);
          metrics.errors := metrics.errors + 1;
          return frames + [RowBatch(rowMaps), f];
        }
        frames := frames + [RowBatch(rowMaps)];
        metrics.rowsSent := metrics.rowsSent + |rowMaps|;
        if maxCursor.Some? {
          state.cursorValue := maxCursor.value;
          state.rowsSent := state.rowsSent + |rowMaps|;
        }
      }
    }

    /**
     * The row loop: each scanned row is appended and overwrites the cursor candidate; a failed scan
     * is reported and skipped.
     */
    method CollectRows(plan: Plan, time: string -> Option<int>, columns: seq<string>, index: nat, rows: seq<Fetched>)
      returns (frames: seq<Frame>, rowMaps: seq<RowMap>, maxCursor: Option<int>)
      requires index < |columns| && Wide(rows, |columns|)
      modifies metrics
      ensures Collected(plan, time, columns, index, rows, frames, rowMaps, maxCursor)
      ensures MapsPair(rowMaps, columns, ScannedCells(rows))
      ensures metrics.errors == old(metrics.errors) + |frames| && metrics.rowsSent == old(metrics.rowsSent)
    {
      frames, rowMaps, maxCursor := [], [], None;
      for k := 0 to |rows|
        invariant Collected(plan, time, columns, index, rows[..k], frames, rowMaps, maxCursor)
        invariant metrics.errors == old(metrics.errors) + |frames| && metrics.rowsSent == old(metrics.rowsSent)
      {
        CollectStep(plan, time, columns, index, rows, k, frames, rowMaps, maxCursor);
        if rows[k].ScanError? {
          var f := SendError(ScanFailed);
          frames := frames + [f];
          continue;
        }
        rowMaps := rowMaps + [ToRowMap(columns, rows[k].values)];
        maxCursor := ParseCursor(plan.cursorType, rows[k].values[index], time);
      }
      assert rows[..|rows|] == rows;
      RowMapsPair(columns, ScannedCells(rows));
    }

    /** One turn of the goroutine's loop: which of its three waits was ready, and what it then does. */
    method Wake(plan: Plan, time: string -> Option<int>, ready: Ready) returns (frames: seq<Frame>, exits: bool)
      requires Valid() && (ready.StopSignalled? ==> stopCh.closed)
      requires ready.Ticked? && ready.db.Answer? ==> Wide(ready.db.rows, |ready.db.columns|)
      modifies state, metrics
      ensures Valid() && (exits <==> !ready.Ticked?)
      ensures exits ==>
                && frames == [if ready.ContextDone? then Error(ContextCancelled) else Completed]
                && CursorNow() == old(CursorNow()) && CountNow() == old(CountNow())
                && metrics.rowsSent == old(metrics.rowsSent)
      ensures forall l | old(Lives(l)) && l.goroutine.Looping? && (ready.ContextDone? ==> l.cancelled)
                         && (ready.Ticked? ==> old(state) != null) ::
                var m := Happen(l, TurnOf(plan, time, old(CursorNow()), old(CountNow()), ready));
                Lives(m) && m.frames == l.frames + frames && (exits <==> m.goroutine.Exited?)
    {
      match ready {
        case ContextDone =>
          var f := SendError(ContextCancelled);
          return [f], true;
        case StopSignalled =>
          return [Completed], true;
        case Ticked(db, encodes, sends) =>
          frames := Poll(plan, time, db, encodes, sends);
          return frames, false;
      }
    }

    /** The ticks of the loop, each a poll. */
    method Ticks(
      plan: Plan, time: string -> Option<int>, moments: seq<Moment>, ghost q: Query, ghost s: Stream,
      ghost es: seq<Event>) returns (turns: seq<Turn>)
      requires Valid() && Represents(s) && Drives(plan, time, q, s, es, moments)
      modifies state, metrics
      ensures Valid() && Represents(Run(q, s, es))
      ensures metrics.rowsSent - old(metrics.rowsSent) == |Run(q, s, es).acked| - |s.acked|
      ensures turns == TurnsOf(plan, time, q, s, es, moments)
    {
      turns := [];
      ghost var t, todo := s, es;
      assert moments[0..] == moments;
      for k := 0 to |moments|
        invariant Underway(plan, time, q, s, es, moments, k, t, todo, turns) && Valid() && Represents(t)
        invariant metrics.rowsSent - old(metrics.rowsSent) == |t.acked| - |s.acked|
      {
        LoopStep(plan, time, q, s, es, moments, k, t, todo, turns);
        var more := Pass(plan, time, moments[k], q, t, todo[0]);
        turns := turns + more;
        t, todo := Next(q, t, todo[0]), todo[1..];
      }
    }

    /** One moment of the loop. */
    method Pass(
      plan: Plan, time: string -> Option<int>, m: Moment, ghost q: Query, ghost s: Stream, ghost e: Event)
      returns (turns: seq<Turn>)
      requires Valid() && Represents(s) && Moves(plan, time, q, s, e, m)
      modifies state, metrics
      ensures Valid() && Represents(Next(q, s, e))
      ensures metrics.rowsSent - old(metrics.rowsSent) == |Next(q, s, e).acked| - |s.acked|
      ensures turns == MomentTurns(plan, time, s.cursor, s.rowsSent, m)
    {
      if m.Inserted? {
        return [];
      }
      AnswersRefine(plan, time, q, s, e, m.db, m.encodes, m.sends);
      var frames := Poll(plan, time, m.db, m.encodes, m.sends);
      return [Turn(frames, m.sends)];
    }

    /**
     * The goroutine's loop over any number of ticks, with inserts by others in between, until it is
     * observed or exits.  The batches it sent successfully carry, in order, exactly the rows that the
     * stream's run acknowledges; on exit it hands over one terminal frame.
     */
    method RunLoop(
      plan: Plan, time: string -> Option<int>, moments: seq<Moment>, exit: Exit,
      ghost q: Query, ghost s: Stream, ghost es: seq<Event>, ghost columns: seq<string>)
      returns (turns: seq<Turn>, last: seq<Frame>)
      requires Valid() && Represents(s) && Drives(plan, time, q, s, es, moments) && OneLayout(moments, columns)
      requires exit.OnStop? ==> stopCh.closed
      modifies state, metrics
      ensures Valid() && Represents(Run(q, s, es)) && s.acked <= Run(q, s, es).acked
      ensures metrics.rowsSent - old(metrics.rowsSent) == |Run(q, s, es).acked| - |s.acked|
      ensures turns == TurnsOf(plan, time, q, s, es, moments)
      ensures SentRows(turns) == BatchMaps(columns, Run(q, s, es).acked[|s.acked|..])
      ensures last == LastFrames(exit)
    {
      turns := Ticks(plan, time, moments, q, s, es);
      RunDelivers(plan, time, q, s, es, moments, columns);
      last := Leave(plan, time, exit);
    }

    /** Takes the loop's exit, if it takes one. */
    method Leave(plan: Plan, time: string -> Option<int>, exit: Exit) returns (last: seq<Frame>)
      requires Valid() && (exit.OnStop? ==> stopCh.closed)
      modifies state, metrics
      ensures Valid() && CursorNow() == old(CursorNow()) && CountNow() == old(CountNow())
      ensures metrics.rowsSent == old(metrics.rowsSent) && last == LastFrames(exit)
    {
      if exit.StillRunning? {
        return [];
      }
      var exits;
      last, exits := Wake(plan, time, if exit.OnCancel? then ContextDone else StopSignalled);
    }

    /**
     * From Start through any run of the loop to a snapshot: the snapshot's cursor and count are those
     * of the stream, the count is the length of the acknowledged log, the batches sent carry exactly
     * that log, and under in-order inserts with unique cursors it is the one-shot answer up to the
     * snapshot's cursor.
     */
    method Observe(
      plan: Plan, max: MaxAnswer, time: string -> Option<int>, moments: seq<Moment>,
      ghost q: Query, ghost table: seq<Row>, ghost es: seq<Event>, ghost columns: seq<string>)
      returns (copy: StreamState?, turns: seq<Turn>)
      requires Valid() && !running && Parses(q, table) && InsertsParse(q, es)
      requires InitialCursor(plan, max, time).Some? && OneLayout(moments, columns)
      requires Drives(plan, time, q, Opened(table, InitialCursor(plan, max, time).value), es, moments)
      modifies this, metrics
      ensures copy != null && fresh(copy)
      ensures var start := InitialCursor(plan, max, time).value;
              var t := Run(q, Opened(table, start), es);
              && copy.cursorValue == t.cursor && copy.rowsSent == |t.acked| == metrics.rowsSent - old(metrics.rowsSent)
              && SentRows(turns) == BatchMaps(columns, t.acked) && RowsPair(SentRows(turns), columns, t.acked)
              && (UniqueCursors(table) && InOrderRun(q, Opened(table, start), es) ==>
                    t.acked
                    == OneShot(t.table, q.filter, if plan.mode == Beginning then 0 else start, copy.cursorValue))
    {
      var frames, started := Start(plan, max, time);
      ghost var start := InitialCursor(plan, max, time).value;
      var last;
      turns, last := RunLoop(plan, time, moments, StillRunning, q, Opened(table, start), es, columns);
      StartCursorIs(plan, max, time);
      OpenedRun(plan, time, q, table, start, es, moments, columns);
      copy := GetState();
    }
  }
}
