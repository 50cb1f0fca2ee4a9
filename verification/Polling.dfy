/** What one poll of an executor computes, and how it refines the stream model. */
module Polling {
  import opened Rows
  import opened Text
  import opened CursorStream
  import opened Compilation
  import opened Decimal
  import opened Drain

  /** One row as the driver yields it: its cells as text, or a scan error. */
  datatype Fetched = ScanError | Cells(values: seq<string>)

  /** What the database returns to a poll. */
  datatype DbAnswer = QueryError | ColumnsError | Answer(columns: seq<string>, rows: seq<Fetched>)

  datatype MaxAnswer = MaxError | MaxNull | MaxText(text: string)

  datatype ErrorKind =
    | InitializationError | NotInitialized | QueryFailedError | ColumnError | CursorColumnMissing
    | ScanFailed | EncodeError | SendError | ContextCancelled

  type RowMap = map<string, string>

  datatype Frame = RowBatch(rows: seq<RowMap>) | Completed | Error(kind: ErrorKind)

  // ---- cursor text ----

  /** Timestamps are counted from Go's zero time, so both cursor types start at zero. */
  const INITIAL_CURSOR := 0

  /** `time` stands for the timestamp layouts. */
  function ParseCursor(cursorType: string, text: string, time: string -> Option<int>): Option<int>
  {
    if IsTimestamp(cursorType) then time(text) else ParseInt64(text)
  }

  /** The start cursor; None is an initialization error. */
  function InitialCursor(plan: Plan, max: MaxAnswer, time: string -> Option<int>): Option<int>
  {
    match plan.mode
    case Beginning => Some(INITIAL_CURSOR)
    case Now =>
      match max
      case MaxError => None
      case MaxNull => Some(INITIAL_CURSOR)
      case MaxText(text) =>
        if text == "" then Some(INITIAL_CURSOR)
        else
          match ParseCursor(plan.cursorType, text, time)
          case None => Some(INITIAL_CURSOR)
          case Some(c) => Some(c)
  }

  /** For an integer cursor, FROM NOW starts at the table's largest 64-bit cursor. */
  lemma NowStartsAtMax(plan: Plan, table: seq<Row>, time: string -> Option<int>)
    requires plan.mode == Now && !IsTimestamp(plan.cursorType)
    requires forall r | r in table && r.cursor.Some? :: MIN_INT64 <= r.cursor.value <= MAX_INT64
    ensures var answer := match MaxCursor(table) case None => MaxNull case Some(c) => MaxText(Format(c));
            InitialCursor(plan, answer, time) == Some(NowStart(table, INITIAL_CURSOR))
  {
    match MaxCursor(table)
    case None =>
    case Some(c) =>
      var x :| x in table && x.cursor == Some(c);
      ParseInvertsFormat(c);
  }

  /** The value that a text has as a cursor of this type; a type that names TIMESTAMP, in any case, is read as one. */
  function ReadCursor(cursorType: string, text: string, time: string -> Option<int>): int
  {
    var read := if HoldsFold(cursorType, "TIMESTAMP") then time(text) else ParseInt64(text);
    if read.Some? then read.value else 0
  }

  /**
   * Where a stream starts: at 0 from the beginning, whatever the table holds; from now on at the
   * largest cursor, or at 0 when there is none that can be read.  Only a failing MAX prevents it.
   */
  lemma StartCursorIs(plan: Plan, max: MaxAnswer, time: string -> Option<int>)
    ensures plan.mode == Beginning ==> InitialCursor(plan, max, time) == Some(0)
    ensures InitialCursor(plan, max, time).None? <==> plan.mode == Now && max.MaxError?
    ensures plan.mode == Now && max.MaxNull? ==> InitialCursor(plan, max, time) == Some(0)
    ensures plan.mode == Now && max.MaxText? ==>
              InitialCursor(plan, max, time)
              == Some(if max.text == "" then 0 else ReadCursor(plan.cursorType, max.text, time))
  {
    HoldsFoldIff(plan.cursorType, "TIMESTAMP");
    UpperIsSame("TIMESTAMP");
  }

  // ---- what one poll computes ----

  /** A row map: a repeated column name keeps its last cell. */
  function ToRowMap(columns: seq<string>, values: seq<string>): RowMap
    requires |columns| == |values|
  {
    if columns == [] then map[]
    else
      var n := |columns| - 1;
      ToRowMap(columns[..n], values[..n])[columns[n] := values[n]]
  }

  /** No later column has this column's name. */
  predicate LastOfName(columns: seq<string>, k: nat)
    requires k < |columns|
  {
    forall j | k < j < |columns| :: columns[j] != columns[k]
  }

  /** The row has exactly these columns, and under each the cell that stands last under that name. */
  ghost predicate Pairs(row: RowMap, columns: seq<string>, values: seq<string>)
  {
    && |columns| == |values| && (forall name :: name in row <==> name in columns)
    && forall k | 0 <= k < |columns| && LastOfName(columns, k) :: row[columns[k]] == values[k]
  }

  lemma PairsSnoc(row: RowMap, columns: seq<string>, values: seq<string>, name: string, value: string)
    requires Pairs(row, columns, values)
    ensures Pairs(row[name := value], columns + [name], values + [value])
  {
    var wider := columns + [name];
    forall k | 0 <= k < |columns| && LastOfName(wider, k) ensures LastOfName(columns, k) && columns[k] != name {
      assert wider[|columns|] == name && wider[k] == columns[k];
      assert forall j | k < j < |columns| :: wider[j] == columns[j];
    }
  }

  /** A row map pairs every column with its own cell. */
  lemma {:induction false} RowPairs(columns: seq<string>, values: seq<string>)
    requires |columns| == |values|
    ensures Pairs(ToRowMap(columns, values), columns, values)
  {
    if columns != [] {
      var n := |columns| - 1;
      RowPairs(columns[..n], values[..n]);
      PairsSnoc(ToRowMap(columns[..n], values[..n]), columns[..n], values[..n], columns[n], values[n]);
      assert columns == columns[..n] + [columns[n]] && values == values[..n] + [values[n]];
    }
  }

  /** Each map pairs the columns with the cells at its position. */
  ghost predicate MapsPair(maps: seq<RowMap>, columns: seq<string>, cells: seq<seq<string>>)
  {
    |maps| == |cells| && forall i | 0 <= i < |maps| :: Pairs(maps[i], columns, cells[i])
  }

  /** Each map pairs the columns with the cells of the row at its position. */
  ghost predicate RowsPair(maps: seq<RowMap>, columns: seq<string>, rows: seq<Row>)
  {
    |maps| == |rows| && forall i | 0 <= i < |maps| :: Pairs(maps[i], columns, rows[i].cells)
  }

  ghost predicate Wide(rows: seq<Fetched>, width: nat)
  {
    forall i | 0 <= i < |rows| && rows[i].Cells? :: |rows[i].values| == width
  }

  /** The cells of the rows that could be scanned, in order. */
  function ScannedCells(rows: seq<Fetched>): seq<seq<string>>
  {
    if rows == [] then []
    else
      var n := |rows| - 1;
      ScannedCells(rows[..n]) + if rows[n].Cells? then [rows[n].values] else []
  }

  function ScanErrorCount(rows: seq<Fetched>): nat
  {
    if rows == [] then 0
    else
      var n := |rows| - 1;
      ScanErrorCount(rows[..n]) + if rows[n].Cells? then 0 else 1
  }

  lemma {:induction false} ScannedWide(rows: seq<Fetched>, width: nat)
    requires Wide(rows, width)
    ensures forall i | 0 <= i < |ScannedCells(rows)| :: |ScannedCells(rows)[i]| == width
  {
    if rows != [] {
      ScannedWide(rows[..|rows| - 1], width);
    }
  }

  function RowMaps(columns: seq<string>, cells: seq<seq<string>>): (maps: seq<RowMap>)
    requires forall i | 0 <= i < |cells| :: |cells[i]| == |columns|
    ensures |maps| == |cells|
  {
    seq(|cells|, i requires 0 <= i < |cells| => ToRowMap(columns, cells[i]))
  }

  lemma RowMapsPair(columns: seq<string>, cells: seq<seq<string>>)
    requires forall i | 0 <= i < |cells| :: |cells[i]| == |columns|
    ensures MapsPair(RowMaps(columns, cells), columns, cells)
  {
    forall i | 0 <= i < |cells| ensures Pairs(RowMaps(columns, cells)[i], columns, cells[i]) {
      RowPairs(columns, cells[i]);
    }
  }

  lemma PrefixStep(rows: seq<Fetched>, k: nat)
    requires k < |rows|
    ensures ScannedCells(rows[..k + 1]) == ScannedCells(rows[..k]) + if rows[k].Cells? then [rows[k].values] else []
    ensures ScanErrorCount(rows[..k + 1]) == ScanErrorCount(rows[..k]) + if rows[k].Cells? then 0 else 1
  {
    assert rows[..k + 1][..k] == rows[..k];
  }

  lemma RowMapsSnoc(columns: seq<string>, cells: seq<seq<string>>, values: seq<string>)
    requires forall i | 0 <= i < |cells| :: |cells[i]| == |columns|
    ensures |values| == |columns|
            ==> RowMaps(columns, cells + [values]) == RowMaps(columns, cells) + [ToRowMap(columns, values)]
  {
  }

  function Errors(n: nat, kind: ErrorKind): (frames: seq<Frame>)
    ensures |frames| == n
  {
    seq(n, i => Error(kind))
  }

  /** The new cursor and count, the frames attempted, and the changes to the global counters. */
  datatype PollResult = PollResult(cursor: int, rowsSent: int, frames: seq<Frame>, metricRows: nat, metricErrors: nat)

  /** The meaning of a poll: batch the scanned rows, send once, then trust the last scanned row's cursor cell. */
  ghost function PollMeaning(
    plan: Plan, time: string -> Option<int>, cursor: int, rowsSent: int, db: DbAnswer, encodes: bool,
        sends: bool): PollResult
    requires db.Answer? ==> Wide(db.rows, |db.columns|)
  {
    match db
    case QueryError => PollResult(cursor, rowsSent, [Error(QueryFailedError)], 0, 1)
    case ColumnsError => PollResult(cursor, rowsSent, [Error(ColumnError)], 0, 1)
    case Answer(columns, rows) =>
      var index := FirstOf(columns, plan.cursorColumn);
      if index == |columns| then PollResult(cursor, rowsSent, [Error(CursorColumnMissing)], 0, 1)
      else
        var cells := ScannedCells(rows);
        ScannedWide(rows, |columns|);
        var failed := Errors(ScanErrorCount(rows), ScanFailed);
        var batch := RowBatch(RowMaps(columns, cells));
        if cells == [] then PollResult(cursor, rowsSent, failed, 0, |failed|)
        else if !encodes then PollResult(cursor, rowsSent, failed + [Error(EncodeError)], 0, |failed| + 2)
        else if !sends then PollResult(cursor, rowsSent, failed + [batch, Error(SendError)], 0, |failed| + 2)
        else
          match ParseCursor(plan.cursorType, cells[|cells| - 1][index], time)
          case None => PollResult(cursor, rowsSent, failed + [batch], |cells|, |failed|)
          case Some(c) => PollResult(c, rowsSent + |cells|, failed + [batch], |cells|, |failed|)
  }

  // ---- what a poll reports ----

  /** Where a poll gets as far as its row loop, and where that loop finds a row. */
  predicate ReachesRows(plan: Plan, db: DbAnswer)
  {
    db.Answer? && plan.cursorColumn in db.columns
  }

  predicate FindsRows(plan: Plan, db: DbAnswer)
  {
    ReachesRows(plan, db) && exists k | 0 <= k < |db.rows| :: db.rows[k].Cells?
  }

  function ErrorFrames(frames: seq<Frame>): nat
  {
    if frames == [] then 0 else (if frames[0].Error? then 1 else 0) + ErrorFrames(frames[1..])
  }

  lemma {:induction false} ErrorFramesConcat(a: seq<Frame>, b: seq<Frame>)
    ensures ErrorFrames(a + b) == ErrorFrames(a) + ErrorFrames(b)
  {
    if a == [] {
      assert a + b == b;
    } else {
      assert (a + b)[1..] == a[1..] + b;
      ErrorFramesConcat(a[1..], b);
    }
  }

  lemma {:induction false} AllErrorFrames(n: nat, kind: ErrorKind)
    ensures ErrorFrames(Errors(n, kind)) == n
  {
    if n > 0 {
      assert Errors(n, kind)[1..] == Errors(n - 1, kind);
      AllErrorFrames(n - 1, kind);
    }
  }

  lemma {:induction false} ScansIff(rows: seq<Fetched>)
    ensures ScannedCells(rows) != [] <==> exists k | 0 <= k < |rows| :: rows[k].Cells?
    ensures ScanErrorCount(rows) > 0 <==> exists k | 0 <= k < |rows| :: rows[k].ScanError?
  {
    if rows != [] {
      var n := |rows| - 1;
      ScansIff(rows[..n]);
      assert forall k | 0 <= k < n :: rows[..n][k] == rows[k];
    }
  }

  lemma HasColumnIff(columns: seq<string>, name: string)
    ensures name in columns <==> FirstOf(columns, name) < |columns|
  {
  }

  lemma ErrorsHave(n: nat, kind: ErrorKind, frame: Frame)
    ensures frame in Errors(n, kind) <==> n > 0 && frame == Error(kind)
  {
    assert n > 0 ==> Errors(n, kind)[0] == Error(kind);
  }

  /** The closing frames of a poll that got rows. */
  function Closing(maps: seq<RowMap>, encodes: bool, sends: bool): seq<Frame>
  {
    if !encodes then [Error(EncodeError)]
    else if !sends then [RowBatch(maps), Error(ErrorKind.SendError)]
    else [RowBatch(maps)]
  }

  lemma ClosingErrors(maps: seq<RowMap>, encodes: bool, sends: bool)
    ensures ErrorFrames(Closing(maps, encodes, sends)) == if encodes && sends then 0 else 1
  {
    OneFrame(Error(EncodeError));
    OneFrame(Error(ErrorKind.SendError));
    OneFrame(RowBatch(maps));
    ErrorFramesConcat([RowBatch(maps)], [Error(ErrorKind.SendError)]);
    assert [RowBatch(maps)] + [Error(ErrorKind.SendError)] == [RowBatch(maps), Error(ErrorKind.SendError)];
  }

  lemma OneFrame(frame: Frame)
    ensures ErrorFrames([frame]) == if frame.Error? then 1 else 0
  {
    assert [frame][1..] == [];
  }

  /** The frames of a poll that reaches its row loop: a report per failed scan, then what the batch comes to. */
  lemma LoopFrames(plan: Plan, time: string -> Option<int>, cursor: int, rowsSent: int, db: DbAnswer, encodes: bool,
                   sends: bool)
    requires ReachesRows(plan, db) && Wide(db.rows, |db.columns|)
    ensures forall i | 0 <= i < |ScannedCells(db.rows)| :: |ScannedCells(db.rows)[i]| == |db.columns|
    ensures var r := PollMeaning(plan, time, cursor, rowsSent, db, encodes, sends);
            var cells, n := ScannedCells(db.rows), ScanErrorCount(db.rows);
            && r.frames == Errors(n, ScanFailed)
                + (if cells == [] then [] else Closing(RowMaps(db.columns, cells), encodes, sends))
            && r.metricErrors == n + if cells == [] || (encodes && sends) then 0 else 2
  {
    HasColumnIff(db.columns, plan.cursorColumn);
    ScannedWide(db.rows, |db.columns|);
  }

  /** Every error that a poll meets is reported under its own kind, and nothing else is. */
  lemma PollReports(plan: Plan, time: string -> Option<int>, cursor: int, rowsSent: int, db: DbAnswer, encodes: bool,
                    sends: bool)
    requires db.Answer? ==> Wide(db.rows, |db.columns|)
    ensures var frames := PollMeaning(plan, time, cursor, rowsSent, db, encodes, sends).frames;
            && (Error(QueryFailedError) in frames <==> db.QueryError?)
            && (Error(ColumnError) in frames <==> db.ColumnsError?)
            && (Error(CursorColumnMissing) in frames <==> db.Answer? && plan.cursorColumn !in db.columns)
            && (Error(ScanFailed) in frames
                <==> ReachesRows(plan, db) && exists k | 0 <= k < |db.rows| :: db.rows[k].ScanError?)
            && (Error(EncodeError) in frames <==> FindsRows(plan, db) && !encodes)
            && (Error(ErrorKind.SendError) in frames <==> FindsRows(plan, db) && encodes && !sends)
            && Error(NotInitialized) !in frames && Error(InitializationError) !in frames
  {
    if ReachesRows(plan, db) {
      LoopFrames(plan, time, cursor, rowsSent, db, encodes, sends);
      ScansIff(db.rows);
      forall frame | true ensures frame in Errors(ScanErrorCount(db.rows), ScanFailed)
          <==> ScanErrorCount(db.rows) > 0 && frame == Error(ScanFailed) {
        ErrorsHave(ScanErrorCount(db.rows), ScanFailed, frame);
      }
    } else if db.Answer? {
      HasColumnIff(db.columns, plan.cursorColumn);
    }
  }

  /** The error metric counts every error frame once, and a batch that was not sent once more. */
  lemma PollCountsErrors(plan: Plan, time: string -> Option<int>, cursor: int, rowsSent: int, db: DbAnswer,
                         encodes: bool, sends: bool)
    requires db.Answer? ==> Wide(db.rows, |db.columns|)
    ensures var r := PollMeaning(plan, time, cursor, rowsSent, db, encodes, sends);
            r.metricErrors == ErrorFrames(r.frames) + if FindsRows(plan, db) && !(encodes && sends) then 1 else 0
  {
    if ReachesRows(plan, db) {
      var n, cells := ScanErrorCount(db.rows), ScannedCells(db.rows);
      LoopFrames(plan, time, cursor, rowsSent, db, encodes, sends);
      ScansIff(db.rows);
      AllErrorFrames(n, ScanFailed);
      var maps := RowMaps(db.columns, cells);
      ClosingErrors(maps, encodes, sends);
      ErrorFramesConcat(Errors(n, ScanFailed), if cells == [] then [] else Closing(maps, encodes, sends));
    } else if db.Answer? {
      HasColumnIff(db.columns, plan.cursorColumn);
    }
  }

  /** A poll sends at most one batch; its maps pair the columns with the cells of the scanned rows, in order. */
  lemma PollPairs(plan: Plan, time: string -> Option<int>, cursor: int, rowsSent: int, db: DbAnswer, encodes: bool,
                  sends: bool)
    requires db.Answer? ==> Wide(db.rows, |db.columns|)
    ensures var frames := PollMeaning(plan, time, cursor, rowsSent, db, encodes, sends).frames;
            && (forall i | 0 <= i < |frames| && frames[i].RowBatch? ::
                  ReachesRows(plan, db) && MapsPair(frames[i].rows, db.columns, ScannedCells(db.rows)))
            && ((exists i | 0 <= i < |frames| :: frames[i].RowBatch?) <==> FindsRows(plan, db) && encodes)
  {
    if ReachesRows(plan, db) {
      LoopFrames(plan, time, cursor, rowsSent, db, encodes, sends);
      ScansIff(db.rows);
      RowMapsPair(db.columns, ScannedCells(db.rows));
      BatchInClosing(Errors(ScanErrorCount(db.rows), ScanFailed), RowMaps(db.columns, ScannedCells(db.rows)), encodes,
          sends);
    } else if db.Answer? {
      HasColumnIff(db.columns, plan.cursorColumn);
    }
  }

  lemma BatchInClosing(reports: seq<Frame>, maps: seq<RowMap>, encodes: bool, sends: bool)
    requires forall i | 0 <= i < |reports| :: !reports[i].RowBatch?
    ensures var frames := reports + Closing(maps, encodes, sends);
            && (forall i | 0 <= i < |frames| && frames[i].RowBatch? :: frames[i].rows == maps)
            && ((exists i | 0 <= i < |frames| :: frames[i].RowBatch?) <==> encodes)
  {
    var frames := reports + Closing(maps, encodes, sends);
    assert encodes ==> frames[|reports|] == RowBatch(maps);
  }

  // ---- refinement ----

  /** What the driver yields for the rows of an answer read so far. */
  ghost predicate Renders(order: seq<Row>, scanned: seq<bool>, rows: seq<Fetched>)
  {
    && |rows| == |scanned| <= |order|
    && forall i | 0 <= i < |rows| :: rows[i] == if scanned[i] then Cells(order[i].cells) else ScanError
  }

  lemma {:induction false} ScannedIsBatch(order: seq<Row>, scanned: seq<bool>, rows: seq<Fetched>)
    requires Renders(order, scanned, rows)
    ensures |ScannedCells(rows)| == |Batch(order, scanned)|
    ensures ScannedCells(rows) == [] <==> Batch(order, scanned) == []
    ensures forall i | 0 <= i < |ScannedCells(rows)| :: ScannedCells(rows)[i] == Batch(order, scanned)[i].cells
  {
    if rows != [] {
      var n := |rows| - 1;
      ScannedIsBatch(order, scanned[..n], rows[..n]);
    }
  }

  /** The outcome of the abstract step that matches what the encoder and the sender did. */
  ghost predicate Matches(outcome: Outcome, encodes: bool, sends: bool)
  {
    match outcome
    case EncodeFailed => !encodes
    case SendFailed(_) => encodes && !sends
    case Sent(_) => encodes && sends
  }

  ghost function CellMap(columns: seq<string>, r: Row): RowMap
  {
    if |columns| == |r.cells| then ToRowMap(columns, r.cells) else map[]
  }

  ghost function BatchMaps(columns: seq<string>, batch: seq<Row>): (maps: seq<RowMap>)
    ensures |maps| == |batch|
  {
    seq(|batch|, i requires 0 <= i < |batch| => CellMap(columns, batch[i]))
  }

  lemma BatchMapsPair(columns: seq<string>, batch: seq<Row>)
    requires forall i | 0 <= i < |batch| :: |batch[i].cells| == |columns|
    ensures RowsPair(BatchMaps(columns, batch), columns, batch)
  {
    forall i | 0 <= i < |batch| ensures Pairs(BatchMaps(columns, batch)[i], columns, batch[i].cells) {
      RowPairs(columns, batch[i].cells);
    }
  }

  /** The answer's rows render under these columns, and the model's parser reads the cursor cell. */
  ghost predicate Compatible(plan: Plan, time: string -> Option<int>, q: Query, columns: seq<string>, order: seq<Row>)
  {
    var index := FirstOf(columns, plan.cursorColumn);
    && index < |columns|
    && forall i | 0 <= i < |order| ::
         |order[i].cells| == |columns| && q.parse(order[i]) == ParseCursor(plan.cursorType, order[i].cells[index], time)
  }

  lemma {:induction false} BatchFromOrder(order: seq<Row>, scanned: seq<bool>, k: nat) returns (i: nat)
    requires |scanned| <= |order| && k < |Batch(order, scanned)|
    ensures i < |order| && order[i] == Batch(order, scanned)[k]
  {
    var n := |scanned| - 1;
    if k < |Batch(order, scanned[..n])| {
      i := BatchFromOrder(order, scanned[..n], k);
    } else {
      i := n;
    }
  }

  lemma BatchIsWide(
    plan: Plan, time: string -> Option<int>, q: Query, columns: seq<string>, order: seq<Row>, scanned: seq<bool>)
    requires |scanned| <= |order| && Compatible(plan, time, q, columns, order)
    ensures forall i | 0 <= i < |Batch(order, scanned)| :: |Batch(order, scanned)[i].cells| == |columns|
  {
    forall k | 0 <= k < |Batch(order, scanned)| ensures |Batch(order, scanned)[k].cells| == |columns| {
      var i := BatchFromOrder(order, scanned, k);
    }
  }

  lemma LastCursorAgrees(
    plan: Plan, time: string -> Option<int>, q: Query, columns: seq<string>, order: seq<Row>, scanned: seq<bool>,
    rows: seq<Fetched>)
    requires Renders(order, scanned, rows) && Compatible(plan, time, q, columns, order) && Batch(order, scanned) != []
    ensures var cells, batch := ScannedCells(rows), Batch(order, scanned);
            var index := FirstOf(columns, plan.cursorColumn);
            && |cells| == |batch| && |cells[|cells| - 1]| == |columns|
            && ParseCursor(plan.cursorType, cells[|cells| - 1][index], time) == q.parse(batch[|batch| - 1])
  {
    ScannedIsBatch(order, scanned, rows);
    var i := BatchFromOrder(order, scanned, |Batch(order, scanned)| - 1);
  }

  lemma RowMapsAreBatch(columns: seq<string>, order: seq<Row>, scanned: seq<bool>, rows: seq<Fetched>)
    requires Renders(order, scanned, rows) && Wide(rows, |columns|)
    ensures forall i | 0 <= i < |ScannedCells(rows)| :: |ScannedCells(rows)[i]| == |columns|
    ensures RowMaps(columns, ScannedCells(rows)) == BatchMaps(columns, Batch(order, scanned))
  {
    ScannedWide(rows, |columns|);
    ScannedIsBatch(order, scanned, rows);
  }

  /**
   * The concrete poll refines the abstract one: for any legal answer, any truncation, any scan
   * failures and any outcome, the cursor and the counter agree, and the global row counter grows
   * by exactly the acknowledged rows.
   */
  lemma PollRefinesStep(plan: Plan, time: string -> Option<int>, q: Query, s: Stream, e: Event,
                        columns: seq<string>, rows: seq<Fetched>, encodes: bool, sends: bool)
    requires Legal(q, s, e) && e.Poll? && Renders(e.order, e.scanned, rows) && Matches(e.outcome, encodes, sends)
    requires Wide(rows, |columns|) && Compatible(plan, time, q, columns, e.order)
    ensures var result := PollMeaning(plan, time, s.cursor, s.rowsSent, Answer(columns, rows), encodes, sends);
            var t := Next(q, s, e);
            result.cursor == t.cursor && result.rowsSent == t.rowsSent && result.metricRows == |t.acked| - |s.acked|
  {
    StepEffect(q, s, e);
    if Batch(e.order, e.scanned) != [] && encodes && sends {
      SentMeaning(plan, time, q, s.cursor, s.rowsSent, columns, e.order, e.scanned, rows);
    } else {
      UnsentMeaning(plan, time, s.cursor, s.rowsSent, columns, e.order, e.scanned, rows, encodes, sends);
    }
  }

  /** What the database, the encoder and the sender do in a poll amounts to this step of the stream model. */
  ghost predicate Answers(
    plan: Plan, time: string -> Option<int>, q: Query, s: Stream, e: Event, db: DbAnswer, encodes: bool, sends: bool)
  {
    && Legal(q, s, e)
    && match e
       case Insert(_) => false
       case QueryFailed => !db.Answer? || (Wide(db.rows, |db.columns|)
           && FirstOf(db.columns, plan.cursorColumn) == |db.columns|)
       case Poll(order, scanned, outcome) =>
         && db.Answer? && Renders(order, scanned, db.rows) && Matches(outcome, encodes, sends)
         && Wide(db.rows, |db.columns|) && Compatible(plan, time, q, db.columns, order)
  }

  /** Whatever a poll amounts to, its cursor, counter and row metric agree with the stream model. */
  lemma AnswersRefine(
    plan: Plan, time: string -> Option<int>, q: Query, s: Stream, e: Event, db: DbAnswer, encodes: bool, sends: bool)
    requires Answers(plan, time, q, s, e, db, encodes, sends)
    ensures db.Answer? ==> Wide(db.rows, |db.columns|)
    ensures var result := PollMeaning(plan, time, s.cursor, s.rowsSent, db, encodes, sends);
            var t := Next(q, s, e);
            result.cursor == t.cursor && result.rowsSent == t.rowsSent && result.metricRows == |t.acked| - |s.acked|
  {
    if e.Poll? {
      PollRefinesStep(plan, time, q, s, e, db.columns, db.rows, encodes, sends);
    }
  }

  /** A poll's effect on cursor, counter and log length in the stream model. */
  lemma StepEffect(q: Query, s: Stream, e: Event)
    requires Legal(q, s, e) && e.Poll?
    ensures var batch, t := Batch(e.order, e.scanned), Next(q, s, e);
            if batch != [] && e.outcome.Sent? then
              && |t.acked| == |s.acked| + |batch|
              && (match q.parse(batch[|batch| - 1])
                  case None => t.cursor == s.cursor && t.rowsSent == s.rowsSent
                  case Some(c) => t.cursor == c && t.rowsSent == s.rowsSent + |batch|)
            else t.cursor == s.cursor && t.rowsSent == s.rowsSent && t.acked == s.acked
  {
  }

  lemma SentMeaning(plan: Plan, time: string -> Option<int>, q: Query, cursor: int, rowsSent: int,
                    columns: seq<string>, order: seq<Row>, scanned: seq<bool>, rows: seq<Fetched>)
    requires Renders(order, scanned, rows) && Wide(rows, |columns|) && Compatible(plan, time, q, columns, order)
    requires Batch(order, scanned) != []
    ensures var batch := Batch(order, scanned);
            var result := PollMeaning(plan, time, cursor, rowsSent, Answer(columns, rows), true, true);
            && result.metricRows == |batch|
            && (match q.parse(batch[|batch| - 1])
                case None => result.cursor == cursor && result.rowsSent == rowsSent
                case Some(c) => result.cursor == c && result.rowsSent == rowsSent + |batch|)
  {
    LastCursorAgrees(plan, time, q, columns, order, scanned, rows);
  }

  lemma UnsentMeaning(plan: Plan, time: string -> Option<int>, cursor: int, rowsSent: int,
                      columns: seq<string>, order: seq<Row>, scanned: seq<bool>, rows: seq<Fetched>, encodes: bool,
                          sends: bool)
    requires Renders(order, scanned, rows) && Wide(rows, |columns|)
    requires Batch(order, scanned) == [] || !encodes || !sends
    ensures var result := PollMeaning(plan, time, cursor, rowsSent, Answer(columns, rows), encodes, sends);
            result.cursor == cursor && result.rowsSent == rowsSent && result.metricRows == 0
  {
    ScannedIsBatch(order, scanned, rows);
  }

  /** What the poll hands to the sender: one report per failed scan, then the batch exactly as the model has it. */
  lemma PollSendsBatch(plan: Plan, time: string -> Option<int>, q: Query, s: Stream, e: Event,
                       columns: seq<string>, rows: seq<Fetched>, encodes: bool, sends: bool)
    requires Legal(q, s, e) && e.Poll? && Renders(e.order, e.scanned, rows)
    requires Wide(rows, |columns|) && Compatible(plan, time, q, columns, e.order)
    ensures var batch := Batch(e.order, e.scanned);
            PollMeaning(plan, time, s.cursor, s.rowsSent, Answer(columns, rows), encodes, sends).frames
            == Errors(FailedScans(e.scanned), ScanFailed)
               + if batch == [] then [] else if !encodes then [Error(EncodeError)]
                 else [RowBatch(BatchMaps(columns, batch))] + if sends then [] else [Error(ErrorKind.SendError)]
    ensures RowsPair(BatchMaps(columns, Batch(e.order, e.scanned)), columns, Batch(e.order, e.scanned))
  {
    BatchIsWide(plan, time, q, columns, e.order, e.scanned);
    BatchMapsPair(columns, Batch(e.order, e.scanned));
    ScannedIsBatch(e.order, e.scanned, rows);
    ScanErrorsCounted(e.order, e.scanned, rows);
    RowMapsAreBatch(columns, e.order, e.scanned, rows);
  }

  function FailedScans(scanned: seq<bool>): nat
  {
    if scanned == [] then 0
    else FailedScans(scanned[..|scanned| - 1]) + if scanned[|scanned| - 1] then 0 else 1
  }

  lemma {:induction false} ScanErrorsCounted(order: seq<Row>, scanned: seq<bool>, rows: seq<Fetched>)
    requires Renders(order, scanned, rows)
    ensures ScanErrorCount(rows) == FailedScans(scanned)
  {
    if rows != [] {
      var n := |rows| - 1;
      ScanErrorsCounted(order, scanned[..n], rows[..n]);
    }
  }

  // ---- the rows a run hands over ----

  /** The frames of one poll, and whether its send succeeded. */
  datatype Turn = Turn(frames: seq<Frame>, sends: bool)

  /** The rows in the batches among these frames, in order. */
  function BatchRows(frames: seq<Frame>): seq<RowMap>
  {
    if frames == [] then [] else (if frames[0].RowBatch? then frames[0].rows else []) + BatchRows(frames[1..])
  }

  /** The rows of all batches whose send succeeded, in order. */
  function SentRows(turns: seq<Turn>): seq<RowMap>
  {
    if turns == [] then []
    else (if turns[0].sends then BatchRows(turns[0].frames) else []) + SentRows(turns[1..])
  }

  lemma {:induction false} SentRowsConcat(a: seq<Turn>, b: seq<Turn>)
    ensures SentRows(a + b) == SentRows(a) + SentRows(b)
  {
    if a == [] {
      assert a + b == b;
    } else {
      assert (a + b)[1..] == a[1..] + b;
      SentRowsConcat(a[1..], b);
    }
  }

  lemma OneTurnRows(turn: Turn)
    ensures SentRows([turn]) == if turn.sends then BatchRows(turn.frames) else []
  {
    assert [turn][1..] == [];
  }

  lemma {:induction false} BatchRowsConcat(a: seq<Frame>, b: seq<Frame>)
    ensures BatchRows(a + b) == BatchRows(a) + BatchRows(b)
  {
    if a == [] {
      assert a + b == b;
    } else {
      assert (a + b)[1..] == a[1..] + b;
      BatchRowsConcat(a[1..], b);
    }
  }

  lemma {:induction false} ErrorsHoldNoRows(n: nat, kind: ErrorKind)
    ensures BatchRows(Errors(n, kind)) == []
  {
    if n > 0 {
      assert Errors(n, kind)[1..] == Errors(n - 1, kind);
      ErrorsHoldNoRows(n - 1, kind);
    }
  }

  lemma OneErrorHoldsNoRows(kind: ErrorKind)
    ensures BatchRows([Error(kind)]) == []
  {
    assert [Error(kind)][1..] == [];
  }

  lemma OneBatchRows(rows: seq<RowMap>)
    ensures BatchRows([RowBatch(rows)]) == rows
  {
    assert [RowBatch(rows)][1..] == [];
  }

  lemma PollFrameRows(n: nat, maps: seq<RowMap>, empty: bool, encodes: bool, sends: bool)
    ensures var frames := Errors(n, ScanFailed)
                          + if empty then [] else if !encodes then [Error(EncodeError)]
                            else [RowBatch(maps)] + if sends then [] else [Error(ErrorKind.SendError)];
            sends ==> BatchRows(frames) == if empty || !encodes then [] else maps
  {
    ErrorsHoldNoRows(n, ScanFailed);
    OneErrorHoldsNoRows(EncodeError);
    OneBatchRows(maps);
    BatchRowsConcat(Errors(n, ScanFailed), []);
    BatchRowsConcat(Errors(n, ScanFailed), [Error(EncodeError)]);
    BatchRowsConcat(Errors(n, ScanFailed), [RowBatch(maps)]);
    assert [RowBatch(maps)] + [] == [RowBatch(maps)];
  }

  /** The rows a poll's frames carried out: those of its batch if it was sent, and none otherwise. */
  lemma PollRows(plan: Plan, time: string -> Option<int>, q: Query, s: Stream, e: Event, db: DbAnswer, encodes: bool,
                 sends: bool)
    requires Answers(plan, time, q, s, e, db, encodes, sends) && e.Poll?
    ensures var frames := PollMeaning(plan, time, s.cursor, s.rowsSent, db, encodes, sends).frames;
            (if sends then BatchRows(frames) else [])
            == BatchMaps(db.columns, if e.outcome.Sent? then Batch(e.order, e.scanned) else [])
  {
    PollSendsBatch(plan, time, q, s, e, db.columns, db.rows, encodes, sends);
    var batch := Batch(e.order, e.scanned);
    PollFrameRows(FailedScans(e.scanned), BatchMaps(db.columns, batch), batch == [], encodes, sends);
  }

  /** What a poll that amounts to `e` adds to the rows sent is what `e` adds to the acknowledged log. */
  lemma PollDelivers(plan: Plan, time: string -> Option<int>, q: Query, s: Stream, e: Event, db: DbAnswer,
                     encodes: bool, sends: bool, columns: seq<string>)
    requires Answers(plan, time, q, s, e, db, encodes, sends) && (db.Answer? ==> db.columns == columns)
    ensures db.Answer? ==> Wide(db.rows, |db.columns|)
    ensures var frames := PollMeaning(plan, time, s.cursor, s.rowsSent, db, encodes, sends).frames;
            var rows := if sends then BatchRows(frames) else [];
            |Next(q, s, e).acked| >= |s.acked| && rows == BatchMaps(columns, Next(q, s, e).acked[|s.acked|..])
  {
    if e.Poll? {
      PollRows(plan, time, q, s, e, db, encodes, sends);
      AckedGrows(q, s, e);
    } else {
      FailedPollRows(plan, time, s, db, encodes, sends);
    }
  }

  lemma FailedPollRows(plan: Plan, time: string -> Option<int>, s: Stream, db: DbAnswer, encodes: bool, sends: bool)
    requires db.Answer? ==> Wide(db.rows, |db.columns|) && FirstOf(db.columns, plan.cursorColumn) == |db.columns|
    ensures BatchRows(PollMeaning(plan, time, s.cursor, s.rowsSent, db, encodes, sends).frames) == []
  {
    OneErrorHoldsNoRows(QueryFailedError);
    OneErrorHoldsNoRows(ColumnError);
    OneErrorHoldsNoRows(CursorColumnMissing);
  }

  lemma AckedGrows(q: Query, s: Stream, e: Event)
    requires Legal(q, s, e) && e.Poll?
    ensures var grown := if e.outcome.Sent? then Batch(e.order, e.scanned) else [];
            Next(q, s, e).acked == s.acked + grown && (s.acked + grown)[|s.acked|..] == grown
  {
  }

  lemma BatchMapsConcat(columns: seq<string>, a: seq<Row>, b: seq<Row>)
    ensures BatchMaps(columns, a + b) == BatchMaps(columns, a) + BatchMaps(columns, b)
  {
  }
}
