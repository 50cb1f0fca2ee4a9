/** From acknowledged rows to the bytes of a query's stream and back to the rows its client reads. */
module EndToEnd {
  import opened Rows
  import opened CursorStream
  import opened Delivery
  import opened Compilation
  import opened Polling
  import opened Execution
  import opened Sessions
  import Wire

  // ---- one query's part in a session ----

  /** The data one query hands over, in order, among the requests of all queries. */
  function Own(requests: seq<Request>, key: string): seq<Data>
  {
    if requests == [] then []
    else (if requests[0].key == key then [requests[0].data] else []) + Own(requests[1..], key)
  }

  /** What became of a send: reported successful, and bytes out. */
  datatype Fate = Fate(ok: bool, bytesOut: bool)

  /** The fates of one query's sends. */
  function Fates(t: Table, cap: int, requests: seq<Request>, key: string): (fates: seq<Fate>)
    ensures |fates| == |Own(requests, key)|
    ensures forall i | 0 <= i < |fates| :: fates[i].ok ==> fates[i].bytesOut
    decreases |requests|
  {
    if requests == [] then []
    else
      var r := requests[0];
      var result := Send(t, cap, r.key, r.data, r.attempt);
      (if r.key == key then [Fate(result.ok, result.bytesOut)] else []) + Fates(result.table, cap, requests[1..], key)
  }

  /** The elements whose flag is set. */
  function Kept<T>(xs: seq<T>, flags: seq<bool>): seq<T>
    requires |xs| == |flags|
  {
    if xs == [] then [] else (if flags[0] then [xs[0]] else []) + Kept(xs[1..], flags[1..])
  }

  function Outs(fates: seq<Fate>): (flags: seq<bool>)
    ensures |flags| == |fates| && forall i | 0 <= i < |flags| :: flags[i] == fates[i].bytesOut
  {
    seq(|fates|, i requires 0 <= i < |fates| => fates[i].bytesOut)
  }

  function Oks(fates: seq<Fate>): (flags: seq<bool>)
    ensures |flags| == |fates| && forall i | 0 <= i < |flags| :: flags[i] == fates[i].ok
  {
    seq(|fates|, i requires 0 <= i < |fates| => fates[i].ok)
  }

  /** What reaches a query's stream is what it handed over, less the data whose bytes stayed in. */
  lemma {:induction false} ReachedIsKept(t: Table, cap: int, requests: seq<Request>, key: string)
    ensures Reached(t, cap, requests, key) == Kept(Own(requests, key), Outs(Fates(t, cap, requests, key)))
    decreases |requests|
  {
    if requests != [] {
      var r := requests[0];
      var result := Send(t, cap, r.key, r.data, r.attempt);
      ReachedIsKept(result.table, cap, requests[1..], key);
      var own, fates := Own(requests[1..], key), Fates(result.table, cap, requests[1..], key);
      if r.key == key {
        KeptCons(r.data, own, result.bytesOut, Outs(fates));
        assert Outs(Fates(t, cap, requests, key)) == [result.bytesOut] + Outs(fates);
      } else {
        OthersSkipped(t, cap, requests, key);
      }
    }
  }

  lemma OthersSkipped(t: Table, cap: int, requests: seq<Request>, key: string)
    requires requests != [] && requests[0].key != key
    ensures var r := requests[0];
            var next := Send(t, cap, r.key, r.data, r.attempt).table;
            && Own(requests, key) == Own(requests[1..], key)
            && Fates(t, cap, requests, key) == Fates(next, cap, requests[1..], key)
            && Reached(t, cap, requests, key) == Reached(next, cap, requests[1..], key)
  {
    var r := requests[0];
    var next := Send(t, cap, r.key, r.data, r.attempt).table;
    NothingInFront(Own(requests[1..], key));
    NothingInFront(Fates(next, cap, requests[1..], key));
    NothingInFront(Reached(next, cap, requests[1..], key));
  }

  lemma NothingInFront<T>(xs: seq<T>)
    ensures [] + xs == xs
  {
  }

  lemma KeptCons<T>(x: T, xs: seq<T>, flag: bool, flags: seq<bool>)
    requires |xs| == |flags|
    ensures Kept([x] + xs, [flag] + flags) == (if flag then [x] else []) + Kept(xs, flags)
  {
    assert ([x] + xs)[1..] == xs && ([flag] + flags)[1..] == flags;
  }

  // ---- the bytes of a stream ----

  /** Each message in its own frame, as the encoders fill them. */
  function Framed(ms: seq<Wire.Message>): (data: seq<Data>)
    ensures |data| == |ms| && forall i | 0 <= i < |data| :: data[i] == Wire.Frame(ms[i])
  {
    seq(|ms|, i requires 0 <= i < |ms| => Wire.Frame(ms[i]))
  }

  /** All bytes written to a stream. */
  function Bytes(data: seq<Data>): seq<Wire.byte>
  {
    if data == [] then [] else data[0] + Bytes(data[1..])
  }

  lemma {:induction false} BytesOfKept(ms: seq<Wire.Message>, flags: seq<bool>)
    requires |ms| == |flags|
    ensures Bytes(Kept(Framed(ms), flags)) == Wire.Concat(Kept(ms, flags))
  {
    if ms != [] {
      BytesOfKept(ms[1..], flags[1..]);
      assert Framed(ms)[1..] == Framed(ms[1..]);
      var rest, data := Kept(ms[1..], flags[1..]), Kept(Framed(ms[1..]), flags[1..]);
      if flags[0] {
        assert ([ms[0]] + rest)[1..] == rest && ([Wire.Frame(ms[0])] + data)[1..] == data;
      } else {
        assert [] + rest == rest && [] + data == data;
      }
    }
  }

  lemma {:induction false} KeptSized(ms: seq<Wire.Message>, flags: seq<bool>)
    requires |ms| == |flags| && Wire.Sized(ms)
    ensures Wire.Sized(Kept(ms, flags))
  {
    if ms != [] {
      KeptSized(ms[1..], flags[1..]);
    }
  }

  /**
   * However the sends of other queries fall between its own, a query's stream splits into exactly the
   * messages it sent whose bytes got out, in order.
   */
  lemma StreamSplits(cap: int, requests: seq<Request>, key: string, ms: seq<Wire.Message>)
    requires Own(requests, key) == Framed(ms) && Wire.Sized(ms)
    ensures var t := Table(map[], 0);
            Wire.Split(Bytes(Contents(Sends(t, cap, requests), key)))
            == Wire.Messages(Kept(ms, Outs(Fates(t, cap, requests, key))))
  {
    var t := Table(map[], 0);
    var flags := Outs(Fates(t, cap, requests, key));
    StreamIsQueryLog(t, cap, requests, key);
    assert Contents(t, key) == [];
    assert [] + Reached(t, cap, requests, key) == Reached(t, cap, requests, key);
    ReachedIsKept(t, cap, requests, key);
    BytesOfKept(ms, flags);
    KeptSized(ms, flags);
    Wire.SplitInvertsConcat(Kept(ms, flags));
  }

  // ---- the rows a client reads ----

  /** `json` is the encoder of a batch and `text` the wording of an error. */
  function ToMessage(f: Frame, json: seq<RowMap> -> seq<Wire.byte>, text: ErrorKind -> seq<Wire.byte>)
    : (m: Wire.Message)
    ensures m.kind == (if f.RowBatch? then 0x01 else if f.Completed? then 0x02 else 0x03)
  {
    match f
    case RowBatch(rows) => Wire.Message(Wire.MSG_ROW_BATCH, json(rows))
    case Completed => Wire.Message(Wire.MSG_COMPLETED, [])
    case Error(kind) => Wire.Message(Wire.MSG_ERROR, text(kind))
  }

  function ToMessages(
    frames: seq<Frame>, json: seq<RowMap> -> seq<Wire.byte>, text: ErrorKind -> seq<Wire.byte>)
    : (ms: seq<Wire.Message>)
    ensures |ms| == |frames| && forall i | 0 <= i < |ms| :: ms[i] == ToMessage(frames[i], json, text)
  {
    seq(|frames|, i requires 0 <= i < |frames| => ToMessage(frames[i], json, text))
  }

  /** The rows of all batches among the messages, in order, read with the client's JSON parser. */
  function ReadRows(ms: seq<Wire.Message>, parse: seq<Wire.byte> -> seq<RowMap>): seq<RowMap>
  {
    if ms == [] then []
    else (if ms[0].kind == Wire.MSG_ROW_BATCH then parse(ms[0].payload) else []) + ReadRows(ms[1..], parse)
  }

  /** JSON carries the batches among these frames unchanged. */
  ghost predicate Readable(
    frames: seq<Frame>, json: seq<RowMap> -> seq<Wire.byte>, parse: seq<Wire.byte> -> seq<RowMap>)
  {
    forall i | 0 <= i < |frames| && frames[i].RowBatch? :: parse(json(frames[i].rows)) == frames[i].rows
  }

  lemma {:induction false} ReadKept(
    frames: seq<Frame>, flags: seq<bool>, json: seq<RowMap> -> seq<Wire.byte>, text: ErrorKind -> seq<Wire.byte>,
    parse: seq<Wire.byte> -> seq<RowMap>)
    requires |frames| == |flags| && Readable(frames, json, parse)
    ensures ReadRows(Kept(ToMessages(frames, json, text), flags), parse) == BatchRows(Kept(frames, flags))
  {
    if frames != [] {
      ReadKept(frames[1..], flags[1..], json, text, parse);
      var ms := ToMessages(frames, json, text);
      assert ms[1..] == ToMessages(frames[1..], json, text);
      var rest, left := Kept(ms[1..], flags[1..]), Kept(frames[1..], flags[1..]);
      if flags[0] {
        assert ([ms[0]] + rest)[1..] == rest && ([frames[0]] + left)[1..] == left;
      } else {
        assert [] + rest == rest && [] + left == left;
      }
    }
  }

  /** A batch is ambiguous when its bytes got out but its send reported an error. */
  predicate Ambiguous(f: Frame, fate: Fate)
  {
    f.RowBatch? && f.rows != [] && fate.bytesOut && !fate.ok
  }

  /** Reading what got out gives the rows of the successful sends iff no batch is ambiguous; else it gives more. */
  lemma {:induction false} OutIsOkIff(frames: seq<Frame>, fates: seq<Fate>)
    requires |frames| == |fates| && forall i | 0 <= i < |fates| :: fates[i].ok ==> fates[i].bytesOut
    ensures var out, ok := BatchRows(Kept(frames, Outs(fates))), BatchRows(Kept(frames, Oks(fates)));
            && |out| >= |ok| && (out == ok <==> |out| == |ok|)
            && (|out| == |ok| <==> forall i | 0 <= i < |frames| :: !Ambiguous(frames[i], fates[i]))
  {
    if frames != [] {
      OutIsOkIff(frames[1..], fates[1..]);
      assert Outs(fates)[1..] == Outs(fates[1..]) && Oks(fates)[1..] == Oks(fates[1..]);
      KeptRows(frames, Outs(fates));
      KeptRows(frames, Oks(fates));
      assert (forall i | 0 <= i < |frames| :: !Ambiguous(frames[i], fates[i]))
        <==> !Ambiguous(frames[0], fates[0])
             && forall i | 0 <= i < |frames[1..]| :: !Ambiguous(frames[1..][i], fates[1..][i]) by {
        assert forall i | 0 < i < |frames| :: frames[i] == frames[1..][i - 1] && fates[i] == fates[1..][i - 1];
      }
    }
  }

  lemma KeptRows(frames: seq<Frame>, flags: seq<bool>)
    requires |frames| == |flags| > 0
    ensures BatchRows(Kept(frames, flags))
            == (if flags[0] && frames[0].RowBatch? then frames[0].rows else [])
               + BatchRows(Kept(frames[1..], flags[1..]))
  {
    var rest := Kept(frames[1..], flags[1..]);
    assert ([frames[0]] + rest)[1..] == rest && [] + rest == rest;
  }

  // ---- a run of the executor and its session ----

  /** Every frame handed to the sender, in order. */
  function Attempted(turns: seq<Turn>): seq<Frame>
  {
    if turns == [] then [] else turns[0].frames + Attempted(turns[1..])
  }

  /** The executor learns the fate of its batches from the sender. */
  ghost predicate Reports(turns: seq<Turn>, fates: seq<Fate>)
    decreases |turns|
  {
    if turns == [] then fates == []
    else
      var frames := turns[0].frames;
      && |frames| <= |fates|
      && (forall i | 0 <= i < |frames| && frames[i].RowBatch? :: fates[i].ok == turns[0].sends)
      && Reports(turns[1..], fates[|frames|..])
  }

  lemma {:induction false} ReportedRows(turns: seq<Turn>, fates: seq<Fate>)
    requires Reports(turns, fates)
    ensures |Attempted(turns)| == |fates|
    ensures BatchRows(Kept(Attempted(turns), Oks(fates))) == SentRows(turns)
  {
    if turns != [] {
      var n := |turns[0].frames|;
      ReportedRows(turns[1..], fates[n..]);
      TurnRows(turns[0], fates[..n]);
      KeptConcat(turns[0].frames, Attempted(turns[1..]), Oks(fates[..n]), Oks(fates[n..]));
      assert Oks(fates) == Oks(fates[..n]) + Oks(fates[n..]);
      BatchRowsConcat(Kept(turns[0].frames, Oks(fates[..n])), Kept(Attempted(turns[1..]), Oks(fates[n..])));
    }
  }

  lemma {:induction false} KeptConcat<T>(a: seq<T>, b: seq<T>, f: seq<bool>, g: seq<bool>)
    requires |a| == |f| && |b| == |g|
    ensures Kept(a + b, f + g) == Kept(a, f) + Kept(b, g)
  {
    if a == [] {
      assert a + b == b && f + g == g;
    } else {
      KeptConcat(a[1..], b, f[1..], g);
      KeptCons(a[0], a[1..] + b, f[0], f[1..] + g);
      assert [a[0]] + (a[1..] + b) == a + b && [f[0]] + (f[1..] + g) == f + g;
    }
  }

  lemma {:induction false} TurnRows(turn: Turn, fates: seq<Fate>)
    requires |fates| == |turn.frames|
    requires forall i | 0 <= i < |fates| && turn.frames[i].RowBatch? :: fates[i].ok == turn.sends
    ensures BatchRows(Kept(turn.frames, Oks(fates))) == if turn.sends then BatchRows(turn.frames) else []
    decreases |fates|
  {
    if fates != [] {
      TurnRows(Turn(turn.frames[1..], turn.sends), fates[1..]);
      assert Oks(fates)[1..] == Oks(fates[1..]);
      KeptRows(turn.frames, Oks(fates));
    }
  }

  /** What the stream of this query splits into after these requests on a new session. */
  function StreamOf(cap: int, requests: seq<Request>, key: string): Wire.Decoded
  {
    Wire.Split(Bytes(Contents(Sends(Table(map[], 0), cap, requests), key)))
  }

  function FatesOf(cap: int, requests: seq<Request>, key: string): (fates: seq<Fate>)
    ensures |fates| == |Own(requests, key)|
    ensures forall i | 0 <= i < |fates| :: fates[i].ok ==> fates[i].bytesOut
  {
    Fates(Table(map[], 0), cap, requests, key)
  }

  /**
   * Among these requests the query's own are its executor's frames, encoded; every payload's length
   * fits its field, JSON carries its batches, and the executor learns their fates.
   */
  ghost predicate Carries(
    turns: seq<Turn>, cap: int, requests: seq<Request>, key: string,
    json: seq<RowMap> -> seq<Wire.byte>, text: ErrorKind -> seq<Wire.byte>, parse: seq<Wire.byte> -> seq<RowMap>)
  {
    var ms := ToMessages(Attempted(turns), json, text);
    && Own(requests, key) == Framed(ms) && Wire.Sized(ms) && Readable(Attempted(turns), json, parse)
    && Reports(turns, FatesOf(cap, requests, key))
  }

  /** No batch was written with an error. */
  ghost predicate NoneAmbiguous(frames: seq<Frame>, fates: seq<Fate>)
    requires |frames| == |fates|
  {
    forall i | 0 <= i < |frames| :: !Ambiguous(frames[i], fates[i])
  }

  /**
   * The executor of a query, its session and its client together: for every run of the polling loop
   * and every interleaving with other queries' requests, the client's bytes split into whole
   * messages, and the rows it reads are exactly the acknowledged ones iff no batch was written with
   * an error.
   */
  lemma ClientReadsLogIff(
    plan: Plan, time: string -> Option<int>, q: Query, s: Stream, es: seq<Event>, moments: seq<Moment>,
    columns: seq<string>, cap: int, requests: seq<Request>, key: string,
    json: seq<RowMap> -> seq<Wire.byte>, text: ErrorKind -> seq<Wire.byte>, parse: seq<Wire.byte> -> seq<RowMap>)
    requires Drives(plan, time, q, s, es, moments) && OneLayout(moments, columns)
    requires Carries(TurnsOf(plan, time, q, s, es, moments), cap, requests, key, json, text, parse)
    ensures var frames, fates := Attempted(TurnsOf(plan, time, q, s, es, moments)), FatesOf(cap, requests, key);
            var stream := StreamOf(cap, requests, key);
            && |frames| == |fates| && stream.Messages? && s.acked <= Run(q, s, es).acked
            && (ReadRows(stream.messages, parse) == BatchMaps(columns, Run(q, s, es).acked[|s.acked|..])
                <==> NoneAmbiguous(frames, fates))
            && (NoneAmbiguous(frames, fates) ==>
                  RowsPair(ReadRows(stream.messages, parse), columns, Run(q, s, es).acked[|s.acked|..]))
  {
    var turns, fates := TurnsOf(plan, time, q, s, es, moments), FatesOf(cap, requests, key);
    StreamSplits(cap, requests, key, ToMessages(Attempted(turns), json, text));
    ReadKept(Attempted(turns), Outs(fates), json, text, parse);
    OutIsOkIff(Attempted(turns), fates);
    ReportedRows(turns, fates);
    RunDelivers(plan, time, q, s, es, moments, columns);
  }

  /**
   * With unique cursors and in-order inserts, a client reads exactly the query's answer over
   * everything between the start and the current cursor iff no batch was written with an error.
   */
  lemma ClientReadsAnswerIff(
    plan: Plan, time: string -> Option<int>, q: Query, table: seq<Row>, start: int, es: seq<Event>,
    moments: seq<Moment>, columns: seq<string>, cap: int, requests: seq<Request>, key: string,
    json: seq<RowMap> -> seq<Wire.byte>, text: ErrorKind -> seq<Wire.byte>, parse: seq<Wire.byte> -> seq<RowMap>)
    requires Drives(plan, time, q, Opened(table, start), es, moments) && OneLayout(moments, columns)
    requires Parses(q, table) && InsertsParse(q, es) && UniqueCursors(table) && InOrderRun(q, Opened(table, start), es)
    requires Carries(TurnsOf(plan, time, q, Opened(table, start), es, moments), cap, requests, key, json, text, parse)
    ensures var frames := Attempted(TurnsOf(plan, time, q, Opened(table, start), es, moments));
            var fates, stream := FatesOf(cap, requests, key), StreamOf(cap, requests, key);
            var t := Run(q, Opened(table, start), es);
            && |frames| == |fates| && stream.Messages?
            && (ReadRows(stream.messages, parse) == BatchMaps(columns, OneShot(t.table, q.filter, start, t.cursor))
                <==> NoneAmbiguous(frames, fates))
            && (NoneAmbiguous(frames, fates) ==>
                  RowsPair(ReadRows(stream.messages, parse), columns, OneShot(t.table, q.filter, start, t.cursor)))
  {
    ClientReadsLogIff(plan, time, q, Opened(table, start), es, moments, columns, cap, requests, key, json, text, parse);
    IncrementalEqualsOneShot(q, table, start, es);
    assert Run(q, Opened(table, start), es).acked[0..] == Run(q, Opened(table, start), es).acked;
  }
}
