/** The per-client stream table, its cap, and the fan-out that stops at the first success. */
module Sessions {
  import CursorStream
  import Wire

  type Data = seq<Wire.byte>

  /** What one attempt meets: whether the connection opens a stream, and how the write ends. */
  datatype Write = Written | Lost | WrittenWithError

  datatype Attempt = Attempt(opens: bool, write: Write)

  /** `streams` maps a query's key to everything written to its stream; `active` is the stream counter. */
  datatype Table = Table(streams: map<string, seq<Data>>, active: int)

  predicate CanOpenStream(t: Table, maxStreams: int)
  {
    t.active < maxStreams
  }

  datatype SendResult = SendResult(table: Table, ok: bool, bytesOut: bool)

  /**
   * The meaning of SendToQuery.  The cap is tested first, even for a stream that is already open,
   * and an open that fails still counts as an active stream.
   */
  function Send(t: Table, maxStreams: int, key: string, data: Data, a: Attempt): SendResult
  {
    if !CanOpenStream(t, maxStreams) then SendResult(t, false, false)
    else if key !in t.streams && !a.opens then SendResult(t.(active := t.active + 1), false, false)
    else
      var u := if key in t.streams then t else Table(t.streams[key := []], t.active + 1);
      var out := a.write != Lost;
      SendResult(if out then u.(streams := u.streams[key := u.streams[key] + [data]]) else u, a.write == Written, out)
  }

  class Session {
    var streams: map<string, seq<Data>>
    var activeStreams: int
    const maxStreams: int

    constructor (maxStreams: int)
      ensures State() == Table(map[], 0) && this.maxStreams == maxStreams
    {
      streams := map[];
      activeStreams := 0;
      this.maxStreams := maxStreams;
    }

    function State(): Table
      reads this
    {
      Table(streams, activeStreams)
    }

    method OpenStreamSync(opens: bool) returns (ok: bool)
      modifies this
      ensures streams == old(streams)
      ensures ok == (old(activeStreams) < maxStreams && opens)
      ensures activeStreams == old(activeStreams) + if old(activeStreams) < maxStreams then 1 else 0
    {
      if activeStreams >= maxStreams {
        return false;
      }
      activeStreams := activeStreams + 1;
      return opens;
    }

    method SendToQuery(queryID: string, data: Data, a: Attempt) returns (ok: bool)
      modifies this
      ensures var result := Send(old(State()), maxStreams, "query:" + queryID, data, a);
              State() == result.table && ok == result.ok
    {
      if activeStreams >= maxStreams {
        return false;
      }
      var streamKey := "query:" + queryID;
      if streamKey !in streams {
        var isOpen := OpenStreamSync(a.opens);
        if !isOpen {
          return false;
        }
        streams := streams[streamKey := []];
      }
      if a.write != Lost {
        streams := streams[streamKey := streams[streamKey] + [data]];
      }
      return a.write == Written;
    }
  }

  // ---- one session over time ----

  datatype Request = Request(key: string, data: Data, attempt: Attempt)

  function Sends(t: Table, maxStreams: int, requests: seq<Request>): Table
    decreases |requests|
  {
    if requests == [] then t
    else Sends(Send(t, maxStreams, requests[0].key, requests[0].data, requests[0].attempt).table, maxStreams,
        requests[1..])
  }

  predicate WithinCap(t: Table, maxStreams: int)
  {
    0 <= |t.streams| <= t.active && t.active <= (if maxStreams >= 0 then maxStreams else 0)
  }

  lemma SendWithinCap(t: Table, maxStreams: int, r: Request)
    requires WithinCap(t, maxStreams)
    ensures WithinCap(Send(t, maxStreams, r.key, r.data, r.attempt).table, maxStreams)
  {
    if r.key !in t.streams {
      assert t.streams[r.key := []].Keys == t.streams.Keys + {r.key};
    }
    var u := if r.key in t.streams then t.streams else t.streams[r.key := []];
    assert u[r.key := u[r.key] + [r.data]].Keys == u.Keys;
  }

  /** When sends do not overlap, a session never opens more query streams than its cap, however they end. */
  lemma {:induction false} StreamsWithinCap(t: Table, maxStreams: int, requests: seq<Request>)
    requires WithinCap(t, maxStreams)
    ensures WithinCap(Sends(t, maxStreams, requests), maxStreams)
    decreases |requests|
  {
    if requests != [] {
      SendWithinCap(t, maxStreams, requests[0]);
      StreamsWithinCap(Send(t, maxStreams, requests[0].key, requests[0].data, requests[0].attempt).table, maxStreams,
          requests[1..]);
    }
  }

  /** The data that reached this key's stream, in request order. */
  function Reached(t: Table, maxStreams: int, requests: seq<Request>, key: string): seq<Data>
    decreases |requests|
  {
    if requests == [] then []
    else
      var r := requests[0];
      var result := Send(t, maxStreams, r.key, r.data, r.attempt);
      (if r.key == key && result.bytesOut then [r.data] else []) + Reached(result.table, maxStreams, requests[1..], key)
  }

  function Contents(t: Table, key: string): seq<Data>
  {
    if key in t.streams then t.streams[key] else []
  }

  /** Each query has one stream for the session's life: it holds exactly that query's data, in order. */
  lemma {:induction false} StreamIsQueryLog(t: Table, maxStreams: int, requests: seq<Request>, key: string)
    ensures Contents(Sends(t, maxStreams, requests), key) == Contents(t, key) + Reached(t, maxStreams, requests, key)
    decreases |requests|
  {
    if requests != [] {
      var r := requests[0];
      var result := Send(t, maxStreams, r.key, r.data, r.attempt);
      StreamIsQueryLog(result.table, maxStreams, requests[1..], key);
      var now := if r.key == key && result.bytesOut then [r.data] else [];
      assert Contents(result.table, key) == Contents(t, key) + now;
      assert Contents(t, key) + now + Reached(result.table, maxStreams, requests[1..], key)
          == Contents(t, key) + (now + Reached(result.table, maxStreams, requests[1..], key));
    }
  }

  // ---- fan-out ----

  /** The first `n` sessions all fail on these attempts. */
  ghost predicate AllFail(tables: seq<Table>, caps: seq<int>, attempts: seq<Attempt>, key: string, data: Data, n: nat)
    requires n <= |tables| == |caps| == |attempts|
  {
    forall j | 0 <= j < n :: !Send(tables[j], caps[j], key, data, attempts[j]).ok
  }

  ghost function Tables(sessions: seq<Session>): (tables: seq<Table>)
    reads sessions
    ensures |tables| == |sessions|
    ensures forall i | 0 <= i < |sessions| :: tables[i] == sessions[i].State()
  {
    seq(|sessions|, i requires 0 <= i < |sessions| reads sessions => sessions[i].State())
  }

  ghost function Caps(sessions: seq<Session>): (caps: seq<int>)
    ensures |caps| == |sessions|
    ensures forall i | 0 <= i < |sessions| :: caps[i] == sessions[i].maxStreams
  {
    seq(|sessions|, i requires 0 <= i < |sessions| => sessions[i].maxStreams)
  }

  /** `tried` sessions were attempted; all but possibly the last failed; the others are untouched. */
  method FanOut(
    sessions: seq<Session>, queryID: string, data: Data, attempts: seq<Attempt>) returns (ok: bool, tried: nat)
    requires |attempts| == |sessions|
    requires forall i, j | 0 <= i < j < |sessions| :: sessions[i] != sessions[j]
    modifies sessions
    ensures tried <= |sessions| && (ok ==> tried > 0) && (!ok ==> tried == |sessions|)
    ensures AllFail(old(Tables(sessions)), Caps(sessions), attempts, "query:" + queryID, data,
                    if ok then tried - 1 else tried)
    ensures ok ==> Send(old(Tables(sessions))[tried - 1], sessions[tried - 1].maxStreams, "query:" + queryID,
                        data, attempts[tried - 1]).ok
    ensures forall j | 0 <= j < tried ::
              sessions[j].State()
                  == Send(old(Tables(sessions))[j], sessions[j].maxStreams, "query:" + queryID, data, attempts[j]).table
    ensures forall j | tried <= j < |sessions| :: sessions[j].State() == old(Tables(sessions))[j]
  {
    ghost var tables := Tables(sessions);
    ghost var key := "query:" + queryID;
    tried := 0;
    while tried < |sessions|
      invariant tried <= |sessions|
      invariant AllFail(tables, Caps(sessions), attempts, key, data, tried)
      invariant forall j | 0 <= j < tried ::
                  sessions[j].State() == Send(tables[j], sessions[j].maxStreams, key, data, attempts[j]).table
      invariant forall j | tried <= j < |sessions| :: sessions[j].State() == tables[j]
    {
      var session := sessions[tried];
      ok := session.SendToQuery(queryID, data, attempts[tried]);
      tried := tried + 1;
      if ok {
        return;
      }
    }
    ok := false;
  }

  /** How many of the first `n` attempts put the bytes out, whether or not they reported success. */
  function CopiesOut(tables: seq<Table>, caps: seq<int>, attempts: seq<Attempt>, key: string, data: Data, n: nat): nat
    requires n <= |tables| == |caps| == |attempts|
  {
    if n == 0 then 0
    else CopiesOut(tables, caps, attempts, key, data, n - 1)
         + if Send(tables[n - 1], caps[n - 1], key, data, attempts[n - 1]).bytesOut then 1 else 0
  }

  /**
   * What a fan-out means for the executor: a success put out at least one copy, possibly more from
   * sessions that failed after writing; a failure may still have put out copies.
   */
  lemma FanOutOutcome(
    tables: seq<Table>, caps: seq<int>, attempts: seq<Attempt>, key: string, data: Data, ok: bool, tried: nat)
    requires tried <= |tables| == |caps| == |attempts|
    requires ok ==> tried > 0 && Send(tables[tried - 1], caps[tried - 1], key, data, attempts[tried - 1]).ok
    ensures var copies := CopiesOut(tables, caps, attempts, key, data, tried);
            var outcome := if ok then CursorStream.Sent(copies) else CursorStream.SendFailed(copies);
            copies <= tried && (outcome.Sent? ==> outcome.copies >= 1)
  {
    CopiesBounded(tables, caps, attempts, key, data, tried);
  }

  lemma {:induction false} CopiesBounded(
    tables: seq<Table>, caps: seq<int>, attempts: seq<Attempt>, key: string, data: Data, n: nat)
    requires n <= |tables| == |caps| == |attempts|
    ensures CopiesOut(tables, caps, attempts, key, data, n) <= n
  {
    if n > 0 {
      CopiesBounded(tables, caps, attempts, key, data, n - 1);
    }
  }
}
