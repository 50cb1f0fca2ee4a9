/** The ingest buffer: append and flush are separate critical sections that handlers interleave. */
module Ingest {

  datatype Event = Event(data: string, timestamp: int)

  // ---- the objects ----

  /** Where a transaction can fail: at its start, while preparing, at some insert, or at commit. */
  datatype Faults = Faults(begin: bool, prepare: bool, inserts: set<nat>, commit: bool)

  /** The transaction for `n` events goes through. */
  predicate Succeeds(n: nat, faults: Faults)
  {
    !faults.begin && !faults.prepare && !faults.commit && forall i | i in faults.inserts :: i >= n
  }

  class Client {
    var events: seq<Event>
    var ingestedRows: int

    constructor ()
      ensures events == [] && ingestedRows == 0
    {
      events := [];
      ingestedRows := 0;
    }

    /** All or nothing: either every event is stored, in order, and counted, or nothing changes. */
    method InsertEvents(batch: seq<Event>, faults: Faults) returns (ok: bool)
      modifies this
      ensures ok <==>
                || batch == []
                || (!faults.begin && !faults.prepare && !faults.commit
                    && forall i | 0 <= i < |batch| :: i !in faults.inserts)
      ensures ok ==> events == old(events) + batch && ingestedRows == old(ingestedRows) + |batch|
      ensures !ok ==> events == old(events) && ingestedRows == old(ingestedRows)
    {
      if |batch| == 0 {
        return true;
      }
      if faults.begin || faults.prepare {
        return false;
      }
      var staged: seq<Event> := [];
      for i := 0 to |batch|
        invariant staged == batch[..i]
        invariant forall j | j in faults.inserts :: j >= i
        invariant events == old(events) && ingestedRows == old(ingestedRows)
      {
        if i in faults.inserts {
          return false;
        }
        staged := staged + [batch[i]];
      }
      if faults.commit {
        return false;
      }
      events := events + staged;
      ingestedRows := ingestedRows + |batch|;
      return true;
    }
  }

  /** The threshold test, on the buffer's length after the append. */
  predicate ShouldFlush(length: nat, batchSize: nat, timedOut: bool)
  {
    length >= batchSize || timedOut
  }

  class IngestHandler {
    var buffer: seq<Event>
    var lastFlush: int
    const batchSize: nat
    const batchTimeout: int
    const client: Client

    constructor (client: Client, batchSize: nat, batchTimeout: int, now: int)
      ensures buffer == [] && lastFlush == now
      ensures this.client == client && this.batchSize == batchSize && this.batchTimeout == batchTimeout
    {
      this.client := client;
      this.batchSize := batchSize;
      this.batchTimeout := batchTimeout;
      buffer := [];
      lastFlush := now;
    }

    /** The interleaving model's view of the handler and the database. */
    ghost predicate Represents(s: System)
      reads this, client
    {
      s.batchSize == batchSize && s.buffer == buffer && s.committed == client.events
          && s.ingestedRows == client.ingestedRows
    }

    /** Handle's critical section: one Accept step of the interleaving model. */
    method Append(event: Event, now: int) returns (shouldFlush: bool)
      modifies this
      ensures forall s | old(Represents(s)) ::
                var t := Apply(s, Accept(event, now - old(lastFlush) >= batchTimeout));
                Represents(t) && t.handlers == s.handlers + [if shouldFlush then WantsFlush else Finished]
      ensures buffer == old(buffer) + [event] && lastFlush == old(lastFlush)
      ensures shouldFlush <==> |old(buffer)| + 1 >= batchSize || now - old(lastFlush) >= batchTimeout
    {
      buffer := buffer + [event];
      shouldFlush := |buffer| >= batchSize || now - lastFlush >= batchTimeout;
    }

    /** flush's critical section: one SwapOut step of whichever handler runs it. */
    method Swap(now: int) returns (batch: seq<Event>)
      modifies this
      ensures forall s, who: nat | old(Represents(s)) && Enabled(s, SwapOut(who)) ::
                var t := Apply(s, SwapOut(who));
                Represents(t) && t.handlers[who] == if batch == [] then Finished else Inserting(batch)
      ensures batch == old(buffer) && buffer == [] && lastFlush == now
    {
      batch := buffer;
      buffer := [];
      lastFlush := now;
    }

    /** The rest of flush: one Insert step of the handler that holds the batch. */
    method InsertBatch(batch: seq<Event>, faults: Faults)
      requires batch != []
      modifies client
      ensures client.events == old(client.events) + if Succeeds(|batch|, faults) then batch else []
      ensures client.ingestedRows == old(client.ingestedRows) + if Succeeds(|batch|, faults) then |batch| else 0
      ensures forall s, who: nat | old(Represents(s)) && who < |s.handlers| && s.handlers[who] == Inserting(batch) ::
                Represents(Apply(s, Insert(who, Succeeds(|batch|, faults))))
    {
      var ok := client.InsertEvents(batch, faults);
    }

    /** A flush empties the buffer whether or not its transaction succeeds: a failed batch is gone. */
    method Flush(now: int, faults: Faults)
      modifies this, client
      ensures buffer == [] && lastFlush == now
      ensures client.events == old(client.events) + if Succeeds(|old(buffer)|, faults) then old(buffer) else []
      ensures client.ingestedRows - old(client.ingestedRows) == |client.events| - |old(client.events)|
    {
      var batch := Swap(now);
      if |batch| == 0 {
        return;
      }
      InsertBatch(batch, faults);
    }

    /**
     * One request alone: the event joins the buffer, and the whole buffer goes out when it has reached
     * the batch size or the last flush is at least the timeout ago.
     */
    method Handle(event: Event, now: int, faults: Faults)
      modifies this, client
      ensures buffer == [] <==> |old(buffer)| + 1 >= batchSize || now - old(lastFlush) >= batchTimeout
      ensures var full := old(buffer) + [event];
              if buffer == [] then
                && lastFlush == now
                && client.events == old(client.events) + (if Succeeds(|full|, faults) then full else [])
                && client.ingestedRows - old(client.ingestedRows) == |client.events| - |old(client.events)|
              else
                && buffer == full && lastFlush == old(lastFlush)
                && client.events == old(client.events) && client.ingestedRows == old(client.ingestedRows)
    {
      var shouldFlush := Append(event, now);
      if shouldFlush {
        Flush(now, faults);
      }
    }
  }

  // ---- any number of handlers, interleaved ----

  /** A handler between its critical sections: decided to flush, inserting its swapped batch, or finished. */
  datatype Handler = WantsFlush | Inserting(batch: seq<Event>) | Finished

  /** `accepted` is the append order; `swapped` the batches in swap order; `failed` those whose transaction failed. */
  datatype System = System(
    batchSize: nat, buffer: seq<Event>, handlers: seq<Handler>,
    accepted: seq<Event>, swapped: seq<seq<Event>>, committed: seq<Event>, failed: seq<Event>, ingestedRows: nat)

  datatype Step =
    | Accept(event: Event, timedOut: bool)
    | RequestFlush
    | SwapOut(who: nat)
    | Insert(who: nat, ok: bool)

  function Idle(batchSize: nat): System
  {
    System(batchSize, [], [], [], [], [], [], 0)
  }

  predicate Enabled(s: System, step: Step)
  {
    match step
    case Accept(_, _) => true
    case RequestFlush => true
    case SwapOut(who) => who < |s.handlers| && s.handlers[who].WantsFlush?
    case Insert(who, _) => who < |s.handlers| && s.handlers[who].Inserting?
  }

  function Apply(s: System, step: Step): System
    requires Enabled(s, step)
  {
    match step
    case Accept(event, timedOut) =>
      var buffer := s.buffer + [event];
      var pc := if ShouldFlush(|buffer|, s.batchSize, timedOut) then WantsFlush else Finished;
      s.(buffer := buffer, accepted := s.accepted + [event], handlers := s.handlers + [pc])
    case RequestFlush => s.(handlers := s.handlers + [WantsFlush])
    case SwapOut(who) =>
      var pc := if s.buffer == [] then Finished else Inserting(s.buffer);
      s.(buffer := [], swapped := s.swapped + [s.buffer], handlers := s.handlers[who := pc])
    case Insert(who, ok) =>
      var batch := s.handlers[who].batch;
      var t := s.(handlers := s.handlers[who := Finished]);
      if ok then t.(committed := s.committed + batch, ingestedRows := s.ingestedRows + |batch|)
      else t.(failed := s.failed + batch)
  }

  predicate Schedule(s: System, steps: seq<Step>)
    decreases |steps|
  {
    steps == [] || (Enabled(s, steps[0]) && Schedule(Apply(s, steps[0]), steps[1..]))
  }

  function Execute(s: System, steps: seq<Step>): System
    requires Schedule(s, steps)
    decreases |steps|
  {
    if steps == [] then s else Execute(Apply(s, steps[0]), steps[1..])
  }

  function Flatten(batches: seq<seq<Event>>): seq<Event>
  {
    if batches == [] then [] else Flatten(batches[..|batches| - 1]) + batches[|batches| - 1]
  }

  /** How often `e` occurs in the batches swapped out but not yet decided. */
  function InFlight(handlers: seq<Handler>, e: Event): nat
  {
    if handlers == [] then 0 else Held(handlers[0], e) + InFlight(handlers[1..], e)
  }

  function Held(h: Handler, e: Event): nat
  {
    if h.Inserting? then multiset(h.batch)[e] else 0
  }

  /** How many handlers have decided to flush but not swapped yet. */
  function Waiting(handlers: seq<Handler>): nat
  {
    if handlers == [] then 0 else Waits(handlers[0]) + Waiting(handlers[1..])
  }

  function Waits(h: Handler): nat
  {
    if h.WantsFlush? then 1 else 0
  }

  lemma {:induction false} WaitingUpdate(hs: seq<Handler>, i: nat, h: Handler)
    requires i < |hs|
    ensures Waiting(hs[i := h]) + Waits(hs[i]) == Waiting(hs) + Waits(h)
  {
    if i == 0 {
      assert hs[0 := h][1..] == hs[1..];
    } else {
      assert hs[i := h][1..] == hs[1..][i - 1 := h];
      WaitingUpdate(hs[1..], i - 1, h);
    }
  }

  lemma {:induction false} WaitingAppend(hs: seq<Handler>, h: Handler)
    ensures Waiting(hs + [h]) == Waiting(hs) + Waits(h)
  {
    if hs != [] {
      assert (hs + [h])[1..] == hs[1..] + [h];
      WaitingAppend(hs[1..], h);
    }
  }

  lemma {:induction false} InFlightUpdate(hs: seq<Handler>, i: nat, h: Handler, e: Event)
    requires i < |hs|
    ensures InFlight(hs[i := h], e) + Held(hs[i], e) == InFlight(hs, e) + Held(h, e)
  {
    if i == 0 {
      assert hs[0 := h][1..] == hs[1..];
    } else {
      assert hs[i := h][1..] == hs[1..][i - 1 := h];
      InFlightUpdate(hs[1..], i - 1, h, e);
    }
  }

  lemma {:induction false} InFlightAppend(hs: seq<Handler>, h: Handler, e: Event)
    ensures InFlight(hs + [h], e) == InFlight(hs, e) + Held(h, e)
  {
    if hs != [] {
      assert (hs + [h])[1..] == hs[1..] + [h];
      InFlightAppend(hs[1..], h, e);
    }
  }

  /** An accepted event leaves its handler waiting to flush iff the batch size is reached or the time is up. */
  lemma AcceptDecides(s: System, event: Event, timedOut: bool)
    ensures var t := Apply(s, Accept(event, timedOut));
            && |t.handlers| == |s.handlers| + 1 && t.handlers[..|s.handlers|] == s.handlers
            && t.buffer == s.buffer + [event] && t.accepted == s.accepted + [event]
            && (t.handlers[|s.handlers|] == WantsFlush <==> |s.buffer| + 1 >= s.batchSize || timedOut)
            && (t.handlers[|s.handlers|] == WantsFlush || t.handlers[|s.handlers|] == Finished)
  {
  }

  /** Every occurrence of `e` that was accepted is in exactly one of the four places. */
  predicate Balanced(s: System, e: Event)
  {
    multiset(s.accepted)[e]
    == multiset(s.buffer)[e] + InFlight(s.handlers, e) + multiset(s.committed)[e] + multiset(s.failed)[e]
  }

  /** Nothing is lost or duplicated on the way, order is kept up to the swap, and the counter is exact. */
  ghost predicate Conserved(s: System)
  {
    && (forall e :: Balanced(s, e))
    && s.accepted == Flatten(s.swapped) + s.buffer
    && s.ingestedRows == |s.committed|
  }

  predicate Bounded(s: System)
  {
    |s.buffer| <= (if s.batchSize == 0 then 0 else s.batchSize - 1) + Waiting(s.handlers)
  }

  lemma BalancedAccept(s: System, event: Event, timedOut: bool, e: Event)
    requires Balanced(s, e)
    ensures Balanced(Apply(s, Accept(event, timedOut)), e)
  {
    var t := Apply(s, Accept(event, timedOut));
    var pc := if ShouldFlush(|s.buffer| + 1, s.batchSize, timedOut) then WantsFlush else Finished;
    assert t.handlers == s.handlers + [pc];
    InFlightAppend(s.handlers, pc, e);
  }

  lemma BalancedSwap(s: System, who: nat, e: Event)
    requires Balanced(s, e) && Enabled(s, SwapOut(who))
    ensures Balanced(Apply(s, SwapOut(who)), e)
  {
    InFlightUpdate(s.handlers, who, if s.buffer == [] then Finished else Inserting(s.buffer), e);
  }

  lemma BalancedInsert(s: System, who: nat, ok: bool, e: Event)
    requires Balanced(s, e) && Enabled(s, Insert(who, ok))
    ensures Balanced(Apply(s, Insert(who, ok)), e)
  {
    InFlightUpdate(s.handlers, who, Finished, e);
  }

  lemma BalancedStep(s: System, step: Step, e: Event)
    requires Balanced(s, e) && Enabled(s, step)
    ensures Balanced(Apply(s, step), e)
  {
    match step
    case Accept(event, timedOut) => BalancedAccept(s, event, timedOut, e);
    case RequestFlush => InFlightAppend(s.handlers, WantsFlush, e);
    case SwapOut(who) => BalancedSwap(s, who, e);
    case Insert(who, ok) => BalancedInsert(s, who, ok, e);
  }

  lemma OrderStep(s: System, step: Step)
    requires s.accepted == Flatten(s.swapped) + s.buffer && Enabled(s, step)
    ensures var t := Apply(s, step); t.accepted == Flatten(t.swapped) + t.buffer
  {
    var t := Apply(s, step);
    if step.SwapOut? {
      assert t.swapped[..|t.swapped| - 1] == s.swapped;
    }
  }

  lemma ConservedStep(s: System, step: Step)
    requires Conserved(s) && Enabled(s, step)
    ensures Conserved(Apply(s, step))
  {
    forall e ensures Balanced(Apply(s, step), e) {
      BalancedStep(s, step, e);
    }
    OrderStep(s, step);
  }

  lemma BoundedStep(s: System, step: Step)
    requires Bounded(s) && Enabled(s, step)
    ensures Bounded(Apply(s, step))
  {
    var t := Apply(s, step);
    match step
    case Accept(_, timedOut) =>
      var pc := if ShouldFlush(|s.buffer| + 1, s.batchSize, timedOut) then WantsFlush else Finished;
      assert t.handlers == s.handlers + [pc];
      WaitingAppend(s.handlers, pc);
    case RequestFlush => WaitingAppend(s.handlers, WantsFlush);
    case SwapOut(who) => WaitingUpdate(s.handlers, who, t.handlers[who]);
    case Insert(who, _) => WaitingUpdate(s.handlers, who, Finished);
  }

  /**
   * Conservation over every interleaving: each accepted event is, counting duplicates, in exactly
   * one of the buffer, an undecided batch, the table, or a failed batch; the swapped batches in
   * swap order followed by the buffer are the acceptance order.
   */
  lemma {:induction false} NothingLost(s: System, steps: seq<Step>)
    requires Conserved(s) && Schedule(s, steps)
    ensures Conserved(Execute(s, steps))
    decreases |steps|
  {
    if steps != [] {
      ConservedStep(s, steps[0]);
      NothingLost(Apply(s, steps[0]), steps[1..]);
    }
  }

  /** From an idle system the buffer never holds more than BatchSize - 1 events plus one per pending flush. */
  lemma {:induction false} BufferBound(s: System, steps: seq<Step>)
    requires Bounded(s) && Schedule(s, steps)
    ensures var t := Execute(s, steps);
            Bounded(t) && (s.batchSize >= 1 && Waiting(t.handlers) == 0 ==> |t.buffer| < s.batchSize)
    decreases |steps|
  {
    if steps != [] {
      BoundedStep(s, steps[0]);
      BufferBound(Apply(s, steps[0]), steps[1..]);
    }
  }

  /** An idle system satisfies both invariants, so they hold in every reachable state. */
  lemma Reachable(batchSize: nat, steps: seq<Step>)
    requires Schedule(Idle(batchSize), steps)
    ensures Conserved(Execute(Idle(batchSize), steps)) && Bounded(Execute(Idle(batchSize), steps))
  {
    NothingLost(Idle(batchSize), steps);
    BufferBound(Idle(batchSize), steps);
  }
}
