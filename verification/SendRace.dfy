/**
 * Sends that overlap on one session.  Every query polls on its own goroutine and nothing locks a
 * whole send: the two cap checks, the lookup, the counter, the open, the store and the write are
 * separate steps that any number of senders interleave.
 */
module SendRace {
  import opened Sessions

  /** Where a call of SendToQuery stands; the name is the step it takes next. */
  datatype Sender =
    | Checking(key: string, data: Data)
    | Looking(key: string, data: Data)
    | Rechecking(key: string, data: Data)
    | Adding(key: string, data: Data)
    | Opening(key: string, data: Data)
    | Storing(key: string, data: Data, id: nat)
    | Writing(key: string, data: Data, id: nat)
    | Done(ok: bool)

  /** `written` holds what was written to each stream ever opened; `table` maps a query's key to its stream. */
  datatype Conn = Conn(cap: int, active: int, table: map<string, nat>, written: seq<seq<Data>>, senders: seq<Sender>)

  /** A new call arrives, or a call takes its next step; `opens` and `write` say how an open and a write end. */
  datatype Step = Arrive(key: string, data: Data) | Advance(who: nat, opens: bool, write: Write)

  function New(cap: int): Conn
  {
    Conn(cap, 0, map[], [], [])
  }

  predicate Enabled(s: Conn, step: Step)
  {
    step.Advance? ==> step.who < |s.senders| && !s.senders[step.who].Done?
  }

  /** The sender after its step. */
  function Stepped(s: Conn, x: Sender, opens: bool, write: Write): Sender
    requires !x.Done?
  {
    match x
    case Checking(key, data) => if s.active < s.cap then Looking(key, data) else Done(false)
    case Looking(key, data) => if key in s.table then Writing(key, data, s.table[key]) else Rechecking(key, data)
    case Rechecking(key, data) => if s.active < s.cap then Adding(key, data) else Done(false)
    case Adding(key, data) => Opening(key, data)
    case Opening(key, data) => if opens then Storing(key, data, |s.written|) else Done(false)
    case Storing(key, data, id) => Writing(key, data, id)
    case Writing(_, _, _) => Done(write == Written)
  }

  /** The shared state after a sender's step. */
  function Shared(s: Conn, x: Sender, opens: bool, write: Write): Conn
    requires !x.Done?
  {
    match x
    case Adding(_, _) => s.(active := s.active + 1)
    case Opening(_, _) => if opens then s.(written := s.written + [[]]) else s
    case Storing(key, _, id) => s.(table := s.table[key := id])
    case Writing(_, data, id) =>
      if write == Lost || id >= |s.written| then s else s.(written := s.written[id := s.written[id] + [data]])
    case _ => s
  }

  function Apply(s: Conn, step: Step): Conn
    requires Enabled(s, step)
  {
    match step
    case Arrive(key, data) => s.(senders := s.senders + [Checking(key, data)])
    case Advance(who, opens, write) =>
      var x := s.senders[who];
      Shared(s, x, opens, write).(senders := s.senders[who := Stepped(s, x, opens, write)])
  }

  // ---- counting senders ----

  function Count(senders: seq<Sender>, p: Sender -> bool): nat
  {
    if senders == [] then 0 else (if p(senders[0]) then 1 else 0) + Count(senders[1..], p)
  }

  lemma {:induction false} CountUpdate(senders: seq<Sender>, i: nat, x: Sender, p: Sender -> bool)
    requires i < |senders|
    ensures Count(senders[i := x], p) + (if p(senders[i]) then 1 else 0) == Count(senders, p) + (if p(x) then 1 else 0)
  {
    if i == 0 {
      assert senders[0 := x][1..] == senders[1..];
    } else {
      assert senders[i := x][1..] == senders[1..][i - 1 := x];
      CountUpdate(senders[1..], i - 1, x, p);
    }
  }

  lemma {:induction false} CountAppend(senders: seq<Sender>, x: Sender, p: Sender -> bool)
    ensures Count(senders + [x], p) == Count(senders, p) + (if p(x) then 1 else 0)
  {
    if senders == [] {
      assert senders + [x] == [x];
    } else {
      assert (senders + [x])[1..] == senders[1..] + [x];
      CountAppend(senders[1..], x, p);
    }
  }

  lemma {:induction false} CountImplied(senders: seq<Sender>, p: Sender -> bool, q: Sender -> bool)
    requires forall x :: p(x) ==> q(x)
    ensures Count(senders, p) <= Count(senders, q)
  {
    if senders != [] {
      CountImplied(senders[1..], p, q);
    }
  }

  predicate InFlight(x: Sender)
  {
    !x.Done?
  }

  predicate AboutToAdd(x: Sender)
  {
    x.Adding?
  }

  predicate AboutToOpen(x: Sender)
  {
    x.Opening?
  }

  /** The sender has passed its first check and has not finished. */
  predicate PastCheck(x: Sender)
  {
    !x.Checking? && !x.Done?
  }

  /** At most `q` calls are in flight at any time. */
  predicate Schedule(s: Conn, steps: seq<Step>, q: nat)
    decreases |steps|
  {
    Count(s.senders, InFlight) <= q
    && (steps == [] || (Enabled(s, steps[0]) && Schedule(Apply(s, steps[0]), steps[1..], q)))
  }

  function Execute(s: Conn, steps: seq<Step>, q: nat): Conn
    requires Schedule(s, steps, q)
    decreases |steps|
  {
    if steps == [] then s else Execute(Apply(s, steps[0]), steps[1..], q)
  }

  // ---- how far the counter can go ----

  /** The counter and the senders about to raise it stay below the cap plus the calls in flight. */
  predicate Bounded(s: Conn, q: nat)
  {
    0 <= s.active && s.active + Count(s.senders, AboutToAdd) <= if s.cap >= 1 then s.cap - 1 + q else 0
  }

  lemma BoundedStep(s: Conn, step: Step, q: nat)
    requires Enabled(s, step) && Bounded(s, q) && Count(Apply(s, step).senders, InFlight) <= q
    ensures Bounded(Apply(s, step), q)
  {
    var t := Apply(s, step);
    CountImplied(t.senders, AboutToAdd, InFlight);
    match step
    case Arrive(key, data) => CountAppend(s.senders, Checking(key, data), AboutToAdd);
    case Advance(who, opens, write) => CountUpdate(s.senders, who, t.senders[who], AboutToAdd);
  }

  lemma {:induction false} BoundedRun(s: Conn, steps: seq<Step>, q: nat)
    requires Schedule(s, steps, q) && Bounded(s, q)
    ensures Bounded(Execute(s, steps, q), q) && Execute(s, steps, q).cap == s.cap
    decreases |steps|
  {
    if steps != [] {
      BoundedStep(s, steps[0], q);
      BoundedRun(Apply(s, steps[0]), steps[1..], q);
    }
  }

  // ---- the stream table ----

  predicate HoldsStream(x: Sender)
  {
    x.Storing? || x.Writing?
  }

  /** Every stream held or stored was opened, and no two keys share one. */
  ghost predicate Distinct(s: Conn)
  {
    && (forall k | k in s.table :: s.table[k] < |s.written|)
    && (forall k, l | k in s.table && l in s.table && k != l :: s.table[k] != s.table[l])
    && (forall i | 0 <= i < |s.senders| && HoldsStream(s.senders[i]) :: s.senders[i].id < |s.written|)
    && (forall i, k | 0 <= i < |s.senders| && s.senders[i].Storing? && k in s.table :: s.table[k] != s.senders[i].id)
    && (forall i, j | 0 <= i < j < |s.senders| && s.senders[i].Storing? && s.senders[j].Storing? ::
          s.senders[i].id != s.senders[j].id)
  }

  /** The counter counts every stream opened or about to be. */
  predicate Counted(s: Conn)
  {
    |s.written| + Count(s.senders, AboutToOpen) <= s.active
  }

  lemma DistinctArrive(s: Conn, key: string, data: Data)
    requires Distinct(s)
    ensures Distinct(Apply(s, Arrive(key, data)))
  {
  }

  lemma DistinctOpen(s: Conn, who: nat, write: Write)
    requires Distinct(s) && who < |s.senders| && s.senders[who].Opening?
    ensures Distinct(Apply(s, Advance(who, true, write)))
  {
  }

  lemma DistinctStore(s: Conn, who: nat, opens: bool, write: Write)
    requires Distinct(s) && who < |s.senders| && s.senders[who].Storing?
    ensures Distinct(Apply(s, Advance(who, opens, write)))
  {
  }

  lemma DistinctOther(s: Conn, who: nat, opens: bool, write: Write)
    requires Distinct(s) && Enabled(s, Advance(who, opens, write))
    requires !s.senders[who].Storing? && !(s.senders[who].Opening? && opens)
    ensures Distinct(Apply(s, Advance(who, opens, write)))
  {
    var t := Apply(s, Advance(who, opens, write));
    assert t.table == s.table && |t.written| == |s.written|;
    assert !t.senders[who].Storing?;
  }

  lemma DistinctStep(s: Conn, step: Step)
    requires Distinct(s) && Enabled(s, step)
    ensures Distinct(Apply(s, step))
  {
    match step
    case Arrive(key, data) => DistinctArrive(s, key, data);
    case Advance(who, opens, write) =>
      if s.senders[who].Storing? {
        DistinctStore(s, who, opens, write);
      } else if s.senders[who].Opening? && opens {
        DistinctOpen(s, who, write);
      } else {
        DistinctOther(s, who, opens, write);
      }
  }

  lemma CountedStep(s: Conn, step: Step)
    requires Counted(s) && Enabled(s, step)
    ensures Counted(Apply(s, step))
  {
    match step
    case Arrive(key, data) => CountAppend(s.senders, Checking(key, data), AboutToOpen);
    case Advance(who, opens, write) => CountUpdate(s.senders, who, Apply(s, step).senders[who], AboutToOpen);
  }

  lemma {:induction false} TableRun(s: Conn, steps: seq<Step>, q: nat)
    requires Schedule(s, steps, q) && Distinct(s) && Counted(s)
    ensures Distinct(Execute(s, steps, q)) && Counted(Execute(s, steps, q))
    decreases |steps|
  {
    if steps != [] {
      DistinctStep(s, steps[0]);
      CountedStep(s, steps[0]);
      TableRun(Apply(s, steps[0]), steps[1..], q);
    }
  }

  /** A map that sends different keys to different numbers below `n` has at most `n` keys. */
  lemma {:induction false} InjectiveBound(m: map<string, nat>, n: nat)
    requires forall k | k in m :: m[k] < n
    requires forall k, l | k in m && l in m && k != l :: m[k] != m[l]
    ensures |m| <= n
  {
    if n == 0 {
      assert m.Keys == {};
    } else if k :| k in m && m[k] == n - 1 {
      var rest := m - {k};
      assert m.Keys == rest.Keys + {k};
      InjectiveBound(rest, n - 1);
    } else {
      InjectiveBound(m, n - 1);
    }
  }

  /**
   * With at most `q` calls in flight a session never counts more than cap - 1 + q streams, nor stores
   * more than it counts; so the cap holds when sends do not overlap.
   */
  lemma CapWithOverlap(cap: int, steps: seq<Step>, q: nat)
    requires Schedule(New(cap), steps, q)
    ensures var t := Execute(New(cap), steps, q);
            && |t.table| <= |t.written| <= t.active
            && t.active + Count(t.senders, AboutToAdd) <= (if cap >= 1 then cap - 1 + q else 0)
            && (q <= 1 && cap >= 0 ==> t.active <= cap)
  {
    BoundedRun(New(cap), steps, q);
    TableRun(New(cap), steps, q);
    var t := Execute(New(cap), steps, q);
    InjectiveBound(t.table, |t.written|);
  }

  // ---- after the counter has reached the cap ----

  function Frames(written: seq<seq<Data>>): nat
  {
    if written == [] then 0 else |written[0]| + Frames(written[1..])
  }

  lemma {:induction false} FramesWrite(written: seq<seq<Data>>, id: nat, data: Data)
    requires id < |written|
    ensures Frames(written[id := written[id] + [data]]) == Frames(written) + 1
  {
    var w := written[id := written[id] + [data]];
    if id == 0 {
      assert w[1..] == written[1..];
    } else {
      assert w[1..] == written[1..][id - 1 := written[id] + [data]];
      FramesWrite(written[1..], id - 1, data);
    }
  }

  lemma {:induction false} FramesOpen(written: seq<seq<Data>>)
    ensures Frames(written + [[]]) == Frames(written)
  {
    if written == [] {
      assert written + [[]] == [[]];
    } else {
      assert (written + [[]])[1..] == written[1..] + [[]];
      FramesOpen(written[1..]);
    }
  }

  lemma {:induction false} FramesHas(written: seq<seq<Data>>, id: nat)
    requires id < |written|
    ensures |written[id]| <= Frames(written)
  {
    if id > 0 {
      FramesHas(written[1..], id - 1);
    }
  }

  /** What the streams opened after the first `b` hold, and the calls that could still write. */
  function Outstanding(s: Conn, b: nat): nat
    requires b <= |s.written|
  {
    Frames(s.written[b..]) + Count(s.senders, PastCheck)
  }

  lemma LateWrites(s: Conn, b: nat, who: nat, opens: bool, write: Write)
    requires b <= |s.written| && who < |s.senders| && s.senders[who].Writing?
    ensures Frames(Apply(s, Advance(who, opens, write)).written[b..]) <= Frames(s.written[b..]) + 1
  {
    var x, t := s.senders[who], Apply(s, Advance(who, opens, write));
    if write != Lost && b <= x.id < |s.written| {
      assert t.written[b..] == s.written[b..][x.id - b := s.written[b..][x.id - b] + [x.data]];
      FramesWrite(s.written[b..], x.id - b, x.data);
    } else {
      assert t.written[b..] == s.written[b..];
    }
  }

  lemma LateOpens(s: Conn, b: nat, who: nat, opens: bool, write: Write)
    requires b <= |s.written| && Enabled(s, Advance(who, opens, write)) && !s.senders[who].Writing?
    ensures var t := Apply(s, Advance(who, opens, write));
            b <= |t.written| && Frames(t.written[b..]) == Frames(s.written[b..])
  {
    var t := Apply(s, Advance(who, opens, write));
    if s.senders[who].Opening? && opens {
      assert t.written[b..] == s.written[b..] + [[]];
      FramesOpen(s.written[b..]);
    }
  }

  lemma LateStep(s: Conn, step: Step, b: nat)
    requires Enabled(s, step) && s.active >= s.cap && b <= |s.written|
    ensures var t := Apply(s, step);
            t.active >= t.cap && t.cap == s.cap && b <= |t.written| && Outstanding(t, b) <= Outstanding(s, b)
  {
    match step
    case Arrive(key, data) => CountAppend(s.senders, Checking(key, data), PastCheck);
    case Advance(who, opens, write) =>
      CountUpdate(s.senders, who, Apply(s, step).senders[who], PastCheck);
      if s.senders[who].Writing? {
        LateWrites(s, b, who, opens, write);
      } else {
        LateOpens(s, b, who, opens, write);
      }
  }

  /**
   * Once the counter has reached the cap, a session writes at most one more frame for each call that
   * was already past its first check, however many calls follow: the others are refused.
   */
  lemma {:induction false} CapSilences(s: Conn, steps: seq<Step>, q: nat, b: nat)
    requires Schedule(s, steps, q) && s.active >= s.cap && b <= |s.written|
    ensures var t := Execute(s, steps, q);
            t.active >= t.cap && t.cap == s.cap && b <= |t.written| && Outstanding(t, b) <= Outstanding(s, b)
    decreases |steps|
  {
    if steps != [] {
      LateStep(s, steps[0], b);
      CapSilences(Apply(s, steps[0]), steps[1..], q, b);
    }
  }

  /** Before the counter reaches the cap, or `b` streams were open when it did and few frames came later. */
  predicate Starving(s: Conn, q: nat, b: nat)
  {
    s.active < s.cap || (b < s.cap && b <= |s.written| && Outstanding(s, b) <= q)
  }

  lemma StarvingStep(s: Conn, step: Step, q: nat, b: nat) returns (c: nat)
    requires Enabled(s, step) && Counted(s) && Starving(s, q, b) && Count(Apply(s, step).senders, InFlight) <= q
    ensures Starving(Apply(s, step), q, c)
  {
    var t := Apply(s, step);
    if s.active >= s.cap {
      c := b;
      LateStep(s, step, b);
    } else {
      c := |t.written|;
      assert t.written[c..] == [];
      CountImplied(t.senders, PastCheck, InFlight);
      CountedStep(s, step);
    }
  }

  lemma {:induction false} StarvingRun(s: Conn, steps: seq<Step>, q: nat, b: nat) returns (c: nat)
    requires Schedule(s, steps, q) && Counted(s) && Starving(s, q, b)
    ensures Starving(Execute(s, steps, q), q, c)
    decreases |steps|
  {
    if steps == [] {
      c := b;
    } else {
      c := StarvingStep(s, steps[0], q, b);
      CountedStep(s, steps[0]);
      c := StarvingRun(Apply(s, steps[0]), steps[1..], q, c);
    }
  }

  /** A full table has a stream opened after the counter reached the cap. */
  lemma LateStream(table: map<string, nat>, b: nat) returns (key: string)
    requires |table| > b && forall k, l | k in table && l in table && k != l :: table[k] != table[l]
    ensures key in table && table[key] >= b
  {
    if k :| k in table && table[k] >= b {
      key := k;
    } else {
      InjectiveBound(table, b);
      assert false;
    }
  }

  /**
   * In every history with at most `q` calls in flight, a table with as many streams as the cap has
   * one that got at most `q` frames, whatever came after it was opened.
   */
  lemma LastStreamStarves(cap: int, steps: seq<Step>, q: nat) returns (key: string)
    requires cap >= 1 && Schedule(New(cap), steps, q) && |Execute(New(cap), steps, q).table| >= cap
    ensures var t := Execute(New(cap), steps, q);
            key in t.table && t.table[key] < |t.written| && |t.written[t.table[key]]| <= q
  {
    var b := StarvingRun(New(cap), steps, q, 0);
    TableRun(New(cap), steps, q);
    BoundedRun(New(cap), steps, q);
    var t := Execute(New(cap), steps, q);
    InjectiveBound(t.table, |t.written|);
    key := LateStream(t.table, b);
    var id := t.table[key];
    FramesHas(t.written[b..], id - b);
  }

  /** A call that arrives once the counter has reached the cap is refused. */
  predicate Refused(x: Sender)
  {
    x.Checking? || x == Done(false)
  }

  lemma {:induction false} LateCallsFail(s: Conn, steps: seq<Step>, q: nat, n: nat)
    requires Schedule(s, steps, q) && s.active >= s.cap && n <= |s.senders|
    requires forall i | n <= i < |s.senders| :: Refused(s.senders[i])
    ensures var t := Execute(s, steps, q); n <= |t.senders| && forall i | n <= i < |t.senders| :: Refused(t.senders[i])
    decreases |steps|
  {
    if steps != [] {
      LateStep(s, steps[0], 0);
      LateCallsFail(Apply(s, steps[0]), steps[1..], q, n);
    }
  }

  // ---- the bound is reached ----

  lemma {:induction false} ExecuteConcat(s: Conn, a: seq<Step>, b: seq<Step>, q: nat)
    requires Schedule(s, a, q) && Schedule(Execute(s, a, q), b, q)
    ensures Schedule(s, a + b, q) && Execute(s, a + b, q) == Execute(Execute(s, a, q), b, q)
    decreases |a|
  {
    if a == [] {
      assert a + b == b;
    } else {
      assert (a + b)[1..] == a[1..] + b;
      ExecuteConcat(Apply(s, a[0]), a[1..], b, q);
    }
  }

  /** `steps` is a schedule from `s` to `t`. */
  predicate Leads(s: Conn, steps: seq<Step>, t: Conn, q: nat)
  {
    Schedule(s, steps, q) && Execute(s, steps, q) == t
  }

  lemma LeadsOn(s: Conn, a: seq<Step>, t: Conn, b: seq<Step>, u: Conn, q: nat)
    requires Leads(s, a, t, q) && Leads(t, b, u, q)
    ensures Leads(s, a + b, u, q)
  {
    ExecuteConcat(s, a, b, q);
  }

  lemma OneStep(s: Conn, step: Step, q: nat)
    requires Enabled(s, step) && Count(s.senders, InFlight) <= q && Count(Apply(s, step).senders, InFlight) <= q
    ensures Leads(s, [step], Apply(s, step), q)
  {
    assert [step][1..] == [];
  }

  function With(s: Conn, x: Sender): Conn
  {
    s.(senders := s.senders + [x])
  }

  /** The call that arrived last takes a step; `u` is what the step leaves of the shared state. */
  lemma LastSteps(s: Conn, x: Sender, u: Conn, y: Sender, a: Attempt, q: nat)
    requires !x.Done? && Count(s.senders, InFlight) < q
    requires y == Stepped(With(s, x), x, a.opens, a.write) && Shared(With(s, x), x, a.opens, a.write) == With(u, x)
    requires u.senders == s.senders
    ensures Leads(With(s, x), [Advance(|s.senders|, a.opens, a.write)], With(u, y), q)
  {
    var step := Advance(|s.senders|, a.opens, a.write);
    CountAppend(s.senders, x, InFlight);
    CountAppend(s.senders, y, InFlight);
    assert Apply(With(s, x), step) == With(u, y);
    OneStep(With(s, x), step, q);
  }

  /** A schedule to the call at `x`, continued by one step of that call. */
  lemma ThenSteps(r: Conn, steps: seq<Step>, s: Conn, x: Sender, u: Conn, y: Sender, a: Attempt, q: nat)
    requires Leads(r, steps, With(s, x), q) && !x.Done? && Count(s.senders, InFlight) < q
    requires y == Stepped(With(s, x), x, a.opens, a.write) && Shared(With(s, x), x, a.opens, a.write) == With(u, x)
    requires u.senders == s.senders
    ensures Leads(r, steps + [Advance(|s.senders|, a.opens, a.write)], With(u, y), q)
  {
    LastSteps(s, x, u, y, a, q);
    LeadsOn(r, steps, With(s, x), [Advance(|s.senders|, a.opens, a.write)], With(u, y), q);
  }

  const NAME: string := ""
  const NOTHING: Data := []

  const FAILING := Attempt(false, Lost)

  lemma Arrives(s: Conn, key: string, data: Data, q: nat)
    requires Count(s.senders, InFlight) < q
    ensures Leads(s, [Arrive(key, data)], With(s, Checking(key, data)), q)
  {
    CountAppend(s.senders, Checking(key, data), InFlight);
    OneStep(s, Arrive(key, data), q);
  }

  /** A call for a new key comes up to the point where it raises the counter. */
  lemma ComesToAdd(s: Conn, key: string, data: Data, a: Attempt, q: nat) returns (steps: seq<Step>)
    requires s.active < s.cap && key !in s.table && Count(s.senders, InFlight) < q
    ensures Leads(s, steps, With(s, Adding(key, data)), q)
  {
    var turn := [Advance(|s.senders|, a.opens, a.write)];
    steps := [Arrive(key, data)];
    Arrives(s, key, data, q);
    ThenSteps(s, steps, s, Checking(key, data), s, Looking(key, data), a, q);
    steps := steps + turn;
    ThenSteps(s, steps, s, Looking(key, data), s, Rechecking(key, data), a, q);
    steps := steps + turn;
    ThenSteps(s, steps, s, Rechecking(key, data), s, Adding(key, data), a, q);
    steps := steps + turn;
  }

  lemma PrepareOne(s: Conn, q: nat) returns (steps: seq<Step>)
    requires s.active < s.cap && s.table == map[] && Count(s.senders, InFlight) < q
    ensures Leads(s, steps, With(s, Adding(NAME, NOTHING)), q)
  {
    steps := ComesToAdd(s, NAME, NOTHING, FAILING, q);
  }

  function Raised(s: Conn): Conn
  {
    s.(active := s.active + 1)
  }

  /** A call alone raises the counter and then fails to open its stream. */
  lemma RaisesAndFails(s: Conn, key: string, data: Data, a: Attempt, q: nat) returns (steps: seq<Step>)
    requires s.active < s.cap && key !in s.table && Count(s.senders, InFlight) < q && !a.opens
    ensures Leads(s, steps, With(Raised(s), Done(false)), q)
  {
    var turn := [Advance(|s.senders|, a.opens, a.write)];
    steps := ComesToAdd(s, key, data, a, q);
    ThenSteps(s, steps, s, Adding(key, data), Raised(s), Opening(key, data), a, q);
    steps := steps + turn;
    ThenSteps(s, steps, Raised(s), Opening(key, data), Raised(s), Done(false), a, q);
    steps := steps + turn;
  }

  lemma RaiseOne(s: Conn, q: nat) returns (steps: seq<Step>, t: Conn)
    requires s.active < s.cap && s.table == map[] && Count(s.senders, InFlight) == 0 && q >= 1
    ensures Leads(s, steps, t, q) && t.cap == s.cap && t.active == s.active + 1
    ensures t.table == map[] && Count(t.senders, InFlight) == 0
  {
    steps := RaisesAndFails(s, NAME, NOTHING, FAILING, q);
    t := With(Raised(s), Done(false));
    CountAppend(s.senders, Done(false), InFlight);
  }

  lemma {:induction false} RaiseToCap(s: Conn, q: nat) returns (steps: seq<Step>, t: Conn)
    requires s.active < s.cap && s.table == map[] && Count(s.senders, InFlight) == 0 && q >= 1
    ensures Leads(s, steps, t, q) && t.cap == s.cap && t.active == s.cap - 1
    ensures t.table == map[] && Count(t.senders, InFlight) == 0
    decreases s.cap - s.active
  {
    if s.active == s.cap - 1 {
      steps, t := [], s;
    } else {
      var first, u := RaiseOne(s, q);
      var rest;
      rest, t := RaiseToCap(u, q);
      LeadsOn(s, first, u, rest, t, q);
      steps := first + rest;
    }
  }

  /** `m` calls in flight, all about to raise the counter. */
  predicate Poised(s: Conn, m: nat)
  {
    s.table == map[] && Count(s.senders, InFlight) == m && Count(s.senders, AboutToAdd) == m
  }

  lemma {:induction false} PrepareAll(s: Conn, m: nat, q: nat) returns (steps: seq<Step>, t: Conn)
    requires s.active < s.cap && Poised(s, m) && m <= q
    ensures Leads(s, steps, t, q) && t.cap == s.cap && t.active == s.active && Poised(t, q)
    decreases q - m
  {
    if m == q {
      steps, t := [], s;
    } else {
      var first := PrepareOne(s, q);
      var u := With(s, Adding(NAME, NOTHING));
      CountAppend(s.senders, Adding(NAME, NOTHING), InFlight);
      CountAppend(s.senders, Adding(NAME, NOTHING), AboutToAdd);
      var rest;
      rest, t := PrepareAll(u, m + 1, q);
      LeadsOn(s, first, u, rest, t, q);
      steps := first + rest;
    }
  }

  lemma {:induction false} FindSender(senders: seq<Sender>, p: Sender -> bool) returns (i: nat)
    requires Count(senders, p) > 0
    ensures i < |senders| && p(senders[i])
  {
    if p(senders[0]) {
      i := 0;
    } else {
      i := FindSender(senders[1..], p);
      i := i + 1;
    }
  }

  lemma AddOne(s: Conn, q: nat) returns (step: Step, t: Conn)
    requires Count(s.senders, AboutToAdd) > 0 && Count(s.senders, InFlight) <= q
    ensures Leads(s, [step], t, q) && t.active == s.active + 1
    ensures Count(t.senders, AboutToAdd) == Count(s.senders, AboutToAdd) - 1 && Count(t.senders, InFlight) <= q
  {
    var i := FindSender(s.senders, AboutToAdd);
    step := Advance(i, false, Lost);
    t := Apply(s, step);
    CountUpdate(s.senders, i, t.senders[i], AboutToAdd);
    CountUpdate(s.senders, i, t.senders[i], InFlight);
    OneStep(s, step, q);
  }

  lemma {:induction false} AddAll(s: Conn, m: nat, q: nat) returns (steps: seq<Step>, t: Conn)
    requires Count(s.senders, AboutToAdd) == m && Count(s.senders, InFlight) <= q
    ensures Leads(s, steps, t, q) && t.active == s.active + m
    decreases m
  {
    if m == 0 {
      steps, t := [], s;
    } else {
      var step, u := AddOne(s, q);
      var rest;
      rest, t := AddAll(u, m - 1, q);
      LeadsOn(s, [step], u, rest, t, q);
      steps := [step] + rest;
    }
  }

  /** The bound on the counter is reached, for every cap and every number of calls in flight. */
  lemma BoundIsReached(cap: int, q: nat) returns (steps: seq<Step>)
    requires cap >= 1 && q >= 1
    ensures Schedule(New(cap), steps, q) && Execute(New(cap), steps, q).active == cap - 1 + q
  {
    var first, s := RaiseToCap(New(cap), q);
    CountImplied(s.senders, AboutToAdd, InFlight);
    var second, t := PrepareAll(s, 0, q);
    var third, u := AddAll(t, q, q);
    LeadsOn(New(cap), first, s, second, t, q);
    LeadsOn(New(cap), first + second, t, third, u, q);
    steps := first + second + third;
  }

  // ---- a call alone ----

  /** What the session model sees: each key's stream and the counter. */
  function View(s: Conn): Table
  {
    Table(map k | k in s.table :: if s.table[k] < |s.written| then s.written[s.table[k]] else [], s.active)
  }

  function Wrote(s: Conn, id: nat, data: Data, write: Write): Conn
  {
    if write == Lost || id >= |s.written| then s else s.(written := s.written[id := s.written[id] + [data]])
  }

  lemma ViewWrote(s: Conn, key: string, data: Data, write: Write)
    requires Distinct(s) && key in s.table
    ensures View(Wrote(s, s.table[key], data, write))
            == if write == Lost then View(s) else Table(View(s).streams[key := View(s).streams[key] + [data]], s.active)
  {
  }

  function Stored(s: Conn, key: string): Conn
  {
    s.(active := s.active + 1, written := s.written + [[]], table := s.table[key := |s.written|])
  }

  lemma ViewStored(s: Conn, key: string)
    requires Distinct(s) && key !in s.table && Count(s.senders, InFlight) == 0
    ensures View(Stored(s, key)) == Table(View(s).streams[key := []], s.active + 1)
  {
  }

  lemma DistinctStored(s: Conn, key: string)
    requires Distinct(s) && key !in s.table && Count(s.senders, InFlight) == 0
    ensures Distinct(Stored(s, key))
  {
    forall i | 0 <= i < |s.senders| ensures s.senders[i].Done? {
      NoneInFlight(s.senders, i);
    }
  }

  lemma {:induction false} NoneInFlight(senders: seq<Sender>, i: nat)
    requires Count(senders, InFlight) == 0 && i < |senders|
    ensures senders[i].Done?
  {
    if i > 0 {
      NoneInFlight(senders[1..], i - 1);
    }
  }

  /** A call for a known key looks its stream up and writes. */
  lemma FindsStream(s: Conn, key: string, data: Data, a: Attempt, q: nat) returns (steps: seq<Step>)
    requires s.active < s.cap && key in s.table && Count(s.senders, InFlight) < q
    ensures Leads(s, steps, With(Wrote(s, s.table[key], data, a.write), Done(a.write == Written)), q)
  {
    var turn, id := [Advance(|s.senders|, a.opens, a.write)], s.table[key];
    steps := [Arrive(key, data)];
    Arrives(s, key, data, q);
    ThenSteps(s, steps, s, Checking(key, data), s, Looking(key, data), a, q);
    steps := steps + turn;
    ThenSteps(s, steps, s, Looking(key, data), s, Writing(key, data, id), a, q);
    steps := steps + turn;
    ThenSteps(s, steps, s, Writing(key, data, id), Wrote(s, id, data, a.write), Done(a.write == Written), a, q);
    steps := steps + turn;
  }

  /** A call for a new key opens a stream, stores it and writes. */
  lemma OpensStream(s: Conn, key: string, data: Data, a: Attempt, q: nat) returns (steps: seq<Step>)
    requires s.active < s.cap && key !in s.table && Count(s.senders, InFlight) < q && a.opens
    ensures Leads(s, steps, With(Wrote(Stored(s, key), |s.written|, data, a.write), Done(a.write == Written)), q)
  {
    var turn, id := [Advance(|s.senders|, a.opens, a.write)], |s.written|;
    var u := Raised(s).(written := s.written + [[]]);
    steps := ComesToAdd(s, key, data, a, q);
    ThenSteps(s, steps, s, Adding(key, data), Raised(s), Opening(key, data), a, q);
    steps := steps + turn;
    ThenSteps(s, steps, Raised(s), Opening(key, data), u, Storing(key, data, id), a, q);
    steps := steps + turn;
    ThenSteps(s, steps, u, Storing(key, data, id), Stored(s, key), Writing(key, data, id), a, q);
    steps := steps + turn;
    ThenSteps(s, steps, Stored(s, key), Writing(key, data, id), Wrote(Stored(s, key), id, data, a.write),
              Done(a.write == Written), a, q);
    steps := steps + turn;
  }

  lemma IsRefused(s: Conn, key: string, data: Data, a: Attempt, q: nat) returns (steps: seq<Step>)
    requires s.active >= s.cap && Count(s.senders, InFlight) < q
    ensures Leads(s, steps, With(s, Done(false)), q)
  {
    steps := [Arrive(key, data)];
    Arrives(s, key, data, q);
    ThenSteps(s, steps, s, Checking(key, data), s, Done(false), a, q);
    steps := steps + [Advance(|s.senders|, a.opens, a.write)];
  }

  /** A call that runs alone does what the session model's Send says. */
  lemma AloneIsSend(s: Conn, key: string, data: Data, a: Attempt) returns (steps: seq<Step>, t: Conn)
    requires Distinct(s) && Count(s.senders, InFlight) == 0
    ensures Leads(s, steps, t, 1) && View(t) == Send(View(s), s.cap, key, data, a).table
    ensures t.senders == s.senders + [Done(Send(View(s), s.cap, key, data, a).ok)]
  {
    if s.active >= s.cap {
      steps := IsRefused(s, key, data, a, 1);
      t := With(s, Done(false));
    } else if key in s.table {
      steps := FindsStream(s, key, data, a, 1);
      t := With(Wrote(s, s.table[key], data, a.write), Done(a.write == Written));
      ViewWrote(s, key, data, a.write);
    } else if !a.opens {
      steps := RaisesAndFails(s, key, data, a, 1);
      t := With(Raised(s), Done(false));
    } else {
      steps := OpensStream(s, key, data, a, 1);
      t := With(Wrote(Stored(s, key), |s.written|, data, a.write), Done(a.write == Written));
      ViewStored(s, key);
      DistinctStored(s, key);
      ViewWrote(Stored(s, key), key, data, a.write);
    }
  }

  // ---- two queries under a cap of one ----

  /** Two calls in flight, for the keys "a" and "b". */
  function Two(active: int, table: map<string, nat>, written: seq<seq<Data>>, x: Sender, y: Sender): Conn
  {
    Conn(1, active, table, written, [x, y])
  }

  lemma BothStep(steps: seq<Step>, s: Conn, u: Conn, t: Conn)
    requires Leads(New(1), steps, s, 2) && |s.senders| == 2 && !s.senders[0].Done? && !s.senders[1].Done?
    requires u == Apply(s, Advance(0, true, Lost)) && |u.senders| == 2 && !u.senders[1].Done?
    requires t == Apply(u, Advance(1, true, Lost))
    ensures Leads(New(1), steps + [Advance(0, true, Lost)] + [Advance(1, true, Lost)], t, 2)
  {
    CountAtMost(s.senders);
    CountAtMost(u.senders);
    CountAtMost(t.senders);
    OneStep(s, Advance(0, true, Lost), 2);
    OneStep(u, Advance(1, true, Lost), 2);
    LeadsOn(New(1), steps, s, [Advance(0, true, Lost)], u, 2);
    LeadsOn(New(1), steps + [Advance(0, true, Lost)], u, [Advance(1, true, Lost)], t, 2);
  }

  lemma {:induction false} CountAtMost(senders: seq<Sender>)
    ensures Count(senders, InFlight) <= |senders|
  {
    if senders != [] {
      CountAtMost(senders[1..]);
    }
  }

  lemma BothArrive()
    ensures Leads(New(1), [Arrive("a", NOTHING)] + [Arrive("b", NOTHING)],
                  Two(0, map[], [], Checking("a", NOTHING), Checking("b", NOTHING)), 2)
  {
    var s := With(New(1), Checking("a", NOTHING));
    CountAppend([], Checking("a", NOTHING), InFlight);
    assert [] + [Checking("a", NOTHING)] == [Checking("a", NOTHING)];
    Arrives(New(1), "a", NOTHING, 2);
    Arrives(s, "b", NOTHING, 2);
    LeadsOn(New(1), [Arrive("a", NOTHING)], s, [Arrive("b", NOTHING)], With(s, Checking("b", NOTHING)), 2);
    assert With(s, Checking("b", NOTHING)) == Two(0, map[], [], Checking("a", NOTHING), Checking("b", NOTHING));
  }

  /** Two queries pass both checks together: two streams are counted and stored under a cap of one. */
  lemma TwoQueriesExceedCap() returns (steps: seq<Step>)
    ensures Schedule(New(1), steps, 2)
    ensures var t := Execute(New(1), steps, 2); t.active == 2 && t.table == map["a" := 0, "b" := 1]
  {
    var m: map<string, nat>, d := map[], NOTHING;
    steps := [Arrive("a", NOTHING)] + [Arrive("b", NOTHING)];
    BothArrive();
    steps := BothTurn(steps, Two(0, m, [], Checking("a", d), Checking("b", d)),
                      Two(0, m, [], Looking("a", d), Checking("b", d)),
                      Two(0, m, [], Looking("a", d), Looking("b", d)));
    steps := BothTurn(steps, Two(0, m, [], Looking("a", d), Looking("b", d)),
                      Two(0, m, [], Rechecking("a", d), Looking("b", d)),
                      Two(0, m, [], Rechecking("a", d), Rechecking("b", d)));
    steps := BothTurn(steps, Two(0, m, [], Rechecking("a", d), Rechecking("b", d)),
                      Two(0, m, [], Adding("a", d), Rechecking("b", d)), Two(0, m, [], Adding("a", d), Adding("b", d)));
    steps := BothTurn(steps, Two(0, m, [], Adding("a", d), Adding("b", d)),
                      Two(1, m, [], Opening("a", d), Adding("b", d)), Two(2, m, [], Opening("a", d), Opening("b", d)));
    steps := BothTurn(steps, Two(2, m, [], Opening("a", d), Opening("b", d)),
                      Two(2, m, [[]], Storing("a", d, 0), Opening("b", d)),
                      Two(2, m, [[], []], Storing("a", d, 0), Storing("b", d, 1)));
    steps := BothTurn(steps, Two(2, m, [[], []], Storing("a", d, 0), Storing("b", d, 1)),
                      Two(2, map["a" := 0], [[], []], Writing("a", d, 0), Storing("b", d, 1)),
                      Two(2, map["a" := 0, "b" := 1], [[], []], Writing("a", d, 0), Writing("b", d, 1)));
  }

  lemma BothTurn(steps: seq<Step>, s: Conn, u: Conn, t: Conn) returns (more: seq<Step>)
    requires Leads(New(1), steps, s, 2) && |s.senders| == 2 && !s.senders[0].Done? && !s.senders[1].Done?
    requires u == Apply(s, Advance(0, true, Lost)) && |u.senders| == 2 && !u.senders[1].Done?
    requires t == Apply(u, Advance(1, true, Lost))
    ensures Leads(New(1), more, t, 2)
  {
    BothStep(steps, s, u, t);
    more := steps + [Advance(0, true, Lost)] + [Advance(1, true, Lost)];
  }

  // ---- each query has one call at a time ----

  /** Calls in flight are for different queries. */
  predicate OnePerQuery(s: Conn)
  {
    forall i, j | 0 <= i < j < |s.senders| && InFlight(s.senders[i]) && InFlight(s.senders[j]) ::
      KeyOf(s.senders[i]) != KeyOf(s.senders[j])
  }

  function KeyOf(x: Sender): string
  {
    if x.Done? then "" else x.key
  }

  predicate QuerySchedule(s: Conn, steps: seq<Step>, q: nat)
    ensures QuerySchedule(s, steps, q) ==> Schedule(s, steps, q)
    decreases |steps|
  {
    OnePerQuery(s) && Count(s.senders, InFlight) <= q
    && (steps == [] || (Enabled(s, steps[0]) && QuerySchedule(Apply(s, steps[0]), steps[1..], q)))
  }

  /** A stream opened after the first `b` holds at most one frame, and none while its one writer is coming. */
  ghost predicate OneFrameEach(s: Conn, b: nat)
  {
    && b <= |s.written| && (forall id | b <= id < |s.written| :: |s.written[id]| <= 1)
    && (forall i | 0 <= i < |s.senders| && HoldsStream(s.senders[i]) ::
          s.senders[i].id < |s.written| && (s.senders[i].id >= b ==> s.written[s.senders[i].id] == []))
    && (forall i, j | 0 <= i < j < |s.senders| && HoldsStream(s.senders[i]) && HoldsStream(s.senders[j]) ::
          s.senders[i].id == s.senders[j].id ==> s.senders[i].id < b)
  }

  /** No call is about to find a stream opened after the first `b`. */
  predicate FindsOldOnly(s: Conn, b: nat)
  {
    forall i | 0 <= i < |s.senders| && s.senders[i].Looking? && s.senders[i].key in s.table ::
      s.table[s.senders[i].key] < b
  }

  lemma FindsOldStep(s: Conn, step: Step, b: nat)
    requires Enabled(s, step) && OnePerQuery(s) && s.active >= s.cap && FindsOldOnly(s, b)
    ensures FindsOldOnly(Apply(s, step), b)
  {
  }

  lemma OneFrameWrites(s: Conn, b: nat, who: nat, opens: bool, write: Write)
    requires OneFrameEach(s, b) && who < |s.senders| && s.senders[who].Writing?
    ensures OneFrameEach(Apply(s, Advance(who, opens, write)), b)
  {
    var x, t := s.senders[who], Apply(s, Advance(who, opens, write));
    assert t.senders[who].Done?;
    forall i | 0 <= i < |t.senders| && HoldsStream(t.senders[i]) && t.senders[i].id >= b
      ensures t.written[t.senders[i].id] == []
    {
      assert i != who && t.senders[i] == s.senders[i];
      assert i < who || who < i;
    }
  }

  lemma OneFrameOpens(s: Conn, b: nat, who: nat, write: Write)
    requires OneFrameEach(s, b) && who < |s.senders| && s.senders[who].Opening?
    ensures OneFrameEach(Apply(s, Advance(who, true, write)), b)
  {
  }

  lemma OneFrameArrives(s: Conn, b: nat, key: string, data: Data)
    requires OneFrameEach(s, b)
    ensures OneFrameEach(Apply(s, Arrive(key, data)), b)
  {
  }

  /** A step after which the sender holds no stream. */
  lemma OneFrameEmptyHands(s: Conn, b: nat, who: nat, y: Sender)
    requires OneFrameEach(s, b) && who < |s.senders| && !HoldsStream(y)
    ensures OneFrameEach(s.(senders := s.senders[who := y]), b)
  {
  }

  /** A step in which the sender keeps its stream or takes one of the first `b`. */
  lemma OneFrameKeeps(s: Conn, b: nat, who: nat, y: Sender)
    requires OneFrameEach(s, b) && who < |s.senders| && HoldsStream(y) && y.id < |s.written|
    requires y.id < b || (HoldsStream(s.senders[who]) && s.senders[who].id == y.id)
    ensures OneFrameEach(s.(senders := s.senders[who := y]), b)
  {
  }

  lemma OneFrameShared(s: Conn, b: nat, active: int, table: map<string, nat>)
    ensures OneFrameEach(s.(active := active, table := table), b) <==> OneFrameEach(s, b)
  {
  }

  lemma OneFrameOther(s: Conn, b: nat, step: Step)
    requires OneFrameEach(s, b) && FindsOldOnly(s, b) && Enabled(s, step) && Distinct(s)
    requires step.Advance? ==> !s.senders[step.who].Writing? && !(s.senders[step.who].Opening? && step.opens)
    ensures OneFrameEach(Apply(s, step), b)
  {
    match step
    case Arrive(key, data) => OneFrameArrives(s, b, key, data);
    case Advance(who, opens, write) =>
      var t := Apply(s, step);
      var y := t.senders[who];
      if HoldsStream(y) {
        OneFrameKeeps(s, b, who, y);
      } else {
        OneFrameEmptyHands(s, b, who, y);
      }
      OneFrameShared(s.(senders := s.senders[who := y]), b, t.active, t.table);
  }

  lemma OneFrameStep(s: Conn, step: Step, b: nat)
    requires OneFrameEach(s, b) && FindsOldOnly(s, b) && Enabled(s, step) && Distinct(s)
    ensures OneFrameEach(Apply(s, step), b)
  {
    if step.Advance? && s.senders[step.who].Writing? {
      OneFrameWrites(s, b, step.who, step.opens, step.write);
    } else if step.Advance? && s.senders[step.who].Opening? && step.opens {
      OneFrameOpens(s, b, step.who, step.write);
    } else {
      OneFrameOther(s, b, step);
    }
  }

  ghost predicate StarvingAlone(s: Conn, b: nat)
  {
    s.active < s.cap || (b < s.cap && OneFrameEach(s, b) && FindsOldOnly(s, b))
  }

  lemma StarvingAloneStep(s: Conn, step: Step, b: nat) returns (c: nat)
    requires Enabled(s, step) && Counted(s) && Distinct(s) && OnePerQuery(s) && StarvingAlone(s, b)
    ensures StarvingAlone(Apply(s, step), c)
  {
    if s.active >= s.cap {
      c := b;
      OneFrameStep(s, step, b);
      FindsOldStep(s, step, b);
    } else {
      c := |Apply(s, step).written|;
      CountedStep(s, step);
      DistinctStep(s, step);
    }
  }

  lemma {:induction false} StarvingAloneRun(s: Conn, steps: seq<Step>, q: nat, b: nat) returns (c: nat)
    requires QuerySchedule(s, steps, q) && Counted(s) && Distinct(s) && StarvingAlone(s, b)
    ensures StarvingAlone(Execute(s, steps, q), c)
    decreases |steps|
  {
    if steps == [] {
      c := b;
    } else {
      c := StarvingAloneStep(s, steps[0], b);
      CountedStep(s, steps[0]);
      DistinctStep(s, steps[0]);
      c := StarvingAloneRun(Apply(s, steps[0]), steps[1..], q, c);
    }
  }

  /**
   * When each query has one call in flight at a time, however many queries there are, a table with
   * as many streams as the cap has one that was written at most once.
   */
  lemma LastQueryStarves(cap: int, steps: seq<Step>, q: nat) returns (key: string)
    requires cap >= 1 && QuerySchedule(New(cap), steps, q) && |Execute(New(cap), steps, q).table| >= cap
    ensures var t := Execute(New(cap), steps, q);
            key in t.table && t.table[key] < |t.written| && |t.written[t.table[key]]| <= 1
  {
    var b := StarvingAloneRun(New(cap), steps, q, 0);
    TableRun(New(cap), steps, q);
    BoundedRun(New(cap), steps, q);
    var t := Execute(New(cap), steps, q);
    InjectiveBound(t.table, |t.written|);
    key := LateStream(t.table, b);
  }
}
