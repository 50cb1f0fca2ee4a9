/** The life of an executor: its flags, its run goroutine, and the frames it hands to the sender. */
module Lifecycle {
  import opened Rows
  import opened Compilation
  import opened Polling

  datatype Goroutine = NotStarted | Looping | Exited

  /** The executor's flags, its goroutine, and every frame it has handed to the sender. */
  datatype Life = Life(running: bool, stopClosed: bool, cancelled: bool, started: bool, goroutine: Goroutine,
      frames: seq<Frame>)

  /**
   * Start, Stop and cancel come from the registry; the goroutine then picks any ready case of its
   * select: a tick (one poll), the cancelled context, or the closed stop channel.
   */
  datatype LifeEvent =
    | Start(initialized: bool)
    | Stop
    | Cancel
    | Tick(plan: Plan, time: string -> Option<int>, cursor: int, rowsSent: int, db: DbAnswer, encodes: bool,
        sends: bool)
    | SeeCancel
    | SeeStop

  function Born(): Life
  {
    Life(false, false, false, false, NotStarted, [])
  }

  ghost predicate CanHappen(l: Life, e: LifeEvent)
  {
    match e
    case Start(_) => !l.started
    case Stop => true
    case Cancel => true
    case Tick(_, _, _, _, db, _, _) => l.goroutine.Looping? && (db.Answer? ==> Wide(db.rows, |db.columns|))
    case SeeCancel => l.goroutine.Looping? && l.cancelled
    case SeeStop => l.goroutine.Looping? && l.stopClosed
  }

  /** Stop would close a closed channel. */
  predicate StopPanics(l: Life)
  {
    l.running && l.stopClosed
  }

  ghost function Happen(l: Life, e: LifeEvent): Life
    requires CanHappen(l, e)
  {
    match e
    case Start(initialized) =>
      if initialized then l.(running := true, started := true, goroutine := Looping)
      else l.(started := true, frames := l.frames + [Error(InitializationError)])
    case Stop => if l.running then l.(running := false, stopClosed := true) else l
    case Cancel => l.(cancelled := true)
    case Tick(plan, time, cursor, rowsSent, db, encodes, sends) =>
      l.(frames := l.frames + PollMeaning(plan, time, cursor, rowsSent, db, encodes, sends).frames)
    case SeeCancel => l.(goroutine := Exited, frames := l.frames + [Error(ContextCancelled)])
    case SeeStop => l.(goroutine := Exited, frames := l.frames + [Completed])
  }

  ghost predicate History(l: Life, es: seq<LifeEvent>)
    decreases |es|
  {
    es == [] || (CanHappen(l, es[0]) && History(Happen(l, es[0]), es[1..]))
  }

  ghost function After(l: Life, es: seq<LifeEvent>): Life
    requires History(l, es)
    decreases |es|
  {
    if es == [] then l else After(Happen(l, es[0]), es[1..])
  }

  predicate Terminal(f: Frame)
  {
    f == Completed || f == Error(ContextCancelled)
  }

  function Terminals(frames: seq<Frame>): nat
  {
    if frames == [] then 0
    else Terminals(frames[..|frames| - 1]) + if Terminal(frames[|frames| - 1]) then 1 else 0
  }

  lemma {:induction false} TerminalsConcat(a: seq<Frame>, b: seq<Frame>)
    ensures Terminals(a + b) == Terminals(a) + Terminals(b)
    decreases |b|
  {
    if b == [] {
      assert a + b == a;
    } else {
      assert (a + b)[..|a + b| - 1] == a + b[..|b| - 1];
      TerminalsConcat(a, b[..|b| - 1]);
    }
  }

  lemma {:induction false} NoTerminals(frames: seq<Frame>)
    requires forall i | 0 <= i < |frames| :: !Terminal(frames[i])
    ensures Terminals(frames) == 0
  {
    if frames != [] {
      NoTerminals(frames[..|frames| - 1]);
    }
  }

  /** No poll, whatever it meets, sends a terminal frame. */
  lemma PollSendsNoTerminal(
    plan: Plan, time: string -> Option<int>, cursor: int, rowsSent: int, db: DbAnswer, encodes: bool, sends: bool)
    requires db.Answer? ==> Wide(db.rows, |db.columns|)
    ensures Terminals(PollMeaning(plan, time, cursor, rowsSent, db, encodes, sends).frames) == 0
  {
    var frames := PollMeaning(plan, time, cursor, rowsSent, db, encodes, sends).frames;
    forall i | 0 <= i < |frames| ensures !Terminal(frames[i]) {
    }
    NoTerminals(frames);
  }

  ghost predicate Safe(l: Life)
  {
    && !StopPanics(l)
    && (l.goroutine.NotStarted? ==> !l.running && !l.stopClosed)
    && (!l.started ==> l.goroutine.NotStarted?)
    && Terminals(l.frames) == (if l.goroutine.Exited? then 1 else 0)
    && (l.goroutine.Exited? ==> l.frames != [] && Terminal(l.frames[|l.frames| - 1]))
  }

  lemma SafeStep(l: Life, e: LifeEvent)
    requires Safe(l) && CanHappen(l, e)
    ensures Safe(Happen(l, e))
    ensures l.goroutine.Exited? ==> Happen(l, e).frames == l.frames && Happen(l, e).goroutine.Exited?
  {
    var t := Happen(l, e);
    if e.Tick? {
      var frames := PollMeaning(e.plan, e.time, e.cursor, e.rowsSent, e.db, e.encodes, e.sends).frames;
      PollSendsNoTerminal(e.plan, e.time, e.cursor, e.rowsSent, e.db, e.encodes, e.sends);
      TerminalsConcat(l.frames, frames);
    } else if t.frames != l.frames {
      TerminalsConcat(l.frames, [t.frames[|l.frames|]]);
    }
  }

  /**
   * Lifecycle safety: in every history of an executor that is started at most once, Stop never
   * closes a closed channel; the goroutine attempts exactly one terminal frame when it exits and
   * none before, and that frame is the executor's last.
   */
  lemma {:induction false} LifecycleSafe(l: Life, es: seq<LifeEvent>)
    requires Safe(l) && History(l, es)
    ensures Safe(After(l, es))
    ensures l.goroutine.Exited? ==> After(l, es).frames == l.frames
    decreases |es|
  {
    if es != [] {
      SafeStep(l, es[0]);
      LifecycleSafe(Happen(l, es[0]), es[1..]);
    }
  }

  lemma BornSafe()
    ensures Safe(Born())
  {
  }

  /** So every history of a new executor is safe, with at most one terminal frame in it. */
  lemma EveryLifeIsSafe(es: seq<LifeEvent>)
    requires History(Born(), es)
    ensures var l := After(Born(), es); Safe(l) && Terminals(l.frames) <= 1
  {
    BornSafe();
    LifecycleSafe(Born(), es);
  }
}
