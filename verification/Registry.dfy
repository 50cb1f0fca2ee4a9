/** The query registry. */
module Registry {
  import opened Rows
  import opened Compilation
  import opened Polling
  import opened Execution

  // ---- the registry ----

  /** How a call ends; `CompilerPanicked` is not an error value: the compiler's panic leaves Register itself. */
  datatype Outcome = NoError | TooManyQueries | QueryExists | InvalidQuery | CompilerPanicked | QueryNotFound

  /** A running executor stands at its plan's start cursor and has sent nothing; another one has no state. */
  ghost predicate StandsAtStart(e: Executor, plan: Plan, max: MaxAnswer, time: string -> Option<int>)
    reads e, e.state
  {
    && (e.running <==> plan.mode == Beginning || !max.MaxError?)
    && (e.running <==> e.state != null)
    && (e.running ==>
          && InitialCursor(plan, max, time) == Some(e.state.cursorValue) && e.state.rowsSent == 0
          && (plan.mode == Beginning || max.MaxNull? ==> e.state.cursorValue == 0)
          && (plan.mode == Now && max.MaxText? && max.text != "" ==>
                e.state.cursorValue == ReadCursor(plan.cursorType, max.text, time)))
  }

  class Counters {
    var registered: int
    var unregistered: int

    constructor ()
      ensures registered == 0 && unregistered == 0
    {
      registered := 0;
      unregistered := 0;
    }
  }

  class Query {
    const id: string
    const sql: string
    const plan: Plan
    const executor: Executor
    var active: bool
    var cancelled: bool

    constructor (id: string, sql: string, plan: Plan, executor: Executor)
      ensures this.id == id && this.sql == sql && this.plan == plan && this.executor == executor && active && !cancelled
    {
      this.id := id;
      this.sql := sql;
      this.plan := plan;
      this.executor := executor;
      active := true;
      cancelled := false;
    }
  }

  lemma MapGrows<V>(m: map<string, V>, key: string, v: V)
    requires key !in m
    ensures |m[key := v]| == |m| + 1
  {
    assert m[key := v].Keys == m.Keys + {key};
  }

  lemma MapShrinks<V>(m: map<string, V>, key: string)
    requires key in m
    ensures |m - {key}| == |m| - 1
  {
    assert (m - {key}).Keys == m.Keys - {key};
  }

  class Manager {
    var queries: map<string, Query>
    const maxQueries: int
    const batchSize: int
    const counters: Counters
    const metrics: Metrics

    /**
     * Every registered query is active under its own id with a sound executor, the registry
     * respects its cap, and the global counters account for its size.
     */
    ghost predicate Valid()
      reads this, counters
      reads set id | id in queries :: queries[id]
      reads set id | id in queries :: queries[id].executor
      reads set id | id in queries :: queries[id].executor.stopCh
    {
      && counters.registered - counters.unregistered == |queries| <= (if maxQueries >= 0 then maxQueries else 0)
      && (forall id | id in queries :: Entry(id, queries[id]))
    }

    /** The registry while the query under `id` is being taken down. */
    ghost predicate ValidBut(id: string)
      reads this, counters
      reads set other | other in queries :: queries[other]
      reads set other | other in queries :: queries[other].executor
      reads set other | other in queries :: queries[other].executor.stopCh
    {
      && counters.registered - counters.unregistered == |queries| <= (if maxQueries >= 0 then maxQueries else 0)
      && (forall other | other in queries && other != id :: Entry(other, queries[other]))
    }

    /** The query is registered under its own id; the id tells executors and stop channels apart. */
    ghost predicate Entry(id: string, q: Query)
      reads q, q.executor, q.executor.stopCh
    {
      q.id == id && q.active && !q.cancelled && q.executor.queryID == id && q.executor.Valid()
    }

    constructor (maxQueries: int, batchSize: int)
      ensures Valid() && queries == map[] && this.maxQueries == maxQueries && this.batchSize == batchSize
              && fresh(counters) && fresh(metrics)
    {
      queries := map[];
      this.maxQueries := maxQueries;
      this.batchSize := batchSize;
      counters := new Counters();
      metrics := new Metrics();
    }

    /** Starts an executor for a new query; a failed start still yields the query, not running. */
    method Launch(id: string, sql: string, plan: Plan, max: MaxAnswer, time: string -> Option<int>) returns (q: Query)
      modifies metrics
      ensures fresh(q) && fresh(q.executor) && fresh(q.executor.stopCh) && Entry(id, q)
      ensures q.sql == sql && q.plan == plan && StandsAtStart(q.executor, plan, max, time)
      ensures q.executor.state != null ==> fresh(q.executor.state)
      ensures metrics.errors == old(metrics.errors) + if q.executor.running then 0 else 1
    {
      StartCursorIs(plan, max, time);
      var exec := new Executor(id, metrics);
      var frames, started := exec.Start(plan, max, time);
      q := new Query(id, sql, plan, exec);
    }

    /** Cancels a query's context and stops its executor. */
    method Retire(id: string, q: Query)
      requires Entry(id, q)
      modifies q, q.executor, q.executor.stopCh
      ensures q.cancelled && !q.active && !q.executor.running
      ensures old(q.executor.running) ==> q.executor.stopCh.closed
    {
      q.cancelled := true;
      q.executor.Stop();
      q.active := false;
    }

    method Admit(id: string, q: Query)
      requires Valid() && id !in queries && |queries| < maxQueries && Entry(id, q)
      modifies this, counters
      ensures Valid() && queries == old(queries)[id := q]
      ensures counters.registered == old(counters.registered) + 1 && counters.unregistered == old(counters.unregistered)
    {
      MapGrows(queries, id, q);
      queries := queries[id := q];
      counters.registered := counters.registered + 1;
    }

    /**
     * A query is admitted exactly when there is room, its id is new and the compiler plans it; it then
     * runs if its start cursor can be determined.  `max` is the database's answer to MAX(cursor).
     */
    method Register(
      id: string, sql: string, hint: Option<string>, mode: Mode, catalog: map<string, seq<Column>>, max: MaxAnswer,
      time: string -> Option<int>) returns (outcome: Outcome)
      requires Valid()
      modifies this, counters, metrics
      ensures Valid()
      ensures outcome == if |old(queries)| >= maxQueries then TooManyQueries
                         else if id in old(queries) then QueryExists
                         else
                           match Compile(catalog, sql, hint, mode, batchSize)
                           case Planned(_) => NoError
                           case ParserPanic => CompilerPanicked
                           case _ => InvalidQuery
      ensures outcome != NoError ==> queries == old(queries) && unchanged(counters) && unchanged(metrics)
      ensures outcome == NoError ==>
                && id in queries && fresh(queries[id]) && fresh(queries[id].executor) && queries[id].sql == sql
                && queries == old(queries)[id := queries[id]]
                && queries[id].plan == Compile(catalog, sql, hint, mode, batchSize).plan
                && StandsAtStart(queries[id].executor, queries[id].plan, max, time)
                && metrics.errors == old(metrics.errors) + (if queries[id].executor.running then 0 else 1)
                && counters.registered == old(counters.registered) + 1
                    && counters.unregistered == old(counters.unregistered)
    {
      if |queries| >= maxQueries {
        return TooManyQueries;
      }
      if id in queries {
        return QueryExists;
      }
      var result := Compile(catalog, sql, hint, mode, batchSize);
      if result.ParserPanic? {
        return CompilerPanicked;
      }
      if !result.Planned? {
        return InvalidQuery;
      }
      var q := Launch(id, sql, result.plan, max, time);
      Admit(id, q);
      return NoError;
    }

    /** The first snapshots after a registration: a running query is shown at its start cursor with nothing sent. */
    method FirstSnapshot(
      id: string, sql: string, hint: Option<string>, mode: Mode, catalog: map<string, seq<Column>>, max: MaxAnswer,
      time: string -> Option<int>) returns (outcome: Outcome, states: map<string, StreamState>)
      requires Valid()
      modifies this, counters, metrics
      ensures Valid()
      ensures outcome == NoError ==>
                && Compile(catalog, sql, hint, mode, batchSize).Planned?
                && (id in states <==> mode == Beginning || !max.MaxError?)
                && (id in states ==>
                      && states[id].rowsSent == 0
                      && (mode == Beginning || max.MaxNull? ==> states[id].cursorValue == 0)
                      && (mode == Now && max.MaxText? && max.text != "" ==>
                            var cursorType := Compile(catalog, sql, hint, mode, batchSize).plan.cursorType;
                            states[id].cursorValue == ReadCursor(cursorType, max.text, time)))
    {
      outcome := Register(id, sql, hint, mode, catalog, max, time);
      if outcome == NoError {
        PlanIsSound(catalog, sql, hint, mode, batchSize);
      }
      states := GetAllQueryStates();
    }

    method Unregister(id: string) returns (outcome: Outcome)
      requires Valid()
      modifies this, counters
      modifies if id in queries then {queries[id]} else {}
      modifies if id in queries then {queries[id].executor} else {}
      modifies if id in queries then {queries[id].executor.stopCh} else {}
      ensures Valid()
      ensures outcome == if id in old(queries) then NoError else QueryNotFound
      ensures outcome == QueryNotFound ==> queries == old(queries) && unchanged(counters)
      ensures outcome == NoError ==>
                var q := old(queries)[id];
                && queries == old(queries) - {id}
                && q.cancelled && !q.active && !q.executor.running
                && (old(q.executor.running) ==> q.executor.stopCh.closed)
                && counters.unregistered == old(counters.unregistered) + 1
                    && counters.registered == old(counters.registered)
    {
      if id !in queries {
        return QueryNotFound;
      }
      var q := queries[id];
      Retire(id, q);
      Forget(id);
      return NoError;
    }

    /** Deletes an entry and counts it. */
    method Forget(id: string)
      requires ValidBut(id) && id in queries
      modifies this, counters
      ensures Valid() && queries == old(queries) - {id}
      ensures counters.unregistered == old(counters.unregistered) + 1 && counters.registered == old(counters.registered)
    {
      MapShrinks(queries, id);
      queries := queries - {id};
      counters.unregistered := counters.unregistered + 1;
    }

    /** List returns every registered query once, in some order. */
    method List() returns (list: seq<Query>)
      requires Valid()
      ensures |list| == |queries|
      ensures forall id | id in queries :: queries[id] in list
      ensures forall q | q in list :: q.id in queries && queries[q.id] == q
    {
      list := [];
      var todo := queries.Keys;
      while todo != {}
        invariant todo <= queries.Keys && |list| + |todo| == |queries|
        invariant forall id | id in queries && id !in todo :: queries[id] in list
        invariant forall q | q in list :: q.id in queries && queries[q.id] == q
        decreases |todo|
      {
        var id :| id in todo;
        todo := todo - {id};
        list := list + [queries[id]];
      }
    }

    /** A snapshot of the state of every query whose executor has one. */
    method GetAllQueryStates() returns (states: map<string, StreamState>)
      ensures forall id :: id in states <==> id in queries && queries[id].executor.state != null
      ensures forall id | id in states ::
                && fresh(states[id])
                && states[id].cursorValue == queries[id].executor.state.cursorValue
                && states[id].rowsSent == queries[id].executor.state.rowsSent
    {
      states := map[];
      var todo := queries.Keys;
      while todo != {}
        invariant todo <= queries.Keys
        invariant forall id :: id in states <==> id in queries && id !in todo && queries[id].executor.state != null
        invariant forall id | id in states ::
                    && fresh(states[id])
                    && states[id].cursorValue == queries[id].executor.state.cursorValue
                    && states[id].rowsSent == queries[id].executor.state.rowsSent
        decreases |todo|
      {
        var id :| id in todo;
        todo := todo - {id};
        var state := queries[id].executor.GetState();
        if state != null {
          states := states[id := state];
        }
      }
    }
  }
}
