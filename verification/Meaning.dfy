/** From the plan to the rows its polls deliver: compilation preserves meaning. */
module Meaning {
  import opened Rows
  import opened Text
  import opened SqlText
  import opened ParseRoundTrip
  import opened Compilation
  import opened PollingText
  import opened CursorStream
  import opened Delivery
  import opened Drain

  // ---- what the text sent to the database selects ----

  /** A comparison of the cursor with the parameter; a NULL cursor compares as unknown. */
  function Holds(comparison: Comparison, cursor: Option<int>, parameter: int): Truth
  {
    match cursor
    case None => Unknown
    case Some(c) => if c > parameter || (comparison == AtLeast && c == parameter) then True else False
  }

  /** The rows for which the statement's WHERE condition is true: its filter and its comparison. */
  ghost predicate Satisfies(s: Statement, meaning: string -> Condition, parameter: int, r: Row)
  {
    And(meaning(s.filter)(r), Holds(s.comparison, r.cursor, parameter)) == True
  }

  /** The orders in which the statement may return these rows. */
  ghost predicate MayReturn(s: Statement, order: seq<Row>, rows: seq<Row>)
  {
    && multiset(order) == multiset(rows)
    && (forall i | 0 <= i < |order| :: order[i].cursor.Some?)
    && forall i, j | 0 <= i < j < |order| ::
         if s.direction == Ascending then order[i].cursor.value <= order[j].cursor.value
         else order[i].cursor.value >= order[j].cursor.value
  }

  /** What the statement selects from a table before ordering and cutting. */
  ghost function Answer(s: Statement, table: seq<Row>, meaning: string -> Condition, parameter: int): seq<Row>
  {
    Where(table, r => Satisfies(s, meaning, parameter, r))
  }

  /** The condition TRUE is true of every row. */
  ghost predicate TrueIsTrue(meaning: string -> Condition)
  {
    forall r: Row :: meaning("TRUE")(r) == True
  }

  /** What the plan's WHERE text means; no text keeps every row. */
  function PlanFilter(plan: Plan, meaning: string -> Condition): Condition
  {
    if plan.baseWhere == "" then r => True else meaning(plan.baseWhere)
  }

  lemma {:induction false} WhereAgrees(rows: seq<Row>, p: Row -> bool, q: Row -> bool)
    requires forall r :: p(r) == q(r)
    ensures Where(rows, p) == Where(rows, q)
  {
    if rows != [] {
      WhereAgrees(rows[..|rows| - 1], p, q);
    }
  }

  /** The plan's statement selects exactly the rows the stream has still to see. */
  lemma StatementSelectsPending(plan: Plan, table: seq<Row>, meaning: string -> Condition, parameter: int)
    requires TrueIsTrue(meaning)
    ensures Answer(PollingStatement(plan), table, meaning, parameter)
            == Pending(table, PlanFilter(plan, meaning), parameter)
  {
    var p: Row -> bool := r => Satisfies(PollingStatement(plan), meaning, parameter, r);
    var q: Row -> bool := r => Selected(PlanFilter(plan, meaning), parameter, r);
    WhereAgrees(table, p, q);
  }

  /** Reading this text gives a statement that selects the pending rows, wherever the cursor stands. */
  ghost predicate SendsPending(text: string, table: seq<Row>, filter: Condition, meaning: string -> Condition)
  {
    && ReadStatement(text).Some?
    && forall parameter ::
         Answer(ReadStatement(text).value, table, meaning, parameter) == Pending(table, filter, parameter)
  }

  /** The text a plan sends selects the pending rows when its WHERE text is closed. */
  lemma TextSendsPending(plan: Plan, table: seq<Row>, meaning: string -> Condition)
    ensures OneLineParts(plan) && TrueIsTrue(meaning) && Closed(FilterText(plan)) ==>
              SendsPending(BuildStreamingSQL(plan), table, PlanFilter(plan, meaning), meaning)
  {
    if OneLineParts(plan) && TrueIsTrue(meaning) && Closed(FilterText(plan)) {
      BuiltReadsBackIff(plan);
      forall parameter
        ensures Answer(PollingStatement(plan), table, meaning, parameter)
                == Pending(table, PlanFilter(plan, meaning), parameter)
      {
        StatementSelectsPending(plan, table, meaning, parameter);
      }
    }
  }

  /** A poll's answer is legal in the stream model exactly when the database may give it to the text. */
  lemma PollAnswersText(plan: Plan, meaning: string -> Condition, parse: Row -> Option<int>, s: Stream, e: Event)
    requires OneLineParts(plan) && TrueIsTrue(meaning) && Closed(FilterText(plan)) && plan.batchSize >= 0 && e.Poll?
    ensures ReadStatement(BuildStreamingSQL(plan)).Some?
    ensures Legal(StreamQuery(plan, meaning, parse), s, e)
            <==> && MayReturn(ReadStatement(BuildStreamingSQL(plan)).value, e.order,
                              Answer(ReadStatement(BuildStreamingSQL(plan)).value, s.table, meaning, s.cursor))
                 && |e.scanned| <= Min(plan.batchSize, |e.order|)
                 && (e.outcome.Sent? ==> e.outcome.copies >= 1)
  {
    BuiltReadsBackIff(plan);
    StatementSelectsPending(plan, s.table, meaning, s.cursor);
  }

  // ---- the user's query, run once ----

  /** The rows the original query returns: those its WHERE text is true of, or all of them. */
  ghost function QueryRows(table: seq<Row>, w: Option<string>, meaning: string -> Condition): seq<Row>
  {
    match w
    case None => table
    case Some(text) => Where(table, r => meaning(text)(r) == True)
  }

  ghost predicate IgnoresOuterSpace(meaning: string -> Condition)
  {
    forall text, r: Row :: meaning(TrimSpace(text))(r) == meaning(text)(r)
  }

  /** The plan's stream query: its filter, a parser of cursor cells, and the batch size. */
  ghost function StreamQuery(plan: Plan, meaning: string -> Condition, parse: Row -> Option<int>): Query
    requires plan.batchSize >= 0
  {
    Query(PlanFilter(plan, meaning), parse, plan.batchSize)
  }

  ghost predicate AboveStart(r: Row, start: int)
  {
    r.cursor.Some? && r.cursor.value > start
  }

  lemma PendingIsQuery(table: seq<Row>, w: Option<string>, filter: Condition, meaning: string -> Condition, start: int)
    requires forall r: Row :: filter(r) == if w.None? then True else meaning(w.value)(r)
    ensures multiset(Pending(table, filter, start))
            == multiset(Where(QueryRows(table, w, meaning), r => AboveStart(r, start)))
  {
    forall r: Row ensures multiset(Pending(table, filter, start))[r]
                          == multiset(Where(QueryRows(table, w, meaning), r => AboveStart(r, start)))[r] {
      PendingCount(table, filter, start, r);
      QueryCount(table, w, meaning, start, r);
      assert filter(r) == if w.None? then True else meaning(w.value)(r);
    }
  }

  lemma QueryCount(table: seq<Row>, w: Option<string>, meaning: string -> Condition, start: int, r: Row)
    ensures multiset(Where(QueryRows(table, w, meaning), r => AboveStart(r, start)))[r]
            == if AboveStart(r, start) && (w.Some? ==> meaning(w.value)(r) == True) then multiset(table)[r] else 0
  {
  }

  /**
   * Compilation preserves meaning: for a printed `SELECT p FROM t [WHERE w]` accepted by the
   * compiler, draining the plan's stream over a fixed table with unique cursors delivers, counting
   * duplicates, what the original query returns restricted to cursor > start.
   */
  lemma CompilationPreservesMeaning(
    catalog: map<string, seq<Column>>, p: string, t: string, w: Option<string>, hint: Option<string>,
    mode: Mode, batchSize: int, meaning: string -> Condition, parse: Row -> Option<int>,
    table: seq<Row>, start: int, es: seq<Event>)
    requires Printable(p, t, w) && NoSpaceRun(p) && (w.Some? ==> TrimSpace(w.value) != "")
    requires Compile(catalog, Print(p, t, w), hint, mode, batchSize).Planned? && batchSize >= 1
    requires IgnoresOuterSpace(meaning)
    requires var q := StreamQuery(Compile(catalog, Print(p, t, w), hint, mode, batchSize).plan, meaning, parse);
             && UniqueCursors(table) && Parses(q, table) && PerfectRun(q, Opened(table, start), es)
             && Pending(table, q.filter, Run(q, Opened(table, start), es).cursor) == []
    ensures var plan := Compile(catalog, Print(p, t, w), hint, mode, batchSize).plan;
            var delivered := Run(StreamQuery(plan, meaning, parse), Opened(table, start), es).acked;
            && plan.table == t && plan.projection == p && plan.baseWhere == ClauseText(w)
            && multiset(delivered) == multiset(Where(QueryRows(table, w, meaning), r => AboveStart(r, start)))
            && Ordered(delivered)
    ensures var plan := Compile(catalog, Print(p, t, w), hint, mode, batchSize).plan;
            '\n' !in plan.cursorColumn && TrueIsTrue(meaning) && Closed(FilterText(plan)) ==>
              SendsPending(BuildStreamingSQL(plan), table, PlanFilter(plan, meaning), meaning)
  {
    var plan := Compile(catalog, Print(p, t, w), hint, mode, batchSize).plan;
    var q := StreamQuery(plan, meaning, parse);
    PlanIsSound(catalog, Print(p, t, w), hint, mode, batchSize);
    ParseInvertsPrintingIff(p, t, w);
    DrainedDelivery(q, table, start, es);
    FilterMeans(plan, w, meaning);
    PendingIsQuery(table, w, q.filter, meaning, start);
    PrintedPlanIsOneLine(plan, p, t, w);
    TextSendsPending(plan, table, meaning);
  }

  lemma PrintedPlanIsOneLine(plan: Plan, p: string, t: string, w: Option<string>)
    requires Printable(p, t, w) && plan.projection == p && plan.table == t
    ensures '\n' !in plan.cursorColumn ==> OneLineParts(plan)
  {
    NoFromLine(p);
    assert '\n' !in t by {
      assert !Visible('\n');
    }
  }

  /** A projection without a blank-separated FROM has none on a line of its own either. */
  lemma NoFromLine(p: string)
    requires p != [] && Trimmed(p) && !HasBlankKeyword(Collapse(ToUpper(p)), "FROM")
    ensures !Contains(p, FROM_LINE)
  {
    var s := " " + p + " ";
    PaddedLine(p);
    UpperKeepsSpace(p);
    PaddedCollapse(ToUpper(p));
    UpperPadded(p);
    assert " " + "FROM" + " " == " FROM ";
    var i := Index(s, FROM_LINE);
    IndexFirst(s, FROM_LINE);
    if i != -1 {
      LineAround(s, i);
    }
  }

  lemma PaddedLine(p: string)
    ensures Contains(p, FROM_LINE) ==> Contains(" " + p + " ", FROM_LINE)
  {
    var s, i := " " + p + " ", Index(p, FROM_LINE);
    IndexFirst(p, FROM_LINE);
    IndexFirst(s, FROM_LINE);
    if i != -1 {
      assert s[i + 1..i + 7] == p[i..i + 6];
      assert At(s, FROM_LINE, i + 1);
    }
  }

  lemma LineAround(s: string, i: nat)
    requires At(s, FROM_LINE, i)
    ensures Contains(Collapse(ToUpper(s)), " FROM ")
  {
    var a, b := ToUpper(s[..i]), ToUpper(s[i + 6..]);
    CutAround(s, i, FROM_LINE);
    UpperAround(s[..i], FROM_LINE, s[i + 6..]);
    UpperIsSame(FROM_LINE);
    LineIsGap(a, b);
    CollapseAround(a, b);
  }

  lemma LineIsGap(a: string, b: string)
    ensures Collapse(a + FROM_LINE + b) == Collapse(a + " FROM " + b)
  {
    GapRegroups(a, '\n', b);
    GapRegroups(a, ' ', b);
    assert FROM_LINE == ['\n'] + "FROM " && " FROM " == [' '] + "FROM ";
    CollapseWidens(a, "\n", " ", "FROM " + b);
  }

  lemma GapRegroups(a: string, c: char, b: string)
    ensures a + ([c] + "FROM ") + b == a + ([c] + ("FROM " + b))
  {
  }

  lemma FilterMeans(plan: Plan, w: Option<string>, meaning: string -> Condition)
    requires plan.baseWhere == ClauseText(w) && (w.Some? ==> TrimSpace(w.value) != "") && IgnoresOuterSpace(meaning)
    ensures forall r: Row :: PlanFilter(plan, meaning)(r) == if w.None? then True else meaning(w.value)(r)
  {
    if w.Some? {
      forall r: Row ensures PlanFilter(plan, meaning)(r) == meaning(w.value)(r) {
        assert meaning(TrimSpace(w.value))(r) == meaning(w.value)(r);
      }
    }
  }

  lemma DrainedDelivery(q: Query, table: seq<Row>, start: int, es: seq<Event>)
    requires UniqueCursors(table) && Parses(q, table) && PerfectRun(q, Opened(table, start), es)
    requires Pending(table, q.filter, Run(q, Opened(table, start), es).cursor) == []
    ensures var delivered := Run(q, Opened(table, start), es).acked;
            multiset(delivered) == multiset(Pending(table, q.filter, start)) && Ordered(delivered)
  {
    var s := Opened(table, start);
    OpenedLedger(q, table, start);
    PerfectIsClean(q, s, es);
    CleanRunKeeps(q, s, es);
    DrainAccounts(q, table, start, es);
  }

}
