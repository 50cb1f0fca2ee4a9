/** The statement a poll sends: its text, and when that text reads back as the plan. */
module PollingText {
  import opened Rows
  import opened Text
  import opened Compilation

  const FROM_LINE := "\nFROM "
  const WHERE_LINE := "\nWHERE ("
  const ORDER_LINE := "\nORDER BY "
  const LIMIT_LINE := "\nLIMIT ?"

  function BuildStreamingSQL(plan: Plan): string
  {
    var base := if plan.baseWhere != "" then "(" + plan.baseWhere + ")" else "(TRUE)";
    var whereParts := base + " AND " + plan.cursorColumn + " > ?";
    "SELECT " + plan.projection + "\nFROM " + plan.table + "\nWHERE " + whereParts
    + "\nORDER BY " + plan.cursorColumn + " ASC\nLIMIT ?"
  }

  datatype Comparison = Greater | AtLeast

  datatype Direction = Ascending | Descending

  /** `SELECT projection FROM table WHERE (filter) AND cursor comparison ? ORDER BY orderBy direction LIMIT ?`. */
  datatype Statement = Statement(
    projection: string, table: string, filter: string, cursor: string, comparison: Comparison, orderBy: string,
    direction: Direction)

  function FilterText(plan: Plan): string
  {
    if plan.baseWhere != "" then plan.baseWhere else "TRUE"
  }

  function PollingStatement(plan: Plan): Statement
  {
    Statement(plan.projection, plan.table, FilterText(plan), plan.cursorColumn, Greater, plan.cursorColumn, Ascending)
  }

  // ---- matching parentheses ----

  /** Where a reader stands: how many parentheses are open, and the quote it is inside of. */
  datatype Reader = Reader(depth: int, quote: Option<char>)

  const START := Reader(0, None)

  function Read(r: Reader, c: char): Reader
  {
    match r.quote
    case Some(q) => if c == q then r.(quote := None) else r
    case None =>
      if c == '\'' || c == '"' then r.(quote := Some(c))
      else if c == '(' then r.(depth := r.depth + 1)
      else if c == ')' then r.(depth := r.depth - 1)
      else r
  }

  /** The reader after the first `n` characters. */
  function After(s: string, n: nat): Reader
    requires n <= |s|
  {
    if n == 0 then START else Read(After(s, n - 1), s[n - 1])
  }

  /** The first unquoted `)` at depth 0 from `n` on, or the end of the text. */
  function Closing(s: string, n: nat): (k: nat)
    requires n <= |s|
    ensures n <= k <= |s|
    decreases |s| - n
  {
    if n == |s| || (After(s, n) == START && s[n] == ')') then n else Closing(s, n + 1)
  }

  /** Never more parentheses closed than opened. */
  predicate NeverBelow(s: string, n: nat)
    requires n <= |s|
  {
    forall k | 0 <= k <= n :: After(s, k).depth >= 0
  }

  /** Parentheses outside quotes are balanced, never close too early, and no quote stays open. */
  predicate Closed(s: string)
  {
    After(s, |s|) == START && NeverBelow(s, |s|)
  }

  lemma {:induction false} AfterPrefix(a: string, b: string, n: nat)
    requires n <= |a|
    ensures After(a + b, n) == After(a, n)
  {
    if n > 0 {
      AfterPrefix(a, b, n - 1);
    }
  }

  lemma {:induction false} ClosingHolds(s: string, n: nat)
    requires n <= |s| && NeverBelow(s, n)
    ensures NeverBelow(s, Closing(s, n))
    ensures Closing(s, n) < |s| ==> After(s, Closing(s, n)) == START
    decreases |s| - n
  {
    if n < |s| && (After(s, n) != START || s[n] != ')') {
      StaysAbove(s, n);
      ClosingHolds(s, n + 1);
    }
  }

  lemma StaysAbove(s: string, n: nat)
    requires n < |s| && NeverBelow(s, n) && (After(s, n) != START || s[n] != ')')
    ensures NeverBelow(s, n + 1)
  {
    assert After(s, n).depth >= 0;
  }

  lemma {:induction false} ClosingReaches(s: string, n: nat, m: nat)
    requires n <= m < |s| && NeverBelow(s, m) && After(s, m) == START && s[m] == ')'
    ensures Closing(s, n) == m
    decreases m - n
  {
    if n < m {
      assert After(s, n + 1).depth >= 0;
      ClosingReaches(s, n + 1, m);
    }
  }

  /** The parenthesis put after a text closes the one before it iff the text is closed. */
  lemma ClosingIff(w: string, rest: string)
    ensures Closing(w + (")" + rest), 0) == |w| <==> Closed(w)
  {
    var s := w + (")" + rest);
    forall k | 0 <= k <= |w| ensures After(s, k) == After(w, k) {
      AfterPrefix(w, ")" + rest, k);
    }
    assert s[|w|] == ')';
    ClosingHolds(s, 0);
    if Closed(w) {
      ClosingReaches(s, 0, |w|);
    }
  }

  // ---- reading the whole statement ----

  datatype Cut = NoCut | Cut(before: string, after: string)

  /** The text around the first occurrence of `mark`. */
  function CutAt(s: string, mark: string): Cut
  {
    var i := Index(s, mark);
    if i == -1 then NoCut else Cut(s[..i], s[i + |mark|..])
  }

  function DropPrefix(s: string, prefix: string): Option<string>
  {
    if HasPrefix(s, prefix) then Some(s[|prefix|..]) else None
  }

  function DropSuffix(s: string, suffix: string): Option<string>
  {
    if |s| >= |suffix| && s[|s| - |suffix|..] == suffix then Some(s[..|s| - |suffix|]) else None
  }

  datatype Compared = NotCompared | Compared(column: string, comparison: Comparison)

  /** A column compared with the parameter. */
  function ReadComparison(s: string): Compared
  {
    match DropSuffix(s, " >= ?")
    case Some(column) => Compared(column, AtLeast)
    case None =>
      match DropSuffix(s, " > ?")
      case Some(column) => Compared(column, Greater)
      case None => NotCompared
  }

  datatype Sorted = Sorted(column: string, direction: Direction)

  /** A column to sort by; ascending when no direction is given. */
  function ReadOrder(s: string): Sorted
  {
    match DropSuffix(s, " DESC")
    case Some(column) => Sorted(column, Descending)
    case None =>
      match DropSuffix(s, " ASC")
      case Some(column) => Sorted(column, Ascending)
      case None => Sorted(s, Ascending)
  }

  /** What follows the filter's closing parenthesis. */
  function ReadTail(projection: string, table: string, filter: string, s: string): Option<Statement>
  {
    match DropPrefix(s, " AND ")
    case None => None
    case Some(comparison) =>
      match CutAt(comparison, ORDER_LINE)
      case NoCut => None
      case Cut(condition, rest) =>
        match DropSuffix(rest, LIMIT_LINE)
        case None => None
        case Some(order) =>
          var compared, sorted := ReadComparison(condition), ReadOrder(order);
          if compared.NotCompared? then None
          else
            Some(Statement(projection, table, filter, compared.column, compared.comparison, sorted.column,
                           sorted.direction))
  }

  /** Reads a polling statement: each line mark where it first occurs, the filter up to its matching parenthesis. */
  function ReadStatement(text: string): Option<Statement>
  {
    match DropPrefix(text, "SELECT ")
    case None => None
    case Some(body) =>
      match CutAt(body, FROM_LINE)
      case NoCut => None
      case Cut(projection, afterFrom) =>
        match CutAt(afterFrom, WHERE_LINE)
        case NoCut => None
        case Cut(table, afterWhere) =>
          var close := Closing(afterWhere, 0);
          if close == |afterWhere| then None
          else ReadTail(projection, table, afterWhere[..close], afterWhere[close + 1..])
  }

  /** The plan's parts hold no line mark of the statement. */
  predicate OneLineParts(plan: Plan)
  {
    !Contains(plan.projection, FROM_LINE) && '\n' !in plan.table && '\n' !in plan.cursorColumn
  }

  // ---- reading back what was built ----

  function TailText(plan: Plan): string
  {
    " AND " + ((plan.cursorColumn + " > ?") + (ORDER_LINE + ((plan.cursorColumn + " ASC") + LIMIT_LINE)))
  }

  function BodyText(plan: Plan): string
  {
    plan.projection + (FROM_LINE + (plan.table + (WHERE_LINE + (FilterText(plan) + (")" + TailText(plan))))))
  }

  lemma Regroup(p: string, t: string, w: string, c: string)
    ensures "SELECT " + p + "\nFROM " + t + "\nWHERE " + ("(" + w + ")" + " AND " + c + " > ?")
            + "\nORDER BY " + c + " ASC\nLIMIT ?"
            == "SELECT "
                + (p + (FROM_LINE
                    + (t + (WHERE_LINE
                        + (w + (")" + (" AND " + ((c + " > ?") + (ORDER_LINE + ((c + " ASC") + LIMIT_LINE))))))))))
  {
    assert WHERE_LINE == "\nWHERE " + "(" && " ASC\nLIMIT ?" == " ASC" + LIMIT_LINE;
  }

  lemma BuiltText(plan: Plan)
    ensures BuildStreamingSQL(plan) == "SELECT " + BodyText(plan)
  {
    Regroup(plan.projection, plan.table, FilterText(plan), plan.cursorColumn);
    assert "(" + "TRUE" + ")" == "(TRUE)";
  }

  lemma PrefixDropped(prefix: string, s: string)
    ensures DropPrefix(prefix + s, prefix) == Some(s)
  {
  }

  lemma SuffixDropped(s: string, suffix: string)
    ensures DropSuffix(s + suffix, suffix) == Some(s)
  {
  }

  lemma CutAtMark(a: string, mark: string, b: string)
    requires forall j | 0 <= j < |a| :: !At(a + (mark + b), mark, j)
    ensures CutAt(a + (mark + b), mark) == Cut(a, b)
  {
    var s := a + (mark + b);
    assert s[|a|..|a| + |mark|] == mark;
    IndexIs(s, mark, |a|);
    assert s[..|a|] == a && s[|a| + |mark|..] == b;
  }

  /** A mark that starts with the only line break in it is first found where it was put. */
  lemma CutAtLine(a: string, mark: string, b: string)
    requires mark != [] && mark[0] == '\n' && (forall d | 1 <= d < |mark| :: mark[d] != '\n') && !Contains(a, mark)
    ensures CutAt(a + (mark + b), mark) == Cut(a, b)
  {
    var s := a + (mark + b);
    forall j | 0 <= j < |a| ensures !At(s, mark, j) {
      if j + |mark| <= |a| {
        assert s[j..j + |mark|] == a[j..j + |mark|];
        IndexFirst(a, mark);
        assert !At(a, mark, j);
      } else {
        AtChars(s, mark, j, |a| - j);
        assert s[|a|] == mark[0];
      }
    }
    CutAtMark(a, mark, b);
  }

  lemma NoLineNoMark(a: string, mark: string)
    requires mark != [] && mark[0] == '\n' && '\n' !in a
    ensures !Contains(a, mark)
  {
    forall j ensures !At(a, mark, j) {
      AtChars(a, mark, j, 0);
    }
    IndexFirst(a, mark);
  }

  lemma SuffixChar(s: string, suffix: string, d: nat)
    requires d < |suffix|
    ensures DropSuffix(s, suffix).Some? ==> s[|s| - |suffix| + d] == suffix[d]
  {
    if |s| >= |suffix| {
      assert s[|s| - |suffix|..][d] == s[|s| - |suffix| + d];
    }
  }

  lemma ComparisonReadsBack(c: string)
    ensures ReadComparison(c + " > ?") == Compared(c, Greater)
  {
    var s := c + " > ?";
    SuffixChar(s, " >= ?", 2);
    assert s[|s| - 3] == '>';
    SuffixDropped(c, " > ?");
  }

  lemma OrderReadsBack(c: string)
    ensures ReadOrder(c + " ASC") == Sorted(c, Ascending)
  {
    var s := c + " ASC";
    SuffixChar(s, " DESC", 2);
    assert s[|s| - 3] == 'A';
    SuffixDropped(c, " ASC");
  }

  lemma TailReadsBack(plan: Plan, filter: string)
    requires OneLineParts(plan)
    ensures ReadTail(plan.projection, plan.table, filter, TailText(plan))
            == Some(Statement(plan.projection, plan.table, filter, plan.cursorColumn, Greater, plan.cursorColumn,
                Ascending))
  {
    var c := plan.cursorColumn;
    PrefixDropped(" AND ", (c + " > ?") + (ORDER_LINE + ((c + " ASC") + LIMIT_LINE)));
    NoLineNoMark(c + " > ?", ORDER_LINE);
    CutAtLine(c + " > ?", ORDER_LINE, (c + " ASC") + LIMIT_LINE);
    SuffixDropped(c + " ASC", LIMIT_LINE);
    ComparisonReadsBack(c);
    OrderReadsBack(c);
  }

  lemma MarksCut(plan: Plan)
    requires OneLineParts(plan)
    ensures var afterWhere := FilterText(plan) + (")" + TailText(plan));
            var afterFrom := plan.table + (WHERE_LINE + afterWhere);
            && CutAt(BodyText(plan), FROM_LINE) == Cut(plan.projection, afterFrom)
            && CutAt(afterFrom, WHERE_LINE) == Cut(plan.table, afterWhere)
  {
    var afterWhere := FilterText(plan) + (")" + TailText(plan));
    CutAtLine(plan.projection, FROM_LINE, plan.table + (WHERE_LINE + afterWhere));
    NoLineNoMark(plan.table, WHERE_LINE);
    CutAtLine(plan.table, WHERE_LINE, afterWhere);
  }

  lemma FilterCut(w: string, rest: string)
    ensures var s := w + (")" + rest); s[..|w|] == w && s[|w| + 1..] == rest && |w| < |s|
  {
  }

  lemma ReadSteps(plan: Plan, close: nat)
    requires OneLineParts(plan)
    requires close == Closing(FilterText(plan) + (")" + TailText(plan)), 0)
    ensures var s := FilterText(plan) + (")" + TailText(plan));
            ReadStatement(BuildStreamingSQL(plan))
            == if close == |s| then None else ReadTail(plan.projection, plan.table, s[..close], s[close + 1..])
  {
    BuiltText(plan);
    PrefixDropped("SELECT ", BodyText(plan));
    MarksCut(plan);
  }

  lemma TailKeepsFilter(projection: string, table: string, filter: string, s: string)
    ensures var r := ReadTail(projection, table, filter, s); r.Some? ==> r.value.filter == filter
  {
  }

  /**
   * The text sent to the database reads back as the plan's statement, with the whole WHERE text
   * inside the parentheses put around it, exactly when that text is closed.
   */
  lemma BuiltReadsBackIff(plan: Plan)
    requires OneLineParts(plan)
    ensures var filter := if plan.baseWhere == "" then "TRUE" else plan.baseWhere;
            ReadStatement(BuildStreamingSQL(plan))
            == Some(Statement(plan.projection, plan.table, filter, plan.cursorColumn, Greater, plan.cursorColumn,
                Ascending))
            <==> Closed(filter)
    ensures ReadStatement(BuildStreamingSQL(plan)) == Some(PollingStatement(plan)) <==> Closed(FilterText(plan))
  {
    var w := FilterText(plan);
    var s := w + (")" + TailText(plan));
    var close := Closing(s, 0);
    ReadSteps(plan, close);
    ClosingIff(w, TailText(plan));
    FilterCut(w, TailText(plan));
    TailReadsBack(plan, w);
    if close < |s| {
      TailKeepsFilter(plan.projection, plan.table, s[..close], s[close + 1..]);
    }
  }
}
