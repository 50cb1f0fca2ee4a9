/** Statements the front end cuts, panics on or sends apart, against its documentation. */
module FrontEndLimits {
  import opened Rows
  import opened Text
  import opened SqlText
  import opened StreamPlan
  import opened ParseRoundTrip
  import opened Compilation
  import opened PollingText
  import opened ShortTexts

  // ---- a projection with a run of white space ----

  lemma TwoBlanksCollapse()
    ensures Collapse(ToUpper("a,  b")) == "A, B"
  {
    assert ToUpper("a,  b") == "A,  B";
    assert "A,  B" == "A," + ("  " + "B") && "A, B" == "A," + (" " + "B");
    CollapseWidens("A,", "  ", " ", "B");
    CollapseOfNormal("A, B");
  }

  lemma TrimmedEnd()
    ensures TrimSpace("a,  ") == "a,"
  {
    var s := "a,  ";
    assert s[..3] == "a, " && "a, "[..2] == "a,";
    TrimKeepsHead(s);
  }

  /** Two blanks between the columns cost the projection its last column. */
  lemma ProjectionLosesItsEnd()
    ensures Printable("a,  b", "t", None)
    ensures ParseSQL(Print("a,  b", "t", None)) == Parsed("t", "a,", "")
  {
    TwoBlanksCollapse();
    NoBlankKeywords("A, B");
    NoBlankKeywords(ToUpper("a,  b"));
    ParsePrinted("a,  b", "t", None);
    assert "a,  b"[..4] == "a,  ";
    TrimmedEnd();
  }

  // ---- a WHERE text that closes a parenthesis it did not open ----

  const ESCAPING := "A) OR (B"

  lemma EscapingIsNormal()
    ensures Normal(ESCAPING)
  {
    UpperIsSame(ESCAPING);
  }

  lemma EscapingIsPlain()
    ensures Plain(ESCAPING)
  {
  }

  lemma EscapingIsOpen()
    ensures !Closed(ESCAPING)
  {
    assert After(ESCAPING, 1) == START;
    assert After(ESCAPING, 2).depth == -1;
  }

  lemma EscapingIsMissed()
    ensures !Subquery("SELECT A FROM T WHERE " + ESCAPING)
  {
    var after := "T WHERE " + ESCAPING;
    FromAt(after);
    StatementRegroups(ESCAPING);
    assert ("SELECT A FROM " + after)[14..] == after;
    OnlyParen("T WHERE " + "A) OR ", "B");
    assert after == "T WHERE " + "A) OR " + ("(" + "B");
    NotSelect("B");
  }

  lemma OnlyParen(before: string, rest: string)
    requires '(' !in before
    ensures AfterFirstParen(before + ("(" + rest)) == rest
  {
    var s := before + ("(" + rest);
    forall j | 0 <= j < |before| ensures !At(s, "(", j) {
      AtChars(s, "(", j, 0);
    }
    assert s[|before|..|before| + 1] == "(";
    IndexIs(s, "(", |before|);
  }

  lemma EscapingIsAccepted()
    ensures ValidateSQL(Print("A", "T", Some(ESCAPING))).Accepted?
  {
    EscapingIsNormal();
    EscapingIsPlain();
    StatementIsNormal(ESCAPING);
    HeadIsPlain();
    EscapingIsMissed();
    PlainVerdict(Print("A", "T", Some(ESCAPING)));
  }

  lemma EscapingParses()
    ensures ParseSQL(Print("A", "T", Some(ESCAPING))) == Parsed("T", "A", ESCAPING)
  {
    EscapingIsNormal();
    StatementParses(ESCAPING);
  }

  /** Such a statement gets a plan, but the text sent for it does not read back as the plan's statement. */
  lemma EscapingIsPlanned(catalog: map<string, seq<Column>>, hint: Option<string>, mode: Mode, batchSize: int)
    requires "T" in catalog && Streamable(catalog["T"], hint)
    ensures var result := Compile(catalog, Print("A", "T", Some(ESCAPING)), hint, mode, batchSize);
            && result.Planned? && result.plan.baseWhere == ESCAPING
            && ('\n' !in result.plan.cursorColumn ==>
                  ReadStatement(BuildStreamingSQL(result.plan)) != Some(PollingStatement(result.plan)))
  {
    EscapingIsAccepted();
    EscapingParses();
    StatementIsPrintable(ESCAPING);
    PrintedIsPlannedIff(catalog, "A", "T", Some(ESCAPING), hint, mode, batchSize);
    PlanIsSound(catalog, Print("A", "T", Some(ESCAPING)), hint, mode, batchSize);
    EscapingIsUnread(Compile(catalog, Print("A", "T", Some(ESCAPING)), hint, mode, batchSize).plan);
  }

  lemma EscapingIsUnread(plan: Plan)
    requires plan.table == "T" && plan.projection == "A" && plan.baseWhere == ESCAPING
    ensures '\n' !in plan.cursorColumn ==> ReadStatement(BuildStreamingSQL(plan)) != Some(PollingStatement(plan))
  {
    LetterMissing("A", FROM_LINE, 1);
    EscapingIsOpen();
    if '\n' !in plan.cursorColumn {
      BuiltReadsBackIff(plan);
    }
  }

  // ---- an empty projection ----

  lemma FirstMarks(sql: string)
    requires HasPrefix(sql, "SELECT FROM ")
    ensures Index(sql, "SELECT ") == 0 && Index(sql, " FROM ") == 6
  {
    assert sql[0..7] == "SELECT " && sql[6..12] == " FROM ";
    IndexIs(sql, "SELECT ", 0);
    forall j | 0 <= j < 6 ensures !At(sql, " FROM ", j) {
      AtChars(sql, " FROM ", j, 0);
      assert sql[..12][j] == "SELECT FROM "[j];
    }
    IndexIs(sql, " FROM ", 6);
  }

  /** An accepted text whose normal form has an empty projection makes the compiler panic. */
  lemma EmptyProjectionPanics(
    catalog: map<string, seq<Column>>, sql: string, hint: Option<string>, mode: Mode, batchSize: int)
    requires HasPrefix(NormalizeSQL(sql), "SELECT FROM ")
    ensures ParseSQL(sql).Panicked?
    ensures Compile(catalog, sql, hint, mode, batchSize).ParserPanic? <==> ValidateSQL(sql).Accepted?
  {
    FirstMarks(NormalizeSQL(sql));
    ParsePanicsIff(sql);
    CompilePanicsIff(catalog, sql, hint, mode, batchSize);
  }

  lemma SelectFromPieces()
    ensures Spaced("SELECT ") && Spaced("FROM T")
  {
    UpperIsSame("SELECT ");
    UpperIsSame("FROM T");
  }

  lemma SelectFromIsNormal()
    ensures Normal("SELECT FROM T")
  {
    SelectFromPieces();
    SpacedConcat("SELECT ", "FROM T");
    assert "SELECT FROM T" == "SELECT " + "FROM T";
  }

  lemma SelectFromIsPlain()
    ensures Plain("SELECT FROM T")
  {
  }

  /** `SELECT FROM T` passes validation and panics. */
  lemma SelectFromPanics(catalog: map<string, seq<Column>>, hint: Option<string>, mode: Mode, batchSize: int)
    ensures Compile(catalog, "SELECT FROM T", hint, mode, batchSize).ParserPanic?
  {
    var sql := "SELECT FROM T";
    SelectFromIsNormal();
    SelectFromIsPlain();
    NormalFixed(sql);
    PlainVerdict(sql);
    assert sql == "SELECT FROM " + "T";
    FirstMarks(sql);
    assert sql[12..] == "T";
    assert !OpensBy("T", 1);
    EmptyProjectionPanics(catalog, sql, hint, mode, batchSize);
  }

  // ---- leading white space ----

  lemma TrimDropsBlank(s: string)
    ensures TrimSpace(" " + s) == TrimSpace(s)
  {
    assert (" " + s)[1..] == s;
  }

  lemma NormalizeDropsSpace(ws: string, s: string)
    requires ws != [] && AllSpace(ws) && s != [] && !RegexSpace(s[0])
    ensures NormalizeSQL(ws + s) == NormalizeSQL(s)
  {
    ToUpperConcat(ws, s);
    UpperKeepsSpace(ws);
    UpperKeepsSpace(s);
    CollapseRun(ToUpper(ws), ToUpper(s));
    CollapseConcat(" ", ToUpper(s));
    CollapseOfNormal(" ");
    TrimDropsBlank(Collapse(ToUpper(s)));
  }

  /** A blank-separated keyword does not start in white space before a statement. */
  lemma IndexAfterSpace(ws: string, s: string, sub: string)
    requires AllSpace(ws) && s != [] && |sub| > 1 && !RegexSpace(sub[1]) && sub[1] != s[0]
    ensures Index(ws + s, sub) == if Index(s, sub) == -1 then -1 else |ws| + Index(s, sub)
  {
    forall j | 0 <= j < |ws| ensures !At(ws + s, sub, j) {
      AtChars(ws + s, sub, j, 1);
      assert (ws + s)[j + 1] == if j + 1 < |ws| then ws[j + 1] else s[0];
    }
    IndexPast(ws, s, sub);
  }

  /** White space in front does not change the WHERE text of a statement that starts with SELECT. */
  lemma WhereAfterSpace(ws: string, s: string)
    requires AllSpace(ws) && s != [] && s[0] == 'S'
    ensures WhereText(ws + s) == WhereText(s)
  {
    ToUpperConcat(ws, s);
    UpperKeepsSpace(ws);
    IndexAfterSpace(ToUpper(ws), ToUpper(s), " WHERE ");
    var i := Index(ToUpper(s), " WHERE ");
    if i == -1 {
      NoWhereText(s);
      NoWhereText(ws + s);
    } else {
      RestPast(ws, s, i + 7);
      WhereTextAt(s, i, s[i + 7..]);
      WhereTextAt(ws + s, |ws| + i, s[i + 7..]);
    }
  }

  /** Where white space in front moves the cuts to. */
  lemma SpaceCuts(ws: string, s: string, head: string, from: nat, n: nat)
    requires ws != [] && AllSpace(ws) && s != [] && s[0] == 'S' && from + 6 <= |s| && 7 + n <= |head| <= |ws + s|
    requires (ws + s)[..|head|] == head && Index(s, " FROM ") == from
    ensures NormalizeSQL(ws + s) == NormalizeSQL(s) && Index(ws + s, " FROM ") == |ws| + from
    ensures (ws + s)[7..7 + n] == head[7..7 + n] && (ws + s)[|ws| + from + 6..] == s[from + 6..]
  {
    NormalizeDropsSpace(ws, s);
    IndexAfterSpace(ws, s, " FROM ");
    RestPast(ws, s, from + 6);
    SliceOfHead(ws + s, head, 7, 7 + n);
  }

  lemma SliceOfHead(s: string, head: string, a: nat, b: nat)
    requires a <= b <= |head| <= |s| && s[..|head|] == head
    ensures s[a..b] == head[a..b]
  {
    assert s[..|head|][a..b] == s[a..b];
  }

  /** The parser cuts the text after `head` and, in its normalized form, after `n` characters of projection. */
  ghost predicate CutsAfter(s: string, head: string, n: nat)
  {
    var m := NormalizeSQL(s);
    && s != [] && s[0] == 'S' && 7 + n <= |head| <= |s| - 6 && s[..|head|] == head && Index(s, " FROM ") == |head|
    && |m| >= 13 + n && Index(m, " FROM ") == 7 + n && Index(m, "SELECT ") == 0 && SingleTable(m[13 + n..])
  }

  predicate Starts(fields: seq<string>, t: string)
  {
    fields != [] && fields[0] == t
  }

  lemma ParsesShifted(
    ws: string, s: string, head: string, n: nat, t: string, clause: string)
    requires ws != [] && AllSpace(ws) && CutsAfter(s, head, n)
    requires Starts(TableFields(s[|head| + 6..]), t) && WhereText(s) == clause
    ensures ParseSQL(ws + s) == Parsed(t, TrimSpace((ws + head)[7..7 + n]), clause)
  {
    HeadOf(ws, head, s[|head|..]);
    assert head + s[|head|..] == s;
    SpaceCuts(ws, s, ws + head, |head|, n);
    WhereAfterSpace(ws, s);
    ParseSteps(ws + s, NormalizeSQL(s), |ws| + |head|, n, (ws + head)[7..7 + n], s[|head| + 6..], t, clause);
  }

  lemma HeadOf(ws: string, head: string, rest: string)
    ensures (ws + (head + rest))[..|ws + head|] == ws + head
  {
  }

  lemma PrintedHead(p: string, t: string, w: Option<string>)
    ensures var s, head := Print(p, t, w), "SELECT " + p; s[0] == 'S' && s[..|head|] == head
  {
  }

  lemma PrintedCuts(p: string, t: string, w: Option<string>)
    requires Printable(p, t, w)
    ensures var s, n := Print(p, t, w), |Collapse(ToUpper(p))|;
            && 1 <= n <= |p| && CutsAfter(s, "SELECT " + p, n)
            && Starts(TableFields(s[|"SELECT " + p| + 6..]), t) && WhereText(s) == ClauseText(w)
  {
    PrintedHead(p, t, w);
    TableReadBack(t, w);
    WhereReadBack(p, t, w);
    CollapsedHead(p);
    OriginalSide(p, t, w);
    NormalizedSide(p, t, w);
  }

  lemma ReadShifted(ws: string, p: string, t: string, w: Option<string>, s: string, head: string, n: nat)
    requires ws != [] && AllSpace(ws) && Printable(p, t, w)
    requires s == Print(p, t, w) && head == "SELECT " + p && n == |Collapse(ToUpper(p))|
    ensures 1 <= n <= |p| && |head| == 7 + |p|
    ensures ParseSQL(ws + s) == Parsed(t, TrimSpace((ws + head)[7..7 + n]), ClauseText(w))
  {
    PrintedCuts(p, t, w);
    ParsesShifted(ws, s, head, n, t, ClauseText(w));
  }

  /**
   * White space in front of a statement shifts the cut: the projection read is what stands from the
   * eighth character on, as long as the collapsed projection.  Everything else is read as before.
   */
  lemma LeadingSpaceShiftsProjection(ws: string, p: string, t: string, w: Option<string>)
    requires ws != [] && AllSpace(ws) && Printable(p, t, w)
    ensures var n := |Collapse(ToUpper(p))|;
            && 1 <= n <= |p|
            && ParseSQL(ws + Print(p, t, w))
               == Parsed(t, TrimSpace((ws + ("SELECT " + p))[7..7 + n]), ClauseText(w))
  {
    ReadShifted(ws, p, t, w, Print(p, t, w), "SELECT " + p, |Collapse(ToUpper(p))|);
  }

  /** One blank in front costs the projection its last character. */
  lemma LeadingBlankCutsProjection(p: string, t: string, w: Option<string>)
    requires Printable(p, t, w)
    ensures var n := |Collapse(ToUpper(p))|;
            && 1 <= n <= |p|
            && ParseSQL(" " + Print(p, t, w)) == Parsed(t, TrimSpace(p[..n - 1]), ClauseText(w))
  {
    LeadingSpaceShiftsProjection(" ", p, t, w);
    BlankTrimmed(p, |Collapse(ToUpper(p))|);
  }

  lemma BlankTrimmed(p: string, n: nat)
    requires 1 <= n <= |p|
    ensures TrimSpace((" " + ("SELECT " + p))[7..7 + n]) == TrimSpace(p[..n - 1])
  {
    BlankSlice(p, n);
    TrimDropsBlank(p[..n - 1]);
  }

  lemma BlankSlice(p: string, n: nat)
    requires 1 <= n <= |p|
    ensures (" " + ("SELECT " + p))[7..7 + n] == " " + p[..n - 1]
  {
    assert " " + ("SELECT " + p) == " SELECT" + (" " + p);
    CutAfter(" SELECT", p, n);
  }

  lemma CutAfter(a: string, p: string, n: nat)
    requires 1 <= n <= |p|
    ensures (a + (" " + p))[|a|..|a| + n] == " " + p[..n - 1]
  {
  }
}
