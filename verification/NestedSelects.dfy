/** Nested SELECTs that validation accepts, after the first parenthesis or before the first FROM. */
module NestedSelects {
  import opened Rows
  import opened Text
  import opened SqlText
  import opened StreamPlan
  import opened ParseRoundTrip
  import opened Compilation
  import opened ShortTexts

  // ---- a subquery after the first parenthesis ----

  /** When the first parenthesis does not open a SELECT, no later one is noticed. */
  lemma LaterSubqueryIsMissed(tail: string)
    ensures !Subquery("SELECT A FROM T WHERE (B" + tail)
  {
    var sql, rest := "SELECT A FROM T WHERE (B" + tail, "B" + tail;
    assert sql == "SELECT A FROM " + ("T WHERE (B" + tail);
    FromAt("T WHERE (B" + tail);
    assert sql[14..23] == "T WHERE (";
    assert forall k | 14 <= k < 23 :: sql[k] == sql[14..23][k - 14];
    SubqueryIffFirstParen(sql, 8);
    assert sql[23..] == rest;
    NotSelect(rest);
  }

  const MIDDLE := ") OR " + "C IN "
  const BEFORE := "(B" + MIDDLE
  const SELECTION := "SELECT " + "E FROM F)"
  const NESTED := BEFORE + "(" + SELECTION

  lemma BeforePieces()
    ensures Spaced("(B) OR ") && Spaced("C IN ")
  {
    UpperIsSame("(B) OR ");
    UpperIsSame("C IN ");
  }

  lemma BeforeIsSpaced()
    ensures Spaced(BEFORE)
  {
    BeforePieces();
    SpacedConcat("(B) OR ", "C IN ");
    assert BEFORE == "(B) OR " + "C IN ";
  }

  lemma BeforeIsPlain()
    ensures Plain(BEFORE)
  {
  }

  lemma SelectIsSpaced()
    ensures Spaced("(" + "SELECT ")
  {
    UpperIsSame("(" + "SELECT ");
  }

  lemma InnerIsSpaced()
    ensures Spaced("E FROM F)")
  {
    UpperIsSame("E FROM F)");
  }

  lemma SelectionIsSpaced()
    ensures Spaced("(" + SELECTION)
  {
    SelectIsSpaced();
    InnerIsSpaced();
    SpacedConcat("(" + "SELECT ", "E FROM F)");
    assert "(" + SELECTION == "(" + "SELECT " + "E FROM F)";
  }

  lemma SelectionIsPlain()
    ensures Plain("(" + SELECTION)
  {
  }

  lemma NestedIsNormal()
    ensures Normal(NESTED) && Plain(NESTED)
  {
    BeforeIsSpaced();
    BeforeIsPlain();
    SelectionIsSpaced();
    SelectionIsPlain();
    SpacedConcat(BEFORE, "(" + SELECTION);
    assert NESTED == BEFORE + ("(" + SELECTION);
  }

  lemma SelectionSelects()
    ensures SelectLeads(SELECTION)
  {
    TrimOfTrimmed(SELECTION);
    StartsWithSelectIff(SELECTION);
  }

  lemma OpensSelect(before: string, inner: string)
    requires SelectLeads(inner)
    ensures HoldsNestedSelect(before + "(" + inner)
  {
    var after := before + "(" + inner;
    assert after[|before|] == '(' && after[|before| + 1..] == inner;
  }

  lemma NestedOpensSelect()
    ensures HoldsNestedSelect("SELECT A FROM " + ("T WHERE " + NESTED))
  {
    SelectionSelects();
    OpensSelect("SELECT A FROM " + ("T WHERE " + BEFORE), SELECTION);
    FourRegroup("T WHERE ", BEFORE, SELECTION);
    FourRegroup("SELECT A FROM ", "T WHERE " + BEFORE, SELECTION);
  }

  lemma FourRegroup(a: string, b: string, c: string)
    ensures a + b + "(" + c == a + (b + "(" + c)
  {
  }

  lemma NestedIsMissed()
    ensures !Subquery("SELECT A FROM T WHERE " + NESTED)
  {
    LaterSubqueryIsMissed(MIDDLE + "(" + SELECTION);
    ThreeRegroup("SELECT A FROM T WHERE ", "(B", MIDDLE, "(" + SELECTION);
    assert NESTED == BEFORE + ("(" + SELECTION);
    assert MIDDLE + "(" + SELECTION == MIDDLE + ("(" + SELECTION);
    assert "SELECT A FROM T WHERE " + "(B" == "SELECT A FROM T WHERE (B";
  }

  /** A nested SELECT that validation accepts, although it is one of the documented rejections. */
  lemma NestedSelectIsAccepted()
    ensures var sql := Print("A", "T", Some(NESTED));
            && NormalizeSQL(sql) == sql == "SELECT A FROM " + ("T WHERE " + NESTED)
            && ValidateSQL(sql).Accepted? && Index(sql, " FROM ") == 8 && HoldsNestedSelect(sql)
  {
    var sql := Print("A", "T", Some(NESTED));
    NestedIsNormal();
    StatementIsNormal(NESTED);
    StatementRegroups(NESTED);
    NormalFixed(sql);
    HeadIsPlain();
    PlainVerdict(sql);
    NestedIsMissed();
    FromAt("T WHERE " + NESTED);
    NestedOpensSelect();
  }

  /** It even gets a plan, whenever its table can be streamed at all. */
  lemma NestedSelectIsPlanned(
    catalog: map<string, seq<Column>>, hint: Option<string>, mode: Mode, batchSize: int)
    requires "T" in catalog && Streamable(catalog["T"], hint)
    ensures Compile(catalog, Print("A", "T", Some(NESTED)), hint, mode, batchSize).Planned?
  {
    NestedSelectIsAccepted();
    StatementIsPrintable(NESTED);
    PrintedIsPlannedIff(catalog, "A", "T", Some(NESTED), hint, mode, batchSize);
  }

  // ---- a subquery before the first FROM ----

  /** Whatever stands before the first FROM, nothing is noticed when no parenthesis follows it. */
  lemma EarlierSubqueryIsMissed(n: string)
    requires Index(n, " FROM ") != -1 && '(' !in n[Index(n, " FROM ") + 6..]
    ensures !Subquery(n)
  {
  }

  /** A projection with a subquery whose own FROM is in small letters. */
  const INNER := "(SELECT A from F)"

  lemma InnerText()
    ensures ToUpper("SELECT " + INNER + (" FROM " + "T")) == "SELECT " + "(SELECT A" + (" FROM " + "F) FROM T")
  {
    ToUpperConcat("SELECT " + INNER, " FROM " + "T");
    ToUpperConcat("SELECT ", INNER);
    UpperIsSame("SELECT ");
    UpperIsSame(" FROM " + "T");
    InnerUpper();
    assert " FROM " + "F) FROM T" == " FROM " + "F)" + (" FROM " + "T");
    assert "SELECT " + ("(SELECT A" + (" FROM " + "F)")) + (" FROM " + "T")
        == "SELECT " + "(SELECT A" + (" FROM " + "F)" + (" FROM " + "T"));
  }

  lemma InnerUpper()
    ensures ToUpper(INNER) == "(SELECT A" + (" FROM " + "F)")
  {
    assert INNER == "(SELECT A" + (" from " + "F)");
    ToUpperConcat("(SELECT A", " from " + "F)");
    ToUpperConcat(" from ", "F)");
    UpperIsSame("(SELECT A");
    UpperIsSame("F)");
  }

  lemma HeadPiece()
    ensures Spaced("SELECT " + "(SELECT A") && Plain("SELECT " + "(SELECT A")
  {
    UpperIsSame("SELECT " + "(SELECT A");
  }

  lemma RestPiece()
    ensures Spaced(" FROM " + "F) FROM T") && Plain(" FROM " + "F) FROM T")
  {
    UpperIsSame(" FROM " + "F) FROM T");
  }

  lemma InnerNormal()
    ensures var n := "SELECT " + "(SELECT A" + (" FROM " + "F) FROM T");
            Normal(n) && Plain(n) && NormalizeSQL("SELECT " + INNER + (" FROM " + "T")) == n
  {
    var n := "SELECT " + "(SELECT A" + (" FROM " + "F) FROM T");
    HeadPiece();
    RestPiece();
    SpacedConcat("SELECT " + "(SELECT A", " FROM " + "F) FROM T");
    InnerText();
    NormalFixed(n);
  }

  lemma InnerFrom()
    ensures Index("SELECT " + "(SELECT A" + (" FROM " + "F) FROM T"), " FROM ") == 16
    ensures Index("SELECT " + INNER + (" FROM " + "T"), " FROM ") == 24
  {
    LetterMissing(" " + "(SELECT A" + " ", " " + "FROM" + " ", 1);
    FirstFrom("(SELECT A", "F) FROM T");
    LetterMissing(" " + INNER + " ", " " + "FROM" + " ", 3);
    FirstFrom(INNER, "T");
  }

  lemma InnerVerdict()
    ensures ValidateSQL("SELECT " + INNER + (" FROM " + "T")).Accepted?
  {
    var n := "SELECT " + "(SELECT A" + (" FROM " + "F) FROM T");
    InnerNormal();
    InnerFrom();
    assert n[22..] == "F) FROM T";
    EarlierSubqueryIsMissed(n);
    PlainVerdict(n);
    NormalFixed(n);
    SameVerdict("SELECT " + INNER + (" FROM " + "T"), n);
  }

  lemma InnerTarget()
    ensures SingleTable("F) FROM T")
  {
    TrimOfTrimmed("F) FROM T");
    LetterMissing("F) FROM T", " WHERE ", 1);
    LetterMissing("F) FROM T", ",", 0);
  }

  lemma InnerWhere()
    ensures WhereText("SELECT " + INNER + (" FROM " + "T")) == ""
  {
    InnerText();
    LetterMissing("SELECT " + "(SELECT A" + (" FROM " + "F) FROM T"), " WHERE ", 1);
    NoWhereText("SELECT " + INNER + (" FROM " + "T"));
  }

  lemma InnerCuts()
    ensures var sql := "SELECT " + INNER + (" FROM " + "T");
            |sql| == 31 && sql[7..16] == "(SELECT A" && sql[30..] == "T"
    ensures var n := "SELECT " + "(SELECT A" + (" FROM " + "F) FROM T"); |n| == 31 && n[22..] == "F) FROM T"
  {
  }

  lemma InnerProjection(sql: string, n: string)
    requires |sql| == 31 && sql[7..16] == "(SELECT A" && |n| == 31
    ensures ProjectionSlice(sql, n, 0, 16) == InRange("(SELECT A") && TrimSpace("(SELECT A") == "(SELECT A"
  {
    ProjectionIs(sql, n, 9, "(SELECT A");
    TrimOfTrimmed("(SELECT A");
  }

  lemma InnerParses()
    ensures ParseSQL("SELECT " + INNER + (" FROM " + "T")) == Parsed("T", "(SELECT A", "")
  {
    var sql, n := "SELECT " + INNER + (" FROM " + "T"), "SELECT " + "(SELECT A" + (" FROM " + "F) FROM T");
    InnerNormal();
    InnerFrom();
    InnerTarget();
    InnerWhere();
    SelectFirst("(SELECT A", " FROM " + "F) FROM T");
    InnerCuts();
    InnerProjection(sql, n);
    PlainTableField("T");
    ParseIs(sql, n, 16, 24, "(SELECT A", TableFields("T"), "");
  }

  /** A SELECT nested in the projection is accepted too; its plan selects half of it. */
  lemma InnerSelectIsPlanned(catalog: map<string, seq<Column>>, hint: Option<string>, mode: Mode, batchSize: int)
    requires "T" in catalog && Streamable(catalog["T"], hint)
    ensures var result := Compile(catalog, "SELECT " + INNER + (" FROM " + "T"), hint, mode, batchSize);
            result.Planned? && result.plan.table == "T" && result.plan.projection == "(SELECT A"
    ensures HoldsNestedSelect(NormalizeSQL("SELECT " + INNER + (" FROM " + "T")))
  {
    InnerVerdict();
    InnerParses();
    CompilesTo(catalog, "SELECT " + INNER + (" FROM " + "T"), hint, mode, batchSize, "T", "(SELECT A", "");
    InnerNormal();
    InnerHolds();
  }

  lemma InnerHolds()
    ensures HoldsNestedSelect("SELECT " + "(SELECT A" + (" FROM " + "F) FROM T"))
  {
    assert "(SELECT A" == "(" + ("SELECT" + " A");
    HoldsAfter("SELECT ", " A", " FROM " + "F) FROM T");
  }

  lemma HoldsAfter(head: string, a: string, rest: string)
    ensures HoldsNestedSelect(head + ("(" + ("SELECT" + a)) + rest)
  {
    SelectOpens(a + rest);
    OpensSelect(head, "SELECT" + (a + rest));
    FiveRegroup(head, "(", "SELECT", a, rest);
  }

  lemma SelectOpens(rest: string)
    ensures SelectLeads("SELECT" + rest)
  {
    TrimKeepsHead("SELECT" + rest);
    TrimRightConcat("SELECT", rest);
    StartsWithSelectIff("SELECT" + rest);
  }

  lemma FiveRegroup(a: string, b: string, c: string, d: string, e: string)
    ensures a + b + (c + (d + e)) == a + (b + (c + d)) + e
  {
  }

  lemma ThreeRegroup(a: string, b: string, c: string, d: string)
    ensures a + b + (c + d) == a + ((b + c) + d)
  {
  }
}
