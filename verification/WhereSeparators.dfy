/** The WHERE clause between any white space and in any letter case: when its text reaches the plan. */
module WhereSeparators {
  import opened Rows
  import opened Text
  import opened SqlText
  import opened StreamPlan
  import opened ParseRoundTrip
  import opened Compilation
  import opened BlankKeywords
  import opened Targets
  import opened ShortTexts
  import opened NestedSelects

  /** WHERE, in any letter case, stands right after position `i` between two blanks. */
  predicate BlankWhereAt(s: string, i: int)
  {
    && 0 <= i && i + 7 <= |s| && s[i] == ' ' && s[i + 6] == ' '
    && forall d | 0 <= d < 5 :: UpperChar(s[i + 1 + d]) == "WHERE"[d]
  }

  lemma BlankWhereIff(s: string, i: int)
    ensures BlankWhereAt(s, i) <==> At(ToUpper(s), " WHERE ", i)
  {
    var u := ToUpper(s);
    if 0 <= i && i + 7 <= |s| {
      BlankStays(s, i);
      BlankStays(s, i + 6);
      WhereWindow(u, i);
      forall d | 0 <= d < 5 ensures UpperChar(s[i + 1 + d]) == "WHERE"[d] <==> u[i + 1 + d] == "WHERE"[d] {
      }
    }
  }

  lemma BlankStays(s: string, i: nat)
    requires i < |s|
    ensures ToUpper(s)[i] == ' ' <==> s[i] == ' '
  {
  }

  lemma WhereWindow(u: string, i: nat)
    requires i + 7 <= |u|
    ensures u[i..i + 7] == " WHERE "
            <==> u[i] == ' ' && u[i + 6] == ' ' && forall d | 0 <= d < 5 :: u[i + 1 + d] == "WHERE"[d]
  {
    var w := u[i..i + 7];
    if w == " WHERE " {
      forall d | 0 <= d < 5 ensures u[i + 1 + d] == "WHERE"[d] {
        assert w[1 + d] == u[i + 1 + d] && " WHERE "[1 + d] == "WHERE"[d];
      }
    }
    if u[i] == ' ' && u[i + 6] == ' ' && forall d | 0 <= d < 5 :: u[i + 1 + d] == "WHERE"[d] {
      forall k | 0 <= k < 7 ensures w[k] == " WHERE "[k] {
        assert 1 <= k <= 5 ==> u[i + 1 + (k - 1)] == "WHERE"[k - 1];
      }
    }
  }

  /** The WHERE text is what follows the first WHERE between two blanks, in any letter case; none without one. */
  lemma WhereTextIs(sql: string)
    ensures (forall i :: !BlankWhereAt(sql, i)) ==> WhereText(sql) == ""
    ensures forall i | BlankWhereAt(sql, i) && (forall j | 0 <= j < i :: !BlankWhereAt(sql, j)) ::
              WhereText(sql) == TrimSpace(sql[i + 7..])
  {
    var u := ToUpper(sql);
    IndexFirst(u, " WHERE ");
    forall i ensures BlankWhereAt(sql, i) <==> At(u, " WHERE ", i) {
      BlankWhereIff(sql, i);
    }
    forall i | BlankWhereAt(sql, i) && (forall j | 0 <= j < i :: !BlankWhereAt(sql, j))
      ensures WhereText(sql) == TrimSpace(sql[i + 7..])
    {
      IndexIs(u, " WHERE ", i);
    }
  }

  lemma WherePast(head: string, tail: string)
    requires forall j | 0 <= j < |head| :: !At(ToUpper(head + tail), " WHERE ", j)
    ensures WhereText(head + tail) == WhereText(tail)
  {
    ToUpperConcat(head, tail);
    IndexPast(ToUpper(head), ToUpper(tail), " WHERE ");
    var i := Index(ToUpper(tail), " WHERE ");
    if i != -1 {
      RestPast(head, tail, i + 7);
      WhereTextAt(tail, i, tail[i + 7..]);
      WhereTextAt(head + tail, |head| + i, tail[i + 7..]);
    } else {
      NoWhereText(tail);
      NoWhereText(head + tail);
    }
  }

  // ---- a statement whose WHERE stands between any white space ----

  predicate WhereSeparator(g1: string, f: string, g2: string)
  {
    g1 != [] && AllSpace(g1) && EqualFold(f, "WHERE") && g2 != [] && AllSpace(g2)
  }

  /** Everything up to the gap after the keyword. */
  function Front(p: string, t: string, g1: string, f: string): string
  {
    "SELECT " + p + (" FROM " + (t + (g1 + f)))
  }

  /** The separator is one that the parser of the WHERE text knows. */
  predicate Seen(g1: string, g2: string)
    requires g1 != [] && g2 != []
  {
    g1[|g1| - 1] == ' ' && g2[0] == ' '
  }

  lemma UpperGaps(g1: string, f: string, g2: string)
    requires WhereSeparator(g1, f, g2)
    ensures ToUpper(g1) == g1 && ToUpper(g2) == g2 && ToUpper(f) == "WHERE"
  {
    UpperSpaces(g1);
    UpperSpaces(g2);
    FoldIff(f, "WHERE");
    UpperIsSame("WHERE");
  }

  lemma UpperFront(p: string, t: string, g1: string, f: string, g2: string, text: string)
    requires WhereSeparator(g1, f, g2)
    ensures ToUpper(Front(p, t, g1, f) + (g2 + text))
            == "SELECT " + ToUpper(p) + (" FROM " + (ToUpper(t) + (g1 + ("WHERE" + (g2 + ToUpper(text))))))
  {
    var head := "SELECT " + p;
    UpperGaps(g1, f, g2);
    FrontRegroups(p, t, g1, f, g2 + text);
    ToUpperConcat(head, " FROM " + (t + (g1 + (f + (g2 + text)))));
    ToUpperConcat("SELECT ", p);
    ToUpperConcat(" FROM ", t + (g1 + (f + (g2 + text))));
    ToUpperConcat(t, g1 + (f + (g2 + text)));
    ToUpperConcat(g1, f + (g2 + text));
    ToUpperConcat(f, g2 + text);
    ToUpperConcat(g2, text);
    UpperIsSame("SELECT ");
    UpperIsSame(" FROM ");
  }

  lemma FrontRegroups(p: string, t: string, g1: string, f: string, rest: string)
    ensures Front(p, t, g1, f) + rest == "SELECT " + p + (" FROM " + (t + (g1 + (f + rest))))
  {
  }

  /** In the upper-case statement no WHERE between blanks comes before the keyword's own place. */
  lemma WhereFirst(m: string, t: string, g1: string, g2: string, rest: string, j: nat)
    requires TableToken(t) && t != "WHERE" && !HasBlankKeyword(m, "WHERE")
    requires g1 != [] && AllSpace(g1) && g2 != [] && AllSpace(g2)
    requires j < 13 + |m| + |t| + |g1| + 5
    ensures At("SELECT " + m + (" FROM " + (t + (g1 + ("WHERE" + (g2 + rest))))), " WHERE ", j)
            <==> j == 13 + |m| + |t| + |g1| - 1 && Seen(g1, g2)
  {
    var tail := g1 + ("WHERE" + (g2 + rest));
    var s, n := "SELECT " + m + (" FROM " + (t + tail)), 13 + |m| + |t|;
    Layout(m, t + tail);
    assert s[n..] == tail by {
      DropToTail(s, 13 + |m|, t, tail);
    }
    assert tail[0] == g1[0];
    if j < n {
      NoWhereBefore(m, t, tail, j);
    } else {
      WhereInTail(g1, g2, rest, j - n);
      assert s == s[..n] + tail;
      AtPast(s[..n], tail, " WHERE ", j);
    }
  }

  lemma WhereInTail(g1: string, g2: string, rest: string, j: nat)
    requires g1 != [] && AllSpace(g1) && g2 != [] && AllSpace(g2) && j < |g1| + 5
    ensures At(g1 + ("WHERE" + (g2 + rest)), " WHERE ", j) <==> j == |g1| - 1 && Seen(g1, g2)
  {
    var tail, sub := g1 + ("WHERE" + (g2 + rest)), " WHERE ";
    if j < |g1| - 1 {
      AtChars(tail, sub, j, 1);
      assert RegexSpace(g1[j + 1]) && tail[j + 1] == g1[j + 1];
    } else if j >= |g1| {
      AtChars(tail, sub, j, 0);
      assert tail[j] == "WHERE"[j - |g1|];
    } else {
      AtChars(tail, sub, j, 0);
      AtChars(tail, sub, j, 6);
      assert tail[j] == g1[j] && tail[j + 6] == g2[0];
      assert Seen(g1, g2) ==> tail[j..j + 7] == [g1[j]] + "WHERE" + [g2[0]] == sub;
    }
  }

  lemma FrontLength(p: string, t: string, g1: string, f: string)
    ensures |Front(p, t, g1, f)| == 13 + |p| + |t| + |g1| + |f|
  {
  }

  /** The WHERE text of the statement: its own when the separator is seen, else what the text itself offers. */
  lemma WhereOfFront(p: string, t: string, g1: string, f: string, g2: string, text: string)
    requires Printable(p, t, Some(text)) && WhereSeparator(g1, f, g2)
    ensures WhereText(Front(p, t, g1, f) + (g2 + text))
            == if Seen(g1, g2) then TrimSpace(text) else WhereText(g2 + text)
  {
    var head, tail := Front(p, t, g1, f), g2 + text;
    var u, at := ToUpper(head + tail), 13 + |p| + |t| + |g1| - 1;
    UpperFront(p, t, g1, f, g2, text);
    UpperTableToken(t);
    FrontLength(p, t, g1, f);
    forall j | 0 <= j < |head| ensures At(u, " WHERE ", j) <==> j == at && Seen(g1, g2) {
      WhereFirst(ToUpper(p), ToUpper(t), g1, g2, ToUpper(text), j);
    }
    if Seen(g1, g2) {
      IndexIs(u, " WHERE ", at);
      assert at + 7 == |head| + 1 && (head + tail)[|head| + 1..] == tail[1..];
      WhereTextAt(head + tail, at, tail[1..]);
      assert tail[1..] == g2[1..] + text;
      TrimGap(g2[1..], text);
    } else {
      WherePast(head, tail);
    }
  }

  lemma {:induction false} TrimGap(gap: string, x: string)
    requires AllSpace(gap)
    ensures TrimSpace(gap + x) == TrimSpace(x)
  {
    if gap == [] {
      assert gap + x == x;
    } else {
      assert (gap + x)[1..] == gap[1..] + x;
      TrimGap(gap[1..], x);
    }
  }

  // ---- the rest of the parse ----

  lemma TargetIsTable(t: string, g1: string, f: string, g2: string, text: string)
    requires TableToken(t) && WhereSeparator(g1, f, g2) && HasVisible(text)
    ensures var rest := t + (g1 + (f + (g2 + text)));
            HasVisible(rest) && !NotOneTable(rest) && forall x | FirstField(rest, x) :: x == t
  {
    var rest := t + (g1 + (f + (g2 + text)));
    assert rest[0] == t[0] && t[0] in t;
    WhereIsInner(t, g1, f, g2, text);
    forall j | 0 <= j < |t| + |g1| ensures rest[j] != ',' {
      assert if j < |t| then rest[j] == t[j] && t[j] in t else rest[j] == g1[j - |t|] && RegexSpace(g1[j - |t|]);
    }
    forall x | FirstField(rest, x) ensures x == t {
      FieldIsToken(rest, t, x);
    }
  }

  lemma WhereIsInner(t: string, g1: string, f: string, g2: string, text: string)
    requires TableToken(t) && WhereSeparator(g1, f, g2) && HasVisible(text)
    ensures Inner(t + (g1 + (f + (g2 + text))), "WHERE", |t| + |g1| - 1)
  {
    var rest, i := t + (g1 + (f + (g2 + text))), |t| + |g1| - 1;
    assert rest[0] == t[0] && t[0] in t;
    assert rest[i] == g1[|g1| - 1] && rest[i + 6] == g2[0];
    forall d | 0 <= d < 5 ensures UpperChar(rest[i + 1 + d]) == "WHERE"[d] {
      assert rest[i + 1 + d] == f[d] && UpperChar("WHERE"[d]) == "WHERE"[d];
    }
    var k :| 0 <= k < |text| && Visible(text[k]);
    var at := |t| + |g1| + 5 + |g2| + k;
    assert rest[at] == text[k];
  }

  lemma FieldIsToken(rest: string, t: string, x: string)
    requires TableToken(t) && |t| < |rest| && rest[..|t|] == t && Space(rest[|t|]) && FirstField(rest, x)
    ensures x == t
  {
    var a :| 0 <= a <= |rest| - |x| && FieldAt(rest, x, a);
    assert forall i | 0 <= i < |t| :: rest[i] == rest[..|t|][i] == t[i] && t[i] in t;
    FieldIsVisible(rest, x, a);
    assert a == 0;
    assert |x| == |t|;
  }

  /**
   * With any white space around WHERE and in any letter case, the statement has the verdict of the
   * printed one and its table is read; but its WHERE text reaches the plan only from between two
   * blanks, and otherwise the plan's filter is whatever the text itself offers after a WHERE of its own.
   */
  lemma WhereSeparatorDecides(p: string, t: string, g1: string, f: string, g2: string, text: string)
    requires Printable(p, t, Some(text)) && WhereSeparator(g1, f, g2) && HasVisible(text)
    ensures var sql := Front(p, t, g1, f) + (g2 + text);
            && ValidateSQL(sql) == ValidateSQL(Print(p, t, Some(text)))
            && ParseSQL(sql)
               == Parsed(t, ReadProjection(p), if Seen(g1, g2) then TrimSpace(text) else WhereText(g2 + text))
  {
    var rest := t + (g1 + (f + (g2 + text)));
    FrontRegroups(p, t, g1, f, g2 + text);
    WhereOfFront(p, t, g1, f, g2, text);
    TargetIsTable(t, g1, f, g2, text);
    ReadFront(p, t, rest, Front(p, t, g1, f) + (g2 + text));
    SameNormal(p, t, g1, f, g2, text);
    SameVerdict(Front(p, t, g1, f) + (g2 + text), Print(p, t, Some(text)));
  }

  lemma ReadFront(p: string, t: string, rest: string, sql: string)
    requires PrintableHead(p) && sql == Statement(p, rest)
    requires HasVisible(rest) && !NotOneTable(rest) && forall x | FirstField(rest, x) :: x == t
    ensures ParseSQL(sql) == Parsed(t, ReadProjection(p), WhereText(sql))
  {
    TargetDecides(p, rest);
  }

  lemma SameNormal(p: string, t: string, g1: string, f: string, g2: string, text: string)
    requires WhereSeparator(g1, f, g2)
    ensures NormalizeSQL(Front(p, t, g1, f) + (g2 + text)) == NormalizeSQL(Print(p, t, Some(text)))
  {
    var a := "SELECT " + p + (" FROM " + t);
    UpperGaps(g1, f, g2);
    ToUpperConcat(f, g2 + text);
    ToUpperConcat("WHERE", g2 + text);
    UpperIsSame("WHERE");
    NormalizeIgnoresLayout(a, a, g1, " ", f + (g2 + text), "WHERE" + (g2 + text));
    NormalizeIgnoresLayout(a + " WHERE", a + " WHERE", g2, " ", text, text);
    GapsRegroup(p, t, g1, f, g2, text);
  }

  lemma GapsRegroup(p: string, t: string, g1: string, f: string, g2: string, text: string)
    ensures var a := "SELECT " + p + (" FROM " + t);
            && Front(p, t, g1, f) + (g2 + text) == a + g1 + (f + (g2 + text))
            && a + " " + ("WHERE" + (g2 + text)) == a + " WHERE" + g2 + text
            && a + " WHERE" + " " + text == Print(p, t, Some(text))
  {
    assert " WHERE" == " " + "WHERE" && " WHERE " == " WHERE" + " ";
  }

  /** A WHERE after a line break is accepted, and the plan streams every row of the table. */
  lemma FilterIsLost(catalog: map<string, seq<Column>>, hint: Option<string>, mode: Mode, batchSize: int)
    requires "T" in catalog && Streamable(catalog["T"], hint)
    ensures var result := Compile(catalog, "SELECT A FROM T" + "\nWHERE B", hint, mode, batchSize);
            result.Planned? && result.plan.table == "T" && result.plan.baseWhere == ""
  {
    LineBreakParses();
    CompilesTo(catalog, "SELECT A FROM T" + "\nWHERE B", hint, mode, batchSize, "T", ReadProjection("A"), "");
    PlanIsSound(catalog, "SELECT A FROM T" + "\nWHERE B", hint, mode, batchSize);
  }

  lemma LineBreakParses()
    ensures var sql := "SELECT A FROM T" + "\nWHERE B";
            ValidateSQL(sql).Accepted? && ParseSQL(sql) == Parsed("T", ReadProjection("A"), "")
  {
    StatementIsPrintable("B");
    LineBreakSeparates();
    LineBreakText();
    WhereSeparatorDecides("A", "T", "\n", "WHERE", " ", "B");
    NothingOffered();
    ShortIsAccepted();
  }

  lemma LineBreakSeparates()
    ensures WhereSeparator("\n", "WHERE", " ") && !Seen("\n", " ") && HasVisible("B")
  {
    assert Visible("B"[0]);
  }

  lemma LineBreakText()
    ensures Front("A", "T", "\n", "WHERE") + (" " + "B") == "SELECT A FROM T" + "\nWHERE B"
  {
    assert "SELECT A FROM T" == "SELECT " + "A" + (" FROM " + "T");
    assert "\nWHERE B" == "\n" + "WHERE" + (" " + "B");
    LineBreakRegroups("SELECT " + "A", " FROM ", "T", "\n", "WHERE", " " + "B");
  }

  lemma LineBreakRegroups(a: string, b: string, c: string, d: string, e: string, f: string)
    ensures a + (b + (c + (d + e))) + f == a + (b + c) + (d + e + f)
  {
  }

  lemma NothingOffered()
    ensures WhereText(" " + "B") == ""
  {
    NoWhereText(" " + "B");
  }

  lemma ShortIsAccepted()
    ensures ValidateSQL(Print("A", "T", Some("B"))).Accepted?
  {
    var n := Print("A", "T", Some("B"));
    LetterIsNormal();
    StatementIsNormal("B");
    HeadIsPlain();
    PlainVerdict(n);
    StatementRegroups("B");
    FromAt("T WHERE " + "B");
    assert ("SELECT A FROM " + ("T WHERE " + "B"))[14..] == "T WHERE " + "B";
    NoParenthesis();
    EarlierSubqueryIsMissed(n);
  }

  lemma LetterIsNormal()
    ensures Normal("B") && Plain("B")
  {
    UpperIsSame("B");
  }

  lemma NoParenthesis()
    ensures '(' !in "T WHERE " + "B"
  {
  }
}
