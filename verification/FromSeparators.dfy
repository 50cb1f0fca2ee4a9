/** A statement whose FROM is written with any white space around it and in any letter case. */
module FromSeparators {
  import opened Rows
  import opened Text
  import opened SqlText
  import opened StreamPlan
  import opened ParseRoundTrip
  import opened Compilation
  import opened ShortTexts
  import opened NestedSelects

  /** A gap, FROM in any letter case, and a gap. */
  predicate Separator(g1: string, f: string, g2: string)
  {
    g1 != [] && g2 != [] && AllSpace(g1) && AllSpace(g2) && ToUpper(f) == "FROM"
  }

  /** What follows the projection. */
  function Body(g1: string, f: string, g2: string, t: string, w: Option<string>): string
  {
    g1 + (f + (g2 + (t + WherePart(w))))
  }

  // ---- searching past the projection ----

  predicate Letters(k: string)
  {
    k != [] && forall i | 0 <= i < |k| :: !RegexSpace(k[i])
  }

  lemma HeadLayout(p: string, b: string)
    ensures var s := "SELECT " + p + b;
            && |s| == 7 + |p| + |b| && s[6..7 + |p|] == " " + p && s[7 + |p|..] == b
            && (forall j | 0 <= j < 6 :: s[j] != ' ')
  {
    var s := "SELECT " + p + b;
    assert forall j | 0 <= j < 6 :: s[j] == "SELECT "[j];
  }

  lemma LongerHas(a: string, b: string, sub: string, j: int)
    ensures At(a, sub, j) ==> At(a + b, sub, j)
  {
    if At(a, sub, j) {
      assert (a + b)[j..j + |sub|] == a[j..j + |sub|];
    }
  }

  /** A blank-separated keyword that is not in the projection does not start before what follows it. */
  lemma NotInHead(s: string, p: string, b: string, k: string, j: nat)
    requires |s| == 7 + |p| + |b| && s[6..7 + |p|] == " " + p && s[7 + |p|..] == b
    requires forall i | 0 <= i < 6 :: s[i] != ' '
    requires Letters(k) && !HasBlankKeyword(p, k) && b != [] && RegexSpace(b[0]) && j < 7 + |p|
    ensures !At(s, " " + k + " ", j)
  {
    var sub, f := " " + k + " ", 7 + |p|;
    assert s[f] == s[f..][0] == b[0];
    if j < 6 {
      AtChars(s, sub, j, 0);
    } else if j + |sub| <= f {
      NoBlankKeyword(p, k, sub, j - 6);
      AtInner(s, " " + p, 6, sub, j - 6);
      LongerHas(" " + p, " ", sub, j - 6);
    } else if j + |sub| == f + 1 && b[0] == ' ' {
      NoBlankKeyword(p, k, sub, j - 6);
      assert s[6..f + 1] == s[6..f] + [s[f]] == " " + p + " ";
      AtInner(s, " " + p + " ", 6, sub, j - 6);
    } else {
      AtChars(s, sub, j, f - j);
      assert f - j < |sub| - 1 ==> sub[f - j] == k[f - j - 1];
    }
  }

  lemma IndexPastHead(p: string, b: string, k: string)
    requires Letters(k) && !HasBlankKeyword(p, k) && b != [] && RegexSpace(b[0])
    ensures var i := Index(b, " " + k + " ");
            Index("SELECT " + p + b, " " + k + " ") == if i == -1 then -1 else 7 + |p| + i
  {
    HeadLayout(p, b);
    forall j | 0 <= j < |"SELECT " + p| ensures !At("SELECT " + p + b, " " + k + " ", j) {
      NotInHead("SELECT " + p + b, p, b, k, j);
    }
    IndexPast("SELECT " + p, b, " " + k + " ");
  }

  // ---- normalization ----

  lemma BodyIsGap(a: string, g1: string, f: string, g2: string, rest: string)
    requires Separator(g1, f, g2)
    ensures NormalizeSQL(a + (g1 + (f + (g2 + rest)))) == NormalizeSQL(a + (" FROM " + rest))
  {
    FirstGap(a, g1, f, g2 + rest);
    SecondGap(a, g2, rest);
  }

  lemma FirstGap(a: string, g1: string, f: string, rest: string)
    requires g1 != [] && AllSpace(g1) && ToUpper(f) == "FROM"
    ensures NormalizeSQL(a + (g1 + (f + rest))) == NormalizeSQL(a + (" FROM" + rest))
  {
    ToUpperConcat(f, rest);
    ToUpperConcat("FROM", rest);
    UpperIsSame("FROM");
    NormalizeIgnoresLayout(a, a, g1, " ", f + rest, "FROM" + rest);
    Associate(a, g1, f + rest);
    Associate(a, " ", "FROM" + rest);
    assert " FROM" + rest == " " + ("FROM" + rest);
  }

  lemma SecondGap(a: string, g2: string, rest: string)
    requires g2 != [] && AllSpace(g2)
    ensures NormalizeSQL(a + (" FROM" + (g2 + rest))) == NormalizeSQL(a + (" FROM " + rest))
  {
    var b := a + " FROM";
    NormalizeIgnoresLayout(b, b, g2, " ", rest, rest);
    Associate(b, g2, rest);
    Associate(b, " ", rest);
    Associate(a, " FROM", g2 + rest);
    Associate(a, " FROM", " " + rest);
    assert " FROM" + (" " + rest) == " FROM " + rest;
  }

  lemma Associate(a: string, b: string, c: string)
    ensures a + b + c == a + (b + c)
  {
  }

  // ---- the WHERE text ----

  lemma UpperBody(g1: string, f: string, g2: string, t: string, w: Option<string>)
    ensures ToUpper(Body(g1, f, g2, t, w))
            == ToUpper(g1) + (ToUpper(f) + (ToUpper(g2) + (ToUpper(t) + ToUpper(WherePart(w)))))
  {
    ToUpperConcat(g1, f + (g2 + (t + WherePart(w))));
    ToUpperConcat(f, g2 + (t + WherePart(w)));
    ToUpperConcat(g2, t + WherePart(w));
    ToUpperConcat(t, WherePart(w));
  }

  lemma GapLayout(g1: string, g2: string, u: string, tail: string)
    ensures var b := g1 + ("FROM" + (g2 + (u + tail)));
            var n := |g1| + 4 + |g2|;
            && |b| == n + |u| + |tail| && b[n..] == u + tail && b[n + |u|..] == tail
            && (forall j | 0 <= j < |g1| :: b[j] == g1[j])
            && b[|g1|] == 'F' && b[|g1| + 1] == 'R' && b[|g1| + 2] == 'O' && b[|g1| + 3] == 'M'
            && (forall j | |g1| + 4 <= j < n :: b[j] == g2[j - |g1| - 4])
            && (forall j | n <= j < n + |u| :: b[j] == u[j - n])
  {
  }

  /** No blank-separated WHERE before the end of the table name. */
  lemma NoWhereInGap(b: string, g1: string, g2: string, u: string, tail: string, j: nat)
    requires g1 != [] && g2 != [] && AllSpace(g1) && AllSpace(g2) && TableToken(u)
    requires b == g1 + ("FROM" + (g2 + (u + tail))) && j < |g1| + 4 + |g2| + |u|
    requires tail != [] ==> tail[0] == ' ' && u != "WHERE"
    ensures !At(b, " WHERE ", j)
  {
    var n := |g1| + 4 + |g2|;
    GapLayout(g1, g2, u, tail);
    if j == n - 1 {
      NotTableWhere(b, u, tail, j);
    } else if j < n - 1 {
      AtChars(b, " WHERE ", j, 1);
      assert b[j + 1] != 'W';
    } else {
      AtChars(b, " WHERE ", j, 0);
      assert u[j - n] in u;
    }
  }

  lemma WhereInBody(g1: string, f: string, g2: string, t: string, w: Option<string>)
    requires Separator(g1, f, g2) && TableToken(t) && (w.Some? ==> ToUpper(t) != "WHERE")
    ensures Index(ToUpper(Body(g1, f, g2, t, w)), " WHERE ") == if w.None? then -1 else |g1| + |f| + |g2| + |t|
  {
    var b, u, tail := ToUpper(Body(g1, f, g2, t, w)), ToUpper(t), ToUpper(WherePart(w));
    UpperBody(g1, f, g2, t, w);
    UpperKeepsSpace(g1);
    UpperKeepsSpace(g2);
    UpperTableToken(t);
    UpperWhere(w);
    forall j | 0 <= j < |g1| + 4 + |g2| + |u| ensures !At(b, " WHERE ", j) {
      NoWhereInGap(b, ToUpper(g1), ToUpper(g2), u, tail, j);
    }
    GapLayout(ToUpper(g1), ToUpper(g2), u, tail);
    FirstAtTail(b, " WHERE ", |g1| + 4 + |g2| + |u|, tail);
  }

  lemma UpperSql(p: string, b: string)
    ensures ToUpper("SELECT " + p + b) == "SELECT " + ToUpper(p) + ToUpper(b)
  {
    ToUpperConcat("SELECT " + p, b);
    ToUpperConcat("SELECT ", p);
    UpperIsSame("SELECT ");
  }

  lemma WhereInSql(p: string, b: string)
    requires !HasBlankKeyword(ToUpper(p), "WHERE") && b != [] && RegexSpace(b[0])
    ensures var i := Index(ToUpper(b), " WHERE ");
            Index(ToUpper("SELECT " + p + b), " WHERE ") == if i == -1 then -1 else 7 + |p| + i
  {
    UpperSql(p, b);
    UpperKeepsSpace(b);
    IndexPastHead(ToUpper(p), ToUpper(b), "WHERE");
    assert " " + "WHERE" + " " == " WHERE ";
  }

  lemma TextAfter(p: string, b: string, i: nat, text: string)
    requires i + 7 <= |b| && b[i + 7..] == text
    ensures ("SELECT " + p + b)[7 + |p| + i + 7..] == text
  {
  }

  lemma BodyTail(g1: string, f: string, g2: string, t: string, text: string)
    ensures var b, i := Body(g1, f, g2, t, Some(text)), |g1| + |f| + |g2| + |t|; i + 7 <= |b| && b[i + 7..] == text
  {
    var i := |g1| + |f| + |g2| + |t|;
    assert Body(g1, f, g2, t, Some(text)) == g1 + f + g2 + t + " WHERE " + text;
  }

  lemma WhereOfBody(p: string, g1: string, f: string, g2: string, t: string, w: Option<string>)
    requires Printable(p, t, w) && Separator(g1, f, g2)
    ensures WhereText("SELECT " + p + Body(g1, f, g2, t, w)) == ClauseText(w)
  {
    var b := Body(g1, f, g2, t, w);
    assert b[0] == g1[0];
    WhereInBody(g1, f, g2, t, w);
    WhereInSql(p, b);
    match w
    case None => NoWhereText("SELECT " + p + b);
    case Some(text) =>
      var i := |g1| + |f| + |g2| + |t|;
      BodyTail(g1, f, g2, t, text);
      TextAfter(p, b, i, text);
      WhereTextAt("SELECT " + p + b, 7 + |p| + i, text);
  }

  // ---- parsing ----

  lemma SameNormal(p: string, g1: string, f: string, g2: string, t: string, w: Option<string>)
    requires Separator(g1, f, g2)
    ensures NormalizeSQL("SELECT " + p + Body(g1, f, g2, t, w)) == NormalizeSQL(Print(p, t, w))
  {
    BodyIsGap("SELECT " + p, g1, f, g2, t + WherePart(w));
  }

  /** What the parser makes of a body: the first literal " FROM " in it decides. */
  function BodyResult(b: string, projection: string, clause: string): ParseResult
  {
    var i := Index(b, " FROM ");
    if i == -1 then Failed(InvalidSQL) else FieldsResult(TableFields(b[i + 6..]), projection, clause)
  }

  function FieldsResult(fields: seq<string>, projection: string, clause: string): ParseResult
  {
    if fields == [] then Failed(InvalidSQL) else Parsed(fields[0], projection, clause)
  }

  lemma ParseOfBody(sql: string, n: string, length: nat, raw: string, from: int, b: string, i: int, clause: string)
    requires NormalizeSQL(sql) == n && Index(n, " FROM ") == 7 + length && Index(n, "SELECT ") == 0
    requires |n| >= 13 + length && SingleTable(n[13 + length..]) && 7 + length <= |sql| && sql[7..7 + length] == raw
    requires Index(b, " FROM ") == i && Index(sql, " FROM ") == from && (i == -1 <==> from == -1)
    requires i != -1 ==> from + 6 <= |sql| && i + 6 <= |b| && sql[from + 6..] == b[i + 6..]
    requires WhereText(sql) == clause
    ensures ParseSQL(sql) == BodyResult(b, TrimSpace(raw), clause)
  {
    ProjectionIs(sql, n, length, raw);
  }

  lemma HeadCuts(p: string, b: string, n: nat, i: nat)
    requires n <= |p| && i <= |b|
    ensures ("SELECT " + p + b)[7..7 + n] == p[..n] && ("SELECT " + p + b)[7 + |p| + i..] == b[i..]
  {
    assert ("SELECT " + p + b)[7..7 + |p|] == p;
    assert ("SELECT " + p + b)[7..7 + n] == ("SELECT " + p + b)[7..7 + |p|][..n];
  }

  lemma FromInSql(p: string, b: string)
    requires !HasBlankKeyword(p, "FROM") && b != [] && RegexSpace(b[0])
    ensures var i := Index(b, " FROM ");
            Index("SELECT " + p + b, " FROM ") == if i == -1 then -1 else 7 + |p| + i
  {
    IndexPastHead(p, b, "FROM");
    assert " " + "FROM" + " " == " FROM ";
  }

  /**
   * Any white space around FROM and any letter case leave the verdict as it is.  The parser goes by
   * the first literal " FROM " after the projection, wherever it stands: it reads the table there,
   * and reports invalid SQL when there is none or nothing follows it.
   */
  lemma ParseWithSeparator(p: string, g1: string, f: string, g2: string, t: string, w: Option<string>)
    requires Printable(p, t, w) && Separator(g1, f, g2)
    ensures |Collapse(ToUpper(p))| <= |p|
    ensures var sql := "SELECT " + p + Body(g1, f, g2, t, w);
            && ValidateSQL(sql) == ValidateSQL(Print(p, t, w))
            && ParseSQL(sql) == BodyResult(Body(g1, f, g2, t, w), ReadProjection(p), ClauseText(w))
  {
    var b, n := Body(g1, f, g2, t, w), |Collapse(ToUpper(p))|;
    var sql, i := "SELECT " + p + b, Index(b, " FROM ");
    SameNormal(p, g1, f, g2, t, w);
    SameVerdict(sql, Print(p, t, w));
    CollapsedHead(p);
    CollapseKeepsFrom(p);
    NormalizedSide(p, t, w);
    assert b[0] == g1[0];
    FromInSql(p, b);
    HeadCuts(p, b, n, if i == -1 then 0 else i + 6);
    WhereOfBody(p, g1, f, g2, t, w);
    ParseOfBody(sql, NormalizeSQL(sql), n, p[..n], if i == -1 then -1 else 7 + |p| + i, b, i, ClauseText(w));
  }

  // ---- which separators work ----

  /** The separator contains a FROM in capitals between single blanks. */
  predicate Literal(g1: string, f: string, g2: string)
    requires Separator(g1, f, g2)
  {
    g1[|g1| - 1] == ' ' && f == "FROM" && g2[0] == ' '
  }

  lemma KeywordLetters(f: string)
    requires ToUpper(f) == "FROM"
    ensures |f| == 4 && forall i | 0 <= i < 4 :: f[i] != ' ' && (i > 0 ==> f[i] != 'F')
  {
    assert forall i | 0 <= i < 4 :: UpperChar(f[i]) == "FROM"[i];
  }

  lemma SepLayout(g1: string, f: string, g2: string, rest: string)
    requires Separator(g1, f, g2)
    ensures var b, n := g1 + (f + (g2 + rest)), |g1| + 4 + |g2|;
            && |b| == n + |rest| && b[n..] == rest
            && (forall j | 0 <= j < |g1| :: b[j] == g1[j]) && b[|g1|..|g1| + 4] == f
            && (forall j | |g1| + 4 <= j < n :: b[j] == g2[j - |g1| - 4])
  {
    KeywordLetters(f);
  }

  lemma FromAtSep(b: string, g1: string, f: string, g2: string, rest: string)
    requires Separator(g1, f, g2) && b == g1 + (f + (g2 + rest))
    ensures At(b, " FROM ", |g1| - 1) <==> Literal(g1, f, g2)
  {
    var i := |g1| - 1;
    SepLayout(g1, f, g2, rest);
    KeywordLetters(f);
    var w := b[i..i + 6];
    assert w == [g1[i]] + f + [g2[0]];
    if Literal(g1, f, g2) {
      assert w == " " + "FROM" + " " == " FROM ";
    }
    if At(b, " FROM ", i) {
      assert w[0] == ' ' && w[5] == ' ' && w[1..5] == f && " FROM "[1..5] == "FROM";
    }
  }

  /** Before the table name " FROM " can only stand at the keyword itself. */
  lemma FromOnlyAtSep(b: string, g1: string, f: string, g2: string, rest: string, j: nat)
    requires Separator(g1, f, g2) && b == g1 + (f + (g2 + rest)) && j < |g1| + 3 + |g2| && j != |g1| - 1
    ensures !At(b, " FROM ", j)
  {
    SepLayout(g1, f, g2, rest);
    KeywordLetters(f);
    AtChars(b, " FROM ", j, 1);
    if |g1| <= j + 1 < |g1| + 4 {
      assert b[j + 1] == b[|g1|..|g1| + 4][j + 1 - |g1|];
    }
  }

  lemma LiteralIff(g1: string, f: string, g2: string)
    requires Separator(g1, f, g2)
    ensures Contains(g1 + (f + g2), " FROM ") <==> Literal(g1, f, g2)
  {
    var b := g1 + (f + g2);
    assert g2 + [] == g2;
    FromAtSep(b, g1, f, g2, []);
    SepLayout(g1, f, g2, []);
    IndexFirst(b, " FROM ");
    var i := Index(b, " FROM ");
    if i != -1 && i != |g1| - 1 {
      FromOnlyAtSep(b, g1, f, g2, [], i);
    }
  }

  lemma GapIsTrimmed(gap: string, x: string)
    requires AllSpace(gap)
    ensures TrimLeft(gap + x) == TrimLeft(x)
  {
    if gap == [] {
      assert gap + x == x;
    } else {
      assert (gap + x)[1..] == gap[1..] + x;
      GapIsTrimmed(gap[1..], x);
    }
  }

  lemma FieldsAfterGap(gap: string, x: string)
    requires AllSpace(gap)
    ensures TableFields(gap + x) == TableFields(x)
  {
    GapIsTrimmed(gap, x);
  }

  lemma AfterLiteral(g1: string, f: string, g2: string, rest: string)
    requires Separator(g1, f, g2)
    ensures var b := g1 + (f + (g2 + rest)); |b| >= |g1| + 5 && b[|g1| + 5..] == g2[1..] + rest
  {
    KeywordLetters(f);
  }

  lemma LiteralResult(
    b: string, g1: string, f: string, g2: string, t: string, w: Option<string>, projection: string, clause: string)
    requires Separator(g1, f, g2) && Literal(g1, f, g2) && TableToken(t) && b == g1 + (f + (g2 + (t + WherePart(w))))
    ensures BodyResult(b, projection, clause) == Parsed(t, projection, clause)
  {
    var rest := t + WherePart(w);
    FromAtSep(b, g1, f, g2, rest);
    forall j | 0 <= j < |g1| - 1 ensures !At(b, " FROM ", j) {
      FromOnlyAtSep(b, g1, f, g2, rest, j);
    }
    IndexIs(b, " FROM ", |g1| - 1);
    AfterLiteral(g1, f, g2, rest);
    FieldsAfterGap(g2[1..], rest);
    TableReadBack(t, w);
    ResultSome(b, |g1| - 1, g2[1..] + rest, projection, clause);
  }

  /** With a literal separator the statement parses as if it had been printed. */
  lemma LiteralParses(p: string, g1: string, f: string, g2: string, t: string, w: Option<string>)
    requires Printable(p, t, w) && Separator(g1, f, g2) && Literal(g1, f, g2)
    ensures ParseSQL("SELECT " + p + Body(g1, f, g2, t, w)) == ParseSQL(Print(p, t, w))
  {
    LiteralResult(Body(g1, f, g2, t, w), g1, f, g2, t, w, ReadProjection(p), ClauseText(w));
    ParseWithSeparator(p, g1, f, g2, t, w);
    ParsePrinted(p, t, w);
  }

  /** From the second gap on " FROM " first stands in the tail, unless the table itself is called FROM. */
  lemma NoFromBeforeTail(gap: string, t: string, tail: string, j: nat)
    requires gap != [] && AllSpace(gap) && TableToken(t) && (tail != [] ==> tail[0] == ' ' && t != "FROM")
    requires j < |gap| + |t|
    ensures !At(gap + t + tail, " FROM ", j)
  {
    var b, n := gap + t + tail, |gap|;
    assert b[n..] == t + tail && b[n - 1 + 1..] == t + tail;
    if j < n - 1 {
      AtChars(b, " FROM ", j, 1);
      assert b[j + 1] == gap[j + 1];
    } else if j == n - 1 {
      NotTableFrom(b, t, tail, j);
    } else {
      AtChars(b, " FROM ", j, 0);
      assert b[j] == t[j - n] && t[j - n] in t;
    }
  }

  lemma ResultOfRest(gap: string, t: string, tail: string, projection: string, clause: string)
    requires gap != [] && AllSpace(gap) && TableToken(t) && (tail != [] ==> tail[0] == ' ' && t != "FROM")
    ensures BodyResult(gap + (t + tail), projection, clause) == BodyResult(tail, projection, clause)
  {
    forall j | 0 <= j < |gap + t| ensures !At(gap + t + tail, " FROM ", j) {
      NoFromBeforeTail(gap, t, tail, j);
    }
    BodySplits(gap, t, tail);
    ResultPast(gap + t, tail, projection, clause);
  }

  lemma NotTableFrom(s: string, t: string, tail: string, j: nat)
    requires TableToken(t) && j + 1 + |t| + |tail| == |s| && s[j + 1..] == t + tail
    requires tail != [] ==> tail[0] == ' ' && t != "FROM"
    ensures !At(s, " FROM ", j)
  {
    var sub := " FROM ";
    forall i | 0 <= i < |t| ensures s[j + 1 + i] == t[i] && Visible(t[i]) {
      assert s[j + 1..][i] == (t + tail)[i] && t[i] in t;
    }
    if |t| > 4 {
      AtChars(s, sub, j, 5);
      assert s[j + 5] == t[4] && s[j + 5] != ' ';
    } else if |t| < 4 {
      AtChars(s, sub, j, |t| + 1);
      assert tail != [] ==> s[j + 1..][|t|] == tail[0] == ' ';
    } else {
      assert tail == [] ==> |s| < j + 6;
      AtChars(s, sub, j, 1);
      AtChars(s, sub, j, 2);
      AtChars(s, sub, j, 3);
      AtChars(s, sub, j, 4);
      assert t[0] == 'F' && t[1] == 'R' && t[2] == 'O' && t[3] == 'M' ==> t == "FROM";
    }
  }

  lemma ResultPast(head: string, tail: string, projection: string, clause: string)
    requires forall j | 0 <= j < |head| :: !At(head + tail, " FROM ", j)
    ensures BodyResult(head + tail, projection, clause) == BodyResult(tail, projection, clause)
  {
    IndexPast(head, tail, " FROM ");
    var i := Index(tail, " FROM ");
    if i == -1 {
      ResultNone(tail, projection, clause);
      ResultNone(head + tail, projection, clause);
    } else {
      RestPast(head, tail, i + 6);
      ResultSome(tail, i, tail[i + 6..], projection, clause);
      ResultSome(head + tail, |head| + i, tail[i + 6..], projection, clause);
    }
  }

  lemma ResultNone(b: string, projection: string, clause: string)
    requires Index(b, " FROM ") == -1
    ensures BodyResult(b, projection, clause) == Failed(InvalidSQL)
  {
  }

  lemma ResultSome(b: string, i: nat, rest: string, projection: string, clause: string)
    requires Index(b, " FROM ") == i && i + 6 <= |b| && b[i + 6..] == rest
    ensures BodyResult(b, projection, clause) == FieldsResult(TableFields(rest), projection, clause)
  {
  }

  /** Without a literal separator the parser goes by what follows the keyword. */
  lemma OtherParses(p: string, g1: string, f: string, g2: string, t: string, w: Option<string>)
    requires Printable(p, t, w) && Separator(g1, f, g2) && !Literal(g1, f, g2)
    ensures |Collapse(ToUpper(p))| <= |p|
    ensures ParseSQL("SELECT " + p + Body(g1, f, g2, t, w))
            == BodyResult(g2 + (t + WherePart(w)), ReadProjection(p), ClauseText(w))
  {
    var rest := g2 + (t + WherePart(w));
    KeywordLetters(f);
    BodySplits(g1, f, rest);
    forall j | 0 <= j < |g1 + f| ensures !At(g1 + f + rest, " FROM ", j) {
      FromAtSep(g1 + f + rest, g1, f, g2, t + WherePart(w));
      if j != |g1| - 1 {
        FromOnlyAtSep(g1 + f + rest, g1, f, g2, t + WherePart(w), j);
      }
    }
    ParseWithSeparator(p, g1, f, g2, t, w);
    ResultPast(g1 + f, rest, ReadProjection(p), ClauseText(w));
  }

  lemma BodySplits(g1: string, f: string, rest: string)
    ensures g1 + (f + rest) == g1 + f + rest
  {
  }

  /** Without a WHERE clause the statement parses iff its separator contains " FROM "; else it is invalid SQL. */
  lemma SeparatorDecides(p: string, g1: string, f: string, g2: string, t: string)
    requires Printable(p, t, None) && Separator(g1, f, g2)
    ensures ParseSQL("SELECT " + p + Body(g1, f, g2, t, None))
            == if Contains(g1 + (f + g2), " FROM ") then ParseSQL(Print(p, t, None)) else Failed(InvalidSQL)
  {
    LiteralIff(g1, f, g2);
    if Literal(g1, f, g2) {
      LiteralParses(p, g1, f, g2, t, None);
    } else {
      OtherParses(p, g1, f, g2, t, None);
      ResultOfRest(g2, t, [], ReadProjection(p), "");
    }
  }

  /** The table that a text offers after its first " FROM ". */
  function Offered(text: string): Option<string>
  {
    var i := Index(text, " FROM ");
    if i == -1 || TableFields(text[i + 6..]) == [] then None else Some(TableFields(text[i + 6..])[0])
  }

  /**
   * With a WHERE clause the statement parses iff its separator contains " FROM " or the text after the
   * keyword does, with something after it; in the second case that something is read as the table.
   * Unless the table itself is called FROM, only the WHERE text can offer one.
   */
  lemma SeparatorOrTextDecides(p: string, g1: string, f: string, g2: string, t: string, text: string)
    requires Printable(p, t, Some(text)) && Separator(g1, f, g2)
    ensures |Collapse(ToUpper(p))| <= |p|
    ensures var offered := Offered(g2 + (t + (" WHERE " + text)));
            && ParseSQL("SELECT " + p + Body(g1, f, g2, t, Some(text)))
               == (if Contains(g1 + (f + g2), " FROM ") then Parsed(t, ReadProjection(p), TrimSpace(text))
                   else if offered.None? then Failed(InvalidSQL)
                   else Parsed(offered.value, ReadProjection(p), TrimSpace(text)))
            && (t != "FROM" ==> offered == Offered(" WHERE " + text))
  {
    CollapsedHead(p);
    LiteralIff(g1, f, g2);
    if Literal(g1, f, g2) {
      LiteralParses(p, g1, f, g2, t, Some(text));
      ParsePrinted(p, t, Some(text));
    } else {
      OtherParses(p, g1, f, g2, t, Some(text));
    }
    if t != "FROM" {
      ResultOfRest(g2, t, " WHERE " + text, "", "");
      OfferedResult(g2 + (t + (" WHERE " + text)));
      OfferedResult(" WHERE " + text);
    }
  }

  lemma OfferedResult(b: string)
    ensures BodyResult(b, "", "") == if Offered(b).None? then Failed(InvalidSQL) else Parsed(Offered(b).value, "", "")
  {
  }

  // ---- another table is read ----

  const QUOTED := "B = '" + " FROM C '"

  lemma FirstHalf()
    ensures Spaced("B = '") && Plain("B = '")
  {
    UpperIsSame("B = '");
  }

  lemma SecondHalf()
    ensures Spaced(" FROM C '")
  {
    UpperIsSame(" FROM C '");
  }

  lemma SecondHalfIsPlain()
    ensures Plain(" FROM C '")
  {
  }

  lemma QuotedIsNormal()
    ensures Normal(QUOTED) && Plain(QUOTED)
  {
    FirstHalf();
    SecondHalf();
    SecondHalfIsPlain();
    SpacedConcat("B = '", " FROM C '");
  }

  lemma NoParenAfterFrom()
    ensures '(' !in "T WHERE " + QUOTED
  {
  }

  lemma QuotedIsAccepted()
    ensures ValidateSQL(Print("A", "T", Some(QUOTED))).Accepted?
  {
    var n := Print("A", "T", Some(QUOTED));
    QuotedIsNormal();
    StatementIsNormal(QUOTED);
    HeadIsPlain();
    PlainVerdict(n);
    StatementRegroups(QUOTED);
    FromAt("T WHERE " + QUOTED);
    assert ("SELECT A FROM " + ("T WHERE " + QUOTED))[14..] == "T WHERE " + QUOTED;
    NoParenAfterFrom();
    EarlierSubqueryIsMissed(n);
  }

  lemma FromAfterQuote(j: nat)
    requires j < 12
    ensures !At(" WHERE " + "B = '" + " FROM C '", " FROM ", j)
  {
    var s := " WHERE " + "B = '" + " FROM C '";
    AtChars(s, " FROM ", j, 1);
    assert s[j + 1] == if j < 6 then " WHERE "[j + 1] else if j < 11 then "B = '"[j - 6] else ' ';
  }

  lemma QuotedIndex()
    ensures Index(" WHERE " + "B = '" + " FROM C '", " FROM ") == 12
  {
    var s := " WHERE " + "B = '" + " FROM C '";
    forall j | 0 <= j < 12 ensures !At(s, " FROM ", j) {
      FromAfterQuote(j);
    }
    assert s[12..18] == " FROM ";
    IndexIs(s, " FROM ", 12);
  }

  lemma QuotedOffers()
    ensures Offered(" WHERE " + QUOTED) == Some("C")
  {
    QuotedIndex();
    Associate(" WHERE ", "B = '", " FROM C '");
    assert (" WHERE " + "B = '" + " FROM C '")[18..] == "C" + " '";
    QuotedFields();
  }

  lemma QuotedFields()
    ensures TableFields("C" + " '") != [] && TableFields("C" + " '")[0] == "C"
  {
    TrimOfTrimmed("C" + " '");
    LetterMissing(ToUpper("C" + " '"), " WHERE ", 1);
    FieldsHead("C", " '");
  }

  /** With `from` in small letters and a quoted " FROM C " in the WHERE text, the plan streams C instead of T. */
  lemma OtherTableIsPlanned(catalog: map<string, seq<Column>>, hint: Option<string>, mode: Mode, batchSize: int)
    requires "C" in catalog && Streamable(catalog["C"], hint)
    ensures var result := Compile(catalog, "SELECT A from T WHERE " + QUOTED, hint, mode, batchSize);
            result.Planned? && result.plan.table == "C"
  {
    OtherTableIsRead();
    CompilesTo(catalog, "SELECT A from T WHERE " + QUOTED, hint, mode, batchSize, "C", ReadProjection("A"),
        TrimSpace(QUOTED));
  }

  lemma OtherTableIsRead()
    ensures var sql := "SELECT A from T WHERE " + QUOTED;
            ValidateSQL(sql).Accepted? && ParseSQL(sql) == Parsed("C", ReadProjection("A"), TrimSpace(QUOTED))
  {
    FromInSmallLetters();
    StatementIsPrintable(QUOTED);
    QuotedIsAccepted();
    QuotedOffers();
    ParseWithSeparator("A", " ", "from", " ", "T", Some(QUOTED));
    SeparatorOrTextDecides("A", " ", "from", " ", "T", QUOTED);
  }

  lemma FromInSmallLetters()
    ensures Separator(" ", "from", " ") && !Contains(" " + ("from" + " "), " FROM ")
    ensures "SELECT " + "A" + Body(" ", "from", " ", "T", Some(QUOTED)) == "SELECT A from T WHERE " + QUOTED
  {
    assert ToUpper("from") == "FROM";
    LetterMissing(" " + ("from" + " "), " FROM ", 1);
    SmallLettersText(QUOTED);
  }

  lemma SmallLettersText(text: string)
    ensures "SELECT " + "A" + (" " + ("from" + (" " + ("T" + (" WHERE " + text))))) == "SELECT A from T WHERE " + text
  {
    assert "SELECT A from T WHERE " == "SELECT " + "A" + (" " + ("from" + (" " + ("T" + " WHERE "))));
  }
}
