/** What may stand after FROM, said on the characters of the statement as it was typed. */
module Targets {
  import opened Rows
  import opened Text
  import opened SqlText
  import opened StreamPlan
  import opened ParseRoundTrip
  import opened Compilation
  import opened BlankKeywords

  /** The first visible character of the text is this one. */
  predicate StartsWith(s: string, x: char)
  {
    exists j | 0 <= j < |s| :: s[j] == x && forall i | 0 <= i < j :: Space(s[i])
  }

  /** A comma stands before every WHERE that has white space around it and something visible on both sides. */
  ghost predicate CommaBeforeWhere(rest: string)
  {
    exists j | 0 <= j < |rest| :: rest[j] == ',' && forall i | Inner(rest, "WHERE", i) :: j < i
  }

  /** The text after FROM names something other than one table. */
  ghost predicate NotOneTable(rest: string)
  {
    CommaBeforeWhere(rest) || StartsWith(rest, '(')
  }

  predicate HasVisible(s: string)
  {
    Sees(s, 0, |s|)
  }

  lemma WhereIsKeyword()
    ensures Keyword("WHERE") && Blanked("WHERE") == " WHERE "
  {
    UpperIsSame("WHERE");
  }

  lemma FromIsKeyword()
    ensures Keyword("FROM") && Blanked("FROM") == " FROM "
  {
    UpperIsSame("FROM");
  }

  // ---- single characters ----

  /** No letter case hides or makes this character. */
  predicate Mark(x: char)
  {
    Visible(x) && !('a' <= x <= 'z') && !('A' <= x <= 'Z')
  }

  lemma ContainsMark(s: string, x: char)
    ensures Contains(s, [x]) <==> x in s
  {
    IndexFirst(s, [x]);
    if x in s {
      var j :| 0 <= j < |s| && s[j] == x;
      assert s[j..j + 1] == [x];
      assert At(s, [x], j);
    }
    if Contains(s, [x]) {
      AtChars(s, [x], Index(s, [x]), 0);
    }
  }

  lemma UpperHas(s: string, x: char)
    requires Mark(x)
    ensures x in ToUpper(s) <==> x in s
  {
    forall j | 0 <= j < |s| ensures ToUpper(s)[j] == x <==> s[j] == x {
    }
    if x in s {
      var j :| 0 <= j < |s| && s[j] == x;
      assert ToUpper(s)[j] == x;
    }
  }

  lemma TrimHas(s: string, x: char)
    requires Visible(x)
    ensures x in TrimSpace(s) <==> x in s
  {
    TrimCut(s);
    var l, t := Margin(s), TrimSpace(s);
    if x in s {
      var j :| 0 <= j < |s| && s[j] == x;
      assert t[j - l] == x;
    }
  }

  lemma NormalHas(s: string, x: char)
    requires Mark(x)
    ensures x in NormalizeSQL(s) <==> x in s
  {
    UpperHas(s, x);
    CollapseHas(ToUpper(s), x);
    TrimHas(Collapse(ToUpper(s)), x);
  }

  lemma UpperStarts(s: string, x: char)
    requires Mark(x)
    ensures StartsWith(ToUpper(s), x) <==> StartsWith(s, x)
  {
    if StartsWith(s, x) {
      var j :| 0 <= j < |s| && s[j] == x && forall i | 0 <= i < j :: Space(s[i]);
      assert ToUpper(s)[j] == x;
    }
    if StartsWith(ToUpper(s), x) {
      var j :| 0 <= j < |s| && ToUpper(s)[j] == x && forall i | 0 <= i < j :: Space(ToUpper(s)[i]);
      assert s[j] == x;
      assert forall i | 0 <= i < j :: Space(ToUpper(s)[i]) && Space(s[i]);
    }
  }

  lemma StartsStep(s: string, x: char)
    requires Visible(x) && s != []
    ensures StartsWith(s, x) <==> s[0] == x || (Space(s[0]) && StartsWith(s[1..], x))
  {
    var r := s[1..];
    if StartsWith(s, x) {
      var j :| 0 <= j < |s| && s[j] == x && forall i | 0 <= i < j :: Space(s[i]);
      if j > 0 {
        assert r[j - 1] == x && forall i | 0 <= i < j - 1 :: r[i] == s[i + 1];
      }
    }
    if Space(s[0]) && StartsWith(r, x) {
      var j :| 0 <= j < |r| && r[j] == x && forall i | 0 <= i < j :: Space(r[i]);
      assert s[j + 1] == x && forall i | 0 < i < j + 1 :: s[i] == r[i - 1];
    }
  }

  lemma {:induction false} CollapseStarts(s: string, x: char)
    requires Visible(x)
    ensures StartsWith(Collapse(s), x) <==> StartsWith(s, x)
  {
    if s != [] {
      CollapseStarts(s[1..], x);
      StartsStep(s, x);
      CollapseIsNormal(s);
      StartsStep(Collapse(s), x);
      assert Collapse(s) != Collapse(s[1..]) ==> Collapse(s)[1..] == Collapse(s[1..]);
    }
  }

  lemma TrimStarts(s: string, x: char)
    requires Visible(x)
    ensures StartsWith(s, x) <==> TrimSpace(s) != [] && TrimSpace(s)[0] == x
  {
    TrimCut(s);
    var l, t := Margin(s), TrimSpace(s);
    if StartsWith(s, x) {
      var j :| 0 <= j < |s| && s[j] == x && forall i | 0 <= i < j :: Space(s[i]);
      assert l <= j < l + |t|;
      assert t[0] == s[l];
    }
    if t != [] && t[0] == x {
      assert s[l] == x;
    }
  }

  lemma NormalStarts(s: string, x: char)
    requires Mark(x)
    ensures StartsWith(s, x) <==> NormalizeSQL(s) != [] && NormalizeSQL(s)[0] == x
  {
    UpperStarts(s, x);
    CollapseStarts(ToUpper(s), x);
    TrimStarts(Collapse(ToUpper(s)), x);
  }

  // ---- the target up to WHERE ----

  lemma PrefixHas(s: string, i: nat, x: char)
    requires i <= |s|
    ensures x in s[..i] <==> exists j | 0 <= j < i :: s[j] == x
  {
    if j :| 0 <= j < i && s[j] == x {
      assert s[..i][j] == x;
    }
  }

  /** Up to the first WHERE, normalized text has the marks that the original has before that WHERE. */
  lemma CutHas(s: string, x: char, i: nat, m: nat)
    requires Mark(x) && Inner(s, "WHERE", i) && m <= |NormalizeSQL(s)|
    requires |Collapse(ToUpper(s)[..i + 1])| - 1 - Margin(Collapse(ToUpper(s))) == m
    ensures x in NormalizeSQL(s)[..m] <==> exists j | 0 <= j < i :: s[j] == x
  {
    var u := ToUpper(s);
    ToUpperIdempotent(s);
    InnerUpper(s, "WHERE", i);
    WhereCut(u, i);
    CollapseHas(u[..i + 1], x);
    UpperPrefixHas(s, i, x);
    TrimmedSliceHas(Collapse(u), m, Collapse(u[..i + 1]), x);
  }

  lemma WhereCut(u: string, i: nat)
    requires ToUpper(u) == u && Stands(u, "WHERE", i)
    ensures var a := Collapse(u[..i + 1]); a != [] && a[|a| - 1] == ' ' && a <= Collapse(u)
  {
    WhereIsKeyword();
    StandsCollapsed(u, "WHERE", i);
  }

  lemma TrimmedSliceHas(c: string, m: nat, a: string, x: char)
    requires |a| == Margin(c) + m + 1 && a <= c && a[|a| - 1] == ' ' && Visible(x) && m <= |TrimSpace(c)|
    ensures x in TrimSpace(c)[..m] <==> x in a
  {
    TrimCut(c);
    SliceHas(c, Margin(c), m, a, x);
    assert TrimSpace(c)[..m] == c[Margin(c)..Margin(c) + m];
  }

  lemma UpperPrefixHas(s: string, i: nat, x: char)
    requires Mark(x) && i < |s| && Space(s[i])
    ensures x in ToUpper(s)[..i + 1] <==> exists j | 0 <= j < i :: s[j] == x
  {
    var u := ToUpper(s);
    PrefixHas(u, i + 1, x);
    if j :| 0 <= j < i + 1 && u[j] == x {
      assert s[j] == x && j < i;
    }
    if j :| 0 <= j < i && s[j] == x {
      assert u[j] == x;
    }
  }

  lemma SliceHas(c: string, l: nat, m: nat, a: string, x: char)
    requires |a| == l + m + 1 && a <= c && a[l + m] == ' ' && Visible(x) && forall j | 0 <= j < l :: Space(c[j])
    ensures x in c[l..l + m] <==> x in a
  {
    if x in a {
      var j :| 0 <= j < |a| && a[j] == x;
      assert c[j] == x;
      assert c[l..l + m][j - l] == x;
    }
    if x in c[l..l + m] {
      var j :| 0 <= j < m && c[l..l + m][j] == x;
      assert a[l + j] == x;
    }
  }

  /** The part of normalized text that the compiler takes for the FROM target. */
  function Target(n: string): string
  {
    CutAtWhere(n, Index(n, " WHERE "))
  }

  lemma TargetHasComma(s: string)
    ensures ',' in Target(NormalizeSQL(s)) <==> CommaBeforeWhere(s)
  {
    var n := NormalizeSQL(s);
    WhereIsKeyword();
    BlankKeywordIff(s, "WHERE");
    if Contains(n, " WHERE ") {
      var m := Index(n, " WHERE ");
      var i := FirstInner(s, "WHERE");
      CutHas(s, ',', i, m);
      TrimHas(n[..m], ',');
      CommaBefore(s, i);
    } else {
      NormalHas(s, ',');
    }
  }

  lemma CommaBefore(s: string, i: nat)
    requires Inner(s, "WHERE", i) && forall j | Inner(s, "WHERE", j) :: i <= j
    ensures CommaBeforeWhere(s) <==> exists j | 0 <= j < i :: s[j] == ','
  {
  }

  lemma TargetStarts(s: string)
    ensures HasPrefix(Target(NormalizeSQL(s)), "(") <==> StartsWith(s, '(')
  {
    var n, m := NormalizeSQL(s), Index(NormalizeSQL(s), " WHERE ");
    NormalStarts(s, '(');
    NormalizeIsNormal(s);
    if m != -1 {
      IndexFirst(n, " WHERE ");
      AtChars(n, " WHERE ", m, 0);
      assert m > 0 && n[..m][0] == n[0];
      TrimKeepsHead(n[..m]);
      TrimRightCuts(n[..m]);
      assert !Space(n[..m][0]);
    }
  }

  /** The compiler takes the text after FROM for one table unless a comma or a parenthesis says otherwise. */
  lemma SingleTableIff(section: string, rest: string)
    requires TrimSpace(section) == NormalizeSQL(rest)
    ensures SingleTable(section) <==> !NotOneTable(rest)
  {
    TargetHasComma(rest);
    TargetStarts(rest);
    assert "," == [','];
    ContainsMark(Target(NormalizeSQL(rest)), ',');
  }

  // ---- the statement around the target ----

  /** A projection that the compiler can tell from what follows it. */
  predicate PrintableHead(p: string)
  {
    p != [] && Trimmed(p) && !HasBlankKeyword(Collapse(ToUpper(p)), "FROM")
  }

  function Statement(p: string, rest: string): string
  {
    "SELECT " + p + (" FROM " + rest)
  }

  lemma {:induction false} TrimDropsLast(s: string, c: char)
    requires Space(c)
    ensures TrimSpace(s + [c]) == TrimSpace(s)
  {
    if s == [] {
      assert [] + [c] == [c] && [c][1..] == [];
    } else if Space(s[0]) {
      assert (s + [c])[1..] == s[1..] + [c];
      TrimDropsLast(s[1..], c);
    } else {
      assert (s + [c])[..|s|] == s;
    }
  }

  lemma {:induction false} TrimAgain(s: string)
    ensures TrimSpace(TrimRight(s)) == TrimSpace(s)
  {
    if s != [] && Space(s[|s| - 1]) {
      var front := s[..|s| - 1];
      TrimAgain(front);
      TrimDropsLast(front, s[|s| - 1]);
      assert s == front + [s[|s| - 1]];
    }
  }

  lemma BlankCollapse(r: string)
    ensures Collapse(" " + r) != [] && Collapse(" " + r)[0] == ' '
    ensures TrimSpace(Collapse(" " + r)) == TrimSpace(Collapse(r))
  {
    assert (" " + r)[1..] == r;
    CollapseIsNormal(r);
    if r == [] || !RegexSpace(r[0]) {
      assert (" " + Collapse(r))[1..] == Collapse(r);
    }
  }

  lemma UpperStatement(p: string, rest: string)
    ensures ToUpper(Statement(p, rest)) == "SELECT " + ToUpper(p) + (" FROM" + (" " + ToUpper(rest)))
  {
    ToUpperConcat("SELECT " + p, " FROM " + rest);
    ToUpperConcat("SELECT ", p);
    ToUpperConcat(" FROM ", rest);
    UpperIsSame("SELECT ");
    UpperIsSame(" FROM ");
    assert " FROM" + (" " + ToUpper(rest)) == " FROM " + ToUpper(rest);
  }

  lemma CollapseFrom(r: string)
    ensures Collapse(" FROM" + (" " + r)) == " FROM" + Collapse(" " + r)
  {
    CollapseConcat(" FROM", " " + r);
    CollapseOfNormal(" FROM");
  }

  /** The normalized statement: the head, and what trimming leaves of the rest. */
  lemma NormalizedStatement(p: string, rest: string)
    requires p != [] && Trimmed(p)
    ensures NormalizeSQL(Statement(p, rest))
            == "SELECT " + Collapse(ToUpper(p)) + (" FROM" + TrimRight(Collapse(" " + ToUpper(rest))))
  {
    UpperStatement(p, rest);
    UpperKeepsSpace(p);
    CollapseFrom(ToUpper(rest));
    CollapseSelect(ToUpper(p), " FROM" + (" " + ToUpper(rest)));
    TrimAfterFrom(Collapse(ToUpper(p)), Collapse(" " + ToUpper(rest)));
  }

  lemma TrimAfterFrom(c: string, y: string)
    ensures TrimSpace("SELECT " + c + (" FROM" + y)) == "SELECT " + c + (" FROM" + TrimRight(y))
  {
    var head := "SELECT " + c + " FROM";
    assert "SELECT " + c + (" FROM" + y) == head + y;
    assert "SELECT " + c + (" FROM" + TrimRight(y)) == head + TrimRight(y);
    assert head[0] == 'S' && head[|head| - 1] == 'M';
    TrimToken(head, y);
  }

  lemma RestSection(rest: string) returns (section: string)
    requires HasVisible(rest)
    ensures TrimRight(Collapse(" " + ToUpper(rest))) == " " + section && TrimSpace(section) == NormalizeSQL(rest)
  {
    var y := Collapse(" " + ToUpper(rest));
    var z := TrimRight(y);
    BlankCollapse(ToUpper(rest));
    VisibleStays(rest);
    TrimRightCuts(y);
    TrimAgain(y);
    assert z == [] ==> TrimSpace(z) == [];
    section := z[1..];
    assert z == " " + section && (" " + section)[1..] == section;
  }

  lemma VisibleStays(rest: string)
    ensures HasVisible(rest) <==> NormalizeSQL(rest) != []
  {
    var c := Collapse(ToUpper(rest));
    UpperVisible(rest, 0, |rest|);
    CollapseSees(ToUpper(rest));
    TrimCut(c);
    if NormalizeSQL(rest) != [] {
      assert Visible(c[Margin(c)]);
    }
  }

  lemma NothingLeft(rest: string)
    requires !HasVisible(rest)
    ensures TrimRight(Collapse(" " + ToUpper(rest))) == []
  {
    var y := Collapse(" " + ToUpper(rest));
    BlankCollapse(ToUpper(rest));
    VisibleStays(rest);
    TrimAgain(y);
    TrimRightCuts(y);
    TrimRightCuts(TrimLeft(TrimRight(y)));
    TrimLeftCuts(TrimRight(y));
    var z := TrimRight(y);
    if z != [] {
      assert Visible(z[|z| - 1]);
      TrimCut(z);
      assert false;
    }
  }

  lemma NoFromLeft(c: string)
    requires !HasBlankKeyword(c, "FROM")
    ensures Index("SELECT " + c + (" FROM" + []), " FROM ") == -1
  {
    var s, longer := "SELECT " + c + (" FROM" + []), "SELECT " + c + (" FROM " + []);
    FirstFrom(c, []);
    IndexFirst(s, " FROM ");
    IndexFirst(longer, " FROM ");
    var j := Index(s, " FROM ");
    if j != -1 {
      assert longer == s + " ";
      assert longer[j..j + 6] == s[j..j + 6];
      assert At(longer, " FROM ", j);
    }
  }

  // ---- the table ----

  /** `t` is the first run of visible characters. */
  predicate FirstField(s: string, t: string)
  {
    exists a | 0 <= a <= |s| - |t| :: FieldAt(s, t, a)
  }

  predicate FieldAt(s: string, t: string, a: nat)
    requires a + |t| <= |s|
  {
    && t != [] && s[a..a + |t|] == t
    && (forall i | 0 <= i < a :: Space(s[i])) && (forall i | 0 <= i < |t| :: Visible(t[i]))
    && (a + |t| < |s| ==> Space(s[a + |t|]))
  }

  lemma FieldsFirst(s: string)
    requires s != [] && Visible(s[0])
    ensures Fields(s) != [] && FieldAt(s, Fields(s)[0], 0)
  {
    var n := PrefixLength(s, Visible);
    assert Fields(s)[0] == s[..n];
  }

  lemma FieldOfTrim(s: string, t: string)
    requires |t| <= |TrimSpace(s)| && FieldAt(TrimSpace(s), t, 0)
    ensures Margin(s) + |t| <= |s| && FieldAt(s, t, Margin(s))
  {
    TrimCut(s);
    var l, x := Margin(s), TrimSpace(s);
    AtSlice(s, l, x, t, 0);
    assert At(x, t, 0);
    assert |t| < |x| ==> s[l + |t|] == x[|t|];
  }

  lemma FieldOfPrefix(s: string, n: nat, t: string)
    requires n < |s| && Space(s[n]) && |t| <= n && FieldAt(s[..n], t, 0)
    ensures FieldAt(s, t, 0)
  {
    assert s[..n][0..|t|] == s[0..|t|];
    assert |t| < n ==> s[..n][|t|] == s[|t|];
  }

  lemma CutKeepsField(x: string, m: int)
    requires x != [] && Visible(x[0]) && -1 <= m < |x| && (m != -1 ==> m > 0 && Space(x[m]))
    ensures Fields(CutAtWhere(x, m)) != []
    ensures var t := Fields(CutAtWhere(x, m))[0]; |t| <= |x| && FieldAt(x, t, 0)
  {
    if m == -1 {
      FieldsFirst(x);
    } else {
      var y := TrimSpace(x[..m]);
      assert x[..m][0] == x[0];
      TrimKeepsHead(x[..m]);
      TrimRightCuts(x[..m]);
      assert y != [] && y[0] == x[0] by {
        assert !Space(x[..m][0]);
      }
      FieldsFirst(y);
      assert Margin(x[..m]) == 0;
      FieldOfTrim(x[..m], Fields(y)[0]);
      FieldOfPrefix(x, m, Fields(y)[0]);
    }
  }

  /** The table read is the first visible token after FROM. */
  lemma TableIsFirstField(rest: string)
    requires HasVisible(rest)
    ensures TableFields(rest) != [] && FirstField(rest, TableFields(rest)[0])
  {
    TrimCut(rest);
    var x := TrimSpace(rest);
    var m := Index(ToUpper(x), " WHERE ");
    assert x != [] && Visible(x[0]);
    IndexFirst(ToUpper(x), " WHERE ");
    if m != -1 {
      AtChars(ToUpper(x), " WHERE ", m, 0);
      assert UpperChar(x[m]) == ' ' && UpperChar(x[0]) != ' ';
    }
    CutKeepsField(x, m);
    FieldOfTrim(rest, TableFields(rest)[0]);
  }

  // ---- what the parser makes of any target ----

  lemma ParseRejects(sql: string, n: string, from: nat, raw: string)
    requires NormalizeSQL(sql) == n && Index(n, " FROM ") == from && Index(n, "SELECT ") == 0
    requires ProjectionSlice(sql, n, 0, from) == InRange(raw) && Index(sql, " FROM ") != -1
    requires !SingleTable(n[from + 6..])
    ensures ParseSQL(sql) == Failed(SingleTableQuery)
  {
  }

  lemma HeadSides(p: string, rest: string)
    requires PrintableHead(p)
    ensures var sql, c := Statement(p, rest), Collapse(ToUpper(p));
            && Index(sql, " FROM ") == 7 + |p| && 1 <= |c| <= |p| && |sql| == 13 + |p| + |rest|
            && sql[7..7 + |c|] == p[..|c|] && sql[13 + |p|..] == rest
  {
    CollapsedHead(p);
    CollapseKeepsFrom(p);
    FirstFrom(p, rest);
    Layout(p, rest);
    var sql, c := Statement(p, rest), Collapse(ToUpper(p));
    assert sql[7..7 + |p|][..|c|] == sql[7..7 + |c|];
  }

  lemma NormalSides(p: string, rest: string)
    requires PrintableHead(p) && HasVisible(rest)
    ensures var n, c := NormalizeSQL(Statement(p, rest)), Collapse(ToUpper(p));
            && Index(n, " FROM ") == 7 + |c| && Index(n, "SELECT ") == 0 && |n| >= 13 + |c|
            && (SingleTable(n[13 + |c|..]) <==> !NotOneTable(rest))
  {
    var c := Collapse(ToUpper(p));
    var section := RestSection(rest);
    NormalizedStatement(p, rest);
    assert " FROM" + (" " + section) == " FROM " + section;
    FirstFrom(c, section);
    Layout(c, section);
    SelectFirst(c, " FROM " + section);
    SingleTableIff(section, rest);
  }

  lemma SelectIsKeyword()
    ensures Keyword("SELECT") && "SELECT" + " " == "SELECT "
    ensures forall i | 0 <= i < 6 :: Visible("SELECT"[i])
  {
    UpperIsSame("SELECT");
  }

  /**
   * What stands after FROM decides, whatever it is: nothing visible is a missing FROM; a comma before
   * every inner WHERE, or an opening parenthesis in front, is not a single table; anything else is
   * read, and the table is its first token.
   */
  lemma TargetDecides(p: string, rest: string)
    requires PrintableHead(p)
    ensures |Collapse(ToUpper(p))| <= |p|
    ensures var result := ParseSQL(Statement(p, rest));
            if !HasVisible(rest) then result == Failed(NoFromClause)
            else if NotOneTable(rest) then result == Failed(SingleTableQuery)
            else
              && result.Parsed? && FirstField(rest, result.table)
              && result.projection == TrimSpace(p[..|Collapse(ToUpper(p))|])
              && result.whereClause == WhereText(Statement(p, rest))
  {
    var sql, c := Statement(p, rest), Collapse(ToUpper(p));
    HeadSides(p, rest);
    if HasVisible(rest) {
      NormalSides(p, rest);
      ProjectionIs(sql, NormalizeSQL(sql), |c|, p[..|c|]);
      TableIsFirstField(rest);
      if NotOneTable(rest) {
        ParseRejects(sql, NormalizeSQL(sql), 7 + |c|, p[..|c|]);
      } else {
        ParseIs(sql, NormalizeSQL(sql), 7 + |c|, 7 + |p|, p[..|c|], TableFields(rest), WhereText(sql));
      }
    } else {
      NormalizedStatement(p, rest);
      NothingLeft(rest);
      NoFromLeft(c);
    }
  }

  // ---- `SELECT p FROM s [WHERE w]` ----

  lemma StandsInPrefix(s: string, tail: string, k: string, i: int)
    ensures 0 <= i && i + |k| + 2 <= |s| ==> (Stands(s + tail, k, i) <==> Stands(s, k, i))
  {
    assert forall j | 0 <= j < |s| :: (s + tail)[j] == s[j];
  }

  lemma StandingLetter(s: string, k: string, i: int, j: int)
    ensures Stands(s, k, i) && i < j < i + |k| + 1 ==> UpperChar(s[j]) == k[j - i - 1]
  {
    assert Stands(s, k, i) && i < j < i + |k| + 1 ==> UpperChar(s[i + 1 + (j - i - 1)]) == k[j - i - 1];
  }

  /** A WHERE that starts in the target but is not in it ends with the printed blank. */
  lemma StandsInFront(s: string, w: Option<string>, i: int)
    requires Stands(s + WherePart(w), "WHERE", i) && i < |s| && !Stands(s, "WHERE", i)
    ensures i == |s| - 6 && forall j | i <= j < |s| :: s[j] != ','
  {
    var rest := s + WherePart(w);
    StandsInPrefix(s, WherePart(w), "WHERE", i);
    StandingLetter(rest, "WHERE", i, |s|);
    assert rest[|s|] == ' ';
    forall j | i <= j < |s| ensures s[j] != ',' {
      StandingLetter(rest, "WHERE", i, j);
      assert rest[j] == s[j];
    }
  }

  lemma PrintedWhereIsInner(s: string, text: string)
    requires HasVisible(s) && HasVisible(text)
    ensures Inner(s + " WHERE " + text, "WHERE", |s|)
  {
    var rest := s + " WHERE " + text;
    var j :| 0 <= j < |s| && Visible(s[j]);
    assert Visible(rest[j]);
    var k :| 0 <= k < |text| && Visible(text[k]);
    assert Visible(rest[|s| + 7 + k]);
  }

  lemma CommaStaysInFront(s: string, w: Option<string>, j: nat)
    requires j < |s| && s[j] == ',' && forall i :: !Stands(s, "WHERE", i)
    ensures CommaBeforeWhere(s + WherePart(w))
  {
    var rest := s + WherePart(w);
    assert rest[j] == ',';
    forall i | Inner(rest, "WHERE", i) ensures j < i {
      if i < |s| {
        StandsInFront(s, w, i);
      }
    }
  }

  lemma CommaBehind(s: string, text: string, j: nat)
    requires HasVisible(s)
    ensures |s| <= j < |s| + 7 + |text| && (s + (" WHERE " + text))[j] == ','
            ==> Inner(s + (" WHERE " + text), "WHERE", |s|)
  {
    var rest := s + (" WHERE " + text);
    assert rest == s + " WHERE " + text;
    if |s| <= j < |rest| && rest[j] == ',' {
      assert rest[j] == (" WHERE " + text)[j - |s|];
      assert Visible(text[j - |s| - 7]);
      PrintedWhereIsInner(s, text);
    }
  }

  lemma CommaIsInFront(s: string, w: Option<string>, j: nat)
    requires HasVisible(s) && j < |s + WherePart(w)| && (s + WherePart(w))[j] == ','
    requires forall i | Inner(s + WherePart(w), "WHERE", i) :: j < i
    ensures j < |s| && s[j] == ','
  {
    if w.Some? {
      CommaBehind(s, w.value, j);
    }
  }

  lemma CommaInFront(s: string, w: Option<string>)
    requires HasVisible(s) && forall i :: !Stands(s, "WHERE", i)
    ensures CommaBeforeWhere(s + WherePart(w)) <==> ',' in s
  {
    var rest := s + WherePart(w);
    if ',' in s {
      var j :| 0 <= j < |s| && s[j] == ',';
      CommaStaysInFront(s, w, j);
    }
    if CommaBeforeWhere(rest) {
      var j :| 0 <= j < |rest| && rest[j] == ',' && forall i | Inner(rest, "WHERE", i) :: j < i;
      CommaIsInFront(s, w, j);
    }
  }

  lemma ParenInFront(s: string, tail: string)
    requires HasVisible(s)
    ensures StartsWith(s + tail, '(') <==> StartsWith(s, '(')
  {
    var rest := s + tail;
    assert forall j | 0 <= j < |s| :: rest[j] == s[j];
    if StartsWith(rest, '(') {
      var j :| 0 <= j < |rest| && rest[j] == '(' && forall i | 0 <= i < j :: Space(rest[i]);
      var k :| 0 <= k < |s| && Visible(s[k]);
      assert Visible(rest[k]);
      assert s[j] == '(';
    }
    if StartsWith(s, '(') {
      var j :| 0 <= j < |s| && s[j] == '(' && forall i | 0 <= i < j :: Space(s[i]);
      assert rest[j] == '(';
    }
  }

  /** A target text without a WHERE of its own is refused iff it has a comma or starts with a parenthesis. */
  lemma TargetIsRefusedIff(p: string, s: string, w: Option<string>)
    requires PrintableHead(p) && HasVisible(s) && forall i :: !Stands(s, "WHERE", i)
    ensures ParseSQL(Statement(p, s + WherePart(w))) == Failed(SingleTableQuery) <==> ',' in s || StartsWith(s, '(')
    ensures !(',' in s || StartsWith(s, '(')) ==>
              && ParseSQL(Statement(p, s + WherePart(w))).Parsed?
              && FirstField(s, ParseSQL(Statement(p, s + WherePart(w))).table)
  {
    var rest := s + WherePart(w);
    CommaInFront(s, w);
    ParenInFront(s, WherePart(w));
    var k :| 0 <= k < |s| && Visible(s[k]);
    assert Visible(rest[k]);
    TargetDecides(p, rest);
    if !NotOneTable(rest) {
      FieldInFront(s, WherePart(w), ParseSQL(Statement(p, rest)).table);
    }
  }

  lemma FieldIsVisible(s: string, t: string, a: nat)
    requires a + |t| <= |s| && FieldAt(s, t, a)
    ensures forall j | a <= j < a + |t| :: Visible(s[j])
  {
    forall j | a <= j < a + |t| ensures Visible(s[j]) {
      assert s[j] == s[a..a + |t|][j - a];
    }
  }

  lemma FieldInFront(s: string, tail: string, t: string)
    requires HasVisible(s) && FirstField(s + tail, t) && (tail != [] ==> Space(tail[0]))
    ensures FirstField(s, t)
  {
    var rest := s + tail;
    var a :| 0 <= a <= |rest| - |t| && FieldAt(rest, t, a);
    var k :| 0 <= k < |s| && Visible(s[k]);
    assert rest[k] == s[k] && a <= k;
    assert forall j | 0 <= j < |s| :: rest[j] == s[j];
    FieldIsVisible(rest, t, a);
    assert tail != [] ==> rest[|s|] == tail[0];
    assert s[a..a + |t|] == rest[a..a + |t|];
    assert FieldAt(s, t, a);
  }

  /** The compiler answers such a target with the single-table error, unless validation objects first. */
  lemma CompileRefusesTarget(
    catalog: map<string, seq<Column>>, p: string, s: string, w: Option<string>, hint: Option<string>, mode: Mode,
    batchSize: int)
    requires PrintableHead(p) && HasVisible(s) && (forall i :: !Stands(s, "WHERE", i))
    requires ',' in s || StartsWith(s, '(')
    ensures var sql := Statement(p, s + WherePart(w));
            Compile(catalog, sql, hint, mode, batchSize)
            == BadSQL(if ValidateSQL(sql).Rejected? then ValidateSQL(sql).error else SingleTableQuery)
  {
    TargetIsRefusedIff(p, s, w);
  }

  // ---- any SQL at all ----

  lemma SectionOfNormal(n: string, f: nat)
    requires Normal(n) && f <= |n|
    ensures TrimSpace(n[f..]) == NormalizeSQL(n[f..])
  {
    SubNormal(n, n[f..], f);
    CollapseOfNormal(n[f..]);
  }

  lemma NoFields(rest: string)
    ensures TableFields(rest) == [] <==> !HasVisible(rest)
  {
    if HasVisible(rest) {
      TableIsFirstField(rest);
    } else {
      TrimCut(rest);
    }
  }

  /** SELECT and FROM are found in normalized text, in an order that can be cut. */
  predicate Cuttable(n: string)
  {
    Contains(n, " FROM ") && Contains(n, "SELECT ") && Index(n, "SELECT ") + 7 <= Index(n, " FROM ")
  }

  /**
   * Every error has its own reason: no inner FROM; no SELECT before visible text, no literal " FROM " or
   * nothing visible after it; or a target that is not one table.
   */
  lemma ParseErrorsIff(sql: string)
    ensures var n := NormalizeSQL(sql);
            var literal := Contains(sql, " FROM ");
            && (ParseSQL(sql) == Failed(NoFromClause) <==> !exists i :: Inner(sql, "FROM", i))
            && (ParseSQL(sql) == Failed(SingleTableQuery)
                <==> Cuttable(n) && literal && NotOneTable(n[Index(n, " FROM ") + 6..]))
            && (ParseSQL(sql) == Failed(InvalidSQL)
                <==> || ((exists i :: Inner(sql, "FROM", i)) && !exists i :: Leads(sql, "SELECT", i))
                     || (Cuttable(n) && !literal)
                     || (Cuttable(n) && literal && !NotOneTable(n[Index(n, " FROM ") + 6..])
                         && !HasVisible(sql[Index(sql, " FROM ") + 6..])))
  {
    FromAndSelect(sql);
    TargetOfNormal(sql);
    LiteralRest(sql);
    ParseByCases(sql);
  }

  lemma FromAndSelect(sql: string)
    ensures Contains(NormalizeSQL(sql), " FROM ") <==> exists i :: Inner(sql, "FROM", i)
    ensures Contains(NormalizeSQL(sql), "SELECT ") <==> exists i :: Leads(sql, "SELECT", i)
  {
    FromIsKeyword();
    BlankKeywordIff(sql, "FROM");
    SelectIsKeyword();
    LeadingKeywordIff(sql, "SELECT");
  }

  lemma TargetOf(n: string, f: nat)
    requires Normal(n) && f <= |n|
    ensures SingleTable(n[f..]) <==> !NotOneTable(n[f..])
  {
    SectionOfNormal(n, f);
    SingleTableIff(n[f..], n[f..]);
  }

  lemma TargetOfNormal(sql: string)
    ensures var n := NormalizeSQL(sql);
            Contains(n, " FROM ") ==>
              (SingleTable(n[Index(n, " FROM ") + 6..]) <==> !NotOneTable(n[Index(n, " FROM ") + 6..]))
  {
    NormalizeIsNormal(sql);
    if Contains(NormalizeSQL(sql), " FROM ") {
      TargetOf(NormalizeSQL(sql), Index(NormalizeSQL(sql), " FROM ") + 6);
    }
  }

  lemma LiteralRest(sql: string)
    ensures Contains(sql, " FROM ") ==>
              var rest := sql[Index(sql, " FROM ") + 6..];
              && (TableFields(rest) == [] <==> !HasVisible(rest))
              && (TableFields(rest) != [] ==> FirstField(rest, TableFields(rest)[0]))
  {
    if Contains(sql, " FROM ") {
      var rest := sql[Index(sql, " FROM ") + 6..];
      NoFields(rest);
      if HasVisible(rest) {
        TableIsFirstField(rest);
      }
    }
  }

  lemma ParseByCases(sql: string)
    ensures var n := NormalizeSQL(sql);
            var literal := Contains(sql, " FROM ");
            && (Contains(n, " FROM ") && !Contains(n, "SELECT ") ==> ParseSQL(sql) == Failed(InvalidSQL))
            && (Contains(n, " FROM ") && Contains(n, "SELECT ") && !Cuttable(n) ==> ParseSQL(sql).Panicked?)
            && (Cuttable(n) && !literal ==> ParseSQL(sql) == Failed(InvalidSQL))
            && (Cuttable(n) && literal ==>
                  var one := SingleTable(n[Index(n, " FROM ") + 6..]);
                  var fields := TableFields(sql[Index(sql, " FROM ") + 6..]);
                  if !one then ParseSQL(sql) == Failed(SingleTableQuery)
                  else if fields == [] then ParseSQL(sql) == Failed(InvalidSQL)
                  else ParseSQL(sql).Parsed?)
  {
    NormalLength(sql);
  }

  /** The table of a parsed statement is the first token after the literal " FROM ". */
  lemma ParsedTable(sql: string)
    requires ParseSQL(sql).Parsed?
    ensures Contains(sql, " FROM ") && FirstField(sql[Index(sql, " FROM ") + 6..], ParseSQL(sql).table)
    ensures ParseSQL(sql).whereClause == WhereText(sql)
  {
    LiteralRest(sql);
    ParsedSlices(sql, NormalizeSQL(sql), Index(NormalizeSQL(sql), "SELECT "), Index(NormalizeSQL(sql), " FROM "));
  }

  lemma NormalLength(sql: string)
    ensures |NormalizeSQL(sql)| <= |sql|
  {
    NormalizeIsNormal(sql);
  }

  /** Its projection is cut from the original between the places that SELECT and FROM have in normalized text. */
  lemma ParsedProjection(sql: string, n: string, select: int, from: int)
    requires n == NormalizeSQL(sql) && select == Index(n, "SELECT ") && from == Index(n, " FROM ")
    requires ParseSQL(sql).Parsed?
    ensures 0 <= select && select + 7 <= from <= |sql|
    ensures ParseSQL(sql).projection == TrimSpace(sql[select + 7..from])
  {
    NormalLength(sql);
    ParsedSlices(sql, n, select, from);
    ProjectionCut(sql, n, select, from);
  }

  /** What an answer without an error says of the parser's steps. */
  lemma ParsedSlices(sql: string, n: string, select: int, from: int)
    requires n == NormalizeSQL(sql) && select == Index(n, "SELECT ") && from == Index(n, " FROM ")
    requires ParseSQL(sql).Parsed?
    ensures select != -1 && from != -1 && ProjectionSlice(sql, n, select, from).InRange?
    ensures Index(sql, " FROM ") != -1 && TableFields(sql[Index(sql, " FROM ") + 6..]) != []
    ensures ParseSQL(sql)
            == Parsed(TableFields(sql[Index(sql, " FROM ") + 6..])[0],
                      TrimSpace(ProjectionSlice(sql, n, select, from).text), WhereText(sql))
  {
  }

  lemma ProjectionCut(sql: string, n: string, select: int, from: int)
    requires 0 <= select && 0 <= from <= |n| <= |sql| && ProjectionSlice(sql, n, select, from).InRange?
    ensures select + 7 <= from && ProjectionSlice(sql, n, select, from) == InRange(sql[select + 7..from])
  {
  }
}
