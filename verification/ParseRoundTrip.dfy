/** Parsing a printed `SELECT p FROM t [WHERE w]` gives the clauses back. */
module ParseRoundTrip {
  import opened Text
  import opened SqlText
  import opened StreamPlan
  import opened Rows

  function WherePart(w: Option<string>): string
  {
    match w
    case None => ""
    case Some(text) => " WHERE " + text
  }

  function Print(p: string, t: string, w: Option<string>): string
  {
    "SELECT " + p + (" FROM " + (t + WherePart(w)))
  }

  function ClauseText(w: Option<string>): string
  {
    match w
    case None => ""
    case Some(text) => TrimSpace(text)
  }

  /** A table name as the compiler can read it: one visible token, no comma, not a parenthesis. */
  predicate TableToken(t: string)
  {
    t != [] && (forall c | c in t :: Visible(c) && c != ',') && t[0] != '('
  }

  /** The keyword stands between blanks somewhere in `text`. */
  predicate HasBlankKeyword(text: string, keyword: string)
  {
    Contains(" " + text + " ", " " + keyword + " ")
  }

  predicate Printable(p: string, t: string, w: Option<string>)
  {
    && p != [] && Trimmed(p) && TableToken(t)
    && !HasBlankKeyword(Collapse(ToUpper(p)), "FROM")
    && !HasBlankKeyword(ToUpper(p), "WHERE")
    && (w.Some? ==> ToUpper(t) != "WHERE")
  }

  // ---- where the keywords are found ----

  lemma AtInner(s: string, outer: string, lo: nat, sub: string, k: nat)
    requires lo + |outer| <= |s| && s[lo..lo + |outer|] == outer && k + |sub| <= |outer|
    ensures At(s, sub, lo + k) ==> At(outer, sub, k)
  {
    var a, b := outer[k..k + |sub|], s[lo + k..lo + k + |sub|];
    forall d | 0 <= d < |sub| ensures a[d] == b[d] {
      assert s[lo..lo + |outer|][k + d] == s[lo + k + d];
    }
    assert a == b;
  }

  /** The printed statement, cut into the pieces the searches run over. */
  lemma Layout(m: string, rest: string)
    ensures var s := "SELECT " + m + (" FROM " + rest);
            && |s| == 13 + |m| + |rest|
            && s[6..8 + |m|] == " " + m + " "
            && s[7..7 + |m|] == m
            && s[7 + |m|..13 + |m|] == " FROM "
            && s[13 + |m|..] == rest
            && (forall j | 0 <= j < 6 :: s[j] != ' ')
            && s[7 + |m|] == ' ' && s[8 + |m|] == 'F' && s[9 + |m|] == 'R' && s[10 + |m|] == 'O' && s[11 + |m|] == 'M'
                && s[12 + |m|] == ' '
  {
    var s := "SELECT " + m + (" FROM " + rest);
    assert forall j | 0 <= j < 7 :: s[j] == "SELECT "[j];
  }

  lemma FirstFrom(m: string, rest: string)
    requires !HasBlankKeyword(m, "FROM")
    ensures Index("SELECT " + m + (" FROM " + rest), " FROM ") == 7 + |m|
  {
    var s, from := "SELECT " + m + (" FROM " + rest), " FROM ";
    Layout(m, rest);
    forall j | 0 <= j < 7 + |m| ensures !At(s, from, j) {
      if j < 6 {
        AtChars(s, from, j, 0);
      } else if j + 6 <= 8 + |m| {
        AtInner(s, " " + m + " ", 6, from, j - 6);
        NoBlankKeyword(m, "FROM", from, j - 6);
      } else {
        AtChars(s, from, j, 7 + |m| - j);
      }
    }
    IndexIs(s, from, 7 + |m|);
  }

  lemma NoBlankKeyword(m: string, keyword: string, sub: string, j: int)
    requires !HasBlankKeyword(m, keyword) && sub == " " + keyword + " "
    ensures !At(" " + m + " ", sub, j)
  {
    IndexFirst(" " + m + " ", sub);
  }

  /** Before the end of the table name there is no blank-separated WHERE. */
  lemma NoWhereBefore(m: string, t: string, tail: string, j: nat)
    requires TableToken(t) && !HasBlankKeyword(m, "WHERE")
    requires tail != [] ==> RegexSpace(tail[0]) && t != "WHERE"
    requires j < 13 + |m| + |t|
    ensures !At("SELECT " + m + (" FROM " + (t + tail)), " WHERE ", j)
  {
    var s, sub, f := "SELECT " + m + (" FROM " + (t + tail)), " WHERE ", 7 + |m|;
    Layout(m, t + tail);
    if 6 <= j && j + 7 <= 8 + |m| {
      AtInner(s, " " + m + " ", 6, sub, j - 6);
      NoBlankKeyword(m, "WHERE", sub, j - 6);
    } else if 6 <= j < f {
      AtChars(s, sub, j, f - j);
    } else if j == f {
      AtChars(s, sub, j, 1);
    } else if j == f + 5 {
      NotTableWhere(s, t, tail, j);
    } else {
      AtChars(s, sub, j, 0);
      assert j >= f + 6 ==> s[j] == s[f + 6..][j - f - 6] == t[j - f - 6] && t[j - f - 6] in t;
    }
  }

  lemma NotTableWhere(s: string, t: string, tail: string, j: nat)
    requires TableToken(t) && j + 1 + |t| + |tail| == |s| && s[j + 1..] == t + tail
    requires tail != [] ==> RegexSpace(tail[0]) && t != "WHERE"
    ensures !At(s, " WHERE ", j)
  {
    var sub := " WHERE ";
    forall i | 0 <= i < |t| ensures s[j + 1 + i] == t[i] && Visible(t[i]) {
      assert s[j + 1..][i] == (t + tail)[i] && t[i] in t;
    }
    if |t| > 5 {
      AtChars(s, sub, j, 6);
      assert s[j + 6] == t[5] && s[j + 6] != ' ';
    } else if |t| < 5 {
      AtChars(s, sub, j, |t| + 1);
      assert tail != [] ==> s[j + 1..][|t|] == tail[0] && RegexSpace(tail[0]);
    } else {
      assert tail == [] ==> |s| < j + 7;
      AtChars(s, sub, j, 1);
      AtChars(s, sub, j, 2);
      AtChars(s, sub, j, 3);
      AtChars(s, sub, j, 4);
      AtChars(s, sub, j, 5);
      assert t[0] == 'W' && t[1] == 'H' && t[2] == 'E' && t[3] == 'R' && t[4] == 'E' ==> t == "WHERE";
    }
  }

  /** In `token WHERE k`, the keyword is found right after the token, or not at all when nothing follows it. */
  lemma WhereAfterToken(u: string, k: string)
    requires u != [] && (forall c | c in u :: Visible(c)) && (k != [] ==> k[0] == ' ')
    ensures Index(u + (" WHERE" + k), " WHERE ") == if k == [] then -1 else |u|
  {
    var s := u + (" WHERE" + k);
    forall j | 0 <= j < |u| ensures !At(s, " WHERE ", j) {
      assert s[j] == u[j] && u[j] in u;
      AtChars(s, " WHERE ", j, 0);
    }
    if k == [] {
      IndexFirst(s, " WHERE ");
    } else {
      assert s[|u|..|u| + 7] == " WHERE ";
      IndexIs(s, " WHERE ", |u|);
    }
  }

  lemma NoBlankInToken(u: string, sub: string)
    requires (forall c | c in u :: Visible(c)) && sub != [] && sub[0] == ' '
    ensures Index(u, sub) == -1
  {
    forall j ensures !At(u, sub, j) {
      AtChars(u, sub, j, 0);
      assert 0 <= j < |u| ==> u[j] in u;
    }
    IndexFirst(u, sub);
  }

  // ---- the pieces after normalization ----

  lemma UpperKeepsSpace(s: string)
    ensures forall i | 0 <= i < |s| :: Space(ToUpper(s)[i]) <==> Space(s[i])
    ensures forall i | 0 <= i < |s| :: RegexSpace(ToUpper(s)[i]) <==> RegexSpace(s[i])
  {
  }

  /** What trimming leaves of ` WHERE w` after a table name: the keyword, then nothing or a blank and more. */
  lemma TrimmedTail(tail: string)
    requires tail != [] && tail[0] == ' '
    ensures TrimRight(" WHERE" + tail) == " WHERE" + TrimRight(tail)
    ensures TrimRight(tail) != [] ==> TrimRight(tail)[0] == ' '
  {
    TrimRightConcat(" WHERE", tail);
    TrimRightCuts(tail);
  }

  lemma CollapsedHead(p: string)
    requires p != [] && Trimmed(p)
    ensures var c := Collapse(ToUpper(p));
            c != [] && !RegexSpace(c[0]) && |c| <= |p|
  {
    UpperKeepsSpace(p);
    CollapseIsNormal(ToUpper(p));
  }

  lemma CollapsePrinted(p: string, t: string, tail: string)
    requires p != [] && Trimmed(p) && TableToken(t) && (tail != [] ==> tail[0] == ' ')
    ensures Collapse(ToUpper("SELECT " + p + (" FROM " + (t + tail))))
            == "SELECT " + Collapse(ToUpper(p)) + (" FROM " + (ToUpper(t) + Collapse(ToUpper(tail))))
  {
    UpperPrinted(p, t, tail);
    UpperKeepsSpace(p);
    UpperToken(t);
    CollapseRest(ToUpper(t), ToUpper(tail));
    CollapseSelect(ToUpper(p), " FROM " + (ToUpper(t) + ToUpper(tail)));
  }

  lemma CollapseSelect(u: string, rest: string)
    requires u != [] && !RegexSpace(u[0]) && !RegexSpace(u[|u| - 1])
    ensures Collapse("SELECT " + u + rest) == "SELECT " + Collapse(u) + Collapse(rest)
  {
    var head := "SELECT " + u;
    assert head[|head| - 1] == u[|u| - 1];
    CollapseConcat(head, rest);
    CollapseSelectHead(u);
  }

  lemma CollapseSelectHead(u: string)
    requires u != [] && !RegexSpace(u[0])
    ensures Collapse("SELECT " + u) == "SELECT " + Collapse(u)
  {
    CollapseSelectWord();
    CollapseConcat("SELECT ", u);
  }

  lemma CollapseSelectWord()
    ensures Collapse("SELECT ") == "SELECT "
  {
    CollapseOfNormal("SELECT ");
  }

  lemma UpperToken(t: string)
    requires TableToken(t)
    ensures forall i | 0 <= i < |t| :: Visible(ToUpper(t)[i])
  {
    UpperKeepsSpace(t);
    forall i | 0 <= i < |t| ensures Visible(ToUpper(t)[i]) {
      assert t[i] in t;
    }
  }

  lemma CollapseToken(ut: string, ul: string)
    requires ut != [] && forall i | 0 <= i < |ut| :: Visible(ut[i])
    ensures Collapse(ut + ul) == ut + Collapse(ul)
  {
    CollapseConcat(ut, ul);
    TokenCollapse(ut);
  }

  lemma CollapseRest(ut: string, ul: string)
    requires ut != [] && forall i | 0 <= i < |ut| :: Visible(ut[i])
    ensures Collapse(" FROM " + (ut + ul)) == " FROM " + (ut + Collapse(ul))
  {
    CollapseToken(ut, ul);
    CollapseConcat(" FROM ", ut + ul);
    CollapseOfNormal(" FROM ");
  }

  lemma UpperPrinted(p: string, t: string, tail: string)
    ensures ToUpper("SELECT " + p + (" FROM " + (t + tail)))
            == "SELECT " + ToUpper(p) + (" FROM " + (ToUpper(t) + ToUpper(tail)))
  {
    ToUpperConcat("SELECT " + p, " FROM " + (t + tail));
    ToUpperConcat("SELECT ", p);
    ToUpperConcat(" FROM ", t + tail);
    ToUpperConcat(t, tail);
    UpperIsSame("SELECT ");
    UpperIsSame(" FROM ");
  }

  lemma TokenCollapse(t: string)
    requires forall i | 0 <= i < |t| :: Visible(t[i])
    ensures Collapse(t) == t
  {
    CollapseOfNormal(t);
  }

  /** The normalized statement: collapsed projection, upper-case table, and a trimmed tail. */
  lemma NormalizePrinted(p: string, t: string, tail: string)
    requires p != [] && Trimmed(p) && TableToken(t) && (tail != [] ==> tail[0] == ' ')
    ensures NormalizeSQL("SELECT " + p + (" FROM " + (t + tail)))
            == "SELECT " + Collapse(ToUpper(p)) + (" FROM " + (ToUpper(t) + TrimRight(Collapse(ToUpper(tail)))))
  {
    CollapsePrinted(p, t, tail);
    UpperKeepsSpace(t);
    assert t[|t| - 1] in t;
    TrimPrinted(Collapse(ToUpper(p)), ToUpper(t), Collapse(ToUpper(tail)));
  }

  lemma TrimPrinted(m: string, u: string, c: string)
    requires u != [] && Visible(u[|u| - 1])
    ensures TrimSpace("SELECT " + m + (" FROM " + (u + c))) == "SELECT " + m + (" FROM " + (u + TrimRight(c)))
  {
    var head := "SELECT " + m + (" FROM " + u);
    TailRegroups(m, u, c);
    TailRegroups(m, u, TrimRight(c));
    assert head[0] == 'S' && head[|head| - 1] == u[|u| - 1];
    TrimToken(head, c);
  }

  lemma TailRegroups(m: string, u: string, c: string)
    ensures "SELECT " + m + (" FROM " + (u + c)) == ("SELECT " + m + (" FROM " + u)) + c
  {
  }

  lemma TrimToken(x: string, tail: string)
    requires x != [] && Visible(x[0]) && Visible(x[|x| - 1])
    ensures TrimSpace(x + tail) == x + TrimRight(tail)
  {
    TrimKeepsHead(x + tail);
    TrimRightConcat(x, tail);
  }

  lemma {:induction false} TrimRightTwice(s: string)
    ensures TrimRight(TrimRight(s)) == TrimRight(s)
  {
    if s != [] && Space(s[|s| - 1]) {
      TrimRightTwice(s[..|s| - 1]);
    }
  }

  /** Cutting `token WHERE k` leaves the token, or token and keyword when nothing follows. */
  lemma CutToken(x: string, upper: string, k: string)
    requires x != [] && (forall c | c in x :: Visible(c)) && upper == ToUpper(x + (" WHERE" + k))
    requires k != [] ==> k[0] == ' '
    ensures CutAtWhere(x + (" WHERE" + k), Index(upper, " WHERE ")) == if k == [] then x + " WHERE" else x
  {
    ToUpperConcat(x, " WHERE" + k);
    ToUpperConcat(" WHERE", k);
    UpperIsSame(" WHERE");
    UpperKeepsSpace(x);
    forall c | c in ToUpper(x) ensures Visible(c) {
      var i :| 0 <= i < |x| && ToUpper(x)[i] == c;
      assert x[i] in x;
    }
    WhereAfterToken(ToUpper(x), ToUpper(k));
    assert x[0] in x && x[|x| - 1] in x;
    TrimOfTrimmed(x);
    assert (x + (" WHERE" + k))[..|x|] == x;
    assert k == [] ==> x + (" WHERE" + k) == x + " WHERE";
  }

  lemma FieldsHead(t: string, rest: string)
    requires t != [] && (forall c | c in t :: Visible(c)) && (rest != [] ==> Space(rest[0]))
    ensures Fields(t + rest) != [] && Fields(t + rest)[0] == t
  {
    forall i | 0 <= i < |t| ensures Visible((t + rest)[i]) {
      assert t[i] in t;
    }
    assert PrefixLength(t + rest, Visible) == |t| by { PrefixLengthIs(t + rest, Visible, |t|); }
    assert (t + rest)[..|t|] == t;
  }

  lemma UpperTokenChars(t: string)
    requires TableToken(t)
    ensures forall c | c in ToUpper(t) :: Visible(c)
  {
    UpperToken(t);
    forall c | c in ToUpper(t) ensures Visible(c) {
      var i :| 0 <= i < |t| && ToUpper(t)[i] == c;
    }
  }

  lemma PlainTarget(u: string)
    requires u != [] && (forall c | c in u :: Visible(c)) && u[0] != '(' && forall i | 0 <= i < |u| :: u[i] != ','
    ensures SingleTable(u)
  {
    assert u[0] in u && u[|u| - 1] in u;
    TrimOfTrimmed(u);
    NoBlankInToken(u, " WHERE ");
    NoCommaIn(u);
  }

  lemma FilteredTarget(u: string, k: string)
    requires u != [] && (forall c | c in u :: Visible(c)) && u[0] != '(' && forall i | 0 <= i < |u| :: u[i] != ','
    requires ToUpper(u) == u && ToUpper(k) == k && (k != [] ==> k[0] == ' ')
    requires TrimSpace(u + (" WHERE" + k)) == u + (" WHERE" + k)
    ensures SingleTable(u + (" WHERE" + k))
  {
    UpperSection(u, k);
    CutToken(u, u + (" WHERE" + k), k);
    NoCommaIn(u);
    NoCommaIn(u + " WHERE");
  }

  /** The single-table check looks at the table name alone. */
  lemma TargetAccepted(t: string, w: Option<string>)
    requires TableToken(t)
    ensures SingleTable(ToUpper(t) + TrimRight(Collapse(ToUpper(WherePart(w)))))
  {
    var u := ToUpper(t);
    UpperTokenChars(t);
    UpperHasNoComma(t);
    ToUpperIdempotent(t);
    match w
    case None =>
      assert u + [] == u;
      PlainTarget(u);
    case Some(text) =>
      var r, k := TrimRight(Collapse(ToUpper(WherePart(w)))), TrimRight(Collapse(" " + ToUpper(text)));
      WhereTail(text);
      UpperTail(text);
      TrimToken(u, r);
      TrimRightTwice(Collapse(ToUpper(WherePart(w))));
      FilteredTarget(u, k);
  }

  lemma WhereTail(text: string)
    ensures var k := TrimRight(Collapse(" " + ToUpper(text)));
            TrimRight(Collapse(ToUpper(" WHERE " + text))) == " WHERE" + k && (k != [] ==> k[0] == ' ')
  {
    var u := ToUpper(text);
    ToUpperConcat(" WHERE ", text);
    UpperIsSame(" WHERE ");
    assert " WHERE " + u == " WHERE" + (" " + u);
    CollapseConcat(" WHERE", " " + u);
    CollapseOfNormal(" WHERE");
    CollapseIsNormal(" " + u);
    TrimmedTail(Collapse(" " + u));
  }

  /** An upper-case section is its own upper case. */
  lemma UpperSection(u: string, k: string)
    requires ToUpper(u) == u && ToUpper(k) == k
    ensures ToUpper(u + (" WHERE" + k)) == u + (" WHERE" + k)
  {
    ToUpperConcat(u, " WHERE" + k);
    ToUpperConcat(" WHERE", k);
    UpperIsSame(" WHERE");
  }

  lemma UpperTail(text: string)
    ensures var k := TrimRight(Collapse(" " + ToUpper(text))); ToUpper(k) == k
  {
    ToUpperConcat(" ", text);
    UpperIsSame(" ");
    ToUpperIdempotent(" " + text);
    CollapseIsNormal(" " + ToUpper(text));
    var c := Collapse(" " + ToUpper(text));
    TrimRightCuts(c);
    SubNormal(c, TrimRight(c), 0);
  }

  lemma UpperHasNoComma(t: string)
    requires TableToken(t)
    ensures ToUpper(t) != [] && ToUpper(t)[0] != '(' && forall i | 0 <= i < |t| :: ToUpper(t)[i] != ','
  {
    forall i | 0 <= i < |t| ensures ToUpper(t)[i] != ',' {
      assert t[i] in t;
    }
  }

  lemma NoCommaIn(s: string)
    requires s != [] && s[0] != '(' && forall i | 0 <= i < |s| :: s[i] != ','
    ensures !Contains(s, ",") && !HasPrefix(s, "(")
  {
    forall j ensures !At(s, ",", j) {
      AtChars(s, ",", j, 0);
    }
    IndexFirst(s, ",");
    assert "("[0] == '(';
  }

  lemma PlainTableField(t: string)
    requires TableToken(t)
    ensures var fields := TableFields(t); fields != [] && fields[0] == t
  {
    assert t[0] in t && t[|t| - 1] in t;
    TrimOfTrimmed(t);
    UpperTokenChars(t);
    NoBlankInToken(ToUpper(t), " WHERE ");
    FieldsHead(t, "");
    assert t + "" == t;
  }

  lemma FilteredTableField(t: string, tail: string)
    requires TableToken(t) && tail != [] && tail[0] == ' '
    ensures var fields := TableFields(t + (" WHERE" + tail)); fields != [] && fields[0] == t
  {
    var k := TrimRight(tail);
    assert t[0] in t && t[|t| - 1] in t;
    TrimToken(t, " WHERE" + tail);
    TrimmedTail(tail);
    CutToken(t, ToUpper(t + (" WHERE" + k)), k);
    FieldsHead(t, "");
    FieldsHead(t, " WHERE");
    assert t + "" == t;
  }

  /** The table name is read back in its original case. */
  lemma TableReadBack(t: string, w: Option<string>)
    requires TableToken(t)
    ensures var fields := TableFields(t + WherePart(w)); fields != [] && fields[0] == t
  {
    match w
    case None =>
      assert t + WherePart(w) == t;
      PlainTableField(t);
    case Some(text) =>
      assert " WHERE " + text == " WHERE" + (" " + text);
      FilteredTableField(t, " " + text);
  }

  /** The upper-case statement, and where its first blank-separated WHERE can be. */
  lemma UpperStatement(p: string, t: string, w: Option<string>)
    requires Printable(p, t, w)
    ensures var u, tail := ToUpper(Print(p, t, w)), ToUpper(WherePart(w));
            && |u| == 13 + |p| + |t| + |tail|
            && u[13 + |p| + |t|..] == tail
            && forall j | 0 <= j < 13 + |p| + |t| :: !At(u, " WHERE ", j)
  {
    var up, ut, ul := ToUpper(p), ToUpper(t), ToUpper(WherePart(w));
    UpperPrinted(p, t, WherePart(w));
    UpperTableToken(t);
    Layout(up, ut + ul);
    var u := "SELECT " + up + (" FROM " + (ut + ul));
    DropToTail(u, 13 + |p|, ut, ul);
    forall j | 0 <= j < 13 + |p| + |t| ensures !At(u, " WHERE ", j) {
      NoWhereBefore(up, ut, ul, j);
    }
  }

  lemma DropToTail(u: string, at: nat, head: string, tail: string)
    requires at <= |u| && u[at..] == head + tail
    ensures at + |head| + |tail| == |u| && u[at + |head|..] == tail
  {
    assert u[at + |head|..] == u[at..][|head|..];
  }

  lemma FirstAtTail(u: string, sub: string, at: nat, tail: string)
    requires at <= |u| && u[at..] == tail && sub != []
    requires forall j | 0 <= j < at :: !At(u, sub, j)
    requires tail == [] || HasPrefix(tail, sub)
    ensures Index(u, sub) == if tail == [] then -1 else at
  {
    if tail == [] {
      IndexFirst(u, sub);
    } else {
      assert u[at..at + |sub|] == tail[..|sub|];
      IndexIs(u, sub, at);
    }
  }

  lemma WhereIndex(p: string, t: string, w: Option<string>)
    requires Printable(p, t, w)
    ensures Index(ToUpper(Print(p, t, w)), " WHERE ") == if w.None? then -1 else 13 + |p| + |t|
  {
    UpperStatement(p, t, w);
    UpperWhere(w);
    FirstAtTail(ToUpper(Print(p, t, w)), " WHERE ", 13 + |p| + |t|, ToUpper(WherePart(w)));
  }

  lemma UpperWhere(w: Option<string>)
    ensures if w.None? then ToUpper(WherePart(w)) == [] else HasPrefix(ToUpper(WherePart(w)), " WHERE ")
  {
    if w.Some? {
      ToUpperConcat(" WHERE ", w.value);
      UpperIsSame(" WHERE ");
    }
  }

  lemma PrintTail(p: string, t: string, text: string)
    ensures var sql := Print(p, t, Some(text)); |sql| >= 20 + |p| + |t| && sql[20 + |p| + |t|..] == text
  {
    var sql := Print(p, t, Some(text));
    Layout(p, t + (" WHERE " + text));
    assert sql[13 + |p|..][|t| + 7..] == sql[20 + |p| + |t|..];
  }

  lemma WhereTextAt(sql: string, at: nat, text: string)
    requires Index(ToUpper(sql), " WHERE ") == at && at + 7 <= |sql| && sql[at + 7..] == text
    ensures WhereText(sql) == TrimSpace(text)
  {
  }

  /** The WHERE text is found right after the table name. */
  lemma WhereReadBack(p: string, t: string, w: Option<string>)
    requires Printable(p, t, w)
    ensures WhereText(Print(p, t, w)) == ClauseText(w)
  {
    WhereIndex(p, t, w);
    match w
    case None =>
    case Some(text) =>
      PrintTail(p, t, text);
      WhereTextAt(Print(p, t, w), 13 + |p| + |t|, text);
  }

  lemma UpperTableToken(t: string)
    requires TableToken(t)
    ensures TableToken(ToUpper(t))
  {
    UpperToken(t);
    UpperHasNoComma(t);
    forall c | c in ToUpper(t) ensures Visible(c) && c != ',' {
      var i :| 0 <= i < |t| && ToUpper(t)[i] == c;
    }
  }

  lemma CollapseAround(a: string, b: string)
    ensures Contains(Collapse(a + " FROM " + b), " FROM ")
  {
    var x, y := Collapse(a + " "), Collapse(" " + b);
    CollapsePieces(a, b);
    CollapseEndsBlank(a);
    CollapseIsNormal(" " + b);
    BlankFrom(x, y);
  }

  lemma CollapsePieces(a: string, b: string)
    ensures Collapse(a + " FROM " + b) == Collapse(a + " ") + ("FROM" + Collapse(" " + b))
  {
    assert a + " FROM " + b == (a + " ") + ("FROM" + (" " + b));
    CollapseConcat(a + " ", "FROM" + (" " + b));
    CollapseConcat("FROM", " " + b);
    CollapseOfNormal("FROM");
  }

  lemma BlankFrom(x: string, y: string)
    requires x != [] && x[|x| - 1] == ' ' && y != [] && y[0] == ' '
    ensures Contains(x + ("FROM" + y), " FROM ")
  {
    var s := x + ("FROM" + y);
    assert s[|x| - 1..|x| + 5] == " FROM ";
    assert At(s, " FROM ", |x| - 1);
    IndexFirst(s, " FROM ");
  }

  lemma {:induction false} CollapseEndsBlank(a: string)
    ensures var c := Collapse(a + " "); c != [] && c[|c| - 1] == ' '
  {
    if a != [] {
      assert (a + " ")[1..] == a[1..] + " ";
      CollapseEndsBlank(a[1..]);
    }
  }

  lemma PaddedCollapse(u: string)
    requires u != [] && !RegexSpace(u[0]) && !RegexSpace(u[|u| - 1])
    ensures Collapse(" " + u + " ") == " " + Collapse(u) + " "
  {
    CollapseConcat(" " + u, " ");
    CollapseConcat(" ", u);
    CollapseOfNormal(" ");
  }

  /** A keyword that stands between blanks still does in upper case and after collapsing. */
  lemma CollapseKeepsFrom(p: string)
    requires p != [] && Trimmed(p)
    ensures HasBlankKeyword(p, "FROM") ==> HasBlankKeyword(Collapse(ToUpper(p)), "FROM")
  {
    var s := " " + p + " ";
    assert " " + "FROM" + " " == " FROM ";
    UpperKeepsSpace(p);
    PaddedCollapse(ToUpper(p));
    UpperPadded(p);
    var i := Index(s, " FROM ");
    if i != -1 {
      IndexFirst(s, " FROM ");
      SplitAround(s, i);
      CollapseAround(ToUpper(s[..i]), ToUpper(s[i + 6..]));
    }
  }

  lemma UpperPadded(p: string)
    ensures ToUpper(" " + p + " ") == " " + ToUpper(p) + " "
  {
    ToUpperConcat(" " + p, " ");
    ToUpperConcat(" ", p);
    UpperIsSame(" ");
  }

  lemma SplitAround(s: string, i: nat)
    requires At(s, " FROM ", i)
    ensures ToUpper(s) == ToUpper(s[..i]) + " FROM " + ToUpper(s[i + 6..])
  {
    CutAround(s, i, " FROM ");
    UpperAround(s[..i], " FROM ", s[i + 6..]);
    UpperIsSame(" FROM ");
  }

  lemma CutAround(s: string, i: nat, sub: string)
    requires At(s, sub, i)
    ensures s == s[..i] + sub + s[i + |sub|..]
  {
    assert s == s[..i] + s[i..i + |sub|] + s[i + |sub|..];
  }

  lemma UpperAround(a: string, b: string, c: string)
    ensures ToUpper(a + b + c) == ToUpper(a) + ToUpper(b) + ToUpper(c)
  {
    ToUpperConcat(a + b, c);
    ToUpperConcat(a, b);
  }

  /**
   * Parsing a printed statement: the table and the WHERE text come back exactly, in their original
   * case; the projection comes back cut to the length it has after collapsing whitespace runs.
   */
  lemma ParsePrinted(p: string, t: string, w: Option<string>)
    requires Printable(p, t, w)
    ensures |Collapse(ToUpper(p))| <= |p|
    ensures ParseSQL(Print(p, t, w)) == Parsed(t, TrimSpace(p[..|Collapse(ToUpper(p))|]), ClauseText(w))
  {
    var sql, c := Print(p, t, w), Collapse(ToUpper(p));
    CollapsedHead(p);
    NormalizedSide(p, t, w);
    OriginalSide(p, t, w);
    TableReadBack(t, w);
    WhereReadBack(p, t, w);
    ParseSteps(sql, NormalizeSQL(sql), 7 + |p|, |c|, p[..|c|], t + WherePart(w), t, ClauseText(w));
  }

  lemma ProjectionIs(sql: string, n: string, length: nat, raw: string)
    requires 7 + length <= |sql| && 7 + length <= |n| && sql[7..7 + length] == raw
    ensures ProjectionSlice(sql, n, 0, 7 + length) == InRange(raw)
  {
    assert |n[7..7 + length]| == length;
  }

  /** The parser's result once its searches, its cut and its readings are known. */
  lemma ParseIs(
    sql: string, n: string, from: int, fromInOriginal: nat, raw: string, fields: seq<string>, clause: string)
    requires NormalizeSQL(sql) == n && Index(n, " FROM ") == from >= 0 && Index(n, "SELECT ") == 0
    requires ProjectionSlice(sql, n, 0, from) == InRange(raw)
    requires Index(sql, " FROM ") == fromInOriginal && SingleTable(n[from + 6..])
    requires TableFields(sql[fromInOriginal + 6..]) == fields != [] && WhereText(sql) == clause
    ensures ParseSQL(sql) == Parsed(fields[0], TrimSpace(raw), clause)
  {
  }

  /** The parser's result once each of its searches is known. */
  lemma ParseSteps(sql: string, n: string, from: nat, length: nat, raw: string, rest: string, t: string, clause: string)
    requires NormalizeSQL(sql) == n && Index(sql, " FROM ") == from && from + 6 <= |sql| && 7 + length <= |sql|
    requires Index(n, " FROM ") == 7 + length && Index(n, "SELECT ") == 0 && |n| >= 13 + length
    requires SingleTable(n[13 + length..])
    requires sql[7..7 + length] == raw && sql[from + 6..] == rest
    requires TableFields(rest) != [] && TableFields(rest)[0] == t && WhereText(sql) == clause
    ensures ParseSQL(sql) == Parsed(t, TrimSpace(raw), clause)
  {
    ProjectionIs(sql, n, length, raw);
    ParseIs(sql, n, 7 + length, from, raw, TableFields(rest), clause);
  }

  /** What the parser finds in the normalized text of a printed statement. */
  lemma NormalizedSide(p: string, t: string, w: Option<string>)
    requires Printable(p, t, w)
    ensures var n, c := NormalizeSQL(Print(p, t, w)), Collapse(ToUpper(p));
            && Index(n, " FROM ") == 7 + |c| && Index(n, "SELECT ") == 0
            && |n| >= 13 + |c| && SingleTable(n[13 + |c|..])
  {
    var c := Collapse(ToUpper(p));
    var rest := ToUpper(t) + TrimRight(Collapse(ToUpper(WherePart(w))));
    NormalizePrinted(p, t, WherePart(w));
    FirstFrom(c, rest);
    Layout(c, rest);
    SelectFirst(c, " FROM " + rest);
    TargetAccepted(t, w);
  }

  lemma SelectFirst(c: string, rest: string)
    ensures Index("SELECT " + c + rest, "SELECT ") == 0
  {
    assert ("SELECT " + c + rest)[0..7] == "SELECT ";
    IndexIs("SELECT " + c + rest, "SELECT ", 0);
  }

  /** What the parser cuts out of the original text. */
  lemma OriginalSide(p: string, t: string, w: Option<string>)
    requires Printable(p, t, w)
    ensures var sql, c := Print(p, t, w), Collapse(ToUpper(p));
            && Index(sql, " FROM ") == 7 + |p| && |c| <= |p| && |sql| >= 13 + |p|
            && sql[7..7 + |c|] == p[..|c|] && sql[13 + |p|..] == t + WherePart(w)
  {
    CollapsedHead(p);
    CollapseKeepsFrom(p);
    FirstFrom(p, t + WherePart(w));
    Layout(p, t + WherePart(w));
    var sql, c := Print(p, t, w), Collapse(ToUpper(p));
    assert sql[7..7 + |p|][..|c|] == sql[7..7 + |c|];
  }

  lemma {:induction false} CollapseLength(s: string)
    ensures |Collapse(s)| == |s| <==> NoSpaceRun(s)
  {
    if s != [] {
      CollapseLength(s[1..]);
      assert s == [s[0]] + s[1..];
    }
  }

  lemma UpperKeepsRuns(p: string)
    ensures NoSpaceRun(ToUpper(p)) <==> NoSpaceRun(p)
  {
    UpperKeepsSpace(p);
  }

  /** Parsing inverts printing exactly when the projection has no run of two or more whitespace characters. */
  lemma ParseInvertsPrintingIff(p: string, t: string, w: Option<string>)
    requires Printable(p, t, w)
    ensures ParseSQL(Print(p, t, w)) == Parsed(t, p, ClauseText(w)) <==> NoSpaceRun(p)
  {
    ParsePrinted(p, t, w);
    var c := Collapse(ToUpper(p));
    CollapseLength(ToUpper(p));
    UpperKeepsRuns(p);
    TrimIsTrimmed(p[..|c|]);
    TrimOfTrimmed(p);
    assert |c| == |p| ==> p[..|c|] == p;
  }
}
