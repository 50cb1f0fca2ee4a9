/** Which printed REGISTER commands parse back to themselves. */
module ReplRoundTrip {
  import opened Rows
  import opened Text
  import opened SqlText
  import opened Repl

  /** The SQL ends, after other text, in tokens spelling `WITH CURSOR column`. */
  predicate EndsInCursorClause(sql: string)
  {
    var t := Tokens(sql);
    |t| > 3 && CursorTokens(t[|t| - 3..])
  }

  /** The SQL ends, after other text, in tokens spelling `FROM NOW`, however far apart. */
  predicate EndsInNowClause(sql: string)
  {
    var t := Tokens(sql);
    |t| > 2 && NowTokens(t[|t| - 2..])
  }

  /** What a caller can check on the SQL alone so that the command survives printing and parsing. */
  predicate SafeSql(sql: string, cursor: Option<string>, mode: Mode)
  {
    && (mode == Beginning ==> !Contains(ToUpper(sql), "FROM NOW"))
    && (cursor.None? ==> !EndsInCursorClause(sql))
    && (cursor.None? && mode == Beginning ==> !EndsInNowClause(sql))
  }

  // ---- the printed tail ----

  function CursorPart(cursor: Option<string>): seq<string>
  {
    match cursor
    case None => []
    case Some(c) => ["WITH", "CURSOR", c]
  }

  function NowPart(mode: Mode): seq<string>
  {
    if mode == Now then ["FROM", "NOW"] else []
  }

  lemma WordIsToken(w: string)
    requires IsWord(w)
    ensures IsToken(w)
  {
    forall i | 0 <= i < |w| ensures NonSpace(w[i]) {
      assert w[i] in w;
    }
  }

  lemma SpacedToken(w: string, rest: string)
    requires IsToken(w) && (rest == [] || StartsWithSpace(rest))
    ensures Tokens(" " + w + rest) == [w] + Tokens(rest)
  {
    var s := " " + w + rest;
    TokensSkip(s);
    assert s[1..] == w + rest;
    TokensStep(w, rest);
  }

  lemma NowTailTokens(mode: Mode)
    ensures var s := if mode == Now then " FROM NOW" else "";
            Tokens(s) == NowPart(mode) && (s == [] || StartsWithSpace(s))
  {
    if mode == Now {
      assert " FROM NOW" == " " + "FROM" + (" " + "NOW" + "");
      SpacedToken("NOW", "");
      SpacedToken("FROM", " " + "NOW" + "");
      assert NowPart(mode) == ["FROM"] + (["NOW"] + []);
    }
  }

  lemma CursorTailTokens(c: string, now: string)
    requires IsWord(c) && (now == [] || StartsWithSpace(now))
    ensures Tokens(" WITH CURSOR " + c + now) == ["WITH", "CURSOR", c] + Tokens(now)
  {
    var column := " " + c + now;
    WordIsToken(c);
    SpacedToken(c, now);
    SpacedToken("CURSOR", column);
    SpacedToken("WITH", " " + "CURSOR" + column);
    CursorRegroups(c, now);
  }

  lemma CursorRegroups(c: string, now: string)
    ensures " WITH CURSOR " + c + now == " " + "WITH" + (" " + "CURSOR" + (" " + c + now))
  {
    assert " WITH CURSOR " == " " + "WITH" + (" " + "CURSOR" + " ");
  }

  lemma PrintedTailTokens(cursor: Option<string>, mode: Mode)
    requires cursor.Some? ==> IsWord(cursor.value)
    ensures var s := PrintTail(cursor, mode);
            Tokens(s) == CursorPart(cursor) + NowPart(mode) && (s == [] || StartsWithSpace(s))
  {
    var now := if mode == Now then " FROM NOW" else "";
    NowTailTokens(mode);
    match cursor
    case None => assert PrintTail(cursor, mode) == now;
    case Some(c) => CursorTailTokens(c, now);
  }

  lemma KeywordsUpper()
    ensures ToUpper("FROM") == "FROM" && ToUpper("NOW") == "NOW" && ToUpper("WITH") == "WITH"
            && ToUpper("CURSOR") == "CURSOR"
  {
    UpperIsSame("FROM");
    UpperIsSame("NOW");
    UpperIsSame("WITH");
    UpperIsSame("CURSOR");
  }

  /** The printed tail matches, with the printed cursor. */
  lemma PrintedTailMatches(cursor: Option<string>, mode: Mode)
    requires cursor.Some? ==> IsWord(cursor.value)
    ensures MatchTail(PrintTail(cursor, mode)) == Tail(cursor)
  {
    var s := PrintTail(cursor, mode);
    PrintedTailTokens(cursor, mode);
    KeywordsUpper();
    TailIff(s);
    var t := Tokens(s);
    if cursor.Some? && mode == Now {
      assert t[..3] == ["WITH", "CURSOR", cursor.value] && t[3..] == ["FROM", "NOW"];
    }
  }

  /** More tokens before the printed tail still make a tail only in these cases. */
  lemma LongerTail(x: seq<string>, cursor: Option<string>, mode: Mode)
    requires x != [] && (cursor.Some? ==> IsWord(cursor.value))
    ensures TailTokens(x + (CursorPart(cursor) + NowPart(mode)))
            <==> cursor.None? && if mode == Now then CursorTokens(x) else TailTokens(x)
  {
    KeywordsUpper();
    var t := x + (CursorPart(cursor) + NowPart(mode));
    match cursor
    case None =>
      if mode == Now {
        assert |x| == 1 ==> t[1] == "FROM";
        assert |x| == 3 ==> t[..3] == x && t[3..] == ["FROM", "NOW"];
      } else {
        assert t == x;
      }
    case Some(c) =>
      assert |x| == 2 ==> t[3] == "CURSOR";
      assert |t| == 5 ==> t[3..][0] == t[3];
  }

  // ---- cutting the SQL at a token ----

  lemma VisibleTokens(s: string)
    requires s != [] && NonSpace(s[0])
    ensures Tokens(s) != []
  {
  }

  lemma NoTailAtVisible(s: string)
    requires s != [] && NonSpace(s[0])
    ensures MatchTail(s).NoTail?
  {
    assert PrefixLength(s, RegexSpace) == 0;
    assert !AllSpace(s);
  }

  /** A blank inside the SQL separates its first tokens from its last ones. */
  lemma SuffixTokens(sql: string, n: nat)
    requires sql != [] && NonSpace(sql[0]) && 1 <= n < |sql| && RegexSpace(sql[n])
    ensures var t, x := Tokens(sql), Tokens(sql[n..]); |t| > |x| && t[|t| - |x|..] == x
  {
    assert sql == sql[..n] + sql[n..];
    TokensConcat(sql[..n], sql[n..]);
    VisibleTokens(sql[..n]);
  }

  /** Any proper suffix of the token list starts at some blank of the text. */
  lemma CutBefore(s: string, j: nat) returns (n: nat)
    requires s != [] && NonSpace(s[0]) && 1 <= j < |Tokens(s)|
    ensures 1 <= n < |s| && RegexSpace(s[n]) && Tokens(s[n..]) == Tokens(s)[j..]
    decreases |s|
  {
    var k := PrefixLength(s, NonSpace);
    var w, rest := s[..k], s[k..];
    assert s == w + rest;
    TokensStep(w, rest);
    assert Tokens(s)[1..] == Tokens(rest);
    if j == 1 {
      n := k;
    } else {
      var g := PrefixLength(rest, RegexSpace);
      TokensSkipAll(rest, g);
      var tail := rest[g..];
      var m := CutBefore(tail, j - 1);
      n := k + g + m;
      assert s[n..] == tail[m..] && s[n] == tail[m];
      assert Tokens(s)[j..] == Tokens(tail)[j - 1..];
    }
  }

  /** The tail matches early, inside the SQL. */
  ghost predicate MatchesAt(sql: string, cursor: Option<string>, mode: Mode, n: nat)
  {
    1 <= n < |sql| && MatchTail(sql[n..] + PrintTail(cursor, mode)).Tail?
  }

  lemma MatchesAtIff(sql: string, cursor: Option<string>, mode: Mode, n: nat)
    requires 1 <= n < |sql| && NonSpace(sql[|sql| - 1]) && (cursor.Some? ==> IsWord(cursor.value))
    ensures MatchesAt(sql, cursor, mode, n) <==>
              RegexSpace(sql[n]) && cursor.None?
              && if mode == Now then CursorTokens(Tokens(sql[n..])) else TailTokens(Tokens(sql[n..]))
  {
    var x, tail := sql[n..], PrintTail(cursor, mode);
    var s := x + tail;
    if NonSpace(sql[n]) {
      NoTailAtVisible(s);
    } else {
      PrintedTailTokens(cursor, mode);
      TokensConcat(x, tail);
      TailIff(s);
      AllSpaceTokens(x);
      assert x[|x| - 1] == sql[|sql| - 1];
      LongerTail(Tokens(x), cursor, mode);
    }
  }

  /** The last tokens of a tail are the last tokens of the list that ends in it. */
  lemma LastTokens(t: seq<string>, x: seq<string>, k: nat)
    requires |t| > |x| >= k && t[|t| - |x|..] == x
    ensures t[|t| - k..] == x[|x| - k..]
  {
    assert t[|t| - |x|..][|x| - k..] == t[|t| - k..];
  }

  lemma TailTokensEnd(t: seq<string>, x: seq<string>)
    requires |t| > |x| && t[|t| - |x|..] == x && x != []
    ensures CursorTokens(x) ==> |t| > 3 && CursorTokens(t[|t| - 3..])
    ensures TailTokens(x) && !CursorTokens(x) ==> |t| > 2 && NowTokens(t[|t| - 2..])
  {
    if |x| >= 2 {
      LastTokens(t, x, 2);
    }
  }

  /** The SQL conditions on clause suffixes exclude every early match. */
  lemma EarlyMatchUnsafe(sql: string, cursor: Option<string>, mode: Mode, n: nat)
    requires sql != [] && NonSpace(sql[0]) && NonSpace(sql[|sql| - 1]) && (cursor.Some? ==> IsWord(cursor.value))
    requires MatchesAt(sql, cursor, mode, n)
    ensures !SafeSql(sql, cursor, mode)
  {
    MatchesAtIff(sql, cursor, mode, n);
    SuffixTokens(sql, n);
    VisibleEnd(sql, n);
    ClauseAtEnd(sql, Tokens(sql[n..]));
  }

  lemma ClauseAtEnd(sql: string, x: seq<string>)
    requires var t := Tokens(sql); |t| > |x| && t[|t| - |x|..] == x && x != []
    ensures CursorTokens(x) ==> EndsInCursorClause(sql)
    ensures TailTokens(x) ==> EndsInCursorClause(sql) || EndsInNowClause(sql)
  {
    TailTokensEnd(Tokens(sql), x);
  }

  lemma VisibleEnd(sql: string, n: nat)
    requires n < |sql| && NonSpace(sql[|sql| - 1]) && RegexSpace(sql[n])
    ensures Tokens(sql[n..]) != []
  {
    AllSpaceTokens(sql[n..]);
    assert sql[n..][|sql| - n - 1] == sql[|sql| - 1];
  }

  lemma UnsafeMatchesEarly(sql: string, cursor: Option<string>, mode: Mode) returns (n: nat)
    requires sql != [] && NonSpace(sql[0]) && NonSpace(sql[|sql| - 1])
    requires cursor.None? && (EndsInCursorClause(sql) || (mode == Beginning && EndsInNowClause(sql)))
    ensures MatchesAt(sql, cursor, mode, n)
  {
    var t := Tokens(sql);
    if EndsInCursorClause(sql) {
      n := CutBefore(sql, |t| - 3);
    } else {
      n := CutBefore(sql, |t| - 2);
    }
    MatchesAtIff(sql, cursor, mode, n);
  }

  // ---- the lazy group ----

  /** The lazy group stops at the first length after which the rest matches. */
  lemma {:induction false} LazySplitFirst(s: string, n: nat, m: nat, follows: string -> bool)
    requires 1 <= n <= m <= |s| && follows(s[m..]) && '\n' !in s[..m]
    ensures n <= LazySplit(s, n, follows) <= m
    ensures (forall k | n <= k < m :: !follows(s[k..])) ==> LazySplit(s, n, follows) == m
    decreases m - n
  {
    assert s[..m][n - 1] == s[n - 1];
    if n < m && !follows(s[n..]) {
      LazySplitFirst(s, n + 1, m, follows);
    }
  }

  lemma LazySplitCut(sql: string, tail: string, m: nat, follows: string -> bool)
    requires 1 <= m <= |sql| && follows(sql[m..] + tail) && '\n' !in sql
    ensures 1 <= LazySplit(sql + tail, 1, follows) <= m
  {
    var body := sql + tail;
    assert body[m..] == sql[m..] + tail && body[..m] == sql[..m];
    LazySplitFirst(body, 1, m, follows);
  }

  lemma LazySplitExact(sql: string, tail: string, follows: string -> bool)
    requires sql != [] && follows(tail) && '\n' !in sql
    requires forall k | 1 <= k < |sql| :: !follows(sql[k..] + tail)
    ensures LazySplit(sql + tail, 1, follows) == |sql|
  {
    var body := sql + tail;
    assert body[|sql|..] == tail && body[..|sql|] == sql;
    forall k | 1 <= k < |sql| ensures !follows(body[k..]) {
      assert body[k..] == sql[k..] + tail;
    }
    LazySplitFirst(body, 1, |sql|, follows);
  }

  // ---- the separate test for FROM NOW ----

  /** A blank between the M and the N that the test looks for. */
  predicate NowGap(s: string, k: int)
  {
    1 <= k && k + 1 < |s| && s[k - 1] == 'M' && s[k] == ' ' && s[k + 1] == 'N'
  }

  predicate NoNowGap(s: string)
  {
    forall k | 1 <= k < |s| :: !NowGap(s, k)
  }

  lemma FromNowGap(s: string, j: int)
    requires At(s, "FROM NOW", j)
    ensures j >= 0 && j + 8 <= |s| && NowGap(s, j + 4)
    ensures s[j] != ' ' && s[j + 1] != ' ' && s[j + 2] != ' ' && s[j + 5] != ' ' && s[j + 6] != ' ' && s[j + 7] != ' '
  {
    var w := s[j..j + 8];
    assert s[j] == w[0] && s[j + 1] == w[1] && s[j + 2] == w[2] && s[j + 3] == w[3];
    assert s[j + 4] == w[4] && s[j + 5] == w[5] && s[j + 6] == w[6] && s[j + 7] == w[7];
  }

  /** Pieces around a trimmed text that neither hold the gap nor complete it. */
  predicate Surrounds(p: string, s: string, q: string)
  {
    && p != [] && p[|p| - 1] == ' ' && (q != [] ==> q[0] == ' ')
    && s != [] && s[0] != ' ' && s[|s| - 1] != ' '
    && NoNowGap(p + [s[0]]) && NoNowGap([s[|s| - 1]] + q)
  }

  /** Such pieces do not matter to the test. */
  lemma FromNowInside(p: string, s: string, q: string)
    requires Surrounds(p, s, q)
    ensures Contains(p + s + q, "FROM NOW") <==> Contains(s, "FROM NOW")
  {
    var u := p + s + q;
    IndexFirst(u, "FROM NOW");
    IndexFirst(s, "FROM NOW");
    var i, j := Index(s, "FROM NOW"), Index(u, "FROM NOW");
    if i != -1 {
      FromNowOutside(p, s, q, i);
    }
    if j != -1 {
      FromNowWithin(p, s, q, j);
    }
  }

  lemma FromNowOutside(p: string, s: string, q: string, i: int)
    requires At(s, "FROM NOW", i)
    ensures At(p + s + q, "FROM NOW", |p| + i)
  {
    assert (p + s + q)[|p| + i..|p| + i + 8] == s[i..i + 8];
  }

  lemma FromNowWithin(p: string, s: string, q: string, j: int)
    requires Surrounds(p, s, q) && At(p + s + q, "FROM NOW", j)
    ensures At(s, "FROM NOW", j - |p|)
  {
    var u := p + s + q;
    FromNowGap(u, j);
    GapInside(p, s, q, j + 4);
    assert u[|p| - 1] == ' ' && (q != [] ==> u[|p| + |s|] == ' ');
    assert s[j - |p|..j - |p| + 8] == u[j..j + 8];
  }

  lemma GapInside(p: string, s: string, q: string, k: int)
    requires p != [] && s != [] && s[0] != ' ' && s[|s| - 1] != ' '
    requires !NowGap(p + [s[0]], k)
    requires !NowGap([s[|s| - 1]] + q, k - |p| - |s| + 1)
    requires NowGap(p + s + q, k)
    ensures |p| < k < |p| + |s| - 1
  {
  }

  lemma UpperWord(w: string)
    requires IsWord(w)
    ensures forall i | 0 <= i < |w| :: ToUpper(w)[i] != ' '
  {
    forall i | 0 <= i < |w| ensures ToUpper(w)[i] != ' ' {
      assert w[i] in w;
    }
  }

  lemma NoGapBefore(id: string, c: char)
    requires (forall i | 0 <= i < |id| :: id[i] != ' ') && c != ' '
    ensures NoNowGap("REGISTER QUERY " + id + " AS " + [c])
  {
    var p := "REGISTER QUERY " + id + " AS " + [c];
    assert forall i | 0 <= i < 15 :: p[i] == "REGISTER QUERY "[i];
    assert forall i | 0 <= i < |id| :: p[15 + i] == id[i];
    assert forall i | 0 <= i < 4 :: p[15 + |id| + i] == " AS "[i];
  }

  lemma NoGapAfter(c: char, w: string)
    requires forall i | 0 <= i < |w| :: w[i] != ' '
    ensures NoNowGap([c] + (" WITH CURSOR " + w))
  {
    var q := [c] + (" WITH CURSOR " + w);
    assert forall i | 0 <= i < 13 :: q[1 + i] == " WITH CURSOR "[i];
    assert forall i | 0 <= i < |w| :: q[14 + i] == w[i];
  }

  lemma RegroupPrint(c: Command)
    ensures Print(c) == ("REGISTER QUERY " + c.id + " AS ") + c.sql + PrintTail(c.cursor, c.mode)
  {
    assert "REGISTER QUERY " == "REGISTER QUERY" + " " && " AS " == " AS" + " ";
  }

  lemma UpperHead(id: string)
    ensures ToUpper("REGISTER QUERY " + id + " AS ") == "REGISTER QUERY " + ToUpper(id) + " AS "
  {
    ToUpperConcat("REGISTER QUERY " + id, " AS ");
    ToUpperConcat("REGISTER QUERY ", id);
    UpperIsSame("REGISTER QUERY ");
    UpperIsSame(" AS ");
  }

  lemma UpperCursor(w: string)
    ensures ToUpper(" WITH CURSOR " + w) == " WITH CURSOR " + ToUpper(w)
  {
    ToUpperConcat(" WITH CURSOR ", w);
    UpperIsSame(" WITH CURSOR ");
  }

  lemma UpperPrint(c: Command)
    ensures ToUpper(Print(c))
            == ("REGISTER QUERY " + ToUpper(c.id) + " AS ") + ToUpper(c.sql) + ToUpper(PrintTail(c.cursor, c.mode))
  {
    RegroupPrint(c);
    var head := "REGISTER QUERY " + c.id + " AS ";
    ToUpperConcat(head + c.sql, PrintTail(c.cursor, c.mode));
    ToUpperConcat(head, c.sql);
    UpperHead(c.id);
  }

  lemma UpperEnds(sql: string)
    requires sql != [] && Trimmed(sql)
    ensures var u := ToUpper(sql); u != [] && u[0] != ' ' && u[|u| - 1] != ' '
  {
  }

  lemma TailWithoutNow(cursor: Option<string>, last: char)
    requires (cursor.Some? ==> IsWord(cursor.value)) && last != ' '
    ensures var q := ToUpper(PrintTail(cursor, Beginning)); NoNowGap([last] + q) && (q != [] ==> q[0] == ' ')
  {
    match cursor
    case None => assert PrintTail(cursor, Beginning) == [];
    case Some(w) =>
      assert PrintTail(cursor, Beginning) == " WITH CURSOR " + w;
      UpperCursor(w);
      UpperWord(w);
      NoGapAfter(last, ToUpper(w));
  }

  /** Without a printed `FROM NOW`, the test looks at nothing but the SQL. */
  lemma TestSeesSql(c: Command)
    requires WellFormed(c) && c.mode == Beginning
    ensures Contains(ToUpper(Print(c)), "FROM NOW") <==> Contains(ToUpper(c.sql), "FROM NOW")
  {
    var u := ToUpper(c.sql);
    UpperPrint(c);
    UpperEnds(c.sql);
    UpperWord(c.id);
    NoGapBefore(ToUpper(c.id), u[0]);
    TailWithoutNow(c.cursor, u[|u| - 1]);
    FromNowInside("REGISTER QUERY " + ToUpper(c.id) + " AS ", u, ToUpper(PrintTail(c.cursor, c.mode)));
  }

  /** A printed `FROM NOW` is always found. */
  lemma TestSeesNow(c: Command)
    requires c.mode == Now
    ensures Contains(ToUpper(Print(c)), "FROM NOW")
  {
    var s := Print(c);
    RegroupPrint(c);
    var front := "REGISTER QUERY " + c.id + " AS " + c.sql
        + (if c.cursor.Some? then " WITH CURSOR " + c.cursor.value else "") + " ";
    assert s == front + "FROM NOW";
    ToUpperConcat(front, "FROM NOW");
    UpperIsSame("FROM NOW");
    assert At(ToUpper(s), "FROM NOW", |front|);
    IndexFirst(ToUpper(s), "FROM NOW");
  }

  // ---- the parser on a printed command ----

  lemma PeelPrinted(w: string, rest: string)
    requires IsToken(w) && (rest == [] || StartsWithSpace(rest))
    ensures Peel(" " + w + rest) == Peeled(w, rest)
  {
    var s := " " + w + rest;
    assert s[1..] == w + rest && s[1] == w[0];
    PrefixLengthIs(s, RegexSpace, 1);
    PrefixLengthIs(s[1..], NonSpace, |w|);
  }

  /** What follows the blank after AS. */
  function Body(c: Command): string
  {
    c.sql + PrintTail(c.cursor, c.mode)
  }

  function ModeRead(line: string): Mode
  {
    if Contains(ToUpper(line), "FROM NOW") then Now else Beginning
  }

  /** What the parser makes of a printed command, once the lazy group has stopped after `n` characters. */
  function ReadBack(c: Command, n: nat): Option<Command>
    requires n <= |Body(c)| && HasTail(Body(c)[n..])
  {
    Some(Command(c.id, TrimSpace(Body(c)[..n]), MatchTail(Body(c)[n..]).cursor, ModeRead(Print(c))))
  }

  lemma BodySplit(c: Command) returns (n: nat)
    requires WellFormed(c)
    ensures n == LazySplit(Body(c), 1, HasTail) && 1 <= n <= |c.sql| <= |Body(c)| && HasTail(Body(c)[n..])
    ensures SplitBody(" " + Body(c), 1, HasTail) == Split(Body(c)[..n], Body(c)[n..])
  {
    var body := Body(c);
    PrintedTailMatches(c.cursor, c.mode);
    assert c.sql[|c.sql|..] + PrintTail(c.cursor, c.mode) == PrintTail(c.cursor, c.mode);
    LazySplitCut(c.sql, PrintTail(c.cursor, c.mode), |c.sql|, HasTail);
    n := LazySplit(body, 1, HasTail);
    assert (" " + body)[1..] == body;
  }

  /** The parser's result once each of its matches is known. */
  lemma ParseSteps(line: string, id: string, afterId: string, afterAs: string, split: Split)
    requires |line| >= 14 && ToUpper(line[..14]) == "REGISTER QUERY" && IsWord(id)
    requires Peel(line[14..]) == Peeled(id, afterId) && Peel(afterId) == Peeled("AS", afterAs) && ToUpper("AS") == "AS"
    requires SplitBody(afterAs, PrefixLength(afterAs, RegexSpace), HasTail) == split && split.Split?
    ensures ParseRegister(line)
            == Some(Command(id, TrimSpace(split.group), MatchTail(split.rest).cursor, ModeRead(line)))
  {
  }

  lemma PrintedStart(c: Command)
    requires IsWord(c.id)
    ensures var line := Print(c);
            |line| >= 14 && line[..14] == "REGISTER QUERY" && Peel(line[14..]) == Peeled(c.id, " AS" + (" " + Body(c)))
  {
    var line, afterId := Print(c), " AS" + (" " + Body(c));
    WordIsToken(c.id);
    assert line[..14] == "REGISTER QUERY" && line[14..] == " " + c.id + afterId;
    PeelPrinted(c.id, afterId);
  }

  lemma AsRegroups(rest: string)
    ensures " AS" + rest == " " + "AS" + rest
  {
  }

  lemma PeelAs(body: string)
    ensures Peel(" AS" + (" " + body)) == Peeled("AS", " " + body)
  {
    AsRegroups(" " + body);
    PeelPrinted("AS", " " + body);
  }

  lemma OneBlank(body: string)
    requires body != [] && NonSpace(body[0])
    ensures PrefixLength(" " + body, RegexSpace) == 1
  {
    PrefixLengthIs(" " + body, RegexSpace, 1);
  }

  lemma UpperKeywords()
    ensures ToUpper("AS") == "AS" && ToUpper("REGISTER QUERY") == "REGISTER QUERY"
  {
    UpperIsSame("AS");
    UpperIsSame("REGISTER QUERY");
  }

  lemma ParsePrinted(c: Command) returns (n: nat)
    requires WellFormed(c)
    ensures n == LazySplit(Body(c), 1, HasTail) && 1 <= n <= |c.sql| <= |Body(c)| && HasTail(Body(c)[n..])
    ensures ParseRegister(Print(c)) == ReadBack(c, n)
  {
    n := BodySplit(c);
    PrintedStart(c);
    PeelAs(Body(c));
    OneBlank(Body(c));
    UpperKeywords();
    var afterAs := " " + Body(c);
    ParseSteps(Print(c), c.id, " AS" + afterAs, afterAs, SplitBody(afterAs, 1, HasTail));
  }

  /** The lazy group reads exactly the SQL when no clause suffix stops it early. */
  lemma SafeSqlIsRead(c: Command)
    requires WellFormed(c) && SafeSql(c.sql, c.cursor, c.mode)
    ensures LazySplit(Body(c), 1, HasTail) == |c.sql|
  {
    var sql, tail := c.sql, PrintTail(c.cursor, c.mode);
    forall k | 1 <= k < |sql| ensures !HasTail(sql[k..] + tail) {
      if MatchesAt(sql, c.cursor, c.mode, k) {
        EarlyMatchUnsafe(sql, c.cursor, c.mode, k);
      }
    }
    PrintedTailMatches(c.cursor, c.mode);
    LazySplitExact(sql, tail, HasTail);
  }

  lemma EarlySplit(c: Command, m: nat)
    requires WellFormed(c) && MatchesAt(c.sql, c.cursor, c.mode, m)
    ensures LazySplit(Body(c), 1, HasTail) <= m
  {
    LazySplitCut(c.sql, PrintTail(c.cursor, c.mode), m, HasTail);
  }

  /** A clause suffix in the SQL stops the lazy group early. */
  lemma SuffixIsCut(c: Command)
    requires WellFormed(c) && c.cursor.None?
            && (EndsInCursorClause(c.sql) || (c.mode == Beginning && EndsInNowClause(c.sql)))
    ensures LazySplit(Body(c), 1, HasTail) < |c.sql|
  {
    var m := UnsafeMatchesEarly(c.sql, c.cursor, c.mode);
    EarlySplit(c, m);
  }

  lemma RoundTripOfWellFormed(c: Command)
    requires WellFormed(c)
    ensures ParseRegister(Print(c)) == Some(c) <==> SafeSql(c.sql, c.cursor, c.mode)
  {
    var n := ParsePrinted(c);
    var body := Body(c);
    if c.mode == Now {
      TestSeesNow(c);
    } else {
      TestSeesSql(c);
    }
    TrimIsTrimmed(body[..n]);
    if SafeSql(c.sql, c.cursor, c.mode) {
      SafeSqlIsRead(c);
      assert body[..n] == c.sql && body[n..] == PrintTail(c.cursor, c.mode);
      TrimOfTrimmed(c.sql);
      PrintedTailMatches(c.cursor, c.mode);
    } else if !(c.mode == Beginning && Contains(ToUpper(c.sql), "FROM NOW")) {
      SuffixIsCut(c);
    }
  }

  // ---- what the parser can return at all ----

  lemma {:induction false} LazySplitOneLine(s: string, n: nat, follows: string -> bool)
    requires n >= 1 && (n <= |s| ==> '\n' !in s[..n - 1])
    ensures '\n' !in s[..LazySplit(s, n, follows)]
    decreases |s| - n
  {
    if n <= |s| && s[n - 1] != '\n' {
      assert s[..n] == s[..n - 1] + [s[n - 1]];
      if !follows(s[n..]) && n < |s| {
        LazySplitOneLine(s, n + 1, follows);
      }
    }
  }

  lemma TrimKeepsChars(s: string)
    ensures forall ch | ch in TrimSpace(s) :: ch in s
  {
    TrimLeftCuts(s);
    TrimRightCuts(TrimLeft(s));
  }

  /** Nothing shorter than the lazy group would do. */
  lemma {:induction false} LazySplitShortest(s: string, n: nat, follows: string -> bool)
    requires n >= 1
    ensures forall k | n <= k < LazySplit(s, n, follows) :: !follows(s[k..])
    decreases |s| - n
  {
    if n < |s| && s[n - 1] != '\n' && !follows(s[n..]) {
      LazySplitShortest(s, n + 1, follows);
    }
  }

  /** The gap that was tried last, and what the group and the rest are after it. */
  lemma {:induction false} SplitBodyCut(s: string, gap: nat, follows: string -> bool) returns (k: nat)
    requires gap <= |s| && SplitBody(s, gap, follows).Split?
    ensures var b := SplitBody(s, gap, follows);
            && 1 <= k <= gap && s[k..] == b.group + b.rest
            && |b.group| == LazySplit(s[k..], 1, follows) >= 1
  {
    var n := LazySplit(s[gap..], 1, follows);
    if n > 0 {
      k := gap;
      assert s[gap..] == s[gap..][..n] + s[gap..][n..];
    } else {
      k := SplitBodyCut(s, gap - 1, follows);
    }
  }

  lemma {:induction false} SplitBodyOneLine(s: string, gap: nat, follows: string -> bool)
    requires gap <= |s|
    ensures var b := SplitBody(s, gap, follows); b.Split? ==> '\n' !in b.group
  {
    if gap > 0 {
      LazySplitOneLine(s[gap..], 1, follows);
      SplitBodyOneLine(s, gap - 1, follows);
    }
  }

  lemma TailCursorIsWord(s: string)
    ensures HasTail(s) && MatchTail(s).cursor.Some? ==> IsWord(MatchTail(s).cursor.value)
  {
  }

  lemma ParsedForm(line: string)
    ensures var r := ParseRegister(line);
            r.Some? ==> IsWord(r.value.id) && (r.value.cursor.Some? ==> IsWord(r.value.cursor.value))
                        && Trimmed(r.value.sql) && '\n' !in r.value.sql
  {
    if ParseRegister(line).Some? {
      var rest := Peel(Peel(line[14..]).rest).rest;
      var gap := PrefixLength(rest, RegexSpace);
      var body := SplitBody(rest, gap, HasTail);
      SplitBodyOneLine(rest, gap, HasTail);
      TailCursorIsWord(body.rest);
      TrimIsTrimmed(body.group);
      TrimKeepsChars(body.group);
    }
  }

  // ---- a printed command without SQL ----

  lemma {:induction false} TrimRightVisible(s: string)
    requires s != [] && !Space(s[0])
    ensures TrimRight(s) != []
  {
    if Space(s[|s| - 1]) {
      TrimRightVisible(s[..|s| - 1]);
    }
  }

  /** Two blanks before visible one-line text: all of the text can be taken, so the group is not blank. */
  lemma VisibleGroup(s: string, text: string, follows: string -> bool)
    requires s == "  " + text && text != [] && !Space(text[0]) && '\n' !in text && follows("")
    ensures var b := SplitBody(s, 2, follows); b.Split? && TrimSpace(b.group) != []
  {
    assert s[2..] == text && text[|text|..] + "" == "" && text + "" == text;
    LazySplitCut(text, "", |text|, follows);
    var n := LazySplit(text, 1, follows);
    TrimKeepsHead(text[..n]);
    TrimRightVisible(text[..n]);
  }

  lemma OneLineTail(cursor: Option<string>, mode: Mode)
    requires cursor.Some? ==> IsWord(cursor.value)
    ensures var t := PrintTail(cursor, mode); '\n' !in t && (t != [] ==> |t| > 1 && t[0] == ' ' && !Space(t[1]))
  {
  }

  lemma EmptySqlGroup(tail: string)
    requires '\n' !in tail && (tail != [] ==> |tail| > 1 && tail[0] == ' ' && !Space(tail[1]))
    ensures var s := " " + tail;
            var b := SplitBody(s, PrefixLength(s, RegexSpace), HasTail); b.Split? ==> TrimSpace(b.group) != []
  {
    var s := " " + tail;
    if tail == [] {
      PrefixLengthIs(s, RegexSpace, 1);
      assert s[1..] == "";
    } else {
      assert s == "  " + tail[1..];
      PrefixLengthIs(s, RegexSpace, 2);
      PrintedTailMatches(None, Beginning);
      VisibleGroup(s, tail[1..], HasTail);
    }
  }

  lemma EmptySqlIsLost(c: Command)
    requires c.sql == [] && IsWord(c.id) && (c.cursor.Some? ==> IsWord(c.cursor.value))
    ensures ParseRegister(Print(c)) != Some(c)
  {
    var afterAs := " " + Body(c);
    PrintedStart(c);
    PeelAs(Body(c));
    UpperKeywords();
    OneLineTail(c.cursor, c.mode);
    assert Body(c) == PrintTail(c.cursor, c.mode);
    EmptySqlGroup(Body(c));
    var b := SplitBody(afterAs, PrefixLength(afterAs, RegexSpace), HasTail);
    if b.Split? {
      ParseSteps(Print(c), c.id, " AS" + afterAs, afterAs, b);
    }
  }

  /**
   * Printing and parsing a REGISTER command gives the same command exactly when it is well formed
   * and its SQL is safe.
   */
  lemma RegisterRoundTripIff(c: Command)
    ensures ParseRegister(Print(c)) == Some(c) <==> WellFormed(c) && SafeSql(c.sql, c.cursor, c.mode)
  {
    ParsedForm(Print(c));
    if WellFormed(c) {
      RoundTripOfWellFormed(c);
    } else if c.sql == [] && IsWord(c.id) && (c.cursor.Some? ==> IsWord(c.cursor.value)) {
      EmptySqlIsLost(c);
    }
  }

  lemma TwoTokens(a: string, b: string)
    requires IsToken(a) && IsToken(b)
    ensures Tokens(a + ("\t" + b)) == [a, b]
  {
    TokensSkip("\t" + b);
    assert ("\t" + b)[1..] == b + "";
    TokensStep(b, "");
    TokensStep(a, "\t" + b);
  }

  lemma TabbedTokens(x: string, from: string, now: string)
    requires IsToken(x) && IsToken(from) && IsToken(now)
    ensures Tokens(x + (" " + (from + ("\t" + now)))) == [x, from, now]
  {
    var clause := from + ("\t" + now);
    TwoTokens(from, now);
    TokensSkip(" " + clause);
    assert (" " + clause)[1..] == clause;
    TokensStep(x, " " + clause);
  }

  lemma TabbedTest(sql: string)
    requires sql == "x FROM\tNOW"
    ensures !Contains(ToUpper(sql), "FROM NOW")
  {
    IndexFirst(ToUpper(sql), "FROM NOW");
    var j := Index(ToUpper(sql), "FROM NOW");
    if j != -1 {
      FromNowGap(ToUpper(sql), j);
    }
  }

  lemma TabbedClause() returns (sql: string)
    ensures sql == "x FROM\tNOW" && Trimmed(sql) && EndsInNowClause(sql) && !EndsInCursorClause(sql)
  {
    sql := "x" + (" " + ("FROM" + ("\t" + "NOW")));
    TabbedTokens("x", "FROM", "NOW");
    KeywordsUpper();
  }

  /**
   * A trimmed one-line SQL without `FROM NOW` and without a cursor suffix that is still lost:
   * the pattern allows any white space inside the clause, the separate test only one blank.
   */
  lemma TabbedClauseIsLost()
    ensures var sql := "x FROM\tNOW";
            && Trimmed(sql) && !Contains(ToUpper(sql), "FROM NOW") && !EndsInCursorClause(sql)
            && ParseRegister(Print(Command("q", sql, None, Beginning))) != Some(Command("q", sql, None, Beginning))
  {
    var sql := TabbedClause();
    TabbedTest(sql);
    RegisterRoundTripIff(Command("q", sql, None, Beginning));
  }

  lemma LastTwoTokens(sql: string, a: string, b: string)
    requires IsToken(a) && IsToken(b)
    ensures Tokens(sql + (" " + a + (" " + b + ""))) == Tokens(sql) + [a, b]
  {
    SpacedToken(b, "");
    SpacedToken(a, " " + b + "");
    TokensConcat(sql, " " + a + (" " + b + ""));
  }

  lemma NoClauseAtEnd(t: seq<string>, x: seq<string>, a: string, b: string)
    requires t == x + [a, b] && ToUpper(a) != "CURSOR" && ToUpper(b) != "NOW"
    ensures |t| > 3 ==> !CursorTokens(t[|t| - 3..])
    ensures |t| > 2 ==> !NowTokens(t[|t| - 2..])
  {
  }

  lemma BeginningEnds(sql: string)
    ensures var whole := sql + " FROM BEGINNING"; !EndsInCursorClause(whole) && !EndsInNowClause(whole)
  {
    BeginningRegroups();
    LastTwoTokens(sql, "FROM", "BEGINNING");
    UpperIsSame("FROM");
    UpperIsSame("BEGINNING");
    NoClauseAtEnd(Tokens(sql + " FROM BEGINNING"), Tokens(sql), "FROM", "BEGINNING");
  }

  lemma BeginningRegroups()
    ensures " FROM BEGINNING" == " " + "FROM" + (" " + "BEGINNING" + "")
  {
  }

  lemma BeginningTrimmed(sql: string)
    requires sql != [] && Trimmed(sql) && '\n' !in sql
    ensures Trimmed(sql + " FROM BEGINNING") && '\n' !in sql + " FROM BEGINNING"
  {
    var whole := sql + " FROM BEGINNING";
    assert whole[0] == sql[0] && whole[|whole| - 1] == 'G';
  }

  lemma PrintPlain(id: string, sql: string)
    ensures Print(Command(id, sql, None, Beginning)) == "REGISTER QUERY " + id + " AS " + sql
  {
    RegroupPrint(Command(id, sql, None, Beginning));
    assert PrintTail(None, Beginning) == [];
    assert "REGISTER QUERY " + id + " AS " + sql + [] == "REGISTER QUERY " + id + " AS " + sql;
  }

  /** `FROM BEGINNING` is not a clause of the pattern: it stays part of the SQL. */
  lemma FromBeginningStaysInSql(id: string, sql: string)
    requires IsWord(id) && sql != [] && Trimmed(sql) && '\n' !in sql
    requires !Contains(ToUpper(sql + " FROM BEGINNING"), "FROM NOW")
    ensures var whole := sql + " FROM BEGINNING";
            ParseRegister("REGISTER QUERY " + id + " AS " + whole) == Some(Command(id, whole, None, Beginning))
  {
    var whole := sql + " FROM BEGINNING";
    BeginningEnds(sql);
    BeginningTrimmed(sql);
    RegisterRoundTripIff(Command(id, whole, None, Beginning));
    PrintPlain(id, whole);
  }

  // ---- what an accepted line says ----

  lemma TailStart(s: string)
    requires HasTail(s)
    ensures s == [] || StartsWithSpace(s)
  {
  }

  /** The body's tokens are the group's followed by the tail's, and no shorter group leaves a tail. */
  lemma AcceptedBody(s: string) returns (b: Split)
    requires SplitBody(s, PrefixLength(s, RegexSpace), HasTail).Split?
    ensures b == SplitBody(s, PrefixLength(s, RegexSpace), HasTail)
    ensures b.group != [] && '\n' !in b.group && Tokens(s) == Tokens(b.group) + Tokens(b.rest)
    ensures |b.group| + |b.rest| <= |s| && s[|s| - |b.group| - |b.rest|..] == b.group + b.rest
    ensures forall k | 1 <= k < |b.group| :: !HasTail(b.group[k..] + b.rest)
  {
    var gap := PrefixLength(s, RegexSpace);
    b := SplitBody(s, gap, HasTail);
    var k := SplitBodyCut(s, gap, HasTail);
    SplitBodyOneLine(s, gap, HasTail);
    TokensSkipAll(s, k);
    TailStart(b.rest);
    TokensConcat(b.group, b.rest);
    GroupIsShortest(s[k..], b.group, b.rest, HasTail);
  }

  lemma GroupIsShortest(s: string, group: string, rest: string, follows: string -> bool)
    requires s == group + rest && |group| == LazySplit(s, 1, follows)
    ensures forall k | 1 <= k < |group| :: !follows(group[k..] + rest)
  {
    LazySplitShortest(s, 1, follows);
    forall k | 1 <= k < |group| ensures !follows(group[k..] + rest) {
      assert s[k..] == group[k..] + rest;
    }
  }

  lemma HeadTokens(s: string)
    requires Peel(s).Peeled? && Peel(Peel(s).rest).Peeled?
    ensures Tokens(s) == [Peel(s).token, Peel(Peel(s).rest).token] + Tokens(Peel(Peel(s).rest).rest)
    ensures StartsWithSpace(s)
  {
    PeelTokens(s);
    PeelTokens(Peel(s).rest);
    TwoAhead(Peel(s).token, Peel(Peel(s).rest).token, Tokens(Peel(Peel(s).rest).rest));
  }

  /**
   * An accepted line is REGISTER QUERY, the word id, AS, the SQL and a tail: its tokens are exactly
   * these in this order, the tail spells one of the four clause forms and names the cursor, and the
   * SQL is the shortest text that leaves such a tail.
   */
  lemma AcceptedLine(line: string) returns (as_: string, group: string, rest: string)
    requires ParseRegister(line).Some?
    ensures |line| >= 14 && ToUpper(line[..14]) == "REGISTER QUERY" && StartsWithSpace(line[14..])
            && ToUpper(as_) == "AS"
    ensures var c := ParseRegister(line).value;
            && IsWord(c.id) && c.sql == TrimSpace(group) && c.mode == ModeRead(line)
            && Tokens(line[14..]) == [c.id, as_] + (Tokens(group) + Tokens(rest))
            && c.cursor == if |Tokens(rest)| >= 3 then Some(Tokens(rest)[2]) else None
    ensures TailTokens(Tokens(rest)) && group != [] && '\n' !in group
    ensures forall k | 1 <= k < |group| :: !HasTail(group[k..] + rest)
  {
    var s := line[14..];
    var body := Peel(Peel(s).rest).rest;
    as_ := Peel(Peel(s).rest).token;
    HeadTokens(s);
    var b := AcceptedBody(body);
    group, rest := b.group, b.rest;
    TailStart(rest);
    TailIff(rest);
  }
}
