/** Short statements in capitals: why they are normal, printable and free of forbidden words. */
module ShortTexts {
  import opened Rows
  import opened Text
  import opened SqlText
  import opened StreamPlan
  import opened ParseRoundTrip

  lemma LetterMissing(s: string, sub: string, d: nat)
    requires d < |sub| && sub[d] !in s
    ensures !Contains(s, sub)
  {
    forall j ensures !At(s, sub, j) {
      AtChars(s, sub, j, d);
    }
    IndexFirst(s, sub);
  }

  lemma NoKeyword(s: string, k: string)
    requires k != [] && k[0] !in s
    ensures !HasKeyword(s, k)
  {
    forall i | 0 <= i <= |s| ensures !At(s, k, i) {
      AtChars(s, k, i, 0);
    }
  }

  lemma NoGroupBy(s: string)
    requires 'G' !in s
    ensures !HasGroupBy(s)
  {
    forall i, j | 0 <= i < j <= |s| - 2 ensures !GroupByAt(s, i, j) {
      AtChars(s, "GROUP", i, 0);
    }
  }

  /** Without these four letters a text holds none of the forbidden keywords. */
  predicate Plain(s: string)
  {
    'J' !in s && 'G' !in s && 'D' !in s && 'V' !in s
  }

  /** In a plain normalized text only the scan can object. */
  lemma PlainVerdict(n: string)
    requires Normal(n) && Plain(n)
    ensures ValidateSQL(n) == if Subquery(n) then Rejected(ForbiddenSubquery) else Accepted
  {
    NormalFixed(n);
    NoKeyword(n, "JOIN");
    NoGroupBy(n);
    NoKeyword(n, "DISTINCT");
    forall i | 0 <= i <= |n| ensures !At(n, "OVER", i) {
      AtChars(n, "OVER", i, 1);
    }
  }

  lemma NoBlankKeywords(p: string)
    requires 'F' !in p && 'W' !in p
    ensures !HasBlankKeyword(p, "FROM") && !HasBlankKeyword(p, "WHERE")
  {
    LetterMissing(" " + p + " ", " " + "FROM" + " ", 1);
    LetterMissing(" " + p + " ", " " + "WHERE" + " ", 1);
  }

  lemma SameVerdict(a: string, b: string)
    requires NormalizeSQL(a) == NormalizeSQL(b)
    ensures ValidateSQL(a) == ValidateSQL(b)
  {
  }

  lemma NoWhereText(sql: string)
    requires Index(ToUpper(sql), " WHERE ") == -1
    ensures WhereText(sql) == ""
  {
  }

  lemma SpacedConcat(a: string, b: string)
    requires Spaced(a) && Spaced(b)
    requires a == [] || b == [] || !RegexSpace(a[|a| - 1]) || !RegexSpace(b[0])
    ensures Spaced(a + b)
  {
    ToUpperConcat(a, b);
  }

  lemma SelectPieces()
    ensures Spaced("SELECT A ") && Spaced("FROM ")
  {
    UpperIsSame("SELECT A ");
    UpperIsSame("FROM ");
  }

  lemma SelectPiece()
    ensures Spaced("SELECT A FROM ")
  {
    SelectPieces();
    SpacedConcat("SELECT A ", "FROM ");
    assert "SELECT A FROM " == "SELECT A " + "FROM ";
  }

  lemma WherePiece()
    ensures Spaced("T WHERE ")
  {
    UpperIsSame("T WHERE ");
  }

  /** `SELECT A FROM T` and a normal filter make a normal statement. */
  lemma StatementIsNormal(filter: string)
    requires Normal(filter) && filter != []
    ensures Normal(Print("A", "T", Some(filter)))
    ensures Print("A", "T", Some(filter)) == "SELECT A FROM T WHERE " + filter
  {
    SelectPiece();
    WherePiece();
    SpacedConcat("T WHERE ", filter);
    EndsTrimmed("T WHERE ", filter);
    SpacedConcat("SELECT A FROM ", "T WHERE " + filter);
    EndsTrimmed("SELECT A FROM ", "T WHERE " + filter);
    StatementRegroups(filter);
  }

  lemma EndsTrimmed(a: string, b: string)
    requires a != [] && !Space(a[0]) && b != [] && Trimmed(b)
    ensures Trimmed(a + b)
  {
  }

  lemma StatementRegroups(filter: string)
    ensures "SELECT A FROM " + ("T WHERE " + filter) == "SELECT A FROM T WHERE " + filter
    ensures Print("A", "T", Some(filter)) == "SELECT A FROM T WHERE " + filter
  {
  }

  lemma StatementIsPrintable(filter: string)
    ensures Printable("A", "T", Some(filter))
  {
    UpperIsSame("A");
    UpperIsSame("T");
    CollapseOfNormal("A");
    NoBlankKeywords("A");
  }

  lemma StatementParses(filter: string)
    requires Trimmed(filter)
    ensures ParseSQL(Print("A", "T", Some(filter))) == Parsed("T", "A", filter)
  {
    StatementIsPrintable(filter);
    ParseInvertsPrintingIff("A", "T", Some(filter));
    TrimOfTrimmed(filter);
  }

  lemma HeadIsPlain()
    ensures Plain("SELECT A FROM T WHERE ")
  {
  }

  lemma FromAt(rest: string)
    ensures Index("SELECT A FROM " + rest, " FROM ") == 8
  {
    LetterMissing(" " + "A" + " ", " " + "FROM" + " ", 1);
    FirstFrom("A", rest);
    assert "SELECT " + "A" + (" FROM " + rest) == "SELECT A FROM " + rest;
  }

  lemma NotSelect(s: string)
    requires s != [] && s[0] == 'B'
    ensures !SelectLeads(s)
  {
    StartsWithSelectIff(s);
    TrimKeepsHead(s);
    TrimRightCuts(s);
    assert TrimRight(s) != [] ==> TrimRight(s)[0] == 'B';
  }
}
