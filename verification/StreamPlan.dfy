/** The streaming compiler's front end: validation, the parenthesis scan, and clause extraction. */
module StreamPlan {
  import opened Text
  import opened SqlText
  import opened GroupBy

  datatype CompileError =
    | ForbiddenJoin | ForbiddenGroupBy | ForbiddenDistinct | ForbiddenWindowFunction | ForbiddenSubquery
    | NoFromClause | InvalidSQL | SingleTableQuery

  datatype Verdict = Accepted | Rejected(error: CompileError)

  /** `Panicked` is Go's run-time panic on a slice whose bounds are out of order or out of range. */
  datatype ParseResult =
    | Parsed(table: string, projection: string, whereClause: string)
    | Failed(error: CompileError)
    | Panicked

  // ---- the parenthesis scan ----

  /** Opening minus closing parentheses in the first `n` characters. */
  function Depth(s: string, n: nat): int
    requires n <= |s|
  {
    if n == 0 then 0
    else Depth(s, n - 1) + if s[n - 1] == '(' then 1 else if s[n - 1] == ')' then -1 else 0
  }

  /** The text after the first `(`; all of it when there is none. */
  function AfterFirstParen(s: string): string
  {
    s[Index(s, "(") + 1..]
  }

  /** Some `(` of the first `n` characters brings the running depth above zero. */
  predicate OpensBy(s: string, n: nat)
    requires n <= |s|
  {
    exists i | 0 <= i < n :: s[i] == '(' && Depth(s, i + 1) > 0
  }

  predicate StartsWithSelect(s: string)
  {
    HasPrefix(TrimSpace(s), "SELECT")
  }

  /** SELECT stands in the text with nothing but white space before it. */
  predicate SelectLeads(s: string)
  {
    exists k | 0 <= k <= |s| - 6 :: At(s, "SELECT", k) && forall j | 0 <= j < k :: Space(s[j])
  }

  lemma {:induction false} TrimLeftAt(s: string, k: nat)
    requires k < |s| && Visible(s[k]) && forall j | 0 <= j < k :: Space(s[j])
    ensures TrimLeft(s) == s[k..]
  {
    if k > 0 {
      TrimLeftAt(s[1..], k - 1);
      assert s[1..][k - 1..] == s[k..];
    }
  }

  lemma SelectStays(rest: string)
    ensures HasPrefix(TrimRight("SELECT" + rest), "SELECT")
  {
    TrimRightConcat("SELECT", rest);
  }

  /** The trimmed text starts with SELECT iff SELECT leads the text. */
  lemma StartsWithSelectIff(s: string)
    ensures StartsWithSelect(s) <==> SelectLeads(s)
  {
    if SelectLeads(s) {
      var k :| 0 <= k <= |s| - 6 && At(s, "SELECT", k) && forall j | 0 <= j < k :: Space(s[j]);
      AtChars(s, "SELECT", k, 0);
      TrimLeftAt(s, k);
      assert s[k..] == s[k..k + 6] + s[k + 6..] == "SELECT" + s[k + 6..];
      SelectStays(s[k + 6..]);
    }
    if StartsWithSelect(s) {
      var l, t := TrimLeft(s), TrimSpace(s);
      TrimLeftCuts(s);
      TrimRightCuts(l);
      var k := |s| - |l|;
      assert t[..6] == "SELECT";
      assert s[k..k + 6] == l[..6] == t[..6];
      assert At(s, "SELECT", k);
    }
  }

  /** The scan's closed form: only the text after the first `(` is ever inspected. */
  predicate ScanFindsSelect(s: string)
  {
    OpensBy(s, |s|) && StartsWithSelect(AfterFirstParen(s))
  }

  predicate Subquery(normalized: string)
  {
    var from := Index(normalized, " FROM ");
    from != -1 && ScanFindsSelect(normalized[from + 6..])
  }

  lemma OpensByStep(s: string, n: nat)
    requires n < |s|
    ensures OpensBy(s, n + 1) <==> OpensBy(s, n) || (s[n] == '(' && Depth(s, n + 1) > 0)
  {
  }

  method HasSubqueries(normalized: string) returns (found: bool)
    ensures found == Subquery(normalized)
    ensures found == HoldsScannedSelect(normalized)
  {
    var fromIdx := Index(normalized, " FROM ");
    if fromIdx == -1 {
      return false;
    }
    ScanFindsIff(normalized[fromIdx + 6..]);
    found := ScanForSelect(normalized[fromIdx + 6..]);
  }

  method InspectAfterFirstParen(afterFrom: string) returns (selects: bool)
    ensures selects == StartsWithSelect(AfterFirstParen(afterFrom))
  {
    var remaining := afterFrom[Index(afterFrom, "(") + 1..];
    selects := HasPrefix(TrimSpace(remaining), "SELECT");
  }

  method ScanForSelect(afterFrom: string) returns (found: bool)
    ensures found == FindsSelect(afterFrom)
  {
    ScanFindsIff(afterFrom);
    ghost var selects := StartsWithSelect(AfterFirstParen(afterFrom));
    var parenDepth := 0;
    for i := 0 to |afterFrom|
      invariant parenDepth == Depth(afterFrom, i)
      invariant OpensBy(afterFrom, i) ==> !selects
    {
      OpensByStep(afterFrom, i);
      if afterFrom[i] == '(' {
        parenDepth := parenDepth + 1;
        if parenDepth > 0 {
          var isSelect := InspectAfterFirstParen(afterFrom);
          if isSelect {
            assert OpensBy(afterFrom, |afterFrom|);
            return true;
          }
        }
      } else if afterFrom[i] == ')' {
        parenDepth := parenDepth - 1;
      }
    }
    return false;
  }

  predicate IsFirstParen(s: string, p: int)
  {
    0 <= p < |s| && s[p] == '(' && forall i | 0 <= i < p :: s[i] != '('
  }

  /** What the scan finds: more parentheses opened than closed somewhere, and SELECT right after the first. */
  predicate FindsSelect(s: string)
  {
    OpensMore(s) && exists p | 0 <= p < |s| :: IsFirstParen(s, p) && SelectLeads(s[p + 1..])
  }

  /** After the text's first FROM the scan finds a SELECT. */
  predicate HoldsScannedSelect(normalized: string)
  {
    Contains(normalized, " FROM ") && FindsSelect(normalized[Index(normalized, " FROM ") + 6..])
  }

  lemma FirstParen(after: string) returns (p: nat)
    requires OpensBy(after, |after|)
    ensures IsFirstParen(after, p) && AfterFirstParen(after) == after[p + 1..]
  {
    var k :| 0 <= k < |after| && after[k] == '(' && Depth(after, k + 1) > 0;
    assert after[k..k + 1] == "(";
    assert At(after, "(", k);
    IndexFirst(after, "(");
    p := Index(after, "(");
    assert after[p..p + 1] == "(";
    assert after[p..p + 1][0] == after[p];
    forall i | 0 <= i < p ensures after[i] != '(' {
      assert !At(after, "(", i);
      assert after[i..i + 1] == [after[i]];
    }
  }

  lemma ScanFindsIff(s: string)
    ensures ScanFindsSelect(s) <==> FindsSelect(s)
  {
    OpensByIff(s);
    if OpensBy(s, |s|) {
      var p := FirstParen(s);
      StartsWithSelectIff(s[p + 1..]);
      assert forall q | IsFirstParen(s, q) :: q == p;
    }
  }

  /** A positive answer always points at a parenthesised SELECT after the first FROM. */
  lemma SubqueryWitness(normalized: string) returns (i: nat)
    requires Subquery(normalized)
    ensures Index(normalized, " FROM ") + 6 <= i < |normalized| && normalized[i] == '('
    ensures SelectLeads(normalized[i + 1..])
  {
    var from := Index(normalized, " FROM ");
    var after := normalized[from + 6..];
    var p := FirstParen(after);
    i := from + 6 + p;
    assert normalized[i + 1..] == after[p + 1..];
    StartsWithSelectIff(after[p + 1..]);
  }

  /** With no `)` before the first `(`, the answer depends only on what follows that first `(`. */
  lemma SubqueryIffFirstParen(normalized: string, p: nat)
    requires var from := Index(normalized, " FROM ");
             && from != -1 && from + 6 + p < |normalized| && normalized[from + 6 + p] == '('
             && forall k | from + 6 <= k < from + 6 + p :: normalized[k] != '(' && normalized[k] != ')'
    ensures Subquery(normalized) <==> SelectLeads(normalized[Index(normalized, " FROM ") + 6 + p + 1..])
  {
    var from := Index(normalized, " FROM ");
    var after := normalized[from + 6..];
    forall k | 0 <= k <= p ensures Depth(after, k) == 0 {
      FlatDepth(after, k);
    }
    assert after[p..p + 1] == "(";
    forall j | 0 <= j < p ensures !At(after, "(", j) {
      assert after[j] == normalized[from + 6 + j];
      assert after[j] != '(' && after[j..j + 1][0] == after[j];
    }
    IndexIs(after, "(", p);
    assert after[p] == '(' && Depth(after, p + 1) == 1;
    assert OpensBy(after, |after|);
    assert after[p + 1..] == normalized[from + 6 + p + 1..];
    StartsWithSelectIff(after[p + 1..]);
  }

  lemma {:induction false} FlatDepth(s: string, n: nat)
    requires n <= |s| && forall k | 0 <= k < n :: s[k] != '(' && s[k] != ')'
    ensures Depth(s, n) == 0
  {
    if n > 0 {
      FlatDepth(s, n - 1);
    }
  }

  /** What the scan is meant to find: some parenthesis opens a SELECT. */
  predicate HoldsNestedSelect(text: string)
  {
    exists i | 0 <= i < |text| :: text[i] == '(' && SelectLeads(text[i + 1..])
  }

  /** Somewhere more parentheses have been opened than closed. */
  predicate OpensMore(s: string)
  {
    exists n | 0 <= n <= |s| :: Depth(s, n) > 0
  }

  lemma {:induction false} PositiveDepthOpens(s: string, n: nat)
    requires n <= |s| && Depth(s, n) > 0
    ensures OpensBy(s, |s|)
  {
    if s[n - 1] != '(' {
      PositiveDepthOpens(s, n - 1);
    }
  }

  lemma OpensByIff(s: string)
    ensures OpensBy(s, |s|) <==> OpensMore(s)
  {
    if OpensMore(s) {
      var n :| 0 <= n <= |s| && Depth(s, n) > 0;
      PositiveDepthOpens(s, n);
    }
  }

  /**
   * The scan agrees with what it is meant to find exactly when a text with a nested SELECT anywhere
   * has, after its first FROM, one right after the first parenthesis there, and that part of the text
   * opens more parentheses than it closes at some point.
   */
  lemma SubqueryAgreesIff(normalized: string)
    ensures (Subquery(normalized) <==> HoldsNestedSelect(normalized))
            <==> (HoldsNestedSelect(normalized) ==>
                    && Contains(normalized, " FROM ")
                    && var after := normalized[Index(normalized, " FROM ") + 6..];
                       OpensMore(after) && exists p | 0 <= p < |after| ::
                         IsFirstParen(after, p) && SelectLeads(after[p + 1..]))
  {
    var from := Index(normalized, " FROM ");
    if from != -1 {
      ScanFindsIff(normalized[from + 6..]);
    }
    if Subquery(normalized) {
      var i := SubqueryWitness(normalized);
    }
  }

  // ---- validation ----

  function ValidateSQL(sql: string): Verdict
  {
    var normalized := NormalizeSQL(sql);
    if HasKeyword(normalized, "JOIN") then Rejected(ForbiddenJoin)
    else if HasGroupBy(normalized) then Rejected(ForbiddenGroupBy)
    else if HasKeyword(normalized, "DISTINCT") then Rejected(ForbiddenDistinct)
    else if HasKeyword(normalized, "OVER") then Rejected(ForbiddenWindowFunction)
    else if Subquery(normalized) then Rejected(ForbiddenSubquery)
    else Accepted
  }

  /** Letter case and the width of existing gaps never change the verdict. */
  lemma VerdictIgnoresLayout(a: string, a': string, ws: string, ws': string, b: string, b': string)
    requires ToUpper(a) == ToUpper(a') && ToUpper(b) == ToUpper(b')
    requires ws != [] && ws' != [] && (forall c | c in ws :: RegexSpace(c)) && (forall c | c in ws' :: RegexSpace(c))
    ensures ValidateSQL(a + ws + b) == ValidateSQL(a' + ws' + b')
  {
    NormalizeIgnoresLayout(a, a', ws, ws', b, b');
  }

  /** The verdict in full: the first of the forbidden words that the text has decides, then the scan. */
  lemma VerdictByWords(sql: string)
    ensures ValidateSQL(sql)
            == if Mentions(sql, "JOIN") then Rejected(ForbiddenJoin)
               else if MentionsGroupBy(sql) then Rejected(ForbiddenGroupBy)
               else if Mentions(sql, "DISTINCT") then Rejected(ForbiddenDistinct)
               else if Mentions(sql, "OVER") then Rejected(ForbiddenWindowFunction)
               else if HoldsScannedSelect(NormalizeSQL(sql)) then Rejected(ForbiddenSubquery)
               else Accepted
  {
    if Contains(NormalizeSQL(sql), " FROM ") {
      ScanFindsIff(NormalizeSQL(sql)[Index(NormalizeSQL(sql), " FROM ") + 6..]);
    }
    assert HasKeyword(NormalizeSQL(sql), "JOIN") <==> Mentions(sql, "JOIN") by { KeywordTestIsExact(sql, "JOIN"); }
    GroupByTestIsExact(sql);
    assert HasKeyword(NormalizeSQL(sql), "DISTINCT")
        <==> Mentions(sql, "DISTINCT") by { KeywordTestIsExact(sql, "DISTINCT"); }
    assert HasKeyword(NormalizeSQL(sql), "OVER") <==> Mentions(sql, "OVER") by { KeywordTestIsExact(sql, "OVER"); }
  }

  // ---- clause extraction ----

  datatype Slice = InRange(text: string) | OutOfRange

  /** Go's s[lo:hi]. */
  function GoSlice(s: string, lo: int, hi: int): Slice
  {
    if 0 <= lo <= hi <= |s| then InRange(s[lo..hi]) else OutOfRange
  }

  /** The text before an occurrence of " WHERE ", trimmed; the whole text when there is none. */
  function CutAtWhere(section: string, whereIdx: int): string
    requires -1 <= whereIdx <= |section|
  {
    if whereIdx == -1 then section else TrimSpace(section[..whereIdx])
  }

  /** The FROM target up to any WHERE is one table: no comma, not a parenthesis. */
  predicate SingleTable(fromSection: string)
  {
    var section := TrimSpace(fromSection);
    var target := CutAtWhere(section, Index(section, " WHERE "));
    !Contains(target, ",") && !HasPrefix(target, "(")
  }

  /** The fields of the FROM target in its original case. */
  function TableFields(fromSection: string): seq<string>
  {
    var section := TrimSpace(fromSection);
    Fields(CutAtWhere(section, Index(ToUpper(section), " WHERE ")))
  }

  function WhereText(sql: string): string
  {
    var whereIdx := Index(ToUpper(sql), " WHERE ");
    if whereIdx == -1 then "" else TrimSpace(sql[whereIdx + 7..])
  }

  /** The projection, cut from the original at offsets found in the normalized text. */
  function ProjectionSlice(sql: string, normalized: string, selectIdx: int, fromIdx: int): Slice
  {
    match GoSlice(normalized, selectIdx + 7, fromIdx)
    case OutOfRange => OutOfRange
    case InRange(middle) => GoSlice(sql, selectIdx + 7, selectIdx + 7 + |middle|)
  }

  function ParseSQL(sql: string): ParseResult
  {
    var normalized := NormalizeSQL(sql);
    var fromIdx := Index(normalized, " FROM ");
    if fromIdx == -1 then Failed(NoFromClause) else
    var selectIdx := Index(normalized, "SELECT ");
    if selectIdx == -1 then Failed(InvalidSQL) else
    match ProjectionSlice(sql, normalized, selectIdx, fromIdx)
    case OutOfRange => Panicked
    case InRange(projection) =>
      var fromInOriginal := Index(sql, " FROM ");
      if fromInOriginal == -1 then Failed(InvalidSQL)
      else if !SingleTable(normalized[fromIdx + 6..]) then Failed(SingleTableQuery)
      else
        var fields := TableFields(sql[fromInOriginal + 6..]);
        if fields == [] then Failed(InvalidSQL)
        else Parsed(fields[0], TrimSpace(projection), WhereText(sql))
  }

  /** Parsing panics exactly when the first "SELECT " ends past the first " FROM ". */
  lemma ParsePanicsIff(sql: string)
    ensures var n := NormalizeSQL(sql);
            ParseSQL(sql).Panicked?
            <==> Index(n, " FROM ") != -1 && Index(n, "SELECT ") != -1 && Index(n, "SELECT ") + 7 > Index(n, " FROM ")
  {
    NormalizeIsNormal(sql);
  }
}
