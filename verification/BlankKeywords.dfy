/** Blank-separated keywords of normalized text, found again in the original. */
module BlankKeywords {
  import opened Text
  import opened SqlText
  import opened GroupBy

  /** The keyword, in any letter case, stands right after position `i`, between white space. */
  predicate Stands(s: string, k: string, i: int)
  {
    && 0 <= i && i + |k| + 2 <= |s|
    && RegexSpace(s[i]) && RegexSpace(s[i + 1 + |k|])
    && forall d | 0 <= d < |k| :: UpperChar(s[i + 1 + d]) == k[d]
  }

  /** Something visible stands between the two positions. */
  predicate Sees(s: string, lo: int, hi: int)
    requires 0 <= lo && hi <= |s|
  {
    exists j | lo <= j < hi :: Visible(s[j])
  }

  /** The keyword stands with something visible on both sides. */
  predicate Inner(s: string, k: string, i: int)
  {
    Stands(s, k, i) && Sees(s, 0, i) && Sees(s, i + |k| + 2, |s|)
  }

  predicate Keyword(k: string)
  {
    k != [] && ToUpper(k) == k && forall i | 0 <= i < |k| :: !RegexSpace(k[i])
  }

  function Blanked(k: string): string
  {
    " " + (k + " ")
  }

  // ---- letter case ----

  lemma UpperVisible(s: string, lo: int, hi: int)
    requires 0 <= lo && hi <= |s|
    ensures Sees(ToUpper(s), lo, hi) <==> Sees(s, lo, hi)
  {
    forall j | lo <= j < hi ensures Visible(ToUpper(s)[j]) <==> Visible(s[j]) {
    }
    if Sees(s, lo, hi) {
      var j :| lo <= j < hi && Visible(s[j]);
      assert Visible(ToUpper(s)[j]);
    }
  }

  lemma InnerUpper(s: string, k: string, i: int)
    ensures Inner(ToUpper(s), k, i) <==> Inner(s, k, i)
  {
    if 0 <= i && i + |k| + 2 <= |s| {
      UpperVisible(s, 0, i);
      UpperVisible(s, i + |k| + 2, |s|);
    }
  }

  // ---- collapsing ----

  /** Collapsing keeps the visible characters, and only those besides white space. */
  lemma {:induction false} CollapseHas(s: string, x: char)
    requires !RegexSpace(x)
    ensures x in Collapse(s) <==> x in s
  {
    if s != [] {
      CollapseHas(s[1..], x);
      assert s == [s[0]] + s[1..];
    }
  }

  lemma CollapseSees(s: string)
    ensures Sees(Collapse(s), 0, |Collapse(s)|) <==> Sees(s, 0, |s|)
  {
    var c := Collapse(s);
    if Sees(c, 0, |c|) {
      var j :| 0 <= j < |c| && Visible(c[j]);
      CollapseHas(s, c[j]);
    }
    if Sees(s, 0, |s|) {
      var j :| 0 <= j < |s| && Visible(s[j]);
      CollapseHas(s, s[j]);
      var i :| 0 <= i < |c| && c[i] == s[j];
    }
  }

  lemma {:induction false} CollapseLast(u: string)
    ensures u != [] ==>
              && Collapse(u) != []
              && Collapse(u)[|Collapse(u)| - 1] == if RegexSpace(u[|u| - 1]) then ' ' else u[|u| - 1]
  {
    if |u| > 1 {
      CollapseLast(u[1..]);
    }
  }

  lemma StandingWord(u: string, k: string, i: int)
    requires ToUpper(u) == u && Stands(u, k, i)
    ensures u[i + 1..i + 1 + |k|] == k
  {
    forall d | 0 <= d < |k| ensures u[i + 1 + d] == k[d] {
      assert ToUpper(u)[i + 1 + d] == u[i + 1 + d];
    }
  }

  /** Where a standing keyword is found after collapsing. */
  lemma StandsCollapsed(u: string, k: string, i: int)
    requires ToUpper(u) == u && Keyword(k) && Stands(u, k, i)
    ensures var a, b := Collapse(u[..i + 1]), Collapse(u[i + 1 + |k|..]);
            && a != [] && b != [] && a[|a| - 1] == ' ' && b[0] == ' ' && Collapse(u) == a + (k + b)
  {
    var a, b := u[..i + 1], u[i + 1 + |k|..];
    StandingWord(u, k, i);
    assert u == a + (k + b);
    CollapseWord(k, b);
    CollapseConcat(a, k + b);
    CollapseLast(a);
    CollapseIsNormal(b);
    assert Collapse(b)[0] in Collapse(b);
  }

  lemma AtPieces(a: string, k: string, b: string)
    requires a != [] && b != [] && a[|a| - 1] == ' ' && b[0] == ' '
    ensures At(a + (k + b), Blanked(k), |a| - 1)
  {
    var s := a + (k + b);
    assert s == a[..|a| - 1] + (Blanked(k) + b[1..]);
  }

  lemma PiecesAt(s: string, k: string, c: int)
    requires At(s, Blanked(k), c)
    ensures var b := s[c + 1 + |k|..]; s == s[..c + 1] + (k + b) && s[c] == ' ' && b != [] && b[0] == ' '
  {
    var sub := Blanked(k);
    assert s == s[..c] + (sub + s[c + |sub|..]);
    AtChars(s, sub, c, 0);
    AtChars(s, sub, c, |sub| - 1);
    assert s[c..c + |sub|][1..1 + |k|] == k;
  }

  /** Every occurrence after collapsing comes from a standing keyword. */
  lemma StandsUncollapsed(u: string, k: string, c: int) returns (i: nat)
    requires Keyword(k) && ToUpper(u) == u && At(Collapse(u), Blanked(k), c)
    ensures Stands(u, k, i) && |Collapse(u[..i + 1])| == c + 1
  {
    var t := Collapse(u);
    var b := t[c + 1 + |k|..];
    PiecesAt(t, k, c);
    var n := CollapseUncut(u, t[..c + 1], k + b);
    i := n - 1;
    CollapseLast(u[..n]);
    assert t[..c + 1][c] == ' ';
    WordUncollapsed(u, n, k, b);
  }

  lemma WordUncollapsed(u: string, n: nat, k: string, b: string)
    requires Keyword(k) && ToUpper(u) == u && n <= |u| && Collapse(u[n..]) == k + b && b != [] && b[0] == ' '
    ensures n + |k| < |u| && RegexSpace(u[n + |k|]) && forall d | 0 <= d < |k| :: UpperChar(u[n + d]) == k[d]
  {
    var rest := u[n..];
    var m := CollapseUncut(rest, k, b);
    CollapsedWord(rest[..m]);
    CollapseIsNormal(rest[m..]);
    assert rest[m] == rest[m..][0];
    forall d | 0 <= d < |k| ensures UpperChar(u[n + d]) == k[d] {
      assert rest[..m][d] == u[n + d];
      assert ToUpper(u)[n + d] == u[n + d];
    }
  }

  /** Later keywords are found later. */
  lemma StandsOrder(u: string, k: string, i: int, j: int)
    requires ToUpper(u) == u && Keyword(k) && Stands(u, k, i) && Stands(u, k, j) && i < j
    ensures |Collapse(u[..i + 1])| < |Collapse(u[..j + 1])|
  {
    StandingWord(u, k, i);
    assert u[i + 1] == u[i + 1..i + 1 + |k|][0] == k[0];
    assert i + 1 < j + 1 by {
      assert RegexSpace(u[j]);
    }
    var a, b := u[..i + 1], u[i + 1..j + 1];
    assert u[..j + 1] == a + b && b[0] == u[i + 1];
    CollapseConcat(a, b);
    CollapseLast(b);
  }

  // ---- trimming ----

  /** What trimming cuts off at the left. */
  function Margin(s: string): (l: nat)
    ensures l <= |s|
  {
    |s| - |TrimLeft(s)|
  }

  lemma TrimCut(s: string)
    ensures var l, t := Margin(s), TrimSpace(s);
            && l + |t| <= |s| && t == s[l..l + |t|] && Trimmed(t)
            && (forall j | 0 <= j < l :: Space(s[j])) && (forall j | l + |t| <= j < |s| :: Space(s[j]))
  {
    TrimLeftCuts(s);
    var x := TrimLeft(s);
    TrimRightCuts(x);
    TrimIsTrimmed(s);
    var l, t := Margin(s), TrimSpace(s);
    assert x == s[l..] && t == x[..|t|];
    forall j | l + |t| <= j < |s| ensures Space(s[j]) {
      assert s[j] == x[j - l];
    }
  }

  predicate InnerAt(s: string, sub: string, c: int)
  {
    At(s, sub, c) && Sees(s, 0, c) && Sees(s, c + |sub|, |s|)
  }

  lemma AtSlice(s: string, l: nat, t: string, sub: string, m: int)
    requires l + |t| <= |s| && t == s[l..l + |t|]
    ensures At(t, sub, m) <==> m >= 0 && m + |sub| <= |t| && At(s, sub, l + m)
  {
    if m >= 0 && m + |sub| <= |t| {
      SliceOfSlice(s, l, |t|, m, |sub|);
    }
  }

  lemma SliceOfSlice(s: string, l: nat, n: nat, m: nat, k: nat)
    requires l + n <= |s| && m + k <= n
    ensures s[l..l + n][m..m + k] == s[l + m..l + m + k]
  {
    var a, b := s[l..l + n][m..m + k], s[l + m..l + m + k];
    forall d | 0 <= d < k ensures a[d] == b[d] {
      assert a[d] == s[l..l + n][m + d] == s[l + (m + d)];
    }
  }

  lemma TrimInner(s: string, k: string, m: int)
    ensures At(TrimSpace(s), Blanked(k), m) <==> m >= 0 && InnerAt(s, Blanked(k), Margin(s) + m)
  {
    var l, t, sub := Margin(s), TrimSpace(s), Blanked(k);
    TrimCut(s);
    AtSlice(s, l, t, sub, m);
    if At(t, sub, m) {
      AtChars(t, sub, m, 0);
      AtChars(t, sub, m, |sub| - 1);
      assert t[0] == s[l] && t[|t| - 1] == s[l + |t| - 1];
      assert m > 0 && m + |sub| < |t|;
    }
  }

  // ---- the keyword in normalized text and in the original ----

  lemma InnerFound(s: string, k: string, i: int)
    requires Keyword(k) && Inner(s, k, i)
    ensures var c := Collapse(ToUpper(s));
            var m := |Collapse(ToUpper(s)[..i + 1])| - 1 - Margin(c);
            m >= 0 && At(NormalizeSQL(s), Blanked(k), m)
  {
    var u := ToUpper(s);
    var c, a := Collapse(u), Collapse(u[..i + 1]);
    ToUpperIdempotent(s);
    InnerUpper(s, k, i);
    InnerCollapsed(u, k, i);
    TrimmedFound(c, k, |a| - 1);
  }

  lemma TrimmedFound(c: string, k: string, n: int)
    requires InnerAt(c, Blanked(k), n)
    ensures n >= Margin(c) && At(TrimSpace(c), Blanked(k), n - Margin(c))
  {
    TrimCut(c);
    TrimInner(c, k, n - Margin(c));
  }

  lemma InnerCollapsed(u: string, k: string, i: int)
    requires ToUpper(u) == u && Keyword(k) && Stands(u, k, i)
    ensures InnerAt(Collapse(u), Blanked(k), |Collapse(u[..i + 1])| - 1) <==> Inner(u, k, i)
  {
    var x, y := u[..i + 1], u[i + 1 + |k|..];
    StandsCollapsed(u, k, i);
    CollapseSees(x);
    CollapseSees(y);
    SidesSeen(u, k, i, x, y);
    PiecesInner(Collapse(x), k, Collapse(y));
  }

  lemma SidesSeen(u: string, k: string, i: int, x: string, y: string)
    requires Stands(u, k, i) && x == u[..i + 1] && y == u[i + 1 + |k|..]
    ensures (Sees(x, 0, |x|) <==> Sees(u, 0, i)) && (Sees(y, 0, |y|) <==> Sees(u, i + |k| + 2, |u|))
  {
    PartSeen(u, x, i);
    RestSeen(u, i + 1 + |k|, y);
  }

  lemma PiecesInner(a: string, k: string, b: string)
    requires a != [] && b != [] && a[|a| - 1] == ' ' && b[0] == ' '
    ensures InnerAt(a + (k + b), Blanked(k), |a| - 1) <==> Sees(a, 0, |a|) && Sees(b, 0, |b|)
  {
    var s := a + (k + b);
    AtPieces(a, k, b);
    PartSeen(s, a, |a| - 1);
    assert s[|a| + |k|..] == b;
    RestSeen(s, |a| + |k|, b);
  }

  /** A last blank shows nothing. */
  lemma PartSeen(s: string, part: string, n: nat)
    requires |part| == n + 1 && part <= s && Space(s[n])
    ensures Sees(part, 0, |part|) <==> Sees(s, 0, n)
  {
    if Sees(part, 0, |part|) {
      var j :| 0 <= j < |part| && Visible(part[j]);
      assert part[j] == s[j];
    }
    if Sees(s, 0, n) {
      var j :| 0 <= j < n && Visible(s[j]);
      assert part[j] == s[j];
    }
  }

  lemma RestSeen(s: string, lo: nat, rest: string)
    requires lo < |s| && rest == s[lo..] && Space(s[lo])
    ensures Sees(rest, 0, |rest|) <==> Sees(s, lo + 1, |s|)
  {
    if Sees(rest, 0, |rest|) {
      var j :| 0 <= j < |rest| && Visible(rest[j]);
      assert rest[j] == s[lo + j];
    }
    if Sees(s, lo + 1, |s|) {
      var j :| lo + 1 <= j < |s| && Visible(s[j]);
      assert rest[j - lo] == s[j];
    }
  }

  lemma FoundInner(s: string, k: string, m: int) returns (i: nat)
    requires Keyword(k) && At(NormalizeSQL(s), Blanked(k), m)
    ensures Inner(s, k, i) && |Collapse(ToUpper(s)[..i + 1])| - 1 - Margin(Collapse(ToUpper(s))) == m
  {
    var u := ToUpper(s);
    var c := Collapse(u);
    ToUpperIdempotent(s);
    TrimInner(c, k, m);
    i := StandsUncollapsed(u, k, Margin(c) + m);
    InnerCollapsed(u, k, i);
    InnerUpper(s, k, i);
  }

  /** Normalized text holds the blank-separated keyword iff it stands, in any form, inside the original. */
  lemma BlankKeywordIff(s: string, k: string)
    requires Keyword(k)
    ensures Contains(NormalizeSQL(s), Blanked(k)) <==> exists i :: Inner(s, k, i)
  {
    var n := NormalizeSQL(s);
    IndexFirst(n, Blanked(k));
    if Contains(n, Blanked(k)) {
      var i := FoundInner(s, k, Index(n, Blanked(k)));
    }
    if i :| Inner(s, k, i) {
      InnerFound(s, k, i);
    }
  }

  /** The keyword that normalized text shows first is the first one inside the original. */
  lemma FirstInner(s: string, k: string) returns (i: nat)
    requires Keyword(k) && Contains(NormalizeSQL(s), Blanked(k))
    ensures Inner(s, k, i) && forall j | Inner(s, k, j) :: i <= j
    ensures |Collapse(ToUpper(s)[..i + 1])| - 1 - Margin(Collapse(ToUpper(s))) == Index(NormalizeSQL(s), Blanked(k))
  {
    var n, u := NormalizeSQL(s), ToUpper(s);
    IndexFirst(n, Blanked(k));
    i := FoundInner(s, k, Index(n, Blanked(k)));
    ToUpperIdempotent(s);
    forall j | Inner(s, k, j) ensures i <= j {
      InnerFound(s, k, j);
      InnerUpper(s, k, i);
      InnerUpper(s, k, j);
      if j < i {
        StandsOrder(u, k, j, i);
      }
    }
  }

  // ---- a keyword that only needs white space behind it ----

  /** The keyword, in any letter case, stands at `i` before white space and something visible. */
  predicate Leads(s: string, k: string, i: int)
  {
    && 0 <= i && i + |k| + 1 <= |s| && RegexSpace(s[i + |k|])
    && (forall d | 0 <= d < |k| :: UpperChar(s[i + d]) == k[d])
    && Sees(s, i + |k| + 1, |s|)
  }

  lemma LeadsUpper(s: string, k: string, i: int)
    ensures Leads(ToUpper(s), k, i) <==> Leads(s, k, i)
  {
    if 0 <= i && i + |k| + 1 <= |s| {
      UpperVisible(s, i + |k| + 1, |s|);
    }
  }

  predicate LeadsAt(s: string, sub: string, c: int)
  {
    At(s, sub, c) && Sees(s, c + |sub|, |s|)
  }

  lemma LeadingWord(u: string, k: string, i: int)
    requires ToUpper(u) == u && Leads(u, k, i)
    ensures u == u[..i] + (k + u[i + |k|..])
  {
    forall d | 0 <= d < |k| ensures u[i + d] == k[d] {
      assert ToUpper(u)[i + d] == u[i + d];
    }
    assert u[i..i + |k|] == k;
  }

  lemma LeadsSplit(a: string, k: string, b: string)
    requires Keyword(k) && b != [] && RegexSpace(b[0])
    ensures Collapse(a + (k + b)) == Collapse(a) + (k + Collapse(b))
    ensures Collapse(b) != [] && Collapse(b)[0] == ' '
  {
    CollapseWord(k, b);
    CollapseConcat(a, k + b);
    CollapseIsNormal(b);
    assert Collapse(b)[0] in Collapse(b);
  }

  lemma LeadsCollapsed(u: string, k: string, i: int)
    requires ToUpper(u) == u && Keyword(k) && Leads(u, k, i)
    ensures LeadsAt(Collapse(u), k + " ", |Collapse(u[..i])|)
  {
    var a, b := u[..i], u[i + |k|..];
    LeadingWord(u, k, i);
    LeadsSplit(a, k, b);
    CollapseSees(b);
    RestSeen(u, i + |k|, b);
    LeadsPieces(Collapse(a), k, Collapse(b));
  }

  lemma LeadsPieces(a: string, k: string, b: string)
    requires b != [] && b[0] == ' '
    ensures LeadsAt(a + (k + b), k + " ", |a|) <==> Sees(b, 0, |b|)
  {
    LeadsHere(a, k, b);
    TailOf(a, k, b);
    RestSeen(a + (k + b), |a| + |k|, b);
  }

  lemma LeadsHere(a: string, k: string, b: string)
    requires b != [] && b[0] == ' '
    ensures At(a + (k + b), k + " ", |a|)
  {
    assert a + (k + b) == a + ((k + " ") + b[1..]);
  }

  lemma TailOf(a: string, k: string, b: string)
    ensures (a + (k + b))[|a| + |k|..] == b
  {
  }

  lemma LeadsParts(t: string, k: string, c: int)
    requires At(t, k + " ", c)
    ensures var b := t[c + |k|..]; t == t[..c] + (k + b) && b != [] && b[0] == ' '
  {
    var sub := k + " ";
    AtChars(t, sub, c, |k|);
    assert t == t[..c] + (sub + t[c + |sub|..]);
    assert t[c..c + |sub|][..|k|] == k;
  }

  lemma LeadsUncollapsed(u: string, k: string, c: int) returns (i: nat)
    requires Keyword(k) && ToUpper(u) == u && LeadsAt(Collapse(u), k + " ", c)
    ensures Leads(u, k, i)
  {
    LeadsParts(Collapse(u), k, c);
    i := LeadsFound(u, Collapse(u)[..c], k, Collapse(u)[c + |k|..]);
  }

  lemma LeadsFound(u: string, x: string, k: string, b: string) returns (i: nat)
    requires Keyword(k) && ToUpper(u) == u && Collapse(u) == x + (k + b) && b != [] && b[0] == ' '
    requires LeadsAt(x + (k + b), k + " ", |x|)
    ensures Leads(u, k, i)
  {
    LeadsPieces(x, k, b);
    i := CollapseUncut(u, x, k + b);
    WordUncollapsed(u, i, k, b);
    RestUncollapsed(u, i, k, b);
  }

  lemma RestUncollapsed(u: string, i: nat, k: string, b: string)
    requires Keyword(k) && ToUpper(u) == u && i <= |u| && Collapse(u[i..]) == k + b && b != [] && b[0] == ' '
    ensures i + |k| < |u| && (Sees(b, 0, |b|) <==> Sees(u, i + |k| + 1, |u|))
  {
    WordUncollapsed(u, i, k, b);
    var rest := u[i..];
    var m := CollapseUncut(rest, k, b);
    CollapsedWord(rest[..m]);
    CollapseSees(rest[m..]);
    assert rest[m..] == u[i + |k|..];
    RestSeen(u, i + |k|, rest[m..]);
  }

  lemma TrimLeads(s: string, k: string, m: int)
    requires Keyword(k) && forall i | 0 <= i < |k| :: Visible(k[i])
    ensures At(TrimSpace(s), k + " ", m) <==> m >= 0 && LeadsAt(s, k + " ", Margin(s) + m)
  {
    var l, t, sub := Margin(s), TrimSpace(s), k + " ";
    TrimCut(s);
    AtSlice(s, l, t, sub, m);
    if At(t, sub, m) {
      AtChars(t, sub, m, |k|);
      assert t[|t| - 1] == s[l + |t| - 1];
      assert m + |sub| < |t|;
    }
  }

  /** Normalized text holds the keyword before a blank iff it leads some visible text in the original. */
  lemma LeadingKeywordIff(s: string, k: string)
    requires Keyword(k) && forall i | 0 <= i < |k| :: Visible(k[i])
    ensures Contains(NormalizeSQL(s), k + " ") <==> exists i :: Leads(s, k, i)
  {
    var n, u := NormalizeSQL(s), ToUpper(s);
    var c := Collapse(u);
    ToUpperIdempotent(s);
    IndexFirst(n, k + " ");
    if Contains(n, k + " ") {
      TrimLeads(c, k, Index(n, k + " "));
      var i := LeadsUncollapsed(u, k, Margin(c) + Index(n, k + " "));
      LeadsUpper(s, k, i);
    }
    if i :| Leads(s, k, i) {
      LeadsUpper(s, k, i);
      LeadsCollapsed(u, k, i);
      LeadsTrimmed(c, k, |Collapse(u[..i])|);
    }
  }

  lemma LeadsTrimmed(c: string, k: string, m: nat)
    requires Keyword(k) && (forall i | 0 <= i < |k| :: Visible(k[i])) && LeadsAt(c, k + " ", m)
    ensures m >= Margin(c) && At(TrimSpace(c), k + " ", m - Margin(c))
  {
    TrimCut(c);
    AtChars(c, k + " ", m, 0);
    TrimLeads(c, k, m - Margin(c));
  }
}
