/** The GROUP BY test: normalization neither hides nor creates a match. */
module GroupBy {
  import opened Text
  import opened SqlText

  /** A match of the pattern, spelled out: what precedes it, the gap, and what follows it. */
  predicate Parts(s: string, a: string, ws: string, b: string)
  {
    && s == a + ("GROUP" + (ws + ("BY" + b)))
    && ws != [] && AllSpace(ws)
    && (a == [] || !WordChar(a[|a| - 1])) && (b == [] || !WordChar(b[0]))
  }

  lemma PartsAt(s: string, a: string, ws: string, b: string)
    requires Parts(s, a, ws, b)
    ensures var i, j := |a|, |a| + 5 + |ws|;
            && i < j <= |s| - 2
            && At(s, "GROUP", i) && (i == 0 || !WordChar(s[i - 1]))
            && GapBetween(s, i + 5, j) && At(s, "BY", j) && (j + 2 == |s| || !WordChar(s[j + 2]))
  {
    var i, j := |a|, |a| + 5 + |ws|;
    assert s[i..i + 5] == "GROUP" && s[j..j + 2] == "BY" && s[j + 2..] == b;
    forall k | i + 5 <= k < j ensures RegexSpace(s[k]) {
      assert s[k] == ws[k - i - 5];
    }
  }

  lemma PartsMatch(s: string, a: string, ws: string, b: string)
    requires Parts(s, a, ws, b)
    ensures HasGroupBy(s)
  {
    PartsAt(s, a, ws, b);
    var i, j := |a|, |a| + 5 + |ws|;
    assert s[i] == s[i..i + 5][0] && s[j + 1] == s[j..j + 2][1];
    assert GroupByAt(s, i, j);
  }

  lemma WordEdges(s: string, i: nat, j: nat)
    requires i + 5 < j <= |s| - 2 && GroupByAt(s, i, j)
    ensures i == 0 || !WordChar(s[i - 1])
    ensures j + 2 == |s| || !WordChar(s[j + 2])
  {
    assert s[i] == s[i..i + 5][0] && s[j + 1] == s[j..j + 2][1];
  }

  lemma GapPiece(s: string, i: nat, j: nat)
    requires i + 5 < j <= |s| - 2 && GroupByAt(s, i, j)
    ensures AllSpace(s[i + 5..j])
  {
  }

  lemma FivePieces(s: string, i: nat, j: nat)
    requires i + 5 <= j <= |s| - 2
    ensures s == s[..i] + (s[i..i + 5] + (s[i + 5..j] + (s[j..j + 2] + s[j + 2..])))
  {
  }

  lemma PartsHere(s: string, i: nat, j: nat)
    requires i + 5 < j <= |s| - 2 && GroupByAt(s, i, j)
    ensures Parts(s, s[..i], s[i + 5..j], s[j + 2..])
  {
    WordEdges(s, i, j);
    GapPiece(s, i, j);
    FivePieces(s, i, j);
  }

  lemma MatchParts(s: string) returns (a: string, ws: string, b: string)
    requires HasGroupBy(s)
    ensures Parts(s, a, ws, b)
  {
    var i, j :| 0 <= i < j <= |s| - 2 && GroupByAt(s, i, j);
    a, ws, b := s[..i], s[i + 5..j], s[j + 2..];
    PartsHere(s, i, j);
  }

  lemma PartsOf(s: string, a: string, g: string, ws: string, y: string, b: string)
    requires s == a + (g + (ws + (y + b))) && g == "GROUP" && y == "BY"
    requires ws != [] && AllSpace(ws)
    requires (a == [] || !WordChar(a[|a| - 1])) && (b == [] || !WordChar(b[0]))
    ensures Parts(s, a, ws, b)
  {
  }

  // ---- trimming ----

  lemma DropHead(c: char, s: string)
    requires Space(c)
    ensures HasGroupBy([c] + s) <==> HasGroupBy(s)
  {
    if HasGroupBy([c] + s) {
      var a, ws, b := MatchParts([c] + s);
      assert ([c] + s)[0] == c;
      assert a != [];
      assert ([c] + s)[1..] == s;
      assert (a + ("GROUP" + (ws + ("BY" + b))))[1..] == a[1..] + ("GROUP" + (ws + ("BY" + b)));
      PartsMatch(s, a[1..], ws, b);
    }
    if HasGroupBy(s) {
      var a, ws, b := MatchParts(s);
      assert [c] + s == ([c] + a) + ("GROUP" + (ws + ("BY" + b)));
      PartsMatch([c] + s, [c] + a, ws, b);
    }
  }

  lemma SnocSplits(front: string, b: string, s: string, c: char)
    requires front + b == s + [c] && front != [] && front[|front| - 1] != c
    ensures b != [] && s == front + b[..|b| - 1]
  {
    assert (front + b)[|s|] == (s + [c])[|s|] == c;
    assert (front + b)[..|s|] == (s + [c])[..|s|] == s;
  }

  lemma PartsDropLast(s: string, c: char, a: string, ws: string, b: string)
    requires Space(c) && Parts(s + [c], a, ws, b)
    ensures HasGroupBy(s)
  {
    var front := a + ("GROUP" + (ws + "BY"));
    assert s + [c] == front + b && front[|front| - 1] == 'Y';
    SnocSplits(front, b, s, c);
    assert front + b[..|b| - 1] == a + ("GROUP" + (ws + ("BY" + b[..|b| - 1])));
    PartsMatch(s, a, ws, b[..|b| - 1]);
  }

  lemma PartsAddLast(s: string, c: char, a: string, ws: string, b: string)
    requires Space(c) && Parts(s, a, ws, b)
    ensures HasGroupBy(s + [c])
  {
    assert s + [c] == a + ("GROUP" + (ws + ("BY" + (b + [c]))));
    PartsMatch(s + [c], a, ws, b + [c]);
  }

  lemma DropLast(s: string, c: char)
    requires Space(c)
    ensures HasGroupBy(s + [c]) <==> HasGroupBy(s)
  {
    if HasGroupBy(s + [c]) {
      var a, ws, b := MatchParts(s + [c]);
      PartsDropLast(s, c, a, ws, b);
    }
    if HasGroupBy(s) {
      var a, ws, b := MatchParts(s);
      PartsAddLast(s, c, a, ws, b);
    }
  }

  lemma {:induction false} TrimLeftKeeps(s: string)
    ensures HasGroupBy(TrimLeft(s)) <==> HasGroupBy(s)
  {
    if s != [] && Space(s[0]) {
      TrimLeftKeeps(s[1..]);
      DropHead(s[0], s[1..]);
      assert s == [s[0]] + s[1..];
    }
  }

  lemma {:induction false} TrimRightKeeps(s: string)
    ensures HasGroupBy(TrimRight(s)) <==> HasGroupBy(s)
  {
    if s != [] && Space(s[|s| - 1]) {
      TrimRightKeeps(s[..|s| - 1]);
      DropLast(s[..|s| - 1], s[|s| - 1]);
      assert s == s[..|s| - 1] + [s[|s| - 1]];
    }
  }

  // ---- collapsing ----

  /** Where the collapsed text is cut, the original can be cut. */
  lemma {:induction false} CollapseUncut(u: string, x: string, y: string) returns (i: nat)
    requires Collapse(u) == x + y
    ensures i <= |u| && Collapse(u[..i]) == x && Collapse(u[i..]) == y
    ensures x == [] ==> i == 0
  {
    if x == [] {
      i := 0;
      assert u[..0] == [] && u[0..] == u;
    } else if RegexSpace(u[0]) && |u| > 1 && RegexSpace(u[1]) {
      i := CollapseUncut(u[1..], x, y);
      assert i > 0;
      i := i + 1;
      assert u[..i][1..] == u[1..][..i - 1] && u[i..] == u[1..][i - 1..];
    } else {
      var c := if RegexSpace(u[0]) then ' ' else u[0];
      assert Collapse(u) == [c] + Collapse(u[1..]);
      assert x[0] == (x + y)[0] == c;
      assert x == [c] + x[1..];
      assert Collapse(u[1..]) == Collapse(u)[1..] == x[1..] + y;
      i := CollapseUncut(u[1..], x[1..], y);
      i := i + 1;
      assert u[..i][1..] == u[1..][..i - 1] && u[i..] == u[1..][i - 1..];
    }
  }

  /** Text that collapses to something without space was left alone. */
  lemma {:induction false} CollapsedWord(u: string)
    requires forall i | 0 <= i < |Collapse(u)| :: !RegexSpace(Collapse(u)[i])
    ensures Collapse(u) == u
  {
    if u != [] && RegexSpace(u[0]) {
      SpaceLeavesTrace(u);
    } else if u != [] {
      assert Collapse(u)[1..] == Collapse(u[1..]);
      CollapsedWord(u[1..]);
      assert u == [u[0]] + u[1..];
    }
  }

  lemma {:induction false} SpaceLeavesTrace(u: string)
    requires u != [] && RegexSpace(u[0])
    ensures Collapse(u) != [] && RegexSpace(Collapse(u)[0])
  {
    if |u| > 1 && RegexSpace(u[1]) {
      SpaceLeavesTrace(u[1..]);
    }
  }

  lemma HeadOfCollapse(u: string)
    requires u != []
    ensures !RegexSpace(u[0]) ==> u[0] in Collapse(u)
  {
  }

  /** Only white space collapses to white space. */
  lemma {:induction false} CollapsedGap(u: string)
    requires forall c | c in Collapse(u) :: RegexSpace(c)
    ensures AllSpace(u)
  {
    if u != [] {
      HeadOfCollapse(u);
      TailCollapses(u);
      CollapsedGap(u[1..]);
      forall i | 0 <= i < |u| ensures RegexSpace(u[i]) {
        assert i > 0 ==> u[i] == u[1..][i - 1];
      }
    }
  }

  lemma TailCollapses(u: string)
    requires u != []
    ensures forall c | c in Collapse(u[1..]) :: c in Collapse(u)
  {
  }

  /** Collapsing keeps what stands at a seam: nothing, a word character, or something else. */
  lemma {:induction false} CollapseEnds(u: string)
    ensures Collapse(u) == [] <==> u == []
    ensures u != [] ==>
              && (WordChar(Collapse(u)[0]) <==> WordChar(u[0]))
              && (WordChar(Collapse(u)[|Collapse(u)| - 1]) <==> WordChar(u[|u| - 1]))
  {
    if |u| > 1 {
      CollapseEnds(u[1..]);
    }
  }

  lemma PartsCollapse(s: string, a: string, ws: string, b: string)
    requires Parts(s, a, ws, b)
    ensures HasGroupBy(Collapse(s))
  {
    CollapsePieces(a, ws, b);
    CollapseRun(ws, "");
    CollapseEnds(a);
    CollapseEnds(b);
    PartsMatch(Collapse(s), Collapse(a), " ", Collapse(b));
  }

  lemma CollapsePieces(a: string, ws: string, b: string)
    requires ws != [] && AllSpace(ws)
    ensures Collapse(a + ("GROUP" + (ws + ("BY" + b)))) == Collapse(a) + ("GROUP" + (" " + ("BY" + Collapse(b))))
  {
    CollapsedRun(ws);
    CollapseWord("BY", b);
    CollapseConcat(ws, "BY" + b);
    CollapseWord("GROUP", ws + ("BY" + b));
    CollapseConcat(a, "GROUP" + (ws + ("BY" + b)));
  }

  lemma CollapseWord(w: string, rest: string)
    requires w != [] && forall i | 0 <= i < |w| :: !RegexSpace(w[i])
    ensures Collapse(w + rest) == w + Collapse(rest)
  {
    CollapseConcat(w, rest);
    CollapseOfNormal(w);
  }

  lemma CollapsedRun(ws: string)
    requires ws != [] && AllSpace(ws)
    ensures Collapse(ws) == " "
  {
    assert ws + "" == ws && " " + "" == " ";
    CollapseRun(ws, "");
  }

  lemma Uncollapse(u: string, x: string, y: string) returns (l: string, r: string)
    requires Collapse(u) == x + y
    ensures u == l + r && Collapse(l) == x && Collapse(r) == y
  {
    var i := CollapseUncut(u, x, y);
    l, r := u[..i], u[i..];
  }

  lemma PartsUncollapse(u: string, a: string, ws: string, b: string)
    requires Parts(Collapse(u), a, ws, b)
    ensures HasGroupBy(u)
  {
    var a', u1 := Uncollapse(u, a, "GROUP" + (ws + ("BY" + b)));
    var g, u2 := Uncollapse(u1, "GROUP", ws + ("BY" + b));
    var ws', u3 := Uncollapse(u2, ws, "BY" + b);
    var y, b' := Uncollapse(u3, "BY", b);
    PiecesMatch(u, a', g, ws', y, b');
  }

  lemma PiecesMatch(u: string, a: string, g: string, ws: string, y: string, b: string)
    requires u == a + (g + (ws + (y + b))) && Collapse(g) == "GROUP" && Collapse(y) == "BY"
    requires Collapse(ws) != [] && forall c | c in Collapse(ws) :: RegexSpace(c)
    requires Collapse(a) == [] || !WordChar(Collapse(a)[|Collapse(a)| - 1])
    requires Collapse(b) == [] || !WordChar(Collapse(b)[0])
    ensures HasGroupBy(u)
  {
    CollapsedWord(g);
    CollapsedWord(y);
    CollapsedGap(ws);
    CollapseEnds(a);
    CollapseEnds(b);
    PartsOf(u, a, g, ws, y, b);
    PartsMatch(u, a, ws, b);
  }

  lemma CollapseKeeps(u: string)
    ensures HasGroupBy(Collapse(u)) <==> HasGroupBy(u)
  {
    if HasGroupBy(u) {
      var a, ws, b := MatchParts(u);
      PartsCollapse(u, a, ws, b);
    }
    if HasGroupBy(Collapse(u)) {
      var a, ws, b := MatchParts(Collapse(u));
      PartsUncollapse(u, a, ws, b);
    }
  }

  /** GROUP, any white space, BY, as maximal words in any letter case. */
  ghost predicate MentionsGroupBy(sql: string)
  {
    exists a, ws, b :: Parts(ToUpper(sql), a, ws, b)
  }

  /** The test on normalized text holds exactly when the original text, in any letter case, has a match. */
  lemma GroupByTestIsExact(sql: string)
    ensures HasGroupBy(NormalizeSQL(sql)) <==> MentionsGroupBy(sql)
  {
    var c := Collapse(ToUpper(sql));
    CollapseKeeps(ToUpper(sql));
    TrimLeftKeeps(c);
    TrimRightKeeps(TrimLeft(c));
    if HasGroupBy(ToUpper(sql)) {
      var a, ws, b := MatchParts(ToUpper(sql));
    }
    if a, ws, b :| Parts(ToUpper(sql), a, ws, b) {
      PartsMatch(ToUpper(sql), a, ws, b);
    }
  }
}
