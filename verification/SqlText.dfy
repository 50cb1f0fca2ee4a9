/** Normalization and keyword search: the text layer of the streaming compiler. */
module SqlText {
  import opened Text

  /** Replaces every run of `\s` by one space: each run is emitted at its last character. */
  function Collapse(s: string): (t: string)
    ensures |t| <= |s|
  {
    if s == [] then []
    else if !RegexSpace(s[0]) then [s[0]] + Collapse(s[1..])
    else if |s| > 1 && RegexSpace(s[1]) then Collapse(s[1..])
    else " " + Collapse(s[1..])
  }

  function NormalizeSQL(sql: string): string
  {
    TrimSpace(Collapse(ToUpper(sql)))
  }

  /** No two `\s` characters are adjacent. */
  predicate NoSpaceRun(s: string)
  {
    forall i | 0 <= i < |s| - 1 :: !(RegexSpace(s[i]) && RegexSpace(s[i + 1]))
  }

  /** Upper case, and single blanks only. */
  predicate Spaced(s: string)
  {
    ToUpper(s) == s && NoSpaceRun(s) && forall c | c in s && RegexSpace(c) :: c == ' '
  }

  /** Upper case, single blanks only, trimmed. */
  predicate Normal(s: string)
  {
    Spaced(s) && Trimmed(s)
  }

  // ---- what collapsing does ----

  lemma CollapseSeam(c: char, b: string)
    requires b == [] || !RegexSpace(c) || !RegexSpace(b[0])
    ensures Collapse([c] + b) == Collapse([c]) + Collapse(b)
  {
    assert ([c] + b)[1..] == b && [c][1..] == [];
    if b == [] {
      assert [c] + b == [c];
    }
  }

  lemma {:induction false} CollapseConcat(a: string, b: string)
    requires a == [] || b == [] || !RegexSpace(a[|a| - 1]) || !RegexSpace(b[0])
    ensures Collapse(a + b) == Collapse(a) + Collapse(b)
  {
    if a == [] {
      assert a + b == b;
    } else if |a| == 1 {
      assert a == [a[0]];
      CollapseSeam(a[0], b);
    } else {
      assert (a + b)[1..] == a[1..] + b;
      CollapseConcat(a[1..], b);
    }
  }

  lemma {:induction false} CollapseRun(ws: string, b: string)
    requires ws != [] && forall c | c in ws :: RegexSpace(c)
    ensures Collapse(ws + b) == Collapse(" " + b)
  {
    if |ws| == 1 {
      assert (ws + b)[1..] == b && (" " + b)[1..] == b;
    } else {
      assert (ws + b)[1..] == ws[1..] + b;
      CollapseRun(ws[1..], b);
    }
  }

  lemma {:induction false} CollapseAgrees(a: string, x: string, y: string)
    requires x != [] && y != [] && (RegexSpace(x[0]) <==> RegexSpace(y[0])) && Collapse(x) == Collapse(y)
    ensures Collapse(a + x) == Collapse(a + y)
  {
    if a == [] {
      assert a + x == x && a + y == y;
    } else {
      assert (a + x)[1..] == a[1..] + x && (a + y)[1..] == a[1..] + y;
      CollapseAgrees(a[1..], x, y);
    }
  }

  /** How wide an existing gap is does not show after collapsing. */
  lemma CollapseWidens(a: string, ws: string, vs: string, b: string)
    requires ws != [] && vs != [] && (forall c | c in ws :: RegexSpace(c)) && (forall c | c in vs :: RegexSpace(c))
    ensures Collapse(a + (ws + b)) == Collapse(a + (vs + b))
  {
    CollapseRun(ws, b);
    CollapseRun(vs, b);
    CollapseAgrees(a, ws + b, vs + b);
  }

  lemma {:induction false} CollapseIsNormal(s: string)
    ensures NoSpaceRun(Collapse(s))
    ensures forall c | c in Collapse(s) && RegexSpace(c) :: c == ' '
    ensures ToUpper(s) == s ==> ToUpper(Collapse(s)) == Collapse(s)
    ensures s != [] ==> Collapse(s) != [] && (RegexSpace(Collapse(s)[0]) <==> RegexSpace(s[0]))
  {
    if s != [] {
      CollapseIsNormal(s[1..]);
      if ToUpper(s) == s {
        assert ToUpper(s[1..]) == s[1..];
      }
    }
  }

  lemma {:induction false} CollapseOfNormal(s: string)
    requires NoSpaceRun(s) && forall c | c in s && RegexSpace(c) :: c == ' '
    ensures Collapse(s) == s
  {
    if s != [] {
      CollapseOfNormal(s[1..]);
      assert s == [s[0]] + s[1..];
    }
  }

  lemma SubNormal(s: string, t: string, i: nat)
    requires i + |t| <= |s| && t == s[i..i + |t|]
    requires Spaced(s)
    ensures Spaced(t)
  {
    forall k | 0 <= k < |t| ensures t[k] == s[i + k] && UpperChar(t[k]) == t[k] {
      assert ToUpper(s)[i + k] == s[i + k];
    }
  }

  lemma TrimSpaced(u: string)
    requires Spaced(u)
    ensures Spaced(TrimSpace(u))
  {
    var l := TrimLeft(u);
    TrimLeftCuts(u);
    SubNormal(u, l, |u| - |l|);
    TrimRightCuts(l);
    SubNormal(l, TrimRight(l), 0);
  }

  /** Normalized text is upper case, has single blanks and no outer whitespace, and is never longer. */
  lemma NormalizeIsNormal(sql: string)
    ensures Normal(NormalizeSQL(sql)) && |NormalizeSQL(sql)| <= |sql|
  {
    var u := Collapse(ToUpper(sql));
    ToUpperIdempotent(sql);
    CollapseIsNormal(ToUpper(sql));
    TrimSpaced(u);
    TrimIsTrimmed(u);
  }

  /** Normalization fixes exactly the normal texts, so it is idempotent. */
  lemma NormalizeFixes(sql: string)
    ensures NormalizeSQL(sql) == sql <==> Normal(sql)
    ensures NormalizeSQL(NormalizeSQL(sql)) == NormalizeSQL(sql)
  {
    NormalizeIsNormal(sql);
    if Normal(sql) { NormalFixed(sql); }
    NormalFixed(NormalizeSQL(sql));
  }

  lemma NormalFixed(s: string)
    requires Normal(s)
    ensures NormalizeSQL(s) == s
  {
    CollapseOfNormal(s);
    TrimOfTrimmed(s);
  }

  /** Flipping letter case and widening or narrowing existing gaps leave the normalized text alone. */
  lemma NormalizeIgnoresLayout(a: string, a': string, ws: string, ws': string, b: string, b': string)
    requires ToUpper(a) == ToUpper(a') && ToUpper(b) == ToUpper(b')
    requires ws != [] && ws' != [] && (forall c | c in ws :: RegexSpace(c)) && (forall c | c in ws' :: RegexSpace(c))
    ensures NormalizeSQL(a + ws + b) == NormalizeSQL(a' + ws' + b')
  {
    UpperSpaces(ws);
    UpperSpaces(ws');
    ToUpperConcat(a + ws, b);
    ToUpperConcat(a, ws);
    ToUpperConcat(a' + ws', b');
    ToUpperConcat(a', ws');
    var x, y := ToUpper(a), ToUpper(b);
    assert x + ws + y == x + (ws + y) && x + ws' + y == x + (ws' + y);
    CollapseWidens(x, ws, ws', y);
  }

  lemma UpperSpaces(ws: string)
    requires forall c | c in ws :: RegexSpace(c)
    ensures ToUpper(ws) == ws
  {
    forall i | 0 <= i < |ws| ensures UpperChar(ws[i]) == ws[i] {
      assert RegexSpace(ws[i]);
    }
  }

  // ---- keywords ----

  /** `\b`: exactly one side of position `i` is a word character. */
  predicate Boundary(s: string, i: int)
    requires 0 <= i <= |s|
  {
    (i > 0 && WordChar(s[i - 1])) != (i < |s| && WordChar(s[i]))
  }

  /** `\bkeyword\b` matches somewhere in `s`. */
  predicate HasKeyword(s: string, keyword: string)
  {
    exists i | 0 <= i <= |s| :: KeywordAt(s, keyword, i)
  }

  predicate KeywordAt(s: string, keyword: string, i: int)
  {
    At(s, keyword, i) && Boundary(s, i) && Boundary(s, i + |keyword|)
  }

  /** `\bGROUP\s+BY\b` matches somewhere in `s`. */
  predicate HasGroupBy(s: string)
  {
    exists i, j | 0 <= i < j <= |s| - 2 :: GroupByAt(s, i, j)
  }

  predicate GroupByAt(s: string, i: int, j: int)
    requires 0 <= i < j <= |s| - 2
  {
    && At(s, "GROUP", i) && Boundary(s, i)
    && GapBetween(s, i + 5, j)
    && At(s, "BY", j) && Boundary(s, j + 2)
  }

  predicate GapBetween(s: string, i: int, j: int)
  {
    0 <= i < j <= |s| && forall k | i <= k < j :: RegexSpace(s[k])
  }

  predicate IsWord(k: string)
  {
    k != [] && forall c | c in k :: WordChar(c)
  }

  lemma KeywordShift(s: string, k: string, m: nat, i: nat)
    requires IsWord(k) && m <= i <= |s| && (i > m || m == 0 || !WordChar(s[m - 1]))
    ensures KeywordAt(s, k, i) <==> KeywordAt(s[m..], k, i - m)
  {
    if i + |k| <= |s| {
      assert s[i..i + |k|] == s[m..][i - m..i - m + |k|];
    }
  }

  lemma KeywordInside(s: string, k: string, i: nat)
    requires IsWord(k) && KeywordAt(s, k, i)
    ensures (forall j | i <= j < i + |k| :: WordChar(s[j]))
    ensures (i > 0 ==> !WordChar(s[i - 1])) && (i + |k| < |s| ==> !WordChar(s[i + |k|]))
  {
    forall j | i <= j < i + |k| ensures WordChar(s[j]) {
      assert s[i..i + |k|][j - i] == s[j];
      assert k[j - i] in k;
    }
  }

  /** The text after the first word, or after the first character if that is none. */
  function Advance(s: string): (m: nat)
    requires s != []
    ensures 1 <= m <= |s|
  {
    var n := PrefixLength(s, WordChar);
    if n == 0 then 1 else n
  }

  /** A keyword is the first word or lies beyond it. */
  lemma KeywordAhead(s: string, k: string)
    requires IsWord(k) && s != [] && HasKeyword(s, k)
    ensures k == s[..PrefixLength(s, WordChar)] || HasKeyword(s[Advance(s)..], k)
  {
    var n, m := PrefixLength(s, WordChar), Advance(s);
    var i :| 0 <= i <= |s| && KeywordAt(s, k, i);
    KeywordInside(s, k, i);
    if i >= m {
      KeywordShift(s, k, m, i);
    } else {
      assert i == 0 && |k| == n;
    }
  }

  /** A word beyond the first stretch starts at a boundary. */
  lemma AdvanceEnds(s: string)
    requires s != [] && Advance(s) < |s| && WordChar(s[Advance(s)])
    ensures !WordChar(s[Advance(s) - 1])
  {
  }

  lemma KeywordBeyond(s: string, k: string)
    requires IsWord(k) && s != [] && HasKeyword(s[Advance(s)..], k)
    ensures HasKeyword(s, k)
  {
    var i :| 0 <= i <= |s[Advance(s)..]| && KeywordAt(s[Advance(s)..], k, i);
    KeywordBeyondAt(s, k, i);
  }

  lemma KeywordBeyondAt(s: string, k: string, i: nat)
    requires IsWord(k) && s != [] && i <= |s| - Advance(s) && KeywordAt(s[Advance(s)..], k, i)
    ensures KeywordAt(s, k, i + Advance(s))
  {
    var m := Advance(s);
    KeywordInside(s[m..], k, i);
    if i == 0 {
      assert s[m..][0] == s[m];
      AdvanceEnds(s);
    }
    KeywordShift(s, k, m, i + m);
  }

  lemma KeywordFirst(s: string, k: string)
    requires IsWord(k) && k == s[..PrefixLength(s, WordChar)]
    ensures HasKeyword(s, k)
  {
    assert KeywordAt(s, k, 0);
  }

  /** A keyword pattern matches exactly when the keyword is one of the text's maximal words. */
  lemma {:induction false} KeywordIsMaximalWord(s: string, k: string)
    requires IsWord(k)
    ensures HasKeyword(s, k) <==> k in Words(s)
    decreases |s|
  {
    if s != [] {
      KeywordIsMaximalWord(s[Advance(s)..], k);
      if HasKeyword(s, k) {
        KeywordAhead(s, k);
      }
      if HasKeyword(s[Advance(s)..], k) {
        KeywordBeyond(s, k);
      }
      if k == s[..PrefixLength(s, WordChar)] {
        KeywordFirst(s, k);
      }
    }
  }

  lemma PrefixLengthIs(s: string, p: char -> bool, n: nat)
    requires n <= |s| && (forall i | 0 <= i < n :: p(s[i])) && (n < |s| ==> !p(s[n]))
    ensures PrefixLength(s, p) == n
  {
  }

  lemma WordsStep(s: string, w: string, rest: string)
    requires s == w + rest && IsWord(w) && (rest != [] ==> !WordChar(rest[0]))
    ensures Words(s) == [w] + Words(rest)
  {
    forall i | 0 <= i < |w| ensures WordChar(s[i]) {
      assert w[i] in w;
    }
    PrefixLengthIs(s, WordChar, |w|);
    assert s[..|w|] == w && s[|w|..] == rest;
  }

  lemma WordsSkip(s: string)
    requires s != [] && !WordChar(s[0])
    ensures Words(s) == Words(s[1..])
  {
    PrefixLengthIs(s, WordChar, 0);
  }

  lemma {:induction false} WordsOfCollapse(s: string)
    ensures Words(Collapse(s)) == Words(s)
    decreases |s|
  {
    if s != [] {
      var n := PrefixLength(s, WordChar);
      if n == 0 {
        WordsSkip(s);
        WordsOfCollapse(s[1..]);
        if Collapse(s) != Collapse(s[1..]) {
          WordsSkip(Collapse(s));
          assert Collapse(s)[1..] == Collapse(s[1..]);
        }
      } else {
        var w, rest := s[..n], s[n..];
        assert s == w + rest;
        assert forall c | c in w :: WordChar(c);
        WordsOfCollapse(rest);
        CollapseConcat(w, rest);
        CollapseOfNormal(w);
        WordsStep(s, w, rest);
        CollapseHead(rest);
        WordsStep(Collapse(s), w, Collapse(rest));
      }
    }
  }

  lemma CollapseHead(s: string)
    requires s != [] ==> !WordChar(s[0])
    ensures Collapse(s) != [] ==> !WordChar(Collapse(s)[0])
  {
    if s != [] {
      CollapseIsNormal(s);
    }
  }

  lemma {:induction false} NoWords(b: string)
    requires forall c | c in b :: !WordChar(c)
    ensures Words(b) == []
  {
    if b != [] {
      assert b[0] in b;
      WordsSkip(b);
      NoWords(b[1..]);
    }
  }

  lemma {:induction false} WordsDropTail(a: string, b: string)
    requires forall c | c in b :: !WordChar(c)
    ensures Words(a + b) == Words(a)
    decreases |a|
  {
    if a == [] {
      assert a + b == b;
      NoWords(b);
    } else {
      var n := PrefixLength(a, WordChar);
      if n == 0 {
        WordsDropTail(a[1..], b);
        SkipBefore(a, b);
      } else {
        WordsDropTail(a[n..], b);
        assert a == a[..n] + a[n..];
        WordBefore(a[..n], a[n..], b);
      }
    }
  }

  lemma SkipBefore(a: string, b: string)
    requires a != [] && !WordChar(a[0])
    ensures Words(a) == Words(a[1..]) && Words(a + b) == Words(a[1..] + b)
  {
    WordsSkip(a);
    WordsSkip(a + b);
    assert (a + b)[1..] == a[1..] + b;
  }

  lemma WordBefore(w: string, rest: string, b: string)
    requires IsWord(w) && (rest != [] ==> !WordChar(rest[0])) && forall c | c in b :: !WordChar(c)
    ensures Words(w + rest) == [w] + Words(rest) && Words(w + rest + b) == [w] + Words(rest + b)
  {
    WordsStep(w + rest, w, rest);
    assert b != [] ==> b[0] in b;
    assert w + rest + b == w + (rest + b);
    WordsStep(w + rest + b, w, rest + b);
  }

  lemma {:induction false} WordsDropHead(a: string, b: string)
    requires forall c | c in a :: !WordChar(c)
    ensures Words(a + b) == Words(b)
  {
    if a == [] {
      assert a + b == b;
    } else {
      assert a[0] in a;
      assert (a + b)[1..] == a[1..] + b;
      WordsSkip(a + b);
      WordsDropHead(a[1..], b);
    }
  }

  lemma WordsOfTrimRight(s: string)
    ensures Words(TrimRight(s)) == Words(s)
  {
    TrimRightCuts(s);
    var t := TrimRight(s);
    var tail := s[|t|..];
    assert s == t + tail;
    assert forall i | 0 <= i < |tail| :: Space(tail[i]);
    WordsDropTail(t, tail);
  }

  lemma WordsOfTrimLeft(s: string)
    ensures Words(TrimLeft(s)) == Words(s)
  {
    TrimLeftCuts(s);
    var l := TrimLeft(s);
    var head := s[..|s| - |l|];
    assert s == head + l;
    assert forall i | 0 <= i < |head| :: Space(head[i]);
    WordsDropHead(head, l);
  }

  lemma WordsOfTrim(s: string)
    ensures Words(TrimSpace(s)) == Words(s)
  {
    WordsOfTrimLeft(s);
    WordsOfTrimRight(TrimLeft(s));
  }

  function UpperAll(words: seq<string>): seq<string>
  {
    if words == [] then [] else [ToUpper(words[0])] + UpperAll(words[1..])
  }

  lemma {:induction false} UpperAllHas(words: seq<string>, k: string)
    ensures k in UpperAll(words) <==> exists w | w in words :: ToUpper(w) == k
  {
    if words != [] {
      UpperAllHas(words[1..], k);
    }
  }

  lemma {:induction false} WordsOfUpper(s: string)
    ensures Words(ToUpper(s)) == UpperAll(Words(s))
    decreases |s|
  {
    if s != [] {
      var n := PrefixLength(s, WordChar);
      if n == 0 {
        WordsSkip(s);
        WordsSkip(ToUpper(s));
        assert ToUpper(s)[1..] == ToUpper(s[1..]);
        WordsOfUpper(s[1..]);
      } else {
        var w, rest := s[..n], s[n..];
        assert s == w + rest;
        assert forall c | c in w :: WordChar(c);
        WordsStep(s, w, rest);
        ToUpperConcat(w, rest);
        assert IsWord(ToUpper(w)) by {
          forall i | 0 <= i < |w| ensures WordChar(ToUpper(w)[i]) {
            assert w[i] in w;
          }
        }
        WordsStep(ToUpper(s), ToUpper(w), ToUpper(rest));
        WordsOfUpper(rest);
      }
    }
  }

  /** Some maximal word of the text is the keyword, in any letter case. */
  ghost predicate Mentions(sql: string, keyword: string)
  {
    exists w | w in Words(sql) :: ToUpper(w) == keyword
  }

  /** The compiler's keyword test on normalized text finds exactly the maximal words of the original text. */
  lemma KeywordTestIsExact(sql: string, k: string)
    requires IsWord(k)
    ensures HasKeyword(NormalizeSQL(sql), k) <==> Mentions(sql, k)
  {
    KeywordIsMaximalWord(NormalizeSQL(sql), k);
    WordsOfTrim(Collapse(ToUpper(sql)));
    WordsOfCollapse(ToUpper(sql));
    WordsOfUpper(sql);
    UpperAllHas(Words(sql), k);
  }
}
