/** Go's string functions on ASCII text, as used by the SQL front end. */
module Text {

  const VERTICAL_TAB: char := '\U{0B}'
  const FORM_FEED: char := '\U{0C}'

  /** The regexp class `\s`. */
  predicate RegexSpace(c: char)
  {
    c == ' ' || c == '\t' || c == '\n' || c == '\r' || c == FORM_FEED
  }

  /** What strings.TrimSpace and strings.Fields treat as space: `\s` and the vertical tab. */
  predicate Space(c: char)
  {
    RegexSpace(c) || c == VERTICAL_TAB
  }

  predicate AllSpace(s: string)
  {
    forall i | 0 <= i < |s| :: RegexSpace(s[i])
  }

  /** The regexp class `\w`. */
  predicate WordChar(c: char)
  {
    'a' <= c <= 'z' || 'A' <= c <= 'Z' || '0' <= c <= '9' || c == '_'
  }

  function UpperChar(c: char): char
  {
    if 'a' <= c <= 'z' then (c as int - 32) as char else c
  }

  /** The character classes by their ASCII codes. */
  lemma CharCodes(c: char)
    ensures Space(c) <==> 9 <= c as int <= 13 || c as int == 32
    ensures RegexSpace(c) <==> Space(c) && c as int != 11
    ensures WordChar(c)
            <==> var u := UpperChar(c) as int; 48 <= u <= 57 || 65 <= u <= 90 || u == 95
    ensures UpperChar(c) as int == if 97 <= c as int <= 122 then c as int - 32 else c as int
  {
  }

  function ToUpper(s: string): (u: string)
    ensures |u| == |s|
    ensures forall i | 0 <= i < |s| :: u[i] == UpperChar(s[i])
  {
    seq(|s|, i requires 0 <= i < |s| => UpperChar(s[i]))
  }

  lemma ToUpperConcat(a: string, b: string)
    ensures ToUpper(a + b) == ToUpper(a) + ToUpper(b)
  {
  }

  lemma ToUpperIdempotent(s: string)
    ensures ToUpper(ToUpper(s)) == ToUpper(s)
  {
  }

  lemma UpperIsSame(s: string)
    requires forall i | 0 <= i < |s| :: UpperChar(s[i]) == s[i]
    ensures ToUpper(s) == s
  {
  }

  // ---- trimming ----

  function TrimLeft(s: string): (t: string)
    ensures |t| <= |s|
  {
    if s != [] && Space(s[0]) then TrimLeft(s[1..]) else s
  }

  function TrimRight(s: string): (t: string)
    ensures |t| <= |s|
  {
    if s != [] && Space(s[|s| - 1]) then TrimRight(s[..|s| - 1]) else s
  }

  lemma {:induction false} TrimLeftCuts(s: string)
    ensures TrimLeft(s) == s[|s| - |TrimLeft(s)|..]
    ensures TrimLeft(s) != [] ==> !Space(TrimLeft(s)[0])
    ensures forall i | 0 <= i < |s| - |TrimLeft(s)| :: Space(s[i])
  {
    if s != [] && Space(s[0]) {
      TrimLeftCuts(s[1..]);
    }
  }

  lemma {:induction false} TrimRightCuts(s: string)
    ensures TrimRight(s) == s[..|TrimRight(s)|]
    ensures TrimRight(s) != [] ==> !Space(TrimRight(s)[|TrimRight(s)| - 1])
    ensures forall i | |TrimRight(s)| <= i < |s| :: Space(s[i])
  {
    if s != [] && Space(s[|s| - 1]) {
      TrimRightCuts(s[..|s| - 1]);
    }
  }

  function TrimSpace(s: string): string
  {
    TrimRight(TrimLeft(s))
  }

  predicate Trimmed(s: string)
  {
    s != [] ==> !Space(s[0]) && !Space(s[|s| - 1])
  }

  lemma TrimOfTrimmed(s: string)
    requires Trimmed(s)
    ensures TrimSpace(s) == s
  {
  }

  lemma TrimIsTrimmed(s: string)
    ensures Trimmed(TrimSpace(s))
    ensures |TrimSpace(s)| <= |s|
  {
    TrimLeftCuts(s);
    TrimRightCuts(TrimLeft(s));
  }

  /** Text that starts with a visible character loses only its tail. */
  lemma TrimKeepsHead(s: string)
    requires s != [] && !Space(s[0])
    ensures TrimSpace(s) == TrimRight(s)
  {
  }

  lemma {:induction false} TrimRightConcat(a: string, b: string)
    requires a != [] && !Space(a[|a| - 1])
    ensures TrimRight(a + b) == a + TrimRight(b)
    decreases |b|
  {
    if b == [] {
      assert a + b == a;
    } else if Space(b[|b| - 1]) {
      assert (a + b)[..|a + b| - 1] == a + b[..|b| - 1];
      TrimRightConcat(a, b[..|b| - 1]);
    }
  }

  // ---- searching ----

  predicate At(s: string, sub: string, i: int)
  {
    0 <= i && i + |sub| <= |s| && s[i..i + |sub|] == sub
  }

  /** strings.Index from position `from` on: the first occurrence, or -1. */
  function IndexFrom(s: string, sub: string, from: nat): (i: int)
    ensures i == -1 || from <= i <= |s| - |sub|
    decreases |s| - from
  {
    if from + |sub| > |s| then -1
    else if s[from..from + |sub|] == sub then from
    else IndexFrom(s, sub, from + 1)
  }

  function Index(s: string, sub: string): (i: int)
    ensures i == -1 || 0 <= i <= |s| - |sub|
  {
    IndexFrom(s, sub, 0)
  }

  lemma {:induction false} IndexFromFirst(s: string, sub: string, from: nat)
    ensures var i := IndexFrom(s, sub, from);
            && (i == -1 ==> forall j | from <= j :: !At(s, sub, j))
            && (i != -1 ==> At(s, sub, i) && forall j | from <= j < i :: !At(s, sub, j))
    decreases |s| - from
  {
    if from + |sub| <= |s| && s[from..from + |sub|] != sub {
      IndexFromFirst(s, sub, from + 1);
    }
  }

  /** Index finds the first occurrence, and only fails when there is none. */
  lemma IndexFirst(s: string, sub: string)
    ensures var i := Index(s, sub);
            && (i == -1 ==> forall j :: !At(s, sub, j))
            && (i != -1 ==> At(s, sub, i) && forall j | 0 <= j < i :: !At(s, sub, j))
  {
    IndexFromFirst(s, sub, 0);
  }

  predicate Contains(s: string, sub: string)
  {
    Index(s, sub) != -1
  }

  predicate HasPrefix(s: string, prefix: string)
  {
    prefix <= s
  }

  // ---- letter case ----

  /** The two texts differ at most in letter case. */
  predicate EqualFold(a: string, b: string)
  {
    |a| == |b| && forall i | 0 <= i < |a| :: UpperChar(a[i]) == UpperChar(b[i])
  }

  lemma FoldIff(a: string, b: string)
    ensures EqualFold(a, b) <==> ToUpper(a) == ToUpper(b)
  {
    if ToUpper(a) == ToUpper(b) {
      forall i | 0 <= i < |a| ensures UpperChar(a[i]) == UpperChar(b[i]) {
        assert ToUpper(a)[i] == ToUpper(b)[i];
      }
    }
  }

  /** The keyword stands somewhere in the text, in any letter case. */
  predicate HoldsFold(s: string, k: string)
  {
    exists i | 0 <= i <= |s| - |k| :: FoldAt(s, k, i)
  }

  predicate FoldAt(s: string, k: string, i: nat)
    requires i + |k| <= |s|
  {
    EqualFold(s[i..i + |k|], k)
  }

  lemma UpperSlice(s: string, i: nat, n: nat)
    requires i + n <= |s|
    ensures ToUpper(s)[i..i + n] == ToUpper(s[i..i + n])
  {
  }

  lemma HoldsFoldIff(s: string, k: string)
    ensures HoldsFold(s, k) <==> Contains(ToUpper(s), ToUpper(k))
  {
    var u, v := ToUpper(s), ToUpper(k);
    IndexFirst(u, v);
    forall i | 0 <= i <= |s| - |k| ensures At(u, v, i) <==> FoldAt(s, k, i) {
      UpperSlice(s, i, |k|);
      FoldIff(s[i..i + |k|], k);
    }
    if Contains(u, v) {
      assert At(u, v, Index(u, v));
    }
  }

  lemma IndexIs(s: string, sub: string, i: nat)
    requires At(s, sub, i) && forall j | 0 <= j < i :: !At(s, sub, j)
    ensures Index(s, sub) == i
  {
    IndexFirst(s, sub);
  }

  lemma AtChars(s: string, sub: string, j: int, d: int)
    requires 0 <= d < |sub|
    ensures At(s, sub, j) ==> s[j + d] == sub[d]
  {
    if At(s, sub, j) {
      assert s[j..j + |sub|][d] == s[j + d];
    }
  }

  lemma AtPast(a: string, b: string, sub: string, j: int)
    requires j >= |a|
    ensures At(a + b, sub, j) <==> At(b, sub, j - |a|)
  {
    if j + |sub| <= |a + b| {
      assert (a + b)[j..j + |sub|] == b[j - |a|..j - |a| + |sub|];
    }
  }

  lemma IndexPast(a: string, b: string, sub: string)
    requires forall j | 0 <= j < |a| :: !At(a + b, sub, j)
    ensures Index(a + b, sub) == if Index(b, sub) == -1 then -1 else |a| + Index(b, sub)
  {
    IndexFirst(a + b, sub);
    IndexFirst(b, sub);
    var i, k := Index(b, sub), Index(a + b, sub);
    if i != -1 {
      AtPast(a, b, sub, |a| + i);
    }
    if k != -1 {
      AtPast(a, b, sub, k);
    }
  }

  lemma RestPast(head: string, tail: string, i: nat)
    requires i <= |tail|
    ensures (head + tail)[|head| + i..] == tail[i..]
  {
  }

  /** The first position of a name, or the number of names. */
  function FirstOf(names: seq<string>, name: string): (i: nat)
    ensures i <= |names| && (i < |names| ==> names[i] == name)
    ensures forall j | 0 <= j < i :: names[j] != name
  {
    if names == [] || names[0] == name then 0 else 1 + FirstOf(names[1..], name)
  }

  // ---- fields and words ----

  function PrefixLength(s: string, p: char -> bool): (n: nat)
    ensures n <= |s| && (forall i | 0 <= i < n :: p(s[i])) && (n < |s| ==> !p(s[n]))
  {
    if s != [] && p(s[0]) then 1 + PrefixLength(s[1..], p) else 0
  }

  /** The maximal runs of characters satisfying `p`, from left to right. */
  function Runs(s: string, p: char -> bool): seq<string>
    decreases |s|
  {
    if s == [] then []
    else
      var n := PrefixLength(s, p);
      if n == 0 then Runs(s[1..], p) else [s[..n]] + Runs(s[n..], p)
  }

  predicate Visible(c: char)
  {
    !Space(c)
  }

  /** strings.Fields. */
  function Fields(s: string): seq<string>
  {
    Runs(s, Visible)
  }

  /** The maximal words of a text. */
  function Words(s: string): seq<string>
  {
    Runs(s, WordChar)
  }
}
