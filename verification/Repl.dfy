/** The REGISTER command: how the console's pattern splits a line, and when printing survives it. */
module Repl {
  import opened Rows
  import opened Text
  import opened SqlText

  datatype Command = Command(id: string, sql: string, cursor: Option<string>, mode: Mode)

  predicate NonSpace(c: char)
  {
    !RegexSpace(c)
  }

  predicate StartsWithSpace(s: string)
  {
    s != [] && RegexSpace(s[0])
  }

  datatype Peeled = Nothing | Peeled(token: string, rest: string)

  /** `\s+` and then the maximal run of non-space characters, which must not be empty. */
  function Peel(s: string): (p: Peeled)
    ensures p.Peeled? ==> |p.rest| < |s|
  {
    var gap := PrefixLength(s, RegexSpace);
    var length := PrefixLength(s[gap..], NonSpace);
    if gap == 0 || length == 0 then Nothing
    else Peeled(s[gap..gap + length], s[gap + length..])
  }

  /**
   * `(?:\s+FROM\s+NOW)?\s*$`.  In this pattern every keyword and every `(\w+)` is followed by a
   * space class or the end, so it can only match a whole token.
   */
  predicate MatchesNowTail(s: string)
  {
    AllSpace(s) ||
    (var from := Peel(s);
     from.Peeled? && ToUpper(from.token) == "FROM" &&
     var now := Peel(from.rest);
     now.Peeled? && ToUpper(now.token) == "NOW" && AllSpace(now.rest))
  }

  datatype Clause = NoClause | Clause(column: string, rest: string)

  /** `\s+WITH\s+CURSOR\s+(\w+)`. */
  function MatchCursor(s: string): Clause
  {
    match Peel(s)
    case Nothing => NoClause
    case Peeled(with_, afterWith) =>
      match Peel(afterWith)
      case Nothing => NoClause
      case Peeled(cursor, afterCursor) =>
        match Peel(afterCursor)
        case Nothing => NoClause
        case Peeled(column, rest) =>
          if ToUpper(with_) == "WITH" && ToUpper(cursor) == "CURSOR" && IsWord(column) then Clause(column, rest)
              else NoClause
  }

  datatype TailMatch = NoTail | Tail(cursor: Option<string>)

  /** The optional cursor clause is tried first as present, then as absent, each followed by the tail above. */
  function MatchTail(s: string): TailMatch
  {
    var clause := MatchCursor(s);
    if clause.Clause? && MatchesNowTail(clause.rest) then Tail(Some(clause.column))
    else if MatchesNowTail(s) then Tail(None)
    else NoTail
  }

  predicate HasTail(s: string)
  {
    MatchTail(s).Tail?
  }

  /**
   * `(.+?)`: the shortest text of at least `n` characters without a line break after which
   * `follows` holds; 0 if none.
   */
  function LazySplit(s: string, n: nat, follows: string -> bool): (split: nat)
    requires n >= 1
    ensures split == 0 || (n <= split <= |s| && follows(s[split..]))
    decreases |s| - n
  {
    if n > |s| || s[n - 1] == '\n' then 0
    else if follows(s[n..]) then n
    else LazySplit(s, n + 1, follows)
  }

  datatype Split = NoSplit | Split(group: string, rest: string)

  /** `\s+(.+?)` before what `follows` accepts, the gap tried from `gap` characters down to one. */
  function SplitBody(s: string, gap: nat, follows: string -> bool): (split: Split)
    requires gap <= |s|
    ensures split.Split? ==> follows(split.rest)
  {
    if gap == 0 then NoSplit
    else
      var n := LazySplit(s[gap..], 1, follows);
      if n > 0 then Split(s[gap..][..n], s[gap..][n..]) else SplitBody(s, gap - 1, follows)
  }

  function ParseRegister(line: string): Option<Command>
  {
    if |line| < 14 || ToUpper(line[..14]) != "REGISTER QUERY" then None else
    var id := Peel(line[14..]);
    if id.Nothing? || !IsWord(id.token) then None else
    var as_ := Peel(id.rest);
    if as_.Nothing? || ToUpper(as_.token) != "AS" then None else
    var body := SplitBody(as_.rest, PrefixLength(as_.rest, RegexSpace), HasTail);
    if body.NoSplit? then None
    else
      var mode := if Contains(ToUpper(line), "FROM NOW") then Now else Beginning;
      Some(Command(id.token, TrimSpace(body.group), MatchTail(body.rest).cursor, mode))
  }

  // ---- printing ----

  function PrintTail(cursor: Option<string>, mode: Mode): string
  {
    (if cursor.Some? then " WITH CURSOR " + cursor.value else "") + (if mode == Now then " FROM NOW" else "")
  }

  function Print(c: Command): string
  {
    "REGISTER QUERY" + (" " + c.id + (" AS" + (" " + (c.sql + PrintTail(c.cursor, c.mode)))))
  }

  /** A command whose parts have the documented form; the SQL is one trimmed line. */
  predicate WellFormed(c: Command)
  {
    && IsWord(c.id) && (c.cursor.Some? ==> IsWord(c.cursor.value))
    && c.sql != [] && Trimmed(c.sql) && '\n' !in c.sql
  }

  // ---- tokens ----

  function Tokens(s: string): seq<string>
  {
    Runs(s, NonSpace)
  }

  predicate IsToken(w: string)
  {
    w != [] && forall i | 0 <= i < |w| :: NonSpace(w[i])
  }

  lemma TokensStep(w: string, rest: string)
    requires IsToken(w) && (rest == [] || StartsWithSpace(rest))
    ensures Tokens(w + rest) == [w] + Tokens(rest)
  {
    PrefixLengthIs(w + rest, NonSpace, |w|);
    assert (w + rest)[..|w|] == w && (w + rest)[|w|..] == rest;
  }

  lemma TokensSkip(s: string)
    requires StartsWithSpace(s)
    ensures Tokens(s) == Tokens(s[1..])
  {
    PrefixLengthIs(s, NonSpace, 0);
  }

  lemma {:induction false} TokensSkipAll(s: string, n: nat)
    requires n <= |s| && forall i | 0 <= i < n :: RegexSpace(s[i])
    ensures Tokens(s) == Tokens(s[n..])
    decreases n
  {
    if n > 0 {
      TokensSkip(s);
      TokensSkipAll(s[1..], n - 1);
      assert s[1..][n - 1..] == s[n..];
    } else {
      assert s[0..] == s;
    }
  }

  lemma PeelTokens(s: string)
    requires s == [] || StartsWithSpace(s)
    ensures Peel(s).Nothing? ==> Tokens(s) == [] && AllSpace(s)
    ensures Peel(s).Peeled? ==>
              && Tokens(s) == [Peel(s).token] + Tokens(Peel(s).rest) && IsToken(Peel(s).token)
              && (Peel(s).rest == [] || StartsWithSpace(Peel(s).rest)) && !AllSpace(s)
  {
    var gap := PrefixLength(s, RegexSpace);
    TokensSkipAll(s, gap);
    var t := s[gap..];
    var length := PrefixLength(t, NonSpace);
    if Peel(s).Peeled? {
      assert t == t[..length] + t[length..];
      TokensStep(t[..length], t[length..]);
      assert s[gap..gap + length] == t[..length] && s[gap + length..] == t[length..];
      assert !RegexSpace(s[gap]);
    } else {
      assert t == [];
    }
  }

  lemma {:induction false} TokensConcat(a: string, b: string)
    requires b == [] || StartsWithSpace(b)
    ensures Tokens(a + b) == Tokens(a) + Tokens(b)
    decreases |a|
  {
    if a == [] {
      assert a + b == b;
    } else if RegexSpace(a[0]) {
      TokensSkip(a);
      TokensSkip(a + b);
      assert (a + b)[1..] == a[1..] + b;
      TokensConcat(a[1..], b);
    } else {
      var n := PrefixLength(a, NonSpace);
      TokensConcat(a[n..], b);
      assert a == a[..n] + a[n..];
      TokenBefore(a[..n], a[n..], b);
    }
  }

  lemma TokenBefore(w: string, rest: string, b: string)
    requires IsToken(w) && (rest == [] || StartsWithSpace(rest)) && (b == [] || StartsWithSpace(b))
    ensures Tokens(w + rest) == [w] + Tokens(rest) && Tokens(w + rest + b) == [w] + Tokens(rest + b)
  {
    TokensStep(w, rest);
    assert w + rest + b == w + (rest + b);
    TokensStep(w, rest + b);
  }

  /** Token lists that spell `FROM NOW`, in any case. */
  predicate NowTokens(t: seq<string>)
  {
    |t| == 2 && ToUpper(t[0]) == "FROM" && ToUpper(t[1]) == "NOW"
  }

  /** Token lists that spell `WITH CURSOR column`. */
  predicate CursorTokens(t: seq<string>)
  {
    |t| == 3 && ToUpper(t[0]) == "WITH" && ToUpper(t[1]) == "CURSOR" && IsWord(t[2])
  }

  /** The token lists the tail pattern accepts. */
  predicate TailTokens(t: seq<string>)
  {
    t == [] || NowTokens(t) || CursorTokens(t) || (|t| == 5 && CursorTokens(t[..3]) && NowTokens(t[3..]))
  }

  lemma NowTailIff(s: string)
    requires s == [] || StartsWithSpace(s)
    ensures MatchesNowTail(s) <==> Tokens(s) == [] || NowTokens(Tokens(s))
  {
    PeelTokens(s);
    if Peel(s).Peeled? {
      var rest := Peel(s).rest;
      PeelTokens(rest);
      if Peel(rest).Peeled? {
        AllSpaceTokens(Peel(rest).rest);
        TwoAhead(Peel(s).token, Peel(rest).token, Tokens(Peel(rest).rest));
      }
    }
  }

  lemma TwoAhead(a: string, b: string, rest: seq<string>)
    ensures [a] + ([b] + rest) == [a, b] + rest
  {
  }

  lemma AllSpaceTokens(s: string)
    requires s == [] || StartsWithSpace(s)
    ensures AllSpace(s) <==> Tokens(s) == []
  {
    PeelTokens(s);
  }

  /** The tail matches exactly the four token shapes, and captures the third token. */
  lemma TailIff(s: string)
    requires s == [] || StartsWithSpace(s)
    ensures MatchTail(s).Tail? <==> TailTokens(Tokens(s))
    ensures MatchTail(s).Tail? ==> MatchTail(s).cursor == if |Tokens(s)| >= 3 then Some(Tokens(s)[2]) else None
  {
    NowTailIff(s);
    MatchCursorIff(s);
    var t, clause := Tokens(s), MatchCursor(s);
    if clause.Clause? {
      NowTailIff(clause.rest);
      assert |t| == 5 ==> t[3..] == Tokens(clause.rest);
      assert |t| == 3 ==> t[..3] == t;
    }
    assert TailTokens(t) && |t| >= 3 ==> CursorTokens(t[..3]) by {
      assert |t| == 3 ==> t[..3] == t;
    }
  }

  /** The cursor clause matches exactly when the first three tokens spell it; it leaves the other tokens. */
  lemma MatchCursorIff(s: string)
    requires s == [] || StartsWithSpace(s)
    ensures MatchCursor(s).Clause? <==> |Tokens(s)| >= 3 && CursorTokens(Tokens(s)[..3])
    ensures MatchCursor(s).Clause? ==>
              && MatchCursor(s).column == Tokens(s)[2] && Tokens(MatchCursor(s).rest) == Tokens(s)[3..]
              && (MatchCursor(s).rest == [] || StartsWithSpace(MatchCursor(s).rest))
  {
    PeelTokens(s);
    if Peel(s).Peeled? {
      var r := Peel(s).rest;
      PeelTokens(r);
      if Peel(r).Peeled? {
        var q := Peel(r).rest;
        PeelTokens(q);
        if Peel(q).Peeled? {
          ThreeTokens(Peel(s).token, Peel(r).token, Peel(q).token, Tokens(Peel(q).rest), Tokens(s));
        }
      }
    }
  }

  lemma ThreeTokens(a: string, b: string, c: string, rest: seq<string>, all: seq<string>)
    requires all == [a] + ([b] + ([c] + rest))
    ensures |all| >= 3 && all[..3] == [a, b, c] && all[3..] == rest
  {
  }
}
