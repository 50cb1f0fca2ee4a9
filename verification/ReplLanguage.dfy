/** The lines the console takes for a REGISTER command: exactly the language of its pattern. */
module ReplLanguage {
  import opened Rows
  import opened Text
  import opened SqlText
  import opened Repl
  import opened ReplRoundTrip

  predicate Gap(g: string)
  {
    g != [] && AllSpace(g)
  }

  /** `(?:\s+WITH\s+CURSOR\s+(\w+))?(?:\s+FROM\s+NOW)?\s*$`, said on tokens. */
  predicate TailText(tail: string)
  {
    (tail == [] || StartsWithSpace(tail)) && TailTokens(Tokens(tail))
  }

  /** What follows REGISTER QUERY, cut the way the pattern says. */
  predicate Cut(
    s: string, g1: string, id: string, g2: string, as_: string, g3: string, group: string, tail: string)
  {
    && s == g1 + (id + (g2 + (as_ + (g3 + (group + tail)))))
    && Gap(g1) && Gap(g2) && Gap(g3) && IsWord(id) && EqualFold(as_, "AS")
    && group != [] && '\n' !in group && TailText(tail)
  }

  /** The line belongs to the pattern's language. */
  ghost predicate Registers(line: string)
  {
    && |line| >= 14 && EqualFold(line[..14], "REGISTER QUERY")
    && exists g1, id, g2, as_, g3, group, tail :: Cut(line[14..], g1, id, g2, as_, g3, group, tail)
  }

  lemma Keywords()
    ensures ToUpper("AS") == "AS" && ToUpper("REGISTER QUERY") == "REGISTER QUERY" && ToUpper("FROM NOW") == "FROM NOW"
  {
    UpperIsSame("AS");
    UpperIsSame("REGISTER QUERY");
    UpperIsSame("FROM NOW");
  }

  lemma TailTextIff(tail: string)
    ensures HasTail(tail) <==> TailText(tail)
  {
    if tail == [] || StartsWithSpace(tail) {
      TailIff(tail);
    } else {
      NoTailInside(tail);
    }
  }

  lemma NoTailInside(tail: string)
    requires tail != [] && !RegexSpace(tail[0])
    ensures !HasTail(tail)
  {
    assert PrefixLength(tail, RegexSpace) == 0;
  }

  // ---- what the pattern accepts is in the language ----

  lemma PeelParts(s: string) returns (g: string)
    requires Peel(s).Peeled?
    ensures s == g + (Peel(s).token + Peel(s).rest) && Gap(g)
  {
    var gap := PrefixLength(s, RegexSpace);
    var length := PrefixLength(s[gap..], NonSpace);
    g := s[..gap];
    assert s == s[..gap] + (s[gap..gap + length] + s[gap + length..]);
  }

  lemma BodyParts(s: string) returns (g: string)
    requires SplitBody(s, PrefixLength(s, RegexSpace), HasTail).Split?
    ensures var b := SplitBody(s, PrefixLength(s, RegexSpace), HasTail);
            s == g + (b.group + b.rest) && Gap(g) && b.group != [] && '\n' !in b.group && HasTail(b.rest)
  {
    var gap := PrefixLength(s, RegexSpace);
    var k := SplitBodyCut(s, gap, HasTail);
    SplitBodyOneLine(s, gap, HasTail);
    g := s[..k];
    assert s == s[..k] + s[k..];
  }

  lemma AcceptedIsCut(line: string)
    requires ParseRegister(line).Some?
    ensures Registers(line)
  {
    var s := line[14..];
    Keywords();
    FoldIff(line[..14], "REGISTER QUERY");
    var g1 := PeelParts(s);
    var id := Peel(s);
    var g2 := PeelParts(id.rest);
    var as_ := Peel(id.rest);
    FoldIff(as_.token, "AS");
    var g3 := BodyParts(as_.rest);
    var b := SplitBody(as_.rest, PrefixLength(as_.rest, RegexSpace), HasTail);
    TailTextIff(b.rest);
    assert Cut(s, g1, id.token, g2, as_.token, g3, b.group, b.rest);
  }

  // ---- what is in the language is accepted ----

  lemma PeelGap(g: string, w: string, rest: string)
    requires Gap(g) && IsToken(w) && (rest == [] || StartsWithSpace(rest))
    ensures Peel(g + (w + rest)) == Peeled(w, rest)
  {
    var s := g + (w + rest);
    ThreeParts(g, w, rest);
    PrefixLengthIs(s, RegexSpace, |g|);
    PrefixLengthIs(w + rest, NonSpace, |w|);
  }

  lemma ThreeParts(a: string, b: string, c: string)
    ensures var s := a + (b + c); s[|a|..] == b + c && s[|a|..|a| + |b|] == b && s[|a| + |b|..] == c
    ensures forall i | 0 <= i < |a| :: (a + (b + c))[i] == a[i]
    ensures b != [] ==> (a + (b + c))[|a|] == b[0]
  {
  }

  lemma {:induction false} SplitBodyFinds(s: string, gap: nat, k: nat, m: nat, follows: string -> bool)
    requires 1 <= k <= gap <= |s| && m >= 1 && k + m <= |s| && '\n' !in s[k..][..m] && follows(s[k..][m..])
    ensures SplitBody(s, gap, follows).Split?
  {
    if gap == k {
      LazySplitFirst(s[k..], 1, m, follows);
    } else {
      SplitBodyFinds(s, gap - 1, k, m, follows);
    }
  }

  lemma BodyFinds(g: string, group: string, tail: string)
    requires Gap(g) && group != [] && '\n' !in group && HasTail(tail)
    ensures var s := g + (group + tail); SplitBody(s, PrefixLength(s, RegexSpace), HasTail).Split?
  {
    var s := g + (group + tail);
    assert forall i | 0 <= i < |g| :: s[i] == g[i];
    assert s[|g|..] == group + tail;
    assert (group + tail)[..|group|] == group && (group + tail)[|group|..] == tail;
    SplitBodyFinds(s, PrefixLength(s, RegexSpace), |g|, |group|, HasTail);
  }

  lemma AsIsToken(w: string)
    requires EqualFold(w, "AS")
    ensures IsToken(w)
  {
    assert UpperChar(w[0]) == UpperChar("AS"[0]) == 'A' && UpperChar(w[1]) == UpperChar("AS"[1]) == 'S';
  }

  lemma GapStarts(g: string, rest: string)
    requires Gap(g)
    ensures StartsWithSpace(g + rest)
  {
    assert RegexSpace(g[0]);
  }

  lemma CutIsAccepted(
    line: string, g1: string, id: string, g2: string, as_: string, g3: string, group: string, tail: string)
    requires |line| >= 14 && EqualFold(line[..14], "REGISTER QUERY")
    requires Cut(line[14..], g1, id, g2, as_, g3, group, tail)
    ensures ParseRegister(line).Some? && ParseRegister(line).value.id == id
  {
    var afterAs := g3 + (group + tail);
    var afterId := g2 + (as_ + afterAs);
    Keywords();
    FoldIff(line[..14], "REGISTER QUERY");
    FoldIff(as_, "AS");
    TailTextIff(tail);
    WordIsToken(id);
    GapStarts(g2, as_ + afterAs);
    PeelGap(g1, id, afterId);
    AsIsToken(as_);
    GapStarts(g3, group + tail);
    PeelGap(g2, as_, afterAs);
    BodyFinds(g3, group, tail);
    Accepts(line, id, as_, afterId, afterAs);
  }

  lemma Accepts(line: string, id: string, as_: string, afterId: string, afterAs: string)
    requires |line| >= 14 && ToUpper(line[..14]) == "REGISTER QUERY" && IsWord(id) && ToUpper(as_) == "AS"
    requires Peel(line[14..]) == Peeled(id, afterId) && Peel(afterId) == Peeled(as_, afterAs)
    requires SplitBody(afterAs, PrefixLength(afterAs, RegexSpace), HasTail).Split?
    ensures ParseRegister(line).Some? && ParseRegister(line).value.id == id
  {
  }

  /**
   * A line is a REGISTER command iff it belongs to the pattern's language: REGISTER QUERY, a word, AS,
   * one line of text and a clause tail, in any letter case and with any gaps; and the mode is NOW iff
   * the line holds "FROM NOW" in any letter case.
   */
  lemma RegistersIff(line: string)
    ensures ParseRegister(line).Some? <==> Registers(line)
    ensures ParseRegister(line).Some? ==> (ParseRegister(line).value.mode == Now <==> HoldsFold(line, "FROM NOW"))
  {
    Keywords();
    HoldsFoldIff(line, "FROM NOW");
    if ParseRegister(line).Some? {
      AcceptedIsCut(line);
    }
    if Registers(line) {
      var g1, id, g2, as_, g3, group, tail :| Cut(line[14..], g1, id, g2, as_, g3, group, tail);
      CutIsAccepted(line, g1, id, g2, as_, g3, group, tail);
    }
  }
}
