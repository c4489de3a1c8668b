/** What a merchant candidate is, in terms of the characters of the message alone. */
module MerchantCandidatesMeaning {
  import opened Spans
  import opened MerchantCandidates

  /** A digit, a Latin letter or a Hangul syllable. */
  predicate IsWordChar(c: char) {
    var n := c as int;
    48 <= n <= 57 || 65 <= n <= 90 || 97 <= n <= 122 || 0xAC00 <= n <= 0xD7A3
  }

  /** A blank other than a line feed, or one of ( ) - . [ ] _ */
  predicate IsJoinerChar(c: char) {
    var n := c as int;
    || n == 9 || 11 <= n <= 13 || n == 32 || n == 0xA0 || n == 0x1680 || 0x2000 <= n <= 0x200A || n == 0x2028 || n == 0x2029
    || n == 0x202F || n == 0x205F || n == 0x3000 || n == 0xFEFF
    || n == 40 || n == 41 || n == 45 || n == 46 || n == 91 || n == 93 || n == 95
  }

  /** A longest stretch of word characters. */
  predicate IsWord(content: string, a: nat, b: nat) {
    && a < b <= |content| && (forall k | a <= k < b :: IsWordChar(content[k]))
    && (a > 0 ==> !IsWordChar(content[a - 1])) && (b < |content| ==> !IsWordChar(content[b]))
  }

  /** A word that is no keyword and not only digits. */
  predicate IsFreeWord(content: string, keywords: set<string>, a: nat, b: nat) {
    IsWord(content, a, b) && content[a..b] !in keywords && exists k | a <= k < b :: !('0' <= content[k] <= '9')
  }

  function Free(content: string, keywords: set<string>): (free: seq<Span>)
    ensures Ordered(content, free)
  {
    FreeTokens(content, keywords, Tokens(content))
  }

  lemma WordIsToken(content: string, a: nat, b: nat)
    ensures IsWord(content, a, b) <==> IsToken(content, Span(a, b))
  {
    if IsWord(content, a, b) {
      assert forall k | a <= k < b :: TokenAt(content, k) by { assert forall k | a <= k < b :: IsWordChar(content[k]); }
    }
    if IsToken(content, Span(a, b)) {
      forall k | a <= k < b ensures IsWordChar(content[k]) { assert TokenAt(content, k); }
    }
  }

  lemma DigitsMeaning(content: string, a: nat, b: nat)
    requires a < b <= |content|
    ensures AllDigits(content[a..b]) <==> forall k | a <= k < b :: '0' <= content[k] <= '9'
  {
    var word := content[a..b];
    forall i | 0 <= i < |word| ensures word[i] == content[a + i] {}
    if AllDigits(word) {
      forall k | a <= k < b ensures '0' <= content[k] <= '9' { assert word[k - a] == content[k]; }
    }
  }

  /** The free tokens are the free words. */
  lemma FreeWords(content: string, keywords: set<string>, a: nat, b: nat)
    ensures Span(a, b) in Free(content, keywords) <==> IsFreeWord(content, keywords, a, b)
  {
    FreeMeaning(content, keywords, Tokens(content), Span(a, b));
    TokensAreRuns(content, Span(a, b));
    WordIsToken(content, a, b);
    if a < b <= |content| { DigitsMeaning(content, a, b); }
  }

  ghost predicate InFreeWord(content: string, keywords: set<string>, k: nat) {
    exists a: nat, b: nat :: a <= k < b && IsFreeWord(content, keywords, a, b)
  }

  /** Everything between two places can stand inside one candidate. */
  ghost predicate Joined(content: string, keywords: set<string>, from: nat, to: nat) {
    forall k: nat | from <= k < to :: k < |content| && (IsJoinerChar(content[k]) || InFreeWord(content, keywords, k))
  }

  ghost predicate InOneCandidate(content: string, keywords: set<string>, from: nat, to: nat) {
    exists s :: s in Candidates(content, keywords) && s.start <= from && to <= s.end
  }

  lemma JoinerMeaning(content: string, k: nat)
    ensures JoinsAt(content, k) <==> k < |content| && IsJoinerChar(content[k])
  {
  }

  lemma HeldMeaning(content: string, keywords: set<string>, k: nat)
    ensures InFreeWord(content, keywords, k) <==> exists f :: HoldsChar(Free(content, keywords), f, k)
  {
    var free := Free(content, keywords);
    if InFreeWord(content, keywords, k) {
      var a: nat, b: nat :| a <= k < b && IsFreeWord(content, keywords, a, b);
      FreeWords(content, keywords, a, b);
      var f :| 0 <= f < |free| && free[f] == Span(a, b);
      assert HoldsChar(free, f, k);
    }
    if f :| HoldsChar(free, f, k) {
      FreeWords(content, keywords, free[f].start, free[f].end);
      assert free[f] == Span(free[f].start, free[f].end);
    }
  }

  /** A place between two free tokens is in a gap or in a free token. */
  lemma {:induction false} GapOrToken(content: string, free: seq<Span>, i: nat, j: nat, k: nat) returns (m: nat)
    requires Ordered(content, free) && i <= j < |free| && free[i].end <= k < free[j].start
    ensures i <= m < j && (HoldsChar(free, m, k) || free[m].end <= k < free[m + 1].start)
    decreases j
  {
    if free[j - 1].end <= k {
      m := j - 1;
    } else if free[j - 1].start <= k {
      m := j - 1;
    } else {
      m := GapOrToken(content, free, i, j - 1, k);
    }
  }

  lemma NobodysGap(content: string, free: seq<Span>, m: nat, k: nat, f: int)
    requires Ordered(content, free) && m + 1 < |free| && free[m].end <= k < free[m + 1].start
    ensures !HoldsChar(free, f, k)
  {
    if 0 <= f < m { assert free[f].end <= free[m].start < free[m].end; }
    if m + 1 < f < |free| { assert free[m + 1].start < free[m + 1].end <= free[f].start; }
  }

  lemma GapsMeaning(content: string, keywords: set<string>, i: nat, j: nat)
    requires i <= j < |Free(content, keywords)|
    ensures GapsJoin(content, Free(content, keywords), i, j)
       <==> Joined(content, keywords, Free(content, keywords)[i].end, Free(content, keywords)[j].start)
  {
    var free := Free(content, keywords);
    if GapsJoin(content, free, i, j) {
      forall k: nat | free[i].end <= k < free[j].start
        ensures k < |content| && (IsJoinerChar(content[k]) || InFreeWord(content, keywords, k))
      {
        var m := GapOrToken(content, free, i, j, k);
        HeldMeaning(content, keywords, k);
        JoinerMeaning(content, k);
        if !HoldsChar(free, m, k) { assert GapJoins(content, free, m); }
      }
    }
    if Joined(content, keywords, free[i].end, free[j].start) {
      forall m | i <= m < j ensures GapJoins(content, free, m) {
        forall k: nat | free[m].end <= k < free[m + 1].start ensures JoinsAt(content, k) {
          InRange(content, free, i, m, j);
          HeldMeaning(content, keywords, k);
          forall f ensures !HoldsChar(free, f, k) { NobodysGap(content, free, m, k, f); }
          JoinerMeaning(content, k);
        }
      }
    }
  }

  lemma InRange(content: string, free: seq<Span>, i: nat, m: nat, j: nat)
    requires Ordered(content, free) && i <= m < j < |free|
    ensures free[i].end <= free[m].end && free[m + 1].start <= free[j].start
  {
    if i < m { assert free[i].end <= free[m].start; }
    if m + 1 < j { assert free[m + 1].end <= free[j].start; }
  }

  lemma OneCandidateMeaning(content: string, keywords: set<string>, i: nat, j: nat)
    requires i <= j < |Free(content, keywords)|
    ensures Together(content, Free(content, keywords), i, j)
       <==> InOneCandidate(content, keywords, Free(content, keywords)[i].start, Free(content, keywords)[j].end)
  {
    var free, all := Free(content, keywords), Candidates(content, keywords);
    assert free[i].end <= free[j].end && free[i].start <= free[j].start;
    if Together(content, free, i, j) {
      var k :| CoveredBy(content, free, k, i) && CoveredBy(content, free, k, j);
      assert all[k] in all;
    }
    if s :| s in all && s.start <= free[i].start && free[j].end <= s.end {
      var k :| 0 <= k < |all| && all[k] == s;
      assert CoveredBy(content, free, k, i) && CoveredBy(content, free, k, j);
    }
  }

  lemma InListOrder(content: string, free: seq<Span>, i: nat, j: nat)
    requires Ordered(content, free) && i < |free| && j < |free| && free[i].start <= free[j].start
    ensures i <= j
  {
    assert Fits(content, free[i]) && Fits(content, free[j]);
  }

  /**
   * Two free words are in one candidate exactly when everything between them is either a joining character or inside a free
   * word: a keyword, a number, another sign or a line feed in between keeps them apart.
   */
  lemma OneCandidateIff(content: string, keywords: set<string>, a: nat, b: nat, c: nat, d: nat)
    requires IsFreeWord(content, keywords, a, b) && IsFreeWord(content, keywords, c, d) && a <= c
    ensures InOneCandidate(content, keywords, a, d) <==> Joined(content, keywords, b, c)
  {
    var free := Free(content, keywords);
    FreeWords(content, keywords, a, b);
    FreeWords(content, keywords, c, d);
    var i: nat :| i < |free| && free[i] == Span(a, b);
    var j: nat :| j < |free| && free[j] == Span(c, d);
    InListOrder(content, free, i, j);
    CandidatesAreChains(content, free, i, j);
    GapsMeaning(content, keywords, i, j);
    OneCandidateMeaning(content, keywords, i, j);
  }

  /** A candidate goes from the start of a free word to the end of one. */
  lemma CandidateMeaning(content: string, keywords: set<string>, s: Span) returns (b: nat, c: nat)
    requires s in Candidates(content, keywords)
    ensures IsFreeWord(content, keywords, s.start, b) && IsFreeWord(content, keywords, c, s.end) && s.start <= c
  {
    var free, all := Free(content, keywords), Candidates(content, keywords);
    var k: nat :| k < |all| && all[k] == s;
    var i, j := CandidateEnds(content, free, k);
    var first, last := free[i], free[j];
    assert first.start <= last.start by { if i < j { assert Fits(content, first) && first.end <= last.start; } }
    b, c := first.end, last.start;
    assert first == Span(s.start, b) && last == Span(c, s.end);
    FreeWords(content, keywords, s.start, b);
    FreeWords(content, keywords, c, s.end);
  }

  /** Every free word is in exactly one candidate, and the candidates are listed from left to right without overlap. */
  lemma EveryFreeWordOnce(content: string, keywords: set<string>, a: nat, b: nat) returns (k: nat)
    requires IsFreeWord(content, keywords, a, b)
    ensures var all := Candidates(content, keywords);
            && k < |all| && all[k].start <= a && b <= all[k].end
            && forall m | 0 <= m < |all| && m != k :: if m < k then all[m].end <= a else b <= all[m].start
  {
    var free, all := Free(content, keywords), Candidates(content, keywords);
    FreeWords(content, keywords, a, b);
    var i: nat :| i < |free| && free[i] == Span(a, b);
    k := CoveredOnce(content, free, i);
  }
}
