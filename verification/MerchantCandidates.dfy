/**
 * Merchant candidates of a card message: runs of free tokens with nothing but blanks and light punctuation between them.
 *
 * The tokens are the longest runs of digits, Latin letters and Hangul syllables; the word list of keywords is a parameter.
 */
module MerchantCandidates {
  import opened Wrappers
  import opened Spans
  import Strings

  /** White space and the punctuation that may stand inside a merchant name. */
  predicate IsJoiner(c: char) {
    Strings.IsWhitespace(c) || c == '(' || c == ')' || c == '[' || c == ']' || c == '.' || c == '_' || c == '-'
  }

  predicate JoinsAt(content: string, k: int) { 0 <= k < |content| && content[k] != '\n' && IsJoiner(content[k]) }

  /** The text between two positions can stand inside one candidate. */
  predicate Joinable(content: string, from: nat, to: nat) { forall k | from <= k < to :: JoinsAt(content, k) }

  predicate Fits(content: string, s: Span) { s.start < s.end <= |content| }

  function Last(spans: seq<Span>): Span
    requires spans != []
  {
    spans[|spans| - 1]
  }

  function Front(spans: seq<Span>): seq<Span>
    requires spans != []
  {
    spans[..|spans| - 1]
  }

  /** The spans with the last one going on to a later end. */
  function WithEnd(spans: seq<Span>, end: nat): seq<Span>
    requires spans != []
  {
    spans[|spans| - 1 := Span(Last(spans).start, end)]
  }

  /** Non-empty spans inside the text, from left to right without overlap. */
  predicate Ordered(content: string, spans: seq<Span>) {
    && (forall i | 0 <= i < |spans| :: Fits(content, spans[i]))
    && forall i, j | 0 <= i < j < |spans| :: spans[i].end <= spans[j].start
  }

  predicate Follows(spans: seq<Span>, t: Span) { spans != [] ==> Last(spans).end <= t.start }

  predicate Covers(s: Span, t: Span) { s.start <= t.start && t.end <= s.end }

  /** The next free token joins the last candidate if the gap allows, and opens a new one otherwise. */
  function Extend(content: string, runs: seq<Span>, t: Span): (r: seq<Span>)
    requires Ordered(content, runs) && Follows(runs, t) && Fits(content, t)
    ensures Ordered(content, r) && r != [] && Last(r).end == t.end && Covers(Last(r), t)
  {
    if runs != [] && Joinable(content, Last(runs).end, t.start) then WithEnd(runs, t.end) else runs + [t]
  }

  function Runs(content: string, free: seq<Span>): (r: seq<Span>)
    requires Ordered(content, free)
    ensures Ordered(content, r) && (free == [] <==> r == [])
    ensures free != [] ==> Last(r).end == Last(free).end && Covers(Last(r), Last(free))
  {
    if free == [] then [] else Extend(content, Runs(content, Front(free)), Last(free))
  }

  // ---- tokens ----

  /** A digit, a Latin letter or a Hangul syllable. */
  predicate IsTokenChar(c: char) {
    '0' <= c <= '9' || 'A' <= c <= 'Z' || 'a' <= c <= 'z' || '\U{AC00}' <= c <= '\U{D7A3}'
  }

  predicate TokenAt(content: string, k: int) { 0 <= k < |content| && IsTokenChar(content[k]) }

  /** A longest run of token characters. */
  predicate IsToken(content: string, t: Span) {
    Fits(content, t) && (forall k | t.start <= k < t.end :: TokenAt(content, k)) && !TokenAt(content, t.start - 1) && !TokenAt(content, t.end)
  }

  /** The tokens of the first `n` characters. */
  function TokensUpTo(content: string, n: nat): (r: seq<Span>)
    requires n <= |content|
    ensures Ordered(content, r) && (r != [] ==> Last(r).end <= n) && (TokenAt(content, n - 1) ==> r != [] && Last(r).end == n)
  {
    if n == 0 then []
    else
      var before := TokensUpTo(content, n - 1);
      if !TokenAt(content, n - 1) then before
      else if TokenAt(content, n - 2) then WithEnd(before, n)
      else before + [Span(n - 1, n)]
  }

  function Tokens(content: string): (r: seq<Span>)
    ensures Ordered(content, r)
  {
    TokensUpTo(content, |content|)
  }

  lemma InOrder(content: string, spans: seq<Span>, t: Span)
    requires Ordered(content, spans) && spans != []
    ensures t in spans <==> t in Front(spans) || t == Last(spans)
    ensures t in Front(spans) ==> t.end <= Last(spans).start < Last(spans).end
    ensures t in spans ==> t.end <= Last(spans).end
  {
    assert spans == Front(spans) + [Last(spans)];
  }

  /** A longest run of token characters, as far as the first `n` characters show. */
  predicate IsRun(content: string, n: nat, t: Span) {
    && t.start < t.end <= n <= |content| && (forall k | t.start <= k < t.end :: TokenAt(content, k))
    && !TokenAt(content, t.start - 1) && (t.end < n ==> !TokenAt(content, t.end))
  }

  /** Whether a span is a token so far, in terms of one character less. */
  lemma RunStep(content: string, n: nat, t: Span)
    requires 0 < n <= |content|
    ensures IsRun(content, n, t) <==>
            if !TokenAt(content, n - 1) || t.end < n - 1 then IsRun(content, n - 1, t)
            else if TokenAt(content, n - 2) then t.end == n && IsRun(content, n - 1, Span(t.start, n - 1))
            else t == Span(n - 1, n)
  {
    if t.end == n && t.start < n { assert IsRun(content, n, t) ==> TokenAt(content, n - 1); }
    if t.end == n && t.start < n - 1 { assert IsRun(content, n, t) ==> TokenAt(content, n - 2); }
    if t.end == n && t.start == n - 1 { assert IsRun(content, n, t) ==> !TokenAt(content, n - 2); }
  }

  lemma TokensStep(content: string, n: nat, t: Span)
    requires 0 < n <= |content|
    ensures t in TokensUpTo(content, n) <==>
            if !TokenAt(content, n - 1) || t.end < n - 1 then t in TokensUpTo(content, n - 1)
            else if TokenAt(content, n - 2) then t.end == n && Span(t.start, n - 1) in TokensUpTo(content, n - 1)
            else t == Span(n - 1, n)
  {
    var before, now := TokensUpTo(content, n - 1), TokensUpTo(content, n);
    if before != [] { InOrder(content, before, t); }
    if TokenAt(content, n - 1) {
      InOrder(content, now, t);
      if TokenAt(content, n - 2) {
        assert Front(now) == Front(before);
        InOrder(content, before, Span(t.start, n - 1));
      } else {
        assert Front(now) == before;
      }
    }
  }

  lemma {:induction false} RunsUpTo(content: string, n: nat, t: Span)
    requires n <= |content|
    ensures t in TokensUpTo(content, n) <==> IsRun(content, n, t)
  {
    if n > 0 {
      RunStep(content, n, t);
      TokensStep(content, n, t);
      RunsUpTo(content, n - 1, t);
      RunsUpTo(content, n - 1, Span(t.start, n - 1));
    }
  }

  /** The tokens of a text are exactly its longest runs of token characters. */
  lemma TokensAreRuns(content: string, t: Span)
    ensures t in Tokens(content) <==> IsToken(content, t)
  {
    RunsUpTo(content, |content|, t);
  }

  lemma SkipsGap(content: string, from: nat, to: nat)
    requires from <= to <= |content| && forall k | from <= k < to :: !TokenAt(content, k)
    ensures TokensUpTo(content, to) == TokensUpTo(content, from)
  {
    if from < to { SkipsGap(content, from, to - 1); }
  }

  lemma RunGrows(content: string, n: nat, before: seq<Span>, start: nat)
    requires 0 < n <= |content| && TokenAt(content, n - 1) && TokenAt(content, n - 2)
    requires TokensUpTo(content, n - 1) == before + [Span(start, n - 1)]
    ensures TokensUpTo(content, n) == before + [Span(start, n)]
  {
  }

  lemma {:induction false} TakesRun(content: string, start: nat, end: nat)
    requires start < end <= |content| && !TokenAt(content, start - 1) && forall k | start <= k < end :: TokenAt(content, k)
    ensures TokensUpTo(content, end) == TokensUpTo(content, start) + [Span(start, end)]
  {
    assert TokenAt(content, end - 1);
    if start + 1 < end {
      assert TokenAt(content, end - 2);
      TakesRun(content, start, end - 1);
      RunGrows(content, end, TokensUpTo(content, start), start);
    }
  }

  // ---- candidates ----

  predicate AllDigits(s: string) { s != "" && forall i | 0 <= i < |s| :: '0' <= s[i] <= '9' }

  predicate IsFree(content: string, keywords: set<string>, t: Span)
    requires Within(content, t)
  {
    Slice(content, t) !in keywords && !AllDigits(Slice(content, t))
  }

  function FreeTokens(content: string, keywords: set<string>, tokens: seq<Span>): (free: seq<Span>)
    requires Ordered(content, tokens)
    ensures Ordered(content, free)
    ensures free != [] && tokens != [] ==> Last(free).end <= Last(tokens).end
  {
    if tokens == [] then []
    else
      var before, t := FreeTokens(content, keywords, Front(tokens)), Last(tokens);
      if IsFree(content, keywords, t) then before + [t] else before
  }

  lemma {:induction false} FreeMeaning(content: string, keywords: set<string>, tokens: seq<Span>, t: Span)
    requires Ordered(content, tokens)
    ensures t in FreeTokens(content, keywords, tokens) <==> t in tokens && Within(content, t) && IsFree(content, keywords, t)
  {
    if tokens != [] {
      FreeMeaning(content, keywords, Front(tokens), t);
      InOrder(content, tokens, t);
    }
  }

  /** The search from a place has found this token, or nothing more. */
  predicate Found(content: string, from: nat, token: Option<Span>)
    requires from <= |content|
  {
    match token
    case None => Tokens(content) == TokensUpTo(content, from)
    case Some(t) => IsToken(content, t) && from <= t.start && TokensUpTo(content, t.end) == TokensUpTo(content, from) + [t]
  }

  /** The next token at or after a place, as the global token pattern finds it. */
  method NextToken(content: string, from: nat) returns (r: Option<Span>)
    requires from <= |content| && (TokenAt(content, from) ==> !TokenAt(content, from - 1))
    ensures Found(content, from, r)
  {
    var start := from;
    while start < |content| && !IsTokenChar(content[start])
      invariant from <= start <= |content| && forall k | from <= k < start :: !TokenAt(content, k)
    {
      start := start + 1;
    }
    SkipsGap(content, from, start);
    if start == |content| { return None; }
    var end := start + 1;
    while end < |content| && IsTokenChar(content[end])
      invariant start < end <= |content| && forall k | start <= k < end :: TokenAt(content, k)
    {
      end := end + 1;
    }
    TakesRun(content, start, end);
    r := Some(Span(start, end));
  }

  function Candidates(content: string, keywords: set<string>): (r: seq<Span>)
    ensures Ordered(content, r)
  {
    Runs(content, FreeTokens(content, keywords, Tokens(content)))
  }

  /** The candidates so far: those that are closed and the one under construction. */
  function Listed(spans: seq<Span>, current: Option<Span>): seq<Span> {
    if current.Some? then spans + [current.value] else spans
  }

  lemma RunsAppend(content: string, free: seq<Span>, t: Span)
    requires Ordered(content, free) && Fits(content, t) && Follows(free, t)
    ensures Ordered(content, free + [t]) && Follows(Runs(content, free), t)
    ensures Runs(content, free + [t]) == Extend(content, Runs(content, free), t)
  {
    var more := free + [t];
    assert Front(more) == free && Last(more) == t;
  }

  lemma ExtendListed(content: string, spans: seq<Span>, current: Option<Span>, t: Span)
    requires current.None? ==> spans == []
    requires Ordered(content, Listed(spans, current)) && Fits(content, t) && Follows(Listed(spans, current), t)
    ensures current.Some? ==> current.value.end <= t.start
    ensures Extend(content, Listed(spans, current), t) ==
            if current.Some? && Joinable(content, current.value.end, t.start) then spans + [Span(current.value.start, t.end)]
            else Listed(spans, current) + [t]
  {
    if current.Some? { assert Last(Listed(spans, current)) == current.value; }
  }

  lemma RunsNext(content: string, free: seq<Span>, t: Span, spans: seq<Span>, current: Option<Span>)
    requires Ordered(content, free) && Fits(content, t) && Follows(free, t)
    requires Runs(content, free) == Listed(spans, current) && (current.None? ==> spans == [])
    ensures Ordered(content, free + [t])
    ensures current.Some? ==> current.value.end <= t.start
    ensures Runs(content, free + [t]) ==
            if current.Some? && Joinable(content, current.value.end, t.start) then spans + [Span(current.value.start, t.end)]
            else Listed(spans, current) + [t]
  {
    RunsAppend(content, free, t);
    ExtendListed(content, spans, current, t);
  }

  lemma FreeNext(content: string, keywords: set<string>, tokens: seq<Span>, t: Span)
    requires Ordered(content, tokens + [t])
    ensures Ordered(content, tokens) && Fits(content, t) && Follows(FreeTokens(content, keywords, tokens), t)
    ensures FreeTokens(content, keywords, tokens + [t]) ==
            FreeTokens(content, keywords, tokens) + (if IsFree(content, keywords, t) then [t] else [])
  {
    var more := tokens + [t];
    assert Front(more) == tokens && Last(more) == t;
    forall i | 0 <= i < |tokens| ensures tokens[i].end <= t.start { assert more[i] == tokens[i] && more[|tokens|] == t; }
  }

  lemma NextFree(content: string, keywords: set<string>, at: nat, t: Span)
    requires at <= |content| && Found(content, at, Some(t))
    ensures Follows(FreeTokens(content, keywords, TokensUpTo(content, at)), t)
    ensures FreeTokens(content, keywords, TokensUpTo(content, t.end)) ==
            FreeTokens(content, keywords, TokensUpTo(content, at)) + (if IsFree(content, keywords, t) then [t] else [])
  {
    FreeNext(content, keywords, TokensUpTo(content, at), t);
  }

  /** What the loop has when it has searched up to a place. */
  predicate Reached(content: string, keywords: set<string>, at: nat, spans: seq<Span>, current: Option<Span>) {
    && at <= |content| && (current.None? ==> spans == [])
    && Runs(content, FreeTokens(content, keywords, TokensUpTo(content, at))) == Listed(spans, current)
  }

  lemma ReachedNext(content: string, keywords: set<string>, at: nat, t: Span, spans: seq<Span>, current: Option<Span>)
    requires Reached(content, keywords, at, spans, current) && Found(content, at, Some(t))
    ensures !IsFree(content, keywords, t) ==> Reached(content, keywords, t.end, spans, current)
    ensures IsFree(content, keywords, t) && current.Some? ==> current.value.end <= t.start
    ensures IsFree(content, keywords, t) ==>
            if current.Some? && Joinable(content, current.value.end, t.start)
            then Reached(content, keywords, t.end, spans, Some(Span(current.value.start, t.end)))
            else Reached(content, keywords, t.end, Listed(spans, current), Some(t))
  {
    NextFree(content, keywords, at, t);
    if IsFree(content, keywords, t) { RunsNext(content, FreeTokens(content, keywords, TokensUpTo(content, at)), t, spans, current); }
  }

  /** The loop of the program, which keeps the candidate under construction apart. */
  method FindMerchantCandidates(content: string, keywords: set<string>) returns (spans: seq<Span>)
    ensures spans == Candidates(content, keywords)
  {
    spans := [];
    var current: Option<Span>, at := None, 0;
    var token := NextToken(content, at);
    while token.Some?
      invariant Reached(content, keywords, at, spans, current) && Found(content, at, token)
      decreases |content| - at
    {
      var t := token.value;
      ReachedNext(content, keywords, at, t, spans, current);
      if IsFree(content, keywords, t) {
        if current.Some? && Joins(content, current.value.end, t.start) {
          current := Some(Span(current.value.start, t.end));
        } else {
          if current.Some? { spans := spans + [current.value]; }
          current := Some(t);
        }
      }
      at := t.end;
      token := NextToken(content, at);
    }
    if current.Some? { spans := spans + [current.value]; }
  }

  predicate Joins(content: string, from: nat, to: nat)
    requires from <= to <= |content|
    ensures Joins(content, from, to) <==> Joinable(content, from, to)
  {
    var between := content[from..to];
    assert forall k | from <= k < to :: content[k] == between[k - from];
    assert forall i | 0 <= i < |between| ::
        between[i] == content[from + i] && (JoinsAt(content, from + i) <==> between[i] != '\n' && IsJoiner(between[i]));
    '\n' !in between && forall i | 0 <= i < |between| :: IsJoiner(between[i])
  }

  predicate CoveredBy(content: string, free: seq<Span>, k: int, i: nat)
    requires Ordered(content, free) && i < |free|
  {
    0 <= k < |Runs(content, free)| && Covers(Runs(content, free)[k], free[i])
  }

  /** One more token leaves every earlier token in the candidate that held it. */
  lemma CoveredKept(content: string, free: seq<Span>, k: int, i: nat)
    requires Ordered(content, free) && i + 1 < |free|
    ensures CoveredBy(content, free, k, i) <==> CoveredBy(content, Front(free), k, i)
  {
    var earlier, now := Runs(content, Front(free)), Runs(content, free);
    assert 0 < |earlier| <= |now| <= |earlier| + 1;
    assert Front(free)[i] == free[i];
    assert free[i].end <= Last(earlier).end <= Last(free).start && Fits(content, free[i]);
    if k == |earlier| && k < |now| { assert now[k] == Last(free); }
  }

  lemma CoveredLast(content: string, free: seq<Span>)
    requires Ordered(content, free) && free != []
    ensures CoveredBy(content, free, |Runs(content, free)| - 1, |free| - 1)
  {
    var runs := Runs(content, free);
    assert Covers(Last(runs), Last(free)) && runs[|runs| - 1] == Last(runs);
  }

  lemma OneHome(content: string, runs: seq<Span>, t: Span, a: int, b: int)
    requires Ordered(content, runs) && Fits(content, t) && 0 <= a < |runs| && 0 <= b < |runs|
    requires Covers(runs[a], t) && Covers(runs[b], t)
    ensures a == b
  {
    assert !(runs[a].end <= runs[b].start) && !(runs[b].end <= runs[a].start);
  }

  lemma HomesInOrder(content: string, runs: seq<Span>, t: Span, u: Span, a: int, b: int)
    requires Ordered(content, runs) && t.start < u.end && 0 <= a < |runs| && 0 <= b < |runs|
    requires Covers(runs[a], t) && Covers(runs[b], u)
    ensures a <= b
  {
    assert !(runs[b].end <= runs[a].start);
  }

  /** A free token lies in exactly one candidate. */
  lemma {:induction false} CoveredOnce(content: string, free: seq<Span>, i: nat) returns (k: int)
    requires Ordered(content, free) && i < |free|
    ensures CoveredBy(content, free, k, i)
    ensures forall m :: CoveredBy(content, free, m, i) ==> m == k
  {
    if i + 1 < |free| {
      k := CoveredOnce(content, Front(free), i);
      forall m | CoveredBy(content, free, m, i) ensures m == k { CoveredKept(content, free, m, i); }
      CoveredKept(content, free, k, i);
    } else {
      k := |Runs(content, free)| - 1;
      CoveredLast(content, free);
      forall m | CoveredBy(content, free, m, i) ensures m == k { OneHome(content, Runs(content, free), free[i], m, k); }
    }
  }

  ghost predicate Together(content: string, free: seq<Span>, i: nat, j: nat)
    requires Ordered(content, free) && i < |free| && j < |free|
  {
    exists k :: CoveredBy(content, free, k, i) && CoveredBy(content, free, k, j)
  }

  predicate GapJoins(content: string, free: seq<Span>, m: nat)
    requires m + 1 < |free|
  {
    Joinable(content, free[m].end, free[m + 1].start)
  }

  lemma HomesAgree(content: string, free: seq<Span>, i: nat, j: nat, a: int, b: int)
    requires Ordered(content, free) && i < |free| && j < |free| && CoveredBy(content, free, a, i) && CoveredBy(content, free, b, j)
    ensures Together(content, free, i, j) <==> a == b
  {
    var one := CoveredOnce(content, free, i);
    var other := CoveredOnce(content, free, j);
  }

  lemma TogetherKept(content: string, free: seq<Span>, i: nat, j: nat)
    requires Ordered(content, free) && i < j && j + 1 < |free|
    ensures Together(content, free, i, j) <==> Together(content, Front(free), i, j)
  {
    var a := CoveredOnce(content, Front(free), i);
    var b := CoveredOnce(content, Front(free), j);
    CoveredKept(content, free, a, i);
    CoveredKept(content, free, b, j);
    HomesAgree(content, Front(free), i, j, a, b);
    HomesAgree(content, free, i, j, a, b);
  }

  lemma LastTwoJoin(content: string, free: seq<Span>, i: nat)
    requires Ordered(content, free) && i + 2 == |free|
    ensures Together(content, free, i, i + 1) <==> GapJoins(content, free, i)
  {
    var earlier, now := Runs(content, Front(free)), Runs(content, free);
    CoveredLast(content, Front(free));
    CoveredKept(content, free, |earlier| - 1, i);
    CoveredLast(content, free);
    HomesAgree(content, free, i, i + 1, |earlier| - 1, |now| - 1);
    assert Last(earlier).end == free[i].end && now == Extend(content, earlier, free[i + 1]);
  }

  /** Two neighbouring free tokens lie in one candidate exactly when the text between them can be joined. */
  lemma {:induction false} NeighboursJoin(content: string, free: seq<Span>, i: nat)
    requires Ordered(content, free) && i + 1 < |free|
    ensures Together(content, free, i, i + 1) <==> GapJoins(content, free, i)
  {
    if i + 2 < |free| {
      NeighboursJoin(content, Front(free), i);
      TogetherKept(content, free, i, i + 1);
    } else {
      LastTwoJoin(content, free, i);
    }
  }

  lemma ChainStep(content: string, free: seq<Span>, i: nat, j: nat)
    requires Ordered(content, free) && i < j < |free|
    ensures Together(content, free, i, j) <==> Together(content, free, i, j - 1) && Together(content, free, j - 1, j)
  {
    var home := CoveredOnce(content, free, i);
    var near := CoveredOnce(content, free, j - 1);
    var far := CoveredOnce(content, free, j);
    HomesAgree(content, free, i, j - 1, home, near);
    HomesAgree(content, free, j - 1, j, near, far);
    HomesAgree(content, free, i, j, home, far);
    assert i < j - 1 ==> free[i].end <= free[j - 1].start;
    HomesInOrder(content, Runs(content, free), free[i], free[j - 1], home, near);
    HomesInOrder(content, Runs(content, free), free[j - 1], free[j], near, far);
  }

  predicate GapsJoin(content: string, free: seq<Span>, i: nat, j: nat)
    requires i <= j < |free|
  {
    forall m | i <= m < j :: GapJoins(content, free, m)
  }

  lemma OneMoreGap(content: string, free: seq<Span>, i: nat, j: nat)
    requires i < j < |free|
    ensures GapsJoin(content, free, i, j) <==> GapsJoin(content, free, i, j - 1) && GapJoins(content, free, j - 1)
  {
  }

  lemma TogetherItself(content: string, free: seq<Span>, i: nat)
    requires Ordered(content, free) && i < |free|
    ensures Together(content, free, i, i)
  {
    var home := CoveredOnce(content, free, i);
  }

  /** Two free tokens lie in one candidate exactly when every gap from the one to the other can be joined. */
  lemma {:induction false} CandidatesAreChains(content: string, free: seq<Span>, i: nat, j: nat)
    requires Ordered(content, free) && i <= j < |free|
    ensures Together(content, free, i, j) <==> GapsJoin(content, free, i, j)
    decreases j
  {
    if i < j {
      CandidatesAreChains(content, free, i, j - 1);
      NeighboursJoin(content, free, j - 1);
      ChainStep(content, free, i, j);
      OneMoreGap(content, free, i, j);
    } else {
      TogetherItself(content, free, i);
    }
  }

  predicate HoldsChar(free: seq<Span>, f: int, at: nat) { 0 <= f < |free| && free[f].start <= at < free[f].end }

  lemma {:induction false} CandidateEnds(content: string, free: seq<Span>, k: nat) returns (i: nat, j: nat)
    requires Ordered(content, free) && k < |Runs(content, free)|
    ensures i <= j < |free| && Runs(content, free)[k] == Span(free[i].start, free[j].end)
  {
    var earlier, now := Runs(content, Front(free)), Runs(content, free);
    assert now == Extend(content, earlier, Last(free));
    if k < |earlier| {
      i, j := CandidateEnds(content, Front(free), k);
      assert Front(free)[i] == free[i] && Front(free)[j] == free[j];
      if now[k] != earlier[k] { j := |free| - 1; }
    } else {
      i, j := |free| - 1, |free| - 1;
    }
  }

  lemma {:induction false} CandidateFilled(content: string, free: seq<Span>, k: nat, at: nat)
    requires Ordered(content, free) && k < |Runs(content, free)| && Runs(content, free)[k].start <= at < Runs(content, free)[k].end
    ensures JoinsAt(content, at) || exists f :: HoldsChar(free, f, at)
  {
    var earlier, now := Runs(content, Front(free)), Runs(content, free);
    assert now == Extend(content, earlier, Last(free));
    if Last(free).start <= at < Last(free).end {
      assert HoldsChar(free, |free| - 1, at);
    } else if k < |earlier| && at < earlier[k].end {
      CandidateFilled(content, Front(free), k, at);
      if f :| HoldsChar(Front(free), f, at) { assert HoldsChar(free, f, at); }
    }
  }

  /** A candidate begins and ends with a free token, and between them is made of free tokens and joiners. */
  lemma CandidatesAreSolid(content: string, free: seq<Span>, k: nat)
    requires Ordered(content, free) && k < |Runs(content, free)|
    ensures exists i, j | 0 <= i <= j < |free| :: Runs(content, free)[k] == Span(free[i].start, free[j].end)
    ensures forall at | Runs(content, free)[k].start <= at < Runs(content, free)[k].end ::
              JoinsAt(content, at) || exists f :: HoldsChar(free, f, at)
  {
    var i, j := CandidateEnds(content, free, k);
    forall at | Runs(content, free)[k].start <= at < Runs(content, free)[k].end ensures JoinsAt(content, at) || exists f :: HoldsChar(free, f, at) {
      CandidateFilled(content, free, k, at);
    }
  }

  lemma SameToken(content: string, t: Span, u: Span, at: nat)
    requires IsToken(content, t) && IsToken(content, u) && t.start <= at < t.end && u.start <= at < u.end
    ensures t == u
  {
    assert !(t.start <= u.start - 1 < t.end) && !(u.start <= t.start - 1 < u.end);
    assert !(t.start <= u.end < t.end) && !(u.start <= t.end < u.end);
  }

  lemma FreeIsToken(content: string, keywords: set<string>, t: Span)
    requires t in FreeTokens(content, keywords, Tokens(content))
    ensures IsToken(content, t) && IsFree(content, keywords, t)
  {
    FreeMeaning(content, keywords, Tokens(content), t);
    TokensAreRuns(content, t);
  }

  lemma HeldBy(content: string, free: seq<Span>, k: nat, at: nat) returns (f: int)
    requires Ordered(content, free) && k < |Runs(content, free)| && TokenAt(content, at)
    requires Runs(content, free)[k].start <= at < Runs(content, free)[k].end
    ensures HoldsChar(free, f, at)
  {
    CandidateFilled(content, free, k, at);
    assert !JoinsAt(content, at);
    f :| HoldsChar(free, f, at);
  }

  /** No keyword and no number is ever part of a candidate. */
  lemma OnlyFreeTokens(content: string, keywords: set<string>, t: Span, k: nat)
    requires IsToken(content, t) && k < |Candidates(content, keywords)| && Covers(Candidates(content, keywords)[k], t)
    ensures IsFree(content, keywords, t)
  {
    var free, at := FreeTokens(content, keywords, Tokens(content)), t.start;
    assert TokenAt(content, at);
    var f := HeldBy(content, free, k, at);
    FreeIsToken(content, keywords, free[f]);
    SameToken(content, t, free[f], at);
  }

  /** A candidate begins and ends with a character of a token, so it is neither empty nor is there anything to trim. */
  lemma CandidateEdges(content: string, keywords: set<string>, k: nat)
    requires k < |Candidates(content, keywords)|
    ensures var s := Candidates(content, keywords)[k];
            s.start < s.end <= |content| && TokenAt(content, s.start) && TokenAt(content, s.end - 1)
  {
    var s, free := Candidates(content, keywords)[k], FreeTokens(content, keywords, Tokens(content));
    var i, j := CandidateEnds(content, free, k);
    FreeIsToken(content, keywords, free[i]);
    FreeIsToken(content, keywords, free[j]);
  }
}
