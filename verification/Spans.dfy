/**
 * Fields of a card message as quotes of its text: finding the place of a quote, and building a result from the places.
 *
 * The normalisers of amounts, times and instalments are parameters. A rejection list is kept as a set of reasons.
 */
module Spans {
  import opened Wrappers
  import Strings

  datatype Field = Amount | OccurredAt | Merchant | Installment

  datatype Span = Span(start: nat, end: nat)
  datatype Quote = Quote(field: Field, quote: string, occurrence: int)

  const MAX_QUOTE_LENGTH := 64
  const MAX_AMOUNT_DIGITS := 15

  // ---- occurrences ----

  predicate Matches(text: string, needle: string, i: nat) { i + |needle| <= |text| && text[i..i + |needle|] == needle }

  /** The first match at or after `from`, or -1. */
  function IndexOf(text: string, needle: string, from: nat): int
    decreases |text| - from
  {
    if from + |needle| > |text| then -1
    else if Matches(text, needle, from) then from
    else if from == |text| then -1
    else IndexOf(text, needle, from + 1)
  }

  /** How many matches start before `n`; matches may overlap. */
  function Count(text: string, needle: string, n: nat): nat {
    if n == 0 then 0 else Count(text, needle, n - 1) + (if Matches(text, needle, n - 1) then 1 else 0)
  }

  lemma {:induction false} IndexOfIsNext(text: string, needle: string, from: nat)
    ensures var r := IndexOf(text, needle, from);
            && (r < 0 ==> r == -1 && forall i: nat | from <= i :: !Matches(text, needle, i))
            && (r >= 0 ==> from <= r && Matches(text, needle, r) && forall i: nat | from <= i < r :: !Matches(text, needle, i))
    decreases |text| - from
  {
    if from + |needle| <= |text| && !Matches(text, needle, from) && from < |text| { IndexOfIsNext(text, needle, from + 1); }
  }

  lemma {:induction false} CountFlat(text: string, needle: string, a: nat, b: nat)
    requires a <= b && forall i: nat | a <= i < b :: !Matches(text, needle, i)
    ensures Count(text, needle, a) == Count(text, needle, b)
    decreases b
  {
    if a < b { CountFlat(text, needle, a, b - 1); }
  }

  lemma {:induction false} CountGrows(text: string, needle: string, a: nat, b: nat)
    requires a <= b
    ensures Count(text, needle, a) <= Count(text, needle, b)
    decreases b
  {
    if a < b { CountGrows(text, needle, a, b - 1); }
  }

  /** The `k`-th match at or after `from`. */
  function Nth(text: string, needle: string, k: int, from: nat): Option<Span>
    decreases k
  {
    var i := IndexOf(text, needle, from);
    if i < 0 then None else if k <= 1 then Some(Span(i, i + |needle|)) else Nth(text, needle, k - 1, i + 1)
  }

  function Resolve(text: string, q: Quote): Option<Span> {
    if q.quote == "" || |q.quote| > MAX_QUOTE_LENGTH || q.occurrence < 1 then None else Nth(text, q.quote, q.occurrence, 0)
  }

  lemma {:induction false} NthIsCounted(text: string, needle: string, k: int, from: nat, p: nat)
    requires k >= 1
    ensures Nth(text, needle, k, from) == Some(Span(p, p + |needle|))
       <==> from <= p && Matches(text, needle, p) && Count(text, needle, p + 1) == Count(text, needle, from) + k
    decreases k
  {
    IndexOfIsNext(text, needle, from);
    var i := IndexOf(text, needle, from);
    if i < 0 {
    } else {
      CountFlat(text, needle, from, i);
      if p > i { CountGrows(text, needle, i + 1, p); }
      if k > 1 { NthIsCounted(text, needle, k - 1, i + 1, p); }
    }
  }

  /** A quote names a place exactly when its text stands there and it is the counted match; nothing is made up. */
  lemma ResolvesIff(text: string, q: Quote, span: Span)
    ensures Resolve(text, q) == Some(span) <==>
              && 1 <= |q.quote| <= 64 && span.end == span.start + |q.quote|
              && Matches(text, q.quote, span.start) && Count(text, q.quote, span.start + 1) == q.occurrence
  {
    if 1 <= |q.quote| <= MAX_QUOTE_LENGTH && q.occurrence >= 1 {
      NthIsCounted(text, q.quote, q.occurrence, 0, span.start);
      NthHasLength(text, q.quote, q.occurrence, 0);
    }
  }

  lemma {:induction false} NthHasLength(text: string, needle: string, k: int, from: nat)
    ensures Nth(text, needle, k, from).Some? ==> Nth(text, needle, k, from).value.end == Nth(text, needle, k, from).value.start + |needle|
    decreases k
  {
    if k > 1 && IndexOf(text, needle, from) >= 0 { NthHasLength(text, needle, k - 1, IndexOf(text, needle, from) + 1); }
  }

  /** Where `left` more matches after the one at `index` lead. */
  function NthFrom(text: string, needle: string, left: int, index: int): Option<Span> {
    if index < 0 then None else if left <= 0 then Some(Span(index, index + |needle|)) else Nth(text, needle, left, index + 1)
  }

  lemma NthStep(text: string, needle: string, k: int, from: nat)
    ensures Nth(text, needle, k, from) == NthFrom(text, needle, k - 1, IndexOf(text, needle, from))
  {
  }

  /** text.indexOf, with what it means for the match looked for. */
  method NextPlace(text: string, needle: string, from: nat, ghost k: int) returns (index: int)
    ensures Nth(text, needle, k, from) == NthFrom(text, needle, k - 1, index)
  {
    NthStep(text, needle, k, from);
    index := IndexOf(text, needle, from);
  }

  /** Advances from match to match. */
  method ResolveQuote(text: string, q: Quote) returns (r: Option<Span>)
    ensures r == Resolve(text, q)
  {
    var needle := q.quote;
    if |needle| == 0 || |needle| > MAX_QUOTE_LENGTH || q.occurrence < 1 { return None; }
    var seen := 1;
    var index := NextPlace(text, needle, 0, q.occurrence);
    while index >= 0 && seen < q.occurrence
      invariant 1 <= seen <= q.occurrence
      invariant Nth(text, needle, q.occurrence, 0) == NthFrom(text, needle, q.occurrence - seen, index)
      decreases q.occurrence - seen
    {
      index := NextPlace(text, needle, index + 1, q.occurrence - seen);
      seen := seen + 1;
    }
    if index < 0 { return None; }
    r := Some(Span(index, index + |needle|));
  }

  predicate Within(text: string, span: Span) { span.start <= span.end <= |text| }

  function Slice(text: string, span: Span): string
    requires Within(text, span)
  {
    text[span.start..span.end]
  }

  function QuoteOf(content: string, field: Field, span: Span): Quote
    requires Within(content, span)
  {
    Quote(field, Slice(content, span), Count(content, Slice(content, span), span.start + 1))
  }

  lemma NextMatch(text: string, needle: string, from: nat, target: nat)
    requires from <= target && Matches(text, needle, target)
    ensures from <= IndexOf(text, needle, from) <= target && Matches(text, needle, IndexOf(text, needle, from))
    ensures Count(text, needle, IndexOf(text, needle, from)) == Count(text, needle, from)
  {
    IndexOfIsNext(text, needle, from);
    CountFlat(text, needle, from, IndexOf(text, needle, from));
  }

  lemma MatchesItself(content: string, span: Span)
    requires Within(content, span)
    ensures Matches(content, Slice(content, span), span.start)
  {
  }

  /** content.indexOf, where a match is known to lie ahead. */
  method NextIndex(content: string, quote: string, from: nat, ghost last: nat) returns (index: nat)
    requires from <= last && Matches(content, quote, last)
    ensures from <= index <= last && Count(content, quote, index) == Count(content, quote, from)
    ensures Count(content, quote, index + 1) == Count(content, quote, from) + 1
  {
    NextMatch(content, quote, from, last);
    index := IndexOf(content, quote, from);
  }

  /** Counts the matches up to the span. */
  method SpanToQuote(content: string, field: Field, span: Span) returns (q: Quote)
    requires Within(content, span)
    ensures q == QuoteOf(content, field, span)
  {
    var quote := Slice(content, span);
    MatchesItself(content, span);
    var occurrence := 0;
    var index := NextIndex(content, quote, 0, span.start);
    while index <= span.start
      invariant index <= span.start && occurrence + 1 == Count(content, quote, index + 1)
      decreases span.start - index
    {
      occurrence := occurrence + 1;
      if index == span.start { break; }
      index := NextIndex(content, quote, index + 1, span.start);
    }
    q := Quote(field, quote, if occurrence > 1 then occurrence else 1);
  }

  /** A span survives the trip through a quote, whatever repeats or overlaps, exactly when it can be quoted at all. */
  lemma QuoteRoundTrip(content: string, field: Field, span: Span)
    requires Within(content, span)
    ensures Resolve(content, QuoteOf(content, field, span)) == Some(span) <==> 1 <= span.end - span.start <= 64
    ensures !(1 <= span.end - span.start <= 64) ==> Resolve(content, QuoteOf(content, field, span)) == None
  {
    ResolvesIff(content, QuoteOf(content, field, span), span);
  }

  // ---- building a result ----

  datatype Money = Money(amount: Option<int>, currency: Option<string>)

  /** The deterministic functions the result is computed with. */
  datatype Parsers = Parsers(amount: string -> Money, occurredAt: (string, int) -> Option<int>, installment: string -> Option<int>,
                             candidates: (string, Field) -> seq<Span>)

  datatype Input = Input(content: string, receivedAt: int)

  datatype Reason =
    | Repeated(field: Field)
    | NotFound(field: Field)
    | Overlaps(field: Field)
    | NotNormalizable(field: Field)
    | Missing(field: Field)

  datatype Extraction = Extraction(amount: Option<int>, currency: Option<string>, occurredAt: Option<int>, merchant: Option<string>,
                                   installment: Option<int>, spans: map<Field, Span>, rejected: set<Reason>)

  predicate Overlap(a: Span, b: Span) { a.start < b.end && b.start < a.end }

  datatype Collected = Collected(spans: map<Field, Span>, seen: set<Field>, rejected: set<Reason>)

  function Take(content: string, c: Collected, q: Quote): Collected {
    if q.field in c.seen then c.(spans := c.spans - {q.field}, rejected := c.rejected + {Repeated(q.field)})
    else
      match Resolve(content, q)
      case None => c.(seen := c.seen + {q.field}, rejected := c.rejected + {NotFound(q.field)})
      case Some(span) => c.(seen := c.seen + {q.field}, spans := c.spans[q.field := span])
  }

  function Collect(content: string, quotes: seq<Quote>): Collected {
    if quotes == [] then Collected(map[], {}, {})
    else Take(content, Collect(content, quotes[..|quotes| - 1]), quotes[|quotes| - 1])
  }

  function Conflicted(spans: map<Field, Span>): set<Field> {
    set f | f in spans && exists g | g in spans :: g != f && Overlap(spans[f], spans[g])
  }

  function Digits(s: string): nat { if s == "" then 0 else (if '0' <= s[0] <= '9' then 1 else 0) + Digits(s[1..]) }

  function Text(content: string, spans: map<Field, Span>, f: Field): Option<string> {
    if f in spans && Within(content, spans[f]) then Some(Slice(content, spans[f])) else None
  }

  function AmountIn(p: Parsers, text: Option<string>): Money {
    if text.None? || Digits(text.value) > MAX_AMOUNT_DIGITS then Money(None, None)
    else
      var m := p.amount(text.value);
      if m.amount.None? || m.currency.None? then Money(None, None) else m
  }

  function MerchantIn(text: Option<string>): Option<string> {
    if text.Some? && Strings.Trim(text.value) != "" then Some(Strings.Trim(text.value)) else None
  }

  function Normalized(p: Parsers, input: Input, spans: map<Field, Span>, rejected: set<Reason>): Extraction {
    var money := AmountIn(p, Text(input.content, spans, Amount));
    var text := Text(input.content, spans, OccurredAt);
    var occurredAt := if text.Some? then p.occurredAt(text.value, input.receivedAt) else None;
    var merchant := MerchantIn(Text(input.content, spans, Merchant));
    var months := Text(input.content, spans, Installment);
    var installment := if months.Some? then p.installment(months.value) else None;
    var failed :=
      (if money.amount.None? then {Amount} else {}) + (if occurredAt.None? then {OccurredAt} else {})
      + (if merchant.None? then {Merchant} else {}) + (if installment.None? then {Installment} else {});
    Extraction(money.amount, money.currency, occurredAt, merchant, installment, spans - failed,
               rejected + (set f | f in spans.Keys * failed :: NotNormalizable(f)))
  }

  function Build(p: Parsers, input: Input, quotes: seq<Quote>): Extraction {
    var c := Collect(input.content, quotes);
    var conflicted := Conflicted(c.spans);
    Normalized(p, input, c.spans - conflicted, c.rejected + (set f | f in conflicted :: Overlaps(f)))
  }

  // ---- the program's loops ----

  ghost predicate Lists(entries: seq<(Field, Span)>, spans: map<Field, Span>, done: set<Field>) {
    && (forall i | 0 <= i < |entries| :: entries[i].0 in done && entries[i].0 in spans && spans[entries[i].0] == entries[i].1)
    && (forall i, j | 0 <= i < j < |entries| :: entries[i].0 != entries[j].0)
    && forall f | f in done && f in spans :: (f, spans[f]) in entries
  }

  /** The spans by field, in some order. */
  method Entries(spans: map<Field, Span>) returns (entries: seq<(Field, Span)>)
    ensures Lists(entries, spans, spans.Keys)
  {
    entries := [];
    var rest := spans.Keys;
    while rest != {}
      invariant rest <= spans.Keys && Lists(entries, spans, spans.Keys - rest)
    {
      var f :| f in rest;
      rest, entries := rest - {f}, entries + [(f, spans[f])];
    }
  }

  /** The overlapping pairs the double loop has passed are recorded. */
  ghost predicate PairsIn(entries: seq<(Field, Span)>, conflicted: set<Field>, i: nat, j: nat) {
    forall a, b | 0 <= a < b < |entries| && (a < i || (a == i && b < j)) :: PairIn(entries, conflicted, a, b)
  }

  predicate PairIn(entries: seq<(Field, Span)>, conflicted: set<Field>, a: nat, b: nat)
    requires a < |entries| && b < |entries|
  {
    Overlap(entries[a].1, entries[b].1) ==> entries[a].0 in conflicted && entries[b].0 in conflicted
  }

  lemma PairsAreConflicts(entries: seq<(Field, Span)>, spans: map<Field, Span>, conflicted: set<Field>)
    requires Lists(entries, spans, spans.Keys) && PairsIn(entries, conflicted, |entries|, 0)
    ensures Conflicted(spans) <= conflicted
  {
    forall f | f in Conflicted(spans) ensures f in conflicted {
      var g :| g in spans && g != f && Overlap(spans[f], spans[g]);
      assert (f, spans[f]) in entries && (g, spans[g]) in entries;
      var i :| 0 <= i < |entries| && entries[i] == (f, spans[f]);
      var j :| 0 <= j < |entries| && entries[j] == (g, spans[g]);
      assert Overlap(entries[i].1, entries[j].1) && Overlap(entries[j].1, entries[i].1);
      if i < j { assert PairIn(entries, conflicted, i, j); } else { assert PairIn(entries, conflicted, j, i); }
    }
  }

  /** Every pair of fields whose spans overlap is in conflict. */
  method FindConflicts(spans: map<Field, Span>) returns (conflicted: set<Field>)
    ensures conflicted == Conflicted(spans)
  {
    var entries := Entries(spans);
    conflicted := {};
    for i := 0 to |entries|
      invariant conflicted <= Conflicted(spans) && PairsIn(entries, conflicted, i, 0)
    {
      for j := i + 1 to |entries|
        invariant conflicted <= Conflicted(spans) && PairsIn(entries, conflicted, i, j)
      {
        ghost var before := conflicted;
        if Overlap(entries[i].1, entries[j].1) {
          OverlapConflicts(entries, spans, i, j);
          conflicted := conflicted + {entries[i].0, entries[j].0};
        }
        forall a, b | 0 <= a < b < |entries| && (a < i || (a == i && b < j)) ensures PairIn(entries, conflicted, a, b) {
          assert PairIn(entries, before, a, b);
        }
      }
    }
    PairsAreConflicts(entries, spans, conflicted);
  }

  lemma OverlapConflicts(entries: seq<(Field, Span)>, spans: map<Field, Span>, i: nat, j: nat)
    requires Lists(entries, spans, spans.Keys) && i < j < |entries| && Overlap(entries[i].1, entries[j].1)
    ensures {entries[i].0, entries[j].0} <= Conflicted(spans)
  {
    var f, g := entries[i].0, entries[j].0;
    assert f != g && Overlap(spans[f], spans[g]) && Overlap(spans[g], spans[f]);
  }

  method BuildResultFromSpans(p: Parsers, input: Input, quotes: seq<Quote>) returns (x: Extraction)
    ensures x == Build(p, input, quotes)
  {
    var spans: map<Field, Span>, seen: set<Field>, rejected: set<Reason> := map[], {}, {};
    for n := 0 to |quotes|
      invariant Collected(spans, seen, rejected) == Collect(input.content, quotes[..n])
    {
      assert quotes[..n + 1][..n] == quotes[..n];
      var q := quotes[n];
      if q.field in seen {
        rejected, spans := rejected + {Repeated(q.field)}, spans - {q.field};
      } else {
        seen := seen + {q.field};
        var span := ResolveQuote(input.content, q);
        if span.None? {
          rejected := rejected + {NotFound(q.field)};
        } else {
          spans := spans[q.field := span.value];
        }
      }
    }
    assert quotes[..|quotes|] == quotes;
    var conflicted := FindConflicts(spans);
    x := Normalized(p, input, spans - conflicted, rejected + (set f | f in conflicted :: Overlaps(f)));
  }
}
