/** Extraction recipes: learned from one confirmed message, replayed on messages of the same layout. */
module Recipe {
  import opened Wrappers
  import opened Spans
  import MerchantCandidates
  import Strings

  // ---- what a built result promises, for any quotes at all ----

  ghost predicate Once(quotes: seq<Quote>, f: Field, i: int) {
    0 <= i < |quotes| && quotes[i].field == f && forall j | 0 <= j < |quotes| :: quotes[j].field == f ==> j == i
  }

  ghost predicate Quoted(quotes: seq<Quote>, f: Field) { exists i :: 0 <= i < |quotes| && quotes[i].field == f }

  predicate Explained(rejected: set<Reason>, f: Field) { exists r | r in rejected :: r.field == f }

  /** A field has a span exactly when it was quoted once and its quote was found; otherwise there is a reason. */
  ghost predicate CollectedWell(content: string, quotes: seq<Quote>, c: Collected, f: Field) {
    && (f in c.seen <==> Quoted(quotes, f))
    && (f in c.spans ==> exists i :: Once(quotes, f, i) && Resolve(content, quotes[i]) == Some(c.spans[f]))
    && (forall i | Once(quotes, f, i) && Resolve(content, quotes[i]).Some? :: f in c.spans)
    && (f in c.seen && f !in c.spans ==> Explained(c.rejected, f))
  }

  lemma {:induction false} CollectMeaning(content: string, quotes: seq<Quote>, f: Field)
    ensures CollectedWell(content, quotes, Collect(content, quotes), f)
  {
    if quotes != [] {
      var n := |quotes| - 1;
      var before, q := quotes[..n], quotes[n];
      CollectMeaning(content, before, f);
      TakeKeepsMeaning(content, before, q, Collect(content, before), f);
      assert before + [q] == quotes;
    }
  }

  lemma TakeKeepsMeaning(content: string, before: seq<Quote>, q: Quote, c: Collected, f: Field)
    requires CollectedWell(content, before, c, f)
    ensures CollectedWell(content, before + [q], Take(content, c, q), f)
  {
    var quotes, d := before + [q], Take(content, c, q);
    if q.field != f {
      assert Quoted(quotes, f) <==> Quoted(before, f) by {
        if Quoted(before, f) { var i :| 0 <= i < |before| && before[i].field == f; assert quotes[i].field == f; }
      }
      forall i ensures Once(quotes, f, i) <==> Once(before, f, i) {
        if Once(before, f, i) { assert quotes[i] == before[i]; }
        if Once(quotes, f, i) {
          assert before[i] == quotes[i];
          forall j | 0 <= j < |before| ensures before[j].field == f ==> j == i { assert quotes[j] == before[j]; }
        }
      }
      if f in d.spans { var i :| Once(before, f, i) && Resolve(content, before[i]) == Some(c.spans[f]); assert Once(quotes, f, i); }
      if f in d.seen && f !in d.spans { var r :| r in c.rejected && r.field == f; assert r in d.rejected; }
    } else {
      assert quotes[|before|].field == f;
      if f in c.seen {
        var k :| 0 <= k < |before| && before[k].field == f;
        assert quotes[k].field == f;
        assert Repeated(f) in d.rejected;
      } else {
        assert Once(quotes, f, |before|);
        assert Resolve(content, q).None? ==> NotFound(f) in d.rejected;
      }
    }
  }

  /** The kept value of each field, if any, is the parser's reading of the text the field's span covers. */
  ghost predicate Reads(p: Parsers, input: Input, x: Extraction) {
    && (Amount in x.spans <==> x.amount.Some?) && (x.amount.Some? <==> x.currency.Some?)
    && (OccurredAt in x.spans <==> x.occurredAt.Some?) && (Merchant in x.spans <==> x.merchant.Some?)
    && (Installment in x.spans <==> x.installment.Some?)
    && (forall f | f in x.spans :: Within(input.content, x.spans[f]))
    && (Amount in x.spans ==> Money(x.amount, x.currency) == p.amount(Slice(input.content, x.spans[Amount])))
    && (OccurredAt in x.spans ==> x.occurredAt == p.occurredAt(Slice(input.content, x.spans[OccurredAt]), input.receivedAt))
    && (Merchant in x.spans ==> x.merchant == Some(Strings.Trim(Slice(input.content, x.spans[Merchant]))))
    && (Installment in x.spans ==> x.installment == p.installment(Slice(input.content, x.spans[Installment])))
  }

  lemma ResolvedIsWithin(content: string, q: Quote)
    requires Resolve(content, q).Some?
    ensures Within(content, Resolve(content, q).value) && Slice(content, Resolve(content, q).value) == q.quote
  {
    ResolvesIff(content, q, Resolve(content, q).value);
  }

  lemma CollectedWithin(content: string, quotes: seq<Quote>, f: Field)
    requires f in Collect(content, quotes).spans
    ensures Within(content, Collect(content, quotes).spans[f])
  {
    CollectMeaning(content, quotes, f);
    var i :| Once(quotes, f, i) && Resolve(content, quotes[i]) == Some(Collect(content, quotes).spans[f]);
    ResolvedIsWithin(content, quotes[i]);
  }

  lemma NormalizedReads(p: Parsers, input: Input, spans: map<Field, Span>, rejected: set<Reason>)
    requires forall f | f in spans :: Within(input.content, spans[f])
    ensures Reads(p, input, Normalized(p, input, spans, rejected))
  {
  }

  /** Every value comes from the message: it is the parser's reading of a kept span, and there is no value without one. */
  lemma ValuesAreGrounded(p: Parsers, input: Input, quotes: seq<Quote>)
    ensures Reads(p, input, Build(p, input, quotes))
  {
    var c := Collect(input.content, quotes);
    forall f | f in c.spans ensures Within(input.content, c.spans[f]) {
      CollectedWithin(input.content, quotes, f);
    }
    var conflicted := Conflicted(c.spans);
    NormalizedReads(p, input, c.spans - conflicted, c.rejected + (set f | f in conflicted :: Overlaps(f)));
  }

  /** Kept spans do not overlap, and each one is where its only quote stands. */
  lemma KeptSpansAreDisjoint(p: Parsers, input: Input, quotes: seq<Quote>, f: Field)
    requires f in Build(p, input, quotes).spans
    ensures var spans := Build(p, input, quotes).spans;
            && (forall g | g in spans && g != f :: !Overlap(spans[f], spans[g]))
            && exists i :: Once(quotes, f, i) && Resolve(input.content, quotes[i]) == Some(spans[f])
  {
    CollectMeaning(input.content, quotes, f);
  }

  /** Every quoted field is kept or rejected with a reason. */
  lemma KeptOrRejected(p: Parsers, input: Input, quotes: seq<Quote>, f: Field)
    requires Quoted(quotes, f)
    ensures f in Build(p, input, quotes).spans || Explained(Build(p, input, quotes).rejected, f)
  {
    var c := Collect(input.content, quotes);
    var conflicted := Conflicted(c.spans);
    var x := Build(p, input, quotes);
    CollectMeaning(input.content, quotes, f);
    if f !in c.spans {
      var r :| r in c.rejected && r.field == f;
      assert r in x.rejected;
    } else if f in conflicted {
      assert Overlaps(f) in x.rejected;
    } else if f !in x.spans {
      assert NotNormalizable(f) in x.rejected;
    }
  }

  // ---- deriving and applying ----

  datatype Confirmed = Confirmed(amount: Option<int>, currency: Option<string>, merchant: Option<string>, occurredAt: Option<int>,
                                 installment: Option<int>)

  predicate Asked(c: Confirmed, f: Field) {
    match f
    case Amount => c.amount.Some?
    case OccurredAt => c.occurredAt.Some?
    case Merchant => c.merchant.Some?
    case Installment => c.installment.Some?
  }

  /** The result shows the confirmed value of the field, a merchant up to trimming. */
  predicate Shows(x: Extraction, c: Confirmed, f: Field)
    requires Asked(c, f)
  {
    match f
    case Amount => x.amount == c.amount && (c.currency.Some? ==> x.currency == c.currency)
    case OccurredAt => x.occurredAt == c.occurredAt
    case Merchant => x.merchant == Some(Strings.Trim(c.merchant.value))
    case Installment => x.installment == c.installment
  }

  predicate AllWithin(content: string, spans: seq<Span>) { forall i | 0 <= i < |spans| :: Within(content, spans[i]) }

  predicate CandidatesWithin(p: Parsers, content: string) { forall f: Field :: AllWithin(content, p.candidates(content, f)) }

  /** Whether a candidate span gives the confirmed value. */
  predicate Fits(p: Parsers, input: Input, c: Confirmed, f: Field, span: Span)
    requires Asked(c, f) && Within(input.content, span)
  {
    if f == Merchant then Strings.Trim(Slice(input.content, span)) == Strings.Trim(c.merchant.value)
    else Shows(Build(p, input, [QuoteOf(input.content, f, span)]), c, f)
  }

  function FirstTrue(marks: seq<bool>, i: nat): (r: Option<nat>)
    requires i <= |marks|
    ensures r.Some? ==> i <= r.value < |marks| && marks[r.value]
    ensures forall k | i <= k < (if r.Some? then r.value else |marks|) :: !marks[k]
    decreases |marks| - i
  {
    if i == |marks| then None else if marks[i] then Some(i) else FirstTrue(marks, i + 1)
  }

  function Marks(p: Parsers, input: Input, c: Confirmed, f: Field, spans: seq<Span>): seq<bool>
    requires Asked(c, f) && AllWithin(input.content, spans)
  {
    seq(|spans|, i requires 0 <= i < |spans| => Fits(p, input, c, f, spans[i]))
  }

  /** The first candidate that fits. */
  function FirstFit(p: Parsers, input: Input, c: Confirmed, f: Field): Option<nat>
    requires Asked(c, f) && CandidatesWithin(p, input.content)
  {
    FirstTrue(Marks(p, input, c, f, p.candidates(input.content, f)), 0)
  }

  const FIELDS := [Amount, OccurredAt, Merchant, Installment]

  /** The recipe: which candidate each confirmed field was, for the fields found. */
  function Derive(p: Parsers, input: Input, c: Confirmed, n: nat): seq<(Field, nat)>
    requires CandidatesWithin(p, input.content) && n <= |FIELDS|
  {
    if n == 0 then []
    else
      var f := FIELDS[n - 1];
      var found := if Asked(c, f) then FirstFit(p, input, c, f) else None;
      Derive(p, input, c, n - 1) + (if found.Some? then [(f, found.value)] else [])
  }

  function DeriveRecipe(p: Parsers, input: Input, c: Confirmed): seq<(Field, nat)>
    requires CandidatesWithin(p, input.content)
  {
    Derive(p, input, c, |FIELDS|)
  }

  predicate Present(p: Parsers, content: string, rule: (Field, nat)) { rule.1 < |p.candidates(content, rule.0)| }

  function RuleQuote(p: Parsers, content: string, rule: (Field, nat)): Quote
    requires CandidatesWithin(p, content) && Present(p, content, rule)
  {
    QuoteOf(content, rule.0, p.candidates(content, rule.0)[rule.1])
  }

  function Quotes(p: Parsers, content: string, rules: seq<(Field, nat)>): seq<Quote>
    requires CandidatesWithin(p, content)
  {
    if rules == [] then []
    else
      var rule := rules[|rules| - 1];
      Quotes(p, content, rules[..|rules| - 1]) + (if Present(p, content, rule) then [RuleQuote(p, content, rule)] else [])
  }

  function Absent(p: Parsers, content: string, rules: seq<(Field, nat)>): set<Reason> {
    set rule | rule in rules && !Present(p, content, rule) :: Missing(rule.0)
  }

  function ApplyRecipe(p: Parsers, input: Input, rules: seq<(Field, nat)>): Extraction
    requires CandidatesWithin(p, input.content)
  {
    var x := Build(p, input, Quotes(p, input.content, rules));
    var fallback := x.occurredAt.None? && (forall r | r in rules :: r.0 != OccurredAt) && p.candidates(input.content, OccurredAt) == [];
    x.(occurredAt := if fallback then Some(input.receivedAt) else x.occurredAt, rejected := x.rejected + Absent(p, input.content, rules))
  }

  // ---- replay ----

  function Position(f: Field): nat {
    match f
    case Amount => 0
    case OccurredAt => 1
    case Merchant => 2
    case Installment => 3
  }

  predicate Learned(p: Parsers, input: Input, c: Confirmed, rule: (Field, nat))
    requires CandidatesWithin(p, input.content)
  {
    Asked(c, rule.0) && Present(p, input.content, rule) && Fits(p, input, c, rule.0, p.candidates(input.content, rule.0)[rule.1])
  }

  lemma {:induction false} DerivedRule(p: Parsers, input: Input, c: Confirmed, n: nat, i: nat)
    requires CandidatesWithin(p, input.content) && n <= |FIELDS| && i < |Derive(p, input, c, n)|
    ensures Position(Derive(p, input, c, n)[i].0) < n && Learned(p, input, c, Derive(p, input, c, n)[i])
  {
    var before := Derive(p, input, c, n - 1);
    if i < |before| {
      DerivedRule(p, input, c, n - 1, i);
    } else {
      var f := FIELDS[n - 1];
      assert Position(f) == n - 1;
      assert Asked(c, f) && FirstFit(p, input, c, f).Some?;
    }
  }

  lemma FieldAt(n: nat)
    requires n < |FIELDS|
    ensures Position(FIELDS[n]) == n
  {
  }

  /** The n-th field adds one rule at most, its own. */
  lemma DerivedLast(p: Parsers, input: Input, c: Confirmed, n: nat)
    requires CandidatesWithin(p, input.content) && 0 < n <= |FIELDS|
    ensures var before, now := Derive(p, input, c, n - 1), Derive(p, input, c, n);
            before <= now && |now| <= |before| + 1 && forall k | |before| <= k < |now| :: Position(now[k].0) == n - 1
  {
    FieldAt(n - 1);
  }

  lemma {:induction false} DerivedInOrder(p: Parsers, input: Input, c: Confirmed, n: nat, i: nat, j: nat)
    requires CandidatesWithin(p, input.content) && n <= |FIELDS| && i < j < |Derive(p, input, c, n)|
    ensures Position(Derive(p, input, c, n)[i].0) < Position(Derive(p, input, c, n)[j].0)
  {
    DerivedLast(p, input, c, n);
    if j < |Derive(p, input, c, n - 1)| {
      DerivedInOrder(p, input, c, n - 1, i, j);
    } else {
      DerivedRule(p, input, c, n - 1, i);
    }
  }

  /** When every rule finds its candidate, the quotes are those of the rules, one for one. */
  lemma {:induction false} QuotesMatchRules(p: Parsers, content: string, rules: seq<(Field, nat)>)
    requires CandidatesWithin(p, content) && forall i | 0 <= i < |rules| :: Present(p, content, rules[i])
    ensures |Quotes(p, content, rules)| == |rules|
    ensures forall i | 0 <= i < |rules| :: Quotes(p, content, rules)[i] == RuleQuote(p, content, rules[i])
  {
    if rules != [] { QuotesMatchRules(p, content, rules[..|rules| - 1]); }
  }

  predicate Quotable(span: Span) { 1 <= span.end - span.start <= 64 }

  function RuleSpan(p: Parsers, content: string, rule: (Field, nat)): Span
    requires Present(p, content, rule)
  {
    p.candidates(content, rule.0)[rule.1]
  }

  /** Another quotable span of the recipe lies across the span of rule `i`. */
  ghost predicate Crossed(p: Parsers, content: string, rules: seq<(Field, nat)>, i: nat)
    requires i < |rules| && forall k | 0 <= k < |rules| :: Present(p, content, rules[k])
  {
    exists j :: 0 <= j < |rules| && j != i && Quotable(RuleSpan(p, content, rules[j]))
                && Overlap(RuleSpan(p, content, rules[i]), RuleSpan(p, content, rules[j]))
  }

  ghost predicate Separate(p: Parsers, content: string, rules: seq<(Field, nat)>) {
    && (forall i | 0 <= i < |rules| :: Present(p, content, rules[i]))
    && forall i, j | 0 <= i < |rules| && 0 <= j < |rules| && i != j :: rules[i].0 != rules[j].0
  }

  lemma DerivedSeparate(p: Parsers, input: Input, c: Confirmed)
    requires CandidatesWithin(p, input.content)
    ensures Separate(p, input.content, DeriveRecipe(p, input, c))
  {
    var rules := DeriveRecipe(p, input, c);
    forall i | 0 <= i < |rules| ensures Present(p, input.content, rules[i]) {
      DerivedRule(p, input, c, |FIELDS|, i);
    }
    forall i, j | 0 <= i < |rules| && 0 <= j < |rules| && i != j ensures rules[i].0 != rules[j].0 {
      if i < j { DerivedInOrder(p, input, c, |FIELDS|, i, j); } else { DerivedInOrder(p, input, c, |FIELDS|, j, i); }
    }
  }

  /** The spans collected from the rules' quotes are the rules' quotable spans. */
  lemma RuleSpansCollected(p: Parsers, content: string, rules: seq<(Field, nat)>, i: nat)
    requires CandidatesWithin(p, content) && Separate(p, content, rules) && i < |rules|
    ensures var spans := Collect(content, Quotes(p, content, rules)).spans;
            && (rules[i].0 in spans <==> Quotable(RuleSpan(p, content, rules[i])))
            && (rules[i].0 in spans ==> spans[rules[i].0] == RuleSpan(p, content, rules[i]))
  {
    var quotes := Quotes(p, content, rules);
    QuotesMatchRules(p, content, rules);
    CollectMeaning(content, quotes, rules[i].0);
    QuoteRoundTrip(content, rules[i].0, RuleSpan(p, content, rules[i]));
    forall j | 0 <= j < |quotes| ensures quotes[j].field == rules[i].0 ==> j == i {
      assert quotes[j] == RuleQuote(p, content, rules[j]);
    }
    assert quotes[i] == RuleQuote(p, content, rules[i]);
    assert Once(quotes, rules[i].0, i);
  }

  lemma OnlyRuleSpans(p: Parsers, content: string, rules: seq<(Field, nat)>, f: Field)
    requires CandidatesWithin(p, content) && Separate(p, content, rules) && f in Collect(content, Quotes(p, content, rules)).spans
    ensures exists j :: 0 <= j < |rules| && rules[j].0 == f
  {
    var quotes := Quotes(p, content, rules);
    QuotesMatchRules(p, content, rules);
    CollectMeaning(content, quotes, f);
    var j :| Once(quotes, f, j);
    assert quotes[j] == RuleQuote(p, content, rules[j]);
  }

  lemma CrossedIsConflict(p: Parsers, content: string, rules: seq<(Field, nat)>, i: nat)
    requires CandidatesWithin(p, content) && Separate(p, content, rules) && i < |rules| && Quotable(RuleSpan(p, content, rules[i]))
    ensures rules[i].0 in Conflicted(Collect(content, Quotes(p, content, rules)).spans) <==> Crossed(p, content, rules, i)
  {
    var f, spans := rules[i].0, Collect(content, Quotes(p, content, rules)).spans;
    RuleSpansCollected(p, content, rules, i);
    if Crossed(p, content, rules, i) {
      var j :| 0 <= j < |rules| && j != i && Quotable(RuleSpan(p, content, rules[j]))
               && Overlap(RuleSpan(p, content, rules[i]), RuleSpan(p, content, rules[j]));
      RuleSpansCollected(p, content, rules, j);
      assert Overlap(spans[f], spans[rules[j].0]);
    }
    if f in Conflicted(spans) {
      var g :| g in spans && g != f && Overlap(spans[f], spans[g]);
      OnlyRuleSpans(p, content, rules, g);
      var j :| 0 <= j < |rules| && rules[j].0 == g;
      RuleSpansCollected(p, content, rules, j);
      assert Overlap(RuleSpan(p, content, rules[i]), RuleSpan(p, content, rules[j]));
    }
  }

  /** The text alone decides whether a field normalises, and to what. */
  predicate Normalizes(p: Parsers, input: Input, f: Field, text: string) {
    match f
    case Amount => AmountIn(p, Some(text)).amount.Some?
    case OccurredAt => p.occurredAt(text, input.receivedAt).Some?
    case Merchant => Strings.Trim(text) != ""
    case Installment => p.installment(text).Some?
  }

  lemma NormalizedKeeps(p: Parsers, input: Input, spans: map<Field, Span>, rejected: set<Reason>, f: Field)
    requires f in spans ==> Within(input.content, spans[f])
    ensures var x := Normalized(p, input, spans, rejected);
            && (f in x.spans <==> f in spans && Normalizes(p, input, f, Slice(input.content, spans[f])))
            && (f in x.spans ==> x.spans[f] == spans[f])
  {
    match f
    case Amount =>
    case OccurredAt =>
    case Merchant =>
    case Installment =>
  }

  lemma KeptIff(p: Parsers, input: Input, quotes: seq<Quote>, f: Field)
    ensures var c := Collect(input.content, quotes);
            f in Build(p, input, quotes).spans <==>
              f in c.spans && f !in Conflicted(c.spans) && Within(input.content, c.spans[f])
              && Normalizes(p, input, f, Slice(input.content, c.spans[f]))
    ensures f in Build(p, input, quotes).spans ==> Build(p, input, quotes).spans[f] == Collect(input.content, quotes).spans[f]
  {
    var c := Collect(input.content, quotes);
    if f in c.spans { CollectedWithin(input.content, quotes, f); }
    var conflicted := Conflicted(c.spans);
    NormalizedKeeps(p, input, c.spans - conflicted, c.rejected + (set g | g in conflicted :: Overlaps(g)), f);
  }

  /** On its own, a fitting candidate other than a merchant is quotable and normalises to the confirmed value. */
  lemma FitNormalizes(p: Parsers, input: Input, c: Confirmed, f: Field, span: Span)
    requires Asked(c, f) && Within(input.content, span) && Fits(p, input, c, f, span) && f != Merchant
    ensures Quotable(span) && Normalizes(p, input, f, Slice(input.content, span))
  {
    var q := QuoteOf(input.content, f, span);
    var x := Build(p, input, [q]);
    ValuesAreGrounded(p, input, [q]);
    assert f in x.spans;
    KeptIff(p, input, [q], f);
    KeptSpansAreDisjoint(p, input, [q], f);
    QuoteRoundTrip(input.content, f, span);
  }

  /**
   * Replaying a derived recipe on its own message gives each of its fields the confirmed value, a merchant up to
   * trimming, exactly when no other learned span lies across its span, and for a merchant also only if that can be
   * quoted and is not blank. Otherwise the field stays empty and a reason says so.
   */
  lemma ReplayConfirms(p: Parsers, input: Input, c: Confirmed, i: nat)
    requires CandidatesWithin(p, input.content) && i < |DeriveRecipe(p, input, c)|
    ensures var rules := DeriveRecipe(p, input, c);
            var f := rules[i].0;
            var x := ApplyRecipe(p, input, rules);
            && Separate(p, input.content, rules) && Asked(c, f)
            && (f in x.spans <==> Quotable(RuleSpan(p, input.content, rules[i])) && !Crossed(p, input.content, rules, i)
                                  && Normalizes(p, input, f, Slice(input.content, RuleSpan(p, input.content, rules[i]))))
            && (f != Merchant ==> (f in x.spans <==> !Crossed(p, input.content, rules, i)))
            && (f in x.spans ==> Shows(x, c, f))
            && (f !in x.spans ==> Explained(x.rejected, f))
  {
    var rules := DeriveRecipe(p, input, c);
    var f, content := rules[i].0, input.content;
    DerivedSeparate(p, input, c);
    DerivedRule(p, input, c, |FIELDS|, i);
    var span := RuleSpan(p, content, rules[i]);
    var quotes := Quotes(p, content, rules);
    var x := ApplyRecipe(p, input, rules);
    RuleSpansCollected(p, content, rules, i);
    KeptIff(p, input, quotes, f);
    if f != Merchant { FitNormalizes(p, input, c, f, span); }
    if Quotable(span) { CrossedIsConflict(p, content, rules, i); }
    if f in x.spans {
      ValuesAreGrounded(p, input, quotes);
      ReplayedValue(p, input, c, quotes, f, span);
    } else {
      QuotesMatchRules(p, content, rules);
      assert quotes[i].field == f;
      KeptOrRejected(p, input, quotes, f);
      var r :| r in Build(p, input, quotes).rejected && r.field == f;
      assert r in x.rejected;
    }
  }

  lemma ReplayedValue(p: Parsers, input: Input, c: Confirmed, quotes: seq<Quote>, f: Field, span: Span)
    requires Asked(c, f) && Within(input.content, span) && Fits(p, input, c, f, span)
    requires f in Build(p, input, quotes).spans && Build(p, input, quotes).spans[f] == span
    ensures Shows(Build(p, input, quotes), c, f)
  {
    ValuesAreGrounded(p, input, quotes);
    if f != Merchant {
      var alone := [QuoteOf(input.content, f, span)];
      ValuesAreGrounded(p, input, alone);
      KeptIff(p, input, alone, f);
      KeptSpansAreDisjoint(p, input, alone, f);
      QuoteRoundTrip(input.content, f, span);
    }
  }

  // ---- with the merchant candidates of the program ----

  predicate TakesMerchants(p: Parsers, content: string, keywords: set<string>) {
    p.candidates(content, Merchant) == MerchantCandidates.Candidates(content, keywords)
  }

  lemma MerchantsWithin(content: string, keywords: set<string>)
    ensures AllWithin(content, MerchantCandidates.Candidates(content, keywords))
  {
    forall k | 0 <= k < |MerchantCandidates.Candidates(content, keywords)| ensures Within(content, MerchantCandidates.Candidates(content, keywords)[k]) {
      MerchantCandidates.CandidateEdges(content, keywords, k);
    }
  }

  lemma TokenEdges(content: string, s: Span)
    requires s.start < s.end && MerchantCandidates.TokenAt(content, s.start) && MerchantCandidates.TokenAt(content, s.end - 1)
    ensures Within(content, s) && Strings.HasEdges(Slice(content, s))
  {
    var text := Slice(content, s);
    assert text[0] == content[s.start] && text[|text| - 1] == content[s.end - 1];
  }

  lemma NameOf(text: string, name: string)
    requires Strings.HasEdges(text) && Strings.Trim(text) == Strings.Trim(name)
    ensures text == Strings.Trim(name) && Strings.Trim(text) != ""
  {
    Strings.NothingToTrim(text);
  }

  /** A learned merchant is the very text of its candidate, which is the confirmed name without blanks around it. */
  lemma MerchantIsCandidate(p: Parsers, input: Input, c: Confirmed, keywords: set<string>, rule: (Field, nat))
    requires CandidatesWithin(p, input.content) && TakesMerchants(p, input.content, keywords)
    requires Learned(p, input, c, rule) && rule.0 == Merchant
    ensures Slice(input.content, RuleSpan(p, input.content, rule)) == Strings.Trim(c.merchant.value)
    ensures Normalizes(p, input, Merchant, Slice(input.content, RuleSpan(p, input.content, rule)))
  {
    var span := RuleSpan(p, input.content, rule);
    MerchantCandidates.CandidateEdges(input.content, keywords, rule.1);
    TokenEdges(input.content, span);
    NameOf(Slice(input.content, span), c.merchant.value);
  }

  /**
   * A learned merchant is replayed exactly when it can be quoted and no other learned span lies across it: it is never
   * blank. It comes out as the very text of its candidate.
   */
  lemma MerchantReplay(p: Parsers, input: Input, c: Confirmed, keywords: set<string>, i: nat)
    requires CandidatesWithin(p, input.content) && TakesMerchants(p, input.content, keywords)
    requires i < |DeriveRecipe(p, input, c)| && DeriveRecipe(p, input, c)[i].0 == Merchant
    ensures var rules := DeriveRecipe(p, input, c);
            var x := ApplyRecipe(p, input, rules);
            && Separate(p, input.content, rules)
            && (Merchant in x.spans <==> Quotable(RuleSpan(p, input.content, rules[i])) && !Crossed(p, input.content, rules, i))
            && (Merchant in x.spans ==> x.merchant == Some(Slice(input.content, RuleSpan(p, input.content, rules[i]))))
  {
    ReplayConfirms(p, input, c, i);
    DerivedRule(p, input, c, |FIELDS|, i);
    MerchantIsCandidate(p, input, c, keywords, DeriveRecipe(p, input, c)[i]);
  }
}
