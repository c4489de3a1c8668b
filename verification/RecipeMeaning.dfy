/** Which candidate a recipe learns, and what a recipe does to any message, in terms of the text and the normalisers alone. */
module RecipeMeaning {
  import opened Wrappers
  import opened Spans
  import opened Recipe
  import Strings

  // ---- reading a text ----

  /** The places of a text where a digit stands. */
  ghost function DigitPlaces(text: string): set<int> { set i | 0 <= i < |text| && '0' <= text[i] <= '9' }

  lemma {:induction false} DigitsAdd(text: string, c: char)
    ensures Digits(text + [c]) == Digits(text) + if '0' <= c <= '9' then 1 else 0
  {
    if text == "" {
      assert text + [c] == [c];
    } else {
      DigitsAdd(text[1..], c);
      assert (text + [c])[1..] == text[1..] + [c];
    }
  }

  lemma {:induction false} DigitsAreCounted(text: string)
    ensures Digits(text) == |DigitPlaces(text)|
  {
    if text != "" {
      var n := |text| - 1;
      DigitsAreCounted(text[..n]);
      DigitsAdd(text[..n], text[n]);
      assert text == text[..n] + [text[n]];
      assert DigitPlaces(text) == DigitPlaces(text[..n]) + if '0' <= text[n] <= '9' then {n} else {};
    }
  }

  /** An amount reads only with its currency, and only from a text of at most fifteen digits. */
  ghost predicate ReadsAmount(p: Parsers, text: string) {
    |DigitPlaces(text)| <= 15 && p.amount(text).amount.Some? && p.amount(text).currency.Some?
  }

  /** The text reads as a value of the field. */
  ghost predicate ReadsAs(p: Parsers, receivedAt: int, f: Field, text: string) {
    match f
    case Amount => ReadsAmount(p, text)
    case OccurredAt => p.occurredAt(text, receivedAt).Some?
    case Merchant => !Strings.Blank(text)
    case Installment => p.installment(text).Some?
  }

  lemma NormalizesMeaning(p: Parsers, input: Input, f: Field, text: string)
    ensures Normalizes(p, input, f, text) <==> ReadsAs(p, input.receivedAt, f, text)
  {
    DigitsAreCounted(text);
    Strings.TrimEmpty(text);
  }

  // ---- what is kept ----

  /** The only quote of this field names this place. */
  ghost predicate Places(content: string, quotes: seq<Quote>, f: Field, span: Span) {
    exists i :: Once(quotes, f, i) && Resolve(content, quotes[i]) == Some(span)
  }

  lemma PlacesIsCollected(content: string, quotes: seq<Quote>, f: Field, span: Span)
    ensures Places(content, quotes, f, span) <==> (f in Collect(content, quotes).spans && Collect(content, quotes).spans[f] == span)
  {
    CollectMeaning(content, quotes, f);
    if Places(content, quotes, f, span) {
      var i :| Once(quotes, f, i) && Resolve(content, quotes[i]) == Some(span);
    }
  }

  /** A field is kept exactly if its only quote names a place, no other field's place lies across it, and the text there reads as a value. */
  lemma KeptExactly(p: Parsers, input: Input, quotes: seq<Quote>, f: Field, span: Span)
    ensures var x := Build(p, input, quotes);
      (f in x.spans && x.spans[f] == span) <==>
        && Places(input.content, quotes, f, span) && Within(input.content, span)
        && Uncrossed(input.content, quotes, f, span)
        && ReadsAs(p, input.receivedAt, f, Slice(input.content, span))
  {
    var spans := Collect(input.content, quotes).spans;
    KeptIff(p, input, quotes, f);
    PlacesIsCollected(input.content, quotes, f, span);
    if f in spans && spans[f] == span { UndisputedPlace(input.content, quotes, f, span); }
    if Within(input.content, span) { NormalizesMeaning(p, input, f, Slice(input.content, span)); }
  }

  /** No other field's place lies across this one. */
  ghost predicate Uncrossed(content: string, quotes: seq<Quote>, f: Field, span: Span) {
    forall g, other | g != f && Places(content, quotes, g, other) :: !Overlap(span, other)
  }

  lemma UndisputedPlace(content: string, quotes: seq<Quote>, f: Field, span: Span)
    requires var spans := Collect(content, quotes).spans; f in spans && spans[f] == span
    ensures f in Conflicted(Collect(content, quotes).spans) <==> !Uncrossed(content, quotes, f, span)
  {
    var spans := Collect(content, quotes).spans;
    if f in Conflicted(spans) {
      var g :| g in spans && g != f && Overlap(spans[f], spans[g]);
      PlacesIsCollected(content, quotes, g, spans[g]);
    }
    if !Uncrossed(content, quotes, f, span) {
      var g, other :| g != f && Places(content, quotes, g, other) && Overlap(span, other);
      PlacesIsCollected(content, quotes, g, other);
    }
  }

  // ---- learning ----

  /** The text gives the confirmed value: the amount in its currency, the moment, the number of months, or the name without blanks around it. */
  ghost predicate Gives(p: Parsers, receivedAt: int, c: Confirmed, f: Field, text: string)
    requires Asked(c, f)
  {
    match f
    case Amount =>
      && 1 <= |text| <= 64 && ReadsAmount(p, text) && p.amount(text).amount == c.amount
      && (c.currency.Some? ==> p.amount(text).currency == c.currency)
    case OccurredAt => 1 <= |text| <= 64 && p.occurredAt(text, receivedAt) == c.occurredAt
    case Merchant => Strings.Trim(text) == Strings.Trim(c.merchant.value)
    case Installment => 1 <= |text| <= 64 && p.installment(text) == c.installment
  }

  lemma AloneIsKept(p: Parsers, input: Input, f: Field, span: Span)
    requires Within(input.content, span)
    ensures var x, text := Build(p, input, [QuoteOf(input.content, f, span)]), Slice(input.content, span);
      && (f in x.spans <==> 1 <= |text| <= 64 && ReadsAs(p, input.receivedAt, f, text))
      && (f in x.spans ==> x.spans[f] == span)
  {
    var quotes := [QuoteOf(input.content, f, span)];
    var content := input.content;
    QuoteRoundTrip(content, f, span);
    assert Once(quotes, f, 0);
    KeptExactly(p, input, quotes, f, span);
    forall g, other | g != f ensures !Places(content, quotes, g, other) {}
    if f in Build(p, input, quotes).spans {
      KeptExactly(p, input, quotes, f, Build(p, input, quotes).spans[f]);
    }
  }

  lemma FitsMeaning(p: Parsers, input: Input, c: Confirmed, f: Field, span: Span)
    requires Asked(c, f) && Within(input.content, span)
    ensures Fits(p, input, c, f, span) <==> Gives(p, input.receivedAt, c, f, Slice(input.content, span))
  {
    if f != Merchant {
      AloneIsKept(p, input, f, span);
      ValuesAreGrounded(p, input, [QuoteOf(input.content, f, span)]);
    }
  }

  /** The candidate gives the confirmed value, and none before it does. */
  ghost predicate FirstToGive(p: Parsers, input: Input, c: Confirmed, f: Field, index: nat)
    requires Asked(c, f) && CandidatesWithin(p, input.content)
  {
    var candidates := p.candidates(input.content, f);
    && index < |candidates| && Gives(p, input.receivedAt, c, f, Slice(input.content, candidates[index]))
    && forall k | 0 <= k < index :: !Gives(p, input.receivedAt, c, f, Slice(input.content, candidates[k]))
  }

  ghost predicate IsFirst(marks: seq<bool>, index: nat) { index < |marks| && marks[index] && forall k | 0 <= k < index :: !marks[k] }

  lemma FirstTrueMeaning(marks: seq<bool>, index: nat)
    ensures FirstTrue(marks, 0) == Some(index) <==> IsFirst(marks, index)
  {
    var r := FirstTrue(marks, 0);
    if IsFirst(marks, index) && r.Some? && r.value < index { assert !marks[r.value]; }
  }

  lemma MarkMeaning(p: Parsers, input: Input, c: Confirmed, f: Field, spans: seq<Span>, k: nat)
    requires Asked(c, f) && AllWithin(input.content, spans) && k < |spans|
    ensures Marks(p, input, c, f, spans)[k] <==> Gives(p, input.receivedAt, c, f, Slice(input.content, spans[k]))
  {
    FitsMeaning(p, input, c, f, spans[k]);
  }

  lemma FirstFitMeaning(p: Parsers, input: Input, c: Confirmed, f: Field, index: nat)
    requires Asked(c, f) && CandidatesWithin(p, input.content)
    ensures FirstFit(p, input, c, f) == Some(index) <==> FirstToGive(p, input, c, f, index)
  {
    var candidates := p.candidates(input.content, f);
    var marks := Marks(p, input, c, f, candidates);
    FirstTrueMeaning(marks, index);
    FirstMarked(p, input, c, f, marks, index);
  }

  lemma FirstMarked(p: Parsers, input: Input, c: Confirmed, f: Field, marks: seq<bool>, index: nat)
    requires Asked(c, f) && CandidatesWithin(p, input.content) && marks == Marks(p, input, c, f, p.candidates(input.content, f))
    ensures IsFirst(marks, index) <==> FirstToGive(p, input, c, f, index)
  {
    forall k: nat | k < |marks| ensures marks[k] <==> Gives(p, input.receivedAt, c, f, Slice(input.content, p.candidates(input.content, f)[k])) {
      MarkMeaning(p, input, c, f, p.candidates(input.content, f), k);
    }
  }

  lemma {:induction false} DerivedIff(p: Parsers, input: Input, c: Confirmed, n: nat, f: Field, index: nat)
    requires CandidatesWithin(p, input.content) && n <= |FIELDS|
    ensures (f, index) in Derive(p, input, c, n) <==> Position(f) < n && Asked(c, f) && FirstFit(p, input, c, f) == Some(index)
  {
    if n > 0 {
      DerivedIff(p, input, c, n - 1, f, index);
      assert Position(FIELDS[n - 1]) == n - 1;
    }
  }

  /** A field has a rule exactly if it was confirmed and some candidate gives its value; the rule is the first that does. */
  lemma LearnedExactly(p: Parsers, input: Input, c: Confirmed, f: Field, index: nat)
    requires CandidatesWithin(p, input.content)
    ensures (f, index) in DeriveRecipe(p, input, c) <==> Asked(c, f) && FirstToGive(p, input, c, f, index)
  {
    DerivedIff(p, input, c, |FIELDS|, f, index);
    if Asked(c, f) { FirstFitMeaning(p, input, c, f, index); }
  }

  // ---- applying to any message ----

  ghost predicate OneRuleEach(rules: seq<(Field, nat)>) {
    forall i, j | 0 <= i < |rules| && 0 <= j < |rules| && i != j :: rules[i].0 != rules[j].0
  }

  /** The rule finds its candidate in the message, and it is this one. */
  ghost predicate Finds(p: Parsers, content: string, rule: (Field, nat), span: Span) {
    rule.1 < |p.candidates(content, rule.0)| && p.candidates(content, rule.0)[rule.1] == span
  }

  function Found(p: Parsers, content: string, rules: seq<(Field, nat)>): seq<(Field, nat)> {
    if rules == [] then []
    else
      var rule := rules[|rules| - 1];
      Found(p, content, rules[..|rules| - 1]) + (if Present(p, content, rule) then [rule] else [])
  }

  lemma {:induction false} FoundAreRules(p: Parsers, content: string, rules: seq<(Field, nat)>, rule: (Field, nat))
    requires CandidatesWithin(p, content)
    ensures rule in Found(p, content, rules) <==> rule in rules && Present(p, content, rule)
    ensures forall i | 0 <= i < |Found(p, content, rules)| :: Present(p, content, Found(p, content, rules)[i])
  {
    if rules != [] {
      var rest, last := rules[..|rules| - 1], rules[|rules| - 1];
      FoundAreRules(p, content, rest, rule);
      assert rules == rest + [last];
      assert rule in rules <==> rule in rest || rule == last;
    }
  }

  lemma QuotesAdd(p: Parsers, content: string, rules: seq<(Field, nat)>, rule: (Field, nat))
    requires CandidatesWithin(p, content)
    ensures Quotes(p, content, rules + [rule]) ==
      Quotes(p, content, rules) + if Present(p, content, rule) then [RuleQuote(p, content, rule)] else []
  {
    assert (rules + [rule])[..|rules|] == rules;
  }

  lemma {:induction false} QuotesOfFound(p: Parsers, content: string, rules: seq<(Field, nat)>)
    requires CandidatesWithin(p, content)
    ensures Quotes(p, content, Found(p, content, rules)) == Quotes(p, content, rules)
  {
    if rules != [] {
      var rest, last := rules[..|rules| - 1], rules[|rules| - 1];
      QuotesOfFound(p, content, rest);
      QuotesAdd(p, content, Found(p, content, rest), last);
      assert Found(p, content, rules) == Found(p, content, rest) + if Present(p, content, last) then [last] else [];
      assert Found(p, content, rest) + [] == Found(p, content, rest);
    }
  }

  lemma {:induction false} FoundDiffer(p: Parsers, content: string, rules: seq<(Field, nat)>)
    requires CandidatesWithin(p, content) && OneRuleEach(rules)
    ensures OneRuleEach(Found(p, content, rules))
  {
    if rules != [] {
      var rest, last := rules[..|rules| - 1], rules[|rules| - 1];
      FoundDiffer(p, content, rest);
      var found := Found(p, content, rest);
      forall i | 0 <= i < |found| ensures found[i].0 != last.0 {
        FoundAreRules(p, content, rest, found[i]);
        var j :| 0 <= j < |rest| && rest[j] == found[i];
        assert rules[j] == found[i];
      }
    }
  }

  /** Applying a recipe places exactly the quotable candidates that its rules find. */
  lemma RulesPlace(p: Parsers, content: string, rules: seq<(Field, nat)>, f: Field, span: Span)
    requires CandidatesWithin(p, content) && OneRuleEach(rules)
    ensures Places(content, Quotes(p, content, rules), f, span) <==>
      1 <= span.end - span.start <= 64 && exists index :: (f, index) in rules && Finds(p, content, (f, index), span)
  {
    var found := Found(p, content, rules);
    FoundDiffer(p, content, rules);
    FoundAreRules(p, content, rules, (f, 0));
    QuotesOfFound(p, content, rules);
    PlacesIsCollected(content, Quotes(p, content, rules), f, span);
    assert Separate(p, content, found);
    if f in Collect(content, Quotes(p, content, found)).spans {
      OnlyRuleSpans(p, content, found, f);
      var j :| 0 <= j < |found| && found[j].0 == f;
      RuleSpansCollected(p, content, found, j);
      FoundAreRules(p, content, rules, found[j]);
      assert (f, found[j].1) in rules && Finds(p, content, (f, found[j].1), RuleSpan(p, content, found[j]));
    }
    forall index | (f, index) in rules && Finds(p, content, (f, index), span) && 1 <= span.end - span.start <= 64
      ensures f in Collect(content, Quotes(p, content, rules)).spans && Collect(content, Quotes(p, content, rules)).spans[f] == span
    {
      FoundAreRules(p, content, rules, (f, index));
      var j :| 0 <= j < |found| && found[j] == (f, index);
      RuleSpansCollected(p, content, found, j);
    }
  }

  /** The rule's candidate in this message can be quoted, and no other rule's quotable candidate lies across it. */
  ghost predicate Undisputed(p: Parsers, content: string, rules: seq<(Field, nat)>, f: Field, span: Span) {
    && 1 <= span.end - span.start <= 64
    && forall g, index, other | g != f && (g, index) in rules && Finds(p, content, (g, index), other) && 1 <= other.end - other.start <= 64 ::
         !Overlap(span, other)
  }

  /** On any message a field is extracted exactly if its rule finds a candidate that is undisputed and reads as a value. */
  lemma AppliedExactly(p: Parsers, input: Input, rules: seq<(Field, nat)>, f: Field, span: Span)
    requires CandidatesWithin(p, input.content) && OneRuleEach(rules)
    ensures var x := ApplyRecipe(p, input, rules);
      (f in x.spans && x.spans[f] == span) <==>
        && Within(input.content, span) && (exists index :: (f, index) in rules && Finds(p, input.content, (f, index), span))
        && Undisputed(p, input.content, rules, f, span) && ReadsAs(p, input.receivedAt, f, Slice(input.content, span))
  {
    var content, quotes := input.content, Quotes(p, input.content, rules);
    KeptExactly(p, input, quotes, f, span);
    RulesPlace(p, content, rules, f, span);
    if 1 <= span.end - span.start <= 64 { UncrossedIff(p, content, rules, f, span); }
  }

  lemma UncrossedIff(p: Parsers, content: string, rules: seq<(Field, nat)>, f: Field, span: Span)
    requires CandidatesWithin(p, content) && OneRuleEach(rules) && 1 <= span.end - span.start <= 64
    ensures Uncrossed(content, Quotes(p, content, rules), f, span) <==> Undisputed(p, content, rules, f, span)
  {
    var quotes := Quotes(p, content, rules);
    forall g, other | g != f && Places(content, quotes, g, other)
      ensures 1 <= other.end - other.start <= 64 && exists index :: (g, index) in rules && Finds(p, content, (g, index), other)
    {
      RulesPlace(p, content, rules, g, other);
    }
    forall g, index, other | g != f && (g, index) in rules && Finds(p, content, (g, index), other) && 1 <= other.end - other.start <= 64
      ensures Places(content, quotes, g, other)
    {
      RulesPlace(p, content, rules, g, other);
    }
  }

  /** The values are the readings of the extracted texts; a rule without its candidate is reported as missing. */
  lemma AppliedValues(p: Parsers, input: Input, rules: seq<(Field, nat)>)
    requires CandidatesWithin(p, input.content)
    ensures var x := ApplyRecipe(p, input, rules);
      && (forall f | f in x.spans :: Within(input.content, x.spans[f]))
      && (if Amount in x.spans then Money(x.amount, x.currency) == p.amount(Slice(input.content, x.spans[Amount])) else x.amount == None && x.currency == None)
      && (x.merchant == if Merchant in x.spans then Some(Strings.Trim(Slice(input.content, x.spans[Merchant]))) else None)
      && (x.installment == if Installment in x.spans then p.installment(Slice(input.content, x.spans[Installment])) else None)
    ensures forall rule | rule in rules && !exists span :: Finds(p, input.content, rule, span) ::
      Missing(rule.0) in ApplyRecipe(p, input, rules).rejected
  {
    ValuesAreGrounded(p, input, Quotes(p, input.content, rules));
    forall rule | rule in rules && !exists span :: Finds(p, input.content, rule, span) ensures !Present(p, input.content, rule) {
      if Present(p, input.content, rule) { assert Finds(p, input.content, rule, p.candidates(input.content, rule.0)[rule.1]); }
    }
  }

  /** The time is the reading of its text; only when the recipe has no rule for it and the message no candidate is it the time of receipt. */
  lemma AppliedTime(p: Parsers, input: Input, rules: seq<(Field, nat)>)
    requires CandidatesWithin(p, input.content)
    ensures var x := ApplyRecipe(p, input, rules);
      && (OccurredAt in x.spans ==> Within(input.content, x.spans[OccurredAt]))
      && x.occurredAt ==
           if OccurredAt in x.spans then p.occurredAt(Slice(input.content, x.spans[OccurredAt]), input.receivedAt)
           else if |p.candidates(input.content, OccurredAt)| == 0 && forall rule | rule in rules :: rule.0 != OccurredAt then Some(input.receivedAt)
           else None
  {
    ValuesAreGrounded(p, input, Quotes(p, input.content, rules));
  }
}
