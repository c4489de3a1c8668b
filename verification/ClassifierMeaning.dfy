/** What training counts, in terms of the places where a text holds an n-gram, and which requests and models are refused. */
module ClassifierMeaning {
  import opened Classifier
  import opened ClassifierTheorems
  import opened StableSort
  import S = Strings

  // ---- n-grams ----

  predicate HoldsAt(text: string, t: string, i: int) { 0 <= i && i + |t| <= |text| && text[i..i + |t|] == t }

  /** The places where a text holds a token; they may overlap. */
  ghost function Occurrences(text: string, t: string): set<int> { set i | 0 <= i <= |text| && HoldsAt(text, t, i) }

  predicate GramAt(text: string, size: nat, t: string, i: int) { 0 <= i && i + size <= |text| && text[i..i + size] == t }

  ghost function Upto(text: string, size: nat, n: nat, t: string): set<int> { set i | 0 <= i < n && GramAt(text, size, t, i) }

  lemma {:induction false} GramsOfCount(text: string, size: nat, n: nat, t: string)
    requires n + size <= |text| + 1
    ensures multiset(GramsOf(text, size, n))[t] == |Upto(text, size, n, t)|
  {
    if n > 0 {
      GramsOfCount(text, size, n - 1, t);
      UptoNext(text, size, n, t);
      AddedToken(GramsOf(text, size, n - 1), text[n - 1..n - 1 + size], t);
    }
  }

  lemma AddedToken(tokens: seq<string>, token: string, t: string)
    ensures multiset(tokens + [token])[t] == multiset(tokens)[t] + if token == t then 1 else 0
  {}

  lemma OneMoreElement(before: set<int>, after: set<int>, x: int)
    requires x !in before && after == before + {x}
    ensures |after| == |before| + 1
  {
  }

  lemma UptoNext(text: string, size: nat, n: nat, t: string)
    requires n > 0
    ensures |Upto(text, size, n, t)| == |Upto(text, size, n - 1, t)| + if GramAt(text, size, t, n - 1) then 1 else 0
  {
    var before, after := Upto(text, size, n - 1, t), Upto(text, size, n, t);
    if GramAt(text, size, t, n - 1) {
      assert after == before + {n - 1};
      OneMoreElement(before, after, n - 1);
    } else {
      assert after == before;
    }
  }

  lemma SizeGramsCount(text: string, size: nat, t: string)
    ensures multiset(SizeGrams(text, size))[t] == if |t| == size then |Occurrences(text, t)| else 0
  {
    if size <= |text| {
      GramsOfCount(text, size, |text| - size + 1, t);
      if |t| == size {
        assert forall i :: GramAt(text, size, t, i) <==> HoldsAt(text, t, i);
        assert Upto(text, size, |text| - size + 1, t) == Occurrences(text, t);
      } else {
        assert forall i :: !GramAt(text, size, t, i);
        assert Upto(text, size, |text| - size + 1, t) == {};
      }
    } else if |t| == size {
      assert Occurrences(text, t) == {};
    }
  }

  lemma JoinedCount(a: seq<string>, b: seq<string>, t: string)
    ensures multiset(a + b)[t] == multiset(a)[t] + multiset(b)[t]
  {}

  lemma {:induction false} GramsCount(text: string, minimum: nat, upto: nat, t: string)
    requires minimum >= 1
    ensures multiset(Grams(text, minimum, upto))[t] == if minimum <= |t| <= upto then |Occurrences(text, t)| else 0
    decreases upto
  {
    if upto >= minimum {
      GramsCount(text, minimum, upto - 1, t);
      SizeGramsCount(text, upto, t);
      JoinedCount(Grams(text, minimum, upto - 1), SizeGrams(text, upto), t);
    }
  }

  /** How often a row of the category holds the token, between the marks that stand for the ends of its text. */
  ghost function TimesIn(normalize: string -> string, c: Config, category: string, t: string): Row -> nat {
    (row: Row) =>
      if row.category == category && c.minimum <= |t| <= c.maximum then |Occurrences("^" + normalize(row.pattern) + "$", t)| else 0
  }

  lemma TokensCount(normalize: string -> string, c: Config, row: Row, t: string)
    requires ValidConfig(c)
    ensures Tokens(normalize, c, row)[t] ==
      if c.minimum <= |t| <= c.maximum then |Occurrences("^" + normalize(row.pattern) + "$", t)| else 0
  {
    GramsCount(Bounded(normalize(row.pattern)), c.minimum, c.maximum, t);
  }

  lemma {:induction false} SumsAgree(rows: seq<Row>, v: Row -> nat, w: Row -> nat)
    requires forall row :: v(row) == w(row)
    ensures NSum(rows, v) == NSum(rows, w)
  {
    if rows != [] { SumsAgree(rows[..|rows| - 1], v, w); }
  }

  lemma CategoryCount(normalize: string -> string, c: Config, rows: seq<Row>, category: string, t: string)
    requires ValidConfig(c)
    ensures CategoryTokens(normalize, c, rows, category)[t] == NSum(rows, TimesIn(normalize, c, category, t))
  {
    CountsAreSums(normalize, c, rows, category, t);
    forall row ensures OfToken(normalize, c, category, t)(row) == TimesIn(normalize, c, category, t)(row) {
      TokensCount(normalize, c, row, t);
    }
    SumsAgree(rows, OfToken(normalize, c, category, t), TimesIn(normalize, c, category, t));
  }

  // ---- a label ----

  /** A label holds what the training rows of its category come to. */
  ghost predicate LabelSays(normalize: string -> string, c: Config, training: seq<Row>, l: Label) {
    && l.documents == NSum(training, InCategory(l.categoryId)) >= 1
    && (forall row | row in training && row.category == l.categoryId :: row.slug == l.slug)
    && (forall t :: t in l.counts <==> NSum(training, TimesIn(normalize, c, l.categoryId, t)) > 0)
    && (forall t | t in l.counts :: l.counts[t] == NSum(training, TimesIn(normalize, c, l.categoryId, t)))
    && l.total == Total(l.counts.Keys, l.counts)
  }

  lemma EntrySays(normalize: string -> string, c: Config, training: seq<Row>, k: string)
    requires ValidConfig(c) && Trainable(normalize, training) && k in Categories(training)
    ensures LabelSays(normalize, c, training, LabelFor(k, LabelOf(normalize, c, training, k)))
  {
    var tokens := CategoryTokens(normalize, c, training, k);
    CountsAreSums(normalize, c, training, k, "");
    HasDocuments(training, k);
    KnownSlug(normalize, training, k);
    CountsAddUp(tokens);
    forall t ensures tokens[t] == NSum(training, TimesIn(normalize, c, k, t)) { CategoryCount(normalize, c, training, k, t); }
  }

  /** Every label says what its rows come to. */
  lemma LabelsMeaning(normalize: string -> string, leq: Collation, c: Config, rows: seq<Row>, m: Model, i: nat)
    requires TrainedOn(normalize, leq, c, rows) == Ok(m) && i < |m.labels|
    ensures LabelSays(normalize, c, OfSplit(rows, Train), m.labels[i])
  {
    var training := OfSplit(rows, Train);
    TrainedIds(normalize, leq, c, training);
    var order := SortBy(FirstSeen(training), leq);
    assert order[i] in S.Elems(order);
    EntrySays(normalize, c, training, order[i]);
  }

  ghost predicate OccursIn(rows: seq<Row>, k: string) { exists row :: row in rows && row.category == k }

  ghost predicate HasLabel(m: Model, k: string) { exists l :: l in m.labels && l.categoryId == k }

  lemma OrderedCategories(rows: seq<Row>, leq: Collation)
    requires IsPreorder(leq)
    ensures var order := SortBy(FirstSeen(rows), leq);
      && (forall i, j | 0 <= i < j < |order| :: order[i] != order[j] && leq(order[i], order[j]))
      && forall k :: OccursIn(rows, k) <==> k in order
  {
    var order := SortBy(FirstSeen(rows), leq);
    SortMeaning(FirstSeen(rows), leq);
    DistinctMultiset(FirstSeen(rows));
    DistinctMultiset(order);
    forall k ensures OccursIn(rows, k) <==> k in order {
      assert OccursIn(rows, k) <==> k in Categories(rows);
      assert k in Categories(rows) <==> k in FirstSeen(rows) by { assert k in S.Elems(FirstSeen(rows)) <==> k in FirstSeen(rows); }
      assert k in multiset(order) <==> k in multiset(FirstSeen(rows));
    }
  }

  lemma LabelsInOrder(normalize: string -> string, leq: Collation, c: Config, training: seq<Row>)
    requires ValidConfig(c)
    ensures var order, m := SortBy(FirstSeen(training), leq), ModelOf(normalize, leq, c, training);
      |m.labels| == |order| && forall i | 0 <= i < |order| :: m.labels[i].categoryId == order[i]
  {}

  /** There is one label for each category of the training rows, in the order of the collation. */
  lemma LabelOrderMeaning(normalize: string -> string, leq: Collation, c: Config, rows: seq<Row>, m: Model)
    requires TrainedOn(normalize, leq, c, rows) == Ok(m) && IsPreorder(leq)
    ensures m.config == c && m.documents == |OfSplit(rows, Train)|
    ensures forall i, j | 0 <= i < j < |m.labels| :: m.labels[i].categoryId != m.labels[j].categoryId && leq(m.labels[i].categoryId, m.labels[j].categoryId)
    ensures forall k :: OccursIn(OfSplit(rows, Train), k) <==> HasLabel(m, k)
  {
    var training := OfSplit(rows, Train);
    OrderedCategories(training, leq);
    LabelsInOrder(normalize, leq, c, training);
    forall k ensures OccursIn(training, k) <==> HasLabel(m, k) { ListedLabel(SortBy(FirstSeen(training), leq), m, k); }
  }

  lemma ListedLabel(order: seq<string>, m: Model, k: string)
    requires |m.labels| == |order| && forall i | 0 <= i < |order| :: m.labels[i].categoryId == order[i]
    ensures k in order <==> HasLabel(m, k)
  {
    if k in order {
      var i :| 0 <= i < |order| && order[i] == k;
      assert m.labels[i] in m.labels;
    }
    if HasLabel(m, k) {
      var l :| l in m.labels && l.categoryId == k;
      var i :| 0 <= i < |m.labels| && m.labels[i] == l;
    }
  }

  /** The vocabulary lists in code order, once each, what some training row holds. */
  lemma VocabularyMeaning(normalize: string -> string, leq: Collation, c: Config, rows: seq<Row>, m: Model, t: string)
    requires TrainedOn(normalize, leq, c, rows) == Ok(m)
    ensures S.StrictlySorted(m.vocabulary)
    ensures t in m.vocabulary <==>
      c.minimum <= |t| <= c.maximum && exists row :: row in OfSplit(rows, Train) && Occurrences("^" + normalize(row.pattern) + "$", t) != {}
  {
    var training := OfSplit(rows, Train);
    VocabularyIs(normalize, c, training, t);
    assert t in m.vocabulary <==> t in S.Elems(m.vocabulary);
    forall row ensures t in Tokens(normalize, c, row) <==>
      c.minimum <= |t| <= c.maximum && Occurrences("^" + normalize(row.pattern) + "$", t) != {}
    {
      TokensCount(normalize, c, row, t);
    }
  }

  // ---- refusals ----

  ghost predicate GoodConfig(c: Config) { 1 <= c.minimum && c.minimum <= c.maximum && c.maximum <= 8 && c.alphaPositive }

  ghost predicate GoodRow(normalize: string -> string, row: Row) {
    !S.Blank(row.category) && !S.Blank(row.slug) && normalize(row.pattern) != ""
  }

  lemma GoodIsValid(normalize: string -> string, row: Row)
    ensures ValidRow(normalize, row) <==> GoodRow(normalize, row)
  {
    S.TrimEmpty(row.category);
    S.TrimEmpty(row.slug);
  }

  lemma TwoOrMore(rows: seq<Row>)
    ensures |Categories(rows)| >= 2 <==> exists a, b :: a in rows && b in rows && a.category != b.category
  {
    var all := Categories(rows);
    if |all| >= 2 {
      var x :| x in all;
      assert |all - {x}| >= 1;
      var y :| y in all - {x};
      var a :| a in rows && a.category == x;
      var b :| b in rows && b.category == y;
    }
    if exists a, b :: a in rows && b in rows && a.category != b.category {
      var a, b :| a in rows && b in rows && a.category != b.category;
      assert {a.category, b.category} <= all;
      assert |all| == |{a.category, b.category}| + |all - {a.category, b.category}| by {
        assert all == {a.category, b.category} + (all - {a.category, b.category});
      }
    }
  }

  /** Training succeeds exactly for a good configuration and good training rows of two categories or more, each with one slug. */
  lemma TrainedIff(normalize: string -> string, leq: Collation, c: Config, rows: seq<Row>)
    ensures var training := OfSplit(rows, Train);
      TrainedOn(normalize, leq, c, rows).Ok? <==>
      && GoodConfig(c) && (forall row | row in training :: GoodRow(normalize, row))
      && (forall a, b | a in training && b in training && a.category == b.category :: a.slug == b.slug)
      && exists a, b :: a in training && b in training && a.category != b.category
  {
    var training := OfSplit(rows, Train);
    forall row ensures ValidRow(normalize, row) <==> GoodRow(normalize, row) { GoodIsValid(normalize, row); }
    TwoOrMore(training);
  }

  /** Each row stands among the rows of its own split as often as among all, and not among those of another. */
  lemma SplitRowsMeaning(rows: seq<Row>, split: Split, row: Row)
    ensures multiset(OfSplit(rows, split))[row] == if row.split == split then multiset(rows)[row] else 0
  {
    OfSplitPermutes(rows, split, row);
  }

  // ---- the check of a model ----

  ghost predicate GoodLabel(m: Model, l: Label) {
    && l.categoryId != "" && l.slug != "" && 1 <= l.documents && 1 <= l.total
    && (forall t | t in l.counts :: t in m.vocabulary && 1 <= l.counts[t])
    && l.total == Total(l.counts.Keys, l.counts)
  }

  lemma LabelPassesMeaning(m: Model, l: Label)
    ensures LabelPasses(l, S.Elems(m.vocabulary)) <==> GoodLabel(m, l)
  {
    var vocabulary := S.Elems(m.vocabulary);
    if GoodLabel(m, l) { forall t | t in l.counts ensures t in vocabulary {} }
    if LabelPasses(l, vocabulary) { forall t | t in l.counts ensures t in m.vocabulary { assert t in vocabulary; } }
  }

  lemma LabelsPassMeaning(m: Model)
    ensures LabelsPass(m.labels, S.Elems(m.vocabulary)) <==> forall l | l in m.labels :: GoodLabel(m, l)
  {
    if LabelsPass(m.labels, S.Elems(m.vocabulary)) {
      forall l | l in m.labels ensures GoodLabel(m, l) {
        var i :| 0 <= i < |m.labels| && m.labels[i] == l;
        LabelPassesMeaning(m, l);
      }
    }
    if forall l | l in m.labels :: GoodLabel(m, l) {
      forall i | 0 <= i < |m.labels| ensures LabelPasses(m.labels[i], S.Elems(m.vocabulary)) {
        assert m.labels[i] in m.labels;
        LabelPassesMeaning(m, m.labels[i]);
      }
    }
  }

  /** No two of a list are the same. */
  ghost predicate NoRepeats(xs: seq<string>) { forall i, j | 0 <= i < j < |xs| :: xs[i] != xs[j] }

  /** A model passes exactly with two labels or more, all good and of different categories, a vocabulary without repeats, and documents that add up. */
  lemma AcceptedIff(m: Model)
    ensures Accepted(m) <==>
      && GoodConfig(m.config) && 1 <= m.documents && 2 <= |m.labels| && NoRepeats(m.vocabulary) && "" !in m.vocabulary
      && (forall l | l in m.labels :: GoodLabel(m, l)) && NoRepeats(CategoryIds(m.labels)) && m.documents == DocumentsIn(m.labels)
  {
    LabelsPassMeaning(m);
    forall xs ensures S.Distinct(xs) <==> NoRepeats(xs) {}
  }
}
