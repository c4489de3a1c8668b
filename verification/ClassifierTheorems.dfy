/** When a trained model passes the model check, when row order does not matter, and how evaluation counts add up. */
module ClassifierTheorems {
  import opened Classifier
  import opened StableSort
  import S = Strings

  function Amount(counts: map<string, int>, k: string): int { if k in counts then counts[k] else 0 }

  ghost function Total(keys: set<string>, counts: map<string, int>): int
    decreases |keys|
  {
    if keys == {} then 0
    else
      var k :| k in keys;
      Amount(counts, k) + Total(keys - {k}, counts)
  }

  lemma {:induction false} TotalTakes(keys: set<string>, counts: map<string, int>, k: string)
    requires k in keys
    ensures Total(keys, counts) == Amount(counts, k) + Total(keys - {k}, counts)
    decreases |keys|
  {
    var c :| c in keys && Total(keys, counts) == Amount(counts, c) + Total(keys - {c}, counts);
    if c != k {
      TotalTakes(keys - {c}, counts, k);
      TotalTakes(keys - {k}, counts, c);
      assert keys - {c} - {k} == keys - {k} - {c};
    }
  }

  lemma {:induction false} TotalAgrees(keys: set<string>, a: map<string, int>, b: map<string, int>)
    requires forall k | k in keys :: Amount(a, k) == Amount(b, k)
    ensures Total(keys, a) == Total(keys, b)
    decreases |keys|
  {
    if keys != {} {
      var k :| k in keys;
      TotalTakes(keys, a, k);
      TotalTakes(keys, b, k);
      TotalAgrees(keys - {k}, a, b);
    }
  }

  lemma TotalBumps(keys: set<string>, counts: map<string, nat>, k: string)
    requires k in keys
    ensures Total(keys, Bump(counts, k)) == Total(keys, counts) + 1
  {
    TotalTakes(keys, counts, k);
    TotalTakes(keys, Bump(counts, k), k);
    TotalAgrees(keys - {k}, counts, Bump(counts, k));
  }

  /** The token counts of a label add up to the number of its tokens. */
  lemma {:induction false} CountsAddUp(tokens: multiset<string>)
    ensures Total(Counts(tokens).Keys, Counts(tokens)) == |tokens|
    decreases |tokens|
  {
    if tokens == multiset{} {
      assert Counts(tokens).Keys == {};
    } else {
      var k :| k in tokens;
      var rest := tokens[k := 0];
      CountsAddUp(rest);
      TotalTakes(Counts(tokens).Keys, Counts(tokens), k);
      assert Counts(tokens).Keys - {k} == Counts(rest).Keys;
      TotalAgrees(Counts(rest).Keys, Counts(tokens), Counts(rest));
    }
  }

  // ---- the check of a model ----

  ghost predicate LabelPasses(l: Label, vocabulary: set<string>) {
    && l.categoryId != "" && l.slug != "" && l.documents >= 1 && l.total >= 1 && l.counts.Keys <= vocabulary
    && (forall t | t in l.counts :: l.counts[t] >= 1) && Total(l.counts.Keys, l.counts) == l.total
  }

  function DocumentsIn(labels: seq<Label>): int {
    if labels == [] then 0 else DocumentsIn(labels[..|labels| - 1]) + labels[|labels| - 1].documents
  }

  ghost predicate LabelsPass(labels: seq<Label>, vocabulary: set<string>) {
    forall i | 0 <= i < |labels| :: LabelPasses(labels[i], vocabulary)
  }

  function CategoryIds(labels: seq<Label>): (r: seq<string>)
    ensures |r| == |labels| && forall i | 0 <= i < |labels| :: r[i] == labels[i].categoryId
  {
    seq(|labels|, i requires 0 <= i < |labels| => labels[i].categoryId)
  }

  ghost predicate Accepted(m: Model) {
    && m.documents >= 1 && |m.labels| >= 2 && ValidConfig(m.config) && S.Distinct(m.vocabulary) && "" !in m.vocabulary
    && LabelsPass(m.labels, S.Elems(m.vocabulary)) && S.Distinct(CategoryIds(m.labels)) && DocumentsIn(m.labels) == m.documents
  }

  method AddCounts(counts: map<string, int>) returns (total: int)
    ensures total == Total(counts.Keys, counts)
  {
    total := 0;
    var pending := counts.Keys;
    while pending != {}
      invariant pending <= counts.Keys && total + Total(pending, counts) == Total(counts.Keys, counts)
    {
      var k :| k in pending;
      TotalTakes(pending, counts, k);
      total, pending := total + counts[k], pending - {k};
    }
  }

  method CheckLabel(l: Label, vocabulary: set<string>) returns (ok: bool)
    ensures ok <==> LabelPasses(l, vocabulary)
  {
    if l.categoryId == "" || l.slug == "" || l.documents < 1 || l.total < 1 { return false; }
    if exists t | t in l.counts :: t !in vocabulary || l.counts[t] < 1 { return false; }
    var total := AddCounts(l.counts);
    ok := total == l.total;
  }

  /** As many members as places, exactly without repetition. */
  lemma {:induction false} DistinctCount(xs: seq<string>)
    ensures |S.Elems(xs)| <= |xs|
    ensures |S.Elems(xs)| == |xs| <==> S.Distinct(xs)
  {
    if xs == [] {
      assert S.Elems(xs) == {};
    } else {
      var rest, last := xs[..|xs| - 1], xs[|xs| - 1];
      DistinctCount(rest);
      assert xs == rest + [last];
      assert S.Elems(xs) == S.Elems(rest) + {last};
      if last in rest {
        assert S.Elems(xs) == S.Elems(rest);
        var i :| 0 <= i < |rest| && rest[i] == last;
        assert xs[i] == xs[|xs| - 1];
      }
    }
  }

  lemma IdsNext(labels: seq<Label>, n: nat)
    requires n < |labels|
    ensures S.Elems(CategoryIds(labels[..n + 1])) == S.Elems(CategoryIds(labels[..n])) + {labels[n].categoryId}
    ensures S.Distinct(CategoryIds(labels[..n])) ==>
              (S.Distinct(CategoryIds(labels[..n + 1])) <==> labels[n].categoryId !in S.Elems(CategoryIds(labels[..n])))
  {
    var ids := CategoryIds(labels[..n]);
    assert CategoryIds(labels[..n + 1]) == ids + [labels[n].categoryId];
    if labels[n].categoryId in S.Elems(ids) {
      var i :| 0 <= i < |ids| && ids[i] == labels[n].categoryId;
      assert (ids + [labels[n].categoryId])[i] == (ids + [labels[n].categoryId])[n];
    }
  }

  lemma IdsPrefix(labels: seq<Label>, n: nat)
    requires n <= |labels|
    ensures S.Distinct(CategoryIds(labels)) ==> S.Distinct(CategoryIds(labels[..n]))
  {
    assert CategoryIds(labels[..n]) == CategoryIds(labels)[..n];
  }

  /** What the loop over the labels has when it has passed `n` of them. */
  ghost predicate PassedUpTo(labels: seq<Label>, vocabulary: set<string>, n: nat, documents: int, ids: set<string>) {
    && n <= |labels| && documents == DocumentsIn(labels[..n]) && ids == S.Elems(CategoryIds(labels[..n]))
    && LabelsPass(labels[..n], vocabulary) && S.Distinct(CategoryIds(labels[..n]))
  }

  lemma PassesOneMore(labels: seq<Label>, vocabulary: set<string>, n: nat, documents: int, ids: set<string>)
    requires n < |labels| && PassedUpTo(labels, vocabulary, n, documents, ids)
    requires LabelPasses(labels[n], vocabulary) && labels[n].categoryId !in ids
    ensures PassedUpTo(labels, vocabulary, n + 1, documents + labels[n].documents, ids + {labels[n].categoryId})
  {
    assert labels[..n + 1][..n] == labels[..n];
    IdsNext(labels, n);
  }

  lemma RepeatedId(labels: seq<Label>, n: nat)
    requires n < |labels| && S.Distinct(CategoryIds(labels[..n])) && labels[n].categoryId in S.Elems(CategoryIds(labels[..n]))
    ensures !S.Distinct(CategoryIds(labels))
  {
    IdsNext(labels, n);
    IdsPrefix(labels, n + 1);
  }

  method CheckLabels(labels: seq<Label>, vocabulary: set<string>) returns (ok: bool, documents: int)
    ensures ok <==> LabelsPass(labels, vocabulary) && S.Distinct(CategoryIds(labels))
    ensures ok ==> documents == DocumentsIn(labels)
  {
    var ids: set<string> := {};
    documents := 0;
    assert labels[..0] == [] && S.Elems(CategoryIds([])) == {};
    for n := 0 to |labels|
      invariant PassedUpTo(labels, vocabulary, n, documents, ids)
    {
      ok := CheckLabel(labels[n], vocabulary);
      if !ok { return; }
      if labels[n].categoryId in ids {
        RepeatedId(labels, n);
        return false, documents;
      }
      PassesOneMore(labels, vocabulary, n, documents, ids);
      ids, documents := ids + {labels[n].categoryId}, documents + labels[n].documents;
    }
    assert labels[..|labels|] == labels;
    ok := true;
  }

  method AssertMerchantClassifierModel(m: Model) returns (ok: bool)
    ensures ok <==> Accepted(m)
  {
    if m.documents < 1 || |m.labels| < 2 || !ValidConfig(m.config) { return false; }
    var vocabulary := set t | t in m.vocabulary;
    assert vocabulary == S.Elems(m.vocabulary);
    DistinctCount(m.vocabulary);
    if |vocabulary| != |m.vocabulary| || "" in m.vocabulary { return false; }
    var documents;
    ok, documents := CheckLabels(m.labels, vocabulary);
    ok := ok && documents == m.documents;
  }

  // ---- trained models against the check ----

  lemma SizeGramsAreNotEmpty(text: string, size: nat)
    requires size >= 1
    ensures "" !in SizeGrams(text, size)
  {
    if size <= |text| { SizedGrams(text, size, |text| - size + 1); }
  }

  lemma {:induction false} GramsAreNotEmpty(text: string, minimum: nat, upto: nat)
    requires minimum >= 1
    ensures "" !in Grams(text, minimum, upto)
    decreases upto
  {
    if upto >= minimum {
      GramsAreNotEmpty(text, minimum, upto - 1);
      SizeGramsAreNotEmpty(text, upto);
      assert Grams(text, minimum, upto) == Grams(text, minimum, upto - 1) + SizeGrams(text, upto);
    }
  }

  lemma {:induction false} SizedGrams(text: string, size: nat, n: nat)
    requires n + size <= |text| + 1
    ensures forall t | t in GramsOf(text, size, n) :: |t| == size
  {
    if n > 0 { SizedGrams(text, size, n - 1); }
  }

  lemma {:induction false} VocabularyHolds(normalize: string -> string, c: Config, rows: seq<Row>, category: string)
    requires ValidConfig(c)
    ensures Counts(CategoryTokens(normalize, c, rows, category)).Keys <= Vocabulary(normalize, c, rows)
    ensures "" !in Vocabulary(normalize, c, rows)
  {
    if rows != [] {
      VocabularyHolds(normalize, c, rows[..|rows| - 1], category);
      GramsAreNotEmpty(Bounded(normalize(rows[|rows| - 1].pattern)), c.minimum, c.maximum);
    }
  }

  function DocumentsBy(rows: seq<Row>, keys: set<string>): map<string, nat> { map k | k in keys :: Documents(rows, k) }

  lemma {:induction false} DocumentsAddUp(rows: seq<Row>, keys: set<string>)
    requires Categories(rows) <= keys
    ensures Total(keys, DocumentsBy(rows, keys)) == |rows|
  {
    if rows == [] {
      NoDocuments(keys, DocumentsBy(rows, keys));
    } else {
      var rest, row := rows[..|rows| - 1], rows[|rows| - 1];
      assert row in rows && Categories(rest) <= Categories(rows);
      DocumentsAddUp(rest, keys);
      TotalBumps(keys, DocumentsBy(rest, keys), row.category);
      TotalAgrees(keys, DocumentsBy(rows, keys), Bump(DocumentsBy(rest, keys), row.category));
    }
  }

  lemma {:induction false} NoDocuments(keys: set<string>, counts: map<string, nat>)
    requires forall k | k in keys :: Count(counts, k) == 0
    ensures Total(keys, counts) == 0
    decreases |keys|
  {
    if keys != {} {
      var k :| k in keys;
      TotalTakes(keys, counts, k);
      NoDocuments(keys - {k}, counts);
    }
  }

  /** Some row of the category is long enough for an n-gram of the smallest size, its two boundary marks included. */
  ghost predicate LongEnough(normalize: string -> string, c: Config, rows: seq<Row>, category: string) {
    exists row | row in rows :: row.category == category && c.minimum <= |normalize(row.pattern)| + 2
  }

  lemma {:induction false} TokensIffLongEnough(normalize: string -> string, c: Config, rows: seq<Row>, category: string)
    requires ValidConfig(c)
    ensures |CategoryTokens(normalize, c, rows, category)| >= 1 <==> LongEnough(normalize, c, rows, category)
  {
    if rows != [] {
      var rest, row := rows[..|rows| - 1], rows[|rows| - 1];
      TokensIffLongEnough(normalize, c, rest, category);
      var text := Bounded(normalize(row.pattern));
      GramsAppear(text, c.minimum, c.maximum);
      assert |text| == |normalize(row.pattern)| + 2;
      assert |Tokens(normalize, c, row)| == |Grams(text, c.minimum, c.maximum)|;
      assert forall a :: a in rows <==> a in rest || a == row;
    }
  }

  lemma {:induction false} HasDocuments(rows: seq<Row>, category: string)
    requires category in Categories(rows)
    ensures Documents(rows, category) >= 1
  {
    var rest, row := rows[..|rows| - 1], rows[|rows| - 1];
    if row.category != category {
      assert forall a :: a in rows <==> a in rest || a == row;
      HasDocuments(rest, category);
    }
  }

  lemma TrimmedAway(s: string)
    ensures S.Trim(s) != "" ==> s != ""
  {
  }

  lemma LabelPassesIff(normalize: string -> string, c: Config, rows: seq<Row>, k: string)
    requires ValidConfig(c) && Trainable(normalize, rows) && k in Categories(rows)
    ensures LabelPasses(LabelFor(k, LabelOf(normalize, c, rows, k)), Vocabulary(normalize, c, rows)) <==> LongEnough(normalize, c, rows, k)
  {
    var tokens := CategoryTokens(normalize, c, rows, k);
    CountsAddUp(tokens);
    VocabularyHolds(normalize, c, rows, k);
    TokensIffLongEnough(normalize, c, rows, k);
    HasDocuments(rows, k);
    KnownSlug(normalize, rows, k);
    var m :| m in rows && m.category == k;
    assert ValidRow(normalize, m);
    TrimmedAway(m.category);
    TrimmedAway(m.slug);
  }

  ghost predicate AllLongEnough(normalize: string -> string, c: Config, rows: seq<Row>) {
    forall k | k in Categories(rows) :: LongEnough(normalize, c, rows, k)
  }

  /** The ids of a trained model are the categories of its rows, each once, in the order of the collation. */
  lemma TrainedIds(normalize: string -> string, leq: Collation, c: Config, rows: seq<Row>)
    requires ValidConfig(c)
    ensures var order, m := SortBy(FirstSeen(rows), leq), ModelOf(normalize, leq, c, rows);
      && S.Elems(order) == Categories(rows) && S.Distinct(order) && CategoryIds(m.labels) == order
      && |m.labels| == |order| == |Categories(rows)|
      && forall i | 0 <= i < |order| :: m.labels[i] == LabelFor(order[i], LabelOf(normalize, c, rows, order[i]))
  {
    var order, m := SortBy(FirstSeen(rows), leq), ModelOf(normalize, leq, c, rows);
    SortKeepsDistinct(FirstSeen(rows), leq);
    DistinctCount(order);
    forall i | 0 <= i < |order| ensures m.labels[i] == LabelFor(order[i], LabelOf(normalize, c, rows, order[i])) {
      assert order[i] in S.Elems(order);
    }
  }

  lemma LabelAtPassesIff(normalize: string -> string, leq: Collation, c: Config, rows: seq<Row>, i: nat)
    requires ValidConfig(c) && Trainable(normalize, rows)
    requires |ModelOf(normalize, leq, c, rows).labels| == |SortBy(FirstSeen(rows), leq)| && i < |SortBy(FirstSeen(rows), leq)|
    ensures SortBy(FirstSeen(rows), leq)[i] in Categories(rows)
    ensures LabelPasses(ModelOf(normalize, leq, c, rows).labels[i], Vocabulary(normalize, c, rows))
       <==> LongEnough(normalize, c, rows, SortBy(FirstSeen(rows), leq)[i])
  {
    var order := SortBy(FirstSeen(rows), leq);
    TrainedIds(normalize, leq, c, rows);
    assert order[i] in S.Elems(order);
    LabelPassesIff(normalize, c, rows, order[i]);
  }

  lemma LabelsPassIff(normalize: string -> string, leq: Collation, c: Config, rows: seq<Row>)
    requires ValidConfig(c) && Trainable(normalize, rows)
    ensures LabelsPass(ModelOf(normalize, leq, c, rows).labels, Vocabulary(normalize, c, rows)) <==> AllLongEnough(normalize, c, rows)
  {
    TrainedIds(normalize, leq, c, rows);
    var order, labels := SortBy(FirstSeen(rows), leq), ModelOf(normalize, leq, c, rows).labels;
    var vocabulary := Vocabulary(normalize, c, rows);
    forall i | 0 <= i < |labels|
      ensures order[i] in Categories(rows) && (LabelPasses(labels[i], vocabulary) <==> LongEnough(normalize, c, rows, order[i]))
    {
      LabelAtPassesIff(normalize, leq, c, rows, i);
    }
    EachPasses(normalize, c, rows, order, labels, vocabulary);
  }

  lemma EachPasses(normalize: string -> string, c: Config, rows: seq<Row>, order: seq<string>, labels: seq<Label>, vocabulary: set<string>)
    requires ValidConfig(c) && Trainable(normalize, rows) && |order| == |labels| && S.Elems(order) == Categories(rows)
    requires forall i | 0 <= i < |labels| :: LabelPasses(labels[i], vocabulary) <==> LongEnough(normalize, c, rows, order[i])
    ensures LabelsPass(labels, vocabulary) <==> AllLongEnough(normalize, c, rows)
  {
    forall k | k in Categories(rows) ensures exists i :: 0 <= i < |order| && order[i] == k { assert k in S.Elems(order); }
    forall i | 0 <= i < |order| ensures order[i] in Categories(rows) { assert order[i] in S.Elems(order); }
  }

  /** The documents of labels with different ids, one for each of these keys. */
  lemma {:induction false} ListedDocuments(rows: seq<Row>, labels: seq<Label>)
    requires S.Distinct(CategoryIds(labels)) && forall i | 0 <= i < |labels| :: labels[i].documents == Documents(rows, labels[i].categoryId)
    ensures DocumentsIn(labels) == Total(S.Elems(CategoryIds(labels)), DocumentsBy(rows, S.Elems(CategoryIds(labels))))
  {
    var keys := S.Elems(CategoryIds(labels));
    if labels == [] {
      assert keys == {};
    } else {
      var n := |labels| - 1;
      var rest, k := S.Elems(CategoryIds(labels[..n])), labels[n].categoryId;
      IdsPrefix(labels, n);
      IdsNext(labels, n);
      assert labels[..n + 1] == labels;
      ListedDocuments(rows, labels[..n]);
      TotalTakes(keys, DocumentsBy(rows, keys), k);
      assert keys - {k} == rest;
      TotalAgrees(rest, DocumentsBy(rows, keys), DocumentsBy(rows, rest));
    }
  }

  lemma DocumentsMatch(normalize: string -> string, leq: Collation, c: Config, rows: seq<Row>)
    requires ValidConfig(c)
    ensures DocumentsIn(ModelOf(normalize, leq, c, rows).labels) == |rows|
  {
    TrainedIds(normalize, leq, c, rows);
    var labels := ModelOf(normalize, leq, c, rows).labels;
    ListedDocuments(rows, labels);
    assert S.Elems(CategoryIds(labels)) == Categories(rows);
    DocumentsAddUp(rows, Categories(rows));
  }

  /** A trained model passes its own check exactly when every category has a pattern long enough for one n-gram. */
  lemma TrainedIsAcceptedIff(normalize: string -> string, leq: Collation, c: Config, rows: seq<Row>, m: Model)
    requires TrainedOn(normalize, leq, c, rows) == Ok(m)
    ensures Accepted(m) <==> AllLongEnough(normalize, c, OfSplit(rows, Train))
  {
    var training := OfSplit(rows, Train);
    TrainedIds(normalize, leq, c, training);
    LabelsPassIff(normalize, leq, c, training);
    DocumentsMatch(normalize, leq, c, training);
    VocabularyHolds(normalize, c, training, "");
    assert S.Distinct(m.vocabulary);
    assert "" !in m.vocabulary by { assert "" in m.vocabulary ==> "" in S.Elems(m.vocabulary); }
  }

  lemma ShortNgramsFit(normalize: string -> string, c: Config, rows: seq<Row>)
    requires Trainable(normalize, rows) && c.minimum <= 3
    ensures AllLongEnough(normalize, c, rows)
  {
    forall k | k in Categories(rows) ensures LongEnough(normalize, c, rows, k) {
      var m :| m in rows && m.category == k;
      assert ValidRow(normalize, m);
    }
  }

  /** With n-grams of at most three characters allowed, every trained model passes. */
  lemma SmallNgramsAreAccepted(normalize: string -> string, leq: Collation, c: Config, rows: seq<Row>, m: Model)
    requires TrainedOn(normalize, leq, c, rows) == Ok(m) && c.minimum <= 3
    ensures Accepted(m)
  {
    ShortNgramsFit(normalize, c, OfSplit(rows, Train));
    TrainedIsAcceptedIff(normalize, leq, c, rows, m);
  }

  function SmallRow(pattern: string, category: string): Row { Row(pattern, category, "s", Train) }

  lemma TwoCategories(a: Row, b: Row)
    requires a.category != b.category
    ensures Categories([a]) == {a.category} && Categories([a, b]) == {a.category, b.category} && |Categories([a, b])| == 2
    ensures FirstSeen([a, b]) == [a.category, b.category]
  {
    assert [a, b][..1] == [a] && [a][..0] == [];
    assert a in [a] && a in [a, b] && b in [a, b];
    assert forall r :: r in [a] <==> r == a;
    assert forall r :: r in [a, b] <==> r == a || r == b;
    assert FirstSeen([a]) == [a.category];
  }

  lemma TwoTrained(a: Row, b: Row)
    requires a.split == b.split == Train
    ensures OfSplit([a, b], Train) == [a, b]
  {
    assert [a, b][..1] == [a] && [a][..0] == [];
    assert OfSplit([a], Train) == [a];
  }

  /** Two rows of different categories can be trained on. */
  lemma TwoRowsTrain(normalize: string -> string, leq: Collation, c: Config, a: Row, b: Row)
    requires ValidConfig(c) && ValidRow(normalize, a) && ValidRow(normalize, b) && a.category != b.category
    requires a.split == b.split == Train
    ensures OfSplit([a, b], Train) == [a, b] && TrainedOn(normalize, leq, c, [a, b]) == Ok(ModelOf(normalize, leq, c, [a, b]))
    ensures FirstSeen([a, b]) == [a.category, b.category]
  {
    TwoTrained(a, b);
    TwoCategories(a, b);
    assert Trainable(normalize, [a, b]);
  }

  lemma SmallRowIsValid(normalize: string -> string, pattern: string, category: string)
    requires normalize(pattern) != "" && |category| == 1 && !S.IsWhitespace(category[0])
    ensures ValidRow(normalize, SmallRow(pattern, category))
  {
    assert S.Trim(category) == category && S.Trim("s") == "s";
  }

  /** It happens: single characters in two categories, with n-grams of five characters, train a model that is not accepted. */
  lemma TrainedIsRefused(leq: Collation) returns (normalize: string -> string, c: Config, rows: seq<Row>, m: Model)
    ensures TrainedOn(normalize, leq, c, rows) == Ok(m) && !Accepted(m)
  {
    normalize, c := x => x, Config(5, 5, true);
    var a, b := SmallRow("a", "x"), SmallRow("b", "y");
    rows := [a, b];
    SmallRowIsValid(normalize, "a", "x");
    SmallRowIsValid(normalize, "b", "y");
    TwoRowsTrain(normalize, leq, c, a, b);
    m := ModelOf(normalize, leq, c, rows);
    TrainedIsAcceptedIff(normalize, leq, c, rows, m);
    TooShort(normalize, c, a, b);
  }

  lemma TooShort(normalize: string -> string, c: Config, a: Row, b: Row)
    requires a.category != b.category && |normalize(a.pattern)| + 2 < c.minimum
    ensures !AllLongEnough(normalize, c, [a, b])
  {
    assert a in [a, b];
    assert a.category in Categories([a, b]);
  }

  // ---- row order ----

  function NSum(rows: seq<Row>, w: Row -> nat): nat { if rows == [] then 0 else NSum(rows[..|rows| - 1], w) + w(rows[|rows| - 1]) }

  lemma {:induction false} NSumTakes(rows: seq<Row>, i: nat, w: Row -> nat)
    requires i < |rows|
    ensures NSum(rows, w) == NSum(rows[..i] + rows[i + 1..], w) + w(rows[i])
  {
    var rest, last := rows[..|rows| - 1], rows[|rows| - 1];
    if i == |rows| - 1 {
      assert rows[..i] + rows[i + 1..] == rest;
    } else {
      NSumTakes(rest, i, w);
      assert rows[..i] + rows[i + 1..] == rest[..i] + rest[i + 1..] + [last];
      assert (rest[..i] + rest[i + 1..] + [last])[..|rows| - 2] == rest[..i] + rest[i + 1..];
    }
  }

  lemma {:induction false} NSumPermutes(a: seq<Row>, b: seq<Row>, w: Row -> nat)
    requires multiset(a) == multiset(b)
    ensures NSum(a, w) == NSum(b, w)
  {
    if a == [] {
      assert |multiset(b)| == 0;
    } else {
      var n := |a| - 1;
      var rest, last := a[..n], a[n];
      assert last in multiset(a);
      var i :| 0 <= i < |b| && b[i] == last;
      RemovedMultiset(b, i);
      RemovedMultiset(a, n);
      assert a[..n] + a[n + 1..] == rest;
      NSumPermutes(rest, b[..i] + b[i + 1..], w);
      NSumTakes(b, i, w);
    }
  }

  function InCategory(category: string): Row -> nat { (row: Row) => if row.category == category then 1 else 0 }

  function OfToken(normalize: string -> string, c: Config, category: string, t: string): Row -> nat
    requires ValidConfig(c)
  {
    (row: Row) => if ValidConfig(c) && row.category == category then Tokens(normalize, c, row)[t] else 0
  }

  lemma {:induction false} CountsAreSums(normalize: string -> string, c: Config, rows: seq<Row>, category: string, t: string)
    requires ValidConfig(c)
    ensures Documents(rows, category) == NSum(rows, InCategory(category))
    ensures CategoryTokens(normalize, c, rows, category)[t] == NSum(rows, OfToken(normalize, c, category, t))
  {
    if rows != [] { CountsAreSums(normalize, c, rows[..|rows| - 1], category, t); }
  }

  lemma {:induction false} VocabularyIs(normalize: string -> string, c: Config, rows: seq<Row>, t: string)
    requires ValidConfig(c)
    ensures t in Vocabulary(normalize, c, rows) <==> exists row | row in rows :: t in Tokens(normalize, c, row)
  {
    if rows != [] {
      var rest, row := rows[..|rows| - 1], rows[|rows| - 1];
      VocabularyIs(normalize, c, rest, t);
      assert forall a :: a in rows <==> a in rest || a == row;
    }
  }

  lemma {:induction false} OfSplitPermutes(a: seq<Row>, split: Split, row: Row)
    ensures multiset(OfSplit(a, split))[row] == if row.split == split then multiset(a)[row] else 0
  {
    if a != [] {
      OfSplitPermutes(a[..|a| - 1], split, row);
      assert a == a[..|a| - 1] + [a[|a| - 1]];
    }
  }

  lemma SameLabels(normalize: string -> string, c: Config, a: seq<Row>, b: seq<Row>, k: string)
    requires ValidConfig(c) && multiset(a) == multiset(b) && Trainable(normalize, a) && Trainable(normalize, b)
    requires k in Categories(a) && k in Categories(b)
    ensures LabelOf(normalize, c, a, k) == LabelOf(normalize, c, b, k)
  {
    var m :| m in a && m.category == k;
    assert m in multiset(b);
    KnownSlug(normalize, a, k);
    KnownSlug(normalize, b, k);
    forall t ensures CategoryTokens(normalize, c, a, k)[t] == CategoryTokens(normalize, c, b, k)[t] {
      CountsAreSums(normalize, c, a, k, t);
      CountsAreSums(normalize, c, b, k, t);
      NSumPermutes(a, b, OfToken(normalize, c, k, t));
    }
    assert CategoryTokens(normalize, c, a, k) == CategoryTokens(normalize, c, b, k);
    CountsAreSums(normalize, c, a, k, "");
    CountsAreSums(normalize, c, b, k, "");
    NSumPermutes(a, b, InCategory(k));
  }

  lemma SameVocabulary(normalize: string -> string, c: Config, a: seq<Row>, b: seq<Row>)
    requires ValidConfig(c) && forall row :: row in a <==> row in b
    ensures Vocabulary(normalize, c, a) == Vocabulary(normalize, c, b)
  {
    forall t ensures t in Vocabulary(normalize, c, a) <==> t in Vocabulary(normalize, c, b) {
      VocabularyIs(normalize, c, a, t);
      VocabularyIs(normalize, c, b, t);
    }
  }

  lemma SameTraining(normalize: string -> string, c: Config, a: seq<Row>, b: seq<Row>)
    requires multiset(a) == multiset(b)
    ensures |a| == |b| && Categories(a) == Categories(b) && (Trainable(normalize, a) <==> Trainable(normalize, b))
    ensures ValidConfig(c) && Trainable(normalize, a) ==>
              Vocabulary(normalize, c, a) == Vocabulary(normalize, c, b) && LabelsOf(normalize, c, a) == LabelsOf(normalize, c, b)
  {
    assert |multiset(a)| == |a| && |multiset(b)| == |b|;
    forall row ensures row in a <==> row in b {
      assert row in a <==> row in multiset(a);
      assert row in b <==> row in multiset(b);
    }
    assert Categories(a) == Categories(b);
    if ValidConfig(c) && Trainable(normalize, a) {
      SameVocabulary(normalize, c, a, b);
      forall k | k in Categories(a) ensures LabelOf(normalize, c, a, k) == LabelOf(normalize, c, b, k) {
        SameLabels(normalize, c, a, b, k);
      }
    }
  }

  lemma SameTrainingRows(rows: seq<Row>, rows': seq<Row>)
    requires multiset(rows) == multiset(rows')
    ensures multiset(OfSplit(rows, Train)) == multiset(OfSplit(rows', Train))
  {
    var a, b := OfSplit(rows, Train), OfSplit(rows', Train);
    forall row ensures multiset(a)[row] == multiset(b)[row] {
      OfSplitPermutes(rows, Train, row);
      OfSplitPermutes(rows', Train, row);
    }
  }

  /** The same labels, in whatever order, and otherwise the same model; or both refused. */
  ghost predicate SameUpToLabelOrder(a: Result<Model>, b: Result<Model>) {
    && (a.Ok? <==> b.Ok?)
    && (a.Ok? ==> a.value == b.value.(labels := a.value.labels) && multiset(a.value.labels) == multiset(b.value.labels))
  }

  lemma SeenPermuted(a: seq<Row>, b: seq<Row>)
    requires Categories(a) == Categories(b)
    ensures multiset(FirstSeen(a)) == multiset(FirstSeen(b))
  {
    var x, y := FirstSeen(a), FirstSeen(b);
    forall k ensures k in x <==> k in y { assert k in S.Elems(x) <==> k in S.Elems(y); }
    SameMembers(x, y);
  }

  lemma LabelListDistinct(order: seq<string>, labels: map<string, Entry>)
    requires S.Distinct(order) && forall k | k in order :: k in labels
    ensures S.Distinct(LabelList(order, labels))
  {
    var l := LabelList(order, labels);
    forall i, j | 0 <= i < j < |l| ensures l[i] != l[j] { assert l[i].categoryId != l[j].categoryId; }
  }

  lemma LabelListMember(order: seq<string>, order': seq<string>, labels: map<string, Entry>, l: Label)
    requires (forall k | k in order :: k in labels) && (forall k | k in order' :: k in labels) && forall k | k in order :: k in order'
    ensures l in LabelList(order, labels) ==> l in LabelList(order', labels)
  {
    if l in LabelList(order, labels) {
      var i :| 0 <= i < |order| && LabelFor(order[i], labels[order[i]]) == l;
      assert order[i] in order';
      var j :| 0 <= j < |order'| && order'[j] == order[i];
      assert LabelList(order', labels)[j] == l;
    }
  }

  lemma LabelListPermuted(order: seq<string>, order': seq<string>, labels: map<string, Entry>)
    requires S.Distinct(order) && S.Distinct(order') && S.Elems(order) == S.Elems(order')
    requires (forall k | k in order :: k in labels) && forall k | k in order' :: k in labels
    ensures multiset(LabelList(order, labels)) == multiset(LabelList(order', labels))
  {
    forall k ensures k in order <==> k in order' { assert k in S.Elems(order) <==> k in S.Elems(order'); }
    LabelListDistinct(order, labels);
    LabelListDistinct(order', labels);
    forall l ensures l in LabelList(order, labels) <==> l in LabelList(order', labels) {
      LabelListMember(order, order', labels, l);
      LabelListMember(order', order, labels, l);
    }
    SameMembers(LabelList(order, labels), LabelList(order', labels));
  }

  /** In any order the same rows give the same labels, or the same refusal; only the order of the labels may differ. */
  lemma LabelsIgnoreOrder(normalize: string -> string, leq: Collation, c: Config, rows: seq<Row>, rows': seq<Row>)
    requires multiset(rows) == multiset(rows')
    ensures SameUpToLabelOrder(TrainedOn(normalize, leq, c, rows), TrainedOn(normalize, leq, c, rows'))
  {
    var a, b := OfSplit(rows, Train), OfSplit(rows', Train);
    SameTrainingRows(rows, rows');
    SameTraining(normalize, c, a, b);
    if TrainedOn(normalize, leq, c, rows).Ok? {
      TrainedIds(normalize, leq, c, a);
      TrainedIds(normalize, leq, c, b);
      LabelListPermuted(SortBy(FirstSeen(a), leq), SortBy(FirstSeen(b), leq), LabelsOf(normalize, c, a));
    }
  }

  /** Rows with the given one first. */
  function Fronted(rows: seq<Row>, i: nat): seq<Row>
    requires i < |rows|
  {
    [rows[i]] + (rows[..i] + rows[i + 1..])
  }

  lemma FrontedMultiset(rows: seq<Row>, i: nat)
    requires i < |rows|
    ensures multiset(Fronted(rows, i)) == multiset(rows)
  {
    RemovedMultiset(rows, i);
  }

  lemma {:induction false} FirstIsSeenFirst(first: Row, rest: seq<Row>)
    ensures FirstSeen([first] + rest) != [] && FirstSeen([first] + rest)[0] == first.category
  {
    if rest == [] {
      assert [first] + rest == [first] && [first][..0] == [];
    } else {
      var n := |rest| - 1;
      FirstIsSeenFirst(first, rest[..n]);
      assert ([first] + rest)[..n + 1] == [first] + rest[..n];
    }
  }

  lemma {:induction false} FrontedSplit(first: Row, rest: seq<Row>)
    requires first.split == Train
    ensures OfSplit([first] + rest, Train) == [first] + OfSplit(rest, Train)
  {
    if rest == [] {
      assert [first] + rest == [first] && [first][..0] == [];
    } else {
      var n := |rest| - 1;
      FrontedSplit(first, rest[..n]);
      assert ([first] + rest)[..n + 1] == [first] + rest[..n];
    }
  }

  lemma RowOfCategory(rows: seq<Row>, k: string) returns (i: nat)
    requires k in Categories(OfSplit(rows, Train))
    ensures i < |rows| && rows[i].category == k && rows[i].split == Train
  {
    var m :| m in OfSplit(rows, Train) && m.category == k;
    OfSplitPermutes(rows, Train, m);
    assert m in multiset(OfSplit(rows, Train));
    assert m in multiset(rows);
    i :| 0 <= i < |rows| && rows[i] == m;
  }

  lemma LabelOrderShows(normalize: string -> string, leq: Collation, c: Config, a: seq<Row>, b: seq<Row>, x: string, y: string)
    requires ValidConfig(c) && Before(SortBy(FirstSeen(a), leq), x, y) && Before(SortBy(FirstSeen(b), leq), y, x)
    ensures ModelOf(normalize, leq, c, a) != ModelOf(normalize, leq, c, b)
  {
    TrainedIds(normalize, leq, c, a);
    TrainedIds(normalize, leq, c, b);
    BeforeOneWay(SortBy(FirstSeen(a), leq), x, y);
  }

  ghost predicate SameModel(normalize: string -> string, leq: Collation, c: Config, rows: seq<Row>, rows': seq<Row>) {
    TrainedOn(normalize, leq, c, rows') == TrainedOn(normalize, leq, c, rows)
  }

  lemma NoTiesSameModel(normalize: string -> string, leq: Collation, c: Config, rows: seq<Row>, rows': seq<Row>)
    requires IsPreorder(leq) && multiset(rows) == multiset(rows') && NoTies(FirstSeen(OfSplit(rows, Train)), leq)
    ensures SameModel(normalize, leq, c, rows, rows')
  {
    var a, b := OfSplit(rows, Train), OfSplit(rows', Train);
    SameTrainingRows(rows, rows');
    SameTraining(normalize, c, a, b);
    SeenPermuted(a, b);
    SortForgetsOrder(FirstSeen(a), FirstSeen(b), leq);
    if TrainedOn(normalize, leq, c, rows).Ok? { assert ModelOf(normalize, leq, c, a) == ModelOf(normalize, leq, c, b); }
  }

  /** With ties, bringing a row of the later category to the front turns two labels around. */
  lemma TiesShowInModel(normalize: string -> string, leq: Collation, c: Config, rows: seq<Row>) returns (moved: seq<Row>)
    requires IsPreorder(leq) && TrainedOn(normalize, leq, c, rows).Ok? && !NoTies(FirstSeen(OfSplit(rows, Train)), leq)
    ensures multiset(moved) == multiset(rows) && !SameModel(normalize, leq, c, rows, moved)
  {
    var a := OfSplit(rows, Train);
    var seen := FirstSeen(a);
    var i: nat, j: nat :| i < j < |seen| && Tied(seen[i], seen[j], leq);
    SortIsStable(seen, leq, i, j);
    assert seen[j] in S.Elems(seen) && seen[i] in S.Elems(seen);
    var k := RowOfCategory(rows, seen[j]);
    moved := Fronted(rows, k);
    FrontedMultiset(rows, k);
    var b := OfSplit(moved, Train);
    FrontedSplit(rows[k], rows[..k] + rows[k + 1..]);
    FirstIsSeenFirst(rows[k], OfSplit(rows[..k] + rows[k + 1..], Train));
    SameTrainingRows(rows, moved);
    SameTraining(normalize, c, a, b);
    var seen' := FirstSeen(b);
    assert seen'[0] == seen[j];
    assert seen[i] in S.Elems(seen');
    var n: nat :| n < |seen'| && seen'[n] == seen[i];
    assert n != 0 by { assert seen[i] != seen[j]; }
    SortIsStable(seen', leq, 0, n);
    LabelOrderShows(normalize, leq, c, a, b, seen[i], seen[j]);
  }

  /** Every order of the rows gives the same model exactly when the collation tells all training categories apart. */
  lemma TrainingIgnoresOrderIff(normalize: string -> string, leq: Collation, c: Config, rows: seq<Row>)
    requires IsPreorder(leq) && TrainedOn(normalize, leq, c, rows).Ok?
    ensures (forall rows' | multiset(rows') == multiset(rows) :: SameModel(normalize, leq, c, rows, rows'))
       <==> NoTies(FirstSeen(OfSplit(rows, Train)), leq)
  {
    if NoTies(FirstSeen(OfSplit(rows, Train)), leq) {
      forall rows' | multiset(rows') == multiset(rows) ensures SameModel(normalize, leq, c, rows, rows') {
        NoTiesSameModel(normalize, leq, c, rows, rows');
      }
    } else {
      var moved := TiesShowInModel(normalize, leq, c, rows);
    }
  }

  lemma TiedRowIsValid(normalize: string -> string, pattern: string, category: string)
    requires normalize(pattern) != "" && S.Trim(category) != ""
    ensures ValidRow(normalize, SmallRow(pattern, category))
  {
    assert S.Trim("s") == "s";
  }

  /** It happens in every locale that takes two category ids for equal: the labels follow the order of the rows. */
  lemma TiedCategoriesShow(leq: Collation, x: string, y: string)
    returns (normalize: string -> string, c: Config, rows: seq<Row>, moved: seq<Row>)
    requires IsPreorder(leq) && x != y && S.Trim(x) != "" && S.Trim(y) != "" && leq(x, y) && leq(y, x)
    ensures multiset(moved) == multiset(rows) && FirstSeen(OfSplit(rows, Train)) == [x, y]
    ensures TrainedOn(normalize, leq, c, rows).Ok? && TrainedOn(normalize, leq, c, moved).Ok?
    ensures TrainedOn(normalize, leq, c, rows) != TrainedOn(normalize, leq, c, moved)
  {
    normalize, c := p => p, Config(2, 4, true);
    var a, b := SmallRow("a", x), SmallRow("b", y);
    rows := [a, b];
    TiedRowIsValid(normalize, "a", x);
    TiedRowIsValid(normalize, "b", y);
    TwoRowsTrain(normalize, leq, c, a, b);
    assert Tied(FirstSeen(rows)[0], FirstSeen(rows)[1], leq);
    moved := TiesShowInModel(normalize, leq, c, rows);
    LabelsIgnoreOrder(normalize, leq, c, rows, moved);
  }

  // ---- evaluation ----

  function Hits(predict: string -> string, l: string): Row -> nat {
    (row: Row) => if predict(row.pattern) == row.category && row.category == l then 1 else 0
  }

  function WronglyTold(predict: string -> string, l: string): Row -> nat {
    (row: Row) => if predict(row.pattern) != row.category && predict(row.pattern) == l then 1 else 0
  }

  function Missed(predict: string -> string, l: string): Row -> nat {
    (row: Row) => if predict(row.pattern) != row.category && row.category == l then 1 else 0
  }

  ghost predicate Tallied(predict: string -> string, rows: seq<Row>, tp: map<string, nat>, fp: map<string, nat>, fn: map<string, nat>) {
    && (forall l {:trigger Count(tp, l)} :: Count(tp, l) == NSum(rows, Hits(predict, l)))
    && (forall l {:trigger Count(fp, l)} :: Count(fp, l) == NSum(rows, WronglyTold(predict, l)))
    && (forall l {:trigger Count(fn, l)} :: Count(fn, l) == NSum(rows, Missed(predict, l)))
  }

  /** The scores choose a label of the model. A model without labels passes no check and is never asked. */
  ghost predicate ChoosesLabel(m: Model, winner: string -> string) { forall p :: winner(p) in S.Elems(CategoryIds(m.labels)) }

  ghost function Predicted(m: Model, normalize: string -> string, winner: string -> string, pattern: string): Result<string> {
    if Accepted(m) && normalize(pattern) != "" then Ok(winner(pattern)) else Error
  }

  method PredictMerchantCategory(m: Model, normalize: string -> string, winner: string -> string, pattern: string) returns (r: Result<string>)
    ensures r == Predicted(m, normalize, winner, pattern)
  {
    var ok := AssertMerchantClassifierModel(m);
    if !ok { return Error; }
    var tokens := ExtractCharacterNgrams(normalize(pattern), m.config);
    if tokens.Error? { return Error; }
    r := Ok(winner(pattern));
  }

  ghost predicate Predictable(m: Model, normalize: string -> string, rows: seq<Row>) {
    rows != [] ==> Accepted(m) && forall row | row in rows :: normalize(row.pattern) != ""
  }

  datatype Tally = Tally(correct: nat, tp: map<string, nat>, fp: map<string, nat>, fn: map<string, nat>)

  /** Per label the hits, wrong answers and misses; over all labels the hits are the correct rows, and each of the others the rest. */
  ghost predicate Counted(predict: string -> string, rows: seq<Row>, labels: set<string>, t: Tally) {
    && Tallied(predict, rows, t.tp, t.fp, t.fn) && t.correct <= |rows|
    && Total(labels, t.tp) == t.correct && Total(labels, t.fp) == Total(labels, t.fn) == |rows| - t.correct
  }

  method CountRow(predict: string -> string, ghost rows: seq<Row>, ghost n: nat, ghost labels: set<string>, row: Row, told: string, t: Tally)
    returns (t': Tally)
    requires n < |rows| && rows[n] == row && told == predict(row.pattern) && told in labels && row.category in labels
    requires Counted(predict, rows[..n], labels, t)
    ensures Counted(predict, rows[..n + 1], labels, t')
  {
    TallyNext(predict, rows, n, t.tp, t.fp, t.fn);
    if told == row.category {
      TotalBumps(labels, t.tp, row.category);
      t' := t.(correct := t.correct + 1, tp := Bump(t.tp, row.category));
    } else {
      TotalBumps(labels, t.fp, told);
      TotalBumps(labels, t.fn, row.category);
      t' := t.(fp := Bump(t.fp, told), fn := Bump(t.fn, row.category));
    }
  }

  lemma PredictableNext(m: Model, normalize: string -> string, rows: seq<Row>, n: nat)
    requires n < |rows|
    ensures Predictable(m, normalize, rows[..n + 1]) <==>
              Predictable(m, normalize, rows[..n]) && Accepted(m) && normalize(rows[n].pattern) != ""
    ensures Predictable(m, normalize, rows) ==> Predictable(m, normalize, rows[..n + 1])
  {
    assert forall row :: row in rows[..n + 1] <==> row in rows[..n] || row == rows[n];
    assert forall row | row in rows[..n + 1] :: row in rows;
    assert rows[n] in rows[..n + 1];
  }

  /** The tally of an evaluation. It fails exactly if a row cannot be predicted: its pattern is empty, or the model does not pass. */
  method Evaluate(m: Model, normalize: string -> string, winner: string -> string, rows: seq<Row>, split: Split)
    returns (ok: bool, labels: set<string>, t: Tally)
    requires Accepted(m) ==> ChoosesLabel(m, winner)
    ensures ok <==> Predictable(m, normalize, OfSplit(rows, split))
    ensures labels == S.Elems(CategoryIds(m.labels)) + Categories(OfSplit(rows, split))
    ensures ok ==> Counted(winner, OfSplit(rows, split), labels, t)
  {
    var evaluated, ids := OfSplit(rows, split), CategoryIds(m.labels);
    labels, t := (set k | k in ids) + Categories(evaluated), Tally(0, map[], map[], map[]);
    NoDocuments(labels, map[]);
    for n := 0 to |evaluated|
      invariant Predictable(m, normalize, evaluated[..n]) && Counted(winner, evaluated[..n], labels, t)
    {
      PredictableNext(m, normalize, evaluated, n);
      var told := PredictMerchantCategory(m, normalize, winner, evaluated[n].pattern);
      if told.Error? { return false, labels, t; }
      assert evaluated[n] in evaluated;
      t := CountRow(winner, evaluated, n, labels, evaluated[n], told.value, t);
    }
    assert evaluated[..|evaluated|] == evaluated;
    ok := true;
  }

  lemma TallyNext(predict: string -> string, rows: seq<Row>, n: nat, tp: map<string, nat>, fp: map<string, nat>, fn: map<string, nat>)
    requires n < |rows| && Tallied(predict, rows[..n], tp, fp, fn)
    ensures var row := rows[n];
            var right := predict(row.pattern) == row.category;
            Tallied(predict, rows[..n + 1], if right then Bump(tp, row.category) else tp,
                    if right then fp else Bump(fp, predict(row.pattern)), if right then fn else Bump(fn, row.category))
  {
    var row := rows[n];
    var right := predict(row.pattern) == row.category;
    var tp' := if right then Bump(tp, row.category) else tp;
    var fp' := if right then fp else Bump(fp, predict(row.pattern));
    var fn' := if right then fn else Bump(fn, row.category);
    assert rows[..n + 1][..n] == rows[..n];
    forall l
      ensures Count(tp', l) == NSum(rows[..n + 1], Hits(predict, l)) && Count(fp', l) == NSum(rows[..n + 1], WronglyTold(predict, l))
           && Count(fn', l) == NSum(rows[..n + 1], Missed(predict, l))
    {
      assert Count(tp, l) == NSum(rows[..n], Hits(predict, l));
      assert Count(fp, l) == NSum(rows[..n], WronglyTold(predict, l));
      assert Count(fn, l) == NSum(rows[..n], Missed(predict, l));
    }
  }
}
