/**
 * Training a merchant classifier on character n-grams, and the check its own models must pass.
 *
 * Text normalisation, the collation of category ids and the prediction by scores are parameters. The token counts of a
 * label are an object, whose keys have no order that canonical JSON would keep.
 */
module Classifier {
  import opened StableSort
  import Strings

  datatype Result<+T> = Ok(value: T) | Error

  datatype Split = Train | Validation | Test
  datatype Row = Row(pattern: string, category: string, slug: string, split: Split)
  datatype Config = Config(minimum: int, maximum: int, alphaPositive: bool)

  /** What the training loop holds for a category. */
  datatype Entry = Entry(slug: string, documents: nat, total: nat, counts: map<string, nat>)

  datatype Label = Label(categoryId: string, slug: string, documents: int, total: int, counts: map<string, int>)
  datatype Model = Model(config: Config, documents: int, vocabulary: seq<string>, labels: seq<Label>)

  predicate ValidConfig(c: Config) { 1 <= c.minimum <= c.maximum <= 8 && c.alphaPositive }

  // ---- n-grams ----

  function GramsOf(text: string, size: nat, n: nat): seq<string>
    requires n + size <= |text| + 1
  {
    if n == 0 then [] else GramsOf(text, size, n - 1) + [text[n - 1..n - 1 + size]]
  }

  function SizeGrams(text: string, size: nat): seq<string> { if size > |text| then [] else GramsOf(text, size, |text| - size + 1) }

  function Grams(text: string, minimum: nat, upto: nat): seq<string>
    decreases upto
  {
    if upto < minimum || upto == 0 then [] else Grams(text, minimum, upto - 1) + SizeGrams(text, upto)
  }

  function Bounded(normalized: string): string { "^" + normalized + "$" }

  method NgramsOfSize(text: string, size: nat) returns (tokens: seq<string>)
    ensures tokens == SizeGrams(text, size)
  {
    tokens := [];
    var index := 0;
    while index + size <= |text|
      invariant index == 0 ==> tokens == []
      invariant index > 0 ==> index + size <= |text| + 1 && tokens == GramsOf(text, size, index)
    {
      tokens, index := tokens + [text[index..index + size]], index + 1;
    }
  }

  method ExtractCharacterNgrams(normalized: string, config: Config) returns (r: Result<seq<string>>)
    requires ValidConfig(config)
    ensures r == if normalized == "" then Error else Ok(Grams(Bounded(normalized), config.minimum, config.maximum))
  {
    if normalized == "" { return Error; }
    var text := Bounded(normalized);
    var tokens := [];
    var size := config.minimum;
    assert Grams(text, config.minimum, size - 1) == [];
    while size <= config.maximum
      invariant config.minimum <= size <= config.maximum + 1 && tokens == Grams(text, config.minimum, size - 1)
    {
      var more := NgramsOfSize(text, size);
      tokens, size := tokens + more, size + 1;
    }
    r := Ok(tokens);
  }

  lemma {:induction false} GramsAppear(text: string, minimum: nat, upto: nat)
    requires 1 <= minimum <= upto
    ensures Grams(text, minimum, upto) != [] <==> minimum <= |text|
    decreases upto
  {
    if minimum < upto { GramsAppear(text, minimum, upto - 1); } else { assert Grams(text, minimum, upto - 1) == []; }
    if upto <= |text| { assert |SizeGrams(text, upto)| > 0; }
  }

  // ---- the simple form: counts over the multiset of rows ----

  function Tokens(normalize: string -> string, c: Config, row: Row): multiset<string>
    requires ValidConfig(c)
  {
    multiset(Grams(Bounded(normalize(row.pattern)), c.minimum, c.maximum))
  }

  function CategoryTokens(normalize: string -> string, c: Config, rows: seq<Row>, category: string): multiset<string>
    requires ValidConfig(c)
  {
    if rows == [] then multiset{}
    else
      CategoryTokens(normalize, c, rows[..|rows| - 1], category)
      + (if rows[|rows| - 1].category == category then Tokens(normalize, c, rows[|rows| - 1]) else multiset{})
  }

  function Documents(rows: seq<Row>, category: string): nat {
    if rows == [] then 0 else Documents(rows[..|rows| - 1], category) + (if rows[|rows| - 1].category == category then 1 else 0)
  }

  function Categories(rows: seq<Row>): set<string> { set r | r in rows :: r.category }

  function Counts(tokens: multiset<string>): map<string, nat> { map t | t in tokens :: tokens[t] }

  function SlugOf(rows: seq<Row>, category: string): string {
    if rows == [] then "" else if rows[0].category == category then rows[0].slug else SlugOf(rows[1..], category)
  }

  function LabelOf(normalize: string -> string, c: Config, rows: seq<Row>, category: string): Entry
    requires ValidConfig(c)
  {
    var tokens := CategoryTokens(normalize, c, rows, category);
    Entry(SlugOf(rows, category), Documents(rows, category), |tokens|, Counts(tokens))
  }

  function LabelsOf(normalize: string -> string, c: Config, rows: seq<Row>): map<string, Entry>
    requires ValidConfig(c)
  {
    map k | k in Categories(rows) :: LabelOf(normalize, c, rows, k)
  }

  function Vocabulary(normalize: string -> string, c: Config, rows: seq<Row>): set<string>
    requires ValidConfig(c)
  {
    if rows == [] then {} else Vocabulary(normalize, c, rows[..|rows| - 1]) + Counts(Tokens(normalize, c, rows[|rows| - 1])).Keys
  }

  predicate ValidRow(normalize: string -> string, row: Row) {
    Strings.Trim(row.category) != "" && Strings.Trim(row.slug) != "" && normalize(row.pattern) != ""
  }

  ghost predicate Trainable(normalize: string -> string, rows: seq<Row>) {
    (forall a | a in rows :: ValidRow(normalize, a)) && forall a, b | a in rows && b in rows && a.category == b.category :: a.slug == b.slug
  }

  function OfSplit(rows: seq<Row>, split: Split): seq<Row> {
    if rows == [] then [] else OfSplit(rows[..|rows| - 1], split) + (if rows[|rows| - 1].split == split then [rows[|rows| - 1]] else [])
  }

  /** The categories of some rows in the order of their first row, as a map keeps its keys. */
  function FirstSeen(rows: seq<Row>): (r: seq<string>)
    ensures Strings.Elems(r) == Categories(rows) && Strings.Distinct(r)
  {
    if rows == [] then []
    else
      var rest, last := rows[..|rows| - 1], rows[|rows| - 1];
      var r := FirstSeen(rest);
      assert rows == rest + [last];
      assert Categories(rows) == Categories(rest) + {last.category} by { assert forall a :: a in rows <==> a in rest || a == last; }
      assert last.category in r <==> last.category in Strings.Elems(r);
      if last.category in Categories(rest) then r else r + [last.category]
  }

  function LabelFor(category: string, e: Entry): Label { Label(category, e.slug, e.documents, e.total, e.counts) }

  function LabelList(order: seq<string>, labels: map<string, Entry>): (r: seq<Label>)
    requires forall k | k in order :: k in labels
    ensures |r| == |order| && forall i | 0 <= i < |order| :: r[i] == LabelFor(order[i], labels[order[i]])
  {
    seq(|order|, i requires 0 <= i < |order| => LabelFor(order[i], labels[order[i]]))
  }

  /** localeCompare(a, b) <= 0 in some locale. */
  type Collation = (string, string) -> bool

  ghost function ModelOf(normalize: string -> string, leq: Collation, c: Config, training: seq<Row>): Model
    requires ValidConfig(c)
  {
    var order := SortBy(FirstSeen(training), leq);
    SortMultiset(FirstSeen(training), leq);
    assert forall k | k in order :: k in Categories(training) by {
      forall k | k in order ensures k in Categories(training) { assert k in multiset(order); assert k in Strings.Elems(FirstSeen(training)); }
    }
    Model(c, |training|, Strings.Listing(Vocabulary(normalize, c, training)), LabelList(order, LabelsOf(normalize, c, training)))
  }

  ghost function TrainedOn(normalize: string -> string, leq: Collation, c: Config, rows: seq<Row>): Result<Model> {
    var training := OfSplit(rows, Train);
    if ValidConfig(c) && training != [] && Trainable(normalize, training) && |Categories(training)| >= 2
    then Ok(ModelOf(normalize, leq, c, training))
    else Error
  }

  // ---- training ----

  function Count(counts: map<string, nat>, k: string): nat { if k in counts then counts[k] else 0 }

  function Bump(counts: map<string, nat>, k: string): map<string, nat> { counts[k := Count(counts, k) + 1] }

  lemma BumpCounts(tokens: multiset<string>, t: string)
    ensures Bump(Counts(tokens), t) == Counts(tokens + multiset{t})
  {
  }

  /** Adds the tokens of one row to a label and to the vocabulary. */
  method AddTokens(tokens: seq<string>, counts: map<string, nat>, vocabulary: set<string>, ghost had: multiset<string>)
    returns (counts': map<string, nat>, vocabulary': set<string>)
    requires counts == Counts(had)
    ensures counts' == Counts(had + multiset(tokens)) && vocabulary' == vocabulary + Counts(multiset(tokens)).Keys
  {
    counts', vocabulary' := counts, vocabulary;
    for i := 0 to |tokens|
      invariant counts' == Counts(had + multiset(tokens[..i])) && vocabulary' == vocabulary + Counts(multiset(tokens[..i])).Keys
    {
      assert tokens[..i + 1] == tokens[..i] + [tokens[i]];
      BumpCounts(had + multiset(tokens[..i]), tokens[i]);
      assert had + multiset(tokens[..i]) + multiset{tokens[i]} == had + multiset(tokens[..i + 1]);
      BumpCounts(multiset(tokens[..i]), tokens[i]);
      vocabulary', counts' := vocabulary' + {tokens[i]}, Bump(counts', tokens[i]);
    }
    assert tokens[..|tokens|] == tokens;
  }

  lemma {:induction false} SlugIsAny(rows: seq<Row>, row: Row)
    requires row in rows && forall a | a in rows && a.category == row.category :: a.slug == row.slug
    ensures SlugOf(rows, row.category) == row.slug
  {
    if rows[0].category != row.category {
      assert row in rows[1..];
      SlugIsAny(rows[1..], row);
    }
  }

  lemma {:induction false} NoTokens(normalize: string -> string, c: Config, rows: seq<Row>, category: string)
    requires ValidConfig(c) && category !in Categories(rows)
    ensures CategoryTokens(normalize, c, rows, category) == multiset{} && Documents(rows, category) == 0
  {
    if rows != [] {
      assert rows[|rows| - 1] in rows;
      assert Categories(rows[..|rows| - 1]) <= Categories(rows);
      NoTokens(normalize, c, rows[..|rows| - 1], category);
    }
  }

  lemma KnownSlug(normalize: string -> string, rows: seq<Row>, category: string)
    requires Trainable(normalize, rows) && category in Categories(rows)
    ensures forall a | a in rows && a.category == category :: a.slug == SlugOf(rows, category)
  {
    var m :| m in rows && m.category == category;
    SlugIsAny(rows, m);
  }

  lemma SameLabel(normalize: string -> string, c: Config, before: seq<Row>, row: Row, k: string)
    requires ValidConfig(c) && k in Categories(before) && k != row.category
    ensures LabelOf(normalize, c, before + [row], k) == LabelOf(normalize, c, before, k)
  {
    SlugKeeps(before, row, k);
    assert (before + [row])[..|before|] == before;
  }

  lemma TokensNext(normalize: string -> string, c: Config, before: seq<Row>, row: Row)
    requires ValidConfig(c)
    ensures CategoryTokens(normalize, c, before + [row], row.category)
         == CategoryTokens(normalize, c, before, row.category) + Tokens(normalize, c, row)
    ensures Documents(before + [row], row.category) == Documents(before, row.category) + 1
  {
    assert (before + [row])[..|before|] == before;
  }

  lemma NewLabel(normalize: string -> string, c: Config, before: seq<Row>, row: Row)
    requires ValidConfig(c) && Trainable(normalize, before + [row])
    ensures LabelOf(normalize, c, before + [row], row.category) == LabelAfter(normalize, c, before, row)
  {
    assert row in before + [row];
    SlugIsAny(before + [row], row);
    TokensNext(normalize, c, before, row);
  }

  lemma CategoriesGrow(before: seq<Row>, row: Row)
    ensures Categories(before + [row]) == Categories(before) + {row.category}
  {
    assert forall a :: a in before + [row] <==> a in before || a == row;
  }

  lemma VocabularyGrows(normalize: string -> string, c: Config, before: seq<Row>, row: Row)
    requires ValidConfig(c)
    ensures Vocabulary(normalize, c, before + [row]) == Vocabulary(normalize, c, before) + Counts(Tokens(normalize, c, row)).Keys
  {
    assert (before + [row])[..|before|] == before;
  }

  lemma LabelsAt(normalize: string -> string, c: Config, rows: seq<Row>)
    requires ValidConfig(c)
    ensures LabelsOf(normalize, c, rows).Keys == Categories(rows)
    ensures forall k | k in Categories(rows) :: LabelsOf(normalize, c, rows)[k] == LabelOf(normalize, c, rows, k)
  {
  }

  lemma MapGrows(m: map<string, Entry>, n: map<string, Entry>, k: string, one: Entry)
    requires n.Keys == m.Keys + {k} && n[k] == one && forall j | j in m.Keys && j != k :: n[j] == m[j]
    ensures n == m[k := one]
  {
  }

  /** What the map of labels and the vocabulary are after one more row. */
  lemma OneMoreRow(normalize: string -> string, c: Config, before: seq<Row>, row: Row)
    requires ValidConfig(c) && Trainable(normalize, before + [row])
    ensures LabelsOf(normalize, c, before + [row])
         == LabelsOf(normalize, c, before)[row.category := LabelAfter(normalize, c, before, row)]
    ensures Vocabulary(normalize, c, before + [row]) == Vocabulary(normalize, c, before) + Counts(Tokens(normalize, c, row)).Keys
  {
    CategoriesGrow(before, row);
    VocabularyGrows(normalize, c, before, row);
    NewLabel(normalize, c, before, row);
    LabelsAt(normalize, c, before);
    LabelsAt(normalize, c, before + [row]);
    var m, n := LabelsOf(normalize, c, before), LabelsOf(normalize, c, before + [row]);
    forall k | k in m.Keys && k != row.category ensures n[k] == m[k] { SameLabel(normalize, c, before, row, k); }
    MapGrows(m, n, row.category, LabelAfter(normalize, c, before, row));
  }

  lemma {:induction false} SlugKeeps(rows: seq<Row>, row: Row, category: string)
    requires category in Categories(rows)
    ensures SlugOf(rows + [row], category) == SlugOf(rows, category)
  {
    assert (rows + [row])[0] == rows[0];
    if rows[0].category != category {
      var m :| m in rows && m.category == category;
      assert m in rows[1..];
      SlugKeeps(rows[1..], row, category);
      assert (rows + [row])[1..] == rows[1..] + [row];
    }
  }

  function LabelAfter(normalize: string -> string, c: Config, before: seq<Row>, row: Row): Entry
    requires ValidConfig(c)
  {
    var tokens := CategoryTokens(normalize, c, before, row.category) + Tokens(normalize, c, row);
    Entry(row.slug, Documents(before, row.category) + 1, |tokens|, Counts(tokens))
  }

  /** A row that cannot follow its predecessors spoils the whole training. */
  lemma Follows(normalize: string -> string, before: seq<Row>, row: Row)
    requires Trainable(normalize, before)
    ensures Trainable(normalize, before + [row]) <==>
              ValidRow(normalize, row) && (row.category in Categories(before) ==> SlugOf(before, row.category) == row.slug)
  {
    var after := before + [row];
    assert forall a :: a in after <==> a in before || a == row;
    if row.category in Categories(before) {
      KnownSlug(normalize, before, row.category);
      var m :| m in before && m.category == row.category;
      assert m in after && row in after;
    }
  }

  lemma EntryBefore(normalize: string -> string, c: Config, before: seq<Row>, category: string)
    requires ValidConfig(c)
    ensures var had, labels := CategoryTokens(normalize, c, before, category), LabelsOf(normalize, c, before);
            && (category in labels <==> category in Categories(before))
            && (category in labels ==> labels[category] == Entry(SlugOf(before, category), Documents(before, category), |had|, Counts(had)))
            && (category !in labels ==> had == multiset{} && Documents(before, category) == 0)
  {
    if category !in Categories(before) { NoTokens(normalize, c, before, category); }
  }

  /** The entry of a label after one more row of it. */
  method Extend(entry: Entry, slug: string, tokens: seq<string>, vocabulary: set<string>, ghost had: multiset<string>)
    returns (entry': Entry, vocabulary': set<string>)
    requires entry.total == |had| && entry.counts == Counts(had)
    ensures entry' == Entry(slug, entry.documents + 1, |had + multiset(tokens)|, Counts(had + multiset(tokens)))
    ensures vocabulary' == vocabulary + Counts(multiset(tokens)).Keys
  {
    var counts;
    counts, vocabulary' := AddTokens(tokens, entry.counts, vocabulary, had);
    entry' := Entry(slug, entry.documents + 1, entry.total + |tokens|, counts);
  }

  /** The state of the training loop after some rows: the map with the order of its keys, and the vocabulary. */
  ghost predicate Learnt(normalize: string -> string, c: Config, rows: seq<Row>, order: seq<string>, labels: map<string, Entry>,
                         vocabulary: set<string>)
    requires ValidConfig(c)
  {
    && Trainable(normalize, rows) && order == FirstSeen(rows) && labels == LabelsOf(normalize, c, rows)
    && vocabulary == Vocabulary(normalize, c, rows)
  }

  /** The row can follow those before it, by what the map of labels shows. */
  predicate Fits(row: Row, labels: map<string, Entry>) {
    && Strings.Trim(row.category) != "" && Strings.Trim(row.slug) != ""
    && (row.category in labels ==> labels[row.category].slug == row.slug)
  }

  lemma FitsMeaning(normalize: string -> string, c: Config, before: seq<Row>, row: Row)
    requires ValidConfig(c) && Trainable(normalize, before)
    ensures Trainable(normalize, before + [row]) ==> Fits(row, LabelsOf(normalize, c, before))
    ensures Fits(row, LabelsOf(normalize, c, before)) ==> (Trainable(normalize, before + [row]) <==> ValidRow(normalize, row))
  {
    Follows(normalize, before, row);
    EntryBefore(normalize, c, before, row.category);
  }

  /** One turn of the training loop. */
  method TrainRow(normalize: string -> string, c: Config, ghost before: seq<Row>, row: Row, order: seq<string>, labels: map<string, Entry>,
                  vocabulary: set<string>)
    returns (ok: bool, order': seq<string>, labels': map<string, Entry>, vocabulary': set<string>)
    requires ValidConfig(c) && Learnt(normalize, c, before, order, labels, vocabulary)
    ensures if ok then Learnt(normalize, c, before + [row], order', labels', vocabulary') else !Trainable(normalize, before + [row])
  {
    FitsMeaning(normalize, c, before, row);
    order', labels', vocabulary', ok := order, labels, vocabulary, false;
    if !Fits(row, labels) { return; }
    EntryBefore(normalize, c, before, row.category);
    var entry := if row.category in labels then labels[row.category] else Entry(row.slug, 0, 0, map[]);
    var tokens := ExtractCharacterNgrams(normalize(row.pattern), c);
    if tokens.Error? { return; }
    entry, vocabulary' := Extend(entry, row.slug, tokens.value, vocabulary, CategoryTokens(normalize, c, before, row.category));
    assert entry == LabelAfter(normalize, c, before, row);
    OneMoreRow(normalize, c, before, row);
    SeenNext(before, row);
    if row.category !in labels { order' := order + [row.category]; }
    labels', ok := labels[row.category := entry], true;
  }

  lemma SeenNext(before: seq<Row>, row: Row)
    ensures FirstSeen(before + [row]) == FirstSeen(before) + if row.category in Categories(before) then [] else [row.category]
  {
    assert (before + [row])[..|before|] == before;
  }

  lemma TrainablePrefix(normalize: string -> string, rows: seq<Row>, n: nat)
    requires n <= |rows| && Trainable(normalize, rows)
    ensures Trainable(normalize, rows[..n])
  {
    assert forall a | a in rows[..n] :: a in rows;
  }

  method TrainRows(normalize: string -> string, c: Config, rows: seq<Row>)
    returns (ok: bool, order: seq<string>, labels: map<string, Entry>, vocabulary: set<string>)
    requires ValidConfig(c)
    ensures if ok then Learnt(normalize, c, rows, order, labels, vocabulary) else !Trainable(normalize, rows)
  {
    ok, order, labels, vocabulary := true, [], map[], {};
    LearntNothing(normalize, c);
    for n := 0 to |rows|
      invariant ok && Learnt(normalize, c, rows[..n], order, labels, vocabulary)
    {
      assert rows[..n + 1] == rows[..n] + [rows[n]];
      ok, order, labels, vocabulary := TrainRow(normalize, c, rows[..n], rows[n], order, labels, vocabulary);
      if !ok {
        if Trainable(normalize, rows) { TrainablePrefix(normalize, rows, n + 1); }
        return;
      }
    }
    assert rows[..|rows|] == rows;
  }

  lemma LearntNothing(normalize: string -> string, c: Config)
    requires ValidConfig(c)
    ensures Learnt(normalize, c, [], [], map[], {})
  {
    assert Categories([]) == {};
  }

  method TrainMerchantClassifier(normalize: string -> string, leq: Collation, rows: seq<Row>, c: Config) returns (r: Result<Model>)
    ensures r == TrainedOn(normalize, leq, c, rows)
  {
    if !ValidConfig(c) { return Error; }
    var training := OfSplit(rows, Train);
    if training == [] { return Error; }
    var ok, order, labels, vocabulary := TrainRows(normalize, c, training);
    if !ok { return Error; }
    assert labels.Keys == Categories(training);
    if |labels| < 2 { return Error; }
    var sorted := SortBy(order, leq);
    forall k | k in sorted ensures k in labels {
      SortMultiset(order, leq);
      assert k in multiset(sorted);
      assert k in Strings.Elems(order);
    }
    var words := Strings.SortedListing(vocabulary);
    r := Ok(Model(c, |training|, words, LabelList(sorted, labels)));
  }
}
