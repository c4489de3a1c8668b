/** An artifact in terms of the examples put in: which are refused, what each line says, how many rows each split has. */
module DatasetArtifactMeaning {
  import opened Wrappers
  import opened JsonText
  import opened DatasetArtifact
  import opened DatasetArtifactTheorems
  import opened StableSort
  import C = CanonicalJson
  import D = DatasetSplit
  import DT = DatasetSplitTheorems
  import Strings
  import T = CanonicalJsonTheorems

  // ---- which examples are refused ----

  /** Every identifier and value is there; a query is not blank and has the hash that comes with it. */
  ghost predicate GoodExample(e: Example, sha: string -> string) {
    && e.feedbackEventId != "" && e.targetId != "" && e.labelSchemaVersion != ""
    && (e.Memory? ==> e.chunkRevisionId != "")
    && (e.Merchant? ==> e.merchantCategoryRuleId != "" && !Strings.Blank(e.merchantPattern) && e.categoryId != "" && !Strings.Blank(e.categorySlug))
    && (e.Retrieval? ==> !Strings.Blank(e.query) && e.chunkRevisionId != "" && sha(Strings.Trim(e.query)) == e.queryHash)
  }

  /** Two examples that cannot stand in one dataset: one id, one merchant target, or one query with one chunk. */
  ghost predicate Clash(a: Example, b: Example) {
    || a.feedbackEventId == b.feedbackEventId
    || (a.Merchant? && b.Merchant? && a.targetId == b.targetId)
    || (a.Retrieval? && b.Retrieval? && a.queryHash == b.queryHash && a.chunkRevisionId == b.chunkRevisionId)
  }

  ghost predicate GoodExamples(es: seq<Example>, sha: string -> string) {
    (forall e | e in es :: GoodExample(e, sha)) && (forall i, j | 0 <= i < j < |es| :: !Clash(es[i], es[j]))
  }

  lemma SoundIsGood(e: Example, sha: string -> string)
    ensures Sound(e, sha) <==> GoodExample(e, sha)
  {
    if e.Merchant? {
      Strings.TrimEmpty(e.merchantPattern);
      Strings.TrimEmpty(e.categorySlug);
    }
    if e.Retrieval? { Strings.TrimEmpty(e.query); }
  }

  lemma GoodIffChecked(es: seq<Example>, sha: string -> string)
    ensures GoodExamples(es, sha) <==> AllSound(es, sha) && AllCompatible(es)
  {
    forall e ensures Sound(e, sha) <==> GoodExample(e, sha) { SoundIsGood(e, sha); }
  }

  /** Examples are refused before the split exactly if there is none, one is bad, or two clash. */
  lemma RefusedIff(inputs: seq<Example>, policy: D.Policy, world: World)
    requires IsPreorder(world.leq)
    ensures (ArtifactOf(inputs, policy, world).Err? && ArtifactOf(inputs, policy, world).error.NoExample?) <==> inputs == []
    ensures inputs != [] && !GoodExamples(inputs, world.sha) ==>
      ArtifactOf(inputs, policy, world).Err? && !ArtifactOf(inputs, policy, world).error.NoPlan?
    ensures ArtifactOf(inputs, policy, world).Ok? ==> inputs != [] && GoodExamples(inputs, world.sha)
  {
    if inputs != [] {
      var sorted := SortBy(inputs, IdOrder(world.leq));
      IdOrderIsPreorder(world.leq);
      SortMeaning(inputs, IdOrder(world.leq));
      assert |sorted| == |multiset(sorted)| == |inputs|;
      SortedGood(inputs, sorted, world.sha);
      CheckErrors(sorted, 0, NOTHING, world.sha);
      RowErrors(sorted, policy, world);
    }
  }

  lemma SortedGood(inputs: seq<Example>, sorted: seq<Example>, sha: string -> string)
    requires multiset(sorted) == multiset(inputs)
    ensures CheckFrom(sorted, 0, NOTHING, sha).Ok? <==> GoodExamples(inputs, sha)
  {
    CheckIff(sorted, sha);
    CheckIff(inputs, sha);
    GoodIffChecked(inputs, sha);
    if CheckFrom(inputs, 0, NOTHING, sha).Ok? { CheckMoved(inputs, sorted, sha); }
    if CheckFrom(sorted, 0, NOTHING, sha).Ok? { CheckMoved(sorted, inputs, sha); }
  }

  lemma {:induction false} CheckErrors(es: seq<Example>, n: nat, seen: Seen, sha: string -> string)
    requires n <= |es|
    ensures var r := CheckFrom(es, n, seen, sha); r.Err? ==> !r.error.NoPlan? && !r.error.NoExample?
    decreases |es| - n
  {
    if n < |es| && ExampleError(es[n], seen, sha).Ok? { CheckErrors(es, n + 1, ExampleError(es[n], seen, sha).value, sha); }
  }

  lemma {:induction false} RowsErrors(es: seq<Example>, n: nat, byId: map<string, D.Assignment>)
    requires n <= |es|
    ensures var r := RowsFrom(es, n, byId); r.Err? ==> !r.error.NoExample?
    decreases |es| - n
  {
    if n < |es| && RowError(es[n], byId).Ok? { RowsErrors(es, n + 1, byId); }
  }

  lemma {:induction false} JoinErrors(lines: seq<Result<string>>, n: nat)
    requires n <= |lines| && forall i | 0 <= i < |lines| && lines[i].Err? :: !lines[i].error.NoExample?
    ensures var r := JoinFrom(lines, n); r.Err? ==> !r.error.NoExample?
    decreases |lines| - n
  {
    if n < |lines| { JoinErrors(lines, n + 1); }
  }

  lemma RowErrors(sorted: seq<Example>, policy: D.Policy, world: World)
    ensures var r := ArtifactOfSorted(sorted, policy, world); r.Err? ==> !r.error.NoExample?
  {
    CheckErrors(sorted, 0, NOTHING, world.sha);
    var planned := D.PlanOf(SplitInputs(Tidied(sorted)), policy, world.hash);
    if planned.Ok? {
      var byId := ById(planned.value.assignments);
      RowsErrors(Tidied(sorted), 0, byId);
      var rows := RowsFrom(Tidied(sorted), 0, byId);
      if rows.Ok? { JoinErrors(Lines(RowValues(rows.value, world.iso)), 0); }
    }
  }

  // ---- what a line says ----

  ghost predicate Says(v: C.Given, key: string, text: string) { v.Record? && key in v.fields && v.fields[key] == Text(text) }

  /** The columns that all kinds share. */
  ghost predicate SaysCommon(v: C.Given, row: Row, kind: string, iso: int -> string) {
    var e, a := row.example, row.assignment;
    && Says(v, "feedbackEventId", e.feedbackEventId) && Says(v, "targetType", kind) && Says(v, "targetId", e.targetId)
    && Says(v, "labelSchemaVersion", e.labelSchemaVersion) && Says(v, "source", e.source)
    && (a.occurredAt.At? ==> Says(v, "occurredAt", iso(a.occurredAt.ms)))
    && Says(v, "splitGroupHash", a.groupHash)
    && Says(v, "split", match a.split case Train => "train" case Validation => "validation" case Test => "test")
  }

  /** The columns of a row: the shared ones and those of its kind. */
  ghost predicate SaysColumns(v: C.Given, row: Row, iso: int -> string) {
    match row.example
    case Memory(_, _, _, _, _, chunk, _, annotation) =>
      SaysCommon(v, row, "memory-candidate", iso) && Says(v, "chunkRevisionId", chunk) && "label" in v.fields && v.fields["label"] == annotation
    case Merchant(_, _, _, _, _, rule, pattern, category, slug) =>
      && SaysCommon(v, row, "merchant-category", iso) && Says(v, "merchantCategoryRuleId", rule) && Says(v, "merchantPattern", pattern)
      && Says(v, "categoryId", category) && Says(v, "categorySlug", slug)
    case Retrieval(_, _, _, _, _, query, queryHash, chunk, _) =>
      && SaysCommon(v, row, "rag-retrieval", iso) && Says(v, "query", query) && Says(v, "queryHash", queryHash)
      && Says(v, "positiveChunkRevisionId", chunk)
  }

  const COMMON := ["targetType", "targetId", "labelSchemaVersion", "source", "occurredAt", "splitGroupHash", "split"]

  function OwnNames(e: Example): seq<string> {
    match e
    case Memory(_, _, _, _, _, _, _, _) => ["chunkRevisionId"]
    case Merchant(_, _, _, _, _, _, _, _, _) => ["merchantCategoryRuleId", "merchantPattern", "categoryId", "categorySlug"]
    case Retrieval(_, _, _, _, _, _, _, _, _) => ["query", "queryHash", "positiveChunkRevisionId"]
  }

  ghost function NamesOf(e: Example): set<string> {
    {"feedbackEventId"} + Strings.Elems(COMMON + OwnNames(e)) + if e.Memory? then {"label"} else {}
  }

  /** The object of a row has these columns and no others. */
  ghost predicate SaysRow(v: C.Given, row: Row, iso: int -> string) { SaysColumns(v, row, iso) && v.fields.Keys == NamesOf(row.example) }

  lemma {:induction false} RecordKeys(id: string, columns: seq<Column>)
    ensures RecordOf(id, columns).fields.Keys == {"feedbackEventId"} + set i | 0 <= i < |columns| :: columns[i].0
  {
    if columns != [] {
      var n := |columns| - 1;
      RecordKeys(id, columns[..n]);
      assert forall i | 0 <= i < n :: columns[..n][i] == columns[i];
      assert (set i | 0 <= i < |columns| :: columns[i].0) == (set i | 0 <= i < n :: columns[..n][i].0) + {columns[n].0};
    }
  }

  ghost predicate ColumnSaid(v: C.Given, columns: seq<Column>, i: nat)
    requires i < |columns|
  {
    Says(v, columns[i].0, columns[i].1)
  }

  ghost predicate NamesOnce(columns: seq<Column>) {
    && (forall i, j | 0 <= i < j < |columns| :: columns[i].0 != columns[j].0)
    && forall i | 0 <= i < |columns| :: columns[i].0 != "feedbackEventId" && columns[i].0 != "label"
  }

  /** Names that differ in length or first letter differ. */
  lemma NamesDifferAtOnce(columns: seq<Column>)
    requires forall i | 0 <= i < |columns| :: columns[i].0 != ""
    requires forall i, j | 0 <= i < j < |columns| :: |columns[i].0| != |columns[j].0| || columns[i].0[0] != columns[j].0[0]
    requires forall i | 0 <= i < |columns| :: (|columns[i].0| != 15 || columns[i].0[0] != 'f') && (|columns[i].0| != 5 || columns[i].0[0] != 'l')
    ensures NamesOnce(columns)
  {
    assert |"feedbackEventId"| == 15 && "feedbackEventId"[0] == 'f' && |"label"| == 5 && "label"[0] == 'l';
  }

  /** The length and the first letter of each name. */
  ghost predicate Shapes(columns: seq<Column>, lengths: seq<int>, letters: string) {
    && |columns| == |lengths| == |letters|
    && forall i | 0 <= i < |columns| :: |columns[i].0| == lengths[i] > 0 && columns[i].0[0] == letters[i]
  }

  lemma CommonShapes(row: Row, kind: string, iso: int -> string)
    ensures Shapes(CommonColumns(row, kind, iso), [10, 8, 18, 6, 10, 14, 5], "ttlsoss")
  {}

  lemma ShapesAdd(a: seq<Column>, b: seq<Column>, m: seq<int>, n: seq<int>, s: string, t: string)
    requires Shapes(a, m, s) && Shapes(b, n, t)
    ensures Shapes(a + b, m + n, s + t)
  {}

  lemma MerchantNames(row: Row, iso: int -> string)
    requires row.example.Merchant?
    ensures NamesOnce(Columns(row, iso))
  {
    var e, kind := row.example, "merchant-category";
    var own := [("merchantCategoryRuleId", e.merchantCategoryRuleId), ("merchantPattern", e.merchantPattern), ("categoryId", e.categoryId),
                ("categorySlug", e.categorySlug)];
    assert Shapes(own, [22, 15, 10, 12], "mmcc");
    CommonShapes(row, kind, iso);
    ShapesAdd(CommonColumns(row, kind, iso), own, [10, 8, 18, 6, 10, 14, 5], [22, 15, 10, 12], "ttlsoss", "mmcc");
    NamesDifferAtOnce(Columns(row, iso));
  }

  lemma RetrievalNames(row: Row, iso: int -> string)
    requires row.example.Retrieval?
    ensures NamesOnce(Columns(row, iso))
  {
    var e, kind := row.example, "rag-retrieval";
    var own := [("query", e.query), ("queryHash", e.queryHash), ("positiveChunkRevisionId", e.chunkRevisionId)];
    assert Shapes(own, [5, 9, 23], "qqp");
    CommonShapes(row, kind, iso);
    ShapesAdd(CommonColumns(row, kind, iso), own, [10, 8, 18, 6, 10, 14, 5], [5, 9, 23], "ttlsoss", "qqp");
    NamesDifferAtOnce(Columns(row, iso));
  }

  lemma MemoryNames(row: Row, iso: int -> string)
    requires row.example.Memory?
    ensures NamesOnce(Columns(row, iso))
  {
    var e, kind := row.example, "memory-candidate";
    var own := [("chunkRevisionId", e.chunkRevisionId)];
    assert Shapes(own, [15], "c");
    CommonShapes(row, kind, iso);
    ShapesAdd(CommonColumns(row, kind, iso), own, [10, 8, 18, 6, 10, 14, 5], [15], "ttlsoss", "c");
    NamesDifferAtOnce(Columns(row, iso));
  }

  lemma ColumnsSaid(row: Row, iso: int -> string)
    requires NamesOnce(Columns(row, iso))
    ensures Says(RowValue(row, iso), "feedbackEventId", row.example.feedbackEventId)
    ensures forall i | 0 <= i < |Columns(row, iso)| :: ColumnSaid(RowValue(row, iso), Columns(row, iso), i)
  {
    var columns := Columns(row, iso);
    IdColumn(row.example.feedbackEventId, columns);
    forall i | 0 <= i < |columns| ensures ColumnSaid(RowValue(row, iso), columns, i) {
      ColumnAt(row.example.feedbackEventId, columns, i);
    }
  }

  lemma MerchantSays(row: Row, iso: int -> string)
    requires row.example.Merchant?
    ensures SaysColumns(RowValue(row, iso), row, iso)
  {
    var columns, v := Columns(row, iso), RowValue(row, iso);
    MerchantNames(row, iso);
    ColumnsSaid(row, iso);
    CommonSaid(v, row, "merchant-category", iso);
    assert ColumnSaid(v, columns, 7) && ColumnSaid(v, columns, 8) && ColumnSaid(v, columns, 9) && ColumnSaid(v, columns, 10);
  }

  lemma RetrievalSays(row: Row, iso: int -> string)
    requires row.example.Retrieval?
    ensures SaysColumns(RowValue(row, iso), row, iso)
  {
    var columns, v := Columns(row, iso), RowValue(row, iso);
    RetrievalNames(row, iso);
    ColumnsSaid(row, iso);
    CommonSaid(v, row, "rag-retrieval", iso);
    assert ColumnSaid(v, columns, 7) && ColumnSaid(v, columns, 8) && ColumnSaid(v, columns, 9);
  }

  lemma MemorySays(row: Row, iso: int -> string)
    requires row.example.Memory?
    ensures SaysColumns(RowValue(row, iso), row, iso)
  {
    var columns, v := Columns(row, iso), RowValue(row, iso);
    MemoryNames(row, iso);
    ColumnsSaid(row, iso);
    CommonSaid(v, row, "memory-candidate", iso);
    assert ColumnSaid(v, columns, 7);
  }

  ghost predicate Named(columns: seq<Column>, names: seq<string>) {
    |columns| == |names| && forall i | 0 <= i < |names| :: columns[i].0 == names[i]
  }

  lemma ColumnsAreNamed(row: Row, iso: int -> string)
    ensures Named(Columns(row, iso), COMMON + OwnNames(row.example))
  {
    var kind := if row.example.Memory? then "memory-candidate" else if row.example.Merchant? then "merchant-category" else "rag-retrieval";
    var common := CommonColumns(row, kind, iso);
    assert Named(common, COMMON);
    assert common <= Columns(row, iso);
    assert Named(Columns(row, iso)[7..], OwnNames(row.example));
    assert Columns(row, iso) == common + Columns(row, iso)[7..];
  }

  lemma NamedSet(columns: seq<Column>, names: seq<string>)
    requires Named(columns, names)
    ensures (set i | 0 <= i < |columns| :: columns[i].0) == Strings.Elems(names)
  {
    forall n | n in names ensures n in (set i | 0 <= i < |columns| :: columns[i].0) {
      var i :| 0 <= i < |names| && names[i] == n;
      assert columns[i].0 == n;
    }
  }

  lemma RowNames(row: Row, iso: int -> string)
    ensures RowValue(row, iso).fields.Keys == NamesOf(row.example)
  {
    RecordKeys(row.example.feedbackEventId, Columns(row, iso));
    ColumnsAreNamed(row, iso);
    NamedSet(Columns(row, iso), COMMON + OwnNames(row.example));
  }

  lemma CommonSaid(v: C.Given, row: Row, kind: string, iso: int -> string)
    requires CommonColumns(row, kind, iso) <= Columns(row, iso) && Says(v, "feedbackEventId", row.example.feedbackEventId)
    requires forall i | 0 <= i < |Columns(row, iso)| :: ColumnSaid(v, Columns(row, iso), i)
    ensures SaysCommon(v, row, kind, iso)
  {
    var columns, common := Columns(row, iso), CommonColumns(row, kind, iso);
    assert ColumnSaid(v, columns, 0) && ColumnSaid(v, columns, 1) && ColumnSaid(v, columns, 2) && ColumnSaid(v, columns, 3);
    assert ColumnSaid(v, columns, 4) && ColumnSaid(v, columns, 5) && ColumnSaid(v, columns, 6);
    assert forall i | 0 <= i < 7 :: columns[i] == common[i];
  }

  /** A row's object says exactly the row. */
  lemma RowIsSaid(row: Row, iso: int -> string)
    ensures SaysRow(RowValue(row, iso), row, iso)
  {
    RowNames(row, iso);
    match row.example
    case Memory(_, _, _, _, _, _, _, _) => MemorySays(row, iso);
    case Merchant(_, _, _, _, _, _, _, _, _) => MerchantSays(row, iso);
    case Retrieval(_, _, _, _, _, _, _, _, _) => RetrievalSays(row, iso);
  }

  /** Texts one after the other, each ended by a line feed. */
  ghost function Ended(texts: seq<string>): string {
    if texts == [] then "" else texts[0] + "\n" + Ended(texts[1..])
  }

  lemma {:induction false} JoinedIsEnded(lines: seq<Result<string>>, texts: seq<string>, n: nat)
    requires n <= |lines| == |texts| && forall i | n <= i < |lines| :: lines[i] == Ok(texts[i])
    ensures JoinFrom(lines, n) == Ok(Ended(texts[n..]))
    decreases |lines| - n
  {
    if n < |lines| {
      JoinedIsEnded(lines, texts, n + 1);
      assert texts[n..][1..] == texts[n + 1..];
    }
  }

  /** The text is one line a row, the canonical text of an object that says exactly the row; the hash is the digest of the text. */
  lemma TextMeaning(inputs: seq<Example>, policy: D.Policy, world: World) returns (values: seq<C.Given>, texts: seq<string>)
    requires ArtifactOf(inputs, policy, world).Ok?
    ensures var a := ArtifactOf(inputs, policy, world).value;
      && a.artifactHash == world.sha(a.jsonl) && a.jsonl == Ended(texts)
      && |values| == |texts| == |a.rows|
      && forall i | 0 <= i < |a.rows| :: SaysRow(values[i], a.rows[i], world.iso) && T.Acceptable(values[i]) && texts[i] == T.CanonicalText(values[i])
  {
    var sorted := SortBy(inputs, IdOrder(world.leq));
    var plan := ArtifactHasPlan(sorted, policy, world);
    var rows := RowsAt(sorted, plan);
    values := RowValues(rows, world.iso);
    texts := WrittenTexts(values);
    forall i | 0 <= i < |rows| ensures SaysRow(values[i], rows[i], world.iso) { RowIsSaid(rows[i], world.iso); }
  }

  lemma WrittenTexts(values: seq<C.Given>) returns (texts: seq<string>)
    requires JsonlOf(values).Ok?
    ensures |texts| == |values| && JsonlOf(values) == Ok(Ended(texts))
    ensures forall i | 0 <= i < |values| :: T.Acceptable(values[i]) && texts[i] == T.CanonicalText(values[i])
  {
    var lines := Lines(values);
    JoinMeaning(lines, 0);
    forall i | 0 <= i < |values| ensures lines[i].Ok? && T.Acceptable(values[i]) && lines[i].value == T.CanonicalText(values[i]) {
      T.FaultMeaning(values[i], []);
    }
    texts := seq(|values|, i requires 0 <= i < |values| => lines[i].value);
    JoinedIsEnded(lines, texts, 0);
    assert texts[0..] == texts;
  }

  // ---- where the rows come from ----

  /** A row keeps its example; a query loses the blanks around it and a label becomes its canonical form. */
  ghost predicate KeepsExample(e: Example, kept: Example) {
    match e
    case Memory(_, _, _, _, _, _, _, annotation) => kept == e.(annotation := C.Clean(annotation))
    case Merchant(_, _, _, _, _, _, _, _, _) => kept == e
    case Retrieval(_, _, _, _, _, query, _, _, _) => kept == e.(query := Strings.Trim(query))
  }

  /** What is asked of the split for an example: its own id, target and time, and its groups. */
  ghost predicate AskedFor(e: Example, input: D.Input) {
    && input.rowId == e.feedbackEventId && input.targetId == e.targetId && input.occurredAt == e.occurredAt
    && match e
       case Memory(_, _, _, _, _, _, group, _) => input.groupKey == group && input.related == []
       case Merchant(_, target, _, _, _, _, _, _, _) => input.groupKey == target && input.related == []
       case Retrieval(_, _, _, _, _, _, queryHash, _, group) => input.groupKey == queryHash && input.related == [group]
  }

  /** The rows are the examples in order of their ids, each with the assignment that the plan of their groups gives it. */
  lemma RowsComeFrom(inputs: seq<Example>, policy: D.Policy, world: World) returns (sorted: seq<Example>, asked: seq<D.Input>)
    requires IsPreorder(world.leq) && ArtifactOf(inputs, policy, world).Ok?
    ensures multiset(sorted) == multiset(inputs)
    ensures forall i, j | 0 <= i < j < |sorted| :: world.leq(sorted[i].feedbackEventId, sorted[j].feedbackEventId)
    ensures |asked| == |sorted| && forall i | 0 <= i < |sorted| :: AskedFor(sorted[i], asked[i])
    ensures D.PlanOf(asked, policy, world.hash).Ok?
    ensures var a, plan := ArtifactOf(inputs, policy, world).value, D.PlanOf(asked, policy, world.hash).value;
      && a.splitPolicy == plan.policy && a.leakageAudit == plan.audit && |a.rows| == |plan.assignments| == |sorted|
      && forall i | 0 <= i < |sorted| :: KeepsExample(sorted[i], a.rows[i].example) && a.rows[i].assignment == plan.assignments[i]
  {
    sorted := SortBy(inputs, IdOrder(world.leq));
    SortedById(inputs, sorted, world.leq);
    asked := SplitInputs(Tidied(sorted));
    var plan := ArtifactHasPlan(sorted, policy, world);
    forall i | 0 <= i < |sorted| ensures AskedFor(sorted[i], asked[i]) && KeepsExample(sorted[i], RowsAt(sorted, plan)[i].example) {
      AsksAndKeeps(sorted, plan, i);
    }
  }

  lemma SortedById(inputs: seq<Example>, sorted: seq<Example>, leq: (string, string) -> bool)
    requires IsPreorder(leq) && sorted == SortBy(inputs, IdOrder(leq))
    ensures multiset(sorted) == multiset(inputs)
    ensures forall i, j | 0 <= i < j < |sorted| :: leq(sorted[i].feedbackEventId, sorted[j].feedbackEventId)
  {
    var le := IdOrder(leq);
    IdOrderIsPreorder(leq);
    SortMeaning(inputs, le);
    forall i, j | 0 <= i < j < |sorted| ensures leq(sorted[i].feedbackEventId, sorted[j].feedbackEventId) {
      assert le(sorted[i], sorted[j]);
    }
  }

  lemma AsksAndKeeps(sorted: seq<Example>, plan: D.Plan, i: nat)
    requires i < |sorted| == |plan.assignments|
    ensures AskedFor(sorted[i], SplitInputs(Tidied(sorted))[i]) && KeepsExample(sorted[i], RowsAt(sorted, plan)[i].example)
    ensures RowsAt(sorted, plan)[i].assignment == plan.assignments[i]
  {}

  // ---- counts ----

  ghost function RowsIn(rows: seq<Row>, s: D.Split): set<int> { set i | 0 <= i < |rows| && rows[i].assignment.split == s }

  lemma {:induction false} CountMeaning(rows: seq<Row>, s: D.Split)
    ensures CountSplit(rows, s) == |RowsIn(rows, s)|
  {
    if rows != [] {
      var n := |rows| - 1;
      CountMeaning(rows[..n], s);
      assert RowsIn(rows, s) == RowsIn(rows[..n], s) + if rows[n].assignment.split == s then {n} else {};
    }
  }

  /** The counts are those of the rows in each split. */
  lemma CountsMeaning(inputs: seq<Example>, policy: D.Policy, world: World)
    requires ArtifactOf(inputs, policy, world).Ok?
    ensures var a := ArtifactOf(inputs, policy, world).value;
      && a.splitCounts.train == |RowsIn(a.rows, D.Train)| && a.splitCounts.validation == |RowsIn(a.rows, D.Validation)|
      && a.splitCounts.test == |RowsIn(a.rows, D.Test)|
  {
    var a := ArtifactOf(inputs, policy, world).value;
    CountMeaning(a.rows, D.Train);
    CountMeaning(a.rows, D.Validation);
    CountMeaning(a.rows, D.Test);
  }
}
