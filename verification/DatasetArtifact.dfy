/**
 * Dataset artifacts: checked examples in order of their ids, each with its split, as lines of canonical JSON.
 *
 * The three builders of the program differ only in their checks, group keys and columns; one list holds examples of one kind.
 */
module DatasetArtifact {
  import opened Wrappers
  import opened StableSort
  import Strings
  import opened JsonText
  import C = CanonicalJson
  import J = JsonRepair
  import D = DatasetSplit
  import T = CanonicalJsonTheorems

  datatype Example =
    | Memory(feedbackEventId: string, targetId: string, occurredAt: D.Timestamp, labelSchemaVersion: string, source: string,
             chunkRevisionId: string, groupKey: string, annotation: C.Given)
    | Merchant(feedbackEventId: string, targetId: string, occurredAt: D.Timestamp, labelSchemaVersion: string, source: string,
               merchantCategoryRuleId: string, merchantPattern: string, categoryId: string, categorySlug: string)
    | Retrieval(feedbackEventId: string, targetId: string, occurredAt: D.Timestamp, labelSchemaVersion: string, source: string,
                query: string, queryHash: string, chunkRevisionId: string, sourceGroupKey: string)

  datatype Row = Row(example: Example, assignment: D.Assignment)

  datatype Counts = Counts(train: nat, validation: nat, test: nat)

  datatype Artifact = Artifact(rows: seq<Row>, jsonl: string, artifactHash: string, splitCounts: Counts,
                               splitPolicy: D.Resolved, leakageAudit: D.Audit)

  datatype Error =
    | NoExample | DuplicateEvent(id: string) | DuplicateTarget(id: string) | DuplicatePair | EmptyValue | WrongQueryHash
    | NoPlan(error: D.Error) | NoAssignment | NotJson(fault: C.Fault)

  datatype Result<T> = Ok(value: T) | Err(error: Error)

  /** What the builders take from outside: the collation of ids, the two digests and the ISO text of a date. */
  datatype World = World(leq: (string, string) -> bool, sha: string -> string, hash: D.Hasher, iso: int -> string)

  // ---- order ----

  /** Compares examples by their ids as localeCompare does in some locale; different ids may compare as equal. */
  function IdOrder(leq: (string, string) -> bool): (Example, Example) -> bool {
    (a: Example, b: Example) => leq(a.feedbackEventId, b.feedbackEventId)
  }

  lemma IdOrderIsPreorder(leq: (string, string) -> bool)
    requires IsPreorder(leq)
    ensures IsPreorder(IdOrder(leq))
  {
    var le := IdOrder(leq);
    assert forall a: Example, b: Example :: le(a, b) <==> leq(a.feedbackEventId, b.feedbackEventId);
  }

  // ---- checks ----

  /** What was seen so far; the text of a pair tells pairs apart, so the pair stands for it. */
  datatype Seen = Seen(ids: set<string>, targets: set<string>, pairs: set<(string, string)>)

  predicate Filled(e: Example) {
    && e.feedbackEventId != "" && e.targetId != "" && e.labelSchemaVersion != ""
    && match e
       case Memory(_, _, _, _, _, chunk, _, _) => chunk != ""
       case Merchant(_, _, _, _, _, rule, pattern, category, slug) =>
         rule != "" && Strings.Trim(pattern) != "" && category != "" && Strings.Trim(slug) != ""
       case Retrieval(_, _, _, _, _, query, _, chunk, _) => Strings.Trim(query) != "" && chunk != ""
  }

  predicate HashMatches(e: Example, sha: string -> string) { e.Retrieval? ==> sha(Strings.Trim(e.query)) == e.queryHash }

  /** The query of a retrieval example is kept without blanks around it. */
  function Tidy(e: Example): Example { if e.Retrieval? then e.(query := Strings.Trim(e.query)) else e }

  /** The first objection to an example, in the order the program raises them. */
  function ExampleError(e: Example, seen: Seen, sha: string -> string): Result<Seen> {
    if e.feedbackEventId in seen.ids then Err(DuplicateEvent(e.feedbackEventId))
    else if e.Merchant? && e.targetId in seen.targets then Err(DuplicateTarget(e.targetId))
    else if !Filled(e) then Err(EmptyValue)
    else if !HashMatches(e, sha) then Err(WrongQueryHash)
    else if e.Retrieval? && (e.queryHash, e.chunkRevisionId) in seen.pairs then Err(DuplicatePair)
    else Ok(Noted(e, seen))
  }

  function Noted(e: Example, seen: Seen): Seen {
    Seen(seen.ids + {e.feedbackEventId}, seen.targets + if e.Merchant? then {e.targetId} else {},
         seen.pairs + if e.Retrieval? then {(e.queryHash, e.chunkRevisionId)} else {})
  }

  function CheckFrom(es: seq<Example>, n: nat, seen: Seen, sha: string -> string): Result<()>
    requires n <= |es|
    decreases |es| - n
  {
    if n == |es| then Ok(())
    else
      match ExampleError(es[n], seen, sha)
      case Err(e) => Err(e)
      case Ok(after) => CheckFrom(es, n + 1, after, sha)
  }

  // ---- rows ----

  function SplitInput(e: Example): D.Input {
    match e
    case Memory(id, target, at, _, _, _, group, _) => D.Input(id, target, group, [], at)
    case Merchant(id, target, at, _, _, _, _, _, _) => D.Input(id, target, target, [], at)
    case Retrieval(id, target, at, _, _, _, query, _, group) => D.Input(id, target, query, [group], at)
  }

  function Tidied(es: seq<Example>): (r: seq<Example>)
    ensures |r| == |es| && forall i | 0 <= i < |es| :: r[i] == Tidy(es[i])
  {
    seq(|es|, i requires 0 <= i < |es| => Tidy(es[i]))
  }

  function SplitInputs(es: seq<Example>): (r: seq<D.Input>)
    ensures |r| == |es| && forall i | 0 <= i < |es| :: r[i] == SplitInput(es[i])
  {
    seq(|es|, i requires 0 <= i < |es| => SplitInput(es[i]))
  }

  /** A property of an object literal. */
  function With(v: C.Given, key: string, field: C.Given): (r: C.Given)
    requires v.Record?
    ensures r.Record? && r.plain == v.plain && r.fields == v.fields[key := field]
  {
    var r := Value.Record(if key in v.fields then v.keys else v.keys + [key], v.fields[key := field], v.plain);
    assert C.Proper(r) by {
      assert Strings.Elems(v.keys) == v.fields.Keys;
      assert forall x :: x in v.keys <==> x in Strings.Elems(v.keys);
      assert forall x :: x in r.keys <==> x in v.keys || x == key;
      forall k | k in r.fields ensures C.Proper(r.fields[k]) { if k != key { assert k in v.fields; } }
    }
    r
  }

  function SplitName(s: D.Split): string {
    match s
    case Train => "train"
    case Validation => "validation"
    case Test => "test"
  }

  /** The date of a row as its plan gives it. */
  function DateText(t: D.Timestamp, iso: int -> string): string { if t.At? then iso(t.ms) else "" }

  type Column = (string, string)

  function CommonColumns(row: Row, kind: string, iso: int -> string): seq<Column> {
    var e, a := row.example, row.assignment;
    [("targetType", kind), ("targetId", e.targetId), ("labelSchemaVersion", e.labelSchemaVersion), ("source", e.source),
     ("occurredAt", DateText(a.occurredAt, iso)), ("splitGroupHash", a.groupHash), ("split", SplitName(a.split))]
  }

  function Columns(row: Row, iso: int -> string): seq<Column> {
    match row.example
    case Memory(_, _, _, _, _, chunk, _, _) => CommonColumns(row, "memory-candidate", iso) + [("chunkRevisionId", chunk)]
    case Merchant(_, _, _, _, _, rule, pattern, category, slug) =>
      CommonColumns(row, "merchant-category", iso) +
      [("merchantCategoryRuleId", rule), ("merchantPattern", pattern), ("categoryId", category), ("categorySlug", slug)]
    case Retrieval(_, _, _, _, _, query, queryHash, chunk, _) =>
      CommonColumns(row, "rag-retrieval", iso) +
      [("query", query), ("queryHash", queryHash), ("positiveChunkRevisionId", chunk)]
  }

  /** A record of texts after its id. */
  function RecordOf(id: string, columns: seq<Column>): (r: C.Given)
    ensures r.Record? && r.plain
  {
    if columns == [] then With(Value.Record([], map[], true), "feedbackEventId", Text(id))
    else
      var n := |columns| - 1;
      With(RecordOf(id, columns[..n]), columns[n].0, Text(columns[n].1))
  }

  /** The object that a row is written as. */
  function RowValue(row: Row, iso: int -> string): (r: C.Given)
    ensures r.Record? && r.plain
  {
    var r := RecordOf(row.example.feedbackEventId, Columns(row, iso));
    if row.example.Memory? then With(r, "label", row.example.annotation) else r
  }

  /** new Map(assignments by row id): the last one with an id stays. */
  function ById(assignments: seq<D.Assignment>): map<string, D.Assignment> {
    if assignments == [] then map[]
    else var last := assignments[|assignments| - 1]; ById(assignments[..|assignments| - 1])[last.rowId := last]
  }

  const LABEL_PATH := [C.Key("label")]

  ghost function RowOf(e: Example, a: D.Assignment): Row {
    Row(if e.Memory? then e.(annotation := C.Clean(e.annotation)) else e, a)
  }

  ghost function RowError(e: Example, byId: map<string, D.Assignment>): Result<Row> {
    if e.feedbackEventId !in byId then Err(NoAssignment)
    else
      match if e.Memory? then C.FaultOf(e.annotation, LABEL_PATH) else None
      case Some(f) => Err(NotJson(f))
      case None => Ok(RowOf(e, byId[e.feedbackEventId]))
  }

  ghost function RowsFrom(es: seq<Example>, n: nat, byId: map<string, D.Assignment>): Result<seq<Row>>
    requires n <= |es|
    decreases |es| - n
  {
    if n == |es| then Ok([])
    else
      match RowError(es[n], byId)
      case Err(e) => Err(e)
      case Ok(row) =>
        match RowsFrom(es, n + 1, byId)
        case Err(e) => Err(e)
        case Ok(rest) => Ok([row] + rest)
  }

  // ---- text ----

  function RowValues(rows: seq<Row>, iso: int -> string): (r: seq<C.Given>)
    ensures |r| == |rows| && forall i | 0 <= i < |rows| :: r[i] == RowValue(rows[i], iso)
  {
    seq(|rows|, i requires 0 <= i < |rows| => RowValue(rows[i], iso))
  }

  /** canonicalJson of the program. */
  ghost function LineOf(v: C.Given): Result<string> {
    match C.FaultOf(v, [])
    case Some(f) => Err(NotJson(f))
    case None =>
      assert T.Acceptable(v) by { T.FaultMeaning(v, []); }
      Ok(T.CanonicalText(v))
  }

  ghost function Lines(values: seq<C.Given>): (r: seq<Result<string>>)
    ensures |r| == |values| && forall i | 0 <= i < |values| :: r[i] == LineOf(values[i])
  {
    seq(|values|, i requires 0 <= i < |values| => LineOf(values[i]))
  }

  /** All lines, each ended by a line feed. */
  function JoinFrom(lines: seq<Result<string>>, n: nat): Result<string>
    requires n <= |lines|
    decreases |lines| - n
  {
    if n == |lines| then Ok("")
    else
      match lines[n]
      case Err(e) => Err(e)
      case Ok(text) =>
        match JoinFrom(lines, n + 1)
        case Err(e) => Err(e)
        case Ok(rest) => Ok(text + "\n" + rest)
  }

  ghost function JsonlOf(values: seq<C.Given>): Result<string> { JoinFrom(Lines(values), 0) }

  function CountSplit(rows: seq<Row>, s: D.Split): nat {
    if rows == [] then 0
    else CountSplit(rows[..|rows| - 1], s) + if rows[|rows| - 1].assignment.split == s then 1 else 0
  }

  function CountsOf(rows: seq<Row>): Counts {
    Counts(CountSplit(rows, D.Train), CountSplit(rows, D.Validation), CountSplit(rows, D.Test))
  }

  // ---- the builders ----

  ghost function ArtifactOfRows(rows: seq<Row>, plan: D.Plan, world: World): Result<Artifact> {
    match JsonlOf(RowValues(rows, world.iso))
    case Err(e) => Err(e)
    case Ok(jsonl) => Ok(Artifact(rows, jsonl, world.sha(jsonl), CountsOf(rows), plan.policy, plan.audit))
  }

  ghost function ArtifactOfSorted(sorted: seq<Example>, policy: D.Policy, world: World): Result<Artifact> {
    match CheckFrom(sorted, 0, Seen({}, {}, {}), world.sha)
    case Err(e) => Err(e)
    case Ok(_) =>
      match D.PlanOf(SplitInputs(Tidied(sorted)), policy, world.hash)
      case Err(e) => Err(NoPlan(e))
      case Ok(plan) =>
        match RowsFrom(Tidied(sorted), 0, ById(plan.assignments))
        case Err(e) => Err(e)
        case Ok(rows) => ArtifactOfRows(rows, plan, world)
  }

  ghost function ArtifactOf(inputs: seq<Example>, policy: D.Policy, world: World): Result<Artifact> {
    if inputs == [] then Err(NoExample) else ArtifactOfSorted(SortBy(inputs, IdOrder(world.leq)), policy, world)
  }

  method CheckExamples(es: seq<Example>, sha: string -> string) returns (r: Result<seq<Example>>)
    ensures CheckFrom(es, 0, Seen({}, {}, {}), sha).Err? ==> r == Err(CheckFrom(es, 0, Seen({}, {}, {}), sha).error)
    ensures CheckFrom(es, 0, Seen({}, {}, {}), sha).Ok? ==> r == Ok(Tidied(es))
  {
    var seen, tidy := Seen({}, {}, {}), [];
    for n := 0 to |es|
      invariant CheckFrom(es, 0, Seen({}, {}, {}), sha) == CheckFrom(es, n, seen, sha)
      invariant |tidy| == n && forall i | 0 <= i < n :: tidy[i] == Tidy(es[i])
    {
      match ExampleError(es[n], seen, sha)
      case Err(e) => return Err(e);
      case Ok(after) =>
        seen := after;
        tidy := tidy + [Tidy(es[n])];
    }
    assert tidy == Tidied(es);
    r := Ok(tidy);
  }

  method IndexById(assignments: seq<D.Assignment>) returns (byId: map<string, D.Assignment>)
    ensures byId == ById(assignments)
  {
    byId := map[];
    for n := 0 to |assignments|
      invariant byId == ById(assignments[..n])
    {
      assert assignments[..n + 1][..n] == assignments[..n];
      byId := byId[assignments[n].rowId := assignments[n]];
    }
    assert assignments[..|assignments|] == assignments;
  }

  function Prepend<T>(before: seq<T>, r: Result<seq<T>>): Result<seq<T>> {
    match r
    case Err(e) => Err(e)
    case Ok(rest) => Ok(before + rest)
  }

  method BuildRows(es: seq<Example>, byId: map<string, D.Assignment>) returns (r: Result<seq<Row>>)
    ensures r == RowsFrom(es, 0, byId)
  {
    var rows: seq<Row> := [];
    assert forall rest: seq<Row> :: [] + rest == rest;
    for n := 0 to |es|
      invariant RowsFrom(es, 0, byId) == Prepend(rows, RowsFrom(es, n, byId))
    {
      var e := es[n];
      if e.feedbackEventId !in byId { return Err(NoAssignment); }
      if e.Memory? {
        var form := C.Canonicalize(e.annotation, LABEL_PATH);
        if form.Err? { return Err(NotJson(form.fault)); }
        e := e.(annotation := form.value);
      }
      var row := Row(e, byId[e.feedbackEventId]);
      assert forall rest: seq<Row> :: rows + ([row] + rest) == (rows + [row]) + rest;
      rows := rows + [row];
    }
    assert rows + [] == rows;
    r := Ok(rows);
  }

  function PrependText(before: string, r: Result<string>): Result<string> {
    match r
    case Err(e) => Err(e)
    case Ok(rest) => Ok(before + rest)
  }

  method WriteLine(v: C.Given) returns (r: Result<string>)
    ensures r == LineOf(v)
  {
    var form := C.Canonicalize(v, []);
    if form.Err? { return Err(NotJson(form.fault)); }
    T.FaultMeaning(v, []);
    T.CleanIsJson(v);
    r := Ok(Show(form.value));
  }

  lemma JoinStep(lines: seq<Result<string>>, n: nat, jsonl: string)
    requires n < |lines|
    ensures lines[n].Err? ==> JoinFrom(lines, n) == lines[n]
    ensures lines[n].Ok? ==>
      PrependText(jsonl, JoinFrom(lines, n)) == PrependText(jsonl + lines[n].value + "\n", JoinFrom(lines, n + 1))
  {
    var rest := JoinFrom(lines, n + 1);
    if lines[n].Ok? && rest.Ok? {
      J.Assoc(jsonl, lines[n].value, "\n");
      J.Assoc(jsonl, lines[n].value + "\n", rest.value);
    }
  }

  method WriteLines(values: seq<C.Given>) returns (r: Result<string>)
    ensures r == JsonlOf(values)
  {
    ghost var lines := Lines(values);
    var jsonl := "";
    assert forall rest: string :: "" + rest == rest;
    for n := 0 to |values|
      invariant JoinFrom(lines, 0) == PrependText(jsonl, JoinFrom(lines, n))
    {
      var text := WriteLine(values[n]);
      assert lines[n] == text;
      JoinStep(lines, n, jsonl);
      if text.Err? { return text; }
      jsonl := jsonl + text.value + "\n";
    }
    assert jsonl + "" == jsonl;
    r := Ok(jsonl);
  }

  method CountSplits(rows: seq<Row>) returns (c: Counts)
    ensures c == CountsOf(rows)
  {
    c := Counts(0, 0, 0);
    for n := 0 to |rows|
      invariant c == CountsOf(rows[..n])
    {
      assert rows[..n + 1][..n] == rows[..n];
      match rows[n].assignment.split
      case Train => c := c.(train := c.train + 1);
      case Validation => c := c.(validation := c.validation + 1);
      case Test => c := c.(test := c.test + 1);
    }
    assert rows[..|rows|] == rows;
  }

  method BuildArtifact(inputs: seq<Example>, policy: D.Policy, world: World) returns (r: Result<Artifact>)
    ensures r == ArtifactOf(inputs, policy, world)
  {
    if inputs == [] { return Err(NoExample); }
    var checked := CheckExamples(SortBy(inputs, IdOrder(world.leq)), world.sha);
    if checked.Err? { return Err(checked.error); }
    var planned := D.BuildPlan(SplitInputs(checked.value), policy, world.hash);
    if planned.Err? { return Err(NoPlan(planned.error)); }
    var byId := IndexById(planned.value.assignments);
    var built := BuildRows(checked.value, byId);
    if built.Err? { return Err(built.error); }
    var written := WriteLines(RowValues(built.value, world.iso));
    if written.Err? { return Err(written.error); }
    var counts := CountSplits(built.value);
    r := Ok(Artifact(built.value, written.value, world.sha(written.value), counts, planned.value.policy, planned.value.audit));
  }
}
