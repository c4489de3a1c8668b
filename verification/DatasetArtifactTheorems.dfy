/** What dataset artifacts promise: an order-independent text, rows that keep their groups together, counts that add up. */
module DatasetArtifactTheorems {
  import opened Strings
  import opened JsonText
  import opened DatasetArtifact
  import opened StableSort
  import C = CanonicalJson
  import J = JsonRepair
  import D = DatasetSplit
  import DT = DatasetSplitTheorems
  import Components
  import T = CanonicalJsonTheorems

  const NOTHING := Seen({}, {}, {})

  // ---- which examples are accepted ----

  /** Two examples that may stand in one dataset. */
  predicate Compatible(a: Example, b: Example) {
    && a.feedbackEventId != b.feedbackEventId
    && (a.Merchant? && b.Merchant? ==> a.targetId != b.targetId)
    && (a.Retrieval? && b.Retrieval? ==> (a.queryHash, a.chunkRevisionId) != (b.queryHash, b.chunkRevisionId))
  }

  predicate Unseen(e: Example, seen: Seen) {
    && e.feedbackEventId !in seen.ids
    && (e.Merchant? ==> e.targetId !in seen.targets)
    && (e.Retrieval? ==> (e.queryHash, e.chunkRevisionId) !in seen.pairs)
  }

  predicate Sound(e: Example, sha: string -> string) { Filled(e) && HashMatches(e, sha) }

  lemma UnseenAfter(a: Example, e: Example, seen: Seen)
    ensures Unseen(e, Noted(a, seen)) <==> Unseen(e, seen) && Compatible(a, e)
  {
  }

  /** Examples pass exactly when each is sound by itself and every two may stand together. */
  lemma {:induction false} CheckMeaning(es: seq<Example>, n: nat, seen: Seen, sha: string -> string)
    requires n <= |es|
    ensures CheckFrom(es, n, seen, sha).Ok? <==>
      && (forall i | n <= i < |es| :: Sound(es[i], sha) && Unseen(es[i], seen))
      && (forall i, j | n <= i < j < |es| :: Compatible(es[i], es[j]))
    decreases |es| - n
  {
    if n < |es| {
      var after := Noted(es[n], seen);
      CheckMeaning(es, n + 1, after, sha);
      forall i | n < i < |es| ensures Unseen(es[i], after) <==> Unseen(es[i], seen) && Compatible(es[n], es[i]) {
        UnseenAfter(es[n], es[i], seen);
      }
      if CheckFrom(es, n, seen, sha).Ok? { assert CheckFrom(es, n + 1, after, sha).Ok?; }
    }
  }

  // ---- the parts of an artifact ----

  lemma {:induction false} RowsMeaning(es: seq<Example>, n: nat, byId: map<string, D.Assignment>)
    requires n <= |es|
    ensures RowsFrom(es, n, byId).Ok? <==> forall i | n <= i < |es| :: RowError(es[i], byId).Ok?
    ensures RowsFrom(es, n, byId).Ok? ==>
      var rows := RowsFrom(es, n, byId).value;
      |rows| == |es| - n && forall i | n <= i < |es| :: RowError(es[i], byId) == Ok(rows[i - n])
    decreases |es| - n
  {
    if n < |es| {
      RowsMeaning(es, n + 1, byId);
      if RowsFrom(es, n, byId).Ok? {
        var rows, rest := RowsFrom(es, n, byId).value, RowsFrom(es, n + 1, byId).value;
        forall i | n <= i < |es| ensures RowError(es[i], byId) == Ok(rows[i - n]) {
          if i > n { assert rows[i - n] == rest[i - n - 1]; }
        }
      }
    }
  }

  lemma {:induction false} JoinMeaning(lines: seq<Result<string>>, n: nat)
    requires n <= |lines|
    ensures JoinFrom(lines, n).Ok? <==> forall i | n <= i < |lines| :: lines[i].Ok?
    decreases |lines| - n
  {
    if n < |lines| { JoinMeaning(lines, n + 1); }
  }

  lemma {:induction false} ByIdAt(assignments: seq<D.Assignment>, i: nat)
    requires i < |assignments|
    requires forall j, k | 0 <= j < k < |assignments| :: assignments[j].rowId != assignments[k].rowId
    ensures assignments[i].rowId in ById(assignments) && ById(assignments)[assignments[i].rowId] == assignments[i]
  {
    if i < |assignments| - 1 {
      ByIdAt(assignments[..|assignments| - 1], i);
      assert assignments[i].rowId != assignments[|assignments| - 1].rowId;
    }
  }

  ghost predicate IdsDiffer(es: seq<Example>) { forall i, j | 0 <= i < j < |es| :: es[i].feedbackEventId != es[j].feedbackEventId }

  /** The i-th assignment is the one of the i-th example. */
  ghost predicate InStep(es: seq<Example>, assignments: seq<D.Assignment>) {
    |assignments| == |es| && forall i | 0 <= i < |es| :: assignments[i].rowId == es[i].feedbackEventId
  }

  /** The assignments of a plan go with its examples one by one. */
  lemma AssignmentsInStep(es: seq<Example>, policy: D.Policy, hash: D.Hasher)
    requires D.PlanOf(SplitInputs(es), policy, hash).Ok?
    ensures InStep(es, D.PlanOf(SplitInputs(es), policy, hash).value.assignments) && IdsDiffer(es)
  {
    var inputs, assignments := SplitInputs(es), D.PlanOf(SplitInputs(es), policy, hash).value.assignments;
    var rows := DT.PlanAccepts(inputs, policy, hash);
    forall k | 0 <= k < |es| ensures assignments[k].rowId == es[k].feedbackEventId { assert rows[k] == D.RowOf(inputs[k]); }
    forall j, k | 0 <= j < k < |es| ensures es[j].feedbackEventId != es[k].feedbackEventId { assert inputs[j].rowId != inputs[k].rowId; }
  }

  /** The lookup by id finds the assignment of each example. */
  lemma LookupFinds(es: seq<Example>, assignments: seq<D.Assignment>, i: nat)
    requires InStep(es, assignments) && IdsDiffer(es) && i < |es|
    ensures es[i].feedbackEventId in ById(assignments) && ById(assignments)[es[i].feedbackEventId] == assignments[i]
  {
    forall j, k | 0 <= j < k < |assignments| ensures assignments[j].rowId != assignments[k].rowId {
      assert es[j].feedbackEventId != es[k].feedbackEventId;
    }
    ByIdAt(assignments, i);
  }

  ghost predicate HasPlan(sorted: seq<Example>, plan: D.Plan, policy: D.Policy, world: World) {
    && CheckFrom(sorted, 0, NOTHING, world.sha).Ok?
    && D.PlanOf(SplitInputs(Tidied(sorted)), policy, world.hash) == D.Ok(plan)
    && |plan.assignments| == |sorted|
  }

  lemma PlanInStep(sorted: seq<Example>, plan: D.Plan, policy: D.Policy, world: World)
    requires HasPlan(sorted, plan, policy, world)
    ensures InStep(sorted, plan.assignments) && IdsDiffer(sorted)
  {
    AssignmentsInStep(Tidied(sorted), policy, world.hash);
    var es := Tidied(sorted);
    forall i, j | 0 <= i < j < |sorted| ensures sorted[i].feedbackEventId != sorted[j].feedbackEventId {
      assert es[i].feedbackEventId != es[j].feedbackEventId;
    }
    assert forall i | 0 <= i < |sorted| :: es[i].feedbackEventId == sorted[i].feedbackEventId;
  }

  ghost predicate LabelFine(e: Example) { e.Memory? ==> T.Acceptable(e.annotation) }

  /** The i-th row of an artifact: the i-th example in order with the assignment the plan gives it. */
  ghost function RowAt(sorted: seq<Example>, plan: D.Plan, i: nat): Row
    requires i < |sorted| == |plan.assignments|
  {
    RowOf(Tidy(sorted[i]), plan.assignments[i])
  }

  ghost function RowsAt(sorted: seq<Example>, plan: D.Plan): (rows: seq<Row>)
    requires |sorted| == |plan.assignments|
    ensures |rows| == |sorted| && forall i | 0 <= i < |rows| :: rows[i] == RowAt(sorted, plan, i)
  {
    seq(|sorted|, i requires 0 <= i < |sorted| => RowAt(sorted, plan, i))
  }

  lemma RowAtError(sorted: seq<Example>, plan: D.Plan, i: nat)
    requires InStep(sorted, plan.assignments) && IdsDiffer(sorted) && i < |sorted|
    ensures var r := RowError(Tidied(sorted)[i], ById(plan.assignments));
            (r.Ok? <==> LabelFine(sorted[i])) && (r.Ok? ==> r.value == RowAt(sorted, plan, i))
  {
    LookupFinds(sorted, plan.assignments, i);
    var e := sorted[i];
    if e.Memory? { T.FaultMeaning(e.annotation, LABEL_PATH); }
  }

  ghost predicate LabelsFine(sorted: seq<Example>) { forall i | 0 <= i < |sorted| :: LabelFine(sorted[i]) }

  lemma RowsAre(es: seq<Example>, byId: map<string, D.Assignment>, rows: seq<Row>)
    requires |rows| == |es| && forall i | 0 <= i < |es| :: RowError(es[i], byId) == Ok(rows[i])
    ensures RowsFrom(es, 0, byId) == Ok(rows)
  {
    RowsMeaning(es, 0, byId);
    var r := RowsFrom(es, 0, byId).value;
    forall i | 0 <= i < |es| ensures r[i] == rows[i] { assert RowError(es[i], byId) == Ok(r[i - 0]); }
    assert r == rows;
  }

  lemma RowsFail(es: seq<Example>, byId: map<string, D.Assignment>, i: nat)
    requires i < |es| && RowError(es[i], byId).Err?
    ensures RowsFrom(es, 0, byId).Err?
  {
    RowsMeaning(es, 0, byId);
  }

  lemma RowsOfPlan(sorted: seq<Example>, plan: D.Plan)
    requires InStep(sorted, plan.assignments) && IdsDiffer(sorted)
    ensures var r := RowsFrom(Tidied(sorted), 0, ById(plan.assignments));
            if LabelsFine(sorted) then r == Ok(RowsAt(sorted, plan)) else r.Err?
  {
    var es, byId, rows := Tidied(sorted), ById(plan.assignments), RowsAt(sorted, plan);
    if LabelsFine(sorted) {
      forall i | 0 <= i < |es| ensures RowError(es[i], byId) == Ok(rows[i]) {
        assert LabelFine(sorted[i]);
        RowAtError(sorted, plan, i);
      }
      RowsAre(es, byId, rows);
    } else {
      var i: nat :| i < |sorted| && !LabelFine(sorted[i]);
      RowAtError(sorted, plan, i);
      RowsFail(es, byId, i);
    }
  }

  /** With a plan, an artifact fails only on a label that is not JSON or on a row that cannot be written. */
  lemma ArtifactParts(sorted: seq<Example>, plan: D.Plan, policy: D.Policy, world: World)
    requires HasPlan(sorted, plan, policy, world)
    ensures if LabelsFine(sorted) then ArtifactOfSorted(sorted, policy, world) == ArtifactOfRows(RowsAt(sorted, plan), plan, world)
            else ArtifactOfSorted(sorted, policy, world).Err?
  {
    PlanInStep(sorted, plan, policy, world);
    RowsOfPlan(sorted, plan);
  }

  lemma {:induction false} RecordOfTexts(id: string, columns: seq<Column>)
    ensures forall k | k in RecordOf(id, columns).fields :: RecordOf(id, columns).fields[k].Text?
  {
    if columns != [] { RecordOfTexts(id, columns[..|columns| - 1]); }
  }

  lemma TextsAreAcceptable(v: C.Given, last: string)
    requires v.Record? && v.plain && forall k | k in v.fields && k != last :: v.fields[k].Text?
    ensures T.Acceptable(v) <==> (last in v.fields ==> T.Acceptable(C.Field(v, last)))
  {
    forall k | k in v.fields && k != last ensures T.Acceptable(C.Field(v, k)) {}
  }

  /** A row can be written exactly if its label, made canonical, is still JSON. */
  lemma RowAcceptable(row: Row, iso: int -> string)
    ensures T.Acceptable(RowValue(row, iso)) <==> (row.example.Memory? ==> T.Acceptable(row.example.annotation))
  {
    var r := RecordOf(row.example.feedbackEventId, Columns(row, iso));
    RecordOfTexts(row.example.feedbackEventId, Columns(row, iso));
    if row.example.Memory? {
      TextsAreAcceptable(RowValue(row, iso), "label");
    } else {
      forall k | k in r.fields ensures T.Acceptable(C.Field(r, k)) {}
    }
  }

  /** The label is JSON, and none of its prototype fields holds an object. */
  ghost predicate LabelWritable(e: Example) {
    e.Memory? ==> T.Acceptable(e.annotation) && T.NoProtoObject(e.annotation)
  }

  lemma LineWritten(e: Example, a: D.Assignment, iso: int -> string)
    requires LabelFine(e)
    ensures LineOf(RowValue(RowOf(Tidy(e), a), iso)).Ok? <==> LabelWritable(e)
  {
    var row := RowOf(Tidy(e), a);
    RowAcceptable(row, iso);
    T.FaultMeaning(RowValue(row, iso), []);
    if e.Memory? { T.CanonicalTwice(e.annotation); }
  }

  ghost predicate LabelsWritable(sorted: seq<Example>) { forall i | 0 <= i < |sorted| :: LabelWritable(sorted[i]) }

  lemma LinesWritten(sorted: seq<Example>, plan: D.Plan, iso: int -> string)
    requires |sorted| == |plan.assignments| && LabelsFine(sorted)
    ensures JsonlOf(RowValues(RowsAt(sorted, plan), iso)).Ok? <==> LabelsWritable(sorted)
  {
    var values := RowValues(RowsAt(sorted, plan), iso);
    JoinMeaning(Lines(values), 0);
    forall i | 0 <= i < |sorted| ensures Lines(values)[i].Ok? <==> LabelWritable(sorted[i]) {
      assert LabelFine(sorted[i]);
      LineWritten(sorted[i], plan.assignments[i], iso);
    }
  }

  lemma WritableIsFine(sorted: seq<Example>)
    requires LabelsWritable(sorted)
    ensures LabelsFine(sorted)
  {
    forall i | 0 <= i < |sorted| ensures LabelFine(sorted[i]) { assert LabelWritable(sorted[i]); }
  }

  /** With a plan, there is an artifact exactly if every label is JSON without objects in prototype fields. */
  lemma ArtifactIff(sorted: seq<Example>, plan: D.Plan, policy: D.Policy, world: World)
    requires HasPlan(sorted, plan, policy, world)
    ensures ArtifactOfSorted(sorted, policy, world).Ok? <==> LabelsWritable(sorted)
  {
    ArtifactParts(sorted, plan, policy, world);
    if LabelsFine(sorted) { LinesWritten(sorted, plan, world.iso); }
    if LabelsWritable(sorted) { WritableIsFine(sorted); }
  }

  lemma ArtifactHasPlan(sorted: seq<Example>, policy: D.Policy, world: World) returns (plan: D.Plan)
    requires ArtifactOfSorted(sorted, policy, world).Ok?
    ensures HasPlan(sorted, plan, policy, world)
    ensures LabelsFine(sorted)
    ensures ArtifactOfSorted(sorted, policy, world) == ArtifactOfRows(RowsAt(sorted, plan), plan, world)
  {
    var es := Tidied(sorted);
    plan := D.PlanOf(SplitInputs(es), policy, world.hash).value;
    var rows := DT.PlanAccepts(SplitInputs(es), policy, world.hash);
    ArtifactParts(sorted, plan, policy, world);
  }

  // ---- the text tells the rows ----

  predicate IsLine(r: Result<string>) { r.Ok? ==> '\n' !in r.value }

  /** A joined text can be taken apart again. */
  lemma {:induction false} JoinTellsLines(xs: seq<Result<string>>, ys: seq<Result<string>>, n: nat)
    requires n <= |xs| && n <= |ys| && JoinFrom(xs, n).Ok? && JoinFrom(xs, n) == JoinFrom(ys, n)
    requires (forall i | 0 <= i < |xs| :: IsLine(xs[i])) && forall i | 0 <= i < |ys| :: IsLine(ys[i])
    ensures |xs| == |ys| && forall i | n <= i < |xs| :: xs[i] == ys[i]
    decreases |xs| - n
  {
    if n < |xs| && n < |ys| {
      assert IsLine(xs[n]) && IsLine(ys[n]);
      var x, y := JoinFrom(xs, n + 1).value, JoinFrom(ys, n + 1).value;
      J.Assoc(xs[n].value, "\n", x);
      J.Assoc(ys[n].value, "\n", y);
      BreakApart(xs[n].value, ys[n].value, x, y);
      JoinTellsLines(xs, ys, n + 1);
    }
  }

  lemma LineIsLine(v: C.Given)
    ensures IsLine(LineOf(v))
  {
    T.FaultMeaning(v, []);
    if T.Acceptable(v) {
      T.CleanIsJson(v);
      ShowHasNoBreak(C.Clean(v));
    }
  }

  lemma SameLineSameValue(v: C.Given, w: C.Given)
    requires LineOf(v).Ok? && LineOf(v) == LineOf(w)
    ensures Same(v, w, {C.PROTO})
  {
    T.FaultMeaning(v, []);
    T.FaultMeaning(w, []);
    T.TextIffSame(v, w);
  }

  /** Equal texts are texts of equal values. */
  lemma JsonlTellsValues(vs: seq<C.Given>, ws: seq<C.Given>)
    requires JsonlOf(vs).Ok? && JsonlOf(vs) == JsonlOf(ws)
    ensures |vs| == |ws| && forall i | 0 <= i < |vs| :: Same(vs[i], ws[i], {C.PROTO})
  {
    var xs, ys := Lines(vs), Lines(ws);
    forall i | 0 <= i < |xs| ensures IsLine(xs[i]) { LineIsLine(vs[i]); }
    forall i | 0 <= i < |ys| ensures IsLine(ys[i]) { LineIsLine(ws[i]); }
    JoinTellsLines(xs, ys, 0);
    JoinMeaning(xs, 0);
    forall i | 0 <= i < |vs| ensures Same(vs[i], ws[i], {C.PROTO}) {
      assert xs[i].Ok? && xs[i] == ys[i];
      SameLineSameValue(vs[i], ws[i]);
    }
  }

  lemma {:induction false} ColumnStays(id: string, columns: seq<Column>, key: string, n: nat)
    requires n <= |columns| && forall i | n <= i < |columns| :: columns[i].0 != key
    requires key in RecordOf(id, columns[..n]).fields
    ensures key in RecordOf(id, columns).fields && RecordOf(id, columns).fields[key] == RecordOf(id, columns[..n]).fields[key]
    decreases |columns|
  {
    if n == |columns| {
      assert columns[..n] == columns;
    } else {
      assert columns[..|columns| - 1][..n] == columns[..n];
      ColumnStays(id, columns[..|columns| - 1], key, n);
    }
  }

  lemma ColumnAt(id: string, columns: seq<Column>, i: nat)
    requires i < |columns| && forall k | i < k < |columns| :: columns[k].0 != columns[i].0
    ensures columns[i].0 in RecordOf(id, columns).fields && RecordOf(id, columns).fields[columns[i].0] == Text(columns[i].1)
  {
    assert columns[..i + 1][..i] == columns[..i];
    ColumnStays(id, columns, columns[i].0, i + 1);
  }

  lemma IdColumn(id: string, columns: seq<Column>)
    requires forall k | 0 <= k < |columns| :: columns[k].0 != ID
    ensures ID in RecordOf(id, columns).fields && RecordOf(id, columns).fields[ID] == Text(id)
  {
    assert columns[..0] == [];
    ColumnStays(id, columns, ID, 0);
  }

  const ID := "feedbackEventId"
  const SPLIT := "split"
  const GROUP := "splitGroupHash"

  predicate HasText(v: C.Given, key: string, text: string) { v.Record? && key in v.fields && v.fields[key] == Text(text) }

  lemma RowHasColumn(row: Row, iso: int -> string, i: nat)
    requires i < |Columns(row, iso)| && Columns(row, iso)[i].0 != "label"
    requires forall k | i < k < |Columns(row, iso)| :: Columns(row, iso)[k].0 != Columns(row, iso)[i].0
    ensures HasText(RowValue(row, iso), Columns(row, iso)[i].0, Columns(row, iso)[i].1)
  {
    ColumnAt(row.example.feedbackEventId, Columns(row, iso), i);
  }

  lemma RowHasId(row: Row, iso: int -> string)
    ensures HasText(RowValue(row, iso), ID, row.example.feedbackEventId)
  {
    IdColumn(row.example.feedbackEventId, Columns(row, iso));
  }

  /** A row is written with the group and the split that the plan gave it. */
  lemma RowHasSplit(row: Row, iso: int -> string)
    ensures HasText(RowValue(row, iso), GROUP, row.assignment.groupHash)
    ensures HasText(RowValue(row, iso), SPLIT, SplitName(row.assignment.split))
  {
    assert Columns(row, iso)[5] == (GROUP, row.assignment.groupHash);
    assert Columns(row, iso)[6] == (SPLIT, SplitName(row.assignment.split));
    RowHasColumn(row, iso, 5);
    RowHasColumn(row, iso, 6);
  }

  ghost predicate SamePlace(a: Row, b: Row) {
    && a.example.feedbackEventId == b.example.feedbackEventId
    && a.assignment.groupHash == b.assignment.groupHash && a.assignment.split == b.assignment.split
  }

  lemma SameText(v: C.Given, w: C.Given, key: string, s: string, t: string)
    requires Same(v, w, {C.PROTO}) && key != C.PROTO && HasText(v, key, s) && HasText(w, key, t)
    ensures s == t
  {
    assert Same(v.fields[key], w.fields[key], {C.PROTO});
  }

  lemma SameValueSamePlace(a: Row, b: Row, iso: int -> string)
    requires Same(RowValue(a, iso), RowValue(b, iso), {C.PROTO})
    ensures SamePlace(a, b)
  {
    RowHasId(a, iso);
    RowHasId(b, iso);
    RowHasSplit(a, iso);
    RowHasSplit(b, iso);
    var v, w := RowValue(a, iso), RowValue(b, iso);
    SameText(v, w, ID, a.example.feedbackEventId, b.example.feedbackEventId);
    SameText(v, w, GROUP, a.assignment.groupHash, b.assignment.groupHash);
    SameText(v, w, SPLIT, SplitName(a.assignment.split), SplitName(b.assignment.split));
    NamesDiffer(a.assignment.split, b.assignment.split);
  }

  lemma NamesDiffer(s: D.Split, t: D.Split)
    requires SplitName(s) == SplitName(t)
    ensures s == t
  {
    assert SplitName(s)[1] == SplitName(t)[1] && SplitName(s)[0] == SplitName(t)[0];
  }

  /** Artifacts with one text have the same examples in the same order, in the same groups and splits. */
  lemma TextTellsRows(xs: seq<Row>, ys: seq<Row>, vs: seq<C.Given>, ws: seq<C.Given>, iso: int -> string)
    requires vs == RowValues(xs, iso) && ws == RowValues(ys, iso) && JsonlOf(vs).Ok? && JsonlOf(vs) == JsonlOf(ws)
    ensures |xs| == |ys| && forall i | 0 <= i < |xs| :: SamePlace(xs[i], ys[i])
  {
    JsonlTellsValues(vs, ws);
    forall i | 0 <= i < |xs| ensures SamePlace(xs[i], ys[i]) {
      assert Same(vs[i], ws[i], {C.PROTO});
      SameValueSamePlace(xs[i], ys[i], iso);
    }
  }

  // ---- the order of the input ----

  /** If the collation tells all ids apart, the order of the input makes no difference, not even to a refusal. */
  lemma ArtifactIgnoresOrder(inputs: seq<Example>, moved: seq<Example>, policy: D.Policy, world: World)
    requires IsPreorder(world.leq) && multiset(inputs) == multiset(moved) && NoTies(inputs, IdOrder(world.leq))
    ensures ArtifactOf(moved, policy, world) == ArtifactOf(inputs, policy, world)
  {
    assert |inputs| == |multiset(inputs)| == |moved|;
    IdOrderIsPreorder(world.leq);
    SortForgetsOrder(inputs, moved, IdOrder(world.leq));
  }

  /** Where the other list has an element. */
  lemma {:induction false} Places<T>(xs: seq<T>, ys: seq<T>) returns (perm: seq<int>)
    requires forall y :: y in ys ==> y in xs
    ensures |perm| == |ys| && forall i | 0 <= i < |ys| :: 0 <= perm[i] < |xs| && xs[perm[i]] == ys[i]
  {
    if ys == [] {
      perm := [];
    } else {
      var front := Places(xs, ys[..|ys| - 1]);
      assert ys[|ys| - 1] in xs;
      var k :| 0 <= k < |xs| && xs[k] == ys[|ys| - 1];
      perm := front + [k];
    }
  }

  lemma Permutation<T>(xs: seq<T>, ys: seq<T>) returns (perm: seq<int>, inv: seq<int>)
    requires Distinct(xs) && multiset(xs) == multiset(ys)
    ensures Moved(xs, ys, perm, inv)
  {
    assert |xs| == |multiset(xs)| == |ys|;
    DistinctMultiset(xs);
    DistinctMultiset(ys);
    forall x ensures x in xs <==> x in ys { assert x in multiset(xs) <==> x in multiset(ys); }
    perm := Places(xs, ys);
    inv := Places(ys, xs);
    forall i | 0 <= i < |xs| ensures inv[perm[i]] == i && perm[inv[i]] == i {
      assert ys[inv[perm[i]]] == xs[perm[i]] == ys[i];
      assert xs[perm[inv[i]]] == ys[inv[i]] == xs[i];
    }
  }

  ghost predicate AllCompatible(es: seq<Example>) { forall i, j | 0 <= i < j < |es| :: Compatible(es[i], es[j]) }

  ghost predicate AllSound(es: seq<Example>, sha: string -> string) { forall e | e in es :: Sound(e, sha) }

  lemma CheckIff(es: seq<Example>, sha: string -> string)
    ensures CheckFrom(es, 0, NOTHING, sha).Ok? <==> AllSound(es, sha) && AllCompatible(es)
  {
    CheckMeaning(es, 0, NOTHING, sha);
    forall i | 0 <= i < |es| ensures Unseen(es[i], NOTHING) {}
    if AllSound(es, sha) { forall i | 0 <= i < |es| ensures Sound(es[i], sha) { assert es[i] in es; } }
  }

  lemma CompatibleMembers(es: seq<Example>)
    ensures AllCompatible(es) <==> Distinct(es) && forall a, b | a in es && b in es && a != b :: Compatible(a, b)
  {
    if AllCompatible(es) {
      forall i, j | 0 <= i < j < |es| ensures es[i] != es[j] { assert Compatible(es[i], es[j]); }
      forall a, b | a in es && b in es && a != b ensures Compatible(a, b) {
        var i, j :| 0 <= i < |es| && 0 <= j < |es| && es[i] == a && es[j] == b;
        if i < j { assert Compatible(es[i], es[j]); } else { assert Compatible(es[j], es[i]); }
      }
    }
    if Distinct(es) && forall a, b | a in es && b in es && a != b :: Compatible(a, b) {
      forall i, j | 0 <= i < j < |es| ensures Compatible(es[i], es[j]) { assert es[i] in es && es[j] in es; }
    }
  }

  /** Whether examples pass does not depend on their order. */
  lemma CheckMoved(xs: seq<Example>, ys: seq<Example>, sha: string -> string)
    requires multiset(xs) == multiset(ys) && CheckFrom(xs, 0, NOTHING, sha).Ok?
    ensures CheckFrom(ys, 0, NOTHING, sha).Ok?
  {
    CheckIff(xs, sha);
    CheckIff(ys, sha);
    CompatibleMembers(xs);
    CompatibleMembers(ys);
    DistinctMultiset(xs);
    DistinctMultiset(ys);
    forall x ensures x in xs <==> x in ys { assert x in multiset(xs) <==> x in multiset(ys); }
  }

  // ---- rows keep their place in any order ----

  lemma PlanMoved(xs: seq<Example>, ys: seq<Example>, perm: seq<int>, inv: seq<int>, plan: D.Plan, policy: D.Policy, world: World)
    returns (moved: D.Plan)
    requires HasPlan(xs, plan, policy, world) && multiset(xs) == multiset(ys)
    requires Moved(xs, ys, perm, inv)
    ensures HasPlan(ys, moved, policy, world) && moved.policy == plan.policy && moved.audit == plan.audit
    ensures forall i | 0 <= i < |ys| :: moved.assignments[i] == plan.assignments[perm[i]]
  {
    CheckMoved(xs, ys, world.sha);
    var a, b := SplitInputs(Tidied(xs)), SplitInputs(Tidied(ys));
    forall i | 0 <= i < |b| ensures DT.SameInput(b[i], a[perm[i]]) { assert ys[i] == xs[perm[i]]; }
    DT.PlanIgnoresOrder(a, b, perm, inv, policy, world.hash);
    moved := D.PlanOf(b, policy, world.hash).value;
  }

  ghost predicate Moved<T>(xs: seq<T>, ys: seq<T>, perm: seq<int>, inv: seq<int>) {
    |xs| == |ys| && DT.Inverses(perm, inv, |xs|) && forall i | 0 <= i < |ys| :: ys[i] == xs[perm[i]]
  }

  lemma MovedMultiset<T>(xs: seq<T>, ys: seq<T>, perm: seq<int>, inv: seq<int>)
    requires Distinct(xs) && Moved(xs, ys, perm, inv)
    ensures multiset(xs) == multiset(ys)
  {
    forall i, j | 0 <= i < j < |ys| ensures ys[i] != ys[j] { assert inv[perm[i]] == i && inv[perm[j]] == j; }
    forall x ensures x in xs <==> x in ys {
      if x in xs {
        var i :| 0 <= i < |xs| && xs[i] == x;
        assert ys[inv[i]] == x;
      }
    }
    SameMembers(xs, ys);
  }

  lemma RemovedFront(rows: seq<Row>, k: nat)
    requires k + 1 < |rows|
    ensures var rest, n := rows[..k] + rows[k + 1..], |rows| - 1;
            rest != [] && rest[|rest| - 1] == rows[n] && rest[..|rest| - 1] == rows[..n][..k] + rows[..n][k + 1..]
  {
  }

  lemma {:induction false} CountRemove(rows: seq<Row>, k: nat, s: D.Split)
    requires k < |rows|
    ensures CountSplit(rows, s) == CountSplit(rows[..k] + rows[k + 1..], s) + if rows[k].assignment.split == s then 1 else 0
  {
    var n := |rows| - 1;
    if k < n {
      CountRemove(rows[..n], k, s);
      RemovedFront(rows, k);
    } else {
      assert rows[..k] + rows[k + 1..] == rows[..n];
    }
  }

  lemma {:induction false} CountByMultiset(xs: seq<Row>, ys: seq<Row>, s: D.Split)
    requires multiset(xs) == multiset(ys)
    ensures CountSplit(xs, s) == CountSplit(ys, s)
    decreases |xs|
  {
    assert |xs| == |multiset(xs)| == |ys|;
    if xs != [] {
      var last := xs[|xs| - 1];
      assert last in multiset(ys);
      var k :| 0 <= k < |ys| && ys[k] == last;
      FrontMultiset(xs);
      RemovedMultiset(ys, k);
      CountByMultiset(xs[..|xs| - 1], ys[..k] + ys[k + 1..], s);
      CountRemove(ys, k, s);
    }
  }

  lemma MovedLines(xs: seq<C.Given>, ys: seq<C.Given>, perm: seq<int>, inv: seq<int>)
    requires Moved(xs, ys, perm, inv) && JsonlOf(xs).Ok?
    ensures JsonlOf(ys).Ok?
  {
    var lines, moved := Lines(xs), Lines(ys);
    JoinMeaning(lines, 0);
    JoinMeaning(moved, 0);
    forall i | 0 <= i < |ys| ensures moved[i].Ok? { assert moved[i] == lines[perm[i]]; }
  }

  lemma RowsMoved(xs: seq<Example>, ys: seq<Example>, plan: D.Plan, moved: D.Plan, perm: seq<int>, inv: seq<int>)
    requires Moved(xs, ys, perm, inv) && |plan.assignments| == |moved.assignments| == |xs|
    requires forall i | 0 <= i < |ys| :: moved.assignments[i] == plan.assignments[perm[i]]
    ensures Moved(RowsAt(xs, plan), RowsAt(ys, moved), perm, inv)
  {
  }

  lemma RowsDistinct(sorted: seq<Example>, plan: D.Plan)
    requires |sorted| == |plan.assignments| && IdsDiffer(sorted)
    ensures Distinct(RowsAt(sorted, plan)) && Distinct(sorted)
    ensures forall i | 0 <= i < |sorted| :: RowsAt(sorted, plan)[i].example.feedbackEventId == sorted[i].feedbackEventId
  {
    var rows := RowsAt(sorted, plan);
    assert forall i | 0 <= i < |sorted| :: rows[i].example.feedbackEventId == sorted[i].feedbackEventId;
    forall i, j | 0 <= i < j < |sorted| ensures sorted[i] != sorted[j] && rows[i] != rows[j] {
      assert sorted[i].feedbackEventId != sorted[j].feedbackEventId;
    }
  }

  /** In any order the same rows come out, each in its group and split, with the same counts, policy and audit. */
  lemma RowsIgnoreOrder(inputs: seq<Example>, moved: seq<Example>, policy: D.Policy, world: World)
    requires IsPreorder(world.leq) && multiset(inputs) == multiset(moved) && ArtifactOf(inputs, policy, world).Ok?
    ensures ArtifactOf(moved, policy, world).Ok?
    ensures var a, b := ArtifactOf(inputs, policy, world).value, ArtifactOf(moved, policy, world).value;
      && multiset(b.rows) == multiset(a.rows) && b.splitCounts == a.splitCounts
      && b.splitPolicy == a.splitPolicy && b.leakageAudit == a.leakageAudit
  {
    var s, t := SortBy(inputs, IdOrder(world.leq)), SortBy(moved, IdOrder(world.leq));
    IdOrderIsPreorder(world.leq);
    SortMeaning(inputs, IdOrder(world.leq));
    SortMeaning(moved, IdOrder(world.leq));
    assert |inputs| == |multiset(inputs)| == |moved|;
    SortedIgnoresOrder(s, t, policy, world);
  }

  lemma SortedIgnoresOrder(s: seq<Example>, t: seq<Example>, policy: D.Policy, world: World)
    requires multiset(s) == multiset(t) && ArtifactOfSorted(s, policy, world).Ok?
    ensures ArtifactOfSorted(t, policy, world).Ok?
    ensures var a, b := ArtifactOfSorted(s, policy, world).value, ArtifactOfSorted(t, policy, world).value;
      && multiset(b.rows) == multiset(a.rows) && b.splitCounts == a.splitCounts
      && b.splitPolicy == a.splitPolicy && b.leakageAudit == a.leakageAudit
  {
    var plan := ArtifactHasPlan(s, policy, world);
    PlanInStep(s, plan, policy, world);
    RowsDistinct(s, plan);
    var perm, inv := Permutation(s, t);
    var planT := PlanMoved(s, t, perm, inv, plan, policy, world);
    var xs, ys := RowsAt(s, plan), RowsAt(t, planT);
    RowsMoved(s, t, plan, planT, perm, inv);
    MovedMultiset(xs, ys, perm, inv);
    MovedLines(RowValues(xs, world.iso), RowValues(ys, world.iso), perm, inv);
    CountByMultiset(xs, ys, D.Train);
    CountByMultiset(xs, ys, D.Validation);
    CountByMultiset(xs, ys, D.Test);
    forall i | 0 <= i < |t| ensures LabelFine(t[i]) { assert LabelFine(s[perm[i]]); }
    ArtifactParts(t, planT, policy, world);
  }

  ghost predicate SameJsonl(inputs: seq<Example>, moved: seq<Example>, policy: D.Policy, world: World)
    requires ArtifactOf(inputs, policy, world).Ok?
  {
    ArtifactOf(moved, policy, world).Ok? &&
    ArtifactOf(moved, policy, world).value.jsonl == ArtifactOf(inputs, policy, world).value.jsonl
  }

  /** Two sorted lists with one text have the same ids, place by place. */
  lemma SameTextSameIds(s: seq<Example>, t: seq<Example>, policy: D.Policy, world: World)
    requires ArtifactOfSorted(s, policy, world).Ok? && ArtifactOfSorted(t, policy, world).Ok?
    requires ArtifactOfSorted(s, policy, world).value.jsonl == ArtifactOfSorted(t, policy, world).value.jsonl
    ensures IdsDiffer(s) && |s| == |t| && forall i | 0 <= i < |s| :: s[i].feedbackEventId == t[i].feedbackEventId
  {
    var p := ArtifactHasPlan(s, policy, world);
    var q := ArtifactHasPlan(t, policy, world);
    PlanInStep(s, p, policy, world);
    PlanInStep(t, q, policy, world);
    SameRowsSameIds(s, t, p, q, world.iso);
  }

  lemma SameRowsSameIds(s: seq<Example>, t: seq<Example>, p: D.Plan, q: D.Plan, iso: int -> string)
    requires |s| == |p.assignments| && |t| == |q.assignments| && IdsDiffer(s) && IdsDiffer(t)
    requires JsonlOf(RowValues(RowsAt(s, p), iso)).Ok? && JsonlOf(RowValues(RowsAt(s, p), iso)) == JsonlOf(RowValues(RowsAt(t, q), iso))
    ensures |s| == |t| && forall i | 0 <= i < |s| :: s[i].feedbackEventId == t[i].feedbackEventId
  {
    var xs, ys := RowsAt(s, p), RowsAt(t, q);
    RowsDistinct(s, p);
    RowsDistinct(t, q);
    TextTellsRows(xs, ys, RowValues(xs, iso), RowValues(ys, iso), iso);
    forall i | 0 <= i < |s| ensures s[i].feedbackEventId == t[i].feedbackEventId { assert SamePlace(xs[i], ys[i]); }
  }

  lemma OnePlace(s: seq<Example>, i: int, j: int)
    requires IdsDiffer(s) && 0 <= i < |s| && 0 <= j < |s| && s[i].feedbackEventId == s[j].feedbackEventId
    ensures i == j
  {
  }

  lemma OppositeOrders(s: seq<Example>, t: seq<Example>, a: Example, b: Example)
    requires IdsDiffer(s) && |s| == |t| && forall i | 0 <= i < |s| :: s[i].feedbackEventId == t[i].feedbackEventId
    ensures !(Before(s, a, b) && Before(t, b, a))
  {
    if Before(s, a, b) && Before(t, b, a) {
      var i, j :| 0 <= i < j < |s| && s[i] == a && s[j] == b;
      var k, l :| 0 <= k < l < |t| && t[k] == b && t[l] == a;
      OnePlace(s, l, i);
      OnePlace(s, k, j);
    }
  }

  /** The text is the same for every order of the input exactly when the collation tells all ids apart. */
  lemma TextIgnoresOrderIff(inputs: seq<Example>, policy: D.Policy, world: World)
    requires IsPreorder(world.leq) && ArtifactOf(inputs, policy, world).Ok?
    ensures (forall moved | multiset(moved) == multiset(inputs) :: SameJsonl(inputs, moved, policy, world)) <==> NoTies(inputs, IdOrder(world.leq))
  {
    if NoTies(inputs, IdOrder(world.leq)) {
      forall moved | multiset(moved) == multiset(inputs) ensures SameJsonl(inputs, moved, policy, world) {
        ArtifactIgnoresOrder(inputs, moved, policy, world);
      }
    } else {
      IdOrderIsPreorder(world.leq);
      var back := Reversed(inputs);
      ReversedMultiset(inputs);
      var a, b := TiesShowOrder(inputs, IdOrder(world.leq));
      if SameJsonl(inputs, back, policy, world) {
        SameTextSameIds(SortBy(inputs, IdOrder(world.leq)), SortBy(back, IdOrder(world.leq)), policy, world);
        OppositeOrders(SortBy(inputs, IdOrder(world.leq)), SortBy(back, IdOrder(world.leq)), a, b);
      }
    }
  }

  // ---- groups and counts ----

  ghost function GroupKeys(e: Example): set<string> { Elems([SplitInput(e).groupKey] + SplitInput(e).related) }

  /** Rows that share a group key (a target, a query or a source) are in one group and one split. */
  lemma GroupsStayTogether(inputs: seq<Example>, policy: D.Policy, world: World, i: nat, j: nat, g: string)
    requires ArtifactOf(inputs, policy, world).Ok?
    requires var rows := ArtifactOf(inputs, policy, world).value.rows;
             i < |rows| && j < |rows| && g in GroupKeys(rows[i].example) && g in GroupKeys(rows[j].example)
    ensures var rows := ArtifactOf(inputs, policy, world).value.rows;
            rows[i].assignment.split == rows[j].assignment.split && rows[i].assignment.groupHash == rows[j].assignment.groupHash
  {
    var sorted := SortBy(inputs, IdOrder(world.leq));
    var plan := ArtifactHasPlan(sorted, policy, world);
    RowGroupKeys(sorted, plan, i);
    RowGroupKeys(sorted, plan, j);
    SharedKeyConnects(SplitInputs(Tidied(sorted)), policy, world.hash, i, j, g);
    DT.ConnectedRowsShareSplit(SplitInputs(Tidied(sorted)), policy, world.hash, i, j);
  }

  lemma RowGroupKeys(sorted: seq<Example>, plan: D.Plan, i: nat)
    requires i < |sorted| == |plan.assignments|
    ensures RowsAt(sorted, plan)[i].assignment == plan.assignments[i]
    ensures var input := SplitInputs(Tidied(sorted))[i];
            GroupKeys(RowsAt(sorted, plan)[i].example) == Elems([input.groupKey] + input.related)
  {
  }

  lemma SharedKeyConnects(inputs: seq<D.Input>, policy: D.Policy, hash: D.Hasher, i: nat, j: nat, g: string)
    requires D.PlanOf(inputs, policy, hash).Ok? && i < |inputs| && j < |inputs|
    requires g in Elems([inputs[i].groupKey] + inputs[i].related) && g in Elems([inputs[j].groupKey] + inputs[j].related)
    ensures D.Normalize(inputs, {}).Ok? ==> Components.Connected(D.Normalize(inputs, {}).value, i, j)
  {
    var rows := DT.PlanAccepts(inputs, policy, hash);
    D.NormalizeMeaning(inputs, {});
    var normalized := D.Normalize(inputs, {}).value;
    assert normalized[i] == D.RowOf(inputs[i]) && normalized[j] == D.RowOf(inputs[j]);
    assert g in Elems(D.KeysOf(inputs[i])) && g in Elems(D.KeysOf(inputs[j]));
    Components.ConnectedByKey(normalized, i, j, g);
  }

  lemma {:induction false} CountsCover(rows: seq<Row>)
    ensures var c := CountsOf(rows); c.train + c.validation + c.test == |rows|
  {
    if rows != [] { CountsCover(rows[..|rows| - 1]); }
  }

  lemma RowsCover(inputs: seq<Example>, sorted: seq<Example>, plan: D.Plan)
    requires multiset(sorted) == multiset(inputs) && InStep(sorted, plan.assignments)
    ensures var rows := RowsAt(sorted, plan);
      && |rows| == |inputs|
      && (forall e | e in inputs :: exists k :: 0 <= k < |rows| && rows[k].example.feedbackEventId == e.feedbackEventId)
      && forall k | 0 <= k < |rows| :: rows[k].assignment.rowId == rows[k].example.feedbackEventId
  {
    var rows := RowsAt(sorted, plan);
    assert |sorted| == |multiset(sorted)| == |inputs|;
    forall e | e in inputs ensures exists k :: 0 <= k < |rows| && rows[k].example.feedbackEventId == e.feedbackEventId {
      assert e in multiset(sorted);
      var k :| 0 <= k < |sorted| && sorted[k] == e;
      assert rows[k].example.feedbackEventId == e.feedbackEventId;
    }
  }

  /** Every accepted example is a row of exactly one split, and nothing else is. */
  lemma ArtifactIsComplete(inputs: seq<Example>, policy: D.Policy, world: World)
    requires IsPreorder(world.leq) && ArtifactOf(inputs, policy, world).Ok?
    ensures var a := ArtifactOf(inputs, policy, world).value;
      && |a.rows| == |inputs| == a.splitCounts.train + a.splitCounts.validation + a.splitCounts.test
      && a.leakageAudit.Passed()
      && (forall e | e in inputs :: exists k :: 0 <= k < |a.rows| && a.rows[k].example.feedbackEventId == e.feedbackEventId)
      && forall k | 0 <= k < |a.rows| :: a.rows[k].assignment.rowId == a.rows[k].example.feedbackEventId
  {
    var sorted := SortBy(inputs, IdOrder(world.leq));
    IdOrderIsPreorder(world.leq);
    SortMeaning(inputs, IdOrder(world.leq));
    var plan := ArtifactHasPlan(sorted, policy, world);
    PlanInStep(sorted, plan, policy, world);
    RowsCover(inputs, sorted, plan);
    CountsCover(RowsAt(sorted, plan));
    var _ := DT.PlanAccepts(SplitInputs(Tidied(sorted)), policy, world.hash);
  }

  // ---- ids that tie ----

  lemma PlannedMerchantsBuild(sorted: seq<Example>, plan: D.Plan, policy: D.Policy, world: World)
    requires HasPlan(sorted, plan, policy, world) && forall e | e in sorted :: e.Merchant?
    ensures ArtifactOfSorted(sorted, policy, world).Ok?
  {
    ArtifactIff(sorted, plan, policy, world);
    forall i | 0 <= i < |sorted| ensures LabelWritable(sorted[i]) { assert sorted[i] in sorted; }
  }

  const TIED_POLICY: D.Policy := D.GroupHash("seed", D.ALL_BASIS_POINTS, 0, 0)

  function TiedExample(id: string): Example { Merchant(id, id, D.At(0), "v", "gold", "r", "p", "c", "s") }

  function TiedPair(a: string, b: string): (r: seq<Example>)
    ensures r == [TiedExample(a), TiedExample(b)]
  {
    [TiedExample(a), TiedExample(b)]
  }

  lemma TiedPairPasses(a: string, b: string, sha: string -> string)
    requires !Blank(a) && !Blank(b) && a != b
    ensures CheckFrom(TiedPair(a, b), 0, NOTHING, sha).Ok?
  {
    CheckIff(TiedPair(a, b), sha);
    assert "p"[0] == 'p' && "s"[0] == 's';
    TrimKeeps("p");
    TrimKeeps("s");
    assert Filled(TiedExample(a)) && Filled(TiedExample(b));
  }

  lemma TrimKeeps(s: string)
    requires |s| == 1 && !IsWhitespace(s[0])
    ensures Trim(s) == s
  {
  }

  lemma TiedPairHasPlan(a: string, b: string, world: World) returns (plan: D.Plan)
    requires !Blank(a) && !Blank(b) && a != b
    ensures HasPlan(TiedPair(a, b), plan, TIED_POLICY, world)
  {
    var es := Tidied(TiedPair(a, b));
    assert !Blank("seed") by { assert "seed"[0] == 's'; }
    TiedPairPasses(a, b, world.sha);
    TiedInputs(a, b);
    DT.TrainOnlyPlan(SplitInputs(es), "seed", world.hash);
    plan := D.PlanOf(SplitInputs(es), TIED_POLICY, world.hash).value;
    AssignmentsInStep(es, TIED_POLICY, world.hash);
  }

  lemma TiedKeys(input: D.Input)
    requires input.related == [] && !Blank(input.groupKey)
    ensures forall k | k in D.KeysOf(input) :: !Blank(k)
  {
    assert [input.groupKey] + input.related == [input.groupKey];
    forall k | k in D.KeysOf(input) ensures k == input.groupKey { assert k in Elems(D.KeysOf(input)); }
  }

  lemma TiedInputs(a: string, b: string)
    requires !Blank(a) && !Blank(b) && a != b
    ensures D.Acceptable(SplitInputs(Tidied(TiedPair(a, b))))
  {
    var inputs := SplitInputs(Tidied(TiedPair(a, b)));
    assert inputs == [SplitInput(Tidy(TiedExample(a))), SplitInput(Tidy(TiedExample(b)))];
    forall i | 0 <= i < 2 ensures D.Identified(inputs[i]) && D.ValidTimestamp(inputs[i].occurredAt) { TiedKeys(inputs[i]); }
  }

  lemma TiedPairBuilds(a: string, b: string, world: World)
    requires !Blank(a) && !Blank(b) && a != b && world.leq(a, b)
    ensures ArtifactOf(TiedPair(a, b), TIED_POLICY, world) == ArtifactOfSorted(TiedPair(a, b), TIED_POLICY, world)
    ensures ArtifactOfSorted(TiedPair(a, b), TIED_POLICY, world).Ok?
  {
    TiedStay(TiedExample(a), TiedExample(b), world.leq);
    var plan := TiedPairHasPlan(a, b, world);
    PlannedMerchantsBuild(TiedPair(a, b), plan, TIED_POLICY, world);
  }

  lemma TiedPairsDiffer(a: string, b: string, world: World)
    requires !Blank(a) && !Blank(b) && a != b && world.leq(a, b) && world.leq(b, a)
    ensures ArtifactOf(TiedPair(a, b), TIED_POLICY, world).Ok? && ArtifactOf(TiedPair(b, a), TIED_POLICY, world).Ok?
    ensures ArtifactOf(TiedPair(a, b), TIED_POLICY, world).value.jsonl != ArtifactOf(TiedPair(b, a), TIED_POLICY, world).value.jsonl
  {
    TiedPairBuilds(a, b, world);
    TiedPairBuilds(b, a, world);
    var x, y := ArtifactOfSorted(TiedPair(a, b), TIED_POLICY, world), ArtifactOfSorted(TiedPair(b, a), TIED_POLICY, world);
    assert TiedPair(a, b)[0].feedbackEventId != TiedPair(b, a)[0].feedbackEventId;
    if x.value.jsonl == y.value.jsonl { SameTextSameIds(TiedPair(a, b), TiedPair(b, a), TIED_POLICY, world); }
  }

  /** It happens in every world whose locale takes two ids for equal: the text follows the order of the input. */
  lemma TextDependsOnOrder(a: string, b: string, world: World) returns (inputs: seq<Example>, moved: seq<Example>, policy: D.Policy)
    requires !Blank(a) && !Blank(b) && a != b && world.leq(a, b) && world.leq(b, a)
    ensures |inputs| == 2 && inputs[0].feedbackEventId == a && inputs[1].feedbackEventId == b && moved == [inputs[1], inputs[0]]
    ensures ArtifactOf(inputs, policy, world).Ok? && ArtifactOf(moved, policy, world).Ok?
    ensures ArtifactOf(inputs, policy, world).value.jsonl != ArtifactOf(moved, policy, world).value.jsonl
  {
    inputs, moved, policy := TiedPair(a, b), TiedPair(b, a), TIED_POLICY;
    TiedPairsDiffer(a, b, world);
  }

  lemma TiedStay(x: Example, y: Example, leq: (string, string) -> bool)
    requires leq(x.feedbackEventId, y.feedbackEventId)
    ensures SortBy([x, y], IdOrder(leq)) == [x, y]
  {
    PairStays(x, y, IdOrder(leq));
  }
}
