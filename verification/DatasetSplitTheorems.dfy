/** What the split promises: a sound audit, a clean holdout, and independence from input order. */
module DatasetSplitTheorems {
  import opened Strings
  import opened Components
  import opened DatasetSplit

  // ---- what a passed audit means, for any stored rows ----

  ghost predicate OneSplitPerGroup(rows: seq<Assignment>) {
    forall r, s | r in rows && s in rows && r.groupHash == s.groupHash :: r.split == s.split
  }

  ghost predicate OneSplitPerTarget(rows: seq<Assignment>) {
    forall r, s | r in rows && s in rows && r.targetId == s.targetId :: r.split == s.split
  }

  ghost predicate AllTimely(rows: seq<Assignment>, policy: Resolved) {
    policy.TimePolicy? ==> forall r | r in rows :: Timely(rows, r, policy)
  }

  ghost predicate AllAuditable(rows: seq<Assignment>) {
    forall r | r in rows :: AuditableRow(r) && ValidTimestamp(r.occurredAt)
  }

  lemma AtMostOne<T>(s: set<T>)
    ensures |s| <= 1 <==> forall x, y | x in s && y in s :: x == y
  {
    if s != {} {
      var x :| x in s;
      var rest := s - {x};
      assert |rest| == |s| - 1;
      if rest != {} {
        var y :| y in rest;
        assert x in s && y in s && x != y;
      } else {
        assert s == {x};
      }
    }
  }

  lemma GroupOverlapMeaning(rows: seq<Assignment>)
    ensures |set h | h in Hashes(rows) && |GroupSplits(rows, h)| > 1| == 0 <==> OneSplitPerGroup(rows)
  {
    var bad := set h | h in Hashes(rows) && |GroupSplits(rows, h)| > 1;
    if OneSplitPerGroup(rows) {
      forall h | h in Hashes(rows) ensures |GroupSplits(rows, h)| <= 1 { AtMostOne(GroupSplits(rows, h)); }
      assert bad == {};
    }
    if |bad| == 0 {
      forall r, s | r in rows && s in rows && r.groupHash == s.groupHash ensures r.split == s.split {
        assert r.groupHash !in bad;
        AtMostOne(GroupSplits(rows, r.groupHash));
        assert r.split in GroupSplits(rows, r.groupHash) && s.split in GroupSplits(rows, r.groupHash);
      }
    }
  }

  lemma TargetOverlapMeaning(rows: seq<Assignment>)
    ensures |set t | t in Targets(rows) && |TargetSplits(rows, t)| > 1| == 0 <==> OneSplitPerTarget(rows)
  {
    var bad := set t | t in Targets(rows) && |TargetSplits(rows, t)| > 1;
    if OneSplitPerTarget(rows) {
      forall t | t in Targets(rows) ensures |TargetSplits(rows, t)| <= 1 { AtMostOne(TargetSplits(rows, t)); }
      assert bad == {};
    }
    if |bad| == 0 {
      forall r, s | r in rows && s in rows && r.targetId == s.targetId ensures r.split == s.split {
        assert r.targetId !in bad;
        AtMostOne(TargetSplits(rows, r.targetId));
        assert r.split in TargetSplits(rows, r.targetId) && s.split in TargetSplits(rows, r.targetId);
      }
    }
  }

  lemma {:induction false} UntimelyMeaning(rows: seq<Assignment>, n: nat, policy: Resolved)
    requires policy.TimePolicy? && n <= |rows|
    ensures Untimely(rows, n, policy) == 0 <==> forall i | 0 <= i < n :: Timely(rows, rows[i], policy)
  {
    if n > 0 { UntimelyMeaning(rows, n - 1, policy); }
  }

  lemma {:induction false} AuditErrorMeaning(rows: seq<Assignment>)
    ensures AuditError(rows).Ok? <==> AllAuditable(rows)
  {
    if rows != [] {
      AuditErrorMeaning(rows[1..]);
      assert forall r :: r in rows <==> r == rows[0] || r in rows[1..];
    }
  }

  lemma CountsPassIff(rows: seq<Assignment>, policy: Resolved)
    ensures AuditCounts(rows, policy).Passed() <==> OneSplitPerGroup(rows) && OneSplitPerTarget(rows) && AllTimely(rows, policy)
  {
    GroupOverlapMeaning(rows);
    TargetOverlapMeaning(rows);
    if policy.TimePolicy? { UntimelyMeaning(rows, |rows|, policy); }
  }

  /** Audit soundness and completeness, for any stored rows whatever produced them. */
  lemma AuditPassedIff(rows: seq<Assignment>, policy: Resolved)
    ensures (AuditOf(rows, policy).Ok? && AuditOf(rows, policy).value.Passed()) <==>
      (AllAuditable(rows) && OneSplitPerGroup(rows) && OneSplitPerTarget(rows) && AllTimely(rows, policy))
  {
    AuditErrorMeaning(rows);
    CountsPassIff(rows, policy);
  }

  // ---- the plan's own assignments ----

  lemma AcceptedRows(inputs: seq<Input>) returns (rows: seq<Row>)
    requires Acceptable(inputs)
    ensures Normalize(inputs, {}) == Ok(rows) && |rows| == |inputs| && WellFormed(rows)
    ensures forall i | 0 <= i < |rows| :: ValidTimestamp(inputs[i].occurredAt) && rows[i] == RowOf(inputs[i])
  {
    NormalizeMeaning(inputs, {});
    rows := Normalize(inputs, {}).value;
  }

  /** The digest tells the groups of these rows apart. Nothing is asked of it elsewhere. */
  ghost predicate TellsApart(rows: seq<Row>, seed: string, hash: Hasher) {
    forall i, j | 0 <= i < |rows| && 0 <= j < |rows| && ComponentKey(rows, i) != ComponentKey(rows, j) ::
      hash(seed, ComponentKey(rows, i)) != hash(seed, ComponentKey(rows, j))
  }

  /** There are digests that tell two groups apart. */
  lemma SomeHasherTellsApart(rows: seq<Row>, seed: string, i: int, j: int) returns (hash: Hasher)
    requires WellFormed(rows) && 0 <= i < |rows| && 0 <= j < |rows| && !Connected(rows, i, j)
    requires forall k | 0 <= k < |rows| :: Connected(rows, i, k) || Connected(rows, j, k)
    ensures TellsApart(rows, seed, hash) && hash(seed, ComponentKey(rows, i)) != hash(seed, ComponentKey(rows, j))
  {
    var zeros, ones := seq(64, _ => '0'), seq(64, _ => '1');
    assert IsSha256Hex(zeros) && IsSha256Hex(ones) && zeros[0] != ones[0];
    var key := ComponentKey(rows, i);
    hash := (s, k) => if k == key then zeros else ones;
    forall k | 0 <= k < |rows| ensures ComponentKey(rows, k) == key || ComponentKey(rows, k) == ComponentKey(rows, j) {
      SameKeyIffConnected(rows, i, k);
      SameKeyIffConnected(rows, j, k);
    }
    SameKeyIffConnected(rows, i, j);
  }

  /** Rows of one component are assigned one split; if the digest tells groups apart, so are rows of one digest. */
  lemma SameDigestSameSplit(rows: seq<Row>, policy: Resolved, hash: Hasher, i: int, j: int)
    requires WellFormed(rows) && TellsApart(rows, policy.seed, hash) && 0 <= i < |rows| && 0 <= j < |rows|
    requires AssignmentOf(rows, i, policy, hash).groupHash == AssignmentOf(rows, j, policy, hash).groupHash
    ensures Connected(rows, i, j)
    ensures AssignmentOf(rows, i, policy, hash).split == AssignmentOf(rows, j, policy, hash).split
    ensures LatestInComponent(rows, i) == LatestInComponent(rows, j)
  {
    assert ComponentKey(rows, i) == ComponentKey(rows, j);
    SameKeyIffConnected(rows, i, j);
    ConnectedSymmetric(rows, i, j);
    forall k | 0 <= k < |rows| ensures Connected(rows, i, k) <==> Connected(rows, j, k) {
      if Connected(rows, i, k) { ConnectedTransitive(rows, j, i, k); }
      if Connected(rows, j, k) { ConnectedTransitive(rows, i, j, k); }
    }
    LatestInComponentUnique(rows, i, LatestInComponent(rows, i), LatestInComponent(rows, j));
  }

  lemma AssignedGroupLatest(rows: seq<Row>, policy: Resolved, hash: Hasher, i: int)
    requires WellFormed(rows) && TellsApart(rows, policy.seed, hash) && 0 <= i < |rows|
    ensures var all := Assignments(rows, policy, hash); IsLatest(all, all[i].groupHash, LatestInComponent(rows, i))
  {
    var all := Assignments(rows, policy, hash);
    var t := LatestInComponent(rows, i);
    forall r | r in all && r.groupHash == all[i].groupHash ensures r.occurredAt.At? && r.occurredAt.ms <= t {
      var k :| 0 <= k < |all| && all[k] == r;
      SameDigestSameSplit(rows, policy, hash, i, k);
    }
    var k :| 0 <= k < |rows| && Connected(rows, i, k) && rows[k].at == t;
    SameKeyIffConnected(rows, i, k);
    assert all[k] in all && all[k].groupHash == all[i].groupHash && all[k].occurredAt == At(t);
  }

  /** The split of a hash policy is read off the digest, so only a time policy needs one that tells groups apart. */
  ghost predicate DigestServes(rows: seq<Row>, policy: Resolved, hash: Hasher) {
    policy.TimePolicy? ==> TellsApart(rows, policy.seed, hash)
  }

  /** Then the closing audit never finds a group overlap or a temporal violation. */
  lemma AssignmentsHoldGroupsAndTime(rows: seq<Row>, policy: Resolved, hash: Hasher)
    requires WellFormed(rows) && DigestServes(rows, policy, hash)
    ensures OneSplitPerGroup(Assignments(rows, policy, hash))
    ensures AllTimely(Assignments(rows, policy, hash), policy)
  {
    var all := Assignments(rows, policy, hash);
    forall r, s | r in all && s in all && r.groupHash == s.groupHash ensures r.split == s.split {
      var i :| 0 <= i < |all| && all[i] == r;
      var j :| 0 <= j < |all| && all[j] == s;
      if policy.TimePolicy? { SameDigestSameSplit(rows, policy, hash, i, j); }
    }
    if policy.TimePolicy? {
      forall r | r in all ensures Timely(all, r, policy) {
        var i :| 0 <= i < |all| && all[i] == r;
        AssignedGroupLatest(rows, policy, hash, i);
      }
    }
  }

  lemma AssignmentsAuditable(inputs: seq<Input>, rows: seq<Row>, policy: Resolved, hash: Hasher)
    requires Acceptable(inputs) && |rows| == |inputs|
    requires forall i | 0 <= i < |rows| :: rows[i] == RowOf(inputs[i])
    ensures AllAuditable(Assignments(rows, policy, hash))
  {
    var all := Assignments(rows, policy, hash);
    forall r | r in all ensures AuditableRow(r) && ValidTimestamp(r.occurredAt) {
      var i :| 0 <= i < |all| && all[i] == r;
      assert Identified(inputs[i]);
    }
  }

  /** On acceptable rows and a resolvable policy, only a target in two splits can sink the plan. */
  lemma PlanFailsOnlyOnTargetOverlap(inputs: seq<Input>, policy: Policy, hash: Hasher)
    requires inputs != [] && Acceptable(inputs)
    requires Normalize(inputs, {}).Ok? ==>
      var resolved := ResolvePolicy(Normalize(inputs, {}).value, policy);
      resolved.Ok? && DigestServes(Normalize(inputs, {}).value, resolved.value, hash)
    ensures Normalize(inputs, {}).Ok?
    ensures var rows := Normalize(inputs, {}).value;
      var resolved := ResolvePolicy(rows, policy).value;
      var all := Assignments(rows, resolved, hash);
      if OneSplitPerTarget(all)
      then PlanOf(inputs, policy, hash) == Ok(Plan(all, resolved, Audit(|inputs|, |Hashes(all)|, 0, 0, 0)))
      else PlanOf(inputs, policy, hash) == Err(LeakageFailed)
  {
    var rows := AcceptedRows(inputs);
    var resolved := ResolvePolicy(rows, policy).value;
    var all := Assignments(rows, resolved, hash);
    AssignmentsHoldGroupsAndTime(rows, resolved, hash);
    AssignmentsAuditable(inputs, rows, resolved, hash);
    AuditPassedIff(all, resolved);
    AuditErrorMeaning(all);
  }

  lemma TrainOnlyAssigns(rows: seq<Row>, policy: Resolved, hash: Hasher)
    requires policy.HashPolicy? && policy.trainPoints == ALL_BASIS_POINTS
    ensures OneSplitPerTarget(Assignments(rows, policy, hash))
  {
    forall r | r in Assignments(rows, policy, hash) ensures r.split == Train {}
  }

  /** A policy that trains on everything always has a plan. */
  lemma TrainOnlyPlan(inputs: seq<Input>, seed: string, hash: Hasher)
    requires inputs != [] && Acceptable(inputs) && !Blank(seed)
    ensures PlanOf(inputs, GroupHash(seed, ALL_BASIS_POINTS, 0, 0), hash).Ok?
  {
    var rows := AcceptedRows(inputs);
    TrainOnlyAssigns(rows, HashPolicy(seed, ALL_BASIS_POINTS, 0, 0), hash);
    PlanFailsOnlyOnTargetOverlap(inputs, GroupHash(seed, ALL_BASIS_POINTS, 0, 0), hash);
  }

  lemma PlanAccepts(inputs: seq<Input>, policy: Policy, hash: Hasher) returns (rows: seq<Row>)
    requires PlanOf(inputs, policy, hash).Ok?
    ensures inputs != [] && Acceptable(inputs) && WellFormed(rows) && |rows| == |inputs|
    ensures forall i | 0 <= i < |rows| :: ValidTimestamp(inputs[i].occurredAt) && rows[i] == RowOf(inputs[i])
    ensures var plan := PlanOf(inputs, policy, hash).value;
      && ResolvePolicy(rows, policy) == Ok(plan.policy) && plan.assignments == Assignments(rows, plan.policy, hash)
      && AuditOf(plan.assignments, plan.policy) == Ok(plan.audit) && plan.audit.Passed()
  {
    NormalizeMeaning(inputs, {});
    rows := AcceptedRows(inputs);
  }

  lemma PlanFromRows(inputs: seq<Input>, rows: seq<Row>, policy: Policy, resolved: Resolved, audit: Audit, hash: Hasher)
    requires inputs != [] && rows != [] && Normalize(inputs, {}) == Ok(rows) && ResolvePolicy(rows, policy) == Ok(resolved)
    requires AuditOf(Assignments(rows, resolved, hash), resolved) == Ok(audit) && audit.Passed()
    ensures PlanOf(inputs, policy, hash) == Ok(Plan(Assignments(rows, resolved, hash), resolved, audit))
  {}

  lemma AssignedBeforeCutoff(rows: seq<Row>, i: int, policy: Resolved, hash: Hasher)
    requires policy.TimePolicy? && 0 <= i < |rows| && policy.validationCutoffAt <= policy.testCutoffAt
    ensures var r := AssignmentOf(rows, i, policy, hash);
      && (r.split == Train ==> rows[i].at < policy.validationCutoffAt)
      && (r.split == Validation ==> rows[i].at < policy.testCutoffAt)
      && (rows[i].at >= policy.testCutoffAt ==> r.split == Test)
  {
    ConnectedReflexive(rows, i);
    assert rows[i].at <= LatestInComponent(rows, i);
  }

  ghost predicate HoldsOutFuture(assignments: seq<Assignment>, policy: Resolved) {
    && policy.TimePolicy?
    && policy.validationCutoffAt < policy.testCutoffAt < policy.referenceAt
    && (forall i | 0 <= i < |assignments| :: assignments[i].occurredAt.At?)
    && (forall i | 0 <= i < |assignments| && assignments[i].split == Train ::
          assignments[i].occurredAt.ms < policy.validationCutoffAt)
    && (forall i | 0 <= i < |assignments| && assignments[i].split == Validation ::
          assignments[i].occurredAt.ms < policy.testCutoffAt)
    && (exists i :: 0 <= i < |assignments| && assignments[i].split == Test
                    && assignments[i].occurredAt == At(policy.referenceAt))
  }

  lemma RowsHoldOutFuture(rows: seq<Row>, policy: Resolved, hash: Hasher)
    requires rows != [] && policy.TimePolicy? && policy.referenceAt == LatestAt(rows)
    requires policy.validationCutoffAt < policy.testCutoffAt < policy.referenceAt
    ensures HoldsOutFuture(Assignments(rows, policy, hash), policy)
  {
    var all := Assignments(rows, policy, hash);
    forall i | 0 <= i < |rows|
      ensures all[i].split == Train ==> all[i].occurredAt.ms < policy.validationCutoffAt
      ensures all[i].split == Validation ==> all[i].occurredAt.ms < policy.testCutoffAt
    {
      AssignedBeforeCutoff(rows, i, policy, hash);
    }
    var k :| 0 <= k < |rows| && rows[k].at == LatestAt(rows);
    AssignedBeforeCutoff(rows, k, policy, hash);
    assert all[k].split == Test && all[k].occurredAt == At(policy.referenceAt);
  }

  /** A delivered time plan holds out the future: training and validation end before their cutoffs, and test is not empty. */
  lemma TimeHoldout(inputs: seq<Input>, policy: Policy, hash: Hasher)
    requires policy.GroupTime? && PlanOf(inputs, policy, hash).Ok?
    ensures HoldsOutFuture(PlanOf(inputs, policy, hash).value.assignments, PlanOf(inputs, policy, hash).value.policy)
  {
    var rows := PlanAccepts(inputs, policy, hash);
    RowsHoldOutFuture(rows, ResolvePolicy(rows, policy).value, hash);
  }

  /** Rows that a chain of keys links sit in one split of a delivered plan, whatever the digest. */
  lemma ConnectedRowsShareSplit(inputs: seq<Input>, policy: Policy, hash: Hasher, i: int, j: int)
    requires PlanOf(inputs, policy, hash).Ok? && 0 <= i < |inputs| && 0 <= j < |inputs|
    requires Normalize(inputs, {}).Ok? ==> Connected(Normalize(inputs, {}).value, i, j)
    ensures var plan := PlanOf(inputs, policy, hash).value;
      |plan.assignments| == |inputs| && plan.assignments[i].split == plan.assignments[j].split &&
      plan.assignments[i].groupHash == plan.assignments[j].groupHash
  {
    var rows := PlanAccepts(inputs, policy, hash);
    NormalizeMeaning(inputs, {});
    assert rows == Normalize(inputs, {}).value;
    SameKeyIffConnected(rows, i, j);
    var all := PlanOf(inputs, policy, hash).value.assignments;
    AuditPassedIff(all, PlanOf(inputs, policy, hash).value.policy);
    assert all[i] in all && all[j] in all;
  }

  // ---- independence from input order ----

  ghost predicate Inverses(perm: seq<int>, inv: seq<int>, n: nat) {
    && |perm| == |inv| == n
    && (forall i | 0 <= i < n :: 0 <= perm[i] < n && inv[perm[i]] == i)
    && (forall i | 0 <= i < n :: 0 <= inv[i] < n && perm[inv[i]] == i)
  }

  /** Same row up to the order and repetition of its keys. */
  ghost predicate SameRow(a: Row, b: Row) {
    a.rowId == b.rowId && a.targetId == b.targetId && a.at == b.at && Elems(a.keys) == Elems(b.keys)
  }

  ghost predicate Rearranged(rows: seq<Row>, moved: seq<Row>, perm: seq<int>, inv: seq<int>) {
    && |rows| == |moved| && Inverses(perm, inv, |rows|)
    && forall i | 0 <= i < |moved| :: SameRow(moved[i], rows[perm[i]])
  }

  lemma RearrangedBack(rows: seq<Row>, moved: seq<Row>, perm: seq<int>, inv: seq<int>)
    requires Rearranged(rows, moved, perm, inv)
    ensures Rearranged(moved, rows, inv, perm)
  {
    forall i | 0 <= i < |rows| ensures SameRow(rows[i], moved[inv[i]]) {
      assert SameRow(moved[inv[i]], rows[perm[inv[i]]]);
    }
  }

  lemma ConnectedMoves(rows: seq<Row>, moved: seq<Row>, perm: seq<int>, inv: seq<int>, i: int, j: int)
    requires Rearranged(rows, moved, perm, inv) && Connected(moved, i, j)
    ensures 0 <= i < |rows| && 0 <= j < |rows| && Connected(rows, perm[i], perm[j])
  {
    var path :| Links(moved, path, i, j);
    var image := seq(|path|, t requires 0 <= t < |path| => perm[path[t]]);
    forall t | 0 < t < |image| ensures Share(rows[image[t - 1]], rows[image[t]]) {
      var a, b := path[t - 1], path[t];
      assert Share(moved[a], moved[b]);
      var g :| g in moved[a].keys && g in moved[b].keys;
      assert SameRow(moved[a], rows[perm[a]]) && SameRow(moved[b], rows[perm[b]]);
      assert g in Elems(rows[perm[a]].keys) && g in Elems(rows[perm[b]].keys);
    }
    assert Links(rows, image, perm[i], perm[j]);
  }

  lemma ConnectedRearranged(rows: seq<Row>, moved: seq<Row>, perm: seq<int>, inv: seq<int>, i: int, j: int)
    requires Rearranged(rows, moved, perm, inv) && 0 <= i < |rows| && 0 <= j < |rows|
    ensures Connected(moved, i, j) <==> Connected(rows, perm[i], perm[j])
  {
    if Connected(moved, i, j) { ConnectedMoves(rows, moved, perm, inv, i, j); }
    if Connected(rows, perm[i], perm[j]) {
      RearrangedBack(rows, moved, perm, inv);
      ConnectedMoves(moved, rows, inv, perm, perm[i], perm[j]);
    }
  }

  lemma ComponentKeysSubset(rows: seq<Row>, moved: seq<Row>, perm: seq<int>, inv: seq<int>, i: int)
    requires Rearranged(rows, moved, perm, inv) && 0 <= i < |rows|
    ensures ComponentKeys(moved, i) <= ComponentKeys(rows, perm[i])
  {
    forall g | g in ComponentKeys(moved, i) ensures g in ComponentKeys(rows, perm[i]) {
      var k :| 0 <= k < |moved| && Connected(moved, i, k) && g in moved[k].keys;
      ConnectedRearranged(rows, moved, perm, inv, i, k);
      assert SameRow(moved[k], rows[perm[k]]);
      assert g in Elems(rows[perm[k]].keys);
      KeyOfComponent(rows, perm[i], perm[k], g);
    }
  }

  /** A row keeps its component key, its component's latest event and so its whole assignment. */
  lemma AssignmentRearranged(rows: seq<Row>, moved: seq<Row>, perm: seq<int>, inv: seq<int>, i: int, policy: Resolved, hash: Hasher)
    requires Rearranged(rows, moved, perm, inv) && 0 <= i < |rows|
    ensures AssignmentOf(moved, i, policy, hash) == AssignmentOf(rows, perm[i], policy, hash)
  {
    RearrangedBack(rows, moved, perm, inv);
    ComponentKeysSubset(rows, moved, perm, inv, i);
    ComponentKeysSubset(moved, rows, inv, perm, perm[i]);
    assert ComponentKeys(moved, i) == ComponentKeys(rows, perm[i]);
    assert SameRow(moved[i], rows[perm[i]]);
    var t := LatestInComponent(moved, i);
    forall k | 0 <= k < |rows| && Connected(rows, perm[i], k) ensures rows[k].at <= t {
      ConnectedRearranged(rows, moved, perm, inv, i, inv[k]);
      assert SameRow(moved[inv[k]], rows[perm[inv[k]]]);
    }
    var k :| 0 <= k < |moved| && Connected(moved, i, k) && moved[k].at == t;
    ConnectedRearranged(rows, moved, perm, inv, i, k);
    assert SameRow(moved[k], rows[perm[k]]);
    assert IsLatestInComponent(rows, perm[i], t);
    LatestInComponentUnique(rows, perm[i], t, LatestInComponent(rows, perm[i]));
  }

  lemma PolicyRearranged(rows: seq<Row>, moved: seq<Row>, perm: seq<int>, inv: seq<int>, policy: Policy)
    requires Rearranged(rows, moved, perm, inv) && rows != []
    ensures ResolvePolicy(moved, policy) == ResolvePolicy(rows, policy)
  {
    var a :| 0 <= a < |rows| && rows[a].at == LatestAt(rows);
    var b :| 0 <= b < |moved| && moved[b].at == LatestAt(moved);
    assert SameRow(moved[inv[a]], rows[perm[inv[a]]]) && SameRow(moved[b], rows[perm[b]]);
    assert LatestAt(moved) == LatestAt(rows);
  }

  ghost predicate SameInput(a: Input, b: Input) {
    && a.rowId == b.rowId && a.targetId == b.targetId && a.occurredAt == b.occurredAt
    && Elems([a.groupKey] + a.related) == Elems([b.groupKey] + b.related)
  }

  lemma AcceptableRearranged(inputs: seq<Input>, moved: seq<Input>, perm: seq<int>, inv: seq<int>)
    requires |inputs| == |moved| && Inverses(perm, inv, |inputs|) && Acceptable(inputs)
    requires forall i | 0 <= i < |moved| :: SameInput(moved[i], inputs[perm[i]])
    ensures Acceptable(moved)
  {
    forall i | 0 <= i < |moved| ensures Identified(moved[i]) && ValidTimestamp(moved[i].occurredAt) {
      assert SameInput(moved[i], inputs[perm[i]]) && Identified(inputs[perm[i]]);
      forall k | k in KeysOf(moved[i]) ensures !Blank(k) {
        assert k in Elems(KeysOf(moved[i]));
        assert k in Elems(KeysOf(inputs[perm[i]]));
      }
    }
    forall i, j | 0 <= i < j < |moved| ensures moved[i].rowId != moved[j].rowId {
      assert SameInput(moved[i], inputs[perm[i]]) && SameInput(moved[j], inputs[perm[j]]);
      assert perm[i] != perm[j];
    }
  }

  lemma RowsRearranged(inputs: seq<Input>, moved: seq<Input>, perm: seq<int>, inv: seq<int>, rows: seq<Row>)
    returns (movedRows: seq<Row>)
    requires |inputs| == |moved| == |rows| && Inverses(perm, inv, |inputs|) && Acceptable(inputs)
    requires forall i | 0 <= i < |moved| :: SameInput(moved[i], inputs[perm[i]])
    requires forall i | 0 <= i < |rows| :: ValidTimestamp(inputs[i].occurredAt) && rows[i] == RowOf(inputs[i])
    ensures Normalize(moved, {}) == Ok(movedRows) && Rearranged(rows, movedRows, perm, inv)
  {
    AcceptableRearranged(inputs, moved, perm, inv);
    movedRows := AcceptedRows(moved);
    forall i | 0 <= i < |movedRows| ensures SameRow(movedRows[i], rows[perm[i]]) {
      assert SameInput(moved[i], inputs[perm[i]]);
    }
  }

  /** A plan for one order of the rows is the plan for every order, row by row. */
  lemma PlanIgnoresOrder(inputs: seq<Input>, moved: seq<Input>, perm: seq<int>, inv: seq<int>, policy: Policy, hash: Hasher)
    requires |inputs| == |moved| && Inverses(perm, inv, |inputs|)
    requires forall i | 0 <= i < |moved| :: SameInput(moved[i], inputs[perm[i]])
    requires PlanOf(inputs, policy, hash).Ok?
    ensures PlanOf(moved, policy, hash).Ok?
    ensures var p, q := PlanOf(inputs, policy, hash).value, PlanOf(moved, policy, hash).value;
      && q.policy == p.policy && q.audit == p.audit
      && |q.assignments| == |p.assignments| == |inputs|
      && forall i | 0 <= i < |inputs| :: q.assignments[i] == p.assignments[perm[i]]
  {
    var rows := PlanAccepts(inputs, policy, hash);
    var plan := PlanOf(inputs, policy, hash).value;
    var movedRows := RowsRearranged(inputs, moved, perm, inv, rows);
    PolicyRearranged(rows, movedRows, perm, inv, policy);
    var a, b := plan.assignments, Assignments(movedRows, plan.policy, hash);
    AssignmentsRearranged(rows, movedRows, perm, inv, plan.policy, hash);
    SameRowsSameAudit(a, b, plan.policy);
    PlanFromRows(moved, movedRows, policy, plan.policy, plan.audit, hash);
  }

  lemma AssignmentsRearranged(rows: seq<Row>, moved: seq<Row>, perm: seq<int>, inv: seq<int>, policy: Resolved, hash: Hasher)
    requires Rearranged(rows, moved, perm, inv)
    ensures var a, b := Assignments(rows, policy, hash), Assignments(moved, policy, hash);
      (forall i | 0 <= i < |b| :: b[i] == a[perm[i]]) && (forall r :: r in a <==> r in b)
  {
    var a, b := Assignments(rows, policy, hash), Assignments(moved, policy, hash);
    forall i | 0 <= i < |b| ensures b[i] == a[perm[i]] {
      AssignmentRearranged(rows, moved, perm, inv, i, policy, hash);
    }
    forall r ensures r in a <==> r in b {
      if r in a { var k :| 0 <= k < |a| && a[k] == r; assert b[inv[k]] == r; }
      if r in b { var k :| 0 <= k < |b| && b[k] == r; assert a[perm[k]] == r; }
    }
  }

  lemma SameRowsTimely(a: seq<Assignment>, b: seq<Assignment>, r: Assignment, policy: Resolved)
    requires (forall r :: r in a <==> r in b) && policy.TimePolicy? && r in a && Timely(a, r, policy)
    ensures Timely(b, r, policy)
  {
    var t :| IsLatest(a, r.groupHash, t) && r.split == SplitForTime(t, policy);
    assert IsLatest(b, r.groupHash, t);
  }

  ghost predicate SoundRows(rows: seq<Assignment>, policy: Resolved) {
    AllAuditable(rows) && OneSplitPerGroup(rows) && OneSplitPerTarget(rows) && AllTimely(rows, policy)
  }

  lemma SameRowsSound(a: seq<Assignment>, b: seq<Assignment>, policy: Resolved)
    requires (forall r :: r in a <==> r in b) && SoundRows(a, policy)
    ensures SoundRows(b, policy)
  {
    if policy.TimePolicy? {
      forall r | r in b ensures Timely(b, r, policy) { SameRowsTimely(a, b, r, policy); }
    }
  }

  lemma SameRowsSameAudit(a: seq<Assignment>, b: seq<Assignment>, policy: Resolved)
    requires |a| == |b| && (forall r :: r in a <==> r in b)
    requires AuditOf(a, policy).Ok? && AuditOf(a, policy).value.Passed()
    ensures AuditOf(b, policy) == AuditOf(a, policy)
  {
    AuditPassedIff(a, policy);
    SameRowsSound(a, b, policy);
    AuditPassedIff(b, policy);
    PassedAudits(a, b, policy);
  }

  /** A passed audit shows nothing but how many rows and groups there are. */
  lemma PassedAudits(a: seq<Assignment>, b: seq<Assignment>, policy: Resolved)
    requires |a| == |b| && (forall r :: r in a <==> r in b)
    requires AuditOf(a, policy).Ok? && AuditOf(a, policy).value.Passed() && AuditOf(b, policy).Ok? && AuditOf(b, policy).value.Passed()
    ensures AuditOf(b, policy) == AuditOf(a, policy)
  {
    assert Hashes(a) == Hashes(b);
  }
}
