/** Leakage-free dataset split: normalisation, group components, assignment and the closing audit. */
module DatasetSplit {
  import opened Strings
  import opened Components

  const DAY_MS := 86_400_000
  const MAX_TIME := 8_640_000_000_000_000
  const ALL_BASIS_POINTS := 10_000

  datatype Timestamp = NotADate | At(ms: int)

  predicate ValidTimestamp(t: Timestamp) {
    t.At? && -MAX_TIME <= t.ms <= MAX_TIME
  }

  datatype Split = Train | Validation | Test

  datatype Policy =
    | GroupHash(seed: string, trainPoints: int, validationPoints: int, testPoints: int)
    | GroupTime(seed: string, validationDays: int, testDays: int)

  datatype Resolved =
    | HashPolicy(seed: string, trainPoints: int, validationPoints: int, testPoints: int)
    | TimePolicy(seed: string, validationDays: int, testDays: int,
                 referenceAt: int, validationCutoffAt: int, testCutoffAt: int)

  datatype Input = Input(rowId: string, targetId: string, groupKey: string, related: seq<string>, occurredAt: Timestamp)

  datatype Assignment = Assignment(rowId: string, targetId: string, groupHash: string, occurredAt: Timestamp, split: Split)

  datatype Audit = Audit(rowCount: nat, groupCount: nat, groupOverlapCount: nat, targetOverlapCount: nat, temporalViolationCount: nat) {
    predicate Passed() { groupOverlapCount == 0 && targetOverlapCount == 0 && temporalViolationCount == 0 }
  }

  datatype Plan = Plan(assignments: seq<Assignment>, policy: Resolved, audit: Audit)

  datatype Error =
    | NoInput | BlankIdentifier | DuplicateRow(rowId: string) | InvalidTimestamp
    | BlankSeed | InvalidBasisPoints | InvalidWindow | CutoffOutOfRange
    | InvalidAuditRow | LeakageFailed

  datatype Result<T> = Ok(value: T) | Err(error: Error)

  // ---- digests ----

  predicate IsHexDigit(c: char) { '0' <= c <= '9' || 'a' <= c <= 'f' }

  predicate IsSha256Hex(s: string) {
    |s| == 64 && forall i | 0 <= i < |s| :: IsHexDigit(s[i])
  }

  type Digest = s: string | IsSha256Hex(s)
    witness seq(64, _ => '0')

  function HexDigit(c: char): nat
    requires IsHexDigit(c)
  {
    if c <= '9' then (c as int) - ('0' as int) else (c as int) - ('a' as int) + 10
  }

  function ParseHex(s: string): nat
    requires forall i | 0 <= i < |s| :: IsHexDigit(s[i])
  {
    if s == [] then 0 else 16 * ParseHex(s[..|s| - 1]) + HexDigit(s[|s| - 1])
  }

  /** The digest of (seed, component key); its argument text determines it, and it determines the key. */
  type Hasher = (string, seq<string>) -> Digest

  // ---- normalisation ----

  function Dedup(xs: seq<string>): (r: seq<string>)
    ensures Elems(r) == Elems(xs) && Distinct(r)
  {
    if xs == [] then []
    else
      var r := Dedup(xs[..|xs| - 1]);
      assert xs == xs[..|xs| - 1] + [xs[|xs| - 1]];
      assert Elems(xs) == Elems(xs[..|xs| - 1]) + {xs[|xs| - 1]};
      if xs[|xs| - 1] in r then
        assert xs[|xs| - 1] in Elems(r);
        r
      else r + [xs[|xs| - 1]]
  }

  function KeysOf(input: Input): (r: seq<string>)
    ensures Elems(r) == Elems([input.groupKey] + input.related) && Distinct(r) && r != []
  {
    var all := [input.groupKey] + input.related;
    assert all[0] in Elems(all);
    var r := Dedup(all);
    assert all[0] in Elems(r);
    r
  }

  predicate Identified(input: Input) {
    !Blank(input.rowId) && !Blank(input.targetId) && forall k | k in KeysOf(input) :: !Blank(k)
  }

  function RowOf(input: Input): Row
    requires ValidTimestamp(input.occurredAt)
  {
    Row(input.rowId, input.targetId, KeysOf(input), input.occurredAt.ms)
  }

  /** The first objection to a row, in the order the program raises them. */
  function RowError(input: Input, seen: set<string>): Result<Row> {
    if !Identified(input) then Err(BlankIdentifier)
    else if input.rowId in seen then Err(DuplicateRow(input.rowId))
    else if !ValidTimestamp(input.occurredAt) then Err(InvalidTimestamp)
    else Ok(RowOf(input))
  }

  function Normalize(inputs: seq<Input>, seen: set<string>): Result<seq<Row>> {
    if inputs == [] then Ok([])
    else
      match RowError(inputs[0], seen)
      case Err(e) => Err(e)
      case Ok(row) =>
        match Normalize(inputs[1..], seen + {inputs[0].rowId})
        case Err(e) => Err(e)
        case Ok(rest) => Ok([row] + rest)
  }

  ghost predicate Acceptable(inputs: seq<Input>) {
    && (forall i | 0 <= i < |inputs| :: Identified(inputs[i]) && ValidTimestamp(inputs[i].occurredAt))
    && (forall i, j | 0 <= i < j < |inputs| :: inputs[i].rowId != inputs[j].rowId)
  }

  ghost predicate Unseen(inputs: seq<Input>, seen: set<string>) { forall i | 0 <= i < |inputs| :: inputs[i].rowId !in seen }

  lemma AcceptableStep(inputs: seq<Input>, seen: set<string>)
    requires inputs != []
    ensures Acceptable(inputs) && Unseen(inputs, seen) <==>
            RowError(inputs[0], seen).Ok? && Acceptable(inputs[1..]) && Unseen(inputs[1..], seen + {inputs[0].rowId})
  {
    var rest := inputs[1..];
    assert forall i | 0 < i < |inputs| :: inputs[i] == rest[i - 1];
    assert forall i | 0 <= i < |rest| :: rest[i] == inputs[i + 1];
  }

  /** Normalisation succeeds exactly on identified, dated rows with distinct ids, and then row by row. */
  lemma {:induction false} NormalizeMeaning(inputs: seq<Input>, seen: set<string>)
    ensures Normalize(inputs, seen).Ok? <==> Acceptable(inputs) && Unseen(inputs, seen)
    ensures Normalize(inputs, seen).Ok? ==>
      var rows := Normalize(inputs, seen).value;
      |rows| == |inputs| && WellFormed(rows) &&
      forall i | 0 <= i < |rows| :: ValidTimestamp(inputs[i].occurredAt) && rows[i] == RowOf(inputs[i])
  {
    if inputs != [] {
      NormalizeMeaning(inputs[1..], seen + {inputs[0].rowId});
      AcceptableStep(inputs, seen);
    }
  }

  function Prepend(rows: seq<Row>, r: Result<seq<Row>>): Result<seq<Row>> {
    match r
    case Err(e) => Err(e)
    case Ok(rest) => Ok(rows + rest)
  }

  method NormalizeInputs(inputs: seq<Input>) returns (r: Result<seq<Row>>)
    ensures r == Normalize(inputs, {})
  {
    var rowIds: set<string> := {};
    var rows: seq<Row> := [];
    assert inputs[0..] == inputs;
    assert forall rest: seq<Row> :: [] + rest == rest;
    for i := 0 to |inputs|
      invariant Normalize(inputs, {}) == Prepend(rows, Normalize(inputs[i..], rowIds))
    {
      assert inputs[i..][1..] == inputs[i + 1..];
      match RowError(inputs[i], rowIds)
      case Err(e) => return Err(e);
      case Ok(row) =>
        rowIds := rowIds + {inputs[i].rowId};
        assert forall rest: seq<Row> :: rows + ([row] + rest) == (rows + [row]) + rest;
        rows := rows + [row];
    }
    assert inputs[|inputs|..] == [];
    assert rows + [] == rows;
    r := Ok(rows);
  }

  // ---- policies ----

  function LatestAt(rows: seq<Row>): (r: int)
    requires rows != []
    ensures (forall i | 0 <= i < |rows| :: rows[i].at <= r) && exists i :: 0 <= i < |rows| && rows[i].at == r
  {
    if |rows| == 1 then rows[0].at
    else
      var rest := LatestAt(rows[1..]);
      assert rows == [rows[0]] + rows[1..];
      assert exists i :: 0 <= i < |rows| && rows[i].at == rest by {
        var k :| 0 <= k < |rows[1..]| && rows[1..][k].at == rest;
        assert rows[k + 1].at == rest;
      }
      if rows[0].at > rest then rows[0].at else rest
  }

  function ResolvePolicy(rows: seq<Row>, policy: Policy): Result<Resolved>
    requires rows != []
  {
    if Blank(policy.seed) then Err(BlankSeed)
    else
      match policy
      case GroupHash(seed, train, validation, test) =>
        if train < 0 || validation < 0 || test < 0 || train + validation + test != ALL_BASIS_POINTS
        then Err(InvalidBasisPoints) else Ok(HashPolicy(seed, train, validation, test))
      case GroupTime(seed, validation, test) =>
        if !(1 <= validation <= 3650) || !(1 <= test <= 3650) then Err(InvalidWindow)
        else
          var reference := LatestAt(rows);
          var testCutoff := reference - test * DAY_MS;
          var validationCutoff := testCutoff - validation * DAY_MS;
          if !ValidTimestamp(At(validationCutoff)) || !ValidTimestamp(At(testCutoff)) || !ValidTimestamp(At(reference))
          then Err(CutoffOutOfRange)
          else Ok(TimePolicy(seed, validation, test, reference, validationCutoff, testCutoff))
  }

  function SplitForTime(time: int, policy: Resolved): Split
    requires policy.TimePolicy?
  {
    if time < policy.validationCutoffAt then Train
    else if time < policy.testCutoffAt then Validation
    else Test
  }

  function SplitForHash(digest: Digest, policy: Resolved): Split
    requires policy.HashPolicy?
  {
    var bucket := ParseHex(digest[..8]) % ALL_BASIS_POINTS;
    if bucket < policy.trainPoints then Train
    else if bucket < policy.trainPoints + policy.validationPoints then Validation
    else Test
  }

  // ---- the audit ----

  predicate AuditableRow(row: Assignment) {
    !Blank(row.rowId) && !Blank(row.targetId) && IsSha256Hex(row.groupHash)
  }

  ghost function GroupSplits(rows: seq<Assignment>, h: string): set<Split> {
    set r | r in rows && r.groupHash == h :: r.split
  }

  ghost function TargetSplits(rows: seq<Assignment>, t: string): set<Split> {
    set r | r in rows && r.targetId == t :: r.split
  }

  ghost function Hashes(rows: seq<Assignment>): set<string> { set r | r in rows :: r.groupHash }

  ghost function Targets(rows: seq<Assignment>): set<string> { set r | r in rows :: r.targetId }

  ghost predicate IsLatest(rows: seq<Assignment>, h: string, t: int) {
    && (forall r | r in rows && r.groupHash == h :: r.occurredAt.At? && r.occurredAt.ms <= t)
    && exists r :: r in rows && r.groupHash == h && r.occurredAt == At(t)
  }

  /** The row sits in the split that its group's latest event demands. */
  ghost predicate Timely(rows: seq<Assignment>, row: Assignment, policy: Resolved)
    requires policy.TimePolicy?
  {
    exists t :: IsLatest(rows, row.groupHash, t) && row.split == SplitForTime(t, policy)
  }

  /** How many of the first n rows are out of step with their group's time. */
  ghost function Untimely(rows: seq<Assignment>, n: nat, policy: Resolved): nat
    requires policy.TimePolicy? && n <= |rows|
  {
    if n == 0 then 0
    else Untimely(rows, n - 1, policy) + if Timely(rows, rows[n - 1], policy) then 0 else 1
  }

  ghost function AuditCounts(rows: seq<Assignment>, policy: Resolved): Audit {
    Audit(|rows|, |Hashes(rows)|,
          |set h | h in Hashes(rows) && |GroupSplits(rows, h)| > 1|,
          |set t | t in Targets(rows) && |TargetSplits(rows, t)| > 1|,
          if policy.TimePolicy? then Untimely(rows, |rows|, policy) else 0)
  }

  /** Scans rows in order and reports the first that cannot be audited. */
  function AuditError(rows: seq<Assignment>): Result<()> {
    if rows == [] then Ok(())
    else if !AuditableRow(rows[0]) then Err(InvalidAuditRow)
    else if !ValidTimestamp(rows[0].occurredAt) then Err(InvalidTimestamp)
    else AuditError(rows[1..])
  }

  ghost function AuditOf(rows: seq<Assignment>, policy: Resolved): Result<Audit> {
    match AuditError(rows)
    case Err(e) => Err(e)
    case Ok(_) => Ok(AuditCounts(rows, policy))
  }

  ghost predicate GroupsIndexed(rows: seq<Assignment>, groups: map<string, set<Split>>) {
    groups.Keys == Hashes(rows) && forall h | h in groups :: groups[h] == GroupSplits(rows, h)
  }

  ghost predicate TargetsIndexed(rows: seq<Assignment>, targets: map<string, set<Split>>) {
    targets.Keys == Targets(rows) && forall t | t in targets :: targets[t] == TargetSplits(rows, t)
  }

  ghost predicate LatestIndexed(rows: seq<Assignment>, latest: map<string, int>) {
    latest.Keys == Hashes(rows) && forall h | h in latest :: IsLatest(rows, h, latest[h])
  }

  function AddSplit(m: map<string, set<Split>>, key: string, split: Split): map<string, set<Split>> {
    m[key := (if key in m then m[key] else {}) + {split}]
  }

  function Newer(latest: map<string, int>, key: string, time: int): map<string, int> {
    latest[key := if key in latest && latest[key] > time then latest[key] else time]
  }

  lemma GroupsStep(a: seq<Assignment>, r: Assignment, groups: map<string, set<Split>>)
    requires GroupsIndexed(a, groups)
    ensures GroupsIndexed(a + [r], AddSplit(groups, r.groupHash, r.split))
  {
    var b := a + [r];
    assert forall x :: x in b <==> x in a || x == r;
    assert Hashes(b) == Hashes(a) + {r.groupHash};
    forall h ensures GroupSplits(b, h) == GroupSplits(a, h) + if h == r.groupHash then {r.split} else {} {}
    if r.groupHash !in groups { assert GroupSplits(a, r.groupHash) == {}; }
  }

  lemma TargetsStep(a: seq<Assignment>, r: Assignment, targets: map<string, set<Split>>)
    requires TargetsIndexed(a, targets)
    ensures TargetsIndexed(a + [r], AddSplit(targets, r.targetId, r.split))
  {
    var b := a + [r];
    assert forall x :: x in b <==> x in a || x == r;
    assert Targets(b) == Targets(a) + {r.targetId};
    forall t ensures TargetSplits(b, t) == TargetSplits(a, t) + if t == r.targetId then {r.split} else {} {}
    if r.targetId !in targets { assert TargetSplits(a, r.targetId) == {}; }
  }

  lemma LatestStep(a: seq<Assignment>, r: Assignment, latest: map<string, int>)
    requires LatestIndexed(a, latest) && r.occurredAt.At?
    ensures LatestIndexed(a + [r], Newer(latest, r.groupHash, r.occurredAt.ms))
  {
    var b := a + [r];
    assert forall x :: x in b <==> x in a || x == r;
    assert Hashes(b) == Hashes(a) + {r.groupHash};
    var after := Newer(latest, r.groupHash, r.occurredAt.ms);
    forall h | h in after ensures IsLatest(b, h, after[h]) {
      if h in latest {
        var w :| w in a && w.groupHash == h && w.occurredAt == At(latest[h]);
        assert w in b && r in b;
      } else {
        assert forall x | x in a :: x.groupHash != h;
        assert r in b && r.occurredAt == At(after[h]);
      }
    }
  }

  /** The three maps hold what the first rows say. */
  ghost predicate Indexed(rows: seq<Assignment>, groups: map<string, set<Split>>, targets: map<string, set<Split>>, latest: map<string, int>) {
    GroupsIndexed(rows, groups) && TargetsIndexed(rows, targets) && LatestIndexed(rows, latest)
  }

  lemma IndexStep(rows: seq<Assignment>, n: nat, groups: map<string, set<Split>>, targets: map<string, set<Split>>, latest: map<string, int>)
    requires n < |rows| && Indexed(rows[..n], groups, targets, latest) && rows[n].occurredAt.At?
    ensures Indexed(rows[..n + 1], AddSplit(groups, rows[n].groupHash, rows[n].split), AddSplit(targets, rows[n].targetId, rows[n].split),
                    Newer(latest, rows[n].groupHash, rows[n].occurredAt.ms))
  {
    assert rows[..n + 1] == rows[..n] + [rows[n]];
    GroupsStep(rows[..n], rows[n], groups);
    TargetsStep(rows[..n], rows[n], targets);
    LatestStep(rows[..n], rows[n], latest);
  }

  lemma AuditErrorStep(rows: seq<Assignment>, n: nat)
    requires n < |rows|
    ensures AuditError(rows[n..]) == if !AuditableRow(rows[n]) then Err(InvalidAuditRow)
                                     else if !ValidTimestamp(rows[n].occurredAt) then Err(InvalidTimestamp)
                                     else AuditError(rows[n + 1..])
  {
    assert rows[n..][0] == rows[n] && rows[n..][1..] == rows[n + 1..];
  }

  method IndexRows(rows: seq<Assignment>)
    returns (error: Result<()>, groups: map<string, set<Split>>, targets: map<string, set<Split>>, latest: map<string, int>)
    ensures error == AuditError(rows)
    ensures error.Ok? ==> GroupsIndexed(rows, groups) && TargetsIndexed(rows, targets) && LatestIndexed(rows, latest)
  {
    groups, targets, latest := map[], map[], map[];
    assert rows[0..] == rows;
    for n := 0 to |rows|
      invariant AuditError(rows) == AuditError(rows[n..])
      invariant Indexed(rows[..n], groups, targets, latest)
    {
      var row := rows[n];
      AuditErrorStep(rows, n);
      if !AuditableRow(row) { return Err(InvalidAuditRow), groups, targets, latest; }
      if !ValidTimestamp(row.occurredAt) { return Err(InvalidTimestamp), groups, targets, latest; }
      IndexStep(rows, n, groups, targets, latest);
      groups := AddSplit(groups, row.groupHash, row.split);
      targets := AddSplit(targets, row.targetId, row.split);
      latest := Newer(latest, row.groupHash, row.occurredAt.ms);
    }
    assert rows[..|rows|] == rows;
    error := Ok(());
  }

  method CountViolations(rows: seq<Assignment>, latest: map<string, int>, policy: Resolved) returns (violations: nat)
    requires policy.TimePolicy? && LatestIndexed(rows, latest)
    ensures violations == Untimely(rows, |rows|, policy)
  {
    violations := 0;
    for n := 0 to |rows|
      invariant violations == Untimely(rows, n, policy)
    {
      assert rows[n].groupHash in Hashes(rows);
      LatestUnique(rows, rows[n].groupHash, latest[rows[n].groupHash]);
      if rows[n].split != SplitForTime(latest[rows[n].groupHash], policy) { violations := violations + 1; }
    }
  }

  /** The audit of stored rows, as the program runs it before a snapshot is approved. */
  method ValidateLeakage(rows: seq<Assignment>, policy: Resolved) returns (r: Result<Audit>)
    ensures r == AuditOf(rows, policy)
  {
    var error, groups, targets, latest := IndexRows(rows);
    if error.Err? { return Err(error.error); }
    var groupOverlap := set h | h in groups && |groups[h]| > 1;
    var targetOverlap := set t | t in targets && |targets[t]| > 1;
    assert groupOverlap == set h | h in Hashes(rows) && |GroupSplits(rows, h)| > 1;
    assert targetOverlap == set t | t in Targets(rows) && |TargetSplits(rows, t)| > 1;
    var violations := 0;
    if policy.TimePolicy? { violations := CountViolations(rows, latest, policy); }
    assert |groups| == |groups.Keys|;
    r := Ok(Audit(|rows|, |groups|, |groupOverlap|, |targetOverlap|, violations));
  }

  lemma LatestUnique(rows: seq<Assignment>, h: string, t: int)
    requires IsLatest(rows, h, t)
    ensures forall u :: IsLatest(rows, h, u) ==> u == t
  {}

  // ---- the plan ----

  ghost predicate IsLatestInComponent(rows: seq<Row>, i: int, t: int) {
    && (forall k | 0 <= k < |rows| && Connected(rows, i, k) :: rows[k].at <= t)
    && exists k :: 0 <= k < |rows| && Connected(rows, i, k) && rows[k].at == t
  }

  lemma LatestInComponentExists(rows: seq<Row>, i: int)
    requires 0 <= i < |rows|
    ensures exists t :: IsLatestInComponent(rows, i, t)
  {
    ConnectedReflexive(rows, i);
    var k := LatestMember(rows, i, |rows|);
    assert IsLatestInComponent(rows, i, rows[k].at);
  }

  /** Among the first n rows, the newest row of i's component, if there is one. */
  lemma {:induction false} LatestMember(rows: seq<Row>, i: int, n: nat) returns (k: int)
    requires n <= |rows|
    ensures k == -1 || (0 <= k < n && Connected(rows, i, k))
    ensures forall m | 0 <= m < n && Connected(rows, i, m) :: k != -1 && rows[m].at <= rows[k].at
  {
    if n == 0 {
      k := -1;
    } else {
      k := LatestMember(rows, i, n - 1);
      if Connected(rows, i, n - 1) && (k == -1 || rows[k].at < rows[n - 1].at) { k := n - 1; }
    }
  }

  ghost function LatestInComponent(rows: seq<Row>, i: int): (t: int)
    requires 0 <= i < |rows|
    ensures IsLatestInComponent(rows, i, t)
  {
    LatestInComponentExists(rows, i);
    var t :| IsLatestInComponent(rows, i, t);
    t
  }

  ghost function AssignmentOf(rows: seq<Row>, i: int, policy: Resolved, hash: Hasher): Assignment
    requires 0 <= i < |rows|
  {
    var digest := hash(policy.seed, ComponentKey(rows, i));
    Assignment(rows[i].rowId, rows[i].targetId, digest, At(rows[i].at),
               if policy.HashPolicy? then SplitForHash(digest, policy)
               else SplitForTime(LatestInComponent(rows, i), policy))
  }

  ghost function Assignments(rows: seq<Row>, policy: Resolved, hash: Hasher): (r: seq<Assignment>)
    ensures |r| == |rows| && forall i | 0 <= i < |rows| :: r[i] == AssignmentOf(rows, i, policy, hash)
  {
    seq(|rows|, i requires 0 <= i < |rows| => AssignmentOf(rows, i, policy, hash))
  }

  ghost function PlanOf(inputs: seq<Input>, policy: Policy, hash: Hasher): Result<Plan> {
    if inputs == [] then Err(NoInput)
    else
      match Normalize(inputs, {})
      case Err(e) => Err(e)
      case Ok(rows) =>
        NormalizeMeaning(inputs, {});
        match ResolvePolicy(rows, policy)
        case Err(e) => Err(e)
        case Ok(resolved) =>
          var assignments := Assignments(rows, resolved, hash);
          match AuditOf(assignments, resolved)
          case Err(e) => Err(e)
          case Ok(audit) =>
            if audit.Passed() then Ok(Plan(assignments, resolved, audit)) else Err(LeakageFailed)
  }

  ghost predicate NewestByKey(rows: seq<Row>, keys: seq<seq<string>>, latest: map<seq<string>, int>, n: int)
    requires |keys| == |rows| && 0 <= n <= |rows|
  {
    && (forall i | 0 <= i < n :: keys[i] in latest && rows[i].at <= latest[keys[i]])
    && (forall k | k in latest :: Witnessed(rows, keys, latest[k], k, n))
  }

  ghost predicate Witnessed(rows: seq<Row>, keys: seq<seq<string>>, t: int, k: seq<string>, n: int)
    requires |keys| == |rows| && 0 <= n <= |rows|
  {
    exists i :: 0 <= i < n && keys[i] == k && rows[i].at == t
  }

  function NewerKey(latest: map<seq<string>, int>, key: seq<string>, time: int): map<seq<string>, int> {
    latest[key := if key in latest && latest[key] > time then latest[key] else time]
  }

  lemma NewestByKeyStep(rows: seq<Row>, keys: seq<seq<string>>, latest: map<seq<string>, int>, after: map<seq<string>, int>, n: int)
    requires |keys| == |rows| && 0 <= n < |rows| && NewestByKey(rows, keys, latest, n)
    requires after == NewerKey(latest, keys[n], rows[n].at)
    ensures NewestByKey(rows, keys, after, n + 1)
  {
    forall k | k in after ensures Witnessed(rows, keys, after[k], k, n + 1) {
      if k in latest && after[k] == latest[k] {
        assert Witnessed(rows, keys, latest[k], k, n);
        var i :| 0 <= i < n && keys[i] == k && rows[i].at == latest[k];
      } else {
        assert keys[n] == k && rows[n].at == after[k];
      }
    }
  }

  function NewestUpTo(rows: seq<Row>, keys: seq<seq<string>>, n: nat): map<seq<string>, int>
    requires |keys| == |rows| && n <= |rows|
  {
    if n == 0 then map[] else NewerKey(NewestUpTo(rows, keys, n - 1), keys[n - 1], rows[n - 1].at)
  }

  lemma {:induction false} NewestHolds(rows: seq<Row>, keys: seq<seq<string>>, n: nat)
    requires |keys| == |rows| && n <= |rows|
    ensures NewestByKey(rows, keys, NewestUpTo(rows, keys, n), n)
  {
    if n > 0 {
      NewestHolds(rows, keys, n - 1);
      NewestByKeyStep(rows, keys, NewestUpTo(rows, keys, n - 1), NewestUpTo(rows, keys, n), n - 1);
    }
  }

  ghost predicate AreComponentKeys(rows: seq<Row>, keys: seq<seq<string>>) {
    |keys| == |rows| && forall i | 0 <= i < |rows| :: keys[i] == ComponentKey(rows, i)
  }

  /** Under the key of every row stands the latest event of the row's component. */
  ghost predicate HoldsLatest(rows: seq<Row>, keys: seq<seq<string>>, latest: map<seq<string>, int>)
    requires |keys| == |rows|
  {
    forall i | 0 <= i < |rows| :: keys[i] in latest && IsLatestInComponent(rows, i, latest[keys[i]])
  }

  /** latestByGroup of the program: the newest event under every component key seen so far. */
  method LatestByKey(rows: seq<Row>, keys: seq<seq<string>>) returns (latest: map<seq<string>, int>)
    requires WellFormed(rows) && AreComponentKeys(rows, keys)
    ensures HoldsLatest(rows, keys, latest)
  {
    latest := map[];
    for n := 0 to |rows|
      invariant latest == NewestUpTo(rows, keys, n)
    {
      latest := NewerKey(latest, keys[n], rows[n].at);
    }
    AllLatest(rows, keys);
  }

  lemma AllLatest(rows: seq<Row>, keys: seq<seq<string>>)
    requires WellFormed(rows) && AreComponentKeys(rows, keys)
    ensures HoldsLatest(rows, keys, NewestUpTo(rows, keys, |rows|))
  {
    var latest := NewestUpTo(rows, keys, |rows|);
    NewestHolds(rows, keys, |rows|);
    forall i | 0 <= i < |rows| ensures keys[i] in latest && IsLatestInComponent(rows, i, latest[keys[i]]) {
      NewestIsLatest(rows, keys, latest, i);
    }
  }

  lemma NewestIsLatest(rows: seq<Row>, keys: seq<seq<string>>, latest: map<seq<string>, int>, i: int)
    requires WellFormed(rows) && AreComponentKeys(rows, keys) && 0 <= i < |rows|
    requires NewestByKey(rows, keys, latest, |rows|)
    ensures keys[i] in latest && IsLatestInComponent(rows, i, latest[keys[i]])
  {
    forall k | 0 <= k < |rows| ensures Connected(rows, i, k) <==> keys[i] == keys[k] {
      SameKeyIffConnected(rows, i, k);
    }
    assert Witnessed(rows, keys, latest[keys[i]], keys[i], |rows|);
  }

  lemma LatestInComponentUnique(rows: seq<Row>, i: int, t: int, u: int)
    requires IsLatestInComponent(rows, i, t) && IsLatestInComponent(rows, i, u)
    ensures t == u
  {}

  method AssignRows(rows: seq<Row>, resolved: Resolved, hash: Hasher) returns (assignments: seq<Assignment>)
    requires WellFormed(rows)
    ensures assignments == Assignments(rows, resolved, hash)
  {
    var keys := BuildComponentKeys(rows);
    var latest := LatestByKey(rows, keys);
    assignments := [];
    for i := 0 to |rows|
      invariant |assignments| == i
      invariant forall k | 0 <= k < i :: assignments[k] == AssignmentOf(rows, k, resolved, hash)
    {
      LatestInComponentUnique(rows, i, latest[keys[i]], LatestInComponent(rows, i));
      var digest := hash(resolved.seed, keys[i]);
      var split := if resolved.HashPolicy? then SplitForHash(digest, resolved)
                   else SplitForTime(latest[keys[i]], resolved);
      assignments := assignments + [Assignment(rows[i].rowId, rows[i].targetId, digest, At(rows[i].at), split)];
    }
  }

  method BuildPlan(inputs: seq<Input>, policy: Policy, hash: Hasher) returns (r: Result<Plan>)
    ensures r == PlanOf(inputs, policy, hash)
  {
    if inputs == [] { return Err(NoInput); }
    var normalized := NormalizeInputs(inputs);
    if normalized.Err? { return Err(normalized.error); }
    var rows := normalized.value;
    NormalizeMeaning(inputs, {});
    var resolution := ResolvePolicy(rows, policy);
    if resolution.Err? { return Err(resolution.error); }
    var assignments := AssignRows(rows, resolution.value, hash);
    var audited := ValidateLeakage(assignments, resolution.value);
    if audited.Err? { return Err(audited.error); }
    if !audited.value.Passed() { return Err(LeakageFailed); }
    r := Ok(Plan(assignments, resolution.value, audited.value));
  }
}
