/** What a delivered plan does with each row, in the words of the request: days, basis points and shared groups. */
module DatasetSplitMeaning {
  import opened Strings
  import opened Components
  import opened DatasetSplit
  import opened DatasetSplitTheorems

  // ---- linked inputs ----

  ghost predicate Names(input: Input, g: string) { g == input.groupKey || g in input.related }

  ghost predicate SharesGroup(a: Input, b: Input) { exists g :: Names(a, g) && Names(b, g) }

  ghost predicate Leads(inputs: seq<Input>, path: seq<int>, i: int, j: int) {
    && path != [] && path[0] == i && path[|path| - 1] == j
    && (forall t | 0 <= t < |path| :: 0 <= path[t] < |inputs|)
    && (forall t | 0 < t < |path| :: SharesGroup(inputs[path[t - 1]], inputs[path[t]]))
  }

  /** A chain of inputs, each naming a group of the one before it, leads from i to j. */
  ghost predicate Linked(inputs: seq<Input>, i: int, j: int) { exists path :: Leads(inputs, path, i, j) }

  /** The newest event among the inputs linked with i. */
  ghost predicate NewestLinked(inputs: seq<Input>, i: int, t: int) {
    && (forall k | 0 <= k < |inputs| && Linked(inputs, i, k) :: inputs[k].occurredAt.At? && inputs[k].occurredAt.ms <= t)
    && exists k :: 0 <= k < |inputs| && Linked(inputs, i, k) && inputs[k].occurredAt == At(t)
  }

  ghost predicate RowsOf(inputs: seq<Input>, rows: seq<Row>) {
    |rows| == |inputs| && forall i | 0 <= i < |rows| :: ValidTimestamp(inputs[i].occurredAt) && rows[i] == RowOf(inputs[i])
  }

  lemma NamesAreKeys(input: Input, g: string)
    ensures Names(input, g) <==> g in KeysOf(input)
  {
    assert g in KeysOf(input) <==> g in Elems(KeysOf(input));
    assert g in Elems([input.groupKey] + input.related) <==> g in [input.groupKey] + input.related;
  }

  lemma SharesIffShare(inputs: seq<Input>, rows: seq<Row>, i: int, j: int)
    requires RowsOf(inputs, rows) && 0 <= i < |rows| && 0 <= j < |rows|
    ensures SharesGroup(inputs[i], inputs[j]) <==> Share(rows[i], rows[j])
  {
    forall g ensures (Names(inputs[i], g) <==> g in rows[i].keys) && (Names(inputs[j], g) <==> g in rows[j].keys) {
      NamesAreKeys(inputs[i], g);
      NamesAreKeys(inputs[j], g);
    }
  }

  lemma LinkedIffConnected(inputs: seq<Input>, rows: seq<Row>, i: int, j: int)
    requires RowsOf(inputs, rows)
    ensures Linked(inputs, i, j) <==> Connected(rows, i, j)
  {
    forall a, b | 0 <= a < |rows| && 0 <= b < |rows| ensures SharesGroup(inputs[a], inputs[b]) <==> Share(rows[a], rows[b]) {
      SharesIffShare(inputs, rows, a, b);
    }
    if Linked(inputs, i, j) {
      var path :| Leads(inputs, path, i, j);
      assert Links(rows, path, i, j);
    }
    if Connected(rows, i, j) {
      var path :| Links(rows, path, i, j);
      assert Leads(inputs, path, i, j);
    }
  }

  lemma NewestIffLatest(inputs: seq<Input>, rows: seq<Row>, i: int, t: int)
    requires RowsOf(inputs, rows) && NewestLinked(inputs, i, t)
    ensures IsLatestInComponent(rows, i, t)
  {
    forall k | 0 <= k < |rows| ensures Linked(inputs, i, k) <==> Connected(rows, i, k) {
      LinkedIffConnected(inputs, rows, i, k);
    }
    var k :| 0 <= k < |inputs| && Linked(inputs, i, k) && inputs[k].occurredAt == At(t);
    assert rows[k].at == t;
  }

  lemma PlannedRows(inputs: seq<Input>, policy: Policy, hash: Hasher) returns (rows: seq<Row>)
    requires PlanOf(inputs, policy, hash).Ok?
    ensures inputs != [] && WellFormed(rows) && RowsOf(inputs, rows)
    ensures var plan := PlanOf(inputs, policy, hash).value;
      ResolvePolicy(rows, policy) == Ok(plan.policy) && plan.assignments == Assignments(rows, plan.policy, hash)
  {
    rows := PlanAccepts(inputs, policy, hash);
  }

  // ---- what is delivered ----

  /** Every input keeps its place, its name, its target and its time. */
  lemma RowsKeepIdentity(inputs: seq<Input>, policy: Policy, hash: Hasher)
    requires PlanOf(inputs, policy, hash).Ok?
    ensures var all := PlanOf(inputs, policy, hash).value.assignments;
      |all| == |inputs| && forall i | 0 <= i < |inputs| ::
        all[i].rowId == inputs[i].rowId && all[i].targetId == inputs[i].targetId && all[i].occurredAt == inputs[i].occurredAt
  {
    var rows := PlannedRows(inputs, policy, hash);
  }

  /** A row's group hash is the digest of the policy's seed and of all groups named by the inputs linked with it, in order. */
  lemma GroupHashMeaning(inputs: seq<Input>, policy: Policy, hash: Hasher, i: int) returns (groups: seq<string>)
    requires PlanOf(inputs, policy, hash).Ok? && 0 <= i < |inputs|
    ensures StrictlySorted(groups)
    ensures forall g :: g in groups <==> exists k :: 0 <= k < |inputs| && Linked(inputs, i, k) && Names(inputs[k], g)
    ensures var all := PlanOf(inputs, policy, hash).value.assignments;
      |all| == |inputs| && all[i].groupHash == hash(policy.seed, groups)
  {
    var rows := PlannedRows(inputs, policy, hash);
    groups := ComponentKey(rows, i);
    GroupsOfComponent(inputs, rows, i);
    HashOfRow(rows, policy, PlanOf(inputs, policy, hash).value.policy, hash, i);
  }

  lemma HashOfRow(rows: seq<Row>, policy: Policy, resolved: Resolved, hash: Hasher, i: int)
    requires rows != [] && ResolvePolicy(rows, policy) == Ok(resolved) && 0 <= i < |rows|
    ensures Assignments(rows, resolved, hash)[i].groupHash == hash(policy.seed, ComponentKey(rows, i))
  {
    assert Assignments(rows, resolved, hash)[i] == AssignmentOf(rows, i, resolved, hash);
  }

  lemma GroupsOfComponent(inputs: seq<Input>, rows: seq<Row>, i: int)
    requires RowsOf(inputs, rows) && 0 <= i < |rows|
    ensures forall g :: g in ComponentKey(rows, i) <==> exists k :: 0 <= k < |inputs| && Linked(inputs, i, k) && Names(inputs[k], g)
  {
    var groups := ComponentKey(rows, i);
    forall g ensures g in groups <==> exists k :: 0 <= k < |inputs| && Linked(inputs, i, k) && Names(inputs[k], g) {
      assert g in groups <==> g in Elems(groups);
      forall k | 0 <= k < |rows|
        ensures (Linked(inputs, i, k) <==> Connected(rows, i, k)) && (Names(inputs[k], g) <==> g in rows[k].keys)
      {
        LinkedIffConnected(inputs, rows, i, k);
        NamesAreKeys(inputs[k], g);
      }
    }
  }

  /** The reference of a time plan is the newest event of all. */
  lemma ReferenceIsNewest(inputs: seq<Input>, policy: Policy, hash: Hasher)
    requires policy.GroupTime? && PlanOf(inputs, policy, hash).Ok?
    ensures var p := PlanOf(inputs, policy, hash).value.policy;
      && p.TimePolicy?
      && (forall k | 0 <= k < |inputs| :: inputs[k].occurredAt.At? && inputs[k].occurredAt.ms <= p.referenceAt)
      && exists k :: 0 <= k < |inputs| && inputs[k].occurredAt == At(p.referenceAt)
  {
    var rows := PlannedRows(inputs, policy, hash);
    var reference := LatestAt(rows);
    forall k | 0 <= k < |inputs| ensures inputs[k].occurredAt == At(rows[k].at) && rows[k].at <= reference {}
    var k :| 0 <= k < |rows| && rows[k].at == reference;
    assert inputs[k].occurredAt == At(reference);
  }

  lemma SplitByAge(rows: seq<Row>, policy: Policy, resolved: Resolved, hash: Hasher, i: int, t: int)
    requires rows != [] && policy.GroupTime? && ResolvePolicy(rows, policy) == Ok(resolved)
    requires 0 <= i < |rows| && IsLatestInComponent(rows, i, t)
    ensures resolved.TimePolicy? && t <= resolved.referenceAt && 1 <= policy.testDays && 1 <= policy.validationDays
    ensures var split := AssignmentOf(rows, i, resolved, hash).split;
      split == if resolved.referenceAt - t <= policy.testDays * 86_400_000 then Test
               else if resolved.referenceAt - t <= (policy.testDays + policy.validationDays) * 86_400_000 then Validation
               else Train
  {
    LatestInComponentUnique(rows, i, t, LatestInComponent(rows, i));
  }

  /** Test takes the groups whose newest event lies in the last testDays, validation those of the validationDays before, and training the rest. */
  lemma SplitByRequestedDays(inputs: seq<Input>, policy: Policy, hash: Hasher, i: int, t: int)
    requires policy.GroupTime? && PlanOf(inputs, policy, hash).Ok?
    requires 0 <= i < |inputs| && NewestLinked(inputs, i, t)
    ensures var plan := PlanOf(inputs, policy, hash).value;
      && plan.policy.TimePolicy? && |plan.assignments| == |inputs|
      && var age := plan.policy.referenceAt - t;
      && 0 <= age
      && (plan.assignments[i].split == Test <==> age <= policy.testDays * 86_400_000)
      && (plan.assignments[i].split == Train <==> age > (policy.testDays + policy.validationDays) * 86_400_000)
      && (plan.assignments[i].split == Validation <==>
            policy.testDays * 86_400_000 < age <= (policy.testDays + policy.validationDays) * 86_400_000)
  {
    var rows := PlannedRows(inputs, policy, hash);
    NewestIffLatest(inputs, rows, i, t);
    SplitByAge(rows, policy, PlanOf(inputs, policy, hash).value.policy, hash, i, t);
  }

  // ---- hash plans ----

  const HEX_DIGITS := "0123456789abcdef"

  /** These are the numbers of the first eight hexadecimal digits of a text. */
  ghost predicate LeadingDigits(s: string, d: seq<int>) {
    |s| >= 8 && |d| == 8 && forall k | 0 <= k < 8 :: 0 <= d[k] < 16 && HEX_DIGITS[d[k]] == s[k]
  }

  lemma DigitValue(c: char, d: int)
    requires 0 <= d < 16 && HEX_DIGITS[d] == c
    ensures IsHexDigit(c) && HexDigit(c) == d
  {}

  lemma ParseStep(s: string, d: seq<int>, k: nat, before: nat)
    requires IsSha256Hex(s) && LeadingDigits(s, d) && k < 8 && ParseHex(s[..k]) == before
    ensures ParseHex(s[..k + 1]) == 16 * before + d[k]
  {
    assert s[..k + 1][..k] == s[..k];
    DigitValue(s[k], d[k]);
  }

  lemma {:induction false} ParseDigits(s: string, d: seq<int>, n: nat)
    requires IsSha256Hex(s) && LeadingDigits(s, d) && n <= 8
    ensures ParseHex(s[..n]) == Number(d[..n])
  {
    if n > 0 {
      ParseDigits(s, d, n - 1);
      ParseStep(s, d, n - 1, ParseHex(s[..n - 1]));
      assert d[..n][..n - 1] == d[..n - 1];
    }
  }

  function Number(d: seq<int>): int {
    if d == [] then 0 else 16 * Number(d[..|d| - 1]) + d[|d| - 1]
  }

  lemma NumberStep(d: seq<int>, k: nat)
    requires k < |d|
    ensures Number(d[..k + 1]) == 16 * Number(d[..k]) + d[k]
  {
    assert d[..k + 1][..k] == d[..k];
  }

  lemma NumberOfFour(d: seq<int>, k: nat)
    requires k + 4 <= |d|
    ensures Number(d[..k + 4]) == Number(d[..k]) * 0x1_0000 + d[k] * 0x1000 + d[k + 1] * 0x100 + d[k + 2] * 0x10 + d[k + 3]
  {
    NumberStep(d, k);
    NumberStep(d, k + 1);
    NumberStep(d, k + 2);
    NumberStep(d, k + 3);
  }

  lemma ParseEight(s: string, d: seq<int>)
    requires IsSha256Hex(s) && LeadingDigits(s, d)
    ensures ParseHex(s[..8]) == First32Bits(d)
  {
    ParseDigits(s, d, 8);
    NumberOfFour(d, 0);
    NumberOfFour(d, 4);
    assert d[..0] == [] && d[..8] == d;
  }

  /** Eight hexadecimal digits as a number. */
  function First32Bits(d: seq<int>): int
    requires |d| == 8
  {
    d[0] * 0x1000_0000 + d[1] * 0x100_0000 + d[2] * 0x10_0000 + d[3] * 0x1_0000 + d[4] * 0x1000 + d[5] * 0x100 + d[6] * 0x10 + d[7]
  }

  lemma SplitByBucket(rows: seq<Row>, policy: Policy, resolved: Resolved, hash: Hasher, i: int, d: seq<int>)
    requires rows != [] && policy.GroupHash? && ResolvePolicy(rows, policy) == Ok(resolved)
    requires 0 <= i < |rows| && LeadingDigits(AssignmentOf(rows, i, resolved, hash).groupHash, d)
    ensures 0 <= policy.trainPoints && 0 <= policy.validationPoints && 0 <= policy.testPoints
    ensures policy.trainPoints + policy.validationPoints + policy.testPoints == 10_000
    ensures var bucket, split := First32Bits(d) % 10_000, AssignmentOf(rows, i, resolved, hash).split;
      split == if bucket < policy.trainPoints then Train
               else if bucket < policy.trainPoints + policy.validationPoints then Validation else Test
  {
    ParseEight(AssignmentOf(rows, i, resolved, hash).groupHash, d);
  }

  /** The first 32 bits of a row's group hash, modulo 10000, choose its split by the requested basis points. */
  lemma SplitByBasisPoints(inputs: seq<Input>, policy: Policy, hash: Hasher, i: int, d: seq<int>)
    requires policy.GroupHash? && PlanOf(inputs, policy, hash).Ok? && 0 <= i < |inputs|
    requires var all := PlanOf(inputs, policy, hash).value.assignments; |all| == |inputs| ==> LeadingDigits(all[i].groupHash, d)
    ensures var all := PlanOf(inputs, policy, hash).value.assignments;
      && |all| == |inputs| && |d| == 8
      && var bucket := First32Bits(d) % 10_000;
      && (all[i].split == Train <==> bucket < policy.trainPoints)
      && (all[i].split == Validation <==> policy.trainPoints <= bucket < policy.trainPoints + policy.validationPoints)
      && (all[i].split == Test <==> policy.trainPoints + policy.validationPoints <= bucket)
  {
    var rows := PlannedRows(inputs, policy, hash);
    SplitByBucket(rows, policy, PlanOf(inputs, policy, hash).value.policy, hash, i, d);
  }

  // ---- which requests are refused ----

  ghost predicate BadPoints(p: Policy) {
    p.GroupHash? && (p.trainPoints < 0 || p.validationPoints < 0 || p.testPoints < 0
                     || p.trainPoints + p.validationPoints + p.testPoints != 10_000)
  }

  ghost predicate BadWindows(p: Policy) {
    p.GroupTime? && (p.validationDays < 1 || p.validationDays > 3650 || p.testDays < 1 || p.testDays > 3650)
  }

  /** The reference is the newest event of the rows. */
  ghost predicate IsReference(inputs: seq<Input>, reference: int) {
    && (forall k | 0 <= k < |inputs| :: inputs[k].occurredAt.At? && inputs[k].occurredAt.ms <= reference)
    && exists k :: 0 <= k < |inputs| && inputs[k].occurredAt == At(reference)
  }

  lemma ReferenceIsLatest(inputs: seq<Input>, rows: seq<Row>, reference: int)
    requires rows != [] && RowsOf(inputs, rows) && IsReference(inputs, reference)
    ensures LatestAt(rows) == reference
  {
    var k :| 0 <= k < |rows| && rows[k].at == LatestAt(rows);
    assert inputs[k].occurredAt == At(LatestAt(rows));
    var m :| 0 <= m < |inputs| && inputs[m].occurredAt == At(reference);
    assert rows[m].at == reference;
  }

  ghost predicate BeforeTheCalendar(p: Policy, reference: int) {
    p.GroupTime? && reference - (p.testDays + p.validationDays) * 86_400_000 < -8_640_000_000_000_000
  }

  lemma RefusedPolicies(rows: seq<Row>, policy: Policy)
    requires rows != [] && ValidTimestamp(At(LatestAt(rows)))
    ensures ResolvePolicy(rows, policy).Err? ==>
      ResolvePolicy(rows, policy).error in {BlankSeed, InvalidBasisPoints, InvalidWindow, CutoffOutOfRange}
    ensures var r := ResolvePolicy(rows, policy);
      && (r == Err(BlankSeed) <==> Blank(policy.seed))
      && (r == Err(InvalidBasisPoints) <==> !Blank(policy.seed) && BadPoints(policy))
      && (r == Err(InvalidWindow) <==> !Blank(policy.seed) && BadWindows(policy))
      && (r == Err(CutoffOutOfRange) <==>
            !Blank(policy.seed) && !BadWindows(policy) && BeforeTheCalendar(policy, LatestAt(rows)))
  {}

  lemma AuditRefuses(inputs: seq<Input>, rows: seq<Row>, policy: Policy, hash: Hasher)
    requires inputs != [] && Acceptable(inputs) && RowsOf(inputs, rows) && Normalize(inputs, {}) == Ok(rows)
    ensures var r, resolved := PlanOf(inputs, policy, hash), ResolvePolicy(rows, policy);
      if resolved.Err? then r == Err(resolved.error) else r.Ok? || r == Err(LeakageFailed)
  {
    var resolved := ResolvePolicy(rows, policy);
    if resolved.Ok? {
      AssignmentsAuditable(inputs, rows, resolved.value, hash);
      AuditErrorMeaning(Assignments(rows, resolved.value, hash));
    }
  }

  /** A request on good rows is refused for its seed, its basis points or its windows; else for dates before the calendar; else only by the audit. */
  lemma RefusedRequests(inputs: seq<Input>, policy: Policy, hash: Hasher, reference: int)
    requires inputs != [] && Acceptable(inputs) && IsReference(inputs, reference)
    ensures PlanOf(inputs, policy, hash).Err? ==>
      PlanOf(inputs, policy, hash).error in {BlankSeed, InvalidBasisPoints, InvalidWindow, CutoffOutOfRange, LeakageFailed}
    ensures var r := PlanOf(inputs, policy, hash);
      && (r == Err(BlankSeed) <==> Blank(policy.seed))
      && (r == Err(InvalidBasisPoints) <==> !Blank(policy.seed) && BadPoints(policy))
      && (r == Err(InvalidWindow) <==> !Blank(policy.seed) && BadWindows(policy))
      && (r == Err(CutoffOutOfRange) <==>
            !Blank(policy.seed) && !BadWindows(policy) && BeforeTheCalendar(policy, reference))
  {
    var rows := AcceptedRows(inputs);
    ReferenceIsLatest(inputs, rows, reference);
    RefusedPolicies(rows, policy);
    AuditRefuses(inputs, rows, policy, hash);
  }

  // ---- what the audit counts ----

  ghost predicate GroupIsSplit(rows: seq<Assignment>, h: string) {
    exists a, b :: a in rows && b in rows && a.groupHash == h == b.groupHash && a.split != b.split
  }

  ghost predicate TargetIsSplit(rows: seq<Assignment>, t: string) {
    exists a, b :: a in rows && b in rows && a.targetId == t == b.targetId && a.split != b.split
  }

  lemma GroupSplitsMeaning(rows: seq<Assignment>, h: string)
    ensures |GroupSplits(rows, h)| > 1 <==> GroupIsSplit(rows, h)
  {
    var s := GroupSplits(rows, h);
    AtMostOne(s);
    if |s| > 1 {
      var x, y :| x in s && y in s && x != y;
      var a :| a in rows && a.groupHash == h && a.split == x;
      var b :| b in rows && b.groupHash == h && b.split == y;
    }
    if GroupIsSplit(rows, h) {
      var a, b :| a in rows && b in rows && a.groupHash == h == b.groupHash && a.split != b.split;
      assert a.split in s && b.split in s;
    }
  }

  lemma TargetSplitsMeaning(rows: seq<Assignment>, t: string)
    ensures |TargetSplits(rows, t)| > 1 <==> TargetIsSplit(rows, t)
  {
    var s := TargetSplits(rows, t);
    AtMostOne(s);
    if |s| > 1 {
      var x, y :| x in s && y in s && x != y;
      var a :| a in rows && a.targetId == t && a.split == x;
      var b :| b in rows && b.targetId == t && b.split == y;
    }
    if TargetIsSplit(rows, t) {
      var a, b :| a in rows && b in rows && a.targetId == t == b.targetId && a.split != b.split;
      assert a.split in s && b.split in s;
    }
  }

  lemma SplitGroups(rows: seq<Assignment>)
    ensures (set h | h in Hashes(rows) && |GroupSplits(rows, h)| > 1) == set r | r in rows && GroupIsSplit(rows, r.groupHash) :: r.groupHash
  {
    forall h ensures |GroupSplits(rows, h)| > 1 <==> GroupIsSplit(rows, h) { GroupSplitsMeaning(rows, h); }
  }

  lemma SplitTargets(rows: seq<Assignment>)
    ensures (set t | t in Targets(rows) && |TargetSplits(rows, t)| > 1) == set r | r in rows && TargetIsSplit(rows, r.targetId) :: r.targetId
  {
    forall t ensures |TargetSplits(rows, t)| > 1 <==> TargetIsSplit(rows, t) { TargetSplitsMeaning(rows, t); }
  }

  /** The audit counts the rows, the groups, the groups and targets with rows in two splits. */
  lemma AuditCountsMeaning(rows: seq<Assignment>, policy: Resolved)
    requires AuditOf(rows, policy).Ok?
    ensures var audit := AuditOf(rows, policy).value;
      && audit.rowCount == |rows|
      && audit.groupCount == |set r | r in rows :: r.groupHash|
      && audit.groupOverlapCount == |set r | r in rows && GroupIsSplit(rows, r.groupHash) :: r.groupHash|
      && audit.targetOverlapCount == |set r | r in rows && TargetIsSplit(rows, r.targetId) :: r.targetId|
  {
    SplitGroups(rows);
    SplitTargets(rows);
  }

  /** A row is out of time when its split is not the one its group's newest event calls for. */
  ghost predicate OutOfTime(rows: seq<Assignment>, i: int, policy: Resolved)
    requires policy.TimePolicy? && 0 <= i < |rows|
  {
    exists t :: IsLatest(rows, rows[i].groupHash, t) &&
      rows[i].split != (if t < policy.validationCutoffAt then Train else if t < policy.testCutoffAt then Validation else Test)
  }

  lemma LatestExists(rows: seq<Assignment>, i: int)
    requires 0 <= i < |rows| && forall r | r in rows :: r.occurredAt.At?
    ensures exists t :: IsLatest(rows, rows[i].groupHash, t)
  {
    var k := NewestOfGroup(rows, rows[i].groupHash, |rows|);
    assert rows[i] in rows;
    assert rows[k] in rows;
    assert IsLatest(rows, rows[i].groupHash, rows[k].occurredAt.ms);
  }

  lemma {:induction false} NewestOfGroup(rows: seq<Assignment>, h: string, n: nat) returns (k: int)
    requires n <= |rows| && forall r | r in rows :: r.occurredAt.At?
    ensures k == -1 || (0 <= k < n && rows[k].groupHash == h)
    ensures forall m | 0 <= m < n && rows[m].groupHash == h :: k != -1 && rows[m].occurredAt.ms <= rows[k].occurredAt.ms
  {
    if n == 0 {
      k := -1;
    } else {
      k := NewestOfGroup(rows, h, n - 1);
      if rows[n - 1].groupHash == h && (k == -1 || rows[k].occurredAt.ms < rows[n - 1].occurredAt.ms) { k := n - 1; }
    }
  }

  lemma TimelyMeaning(rows: seq<Assignment>, i: int, policy: Resolved)
    requires policy.TimePolicy? && 0 <= i < |rows| && forall r | r in rows :: r.occurredAt.At?
    ensures Timely(rows, rows[i], policy) <==> !OutOfTime(rows, i, policy)
  {
    LatestExists(rows, i);
    var t :| IsLatest(rows, rows[i].groupHash, t);
    LatestUnique(rows, rows[i].groupHash, t);
  }

  ghost function LateRows(rows: seq<Assignment>, n: nat, policy: Resolved): nat
    requires policy.TimePolicy? && n <= |rows|
  {
    var late := i => 0 <= i < |rows| && OutOfTime(rows, i, policy);
    |set i | 0 <= i < n && late(i)|
  }

  lemma {:induction false} UntimelyCounts(rows: seq<Assignment>, n: nat, policy: Resolved)
    requires policy.TimePolicy? && n <= |rows| && forall r | r in rows :: r.occurredAt.At?
    ensures Untimely(rows, n, policy) == LateRows(rows, n, policy)
  {
    if n > 0 {
      UntimelyCounts(rows, n - 1, policy);
      TimelyMeaning(rows, n - 1, policy);
      CountStep(i => 0 <= i < |rows| && OutOfTime(rows, i, policy), n);
    }
  }

  lemma CountStep(p: int -> bool, n: nat)
    requires n > 0
    ensures |set i | 0 <= i < n && p(i)| == |set i | 0 <= i < n - 1 && p(i)| + if p(n - 1) then 1 else 0
  {
    var before := set i | 0 <= i < n - 1 && p(i);
    assert (set i | 0 <= i < n && p(i)) == if p(n - 1) then before + {n - 1} else before;
  }

  /** The temporal violations are the rows out of time; a hash policy has none. */
  lemma ViolationsMeaning(rows: seq<Assignment>, policy: Resolved)
    requires AuditOf(rows, policy).Ok?
    ensures AuditOf(rows, policy).value.temporalViolationCount ==
      if policy.TimePolicy? then LateRows(rows, |rows|, policy) else 0
  {
    AuditErrorMeaning(rows);
    if policy.TimePolicy? { UntimelyCounts(rows, |rows|, policy); }
  }
}
