/**
 * Snapshots, the training runs and models made from them, and the evaluations, aliases and canaries that rest on them:
 * what a revocation does to all of these in one transaction.
 */
module Lineage {
  import opened Wrappers

  datatype SnapshotStatus = Validated | SnapshotApproved | SnapshotRevoked
  datatype RunStatus = Queued | Running | Succeeded | Blocked | Failed | RunRevoked
  datatype ModelStatus = Candidate | Approved | Rejected | Retired
  datatype EvaluationStatus = Passed | NotPassed | EvaluationRevoked
  datatype CanaryStatus = Monitoring | Superseded | Closed

  /** `rules` are the merchant rules whose labels the snapshot holds. */
  datatype Snapshot = Snapshot(rules: set<string>, status: SnapshotStatus)
  datatype TrainingRun = TrainingRun(snapshot: string, status: RunStatus, model: Option<string>, artifactKey: Option<string>,
                                     completedAt: Option<int>, revokedAt: Option<int>, purgedAt: Option<int>)
  datatype Model = Model(identity: string, status: ModelStatus)
  datatype Evaluation = Evaluation(snapshot: string, status: EvaluationStatus)
  datatype Alias = Alias(model: string, evaluation: string, suspended: bool)
  datatype Canary = Canary(alias: string, status: CanaryStatus)

  datatype Tables = Tables(snapshots: map<string, Snapshot>, runs: map<string, TrainingRun>, models: map<string, Model>,
                           evaluations: map<string, Evaluation>, aliases: map<string, Alias>, canaries: map<string, Canary>)

  // ---- training runs and their models ----

  /** A run that is revoked already keeps its date; a run that never completed completes now. */
  function RevokedRun(r: TrainingRun, now: int): TrainingRun {
    if r.status == RunRevoked then r
    else r.(status := RunRevoked, revokedAt := Some(now), completedAt := if r.completedAt.None? then Some(now) else r.completedAt)
  }

  function RevokedModel(m: Model): Model {
    if m.status == Candidate then m.(status := Rejected) else if m.status == Approved then m.(status := Retired) else m
  }

  function RunsOf(t: Tables, snapshots: set<string>): set<string> { set r | r in t.runs && t.runs[r].snapshot in snapshots }

  function ModelsOf(t: Tables, snapshots: set<string>): set<string> {
    set r | r in t.runs && t.runs[r].snapshot in snapshots && t.runs[r].model.Some? :: t.runs[r].model.value
  }

  /** Artifacts that still have to be deleted. */
  function Unpurged(t: Tables, snapshots: set<string>): set<string> {
    set r | r in t.runs && t.runs[r].snapshot in snapshots && t.runs[r].artifactKey.Some? && t.runs[r].purgedAt.None?
  }

  lemma UnpurgedMeaning(t: Tables, snapshots: set<string>)
    ensures forall r :: r in Unpurged(t, snapshots)
                   <==> r in t.runs && t.runs[r].snapshot in snapshots && t.runs[r].artifactKey.Some? && t.runs[r].purgedAt.None?
  {
  }

  function RunsRevoked(runs: map<string, TrainingRun>, ids: set<string>, now: int): map<string, TrainingRun> {
    map r | r in runs :: if r in ids then RevokedRun(runs[r], now) else runs[r]
  }

  function ModelsRevoked(models: map<string, Model>, ids: set<string>): map<string, Model> {
    map m | m in models :: if m in ids then RevokedModel(models[m]) else models[m]
  }

  function TrainingRevoked(t: Tables, snapshots: set<string>, now: int): Tables {
    t.(runs := RunsRevoked(t.runs, RunsOf(t, snapshots), now), models := ModelsRevoked(t.models, ModelsOf(t, snapshots)))
  }

  // ---- the rest of the chain ----

  function SnapshotsWith(t: Tables, rules: set<string>): set<string> {
    set s | s in t.snapshots && t.snapshots[s].rules * rules != {} && t.snapshots[s].status != SnapshotRevoked
  }

  function SnapshotRowsRevoked(rows: map<string, Snapshot>, ids: set<string>): map<string, Snapshot> {
    map s | s in rows :: if s in ids then rows[s].(status := SnapshotRevoked) else rows[s]
  }

  function SnapshotsRevoked(t: Tables, ids: set<string>): Tables {
    t.(snapshots := SnapshotRowsRevoked(t.snapshots, ids))
  }

  function EvaluationsOn(t: Tables, snapshots: set<string>): set<string> {
    set e | e in t.evaluations && t.evaluations[e].snapshot in snapshots && t.evaluations[e].status != EvaluationRevoked
  }

  function AliasesOn(t: Tables, evaluations: set<string>): set<string> { set a | a in t.aliases && t.aliases[a].evaluation in evaluations }

  function EvaluationsRevoked(rows: map<string, Evaluation>, ids: set<string>): map<string, Evaluation> {
    map e | e in rows :: if e in ids then rows[e].(status := EvaluationRevoked) else rows[e]
  }

  function AliasesSuspended(rows: map<string, Alias>, ids: set<string>): map<string, Alias> {
    map a | a in rows :: if a in ids then rows[a].(suspended := true) else rows[a]
  }

  function CanariesSuperseded(rows: map<string, Canary>, aliases: set<string>): map<string, Canary> {
    map c | c in rows :: if rows[c].alias in aliases && rows[c].status == Monitoring then rows[c].(status := Superseded) else rows[c]
  }

  function EvidenceRevoked(t: Tables, evaluations: set<string>): Tables {
    t.(evaluations := EvaluationsRevoked(t.evaluations, evaluations),
       aliases := AliasesSuspended(t.aliases, AliasesOn(t, evaluations)),
       canaries := CanariesSuperseded(t.canaries, AliasesOn(t, evaluations)))
  }

  /** The whole chain over the given snapshots. */
  function Cascade(t: Tables, snapshots: set<string>, now: int): Tables {
    EvidenceRevoked(TrainingRevoked(SnapshotsRevoked(t, snapshots), snapshots, now), EvaluationsOn(t, snapshots))
  }

  lemma SameRows(t: Tables, snapshots: set<string>, now: int)
    ensures Unpurged(SnapshotsRevoked(t, snapshots), snapshots) == Unpurged(t, snapshots)
    ensures EvaluationsOn(TrainingRevoked(SnapshotsRevoked(t, snapshots), snapshots, now), snapshots) == EvaluationsOn(t, snapshots)
  {
  }

  // ---- the same, row by row ----

  /** The snapshot holds the label of one of these rules, and was not revoked before. */
  ghost predicate Touched(t: Tables, s: string, rules: set<string>) {
    s in t.snapshots && t.snapshots[s].status != SnapshotRevoked && exists r :: r in rules && r in t.snapshots[s].rules
  }

  /** A run of a touched snapshot trained this model. */
  ghost predicate TrainedOnTouched(t: Tables, m: string, rules: set<string>) {
    exists r :: r in t.runs && Touched(t, t.runs[r].snapshot, rules) && t.runs[r].model == Some(m)
  }

  /** The alias serves on the strength of an evaluation over a touched snapshot. */
  ghost predicate ServesTouched(t: Tables, a: string, rules: set<string>) {
    && a in t.aliases && t.aliases[a].evaluation in t.evaluations
    && t.evaluations[t.aliases[a].evaluation].status != EvaluationRevoked
    && Touched(t, t.evaluations[t.aliases[a].evaluation].snapshot, rules)
  }

  ghost predicate SnapshotsFall(t: Tables, u: Tables, rules: set<string>) {
    && u.snapshots.Keys == t.snapshots.Keys
    && forall s | s in t.snapshots ::
         u.snapshots[s] == if Touched(t, s, rules) then Snapshot(t.snapshots[s].rules, SnapshotRevoked) else t.snapshots[s]
  }

  ghost predicate RunsFall(t: Tables, u: Tables, rules: set<string>, now: int) {
    && u.runs.Keys == t.runs.Keys
    && forall r | r in t.runs :: RunFalls(t.runs[r], u.runs[r], Touched(t, t.runs[r].snapshot, rules), now)
  }

  /** Unless revoked already, the run is revoked now, and completed now unless completed before. */
  ghost predicate RunFalls(before: TrainingRun, after: TrainingRun, touched: bool, now: int) {
    if touched && before.status != RunRevoked then
      && after.status == RunRevoked && after.revokedAt == Some(now)
      && after.completedAt == (if before.completedAt.Some? then before.completedAt else Some(now))
      && after.snapshot == before.snapshot && after.model == before.model && after.artifactKey == before.artifactKey && after.purgedAt == before.purgedAt
    else after == before
  }

  ghost predicate ModelsFall(t: Tables, u: Tables, rules: set<string>) {
    && u.models.Keys == t.models.Keys
    && forall m | m in t.models :: ModelFalls(t.models[m], u.models[m], TrainedOnTouched(t, m, rules))
  }

  ghost predicate ModelFalls(before: Model, after: Model, touched: bool) {
    && after.identity == before.identity
    && after.status == match before.status
         case Candidate => if touched then Rejected else Candidate
         case Approved => if touched then Retired else Approved
         case Rejected => Rejected
         case Retired => Retired
  }

  ghost predicate EvidenceFalls(t: Tables, u: Tables, rules: set<string>) {
    && u.evaluations.Keys == t.evaluations.Keys && u.aliases.Keys == t.aliases.Keys && u.canaries.Keys == t.canaries.Keys
    && (forall e | e in t.evaluations :: u.evaluations[e] ==
          Evaluation(t.evaluations[e].snapshot, if Touched(t, t.evaluations[e].snapshot, rules) then EvaluationRevoked else t.evaluations[e].status))
    && (forall a | a in t.aliases :: u.aliases[a] ==
          Alias(t.aliases[a].model, t.aliases[a].evaluation, t.aliases[a].suspended || ServesTouched(t, a, rules)))
    && (forall c | c in t.canaries :: u.canaries[c] ==
          Canary(t.canaries[c].alias, if t.canaries[c].status == Monitoring && ServesTouched(t, t.canaries[c].alias, rules) then Superseded
                                      else t.canaries[c].status))
  }

  /** Every touched snapshot falls, with its runs and their models, its evaluations, and the aliases and canaries on them; all else stays. */
  ghost predicate LineageFalls(t: Tables, u: Tables, rules: set<string>, now: int) {
    SnapshotsFall(t, u, rules) && RunsFall(t, u, rules, now) && ModelsFall(t, u, rules) && EvidenceFalls(t, u, rules)
  }

  /** A named run that is revoked is marked as purged now, unless it was marked before. */
  ghost predicate PurgeMarks(before: TrainingRun, after: TrainingRun, named: bool, now: int) {
    if named && before.status == RunRevoked && before.purgedAt.None? then after == before.(purgedAt := Some(now)) else after == before
  }

  /** Every run of these snapshots falls, and every model trained by one; the other runs and models, and all else, stay. */
  ghost predicate TrainingFallsFor(t: Tables, u: Tables, ids: set<string>, now: int) {
    && u == t.(runs := u.runs, models := u.models) && u.runs.Keys == t.runs.Keys && u.models.Keys == t.models.Keys
    && (forall r | r in t.runs :: RunFalls(t.runs[r], u.runs[r], t.runs[r].snapshot in ids, now))
    && (forall m | m in t.models :: ModelFalls(t.models[m], u.models[m], exists r :: r in t.runs && t.runs[r].snapshot in ids && t.runs[r].model == Some(m)))
  }

  lemma TrainingRevokedFalls(t: Tables, ids: set<string>, now: int)
    ensures TrainingFallsFor(t, TrainingRevoked(t, ids, now), ids, now)
  {
    forall m ensures m in ModelsOf(t, ids) <==> exists r :: r in t.runs && t.runs[r].snapshot in ids && t.runs[r].model == Some(m) {
      if m in ModelsOf(t, ids) { var r :| r in t.runs && t.runs[r].snapshot in ids && t.runs[r].model == Some(m); }
    }
  }

  lemma SelectedIffTouched(t: Tables, rules: set<string>, s: string)
    ensures s in SnapshotsWith(t, rules) <==> Touched(t, s, rules)
  {
    if Touched(t, s, rules) {
      var r :| r in rules && r in t.snapshots[s].rules;
      assert r in t.snapshots[s].rules * rules;
    }
    if s in SnapshotsWith(t, rules) {
      var r :| r in t.snapshots[s].rules * rules;
    }
  }

  lemma AllSelected(t: Tables, rules: set<string>)
    ensures forall s :: s in SnapshotsWith(t, rules) <==> Touched(t, s, rules)
  {
    forall s ensures s in SnapshotsWith(t, rules) <==> Touched(t, s, rules) { SelectedIffTouched(t, rules, s); }
  }

  lemma TrainingFalls(t: Tables, rules: set<string>, now: int)
    ensures var u := Cascade(t, SnapshotsWith(t, rules), now); RunsFall(t, u, rules, now) && ModelsFall(t, u, rules)
  {
    AllSelected(t, rules);
    var ids := SnapshotsWith(t, rules);
    forall m ensures m in ModelsOf(t, ids) <==> TrainedOnTouched(t, m, rules) {
      if m in ModelsOf(t, ids) { var r :| r in t.runs && t.runs[r].snapshot in ids && t.runs[r].model == Some(m); }
    }
    assert ModelsOf(SnapshotsRevoked(t, ids), ids) == ModelsOf(t, ids) && RunsOf(SnapshotsRevoked(t, ids), ids) == RunsOf(t, ids);
  }

  lemma ServingFalls(t: Tables, rules: set<string>, now: int)
    ensures var u := Cascade(t, SnapshotsWith(t, rules), now); SnapshotsFall(t, u, rules) && EvidenceFalls(t, u, rules)
  {
    AllSelected(t, rules);
  }

  lemma CascadeFalls(t: Tables, rules: set<string>, now: int)
    ensures LineageFalls(t, Cascade(t, SnapshotsWith(t, rules), now), rules, now)
  {
    TrainingFalls(t, rules, now);
    ServingFalls(t, rules, now);
  }

  class LineageStore {
    var snapshots: map<string, Snapshot>
    var runs: map<string, TrainingRun>
    var models: map<string, Model>
    var evaluations: map<string, Evaluation>
    var aliases: map<string, Alias>
    var canaries: map<string, Canary>

    constructor (t: Tables)
      ensures State() == t
    {
      snapshots, runs, models := t.snapshots, t.runs, t.models;
      evaluations, aliases, canaries := t.evaluations, t.aliases, t.canaries;
    }

    ghost function State(): Tables
      reads this
    {
      Tables(snapshots, runs, models, evaluations, aliases, canaries)
    }

    /** Unfinished runs and finished runs are updated apart. */
    method UpdateRuns(mine: set<string>, now: int)
      modifies `runs
      ensures runs == RunsRevoked(old(runs), mine, now)
    {
      ghost var before := runs;
      var active := set r | r in mine && r in runs && runs[r].status != RunRevoked;
      var unfinished := set r | r in active && runs[r].completedAt.None?;
      runs := map r | r in runs ::
          if r in unfinished then runs[r].(status := RunRevoked, completedAt := Some(now), revokedAt := Some(now)) else runs[r];
      var finished := active - unfinished;
      runs := map r | r in runs :: if r in finished then runs[r].(status := RunRevoked, revokedAt := Some(now)) else runs[r];
      forall r | r in runs ensures runs[r] == RunsRevoked(before, mine, now)[r] {}
    }

    /** Candidates and approved models are updated apart. */
    method UpdateModels(linked: set<string>)
      modifies `models
      ensures models == ModelsRevoked(old(models), linked)
    {
      ghost var before := models;
      models := map m | m in models :: if m in linked && models[m].status == Candidate then models[m].(status := Rejected) else models[m];
      models := map m | m in models :: if m in linked && models[m].status == Approved then models[m].(status := Retired) else models[m];
      forall m | m in models ensures models[m] == ModelsRevoked(before, linked)[m] {}
    }

    /** The runs of the snapshots, their models, and those with an artifact left. */
    method SelectTraining(ids: set<string>) returns (existing: set<string>, linked: set<string>, unpurged: set<string>)
      ensures existing == RunsOf(State(), ids) && linked == ModelsOf(State(), ids) && unpurged == Unpurged(State(), ids)
    {
      existing := set r | r in runs && runs[r].snapshot in ids;
      linked := set r | r in existing && runs[r].model.Some? :: runs[r].model.value;
      unpurged := set r | r in existing && runs[r].artifactKey.Some? && runs[r].purgedAt.None?;
    }

    /** The four updates. */
    method UpdateTraining(ids: set<string>, now: int) returns (affected: nat, unpurged: set<string>)
      modifies `runs, `models
      ensures State() == TrainingRevoked(old(State()), ids, now)
      ensures affected == |RunsOf(old(State()), ids)| && unpurged == Unpurged(old(State()), ids)
    {
      if ids == {} {
        NoTraining(State(), now);
        return 0, {};
      }
      var existing, linked;
      existing, linked, unpurged := SelectTraining(ids);
      affected := |existing|;
      UpdateRuns(existing, now);
      UpdateModels(linked);
    }

    method RevokeTrainingRuns(ids: set<string>, now: int) returns (affected: nat, unpurged: set<string>)
      modifies `runs, `models
      ensures State() == TrainingRevoked(old(State()), ids, now)
      ensures affected == |RunsOf(old(State()), ids)| && unpurged == Unpurged(old(State()), ids)
      ensures TrainingFallsFor(old(State()), State(), ids, now)
      ensures forall r :: r in unpurged <==> r in old(runs) && old(runs)[r].snapshot in ids && old(runs)[r].artifactKey.Some? && old(runs)[r].purgedAt.None?
    {
      TrainingRevokedFalls(State(), ids, now);
      UnpurgedMeaning(State(), ids);
      affected, unpurged := UpdateTraining(ids, now);
    }

    method MarkTrainingArtifactsPurged(ids: set<string>, now: int)
      modifies `runs
      ensures State() == Purged(old(State()), ids, now)
      ensures runs.Keys == old(runs).Keys && forall r | r in runs :: PurgeMarks(old(runs)[r], runs[r], r in ids, now)
    {
      runs := map r | r in runs ::
          if r in ids && runs[r].status == RunRevoked && runs[r].purgedAt.None? then runs[r].(purgedAt := Some(now)) else runs[r];
    }

    /** Returns early as soon as a stage touches no row; the state is nevertheless that of the whole chain. */
    method RevokeMerchantRuleLineage(rules: set<string>, now: int) returns (revoked: set<string>, unpurged: set<string>)
      modifies this
      ensures forall s :: s in revoked <==> Touched(old(State()), s, rules)
      ensures LineageFalls(old(State()), State(), rules, now)
      ensures State() == Cascade(old(State()), SnapshotsWith(old(State()), rules), now)
      ensures unpurged == Unpurged(old(State()), revoked)
    {
      ghost var t := State();
      revoked, unpurged := {}, {};
      NothingToCascade(t, now);
      if rules != {} {
        var candidates := set s | s in snapshots && snapshots[s].rules * rules != {};
        revoked := set s | s in candidates && snapshots[s].status != SnapshotRevoked;
        if revoked != {} { unpurged := RevokeSnapshots(revoked, now); }
      }
      assert revoked == SnapshotsWith(t, rules);
      CascadeFalls(t, rules, now);
      AllSelected(t, rules);
    }

    method RevokeSnapshots(revoked: set<string>, now: int) returns (unpurged: set<string>)
      modifies this
      ensures State() == Cascade(old(State()), revoked, now)
      ensures unpurged == Unpurged(old(State()), revoked)
    {
      ghost var t := State();
      snapshots := SnapshotRowsRevoked(snapshots, revoked);
      var affected;
      affected, unpurged := RevokeTrainingRuns(revoked, now);
      ghost var u := TrainingRevoked(SnapshotsRevoked(t, revoked), revoked, now);
      SameRows(t, revoked, now);
      var hit := set e | e in evaluations && evaluations[e].snapshot in revoked && evaluations[e].status != EvaluationRevoked;
      assert hit == EvaluationsOn(u, revoked);
      RevokeEvidence(hit);
    }

    method RevokeEvidence(hit: set<string>)
      modifies `evaluations, `aliases, `canaries
      ensures State() == EvidenceRevoked(old(State()), hit)
    {
      ghost var u := State();
      evaluations := EvaluationsRevoked(evaluations, hit);
      if hit == {} {
        NoEvidence(u, hit);
        return;
      }
      var suspended := set a | a in aliases && aliases[a].evaluation in hit;
      assert suspended == AliasesOn(u, hit);
      aliases := AliasesSuspended(aliases, suspended);
      if suspended == {} {
        assert canaries == EvidenceRevoked(u, hit).canaries;
        return;
      }
      canaries := CanariesSuperseded(canaries, suspended);
    }
  }

  function Purged(t: Tables, ids: set<string>, now: int): Tables {
    t.(runs := map r | r in t.runs ::
         if r in ids && t.runs[r].status == RunRevoked && t.runs[r].purgedAt.None? then t.runs[r].(purgedAt := Some(now)) else t.runs[r])
  }

  lemma NoEvidence(t: Tables, none: set<string>)
    requires none == {}
    ensures EvidenceRevoked(t, none) == t
  {
    assert AliasesOn(t, none) == {};
    assert EvidenceRevoked(t, none).evaluations == t.evaluations;
    assert EvidenceRevoked(t, none).aliases == t.aliases;
    assert EvidenceRevoked(t, none).canaries == t.canaries;
  }

  lemma NoTraining(t: Tables, now: int)
    ensures TrainingRevoked(t, {}, now) == t && Unpurged(t, {}) == {} && RunsOf(t, {}) == {}
  {
    assert RunsOf(t, {}) == {} && ModelsOf(t, {}) == {};
    assert RunsRevoked(t.runs, {}, now) == t.runs && ModelsRevoked(t.models, {}) == t.models;
  }

  lemma NothingToCascade(t: Tables, now: int)
    ensures Cascade(t, {}, now) == t && Unpurged(t, {}) == {}
  {
    assert SnapshotsRevoked(t, {}).snapshots == t.snapshots;
    NoTraining(t, now);
    assert EvaluationsOn(t, {}) == {};
    NoEvidence(t, {});
  }
}
