/**
 * Trainers, operators, revocations and purges working on the lineage tables at the same time.
 *
 * A transaction is one step; writing or deleting an object is a step of its own. The artifact key of a run is a function
 * of its id, so object storage is the set of runs whose artifact exists.
 */
module LineageTheorems {
  import opened Wrappers
  import opened Lineage

  /** A trainer holds a claimed run, has written its artifact, or is on its way out, perhaps with an artifact to remove. */
  datatype Stage = Claimed | Stored | Leaving(stored: bool)

  datatype Purge = Purge(runs: set<string>, deleted: set<string>)

  datatype Sys = Sys(t: Tables, trainers: map<string, Stage>, objects: set<string>, purges: map<string, Purge>)

  datatype Action =
    | AddSnapshot(id: string, rules: set<string>)
    | ApproveSnapshot(id: string)
    | RequestRun(id: string, snapshot: string)
    | Claim(id: string)
    | Store(id: string, kept: bool, ok: bool)
    | Publish(id: string, model: string, now: int, acked: bool)
    | Stop(id: string)
    | CleanUp(id: string, deleted: bool)
    | MarkTerminal(id: string, blocked: bool, now: int)
    | CrashTrainer(id: string)
    | RegisterModel(id: string)
    | ApproveModel(id: string)
    | RecordEvaluation(id: string, snapshot: string, passed: bool)
    | Promote(id: string, model: string, evaluation: string, canary: string)
    | Suspend(id: string)
    | RevokeByRules(rules: set<string>, now: int)
    | RevokeSnapshot(id: string, now: int, job: string)
    | DeleteArtifact(job: string, id: string)
    | MarkPurged(job: string, now: int)

  predicate IsApproved(t: Tables, snapshot: string) { snapshot in t.snapshots && t.snapshots[snapshot].status == SnapshotApproved }

  predicate At(s: Sys, run: string, stage: Stage) { run in s.trainers && s.trainers[run] == stage }

  predicate Enabled(s: Sys, a: Action) {
    match a
    case AddSnapshot(id, _) => id !in s.t.snapshots
    case ApproveSnapshot(id) => id in s.t.snapshots && s.t.snapshots[id].status == Validated
    case RequestRun(id, snapshot) => id !in s.t.runs && snapshot in s.t.snapshots
    case Claim(id) => id in s.t.runs && s.t.runs[id].status == Queued && IsApproved(s.t, s.t.runs[id].snapshot)
    case Store(id, kept, ok) => At(s, id, Claimed) && (ok ==> kept)
    case Publish(id, _, _, _) =>
      At(s, id, Stored) && id in s.t.runs && s.t.runs[id].status == Running && IsApproved(s.t, s.t.runs[id].snapshot)
    case Stop(id) => id in s.trainers && !s.trainers[id].Leaving?
    case CleanUp(id, _) => At(s, id, Leaving(true))
    case MarkTerminal(id, _, _) => At(s, id, Leaving(false)) && id in s.t.runs
    case CrashTrainer(id) => id in s.trainers
    case RegisterModel(id) => id !in s.t.models
    case ApproveModel(id) => id in s.t.models && s.t.models[id].status == Candidate
    case RecordEvaluation(id, snapshot, _) => id !in s.t.evaluations && snapshot in s.t.snapshots
    case Promote(_, model, evaluation, canary) =>
      && model in s.t.models && s.t.models[model].status == Approved && canary !in s.t.canaries
      && evaluation in s.t.evaluations && s.t.evaluations[evaluation].status == Passed && IsApproved(s.t, s.t.evaluations[evaluation].snapshot)
    case Suspend(id) => id in s.t.aliases
    case RevokeByRules(_, _) => true
    case RevokeSnapshot(id, _, job) => id in s.t.snapshots && job !in s.purges
    case DeleteArtifact(job, id) => job in s.purges && id in s.purges[job].runs
    case MarkPurged(job, _) => job in s.purges && s.purges[job].deleted == s.purges[job].runs
  }

  function WithRun(s: Sys, id: string, r: TrainingRun): Sys { s.(t := s.t.(runs := s.t.runs[id := r])) }

  function Published(t: Tables, id: string, model: string, now: int): Tables
    requires id in t.runs
  {
    t.(runs := t.runs[id := t.runs[id].(status := Succeeded, model := Some(model), artifactKey := Some(id), completedAt := Some(now))],
       models := if model in t.models then t.models else t.models[model := Model(id, Candidate)])
  }

  /** An alias moves to new evidence; a canary of its old revision gives way to one of the new revision. */
  function Promoted(t: Tables, alias: string, model: string, evaluation: string, canary: string): Tables {
    var canaries := CanariesSuperseded(t.canaries, {alias});
    t.(aliases := t.aliases[alias := Alias(model, evaluation, false)],
       canaries := if alias in t.aliases then canaries[canary := Canary(alias, Monitoring)] else t.canaries)
  }

  /** The revocation asked for by an operator goes on over evaluations that were revoked before. */
  function SnapshotRevokedByOperator(t: Tables, snapshot: string, now: int): Tables {
    var evaluations := set e | e in t.evaluations && t.evaluations[e].snapshot == snapshot;
    TrainingRevoked(EvidenceRevoked(SnapshotsRevoked(t, {snapshot}), evaluations), {snapshot}, now)
  }

  function Next(s: Sys, a: Action): Sys
    requires Enabled(s, a)
  {
    match a
    case AddSnapshot(id, rules) => s.(t := s.t.(snapshots := s.t.snapshots[id := Snapshot(rules, Validated)]))
    case ApproveSnapshot(id) => s.(t := s.t.(snapshots := s.t.snapshots[id := s.t.snapshots[id].(status := SnapshotApproved)]))
    case RequestRun(id, snapshot) => WithRun(s, id, TrainingRun(snapshot, Queued, None, None, None, None, None))
    case Claim(id) => WithRun(s, id, s.t.runs[id].(status := Running)).(trainers := s.trainers[id := Claimed])
    case Store(id, kept, ok) =>
      s.(objects := if kept then s.objects + {id} else s.objects, trainers := s.trainers[id := if ok then Stored else Leaving(true)])
    case Publish(id, model, now, acked) =>
      s.(t := Published(s.t, id, model, now), trainers := if acked then s.trainers - {id} else s.trainers[id := Leaving(true)])
    case Stop(id) => s.(trainers := s.trainers[id := Leaving(s.trainers[id] == Stored)])
    case CleanUp(id, deleted) =>
      s.(objects := if deleted then s.objects - {id} else s.objects, trainers := s.trainers[id := Leaving(false)])
    case MarkTerminal(id, blocked, now) =>
      var r := s.t.runs[id];
      var ended := if r.status == Running then r.(status := if blocked then Blocked else Failed, completedAt := Some(now)) else r;
      WithRun(s, id, ended).(trainers := s.trainers - {id})
    case CrashTrainer(id) => s.(trainers := s.trainers - {id})
    case RegisterModel(id) => s.(t := s.t.(models := s.t.models[id := Model(id, Candidate)]))
    case ApproveModel(id) => s.(t := s.t.(models := s.t.models[id := s.t.models[id].(status := Approved)]))
    case RecordEvaluation(id, snapshot, passed) =>
      s.(t := s.t.(evaluations := s.t.evaluations[id := Evaluation(snapshot, if passed then Passed else NotPassed)]))
    case Promote(id, model, evaluation, canary) => s.(t := Promoted(s.t, id, model, evaluation, canary))
    case Suspend(id) => s.(t := s.t.(aliases := AliasesSuspended(s.t.aliases, {id}), canaries := CanariesSuperseded(s.t.canaries, {id})))
    case RevokeByRules(rules, now) => s.(t := Cascade(s.t, SnapshotsWith(s.t, rules), now))
    case RevokeSnapshot(id, now, job) =>
      var t := SnapshotRevokedByOperator(s.t, id, now);
      s.(t := t, purges := s.purges[job := Purge(Unpurged(t, {id}), {})])
    case DeleteArtifact(job, id) =>
      s.(objects := s.objects - {id}, purges := s.purges[job := s.purges[job].(deleted := s.purges[job].deleted + {id})])
    case MarkPurged(job, now) => s.(t := Purged(s.t, s.purges[job].runs, now))
  }

  // ---- invariant ----

  predicate IsOut(m: Model) { m.status == Rejected || m.status == Retired }

  /** The run rests on its snapshot, and its model falls with it. */
  predicate RunRests(t: Tables, r: string)
    requires r in t.runs
  {
    var x := t.runs[r];
    && x.snapshot in t.snapshots
    && (x.status == Running || x.status == Succeeded ==> t.snapshots[x.snapshot].status == SnapshotApproved)
    && (t.snapshots[x.snapshot].status == SnapshotRevoked ==> x.status == RunRevoked || x.status == Queued)
    && (x.model.Some? ==> x.model.value in t.models && (x.status == Succeeded || x.status == RunRevoked))
    && (x.model.Some? && x.status == RunRevoked ==> IsOut(t.models[x.model.value]))
    && (x.artifactKey.Some? <==> x.model.Some?) && (x.status == Succeeded ==> x.model.Some?)
    && (x.purgedAt.Some? ==> x.status == RunRevoked && x.model.Some?)
  }

  /** A trainer works on a run nobody else has finished, and a purged artifact is not written again. */
  predicate RunHeld(s: Sys, r: string)
    requires r in s.t.runs
  {
    var x := s.t.runs[r];
    && (x.status == Queued ==> r !in s.trainers && r !in s.objects && x.model.None?)
    && (r in s.trainers && !s.trainers[r].Leaving? ==> x.model.None?)
    && (At(s, r, Claimed) ==> r !in s.objects)
    && (x.purgedAt.Some? ==> r !in s.objects)
  }

  predicate AliasRests(t: Tables, a: string)
    requires a in t.aliases
  {
    var x := t.aliases[a];
    && x.evaluation in t.evaluations
    && (!x.suspended ==> t.evaluations[x.evaluation].status == Passed && IsApproved(t, t.evaluations[x.evaluation].snapshot))
  }

  predicate CanaryRests(t: Tables, c: string)
    requires c in t.canaries
  {
    t.canaries[c].alias in t.aliases && (t.canaries[c].status == Monitoring ==> !t.aliases[t.canaries[c].alias].suspended)
  }

  predicate PurgeKnows(s: Sys, j: string)
    requires j in s.purges
  {
    && s.purges[j].deleted <= s.purges[j].runs
    && forall r | r in s.purges[j].runs :: PurgesRun(s, s.purges[j], r)
  }

  predicate PurgesRun(s: Sys, p: Purge, r: string) {
    r in s.t.runs && s.t.runs[r].status == RunRevoked && s.t.runs[r].model.Some? && (r in p.deleted ==> r !in s.objects)
  }

  ghost predicate Inv(s: Sys) {
    && s.trainers.Keys <= s.t.runs.Keys && s.objects <= s.t.runs.Keys
    && (forall r {:trigger RunRests(s.t, r)} | r in s.t.runs :: RunRests(s.t, r))
    && (forall r {:trigger RunHeld(s, r)} | r in s.t.runs :: RunHeld(s, r))
    && (forall a {:trigger AliasRests(s.t, a)} | a in s.t.aliases :: AliasRests(s.t, a))
    && (forall c {:trigger CanaryRests(s.t, c)} | c in s.t.canaries :: CanaryRests(s.t, c))
    && (forall j {:trigger PurgeKnows(s, j)} | j in s.purges :: PurgeKnows(s, j))
  }

  predicate Revokes(a: Action) { a.RevokeByRules? || a.RevokeSnapshot? }

  /** What either revocation does to snapshots, runs and models. */
  predicate Revoked(t: Tables, u: Tables, ids: set<string>, now: int) {
    && u.snapshots == SnapshotRowsRevoked(t.snapshots, ids) && u.runs == RunsRevoked(t.runs, RunsOf(t, ids), now)
    && u.models == ModelsRevoked(t.models, ModelsOf(t, ids))
  }

  lemma RevocationRevokes(s: Sys, a: Action) returns (ids: set<string>)
    requires Enabled(s, a) && Revokes(a)
    ensures Revoked(s.t, Next(s, a).t, ids, a.now)
  {
    ids := if a.RevokeByRules? then SnapshotsWith(s.t, a.rules) else {a.id};
  }

  lemma RestsRevoked(t: Tables, u: Tables, ids: set<string>, now: int, r: string)
    requires Revoked(t, u, ids, now) && r in t.runs && RunRests(t, r)
    ensures r in u.runs && RunRests(u, r)
  {
  }

  lemma RunRevocationStep(s: Sys, a: Action, r: string)
    requires Inv(s) && Enabled(s, a) && Revokes(a) && r in s.t.runs
    ensures RunRests(Next(s, a).t, r)
  {
    assert RunRests(s.t, r);
    var ids := RevocationRevokes(s, a);
    RestsRevoked(s.t, Next(s, a).t, ids, a.now, r);
  }

  predicate OfTrainer(a: Action) {
    a.Claim? || a.Store? || a.Publish? || a.Stop? || a.CleanUp? || a.MarkTerminal? || a.CrashTrainer?
  }

  lemma RunTrainerStep(s: Sys, a: Action, r: string)
    requires Inv(s) && Enabled(s, a) && OfTrainer(a) && r in Next(s, a).t.runs
    ensures RunRests(Next(s, a).t, r)
  {
    assert RunRests(s.t, r) && RunHeld(s, r);
  }

  lemma RunOtherStep(s: Sys, a: Action, r: string)
    requires Inv(s) && Enabled(s, a) && !Revokes(a) && !OfTrainer(a) && r in Next(s, a).t.runs
    ensures RunRests(Next(s, a).t, r)
  {
    if r in s.t.runs { assert RunRests(s.t, r) && RunHeld(s, r); }
    if a.MarkPurged? && r in s.purges[a.job].runs { assert PurgeKnows(s, a.job) && PurgesRun(s, s.purges[a.job], r); }
  }

  lemma RunStep(s: Sys, a: Action, r: string)
    requires Inv(s) && Enabled(s, a) && r in Next(s, a).t.runs
    ensures RunRests(Next(s, a).t, r)
  {
    if Revokes(a) { RunRevocationStep(s, a, r); } else if OfTrainer(a) { RunTrainerStep(s, a, r); } else { RunOtherStep(s, a, r); }
  }

  lemma HeldTrainerStep(s: Sys, a: Action, r: string)
    requires Inv(s) && Enabled(s, a) && OfTrainer(a) && r in s.t.runs
    ensures RunHeld(Next(s, a), r)
  {
    assert RunRests(s.t, r) && RunHeld(s, r);
  }

  lemma HeldOtherStep(s: Sys, a: Action, r: string)
    requires Inv(s) && Enabled(s, a) && !OfTrainer(a) && r in Next(s, a).t.runs
    ensures RunHeld(Next(s, a), r)
  {
    if r in s.t.runs { assert RunRests(s.t, r) && RunHeld(s, r); }
    if a.MarkPurged? && r in s.purges[a.job].runs { assert PurgeKnows(s, a.job) && PurgesRun(s, s.purges[a.job], r); }
  }

  lemma HeldStep(s: Sys, a: Action, r: string)
    requires Inv(s) && Enabled(s, a) && r in Next(s, a).t.runs
    ensures RunHeld(Next(s, a), r)
  {
    if OfTrainer(a) { HeldTrainerStep(s, a, r); } else { HeldOtherStep(s, a, r); }
  }

  lemma AliasRevocationStep(s: Sys, a: Action, alias: string)
    requires Inv(s) && Enabled(s, a) && Revokes(a) && alias in Next(s, a).t.aliases
    ensures AliasRests(Next(s, a).t, alias)
  {
    assert alias in s.t.aliases && AliasRests(s.t, alias);
  }

  lemma AliasOtherStep(s: Sys, a: Action, alias: string)
    requires Inv(s) && Enabled(s, a) && !Revokes(a) && alias in Next(s, a).t.aliases
    ensures AliasRests(Next(s, a).t, alias)
  {
    if alias in s.t.aliases { assert AliasRests(s.t, alias); }
  }

  lemma AliasStep(s: Sys, a: Action, alias: string)
    requires Inv(s) && Enabled(s, a) && alias in Next(s, a).t.aliases
    ensures AliasRests(Next(s, a).t, alias)
  {
    if Revokes(a) { AliasRevocationStep(s, a, alias); } else { AliasOtherStep(s, a, alias); }
  }

  lemma CanaryRevocationStep(s: Sys, a: Action, c: string)
    requires Inv(s) && Enabled(s, a) && Revokes(a) && c in Next(s, a).t.canaries
    ensures CanaryRests(Next(s, a).t, c)
  {
    assert c in s.t.canaries && CanaryRests(s.t, c);
  }

  lemma CanaryOtherStep(s: Sys, a: Action, c: string)
    requires Inv(s) && Enabled(s, a) && !Revokes(a) && c in Next(s, a).t.canaries
    ensures CanaryRests(Next(s, a).t, c)
  {
    if c in s.t.canaries { assert CanaryRests(s.t, c); }
  }

  lemma CanaryStep(s: Sys, a: Action, c: string)
    requires Inv(s) && Enabled(s, a) && c in Next(s, a).t.canaries
    ensures CanaryRests(Next(s, a).t, c)
  {
    if Revokes(a) { CanaryRevocationStep(s, a, c); } else { CanaryOtherStep(s, a, c); }
  }

  lemma PurgeStep(s: Sys, a: Action, j: string)
    requires Inv(s) && Enabled(s, a) && j in Next(s, a).purges
    ensures PurgeKnows(Next(s, a), j)
  {
    if j in s.purges { assert PurgeKnows(s, j); }
    forall r | r in Next(s, a).purges[j].runs ensures PurgesRun(Next(s, a), Next(s, a).purges[j], r) {
      if j in s.purges && r in s.purges[j].runs { assert PurgesRun(s, s.purges[j], r); }
      if r in s.t.runs { assert RunRests(s.t, r) && RunHeld(s, r); }
    }
  }

  lemma NextKeeps(s: Sys, a: Action)
    requires Inv(s) && Enabled(s, a)
    ensures Inv(Next(s, a))
  {
    var u := Next(s, a);
    forall r | r in u.t.runs ensures RunRests(u.t, r) && RunHeld(u, r) {
      RunStep(s, a, r);
      HeldStep(s, a, r);
    }
    forall x | x in u.t.aliases ensures AliasRests(u.t, x) { AliasStep(s, a, x); }
    forall c | c in u.t.canaries ensures CanaryRests(u.t, c) { CanaryStep(s, a, c); }
    forall j | j in u.purges ensures PurgeKnows(u, j) { PurgeStep(s, a, j); }
  }

  const START := Sys(Tables(map[], map[], map[], map[], map[], map[]), map[], {}, map[])

  ghost predicate Run(states: seq<Sys>, actions: seq<Action>) {
    && |states| == |actions| + 1 && states[0] == START
    && forall i | 0 <= i < |actions| :: Enabled(states[i], actions[i]) && states[i + 1] == Next(states[i], actions[i])
  }

  lemma {:induction false} RunKeepsInv(states: seq<Sys>, actions: seq<Action>, n: nat)
    requires Run(states, actions) && n < |states|
    ensures Inv(states[n])
  {
    if n > 0 {
      RunKeepsInv(states, actions, n - 1);
      NextKeeps(states[n - 1], actions[n - 1]);
    }
  }

  // ---- what a revocation leaves behind ----

  predicate IsRevoked(s: Sys, snapshot: string) { snapshot in s.t.snapshots && s.t.snapshots[snapshot].status == SnapshotRevoked }

  predicate RunIsRevoked(s: Sys, r: string) { r in s.t.runs && s.t.runs[r].status == RunRevoked }

  predicate ModelIsOut(s: Sys, m: string) { m in s.t.models && IsOut(s.t.models[m]) }

  lemma SnapshotStaysRevoked(s: Sys, a: Action, snapshot: string)
    requires Enabled(s, a) && IsRevoked(s, snapshot)
    ensures IsRevoked(Next(s, a), snapshot)
  {
  }

  predicate SameRevokedRun(s: Sys, s': Sys, r: string)
    requires r in s.t.runs
  {
    RunIsRevoked(s', r) && s'.t.runs[r].snapshot == s.t.runs[r].snapshot && s'.t.runs[r].model == s.t.runs[r].model
  }

  lemma TrainerLeavesRevoked(s: Sys, a: Action, r: string)
    requires Inv(s) && Enabled(s, a) && OfTrainer(a) && RunIsRevoked(s, r)
    ensures SameRevokedRun(s, Next(s, a), r)
  {
    assert RunRests(s.t, r);
  }

  lemma RevocationLeavesRevoked(s: Sys, a: Action, r: string)
    requires Inv(s) && Enabled(s, a) && Revokes(a) && RunIsRevoked(s, r)
    ensures SameRevokedRun(s, Next(s, a), r)
  {
    assert RunRests(s.t, r);
  }

  lemma OthersLeaveRevoked(s: Sys, a: Action, r: string)
    requires Inv(s) && Enabled(s, a) && !OfTrainer(a) && !Revokes(a) && RunIsRevoked(s, r)
    ensures SameRevokedRun(s, Next(s, a), r)
  {
    assert RunRests(s.t, r);
  }

  lemma RunStaysRevoked(s: Sys, a: Action, r: string)
    requires Inv(s) && Enabled(s, a) && RunIsRevoked(s, r)
    ensures SameRevokedRun(s, Next(s, a), r)
  {
    if OfTrainer(a) { TrainerLeavesRevoked(s, a, r); }
    else if Revokes(a) { RevocationLeavesRevoked(s, a, r); }
    else { OthersLeaveRevoked(s, a, r); }
  }

  lemma ModelStaysOut(s: Sys, a: Action, m: string)
    requires Enabled(s, a) && ModelIsOut(s, m)
    ensures ModelIsOut(Next(s, a), m)
  {
  }

  lemma StayStep(states: seq<Sys>, actions: seq<Action>, j: nat, snapshot: string, r: string, m: string)
    requires Run(states, actions) && j + 1 < |states| && Inv(states[j])
    ensures IsRevoked(states[j], snapshot) ==> IsRevoked(states[j + 1], snapshot)
    ensures RunIsRevoked(states[j], r) ==> RunIsRevoked(states[j + 1], r)
    ensures ModelIsOut(states[j], m) ==> ModelIsOut(states[j + 1], m)
  {
    var s, a := states[j], actions[j];
    if IsRevoked(s, snapshot) { SnapshotStaysRevoked(s, a, snapshot); }
    if RunIsRevoked(s, r) { RunStaysRevoked(s, a, r); }
    if ModelIsOut(s, m) { ModelStaysOut(s, a, m); }
  }

  lemma {:induction false} AllStay(states: seq<Sys>, actions: seq<Action>, i: nat, j: nat, snapshot: string, r: string, m: string)
    requires Run(states, actions) && i <= j < |states|
    ensures IsRevoked(states[i], snapshot) ==> IsRevoked(states[j], snapshot)
    ensures RunIsRevoked(states[i], r) ==> RunIsRevoked(states[j], r)
    ensures ModelIsOut(states[i], m) ==> ModelIsOut(states[j], m)
  {
    if i < j {
      AllStay(states, actions, i, j - 1, snapshot, r, m);
      RunKeepsInv(states, actions, j - 1);
      StayStep(states, actions, j - 1, snapshot, r, m);
    }
  }

  lemma RevocationReachesRuns(s: Sys, a: Action, r: string)
    requires Inv(s) && Enabled(s, a) && r in s.t.runs && s.t.runs[r].snapshot in s.t.snapshots
    requires !IsRevoked(s, s.t.runs[r].snapshot) && IsRevoked(Next(s, a), s.t.runs[r].snapshot)
    ensures RunIsRevoked(Next(s, a), r)
  {
    OnlyRevocationRevokes(s, a, s.t.runs[r].snapshot);
    var ids := RevocationRevokes(s, a);
    SnapshotTakesRuns(s.t, Next(s, a).t, ids, a.now, r);
  }

  lemma OnlyRevocationRevokes(s: Sys, a: Action, snapshot: string)
    requires Enabled(s, a) && !IsRevoked(s, snapshot) && IsRevoked(Next(s, a), snapshot)
    ensures Revokes(a)
  {
  }

  lemma SnapshotTakesRuns(t: Tables, u: Tables, ids: set<string>, now: int, r: string)
    requires Revoked(t, u, ids, now) && r in t.runs && t.runs[r].snapshot in t.snapshots && t.runs[r].snapshot in u.snapshots
    requires t.snapshots[t.runs[r].snapshot].status != SnapshotRevoked && u.snapshots[t.runs[r].snapshot].status == SnapshotRevoked
    ensures r in u.runs && u.runs[r].status == RunRevoked
  {
  }

  /**
   * A run that exists when its snapshot is revoked is revoked with it and for good, whatever its trainer does next, and
   * the model linked to it is neither a candidate nor approved from then on.
   */
  lemma RevocationIsForGood(states: seq<Sys>, actions: seq<Action>, i: nat, j: nat, r: string)
    requires Run(states, actions) && i < j < |states| && r in states[i].t.runs
    requires !IsRevoked(states[i], states[i].t.runs[r].snapshot) && IsRevoked(states[i + 1], states[i].t.runs[r].snapshot)
    ensures RunIsRevoked(states[j], r)
    ensures states[j].t.runs[r].model.Some? ==> ModelIsOut(states[j], states[j].t.runs[r].model.value)
  {
    RunKeepsInv(states, actions, i);
    RunKeepsInv(states, actions, j);
    assert RunRests(states[i].t, r);
    RevocationReachesRuns(states[i], actions[i], r);
    AllStay(states, actions, i + 1, j, "", r, "");
    assert RunRests(states[j].t, r);
  }

  /** Nothing trained on a revoked snapshot succeeds any more; a run requested too late never even starts. */
  lemma NothingSucceedsAfterwards(states: seq<Sys>, actions: seq<Action>, i: nat, j: nat, snapshot: string, r: string)
    requires Run(states, actions) && i <= j < |states| && IsRevoked(states[i], snapshot)
    requires r in states[j].t.runs && states[j].t.runs[r].snapshot == snapshot
    ensures states[j].t.runs[r].status == RunRevoked || states[j].t.runs[r].status == Queued
  {
    AllStay(states, actions, i, j, snapshot, r, "");
    RunKeepsInv(states, actions, j);
    assert RunRests(states[j].t, r);
  }

  /** An alias that serves rests on a passed evaluation over an approved snapshot, and a monitored canary on such an alias. */
  lemma ServingRestsOnEvidence(states: seq<Sys>, actions: seq<Action>, n: nat, a: string, c: string)
    requires Run(states, actions) && n < |states|
    ensures a in states[n].t.aliases && !states[n].t.aliases[a].suspended ==>
              var e := states[n].t.aliases[a].evaluation;
              && e in states[n].t.evaluations && states[n].t.evaluations[e].status == Passed
              && IsApproved(states[n].t, states[n].t.evaluations[e].snapshot)
    ensures c in states[n].t.canaries && states[n].t.canaries[c].status == Monitoring ==>
              states[n].t.canaries[c].alias in states[n].t.aliases && !states[n].t.aliases[states[n].t.canaries[c].alias].suspended
  {
    RunKeepsInv(states, actions, n);
    if a in states[n].t.aliases { assert AliasRests(states[n].t, a); }
    if c in states[n].t.canaries { assert CanaryRests(states[n].t, c); }
  }

  /** An artifact marked as purged is gone, and one that is not gone is handed out again by the next revocation. */
  lemma PurgedIsGone(states: seq<Sys>, actions: seq<Action>, n: nat, r: string)
    requires Run(states, actions) && n < |states| && RunIsRevoked(states[n], r) && states[n].t.runs[r].artifactKey.Some?
    ensures r !in states[n].objects || r in Unpurged(states[n].t, {states[n].t.runs[r].snapshot})
    ensures states[n].t.runs[r].purgedAt.Some? ==> r !in states[n].objects
  {
    RunKeepsInv(states, actions, n);
    assert RunHeld(states[n], r);
  }

  // ---- artifacts: two promises and exactly what breaks them ----

  /** A trainer that publishes without learning of it treats the run as failed. */
  predicate LosesAnswer(a: Action) { a.Publish? && !a.acked }

  ghost predicate Backed(s: Sys, r: string)
    requires r in s.t.runs
  {
    && (s.t.runs[r].model.Some? ==> r !in s.trainers)
    && (At(s, r, Stored) ==> r in s.objects)
    && (s.t.runs[r].status == Succeeded ==> r in s.objects)
  }

  lemma BackedTrainerStep(s: Sys, a: Action, r: string)
    requires Inv(s) && Enabled(s, a) && !LosesAnswer(a) && r in s.t.runs && Backed(s, r) && OfTrainer(a)
    ensures r in Next(s, a).t.runs && Backed(Next(s, a), r)
  {
    assert RunRests(s.t, r) && RunHeld(s, r);
  }

  lemma BackedStep(s: Sys, a: Action, r: string)
    requires Inv(s) && Enabled(s, a) && !LosesAnswer(a) && r in s.t.runs && Backed(s, r)
    ensures r in Next(s, a).t.runs && Backed(Next(s, a), r)
  {
    if OfTrainer(a) {
      BackedTrainerStep(s, a, r);
    } else {
      assert RunRests(s.t, r) && RunHeld(s, r);
      if a.DeleteArtifact? { assert PurgeKnows(s, a.job) && PurgesRun(s, s.purges[a.job], a.id); }
    }
  }

  lemma {:induction false} AllBacked(states: seq<Sys>, actions: seq<Action>, n: nat, r: string)
    requires Run(states, actions) && n < |states| && (forall i | 0 <= i < n :: !LosesAnswer(actions[i])) && r in states[n].t.runs
    ensures Backed(states[n], r)
  {
    if n > 0 {
      RunKeepsInv(states, actions, n - 1);
      if r in states[n - 1].t.runs {
        AllBacked(states, actions, n - 1, r);
        BackedStep(states[n - 1], actions[n - 1], r);
      } else {
        NewRun(states[n - 1], actions[n - 1], r);
      }
    }
  }

  lemma NewRun(s: Sys, a: Action, r: string)
    requires Inv(s) && Enabled(s, a) && r !in s.t.runs && r in Next(s, a).t.runs
    ensures Backed(Next(s, a), r)
  {
    assert a.RequestRun? && a.id == r;
  }

  /** As long as every trainer learns that it has published, each succeeded run has its artifact. */
  lemma SucceededHasArtifact(states: seq<Sys>, actions: seq<Action>, n: nat, r: string)
    requires Run(states, actions) && n < |states| && (forall i | 0 <= i < n :: !LosesAnswer(actions[i]))
    requires r in states[n].t.runs && states[n].t.runs[r].status == Succeeded
    ensures r in states[n].objects
  {
    AllBacked(states, actions, n, r);
  }

  /** The condition is exact: a lost answer can always end in a succeeded run whose artifact its own trainer removed. */
  lemma LostAnswerLosesArtifact(s: Sys, a: Action)
    requires Inv(s) && Enabled(s, a) && LosesAnswer(a)
    ensures Enabled(Next(s, a), CleanUp(a.id, true))
    ensures var u := Next(Next(s, a), CleanUp(a.id, true)); u.t.runs[a.id].status == Succeeded && a.id !in u.objects
  {
  }

  /** A written artifact that no run records is left behind: the trainer dies holding it, or fails to remove it. */
  predicate Leaks(s: Sys, a: Action) {
    match a
    case CrashTrainer(id) => id in s.objects && id in s.t.runs && s.t.runs[id].artifactKey.None?
    case CleanUp(id, deleted) => !deleted && id in s.objects && id in s.t.runs && s.t.runs[id].artifactKey.None?
    case _ => false
  }

  ghost predicate Accounted(s: Sys, r: string)
    requires r in s.t.runs
  {
    r in s.objects ==> s.t.runs[r].artifactKey.Some? || At(s, r, Stored) || At(s, r, Leaving(true))
  }

  lemma TrainerKeepsAccounted(s: Sys, a: Action, r: string)
    requires Inv(s) && Enabled(s, a) && !Leaks(s, a) && r in s.t.runs && Accounted(s, r) && OfTrainer(a)
    ensures r in Next(s, a).t.runs && Accounted(Next(s, a), r)
  {
    assert RunRests(s.t, r) && RunHeld(s, r);
  }

  lemma OthersKeepAccounted(s: Sys, a: Action, r: string)
    requires Inv(s) && Enabled(s, a) && r in s.t.runs && Accounted(s, r) && !OfTrainer(a)
    ensures r in Next(s, a).t.runs && Accounted(Next(s, a), r)
  {
  }

  lemma AccountedStep(s: Sys, a: Action, r: string)
    requires Inv(s) && Enabled(s, a) && !Leaks(s, a) && r in s.t.runs && Accounted(s, r)
    ensures r in Next(s, a).t.runs && Accounted(Next(s, a), r)
  {
    if OfTrainer(a) { TrainerKeepsAccounted(s, a, r); } else { OthersKeepAccounted(s, a, r); }
  }

  lemma {:induction false} AllAccounted(states: seq<Sys>, actions: seq<Action>, n: nat, r: string)
    requires Run(states, actions) && n < |states| && (forall i | 0 <= i < n :: !Leaks(states[i], actions[i])) && r in states[n].t.runs
    ensures Accounted(states[n], r)
  {
    if n > 0 {
      RunKeepsInv(states, actions, n - 1);
      if r in states[n - 1].t.runs { AllAccounted(states, actions, n - 1, r); }
      AccountedAt(states, actions, n - 1, r);
    }
  }

  lemma AccountedAt(states: seq<Sys>, actions: seq<Action>, n: nat, r: string)
    requires Run(states, actions) && n + 1 < |states| && Inv(states[n]) && !Leaks(states[n], actions[n])
    requires r in states[n].t.runs ==> Accounted(states[n], r)
    ensures r in states[n + 1].t.runs ==> Accounted(states[n + 1], r)
  {
    if r in states[n].t.runs {
      AccountedStep(states[n], actions[n], r);
    } else if r in states[n + 1].t.runs {
      HeldStep(states[n], actions[n], r);
      assert actions[n].RequestRun?;
    }
  }

  /** Without a leak, once the trainers of a revoked snapshot are gone, purging what is recorded leaves no artifact. */
  lemma PurgeIsComplete(states: seq<Sys>, actions: seq<Action>, n: nat, r: string)
    requires Run(states, actions) && n < |states| && (forall i | 0 <= i < n :: !Leaks(states[i], actions[i]))
    requires r in states[n].t.runs && r !in states[n].trainers && r !in Unpurged(states[n].t, {states[n].t.runs[r].snapshot})
    ensures r !in states[n].objects
  {
    AllAccounted(states, actions, n, r);
    RunKeepsInv(states, actions, n);
    assert RunRests(states[n].t, r) && RunHeld(states[n], r);
  }

  ghost predicate Leaked(s: Sys, r: string) {
    && r in s.t.runs && r in s.objects && s.t.runs[r].artifactKey.None?
    && (r in s.trainers ==> s.trainers[r] == Leaving(false))
  }

  lemma LeakHappens(s: Sys, a: Action)
    requires Inv(s) && Enabled(s, a) && Leaks(s, a)
    ensures Leaked(Next(s, a), a.id)
  {
  }

  lemma LeakTrainerStep(s: Sys, a: Action, r: string)
    requires Inv(s) && Enabled(s, a) && Leaked(s, r) && OfTrainer(a)
    ensures Leaked(Next(s, a), r)
  {
    assert RunRests(s.t, r) && RunHeld(s, r);
  }

  lemma LeakStep(s: Sys, a: Action, r: string)
    requires Inv(s) && Enabled(s, a) && Leaked(s, r)
    ensures Leaked(Next(s, a), r)
  {
    if OfTrainer(a) {
      LeakTrainerStep(s, a, r);
    } else {
      assert RunRests(s.t, r) && RunHeld(s, r);
      if a.DeleteArtifact? { assert PurgeKnows(s, a.job) && PurgesRun(s, s.purges[a.job], a.id) && RunRests(s.t, a.id); }
    }
  }

  /** The condition is exact: a leaked artifact stays whatever is revoked and purged afterwards. */
  lemma {:induction false} LeakIsForever(states: seq<Sys>, actions: seq<Action>, i: nat, j: nat)
    requires Run(states, actions) && i < j < |states| && Leaks(states[i], actions[i])
    ensures Leaked(states[j], actions[i].id)
  {
    RunKeepsInv(states, actions, j - 1);
    if j == i + 1 {
      LeakHappens(states[i], actions[i]);
    } else {
      LeakIsForever(states, actions, i, j - 1);
      LeakStep(states[j - 1], actions[j - 1], actions[i].id);
    }
  }

  // ---- both happen ----

  lemma OneStepMore(states: seq<Sys>, actions: seq<Action>, a: Action)
    requires Run(states, actions) && Enabled(states[|actions|], a)
    ensures Run(states + [Next(states[|actions|], a)], actions + [a])
  {
    var states', actions' := states + [Next(states[|actions|], a)], actions + [a];
    forall i | 0 <= i < |actions'| ensures Enabled(states'[i], actions'[i]) && states'[i + 1] == Next(states'[i], actions'[i]) {
      if i < |actions| { assert states'[i] == states[i] && states'[i + 1] == states[i + 1] && actions'[i] == actions[i]; }
    }
  }

  lemma StepOn(states: seq<Sys>, actions: seq<Action>, a: Action) returns (states': seq<Sys>, actions': seq<Action>)
    requires Run(states, actions) && Enabled(states[|actions|], a)
    ensures Run(states', actions') && states' == states + [Next(states[|actions|], a)] && actions' == actions + [a]
  {
    OneStepMore(states, actions, a);
    states', actions' := states + [Next(states[|actions|], a)], actions + [a];
  }

  /** From nothing to a trainer that has written its artifact. */
  lemma TrainerStores() returns (states: seq<Sys>, actions: seq<Action>)
    ensures Run(states, actions)
    ensures var s := states[|actions|];
      && At(s, "r", Stored) && "r" in s.objects && "r" in s.t.runs && IsApproved(s.t, s.t.runs["r"].snapshot)
      && s.t.runs["r"] == TrainingRun("s", Running, None, None, None, None, None)
  {
    states, actions := [START], [];
    states, actions := StepOn(states, actions, AddSnapshot("s", {}));
    states, actions := StepOn(states, actions, ApproveSnapshot("s"));
    states, actions := StepOn(states, actions, RequestRun("r", "s"));
    states, actions := StepOn(states, actions, Claim("r"));
    states, actions := StepOn(states, actions, Store("r", true, true));
  }

  /** It happens: a run from nothing ends with a succeeded training run whose artifact is gone. */
  lemma LostAnswerHappens() returns (states: seq<Sys>, actions: seq<Action>)
    ensures Run(states, actions)
    ensures var s := states[|actions|]; "r" in s.t.runs && s.t.runs["r"].status == Succeeded && "r" !in s.objects
  {
    states, actions := TrainerStores();
    var publish := Publish("r", "m", 0, false);
    RunKeepsInv(states, actions, |actions|);
    LostAnswerLosesArtifact(states[|actions|], publish);
    states, actions := StepOn(states, actions, publish);
    states, actions := StepOn(states, actions, CleanUp("r", true));
  }

  /** It happens: a trainer dies with its artifact written. */
  lemma LeakHappensInARun() returns (states: seq<Sys>, actions: seq<Action>)
    ensures Run(states, actions) && actions != []
    ensures Leaks(states[|actions| - 1], actions[|actions| - 1]) && Leaked(states[|actions|], "r")
  {
    states, actions := TrainerStores();
    RunKeepsInv(states, actions, |actions|);
    LeakHappens(states[|actions|], CrashTrainer("r"));
    states, actions := StepOn(states, actions, CrashTrainer("r"));
  }
}
