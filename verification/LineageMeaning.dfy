/** What the revocations mean over whole runs, rule by rule and row by row. */
module LineageMeaning {
  import opened Wrappers
  import opened Lineage
  import opened LineageTheorems

  ghost predicate HoldsOneOf(t: Tables, s: string, rules: set<string>) {
    s in t.snapshots && exists r :: r in rules && r in t.snapshots[s].rules
  }

  /** A revocation by rules makes exactly the touched lineages fall, and touches no trainer, object or purge. */
  lemma RevokedByRules(s: Sys, a: Action)
    requires a.RevokeByRules?
    ensures Enabled(s, a) && LineageFalls(s.t, Next(s, a).t, a.rules, a.now)
    ensures Next(s, a) == s.(t := Next(s, a).t)
  {
    CascadeFalls(s.t, a.rules, a.now);
  }

  /** A snapshot that holds none of the rules keeps its row, and so do its runs and evaluations. */
  lemma OtherSnapshotsStay(s: Sys, a: Action, other: string)
    requires a.RevokeByRules? && other in s.t.snapshots && !HoldsOneOf(s.t, other, a.rules)
    ensures var u := Next(s, a).t;
      && other in u.snapshots && u.snapshots[other] == s.t.snapshots[other]
      && (forall r | r in s.t.runs && s.t.runs[r].snapshot == other :: r in u.runs && u.runs[r] == s.t.runs[r])
      && (forall e | e in s.t.evaluations && s.t.evaluations[e].snapshot == other :: e in u.evaluations && u.evaluations[e] == s.t.evaluations[e])
  {
    RevokedByRules(s, a);
    assert !Touched(s.t, other, a.rules);
    var u := Next(s, a).t;
    forall r | r in s.t.runs && s.t.runs[r].snapshot == other ensures r in u.runs && u.runs[r] == s.t.runs[r] {
      assert RunFalls(s.t.runs[r], u.runs[r], false, a.now);
    }
  }

  /** Right after it, every snapshot with one of the rules is revoked. */
  lemma HoldersAreRevoked(s: Sys, a: Action, snapshot: string)
    requires a.RevokeByRules? && HoldsOneOf(s.t, snapshot, a.rules)
    ensures IsRevoked(Next(s, a), snapshot)
  {
    RevokedByRules(s, a);
  }

  ghost predicate EvaluationIsRevoked(s: Sys, e: string) { e in s.t.evaluations && s.t.evaluations[e].status == EvaluationRevoked }

  lemma EvaluationStaysRevoked(s: Sys, a: Action, e: string)
    requires Enabled(s, a) && EvaluationIsRevoked(s, e)
    ensures EvaluationIsRevoked(Next(s, a), e)
  {
  }

  lemma EvaluationStaysAtStep(states: seq<Sys>, actions: seq<Action>, n: nat, e: string)
    requires Run(states, actions) && n < |actions| && EvaluationIsRevoked(states[n], e)
    ensures EvaluationIsRevoked(states[n + 1], e)
  {
    EvaluationStaysRevoked(states[n], actions[n], e);
  }

  lemma {:induction false} EvaluationRevokedForGood(states: seq<Sys>, actions: seq<Action>, i: nat, j: nat, e: string)
    requires Run(states, actions) && i <= j < |states| && EvaluationIsRevoked(states[i], e)
    ensures EvaluationIsRevoked(states[j], e)
    decreases j - i
  {
    if i < j {
      EvaluationStaysAtStep(states, actions, i, e);
      EvaluationRevokedForGood(states, actions, i + 1, j, e);
    }
  }

  lemma EvaluationFalls(s: Sys, a: Action, e: string)
    requires a.RevokeByRules? && e in s.t.evaluations && HoldsOneOf(s.t, s.t.evaluations[e].snapshot, a.rules)
    requires !IsRevoked(s, s.t.evaluations[e].snapshot)
    ensures EvaluationIsRevoked(Next(s, a), e)
  {
    RevokedByRules(s, a);
  }

  /**
   * From a revocation by rules on, every snapshot that held one of the rules stays revoked. Its runs are revoked, with the
   * models they trained out, or were requested too late and never start.
   */
  lemma RulesRevokeForGood(states: seq<Sys>, actions: seq<Action>, i: nat, j: nat, snapshot: string)
    requires Run(states, actions) && i < j < |states| && actions[i].RevokeByRules? && HoldsOneOf(states[i].t, snapshot, actions[i].rules)
    ensures IsRevoked(states[j], snapshot)
    ensures forall r | r in states[j].t.runs && states[j].t.runs[r].snapshot == snapshot ::
              states[j].t.runs[r].status == RunRevoked || states[j].t.runs[r].status == Queued
    ensures forall r | r in states[j].t.runs && states[j].t.runs[r].snapshot == snapshot && states[j].t.runs[r].model.Some? ::
              ModelIsOut(states[j], states[j].t.runs[r].model.value)
  {
    HoldersAreRevoked(states[i], actions[i], snapshot);
    AllStay(states, actions, i + 1, j, snapshot, "", "");
    RunKeepsInv(states, actions, j);
    forall r | r in states[j].t.runs && states[j].t.runs[r].snapshot == snapshot
      ensures states[j].t.runs[r].status == RunRevoked || states[j].t.runs[r].status == Queued
      ensures states[j].t.runs[r].model.Some? ==> ModelIsOut(states[j], states[j].t.runs[r].model.value)
    {
      assert RunRests(states[j].t, r);
    }
  }

  /** No alias serves on evidence over such a snapshot any more, and the evaluations it had are revoked for good. */
  lemma RulesEndService(states: seq<Sys>, actions: seq<Action>, i: nat, j: nat, snapshot: string)
    requires Run(states, actions) && i < j < |states| && actions[i].RevokeByRules? && HoldsOneOf(states[i].t, snapshot, actions[i].rules)
    ensures forall a | a in states[j].t.aliases && !states[j].t.aliases[a].suspended ::
              states[j].t.aliases[a].evaluation in states[j].t.evaluations &&
              states[j].t.evaluations[states[j].t.aliases[a].evaluation].snapshot != snapshot
    ensures !IsRevoked(states[i], snapshot) ==>
              forall e | e in states[i].t.evaluations && states[i].t.evaluations[e].snapshot == snapshot :: EvaluationIsRevoked(states[j], e)
  {
    RulesRevokeForGood(states, actions, i, j, snapshot);
    forall a | a in states[j].t.aliases && !states[j].t.aliases[a].suspended
      ensures states[j].t.aliases[a].evaluation in states[j].t.evaluations
      ensures states[j].t.evaluations[states[j].t.aliases[a].evaluation].snapshot != snapshot
    {
      ServingRestsOnEvidence(states, actions, j, a, "");
    }
    if !IsRevoked(states[i], snapshot) {
      forall e | e in states[i].t.evaluations && states[i].t.evaluations[e].snapshot == snapshot ensures EvaluationIsRevoked(states[j], e) {
        EvaluationFalls(states[i], actions[i], e);
        EvaluationRevokedForGood(states, actions, i + 1, j, e);
      }
    }
  }

  // ---- the operator's revocation ----

  ghost predicate RestsOn(t: Tables, a: string, snapshot: string) {
    a in t.aliases && t.aliases[a].evaluation in t.evaluations && t.evaluations[t.aliases[a].evaluation].snapshot == snapshot
  }

  lemma OperatorRevokesTraining(t: Tables, snapshot: string, now: int)
    requires snapshot in t.snapshots
    ensures var u := SnapshotRevokedByOperator(t, snapshot, now);
      && u.snapshots == t.snapshots[snapshot := Snapshot(t.snapshots[snapshot].rules, SnapshotRevoked)]
      && TrainingFallsFor(t, t.(runs := u.runs, models := u.models), {snapshot}, now)
  {
    var u := SnapshotRevokedByOperator(t, snapshot, now);
    TrainingRevokedFalls(t, {snapshot}, now);
    assert u.snapshots == t.snapshots[snapshot := Snapshot(t.snapshots[snapshot].rules, SnapshotRevoked)];
    assert t.(runs := u.runs, models := u.models) == TrainingRevoked(t, {snapshot}, now);
  }

  /** It also goes over evaluations that were revoked before, so that no alias rests on any of them. */
  lemma OperatorRevokesEvidence(t: Tables, snapshot: string, now: int)
    requires snapshot in t.snapshots
    ensures var u := SnapshotRevokedByOperator(t, snapshot, now);
      && u.evaluations.Keys == t.evaluations.Keys && u.aliases.Keys == t.aliases.Keys && u.canaries.Keys == t.canaries.Keys
      && (forall e | e in t.evaluations :: u.evaluations[e] ==
            Evaluation(t.evaluations[e].snapshot, if t.evaluations[e].snapshot == snapshot then EvaluationRevoked else t.evaluations[e].status))
      && (forall a | a in t.aliases :: u.aliases[a] ==
            Alias(t.aliases[a].model, t.aliases[a].evaluation, t.aliases[a].suspended || RestsOn(t, a, snapshot)))
      && (forall c | c in t.canaries :: u.canaries[c] ==
            Canary(t.canaries[c].alias, if t.canaries[c].status == Monitoring && RestsOn(t, t.canaries[c].alias, snapshot) then Superseded
                                        else t.canaries[c].status))
  {}
}
