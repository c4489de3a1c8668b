/** What becomes of an authentication wait whose answer was lost, of the calls after it, and of a recorded login attempt. */
module BankRunnerRecovery {
  import opened Wrappers
  import opened BankRunner

  /** The server showed that it knows of the wait: the job awaits authentication, or the user has continued it since. */
  predicate ServerKnows(view: View, active: Active) { view.state.AwaitingAuthentication? || view.job.version > active.version }

  // ---- right after the recovery ----

  /** Recovery keeps the claim as it was, and what the server showed alone decides whether it counts as settled. */
  lemma RecoveryKeepsClaim(s: Sys, view: View)
    requires Sane(s) && Enabled(s, RecoverAuthentication(view))
    ensures var t, active := Next(s, RecoverAuthentication(view)), s.parent.state.active.value;
      && t.parent == Idle(t.file) && t.file.completion.None? && t.file.active.Some?
      && t.file.active.value == Active(active.id, active.claim, active.version, !ServerKnows(view, active), active.attempted)
      && t == s.(file := t.file, parent := t.parent)
  {}

  /** On the next turn the claim is given up exactly if the server knew nothing of the wait, and continued exactly if it did and the user has continued. */
  lemma NextTurnAfterRecovery(s: Sys, view: View, later: View)
    requires Inv(s) && Enabled(s, RecoverAuthentication(view)) && Follows(Next(s, RecoverAuthentication(view)), later)
    ensures var t, active := Next(s, RecoverAuthentication(view)), s.parent.state.active.value;
      && Sane(t) && later.job.claim == active.claim
      && (Enabled(t, GiveUp(later)) <==> !ServerKnows(view, active))
      && (Enabled(t, Continue(later)) <==> ServerKnows(view, active) && later.state.Running? && later.job.version > active.version)
      && (Enabled(t, GiveUp(later)) ==> Report(t, GiveUp(later)) == Some(Completion(active.claim, Failed, "operation_unknown")))
  {
    NextKeeps(s, RecoverAuthentication(view));
  }

  // ---- until the next phase ----

  /** A copy of the state that neither gives the claim up nor repeats an outcome for it. */
  ghost predicate Quiet(f: File, claim: nat) {
    f.active.Some? && f.active.value.claim == claim ==> !f.active.value.uncertain && f.completion.None?
  }

  /** The child of the claim, if it is still there, has stored the wait and has nothing left to write but that it is over. */
  ghost predicate OnlyWaits(c: Child, claim: nat) {
    c.job.claim == claim ==>
      !Unfinished(c) && c.state.completion.Some? && c.state.completion.value.outcome.AuthenticationRequired?
  }

  /** Nobody can report anything for this claim but the wait itself. */
  ghost predicate Waits(s: Sys, claim: nat) {
    && claim < s.issued && Quiet(s.file, claim)
    && (s.parent.Idle? || s.parent.Sent? ==> Quiet(s.parent.state, claim))
    && (s.parent.Phase? ==> s.parent.job.claim != claim)
    && (s.child.Some? ==> OnlyWaits(s.child.value, claim))
  }

  /** The step enters the next phase of the claim: the user has continued it. */
  predicate EntersPhase(a: Action, claim: nat) { a.Continue? && a.view.job.claim == claim }

  lemma ParentKeepsWait(s: Sys, a: Action, claim: nat)
    requires Steady(s) && Enabled(s, a) && OfParent(a) && Waits(s, claim)
    ensures Waits(Next(s, a), claim)
  {}

  lemma PhaseKeepsWait(s: Sys, a: Action, claim: nat)
    requires Steady(s) && Enabled(s, a) && OfPhase(a) && Waits(s, claim) && !EntersPhase(a, claim)
    ensures Waits(Next(s, a), claim)
  {}

  lemma ChildKeepsWait(s: Sys, a: Action, claim: nat)
    requires Steady(s) && Enabled(s, a) && !OfParent(a) && !OfPhase(a) && Waits(s, claim)
    ensures Waits(Next(s, a), claim)
  {
    if s.child.Some? { assert SteadyChild(s, s.child.value); }
  }

  lemma StepKeepsWait(s: Sys, a: Action, claim: nat)
    requires Steady(s) && Enabled(s, a) && Waits(s, claim) && !EntersPhase(a, claim)
    ensures Waits(Next(s, a), claim)
  {
    if OfParent(a) { ParentKeepsWait(s, a, claim); }
    else if OfPhase(a) { PhaseKeepsWait(s, a, claim); }
    else { ChildKeepsWait(s, a, claim); }
  }

  lemma {:induction false} WaitGoesOn(states: seq<Sys>, actions: seq<Action>, i: nat, j: nat, claim: nat)
    requires Orderly(states, actions) && i <= j < |states| && Waits(states[i], claim)
    requires forall m: nat | i <= m < j :: !EntersPhase(actions[m], claim)
    ensures Waits(states[j], claim)
  {
    if i < j {
      WaitGoesOn(states, actions, i, j - 1, claim);
      RunSteady(states, actions, j - 1);
      assert StepsAt(states, actions, j - 1);
      StepKeepsWait(states[j - 1], actions[j - 1], claim);
    }
  }

  /** The parent holds no older copy of the state with this claim, and is not in a later phase of it. */
  predicate HoldsNoCopy(p: Parent, claim: nat) {
    && (p.Idle? || p.Sent? ==> p.state.active.None? || p.state.active.value.claim != claim)
    && (p.Phase? ==> p.job.claim != claim)
  }

  /** A child that has stored a final outcome has sealed its claim. */
  predicate FinalIsSealed(s: Sys) {
    s.child.Some? && !Unfinished(s.child.value) ==>
      (s.child.value.state.completion.Some? && !s.child.value.state.completion.value.outcome.AuthenticationRequired? ==>
         s.child.value.job.claim in s.sealed)
  }

  lemma {:induction false} FinalsAreSealed(states: seq<Sys>, actions: seq<Action>, n: nat)
    requires Run(states, actions) && n < |states|
    ensures FinalIsSealed(states[n])
  {
    if n > 0 {
      FinalsAreSealed(states, actions, n - 1);
      assert StepsAt(states, actions, n - 1);
    }
  }

  /** The step leaves a wait for this claim: recovered with the server's knowledge of it, or left by the child itself. */
  ghost predicate Settles(s: Sys, a: Action, claim: nat)
    requires Sane(s) && Enabled(s, a)
  {
    || (a.RecoverAuthentication? && s.parent.state.active.value.claim == claim && ServerKnows(a.view, s.parent.state.active.value))
    || (a.ChildLeave? && s.child.value.job.claim == claim && s.child.value.state.completion.value.outcome.AuthenticationRequired?
        && HoldsNoCopy(s.parent, claim))
  }

  lemma SettlingWaits(s: Sys, a: Action, claim: nat)
    requires Steady(s) && FinalIsSealed(s) && Enabled(s, a) && Settles(s, a, claim)
    ensures Waits(Next(s, a), claim)
  {
    if s.child.Some? { assert SteadyChild(s, s.child.value); }
  }

  lemma WaitingReports(s: Sys, a: Action, claim: nat)
    requires Steady(s) && Enabled(s, a) && Waits(s, claim) && Report(s, a).Some? && Report(s, a).value.claim == claim
    ensures a.ChildReport? && s.child.value.job.claim == claim && Report(s, a).value.outcome.AuthenticationRequired?
  {}

  /**
   * In every orderly run, from the step that settles a wait until the claim's next phase, the claim is never reported as
   * failed or as anything else: the only call that can still be made for it is the waiting child's own, and says just that.
   */
  lemma SettledWaitStands(states: seq<Sys>, actions: seq<Action>, i: nat, j: nat, claim: nat)
    requires Orderly(states, actions) && i < j && StepsAt(states, actions, i) && StepsAt(states, actions, j)
    requires Settles(states[i], actions[i], claim)
    requires forall m: nat | i < m < j :: !EntersPhase(actions[m], claim)
    ensures var report := Report(states[j], actions[j]);
      report.Some? && report.value.claim == claim ==> actions[j].ChildReport? && report.value.outcome.AuthenticationRequired?
  {
    RunSteady(states, actions, i);
    FinalsAreSealed(states, actions, i);
    SettlingWaits(states[i], actions[i], claim);
    WaitGoesOn(states, actions, i + 1, j, claim);
    RunSteady(states, actions, j);
    var report := Report(states[j], actions[j]);
    if report.Some? && report.value.claim == claim { WaitingReports(states[j], actions[j], claim); }
  }

  ghost predicate NoChildOf(s: Sys, claim: nat) { s.child.Some? ==> s.child.value.job.claim != claim }

  lemma NoChildComes(s: Sys, a: Action, claim: nat)
    requires Steady(s) && Enabled(s, a) && Waits(s, claim) && NoChildOf(s, claim)
    ensures NoChildOf(Next(s, a), claim)
  {}

  lemma {:induction false} NoChildUntilPhase(states: seq<Sys>, actions: seq<Action>, i: nat, j: nat, claim: nat)
    requires Orderly(states, actions) && i <= j < |states| && Waits(states[i], claim) && NoChildOf(states[i], claim)
    requires forall m: nat | i <= m < j :: !EntersPhase(actions[m], claim)
    ensures NoChildOf(states[j], claim)
  {
    if i < j {
      NoChildUntilPhase(states, actions, i, j - 1, claim);
      WaitGoesOn(states, actions, i, j - 1, claim);
      RunSteady(states, actions, j - 1);
      assert StepsAt(states, actions, j - 1);
      NoChildComes(states[j - 1], actions[j - 1], claim);
    }
  }

  /** Once the waiting child is gone, as it is after its own leave, no call at all is made for the claim until its next phase. */
  lemma SettledWaitIsSilent(states: seq<Sys>, actions: seq<Action>, i: nat, j: nat, claim: nat)
    requires Orderly(states, actions) && i < j && StepsAt(states, actions, i) && StepsAt(states, actions, j)
    requires Settles(states[i], actions[i], claim) && NoChildOf(states[i + 1], claim)
    requires forall m: nat | i < m < j :: !EntersPhase(actions[m], claim)
    ensures var report := Report(states[j], actions[j]); report.Some? ==> report.value.claim != claim
  {
    RunSteady(states, actions, i);
    FinalsAreSealed(states, actions, i);
    SettlingWaits(states[i], actions[i], claim);
    WaitGoesOn(states, actions, i + 1, j, claim);
    NoChildUntilPhase(states, actions, i + 1, j, claim);
    RunSteady(states, actions, j);
    var report := Report(states[j], actions[j]);
    if report.Some? && report.value.claim == claim { WaitingReports(states[j], actions[j], claim); }
  }

  // ---- other rewrites ----

  /** A call that waits for its answer repeats a final outcome, or gives a claim up that has none. */
  predicate SentIsFinal(s: Sys) {
    s.parent.Sent? ==> s.parent.state.completion.None? || !s.parent.state.completion.value.outcome.AuthenticationRequired?
  }

  lemma {:induction false} CallsAreFinal(states: seq<Sys>, actions: seq<Action>, n: nat)
    requires Run(states, actions) && n < |states|
    ensures SentIsFinal(states[n])
  {
    if n > 0 {
      CallsAreFinal(states, actions, n - 1);
      assert StepsAt(states, actions, n - 1);
    }
  }

  /** In every run, once a completion call is answered the runner forgets the claim, on disk and in its head. */
  lemma AnswerClears(states: seq<Sys>, actions: seq<Action>, n: nat)
    requires Run(states, actions) && StepsAt(states, actions, n) && actions[n].AfterCall?
    ensures states[n + 1].file == File(None, None) && states[n + 1].parent == Idle(File(None, None))
  {
    CallsAreFinal(states, actions, n);
  }

  /** A child that leaves a final outcome behind clears the file; one that leaves a wait keeps the claim, certain, with its attempt. */
  lemma LeavingMeans(s: Sys)
    requires Sane(s) && Enabled(s, ChildLeave)
    ensures var c, t := s.child.value, Next(s, ChildLeave);
      && t.child.None? && t == s.(file := t.file, child := None)
      && t.file == if c.state.completion.value.outcome.AuthenticationRequired?
           then File(Some(Active(c.state.active.value.id, c.job.claim, c.job.version, false, c.state.active.value.attempted)), None)
           else File(None, None)
  {}

  /** A login attempt on record for this very job and claim. */
  predicate OnRecord(f: File, id: string, claim: nat) {
    f.active.Some? && f.active.value.id == id && f.active.value.claim == claim && f.active.value.attempted
  }

  /** Entering a phase puts its claim on disk, uncertain, and keeps exactly the attempt on record for it. */
  lemma EnteringMeans(s: Sys, a: Action)
    requires Sane(s) && Enabled(s, a) && (a.Continue? || a.ChildEnter?)
    ensures var t := Next(s, a);
      var before, job := if a.Continue? then s.file else s.child.value.state, if a.Continue? then a.view.job else s.child.value.job;
      && t.file.active == Some(Active(job.id, job.claim, job.version, true, OnRecord(before, job.id, job.claim)))
      && t.file.completion == before.completion
      && (a.Continue? ==> t.parent == Phase(job)) && (a.ChildEnter? ==> t.child.value.state == t.file)
  {}

  /** The heartbeat shows the very job the runner holds, still under way. */
  predicate SameJob(active: Active, view: View) { view.job.id == active.id && view.state !in {Queued, Ended} }

  /**
   * A heartbeat that shows a job makes the runner do one thing at most with the claim it holds: forget it if the job is
   * another or over; settle or repeat an outcome on record; give an uncertain claim up; or go on with a newer version.
   */
  lemma TurnMeans(s: Sys, view: View)
    requires Sane(s) && s.parent.Idle? && s.parent.state.active.Some? && Shown(s, view)
    ensures var f := s.parent.state;
      && (Enabled(s, Drop(Some(view))) <==> !SameJob(f.active.value, view))
      && (Enabled(s, RecoverAuthentication(view)) <==> SameJob(f.active.value, view) && f.completion.Some? && f.completion.value.outcome == AuthenticationRequired)
      && (Enabled(s, Resend(view)) <==> SameJob(f.active.value, view) && f.completion.Some? && f.completion.value.outcome != AuthenticationRequired)
      && (Enabled(s, GiveUp(view)) <==> SameJob(f.active.value, view) && f.completion.None? && f.active.value.uncertain)
      && (Enabled(s, Continue(view)) <==> SameJob(f.active.value, view) && f.completion.None? && !f.active.value.uncertain
                                          && view.state == Running && view.job.version > f.active.value.version)
    ensures Enabled(s, Drop(Some(view))) ==> Next(s, Drop(Some(view))) == s.(file := File(None, None), parent := Idle(File(None, None)))
    ensures Enabled(s, Resend(view)) ==> Report(s, Resend(view)) == s.parent.state.completion
    ensures Enabled(s, GiveUp(view)) ==>
      Report(s, GiveUp(view)) == Some(Completion(s.parent.state.active.value.claim, Failed, "operation_unknown"))
  {}
}
