/**
 * The crash-safe bank runner: a durable state file, a looping parent, and one child process per phase.
 *
 * Every write of the file, every call to the server and every start or death of a process is a step of its own, so a
 * crash can fall between any two of them. The server is an arbitrary environment, except that it gives each job one
 * claim, the fresh one it was asked for.
 */
module BankRunner {
  import opened Wrappers

  datatype Outcome = AuthenticationRequired | Succeeded | Failed

  datatype Active = Active(id: string, claim: nat, version: nat, uncertain: bool, attempted: bool)
  datatype Completion = Completion(claim: nat, outcome: Outcome, payload: string)
  datatype File = File(active: Option<Active>, completion: Option<Completion>)

  datatype Job = Job(id: string, claim: nat, version: nat, credentialVersion: Option<int>)

  datatype JobState = Queued | Claimed | Running | AwaitingAuthentication | Reading | LoggingOut | Ended

  /** The job as a heartbeat shows it. */
  datatype View = View(job: Job, state: JobState)

  predicate IsLive(state: JobState) { !state.Queued? && !state.Ended? }

  // ---- the rewrites of the state dictionary ----

  function Attempted(f: File, job: Job): bool {
    f.active.Some? && f.active.value.id == job.id && f.active.value.claim == job.claim && f.active.value.attempted
  }

  function Entered(f: File, job: Job): File {
    f.(active := Some(Active(job.id, job.claim, job.version, true, Attempted(f, job))))
  }

  function Marked(f: File): File
    requires f.active.Some?
  {
    f.(active := Some(f.active.value.(attempted := true)))
  }

  function Settled(f: File): File
    requires f.active.Some? && f.completion.Some?
  {
    if f.completion.value.outcome.AuthenticationRequired? then File(Some(f.active.value.(uncertain := false)), None)
    else File(None, None)
  }

  function Recovered(f: File, view: View): File
    requires f.active.Some? && f.completion.Some?
  {
    if f.completion.value.outcome.AuthenticationRequired? then
      var acknowledged := view.state.AwaitingAuthentication? || view.job.version > f.active.value.version;
      File(Some(f.active.value.(uncertain := !acknowledged)), None)
    else File(None, None)
  }

  const OPERATION_UNKNOWN := "operation_unknown"

  /** The runner's dictionary and its file, rewritten in the order the program writes them. */
  class StateStore {
    var state: File
    var disk: File

    constructor (disk: File)
      ensures this.state == disk && this.disk == disk
    {
      this.disk := disk;
      this.state := disk;
    }

    method Reload()
      modifies this`state
      ensures state == disk
    {
      state := disk;
    }

    method Write()
      modifies this`disk
      ensures disk == state
    {
      disk := state;
    }

    /** The head of guarded_phase and of run_phase: the claim is on disk before anything happens under it. */
    method EnterPhase(job: Job)
      modifies this
      ensures state == disk == Entered(old(state), job)
      ensures state.completion == old(state).completion && state.active.Some?
      ensures state.active.value == Active(job.id, job.claim, job.version, true, state.active.value.attempted)
      ensures state.active.value.attempted <==>
        old(state).active.Some? && old(state).active.value.id == job.id && old(state).active.value.claim == job.claim && old(state).active.value.attempted
    {
      var previous := state.active;
      var attempted := previous.Some? && previous.value.id == job.id && previous.value.claim == job.claim && previous.value.attempted;
      state := state.(active := Some(Active(job.id, job.claim, job.version, true, attempted)));
      Write();
    }

    /** The head of the credentials callback: refuse, or put the attempt on disk before the call. */
    method ClaimLogin(job: Job) returns (granted: bool)
      requires state.active.Some?
      modifies this
      ensures granted <==> !old(state).active.value.attempted && job.credentialVersion.Some? && job.credentialVersion.value >= 1 && job.version == 0
      ensures state == if granted then Marked(old(state)) else old(state)
      ensures disk == if granted then state else old(disk)
      ensures granted ==> state == old(state).(active := Some(old(state).active.value.(attempted := true)))
    {
      granted := false;
      if state.active.value.attempted || job.credentialVersion.None? || job.credentialVersion.value < 1 || job.version != 0 { return; }
      state := state.(active := Some(state.active.value.(attempted := true)));
      Write();
      granted := true;
    }

    method PersistCompletion(completion: Completion)
      modifies this
      ensures state == disk == old(state).(completion := Some(completion))
    {
      state := state.(completion := Some(completion));
      Write();
    }

    /** The tail of run_phase, after the server has taken the completion. */
    method LeavePhase()
      requires state.active.Some? && state.completion.Some?
      modifies this
      ensures state == disk == Settled(old(state))
      ensures state.completion.None?
      ensures state.active == if old(state).completion.value.outcome.AuthenticationRequired?
                              then Some(old(state).active.value.(uncertain := false)) else None
    {
      if state.completion.value.outcome.AuthenticationRequired? {
        state := state.(active := Some(state.active.value.(uncertain := false)));
      } else {
        state := state.(active := None);
      }
      state := state.(completion := None);
      Write();
    }

    /** recover_completion and the write after it; a non-authentication completion has been sent by then. */
    method RecoverCompletion(view: View)
      requires state.active.Some? && state.completion.Some?
      modifies this
      ensures state == disk == Recovered(old(state), view)
      ensures state.completion.None?
      ensures !old(state).completion.value.outcome.AuthenticationRequired? ==> state.active.None?
      ensures old(state).completion.value.outcome.AuthenticationRequired? ==>
        state.active.Some? && state.active.value == old(state).active.value.(uncertain := state.active.value.uncertain) &&
        (state.active.value.uncertain <==> !view.state.AwaitingAuthentication? && view.job.version <= old(state).active.value.version)
    {
      if state.completion.value.outcome.AuthenticationRequired? {
        var acknowledged := view.state.AwaitingAuthentication? || view.job.version > state.active.value.version;
        state := state.(active := Some(state.active.value.(uncertain := !acknowledged)));
      } else {
        state := state.(active := None);
      }
      state := state.(completion := None);
      Write();
    }
  }

  // ---- processes ----

  datatype ChildStage = Booted | Loaded | Working | Marking | Persisted | Reported

  datatype Child = Child(job: Job, state: File, stage: ChildStage)

  /** The parent is down, at the head of its loop, about to write after a completion call, or inside a guarded phase. */
  datatype Parent = Down | Idle(state: File) | Sent(state: File, view: View) | Phase(job: Job) | Waiting

  /**
   * `lock` is the lease file. `jobs` and `issued` are the server's claims. History: `last` is the version of the latest
   * child under each claim, `asked` counts credential requests, `sealed` holds persisted non-authentication completions.
   */
  datatype Sys = Sys(file: File, parent: Parent, child: Option<Child>, lock: bool, jobs: map<string, nat>, issued: nat,
                     last: map<nat, nat>, asked: map<nat, nat>, sealed: map<nat, Completion>)

  datatype Action =
    | Restart
    | Crash(childToo: bool)
    | Reload
    | Drop(seen: Option<View>)
    | RecoverAuthentication(view: View)
    | Resend(view: View)
    | GiveUp(view: View)
    | AfterCall
    | Continue(view: View)
    | Claim(id: string, credentialVersion: Option<int>, version: nat)
    | LostClaim(id: string)
    | Spawn
    | LeaseRefused
    | PhaseOver(released: bool)
    | ClearStaleLock
    | ChildRead
    | ChildEnter
    | ChildMark
    | ChildAsk
    | ChildPersist(outcome: Outcome, payload: string)
    | ChildReport
    | ChildLeave
    | ChildDie

  /** What a heartbeat can show: a job under the claim the server gave it. */
  predicate Shown(s: Sys, view: View) { view.job.id in s.jobs && view.job.claim == s.jobs[view.job.id] }

  predicate Follows(s: Sys, view: View) {
    s.parent.Idle? && Shown(s, view) && s.parent.state.active.Some? && view.job.id == s.parent.state.active.value.id && IsLive(view.state)
  }

  predicate AtStage(s: Sys, stage: ChildStage) { s.child.Some? && s.child.value.stage == stage }

  predicate Enabled(s: Sys, a: Action) {
    match a
    case Restart => s.parent.Down?
    case Crash(_) => !s.parent.Down?
    case Reload => s.parent.Idle? || s.parent.Sent?
    case Drop(seen) => s.parent.Idle? && s.parent.state.active.Some? && (seen.Some? ==> Shown(s, seen.value) && !Follows(s, seen.value))
    case RecoverAuthentication(view) =>
      Follows(s, view) && s.parent.state.completion.Some? && s.parent.state.completion.value.outcome.AuthenticationRequired?
    case Resend(view) =>
      Follows(s, view) && s.parent.state.completion.Some? && !s.parent.state.completion.value.outcome.AuthenticationRequired?
    case GiveUp(view) => Follows(s, view) && s.parent.state.completion.None? && s.parent.state.active.value.uncertain
    case AfterCall => s.parent.Sent?
    case Continue(view) =>
      Follows(s, view) && s.parent.state.completion.None? && !s.parent.state.active.value.uncertain
      && view.state.Running? && view.job.version > s.parent.state.active.value.version
    case Claim(id, _, _) => s.parent.Idle? && s.parent.state.active.None? && id !in s.jobs
    case LostClaim(id) => s.parent.Idle? && s.parent.state.active.None? && id !in s.jobs
    case Spawn => s.parent.Phase? && !s.lock
    case LeaseRefused => s.parent.Phase?
    case PhaseOver(released) => s.parent.Waiting? && (released ==> s.child.None?)
    case ClearStaleLock => s.lock && s.child.None? && s.parent.Down?
    case ChildRead => AtStage(s, Booted)
    case ChildEnter => AtStage(s, Loaded)
    case ChildMark => AtStage(s, Working) && MayLogIn(s.child.value)
    case ChildAsk => AtStage(s, Marking)
    case ChildPersist(_, _) => AtStage(s, Working)
    case ChildReport => AtStage(s, Persisted)
    case ChildLeave => AtStage(s, Reported)
    case ChildDie => s.child.Some?
  }

  /** The checks of the credentials callback. */
  predicate MayLogIn(c: Child) {
    && c.state.active.Some? && !c.state.active.value.attempted
    && c.job.credentialVersion.Some? && c.job.credentialVersion.value >= 1 && c.job.version == 0
  }

  /** A child rewrites its dictionary and, with it, the file. */
  function ChildWrites(s: Sys, state: File, stage: ChildStage): Sys
    requires s.child.Some?
  {
    s.(file := state, child := Some(s.child.value.(state := state, stage := stage)))
  }

  function ParentWrites(s: Sys, state: File): Sys { s.(file := state, parent := Idle(state)) }

  function Count(m: map<nat, nat>, k: nat): nat { if k in m then m[k] else 0 }

  function Next(s: Sys, a: Action): Sys
    requires Enabled(s, a) && Sane(s)
  {
    match a
    case Restart => s.(parent := Idle(s.file))
    case Crash(childToo) => s.(parent := Down, child := if childToo then None else s.child)
    case Reload => s.(parent := Idle(s.file))
    case Drop(_) => ParentWrites(s, File(None, None))
    case RecoverAuthentication(view) => ParentWrites(s, Recovered(s.parent.state, view))
    case Resend(view) => s.(parent := Sent(s.parent.state, view))
    case GiveUp(view) => s.(parent := Sent(s.parent.state, view))
    case AfterCall =>
      ParentWrites(s, if s.parent.state.completion.Some? then Recovered(s.parent.state, s.parent.view) else File(None, None))
    case Continue(view) => s.(file := Entered(s.file, view.job), parent := Phase(view.job))
    case Claim(id, credentialVersion, version) =>
      var job := Job(id, s.issued, version, credentialVersion);
      s.(jobs := s.jobs[id := s.issued], issued := s.issued + 1, file := Entered(s.file, job), parent := Phase(job))
    case LostClaim(id) => s.(jobs := s.jobs[id := s.issued], issued := s.issued + 1, parent := Idle(s.file))
    case Spawn =>
      s.(lock := true, parent := Waiting, child := Some(Child(s.parent.job, File(None, None), Booted)),
         last := s.last[s.parent.job.claim := s.parent.job.version])
    case LeaseRefused => s.(parent := Idle(s.file))
    case PhaseOver(released) => s.(parent := Idle(s.file), lock := s.lock && !released)
    case ClearStaleLock => s.(lock := false)
    case ChildRead => s.(child := Some(s.child.value.(state := s.file, stage := Loaded)))
    case ChildEnter => ChildWrites(s, Entered(s.child.value.state, s.child.value.job), Working)
    case ChildMark => ChildWrites(s, Marked(s.child.value.state), Marking)
    case ChildAsk =>
      s.(child := Some(s.child.value.(stage := Working)),
         asked := s.asked[s.child.value.job.claim := Count(s.asked, s.child.value.job.claim) + 1])
    case ChildPersist(outcome, payload) =>
      var c := Completion(s.child.value.job.claim, outcome, payload);
      ChildWrites(s, s.child.value.state.(completion := Some(c)), Persisted)
        .(sealed := if outcome.AuthenticationRequired? then s.sealed else s.sealed[c.claim := c])
    case ChildReport => s.(child := Some(s.child.value.(stage := Reported)))
    case ChildLeave => s.(file := Settled(s.child.value.state), child := None)
    case ChildDie => s.(child := None)
  }

  /** The completion call that an action makes. */
  function Report(s: Sys, a: Action): Option<Completion>
    requires Enabled(s, a) && Sane(s)
  {
    match a
    case Resend(_) => s.parent.state.completion
    case GiveUp(_) => Some(Completion(s.parent.state.active.value.claim, Failed, OPERATION_UNKNOWN))
    case ChildReport => s.child.value.state.completion
    case _ => None
  }

  // ---- invariant of every run, whatever crashes ----

  predicate StageSane(c: Child) {
    && (!c.stage.Booted? && !c.stage.Loaded? ==>
          c.state.active.Some? && c.state.active.value.claim == c.job.claim && c.state.active.value.version == c.job.version)
    && (c.stage.Persisted? || c.stage.Reported? ==> c.state.completion.Some? && c.state.completion.value.claim == c.job.claim)
    && (c.stage.Marking? ==> c.state.active.value.attempted && c.job.version == 0)
  }

  /** What makes every step well defined. */
  predicate Sane(s: Sys) {
    && (s.child.Some? ==> StageSane(s.child.value))
    && (s.parent.Sent? ==> s.parent.state.active.Some?)
  }

  /** A copy of the state knows of no earlier version of a claim than its latest child. */
  ghost predicate UpToDate(s: Sys, f: File) {
    f.active.Some? ==>
      && f.active.value.claim < s.issued
      && (f.active.value.id in s.jobs && s.jobs[f.active.value.id] == f.active.value.claim)
      && (f.active.value.claim in s.last ==> s.last[f.active.value.claim] <= f.active.value.version)
  }

  ghost predicate Inv(s: Sys) {
    && Sane(s)
    && (s.child.Some? ==> s.lock)
    && (s.parent.Waiting? ==> s.lock)
    && UpToDate(s, s.file)
    && (s.parent.Idle? || s.parent.Sent? ==> UpToDate(s, s.parent.state))
    && (s.parent.Phase? ==> NewPhase(s, s.parent.job) && (!s.lock ==> Holds(s.file, s.parent.job)))
    && (s.child.Some? ==> LatestChild(s, s.child.value))
    && (forall id | id in s.jobs :: s.jobs[id] < s.issued)
    && (forall x | x in s.last :: x < s.issued)
    && (forall x | x in s.asked :: s.asked[x] <= 1 && x in s.last)
    && (forall x | x in s.asked && s.asked[x] > 0 && s.child.Some? && s.child.value.job.claim == x ::
          s.child.value.job.version > 0 || LoginSpent(s.child.value))
  }

  ghost predicate Holds(f: File, job: Job) {
    f.active.Some? && f.active.value.id == job.id && f.active.value.claim == job.claim && f.active.value.version == job.version
  }

  ghost predicate NewPhase(s: Sys, job: Job) {
    && job.claim < s.issued && job.id in s.jobs && s.jobs[job.id] == job.claim
    && (job.claim in s.last ==> s.last[job.claim] < job.version)
  }

  ghost predicate LatestChild(s: Sys, c: Child) {
    && c.job.claim < s.issued && c.job.id in s.jobs && s.jobs[c.job.id] == c.job.claim
    && c.job.claim in s.last && s.last[c.job.claim] == c.job.version
    && UpToDate(s, c.state)
    && (c.stage.Marking? ==> Count(s.asked, c.job.claim) == 0)
  }

  ghost predicate LoginSpent(c: Child) {
    !c.stage.Booted? && !c.stage.Loaded? && !c.stage.Marking? && c.state.active.Some? && c.state.active.value.attempted
  }

  const START := Sys(File(None, None), Down, None, false, map[], 0, map[], map[], map[])

  ghost predicate StepsAt(states: seq<Sys>, actions: seq<Action>, i: nat) {
    && i < |actions| < |states|
    && Sane(states[i]) && Enabled(states[i], actions[i]) && states[i + 1] == Next(states[i], actions[i])
  }

  ghost predicate Run(states: seq<Sys>, actions: seq<Action>) {
    |states| == |actions| + 1 && states[0] == START && forall i: nat | i < |actions| :: StepsAt(states, actions, i)
  }

  /** The i-th step starts a child phase, or requests credentials. */
  ghost predicate SpawnsAt(states: seq<Sys>, actions: seq<Action>, i: nat) { StepsAt(states, actions, i) && actions[i].Spawn? }

  ghost predicate AsksAt(states: seq<Sys>, actions: seq<Action>, i: nat) { StepsAt(states, actions, i) && actions[i].ChildAsk? }

  predicate OfParent(a: Action) {
    a.Restart? || a.Crash? || a.Reload? || a.Drop? || a.RecoverAuthentication? || a.Resend? || a.GiveUp? || a.AfterCall?
  }

  predicate OfPhase(a: Action) { a.Continue? || a.Claim? || a.LostClaim? || a.Spawn? }

  predicate OfLease(a: Action) { a.LeaseRefused? || a.PhaseOver? || a.ClearStaleLock? }

  predicate OfLogin(a: Action) { a.ChildRead? || a.ChildEnter? || a.ChildMark? || a.ChildAsk? }

  predicate OfOutcome(a: Action) { a.ChildPersist? || a.ChildReport? }

  predicate OfExit(a: Action) { a.ChildLeave? || a.ChildDie? }

  lemma ParentStepKeeps(s: Sys, a: Action)
    requires Inv(s) && Enabled(s, a) && OfParent(a)
    ensures Inv(Next(s, a))
  {
  }

  lemma PhaseStepKeeps(s: Sys, a: Action)
    requires Inv(s) && Enabled(s, a) && OfPhase(a)
    ensures Inv(Next(s, a))
  {
  }

  lemma LeaseStepKeeps(s: Sys, a: Action)
    requires Inv(s) && Enabled(s, a) && OfLease(a)
    ensures Inv(Next(s, a))
  {
  }

  lemma ReadStepKeeps(s: Sys, a: Action)
    requires Inv(s) && Enabled(s, a) && (a.ChildRead? || a.ChildEnter?)
    ensures Inv(Next(s, a))
  {
  }

  lemma LoginStepKeeps(s: Sys, a: Action)
    requires Inv(s) && Enabled(s, a) && OfLogin(a)
    ensures Inv(Next(s, a))
  {
    if a.ChildRead? || a.ChildEnter? { ReadStepKeeps(s, a); }
  }

  lemma OutcomeStepKeeps(s: Sys, a: Action)
    requires Inv(s) && Enabled(s, a) && OfOutcome(a)
    ensures Inv(Next(s, a))
  {
  }

  lemma ExitStepKeeps(s: Sys, a: Action)
    requires Inv(s) && Enabled(s, a) && OfExit(a)
    ensures Inv(Next(s, a))
  {
  }

  lemma NextKeeps(s: Sys, a: Action)
    requires Inv(s) && Enabled(s, a)
    ensures Inv(Next(s, a))
  {
    if OfParent(a) {
      ParentStepKeeps(s, a);
    } else if OfPhase(a) {
      PhaseStepKeeps(s, a);
    } else if OfLease(a) {
      LeaseStepKeeps(s, a);
    } else if OfLogin(a) {
      LoginStepKeeps(s, a);
    } else if OfOutcome(a) {
      OutcomeStepKeeps(s, a);
    } else {
      ExitStepKeeps(s, a);
    }
  }

  lemma {:induction false} RunKeepsInv(states: seq<Sys>, actions: seq<Action>, n: nat)
    requires Run(states, actions) && n < |states|
    ensures Inv(states[n])
  {
    if n > 0 {
      RunKeepsInv(states, actions, n - 1);
      assert StepsAt(states, actions, n - 1);
      NextKeeps(states[n - 1], actions[n - 1]);
    }
  }

  /** Under any schedule of crashes and restarts, credentials are requested at most once per claim. */
  lemma LoginAtMostOncePerClaim(states: seq<Sys>, actions: seq<Action>, n: nat, claim: nat)
    requires Run(states, actions) && n < |states|
    ensures Count(states[n].asked, claim) <= 1
  {
    RunKeepsInv(states, actions, n);
  }

  lemma AskedOnlyGrows(s: Sys, a: Action, claim: nat)
    requires Sane(s) && Enabled(s, a)
    ensures Count(s.asked, claim) <= Count(Next(s, a).asked, claim)
  {
  }

  lemma LastOnlyGrows(s: Sys, a: Action, claim: nat)
    requires Inv(s) && Enabled(s, a) && claim in s.last
    ensures claim in Next(s, a).last && s.last[claim] <= Next(s, a).last[claim]
  {
    if a.Spawn? { assert NewPhase(s, s.parent.job); } else { OnlySpawnAdvances(s, a); }
  }

  lemma OnlySpawnAdvances(s: Sys, a: Action)
    requires Sane(s) && Enabled(s, a) && !a.Spawn?
    ensures Next(s, a).last == s.last
  {
  }

  lemma {:induction false} LastGrows(states: seq<Sys>, actions: seq<Action>, i: nat, j: nat, claim: nat)
    requires Run(states, actions) && i <= j < |states| && claim in states[i].last
    ensures claim in states[j].last && states[i].last[claim] <= states[j].last[claim]
  {
    if i < j {
      LastGrows(states, actions, i, j - 1, claim);
      RunKeepsInv(states, actions, j - 1);
      assert StepsAt(states, actions, j - 1);
      LastOnlyGrows(states[j - 1], actions[j - 1], claim);
    }
  }

  /**
   * Child phases under one claim carry strictly increasing versions, so an interrupted phase is run again only after
   * the user asked to continue.
   */
  lemma PhasesAdvance(states: seq<Sys>, actions: seq<Action>, i: nat, j: nat)
    requires Run(states, actions) && i < j && SpawnsAt(states, actions, i) && SpawnsAt(states, actions, j)
    requires states[i].parent.job.claim == states[j].parent.job.claim
    ensures states[i].parent.job.version < states[j].parent.job.version
  {
    RunKeepsInv(states, actions, j);
    LastGrows(states, actions, i + 1, j, states[i].parent.job.claim);
  }

  lemma AskedNext(states: seq<Sys>, actions: seq<Action>, n: nat, claim: nat)
    requires Run(states, actions) && n + 1 < |states|
    ensures Count(states[n].asked, claim) <= Count(states[n + 1].asked, claim)
  {
    RunKeepsInv(states, actions, n);
    assert StepsAt(states, actions, n);
    AskedOnlyGrows(states[n], actions[n], claim);
  }

  lemma {:induction false} AskedGrows(states: seq<Sys>, actions: seq<Action>, i: nat, j: nat, claim: nat)
    requires Run(states, actions) && i <= j < |states|
    ensures Count(states[i].asked, claim) <= Count(states[j].asked, claim)
  {
    if i < j {
      AskedGrows(states, actions, i, j - 1, claim);
      AskedNext(states, actions, j - 1, claim);
    }
  }

  /** The same over the steps themselves: two credential requests are never for one claim. */
  lemma LoginsAreForDistinctClaims(states: seq<Sys>, actions: seq<Action>, i: nat, j: nat)
    requires Run(states, actions) && i < j && AsksAt(states, actions, i) && AsksAt(states, actions, j)
    ensures states[i].child.value.job.claim != states[j].child.value.job.claim
  {
    var claim := states[i].child.value.job.claim;
    AskedGrows(states, actions, i + 1, j, claim);
    RunKeepsInv(states, actions, j);
  }

  // ---- a persisted outcome stands, as long as no unfinished child outlives its parent ----

  predicate Unfinished(c: Child) { !c.stage.Persisted? && !c.stage.Reported? }

  /** A crash or a given-up wait that leaves a child running which has not stored its outcome. */
  predicate Orphans(s: Sys, a: Action) {
    (a.PhaseOver? || (a.Crash? && !a.childToo)) && s.child.Some? && Unfinished(s.child.value)
  }

  /** A copy of the state that can only repeat the outcome stored under a sealed claim. */
  ghost predicate Repeats(s: Sys, f: File) {
    && (f.completion.Some? ==> f.active.Some? && f.active.value.claim == f.completion.value.claim)
    && (f.active.Some? && f.active.value.claim in s.sealed ==> f.completion == Some(s.sealed[f.active.value.claim]))
  }

  ghost predicate Ready(f: File, job: Job) { Holds(f, job) && f.active.value.uncertain && f.completion.None? }

  ghost predicate SteadyChild(s: Sys, c: Child) {
    if Unfinished(c) then
      && s.parent.Waiting? && c.job.claim !in s.sealed && Ready(s.file, c.job)
      && (!c.stage.Booted? ==> c.state == s.file)
    else
      && c.state.completion.Some? && Repeats(s, c.state)
  }

  ghost predicate Steady(s: Sys) {
    && Inv(s)
    && (forall x | x in s.sealed :: x < s.issued && s.sealed[x].claim == x && !s.sealed[x].outcome.AuthenticationRequired?)
    && Repeats(s, s.file)
    && (s.parent.Idle? || s.parent.Sent? ==> Repeats(s, s.parent.state) && (s.file.completion.Some? ==> s.parent.state == s.file))
    && (s.parent.Phase? ==> s.parent.job.claim !in s.sealed && s.file.completion.None? && (!s.lock ==> Ready(s.file, s.parent.job)))
    && (s.child.Some? ==> SteadyChild(s, s.child.value))
  }

  lemma ParentStepSteady(s: Sys, a: Action)
    requires Steady(s) && Enabled(s, a) && OfParent(a) && !Orphans(s, a)
    ensures Steady(Next(s, a))
  {
    NextKeeps(s, a);
  }

  lemma PhaseStepSteady(s: Sys, a: Action)
    requires Steady(s) && Enabled(s, a) && OfPhase(a)
    ensures Steady(Next(s, a))
  {
    NextKeeps(s, a);
  }

  lemma LeaseStepSteady(s: Sys, a: Action)
    requires Steady(s) && Enabled(s, a) && OfLease(a) && !Orphans(s, a)
    ensures Steady(Next(s, a))
  {
    NextKeeps(s, a);
  }

  lemma LoginStepSteady(s: Sys, a: Action)
    requires Steady(s) && Enabled(s, a) && OfLogin(a)
    ensures Steady(Next(s, a))
  {
    NextKeeps(s, a);
  }

  lemma OutcomeStepSteady(s: Sys, a: Action)
    requires Steady(s) && Enabled(s, a) && OfOutcome(a)
    ensures Steady(Next(s, a))
  {
    NextKeeps(s, a);
  }

  lemma ExitStepSteady(s: Sys, a: Action)
    requires Steady(s) && Enabled(s, a) && OfExit(a)
    ensures Steady(Next(s, a))
  {
    NextKeeps(s, a);
  }

  lemma NextSteady(s: Sys, a: Action)
    requires Steady(s) && Enabled(s, a) && !Orphans(s, a)
    ensures Steady(Next(s, a))
  {
    if OfParent(a) {
      ParentStepSteady(s, a);
    } else if OfPhase(a) {
      PhaseStepSteady(s, a);
    } else if OfLease(a) {
      LeaseStepSteady(s, a);
    } else if OfLogin(a) {
      LoginStepSteady(s, a);
    } else if OfOutcome(a) {
      OutcomeStepSteady(s, a);
    } else {
      ExitStepSteady(s, a);
    }
  }

  ghost predicate Orderly(states: seq<Sys>, actions: seq<Action>) {
    Run(states, actions) && forall i | 0 <= i < |actions| :: !Orphans(states[i], actions[i])
  }

  lemma {:induction false} RunSteady(states: seq<Sys>, actions: seq<Action>, n: nat)
    requires Orderly(states, actions) && n < |states|
    ensures Steady(states[n])
  {
    if n > 0 {
      RunSteady(states, actions, n - 1);
      assert StepsAt(states, actions, n - 1);
      NextSteady(states[n - 1], actions[n - 1]);
    }
  }

  predicate Contradicts(s: Sys, a: Action)
    requires Enabled(s, a) && Sane(s)
  {
    var report := Report(s, a);
    report.Some? && report.value.claim in s.sealed && report.value != s.sealed[report.value.claim]
  }

  lemma SealIsFinal(s: Sys, a: Action, claim: nat)
    requires Steady(s) && Enabled(s, a) && claim in s.sealed
    ensures claim in Next(s, a).sealed && Next(s, a).sealed[claim] == s.sealed[claim]
  {
    if a.ChildPersist? { assert SteadyChild(s, s.child.value); } else { OnlyPersistSeals(s, a); }
  }

  lemma OnlyPersistSeals(s: Sys, a: Action)
    requires Sane(s) && Enabled(s, a) && !a.ChildPersist?
    ensures Next(s, a).sealed == s.sealed
  {
  }

  lemma {:induction false} SealedStays(states: seq<Sys>, actions: seq<Action>, i: nat, j: nat, claim: nat)
    requires Orderly(states, actions) && i <= j < |states| && claim in states[i].sealed
    ensures claim in states[j].sealed && states[j].sealed[claim] == states[i].sealed[claim]
  {
    if i < j {
      SealedStays(states, actions, i, j - 1, claim);
      RunSteady(states, actions, j - 1);
      assert StepsAt(states, actions, j - 1);
      SealIsFinal(states[j - 1], actions[j - 1], claim);
    }
  }

  /** Once a final outcome is on disk, every later completion call for its claim repeats exactly that outcome. */
  lemma CompletionStands(states: seq<Sys>, actions: seq<Action>, i: nat, j: nat)
    requires Orderly(states, actions) && i < j && StepsAt(states, actions, i) && StepsAt(states, actions, j)
    requires actions[i].ChildPersist? && !actions[i].outcome.AuthenticationRequired?
    ensures var claim := states[i].child.value.job.claim;
            var report := Report(states[j], actions[j]);
            report.Some? && report.value.claim == claim ==> report.value == Completion(claim, actions[i].outcome, actions[i].payload)
  {
    SealedStays(states, actions, i + 1, j, states[i].child.value.job.claim);
    RunSteady(states, actions, j);
  }

  ghost predicate Plays(s: Sys, script: seq<Action>, t: Sys)
    decreases |script|
  {
    if script == [] then s == t
    else Sane(s) && Enabled(s, script[0]) && Plays(Next(s, script[0]), script[1..], t)
  }

  lemma {:induction false} Splice(s: Sys, first: seq<Action>, m: Sys, second: seq<Action>, t: Sys)
    requires Plays(s, first, m) && Plays(m, second, t)
    ensures Plays(s, first + second, t)
    decreases |first|
  {
    if first == [] {
      assert first + second == second;
    } else {
      Splice(Next(s, first[0]), first[1..], m, second, t);
      assert (first + second)[1..] == first[1..] + second;
    }
  }

  /** A child that has read the file makes its first write. */
  lemma EntersWork(s: Sys) returns (t: Sys)
    requires Inv(s) && s.child.Some? && s.child.value.stage.Loaded?
    ensures Plays(s, [ChildEnter], t) && Inv(t) && t.child.Some? && t.child.value.stage.Working?
    ensures t.parent == s.parent && t.child.value.job == s.child.value.job && t.jobs == s.jobs
  {
    t := Next(s, ChildEnter);
    NextKeeps(s, ChildEnter);
    assert Plays(t, [], t);
  }

  /** Nothing in the script leaves a child behind. */
  predicate LeavesNobody(script: seq<Action>) { forall b | b in script :: !b.Crash? && !b.PhaseOver? }

  /** The child gets to work: at most a read of the file and its first write, or the pending credential request. */
  lemma ReachesWork(s: Sys) returns (script: seq<Action>, t: Sys)
    requires Inv(s) && s.child.Some? && Unfinished(s.child.value)
    ensures Plays(s, script, t) && LeavesNobody(script) && Inv(t) && t.child.Some? && t.child.value.stage.Working?
    ensures t.parent == s.parent && t.child.value.job == s.child.value.job && t.jobs == s.jobs
  {
    match s.child.value.stage
    case Booted =>
      var u := Next(s, ChildRead);
      NextKeeps(s, ChildRead);
      t := EntersWork(u);
      script := [ChildRead, ChildEnter];
      assert script[1..] == [ChildEnter];
    case Loaded =>
      t := EntersWork(s);
      script := [ChildEnter];
    case Marking =>
      t := Next(s, ChildAsk);
      script := [ChildAsk];
      NextKeeps(s, ChildAsk);
      assert Plays(t, [], t);
    case Working =>
      t := s;
      script := [];
  }

  /** The parent comes back, or reads the file again, while the orphan is still unfinished. */
  lemma ReturnsIdle(s: Sys, a: Action) returns (back: Action, t: Sys)
    requires Steady(s) && Enabled(s, a) && Orphans(s, a)
    ensures Plays(Next(s, a), [back], t) && LeavesNobody([back]) && Inv(t) && t.parent == Idle(t.file) && t.child == s.child && t.jobs == s.jobs
    ensures Ready(t.file, t.child.value.job) && (!t.child.value.stage.Booted? ==> t.child.value.state == t.file)
  {
    var s1 := Next(s, a);
    NextKeeps(s, a);
    back := if a.Crash? then Restart else Reload;
    t := Next(s1, back);
    NextKeeps(s1, back);
    assert Plays(t, [], t);
  }

  /** A working orphan stores its outcome, and the parent, which has read an uncertain claim, gives it up as failed. */
  lemma SealsAndGivesUp(s: Sys) returns (seal: Action, t: Sys, call: Action)
    requires Inv(s) && s.parent.Idle? && s.child.Some? && s.child.value.stage.Working?
    requires Ready(s.parent.state, s.child.value.job)
    ensures Plays(s, [seal], t) && LeavesNobody([seal]) && Sane(t) && Enabled(t, call) && Contradicts(t, call)
    ensures Report(t, call).value.claim == s.child.value.job.claim
  {
    seal := ChildPersist(Succeeded, "");
    t := Next(s, seal);
    NextKeeps(s, seal);
    assert Plays(t, [], t);
    call := GiveUp(View(s.child.value.job, Running));
  }

  /**
   * The condition is exact: wherever an unfinished child is orphaned, the run can go on, without leaving another child
   * behind, to a call that contradicts the outcome of this child's own claim.
   */
  lemma OrphanMayContradict(s: Sys, a: Action) returns (script: seq<Action>, t: Sys, call: Action)
    requires Steady(s) && Enabled(s, a) && Orphans(s, a)
    ensures Plays(Next(s, a), script, t) && LeavesNobody(script) && Sane(t) && Enabled(t, call) && Contradicts(t, call)
    ensures Report(t, call).value.claim == s.child.value.job.claim
  {
    var back, s2 := ReturnsIdle(s, a);
    var work, s3 := ReachesWork(s2);
    var seal: Action;
    seal, t, call := SealsAndGivesUp(s3);
    Splice(Next(s, a), [back], s2, work, s3);
    Splice(Next(s, a), [back] + work, s3, [seal], t);
    script := [back] + work + [seal];
  }

  lemma OneStepMore(states: seq<Sys>, actions: seq<Action>, a: Action)
    requires Orderly(states, actions)
    requires var s := states[|actions|]; Sane(s) && Enabled(s, a) && !Orphans(s, a)
    ensures Orderly(states + [Next(states[|actions|], a)], actions + [a])
  {
    var states', actions' := states + [Next(states[|actions|], a)], actions + [a];
    forall i: nat | i < |actions'| ensures StepsAt(states', actions', i) && !Orphans(states'[i], actions'[i]) {
      if i < |actions| {
        assert StepsAt(states, actions, i);
        assert states'[i] == states[i] && states'[i + 1] == states[i + 1] && actions'[i] == actions[i];
      }
    }
  }

  /** A fresh runner claims a job and starts a child for it. */
  lemma FreshClaim() returns (states: seq<Sys>, actions: seq<Action>)
    ensures Orderly(states, actions) && states[|actions|].parent.Waiting?
    ensures states[|actions|].child.Some? && states[|actions|].child.value.stage.Booted?
  {
    states, actions := [START], [];
    OneStepMore(states, actions, Restart);
    states, actions := states + [Next(START, Restart)], actions + [Restart];
    var s1, claim := states[1], Claim("job", Some(1), 0);
    assert s1 == START.(parent := Idle(File(None, None)));
    OneStepMore(states, actions, claim);
    states, actions := states + [Next(s1, claim)], actions + [claim];
    var s2 := states[2];
    assert s2.parent == Phase(Job("job", 0, 0, Some(1))) && !s2.lock && s2.child.None?;
    OneStepMore(states, actions, Spawn);
    states, actions := states + [Next(s2, Spawn)], actions + [Spawn];
  }

  /** It happens: the parent of a fresh run crashes alone, and the run can go on to contradict the outcome its child stores. */
  lemma OrphanHappens() returns (states: seq<Sys>, actions: seq<Action>, crash: Action, script: seq<Action>, t: Sys, call: Action)
    ensures Orderly(states, actions) && Enabled(states[|actions|], crash) && Sane(states[|actions|]) && Orphans(states[|actions|], crash)
    ensures Plays(Next(states[|actions|], crash), script, t) && LeavesNobody(script) && Sane(t) && Enabled(t, call) && Contradicts(t, call)
  {
    states, actions := FreshClaim();
    crash := Crash(false);
    RunSteady(states, actions, |actions|);
    script, t, call := OrphanMayContradict(states[|actions|], crash);
  }
}
