/**
 * The serial lease around owned process trees: its lock is given back only while cleanup is confirmed.
 *
 * A process is known by the number of its handle, which is never used again. What the operating system answers is an
 * oracle, and so are the budget checks and polls of the monitor.
 */
module Lease {
  import opened Wrappers
  import opened ProcessTree

  /** What one turn of the monitor meets besides the observation. */
  datatype Turn = Turn(budgetOk: bool, rssOk: bool, exited: Option<int>)

  /** `self` and `user` are this process and its user; `leader` answers the question that opens a tree. */
  datatype World = World(self: int, user: int, pid: nat -> int, leader: nat -> Reply, identity: (nat, nat, int) -> Reply,
                         table: (nat, nat) -> Option<map<int, Row>>, delivered: nat -> bool, turn: nat -> Turn)

  const ATTEMPTS := 26

  /** How an attempt to stop a tree ends: with nothing alive, with something alive to the last, or with an exception. */
  datatype Outcome = Quiet | Lasting | Thrown

  /** Only a child of this process that leads its own group can be the leader of a tree. */
  predicate IsLeader(w: World, p: nat, r: Reply) {
    r.Seen? && 1 < r.id.pid == w.pid(p) && r.id.ppid == w.self && r.id.pgid == r.id.pid && r.id.uid == w.user
  }

  predicate IsLeast(tree: OwnedProcessTree, pending: set<int>, pid: int)
    requires pending <= tree.owned.Keys
    reads tree
  {
    pid in pending && forall q | q in pending :: tree.owned[pid].depth <= tree.owned[q].depth
  }

  lemma {:induction false} HasLeast(tree: OwnedProcessTree, pending: set<int>)
    requires pending <= tree.owned.Keys && pending != {}
    ensures exists pid :: IsLeast(tree, pending, pid)
    decreases |pending|
  {
    HasElement(pending);
    var pid :| pid in pending;
    var rest := pending - {pid};
    if rest == {} {
      assert IsLeast(tree, pending, pid) by { assert forall q | q in pending :: q == pid || q in rest; }
    } else {
      HasLeast(tree, rest);
      var least :| IsLeast(tree, rest, least);
      assert forall q | q in pending :: q == pid || q in rest;
      assert IsLeast(tree, pending, if tree.owned[pid].depth <= tree.owned[least].depth then pid else least);
    }
  }

  class ValidationLease {
    const world: World
    const token: string
    var clock: nat
    /** The lock file: the token of its owner, if it exists. */
    var lock: Option<string>
    var owner: bool
    var confirmed: bool
    var trees: map<nat, OwnedProcessTree>
    /** History: some observation, signal or tree of this lease has failed. */
    ghost var failed: bool
    /** History: of every observation that did not fail, whether it found anything alive. */
    ghost var found: seq<bool>

    ghost function Objects(): set<object>
      reads this
    {
      set p | p in trees :: trees[p]
    }

    ghost predicate AreTrees()
      reads this, Objects()
    {
      forall p | p in trees :: trees[p].Valid() && trees[p].uid == world.user && trees[p].root == world.pid(p)
    }

    /** Between operations a failure always shows in the record. */
    ghost predicate Valid()
      reads this, Objects()
    {
      AreTrees() && (failed ==> !confirmed)
    }

    /** During an operation it shows at least in the tree of the process at hand. */
    ghost predicate Shows(p: nat)
      reads this, Objects()
    {
      AreTrees() && (failed ==> !confirmed || (p in trees && trees[p].uncertain))
    }

    twostate predicate Lasts(tree: OwnedProcessTree)
      reads tree
    {
      (old(tree.uncertain) ==> tree.uncertain) && Grown(old(tree.owned), tree.owned)
    }

    /** Trees are never given up, doubt about one never ends, and no failure is forgotten. */
    twostate predicate Kept()
      reads this, Objects()
    {
      && (old(failed) ==> failed) && old(found) <= found && old(clock) <= clock
      && fresh(Objects() - old(Objects()))
      && forall p | p in old(trees) :: p in trees && trees[p] == old(trees)[p] && Lasts(old(trees)[p])
    }

    constructor (world: World, token: string, lock: Option<string>)
      ensures Valid() && !failed && confirmed && this.lock == (if lock.None? then Some(token) else lock) && owner == lock.None?
      ensures this.world == world && this.token == token && trees == map[]
    {
      this.world, this.token, clock := world, token, 0;
      this.lock, owner := if lock.None? then Some(token) else lock, lock.None?;
      confirmed, trees, failed, found := true, map[], false, [];
    }

    method NewTree(p: nat, leader: Identity) returns (tree: OwnedProcessTree)
      requires IsLeader(world, p, Seen(leader))
      ensures fresh(tree) && tree.Valid() && tree.uid == world.user && tree.root == world.pid(p)
      ensures !tree.uncertain && tree.signalled == []
    {
      var w := world;
      tree := new OwnedProcessTree((n: nat, pid: int) => w.identity(p, n, pid), (n: nat) => w.table(p, n), leader, w.self, w.user);
    }

    method AddTree(p: nat, leader: Identity)
      requires AreTrees() && p !in trees && IsLeader(world, p, Seen(leader))
      modifies `trees
      ensures AreTrees() && Kept() && trees.Keys == old(trees).Keys + {p} && !trees[p].uncertain && trees[p].signalled == []
    {
      var tree := NewTree(p, leader);
      trees := trees[p := tree];
    }

    method TreeFor(p: nat) returns (ok: bool)
      requires AreTrees()
      modifies `clock, `trees, `confirmed, `failed
      ensures AreTrees() && Kept()
      ensures ok ==> p in trees && confirmed == old(confirmed) && failed == old(failed)
      ensures !ok ==> failed && !confirmed
      ensures ok && p !in old(trees) ==> !trees[p].uncertain && trees[p].signalled == []
      ensures p !in old(trees) ==> ok == IsLeader(world, p, world.leader(old(clock)))
      ensures clock <= old(clock) + 1 && if p in old(trees) then ok && trees == old(trees) else clock == old(clock) + 1
    {
      ok := true;
      if p in trees { return; }
      var r: Reply := world.leader(clock);
      clock := clock + 1;
      ok := IsLeader(world, p, r);
      if ok {
        AddTree(p, r.id);
      } else {
        confirmed, failed := false, true;
      }
    }

    /** One tree is at work: it stays a tree, doubt about it never ends, and no failure is forgotten. */
    twostate predicate Attended(tree: OwnedProcessTree)
      reads this, tree
    {
      && tree.Valid() && Lasts(tree) && old(tree.clock) <= tree.clock
      && (old(failed) ==> failed) && old(found) <= found && old(clock) <= clock
    }

    method ObserveTree(tree: OwnedProcessTree) returns (members: Option<map<int, Identity>>)
      requires tree.Valid()
      modifies `failed, `found, tree
      ensures Attended(tree) && failed == (old(failed) || members.None?) && tree.uncertain == (old(tree.uncertain) || members.None?)
      ensures tree.since == old(tree.clock) && tree.signalled == old(tree.signalled)
      ensures match members
              case None => tree.Failed() && found == old(found)
              case Some(live) => tree.Observed(live) && found == old(found) + [live != map[]]
      ensures members == Some(map[]) ==> tree.Cleared()
    {
      members := tree.Observe();
      if members.None? { failed := true; } else { found := found + [members.value != map[]]; }
    }

    /** The member asked last could not be identified or was no longer itself, or the signal to it failed. */
    ghost predicate RefusedLast(tree: OwnedProcessTree, member: Identity)
      reads this, tree
    {
      tree.clock > 0 && clock > 0 && Refused(tree.uid, member, tree.Reading(tree.clock - 1, member.pid), world.delivered(clock - 1))
    }

    ghost predicate Balked(tree: OwnedProcessTree, members: map<int, Identity>)
      reads this, tree
    {
      exists pid :: pid in members && RefusedLast(tree, members[pid])
    }

    method SignalOne(tree: OwnedProcessTree, kind: Signal, member: Identity) returns (ok: bool)
      requires tree.Valid() && Belongs(tree.owned, member)
      modifies `clock, `failed, tree
      ensures Attended(tree) && failed == (old(failed) || !ok) && (ok ==> tree.uncertain == old(tree.uncertain))
      ensures tree.owned == old(tree.owned) && clock == old(clock) + 1 && tree.clock == old(tree.clock) + 1
      ensures tree.signalled == old(tree.signalled) || tree.signalled == old(tree.signalled) + [Sent(member.pid, kind)]
      ensures if ok then Struck(tree, old(tree.signalled), tree.signalled, old(tree.clock), tree.clock, kind, member.pid)
              else RefusedLast(tree, member)
    {
      ghost var r := tree.Reading(tree.clock, member.pid);
      ok := tree.SignalOwned(member, kind, world.delivered(clock));
      clock := clock + 1;
      if !ok { failed := true; }
      if tree.signalled != old(tree.signalled) {
        assert tree.signalled[|old(tree.signalled)|] == Sent(member.pid, kind);
      } else {
        assert tree.Answered(old(tree.clock), tree.clock, member.pid, r);
      }
    }

    /** Signals the members, a parent before its children, until one of them is in doubt or cannot be identified. */
    method SignalAll(tree: OwnedProcessTree, kind: Signal, members: map<int, Identity>) returns (ok: bool)
      requires tree.Valid() && tree.Recognised(members)
      modifies `clock, `failed, tree
      ensures Attended(tree) && failed == (old(failed) || !ok) && (ok ==> tree.uncertain == old(tree.uncertain))
      ensures tree.owned == old(tree.owned) && InDepthOrder(tree.owned, old(tree.signalled), tree.signalled, kind, members.Keys)
      ensures if ok then AllStruck(tree, old(tree.signalled), tree.signalled, old(tree.clock), tree.clock, kind, members.Keys)
              else Balked(tree, members)
    {
      ok := true;
      var pending := members.Keys;
      while pending != {}
        invariant pending <= members.Keys && ok && failed == old(failed) && old(tree.clock) <= tree.clock && old(clock) <= clock
        invariant tree.uncertain == old(tree.uncertain) && tree.owned == old(tree.owned)
        invariant SignalledSoFar(tree.owned, old(tree.signalled), tree.signalled, kind, members.Keys, pending)
        invariant AllStruck(tree, old(tree.signalled), tree.signalled, old(tree.clock), tree.clock, kind, members.Keys - pending)
        decreases |pending|
      {
        HasLeast(tree, pending);
        var pid :| IsLeast(tree, pending, pid);
        ghost var before, asked := tree.signalled, tree.clock;
        assert pid == tree.root || IsChild(tree.owned, tree.uid, pid);
        ok := SignalOne(tree, kind, members[pid]);
        OneMoreInOrder(tree.owned, old(tree.signalled), before, tree.signalled, kind, members.Keys, pending, pid);
        if !ok { return; }
        OneMoreStruck(tree, old(tree.signalled), before, old(tree.clock), asked, kind, members.Keys - pending, pid);
        assert members.Keys - pending + {pid} == members.Keys - (pending - {pid});
        pending := pending - {pid};
      }
    }
    /** Looks what is alive and signals it. */
    method Strike(tree: OwnedProcessTree, kind: Signal) returns (ok: bool)
      requires tree.Valid()
      modifies `clock, `failed, `found, tree
      ensures Attended(tree) && (if ok then failed == old(failed) && tree.uncertain == old(tree.uncertain) else failed)
      ensures old(tree.signalled) <= tree.signalled && OfKind(tree.signalled[|old(tree.signalled)|..], kind)
      ensures ok ==> |found| == |old(found)| + 1
      ensures ok ==> AllStruck(tree, old(tree.signalled), tree.signalled, old(tree.clock), tree.clock, kind, old(tree.owned).Keys)
    {
      var members := ObserveTree(tree);
      if members.None? { return false; }
      ghost var seen, owned := tree.clock, tree.owned.Keys;
      ok := SignalAll(tree, kind, members.value);
      if ok { StruckOrDead(tree, members.value, owned, old(tree.signalled), tree.signalled, old(tree.clock), seen, tree.clock, kind); }
    }

    /** Looks up to 26 times whether nothing is alive any more. */
    method Await(tree: OwnedProcessTree) returns (o: Outcome)
      requires tree.Valid()
      modifies `failed, `found, tree
      ensures Attended(tree) && tree.signalled == old(tree.signalled) && clock == old(clock)
      ensures if o.Thrown? then failed else failed == old(failed) && tree.uncertain == old(tree.uncertain)
      ensures o.Quiet? ==> tree.Cleared() && |old(found)| < |found| <= |old(found)| + 26 && !found[|found| - 1]
                           && forall k | |old(found)| <= k < |found| - 1 :: found[k]
      ensures o.Lasting? ==> |found| == |old(found)| + 26 && forall k | |old(found)| <= k < |found| :: found[k]
    {
      for attempt := 0 to ATTEMPTS
        invariant Attended(tree) && failed == old(failed) && tree.uncertain == old(tree.uncertain) && tree.signalled == old(tree.signalled)
        invariant |found| == |old(found)| + attempt && forall k | |old(found)| <= k < |found| :: found[k]
      {
        var members := ObserveTree(tree);
        if members.None? { return Thrown; }
        if members.value == map[] { return Quiet; }
      }
      o := Lasting;
    }

    /** One signal: it is sent to all that is alive, then the tree is watched for a while. */
    method Round(tree: OwnedProcessTree, kind: Signal) returns (o: Outcome)
      requires tree.Valid()
      modifies `clock, `failed, `found, tree
      ensures Attended(tree) && (if o.Thrown? then failed else failed == old(failed) && tree.uncertain == old(tree.uncertain))
      ensures old(tree.signalled) <= tree.signalled && OfKind(tree.signalled[|old(tree.signalled)|..], kind)
      ensures !o.Thrown? ==> AllStruck(tree, old(tree.signalled), tree.signalled, old(tree.clock), tree.clock, kind, old(tree.owned).Keys)
      ensures match o
              case Quiet => tree.Cleared() && Ended(found[|old(found)|..])
              case Lasting => Outlasted(found[|old(found)|..])
              case Thrown => true
    {
      var ok := Strike(tree, kind);
      if !ok { return Thrown; }
      ghost var asked, sent := tree.clock, tree.signalled;
      o := Await(tree);
      StruckWider(tree, old(tree.signalled), old(tree.signalled), sent, sent, old(tree.clock), old(tree.clock), asked, tree.clock, kind, old(tree.owned).Keys);
    }

    /** Asks the owned processes to end, and after 26 looks kills them; gives up after 26 more. */
    method Quell(tree: OwnedProcessTree) returns (o: Outcome)
      requires tree.Valid()
      modifies `clock, `failed, `found, tree
      ensures Attended(tree) && (o.Thrown? ==> failed) && (!o.Thrown? ==> failed == old(failed) && tree.uncertain == old(tree.uncertain))
      ensures old(tree.signalled) <= tree.signalled && AskedFirst(tree.signalled[|old(tree.signalled)|..])
      ensures !o.Thrown? ==> AllStruck(tree, old(tree.signalled), tree.signalled, old(tree.clock), tree.clock, Terminate, old(tree.owned).Keys)
      ensures o.Quiet? ==> tree.Cleared() && EndedInTime(found[|old(found)|..])
      ensures o.Lasting? ==> Outlived(found[|old(found)|..])
      ensures o.Lasting? ==> AllStruck(tree, old(tree.signalled), tree.signalled, old(tree.clock), tree.clock, Kill, old(tree.owned).Keys)
    {
      o := Round(tree, Terminate);
      if !o.Lasting? { return; }
      ghost var sent, asked, owned, seen := tree.signalled, tree.clock, old(tree.owned).Keys, found;
      o := Round(tree, Kill);
      StruckWider(tree, old(tree.signalled), old(tree.signalled), sent, tree.signalled, old(tree.clock), old(tree.clock), asked, tree.clock, Terminate, owned);
      if o.Lasting? {
        StruckWider(tree, old(tree.signalled), sent, tree.signalled, tree.signalled, old(tree.clock), asked, tree.clock, tree.clock, Kill, owned);
      }
      assert found[|old(found)|..][..27] == seen[|old(found)|..];
      assert found[|old(found)|..][27..] == found[|seen|..];
    }

    method TryToStop(p: nat) returns (o: Outcome)
      requires AreTrees()
      modifies `clock, `trees, `confirmed, `failed, `found, Objects()
      ensures AreTrees() && Kept() && (confirmed ==> old(confirmed))
      ensures !o.Thrown? ==> p in trees && failed == old(failed) && (p in old(trees) ==> trees[p].uncertain == old(trees[p].uncertain))
      ensures !o.Thrown? && p !in old(trees) ==> !trees[p].uncertain
      ensures o.Thrown? ==> failed
      ensures o.Quiet? ==> trees[p].Cleared() && EndedInTime(found[|old(found)|..])
      ensures o.Lasting? ==> Outlived(found[|old(found)|..])
    {
      var ok := TreeFor(p);
      if ok { o := Quell(trees[p]); } else { o := Thrown; }
    }

    /**
     * Cleanup counts as confirmed exactly if it did before, the tree was never in doubt, and its last observation has asked
     * about every owned process and found none alive: that is, unless something fails or outlasts two signals and 52 looks.
     */
    method StopOwned(p: nat)
      requires Shows(p)
      modifies `clock, `trees, `confirmed, `failed, `found, Objects()
      ensures Valid() && Kept()
      ensures confirmed ==> old(confirmed) && p in trees && !trees[p].uncertain && trees[p].Cleared()
      ensures !confirmed ==> || !old(confirmed) || failed || (p in old(trees) && old(trees[p].uncertain))
                             || Outlived(found[|old(found)|..])
    {
      var was := confirmed;
      confirmed := false;
      var o := TryToStop(p);
      if o.Quiet? { confirmed := was && !trees[p].uncertain; }
    }

    /** One turn of the monitor: whether it is the last, and the exit code if all is well. */
    method WatchOnce(tree: OwnedProcessTree) returns (last: bool, code: Option<int>)
      requires tree.Valid()
      modifies `clock, `failed, `found, tree
      ensures Attended(tree) && clock == old(clock) + 1 && (failed ==> old(failed) || tree.uncertain)
      ensures !last || code.Some? ==> InBudget(world, old(clock), clock) && world.turn(old(clock)).exited == code && failed == old(failed)
      ensures code.Some? ==> last && tree.Cleared()
      ensures last && code.None? ==> failed || Spoiled(world.turn(old(clock)), found)
    {
      last, code := true, None;
      var t := world.turn(clock);
      clock := clock + 1;
      if !t.budgetOk { return; }
      var members := ObserveTree(tree);
      if members.None? || !t.rssOk { return; }
      if t.exited.None? { return false, None; }
      members := ObserveTree(tree);
      if members.None? || members.value != map[] { return; }
      code := t.exited;
    }

    /** The exit code, if the process ends in time and within its budgets and leaves nothing alive. */
    method Watch(tree: OwnedProcessTree, limit: nat) returns (code: Option<int>)
      requires tree.Valid()
      modifies `clock, `failed, `found, tree
      ensures Attended(tree) && (failed ==> old(failed) || tree.uncertain) && (code.Some? ==> tree.Cleared() && failed == old(failed))
      ensures old(clock) < clock <= old(clock) + limit + 1
      ensures code.Some? ==> world.turn(clock - 1).exited == code && InBudget(world, old(clock), clock)
      ensures code.None? ==> failed || Spoiled(world.turn(clock - 1), found) || clock == old(clock) + limit + 1
    {
      code := None;
      for tick := 0 to limit + 1
        invariant Attended(tree) && failed == old(failed) && code == None && clock == old(clock) + tick
        invariant InBudget(world, old(clock), clock)
      {
        var last;
        last, code := WatchOnce(tree);
        if last { return; }
      }
    }

    method TryToWatch(p: nat, limit: nat) returns (code: Option<int>)
      requires Valid()
      modifies `clock, `trees, `confirmed, `failed, `found, Objects()
      ensures Shows(p) && Kept()
      ensures code.Some? ==> p in trees && trees[p].Cleared() && confirmed == old(confirmed) && failed == old(failed)
      ensures code.Some? ==> old(clock) < clock && world.turn(clock - 1).exited == code
      ensures code.None? ==> failed || Overrun(world, old(clock), clock, limit)
    {
      code := None;
      var ok := TreeFor(p);
      if ok {
        ghost var start := clock;
        code := Watch(trees[p], limit);
        if code.None? && !failed { OverrunAtLast(world, old(clock), start, clock, limit, found); }
      }
    }

    /** Watches a process until it ends or a budget is exceeded; every way out but a clean end stops what is owned. */
    method MonitorProcess(p: nat, limit: nat) returns (code: Option<int>)
      requires Valid()
      modifies `clock, `trees, `confirmed, `failed, `found, Objects()
      ensures Valid() && Kept()
      ensures code.Some? ==> p in trees && trees[p].Cleared() && confirmed == old(confirmed) && failed == old(failed)
      ensures code.Some? ==> old(clock) < clock && world.turn(clock - 1).exited == code
      ensures code.None? ==> failed || Overrun(world, old(clock), clock, limit)
      ensures code.None? && confirmed ==> p in trees && !trees[p].uncertain && trees[p].Cleared()
    {
      code := TryToWatch(p, limit);
      ghost var watched, was := clock, failed;
      if code.None? {
        StopOwned(p);
        if !was { OverrunWider(world, old(clock), watched, clock, limit); }
      }
    }

    /** A process that could not be watched to its end is stopped once more. */
    method RunProcess(p: nat, limit: nat) returns (code: Option<int>)
      requires Valid()
      modifies `clock, `trees, `confirmed, `failed, `found, Objects()
      ensures Valid() && Kept()
      ensures code.Some? ==> p in trees && trees[p].Cleared() && confirmed == old(confirmed) && failed == old(failed)
      ensures code.Some? ==> old(clock) < clock && world.turn(clock - 1).exited == code
      ensures code.None? ==> failed || Overrun(world, old(clock), clock, limit)
      ensures code.None? && confirmed ==> p in trees && !trees[p].uncertain && trees[p].Cleared()
    {
      code := MonitorProcess(p, limit);
      ghost var watched, was := clock, failed;
      if code.None? {
        StopOwned(p);
        if !was { OverrunWider(world, old(clock), watched, clock, limit); }
      }
    }

    /** Gives the lock back only if it is still this lease's and cleanup is confirmed. */
    method Release()
      requires Valid()
      modifies `lock, `owner
      ensures if old(owner) && confirmed && old(lock) == Some(token)
              then !failed && lock == None && !owner
              else lock == old(lock) && owner == old(owner)
    {
      if owner && confirmed && lock == Some(token) { lock, owner := None, false; }
    }

    method Perform(op: Op)
      requires Valid()
      modifies this, Objects()
      ensures Valid() && Kept()
      ensures lock != old(lock) ==> old(lock) == Some(token) && lock == None && !old(failed)
    {
      match op
      case Watched(p, limit) => var code := RunProcess(p, limit);
      case Stopped(p) => StopOwned(p);
      case GivenBack => Release();
    }

    /** Any course of a lease: processes run or stopped in any order, with attempts to give the lock back in between. */
    method Course(ops: seq<Op>)
      requires Valid()
      modifies this, Objects()
      ensures Valid() && Kept() && (old(failed) ==> lock == old(lock))
      ensures lock != old(lock) ==> old(lock) == Some(token) && lock == None && !old(failed)
    {
      for i := 0 to |ops|
        invariant Valid() && Kept()
        invariant lock != old(lock) ==> old(lock) == Some(token) && lock == None && !old(failed)
      {
        Perform(ops[i]);
      }
    }
  }

  ghost predicate OfKind(sent: seq<Sent>, kind: Signal) { forall k | 0 <= k < |sent| :: sent[k].kind == kind }

  /** No process is asked to end once killing has begun. */
  ghost predicate AskedFirst(sent: seq<Sent>) { forall j, k | 0 <= j < k < |sent| :: sent[j].kind == Kill ==> sent[k].kind == Kill }

  /** After the look before the signal, looks that found something alive, up to a last one that found nothing. */
  ghost predicate Ended(looks: seq<bool>) {
    2 <= |looks| <= 27 && !looks[|looks| - 1] && forall k | 0 < k < |looks| - 1 :: looks[k]
  }

  /** All 26 looks after the signal found something alive. */
  ghost predicate Outlasted(looks: seq<bool>) { |looks| == 27 && forall k | 0 < k < 27 :: looks[k] }

  ghost predicate Outlived(looks: seq<bool>) { |looks| == 54 && Outlasted(looks[..27]) && Outlasted(looks[27..]) }

  ghost predicate EndedInTime(looks: seq<bool>) { Ended(looks) || (|looks| >= 27 && Outlasted(looks[..27]) && Ended(looks[27..])) }

  /** A budget is broken, or the process has ended and the last look found something alive. */
  ghost predicate Spoiled(t: Turn, looks: seq<bool>) {
    !t.budgetOk || !t.rssOk || (t.exited.Some? && looks != [] && looks[|looks| - 1])
  }

  ghost predicate InBudget(w: World, from: nat, to: nat) { forall n: nat | from <= n < to :: w.turn(n).budgetOk && w.turn(n).rssOk }

  /** Some turn of the period broke a budget, met the exit, or came when the time was up. */
  ghost predicate Overrun(w: World, from: nat, to: nat, limit: nat) {
    exists n: nat | from <= n < to :: !w.turn(n).budgetOk || !w.turn(n).rssOk || w.turn(n).exited.Some? || n >= from + limit
  }

  lemma OverrunWider(w: World, from: nat, to: nat, later: nat, limit: nat)
    requires Overrun(w, from, to, limit) && to <= later
    ensures Overrun(w, from, later, limit)
  {
    var n: nat :| from <= n < to && (!w.turn(n).budgetOk || !w.turn(n).rssOk || w.turn(n).exited.Some? || n >= from + limit);
    assert from <= n < later;
  }

  /** The last turn spoiled it, or the time was up. */
  lemma OverrunAtLast(w: World, from: nat, start: nat, to: nat, limit: nat, looks: seq<bool>)
    requires from <= start < to && (Spoiled(w.turn(to - 1), looks) || to == start + limit + 1)
    ensures Overrun(w, from, to, limit)
  {
    assert from <= to - 1 < to;
  }

  /** The members that were alive have been signalled, and the other owned processes were asked and not alive. */
  lemma StruckOrDead(tree: OwnedProcessTree, live: map<int, Identity>, owned: set<int>, before: seq<Sent>, sent: seq<Sent>,
                     start: nat, seen: nat, asked: nat, kind: Signal)
    requires start <= seen <= asked && before <= sent
    requires forall pid | pid in owned && pid !in live :: tree.NotAlive(start, seen, pid)
    requires AllStruck(tree, before, sent, seen, asked, kind, live.Keys)
    ensures AllStruck(tree, before, sent, start, asked, kind, owned)
  {
    StruckWider(tree, before, before, sent, sent, start, seen, asked, asked, kind, live.Keys);
    forall pid | pid in owned ensures Struck(tree, before, sent, start, asked, kind, pid) {
      if pid in live.Keys { assert Struck(tree, before, sent, start, asked, kind, pid); } else { tree.NotAliveWider(start, start, seen, asked, pid); }
    }
  }

  ghost predicate SentSince(before: seq<Sent>, after: seq<Sent>, one: Sent) { exists k | |before| <= k < |after| :: after[k] == one }

  /** A signal was sent to the process, or it was asked and not alive. */
  ghost predicate Struck(tree: OwnedProcessTree, before: seq<Sent>, after: seq<Sent>, from: nat, to: nat, kind: Signal, pid: int) {
    SentSince(before, after, Sent(pid, kind)) || tree.NotAlive(from, to, pid)
  }

  ghost predicate AllStruck(tree: OwnedProcessTree, before: seq<Sent>, after: seq<Sent>, from: nat, to: nat, kind: Signal, pids: set<int>) {
    forall pid | pid in pids :: Struck(tree, before, after, from, to, kind, pid)
  }

  lemma StruckWider(tree: OwnedProcessTree, earlier: seq<Sent>, before: seq<Sent>, after: seq<Sent>, later: seq<Sent>,
                    start: nat, from: nat, to: nat, end: nat, kind: Signal, pids: set<int>)
    requires earlier <= before && after <= later && start <= from && to <= end
    requires AllStruck(tree, before, after, from, to, kind, pids)
    ensures AllStruck(tree, earlier, later, start, end, kind, pids)
  {
    forall pid | pid in pids ensures Struck(tree, earlier, later, start, end, kind, pid) {
      assert Struck(tree, before, after, from, to, kind, pid);
      if tree.NotAlive(from, to, pid) {
        tree.NotAliveWider(start, from, to, end, pid);
      } else {
        var k :| |before| <= k < |after| && after[k] == Sent(pid, kind);
        assert |earlier| <= k < |later| && later[k] == Sent(pid, kind);
      }
    }
  }

  lemma OneMoreStruck(tree: OwnedProcessTree, before: seq<Sent>, sent: seq<Sent>, from: nat, asked: nat, kind: Signal, pids: set<int>, pid: int)
    requires AllStruck(tree, before, sent, from, asked, kind, pids) && from <= asked <= tree.clock && before <= sent <= tree.signalled
    requires Struck(tree, sent, tree.signalled, asked, tree.clock, kind, pid)
    ensures AllStruck(tree, before, tree.signalled, from, tree.clock, kind, pids + {pid})
  {
    StruckWider(tree, before, before, sent, tree.signalled, from, from, asked, tree.clock, kind, pids);
    assert AllStruck(tree, sent, tree.signalled, asked, tree.clock, kind, {pid});
    StruckWider(tree, before, sent, tree.signalled, tree.signalled, from, asked, tree.clock, tree.clock, kind, {pid});
  }

  /** A member that could not be identified or was no longer itself, or to which the signal failed. */
  ghost predicate Refused(uid: int, member: Identity, r: Reply, delivered: bool) {
    r.Unreadable? || (r.Seen? && (r.id.start != member.start || r.id.uid != uid || (!r.id.zombie && !delivered)))
  }

  /** What was added to the list are signals of one kind to members, none deeper than one after it. */
  ghost predicate InDepthOrder(owned: map<int, Owned>, before: seq<Sent>, after: seq<Sent>, kind: Signal, members: set<int>)
    requires members <= owned.Keys
  {
    && before <= after
    && (forall k | |before| <= k < |after| :: after[k].pid in members && after[k].kind == kind)
    && forall j, k | |before| <= j < k < |after| :: owned[after[j].pid].depth <= owned[after[k].pid].depth
  }

  ghost predicate AllShallower(owned: map<int, Owned>, before: seq<Sent>, after: seq<Sent>, pending: set<int>)
    requires pending <= owned.Keys && forall k | |before| <= k < |after| :: after[k].pid in owned
  {
    forall k, q | |before| <= k < |after| && q in pending :: owned[after[k].pid].depth <= owned[q].depth
  }

  ghost predicate SignalledSoFar(owned: map<int, Owned>, before: seq<Sent>, after: seq<Sent>, kind: Signal, members: set<int>, pending: set<int>) {
    pending <= members <= owned.Keys && InDepthOrder(owned, before, after, kind, members) && AllShallower(owned, before, after, pending)
  }

  lemma OneMoreInOrder(owned: map<int, Owned>, before: seq<Sent>, sent: seq<Sent>, now: seq<Sent>, kind: Signal,
                       members: set<int>, pending: set<int>, pid: int)
    requires SignalledSoFar(owned, before, sent, kind, members, pending) && pid in pending && (now == sent || now == sent + [Sent(pid, kind)])
    requires forall q | q in pending :: owned[pid].depth <= owned[q].depth
    ensures SignalledSoFar(owned, before, now, kind, members, pending - {pid}) && InDepthOrder(owned, before, now, kind, members)
  {
    assert forall k | 0 <= k < |sent| :: now[k] == sent[k];
  }

  datatype Op = Watched(process: nat, limit: nat) | Stopped(process: nat) | GivenBack
}
