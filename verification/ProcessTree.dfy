/**
 * The processes a lease owns: only a parent link that was observed makes a process owned, and only a process that is
 * identified again is signalled.
 *
 * The operating system is an oracle: the n-th question about a process may be answered in any way at all.
 */
module ProcessTree {
  import opened Wrappers

  /** `start` is the start time in microseconds. */
  datatype Identity = Identity(pid: int, ppid: int, pgid: int, uid: int, start: int, zombie: bool)
  datatype Reply = Gone | Unreadable | Seen(id: Identity)
  datatype Row = Row(ppid: int, pgid: int)

  datatype Owned = Owned(id: Identity, depth: nat)

  datatype Signal = Terminate | Kill
  datatype Sent = Sent(pid: int, kind: Signal)

  const MAX_OWNED := 4096

  /** A process is the same as before when its id and its start time are. */
  predicate SameKey(a: Identity, b: Identity) { a.pid == b.pid && a.start == b.start }

  predicate IsChild(owned: map<int, Owned>, uid: int, pid: int)
    requires pid in owned
  {
    var x := owned[pid];
    && x.id.pid == pid && x.id.uid == uid && x.id.ppid in owned
    && x.depth == owned[x.id.ppid].depth + 1 && owned[x.id.ppid].id.start <= x.id.start
  }

  /** The owned processes are a tree under the leader: parents are owned one level up and started no later. */
  ghost predicate IsTree(owned: map<int, Owned>, root: int, uid: int) {
    && root in owned && owned[root].depth == 0 && owned[root].id.pid == root && owned[root].id.uid == uid
    && forall pid {:trigger IsChild(owned, uid, pid)} | pid in owned && pid != root :: IsChild(owned, uid, pid)
  }

  function Ancestor(owned: map<int, Owned>, pid: int, k: nat): Option<int>
    decreases k
  {
    if k == 0 then Some(pid) else if pid !in owned then None else Ancestor(owned, owned[pid].id.ppid, k - 1)
  }

  /** From every owned process the recorded parents lead to the leader, in as many steps as its depth says. */
  lemma {:induction false} LeadsToRoot(owned: map<int, Owned>, root: int, uid: int, pid: int)
    requires IsTree(owned, root, uid) && pid in owned
    ensures Ancestor(owned, pid, owned[pid].depth) == Some(root)
    ensures owned[pid].id.uid == uid && owned[root].id.start <= owned[pid].id.start
    decreases owned[pid].depth
  {
    if pid != root {
      assert IsChild(owned, uid, pid);
      LeadsToRoot(owned, root, uid, owned[pid].id.ppid);
    }
  }

  lemma TreeGrows(owned: map<int, Owned>, root: int, uid: int, pid: int, child: Owned)
    requires IsTree(owned, root, uid) && pid !in owned && child.id.pid == pid && child.id.uid == uid && child.id.ppid in owned
    requires child.depth == owned[child.id.ppid].depth + 1 && owned[child.id.ppid].id.start <= child.id.start
    ensures IsTree(owned[pid := child], root, uid)
  {
    var next := owned[pid := child];
    forall p | p in next && p != root ensures IsChild(next, uid, p) {
      if p != pid { assert IsChild(owned, uid, p); }
    }
  }

  lemma HasElement(s: set<int>)
    requires s != {}
    ensures exists x :: x in s
  {
    assert (forall x :: x !in s) ==> s == {};
  }

  class OwnedProcessTree {
    const identity: (nat, int) -> Reply
    const table: nat -> Option<map<int, Row>>
    const root: int
    const uid: int
    var clock: nat
    var uncertain: bool
    var owned: map<int, Owned>
    /** The signals sent. */
    var signalled: seq<Sent>
    /** History: when the last observation began. */
    ghost var since: nat

    ghost predicate Valid()
      reads `owned
    {
      IsTree(owned, root, uid)
    }

    /** The leader is taken only as a child of this process that leads its own group. */
    constructor (identity: (nat, int) -> Reply, table: nat -> Option<map<int, Row>>, leader: Identity, self: int, user: int)
      requires leader.ppid == self && leader.pgid == leader.pid && leader.uid == user
      ensures Valid() && !uncertain && owned == map[leader.pid := Owned(leader, 0)] && signalled == []
      ensures this.identity == identity && this.table == table && root == leader.pid && uid == user
    {
      this.identity, this.table := identity, table;
      root, uid, clock, uncertain := leader.pid, leader.uid, 0, false;
      owned, signalled, since := map[leader.pid := Owned(leader, 0)], [], 0;
    }

    /** The answer to the n-th question; one about another process is no answer. */
    function Reading(n: nat, pid: int): Reply {
      var r := identity(n, pid);
      if pid <= 1 || (r.Seen? && r.id.pid != pid) then Unreadable else r
    }

    ghost predicate Answered(from: nat, to: nat, pid: int, r: Reply) { exists n | from <= n < to :: Reading(n, pid) == r }

    /** Some question of the period found the process gone, or dead and only not reaped. */
    ghost predicate NotAlive(from: nat, to: nat, pid: int) {
      Answered(from, to, pid, Gone) || exists id: Identity :: id.zombie && Answered(from, to, pid, Seen(id))
    }

    /** Every owned process was asked about: it is current as it answered, or it was gone. */
    ghost predicate Accounted(from: nat, to: nat, current: map<int, Identity>)
      reads `owned
    {
      forall pid | pid in owned :: Answered(from, to, pid, if pid in current then Seen(current[pid]) else Gone)
    }

    lemma AnsweredLater(from: nat, to: nat, later: nat, pid: int, r: Reply)
      requires Answered(from, to, pid, r) && to <= later
      ensures Answered(from, later, pid, r)
    {
      var n :| from <= n < to && Reading(n, pid) == r;
      assert from <= n < later;
    }

    lemma AccountedLater(from: nat, to: nat, later: nat, current: map<int, Identity>)
      requires Accounted(from, to, current) && to <= later
      ensures Accounted(from, later, current)
    {
      forall pid | pid in owned ensures Answered(from, later, pid, if pid in current then Seen(current[pid]) else Gone) {
        AnsweredLater(from, to, later, pid, if pid in current then Seen(current[pid]) else Gone);
      }
    }

    method Ask(pid: int) returns (r: Reply)
      modifies `clock
      ensures clock == old(clock) + 1 && r == Reading(old(clock), pid)
      ensures Answered(old(clock), clock, pid, r) && (r.Seen? ==> r.id.pid == pid)
    {
      r := Reading(clock, pid);
      clock := clock + 1;
    }

    /** The owned processes that are still themselves; None if any of them is not. */
    method Recognise(rows: map<int, Row>) returns (current: Option<map<int, Identity>>)
      requires Valid()
      modifies `clock
      ensures old(clock) <= clock
      ensures current.Some? ==> Recognised(current.value) && Accounted(old(clock), clock, current.value)
      ensures current.None? ==> Troubled(old(clock), clock, rows)
    {
      var pending := owned.Keys;
      var found: map<int, Identity> := map[];
      while pending != {}
        invariant pending <= owned.Keys && found.Keys <= owned.Keys - pending && Recognised(found) && old(clock) <= clock
        invariant forall pid | pid in owned.Keys - pending ::
                    Answered(old(clock), clock, pid, if pid in found then Seen(found[pid]) else Gone)
        decreases |pending|
      {
        HasElement(pending);
        var pid :| pid in pending;
        ghost var asked, before := owned.Keys - pending, clock;
        pending := pending - {pid};
        var r := Ask(pid);
        forall q | q in asked ensures Answered(old(clock), clock, q, if q in found then Seen(found[q]) else Gone) {
          AnsweredLater(old(clock), before, clock, q, if q in found then Seen(found[q]) else Gone);
        }
        assert Answered(old(clock), clock, pid, r) by { assert Reading(before, pid) == r; }
        if r.Gone? { continue; }
        if r.Unreadable? || !SameKey(r.id, owned[pid].id) || r.id.uid != uid || (pid !in rows && !r.id.zombie) {
          assert pid == root || IsChild(owned, uid, pid);
          assert OwnedTrouble(rows, pid, r) && Trouble(before, pid, rows);
          return None;
        }
        found := found[pid := r.id];
      }
      current := Some(found);
    }

    // ---- what an observation can fail for ----

    /** An owned process cannot be identified, is another one now, or is alive without a row. */
    ghost predicate OwnedTrouble(rows: map<int, Row>, pid: int, r: Reply)
      reads `owned
    {
      pid in owned && !r.Gone? &&
      (r.Unreadable? || r.id.start != owned[pid].id.start || r.id.uid != uid || (pid !in rows && !r.id.zombie))
    }

    /** A row under an owned process cannot be identified, or cannot be its child, or is one too many. */
    ghost predicate ChildTrouble(rows: map<int, Row>, pid: int, r: Reply)
      reads `owned
    {
      pid !in owned && pid in rows && rows[pid].ppid in owned && !r.Gone? &&
      (r.Unreadable? || (r.id.ppid == rows[pid].ppid && (r.id.uid != uid || r.id.start < owned[r.id.ppid].id.start || |owned| >= 4096)))
    }

    /** The parent of a row is no longer itself when it is asked again. */
    ghost predicate ParentTrouble(rows: map<int, Row>, pid: int, r: Reply, again: Reply)
      reads `owned
    {
      && pid !in owned && pid in rows && rows[pid].ppid in owned && r.Seen? && r.id.ppid == rows[pid].ppid
      && !(again.Seen? && again.id.start == owned[r.id.ppid].id.start && again.id.uid == uid)
    }

    /** A row of the leader's group that nobody owns cannot be identified or is alive. */
    ghost predicate GroupTrouble(rows: map<int, Row>, pid: int, r: Reply)
      reads `owned
    {
      pid !in owned && pid in rows && rows[pid].pgid == root && (r.Unreadable? || (r.Seen? && r.id.pgid == root && !r.id.zombie))
    }

    /** The n-th question, about this process, was answered in a way that gives the observation up. */
    ghost predicate Trouble(n: nat, pid: int, rows: map<int, Row>)
      reads `owned
    {
      var r := Reading(n, pid);
      || OwnedTrouble(rows, pid, r) || ChildTrouble(rows, pid, r) || GroupTrouble(rows, pid, r)
      || (pid in rows && ParentTrouble(rows, pid, r, Reading(n + 1, rows[pid].ppid)))
    }

    ghost predicate Troubled(from: nat, to: nat, rows: map<int, Row>)
      reads `owned
    {
      exists n: nat, pid :: from <= n < to && Trouble(n, pid, rows)
    }

    lemma TroubledWider(earlier: nat, from: nat, to: nat, later: nat, rows: map<int, Row>)
      requires earlier <= from && to <= later && Troubled(from, to, rows)
      ensures Troubled(earlier, later, rows)
    {
      var n: nat, pid :| from <= n < to && Trouble(n, pid, rows);
      assert earlier <= n < later && Trouble(n, pid, rows);
    }

    ghost predicate Recognised(current: map<int, Identity>)
      reads `owned
    {
      current.Keys <= owned.Keys && forall pid | pid in current :: SameKey(current[pid], owned[pid].id) && current[pid].uid == uid
    }

    lemma NotAliveWider(earlier: nat, from: nat, to: nat, later: nat, pid: int)
      requires earlier <= from && to <= later && NotAlive(from, to, pid)
      ensures NotAlive(earlier, later, pid)
    {
      if Answered(from, to, pid, Gone) {
        AnsweredLater(from, to, later, pid, Gone);
        AnsweredEarlier(earlier, from, later, pid, Gone);
      } else {
        var id: Identity :| id.zombie && Answered(from, to, pid, Seen(id));
        AnsweredLater(from, to, later, pid, Seen(id));
        AnsweredEarlier(earlier, from, later, pid, Seen(id));
      }
    }

    /** Some question of the period found the process gone or under another parent. */
    ghost predicate Elsewhere(from: nat, to: nat, pid: int, ppid: int) {
      exists n | from <= n < to :: var r := Reading(n, pid); r.Gone? || (r.Seen? && r.id.ppid != ppid)
    }

    /** A row under a current parent is owned, or was asked and is not under that parent. */
    ghost predicate Placed(from: nat, to: nat, rows: map<int, Row>, current: map<int, Identity>, pid: int)
      reads `owned
    {
      pid in rows && rows[pid].ppid in current ==> pid in owned || Elsewhere(from, to, pid, rows[pid].ppid)
    }

    ghost predicate AllPlaced(from: nat, to: nat, rows: map<int, Row>, current: map<int, Identity>)
      reads `owned
    {
      forall pid :: Placed(from, to, rows, current, pid)
    }

    /** What holds of all current members in a period holds of the living ones in a longer period. */
    lemma PlacedLater(from: nat, to: nat, later: nat, rows: map<int, Row>, all: map<int, Identity>, live: map<int, Identity>)
      requires to <= later && live.Keys <= all.Keys && AllPlaced(from, to, rows, all)
      ensures AllPlaced(from, later, rows, live)
    {
      forall pid ensures Placed(from, later, rows, live, pid) { assert Placed(from, to, rows, all, pid); }
    }

    lemma ElsewhereFrom(earlier: nat, from: nat, to: nat, pid: int, ppid: int)
      requires earlier <= from && Elsewhere(from, to, pid, ppid)
      ensures Elsewhere(earlier, to, pid, ppid)
    {
    }

    /** After the child had been seen under its parent, the parent was asked again and was still itself. */
    ghost predicate Rechecked(from: nat, to: nat, child: Identity, parent: Identity) {
      exists n: nat, again: Identity :: from <= n && n + 1 < to && Reading(n, child.pid) == Seen(child) && child.ppid == parent.pid
        && Reading(n + 1, parent.pid) == Seen(again) && again.start == parent.start && again.uid == uid
    }

    /** Looks at one unowned row whose parent is a current member; false if the observation has to be given up. */
    method Adopt(pid: int, rows: map<int, Row>, current: map<int, Identity>) returns (ok: bool, child: Option<Identity>)
      requires Valid() && Recognised(current) && pid !in owned && pid in rows && rows[pid].ppid in current
      modifies `clock, `owned
      ensures Valid() && old(clock) <= clock && (!ok ==> child.None?) && (child.None? ==> owned == old(owned))
      ensures child.Some? ==> |old(owned)| < 4096 && owned.Keys == old(owned).Keys + {pid} && owned == old(owned)[pid := owned[pid]]
                              && child.value == owned[pid].id && child.value.uid == uid && child.value.ppid == rows[pid].ppid
                              && Answered(old(clock), clock, pid, Seen(child.value))
                              && Rechecked(old(clock), clock, child.value, current[rows[pid].ppid])
      ensures ok && child.None? ==> Elsewhere(old(clock), clock, pid, rows[pid].ppid)
      ensures !ok ==> Troubled(old(clock), clock, rows)
    {
      ok, child := true, None;
      var row := rows[pid];
      var parent := current[row.ppid];
      assert row.ppid == root || IsChild(owned, uid, row.ppid);
      var r := Ask(pid);
      assert Reading(old(clock), pid) == r;
      if r.Gone? { return; }
      if r.Unreadable? {
        assert Trouble(old(clock), pid, rows);
        return false, None;
      }
      if r.id.ppid != row.ppid { return; }
      ghost var asked := clock;
      var now := Ask(parent.pid);
      assert Reading(old(clock) + 1, row.ppid) == now;
      if !now.Seen? || !SameKey(now.id, parent) || now.id.uid != uid {
        assert ParentTrouble(rows, pid, r, now) && Trouble(old(clock), pid, rows);
        return false, None;
      }
      if r.id.uid != uid || r.id.start < parent.start || |owned| >= MAX_OWNED {
        assert ChildTrouble(rows, pid, r) && Trouble(old(clock), pid, rows);
        return false, None;
      }
      TreeGrows(owned, root, uid, pid, Owned(r.id, owned[parent.pid].depth + 1));
      owned := owned[pid := Owned(r.id, owned[parent.pid].depth + 1)];
      AnsweredLater(old(clock), asked, clock, pid, r);
      child := Some(r.id);
    }

    /** Adopts a row that is not owned yet and whose parent is current, if there is such a link. */
    method Visit(pid: int, rows: map<int, Row>, current: map<int, Identity>, ghost from: nat)
      returns (ok: bool, adopted: bool, next: map<int, Identity>)
      requires Valid() && Recognised(current) && from <= clock && Accounted(from, clock, current) && pid in rows
      modifies `clock, `owned
      ensures Valid() && Recognised(next) && old(clock) <= clock && Accounted(from, clock, next)
      ensures Grown(old(owned), owned) && owned.Keys == old(owned).Keys + (if adopted then {pid} else {})
      ensures if adopted then pid !in old(owned) else next == current && owned == old(owned)
      ensures ok && !adopted && rows[pid].ppid in current ==> pid in owned || Elsewhere(from, clock, pid, rows[pid].ppid)
      ensures !ok ==> !adopted && Troubled(from, clock, rows)
    {
      ok, adopted, next := true, false, current;
      if pid in owned || rows[pid].ppid !in current { return; }
      ghost var before, asked := owned, clock;
      var child;
      ok, child := Adopt(pid, rows, current);
      Widened(from, asked, before, current);
      if child.None? {
        if ok { ElsewhereFrom(from, asked, clock, pid, rows[pid].ppid); } else { TroubledWider(from, asked, clock, clock, rows); }
        return;
      }
      AnsweredEarlier(from, asked, clock, pid, Seen(child.value));
      JoinsCurrent(from, before, current, pid, child.value);
      next, adopted := current[pid := child.value], true;
    }

    /** One pass over the table. */
    method Sweep(rows: map<int, Row>, current: map<int, Identity>, ghost from: nat)
      returns (ok: bool, changed: bool, next: map<int, Identity>)
      requires Valid() && Recognised(current) && from <= clock && Accounted(from, clock, current)
      modifies `clock, `owned
      ensures Valid() && Recognised(next) && from <= clock && Accounted(from, clock, next)
      ensures Grown(old(owned), owned) && old(owned).Keys <= owned.Keys <= old(owned).Keys + rows.Keys
      ensures changed ==> old(owned).Keys != owned.Keys
      ensures ok && !changed ==> AllPlaced(from, clock, rows, next)
      ensures !ok ==> Troubled(from, clock, rows)
    {
      ok, changed, next := true, false, current;
      var pending := rows.Keys;
      while pending != {} && ok
        invariant Valid() && Recognised(next) && pending <= rows.Keys && from <= clock && Accounted(from, clock, next)
        invariant Grown(old(owned), owned) && old(owned).Keys <= owned.Keys <= old(owned).Keys + rows.Keys
        invariant changed ==> old(owned).Keys != owned.Keys
        invariant ok && !changed ==> PlacedBut(from, clock, rows, next, pending)
        invariant !ok ==> Troubled(from, clock, rows)
        decreases |pending|
      {
        HasElement(pending);
        var pid :| pid in pending;
        ghost var before, left := clock, pending;
        pending := pending - {pid};
        var adopted;
        ok, adopted, next := Visit(pid, rows, next, from);
        if adopted { assert pid in owned && pid !in old(owned); }
        changed := changed || adopted;
        if ok && !changed { OneMorePlaced(from, before, rows, next, left, pid); }
      }
    }

    ghost predicate PlacedBut(from: nat, to: nat, rows: map<int, Row>, current: map<int, Identity>, pending: set<int>)
      reads `owned
    {
      forall pid :: pid in pending || Placed(from, to, rows, current, pid)
    }

    lemma OneMorePlaced(from: nat, before: nat, rows: map<int, Row>, current: map<int, Identity>, pending: set<int>, pid: int)
      requires before <= clock && PlacedBut(from, before, rows, current, pending) && Placed(from, clock, rows, current, pid)
      ensures PlacedBut(from, clock, rows, current, pending - {pid})
    {
      forall q ensures q in pending - {pid} || Placed(from, clock, rows, current, q) {
        if q != pid && q !in pending { assert Placed(from, before, rows, current, q); }
      }
    }

    lemma JoinsCurrent(from: nat, before: map<int, Owned>, current: map<int, Identity>, pid: int, child: Identity)
      requires pid !in before && pid in owned && owned == before[pid := owned[pid]] && child == owned[pid].id && child.uid == uid
      requires Recognised(current) && Answered(from, clock, pid, Seen(child))
      requires forall q | q in before :: Answered(from, clock, q, if q in current then Seen(current[q]) else Gone)
      ensures Recognised(current[pid := child]) && Accounted(from, clock, current[pid := child])
    {
    }

    lemma AnsweredEarlier(earlier: nat, from: nat, to: nat, pid: int, r: Reply)
      requires Answered(from, to, pid, r) && earlier <= from
      ensures Answered(earlier, to, pid, r)
    {
      var n :| from <= n < to && Reading(n, pid) == r;
      assert earlier <= n < to;
    }

    /** What was accounted for among the processes owned before stays so. */
    lemma Widened(from: nat, asked: nat, before: map<int, Owned>, current: map<int, Identity>)
      requires asked <= clock
      requires forall pid | pid in before :: Answered(from, asked, pid, if pid in current then Seen(current[pid]) else Gone)
      ensures forall pid | pid in before :: Answered(from, clock, pid, if pid in current then Seen(current[pid]) else Gone)
    {
      forall pid | pid in before ensures Answered(from, clock, pid, if pid in current then Seen(current[pid]) else Gone) {
        AnsweredLater(from, asked, clock, pid, if pid in current then Seen(current[pid]) else Gone);
      }
    }

    /** Sweeps until nothing new is found, which it must be once every row is owned. */
    method Discover(rows: map<int, Row>, current: map<int, Identity>, ghost from: nat) returns (all: Option<map<int, Identity>>)
      requires Valid() && Recognised(current) && from <= clock && Accounted(from, clock, current)
      modifies `clock, `owned
      ensures Valid() && Grown(old(owned), owned) && from <= clock
      ensures all.Some? ==> Recognised(all.value) && Accounted(from, clock, all.value)
      ensures all.Some? ==> AllPlaced(from, clock, rows, all.value)
      ensures all.None? ==> Troubled(from, clock, rows)
    {
      var found := current;
      var changed := true;
      while changed
        invariant Valid() && Recognised(found) && Grown(old(owned), owned) && from <= clock && Accounted(from, clock, found)
        invariant !changed ==> AllPlaced(from, clock, rows, found)
        decreases |rows.Keys - owned.Keys|, changed
      {
        ghost var before := owned.Keys;
        var ok;
        ok, changed, found := Sweep(rows, found, from);
        if !ok { return None; }
        Shrinks(rows.Keys, before, owned.Keys);
      }
      all := Some(found);
    }

    /** Some question of the period found the process gone, dead or in another group. */
    ghost predicate NotInGroup(from: nat, to: nat, pid: int) {
      exists n | from <= n < to :: var r := Reading(n, pid); r.Gone? || (r.Seen? && (r.id.pgid != root || r.id.zombie))
    }

    ghost predicate Attributed(from: nat, to: nat, rows: map<int, Row>, pid: int)
      reads `owned
    {
      pid in rows && rows[pid].pgid == root ==> pid in owned || NotInGroup(from, to, pid)
    }

    ghost predicate AllAttributed(from: nat, to: nat, rows: map<int, Row>)
      reads `owned
    {
      forall pid :: Attributed(from, to, rows, pid)
    }

    /** No live process of the leader's group may be left unattributed. */
    method GroupIsAttributed(rows: map<int, Row>) returns (ok: bool)
      modifies `clock
      ensures old(clock) <= clock && if ok then AllAttributed(old(clock), clock, rows) else Troubled(old(clock), clock, rows)
    {
      var pending := rows.Keys;
      while pending != {}
        invariant pending <= rows.Keys && old(clock) <= clock
        invariant forall pid :: pid in pending || Attributed(old(clock), clock, rows, pid)
        decreases |pending|
      {
        HasElement(pending);
        var pid :| pid in pending;
        ghost var before, left := clock, pending;
        pending := pending - {pid};
        if rows[pid].pgid != root || pid in owned { continue; }
        var r := Ask(pid);
        if r.Unreadable? || (r.Seen? && r.id.pgid == root && !r.id.zombie) {
          assert GroupTrouble(rows, pid, r) && Trouble(before, pid, rows);
          return false;
        }
        forall q ensures q in pending || Attributed(old(clock), clock, rows, q) {
          if q == pid {
            assert Reading(before, pid) == r;
          } else if q !in pending {
            assert Attributed(old(clock), before, rows, q);
          }
        }
      }
      ok := true;
    }

    /** No owned process is alive as far as the last observation goes. */
    ghost predicate Cleared()
      reads this
    {
      forall pid | pid in owned :: NotAlive(since, clock, pid)
    }

    /** These are the living members: every owned process was asked, and every row that could be owned is accounted for. */
    ghost predicate Observed(live: map<int, Identity>)
      reads this
    {
      && Recognised(live)
      && (forall pid | pid in live :: !live[pid].zombie && Answered(since, clock, pid, Seen(live[pid])))
      && (forall pid | pid in owned && pid !in live :: NotAlive(since, clock, pid))
      && table(since).Some? && AllAttributed(since, clock, table(since).value) && AllPlaced(since, clock, table(since).value, live)
    }

    /** The table could not be read, or a question of the last observation was answered in a way that gives it up. */
    ghost predicate Failed()
      reads this
    {
      var rows := table(since);
      rows.None? || rows.value == map[] || Troubled(since, clock, rows.value)
    }

    /**
     * The living members, or None; a failed observation makes the tree uncertain for good. A good one has asked about
     * every owned process, and about every row under a living member or of the leader's group.
     */
    method Observe() returns (live: Option<map<int, Identity>>)
      requires Valid()
      modifies `clock, `owned, `uncertain, `since
      ensures Valid() && Grown(old(owned), owned) && uncertain == (old(uncertain) || live.None?)
      ensures since == old(clock) <= clock
      ensures if live.Some? then Observed(live.value) else Failed()
    {
      live, since := None, clock;
      var rows := table(clock);
      clock := clock + 1;
      if rows.Some? && rows.value != map[] {
        var all := Survey(rows.value);
        if all.Some? {
          live := Some(map pid | pid in all.value && !all.value[pid].zombie :: all.value[pid]);
          LiveAccounted(all.value, live.value);
          PlacedLater(since, clock, clock, rows.value, all.value, live.value);
        }
      }
      if live.None? { uncertain := true; }
    }

    /** Every owned process was asked about, and every row under a current member is placed. */
    ghost predicate Surveyed(from: nat, to: nat, rows: map<int, Row>, all: map<int, Identity>)
      reads `owned
    {
      Recognised(all) && Accounted(from, to, all) && AllPlaced(from, to, rows, all)
    }

    lemma SurveyedLater(from: nat, to: nat, later: nat, rows: map<int, Row>, all: map<int, Identity>)
      requires Surveyed(from, to, rows, all) && to <= later
      ensures Surveyed(from, later, rows, all)
    {
      AccountedLater(from, to, later, all);
      PlacedLater(from, to, later, rows, all, all);
    }

    /** All current members, dead ones among them, if nothing is in doubt. */
    method FindMembers(rows: map<int, Row>, ghost from: nat) returns (all: Option<map<int, Identity>>)
      requires Valid() && from <= clock
      modifies `clock, `owned
      ensures Valid() && Grown(old(owned), owned) && from <= clock
      ensures if all.Some? then Surveyed(from, clock, rows, all.value) else Troubled(from, clock, rows)
    {
      ghost var start := clock;
      var current := Recognise(rows);
      if current.None? {
        TroubledWider(from, start, clock, clock, rows);
        return None;
      }
      AccountedFrom(from, start, clock, current.value);
      all := Discover(rows, current.value, from);
    }

    method Survey(rows: map<int, Row>) returns (all: Option<map<int, Identity>>)
      requires Valid() && since <= clock
      modifies `clock, `owned
      ensures Valid() && Grown(old(owned), owned) && since <= clock
      ensures all.Some? ==> Surveyed(since, clock, rows, all.value) && AllAttributed(since, clock, rows)
      ensures all.None? ==> Troubled(since, clock, rows)
    {
      all := FindMembers(rows, since);
      if all.None? { return; }
      ghost var before := clock;
      var ok := GroupIsAttributed(rows);
      if !ok {
        TroubledWider(since, before, clock, clock, rows);
        return None;
      }
      SurveyedLater(since, before, clock, rows, all.value);
      AttributedFrom(since, before, clock, rows);
    }

    /** What is not alive among the owned was asked about. */
    lemma LiveAccounted(all: map<int, Identity>, live: map<int, Identity>)
      requires Accounted(since, clock, all) && live == map pid | pid in all && !all[pid].zombie :: all[pid]
      ensures forall pid | pid in owned && pid !in live :: NotAlive(since, clock, pid)
      ensures forall pid | pid in live && pid in owned :: Answered(since, clock, pid, Seen(live[pid]))
    {
      forall pid | pid in live && pid in owned ensures Answered(since, clock, pid, Seen(live[pid])) {
        assert Answered(since, clock, pid, if pid in all then Seen(all[pid]) else Gone);
      }
      forall pid | pid in owned && pid !in live ensures NotAlive(since, clock, pid) {
        assert Answered(since, clock, pid, if pid in all then Seen(all[pid]) else Gone);
      }
    }

    lemma AccountedFrom(earlier: nat, from: nat, to: nat, current: map<int, Identity>)
      requires Accounted(from, to, current) && earlier <= from
      ensures Accounted(earlier, to, current)
    {
      forall pid | pid in owned ensures Answered(earlier, to, pid, if pid in current then Seen(current[pid]) else Gone) {
        AnsweredEarlier(earlier, from, to, pid, if pid in current then Seen(current[pid]) else Gone);
      }
    }

    lemma AttributedFrom(earlier: nat, from: nat, to: nat, rows: map<int, Row>)
      requires earlier <= from && AllAttributed(from, to, rows)
      ensures AllAttributed(earlier, to, rows)
    {
      forall pid ensures Attributed(earlier, to, rows, pid) { assert Attributed(from, to, rows, pid); }
    }

    /**
     * A signal goes out exactly to an owned living process that has just been identified again. The tree becomes uncertain
     * if the member is not owned or no longer itself, or if the signal fails; an unreadable identity only ends the attempt.
     */
    method SignalOwned(member: Identity, kind: Signal, delivered: bool) returns (ok: bool)
      modifies `clock, `uncertain, `signalled
      ensures var r := Reading(old(clock), member.pid);
              && clock == old(clock) + (if Belongs(owned, member) then 1 else 0)
              && signalled == old(signalled) + (if Confirmed(owned, uid, member, r) then [Sent(member.pid, kind)] else [])
              && uncertain == (old(uncertain) || InDoubt(owned, uid, member, r, delivered))
              && (ok <==> !InDoubt(owned, uid, member, r, delivered) && !r.Unreadable?)
    {
      ok := false;
      if !Belongs(owned, member) {
        uncertain := true;
        return;
      }
      var r := Ask(member.pid);
      if r.Gone? { return true; }
      if r.Unreadable? { return; }
      if !Identified(uid, member, r) {
        uncertain := true;
        return;
      }
      if r.id.zombie { return true; }
      signalled := signalled + [Sent(member.pid, kind)];
      ok := delivered;
      if !delivered { uncertain := true; }
    }
  }

  predicate Belongs(owned: map<int, Owned>, member: Identity) { member.pid in owned && SameKey(owned[member.pid].id, member) }

  predicate Identified(uid: int, member: Identity, r: Reply) { r.Seen? && SameKey(r.id, member) && r.id.uid == uid }

  /** The member is not owned or no longer itself, or the signal to it fails. */
  ghost predicate InDoubt(owned: map<int, Owned>, uid: int, member: Identity, r: Reply, delivered: bool) {
    || member.pid !in owned || owned[member.pid].id.pid != member.pid || owned[member.pid].id.start != member.start
    || (r.Seen? && (r.id.start != member.start || r.id.uid != uid || (!r.id.zombie && !delivered)))
  }

  ghost predicate Confirmed(owned: map<int, Owned>, uid: int, member: Identity, r: Reply) {
    && member.pid in owned && owned[member.pid].id.pid == member.pid && owned[member.pid].id.start == member.start
    && r.Seen? && r.id.start == member.start && r.id.uid == uid && !r.id.zombie
  }

  ghost predicate Grown(a: map<int, Owned>, b: map<int, Owned>) { forall pid | pid in a :: pid in b && b[pid] == a[pid] }

  lemma Shrinks(rows: set<int>, before: set<int>, after: set<int>)
    requires before <= after <= before + rows
    ensures |rows - after| <= |rows - before| && (before != after ==> |rows - after| < |rows - before|)
  {
    assert rows - before == (rows - after) + (after - before);
  }
}
