/**
 * Purging raw messages: object copies first, then the candidate suppressions of the event, then the event itself.
 *
 * Every call to the database or to object storage can throw, with or without having taken effect, or be the last thing
 * the process does. A deletion can also return without having removed the object.
 */
module SmsPurge {
  import opened Wrappers
  import opened SmsRetention

  datatype Fate = Works | Skips | Throws(applied: bool) | Dies(applied: bool)

  datatype Outcome = Returned | Threw | Died

  datatype Counts = Counts(purgedEvents: nat, purgedSuppressions: nat, failedEvents: nat, failedSuppressions: nat)
  datatype Decision = Completed(counts: Counts) | Failed(code: string, counts: Counts)
  datatype Result = Result(counts: Counts, log: Option<Decision>)

  predicate CanClaimRawPurged(dbRawGone: bool, objectStorageGone: bool, suppressionRawsGone: bool) {
    dbRawGone && objectStorageGone && suppressionRawsGone
  }

  /** A run is logged as completed exactly when something was purged and nothing failed. */
  function ResolvePurgeLogDecision(c: Counts): (d: Option<Decision>)
    ensures d == None <==> c == Counts(0, 0, 0, 0)
    ensures d.Some? && d.value.Completed? <==> c.failedEvents + c.failedSuppressions == 0 < c.purgedEvents + c.purgedSuppressions
    ensures d.Some? ==> d.value.counts == c
  {
    var purged, failed := c.purgedEvents + c.purgedSuppressions, c.failedEvents + c.failedSuppressions;
    if purged == 0 && failed == 0 then None
    else if failed > 0 then Some(Failed(if purged > 0 then "partial_purge_failed" else "purge_failed", c))
    else Some(Completed(Counts(c.purgedEvents, c.purgedSuppressions, 0, 0)))
  }

  /** The rows of an update that asks for ids still holding raw text. */
  function WithRaw(rows: map<string, Suppression>, ids: set<string>): set<string> {
    set id | id in ids && id in rows && rows[id].raw != ""
  }

  function Scrubbed(rows: map<string, Suppression>, ids: set<string>, now: int): map<string, Suppression> {
    map id | id in rows :: if id in ids && rows[id].raw != "" then rows[id].(raw := "", updatedAt := now) else rows[id]
  }

  function EventScrubbed(rows: map<string, Event>, id: string, now: int): map<string, Event> {
    if id in rows && rows[id].raw != "" then rows[id := rows[id].(raw := "", updatedAt := now)] else rows
  }

  function Linked(rows: map<string, Suppression>, event: string): set<string> {
    set s | s in rows && rows[s].matchedEvent == Some(event) && rows[s].raw != ""
  }

  lemma ObjectsDeleted(t: Tables, u: Tables, p: Preview, id: string)
    requires id in p.events && id in t.events
    requires u.events == t.events && u.suppressions == t.suppressions && u.revisions == t.revisions && SourcesKept(t, u)
    requires t.objects - Copies(t, t.events[id].sourceItem) <= u.objects <= t.objects
    ensures Progress(t, u, p) && Copies(u, t.events[id].sourceItem) == Copies(t, t.events[id].sourceItem)
  {
    forall key | key in t.objects && key !in u.objects ensures Belongs(t, p, key) {
      assert key in Copies(t, t.events[id].sourceItem);
    }
    CopiesStay(t, u, p, t.events[id].sourceItem);
  }

  lemma SuppressionsScrubbed(t: Tables, u: Tables, p: Preview, ids: set<string>, now: int)
    requires u == t || u == t.(suppressions := Scrubbed(t.suppressions, ids, now))
    requires ids <= p.suppressions
    ensures Progress(t, u, p) && (forall item :: Copies(u, item) == Copies(t, item))
  {
    forall item ensures Copies(u, item) == Copies(t, item) {
      CopiesStay(t, u, p, item);
    }
  }

  /** The event is emptied last, when its other copies are known to be gone. */
  lemma EventEmptied(t: Tables, u: Tables, p: Preview, id: string, now: int)
    requires id in p.events && id in t.events
    requires u == t || u == t.(events := EventScrubbed(t.events, id, now))
    requires Copies(t, t.events[id].sourceItem) !! t.objects && NoLinkedRaw(t, p, id)
    ensures Progress(t, u, p)
  {
    CopiesStay(t, u, p, t.events[id].sourceItem);
  }

  ghost predicate HaveRaw(rows: map<string, Event>, ids: set<string>) {
    forall id | id in ids :: id in rows && rows[id].raw != ""
  }

  ghost predicate HaveNone(rows: map<string, Event>, ids: set<string>) {
    forall id | id in ids :: id in rows && rows[id].raw == ""
  }

  ghost predicate SameBut(a: map<string, Event>, b: map<string, Event>, id: string) {
    forall e | e in a && e != id :: e in b && b[e] == a[e]
  }

  lemma TurnOver(a: map<string, Event>, b: map<string, Event>, all: set<string>, pending: set<string>, id: string)
    requires SameBut(a, b, id) && id in b && id in pending && pending <= all
    ensures HaveRaw(a, pending) ==> HaveRaw(b, pending - {id})
    ensures HaveNone(a, all - pending) && b[id].raw == "" ==> HaveNone(b, all - (pending - {id}))
  {
  }

  lemma BeforeAndAfter(t: Tables, p: Preview)
    ensures Leftovers(t, p) == p ==> HaveRaw(t.events, p.events) && Untouched(t.suppressions, p.suppressions)
    ensures HaveNone(t.events, p.events) ==> Leftovers(t, p).events == {}
  {
    if Leftovers(t, p) == p {
      forall id | id in p.events ensures id in t.events && t.events[id].raw != "" {
        assert id in Leftovers(t, p).events;
      }
      assert Leftovers(t, p).suppressions == WithRaw(t.suppressions, p.suppressions);
    }
  }

  ghost predicate Untouched(rows: map<string, Suppression>, ids: set<string>) { WithRaw(rows, ids) == ids }

  lemma StaysEmpty(t: Tables, u: Tables, p: Preview, ids: set<string>)
    requires Progress(t, u, p) && WithRaw(t.suppressions, ids) == {}
    ensures WithRaw(u.suppressions, ids) == {}
  {
    forall id | id in ids && id in t.suppressions ensures u.suppressions[id].raw == "" {
      assert id !in WithRaw(t.suppressions, ids);
      assert SuppressionKept(t, u, p, id);
    }
  }

  lemma Disjoint(rows: map<string, Suppression>, empty: set<string>, full: set<string>)
    requires WithRaw(rows, empty) == {} && Untouched(rows, full)
    ensures empty !! full && |empty + full| == |empty| + |full|
  {
    forall id | id in full ensures id !in empty {
      assert id in WithRaw(rows, full);
      assert id !in WithRaw(rows, empty);
    }
  }

  lemma BothEmpty(rows: map<string, Suppression>, a: set<string>, b: set<string>)
    requires WithRaw(rows, a) == {} && WithRaw(rows, b) == {}
    ensures WithRaw(rows, a + b) == {}
  {
    forall id | id in a + b ensures id !in WithRaw(rows, a + b) {
      assert id !in WithRaw(rows, a) && id !in WithRaw(rows, b);
    }
  }

  lemma OthersUntouched(rows: map<string, Suppression>, full: set<string>, done: set<string>, now: int)
    requires Untouched(rows, full)
    ensures Untouched(Scrubbed(rows, done, now), full - done)
  {
    forall id | id in full - done ensures id in WithRaw(Scrubbed(rows, done, now), full - done) {
      assert id in WithRaw(rows, full);
    }
  }

  lemma NothingDone(t: Tables, p: Preview)
    ensures Progress(t, t, p)
  {
  }

  /** Nothing of the preview is left in any of the three places. */
  ghost predicate AllClean(t: Tables, p: Preview) {
    Leftovers(t, p) == Preview({}, {}) && forall id | id in p.events :: Clean(t, p, id)
  }

  lemma KeysStay(t: Tables, u: Tables, p: Preview)
    requires Progress(t, u, p) && Leftovers(t, p) == p
    ensures p.suppressions <= u.suppressions.Keys
  {
    forall id | id in p.suppressions ensures id in u.suppressions {
      assert id in Leftovers(t, p).suppressions;
    }
  }

  lemma Tally(all: set<string>, part: set<string>)
    requires part <= all
    ensures |all| == |part| + |all - part| && (|all - part| == 0 && part == {} ==> all == {})
  {
    assert all == part + (all - part);
  }

  lemma CandidatesHaveRaw(t: Tables, household: string, policy: Policy, now: int)
    ensures var p := PreviewOf(t, household, policy, now); Leftovers(t, p) == p
  {
    var p := PreviewOf(t, household, policy, now);
    assert Leftovers(t, p).events == p.events;
    assert Leftovers(t, p).suppressions == p.suppressions;
  }

  lemma EmptyIsClean(t: Tables, u: Tables, v: Tables, p: Preview)
    requires Progress(t, v, p) && Leftovers(t, p) == p && u.events == v.events
    requires Leftovers(u, p).events == {} && WithRaw(v.suppressions, p.suppressions) == {}
    ensures AllClean(v, p)
  {
    assert Leftovers(v, p).suppressions == WithRaw(v.suppressions, p.suppressions);
    assert Leftovers(v, p).events == Leftovers(u, p).events;
    forall id | id in p.events ensures Clean(v, p, id) {
      assert id in Leftovers(t, p).events && id !in Leftovers(v, p).events;
    }
  }

  class PurgeStore {
    const fate: nat -> Fate
    var calls: nat
    var events: map<string, Event>
    var suppressions: map<string, Suppression>
    var revisions: map<string, Revision>
    var sources: map<string, Source>
    var objects: set<string>
    var logs: seq<Decision>

    constructor (fate: nat -> Fate, t: Tables)
      ensures this.fate == fate && State() == t && logs == []
    {
      this.fate, calls, logs := fate, 0, [];
      events, suppressions, revisions, sources, objects := t.events, t.suppressions, t.revisions, t.sources, t.objects;
    }

    ghost function State(): Tables
      reads this
    {
      Tables(events, suppressions, revisions, sources, objects)
    }

    /** No call of the run fails. */
    ghost predicate Faultless() { forall n :: fate(n) == Works }

    // ---- single calls ----

    method Call() returns (o: Outcome, applied: bool)
      modifies `calls
      ensures Faultless() ==> o == Returned && applied
      ensures o == Returned && fate(old(calls)) != Skips ==> applied
    {
      var f := fate(calls);
      calls := calls + 1;
      o := if f.Throws? then Threw else if f.Dies? then Died else Returned;
      applied := f == Works || (f.Throws? && f.applied) || (f.Dies? && f.applied);
    }

    method Query() returns (o: Outcome)
      modifies `calls
      ensures Faultless() ==> o == Returned
    {
      var applied;
      o, applied := Call();
    }

    method DeleteObject(key: string) returns (o: Outcome)
      modifies `calls, `objects
      ensures objects == old(objects) || objects == old(objects) - {key}
      ensures Faultless() ==> o == Returned && objects == old(objects) - {key}
    {
      var applied;
      o, applied := Call();
      if applied { objects := objects - {key}; }
    }

    method ObjectExists(key: string) returns (o: Outcome, there: bool)
      modifies `calls
      ensures o == Returned ==> there == (key in objects)
      ensures Faultless() ==> o == Returned
    {
      o := Query();
      there := key in objects;
    }

    method ScrubSuppressions(ids: set<string>, now: int) returns (o: Outcome, done: set<string>)
      modifies `calls, `suppressions
      ensures suppressions == old(suppressions) || suppressions == Scrubbed(old(suppressions), ids, now)
      ensures o == Returned ==> suppressions == Scrubbed(old(suppressions), ids, now) && done == WithRaw(old(suppressions), ids)
      ensures o != Returned ==> done == {}
      ensures Faultless() ==> o == Returned
    {
      done := {};
      if ids == {} {
        assert Scrubbed(suppressions, ids, now) == suppressions;
        return Returned, {};
      }
      var applied;
      o, applied := Call();
      var before := suppressions;
      if applied || o == Returned { suppressions := Scrubbed(before, ids, now); }
      if o == Returned { done := WithRaw(before, ids); }
    }

    method ScrubEvent(id: string, now: int) returns (o: Outcome)
      modifies `calls, `events
      ensures events == old(events) || events == EventScrubbed(old(events), id, now)
      ensures o == Returned ==> events == EventScrubbed(old(events), id, now)
      ensures Faultless() ==> o == Returned
    {
      var applied;
      o, applied := Call();
      if applied || o == Returned { events := EventScrubbed(events, id, now); }
    }

    method ClearSize(item: string) returns (o: Outcome)
      modifies `calls, `sources
      ensures sources == old(sources) || (item in old(sources) && sources == old(sources)[item := old(sources)[item].(sizeBytes := 0)])
      ensures Faultless() ==> o == Returned
    {
      var applied;
      o, applied := Call();
      if (applied || o == Returned) && item in sources { sources := sources[item := sources[item].(sizeBytes := 0)]; }
    }

    // ---- the object copies of one event ----

    method DeleteKeys(keys: set<string>) returns (o: Outcome)
      modifies `calls, `objects
      ensures old(objects) - keys <= objects <= old(objects)
      ensures Faultless() ==> o == Returned && objects == old(objects) - keys
    {
      var pending := keys;
      o := Returned;
      while pending != {} && o == Returned
        invariant pending <= keys
        invariant old(objects) - keys <= objects <= old(objects)
        invariant Faultless() ==> o == Returned && objects == old(objects) - (keys - pending)
        decreases |pending|, o == Returned
      {
        var key :| key in pending;
        o := DeleteObject(key);
        pending := pending - {key};
      }
    }

    method DeleteSourceObjectCopies(item: string) returns (o: Outcome, keys: set<string>)
      modifies `calls, `objects, `sources
      ensures SourcesKept(old(State()), State())
      ensures old(objects) - Copies(old(State()), item) <= objects <= old(objects)
      ensures o == Returned ==> keys == Copies(old(State()), item)
      ensures Faultless() ==> o == Returned && objects == old(objects) - keys
    {
      keys := {};
      o := Query();
      if o != Returned { return; }
      keys := set r | r in revisions && revisions[r].sourceItem == item && !revisions[r].tombstone :: revisions[r].objectKey;
      o := DeleteKeys(keys);
      if o != Returned { return; }
      o := Query();
      if o != Returned { return; }
      if item in sources && sources[item].objectKey !in keys {
        o := DeleteObject(sources[item].objectKey);
        if o != Returned { return; }
        keys := keys + {sources[item].objectKey};
      }
      o := ClearSize(item);
    }

    method ConfirmObjectKeysGone(keys: set<string>) returns (o: Outcome, gone: bool)
      modifies `calls
      ensures o == Returned ==> gone == (keys !! objects)
      ensures Faultless() ==> o == Returned
    {
      var pending := keys;
      gone := true;
      o := Returned;
      while pending != {}
        invariant pending <= keys && o == Returned && gone && (keys - pending) !! objects
      {
        var key :| key in pending;
        var there;
        o, there := ObjectExists(key);
        if o != Returned { return; }
        if there { return Returned, false; }
        pending := pending - {key};
      }
    }

    // ---- one event ----

    method DeleteObjects(id: string, ghost p: Preview) returns (o: Outcome)
      requires id in p.events && id in events
      modifies `calls, `sources, `objects
      ensures Progress(old(State()), State(), p)
      ensures o == Returned ==> Copies(State(), events[id].sourceItem) !! objects
      ensures Faultless() ==> o == Returned
    {
      ghost var t := State();
      var keys, gone;
      o, keys := DeleteSourceObjectCopies(events[id].sourceItem);
      ObjectsDeleted(t, State(), p, id);
      if o != Returned { return; }
      o, gone := ConfirmObjectKeysGone(keys);
      if o == Returned && !gone { o := Threw; }
    }

    method ScrubLinked(id: string, ghost p: Preview, linked: set<string>, now: int) returns (o: Outcome, done: set<string>)
      requires linked == Linked(suppressions, id) * p.suppressions
      modifies `calls, `suppressions
      ensures Progress(old(State()), State(), p) && (forall item :: Copies(State(), item) == Copies(old(State()), item))
      ensures o == Returned ==> NoLinkedRaw(State(), p, id)
      ensures done <= linked && WithRaw(suppressions, done) == {}
      ensures Faultless() ==> o == Returned && suppressions == Scrubbed(old(suppressions), done, now)
    {
      o, done := ScrubSuppressions(linked, now);
      SuppressionsScrubbed(old(State()), State(), p, linked, now);
      assert WithRaw(old(suppressions), linked) == linked;
      if o == Returned && |done| != |linked| { o := Threw; }
    }

    /** The body of the try block for one candidate event. */
    method PurgeEvent(id: string, ghost p: Preview, candidates: set<string>, now: int) returns (o: Outcome, done: set<string>)
      requires id in p.events && id in events && p.suppressions == candidates
      modifies `calls, `events, `suppressions, `sources, `objects
      ensures Progress(old(State()), State(), p)
      ensures SameBut(old(events), events, id) && id in events
      ensures o == Returned ==> events[id].raw == ""
      ensures done <= WithRaw(old(suppressions), candidates) && WithRaw(suppressions, done) == {}
      ensures Faultless() ==> o == Returned && suppressions == Scrubbed(old(suppressions), done, now)
    {
      ghost var t := State();
      done := {};
      o := Query();
      if o != Returned { return; }
      var linked := Linked(suppressions, id) * candidates;
      o := DeleteObjects(id, p);
      ghost var u := State();
      if o != Returned { return; }
      o, done := ScrubLinked(id, p, linked, now);
      ghost var v := State();
      ProgressTransitive(t, u, v, p);
      if o != Returned { return; }
      o := ScrubEvent(id, now);
      EventEmptied(v, State(), p, id, now);
      ProgressTransitive(t, v, State(), p);
      if o != Returned { return; }
      o := Query();
      if o != Returned { return; }
      var remaining := Linked(suppressions, id) * candidates;
      if !CanClaimRawPurged(events[id].raw == "", true, remaining == {}) { o := Threw; }
    }

    // ---- the two loops and the run ----

    /** What the loop over the events keeps; `t` is the start of the run, `emptied` counts suppressions of purged events. */
    ghost predicate EventLoop(t: Tables, p: Preview, pending: set<string>, handled: set<string>, purged: nat, failed: nat, emptied: nat)
      reads this
    {
      && pending <= p.events && purged + failed + |pending| == |p.events| && emptied <= |handled|
      && Progress(t, State(), p)
      && HaveRaw(events, pending) && (failed == 0 ==> HaveNone(events, p.events - pending))
      && handled <= p.suppressions && WithRaw(suppressions, handled) == {}
      && (Faultless() ==> failed == 0 && emptied == |handled| && Untouched(suppressions, p.suppressions - handled))
    }

    /** One turn of the loop. */
    method PurgeNext(ghost t: Tables, id: string, p: Preview, ghost pending: set<string>, ghost handled: set<string>,
                     purged: nat, failed: nat, emptied: nat, now: int)
      returns (o: Outcome, done: set<string>, purged': nat, failed': nat, emptied': nat)
      requires EventLoop(t, p, pending, handled, purged, failed, emptied) && id in pending
      modifies `calls, `events, `suppressions, `sources, `objects
      ensures EventLoop(t, p, pending - {id}, handled + done, purged', failed', emptied')
      ensures Faultless() ==> o == Returned
    {
      ghost var u := State();
      o, done := PurgeEvent(id, p, p.suppressions, now);
      ProgressTransitive(t, u, State(), p);
      StaysEmpty(u, State(), p, handled);
      Disjoint(u.suppressions, handled, done);
      BothEmpty(suppressions, handled, done);
      TurnOver(u.events, events, p.events, pending, id);
      if Faultless() {
        OthersUntouched(u.suppressions, p.suppressions - handled, done, now);
        assert p.suppressions - handled - done == p.suppressions - (handled + done);
      }
      purged', failed', emptied' := purged, failed, emptied;
      if o == Returned {
        purged', emptied' := purged + 1, emptied + |done|;
      } else {
        failed' := failed + 1;
      }
    }

    /** A throw fails its event and goes on with the next; `handled` are the suppressions emptied along the way. */
    method PurgeEvents(p: Preview, now: int) returns (o: Outcome, purged: nat, failed: nat, emptied: nat, handled: set<string>)
      requires Leftovers(State(), p) == p
      modifies `calls, `events, `suppressions, `sources, `objects
      ensures Progress(old(State()), State(), p)
      ensures o == Returned ==> purged + failed == |p.events|
      ensures o == Returned && failed == 0 ==> Leftovers(State(), p).events == {}
      ensures handled <= p.suppressions && WithRaw(suppressions, handled) == {} && (p.events == {} ==> handled == {})
      ensures emptied <= |handled|
      ensures Faultless() ==> o == Returned && failed == 0 && emptied == |handled| && Untouched(suppressions, p.suppressions - handled)
    {
      ghost var t := State();
      var pending := p.events;
      o, purged, failed, emptied, handled := Returned, 0, 0, 0, {};
      BeforeAndAfter(t, p);
      NothingDone(t, p);
      assert p.suppressions - handled == p.suppressions;
      if pending == {} { return; }
      o := Query();
      if o != Returned { return; }
      while pending != {}
        invariant o == Returned && EventLoop(t, p, pending, handled, purged, failed, emptied)
        decreases |pending|
      {
        var id :| id in pending;
        var done;
        o, done, purged, failed, emptied := PurgeNext(t, id, p, pending, handled, purged, failed, emptied, now);
        handled, pending := handled + done, pending - {id};
        if o == Died { return; }
        o := Returned;
      }
      assert p.events - pending == p.events;
      BeforeAndAfter(State(), p);
    }

    method PurgeSuppression(ghost t: Tables, id: string, p: Preview, ghost gone: set<string>, now: int) returns (o: Outcome)
      requires id in p.suppressions && id in suppressions && Progress(t, State(), p)
      modifies `calls, `suppressions
      ensures Progress(t, State(), p) && suppressions.Keys == old(suppressions).Keys
      ensures o == Returned && WithRaw(old(suppressions), gone) == {} ==> WithRaw(suppressions, gone + {id}) == {}
      ensures Faultless() && old(suppressions)[id].raw != "" ==> o == Returned && suppressions == Scrubbed(old(suppressions), {id}, now)
    {
      ghost var u := State();
      var done;
      o, done := ScrubSuppressions({id}, now);
      SuppressionsScrubbed(u, State(), p, {id}, now);
      ProgressTransitive(t, u, State(), p);
      assert u.suppressions[id].raw != "" ==> WithRaw(u.suppressions, {id}) == {id};
      if o != Returned { return; }
      if |done| != 1 { return Threw; }
      o := Query();
      if o != Returned { return; }
      if !CanClaimRawPurged(suppressions[id].raw == "", true, true) { return Threw; }
      if WithRaw(u.suppressions, gone) == {} {
        StaysEmpty(u, State(), p, gone);
        BothEmpty(suppressions, gone, {id});
      }
    }

    method PurgeSuppressions(p: Preview, handled: set<string>, now: int) returns (o: Outcome, purged: nat, failed: nat)
      requires p.suppressions <= suppressions.Keys && handled <= p.suppressions && WithRaw(suppressions, handled) == {}
      modifies `calls, `suppressions
      ensures Progress(old(State()), State(), p)
      ensures o == Returned ==> purged + failed == |p.suppressions - handled|
      ensures o == Returned && failed == 0 ==> WithRaw(suppressions, p.suppressions) == {}
      ensures Faultless() && Untouched(old(suppressions), p.suppressions - handled) ==> o == Returned && failed == 0
    {
      ghost var t := State();
      var pending := p.suppressions - handled;
      o, purged, failed := Returned, 0, 0;
      while pending != {}
        invariant pending <= p.suppressions - handled && o == Returned
        invariant purged + failed == |p.suppressions - handled| - |pending|
        invariant Progress(t, State(), p)
        invariant failed == 0 ==> WithRaw(suppressions, p.suppressions - pending) == {}
        invariant Faultless() && Untouched(old(suppressions), p.suppressions - handled) ==> failed == 0 && Untouched(suppressions, pending)
        decreases |pending|
      {
        var id :| id in pending;
        ghost var before, gone := suppressions, p.suppressions - pending;
        o := PurgeSuppression(t, id, p, gone, now);
        if o == Died { return; }
        if Faultless() && Untouched(before, pending) { OthersUntouched(before, pending, {id}, now); }
        assert gone + {id} == p.suppressions - (pending - {id});
        pending := pending - {id};
        if o == Returned {
          purged := purged + 1;
        } else {
          failed := failed + 1;
        }
        o := Returned;
      }
    }

    /** Both loops over a fresh preview. */
    method PurgeCandidates(p: Preview, now: int) returns (o: Outcome, c: Counts)
      requires Leftovers(State(), p) == p
      modifies `calls, `events, `suppressions, `sources, `objects
      ensures Progress(old(State()), State(), p)
      ensures o == Returned ==> c.purgedEvents + c.failedEvents == |p.events| && (c == Counts(0, 0, 0, 0) <==> p == Preview({}, {}))
      ensures o == Returned && c.failedEvents == c.failedSuppressions == 0 ==> AllClean(State(), p)
      ensures Faultless() ==> o == Returned && c == Counts(|p.events|, |p.suppressions|, 0, 0)
    {
      ghost var t := State();
      c := Counts(0, 0, 0, 0);
      var purgedEvents, failedEvents, emptied, handled;
      o, purgedEvents, failedEvents, emptied, handled := PurgeEvents(p, now);
      if o != Returned { return; }
      ghost var u := State();
      KeysStay(t, u, p);
      var purgedSuppressions, failedSuppressions;
      o, purgedSuppressions, failedSuppressions := PurgeSuppressions(p, handled, now);
      ProgressTransitive(t, u, State(), p);
      if o != Returned { return; }
      c := Counts(purgedEvents, emptied + purgedSuppressions, failedEvents, failedSuppressions);
      Tally(p.suppressions, handled);
      if failedEvents == 0 && failedSuppressions == 0 { EmptyIsClean(t, u, State(), p); }
    }

    /** The run over its own preview. */
    method PurgePreview(household: string, policy: Policy, now: int) returns (o: Outcome, r: Result, ghost p: Preview)
      modifies this
      ensures p == PreviewOf(old(State()), household, policy, now) && Progress(old(State()), State(), p)
      ensures logs == old(logs) || (|logs| == |old(logs)| + 1 && logs[..|old(logs)|] == old(logs))
      ensures |logs| > |old(logs)| && logs[|old(logs)|].Completed? ==> AllClean(State(), p)
      ensures o == Returned ==>
                && logs == old(logs) + (if r.log.Some? then [r.log.value] else [])
                && (r.log == None <==> p == Preview({}, {}))
                && r.counts.purgedEvents + r.counts.failedEvents == |p.events|
      ensures Faultless() ==> o == Returned && r.counts == Counts(|p.events|, |p.suppressions|, 0, 0) && AllClean(State(), p)
    {
      ghost var t := State();
      r := Result(Counts(0, 0, 0, 0), None);
      var preview := PreviewOf(Tables(events, suppressions, revisions, sources, objects), household, policy, now);
      p := preview;
      NothingDone(t, p);
      CandidatesHaveRaw(t, household, policy, now);
      o := Query();
      if o != Returned { return; }
      if policy == KeepAll { return; }
      var counts;
      o, counts := PurgeCandidates(preview, now);
      if o != Returned { return; }
      r := Result(counts, ResolvePurgeLogDecision(counts));
      o := Record(r.log);
    }

    /**
     * One run. Wherever it ends, what it emptied is clean and the rest is untouched; a completed entry in the log means
     * that nothing that the policy selects is left anywhere; a run without faults purges all of it.
     */
    method Purge(household: string, policy: Policy, now: int) returns (o: Outcome, r: Result)
      modifies this
      ensures OnlySelectedPurged(old(State()), State(), household, policy, now)
      ensures OtherHouseholdsKept(old(State()), State(), household)
      ensures logs == old(logs) || (|logs| == |old(logs)| + 1 && logs[..|old(logs)|] == old(logs))
      ensures |logs| > |old(logs)| && logs[|old(logs)|].Completed? ==> AllSelectedPurged(old(State()), State(), household, policy, now)
      ensures Faultless() ==> o == Returned && AllSelectedPurged(old(State()), State(), household, policy, now)
      ensures var p := PreviewOf(old(State()), household, policy, now);
        && Progress(old(State()), State(), p)
        && (o == Returned ==>
              && logs == old(logs) + (if r.log.Some? then [r.log.value] else [])
              && (r.log == None <==> p == Preview({}, {}))
              && r.counts.purgedEvents + r.counts.failedEvents == |p.events|)
        && (Faultless() ==> r.counts == Counts(|p.events|, |p.suppressions|, 0, 0))
    {
      ghost var t := State();
      ghost var p;
      o, r, p := PurgePreview(household, policy, now);
      ProgressPurgesSelected(t, State(), household, policy, now);
      OthersAreNotSelected(t, State(), household, policy, now);
      if AllClean(State(), p) { NothingLeftIsPurged(t, State(), household, policy, now); }
    }

    /** The log entry of the run; the call can fail after the entry was written. */
    method Record(decision: Option<Decision>) returns (o: Outcome)
      modifies `calls, `logs
      ensures logs == old(logs) || (decision.Some? && logs == old(logs) + [decision.value])
      ensures o == Returned ==> logs == old(logs) + (if decision.Some? then [decision.value] else [])
      ensures Faultless() ==> o == Returned
    {
      if decision.None? { return Returned; }
      var applied;
      o, applied := Call();
      if applied || o == Returned { logs := logs + [decision.value]; }
    }
  }
}
