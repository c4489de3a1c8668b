/** Which raw card messages a retention policy selects, and what a purge may have done to the tables at any moment. */
module SmsRetention {
  import opened Wrappers

  datatype Policy = KeepAll | Days30 | AfterParse | FailuresOnly
  datatype ParseStatus = Pending | Parsed | ParseFailed | PendingReview | Quarantined | Ignored

  datatype Event = Event(household: string, sourceItem: string, raw: string, status: ParseStatus, receivedAt: int, updatedAt: int)
  datatype Suppression = Suppression(household: string, matchedEvent: Option<string>, raw: string, firstSeenAt: int, updatedAt: int)
  datatype Revision = Revision(sourceItem: string, objectKey: string, tombstone: bool)
  datatype Source = Source(objectKey: string, sizeBytes: nat)

  /** The rows a purge reads or writes, by id, and the keys present in object storage. */
  datatype Tables = Tables(events: map<string, Event>, suppressions: map<string, Suppression>,
                           revisions: map<string, Revision>, sources: map<string, Source>, objects: set<string>)

  datatype Preview = Preview(events: set<string>, suppressions: set<string>)

  /** Thirty days in milliseconds. */
  const RETENTION := 30 * 24 * 60 * 60 * 1000

  predicate EventMatches(policy: Policy, raw: string, status: ParseStatus, receivedAt: int, now: int) {
    && policy != KeepAll && raw != ""
    && match policy
       case Days30 => now - receivedAt >= RETENTION
       case AfterParse => status == Parsed
       case _ => status == Parsed || status == Ignored
  }

  predicate SuppressionMatches(policy: Policy, raw: string, firstSeenAt: int, matched: Option<Event>, now: int)
  {
    && policy != KeepAll && raw != ""
    && (policy == Days30 ==> now - firstSeenAt >= RETENTION)
    && (policy != Days30 ==>
          && matched.Some?
          && var raw := if matched.value.raw != "" then matched.value.raw else "x";
             EventMatches(policy, raw, matched.value.status, matched.value.receivedAt, now))
  }

  function MatchedEvent(t: Tables, s: Suppression): Option<Event> {
    if s.matchedEvent.Some? && s.matchedEvent.value in t.events then Some(t.events[s.matchedEvent.value]) else None
  }

  predicate EventDue(t: Tables, household: string, policy: Policy, now: int, id: string)
    requires id in t.events
  {
    var e := t.events[id];
    e.household == household && e.raw != "" && EventMatches(policy, e.raw, e.status, e.receivedAt, now)
  }

  predicate SuppressionDue(t: Tables, household: string, policy: Policy, now: int, id: string)
    requires id in t.suppressions
  {
    var s := t.suppressions[id];
    s.household == household && s.raw != "" && SuppressionMatches(policy, s.raw, s.firstSeenAt, MatchedEvent(t, s), now)
  }

  function PreviewOf(t: Tables, household: string, policy: Policy, now: int): Preview {
    if policy == KeepAll then Preview({}, {})
    else
      Preview((set id | id in t.events && EventDue(t, household, policy, now, id)),
              (set id | id in t.suppressions && SuppressionDue(t, household, policy, now, id)))
  }

  /** The object keys that hold a copy of a source item. */
  function Copies(t: Tables, item: string): set<string> {
    (set r | r in t.revisions && t.revisions[r].sourceItem == item && !t.revisions[r].tombstone :: t.revisions[r].objectKey)
    + (if item in t.sources then {t.sources[item].objectKey} else {})
  }

  // ---- what may have happened between two moments of a purge ----

  predicate EventKept(t: Tables, u: Tables, p: Preview, id: string)
    requires id in t.events && id in u.events
  {
    var a, b := t.events[id], u.events[id];
    b == a || (id in p.events && b == a.(raw := "", updatedAt := b.updatedAt))
  }

  predicate SuppressionKept(t: Tables, u: Tables, p: Preview, id: string)
    requires id in t.suppressions && id in u.suppressions
  {
    var a, b := t.suppressions[id], u.suppressions[id];
    b == a || (id in p.suppressions && b == a.(raw := "", updatedAt := b.updatedAt))
  }

  ghost predicate EventsKept(t: Tables, u: Tables, p: Preview) {
    u.events.Keys == t.events.Keys && forall id {:trigger EventKept(t, u, p, id)} | id in t.events :: EventKept(t, u, p, id)
  }

  ghost predicate SuppressionsKept(t: Tables, u: Tables, p: Preview) {
    && u.suppressions.Keys == t.suppressions.Keys
    && forall id {:trigger SuppressionKept(t, u, p, id)} | id in t.suppressions :: SuppressionKept(t, u, p, id)
  }

  ghost predicate SourcesKept(t: Tables, u: Tables) {
    u.sources.Keys == t.sources.Keys && forall item | item in t.sources :: u.sources[item].objectKey == t.sources[item].objectKey
  }

  ghost predicate Belongs(t: Tables, p: Preview, key: string) {
    exists id :: id in p.events && id in t.events && key in Copies(t, t.events[id].sourceItem)
  }

  /** Only candidates lose their raw text, and only their copies leave object storage. */
  ghost predicate Frame(t: Tables, u: Tables, p: Preview) {
    && EventsKept(t, u, p) && SuppressionsKept(t, u, p) && SourcesKept(t, u)
    && u.revisions == t.revisions && u.objects <= t.objects
    && forall key | key in t.objects && key !in u.objects :: Belongs(t, p, key)
  }

  ghost predicate NoLinkedRaw(t: Tables, p: Preview, id: string) {
    forall s | s in t.suppressions && s in p.suppressions && t.suppressions[s].matchedEvent == Some(id) :: t.suppressions[s].raw == ""
  }

  /** All three copies of an event are gone. */
  ghost predicate Clean(t: Tables, p: Preview, id: string) {
    id in t.events && t.events[id].raw == "" && Copies(t, t.events[id].sourceItem) !! t.objects && NoLinkedRaw(t, p, id)
  }

  ghost predicate EmptiedClean(t: Tables, u: Tables, p: Preview) {
    forall id {:trigger Clean(u, p, id)} | id in t.events && id in u.events && t.events[id].raw != "" && u.events[id].raw == "" ::
      Clean(u, p, id)
  }

  /** Whatever was emptied on the way from `t` to `u` has no copy left, and nothing else was touched. */
  ghost predicate Progress(t: Tables, u: Tables, p: Preview) { Frame(t, u, p) && EmptiedClean(t, u, p) }

  lemma CopiesStay(t: Tables, u: Tables, p: Preview, item: string)
    requires Frame(t, u, p)
    ensures Copies(u, item) == Copies(t, item)
  {
  }

  lemma RowsKeptTransitive(t: Tables, u: Tables, v: Tables, p: Preview)
    requires EventsKept(t, u, p) && SuppressionsKept(t, u, p) && EventsKept(u, v, p) && SuppressionsKept(u, v, p)
    ensures EventsKept(t, v, p) && SuppressionsKept(t, v, p)
  {
    forall id | id in t.events ensures EventKept(t, v, p, id) {
      assert EventKept(t, u, p, id) && EventKept(u, v, p, id);
    }
    forall id | id in t.suppressions ensures SuppressionKept(t, v, p, id) {
      assert SuppressionKept(t, u, p, id) && SuppressionKept(u, v, p, id);
    }
  }

  lemma FrameTransitive(t: Tables, u: Tables, v: Tables, p: Preview)
    requires Frame(t, u, p) && Frame(u, v, p)
    ensures Frame(t, v, p)
  {
    RowsKeptTransitive(t, u, v, p);
    forall key | key in t.objects && key !in v.objects ensures Belongs(t, p, key) {
      if key in u.objects {
        var id :| id in p.events && id in u.events && key in Copies(u, u.events[id].sourceItem);
        CopiesStay(t, u, p, u.events[id].sourceItem);
        assert EventKept(t, u, p, id);
      }
    }
  }

  lemma CleanStays(t: Tables, u: Tables, q: Preview, p: Preview, id: string)
    requires Frame(t, u, q) && Clean(t, p, id)
    ensures Clean(u, p, id)
  {
    CopiesStay(t, u, q, t.events[id].sourceItem);
    assert EventKept(t, u, q, id);
    forall s | s in u.suppressions && s in p.suppressions && u.suppressions[s].matchedEvent == Some(id)
      ensures u.suppressions[s].raw == ""
    {
      assert SuppressionKept(t, u, q, s);
    }
  }

  lemma ProgressTransitive(t: Tables, u: Tables, v: Tables, p: Preview)
    requires Progress(t, u, p) && Progress(u, v, p)
    ensures Progress(t, v, p)
  {
    FrameTransitive(t, u, v, p);
    forall id | id in t.events && id in v.events && t.events[id].raw != "" && v.events[id].raw == "" ensures Clean(v, p, id) {
      if u.events[id].raw == "" { CleanStays(u, v, p, p, id); }
    }
  }

  /** The events and suppressions of a preview that still hold raw text. */
  function Leftovers(t: Tables, p: Preview): Preview {
    Preview((set id | id in p.events && id in t.events && t.events[id].raw != ""),
            (set id | id in p.suppressions && id in t.suppressions && t.suppressions[id].raw != ""))
  }

  lemma EventStaysDue(t: Tables, u: Tables, p: Preview, household: string, policy: Policy, now: int, later: int, id: string)
    requires Frame(t, u, p) && now <= later && id in t.events && u.events[id].raw != ""
    ensures EventDue(t, household, policy, now, id) ==> EventDue(u, household, policy, later, id)
    ensures now == later && EventDue(u, household, policy, later, id) ==> EventDue(t, household, policy, now, id)
  {
    assert EventKept(t, u, p, id);
  }

  lemma SuppressionStaysDue(t: Tables, u: Tables, p: Preview, household: string, policy: Policy, now: int, later: int, id: string)
    requires Frame(t, u, p) && now <= later && id in t.suppressions && u.suppressions[id].raw != ""
    ensures SuppressionDue(t, household, policy, now, id) ==> SuppressionDue(u, household, policy, later, id)
    ensures now == later && SuppressionDue(u, household, policy, later, id) ==> SuppressionDue(t, household, policy, now, id)
  {
    var s := t.suppressions[id];
    assert SuppressionKept(t, u, p, id);
    if s.matchedEvent.Some? && s.matchedEvent.value in t.events {
      var e := s.matchedEvent.value;
      assert EventKept(t, u, p, e);
    }
  }

  /**
   * Wherever a purge stopped, the next preview selects everything it left; at the same time of day it selects nothing
   * else, so previewing again shows exactly the work that remains.
   */
  lemma LeftoversAreSelectedAgain(t: Tables, u: Tables, household: string, policy: Policy, now: int, later: int)
    requires var p := PreviewOf(t, household, policy, now); Progress(t, u, p) && now <= later
    ensures var p := PreviewOf(t, household, policy, now);
            var q := PreviewOf(u, household, policy, later);
            && Leftovers(u, p).events <= q.events && Leftovers(u, p).suppressions <= q.suppressions
            && (now == later ==> q == Leftovers(u, p))
  {
    var p := PreviewOf(t, household, policy, now);
    var q := PreviewOf(u, household, policy, later);
    forall id | id in t.events && u.events[id].raw != "" ensures id in p.events ==> id in q.events
      ensures now == later && id in q.events ==> id in p.events
    {
      EventStaysDue(t, u, p, household, policy, now, later, id);
    }
    forall id | id in t.suppressions && u.suppressions[id].raw != "" ensures id in p.suppressions ==> id in q.suppressions
      ensures now == later && id in q.suppressions ==> id in p.suppressions
    {
      SuppressionStaysDue(t, u, p, household, policy, now, later, id);
    }
    if now == later {
      assert q.events == Leftovers(u, p).events;
      assert q.suppressions == Leftovers(u, p).suppressions;
    }
  }

  /** A copy of a candidate event that survives, in any of the three places, leaves the event or that suppression due. */
  lemma NoCopyIsForgotten(t: Tables, u: Tables, household: string, policy: Policy, now: int, later: int, id: string)
    requires var p := PreviewOf(t, household, policy, now); Progress(t, u, p) && now <= later && id in p.events
    ensures var p := PreviewOf(t, household, policy, now); Clean(u, p, id) || id in PreviewOf(u, household, policy, later).events
  {
    LeftoversAreSelectedAgain(t, u, household, policy, now, later);
  }

  /** After a purge that stopped anywhere, a later one that leaves its own preview clean finishes the first one too. */
  lemma RetryFinishes(t: Tables, u: Tables, v: Tables, household: string, policy: Policy, now: int, later: int, id: string)
    requires var p := PreviewOf(t, household, policy, now);
             var q := PreviewOf(u, household, policy, later);
             && Progress(t, u, p) && now <= later && Progress(u, v, q) && id in p.events
             && Leftovers(v, q) == Preview({}, {}) && forall e | e in q.events :: Clean(v, q, e)
    ensures Clean(v, PreviewOf(t, household, policy, now), id)
  {
    var p := PreviewOf(t, household, policy, now);
    var q := PreviewOf(u, household, policy, later);
    NoCopyIsForgotten(t, u, household, policy, now, later, id);
    LeftoversAreSelectedAgain(t, u, household, policy, now, later);
    if Clean(u, p, id) {
      CleanStays(u, v, q, p, id);
    } else {
      assert Clean(v, q, id);
      forall s | s in v.suppressions && s in p.suppressions && v.suppressions[s].matchedEvent == Some(id)
        ensures v.suppressions[s].raw == ""
      {
        assert SuppressionKept(u, v, q, s);
        assert s in q.suppressions ==> s !in Leftovers(v, q).suppressions;
        assert u.suppressions[s].raw != "" ==> s in Leftovers(u, p).suppressions;
      }
    }
  }

  /** A row the preview did not select keeps its raw text. */
  lemma OthersKeepTheirRaw(t: Tables, u: Tables, p: Preview, id: string)
    requires Progress(t, u, p)
    ensures id in t.events && id !in p.events ==> u.events[id] == t.events[id]
    ensures id in t.suppressions && id !in p.suppressions ==> u.suppressions[id] == t.suppressions[id]
  {
    if id in t.events { assert EventKept(t, u, p, id); }
    if id in t.suppressions { assert SuppressionKept(t, u, p, id); }
  }

  // ---- the same in the words of the policies ----

  /** The policy calls for the raw text of a message of this status received at this time: thirty days are 2592000000 ms. */
  ghost predicate CallsFor(policy: Policy, status: ParseStatus, at: int, now: int) {
    match policy
    case KeepAll => false
    case Days30 => now - at >= 2_592_000_000
    case AfterParse => status == Parsed
    case FailuresOnly => status == Parsed || status == Ignored
  }

  /** The household's own events with raw text that the policy calls for. */
  ghost predicate Selected(t: Tables, household: string, policy: Policy, now: int, id: string) {
    && id in t.events && t.events[id].household == household && t.events[id].raw != ""
    && CallsFor(policy, t.events[id].status, t.events[id].receivedAt, now)
  }

  /** The household's own suppressions with raw text: thirty days after first sight, or when the matched event's status calls for it. */
  ghost predicate SelectedToo(t: Tables, household: string, policy: Policy, now: int, id: string) {
    && id in t.suppressions && t.suppressions[id].household == household && t.suppressions[id].raw != ""
    && match policy
       case KeepAll => false
       case Days30 => now - t.suppressions[id].firstSeenAt >= 2_592_000_000
       case _ =>
         && t.suppressions[id].matchedEvent.Some? && t.suppressions[id].matchedEvent.value in t.events
         && CallsFor(policy, t.events[t.suppressions[id].matchedEvent.value].status, 0, now)
  }

  /** The preview lists exactly these. */
  lemma PreviewMeaning(t: Tables, household: string, policy: Policy, now: int)
    ensures var p := PreviewOf(t, household, policy, now);
      && (forall id :: id in p.events <==> Selected(t, household, policy, now, id))
      && (forall id :: id in p.suppressions <==> SelectedToo(t, household, policy, now, id))
  {
    forall id | id in t.events ensures policy != KeepAll && EventDue(t, household, policy, now, id) <==> Selected(t, household, policy, now, id) {}
    forall id | id in t.suppressions
      ensures policy != KeepAll && SuppressionDue(t, household, policy, now, id) <==> SelectedToo(t, household, policy, now, id)
    {
    }
  }

  /** The key holds a copy of the item: a revision's that is no tombstone, or the source's. */
  ghost predicate HoldsCopy(t: Tables, item: string, key: string) {
    || (exists r :: r in t.revisions && t.revisions[r].sourceItem == item && !t.revisions[r].tombstone && t.revisions[r].objectKey == key)
    || (item in t.sources && t.sources[item].objectKey == key)
  }

  lemma CopiesMeaning(t: Tables, item: string, key: string)
    ensures key in Copies(t, item) <==> HoldsCopy(t, item, key)
  {
  }

  /** No object holds a copy of this event any more, and no selected suppression that matched it holds raw text. */
  ghost predicate NoCopyLeft(t: Tables, u: Tables, household: string, policy: Policy, now: int, id: string)
    requires id in t.events
  {
    && (forall key | HoldsCopy(t, t.events[id].sourceItem, key) :: key !in u.objects)
    && (forall s | SelectedToo(t, household, policy, now, s) && t.suppressions[s].matchedEvent == Some(id) :: s in u.suppressions && u.suppressions[s].raw == "")
  }

  ghost predicate EventPurged(t: Tables, u: Tables, household: string, policy: Policy, now: int, id: string)
    requires id in t.events && id in u.events
  {
    && Selected(t, household, policy, now, id) && u.events[id] == t.events[id].(raw := "", updatedAt := u.events[id].updatedAt)
    && NoCopyLeft(t, u, household, policy, now, id)
  }

  ghost predicate SuppressionPurged(t: Tables, u: Tables, household: string, policy: Policy, now: int, id: string)
    requires id in t.suppressions && id in u.suppressions
  {
    && SelectedToo(t, household, policy, now, id)
    && u.suppressions[id] == t.suppressions[id].(raw := "", updatedAt := u.suppressions[id].updatedAt)
  }

  /** Every row is as it was or was selected and purged, and every object that is gone held a copy of a selected event. */
  ghost predicate OnlySelectedPurged(t: Tables, u: Tables, household: string, policy: Policy, now: int) {
    && u.events.Keys == t.events.Keys && u.suppressions.Keys == t.suppressions.Keys
    && u.revisions == t.revisions && u.objects <= t.objects
    && (forall id | id in t.events :: u.events[id] == t.events[id] || EventPurged(t, u, household, policy, now, id))
    && (forall id | id in t.suppressions :: u.suppressions[id] == t.suppressions[id] || SuppressionPurged(t, u, household, policy, now, id))
    && (forall key | key in t.objects && key !in u.objects ::
          exists id :: Selected(t, household, policy, now, id) && HoldsCopy(t, t.events[id].sourceItem, key))
  }

  /** No row of another household is changed. */
  ghost predicate OtherHouseholdsKept(t: Tables, u: Tables, household: string) {
    && (forall id | id in t.events && t.events[id].household != household :: id in u.events && u.events[id] == t.events[id])
    && (forall id | id in t.suppressions && t.suppressions[id].household != household :: id in u.suppressions && u.suppressions[id] == t.suppressions[id])
  }

  /** All that was selected is purged, in every place. */
  ghost predicate AllSelectedPurged(t: Tables, u: Tables, household: string, policy: Policy, now: int) {
    && (forall id | Selected(t, household, policy, now, id) :: id in u.events && EventPurged(t, u, household, policy, now, id))
    && (forall id | SelectedToo(t, household, policy, now, id) :: id in u.suppressions && SuppressionPurged(t, u, household, policy, now, id))
  }

  lemma EmptiedIsPurged(t: Tables, u: Tables, household: string, policy: Policy, now: int, id: string)
    requires Progress(t, u, PreviewOf(t, household, policy, now))
    requires id in t.events && id in u.events && t.events[id].raw != "" && u.events[id].raw == ""
    ensures EventPurged(t, u, household, policy, now, id)
  {
    var p := PreviewOf(t, household, policy, now);
    PreviewMeaning(t, household, policy, now);
    assert EventKept(t, u, p, id) && Clean(u, p, id);
    CopiesStay(t, u, p, t.events[id].sourceItem);
    forall key | HoldsCopy(t, t.events[id].sourceItem, key) ensures key !in u.objects {
      CopiesMeaning(t, t.events[id].sourceItem, key);
    }
    forall s | SelectedToo(t, household, policy, now, s) && t.suppressions[s].matchedEvent == Some(id)
      ensures s in u.suppressions && u.suppressions[s].raw == ""
    {
      assert SuppressionKept(t, u, p, s);
    }
  }

  lemma ProgressPurgesSelected(t: Tables, u: Tables, household: string, policy: Policy, now: int)
    requires Progress(t, u, PreviewOf(t, household, policy, now))
    ensures OnlySelectedPurged(t, u, household, policy, now)
  {
    var p := PreviewOf(t, household, policy, now);
    PreviewMeaning(t, household, policy, now);
    forall id | id in t.events ensures u.events[id] == t.events[id] || EventPurged(t, u, household, policy, now, id) {
      assert EventKept(t, u, p, id);
      if u.events[id] != t.events[id] { EmptiedIsPurged(t, u, household, policy, now, id); }
    }
    forall id | id in t.suppressions
      ensures u.suppressions[id] == t.suppressions[id] || SuppressionPurged(t, u, household, policy, now, id)
    {
      assert SuppressionKept(t, u, p, id);
    }
    forall key | key in t.objects && key !in u.objects
      ensures exists id :: Selected(t, household, policy, now, id) && HoldsCopy(t, t.events[id].sourceItem, key)
    {
      var id :| id in p.events && id in t.events && key in Copies(t, t.events[id].sourceItem);
      CopiesMeaning(t, t.events[id].sourceItem, key);
      assert Selected(t, household, policy, now, id);
    }
  }

  lemma OthersAreNotSelected(t: Tables, u: Tables, household: string, policy: Policy, now: int)
    requires OnlySelectedPurged(t, u, household, policy, now)
    ensures OtherHouseholdsKept(t, u, household)
  {
    forall id | id in t.events && t.events[id].household != household ensures id in u.events && u.events[id] == t.events[id] {
      assert !Selected(t, household, policy, now, id);
    }
    forall id | id in t.suppressions && t.suppressions[id].household != household
      ensures id in u.suppressions && u.suppressions[id] == t.suppressions[id]
    {
      assert !SelectedToo(t, household, policy, now, id);
    }
  }

  lemma NothingLeftIsPurged(t: Tables, u: Tables, household: string, policy: Policy, now: int)
    requires var p := PreviewOf(t, household, policy, now); Progress(t, u, p) && Leftovers(u, p) == Preview({}, {})
    ensures AllSelectedPurged(t, u, household, policy, now)
  {
    var p := PreviewOf(t, household, policy, now);
    PreviewMeaning(t, household, policy, now);
    forall id | Selected(t, household, policy, now, id) ensures id in u.events && EventPurged(t, u, household, policy, now, id) {
      assert id in p.events && id !in Leftovers(u, p).events;
      assert EventKept(t, u, p, id);
      EmptiedIsPurged(t, u, household, policy, now, id);
    }
    forall id | SelectedToo(t, household, policy, now, id) ensures id in u.suppressions && SuppressionPurged(t, u, household, policy, now, id) {
      assert id in p.suppressions && id !in Leftovers(u, p).suppressions;
      assert SuppressionKept(t, u, p, id);
    }
  }
}
