/** The per-grant queue: each call waits for the promise of the call before it, and releases its own when its action settles. */
module GrantQueue {
  import opened Wrappers

  const CAPACITY := 8

  /** A call between its arrival and its end: the promise it awaits, and whether its action is under way. */
  datatype Call = Call(key: string, previous: Option<nat>, running: bool)

  /** The two maps of the queue, with the calls in flight. Promises are numbered in the order they are made. */
  datatype Queue = Queue(queues: map<string, nat>, sizes: map<string, int>, calls: map<nat, Call>, released: set<nat>, next: nat)

  const EMPTY := Queue(map[], map[], map[], {}, 0)

  function SizeOf(q: Queue, key: string): int { if key in q.sizes then q.sizes[key] else 0 }

  /** A call arrives: refused when eight are pending, else it takes its place behind the last one. */
  function Enter(q: Queue, key: string): (Queue, Option<nat>) {
    if SizeOf(q, key) >= CAPACITY then (q, None)
    else
      var previous := if key in q.queues then Some(q.queues[key]) else None;
      (Queue(q.queues[key := q.next], q.sizes[key := SizeOf(q, key) + 1],
             q.calls[q.next := Call(key, previous, false)], q.released, q.next + 1),
       Some(q.next))
  }

  predicate CanStart(q: Queue, t: nat) {
    t in q.calls && !q.calls[t].running && (q.calls[t].previous.None? || q.calls[t].previous.value in q.released)
  }

  function Start(q: Queue, t: nat): Queue
    requires CanStart(q, t)
  {
    q.(calls := q.calls[t := q.calls[t].(running := true)])
  }

  /** The action of call t settles, by returning or by throwing. */
  function Finish(q: Queue, t: nat): Queue
    requires t in q.calls
  {
    var key := q.calls[t].key;
    var remaining := (if key in q.sizes then q.sizes[key] else 1) - 1;
    Queue(if key in q.queues && q.queues[key] == t then q.queues - {key} else q.queues,
          if remaining == 0 then q.sizes - {key} else q.sizes[key := remaining],
          q.calls - {t}, q.released + {t}, q.next)
  }

  class CallQueue {
    var queues: map<string, nat>
    var sizes: map<string, int>
    var calls: map<nat, Call>
    var released: set<nat>
    var next: nat

    constructor ()
      ensures State() == EMPTY
    {
      queues, sizes, calls, released, next := map[], map[], map[], {}, 0;
    }

    ghost function State(): Queue
      reads this
    {
      Queue(queues, sizes, calls, released, next)
    }

    /** The part of `run` before its await. */
    method Arrive(key: string) returns (ticket: Option<nat>)
      modifies this
      ensures (State(), ticket) == Enter(old(State()), key)
    {
      var size := if key in sizes then sizes[key] else 0;
      if size >= CAPACITY { return None; }
      sizes := sizes[key := size + 1];
      var previous := if key in queues then Some(queues[key]) else None;
      var current := next;
      next := next + 1;
      queues := queues[key := current];
      calls := calls[current := Call(key, previous, false)];
      ticket := Some(current);
    }

    /** The await is over and the action begins. */
    method Begin(ticket: nat)
      requires CanStart(State(), ticket)
      modifies this`calls
      ensures State() == Start(old(State()), ticket)
    {
      calls := calls[ticket := calls[ticket].(running := true)];
    }

    /** The `finally` block. */
    method Settle(ticket: nat)
      requires ticket in calls
      modifies this
      ensures State() == Finish(old(State()), ticket)
    {
      var key := calls[ticket].key;
      released := released + {ticket};
      var remaining := (if key in sizes then sizes[key] else 1) - 1;
      if remaining == 0 { sizes := sizes - {key}; } else { sizes := sizes[key := remaining]; }
      if key in queues && queues[key] == ticket { queues := queues - {key}; }
      calls := calls - {ticket};
    }
  }

  // ---- what every run keeps ----

  ghost function Pending(q: Queue, key: string): set<nat> {
    set t | t in q.calls && q.calls[t].key == key
  }

  /** A call waits for a pending call at least as late as every earlier one of its key; with none before it, for nothing pending. */
  ghost predicate InPlace(c: Call, t: nat, pending: set<nat>, released: set<nat>) {
    && t in pending && t !in released
    && (c.previous.Some? ==> c.previous.value < t)
    && (forall u | u in pending && u < t :: c.previous.Some? && u <= c.previous.value && c.previous.value in pending)
    && (First(t, pending) ==> c.previous.None? || c.previous.value in released)
    && (c.running ==> First(t, pending))
  }

  ghost predicate First(t: nat, pending: set<nat>) { forall u | u in pending :: t <= u }

  ghost predicate Queued(q: Queue, t: nat)
    requires t in q.calls
  {
    t < q.next && InPlace(q.calls[t], t, Pending(q, q.calls[t].key), q.released)
  }

  /** The maps hold a key exactly while it has pending calls: the newest of them, and how many. */
  ghost predicate Booked(q: Queue, key: string) {
    && |Pending(q, key)| <= 8
    && (key in q.queues <==> Pending(q, key) != {})
    && (key in q.sizes <==> Pending(q, key) != {})
    && (key in q.sizes ==> q.sizes[key] == |Pending(q, key)|)
    && (key in q.queues ==> q.queues[key] in Pending(q, key) && forall u | u in Pending(q, key) :: u <= q.queues[key])
  }

  ghost predicate Inv(q: Queue) {
    && (forall t | t in q.calls :: Queued(q, t))
    && (forall t | t in q.released :: t < q.next)
    && (forall key :: Booked(q, key))
  }

  lemma EnterPending(q: Queue, key: string, k: string)
    requires q.next !in q.calls && Enter(q, key).1.Some?
    ensures Pending(Enter(q, key).0, k) == Pending(q, k) + if k == key then {q.next} else {}
  {}

  lemma EnterKeepsCall(q: Queue, key: string, t: nat)
    requires Inv(q) && q.next !in q.calls && Enter(q, key).1.Some? && t in Enter(q, key).0.calls
    ensures Queued(Enter(q, key).0, t)
  {
    if t == q.next {
      EnterPending(q, key, key);
      assert Booked(q, key);
      forall u | u in Pending(q, key) ensures u < t { assert Queued(q, u); }
    } else {
      assert Queued(q, t);
      EnterPending(q, key, q.calls[t].key);
      assert t in Pending(q, q.calls[t].key);
    }
  }

  lemma EnterKeeps(q: Queue, key: string)
    requires Inv(q)
    ensures Inv(Enter(q, key).0)
    ensures Enter(q, key).1.None? <==> |Pending(q, key)| == 8
    ensures Enter(q, key).1.Some? ==>
      var t := Enter(q, key).1.value;
      Pending(Enter(q, key).0, key) == Pending(q, key) + {t} && forall u | u in q.calls :: u < t
  {
    var q' := Enter(q, key).0;
    assert Booked(q, key);
    assert SizeOf(q, key) == |Pending(q, key)|;
    forall u | u in q.calls ensures u < q.next { assert Queued(q, u); }
    if Enter(q, key).1.Some? {
      forall t | t in q'.calls ensures Queued(q', t) { EnterKeepsCall(q, key, t); }
      forall k ensures Booked(q', k) {
        assert Booked(q, k);
        EnterPending(q, key, k);
      }
      EnterPending(q, key, key);
    }
  }

  lemma StartKeeps(q: Queue, t: nat)
    requires Inv(q) && CanStart(q, t)
    ensures Inv(Start(q, t))
    ensures forall u | u in Pending(q, q.calls[t].key) :: t <= u && (u != t ==> !q.calls[u].running)
  {
    var q' := Start(q, t);
    var key := q.calls[t].key;
    assert Queued(q, t);
    forall u | u in Pending(q, key) ensures t <= u && (u != t ==> !q.calls[u].running) {
      assert Queued(q, u) && t in Pending(q, key);
    }
    forall k ensures Pending(q', k) == Pending(q, k) {}
    forall k ensures Booked(q', k) { assert Booked(q, k); }
    forall u | u in q'.calls ensures Queued(q', u) { assert Queued(q, u); }
  }

  lemma FinishPending(q: Queue, t: nat, key: string)
    requires t in q.calls
    ensures Pending(Finish(q, t), key) == Pending(q, key) - {t}
  {}

  lemma StepsUp(c: Call, u: nat, pending: set<nat>, released: set<nat>, t: nat)
    requires InPlace(c, u, pending, released) && t in pending && First(t, pending) && u != t
    ensures InPlace(c, u, pending - {t}, released + {t})
  {
    var after := pending - {t};
    if w :| w in after && w < u {
      assert t < w <= c.previous.value;
    }
    assert forall w :: w in after <==> w in pending && w != t;
  }

  lemma FinishKeepsCall(q: Queue, t: nat, u: nat)
    requires Inv(q) && t in q.calls && q.calls[t].running && u in q.calls && u != t
    ensures Queued(Finish(q, t), u)
  {
    assert Queued(q, t) && Queued(q, u);
    var key := q.calls[u].key;
    FinishPending(q, t, key);
    if key == q.calls[t].key {
      StepsUp(q.calls[u], u, Pending(q, key), q.released, t);
    } else {
      assert t !in Pending(q, key);
      assert Pending(q, key) - {t} == Pending(q, key);
    }
  }

  lemma LastOfItsKey(q: Queue, t: nat, key: string)
    requires t in q.calls && Booked(q, key) && Queued(q, t) && q.calls[t].key == key && q.calls[t].running
    requires key in q.queues && q.queues[key] == t
    ensures Pending(q, key) == {t}
  {
    forall u | u in Pending(q, key) ensures u == t { assert u <= t && t <= u; }
    assert t in Pending(q, key);
  }

  lemma FinishBooksOwn(q: Queue, t: nat)
    requires t in q.calls && Booked(q, q.calls[t].key) && Queued(q, t) && q.calls[t].running
    ensures Booked(Finish(q, t), q.calls[t].key)
  {
    var key := q.calls[t].key;
    FinishPending(q, t, key);
    assert t in Pending(q, key);
    assert |Pending(q, key) - {t}| == |Pending(q, key)| - 1;
    if Pending(q, key) - {t} == {} { assert Pending(q, key) == {t}; }
    if q.queues[key] == t { LastOfItsKey(q, t, key); }
  }

  lemma FinishBooksOther(q: Queue, t: nat, k: string)
    requires t in q.calls && Booked(q, k) && k != q.calls[t].key
    ensures Booked(Finish(q, t), k)
  {
    FinishPending(q, t, k);
    assert t !in Pending(q, k);
    assert Pending(q, k) - {t} == Pending(q, k);
  }

  lemma FinishKeeps(q: Queue, t: nat)
    requires Inv(q) && t in q.calls && q.calls[t].running
    ensures Inv(Finish(q, t))
    ensures Pending(Finish(q, t), q.calls[t].key) == Pending(q, q.calls[t].key) - {t}
  {
    var q' := Finish(q, t);
    FinishPending(q, t, q.calls[t].key);
    assert Queued(q, t);
    forall k ensures Booked(q', k) {
      assert Booked(q, k);
      if k == q.calls[t].key { FinishBooksOwn(q, t); } else { FinishBooksOther(q, t, k); }
    }
    forall u | u in q'.calls ensures Queued(q', u) { FinishKeepsCall(q, t, u); }
  }

  datatype Event = Arrival(key: string) | Beginning(ticket: nat) | Settlement(ticket: nat)

  predicate Enabled(q: Queue, e: Event) {
    match e
    case Arrival(_) => true
    case Beginning(t) => CanStart(q, t)
    case Settlement(t) => t in q.calls && q.calls[t].running
  }

  function Next(q: Queue, e: Event): Queue
    requires Enabled(q, e)
  {
    match e
    case Arrival(key) => Enter(q, key).0
    case Beginning(t) => Start(q, t)
    case Settlement(t) => Finish(q, t)
  }

  lemma NextKeeps(q: Queue, e: Event)
    requires Inv(q) && Enabled(q, e)
    ensures Inv(Next(q, e))
  {
    match e
    case Arrival(key) => EnterKeeps(q, key);
    case Beginning(t) => StartKeeps(q, t);
    case Settlement(t) => FinishKeeps(q, t);
  }

  ghost predicate Run(states: seq<Queue>, events: seq<Event>) {
    && |states| == |events| + 1 && states[0] == EMPTY
    && forall i | 0 <= i < |events| :: Enabled(states[i], events[i]) && states[i + 1] == Next(states[i], events[i])
  }

  lemma {:induction false} RunKeepsInv(states: seq<Queue>, events: seq<Event>, n: nat)
    requires Run(states, events) && n < |states|
    ensures Inv(states[n])
  {
    if n > 0 {
      RunKeepsInv(states, events, n - 1);
      NextKeeps(states[n - 1], events[n - 1]);
    }
  }

  /** At every point of every run: one running action per key, at most eight pending, and exact books. */
  lemma Exclusive(states: seq<Queue>, events: seq<Event>, n: nat, key: string)
    requires Run(states, events) && n < |states|
    ensures var q := states[n];
      && (forall t, u | t in Pending(q, key) && u in Pending(q, key) && q.calls[t].running && q.calls[u].running :: t == u)
      && |Pending(q, key)| <= 8
      && (key in q.queues <==> Pending(q, key) != {}) && (key in q.sizes <==> Pending(q, key) != {})
  {
    RunKeepsInv(states, events, n);
    var q := states[n];
    assert Booked(q, key);
    forall t, u | t in Pending(q, key) && u in Pending(q, key) && q.calls[t].running && q.calls[u].running ensures t == u {
      assert Queued(q, t) && Queued(q, u);
    }
  }

  lemma {:induction false} Least(s: set<nat>) returns (t: nat)
    requires s != {}
    ensures t in s && First(t, s)
    decreases |s|
  {
    var x :| x in s;
    var rest := s - {x};
    t := x;
    if rest != {} {
      var u := Least(rest);
      if u < x { t := u; }
    }
    forall u | u in s ensures t <= u { assert u == x || u in rest; }
  }

  /** The oldest pending call of a key, which may begin if it has not. */
  lemma OldestCall(q: Queue, key: string) returns (t: nat)
    requires Inv(q) && Pending(q, key) != {}
    ensures t in Pending(q, key) && First(t, Pending(q, key)) && (!q.calls[t].running ==> CanStart(q, t))
  {
    t := Least(Pending(q, key));
    assert Queued(q, t);
  }

  /** Actions begin in order of arrival: whoever begins has no earlier call of its key still pending. */
  lemma FirstComeFirstServed(states: seq<Queue>, events: seq<Event>, n: nat)
    requires Run(states, events) && n < |events| && events[n].Beginning?
    ensures var q, t := states[n], events[n].ticket;
      t in q.calls && forall u | u in Pending(q, q.calls[t].key) :: t <= u && !q.calls[u].running
  {
    RunKeepsInv(states, events, n);
    StartKeeps(states[n], events[n].ticket);
  }

  /** No call is stuck: the oldest pending call of a key is running or may begin, so a settled action always frees its successor. */
  lemma OldestIsFree(states: seq<Queue>, events: seq<Event>, n: nat, t: nat)
    requires Run(states, events) && n < |states| && t in states[n].calls
    requires forall u | u in Pending(states[n], states[n].calls[t].key) :: t <= u
    ensures states[n].calls[t].running || CanStart(states[n], t)
  {
    RunKeepsInv(states, events, n);
    assert Queued(states[n], t);
  }
}
