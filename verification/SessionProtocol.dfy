/**
 * One grant, its queued actions and its rotating upstream refresh cookie.
 *
 * The gateway loads the stored session into a client for each queued action, the client may rotate the cookie at the
 * upstream refresh endpoint, and the end of the action writes the client's session back or revokes the grant.
 * Revocations by token or by code replay bypass the queue.
 */
module SessionProtocol {
  import opened Wrappers
  import Q = GrantQueue
  import RA = RemoteAuth

  const KEY := "grant"

  datatype Kind = McpRequest | Maintenance | UserRevocation

  /**
   * A client with its token and cookie. Of its open fetches there are first tries, each with the token it was sent with,
   * those that wait for the refresh in flight, and second tries, which are never followed by a refresh.
   */
  datatype Client = Client(accessToken: string, cookie: string, tries: multiset<string>, waiting: nat, retries: nat, refreshing: bool)

  predicate IsOpen(c: Client) { |c.tries| > 0 || c.waiting > 0 || c.retries > 0 }

  /** The client may rotate its cookie without a new fetch: by the refresh in flight, or after a 401 for the current token. */
  predicate Armed(c: Client) { c.refreshing || c.accessToken in c.tries }

  /** A queued call, the client of a running one, or a client whose action ended with fetches still open. */
  datatype Job = Waiting(kind: Kind) | Working(client: Client) | Orphaned(client: Client)

  datatype Stored = Stored(accessToken: string, cookie: string)

  /** `session` is None once the grant is revoked. `retired` and `seen` record history: replaced cookies, and all cookies ever issued. */
  datatype Sys = Sys(queue: Q.Queue, jobs: map<nat, Job>, session: Option<Stored>, retired: set<string>, seen: set<string>)

  /** What the snapshot and the store demand of a session before they keep it. */
  predicate Storable(accessToken: string, cookie: string) {
    accessToken != "" && cookie != "" && RA.ValidSession(RA.Session(accessToken, "refresh_token=" + cookie))
  }

  datatype Action =
    | Arrive(kind: Kind)
    | Begin(ticket: nat, opens: bool)
    | Fetch(ticket: nat)
    | Answer(ticket: nat, first: Option<string>)
    | Unauthorized(ticket: nat, attempted: string)
    | RefreshOk(ticket: nat, accessToken: string, setCookie: Option<string>)
    | RefreshFail(ticket: nat)
    | End(ticket: nat, revoke: bool)
    | DirectRevocation

  /** Answer closes a first try with its token, or a second try; Unauthorized is a 401 on a first try. */
  predicate IsClientAction(a: Action) { a.Fetch? || a.Answer? || a.Unauthorized? || a.RefreshOk? || a.RefreshFail? }

  predicate Allows(c: Client, a: Action) {
    match a
    case Answer(_, None) => c.retries > 0
    case Answer(_, Some(token)) => token in c.tries
    case Unauthorized(_, attempted) => attempted in c.tries
    case RefreshOk(_, _, _) => c.refreshing
    case RefreshFail(_) => c.refreshing
    case _ => true
  }

  /** The cookie that an answer of the refresh endpoint issues. */
  function IssuedBy(a: Action): set<string> { if a.RefreshOk? && a.setCookie.Some? then {a.setCookie.value} else {} }

  /** The cookie for which the client stores a successor. An answer without an access token fails before that. */
  function RetiredBy(c: Client, a: Action): set<string> {
    if a.RefreshOk? && a.accessToken != "" && a.setCookie.Some? then {c.cookie} else {}
  }

  /** A 401 on a first try: it waits for a refresh if its token is still current, and is tried again at once otherwise. */
  function Refused(c: Client, attempted: string): Client {
    var left := c.tries - multiset{attempted};
    if attempted == c.accessToken then c.(tries := left, waiting := c.waiting + 1, refreshing := true)
    else c.(tries := left, retries := c.retries + 1)
  }

  /** What waited for the refresh is tried again, or fails with it. */
  function Refreshed(c: Client, accessToken: string, cookie: string): Client {
    c.(accessToken := accessToken, cookie := cookie, waiting := 0, retries := c.retries + c.waiting, refreshing := false)
  }

  function Failed(c: Client): Client { c.(waiting := 0, refreshing := false) }

  function ClientAfter(c: Client, a: Action): Client
    requires IsClientAction(a) && Allows(c, a)
  {
    match a
    case Fetch(_) => c.(tries := c.tries + multiset{c.accessToken})
    case Answer(_, None) => c.(retries := c.retries - 1)
    case Answer(_, Some(token)) => c.(tries := c.tries - multiset{token})
    case Unauthorized(_, attempted) => Refused(c, attempted)
    case RefreshFail(_) => Failed(c)
    case RefreshOk(_, accessToken, setCookie) =>
      if accessToken == "" then Failed(c) else Refreshed(c, accessToken, if setCookie.Some? then setCookie.value else c.cookie)
  }

  predicate HasClient(s: Sys, t: nat) { t in s.jobs && !s.jobs[t].Waiting? }

  predicate Enabled(s: Sys, a: Action) {
    match a
    case Arrive(_) => true
    case Begin(t, _) => Q.CanStart(s.queue, t) && t in s.jobs && s.jobs[t].Waiting?
    case Fetch(t) => t in s.jobs && s.jobs[t].Working?
    case End(t, _) => t in s.queue.calls && s.queue.calls[t].running
    case DirectRevocation => true
    case _ => HasClient(s, a.ticket) && Allows(s.jobs[a.ticket].client, a) && IssuedBy(a) !! s.seen
  }

  /** The cookie an action sends to the refresh endpoint: only a 401 for the current token with no refresh in flight sends it. */
  function Sent(s: Sys, a: Action): Option<string>
    requires Enabled(s, a)
  {
    if a.Unauthorized? && a.attempted == s.jobs[a.ticket].client.accessToken && !s.jobs[a.ticket].client.refreshing
    then Some(s.jobs[a.ticket].client.cookie) else None
  }

  function WithClient(s: Sys, t: nat, c: Client): Sys
    requires HasClient(s, t)
  {
    s.(jobs := s.jobs[t := if s.jobs[t].Working? then Working(c) else Orphaned(c)])
  }

  function Opened(s: Sys, t: nat, opens: bool): Sys
    requires t in s.jobs && s.jobs[t].Waiting?
  {
    if s.jobs[t].kind.UserRevocation? then s.(jobs := s.jobs - {t}, session := None)
    else if s.session.None? || !opens then s.(jobs := s.jobs - {t})
    else s.(jobs := s.jobs[t := Working(Client(s.session.value.accessToken, s.session.value.cookie, multiset{}, 0, 0, false))])
  }

  /** The `finally` of the action: write back or revoke. A session that cannot be stored is dropped, and a revoked grant is left alone. */
  function WrittenBack(s: Sys, t: nat, revoke: bool): Sys {
    if t !in s.jobs || !s.jobs[t].Working? then s
    else
      var c := s.jobs[t].client;
      var session := if revoke || s.session.None? then None
                     else if Storable(c.accessToken, c.cookie) then Some(Stored(c.accessToken, c.cookie))
                     else s.session;
      s.(session := session, jobs := if IsOpen(c) then s.jobs[t := Orphaned(c)] else s.jobs - {t})
  }

  function Next(s: Sys, a: Action): Sys
    requires Enabled(s, a)
  {
    match a
    case Arrive(kind) =>
      var (queue, ticket) := Q.Enter(s.queue, KEY);
      if ticket.None? then s else s.(queue := queue, jobs := s.jobs[ticket.value := Waiting(kind)])
    case Begin(t, opens) => Opened(s.(queue := Q.Start(s.queue, t)), t, opens)
    case End(t, revoke) => WrittenBack(s, t, revoke).(queue := Q.Finish(s.queue, t))
    case DirectRevocation => s.(session := None)
    case _ => ClientSteps(s, a)
  }

  function ClientSteps(s: Sys, a: Action): Sys
    requires IsClientAction(a) && HasClient(s, a.ticket) && Allows(s.jobs[a.ticket].client, a)
  {
    var c := s.jobs[a.ticket].client;
    WithClient(s, a.ticket, ClientAfter(c, a)).(retired := s.retired + RetiredBy(c, a), seen := s.seen + IssuedBy(a))
  }

  /** The start: an idle grant with a stored session, none of whose cookies has been replaced. */
  ghost predicate Initial(s: Sys) {
    && s.queue == Q.EMPTY && s.jobs == map[] && s.retired == {}
    && (s.session.Some? ==> Storable(s.session.value.accessToken, s.session.value.cookie) && s.session.value.cookie in s.seen)
  }

  ghost predicate Steps(states: seq<Sys>, actions: seq<Action>) {
    && |states| == |actions| + 1
    && forall i | 0 <= i < |actions| :: Enabled(states[i], actions[i]) && states[i + 1] == Next(states[i], actions[i])
  }

  ghost predicate Run(states: seq<Sys>, actions: seq<Action>) {
    Steps(states, actions) && Initial(states[0])
  }

  /**
   * An action ends cleanly when no refresh is in flight, no first try is open with the current token, and its cookie is
   * either storable or unchanged. Revoking or already revoked grants always end cleanly.
   */
  predicate Clean(s: Sys, a: Action) {
    a.End? && a.ticket in s.jobs && s.jobs[a.ticket].Working? && !a.revoke && s.session.Some? ==>
      var c := s.jobs[a.ticket].client;
      !Armed(c) && (Storable(c.accessToken, c.cookie) || c.cookie == s.session.value.cookie)
  }

  // ---- a revoked grant stays revoked, in every run ----

  /** No interleaving gives a revoked grant a session again. */
  lemma {:induction false} RevokedForGood(states: seq<Sys>, actions: seq<Action>, i: nat, j: nat)
    requires Steps(states, actions) && i <= j < |states| && states[i].session.None?
    ensures states[j].session.None?
  {
    if i < j { RevokedForGood(states, actions, i, j - 1); }
  }

  // ---- what every run keeps ----

  ghost predicate JobOk(s: Sys, t: nat)
    requires t in s.jobs
  {
    match s.jobs[t]
    case Waiting(_) => t in s.queue.calls && s.queue.calls[t].key == KEY && !s.queue.calls[t].running
    case Working(c) =>
      && t in s.queue.calls && s.queue.calls[t].key == KEY && s.queue.calls[t].running && ClientOk(s, c)
      && (s.session.Some? ==> c.cookie == s.session.value.cookie || s.session.value.cookie in s.retired)
    case Orphaned(c) => t !in s.queue.calls && t < s.queue.next && ClientOk(s, c)
  }

  ghost predicate ClientOk(s: Sys, c: Client) {
    c.cookie in s.seen && (c.refreshing <==> c.waiting > 0)
  }

  ghost predicate Inv(s: Sys) {
    && Q.Inv(s.queue)
    && (forall t | t in s.queue.calls :: s.queue.calls[t].key == KEY)
    && (forall t | t in s.jobs :: JobOk(s, t))
    && (s.session.Some? ==> s.session.value.cookie in s.seen)
    && s.retired <= s.seen
  }

  /** Only the running call has a client at work. */
  lemma OneWorker(s: Sys, t: nat, u: nat)
    requires Inv(s) && t in s.queue.calls && s.queue.calls[t].running && u in s.jobs && s.jobs[u].Working?
    ensures t == u
  {
    assert JobOk(s, u) && Q.Queued(s.queue, t) && Q.Queued(s.queue, u);
    assert t in Q.Pending(s.queue, KEY) && u in Q.Pending(s.queue, KEY);
  }

  lemma ArriveKeeps(s: Sys, a: Action)
    requires Inv(s) && a.Arrive?
    ensures Inv(Next(s, a))
  {
    Q.EnterKeeps(s.queue, KEY);
    var s' := Next(s, a);
    if s' != s {
      forall t | t in s'.jobs ensures JobOk(s', t) {
        if t in s.jobs && t != s.queue.next { assert JobOk(s, t); }
      }
    }
  }

  lemma BeginKeepsJob(s: Sys, a: Action, u: nat)
    requires Inv(s) && a.Begin? && Enabled(s, a) && u in Next(s, a).jobs
    ensures JobOk(Next(s, a), u)
  {
    assert JobOk(s, a.ticket) && JobOk(s, u);
  }

  lemma BeginKeeps(s: Sys, a: Action)
    requires Inv(s) && a.Begin? && Enabled(s, a)
    ensures Inv(Next(s, a))
  {
    var s' := Next(s, a);
    forall u | u in s'.jobs ensures JobOk(s', u) { BeginKeepsJob(s, a, u); }
    Q.StartKeeps(s.queue, a.ticket);
    assert s'.queue == Q.Start(s.queue, a.ticket);
  }

  /** The client of one job changes; cookies may have been issued and replaced. */
  lemma ClientChangeKeeps(s: Sys, t: nat, c: Client, retired: set<string>, seen: set<string>)
    requires Inv(s) && HasClient(s, t) && s.retired <= retired <= seen && s.seen <= seen
    requires c.cookie in seen && (c.refreshing <==> c.waiting > 0)
    requires s.session.Some? ==> c.cookie == s.jobs[t].client.cookie || s.jobs[t].client.cookie in retired
    ensures Inv(WithClient(s, t, c).(retired := retired, seen := seen))
  {
    var s' := WithClient(s, t, c).(retired := retired, seen := seen);
    assert JobOk(s, t);
    forall u | u in s'.jobs ensures JobOk(s', u) { assert JobOk(s, u); }
  }

  lemma ClientAfterIsOk(c: Client, a: Action)
    requires IsClientAction(a) && Allows(c, a) && (c.refreshing <==> c.waiting > 0)
    ensures var d := ClientAfter(c, a);
            && (d.refreshing <==> d.waiting > 0) && {d.cookie} <= {c.cookie} + IssuedBy(a)
            && (d.cookie == c.cookie || c.cookie in RetiredBy(c, a))
  {
  }

  lemma ClientKeeps(s: Sys, a: Action)
    requires Inv(s) && Enabled(s, a) && IsClientAction(a)
    ensures Inv(Next(s, a))
  {
    var c := s.jobs[a.ticket].client;
    assert JobOk(s, a.ticket);
    ClientAfterIsOk(c, a);
    ClientChangeKeeps(s, a.ticket, ClientAfter(c, a), s.retired + RetiredBy(c, a), s.seen + IssuedBy(a));
  }

  lemma WrittenBackJob(s: Sys, t: nat, revoke: bool, u: nat)
    requires t in s.queue.calls && t < s.queue.next && u in s.jobs && JobOk(s, u) && s.retired <= s.seen
    requires t in s.jobs ==> JobOk(s, t)
    requires s.jobs[u].Working? || (t in s.jobs && s.jobs[t].Waiting?) ==> u == t && s.queue.calls[t].running
    requires u in WrittenBack(s, t, revoke).jobs
    ensures JobOk(WrittenBack(s, t, revoke).(queue := Q.Finish(s.queue, t)), u)
  {}

  lemma EndKeepsJob(s: Sys, a: Action, u: nat)
    requires Inv(s) && Enabled(s, a) && a.End? && u in Next(s, a).jobs
    ensures JobOk(Next(s, a), u)
  {
    var t := a.ticket;
    assert Q.Queued(s.queue, t);
    if t in s.jobs { assert JobOk(s, t); }
    assert JobOk(s, u);
    if s.jobs[u].Working? { OneWorker(s, t, u); }
    WrittenBackJob(s, t, a.revoke, u);
  }

  lemma EndKeepsSession(s: Sys, a: Action)
    requires Inv(s) && Enabled(s, a) && a.End? && Next(s, a).session.Some?
    ensures Next(s, a).session.value.cookie in s.seen
  {
    if a.ticket in s.jobs { assert JobOk(s, a.ticket); }
  }

  lemma EndKeepsJobs(s: Sys, a: Action)
    requires Inv(s) && Enabled(s, a) && a.End?
    ensures forall u | u in Next(s, a).jobs :: JobOk(Next(s, a), u)
    ensures Next(s, a).session.Some? ==> Next(s, a).session.value.cookie in s.seen
  {
    forall u | u in Next(s, a).jobs ensures JobOk(Next(s, a), u) { EndKeepsJob(s, a, u); }
    if Next(s, a).session.Some? { EndKeepsSession(s, a); }
  }

  lemma EndKeeps(s: Sys, a: Action)
    requires Inv(s) && Enabled(s, a) && a.End?
    ensures Inv(Next(s, a))
  {
    Q.FinishKeeps(s.queue, a.ticket);
    EndKeepsJobs(s, a);
    var s' := Next(s, a);
    assert s'.queue == Q.Finish(s.queue, a.ticket) && s'.retired == s.retired && s'.seen == s.seen;
  }

  lemma NextKeeps(s: Sys, a: Action)
    requires Inv(s) && Enabled(s, a)
    ensures Inv(Next(s, a))
  {
    match a
    case Arrive(_) => ArriveKeeps(s, a);
    case Begin(_, _) => BeginKeeps(s, a);
    case End(_, _) => EndKeeps(s, a);
    case DirectRevocation => forall t | t in s.jobs ensures JobOk(Next(s, a), t) { assert JobOk(s, t); }
    case _ => ClientKeeps(s, a);
  }

  lemma InitialInv(s: Sys)
    requires Initial(s)
    ensures Inv(s)
  {
    forall key ensures Q.Booked(s.queue, key) { assert Q.Pending(s.queue, key) == {}; }
  }

  // ---- in clean runs a replaced cookie is never spent again ----

  /** A client that can rotate its cookie: at work, or left over and armed. */
  predicate Live(s: Sys, t: nat) { HasClient(s, t) && (s.jobs[t].Working? || Armed(s.jobs[t].client)) }

  /** Only what is live reaches the refresh endpoint. */
  lemma SenderIsLive(s: Sys, a: Action)
    requires Enabled(s, a) && Sent(s, a).Some?
    ensures Live(s, a.ticket) && Sent(s, a).value == s.jobs[a.ticket].client.cookie
  {
  }

  /**
   * There is at most one live client and its cookie has not been replaced; one left over is live only when the grant is
   * revoked; and without a live client the stored cookie has not been replaced.
   */
  ghost predicate Unspent(s: Sys) {
    && (forall t, u | Live(s, t) && Live(s, u) :: t == u)
    && (forall t | Live(s, t) :: s.jobs[t].client.cookie !in s.retired && (s.jobs[t].Orphaned? ==> s.session.None?))
    && ((forall t :: !Live(s, t)) && s.session.Some? ==> s.session.value.cookie !in s.retired)
  }

  lemma CleanKeepsUnspent(s: Sys, a: Action)
    requires Inv(s) && Unspent(s) && Enabled(s, a) && Clean(s, a)
    ensures Unspent(Next(s, a))
  {
    match a
    case End(_, _) => EndKeepsUnspent(s, a);
    case Begin(_, _) => BeginKeepsUnspent(s, a);
    case Arrive(_) => ArriveKeepsUnspent(s, a);
    case DirectRevocation => forall u ensures Live(Next(s, a), u) <==> Live(s, u) {}
    case _ => ClientKeepsUnspent(s, a);
  }

  /** A client that is not armed becomes so only by a new fetch, and replaces nothing. */
  lemma StaysDisarmed(c: Client, a: Action)
    requires IsClientAction(a) && !a.Fetch? && Allows(c, a) && !Armed(c)
    ensures !Armed(ClientAfter(c, a)) && RetiredBy(c, a) == {}
  {
  }

  /** One client's job and the record of cookies may have changed, nothing else; the client has not become live. */
  ghost predicate Local(s: Sys, s': Sys, t: nat) {
    && s'.queue == s.queue && s'.session == s.session && s'.jobs.Keys == s.jobs.Keys && HasClient(s, t) && HasClient(s', t)
    && (s'.jobs[t].Working? <==> s.jobs[t].Working?) && (forall u | u in s.jobs && u != t :: s'.jobs[u] == s.jobs[u])
    && (!Live(s, t) ==> !Live(s', t) && s'.retired == s.retired)
  }

  lemma WithClientIsLocal(s: Sys, t: nat, d: Client, retired: set<string>, seen: set<string>)
    requires HasClient(s, t) && (!Live(s, t) ==> !Armed(d) && retired == s.retired)
    ensures Local(s, WithClient(s, t, d).(retired := retired, seen := seen), t)
  {
  }

  lemma ClientStepIsLocal(s: Sys, a: Action)
    requires Enabled(s, a) && IsClientAction(a)
    ensures Local(s, Next(s, a), a.ticket)
  {
    var t, c := a.ticket, s.jobs[a.ticket].client;
    if !Live(s, t) { StaysDisarmed(c, a); }
    WithClientIsLocal(s, t, ClientAfter(c, a), s.retired + RetiredBy(c, a), s.seen + IssuedBy(a));
    assert Next(s, a) == ClientSteps(s, a);
  }

  lemma NewCookieIsNew(s: Sys, a: Action)
    requires Enabled(s, a) && IsClientAction(a) && s.retired <= s.seen
    requires s.jobs[a.ticket].client.cookie in s.seen && s.jobs[a.ticket].client.cookie !in s.retired
    ensures Next(s, a).jobs[a.ticket].client.cookie !in Next(s, a).retired
  {
    NewClientIsNew(s.jobs[a.ticket].client, a, s.retired, s.seen);
  }

  lemma NewClientIsNew(c: Client, a: Action, retired: set<string>, seen: set<string>)
    requires IsClientAction(a) && Allows(c, a) && IssuedBy(a) !! seen && retired <= seen && c.cookie in seen && c.cookie !in retired
    ensures ClientAfter(c, a).cookie !in retired + RetiredBy(c, a)
  {
  }

  lemma ClientKeepsUnspent(s: Sys, a: Action)
    requires Inv(s) && Unspent(s) && Enabled(s, a) && IsClientAction(a)
    ensures Unspent(Next(s, a))
  {
    assert JobOk(s, a.ticket);
    ClientStepIsLocal(s, a);
    if Live(s, a.ticket) { NewCookieIsNew(s, a); }
    LocalUnspent(s, Next(s, a), a.ticket);
  }

  lemma LocalUnspent(s: Sys, s': Sys, t: nat)
    requires Unspent(s) && Local(s, s', t) && (Live(s, t) ==> s'.jobs[t].client.cookie !in s'.retired)
    ensures Unspent(s')
  {
    forall u | Live(s', u) ensures Live(s, u) {}
    if !Live(s, t) {
      forall u | Live(s, u) ensures Live(s', u) {}
    } else {
      forall u | Live(s', u) ensures u == t {}
    }
  }

  lemma EndKeepsUnspent(s: Sys, a: Action)
    requires Inv(s) && Unspent(s) && Enabled(s, a) && a.End? && Clean(s, a)
    ensures Unspent(Next(s, a))
  {
    if a.ticket in s.jobs { assert JobOk(s, a.ticket); }
    EndStepUnspent(s, a);
  }

  lemma EndStepUnspent(s: Sys, a: Action)
    requires Unspent(s) && Enabled(s, a) && a.End? && Clean(s, a)
    ensures Unspent(Next(s, a))
  {
    var t, s' := a.ticket, Next(s, a);
    forall u | Live(s', u) ensures Live(s, u) {}
    if t in s.jobs && s.jobs[t].Working? {
      var c := s.jobs[t].client;
      assert Live(s, t);
      assert s'.jobs == if IsOpen(c) then s.jobs[t := Orphaned(c)] else s.jobs - {t};
      forall u | Live(s', u) ensures s'.jobs[u] == Orphaned(c) && s'.session.None? { assert u == t; }
      assert s'.session.Some? ==> s'.session.value.cookie == c.cookie;
    } else {
      assert s'.jobs == s.jobs && s'.session == s.session;
      forall u | Live(s, u) ensures Live(s', u) {}
    }
  }

  lemma BeginKeepsUnspent(s: Sys, a: Action)
    requires Inv(s) && Unspent(s) && Enabled(s, a) && a.Begin?
    ensures Unspent(Next(s, a))
  {
    var t, s' := a.ticket, Next(s, a);
    Q.StartKeeps(s.queue, t);
    assert JobOk(s, t);
    forall u | u in s.jobs ensures !s.jobs[u].Working? {
      assert JobOk(s, u);
      if u in s.queue.calls { assert u in Q.Pending(s.queue, KEY); }
    }
    BeginStepUnspent(s, a);
  }

  lemma BeginStepUnspent(s: Sys, a: Action)
    requires Unspent(s) && Enabled(s, a) && a.Begin? && forall u | u in s.jobs :: !s.jobs[u].Working?
    ensures Unspent(Next(s, a))
  {
    var t, s' := a.ticket, Next(s, a);
    if s.session.Some? {
      forall u ensures !Live(s, u) { assert Live(s, u) ==> s.session.None?; }
    }
    forall u | u in s'.jobs && u != t ensures u in s.jobs && s'.jobs[u] == s.jobs[u] {}
    forall u | u != t ensures Live(s', u) <==> Live(s, u) {}
  }

  lemma NewTicket(s: Sys)
    requires Inv(s)
    ensures s.queue.next !in s.jobs
  {
    forall t | t in s.jobs ensures t < s.queue.next {
      assert JobOk(s, t);
      if t in s.queue.calls { assert Q.Queued(s.queue, t); }
    }
  }

  /** A call that waits is not live. */
  lemma OneMoreWaits(s: Sys, s': Sys, t: nat, kind: Kind)
    requires Unspent(s) && t !in s.jobs && s'.jobs == s.jobs[t := Waiting(kind)] && s'.session == s.session && s'.retired == s.retired
    ensures Unspent(s')
  {
    forall u ensures Live(s', u) <==> Live(s, u) {}
  }

  lemma ArriveKeepsUnspent(s: Sys, a: Action)
    requires Inv(s) && Unspent(s) && a.Arrive?
    ensures Unspent(Next(s, a))
  {
    NewTicket(s);
    if Next(s, a) != s { OneMoreWaits(s, Next(s, a), s.queue.next, a.kind); }
  }

  lemma {:induction false} CleanRunKeeps(states: seq<Sys>, actions: seq<Action>, n: nat)
    requires Run(states, actions) && n < |states|
    requires forall i | 0 <= i < n :: Clean(states[i], actions[i])
    ensures Inv(states[n]) && Unspent(states[n])
  {
    if n == 0 {
      InitialInv(states[0]);
    } else {
      CleanRunKeeps(states, actions, n - 1);
      NextKeeps(states[n - 1], actions[n - 1]);
      CleanKeepsUnspent(states[n - 1], actions[n - 1]);
    }
  }

  /** While every action so far has ended cleanly, no cookie whose successor a client has stored reaches the refresh endpoint. */
  lemma ReplacedCookieNeverSent(states: seq<Sys>, actions: seq<Action>, n: nat)
    requires Run(states, actions) && n < |actions|
    requires forall i | 0 <= i < n :: Clean(states[i], actions[i])
    ensures Sent(states[n], actions[n]).Some? ==> Sent(states[n], actions[n]).value !in states[n].retired
  {
    CleanRunKeeps(states, actions, n);
  }

  // ---- and only then: an unclean end lets a replaced cookie be spent ----

  /** The last of the steps sends a replaced cookie. */
  ghost predicate SendsReplaced(states: seq<Sys>, actions: seq<Action>)
    requires Steps(states, actions) && actions != []
  {
    var last := |actions| - 1;
    Sent(states[last], actions[last]).Some? && Sent(states[last], actions[last]).value in states[last].retired
  }

  /** From s, steps that all end cleanly, if they end an action, lead to one that sends this replaced cookie. */
  ghost predicate Spends(s: Sys, states: seq<Sys>, actions: seq<Action>, cookie: string) {
    && Steps(states, actions) && states[0] == s && actions != [] && SendsReplaced(states, actions)
    && Sent(states[|actions| - 1], actions[|actions| - 1]) == Some(cookie)
    && forall i | 0 <= i < |actions| :: Clean(states[i], actions[i])
  }

  ghost predicate MayRelapse(s: Sys) { exists states, actions, cookie :: Spends(s, states, actions, cookie) }

  /** From s no steps at all, clean or not, lead to one that sends a replaced cookie. */
  ghost predicate NeverSpends(s: Sys) {
    forall states, actions | Steps(states, actions) && states[0] == s && actions != [] :: !SendsReplaced(states, actions)
  }

  lemma Prefixed(s: Sys, a: Action, states: seq<Sys>, actions: seq<Action>, cookie: string)
    requires Enabled(s, a) && Clean(s, a) && Spends(Next(s, a), states, actions, cookie)
    ensures Spends(s, [s] + states, [a] + actions, cookie)
  {
    var states', actions' := [s] + states, [a] + actions;
    forall i | 0 <= i < |actions'|
      ensures Enabled(states'[i], actions'[i]) && states'[i + 1] == Next(states'[i], actions'[i]) && Clean(states'[i], actions'[i])
    {
      if i > 0 { assert Enabled(states[i - 1], actions[i - 1]) && states[i] == Next(states[i - 1], actions[i - 1]); }
    }
  }

  /** In clean runs it never comes to that. */
  lemma {:induction false} UnspentForGood(states: seq<Sys>, actions: seq<Action>, n: nat)
    requires Steps(states, actions) && n < |states| && Inv(states[0]) && Unspent(states[0])
    requires forall i | 0 <= i < n :: Clean(states[i], actions[i])
    ensures Inv(states[n]) && Unspent(states[n])
  {
    if n > 0 {
      UnspentForGood(states, actions, n - 1);
      NextKeeps(states[n - 1], actions[n - 1]);
      CleanKeepsUnspent(states[n - 1], actions[n - 1]);
    }
  }

  lemma UnspentNeverRelapses(s: Sys)
    requires Inv(s) && Unspent(s)
    ensures !MayRelapse(s)
  {
    forall states, actions, cookie ensures !Spends(s, states, actions, cookie) {
      if Spends(s, states, actions, cookie) {
        var last := |actions| - 1;
        UnspentForGood(states, actions, last);
        SenderIsLive(states[last], actions[last]);
        assert false;
      }
    }
  }

  /** Every call that waits has its job waiting. */
  ghost predicate AllWait(s: Sys) {
    forall t | t in s.queue.calls && !s.queue.calls[t].running :: t in s.jobs && s.jobs[t].Waiting?
  }

  lemma BeginKeepsWaiting(s: Sys, a: Action)
    requires AllWait(s) && Enabled(s, a) && a.Begin?
    ensures AllWait(Next(s, a))
  {
    var s' := Next(s, a);
    forall t | t in s'.queue.calls && !s'.queue.calls[t].running ensures t in s'.jobs && s'.jobs[t].Waiting? {
      assert t != a.ticket && t in s.queue.calls && s.queue.calls[t] == s'.queue.calls[t];
      assert t in s.jobs && s.jobs[t].Waiting?;
    }
  }

  lemma EndKeepsWaiting(s: Sys, a: Action)
    requires AllWait(s) && Enabled(s, a) && a.End?
    ensures AllWait(Next(s, a))
  {
    var s' := Next(s, a);
    forall t | t in s'.queue.calls && !s'.queue.calls[t].running ensures t in s'.jobs && s'.jobs[t].Waiting? {
      assert t != a.ticket && t in s.queue.calls && s.queue.calls[t] == s'.queue.calls[t];
      assert t in s.jobs && s.jobs[t].Waiting? && s'.jobs[t] == s.jobs[t];
    }
  }

  lemma LocalWaiting(s: Sys, s': Sys, t: nat)
    requires AllWait(s) && Local(s, s', t)
    ensures AllWait(s')
  {
    forall u | u in s'.queue.calls && !s'.queue.calls[u].running ensures u in s'.jobs && s'.jobs[u].Waiting? {
      assert u in s.jobs && s.jobs[u].Waiting?;
    }
  }

  lemma NextKeepsWaiting(s: Sys, a: Action)
    requires Inv(s) && AllWait(s) && Enabled(s, a)
    ensures AllWait(Next(s, a))
  {
    match a
    case Arrive(_) =>
    case DirectRevocation =>
    case Begin(_, _) => BeginKeepsWaiting(s, a);
    case End(_, _) => EndKeepsWaiting(s, a);
    case _ =>
      ClientStepIsLocal(s, a);
      LocalWaiting(s, Next(s, a), a.ticket);
  }

  ghost predicate Idle(s: Sys) { forall t | t in s.queue.calls :: !s.queue.calls[t].running }

  /** The next call to begin is a revocation by the user. */
  ghost predicate RevocationNext(s: Sys) {
    exists t :: t in s.jobs && s.jobs[t] == Waiting(UserRevocation) && Q.CanStart(s.queue, t)
  }

  /** The next call opens its client and meets an expired access token. */
  function NextCall(t: nat, accessToken: string): seq<Action> {
    [Begin(t, true), Fetch(t), Unauthorized(t, accessToken)]
  }

  lemma WorkingSpends(s: Sys, t: nat, token: string, cookie: string)
    requires t in s.jobs && s.jobs[t] == Working(Client(token, cookie, multiset{}, 0, 0, false)) && cookie in s.retired
    ensures Enabled(s, Fetch(t)) && Enabled(Next(s, Fetch(t)), Unauthorized(t, token))
    ensures Spends(s, [s] + [Next(s, Fetch(t)), Next(Next(s, Fetch(t)), Unauthorized(t, token))], [Fetch(t)] + [Unauthorized(t, token)], cookie)
  {
    var s1 := Next(s, Fetch(t));
    assert s1.jobs[t] == Working(Client(token, cookie, multiset{token}, 0, 0, false));
    var s2 := Next(s1, Unauthorized(t, token));
    assert Spends(s1, [s1, s2], [Unauthorized(t, token)], cookie);
    Prefixed(s, Fetch(t), [s1, s2], [Unauthorized(t, token)], cookie);
  }

  lemma WorkerRelapses(s: Sys, t: nat) returns (states: seq<Sys>)
    requires s.session.Some? && s.session.value.cookie in s.retired
    requires Enabled(s, Begin(t, true)) && !s.jobs[t].kind.UserRevocation?
    ensures Spends(s, states, NextCall(t, s.session.value.accessToken), s.session.value.cookie)
  {
    var token, cookie := s.session.value.accessToken, s.session.value.cookie;
    var s1 := Next(s, Begin(t, true));
    WorkingSpends(s1, t, token, cookie);
    states := [s1] + [Next(s1, Fetch(t)), Next(Next(s1, Fetch(t)), Unauthorized(t, token))];
    Prefixed(s, Begin(t, true), states, [Fetch(t)] + [Unauthorized(t, token)], cookie);
    states := [s] + states;
    assert [Begin(t, true)] + ([Fetch(t)] + [Unauthorized(t, token)]) == NextCall(t, token);
  }

  /** If no call waits, one has to arrive first. */
  ghost function NextCalls(s: Sys, t: nat, accessToken: string): seq<Action> {
    (if Q.Pending(s.queue, KEY) == {} then [Arrive(McpRequest)] else []) + NextCall(t, accessToken)
  }

  /**
   * A stored cookie that was replaced is spent by the next call at its first expired access token, unless that call revokes
   * the grant.
   */
  lemma StoredReplacedRelapses(s: Sys) returns (t: nat, states: seq<Sys>)
    requires Inv(s) && AllWait(s) && Idle(s) && !RevocationNext(s)
    requires s.session.Some? && s.session.value.cookie in s.retired
    ensures Spends(s, states, NextCalls(s, t, s.session.value.accessToken), s.session.value.cookie)
  {
    var token := s.session.value.accessToken;
    if Q.Pending(s.queue, KEY) == {} {
      assert Q.Booked(s.queue, KEY);
      var s1 := Next(s, Arrive(McpRequest));
      t := s.queue.next;
      states := WorkerRelapses(s1, t);
      Prefixed(s, Arrive(McpRequest), states, NextCall(t, token), s.session.value.cookie);
      states := [s] + states;
    } else {
      t := Q.OldestCall(s.queue, KEY);
      states := WorkerRelapses(s, t);
      assert NextCalls(s, t, token) == NextCall(t, token);
    }
  }

  lemma {:induction false} LongestIsFresh(seen: set<string>) returns (n: nat)
    ensures forall c | c in seen :: |c| < n
    decreases |seen|
  {
    n := 0;
    if seen != {} {
      var c :| c in seen;
      n := LongestIsFresh(seen - {c});
      if n <= |c| { n := |c| + 1; }
    }
  }

  /** An armed client left over that holds the stored cookie. */
  ghost predicate HeldBy(s: Sys, o: nat) {
    && s.session.Some? && o in s.jobs && s.jobs[o].Orphaned? && Armed(s.jobs[o].client)
    && s.jobs[o].client.cookie == s.session.value.cookie
  }

  ghost predicate NextIsOpen(s: Sys) { Inv(s) && AllWait(s) && Idle(s) && !RevocationNext(s) }

  lemma StaysOpen(s: Sys, a: Action)
    requires NextIsOpen(s) && Enabled(s, a) && IsClientAction(a)
    ensures NextIsOpen(Next(s, a)) && Next(s, a).queue == s.queue && Next(s, a).session == s.session
  {
    NextKeeps(s, a);
    NextKeepsWaiting(s, a);
    ClientStepIsLocal(s, a);
    SameRevocationNext(s, Next(s, a));
  }

  /** The refresh in flight answers with a new cookie. */
  lemma Rotates(s: Sys, o: nat) returns (rotation: Action)
    requires HeldBy(s, o) && s.jobs[o].client.refreshing
    ensures rotation.RefreshOk? && rotation.ticket == o && rotation.setCookie.Some? && Enabled(s, rotation)
    ensures s.session.value.cookie in Next(s, rotation).retired
  {
    var n := LongestIsFresh(s.seen);
    var unused := seq(n, _ => 'c');
    rotation := RefreshOk(o, "a", Some(unused));
    assert IssuedBy(rotation) == {unused} && RetiredBy(s.jobs[o].client, rotation) == {s.session.value.cookie};
  }

  lemma RotationRelapses(s: Sys, o: nat) returns (t: nat, states: seq<Sys>, rotation: Action)
    requires NextIsOpen(s) && HeldBy(s, o) && s.jobs[o].client.refreshing
    ensures rotation.RefreshOk? && rotation.ticket == o && rotation.setCookie.Some?
    ensures Spends(s, states, [rotation] + NextCalls(s, t, s.session.value.accessToken), s.session.value.cookie)
  {
    rotation := Rotates(s, o);
    StaysOpen(s, rotation);
    t, states := StoredReplacedRelapses(Next(s, rotation));
    Prefixed(s, rotation, states, NextCalls(s, t, s.session.value.accessToken), s.session.value.cookie);
    states := [s] + states;
  }

  lemma Asks(s: Sys, o: nat) returns (ask: Action)
    requires HeldBy(s, o) && !s.jobs[o].client.refreshing
    ensures ask == Unauthorized(o, s.jobs[o].client.accessToken) && Enabled(s, ask)
    ensures HeldBy(Next(s, ask), o) && Next(s, ask).jobs[o].client.refreshing
  {
    ask := Unauthorized(o, s.jobs[o].client.accessToken);
    assert Next(s, ask).jobs[o] == Orphaned(Refused(s.jobs[o].client, ask.attempted));
  }

  /**
   * A stored cookie that an armed client left over still holds: this client rotates it, and the next call spends it, unless
   * that revokes the grant.
   */
  lemma OrphanRelapses(s: Sys, o: nat) returns (t: nat, states: seq<Sys>, rotation: Action)
    requires NextIsOpen(s) && HeldBy(s, o)
    ensures rotation.RefreshOk? && rotation.ticket == o && rotation.setCookie.Some?
    ensures var asks := if s.jobs[o].client.refreshing then [] else [Unauthorized(o, s.jobs[o].client.accessToken)];
            Spends(s, states, asks + ([rotation] + NextCalls(s, t, s.session.value.accessToken)), s.session.value.cookie)
  {
    if s.jobs[o].client.refreshing {
      t, states, rotation := RotationRelapses(s, o);
      var rest := [rotation] + NextCalls(s, t, s.session.value.accessToken);
      assert [] + rest == rest;
    } else {
      var ask := Asks(s, o);
      StaysOpen(s, ask);
      t, states, rotation := RotationRelapses(Next(s, ask), o);
      Prefixed(s, ask, states, [rotation] + NextCalls(s, t, s.session.value.accessToken), s.session.value.cookie);
      states := [s] + states;
    }
  }

  lemma SameRevocationNext(s: Sys, s': Sys)
    requires s'.queue == s.queue && forall t | t in s'.jobs && s'.jobs[t].Waiting? :: t in s.jobs && s.jobs[t] == s'.jobs[t]
    ensures RevocationNext(s') ==> RevocationNext(s)
  {
  }

  // ---- a revocation that is next prevents it ----

  /** No client works, one at most is live, with a cookie not replaced, and a stored session is about to be revoked. */
  ghost predicate Closing(s: Sys) {
    && (forall t | t in s.jobs :: !s.jobs[t].Working?)
    && (forall t, u | Live(s, t) && Live(s, u) :: t == u)
    && (forall t | Live(s, t) :: s.jobs[t].client.cookie !in s.retired)
    && (s.session.Some? ==> RevocationNext(s))
  }

  lemma ClientKeepsClosing(s: Sys, a: Action)
    requires Inv(s) && Closing(s) && Enabled(s, a) && IsClientAction(a)
    ensures Closing(Next(s, a))
  {
    assert JobOk(s, a.ticket);
    ClientStepIsLocal(s, a);
    if Live(s, a.ticket) { NewCookieIsNew(s, a); }
    LocalClosing(s, Next(s, a), a.ticket);
  }

  lemma LocalClosing(s: Sys, s': Sys, t: nat)
    requires Closing(s) && Local(s, s', t) && (Live(s, t) ==> s'.jobs[t].client.cookie !in s'.retired)
    ensures Closing(s')
  {
    forall u | Live(s', u) ensures Live(s, u) {}
    if s.session.Some? { RevocationStaysNext(s, s'); }
  }

  lemma RevocationStaysNext(s: Sys, s': Sys)
    requires RevocationNext(s) && s'.queue.released == s.queue.released
    requires forall t | t in s.queue.calls :: t in s'.queue.calls && s'.queue.calls[t] == s.queue.calls[t]
    requires forall t | t in s.jobs && s.jobs[t].Waiting? :: t in s'.jobs && s'.jobs[t] == s.jobs[t]
    ensures RevocationNext(s')
  {
    var t :| t in s.jobs && s.jobs[t] == Waiting(UserRevocation) && Q.CanStart(s.queue, t);
    assert s'.jobs[t] == Waiting(UserRevocation) && Q.CanStart(s'.queue, t);
  }

  lemma OneMoreCloses(s: Sys, s': Sys, t: nat, kind: Kind)
    requires Closing(s) && t !in s.jobs && s'.jobs == s.jobs[t := Waiting(kind)] && s'.session == s.session && s'.retired == s.retired
    requires RevocationNext(s) ==> RevocationNext(s')
    ensures Closing(s')
  {
    forall u ensures Live(s', u) <==> Live(s, u) {}
  }

  lemma ArriveKeepsRevocationNext(s: Sys, a: Action)
    requires Inv(s) && a.Arrive? && RevocationNext(s)
    ensures RevocationNext(Next(s, a))
  {
    NewTicket(s);
    var t :| t in s.jobs && s.jobs[t] == Waiting(UserRevocation) && Q.CanStart(s.queue, t);
    assert Q.Queued(s.queue, t);
    assert Next(s, a).jobs[t] == s.jobs[t] && Q.CanStart(Next(s, a).queue, t);
  }

  lemma ArriveKeepsClosing(s: Sys, a: Action)
    requires Inv(s) && Closing(s) && a.Arrive?
    ensures Closing(Next(s, a))
  {
    NewTicket(s);
    if RevocationNext(s) { ArriveKeepsRevocationNext(s, a); }
    if Next(s, a) != s { OneMoreCloses(s, Next(s, a), s.queue.next, a.kind); }
  }

  lemma BeginKeepsClosing(s: Sys, a: Action)
    requires Inv(s) && Closing(s) && a.Begin? && Enabled(s, a)
    ensures Closing(Next(s, a))
  {
    var s' := Next(s, a);
    assert JobOk(s, a.ticket);
    if s.session.Some? {
      var r :| r in s.jobs && s.jobs[r] == Waiting(UserRevocation) && Q.CanStart(s.queue, r);
      Q.StartKeeps(s.queue, r);
      Q.StartKeeps(s.queue, a.ticket);
      assert JobOk(s, r);
      assert r in Q.Pending(s.queue, KEY) && a.ticket in Q.Pending(s.queue, KEY);
      assert a.ticket == r;
    }
    forall u | Live(s', u) ensures Live(s, u) {}
  }

  lemma NothingRuns(s: Sys, t: nat)
    requires Inv(s) && Closing(s) && s.session.Some? && t in s.queue.calls
    ensures !s.queue.calls[t].running
  {
    var r :| r in s.jobs && s.jobs[r] == Waiting(UserRevocation) && Q.CanStart(s.queue, r);
    Q.StartKeeps(s.queue, r);
    assert JobOk(s, r);
    assert t in Q.Pending(s.queue, KEY);
  }

  lemma RunningHasNoJob(s: Sys, t: nat)
    requires Inv(s) && Closing(s) && t in s.queue.calls && s.queue.calls[t].running
    ensures t !in s.jobs
  {
    assert forall u | u in s.jobs :: JobOk(s, u) && !s.jobs[u].Working?;
  }

  lemma EndKeepsClosing(s: Sys, a: Action)
    requires Inv(s) && Closing(s) && a.End? && Enabled(s, a)
    ensures Closing(Next(s, a))
  {
    if s.session.Some? {
      NothingRuns(s, a.ticket);
    } else {
      assert s.jobs - {a.ticket} == s.jobs by { RunningHasNoJob(s, a.ticket); }
      forall u | Live(Next(s, a), u) ensures Live(s, u) {}
    }
  }

  lemma RevokedKeepsClosing(s: Sys, a: Action)
    requires Inv(s) && Closing(s) && a.DirectRevocation?
    ensures Closing(Next(s, a))
  {
    forall u | Live(Next(s, a), u) ensures Live(s, u) {}
  }

  lemma NextKeepsClosing(s: Sys, a: Action)
    requires Inv(s) && Closing(s) && Enabled(s, a)
    ensures Closing(Next(s, a))
  {
    if IsClientAction(a) { ClientKeepsClosing(s, a); }
    else if a.Arrive? { ArriveKeepsClosing(s, a); }
    else if a.Begin? { BeginKeepsClosing(s, a); }
    else if a.End? { EndKeepsClosing(s, a); }
    else { RevokedKeepsClosing(s, a); }
  }

  lemma {:induction false} ClosingForGood(states: seq<Sys>, actions: seq<Action>, n: nat)
    requires Steps(states, actions) && n < |states| && Inv(states[0]) && Closing(states[0])
    ensures Inv(states[n]) && Closing(states[n])
  {
    if n > 0 {
      ClosingForGood(states, actions, n - 1);
      NextKeeps(states[n - 1], actions[n - 1]);
      NextKeepsClosing(states[n - 1], actions[n - 1]);
    }
  }

  lemma ClosingNeverSpends(s: Sys)
    requires Inv(s) && Closing(s)
    ensures NeverSpends(s) && !MayRelapse(s)
  {
    forall states, actions | Steps(states, actions) && states[0] == s && actions != [] ensures !SendsReplaced(states, actions) {
      var last := |actions| - 1;
      ClosingForGood(states, actions, last);
      if Sent(states[last], actions[last]).Some? { SenderIsLive(states[last], actions[last]); }
    }
  }

  lemma {:induction false} RunWaits(states: seq<Sys>, actions: seq<Action>, n: nat)
    requires Run(states, actions) && n < |states|
    ensures Inv(states[n]) && AllWait(states[n])
  {
    if n == 0 {
      InitialInv(states[0]);
    } else {
      RunWaits(states, actions, n - 1);
      NextKeeps(states[n - 1], actions[n - 1]);
      NextKeepsWaiting(states[n - 1], actions[n - 1]);
    }
  }

  /** After the last of the running call nothing runs. */
  lemma EndLeavesIdle(s: Sys, a: Action)
    requires Inv(s) && a.End? && Enabled(s, a)
    ensures Idle(Next(s, a))
  {
    forall t | t in s.queue.calls && s.queue.calls[t].running ensures t == a.ticket {
      assert Q.Queued(s.queue, t) && Q.Queued(s.queue, a.ticket);
      assert t in Q.Pending(s.queue, KEY) && a.ticket in Q.Pending(s.queue, KEY);
    }
  }

  lemma UncleanEndCloses(s: Sys, a: Action)
    requires Inv(s) && Unspent(s) && a.End? && Enabled(s, a) && !Clean(s, a) && RevocationNext(Next(s, a))
    ensures Closing(Next(s, a))
  {
    var t, s' := a.ticket, Next(s, a);
    assert JobOk(s, t) && Live(s, t);
    forall u | u in s'.jobs ensures !s'.jobs[u].Working? {
      if s.jobs[u].Working? { OneWorker(s, t, u); }
    }
    forall u | Live(s', u) ensures Live(s, u) {}
  }

  /** What an unclean end leaves: the stored cookie is replaced already, or an armed client still holds it. */
  lemma UncleanEndLeaves(s: Sys, a: Action)
    requires Inv(s) && Unspent(s) && a.End? && Enabled(s, a) && !Clean(s, a)
    ensures Next(s, a).session.Some?
    ensures Next(s, a).session.value.cookie in Next(s, a).retired || HeldBy(Next(s, a), a.ticket)
  {
    assert JobOk(s, a.ticket);
  }

  lemma OpenRelapses(s: Sys, o: nat)
    requires NextIsOpen(s) && s.session.Some? && (s.session.value.cookie in s.retired || HeldBy(s, o))
    ensures MayRelapse(s)
  {
    if s.session.value.cookie in s.retired {
      var t, states := StoredReplacedRelapses(s);
    } else {
      var t, states, rotation := OrphanRelapses(s, o);
    }
  }

  lemma UncleanEndMayRelapse(s: Sys, a: Action)
    requires Inv(s) && Unspent(s) && a.End? && Enabled(s, a) && !Clean(s, a) && Inv(Next(s, a)) && AllWait(Next(s, a))
    ensures MayRelapse(Next(s, a)) <==> !RevocationNext(Next(s, a))
    ensures RevocationNext(Next(s, a)) ==> NeverSpends(Next(s, a))
  {
    if RevocationNext(Next(s, a)) {
      UncleanEndCloses(s, a);
      ClosingNeverSpends(Next(s, a));
    } else {
      EndLeavesIdle(s, a);
      UncleanEndLeaves(s, a);
      OpenRelapses(Next(s, a), a.ticket);
    }
  }

  /**
   * After an action that ends in a run so far clean, steps that are clean again can spend a replaced cookie exactly when
   * that end was not clean and the next call in the queue, if any, is not a revocation by the user. If it is one, no steps
   * at all can.
   */
  lemma UncleanEndRelapses(states: seq<Sys>, actions: seq<Action>, n: nat)
    requires Run(states, actions) && n < |actions| && actions[n].End?
    requires forall i | 0 <= i < n :: Clean(states[i], actions[i])
    ensures MayRelapse(states[n + 1]) <==> !Clean(states[n], actions[n]) && !RevocationNext(states[n + 1])
    ensures !Clean(states[n], actions[n]) && RevocationNext(states[n + 1]) ==> NeverSpends(states[n + 1])
  {
    CleanRunKeeps(states, actions, n);
    if Clean(states[n], actions[n]) {
      CleanRunKeeps(states, actions, n + 1);
      UnspentNeverRelapses(states[n + 1]);
    } else {
      RunWaits(states, actions, n + 1);
      UncleanEndMayRelapse(states[n], actions[n]);
    }
  }

  lemma RunGoesOn(states: seq<Sys>, actions: seq<Action>, a: Action)
    requires Run(states, actions) && Enabled(states[|actions|], a)
    ensures Run(states + [Next(states[|actions|], a)], actions + [a])
  {
    var ss, acts := states + [Next(states[|actions|], a)], actions + [a];
    forall i | 0 <= i < |acts| ensures Enabled(ss[i], acts[i]) && ss[i + 1] == Next(ss[i], acts[i]) {
      if i < |actions| { assert ss[i] == states[i] && ss[i + 1] == states[i + 1] && acts[i] == actions[i]; }
    }
  }

  lemma FirstArrives(s: Sys, kind: Kind)
    requires s.queue == Q.EMPTY && s.jobs == map[]
    ensures var n := Next(s, Arrive(kind));
            n.jobs == map[0 := Waiting(kind)] && n.session == s.session && n.queue.calls == map[0 := Q.Call(KEY, None, false)]
  {
  }

  lemma FirstBegins(s: Sys)
    requires s.jobs == map[0 := Waiting(McpRequest)] && s.session.Some? && s.queue.calls == map[0 := Q.Call(KEY, None, false)]
    ensures Enabled(s, Begin(0, true))
    ensures var n := Next(s, Begin(0, true));
            && n.jobs == map[0 := Working(Client(s.session.value.accessToken, s.session.value.cookie, multiset{}, 0, 0, false))]
            && n.session == s.session && n.queue.calls == map[0 := Q.Call(KEY, None, true)]
  {
  }

  /** It happens: a request ends while a fetch of it is in flight. */
  lemma UncleanEndHappens(start: Sys) returns (states: seq<Sys>, actions: seq<Action>)
    requires Initial(start) && start.session.Some?
    ensures Run(states, actions) && actions != [] && states[0] == start
    ensures var last := |actions| - 1;
            (forall i | 0 <= i < last :: Clean(states[i], actions[i])) && !Clean(states[last], actions[last]) && MayRelapse(states[last + 1])
  {
    var s1 := Next(start, Arrive(McpRequest));
    FirstArrives(start, McpRequest);
    RunGoesOn([start], [], Arrive(McpRequest));
    FirstBegins(s1);
    RunGoesOn([start, s1], [Arrive(McpRequest)], Begin(0, true));
    states, actions := [start, s1, Next(s1, Begin(0, true))], [Arrive(McpRequest), Begin(0, true)];
    assert [start, s1] + [Next(s1, Begin(0, true))] == states && [Arrive(McpRequest)] + [Begin(0, true)] == actions;
    states, actions := FetchAndEnd(states, actions);
  }

  lemma HasInitial()
    ensures Initial(Sys(Q.EMPTY, map[], Some(Stored("a", "c")), {}, {"c"}))
  {
  }

  lemma FetchAndEnd(states: seq<Sys>, actions: seq<Action>) returns (ss: seq<Sys>, acts: seq<Action>)
    requires Run(states, actions) && |actions| == 2 && !actions[0].End? && !actions[1].End?
    requires 0 in states[2].jobs && states[2].jobs.Keys == {0} && states[2].jobs[0].Working? && states[2].jobs[0].client.tries == multiset{}
    requires states[2].session.Some? && 0 in states[2].queue.calls && states[2].queue.calls[0].running
    ensures Run(ss, acts) && |acts| == 4 && ss[0] == states[0]
    ensures !Clean(ss[3], acts[3]) && MayRelapse(ss[4]) && forall i | 0 <= i < 3 :: Clean(ss[i], acts[i])
  {
    var s3 := Next(states[2], Fetch(0));
    RunGoesOn(states, actions, Fetch(0));
    RunGoesOn(states + [s3], actions + [Fetch(0)], End(0, false));
    ss, acts := states + [s3] + [Next(s3, End(0, false))], actions + [Fetch(0)] + [End(0, false)];
    OneUncleanEnd(ss, acts);
  }

  lemma OneUncleanEnd(states: seq<Sys>, actions: seq<Action>)
    requires Run(states, actions) && |actions| == 4 && forall i | 0 <= i < 3 :: !actions[i].End?
    requires actions[3].End? && !Clean(states[3], actions[3])
    requires forall t | t in states[4].jobs :: !states[4].jobs[t].Waiting?
    ensures forall i | 0 <= i < 3 :: Clean(states[i], actions[i])
    ensures MayRelapse(states[4])
  {
    UncleanEndRelapses(states, actions, 3);
  }
}
