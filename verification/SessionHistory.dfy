/** What every step does to the stored session and to a client, step by step and over whole runs. */
module SessionHistory {
  import opened Wrappers
  import opened SessionProtocol
  import Q = GrantQueue
  import RA = RemoteAuth

  // ---- the stored session ----

  ghost predicate Plain(s: string) { forall c | c in s :: c != '\r' && c != '\n' && c != '\0' }

  /** What can be kept: 16384 characters of token, and 8192 of cookie with its name and equals sign. */
  ghost predicate CanBeKept(accessToken: string, cookie: string) {
    1 <= |accessToken| <= 16_384 && 1 <= |cookie| <= 8_178 && Plain(accessToken) && Plain(cookie)
  }

  lemma StorableMeaning(accessToken: string, cookie: string)
    ensures Storable(accessToken, cookie) <==> CanBeKept(accessToken, cookie)
  {
    var whole := "refresh_token=" + cookie;
    assert |whole| == 14 + |cookie|;
    assert forall c :: c in accessToken + whole <==> c in accessToken || c in whole;
    forall c ensures c in whole <==> c in "refresh_token=" || c in cookie {}
    assert forall c | c in "refresh_token=" :: c != '\r' && c != '\n' && c != '\0';
    if Storable(accessToken, cookie) {
      forall c | c in cookie ensures c != '\r' && c != '\n' && c != '\0' { assert c in accessToken + whole; }
      forall c | c in accessToken ensures c != '\r' && c != '\n' && c != '\0' { assert c in accessToken + whole; }
    }
  }

  /** The step revokes the grant: outright, by the user's call, or at the end of an action whose login had lapsed. */
  predicate Revokes(s: Sys, a: Action)
    requires Enabled(s, a)
  {
    || a.DirectRevocation?
    || (a.Begin? && s.jobs[a.ticket].kind == UserRevocation)
    || (a.End? && a.revoke && a.ticket in s.jobs && s.jobs[a.ticket].Working?)
  }

  /** The step ends an action of a live grant and writes its client's session back. */
  ghost predicate WritesBack(s: Sys, a: Action)
    requires Enabled(s, a)
  {
    && a.End? && !a.revoke && a.ticket in s.jobs && s.jobs[a.ticket].Working? && s.session.Some?
    && CanBeKept(s.jobs[a.ticket].client.accessToken, s.jobs[a.ticket].client.cookie)
  }

  /** A revocation leaves no session, an action that ends leaves its client's if that can be kept, and nothing else touches it. */
  lemma SessionAfter(s: Sys, a: Action)
    requires Enabled(s, a)
    ensures Next(s, a).session ==
      if Revokes(s, a) then None
      else if WritesBack(s, a) then Some(Stored(s.jobs[a.ticket].client.accessToken, s.jobs[a.ticket].client.cookie))
      else s.session
  {
    if a.End? && a.ticket in s.jobs && s.jobs[a.ticket].Working? {
      StorableMeaning(s.jobs[a.ticket].client.accessToken, s.jobs[a.ticket].client.cookie);
    }
  }

  /** A call begins with a client only on a live grant, and then with the very session that is stored. */
  lemma OpeningMeans(s: Sys, a: Action)
    requires Enabled(s, a) && a.Begin?
    ensures var t, s' := a.ticket, Next(s, a);
      && (t in s'.jobs <==> s.jobs[t].kind != UserRevocation && s.session.Some? && a.opens)
      && (t in s'.jobs ==>
            s'.jobs[t] == Working(Client(s.session.value.accessToken, s.session.value.cookie, multiset{}, 0, 0, false)))
      && forall u | u != t :: (u in s'.jobs <==> u in s.jobs) && (u in s.jobs ==> s'.jobs[u] == s.jobs[u])
  {}

  /** From any revocation on the grant has no session, and no call opens a client. */
  lemma RevocationEndsIt(states: seq<Sys>, actions: seq<Action>, i: nat, j: nat)
    requires Steps(states, actions) && i < j < |actions| && Revokes(states[i], actions[i])
    ensures states[j].session.None? && states[j + 1].session.None?
    ensures actions[j].Begin? ==> actions[j].ticket !in states[j + 1].jobs
  {
    SessionAfter(states[i], actions[i]);
    RevokedForGood(states, actions, i + 1, j);
    RevokedForGood(states, actions, i + 1, j + 1);
    if actions[j].Begin? { OpeningMeans(states[j], actions[j]); }
  }

  // ---- a client ----

  function OpenFetches(c: Client): nat { |c.tries| + c.waiting + c.retries }

  lemma OneTryLess(tries: multiset<string>, token: string)
    requires token in tries
    ensures |tries - multiset{token}| == |tries| - 1
  {
    assert tries == (tries - multiset{token}) + multiset{token};
  }

  /** Fetches are opened by a fetch, closed by an answer, and lost only with the refresh they wait for. */
  lemma FetchesAreConserved(c: Client, a: Action)
    requires IsClientAction(a) && Allows(c, a)
    ensures OpenFetches(ClientAfter(c, a)) ==
      match a
      case Fetch(_) => OpenFetches(c) + 1
      case Answer(_, _) => OpenFetches(c) - 1
      case Unauthorized(_, _) => OpenFetches(c)
      case RefreshOk(_, token, _) => if token == "" then OpenFetches(c) - c.waiting else OpenFetches(c)
      case RefreshFail(_) => OpenFetches(c) - c.waiting
  {
    if a.Unauthorized? { OneTryLess(c.tries, a.attempted); }
    if a.Answer? && a.first.Some? { OneTryLess(c.tries, a.first.value); }
  }

  /** Token and cookie change only by a refresh answered with a token, and then together; every fetch that waited is tried again. */
  lemma RotationMeans(c: Client, a: Action)
    requires IsClientAction(a) && Allows(c, a)
    ensures var d := ClientAfter(c, a);
      if a.RefreshOk? && a.accessToken != "" then
        && d.accessToken == a.accessToken && d.cookie == (if a.setCookie.Some? then a.setCookie.value else c.cookie)
        && d.waiting == 0 && !d.refreshing && d.retries == c.retries + c.waiting && d.tries == c.tries
      else
        && d.accessToken == c.accessToken && d.cookie == c.cookie
        && ((a.RefreshOk? || a.RefreshFail?) ==> d.waiting == 0 && !d.refreshing && d.retries == c.retries && d.tries == c.tries)
  {}

  /** A 401 waits for a refresh exactly if its token is still current; otherwise it is tried again at once with the newer one. */
  lemma RefusalMeans(c: Client, a: Action)
    requires a.Unauthorized? && Allows(c, a)
    ensures var d := ClientAfter(c, a);
      && d.tries == c.tries - multiset{a.attempted}
      && (if a.attempted == c.accessToken then d.waiting == c.waiting + 1 && d.retries == c.retries && d.refreshing
          else d.waiting == c.waiting && d.retries == c.retries + 1 && d.refreshing == c.refreshing)
  {}

  // ---- one refresh at a time ----

  predicate RefreshingAt(s: Sys, t: nat) { HasClient(s, t) && s.jobs[t].client.refreshing }

  predicate EndsRefresh(a: Action, t: nat) { (a.RefreshOk? || a.RefreshFail?) && a.ticket == t }

  lemma SendingRefreshes(s: Sys, a: Action)
    requires Enabled(s, a) && Sent(s, a).Some?
    ensures RefreshingAt(Next(s, a), a.ticket) && !RefreshingAt(s, a.ticket) && Sent(s, a).value == s.jobs[a.ticket].client.cookie
  {}

  lemma ClientKeepsRefreshing(s: Sys, a: Action, t: nat)
    requires Enabled(s, a) && IsClientAction(a) && RefreshingAt(s, t) && !EndsRefresh(a, t)
    ensures RefreshingAt(Next(s, a), t)
  {}

  lemma RefreshingIsAwaited(s: Sys, t: nat)
    requires Inv(s) && RefreshingAt(s, t)
    ensures t < s.queue.next && s.jobs[t].client.waiting > 0
  {
    assert JobOk(s, t);
    if s.jobs[t].Working? { assert Q.Queued(s.queue, t); }
  }

  lemma QueueKeepsRefreshing(s: Sys, a: Action, t: nat)
    requires Enabled(s, a) && !IsClientAction(a) && RefreshingAt(s, t) && t < s.queue.next && s.jobs[t].client.waiting > 0
    ensures RefreshingAt(Next(s, a), t)
  {}

  lemma {:induction false} RefreshGoesOn(states: seq<Sys>, actions: seq<Action>, i: nat, j: nat, t: nat)
    requires Run(states, actions) && i <= j < |states| && RefreshingAt(states[i], t)
    requires forall k | i <= k < j :: !EndsRefresh(actions[k], t)
    ensures RefreshingAt(states[j], t)
  {
    if i < j {
      RefreshGoesOn(states, actions, i, j - 1, t);
      RunWaits(states, actions, j - 1);
      if IsClientAction(actions[j - 1]) { ClientKeepsRefreshing(states[j - 1], actions[j - 1], t); }
      else { RefreshingIsAwaited(states[j - 1], t); QueueKeepsRefreshing(states[j - 1], actions[j - 1], t); }
    }
  }

  /** However many fetches find the token expired at once, the client asks again only after its refresh was answered or failed. */
  lemma OneRefreshAtATime(states: seq<Sys>, actions: seq<Action>, i: nat, j: nat)
    requires Run(states, actions) && i < j < |actions| && actions[i].Unauthorized? && actions[j].Unauthorized?
    requires Sent(states[i], actions[i]).Some? && Sent(states[j], actions[j]).Some? && actions[i].ticket == actions[j].ticket
    ensures exists k :: i < k < j && EndsRefresh(actions[k], actions[i].ticket)
  {
    var t := actions[i].ticket;
    SendingRefreshes(states[i], actions[i]);
    if forall k | i + 1 <= k < j :: !EndsRefresh(actions[k], t) {
      RefreshGoesOn(states, actions, i + 1, j, t);
    }
  }
}
