/** From the authorization request through the consent to the code: what a redeemed code proves, and which requests go through. */
module RemoteAuthConsent {
  import opened Wrappers
  import opened Strings
  import opened RemoteAuth
  import opened RemoteAuthTheorems
  import opened RemoteAuthHistory

  // ---- clients ----

  ghost predicate NoControls(s: string) { forall c | c in s :: 0x20 <= (c as int) && (c as int) != 0x7F }

  lemma ControlsShape(s: string)
    ensures HasControl(s) <==> !NoControls(s)
  {
    if !NoControls(s) {
      var c :| c in s && ((c as int) < 0x20 || (c as int) == 0x7F);
      var i :| 0 <= i < |s| && s[i] == c;
    }
    if HasControl(s) {
      var i :| 0 <= i < |s| && ((s[i] as int) < 0x20 || (s[i] as int) == 0x7F);
      assert s[i] in s;
    }
  }

  /** A registration goes through exactly for one to ten allowed addresses, a public client, a proper name and a free place. */
  lemma RegistrationIff(t: Tables, cfg: Config, uris: seq<string>, name: Option<string>, auth: Option<string>, id: string, now: int)
    ensures RegisterClient(t, cfg, uris, name, auth, id, now).1.Ok? <==>
      && 1 <= |uris| <= 10 && (forall u | u in uris :: u in cfg.redirects)
      && (auth == None || auth == Some("none"))
      && (name.Some? ==> !Blank(name.value) && |name.value| <= 100 && NoControls(name.value))
      && |t.clients| < 1000 && id !in t.clients
  {
    ControlsShape(if name.Some? then name.value else DEFAULT_CLIENT_NAME);
    DefaultNameIsProper();
  }

  /** It adds the one client, with these addresses and the trimmed name. */
  lemma RegistrationAdds(t: Tables, cfg: Config, uris: seq<string>, name: Option<string>, auth: Option<string>, id: string, now: int)
    requires RegisterClient(t, cfg, uris, name, auth, id, now).1.Ok?
    ensures var (after, r) := RegisterClient(t, cfg, uris, name, auth, id, now);
      && r == Ok(id) && id !in t.clients && id in after.clients && after == t.(clients := t.clients[id := after.clients[id]])
      && (forall u :: u in after.clients[id].redirects <==> u in uris)
      && after.clients[id].name == (if name.Some? then Trim(name.value) else "연결된 AI 도구") && after.clients[id].createdAt == now
  {
    DefaultNameIsProper();
  }

  lemma DefaultNameIsProper()
    ensures !Blank(DEFAULT_CLIENT_NAME) && |DEFAULT_CLIENT_NAME| <= 100 && NoControls(DEFAULT_CLIENT_NAME) && !HasControl(DEFAULT_CLIENT_NAME)
    ensures Trim(DEFAULT_CLIENT_NAME) == DEFAULT_CLIENT_NAME
  {
    assert !IsWhitespace(DEFAULT_CLIENT_NAME[0]);
    NothingToTrim(DEFAULT_CLIENT_NAME);
  }

  ghost predicate GoodClient(cfg: Config, c: Client) { c.redirects != {} && c.redirects <= cfg.redirects }

  ghost predicate GoodClients(cfg: Config, clients: map<string, Client>) {
    |clients| <= 1000 && forall c | c in clients :: GoodClient(cfg, clients[c])
  }

  lemma RegistrationKeepsClients(t: Tables, env: Env, op: Op)
    requires op.Register? && GoodClients(env.cfg, t.clients)
    ensures GoodClients(env.cfg, Apply(t, env, op).clients)
  {
    var r := RegisterClient(t, env.cfg, op.redirectUris, op.name, op.authMethod, op.newClientId, op.now);
    if r.1.Ok? {
      RegistrationIff(t, env.cfg, op.redirectUris, op.name, op.authMethod, op.newClientId, op.now);
      RegistrationAdds(t, env.cfg, op.redirectUris, op.name, op.authMethod, op.newClientId, op.now);
      assert op.redirectUris[0] in r.0.clients[op.newClientId].redirects;
      AddedClient(env.cfg, t.clients, op.newClientId, r.0.clients[op.newClientId]);
    } else {
      assert r.0 == t;
    }
  }

  lemma AddedClient(cfg: Config, clients: map<string, Client>, id: string, client: Client)
    requires GoodClients(cfg, clients) && |clients| < 1000 && GoodClient(cfg, client) && id !in clients
    ensures GoodClients(cfg, clients[id := client])
  {
    var after := clients[id := client];
    assert after.Keys == clients.Keys + {id};
    assert |after| == |after.Keys| == |clients.Keys| + 1;
  }

  lemma OthersKeepClients(t: Tables, env: Env, op: Op)
    requires !op.Register?
    ensures Apply(t, env, op).clients == t.clients
  {
    if op.Exchange? && !Redeems(t, env, op) { FailedExchange(t, env, op); }
    if op.Rotate? && !Rotates(t, env, op) { FailedRotation(t, env, op); }
    if op.RevokeByToken? || op.RevokeByUser? { RevokingShape(t, env, op); }
  }

  /** No run registers more than a thousand clients, and each may be sent back to allowed addresses only. */
  lemma {:induction false} ClientsStayGood(env: Env, states: seq<Store>, ops: seq<Op>, n: nat)
    requires Run(env, states, ops) && GoodClients(env.cfg, states[0].t.clients) && n < |states|
    ensures GoodClients(env.cfg, states[n].t.clients)
  {
    if n > 0 {
      ClientsStayGood(env, states, ops, n - 1);
      StepAt(env, states, ops, n - 1);
      if ops[n - 1].Register? { RegistrationKeepsClients(states[n - 1].t, env, ops[n - 1]); }
      else { OthersKeepClients(states[n - 1].t, env, ops[n - 1]); }
    }
  }

  // ---- requests ----

  predicate Opens(t: Tables, env: Env, op: Op) {
    op.Create? && CreateAuthorization(t, env.cfg, op.authorization, op.newRequestId, op.newCsrf, op.now).1.Ok?
  }

  /** Consent or refusal by the user: either uses the request up. */
  predicate Answers(t: Tables, env: Env, op: Op) {
    Completes(t, env, op) || (op.Deny? && DenyAuthorization(t, env.cfg, op.requestId, op.csrf, op.now).1.Ok?)
  }

  /** 43 characters of the URL-safe base64 alphabet. */
  ghost predicate Base64Url43(s: string) {
    |s| == 43 && forall c | c in s :: 'A' <= c <= 'Z' || 'a' <= c <= 'z' || '0' <= c <= '9' || c == '_' || c == '-'
  }

  lemma TokenShape(s: string)
    ensures IsToken(s) <==> Base64Url43(s)
  {
    if |s| == 43 {
      forall i | 0 <= i < |s| ensures s[i] in s {}
    }
  }

  /** A request is opened exactly for a known client's own allowed address, with code, S256, read scope and this resource. */
  lemma OpeningIff(t: Tables, env: Env, op: Op)
    requires op.Create?
    ensures var a := op.authorization;
      Opens(t, env, op) <==>
      && Base64Url43(a.clientId) && a.clientId in t.clients
      && a.redirectUri in t.clients[a.clientId].redirects && a.redirectUri in env.cfg.redirects
      && a.responseType == "code" && a.scope == "finance:read" && a.resource == env.cfg.resource
      && a.codeChallengeMethod == "S256" && Base64Url43(a.codeChallenge)
      && |a.state| <= 2048 && NoControls(a.state) && Digest(op.newRequestId) !in t.requests
  {
    TokenShape(op.authorization.clientId);
    TokenShape(op.authorization.codeChallenge);
    ControlsShape(op.authorization.state);
  }

  /** The row of a request: whose it is, where it leads, what it demands, and ten minutes to answer. */
  ghost predicate RequestOf(t: Tables, op: Op, row: Request)
    requires op.Create?
  {
    row.(consumedAt := None) == Request(Digest(op.newCsrf), op.authorization.clientId, op.authorization.redirectUri, op.authorization.codeChallenge,
                                        "finance:read", op.authorization.resource, op.authorization.state, op.now + 600_000, None)
  }

  lemma OpeningAdds(t: Tables, env: Env, op: Op)
    requires Opens(t, env, op)
    ensures var after, r := Apply(t, env, op), Digest(op.newRequestId);
      && r !in t.requests && after == t.(requests := after.requests) && after.requests.Keys == t.requests.Keys + {r}
      && (forall q | q in t.requests :: after.requests[q] == t.requests[q])
      && RequestOf(t, op, after.requests[r]) && after.requests[r].consumedAt.None?
  {}

  lemma OnlyOpeningAddsRequests(t: Tables, env: Env, op: Op)
    requires !Opens(t, env, op)
    ensures Apply(t, env, op).requests.Keys == t.requests.Keys
  {
    if op.Exchange? && !Redeems(t, env, op) { FailedExchange(t, env, op); }
    if op.Rotate? && !Rotates(t, env, op) { FailedRotation(t, env, op); }
    if op.RevokeByToken? || op.RevokeByUser? { RevokingShape(t, env, op); }
  }

  lemma NewRequestWasOpened(t: Tables, env: Env, op: Op, r: Digest)
    requires r !in t.requests && r in Apply(t, env, op).requests
    ensures Opens(t, env, op) && r == Digest(op.newRequestId)
  {
    if Opens(t, env, op) { OpeningAdds(t, env, op); } else { OnlyOpeningAddsRequests(t, env, op); }
  }

  lemma {:induction false} RequestWasOpened(env: Env, states: seq<Store>, ops: seq<Op>, n: nat, r: Digest) returns (h: nat)
    requires Run(env, states, ops) && n < |states| && r in states[n].t.requests && r !in states[0].t.requests
    ensures h < n && Opens(states[h].t, env, ops[h]) && r == Digest(ops[h].newRequestId)
  {
    if r in states[n - 1].t.requests {
      h := RequestWasOpened(env, states, ops, n - 1, r);
    } else {
      h := n - 1;
      StepAt(env, states, ops, h);
      NewRequestWasOpened(states[h].t, env, ops[h], r);
    }
  }

  lemma OpenedLater(env: Env, states: seq<Store>, ops: seq<Op>, h: nat, n: nat)
    requires Run(env, states, ops) && h < n < |states| && Opens(states[h].t, env, ops[h])
    ensures var r := Digest(ops[h].newRequestId); r in states[n].t.requests && RequestOf(states[h].t, ops[h], states[n].t.requests[r])
  {
    StepAt(env, states, ops, h);
    OpeningAdds(states[h].t, env, ops[h]);
    RunKept(env, states, ops, h + 1, n);
    assert RequestKept(states[h + 1].t, states[n].t, Digest(ops[h].newRequestId));
  }

  /** What an answer needs, and that it uses the request up. */
  lemma AnswerMeans(t: Tables, env: Env, op: Op)
    requires Answers(t, env, op)
    ensures var r := Digest(op.requestId);
      && r in t.requests && t.requests[r].consumedAt.None? && op.now < t.requests[r].expiresAt && t.requests[r].csrf == Digest(op.csrf)
      && t.requests[r].resource == env.cfg.resource && t.requests[r].redirectUri in env.cfg.redirects
      && Apply(t, env, op).requests == t.requests[r := t.requests[r].(consumedAt := Some(op.now))]
  {
    assert FindRequest(t, env.cfg, op.requestId, op.csrf, op.now).Ok?;
  }

  lemma OnlyAnswersUseUp(t: Tables, env: Env, op: Op, r: Digest)
    requires r in t.requests && t.requests[r].consumedAt.None?
    requires r in Apply(t, env, op).requests && Apply(t, env, op).requests[r].consumedAt.Some?
    ensures Answers(t, env, op) && r == Digest(op.requestId)
  {
    if Answers(t, env, op) { AnswerMeans(t, env, op); }
    else if Opens(t, env, op) { OpeningAdds(t, env, op); }
    else { UnansweredStay(t, env, op); }
  }

  lemma UnansweredStay(t: Tables, env: Env, op: Op)
    requires !Answers(t, env, op) && !Opens(t, env, op)
    ensures Apply(t, env, op).requests == t.requests
  {
    if op.Exchange? && !Redeems(t, env, op) { FailedExchange(t, env, op); }
    if op.Rotate? && !Rotates(t, env, op) { FailedRotation(t, env, op); }
    if op.RevokeByToken? || op.RevokeByUser? { RevokingShape(t, env, op); }
  }

  /** A request is answered at most once, by consent or by refusal. */
  lemma RequestAnsweredAtMostOnce(env: Env, states: seq<Store>, ops: seq<Op>, i: nat, j: nat)
    requires Run(env, states, ops) && i < j < |ops| && Answers(states[i].t, env, ops[i]) && Answers(states[j].t, env, ops[j])
    ensures ops[i].requestId != ops[j].requestId
  {
    AnswerMeans(states[i].t, env, ops[i]);
    AnswerMeans(states[j].t, env, ops[j]);
    StepAt(env, states, ops, i);
    RunKept(env, states, ops, i + 1, j);
    assert RequestKept(states[i + 1].t, states[j].t, Digest(ops[i].requestId));
  }

  lemma {:induction false} UsedUpByAnswer(env: Env, states: seq<Store>, ops: seq<Op>, i: nat, n: nat, r: Digest) returns (m: nat)
    requires Run(env, states, ops) && i <= n < |states|
    requires r in states[i].t.requests && states[i].t.requests[r].consumedAt.None?
    requires r in states[n].t.requests && states[n].t.requests[r].consumedAt.Some?
    ensures i <= m < n && Answers(states[m].t, env, ops[m]) && Digest(ops[m].requestId) == r
  {
    RunKept(env, states, ops, i, n - 1);
    assert RequestKept(states[i].t, states[n - 1].t, r);
    if states[n - 1].t.requests[r].consumedAt.Some? {
      m := UsedUpByAnswer(env, states, ops, i, n - 1, r);
    } else {
      m := n - 1;
      StepAt(env, states, ops, m);
      OnlyAnswersUseUp(states[m].t, env, ops[m], r);
    }
  }

  // ---- consent ----

  ghost predicate HeaderSafe(s: string) { forall c | c in s :: c != '\r' && c != '\n' && c != '\0' }

  ghost predicate StorableSession(s: Session) {
    1 <= |s.accessToken| <= 16_384 && 1 <= |s.refreshCookie| <= 8_192 && HeaderSafe(s.accessToken) && HeaderSafe(s.refreshCookie)
  }

  lemma StorableIsValid(s: Session)
    ensures ValidSession(s) <==> StorableSession(s)
  {
    assert forall c :: c in s.accessToken + s.refreshCookie <==> c in s.accessToken || c in s.refreshCookie;
  }

  /** Consent creates the grant without an end for the user who logged in, and a code good for five minutes. */
  lemma ConsentAdds(t: Tables, env: Env, op: Op)
    requires Completes(t, env, op)
    ensures StorableSession(op.session) && 1 <= |op.profile.id| <= 256 && |op.profile.name| <= 256
    ensures var after, r, c := Apply(t, env, op), Digest(op.requestId), Digest(op.newCode);
      && r in t.requests && c !in t.codes && op.newGrantId !in t.grants
      && after.clients == t.clients && after.tokens == t.tokens
      && after.grants == t.grants[op.newGrantId := Grant(t.requests[r].clientId, op.profile, Some(op.session), "finance:read", env.cfg.resource, op.now, None, 0, None)]
      && after.codes == t.codes[c := Code(op.newGrantId, t.requests[r].clientId, t.requests[r].redirectUri, t.requests[r].codeChallenge,
                                          env.cfg.resource, op.now + 300_000, None)]
  {
    StorableIsValid(op.session);
    assert FindRequest(t, env.cfg, op.requestId, op.csrf, op.now).Ok?;
  }

  lemma OnlyConsentAddsCodes(t: Tables, env: Env, op: Op)
    requires !Completes(t, env, op)
    ensures Apply(t, env, op).codes.Keys == t.codes.Keys
  {
    if op.Exchange? && !Redeems(t, env, op) { FailedExchange(t, env, op); }
    if op.Rotate? && !Rotates(t, env, op) { FailedRotation(t, env, op); }
    if op.RevokeByToken? || op.RevokeByUser? { RevokingShape(t, env, op); }
  }

  lemma NewCodeWasGiven(t: Tables, env: Env, op: Op, c: Digest)
    requires c !in t.codes && c in Apply(t, env, op).codes
    ensures Completes(t, env, op) && c == Digest(op.newCode)
  {
    if Completes(t, env, op) { ConsentAdds(t, env, op); } else { OnlyConsentAddsCodes(t, env, op); }
  }

  lemma {:induction false} CodeAppears(states: seq<Store>, n: nat, c: Digest) returns (i: nat)
    requires n < |states| && c in states[n].t.codes && c !in states[0].t.codes
    ensures i < n && c !in states[i].t.codes && c in states[i + 1].t.codes
  {
    if c in states[n - 1].t.codes { i := CodeAppears(states, n - 1, c); } else { i := n - 1; }
  }

  lemma CodeWasGiven(env: Env, states: seq<Store>, ops: seq<Op>, n: nat, c: Digest) returns (i: nat)
    requires Run(env, states, ops) && n < |states| && c in states[n].t.codes && c !in states[0].t.codes
    ensures i < n && Completes(states[i].t, env, ops[i]) && c == Digest(ops[i].newCode)
  {
    i := CodeAppears(states, n, c);
    GivenAtStep(env, states, ops, i, c);
  }

  lemma GivenAtStep(env: Env, states: seq<Store>, ops: seq<Op>, i: nat, c: Digest)
    requires Run(env, states, ops) && i < |ops| && c !in states[i].t.codes && c in states[i + 1].t.codes
    ensures Completes(states[i].t, env, ops[i]) && c == Digest(ops[i].newCode)
  {
    StepAt(env, states, ops, i);
    NewCodeWasGiven(states[i].t, env, ops[i], c);
  }

  lemma CodeLater(env: Env, states: seq<Store>, ops: seq<Op>, i: nat, n: nat)
    requires Run(env, states, ops) && i < n < |states| && Completes(states[i].t, env, ops[i])
    ensures var r, c := Digest(ops[i].requestId), Digest(ops[i].newCode);
      && r in states[i].t.requests && c in states[n].t.codes
      && states[n].t.codes[c].(consumedAt := None) ==
         Code(ops[i].newGrantId, states[i].t.requests[r].clientId, states[i].t.requests[r].redirectUri, states[i].t.requests[r].codeChallenge,
              env.cfg.resource, ops[i].now + 300_000, None)
  {
    StepAt(env, states, ops, i);
    ConsentAdds(states[i].t, env, ops[i]);
    RunPermanent(env, states, ops, i + 1, n);
    assert CodeLasts(states[i + 1].t, states[n].t, Digest(ops[i].newCode));
  }

  lemma GrantLater(env: Env, states: seq<Store>, ops: seq<Op>, i: nat, n: nat)
    requires Run(env, states, ops) && i < n < |states| && Completes(states[i].t, env, ops[i])
    ensures var g := ops[i].newGrantId;
      && g in states[n].t.grants && states[n].t.grants[g].user == ops[i].profile && states[n].t.grants[g].expiresAt == 0
      && states[n].t.grants[g].resource == env.cfg.resource && states[n].t.grants[g].scope == "finance:read"
      && Digest(ops[i].requestId) in states[i].t.requests && states[n].t.grants[g].clientId == states[i].t.requests[Digest(ops[i].requestId)].clientId
  {
    StepAt(env, states, ops, i);
    ConsentAdds(states[i].t, env, ops[i]);
    RunKept(env, states, ops, i + 1, n);
    assert GrantKept(states[i + 1].t, states[n].t, ops[i].newGrantId);
  }

  /** The asker of the code is the one who opened the request: same client and address, and the verifier of its challenge. */
  ghost predicate SameAsker(env: Env, opening: Op, redeeming: Op)
    requires opening.Create? && redeeming.Exchange?
  {
    && redeeming.exchange.clientId == opening.authorization.clientId
    && redeeming.exchange.redirectUri == opening.authorization.redirectUri
    && redeeming.exchange.resource == opening.authorization.resource == env.cfg.resource
    && env.s256(redeeming.exchange.codeVerifier) == opening.authorization.codeChallenge
  }

  lemma RedeemingMeans(t: Tables, env: Env, op: Op)
    requires Redeems(t, env, op)
    ensures var c := Digest(op.exchange.code);
      && c in t.codes && t.codes[c].consumedAt.None? && op.now < t.codes[c].expiresAt
      && t.codes[c].clientId == op.exchange.clientId && t.codes[c].redirectUri == op.exchange.redirectUri
      && op.exchange.resource == env.cfg.resource && env.s256(op.exchange.codeVerifier) == t.codes[c].codeChallenge
      && t.codes[c].grantId in t.grants
      && ExchangeCode(t, env.cfg, op.exchange, env.s256, op.access, op.refresh, op.now).1 ==
         Ok(TokenResponse(op.access, op.refresh, Seconds(t.grants[t.codes[c].grantId], op.now)))
  {}

  /** A redeemed code was given, five minutes before at most, to a user's consent, which answered, ten minutes after at most, a request of the very asker. */
  lemma RedeemedMeansConsent(env: Env, states: seq<Store>, ops: seq<Op>, j: nat) returns (h: nat, i: nat)
    requires Run(env, states, ops) && j < |ops| && Redeems(states[j].t, env, ops[j])
    requires states[0].t.codes == map[] && states[0].t.requests == map[]
    ensures h < i < j && Opens(states[h].t, env, ops[h]) && Completes(states[i].t, env, ops[i])
    ensures ops[i].newCode == ops[j].exchange.code && ops[i].requestId == ops[h].newRequestId && ops[i].csrf == ops[h].newCsrf
    ensures ops[i].now < ops[h].now + 600_000 && ops[j].now < ops[i].now + 300_000
    ensures SameAsker(env, ops[h], ops[j])
    ensures var g := ops[i].newGrantId;
      ForGrant(states[j].t, ops[j], g) && g in states[j].t.grants && states[j].t.grants[g].user == ops[i].profile
    ensures ExchangeCode(states[j].t, env.cfg, ops[j].exchange, env.s256, ops[j].access, ops[j].refresh, ops[j].now).1 ==
            Ok(TokenResponse(ops[j].access, ops[j].refresh, 3600))
  {
    RedeemingMeans(states[j].t, env, ops[j]);
    i := CodeWasGiven(env, states, ops, j, Digest(ops[j].exchange.code));
    CodeLater(env, states, ops, i, j);
    GrantLater(env, states, ops, i, j);
    AnswerMeans(states[i].t, env, ops[i]);
    h := RequestWasOpened(env, states, ops, i, Digest(ops[i].requestId));
    OpenedLater(env, states, ops, h, i);
  }

  // ---- good requests go through ----

  lemma GoodConsentCompletes(t: Tables, env: Env, op: Op)
    requires op.Complete? && Base64Url43(op.requestId) && Base64Url43(op.csrf) && Digest(op.requestId) in t.requests
    requires var row := t.requests[Digest(op.requestId)];
      && row.consumedAt.None? && op.now < row.expiresAt && row.csrf == Digest(op.csrf)
      && row.resource == env.cfg.resource && row.scope == "finance:read" && row.redirectUri in env.cfg.redirects
    requires StorableSession(op.session) && 1 <= |op.profile.id| <= 256 && |op.profile.name| <= 256
    requires op.newGrantId !in t.grants && Digest(op.newCode) !in t.codes
    ensures Completes(t, env, op)
  {
    StorableIsValid(op.session);
    TokenShape(op.requestId);
    TokenShape(op.csrf);
  }

  /** A consent within ten minutes, to a request not answered before, gives a code. */
  lemma TimelyConsentCompletes(env: Env, states: seq<Store>, ops: seq<Op>, h: nat, i: nat)
    requires Run(env, states, ops) && h < i < |ops| && Opens(states[h].t, env, ops[h]) && ops[i].Complete?
    requires ops[i].requestId == ops[h].newRequestId && ops[i].csrf == ops[h].newCsrf && Base64Url43(ops[i].requestId) && Base64Url43(ops[i].csrf)
    requires ops[i].now < ops[h].now + 600_000
    requires forall m | h < m < i :: !(Answers(states[m].t, env, ops[m]) && ops[m].requestId == ops[h].newRequestId)
    requires StorableSession(ops[i].session) && 1 <= |ops[i].profile.id| <= 256 && |ops[i].profile.name| <= 256
    requires ops[i].newGrantId !in states[i].t.grants && Digest(ops[i].newCode) !in states[i].t.codes
    ensures Completes(states[i].t, env, ops[i])
  {
    OpeningIff(states[h].t, env, ops[h]);
    OpenedLater(env, states, ops, h, i);
    StillOpen(env, states, ops, h, i);
    GoodConsentCompletes(states[i].t, env, ops[i]);
  }

  lemma StillOpen(env: Env, states: seq<Store>, ops: seq<Op>, h: nat, i: nat)
    requires Run(env, states, ops) && h < i < |states| && Opens(states[h].t, env, ops[h])
    requires forall m | h < m < i :: !(Answers(states[m].t, env, ops[m]) && ops[m].requestId == ops[h].newRequestId)
    ensures var r := Digest(ops[h].newRequestId); r in states[i].t.requests && states[i].t.requests[r].consumedAt.None?
  {
    var r := Digest(ops[h].newRequestId);
    OpenedLater(env, states, ops, h, i);
    StepAt(env, states, ops, h);
    OpeningAdds(states[h].t, env, ops[h]);
    if states[i].t.requests[r].consumedAt.Some? {
      var m := UsedUpByAnswer(env, states, ops, h + 1, i, r);
      assert false;
    }
  }

  ghost predicate Verifier(s: string) {
    43 <= |s| <= 128 && forall c | c in s :: 'A' <= c <= 'Z' || 'a' <= c <= 'z' || '0' <= c <= '9' || c in "._~-"
  }

  lemma VerifierShape(s: string)
    ensures IsVerifier(s) <==> Verifier(s)
  {
    forall i | 0 <= i < |s| ensures s[i] in s {}
  }

  lemma GoodCodeRedeems(t: Tables, env: Env, op: Op, g: string)
    requires op.Exchange? && ForGrant(t, op, g) && Base64Url43(op.exchange.code) && Verifier(op.exchange.codeVerifier) && FreshNames(t.tokens, op)
    requires var code := t.codes[Digest(op.exchange.code)];
      && code.consumedAt.None? && op.now < code.expiresAt && code.clientId == op.exchange.clientId && code.redirectUri == op.exchange.redirectUri
      && code.resource == env.cfg.resource == op.exchange.resource && env.s256(op.exchange.codeVerifier) == code.codeChallenge
    requires Base64Url43(op.exchange.clientId) && op.exchange.clientId in t.clients
    requires Lives(t, g, op.now) && t.grants[g].session.Some? && t.grants[g].resource == env.cfg.resource && t.grants[g].scope == "finance:read"
    ensures Redeems(t, env, op)
  {
    TokenShape(op.exchange.code);
    TokenShape(op.exchange.clientId);
    VerifierShape(op.exchange.codeVerifier);
  }

  /** A code asked for within five minutes by the right asker, the first time, gives tokens, unless the grant was revoked meanwhile. */
  lemma TimelyCodeRedeems(env: Env, states: seq<Store>, ops: seq<Op>, h: nat, i: nat, j: nat)
    requires Run(env, states, ops) && h < i < j < |ops| && Opens(states[h].t, env, ops[h]) && Completes(states[i].t, env, ops[i])
    requires ops[i].requestId == ops[h].newRequestId && ops[j].Exchange? && ops[j].exchange.code == ops[i].newCode
    requires Base64Url43(ops[i].newCode) && Verifier(ops[j].exchange.codeVerifier) && SameAsker(env, ops[h], ops[j])
    requires ops[j].now < ops[i].now + 300_000 && FreshNames(states[j].t.tokens, ops[j])
    requires forall m | i < m < j :: !(Redeems(states[m].t, env, ops[m]) && ops[m].exchange.code == ops[i].newCode)
    requires ops[i].newGrantId in states[j].t.grants ==> states[j].t.grants[ops[i].newGrantId].revokedAt.None?
    ensures Redeems(states[j].t, env, ops[j])
  {
    OpeningIff(states[h].t, env, ops[h]);
    OpenedLater(env, states, ops, h, i);
    CodeLater(env, states, ops, i, j);
    GrantLater(env, states, ops, i, j);
    SessionWhileLive(env, states, ops, j, ops[i].newGrantId);
    StillUnredeemed(env, states, ops, i, j);
    RunKept(env, states, ops, h, j);
    assert ClientKept(states[h].t, states[j].t, ops[h].authorization.clientId);
    GoodCodeRedeems(states[j].t, env, ops[j], ops[i].newGrantId);
  }

  lemma OnlyRedeemingUsesUp(t: Tables, env: Env, op: Op, c: Digest)
    requires c in t.codes && t.codes[c].consumedAt.None?
    requires c in Apply(t, env, op).codes && Apply(t, env, op).codes[c].consumedAt.Some?
    ensures Redeems(t, env, op) && c == Digest(op.exchange.code)
  {
    if Completes(t, env, op) { ConsentAdds(t, env, op); }
    else if op.Exchange? && !Redeems(t, env, op) { FailedExchange(t, env, op); }
    else if op.Rotate? && !Rotates(t, env, op) { FailedRotation(t, env, op); }
    else if op.RevokeByToken? || op.RevokeByUser? { RevokingShape(t, env, op); }
  }

  lemma {:induction false} UsedUpByRedeeming(env: Env, states: seq<Store>, ops: seq<Op>, i: nat, n: nat, c: Digest) returns (m: nat)
    requires Run(env, states, ops) && i <= n < |states|
    requires c in states[i].t.codes && states[i].t.codes[c].consumedAt.None?
    requires c in states[n].t.codes && states[n].t.codes[c].consumedAt.Some?
    ensures i <= m < n && Redeems(states[m].t, env, ops[m]) && Digest(ops[m].exchange.code) == c
  {
    RunPermanent(env, states, ops, i, n - 1);
    assert CodeLasts(states[i].t, states[n - 1].t, c);
    if states[n - 1].t.codes[c].consumedAt.Some? {
      m := UsedUpByRedeeming(env, states, ops, i, n - 1, c);
    } else {
      m := n - 1;
      StepAt(env, states, ops, m);
      OnlyRedeemingUsesUp(states[m].t, env, ops[m], c);
    }
  }

  lemma StillUnredeemed(env: Env, states: seq<Store>, ops: seq<Op>, i: nat, j: nat)
    requires Run(env, states, ops) && i < j < |states| && Completes(states[i].t, env, ops[i])
    requires forall m | i < m < j :: !(Redeems(states[m].t, env, ops[m]) && ops[m].exchange.code == ops[i].newCode)
    ensures var c := Digest(ops[i].newCode); c in states[j].t.codes && states[j].t.codes[c].consumedAt.None?
  {
    var c := Digest(ops[i].newCode);
    CodeLater(env, states, ops, i, j);
    StepAt(env, states, ops, i);
    ConsentAdds(states[i].t, env, ops[i]);
    if states[j].t.codes[c].consumedAt.Some? {
      var m := UsedUpByRedeeming(env, states, ops, i + 1, j, c);
      assert false;
    }
  }

  // ---- sessions and revocations ----

  /** What a revocation leaves: this grant without a session, from now on, and nothing else touched. */
  ghost predicate Revoked(t: Tables, after: Tables, g: string, now: int) {
    g in t.grants && after == t.(grants := t.grants[g := t.grants[g].(revokedAt := Some(now), session := None)])
  }

  /** The user's own live grant is revoked and its session handed out; any other request changes nothing. */
  lemma UserRevocationMeans(s: Store, g: string, user: string, now: int)
    requires Inv(s)
    ensures var (after, r) := RevokeGrantForUser(s.t, g, user, now);
      if g in s.t.grants && s.t.grants[g].user.id == user && s.t.grants[g].revokedAt.None?
      then Revoked(s.t, after, g, now) && r == Ok(s.t.grants[g].session) && s.t.grants[g].session.Some?
      else after == s.t && r == Ok(None)
  {
    if g in s.t.grants { assert GrantRow(s, g); }
  }

  /** A registered client revokes the live grant of its own token, of either kind and used up or not; another's token changes nothing. */
  lemma TokenRevocationMeans(s: Store, token: string, client: string, now: int)
    requires Inv(s) && Base64Url43(client) && client in s.t.clients && Base64Url43(token)
    ensures var (after, r) := RevokeToken(s.t, token, client, now);
      if Digest(token) in s.t.tokens && s.t.tokens[Digest(token)].grantId in s.t.grants
         && s.t.grants[s.t.tokens[Digest(token)].grantId].clientId == client && s.t.grants[s.t.tokens[Digest(token)].grantId].revokedAt.None?
      then Revoked(s.t, after, s.t.tokens[Digest(token)].grantId, now) && r == Ok(s.t.grants[s.t.tokens[Digest(token)].grantId].session) && r.value.Some?
      else after == s.t && r == Ok(None)
  {
    TokenShape(token);
    TokenShape(client);
    if Digest(token) in s.t.tokens {
      assert TokenRow(s, Digest(token));
      assert GrantRow(s, s.t.tokens[Digest(token)].grantId);
    }
  }

  /** A storable session replaces that of a live grant, and nothing else changes; otherwise nothing at all does. */
  lemma UpdateMeans(s: Store, env: Env, g: string, session: Session, now: int)
    requires Inv(s)
    ensures var (after, r) := UpdateSession(s.t, env.cfg, g, session, now);
      && (r.Ok? <==> StorableSession(session) && Lives(s.t, g, now) && s.t.grants[g].resource == env.cfg.resource && s.t.grants[g].scope == "finance:read")
      && after == if r.Ok? then s.t.(grants := s.t.grants[g := s.t.grants[g].(session := Some(session))]) else s.t
  {
    StorableIsValid(session);
    if g in s.t.grants { assert GrantRow(s, g); }
  }

  /** Maintenance sees exactly the live grants without an end. */
  lemma MaintenanceMeans(s: Store, env: Env, g: string, now: int)
    requires Inv(s)
    ensures var r := GrantForMaintenance(s.t, env.cfg, g, now);
      && (r.Ok? <==> g in s.t.grants && s.t.grants[g].revokedAt.None? && s.t.grants[g].expiresAt == 0
                     && s.t.grants[g].resource == env.cfg.resource && s.t.grants[g].scope == "finance:read")
      && (r.Ok? ==> r.value.grantId == g && r.value.profile == s.t.grants[g].user && s.t.grants[g].session == Some(r.value.session))
  {
    if g in s.t.grants { assert GrantRow(s, g); }
  }
}
