/** What every answer of the OAuth store traces back to in its run, and when a good request is answered. */
module RemoteAuthHistory {
  import opened Wrappers
  import opened Strings
  import opened RemoteAuth
  import opened RemoteAuthTheorems

  // ---- rows that never change ----

  ghost predicate GrantKept(s: Tables, t: Tables, g: string) {
    g in s.grants ==> (g in t.grants && SameGrant(s.grants[g], t.grants[g]))
  }

  ghost predicate SameGrant(a: Grant, b: Grant) {
    && b.clientId == a.clientId && b.user == a.user && b.scope == a.scope && b.resource == a.resource
    && b.createdAt == a.createdAt && b.expiresAt == a.expiresAt
  }

  ghost predicate RequestKept(s: Tables, t: Tables, r: Digest) {
    r in s.requests ==> (r in t.requests && SameRequest(s.requests[r], t.requests[r]))
  }

  ghost predicate SameRequest(a: Request, b: Request) {
    b.(consumedAt := None) == a.(consumedAt := None) && (a.consumedAt.Some? ==> b.consumedAt == a.consumedAt)
  }

  ghost predicate ClientKept(s: Tables, t: Tables, c: string) { c in s.clients ==> c in t.clients && t.clients[c] == s.clients[c] }

  /** Clients stay, requests change by being used up, and grants keep owner, scope and end. */
  ghost predicate Kept(s: Tables, t: Tables) {
    (forall g :: GrantKept(s, t, g)) && (forall r :: RequestKept(s, t, r)) && (forall c :: ClientKept(s, t, c))
  }

  lemma KeptTransitive(a: Tables, b: Tables, c: Tables)
    requires Kept(a, b) && Kept(b, c)
    ensures Kept(a, c)
  {
    forall x ensures GrantKept(a, c, x) { assert GrantKept(a, b, x) && GrantKept(b, c, x); }
    forall x ensures RequestKept(a, c, x) { assert RequestKept(a, b, x) && RequestKept(b, c, x); }
    forall x ensures ClientKept(a, c, x) { assert ClientKept(a, b, x) && ClientKept(b, c, x); }
  }

  lemma RevokeKept(t: Tables, g: string, now: int)
    ensures Kept(t, Revoke(t, g, now))
  {}

  lemma IssuingKept(t: Tables, env: Env, op: Op)
    requires Redeems(t, env, op) || Rotates(t, env, op)
    ensures Kept(t, Apply(t, env, op))
  {}

  lemma ApplyKept(t: Tables, env: Env, op: Op)
    ensures Kept(t, Apply(t, env, op))
  {
    if Redeems(t, env, op) || Rotates(t, env, op) {
      IssuingKept(t, env, op);
    } else if op.Exchange? {
      FailedExchange(t, env, op);
      if Digest(op.exchange.code) in t.codes { RevokeKept(t, t.codes[Digest(op.exchange.code)].grantId, op.now); }
    } else if op.Rotate? {
      FailedRotation(t, env, op);
      if Digest(op.rotation.refreshToken) in t.tokens { RevokeKept(t, t.tokens[Digest(op.rotation.refreshToken)].grantId, op.now); }
    } else if op.RevokeByToken? || op.RevokeByUser? {
      RevokingShape(t, env, op);
      if op.RevokeByUser? { RevokeKept(t, op.grantId, op.now); }
      else if Digest(op.token) in t.tokens { RevokeKept(t, t.tokens[Digest(op.token)].grantId, op.now); }
    } else if op.Register? || op.Deny? {
      FrontOpKept(t, env, op);
    } else if op.Create? {
      CreateKept(t, env, op);
    } else if op.Complete? {
      CompleteKept(t, env, op);
    } else {
      GrantOpKept(t, env, op);
    }
  }

  lemma FrontOpKept(t: Tables, env: Env, op: Op)
    requires op.Register? || op.Deny?
    ensures Kept(t, Apply(t, env, op))
  {}

  lemma CreateKept(t: Tables, env: Env, op: Op)
    requires op.Create?
    ensures Kept(t, Apply(t, env, op))
  {}

  lemma CompleteKept(t: Tables, env: Env, op: Op)
    requires op.Complete?
    ensures Kept(t, Apply(t, env, op))
  {}

  lemma GrantOpKept(t: Tables, env: Env, op: Op)
    requires op.Update? || op.Use?
    ensures Kept(t, Apply(t, env, op))
  {}

  lemma StepAt(env: Env, states: seq<Store>, ops: seq<Op>, i: nat)
    requires Run(env, states, ops) && i < |ops|
    ensures states[i + 1].t == Apply(states[i].t, env, ops[i])
  {
    assert StepsAt(env, states, ops, i);
    StepApplies(states[i], env, ops[i]);
  }

  lemma StepKept(env: Env, states: seq<Store>, ops: seq<Op>, i: nat)
    requires Run(env, states, ops) && i < |ops|
    ensures Kept(states[i].t, states[i + 1].t)
  {
    StepAt(env, states, ops, i);
    ApplyKept(states[i].t, env, ops[i]);
  }

  lemma {:induction false} RunKept(env: Env, states: seq<Store>, ops: seq<Op>, i: nat, j: nat)
    requires Run(env, states, ops) && i <= j < |states|
    ensures Kept(states[i].t, states[j].t)
  {
    if i < j {
      RunKept(env, states, ops, i, j - 1);
      StepKept(env, states, ops, j - 1);
      KeptTransitive(states[i].t, states[j - 1].t, states[j].t);
    }
  }

  // ---- tokens ----

  /** The step hands out a pair of tokens. */
  ghost predicate Issues(t: Tables, env: Env, op: Op) { Redeems(t, env, op) || Rotates(t, env, op) }

  /** The grant that a token or code presented to the step belongs to. */
  ghost predicate ForGrant(t: Tables, op: Op, g: string) {
    || (op.Exchange? && Digest(op.exchange.code) in t.codes && t.codes[Digest(op.exchange.code)].grantId == g)
    || (op.Rotate? && Digest(op.rotation.refreshToken) in t.tokens && t.tokens[Digest(op.rotation.refreshToken)].grantId == g)
  }

  /** Not revoked and, for a grant with an end, not ended. */
  ghost predicate Lives(t: Tables, g: string, now: int) {
    g in t.grants && t.grants[g].revokedAt.None? && (t.grants[g].expiresAt == 0 || now < t.grants[g].expiresAt)
  }

  /** An access token serves for an hour, or until the grant's own end if that comes first. */
  ghost predicate FreshPair(tokens: map<Digest, Token>, op: Op, g: string, grant: Grant)
    requires op.Exchange? || op.Rotate?
  {
    var a, r := Digest(op.access), Digest(op.refresh);
    && a in tokens && r in tokens
    && tokens[a] == Token(g, Access, if grant.expiresAt == 0 || op.now + 3_600_000 <= grant.expiresAt then op.now + 3_600_000 else grant.expiresAt, None)
    && tokens[r] == Token(g, Refresh, grant.expiresAt, None)
  }

  /** An issuing step adds a fresh pair for a live grant and nothing else. */
  lemma IssueAdds(t: Tables, env: Env, op: Op) returns (g: string)
    requires Issues(t, env, op)
    ensures ForGrant(t, op, g) && Lives(t, g, op.now)
    ensures t.grants[g].resource == env.cfg.resource && t.grants[g].scope == "finance:read"
    ensures Digest(op.access) !in t.tokens && Digest(op.refresh) !in t.tokens
    ensures var after := Apply(t, env, op);
      && after.grants == t.grants && after.requests == t.requests && after.clients == t.clients
      && after.tokens.Keys == t.tokens.Keys + {Digest(op.access), Digest(op.refresh)}
      && FreshPair(after.tokens, op, g, t.grants[g])
  {
    g := if op.Exchange? then t.codes[Digest(op.exchange.code)].grantId else t.tokens[Digest(op.rotation.refreshToken)].grantId;
    if op.Exchange? { assert ActiveGrant(t, env.cfg, g, op.now).Ok?; } else { assert ActiveGrant(t, env.cfg, g, op.now).Ok?; }
  }

  lemma OnlyIssuesAddTokens(t: Tables, env: Env, op: Op)
    requires !Issues(t, env, op)
    ensures Apply(t, env, op).tokens == t.tokens
  {
    if op.Exchange? { FailedExchange(t, env, op); }
    else if op.Rotate? { FailedRotation(t, env, op); }
    else if op.RevokeByToken? || op.RevokeByUser? { RevokingShape(t, env, op); }
  }

  /** Every token was handed out by an earlier step of the run. */
  lemma {:induction false} TokenWasIssued(env: Env, states: seq<Store>, ops: seq<Op>, n: nat, k: Digest) returns (i: nat)
    requires Run(env, states, ops) && n < |states| && k in states[n].t.tokens && k !in states[0].t.tokens
    ensures i < n && Issues(states[i].t, env, ops[i]) && (k == Digest(ops[i].access) || k == Digest(ops[i].refresh))
  {
    if k in states[n - 1].t.tokens {
      i := TokenWasIssued(env, states, ops, n - 1, k);
    } else {
      i := n - 1;
      StepAt(env, states, ops, i);
      NewTokenIsIssued(states[i].t, env, ops[i], k);
    }
  }

  lemma NewTokenIsIssued(t: Tables, env: Env, op: Op, k: Digest)
    requires k !in t.tokens && k in Apply(t, env, op).tokens
    ensures Issues(t, env, op) && (k == Digest(op.access) || k == Digest(op.refresh))
  {
    if Issues(t, env, op) { var g := IssueAdds(t, env, op); } else { OnlyIssuesAddTokens(t, env, op); }
  }

  /** What a step issued is still there later: the same rows, of which the refresh token may be used up. */
  lemma IssuedLater(env: Env, states: seq<Store>, ops: seq<Op>, i: nat, j: nat) returns (g: string)
    requires Run(env, states, ops) && i < j < |states| && Issues(states[i].t, env, ops[i])
    ensures ForGrant(states[i].t, ops[i], g) && g in states[i].t.grants && Lives(states[i].t, g, ops[i].now)
    ensures g in states[j].t.grants && states[j].t.grants[g].resource == env.cfg.resource && states[j].t.grants[g].scope == "finance:read"
    ensures states[j].t.grants[g].expiresAt == states[i].t.grants[g].expiresAt
    ensures states[j].t.grants[g].clientId == states[i].t.grants[g].clientId
    ensures var tokens, a, r := states[j].t.tokens, Digest(ops[i].access), Digest(ops[i].refresh);
      && a in tokens && r in tokens
      && FreshPair(tokens[a := tokens[a].(consumedAt := None)][r := tokens[r].(consumedAt := None)], ops[i], g, states[j].t.grants[g])
    ensures states[j].t.tokens[Digest(ops[i].access)].consumedAt.None?
  {
    g := IssueAdds(states[i].t, env, ops[i]);
    StepAt(env, states, ops, i);
    RunKept(env, states, ops, i, j);
    RunPermanent(env, states, ops, i + 1, j);
    assert GrantKept(states[i].t, states[j].t, g);
    assert TokenLasts(states[i + 1].t, states[j].t, Digest(ops[i].access)) && TokenLasts(states[i + 1].t, states[j].t, Digest(ops[i].refresh));
    RunKeepsInv(env, states, ops, j);
    assert TokenRow(states[j], Digest(ops[i].access));
  }

  /** A token authenticates only as the access token of an earlier issue, within the hour, while its grant lives. */
  lemma AuthenticatedWasIssued(env: Env, states: seq<Store>, ops: seq<Op>, j: nat) returns (i: nat, g: string)
    requires Run(env, states, ops) && j < |ops| && ops[j].Use? && Digest(ops[j].accessToken) !in states[0].t.tokens
    requires Authenticate(states[j].t, env.cfg, ops[j].accessToken, ops[j].now).1.Ok?
    ensures i < j && Issues(states[i].t, env, ops[i]) && ops[i].access == ops[j].accessToken && ForGrant(states[i].t, ops[i], g)
    ensures ops[j].now < ops[i].now + 3_600_000 && Lives(states[j].t, g, ops[j].now)
    ensures var t, v := states[j].t, Authenticate(states[j].t, env.cfg, ops[j].accessToken, ops[j].now).1.value;
      && v.grantId == g && v.profile == t.grants[g].user && t.grants[g].session == Some(v.session)
      && states[j + 1].t == t.(grants := t.grants[g := t.grants[g].(lastUsedAt := Some(ops[j].now))])
  {
    var k := Digest(ops[j].accessToken);
    i := TokenWasIssued(env, states, ops, j, k);
    g := IssuedLater(env, states, ops, i, j);
    StepAt(env, states, ops, j);
  }

  /** Within the hour the access token of a live grant does authenticate, as that grant with its user and session. */
  lemma IssuedAuthenticates(env: Env, states: seq<Store>, ops: seq<Op>, i: nat, j: nat, g: string)
    requires Run(env, states, ops) && i < j < |ops| && Issues(states[i].t, env, ops[i]) && ForGrant(states[i].t, ops[i], g)
    requires ops[j].Use? && ops[j].accessToken == ops[i].access && IsToken(ops[i].access)
    requires ops[j].now < ops[i].now + 3_600_000 && Lives(states[j].t, g, ops[j].now)
    ensures var t := states[j].t;
      t.grants[g].session.Some? &&
      Authenticate(t, env.cfg, ops[j].accessToken, ops[j].now).1 == Ok(Authenticated(g, t.grants[g].user, t.grants[g].session.value))
  {
    var h := IssuedLater(env, states, ops, i, j);
    assert h == g;
    SessionWhileLive(env, states, ops, j, g);
    LiveTokenServes(states[j].t, env, ops[j], g);
  }

  lemma SessionWhileLive(env: Env, states: seq<Store>, ops: seq<Op>, j: nat, g: string)
    requires Run(env, states, ops) && j < |states| && g in states[j].t.grants
    ensures states[j].t.grants[g].session.Some? <==> states[j].t.grants[g].revokedAt.None?
  {
    RunKeepsInv(env, states, ops, j);
    assert GrantRow(states[j], g);
  }

  lemma LiveTokenServes(t: Tables, env: Env, op: Op, g: string)
    requires op.Use? && IsToken(op.accessToken) && Digest(op.accessToken) in t.tokens
    requires var token := t.tokens[Digest(op.accessToken)];
      token.kind == Access && token.consumedAt.None? && op.now < token.expiresAt && token.grantId == g
    requires Lives(t, g, op.now) && t.grants[g].session.Some? && t.grants[g].resource == env.cfg.resource && t.grants[g].scope == "finance:read"
    ensures Authenticate(t, env.cfg, op.accessToken, op.now).1 == Ok(Authenticated(g, t.grants[g].user, t.grants[g].session.value))
  {}

  /** A refresh token never authenticates. */
  lemma RefreshNeverAuthenticates(env: Env, states: seq<Store>, ops: seq<Op>, i: nat, j: nat)
    requires Run(env, states, ops) && i < j < |ops| && Issues(states[i].t, env, ops[i])
    requires ops[j].Use? && ops[j].accessToken == ops[i].refresh
    ensures Authenticate(states[j].t, env.cfg, ops[j].accessToken, ops[j].now) == (states[j].t, Fail(InvalidToken))
  {
    var g := IssuedLater(env, states, ops, i, j);
  }

  // ---- rotation ----

  lemma OnlyRotationUsesUp(t: Tables, env: Env, op: Op, k: Digest)
    requires k in t.tokens && t.tokens[k].consumedAt.None?
    requires k in Apply(t, env, op).tokens && Apply(t, env, op).tokens[k].consumedAt.Some?
    ensures Rotates(t, env, op) && k == Digest(op.rotation.refreshToken)
  {
    if !Issues(t, env, op) { OnlyIssuesAddTokens(t, env, op); }
  }

  /** A token is used up only by its rotation. */
  lemma {:induction false} UsedUpByRotation(env: Env, states: seq<Store>, ops: seq<Op>, i: nat, n: nat, k: Digest) returns (m: nat)
    requires Run(env, states, ops) && i <= n < |states|
    requires k in states[i].t.tokens && states[i].t.tokens[k].consumedAt.None?
    requires k in states[n].t.tokens && states[n].t.tokens[k].consumedAt.Some?
    ensures i <= m < n && Rotates(states[m].t, env, ops[m]) && Digest(ops[m].rotation.refreshToken) == k
  {
    RunPermanent(env, states, ops, i, n - 1);
    assert TokenLasts(states[i].t, states[n - 1].t, k);
    if states[n - 1].t.tokens[k].consumedAt.Some? {
      m := UsedUpByRotation(env, states, ops, i, n - 1, k);
    } else {
      m := n - 1;
      StepAt(env, states, ops, m);
      OnlyRotationUsesUp(states[m].t, env, ops[m], k);
    }
  }

  /** What a rotation asks for and answers: the pair, good for an hour or until the grant ends. */
  lemma RotationMeans(t: Tables, env: Env, op: Op, g: string)
    requires Rotates(t, env, op) && ForGrant(t, op, g)
    ensures g in t.grants && t.grants[g].clientId == op.rotation.clientId && t.grants[g].resource == op.rotation.resource == env.cfg.resource
    ensures RefreshTokens(t, env.cfg, op.rotation, op.access, op.refresh, op.now).1 ==
            Ok(TokenResponse(op.access, op.refresh, Seconds(t.grants[g], op.now)))
  {}

  /** How long the access token is good for, in whole seconds. */
  ghost function Seconds(grant: Grant, now: int): int {
    if grant.expiresAt == 0 || now + 3_600_000 <= grant.expiresAt then 3600 else (grant.expiresAt - now) / 1000
  }

  /** A token rotates only as the refresh token of an earlier issue, by the client of its grant, while that lives. */
  lemma RotatedWasIssued(env: Env, states: seq<Store>, ops: seq<Op>, j: nat) returns (i: nat, g: string)
    requires Run(env, states, ops) && j < |ops| && Rotates(states[j].t, env, ops[j])
    requires Digest(ops[j].rotation.refreshToken) !in states[0].t.tokens
    ensures i < j && Issues(states[i].t, env, ops[i]) && ops[i].refresh == ops[j].rotation.refreshToken && ForGrant(states[i].t, ops[i], g)
    ensures Lives(states[j].t, g, ops[j].now)
    ensures states[j].t.grants[g].clientId == ops[j].rotation.clientId && ops[j].rotation.resource == env.cfg.resource
    ensures RefreshTokens(states[j].t, env.cfg, ops[j].rotation, ops[j].access, ops[j].refresh, ops[j].now).1 ==
            Ok(TokenResponse(ops[j].access, ops[j].refresh, Seconds(states[j].t.grants[g], ops[j].now)))
  {
    i := TokenWasIssued(env, states, ops, j, Digest(ops[j].rotation.refreshToken));
    g := IssuedLater(env, states, ops, i, j);
    var h := IssueAdds(states[j].t, env, ops[j]);
    assert h == g;
    RotationMeans(states[j].t, env, ops[j], g);
  }

  ghost predicate FreshNames(tokens: map<Digest, Token>, op: Op)
    requires op.Exchange? || op.Rotate?
  {
    Digest(op.access) !in tokens && Digest(op.refresh) !in tokens && op.access != op.refresh
  }

  lemma GoodRefreshRotates(t: Tables, env: Env, op: Op, g: string)
    requires op.Rotate? && ForGrant(t, op, g) && IsToken(op.rotation.refreshToken) && FreshNames(t.tokens, op)
    requires var token := t.tokens[Digest(op.rotation.refreshToken)];
      token.kind == Refresh && token.consumedAt.None? && (token.expiresAt == 0 || op.now < token.expiresAt)
    requires Lives(t, g, op.now) && t.grants[g].session.Some? && t.grants[g].resource == env.cfg.resource && t.grants[g].scope == "finance:read"
    requires IsToken(op.rotation.clientId) && op.rotation.clientId in t.clients && op.rotation.clientId == t.grants[g].clientId
    requires op.rotation.resource == env.cfg.resource
    ensures Rotates(t, env, op)
  {}

  /** The issuing client is registered, and is the client of the grant. */
  lemma IssuedToItsClient(t: Tables, env: Env, op: Op, g: string)
    requires Issues(t, env, op) && ForGrant(t, op, g)
    requires op.Exchange? ==> g in t.grants && t.grants[g].clientId == t.codes[Digest(op.exchange.code)].clientId
    ensures g in t.grants && IsToken(t.grants[g].clientId) && t.grants[g].clientId in t.clients
  {}

  lemma ClientOfIssue(env: Env, states: seq<Store>, ops: seq<Op>, i: nat, j: nat, g: string)
    requires Run(env, states, ops) && i < j < |states| && Issues(states[i].t, env, ops[i]) && ForGrant(states[i].t, ops[i], g)
    ensures g in states[i].t.grants && IsToken(states[i].t.grants[g].clientId) && states[i].t.grants[g].clientId in states[j].t.clients
  {
    RunKeepsInv(env, states, ops, i);
    if ops[i].Exchange? { assert CodeRow(states[i], Digest(ops[i].exchange.code)); }
    IssuedToItsClient(states[i].t, env, ops[i], g);
    RunKept(env, states, ops, i, j);
    assert ClientKept(states[i].t, states[j].t, states[i].t.grants[g].clientId);
  }

  /** A refresh token not yet rotated serves its client at any later time, as long as the grant lives. */
  lemma UnusedRefreshRotates(env: Env, states: seq<Store>, ops: seq<Op>, i: nat, j: nat, g: string)
    requires Run(env, states, ops) && i < j < |ops| && Issues(states[i].t, env, ops[i]) && ForGrant(states[i].t, ops[i], g)
    requires ops[j].Rotate? && ops[j].rotation.refreshToken == ops[i].refresh && IsToken(ops[i].refresh)
    requires Lives(states[j].t, g, ops[j].now) && FreshNames(states[j].t.tokens, ops[j])
    requires ops[j].rotation.clientId == states[j].t.grants[g].clientId && ops[j].rotation.resource == env.cfg.resource
    requires forall m | i < m < j :: !(Rotates(states[m].t, env, ops[m]) && ops[m].rotation.refreshToken == ops[i].refresh)
    ensures Rotates(states[j].t, env, ops[j])
  {
    var h := IssuedLater(env, states, ops, i, j);
    SessionWhileLive(env, states, ops, j, g);
    ClientOfIssue(env, states, ops, i, j, g);
    StillUnused(env, states, ops, i, j);
    GoodRefreshRotates(states[j].t, env, ops[j], g);
  }

  lemma StillUnused(env: Env, states: seq<Store>, ops: seq<Op>, i: nat, j: nat)
    requires Run(env, states, ops) && i < j < |states| && Issues(states[i].t, env, ops[i])
    requires forall m | i < m < j :: !(Rotates(states[m].t, env, ops[m]) && ops[m].rotation.refreshToken == ops[i].refresh)
    ensures var k := Digest(ops[i].refresh); k in states[j].t.tokens && states[j].t.tokens[k].consumedAt.None?
  {
    var k := Digest(ops[i].refresh);
    var h := IssuedLater(env, states, ops, i, j);
    StepAt(env, states, ops, i);
    var g := IssueAdds(states[i].t, env, ops[i]);
    if states[j].t.tokens[k].consumedAt.Some? {
      var m := UsedUpByRotation(env, states, ops, i + 1, j, k);
      assert false;
    }
  }
}
