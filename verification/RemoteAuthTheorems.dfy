/** What the OAuth store keeps over every run, and what its failing operations may change. */
module RemoteAuthTheorems {
  import opened Wrappers
  import opened RemoteAuth

  datatype Op =
    | Register(redirectUris: seq<string>, name: Option<string>, authMethod: Option<string>, newClientId: string, now: int)
    | Create(authorization: AuthorizationInput, newRequestId: string, newCsrf: string, now: int)
    | Complete(requestId: string, csrf: string, session: Session, profile: Profile, newGrantId: string, newCode: string, now: int)
    | Deny(requestId: string, csrf: string, now: int)
    | Exchange(exchange: ExchangeInput, access: string, refresh: string, now: int)
    | Rotate(rotation: RefreshInput, access: string, refresh: string, now: int)
    | Use(accessToken: string, now: int)
    | Update(grantId: string, session: Session, now: int)
    | RevokeByToken(token: string, clientId: string, now: int)
    | RevokeByUser(grantId: string, userId: string, now: int)

  /** The configuration and the PKCE transform, fixed for the life of the service. */
  datatype Env = Env(cfg: Config, s256: string -> string)

  function Apply(t: Tables, env: Env, op: Op): Tables {
    match op
    case Register(uris, name, auth, id, now) => RegisterClient(t, env.cfg, uris, name, auth, id, now).0
    case Create(input, id, csrf, now) => CreateAuthorization(t, env.cfg, input, id, csrf, now).0
    case Complete(id, csrf, session, profile, g, code, now) => CompleteAuthorization(t, env.cfg, id, csrf, session, profile, g, code, now).0
    case Deny(id, csrf, now) => DenyAuthorization(t, env.cfg, id, csrf, now).0
    case Exchange(input, a, r, now) => ExchangeCode(t, env.cfg, input, env.s256, a, r, now).0
    case Rotate(input, a, r, now) => RefreshTokens(t, env.cfg, input, a, r, now).0
    case Use(token, now) => Authenticate(t, env.cfg, token, now).0
    case Update(g, session, now) => UpdateSession(t, env.cfg, g, session, now).0
    case RevokeByToken(token, client, now) => RevokeToken(t, token, client, now).0
    case RevokeByUser(g, user, now) => RevokeGrantForUser(t, g, user, now).0
  }

  predicate Redeems(t: Tables, env: Env, op: Op) {
    op.Exchange? && ExchangeCode(t, env.cfg, op.exchange, env.s256, op.access, op.refresh, op.now).1.Ok?
  }

  predicate Rotates(t: Tables, env: Env, op: Op) {
    op.Rotate? && RefreshTokens(t, env.cfg, op.rotation, op.access, op.refresh, op.now).1.Ok?
  }

  predicate Completes(t: Tables, env: Env, op: Op) {
    op.Complete? &&
    CompleteAuthorization(t, env.cfg, op.requestId, op.csrf, op.session, op.profile, op.newGrantId, op.newCode, op.now).1.Ok?
  }

  /** The tables with two history variables: the refresh tokens of each grant in order of issue, and the request behind each grant. */
  datatype Store = Store(t: Tables, issued: map<string, seq<Digest>>, origin: map<string, Digest>)

  const EMPTY := Store(Tables(map[], map[], map[], map[], map[]), map[], map[])

  function Append(issued: map<string, seq<Digest>>, g: string, refresh: string): map<string, seq<Digest>> {
    issued[g := (if g in issued then issued[g] else []) + [Digest(refresh)]]
  }

  function Step(s: Store, env: Env, op: Op): Store {
    var t := Apply(s.t, env, op);
    if Redeems(s.t, env, op) then Store(t, Append(s.issued, s.t.codes[Digest(op.exchange.code)].grantId, op.refresh), s.origin)
    else if Rotates(s.t, env, op) then Store(t, Append(s.issued, s.t.tokens[Digest(op.rotation.refreshToken)].grantId, op.refresh), s.origin)
    else if Completes(s.t, env, op) then Store(t, s.issued[op.newGrantId := []], s.origin[op.newGrantId := Digest(op.requestId)])
    else s.(t := t)
  }

  // ---- the invariant ----

  ghost predicate Domains(s: Store) {
    s.issued.Keys == s.t.grants.Keys == s.origin.Keys
  }

  /** A grant has a session exactly while it is not revoked, and comes from a consumed request of the same client. */
  ghost predicate GrantRow(s: Store, g: string)
    requires Domains(s) && g in s.t.grants
  {
    && (s.t.grants[g].session.None? <==> s.t.grants[g].revokedAt.Some?)
    && s.origin[g] in s.t.requests
    && s.t.requests[s.origin[g]].consumedAt.Some?
    && s.t.requests[s.origin[g]].clientId == s.t.grants[g].clientId
  }

  /** A code repeats its request and is consumed exactly when its grant has been issued tokens. */
  ghost predicate CodeRow(s: Store, c: Digest)
    requires Domains(s) && c in s.t.codes
  {
    var code := s.t.codes[c];
    && code.grantId in s.t.grants && s.origin[code.grantId] in s.t.requests
    && code.clientId == s.t.grants[code.grantId].clientId
    && code.redirectUri == s.t.requests[s.origin[code.grantId]].redirectUri
    && code.codeChallenge == s.t.requests[s.origin[code.grantId]].codeChallenge
    && (code.consumedAt.Some? <==> s.issued[code.grantId] != [])
  }

  /** Tokens belong to grants that were redeemed; every refresh token is on its grant's chain. */
  ghost predicate TokenRow(s: Store, k: Digest)
    requires Domains(s) && k in s.t.tokens
  {
    var token := s.t.tokens[k];
    && token.grantId in s.t.grants && s.issued[token.grantId] != []
    && (token.kind == Refresh ==> k in s.issued[token.grantId])
    && (token.kind == Access ==> token.consumedAt.None?)
  }

  ghost predicate Linear(chain: seq<Digest>) {
    forall i, j | 0 <= i < j < |chain| :: chain[i] != chain[j]
  }

  /** All links of a grant's chain are its refresh tokens, and all but the last are consumed. */
  ghost predicate ChainOk(tokens: map<Digest, Token>, g: string, chain: seq<Digest>) {
    Linear(chain) && forall i | 0 <= i < |chain| :: LinkOk(tokens, g, chain[i], i == |chain| - 1)
  }

  ghost predicate LinkOk(tokens: map<Digest, Token>, g: string, k: Digest, last: bool) {
    k in tokens && tokens[k].kind == Refresh && tokens[k].grantId == g && (tokens[k].consumedAt.None? <==> last)
  }

  ghost predicate OneGrantPerRequest(s: Store)
    requires Domains(s)
  {
    forall g, h | g in s.t.grants && h in s.t.grants && s.origin[g] == s.origin[h] :: g == h
  }

  ghost predicate OneCodePerGrant(t: Tables) {
    forall c, d | c in t.codes && d in t.codes && t.codes[c].grantId == t.codes[d].grantId :: c == d
  }

  ghost predicate Chains(s: Store) {
    forall g | g in s.issued :: ChainOk(s.t.tokens, g, s.issued[g])
  }

  ghost predicate Rows(s: Store)
    requires Domains(s)
  {
    && (forall g | g in s.t.grants :: GrantRow(s, g))
    && (forall c | c in s.t.codes :: CodeRow(s, c))
    && (forall k | k in s.t.tokens :: TokenRow(s, k))
  }

  ghost predicate Inv(s: Store) {
    Domains(s) && Rows(s) && OneGrantPerRequest(s) && OneCodePerGrant(s.t) && Chains(s)
  }

  lemma InvHoldsInitially()
    ensures Inv(EMPTY)
  {}

  // ---- preservation, one shape of change at a time ----

  lemma GrantChangeKeepsRows(s: Store, s': Store, g: string)
    requires Inv(s) && Domains(s') && s'.origin == s.origin && s'.issued == s.issued && s'.t == s.t.(grants := s'.t.grants)
    requires g in s.t.grants && g in s'.t.grants && s'.t.grants == s.t.grants[g := s'.t.grants[g]]
    requires s'.t.grants[g].clientId == s.t.grants[g].clientId
    requires s'.t.grants[g].session.None? <==> s'.t.grants[g].revokedAt.Some?
    ensures Rows(s')
  {
    forall h | h in s'.t.grants ensures GrantRow(s', h) { assert GrantRow(s, h); }
    forall c | c in s'.t.codes ensures CodeRow(s', c) { assert CodeRow(s, c); }
    forall k | k in s'.t.tokens ensures TokenRow(s', k) { assert TokenRow(s, k); }
  }

  /** One grant row changes, keeping its client and the tie between session and revocation. */
  lemma GrantChangeKeeps(s: Store, g: string, grant: Grant)
    requires Inv(s) && g in s.t.grants && grant.clientId == s.t.grants[g].clientId
    requires grant.session.None? <==> grant.revokedAt.Some?
    ensures Inv(s.(t := s.t.(grants := s.t.grants[g := grant])))
  {
    var s' := s.(t := s.t.(grants := s.t.grants[g := grant]));
    assert s'.t.grants.Keys == s.t.grants.Keys;
    GrantChangeKeepsRows(s, s', g);
  }

  lemma RevokeKeeps(s: Store, g: string, now: int)
    requires Inv(s)
    ensures Inv(s.(t := Revoke(s.t, g, now)))
  {
    if g in s.t.grants { GrantChangeKeeps(s, g, Revoke(s.t, g, now).grants[g]); }
  }

  /** Clients and requests are added, or a request is consumed. */
  lemma RequestsChangeKeeps(s: Store, t: Tables)
    requires Inv(s) && t.grants == s.t.grants && t.codes == s.t.codes && t.tokens == s.t.tokens
    requires RequestsStay(s.t.requests, t.requests)
    ensures Inv(s.(t := t))
  {
    var s' := s.(t := t);
    forall g | g in s'.t.grants ensures GrantRow(s', g) { assert GrantRow(s, g); RequestStays(s, t, g); }
    forall c | c in s'.t.codes ensures CodeRow(s', c) { assert CodeRow(s, c); RequestStays(s, t, s.t.codes[c].grantId); }
    forall k | k in s'.t.tokens ensures TokenRow(s', k) { assert TokenRow(s, k); }
  }

  ghost predicate RequestsStay(a: map<Digest, Request>, b: map<Digest, Request>) {
    forall r | r in a :: r in b && RequestRowStays(a[r], b[r])
  }

  ghost predicate RequestRowStays(a: Request, b: Request) {
    && b.clientId == a.clientId && b.redirectUri == a.redirectUri && b.codeChallenge == a.codeChallenge
    && (a.consumedAt.Some? ==> b.consumedAt.Some?)
  }

  lemma RequestStays(s: Store, t: Tables, g: string)
    requires Domains(s) && g in s.origin && RequestsStay(s.t.requests, t.requests) && s.origin[g] in s.t.requests
    ensures s.origin[g] in t.requests && RequestRowStays(s.t.requests[s.origin[g]], t.requests[s.origin[g]])
  {}

  ghost predicate NewGrant(s: Store, s': Store, g: string, c: Digest, r: Digest) {
    && Inv(s) && g !in s.t.grants && c !in s.t.codes && r in s.t.requests && s.t.requests[r].consumedAt.None?
    && s'.issued == s.issued[g := []] && s'.origin == s.origin[g := r] && s'.t.tokens == s.t.tokens
    && g in s'.t.grants && s'.t.grants == s.t.grants[g := s'.t.grants[g]]
    && c in s'.t.codes && s'.t.codes == s.t.codes[c := s'.t.codes[c]] && s'.t.codes[c].grantId == g
    && RequestsStay(s.t.requests, s'.t.requests)
  }

  lemma NewGrantKeepsGrant(s: Store, s': Store, g: string, c: Digest, r: Digest, h: string)
    requires NewGrant(s, s', g, c, r) && Domains(s') && h in s.t.grants
    ensures GrantRow(s', h) && s'.origin[h] == s.origin[h] != r
  {
    assert GrantRow(s, h);
    RequestStays(s, s'.t, h);
  }

  lemma NewGrantKeepsOrigins(s: Store, s': Store, g: string, r: Digest)
    requires Domains(s) && Domains(s') && OneGrantPerRequest(s)
    requires s'.t.grants.Keys == s.t.grants.Keys + {g} && s'.origin[g] == r
    requires forall h | h in s.t.grants :: s'.origin[h] == s.origin[h] != r
    ensures OneGrantPerRequest(s')
  {
    forall h, k | h in s'.t.grants && k in s'.t.grants && s'.origin[h] == s'.origin[k] ensures h == k {
      if h in s.t.grants && k in s.t.grants { assert s.origin[h] == s.origin[k]; }
    }
  }

  lemma NewGrantKeepsCodes(s: Store, s': Store, g: string, c: Digest, r: Digest)
    requires NewGrant(s, s', g, c, r) && Domains(s')
    ensures (forall d | d in s.t.codes :: CodeRow(s', d)) && OneCodePerGrant(s'.t)
  {
    forall d | d in s.t.codes ensures CodeRow(s', d) && s'.t.codes[d].grantId != g {
      assert CodeRow(s, d);
      RequestStays(s, s'.t, s.t.codes[d].grantId);
    }
  }

  /** A new grant with its code, and the request behind it consumed. */
  lemma NewGrantKeeps(s: Store, s': Store, g: string, c: Digest, r: Digest)
    requires NewGrant(s, s', g, c, r) && Domains(s') && GrantRow(s', g) && CodeRow(s', c)
    ensures Inv(s')
  {
    forall h | h in s.t.grants ensures GrantRow(s', h) && s'.origin[h] == s.origin[h] != r { NewGrantKeepsGrant(s, s', g, c, r, h); }
    NewGrantKeepsOrigins(s, s', g, r);
    NewGrantKeepsCodes(s, s', g, c, r);
    NewGrantKeepsTokens(s, s', g, r);
  }

  lemma NewGrantKeepsTokens(s: Store, s': Store, g: string, r: Digest)
    requires Inv(s) && g !in s.t.grants && Domains(s')
    requires s'.issued == s.issued[g := []] && s'.t.tokens == s.t.tokens
    ensures forall k | k in s'.t.tokens :: TokenRow(s', k)
    ensures Chains(s')
  {
    forall k | k in s'.t.tokens ensures TokenRow(s', k) { assert TokenRow(s, k); }
    forall h | h in s'.issued ensures ChainOk(s'.t.tokens, h, s'.issued[h]) {
      if h != g { assert ChainOk(s.t.tokens, h, s.issued[h]); }
    }
  }

  lemma CompleteKeeps(s: Store, env: Env, op: Op)
    requires Inv(s) && op.Complete? && Completes(s.t, env, op)
    ensures Inv(Step(s, env, op))
  {
    assert FindRequest(s.t, env.cfg, op.requestId, op.csrf, op.now).Ok?;
    var s' := Step(s, env, op);
    assert NewGrant(s, s', op.newGrantId, Digest(op.newCode), Digest(op.requestId));
    NewGrantKeeps(s, s', op.newGrantId, Digest(op.newCode), Digest(op.requestId));
  }

  /** The tokens after the end of g's chain (if any) is consumed and a new pair is inserted. */
  ghost predicate Extends(before: map<Digest, Token>, after: map<Digest, Token>, g: string, chain: seq<Digest>, access: Digest, refresh: Digest) {
    && access !in before && refresh !in before && access != refresh
    && after.Keys == before.Keys + {access, refresh}
    && (forall k | k in before && (chain == [] || k != chain[|chain| - 1]) :: after[k] == before[k])
    && (chain != [] && chain[|chain| - 1] in before ==>
          && after[chain[|chain| - 1]].consumedAt.Some?
          && after[chain[|chain| - 1]].kind == before[chain[|chain| - 1]].kind
          && after[chain[|chain| - 1]].grantId == before[chain[|chain| - 1]].grantId)
    && after[access].grantId == g && after[access].kind == Access && after[access].consumedAt.None?
    && after[refresh].grantId == g && after[refresh].kind == Refresh && after[refresh].consumedAt.None?
  }

  lemma ExtendsChain(before: map<Digest, Token>, after: map<Digest, Token>, g: string, chain: seq<Digest>, access: Digest, refresh: Digest)
    requires Extends(before, after, g, chain, access, refresh) && ChainOk(before, g, chain)
    ensures ChainOk(after, g, chain + [refresh])
  {
    forall i | 0 <= i < |chain| ensures LinkOk(after, g, chain[i], false) && chain[i] != refresh {
      assert LinkOk(before, g, chain[i], i == |chain| - 1);
    }
  }

  lemma ExtendsOtherChain(before: map<Digest, Token>, after: map<Digest, Token>, g: string, chain: seq<Digest>,
                          access: Digest, refresh: Digest, h: string, other: seq<Digest>)
    requires Extends(before, after, g, chain, access, refresh) && ChainOk(before, g, chain) && ChainOk(before, h, other) && h != g
    ensures ChainOk(after, h, other)
  {
    forall i | 0 <= i < |other| ensures LinkOk(after, h, other[i], i == |other| - 1) {
      assert LinkOk(before, h, other[i], i == |other| - 1);
      if chain != [] { assert LinkOk(before, g, chain[|chain| - 1], true); }
    }
  }

  ghost predicate Issued(s: Store, s': Store, g: string, access: string, refresh: string) {
    && Inv(s) && g in s.issued
    && s'.origin == s.origin && s'.issued == Append(s.issued, g, refresh)
    && s'.t.grants == s.t.grants && s'.t.requests == s.t.requests
    && Extends(s.t.tokens, s'.t.tokens, g, s.issued[g], Digest(access), Digest(refresh))
    && s'.t.codes.Keys == s.t.codes.Keys
    && (forall c | c in s.t.codes :: CodeOnceUsed(s.t.codes[c], s'.t.codes[c], g))
  }

  lemma IssueKeepsGrantsAndCodes(s: Store, s': Store, g: string, access: string, refresh: string)
    requires Issued(s, s', g, access, refresh)
    ensures Domains(s') && OneGrantPerRequest(s') && OneCodePerGrant(s'.t)
    ensures (forall h | h in s'.t.grants :: GrantRow(s', h)) && (forall c | c in s'.t.codes :: CodeRow(s', c))
  {
    assert s'.issued.Keys == s.issued.Keys;
    forall h | h in s'.t.grants ensures GrantRow(s', h) { assert GrantRow(s, h); }
    forall c | c in s'.t.codes ensures CodeRow(s', c) { assert CodeRow(s, c) && CodeOnceUsed(s.t.codes[c], s'.t.codes[c], g); }
    forall c, d | c in s'.t.codes && d in s'.t.codes && s'.t.codes[c].grantId == s'.t.codes[d].grantId ensures c == d {
      assert CodeOnceUsed(s.t.codes[c], s'.t.codes[c], g) && CodeOnceUsed(s.t.codes[d], s'.t.codes[d], g);
    }
  }

  lemma IssueKeepsToken(s: Store, s': Store, g: string, access: string, refresh: string, k: Digest)
    requires Issued(s, s', g, access, refresh) && Domains(s') && k in s'.t.tokens
    ensures TokenRow(s', k)
  {
    if k == Digest(refresh) {
      assert s'.issued[g][|s.issued[g]|] == k;
    } else if k != Digest(access) {
      assert TokenRow(s, k);
      assert ChainOk(s.t.tokens, g, s.issued[g]);
      if s.issued[g] != [] { assert LinkOk(s.t.tokens, g, s.issued[g][|s.issued[g]| - 1], true); }
    }
  }

  lemma IssueKeepsChain(s: Store, s': Store, g: string, access: string, refresh: string, h: string)
    requires Issued(s, s', g, access, refresh) && h in s'.issued
    ensures ChainOk(s'.t.tokens, h, s'.issued[h])
  {
    assert ChainOk(s.t.tokens, g, s.issued[g]) && ChainOk(s.t.tokens, h, s.issued[h]);
    if h == g { ExtendsChain(s.t.tokens, s'.t.tokens, g, s.issued[g], Digest(access), Digest(refresh)); }
    else { ExtendsOtherChain(s.t.tokens, s'.t.tokens, g, s.issued[g], Digest(access), Digest(refresh), h, s.issued[h]); }
  }

  /** Issuing a pair of tokens to g, with g's code marked consumed, keeps the invariant. */
  lemma IssueKeeps(s: Store, s': Store, g: string, access: string, refresh: string)
    requires Issued(s, s', g, access, refresh)
    ensures Inv(s')
  {
    IssueKeepsGrantsAndCodes(s, s', g, access, refresh);
    forall k | k in s'.t.tokens ensures TokenRow(s', k) { IssueKeepsToken(s, s', g, access, refresh, k); }
    forall h | h in s'.issued ensures ChainOk(s'.t.tokens, h, s'.issued[h]) { IssueKeepsChain(s, s', g, access, refresh, h); }
  }

  /** A code row is unchanged, except that a code of g counts as consumed afterwards. */
  ghost predicate CodeOnceUsed(a: Code, b: Code, g: string) {
    && b.grantId == a.grantId && b.clientId == a.clientId && b.redirectUri == a.redirectUri && b.codeChallenge == a.codeChallenge
    && (if a.grantId == g then b.consumedAt.Some? else b.consumedAt == a.consumedAt)
  }

  /** Redeeming marks exactly one code row. */
  lemma RedeemMarksCode(s: Store, env: Env, op: Op)
    requires Redeems(s.t, env, op)
    ensures var id := Digest(op.exchange.code);
      id in s.t.codes && Step(s, env, op).t.codes == s.t.codes[id := s.t.codes[id].(consumedAt := Some(op.now))]
  {
  }

  lemma RedeemUsesCode(s: Store, env: Env, op: Op)
    requires Inv(s) && Redeems(s.t, env, op)
    ensures var g := s.t.codes[Digest(op.exchange.code)].grantId;
      var codes := Step(s, env, op).t.codes;
      codes.Keys == s.t.codes.Keys && forall c | c in s.t.codes :: CodeOnceUsed(s.t.codes[c], codes[c], g)
  {
    RedeemMarksCode(s, env, op);
    OneCodeAGrant(s, Digest(op.exchange.code));
  }

  lemma OneCodeAGrant(s: Store, id: Digest)
    requires Inv(s) && id in s.t.codes
    ensures forall c | c in s.t.codes && c != id :: s.t.codes[c].grantId != s.t.codes[id].grantId
  {
  }

  lemma RedeemExtends(s: Store, env: Env, op: Op)
    requires Domains(s) && Redeems(s.t, env, op) && CodeRow(s, Digest(op.exchange.code))
    ensures var g := s.t.codes[Digest(op.exchange.code)].grantId;
      g in s.issued && Extends(s.t.tokens, Step(s, env, op).t.tokens, g, s.issued[g], Digest(op.access), Digest(op.refresh))
  {
    var id := Digest(op.exchange.code);
    assert s.issued[s.t.codes[id].grantId] == [];
    assert Step(s, env, op).t.tokens.Keys == s.t.tokens.Keys + {Digest(op.access), Digest(op.refresh)};
  }

  lemma RedeemIssues(s: Store, env: Env, op: Op)
    requires Inv(s) && Redeems(s.t, env, op)
    ensures Issued(s, Step(s, env, op), s.t.codes[Digest(op.exchange.code)].grantId, op.access, op.refresh)
  {
    RedeemUsesCode(s, env, op);
    assert CodeRow(s, Digest(op.exchange.code));
    RedeemExtends(s, env, op);
  }

  lemma RedeemKeeps(s: Store, env: Env, op: Op)
    requires Inv(s) && Redeems(s.t, env, op)
    ensures Inv(Step(s, env, op))
  {
    RedeemIssues(s, env, op);
    IssueKeeps(s, Step(s, env, op), s.t.codes[Digest(op.exchange.code)].grantId, op.access, op.refresh);
  }

  lemma RotateUsesNoCode(s: Store, env: Env, op: Op, c: Digest)
    requires Inv(s) && Rotates(s.t, env, op) && c in s.t.codes
    ensures var codes := Step(s, env, op).t.codes;
            codes == s.t.codes && CodeOnceUsed(s.t.codes[c], codes[c], s.t.tokens[Digest(op.rotation.refreshToken)].grantId)
  {
    assert CodeRow(s, c) && TokenRow(s, Digest(op.rotation.refreshToken));
  }

  lemma RotateExtends(s: Store, env: Env, op: Op)
    requires Inv(s) && Rotates(s.t, env, op)
    ensures var g := s.t.tokens[Digest(op.rotation.refreshToken)].grantId;
      g in s.issued && Extends(s.t.tokens, Step(s, env, op).t.tokens, g, s.issued[g], Digest(op.access), Digest(op.refresh))
  {
    LiveRefreshIsLast(s, Digest(op.rotation.refreshToken));
    assert Step(s, env, op).t.tokens.Keys == s.t.tokens.Keys + {Digest(op.access), Digest(op.refresh)};
  }

  lemma RotateIssues(s: Store, env: Env, op: Op)
    requires Inv(s) && Rotates(s.t, env, op)
    ensures Issued(s, Step(s, env, op), s.t.tokens[Digest(op.rotation.refreshToken)].grantId, op.access, op.refresh)
  {
    var s', g := Step(s, env, op), s.t.tokens[Digest(op.rotation.refreshToken)].grantId;
    RotateExtends(s, env, op);
    forall c | c in s.t.codes ensures s'.t.codes == s.t.codes && CodeOnceUsed(s.t.codes[c], s'.t.codes[c], g) {
      RotateUsesNoCode(s, env, op, c);
    }
    RotateIsLocal(s, env, op);
  }

  lemma RotateIsLocal(s: Store, env: Env, op: Op)
    requires Rotates(s.t, env, op)
    ensures var s', g := Step(s, env, op), s.t.tokens[Digest(op.rotation.refreshToken)].grantId;
      && s'.origin == s.origin && s'.issued == Append(s.issued, g, op.refresh)
      && s'.t.grants == s.t.grants && s'.t.requests == s.t.requests && s'.t.codes == s.t.codes
  {
  }

  lemma RotateKeeps(s: Store, env: Env, op: Op)
    requires Inv(s) && Rotates(s.t, env, op)
    ensures Inv(Step(s, env, op))
  {
    RotateIssues(s, env, op);
    IssueKeeps(s, Step(s, env, op), s.t.tokens[Digest(op.rotation.refreshToken)].grantId, op.access, op.refresh);
  }

  lemma LiveRefreshIsLast(s: Store, k: Digest)
    requires Inv(s) && k in s.t.tokens && s.t.tokens[k].kind == Refresh && s.t.tokens[k].consumedAt.None?
    ensures s.t.tokens[k].grantId in s.issued
    ensures var chain := s.issued[s.t.tokens[k].grantId]; chain != [] && chain[|chain| - 1] == k
  {
    assert TokenRow(s, k);
    var g := s.t.tokens[k].grantId;
    assert ChainOk(s.t.tokens, g, s.issued[g]);
    var i :| 0 <= i < |s.issued[g]| && s.issued[g][i] == k;
    assert LinkOk(s.t.tokens, g, s.issued[g][i], i == |s.issued[g]| - 1);
  }

  ghost predicate Quiet(t: Tables, env: Env, op: Op) {
    !Redeems(t, env, op) && !Rotates(t, env, op) && !Completes(t, env, op)
  }

  /** Only clients and requests change, and no request forgets whom it serves or that it was consumed. */
  ghost predicate FrontDoor(t: Tables, t': Tables) {
    t'.grants == t.grants && t'.codes == t.codes && t'.tokens == t.tokens && RequestsStay(t.requests, t'.requests)
  }

  lemma RegisterShape(t: Tables, env: Env, op: Op)
    requires op.Register?
    ensures FrontDoor(t, Apply(t, env, op))
  {}

  lemma CreateShape(t: Tables, env: Env, op: Op)
    requires op.Create?
    ensures FrontDoor(t, Apply(t, env, op))
  {
    assert Digest(op.newRequestId) in t.requests ==> Apply(t, env, op) == t;
  }

  lemma DenyShape(t: Tables, env: Env, op: Op)
    requires op.Deny?
    ensures FrontDoor(t, Apply(t, env, op))
  {}

  lemma FrontDoorKeeps(s: Store, env: Env, op: Op)
    requires Inv(s) && (op.Register? || op.Create? || op.Deny?)
    ensures Inv(s.(t := Apply(s.t, env, op)))
  {
    if op.Register? { RegisterShape(s.t, env, op); }
    else if op.Create? { CreateShape(s.t, env, op); }
    else { DenyShape(s.t, env, op); }
    RequestsChangeKeeps(s, Apply(s.t, env, op));
  }

  lemma FailedCompletionKeeps(s: Store, env: Env, op: Op)
    requires Inv(s) && op.Complete? && !Completes(s.t, env, op)
    ensures Inv(s.(t := Apply(s.t, env, op)))
  {
    assert Apply(s.t, env, op) == s.t;
  }

  lemma FailedExchangeKeeps(s: Store, env: Env, op: Op)
    requires Inv(s) && op.Exchange? && !Redeems(s.t, env, op)
    ensures Inv(s.(t := Apply(s.t, env, op)))
  {
    FailedExchange(s.t, env, op);
    RevokeKeepsIf(s, op.exchange.code, op.now, true);
  }

  lemma FailedRotationKeeps(s: Store, env: Env, op: Op)
    requires Inv(s) && op.Rotate? && !Rotates(s.t, env, op)
    ensures Inv(s.(t := Apply(s.t, env, op)))
  {
    FailedRotation(s.t, env, op);
    RevokeKeepsIf(s, op.rotation.refreshToken, op.now, false);
  }

  lemma UseKeeps(s: Store, env: Env, op: Op)
    requires Inv(s) && op.Use?
    ensures Inv(s.(t := Apply(s.t, env, op)))
  {
    if Authenticate(s.t, env.cfg, op.accessToken, op.now).1.Ok? {
      var g := s.t.tokens[Digest(op.accessToken)].grantId;
      GrantChangeKeeps(s, g, s.t.grants[g].(lastUsedAt := Some(op.now)));
    }
  }

  lemma UpdateKeeps(s: Store, env: Env, op: Op)
    requires Inv(s) && op.Update?
    ensures Inv(s.(t := Apply(s.t, env, op)))
  {
    if UpdateSession(s.t, env.cfg, op.grantId, op.session, op.now).1.Ok? {
      GrantChangeKeeps(s, op.grantId, s.t.grants[op.grantId].(session := Some(op.session)));
    }
  }

  lemma RevocationKeeps(s: Store, env: Env, op: Op)
    requires Inv(s) && (op.RevokeByToken? || op.RevokeByUser?)
    ensures Inv(s.(t := Apply(s.t, env, op)))
  {
    RevokingShape(s.t, env, op);
    if op.RevokeByUser? { RevokeKeeps(s, op.grantId, op.now); } else { RevokeKeepsIf(s, op.token, op.now, false); }
  }

  /** Every other operation that issues nothing leaves the tables, revokes one grant, or touches one live grant. */
  lemma QuietKeeps(s: Store, env: Env, op: Op)
    requires Inv(s) && Quiet(s.t, env, op) && !op.Register? && !op.Create? && !op.Deny?
    ensures Inv(s.(t := Apply(s.t, env, op)))
  {
    if op.Complete? { FailedCompletionKeeps(s, env, op); }
    else if op.Exchange? { FailedExchangeKeeps(s, env, op); }
    else if op.Rotate? { FailedRotationKeeps(s, env, op); }
    else if op.Use? { UseKeeps(s, env, op); }
    else if op.Update? { UpdateKeeps(s, env, op); }
    else { RevocationKeeps(s, env, op); }
  }

  lemma RevokeKeepsIf(s: Store, secret: string, now: int, isCode: bool)
    requires Inv(s)
    ensures isCode && Digest(secret) in s.t.codes ==> Inv(s.(t := Revoke(s.t, s.t.codes[Digest(secret)].grantId, now)))
    ensures !isCode && Digest(secret) in s.t.tokens ==> Inv(s.(t := Revoke(s.t, s.t.tokens[Digest(secret)].grantId, now)))
  {
    if isCode && Digest(secret) in s.t.codes { RevokeKeeps(s, s.t.codes[Digest(secret)].grantId, now); }
    if !isCode && Digest(secret) in s.t.tokens { RevokeKeeps(s, s.t.tokens[Digest(secret)].grantId, now); }
  }

  /** Every operation keeps the invariant. */
  lemma StepKeepsInv(s: Store, env: Env, op: Op)
    requires Inv(s)
    ensures Inv(Step(s, env, op))
  {
    if Redeems(s.t, env, op) { RedeemKeeps(s, env, op); }
    else if Rotates(s.t, env, op) { RotateKeeps(s, env, op); }
    else if Completes(s.t, env, op) { CompleteKeeps(s, env, op); }
    else if op.Register? || op.Create? || op.Deny? { FrontDoorKeeps(s, env, op); }
    else { QuietKeeps(s, env, op); }
  }

  // ---- runs ----

  /** A run from any store that satisfies the invariant: state i + 1 follows state i by operation i. */
  ghost predicate StepsAt(env: Env, states: seq<Store>, ops: seq<Op>, i: nat)
    requires |states| == |ops| + 1 && i < |ops|
  {
    states[i + 1] == Step(states[i], env, ops[i])
  }

  /** A run from any state that satisfies the invariant, the empty store for one. */
  ghost predicate Run(env: Env, states: seq<Store>, ops: seq<Op>) {
    |states| == |ops| + 1 && Inv(states[0]) && forall i: nat {:trigger StepsAt(env, states, ops, i)} | i < |ops| :: StepsAt(env, states, ops, i)
  }

  lemma {:induction false} RunKeepsInv(env: Env, states: seq<Store>, ops: seq<Op>, n: nat)
    requires Run(env, states, ops) && n < |states|
    ensures Inv(states[n])
  {
    if n > 0 {
      RunKeepsInv(env, states, ops, n - 1);
      assert StepsAt(env, states, ops, n - 1);
      StepKeepsInv(states[n - 1], env, ops[n - 1]);
    }
  }

  /** A redeemed grant has exactly one unconsumed refresh token, the end of its linear chain; an unredeemed one has no token at all. */
  lemma OneLiveRefreshToken(env: Env, states: seq<Store>, ops: seq<Op>, n: nat, c: Digest)
    requires Run(env, states, ops) && n < |states| && c in states[n].t.codes
    ensures var t := states[n].t;
      var g := t.codes[c].grantId;
      if t.codes[c].consumedAt.Some?
      then exists k :: k in t.tokens && forall j ::
             (j in t.tokens && t.tokens[j].grantId == g && t.tokens[j].kind == Refresh && t.tokens[j].consumedAt.None?) <==> j == k
      else forall j | j in t.tokens :: t.tokens[j].grantId != g
  {
    RunKeepsInv(env, states, ops, n);
    var s := states[n];
    var g := s.t.codes[c].grantId;
    if s.t.codes[c].consumedAt.Some? {
      var chain := s.issued[g];
      var k := chain[|chain| - 1];
      assert ChainOk(s.t.tokens, g, chain);
      assert LinkOk(s.t.tokens, g, chain[|chain| - 1], true);
      forall j | j in s.t.tokens && s.t.tokens[j].grantId == g && s.t.tokens[j].kind == Refresh && s.t.tokens[j].consumedAt.None?
        ensures j == k
      {
        LiveRefreshIsLast(s, j);
      }
      assert k in s.t.tokens;
    }
  }

  ghost predicate CodeStays(a: Code, b: Code) {
    b.(consumedAt := None) == a.(consumedAt := None) && (a.consumedAt.Some? ==> b.consumedAt == a.consumedAt)
  }

  ghost predicate TokenStays(a: Token, b: Token) {
    b.(consumedAt := None) == a.(consumedAt := None) && (a.consumedAt.Some? ==> b.consumedAt == a.consumedAt)
  }

  ghost predicate GrantStays(a: Grant, b: Grant) {
    b.clientId == a.clientId && b.user == a.user && (a.revokedAt.Some? ==> b.revokedAt == a.revokedAt)
  }

  ghost predicate CodeLasts(s: Tables, t: Tables, c: Digest) { c in s.codes ==> c in t.codes && CodeStays(s.codes[c], t.codes[c]) }

  ghost predicate TokenLasts(s: Tables, t: Tables, k: Digest) { k in s.tokens ==> k in t.tokens && TokenStays(s.tokens[k], t.tokens[k]) }

  ghost predicate GrantLasts(s: Tables, t: Tables, g: string) { g in s.grants ==> g in t.grants && GrantStays(s.grants[g], t.grants[g]) }

  /** Consumption, revocation and the ownership of rows are permanent. */
  ghost predicate Permanent(s: Tables, t: Tables) {
    && (forall c :: CodeLasts(s, t, c)) && (forall k :: TokenLasts(s, t, k)) && (forall g :: GrantLasts(s, t, g))
    && s.clients.Keys <= t.clients.Keys
  }

  lemma IssuePermanent(t: Tables, g: string, grant: Grant, access: string, refresh: string, now: int)
    ensures Permanent(t, IssueTokens(t, g, grant, access, refresh, now).0)
  {}

  lemma RevokePermanent(t: Tables, g: string, now: int)
    ensures Permanent(t, Revoke(t, g, now))
  {}

  lemma ExchangePermanent(t: Tables, env: Env, op: Op)
    requires op.Exchange?
    ensures Permanent(t, Apply(t, env, op))
  {
    if Redeems(t, env, op) {
      var code := t.codes[Digest(op.exchange.code)];
      var used := t.(codes := t.codes[Digest(op.exchange.code) := code.(consumedAt := Some(op.now))]);
      IssuePermanent(used, code.grantId, t.grants[code.grantId], op.access, op.refresh, op.now);
      PermanentTransitive(t, used, Apply(t, env, op));
    } else {
      FailedExchange(t, env, op);
      if Digest(op.exchange.code) in t.codes { RevokePermanent(t, t.codes[Digest(op.exchange.code)].grantId, op.now); }
    }
  }

  lemma RotatePermanent(t: Tables, env: Env, op: Op)
    requires op.Rotate?
    ensures Permanent(t, Apply(t, env, op))
  {
    var k := Digest(op.rotation.refreshToken);
    if Rotates(t, env, op) {
      var token := t.tokens[k];
      var used := t.(tokens := t.tokens[k := token.(consumedAt := Some(op.now))]);
      IssuePermanent(used, token.grantId, t.grants[token.grantId], op.access, op.refresh, op.now);
      PermanentTransitive(t, used, Apply(t, env, op));
    } else {
      FailedRotation(t, env, op);
      if k in t.tokens { RevokePermanent(t, t.tokens[k].grantId, op.now); }
    }
  }

  /** A revocation leaves the tables alone or revokes the grant of the token or of the request. */
  lemma RevokingShape(t: Tables, env: Env, op: Op)
    requires op.RevokeByToken? || op.RevokeByUser?
    ensures || Apply(t, env, op) == t
            || (op.RevokeByUser? && Apply(t, env, op) == Revoke(t, op.grantId, op.now))
            || (op.RevokeByToken? && Digest(op.token) in t.tokens && Apply(t, env, op) == Revoke(t, t.tokens[Digest(op.token)].grantId, op.now))
  {}

  lemma RevokingPermanent(t: Tables, env: Env, op: Op)
    requires op.RevokeByToken? || op.RevokeByUser?
    ensures Permanent(t, Apply(t, env, op))
  {
    RevokingShape(t, env, op);
    if op.RevokeByUser? { RevokePermanent(t, op.grantId, op.now); }
    else if Digest(op.token) in t.tokens { RevokePermanent(t, t.tokens[Digest(op.token)].grantId, op.now); }
  }

  predicate IssuesOrRevokes(op: Op) { op.Exchange? || op.Rotate? || op.RevokeByToken? || op.RevokeByUser? }

  predicate OfGrants(op: Op) { op.Complete? || op.Update? }

  predicate OfRequests(op: Op) { op.Register? || op.Create? || op.Deny? }

  lemma RequestPermanent(t: Tables, env: Env, op: Op)
    requires OfRequests(op)
    ensures Permanent(t, Apply(t, env, op))
  {}

  lemma GrantPermanent(t: Tables, env: Env, op: Op)
    requires OfGrants(op)
    ensures Permanent(t, Apply(t, env, op))
  {}

  lemma OtherPermanent(t: Tables, env: Env, op: Op)
    requires !IssuesOrRevokes(op) && !OfGrants(op) && !OfRequests(op)
    ensures Permanent(t, Apply(t, env, op))
  {}

  lemma ApplyPermanent(t: Tables, env: Env, op: Op)
    ensures Permanent(t, Apply(t, env, op))
  {
    if OfGrants(op) {
      GrantPermanent(t, env, op);
    } else if OfRequests(op) {
      RequestPermanent(t, env, op);
    } else if !IssuesOrRevokes(op) {
      OtherPermanent(t, env, op);
    } else if op.Exchange? {
      ExchangePermanent(t, env, op);
    } else if op.Rotate? {
      RotatePermanent(t, env, op);
    } else {
      RevokingPermanent(t, env, op);
    }
  }

  lemma StepPermanent(env: Env, states: seq<Store>, ops: seq<Op>, i: nat)
    requires Run(env, states, ops) && i < |ops|
    ensures Permanent(states[i].t, states[i + 1].t)
  {
    assert StepsAt(env, states, ops, i);
    ApplyPermanent(states[i].t, env, ops[i]);
    StepApplies(states[i], env, ops[i]);
  }

  lemma {:induction false} RunPermanent(env: Env, states: seq<Store>, ops: seq<Op>, i: nat, j: nat)
    requires Run(env, states, ops) && i <= j < |states|
    ensures Permanent(states[i].t, states[j].t)
  {
    if i < j {
      RunPermanent(env, states, ops, i, j - 1);
      StepPermanent(env, states, ops, j - 1);
      PermanentTransitive(states[i].t, states[j - 1].t, states[j].t);
    }
  }

  lemma StepApplies(s: Store, env: Env, op: Op)
    ensures Step(s, env, op).t == Apply(s.t, env, op)
  {}

  lemma PermanentTransitive(a: Tables, b: Tables, c: Tables)
    requires Permanent(a, b) && Permanent(b, c)
    ensures Permanent(a, c)
  {
    forall x ensures CodeLasts(a, c, x) { assert CodeLasts(a, b, x) && CodeLasts(b, c, x); }
    forall x ensures TokenLasts(a, c, x) { assert TokenLasts(a, b, x) && TokenLasts(b, c, x); }
    forall x ensures GrantLasts(a, c, x) { assert GrantLasts(a, b, x) && GrantLasts(b, c, x); }
  }

  /** No run redeems one code twice (section 4.1.2 of RFC 6749). */
  lemma CodeRedeemedAtMostOnce(env: Env, states: seq<Store>, ops: seq<Op>, i: nat, j: nat)
    requires Run(env, states, ops) && i < j < |ops|
    requires Redeems(states[i].t, env, ops[i]) && Redeems(states[j].t, env, ops[j])
    ensures ops[i].exchange.code != ops[j].exchange.code
  {
    RunPermanent(env, states, ops, i + 1, j);
    assert StepsAt(env, states, ops, i);
    assert CodeLasts(states[i + 1].t, states[j].t, Digest(ops[i].exchange.code));
  }

  /** Nor is a refresh token rotated twice (section 10.4 of RFC 6749). */
  lemma RefreshRotatedAtMostOnce(env: Env, states: seq<Store>, ops: seq<Op>, i: nat, j: nat)
    requires Run(env, states, ops) && i < j < |ops|
    requires Rotates(states[i].t, env, ops[i]) && Rotates(states[j].t, env, ops[j])
    ensures ops[i].rotation.refreshToken != ops[j].rotation.refreshToken
  {
    RunPermanent(env, states, ops, i + 1, j);
    assert StepsAt(env, states, ops, i);
    assert TokenLasts(states[i + 1].t, states[j].t, Digest(ops[i].rotation.refreshToken));
  }

  lemma RotatedIsConsumed(s: Store, env: Env, op: Op)
    requires Rotates(s.t, env, op)
    ensures var k := Digest(op.rotation.refreshToken);
      && k in s.t.tokens && k in Step(s, env, op).t.tokens && Step(s, env, op).t.tokens[k].consumedAt.Some?
      && Step(s, env, op).t.tokens[k].(consumedAt := None) == s.t.tokens[k].(consumedAt := None)
      && s.t.tokens[k].kind == Refresh && s.t.grants[s.t.tokens[k].grantId].clientId == op.rotation.clientId
      && KnownClient(s.t, op.rotation.clientId) && op.rotation.resource == env.cfg.resource && IsToken(op.rotation.refreshToken)
  {}

  lemma ReplayRevokes(s: Store, env: Env, op: Op)
    requires op.Rotate? && Digest(op.rotation.refreshToken) in s.t.tokens
    requires var token := s.t.tokens[Digest(op.rotation.refreshToken)];
      && token.kind == Refresh && token.consumedAt.Some? && !Expired(token.expiresAt, op.now)
      && ActiveGrant(s.t, env.cfg, token.grantId, op.now).Ok? && s.t.grants[token.grantId].clientId == op.rotation.clientId
    requires KnownClient(s.t, op.rotation.clientId) && op.rotation.resource == env.cfg.resource && IsToken(op.rotation.refreshToken)
    ensures var g := s.t.tokens[Digest(op.rotation.refreshToken)].grantId;
      g in Step(s, env, op).t.grants && Step(s, env, op).t.grants[g].revokedAt.Some?
  {
    FailedRotation(s.t, env, op);
    RevokeIsLocal(s.t, s.t.tokens[Digest(op.rotation.refreshToken)].grantId, op.now);
  }

  lemma ConsumedDoesNotRotate(t: Tables, env: Env, op: Op)
    requires op.Rotate? && Digest(op.rotation.refreshToken) in t.tokens && t.tokens[Digest(op.rotation.refreshToken)].consumedAt.Some?
    ensures !Rotates(t, env, op)
  {}

  /** Replaying a rotated refresh token while its grant is active always revokes that grant and yields nothing. */
  lemma ReplayedRefreshRevokes(env: Env, states: seq<Store>, ops: seq<Op>, i: nat, j: nat)
    requires Run(env, states, ops) && i < j < |ops|
    requires Rotates(states[i].t, env, ops[i]) && ops[j].Rotate? && ops[j].rotation == ops[i].rotation
    ensures var k := Digest(ops[i].rotation.refreshToken);
      && !Rotates(states[j].t, env, ops[j])
      && k in states[j].t.tokens
      && (var g := states[j].t.tokens[k].grantId;
          (ActiveGrant(states[j].t, env.cfg, g, ops[j].now).Ok? && !Expired(states[j].t.tokens[k].expiresAt, ops[j].now)) ==>
            g in states[j + 1].t.grants && states[j + 1].t.grants[g].revokedAt.Some?)
  {
    var k := Digest(ops[i].rotation.refreshToken);
    RotatedIsConsumed(states[i], env, ops[i]);
    RunPermanent(env, states, ops, i, j);
    RunPermanent(env, states, ops, i + 1, j);
    assert StepsAt(env, states, ops, i) && StepsAt(env, states, ops, j);
    assert TokenLasts(states[i + 1].t, states[j].t, k) && GrantLasts(states[i].t, states[j].t, states[i].t.tokens[k].grantId);
    ConsumedDoesNotRotate(states[j].t, env, ops[j]);
    var token := states[j].t.tokens[k];
    if ActiveGrant(states[j].t, env.cfg, token.grantId, ops[j].now).Ok? && !Expired(token.expiresAt, ops[j].now) {
      ReplayRevokes(states[j], env, ops[j]);
    }
  }

  /** Tokens come only to the client, address and challenge of the authorization request, which no other grant uses. */
  lemma RedeemedOnlyByTheRequester(s: Store, env: Env, op: Op)
    requires Inv(s) && Redeems(s.t, env, op)
    ensures var g := s.t.codes[Digest(op.exchange.code)].grantId;
      && g in s.origin && s.origin[g] in s.t.requests
      && (var request := s.t.requests[s.origin[g]];
          && request.clientId == op.exchange.clientId && request.redirectUri == op.exchange.redirectUri
          && request.codeChallenge == env.s256(op.exchange.codeVerifier))
      && (forall h | h in s.t.grants && s.origin[h] == s.origin[g] :: h == g)
      && op.now < s.t.codes[Digest(op.exchange.code)].expiresAt
  {}

  /** In every reachable state a token's grant has the client of the request behind it. */
  lemma TokensBelongToTheRequester(env: Env, states: seq<Store>, ops: seq<Op>, n: nat, k: Digest)
    requires Run(env, states, ops) && n < |states| && k in states[n].t.tokens
    ensures var s := states[n];
      var g := s.t.tokens[k].grantId;
      && g in s.t.grants && g in s.origin && s.origin[g] in s.t.requests
      && s.t.grants[g].clientId == s.t.requests[s.origin[g]].clientId && s.t.requests[s.origin[g]].consumedAt.Some?
  {
    RunKeepsInv(env, states, ops, n);
  }

  // ---- failures ----

  /** A failing exchange changes nothing, or it is a replay that answers the challenge in time and revokes just that grant. */
  lemma FailedExchange(t: Tables, env: Env, op: Op)
    requires op.Exchange? && !Redeems(t, env, op)
    ensures var replay := KnownClient(t, op.exchange.clientId) && op.exchange.resource == env.cfg.resource
              && CodeAnswers(t, env.cfg, op.exchange, env.s256, op.now) && t.codes[Digest(op.exchange.code)].consumedAt.Some?;
      Apply(t, env, op) == if replay then Revoke(t, t.codes[Digest(op.exchange.code)].grantId, op.now) else t
  {}

  /** A failing rotation changes nothing, or it is a replay by the grant's own client and revokes just that grant. */
  lemma FailedRotation(t: Tables, env: Env, op: Op)
    requires op.Rotate? && !Rotates(t, env, op)
    ensures var k := Digest(op.rotation.refreshToken);
      var replay := KnownClient(t, op.rotation.clientId) && op.rotation.resource == env.cfg.resource && IsToken(op.rotation.refreshToken)
        && k in t.tokens && t.tokens[k].kind == Refresh && !Expired(t.tokens[k].expiresAt, op.now) && t.tokens[k].consumedAt.Some?
        && ActiveGrant(t, env.cfg, t.tokens[k].grantId, op.now).Ok? && t.grants[t.tokens[k].grantId].clientId == op.rotation.clientId;
      Apply(t, env, op) == if replay then Revoke(t, t.tokens[k].grantId, op.now) else t
  {}

  /** Revoking touches no row but the grant's, and of it only the session and, the first time, the date. */
  lemma RevokeIsLocal(t: Tables, g: string, now: int)
    requires g in t.grants
    ensures var r := Revoke(t, g, now);
      && r == t.(grants := r.grants) && r.grants.Keys == t.grants.Keys
      && (forall h | h in t.grants && h != g :: r.grants[h] == t.grants[h])
      && r.grants[g].session == None && r.grants[g].revokedAt.Some?
      && (t.grants[g].revokedAt.Some? ==> r.grants[g].revokedAt == t.grants[g].revokedAt)
  {}

  /** Nothing authenticates, redeems, rotates or updates a revoked grant. */
  ghost predicate Inert(t: Tables, env: Env, op: Op, g: string) {
    && (Redeems(t, env, op) ==> t.codes[Digest(op.exchange.code)].grantId != g)
    && (Rotates(t, env, op) ==> t.tokens[Digest(op.rotation.refreshToken)].grantId != g)
    && (op.Use? && Authenticate(t, env.cfg, op.accessToken, op.now).1.Ok? ==>
          Authenticate(t, env.cfg, op.accessToken, op.now).1.value.grantId != g)
    && (op.Update? && op.grantId == g ==> UpdateSession(t, env.cfg, g, op.session, op.now).1.Fail?)
    && GrantForMaintenance(t, env.cfg, g, op.now).Fail?
  }

  lemma RevokedIsInert(t: Tables, env: Env, op: Op, g: string)
    requires g in t.grants && t.grants[g].revokedAt.Some?
    ensures Inert(t, env, op, g)
  {}

  /** Once revoked, a grant stays revoked without a session, and no later operation authenticates, redeems, rotates or updates it. */
  lemma RevokedForGood(env: Env, states: seq<Store>, ops: seq<Op>, i: nat, j: nat, g: string)
    requires Run(env, states, ops) && i <= j < |states|
    requires g in states[i].t.grants && states[i].t.grants[g].revokedAt.Some?
    ensures g in states[j].t.grants && states[j].t.grants[g].session.None?
    ensures states[j].t.grants[g].revokedAt == states[i].t.grants[g].revokedAt
    ensures j < |ops| ==> Inert(states[j].t, env, ops[j], g)
  {
    RunPermanent(env, states, ops, i, j);
    RunKeepsInv(env, states, ops, j);
    assert GrantLasts(states[i].t, states[j].t, g);
    assert GrantRow(states[j], g);
    if j < |ops| { RevokedIsInert(states[j].t, env, ops[j], g); }
  }

  /** What a revocation of grant g, by its user or by one of its tokens, hands out to be logged out upstream. */
  function HandedOut(t: Tables, op: Op, g: string): Option<Session> {
    var outcome :=
      if op.RevokeByUser? && op.grantId == g then RevokeGrantForUser(t, g, op.userId, op.now).1
      else if op.RevokeByToken? && Digest(op.token) in t.tokens && t.tokens[Digest(op.token)].grantId == g
      then RevokeToken(t, op.token, op.clientId, op.now).1
      else Ok(None);
    if outcome.Ok? then outcome.value else None
  }

  lemma HandingOutRevokes(s: Store, env: Env, op: Op, g: string)
    requires HandedOut(s.t, op, g).Some?
    ensures g in s.t.grants && HandedOut(s.t, op, g) == s.t.grants[g].session
    ensures g in Step(s, env, op).t.grants && Step(s, env, op).t.grants[g].revokedAt.Some?
  {
    StepApplies(s, env, op);
    assert Apply(s.t, env, op) == Revoke(s.t, g, op.now);
  }

  lemma RevokedHandsOutNothing(t: Tables, op: Op, g: string)
    requires g in t.grants && t.grants[g].revokedAt.Some?
    ensures HandedOut(t, op, g).None?
    ensures op.RevokeByUser? && op.grantId == g ==> RevokeGrantForUser(t, g, op.userId, op.now) == (t, Ok(None))
  {
  }

  /** In a run the session of a grant is handed out by at most one revocation, of whichever kind and whatever lies between. */
  lemma RevokedSessionHandedOutOnce(env: Env, states: seq<Store>, ops: seq<Op>, i: nat, j: nat, g: string)
    requires Run(env, states, ops) && i < j < |ops| && HandedOut(states[i].t, ops[i], g).Some?
    ensures g in states[i].t.grants && HandedOut(states[i].t, ops[i], g) == states[i].t.grants[g].session
    ensures HandedOut(states[j].t, ops[j], g).None?
    ensures ops[j].RevokeByUser? && ops[j].grantId == g ==>
              RevokeGrantForUser(states[j].t, g, ops[j].userId, ops[j].now) == (states[j].t, Ok(None))
  {
    assert StepsAt(env, states, ops, i);
    HandingOutRevokes(states[i], env, ops[i], g);
    RevokedForGood(env, states, ops, i + 1, j, g);
    RevokedHandsOutNothing(states[j].t, ops[j], g);
  }
}
