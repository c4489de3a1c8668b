/** The store object of the gateway, method by method against the table operations. */
module RemoteAuthStorage {
  import opened Wrappers
  import opened Strings
  import opened RemoteAuth
  import Op = RemoteAuth

  /** The store object. A failing transaction puts the tables back as they were when it began. */
  class RemoteAuthStore {
    const config: Config
    var clients: map<string, Client>
    var requests: map<Digest, Request>
    var grants: map<string, Grant>
    var codes: map<Digest, Code>
    var tokens: map<Digest, Token>

    constructor (config: Config)
      ensures this.config == config && State() == Tables(map[], map[], map[], map[], map[])
    {
      this.config := config;
      clients, requests, grants, codes, tokens := map[], map[], map[], map[], map[];
    }

    ghost function State(): Tables
      reads this
    {
      Tables(clients, requests, grants, codes, tokens)
    }

    method Find(requestId: string, csrfToken: string, now: int) returns (r: Outcome<Request>)
      ensures r == FindRequest(State(), config, requestId, csrfToken, now)
    {
      if !IsToken(requestId) || !IsToken(csrfToken) { return Fail(InvalidRequest); }
      if Digest(requestId) !in requests { return Fail(InvalidRequest); }
      var row := requests[Digest(requestId)];
      if row.consumedAt.Some? || row.expiresAt <= now || row.csrf != Digest(csrfToken) ||
         row.resource != config.resource || row.scope != SCOPE || row.redirectUri !in config.redirects {
        return Fail(InvalidRequest);
      }
      r := Ok(row);
    }

    method Active(grantId: string, now: int) returns (r: Outcome<Grant>)
      ensures r == ActiveGrant(State(), config, grantId, now)
    {
      if grantId !in grants { return Fail(InvalidGrant); }
      var row := grants[grantId];
      if row.revokedAt.Some? || Expired(row.expiresAt, now) || row.session.None? ||
         row.resource != config.resource || row.scope != SCOPE {
        return Fail(InvalidGrant);
      }
      r := Ok(row);
    }

    method MarkRevoked(grantId: string, now: int)
      modifies this`grants
      ensures State() == Revoke(old(State()), grantId, now)
    {
      if grantId in grants {
        var row := grants[grantId];
        var at := if row.revokedAt.Some? then row.revokedAt else Some(now);
        grants := grants[grantId := row.(revokedAt := at, session := None)];
      }
    }

    /** Two inserts; the first stays behind when the second fails, until the transaction rolls back. */
    method Issue(grantId: string, grant: Grant, access: string, refresh: string, now: int) returns (r: Outcome<TokenResponse>)
      modifies this`tokens
      ensures r == IssueTokens(old(State()), grantId, grant, access, refresh, now).1
      ensures r.Ok? ==> State() == IssueTokens(old(State()), grantId, grant, access, refresh, now).0
    {
      var accessExpiresAt := AccessExpiry(grant, now);
      if Digest(access) in tokens { return Fail(ConstraintViolation); }
      tokens := tokens[Digest(access) := Token(grantId, Access, accessExpiresAt, None)];
      if Digest(refresh) in tokens { return Fail(ConstraintViolation); }
      tokens := tokens[Digest(refresh) := Token(grantId, Refresh, grant.expiresAt, None)];
      r := Ok(TokenResponse(access, refresh, (accessExpiresAt - now) / 1000));
    }

    method RegisterClient(redirectUris: seq<string>, clientName: Option<string>, authMethod: Option<string>, clientId: string, now: int)
      returns (r: Outcome<string>)
      modifies this`clients
      ensures (State(), r) == Op.RegisterClient(old(State()), config, redirectUris, clientName, authMethod, clientId, now)
    {
      var name := if clientName.Some? then clientName.value else DEFAULT_CLIENT_NAME;
      if redirectUris == [] || |redirectUris| > 10 || (exists u | u in redirectUris :: u !in config.redirects) ||
         (authMethod.Some? && authMethod.value != "none") {
        return Fail(InvalidClientMetadata);
      }
      if Blank(name) || |name| > 100 || HasControl(name) { return Fail(InvalidClientMetadata); }
      if |clients| >= MAX_CLIENTS { return Fail(TemporarilyUnavailable); }
      if clientId in clients { return Fail(ConstraintViolation); }
      clients := clients[clientId := Client(Trim(name), (set u | u in redirectUris), now)];
      r := Ok(clientId);
    }

    method CreateAuthorization(input: AuthorizationInput, requestId: string, csrfToken: string, now: int) returns (r: Outcome<string>)
      modifies this`requests
      ensures (State(), r) == Op.CreateAuthorization(old(State()), config, input, requestId, csrfToken, now)
    {
      if !IsToken(input.clientId) || input.clientId !in clients { return Fail(InvalidClient); }
      if input.redirectUri !in clients[input.clientId].redirects || input.redirectUri !in config.redirects { return Fail(InvalidRequest); }
      if input.responseType != "code" { return Fail(UnsupportedResponseType); }
      if input.resource != config.resource { return Fail(InvalidTarget); }
      if input.scope != SCOPE { return Fail(InvalidScope); }
      if input.codeChallengeMethod != "S256" || !IsToken(input.codeChallenge) { return Fail(InvalidRequest); }
      if |input.state| > 2_048 || HasControl(input.state) { return Fail(InvalidRequest); }
      if Digest(requestId) in requests { return Fail(ConstraintViolation); }
      requests := requests[Digest(requestId) := Request(Digest(csrfToken), input.clientId, input.redirectUri,
        input.codeChallenge, SCOPE, config.resource, input.state, now + REQUEST_TTL, None)];
      r := Ok(requestId);
    }

    method CompleteAuthorization(requestId: string, csrfToken: string, session: Session, profile: Profile,
                                 grantId: string, code: string, now: int) returns (r: Outcome<string>)
      modifies this`requests, this`grants, this`codes
      ensures (State(), r) ==
        Op.CompleteAuthorization(old(State()), config, requestId, csrfToken, session, profile, grantId, code, now)
    {
      if !ValidSession(session) || !ValidProfile(profile) { return Fail(ServerError); }
      var requestsBefore, grantsBefore, codesBefore := requests, grants, codes;
      var found := Find(requestId, csrfToken, now);
      if found.Fail? { return Fail(found.error); }
      var row := found.value;
      if grantId in grants { return Fail(ConstraintViolation); }
      grants := grants[grantId := Grant(row.clientId, profile, Some(session), SCOPE, config.resource, now, None, NO_EXPIRATION, None)];
      if Digest(code) in codes {
        requests, grants, codes := requestsBefore, grantsBefore, codesBefore;
        return Fail(ConstraintViolation);
      }
      codes := codes[Digest(code) := Code(grantId, row.clientId, row.redirectUri, row.codeChallenge, config.resource, now + CODE_TTL, None)];
      requests := requests[Digest(requestId) := row.(consumedAt := Some(now))];
      r := Ok(code);
    }

    method DenyAuthorization(requestId: string, csrfToken: string, now: int) returns (r: Outcome<string>)
      modifies this`requests
      ensures (State(), r) == Op.DenyAuthorization(old(State()), config, requestId, csrfToken, now)
    {
      var found := Find(requestId, csrfToken, now);
      if found.Fail? { return Fail(found.error); }
      requests := requests[Digest(requestId) := found.value.(consumedAt := Some(now))];
      r := Ok(found.value.redirectUri);
    }

    method ExchangeCode(input: ExchangeInput, s256: string -> string, access: string, refresh: string, now: int)
      returns (r: Outcome<TokenResponse>)
      modifies this`grants, this`codes, this`tokens
      ensures (State(), r) == Op.ExchangeCode(old(State()), config, input, s256, access, refresh, now)
    {
      if !IsToken(input.clientId) || input.clientId !in clients { return Fail(InvalidClient); }
      if input.resource != config.resource { return Fail(InvalidTarget); }
      if !IsVerifier(input.codeVerifier) || !IsToken(input.code) { return Fail(InvalidGrant); }
      var grantsBefore, codesBefore, tokensBefore := grants, codes, tokens;
      var id := Digest(input.code);
      if id !in codes { return Fail(InvalidGrant); }
      var code := codes[id];
      if code.clientId != input.clientId || code.redirectUri != input.redirectUri ||
         code.resource != config.resource || code.expiresAt <= now {
        return Fail(InvalidGrant);
      }
      if s256(input.codeVerifier) != code.codeChallenge { return Fail(InvalidGrant); }
      if code.consumedAt.Some? {
        MarkRevoked(code.grantId, now);
        return Fail(InvalidGrant);
      }
      var grant := Active(code.grantId, now);
      if grant.Fail? { return Fail(grant.error); }
      codes := codes[id := code.(consumedAt := Some(now))];
      r := Issue(code.grantId, grant.value, access, refresh, now);
      if r.Fail? { grants, codes, tokens := grantsBefore, codesBefore, tokensBefore; }
    }

    method RefreshTokens(input: RefreshInput, access: string, refresh: string, now: int) returns (r: Outcome<TokenResponse>)
      modifies this`grants, this`tokens
      ensures (State(), r) == Op.RefreshTokens(old(State()), config, input, access, refresh, now)
    {
      if !IsToken(input.clientId) || input.clientId !in clients { return Fail(InvalidClient); }
      if input.resource != config.resource { return Fail(InvalidTarget); }
      if !IsToken(input.refreshToken) { return Fail(InvalidGrant); }
      var tokensBefore := tokens;
      var id := Digest(input.refreshToken);
      if id !in tokens || tokens[id].kind != Refresh || Expired(tokens[id].expiresAt, now) { return Fail(InvalidGrant); }
      var token := tokens[id];
      var grant := Active(token.grantId, now);
      if grant.Fail? { return Fail(grant.error); }
      if grant.value.clientId != input.clientId || grant.value.resource != input.resource { return Fail(InvalidGrant); }
      if token.consumedAt.Some? {
        MarkRevoked(token.grantId, now);
        return Fail(InvalidGrant);
      }
      tokens := tokens[id := token.(consumedAt := Some(now))];
      r := Issue(token.grantId, grant.value, access, refresh, now);
      if r.Fail? { tokens := tokensBefore; }
    }

    method Authenticate(token: string, now: int) returns (r: Outcome<Authenticated>)
      modifies this`grants
      ensures (State(), r) == Op.Authenticate(old(State()), config, token, now)
    {
      if !IsToken(token) { return Fail(InvalidToken); }
      var id := Digest(token);
      if id !in tokens || tokens[id].kind != Access || tokens[id].consumedAt.Some? || tokens[id].expiresAt <= now {
        return Fail(InvalidToken);
      }
      var grantId := tokens[id].grantId;
      var grant := Active(grantId, now);
      if grant.Fail? { return Fail(InvalidToken); }
      grants := grants[grantId := grant.value.(lastUsedAt := Some(now))];
      r := Ok(Authenticated(grantId, grant.value.user, grant.value.session.value));
    }

    method UpdateSession(grantId: string, session: Session, now: int) returns (r: Outcome<()>)
      modifies this`grants
      ensures (State(), r) == Op.UpdateSession(old(State()), config, grantId, session, now)
    {
      if !ValidSession(session) { return Fail(ServerError); }
      var grant := Active(grantId, now);
      if grant.Fail? { return Fail(grant.error); }
      grants := grants[grantId := grant.value.(session := Some(session))];
      r := Ok(());
    }

    method RevokeToken(token: string, clientId: string, now: int) returns (r: Outcome<Option<Session>>)
      modifies this`grants
      ensures (State(), r) == Op.RevokeToken(old(State()), token, clientId, now)
    {
      if !IsToken(clientId) || clientId !in clients { return Fail(InvalidClient); }
      if !IsToken(token) || Digest(token) !in tokens { return Ok(None); }
      var grantId := tokens[Digest(token)].grantId;
      if grantId !in grants || grants[grantId].clientId != clientId || grants[grantId].revokedAt.Some? { return Ok(None); }
      var session := grants[grantId].session;
      if session.None? { return Fail(ServerError); }
      MarkRevoked(grantId, now);
      r := Ok(session);
    }

    method RevokeGrantForUser(grantId: string, userId: string, now: int) returns (r: Outcome<Option<Session>>)
      modifies this`grants
      ensures (State(), r) == Op.RevokeGrantForUser(old(State()), grantId, userId, now)
    {
      if grantId !in grants || grants[grantId].user.id != userId || grants[grantId].revokedAt.Some? { return Ok(None); }
      var session := grants[grantId].session;
      if session.None? { return Fail(ServerError); }
      MarkRevoked(grantId, now);
      r := Ok(session);
    }
  }
}
