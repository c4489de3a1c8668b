/** The OAuth store of the remote gateway: five tables, and every operation as one atomic step over them. */
module RemoteAuth {
  import opened Wrappers
  import opened Strings

  const SCOPE := "finance:read"
  const REQUEST_TTL := 600_000
  const CODE_TTL := 300_000
  const ACCESS_TTL := 3_600_000
  const NO_EXPIRATION := 0
  const MAX_CLIENTS := 1_000
  const DEFAULT_CLIENT_NAME := "연결된 AI 도구"

  datatype Outcome<+T> = Ok(value: T) | Fail(error: OAuthError)
  datatype OAuthError =
    | InvalidClientMetadata | TemporarilyUnavailable | InvalidClient | InvalidRequest | UnsupportedResponseType
    | InvalidScope | InvalidTarget | InvalidGrant | InvalidToken | ServerError | ConstraintViolation

  /** What the tables hold of a secret: its digest, which determines it. */
  datatype Digest = Digest(secret: string)

  datatype Session = Session(accessToken: string, refreshCookie: string)
  datatype Profile = Profile(id: string, name: string)

  datatype Client = Client(name: string, redirects: set<string>, createdAt: int)
  datatype Request = Request(csrf: Digest, clientId: string, redirectUri: string, codeChallenge: string, scope: string,
                             resource: string, state: string, expiresAt: int, consumedAt: Option<int>)
  datatype Grant = Grant(clientId: string, user: Profile, session: Option<Session>, scope: string, resource: string,
                         createdAt: int, lastUsedAt: Option<int>, expiresAt: int, revokedAt: Option<int>)
  datatype Code = Code(grantId: string, clientId: string, redirectUri: string, codeChallenge: string, resource: string,
                       expiresAt: int, consumedAt: Option<int>)
  datatype Kind = Access | Refresh
  datatype Token = Token(grantId: string, kind: Kind, expiresAt: int, consumedAt: Option<int>)

  datatype Tables = Tables(clients: map<string, Client>, requests: map<Digest, Request>, grants: map<string, Grant>,
                           codes: map<Digest, Code>, tokens: map<Digest, Token>)

  datatype Config = Config(resource: string, redirects: set<string>)

  datatype TokenResponse = TokenResponse(accessToken: string, refreshToken: string, expiresIn: int)
  datatype Authenticated = Authenticated(grantId: string, profile: Profile, session: Session)

  // ---- shapes of the inputs ----

  predicate IsAlphanumeric(c: char) { 'A' <= c <= 'Z' || 'a' <= c <= 'z' || '0' <= c <= '9' }

  predicate IsToken(s: string) {
    |s| == 43 && forall i | 0 <= i < |s| :: IsAlphanumeric(s[i]) || s[i] in "_-"
  }

  predicate IsVerifier(s: string) {
    43 <= |s| <= 128 && forall i | 0 <= i < |s| :: IsAlphanumeric(s[i]) || s[i] in "._~-"
  }

  predicate HasControl(s: string) {
    exists i | 0 <= i < |s| :: (s[i] as int) < 0x20 || (s[i] as int) == 0x7F
  }

  predicate ValidSession(s: Session) {
    && 0 < |s.accessToken| <= 16_384 && 0 < |s.refreshCookie| <= 8_192
    && forall c | c in s.accessToken + s.refreshCookie :: c != '\r' && c != '\n' && c != '\0'
  }

  predicate ValidProfile(p: Profile) { 0 < |p.id| <= 256 && |p.name| <= 256 }

  predicate Expired(expiresAt: int, now: int) { expiresAt != NO_EXPIRATION && expiresAt <= now }

  // ---- lookups ----

  predicate KnownClient(t: Tables, clientId: string) { IsToken(clientId) && clientId in t.clients }

  function FindRequest(t: Tables, cfg: Config, requestId: string, csrfToken: string, now: int): Outcome<Request> {
    if !IsToken(requestId) || !IsToken(csrfToken) || Digest(requestId) !in t.requests then Fail(InvalidRequest)
    else
      var row := t.requests[Digest(requestId)];
      if row.consumedAt.Some? || row.expiresAt <= now || row.csrf != Digest(csrfToken) || row.resource != cfg.resource
         || row.scope != SCOPE || row.redirectUri !in cfg.redirects
      then Fail(InvalidRequest) else Ok(row)
  }

  function ActiveGrant(t: Tables, cfg: Config, grantId: string, now: int): Outcome<Grant> {
    if grantId !in t.grants then Fail(InvalidGrant)
    else
      var g := t.grants[grantId];
      if g.revokedAt.Some? || Expired(g.expiresAt, now) || g.session.None? || g.resource != cfg.resource || g.scope != SCOPE
      then Fail(InvalidGrant) else Ok(g)
  }

  // ---- row updates shared by several operations ----

  function ConsumeRequest(t: Tables, id: Digest, now: int): Tables
    requires id in t.requests
  {
    t.(requests := t.requests[id := t.requests[id].(consumedAt := Some(now))])
  }

  function Revoke(t: Tables, grantId: string, now: int): Tables {
    if grantId !in t.grants then t
    else
      var g := t.grants[grantId];
      t.(grants := t.grants[grantId := g.(revokedAt := if g.revokedAt.Some? then g.revokedAt else Some(now), session := None)])
  }

  function AccessExpiry(grant: Grant, now: int): int {
    if grant.expiresAt == NO_EXPIRATION || now + ACCESS_TTL <= grant.expiresAt then now + ACCESS_TTL else grant.expiresAt
  }

  function IssueTokens(t: Tables, grantId: string, grant: Grant, access: string, refresh: string, now: int): (r: (Tables, Outcome<TokenResponse>))
  {
    if Digest(access) in t.tokens || Digest(refresh) in t.tokens || access == refresh then (t, Fail(ConstraintViolation))
    else
      var accessExpiresAt := AccessExpiry(grant, now);
      (t.(tokens := t.tokens[Digest(access) := Token(grantId, Access, accessExpiresAt, None)]
                            [Digest(refresh) := Token(grantId, Refresh, grant.expiresAt, None)]),
       Ok(TokenResponse(access, refresh, (accessExpiresAt - now) / 1000)))
  }

  // ---- the operations ----

  function RegisterClient(t: Tables, cfg: Config, redirectUris: seq<string>, clientName: Option<string>, authMethod: Option<string>,
                          clientId: string, now: int): (Tables, Outcome<string>)
  {
    var name := if clientName.Some? then clientName.value else DEFAULT_CLIENT_NAME;
    if redirectUris == [] || |redirectUris| > 10 || (exists u | u in redirectUris :: u !in cfg.redirects)
       || (authMethod.Some? && authMethod.value != "none") then (t, Fail(InvalidClientMetadata))
    else if Blank(name) || |name| > 100 || HasControl(name) then (t, Fail(InvalidClientMetadata))
    else if |t.clients| >= MAX_CLIENTS then (t, Fail(TemporarilyUnavailable))
    else if clientId in t.clients then (t, Fail(ConstraintViolation))
    else (t.(clients := t.clients[clientId := Client(Trim(name), (set u | u in redirectUris), now)]), Ok(clientId))
  }

  datatype AuthorizationInput = AuthorizationInput(
    clientId: string, redirectUri: string, responseType: string, codeChallenge: string, codeChallengeMethod: string,
    scope: string, resource: string, state: string)

  function CreateAuthorization(t: Tables, cfg: Config, input: AuthorizationInput, requestId: string, csrfToken: string, now: int):
    (Tables, Outcome<string>)
  {
    if !KnownClient(t, input.clientId) then (t, Fail(InvalidClient))
    else if input.redirectUri !in t.clients[input.clientId].redirects || input.redirectUri !in cfg.redirects then (t, Fail(InvalidRequest))
    else if input.responseType != "code" then (t, Fail(UnsupportedResponseType))
    else if input.resource != cfg.resource then (t, Fail(InvalidTarget))
    else if input.scope != SCOPE then (t, Fail(InvalidScope))
    else if input.codeChallengeMethod != "S256" || !IsToken(input.codeChallenge) then (t, Fail(InvalidRequest))
    else if |input.state| > 2_048 || HasControl(input.state) then (t, Fail(InvalidRequest))
    else if Digest(requestId) in t.requests then (t, Fail(ConstraintViolation))
    else
      (t.(requests := t.requests[Digest(requestId) :=
         Request(Digest(csrfToken), input.clientId, input.redirectUri, input.codeChallenge, SCOPE, cfg.resource,
                 input.state, now + REQUEST_TTL, None)]),
       Ok(requestId))
  }

  /** Inserts the grant and its code, and uses up the request. */
  function CompleteAuthorization(t: Tables, cfg: Config, requestId: string, csrfToken: string, session: Session, profile: Profile,
                                 grantId: string, code: string, now: int): (Tables, Outcome<string>)
  {
    if !ValidSession(session) || !ValidProfile(profile) then (t, Fail(ServerError))
    else
      match FindRequest(t, cfg, requestId, csrfToken, now)
      case Fail(e) => (t, Fail(e))
      case Ok(row) =>
        if grantId in t.grants || Digest(code) in t.codes then (t, Fail(ConstraintViolation))
        else
          (ConsumeRequest(
             t.(grants := t.grants[grantId := Grant(row.clientId, profile, Some(session), SCOPE, cfg.resource, now, None, NO_EXPIRATION, None)],
                codes := t.codes[Digest(code) := Code(grantId, row.clientId, row.redirectUri, row.codeChallenge, cfg.resource, now + CODE_TTL, None)]),
             Digest(requestId), now),
           Ok(code))
  }

  function DenyAuthorization(t: Tables, cfg: Config, requestId: string, csrfToken: string, now: int): (Tables, Outcome<string>) {
    match FindRequest(t, cfg, requestId, csrfToken, now)
    case Fail(e) => (t, Fail(e))
    case Ok(row) => (ConsumeRequest(t, Digest(requestId), now), Ok(row.redirectUri))
  }

  datatype ExchangeInput = ExchangeInput(code: string, clientId: string, redirectUri: string, codeVerifier: string, resource: string)

  /** The code is the one asked for: right client, address and resource, not expired, and the verifier answers the challenge. */
  predicate CodeAnswers(t: Tables, cfg: Config, input: ExchangeInput, s256: string -> string, now: int) {
    && IsVerifier(input.codeVerifier) && IsToken(input.code) && Digest(input.code) in t.codes
    && var code := t.codes[Digest(input.code)];
    && code.clientId == input.clientId && code.redirectUri == input.redirectUri && code.resource == cfg.resource
    && code.expiresAt > now && s256(input.codeVerifier) == code.codeChallenge
  }

  function ExchangeCode(t: Tables, cfg: Config, input: ExchangeInput, s256: string -> string, access: string, refresh: string, now: int):
    (Tables, Outcome<TokenResponse>)
  {
    if !KnownClient(t, input.clientId) then (t, Fail(InvalidClient))
    else if input.resource != cfg.resource then (t, Fail(InvalidTarget))
    else if !CodeAnswers(t, cfg, input, s256, now) then (t, Fail(InvalidGrant))
    else
      var id := Digest(input.code);
      var code := t.codes[id];
      if code.consumedAt.Some? then (Revoke(t, code.grantId, now), Fail(InvalidGrant))
      else
        match ActiveGrant(t, cfg, code.grantId, now)
        case Fail(e) => (t, Fail(e))
        case Ok(grant) =>
          var used := t.(codes := t.codes[id := code.(consumedAt := Some(now))]);
          var (issued, response) := IssueTokens(used, code.grantId, grant, access, refresh, now);
          if response.Ok? then (issued, response) else (t, response)
  }

  datatype RefreshInput = RefreshInput(refreshToken: string, clientId: string, resource: string)

  function RefreshTokens(t: Tables, cfg: Config, input: RefreshInput, access: string, refresh: string, now: int):
    (Tables, Outcome<TokenResponse>)
  {
    var id := Digest(input.refreshToken);
    if !KnownClient(t, input.clientId) then (t, Fail(InvalidClient))
    else if input.resource != cfg.resource then (t, Fail(InvalidTarget))
    else if !IsToken(input.refreshToken) || id !in t.tokens || t.tokens[id].kind != Refresh || Expired(t.tokens[id].expiresAt, now)
    then (t, Fail(InvalidGrant))
    else
      var token := t.tokens[id];
      match ActiveGrant(t, cfg, token.grantId, now)
      case Fail(e) => (t, Fail(e))
      case Ok(grant) =>
        if grant.clientId != input.clientId || grant.resource != input.resource then (t, Fail(InvalidGrant))
        else if token.consumedAt.Some? then (Revoke(t, token.grantId, now), Fail(InvalidGrant))
        else
          var used := t.(tokens := t.tokens[id := token.(consumedAt := Some(now))]);
          var (issued, response) := IssueTokens(used, token.grantId, grant, access, refresh, now);
          if response.Ok? then (issued, response) else (t, response)
  }

  function Authenticate(t: Tables, cfg: Config, token: string, now: int): (Tables, Outcome<Authenticated>) {
    var id := Digest(token);
    if !IsToken(token) || id !in t.tokens || t.tokens[id].kind != Access || t.tokens[id].consumedAt.Some? || t.tokens[id].expiresAt <= now
    then (t, Fail(InvalidToken))
    else
      var grantId := t.tokens[id].grantId;
      match ActiveGrant(t, cfg, grantId, now)
      case Fail(_) => (t, Fail(InvalidToken))
      case Ok(grant) =>
        (t.(grants := t.grants[grantId := grant.(lastUsedAt := Some(now))]),
         Ok(Authenticated(grantId, grant.user, grant.session.value)))
  }

  function GrantForMaintenance(t: Tables, cfg: Config, grantId: string, now: int): Outcome<Authenticated> {
    match ActiveGrant(t, cfg, grantId, now)
    case Fail(e) => Fail(e)
    case Ok(grant) =>
      if grant.expiresAt != NO_EXPIRATION then Fail(InvalidGrant)
      else Ok(Authenticated(grantId, grant.user, grant.session.value))
  }

  function UpdateSession(t: Tables, cfg: Config, grantId: string, session: Session, now: int): (Tables, Outcome<()>) {
    if !ValidSession(session) then (t, Fail(ServerError))
    else
      match ActiveGrant(t, cfg, grantId, now)
      case Fail(e) => (t, Fail(e))
      case Ok(grant) => (t.(grants := t.grants[grantId := grant.(session := Some(session))]), Ok(()))
  }

  /** Revokes a live grant of the row the caller may revoke, and hands its session out once. */
  function RevokeLive(t: Tables, grantId: string, now: int): (Tables, Outcome<Option<Session>>)
    requires grantId in t.grants
  {
    var g := t.grants[grantId];
    if g.revokedAt.Some? then (t, Ok(None))
    else if g.session.None? then (t, Fail(ServerError))
    else (Revoke(t, grantId, now), Ok(g.session))
  }

  function RevokeToken(t: Tables, token: string, clientId: string, now: int): (Tables, Outcome<Option<Session>>) {
    if !KnownClient(t, clientId) then (t, Fail(InvalidClient))
    else if !IsToken(token) || Digest(token) !in t.tokens then (t, Ok(None))
    else
      var grantId := t.tokens[Digest(token)].grantId;
      if grantId !in t.grants || t.grants[grantId].clientId != clientId then (t, Ok(None))
      else RevokeLive(t, grantId, now)
  }

  function RevokeGrantForUser(t: Tables, grantId: string, userId: string, now: int): (Tables, Outcome<Option<Session>>) {
    if grantId !in t.grants || t.grants[grantId].user.id != userId then (t, Ok(None))
    else RevokeLive(t, grantId, now)
  }
}
