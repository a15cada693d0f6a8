/** The token, revocation and introspection endpoints as steps on the whole store:
    one completed handler is one step, made at one instant. */
module TokenEndpoint {
  import opened Clock
  import opened Wrappers
  import opened Scopes
  import opened RevocationTable
  import opened GrantStore
  import opened KeyStore

  datatype User = User(email: string, active: bool)

  datatype Client = Client(
    secret: string,
    redirectURIs: seq<string>,
    grantTypes: seq<string>,
    scopes: seq<string>,
    isPublic: bool,
    skipConsent: bool,
    accessTTL: int,  // zero: the server default
    refreshTTL: int  // zero: the server default
  ) {
    /** A client stored without grant types allows both. */
    predicate AllowsGrant(grantType: string) {
      if grantTypes == [] then grantType == "authorization_code" || grantType == "refresh_token"
      else grantType in grantTypes
    }
  }

  /** The claims of an access token. jtiTime is the time a UUIDv7 jti carries. */
  datatype AccessClaims = AccessClaims(
    jti: string,
    jtiTime: Option<int>,
    iat: Option<int>,
    exp: int,
    subject: string,
    clientID: string,
    scope: string,
    kid: string
  )

  /** What the service depends on besides the store: default lifetimes, whether a
      consent service is configured, and the two hash checks, kept abstract. */
  datatype Config = Config(
    accessTTL: int,
    refreshTTL: int,
    codeTTL: int,
    askConsent: bool,
    secretMatches: (string, string) -> bool,
    s256: string -> string
  )

  /** signed: the claims this server has signed - what signature checking recognises. */
  datatype World = World(
    users: map<string, User>,
    clients: map<string, Client>,
    codes: Codes,
    tokens: Tokens,
    ledger: Ledger,
    keys: Keys,
    consents: map<(string, string), seq<string>>,
    signed: set<AccessClaims>
  )

  // ----- requests and answers

  datatype CodeRequest = CodeRequest(code: string, redirectURI: string, clientID: string, clientSecret: string, codeVerifier: string)
  datatype RefreshRequest = RefreshRequest(refreshToken: string, clientID: string, clientSecret: string, scope: string)

  /** A token string: a JWT, or anything else, which can only be a store ID. */
  datatype Presented = JWT(claims: AccessClaims) | Opaque(id: string)
  datatype TokenRequest = TokenRequest(token: Presented, clientID: string, clientSecret: string)

  datatype TokenResponse = TokenResponse(accessToken: AccessClaims, expiresIn: int, refreshToken: Option<string>, scope: string)

  datatype Refusal =
    | UnknownGrant | WrongClient | Replayed | Expired | WrongRedirect | WrongVerifier | UserDisabled | NotValid

  datatype Error =
    | InvalidInput
    | Unauthorized
    | UnauthorizedClient
    | InvalidGrant(why: Refusal)
    | InvalidScope
    | Internal

  datatype Outcome = Granted(response: TokenResponse) | Failed(error: Error)

  datatype Introspection =
    | Inactive
    | ActiveAccess(claims: AccessClaims)
    | ActiveRefresh(id: string, scope: string, clientID: string, subject: string, username: string, exp: int)
    | Denied

  /** The random values a step draws, and the key the key service hands it. */
  datatype Draw = Draw(jti: string, refreshID: string, kid: string)

  // ----- shared checks

  function AccessTTL(cfg: Config, c: Client): int {
    if c.accessTTL > 0 then c.accessTTL else cfg.accessTTL
  }

  function RefreshTTL(cfg: Config, c: Client): int {
    if c.refreshTTL > 0 then c.refreshTTL else cfg.refreshTTL
  }

  predicate Authenticates(cfg: Config, c: Client, presented: string) {
    c.isPublic || (c.secret != "" && presented != "" && cfg.secretMatches(c.secret, presented))
  }

  predicate VerifierMatches(cfg: Config, verifier: string, challenge: string, challengeMethod: string) {
    if challenge == "" then verifier == ""
    else
      && verifier != ""
      && (if challengeMethod == "plain" then verifier == challenge
          else challengeMethod == "S256" && cfg.s256(verifier) == challenge)
  }

  predicate UserActive(w: World, userID: string) {
    userID in w.users && w.users[userID].active
  }

  /** The jti's own millisecond, else the whole-second iat. */
  function IssuedAtOf(a: AccessClaims): Option<int> {
    if a.jtiTime.Some? then a.jtiTime else a.iat
  }

  function SubjectOf(a: AccessClaims): Subject
    requires IssuedAtOf(a).Some?
  {
    Subject(a.jti, a.subject, a.clientID, IssuedAtOf(a).value)
  }

  predicate AccessRevoked(w: World, a: AccessClaims) {
    IssuedAtOf(a).Some? && Revoked(w.ledger.table, SubjectOf(a))
  }

  /** Signature, key, exp and the client_id that marks an access token. */
  predicate Validates(w: World, a: AccessClaims, now: int) {
    a in w.signed && Accepts(w.keys, a.kid, now) && now < a.exp && a.clientID != ""
  }

  predicate AccessActive(w: World, a: AccessClaims, now: int) {
    Validates(w, a, now) && !AccessRevoked(w, a) && UserActive(w, a.subject)
  }

  predicate RefreshActive(w: World, id: string, now: int) {
    id in w.tokens && w.tokens[id].IsValid(now) && UserActive(w, w.tokens[id].userID)
  }

  // ----- steps

  function Claims(userID: string, clientID: string, scope: string, ttl: int, now: int, d: Draw): AccessClaims {
    AccessClaims(d.jti, Some(FloorTo(now, MILLISECOND)), Some(FloorTo(now, SECOND)), FloorTo(now + ttl, SECOND),
                 userID, clientID, scope, d.kid)
  }

  function Generate(cfg: Config, w: World, userID: string, clientID: string, c: Client, scope: string, now: int, d: Draw): (World, Outcome) {
    var a := Claims(userID, clientID, scope, AccessTTL(cfg, c), now, d);
    var signed := w.(signed := w.signed + {a});
    var seconds := AccessTTL(cfg, c) / SECOND;
    if HasScope(scope, "offline_access") && c.AllowsGrant("refresh_token") then
      var row := Token(userID, clientID, scope, now + RefreshTTL(cfg, c), false);
      (signed.(tokens := w.tokens[d.refreshID := row]), Granted(TokenResponse(a, seconds, Some(d.refreshID), scope)))
    else
      (signed, Granted(TokenResponse(a, seconds, None, scope)))
  }

  function RevokeGrant(w: World, userID: string, clientID: string, now: int): World {
    w.(tokens := RevokeGrantTokens(w.tokens, userID, clientID, now),
       ledger := CutBefore(w.ledger, ByUserClient, UserClientKey(userID, clientID), now))
  }

  /** The client of a token request, or why it may not use the grant. */
  function ClientFor(cfg: Config, w: World, clientID: string, secret: string, grantType: string): (r: Option<Error>)
    ensures r.None? ==> clientID in w.clients
  {
    if clientID !in w.clients || !Authenticates(cfg, w.clients[clientID], secret) then Some(Unauthorized)
    else if !w.clients[clientID].AllowsGrant(grantType) then Some(UnauthorizedClient)
    else None
  }

  function Exchange(cfg: Config, w: World, req: CodeRequest, now: int, d: Draw): (World, Outcome) {
    if req.code == "" || req.redirectURI == "" then (w, Failed(InvalidInput))
    else if ClientFor(cfg, w, req.clientID, req.clientSecret, "authorization_code").Some? then
      (w, Failed(ClientFor(cfg, w, req.clientID, req.clientSecret, "authorization_code").value))
    else if req.code !in w.codes then (w, Failed(InvalidGrant(UnknownGrant)))
    else
      var c := w.codes[req.code];
      if c.clientID != req.clientID then (w, Failed(InvalidGrant(WrongClient)))
      else if c.used then (RevokeGrant(w, c.userID, c.clientID, now), Failed(InvalidGrant(Replayed)))
      else if c.IsExpired(now) then (w, Failed(InvalidGrant(Expired)))
      else if c.redirectURI != req.redirectURI then (w, Failed(InvalidGrant(WrongRedirect)))
      else if !VerifierMatches(cfg, req.codeVerifier, c.codeChallenge, c.codeChallengeMethod) then
        (w, Failed(InvalidGrant(WrongVerifier)))
      else
        FinishExchange(cfg, w, req, w.clients[req.clientID], c, now, d)
  }

  /** The second half of an exchange, from MarkUsed on, for a code that was read as
      c: the row may have been consumed or deleted by another request meanwhile. */
  function FinishExchange(cfg: Config, w: World, req: CodeRequest, client: Client, c: AuthCode, now: int, d: Draw): (World, Outcome) {
    match MarkUsed(w.codes, req.code)
    case (_, Conflict) => (RevokeGrant(w, c.userID, c.clientID, now), Failed(InvalidGrant(Replayed)))
    case (_, NotFound) => (w, Failed(Internal))
    case (codes, Consumed) =>
      var consumed := w.(codes := codes);
      if c.userID !in w.users then (consumed, Failed(Internal))
      else if !w.users[c.userID].active then (consumed, Failed(InvalidGrant(UserDisabled)))
      else Generate(cfg, consumed, c.userID, req.clientID, client, c.scope, now, d)
  }

  function Refresh(cfg: Config, w: World, req: RefreshRequest, now: int, d: Draw): (World, Outcome) {
    if req.refreshToken == "" then (w, Failed(InvalidInput))
    else if ClientFor(cfg, w, req.clientID, req.clientSecret, "refresh_token").Some? then
      (w, Failed(ClientFor(cfg, w, req.clientID, req.clientSecret, "refresh_token").value))
    else if req.refreshToken !in w.tokens then (w, Failed(InvalidGrant(UnknownGrant)))
    else
      var t := w.tokens[req.refreshToken];
      if t.clientID != req.clientID then (w, Failed(InvalidGrant(WrongClient)))
      else if t.revoked && !t.IsExpired(now) then (RevokeGrant(w, t.userID, t.clientID, now), Failed(InvalidGrant(Replayed)))
      else if !t.IsValid(now) then (w, Failed(InvalidGrant(NotValid)))
      else if t.userID !in w.users then (w, Failed(Internal))
      else if !w.users[t.userID].active then (w, Failed(InvalidGrant(UserDisabled)))
      else if req.scope != "" && !(ScopeSet(req.scope) <= ScopeSet(t.scope)) then (w, Failed(InvalidScope))
      else
        var scope := if req.scope != "" then req.scope else t.scope;
        FinishRefresh(cfg, w, req, w.clients[req.clientID], t, scope, now, d)
  }

  /** The second half of a refresh, from Rotate on, for a token that was read as t. */
  function FinishRefresh(cfg: Config, w: World, req: RefreshRequest, client: Client, t: Token, scope: string, now: int, d: Draw): (World, Outcome) {
    match GrantStore.Rotate(w.tokens, req.refreshToken)
    case (_, Conflict) => (RevokeGrant(w, t.userID, t.clientID, now), Failed(InvalidGrant(Replayed)))
    case (_, NotFound) => (w, Failed(Internal))
    case (tokens, Consumed) => Generate(cfg, w.(tokens := tokens), t.userID, req.clientID, client, scope, now, d)
  }

  /** RFC 7009: false only when the caller does not identify itself. */
  function Revoke(cfg: Config, w: World, req: TokenRequest, now: int): (World, bool) {
    if req.clientID == "" || req.clientID !in w.clients || !Authenticates(cfg, w.clients[req.clientID], req.clientSecret) then
      (w, false)
    else
      match req.token
      case Opaque(id) =>
        if id !in w.tokens || w.tokens[id].clientID != req.clientID then (w, true)
        else
          var t := w.tokens[id];
          (w.(tokens := RevokeOne(w.tokens, id),
              ledger := CutBefore(w.ledger, ByUserClient, UserClientKey(t.userID, t.clientID), now)), true)
      case JWT(a) =>
        if !Validates(w, a, now) || a.clientID != req.clientID then (w, true)
        else (w.(ledger := CutToken(w.ledger, a.jti, a.exp, now)), true)
  }

  function Introspect(cfg: Config, w: World, req: TokenRequest, now: int): Introspection {
    if req.clientID == "" || req.clientID !in w.clients || w.clients[req.clientID].isPublic
       || !Authenticates(cfg, w.clients[req.clientID], req.clientSecret) then
      Denied
    else
      match req.token
      case JWT(a) => if AccessActive(w, a, now) then ActiveAccess(a) else Inactive
      case Opaque(id) =>
        if RefreshActive(w, id, now) then
          var t := w.tokens[id];
          ActiveRefresh(id, t.scope, t.clientID, t.userID, w.users[t.userID].email, t.expiresAt)
        else Inactive
  }

  /** What GetUserInfo releases: nothing, or the scope the claims are gated by. */
  function UserInfoScope(w: World, a: AccessClaims, now: int): Option<string> {
    if !AccessActive(w, a, now) then None
    else if a.scope == "" then Some("openid profile email")
    else Some(a.scope)
  }
}
