/** The conditions a request must meet, as RFC 6749, RFC 7636, RFC 7009 and RFC 7662 put
    them, and that the handlers ask for exactly these: who is identified, what a client
    may use, when a verifier proves possession. The results about the endpoints are
    stated in these terms. */
module EndpointRules {
  import opened Wrappers
  import opened GrantStore
  import opened TokenEndpoint

  /** The caller is a known client that is public or proves its secret. */
  predicate Identified(cfg: Config, w: World, clientID: string, presented: string) {
    && clientID in w.clients
    && (w.clients[clientID].isPublic || Proves(cfg, w.clients[clientID].secret, presented))
  }

  /** Neither secret is empty, and the stored one matches the one presented. */
  predicate Proves(cfg: Config, stored: string, presented: string) {
    stored != "" && presented != "" && cfg.secretMatches(stored, presented)
  }

  predicate MayUse(c: Client, grantType: string) {
    grantType in (if c.grantTypes == [] then ["authorization_code", "refresh_token"] else c.grantTypes)
  }

  /** The verifier proves possession of the challenge; without a challenge there must be
      none. */
  predicate Possesses(cfg: Config, c: AuthCode, verifier: string) {
    || (c.codeChallenge == "" && verifier == "")
    || (c.codeChallenge != "" && verifier != "" && c.codeChallengeMethod == "S256" && cfg.s256(verifier) == c.codeChallenge)
    || (c.codeChallenge != "" && verifier != "" && c.codeChallengeMethod == "plain" && verifier == c.codeChallenge)
  }

  predicate IsActive(w: World, userID: string) {
    userID in w.users && w.users[userID].active
  }

  /** A lifetime of the client's own, when it has one, or the server's. */
  function Lifetime(own: int, server: int): int {
    if own > 0 then own else server
  }

  lemma ClientForMeaning(cfg: Config, w: World, clientID: string, presented: string, grantType: string)
    requires grantType == "authorization_code" || grantType == "refresh_token"
    ensures var r := ClientFor(cfg, w, clientID, presented, grantType);
            && (r == Some(Unauthorized) <==> !Identified(cfg, w, clientID, presented))
            && (r == Some(UnauthorizedClient) <==>
                  Identified(cfg, w, clientID, presented) && !MayUse(w.clients[clientID], grantType))
            && (r.None? <==> Identified(cfg, w, clientID, presented) && MayUse(w.clients[clientID], grantType))
  {
  }

  lemma PossessionMeaning(cfg: Config, c: AuthCode, verifier: string)
    ensures VerifierMatches(cfg, verifier, c.codeChallenge, c.codeChallengeMethod) <==> Possesses(cfg, c, verifier)
  {
  }

  /** A caller that is not identified - an unknown client, or a confidential one with a
      secret that is missing or does not match - gets nothing from any endpoint and
      changes nothing. A public client's ID is enough except for introspection. */
  lemma StrangersRefused(cfg: Config, w: World, clientID: string, presented: string, now: int, d: Draw,
                         code: CodeRequest, refresh: RefreshRequest, token: Presented)
    requires !Identified(cfg, w, clientID, presented)
    requires code.clientID == clientID && code.clientSecret == presented && code.code != "" && code.redirectURI != ""
    requires refresh.clientID == clientID && refresh.clientSecret == presented && refresh.refreshToken != ""
    ensures Exchange(cfg, w, code, now, d) == (w, Failed(Unauthorized))
    ensures Refresh(cfg, w, refresh, now, d) == (w, Failed(Unauthorized))
    ensures Revoke(cfg, w, TokenRequest(token, clientID, presented), now) == (w, false)
    ensures Introspect(cfg, w, TokenRequest(token, clientID, presented), now) == Denied
  {
    ClientForMeaning(cfg, w, clientID, presented, "authorization_code");
    ClientForMeaning(cfg, w, clientID, presented, "refresh_token");
  }

  /** So a wrong secret never gets through: for a confidential client, when either secret
      is empty or they do not match. */
  lemma WrongSecretRefused(cfg: Config, w: World, clientID: string, presented: string, now: int, d: Draw,
                           code: CodeRequest, refresh: RefreshRequest, token: Presented)
    requires clientID in w.clients && !w.clients[clientID].isPublic
    requires var stored := w.clients[clientID].secret;
             stored == "" || presented == "" || !cfg.secretMatches(stored, presented)
    requires code.clientID == clientID && code.clientSecret == presented && code.code != "" && code.redirectURI != ""
    requires refresh.clientID == clientID && refresh.clientSecret == presented && refresh.refreshToken != ""
    ensures Exchange(cfg, w, code, now, d) == (w, Failed(Unauthorized))
    ensures Refresh(cfg, w, refresh, now, d) == (w, Failed(Unauthorized))
    ensures Revoke(cfg, w, TokenRequest(token, clientID, presented), now) == (w, false)
    ensures Introspect(cfg, w, TokenRequest(token, clientID, presented), now) == Denied
  {
    StrangersRefused(cfg, w, clientID, presented, now, d, code, refresh, token);
  }

  // ----- exchange

  /** Exactly when an exchange is granted. */
  predicate Exchangeable(cfg: Config, w: World, req: CodeRequest, now: int) {
    && req.code != "" && req.redirectURI != ""
    && Identified(cfg, w, req.clientID, req.clientSecret) && MayUse(w.clients[req.clientID], "authorization_code")
    && req.code in w.codes
    && var c := w.codes[req.code];
       && c.clientID == req.clientID && !c.used && now <= c.expiresAt
       && c.redirectURI == req.redirectURI
       && Possesses(cfg, c, req.codeVerifier)
       && IsActive(w, c.userID)
  }

  lemma ExchangeGrantedIff(cfg: Config, w: World, req: CodeRequest, now: int, d: Draw)
    ensures Exchange(cfg, w, req, now, d).1.Granted? <==> Exchangeable(cfg, w, req, now)
  {
    ClientForMeaning(cfg, w, req.clientID, req.clientSecret, "authorization_code");
    if req.code in w.codes {
      PossessionMeaning(cfg, w.codes[req.code], req.codeVerifier);
    }
  }

  /** Everything but the user is in order, so the code is spent on a refusal. */
  predicate WantsOnlyUser(cfg: Config, w: World, req: CodeRequest, now: int) {
    && req.code != "" && req.redirectURI != ""
    && Identified(cfg, w, req.clientID, req.clientSecret) && MayUse(w.clients[req.clientID], "authorization_code")
    && req.code in w.codes
    && var c := w.codes[req.code];
       && c.clientID == req.clientID && !c.used && now <= c.expiresAt
       && c.redirectURI == req.redirectURI
       && Possesses(cfg, c, req.codeVerifier)
       && !IsActive(w, c.userID)
  }

  /** A used code presented by its own client. */
  predicate ReusesCode(cfg: Config, w: World, req: CodeRequest) {
    && req.code != "" && req.redirectURI != ""
    && Identified(cfg, w, req.clientID, req.clientSecret) && MayUse(w.clients[req.clientID], "authorization_code")
    && req.code in w.codes && w.codes[req.code].clientID == req.clientID && w.codes[req.code].used
  }

  /** What a refused exchange changes: nothing, except that a reuse is cut off and a
      disabled or deleted user's code is spent. */
  lemma RefusedExchange(cfg: Config, w: World, req: CodeRequest, now: int, d: Draw)
    requires !Exchangeable(cfg, w, req, now)
    ensures var (w', outcome) := Exchange(cfg, w, req, now, d);
            && outcome.Failed?
            && (outcome == Failed(InvalidGrant(Replayed)) <==> ReusesCode(cfg, w, req))
            && (!ReusesCode(cfg, w, req) ==>
                  w' == if WantsOnlyUser(cfg, w, req, now)
                        then w.(codes := w.codes[req.code := w.codes[req.code].(used := true)]) else w)
  {
    ExchangeGrantedIff(cfg, w, req, now, d);
    ClientForMeaning(cfg, w, req.clientID, req.clientSecret, "authorization_code");
    if req.code in w.codes {
      PossessionMeaning(cfg, w.codes[req.code], req.codeVerifier);
    }
  }
}
