/** The token service as it runs: handlers that call the file repositories one
    after another. Each handler is proved to be the TokenEndpoint step of its name
    on the whole store. */
module TokenHandlers {
  import opened Clock
  import opened Wrappers
  import opened Scopes
  import opened RevocationTable
  import opened RevocationStores
  import opened GrantStore
  import opened FileStores
  import opened KeyStore
  import opened TokenEndpoint

  method AllowsGrant(c: Client, grantType: string) returns (ok: bool)
    ensures ok <==> c.AllowsGrant(grantType)
  {
    if |c.grantTypes| == 0 {
      return grantType == "authorization_code" || grantType == "refresh_token";
    }
    for i := 0 to |c.grantTypes|
      invariant grantType !in c.grantTypes[..i]
    {
      if c.grantTypes[i] == grantType {
        return true;
      }
    }
    assert c.grantTypes[..|c.grantTypes|] == c.grantTypes;
    ok := false;
  }

  class TokenService {
    const cfg: Config
    const authCodes: FileAuthCodes
    const tokens: FileTokens
    const revocations: FileRevocations
    var users: map<string, User>
    var clients: map<string, Client>
    var keys: Keys
    var consents: map<(string, string), seq<string>>
    var signed: set<AccessClaims>

    ghost predicate Valid()
      reads this, authCodes, tokens, revocations
    {
      tokens.revocations == revocations && authCodes.Valid() && tokens.Valid()
    }

    ghost function State(): World
      reads this, authCodes, tokens, revocations
    {
      World(users, clients, authCodes.codes, tokens.tokens, revocations.ledger, keys, consents, signed)
    }

    constructor (cfg: Config, authCodes: FileAuthCodes, tokens: FileTokens)
      requires authCodes.Valid() && tokens.Valid()
      ensures Valid() && this.cfg == cfg && this.authCodes == authCodes && this.tokens == tokens
      ensures State() == World(map[], map[], authCodes.codes, tokens.tokens, tokens.revocations.ledger, NO_KEYS, map[], {})
    {
      this.cfg := cfg;
      this.authCodes := authCodes;
      this.tokens := tokens;
      this.revocations := tokens.revocations;
      users := map[];
      clients := map[];
      keys := NO_KEYS;
      consents := map[];
      signed := {};
    }

    /** The cut-off of a pair: the listing, a revocation per row, and the watermark. */
    method RevokeGrant(userID: string, clientID: string, now: int)
      requires Valid()
      modifies tokens, revocations
      ensures Valid() && State() == TokenEndpoint.RevokeGrant(old(State()), userID, clientID, now)
    {
      var listed := tokens.ListByUserID(userID, now);
      CutTwice(revocations.ledger, UserClientKey(userID, clientID), now);
      RevokeListed(listed, userID, clientID, now);
      revocations.RevokeBefore(ByUserClient, UserClientKey(userID, clientID), now);
      assert tokens.tokens == RevokeGrantTokens(old(tokens.tokens), userID, clientID, now);
    }

    method RevokeListed(listed: seq<TokenRow>, userID: string, clientID: string, now: int)
      requires tokens.Valid() && tokens.revocations == revocations
      requires forall k :: 0 <= k < |listed| ==>
                 && listed[k].key in tokens.tokens && listed[k].value == tokens.tokens[listed[k].key]
                 && listed[k].value.userID == userID && listed[k].value.expiresAt > now
      modifies tokens, revocations
      ensures tokens.Valid() && tokens.tokens.Keys == old(tokens.tokens).Keys
      ensures forall id :: id in tokens.tokens ==> PartlyRevoked(old(tokens.tokens)[id], tokens.tokens[id], userID, clientID, now)
      ensures forall k :: 0 <= k < |listed| && listed[k].value.clientID == clientID ==> tokens.tokens[listed[k].key].revoked
      ensures revocations.ledger in
              {old(revocations.ledger), CutBefore(old(revocations.ledger), ByUserClient, UserClientKey(userID, clientID), now)}
    {
      ghost var was, ledger := tokens.tokens, revocations.ledger;
      ghost var cut := CutBefore(ledger, ByUserClient, UserClientKey(userID, clientID), now);
      CutTwice(ledger, UserClientKey(userID, clientID), now);
      for i := 0 to |listed|
        invariant tokens.Valid() && tokens.tokens.Keys == was.Keys
        invariant forall id :: id in was ==> PartlyRevoked(was[id], tokens.tokens[id], userID, clientID, now)
        invariant forall j :: 0 <= j < i && listed[j].value.clientID == clientID ==> tokens.tokens[listed[j].key].revoked
        invariant revocations.ledger == ledger || revocations.ledger == cut
      {
        var t := listed[i].value;
        if t.clientID != clientID || t.revoked {
          continue;
        }
        var found := tokens.Revoke(listed[i].key, now);
      }
    }

    method AuthenticateClient(c: Client, presented: string) returns (ok: bool)
      ensures ok <==> Authenticates(cfg, c, presented)
    {
      if c.isPublic {
        return true;
      }
      if c.secret == "" || presented == "" {
        return false;
      }
      ok := cfg.secretMatches(c.secret, presented);
    }

    method GenerateTokens(userID: string, clientID: string, c: Client, scope: string, now: int, d: Draw) returns (r: Outcome)
      requires Valid() && d.refreshID !in tokens.tokens
      modifies this`signed, tokens
      ensures Valid() && (State(), r) == Generate(cfg, old(State()), userID, clientID, c, scope, now, d)
    {
      var accessTTL, refreshTTL := cfg.accessTTL, cfg.refreshTTL;
      if c.accessTTL > 0 {
        accessTTL := c.accessTTL;
      }
      if c.refreshTTL > 0 {
        refreshTTL := c.refreshTTL;
      }
      var a := Claims(userID, clientID, scope, accessTTL, now, d);
      signed := signed + {a};
      var response := TokenResponse(a, accessTTL / SECOND, None, scope);
      var mayRefresh := AllowsGrant(c, "refresh_token");
      if HasScope(scope, "offline_access") && mayRefresh {
        tokens.Create(d.refreshID, Token(userID, clientID, scope, now + refreshTTL, false));
        response := response.(refreshToken := Some(d.refreshID));
      }
      r := Granted(response);
    }

    method HandleAuthorizationCode(req: CodeRequest, now: int, d: Draw) returns (r: Outcome)
      requires Valid() && d.refreshID !in tokens.tokens
      modifies this`signed, authCodes, tokens, revocations
      ensures Valid() && (State(), r) == Exchange(cfg, old(State()), req, now, d)
    {
      if req.code == "" {
        return Failed(InvalidInput);
      }
      if req.redirectURI == "" {
        return Failed(InvalidInput);
      }
      if req.clientID !in clients {
        return Failed(Unauthorized);
      }
      var client := clients[req.clientID];
      var authentic := AuthenticateClient(client, req.clientSecret);
      if !authentic {
        return Failed(Unauthorized);
      }
      var allowed := AllowsGrant(client, "authorization_code");
      if !allowed {
        return Failed(UnauthorizedClient);
      }
      var found, authCode := authCodes.GetByCode(req.code);
      if !found {
        return Failed(InvalidGrant(UnknownGrant));
      }
      if authCode.clientID != req.clientID {
        return Failed(InvalidGrant(WrongClient));
      }
      if authCode.used {
        RevokeGrant(authCode.userID, authCode.clientID, now);
        return Failed(InvalidGrant(Replayed));
      }
      if authCode.IsExpired(now) {
        return Failed(InvalidGrant(Expired));
      }
      if authCode.redirectURI != req.redirectURI {
        return Failed(InvalidGrant(WrongRedirect));
      }
      if !VerifierMatches(cfg, req.codeVerifier, authCode.codeChallenge, authCode.codeChallengeMethod) {
        return Failed(InvalidGrant(WrongVerifier));
      }
      r := FinishExchange(req, client, authCode, now, d);
    }

    /** Consume the code, then issue. Other requests may have run since it was read. */
    method FinishExchange(req: CodeRequest, client: Client, authCode: AuthCode, now: int, d: Draw) returns (r: Outcome)
      requires Valid() && d.refreshID !in tokens.tokens
      modifies this`signed, authCodes, tokens, revocations
      ensures Valid() && (State(), r) == TokenEndpoint.FinishExchange(cfg, old(State()), req, client, authCode, now, d)
    {
      var outcome := authCodes.MarkUsed(req.code);
      if outcome == Conflict {
        RevokeGrant(authCode.userID, authCode.clientID, now);
        return Failed(InvalidGrant(Replayed));
      }
      if outcome == NotFound {
        return Failed(Internal);
      }
      if authCode.userID !in users {
        return Failed(Internal);
      }
      if !users[authCode.userID].active {
        return Failed(InvalidGrant(UserDisabled));
      }
      r := GenerateTokens(authCode.userID, req.clientID, client, authCode.scope, now, d);
    }

    method HandleRefreshToken(req: RefreshRequest, now: int, d: Draw) returns (r: Outcome)
      requires Valid() && d.refreshID !in tokens.tokens
      modifies this`signed, tokens, revocations
      ensures Valid() && (State(), r) == Refresh(cfg, old(State()), req, now, d)
    {
      if req.refreshToken == "" {
        return Failed(InvalidInput);
      }
      if req.clientID !in clients {
        return Failed(Unauthorized);
      }
      var client := clients[req.clientID];
      var authentic := AuthenticateClient(client, req.clientSecret);
      if !authentic {
        return Failed(Unauthorized);
      }
      var allowed := AllowsGrant(client, "refresh_token");
      if !allowed {
        return Failed(UnauthorizedClient);
      }
      var found, token := tokens.GetByID(req.refreshToken);
      if !found {
        return Failed(InvalidGrant(UnknownGrant));
      }
      if token.clientID != req.clientID {
        return Failed(InvalidGrant(WrongClient));
      }
      if token.revoked && !token.IsExpired(now) {
        RevokeGrant(token.userID, token.clientID, now);
        return Failed(InvalidGrant(Replayed));
      }
      if !token.IsValid(now) {
        return Failed(InvalidGrant(NotValid));
      }
      if token.userID !in users {
        return Failed(Internal);
      }
      if !users[token.userID].active {
        return Failed(InvalidGrant(UserDisabled));
      }
      var scope := token.scope;
      if req.scope != "" {
        var narrower := ScopeSubset(req.scope, token.scope);
        if !narrower {
          return Failed(InvalidScope);
        }
        scope := req.scope;
      }
      r := FinishRefresh(req, client, token, scope, now, d);
    }

    /** Retire the presented token, then issue its successor. */
    method FinishRefresh(req: RefreshRequest, client: Client, token: Token, scope: string, now: int, d: Draw) returns (r: Outcome)
      requires Valid() && d.refreshID !in tokens.tokens
      modifies this`signed, tokens, revocations
      ensures Valid() && (State(), r) == TokenEndpoint.FinishRefresh(cfg, old(State()), req, client, token, scope, now, d)
    {
      var outcome := tokens.Rotate(req.refreshToken);
      if outcome == Conflict {
        RevokeGrant(token.userID, token.clientID, now);
        return Failed(InvalidGrant(Replayed));
      }
      if outcome == NotFound {
        return Failed(Internal);
      }
      r := GenerateTokens(token.userID, req.clientID, client, scope, now, d);
    }

    /** False when the caller is not identified; every other request answers 200. */
    method HandleRevocation(req: TokenRequest, now: int) returns (ok: bool)
      requires Valid()
      modifies tokens, revocations
      ensures Valid() && (State(), ok) == Revoke(cfg, old(State()), req, now)
    {
      if req.clientID == "" || req.clientID !in clients {
        return false;
      }
      var authentic := AuthenticateClient(clients[req.clientID], req.clientSecret);
      if !authentic {
        return false;
      }
      match req.token {
        case Opaque(id) =>
          var found, token := tokens.GetByID(id);
          if !found || token.clientID != req.clientID {
            return true;
          }
          var revoked := tokens.Revoke(id, now);
        case JWT(a) =>
          var valid := ValidateAccessToken(a, now);
          if !valid || a.clientID != req.clientID {
            return true;
          }
          revocations.RevokeAccessToken(a.jti, a.exp, now);
      }
      ok := true;
    }

    method ValidateAccessToken(a: AccessClaims, now: int) returns (ok: bool)
      ensures ok <==> Validates(State(), a, now)
    {
      if a !in signed {
        return false;
      }
      if a.kid !in keys.rows || !keys.rows[a.kid].loads {
        return false;
      }
      if keys.rows[a.kid].IsExpired(now) {
        return false;
      }
      if !(now < a.exp) {
        return false;
      }
      ok := a.clientID != "";
    }

    method AccessTokenRevoked(a: AccessClaims) returns (revoked: bool)
      requires Valid()
      ensures revoked <==> AccessRevoked(State(), a)
    {
      var issued := IssuedAtOf(a);
      if issued.None? {
        return false;
      }
      revoked := revocations.IsRevoked(a.jti, a.subject, a.clientID, issued.value);
    }

    method Introspect(req: TokenRequest, now: int) returns (r: Introspection)
      requires Valid()
      ensures r == TokenEndpoint.Introspect(cfg, State(), req, now)
    {
      if req.clientID == "" || req.clientID !in clients || clients[req.clientID].isPublic {
        return Denied;
      }
      var authentic := AuthenticateClient(clients[req.clientID], req.clientSecret);
      if !authentic {
        return Denied;
      }
      match req.token {
        case JWT(a) =>
          var valid := ValidateAccessToken(a, now);
          if valid {
            var revoked := AccessTokenRevoked(a);
            if revoked || a.subject !in users || !users[a.subject].active {
              return Inactive;
            }
            return ActiveAccess(a);
          }
        case Opaque(id) =>
          var found, token := tokens.GetByID(id);
          if found && token.IsValid(now) && token.userID in users && users[token.userID].active {
            return ActiveRefresh(id, token.scope, token.clientID, token.userID, users[token.userID].email, token.expiresAt);
          }
      }
      r := Inactive;
    }
  }

  /** Row was became row: untouched, or revoked as part of the grant. */
  ghost predicate PartlyRevoked(was: Token, row: Token, userID: string, clientID: string, now: int) {
    row == was || (InGrant(was, userID, clientID, now) && row == was.(revoked := true))
  }

  /** Writing the same watermark again changes nothing. */
  lemma CutTwice(l: Ledger, key: string, now: int)
    ensures var cut := CutBefore(l, ByUserClient, key, now);
            CutBefore(cut, ByUserClient, key, now) == cut
  {
    var cut := CutBefore(l, ByUserClient, key, now);
    assert CutBefore(cut, ByUserClient, key, now).table == cut.table;
    assert CutBefore(cut, ByUserClient, key, now).log == cut.log;
  }
}
