/** What each endpoint and each administrative step does, over every run: not how the
    handler computes it, but which tokens work before and after. */
module EndpointResults {
  import opened Clock
  import opened Wrappers
  import opened Scopes
  import opened RevocationTable
  import opened GrantStore
  import opened KeyStore
  import opened TokenEndpoint
  import opened EndpointRules
  import opened GrantLife
  import opened GrantTheorems
  import GrantScopes

  // ----- refresh

  /** Everything a refresh needs but a scope within the row's. */
  predicate RefreshableButScope(cfg: Config, w: World, req: RefreshRequest, now: int) {
    && req.refreshToken != ""
    && Identified(cfg, w, req.clientID, req.clientSecret) && MayUse(w.clients[req.clientID], "refresh_token")
    && req.refreshToken in w.tokens
    && var t := w.tokens[req.refreshToken];
       && t.clientID == req.clientID && !t.revoked && now <= t.expiresAt && IsActive(w, t.userID)
  }

  /** Every scope asked for is one the row has. */
  predicate ScopeCovered(w: World, req: RefreshRequest)
    requires req.refreshToken in w.tokens
  {
    forall s :: s in Fields(req.scope) ==> s in Fields(w.tokens[req.refreshToken].scope)
  }

  lemma RefreshGrantedIff(cfg: Config, w: World, req: RefreshRequest, now: int, d: Draw)
    ensures var outcome := Refresh(cfg, w, req, now, d).1;
            && (outcome.Granted? <==> RefreshableButScope(cfg, w, req, now) && ScopeCovered(w, req))
            && (outcome == Failed(InvalidScope) <==> RefreshableButScope(cfg, w, req, now) && !ScopeCovered(w, req))
  {
    ClientForMeaning(cfg, w, req.clientID, req.clientSecret, "refresh_token");
    if req.refreshToken in w.tokens {
      SubsetMeaning(req.scope, w.tokens[req.refreshToken].scope);
    }
    assert Fields("") == [];
  }

  /** A retired refresh token that has not expired, presented by its own client. */
  predicate ReusesToken(cfg: Config, w: World, req: RefreshRequest, now: int) {
    && req.refreshToken != ""
    && Identified(cfg, w, req.clientID, req.clientSecret) && MayUse(w.clients[req.clientID], "refresh_token")
    && req.refreshToken in w.tokens
    && var t := w.tokens[req.refreshToken]; t.clientID == req.clientID && t.revoked && now <= t.expiresAt
  }

  /** A refused refresh changes nothing, except that a reuse is cut off. */
  lemma RefusedRefresh(cfg: Config, w: World, req: RefreshRequest, now: int, d: Draw)
    ensures var (w', outcome) := Refresh(cfg, w, req, now, d);
            && (outcome == Failed(InvalidGrant(Replayed)) <==> ReusesToken(cfg, w, req, now))
            && (outcome.Failed? && !ReusesToken(cfg, w, req, now) ==> w' == w)
  {
    ClientForMeaning(cfg, w, req.clientID, req.clientSecret, "refresh_token");
  }

  lemma SubsetMeaning(asked: string, had: string)
    ensures ScopeSet(asked) <= ScopeSet(had) <==> forall s :: s in Fields(asked) ==> s in Fields(had)
  {
    if ScopeSet(asked) <= ScopeSet(had) {
      forall s | s in Fields(asked)
        ensures s in Fields(had)
      {
        assert s in ScopeSet(asked);
      }
    }
    forall s | s in ScopeSet(asked)
      ensures s in Fields(asked)
    {
    }
    forall s | s in Fields(had)
      ensures s in ScopeSet(had)
    {
    }
  }

  /** An access token as it is issued now, in response to a grant of scope. */
  ghost predicate Issuance(cfg: Config, c: Client, r: TokenResponse, userID: string, clientID: string, scope: string, now: int, d: Draw) {
    var a, life := r.accessToken, Lifetime(c.accessTTL, cfg.accessTTL);
    && a.jti == d.jti && a.kid == d.kid && a.subject == userID && a.clientID == clientID && a.scope == scope
    && now + life - SECOND < a.exp <= now + life && a.exp % SECOND == 0
    && a.jtiTime.Some? && now - MILLISECOND < a.jtiTime.value <= now
    && a.iat.Some? && now - SECOND < a.iat.value <= now
    && r.scope == scope && r.expiresIn == life / SECOND
    && r.refreshToken == if "offline_access" in Fields(scope) && MayUse(c, "refresh_token") then Some(d.refreshID) else None
  }

  /** The store after a token response: one signed token and, for offline access, one row. */
  function After(cfg: Config, w: World, c: Client, r: TokenResponse, userID: string, clientID: string, now: int): World {
    w.(signed := w.signed + {r.accessToken},
       tokens := if r.refreshToken.None? then w.tokens
                 else w.tokens[r.refreshToken.value := Token(userID, clientID, r.scope, now + Lifetime(c.refreshTTL, cfg.refreshTTL), false)])
  }

  lemma GenerateMeaning(cfg: Config, w: World, userID: string, clientID: string, c: Client, scope: string, now: int, d: Draw)
    ensures var (w', outcome) := Generate(cfg, w, userID, clientID, c, scope, now, d);
            && outcome.Granted? && Issuance(cfg, c, outcome.response, userID, clientID, scope, now, d)
            && w' == After(cfg, w, c, outcome.response, userID, clientID, now)
  {
    WholeSeconds(now + AccessTTL(cfg, c));
  }

  lemma WholeSeconds(t: int)
    ensures FloorTo(t, SECOND) % SECOND == 0
  {
  }

  /** A granted refresh: the response carries the scope asked for, or the row's when none
      was; the presented row is retired and nothing else changes but what is issued. */
  lemma RefreshedTokens(cfg: Config, w: World, req: RefreshRequest, now: int, d: Draw)
    requires RefreshableButScope(cfg, w, req, now) && ScopeCovered(w, req)
    ensures var (w', outcome) := Refresh(cfg, w, req, now, d);
            var t, c := w.tokens[req.refreshToken], w.clients[req.clientID];
            var scope := if req.scope == "" then t.scope else req.scope;
            && outcome.Granted? && Issuance(cfg, c, outcome.response, t.userID, req.clientID, scope, now, d)
            && w' == After(cfg, w.(tokens := w.tokens[req.refreshToken := t.(revoked := true)]), c, outcome.response, t.userID, req.clientID, now)
  {
    var t := w.tokens[req.refreshToken];
    ClientForMeaning(cfg, w, req.clientID, req.clientSecret, "refresh_token");
    SubsetMeaning(req.scope, t.scope);
    var scope := if req.scope == "" then t.scope else req.scope;
    GenerateMeaning(cfg, w.(tokens := w.tokens[req.refreshToken := t.(revoked := true)]), t.userID, req.clientID,
                    w.clients[req.clientID], scope, now, d);
  }

  /** A granted exchange: the scope of the code, the code spent, and nothing else changed
      but what is issued. */
  lemma ExchangedTokens(cfg: Config, w: World, req: CodeRequest, now: int, d: Draw)
    requires Exchangeable(cfg, w, req, now)
    ensures var (w', outcome) := Exchange(cfg, w, req, now, d);
            var code, c := w.codes[req.code], w.clients[req.clientID];
            && outcome.Granted? && Issuance(cfg, c, outcome.response, code.userID, req.clientID, code.scope, now, d)
            && w' == After(cfg, w.(codes := w.codes[req.code := code.(used := true)]), c, outcome.response, code.userID, req.clientID, now)
  {
    var code := w.codes[req.code];
    ClientForMeaning(cfg, w, req.clientID, req.clientSecret, "authorization_code");
    PossessionMeaning(cfg, code, req.codeVerifier);
    GenerateMeaning(cfg, w.(codes := w.codes[req.code := code.(used := true)]), code.userID, req.clientID,
                    w.clients[req.clientID], code.scope, now, d);
  }

  /** What a response hands over works at once: the access token unless its key is
      refused, its whole second has passed or a cut in the same millisecond covers it; the
      refresh row, which is new, for its whole life. */
  ghost predicate Works(s: Sys, w': World, r: TokenResponse, now: int) {
    && r.accessToken.jtiTime.Some?
    && (r.accessToken.clientID != "" ==>
          (AccessActive(w', r.accessToken, now) <==>
             now < r.accessToken.exp && Accepts(s.w.keys, r.accessToken.kid, now) && !Covered(s.w.ledger.log, SubjectOf(r.accessToken))))
    && (r.refreshToken.Some? ==>
          && r.refreshToken.value !in s.w.tokens && r.refreshToken.value in w'.tokens
          && (forall t :: RefreshActive(w', r.refreshToken.value, t) <==> t <= w'.tokens[r.refreshToken.value].expiresAt))
  }

  lemma IssuedWorks(cfg: Config, s: Sys, mid: World, c: Client, r: TokenResponse, userID: string, clientID: string, scope: string, now: int, d: Draw)
    requires Inv(s, now) && FreshDraw(s, d) && cfg.accessTTL <= MAX_ACCESS_TTL && c.accessTTL <= MAX_ACCESS_TTL
    requires mid == s.w.(codes := mid.codes, tokens := mid.tokens) && IsActive(s.w, userID)
    requires Issuance(cfg, c, r, userID, clientID, scope, now, d)
    ensures Works(s, After(cfg, mid, c, r, userID, clientID, now), r, now)
  {
    var a := r.accessToken;
    if now < a.exp {
      assert a.jti !in s.accessFamily;
      TableAnswersForLog(s.w.ledger, SubjectOf(a), a.exp, now);
    }
  }

  lemma RefreshedTokensWork(cfg: Config, ops: seq<TimedOp>, start: int, req: RefreshRequest, now: int, d: Draw)
    requires LegalFrom(cfg, START, ops, start) && LastTime(ops, start) <= now && cfg.accessTTL <= MAX_ACCESS_TTL
    requires FreshDraw(RunFrom(cfg, START, ops), d)
    requires RefreshableButScope(cfg, RunFrom(cfg, START, ops).w, req, now) && ScopeCovered(RunFrom(cfg, START, ops).w, req)
    ensures var s := RunFrom(cfg, START, ops);
            var (w', outcome) := Refresh(cfg, s.w, req, now, d);
            && outcome.Granted? && Works(s, w', outcome.response, now)
            && forall t :: !Redeemable(w', req.refreshToken, t)
  {
    var s := Reached(cfg, ops, start, now);
    var (w', outcome) := Refresh(cfg, s.w, req, now, d);
    RefreshedTokens(cfg, s.w, req, now, d);
    var t := s.w.tokens[req.refreshToken];
    IssuedWorks(cfg, s, s.w.(tokens := s.w.tokens[req.refreshToken := t.(revoked := true)]), s.w.clients[req.clientID],
                outcome.response, t.userID, req.clientID, outcome.response.scope, now, d);
  }

  lemma ExchangedTokensWork(cfg: Config, ops: seq<TimedOp>, start: int, req: CodeRequest, now: int, d: Draw)
    requires LegalFrom(cfg, START, ops, start) && LastTime(ops, start) <= now && cfg.accessTTL <= MAX_ACCESS_TTL
    requires FreshDraw(RunFrom(cfg, START, ops), d)
    requires Exchangeable(cfg, RunFrom(cfg, START, ops).w, req, now)
    ensures var s := RunFrom(cfg, START, ops);
            var (w', outcome) := Exchange(cfg, s.w, req, now, d);
            outcome.Granted? && Works(s, w', outcome.response, now)
  {
    var s := Reached(cfg, ops, start, now);
    var (w', outcome) := Exchange(cfg, s.w, req, now, d);
    ExchangedTokens(cfg, s.w, req, now, d);
    var code := s.w.codes[req.code];
    IssuedWorks(cfg, s, s.w.(codes := s.w.codes[req.code := code.(used := true)]), s.w.clients[req.clientID],
                outcome.response, code.userID, req.clientID, code.scope, now, d);
  }

  lemma Reached(cfg: Config, ops: seq<TimedOp>, start: int, now: int) returns (s: Sys)
    requires LegalFrom(cfg, START, ops, start) && LastTime(ops, start) <= now && cfg.accessTTL <= MAX_ACCESS_TTL
    ensures s == RunFrom(cfg, START, ops) && Inv(s, now)
  {
    s := RunFrom(cfg, START, ops);
    StartInv(start);
    RunKeeps(cfg, START, ops, start);
    InvLater(s, LastTime(ops, start), now);
  }

  // ----- revocation

  /** The request's caller is identified by its client ID and, if confidential, secret. */
  predicate Authentic(cfg: Config, w: World, req: TokenRequest) {
    req.clientID != "" && Identified(cfg, w, req.clientID, req.clientSecret)
  }

  /** The presented token belongs to the client. */
  predicate OwnToken(w: World, req: TokenRequest) {
    match req.token
    case JWT(a) => a in w.signed && a.clientID == req.clientID
    case Opaque(id) => id in w.tokens && w.tokens[id].clientID == req.clientID
  }

  /** The answer is refused exactly for a caller that is not identified, and what is not
      the caller's own, or not known, is left alone. */
  lemma RevocationAnswers(cfg: Config, w: World, req: TokenRequest, now: int)
    ensures var (w', ok) := Revoke(cfg, w, req, now);
            && (ok <==> Authentic(cfg, w, req))
            && (!ok || !OwnToken(w, req) ==> w' == w)
  {
  }

  /** Revoking one's own access token: it is never active again; every other access token,
      and every refresh row, keeps its verdict. */
  lemma AccessTokenRevoked(cfg: Config, ops: seq<TimedOp>, start: int, req: TokenRequest, now: int)
    requires LegalFrom(cfg, START, ops, start) && LastTime(ops, start) <= now && cfg.accessTTL <= MAX_ACCESS_TTL
    requires var w := RunFrom(cfg, START, ops).w; Authentic(cfg, w, req) && OwnToken(w, req) && req.token.JWT?
    ensures var w := RunFrom(cfg, START, ops).w;
            var w' := Revoke(cfg, w, req, now).0;
            && (forall t :: now <= t ==> !AccessActive(w', req.token.claims, t))
            && (forall a: AccessClaims, t :: a.jti != req.token.claims.jti ==> (AccessActive(w', a, t) <==> AccessActive(w, a, t)))
            && (forall id, t :: RefreshActive(w', id, t) <==> RefreshActive(w, id, t))
  {
    var s := Reached(cfg, ops, start, now);
    JtiRevoked(s, Revoke(cfg, s.w, req, now).0, req.token.claims, now);
  }

  // What a row for its jti comes to; a token that is refused anyway needs none.
  lemma JtiRevoked(s: Sys, w': World, b: AccessClaims, now: int)
    requires Inv(s, now) && b in s.w.signed
    requires w' == s.w.(ledger := CutToken(s.w.ledger, b.jti, b.exp, now)) || (w' == s.w && !Validates(s.w, b, now))
    ensures forall t :: now <= t ==> !AccessActive(w', b, t)
    ensures forall a: AccessClaims, t :: a.jti != b.jti ==> (AccessActive(w', a, t) <==> AccessActive(s.w, a, t))
    ensures forall id, t :: RefreshActive(w', id, t) <==> RefreshActive(s.w, id, t)
  {
    assert GoodClaims(s, b, now);
    forall a: AccessClaims | a.jti != b.jti
      ensures AccessRevoked(w', a) <==> AccessRevoked(s.w, a)
    {
    }
  }

  /** Revoking one's own refresh token: it is never redeemable again, and no access token
      issued to the pair so far is active; every other refresh row, and the access tokens
      of every other pair, keep their verdicts. */
  lemma RefreshTokenRevoked(cfg: Config, ops: seq<TimedOp>, start: int, req: TokenRequest, now: int)
    requires LegalFrom(cfg, START, ops, start) && LastTime(ops, start) <= now && cfg.accessTTL <= MAX_ACCESS_TTL
    requires var w := RunFrom(cfg, START, ops).w;
             Authentic(cfg, w, req) && OwnToken(w, req) && req.token.Opaque? && NulFree(w.tokens[req.token.id].userID)
    ensures var w := RunFrom(cfg, START, ops).w;
            var w' := Revoke(cfg, w, req, now).0;
            var userID := w.tokens[req.token.id].userID;
            && (forall t :: !Redeemable(w', req.token.id, t))
            && (forall id, t :: id != req.token.id ==> (RefreshActive(w', id, t) <==> RefreshActive(w, id, t)))
            && (forall a, t :: a in w.signed && a.subject == userID && a.clientID == req.clientID && now <= t ==> !AccessActive(w', a, t))
            && (forall a: AccessClaims, t :: NulFree(a.subject) && !(a.subject == userID && a.clientID == req.clientID) ==>
                  (AccessActive(w', a, t) <==> AccessActive(w, a, t)))
  {
    var s := Reached(cfg, ops, start, now);
    var userID := s.w.tokens[req.token.id].userID;
    RowRevoked(s, Revoke(cfg, s.w, req, now).0, req.token.id, now);
  }

  // What a retired row and a watermark for its pair come to.
  lemma RowRevoked(s: Sys, w': World, id: string, now: int)
    requires Inv(s, now) && id in s.w.tokens && NulFree(s.w.tokens[id].userID)
    requires var t := s.w.tokens[id];
             && w'.users == s.w.users && w'.keys == s.w.keys && w'.signed == s.w.signed
             && w'.tokens == s.w.tokens[id := t.(revoked := true)]
             && w'.ledger == CutBefore(s.w.ledger, ByUserClient, UserClientKey(t.userID, t.clientID), now)
    ensures var userID, clientID := s.w.tokens[id].userID, s.w.tokens[id].clientID;
            && (forall t :: !Redeemable(w', id, t))
            && (forall i, t :: i != id ==> (RefreshActive(w', i, t) <==> RefreshActive(s.w, i, t)))
            && (forall a, t :: a in s.w.signed && a.subject == userID && a.clientID == clientID && now <= t ==> !AccessActive(w', a, t))
            && (forall a: AccessClaims, t :: NulFree(a.subject) && !(a.subject == userID && a.clientID == clientID) ==>
                  (AccessActive(w', a, t) <==> AccessActive(s.w, a, t)))
  {
    var userID, clientID := s.w.tokens[id].userID, s.w.tokens[id].clientID;
    forall a, t | a in s.w.signed && a.subject == userID && a.clientID == clientID && now <= t
      ensures !AccessActive(w', a, t)
    {
      assert GoodClaims(s, a, now);
    }
    forall a: AccessClaims, t | NulFree(a.subject) && !(a.subject == userID && a.clientID == clientID)
      ensures AccessActive(w', a, t) <==> AccessActive(s.w, a, t)
    {
      UserClientKeyInjective(userID, clientID, a.subject, a.clientID);
    }
  }

  // ----- introspection and userinfo

  /** An access token the server has signed and nothing refuses. */
  ghost predicate AccessStands(w: World, a: AccessClaims, t: int)
    requires IssuedAtOf(a).Some?
  {
    a.clientID != "" && t < a.exp && Accepts(w.keys, a.kid, t) && !Covered(w.ledger.log, SubjectOf(a))
  }

  predicate RowStands(w: World, id: string, t: int) {
    id in w.tokens && !w.tokens[id].revoked && t <= w.tokens[id].expiresAt && IsActive(w, w.tokens[id].userID)
  }

  /** What introspection answers, over every run: it is denied exactly to callers without a
      matching secret; otherwise an issued access token is active exactly when its key and
      exp are good and no logged revocation covers it, a refresh token exactly when its row
      stands, with the row's own details; anything else is inactive. */
  lemma IntrospectionMeaning(cfg: Config, ops: seq<TimedOp>, start: int, req: TokenRequest, t: int)
    requires LegalFrom(cfg, START, ops, start) && LastTime(ops, start) <= t && cfg.accessTTL <= MAX_ACCESS_TTL
    ensures var w := RunFrom(cfg, START, ops).w;
            var answer := Introspect(cfg, w, req, t);
            && (answer == Denied <==>
                  !(req.clientID != "" && req.clientID in w.clients && !w.clients[req.clientID].isPublic
                    && Proves(cfg, w.clients[req.clientID].secret, req.clientSecret)))
            && (answer != Denied ==>
                  match req.token
                  case JWT(a) =>
                    if a in w.signed then
                      a.jtiTime.Some? && answer == if AccessStands(w, a, t) then ActiveAccess(a) else Inactive
                    else answer == Inactive
                  case Opaque(id) =>
                    if RowStands(w, id, t) then
                      var row := w.tokens[id];
                      answer == ActiveRefresh(id, row.scope, row.clientID, row.userID, w.users[row.userID].email, row.expiresAt)
                    else answer == Inactive)
  {
    match req.token {
      case JWT(a) =>
        if a in RunFrom(cfg, START, ops).w.signed {
          VerdictIsTheLog(cfg, ops, start, a, t);
        }
      case Opaque(_) =>
    }
  }

  /** UserInfo releases claims exactly for an access token that stands, by its own scope. */
  lemma UserInfoMeaning(cfg: Config, ops: seq<TimedOp>, start: int, a: AccessClaims, t: int)
    requires LegalFrom(cfg, START, ops, start) && LastTime(ops, start) <= t && cfg.accessTTL <= MAX_ACCESS_TTL
    requires a in RunFrom(cfg, START, ops).w.signed
    ensures var w := RunFrom(cfg, START, ops).w;
            && a.jtiTime.Some? && a.scope != ""
            && UserInfoScope(w, a, t) == if AccessStands(w, a, t) then Some(a.scope) else None
  {
    VerdictIsTheLog(cfg, ops, start, a, t);
    ScopeNeverEmpty(cfg, ops, start, a);
  }

  lemma ScopeNeverEmpty(cfg: Config, ops: seq<TimedOp>, start: int, a: AccessClaims)
    requires LegalFrom(cfg, START, ops, start)
    requires a in RunFrom(cfg, START, ops).w.signed
    ensures a.scope != ""
  {
    GrantScopes.AccessScopesNeverWiden(cfg, ops, start, a, 0);
  }

  // ----- maintenance

  /** Maintenance is invisible: no access token's verdict changes, and no code or refresh
      token that has not reached its expiry is touched; what has reached it is gone. */
  lemma MaintenanceInvisible(cfg: Config, ops: seq<TimedOp>, start: int, now: int)
    requires LegalFrom(cfg, START, ops, start) && LastTime(ops, start) <= now && cfg.accessTTL <= MAX_ACCESS_TTL
    ensures var w := RunFrom(cfg, START, ops).w;
            var w' := MaintainStep(w, now);
            && w'.users == w.users && w'.clients == w.clients && w'.keys == w.keys && w'.consents == w.consents && w'.signed == w.signed
            && (forall a, t :: a in w.signed && now <= t ==> (AccessActive(w', a, t) <==> AccessActive(w, a, t)))
            && (forall c :: c in w.codes && now < w.codes[c].expiresAt ==> c in w'.codes)
            && (forall c :: c in w'.codes ==> c in w.codes && w'.codes[c] == w.codes[c])
            && (forall id :: id in w.tokens && now < w.tokens[id].expiresAt ==> id in w'.tokens)
            && (forall id :: id in w'.tokens ==> id in w.tokens && w'.tokens[id] == w.tokens[id])
            && (forall c :: c in w'.codes ==> now < w'.codes[c].expiresAt)
            && (forall id :: id in w'.tokens ==> now < w'.tokens[id].expiresAt)
            && (forall k :: k in w'.ledger.table ==> now < w'.ledger.table[k].expiresAt)
  {
    var s := Reached(cfg, ops, start, now);
    var w' := MaintainStep(s.w, now);
    MaintainKeeps(s, now);
    forall a, t | a in s.w.signed && now <= t
      ensures AccessActive(w', a, t) <==> AccessActive(s.w, a, t)
    {
      assert GoodClaims(s, a, now);
      InvLater(s, now, t);
      InvLater(s.(w := w'), now, t);
      if t < a.exp {
        TableAnswersForLog(s.w.ledger, SubjectOf(a), a.exp, t);
        TableAnswersForLog(w'.ledger, SubjectOf(a), a.exp, t);
      }
    }
  }

  // ----- administration

  /** In w' user u holds nothing of what w had given out, and other users hold the same. */
  ghost predicate UserCutOff(w: World, w': World, u: string, now: int) {
    && (forall a, t :: a in w.signed && a.subject == u && now <= t ==> !AccessActive(w', a, t))
    && (forall id, t :: id in w.tokens && w.tokens[id].userID == u ==> !Redeemable(w', id, t))
    && (forall a: AccessClaims, t :: a.subject != u ==> (AccessActive(w', a, t) <==> AccessActive(w, a, t)))
    && (forall id, t :: id in w.tokens && w.tokens[id].userID != u ==> (RefreshActive(w', id, t) <==> RefreshActive(w, id, t)))
  }

  /** The same for a client. */
  ghost predicate ClientCutOff(w: World, w': World, c: string, now: int) {
    && (forall a, t :: a in w.signed && a.clientID == c && now <= t ==> !AccessActive(w', a, t))
    && (forall id, t :: id in w.tokens && w.tokens[id].clientID == c ==> !Redeemable(w', id, t))
    && (forall a: AccessClaims, t :: a.clientID != c ==> (AccessActive(w', a, t) <==> AccessActive(w, a, t)))
    && (forall id, t :: id in w.tokens && w.tokens[id].clientID != c ==> (RefreshActive(w', id, t) <==> RefreshActive(w, id, t)))
  }

  lemma UserCut(s: Sys, w': World, u: string, now: int)
    requires Inv(s, now)
    requires forall x :: x != u ==> (IsActive(w', x) <==> IsActive(s.w, x))
    requires w'.signed == s.w.signed && w'.keys == s.w.keys && w'.ledger == CutBefore(s.w.ledger, ByUser, u, now)
    requires forall id :: id in w'.tokens ==> id in s.w.tokens
    requires forall id :: id in w'.tokens && s.w.tokens[id].userID == u ==> w'.tokens[id].revoked
    requires forall id :: id in s.w.tokens && s.w.tokens[id].userID != u ==> id in w'.tokens && w'.tokens[id] == s.w.tokens[id]
    ensures UserCutOff(s.w, w', u, now)
  {
    forall a, t | a in s.w.signed && a.subject == u && now <= t
      ensures !AccessActive(w', a, t)
    {
      assert GoodClaims(s, a, now);
    }
    forall a: AccessClaims, t | a.subject != u
      ensures AccessActive(w', a, t) <==> AccessActive(s.w, a, t)
    {
      assert IsActive(w', a.subject) <==> IsActive(s.w, a.subject);
    }
    forall id, t | id in s.w.tokens && s.w.tokens[id].userID != u
      ensures RefreshActive(w', id, t) <==> RefreshActive(s.w, id, t)
    {
      assert IsActive(w', s.w.tokens[id].userID) <==> IsActive(s.w, s.w.tokens[id].userID);
    }
  }

  lemma ClientCut(s: Sys, w': World, c: string, now: int)
    requires Inv(s, now)
    requires w'.users == s.w.users && w'.signed == s.w.signed && w'.keys == s.w.keys && w'.ledger == CutBefore(s.w.ledger, ByClient, c, now)
    requires forall id :: id in w'.tokens ==> id in s.w.tokens
    requires forall id :: id in w'.tokens && s.w.tokens[id].clientID == c ==> w'.tokens[id].revoked
    requires forall id :: id in s.w.tokens && s.w.tokens[id].clientID != c ==> id in w'.tokens && w'.tokens[id] == s.w.tokens[id]
    ensures ClientCutOff(s.w, w', c, now)
  {
    forall a, t | a in s.w.signed && a.clientID == c && now <= t
      ensures !AccessActive(w', a, t)
    {
      assert GoodClaims(s, a, now);
    }
    forall a: AccessClaims | a.clientID != c
      ensures AccessRevoked(w', a) <==> AccessRevoked(s.w, a)
    {
    }
    forall id, t | id in s.w.tokens && s.w.tokens[id].clientID != c
      ensures RefreshActive(w', id, t) <==> RefreshActive(s.w, id, t)
    {
      assert w'.tokens[id] == s.w.tokens[id];
    }
  }

  /** Saving a user stores it; if that disables an active user, it cuts off exactly that
      user, and otherwise it changes nothing else. */
  lemma DisablingCutsOff(cfg: Config, ops: seq<TimedOp>, start: int, u: string, user: User, now: int)
    requires LegalFrom(cfg, START, ops, start) && LastTime(ops, start) <= now && cfg.accessTTL <= MAX_ACCESS_TTL
    requires u in RunFrom(cfg, START, ops).w.users
    ensures var w := RunFrom(cfg, START, ops).w;
            var w' := UpdateUserStep(w, u, user, now);
            && w'.users == w.users[u := user]
            && if w.users[u].active && !user.active then UserCutOff(w, w', u, now) else w' == w.(users := w.users[u := user])
  {
    var s := Reached(cfg, ops, start, now);
    if s.w.users[u].active && !user.active {
      UserCut(s, UpdateUserStep(s.w, u, user, now), u, now);
    }
  }

  lemma DeletingCutsOff(cfg: Config, ops: seq<TimedOp>, start: int, u: string, cascade: bool, now: int)
    requires LegalFrom(cfg, START, ops, start) && LastTime(ops, start) <= now && cfg.accessTTL <= MAX_ACCESS_TTL
    requires u in RunFrom(cfg, START, ops).w.users
    ensures var w := RunFrom(cfg, START, ops).w;
            var w' := DeleteUserStep(w, u, cascade, now);
            UserCutOff(w, w', u, now) && w'.users == w.users - {u}
  {
    var s := Reached(cfg, ops, start, now);
    UserCut(s, DeleteUserStep(s.w, u, cascade, now), u, now);
  }

  lemma SigningOutCutsOff(cfg: Config, ops: seq<TimedOp>, start: int, u: string, now: int)
    requires LegalFrom(cfg, START, ops, start) && LastTime(ops, start) <= now && cfg.accessTTL <= MAX_ACCESS_TTL
    ensures var w := RunFrom(cfg, START, ops).w;
            var w' := CutUser(w, u, now);
            UserCutOff(w, w', u, now) && w'.users == w.users
  {
    var s := Reached(cfg, ops, start, now);
    UserCut(s, CutUser(s.w, u, now), u, now);
  }

  /** Deleting a client, and signing everybody out of it, cut off exactly that client. */
  lemma ClientStepsCutOff(cfg: Config, ops: seq<TimedOp>, start: int, c: string, cascade: bool, now: int)
    requires LegalFrom(cfg, START, ops, start) && LastTime(ops, start) <= now && cfg.accessTTL <= MAX_ACCESS_TTL
    requires c in RunFrom(cfg, START, ops).w.clients
    ensures var w := RunFrom(cfg, START, ops).w;
            && ClientCutOff(w, DeleteClientStep(w, c, cascade, now), c, now)
            && DeleteClientStep(w, c, cascade, now).clients == w.clients - {c}
            && ClientCutOff(w, CutClient(w, c, now), c, now)
            && CutClient(w, c, now).clients == w.clients
  {
    var s := Reached(cfg, ops, start, now);
    ClientCut(s, CutClient(s.w, c, now), c, now);
    ClientCut(s, DeleteClientStep(s.w, c, cascade, now), c, now);
  }

  /** Revoking a row on the account page does what its client revoking it does. */
  lemma AccountRevocation(cfg: Config, ops: seq<TimedOp>, start: int, id: string, now: int)
    requires LegalFrom(cfg, START, ops, start) && LastTime(ops, start) <= now && cfg.accessTTL <= MAX_ACCESS_TTL
    requires id in RunFrom(cfg, START, ops).w.tokens && NulFree(RunFrom(cfg, START, ops).w.tokens[id].userID)
    ensures var w := RunFrom(cfg, START, ops).w;
            var w', row := CutRow(w, id, now), w.tokens[id];
            && (forall t :: !Redeemable(w', id, t))
            && (forall i, t :: i != id ==> (RefreshActive(w', i, t) <==> RefreshActive(w, i, t)))
            && (forall a, t :: a in w.signed && a.subject == row.userID && a.clientID == row.clientID && now <= t ==> !AccessActive(w', a, t))
            && (forall a: AccessClaims, t :: NulFree(a.subject) && !(a.subject == row.userID && a.clientID == row.clientID) ==>
                  (AccessActive(w', a, t) <==> AccessActive(w, a, t)))
  {
    var s := Reached(cfg, ops, start, now);
    RowRevoked(s, CutRow(s.w, id, now), id, now);
  }
}
