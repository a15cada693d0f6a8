/** Scope flow: from the authorization request through exchange and refresh to what
    UserInfo releases, over every run. */
module GrantScopes {
  import opened Clock
  import opened Scopes
  import opened RevocationTable
  import opened GrantStore
  import opened KeyStore
  import opened TokenEndpoint
  import opened EndpointRules
  import opened AuthorizeRequests
  import opened Authorize
  import opened GrantLife
  import opened GrantTheorems

  /** The family was authorized within bounds. */
  predicate GoodFamily(f: Family) {
    && f.scope != ""
    && "openid" in ScopeSet(f.scope)
    && ScopeSet(f.scope) <= f.allowed
    && (f.asked ==> ScopeSet(f.scope) <= f.consented)
  }

  /** A token for this user, client and scope stays inside family f. */
  predicate Within(userID: string, clientID: string, scope: string, f: Family) {
    && userID == f.userID && clientID == f.clientID
    && scope != "" && ScopeSet(scope) <= ScopeSet(f.scope)
  }

  /** f is the family of the code it names, which the server issued. */
  ghost predicate OfCode(s: Sys, f: Family) {
    f.code in s.codeFamily && s.codeFamily[f.code] == f
  }

  predicate OfFamily(c: AuthCode, f: Family) {
    c.userID == f.userID && c.clientID == f.clientID && c.scope == f.scope
  }

  ghost predicate CodesInv(s: Sys) {
    && (forall c :: c in s.codeFamily ==> s.codeFamily[c].code == c && GoodFamily(s.codeFamily[c]))
    && (forall c :: c in s.w.codes ==>
          c in s.codeFamily && OfFamily(s.w.codes[c], s.codeFamily[c]))
  }

  ghost predicate TokensInv(s: Sys) {
    && (forall id :: id in s.refreshFamily ==> OfCode(s, s.refreshFamily[id]))
    && (forall j :: j in s.accessFamily ==> OfCode(s, s.accessFamily[j]))
    && (forall id :: id in s.w.tokens ==>
          && id in s.refreshFamily
          && Within(s.w.tokens[id].userID, s.w.tokens[id].clientID, s.w.tokens[id].scope, s.refreshFamily[id]))
    && (forall a :: a in s.w.signed ==>
          && a.jti in s.accessFamily
          && Within(a.subject, a.clientID, a.scope, s.accessFamily[a.jti]))
  }

  ghost predicate ScopeInv(s: Sys) {
    CodesInv(s) && TokensInv(s)
  }

  /** Steps that issue nothing only remove rows or flip their flags. */
  ghost predicate IssuesNothing(w: World, w': World) {
    && w'.signed == w.signed
    && Shrunk(w.tokens, w'.tokens)
    && (forall c :: c in w'.codes ==> c in w.codes && (w'.codes[c] == w.codes[c] || w'.codes[c] == w.codes[c].(used := true)))
  }

  lemma IssuingNothingCodes(s: Sys, s': Sys)
    requires CodesInv(s) && IssuesNothing(s.w, s'.w) && s'.codeFamily == s.codeFamily
    ensures CodesInv(s')
  {
    forall c | c in s'.w.codes
      ensures c in s'.codeFamily && OfFamily(s'.w.codes[c], s'.codeFamily[c])
    {
      assert c in s.w.codes && OfFamily(s.w.codes[c], s.codeFamily[c]);
    }
  }

  lemma IssuingNothingTokens(s: Sys, s': Sys)
    requires TokensInv(s) && IssuesNothing(s.w, s'.w)
    requires s'.codeFamily == s.codeFamily && s'.refreshFamily == s.refreshFamily && s'.accessFamily == s.accessFamily
    ensures TokensInv(s')
  {
    forall id | id in s'.w.tokens
      ensures id in s'.refreshFamily
      ensures Within(s'.w.tokens[id].userID, s'.w.tokens[id].clientID, s'.w.tokens[id].scope, s'.refreshFamily[id])
    {
      assert id in s.w.tokens && id in s.refreshFamily;
    }
  }

  lemma IssuingNothingKeeps(s: Sys, s': Sys)
    requires ScopeInv(s) && IssuesNothing(s.w, s'.w)
    requires s'.codeFamily == s.codeFamily && s'.refreshFamily == s.refreshFamily && s'.accessFamily == s.accessFamily
    ensures ScopeInv(s')
  {
    IssuingNothingCodes(s, s');
    IssuingNothingTokens(s, s');
  }

  /** What issuing adds: one signed token and at most one refresh row. */
  ghost predicate Issues(w: World, w': World, r: TokenResponse, userID: string, clientID: string, scope: string, d: Draw) {
    && r.accessToken.jti == d.jti && r.accessToken.subject == userID
    && r.accessToken.clientID == clientID && r.accessToken.scope == scope
    && w'.signed == w.signed + {r.accessToken}
    && w'.codes == w.codes
    && (r.refreshToken.None? ==> w'.tokens == w.tokens)
    && (r.refreshToken.Some? ==>
          && r.refreshToken.value == d.refreshID
          && w'.tokens.Keys == w.tokens.Keys + {d.refreshID}
          && (forall id :: id in w.tokens && id != d.refreshID ==> w'.tokens[id] == w.tokens[id])
          && w'.tokens[d.refreshID].userID == userID && w'.tokens[d.refreshID].clientID == clientID
          && w'.tokens[d.refreshID].scope == scope)
  }

  lemma GenerateIssues(cfg: Config, w: World, userID: string, clientID: string, c: Client, scope: string, now: int, d: Draw)
    ensures var (w', outcome) := Generate(cfg, w, userID, clientID, c, scope, now, d);
            outcome.Granted? && Issues(w, w', outcome.response, userID, clientID, scope, d)
  {
  }

  lemma IssuingKeeps(s: Sys, w': World, r: TokenResponse, userID: string, clientID: string, scope: string, d: Draw, family: Family)
    requires ScopeInv(s) && FreshDraw(s, d) && OfCode(s, family)
    requires Issues(s.w, w', r, userID, clientID, scope, d)
    requires Within(userID, clientID, scope, family)
    ensures ScopeInv(Remember(s, w', Granted(r), family))
  {
    var s' := Remember(s, w', Granted(r), family);
    assert s'.codeFamily == s.codeFamily;
    assert s'.accessFamily == s.accessFamily[d.jti := family];
    forall id | id in s'.w.tokens
      ensures id in s'.refreshFamily
      ensures Within(s'.w.tokens[id].userID, s'.w.tokens[id].clientID, s'.w.tokens[id].scope, s'.refreshFamily[id])
    {
      if r.refreshToken.Some? && id == d.refreshID {
        assert s'.refreshFamily[id] == family;
      } else {
        assert id in s.w.tokens && s'.refreshFamily[id] == s.refreshFamily[id];
      }
    }
    forall a | a in s'.w.signed
      ensures a.jti in s'.accessFamily && Within(a.subject, a.clientID, a.scope, s'.accessFamily[a.jti])
    {
      if a != r.accessToken {
        assert a in s.w.signed && a.jti != d.jti;
      }
    }
  }

  lemma FamilyIsGood(cfg: Config, w: World, ask: AuthorizeRequest, userID: string, authTime: int, via: Via, now: int, code: string)
    requires Request(cfg, w, ask, userID, authTime, via, now, code).1
    ensures ask.clientID in w.clients
    ensures GoodFamily(FamilyOf(cfg, Request(cfg, w, ask, userID, authTime, via, now, code).0, ask, userID, code))
  {
    AskingAdds(cfg, w, ask, userID, authTime, via, now, code);
    IssuedWithinConsent(cfg, w, ask, userID, authTime, via, now, code);
    assert "openid" in Fields(ask.scope);
  }

  /** w' has one more code, of family f. */
  ghost predicate AddsCode(s: Sys, w': World, code: string, f: Family) {
    && code !in s.codeFamily && f.code == code && GoodFamily(f)
    && w'.signed == s.w.signed && w'.tokens == s.w.tokens
    && w'.codes.Keys == s.w.codes.Keys + {code}
    && (forall c :: c in s.w.codes && c != code ==> w'.codes[c] == s.w.codes[c])
    && OfFamily(w'.codes[code], f)
  }

  lemma NewFamilyCodes(s: Sys, w': World, code: string, f: Family)
    requires CodesInv(s) && AddsCode(s, w', code, f)
    ensures CodesInv(s.(w := w', codeFamily := s.codeFamily[code := f]))
  {
    var families := s.codeFamily[code := f];
    forall c | c in families
      ensures families[c].code == c && GoodFamily(families[c])
    {
      assert c != code ==> c in s.codeFamily && families[c] == s.codeFamily[c];
    }
    forall c | c in w'.codes
      ensures c in families && OfFamily(w'.codes[c], families[c])
    {
      if c != code {
        assert c in s.w.codes && w'.codes[c] == s.w.codes[c];
        assert families[c] == s.codeFamily[c];
      }
    }
  }

  lemma NewFamilyTokens(s: Sys, w': World, code: string, f: Family)
    requires TokensInv(s) && AddsCode(s, w', code, f)
    ensures TokensInv(s.(w := w', codeFamily := s.codeFamily[code := f]))
  {
  }

  lemma AskingKeeps(cfg: Config, s: Sys, o: TimedOp)
    requires ScopeInv(s) && o.op.AskCode? && Legal(s, o.op)
    ensures ScopeInv(Perform(cfg, s, o))
  {
    var AskCode(ask, userID, authTime, via, code) := o.op;
    var (w', issued) := Request(cfg, s.w, ask, userID, authTime, via, o.at, code);
    if issued {
      AskingAdds(cfg, s.w, ask, userID, authTime, via, o.at, code);
      FamilyIsGood(cfg, s.w, ask, userID, authTime, via, o.at, code);
      NewFamilyCodes(s, w', code, FamilyOf(cfg, w', ask, userID, code));
      NewFamilyTokens(s, w', code, FamilyOf(cfg, w', ask, userID, code));
    }
  }

  lemma ConsumingIssuesNothing(w: World, code: string)
    ensures IssuesNothing(w, w.(codes := MarkUsed(w.codes, code).0))
  {
  }

  lemma RotatingIssuesNothing(w: World, id: string)
    ensures IssuesNothing(w, w.(tokens := GrantStore.Rotate(w.tokens, id).0))
  {
  }

  lemma RevokingGrantIssuesNothing(w: World, userID: string, clientID: string, now: int)
    ensures IssuesNothing(w, RevokeGrant(w, userID, clientID, now))
  {
  }

  /** A step that consumes a code or token in mid and then issues for it in w'. */
  lemma ConsumeThenIssueKeeps(s: Sys, mid: World, w': World, r: TokenResponse, userID: string, clientID: string, scope: string,
                              d: Draw, family: Family)
    requires ScopeInv(s) && FreshDraw(s, d) && OfCode(s, family)
    requires IssuesNothing(s.w, mid) && Issues(mid, w', r, userID, clientID, scope, d)
    requires Within(userID, clientID, scope, family)
    ensures ScopeInv(Remember(s, w', Granted(r), family))
  {
    var consumed := s.(w := mid);
    IssuingNothingKeeps(s, consumed);
    IssuingKeeps(consumed, w', r, userID, clientID, scope, d, family);
    assert Remember(consumed, w', Granted(r), family) == Remember(s, w', Granted(r), family);
  }

  lemma RefusingKeeps(s: Sys, w': World, error: Error, family: Family)
    requires ScopeInv(s) && IssuesNothing(s.w, w')
    ensures ScopeInv(Remember(s, w', Failed(error), family))
  {
    IssuingNothingKeeps(s, s.(w := w'));
  }

  lemma ExchangeRefused(cfg: Config, w: World, req: CodeRequest, now: int, d: Draw, w': World, outcome: Outcome)
    requires ExchangeEnds(cfg, w, req, now, d, w', outcome) && outcome.Failed?
    ensures IssuesNothing(w, w')
  {
    ConsumingIssuesNothing(w, req.code);
    if req.code in w.codes {
      RevokingGrantIssuesNothing(w, w.codes[req.code].userID, w.codes[req.code].clientID, now);
    }
  }

  lemma ExchangeGranted(cfg: Config, w: World, req: CodeRequest, now: int, d: Draw, w': World, outcome: Outcome)
    requires ExchangeEnds(cfg, w, req, now, d, w', outcome) && outcome.Granted?
    ensures req.code in w.codes && w.codes[req.code].clientID == req.clientID
    ensures var mid := w.(codes := MarkUsed(w.codes, req.code).0);
            && IssuesNothing(w, mid)
            && Issues(mid, w', outcome.response, w.codes[req.code].userID, req.clientID, w.codes[req.code].scope, d)
  {
    ConsumingIssuesNothing(w, req.code);
    GenerateIssues(cfg, w.(codes := MarkUsed(w.codes, req.code).0), w.codes[req.code].userID, req.clientID,
                   w.clients[req.clientID], w.codes[req.code].scope, now, d);
  }

  lemma ExchangingKeeps(cfg: Config, s: Sys, req: CodeRequest, d: Draw, now: int, w': World, outcome: Outcome)
    requires ScopeInv(s) && FreshDraw(s, d)
    requires ExchangeEnds(cfg, s.w, req, now, d, w', outcome)
    ensures ScopeInv(Remember(s, w', outcome, Lookup(s.codeFamily, req.code)))
  {
    if outcome.Granted? {
      ExchangeGranted(cfg, s.w, req, now, d, w', outcome);
      var c, f := s.w.codes[req.code], s.codeFamily[req.code];
      assert Within(c.userID, req.clientID, c.scope, f) && OfCode(s, f);
      ConsumeThenIssueKeeps(s, s.w.(codes := MarkUsed(s.w.codes, req.code).0), w', outcome.response, c.userID, req.clientID, c.scope, d, f);
    } else {
      ExchangeRefused(cfg, s.w, req, now, d, w', outcome);
      RefusingKeeps(s, w', outcome.error, Lookup(s.codeFamily, req.code));
    }
  }

  lemma RefreshRefused(cfg: Config, w: World, req: RefreshRequest, now: int, d: Draw, w': World, outcome: Outcome)
    requires RefreshEnds(cfg, w, req, now, d, w', outcome) && outcome.Failed?
    ensures IssuesNothing(w, w')
  {
    if req.refreshToken in w.tokens {
      RevokingGrantIssuesNothing(w, w.tokens[req.refreshToken].userID, w.tokens[req.refreshToken].clientID, now);
    }
  }

  lemma RefreshGranted(cfg: Config, w: World, req: RefreshRequest, now: int, d: Draw, w': World, outcome: Outcome)
    requires RefreshEnds(cfg, w, req, now, d, w', outcome) && outcome.Granted?
    ensures req.refreshToken in w.tokens
    ensures var mid := w.(tokens := GrantStore.Rotate(w.tokens, req.refreshToken).0);
            && IssuesNothing(w, mid)
            && Issues(mid, w', outcome.response, w.tokens[req.refreshToken].userID, req.clientID, outcome.response.scope, d)
  {
    RotatingIssuesNothing(w, req.refreshToken);
    GenerateIssues(cfg, w.(tokens := GrantStore.Rotate(w.tokens, req.refreshToken).0), w.tokens[req.refreshToken].userID,
                   req.clientID, w.clients[req.clientID], outcome.response.scope, now, d);
  }

  lemma RefreshingKeeps(cfg: Config, s: Sys, req: RefreshRequest, d: Draw, now: int, w': World, outcome: Outcome)
    requires ScopeInv(s) && FreshDraw(s, d)
    requires RefreshEnds(cfg, s.w, req, now, d, w', outcome)
    ensures ScopeInv(Remember(s, w', outcome, Lookup(s.refreshFamily, req.refreshToken)))
  {
    if outcome.Granted? {
      RefreshGranted(cfg, s.w, req, now, d, w', outcome);
      var t, f, scope := s.w.tokens[req.refreshToken], s.refreshFamily[req.refreshToken], outcome.response.scope;
      assert Within(t.userID, req.clientID, scope, f) && OfCode(s, f);
      ConsumeThenIssueKeeps(s, s.w.(tokens := GrantStore.Rotate(s.w.tokens, req.refreshToken).0), w', outcome.response,
                            t.userID, req.clientID, scope, d, f);
    } else {
      RefreshRefused(cfg, s.w, req, now, d, w', outcome);
      RefusingKeeps(s, w', outcome.error, Lookup(s.refreshFamily, req.refreshToken));
    }
  }

  lemma UpdatingUserIssuesNothing(w: World, userID: string, user: User, now: int)
    ensures IssuesNothing(w, UpdateUserStep(w, userID, user, now))
  {
  }

  lemma DeletingUserIssuesNothing(w: World, userID: string, cascade: bool, now: int)
    ensures IssuesNothing(w, DeleteUserStep(w, userID, cascade, now))
  {
  }

  lemma ClientStepsIssueNothing(w: World, clientID: string, cascade: bool, now: int)
    ensures IssuesNothing(w, DeleteClientStep(w, clientID, cascade, now))
  {
  }

  lemma CutsIssueNothing(w: World, userID: string, clientID: string, now: int)
    ensures IssuesNothing(w, CutUser(w, userID, now))
    ensures IssuesNothing(w, CutClient(w, clientID, now))
  {
  }

  lemma CutRowIssuesNothing(w: World, id: string, now: int)
    ensures IssuesNothing(w, CutRow(w, id, now))
  {
  }

  lemma MaintainIssuesNothing(w: World, now: int)
    ensures IssuesNothing(w, MaintainStep(w, now))
  {
  }

  lemma OtherOpsIssueNothing(cfg: Config, s: Sys, o: TimedOp)
    requires !o.op.AskCode? && !o.op.DoExchange? && !o.op.DoRefresh?
    ensures IssuesNothing(s.w, Perform(cfg, s, o).w)
  {
    match o.op {
      case UpdateUser(userID, user) => UpdatingUserIssuesNothing(s.w, userID, user, o.at);
      case DeleteUser(userID, cascade) => DeletingUserIssuesNothing(s.w, userID, cascade, o.at);
      case DeleteClient(clientID, cascade) => ClientStepsIssueNothing(s.w, clientID, cascade, o.at);
      case SignOutUser(userID) => CutsIssueNothing(s.w, userID, "", o.at);
      case SignOutClient(clientID) => CutsIssueNothing(s.w, "", clientID, o.at);
      case RevokeRow(id) => CutRowIssuesNothing(s.w, id, o.at);
      case Maintain => MaintainIssuesNothing(s.w, o.at);
      case DoRevoke(req) => RevocationIssuesNothing(cfg, s.w, req, o.at);
      case _ =>
    }
  }

  lemma RevocationIssuesNothing(cfg: Config, w: World, req: TokenRequest, now: int)
    ensures IssuesNothing(w, Revoke(cfg, w, req, now).0)
  {
  }

  lemma ExchangePerformedKeeps(cfg: Config, s: Sys, req: CodeRequest, d: Draw, now: int)
    requires ScopeInv(s) && FreshDraw(s, d)
    ensures var (w', outcome) := Exchange(cfg, s.w, req, now, d);
            ScopeInv(Remember(s, w', outcome, Lookup(s.codeFamily, req.code)))
  {
    var (w', outcome) := Exchange(cfg, s.w, req, now, d);
    ExchangeEndings(cfg, s.w, req, now, d);
    ExchangingKeeps(cfg, s, req, d, now, w', outcome);
  }

  lemma RefreshPerformedKeeps(cfg: Config, s: Sys, req: RefreshRequest, d: Draw, now: int)
    requires ScopeInv(s) && FreshDraw(s, d)
    ensures var (w', outcome) := Refresh(cfg, s.w, req, now, d);
            ScopeInv(Remember(s, w', outcome, Lookup(s.refreshFamily, req.refreshToken)))
  {
    var (w', outcome) := Refresh(cfg, s.w, req, now, d);
    RefreshEndings(cfg, s.w, req, now, d);
    RefreshingKeeps(cfg, s, req, d, now, w', outcome);
  }

  lemma PerformKeepsScopes(cfg: Config, s: Sys, o: TimedOp)
    requires ScopeInv(s) && Legal(s, o.op)
    ensures ScopeInv(Perform(cfg, s, o))
  {
    match o.op {
      case AskCode(_, _, _, _, _) => AskingKeeps(cfg, s, o);
      case DoExchange(req, d) => ExchangePerformedKeeps(cfg, s, req, d, o.at);
      case DoRefresh(req, d) => RefreshPerformedKeeps(cfg, s, req, d, o.at);
      case _ =>
        OtherOpsIssueNothing(cfg, s, o);
        IssuingNothingKeeps(s, Perform(cfg, s, o));
    }
  }

  lemma {:induction false} RunKeepsScopes(cfg: Config, ops: seq<TimedOp>, start: int)
    requires LegalFrom(cfg, START, ops, start)
    ensures ScopeInv(RunFrom(cfg, START, ops))
  {
    if ops != [] {
      var init, last := ops[..|ops| - 1], ops[|ops| - 1];
      RunKeepsScopes(cfg, init, start);
      PerformKeepsScopes(cfg, RunFrom(cfg, START, init), last);
    }
  }

  /** A token for this user, client and scope belongs to family f: the code f names was
      issued for this user and client, within the client's scopes at authorization and,
      where asked, within the consent on record then; the token's scope is within the
      scope of that code and never empty. */
  ghost predicate Belongs(s: Sys, userID: string, clientID: string, scope: string, f: Family) {
    OfCode(s, f) && GoodFamily(f) && Within(userID, clientID, scope, f)
  }

  /** Scopes never widen: in every run, each access token belongs to its own family, so
      UserInfo releases by its scope and never by the default. */
  lemma AccessScopesNeverWiden(cfg: Config, ops: seq<TimedOp>, start: int, a: AccessClaims, t: int)
    requires LegalFrom(cfg, START, ops, start)
    requires a in RunFrom(cfg, START, ops).w.signed
    ensures var s := RunFrom(cfg, START, ops);
            && a.jti in s.accessFamily
            && Belongs(s, a.subject, a.clientID, a.scope, s.accessFamily[a.jti])
            && (UserInfoScope(s.w, a, t).Some? ==> UserInfoScope(s.w, a, t).value == a.scope)
  {
    RunKeepsScopes(cfg, ops, start);
  }

  /** The same for every refresh token row. */
  lemma RefreshScopesNeverWiden(cfg: Config, ops: seq<TimedOp>, start: int, id: string)
    requires LegalFrom(cfg, START, ops, start)
    requires id in RunFrom(cfg, START, ops).w.tokens
    ensures var s := RunFrom(cfg, START, ops);
            var t := s.w.tokens[id];
            id in s.refreshFamily && Belongs(s, t.userID, t.clientID, t.scope, s.refreshFamily[id])
  {
    RunKeepsScopes(cfg, ops, start);
  }

  /** The response is to family f: what it hands over belongs there, with scope. */
  ghost predicate HandsOver(s: Sys, r: TokenResponse, f: Family, scope: string) {
    && r.scope == scope && r.accessToken.scope == scope
    && r.accessToken in s.w.signed && r.accessToken.jti in s.accessFamily && s.accessFamily[r.accessToken.jti] == f
    && (r.refreshToken.Some? ==>
          && r.refreshToken.value in s.w.tokens && s.w.tokens[r.refreshToken.value].scope == scope
          && r.refreshToken.value in s.refreshFamily && s.refreshFamily[r.refreshToken.value] == f)
  }

  lemma GenerateHandsOver(cfg: Config, s: Sys, mid: World, userID: string, clientID: string, c: Client, scope: string, now: int,
                          d: Draw, w': World, outcome: Outcome, f: Family)
    requires (w', outcome) == Generate(cfg, mid, userID, clientID, c, scope, now, d)
    ensures outcome.Granted? && HandsOver(Remember(s, w', outcome, f), outcome.response, f, scope)
  {
  }

  lemma ExchangingHandsOver(cfg: Config, s: Sys, req: CodeRequest, d: Draw, now: int, w': World, outcome: Outcome)
    requires ScopeInv(s) && ExchangeEnds(cfg, s.w, req, now, d, w', outcome) && outcome.Granted?
    ensures req.code in s.codeFamily
    ensures var f := s.codeFamily[req.code];
            HandsOver(Remember(s, w', outcome, f), outcome.response, f, f.scope)
  {
    var c := s.w.codes[req.code];
    GenerateHandsOver(cfg, s, s.w.(codes := MarkUsed(s.w.codes, req.code).0), c.userID, req.clientID, s.w.clients[req.clientID],
                      c.scope, now, d, w', outcome, s.codeFamily[req.code]);
  }

  lemma RefreshingHandsOver(cfg: Config, s: Sys, req: RefreshRequest, d: Draw, now: int, w': World, outcome: Outcome)
    requires ScopeInv(s) && RefreshEnds(cfg, s.w, req, now, d, w', outcome) && outcome.Granted?
    ensures req.refreshToken in s.w.tokens && req.refreshToken in s.refreshFamily
    ensures outcome.response.scope != ""
    ensures ScopeSet(outcome.response.scope) <= ScopeSet(s.w.tokens[req.refreshToken].scope)
    ensures var f := s.refreshFamily[req.refreshToken];
            HandsOver(Remember(s, w', outcome, f), outcome.response, f, outcome.response.scope)
  {
    var t := s.w.tokens[req.refreshToken];
    GenerateHandsOver(cfg, s, s.w.(tokens := GrantStore.Rotate(s.w.tokens, req.refreshToken).0), t.userID, req.clientID,
                      s.w.clients[req.clientID], outcome.response.scope, now, d, w', outcome, s.refreshFamily[req.refreshToken]);
  }

  /** The family of an exchange is that of the code exchanged, with exactly its scope. */
  lemma ExchangeHandsOver(cfg: Config, ops: seq<TimedOp>, start: int, req: CodeRequest, d: Draw, now: int)
    requires LegalFrom(cfg, START, ops, start)
    ensures var s := RunFrom(cfg, START, ops);
            var (w', outcome) := Exchange(cfg, s.w, req, now, d);
            outcome.Granted? ==>
              && req.code in s.codeFamily
              && var f := s.codeFamily[req.code];
                 f.code == req.code && HandsOver(Remember(s, w', outcome, f), outcome.response, f, f.scope)
  {
    RunKeepsScopes(cfg, ops, start);
    var s := RunFrom(cfg, START, ops);
    var (w', outcome) := Exchange(cfg, s.w, req, now, d);
    ExchangeEndings(cfg, s.w, req, now, d);
    if outcome.Granted? {
      ExchangingHandsOver(cfg, s, req, d, now, w', outcome);
    }
  }

  /** The family of a refresh is that of the row consumed, and the scope of everything
      it hands over is within the scope of that row. */
  lemma RefreshHandsOver(cfg: Config, ops: seq<TimedOp>, start: int, req: RefreshRequest, d: Draw, now: int)
    requires LegalFrom(cfg, START, ops, start)
    ensures var s := RunFrom(cfg, START, ops);
            var (w', outcome) := Refresh(cfg, s.w, req, now, d);
            outcome.Granted? ==>
              && req.refreshToken in s.w.tokens && req.refreshToken in s.refreshFamily
              && outcome.response.scope != ""
              && ScopeSet(outcome.response.scope) <= ScopeSet(s.w.tokens[req.refreshToken].scope)
              && var f := s.refreshFamily[req.refreshToken];
                 HandsOver(Remember(s, w', outcome, f), outcome.response, f, outcome.response.scope)
  {
    RunKeepsScopes(cfg, ops, start);
    var s := RunFrom(cfg, START, ops);
    var (w', outcome) := Refresh(cfg, s.w, req, now, d);
    RefreshEndings(cfg, s.w, req, now, d);
    if outcome.Granted? {
      RefreshingHandsOver(cfg, s, req, d, now, w', outcome);
    }
  }

  /** Families are history: no handler changes the one an ID was given. */
  lemma FamiliesNeverChange(cfg: Config, s: Sys, o: TimedOp)
    requires Legal(s, o.op)
    ensures var s' := Perform(cfg, s, o);
            && (forall c :: c in s.codeFamily ==> c in s'.codeFamily && s'.codeFamily[c] == s.codeFamily[c])
            && (forall id :: id in s.refreshFamily ==> id in s'.refreshFamily && s'.refreshFamily[id] == s.refreshFamily[id])
            && (forall j :: j in s.accessFamily ==> j in s'.accessFamily && s'.accessFamily[j] == s.accessFamily[j])
  {
    if o.op.DoExchange? {
      var (w', outcome) := Exchange(cfg, s.w, o.op.exchange, o.at, o.op.draw);
      ExchangeEndings(cfg, s.w, o.op.exchange, o.at, o.op.draw);
      ResponseIsFresh(cfg, s, o.op.draw, w', outcome, Lookup(s.codeFamily, o.op.exchange.code));
    } else if o.op.DoRefresh? {
      var (w', outcome) := Refresh(cfg, s.w, o.op.refresh, o.at, o.op.draw);
      RefreshEndings(cfg, s.w, o.op.refresh, o.at, o.op.draw);
      ResponseIsFresh(cfg, s, o.op.draw, w', outcome, Lookup(s.refreshFamily, o.op.refresh.refreshToken));
    }
  }

  lemma ResponseIsFresh(cfg: Config, s: Sys, d: Draw, w': World, outcome: Outcome, f: Family)
    requires FreshDraw(s, d)
    requires outcome.Granted? ==>
               && outcome.response.accessToken.jti == d.jti
               && (outcome.response.refreshToken.Some? ==> outcome.response.refreshToken.value == d.refreshID)
    ensures var s' := Remember(s, w', outcome, f);
            && s'.codeFamily == s.codeFamily
            && (forall id :: id in s.refreshFamily ==> id in s'.refreshFamily && s'.refreshFamily[id] == s.refreshFamily[id])
            && (forall j :: j in s.accessFamily ==> j in s'.accessFamily && s'.accessFamily[j] == s.accessFamily[j])
  {
  }

  // ----- what a good request gets

  /** A code is exchanged at most once, one request at a time: a granted exchange
      leaves it used, and from then on, whatever runs, no exchange of it is granted. */
  lemma {:induction false} CodeGrantsOnce(cfg: Config, s: Sys, ops: seq<TimedOp>, start: int, code: string)
    requires LegalFrom(cfg, s, ops, start)
    requires code in s.codeFamily && (code in s.w.codes ==> s.w.codes[code].used)
    ensures var s' := RunFrom(cfg, s, ops);
            && code in s'.codeFamily && (code in s'.w.codes ==> s'.w.codes[code].used)
            && forall req: CodeRequest, now, d :: req.code == code ==> !Exchange(cfg, s'.w, req, now, d).1.Granted?
  {
    if ops != [] {
      var init, last := ops[..|ops| - 1], ops[|ops| - 1];
      CodeGrantsOnce(cfg, s, init, start, code);
      UsedStaysUsed(cfg, RunFrom(cfg, s, init), last, code);
    }
    var s' := RunFrom(cfg, s, ops);
    forall req: CodeRequest, now, d | req.code == code
      ensures !Exchange(cfg, s'.w, req, now, d).1.Granted?
    {
      ExchangeGrantedIff(cfg, s'.w, req, now, d);
    }
  }

  lemma UsedStaysUsed(cfg: Config, s: Sys, o: TimedOp, code: string)
    requires Legal(s, o.op)
    requires code in s.codeFamily && (code in s.w.codes ==> s.w.codes[code].used)
    ensures var s' := Perform(cfg, s, o);
            code in s'.codeFamily && (code in s'.w.codes ==> s'.w.codes[code].used)
  {
    if o.op.DoExchange? {
      UsedAfterExchange(cfg, s.w, o.op.exchange, o.at, o.op.draw, code);
    } else if o.op.DoRefresh? {
      CodesAfterRefresh(cfg, s.w, o.op.refresh, o.at, o.op.draw);
    } else if o.op.AskCode? {
      AskingAdds(cfg, s.w, o.op.ask, o.op.userID, o.op.authTime, o.op.via, o.at, o.op.code);
    } else {
      OtherOpsIssueNothing(cfg, s, o);
    }
  }

  lemma ExchangeEndsCodes(cfg: Config, w: World, req: CodeRequest, now: int, d: Draw, w': World, outcome: Outcome, code: string)
    requires ExchangeEnds(cfg, w, req, now, d, w', outcome)
    ensures code in w'.codes ==> code in w.codes && (w.codes[code].used ==> w'.codes[code].used)
  {
  }

  lemma UsedAfterExchange(cfg: Config, w: World, req: CodeRequest, now: int, d: Draw, code: string)
    ensures var w' := Exchange(cfg, w, req, now, d).0;
            code in w'.codes ==> code in w.codes && (w.codes[code].used ==> w'.codes[code].used)
  {
    var (w', outcome) := Exchange(cfg, w, req, now, d);
    ExchangeEndings(cfg, w, req, now, d);
    ExchangeEndsCodes(cfg, w, req, now, d, w', outcome, code);
  }

  lemma CodesAfterRefresh(cfg: Config, w: World, req: RefreshRequest, now: int, d: Draw)
    ensures Refresh(cfg, w, req, now, d).0.codes == w.codes
  {
  }
}
