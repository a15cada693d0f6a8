/** What holds over every run: refusal is permanent, a verdict is exactly what the
    log says, a replay cuts off its grant and no other, and scopes never widen. */
module GrantTheorems {
  import opened Clock
  import opened Scopes
  import opened RevocationTable
  import opened GrantStore
  import opened KeyStore
  import opened TokenEndpoint
  import opened EndpointRules
  import opened Authorize
  import opened GrantLife

  // ----- every step keeps the invariant and undoes no refusal

  /** The ways an exchange can end. */
  ghost predicate ExchangeEnds(cfg: Config, w: World, req: CodeRequest, now: int, d: Draw, w': World, outcome: Outcome) {
    || (outcome.Failed? && w' == w)
    || (outcome.Failed? && w' == w.(codes := MarkUsed(w.codes, req.code).0))
    || (outcome.Failed? && req.code in w.codes && w' == RevokeGrant(w, w.codes[req.code].userID, w.codes[req.code].clientID, now))
    || (&& outcome.Granted? && req.code in w.codes && req.clientID in w.clients
        && w.codes[req.code].clientID == req.clientID
        && UserActive(w, w.codes[req.code].userID)
        && (w', outcome) == Generate(cfg, w.(codes := MarkUsed(w.codes, req.code).0), w.codes[req.code].userID,
                                     req.clientID, w.clients[req.clientID], w.codes[req.code].scope, now, d))
  }

  lemma ExchangeEndings(cfg: Config, w: World, req: CodeRequest, now: int, d: Draw)
    ensures var (w', outcome) := Exchange(cfg, w, req, now, d);
            ExchangeEnds(cfg, w, req, now, d, w', outcome)
  {
  }

  lemma ExchangeKeeps(cfg: Config, s: Sys, req: CodeRequest, d: Draw, now: int, w': World, outcome: Outcome, family: Family)
    requires Inv(s, now) && FreshDraw(s, d) && cfg.accessTTL <= MAX_ACCESS_TTL
    requires ExchangeEnds(cfg, s.w, req, now, d, w', outcome)
    ensures Inv(Remember(s, w', outcome, family), now) && Evolves(s, Remember(s, w', outcome, family), now)
  {
    var consumed := s.(w := s.w.(codes := MarkUsed(s.w.codes, req.code).0));
    OtherTables(s, consumed, now);
    if outcome.Granted? {
      var c := s.w.codes[req.code];
      GenerateKeeps(cfg, consumed, c.userID, req.clientID, s.w.clients[req.clientID], c.scope, now, d, family);
      EvolvesTwice(s, consumed, Remember(consumed, w', outcome, family), now);
      assert Remember(consumed, w', outcome, family) == Remember(s, w', outcome, family);
    } else if w' == s.w {
      EvolvesSelf(s, s, now);
      assert s.(w := w') == s;
    } else if w' != consumed.w {
      RevokeGrantKeeps(s, s.w.codes[req.code].userID, s.w.codes[req.code].clientID, now);
    }
  }

  /** The ways a refresh can end. */
  ghost predicate RefreshEnds(cfg: Config, w: World, req: RefreshRequest, now: int, d: Draw, w': World, outcome: Outcome) {
    || (outcome.Failed? && w' == w)
    || (outcome.Failed? && req.refreshToken in w.tokens
        && w' == RevokeGrant(w, w.tokens[req.refreshToken].userID, w.tokens[req.refreshToken].clientID, now))
    || (&& outcome.Granted? && req.refreshToken in w.tokens && req.clientID in w.clients
        && w.tokens[req.refreshToken].clientID == req.clientID
        && UserActive(w, w.tokens[req.refreshToken].userID)
        && (outcome.response.scope == w.tokens[req.refreshToken].scope
            || (outcome.response.scope != "" && ScopeSet(outcome.response.scope) <= ScopeSet(w.tokens[req.refreshToken].scope)))
        && (w', outcome) == Generate(cfg, w.(tokens := GrantStore.Rotate(w.tokens, req.refreshToken).0),
                                     w.tokens[req.refreshToken].userID, req.clientID, w.clients[req.clientID],
                                     outcome.response.scope, now, d))
  }

  lemma RefreshEndings(cfg: Config, w: World, req: RefreshRequest, now: int, d: Draw)
    ensures var (w', outcome) := Refresh(cfg, w, req, now, d);
            RefreshEnds(cfg, w, req, now, d, w', outcome)
  {
  }

  lemma RefreshKeeps(cfg: Config, s: Sys, req: RefreshRequest, d: Draw, now: int, w': World, outcome: Outcome, family: Family)
    requires Inv(s, now) && FreshDraw(s, d) && cfg.accessTTL <= MAX_ACCESS_TTL
    requires RefreshEnds(cfg, s.w, req, now, d, w', outcome)
    ensures Inv(Remember(s, w', outcome, family), now) && Evolves(s, Remember(s, w', outcome, family), now)
  {
    if outcome.Granted? {
      var t := s.w.tokens[req.refreshToken];
      var rotated := s.(w := s.w.(tokens := GrantStore.Rotate(s.w.tokens, req.refreshToken).0));
      RotatedKeeps(s, req.refreshToken, now);
      GenerateKeeps(cfg, rotated, t.userID, req.clientID, s.w.clients[req.clientID], outcome.response.scope, now, d, family);
      EvolvesTwice(s, rotated, Remember(rotated, w', outcome, family), now);
      assert Remember(rotated, w', outcome, family) == Remember(s, w', outcome, family);
    } else if w' == s.w {
      EvolvesSelf(s, s, now);
      assert s.(w := w') == s;
    } else {
      RevokeGrantKeeps(s, s.w.tokens[req.refreshToken].userID, s.w.tokens[req.refreshToken].clientID, now);
    }
  }

  lemma RotatedKeeps(s: Sys, id: string, now: int)
    requires Inv(s, now)
    ensures var s' := s.(w := s.w.(tokens := GrantStore.Rotate(s.w.tokens, id).0));
            Inv(s', now) && Evolves(s, s', now)
  {
    var s' := s.(w := s.w.(tokens := GrantStore.Rotate(s.w.tokens, id).0));
    forall a | a in s'.w.signed && !UserActive(s'.w, a.subject)
      ensures Cut(s'.w, a)
    {
      CutMonotone(s.w, s'.w, a);
    }
    KeysUnchanged(s, s', now);
  }

  lemma RevokeKeeps(cfg: Config, s: Sys, req: TokenRequest, now: int)
    requires Inv(s, now)
    ensures var s' := s.(w := Revoke(cfg, s.w, req, now).0);
            Inv(s', now) && Evolves(s, s', now)
  {
    var s' := s.(w := Revoke(cfg, s.w, req, now).0);
    match req.token {
      case Opaque(id) =>
        CutRowKeeps(s, id, now);
        EvolvesSelf(s, s, now);
        assert s' == s || s' == s.(w := CutRow(s.w, id, now));
      case JWT(a) =>
        EvolvesSelf(s, s, now);
        if a in s.w.signed {
          CutTokenKeeps(s, a, now);
        }
    }
  }

  lemma AskKeeps(s: Sys, w': World, families: map<string, Family>, now: int)
    requires Inv(s, now)
    requires w' == s.w.(codes := w'.codes, consents := w'.consents)
    ensures var s' := s.(w := w', codeFamily := families);
            Inv(s', now) && Evolves(s, s', now)
  {
    var s1 := s.(w := w');
    OtherTables(s, s1, now);
    CodeHistoryIrrelevant(s1, families, now);
    EvolvesTwice(s, s1, s1.(codeFamily := families), now);
  }

  lemma ExchangeApplied(cfg: Config, s: Sys, req: CodeRequest, d: Draw, now: int)
    requires Inv(s, now) && FreshDraw(s, d) && cfg.accessTTL <= MAX_ACCESS_TTL
    ensures var (w', outcome) := Exchange(cfg, s.w, req, now, d);
            var s' := Remember(s, w', outcome, Lookup(s.codeFamily, req.code));
            Inv(s', now) && Evolves(s, s', now)
  {
    var (w', outcome) := Exchange(cfg, s.w, req, now, d);
    ExchangeEndings(cfg, s.w, req, now, d);
    ExchangeKeeps(cfg, s, req, d, now, w', outcome, Lookup(s.codeFamily, req.code));
  }

  lemma RefreshApplied(cfg: Config, s: Sys, req: RefreshRequest, d: Draw, now: int)
    requires Inv(s, now) && FreshDraw(s, d) && cfg.accessTTL <= MAX_ACCESS_TTL
    ensures var (w', outcome) := Refresh(cfg, s.w, req, now, d);
            var s' := Remember(s, w', outcome, Lookup(s.refreshFamily, req.refreshToken));
            Inv(s', now) && Evolves(s, s', now)
  {
    var (w', outcome) := Refresh(cfg, s.w, req, now, d);
    RefreshEndings(cfg, s.w, req, now, d);
    RefreshKeeps(cfg, s, req, d, now, w', outcome, Lookup(s.refreshFamily, req.refreshToken));
  }

  predicate OfUser(op: GrantLife.Op) {
    op.AddUser? || op.UpdateUser? || op.DeleteUser? || op.SignOutUser?
  }

  predicate OfClient(op: GrantLife.Op) {
    op.SaveClient? || op.DeleteClient? || op.SignOutClient? || op.RevokeRow? || op.ForgetConsent?
  }

  lemma UserOpKeeps(cfg: Config, s: Sys, o: TimedOp)
    requires Inv(s, o.at) && Legal(s, o.op) && OfUser(o.op)
    ensures Inv(Perform(cfg, s, o), o.at) && Evolves(s, Perform(cfg, s, o), o.at)
  {
    match o.op {
      case AddUser(userID, user) => AddUserKeeps(s, userID, user, o.at);
      case UpdateUser(userID, user) => UpdateUserKeeps(s, userID, user, o.at);
      case DeleteUser(userID, cascade) => DeleteUserKeeps(s, userID, cascade, o.at);
      case SignOutUser(userID) => CutUserCovers(s, userID, o.at);
    }
  }

  lemma ClientOpKeeps(cfg: Config, s: Sys, o: TimedOp)
    requires Inv(s, o.at) && Legal(s, o.op) && OfClient(o.op)
    ensures Inv(Perform(cfg, s, o), o.at) && Evolves(s, Perform(cfg, s, o), o.at)
  {
    match o.op {
      case SaveClient(clientID, client) => OtherTables(s, Perform(cfg, s, o), o.at);
      case DeleteClient(clientID, cascade) => DeleteClientKeeps(s, clientID, cascade, o.at);
      case SignOutClient(clientID) => WatermarkStep(s, ByClient, clientID, RevokeClientTokens(s.w.tokens, clientID), o.at);
      case RevokeRow(id) => CutRowKeeps(s, id, o.at);
      case ForgetConsent(_, _) => OtherTables(s, Perform(cfg, s, o), o.at);
    }
  }

  lemma ApplyKeeps(cfg: Config, s: Sys, o: TimedOp, was: int)
    requires Inv(s, was) && was <= o.at && Legal(s, o.op) && cfg.accessTTL <= MAX_ACCESS_TTL
    ensures Inv(Perform(cfg, s, o), o.at) && Evolves(s, Perform(cfg, s, o), o.at)
  {
    var now := o.at;
    InvLater(s, was, now);
    match o.op {
      case AskCode(ask, userID, authTime, via, code) =>
        AskingAdds(cfg, s.w, ask, userID, authTime, via, now, code);
        AskKeeps(s, Perform(cfg, s, o).w, Perform(cfg, s, o).codeFamily, now);
      case DoExchange(req, d) => ExchangeApplied(cfg, s, req, d, now);
      case DoRefresh(req, d) => RefreshApplied(cfg, s, req, d, now);
      case DoRevoke(req) => RevokeKeeps(cfg, s, req, now);
      case DoKeys(step) => KeysKeep(s, step, now);
      case Maintain => MaintainKeeps(s, now);
      case _ =>
        if OfUser(o.op) {
          UserOpKeeps(cfg, s, o);
        } else {
          ClientOpKeeps(cfg, s, o);
        }
    }
  }

  lemma AddUserKeeps(s: Sys, userID: string, user: User, now: int)
    requires Inv(s, now) && userID !in s.userIDs
    ensures var s' := s.(w := s.w.(users := s.w.users[userID := user]), userIDs := s.userIDs + {userID});
            Inv(s', now) && Evolves(s, s', now)
  {
    var s' := s.(w := s.w.(users := s.w.users[userID := user]), userIDs := s.userIDs + {userID});
    forall a | a in s'.w.signed
      ensures GoodClaims(s', a, now) && (!UserActive(s'.w, a.subject) ==> Cut(s'.w, a))
    {
      assert GoodClaims(s, a, now);
      if !UserActive(s'.w, a.subject) {
        CutMonotone(s.w, s'.w, a);
      }
    }
    KeysUnchanged(s, s', now);
  }

  lemma {:induction false} RunKeeps(cfg: Config, s: Sys, ops: seq<TimedOp>, start: int)
    requires Inv(s, start) && LegalFrom(cfg, s, ops, start) && cfg.accessTTL <= MAX_ACCESS_TTL
    ensures Inv(RunFrom(cfg, s, ops), LastTime(ops, start))
    ensures start <= LastTime(ops, start)
  {
    if ops != [] {
      var init, last := ops[..|ops| - 1], ops[|ops| - 1];
      RunKeeps(cfg, s, init, start);
      ApplyKeeps(cfg, RunFrom(cfg, s, init), last, LastTime(init, start));
    }
  }

  lemma StartInv(t: int)
    ensures Inv(START, t)
  {
  }

  // ----- refusal is permanent

  /** Why a token that was issued can be refused for good. */
  ghost predicate Gone(s: Sys, token: Presented, t: int) {
    match token
    case JWT(a) => a.clientID == "" || a.exp <= t || !Accepts(s.w.keys, a.kid, t) || Cut(s.w, a)
    case Opaque(id) => id !in s.w.tokens || !s.w.tokens[id].IsValid(t)
  }

  ghost predicate Issued(s: Sys, token: Presented) {
    match token
    case JWT(a) => a in s.w.signed
    case Opaque(id) => id in s.refreshFamily
  }

  predicate Active(w: World, token: Presented, t: int) {
    match token
    case JWT(a) => AccessActive(w, a, t)
    case Opaque(id) => RefreshActive(w, id, t)
  }

  /** The compact table and the user check together say exactly what the log, the
      keys and the clock say. */
  lemma ActiveUnlessGone(s: Sys, token: Presented, t: int)
    requires Inv(s, t) && Issued(s, token)
    ensures Active(s.w, token, t) <==> !Gone(s, token, t)
  {
    match token {
      case JWT(a) =>
        assert GoodClaims(s, a, t);
        if t < a.exp {
          TableAnswersForLog(s.w.ledger, SubjectOf(a), a.exp, t);
        }
      case Opaque(id) =>
    }
  }

  /** A token that has been issued, of an active user, whose key is still good and
      which has not expired, is refused exactly when a logged revocation covers it. */
  lemma VerdictIsTheLog(cfg: Config, ops: seq<TimedOp>, start: int, a: AccessClaims, t: int)
    requires LegalFrom(cfg, START, ops, start) && cfg.accessTTL <= MAX_ACCESS_TTL
    requires a in RunFrom(cfg, START, ops).w.signed && LastTime(ops, start) <= t
    ensures var w := RunFrom(cfg, START, ops).w;
            && a.jtiTime.Some?
            && (AccessActive(w, a, t) <==>
                  && a.clientID != "" && t < a.exp && Accepts(w.keys, a.kid, t)
                  && !Covered(w.ledger.log, SubjectOf(a)))
  {
    StartInv(start);
    RunKeeps(cfg, START, ops, start);
    var s := RunFrom(cfg, START, ops);
    InvLater(s, LastTime(ops, start), t);
    assert GoodClaims(s, a, t);
    ActiveUnlessGone(s, JWT(a), t);
  }

  lemma GoneLater(s: Sys, token: Presented, t0: int, t1: int)
    requires Inv(s, t0) && Issued(s, token) && Gone(s, token, t0) && t0 <= t1
    ensures Gone(s, token, t1)
  {
  }

  lemma GoneStays(s: Sys, s': Sys, token: Presented, t: int)
    requires Inv(s, t) && Issued(s, token) && Gone(s, token, t) && Evolves(s, s', t)
    ensures Issued(s', token) && Gone(s', token, t)
  {
    match token {
      case JWT(a) =>
        assert GoodClaims(s, a, t);
        if Cut(s.w, a) {
          CutMonotone(s.w, s'.w, a);
        }
      case Opaque(id) =>
    }
  }

  lemma {:induction false} GoneForever(cfg: Config, s: Sys, ops: seq<TimedOp>, start: int, token: Presented)
    requires Inv(s, start) && LegalFrom(cfg, s, ops, start) && cfg.accessTTL <= MAX_ACCESS_TTL
    requires Issued(s, token) && Gone(s, token, start)
    ensures Issued(RunFrom(cfg, s, ops), token) && Gone(RunFrom(cfg, s, ops), token, LastTime(ops, start))
  {
    if ops != [] {
      var init, last := ops[..|ops| - 1], ops[|ops| - 1];
      GoneForever(cfg, s, init, start, token);
      RunKeeps(cfg, s, init, start);
      var mid := RunFrom(cfg, s, init);
      GoneLater(mid, token, LastTime(init, start), last.at);
      ApplyKeeps(cfg, mid, last, LastTime(init, start));
      InvLater(mid, LastTime(init, start), last.at);
      GoneStays(mid, RunFrom(cfg, s, ops), token, last.at);
    }
  }

  /** Refusal is permanent. After any run, if introspection answers inactive for a
      token that was issued, then after any further run - users re-enabled, rows
      purged, keys rotated - it still does, whoever asks. */
  lemma RefusalIsPermanent(cfg: Config, before: seq<TimedOp>, start: int, asked: int, after: seq<TimedOp>, later: int,
                           first: TokenRequest, second: TokenRequest)
    requires cfg.accessTTL <= MAX_ACCESS_TTL && first.token == second.token
    requires LegalFrom(cfg, START, before, start) && LastTime(before, start) <= asked
    requires LegalFrom(cfg, RunFrom(cfg, START, before), after, asked) && LastTime(after, asked) <= later
    requires Issued(RunFrom(cfg, START, before), first.token)
    requires Introspect(cfg, RunFrom(cfg, START, before).w, first, asked) == Inactive
    ensures Introspect(cfg, RunFrom(cfg, RunFrom(cfg, START, before), after).w, second, later) in {Inactive, Denied}
  {
    StartInv(start);
    RunKeeps(cfg, START, before, start);
    var s := RunFrom(cfg, START, before);
    InvLater(s, LastTime(before, start), asked);
    ActiveUnlessGone(s, first.token, asked);
    GoneForever(cfg, s, after, asked, first.token);
    RunKeeps(cfg, s, after, asked);
    var s' := RunFrom(cfg, s, after);
    GoneLater(s', first.token, LastTime(after, asked), later);
    InvLater(s', LastTime(after, asked), later);
    ActiveUnlessGone(s', first.token, later);
  }

  // ----- replay

  /** The refresh token could be exchanged again. */
  predicate Redeemable(w: World, id: string, t: int) {
    id in w.tokens && w.tokens[id].IsValid(t)
  }

  predicate OfPair(t: Token, userID: string, clientID: string) {
    t.userID == userID && t.clientID == clientID
  }

  /** Rows the listing in revokeGrant misses although they are still valid: those
      that expire at this very instant. */
  predicate Missed(w: World, id: string, userID: string, clientID: string, now: int) {
    id in w.tokens && OfPair(w.tokens[id], userID, clientID) && !w.tokens[id].revoked && w.tokens[id].expiresAt == now
  }

  /** After the cut-off, no access token issued so far to the pair is active. */
  lemma CutOffAccess(s: Sys, userID: string, clientID: string, now: int, a: AccessClaims, t: int)
    requires Inv(s, now) && now <= t
    requires a in s.w.signed && a.subject == userID && a.clientID == clientID
    ensures !AccessActive(RevokeGrant(s.w, userID, clientID, now), a, t)
  {
    var w' := RevokeGrant(s.w, userID, clientID, now);
    var s' := s.(w := w');
    RevokeGrantKeeps(s, userID, clientID, now);
    InvLater(s', now, t);
    assert GoodClaims(s, a, now);
    var e := GrantCut(ByUserClient, UserClientKey(userID, clientID), now);
    assert e in w'.ledger.log && Covers(e, SubjectOf(a));
    ActiveUnlessGone(s', JWT(a), t);
  }

  /** After the cut-off no refresh token of the pair is redeemable at a later instant,
      and none is at this instant exactly when none expires right now unrevoked. */
  lemma CutOffRefresh(w: World, userID: string, clientID: string, now: int)
    ensures var w' := RevokeGrant(w, userID, clientID, now);
            && (forall id, t :: id in w'.tokens && OfPair(w'.tokens[id], userID, clientID) && now < t ==> !Redeemable(w', id, t))
            && (forall id :: id in w'.tokens && OfPair(w'.tokens[id], userID, clientID) ==>
                  (Redeemable(w', id, now) <==> Missed(w, id, userID, clientID, now)))
  {
  }

  /** Nothing changes for any other pair. */
  lemma CutOffOthers(s: Sys, userID: string, clientID: string, now: int, token: Presented, t: int)
    requires Inv(s, now) && NulFree(userID)
    requires match token
             case JWT(a) => NulFree(a.subject) && !(a.subject == userID && a.clientID == clientID)
             case Opaque(id) => id in s.w.tokens ==> !OfPair(s.w.tokens[id], userID, clientID)
    ensures Active(RevokeGrant(s.w, userID, clientID, now), token, t) <==> Active(s.w, token, t)
  {
    match token {
      case JWT(a) =>
        UserClientKeyInjective(userID, clientID, a.subject, a.clientID);
      case Opaque(id) =>
    }
  }

  /** The effect of a replay, in one predicate: w' is w with the pair cut off. */
  ghost predicate PairCutOff(s: Sys, w': World, userID: string, clientID: string, now: int) {
    && (forall a, t :: a in s.w.signed && a.subject == userID && a.clientID == clientID && now <= t ==> !AccessActive(w', a, t))
    && (forall id, t :: id in s.w.tokens && OfPair(s.w.tokens[id], userID, clientID) && now < t ==> !Redeemable(w', id, t))
    && ((forall id :: id in s.w.tokens && OfPair(s.w.tokens[id], userID, clientID) ==> !Redeemable(w', id, now)) <==>
        (forall id :: !Missed(s.w, id, userID, clientID, now)))
    && (forall a: AccessClaims, t :: NulFree(a.subject) && !(a.subject == userID && a.clientID == clientID) ==>
          (AccessActive(w', a, t) <==> AccessActive(s.w, a, t)))
    && (forall id, t :: id in s.w.tokens && !OfPair(s.w.tokens[id], userID, clientID) ==>
          (RefreshActive(w', id, t) <==> RefreshActive(s.w, id, t)))
  }

  lemma RevokeGrantCutsOff(s: Sys, userID: string, clientID: string, now: int)
    requires Inv(s, now) && NulFree(userID)
    ensures PairCutOff(s, RevokeGrant(s.w, userID, clientID, now), userID, clientID, now)
  {
    var w' := RevokeGrant(s.w, userID, clientID, now);
    forall a, t | a in s.w.signed && a.subject == userID && a.clientID == clientID && now <= t
      ensures !AccessActive(w', a, t)
    {
      CutOffAccess(s, userID, clientID, now, a, t);
    }
    CutOffRefresh(s.w, userID, clientID, now);
    if id :| Missed(s.w, id, userID, clientID, now) {
      assert id in w'.tokens && Redeemable(w', id, now);
    }
    forall a: AccessClaims, t | NulFree(a.subject) && !(a.subject == userID && a.clientID == clientID)
      ensures AccessActive(w', a, t) <==> AccessActive(s.w, a, t)
    {
      CutOffOthers(s, userID, clientID, now, JWT(a), t);
    }
    forall id, t | id in s.w.tokens && !OfPair(s.w.tokens[id], userID, clientID)
      ensures RefreshActive(w', id, t) <==> RefreshActive(s.w, id, t)
    {
      CutOffOthers(s, userID, clientID, now, Opaque(id), t);
    }
  }

  /** A used code presented by its own client cuts off the grant it belongs to. */
  lemma CodeReplayCutsOff(cfg: Config, ops: seq<TimedOp>, start: int, req: CodeRequest, now: int, d: Draw)
    requires LegalFrom(cfg, START, ops, start) && cfg.accessTTL <= MAX_ACCESS_TTL && LastTime(ops, start) <= now
    requires var w := RunFrom(cfg, START, ops).w;
             && ReusesCode(cfg, w, req)
             && NulFree(w.codes[req.code].userID)
    ensures var s := RunFrom(cfg, START, ops);
            var (w', outcome) := Exchange(cfg, s.w, req, now, d);
            outcome == Failed(InvalidGrant(Replayed)) && PairCutOff(s, w', s.w.codes[req.code].userID, req.clientID, now)
  {
    StartInv(start);
    RunKeeps(cfg, START, ops, start);
    var s := RunFrom(cfg, START, ops);
    InvLater(s, LastTime(ops, start), now);
    ClientForMeaning(cfg, s.w, req.clientID, req.clientSecret, "authorization_code");
    RevokeGrantCutsOff(s, s.w.codes[req.code].userID, req.clientID, now);
  }

  /** So does a retired refresh token that has not expired. */
  lemma RefreshReplayCutsOff(cfg: Config, ops: seq<TimedOp>, start: int, req: RefreshRequest, now: int, d: Draw)
    requires LegalFrom(cfg, START, ops, start) && cfg.accessTTL <= MAX_ACCESS_TTL && LastTime(ops, start) <= now
    requires var w := RunFrom(cfg, START, ops).w;
             && req.refreshToken != ""
             && Identified(cfg, w, req.clientID, req.clientSecret) && MayUse(w.clients[req.clientID], "refresh_token")
             && req.refreshToken in w.tokens
             && w.tokens[req.refreshToken].revoked && !w.tokens[req.refreshToken].IsExpired(now)
             && w.tokens[req.refreshToken].clientID == req.clientID
             && NulFree(w.tokens[req.refreshToken].userID)
    ensures var s := RunFrom(cfg, START, ops);
            var (w', outcome) := Refresh(cfg, s.w, req, now, d);
            outcome == Failed(InvalidGrant(Replayed)) && PairCutOff(s, w', s.w.tokens[req.refreshToken].userID, req.clientID, now)
  {
    StartInv(start);
    RunKeeps(cfg, START, ops, start);
    var s := RunFrom(cfg, START, ops);
    InvLater(s, LastTime(ops, start), now);
    ClientForMeaning(cfg, s.w, req.clientID, req.clientSecret, "refresh_token");
    RevokeGrantCutsOff(s, s.w.tokens[req.refreshToken].userID, req.clientID, now);
  }
}
