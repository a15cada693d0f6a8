/** Whole runs of the server: every handler that touches users, clients, grants,
    tokens or keys, one completed handler at a time, with a clock that never goes
    back. This module has the runs and the invariant they keep. */
module GrantLife {
  import opened Clock
  import opened RevocationTable
  import opened GrantStore
  import opened KeyStore
  import opened TokenEndpoint
  import opened AuthorizeRequests
  import opened Authorize

  /** A code and what it was issued for: the family all its tokens belong to. */
  datatype Family = Family(code: string, userID: string, clientID: string, scope: string, allowed: set<string>, asked: bool, consented: set<string>)

  /** The store, and the history it does not keep: every user ID and kid there ever
      was, and the family of every code, refresh token and jti ever issued. */
  datatype Sys = Sys(
    w: World,
    userIDs: set<string>,
    kids: set<string>,
    codeFamily: map<string, Family>,
    refreshFamily: map<string, Family>,
    accessFamily: map<string, Family>
  )

  const START := Sys(World(map[], map[], map[], map[], EMPTY, NO_KEYS, map[], {}), {}, {}, map[], map[], map[])

  datatype Op =
    | AddUser(userID: string, user: User)
    | UpdateUser(userID: string, user: User)
    | DeleteUser(userID: string, cascade: bool)   // cascade: the SQLite backend
    | SignOutUser(userID: string)                 // password change, "sign out everywhere"
    | SaveClient(clientID: string, client: Client)
    | DeleteClient(clientID: string, cascade: bool)
    | SignOutClient(clientID: string)
    | RevokeRow(id: string)                       // the account page
    | ForgetConsent(userID: string, clientID: string)
    | AskCode(ask: AuthorizeRequest, userID: string, authTime: int, via: Via, code: string)
    | DoExchange(exchange: CodeRequest, draw: Draw)
    | DoRefresh(refresh: RefreshRequest, draw: Draw)
    | DoRevoke(revoke: TokenRequest)
    | DoKeys(step: KeyStep)
    | Maintain

  datatype TimedOp = TimedOp(op: Op, at: int)

  // ----- the administrative steps

  function CutUser(w: World, userID: string, now: int): World {
    w.(tokens := RevokeUserTokens(w.tokens, userID), ledger := CutBefore(w.ledger, ByUser, userID, now))
  }

  function CutClient(w: World, clientID: string, now: int): World {
    w.(tokens := RevokeClientTokens(w.tokens, clientID), ledger := CutBefore(w.ledger, ByClient, clientID, now))
  }

  function CutRow(w: World, id: string, now: int): World {
    if id !in w.tokens then w
    else
      var t := w.tokens[id];
      w.(tokens := RevokeOne(w.tokens, id),
         ledger := CutBefore(w.ledger, ByUserClient, UserClientKey(t.userID, t.clientID), now))
  }

  function UpdateUserStep(w: World, userID: string, user: User, now: int): World {
    if userID !in w.users then w
    else
      var updated := w.(users := w.users[userID := user]);
      if w.users[userID].active && !user.active then CutUser(updated, userID, now) else updated
  }

  function DeleteUserStep(w: World, userID: string, cascade: bool, now: int): World {
    if userID !in w.users then w
    else
      var cut := CutUser(w, userID, now);
      cut.(users := w.users - {userID},
           consents := map k | k in w.consents && k.0 != userID :: w.consents[k],
           tokens := if cascade then map id | id in cut.tokens && cut.tokens[id].userID != userID :: cut.tokens[id] else cut.tokens,
           codes := if cascade then map c | c in w.codes && w.codes[c].userID != userID :: w.codes[c] else w.codes)
  }

  function DeleteClientStep(w: World, clientID: string, cascade: bool, now: int): World {
    if clientID !in w.clients then w
    else
      var cut := CutClient(w, clientID, now);
      cut.(clients := w.clients - {clientID},
           tokens := if cascade then map id | id in cut.tokens && cut.tokens[id].clientID != clientID :: cut.tokens[id] else cut.tokens,
           consents := if cascade then map k | k in w.consents && k.1 != clientID :: w.consents[k] else w.consents,
           codes := if cascade then map c | c in w.codes && w.codes[c].clientID != clientID :: w.codes[c] else w.codes)
  }

  function MaintainStep(w: World, now: int): World {
    w.(codes := PurgeCodes(w.codes, now), tokens := PurgeTokens(w.tokens, now), ledger := PurgeLedger(w.ledger, now))
  }

  function FamilyOf(cfg: Config, w: World, ask: AuthorizeRequest, userID: string, code: string): Family
    requires ask.clientID in w.clients
  {
    var pair := (userID, ask.clientID);
    Family(code, userID, ask.clientID, ask.scope,
           (set s | s in w.clients[ask.clientID].scopes),
           cfg.askConsent && !w.clients[ask.clientID].skipConsent,
           if pair in w.consents then (set s | s in w.consents[pair]) else {})
  }

  /** Records the family of whatever a token response carries. */
  function Remember(s: Sys, w: World, outcome: Outcome, family: Family): Sys {
    match outcome
    case Failed(_) => s.(w := w)
    case Granted(r) =>
      s.(w := w,
         accessFamily := s.accessFamily[r.accessToken.jti := family],
         refreshFamily := if r.refreshToken.Some? then s.refreshFamily[r.refreshToken.value := family] else s.refreshFamily)
  }

  const NO_FAMILY := Family("", "", "", "", {}, false, {})

  function Lookup(families: map<string, Family>, id: string): Family {
    if id in families then families[id] else NO_FAMILY
  }

  function Perform(cfg: Config, s: Sys, o: TimedOp): Sys {
    var w, now := s.w, o.at;
    match o.op
    case AddUser(userID, user) =>
      s.(w := w.(users := w.users[userID := user]), userIDs := s.userIDs + {userID})
    case UpdateUser(userID, user) => s.(w := UpdateUserStep(w, userID, user, now))
    case DeleteUser(userID, cascade) => s.(w := DeleteUserStep(w, userID, cascade, now))
    case SignOutUser(userID) => s.(w := CutUser(w, userID, now))
    case SaveClient(clientID, client) => s.(w := w.(clients := w.clients[clientID := client]))
    case DeleteClient(clientID, cascade) => s.(w := DeleteClientStep(w, clientID, cascade, now))
    case SignOutClient(clientID) => s.(w := CutClient(w, clientID, now))
    case RevokeRow(id) => s.(w := CutRow(w, id, now))
    case ForgetConsent(userID, clientID) => s.(w := w.(consents := w.consents - {(userID, clientID)}))
    case AskCode(ask, userID, authTime, via, code) =>
      var (w', issued) := Request(cfg, w, ask, userID, authTime, via, now, code);
      if issued then s.(w := w', codeFamily := s.codeFamily[code := FamilyOf(cfg, w', ask, userID, code)]) else s
    case DoExchange(req, d) =>
      var (w', outcome) := Exchange(cfg, w, req, now, d);
      Remember(s, w', outcome, Lookup(s.codeFamily, req.code))
    case DoRefresh(req, d) =>
      var (w', outcome) := Refresh(cfg, w, req, now, d);
      Remember(s, w', outcome, Lookup(s.refreshFamily, req.refreshToken))
    case DoRevoke(req) => s.(w := Revoke(cfg, w, req, now).0)
    case DoKeys(step) =>
      s.(w := w.(keys := ApplyKeyStep(w.keys, TimedStep(step, now))),
         kids := if step.DoCleanup? then s.kids else s.kids + {step.newKid})
    case Maintain => s.(w := MaintainStep(w, now))
  }

  /** What the environment guarantees: IDs, kids and jtis are fresh, a token is signed
      with some key there has been, and lifetimes keep to the enforced cap. */
  ghost predicate Legal(s: Sys, op: Op) {
    match op
    case AddUser(userID, _) => userID !in s.userIDs
    case SaveClient(_, client) => client.accessTTL <= MAX_ACCESS_TTL
    case AskCode(_, _, _, _, code) => code !in s.codeFamily
    case DoExchange(_, d) => FreshDraw(s, d)
    case DoRefresh(_, d) => FreshDraw(s, d)
    case DoKeys(step) => step.DoCleanup? || (step.newKid != "" && step.newKid !in s.kids)
    case _ => true
  }

  ghost predicate FreshDraw(s: Sys, d: Draw) {
    d.jti !in s.accessFamily && d.refreshID !in s.refreshFamily && d.kid in s.kids
  }

  function RunFrom(cfg: Config, s: Sys, ops: seq<TimedOp>): Sys {
    if ops == [] then s else Perform(cfg, RunFrom(cfg, s, ops[..|ops| - 1]), ops[|ops| - 1])
  }

  function LastTime(ops: seq<TimedOp>, start: int): int {
    if ops == [] then start else ops[|ops| - 1].at
  }

  ghost predicate LegalFrom(cfg: Config, s: Sys, ops: seq<TimedOp>, start: int) {
    ops == [] ||
    (var init, last := ops[..|ops| - 1], ops[|ops| - 1];
     && LegalFrom(cfg, s, init, start)
     && Legal(RunFrom(cfg, s, init), last.op)
     && LastTime(init, start) <= last.at)
  }

  // ----- the invariant

  ghost predicate KeysInv(s: Sys) {
    (OneActive(s.w.keys) || s.w.keys == NO_KEYS) && s.w.keys.rows.Keys <= s.kids
  }

  ghost predicate GoodClaims(s: Sys, a: AccessClaims, now: int) {
    && a.jtiTime.Some?
    && a.jtiTime.value <= now
    && a.exp <= a.jtiTime.value + MILLISECOND + MAX_ACCESS_TTL
    && a.jti in s.accessFamily
    && a.kid in s.kids
    && a.subject in s.userIDs
  }

  ghost predicate SignedInv(s: Sys, now: int) {
    && (forall a :: a in s.w.signed ==> GoodClaims(s, a, now))
    && (forall a, b :: a in s.w.signed && b in s.w.signed && a.jti == b.jti ==> a == b)
  }

  ghost predicate LedgerInv(s: Sys, now: int) {
    && Stands(s.w.ledger, now)
    && (forall e :: e in s.w.ledger.log && e.TokenCut? ==> e.jti in s.accessFamily)
    && (forall e, a :: e in s.w.ledger.log && e.TokenCut? && a in s.w.signed && e.jti == a.jti ==> e.exp == a.exp)
  }

  /** Some logged event refuses a. */
  ghost predicate Cut(w: World, a: AccessClaims) {
    IssuedAtOf(a).Some? && Covered(w.ledger.log, SubjectOf(a))
  }

  /** A disabled or deleted user holds nothing: that is what makes re-enabling safe. */
  ghost predicate UsersInv(s: Sys) {
    && s.w.users.Keys <= s.userIDs
    && (forall a :: a in s.w.signed && !UserActive(s.w, a.subject) ==> Cut(s.w, a))
    && (forall id :: id in s.w.tokens && !UserActive(s.w, s.w.tokens[id].userID) ==> s.w.tokens[id].revoked)
  }

  ghost predicate RowsInv(s: Sys) {
    && s.w.tokens.Keys <= s.refreshFamily.Keys
    && (forall id :: id in s.w.tokens ==> s.w.tokens[id].userID in s.userIDs)
    && (forall c :: c in s.w.clients ==> s.w.clients[c].accessTTL <= MAX_ACCESS_TTL)
  }

  ghost predicate Inv(s: Sys, now: int) {
    KeysInv(s) && SignedInv(s, now) && LedgerInv(s, now) && UsersInv(s) && RowsInv(s)
  }

  /** s' is a later state of s: nothing that refuses a token is ever undone. */
  ghost predicate Evolves(s: Sys, s': Sys, now: int) {
    && s.w.ledger.log <= s'.w.ledger.log
    && s.w.signed <= s'.w.signed
    && s.kids <= s'.kids
    && s.refreshFamily.Keys <= s'.refreshFamily.Keys
    && TokensAge(s.w.tokens, s'.w.tokens, s.refreshFamily.Keys)
    && (forall kid, t :: kid in s.kids && now <= t && !Accepts(s.w.keys, kid, now) ==> !Accepts(s'.w.keys, kid, t))
  }

  lemma InvLater(s: Sys, t0: int, t1: int)
    requires Inv(s, t0) && t0 <= t1
    ensures Inv(s, t1)
  {
    StandsLater(s.w.ledger, t0, t1);
  }

  // ----- primitive changes

  /** tokens' is tokens with rows revoked or removed. */
  ghost predicate Shrunk(tokens: Tokens, tokens': Tokens) {
    forall id :: id in tokens' ==> id in tokens && (tokens'[id] == tokens[id] || tokens'[id] == tokens[id].(revoked := true))
  }

  lemma CutMonotone(w: World, w': World, a: AccessClaims)
    requires Cut(w, a) && w.ledger.log <= w'.ledger.log
    ensures Cut(w', a)
  {
    var e :| e in w.ledger.log && Covers(e, SubjectOf(a));
    assert e in w'.ledger.log;
  }

  /** A watermark together with rows revoked or removed. */
  lemma WatermarkStep(s: Sys, kind: Kind, key: string, tokens': Tokens, now: int)
    requires Inv(s, now) && kind != JTI && Shrunk(s.w.tokens, tokens')
    ensures var s' := s.(w := s.w.(tokens := tokens', ledger := CutBefore(s.w.ledger, kind, key, now)));
            Inv(s', now) && Evolves(s, s', now)
  {
    var s' := s.(w := s.w.(tokens := tokens', ledger := CutBefore(s.w.ledger, kind, key, now)));
    CutBeforeStands(s.w.ledger, kind, key, now, now);
    forall a | a in s'.w.signed && !UserActive(s'.w, a.subject)
      ensures Cut(s'.w, a)
    {
      CutMonotone(s.w, s'.w, a);
    }
    KeysUnchanged(s, s', now);
  }

  lemma KeysUnchanged(s: Sys, s': Sys, now: int)
    requires KeysInv(s) && s'.w.keys == s.w.keys
    ensures forall kid, t :: kid in s.kids && now <= t && !Accepts(s.w.keys, kid, now) ==> !Accepts(s'.w.keys, kid, t)
  {
  }

  /** After a user watermark the user may be disabled or removed. */
  lemma CutUserCovers(s: Sys, userID: string, now: int)
    requires Inv(s, now)
    ensures var w' := CutUser(s.w, userID, now);
            && Inv(s.(w := w'), now) && Evolves(s, s.(w := w'), now)
            && (forall a :: a in w'.signed && a.subject == userID ==> Cut(w', a))
            && (forall id :: id in w'.tokens && w'.tokens[id].userID == userID ==> w'.tokens[id].revoked)
  {
    var w' := CutUser(s.w, userID, now);
    WatermarkStep(s, ByUser, userID, w'.tokens, now);
    var e := GrantCut(ByUser, userID, now);
    assert e in w'.ledger.log;
    forall a | a in w'.signed && a.subject == userID
      ensures Cut(w', a)
    {
      assert GoodClaims(s, a, now);
      assert Covers(e, SubjectOf(a));
    }
  }

  lemma SetUserStep(s: Sys, users': map<string, User>, userID: string, now: int)
    requires Inv(s, now)
    requires users'.Keys <= s.userIDs
    requires forall u :: u != userID ==> (u in users' <==> u in s.w.users) && (u in users' ==> users'[u] == s.w.users[u])
    requires (userID in users' && users'[userID].active) ||
             ((forall a :: a in s.w.signed && a.subject == userID ==> Cut(s.w, a)) &&
              (forall id :: id in s.w.tokens && s.w.tokens[id].userID == userID ==> s.w.tokens[id].revoked))
    ensures var s' := s.(w := s.w.(users := users'));
            Inv(s', now) && Evolves(s, s', now)
  {
    var s' := s.(w := s.w.(users := users'));
    forall a | a in s'.w.signed && !UserActive(s'.w, a.subject)
      ensures Cut(s'.w, a)
    {
      assert Cut(s.w, a);
      CutMonotone(s.w, s'.w, a);
    }
    KeysUnchanged(s, s', now);
  }

  lemma EvolvesTwice(s: Sys, s1: Sys, s2: Sys, now: int)
    requires Evolves(s, s1, now) && Evolves(s1, s2, now)
    ensures Evolves(s, s2, now)
  {
    forall kid, t | kid in s.kids && now <= t && !Accepts(s.w.keys, kid, now)
      ensures !Accepts(s2.w.keys, kid, t)
    {
      assert !Accepts(s1.w.keys, kid, now);
    }
  }

  lemma EvolvesSelf(s: Sys, s': Sys, now: int)
    requires KeysInv(s) && s'.w.keys == s.w.keys && s'.kids == s.kids
    requires s'.w.ledger == s.w.ledger && s'.w.signed == s.w.signed && s'.w.tokens == s.w.tokens
    requires s'.refreshFamily == s.refreshFamily
    ensures Evolves(s, s', now)
  {
    KeysUnchanged(s, s', now);
  }

  lemma UpdateUserKeeps(s: Sys, userID: string, user: User, now: int)
    requires Inv(s, now)
    ensures var s' := s.(w := UpdateUserStep(s.w, userID, user, now));
            Inv(s', now) && Evolves(s, s', now)
  {
    if userID !in s.w.users {
      EvolvesSelf(s, s, now);
    } else {
      var users' := s.w.users[userID := user];
      var wasActive := s.w.users[userID].active;
      if wasActive && !user.active {
        CutUserCovers(s, userID, now);
        var s1 := s.(w := CutUser(s.w, userID, now));
        SetUserStep(s1, users', userID, now);
        EvolvesTwice(s, s1, s1.(w := s1.w.(users := users')), now);
        assert s1.(w := s1.w.(users := users')) == s.(w := UpdateUserStep(s.w, userID, user, now));
      } else {
        SetUserStep(s, users', userID, now);
      }
    }
  }

  lemma DeleteUserKeeps(s: Sys, userID: string, cascade: bool, now: int)
    requires Inv(s, now)
    ensures var s' := s.(w := DeleteUserStep(s.w, userID, cascade, now));
            Inv(s', now) && Evolves(s, s', now)
  {
    if userID !in s.w.users {
      EvolvesSelf(s, s, now);
    } else {
      CutUserCovers(s, userID, now);
      var s1 := s.(w := CutUser(s.w, userID, now));
      var users' := s.w.users - {userID};
      SetUserStep(s1, users', userID, now);
      var s2 := s1.(w := s1.w.(users := users'));
      EvolvesTwice(s, s1, s2, now);
      var s3 := s.(w := DeleteUserStep(s.w, userID, cascade, now));
      OtherTables(s2, s3, now);
      EvolvesTwice(s, s2, s3, now);
    }
  }

  /** Changes to codes, clients and consents, and rows removed, matter to nothing here. */
  lemma OtherTables(s: Sys, s': Sys, now: int)
    requires Inv(s, now)
    requires s' == s.(w := s.w.(codes := s'.w.codes, clients := s'.w.clients, consents := s'.w.consents, tokens := s'.w.tokens))
    requires forall id :: id in s'.w.tokens ==> id in s.w.tokens && s'.w.tokens[id] == s.w.tokens[id]
    requires forall c :: c in s'.w.clients ==> s'.w.clients[c].accessTTL <= MAX_ACCESS_TTL
    ensures Inv(s', now) && Evolves(s, s', now)
  {
    forall a | a in s'.w.signed && !UserActive(s'.w, a.subject)
      ensures Cut(s'.w, a)
    {
      CutMonotone(s.w, s'.w, a);
    }
    KeysUnchanged(s, s', now);
  }

  lemma DeleteClientKeeps(s: Sys, clientID: string, cascade: bool, now: int)
    requires Inv(s, now)
    ensures var s' := s.(w := DeleteClientStep(s.w, clientID, cascade, now));
            Inv(s', now) && Evolves(s, s', now)
  {
    if clientID !in s.w.clients {
      EvolvesSelf(s, s, now);
    } else {
      var s1 := s.(w := CutClient(s.w, clientID, now));
      WatermarkStep(s, ByClient, clientID, s1.w.tokens, now);
      var s2 := s.(w := DeleteClientStep(s.w, clientID, cascade, now));
      OtherTables(s1, s2, now);
      EvolvesTwice(s, s1, s2, now);
    }
  }

  lemma RevokeGrantKeeps(s: Sys, userID: string, clientID: string, now: int)
    requires Inv(s, now)
    ensures var s' := s.(w := RevokeGrant(s.w, userID, clientID, now));
            Inv(s', now) && Evolves(s, s', now)
  {
    WatermarkStep(s, ByUserClient, UserClientKey(userID, clientID), RevokeGrantTokens(s.w.tokens, userID, clientID, now), now);
  }

  lemma CutRowKeeps(s: Sys, id: string, now: int)
    requires Inv(s, now)
    ensures var s' := s.(w := CutRow(s.w, id, now));
            Inv(s', now) && Evolves(s, s', now)
  {
    if id in s.w.tokens {
      var t := s.w.tokens[id];
      WatermarkStep(s, ByUserClient, UserClientKey(t.userID, t.clientID), RevokeOne(s.w.tokens, id), now);
    } else {
      EvolvesSelf(s, s, now);
    }
  }

  lemma CutTokenKeeps(s: Sys, a: AccessClaims, now: int)
    requires Inv(s, now) && a in s.w.signed
    ensures var s' := s.(w := s.w.(ledger := CutToken(s.w.ledger, a.jti, a.exp, now)));
            Inv(s', now) && Evolves(s, s', now)
  {
    var s' := s.(w := s.w.(ledger := CutToken(s.w.ledger, a.jti, a.exp, now)));
    assert GoodClaims(s, a, now);
    CutTokenStands(s.w.ledger, a.jti, a.exp, now, now);
    forall b | b in s'.w.signed && !UserActive(s'.w, b.subject)
      ensures Cut(s'.w, b)
    {
      CutMonotone(s.w, s'.w, b);
    }
    KeysUnchanged(s, s', now);
  }

  lemma MaintainKeeps(s: Sys, now: int)
    requires Inv(s, now)
    ensures var s' := s.(w := MaintainStep(s.w, now));
            Inv(s', now) && Evolves(s, s', now)
  {
    var s' := s.(w := MaintainStep(s.w, now));
    PurgeStands(s.w.ledger, now, now);
    forall a | a in s'.w.signed && !UserActive(s'.w, a.subject)
      ensures Cut(s'.w, a)
    {
      CutMonotone(s.w, s'.w, a);
    }
    KeysUnchanged(s, s', now);
  }

  lemma KeysKeep(s: Sys, step: KeyStep, now: int)
    requires Inv(s, now) && Legal(s, DoKeys(step))
    ensures var s' := s.(w := s.w.(keys := ApplyKeyStep(s.w.keys, TimedStep(step, now))),
                         kids := if step.DoCleanup? then s.kids else s.kids + {step.newKid});
            Inv(s', now) && Evolves(s, s', now)
  {
    var k, t := s.w.keys, TimedStep(step, now);
    var k' := ApplyKeyStep(k, t);
    match step {
      case DoEnsure(newKid) => EnsureKeepsOneActive(k, newKid);
      case DoRotate(newKid, grace) => RotateKeepsOneActive(k, newKid, now, grace);
      case DoCleanup =>
        if OneActive(k) {
          CleanupKeepsOneActive(k, now);
        } else {
          assert CleanupExpiredKeys(NO_KEYS, now) == NO_KEYS;
        }
    }
    forall kid, t' | kid in s.kids && now <= t' && !Accepts(k, kid, now)
      ensures !Accepts(k', kid, t')
    {
      DeadKidStaysDead(k, t, kid, now);
    }
    var s' := s.(w := s.w.(keys := k'), kids := if step.DoCleanup? then s.kids else s.kids + {step.newKid});
    forall a | a in s'.w.signed && !UserActive(s'.w, a.subject)
      ensures Cut(s'.w, a)
    {
      CutMonotone(s.w, s'.w, a);
    }
  }

  /** Signing for an active user. */
  lemma SigningKeeps(s: Sys, a: AccessClaims, now: int, family: Family)
    requires Inv(s, now) && a.jti !in s.accessFamily && UserActive(s.w, a.subject)
    requires a.kid in s.kids && a.jtiTime.Some? && a.jtiTime.value <= now
    requires a.exp <= a.jtiTime.value + MILLISECOND + MAX_ACCESS_TTL
    ensures var s' := s.(w := s.w.(signed := s.w.signed + {a}), accessFamily := s.accessFamily[a.jti := family]);
            Inv(s', now) && Evolves(s, s', now)
  {
    var s' := s.(w := s.w.(signed := s.w.signed + {a}), accessFamily := s.accessFamily[a.jti := family]);
    forall b | b in s'.w.signed
      ensures GoodClaims(s', b, now) && (b != a ==> b.jti != a.jti)
    {
      if b != a {
        assert GoodClaims(s, b, now);
      }
    }
    forall b | b in s'.w.signed && !UserActive(s'.w, b.subject)
      ensures Cut(s'.w, b)
    {
      CutMonotone(s.w, s'.w, b);
    }
    KeysUnchanged(s, s', now);
  }

  /** Storing a refresh row for an active user under a fresh ID. */
  lemma StoringKeeps(s: Sys, id: string, row: Token, now: int, family: Family)
    requires Inv(s, now) && id !in s.refreshFamily && UserActive(s.w, row.userID)
    ensures var s' := s.(w := s.w.(tokens := s.w.tokens[id := row]), refreshFamily := s.refreshFamily[id := family]);
            Inv(s', now) && Evolves(s, s', now)
  {
    var s' := s.(w := s.w.(tokens := s.w.tokens[id := row]), refreshFamily := s.refreshFamily[id := family]);
    forall b | b in s'.w.signed
      ensures GoodClaims(s', b, now) && (!UserActive(s'.w, b.subject) ==> Cut(s'.w, b))
    {
      assert GoodClaims(s, b, now);
      if !UserActive(s'.w, b.subject) {
        CutMonotone(s.w, s'.w, b);
      }
    }
    KeysUnchanged(s, s', now);
  }

  lemma GenerateKeeps(cfg: Config, s: Sys, userID: string, clientID: string, c: Client, scope: string, now: int, d: Draw, family: Family)
    requires Inv(s, now) && FreshDraw(s, d)
    requires UserActive(s.w, userID)
    requires cfg.accessTTL <= MAX_ACCESS_TTL && c.accessTTL <= MAX_ACCESS_TTL
    ensures var (w', outcome) := Generate(cfg, s.w, userID, clientID, c, scope, now, d);
            Inv(Remember(s, w', outcome, family), now) && Evolves(s, Remember(s, w', outcome, family), now)
  {
    var (w', outcome) := Generate(cfg, s.w, userID, clientID, c, scope, now, d);
    var a := Claims(userID, clientID, scope, AccessTTL(cfg, c), now, d);
    SigningKeeps(s, a, now, family);
    var signed := s.(w := s.w.(signed := s.w.signed + {a}), accessFamily := s.accessFamily[a.jti := family]);
    if outcome.response.refreshToken.Some? {
      var row := Token(userID, clientID, scope, now + RefreshTTL(cfg, c), false);
      StoringKeeps(signed, d.refreshID, row, now, family);
      var stored := signed.(w := signed.w.(tokens := s.w.tokens[d.refreshID := row]),
                            refreshFamily := s.refreshFamily[d.refreshID := family]);
      EvolvesTwice(s, signed, stored, now);
      assert Remember(s, w', outcome, family) == stored;
    } else {
      assert Remember(s, w', outcome, family) == signed;
    }
  }

  /** The history of codes matters to nothing here. */
  lemma CodeHistoryIrrelevant(s: Sys, families: map<string, Family>, now: int)
    requires Inv(s, now)
    ensures Inv(s.(codeFamily := families), now) && Evolves(s, s.(codeFamily := families), now)
  {
    var s' := s.(codeFamily := families);
    forall b | b in s'.w.signed
      ensures GoodClaims(s', b, now)
    {
      assert GoodClaims(s, b, now);
    }
    KeysUnchanged(s, s', now);
  }
}
