/** A run that ends in the one instant a replay's cut-off misses. */
module CutOffGap {
  import opened Scopes
  import opened GrantStore
  import opened KeyStore
  import opened TokenEndpoint
  import opened EndpointRules
  import opened AuthorizeRequests
  import opened Authorize
  import opened GrantLife
  import GrantTheorems
  import opened GrantScopes

  const SCOPES := ["openid", "offline_access"]
  const CLIENT := Client("hash", ["uri"], [], SCOPES, false, true, 0, 0)

  function Ask(): AuthorizeRequest {
    AuthorizeRequest("client", "uri", "code", Join(SCOPES), "", "", [], -1, "", false, false, false)
  }

  const EXCHANGE := CodeRequest("code", "uri", "client", "secret", "")
  const REFRESH := RefreshRequest("refresh", "client", "secret", "")

  /** A key, a user and a client; an authorization with offline access; its exchange. */
  function Granting(): seq<TimedOp> {
    [TimedOp(DoKeys(DoEnsure("kid")), 0),
     TimedOp(AddUser("user", User("email", true)), 0),
     TimedOp(SaveClient("client", CLIENT), 0),
     TimedOp(AskCode(Ask(), "user", 0, Direct, "code"), 0),
     TimedOp(DoExchange(EXCHANGE, Draw("jti", "refresh", "kid")), 0)]
  }

  lemma RunOneMore(cfg: Config, ops: seq<TimedOp>, o: TimedOp)
    requires LegalFrom(cfg, START, ops, 0) && Legal(RunFrom(cfg, START, ops), o.op) && LastTime(ops, 0) <= o.at
    ensures LegalFrom(cfg, START, ops + [o], 0)
    ensures RunFrom(cfg, START, ops + [o]) == Perform(cfg, RunFrom(cfg, START, ops), o)
  {
    assert (ops + [o])[..|ops|] == ops;
  }

  lemma Asked()
    ensures Fields(Join(SCOPES)) == SCOPES
    ensures HasScope(Join(SCOPES), "offline_access")
  {
    assert forall w :: w in SCOPES ==> IsWord(w);
    FieldsOfJoin(SCOPES);
    assert SCOPES[1] == "offline_access";
  }

  /** After setting up: a key, an active user, and the client. */
  ghost predicate Ready(s: Sys) {
    && UserActive(s.w, "user")
    && "client" in s.w.clients && s.w.clients["client"] == CLIENT
    && s.w.codes == map[] && s.w.tokens == map[] && s.kids == {"kid"}
    && s.codeFamily == map[] && s.accessFamily == map[] && s.refreshFamily == map[]
  }

  lemma SetUp(cfg: Config)
    ensures var ops := Granting()[..3];
            LegalFrom(cfg, START, ops, 0) && LastTime(ops, 0) == 0 && Ready(RunFrom(cfg, START, ops))
  {
    var ops := Granting();
    assert ops[..0] == [];
    assert RunFrom(cfg, START, []) == START;
    RunOneMore(cfg, ops[..0], ops[0]);
    assert ops[..0] + [ops[0]] == ops[..1];
    var s1 := RunFrom(cfg, START, ops[..1]);
    assert s1.kids == {"kid"} && s1.userIDs == {};
    RunOneMore(cfg, ops[..1], ops[1]);
    assert ops[..1] + [ops[1]] == ops[..2];
    RunOneMore(cfg, ops[..2], ops[2]);
    assert ops[..2] + [ops[2]] == ops[..3];
  }

  /** The code the authorization puts in the store. */
  function Issued(cfg: Config): AuthCode {
    AuthCode("client", "user", "uri", Join(SCOPES), "", "", cfg.codeTTL, false)
  }

  lemma AskGranted(cfg: Config, s: Sys)
    requires Ready(s)
    ensures Request(cfg, s.w, Ask(), "user", 0, Direct, 0, "code") == (s.w.(codes := map["code" := Issued(cfg)]), true)
  {
    Asked();
    assert "openid" == SCOPES[0];
    assert ValidateClient(s.w.clients, Ask()) == Accepted(CLIENT, -1);
  }

  /** Up to the authorization. */
  lemma Authorized(cfg: Config)
    ensures var ops := Granting()[..4];
            var s := RunFrom(cfg, START, ops);
            && LegalFrom(cfg, START, ops, 0) && LastTime(ops, 0) == 0
            && UserActive(s.w, "user") && "client" in s.w.clients && s.w.clients["client"] == CLIENT
            && s.w.codes == map["code" := Issued(cfg)]
            && s.kids == {"kid"} && s.accessFamily == map[] && s.refreshFamily == map[]
  {
    var ops := Granting();
    SetUp(cfg);
    AskGranted(cfg, RunFrom(cfg, START, ops[..3]));
    RunOneMore(cfg, ops[..3], ops[3]);
    assert ops[..3] + [ops[3]] == ops[..4];
  }

  /** What an exchange with offline access leaves behind. */
  lemma OfflineExchange(cfg: Config, w: World, req: CodeRequest, now: int, d: Draw, w': World, outcome: Outcome)
    requires GrantTheorems.ExchangeEnds(cfg, w, req, now, d, w', outcome) && outcome.Granted?
    requires HasScope(w.codes[req.code].scope, "offline_access")
    requires w.clients[req.clientID].AllowsGrant("refresh_token")
    requires !w.codes[req.code].used
    ensures var c := w.codes[req.code];
            && w'.users == w.users && w'.clients == w.clients
            && w'.codes == w.codes[req.code := c.(used := true)]
            && d.refreshID in w'.tokens
            && w'.tokens[d.refreshID] == Token(c.userID, req.clientID, c.scope, now + RefreshTTL(cfg, w.clients[req.clientID]), false)
  {
  }

  lemma ReadyToExchange(cfg: Config, w: World)
    requires cfg.secretMatches("hash", "secret") && cfg.codeTTL >= 0
    requires UserActive(w, "user") && "client" in w.clients && w.clients["client"] == CLIENT
    requires w.codes == map["code" := Issued(cfg)]
    ensures Exchangeable(cfg, w, EXCHANGE, 0) && !w.codes["code"].used
  {
    assert w.codes["code"] == Issued(cfg);
    assert Identified(cfg, w, "client", "secret");
    assert ["authorization_code", "refresh_token"][0] == "authorization_code";
    assert MayUse(CLIENT, "authorization_code");
  }

  lemma Granted(cfg: Config, w: World, d: Draw)
    requires cfg.secretMatches("hash", "secret") && cfg.codeTTL >= 0
    requires UserActive(w, "user") && "client" in w.clients && w.clients["client"] == CLIENT
    requires w.codes == map["code" := Issued(cfg)]
    ensures var (w', outcome) := Exchange(cfg, w, EXCHANGE, 0, d);
            && outcome.Granted?
            && w'.users == w.users && w'.clients == w.clients
            && "code" in w'.codes && w'.codes["code"] == Issued(cfg).(used := true)
            && d.refreshID in w'.tokens
            && w'.tokens[d.refreshID] == Token("user", "client", Join(SCOPES), cfg.refreshTTL, false)
  {
    var (w', outcome) := Exchange(cfg, w, EXCHANGE, 0, d);
    Asked();
    ReadyToExchange(cfg, w);
    assert w.codes["code"] == Issued(cfg);
    ExchangeGrantedIff(cfg, w, EXCHANGE, 0, d);
    GrantTheorems.ExchangeEndings(cfg, w, EXCHANGE, 0, d);
    OfflineExchange(cfg, w, EXCHANGE, 0, d, w', outcome);
  }

  /** The replay is noticed and the grant cut off, and yet its refresh token is refreshed. */
  lemma ReplayThenRefresh(cfg: Config, w: World, now: int, d1: Draw, d2: Draw)
    requires cfg.secretMatches("hash", "secret")
    requires UserActive(w, "user") && "client" in w.clients && w.clients["client"] == CLIENT
    requires "code" in w.codes && w.codes["code"].used
             && w.codes["code"].clientID == "client" && w.codes["code"].userID == "user"
    requires "refresh" in w.tokens && w.tokens["refresh"] == Token("user", "client", Join(SCOPES), now, false)
    ensures GrantTheorems.Missed(w, "refresh", "user", "client", now)
    ensures var (w', outcome) := Exchange(cfg, w, EXCHANGE, now, d1);
            && outcome == Failed(InvalidGrant(Replayed))
            && Refresh(cfg, w', REFRESH, now, d2).1.Granted?
  {
    GrantTheorems.CutOffRefresh(w, "user", "client", now);
    var w' := RevokeGrant(w, "user", "client", now);
    assert Exchange(cfg, w, EXCHANGE, now, d1) == (w', Failed(InvalidGrant(Replayed)));
    assert "refresh" in w'.tokens && w'.tokens["refresh"] == w.tokens["refresh"];
  }

  /** The gap is reachable: the code is exchanged for a refresh token, and presented
      again at the instant at which that token expires. The listing asks for rows that
      expire after now, while a token is still valid at the instant it expires. */
  lemma ExpiringRowMissed(cfg: Config, d1: Draw, d2: Draw)
    requires cfg.secretMatches("hash", "secret") && cfg.codeTTL >= 0 && cfg.refreshTTL >= 0
    ensures var ops := Granting();
            var w, now := RunFrom(cfg, START, ops).w, cfg.refreshTTL;
            && LegalFrom(cfg, START, ops, 0) && LastTime(ops, 0) <= now
            && GrantTheorems.Missed(w, "refresh", "user", "client", now)
            && var (w', outcome) := Exchange(cfg, w, EXCHANGE, now, d1);
               && outcome == Failed(InvalidGrant(Replayed))
               && Refresh(cfg, w', REFRESH, now, d2).1.Granted?
  {
    var ops, d := Granting(), Draw("jti", "refresh", "kid");
    Authorized(cfg);
    var s := RunFrom(cfg, START, ops[..4]);
    assert FreshDraw(s, d);
    RunOneMore(cfg, ops[..4], ops[4]);
    assert ops[..4] + [ops[4]] == ops;
    Granted(cfg, s.w, d);
    ReplayThenRefresh(cfg, RunFrom(cfg, START, ops).w, cfg.refreshTTL, d1, d2);
  }
}
