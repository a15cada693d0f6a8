/** The authorization endpoint: which requests are accepted, when consent stands,
    and the code that is issued. */
module Authorize {
  import opened Wrappers
  import opened Scopes
  import opened GrantStore
  import opened TokenEndpoint
  import opened AuthorizeRequests

  /** Accepted carries the request with its max_age checked. A page error is shown to
      the user; a redirect error goes to the client. */
  datatype Validation = Accepted(client: Client, maxAge: int) | PageError | RedirectError(code: string)

  function ValidateClient(clients: map<string, Client>, req: AuthorizeRequest): Validation {
    if req.clientID !in clients then PageError
    else
      var c := clients[req.clientID];
      if req.redirectURI !in c.redirectURIs then PageError
      else if req.hasRequest then RedirectError("request_not_supported")
      else if req.hasRequestURI then RedirectError("request_uri_not_supported")
      else if req.hasRegistration then RedirectError("registration_not_supported")
      else if CheckedMaxAge(req).None? then RedirectError("invalid_request")
      else if req.HasPrompt("none") && |req.prompt| > 1 then RedirectError("invalid_request")
      else if req.responseType != "code" then RedirectError("unsupported_response_type")
      else if !c.AllowsGrant("authorization_code") then RedirectError("unauthorized_client")
      else if "openid" !in Fields(req.scope) then RedirectError("invalid_scope")
      else if c.isPublic && req.codeChallenge == "" then RedirectError("invalid_request")
      else if req.codeChallenge != "" && req.codeChallengeMethod != "S256" then RedirectError("invalid_request")
      else if exists s :: s in Fields(req.scope) && s !in c.scopes then RedirectError("invalid_scope")
      else Accepted(c, CheckedMaxAge(req).value)
  }

  /** The search the checks below make three times. */
  method Contains(words: seq<string>, want: string) returns (found: bool)
    ensures found <==> want in words
  {
    found := false;
    for i := 0 to |words|
      invariant found <==> want in words[..i]
    {
      if words[i] == want {
        return true;
      }
    }
    assert words[..|words|] == words;
  }

  method CheckClient(clients: map<string, Client>, req: AuthorizeRequest) returns (r: Validation)
    ensures r == ValidateClient(clients, req)
  {
    if req.clientID !in clients {
      return PageError;
    }
    var client := clients[req.clientID];
    var validURI := Contains(client.redirectURIs, req.redirectURI);
    if !validURI {
      return PageError;
    }
    if req.hasRequest {
      return RedirectError("request_not_supported");
    }
    if req.hasRequestURI {
      return RedirectError("request_uri_not_supported");
    }
    if req.hasRegistration {
      return RedirectError("registration_not_supported");
    }
    var maxAge := req.maxAge;
    if req.rawMaxAge != "" {
      var n := Atoi(req.rawMaxAge);
      if n.None? || n.value < 0 {
        return RedirectError("invalid_request");
      }
      maxAge := n.value;
    }
    if req.HasPrompt("none") && |req.prompt| > 1 {
      return RedirectError("invalid_request");
    }
    if req.responseType != "code" {
      return RedirectError("unsupported_response_type");
    }
    if !client.AllowsGrant("authorization_code") {
      return RedirectError("unauthorized_client");
    }
    var scopes := Fields(req.scope);
    var hasOpenID := Contains(scopes, "openid");
    if !hasOpenID {
      return RedirectError("invalid_scope");
    }
    if client.isPublic && req.codeChallenge == "" {
      return RedirectError("invalid_request");
    }
    if req.codeChallenge != "" && req.codeChallengeMethod != "S256" {
      return RedirectError("invalid_request");
    }
    for i := 0 to |scopes|
      invariant forall s :: s in scopes[..i] ==> s in client.scopes
    {
      var allowed := Contains(client.scopes, scopes[i]);
      if !allowed {
        return RedirectError("invalid_scope");
      }
    }
    assert scopes[..|scopes|] == scopes;
    r := Accepted(client, maxAge);
  }

  // ----- consent

  predicate IsGranted(w: World, userID: string, clientID: string, scopes: seq<string>)
    requires clientID in w.clients
  {
    || w.clients[clientID].skipConsent
    || ((userID, clientID) in w.consents && forall s :: s in scopes ==> s in w.consents[(userID, clientID)])
  }

  /** Merged with what was granted before, so a narrower request never narrows it. */
  function Grant(w: World, userID: string, clientID: string, scopes: seq<string>): World {
    var before := if (userID, clientID) in w.consents then w.consents[(userID, clientID)] else [];
    var merged := if (userID, clientID) in w.consents then Dedup(before + scopes) else scopes;
    w.(consents := w.consents[(userID, clientID) := merged])
  }

  lemma GrantIsUnion(w: World, userID: string, clientID: string, scopes: seq<string>)
    ensures var before := if (userID, clientID) in w.consents then w.consents[(userID, clientID)] else [];
            forall s :: s in Grant(w, userID, clientID, scopes).consents[(userID, clientID)] <==> s in before || s in scopes
    ensures var w' := Grant(w, userID, clientID, scopes);
            && w' == w.(consents := w'.consents)
            && w'.consents.Keys == w.consents.Keys + {(userID, clientID)}
            && forall pair :: pair in w.consents && pair != (userID, clientID) ==> w'.consents[pair] == w.consents[pair]
  {
    if (userID, clientID) in w.consents {
      DedupMeaning(w.consents[(userID, clientID)] + scopes);
    }
  }

  // ----- issuing a code

  /** How the browser reached the endpoint: GET /authorize, or the consent form's
      "allow". */
  datatype Via = Direct | ConsentForm

  function CreateAuthCode(cfg: Config, w: World, req: AuthorizeRequest, userID: string, now: int, code: string): World {
    var row := AuthCode(req.clientID, userID, req.redirectURI, req.scope, req.codeChallenge, req.codeChallengeMethod,
                        now + cfg.codeTTL, false);
    w.(codes := w.codes[code := row])
  }

  /** One request with a session begun at authTime; the flag says whether a code was
      issued. */
  function Request(cfg: Config, w: World, req: AuthorizeRequest, userID: string, authTime: int, via: Via, now: int, code: string): (World, bool) {
    match ValidateClient(w.clients, req)
    case PageError => (w, false)
    case RedirectError(_) => (w, false)
    case Accepted(client, maxAge) =>
      var checked := req.(maxAge := maxAge);
      if !UserActive(w, userID) then (w, false)
      else
        match via
        case Direct =>
          if checked.RequiresFreshLogin(Some(authTime), now) then (w, false)
          else if cfg.askConsent && (!IsGranted(w, userID, req.clientID, Fields(req.scope)) || req.HasPrompt("consent")) then (w, false)
          else (CreateAuthCode(cfg, w, req, userID, now, code), true)
        case ConsentForm =>
          if maxAge >= 0 && checked.RequiresFreshLogin(Some(authTime), now) then (w, false)
          else
            var granted := if cfg.askConsent then Grant(w, userID, req.clientID, Fields(req.scope)) else w;
            (CreateAuthCode(cfg, granted, req, userID, now, code), true)
  }

  /** A code is only issued within the client's scopes and, where consent is asked,
      within the consent on record when it is issued. */
  lemma IssuedWithinConsent(cfg: Config, w: World, req: AuthorizeRequest, userID: string, authTime: int, via: Via, now: int, code: string)
    requires Request(cfg, w, req, userID, authTime, via, now, code).1
    ensures var w' := Request(cfg, w, req, userID, authTime, via, now, code).0;
            && code in w'.codes && !w'.codes[code].used
            && w'.codes[code].userID == userID && UserActive(w, userID)
            && req.clientID in w.clients
            && w'.codes[code].clientID == req.clientID
            && w'.codes[code].redirectURI in w.clients[req.clientID].redirectURIs
            && "openid" in ScopeSet(w'.codes[code].scope)
            && (forall s :: s in ScopeSet(w'.codes[code].scope) ==> s in w.clients[req.clientID].scopes)
            && (cfg.askConsent && !w.clients[req.clientID].skipConsent ==>
                  && (userID, req.clientID) in w'.consents
                  && forall s :: s in ScopeSet(w'.codes[code].scope) ==> s in w'.consents[(userID, req.clientID)])
            && (w.clients[req.clientID].isPublic ==>
                  w'.codes[code].codeChallenge != "" && w'.codes[code].codeChallengeMethod == "S256")
  {
    GrantIsUnion(w, userID, req.clientID, Fields(req.scope));
  }

  /** What asking for a code does to the codes, when one is issued. */
  lemma AskingAdds(cfg: Config, w: World, ask: AuthorizeRequest, userID: string, authTime: int, via: Via, now: int, code: string)
    ensures var (w', issued) := Request(cfg, w, ask, userID, authTime, via, now, code);
            && w' == w.(codes := w'.codes, consents := w'.consents)
            && (!issued ==> w'.codes == w.codes)
            && (issued ==>
                  && ask.clientID in w.clients
                  && w'.codes.Keys == w.codes.Keys + {code}
                  && (forall c :: c in w.codes && c != code ==> w'.codes[c] == w.codes[c])
                  && w'.codes[code].userID == userID && w'.codes[code].clientID == ask.clientID && w'.codes[code].scope == ask.scope)
  {
  }

  // ----- exactly which requests get a code

  /** The request names the client's own redirect URI, asks for a code within the client's
      scopes, openid among them, with a well-formed max_age, a lone prompt=none, S256 where
      there is a challenge, a challenge where the client is public, and nothing that is not
      supported. */
  predicate WellAsked(c: Client, req: AuthorizeRequest) {
    && req.redirectURI in c.redirectURIs
    && !req.hasRequest && !req.hasRequestURI && !req.hasRegistration
    && (req.rawMaxAge == "" || (Atoi(req.rawMaxAge).Some? && Atoi(req.rawMaxAge).value >= 0))
    && ("none" in req.prompt ==> |req.prompt| == 1)
    && req.responseType == "code"
    && (c.grantTypes == [] || "authorization_code" in c.grantTypes)
    && "openid" in Fields(req.scope) && (forall s :: s in Fields(req.scope) ==> s in c.scopes)
    && (req.codeChallenge != "" ==> req.codeChallengeMethod == "S256")
    && (c.isPublic ==> req.codeChallenge != "")
  }

  /** max_age as the request carries it. */
  function AskedAge(req: AuthorizeRequest): int {
    if req.rawMaxAge == "" then req.maxAge else if Atoi(req.rawMaxAge).Some? then Atoi(req.rawMaxAge).value else -1
  }

  /** The session is too old for what the request says. */
  predicate SessionExpired(req: AuthorizeRequest, authTime: int, now: int) {
    AskedAge(req) >= 0 && TooOld(now - authTime, AskedAge(req))
  }

  /** The consent page is due: not everything asked for is granted, or it is asked for. */
  predicate ConsentDue(cfg: Config, w: World, req: AuthorizeRequest, userID: string)
    requires req.clientID in w.clients
  {
    && cfg.askConsent
    && ("consent" in req.prompt
        || (!w.clients[req.clientID].skipConsent
            && !((userID, req.clientID) in w.consents && forall s :: s in Fields(req.scope) ==> s in w.consents[(userID, req.clientID)])))
  }

  lemma AcceptedMeaning(clients: map<string, Client>, req: AuthorizeRequest)
    ensures var v := ValidateClient(clients, req);
            && (v.Accepted? <==> req.clientID in clients && WellAsked(clients[req.clientID], req))
            && (v.Accepted? ==> v.client == clients[req.clientID] && v.maxAge == AskedAge(req))
            && (v.PageError? <==> req.clientID !in clients || req.redirectURI !in clients[req.clientID].redirectURIs)
  {
    assert |req.prompt| == 0 ==> "none" !in req.prompt;
  }

  /** The error the client is sent names a fault the request really has. */
  lemma RefusalNamesFault(clients: map<string, Client>, req: AuthorizeRequest)
    requires ValidateClient(clients, req).RedirectError?
    ensures req.clientID in clients && req.redirectURI in clients[req.clientID].redirectURIs
    ensures var c, error := clients[req.clientID], ValidateClient(clients, req).code;
            || (error == "request_not_supported" && req.hasRequest)
            || (error == "request_uri_not_supported" && req.hasRequestURI)
            || (error == "registration_not_supported" && req.hasRegistration)
            || (error == "unsupported_response_type" && req.responseType != "code")
            || (error == "unauthorized_client" && c.grantTypes != [] && "authorization_code" !in c.grantTypes)
            || (error == "invalid_scope"
                && ("openid" !in Fields(req.scope) || exists s :: s in Fields(req.scope) && s !in c.scopes))
            || (error == "invalid_request"
                && ((req.rawMaxAge != "" && (Atoi(req.rawMaxAge).None? || Atoi(req.rawMaxAge).value < 0))
                    || ("none" in req.prompt && |req.prompt| > 1)
                    || (req.codeChallenge == "" && c.isPublic)
                    || (req.codeChallenge != "" && req.codeChallengeMethod != "S256")))
  {
  }

  /** A code is issued exactly when the request is well asked by an active user whose
      session is fresh enough and consent is not due - or has just been given on the form,
      where only the age of the session still counts - and the code says what was asked,
      for the configured time. A refused request changes nothing. */
  lemma IssuedIff(cfg: Config, w: World, req: AuthorizeRequest, userID: string, authTime: int, via: Via, now: int, code: string)
    ensures var (w', issued) := Request(cfg, w, req, userID, authTime, via, now, code);
            && (issued <==>
                  && req.clientID in w.clients && WellAsked(w.clients[req.clientID], req)
                  && userID in w.users && w.users[userID].active
                  && !SessionExpired(req, authTime, now)
                  && match via
                     case Direct =>
                       "login" !in req.prompt && "select_account" !in req.prompt && !ConsentDue(cfg, w, req, userID)
                     case ConsentForm =>
                       AskedAge(req) >= 0 ==> "login" !in req.prompt && "select_account" !in req.prompt)
            && (!issued ==> w' == w)
            && (issued ==>
                  && w' == w.(codes := w'.codes, consents := w'.consents)
                  && w'.codes == w.codes[code := AuthCode(req.clientID, userID, req.redirectURI, req.scope, req.codeChallenge,
                                                          req.codeChallengeMethod, now + cfg.codeTTL, false)]
                  && (via.Direct? || !cfg.askConsent ==> w'.consents == w.consents))
  {
    AcceptedMeaning(w.clients, req);
  }
}
