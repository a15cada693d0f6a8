/** Authorization codes and refresh tokens as keyed rows, and what each repository
    operation does to them. These are the operations of the SQLite backend, one
    statement or transaction each; FileStores proves the list-scanning backend
    equal to them. */
module GrantStore {
  datatype AuthCode = AuthCode(
    clientID: string,
    userID: string,
    redirectURI: string,
    scope: string,
    codeChallenge: string,
    codeChallengeMethod: string,
    expiresAt: int,
    used: bool
  ) {
    predicate IsExpired(now: int) {
      now > expiresAt
    }
  }

  datatype Token = Token(userID: string, clientID: string, scope: string, expiresAt: int, revoked: bool) {
    predicate IsExpired(now: int) {
      now > expiresAt
    }

    predicate IsValid(now: int) {
      !IsExpired(now) && !revoked
    }
  }

  type Codes = map<string, AuthCode>
  type Tokens = map<string, Token>

  /** The outcome of consuming a single-use record. */
  datatype Consumption = Consumed | Conflict | NotFound

  /** Consumes a code in one atomic conditional update: it is won by whoever finds it
      unused. */
  function MarkUsed(codes: Codes, code: string): (r: (Codes, Consumption)) {
    if code !in codes then (codes, NotFound)
    else if codes[code].used then (codes, Conflict)
    else (codes[code := codes[code].(used := true)], Consumed)
  }

  function PurgeCodes(codes: Codes, now: int): Codes {
    map c | c in codes && codes[c].expiresAt > now :: codes[c]
  }

  /** Retires a refresh token the same way: won by whoever finds it unrevoked. */
  function Rotate(tokens: Tokens, id: string): (r: (Tokens, Consumption)) {
    if id !in tokens then (tokens, NotFound)
    else if tokens[id].revoked then (tokens, Conflict)
    else (tokens[id := tokens[id].(revoked := true)], Consumed)
  }

  function RevokeOne(tokens: Tokens, id: string): Tokens {
    if id in tokens then tokens[id := tokens[id].(revoked := true)] else tokens
  }

  function RevokeUserTokens(tokens: Tokens, userID: string): Tokens {
    map id | id in tokens :: if tokens[id].userID == userID then tokens[id].(revoked := true) else tokens[id]
  }

  function RevokeClientTokens(tokens: Tokens, clientID: string): Tokens {
    map id | id in tokens :: if tokens[id].clientID == clientID then tokens[id].(revoked := true) else tokens[id]
  }

  /** The rows revokeGrant retires: those of the user and client that the listing
      shows, which are the ones expiring strictly after now. */
  predicate InGrant(t: Token, userID: string, clientID: string, now: int) {
    t.userID == userID && t.clientID == clientID && t.expiresAt > now
  }

  function RevokeGrantTokens(tokens: Tokens, userID: string, clientID: string, now: int): Tokens {
    map id | id in tokens ::
      if InGrant(tokens[id], userID, clientID, now) then tokens[id].(revoked := true) else tokens[id]
  }

  function PurgeTokens(tokens: Tokens, now: int): Tokens {
    map id | id in tokens && tokens[id].expiresAt > now :: tokens[id]
  }

  /** tokens' is a later state of tokens: rows only disappear or become revoked,
      and no row whose ID was issued before comes back. */
  ghost predicate TokensAge(tokens: Tokens, tokens': Tokens, issued: set<string>) {
    forall id :: id in tokens' && id in issued ==>
      && id in tokens
      && (tokens'[id] == tokens[id] || tokens'[id] == tokens[id].(revoked := true))
  }
}
