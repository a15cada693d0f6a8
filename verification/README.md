# IDPico: the life of a grant

A Dafny model of the part of IDPico that decides who holds what: from an
authorization request, through codes, refresh families, access-token revocation and
signing keys, to the last refused token, and the limiters that guard sign-in.

Time is an integer count of nanoseconds handed to each step; it never goes back where
a statement says so. Fresh IDs are drawn by the environment and never repeat. Hashes,
HMACs, signatures, address parsing and case folding are functions about which nothing
is assumed but what a type says (a SHA-1 HMAC is 20 bytes).

Code that changes state in the source is written as classes and loops here, each
method proved equal to a specification function; the theorems are about runs of those
functions.

| part | files |
|---|---|
| revocation table | `Clock`, `RevocationTable`, `RevocationStores` |
| codes and refresh tokens | `GrantStore`, `FileStores`, `Rows` |
| endpoints, one handler a step | `TokenEndpoint`, `EndpointRules`, `TokenHandlers`, `Authorize`, `AuthorizeRequests`, `Scopes` |
| whole runs of handlers | `GrantLife` (invariant), `GrantTheorems`, `GrantScopes`, `EndpointResults`, `CutOffGap` |
| requests interleaved call by call | `RefreshFamilies` |
| signing keys | `KeyStore`, `KeyServices`, `KeyRotation` |
| sign-in limiters | `Lockout`, `Totp`, `SecondFactor`, `PendingLogins`, `Throttle`, `Arithmetic` |
| formats at the edge | `ClaimsJson`, `ForwardedFor`, `Text` |

Two granularities are used. In `RefreshFamilies`, `SecondFactor`, `PendingLogins` and `Lockout`
each repository or mutex-protected call is one atomic step and requests interleave
freely. In `GrantLife` a completed handler is one step, so permanence of refusal and the
full cut-off are statements about completed requests; what a cut-off reaches while others
run is `RefreshFamilies.ReuseCutsOff`.

## What the proofs found

- A replay's cut-off has a gap of one instant. `revokeGrant` lists rows with
  `expires_at > now`, while a token is expired only strictly after `expires_at`
  (`internal/oidc/token.go:356-373`, `internal/store/sqlite/tokens.go:144-165`,
  `internal/domain/types.go:250-257`). An unrevoked row that expires at exactly the
  instant of the replay stays redeemable at that instant, and at no other.
  `GrantTheorems.CutOffRefresh` says exactly which rows;
  `CutOffGap.ExpiringRowMissed` is a whole run, from the first key to a refresh that
  is granted after the replay was noticed.
- A cut-off does not reach a winner still in flight. The unrevoked rows a finished
  cut-off leaves are those created after its listing or expired by then
  (`RefreshFamilies.ReuseCutsOff`), and the first kind occurs: a request that has won a
  code issues its refresh token after the reuse of that code was found and its grant cut
  off (`RefreshFamilies.LateIssueSurvives`).
- A `max_age` above 9223372036 seconds is accepted and overflows the int64 nanoseconds
  it is compared in (`AuthorizeRequests.MaxAgeMeaning`).
- The longest permitted access token outlives the default key grace. Every signed
  token stays verifiable exactly when lifetime, read-to-stamp delay and cache lifetime
  together are at most grace plus two nanoseconds (`KeyRotation.GraceIsExact`). A 24h
  lifetime with the default 24h grace and one-minute cache is over
  (`ShippedMaximumFails`), although the configuration accepts it.
- Extra claims are kept apart from typed ones by exact name when read
  (`internal/crypto/jwt.go:88-92`), but `encoding/json` matches members to fields
  without regard to case. An extra claim named `Scope` fills in the scope of a token
  that has none. `ClaimsJson.SafeExtraNames` gives the exact set of safe names.
- Purging revocation rows is safe exactly for token lifetimes up to the seven-day
  retention (`RevocationTable.RetentionIsExact`); the enforced 24h cap is well inside.
- The sweep of pending logins can be seen, in one way: `takePasskeyChallenge` does not
  look at the expiry, so the challenge of an expired login is handed out or not
  depending on whether another sign-in has swept since. `PendingLogins.SweepInvisible`
  is exact, and `SweepSeen` is such a run.
- `IsLocked` and `RecordFailure` are separate calls, so requests that are past the gate
  together get more guesses than one at a time. With at most k at once the bound is
  maxAttempts + k - 1 for every lock that fits in (`Lockout.ConcurrentRateBound`), and
  it is reached for every k (`RateBoundAttained`, `OverlapExceeds`).

## Model

| member | source | states |
|---|---|---|
| GrantTheorems.RefusalIsPermanent | internal/oidc/token.go:531-596 | Over any run of completed handlers, once introspection answers inactive for an issued token it never answers active again, whoever asks and whatever is purged, re-enabled or rotated |
| GrantTheorems.VerdictIsTheLog | internal/oidc/token.go:101-110 | The verdict on an issued access token in any run depends only on its exp, its key and whether some logged revocation covers it; the user check and purged rows never matter |
| GrantTheorems.CodeReplayCutsOff | internal/oidc/token.go:208-222 | A used code presented by its own client leaves no active access token of the pair issued so far, no redeemable refresh token later (at this instant: exactly when no row expires right now), and changes no verdict of any other pair |
| GrantTheorems.RefreshReplayCutsOff | internal/oidc/token.go:290-298 | The same for a revoked, unexpired refresh token presented by its own client |
| GrantTheorems.RevokeGrantCutsOff | internal/oidc/token.go:356-373 | revokeGrant in any reachable state: the pair is cut off, every other pair is untouched |
| GrantTheorems.CutOffRefresh | internal/store/sqlite/tokens.go:144-165 | Which refresh tokens of the pair survive a cut-off: none later, and now exactly those unrevoked ones expiring at this instant |
| GrantTheorems.CutOffAccess | internal/oidc/token.go:368-372 | After a cut-off no access token of the pair issued so far is active at any later time |
| GrantTheorems.CutOffOthers | internal/domain/types.go:224 | A cut-off changes no token's verdict outside the pair, for user IDs without NUL |
| CutOffGap.ExpiringRowMissed | internal/oidc/token.go:358-366 | A legal run, ending in an exchange with offline access, after which a replay at the instant the refresh token expires is noticed and cut off, and the token is refreshed all the same |
| GrantTheorems.ApplyKeeps | internal/http/admin.go:573-582 | Every handler keeps the invariant that a disabled or deleted user holds nothing usable, and undoes no refusal |
| GrantLife.UpdateUserKeeps | internal/http/admin.go:573-582 | Disabling a user cuts off everything they hold, so enabling them again revives nothing |
| GrantLife.DeleteUserKeeps | internal/http/admin.go:712-720 | The same for deletion, with or without cascading rows |
| GrantLife.DeleteClientKeeps | internal/http/admin.go:1239-1256 | Deleting a client, with or without cascading rows (codes, tokens and consents), undoes no refusal |
| GrantLife.MaintainKeeps | internal/maintenance/maintenance.go:104-145 | Purging codes, tokens and revocation rows undoes no refusal |
| GrantLife.KeysKeep | internal/maintenance/maintenance.go:147-162 | Rotating and cleaning up keys revives no key that was refused |
| RefreshFamilies.OneResponseEach | internal/oidc/token.go:178-337 | In every interleaving of repository calls, a code yields at most one token response and each refresh token at most one |
| RefreshFamilies.SingleChain | internal/store/sqlite/tokens.go:81-98 | In every interleaving, the refresh tokens descending from one code form a single chain of successors, and only the last can be unrevoked |
| RefreshFamilies.FamilyIsChain | internal/oidc/token.go:312-336 | Where no two tokens share an origin, of any two in a family the later descends from the earlier |
| RefreshFamilies.ConsumingOutcome | internal/store/sqlite/authcodes.go:63-80 | A request about to consume a code wins exactly when the row is there and nobody has won; if somebody has, it goes on to cut off the grant |
| RefreshFamilies.RotatingAfterWinner | internal/oidc/token.go:326-334 | A request that rotates after another has goes on to cut off the grant, or is refused if the row is gone |
| RefreshFamilies.ReuseCutsOff | internal/oidc/token.go:356-373 | In every interleaving, once a request that found a reuse has finished, every row of the pair that its listing could show is revoked or gone, so the unrevoked ones were created after the listing or had expired by then |
| RefreshFamilies.LateIssueSurvives | internal/oidc/token.go:226-258 | A concrete interleaving: the reuse of a code is found and cut off, and then the winner of the same code issues a refresh token that stays unrevoked |
| RevocationTable.TableAnswersForLog | internal/store/file/revocations.go:66-92 | For an unexpired token that lives no longer than rows are kept, the compact table and the full log of events give the same answer |
| RevocationTable.PurgingNeverRevives | internal/store/sqlite/revocations.go:24-74 | After any mix of calls and purges, IsRevoked of a live token is true exactly when one of the calls asked for its refusal |
| RevocationTable.RetentionIsExact | internal/domain/types.go:213-221 | No token of lifetime up to a given length is ever revived or wrongly cut, over all runs, if and only if that length is at most the retention; the enforced cap qualifies |
| RevocationTable.OverlongTokenRevived | internal/domain/types.go:213-216 | A token that outlives the retention is revived by a purge: a concrete run |
| RevocationTable.UserClientKeyInjective | internal/domain/types.go:224 | Two pairs share a user+client key only if they are equal, for user IDs without NUL |
| RevocationTable.UserClientKeyClash | internal/domain/types.go:224 | With NUL in a user ID two different pairs share a key |
| RevocationTable.WatermarkPrecision | internal/store/file/revocations.go:77-88 | For every kind of watermark, any table and any rounding unit of the issue time: a cut covers exactly the tokens issued no later than the unit it falls in; one issued at or before it is refused, and one issued a unit after is refused only if it was already |
| Clock.RoundedComparison | internal/store/file/revocations.go:77-88 | When a rounded-down time is at or before a cut, for any rounding unit |
| RevocationStores.BackendsAgree | internal/store/file/revocations.go:38-108 | The scanned list and the keyed rows, given the same calls, answer alike, and as the specification does |
| RevocationStores.KeepUnexpired | internal/store/file/revocations.go:94-108 | The in-place filter over the slice's own front keeps exactly the unexpired rows, in order |
| RevocationStores.FileRevocations.Upsert | internal/store/file/revocations.go:38-56 | The scan-and-edit keeps one row per key and raises both times to the maximum |
| RevocationStores.FileRevocations.IsRevoked | internal/store/file/revocations.go:66-92 | The scan answers as the keyed table it stands for |
| RevocationStores.FileRevocations.DeleteExpired | internal/store/file/revocations.go:94-108 | Drops exactly the rows whose expiry is at or before now |
| RevocationStores.SqlRevocations.Upsert | internal/store/sqlite/revocations.go:24-35 | INSERT ... ON CONFLICT with MAX is the same upsert |
| RevocationStores.SqlRevocations.IsRevoked | internal/store/sqlite/revocations.go:45-67 | The disjunctive SELECT answers as the specification |
| FileStores.FileAuthCodes.MarkUsed | internal/store/file/file.go:505-523 | The list backend consumes a code exactly as the conditional UPDATE does: won, conflict or not found |
| FileStores.FileAuthCodes.DeleteExpired | internal/store/file/file.go:540-556 | The list backend purges exactly the expired codes |
| FileStores.FileTokens.Rotate | internal/store/file/file.go:628-645 | The list backend rotates a token exactly as the conditional UPDATE does |
| FileStores.FileTokens.Revoke | internal/store/file/file.go:609-626 | Revokes the one row and writes the user+client watermark in the same call |
| FileStores.FileTokens.RevokeByUserID | internal/store/file/file.go:647-663 | Revokes exactly the user's rows and writes the user watermark |
| FileStores.FileTokens.RevokeByClientID | internal/store/file/file.go:665-681 | Revokes exactly the client's rows and writes the client watermark |
| FileStores.FileTokens.DeleteExpired | internal/store/file/file.go:683-699 | Purges exactly the expired tokens |
| FileStores.FileTokens.ListByUserID | internal/store/file/file.go:701-716 | Lists exactly the user's rows that expire after now |
| TokenHandlers.TokenService.HandleAuthorizationCode | internal/oidc/token.go:178-258 | The handler, call by call on the file repositories, changes the whole store and answers as the exchange step the theorems are about |
| TokenHandlers.TokenService.HandleRefreshToken | internal/oidc/token.go:261-337 | The same for a refresh |
| TokenHandlers.TokenService.HandleRevocation | internal/oidc/token.go:434-486 | The same for RFC 7009 revocation, of a JWT or a stored token |
| TokenHandlers.TokenService.Introspect | internal/oidc/token.go:531-596 | The same for introspection, and the store is unchanged |
| TokenHandlers.TokenService.RevokeGrant | internal/oidc/token.go:356-373 | The loop over listed rows, each revoked with its own watermark, amounts to one cut-off of the pair |
| TokenHandlers.TokenService.GenerateTokens | internal/oidc/token.go:598-683 | One signed access token and, for offline access and a client allowed to refresh, one refresh row |
| TokenHandlers.TokenService.ValidateAccessToken | internal/crypto/jwt.go:313-337 | Accepts exactly signed, unexpired claims with a client_id whose key is still good |
| TokenHandlers.AllowsGrant | internal/domain/types.go:61-71 | A client without grant types allows both |
| GrantScopes.AccessScopesNeverWiden | internal/oidc/token.go:598-683 | Every access token in any run carries a non-empty scope within that of the code of its own family, which was issued for its user and client, within the client's scopes at authorization and within consent where asked; UserInfo never falls back to its default scope |
| GrantScopes.RefreshScopesNeverWiden | internal/oidc/token.go:312-336 | The same for every refresh token row and the code of its own family |
| GrantScopes.ExchangeHandsOver | internal/oidc/token.go:178-258 | In any run, what an exchange hands over is of the family of the very code exchanged, with exactly its scope |
| GrantScopes.RefreshHandsOver | internal/oidc/token.go:312-336 | In any run, what a refresh hands over is of the family of the row it consumed, with a non-empty scope within the scope of that row |
| GrantScopes.FamiliesNeverChange | internal/oidc/token.go:598-683 | No handler changes the family an issued code, refresh token or access token was given |
| GrantScopes.CodeGrantsOnce | internal/oidc/token.go:208-249 | Once used, a code is never granted again in any run, for any request |
| EndpointRules.ClientForMeaning | internal/oidc/clientsecret.go:34-55 | A client is let in exactly when it is public or its stored secret matches the one presented, neither being empty, and it may use the grant |
| EndpointRules.WrongSecretRefused | internal/oidc/clientsecret.go:34-55 | With a missing or wrong secret a confidential client gets nothing from exchange, refresh, revocation or introspection, and changes nothing |
| EndpointRules.StrangersRefused | internal/oidc/token.go:186-194 | The same for an unknown client |
| EndpointRules.PossessionMeaning | internal/oidc/authorize.go:291-311 | A verifier is accepted exactly when it proves possession of the challenge by its method, and is absent when there is none |
| EndpointRules.ExchangeGrantedIff | internal/oidc/token.go:178-258 | An exchange is granted exactly when client, secret, grant type, code, expiry, redirect URI, verifier and user are all in order |
| EndpointRules.RefusedExchange | internal/oidc/token.go:198-249 | A refused exchange changes nothing, except that a reuse is cut off and the code of a disabled or deleted user is spent |
| EndpointResults.ExchangedTokens | internal/oidc/token.go:598-683 | A granted exchange spends the code and issues, for its user and scope, an access token and, for offline access, a refresh row, with the client's lifetimes or the server's, and changes nothing else |
| EndpointResults.ExchangedTokensWork | internal/oidc/token.go:598-683 | In any run, what an exchange hands over is active at once, unless its key is refused, its whole second has passed or a cut covers it; the refresh row is new and lasts exactly its life |
| EndpointResults.RefreshGrantedIff | internal/oidc/token.go:261-337 | A refresh is granted exactly when client, secret, grant type, row and user are in order and every scope asked for is one the row has; invalid_scope is the answer exactly when only that last condition fails |
| EndpointResults.RefreshedTokens | internal/oidc/token.go:312-336 | A granted refresh retires the presented row and issues with exactly the scope asked for, or the row's when none was, and changes nothing else |
| EndpointResults.RefreshedTokensWork | internal/oidc/token.go:312-336 | In any run, what a refresh hands over works at once and the presented token never does again |
| EndpointResults.RefusedRefresh | internal/oidc/token.go:261-325 | A refused refresh changes nothing, except that a reuse is cut off |
| EndpointResults.RevocationAnswers | internal/oidc/token.go:434-486 | Revocation is refused exactly to a caller that is not identified, and leaves alone what is not the caller's own |
| EndpointResults.AccessTokenRevoked | internal/oidc/token.go:470-483 | In any run, an access token revoked by its client is never active again, and every other token keeps its verdict |
| EndpointResults.RefreshTokenRevoked | internal/oidc/token.go:455-468 | In any run, a refresh token revoked by its client is never redeemable again and the pair's access tokens issued so far are dead; every other refresh row and every other pair's access tokens keep their verdicts |
| EndpointResults.IntrospectionMeaning | internal/oidc/token.go:531-596 | In any run, introspection is denied exactly to callers without a matching secret, answers an issued access token active exactly when key, exp and log let it stand, and a refresh token exactly when its row does, with the row's details |
| EndpointResults.UserInfoMeaning | internal/oidc/userinfo.go:92-132 | In any run, UserInfo releases exactly for an access token that stands, by that token's own scope |
| EndpointResults.MaintenanceInvisible | internal/maintenance/maintenance.go:104-145 | In any run, a purge changes no access token's verdict and touches no code or refresh token short of its expiry; everything at its expiry is gone |
| EndpointResults.DisablingCutsOff | internal/http/admin.go:573-582 | In any run, saving a user stores it, and disabling an active one cuts off exactly that user |
| EndpointResults.DeletingCutsOff | internal/http/admin.go:712-720 | In any run, deleting a user removes it and cuts off exactly that user |
| EndpointResults.SigningOutCutsOff | internal/store/sqlite/tokens.go:102-128 | In any run, revoking all of a user's tokens cuts off exactly that user |
| EndpointResults.ClientStepsCutOff | internal/http/admin.go:1239-1256 | In any run, deleting a client or revoking all its tokens cuts off exactly that client |
| EndpointResults.AccountRevocation | internal/store/sqlite/tokens.go:53-77 | In any run, revoking one row does to it and its pair what the client revoking it does, and nothing to others |
| Authorize.IssuedWithinConsent | internal/oidc/authorize.go:195-261 | A code is only issued to an active user, for a registered redirect URI, within the client's scopes and the consent on record, and with S256 for a public client |
| Authorize.IssuedIff | internal/http/oidc.go:92-128 | A code is issued exactly when the request is well asked by an active user with a fresh enough session and consent that is not due or has just been given, and it says what was asked for the configured time; a refused request changes nothing |
| Authorize.AcceptedMeaning | internal/oidc/authorize.go:140-234 | Validation accepts exactly the well-asked requests, and shows a page error exactly for an unknown client or redirect URI |
| Authorize.RefusalNamesFault | internal/oidc/authorize.go:140-234 | The error sent to the client names a fault the request has |
| Authorize.CheckClient | internal/oidc/authorize.go:140-234 | The validation loops accept and refuse as the specification, with the same error and the same precedence |
| Authorize.GrantIsUnion | internal/oidc/consent.go:43-56 | Granting consent never loses a scope granted before |
| Scopes.ScopeSubset | internal/oidc/token.go:383-394 | True exactly when every requested scope was granted |
| Scopes.UnionScopes | internal/oidc/consent.go:68-81 | The set union, first occurrences in order, each once |
| Scopes.ConsentCovers | internal/domain/types.go:127-138 | True exactly when every scope asked for is in the consent |
| Scopes.FieldsOfJoin | internal/http/oidc.go:301-319 | Splitting joined words gives the words back |
| AuthorizeRequests.ReloginOnce | internal/http/oidc.go:85-108 | The return URL never asks for a fresh sign-in again, whatever the session, and stripping it again changes nothing |
| AuthorizeRequests.ReturnRequest | internal/oidc/authorize.go:109-134 | The return URL parses as the same request less login, select_account and max_age |
| AuthorizeRequests.StrippingKeepsTheRest | internal/http/oidc.go:322-332 | Every other parameter is untouched |
| AuthorizeRequests.MaxAgeMeaning | internal/oidc/authorize.go:45-53 | A max_age is compared as given, for every session age, if and only if it is at most 9223372036 seconds |
| AuthorizeRequests.OverflowingMaxAge | internal/oidc/authorize.go:45-53 | One second more, and a session of any age requires a fresh sign-in |
| AuthorizeRequests.FreshLoginMeaning | internal/oidc/authorize.go:45-53 | A fresh sign-in is required exactly for login, select_account, no session, or a session older than max_age |
| AuthorizeRequests.ParseOfEncode | internal/oidc/authorize.go:109-134 | Parsing the query of a request gives the request back, each parameter in its own field |
| AuthorizeRequests.AtoiReads | internal/oidc/authorize.go:170-181 | A number from 0 is read back from its decimal text, signed or not, exactly when it fits 64 bits |
| AuthorizeRequests.AtoiReadsNegative | internal/oidc/authorize.go:170-181 | The same for negative numbers |
| AuthorizeRequests.AtoiRefuses | internal/oidc/authorize.go:170-181 | Text with anything but digits after an optional sign is not read |
| AuthorizeRequests.StripPrompt | internal/http/oidc.go:301-319 | The loop drops exactly the named prompt values, and the parameter when none is left |
| AuthorizeRequests.StripParams | internal/http/oidc.go:322-332 | The loop drops exactly the named parameters |
| KeyRotation.GraceIsExact | internal/crypto/service.go:112-157 | Through any rotations, slow reads, other processes' stale caches and cleanups, every signed token is verifiable from issue until its exp if and only if lifetime plus read-to-stamp delay plus cache lifetime is at most grace plus 2 ns (without a cache the delay does not count) |
| KeyRotation.GraceSuffices | internal/crypto/service.go:207-238 | The if direction, over all runs |
| KeyRotation.ShortGraceFails | internal/crypto/service.go:143-151 | Otherwise a run exists in which a token signed from a slowly stamped, stale cache is refused before its exp |
| KeyRotation.ShippedMaximumFails | internal/config/config.go:70 | A 24h token lifetime with the default grace and cache is over the limit for any delay; 24h less a minute and the delay is within it |
| KeyStore.ReachableOneActive | internal/crypto/service.go:74-108 | In every reachable key store exactly one key is active, ActiveKid names it and only it has no expiry (the store is empty before the first key) |
| KeyStore.CleanupInvisible | internal/crypto/service.go:278-296 | Cleanup drops every key that no longer verifies and changes neither the published keys nor what is verified, now or later |
| KeyStore.RotationMeaning | internal/crypto/service.go:207-238 | After a rotation the new key signs and verifies, the one it replaces verifies for exactly the grace period, and the others are as before |
| KeyServices.SigningKeyVerifies | internal/crypto/service.go:74-140 | Once there has been a key, there is one to sign with unless its PEM does not load, and it is published and verifies |
| KeyServices.PublishedIsVerified | internal/crypto/service.go:163-190 | The scan that builds the JWKS publishes a kid exactly when the lookup that parse makes for a token naming it succeeds |
| KeyServices.KeyService.VerificationKey | internal/crypto/jwt.go:259-271 | The lookup succeeds exactly for a stored key that loads and has not expired |
| KeyStore.DeadKidStaysDead | internal/crypto/service.go:258-275 | A key that has stopped verifying never verifies again |
| KeyStore.KeyBackendsAgree | internal/store/sqlite/keys.go:79-133 | Over every run of ensure, rotate and cleanup, active columns in SQL rows and Active flags plus ActiveKid hold the same rows and name the same active key |
| KeyServices.FileKeys.Save | internal/store/file/keys.go:113-133 | Replaces the key's row or appends it, and no other |
| KeyServices.FileKeys.SetActive | internal/store/file/keys.go:136-158 | Moves the Active flag and ActiveKid together; an unknown kid changes nothing |
| KeyServices.FileKeys.Delete | internal/store/file/keys.go:161-177 | Removes one row and clears ActiveKid only if it named it |
| KeyServices.SqlKeys.Save | internal/store/sqlite/keys.go:79-105 | Saving an active key deactivates every other in the same transaction |
| KeyServices.SqlKeys.SetActive | internal/store/sqlite/signingkeys.go:126-141 | Makes the key the only active one; an unknown kid changes nothing |
| KeyServices.BackendsAgree | internal/store/file/keys.go:85-177 | The key service over the file repository and the same steps over the SQLite one, run side by side, sign with the same key and verify the same kids |
| KeyServices.SqlKeys.Ensure | internal/crypto/service.go:74-108 | Creates a key only when no row carries the active flag |
| KeyServices.SqlKeys.Rotate | internal/crypto/service.go:207-238 | The repository calls of a rotation amount to retiring the active row and activating the new one |
| KeyServices.SqlKeys.Cleanup | internal/crypto/service.go:278-296 | Deleting row by row drops exactly the expired inactive keys |
| KeyServices.KeyService.RotateKey | internal/crypto/service.go:207-238 | The sequence of repository calls amounts to one rotation |
| KeyServices.KeyService.GetActiveKey | internal/crypto/service.go:112-140 | Answers from a cache younger than its lifetime, else from the repository, stamping what it read at a later clock reading |
| KeyServices.KeyService.GetJWKS | internal/crypto/service.go:163-190 | Publishes exactly the unexpired keys that load |
| KeyServices.KeyService.CleanupExpiredKeys | internal/crypto/service.go:278-296 | Deleting key by key while the store changes amounts to dropping the expired inactive keys |
| Lockout.ConcurrentRateBound | internal/auth/lockout.go:35-88 | From any reachable state, with at most k requests for an address past the gate at once and no success in between, the wrong guesses checked in a span L number at most (maxAttempts + k - 1) * (floor(L/duration) + 1) |
| Lockout.RateBound | internal/auth/service.go:132-154 | For attempts that do not overlap, at most maxAttempts * (floor(L/duration) + 1) |
| Lockout.RateBoundAttained | internal/auth/lockout.go:58-88 | The concurrent bound is reached for every k and every number of whole durations |
| Lockout.OverlapExceeds | internal/auth/secondfactor.go:307-323 | Two requests past the gate at once already exceed the bound for one at a time, in every span |
| Lockout.RemainingIsExact | internal/auth/lockout.go:104-151 | Remaining attempts and remaining time are exact: the last remaining failure locks, an earlier one does not, the lock ends when reported, other addresses are untouched |
| Lockout.SuccessForgets | internal/auth/lockout.go:91-101 | A success forgets every failure at its address and nothing else; without a limit nobody is ever locked |
| Lockout.ReachedConsistent | internal/auth/lockout.go:58-101 | In every reachable state a lock is set exactly when the count has reached the limit |
| Lockout.LockoutService.RecordFailure | internal/auth/lockout.go:58-88 | The whole new table, and whether the address is now locked |
| Lockout.LockoutService.IsLocked | internal/auth/lockout.go:35-55 | Locked exactly while an unexpired lock is set |
| Lockout.LockoutService.RecordSuccess | internal/auth/lockout.go:91-101 | Forgets the address and no other |
| Lockout.LockoutService.GetRemainingAttempts | internal/auth/lockout.go:104-128 | The number RemainingIsExact is about |
| Lockout.LockoutService.GetLockoutRemaining | internal/auth/lockout.go:132-151 | The time RemainingIsExact is about |
| SecondFactor.StepsStrictlyIncrease | internal/auth/secondfactor.go:260-294 | In every interleaving, even with stale copies of the user, accepted time steps strictly increase, each within one of the clock's step and with the right code; each success has a use of its own |
| SecondFactor.AcceptanceRate | internal/auth/totp.go:70-94 | At most b - a + 3 codes are accepted between clock steps a and b |
| SecondFactor.RecoveryCodesConserved | internal/auth/secondfactor.go:284-292 | Stored and spent hashes together are the issued ones; the number accepted is issued minus remaining; a hash issued once is spent at most once, and is then gone |
| SecondFactor.SecondFactors.ConsumeSecondFactor | internal/auth/secondfactor.go:260-294 | A code of the authenticator is accepted and moves only the last step, to the earliest step it fits; failing that an unspent recovery code is accepted and exactly one copy of its hash goes; any other code is refused and changes nothing |
| SecondFactor.AnsweredRight | internal/auth/secondfactor.go:260-294 | In every interleaving, a checked request goes on to record its use, and finally answers yes, exactly when its code was right for the user stored at that moment |
| Totp.VerifiedMeaning | internal/auth/totp.go:75-94 | A code is accepted exactly when it fits some step of the window after the last one used, for the earliest such step |
| Totp.VerifyTOTP | internal/auth/totp.go:75-94 | The loop finds that step, or none |
| Totp.CodesAgree | internal/auth/totp.go:50-59 | A code has six digits and two steps share one exactly when their truncated digests agree modulo a million |
| Totp.Rfc4226Example | internal/auth/totp.go:50-59 | The worked example of RFC 4226 section 5.4 gives 872921 |
| Totp.SignBitDropped | internal/auth/totp.go:50-59 | The truncated value does not depend on the sign bit |
| Totp.StepMeaning | internal/auth/totp.go:70 | Step n is the half-open interval of 30 seconds that starts at 30 n |
| Text.TrimMeaning | internal/auth/totp.go:76 | Trimming takes exactly the spaces at both ends |
| Text.WithoutMeaning | internal/auth/totp.go:114-116 | Exactly the dropped characters go, and the others keep their order |
| Totp.UseRecoveryCode | internal/auth/totp.go:125-138 | Accepts exactly a ten-character code whose hash is stored, and removes its first copy |
| Totp.SpendingTakesOne | internal/auth/totp.go:125-138 | Exactly one copy of the hash is removed |
| PendingLogins.FiveAttempts | internal/auth/secondfactor.go:112-125 | In every interleaving a pending login grants at most five attempts |
| PendingLogins.AttemptNumber | internal/auth/secondfactor.go:236-249 | The attempt number a request is told is the number granted so far |
| PendingLogins.GrantedIff | internal/auth/secondfactor.go:115-125 | An attempt is granted exactly to a login that is there, not past its expiry and was granted fewer than five |
| PendingLogins.LoginLife | internal/auth/secondfactor.go:83-157 | A login lives five minutes; a challenge given to a live login is handed out once and is then gone |
| PendingLogins.ChallengeTakenOnce | internal/auth/secondfactor.go:128-151 | Each issue of a passkey challenge is taken at most once |
| PendingLogins.SweepInvisible | internal/auth/secondfactor.go:83-99 | With a clock that never goes back, a call is answered otherwise than if nothing were swept if and only if it takes a challenge issued to a login that had expired when some add ran |
| PendingLogins.SweepSeen | internal/auth/secondfactor.go:141-151 | A concrete run in which the sweep has forgotten a challenge that would have been handed out |
| PendingLogins.PendingLoginTable.Add | internal/auth/secondfactor.go:83-99 | The sweep removes exactly the expired logins |
| PendingLogins.PendingLoginTable.Reserve | internal/auth/secondfactor.go:115-125 | Counts an attempt of a live login with attempts left; otherwise forgets the login |
| PendingLogins.PendingLoginTable.Get | internal/auth/secondfactor.go:101-110 | A live login, or nothing and the entry is forgotten |
| PendingLogins.PendingLoginTable.SetPasskeyChallenge | internal/auth/secondfactor.go:128-137 | Only a live login takes a challenge |
| PendingLogins.PendingLoginTable.TakePasskeyChallenge | internal/auth/secondfactor.go:141-151 | Hands the challenge over and forgets it |
| Throttle.PruningInvisible | internal/auth/account.go:113-135 | With a clock that never goes back, every call is answered as by the version that never deletes an entry |
| Throttle.SendsApart | internal/auth/account.go:113-135 | A request is refused exactly when an email went to its address less than the interval ago; never, with no interval |
| Throttle.ResetThrottle.Throttled | internal/auth/account.go:113-135 | The pruning loop drops exactly the stale entries, and only above a thousand |
| ClaimsJson.RoundTrip | internal/crypto/jwt.go:46-93 | Reading back what was written, in whatever member order, restores every typed claim (no groups distinct from an empty list) and exactly the extra ones, when no extra name matches a known one |
| ClaimsJson.SafeExtraNames | internal/crypto/jwt.go:79-101 | Given the extra names, the round trip is the identity for all claims if and only if none matches a known name, case aside |
| ClaimsJson.CaseVariantLeaksIn | internal/crypto/jwt.go:79-82 | A concrete name that avoids the known ones and still fills in a typed claim |
| ClaimsJson.TypedWins | internal/crypto/jwt.go:63-66 | A typed claim that is present wins over an extra one of its name; an absent one does not; no known name is read back as extra |
| ClaimsJson.MarshalJSON | internal/crypto/jwt.go:46-76 | The merge loop writes each member once: typed first, then extra; an empty group list survives omitempty |
| ClaimsJson.UnmarshalJSON | internal/crypto/jwt.go:79-93 | The loop collects exactly the unknown members |
| ForwardedFor.PrependedHops | internal/http/middleware.go:192-212 | What is prepended cannot change the result if and only if some hop already there is not a trusted proxy |
| ForwardedFor.RightmostUntrusted | internal/http/middleware.go:201-211 | On header values: an untrusted address followed only by trusted ones is the client, whatever values precede it |
| ForwardedFor.JoinedValues | internal/http/middleware.go:193-200 | Splitting the hops across header values or joining them with commas makes no difference |
| ForwardedFor.PlainHop | internal/http/middleware.go:193-200 | Text without a comma is one hop, trimmed, or none if nothing is left |
| ForwardedFor.StopDecides | internal/http/middleware.go:201-211 | The rightmost hop that is not trusted decides: the client if it is an address, none if not |
| ForwardedFor.AllTrustedLeftmost | internal/http/middleware.go:207-209 | If every hop is trusted, the leftmost is the client |
| ForwardedFor.ClientFromForwardedFor | internal/http/middleware.go:192-212 | The two loops compute that walk |

## Left out

- ID tokens, nonce, auth_time, amr and group claims: they ride along with a grant and decide nothing about it.
- Legacy plaintext client secrets being upgraded on use: secret comparison is one abstract function of the stored and presented secrets.
- UserInfo's choice of claims per scope: only the acceptance and the scope it is gated by are modelled.
- The key's alg field, PEM decoding and the mislabelled-key check: a key either loads or does not.
- The UUIDv7 generator running ahead of the clock: a jti carries the millisecond of issue.
- SQL text, transactions, timestamp text order and JSON files: each repository method is one operation on rows. In the file backend only MarkUsed and Rotate take the consume lock; Create, DeleteExpired, Revoke, RevokeByUserID, RevokeByClientID and the revocation upsert load, change and save without it and are atomic by assumption, on which RefreshFamilies.OneResponseEach rests.
- Failing store writes, failures in the middle of RotateKey, and two processes rotating at once.
- Sessions, CSRF, passkey ceremonies, emailed verification tokens, audit, metrics, and the handlers around them.
- Writers of the user record other than consumeSecondFactor: administration, renewing recovery codes and turning two-step sign-in off write outside the per-user lock, so the statements about one enrolment do not cover them.
- Consent recorded under concurrency: IsGranted and Grant are single steps here, as a read-then-write is only sequentially right.
- RefreshFamilies.OneResponseEach: a request's own checks (client, expiry, redirect URI, PKCE, user, scope) are one free choice, so the statement holds whatever they say.
- FileStores.FileTokens.ListByUserID: the order of the listed rows is not stated; nothing depends on it.
- AuthorizeRequests.ReturnRequest: encoding a query and parsing it back is taken to be the identity.
- Totp.UseRecoveryCode: lengths are counted in characters where Go counts bytes; they agree on ASCII, and no other code has a stored hash.
- ClaimsJson.RoundTrip: extra values are JSON values (a Go []string reads back as []any); fractional and quoted numbers are not modelled, and dates are whole seconds.
- ForwardedFor.RightmostUntrusted: address parsing and prefix matching are functions of the hop; netip is not part of this model.
- Lockout.ConcurrentRateBound: says nothing when duration is zero or less, where the source never locks; and a request has one address, while the second step gates on the address in the pending login and records under the one in the user record, which an administrator may have changed in between.
- RefreshFamilies.ReuseCutsOff: speaks of refresh tokens only; access tokens issued by a winner in flight after the watermark is written are not part of the interleaved machine.
- KeyRotation.GraceIsExact: a rotation is saved in one instant, and grace is what is left then; the source computes the expiry just before saving, so the configured grace counts less that moment.
- KeyServices.KeyService.VerificationKey: the comparison of the token's alg header with the key's algorithm.
- TokenHandlers.TokenService.GenerateTokens: the ID token in the same response.
