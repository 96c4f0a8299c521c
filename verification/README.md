# Authentication service, verified model

A Dafny model of the repository's authentication core and proofs about whole runs of it. Four groups are
covered.

1. **The biometric-auth protocol** (`Protocol`, `History`, `Records`, `Answers`, `SessionTheorems`,
   `ChallengeTheorems`, `DeviceTheorems`, `LockoutTheorems`, `Tables`, `Services`, `Server`). `Protocol` gives each
   service call as a function on users, devices, sessions and challenges, and keeps the histories that the theorems
   speak of: all calls with their answers, all refresh tokens handed out, all challenges issued and consumed, all random IDs drawn. The theorems hold for every
   finite run of every interleaving of calls. `History` says, from the log alone, what every record must be and what
   every call must be answered; `Records` and `Answers` prove that state and answers are exactly that. `Tables`
   and `Services` are the same calls as the program runs them, on maps of pointers whose records are changed in place: each call is one step of `Protocol`
   (`Services.AuthService.Handle`). `Server` strings calls on these objects together into runs, so that the theorems
   hold of the objects.
2. **Rate limiters** (`FixedWindow`, `TokenBucket`, `SlidingWindow`).
3. **Text codecs** (`Text`, `Base64`, `Tokens`, `Messages`, `PasswordHash`, `Drift`), and `Assembly`, which builds
   the protocol's environment from them, so that its two laws are theorems. The token is the JWS Compact
   Serialization of section 7.1 of RFC 7515 with base64url per section 5 of RFC 4648 and HS256 per section 3.2 of
   RFC 7518; the hash string is that of Argon2id (RFC 9106).
4. **Allocators and relations** (`BackupCodes`, `SessionCap`, `AccessControl`).

## Hypotheses

- HMAC, SHA-256, Argon2, key-format and signature checks are arbitrary functions. The only laws used are that
  decoding an encoded JSON payload gives it back (`Tokens.JsonInverse`; Go's encoder meets it for valid UTF-8
  text) and, where a stored password is to be recognised, that the key function returns the length it is asked for.
- `Protocol.Outside` states what the outside world guarantees about a call: the clock does not go back, random IDs
  have not been drawn before, and a presented refresh token does not collide under SHA-256 with an issued one. A
  presented token is otherwise any text; no unforgeability of HMAC is needed, because a session stores the hash of
  its newest token.
- Each service call is one atomic step with one reading of the clock. Times are nanoseconds since the epoch.

## Where the code and its documentation differ

The model follows the code.

- A token is accepted in the second of its expiry, which section 4.1.4 of RFC 7519 excludes.
- Revoking a device is documented to invalidate all sessions on it; it touches none
  (`SessionTheorems.RevokedDeviceStillRotates`). The device middleware does refuse a revoked device on the
  authenticated routes, but the refresh route is a public one.
- The 90-second limit on client timestamps fails for timestamps so far in the future that the difference
  saturates: negating the smallest 64-bit duration leaves it negative (`Drift.FreshExactly` has the exact
  condition, `Drift.PromiseFails` an instance).
- The sliding window loses stamps for windows over a second that are more than a millisecond over whole seconds,
  because the Redis client sends the lifetime in whole seconds, cut off, and at least one
  (`SlidingWindow.RightWindows`).
- At rate zero the token bucket's script computes an infinite lifetime, which Redis refuses after the bucket has been
  written; the caller then lets every request through.
- The fixed window lets the first request of a window through whatever the limit, hence max(1, limit).
- Logout of a session that does not exist dereferences nil; the answer is `Crashed`.
- Biometric exchange looks at neither the status nor the owner of the session; only later rotation is blocked.
- Login stores a new device record, so it makes a revoked device active again, without its key.
- Enrolment signs the challenge ID in place of the nonce, and authentication trusts the nonce in the request.

## Model

| member | source | states |
|---|---|---|
| `Answers.AnswersFromHistory` | auth-service-main/biometric-auth/internal/service/auth.go:74-347 | After any calls whatsoever, every answer of the service, success or refusal with its reason and its tokens, is the one demanded by a reference definition that reads only the calls and answers before it |
| `Records.StateFromHistory` | auth-service-main/biometric-auth/internal/repository/repository.go:72-304 | After any calls whatsoever, every field of every user, device, session and challenge record is the one that the log demands: from its last creation, and the last renewal, enrolment, revocation, use or end since |
| `Answers.EnrollInEveryRun` | auth-service-main/biometric-auth/internal/service/biometric.go:130-203 | In every legal run an enrolment succeeds iff the device is sound, its challenge is open for it and "enroll", the timestamp is fresh, the key is valid, the signature over challenge ID, device, action and timestamp verifies under that key, and the device was last registered by the same user |
| `Answers.AuthenticateInEveryRun` | auth-service-main/biometric-auth/internal/service/biometric.go:228-305 | In every legal run a biometric check (authenticate, step-up or exchange) passes iff the device is sound, was last registered by the same user and not revoked since, holds a key enrolled since, its challenge is open for it and "authenticate", the timestamp is fresh and the signature verifies under that key; an exchange succeeds iff besides its session was created |
| `Answers.LoginInEveryRun` | auth-service-main/biometric-auth/internal/service/auth.go:74-108 | In every run a login is admitted iff the user found did not start out disabled, is not locked by the failures of the log and gives the right password, and then as that user; a failed check is counted iff only the password was wrong |
| `Answers.ConsumeInEveryRun` | auth-service-main/biometric-auth/internal/service/biometric.go:364-395 | After any legal run, for any ID, device and action: consuming succeeds iff some call requested that ID for them, no call has used it up, and now is at most the time of that request plus the lifetime; no two calls of the run used up the same ID |
| `SessionTheorems.NewestTokenWins` | auth-service-main/biometric-auth/internal/service/token.go:103-142 | After any run from the start, for any text at all: rotation succeeds iff the text is the newest refresh token issued for its session, that session is active, the device matches and the clock is not past the expiry second |
| `SessionTheorems.RotationExactly` | auth-service-main/biometric-auth/internal/service/token.go:103-142 | The same equivalence in any state that satisfies the lineage invariant |
| `SessionTheorems.NoTokenRotatesTwice` | auth-service-main/biometric-auth/internal/service/token.go:101-142 | In no run do two entries of the log rotate the same text |
| `SessionTheorems.LineageInEveryRun` | auth-service-main/biometric-auth/internal/service/token.go:51-83 | In every reachable state each issued refresh token names an existing session and carries its family, no two sessions share a family, and a session's issued tokens number UseCount + 1 |
| `SessionTheorems.CallKeepsSessions` | auth-service-main/biometric-auth/internal/service/token.go:101-179 | Every call (login, rotation, exchange, logout, logout-all and all others) keeps the lineage invariant |
| `SessionTheorems.RunKeepsTokens` | auth-service-main/biometric-auth/internal/service/token.go:101-179 | Every legal continuation keeps lineage, single use and the lineage of each rotation |
| `SessionTheorems.EveryRun` | auth-service-main/biometric-auth/internal/service/auth.go:358-397 | From a start with any users, every legal run satisfies those invariants |
| `SessionTheorems.IssuedTextsDiffer` | auth-service-main/biometric-auth/internal/service/token.go:54-83 | No two refresh tokens issued in a run are the same text |
| `SessionTheorems.ReplayRevokesFamily` | auth-service-main/biometric-auth/internal/service/token.go:123-128 | Presenting a superseded, unexpired token on its own device while its session is active answers FamilyCompromised, marks exactly the sessions of that family replayed (one session) and leaves everything else as it was |
| `SessionTheorems.RevocationIsFinal` | auth-service-main/biometric-auth/internal/service/token.go:119-128 | Once a session is not active, no continuation makes it active or rotates any token of it |
| `SessionTheorems.RevokedForEver` | auth-service-main/biometric-auth/internal/service/token.go:119-121 | The same for every run from the start, split at any point |
| `SessionTheorems.LogoutAllIsFinal` | auth-service-main/biometric-auth/internal/repository/repository.go:201-210 | After logout-all every session the user had stays dead and never rotates again, whatever follows |
| `SessionTheorems.LogoutAllSpares` | auth-service-main/biometric-auth/internal/repository/repository.go:201-210 | Logout-all leaves the sessions of all other users, and everything else, as they were |
| `SessionTheorems.LogoutIsFinal` | auth-service-main/biometric-auth/internal/service/auth.go:284-293 | After a logout answered Done its session is dead and none of its tokens rotates in any continuation |
| `SessionTheorems.LogoutKills` | auth-service-main/biometric-auth/internal/service/token.go:168-175 | A logout ends exactly the session it names and changes nothing else; without such a session it panics and changes nothing |
| `SessionTheorems.RefusedRefresh` | auth-service-main/biometric-auth/internal/service/token.go:103-121 | A refused refresh changes nothing at all, unless it was refused as a replay |
| `SessionTheorems.ChainKeepsLineage` | auth-service-main/biometric-auth/internal/service/token.go:130-141 | Along any chain of rotations of the log, first and last token have the same user, device, session and family |
| `SessionTheorems.ChainInEveryRun` | auth-service-main/biometric-auth/internal/service/token.go:130-141 | The same for every run from the start |
| `SessionTheorems.HandedTokenRotates` | auth-service-main/biometric-auth/internal/service/auth.go:228-243 | A token that any call has just handed out rotates on its device iff its session is active and the token is in time; so a token exchanged for a revoked session is dead |
| `SessionTheorems.HandedByActive` | auth-service-main/biometric-auth/internal/service/auth.go:358-389 | Login and rotation leave the session of the token they hand out active; the token expires at the truncated now + RefreshTokenTTL |
| `SessionTheorems.RevokedDeviceStillRotates` | auth-service-main/biometric-auth/internal/service/device.go:94-124 | The comment that a revoked device's sessions become invalid does not hold: after a login and the successful revocation of its very device, the token of that login still rotates there, exactly until it expires |
| `SessionTheorems.DeviceRevocationSparesTokens` | auth-service-main/biometric-auth/internal/service/device.go:95-113 | Revoking a device changes the answer to no refresh |
| `ChallengeTheorems.ConsumeExactly` | auth-service-main/biometric-auth/internal/service/biometric.go:364-395 | The same equivalence from the challenge invariant |
| `ChallengeTheorems.RunKeepsChallenges` | auth-service-main/biometric-auth/internal/service/biometric.go:71-107 | Every call keeps: stored challenges are the issued ones, marked used iff consumed, and only expired ones are missing |
| `ChallengeTheorems.SealsVerify` | auth-service-main/biometric-auth/internal/service/crypto.go:123-138 | The seal stored with a challenge always verifies |
| `ChallengeTheorems.CleanupIsInvisible` | auth-service-main/biometric-auth/internal/repository/repository.go:294-304 | DeleteExpired inserted at any points of a run of all calls changes no verdict (a refused challenge may be refused as unknown instead of used or expired) |
| `ChallengeTheorems.CleanupsNeverMatter` | auth-service-main/biometric-auth/internal/repository/repository.go:294-304 | The same from the start of the service, with no hypothesis but a clock that does not go back |
| `ChallengeTheorems.StepAgrees` | auth-service-main/biometric-auth/internal/service/biometric.go:364-380 | Any single call gets the same verdict from a store without some expired challenges, and the stores stay related |
| `DeviceTheorems.AuthenticationInEveryRun` | auth-service-main/biometric-auth/internal/service/biometric.go:228-305 | In every run, every successful biometric check comes after a registration of that device by that user that was neither repeated nor followed by a revocation, and after a later enrolment by the same user; the signature was checked with the key of the last enrolment; the timestamp is within 90 s of the clock whenever the difference is above the smallest 64-bit duration |
| `DeviceTheorems.SuccessMeansChecked` | auth-service-main/biometric-auth/internal/service/biometric.go:229-287 | A positive answer of authenticate, exchange or step-up means that the device gate, the drift check and the signature check all passed |
| `DeviceTheorems.CallKeepsDevices` | auth-service-main/biometric-auth/internal/service/device.go:44-124 | Every call keeps the link between each device record and the log entries that explain it |
| `DeviceTheorems.StoryContinues` | auth-service-main/biometric-auth/internal/service/device.go:61-113 | A record that was enrolled, revoked or only seen since its registration stays explained by the longer log |
| `LockoutTheorems.LockoutBound` | auth-service-main/biometric-auth/internal/service/auth.go:93-103 | From any state, over any calls without a successful login of an account: if the m-th failed password check comes within T of the first, then m <= max(1, MaxLoginAttempts) + floor(T / LockoutDuration) |
| `LockoutTheorems.LockoutInEveryRun` | auth-service-main/biometric-auth/internal/service/auth.go:93-103 | The same for any stretch between two successful logins of any run from the start |
| `LockoutTheorems.BoundIsReached` | auth-service-main/biometric-auth/internal/service/auth.go:93-103 | The bound is tight for every T: a legal run of Login calls with a wrong password, from the start, has exactly that many failed checks, the last within T of the first |
| `LockoutTheorems.StepOnUser` | auth-service-main/biometric-auth/internal/service/auth.go:88-108 | What any call can do to an account: one counted failure while the gates are open, a reset of exactly the counter and the lock, or nothing |
| `LockoutTheorems.RunKeepsPace` | auth-service-main/biometric-auth/internal/service/auth.go:399-406 | Every run without a success keeps the failures spaced: from number max(1, MaxLoginAttempts) on each costs a whole lockout |
| `Tokens.VerifySigned` | auth-service-main/biometric-auth/internal/service/token.go:181-225 | For every payload and secret, verifying the signed token gives the payload back up to and including its expiry second, and expired after it |
| `Tokens.VerifyExactly` | auth-service-main/biometric-auth/internal/service/token.go:195-225 | For every text: it verifies as p iff it is three dot-free parts, the third decodes to the HMAC of the first two under the secret, the second decodes to p, and p has not expired; it is expired iff the same holds of some p that has; otherwise it is invalid |
| `Tokens.SignatureDecides` | auth-service-main/biometric-auth/internal/service/token.go:200-211 | Any text in place of the signature, under any secret: the token is invalid unless it decodes to the HMAC |
| `Tokens.OtherSecret` | auth-service-main/biometric-auth/internal/service/token.go:195-211 | A token signed under another secret is invalid unless the two HMACs agree |
| `Tokens.AccessExactly` | auth-service-main/biometric-auth/internal/service/token.go:144-166 | For every text: the claims are exactly those of an authentic access token in time, with the step-up deadline as an instant |
| `Tokens.SignInjective` | auth-service-main/biometric-auth/internal/service/token.go:181-193 | Different payloads never give the same token, whatever HMAC computes |
| `Tokens.StepUpWindow` | auth-service-main/biometric-auth/internal/middleware/middleware.go:51-71 | End to end: a step-up token passes verification and the gate exactly while both truncated deadlines hold, and yields its own user, device and session |
| `Tokens.StepUpWindowLength` | auth-service-main/biometric-auth/internal/service/token.go:85-99 | Whichever lifetime is shorter: the gate is never open past the step-up lifetime nor a second or more past the access lifetime, and it is open until less than a second before the earlier deadline |
| `Tokens.PairNeverStepsUp` | auth-service-main/biometric-auth/internal/service/token.go:51-83 | An ordinary access token never opens the gate and a refresh token is never an access token, even under one shared secret |
| `Base64.RoundTrip` | auth-service-main/biometric-auth/internal/service/token.go:187-213 | Decoding inverts encoding, for all bytes and both alphabets |
| `Base64.EncodedChars` | auth-service-main/biometric-auth/internal/service/token.go:182-191 | Encoded text consists of alphabet characters only, hence no separator of any message format here |
| `Base64.DecodeAccepted` | auth-service-main/biometric-auth/internal/service/crypto.go:105-113 | The decoder accepts exactly the texts of alphabet characters and line breaks whose length without the breaks is not of the form 4k + 1 |
| `Base64.Examples` | auth-service-main/biometric-auth/internal/service/crypto.go:47-53 | The examples of section 10 of RFC 4648 up to one group, and the characters in which the alphabets differ |
| `Messages.SignedPayloadUnambiguous` | auth-service-main/biometric-auth/internal/service/crypto.go:246-249 | Signed payloads are equal iff nonce, device ID, action and timestamp are, for any device ID text, given dot-free nonces and actions |
| `Messages.SignedPayloadDetermined` | auth-service-main/biometric-auth/internal/service/crypto.go:246-249 | Against all quadruples: a signed payload is unambiguous iff none of its texts contains a dot |
| `Messages.SealMessageUnambiguous` | auth-service-main/biometric-auth/internal/service/crypto.go:123-125 | Seal messages for random nonces and declared actions are equal iff nonce bytes, device, action and expiry second are |
| `Messages.SealChecks` | auth-service-main/biometric-auth/internal/service/crypto.go:123-138 | A seal checks against its own fields, and a text is accepted iff it decodes to that HMAC |
| `Messages.NonceClean` | auth-service-main/biometric-auth/internal/service/crypto.go:47-53 | A random nonce contains neither separator |
| `PasswordHash.VerifyPrinted` | auth-service-main/biometric-auth/internal/service/crypto.go:80-117 | The printed hash string is split and scanned back exactly for all parameters, salts and keys: checking any password compares its key under the stored parameters with the stored key |
| `PasswordHash.HashedPasswordMatches` | auth-service-main/biometric-auth/internal/service/crypto.go:65-117 | A hashed password is accepted, and an attempt is accepted iff its key is the same, for any key function of the right length |
| `PasswordHash.ParamsRoundTrip` | auth-service-main/biometric-auth/internal/service/crypto.go:98-103 | Scanning the printed parameters gives memory, iterations and parallelism back |
| `PasswordHash.VerifyExactly` | auth-service-main/biometric-auth/internal/service/crypto.go:92-117 | For every text and password: keys are compared iff the text is six dollar-separated fields that name argon2id, with scannable and runnable parameters and decodable salt and key, and then the password's key under them with the stored one; any other number of fields or name is a bad format |
| `PasswordHash.RefusedExactly` | auth-service-main/biometric-auth/internal/service/crypto.go:98-115 | A text of six fields is refused for its parameters, its salt, its key or unrunnable parameters, exactly and in this order |
| `PasswordHash.ScanExactly` | auth-service-main/biometric-auth/internal/service/crypto.go:98-103 | The scan accepts exactly m=, t= and p= in this order, each with optional blanks and a number that fits, whatever follows |
| `PasswordHash.HashFormat` | auth-service-main/biometric-auth/internal/service/crypto.go:80-88 | The printed string has the fields, the version and the order of parameters of the documented format |
| `Drift.FreshExactly` | auth-service-main/biometric-auth/internal/service/biometric.go:398-408 | Exactly which timestamps pass in 64-bit arithmetic: within 90 s, or so far ahead that the difference saturates and its negation overflows; never one that wraps on Go's own scale |
| `Drift.PromiseFails` | auth-service-main/biometric-auth/internal/service/biometric.go:398-408 | At any clock, every timestamp 292 years or more ahead on Go's scale passes; a clock of 2023 and a timestamp of 2350 is an instance |
| `Assembly.AssembledIsSound` | auth-service-main/biometric-auth/internal/service/token.go:181-225 | The two laws the run theorems need hold of the service put together from the concrete codecs, whatever HMAC and the hashes compute, if JSON decoding inverts encoding |
| `Assembly.StoredPasswordLogsIn` | auth-service-main/biometric-auth/internal/service/auth.go:98-108 | A user admitted by the gates logs in iff the key of the given password equals that of the stored one |
| `Assembly.LoginTokens` | auth-service-main/biometric-auth/internal/service/auth.go:125-148 | The access token of a login stands for exactly its user, device and session until its expiry second and never opens the step-up gate; its refresh token carries exactly that lineage, with the family, until its own |
| `Assembly.RefreshTokens` | auth-service-main/biometric-auth/internal/service/token.go:103-142 | A refresh succeeds only for an authentic, unexpired refresh token of the given device, and the pair it answers with stands for exactly the user, device, session and family of that token and never opens the step-up gate |
| `Assembly.ExchangeTokens` | auth-service-main/biometric-auth/internal/service/auth.go:228-248 | The pair of an exchange stands for exactly the user and device of the request and the named session, in that session's family, and never opens the step-up gate |
| `Assembly.PaymentToken` | auth-service-main/biometric-auth/internal/service/auth.go:317-347 | The token of an authorized payment stands for the user and device of the request and the caller's session, and opens the step-up gate exactly while both truncated deadlines hold |
| `Services.AuthService.Handle` | auth-service-main/biometric-auth/internal/service/auth.go:74-347 | Any call on the mutable services, with pointers changed in place, is exactly one step of the state machine, and every object it adds is new, so that calls can follow one another |
| `Services.AuthService.constructor` | auth-service-main/biometric-auth/main.go:30-43 | The wired services start in the start state of the state machine, with the given users and otherwise empty, new tables |
| `Server.Serve` | auth-service-main/biometric-auth/internal/service/auth.go:74-347 | Any sequence of calls on the services is a run of the state machine, state by state and answer by answer, and a legal one as soon as clock, random IDs and SHA-256 behave |
| `Server.ServeFromStart` | auth-service-main/biometric-auth/internal/service/token.go:101-142 | Told by calls and answers of the objects alone: no refresh token is answered with a new pair twice, and before every successful biometric check the same user has enrolled the same device successfully; the session and challenge invariants hold behind the answers |
| `Services.AuthService.SignIn` | auth-service-main/biometric-auth/internal/service/auth.go:74-149 | Login changes users, devices and sessions exactly as the state machine says, for whichever matching user the lookup returns |
| `Services.AuthService.HandleFailedLogin` | auth-service-main/biometric-auth/internal/service/auth.go:399-406 | The failure counter, the lock and the status through the user's pointer, nothing else changed |
| `Services.AuthService.FindByIdentifier` | auth-service-main/biometric-auth/internal/repository/repository.go:82-91 | The loop over an unordered map finds some user with that phone or email iff there is one |
| `Services.AuthService.ExchangeToken` | auth-service-main/biometric-auth/internal/service/auth.go:212-249 | Biometric exchange in place is the exchange step, including the effects it keeps when the session is missing |
| `Services.AuthService.RefreshToken` | auth-service-main/biometric-auth/internal/service/auth.go:264-280 | Refresh in place is the rotation step |
| `Services.AuthService.SignOut` | auth-service-main/biometric-auth/internal/service/auth.go:284-293 | Logout in place, including the panic on a missing session |
| `Services.AuthService.SignOutAll` | auth-service-main/biometric-auth/internal/service/auth.go:295-303 | Logout-all in place |
| `Services.AuthService.AuthorizeSpending` | auth-service-main/biometric-auth/internal/service/auth.go:317-347 | Payment authorization in place is the payment step |
| `Services.TokenService.RotateRefreshToken` | auth-service-main/biometric-auth/internal/service/token.go:103-142 | Rotation through the session's pointer: every error branch, the family loop and the three written fields agree with the rotation function |
| `Services.TokenService.RevokeFamilyMembers` | auth-service-main/biometric-auth/internal/repository/repository.go:190-199 | The loop through pointers sets the status of exactly the family's sessions |
| `Services.TokenService.RevokeAllUserSessions` | auth-service-main/biometric-auth/internal/repository/repository.go:201-210 | The loop through pointers revokes exactly the user's sessions |
| `Services.TokenService.RevokeSession` | auth-service-main/biometric-auth/internal/service/token.go:168-175 | One session is revoked; a missing one is reported as the panic it causes |
| `Services.TokenService.CreateSession` | auth-service-main/biometric-auth/internal/service/auth.go:358-397 | One new active session with the hash of its refresh token and its own family |
| `Services.BiometricService.ConsumeChallenge` | auth-service-main/biometric-auth/internal/service/biometric.go:364-395 | Consuming through the pointer agrees with the consumption function in every branch |
| `Services.BiometricService.IssueChallenge` | auth-service-main/biometric-auth/internal/service/biometric.go:71-107 | Exactly one sealed challenge is added |
| `Services.BiometricService.DropExpired` | auth-service-main/biometric-auth/internal/repository/repository.go:294-304 | The deleting loop keeps exactly the unexpired challenges |
| `Services.BiometricService.CheckSignature` | auth-service-main/biometric-auth/internal/service/biometric.go:228-305 | The seven checks in their order, with the challenge consumed even when a later one fails |
| `Services.BiometricService.EnrollKey` | auth-service-main/biometric-auth/internal/service/biometric.go:130-203 | Enrolment in its order of checks, ending in the key stored on the device |
| `Services.DeviceService.RegisterDevice` | auth-service-main/biometric-auth/internal/service/device.go:44-58 | Registration replaces the record: active, with no key, whatever was stored before |
| `Services.DeviceService.EnableKey` | auth-service-main/biometric-auth/internal/service/device.go:61-82 | The key is stored on the caller's own device only |
| `Services.DeviceService.RevokeOne` | auth-service-main/biometric-auth/internal/service/device.go:95-124 | Revocation clears the key of the caller's own device only |
| `Tables.Table.UpdateWhere` | auth-service-main/biometric-auth/internal/repository/repository.go:190-210 | A loop over a map of pointers changes exactly the matching records |
| `Tables.Table.DeleteWhere` | auth-service-main/biometric-auth/internal/repository/repository.go:294-304 | A loop that deletes while it ranges keeps exactly the records that do not match |
| `Tables.Table.FindWhere` | auth-service-main/biometric-auth/internal/repository/repository.go:82-91 | An early-exit loop finds a matching record iff there is one |
| `Tables.Table.Seeded` | auth-service-main/biometric-auth/internal/repository/repository.go:57-70 | A repository that starts with exactly the given records, each under its own new pointer |
| `FixedWindow.ClientIsAlone` | auth-service-main/biometric-auth/internal/middleware/middleware.go:138-173 | Cleanups at any points and all other clients' requests change no decision for a client: its decisions are those of a limiter that serves it alone and is never cleaned |
| `FixedWindow.DecidedExactly` | auth-service-main/biometric-auth/internal/middleware/middleware.go:142-158 | In any run of all clients and cleanups a request gets through iff it is the first of its window or among the first limit, where the client's own request times alone say which request opened its window |
| `FixedWindow.ClientBound` | auth-service-main/biometric-auth/internal/middleware/middleware.go:138-162 | In any run with times that do not go back, one client gets fewer than (n + 1) * max(1, limit) requests through in any closed interval of n >= 1 windows |
| `FixedWindow.IntervalBound` | auth-service-main/biometric-auth/internal/middleware/middleware.go:142-158 | The same from any stored entry |
| `FixedWindow.BoundIsMet` | auth-service-main/biometric-auth/internal/middleware/middleware.go:142-158 | The bound cannot be lowered, for any limit, any window and any n up to the ticks of a window: a given sequence of requests gets (n + 1) * max(1, limit) - 1 through in a closed interval of n windows |
| `FixedWindow.RateLimiter.Limit` | auth-service-main/biometric-auth/internal/middleware/middleware.go:138-162 | The method through the entry's pointer decides and counts as the admission function, for this client only |
| `FixedWindow.RateLimiter.CleanUp` | auth-service-main/biometric-auth/internal/middleware/middleware.go:164-173 | The deleting loop drops exactly the entries older than two windows |
| `FixedWindow.Drive` | auth-service-main/biometric-auth/internal/middleware/middleware.go:138-173 | A limiter object that serves any sequence of requests and cleanups takes exactly the decisions of the run, for any client |
| `FixedWindow.DriveFromStart` | auth-service-main/biometric-auth/internal/middleware/middleware.go:122-173 | From its creation on, the limiter object lets fewer than (n + 1) * 100 requests of a client through in any closed interval of n minutes, and exactly the first hundred of each of the client's windows |
| `TokenBucket.GrantBound` | auth-service-main/docs/legacy-auth-engine-v2/pkg/ratelimit/bucket.go:41-57 | In any run of an expiring key, any stretch of calls spanning T seconds is granted at most capacity + rate * T tokens |
| `TokenBucket.StretchBound` | auth-service-main/docs/legacy-auth-engine-v2/pkg/ratelimit/bucket.go:45-54 | From any valid bucket: at most what is available at the start plus what flows in |
| `TokenBucket.ExpiryIsInvisible` | auth-service-main/docs/legacy-auth-engine-v2/pkg/ratelimit/bucket.go:56-57 | Dropping the key after ceil(capacity / rate) + 1 seconds never changes a decision |
| `TokenBucket.BalanceStays` | auth-service-main/docs/legacy-auth-engine-v2/pkg/ratelimit/bucket.go:42-54 | The balance stays an integer between 0 and the capacity |
| `TokenBucket.GrantedExactly` | auth-service-main/docs/legacy-auth-engine-v2/pkg/ratelimit/bucket.go:41-54 | A call is granted iff its cost fits into the capacity and into what was left plus what has flowed in since; a grant, and nothing else, is taken from the balance |
| `TokenBucket.LifetimeExactly` | auth-service-main/docs/legacy-auth-engine-v2/pkg/ratelimit/bucket.go:57 | The key lives one second longer than the least whole number of seconds that fills an empty bucket |
| `TokenBucket.KeptExactly` | auth-service-main/docs/legacy-auth-engine-v2/pkg/ratelimit/bucket.go:56-57 | A saved bucket is seen until its lifetime is over, to the millisecond, and not after |
| `TokenBucket.Limiter.Allow` | auth-service-main/docs/legacy-auth-engine-v2/pkg/ratelimit/bucket.go:32-82 | One run of the script, for any capacity, rate and cost, answers and stores as the bucket function, with the expiry, and leaves other keys alone; at rate zero EXPIRE fails, the earlier write stays and the request is let through |
| `SlidingWindow.RightWindows` | auth-service-main/docs/legacy-auth-engine-v2/pkg/ratelimit/bucket.go:85-96 | For every window: the limiter decides by the full history on all runs and limits iff the window is at most a second or at most a millisecond over whole seconds |
| `SlidingWindow.RightExactly` | auth-service-main/docs/legacy-auth-engine-v2/pkg/ratelimit/bucket.go:90-96 | For any window and key lifetime: right on all runs iff the window is at most the lifetime and one millisecond |
| `SlidingWindow.CountsAreExact` | auth-service-main/docs/legacy-auth-engine-v2/pkg/ratelimit/bucket.go:93-103 | The pruned and expiring set has exactly as many members as there are distinct millisecond stamps of all past calls in the window, the call itself included |
| `SlidingWindow.ShortLifeMiscounts` | auth-service-main/docs/legacy-auth-engine-v2/pkg/ratelimit/bucket.go:96-104 | Otherwise a run is miscounted: a second call in the millisecond after the key was dropped misses the first |
| `SlidingWindow.Limiter.Allow` | auth-service-main/docs/legacy-auth-engine-v2/pkg/ratelimit/bucket.go:85-116 | One call in place, for any limit and window: prune, add, count, expire (a lifetime that is not positive deletes the key); a zero limit panics after the store has changed |
| `BackupCodes.ConservedAlways` | auth-service-main/docs/legacy-auth-engine-v2/internal/auth/service.go:591-602 | At every point of a run: stored plus accepted hashes are exactly the generated ones as multisets, the stored ones keep their order, at most ten are ever accepted, and a code is accepted iff its hash was generated more often than accepted |
| `BackupCodes.AcceptedExactly` | auth-service-main/docs/legacy-auth-engine-v2/internal/auth/service.go:591-602 | After any events a code is accepted iff codes with its hash were handed out, when MFA was last enabled and not disabled since, more often than they have been tried since |
| `BackupCodes.StepConserves` | auth-service-main/docs/legacy-auth-engine-v2/internal/auth/service.go:368-382 | Enabling, disabling and every attempt keep that conservation |
| `BackupCodes.FormatInjective` | auth-service-main/docs/legacy-auth-engine-v2/internal/crypto/crypto.go:150-154 | Different random bytes give different codes |
| `BackupCodes.CodeFormat` | auth-service-main/docs/legacy-auth-engine-v2/internal/crypto/crypto.go:154 | A code is eleven characters: the first three bytes in upper-case hexadecimal, a dash, and the other two |
| `BackupCodes.Generate` | auth-service-main/docs/legacy-auth-engine-v2/internal/crypto/crypto.go:146-160 | The loop fills two arrays with the codes and the hash of each, position by position |
| `BackupCodes.Slice.Verify` | auth-service-main/docs/legacy-auth-engine-v2/internal/auth/service.go:591-602 | The scan and the shift in the slice remove exactly the first match and keep the order; true iff there was one |
| `BackupCodes.Slice.Enable` | auth-service-main/docs/legacy-auth-engine-v2/internal/auth/service.go:368-382 | Enabling replaces the stored hashes by those of the codes handed out |
| `SessionCap.CapFromStart` | auth-service-main/docs/legacy-auth-engine-v2/internal/auth/service.go:512-538 | With a positive cap, no run of logins, revocations, cleanups and time steps reaches a state with more counted sessions of any user than the cap |
| `SessionCap.CapHolds` | auth-service-main/docs/legacy-auth-engine-v2/internal/auth/service.go:512-538 | The same from any table within the cap |
| `SessionCap.AdmittedExactly` | auth-service-main/docs/legacy-auth-engine-v2/internal/auth/service.go:513-517 | A login is admitted iff there is room or no cap, and then counts as exactly one more |
| `SessionCap.CountedFromHistory` | auth-service-main/docs/legacy-auth-engine-v2/internal/repository/session.go:55-86 | In every run, whatever the cleanups: a session counts for a user at t iff a login of that user created it less than the lifetime ago and neither it nor the user was revoked since |
| `SessionCap.CleanupKeepsCounted` | auth-service-main/docs/legacy-auth-engine-v2/internal/repository/session.go:81-86 | Cleanup removes no session that counts now or later, so it never makes room for a login |
| `SessionCap.Table.CountActive` | auth-service-main/docs/legacy-auth-engine-v2/internal/repository/session.go:73-79 | One scan counts every active, unexpired session of the user exactly once: the size of the set that the cap theorems bound |
| `SessionCap.Table.CleanupExpired` | auth-service-main/docs/legacy-auth-engine-v2/internal/repository/session.go:81-86 | One scan that deletes as it goes keeps exactly the active rows that are not a day past expiry, loses no session that counts for any user, now or later, and accounts for every row |
| `SessionCap.Table.IssueTokens` | auth-service-main/docs/legacy-auth-engine-v2/internal/auth/service.go:512-538 | Count, cap check and insert in place are the issue step |
| `AccessControl.DecisionFromHistory` | access-control-service/internal/application/access/service.go:91-115 | After any operations a check allows iff some assignment to the user in the tenant stands (made and not removed since) and some accepted grant gives that role the key or the wildcard |
| `AccessControl.AssignmentsFromHistory` | access-control-service/internal/adapter/repository/postgres/access_repo.go:88-95 | An assignment row exists iff the last operation about it made it |
| `AccessControl.OrderIrrelevant` | access-control-service/internal/adapter/repository/postgres/access_repo.go:84-91 | Any reordering or repetition of grants and assignments gives the same state |
| `AccessControl.TenantIsolation` | access-control-service/internal/adapter/repository/postgres/access_repo.go:96-97 | Assignments and removals in other tenants never change a decision |
| `AccessControl.EmptyMeansDefault` | access-control-service/internal/application/access/service.go:91-104 | An empty tenant means default, in assignments and in checks |
| `AccessControl.KeysMeanMayDo` | access-control-service/internal/adapter/repository/postgres/access_repo.go:97-97 | The three-way join contains the key or the wildcard iff some held role grants it |
| `AccessControl.Service.Check` | access-control-service/internal/application/access/service.go:101-115 | The loop with early return allows iff some role held in that tenant (empty meaning default) grants the key or the wildcard, and lists the distinct keys |
| `AccessControl.Service.UserPermissions` | access-control-service/internal/adapter/repository/postgres/access_repo.go:96-111 | The loop returns each key of the join exactly once |
| `AccessControl.Service.Perform` | access-control-service/internal/adapter/repository/postgres/access_repo.go:84-95 | Grant, assign (tenant filled in) and remove on the stored relations, refused when a foreign key is missing |

## Left out

- HTTP handlers, routers, NATS, gRPC, providers and configuration loading: plumbing around the calls modelled here.
- The audit log, published events and logging: written and never read by the modelled calls.
- OTP verification: the code accepts every code.
- Fields that no decision reads: names, platform and version texts, IP addresses, user agents, fingerprints, trust
  scores, attestation data, creation and update times.
- `ValidateDevice`, `ListUserDevices` and the session status `expired`: simple reads, and a status that nothing sets.
- `MaxDevicesPerUser`: it is never enforced.
- Concurrent interleavings inside one call: the repositories lock per operation, not per call, so two simultaneous
  rotations may both read the old hash; the theorems are about calls that do not overlap.
- Store failures: the limiters let requests through when Redis fails and several writes ignore errors; runs here are
  those in which the store works.
- User creation: runs start with any users, and no call adds one.
- A panic of Argon2 on a stored hash with zero passes or lanes is `Panic` in `PasswordHash`, and counts as a wrong
  password in the assembled protocol.
- `fmt.Sscanf` skips more kinds of blanks than the space and tab of `PasswordHash`; printed strings contain none.
- Rounding of the bucket's floating-point rate, and the reset and retry hints of the limiters. Rates are reals.
- The Redis clock is taken to be the caller's clock.
- The Redis variant of the fixed window, which counts in aligned windows with one atomic increment.
- Overflow of the 64-bit counters for attempts, uses and requests.
- Legacy failed-login counting, one-time-password counters, session touching and refresh, face and risk scores.
- Creating and deleting roles and permissions: both sets are fixed in a run of the access-control model.
