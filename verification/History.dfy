/**
 * What the calls so far and their answers mean, read off the log alone: which record each user, device, session
 * and challenge must have, and which answer the next call must get. Nothing here looks at the stored state or at
 * the functions that change it.
 */
module History {
  import opened Basics
  import opened Protocol
  import opened Tokens
  import Drift
  import Messages

  // ----- what one entry of the log did -----

  /** A login that reached the password check of user `u` and failed it. */
  predicate FailedCheck(e: Entry, u: string) {
    e.event.Login? && e.event.found == Some(u) && e.outcome == Denied(InvalidCredentials)
  }

  predicate SuccessfulLogin(e: Entry, u: string) {
    e.event.Login? && e.outcome.LoggedIn? && e.outcome.userId == u
  }

  /** A login that (re)registered device `d`. */
  predicate Registers(e: Entry, d: string) {
    e.event.Login? && e.outcome.LoggedIn? && e.event.login.deviceId == d
  }

  predicate Enrolls(e: Entry, d: string) {
    e.event.Enroll? && e.outcome.Done? && e.event.enroll.deviceId == d
  }

  predicate Revokes(e: Entry, d: string) {
    e.event.RevokeDevice? && e.outcome.Done? && e.event.deviceId == d
  }

  /** The request of a call whose biometric check succeeded. An exchange looks its session up only after
      that check, so it may still be refused with TokenRevoked. */
  function Authenticated(e: Entry): Option<AuthRequest> {
    match e.event
    case Authenticate(req) => if e.outcome.Done? then Some(req) else None
    case AuthorizePayment(req, _, _) => if e.outcome.StepUpIssued? then Some(req) else None
    case Exchange(req, _, _, _) =>
      if e.outcome.Renewed? || e.outcome == Denied(TokenRevoked) then Some(req) else None
    case _ => None
  }

  predicate SeenBy(e: Entry, d: string) {
    Authenticated(e).Some? && Authenticated(e).value.deviceId == d
  }

  /** The refusals of an enrolment that leave its challenge unused. */
  predicate BeforeEnrollChallenge(o: Outcome) {
    o.Denied? && (o.error.RootedDevice? || o.error.ChallengeInvalid? || o.error.ChallengeUsed?
                  || o.error.ChallengeExpired?)
  }

  /** The refusals of a biometric check that leave its challenge unused. */
  predicate BeforeChallenge(o: Outcome) {
    o.Denied? && (o.error.RootedDevice? || o.error.DeviceNotFound? || o.error.DeviceNotActive?
                  || o.error.BiometricDisabled? || o.error.ChallengeInvalid? || o.error.ChallengeUsed?
                  || o.error.ChallengeExpired?)
  }

  /** The challenge that a call used up: it passed all checks up to that of the challenge. */
  function SpentBy(e: Entry): Option<string> {
    match e.event
    case Enroll(req) => if BeforeEnrollChallenge(e.outcome) then None else Some(req.challengeId)
    case Authenticate(req) => if BeforeChallenge(e.outcome) then None else Some(req.challengeId)
    case AuthorizePayment(req, _, _) => if BeforeChallenge(e.outcome) then None else Some(req.challengeId)
    case Exchange(req, _, _, _) => if BeforeChallenge(e.outcome) then None else Some(req.challengeId)
    case _ => None
  }

  predicate Creates(e: Entry, s: string) {
    e.event.Login? && e.outcome.LoggedIn? && e.event.draws.sessionId == s
  }

  /** What the refresh token of a call says, if it is a good one. */
  function Presents(env: Env, e: Entry): Option<TokenPayload> {
    if !e.event.Refresh? then None
    else
      var v := env.verify(e.event.raw, env.cfg.refreshSecret, Unix(e.now));
      if v.Valid? then Some(v.payload) else None
  }

  /** A rotation or an exchange of session `s`. */
  predicate Renews(env: Env, e: Entry, s: string) {
    && e.outcome.Renewed?
    && if e.event.Refresh? then Presents(env, e).Some? && Presents(env, e).value.sessionId == s
       else e.event.Exchange? && e.event.sessionId == s
  }

  /** An entry that ended session `s` of user `user` with family `family`. */
  predicate Ends(env: Env, e: Entry, s: string, user: string, family: string) {
    || (e.event.Logout? && e.event.sessionId == s && e.outcome.Done?)
    || (e.event.LogoutAll? && e.event.userId == user)
    || (e.outcome == Denied(FamilyCompromised) && Presents(env, e).Some? && Presents(env, e).value.family == family)
  }

  // ----- the last entry of a kind -----

  datatype Mark =
    | Success(user: string)
    | Registered(device: string) | Enrolled(device: string) | Withdrawn(device: string) | Seen(device: string)
    | Granted(challenge: string) | Used(challenge: string)
    | Created(session: string) | Renewal(session: string) | End(session: string, user: string, family: string)

  predicate Bears(env: Env, e: Entry, m: Mark) {
    match m
    case Success(u) => SuccessfulLogin(e, u)
    case Registered(d) => Registers(e, d)
    case Enrolled(d) => Enrolls(e, d)
    case Withdrawn(d) => Revokes(e, d)
    case Seen(d) => SeenBy(e, d)
    case Granted(id) => e.event.GetChallenge? && e.event.challengeId == id
    case Used(id) => SpentBy(e) == Some(id)
    case Created(s) => Creates(e, s)
    case Renewal(s) => Renews(env, e, s)
    case End(s, user, family) => Ends(env, e, s, user, family)
  }

  /** Index of the last entry that bears a mark, or -1. */
  function Last(env: Env, log: seq<Entry>, m: Mark): (n: int)
    ensures -1 <= n < |log|
    ensures n >= 0 ==> Bears(env, log[n], m)
    ensures forall i :: n < i < |log| ==> !Bears(env, log[i], m)
  {
    if log == [] then -1
    else if Bears(env, log[|log| - 1], m) then |log| - 1
    else Last(env, log[..|log| - 1], m)
  }

  /** How many entries after index `from` bear a mark. */
  function CountAfter(env: Env, log: seq<Entry>, from: int, m: Mark): nat
    decreases |log|
  {
    if |log| <= from + 1 || log == [] then 0
    else
      CountAfter(env, log[..|log| - 1], from, m) + if Bears(env, log[|log| - 1], m) then 1 else 0
  }

  lemma LastAppended(env: Env, log: seq<Entry>, e: Entry, m: Mark)
    ensures Last(env, log + [e], m) == if Bears(env, e, m) then |log| else Last(env, log, m)
  {
    assert (log + [e])[..|log|] == log;
  }

  lemma CountAppended(env: Env, log: seq<Entry>, e: Entry, from: int, m: Mark)
    requires -1 <= from < |log|
    ensures CountAfter(env, log + [e], from, m) ==
            CountAfter(env, log, from, m) + if Bears(env, e, m) then 1 else 0
  {
    assert (log + [e])[..|log|] == log;
  }

  // ----- accounts -----

  /** The times of the failed checks of `u` in the log from entry `from` on, in order. */
  function Failures(log: seq<Entry>, from: nat, u: string): seq<int>
    decreases |log|
  {
    if |log| <= from then []
    else
      var last := log[|log| - 1];
      Failures(log[..|log| - 1], from, u) + if FailedCheck(last, u) then [last.now] else []
  }

  lemma FailuresAppended(log: seq<Entry>, e: Entry, from: nat, u: string)
    requires from <= |log|
    ensures Failures(log + [e], from, u) == Failures(log, from, u) + if FailedCheck(e, u) then [e.now] else []
  {
    assert (log + [e])[..|log|] == log;
  }

  /** The failed checks since the last successful login. */
  function Recent(env: Env, log: seq<Entry>, u: string): seq<int> {
    Failures(log, Last(env, log, Success(u)) + 1, u)
  }

  /** The count of failures: a successful login starts it again from zero. */
  function Strikes(env: Env, first: User, log: seq<Entry>, u: string): int {
    (if Last(env, log, Success(u)) < 0 then first.failedAttempts else 0) + |Recent(env, log, u)|
  }

  /** A recent failure that reached the limit locks from its time on; otherwise an old lock stands until the first
      success. */
  function LockEnd(env: Env, first: User, log: seq<Entry>, u: string): Option<int> {
    var f := Recent(env, log, u);
    if f != [] && Strikes(env, first, log, u) >= env.cfg.maxLoginAttempts then
      Some(f[|f| - 1] + env.cfg.lockoutDuration)
    else if Last(env, log, Success(u)) < 0 then first.lockedUntil
    else None
  }

  /** Entry `k` is a failure that reached the limit. */
  predicate LocksAt(env: Env, first: User, log: seq<Entry>, u: string, k: int) {
    0 <= k < |log| && FailedCheck(log[k], u) && Strikes(env, first, log[..k + 1], u) >= env.cfg.maxLoginAttempts
  }

  ghost predicate EverLocked(env: Env, first: User, log: seq<Entry>, u: string) {
    exists k :: LocksAt(env, first, log, u, k)
  }

  /** The account of a user who started as `first`. */
  ghost function AccountAt(env: Env, first: User, log: seq<Entry>, u: string): User {
    User(first.phone, first.email, first.passwordHash,
         if EverLocked(env, first, log, u) then UserLocked else first.status,
         Strikes(env, first, log, u), LockEnd(env, first, log, u))
  }

  // ----- devices, challenges and sessions -----

  /** A key counts if it was enrolled after the last registration and not revoked since. */
  predicate HasKey(env: Env, log: seq<Entry>, d: string) {
    var j := Last(env, log, Enrolled(d));
    j > Last(env, log, Registered(d)) && j > Last(env, log, Withdrawn(d))
  }

  /** The last enrolment's key. */
  function KeyOf(env: Env, log: seq<Entry>, d: string): string
    requires HasKey(env, log, d)
  {
    log[Last(env, log, Enrolled(d))].event.enroll.publicKey
  }

  /** The record of a device: from its last registration, and the last enrolment and revocation since. */
  function DeviceAt(env: Env, log: seq<Entry>, d: string): Option<Device> {
    var r, j := Last(env, log, Registered(d)), Last(env, log, Enrolled(d));
    var v, s := Last(env, log, Withdrawn(d)), Last(env, log, Seen(d));
    if r < 0 then None
    else
      Some(Device(
        log[r].outcome.userId,
        HasKey(env, log, d),
        if HasKey(env, log, d) then KeyOf(env, log, d) else "",
        if j > r then log[j].event.enroll.keyId else "",
        if j > r then log[j].event.enroll.isRooted else log[r].event.login.isRooted,
        if j > r then log[j].event.enroll.isJailbroken else log[r].event.login.isJailbroken,
        if v > r then DeviceRevoked else DeviceActive,
        log[Max(r, s)].now,
        if j > r then Some(log[j].now) else None,
        if v > r then Some(log[v].now) else None,
        if v > r then log[v].event.revokedBy else ""))
  }

  /** The last instant at which the challenge granted by entry `g` can be used. */
  function Deadline(env: Env, log: seq<Entry>, g: int): int
    requires 0 <= g < |log|
  {
    log[g].now + env.cfg.challengeTTL
  }

  /** A cleanup after entry `g` came past the deadline. */
  ghost predicate Dropped(env: Env, log: seq<Entry>, g: int)
    requires 0 <= g < |log|
  {
    exists k :: g < k < |log| && log[k].event.DeleteExpired? && log[k].now > Deadline(env, log, g)
  }

  /** The record of a challenge: as requested, sealed, and used at the time of the call that used it up. */
  ghost function ChallengeAt(env: Env, log: seq<Entry>, id: string): Option<Challenge> {
    var g, s := Last(env, log, Granted(id)), Last(env, log, Used(id));
    if g < 0 || Dropped(env, log, g) then None
    else
      var ev, until := log[g].event, Deadline(env, log, g);
      Some(Challenge(ev.nonce, ev.userId, ev.deviceId, ev.action, env.seal(ev.nonce, ev.deviceId, ev.action, until),
                     until, if s > g then Some(log[s].now) else None))
  }

  /** The last entry that ended the session created by entry `c`. */
  function EndOf(env: Env, log: seq<Entry>, s: string, c: int): int
    requires 0 <= c < |log| && Creates(log[c], s)
  {
    Last(env, log, End(s, log[c].outcome.userId, log[c].event.draws.family))
  }

  /** The last entry that handed out a token for the session created by entry `c`. */
  function Newest(env: Env, log: seq<Entry>, s: string, c: int): int {
    Max(c, Last(env, log, Renewal(s)))
  }

  /** The newest refresh token of the session created by entry `c`. */
  function NewestText(env: Env, log: seq<Entry>, s: string, c: int): string
    requires 0 <= c < |log| && Creates(log[c], s)
  {
    log[Newest(env, log, s, c)].outcome.pair.refresh
  }

  /** The record of a session: from the login that created it, its last renewal and its last end. */
  function SessionAt(env: Env, log: seq<Entry>, s: string): Option<Session> {
    var c := Last(env, log, Created(s));
    if c < 0 then None
    else
      var k := EndOf(env, log, s, c);
      Some(Session(
        log[c].outcome.userId, log[c].event.login.deviceId,
        env.hash(NewestText(env, log, s, c)), log[c].event.draws.family,
        log[Newest(env, log, s, c)].now, CountAfter(env, log, c, Renewal(s)),
        if k <= c then Active else if log[k].event.Refresh? then Replayed else Revoked,
        log[c].now + env.cfg.refreshTTL))
  }

  // ----- answers -----

  /** Why a challenge cannot be used at `now`, if it cannot. */
  ghost function ChallengeError(env: Env, log: seq<Entry>, now: int, id: string, device: string,
                                action: string): Option<Error> {
    var g := Last(env, log, Granted(id));
    if g < 0 || Dropped(env, log, g) then Some(ChallengeInvalid)
    else if Last(env, log, Used(id)) > g then Some(ChallengeUsed)
    else if now > Deadline(env, log, g) then Some(ChallengeExpired)
    else if log[g].event.deviceId != device || log[g].event.action != action then Some(ChallengeInvalid)
    else None
  }

  /** Who owns a device: the user of its last registration. */
  function OwnerOf(env: Env, log: seq<Entry>, d: string): Option<string> {
    var r := Last(env, log, Registered(d));
    if r < 0 then None else Some(log[r].outcome.userId)
  }

  ghost function BiometricError(env: Env, log: seq<Entry>, now: nat, req: AuthRequest): Option<Error> {
    var d := req.deviceId;
    if req.isRooted || req.isJailbroken then Some(RootedDevice)
    else if OwnerOf(env, log, d) != Some(req.userId) then Some(DeviceNotFound)
    else if Last(env, log, Withdrawn(d)) > Last(env, log, Registered(d)) then Some(DeviceNotActive)
    else if !HasKey(env, log, d) || KeyOf(env, log, d) == "" then Some(BiometricDisabled)
    else
      var e := ChallengeError(env, log, now, req.challengeId, d, "authenticate");
      if e.Some? then e
      else if !Drift.Fresh(req.timestamp, now) then Some(TimestampDrift)
      else if !env.checkSignature(env.cfg.signatureAlgo, KeyOf(env, log, d),
                Messages.SignedPayload(req.nonce, d, "authenticate", req.timestamp), req.signature) then
        Some(SignatureInvalid)
      else None
  }

  ghost function EnrollError(env: Env, log: seq<Entry>, now: nat, req: EnrollRequest): Option<Error> {
    if req.isRooted || req.isJailbroken then Some(RootedDevice)
    else
      var e := ChallengeError(env, log, now, req.challengeId, req.deviceId, "enroll");
      if e.Some? then e
      else if !Drift.Fresh(req.timestamp, now) then Some(TimestampDrift)
      else if !env.validKey(req.publicKey, req.keyAlgo) then Some(InvalidPublicKey)
      else if !env.checkSignature(req.keyAlgo, req.publicKey,
                Messages.SignedPayload(req.challengeId, req.deviceId, "enroll", req.timestamp), req.signature) then
        Some(SignatureInvalid)
      else OwnershipError(env, log, req.deviceId, req.userId)
  }

  function OwnershipError(env: Env, log: seq<Entry>, d: string, user: string): Option<Error> {
    var owner := OwnerOf(env, log, d);
    if owner.None? then Some(DeviceNotFound) else if owner.value != user then Some(DeviceOwnership) else None
  }

  function LoginError(env: Env, users: Users, log: seq<Entry>, now: nat, req: LoginRequest,
                      found: Option<string>): Option<Error> {
    if found.None? || found.value !in users then Some(InvalidCredentials)
    else
      var first := users[found.value];
      var lock := LockEnd(env, first, log, found.value);
      if first.status.UserDisabled? then Some(AccountDisabled)
      else if lock.Some? && now < lock.value then Some(AccountLocked)
      else if !env.checkPassword(req.password, first.passwordHash) then Some(InvalidCredentials)
      else None
  }

  function RefreshError(env: Env, log: seq<Entry>, v: Verified, raw: string, device: string): Option<Error> {
    if !v.Valid? || v.payload.typ != REFRESH then Some(TokenInvalid)
    else if v.payload.deviceId != device then Some(DeviceMismatch)
    else
      var s := v.payload.sessionId;
      var c := Last(env, log, Created(s));
      if c < 0 || EndOf(env, log, s, c) > c then Some(TokenRevoked)
      else if env.hash(raw) != env.hash(NewestText(env, log, s, c)) then Some(FamilyCompromised)
      else None
  }

  /** The answer that the history demands. */
  ghost function AnswerTo(env: Env, users: Users, log: seq<Entry>, now: nat, ev: Event): Outcome {
    match ev
    case Login(req, found, draws) =>
      var e := LoginError(env, users, log, now, req, found);
      if e.Some? then Denied(e.value)
      else
        LoggedIn(found.value,
                 PairFor(env, found.value, req.deviceId, draws.sessionId, draws.family, now, draws.accessJti,
                         draws.refreshJti))
    case Refresh(raw, device, ja, jr) =>
      var v := env.verify(raw, env.cfg.refreshSecret, Unix(now));
      var e := RefreshError(env, log, v, raw, device);
      if e.Some? then Denied(e.value)
      else Renewed(PairFor(env, v.payload.sub, device, v.payload.sessionId, v.payload.family, now, ja, jr))
    case Exchange(req, sid, ja, jr) =>
      ExchangeAnswer(env, log, BiometricError(env, log, now, req), now, req, sid, ja, jr)
    case Logout(sid) => if Last(env, log, Created(sid)) < 0 then Crashed else Done
    case LogoutAll(_) => Done
    case GetChallenge(user, device, action, _, nonce) =>
      var until := now + env.cfg.challengeTTL;
      ChallengeIssued(Challenge(nonce, user, device, action, env.seal(nonce, device, action, until), until, None))
    case Enroll(req) =>
      var e := EnrollError(env, log, now, req);
      if e.Some? then Denied(e.value) else Done
    case Authenticate(req) =>
      var e := BiometricError(env, log, now, req);
      if e.Some? then Denied(e.value) else Done
    case AuthorizePayment(req, sid, jti) =>
      PaymentAnswer(env, BiometricError(env, log, now, req), now, req, sid, jti)
    case RevokeDevice(device, user, _) =>
      var e := OwnershipError(env, log, device, user);
      if e.Some? then Denied(e.value) else Done
    case DeleteExpired => Done
  }

  /** The answer to an exchange, given the error of its biometric check, if any. */
  function ExchangeAnswer(env: Env, log: seq<Entry>, e: Option<Error>, now: nat, req: AuthRequest, sid: string,
                          accessJti: string, refreshJti: string): Outcome {
    var c := Last(env, log, Created(sid));
    if e.Some? then Denied(e.value)
    else if c < 0 then Denied(TokenRevoked)
    else Renewed(PairFor(env, req.userId, req.deviceId, sid, log[c].event.draws.family, now, accessJti, refreshJti))
  }

  /** The answer to a payment, given the error of its biometric check, if any: a step-up token for the caller. */
  function PaymentAnswer(env: Env, e: Option<Error>, now: nat, req: AuthRequest, sid: string, jti: string): Outcome {
    if e.Some? then Denied(e.value)
    else
      StepUpIssued(env.sign(
        TokenPayload(req.userId, req.deviceId, sid, "access", "", true, Some(Unix(now + env.cfg.stepUpTTL)),
                     Unix(now), Unix(now + env.cfg.accessTTL), jti), env.cfg.accessSecret))
  }

  /** An access and a refresh token for the same user, device, session and family, without step-up. */
  function PairFor(env: Env, user: string, device: string, session: string, family: string, now: int,
                   accessJti: string, refreshJti: string): Pair {
    Pair(env.sign(TokenPayload(user, device, session, "access", family, false, None, Unix(now),
                               Unix(now + env.cfg.accessTTL), accessJti), env.cfg.accessSecret),
         env.sign(TokenPayload(user, device, session, "refresh", family, false, None, Unix(now),
                               Unix(now + env.cfg.refreshTTL), refreshJti), env.cfg.refreshSecret))
  }
}
