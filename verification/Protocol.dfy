/**
 * The service as a state machine: users, devices, sessions and challenges, one function per service
 * call, and the histories that the theorems about whole runs speak of.
 */
module Protocol {
  import opened Basics
  import opened Tokens
  import Drift
  import Messages

  // ----- configuration and primitives -----

  datatype Config = Config(
    accessSecret: string, refreshSecret: string,
    accessTTL: int, refreshTTL: int, stepUpTTL: int, challengeTTL: int,
    signatureAlgo: string, maxLoginAttempts: int, lockoutDuration: int)

  /** Everything the services compute outside their own state. */
  datatype Env = Env(
    cfg: Config,
    sign: (TokenPayload, string) -> string,
    verify: (string, string, int) -> Verified,
    hash: string -> string,
    checkPassword: (string, string) -> bool,
    seal: (string, string, string, int) -> string,
    sealMatches: (string, string, string, int, string) -> bool,
    validKey: (string, string) -> bool,
    checkSignature: (string, string, string, string) -> bool)

  /** Signed tokens verify until they expire, and seals match the fields they were made from. */
  ghost predicate Sound(env: Env) {
    && (forall p, k, t :: env.verify(env.sign(p, k), k, t) == if t > p.exp then Expired else Valid(p))
    && (forall n, d, a, e :: env.sealMatches(n, d, a, e, env.seal(n, d, a, e)))
  }

  // ----- records -----

  datatype UserStatus = UserActive | UserLocked | UserDisabled

  datatype User = User(
    phone: string, email: string, passwordHash: string, status: UserStatus,
    failedAttempts: int, lockedUntil: Option<int>)

  datatype DeviceStatus = DeviceActive | DeviceRevoked | DeviceBlocked

  datatype Device = Device(
    userId: string, biometricEnabled: bool, publicKey: string, keyId: string,
    isRooted: bool, isJailbroken: bool, status: DeviceStatus,
    lastSeenAt: int, enrolledAt: Option<int>, revokedAt: Option<int>, revokedBy: string)

  datatype SessionStatus = Active | Revoked | Replayed

  datatype Session = Session(
    userId: string, deviceId: string, refreshHash: string, family: string,
    lastUsedAt: int, useCount: int, status: SessionStatus, expiresAt: int)

  datatype Challenge = Challenge(
    nonce: string, userId: string, deviceId: string, action: string,
    hmac: string, expiresAt: int, usedAt: Option<int>)

  type Users = map<string, User>
  type Devices = map<string, Device>
  type Sessions = map<string, Session>
  type Challenges = map<string, Challenge>

  datatype Core = Core(users: Users, devices: Devices, sessions: Sessions, challenges: Challenges)

  // ----- requests and answers -----

  /** The random IDs drawn when a session is created. */
  datatype Draws = Draws(sessionId: string, family: string, accessJti: string, refreshJti: string)

  datatype LoginRequest = LoginRequest(
    identifier: string, password: string, deviceId: string, isRooted: bool, isJailbroken: bool)

  datatype AuthRequest = AuthRequest(
    userId: string, deviceId: string, challengeId: string, nonce: string, signature: string,
    timestamp: Drift.int64, isRooted: bool, isJailbroken: bool)

  datatype EnrollRequest = EnrollRequest(
    userId: string, deviceId: string, challengeId: string, publicKey: string, keyId: string,
    keyAlgo: string, signature: string, timestamp: Drift.int64, isRooted: bool, isJailbroken: bool)

  datatype Event =
    | Login(login: LoginRequest, found: Option<string>, draws: Draws)
    | Refresh(raw: string, deviceId: string, accessJti: string, refreshJti: string)
    | Exchange(auth: AuthRequest, sessionId: string, accessJti: string, refreshJti: string)
    | Logout(sessionId: string)
    | LogoutAll(userId: string)
    | GetChallenge(userId: string, deviceId: string, action: string, challengeId: string, nonce: string)
    | Enroll(enroll: EnrollRequest)
    | Authenticate(auth: AuthRequest)
    | AuthorizePayment(auth: AuthRequest, sessionId: string, jti: string)
    | RevokeDevice(deviceId: string, userId: string, revokedBy: string)
    | DeleteExpired

  datatype Error =
    | InvalidCredentials | AccountDisabled | AccountLocked
    | TokenInvalid | DeviceMismatch | TokenRevoked | FamilyCompromised
    | ChallengeInvalid | ChallengeUsed | ChallengeExpired
    | RootedDevice | DeviceNotFound | DeviceNotActive | DeviceOwnership | BiometricDisabled
    | TimestampDrift | InvalidPublicKey | SignatureInvalid

  datatype Pair = Pair(access: string, refresh: string)

  datatype Outcome =
    | LoggedIn(userId: string, pair: Pair)
    | Renewed(pair: Pair)
    | ChallengeIssued(challenge: Challenge)
    | StepUpIssued(token: string)
    | Done
    | Denied(error: Error)
    | Crashed

  datatype Reply = Reply(core: Core, outcome: Outcome)

  // ----- tokens and sessions -----

  function IssuePair(env: Env, user: string, device: string, session: string, family: string,
                     now: int, accessJti: string, refreshJti: string): Pair {
    Pair(env.sign(AccessPayload(user, device, session, family, now, env.cfg.accessTTL, accessJti),
                  env.cfg.accessSecret),
         env.sign(RefreshPayload(user, device, session, family, now, env.cfg.refreshTTL, refreshJti),
                  env.cfg.refreshSecret))
  }

  function NewSession(env: Env, user: string, device: string, family: string, refresh: string, now: int): Session {
    Session(user, device, env.hash(refresh), family, now, 0, Active, now + env.cfg.refreshTTL)
  }

  /** The same three fields are written by rotation and by biometric exchange. */
  function Renew(env: Env, s: Session, refresh: string, now: int): Session {
    s.(refreshHash := env.hash(refresh), lastUsedAt := now, useCount := s.useCount + 1)
  }

  function RevokeFamily(sessions: Sessions, family: string, status: SessionStatus): Sessions {
    map k | k in sessions :: if sessions[k].family == family then sessions[k].(status := status) else sessions[k]
  }

  function RevokeAllByUser(sessions: Sessions, user: string): Sessions {
    map k | k in sessions :: if sessions[k].userId == user then sessions[k].(status := Revoked) else sessions[k]
  }

  /** RotateRefreshToken */
  function Rotate(env: Env, sessions: Sessions, now: int, raw: string, deviceId: string,
                  accessJti: string, refreshJti: string): (Sessions, Outcome) {
    var v := env.verify(raw, env.cfg.refreshSecret, Unix(now));
    if !v.Valid? || v.payload.typ != REFRESH then (sessions, Denied(TokenInvalid))
    else
      var p := v.payload;
      if p.deviceId != deviceId then (sessions, Denied(DeviceMismatch))
      else if p.sessionId !in sessions || sessions[p.sessionId].status != Active then (sessions, Denied(TokenRevoked))
      else if env.hash(raw) != sessions[p.sessionId].refreshHash then
        (RevokeFamily(sessions, p.family, Replayed), Denied(FamilyCompromised))
      else
        var pair := IssuePair(env, p.sub, p.deviceId, p.sessionId, p.family, now, accessJti, refreshJti);
        (sessions[p.sessionId := Renew(env, sessions[p.sessionId], pair.refresh, now)], Renewed(pair))
  }

  // ----- challenges -----

  function NewChallenge(env: Env, user: string, device: string, action: string, nonce: string, now: int): Challenge {
    var expiry := now + env.cfg.challengeTTL;
    Challenge(nonce, user, device, action, env.seal(nonce, device, action, expiry), expiry, None)
  }

  datatype Consumption = Consumption(challenges: Challenges, error: Option<Error>)

  /** consumeChallenge */
  function Consume(env: Env, challenges: Challenges, now: int, id: string, device: string,
                   action: string): Consumption {
    if id !in challenges then Consumption(challenges, Some(ChallengeInvalid))
    else
      var c := challenges[id];
      if c.usedAt.Some? then Consumption(challenges, Some(ChallengeUsed))
      else if now > c.expiresAt then Consumption(challenges, Some(ChallengeExpired))
      else if c.deviceId != device || c.action != action
              || !env.sealMatches(c.nonce, c.deviceId, c.action, c.expiresAt, c.hmac) then
        Consumption(challenges, Some(ChallengeInvalid))
      else Consumption(challenges[id := c.(usedAt := Some(now))], None)
  }

  function WithoutExpired(challenges: Challenges, now: int): Challenges {
    map id | id in challenges && !(now > challenges[id].expiresAt) :: challenges[id]
  }

  const ENROLL := "enroll"
  const AUTHENTICATE := "authenticate"

  // ----- devices -----

  /** RegisterDevice always stores a new record, active and without a key. */
  function NewDevice(user: string, req: LoginRequest, now: int): Device {
    Device(user, false, "", "", req.isRooted, req.isJailbroken, DeviceActive, now, None, None, "")
  }

  function EnableBiometric(d: Device, req: EnrollRequest, now: int): Device {
    d.(biometricEnabled := true, publicKey := req.publicKey, keyId := req.keyId,
       isRooted := req.isRooted, isJailbroken := req.isJailbroken, enrolledAt := Some(now))
  }

  function Revoke(d: Device, revokedBy: string, now: int): Device {
    d.(status := DeviceRevoked, revokedAt := Some(now), revokedBy := revokedBy,
       biometricEnabled := false, publicKey := "")
  }

  /** The part of EnableBiometric that may refuse. */
  function EnableError(devices: Devices, device: string, user: string): Option<Error> {
    if device !in devices then Some(DeviceNotFound)
    else if devices[device].userId != user then Some(DeviceOwnership)
    else None
  }

  /** Authenticate up to the challenge: the device must exist, be the user's, be active and hold a key. */
  function DeviceGate(devices: Devices, req: AuthRequest): Option<Error> {
    if req.isRooted || req.isJailbroken then Some(RootedDevice)
    else if req.deviceId !in devices || devices[req.deviceId].userId != req.userId then Some(DeviceNotFound)
    else if devices[req.deviceId].status != DeviceActive then Some(DeviceNotActive)
    else if !devices[req.deviceId].biometricEnabled || devices[req.deviceId].publicKey == "" then
      Some(BiometricDisabled)
    else None
  }

  datatype Authentication = Authentication(devices: Devices, challenges: Challenges, error: Option<Error>)

  function CheckBiometric(env: Env, devices: Devices, challenges: Challenges, now: nat,
                          req: AuthRequest): Authentication {
    var gate := DeviceGate(devices, req);
    if gate.Some? then Authentication(devices, challenges, gate)
    else
      var c := Consume(env, challenges, now, req.challengeId, req.deviceId, AUTHENTICATE);
      if c.error.Some? then Authentication(devices, c.challenges, c.error)
      else if !Drift.Fresh(req.timestamp, now) then Authentication(devices, c.challenges, Some(TimestampDrift))
      else if !env.checkSignature(env.cfg.signatureAlgo, devices[req.deviceId].publicKey,
                Messages.SignedPayload(req.nonce, req.deviceId, AUTHENTICATE, req.timestamp), req.signature) then
        Authentication(devices, c.challenges, Some(SignatureInvalid))
      else
        Authentication(devices[req.deviceId := devices[req.deviceId].(lastSeenAt := now)], c.challenges, None)
  }

  function EnrollDevice(env: Env, devices: Devices, challenges: Challenges, now: nat,
                        req: EnrollRequest): Authentication {
    if req.isRooted || req.isJailbroken then Authentication(devices, challenges, Some(RootedDevice))
    else
      var c := Consume(env, challenges, now, req.challengeId, req.deviceId, ENROLL);
      if c.error.Some? then Authentication(devices, c.challenges, c.error)
      else if !Drift.Fresh(req.timestamp, now) then Authentication(devices, c.challenges, Some(TimestampDrift))
      else if !env.validKey(req.publicKey, req.keyAlgo) then
        Authentication(devices, c.challenges, Some(InvalidPublicKey))
      else if !env.checkSignature(req.keyAlgo, req.publicKey,
                Messages.SignedPayload(req.challengeId, req.deviceId, ENROLL, req.timestamp), req.signature) then
        Authentication(devices, c.challenges, Some(SignatureInvalid))
      else
        var e := EnableError(devices, req.deviceId, req.userId);
        if e.Some? then Authentication(devices, c.challenges, e)
        else
          Authentication(devices[req.deviceId := EnableBiometric(devices[req.deviceId], req, now)], c.challenges, None)
  }

  // ----- login -----

  /** handleFailedLogin */
  function FailedLogin(cfg: Config, u: User, now: int): User {
    var n := u.failedAttempts + 1;
    if n >= cfg.maxLoginAttempts then
      u.(failedAttempts := n, lockedUntil := Some(now + cfg.lockoutDuration), status := UserLocked)
    else u.(failedAttempts := n)
  }

  predicate Locked(u: User, now: int) {
    u.lockedUntil.Some? && now < u.lockedUntil.value
  }

  /** None: the password is checked. */
  function LoginGate(u: User, now: int): Option<Error> {
    if u.status == UserDisabled then Some(AccountDisabled)
    else if Locked(u, now) then Some(AccountLocked)
    else None
  }

  /** What a login does once the password is right. */
  function AdmitStep(env: Env, core: Core, now: int, id: string, req: LoginRequest, draws: Draws): Reply
    requires id in core.users
  {
    var pair := IssuePair(env, id, req.deviceId, draws.sessionId, draws.family, now, draws.accessJti, draws.refreshJti);
    var session := NewSession(env, id, req.deviceId, draws.family, pair.refresh, now);
    Reply(Core(core.users[id := core.users[id].(failedAttempts := 0, lockedUntil := None)],
               core.devices[req.deviceId := NewDevice(id, req, now)],
               core.sessions[draws.sessionId := session],
               core.challenges),
          LoggedIn(id, pair))
  }

  function LoginStep(env: Env, core: Core, now: int, req: LoginRequest, found: Option<string>, draws: Draws): Reply {
    if found.None? || found.value !in core.users then Reply(core, Denied(InvalidCredentials))
    else
      var id := found.value;
      var u := core.users[id];
      var gate := LoginGate(u, now);
      if gate.Some? then Reply(core, Denied(gate.value))
      else if !env.checkPassword(req.password, u.passwordHash) then
        Reply(core.(users := core.users[id := FailedLogin(env.cfg, u, now)]), Denied(InvalidCredentials))
      else
        AdmitStep(env, core, now, id, req, draws)
  }

  /** What is left of an exchange after the biometric check `a`. */
  function ExchangeAfter(env: Env, core: Core, a: Authentication, now: nat, req: AuthRequest, sid: string,
                         accessJti: string, refreshJti: string): Reply {
    var c := core.(devices := a.devices, challenges := a.challenges);
    if a.error.Some? then Reply(c, Denied(a.error.value))
    else if sid !in core.sessions then Reply(c, Denied(TokenRevoked))
    else
      var s := core.sessions[sid];
      var pair := IssuePair(env, req.userId, req.deviceId, sid, s.family, now, accessJti, refreshJti);
      Reply(c.(sessions := core.sessions[sid := Renew(env, s, pair.refresh, now)]), Renewed(pair))
  }

  /** ExchangeBiometricToken: the session is looked up only after the biometric check. */
  function ExchangeStep(env: Env, core: Core, now: nat, req: AuthRequest, sid: string,
                        accessJti: string, refreshJti: string): Reply {
    ExchangeAfter(env, core, CheckBiometric(env, core.devices, core.challenges, now, req), now, req, sid,
                  accessJti, refreshJti)
  }

  function AuthenticateStep(env: Env, core: Core, now: nat, req: AuthRequest): Reply {
    var a := CheckBiometric(env, core.devices, core.challenges, now, req);
    Reply(core.(devices := a.devices, challenges := a.challenges),
          if a.error.Some? then Denied(a.error.value) else Done)
  }

  /** AuthorizePayment: a biometric check, then a step-up token for the caller's session. */
  function PaymentStep(env: Env, core: Core, now: nat, req: AuthRequest, sid: string, jti: string): Reply {
    var r := AuthenticateStep(env, core, now, req);
    if r.outcome.Denied? then r
    else
      var payload := StepUpPayload(req.userId, req.deviceId, sid, now, env.cfg.accessTTL, env.cfg.stepUpTTL, jti);
      r.(outcome := StepUpIssued(env.sign(payload, env.cfg.accessSecret)))
  }

  function EnrollStep(env: Env, core: Core, now: nat, req: EnrollRequest): Reply {
    var a := EnrollDevice(env, core.devices, core.challenges, now, req);
    Reply(core.(devices := a.devices, challenges := a.challenges),
          if a.error.Some? then Denied(a.error.value) else Done)
  }

  function RevokeDeviceStep(core: Core, now: int, device: string, user: string, revokedBy: string): Reply {
    var e := EnableError(core.devices, device, user);
    if e.Some? then Reply(core, Denied(e.value))
    else Reply(core.(devices := core.devices[device := Revoke(core.devices[device], revokedBy, now)]), Done)
  }

  /** RevokeSession dereferences a missing session: the call panics. */
  function LogoutStep(core: Core, sid: string): Reply {
    if sid !in core.sessions then Reply(core, Crashed)
    else Reply(core.(sessions := core.sessions[sid := core.sessions[sid].(status := Revoked)]), Done)
  }

  function Step(env: Env, core: Core, now: nat, ev: Event): Reply {
    match ev
    case Login(req, found, draws) => LoginStep(env, core, now, req, found, draws)
    case Refresh(raw, device, ja, jr) =>
      var (sessions, outcome) := Rotate(env, core.sessions, now, raw, device, ja, jr);
      Reply(core.(sessions := sessions), outcome)
    case Exchange(req, sid, ja, jr) => ExchangeStep(env, core, now, req, sid, ja, jr)
    case Logout(sid) => LogoutStep(core, sid)
    case LogoutAll(user) => Reply(core.(sessions := RevokeAllByUser(core.sessions, user)), Done)
    case GetChallenge(user, device, action, id, nonce) =>
      var c := NewChallenge(env, user, device, action, nonce, now);
      Reply(core.(challenges := core.challenges[id := c]), ChallengeIssued(c))
    case Enroll(req) => EnrollStep(env, core, now, req)
    case Authenticate(req) => AuthenticateStep(env, core, now, req)
    case AuthorizePayment(req, sid, jti) => PaymentStep(env, core, now, req, sid, jti)
    case RevokeDevice(device, user, who) => RevokeDeviceStep(core, now, device, user, who)
    case DeleteExpired => Reply(core.(challenges := WithoutExpired(core.challenges, now)), Done)
  }

  // ----- runs and their histories -----

  datatype Call = Call(now: nat, event: Event)

  datatype Entry = Entry(now: nat, event: Event, outcome: Outcome)

  /** A refresh token as it was handed out. */
  datatype Issue = Issue(raw: string, payload: TokenPayload)

  /** The state with its histories: all calls, all refresh tokens, all challenges ever issued, the
      challenges consumed so far in order, and every random ID drawn. */
  datatype World = World(
    core: Core, now: nat, log: seq<Entry>, issued: seq<Issue>,
    granted: Challenges, consumed: seq<string>, used: set<string>)

  function Start(users: Users): World {
    World(Core(users, map[], map[], map[]), 0, [], [], map[], [], {})
  }

  function Drawn(ev: Event): seq<string> {
    match ev
    case Login(_, _, d) => [d.sessionId, d.family, d.accessJti, d.refreshJti]
    case Refresh(_, _, ja, jr) => [ja, jr]
    case Exchange(_, _, ja, jr) => [ja, jr]
    case GetChallenge(_, _, _, id, _) => [id]
    case AuthorizePayment(_, _, jti) => [jti]
    case _ => []
  }

  /** The refresh token a call hands out, if any. */
  function Handed(env: Env, core: Core, now: nat, ev: Event): seq<Issue> {
    var outcome := Step(env, core, now, ev).outcome;
    match ev
    case Login(req, _, d) =>
      if outcome.LoggedIn? then
        [Issue(outcome.pair.refresh,
               RefreshPayload(outcome.userId, req.deviceId, d.sessionId, d.family, now, env.cfg.refreshTTL,
                              d.refreshJti))]
      else []
    case Refresh(raw, _, _, jr) =>
      var v := env.verify(raw, env.cfg.refreshSecret, Unix(now));
      if outcome.Renewed? && v.Valid? then
        [Issue(outcome.pair.refresh,
               RefreshPayload(v.payload.sub, v.payload.deviceId, v.payload.sessionId, v.payload.family, now,
                              env.cfg.refreshTTL, jr))]
      else []
    case Exchange(req, sid, _, jr) =>
      if outcome.Renewed? && sid in core.sessions then
        [Issue(outcome.pair.refresh,
               RefreshPayload(req.userId, req.deviceId, sid, core.sessions[sid].family, now, env.cfg.refreshTTL, jr))]
      else []
    case _ => []
  }

  /** The challenge that a call presents once its earlier checks have passed: ID, device, action. */
  function Presented(core: Core, ev: Event): Option<(string, string, string)> {
    match ev
    case Enroll(req) =>
      if req.isRooted || req.isJailbroken then None else Some((req.challengeId, req.deviceId, ENROLL))
    case Exchange(req, _, _, _) =>
      if DeviceGate(core.devices, req).Some? then None else Some((req.challengeId, req.deviceId, AUTHENTICATE))
    case Authenticate(req) =>
      if DeviceGate(core.devices, req).Some? then None else Some((req.challengeId, req.deviceId, AUTHENTICATE))
    case AuthorizePayment(req, _, _) =>
      if DeviceGate(core.devices, req).Some? then None else Some((req.challengeId, req.deviceId, AUTHENTICATE))
    case _ => None
  }

  /** The challenge a call consumes, if any. */
  function Spent(env: Env, core: Core, now: nat, ev: Event): seq<string> {
    var p := Presented(core, ev);
    if p.Some? && Consume(env, core.challenges, now, p.value.0, p.value.1, p.value.2).error.None? then [p.value.0]
    else []
  }

  function Do(env: Env, w: World, call: Call): World {
    var r := Step(env, w.core, call.now, call.event);
    World(r.core, call.now,
          w.log + [Entry(call.now, call.event, r.outcome)],
          w.issued + Handed(env, w.core, call.now, call.event),
          if call.event.GetChallenge? && r.outcome.ChallengeIssued? then
            w.granted[call.event.challengeId := r.outcome.challenge]
          else w.granted,
          w.consumed + Spent(env, w.core, call.now, call.event),
          w.used + (set d | d in Drawn(call.event)))
  }

  /** FindByIdentifier may return any matching user, and fails only if there is none. */
  predicate Finds(users: Users, identifier: string, found: Option<string>) {
    if found.Some? then
      found.value in users && (users[found.value].phone == identifier || users[found.value].email == identifier)
    else
      forall id <- users :: users[id].phone != identifier && users[id].email != identifier
  }

  /** What the world outside guarantees about a call: the clock does not go back, random IDs are new, and a
      presented token does not collide with an issued one under SHA-256. */
  ghost predicate Outside(env: Env, w: World, call: Call) {
    && w.now <= call.now
    && Distinct(Drawn(call.event))
    && (forall d <- Drawn(call.event) :: d !in w.used)
    && (call.event.Refresh? ==>
          forall i :: 0 <= i < |w.issued| && env.hash(w.issued[i].raw) == env.hash(call.event.raw) ==>
            w.issued[i].raw == call.event.raw)
  }

  /** A call that can happen: the user lookup is right, too. */
  ghost predicate Enabled(env: Env, w: World, call: Call) {
    && Outside(env, w, call)
    && (call.event.Login? ==> Finds(w.core.users, call.event.login.identifier, call.event.found))
  }

  function Exec(env: Env, w: World, calls: seq<Call>): World
    decreases |calls|
  {
    if calls == [] then w else Exec(env, Do(env, w, calls[0]), calls[1..])
  }

  ghost predicate Legal(env: Env, w: World, calls: seq<Call>)
    decreases |calls|
  {
    calls == [] || (Enabled(env, w, calls[0]) && Legal(env, Do(env, w, calls[0]), calls[1..]))
  }

  lemma FirstCall(env: Env, w: World, call: Call, calls: seq<Call>)
    ensures Exec(env, w, [call] + calls) == Exec(env, Do(env, w, call), calls)
    ensures Legal(env, w, [call] + calls) <==> Enabled(env, w, call) && Legal(env, Do(env, w, call), calls)
  {
    var all := [call] + calls;
    assert all[0] == call && all[1..] == calls;
  }

  lemma {:induction false} LastCall(env: Env, w: World, calls: seq<Call>, call: Call)
    ensures Exec(env, w, calls + [call]) == Do(env, Exec(env, w, calls), call)
    ensures Legal(env, w, calls + [call]) <==> Legal(env, w, calls) && Enabled(env, Exec(env, w, calls), call)
    decreases |calls|
  {
    if calls == [] {
      assert [] + [call] == [call];
      FirstCall(env, w, call, []);
    } else {
      assert calls + [call] == [calls[0]] + (calls[1..] + [call]);
      FirstCall(env, w, calls[0], calls[1..] + [call]);
      LastCall(env, Do(env, w, calls[0]), calls[1..], call);
    }
  }
}
