/** The services, written as they run: pointers fetched from the repositories and changed in place. Each call
    is proved to do exactly what the state machine says. */
module Services {
  import opened Basics
  import opened Protocol
  import opened Tables
  import opened Tokens
  import Drift
  import Messages

  class TokenService {
    const env: Env
    const sessions: Table<Session>

    constructor (env: Env)
      ensures this.env == env && fresh(sessions)
      ensures sessions.Valid() && sessions.refs == {} && sessions.View() == map[]
    {
      this.env := env;
      sessions := new Table();
    }

    /** RotateRefreshToken */
    method RotateRefreshToken(now: nat, raw: string, deviceId: string, accessJti: string, refreshJti: string)
      returns (o: Outcome)
      requires sessions.Valid()
      modifies sessions.refs
      ensures sessions.Valid()
      ensures (sessions.View(), o) == Rotate(env, old(sessions.View()), now, raw, deviceId, accessJti, refreshJti)
    {
      var v := env.verify(raw, env.cfg.refreshSecret, Unix(now));
      if !v.Valid? {
        return Denied(TokenInvalid);
      }
      var p := v.payload;
      if p.typ != REFRESH {
        return Denied(TokenInvalid);
      }
      if p.deviceId != deviceId {
        return Denied(DeviceMismatch);
      }
      var session := sessions.Get(p.sessionId);
      if session == null || session.v.status != Active {
        return Denied(TokenRevoked);
      }
      if env.hash(raw) != session.v.refreshHash {
        RevokeFamilyMembers(p.family, Replayed);
        return Denied(FamilyCompromised);
      }
      var pair := IssuePair(env, p.sub, p.deviceId, p.sessionId, p.family, now, accessJti, refreshJti);
      sessions.Write(p.sessionId, session, Renew(env, session.v, pair.refresh, now));
      o := Renewed(pair);
    }

    /** The session repository's RevokeFamily */
    method RevokeFamilyMembers(family: string, status: SessionStatus)
      requires sessions.Valid()
      modifies sessions.refs
      ensures sessions.Valid() && sessions.View() == RevokeFamily(old(sessions.View()), family, status)
    {
      sessions.UpdateWhere((s: Session) => s.family == family, (s: Session) => s.(status := status));
    }

    /** The second half of ExchangeBiometricToken: a new pair for an existing session, whatever its status. */
    method ReissueFor(now: nat, user: string, device: string, sid: string, accessJti: string, refreshJti: string)
      returns (pair: Option<Pair>)
      requires sessions.Valid()
      modifies sessions.refs
      ensures sessions.Valid() && (pair.Some? <==> sid in old(sessions.View()))
      ensures pair.None? ==> sessions.View() == old(sessions.View())
      ensures pair.Some? ==>
                var s := old(sessions.View())[sid];
                && pair.value == IssuePair(env, user, device, sid, s.family, now, accessJti, refreshJti)
                && sessions.View() == old(sessions.View())[sid := Renew(env, s, pair.value.refresh, now)]
    {
      var session := sessions.Get(sid);
      if session == null {
        return None;
      }
      var next := IssuePair(env, user, device, sid, session.v.family, now, accessJti, refreshJti);
      sessions.Write(sid, session, Renew(env, session.v, next.refresh, now));
      pair := Some(next);
    }

    /** createSession */
    method CreateSession(now: nat, user: string, device: string, draws: Draws) returns (pair: Pair)
      requires sessions.Valid()
      modifies sessions
      ensures sessions.Valid()
      ensures pair ==
              IssuePair(env, user, device, draws.sessionId, draws.family, now, draws.accessJti, draws.refreshJti)
      ensures sessions.View() ==
              old(sessions.View())[draws.sessionId := NewSession(env, user, device, draws.family, pair.refresh, now)]
      ensures sessions.Grown()
    {
      pair := IssuePair(env, user, device, draws.sessionId, draws.family, now, draws.accessJti, draws.refreshJti);
      sessions.Store(draws.sessionId, NewSession(env, user, device, draws.family, pair.refresh, now));
    }

    /** RevokeSession: false stands for the panic on a missing session. */
    method RevokeSession(sid: string) returns (ok: bool)
      requires sessions.Valid()
      modifies sessions.refs
      ensures sessions.Valid() && (ok <==> sid in old(sessions.View()))
      ensures sessions.View() ==
              if ok then old(sessions.View())[sid := old(sessions.View())[sid].(status := Revoked)]
              else old(sessions.View())
    {
      var session := sessions.Get(sid);
      if session == null {
        return false;
      }
      sessions.Write(sid, session, session.v.(status := Revoked));
      ok := true;
    }

    /** RevokeAllUserSessions */
    method RevokeAllUserSessions(user: string)
      requires sessions.Valid()
      modifies sessions.refs
      ensures sessions.Valid() && sessions.View() == RevokeAllByUser(old(sessions.View()), user)
    {
      sessions.UpdateWhere((s: Session) => s.userId == user, (s: Session) => s.(status := Revoked));
    }
  }

  class DeviceService {
    const devices: Table<Device>

    constructor ()
      ensures fresh(devices) && devices.Valid() && devices.refs == {} && devices.View() == map[]
    {
      devices := new Table();
    }

    method RegisterDevice(now: nat, user: string, req: LoginRequest)
      requires devices.Valid()
      modifies devices
      ensures devices.Valid() && devices.View() == old(devices.View())[req.deviceId := NewDevice(user, req, now)]
      ensures devices.Grown()
    {
      devices.Store(req.deviceId, NewDevice(user, req, now));
    }

    method EnableKey(now: nat, req: EnrollRequest) returns (error: Option<Error>)
      requires devices.Valid()
      modifies devices.refs
      ensures devices.Valid() && error == EnableError(old(devices.View()), req.deviceId, req.userId)
      ensures devices.View() ==
              if error.Some? then old(devices.View())
              else old(devices.View())[req.deviceId := EnableBiometric(old(devices.View())[req.deviceId], req, now)]
    {
      var device := devices.Get(req.deviceId);
      if device == null {
        return Some(DeviceNotFound);
      }
      if device.v.userId != req.userId {
        return Some(DeviceOwnership);
      }
      devices.Write(req.deviceId, device, EnableBiometric(device.v, req, now));
      error := None;
    }

    method RevokeOne(now: nat, id: string, user: string, revokedBy: string) returns (error: Option<Error>)
      requires devices.Valid()
      modifies devices.refs
      ensures devices.Valid() && error == EnableError(old(devices.View()), id, user)
      ensures devices.View() ==
              if error.Some? then old(devices.View())
              else old(devices.View())[id := Revoke(old(devices.View())[id], revokedBy, now)]
    {
      var device := devices.Get(id);
      if device == null {
        return Some(DeviceNotFound);
      }
      if device.v.userId != user {
        return Some(DeviceOwnership);
      }
      devices.Write(id, device, Revoke(device.v, revokedBy, now));
      error := None;
    }
  }

  class BiometricService {
    const env: Env
    const deviceSvc: DeviceService
    const challenges: Table<Challenge>

    ghost predicate Valid()
      reads this, deviceSvc, deviceSvc.devices, challenges
    {
      deviceSvc.devices.Valid() && challenges.Valid()
    }

    constructor (env: Env, deviceSvc: DeviceService)
      requires deviceSvc.devices.Valid()
      ensures this.env == env && this.deviceSvc == deviceSvc && fresh(challenges)
      ensures Valid() && challenges.refs == {} && challenges.View() == map[]
    {
      this.env := env;
      this.deviceSvc := deviceSvc;
      challenges := new Table();
    }

    method IssueChallenge(now: nat, user: string, device: string, action: string, id: string, nonce: string)
      returns (c: Challenge)
      requires challenges.Valid()
      modifies challenges
      ensures challenges.Valid() && c == NewChallenge(env, user, device, action, nonce, now)
      ensures challenges.View() == old(challenges.View())[id := c]
      ensures challenges.Grown()
    {
      c := NewChallenge(env, user, device, action, nonce, now);
      challenges.Store(id, c);
    }

    /** consumeChallenge */
    method ConsumeChallenge(now: nat, id: string, device: string, action: string) returns (error: Option<Error>)
      requires challenges.Valid()
      modifies challenges.refs
      ensures challenges.Valid()
      ensures Consumption(challenges.View(), error) == Consume(env, old(challenges.View()), now, id, device, action)
    {
      var challenge := challenges.Get(id);
      if challenge == null {
        return Some(ChallengeInvalid);
      }
      var c := challenge.v;
      if c.usedAt.Some? {
        return Some(ChallengeUsed);
      }
      if now > c.expiresAt {
        return Some(ChallengeExpired);
      }
      if c.deviceId != device || c.action != action {
        return Some(ChallengeInvalid);
      }
      if !env.sealMatches(c.nonce, c.deviceId, c.action, c.expiresAt, c.hmac) {
        return Some(ChallengeInvalid);
      }
      challenges.Write(id, challenge, c.(usedAt := Some(now)));
      error := None;
    }

    /** The challenge repository's DeleteExpired */
    method DropExpired(now: nat)
      requires challenges.Valid()
      modifies challenges
      ensures challenges.Valid() && challenges.View() == WithoutExpired(old(challenges.View()), now)
      ensures challenges.refs == old(challenges.refs)
    {
      challenges.DeleteWhere((c: Challenge) => now > c.expiresAt);
    }

    /** Authenticate */
    method CheckSignature(now: nat, req: AuthRequest) returns (error: Option<Error>)
      requires Valid()
      modifies deviceSvc.devices.refs, challenges.refs
      ensures Valid()
      ensures Authentication(deviceSvc.devices.View(), challenges.View(), error) ==
              CheckBiometric(env, old(deviceSvc.devices.View()), old(challenges.View()), now, req)
    {
      if req.isRooted || req.isJailbroken {
        return Some(RootedDevice);
      }
      var device := deviceSvc.devices.Get(req.deviceId);
      if device == null || device.v.userId != req.userId {
        return Some(DeviceNotFound);
      }
      if device.v.status != DeviceActive {
        return Some(DeviceNotActive);
      }
      if !device.v.biometricEnabled || device.v.publicKey == "" {
        return Some(BiometricDisabled);
      }
      error := ConsumeChallenge(now, req.challengeId, req.deviceId, AUTHENTICATE);
      if error.Some? {
        return;
      }
      if !Drift.Fresh(req.timestamp, now) {
        return Some(TimestampDrift);
      }
      var payload := Messages.SignedPayload(req.nonce, req.deviceId, AUTHENTICATE, req.timestamp);
      if !env.checkSignature(env.cfg.signatureAlgo, device.v.publicKey, payload, req.signature) {
        return Some(SignatureInvalid);
      }
      deviceSvc.devices.Write(req.deviceId, device, device.v.(lastSeenAt := now));
    }

    method EnrollKey(now: nat, req: EnrollRequest) returns (error: Option<Error>)
      requires Valid()
      modifies deviceSvc.devices.refs, challenges.refs
      ensures Valid()
      ensures Authentication(deviceSvc.devices.View(), challenges.View(), error) ==
              EnrollDevice(env, old(deviceSvc.devices.View()), old(challenges.View()), now, req)
    {
      if req.isRooted || req.isJailbroken {
        return Some(RootedDevice);
      }
      error := ConsumeChallenge(now, req.challengeId, req.deviceId, ENROLL);
      if error.Some? {
        return;
      }
      if !Drift.Fresh(req.timestamp, now) {
        return Some(TimestampDrift);
      }
      if !env.validKey(req.publicKey, req.keyAlgo) {
        return Some(InvalidPublicKey);
      }
      var payload := Messages.SignedPayload(req.challengeId, req.deviceId, ENROLL, req.timestamp);
      if !env.checkSignature(req.keyAlgo, req.publicKey, payload, req.signature) {
        return Some(SignatureInvalid);
      }
      error := deviceSvc.EnableKey(now, req);
    }
  }

  class AuthService {
    const env: Env
    const users: Table<User>
    const tokenSvc: TokenService
    const biometricSvc: BiometricService

    ghost predicate Valid()
      reads this, users, tokenSvc, tokenSvc.sessions, biometricSvc, biometricSvc.deviceSvc,
            biometricSvc.deviceSvc.devices, biometricSvc.challenges
    {
      users.Valid() && tokenSvc.sessions.Valid() && biometricSvc.Valid()
      && tokenSvc.env == env && biometricSvc.env == env
    }

    ghost function State(): Core
      requires Valid()
      reads this, users, users.refs, tokenSvc, tokenSvc.sessions, tokenSvc.sessions.refs,
            biometricSvc, biometricSvc.deviceSvc, biometricSvc.deviceSvc.devices, biometricSvc.deviceSvc.devices.refs,
            biometricSvc.challenges, biometricSvc.challenges.refs
    {
      Core(users.View(), biometricSvc.deviceSvc.devices.View(), tokenSvc.sessions.View(),
           biometricSvc.challenges.View())
    }

    /** No table was exchanged and every record gained is a new object, so calls can follow one another. */
    twostate predicate Grown()
      reads this, users, tokenSvc, tokenSvc.sessions, biometricSvc, biometricSvc.deviceSvc,
            biometricSvc.deviceSvc.devices, biometricSvc.challenges
    {
      && users.refs == old(users.refs) && tokenSvc.sessions.Grown()
      && biometricSvc.deviceSvc.devices.Grown() && biometricSvc.challenges.Grown()
    }

    /** The tables hold the same records, though these may have changed. */
    twostate predicate SameRecords()
      reads this, users, tokenSvc, tokenSvc.sessions, biometricSvc, biometricSvc.deviceSvc,
            biometricSvc.deviceSvc.devices, biometricSvc.challenges
    {
      && users.refs == old(users.refs) && tokenSvc.sessions.refs == old(tokenSvc.sessions.refs)
      && biometricSvc.deviceSvc.devices.refs == old(biometricSvc.deviceSvc.devices.refs)
      && biometricSvc.challenges.refs == old(biometricSvc.challenges.refs)
    }

    /** A service that starts with the given users. */
    constructor (env: Env, initial: Users)
      ensures this.env == env && Valid() && State() == Start(initial).core
      ensures fresh(users.refs) && fresh(tokenSvc.sessions) && fresh(biometricSvc.deviceSvc.devices)
      ensures fresh(biometricSvc.challenges) && tokenSvc.sessions.refs == {}
      ensures biometricSvc.deviceSvc.devices.refs == {} && biometricSvc.challenges.refs == {}
    {
      var sessions := new TokenService(env);
      var devices := new DeviceService();
      var biometrics := new BiometricService(env, devices);
      this.env := env;
      tokenSvc := sessions;
      biometricSvc := biometrics;
      users := new Table.Seeded(initial);
    }

    /** FindByIdentifier */
    method FindByIdentifier(identifier: string) returns (found: Option<string>)
      requires Valid()
      ensures Valid() && SameRecords() && State() == old(State())
      ensures Finds(State().users, identifier, found)
    {
      found := users.FindWhere((u: User) => u.phone == identifier || u.email == identifier);
    }

    /** The user record through its pointer; the other tables are not touched. */
    method WriteUser(id: string, user: Ref<User>, u: User)
      requires Valid() && id in users.rows && users.rows[id] == user
      modifies user
      ensures Valid() && State() == old(State()).(users := old(State()).users[id := u])
    {
      users.Write(id, user, u);
    }

    /** handleFailedLogin */
    method HandleFailedLogin(now: nat, id: string, user: Ref<User>)
      requires Valid() && id in users.rows && users.rows[id] == user
      modifies user
      ensures Valid()
      ensures State() ==
              old(State()).(users := old(State()).users[id := FailedLogin(env.cfg, old(State()).users[id], now)])
    {
      var u := user.v.(failedAttempts := user.v.failedAttempts + 1);
      if u.failedAttempts >= env.cfg.maxLoginAttempts {
        u := u.(lockedUntil := Some(now + env.cfg.lockoutDuration), status := UserLocked);
      }
      WriteUser(id, user, u);
    }

    method RegisterDevice(now: nat, user: string, req: LoginRequest)
      requires Valid()
      modifies biometricSvc.deviceSvc.devices
      ensures Valid() && biometricSvc.deviceSvc.devices.Grown()
      ensures State() == old(State()).(devices := old(State()).devices[req.deviceId := NewDevice(user, req, now)])
    {
      biometricSvc.deviceSvc.RegisterDevice(now, user, req);
    }

    /** createSession */
    method CreateSession(now: nat, user: string, device: string, draws: Draws) returns (pair: Pair)
      requires Valid()
      modifies tokenSvc.sessions
      ensures Valid() && tokenSvc.sessions.Grown()
      ensures pair ==
              IssuePair(env, user, device, draws.sessionId, draws.family, now, draws.accessJti, draws.refreshJti)
      ensures var session := NewSession(env, user, device, draws.family, pair.refresh, now);
              State() == old(State()).(sessions := old(State()).sessions[draws.sessionId := session])
    {
      pair := tokenSvc.CreateSession(now, user, device, draws);
    }

    /** What Login does once the password is right. */
    method AdmitUser(now: nat, id: string, user: Ref<User>, req: LoginRequest, draws: Draws) returns (o: Outcome)
      requires Valid() && id in users.rows && users.rows[id] == user
      modifies user, biometricSvc.deviceSvc.devices, tokenSvc.sessions
      ensures Valid() && biometricSvc.deviceSvc.devices.Grown() && tokenSvc.sessions.Grown()
      ensures Reply(State(), o) == AdmitStep(env, old(State()), now, id, req, draws)
    {
      WriteUser(id, user, user.v.(failedAttempts := 0, lockedUntil := None));
      RegisterDevice(now, id, req);
      var pair := CreateSession(now, id, req.deviceId, draws);
      o := LoggedIn(id, pair);
    }

    /** Login of a user whom the gates let through. */
    method TryPassword(now: nat, id: string, user: Ref<User>, req: LoginRequest, draws: Draws) returns (o: Outcome)
      requires Valid() && id in users.rows && users.rows[id] == user && LoginGate(user.v, now).None?
      modifies user, biometricSvc.deviceSvc.devices, tokenSvc.sessions
      ensures Valid() && biometricSvc.deviceSvc.devices.Grown() && tokenSvc.sessions.Grown()
      ensures Reply(State(), o) == LoginStep(env, old(State()), now, req, Some(id), draws)
    {
      if !env.checkPassword(req.password, user.v.passwordHash) {
        HandleFailedLogin(now, id, user);
        return Denied(InvalidCredentials);
      }
      o := AdmitUser(now, id, user, req, draws);
    }

    /** Login of a user that was found. */
    method SignInAs(now: nat, id: string, req: LoginRequest, draws: Draws) returns (o: Outcome)
      requires Valid() && id in State().users
      modifies users.refs, biometricSvc.deviceSvc.devices, tokenSvc.sessions
      ensures Valid() && biometricSvc.deviceSvc.devices.Grown() && tokenSvc.sessions.Grown()
      ensures Reply(State(), o) == LoginStep(env, old(State()), now, req, Some(id), draws)
    {
      var user := users.Get(id);
      var u := user.v;
      if u.status == UserDisabled {
        return Denied(AccountDisabled);
      }
      if u.lockedUntil.Some? && now < u.lockedUntil.value {
        return Denied(AccountLocked);
      }
      o := TryPassword(now, id, user, req, draws);
    }

    /** Login; `found` is the user that the lookup happened to return. */
    method SignIn(now: nat, req: LoginRequest, draws: Draws) returns (o: Outcome, found: Option<string>)
      requires Valid()
      modifies users.refs, biometricSvc.deviceSvc.devices, tokenSvc.sessions
      ensures Valid() && Grown()
      ensures Finds(old(State()).users, req.identifier, found)
      ensures Reply(State(), o) == LoginStep(env, old(State()), now, req, found, draws)
    {
      found := FindByIdentifier(req.identifier);
      if found.None? {
        return Denied(InvalidCredentials), found;
      }
      o := SignInAs(now, found.value, req, draws);
    }

    /** The biometric check; users and sessions are not touched. */
    method Authenticate(now: nat, req: AuthRequest) returns (error: Option<Error>)
      requires Valid()
      modifies biometricSvc.deviceSvc.devices.refs, biometricSvc.challenges.refs
      ensures Valid() && SameRecords()
      ensures var a := CheckBiometric(env, old(State()).devices, old(State()).challenges, now, req);
              error == a.error && State() == old(State()).(devices := a.devices, challenges := a.challenges)
    {
      error := biometricSvc.CheckSignature(now, req);
    }

    /** Authenticate as a call of its own. */
    method VerifyUser(now: nat, req: AuthRequest) returns (o: Outcome)
      requires Valid()
      modifies biometricSvc.deviceSvc.devices.refs, biometricSvc.challenges.refs
      ensures Valid() && SameRecords()
      ensures Reply(State(), o) == AuthenticateStep(env, old(State()), now, req)
    {
      var error := Authenticate(now, req);
      o := if error.Some? then Denied(error.value) else Done;
    }

    /** A new pair for a session; the other tables are not touched. */
    method Reissue(now: nat, user: string, device: string, sid: string, accessJti: string, refreshJti: string)
      returns (pair: Option<Pair>)
      requires Valid()
      modifies tokenSvc.sessions.refs
      ensures Valid() && SameRecords() && (pair.Some? <==> sid in old(State()).sessions)
      ensures pair.None? ==> State() == old(State())
      ensures pair.Some? ==>
                var s := old(State()).sessions[sid];
                && pair.value == IssuePair(env, user, device, sid, s.family, now, accessJti, refreshJti)
                && State() ==
                   old(State()).(sessions := old(State()).sessions[sid := Renew(env, s, pair.value.refresh, now)])
    {
      pair := tokenSvc.ReissueFor(now, user, device, sid, accessJti, refreshJti);
    }

    /** ExchangeBiometricToken */
    method ExchangeToken(now: nat, req: AuthRequest, sid: string, accessJti: string, refreshJti: string)
      returns (o: Outcome)
      requires Valid()
      modifies biometricSvc.deviceSvc.devices.refs, biometricSvc.challenges.refs, tokenSvc.sessions.refs
      ensures Valid() && SameRecords()
      ensures Reply(State(), o) == ExchangeStep(env, old(State()), now, req, sid, accessJti, refreshJti)
    {
      var error := Authenticate(now, req);
      if error.Some? {
        return Denied(error.value);
      }
      var pair := Reissue(now, req.userId, req.deviceId, sid, accessJti, refreshJti);
      o := if pair.None? then Denied(TokenRevoked) else Renewed(pair.value);
    }

    /** RefreshToken */
    method RefreshToken(now: nat, raw: string, deviceId: string, accessJti: string, refreshJti: string)
      returns (o: Outcome)
      requires Valid()
      modifies tokenSvc.sessions.refs
      ensures Valid() && SameRecords()
      ensures Reply(State(), o) == Step(env, old(State()), now, Refresh(raw, deviceId, accessJti, refreshJti))
    {
      o := tokenSvc.RotateRefreshToken(now, raw, deviceId, accessJti, refreshJti);
    }

    /** Logout */
    method SignOut(now: nat, sid: string) returns (o: Outcome)
      requires Valid()
      modifies tokenSvc.sessions.refs
      ensures Valid() && SameRecords()
      ensures Reply(State(), o) == Step(env, old(State()), now, Logout(sid))
    {
      var ok := tokenSvc.RevokeSession(sid);
      o := if ok then Done else Crashed;
    }

    /** LogoutAll */
    method SignOutAll(now: nat, user: string) returns (o: Outcome)
      requires Valid()
      modifies tokenSvc.sessions.refs
      ensures Valid() && SameRecords()
      ensures Reply(State(), o) == Step(env, old(State()), now, LogoutAll(user))
    {
      tokenSvc.RevokeAllUserSessions(user);
      o := Done;
    }

    /** AuthorizePayment */
    method AuthorizeSpending(now: nat, req: AuthRequest, sid: string, jti: string) returns (o: Outcome)
      requires Valid()
      modifies biometricSvc.deviceSvc.devices.refs, biometricSvc.challenges.refs
      ensures Valid() && SameRecords()
      ensures Reply(State(), o) == PaymentStep(env, old(State()), now, req, sid, jti)
    {
      var error := Authenticate(now, req);
      if error.Some? {
        return Denied(error.value);
      }
      var payload := StepUpPayload(req.userId, req.deviceId, sid, now, env.cfg.accessTTL, env.cfg.stepUpTTL, jti);
      o := StepUpIssued(env.sign(payload, env.cfg.accessSecret));
    }

    /** GetChallenge */
    method GiveChallenge(now: nat, user: string, device: string, action: string, id: string, nonce: string)
      returns (o: Outcome)
      requires Valid()
      modifies biometricSvc.challenges
      ensures Valid() && Grown()
      ensures Reply(State(), o) == Step(env, old(State()), now, GetChallenge(user, device, action, id, nonce))
    {
      var c := biometricSvc.IssueChallenge(now, user, device, action, id, nonce);
      o := ChallengeIssued(c);
    }

    /** Enroll */
    method EnrollDeviceKey(now: nat, req: EnrollRequest) returns (o: Outcome)
      requires Valid()
      modifies biometricSvc.deviceSvc.devices.refs, biometricSvc.challenges.refs
      ensures Valid() && SameRecords()
      ensures Reply(State(), o) == EnrollStep(env, old(State()), now, req)
    {
      var error := biometricSvc.EnrollKey(now, req);
      assert users.View() == old(users.View()) && tokenSvc.sessions.View() == old(tokenSvc.sessions.View());
      o := if error.Some? then Denied(error.value) else Done;
    }

    /** RevokeDevice */
    method WithdrawDevice(now: nat, id: string, user: string, revokedBy: string) returns (o: Outcome)
      requires Valid()
      modifies biometricSvc.deviceSvc.devices.refs
      ensures Valid() && SameRecords()
      ensures Reply(State(), o) == RevokeDeviceStep(old(State()), now, id, user, revokedBy)
    {
      var error := biometricSvc.deviceSvc.RevokeOne(now, id, user, revokedBy);
      o := if error.Some? then Denied(error.value) else Done;
    }

    /** One round of the cleanup */
    method SweepChallenges(now: nat) returns (o: Outcome)
      requires Valid()
      modifies biometricSvc.challenges
      ensures Valid() && Grown()
      ensures Reply(State(), o) == Step(env, old(State()), now, DeleteExpired)
    {
      biometricSvc.DropExpired(now);
      o := Done;
    }

    /** Any call whatsoever is one step of the state machine; `done` is the call with the user that the lookup
        returned, if it was a login. */
    method Handle(now: nat, ev: Event) returns (o: Outcome, done: Event)
      requires Valid()
      modifies users.refs, tokenSvc.sessions, tokenSvc.sessions.refs, biometricSvc.deviceSvc.devices,
               biometricSvc.deviceSvc.devices.refs, biometricSvc.challenges, biometricSvc.challenges.refs
      ensures Valid() && Grown()
      ensures if ev.Login?
              then done.Login? && done == ev.(found := done.found)
                   && Finds(old(State()).users, ev.login.identifier, done.found)
              else done == ev
      ensures Reply(State(), o) == Step(env, old(State()), now, done)
    {
      done := ev;
      match ev
      case Login(req, _, draws) =>
        var found;
        o, found := SignIn(now, req, draws);
        done := Login(req, found, draws);
      case Refresh(raw, device, ja, jr) => o := RefreshToken(now, raw, device, ja, jr);
      case Exchange(req, sid, ja, jr) => o := ExchangeToken(now, req, sid, ja, jr);
      case Logout(sid) => o := SignOut(now, sid);
      case LogoutAll(user) => o := SignOutAll(now, user);
      case GetChallenge(user, device, action, id, nonce) => o := GiveChallenge(now, user, device, action, id, nonce);
      case Enroll(req) => o := EnrollDeviceKey(now, req);
      case Authenticate(req) => o := VerifyUser(now, req);
      case AuthorizePayment(req, sid, jti) => o := AuthorizeSpending(now, req, sid, jti);
      case RevokeDevice(device, user, who) => o := WithdrawDevice(now, device, user, who);
      case DeleteExpired => o := SweepChallenges(now);
    }
  }
}
