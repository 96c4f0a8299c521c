/** Every answer of the service is the one that the history demands, and what that means for each kind of call. */
module Answers {
  import opened Basics
  import opened History
  import opened Protocol
  import opened Tokens
  import Drift
  import Messages
  import Records

  // ----- one call -----

  lemma ConsumeFromLog(env: Env, cs: Challenges, log: seq<Entry>, now: int, id: string, device: string, action: string)
    requires Sound(env) && Find(cs, id) == ChallengeAt(env, log, id)
    ensures Consume(env, cs, now, id, device, action).error == ChallengeError(env, log, now, id, device, action)
  {
  }

  lemma GateFromLog(env: Env, devices: Devices, log: seq<Entry>, req: AuthRequest)
    requires Find(devices, req.deviceId) == DeviceAt(env, log, req.deviceId)
    ensures DeviceGate(devices, req) ==
            if req.isRooted || req.isJailbroken then Some(RootedDevice)
            else if OwnerOf(env, log, req.deviceId) != Some(req.userId) then Some(DeviceNotFound)
            else if Last(env, log, Withdrawn(req.deviceId)) > Last(env, log, Registered(req.deviceId)) then
              Some(DeviceNotActive)
            else if !HasKey(env, log, req.deviceId) || KeyOf(env, log, req.deviceId) == "" then Some(BiometricDisabled)
            else None
    ensures DeviceGate(devices, req).None? ==> devices[req.deviceId].publicKey == KeyOf(env, log, req.deviceId)
  {
  }

  lemma CheckFromLog(env: Env, core: Core, log: seq<Entry>, now: nat, req: AuthRequest)
    requires Sound(env) && Find(core.devices, req.deviceId) == DeviceAt(env, log, req.deviceId)
    requires Find(core.challenges, req.challengeId) == ChallengeAt(env, log, req.challengeId)
    ensures CheckBiometric(env, core.devices, core.challenges, now, req).error == BiometricError(env, log, now, req)
  {
    GateFromLog(env, core.devices, log, req);
    ConsumeFromLog(env, core.challenges, log, now, req.challengeId, req.deviceId, AUTHENTICATE);
  }

  lemma OwnershipFromLog(env: Env, devices: Devices, log: seq<Entry>, d: string, user: string)
    requires Find(devices, d) == DeviceAt(env, log, d)
    ensures EnableError(devices, d, user) == OwnershipError(env, log, d, user)
  {
  }

  lemma EnrollFromLog(env: Env, core: Core, log: seq<Entry>, now: nat, req: EnrollRequest)
    requires Sound(env) && Find(core.devices, req.deviceId) == DeviceAt(env, log, req.deviceId)
    requires Find(core.challenges, req.challengeId) == ChallengeAt(env, log, req.challengeId)
    ensures EnrollDevice(env, core.devices, core.challenges, now, req).error == EnrollError(env, log, now, req)
  {
    OwnershipFromLog(env, core.devices, log, req.deviceId, req.userId);
    ConsumeFromLog(env, core.challenges, log, now, req.challengeId, req.deviceId, ENROLL);
  }

  lemma LoginFromLog(env: Env, users: Users, w: World, now: nat, ev: Event)
    requires Records.AccountsFromLog(env, users, w) && ev.Login?
    ensures Step(env, w.core, now, ev).outcome == AnswerTo(env, users, w.log, now, ev)
  {
  }

  lemma RefreshFromLog(env: Env, users: Users, w: World, now: nat, ev: Event)
    requires (forall s :: Find(w.core.sessions, s) == SessionAt(env, w.log, s)) && ev.Refresh?
    ensures Step(env, w.core, now, ev).outcome == AnswerTo(env, users, w.log, now, ev)
  {
    var v := env.verify(ev.raw, env.cfg.refreshSecret, Unix(now));
    if v.Valid? {
      assert Find(w.core.sessions, v.payload.sessionId) == SessionAt(env, w.log, v.payload.sessionId);
    }
  }

  lemma ExchangeAfterFromLog(env: Env, core: Core, log: seq<Entry>, a: Authentication, now: nat, req: AuthRequest,
                             sid: string, ja: string, jr: string)
    requires Find(core.sessions, sid) == SessionAt(env, log, sid)
    ensures ExchangeAfter(env, core, a, now, req, sid, ja, jr).outcome ==
            ExchangeAnswer(env, log, a.error, now, req, sid, ja, jr)
  {
  }

  lemma ExchangeFromLog(env: Env, core: Core, log: seq<Entry>, now: nat, req: AuthRequest, sid: string, ja: string,
                        jr: string)
    requires Sound(env) && Find(core.devices, req.deviceId) == DeviceAt(env, log, req.deviceId)
    requires Find(core.challenges, req.challengeId) == ChallengeAt(env, log, req.challengeId)
    requires Find(core.sessions, sid) == SessionAt(env, log, sid)
    ensures ExchangeStep(env, core, now, req, sid, ja, jr).outcome ==
            ExchangeAnswer(env, log, BiometricError(env, log, now, req), now, req, sid, ja, jr)
  {
    CheckFromLog(env, core, log, now, req);
    var a := CheckBiometric(env, core.devices, core.challenges, now, req);
    ExchangeAfterFromLog(env, core, log, a, now, req, sid, ja, jr);
  }

  lemma LogoutFromLog(env: Env, users: Users, w: World, now: nat, ev: Event)
    requires (forall s :: Find(w.core.sessions, s) == SessionAt(env, w.log, s)) && ev.Logout?
    ensures Step(env, w.core, now, ev).outcome == AnswerTo(env, users, w.log, now, ev)
  {
    assert Find(w.core.sessions, ev.sessionId) == SessionAt(env, w.log, ev.sessionId);
  }

  lemma EnrollCallFromLog(env: Env, users: Users, w: World, now: nat, req: EnrollRequest)
    requires Sound(env) && Records.FromLog(env, users, w)
    ensures Step(env, w.core, now, Enroll(req)).outcome == AnswerTo(env, users, w.log, now, Enroll(req))
  {
    EnrollFromLog(env, w.core, w.log, now, req);
  }

  lemma CheckCallFromLog(env: Env, users: Users, w: World, now: nat, req: AuthRequest)
    requires Sound(env) && Records.FromLog(env, users, w)
    ensures Step(env, w.core, now, Authenticate(req)).outcome == AnswerTo(env, users, w.log, now, Authenticate(req))
  {
    CheckFromLog(env, w.core, w.log, now, req);
  }

  lemma PaymentGiven(env: Env, core: Core, now: nat, req: AuthRequest, sid: string, jti: string)
    ensures PaymentStep(env, core, now, req, sid, jti).outcome ==
            PaymentAnswer(env, CheckBiometric(env, core.devices, core.challenges, now, req).error, now, req, sid, jti)
  {
  }

  lemma PaymentFromLog(env: Env, core: Core, log: seq<Entry>, now: nat, req: AuthRequest, sid: string, jti: string)
    requires Sound(env) && Find(core.devices, req.deviceId) == DeviceAt(env, log, req.deviceId)
    requires Find(core.challenges, req.challengeId) == ChallengeAt(env, log, req.challengeId)
    ensures PaymentStep(env, core, now, req, sid, jti).outcome ==
            PaymentAnswer(env, BiometricError(env, log, now, req), now, req, sid, jti)
  {
    CheckFromLog(env, core, log, now, req);
    PaymentGiven(env, core, now, req, sid, jti);
  }

  lemma AnswerFromLog(env: Env, users: Users, w: World, now: nat, ev: Event)
    requires Sound(env) && Records.FromLog(env, users, w)
    ensures Step(env, w.core, now, ev).outcome == AnswerTo(env, users, w.log, now, ev)
  {
    match ev {
      case Login(_, _, _) => LoginFromLog(env, users, w, now, ev);
      case Refresh(_, _, _, _) => RefreshFromLog(env, users, w, now, ev);
      case Exchange(req, sid, ja, jr) => ExchangeFromLog(env, w.core, w.log, now, req, sid, ja, jr);
      case Logout(_) => LogoutFromLog(env, users, w, now, ev);
      case Enroll(req) => EnrollCallFromLog(env, users, w, now, req);
      case Authenticate(req) => CheckCallFromLog(env, users, w, now, req);
      case AuthorizePayment(req, sid, jti) => PaymentFromLog(env, w.core, w.log, now, req, sid, jti);
      case RevokeDevice(d, user, _) => OwnershipFromLog(env, w.core.devices, w.log, d, user);
      case _ =>
    }
  }

  // ----- every answer of every run -----

  /** Each entry of the log carries the answer that the entries before it demand. */
  ghost predicate SelfConsistent(env: Env, users: Users, log: seq<Entry>) {
    forall k :: 0 <= k < |log| ==> log[k].outcome == AnswerTo(env, users, log[..k], log[k].now, log[k].event)
  }

  lemma CallKeepsConsistent(env: Env, users: Users, w: World, call: Call)
    requires Sound(env) && Records.FromLog(env, users, w) && SelfConsistent(env, users, w.log)
    ensures SelfConsistent(env, users, Do(env, w, call).log)
  {
    var log' := Do(env, w, call).log;
    AnswerFromLog(env, users, w, call.now, call.event);
    forall k | 0 <= k < |log'|
      ensures log'[k].outcome == AnswerTo(env, users, log'[..k], log'[k].now, log'[k].event)
    {
      if k < |w.log| {
        assert log'[k] == w.log[k] && log'[..k] == w.log[..k];
      } else {
        assert log'[..k] == w.log;
      }
    }
  }

  lemma {:induction false} RunKeepsConsistent(env: Env, users: Users, w: World, calls: seq<Call>)
    requires Sound(env) && Records.FromLog(env, users, w) && SelfConsistent(env, users, w.log)
    ensures SelfConsistent(env, users, Exec(env, w, calls).log)
    decreases |calls|
  {
    if calls != [] {
      CallKeepsConsistent(env, users, w, calls[0]);
      Records.CallKeepsRecords(env, users, w, calls[0]);
      RunKeepsConsistent(env, users, Do(env, w, calls[0]), calls[1..]);
    }
  }

  /** After any calls whatsoever, every answer was the one demanded by the calls and answers before it, and so is
      the next one. The service is a function of its history. */
  lemma AnswersFromHistory(env: Env, users: Users, calls: seq<Call>, now: nat, ev: Event)
    requires Sound(env)
    ensures var w := Exec(env, Start(users), calls);
            && SelfConsistent(env, users, w.log)
            && Step(env, w.core, now, ev).outcome == AnswerTo(env, users, w.log, now, ev)
  {
    Records.StateFromHistory(env, users, calls);
    RunKeepsConsistent(env, users, Start(users), calls);
    AnswerFromLog(env, users, Exec(env, Start(users), calls), now, ev);
  }

  // ----- challenges of legal runs -----

  /** Entry `g` issued challenge `id` for this device and action. */
  predicate Grants(log: seq<Entry>, g: int, id: string, device: string, action: string) {
    && 0 <= g < |log| && log[g].event.GetChallenge? && log[g].event.challengeId == id
    && log[g].event.deviceId == device && log[g].event.action == action
  }

  ghost predicate NeverSpent(log: seq<Entry>, id: string) {
    forall k :: 0 <= k < |log| ==> SpentBy(log[k]) != Some(id)
  }

  /** Requested for this device and action, in time, and never used up by any call. */
  ghost predicate Open(env: Env, log: seq<Entry>, now: int, id: string, device: string, action: string) {
    && NeverSpent(log, id)
    && exists g :: Grants(log, g, id, device, action) && now <= log[g].now + env.cfg.challengeTTL
  }

  /** The log of a legal run: times do not go back, no challenge ID is issued twice, and one is used up at most once
      and only after it was issued. */
  ghost predicate Orderly(log: seq<Entry>) {
    && (forall i, j :: 0 <= i <= j < |log| ==> log[i].now <= log[j].now)
    && (forall i, j :: 0 <= i < j < |log| && log[i].event.GetChallenge? && log[j].event.GetChallenge? ==>
          log[i].event.challengeId != log[j].event.challengeId)
    && (forall k :: 0 <= k < |log| && SpentBy(log[k]).Some? ==> IssuedBefore(log, k, SpentBy(log[k]).value))
    && SpentOnce(log)
  }

  ghost predicate SpentOnce(log: seq<Entry>) {
    forall j, k :: 0 <= j < k < |log| && SpentBy(log[j]).Some? ==> SpentBy(log[k]) != SpentBy(log[j])
  }

  ghost predicate IssuedBefore(log: seq<Entry>, k: int, id: string)
    requires k <= |log|
  {
    exists g :: 0 <= g < k && log[g].event.GetChallenge? && log[g].event.challengeId == id
  }

  /** All of the log is past at `now`. */
  ghost predicate PastAt(log: seq<Entry>, now: int) {
    forall i :: 0 <= i < |log| ==> log[i].now <= now
  }

  ghost predicate ChallengesDrawn(log: seq<Entry>, used: set<string>) {
    forall i :: 0 <= i < |log| && log[i].event.GetChallenge? ==> log[i].event.challengeId in used
  }

  lemma SpentAfterIssue(env: Env, log: seq<Entry>, id: string)
    requires Orderly(log) && Last(env, log, Granted(id)) >= 0
    requires Last(env, log, Used(id)) <= Last(env, log, Granted(id))
    ensures NeverSpent(log, id)
  {
    assert forall k :: 0 <= k < |log| && SpentBy(log[k]) == Some(id) ==>
             Bears(env, log[k], Used(id)) && IssuedBefore(log, k, id);
  }

  lemma LastCovers(env: Env, log: seq<Entry>, m: Mark, k: int)
    requires 0 <= k < |log| && Bears(env, log[k], m)
    ensures k <= Last(env, log, m)
  {
  }

  /** In an orderly log, a challenge has no error iff it is open. */
  lemma OpenExactly(env: Env, log: seq<Entry>, now: int, id: string, device: string, action: string)
    requires Orderly(log) && PastAt(log, now)
    ensures ChallengeError(env, log, now, id, device, action).None? <==> Open(env, log, now, id, device, action)
  {
    var g := Last(env, log, Granted(id));
    if ChallengeError(env, log, now, id, device, action).None? {
      assert Grants(log, g, id, device, action);
      SpentAfterIssue(env, log, id);
    }
    if Open(env, log, now, id, device, action) {
      var i :| Grants(log, i, id, device, action) && now <= log[i].now + env.cfg.challengeTTL;
      LastCovers(env, log, Granted(id), i);
      assert g == i && !Dropped(env, log, g);
    }
  }

  ghost predicate OrderlyWorld(w: World) {
    Orderly(w.log) && PastAt(w.log, w.now) && ChallengesDrawn(w.log, w.used)
  }

  lemma SpendingIsNew(env: Env, users: Users, w: World, call: Call)
    requires Sound(env) && Records.FromLog(env, users, w) && OrderlyWorld(w) && Enabled(env, w, call)
    ensures var id := SpentBy(Records.Logged(env, w.core, call.now, call.event));
            id.Some? ==> NeverSpent(w.log, id.value) && IssuedBefore(w.log, |w.log|, id.value)
  {
    Records.SpendsAsLogged(env, w.core, call.now, call.event);
    var spent := Spent(env, w.core, call.now, call.event);
    if spent != [] {
      var p := Presented(w.core, call.event).value;
      ConsumeFromLog(env, w.core.challenges, w.log, call.now, p.0, p.1, p.2);
      OpenExactly(env, w.log, call.now, p.0, p.1, p.2);
    }
  }

  lemma OrderlyLonger(log: seq<Entry>, used: set<string>, e: Entry)
    requires Orderly(log) && PastAt(log, e.now) && ChallengesDrawn(log, used)
    requires e.event.GetChallenge? ==> e.event.challengeId !in used
    requires var id := SpentBy(e); id.Some? ==> NeverSpent(log, id.value) && IssuedBefore(log, |log|, id.value)
    ensures Orderly(log + [e])
  {
    var all := log + [e];
    forall k | 0 <= k < |all| && SpentBy(all[k]).Some? ensures IssuedBefore(all, k, SpentBy(all[k]).value) {
      var id := SpentBy(all[k]).value;
      assert IssuedBefore(log, k, id);
      var g :| 0 <= g < k && log[g].event.GetChallenge? && log[g].event.challengeId == id;
      assert all[g] == log[g];
    }
  }

  lemma CallKeepsOrderly(env: Env, users: Users, w: World, call: Call)
    requires Sound(env) && Records.FromLog(env, users, w) && OrderlyWorld(w) && Enabled(env, w, call)
    ensures OrderlyWorld(Do(env, w, call))
  {
    var e := Records.Logged(env, w.core, call.now, call.event);
    SpendingIsNew(env, users, w, call);
    assert call.event.GetChallenge? ==> Drawn(call.event)[0] == call.event.challengeId;
    OrderlyLonger(w.log, w.used, e);
  }

  lemma {:induction false} RunKeepsOrderly(env: Env, users: Users, w: World, calls: seq<Call>)
    requires Sound(env) && Records.FromLog(env, users, w) && OrderlyWorld(w) && Legal(env, w, calls)
    ensures OrderlyWorld(Exec(env, w, calls))
    decreases |calls|
  {
    if calls != [] {
      CallKeepsOrderly(env, users, w, calls[0]);
      Records.CallKeepsRecords(env, users, w, calls[0]);
      RunKeepsOrderly(env, users, Do(env, w, calls[0]), calls[1..]);
    }
  }

  lemma OrderlyRun(env: Env, users: Users, calls: seq<Call>)
    requires Sound(env) && Legal(env, Start(users), calls)
    ensures OrderlyWorld(Exec(env, Start(users), calls))
  {
    Records.StateFromHistory(env, users, []);
    RunKeepsOrderly(env, users, Start(users), calls);
  }

  /** After any legal run, for any ID, device and action: consuming succeeds iff some call requested that ID for
      them, no call has used it up, and its lifetime from that request on is not over; and no two calls of the run
      used up the same ID. */
  lemma ConsumeInEveryRun(env: Env, users: Users, calls: seq<Call>, now: nat, id: string, device: string,
                          action: string)
    requires Sound(env) && Legal(env, Start(users), calls) && Exec(env, Start(users), calls).now <= now
    ensures var w := Exec(env, Start(users), calls);
            && (Consume(env, w.core.challenges, now, id, device, action).error.None? <==>
                Open(env, w.log, now, id, device, action))
            && SpentOnce(w.log)
  {
    var w := Exec(env, Start(users), calls);
    Records.StateFromHistory(env, users, calls);
    OrderlyRun(env, users, calls);
    ConsumeFromLog(env, w.core.challenges, w.log, now, id, device, action);
    OpenExactly(env, w.log, now, id, device, action);
  }

  // ----- what success of each call means, in legal runs -----

  /** What an enrolment asks of the history: a sound device, an open challenge for it and "enroll", a fresh timestamp,
      a valid key, a signature under that key, and that the last registration of the device was by the same user. */
  ghost predicate MayEnroll(env: Env, log: seq<Entry>, now: nat, req: EnrollRequest) {
    && !req.isRooted && !req.isJailbroken
    && Open(env, log, now, req.challengeId, req.deviceId, "enroll")
    && Drift.Fresh(req.timestamp, now)
    && env.validKey(req.publicKey, req.keyAlgo)
    && env.checkSignature(req.keyAlgo, req.publicKey,
         Messages.SignedPayload(req.challengeId, req.deviceId, "enroll", req.timestamp), req.signature)
    && OwnerOf(env, log, req.deviceId) == Some(req.userId)
  }

  /** What a biometric check asks of the history: a sound device, last registered by the same user and not revoked
      since, a key enrolled since, an open challenge for it and "authenticate", a fresh timestamp and a signature under
      that key. */
  ghost predicate MayAuthenticate(env: Env, log: seq<Entry>, now: nat, req: AuthRequest) {
    && !req.isRooted && !req.isJailbroken
    && OwnerOf(env, log, req.deviceId) == Some(req.userId)
    && Last(env, log, Withdrawn(req.deviceId)) <= Last(env, log, Registered(req.deviceId))
    && HasKey(env, log, req.deviceId) && KeyOf(env, log, req.deviceId) != ""
    && Open(env, log, now, req.challengeId, req.deviceId, "authenticate")
    && Drift.Fresh(req.timestamp, now)
    && env.checkSignature(env.cfg.signatureAlgo, KeyOf(env, log, req.deviceId),
         Messages.SignedPayload(req.nonce, req.deviceId, "authenticate", req.timestamp), req.signature)
  }

  lemma EnrollDecided(env: Env, log: seq<Entry>, now: nat, req: EnrollRequest)
    requires Orderly(log) && PastAt(log, now)
    ensures EnrollError(env, log, now, req).None? <==> MayEnroll(env, log, now, req)
  {
    OpenExactly(env, log, now, req.challengeId, req.deviceId, "enroll");
  }

  lemma AuthenticateDecided(env: Env, log: seq<Entry>, now: nat, req: AuthRequest)
    requires Orderly(log) && PastAt(log, now)
    ensures BiometricError(env, log, now, req).None? <==> MayAuthenticate(env, log, now, req)
  {
    OpenExactly(env, log, now, req.challengeId, req.deviceId, "authenticate");
  }

  lemma OrderlyPrefix(log: seq<Entry>, k: int)
    requires Orderly(log) && 0 <= k < |log|
    ensures Orderly(log[..k]) && PastAt(log[..k], log[k].now)
  {
    var before := log[..k];
    forall i | 0 <= i < k && SpentBy(before[i]).Some? ensures IssuedBefore(before, i, SpentBy(before[i]).value) {
      var id := SpentBy(before[i]).value;
      assert IssuedBefore(log, i, id);
      var g :| 0 <= g < i && log[g].event.GetChallenge? && log[g].event.challengeId == id;
      assert before[g] == log[g];
    }
  }

  /** What the log of a legal run says about its own entries. */
  ghost predicate Explained(env: Env, users: Users, log: seq<Entry>) {
    SelfConsistent(env, users, log) && Orderly(log)
  }

  lemma ExplainedRun(env: Env, users: Users, calls: seq<Call>)
    requires Sound(env) && Legal(env, Start(users), calls)
    ensures Explained(env, users, Exec(env, Start(users), calls).log)
  {
    OrderlyRun(env, users, calls);
    AnswersFromHistory(env, users, calls, 0, DeleteExpired);
  }

  lemma EnrollEntry(env: Env, users: Users, log: seq<Entry>, k: int)
    requires Explained(env, users, log) && 0 <= k < |log| && log[k].event.Enroll?
    ensures log[k].outcome.Done? <==> MayEnroll(env, log[..k], log[k].now, log[k].event.enroll)
  {
    OrderlyPrefix(log, k);
    EnrollDecided(env, log[..k], log[k].now, log[k].event.enroll);
  }

  /** In every legal run an enrolment succeeded iff the history before it allowed it. */
  lemma EnrollInEveryRun(env: Env, users: Users, calls: seq<Call>, k: nat)
    requires Sound(env) && Legal(env, Start(users), calls)
    requires k < |Exec(env, Start(users), calls).log| && Exec(env, Start(users), calls).log[k].event.Enroll?
    ensures var log := Exec(env, Start(users), calls).log;
            log[k].outcome.Done? <==> MayEnroll(env, log[..k], log[k].now, log[k].event.enroll)
  {
    ExplainedRun(env, users, calls);
    EnrollEntry(env, users, Exec(env, Start(users), calls).log, k);
  }

  /** The request of a call that includes a biometric check. */
  function Asks(ev: Event): Option<AuthRequest> {
    match ev
    case Authenticate(req) => Some(req)
    case AuthorizePayment(req, _, _) => Some(req)
    case Exchange(req, _, _, _) => Some(req)
    case _ => None
  }

  lemma NoTokenRevoked(env: Env, log: seq<Entry>, now: nat, req: AuthRequest)
    ensures BiometricError(env, log, now, req) != Some(TokenRevoked)
  {
  }

  lemma AuthenticateEntry(env: Env, users: Users, log: seq<Entry>, k: int, req: AuthRequest)
    requires Explained(env, users, log) && 0 <= k < |log| && Asks(log[k].event) == Some(req)
    ensures Authenticated(log[k]) == Some(req) <==> MayAuthenticate(env, log[..k], log[k].now, req)
    ensures log[k].event.Exchange? && log[k].outcome.Renewed? <==>
            && log[k].event.Exchange? && MayAuthenticate(env, log[..k], log[k].now, req)
            && Last(env, log[..k], Created(log[k].event.sessionId)) >= 0
  {
    OrderlyPrefix(log, k);
    AuthenticateDecided(env, log[..k], log[k].now, req);
    NoTokenRevoked(env, log[..k], log[k].now, req);
  }

  /** In every legal run a call that asks for a biometric check passed it iff the history before it allowed it; and an
      exchange succeeded iff besides its session had been created. */
  lemma AuthenticateInEveryRun(env: Env, users: Users, calls: seq<Call>, k: nat, req: AuthRequest)
    requires Sound(env) && Legal(env, Start(users), calls)
    requires k < |Exec(env, Start(users), calls).log|
    requires Asks(Exec(env, Start(users), calls).log[k].event) == Some(req)
    ensures var log := Exec(env, Start(users), calls).log;
            && (Authenticated(log[k]) == Some(req) <==> MayAuthenticate(env, log[..k], log[k].now, req))
            && (log[k].event.Exchange? ==>
                  (log[k].outcome.Renewed? <==>
                   && MayAuthenticate(env, log[..k], log[k].now, req)
                   && Last(env, log[..k], Created(log[k].event.sessionId)) >= 0))
  {
    ExplainedRun(env, users, calls);
    AuthenticateEntry(env, users, Exec(env, Start(users), calls).log, k, req);
  }

  /** The history lets this user in: known, not disabled from the start, and not locked by the failures so far. */
  predicate MayTryPassword(env: Env, users: Users, log: seq<Entry>, now: nat, u: string) {
    && u in users && !users[u].status.UserDisabled?
    && var lock := LockEnd(env, users[u], log, u); lock.Some? ==> lock.value <= now
  }

  /** In every run, of any calls, a login was admitted iff the lookup found a user whom the history lets in and whose
      password was right; it was then admitted as that user. Its password was checked and found wrong iff the history
      let the user in and the password was not right. */
  lemma LoginInEveryRun(env: Env, users: Users, calls: seq<Call>, k: nat)
    requires Sound(env)
    requires k < |Exec(env, Start(users), calls).log| && Exec(env, Start(users), calls).log[k].event.Login?
    ensures var log := Exec(env, Start(users), calls).log;
            var found, o := log[k].event.found, log[k].outcome;
            && (o.LoggedIn? <==>
                && found.Some? && MayTryPassword(env, users, log[..k], log[k].now, found.value)
                && env.checkPassword(log[k].event.login.password, users[found.value].passwordHash))
            && (o.LoggedIn? ==> o.userId == found.value)
            && (found.Some? && found.value in users ==>
                  (FailedCheck(log[k], found.value) <==>
                   && MayTryPassword(env, users, log[..k], log[k].now, found.value)
                   && !env.checkPassword(log[k].event.login.password, users[found.value].passwordHash)))
  {
    AnswersFromHistory(env, users, calls, 0, DeleteExpired);
  }
}
