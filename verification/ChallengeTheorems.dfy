/** Single-use challenges: what every run keeps, and that removing expired records is invisible. */
module ChallengeTheorems {
  import opened Basics
  import opened Protocol

  /** A stored challenge is the issued one, marked used iff it has been consumed. */
  ghost predicate GoodChallenge(w: World, id: string)
    requires id in w.core.challenges
  {
    && id in w.granted
    && w.core.challenges[id] == w.granted[id].(usedAt := w.core.challenges[id].usedAt)
    && (w.core.challenges[id].usedAt.Some? <==> id in w.consumed)
  }

  /** An issued challenge carries its own seal and is missing from the store only after it expired. */
  ghost predicate GoodGrant(env: Env, w: World, id: string)
    requires id in w.granted
  {
    var g := w.granted[id];
    && id in w.used
    && g.hmac == env.seal(g.nonce, g.deviceId, g.action, g.expiresAt)
    && (id !in w.core.challenges ==> w.now > g.expiresAt)
  }

  ghost predicate ChallengeInv(env: Env, w: World) {
    && (forall id <- w.core.challenges :: GoodChallenge(w, id))
    && (forall id <- w.granted :: GoodGrant(env, w, id))
    && (forall id <- w.consumed :: id in w.granted)
    && Distinct(w.consumed)
  }

  /** Issued for this device and action, never consumed, and not past its expiry. */
  predicate Consumable(w: World, now: nat, id: string, device: string, action: string) {
    && id in w.granted
    && w.granted[id].deviceId == device && w.granted[id].action == action
    && id !in w.consumed
    && now <= w.granted[id].expiresAt
  }

  /** Consuming succeeds iff the history says so; in particular the stored seal always matches. */
  lemma ConsumeExactly(env: Env, w: World, now: nat, id: string, device: string, action: string)
    requires Sound(env) && ChallengeInv(env, w) && w.now <= now
    ensures Consume(env, w.core.challenges, now, id, device, action).error.None? <==>
            Consumable(w, now, id, device, action)
  {
    if id in w.granted {
      assert GoodGrant(env, w, id);
    }
    if id in w.core.challenges {
      assert GoodChallenge(w, id);
    }
  }

  /** The stored seal of every challenge in every reachable state verifies. */
  lemma SealsVerify(env: Env, w: World, id: string)
    requires Sound(env) && ChallengeInv(env, w) && id in w.core.challenges
    ensures var c := w.core.challenges[id]; env.sealMatches(c.nonce, c.deviceId, c.action, c.expiresAt, c.hmac)
  {
    assert GoodChallenge(w, id) && GoodGrant(env, w, id);
  }

  /** How a call changes the challenges, apart from issuing and cleaning up. */
  function AfterConsume(env: Env, core: Core, now: nat, ev: Event): Challenges {
    var p := Presented(core, ev);
    if p.None? then core.challenges else Consume(env, core.challenges, now, p.value.0, p.value.1, p.value.2).challenges
  }

  lemma BiometricConsumes(env: Env, core: Core, now: nat, req: AuthRequest)
    ensures CheckBiometric(env, core.devices, core.challenges, now, req).challenges ==
            if DeviceGate(core.devices, req).Some? then core.challenges
            else Consume(env, core.challenges, now, req.challengeId, req.deviceId, AUTHENTICATE).challenges
  {
  }

  lemma EnrollConsumes(env: Env, core: Core, now: nat, req: EnrollRequest)
    ensures EnrollDevice(env, core.devices, core.challenges, now, req).challenges ==
            if req.isRooted || req.isJailbroken then core.challenges
            else Consume(env, core.challenges, now, req.challengeId, req.deviceId, ENROLL).challenges
  {
  }

  lemma StepConsumes(env: Env, core: Core, now: nat, ev: Event)
    requires !ev.GetChallenge? && !ev.DeleteExpired?
    ensures Step(env, core, now, ev).core.challenges == AfterConsume(env, core, now, ev)
  {
    match ev {
      case Enroll(req) => EnrollConsumes(env, core, now, req);
      case Exchange(req, _, _, _) => BiometricConsumes(env, core, now, req);
      case Authenticate(req) => BiometricConsumes(env, core, now, req);
      case AuthorizePayment(req, _, _) => BiometricConsumes(env, core, now, req);
      case Login(_, _, _) =>
      case _ =>
    }
  }

  lemma IssueKeeps(env: Env, w: World, call: Call)
    requires ChallengeInv(env, w) && Enabled(env, w, call) && call.event.GetChallenge?
    ensures ChallengeInv(env, Do(env, w, call))
  {
    var w', id := Do(env, w, call), call.event.challengeId;
    assert Drawn(call.event)[0] == id;
    assert w'.consumed == w.consumed;
    assert id !in w.granted by {
      assert forall i <- w.granted :: GoodGrant(env, w, i);
    }
    forall i <- w'.core.challenges ensures GoodChallenge(w', i) {
      assert i != id ==> GoodChallenge(w, i);
    }
    forall i <- w'.granted ensures GoodGrant(env, w', i) {
      assert i != id ==> GoodGrant(env, w, i);
    }
  }

  lemma CleanupKeeps(env: Env, w: World, call: Call)
    requires ChallengeInv(env, w) && Enabled(env, w, call) && call.event.DeleteExpired?
    ensures ChallengeInv(env, Do(env, w, call))
  {
    var w' := Do(env, w, call);
    assert w'.consumed == w.consumed;
    forall i <- w'.core.challenges ensures GoodChallenge(w', i) {
      assert GoodChallenge(w, i);
    }
    forall i <- w'.granted ensures GoodGrant(env, w', i) {
      assert GoodGrant(env, w, i);
      assert i in w.core.challenges ==> GoodChallenge(w, i);
    }
  }

  /** Nothing issued and nothing consumed. */
  lemma IdleKeeps(env: Env, w: World, w': World)
    requires ChallengeInv(env, w) && w.now <= w'.now && w.used <= w'.used
    requires w'.core.challenges == w.core.challenges && w'.granted == w.granted && w'.consumed == w.consumed
    ensures ChallengeInv(env, w')
  {
    forall i <- w'.core.challenges ensures GoodChallenge(w', i) {
      assert GoodChallenge(w, i);
    }
    forall i <- w'.granted ensures GoodGrant(env, w', i) {
      assert GoodGrant(env, w, i);
    }
  }

  /** One challenge consumed. */
  lemma ConsumedKeeps(env: Env, w: World, w': World, now: nat, id: string)
    requires ChallengeInv(env, w) && w.now <= w'.now && w.used <= w'.used
    requires id in w.core.challenges && id !in w.consumed
    requires w'.core.challenges == w.core.challenges[id := w.core.challenges[id].(usedAt := Some(now))]
    requires w'.granted == w.granted && w'.consumed == w.consumed + [id]
    ensures ChallengeInv(env, w')
  {
    assert GoodChallenge(w, id);
    forall i <- w'.core.challenges ensures GoodChallenge(w', i) {
      assert GoodChallenge(w, i);
    }
    forall i <- w'.granted ensures GoodGrant(env, w', i) {
      assert GoodGrant(env, w, i);
    }
  }

  lemma OtherCallKeeps(env: Env, w: World, call: Call)
    requires Sound(env) && ChallengeInv(env, w) && Enabled(env, w, call)
    requires !call.event.GetChallenge? && !call.event.DeleteExpired?
    ensures ChallengeInv(env, Do(env, w, call))
  {
    var w', spent := Do(env, w, call), Spent(env, w.core, call.now, call.event);
    StepConsumes(env, w.core, call.now, call.event);
    if spent == [] {
      assert w'.consumed == w.consumed;
      IdleKeeps(env, w, w');
    } else {
      var p := Presented(w.core, call.event).value;
      ConsumeExactly(env, w, call.now, p.0, p.1, p.2);
      ConsumedKeeps(env, w, w', call.now, p.0);
    }
  }

  lemma CallKeepsChallenges(env: Env, w: World, call: Call)
    requires Sound(env) && ChallengeInv(env, w) && Enabled(env, w, call)
    ensures ChallengeInv(env, Do(env, w, call))
  {
    if call.event.GetChallenge? {
      IssueKeeps(env, w, call);
    } else if call.event.DeleteExpired? {
      CleanupKeeps(env, w, call);
    } else {
      OtherCallKeeps(env, w, call);
    }
  }

  lemma {:induction false} RunKeepsChallenges(env: Env, w: World, calls: seq<Call>)
    requires Sound(env) && ChallengeInv(env, w) && Legal(env, w, calls)
    ensures ChallengeInv(env, Exec(env, w, calls))
    decreases |calls|
  {
    if calls != [] {
      CallKeepsChallenges(env, w, calls[0]);
      RunKeepsChallenges(env, Do(env, w, calls[0]), calls[1..]);
    }
  }

  // ----- DeleteExpired is invisible -----

  /** `a` is `b` without some challenges that had expired at `now`. */
  ghost predicate Cleaner(a: Core, b: Core, now: nat) {
    && a.users == b.users && a.devices == b.devices && a.sessions == b.sessions
    && (forall id <- a.challenges :: id in b.challenges && a.challenges[id] == b.challenges[id])
    && (forall id <- b.challenges :: id !in a.challenges ==> now > b.challenges[id].expiresAt)
  }

  predicate IsChallengeError(e: Error) {
    e.ChallengeInvalid? || e.ChallengeUsed? || e.ChallengeExpired?
  }

  /** Equal answers, except that a refused challenge may be refused for another reason. */
  predicate SameVerdict(o: Outcome, p: Outcome) {
    o == p || (o.Denied? && p.Denied? && IsChallengeError(o.error) && IsChallengeError(p.error))
  }

  predicate SameError(e: Option<Error>, f: Option<Error>) {
    e == f || (e.Some? && f.Some? && IsChallengeError(e.value) && IsChallengeError(f.value))
  }

  lemma ConsumeAgrees(env: Env, a: Core, b: Core, t: nat, now: nat, id: string, device: string, action: string)
    requires Cleaner(a, b, t) && t <= now
    ensures var x, y := Consume(env, a.challenges, now, id, device, action),
                        Consume(env, b.challenges, now, id, device, action);
            && SameError(x.error, y.error)
            && Cleaner(a.(challenges := x.challenges), b.(challenges := y.challenges), now)
  {
  }

  lemma BiometricAgrees(env: Env, a: Core, b: Core, t: nat, now: nat, req: AuthRequest)
    requires Cleaner(a, b, t) && t <= now
    ensures var x, y := CheckBiometric(env, a.devices, a.challenges, now, req),
                        CheckBiometric(env, b.devices, b.challenges, now, req);
            && SameError(x.error, y.error)
            && x.devices == y.devices
            && Cleaner(a.(challenges := x.challenges), b.(challenges := y.challenges), now)
  {
    ConsumeAgrees(env, a, b, t, now, req.challengeId, req.deviceId, AUTHENTICATE);
  }

  lemma EnrollAgrees(env: Env, a: Core, b: Core, t: nat, now: nat, req: EnrollRequest)
    requires Cleaner(a, b, t) && t <= now
    ensures var x, y := EnrollDevice(env, a.devices, a.challenges, now, req),
                        EnrollDevice(env, b.devices, b.challenges, now, req);
            && SameError(x.error, y.error)
            && x.devices == y.devices
            && Cleaner(a.(challenges := x.challenges), b.(challenges := y.challenges), now)
  {
    ConsumeAgrees(env, a, b, t, now, req.challengeId, req.deviceId, ENROLL);
    EnrollConsumes(env, a, now, req);
    EnrollConsumes(env, b, now, req);
    var c := Consume(env, b.challenges, now, req.challengeId, req.deviceId, ENROLL);
    if c.error.Some? {
      assert EnrollDevice(env, b.devices, b.challenges, now, req).devices == b.devices;
    }
  }

  lemma ExchangeAgrees(env: Env, a: Core, b: Core, t: nat, now: nat, req: AuthRequest, sid: string, ja: string,
                       jr: string)
    requires Cleaner(a, b, t) && t <= now
    ensures var x, y := ExchangeStep(env, a, now, req, sid, ja, jr), ExchangeStep(env, b, now, req, sid, ja, jr);
            SameVerdict(x.outcome, y.outcome) && Cleaner(x.core, y.core, now)
  {
    BiometricAgrees(env, a, b, t, now, req);
  }

  lemma PaymentAgrees(env: Env, a: Core, b: Core, t: nat, now: nat, req: AuthRequest, sid: string, jti: string)
    requires Cleaner(a, b, t) && t <= now
    ensures var x, y := AuthenticateStep(env, a, now, req), AuthenticateStep(env, b, now, req);
            SameVerdict(x.outcome, y.outcome) && Cleaner(x.core, y.core, now)
    ensures var x, y := PaymentStep(env, a, now, req, sid, jti), PaymentStep(env, b, now, req, sid, jti);
            SameVerdict(x.outcome, y.outcome) && Cleaner(x.core, y.core, now)
  {
    BiometricAgrees(env, a, b, t, now, req);
  }

  /** A login neither reads nor writes the challenges. */
  lemma LoginIgnoresChallenges(env: Env, core: Core, cs: Challenges, now: nat, req: LoginRequest,
                               found: Option<string>, draws: Draws)
    ensures var x, y := LoginStep(env, core, now, req, found, draws),
                        LoginStep(env, core.(challenges := cs), now, req, found, draws);
            x.outcome == y.outcome && x.core.challenges == core.challenges && y.core == x.core.(challenges := cs)
  {
  }

  lemma LoginAgrees(env: Env, a: Core, b: Core, t: nat, now: nat, req: LoginRequest, found: Option<string>,
                    draws: Draws)
    requires Cleaner(a, b, t) && t <= now
    ensures var x, y := LoginStep(env, a, now, req, found, draws), LoginStep(env, b, now, req, found, draws);
            x.outcome == y.outcome && Cleaner(x.core, y.core, now)
  {
    LoginIgnoresChallenges(env, a, b.challenges, now, req, found, draws);
    assert b == a.(challenges := b.challenges);
  }

  /** A call that presents no challenge does not look at them. */
  lemma PlainAgrees(env: Env, a: Core, b: Core, t: nat, now: nat, ev: Event)
    requires Cleaner(a, b, t) && t <= now
    requires ev.Login? || ev.Refresh? || ev.Logout? || ev.LogoutAll? || ev.GetChallenge? || ev.RevokeDevice?
    ensures var x, y := Step(env, a, now, ev), Step(env, b, now, ev);
            x.outcome == y.outcome && Cleaner(x.core, y.core, now)
  {
    match ev {
      case Login(req, found, draws) => LoginAgrees(env, a, b, t, now, req, found, draws);
      case Refresh(_, _, _, _) =>
      case Logout(_) =>
      case LogoutAll(_) =>
      case GetChallenge(_, _, _, _, _) =>
      case RevokeDevice(_, _, _) =>
    }
  }

  /** Any call other than the cleanup gets the same verdict from a cleaned state. */
  lemma StepAgrees(env: Env, a: Core, b: Core, t: nat, now: nat, ev: Event)
    requires Cleaner(a, b, t) && t <= now && !ev.DeleteExpired?
    ensures var x, y := Step(env, a, now, ev), Step(env, b, now, ev);
            SameVerdict(x.outcome, y.outcome) && Cleaner(x.core, y.core, now)
  {
    match ev {
      case Enroll(req) => EnrollAgrees(env, a, b, t, now, req);
      case Exchange(req, sid, ja, jr) => ExchangeAgrees(env, a, b, t, now, req, sid, ja, jr);
      case Authenticate(req) => PaymentAgrees(env, a, b, t, now, req, "", "");
      case AuthorizePayment(req, sid, jti) => PaymentAgrees(env, a, b, t, now, req, sid, jti);
      case _ => PlainAgrees(env, a, b, t, now, ev);
    }
  }

  /** The answers to all calls except cleanups. */
  function Verdicts(env: Env, core: Core, calls: seq<Call>): seq<Outcome>
    decreases |calls|
  {
    if calls == [] then []
    else
      var r := Step(env, core, calls[0].now, calls[0].event);
      (if calls[0].event.DeleteExpired? then [] else [r.outcome]) + Verdicts(env, r.core, calls[1..])
  }

  function WithoutCleanups(calls: seq<Call>): seq<Call> {
    if calls == [] then []
    else (if calls[0].event.DeleteExpired? then [] else [calls[0]]) + WithoutCleanups(calls[1..])
  }

  predicate TimesFrom(t: nat, calls: seq<Call>)
    decreases |calls|
  {
    calls == [] || (t <= calls[0].now && TimesFrom(calls[0].now, calls[1..]))
  }

  ghost predicate Agree(a: seq<Outcome>, b: seq<Outcome>) {
    |a| == |b| && forall i :: 0 <= i < |a| ==> SameVerdict(a[i], b[i])
  }

  /** Running DeleteExpired at any points of a run changes no verdict of any other call. */
  lemma {:induction false} CleanupIsInvisible(env: Env, a: Core, b: Core, t: nat, calls: seq<Call>)
    requires Cleaner(a, b, t) && TimesFrom(t, calls)
    ensures Agree(Verdicts(env, a, calls), Verdicts(env, b, WithoutCleanups(calls)))
    decreases |calls|
  {
    if calls != [] {
      var now, ev, rest := calls[0].now, calls[0].event, calls[1..];
      var x := Step(env, a, now, ev);
      if ev.DeleteExpired? {
        assert Cleaner(x.core, b, now);
        CleanupIsInvisible(env, x.core, b, now, rest);
        assert Verdicts(env, a, calls) == Verdicts(env, x.core, rest);
        assert WithoutCleanups(calls) == WithoutCleanups(rest);
      } else {
        StepAgrees(env, a, b, t, now, ev);
        var y := Step(env, b, now, ev);
        CleanupIsInvisible(env, x.core, y.core, now, rest);
        var kept := WithoutCleanups(rest);
        assert WithoutCleanups(calls) == [calls[0]] + kept;
        assert ([calls[0]] + kept)[0] == calls[0] && ([calls[0]] + kept)[1..] == kept;
      }
    }
  }

  /** The same from the start of the service. */
  lemma CleanupsNeverMatter(env: Env, users: Users, calls: seq<Call>)
    requires TimesFrom(0, calls)
    ensures Agree(Verdicts(env, Start(users).core, calls), Verdicts(env, Start(users).core, WithoutCleanups(calls)))
  {
    CleanupIsInvisible(env, Start(users).core, Start(users).core, 0, calls);
  }
}
