/** The device life cycle: what must have happened before any biometric authentication succeeds. */
module DeviceTheorems {
  import opened Basics
  import opened History
  import opened Protocol
  import Drift
  import Messages

  // ----- what the log says about a device -----

  ghost predicate LastEnroll(log: seq<Entry>, d: string, j: int) {
    0 <= j < |log| && Enrolls(log[j], d) && forall k :: j < k < |log| ==> !Enrolls(log[k], d)
  }

  /** The enrolment that a usable key comes from. */
  ghost predicate KeyFrom(log: seq<Entry>, d: string, dev: Device, r: int, j: int) {
    && r < j && LastEnroll(log, d, j)
    && log[j].event.enroll.userId == dev.userId && log[j].event.enroll.publicKey == dev.publicKey
  }

  /** The log explains a device record whose latest registration is entry `r`. */
  ghost predicate Story(log: seq<Entry>, d: string, dev: Device, r: int) {
    && 0 <= r < |log| && Registers(log[r], d) && log[r].outcome.userId == dev.userId
    && (forall k :: r < k < |log| ==> !Registers(log[k], d))
    && (dev.status.DeviceActive? ==> forall k :: r < k < |log| ==> !Revokes(log[k], d))
    && (dev.status.DeviceActive? && dev.biometricEnabled ==> exists j :: KeyFrom(log, d, dev, r, j))
  }

  ghost predicate DeviceInv(w: World) {
    forall d <- w.core.devices :: exists r :: Story(w.log, d, w.core.devices[d], r)
  }

  // ----- one call -----

  /** How a call changes the record of a device that it does not register. */
  ghost predicate Evolves(e: Entry, d: string, dev: Device, dev': Device) {
    if Enrolls(e, d) then
      dev.userId == e.event.enroll.userId && dev' == EnableBiometric(dev, e.event.enroll, e.now)
    else if Revokes(e, d) then
      dev' == Revoke(dev, e.event.revokedBy, e.now)
    else
      dev' == dev.(lastSeenAt := dev'.lastSeenAt)
  }

  lemma BiometricTouches(env: Env, devices: Devices, challenges: Challenges, now: nat, req: AuthRequest, d: string)
    requires d in CheckBiometric(env, devices, challenges, now, req).devices
    ensures d in devices
    ensures var dev' := CheckBiometric(env, devices, challenges, now, req).devices[d];
            dev' == devices[d].(lastSeenAt := dev'.lastSeenAt)
  {
  }

  lemma EnrollTouches(env: Env, devices: Devices, challenges: Challenges, now: nat, req: EnrollRequest, d: string)
    requires d in EnrollDevice(env, devices, challenges, now, req).devices
    ensures d in devices
    ensures var a := EnrollDevice(env, devices, challenges, now, req);
            if a.error.None? && d == req.deviceId
            then devices[d].userId == req.userId && a.devices[d] == EnableBiometric(devices[d], req, now)
            else a.devices[d] == devices[d]
  {
  }

  lemma LoginTouches(env: Env, core: Core, now: nat, req: LoginRequest, found: Option<string>, draws: Draws, d: string)
    requires var r := LoginStep(env, core, now, req, found, draws);
             d in r.core.devices && !(r.outcome.LoggedIn? && req.deviceId == d)
    ensures d in core.devices && LoginStep(env, core, now, req, found, draws).core.devices[d] == core.devices[d]
  {
  }

  lemma RevocationTouches(core: Core, now: nat, device: string, user: string, who: string, d: string)
    requires d in RevokeDeviceStep(core, now, device, user, who).core.devices
    ensures d in core.devices
    ensures var r := RevokeDeviceStep(core, now, device, user, who);
            r.core.devices[d] ==
            if r.outcome.Done? && d == device then Revoke(core.devices[d], who, now) else core.devices[d]
  {
  }

  lemma StepEvolves(env: Env, core: Core, now: nat, ev: Event, d: string)
    requires d in Step(env, core, now, ev).core.devices
    requires !Registers(Entry(now, ev, Step(env, core, now, ev).outcome), d)
    ensures d in core.devices
    ensures Evolves(Entry(now, ev, Step(env, core, now, ev).outcome), d, core.devices[d],
                    Step(env, core, now, ev).core.devices[d])
  {
    match ev {
      case Login(req, found, draws) => LoginTouches(env, core, now, req, found, draws, d);
      case Enroll(req) => EnrollTouches(env, core.devices, core.challenges, now, req, d);
      case RevokeDevice(device, user, who) => RevocationTouches(core, now, device, user, who, d);
      case _ => OtherEvolves(env, core, now, ev, d);
    }
  }

  /** The remaining calls at most note that a device was seen. */
  lemma OtherEvolves(env: Env, core: Core, now: nat, ev: Event, d: string)
    requires !ev.Login? && !ev.Enroll? && !ev.RevokeDevice?
    requires d in Step(env, core, now, ev).core.devices
    ensures d in core.devices
    ensures var dev' := Step(env, core, now, ev).core.devices[d];
            dev' == core.devices[d].(lastSeenAt := dev'.lastSeenAt)
  {
    match ev {
      case Exchange(req, _, _, _) => BiometricTouches(env, core.devices, core.challenges, now, req, d);
      case Authenticate(req) => BiometricTouches(env, core.devices, core.challenges, now, req, d);
      case AuthorizePayment(req, _, _) => BiometricTouches(env, core.devices, core.challenges, now, req, d);
      case _ =>
    }
  }

  lemma StepRegisters(env: Env, core: Core, now: nat, ev: Event, d: string)
    requires Registers(Entry(now, ev, Step(env, core, now, ev).outcome), d)
    ensures var r := Step(env, core, now, ev);
            d in r.core.devices && r.core.devices[d].userId == r.outcome.userId && !r.core.devices[d].biometricEnabled
  {
  }

  /** A story goes on. */
  lemma StoryContinues(log: seq<Entry>, e: Entry, d: string, dev: Device, dev': Device, r: int)
    requires Story(log, d, dev, r) && !Registers(e, d) && Evolves(e, d, dev, dev')
    ensures Story(log + [e], d, dev', r)
  {
    var log' := log + [e];
    if Enrolls(e, d) {
      assert KeyFrom(log', d, dev', r, |log|);
    } else if dev'.status.DeviceActive? && dev'.biometricEnabled {
      var j :| KeyFrom(log, d, dev, r, j);
      assert KeyFrom(log', d, dev', r, j);
    }
  }

  lemma CallKeepsDevices(env: Env, w: World, call: Call)
    requires DeviceInv(w)
    ensures DeviceInv(Do(env, w, call))
  {
    var w' := Do(env, w, call);
    var e := Entry(call.now, call.event, Step(env, w.core, call.now, call.event).outcome);
    forall d <- w'.core.devices ensures exists r :: Story(w'.log, d, w'.core.devices[d], r) {
      if Registers(e, d) {
        StepRegisters(env, w.core, call.now, call.event, d);
        assert Story(w'.log, d, w'.core.devices[d], |w.log|);
      } else {
        StepEvolves(env, w.core, call.now, call.event, d);
        var r :| Story(w.log, d, w.core.devices[d], r);
        StoryContinues(w.log, e, d, w.core.devices[d], w'.core.devices[d], r);
      }
    }
  }

  // ----- what a successful authentication proves -----

  /** Entry `r` is the latest registration of the device before `k`, by the user, with no revocation since. */
  ghost predicate RegisteredAndKept(log: seq<Entry>, k: int, d: string, user: string, r: int) {
    && 0 <= r < k <= |log| && Registers(log[r], d) && log[r].outcome.userId == user
    && forall i :: r < i < k ==> !Registers(log[i], d) && !Revokes(log[i], d)
  }

  /** Entry `j` is the last enrolment on the device before `k`, by the user. */
  ghost predicate EnrolledLast(log: seq<Entry>, k: int, d: string, user: string, j: int) {
    && 0 <= j < k <= |log| && Enrolls(log[j], d) && log[j].event.enroll.userId == user
    && forall i :: j < i < k ==> !Enrolls(log[i], d)
  }

  /** A successful biometric check at entry `k` comes after a registration of the device and a later
      enrolment by the same user; the signature was checked with that enrolment's key, on a fresh timestamp. */
  ghost predicate Justified(env: Env, log: seq<Entry>, k: int, req: AuthRequest) {
    && 0 <= k < |log|
    && Drift.Fresh(req.timestamp, log[k].now)
    && exists r, j ::
         && RegisteredAndKept(log, k, req.deviceId, req.userId, r)
         && EnrolledLast(log, k, req.deviceId, req.userId, j)
         && r < j
         && env.checkSignature(env.cfg.signatureAlgo, log[j].event.enroll.publicKey,
              Messages.SignedPayload(req.nonce, req.deviceId, AUTHENTICATE, req.timestamp), req.signature)
  }

  ghost predicate AllJustified(env: Env, log: seq<Entry>) {
    forall k :: 0 <= k < |log| && Authenticated(log[k]).Some? ==> Justified(env, log, k, Authenticated(log[k]).value)
  }

  /** What the checks themselves establish. */
  lemma SuccessMeansChecked(env: Env, core: Core, now: nat, ev: Event)
    requires Authenticated(Entry(now, ev, Step(env, core, now, ev).outcome)).Some?
    ensures var req := Authenticated(Entry(now, ev, Step(env, core, now, ev).outcome)).value;
            && DeviceGate(core.devices, req).None?
            && Drift.Fresh(req.timestamp, now)
            && env.checkSignature(env.cfg.signatureAlgo, core.devices[req.deviceId].publicKey,
                 Messages.SignedPayload(req.nonce, req.deviceId, AUTHENTICATE, req.timestamp), req.signature)
  {
    match ev {
      case Authenticate(_) =>
      case AuthorizePayment(_, _, _) =>
      case Exchange(_, _, _, _) =>
        assert Step(env, core, now, ev).outcome == Denied(TokenRevoked) ==>
               CheckBiometric(env, core.devices, core.challenges, now, ev.auth).error != Some(TokenRevoked);
    }
  }

  lemma CallJustified(env: Env, w: World, call: Call, req: AuthRequest)
    requires DeviceInv(w)
    requires Authenticated(Entry(call.now, call.event, Step(env, w.core, call.now, call.event).outcome)) == Some(req)
    ensures Justified(env, Do(env, w, call).log, |w.log|, req)
  {
    SuccessMeansChecked(env, w.core, call.now, call.event);
    var d, log' := req.deviceId, Do(env, w, call).log;
    var dev := w.core.devices[d];
    var r :| Story(w.log, d, dev, r);
    var j :| KeyFrom(w.log, d, dev, r, j);
    assert log'[r] == w.log[r] && log'[j] == w.log[j];
    assert RegisteredAndKept(log', |w.log|, d, req.userId, r);
    assert EnrolledLast(log', |w.log|, d, req.userId, j);
  }

  /** Later entries do not change what came before. */
  lemma JustifiedStays(env: Env, log: seq<Entry>, e: Entry, k: int, req: AuthRequest)
    requires Justified(env, log, k, req)
    ensures Justified(env, log + [e], k, req)
  {
    var r, j :| RegisteredAndKept(log, k, req.deviceId, req.userId, r)
                && EnrolledLast(log, k, req.deviceId, req.userId, j) && r < j
                && env.checkSignature(env.cfg.signatureAlgo, log[j].event.enroll.publicKey,
                     Messages.SignedPayload(req.nonce, req.deviceId, AUTHENTICATE, req.timestamp), req.signature);
    var log' := log + [e];
    assert log'[j] == log[j];
    assert RegisteredAndKept(log', k, req.deviceId, req.userId, r);
    assert EnrolledLast(log', k, req.deviceId, req.userId, j);
  }

  lemma AppendJustified(env: Env, log: seq<Entry>, e: Entry)
    requires AllJustified(env, log)
    requires Authenticated(e).Some? ==> Justified(env, log + [e], |log|, Authenticated(e).value)
    ensures AllJustified(env, log + [e])
  {
    var log' := log + [e];
    forall k | 0 <= k < |log'| && Authenticated(log'[k]).Some?
      ensures Justified(env, log', k, Authenticated(log'[k]).value)
    {
      if k < |log| {
        assert log'[k] == log[k];
        JustifiedStays(env, log, e, k, Authenticated(log[k]).value);
      } else {
        assert k == |log| && log'[k] == e;
      }
    }
  }

  lemma CallKeepsJustified(env: Env, w: World, call: Call)
    requires DeviceInv(w) && AllJustified(env, w.log)
    ensures AllJustified(env, Do(env, w, call).log)
  {
    var e := Entry(call.now, call.event, Step(env, w.core, call.now, call.event).outcome);
    if Authenticated(e).Some? {
      CallJustified(env, w, call, Authenticated(e).value);
    }
    AppendJustified(env, w.log, e);
  }

  lemma {:induction false} RunKeepsDevices(env: Env, w: World, calls: seq<Call>)
    requires DeviceInv(w) && AllJustified(env, w.log)
    ensures DeviceInv(Exec(env, w, calls)) && AllJustified(env, Exec(env, w, calls).log)
    decreases |calls|
  {
    if calls != [] {
      CallKeepsDevices(env, w, calls[0]);
      CallKeepsJustified(env, w, calls[0]);
      RunKeepsDevices(env, Do(env, w, calls[0]), calls[1..]);
    }
  }

  /** In every run, every successful authentication is justified, and its timestamp was within 90 seconds
      of the clock unless their difference is at or below the smallest 64-bit duration. */
  lemma AuthenticationInEveryRun(env: Env, users: Users, calls: seq<Call>, k: nat)
    requires var log := Exec(env, Start(users), calls).log; k < |log| && Authenticated(log[k]).Some?
    ensures var log := Exec(env, Start(users), calls).log;
            var req, now := Authenticated(log[k]).value, log[k].now;
            && Justified(env, log, k, req)
            && (now - req.timestamp * SECOND > Drift.MIN_INT64 ==>
                  -90 * SECOND <= now - req.timestamp * SECOND <= 90 * SECOND)
  {
    RunKeepsDevices(env, Start(users), calls);
    var log := Exec(env, Start(users), calls).log;
    Drift.FreshExactly(Authenticated(log[k]).value.timestamp, log[k].now);
  }
}
