/** The stored state is what the history says: after any calls at all, every record of every table equals the one
    read off the log. */
module Records {
  import opened Basics
  import opened History
  import opened Protocol
  import ChallengeTheorems
  import DeviceTheorems
  import LockoutTheorems

  /** The entry that a call leaves in the log. */
  function Logged(env: Env, core: Core, now: nat, ev: Event): Entry {
    Entry(now, ev, Step(env, core, now, ev).outcome)
  }

  // ----- accounts -----

  lemma StrikesAppended(env: Env, first: User, log: seq<Entry>, e: Entry, u: string)
    ensures Recent(env, log + [e], u) ==
            if SuccessfulLogin(e, u) then [] else Recent(env, log, u) + if FailedCheck(e, u) then [e.now] else []
    ensures Strikes(env, first, log + [e], u) ==
            if SuccessfulLogin(e, u) then 0 else Strikes(env, first, log, u) + if FailedCheck(e, u) then 1 else 0
  {
    LastAppended(env, log, e, Success(u));
    if !SuccessfulLogin(e, u) {
      FailuresAppended(log, e, Last(env, log, Success(u)) + 1, u);
    }
  }

  lemma LocksAppended(env: Env, first: User, log: seq<Entry>, e: Entry, u: string, k: int)
    requires 0 <= k <= |log|
    ensures LocksAt(env, first, log + [e], u, k) <==>
            if k < |log| then LocksAt(env, first, log, u, k)
            else FailedCheck(e, u) && Strikes(env, first, log + [e], u) >= env.cfg.maxLoginAttempts
  {
    var all := log + [e];
    if k < |log| {
      assert all[k] == log[k] && all[..k + 1] == log[..k + 1];
    } else {
      assert all[..k + 1] == all;
    }
  }

  lemma EverLockedAppended(env: Env, first: User, log: seq<Entry>, e: Entry, u: string)
    ensures EverLocked(env, first, log + [e], u) <==>
            EverLocked(env, first, log, u)
            || (FailedCheck(e, u) && Strikes(env, first, log + [e], u) >= env.cfg.maxLoginAttempts)
  {
    var all := log + [e];
    LocksAppended(env, first, log, e, u, |log|);
    forall k | 0 <= k < |log| ensures LocksAt(env, first, all, u, k) <==> LocksAt(env, first, log, u, k) {
      LocksAppended(env, first, log, e, u, k);
    }
  }

  lemma AccountRebuilt(env: Env, first: User, log: seq<Entry>, e: Entry, u: string, user: User)
    requires user == AccountAt(env, first, log, u)
    ensures AccountAt(env, first, log + [e], u) ==
            if FailedCheck(e, u) then FailedLogin(env.cfg, user, e.now)
            else if SuccessfulLogin(e, u) then user.(failedAttempts := 0, lockedUntil := None)
            else user
  {
    LastAppended(env, log, e, Success(u));
    StrikesAppended(env, first, log, e, u);
    EverLockedAppended(env, first, log, e, u);
  }

  // ----- devices -----

  /** How a call changes the record of a device. */
  ghost predicate DeviceChange(e: Entry, d: string, x: Option<Device>, y: Option<Device>) {
    if Registers(e, d) then y == Some(NewDevice(e.outcome.userId, e.event.login, e.now))
    else if Enrolls(e, d) then x.Some? && y == Some(EnableBiometric(x.value, e.event.enroll, e.now))
    else if Revokes(e, d) then x.Some? && y == Some(Revoke(x.value, e.event.revokedBy, e.now))
    else if SeenBy(e, d) then
      x.Some? && y == Some(x.value.(lastSeenAt := e.now))
    else y == x
  }

  /** What the next entry does to what the log says about a device. */
  lemma DeviceQueries(env: Env, log: seq<Entry>, e: Entry, d: string)
    ensures var all := log + [e];
            && Last(env, all, Registered(d)) == (if Registers(e, d) then |log| else Last(env, log, Registered(d)))
            && Last(env, all, Enrolled(d)) == (if Enrolls(e, d) then |log| else Last(env, log, Enrolled(d)))
            && Last(env, all, Withdrawn(d)) == (if Revokes(e, d) then |log| else Last(env, log, Withdrawn(d)))
            && Last(env, all, Seen(d)) == (if SeenBy(e, d) then |log| else Last(env, log, Seen(d)))
  {
    LastAppended(env, log, e, Registered(d));
    LastAppended(env, log, e, Enrolled(d));
    LastAppended(env, log, e, Withdrawn(d));
    LastAppended(env, log, e, Seen(d));
  }

  lemma RegisteredRebuilt(env: Env, log: seq<Entry>, e: Entry, d: string)
    requires Registers(e, d)
    ensures DeviceAt(env, log + [e], d) == Some(NewDevice(e.outcome.userId, e.event.login, e.now))
  {
    DeviceQueries(env, log, e, d);
  }

  lemma EnrolledRebuilt(env: Env, log: seq<Entry>, e: Entry, d: string)
    requires Enrolls(e, d) && DeviceAt(env, log, d).Some?
    ensures DeviceAt(env, log + [e], d) ==
            Some(EnableBiometric(DeviceAt(env, log, d).value, e.event.enroll, e.now))
  {
    DeviceQueries(env, log, e, d);
  }

  lemma RevokedRebuilt(env: Env, log: seq<Entry>, e: Entry, d: string)
    requires Revokes(e, d) && DeviceAt(env, log, d).Some?
    ensures DeviceAt(env, log + [e], d) == Some(Revoke(DeviceAt(env, log, d).value, e.event.revokedBy, e.now))
  {
    DeviceQueries(env, log, e, d);
  }

  lemma KeptRebuilt(env: Env, log: seq<Entry>, e: Entry, d: string, y: Option<Device>)
    requires !Registers(e, d) && !Enrolls(e, d) && !Revokes(e, d) && DeviceChange(e, d, DeviceAt(env, log, d), y)
    ensures y == DeviceAt(env, log + [e], d)
  {
    DeviceQueries(env, log, e, d);
  }

  lemma DeviceRebuilt(env: Env, log: seq<Entry>, e: Entry, d: string, y: Option<Device>)
    requires DeviceChange(e, d, DeviceAt(env, log, d), y)
    ensures y == DeviceAt(env, log + [e], d)
  {
    if Registers(e, d) {
      RegisteredRebuilt(env, log, e, d);
    } else if Enrolls(e, d) {
      EnrolledRebuilt(env, log, e, d);
    } else if Revokes(e, d) {
      RevokedRebuilt(env, log, e, d);
    } else {
      KeptRebuilt(env, log, e, d, y);
    }
  }

  lemma LoginDevices(env: Env, core: Core, now: nat, ev: Event, d: string)
    requires ev.Login?
    ensures DeviceChange(Logged(env, core, now, ev), d, Find(core.devices, d),
                         Find(Step(env, core, now, ev).core.devices, d))
  {
  }

  lemma EnrollDevices(env: Env, core: Core, now: nat, ev: Event, d: string)
    requires ev.Enroll?
    ensures DeviceChange(Logged(env, core, now, ev), d, Find(core.devices, d),
                         Find(Step(env, core, now, ev).core.devices, d))
  {
    var a := EnrollDevice(env, core.devices, core.challenges, now, ev.enroll);
    if a.error.None? {
      assert a.devices == core.devices[ev.enroll.deviceId :=
                                       EnableBiometric(core.devices[ev.enroll.deviceId], ev.enroll, now)];
    }
    assert a.error.Some? ==> a.devices == core.devices;
  }

  /** The device record after a biometric check. */
  lemma CheckDevices(env: Env, devices: Devices, challenges: Challenges, now: nat, req: AuthRequest)
    ensures var a := CheckBiometric(env, devices, challenges, now, req);
            if a.error.Some? then a.devices == devices && a.error.value != TokenRevoked
            else
              req.deviceId in devices
              && a.devices == devices[req.deviceId := devices[req.deviceId].(lastSeenAt := now)]
  {
  }

  lemma BiometricDevices(env: Env, core: Core, now: nat, ev: Event, d: string)
    requires ev.Exchange? || ev.Authenticate? || ev.AuthorizePayment?
    ensures DeviceChange(Logged(env, core, now, ev), d, Find(core.devices, d),
                         Find(Step(env, core, now, ev).core.devices, d))
  {
    CheckDevices(env, core.devices, core.challenges, now, ev.auth);
  }

  lemma StepDevice(env: Env, core: Core, now: nat, ev: Event, d: string)
    ensures DeviceChange(Logged(env, core, now, ev), d, Find(core.devices, d),
                         Find(Step(env, core, now, ev).core.devices, d))
  {
    match ev {
      case Login(_, _, _) => LoginDevices(env, core, now, ev, d);
      case Enroll(_) => EnrollDevices(env, core, now, ev, d);
      case Exchange(_, _, _, _) => BiometricDevices(env, core, now, ev, d);
      case Authenticate(_) => BiometricDevices(env, core, now, ev, d);
      case AuthorizePayment(_, _, _) => BiometricDevices(env, core, now, ev, d);
      case _ =>
    }
  }

  // ----- challenges -----

  /** How a call changes the record of a challenge. */
  ghost predicate ChallengeChange(env: Env, e: Entry, id: string, x: Option<Challenge>, y: Option<Challenge>) {
    if e.event.GetChallenge? && e.event.challengeId == id then
      y == Some(NewChallenge(env, e.event.userId, e.event.deviceId, e.event.action, e.event.nonce, e.now))
    else if SpentBy(e) == Some(id) then x.Some? && y == Some(x.value.(usedAt := Some(e.now)))
    else if e.event.DeleteExpired? then y == if x.Some? && e.now > x.value.expiresAt then None else x
    else y == x
  }

  lemma DroppedAppended(env: Env, log: seq<Entry>, e: Entry, g: int)
    requires 0 <= g < |log|
    ensures Deadline(env, log + [e], g) == Deadline(env, log, g)
    ensures Dropped(env, log + [e], g) <==>
            Dropped(env, log, g) || (e.event.DeleteExpired? && e.now > Deadline(env, log, g))
  {
    var all := log + [e];
    assert forall k :: 0 <= k < |log| ==> all[k] == log[k];
    assert all[|log|] == e;
    if Dropped(env, log, g) {
      var k :| g < k < |log| && log[k].event.DeleteExpired? && log[k].now > Deadline(env, log, g);
      assert all[k].event.DeleteExpired?;
    }
  }

  lemma ChallengeRebuilt(env: Env, log: seq<Entry>, e: Entry, id: string, y: Option<Challenge>)
    requires ChallengeChange(env, e, id, ChallengeAt(env, log, id), y)
    ensures y == ChallengeAt(env, log + [e], id)
  {
    var g := Last(env, log, Granted(id));
    LastAppended(env, log, e, Granted(id));
    LastAppended(env, log, e, Used(id));
    if g >= 0 {
      DroppedAppended(env, log, e, g);
    }
  }

  lemma StepChallenge(env: Env, core: Core, now: nat, ev: Event, id: string)
    ensures ChallengeChange(env, Logged(env, core, now, ev), id, Find(core.challenges, id),
                            Find(Step(env, core, now, ev).core.challenges, id))
  {
    if !ev.GetChallenge? && !ev.DeleteExpired? {
      ChallengeTheorems.StepConsumes(env, core, now, ev);
      SpendsAsLogged(env, core, now, ev);
    }
  }

  lemma EnrollSpends(env: Env, core: Core, now: nat, req: EnrollRequest)
    ensures var a := EnrollDevice(env, core.devices, core.challenges, now, req);
            var c := Consume(env, core.challenges, now, req.challengeId, req.deviceId, ENROLL);
            BeforeEnrollChallenge(if a.error.Some? then Denied(a.error.value) else Done) <==>
            req.isRooted || req.isJailbroken || c.error.Some?
  {
  }

  lemma CheckSpends(env: Env, core: Core, now: nat, req: AuthRequest)
    ensures var a := CheckBiometric(env, core.devices, core.challenges, now, req);
            var c := Consume(env, core.challenges, now, req.challengeId, req.deviceId, AUTHENTICATE);
            (a.error.Some? && BeforeChallenge(Denied(a.error.value))) <==>
            DeviceGate(core.devices, req).Some? || c.error.Some?
  {
  }

  /** The answer of a call tells whether it used its challenge up. */
  lemma SpendsAsLogged(env: Env, core: Core, now: nat, ev: Event)
    ensures Spent(env, core, now, ev) ==
            var id := SpentBy(Logged(env, core, now, ev)); if id.Some? then [id.value] else []
  {
    match ev {
      case Enroll(req) => EnrollSpends(env, core, now, req);
      case Exchange(req, _, _, _) => CheckSpends(env, core, now, req);
      case Authenticate(req) => CheckSpends(env, core, now, req);
      case AuthorizePayment(req, _, _) => CheckSpends(env, core, now, req);
      case _ =>
    }
  }

  // ----- sessions -----

  /** How a call changes the record of a session. */
  ghost predicate SessionChange(env: Env, e: Entry, s: string, x: Option<Session>, y: Option<Session>) {
    if Creates(e, s) then
      y == Some(NewSession(env, e.outcome.userId, e.event.login.deviceId, e.event.draws.family,
                           e.outcome.pair.refresh, e.now))
    else if x.None? then y.None?
    else if Renews(env, e, s) then y == Some(Renew(env, x.value, e.outcome.pair.refresh, e.now))
    else if Ends(env, e, s, x.value.userId, x.value.family) then
      y == Some(x.value.(status := if e.event.Refresh? then Replayed else Revoked))
    else y == x
  }

  lemma CreatedRebuilt(env: Env, log: seq<Entry>, e: Entry, s: string)
    requires Creates(e, s)
    ensures SessionAt(env, log + [e], s) ==
            Some(NewSession(env, e.outcome.userId, e.event.login.deviceId, e.event.draws.family,
                            e.outcome.pair.refresh, e.now))
  {
    LastAppended(env, log, e, Created(s));
    LastAppended(env, log, e, Renewal(s));
    LastAppended(env, log, e, End(s, e.outcome.userId, e.event.draws.family));
  }

  /** What the next entry does to what the log says about an existing session. */
  lemma SessionQueries(env: Env, log: seq<Entry>, e: Entry, s: string, c: int)
    requires c == Last(env, log, Created(s)) >= 0 && !Creates(e, s)
    ensures c == Last(env, log + [e], Created(s)) && (log + [e])[c] == log[c]
    ensures Newest(env, log + [e], s, c) == if Renews(env, e, s) then |log| else Newest(env, log, s, c)
    ensures CountAfter(env, log + [e], c, Renewal(s)) ==
            CountAfter(env, log, c, Renewal(s)) + if Renews(env, e, s) then 1 else 0
    ensures EndOf(env, log + [e], s, c) ==
            if Ends(env, e, s, log[c].outcome.userId, log[c].event.draws.family) then |log| else EndOf(env, log, s, c)
  {
    LastAppended(env, log, e, Created(s));
    LastAppended(env, log, e, Renewal(s));
    CountAppended(env, log, e, c, Renewal(s));
    LastAppended(env, log, e, End(s, log[c].outcome.userId, log[c].event.draws.family));
  }

  lemma SessionRebuilt(env: Env, log: seq<Entry>, e: Entry, s: string, y: Option<Session>)
    requires SessionChange(env, e, s, SessionAt(env, log, s), y)
    ensures y == SessionAt(env, log + [e], s)
  {
    var c := Last(env, log, Created(s));
    if Creates(e, s) {
      CreatedRebuilt(env, log, e, s);
    } else if c < 0 {
      LastAppended(env, log, e, Created(s));
    } else {
      SessionQueries(env, log, e, s, c);
    }
  }

  lemma RefreshSessions(env: Env, core: Core, now: nat, ev: Event, s: string)
    requires ev.Refresh?
    ensures SessionChange(env, Logged(env, core, now, ev), s, Find(core.sessions, s),
                          Find(Step(env, core, now, ev).core.sessions, s))
  {
  }

  lemma LogoutSessions(env: Env, core: Core, now: nat, ev: Event, s: string)
    requires ev.Logout? || ev.LogoutAll?
    ensures SessionChange(env, Logged(env, core, now, ev), s, Find(core.sessions, s),
                          Find(Step(env, core, now, ev).core.sessions, s))
  {
  }

  lemma StepSession(env: Env, core: Core, now: nat, ev: Event, s: string)
    ensures SessionChange(env, Logged(env, core, now, ev), s, Find(core.sessions, s),
                          Find(Step(env, core, now, ev).core.sessions, s))
  {
    if ev.Refresh? {
      RefreshSessions(env, core, now, ev, s);
    } else if ev.Logout? || ev.LogoutAll? {
      LogoutSessions(env, core, now, ev, s);
    } else {
      OtherSessions(env, core, now, ev, s);
    }
  }

  lemma OtherSessions(env: Env, core: Core, now: nat, ev: Event, s: string)
    requires !ev.Refresh? && !ev.Logout? && !ev.LogoutAll?
    ensures SessionChange(env, Logged(env, core, now, ev), s, Find(core.sessions, s),
                          Find(Step(env, core, now, ev).core.sessions, s))
  {
  }

  // ----- the whole state -----

  ghost predicate AccountsFromLog(env: Env, users: Users, w: World) {
    && w.core.users.Keys == users.Keys
    && (forall u <- users :: w.core.users[u] == AccountAt(env, users[u], w.log, u))
    && (forall u <- users :: users[u].status.UserDisabled? ==> !EverLocked(env, users[u], w.log, u))
  }

  /** Every record of every table is the one that the log demands. */
  ghost predicate FromLog(env: Env, users: Users, w: World) {
    && AccountsFromLog(env, users, w)
    && (forall d :: Find(w.core.devices, d) == DeviceAt(env, w.log, d))
    && (forall id :: Find(w.core.challenges, id) == ChallengeAt(env, w.log, id))
    && (forall s :: Find(w.core.sessions, s) == SessionAt(env, w.log, s))
  }

  lemma CallKeepsAccounts(env: Env, users: Users, w: World, call: Call)
    requires AccountsFromLog(env, users, w)
    ensures AccountsFromLog(env, users, Do(env, w, call))
  {
    var w', e := Do(env, w, call), Logged(env, w.core, call.now, call.event);
    LockoutTheorems.StepNoNewUser(env, w.core, call.now, call.event);
    forall u <- users
      ensures w'.core.users[u] == AccountAt(env, users[u], w'.log, u)
      ensures users[u].status.UserDisabled? ==> !EverLocked(env, users[u], w'.log, u)
    {
      LockoutTheorems.StepOnUser(env, w.core, call.now, call.event, u);
      AccountRebuilt(env, users[u], w.log, e, u, w.core.users[u]);
      EverLockedAppended(env, users[u], w.log, e, u);
    }
  }

  lemma CallKeepsRecords(env: Env, users: Users, w: World, call: Call)
    requires FromLog(env, users, w)
    ensures FromLog(env, users, Do(env, w, call))
  {
    var w', e := Do(env, w, call), Logged(env, w.core, call.now, call.event);
    CallKeepsAccounts(env, users, w, call);
    forall d ensures Find(w'.core.devices, d) == DeviceAt(env, w'.log, d) {
      StepDevice(env, w.core, call.now, call.event, d);
      DeviceRebuilt(env, w.log, e, d, Find(w'.core.devices, d));
    }
    forall id ensures Find(w'.core.challenges, id) == ChallengeAt(env, w'.log, id) {
      StepChallenge(env, w.core, call.now, call.event, id);
      ChallengeRebuilt(env, w.log, e, id, Find(w'.core.challenges, id));
    }
    forall s ensures Find(w'.core.sessions, s) == SessionAt(env, w'.log, s) {
      StepSession(env, w.core, call.now, call.event, s);
      SessionRebuilt(env, w.log, e, s, Find(w'.core.sessions, s));
    }
  }

  lemma {:induction false} RunKeepsRecords(env: Env, users: Users, w: World, calls: seq<Call>)
    requires FromLog(env, users, w)
    ensures FromLog(env, users, Exec(env, w, calls))
    decreases |calls|
  {
    if calls != [] {
      CallKeepsRecords(env, users, w, calls[0]);
      RunKeepsRecords(env, users, Do(env, w, calls[0]), calls[1..]);
    }
  }

  /** After any calls whatsoever, the whole state is a function of the first users and the log. */
  lemma StateFromHistory(env: Env, users: Users, calls: seq<Call>)
    ensures FromLog(env, users, Exec(env, Start(users), calls))
  {
    RunKeepsRecords(env, users, Start(users), calls);
  }
}
