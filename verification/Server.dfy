/** The services at work: a client that makes one call after another, and what it can rely on. */
module Server {
  import opened Basics
  import opened Protocol
  import ChallengeTheorems
  import DeviceTheorems
  import History
  import Services
  import SessionTheorems

  /** The call as it was performed: a login names the user that the lookup returned. */
  predicate Performed(call: Call, done: Call) {
    && call.now == done.now
    && if call.event.Login? then done.event.Login? && done.event == call.event.(found := done.event.found)
       else done.event == call.event
  }

  /** The world outside did its part before every call of a run. */
  ghost predicate OutsideRun(env: Env, w: World, calls: seq<Call>) {
    forall i :: 0 <= i < |calls| ==> Outside(env, Exec(env, w, calls[..i]), calls[i])
  }

  /** The log of `w` is that of `w0` followed by the performed calls and their answers. */
  ghost predicate Logged(w0: World, w: World, done: seq<Call>, answers: seq<Outcome>) {
    && |done| == |answers| && |w.log| == |w0.log| + |done|
    && forall i :: 0 <= i < |done| ==> w.log[|w0.log| + i] == Entry(done[i].now, done[i].event, answers[i])
  }

  /** The performed calls, their answers and the state reached are those of a run from `w0`, which is a legal one
      as soon as the world outside does its part. */
  ghost predicate IsRun(env: Env, w0: World, calls: seq<Call>, done: seq<Call>, answers: seq<Outcome>, core: Core) {
    && |done| == |calls| && (forall i :: 0 <= i < |calls| ==> Performed(calls[i], done[i]))
    && core == Exec(env, w0, done).core
    && Logged(w0, Exec(env, w0, done), done, answers)
    && (OutsideRun(env, w0, done) ==> Legal(env, w0, done))
  }

  lemma LegalLonger(env: Env, w0: World, done: seq<Call>, call: Call)
    requires OutsideRun(env, w0, done) ==> Legal(env, w0, done)
    requires Outside(env, Exec(env, w0, done), call) ==> Enabled(env, Exec(env, w0, done), call)
    ensures OutsideRun(env, w0, done + [call]) ==> Legal(env, w0, done + [call])
  {
    LastCall(env, w0, done, call);
    var all := done + [call];
    if OutsideRun(env, w0, all) {
      forall i | 0 <= i < |done| ensures Outside(env, Exec(env, w0, done[..i]), done[i]) {
        assert Outside(env, Exec(env, w0, all[..i]), all[i]);
        assert all[..i] == done[..i];
      }
      assert Outside(env, Exec(env, w0, all[..|done|]), all[|done|]);
      assert all[..|done|] == done;
    }
  }

  lemma LoggedLonger(w0: World, w: World, w': World, done: seq<Call>, answers: seq<Outcome>, call: Call, o: Outcome)
    requires Logged(w0, w, done, answers) && w'.log == w.log + [Entry(call.now, call.event, o)]
    ensures Logged(w0, w', done + [call], answers + [o])
  {
  }

  lemma RunGoesOn(env: Env, w0: World, calls: seq<Call>, done: seq<Call>, answers: seq<Outcome>, core: Core,
                  call: Call, ev: Event, r: Reply)
    requires IsRun(env, w0, calls, done, answers, core)
    requires Performed(call, Call(call.now, ev)) && r == Step(env, core, call.now, ev)
    requires ev.Login? ==> Finds(core.users, ev.login.identifier, ev.found)
    ensures IsRun(env, w0, calls + [call], done + [Call(call.now, ev)], answers + [r.outcome], r.core)
  {
    var w, last := Exec(env, w0, done), Call(call.now, ev);
    assert Exec(env, w0, done + [last]) == Do(env, w, last) by {
      LastCall(env, w0, done, last);
    }
    assert OutsideRun(env, w0, done + [last]) ==> Legal(env, w0, done + [last]) by {
      LegalLonger(env, w0, done, last);
    }
    LoggedLonger(w0, w, Do(env, w, last), done, answers, last, r.outcome);
  }

  lemma RunBegins(env: Env, w0: World)
    ensures IsRun(env, w0, [], [], [], w0.core)
  {
  }

  /** All the objects that a call on the service may change. */
  ghost predicate Owns(repr: set<object>, svc: Services.AuthService)
    reads svc, svc.users, svc.tokenSvc, svc.tokenSvc.sessions, svc.biometricSvc, svc.biometricSvc.deviceSvc,
          svc.biometricSvc.deviceSvc.devices, svc.biometricSvc.challenges
  {
    && svc.tokenSvc.sessions in repr && svc.biometricSvc.deviceSvc.devices in repr
    && svc.biometricSvc.challenges in repr
    && svc.users.refs <= repr && svc.tokenSvc.sessions.refs <= repr
    && svc.biometricSvc.deviceSvc.devices.refs <= repr && svc.biometricSvc.challenges.refs <= repr
  }

  ghost function Footprint(svc: Services.AuthService): set<object>
    reads svc, svc.users, svc.tokenSvc, svc.tokenSvc.sessions, svc.biometricSvc, svc.biometricSvc.deviceSvc,
          svc.biometricSvc.deviceSvc.devices, svc.biometricSvc.challenges
  {
    var users: set<object> := svc.users.refs;
    var sessions: set<object> := svc.tokenSvc.sessions.refs;
    var devices: set<object> := svc.biometricSvc.deviceSvc.devices.refs;
    var challenges: set<object> := svc.biometricSvc.challenges.refs;
    var tables: set<object> :=
      {svc.tokenSvc.sessions as object, svc.biometricSvc.deviceSvc.devices as object,
       svc.biometricSvc.challenges as object};
    users + sessions + devices + challenges + tables
  }

  /** One call, with what it adds to the objects of the service. */
  method Answer(svc: Services.AuthService, ghost repr: set<object>, now: nat, ev: Event)
    returns (o: Outcome, done: Event, ghost repr': set<object>)
    requires svc.Valid() && Owns(repr, svc)
    modifies repr
    ensures svc.Valid() && Owns(repr', svc) && fresh(repr' - repr)
    ensures Performed(Call(now, ev), Call(now, done))
    ensures done.Login? ==> Finds(old(svc.State()).users, done.login.identifier, done.found)
    ensures Reply(svc.State(), o) == Step(svc.env, old(svc.State()), now, done)
  {
    o, done := svc.Handle(now, ev);
    repr' := repr + Footprint(svc);
  }

  /** One more call of a run. */
  method ServeNext(svc: Services.AuthService, ghost repr: set<object>, ghost w0: World, ghost calls: seq<Call>,
                   call: Call, done: seq<Call>, answers: seq<Outcome>)
    returns (done': seq<Call>, answers': seq<Outcome>, ghost repr': set<object>)
    requires svc.Valid() && Owns(repr, svc) && IsRun(svc.env, w0, calls, done, answers, svc.State())
    modifies repr
    ensures svc.Valid() && Owns(repr', svc) && fresh(repr' - repr)
    ensures IsRun(svc.env, w0, calls + [call], done', answers', svc.State())
  {
    ghost var before := svc.State();
    var o, ev;
    o, ev, repr' := Answer(svc, repr, call.now, call.event);
    RunGoesOn(svc.env, w0, calls, done, answers, before, call, ev, Reply(svc.State(), o));
    done', answers' := done + [Call(call.now, ev)], answers + [o];
  }

  /** Any sequence of calls on a service is a run of the state machine, call by call and answer by answer. */
  method Serve(svc: Services.AuthService, ghost repr: set<object>, ghost w0: World, calls: seq<Call>)
    returns (done: seq<Call>, answers: seq<Outcome>, ghost repr': set<object>)
    requires svc.Valid() && Owns(repr, svc) && svc.State() == w0.core
    modifies repr
    ensures svc.Valid() && Owns(repr', svc) && fresh(repr' - repr)
    ensures IsRun(svc.env, w0, calls, done, answers, svc.State())
  {
    done, answers, repr' := [], [], repr;
    ghost var past: seq<Call> := [];
    RunBegins(svc.env, w0);
    for n := 0 to |calls|
      invariant svc.Valid() && Owns(repr', svc) && fresh(repr' - repr)
      invariant past == calls[..n] && IsRun(svc.env, w0, past, done, answers, svc.State())
    {
      done, answers, repr' := ServeNext(svc, repr', w0, past, calls[n], done, answers);
      past := past + [calls[n]];
    }
  }

  /** A call whose biometric check succeeded, by its answer. */
  function Authenticated(call: Call, answer: Outcome): Option<AuthRequest> {
    History.Authenticated(Entry(call.now, call.event, answer))
  }

  /** An enrolment that succeeded, by its answer, of this user on this device. */
  predicate Enrolled(call: Call, answer: Outcome, user: string, device: string) {
    && call.event.Enroll? && answer.Done?
    && call.event.enroll.userId == user && call.event.enroll.deviceId == device
  }

  /**
   * What clients of a new service can rely on, told by their calls and answers alone: no refresh token is exchanged
   * twice, and before every successful biometric check the same user has enrolled the same device successfully.
   * The state behind the answers satisfies the session and challenge invariants.
   */
  method ServeFromStart(env: Env, users: Users, calls: seq<Call>) returns (done: seq<Call>, answers: seq<Outcome>)
    requires Sound(env)
    ensures |done| == |answers| == |calls| && forall i :: 0 <= i < |calls| ==> Performed(calls[i], done[i])
    ensures OutsideRun(env, Start(users), done) ==>
              forall i, j :: 0 <= i < j < |calls| && calls[i].event.Refresh? && calls[j].event.Refresh?
                             && calls[i].event.raw == calls[j].event.raw && answers[i].Renewed? ==>
                !answers[j].Renewed?
    ensures forall k :: 0 <= k < |calls| && Authenticated(calls[k], answers[k]).Some? ==>
              var req := Authenticated(calls[k], answers[k]).value;
              exists j :: 0 <= j < k && Enrolled(calls[j], answers[j], req.userId, req.deviceId)
    ensures OutsideRun(env, Start(users), done) ==>
              && SessionTheorems.TokenInv(env, Exec(env, Start(users), done))
              && ChallengeTheorems.ChallengeInv(env, Exec(env, Start(users), done))
  {
    var svc := new Services.AuthService(env, users);
    ghost var repr := Footprint(svc);
    done, answers, repr := Serve(svc, repr, Start(users), calls);
    ghost var w := Exec(env, Start(users), done);
    if OutsideRun(env, Start(users), done) {
      SessionTheorems.EveryRun(env, users, done);
      ChallengeTheorems.RunKeepsChallenges(env, Start(users), done);
      NoneTwice(w, calls, done, answers);
    }
    DeviceTheorems.RunKeepsDevices(env, Start(users), done);
    EnrolledBefore(env, w, calls, done, answers);
  }

  lemma NoneTwice(w: World, calls: seq<Call>, done: seq<Call>, answers: seq<Outcome>)
    requires |done| == |answers| == |calls| == |w.log| && SessionTheorems.SingleUse(w)
    requires forall i :: 0 <= i < |calls| ==> Performed(calls[i], done[i])
    requires forall i :: 0 <= i < |calls| ==> w.log[i] == Entry(done[i].now, done[i].event, answers[i])
    ensures forall i, j :: 0 <= i < j < |calls| && calls[i].event.Refresh? && calls[j].event.Refresh?
                           && calls[i].event.raw == calls[j].event.raw && answers[i].Renewed? ==>
              !answers[j].Renewed?
  {
    forall i, j | 0 <= i < j < |calls| && calls[i].event.Refresh? && calls[j].event.Refresh?
                  && calls[i].event.raw == calls[j].event.raw && answers[i].Renewed?
      ensures !answers[j].Renewed?
    {
      assert Performed(calls[i], done[i]) && Performed(calls[j], done[j]);
      assert SessionTheorems.IsRotation(w.log[i]) && !SessionTheorems.Rotated(w.log[j], w.log[i].event.raw);
    }
  }

  lemma EnrolledBefore(env: Env, w: World, calls: seq<Call>, done: seq<Call>, answers: seq<Outcome>)
    requires |done| == |answers| == |calls| == |w.log| && DeviceTheorems.AllJustified(env, w.log)
    requires forall i :: 0 <= i < |calls| ==> Performed(calls[i], done[i])
    requires forall i :: 0 <= i < |calls| ==> w.log[i] == Entry(done[i].now, done[i].event, answers[i])
    ensures forall k :: 0 <= k < |calls| && Authenticated(calls[k], answers[k]).Some? ==>
              var req := Authenticated(calls[k], answers[k]).value;
              exists j :: 0 <= j < k && Enrolled(calls[j], answers[j], req.userId, req.deviceId)
  {
    forall k | 0 <= k < |calls| && Authenticated(calls[k], answers[k]).Some?
      ensures var req := Authenticated(calls[k], answers[k]).value;
              exists j :: 0 <= j < k && Enrolled(calls[j], answers[j], req.userId, req.deviceId)
    {
      var req := Authenticated(calls[k], answers[k]).value;
      assert Performed(calls[k], done[k]);
      assert DeviceTheorems.Justified(env, w.log, k, req);
      var j :| DeviceTheorems.EnrolledLast(w.log, k, req.deviceId, req.userId, j);
      assert Performed(calls[j], done[j]);
      assert Enrolled(calls[j], answers[j], req.userId, req.deviceId);
    }
  }
}
