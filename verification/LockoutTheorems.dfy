/** Login lockout: how many passwords can be tried on one account in a given time. */
module LockoutTheorems {
  import opened Basics
  import opened History
  import opened Protocol
  import Text

  ghost predicate NoSuccess(log: seq<Entry>, from: nat, u: string) {
    forall k :: from <= k < |log| ==> !SuccessfulLogin(log[k], u)
  }

  /** The number of failures after which the account is locked after every further one. */
  function Free(cfg: Config): int {
    Max(1, cfg.maxLoginAttempts)
  }

  /** Every counter is at least the number of failures it may have to account for. */
  ghost predicate CountersValid(users: Users) {
    forall u <- users :: users[u].failedAttempts >= 0
  }

  /** From the failure number `free` on, each one costs a whole lockout. */
  ghost predicate Spaced(f: seq<int>, free: int, lockout: int) {
    forall i :: 0 <= i < |f| && free <= i + 1 ==> f[i] >= f[0] + Times(i + 1 - free, lockout)
  }

  /** What the failures `f` since the last success say about the account at time `now`. */
  ghost predicate Paced(cfg: Config, user: User, f: seq<int>, now: int) {
    && user.failedAttempts >= |f|
    && (forall i, j :: 0 <= i <= j < |f| ==> f[i] <= f[j] <= now)
    && Spaced(f, Free(cfg), cfg.lockoutDuration)
    && (|f| >= Free(cfg) ==> user.lockedUntil == Some(f[|f| - 1] + cfg.lockoutDuration))
  }

  ghost predicate PacedSince(env: Env, w: World, from: nat, u: string) {
    u in w.core.users && Paced(env.cfg, w.core.users[u], Failures(w.log, from, u), w.now)
  }

  lemma OneMoreFailure(cfg: Config, user: User, f: seq<int>, before: int, now: int)
    requires Paced(cfg, user, f, before) && before <= now && !Locked(user, now)
    ensures Paced(cfg, FailedLogin(cfg, user, now), f + [now], now)
  {
    SpacedFurther(f, Free(cfg), cfg.lockoutDuration, now);
  }

  lemma SpacedFurther(f: seq<int>, free: int, lockout: int, now: int)
    requires Spaced(f, free, lockout) && free >= 1
    requires |f| > 0 ==> f[0] <= now
    requires |f| >= free && |f| > 0 ==> now >= f[|f| - 1] + lockout
    ensures Spaced(f + [now], free, lockout)
  {
    var f' := f + [now];
    forall i | 0 <= i < |f'| && free <= i + 1 ensures f'[i] >= f'[0] + Times(i + 1 - free, lockout) {
      if i == |f| && i >= 1 && free <= i {
        assert f[i - 1] >= f[0] + Times(i - free, lockout);
        TimesStep(i - free, lockout);
      }
    }
  }

  /** What any call does to the account of `u`. */
  lemma StepOnUser(env: Env, core: Core, now: nat, ev: Event, u: string)
    requires u in core.users
    ensures var r := Step(env, core, now, ev);
            && r.core.users.Keys == core.users.Keys
            && var e := Entry(now, ev, r.outcome);
            if FailedCheck(e, u) then
              LoginGate(core.users[u], now).None? && r.core.users[u] == FailedLogin(env.cfg, core.users[u], now)
            else if SuccessfulLogin(e, u) then
              r.core.users[u] == core.users[u].(failedAttempts := 0, lockedUntil := None)
            else r.core.users[u] == core.users[u]
  {
    match ev {
      case Login(_, _, _) =>
      case _ =>
        assert Step(env, core, now, ev).core.users == core.users;
    }
  }

  lemma CallKeepsCounters(env: Env, w: World, call: Call)
    requires CountersValid(w.core.users)
    ensures CountersValid(Do(env, w, call).core.users)
  {
    var users' := Do(env, w, call).core.users;
    forall u <- users' ensures users'[u].failedAttempts >= 0 {
      if u in w.core.users {
        StepOnUser(env, w.core, call.now, call.event, u);
      } else {
        StepNoNewUser(env, w.core, call.now, call.event);
      }
    }
  }

  lemma StepNoNewUser(env: Env, core: Core, now: nat, ev: Event)
    ensures Step(env, core, now, ev).core.users.Keys == core.users.Keys
  {
    match ev {
      case Login(_, _, _) =>
      case _ =>
        assert Step(env, core, now, ev).core.users == core.users;
    }
  }

  lemma CallKeepsPace(env: Env, w: World, call: Call, from: nat, u: string)
    requires PacedSince(env, w, from, u) && Enabled(env, w, call) && from <= |w.log|
    requires !SuccessfulLogin(Entry(call.now, call.event, Step(env, w.core, call.now, call.event).outcome), u)
    ensures PacedSince(env, Do(env, w, call), from, u)
  {
    var e := Entry(call.now, call.event, Step(env, w.core, call.now, call.event).outcome);
    var user, f := w.core.users[u], Failures(w.log, from, u);
    StepOnUser(env, w.core, call.now, call.event, u);
    FailuresAppended(w.log, e, from, u);
    if FailedCheck(e, u) {
      OneMoreFailure(env.cfg, user, f, w.now, call.now);
    } else {
      LaterIsPaced(env.cfg, user, f, w.now, call.now);
    }
  }

  lemma LaterIsPaced(cfg: Config, user: User, f: seq<int>, before: int, now: int)
    requires Paced(cfg, user, f, before) && before <= now
    ensures Paced(cfg, user, f, now)
  {
  }

  lemma {:induction false} LogGrows(env: Env, w: World, calls: seq<Call>)
    ensures w.log <= Exec(env, w, calls).log
    decreases |calls|
  {
    if calls != [] {
      LogGrows(env, Do(env, w, calls[0]), calls[1..]);
    }
  }

  lemma {:induction false} RunKeepsPace(env: Env, w: World, calls: seq<Call>, from: nat, u: string)
    requires PacedSince(env, w, from, u) && Legal(env, w, calls) && from <= |w.log|
    requires NoSuccess(Exec(env, w, calls).log, from, u)
    ensures PacedSince(env, Exec(env, w, calls), from, u)
    decreases |calls|
  {
    if calls != [] {
      var w' := Do(env, w, calls[0]);
      LogGrows(env, w', calls[1..]);
      assert Exec(env, w, calls).log[|w.log|] == w'.log[|w.log|];
      CallKeepsPace(env, w, calls[0], from, u);
      RunKeepsPace(env, w', calls[1..], from, u);
    }
  }

  lemma {:induction false} RunKeepsCounters(env: Env, w: World, calls: seq<Call>)
    requires CountersValid(w.core.users)
    ensures CountersValid(Exec(env, w, calls).core.users)
    ensures Exec(env, w, calls).core.users.Keys == w.core.users.Keys
    decreases |calls|
  {
    if calls != [] {
      CallKeepsCounters(env, w, calls[0]);
      StepNoNewUser(env, w.core, calls[0].now, calls[0].event);
      RunKeepsCounters(env, Do(env, w, calls[0]), calls[1..]);
    }
  }

  /** A multiple of the lockout that fits into `t` is counted by the quotient. */
  lemma Quotient(m: int, d: int, t: int)
    requires d > 0 && Times(m, d) <= t
    ensures m <= t / d
  {
    assert t == Times(t / d, d) + t % d;
    TimesStep(t / d, d);
    if m > t / d {
      TimesOrder(t / d + 1, m, d);
    }
  }

  lemma PacedBound(cfg: Config, user: User, f: seq<int>, now: int, m: nat, t: nat)
    requires cfg.lockoutDuration > 0 && Paced(cfg, user, f, now)
    requires 1 <= m <= |f| && f[m - 1] <= f[0] + t
    ensures m <= Free(cfg) + t / cfg.lockoutDuration
  {
    if m >= Free(cfg) {
      Quotient(m - Free(cfg), cfg.lockoutDuration, t);
    }
  }

  /**
   * From any state, over any calls without a successful login of `u`: if the m-th failed password check comes
   * within `t` of the first, then m <= max(1, MaxLoginAttempts) + floor(t / LockoutDuration).
   */
  lemma LockoutBound(env: Env, w: World, calls: seq<Call>, u: string, m: nat, t: nat)
    requires env.cfg.lockoutDuration > 0 && CountersValid(w.core.users) && u in w.core.users
    requires Legal(env, w, calls) && NoSuccess(Exec(env, w, calls).log, |w.log|, u)
    requires var f := Failures(Exec(env, w, calls).log, |w.log|, u); 1 <= m <= |f| && f[m - 1] <= f[0] + t
    ensures m <= Max(1, env.cfg.maxLoginAttempts) + t / env.cfg.lockoutDuration
  {
    RunKeepsPace(env, w, calls, |w.log|, u);
    var end := Exec(env, w, calls);
    PacedBound(env.cfg, end.core.users[u], Failures(end.log, |w.log|, u), end.now, m, t);
  }

  /** In every run, for any stretch of it between two successful logins of `u`. */
  lemma LockoutInEveryRun(env: Env, users: Users, before: seq<Call>, during: seq<Call>, u: string, m: nat, t: nat)
    requires env.cfg.lockoutDuration > 0 && CountersValid(users) && u in users
    requires Legal(env, Start(users), before)
    requires var mid := Exec(env, Start(users), before);
             && Legal(env, mid, during)
             && NoSuccess(Exec(env, mid, during).log, |mid.log|, u)
             && var f := Failures(Exec(env, mid, during).log, |mid.log|, u);
             1 <= m <= |f| && f[m - 1] <= f[0] + t
    ensures m <= Max(1, env.cfg.maxLoginAttempts) + t / env.cfg.lockoutDuration
  {
    RunKeepsCounters(env, Start(users), before);
    LockoutBound(env, Exec(env, Start(users), before), during, u, m, t);
  }

  // ----- the bound is reached -----

  /** Attempts at once while they are free, then one at the end of each lockout. */
  function Schedule(cfg: Config, i: nat): nat
    requires cfg.lockoutDuration > 0
  {
    Times(Max(0, i + 1 - Free(cfg)), cfg.lockoutDuration)
  }

  function Scheduled(cfg: Config, n: nat): (f: seq<int>)
    requires cfg.lockoutDuration > 0
    ensures |f| == n && forall i :: 0 <= i < n ==> f[i] == Schedule(cfg, i)
  {
    if n == 0 then [] else Scheduled(cfg, n - 1) + [Schedule(cfg, n - 1) as int]
  }

  /** Random IDs that were never drawn before. */
  function NewDraws(i: nat): Draws {
    Draws(Text.Digits(4 * i), Text.Digits(4 * i + 1), Text.Digits(4 * i + 2), Text.Digits(4 * i + 3))
  }

  function Attempt(cfg: Config, u: string, req: LoginRequest, i: nat): Call
    requires cfg.lockoutDuration > 0
  {
    Call(Schedule(cfg, i), Login(req, Some(u), NewDraws(i)))
  }

  /** The same request at the scheduled times. */
  function Attempts(cfg: Config, u: string, req: LoginRequest, n: nat): seq<Call>
    requires cfg.lockoutDuration > 0
  {
    if n == 0 then [] else Attempts(cfg, u, req, n - 1) + [Attempt(cfg, u, req, n - 1)]
  }

  /** An enabled account in use for the first time, and a request for it with a wrong password. */
  ghost predicate WrongRequest(env: Env, user: User, req: LoginRequest) {
    && user.failedAttempts == 0 && user.lockedUntil.None? && user.status != UserDisabled
    && (req.identifier == user.phone || req.identifier == user.email)
    && !env.checkPassword(req.password, user.passwordHash)
  }

  /** The account after the first `n` attempts of the schedule: no lock is left at the time of the next one. */
  ghost predicate Behind(cfg: Config, user: User, u: User, n: nat)
    requires cfg.lockoutDuration > 0
  {
    && u.phone == user.phone && u.email == user.email && u.passwordHash == user.passwordHash
    && u.status != UserDisabled && u.failedAttempts == n
    && u.lockedUntil == (if n >= Free(cfg) then Some(Schedule(cfg, n)) else None)
  }

  lemma NextBehind(cfg: Config, user: User, u: User, n: nat)
    requires cfg.lockoutDuration > 0 && Behind(cfg, user, u, n)
    ensures LoginGate(u, Schedule(cfg, n)).None?
    ensures Behind(cfg, user, FailedLogin(cfg, u, Schedule(cfg, n)), n + 1)
    ensures Schedule(cfg, n) <= Schedule(cfg, n + 1)
  {
    TimesStep(n + 1 - Free(cfg), cfg.lockoutDuration);
  }

  ghost predicate DrawnBelow(used: set<string>, n: nat) {
    forall x <- used :: exists k: nat :: k < n && x == Text.Digits(k)
  }

  lemma DrawsAreNew(used: set<string>, i: nat, cfg: Config, u: string, req: LoginRequest)
    requires cfg.lockoutDuration > 0 && DrawnBelow(used, 4 * i)
    ensures var d := Drawn(Attempt(cfg, u, req, i).event);
            && Distinct(d) && (forall x <- d :: x !in used)
            && DrawnBelow(used + (set x | x in d), 4 * (i + 1))
  {
    var d := Drawn(Attempt(cfg, u, req, i).event);
    assert forall k :: 0 <= k < 4 ==> d[k] == Text.Digits(4 * i + k);
    forall x, k: nat | 0 <= x < 4 && k < 4 * i + x ensures d[x] != Text.Digits(k) {
      if d[x] == Text.Digits(k) {
        Text.DigitsInjective(4 * i + x, k);
      }
    }
  }

  /** The state of the run after `n` attempts. */
  ghost predicate AfterAttempts(env: Env, u: string, user: User, w: World, n: nat)
    requires env.cfg.lockoutDuration > 0
  {
    && w.core.users.Keys == {u} && Behind(env.cfg, user, w.core.users[u], n)
    && w.now <= Schedule(env.cfg, n) && DrawnBelow(w.used, 4 * n)
    && NoSuccess(w.log, 0, u) && Failures(w.log, 0, u) == Scheduled(env.cfg, n)
  }

  lemma AttemptFails(env: Env, u: string, user: User, req: LoginRequest, w: World, n: nat)
    requires env.cfg.lockoutDuration > 0 && WrongRequest(env, user, req) && AfterAttempts(env, u, user, w, n)
    ensures var call := Attempt(env.cfg, u, req, n);
            && Enabled(env, w, call)
            && Step(env, w.core, call.now, call.event) ==
               Reply(w.core.(users := w.core.users[u := FailedLogin(env.cfg, w.core.users[u], call.now)]),
                     Denied(InvalidCredentials))
  {
    NextBehind(env.cfg, user, w.core.users[u], n);
    DrawsAreNew(w.used, n, env.cfg, u, req);
  }

  lemma AttemptKeeps(env: Env, u: string, user: User, req: LoginRequest, w: World, n: nat)
    requires env.cfg.lockoutDuration > 0 && WrongRequest(env, user, req) && AfterAttempts(env, u, user, w, n)
    ensures AfterAttempts(env, u, user, Do(env, w, Attempt(env.cfg, u, req, n)), n + 1)
  {
    var call := Attempt(env.cfg, u, req, n);
    AttemptFails(env, u, user, req, w, n);
    NextBehind(env.cfg, user, w.core.users[u], n);
    DrawsAreNew(w.used, n, env.cfg, u, req);
    FailuresAppended(w.log, Entry(call.now, call.event, Denied(InvalidCredentials)), 0, u);
  }

  ghost predicate Reached(env: Env, u: string, user: User, w0: World, calls: seq<Call>, n: nat) {
    env.cfg.lockoutDuration > 0 && Legal(env, w0, calls) && AfterAttempts(env, u, user, Exec(env, w0, calls), n)
  }

  lemma AttemptsGoOn(env: Env, u: string, user: User, req: LoginRequest, w0: World, calls: seq<Call>, n: nat)
    requires env.cfg.lockoutDuration > 0 && WrongRequest(env, user, req) && Reached(env, u, user, w0, calls, n)
    ensures Reached(env, u, user, w0, calls + [Attempt(env.cfg, u, req, n)], n + 1)
  {
    var w, call := Exec(env, w0, calls), Attempt(env.cfg, u, req, n);
    assert Enabled(env, w, call) by {
      AttemptFails(env, u, user, req, w, n);
    }
    AttemptKeeps(env, u, user, req, w, n);
    LastCall(env, w0, calls, call);
  }

  /** What holds at the start and is kept by each attempt holds after all of them. */
  lemma {:induction false} AttemptsInduct(cfg: Config, u: string, req: LoginRequest, n: nat,
                                          holds: (seq<Call>, nat) -> bool)
    requires cfg.lockoutDuration > 0 && holds([], 0)
    requires forall calls, i: nat :: holds(calls, i) ==> holds(calls + [Attempt(cfg, u, req, i)], i + 1)
    ensures holds(Attempts(cfg, u, req, n), n)
  {
    if n > 0 {
      AttemptsInduct(cfg, u, req, n - 1, holds);
    }
  }

  lemma ScheduledRun(env: Env, u: string, user: User, req: LoginRequest, w0: World, n: nat)
    requires env.cfg.lockoutDuration > 0 && WrongRequest(env, user, req) && Reached(env, u, user, w0, [], 0)
    ensures Reached(env, u, user, w0, Attempts(env.cfg, u, req, n), n)
  {
    ghost var holds: (seq<Call>, nat) -> bool :=
      (calls: seq<Call>, i: nat) => Reached(env, u, user, w0, calls, i);
    forall calls, i: nat | holds(calls, i) ensures holds(calls + [Attempt(env.cfg, u, req, i)], i + 1) {
      AttemptsGoOn(env, u, user, req, w0, calls, i);
    }
    AttemptsInduct(env.cfg, u, req, n, holds);
  }

  lemma LastScheduled(cfg: Config, t: nat)
    requires cfg.lockoutDuration > 0
    ensures Schedule(cfg, Free(cfg) + t / cfg.lockoutDuration - 1) <= Schedule(cfg, 0) + t
  {
    var whole := t / cfg.lockoutDuration;
    assert t == Times(whole, cfg.lockoutDuration) + t % cfg.lockoutDuration;
    assert Schedule(cfg, 0) == Times(0, cfg.lockoutDuration) == 0;
  }

  /**
   * The bound is tight for every `t`: there is a legal run, from the start, of logins with a wrong password that has
   * max(1, MaxLoginAttempts) + floor(t / LockoutDuration) failed checks, the last within `t` of the first.
   */
  lemma BoundIsReached(env: Env, u: string, user: User, req: LoginRequest, t: nat)
    requires env.cfg.lockoutDuration > 0 && WrongRequest(env, user, req)
    ensures var m := Max(1, env.cfg.maxLoginAttempts) + t / env.cfg.lockoutDuration;
            var calls := Attempts(env.cfg, u, req, m);
            var log := Exec(env, Start(map[u := user]), calls).log;
            && Legal(env, Start(map[u := user]), calls) && NoSuccess(log, 0, u)
            && |Failures(log, 0, u)| == m && Failures(log, 0, u)[m - 1] <= Failures(log, 0, u)[0] + t
  {
    var w0 := Start(map[u := user]);
    var m := Free(env.cfg) + t / env.cfg.lockoutDuration;
    assert Reached(env, u, user, w0, [], 0);
    ScheduledRun(env, u, user, req, w0, m);
    ReachedBound(env, u, user, Exec(env, w0, Attempts(env.cfg, u, req, m)), t);
  }

  lemma ReachedBound(env: Env, u: string, user: User, w: World, t: nat)
    requires env.cfg.lockoutDuration > 0
    requires AfterAttempts(env, u, user, w, Free(env.cfg) + t / env.cfg.lockoutDuration)
    ensures var m := Max(1, env.cfg.maxLoginAttempts) + t / env.cfg.lockoutDuration;
            && NoSuccess(w.log, 0, u) && |Failures(w.log, 0, u)| == m
            && Failures(w.log, 0, u)[m - 1] <= Failures(w.log, 0, u)[0] + t
  {
    LastScheduled(env.cfg, t);
  }
}
