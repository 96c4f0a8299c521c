/** What every run keeps about sessions and refresh tokens. */
module SessionTheorems {
  import opened Basics
  import opened Tokens
  import opened Protocol

  /** Index of the newest refresh token issued for a session, or -1. */
  function Newest(h: seq<Issue>, s: string): (n: int)
    ensures -1 <= n < |h|
    ensures n >= 0 ==> h[n].payload.sessionId == s
    ensures forall i :: n < i < |h| ==> h[i].payload.sessionId != s
  {
    if h == [] then -1
    else if h[|h| - 1].payload.sessionId == s then |h| - 1
    else Newest(h[..|h| - 1], s)
  }

  /** How many refresh tokens were issued for a session. */
  function IssuedFor(h: seq<Issue>, s: string): nat {
    if h == [] then 0
    else IssuedFor(h[..|h| - 1], s) + if h[|h| - 1].payload.sessionId == s then 1 else 0
  }

  lemma Appended(h: seq<Issue>, x: Issue, s: string)
    ensures Newest(h + [x], s) == if x.payload.sessionId == s then |h| else Newest(h, s)
    ensures IssuedFor(h + [x], s) == IssuedFor(h, s) + if x.payload.sessionId == s then 1 else 0
  {
    assert (h + [x])[..|h|] == h;
  }

  // ----- the lineage invariant -----

  ghost predicate GoodIssue(env: Env, sessions: Sessions, used: set<string>, x: Issue) {
    && x.raw == env.sign(x.payload, env.cfg.refreshSecret)
    && x.payload.typ == REFRESH
    && x.payload.sessionId in sessions
    && x.payload.family == sessions[x.payload.sessionId].family
    && x.payload.jti in used
  }

  ghost predicate GoodSession(env: Env, sessions: Sessions, issued: seq<Issue>, used: set<string>, s: string)
    requires s in sessions
  {
    && s in used
    && sessions[s].family in used
    && Newest(issued, s) >= 0
    && sessions[s].refreshHash == env.hash(issued[Newest(issued, s)].raw)
    && IssuedFor(issued, s) == sessions[s].useCount + 1
  }

  ghost predicate Lineage(env: Env, sessions: Sessions, issued: seq<Issue>, used: set<string>) {
    && (forall i :: 0 <= i < |issued| ==> GoodIssue(env, sessions, used, issued[i]))
    && (forall i, j :: 0 <= i < j < |issued| ==> issued[i].payload.jti != issued[j].payload.jti)
    && (forall s <- sessions :: GoodSession(env, sessions, issued, used, s))
    && FamiliesDiffer(sessions)
  }

  ghost predicate FamiliesDiffer(sessions: Sessions) {
    forall s, t :: s in sessions && t in sessions && s != t ==> sessions[s].family != sessions[t].family
  }

  ghost predicate SessionInv(env: Env, w: World) {
    Lineage(env, w.core.sessions, w.issued, w.used)
  }

  /** More drawn IDs never hurt. */
  lemma MoreUsed(env: Env, sessions: Sessions, issued: seq<Issue>, used: set<string>, used': set<string>)
    requires Lineage(env, sessions, issued, used) && used <= used'
    ensures Lineage(env, sessions, issued, used')
  {
    forall i | 0 <= i < |issued| ensures GoodIssue(env, sessions, used', issued[i]) {
      assert GoodIssue(env, sessions, used, issued[i]);
    }
    forall s <- sessions ensures GoodSession(env, sessions, issued, used', s) {
      assert GoodSession(env, sessions, issued, used, s);
    }
  }

  /** A token with a new ID keeps the IDs distinct. */
  lemma NewJti(env: Env, sessions: Sessions, issued: seq<Issue>, used: set<string>, x: Issue)
    requires Lineage(env, sessions, issued, used) && x.payload.jti !in used
    ensures var h := issued + [x]; forall i, j :: 0 <= i < j < |h| ==> h[i].payload.jti != h[j].payload.jti
  {
    forall i | 0 <= i < |issued| ensures issued[i].payload.jti != x.payload.jti {
      assert GoodIssue(env, sessions, used, issued[i]);
    }
  }

  /** A login: a new session under new IDs, with its first token. */
  ghost predicate Creation(env: Env, used: set<string>, sid: string, row: Session, x: Issue, used': set<string>) {
    && sid !in used && row.family !in used && x.payload.jti !in used
    && x.raw == env.sign(x.payload, env.cfg.refreshSecret) && x.payload.typ == REFRESH
    && x.payload.sessionId == sid && x.payload.family == row.family
    && row.refreshHash == env.hash(x.raw) && row.useCount == 0
    && used + {sid, row.family, x.payload.jti} <= used'
  }

  lemma CreatedIsNew(env: Env, sessions: Sessions, issued: seq<Issue>, used: set<string>, sid: string, row: Session,
                     x: Issue, used': set<string>)
    requires Lineage(env, sessions, issued, used) && Creation(env, used, sid, row, x, used')
    ensures sid !in sessions
    ensures forall i :: 0 <= i < |issued| ==> issued[i].payload.sessionId != sid
    ensures forall s <- sessions :: sessions[s].family != row.family
  {
    forall s <- sessions ensures s != sid && sessions[s].family != row.family {
      assert GoodSession(env, sessions, issued, used, s);
    }
    forall i | 0 <= i < |issued| ensures issued[i].payload.sessionId != sid {
      assert GoodIssue(env, sessions, used, issued[i]);
    }
  }

  lemma CreatedIssues(env: Env, sessions: Sessions, issued: seq<Issue>, used: set<string>, sid: string, row: Session,
                      x: Issue, used': set<string>)
    requires Lineage(env, sessions, issued, used) && Creation(env, used, sid, row, x, used')
    ensures var h := issued + [x]; forall i :: 0 <= i < |h| ==> GoodIssue(env, sessions[sid := row], used', h[i])
  {
    CreatedIsNew(env, sessions, issued, used, sid, row, x, used');
    var h := issued + [x];
    forall i | 0 <= i < |h| ensures GoodIssue(env, sessions[sid := row], used', h[i]) {
      assert i < |issued| ==> GoodIssue(env, sessions, used, issued[i]);
    }
  }

  lemma CreatedSession(env: Env, sessions: Sessions, issued: seq<Issue>, used: set<string>, sid: string, row: Session,
                       x: Issue, used': set<string>, s: string)
    requires Lineage(env, sessions, issued, used) && Creation(env, used, sid, row, x, used')
    requires s in sessions || s == sid
    ensures GoodSession(env, sessions[sid := row], issued + [x], used', s)
  {
    CreatedIsNew(env, sessions, issued, used, sid, row, x, used');
    Appended(issued, x, s);
    if s == sid {
      NoneIssued(issued, sid);
    } else {
      assert GoodSession(env, sessions, issued, used, s);
    }
  }

  lemma CreatedKeeps(env: Env, sessions: Sessions, issued: seq<Issue>, used: set<string>, sid: string, row: Session,
                     x: Issue, used': set<string>)
    requires Lineage(env, sessions, issued, used) && Creation(env, used, sid, row, x, used')
    ensures Lineage(env, sessions[sid := row], issued + [x], used')
  {
    CreatedIsNew(env, sessions, issued, used, sid, row, x, used');
    CreatedIssues(env, sessions, issued, used, sid, row, x, used');
    NewJti(env, sessions, issued, used, x);
    forall s | s in sessions || s == sid ensures GoodSession(env, sessions[sid := row], issued + [x], used', s) {
      CreatedSession(env, sessions, issued, used, sid, row, x, used', s);
    }
  }

  lemma {:induction false} NoneIssued(h: seq<Issue>, s: string)
    requires forall i :: 0 <= i < |h| ==> h[i].payload.sessionId != s
    ensures IssuedFor(h, s) == 0
  {
    if h != [] {
      NoneIssued(h[..|h| - 1], s);
    }
  }

  /** A rotation or an exchange: one more token for an existing session. */
  ghost predicate Renewal(env: Env, sessions: Sessions, used: set<string>, sid: string, x: Issue, used': set<string>) {
    && sid in sessions && x.payload.jti !in used
    && x.raw == env.sign(x.payload, env.cfg.refreshSecret) && x.payload.typ == REFRESH
    && x.payload.sessionId == sid && x.payload.family == sessions[sid].family
    && used + {x.payload.jti} <= used'
  }

  lemma RenewedIssue(env: Env, sessions: Sessions, used: set<string>, sid: string, row: Session, used': set<string>,
                     y: Issue)
    requires sid in sessions && row.family == sessions[sid].family && used <= used'
    requires GoodIssue(env, sessions, used, y)
    ensures GoodIssue(env, sessions[sid := row], used', y)
  {
  }

  lemma RenewedSession(env: Env, sessions: Sessions, issued: seq<Issue>, used: set<string>, sid: string, now: int,
                       x: Issue, used': set<string>, s: string)
    requires Renewal(env, sessions, used, sid, x, used')
    requires s in sessions && GoodSession(env, sessions, issued, used, s)
    ensures GoodSession(env, sessions[sid := Renew(env, sessions[sid], x.raw, now)], issued + [x], used', s)
  {
    Appended(issued, x, s);
  }

  lemma RenewedKeeps(env: Env, sessions: Sessions, issued: seq<Issue>, used: set<string>, sid: string, now: int,
                     x: Issue, used': set<string>)
    requires Lineage(env, sessions, issued, used) && Renewal(env, sessions, used, sid, x, used')
    ensures Lineage(env, sessions[sid := Renew(env, sessions[sid], x.raw, now)], issued + [x], used')
  {
    var row, issued' := Renew(env, sessions[sid], x.raw, now), issued + [x];
    var sessions' := sessions[sid := row];
    NewJti(env, sessions, issued, used, x);
    FamiliesKept(sessions, sid, row);
    forall i | 0 <= i < |issued'| ensures GoodIssue(env, sessions', used', issued'[i]) {
      if i < |issued| {
        RenewedIssue(env, sessions, used, sid, row, used', issued[i]);
      }
    }
    forall s <- sessions' ensures GoodSession(env, sessions', issued', used', s) {
      RenewedSession(env, sessions, issued, used, sid, now, x, used', s);
    }
  }

  lemma FamiliesKept(sessions: Sessions, sid: string, row: Session)
    requires sid in sessions && row.family == sessions[sid].family && FamiliesDiffer(sessions)
    ensures FamiliesDiffer(sessions[sid := row])
  {
  }

  ghost predicate OnlyStatusDiffers(a: Sessions, b: Sessions) {
    a.Keys == b.Keys && forall s <- a :: b[s] == a[s].(status := b[s].status)
  }

  /** A revocation of any kind. */
  lemma RestatusKeeps(env: Env, sessions: Sessions, sessions': Sessions, issued: seq<Issue>, used: set<string>)
    requires Lineage(env, sessions, issued, used) && OnlyStatusDiffers(sessions, sessions')
    ensures Lineage(env, sessions', issued, used)
  {
    forall i | 0 <= i < |issued| ensures GoodIssue(env, sessions', used, issued[i]) {
      assert GoodIssue(env, sessions, used, issued[i]);
    }
    forall s <- sessions' ensures GoodSession(env, sessions', issued, used, s) {
      assert s in sessions && GoodSession(env, sessions, issued, used, s);
    }
  }

  lemma RefusedRotation(env: Env, sessions: Sessions, now: int, raw: string, device: string, ja: string, jr: string)
    ensures var (after, o) := Rotate(env, sessions, now, raw, device, ja, jr);
            if o.Renewed? then env.verify(raw, env.cfg.refreshSecret, Unix(now)).Valid?
            else OnlyStatusDiffers(sessions, after)
  {
  }

  /** With no token handed out, a call changes sessions in their status only. */
  lemma QuietCall(env: Env, core: Core, now: nat, ev: Event)
    requires Handed(env, core, now, ev) == []
    ensures OnlyStatusDiffers(core.sessions, Step(env, core, now, ev).core.sessions)
  {
    if ev.Refresh? {
      RefusedRotation(env, core.sessions, now, ev.raw, ev.deviceId, ev.accessJti, ev.refreshJti);
    } else if !ev.Logout? && !ev.LogoutAll? {
      OtherQuietCall(env, core, now, ev);
    }
  }

  lemma OtherQuietCall(env: Env, core: Core, now: nat, ev: Event)
    requires !ev.Refresh? && !ev.Logout? && !ev.LogoutAll? && Handed(env, core, now, ev) == []
    ensures Step(env, core, now, ev).core.sessions == core.sessions
  {
  }

  /** A presented token is issued, and its payload is the issued one, or its hash matches no session. */
  lemma PresentedPayload(env: Env, w: World, now: nat, raw: string, i: int)
    requires Sound(env) && SessionInv(env, w)
    requires 0 <= i < |w.issued| && w.issued[i].raw == raw
    ensures env.verify(raw, env.cfg.refreshSecret, Unix(now)) ==
            if Unix(now) > w.issued[i].payload.exp then Expired else Valid(w.issued[i].payload)
  {
    assert GoodIssue(env, w.core.sessions, w.used, w.issued[i]);
  }

  /** Two issued tokens are different texts. */
  lemma IssuedTextsDiffer(env: Env, w: World, i: int, j: int)
    requires Sound(env) && SessionInv(env, w)
    requires 0 <= i < |w.issued| && 0 <= j < |w.issued| && w.issued[i].raw == w.issued[j].raw
    ensures i == j
  {
    var p, q := w.issued[i].payload, w.issued[j].payload;
    assert GoodIssue(env, w.core.sessions, w.used, w.issued[i]);
    assert GoodIssue(env, w.core.sessions, w.used, w.issued[j]);
    var early := if p.exp < q.exp then p.exp else q.exp;
    assert env.verify(w.issued[i].raw, env.cfg.refreshSecret, early) == Valid(p);
    assert env.verify(w.issued[j].raw, env.cfg.refreshSecret, early) == Valid(q);
  }

  /** The four conditions under which a text rotates, over the history of issued tokens. */
  ghost predicate Rotatable(w: World, now: nat, raw: string, device: string, i: int) {
    && 0 <= i < |w.issued| && w.issued[i].raw == raw
    && var p := w.issued[i].payload;
    && i == Newest(w.issued, p.sessionId)
    && p.sessionId in w.core.sessions && w.core.sessions[p.sessionId].status == Active
    && p.deviceId == device
    && Unix(now) <= p.exp
  }

  /**
   * For every text whatsoever: rotation succeeds iff the text is the newest refresh token issued for its
   * session, that session is active, the device matches and the token has not expired.
   */
  lemma RotationExactly(env: Env, w: World, now: nat, raw: string, device: string, ja: string, jr: string)
    requires Sound(env) && SessionInv(env, w)
    requires Enabled(env, w, Call(now, Refresh(raw, device, ja, jr)))
    ensures Step(env, w.core, now, Refresh(raw, device, ja, jr)).outcome.Renewed? <==>
            exists i :: Rotatable(w, now, raw, device, i)
  {
    var v := env.verify(raw, env.cfg.refreshSecret, Unix(now));
    if i :| Rotatable(w, now, raw, device, i) {
      PresentedPayload(env, w, now, raw, i);
      assert GoodIssue(env, w.core.sessions, w.used, w.issued[i]);
      assert GoodSession(env, w.core.sessions, w.issued, w.used, w.issued[i].payload.sessionId);
    }
    if Step(env, w.core, now, Refresh(raw, device, ja, jr)).outcome.Renewed? {
      var s := v.payload.sessionId;
      assert GoodSession(env, w.core.sessions, w.issued, w.used, s);
      var i := Newest(w.issued, s);
      assert w.issued[i].raw == raw;
      PresentedPayload(env, w, now, raw, i);
      assert Rotatable(w, now, raw, device, i);
    }
  }

  lemma LoginKeeps(env: Env, w: World, call: Call)
    requires SessionInv(env, w) && Enabled(env, w, call)
    requires call.event.Login? && Handed(env, w.core, call.now, call.event) != []
    ensures SessionInv(env, Do(env, w, call))
  {
    var w', d := Do(env, w, call), call.event.draws;
    var x := Handed(env, w.core, call.now, call.event)[0];
    assert Drawn(call.event)[0] == d.sessionId && Drawn(call.event)[1] == d.family
           && Drawn(call.event)[3] == d.refreshJti;
    CreatedKeeps(env, w.core.sessions, w.issued, w.used, d.sessionId, w'.core.sessions[d.sessionId], x, w'.used);
  }

  lemma RefreshKeeps(env: Env, w: World, call: Call)
    requires Sound(env) && SessionInv(env, w) && Enabled(env, w, call)
    requires call.event.Refresh? && Handed(env, w.core, call.now, call.event) != []
    ensures SessionInv(env, Do(env, w, call))
  {
    var w', e := Do(env, w, call), call.event;
    var x := Handed(env, w.core, call.now, e)[0];
    assert Drawn(e)[1] == e.refreshJti;
    RotationExactly(env, w, call.now, e.raw, e.deviceId, e.accessJti, e.refreshJti);
    var i :| Rotatable(w, call.now, e.raw, e.deviceId, i);
    PresentedPayload(env, w, call.now, e.raw, i);
    assert GoodIssue(env, w.core.sessions, w.used, w.issued[i]);
    RenewedKeeps(env, w.core.sessions, w.issued, w.used, x.payload.sessionId, call.now, x, w'.used);
  }

  lemma ExchangeKeeps(env: Env, w: World, call: Call)
    requires SessionInv(env, w) && Enabled(env, w, call)
    requires call.event.Exchange? && Handed(env, w.core, call.now, call.event) != []
    ensures SessionInv(env, Do(env, w, call))
  {
    var w' := Do(env, w, call);
    var x := Handed(env, w.core, call.now, call.event)[0];
    assert Drawn(call.event)[1] == call.event.refreshJti;
    RenewedKeeps(env, w.core.sessions, w.issued, w.used, call.event.sessionId, call.now, x, w'.used);
  }

  lemma QuietKeeps(env: Env, w: World, call: Call)
    requires SessionInv(env, w) && Handed(env, w.core, call.now, call.event) == []
    ensures SessionInv(env, Do(env, w, call))
  {
    var w' := Do(env, w, call);
    QuietCall(env, w.core, call.now, call.event);
    RestatusKeeps(env, w.core.sessions, w'.core.sessions, w.issued, w.used);
    MoreUsed(env, w'.core.sessions, w.issued, w.used, w'.used);
    assert w'.issued == w.issued;
  }

  /** One call keeps the lineage invariant. */
  lemma CallKeepsSessions(env: Env, w: World, call: Call)
    requires Sound(env) && SessionInv(env, w) && Enabled(env, w, call)
    ensures SessionInv(env, Do(env, w, call))
  {
    if Handed(env, w.core, call.now, call.event) == [] {
      QuietKeeps(env, w, call);
    } else if call.event.Login? {
      LoginKeeps(env, w, call);
    } else if call.event.Refresh? {
      RefreshKeeps(env, w, call);
    } else {
      ExchangeKeeps(env, w, call);
    }
  }

  lemma {:induction false} RunKeepsSessions(env: Env, w: World, calls: seq<Call>)
    requires Sound(env) && SessionInv(env, w) && Legal(env, w, calls)
    ensures SessionInv(env, Exec(env, w, calls))
    decreases |calls|
  {
    if calls != [] {
      CallKeepsSessions(env, w, calls[0]);
      RunKeepsSessions(env, Do(env, w, calls[0]), calls[1..]);
    }
  }

  // ----- single use -----

  /** A text that has been rotated is an issued token that is no longer the newest of its session. */
  ghost predicate Superseded(w: World, raw: string) {
    exists i :: 0 <= i < |w.issued| && w.issued[i].raw == raw && i < Newest(w.issued, w.issued[i].payload.sessionId)
  }

  predicate IsRotation(e: Entry) {
    e.event.Refresh? && e.outcome.Renewed?
  }

  predicate Rotated(e: Entry, raw: string) {
    IsRotation(e) && e.event.raw == raw
  }

  ghost predicate SingleUse(w: World) {
    && (forall k :: 0 <= k < |w.log| && IsRotation(w.log[k]) ==> Superseded(w, w.log[k].event.raw))
    && (forall j, k :: 0 <= j < k < |w.log| && IsRotation(w.log[j]) ==> !Rotated(w.log[k], w.log[j].event.raw))
  }

  /** Being superseded is for ever. */
  lemma SupersededStays(env: Env, w: World, call: Call, raw: string)
    requires Superseded(w, raw)
    ensures Superseded(Do(env, w, call), raw)
  {
    var h, w' := Handed(env, w.core, call.now, call.event), Do(env, w, call);
    var i :| 0 <= i < |w.issued| && w.issued[i].raw == raw && i < Newest(w.issued, w.issued[i].payload.sessionId);
    if h == [] {
      assert w'.issued == w.issued;
    } else {
      assert w'.issued == w.issued + [h[0]];
      Appended(w.issued, h[0], w.issued[i].payload.sessionId);
      assert w'.issued[i] == w.issued[i];
    }
  }

  /** A superseded text is refused. */
  lemma SupersededRefused(env: Env, w: World, call: Call)
    requires Sound(env) && SessionInv(env, w) && Enabled(env, w, call)
    requires call.event.Refresh? && Superseded(w, call.event.raw)
    ensures !Step(env, w.core, call.now, call.event).outcome.Renewed?
  {
    var e := call.event;
    RotationExactly(env, w, call.now, e.raw, e.deviceId, e.accessJti, e.refreshJti);
    var i :| 0 <= i < |w.issued| && w.issued[i].raw == e.raw && i < Newest(w.issued, w.issued[i].payload.sessionId);
    if j :| Rotatable(w, call.now, e.raw, e.deviceId, j) {
      IssuedTextsDiffer(env, w, i, j);
    }
  }

  /** A rotation supersedes the text it was given, and hands out a token of the same lineage. */
  lemma RotationSupersedes(env: Env, w: World, call: Call)
    requires Sound(env) && SessionInv(env, w) && Enabled(env, w, call)
    requires call.event.Refresh? && Step(env, w.core, call.now, call.event).outcome.Renewed?
    ensures Superseded(Do(env, w, call), call.event.raw)
    ensures SameLineage(Do(env, w, call), call.event.raw, Step(env, w.core, call.now, call.event).outcome.pair.refresh)
  {
    var e, w' := call.event, Do(env, w, call);
    RotationExactly(env, w, call.now, e.raw, e.deviceId, e.accessJti, e.refreshJti);
    var i :| Rotatable(w, call.now, e.raw, e.deviceId, i);
    PresentedPayload(env, w, call.now, e.raw, i);
    var h := Handed(env, w.core, call.now, e);
    assert w'.issued == w.issued + [h[0]];
    Appended(w.issued, h[0], w.issued[i].payload.sessionId);
    assert IssuedAs(w', i, e.raw) && IssuedAs(w', |w.issued|, h[0].raw);
  }

  lemma CallKeepsSingleUse(env: Env, w: World, call: Call)
    requires Sound(env) && SessionInv(env, w) && SingleUse(w) && Enabled(env, w, call)
    ensures SingleUse(Do(env, w, call))
  {
    var w' := Do(env, w, call);
    forall k | 0 <= k < |w'.log| && IsRotation(w'.log[k])
      ensures Superseded(w', w'.log[k].event.raw)
    {
      if k < |w.log| {
        SupersededStays(env, w, call, w.log[k].event.raw);
      } else {
        RotationSupersedes(env, w, call);
      }
    }
    forall j, k | 0 <= j < k < |w'.log| && IsRotation(w'.log[j])
      ensures !Rotated(w'.log[k], w'.log[j].event.raw)
    {
      if k == |w.log| && call.event.Refresh? && call.event.raw == w.log[j].event.raw {
        SupersededRefused(env, w, call);
      }
    }
  }

  // ----- lineage along rotations -----

  predicate SameOrigin(p: TokenPayload, q: TokenPayload) {
    p.sub == q.sub && p.deviceId == q.deviceId && p.sessionId == q.sessionId && p.family == q.family
  }

  predicate IssuedAs(w: World, i: int, raw: string) {
    0 <= i < |w.issued| && w.issued[i].raw == raw
  }

  /** Both texts are issued tokens with the same user, device, session and family. */
  ghost predicate SameLineage(w: World, a: string, b: string) {
    exists i, j :: IssuedAs(w, i, a) && IssuedAs(w, j, b) && SameOrigin(w.issued[i].payload, w.issued[j].payload)
  }

  /** One rotation of the log turned `a` into `b`. */
  ghost predicate Link(w: World, a: string, b: string) {
    exists k :: 0 <= k < |w.log| && Rotated(w.log[k], a) && w.log[k].outcome.pair.refresh == b
  }

  ghost predicate LinksKeepLineage(w: World) {
    forall k :: 0 <= k < |w.log| && IsRotation(w.log[k]) ==>
      SameLineage(w, w.log[k].event.raw, w.log[k].outcome.pair.refresh)
  }

  lemma LineageStays(env: Env, w: World, call: Call, a: string, b: string)
    requires SameLineage(w, a, b)
    ensures SameLineage(Do(env, w, call), a, b)
  {
    var w' := Do(env, w, call);
    var i, j :| IssuedAs(w, i, a) && IssuedAs(w, j, b) && SameOrigin(w.issued[i].payload, w.issued[j].payload);
    assert IssuedAs(w', i, a) && IssuedAs(w', j, b);
  }

  lemma CallKeepsLinks(env: Env, w: World, call: Call)
    requires Sound(env) && SessionInv(env, w) && LinksKeepLineage(w) && Enabled(env, w, call)
    ensures LinksKeepLineage(Do(env, w, call))
  {
    var w' := Do(env, w, call);
    forall k | 0 <= k < |w'.log| && IsRotation(w'.log[k])
      ensures SameLineage(w', w'.log[k].event.raw, w'.log[k].outcome.pair.refresh)
    {
      if k < |w.log| {
        LineageStays(env, w, call, w.log[k].event.raw, w.log[k].outcome.pair.refresh);
      } else {
        RotationSupersedes(env, w, call);
      }
    }
  }

  // ----- whole runs -----

  ghost predicate TokenInv(env: Env, w: World) {
    SessionInv(env, w) && SingleUse(w) && LinksKeepLineage(w)
  }

  lemma {:induction false} RunKeepsTokens(env: Env, w: World, calls: seq<Call>)
    requires Sound(env) && TokenInv(env, w) && Legal(env, w, calls)
    ensures TokenInv(env, Exec(env, w, calls))
    decreases |calls|
  {
    if calls != [] {
      CallKeepsSessions(env, w, calls[0]);
      CallKeepsSingleUse(env, w, calls[0]);
      CallKeepsLinks(env, w, calls[0]);
      RunKeepsTokens(env, Do(env, w, calls[0]), calls[1..]);
    }
  }

  /** Every run from the start satisfies the invariants. */
  lemma EveryRun(env: Env, users: Users, calls: seq<Call>)
    requires Sound(env) && Legal(env, Start(users), calls)
    ensures TokenInv(env, Exec(env, Start(users), calls))
  {
    RunKeepsTokens(env, Start(users), calls);
  }

  /** After any run, a text rotates iff it is the newest token of an active session, on its device, in time. */
  lemma NewestTokenWins(env: Env, users: Users, calls: seq<Call>, call: Call)
    requires Sound(env) && Legal(env, Start(users), calls)
    requires Enabled(env, Exec(env, Start(users), calls), call) && call.event.Refresh?
    ensures var w := Exec(env, Start(users), calls);
            Step(env, w.core, call.now, call.event).outcome.Renewed? <==>
            exists i :: Rotatable(w, call.now, call.event.raw, call.event.deviceId, i)
  {
    EveryRun(env, users, calls);
    var e := call.event;
    RotationExactly(env, Exec(env, Start(users), calls), call.now, e.raw, e.deviceId, e.accessJti, e.refreshJti);
  }

  /** In no run does a text rotate twice. */
  lemma NoTokenRotatesTwice(env: Env, users: Users, calls: seq<Call>, j: nat, k: nat, raw: string)
    requires Sound(env) && Legal(env, Start(users), calls)
    requires var log := Exec(env, Start(users), calls).log;
             j < |log| && k < |log| && Rotated(log[j], raw) && Rotated(log[k], raw)
    ensures j == k
  {
    EveryRun(env, users, calls);
  }

  /** The lineage invariant, spelled out for every reachable state. */
  lemma LineageInEveryRun(env: Env, users: Users, calls: seq<Call>)
    requires Sound(env) && Legal(env, Start(users), calls)
    ensures var w := Exec(env, Start(users), calls);
            && (forall x <- w.issued :: x.payload.sessionId in w.core.sessions
                                        && x.payload.family == w.core.sessions[x.payload.sessionId].family)
            && (forall s, t :: s in w.core.sessions && t in w.core.sessions && s != t ==>
                  w.core.sessions[s].family != w.core.sessions[t].family)
            && (forall s <- w.core.sessions :: IssuedFor(w.issued, s) == w.core.sessions[s].useCount + 1)
  {
    EveryRun(env, users, calls);
    var w := Exec(env, Start(users), calls);
    forall x <- w.issued
      ensures x.payload.sessionId in w.core.sessions
              && x.payload.family == w.core.sessions[x.payload.sessionId].family
    {
      var i :| 0 <= i < |w.issued| && w.issued[i] == x;
      assert GoodIssue(env, w.core.sessions, w.used, w.issued[i]);
    }
    forall s <- w.core.sessions ensures IssuedFor(w.issued, s) == w.core.sessions[s].useCount + 1 {
      assert GoodSession(env, w.core.sessions, w.issued, w.used, s);
    }
  }

  /** A chain of rotations in the log, from its first token to its last. */
  ghost predicate Chain(w: World, tokens: seq<string>) {
    |tokens| >= 2 && forall k :: 0 <= k < |tokens| - 1 ==> Link(w, tokens[k], tokens[k + 1])
  }

  /** Along any chain of rotations user, device, session and family never change. */
  lemma {:induction false} ChainKeepsLineage(env: Env, w: World, tokens: seq<string>)
    requires Sound(env) && TokenInv(env, w) && Chain(w, tokens)
    ensures SameLineage(w, tokens[0], tokens[|tokens| - 1])
    decreases |tokens|
  {
    var n := |tokens| - 1;
    assert Link(w, tokens[n - 1], tokens[n]);
    assert SameLineage(w, tokens[n - 1], tokens[n]);
    if n > 1 {
      var init := tokens[..n];
      forall k | 0 <= k < |init| - 1 ensures Link(w, init[k], init[k + 1]) {
        assert Link(w, tokens[k], tokens[k + 1]);
      }
      ChainKeepsLineage(env, w, init);
      LineageTransitive(env, w, tokens[0], tokens[n - 1], tokens[n]);
    }
  }

  lemma LineageTransitive(env: Env, w: World, a: string, b: string, c: string)
    requires Sound(env) && SessionInv(env, w) && SameLineage(w, a, b) && SameLineage(w, b, c)
    ensures SameLineage(w, a, c)
  {
    var i, j :| IssuedAs(w, i, a) && IssuedAs(w, j, b) && SameOrigin(w.issued[i].payload, w.issued[j].payload);
    var k, l :| IssuedAs(w, k, b) && IssuedAs(w, l, c) && SameOrigin(w.issued[k].payload, w.issued[l].payload);
    IssuedTextsDiffer(env, w, j, k);
    assert IssuedAs(w, i, a) && IssuedAs(w, l, c) && SameOrigin(w.issued[i].payload, w.issued[l].payload);
  }

  // ----- replay and revocation -----

  /**
   * Replay: presenting a superseded, unexpired token on its own device while its session is active
   * marks exactly the sessions of that family replayed - which is that one session - and nothing else.
   */
  lemma {:induction false} ReplayRevokesFamily(env: Env, w: World, call: Call, i: int)
    requires Sound(env) && SessionInv(env, w) && Enabled(env, w, call) && call.event.Refresh?
    requires 0 <= i < |w.issued| && w.issued[i].raw == call.event.raw
    requires i < Newest(w.issued, w.issued[i].payload.sessionId)
    requires call.event.deviceId == w.issued[i].payload.deviceId && Unix(call.now) <= w.issued[i].payload.exp
    requires var s := w.issued[i].payload.sessionId; s in w.core.sessions && w.core.sessions[s].status == Active
    ensures var s, r := w.issued[i].payload.sessionId, Step(env, w.core, call.now, call.event);
            && r.outcome == Denied(FamilyCompromised)
            && r.core == w.core.(sessions := w.core.sessions[s := w.core.sessions[s].(status := Replayed)])
            && (forall t <- w.core.sessions :: w.core.sessions[t].family == w.issued[i].payload.family <==> t == s)
  {
    var p := w.issued[i].payload;
    PresentedPayload(env, w, call.now, call.event.raw, i);
    assert GoodIssue(env, w.core.sessions, w.used, w.issued[i]);
    assert GoodSession(env, w.core.sessions, w.issued, w.used, p.sessionId);
    var n := Newest(w.issued, p.sessionId);
    if w.issued[n].raw == w.issued[i].raw {
      IssuedTextsDiffer(env, w, i, n);
    }
    assert RevokeFamily(w.core.sessions, p.family, Replayed) ==
           w.core.sessions[p.sessionId := w.core.sessions[p.sessionId].(status := Replayed)];
  }

  ghost predicate Dead(w: World, s: string) {
    s in w.core.sessions && w.core.sessions[s].status != Active
  }

  /** The session whose token a successful rotation was given. */
  ghost predicate RotatesOther(env: Env, now: nat, ev: Event, outcome: Outcome, s: string) {
    ev.Refresh? && outcome.Renewed? ==>
      var v := env.verify(ev.raw, env.cfg.refreshSecret, Unix(now));
      v.Valid? && v.payload.sessionId != s
  }

  /** One call neither revives a dead session nor rotates a token of it. */
  lemma CallKeepsDead(env: Env, w: World, call: Call, s: string)
    requires s in w.used && Enabled(env, w, call) && Dead(w, s)
    ensures Dead(Do(env, w, call), s)
    ensures RotatesOther(env, call.now, call.event, Step(env, w.core, call.now, call.event).outcome, s)
  {
    match call.event {
      case Login(_, _, draws) =>
        assert Drawn(call.event)[0] == draws.sessionId;
      case Refresh(_, _, _, _) =>
      case Exchange(_, _, _, _) =>
      case Logout(_) =>
      case LogoutAll(_) =>
      case _ =>
        assert Step(env, w.core, call.now, call.event).core.sessions == w.core.sessions;
    }
  }

  /** No successful rotation of the log, from entry `from` on, was of a token of session `s`. */
  ghost predicate NoRotationOf(env: Env, log: seq<Entry>, from: nat, s: string) {
    forall k :: from <= k < |log| ==> RotatesOther(env, log[k].now, log[k].event, log[k].outcome, s)
  }

  lemma CallLeavesDead(env: Env, w: World, call: Call, s: string, from: nat)
    requires s in w.used && Enabled(env, w, call) && Dead(w, s)
    requires from <= |w.log| && NoRotationOf(env, w.log, from, s)
    ensures var w' := Do(env, w, call); Dead(w', s) && from <= |w'.log| && NoRotationOf(env, w'.log, from, s)
  {
    CallKeepsDead(env, w, call, s);
  }

  lemma SessionIdsAreDrawn(env: Env, w: World, s: string)
    requires SessionInv(env, w) && s in w.core.sessions
    ensures s in w.used
  {
    assert GoodSession(env, w.core.sessions, w.issued, w.used, s);
  }

  /** Revocation is absorbing: no continuation makes a session active again or rotates any of its tokens. */
  lemma {:induction false} RevocationIsFinal(env: Env, w: World, calls: seq<Call>, s: string, from: nat)
    requires Sound(env) && SessionInv(env, w) && Legal(env, w, calls) && Dead(w, s)
    requires from <= |w.log| && NoRotationOf(env, w.log, from, s)
    ensures Dead(Exec(env, w, calls), s)
    ensures NoRotationOf(env, Exec(env, w, calls).log, from, s)
    decreases |calls|
  {
    if calls != [] {
      CallKeepsSessions(env, w, calls[0]);
      SessionIdsAreDrawn(env, w, s);
      CallLeavesDead(env, w, calls[0], s, from);
      RevocationIsFinal(env, Do(env, w, calls[0]), calls[1..], s, from);
    }
  }

  lemma LogoutAllKills(env: Env, w: World, now: nat, user: string, s: string)
    requires s in w.core.sessions && w.core.sessions[s].userId == user
    ensures var w' := Do(env, w, Call(now, LogoutAll(user)));
            Dead(w', s) && |w'.log| == |w.log| + 1 && NoRotationOf(env, w'.log, |w.log|, s)
  {
  }

  /** Logout-all leaves the sessions of all other users, and everything else, as they were. */
  lemma LogoutAllSpares(env: Env, core: Core, now: nat, user: string)
    ensures var next := Step(env, core, now, LogoutAll(user)).core;
            && next == core.(sessions := next.sessions) && next.sessions.Keys == core.sessions.Keys
            && forall s <- core.sessions :: core.sessions[s].userId != user ==> next.sessions[s] == core.sessions[s]
  {
  }

  /** After logout-all, every session the user had is dead for the rest of the run. */
  lemma {:induction false} LogoutAllIsFinal(env: Env, w: World, now: nat, user: string, calls: seq<Call>, s: string)
    requires Sound(env) && SessionInv(env, w) && Legal(env, w, [Call(now, LogoutAll(user))] + calls)
    requires s in w.core.sessions && w.core.sessions[s].userId == user
    ensures var end := Exec(env, w, [Call(now, LogoutAll(user))] + calls);
            Dead(end, s) && NoRotationOf(env, end.log, |w.log|, s)
  {
    var call := Call(now, LogoutAll(user));
    FirstCall(env, w, call, calls);
    CallKeepsSessions(env, w, call);
    LogoutAllKills(env, w, now, user, s);
    RevocationIsFinal(env, Do(env, w, call), calls, s, |w.log|);
  }

  /** A logout ends the session it names and leaves everything else as it was; without such a session the call panics
      and changes nothing. */
  lemma LogoutKills(env: Env, w: World, now: nat, s: string)
    ensures var r, w' := Step(env, w.core, now, Logout(s)), Do(env, w, Call(now, Logout(s)));
            && r.outcome == (if s in w.core.sessions then Done else Crashed)
            && (s !in w.core.sessions ==> w'.core == w.core)
            && (s in w.core.sessions ==>
                  && Dead(w', s) && |w'.log| == |w.log| + 1 && NoRotationOf(env, w'.log, |w.log|, s)
                  && w'.core == w.core.(sessions := w'.core.sessions)
                  && w'.core.sessions - {s} == w.core.sessions - {s})
  {
  }

  /** After a logout that was answered Done, its session is dead for the rest of the run and none of its tokens rotates
      again. */
  lemma {:induction false} LogoutIsFinal(env: Env, w: World, now: nat, calls: seq<Call>, s: string)
    requires Sound(env) && SessionInv(env, w) && Legal(env, w, [Call(now, Logout(s))] + calls)
    requires Step(env, w.core, now, Logout(s)).outcome == Done
    ensures var end := Exec(env, w, [Call(now, Logout(s))] + calls);
            Dead(end, s) && NoRotationOf(env, end.log, |w.log|, s)
  {
    var call := Call(now, Logout(s));
    FirstCall(env, w, call, calls);
    CallKeepsSessions(env, w, call);
    LogoutKills(env, w, now, s);
    RevocationIsFinal(env, Do(env, w, call), calls, s, |w.log|);
  }

  /** A refused refresh changes nothing at all, unless it was refused as a replay. */
  lemma RefusedRefresh(env: Env, core: Core, now: nat, ev: Event)
    requires ev.Refresh? && !Step(env, core, now, ev).outcome.Renewed?
    requires Step(env, core, now, ev).outcome != Denied(FamilyCompromised)
    ensures Step(env, core, now, ev).core == core
  {
  }

  /** In every run: once a session is not active, it is not active and none of its tokens rotates ever after. */
  lemma {:induction false} RevokedForEver(env: Env, users: Users, before: seq<Call>, after: seq<Call>, s: string)
    requires Sound(env) && Legal(env, Start(users), before)
    requires var mid := Exec(env, Start(users), before); Legal(env, mid, after) && Dead(mid, s)
    ensures var mid := Exec(env, Start(users), before);
            Dead(Exec(env, mid, after), s) && NoRotationOf(env, Exec(env, mid, after).log, |mid.log|, s)
  {
    var mid := Exec(env, Start(users), before);
    EveryRun(env, users, before);
    RevocationIsFinal(env, mid, after, s, |mid.log|);
  }

  // ----- what a handed-out token is good for -----

  lemma HandedIsNewest(env: Env, w: World, call: Call)
    requires Handed(env, w.core, call.now, call.event) != []
    ensures var w', x := Do(env, w, call), Handed(env, w.core, call.now, call.event)[0];
            && IssuedAs(w', |w.issued|, x.raw) && w'.issued[|w.issued|] == x
            && Newest(w'.issued, x.payload.sessionId) == |w.issued|
  {
    var h := Handed(env, w.core, call.now, call.event);
    assert w.issued + h == w.issued + [h[0]];
    Appended(w.issued, h[0], h[0].payload.sessionId);
  }

  /** A token just handed out rotates on its own device iff its session is active and the token is in time. */
  lemma {:induction false} HandedTokenRotates(env: Env, w: World, call: Call, next: Call)
    requires Sound(env) && SessionInv(env, w) && Enabled(env, w, call)
    requires Handed(env, w.core, call.now, call.event) != [] && Enabled(env, Do(env, w, call), next)
    requires var x := Handed(env, w.core, call.now, call.event)[0];
             next.event.Refresh? && next.event.raw == x.raw && next.event.deviceId == x.payload.deviceId
    ensures var w', x := Do(env, w, call), Handed(env, w.core, call.now, call.event)[0];
            && x.payload.sessionId in w'.core.sessions
            && (Step(env, w'.core, next.now, next.event).outcome.Renewed? <==>
                w'.core.sessions[x.payload.sessionId].status == Active && Unix(next.now) <= x.payload.exp)
  {
    var w', x, e := Do(env, w, call), Handed(env, w.core, call.now, call.event)[0], next.event;
    var n := |w.issued|;
    CallKeepsSessions(env, w, call);
    HandedIsNewest(env, w, call);
    assert GoodIssue(env, w'.core.sessions, w'.used, w'.issued[n]);
    RotationExactly(env, w', next.now, e.raw, e.deviceId, e.accessJti, e.refreshJti);
    if i :| Rotatable(w', next.now, e.raw, e.deviceId, i) {
      IssuedTextsDiffer(env, w', i, n);
    }
    if w'.core.sessions[x.payload.sessionId].status == Active && Unix(next.now) <= x.payload.exp {
      assert Rotatable(w', next.now, e.raw, e.deviceId, n);
    }
  }

  /** A login and a rotation leave their session active, so the token they hand out can be used next. */
  lemma HandedByActive(env: Env, core: Core, now: nat, ev: Event)
    requires (ev.Login? || ev.Refresh?) && Handed(env, core, now, ev) != []
    ensures var r, x := Step(env, core, now, ev), Handed(env, core, now, ev)[0];
            && x.payload.sessionId in r.core.sessions && r.core.sessions[x.payload.sessionId].status == Active
            && x.payload.exp == Unix(now + env.cfg.refreshTTL)
            && x.payload.deviceId == (if ev.Login? then ev.login.deviceId else ev.deviceId)
            && x.raw == r.outcome.pair.refresh
  {
  }

  /** Revoking a device changes no session, so whatever could be asked before gets the same answer after. */
  lemma DeviceRevocationSparesTokens(env: Env, w: World, revoke: Call, next: Call)
    requires revoke.event.RevokeDevice? && next.event.Refresh? && Enabled(env, w, revoke)
    requires Enabled(env, Do(env, w, revoke), next)
    ensures Enabled(env, w, next)
    ensures Step(env, Do(env, w, revoke).core, next.now, next.event).outcome ==
            Step(env, w.core, next.now, next.event).outcome
  {
    assert Do(env, w, revoke).core.sessions == w.core.sessions;
    assert Do(env, w, revoke).issued == w.issued;
  }

  /** The user of a login may revoke the device it registered. */
  lemma LoginDeviceRevocable(env: Env, core: Core, now: nat, ev: Event, revoke: Call)
    requires ev.Login? && Step(env, core, now, ev).outcome.LoggedIn? && revoke.event.RevokeDevice?
    requires revoke.event.deviceId == ev.login.deviceId
             && revoke.event.userId == Step(env, core, now, ev).outcome.userId
    ensures Step(env, Step(env, core, now, ev).core, revoke.now, revoke.event).outcome == Done
  {
    assert Step(env, core, now, ev).core.devices[ev.login.deviceId].userId == revoke.event.userId;
  }

  /**
   * Sessions do not end with their device: after a login and the revocation of its very device, the token of
   * that login still rotates on the revoked device, exactly until it expires.
   */
  lemma RevokedDeviceStillRotates(env: Env, w: World, login: Call, revoke: Call, next: Call)
    requires Sound(env) && SessionInv(env, w) && Enabled(env, w, login) && login.event.Login?
    requires Step(env, w.core, login.now, login.event).outcome.LoggedIn?
    requires Enabled(env, Do(env, w, login), revoke) && Enabled(env, Do(env, Do(env, w, login), revoke), next)
    requires revoke.event.RevokeDevice? && revoke.event.deviceId == login.event.login.deviceId
    requires revoke.event.userId == Step(env, w.core, login.now, login.event).outcome.userId
    requires next.event.Refresh? && next.event.deviceId == login.event.login.deviceId
    requires next.event.raw == Step(env, w.core, login.now, login.event).outcome.pair.refresh
    ensures Step(env, Do(env, w, login).core, revoke.now, revoke.event).outcome == Done
    ensures Step(env, Do(env, Do(env, w, login), revoke).core, next.now, next.event).outcome.Renewed? <==>
            Unix(next.now) <= Unix(login.now + env.cfg.refreshTTL)
  {
    LoginDeviceRevocable(env, w.core, login.now, login.event, revoke);
    DeviceRevocationSparesTokens(env, Do(env, w, login), revoke, next);
    HandedByActive(env, w.core, login.now, login.event);
    HandedTokenRotates(env, w, login, next);
  }

  /** In every run, along a chain of rotations, user, device, session and family stay the same. */
  lemma ChainInEveryRun(env: Env, users: Users, calls: seq<Call>, tokens: seq<string>)
    requires Sound(env) && Legal(env, Start(users), calls) && Chain(Exec(env, Start(users), calls), tokens)
    ensures SameLineage(Exec(env, Start(users), calls), tokens[0], tokens[|tokens| - 1])
  {
    EveryRun(env, users, calls);
    ChainKeepsLineage(env, Exec(env, Start(users), calls), tokens);
  }
}
