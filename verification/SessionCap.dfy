/** The cap on active sessions per user in the legacy engine, over the rows of its session table. */
module SessionCap {
  import opened Basics

  const DAY: int := 24 * 60 * 60 * SECOND

  datatype Row = Row(userId: string, isActive: bool, expiresAt: int)

  type Rows = map<string, Row>

  /** The rows that CountActive counts. */
  predicate Counts(r: Row, user: string, now: int) {
    r.userId == user && r.isActive && r.expiresAt > now
  }

  function Counted(rows: Rows, user: string, now: int): set<string> {
    set id | id in rows && Counts(rows[id], user, now)
  }

  function Deactivated(rows: Rows, id: string): Rows {
    if id in rows then rows[id := rows[id].(isActive := false)] else rows
  }

  function AllDeactivated(rows: Rows, user: string): Rows {
    map id | id in rows :: if rows[id].userId == user then rows[id].(isActive := false) else rows[id]
  }

  /** Inactive, or a day past its expiry. */
  predicate Stale(r: Row, now: int) {
    r.expiresAt < now - DAY || !r.isActive
  }

  function CleanedUp(rows: Rows, now: int): Rows {
    map id | id in rows && !Stale(rows[id], now) :: rows[id]
  }

  datatype Event =
    | Issue(user: string, id: string)      // a login or an OAuth login
    | Revoke(id: string)
    | RevokeAll(user: string)
    | Cleanup
    | Wait

  datatype Reply = Reply(rows: Rows, ok: bool)

  /** issueTokens: a used primary key makes the insert fail. */
  function IssueStep(cap: int, expiry: int, rows: Rows, now: int, user: string, id: string): Reply {
    if |Counted(rows, user, now)| >= cap && cap > 0 then Reply(rows, false)
    else if id in rows then Reply(rows, false)
    else Reply(rows[id := Row(user, true, now + expiry)], true)
  }

  function Step(cap: int, expiry: int, rows: Rows, now: int, e: Event): Reply {
    match e
    case Issue(user, id) => IssueStep(cap, expiry, rows, now, user, id)
    case Revoke(id) => Reply(Deactivated(rows, id), true)
    case RevokeAll(user) => Reply(AllDeactivated(rows, user), true)
    case Cleanup => Reply(CleanedUp(rows, now), true)
    case Wait => Reply(rows, true)
  }

  datatype Call = Call(now: int, event: Event)

  function Run(cap: int, expiry: int, rows: Rows, calls: seq<Call>): Rows
    decreases |calls|
  {
    if calls == [] then rows
    else Run(cap, expiry, Step(cap, expiry, rows, calls[0].now, calls[0].event).rows, calls[1..])
  }

  predicate Ordered(t: int, calls: seq<Call>)
    decreases |calls|
  {
    calls == [] || (t <= calls[0].now && Ordered(calls[0].now, calls[1..]))
  }

  ghost predicate WithinCap(cap: int, rows: Rows, now: int) {
    forall user :: |Counted(rows, user, now)| <= cap
  }

  lemma {:induction false} SubsetSize(a: set<string>, b: set<string>)
    requires a <= b
    ensures |a| <= |b|
    decreases a
  {
    if a != {} {
      var x :| x in a;
      SubsetSize(a - {x}, b - {x});
    }
  }

  /** A step adds at most the issued row to what is counted, and only for its user. */
  lemma StepAdds(cap: int, expiry: int, rows: Rows, t: int, now: int, e: Event, user: string)
    requires t <= now
    ensures var r := Step(cap, expiry, rows, now, e);
            Counted(r.rows, user, now) <=
            Counted(rows, user, now) + (if e.Issue? && r.ok && e.user == user then {e.id} else {})
    ensures Counted(rows, user, now) <= Counted(rows, user, t)
  {
  }

  lemma StepKeepsCap(cap: int, expiry: int, rows: Rows, t: int, now: int, e: Event)
    requires cap > 0 && WithinCap(cap, rows, t) && t <= now
    ensures WithinCap(cap, Step(cap, expiry, rows, now, e).rows, now)
  {
    var r := Step(cap, expiry, rows, now, e);
    forall user ensures |Counted(r.rows, user, now)| <= cap {
      StepAdds(cap, expiry, rows, t, now, e, user);
      SubsetSize(Counted(rows, user, now), Counted(rows, user, t));
      if e.Issue? && r.ok && e.user == user {
        SubsetSize(Counted(r.rows, user, now), Counted(rows, user, now) + {e.id});
      } else {
        SubsetSize(Counted(r.rows, user, now), Counted(rows, user, now));
      }
    }
  }

  function EndTime(t: int, calls: seq<Call>): int {
    if calls == [] then t else calls[|calls| - 1].now
  }

  /** With a positive cap, no run of logins, revocations, cleanups and time steps exceeds it for any user. */
  lemma {:induction false} CapHolds(cap: int, expiry: int, rows: Rows, t: int, calls: seq<Call>)
    requires cap > 0 && WithinCap(cap, rows, t) && Ordered(t, calls)
    ensures WithinCap(cap, Run(cap, expiry, rows, calls), EndTime(t, calls))
    decreases |calls|
  {
    if calls != [] {
      var call := calls[0];
      StepKeepsCap(cap, expiry, rows, t, call.now, call.event);
      CapHolds(cap, expiry, Step(cap, expiry, rows, call.now, call.event).rows, call.now, calls[1..]);
    }
  }

  /** From an empty table. */
  lemma CapFromStart(cap: int, expiry: int, t: int, calls: seq<Call>)
    requires cap > 0 && Ordered(t, calls)
    ensures WithinCap(cap, Run(cap, expiry, map[], calls), EndTime(t, calls))
  {
    forall user ensures |Counted(map[], user, t)| <= cap {
      assert Counted(map[], user, t) == {};
    }
    CapHolds(cap, expiry, map[], t, calls);
  }

  /** Cleanup removes nothing that counts, now or later, for any user; so no login is admitted because of it. */
  lemma CleanupKeepsCounted(cap: int, expiry: int, rows: Rows, now: int, later: int, user: string)
    requires now <= later
    ensures Counted(CleanedUp(rows, now), user, later) == Counted(rows, user, later)
    ensures cap > 0 && |Counted(rows, user, later)| >= cap ==>
            forall id :: !IssueStep(cap, expiry, CleanedUp(rows, now), later, user, id).ok
  {
    assert Counted(CleanedUp(rows, now), user, later) == Counted(rows, user, later);
  }

  /** A login with a new ID is admitted iff there is room (or no cap), and then counts as one more. */
  lemma AdmittedExactly(cap: int, expiry: int, rows: Rows, now: int, user: string, id: string)
    requires id !in rows && expiry > 0
    ensures var r := IssueStep(cap, expiry, rows, now, user, id);
            && (r.ok <==> cap <= 0 || |Counted(rows, user, now)| < cap)
            && (r.ok ==> |Counted(r.rows, user, now)| == |Counted(rows, user, now)| + 1)
            && (!r.ok ==> r.rows == rows)
  {
    var r := IssueStep(cap, expiry, rows, now, user, id);
    if r.ok {
      assert Counted(r.rows, user, now) == Counted(rows, user, now) + {id};
    }
  }

  // ----- what counts, told by the calls -----

  lemma {:induction false} RunLast(cap: int, expiry: int, rows: Rows, calls: seq<Call>, c: Call)
    ensures Run(cap, expiry, rows, calls + [c]) == Step(cap, expiry, Run(cap, expiry, rows, calls), c.now, c.event).rows
    decreases |calls|
  {
    if calls == [] {
      assert [] + [c] == [c] && [c][1..] == [];
    } else {
      assert (calls + [c])[1..] == calls[1..] + [c];
      RunLast(cap, expiry, Step(cap, expiry, rows, calls[0].now, calls[0].event).rows, calls[1..], c);
    }
  }

  /** Call `i` was a login of `user` that created session `id`. */
  predicate Opens(cap: int, expiry: int, calls: seq<Call>, i: int, user: string, id: string) {
    && 0 <= i < |calls| && calls[i].event == Issue(user, id)
    && Step(cap, expiry, Run(cap, expiry, map[], calls[..i]), calls[i].now, calls[i].event).ok
  }

  predicate Closes(e: Event, user: string, id: string) {
    e == Revoke(id) || e == RevokeAll(user)
  }

  /** Some login of the user created the session, it has not run out at `t`, and no revocation came after. */
  ghost predicate Standing(cap: int, expiry: int, calls: seq<Call>, user: string, id: string, t: int) {
    exists i :: && Opens(cap, expiry, calls, i, user, id) && t < calls[i].now + expiry
                && forall j :: i < j < |calls| ==> !Closes(calls[j].event, user, id)
  }

  lemma StandingExtends(cap: int, expiry: int, calls: seq<Call>, c: Call, user: string, id: string, t: int)
    ensures Standing(cap, expiry, calls + [c], user, id, t) <==>
            || (Opens(cap, expiry, calls + [c], |calls|, user, id) && t < c.now + expiry)
            || (Standing(cap, expiry, calls, user, id, t) && !Closes(c.event, user, id))
  {
    var all := calls + [c];
    assert forall i :: 0 <= i < |calls| ==> all[i] == calls[i] && all[..i] == calls[..i];
    if Standing(cap, expiry, calls, user, id, t) && !Closes(c.event, user, id) {
      var i :| && Opens(cap, expiry, calls, i, user, id) && t < calls[i].now + expiry
               && forall j :: i < j < |calls| ==> !Closes(calls[j].event, user, id);
      assert Opens(cap, expiry, all, i, user, id);
    }
    if Standing(cap, expiry, all, user, id, t) {
      var i :| && Opens(cap, expiry, all, i, user, id) && t < all[i].now + expiry
               && forall j :: i < j < |all| ==> !Closes(all[j].event, user, id);
      if i < |calls| {
        assert Opens(cap, expiry, calls, i, user, id);
        assert !Closes(all[|calls|].event, user, id);
        assert forall j :: i < j < |calls| ==> !Closes(all[j].event, user, id);
      }
    }
  }

  /** How one call changes what counts at a later time. */
  lemma StepCounts(cap: int, expiry: int, rows: Rows, c: Call, user: string, id: string, t: int)
    requires c.now <= t
    ensures var r := Step(cap, expiry, rows, c.now, c.event);
            id in Counted(r.rows, user, t) <==>
            || (c.event == Issue(user, id) && r.ok && t < c.now + expiry)
            || (id in Counted(rows, user, t) && !Closes(c.event, user, id))
  {
  }

  predicate Within(t: int, calls: seq<Call>) {
    forall i :: 0 <= i < |calls| ==> calls[i].now <= t
  }

  /** In every run from an empty table, whatever the cleanups: a session counts for a user at `t` iff some login of
      that user created it less than the lifetime ago and neither it nor the user has been revoked since. */
  lemma {:induction false} CountedFromHistory(cap: int, expiry: int, calls: seq<Call>, user: string, id: string, t: int)
    requires Within(t, calls)
    ensures id in Counted(Run(cap, expiry, map[], calls), user, t) <==> Standing(cap, expiry, calls, user, id, t)
    decreases |calls|
  {
    if calls != [] {
      var init, c := calls[..|calls| - 1], calls[|calls| - 1];
      assert calls == init + [c];
      CountedFromHistory(cap, expiry, init, user, id, t);
      RunLast(cap, expiry, map[], init, c);
      StepCounts(cap, expiry, Run(cap, expiry, map[], init), c, user, id, t);
      StandingExtends(cap, expiry, init, c, user, id, t);
      assert calls[..|init|] == init;
    }
  }

  lemma DeletedSize(rows: Rows, id: string)
    requires id in rows
    ensures |rows - {id}| == |rows| - 1
  {
    assert (rows - {id}).Keys == rows.Keys - {id};
    assert |(rows - {id}).Keys| == |rows.Keys| - 1;
  }

  /** The table as the repository updates it. */
  class Table {
    var rows: Rows

    constructor ()
      ensures rows == map[]
    {
      rows := map[];
    }

    method Create(id: string, row: Row) returns (ok: bool)
      modifies this
      ensures ok <==> id !in old(rows)
      ensures rows == if ok then old(rows)[id := row] else old(rows)
    {
      ok := id !in rows;
      if ok {
        rows := rows[id := row];
      }
    }

    /** One scan of the table counts each session of the user that is active and unexpired exactly once. */
    method CountActive(user: string, now: int) returns (n: nat)
      ensures n == |Counted(rows, user, now)|
    {
      n := 0;
      var todo := rows.Keys;
      ghost var seen: set<string> := {};
      while todo != {}
        invariant todo <= rows.Keys
        invariant seen == Counted(rows, user, now) - todo && n == |seen|
        decreases todo
      {
        var id :| id in todo;
        var row := rows[id];
        if row.userId == user && row.isActive && row.expiresAt > now {
          n := n + 1;
          seen := seen + {id};
        }
        todo := todo - {id};
      }
      assert seen == Counted(rows, user, now);
    }

    method RevokeOne(id: string)
      modifies this
      ensures rows == Deactivated(old(rows), id)
    {
      if id in rows {
        rows := rows[id := rows[id].(isActive := false)];
      }
    }

    method RevokeUser(user: string)
      modifies this
      ensures rows == AllDeactivated(old(rows), user)
    {
      var todo := rows.Keys;
      ghost var was := rows;
      while todo != {}
        invariant todo <= rows.Keys == was.Keys
        invariant forall id <- was :: rows[id] == if id in todo then was[id] else AllDeactivated(was, user)[id]
        decreases todo
      {
        var id :| id in todo;
        if rows[id].userId == user {
          rows := rows[id := rows[id].(isActive := false)];
        }
        todo := todo - {id};
      }
      assert rows == AllDeactivated(was, user);
    }

    /** One scan deletes the stale rows. No session that counts for any user, now or later, is lost, and every
        row is either still there or among the deleted ones. */
    method CleanupExpired(now: int) returns (deleted: nat)
      modifies this
      ensures rows == CleanedUp(old(rows), now)
      ensures forall user, later :: now <= later ==> Counted(rows, user, later) == Counted(old(rows), user, later)
      ensures forall id <- old(rows) :: id in rows <==>
                old(rows)[id].isActive && old(rows)[id].expiresAt >= now - 24 * 60 * 60 * SECOND
      ensures |rows| + deleted == |old(rows)|
    {
      deleted := 0;
      var todo := rows.Keys;
      ghost var was := rows;
      while todo != {}
        invariant todo <= rows.Keys <= was.Keys
        invariant forall id <- rows :: rows[id] == was[id]
        invariant forall id <- was :: id in rows <==> id in todo || !Stale(was[id], now)
        invariant |rows| + deleted == |was|
        decreases todo
      {
        var id :| id in todo;
        if rows[id].expiresAt < now - DAY || !rows[id].isActive {
          DeletedSize(rows, id);
          rows := rows - {id};
          deleted := deleted + 1;
        }
        todo := todo - {id};
      }
      assert rows == CleanedUp(was, now);
      forall user, later | now <= later ensures Counted(rows, user, later) == Counted(was, user, later) {
        CleanupKeepsCounted(0, 0, was, now, later, user);
      }
    }

    method IssueTokens(cap: int, expiry: int, now: int, user: string, id: string) returns (ok: bool)
      modifies this
      ensures Reply(rows, ok) == IssueStep(cap, expiry, old(rows), now, user, id)
    {
      var count := CountActive(user, now);
      if count >= cap && cap > 0 {
        return false;
      }
      ok := Create(id, Row(user, true, now + expiry));
    }
  }
}
