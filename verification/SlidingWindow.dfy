/** The sliding-window limiter on a Redis sorted set that is pruned at each call and expires. */
module SlidingWindow {
  import opened Basics

  /** The members of the sorted set are millisecond stamps. Redis keeps the key through the millisecond of its
      deadline. */
  datatype Stored = Stored(stamps: set<int>, deadline: int)

  function Visible(s: Option<Stored>, t: int): set<int> {
    if s.Some? && Milli(t) <= s.value.deadline then s.value.stamps else {}
  }

  /** EXPIRE with a lifetime in seconds. A lifetime that is not positive deletes the key at once. */
  function Save(stamps: set<int>, t: int, life: int): Option<Stored> {
    if life <= 0 then None else Some(Stored(stamps, Milli(t) + life * 1000))
  }

  /** ZREMRANGEBYSCORE 0 start, then ZADD now. */
  function Slide(stamps: set<int>, window: int, t: int): set<int> {
    (set x | x in stamps && !(0 <= x <= Milli(t - window))) + {Milli(t)}
  }

  /** The cardinalities that a run of calls at the given instants reads. */
  function Counts(window: int, life: int, s: Option<Stored>, calls: seq<nat>): seq<nat>
    decreases |calls|
  {
    if calls == [] then []
    else
      var next := Slide(Visible(s, calls[0]), window, calls[0]);
      [|next|] + Counts(window, life, Save(next, calls[0], life), calls[1..])
  }

  /** The distinct stamps of `calls` later than `start`. */
  function StampsAfter(calls: seq<nat>, start: int): set<int> {
    set i | 0 <= i < |calls| && Milli(calls[i]) > start :: Milli(calls[i])
  }

  /** The distinct stamps in (t - window, t] of the past calls, and the stamp of the call at `t` itself. */
  function InWindow(window: int, past: seq<nat>, t: int): set<int> {
    StampsAfter(past, Milli(t - window)) + {Milli(t)}
  }

  /** The reference: each call counts over the whole history. */
  function FullCounts(window: int, past: seq<nat>, calls: seq<nat>): seq<nat>
    decreases |calls|
  {
    if calls == [] then []
    else [|InWindow(window, past, calls[0])|] + FullCounts(window, past + [calls[0]], calls[1..])
  }

  predicate Ordered(t: int, calls: seq<nat>)
    decreases |calls|
  {
    calls == [] || (t <= calls[0] && Ordered(calls[0], calls[1..]))
  }

  /** The store holds what was in the window at the last call. */
  ghost predicate Mirrors(window: int, life: int, s: Option<Stored>, past: seq<nat>, last: int) {
    && (forall i :: 0 <= i < |past| ==> past[i] <= last)
    && if past == [] then s.None?
       else s == Save(InWindow(window, past[..|past| - 1], last), last, life) && past[|past| - 1] == last
  }

  /** The longest window that a key of this lifetime can serve: a dropped key is a whole millisecond too old. */
  function Reach(life: int): int {
    Max(0, life) * SECOND + MILLI
  }

  lemma MilliOrder(a: int, b: int)
    requires a <= b
    ensures Milli(a) <= Milli(b)
  {
  }

  /** A window within reach starts at most the lifetime and one millisecond before its call. */
  lemma StartWithinReach(window: int, life: int, t: int)
    requires window <= Reach(life)
    ensures Milli(t - window) >= Milli(t) - Max(0, life) * 1000 - 1
  {
    MilliOrder(t - Reach(life), t - window);
    assert t - Reach(life) == t - (Max(0, life) * 1000 + 1) * MILLI;
  }

  /** Everything in the window of the new call is kept or added. */
  lemma SlideKeeps(window: int, life: int, s: Option<Stored>, past: seq<nat>, last: int, t: nat)
    requires window <= Reach(life) && Mirrors(window, life, s, past, last) && last <= t
    ensures InWindow(window, past, t) <= Slide(Visible(s, t), window, t)
  {
    var start := Milli(t - window);
    MilliOrder(last - window, t - window);
    StartWithinReach(window, life, t);
    forall x | x in StampsAfter(past, start) ensures x in Slide(Visible(s, t), window, t) {
      var i :| 0 <= i < |past| && Milli(past[i]) > start && x == Milli(past[i]);
      MilliOrder(past[i], last);
      MilliOrder(last, t);
      var before := past[..|past| - 1];
      assert i < |before| ==> before[i] == past[i];
      assert x in InWindow(window, before, last);
    }
  }

  /** Nothing else is kept. */
  lemma SlidePrunes(window: int, life: int, s: Option<Stored>, past: seq<nat>, last: int, t: nat)
    requires Mirrors(window, life, s, past, last) && last <= t
    ensures Slide(Visible(s, t), window, t) <= InWindow(window, past, t)
  {
    forall x | x in Slide(Visible(s, t), window, t) ensures x in InWindow(window, past, t) {
      if x != Milli(t) {
        var before := past[..|past| - 1];
        assert x in InWindow(window, before, last);
        if x == Milli(last) {
          assert Milli(past[|past| - 1]) == x && x > Milli(t - window);
        } else {
          var i :| 0 <= i < |before| && Milli(before[i]) > Milli(last - window) && x == Milli(before[i]);
          assert past[i] == before[i];
        }
      }
    }
  }

  /** One call: pruning, adding and expiry together keep exactly the window. */
  lemma SlideIsExact(window: int, life: int, s: Option<Stored>, past: seq<nat>, last: int, t: nat)
    requires window <= Reach(life) && Mirrors(window, life, s, past, last) && last <= t
    ensures Slide(Visible(s, t), window, t) == InWindow(window, past, t)
    ensures Mirrors(window, life, Save(Slide(Visible(s, t), window, t), t, life), past + [t], t)
  {
    SlideKeeps(window, life, s, past, last, t);
    SlidePrunes(window, life, s, past, last, t);
    assert (past + [t])[..|past|] == past;
  }

  /** If the window is within reach of the key's lifetime, every count equals the full-history count. */
  lemma {:induction false} CountsAreExact(window: int, life: int, s: Option<Stored>, past: seq<nat>, last: int,
                                          calls: seq<nat>)
    requires window <= Reach(life) && Mirrors(window, life, s, past, last) && Ordered(last, calls)
    ensures Counts(window, life, s, calls) == FullCounts(window, past, calls)
    decreases |calls|
  {
    if calls != [] {
      var t := calls[0];
      var next := Slide(Visible(s, t), window, t);
      SlideIsExact(window, life, s, past, last, t);
      CountsAreExact(window, life, Save(next, t, life), past + [t], t, calls[1..]);
    }
  }

  /** If it is not, a second call in the millisecond after the key was dropped misses the first. */
  lemma ShortLifeMiscounts(window: int, life: int)
    requires window > Reach(life)
    ensures Ordered(0, [0, Reach(life)])
    ensures Counts(window, life, None, [0, Reach(life)]) == [1, 1]
    ensures FullCounts(window, [], [0, Reach(life)]) == [1, 2]
  {
    var late: nat := Reach(life);
    var calls: seq<nat> := [0, late];
    assert calls[1..] == [late] && [late][1..] == [];
    assert Milli(0) == 0 && Milli(late) == Max(0, life) * 1000 + 1;
    assert Slide({}, window, 0) == {0};
    assert Visible(Save({0}, 0, life), late) == {};
    assert Slide({}, window, late) == {Milli(late)};
    assert Counts(window, life, Save({0}, 0, life), [late]) == [1];
    assert InWindow(window, [], 0) == {0};
    LateWindow(window, late);
    assert FullCounts(window, [0], [late]) == [2];
    var none: seq<nat> := [];
    assert none + [0] == [0];
  }

  lemma LateWindow(window: int, late: nat)
    requires MILLI <= late < window
    ensures InWindow(window, [0], late) == {0, Milli(late)} && |InWindow(window, [0], late)| == 2
  {
    var first: seq<nat> := [0];
    assert Milli(first[0]) == 0 && Milli(late - window) < 0 && Milli(late) != 0;
  }

  /** The decisions of a run. */
  function Decisions(limit: int, counts: seq<nat>): seq<bool> {
    seq(|counts|, i requires 0 <= i < |counts| => counts[i] <= limit)
  }

  /** All runs of all limits decide as the full history would. */
  ghost predicate AlwaysRight(window: int, life: int) {
    forall limit: int, calls: seq<nat> :: Ordered(0, calls) ==>
      Decisions(limit, Counts(window, life, None, calls)) == Decisions(limit, FullCounts(window, [], calls))
  }

  /** For any window and lifetime: the limiter is right on all runs iff the window is within reach. */
  lemma RightExactly(window: int, life: int)
    ensures AlwaysRight(window, life) <==> window <= Reach(life)
  {
    if window <= Reach(life) {
      forall limit: int, calls: seq<nat> | Ordered(0, calls)
        ensures Decisions(limit, Counts(window, life, None, calls)) == Decisions(limit, FullCounts(window, [], calls))
      {
        CountsAreExact(window, life, None, [], 0, calls);
      }
    } else {
      ShortLifeMiscounts(window, life);
      assert Decisions(1, [1, 1])[1] && !Decisions(1, [1, 2])[1];
    }
  }

  /** The seconds that the Redis client sends: cut off, but one for any part of a second. Every window that is not
      positive has the effect of zero. */
  function Lifetime(window: int): int {
    if window <= 0 then 0 else if window < SECOND then 1 else window / SECOND
  }

  /** So SlidingWindow decides by the full history exactly for windows up to a second and for those at most a
      millisecond over whole seconds. */
  lemma RightWindows(window: int)
    ensures AlwaysRight(window, Lifetime(window)) <==> window <= SECOND || window % SECOND <= MILLI
  {
    RightExactly(window, Lifetime(window));
  }

  // ----- the limiter -----

  datatype Verdict = Verdict(allowed: bool, remaining: int)

  /** Redis as the pipeline sees it: one sorted set per key. */
  class Limiter {
    var keys: map<string, Stored>

    constructor ()
      ensures keys == map[]
    {
      keys := map[];
    }

    ghost function Lookup(key: string): Option<Stored>
      reads this
    {
      if key in keys then Some(keys[key]) else None
    }

    /** One call at instant `t`. The retry hint divides by the limit, so a limit of zero panics (None) after
        the store has been changed. */
    method Allow(key: string, limit: int, window: int, t: nat) returns (verdict: Option<Verdict>)
      modifies this
      ensures var next := Slide(Visible(old(Lookup(key)), t), window, t);
              && Lookup(key) == Save(next, t, Lifetime(window))
              && keys - {key} == old(keys) - {key}
              && (verdict.None? <==> limit == 0)
              && (verdict.Some? ==> verdict.value.allowed == (|next| <= limit)
                                    && verdict.value.remaining == Max(0, limit - |next|))
    {
      var start := Milli(t - window);
      var stamps: set<int> := {};
      if key in keys && Milli(t) <= keys[key].deadline {
        stamps := keys[key].stamps;
      }
      stamps := set x | x in stamps && !(0 <= x <= start);
      stamps := stamps + {Milli(t)};
      var life := Lifetime(window);
      if life <= 0 {
        keys := keys - {key};
      } else {
        keys := keys[key := Stored(stamps, Milli(t) + life * 1000)];
      }
      var count := |stamps|;
      var remaining := limit - count;
      if remaining < 0 {
        remaining := 0;
      }
      if limit == 0 {
        verdict := None;
      } else {
        verdict := Some(Verdict(count <= limit, remaining));
      }
    }
  }
}
