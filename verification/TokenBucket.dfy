/** The token bucket that a Lua script keeps in Redis, with the expiry of its key. Rates are reals. */
module TokenBucket {
  import opened Basics

  datatype Bucket = Bucket(tokens: int, lastRefill: int)

  datatype Grant = Grant(bucket: Bucket, allowed: bool)

  /** Tokens available at second `now`: a missing key counts as a full bucket refilled now. */
  function Available(capacity: int, rate: real, b: Option<Bucket>, now: int): int {
    var tokens := if b.None? then capacity else b.value.tokens;
    var last := if b.None? then now else b.value.lastRefill;
    var refill := ((now - last) as real * rate).Floor;
    if tokens + refill < capacity then tokens + refill else capacity
  }

  /** The body of the script. */
  function Take(capacity: int, rate: real, b: Option<Bucket>, cost: int, now: int): Grant {
    var current := Available(capacity, rate, b, now);
    if current >= cost then Grant(Bucket(current - cost, now), true) else Grant(Bucket(current, now), false)
  }

  function Ceil(x: real): int {
    -((-x).Floor)
  }

  /** The key's lifetime in seconds. */
  function Lifetime(capacity: int, rate: real): int
    requires rate != 0.0
  {
    Ceil(capacity as real / rate) + 1
  }

  /** A stored bucket and the last millisecond in which Redis keeps it, if it is ever to be dropped. */
  datatype Stored = Stored(bucket: Bucket, deadline: Option<int>)

  /** What HMGET sees at instant `t`. */
  function Visible(s: Option<Stored>, t: int): Option<Bucket> {
    if s.Some? && (s.value.deadline.None? || Milli(t) <= s.value.deadline.value) then Some(s.value.bucket) else None
  }

  /** HMSET and EXPIRE. A lifetime that is not positive deletes the key at once. */
  function Save(capacity: int, rate: real, b: Bucket, t: int): Option<Stored>
    requires rate != 0.0
  {
    var life := Lifetime(capacity, rate);
    if life <= 0 then None else Some(Stored(b, Some(Milli(t) + life * 1000)))
  }

  /** HMSET alone: a key that is there keeps its deadline, and a new one has none. */
  function Overwrite(s: Option<Stored>, b: Bucket, t: int): Stored {
    Stored(b, if Visible(s, t).Some? then s.value.deadline else None)
  }

  datatype Call = Call(t: int, cost: nat)

  predicate Ordered(t: int, calls: seq<Call>)
    decreases |calls|
  {
    calls == [] || (t <= calls[0].t && Ordered(calls[0].t, calls[1..]))
  }

  /** The decisions of a key that expires. */
  function Decisions(capacity: nat, rate: real, s: Option<Stored>, calls: seq<Call>): seq<bool>
    requires rate > 0.0
    decreases |calls|
  {
    if calls == [] then []
    else
      var g := Take(capacity, rate, Visible(s, calls[0].t), calls[0].cost, Unix(calls[0].t));
      [g.allowed] + Decisions(capacity, rate, Save(capacity, rate, g.bucket, calls[0].t), calls[1..])
  }

  /** The reference: a bucket that is kept for ever. */
  function Forever(capacity: nat, rate: real, b: Option<Bucket>, calls: seq<Call>): seq<bool>
    decreases |calls|
  {
    if calls == [] then []
    else
      var g := Take(capacity, rate, b, calls[0].cost, Unix(calls[0].t));
      [g.allowed] + Forever(capacity, rate, Some(g.bucket), calls[1..])
  }

  /** A balance is an integer between 0 and the capacity, refilled no later than now. */
  predicate Valid(capacity: nat, b: Option<Bucket>, now: int) {
    b.Some? ==> 0 <= b.value.tokens <= capacity && b.value.lastRefill <= now
  }

  lemma RefillNotNegative(rate: real, elapsed: int)
    requires rate > 0.0 && elapsed >= 0
    ensures (elapsed as real * rate).Floor >= 0
  {
    assert elapsed as real * rate >= 0.0;
  }

  lemma BalanceStays(capacity: nat, rate: real, b: Option<Bucket>, cost: nat, now: int)
    requires rate > 0.0 && Valid(capacity, b, now)
    ensures 0 <= Available(capacity, rate, b, now) <= capacity
    ensures Valid(capacity, Some(Take(capacity, rate, b, cost, now).bucket), now)
  {
    RefillNotNegative(rate, if b.None? then 0 else now - b.value.lastRefill);
  }

  // ----- what is granted -----

  /** The tokens that were left at the last refill, and the seconds since; a missing key is full. */
  function LeftOver(capacity: int, b: Option<Bucket>): int {
    if b.None? then capacity else b.value.tokens
  }

  function SinceRefill(b: Option<Bucket>, now: int): int {
    if b.None? then 0 else now - b.value.lastRefill
  }

  /** Exactly which whole amounts are there: those that neither the capacity nor the inflow forbids. */
  lemma AvailableExactly(capacity: int, rate: real, b: Option<Bucket>, now: int, n: int)
    ensures n <= Available(capacity, rate, b, now) <==>
            n <= capacity && n as real <= LeftOver(capacity, b) as real + Flow(rate, SinceRefill(b, now))
  {
    assert Flow(rate, 0) == 0.0;
  }

  /** A call is granted iff its cost fits into the capacity and into what was left and has flowed in since; and what a
      grant takes is missing from the balance. */
  lemma GrantedExactly(capacity: int, rate: real, b: Option<Bucket>, cost: int, now: int)
    ensures var g := Take(capacity, rate, b, cost, now);
            && (g.allowed <==>
                cost <= capacity && cost as real <= LeftOver(capacity, b) as real + Flow(rate, SinceRefill(b, now)))
            && g.bucket.tokens == Available(capacity, rate, b, now) - (if g.allowed then cost else 0)
            && g.bucket.lastRefill == now
  {
    AvailableExactly(capacity, rate, b, now, cost);
  }

  /** Fewer seconds than it takes to fill up do not fill up, and as many do. */
  lemma FlowFills(rate: real, seconds: int, c: real)
    requires rate > 0.0
    ensures seconds as real < c / rate ==> Flow(rate, seconds) < c
    ensures seconds as real >= c / rate ==> Flow(rate, seconds) >= c
  {
    var x, s := c / rate, seconds as real;
    assert x * rate == c;
    if s < x {
      assert (x - s) * rate > 0.0;
    } else {
      assert (s - x) * rate >= 0.0;
    }
  }

  lemma CeilBounds(x: real)
    ensures (Ceil(x) - 1) as real < x <= Ceil(x) as real
  {
  }

  /** The lifetime is the least whole number of seconds, plus one, in which an empty bucket fills up. */
  lemma LifetimeExactly(capacity: int, rate: real)
    requires rate > 0.0
    ensures Flow(rate, Lifetime(capacity, rate) - 2) < capacity as real <= Flow(rate, Lifetime(capacity, rate) - 1)
  {
    CeilBounds(capacity as real / rate);
    FlowFills(rate, Lifetime(capacity, rate) - 2, capacity as real);
    FlowFills(rate, Lifetime(capacity, rate) - 1, capacity as real);
  }

  /** A saved bucket can be seen until its lifetime is over, to the millisecond. */
  lemma KeptExactly(capacity: int, rate: real, b: Bucket, t: int, later: int)
    requires rate != 0.0 && t <= later
    ensures Visible(Save(capacity, rate, b, t), later) ==
            if Lifetime(capacity, rate) > 0 && Milli(later) - Milli(t) <= Lifetime(capacity, rate) * 1000 then Some(b)
            else None
  {
  }

  // ----- expiry is invisible -----

  /** By the time the key is dropped the bucket is full again. */
  lemma FullAgain(capacity: nat, rate: real, b: Bucket, now: int)
    requires rate > 0.0 && b.tokens >= 0 && now - b.lastRefill >= Lifetime(capacity, rate)
    ensures Available(capacity, rate, Some(b), now) == Available(capacity, rate, None, now) == capacity
  {
    CeilBounds(capacity as real / rate);
    FlowFills(rate, now - b.lastRefill, capacity as real);
  }

  /** The stored bucket is the eternal one, to be dropped its lifetime after the second of its last refill. */
  predicate Mirrors(capacity: nat, rate: real, s: Option<Stored>, b: Option<Bucket>)
    requires rate > 0.0
  {
    if s.None? then b.None?
    else
      && b == Some(s.value.bucket) && s.value.deadline.Some?
      && s.value.deadline.value >= (s.value.bucket.lastRefill + Lifetime(capacity, rate)) * 1000
  }

  lemma SecondsInMillis(t: int)
    ensures Unix(t) == Milli(t) / 1000
  {
  }

  lemma SameGrant(capacity: nat, rate: real, s: Option<Stored>, b: Option<Bucket>, call: Call)
    requires rate > 0.0 && Mirrors(capacity, rate, s, b) && Valid(capacity, b, Unix(call.t))
    ensures Take(capacity, rate, Visible(s, call.t), call.cost, Unix(call.t)) ==
            Take(capacity, rate, b, call.cost, Unix(call.t))
  {
    if s.Some? && Visible(s, call.t).None? {
      SecondsInMillis(call.t);
      FullAgain(capacity, rate, s.value.bucket, Unix(call.t));
    }
  }

  lemma LifetimePositive(capacity: nat, rate: real)
    requires rate > 0.0
    ensures Lifetime(capacity, rate) >= 1
  {
    assert capacity as real / rate >= 0.0;
  }

  lemma SavedMirrors(capacity: nat, rate: real, b: Bucket, t: int)
    requires rate > 0.0 && b.lastRefill == Unix(t)
    ensures Mirrors(capacity, rate, Save(capacity, rate, b, t), Some(b))
  {
    LifetimePositive(capacity, rate);
    SecondsInMillis(t);
  }

  /** Dropping the key after ceil(capacity / rate) + 1 seconds never changes a decision. */
  lemma {:induction false} ExpiryIsInvisible(capacity: nat, rate: real, s: Option<Stored>, b: Option<Bucket>,
                                             calls: seq<Call>, t: int)
    requires rate > 0.0 && Mirrors(capacity, rate, s, b) && Valid(capacity, b, Unix(t)) && Ordered(t, calls)
    ensures Decisions(capacity, rate, s, calls) == Forever(capacity, rate, b, calls)
    decreases |calls|
  {
    if calls != [] {
      var call := calls[0];
      var g := Take(capacity, rate, b, call.cost, Unix(call.t));
      SameGrant(capacity, rate, s, b, call);
      BalanceStays(capacity, rate, b, call.cost, Unix(call.t));
      SavedMirrors(capacity, rate, g.bucket, call.t);
      ExpiryIsInvisible(capacity, rate, Save(capacity, rate, g.bucket, call.t), Some(g.bucket), calls[1..], call.t);
    }
  }

  // ----- how much is granted -----

  /** The tokens granted by positive decisions. */
  function Granted(decisions: seq<bool>, calls: seq<Call>): nat
    requires |decisions| == |calls|
  {
    if calls == [] then 0
    else (if decisions[0] then calls[0].cost else 0) + Granted(decisions[1..], calls[1..])
  }

  lemma {:induction false} ForeverLength(capacity: nat, rate: real, b: Option<Bucket>, calls: seq<Call>)
    ensures |Forever(capacity, rate, b, calls)| == |calls|
    decreases |calls|
  {
    if calls != [] {
      ForeverLength(capacity, rate, Some(Take(capacity, rate, b, calls[0].cost, Unix(calls[0].t)).bucket), calls[1..]);
    }
  }

  /** The tokens that flow in during a number of seconds. */
  function Flow(rate: real, seconds: int): real {
    seconds as real * rate
  }

  lemma FlowAdds(rate: real, x: int, y: int)
    ensures Flow(rate, x) + Flow(rate, y) == Flow(rate, x + y)
  {
  }

  /** What is available grows by at most rate per second. */
  lemma RefillBound(capacity: nat, rate: real, b: Bucket, now: int)
    ensures Available(capacity, rate, Some(b), now) as real <= b.tokens as real + Flow(rate, now - b.lastRefill)
  {
  }

  /** What a grant takes is missing from the balance. */
  lemma TakeConserves(capacity: nat, rate: real, b: Option<Bucket>, cost: nat, now: int)
    ensures var g := Take(capacity, rate, b, cost, now);
            g.bucket.tokens + (if g.allowed then cost else 0) == Available(capacity, rate, b, now)
  {
  }

  lemma GrantedFirst(capacity: nat, rate: real, b: Option<Bucket>, calls: seq<Call>)
    requires calls != []
    ensures var g := Take(capacity, rate, b, calls[0].cost, Unix(calls[0].t));
            && |Forever(capacity, rate, b, calls)| == |calls|
            && |Forever(capacity, rate, Some(g.bucket), calls[1..])| == |calls| - 1
            && Granted(Forever(capacity, rate, b, calls), calls) ==
               (if g.allowed then calls[0].cost else 0)
               + Granted(Forever(capacity, rate, Some(g.bucket), calls[1..]), calls[1..])
  {
    var g := Take(capacity, rate, b, calls[0].cost, Unix(calls[0].t));
    ForeverLength(capacity, rate, b, calls);
    ForeverLength(capacity, rate, Some(g.bucket), calls[1..]);
    assert Forever(capacity, rate, b, calls)[1..] == Forever(capacity, rate, Some(g.bucket), calls[1..]);
  }

  /** From any valid bucket, a stretch is granted at most what is available at its start and what flows in. */
  lemma {:induction false} StretchBound(capacity: nat, rate: real, b: Option<Bucket>, calls: seq<Call>)
    requires rate > 0.0 && calls != [] && Valid(capacity, b, Unix(calls[0].t)) && Ordered(calls[0].t, calls)
    ensures |Forever(capacity, rate, b, calls)| == |calls|
    ensures Granted(Forever(capacity, rate, b, calls), calls) as real <=
            Available(capacity, rate, b, Unix(calls[0].t)) as real
            + Flow(rate, Unix(calls[|calls| - 1].t) - Unix(calls[0].t))
    decreases |calls|
  {
    var call, rest, now := calls[0], calls[1..], Unix(calls[0].t);
    var g := Take(capacity, rate, b, call.cost, now);
    GrantedFirst(capacity, rate, b, calls);
    TakeConserves(capacity, rate, b, call.cost, now);
    BalanceStays(capacity, rate, b, call.cost, now);
    if rest == [] {
      assert Flow(rate, 0) == 0.0;
    } else {
      var next, end := Unix(rest[0].t), Unix(rest[|rest| - 1].t);
      StretchBound(capacity, rate, Some(g.bucket), rest);
      RefillBound(capacity, rate, g.bucket, next);
      FlowAdds(rate, next - now, end - next);
      assert Flow(rate, next - now) + Flow(rate, end - next) == Flow(rate, end - now);
    }
  }

  /** The bucket after a run. */
  function After(capacity: nat, rate: real, b: Option<Bucket>, calls: seq<Call>): Option<Bucket>
    decreases |calls|
  {
    if calls == [] then b
    else After(capacity, rate, Some(Take(capacity, rate, b, calls[0].cost, Unix(calls[0].t)).bucket), calls[1..])
  }

  lemma {:induction false} RunSplits(capacity: nat, rate: real, b: Option<Bucket>, before: seq<Call>,
                                     stretch: seq<Call>, t: int)
    requires rate > 0.0 && Valid(capacity, b, Unix(t)) && Ordered(t, before + stretch)
    ensures Forever(capacity, rate, b, before + stretch) ==
            Forever(capacity, rate, b, before) + Forever(capacity, rate, After(capacity, rate, b, before), stretch)
    ensures stretch != [] ==>
            Ordered(stretch[0].t, stretch) && Valid(capacity, After(capacity, rate, b, before), Unix(stretch[0].t))
    decreases |before|
  {
    if before == [] {
      assert before + stretch == stretch;
    } else {
      var g := Take(capacity, rate, b, before[0].cost, Unix(before[0].t));
      BalanceStays(capacity, rate, b, before[0].cost, Unix(before[0].t));
      assert (before + stretch)[1..] == before[1..] + stretch;
      RunSplits(capacity, rate, Some(g.bucket), before[1..], stretch, before[0].t);
    }
  }

  /**
   * In any run of an expiring key, any stretch of calls that spans T seconds is granted at most
   * capacity + rate * T tokens.
   */
  lemma GrantBound(capacity: nat, rate: real, before: seq<Call>, stretch: seq<Call>, t: int)
    requires rate > 0.0 && stretch != [] && Ordered(t, before + stretch)
    ensures var d := Decisions(capacity, rate, None, before + stretch);
            && |d| == |before| + |stretch|
            && Granted(d[|before|..], stretch) as real <=
               capacity as real + Flow(rate, Unix(stretch[|stretch| - 1].t) - Unix(stretch[0].t))
  {
    ExpiryIsInvisible(capacity, rate, None, None, before + stretch, t);
    RunSplits(capacity, rate, None, before, stretch, t);
    var b := After(capacity, rate, None, before);
    ForeverLength(capacity, rate, None, before);
    ForeverLength(capacity, rate, b, stretch);
    StretchBound(capacity, rate, b, stretch);
    BalanceStays(capacity, rate, b, 0, Unix(stretch[0].t));
    assert Decisions(capacity, rate, None, before + stretch)[|before|..] == Forever(capacity, rate, b, stretch);
  }

  // ----- the limiter -----

  /** At rate zero the lifetime is not a number that Redis accepts: the script stops at EXPIRE, its earlier writes
      stay, and the caller lets the request through with an error. */
  datatype Answer = Answer(allowed: bool, remaining: int) | FailedOpen

  /** Redis as the script sees it: one hash per key. */
  class Limiter {
    var keys: map<string, Stored>

    constructor ()
      ensures keys == map[]
    {
      keys := map[];
    }

    ghost function Lookup(key: string): Option<Stored>
      reads this
    {
      if key in keys then Some(keys[key]) else None
    }

    /** One run of the script at instant `t`, for any capacity, rate and cost: the answer and the new state of this
        key are those of Take on what is visible, and every other key is left alone. */
    method Allow(key: string, capacity: int, rate: real, cost: int, t: int) returns (answer: Answer)
      modifies this
      ensures var was := old(Lookup(key));
              var g := Take(capacity, rate, Visible(was, t), cost, Unix(t));
              && answer == (if rate == 0.0 then FailedOpen else Answer(g.allowed, g.bucket.tokens))
              && Lookup(key) == (if rate == 0.0 then Some(Overwrite(was, g.bucket, t))
                                 else Save(capacity, rate, g.bucket, t))
              && keys - {key} == old(keys) - {key}
    {
      var now := Unix(t);
      var current, lastRefill, deadline := capacity, now, None;
      if key in keys && (keys[key].deadline.None? || Milli(t) <= keys[key].deadline.value) {
        current, lastRefill, deadline := keys[key].bucket.tokens, keys[key].bucket.lastRefill, keys[key].deadline;
      }
      var elapsed := now - lastRefill;
      var refill := (elapsed as real * rate).Floor;
      current := if current + refill < capacity then current + refill else capacity;
      var allowed := false;
      if current >= cost {
        current := current - cost;
        allowed := true;
      }
      keys := keys[key := Stored(Bucket(current, now), deadline)];
      if rate == 0.0 {
        return FailedOpen;
      }
      var life := Ceil(capacity as real / rate) + 1;
      if life <= 0 {
        keys := keys - {key};
      } else {
        keys := keys[key := keys[key].(deadline := Some(Milli(t) + life * 1000))];
      }
      answer := Answer(allowed, current);
    }
  }
}
