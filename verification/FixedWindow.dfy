/** The in-memory fixed-window rate limiter and its cleanup. */
module FixedWindow {
  import opened Basics
  import Tables

  datatype Entry = Entry(count: int, windowStart: int)

  type Clients = map<string, Entry>

  datatype Admission = Admission(entry: Entry, allowed: bool)

  /** The decision on one client's entry. A new window always lets its first request through. */
  function Admit(limit: int, window: int, entry: Option<Entry>, now: int): Admission {
    if entry.None? || now - entry.value.windowStart > window then Admission(Entry(1, now), true)
    else
      var e := entry.value.(count := entry.value.count + 1);
      Admission(e, e.count <= limit)
  }

  function Lookup(clients: Clients, ip: string): Option<Entry> {
    if ip in clients then Some(clients[ip]) else None
  }

  function Cleaned(window: int, clients: Clients, now: int): Clients {
    map ip | ip in clients && !(now - clients[ip].windowStart > window * 2) :: clients[ip]
  }

  datatype Event = Request(ip: string, now: int) | Cleanup(now: int)

  /** The decisions on the requests of `ip` in a run of all clients and cleanups. */
  function DecisionsFor(limit: int, window: int, clients: Clients, events: seq<Event>, ip: string): seq<bool>
    decreases |events|
  {
    if events == [] then []
    else
      match events[0]
      case Request(who, now) =>
        var a := Admit(limit, window, Lookup(clients, who), now);
        (if who == ip then [a.allowed] else []) + DecisionsFor(limit, window, clients[who := a.entry], events[1..], ip)
      case Cleanup(now) => DecisionsFor(limit, window, Cleaned(window, clients, now), events[1..], ip)
  }

  /** The times of the requests of `ip`. */
  function TimesOf(events: seq<Event>, ip: string): seq<int> {
    if events == [] then []
    else (if events[0].Request? && events[0].ip == ip then [events[0].now] else []) + TimesOf(events[1..], ip)
  }

  /** The reference: one client alone, never cleaned up. */
  function Alone(limit: int, window: int, entry: Option<Entry>, times: seq<int>): seq<bool>
    decreases |times|
  {
    if times == [] then []
    else
      var a := Admit(limit, window, entry, times[0]);
      [a.allowed] + Alone(limit, window, Some(a.entry), times[1..])
  }

  predicate Ordered(t: int, events: seq<Event>)
    decreases |events|
  {
    events == [] || (t <= events[0].now && Ordered(events[0].now, events[1..]))
  }

  /** A missing entry stands for one whose window has ended. */
  predicate Stands(window: int, stored: Option<Entry>, entry: Option<Entry>, now: int) {
    stored == entry || (stored.None? && entry.Some? && now - entry.value.windowStart > window)
  }

  /** Cleanups at any points and the requests of all other clients change no decision for a client. */
  lemma {:induction false} ClientIsAlone(limit: int, window: nat, clients: Clients, events: seq<Event>, ip: string,
                                         entry: Option<Entry>, t: int)
    requires Ordered(t, events) && Stands(window, Lookup(clients, ip), entry, t)
    ensures DecisionsFor(limit, window, clients, events, ip) == Alone(limit, window, entry, TimesOf(events, ip))
    decreases |events|
  {
    if events != [] {
      var rest, now := events[1..], events[0].now;
      match events[0]
      case Request(who, _) =>
        var a := Admit(limit, window, Lookup(clients, who), now);
        if who == ip {
          assert a == Admit(limit, window, entry, now);
          ClientIsAlone(limit, window, clients[who := a.entry], rest, ip, Some(a.entry), now);
          assert ([now] + TimesOf(rest, ip))[1..] == TimesOf(rest, ip);
        } else {
          ClientIsAlone(limit, window, clients[who := a.entry], rest, ip, entry, now);
          assert TimesOf(events, ip) == TimesOf(rest, ip);
        }
      case Cleanup(_) =>
        ClientIsAlone(limit, window, Cleaned(window, clients, now), rest, ip, entry, now);
        assert TimesOf(events, ip) == TimesOf(rest, ip);
    }
  }

  // ----- which requests get through -----

  /** The request that opened the window of request `i`: a request more than a window after the opening one opens the
      next window. */
  function OpenedBy(window: int, times: seq<int>, i: nat): (s: nat)
    requires i < |times|
    ensures s <= i
  {
    if i == 0 then 0
    else
      var s := OpenedBy(window, times, i - 1);
      if times[i] - times[s] > window then i else s
  }

  /** What the limiter remembers after `k` requests: how many of them are in the current window. */
  function Remembered(window: int, times: seq<int>, k: nat): Option<Entry>
    requires k <= |times|
  {
    if k == 0 then None
    else
      var s := OpenedBy(window, times, k - 1);
      Some(Entry(k - s, times[s]))
  }

  lemma RememberedNext(limit: int, window: int, times: seq<int>, k: nat)
    requires k < |times|
    ensures var a := Admit(limit, window, Remembered(window, times, k), times[k]);
            && Some(a.entry) == Remembered(window, times, k + 1)
            && (a.allowed <==> var s := OpenedBy(window, times, k); k == s || k - s + 1 <= limit)
  {
  }

  lemma {:induction false} AloneExactly(limit: int, window: int, times: seq<int>, k: nat, i: nat)
    requires k <= i < |times|
    ensures var d := Alone(limit, window, Remembered(window, times, k), times[k..]);
            && |d| == |times| - k
            && (d[i - k] <==> var s := OpenedBy(window, times, i); i == s || i - s + 1 <= limit)
    decreases |times| - k
  {
    var rest := times[k..];
    assert rest[0] == times[k] && rest[1..] == times[k + 1..];
    RememberedNext(limit, window, times, k);
    if k + 1 < |times| {
      AloneExactly(limit, window, times, k + 1, Max(i, k + 1));
    }
  }

  /** In any run of all clients and cleanups, a request of a client gets through iff it is the first of its window or
      among the first `limit`, where the client's own requests alone say which window it belongs to. */
  lemma DecidedExactly(limit: int, window: nat, events: seq<Event>, ip: string, t: int, i: nat)
    requires Ordered(t, events) && i < |TimesOf(events, ip)|
    ensures var times, d := TimesOf(events, ip), DecisionsFor(limit, window, map[], events, ip);
            && |d| == |times|
            && (d[i] <==> var s := OpenedBy(window, times, i); i == s || i - s + 1 <= limit)
  {
    ClientIsAlone(limit, window, map[], events, ip, None, t);
    AloneExactly(limit, window, TimesOf(events, ip), 0, i);
    assert TimesOf(events, ip)[0..] == TimesOf(events, ip);
  }

  // ----- how many requests get through -----

  /** The requests let through in the closed interval [lo, hi]. */
  function PassedIn(limit: int, window: int, entry: Option<Entry>, times: seq<int>, lo: int, hi: int): nat
    decreases |times|
  {
    if times == [] then 0
    else
      var a := Admit(limit, window, entry, times[0]);
      (if a.allowed && lo <= times[0] <= hi then 1 else 0) + PassedIn(limit, window, Some(a.entry), times[1..], lo, hi)
  }

  predicate Sorted(times: seq<int>) {
    forall i, j :: 0 <= i < j < |times| ==> times[i] <= times[j]
  }

  /** The most one window lets through. */
  function PerWindow(limit: int): int {
    Max(1, limit)
  }

  predicate Alive(window: int, entry: Option<Entry>, now: int) {
    entry.Some? && now - entry.value.windowStart <= window
  }

  /** What a live window can still let through. */
  function Left(limit: int, entry: Entry): int {
    Max(0, limit - entry.count)
  }

  lemma {:induction false} NothingLater(limit: int, window: int, entry: Option<Entry>, times: seq<int>, lo: int,
                                        hi: int)
    requires Sorted(times) && (times != [] ==> times[0] > hi)
    ensures PassedIn(limit, window, entry, times, lo, hi) == 0
    decreases |times|
  {
    if times != [] {
      NothingLater(limit, window, Some(Admit(limit, window, entry, times[0]).entry), times[1..], lo, hi);
    }
  }

  /**
   * Up to `hi`, a live window that started at most (k + 1) windows before lets through what it has left and
   * then at most `k` windows' worth; without a live window, `k` windows' worth if the next one has at most
   * `k` windows until `hi`.
   */
  lemma {:induction false} Budget(limit: int, window: nat, entry: Option<Entry>, times: seq<int>, lo: int, hi: int,
                                  k: nat)
    requires Sorted(times) && times != [] && (entry.Some? ==> entry.value.count >= 1)
    requires if Alive(window, entry, times[0]) then hi - entry.value.windowStart <= Times(k + 1, window)
             else k >= 1 && hi - times[0] <= Times(k, window)
    ensures PassedIn(limit, window, entry, times, lo, hi) <=
            (if Alive(window, entry, times[0]) then Left(limit, entry.value) else 0) + Times(k, PerWindow(limit))
    decreases |times|, 0
  {
    var now, rest := times[0], times[1..];
    var a := Admit(limit, window, entry, now);
    if now > hi {
      NothingLater(limit, window, entry, times, lo, hi);
      assert Times(k, PerWindow(limit)) >= 0;
    } else if rest == [] {
      assert PassedIn(limit, window, Some(a.entry), rest, lo, hi) == 0;
      OneMore(limit, entry, k, window, now);
    } else {
      if Alive(window, entry, now) {
        BudgetRest(limit, window, a.entry, rest, lo, hi, k);
      } else {
        BudgetRest(limit, window, a.entry, rest, lo, hi, k - 1);
        TimesStep(k - 1, PerWindow(limit));
      }
    }
  }

  lemma OneMore(limit: int, entry: Option<Entry>, k: nat, window: int, now: int)
    requires !Alive(window, entry, now) ==> k >= 1
    ensures (if Admit(limit, window, entry, now).allowed then 1 else 0) <=
            (if Alive(window, entry, now) then Left(limit, entry.value) else 0) + Times(k, PerWindow(limit))
  {
    assert k >= 1 ==> Times(k, PerWindow(limit)) >= PerWindow(limit);
    assert Times(k, PerWindow(limit)) >= 0;
  }

  /** The rest of a run inside the window that `entry` has opened or continued. */
  lemma {:induction false} BudgetRest(limit: int, window: nat, entry: Entry, times: seq<int>, lo: int, hi: int, k: nat)
    requires Sorted(times) && times != [] && entry.count >= 1
    requires hi - entry.windowStart <= Times(k + 1, window)
    ensures PassedIn(limit, window, Some(entry), times, lo, hi) <= Left(limit, entry) + Times(k, PerWindow(limit))
    decreases |times|, 1
  {
    var now := times[0];
    TimesStep(k, window);
    if Alive(window, Some(entry), now) {
      Budget(limit, window, Some(entry), times, lo, hi, k);
    } else if now > hi {
      NothingLater(limit, window, Some(entry), times, lo, hi);
      assert Times(k, PerWindow(limit)) >= 0;
    } else {
      assert k >= 1 by {
        assert now - entry.windowStart > window;
        assert Times(1, window) == window;
      }
      Budget(limit, window, Some(entry), times, lo, hi, k);
    }
  }

  /** From any entry: in a closed interval of n windows fewer than n + 1 windows' worth gets through. */
  lemma {:induction false} IntervalBound(limit: int, window: nat, entry: Option<Entry>, times: seq<int>, lo: int,
                                         hi: int, n: nat)
    requires Sorted(times) && (entry.Some? ==> entry.value.count >= 1)
    requires n >= 1 && hi - lo <= Times(n, window)
    ensures PassedIn(limit, window, entry, times, lo, hi) < Times(n + 1, PerWindow(limit))
    decreases |times|
  {
    TimesStep(n, window);
    TimesStep(n, PerWindow(limit));
    assert Times(n, PerWindow(limit)) >= 0;
    if times != [] {
      if times[0] < lo {
        IntervalBound(limit, window, Some(Admit(limit, window, entry, times[0]).entry), times[1..], lo, hi, n);
      } else {
        Budget(limit, window, entry, times, lo, hi, n);
      }
    }
  }

  // ----- the bound on whole runs -----

  /** How many of the decisions are positive and taken in [lo, hi]. */
  function CountIn(decisions: seq<bool>, times: seq<int>, lo: int, hi: int): nat
    requires |decisions| == |times|
  {
    if times == [] then 0
    else (if decisions[0] && lo <= times[0] <= hi then 1 else 0) + CountIn(decisions[1..], times[1..], lo, hi)
  }

  lemma {:induction false} CountsPassed(limit: int, window: int, entry: Option<Entry>, times: seq<int>, lo: int,
                                        hi: int)
    ensures |Alone(limit, window, entry, times)| == |times|
    ensures CountIn(Alone(limit, window, entry, times), times, lo, hi) == PassedIn(limit, window, entry, times, lo, hi)
    decreases |times|
  {
    if times != [] {
      var a := Admit(limit, window, entry, times[0]);
      CountsPassed(limit, window, Some(a.entry), times[1..], lo, hi);
      assert Alone(limit, window, entry, times)[1..] == Alone(limit, window, Some(a.entry), times[1..]);
    }
  }

  lemma {:induction false} TimesSorted(events: seq<Event>, ip: string, t: int)
    requires Ordered(t, events)
    ensures Sorted(TimesOf(events, ip)) && forall x <- TimesOf(events, ip) :: t <= x
    decreases |events|
  {
    if events != [] {
      TimesSorted(events[1..], ip, events[0].now);
      var rest := TimesOf(events[1..], ip);
      assert forall i :: 0 <= i < |rest| ==> rest[i] in rest;
    }
  }

  /**
   * In any run of requests of any clients and cleanups, with times that do not go back: one client gets fewer
   * than (n + 1) * max(1, limit) requests through in any closed interval of n >= 1 windows.
   */
  lemma ClientBound(limit: int, window: nat, events: seq<Event>, ip: string, t: int, lo: int, hi: int, n: nat)
    requires Ordered(t, events) && n >= 1 && hi - lo <= n * window
    ensures |DecisionsFor(limit, window, map[], events, ip)| == |TimesOf(events, ip)|
    ensures CountIn(DecisionsFor(limit, window, map[], events, ip), TimesOf(events, ip), lo, hi) <
            (n + 1) * Max(1, limit)
  {
    var times := TimesOf(events, ip);
    ClientIsAlone(limit, window, map[], events, ip, None, t);
    CountsPassed(limit, window, None, times, lo, hi);
    TimesSorted(events, ip, t);
    IntervalBound(limit, window, None, times, lo, hi, n);
  }

  // ----- the bound is met -----

  function Burst(t: int, r: nat): seq<int> {
    if r == 0 then [] else [t] + Burst(t, r - 1)
  }

  /** Full bursts at the first instants of the windows `k` to `n`, a window and a tick apart. */
  function Bursts(size: nat, window: nat, k: nat, n: nat): seq<int>
    decreases n + 1 - k
  {
    if k > n then [] else Burst(Times(k, window + 1), size) + Bursts(size, window, k + 1, n)
  }

  /** One request opens a window, the others come at its end, and then every window is used up at its start. */
  function Greedy(limit: int, window: nat, n: nat): seq<int> {
    [0] + (Burst(window, PerWindow(limit) - 1) + Bursts(PerWindow(limit), window, 1, n))
  }

  lemma {:induction false} BurstPasses(limit: int, window: nat, e: Entry, t: int, r: nat, rest: seq<int>, lo: int,
                                       hi: int)
    requires t - e.windowStart <= window && (r == 0 || e.count + r <= limit) && lo <= t <= hi
    ensures PassedIn(limit, window, Some(e), Burst(t, r) + rest, lo, hi) ==
            r + PassedIn(limit, window, Some(e.(count := e.count + r)), rest, lo, hi)
    decreases r
  {
    var times := Burst(t, r) + rest;
    if r == 0 {
      assert times == rest && e.(count := e.count + 0) == e;
    } else {
      assert times[0] == t && times[1..] == Burst(t, r - 1) + rest;
      BurstPasses(limit, window, e.(count := e.count + 1), t, r - 1, rest, lo, hi);
    }
  }

  lemma NewWindowPasses(limit: int, window: nat, e: Entry, t: int, rest: seq<int>, lo: int, hi: int)
    requires t - e.windowStart > window && lo <= t <= hi
    ensures PassedIn(limit, window, Some(e), Burst(t, PerWindow(limit)) + rest, lo, hi) ==
            PerWindow(limit) + PassedIn(limit, window, Some(Entry(PerWindow(limit), t)), rest, lo, hi)
  {
    var r := PerWindow(limit);
    var times := Burst(t, r) + rest;
    assert times[0] == t && times[1..] == Burst(t, r - 1) + rest;
    BurstPasses(limit, window, Entry(1, t), t, r - 1, rest, lo, hi);
  }

  lemma {:induction false} BurstsPass(limit: int, window: nat, e: Entry, k: nat, n: nat, lo: int, hi: int)
    requires k <= n + 1 && Times(k, window + 1) - e.windowStart > window
    requires lo <= Times(k, window + 1) && Times(n, window + 1) <= hi
    ensures PassedIn(limit, window, Some(e), Bursts(PerWindow(limit), window, k, n), lo, hi) ==
            Times(n + 1 - k, PerWindow(limit))
    decreases n + 1 - k
  {
    var size, t := PerWindow(limit), Times(k, window + 1);
    if k <= n {
      TimesStep(k, window + 1);
      TimesOrder(k, n, window + 1);
      NewWindowPasses(limit, window, e, t, Bursts(size, window, k + 1, n), lo, hi);
      BurstsPass(limit, window, Entry(size, t), k + 1, n, lo, hi);
      TimesStep(n - k, size);
    }
  }

  lemma {:induction false} BurstSorted(t: int, r: nat, rest: seq<int>)
    requires Sorted(rest) && forall x <- rest :: t <= x
    ensures Sorted(Burst(t, r) + rest) && forall x <- Burst(t, r) + rest :: t <= x
  {
    if r == 0 {
      assert Burst(t, r) + rest == rest;
    } else {
      BurstSorted(t, r - 1, rest);
      var tail := Burst(t, r - 1) + rest;
      assert Burst(t, r) + rest == [t] + tail;
      assert forall i :: 0 <= i < |tail| ==> tail[i] in tail;
    }
  }

  lemma {:induction false} BurstsSorted(size: nat, window: nat, k: nat, n: nat)
    ensures var times := Bursts(size, window, k, n);
            Sorted(times) && forall x <- times :: Times(k, window + 1) <= x
    decreases n + 1 - k
  {
    if k <= n {
      BurstsSorted(size, window, k + 1, n);
      TimesStep(k, window + 1);
      BurstSorted(Times(k, window + 1), size, Bursts(size, window, k + 1, n));
    }
  }

  lemma GreedySorted(limit: int, window: nat, n: nat)
    ensures Sorted(Greedy(limit, window, n))
  {
    var late := Bursts(PerWindow(limit), window, 1, n);
    BurstsSorted(PerWindow(limit), window, 1, n);
    assert Times(1, window + 1) == window + 1;
    BurstSorted(window, PerWindow(limit) - 1, late);
    var rest := Burst(window, PerWindow(limit) - 1) + late;
    assert forall i :: 0 <= i < |rest| ==> rest[i] in rest;
  }

  lemma TicksOver(n: nat, window: nat)
    requires n <= window
    ensures Times(n, window + 1) <= window + Times(n, window)
  {
    assert Times(n, window + 1) == Times(n, window) + n;
  }

  lemma GreedyPasses(limit: int, window: nat, n: nat, hi: int)
    requires 1 <= n <= window && hi == window + Times(n, window)
    ensures PassedIn(limit, window, None, Greedy(limit, window, n), window, hi) == Times(n + 1, PerWindow(limit)) - 1
  {
    var size := PerWindow(limit);
    var late := Bursts(size, window, 1, n);
    var rest := Burst(window, size - 1) + late;
    assert Greedy(limit, window, n)[0] == 0 && Greedy(limit, window, n)[1..] == rest;
    assert PassedIn(limit, window, None, Greedy(limit, window, n), window, hi) ==
           PassedIn(limit, window, Some(Entry(1, 0)), rest, window, hi);
    TimesOrder(0, n, window);
    BurstPasses(limit, window, Entry(1, 0), window, size - 1, late, window, hi);
    TicksOver(n, window);
    assert Times(1, window + 1) == window + 1;
    BurstsPass(limit, window, Entry(size, 0), 1, n, window, hi);
    TimesStep(n, size);
  }

  /** The bound cannot be lowered, for any limit, window and number of windows up to the ticks of one window: one
      less than (n + 1) * max(1, limit) requests do pass in a closed interval of n windows. */
  lemma BoundIsMet(limit: int, window: nat, n: nat)
    requires 1 <= n <= window
    ensures Sorted(Greedy(limit, window, n))
    ensures PassedIn(limit, window, None, Greedy(limit, window, n), window, window + n * window) ==
            (n + 1) * Max(1, limit) - 1
  {
    GreedySorted(limit, window, n);
    GreedyPasses(limit, window, n, window + Times(n, window));
  }

  // ----- the limiter -----

  class RateLimiter {
    const limit: int := 100
    const window: nat := 60 * SECOND
    const clients: Tables.Table<Entry>

    constructor ()
      ensures fresh(clients) && clients.Valid() && clients.refs == {} && clients.View() == map[]
    {
      clients := new Tables.Table();
    }

    /** Limit: count the request of `ip` and decide. */
    method Limit(ip: string, now: int) returns (allowed: bool)
      requires clients.Valid()
      modifies clients, clients.refs
      ensures clients.Valid() && clients.Grown()
      ensures var a := Admit(limit, window, Lookup(old(clients.View()), ip), now);
              allowed == a.allowed && clients.View() == old(clients.View())[ip := a.entry]
    {
      var entry := clients.Get(ip);
      if entry == null || now - entry.v.windowStart > window {
        clients.Store(ip, Entry(1, now));
        return true;
      }
      var e := entry.v.(count := entry.v.count + 1);
      clients.Write(ip, entry, e);
      allowed := e.count <= limit;
    }

    /** cleanup */
    method CleanUp(now: int)
      requires clients.Valid()
      modifies clients
      ensures clients.Valid() && clients.refs == old(clients.refs)
      ensures clients.View() == Cleaned(window, old(clients.View()), now)
    {
      clients.DeleteWhere((e: Entry) => now - e.windowStart > window * 2);
    }
  }

  /** A limiter that serves a run of requests and cleanups decides for a client as the run's decisions say. */
  method Drive(limiter: RateLimiter, events: seq<Event>, ip: string) returns (decisions: seq<bool>)
    requires limiter.clients.Valid()
    modifies limiter.clients, limiter.clients.refs
    ensures limiter.clients.Valid() && limiter.clients.Grown()
    ensures decisions == DecisionsFor(limiter.limit, limiter.window, old(limiter.clients.View()), events, ip)
  {
    decisions := [];
    ghost var all := DecisionsFor(limiter.limit, limiter.window, limiter.clients.View(), events, ip);
    for i := 0 to |events|
      invariant limiter.clients.Valid() && limiter.clients.Grown()
      invariant decisions + DecisionsFor(limiter.limit, limiter.window, limiter.clients.View(), events[i..], ip) == all
    {
      assert events[i..][0] == events[i] && events[i..][1..] == events[i + 1..];
      match events[i]
      case Request(who, now) =>
        var allowed := limiter.Limit(who, now);
        if who == ip {
          decisions := decisions + [allowed];
        }
      case Cleanup(now) =>
        limiter.CleanUp(now);
    }
  }

  /** The bound of the limiter object: from its creation on, whatever other clients and the cleanup do, a client
      gets fewer than (n + 1) * 100 requests through in any closed interval of n minutes, and exactly the first hundred
      of each of its own windows of a minute. */
  method DriveFromStart(events: seq<Event>, ip: string) returns (decisions: seq<bool>)
    requires events != [] ==> Ordered(events[0].now, events)
    ensures |decisions| == |TimesOf(events, ip)|
    ensures forall lo, hi, n: nat :: n >= 1 && hi - lo <= Times(n, 60 * SECOND) ==>
              CountIn(decisions, TimesOf(events, ip), lo, hi) < (n + 1) * 100
    ensures forall i :: 0 <= i < |decisions| ==>
              (decisions[i] <==> i - OpenedBy(60 * SECOND, TimesOf(events, ip), i) < 100)
  {
    var limiter := new RateLimiter();
    decisions := Drive(limiter, events, ip);
    var t := if events == [] then 0 else events[0].now;
    ClientBound(100, 60 * SECOND, events, ip, t, 0, 0, 1);
    forall i | 0 <= i < |decisions|
      ensures decisions[i] <==> i - OpenedBy(60 * SECOND, TimesOf(events, ip), i) < 100
    {
      DecidedExactly(100, 60 * SECOND, events, ip, t, i);
    }
    forall lo, hi, n: nat | n >= 1 && hi - lo <= Times(n, 60 * SECOND)
      ensures CountIn(decisions, TimesOf(events, ip), lo, hi) < (n + 1) * 100
    {
      ClientBound(100, 60 * SECOND, events, ip, t, lo, hi, n);
    }
  }
}
