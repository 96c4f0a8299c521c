/** Values shared by every component: optional values and the clock. */
module Basics {

  datatype Option<+T> = None | Some(value: T)

  function Find<K, V>(m: map<K, V>, k: K): Option<V> {
    if k in m then Some(m[k]) else None
  }

  /** A byte of Go text or of binary data. */
  type byte = x: int | 0 <= x < 256

  /** Instants and durations are nanoseconds, as in Go's time package. */
  const SECOND: int := 1_000_000_000

  /** Time.Unix(): whole seconds since the epoch, rounded down. */
  function Unix(t: int): int {
    t / SECOND
  }

  const MILLI: int := 1_000_000

  /** Time.UnixMilli(): whole milliseconds since the epoch, rounded down. */
  function Milli(t: int): int {
    t / MILLI
  }

  function Max(a: int, b: int): int {
    if a < b then b else a
  }

  /** A product whose growth is reasoned about one step at a time. */
  function Times(n: int, x: int): int {
    n * x
  }

  lemma TimesStep(n: int, x: int)
    ensures Times(n + 1, x) == Times(n, x) + x
  {
  }

  lemma TimesOrder(m: int, n: int, x: int)
    requires m <= n && x >= 0
    ensures Times(m, x) <= Times(n, x)
  {
    assert (n - m) * x >= 0;
  }

  predicate Distinct<T(==)>(s: seq<T>) {
    forall i, j :: 0 <= i < j < |s| ==> s[i] != s[j]
  }
}
