// Instants and durations are whole nanoseconds since the Unix epoch, as in Go's
// time package. The database keeps milliseconds and policies keep seconds, so the
// two roundings down are explicit.
module Time {
  const MILLISECOND := 1_000_000
  const SECOND := 1_000_000_000

  /** The column value of an instant; 0 is the zero time. */
  function UnixMilli(t: int): int {
    t / MILLISECOND
  }

  /** What an instant reads back as after it has been stored. */
  function StoredTime(t: int): int {
    UnixMilli(t) * MILLISECOND
  }

  /** Rounds down to whole seconds, like Truncate(time.Second). */
  function WholeSeconds(t: int): int {
    t / SECOND * SECOND
  }

  function Min(a: int, b: int): int {
    if a < b then a else b
  }

  /** Comparing columns is the same as comparing instants once the left one is stored. */
  lemma {:induction false} StoredComparison(stored: int, now: int)
    requires StoredTime(stored) == stored
    ensures now < stored <==> UnixMilli(now) < UnixMilli(stored)
  {
  }

  lemma {:induction false} WholeSecondsAreStored(t: int)
    ensures StoredTime(WholeSeconds(t)) == WholeSeconds(t)
    ensures WholeSeconds(WholeSeconds(t)) == WholeSeconds(t)
    ensures t - SECOND < WholeSeconds(t) <= t
  {
    var q := t / SECOND;
    MultipleOfSecond(q);
    MultipleOfMillisecond(q * 1000);
  }

  lemma {:induction false} MultipleOfSecond(k: int)
    ensures k * SECOND / SECOND == k
    ensures k * SECOND == k * 1000 * MILLISECOND
  {
  }

  lemma {:induction false} MultipleOfMillisecond(k: int)
    ensures k * MILLISECOND / MILLISECOND == k
  {
  }

  /** Columns and policies round down: to the last whole millisecond, and the last whole second. */
  lemma {:induction false} FloorsExact(t: int)
    ensures UnixMilli(t) * 1_000_000 <= t < (UnixMilli(t) + 1) * 1_000_000
    ensures StoredTime(t) == UnixMilli(t) * 1_000_000
    ensures exists k :: WholeSeconds(t) == k * 1_000_000_000
    ensures WholeSeconds(t) <= t < WholeSeconds(t) + 1_000_000_000
  {
    assert WholeSeconds(t) == (t / SECOND) * 1_000_000_000;
  }
}
