/** Instants in microseconds, and the whole-second stamps that get stored. */
module Clock {
  import opened Options

  type Instant = int

  const SECOND := 1_000_000

  /** `replace(microsecond=0)`: what a stored ISO stamp keeps of an instant. */
  function WholeSecond(t: Instant): (s: Instant)
    ensures s <= t < s + SECOND
  {
    t - t % SECOND
  }

  predicate IsWhole(t: Instant) {
    t % SECOND == 0
  }

  lemma WholeSecondIsWhole(t: Instant)
    ensures IsWhole(WholeSecond(t)) && WholeSecond(WholeSecond(t)) == WholeSecond(t)
  {
    var k := t / SECOND;
    assert WholeSecond(t) == SECOND * k;
  }

  /** Truncation cannot cross a whole second. */
  lemma WholeSecondKeepsBound(bound: Instant, t: Instant)
    requires IsWhole(bound) && bound <= t
    ensures bound <= WholeSecond(t)
  {
    var k, m := t / SECOND, bound / SECOND;
    assert bound == SECOND * m && WholeSecond(t) == SECOND * k;
    assert m <= k;
  }

  lemma AddSeconds(t: Instant, n: int)
    ensures WholeSecond(t + n * SECOND) == WholeSecond(t) + n * SECOND
    ensures IsWhole(t) ==> IsWhole(t + n * SECOND)
  {
    var k := t / SECOND;
    var r := t % SECOND;
    assert t + n * SECOND == (k + n) * SECOND + r;
    assert (t + n * SECOND) / SECOND == k + n;
  }

  /** An ISO text as fromisoformat reads it, after Z became +00:00: with or without an offset.
      Comparing one without an offset with an instant raises. */
  datatype Stamp = Aware(at: Instant) | Naive(at: Instant)

  type Reader = string -> Option<Stamp>

  function Read(read: Reader, text: Option<string>): Option<Stamp> {
    if text.None? || text.value == "" then None else read(text.value)
  }
}
