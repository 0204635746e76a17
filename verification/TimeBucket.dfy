/**
 * The start of the time window an event falls in. Instants are whole microseconds since the
 * epoch, which is what a timestamp holds; windows are whole seconds.
 */
module TimeBucket {
  const SECOND := 1_000_000

  /** Conversion of a timestamp to whole seconds, which truncates toward zero. */
  function WholeSeconds(t: int): int {
    if t >= 0 then t / SECOND else -(-t / SECOND)
  }

  /** The start of the window, in seconds; the division floors, also below zero. */
  function Bucket(t: int, window: int): int
    requires window > 0
  {
    (WholeSeconds(t) / window) * window
  }

  predicate Covers(bucket: int, window: int, t: int) {
    bucket * SECOND <= t < (bucket + window) * SECOND
  }

  lemma FloorUnique(a: int, d: int, q: int)
    requires d > 0 && q * d <= a < (q + 1) * d
    ensures a / d == q
  {
    var r := a / d;
    assert a == r * d + a % d;
    if r < q { MulMonotone(r + 1, q, d); assert false; }
    if r > q { MulMonotone(q + 1, r, d); assert false; }
  }

  /** Truncating to seconds and then dividing is one floor at the scale of microseconds. */
  lemma OneFloor(t: int, window: int)
    requires 0 <= t && 0 < window
    ensures Bucket(t, window) == t / (window * SECOND) * window
  {
    var s := t / SECOND;
    var q := s / window;
    assert s == q * window + s % window && t == s * SECOND + t % SECOND;
    assert q * (window * SECOND) == (q * window) * SECOND;
    assert (q + 1) * (window * SECOND) == (q * window + window) * SECOND;
    FloorUnique(t, window * SECOND, q);
  }

  /**
   * The window of an instant contains it, except for an instant before the epoch with a fractional
   * second that truncates up onto the start of the next window.
   */
  lemma BucketCovers(t: int, window: int)
    requires 0 < window
    ensures Covers(Bucket(t, window), window, t)
       <==> !(t < 0 && t % SECOND != 0 && WholeSeconds(t) % window == 0)
  {}

  lemma BucketIsMultiple(t: int, window: int)
    requires 0 < window
    ensures Bucket(t, window) % window == 0
  {
    MultipleHasNoRemainder(WholeSeconds(t) / window, window);
  }

  lemma MultipleHasNoRemainder(q: int, d: int)
    requires d > 0
    ensures (q * d) % d == 0 && (q * d) / d == q
  {
    FloorUnique(q * d, d, q);
  }

  lemma BucketMonotone(t: int, t': int, window: int)
    requires t <= t' && 0 < window
    ensures Bucket(t, window) <= Bucket(t', window)
  {
    var s, s' := WholeSeconds(t), WholeSeconds(t');
    assert s <= s' by {
      if t' < 0 { DivMonotone(-t', -t, SECOND); } else if t >= 0 { DivMonotone(t, t', SECOND); }
    }
    DivMonotone(s, s', window);
    MulMonotone(s / window, s' / window, window);
  }

  lemma DivMonotone(a: int, b: int, d: int)
    requires a <= b && d > 0
    ensures a / d <= b / d
  {
    if b / d < a / d { MulMonotone(b / d + 1, a / d, d); assert false; }
  }

  lemma MulMonotone(a: int, b: int, d: int)
    requires a <= b && d > 0
    ensures a * d <= b * d
  {}

  /** The start of a window falls in the window it starts. */
  lemma BucketIdempotent(t: int, window: int)
    requires 0 < window
    ensures Bucket(Bucket(t, window) * SECOND, window) == Bucket(t, window)
  {
    var b := Bucket(t, window);
    if b >= 0 { MultipleHasNoRemainder(b, SECOND); } else { MultipleHasNoRemainder(-b, SECOND); }
    assert WholeSeconds(b * SECOND) == b;
    MultipleHasNoRemainder(WholeSeconds(t) / window, window);
  }

  /** Two events after the epoch share a window exactly when their floors agree. */
  lemma SameBucketIff(t: int, t': int, window: int)
    requires 0 <= t && 0 <= t' && 0 < window
    ensures Bucket(t, window) == Bucket(t', window) <==> t / (window * SECOND) == t' / (window * SECOND)
  {
    OneFloor(t, window);
    OneFloor(t', window);
    MultipleHasNoRemainder(t / (window * SECOND), window);
    MultipleHasNoRemainder(t' / (window * SECOND), window);
  }

  /** Half a second before the epoch is put in the window that starts at the epoch. */
  lemma BeforeEpochMisplaced()
    ensures Bucket(-500_000, 3600) == 0 && !Covers(0, 3600, -500_000)
  {}
}
