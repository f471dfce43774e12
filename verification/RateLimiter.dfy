/**
 Per-topic rate limiting: clamping the requested rate, turning it into an
 integer interval, and the greedy admission of timestamped messages.
 */
module RateLimiting {
  import opened Common

  const MAX_RATE_HZ: real := 1_000_000.0
  const MIN_RATE_HZ: real := 0.001

  function ClampRate(hz: real): real {
    if hz <= 0.0 then 0.0
    else if hz < MIN_RATE_HZ then MIN_RATE_HZ
    else if hz > MAX_RATE_HZ then MAX_RATE_HZ
    else hz
  }

  /** The cast to int truncates; rates are never negative here. */
  function MilliHertz(hz: real): nat
    requires hz >= 0.0
  {
    (hz * 1000.0).Floor
  }

  function Interval(milliHertz: nat): U64
    requires milliHertz > 0
  {
    var q := 1_000_000_000_000 / milliHertz;
    MulMonotone(1_000_000_000_001, q, milliHertz);
    q
  }

  /** A limit that was asked for never degenerates into "unlimited", and its
      interval fits easily in 64 bits. */
  lemma ClampedRateUsable(hz: real)
    ensures hz <= 0.0 <==> MilliHertz(ClampRate(hz)) == 0
    ensures hz > 0.0 ==> 1 <= MilliHertz(ClampRate(hz)) <= 1_000_000_000
    ensures hz > 0.0 ==> 1000 <= Interval(MilliHertz(ClampRate(hz))) <= 1_000_000_000_000
  {
    if hz > 0.0 {
      var scaled := ClampRate(hz) * 1000.0;
      assert 1.0 <= scaled <= 1_000_000_000.0;
      IntervalBounds(scaled.Floor);
    }
  }

  /** The interval is the number of nanoseconds between messages at the rate,
      rounded down: one more would be too long. */
  lemma IntervalIsPeriod(milliHertz: nat)
    requires milliHertz > 0
    ensures Interval(milliHertz) * milliHertz <= 1_000_000_000_000 < (Interval(milliHertz) + 1) * milliHertz
  {
    var q, r := 1_000_000_000_000 / milliHertz, 1_000_000_000_000 % milliHertz;
    assert q * milliHertz + r == 1_000_000_000_000;
    assert (q + 1) * milliHertz == q * milliHertz + milliHertz;
  }

  /** Rates a client may ask for are used as they are, to a thousandth of a hertz;
      smaller ones are raised, larger ones lowered to the nearest such rate. */
  lemma RateIsKept(hz: real)
    ensures 0.001 <= hz <= 1_000_000.0 ==> ClampRate(hz) == hz
    ensures 0.0 < hz < 0.001 ==> ClampRate(hz) == 0.001
    ensures hz > 1_000_000.0 ==> ClampRate(hz) == 1_000_000.0
    ensures hz <= 0.0 ==> ClampRate(hz) == 0.0
    ensures hz >= 0.0 ==> MilliHertz(hz) as real <= 1000.0 * hz < (MilliHertz(hz) + 1) as real
  {
  }

  lemma IntervalBounds(milliHertz: nat)
    requires 1 <= milliHertz <= 1_000_000_000
    ensures 1000 <= Interval(milliHertz) <= 1_000_000_000_000
  {
    var q := 1_000_000_000_000 / milliHertz;
    var r := 1_000_000_000_000 % milliHertz;
    assert q * milliHertz + r == 1_000_000_000_000;
    MulMonotone(q, 999, milliHertz);
    MulMonotone(1_000_000_000_001, q, milliHertz);
  }

  lemma MulMonotone(a: nat, b: nat, m: nat)
    ensures a <= b ==> a * m <= b * m
  {
  }

  // --------------------------------------------------------------- admission

  /** The test of the publish loop, with its wrapping unsigned addition. */
  predicate Admits(last: U64, interval: U64, timestamp: U64) {
    timestamp >= Add64(last, interval)
  }

  /** It is the intended spacing test exactly unless the sum wraps to a value
      the timestamp has already reached. */
  lemma AdmitsIsSpacing(last: U64, interval: U64, timestamp: U64)
    ensures (Admits(last, interval, timestamp) <==> timestamp >= last + interval) <==>
            !(last + interval >= TWO64 && timestamp >= last + interval - TWO64)
  {
  }

  /** The limiter's memory after the messages `ts`. */
  function LastSent(ts: seq<U64>, last: U64, interval: U64): U64 {
    if ts == [] then last
    else
      var before := LastSent(ts[..|ts| - 1], last, interval);
      if Admits(before, interval, ts[|ts| - 1]) then ts[|ts| - 1] else before
  }

  /** The timestamps that were let through. */
  function Sent(ts: seq<U64>, last: U64, interval: U64): seq<U64> {
    if ts == [] then []
    else
      var before := Sent(ts[..|ts| - 1], last, interval);
      if Admits(LastSent(ts[..|ts| - 1], last, interval), interval, ts[|ts| - 1]) then before + [ts[|ts| - 1]]
      else before
  }

  /** A caller-checkable bound under which the addition never wraps. */
  predicate NeverWraps(ts: seq<U64>, interval: U64) {
    forall i | 0 <= i < |ts| :: ts[i] + interval < TWO64
  }

  lemma {:induction false} LastSentIsLast(ts: seq<U64>, last: U64, interval: U64)
    requires NeverWraps(ts, interval) && last + interval < TWO64
    ensures var sent := Sent(ts, last, interval);
            && LastSent(ts, last, interval) + interval < TWO64
            && LastSent(ts, last, interval) == if sent == [] then last else sent[|sent| - 1]
  {
    if ts != [] {
      LastSentIsLast(ts[..|ts| - 1], last, interval);
    }
  }

  /** Whatever the order of the incoming timestamps, consecutive admitted ones
      are at least the interval apart, and the first one is that far from the
      limiter's starting point. */
  lemma {:induction false} SentSpaced(ts: seq<U64>, last: U64, interval: U64)
    requires NeverWraps(ts, interval) && last + interval < TWO64
    ensures var sent := Sent(ts, last, interval);
            && (sent != [] ==> sent[0] >= last + interval)
            && (forall i | 0 < i < |sent| :: sent[i] >= sent[i - 1] + interval)
  {
    if ts != [] {
      SentSpaced(ts[..|ts| - 1], last, interval);
      LastSentIsLast(ts[..|ts| - 1], last, interval);
    }
  }

  /** Any two admitted timestamps are as far apart as their distance in the
      admitted sequence says. */
  lemma {:induction false} SentPairwise(ts: seq<U64>, last: U64, interval: U64, i: nat, j: nat)
    requires NeverWraps(ts, interval) && last + interval < TWO64
    requires i <= j < |Sent(ts, last, interval)|
    ensures var sent := Sent(ts, last, interval); sent[j] - sent[i] >= (j - i) * interval
    decreases j
  {
    SentSpaced(ts, last, interval);
    if i < j {
      SentPairwise(ts, last, interval, i, j - 1);
      assert (j - i) * interval == (j - 1 - i) * interval + interval;
    }
  }

  /** At most width / interval + 1 messages pass in any window. */
  lemma WindowBound(ts: seq<U64>, last: U64, interval: U64, i: nat, k: nat, width: nat)
    requires NeverWraps(ts, interval) && last + interval < TWO64
    requires k > 0 && i + k <= |Sent(ts, last, interval)|
    requires var sent := Sent(ts, last, interval); sent[i + k - 1] - sent[i] <= width
    ensures (k - 1) * interval <= width
  {
    SentPairwise(ts, last, interval, i, i + k - 1);
  }

  /** Cutting the stream into cycles does not change what is admitted. */
  lemma {:induction false} AdmissionAcrossCycles(a: seq<U64>, b: seq<U64>, last: U64, interval: U64)
    ensures Sent(a + b, last, interval) ==
            Sent(a, last, interval) + Sent(b, LastSent(a, last, interval), interval)
    ensures LastSent(a + b, last, interval) == LastSent(b, LastSent(a, last, interval), interval)
  {
    if b == [] {
      assert a + b == a;
    } else {
      AdmissionAcrossCycles(a, b[..|b| - 1], last, interval);
      assert (a + b)[..|a + b| - 1] == a + b[..|b| - 1];
    }
  }

  function Concat(cycles: seq<seq<U64>>): seq<U64> {
    if cycles == [] then [] else Concat(cycles[..|cycles| - 1]) + cycles[|cycles| - 1]
  }

  /** What one limiter lets through over a run of publish cycles. */
  function SentOverRun(cycles: seq<seq<U64>>, last: U64, interval: U64): seq<U64> {
    if cycles == [] then []
    else
      var front := cycles[..|cycles| - 1];
      SentOverRun(front, last, interval)
      + Sent(cycles[|cycles| - 1], LastOverRun(front, last, interval), interval)
  }

  function LastOverRun(cycles: seq<seq<U64>>, last: U64, interval: U64): U64 {
    if cycles == [] then last
    else LastSent(cycles[|cycles| - 1], LastOverRun(cycles[..|cycles| - 1], last, interval), interval)
  }

  lemma {:induction false} RunIsOneStream(cycles: seq<seq<U64>>, last: U64, interval: U64)
    ensures SentOverRun(cycles, last, interval) == Sent(Concat(cycles), last, interval)
    ensures LastOverRun(cycles, last, interval) == LastSent(Concat(cycles), last, interval)
  {
    if cycles != [] {
      var front := cycles[..|cycles| - 1];
      RunIsOneStream(front, last, interval);
      AdmissionAcrossCycles(Concat(front), cycles[|cycles| - 1], last, interval);
    }
  }

  // --------------------------------------------------------------- optimality

  /** `pick` is a selection of `ts` whose members keep the spacing. */
  ghost predicate Spaced(pick: seq<U64>, last: U64, interval: U64) {
    && (pick != [] ==> pick[0] >= last + interval)
    && (forall i | 0 < i < |pick| :: pick[i] >= pick[i - 1] + interval)
  }

  /** For nondecreasing timestamps the greedy choice is best possible: any
      properly spaced selection is no longer, and one that is as long does not
      end earlier. */
  lemma {:induction false} GreedyIsOptimal(ts: seq<U64>, pick: seq<U64>, last: U64, interval: U64)
    requires NeverWraps(ts, interval) && last + interval < TWO64
    requires forall i, j | 0 <= i < j < |ts| :: ts[i] <= ts[j]
    requires Subsequence(pick, ts) && Spaced(pick, last, interval)
    ensures |pick| <= |Sent(ts, last, interval)|
    ensures |pick| == |Sent(ts, last, interval)| && pick != [] ==>
              LastSent(ts, last, interval) <= pick[|pick| - 1]
  {
    if ts != [] && pick != [] {
      var front, newest := ts[..|ts| - 1], ts[|ts| - 1];
      LastSentIsLast(front, last, interval);
      if pick[|pick| - 1] == newest {
        GreedyIsOptimal(front, pick[..|pick| - 1], last, interval);
        LastSentIsLast(ts, last, interval);
        SentStems(ts, last, interval);
        var sent := Sent(ts, last, interval);
        assert sent != [] ==> sent[|sent| - 1] in ts;
      } else {
        GreedyIsOptimal(front, pick, last, interval);
      }
    }
  }

  /** The greedy choice itself is such a selection. */
  lemma GreedyIsSelection(ts: seq<U64>, last: U64, interval: U64)
    requires NeverWraps(ts, interval) && last + interval < TWO64
    ensures Subsequence(Sent(ts, last, interval), ts) && Spaced(Sent(ts, last, interval), last, interval)
  {
    SentSpaced(ts, last, interval);
    SentIsSubsequence(ts, last, interval);
  }

  lemma {:induction false} SentIsSubsequence(ts: seq<U64>, last: U64, interval: U64)
    ensures Subsequence(Sent(ts, last, interval), ts)
  {
    if ts != [] {
      var front, newest := ts[..|ts| - 1], ts[|ts| - 1];
      SentIsSubsequence(front, last, interval);
      SubsequenceSkip(Sent(front, last, interval), front, newest);
      SubsequenceExtend(Sent(front, last, interval), front, newest);
      assert front + [newest] == ts;
    }
  }

  lemma {:induction false} SentStems(ts: seq<U64>, last: U64, interval: U64)
    ensures forall x | x in Sent(ts, last, interval) :: x in ts
  {
    if ts != [] {
      SentStems(ts[..|ts| - 1], last, interval);
    }
  }
}
