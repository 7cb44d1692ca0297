/**
 The arithmetic of the UDP client: wrapping packet references, the retransmission
 timeout, and the round-trip time estimate. Times are ticks of the client's clock.
 */
module UdpArithmetic {
  import opened Common

  const REF_COUNT: nat := 0x1_0000_0000

  type Ref = r: int | 0 <= r < REF_COUNT

  const TICKS_PER_SECOND: int := 1_000_000_000
  const DURATION_MAX: int := 0x7fff_ffff_ffff_ffff

  function Max(a: int, b: int): int {
    if a < b then b else a
  }

  function Min(a: int, b: int): int {
    if b < a then b else a
  }

  /** Integer division that truncates toward zero. */
  function Quotient(a: int, b: int): int
    requires b > 0
  {
    if a >= 0 then a / b else -(-a / b)
  }

  function NextRef(r: Ref): Ref {
    (r + 1) % REF_COUNT
  }

  /** The reference of a packet before which n others were sent. */
  function RefOf(n: nat): Ref {
    if n < REF_COUNT then n else RefOf(n - REF_COUNT)
  }

  lemma {:induction false} RefOfWraps(n: nat)
    ensures RefOf(n) == n % REF_COUNT
  {
    if n >= REF_COUNT {
      RefOfWraps(n - REF_COUNT);
    }
  }

  lemma NextRefCounts(n: nat)
    ensures NextRef(RefOf(n)) == RefOf(n + 1)
  {
    RefOfWraps(n);
    RefOfWraps(n + 1);
  }

  /** Near each other, different packets have different references. */
  lemma RefsDiffer(n1: nat, n2: nat)
    requires n1 != n2 && n1 - n2 < REF_COUNT && n2 - n1 < REF_COUNT
    ensures RefOf(n1) != RefOf(n2)
  {
    RefOfWraps(n1);
    RefOfWraps(n2);
  }

  /** Whether the packet with ref1 was sent no earlier than the packet with ref2. */
  predicate RefGreaterThan(ref1: Ref, ref2: Ref) {
    (ref1 - ref2) % REF_COUNT < (REF_COUNT - 1) / 2
  }

  // Two send counters may be compared through their refs while they are at most this far apart.
  const MAX_DISTANCE: nat := 0x7fff_fffe

  ghost predicate Comparable(n1: nat, n2: nat) {
    n1 - n2 <= MAX_DISTANCE && n2 - n1 <= MAX_DISTANCE
  }

  /** On the refs of packets that are near enough to each other, the comparison is the order of sending. */
  lemma RefOrderIsSendOrder(n1: nat, n2: nat)
    requires Comparable(n1, n2)
    ensures RefGreaterThan(RefOf(n1), RefOf(n2)) <==> n1 >= n2
  {
    RefOfWraps(n1);
    RefOfWraps(n2);
    RefDifference(n1, n2);
  }

  lemma RefDifference(n1: nat, n2: nat)
    ensures (n1 % REF_COUNT - n2 % REF_COUNT) % REF_COUNT == (n1 - n2) % REF_COUNT
  {
  }

  /** Exactly how far the comparison can be trusted, among packets that are less than one wrap apart. */
  lemma RefOrderExactRange(n1: nat, n2: nat)
    requires 0 - REF_COUNT < n1 - n2 < REF_COUNT
    ensures (RefGreaterThan(RefOf(n1), RefOf(n2)) <==> n1 >= n2) <==> -0x8000_0001 <= n1 - n2 <= 0x7fff_fffe
  {
    RefOfWraps(n1);
    RefOfWraps(n2);
    RefDifference(n1, n2);
  }

  /** A 32-bit signed integer after wrapping. */
  function Wrap(x: int): int {
    (x + 0x8000_0000) % 0x1_0000_0000 - 0x8000_0000
  }

  /** The backoff after a retransmission timeout. */
  function Backoff(multiplier: int): int {
    Max(Wrap(multiplier * 2), multiplier)
  }

  ghost predicate ValidMultiplier(multiplier: int) {
    multiplier > 0 && exists k: nat :: k <= 30 && multiplier == PowerOfTwo(k)
  }

  lemma PowerOfTwo30()
    ensures PowerOfTwo(30) == 0x4000_0000
  {
    assert PowerOfTwo(10) == 1024;
    assert PowerOfTwo(20) == 1024 * 1024;
  }

  /** The multiplier stays a power of two and never exceeds two to the power of 30, where doubling wraps. */
  lemma BackoffKeepsPowerOfTwo(multiplier: int)
    requires ValidMultiplier(multiplier)
    ensures ValidMultiplier(Backoff(multiplier))
    ensures Backoff(multiplier) == if multiplier == 0x4000_0000 then multiplier else 2 * multiplier
  {
    var k: nat :| k <= 30 && multiplier == PowerOfTwo(k);
    PowerOfTwo30();
    PowerOfTwoGrows(k, 30);
    if k < 30 {
      assert PowerOfTwo(k + 1) == 2 * multiplier;
    }
  }

  function RtoLowerLimit(requestTimeout: int): int {
    Max(Quotient(requestTimeout, 10), TICKS_PER_SECOND / 10)
  }

  const RTO_UPPER_LIMIT: int := 60 * TICKS_PER_SECOND

  function RtoBase(requestTimeout: int, smoothedRtt: int, rttVariation: int): int {
    if smoothedRtt != 0 then smoothedRtt + Max(1, 4 * rttVariation) else RtoLowerLimit(requestTimeout)
  }

  function RetransmissionTimeout(requestTimeout: int, smoothedRtt: int, rttVariation: int, multiplier: int): int
    requires multiplier > 0
  {
    var base := RtoBase(requestTimeout, smoothedRtt, rttVariation);
    if base > DURATION_MAX / multiplier then RTO_UPPER_LIMIT
    else Max(Min(base * multiplier, RTO_UPPER_LIMIT), RtoLowerLimit(requestTimeout))
  }

  /** The product is only formed when it fits into a duration. */
  lemma GuardedProductFits(base: int, multiplier: int)
    requires multiplier > 0 && 0 <= base <= DURATION_MAX / multiplier
    ensures 0 <= base * multiplier <= DURATION_MAX
  {
    MulMonotone(multiplier, 0, base);
    MulMonotone(multiplier, base, DURATION_MAX / multiplier);
  }

  /** The timeout lies between the lower limit and 60 seconds, whatever the estimate, exactly if a tenth of the
      request timeout is at most 60 seconds. */
  lemma RtoWithinLimits(requestTimeout: int)
    requires requestTimeout > 0
    ensures
      (forall srtt: int, rttvar: int, multiplier: int :: multiplier > 0 ==>
         RtoLowerLimit(requestTimeout) <= RetransmissionTimeout(requestTimeout, srtt, rttvar, multiplier)
           <= RTO_UPPER_LIMIT)
      <==> requestTimeout / 10 <= 60 * TICKS_PER_SECOND
  {
    if requestTimeout / 10 > 60 * TICKS_PER_SECOND {
      assert RtoLowerLimit(requestTimeout) > RTO_UPPER_LIMIT;
      var rto := RetransmissionTimeout(requestTimeout, 0, 0, 1);
      assert !(RtoLowerLimit(requestTimeout) <= rto <= RTO_UPPER_LIMIT);
    }
  }

  /** The guard against an overflow of the product changes nothing: the timeout is the product between its limits. */
  lemma RtoIsProductWithinLimits(requestTimeout: int, srtt: int, rttvar: int, multiplier: int)
    requires multiplier > 0 && requestTimeout / 10 <= 60 * TICKS_PER_SECOND
    ensures RetransmissionTimeout(requestTimeout, srtt, rttvar, multiplier)
            == Max(Min(RtoBase(requestTimeout, srtt, rttvar) * multiplier, RTO_UPPER_LIMIT),
                   RtoLowerLimit(requestTimeout))
  {
    var base := RtoBase(requestTimeout, srtt, rttvar);
    var q := DURATION_MAX / multiplier;
    if base > q {
      assert multiplier * (q + 1) > DURATION_MAX;
      MulMonotone(multiplier, q + 1, base);
      assert base * multiplier == multiplier * base;
    }
  }

  datatype Estimate = Estimate(smoothed: int, variation: int)

  /** One round-trip time measurement while `sent` requests have not been answered. The weights are exact
      rationals and the result is truncated to ticks. */
  function UpdateRoundTripTime(e: Estimate, measurement: int, sent: nat): Estimate {
    if e.smoothed == 0 && e.variation == 0 then Estimate(measurement, Quotient(measurement, 2))
    else
      var k := Max(sent / 2, 1);
      var diff := if e.smoothed > measurement then e.smoothed - measurement else measurement - e.smoothed;
      Estimate(Quotient((8 * k - 1) * e.smoothed + measurement, 8 * k),
               Quotient((4 * k - 1) * e.variation + diff, 4 * k))
  }

  lemma WeightedMean(n: nat, a: int, b: int, low: int, high: int)
    requires n > 0 && 0 <= low && low <= a <= high && low <= b <= high
    ensures low <= Quotient((n - 1) * a + b, n) <= high
  {
    assert (n - 1) * low + low <= (n - 1) * a + b <= (n - 1) * high + high by {
      MulMonotone(n - 1, low, a);
      MulMonotone(n - 1, a, high);
    }
    assert n * low == (n - 1) * low + low && n * high == (n - 1) * high + high;
    assert (n - 1) * a + b >= 0 by { MulMonotone(n, 0, low); }
    DivBounds((n - 1) * a + b, n, low, high);
  }

  lemma MulMonotone(n: nat, a: int, b: int)
    requires a <= b
    ensures n * a <= n * b
  {
  }

  lemma DivBounds(x: int, n: nat, low: int, high: int)
    requires n > 0 && n * low <= x <= n * high
    ensures low <= x / n <= high
  {
    if x / n < low {
      MulMonotone(n, x / n + 1, low);
    }
    if x / n > high {
      MulMonotone(n, high + 1, x / n);
    }
  }

  /** Folds a list of measurements into the estimate, each with the number of unanswered requests at the time. */
  function Measured(samples: seq<(int, nat)>): Estimate {
    if samples == [] then Estimate(0, 0)
    else UpdateRoundTripTime(Measured(samples[..|samples| - 1]), samples[|samples| - 1].0, samples[|samples| - 1].1)
  }

  /** For non-negative samples the smoothed time stays between the smallest and the largest sample since the
      last reset, and the variation stays non-negative and below the largest sample. */
  lemma {:induction false} EstimateWithinSamples(samples: seq<(int, nat)>, low: int, high: int)
    requires samples != [] && 0 <= low
    requires forall i :: 0 <= i < |samples| ==> low <= samples[i].0 <= high
    ensures low <= Measured(samples).smoothed <= high
    ensures 0 <= Measured(samples).variation <= high
  {
    var rest, last := samples[..|samples| - 1], samples[|samples| - 1];
    if rest != [] {
      EstimateWithinSamples(rest, low, high);
      var e := Measured(rest);
      var k := Max(last.1 / 2, 1);
      var diff := if e.smoothed > last.0 then e.smoothed - last.0 else last.0 - e.smoothed;
      WeightedMean(8 * k, e.smoothed, last.0, low, high);
      WeightedMean(4 * k, e.variation, diff, 0, high);
    }
  }
}
