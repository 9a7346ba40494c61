/** When exactly a soft failure raises a member's selection weight. */
module SoftFailures {
  import opened Reals
  import opened Stats

  /** A soft failure pushes the oldest success out of a full window. */
  predicate LosesSuccess(s: Model) {
    |s.samples| == s.window && s.samples != [] && s.samples[0].Success?
  }

  /** How slow the success about to leave may be, x being its latency, a the average latency, f of the w samples
      failures. The last success gives way to the cold-start latency of 100 ms; any other may exceed the average
      by what the raised failure rate makes up for. */
  predicate Tolerable(x: real, a: real, k: real, w: real, f: real) {
    if w - f == 1.0 then (x + 1.0) * (w + k * f) <= 101.0 * (w + k * w)
    else (x - a) * (w + k * (f + 1.0)) <= (w - f - 1.0) * ((a + 1.0) * k)
  }

  predicate OldestIsTolerable(s: Model, k: real)
    requires LosesSuccess(s)
  {
    Tolerable(s.samples[0].latency, AvgLatency(s.samples), k, |s.samples| as real, Failures(s.samples) as real)
  }

  // Comparing weights without division

  lemma InverseOrder(d: real, e: real)
    requires d >= 1.0 && e >= 1.0
    ensures 1.0 / e <= 1.0 / d <==> d <= e
  {
    if d <= e {
      InverseShrinks(d, e);
    } else {
      InverseBound(d);
      InverseShrinks(e, d);
      var p, q := 1.0 / d, 1.0 / e;
      assert p * d == 1.0 && q * e == 1.0;
      assert p * e != 1.0 by { assert p * (d - e) > 0.0; }
    }
  }

  lemma SameSign(x: real, y: real)
    requires y > 0.0
    ensures x * y >= 0.0 <==> x >= 0.0
  {
  }

  /** The denominators of two weights compared, both scaled by the window size w; f and g count failures. */
  predicate Ordered(a: real, f: real, b: real, g: real, k: real, w: real) {
    (a + 1.0) * (w + k * f) <= (b + 1.0) * (w + k * g)
  }

  lemma WeightOrder(a: real, r: real, b: real, q: real, k: real, w: real)
    requires a >= 0.0 && r >= 0.0 && b >= 0.0 && q >= 0.0 && k >= 0.0 && w > 0.0
    ensures WeightFrom(b, k, q) <= WeightFrom(a, k, r) <==> Ordered(a, r * w, b, q * w, k, w)
  {
    var d, e := (a + 1.0) * (1.0 + k * r), (b + 1.0) * (1.0 + k * q);
    WeightDenominator(a, k, r);
    WeightDenominator(b, k, q);
    InverseOrder(d, e);
    ScaleDenominator(a, k, w, r);
    ScaleDenominator(b, k, w, q);
    assert (e - d) * w == e * w - d * w;
    SameSign(e - d, w);
  }

  lemma ScaleDenominator(a: real, k: real, w: real, r: real)
    ensures (a + 1.0) * (1.0 + k * r) * w == (a + 1.0) * (w + k * (r * w))
  {
    assert (1.0 + k * r) * w == w + k * (r * w);
  }

  // The numbers before and after the success leaves: averages a and b, failure rates r and q

  predicate Rates(r: real, q: real, w: real, f: real) {
    r >= 0.0 && q >= 0.0 && w > 0.0 && r * w == f && q * w == f + 1.0
  }

  predicate Averages(a: real, b: real, x: real, w: real, f: real) {
    && a >= 0.0 && b >= 0.0 && w - f >= 1.0
    && (w - f == 1.0 ==> a == x && b == 100.0)
    && (w - f > 1.0 ==> b * (w - f - 1.0) == a * (w - f) - x)
  }

  lemma OtherSuccessesLeft(a: real, b: real, x: real, k: real, w: real, f: real)
    requires Averages(a, b, x, w, f) && w - f > 1.0
    ensures Ordered(a, f, b, f + 1.0, k, w) <==> Tolerable(x, a, k, w, f)
  {
    var m, y, z := w - f - 1.0, w + k * (f + 1.0), (a + 1.0) * k;
    var gain := (b + 1.0) * y - (a + 1.0) * (w + k * f);
    assert w + k * f == y - k;
    assert gain == (b - a) * y + z;
    assert (b - a) * m == a - x;
    assert gain * m == ((b - a) * m) * y + z * m by { Rearranged(b - a, y, z, m); }
    assert (a - x) * y == -((x - a) * y);
    SameSign(gain, m);
  }

  lemma Rearranged(c: real, y: real, z: real, m: real)
    ensures (c * y + z) * m == (c * m) * y + z * m
  {
    assert (c * y) * m == (c * m) * y;
  }

  lemma OrderedIffTolerable(a: real, b: real, x: real, k: real, w: real, f: real)
    requires Averages(a, b, x, w, f)
    ensures Ordered(a, f, b, f + 1.0, k, w) <==> Tolerable(x, a, k, w, f)
  {
    if w - f > 1.0 { OtherSuccessesLeft(a, b, x, k, w, f); } else { assert f + 1.0 == w; }
  }

  /** The threshold over the numbers alone. */
  lemma ThresholdIff(a: real, r: real, b: real, q: real, x: real, k: real, w: real, f: real)
    requires Rates(r, q, w, f) && Averages(a, b, x, w, f) && k >= 0.0
    ensures WeightFrom(b, k, q) <= WeightFrom(a, k, r) <==> Tolerable(x, a, k, w, f)
  {
    assert WeightFrom(b, k, q) <= WeightFrom(a, k, r) <==> Ordered(a, f, b, f + 1.0, k, w) by {
      WeightOrder(a, r, b, q, k, w);
    }
    OrderedIffTolerable(a, b, x, k, w, f);
  }

  // The window before and after

  /** One success of latency x has become a failure. */
  predicate Lost(before: seq<Sample>, after: seq<Sample>, x: real) {
    && NonNegativeLatencies(before) && NonNegativeLatencies(after)
    && 0 < |before| == |after|
    && Failures(after) == Failures(before) + 1
    && LatencySum(after) == LatencySum(before) - x
  }

  lemma SuccessLeaves(s: Model)
    requires NonNegativeLatencies(s.samples) && LosesSuccess(s)
    ensures Lost(s.samples, Apply(s, RecordSoftFail).samples, s.samples[0].latency)
  {
    var rest, x := s.samples[1..], s.samples[0];
    assert Apply(s, RecordSoftFail).samples == rest + [Failure] && s.samples == [x] + rest;
    FailuresPush(rest, Failure);
    FailuresFront(x, rest);
  }

  lemma {:induction false} LostRates(before: seq<Sample>, after: seq<Sample>, x: real)
    requires Lost(before, after, x)
    ensures Rates(FailureRate(before), FailureRate(after), |before| as real, Failures(before) as real)
  {
    RatesNonNegative(before);
    RatesNonNegative(after);
    Quotient(Failures(before) as real, |before| as real);
    Quotient(Failures(after) as real, |before| as real);
  }

  /** n successes with latency sum y average to a. */
  predicate AverageOf(a: real, y: real, n: real) {
    a >= 0.0 && (if n == 0.0 then a == 100.0 && y == 0.0 else a * n == y)
  }

  lemma {:induction false} AvgLatencyIsAverage(samples: seq<Sample>)
    requires NonNegativeLatencies(samples)
    ensures AverageOf(AvgLatency(samples), LatencySum(samples), |samples| as real - Failures(samples) as real)
  {
    RatesNonNegative(samples);
    if Failures(samples) == |samples| {
      NoSuccessNoLatency(samples);
    } else {
      Quotient(LatencySum(samples), (|samples| - Failures(samples)) as real);
    }
  }

  lemma AveragesFromSums(a: real, b: real, x: real, y: real, z: real, w: real, f: real, g: real)
    requires z == y - x && g == f + 1.0 && w - f >= 1.0
    requires AverageOf(a, y, w - f) && AverageOf(b, z, w - g)
    ensures Averages(a, b, x, w, f)
  {
    assert w - g == w - f - 1.0;
  }

  lemma {:induction false} LostAverages(before: seq<Sample>, after: seq<Sample>, x: real)
    requires Lost(before, after, x)
    ensures Averages(AvgLatency(before), AvgLatency(after), x, |before| as real, Failures(before) as real)
  {
    AvgLatencyIsAverage(before);
    AvgLatencyIsAverage(after);
    assert Failures(after) <= |after|;
    AveragesFromSums(AvgLatency(before), AvgLatency(after), x, LatencySum(before), LatencySum(after),
                     |before| as real, Failures(before) as real, Failures(after) as real);
  }

  lemma {:induction false} NoSuccessNoLatency(samples: seq<Sample>)
    requires Failures(samples) == |samples|
    ensures LatencySum(samples) == 0.0
  {
    if samples != [] { NoSuccessNoLatency(samples[..|samples| - 1]); }
  }

  lemma {:induction false} LossRaisesIff(before: seq<Sample>, after: seq<Sample>, x: real, k: real)
    requires Lost(before, after, x) && k >= 0.0
    ensures AvgLatency(before) >= 0.0 && FailureRate(before) >= 0.0
    ensures AvgLatency(after) >= 0.0 && FailureRate(after) >= 0.0
    ensures WeightFrom(AvgLatency(after), k, FailureRate(after))
            <= WeightFrom(AvgLatency(before), k, FailureRate(before))
            <==> Tolerable(x, AvgLatency(before), k, |before| as real, Failures(before) as real)
  {
    LostRates(before, after, x);
    LostAverages(before, after, x);
    ThresholdIff(AvgLatency(before), FailureRate(before), AvgLatency(after), FailureRate(after), x, k,
                 |before| as real, Failures(before) as real);
  }

  /** For every window of at most its size, exactly when a soft failure does not raise the weight. */
  lemma SoftFailRaisesIff(s: Model, k: real)
    requires NonNegativeLatencies(s.samples) && 1 <= s.window && |s.samples| <= s.window
    ensures NonNegativeLatencies(Apply(s, RecordSoftFail).samples)
    ensures WeightOf(Apply(s, RecordSoftFail), k) <= WeightOf(s, k)
            <==> (LosesSuccess(s) ==> OldestIsTolerable(s, if k < 0.0 then 0.0 else k))
  {
    if LosesSuccess(s) {
      SuccessLeaves(s);
      LossRaisesIff(s.samples, Apply(s, RecordSoftFail).samples, s.samples[0].latency, if k < 0.0 then 0.0 else k);
    } else {
      SoftFailNeverRaises(s, k);
    }
  }
}
