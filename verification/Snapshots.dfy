/** What the dashboard shows of a member, and what its weight is, read off the recordings: src/stats.rs. */
module Snapshots {
  import opened Prelude
  import opened Reals
  import opened Units
  import opened Stats

  predicate OnDashboard(r: Record) { !r.RecordSoftFail? }

  /** The latest clock reading among the recordings that reach the dashboard. */
  function Latest(rs: seq<Record>): Option<int> {
    if rs == [] then None
    else
      var before, r := Latest(rs[..|rs| - 1]), rs[|rs| - 1];
      if !OnDashboard(r) then before
      else if before.Some? && before.value >= r.now then before
      else Some(r.now)
  }

  /** Something filed when the latest reading was t is still shown: there is no retention limit, or the hour of t ends
      within the last `retentionDays` days. */
  predicate Shown(retentionDays: nat, now: int, t: int) {
    || retentionDays == 0
    || retentionDays * 86_400_000 > I64_MAX
    || HourStart(t) + 3_600_000 > now - retentionDays * 86_400_000
  }

  /** The hour a reading falls into, cut off at the end of i64. */
  function HourStart(t: int): int {
    var h := t / 3_600_000 * 3_600_000;
    if h < I64_MIN then I64_MIN else h
  }

  predicate LastIsShown(rs: seq<Record>, retentionDays: nat, now: int)
    requires rs != []
  {
    OnDashboard(rs[|rs| - 1]) && Latest(rs).Some? && Shown(retentionDays, now, Latest(rs).value)
  }

  /** How many successes are still shown, how many timeouts, and the successes' latencies added up. */
  function Successes(rs: seq<Record>, retentionDays: nat, now: int): nat {
    if rs == [] then 0
    else
      Successes(rs[..|rs| - 1], retentionDays, now)
      + if rs[|rs| - 1].RecordSuccess? && LastIsShown(rs, retentionDays, now) then 1 else 0
  }

  function Timeouts(rs: seq<Record>, retentionDays: nat, now: int): nat {
    if rs == [] then 0
    else
      Timeouts(rs[..|rs| - 1], retentionDays, now)
      + if rs[|rs| - 1].RecordTimeout? && LastIsShown(rs, retentionDays, now) then 1 else 0
  }

  function Latencies(rs: seq<Record>, retentionDays: nat, now: int): real {
    if rs == [] then 0.0
    else
      Latencies(rs[..|rs| - 1], retentionDays, now)
      + if rs[|rs| - 1].RecordSuccess? && LastIsShown(rs, retentionDays, now) then rs[|rs| - 1].latency else 0.0
  }

  // Against the fold over the log

  lemma HoursAgree(t: int)
    requires I64(t)
    ensures HourOf(t) == HourStart(t) && I64(HourStart(t))
  {
  }

  lemma HoursMonotone(a: int, b: int)
    requires a <= b
    ensures HourStart(a) <= HourStart(b)
  {
    assert a / 3_600_000 <= b / 3_600_000;
  }

  /** The log's latest hour is the hour of the latest reading. */
  lemma {:induction false} LatestHour(rs: seq<Record>, now: int)
    requires WithinClock(rs, now) && I64(now)
    ensures DashboardLog(rs) == [] <==> Latest(rs).None?
    ensures Latest(rs).Some? ==>
              I64_MIN <= Latest(rs).value <= now && MaxHour(DashboardLog(rs)) == HourStart(Latest(rs).value)
  {
    if rs != [] {
      var p, r := rs[..|rs| - 1], rs[|rs| - 1];
      LatestHour(p, now);
      if OnDashboard(r) {
        var log := DashboardLog(rs);
        assert log[..|log| - 1] == DashboardLog(p) && log[|log| - 1].now == r.now;
        HoursAgree(r.now);
        if Latest(p).Some? {
          HoursAgree(Latest(p).value);
          var t := Latest(p).value;
          if r.now <= t { HoursMonotone(r.now, t); } else { HoursMonotone(t, r.now); }
        }
      }
    }
  }

  /** Within i64 the saturating comparisons are the plain ones. */
  lemma LiveIsShown(window: nat, retentionDays: nat, now: int, t: int)
    requires I64(now) && I64(t)
    ensures Live(HourStart(t), Cutoff(WithRetention(window, retentionDays).retention, now))
            <==> Shown(retentionDays, now, t)
  {
    HoursAgree(t);
  }

  /** The totals over the log are these counts. */
  lemma {:induction false} LogTotalsCount(window: nat, retentionDays: nat, rs: seq<Record>, now: int)
    requires WithinClock(rs, now) && I64(now)
    ensures var t := LogTotals(DashboardLog(rs), Cutoff(WithRetention(window, retentionDays).retention, now));
            && t.successes == Successes(rs, retentionDays, now)
            && t.samples == Successes(rs, retentionDays, now) + Timeouts(rs, retentionDays, now)
            && t.latency == Latencies(rs, retentionDays, now)
  {
    if rs != [] {
      var p, r := rs[..|rs| - 1], rs[|rs| - 1];
      LogTotalsCount(window, retentionDays, p, now);
      if OnDashboard(r) {
        var log := DashboardLog(rs);
        assert log[..|log| - 1] == DashboardLog(p);
        LatestHour(rs, now);
        LiveIsShown(window, retentionDays, now, Latest(rs).value);
      }
    }
  }

  /** A snapshot of this many successes and timeouts, with the successes' latencies added up: the failure rate is the
      share of timeouts, the average latency exists if and only if there is a success. */
  predicate Shows(shown: Snapshot, won: nat, late: nat, latency: real) {
    && shown.samples == won + late && shown.successes == won
    && shown.failureRate * (won + late) as real == late as real
    && (won + late == 0 ==> shown.failureRate == 0.0)
    && (shown.avgLatency.Some? <==> won > 0)
    && (shown.avgLatency.Some? ==> shown.avgLatency.value * won as real == latency)
  }

  lemma SnapshotNumbers(t: Totals, late: nat)
    requires t.samples == t.successes + late
    ensures Shows(SnapshotOf(t), t.successes, late, t.latency)
  {
    if t.samples > 0 { Quotient(late as real, t.samples as real); }
    if t.successes > 0 { Quotient(t.latency, t.successes as real); }
  }

  /** What the dashboard shows, straight from the recordings of the retention period. */
  lemma {:induction false} SnapshotMeans(window: nat, retentionDays: nat, rs: seq<Record>, now: int)
    requires I64(now) && WithinClock(rs, now)
    ensures Shows(SnapshotAt(Replay(WithRetention(window, retentionDays), rs), now),
                  Successes(rs, retentionDays, now), Timeouts(rs, retentionDays, now),
                  Latencies(rs, retentionDays, now))
  {
    SnapshotEqualsLog(window, retentionDays, rs, now);
    LogTotalsCount(window, retentionDays, rs, now);
    var t := LogTotals(DashboardLog(rs), Cutoff(WithRetention(window, retentionDays).retention, now));
    SnapshotNumbers(t, Timeouts(rs, retentionDays, now));
  }

  // The weight

  function Failed(r: Record): int { if r.RecordSuccess? then 0 else 1 }

  function LatencyOf(rs: seq<Record>): real {
    if rs == [] then 0.0
    else LatencyOf(rs[..|rs| - 1]) + if rs[|rs| - 1].RecordSuccess? then rs[|rs| - 1].latency else 0.0
  }

  lemma {:induction false} WindowCounts(rs: seq<Record>)
    ensures Failures(Samples(rs)) == Sum(rs, Failed) && LatencySum(Samples(rs)) == LatencyOf(rs)
  {
    if rs != [] {
      var p, r := rs[..|rs| - 1], rs[|rs| - 1];
      WindowCounts(p);
      assert rs == p + [r];
      SamplesPush(p, r);
      FailuresPush(Samples(p), SampleOf(r));
    }
  }

  lemma SamplesOfLast(rs: seq<Record>, n: nat)
    ensures LastN(Samples(rs), n) == Samples(LastN(rs, n))
  {
  }

  /** The share of failed recordings, and the average latency of the others, 100 ms when there are none. */
  predicate RateOf(last: seq<Record>, rate: real) {
    rate * |last| as real == Sum(last, Failed) as real && (last == [] ==> rate == 0.0)
  }

  predicate AverageOf(last: seq<Record>, a: real) {
    if Sum(last, Failed) == |last| then a == 100.0 else a * (|last| - Sum(last, Failed)) as real == LatencyOf(last)
  }

  lemma SameQuotient(x: real, n: real, y: real)
    requires n > 0.0 && x * n == y
    ensures y / n == x
  {
  }

  lemma {:induction false} FailedAtMost(last: seq<Record>)
    ensures Sum(last, Failed) <= |last|
  {
    if last != [] { FailedAtMost(last[..|last| - 1]); }
  }

  lemma {:induction false} RateIs(last: seq<Record>, rate: real)
    requires RateOf(last, rate)
    ensures FailureRate(Samples(last)) == rate
  {
    WindowCounts(last);
    if last != [] { SameQuotient(rate, |last| as real, Sum(last, Failed) as real); }
  }

  lemma {:induction false} AverageIs(last: seq<Record>, a: real)
    requires AverageOf(last, a)
    ensures AvgLatency(Samples(last)) == a
  {
    WindowCounts(last);
    FailedAtMost(last);
    var n := |last| - Sum(last, Failed);
    if n != 0 { SameQuotient(a, n as real, LatencyOf(last)); }
  }

  /** w is the weight of latency a, failure rate r and factor k: the inverse of (a + 1) * (1 + k * r), k not below 0. */
  predicate Weighs(w: real, a: real, r: real, k: real) {
    w * ((a + 1.0) * (1.0 + (if k < 0.0 then 0.0 else k) * r)) == 1.0
  }

  lemma WeighsItself(a: real, k: real, r: real)
    requires a >= 0.0 && r >= 0.0
    ensures Weighs(WeightFrom(a, if k < 0.0 then 0.0 else k, r), a, r, k)
  {
    var k' := if k < 0.0 then 0.0 else k;
    WeightDenominator(a, k', r);
    Quotient(1.0, (a + 1.0) * (1.0 + k' * r));
  }

  /** The weight, straight from the last recordings the window has room for. */
  lemma {:induction false} WeightMeans(window: nat, retentionDays: nat, rs: seq<Record>, k: real, a: real, rate: real)
    requires Durations(rs)
    requires RateOf(LastN(rs, if window < 1 then 1 else window), rate)
    requires AverageOf(LastN(rs, if window < 1 then 1 else window), a)
    ensures NonNegativeLatencies(Replay(WithRetention(window, retentionDays), rs).samples)
    ensures Weighs(WeightOf(Replay(WithRetention(window, retentionDays), rs), k), a, rate, k)
  {
    var s, n := Replay(WithRetention(window, retentionDays), rs), if window < 1 then 1 else window;
    ReplayNonNegative(window, retentionDays, rs);
    WindowIsLastSamples(window, retentionDays, rs);
    SamplesOfLast(rs, n);
    RateIs(LastN(rs, n), rate);
    AverageIs(LastN(rs, n), a);
    RatesNonNegative(s.samples);
    WeighsItself(a, k, rate);
  }
}
