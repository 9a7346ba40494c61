/** Per-member call statistics: src/stats.rs. */
module Stats {
  import opened Prelude
  import opened Reals
  import opened Units

  /** Saturating i64 arithmetic. */
  function Sat(x: int): int {
    if x < I64_MIN then I64_MIN else if x > I64_MAX then I64_MAX else x
  }

  predicate I64(x: int) {
    I64_MIN <= x <= I64_MAX
  }

  datatype Sample = Success(latency: real) | Failure

  datatype HourBucket = HourBucket(hour: int, samples: nat, successes: nat, latencySum: real)

  /** The fields of UpstreamStats. */
  datatype Model = Model(window: nat, retention: Option<int>, samples: seq<Sample>, history: seq<HourBucket>)

  /** One call of a recorder method, with the clock it read. */
  datatype Record = RecordSuccess(latency: real, now: int) | RecordSoftFail | RecordTimeout(now: int)

  /** retention_days = 0, or a period that overflows i64, means keep forever. */
  function WithRetention(window: nat, retentionDays: nat): Model {
    Model(if window < 1 then 1 else window,
          if 0 < retentionDays && retentionDays * DAY_MS <= I64_MAX then Some(retentionDays * DAY_MS) else None,
          [], [])
  }

  /** What the constructor establishes and every recorder keeps. */
  predicate Sane(s: Model) {
    s.window >= 1 && (s.retention.Some? ==> DAY_MS <= s.retention.value <= I64_MAX)
  }

  function HourOf(now: int): int {
    Sat(now / HOUR_MS * HOUR_MS)
  }

  function Cutoff(retention: Option<int>, now: int): Option<int> {
    if retention.None? then None else Some(Sat(now - retention.value))
  }

  /** A bucket is still inside the retention period. */
  predicate Live(hour: int, cutoff: Option<int>) {
    cutoff.None? || Sat(hour + HOUR_MS) > cutoff.value
  }

  function Push(samples: seq<Sample>, window: nat, s: Sample): seq<Sample> {
    (if |samples| == window && samples != [] then samples[1..] else samples) + [s]
  }

  /** Counts a call into the newest bucket, or opens one. A clock rollback stays in the newest. */
  function Merge(history: seq<HourBucket>, now: int, latency: Option<real>): (h: seq<HourBucket>)
    ensures h != []
  {
    var n := |history|;
    if n > 0 && history[n - 1].hour >= HourOf(now) then
      var b := history[n - 1];
      history[n - 1 := if latency.Some?
                       then b.(samples := b.samples + 1, successes := b.successes + 1,
                               latencySum := b.latencySum + latency.value)
                       else b.(samples := b.samples + 1)]
    else
      history + [if latency.Some? then HourBucket(HourOf(now), 1, 1, latency.value)
                 else HourBucket(HourOf(now), 1, 0, 0.0)]
  }

  function Prune(history: seq<HourBucket>, cutoff: Option<int>): seq<HourBucket> {
    if history != [] && !Live(history[0].hour, cutoff) then Prune(history[1..], cutoff) else history
  }

  function RecordHistory(s: Model, now: int, latency: Option<real>): Model {
    s.(history := Prune(Merge(s.history, now, latency), Cutoff(s.retention, now)))
  }

  function Apply(s: Model, r: Record): Model {
    match r
    case RecordSuccess(latency, now) =>
      RecordHistory(s.(samples := Push(s.samples, s.window, Success(latency))), now, Some(latency))
    case RecordSoftFail => s.(samples := Push(s.samples, s.window, Failure))
    case RecordTimeout(now) =>
      RecordHistory(s.(samples := Push(s.samples, s.window, Failure)), now, None)
  }

  /** The two deques updated in place. */
  class UpstreamStats {
    const window: nat
    const retention: Option<int>
    var samples: seq<Sample>
    var history: seq<HourBucket>

    function Value(): Model
      reads this
    {
      Model(window, retention, samples, history)
    }

    /** The window has room for a sample and is never overfull. */
    predicate Valid()
      reads this
    {
      1 <= window && |samples| <= window
    }

    constructor (window: nat, retentionDays: nat)
      ensures Valid() && Value() == WithRetention(window, retentionDays)
    {
      this.window := if window < 1 then 1 else window;
      this.retention := if 0 < retentionDays && retentionDays * DAY_MS <= I64_MAX
                        then Some(retentionDays * DAY_MS) else None;
      this.samples, this.history := [], [];
    }

    /** Afterwards the window holds the newest samples there are room for, the new one last. */
    method PushSample(s: Sample)
      requires Valid()
      modifies this`samples
      ensures Valid() && samples == LastN(old(samples) + [s], window)
    {
      if |samples| == window && samples != [] { samples := samples[1..]; }
      samples := samples + [s];
    }

    method AddToHistory(now: int, latency: Option<real>)
      modifies this`history
      ensures Value() == RecordHistory(old(Value()), now, latency)
    {
      var hour := HourOf(now);
      var n := |history|;
      if n > 0 && history[n - 1].hour >= hour {
        var b := history[n - 1];
        b := b.(samples := b.samples + 1);
        if latency.Some? {
          b := b.(successes := b.successes + 1, latencySum := b.latencySum + latency.value);
        }
        history := history[n - 1 := b];
      } else {
        history := history + [HourBucket(hour, 1, if latency.Some? then 1 else 0,
                                         if latency.Some? then latency.value else 0.0)];
      }
      assert history == Merge(old(history), now, latency);
      var cutoff := Cutoff(retention, now);
      if cutoff.Some? {
        while history != [] && Sat(history[0].hour + HOUR_MS) <= cutoff.value
          invariant Prune(history, cutoff) == Prune(Merge(old(history), now, latency), cutoff)
          decreases |history|
        {
          history := history[1..];
        }
      }
    }

    method Record(r: Record)
      requires Valid()
      modifies this`samples, this`history
      ensures Valid() && Value() == Apply(old(Value()), r)
    {
      PushIsLastN(samples, window, SampleOf(r));
      match r
      case RecordSuccess(latency, now) =>
        PushSample(Success(latency));
        AddToHistory(now, Some(latency));
      case RecordSoftFail =>
        PushSample(Failure);
      case RecordTimeout(now) =>
        PushSample(Failure);
        AddToHistory(now, None);
    }
  }

  // Whole histories of recorder calls

  function Replay(s: Model, rs: seq<Record>): Model {
    if rs == [] then s else Apply(Replay(s, rs[..|rs| - 1]), rs[|rs| - 1])
  }

  function SampleOf(r: Record): Sample {
    if r.RecordSuccess? then Success(r.latency) else Failure
  }

  function Samples(rs: seq<Record>): seq<Sample> {
    seq(|rs|, i requires 0 <= i < |rs| => SampleOf(rs[i]))
  }

  function LastN<T>(s: seq<T>, n: nat): seq<T> {
    if |s| <= n then s else s[|s| - n..]
  }

  /** Making room before pushing keeps the newest samples. */
  lemma PushIsLastN(samples: seq<Sample>, window: nat, s: Sample)
    requires 1 <= window && |samples| <= window
    ensures Push(samples, window, s) == LastN(samples + [s], window)
  {
  }

  lemma ApplySamples(s: Model, r: Record)
    ensures var s' := Apply(s, r);
            s'.samples == Push(s.samples, s.window, SampleOf(r)) && s'.window == s.window && s'.retention == s.retention
  {
  }

  lemma SamplesPush(rs: seq<Record>, r: Record)
    ensures Samples(rs + [r]) == Samples(rs) + [SampleOf(r)]
  {
  }

  lemma PushOntoLast(all: seq<Sample>, window: nat, s: Sample)
    requires 1 <= window
    ensures Push(LastN(all, window), window, s) == LastN(all + [s], window)
  {
  }

  /** The window is exactly the last `window` samples ever pushed, whatever their kind. */
  lemma {:induction false} WindowIsLastSamples(window: nat, retentionDays: nat, rs: seq<Record>)
    ensures var s := Replay(WithRetention(window, retentionDays), rs);
            s.samples == LastN(Samples(rs), s.window)
            && s.window == (if window < 1 then 1 else window)
            && s.retention == WithRetention(window, retentionDays).retention
  {
    if rs != [] {
      var p, r := rs[..|rs| - 1], rs[|rs| - 1];
      assert rs == p + [r];
      WindowIsLastSamples(window, retentionDays, p);
      var s := Replay(WithRetention(window, retentionDays), p);
      ApplySamples(s, r);
      SamplesPush(p, r);
      PushOntoLast(Samples(p), s.window, SampleOf(r));
    }
  }

  // The dashboard history against the log that is never pruned

  datatype Entry = Entry(now: int, latency: Option<real>)

  /** The calls that reach the dashboard: successes and timeouts, never soft failures. */
  function DashboardLog(rs: seq<Record>): seq<Entry> {
    if rs == [] then []
    else
      var rest := DashboardLog(rs[..|rs| - 1]);
      match rs[|rs| - 1]
      case RecordSuccess(latency, now) => rest + [Entry(now, Some(latency))]
      case RecordSoftFail => rest
      case RecordTimeout(now) => rest + [Entry(now, None)]
  }

  datatype Totals = Totals(samples: nat, successes: nat, latency: real) {
    function Plus(t: Totals): Totals {
      Totals(samples + t.samples, successes + t.successes, latency + t.latency)
    }
  }

  function Nothing(): Totals { Totals(0, 0, 0.0) }

  function EntryTotals(e: Entry): Totals {
    if e.latency.Some? then Totals(1, 1, e.latency.value) else Totals(1, 0, 0.0)
  }

  /** The latest hour in the log: the hour an entry is filed under, given clock rollbacks. */
  function MaxHour(log: seq<Entry>): int
    requires log != []
  {
    var h := HourOf(log[|log| - 1].now);
    if |log| == 1 then h
    else var m := MaxHour(log[..|log| - 1]); if m >= h then m else h
  }

  /** Totals straight off the log: an entry counts while the latest hour up to it is live. */
  function LogTotals(log: seq<Entry>, cutoff: Option<int>): Totals {
    if log == [] then Nothing()
    else LogTotals(log[..|log| - 1], cutoff)
         .Plus(if Live(MaxHour(log), cutoff) then EntryTotals(log[|log| - 1]) else Nothing())
  }

  /** What a bucket contributes while it is live. */
  function Counted(b: HourBucket, cutoff: Option<int>): Totals {
    if Live(b.hour, cutoff) then Totals(b.samples, b.successes, b.latencySum) else Nothing()
  }

  /** The fold of snapshot_at over the buckets. */
  function BucketTotals(history: seq<HourBucket>, cutoff: Option<int>): Totals {
    if history == [] then Nothing()
    else
      var b := history[|history| - 1];
      BucketTotals(history[..|history| - 1], cutoff).Plus(Counted(b, cutoff))
  }

  /** The buckets with no pruning at all. */
  function Unpruned(log: seq<Entry>): seq<HourBucket> {
    if log == [] then []
    else var e := log[|log| - 1]; Merge(Unpruned(log[..|log| - 1]), e.now, e.latency)
  }

  ghost predicate Ascending(h: seq<HourBucket>) {
    forall i, j :: 0 <= i < j < |h| ==> h[i].hour < h[j].hour
  }

  lemma {:induction false} UnprunedShape(log: seq<Entry>)
    ensures Ascending(Unpruned(log))
    ensures log != [] ==> Unpruned(log) != [] && Unpruned(log)[|Unpruned(log)| - 1].hour == MaxHour(log)
    ensures log == [] ==> Unpruned(log) == []
  {
    if log != [] {
      UnprunedShape(log[..|log| - 1]);
    }
  }

  lemma PlusAssociates(a: Totals, b: Totals, c: Totals)
    ensures a.Plus(b).Plus(c) == a.Plus(b.Plus(c))
  {
  }

  lemma BucketTotalsPush(h: seq<HourBucket>, b: HourBucket, cutoff: Option<int>)
    ensures BucketTotals(h + [b], cutoff) == BucketTotals(h, cutoff).Plus(Counted(b, cutoff))
  {
    assert (h + [b])[..|h|] == h;
  }

  /** A call counted into a bucket adds its own totals. */
  lemma CountedGrows(b: HourBucket, b': HourBucket, e: Entry, cutoff: Option<int>)
    requires b' == if e.latency.Some?
                   then b.(samples := b.samples + 1, successes := b.successes + 1,
                           latencySum := b.latencySum + e.latency.value)
                   else b.(samples := b.samples + 1)
    ensures Counted(b', cutoff)
            == Counted(b, cutoff).Plus(if Live(b'.hour, cutoff) then EntryTotals(e) else Nothing())
  {
  }

  lemma MergeTotals(h: seq<HourBucket>, e: Entry, cutoff: Option<int>)
    ensures var h' := Merge(h, e.now, e.latency);
            BucketTotals(h', cutoff)
            == BucketTotals(h, cutoff).Plus(if Live(h'[|h'| - 1].hour, cutoff) then EntryTotals(e) else Nothing())
  {
    var h' := Merge(h, e.now, e.latency);
    var b' := h'[|h'| - 1];
    if |h'| == |h| {
      var front, b := h[..|h| - 1], h[|h| - 1];
      assert h == front + [b] && h' == front + [b'];
      BucketTotalsPush(front, b, cutoff);
      BucketTotalsPush(front, b', cutoff);
      CountedGrows(b, b', e, cutoff);
      PlusAssociates(BucketTotals(front, cutoff), Counted(b, cutoff),
                     if Live(b'.hour, cutoff) then EntryTotals(e) else Nothing());
    } else {
      assert h' == h + [b'];
      BucketTotalsPush(h, b', cutoff);
    }
  }

  lemma {:induction false} UnprunedTotals(log: seq<Entry>, cutoff: Option<int>)
    ensures BucketTotals(Unpruned(log), cutoff) == LogTotals(log, cutoff)
  {
    if log != [] {
      var p, e := log[..|log| - 1], log[|log| - 1];
      UnprunedTotals(p, cutoff);
      MergeTotals(Unpruned(p), e, cutoff);
      UnprunedShape(log);
    }
  }

  /** h is u without a front part of buckets that are dead at the cutoff. */
  ghost predicate DeadFrontDropped(h: seq<HourBucket>, u: seq<HourBucket>, cutoff: Option<int>) {
    && |h| <= |u|
    && h == u[|u| - |h|..]
    && forall i :: 0 <= i < |u| - |h| ==> !Live(u[i].hour, cutoff)
  }

  lemma {:induction false} PruneDropsDeadFront(h: seq<HourBucket>, cutoff: Option<int>)
    ensures DeadFrontDropped(Prune(h, cutoff), h, cutoff)
    ensures h != [] && Live(h[|h| - 1].hour, cutoff) ==> Prune(h, cutoff) != []
  {
    if h != [] && !Live(h[0].hour, cutoff) {
      var t := h[1..];
      PruneDropsDeadFront(t, cutoff);
      var p := Prune(t, cutoff);
      forall i | 0 <= i < |h| - |p| ensures !Live(h[i].hour, cutoff) {
        if i > 0 { assert h[i] == t[i - 1]; }
      }
    }
  }

  lemma {:induction false} AllDeadTotals(d: seq<HourBucket>, cutoff: Option<int>)
    requires forall i :: 0 <= i < |d| ==> !Live(d[i].hour, cutoff)
    ensures BucketTotals(d, cutoff) == Nothing()
  {
    if d != [] {
      var p := d[..|d| - 1];
      assert forall i :: 0 <= i < |p| ==> p[i] == d[i];
      AllDeadTotals(p, cutoff);
      assert !Live(d[|d| - 1].hour, cutoff);
    }
  }

  lemma {:induction false} DeadPrefixTotals(d: seq<HourBucket>, h: seq<HourBucket>, cutoff: Option<int>)
    requires forall i :: 0 <= i < |d| ==> !Live(d[i].hour, cutoff)
    ensures BucketTotals(d + h, cutoff) == BucketTotals(h, cutoff)
  {
    if h == [] {
      assert d + h == d;
      AllDeadTotals(d, cutoff);
    } else {
      var h' := h[..|h| - 1];
      assert (d + h)[..|d + h| - 1] == d + h';
      DeadPrefixTotals(d, h', cutoff);
    }
  }

  /** Dead buckets at the front do not reach the totals. */
  lemma DeadFrontTotals(h: seq<HourBucket>, u: seq<HourBucket>, cutoff: Option<int>)
    requires DeadFrontDropped(h, u, cutoff)
    ensures BucketTotals(h, cutoff) == BucketTotals(u, cutoff)
  {
    var d := u[..|u| - |h|];
    assert u == d + h;
    DeadPrefixTotals(d, h, cutoff);
  }

  /** The newest bucket is live at the time it was written, so pruning never removes it. */
  lemma NewestIsLive(retention: Option<int>, now: int, hour: int)
    requires retention.Some? ==> DAY_MS <= retention.value <= I64_MAX
    requires I64(now) && HourOf(now) <= hour
    ensures Live(hour, Cutoff(retention, now))
  {
    assert now < now / HOUR_MS * HOUR_MS + HOUR_MS;
  }

  ghost predicate WithinClock(rs: seq<Record>, now: int) {
    forall i :: 0 <= i < |rs| ==>
      match rs[i]
      case RecordSuccess(_, t) => I64_MIN <= t <= now
      case RecordSoftFail => true
      case RecordTimeout(t) => I64_MIN <= t <= now
  }

  /** Merging after dead front buckets were dropped is merging before, as long as the newest bucket is kept. */
  lemma MergeKeepsDeadFront(h: seq<HourBucket>, u: seq<HourBucket>, cutoff: Option<int>, e: Entry)
    requires DeadFrontDropped(h, u, cutoff) && (u != [] ==> h != [])
    ensures DeadFrontDropped(Merge(h, e.now, e.latency), Merge(u, e.now, e.latency), cutoff)
  {
    var h', u' := Merge(h, e.now, e.latency), Merge(u, e.now, e.latency);
    var k := |u| - |h|;
    assert forall i :: 0 <= i < |h| ==> h[i] == u[k + i];
    assert |u'| - |h'| == k;
    forall i | 0 <= i < |h'| ensures h'[i] == u'[k + i] {
      if i < |h| - 1 { assert h'[i] == h[i] && u'[k + i] == u[k + i]; }
    }
    forall i | 0 <= i < k ensures !Live(u'[i].hour, cutoff) { assert u'[i] == u[i]; }
  }

  /** One recording: merge, then prune at that moment's cutoff. */
  lemma HistoryStep(h: seq<HourBucket>, log: seq<Entry>, e: Entry, retention: Option<int>, now: int)
    requires retention.Some? ==> DAY_MS <= retention.value <= I64_MAX
    requires I64_MIN <= e.now <= now <= I64_MAX
    requires DeadFrontDropped(h, Unpruned(log), Cutoff(retention, now)) && (log != [] ==> h != [])
    ensures var h' := Prune(Merge(h, e.now, e.latency), Cutoff(retention, e.now));
            h' != [] && DeadFrontDropped(h', Unpruned(log + [e]), Cutoff(retention, now))
  {
    var u, later, cut := Unpruned(log), Cutoff(retention, now), Cutoff(retention, e.now);
    UnprunedPush(log, e);
    assert u != [] ==> h != [] by { UnprunedShape(log); }
    MergeKeepsDeadFront(h, u, later, e);
    var h' := Merge(h, e.now, e.latency);
    PruneDropsDeadFront(h', cut);
    assert Live(h'[|h'| - 1].hour, cut) by {
      MergeNewest(h, e);
      NewestIsLive(retention, e.now, h'[|h'| - 1].hour);
    }
    CutoffMonotone(retention, e.now, now);
    DroppingMore(Prune(h', cut), h', Merge(u, e.now, e.latency), cut, later);
  }

  lemma MergeNewest(h: seq<HourBucket>, e: Entry)
    ensures var h' := Merge(h, e.now, e.latency); h'[|h'| - 1].hour >= HourOf(e.now)
  {
  }

  lemma CutoffMonotone(retention: Option<int>, a: int, b: int)
    requires a <= b
    ensures Cutoff(retention, a).None? <==> Cutoff(retention, b).None?
    ensures retention.Some? ==> Cutoff(retention, a).value <= Cutoff(retention, b).value
  {
  }

  lemma UnprunedPush(log: seq<Entry>, e: Entry)
    ensures Unpruned(log + [e]) == Merge(Unpruned(log), e.now, e.latency)
  {
    assert (log + [e])[..|log|] == log;
  }

  /** The history at every moment: the unpruned buckets minus dead ones, newest kept. */
  lemma {:induction false} HistoryIsUnprunedTail(s: Model, rs: seq<Record>, now: int)
    requires Sane(s) && s.history == [] && I64(now) && WithinClock(rs, now)
    ensures var s', log := Replay(s, rs), DashboardLog(rs);
            && DeadFrontDropped(s'.history, Unpruned(log), Cutoff(s.retention, now))
            && (log != [] ==> s'.history != [])
            && s'.retention == s.retention && s'.window == s.window
  {
    if rs != [] {
      var p, r := rs[..|rs| - 1], rs[|rs| - 1];
      HistoryIsUnprunedTail(s, p, now);
      if !r.RecordSoftFail? {
        var e := if r.RecordSuccess? then Entry(r.now, Some(r.latency)) else Entry(r.now, None);
        HistoryStep(Replay(s, p).history, DashboardLog(p), e, s.retention, now);
      }
    }
  }

  lemma DroppingMore(p: seq<HourBucket>, h: seq<HourBucket>, u: seq<HourBucket>, cut: Option<int>, later: Option<int>)
    requires DeadFrontDropped(p, h, cut) && DeadFrontDropped(h, u, later)
    requires cut.None? <==> later.None?
    requires cut.Some? ==> cut.value <= later.value
    ensures DeadFrontDropped(p, u, later)
  {
    var k := |u| - |h|;
    forall i | 0 <= i < |u| - |p| ensures !Live(u[i].hour, later) {
      if i >= k { assert u[i] == h[i - k]; }
    }
  }

  lemma {:induction false} MaxHourBounds(log: seq<Entry>)
    requires log != []
    ensures forall i :: 0 <= i < |log| ==> HourOf(log[i].now) <= MaxHour(log)
    ensures exists i :: 0 <= i < |log| && HourOf(log[i].now) == MaxHour(log)
    ensures I64(MaxHour(log))
  {
    if |log| > 1 { MaxHourBounds(log[..|log| - 1]); }
  }

  /** After any recordings, even with the clock going back: hours strictly increase, and the last bucket carries
      the latest hour ever recorded: no recorded hour is later, and some recorded hour is that one. */
  lemma HistoryShape(window: nat, retentionDays: nat, rs: seq<Record>, now: int)
    requires I64(now) && WithinClock(rs, now)
    ensures var h, log := Replay(WithRetention(window, retentionDays), rs).history, DashboardLog(rs);
            && Ascending(h)
            && (log == [] <==> h == [])
            && (log != [] ==>
                  && h[|h| - 1].hour == MaxHour(log)
                  && (forall i :: 0 <= i < |log| ==> HourOf(log[i].now) <= h[|h| - 1].hour)
                  && (exists i :: 0 <= i < |log| && HourOf(log[i].now) == h[|h| - 1].hour))
  {
    var s, log := WithRetention(window, retentionDays), DashboardLog(rs);
    HistoryIsUnprunedTail(s, rs, now);
    UnprunedShape(log);
    if log != [] { MaxHourBounds(log); }
  }

  predicate InHour(t: int, hour: int) { hour <= t < hour + HOUR_MS }

  /** Away from the ends of i64, a bucket counts while some instant of its hour is within the period. */
  lemma LiveIffOverlaps(hour: int, retention: int, now: int)
    requires 0 < retention && I64_MIN <= now - retention && now <= I64_MAX
    requires I64_MIN <= hour && hour + HOUR_MS <= I64_MAX
    ensures Live(hour, Cutoff(Some(retention), now)) <==> exists t :: InHour(t, hour) && now - t <= retention
  {
    if Live(hour, Cutoff(Some(retention), now)) {
      var t := hour + HOUR_MS - 1;
      assert InHour(t, hour) && now - t <= retention;
    }
  }

  datatype Snapshot = Snapshot(samples: nat, successes: nat, failureRate: real, avgLatency: Option<real>)

  function SnapshotOf(t: Totals): Snapshot {
    Snapshot(t.samples, t.successes,
             if t.samples == 0 then 0.0 else (t.samples - t.successes) as real / t.samples as real,
             if t.successes > 0 then Some(t.latency / t.successes as real) else None)
  }

  function SnapshotAt(s: Model, now: int): Snapshot {
    SnapshotOf(BucketTotals(s.history, Cutoff(s.retention, now)))
  }

  /** Pruning is invisible: the dashboard shows what a fold over the whole log would. */
  lemma SnapshotEqualsLog(window: nat, retentionDays: nat, rs: seq<Record>, now: int)
    requires I64(now) && WithinClock(rs, now)
    ensures var s := WithRetention(window, retentionDays);
            SnapshotAt(Replay(s, rs), now) == SnapshotOf(LogTotals(DashboardLog(rs), Cutoff(s.retention, now)))
  {
    var s := WithRetention(window, retentionDays);
    HistoryIsUnprunedTail(s, rs, now);
    DeadFrontTotals(Replay(s, rs).history, Unpruned(DashboardLog(rs)), Cutoff(s.retention, now));
    UnprunedTotals(DashboardLog(rs), Cutoff(s.retention, now));
  }

  function IsSuccess(r: Record): int { if r.RecordSuccess? then 1 else 0 }
  function IsTimeout(r: Record): int { if r.RecordTimeout? then 1 else 0 }

  /** Dashboard samples are the successes plus the timeouts; soft failures never show. */
  lemma {:induction false} DashboardCounts(rs: seq<Record>)
    ensures LogTotals(DashboardLog(rs), None).samples == Sum(rs, IsSuccess) + Sum(rs, IsTimeout)
    ensures LogTotals(DashboardLog(rs), None).successes == Sum(rs, IsSuccess)
  {
    if rs != [] {
      var p := rs[..|rs| - 1];
      DashboardCounts(p);
      var rest, log := DashboardLog(p), DashboardLog(rs);
      if log != rest {
        assert log[..|log| - 1] == rest;
      }
    }
  }

  // The selection weight

  function Failures(samples: seq<Sample>): (n: nat)
    ensures n <= |samples|
  {
    if samples == [] then 0
    else Failures(samples[..|samples| - 1]) + (if samples[|samples| - 1].Failure? then 1 else 0)
  }

  function LatencySum(samples: seq<Sample>): real {
    if samples == [] then 0.0
    else LatencySum(samples[..|samples| - 1])
         + (if samples[|samples| - 1].Success? then samples[|samples| - 1].latency else 0.0)
  }

  function FailureRate(samples: seq<Sample>): real {
    if samples == [] then 0.0 else Failures(samples) as real / |samples| as real
  }

  function AvgLatency(samples: seq<Sample>): real {
    var n := |samples| - Failures(samples);
    if n == 0 then 100.0 else LatencySum(samples) / n as real
  }

  function WeightOf(s: Model, k: real): real
    requires NonNegativeLatencies(s.samples)
  {
    RatesNonNegative(s.samples);
    WeightFrom(AvgLatency(s.samples), if k < 0.0 then 0.0 else k, FailureRate(s.samples))
  }

  function WeightFrom(latency: real, k: real, rate: real): real
    requires latency >= 0.0 && k >= 0.0 && rate >= 0.0
  {
    WeightDenominator(latency, k, rate);
    1.0 / ((latency + 1.0) * (1.0 + k * rate))
  }

  predicate NonNegativeLatencies(samples: seq<Sample>) {
    forall i :: 0 <= i < |samples| && samples[i].Success? ==> samples[i].latency >= 0.0
  }

  lemma {:induction false} LatencySumNonNegative(samples: seq<Sample>)
    requires NonNegativeLatencies(samples)
    ensures LatencySum(samples) >= 0.0
  {
    if samples != [] {
      var p := samples[..|samples| - 1];
      assert forall i :: 0 <= i < |p| ==> p[i] == samples[i];
      LatencySumNonNegative(p);
    }
  }

  lemma RatesNonNegative(samples: seq<Sample>)
    requires NonNegativeLatencies(samples)
    ensures FailureRate(samples) >= 0.0 && AvgLatency(samples) >= 0.0
  {
    LatencySumNonNegative(samples);
    if samples != [] { Quotient(Failures(samples) as real, |samples| as real); }
    var n := |samples| - Failures(samples);
    if n != 0 { Quotient(LatencySum(samples), n as real); }
  }

  lemma WeightDenominator(latency: real, k: real, rate: real)
    requires latency >= 0.0 && k >= 0.0 && rate >= 0.0
    ensures (latency + 1.0) * (1.0 + k * rate) >= 1.0
  {
    MulNonNegative(k, rate);
    ProductAtLeastOne(latency + 1.0, 1.0 + k * rate);
  }

  lemma ProductAtLeastOne(x: real, y: real)
    requires x >= 1.0 && y >= 1.0
    ensures x * y >= 1.0
  {
    assert (x - 1.0) * (y - 1.0) >= 0.0;
  }

  lemma WeightBounds(s: Model, k: real)
    requires NonNegativeLatencies(s.samples)
    ensures 0.0 < WeightOf(s, k) <= 1.0
  {
    var k' := if k < 0.0 then 0.0 else k;
    RatesNonNegative(s.samples);
    var a, f := AvgLatency(s.samples), FailureRate(s.samples);
    WeightDenominator(a, k', f);
    InverseBound((a + 1.0) * (1.0 + k' * f));
  }

  /** Every reachable weight lies in (0, 1], so a healthy group always has a positive total. */
  lemma WeightInUnitInterval(window: nat, retentionDays: nat, rs: seq<Record>, k: real)
    requires Durations(rs)
    ensures NonNegativeLatencies(Replay(WithRetention(window, retentionDays), rs).samples)
    ensures 0.0 < WeightOf(Replay(WithRetention(window, retentionDays), rs), k) <= 1.0
  {
    ReplayNonNegative(window, retentionDays, rs);
    WeightBounds(Replay(WithRetention(window, retentionDays), rs), k);
  }

  lemma InverseBound(d: real)
    requires d >= 1.0
    ensures 0.0 < 1.0 / d <= 1.0
  {
    var q := 1.0 / d;
    assert q * d == 1.0;
    assert (1.0 - q) * d == d - 1.0;
  }

  /** Recorded latencies are durations. */
  ghost predicate Durations(rs: seq<Record>) {
    forall i :: 0 <= i < |rs| && rs[i].RecordSuccess? ==> rs[i].latency >= 0.0
  }

  /** So every latency in a window is non-negative. */
  lemma ReplayNonNegative(window: nat, retentionDays: nat, rs: seq<Record>)
    requires Durations(rs)
    ensures NonNegativeLatencies(Replay(WithRetention(window, retentionDays), rs).samples)
  {
    WindowIsLastSamples(window, retentionDays, rs);
    var s := Replay(WithRetention(window, retentionDays), rs);
    LastNonNegative(rs, s.window);
  }

  lemma LastNonNegative(rs: seq<Record>, n: nat)
    requires Durations(rs)
    ensures NonNegativeLatencies(LastN(Samples(rs), n))
  {
    var all := Samples(rs);
    forall i | 0 <= i < |all| ensures all[i].Success? ==> all[i].latency >= 0.0 {
      assert all[i] == SampleOf(rs[i]);
    }
  }

  // Soft failures and the weight

  lemma FailuresPush(samples: seq<Sample>, x: Sample)
    ensures Failures(samples + [x]) == Failures(samples) + (if x.Failure? then 1 else 0)
    ensures LatencySum(samples + [x]) == LatencySum(samples) + (if x.Success? then x.latency else 0.0)
  {
    assert (samples + [x])[..|samples|] == samples;
  }

  lemma RateGrows(f: nat, n: nat)
    requires f <= n && n > 0
    ensures f as real / n as real <= (f + 1) as real / (n + 1) as real
  {
    var a, b, x, y := f as real, n as real, f as real / n as real, (f + 1) as real / (n + 1) as real;
    assert x * b == a && y * (b + 1.0) == a + 1.0;
    assert x <= 1.0 by { RatioAtMostOne(a, b, x); }
    assert (y - x) * (b + 1.0) == 1.0 - x;
    FactorNonNegative(y - x, b + 1.0);
  }

  lemma RatioAtMostOne(a: real, b: real, x: real)
    requires 0.0 <= a <= b && b > 0.0 && x * b == a
    ensures x <= 1.0
  {
    assert (1.0 - x) * b == b - a;
    FactorNonNegative(1.0 - x, b);
  }

  lemma InverseShrinks(d: real, e: real)
    requires 1.0 <= d <= e
    ensures 1.0 / e <= 1.0 / d
  {
    var p, q := 1.0 / d, 1.0 / e;
    assert p * d == 1.0 && q * e == 1.0;
    assert q > 0.0 by { InverseBound(e); }
    assert (p - q) * d == q * (e - d);
    assert q * (e - d) >= 0.0 by { MulNonNegative(q, e - d); }
    FactorNonNegative(p - q, d);
  }

  lemma {:induction false} FailuresFront(x: Sample, rest: seq<Sample>)
    ensures Failures([x] + rest) == Failures(rest) + (if x.Failure? then 1 else 0)
    ensures LatencySum([x] + rest) == LatencySum(rest) + (if x.Success? then x.latency else 0.0)
  {
    if rest == [] {
      assert [x] + rest == [] + [x];
      FailuresPush([], x);
    } else {
      var p := rest[..|rest| - 1];
      assert ([x] + rest)[..|rest|] == [x] + p;
      FailuresFront(x, p);
    }
  }

  /** No success leaves the window: it has room, or its oldest sample is a failure. */
  predicate KeepsSuccesses(s: Model) {
    |s.samples| < s.window || (|s.samples| == s.window && s.samples != [] && s.samples[0].Failure?)
  }

  lemma SoftFailPushes(s: Model)
    requires NonNegativeLatencies(s.samples) && KeepsSuccesses(s)
    ensures var after := Apply(s, RecordSoftFail).samples;
            && NonNegativeLatencies(after) && AvgLatency(after) == AvgLatency(s.samples)
            && FailureRate(s.samples) <= FailureRate(after)
  {
    if |s.samples| < s.window {
      assert Apply(s, RecordSoftFail).samples == s.samples + [Failure];
      FailureAdded(s.samples);
    } else {
      var rest := s.samples[1..];
      assert Apply(s, RecordSoftFail).samples == rest + [Failure] && s.samples == [Failure] + rest;
      FailureMoved(rest);
    }
  }

  lemma {:induction false} FailureAdded(samples: seq<Sample>)
    ensures AvgLatency(samples + [Failure]) == AvgLatency(samples)
    ensures FailureRate(samples) <= FailureRate(samples + [Failure])
  {
    FailuresPush(samples, Failure);
    var f, n := Failures(samples), |samples|;
    if n > 0 { RateGrows(f, n); } else { assert FailureRate(samples + [Failure]) == 1.0; }
  }

  lemma {:induction false} FailureMoved(rest: seq<Sample>)
    ensures AvgLatency(rest + [Failure]) == AvgLatency([Failure] + rest)
    ensures FailureRate(rest + [Failure]) == FailureRate([Failure] + rest)
  {
    FailuresPush(rest, Failure);
    FailuresFront(Failure, rest);
  }

  /** A soft failure never raises the weight as long as it pushes no success out of the window. */
  lemma SoftFailNeverRaises(s: Model, k: real)
    requires NonNegativeLatencies(s.samples) && KeepsSuccesses(s)
    ensures NonNegativeLatencies(Apply(s, RecordSoftFail).samples)
    ensures WeightOf(Apply(s, RecordSoftFail), k) <= WeightOf(s, k)
  {
    var k' := if k < 0.0 then 0.0 else k;
    SoftFailPushes(s);
    RatesNonNegative(s.samples);
    WeightShrinks(AvgLatency(s.samples), k', FailureRate(s.samples), FailureRate(Apply(s, RecordSoftFail).samples));
  }

  lemma WeightShrinks(latency: real, k: real, f: real, f': real)
    requires latency >= 0.0 && k >= 0.0 && 0.0 <= f <= f'
    ensures WeightFrom(latency, k, f') <= WeightFrom(latency, k, f)
  {
    var x := latency + 1.0;
    WeightDenominator(latency, k, f);
    DenominatorGrows(x, k, f, f');
    InverseShrinks(x * (1.0 + k * f), x * (1.0 + k * f'));
  }

  lemma DenominatorGrows(x: real, k: real, f: real, f': real)
    requires x >= 1.0 && k >= 0.0 && f <= f'
    ensures x * (1.0 + k * f) <= x * (1.0 + k * f')
  {
    MulNonNegative(k, f' - f);
    MulNonNegative(x, k * (f' - f));
    assert x * (1.0 + k * f') - x * (1.0 + k * f) == x * (k * (f' - f));
  }

  lemma TwoSamples(x: Sample, y: Sample)
    ensures Failures([x, y]) == (if x.Failure? then 1 else 0) + (if y.Failure? then 1 else 0)
    ensures LatencySum([x, y]) == (if x.Success? then x.latency else 0.0) + (if y.Success? then y.latency else 0.0)
  {
    assert [x, y] == [] + [x] + [y];
    FailuresPush([], x);
    FailuresPush([] + [x], y);
  }

  lemma LatencyOnly(s: Model, s': Model)
    requires NonNegativeLatencies(s.samples) && NonNegativeLatencies(s'.samples)
    requires AvgLatency(s'.samples) < AvgLatency(s.samples)
    ensures WeightOf(s', 0.0) > WeightOf(s, 0.0)
  {
    var a, b := AvgLatency(s.samples) + 1.0, AvgLatency(s'.samples) + 1.0;
    RatesNonNegative(s'.samples);
    assert WeightOf(s, 0.0) == 1.0 / a && WeightOf(s', 0.0) == 1.0 / b;
    assert 1.0 / a < 1.0 / b by {
      Quotient(1.0, a);
      Quotient(1.0, b);
      InverseShrinks(b, a);
    }
  }

  /** Otherwise it can: the sample pushed out may be a slow success. Two recordings lead there. */
  lemma SoftFailCanRaise()
    ensures var s := Replay(WithRetention(2, 0), [RecordSuccess(1000.0, 0), RecordSuccess(10.0, 0)]);
            && s.samples == [Success(1000.0), Success(10.0)]
            && Apply(s, RecordSoftFail).samples == [Success(10.0), Failure]
            && WeightOf(Apply(s, RecordSoftFail), 0.0) > WeightOf(s, 0.0)
  {
    var rs := [RecordSuccess(1000.0, 0), RecordSuccess(10.0, 0)];
    var s := Replay(WithRetention(2, 0), rs);
    WindowIsLastSamples(2, 0, rs);
    assert s.samples == [Success(1000.0), Success(10.0)];
    assert Apply(s, RecordSoftFail).samples == [Success(10.0), Failure];
    TwoSamples(Success(1000.0), Success(10.0));
    TwoSamples(Success(10.0), Failure);
    LatencyOnly(s, Apply(s, RecordSoftFail));
  }
}
