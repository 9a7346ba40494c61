/** The query-history tables and the trend read from them: src/dashboard/store.rs. */
module Store {
  import opened Multiples
  import opened Prelude
  import opened Units

  const MAX_TREND_BUCKETS: int := 10_000

  datatype Event = Event(timestamp: int, blocked: bool, cacheHit: bool)

  datatype Counts = Counts(total: nat, blocked: nat, hits: nat) {
    function Plus(c: Counts): Counts { Counts(total + c.total, blocked + c.blocked, hits + c.hits) }
  }

  function Zero(): Counts { Counts(0, 0, 0) }

  type Table = map<int, Counts>

  datatype Tables = Tables(logs: seq<Event>, hourly: Table, daily: Table)

  datatype Result<+T> = Ok(value: T) | Err

  /** The instants the date library can represent; anything else makes an insert or a trend fail. */
  datatype Calendar = Calendar(earliest: int, latest: int) {
    predicate Represents(t: int) { earliest <= t <= latest }

    /** Well inside i64, as 262,000 years of milliseconds are. */
    predicate Fits() { -10_000_000_000_000_000 <= earliest <= latest <= 10_000_000_000_000_000 }
  }

  /** Integer results outside i64 are reported as errors by the checked operations. */
  function Checked(x: int): Result<int> {
    if I64_MIN <= x <= I64_MAX then Ok(x) else Err
  }

  /** div_euclid, then multiply. */
  function Floor(t: int, interval: int): int
    requires interval > 0
  {
    t / interval * interval
  }

  /** The two bucketings: where an instant falls, and how long a bucket lasts. */
  function HourBucket(t: int): int { Floor(t, HOUR_MS) }

  function DayBucket(t: int): int { Floor(t, DAY_MS) }

  function BucketOf(hourly: bool): int -> int { if hourly then HourBucket else DayBucket }

  function Span(hourly: bool): int { if hourly then HOUR_MS else DAY_MS }

  // Inserting

  function One(e: Event): Counts {
    Counts(1, if e.blocked then 1 else 0, if e.cacheHit then 1 else 0)
  }

  /** INSERT ... ON CONFLICT DO UPDATE on one bucket. */
  function Bump(t: Table, bucket: int, e: Event): Table {
    t[bucket := CountsAt(t, bucket).Plus(One(e))]
  }

  /** One aggregate table after a batch of events. */
  function Fill(t: Table, events: seq<Event>, bucket: int -> int): Table {
    if events == [] then t
    else
      var e := events[|events| - 1];
      Bump(Fill(t, events[..|events| - 1], bucket), bucket(e.timestamp), e)
  }

  function InsertAll(s: Tables, events: seq<Event>): Tables {
    Tables(s.logs + events, Fill(s.hourly, events, HourBucket), Fill(s.daily, events, DayBucket))
  }

  predicate AllRepresentable(cal: Calendar, events: seq<Event>) {
    forall i :: 0 <= i < |events| ==> cal.Represents(events[i].timestamp)
  }

  // Cleaning up

  function CleanupCutoff(retentionDays: nat, now: int): Result<int> {
    if retentionDays * DAY_MS > I64_MAX then Err else Checked(now - retentionDays * DAY_MS)
  }

  function KeepLogs(logs: seq<Event>, cutoff: int): seq<Event> {
    if logs == [] then []
    else
      var last := logs[|logs| - 1];
      KeepLogs(logs[..|logs| - 1], cutoff) + if last.timestamp < cutoff then [] else [last]
  }

  /** DELETE of the buckets that end at or before the cutoff. */
  function Prune(t: Table, interval: int, cutoff: int): Table {
    map b | b in t && b + interval > cutoff :: t[b]
  }

  function Cleaned(s: Tables, cutoff: int): Tables {
    Tables(KeepLogs(s.logs, cutoff), Prune(s.hourly, HOUR_MS, cutoff), Prune(s.daily, DAY_MS, cutoff))
  }

  function Cleanup(s: Tables, retentionDays: nat, now: int): Tables {
    var cutoff := CleanupCutoff(retentionDays, now);
    if retentionDays == 0 || cutoff.Err? then s else Cleaned(s, cutoff.value)
  }

  // Reading the trend

  datatype Bucket = Bucket(at: int, counts: Counts)

  datatype Window = Window(hourly: bool, interval: int, start: int, end: int) {
    function Size(): int
      requires interval > 0
    {
      (end - start) / interval + 1
    }
  }

  /** The bucketing, the first and the last bucket; an error when some step leaves i64. */
  function WindowOf(retentionDays: nat, now: int): (w: Result<Window>)
    ensures w.Ok? ==> w.value.interval == if w.value.hourly then HOUR_MS else DAY_MS
  {
    var interval := if 1 <= retentionDays <= 15 then HOUR_MS else DAY_MS;
    var end := Checked(Floor(now, interval));
    if end.Err? then Err
    else if retentionDays == 0 then
      var start := Checked(end.value - 29 * DAY_MS);
      if start.Err? then Err else Ok(Window(false, interval, start.value, end.value))
    else if retentionDays > I64_MAX || retentionDays * DAY_MS > I64_MAX then Err
    else
      var from := Checked(now - retentionDays * DAY_MS);
      if from.Err? then Err
      else
        var start := Checked(Floor(from.value, interval));
        if start.Err? || Checked(end.value - start.value).Err? then Err
        else Ok(Window(interval == HOUR_MS, interval, start.value, end.value))
  }

  /** The rows of a table under the given keys, ORDER BY bucket_ms. */
  ghost predicate Ordered(t: Table, keys: set<int>, rows: seq<Bucket>) {
    && (forall i :: 0 <= i < |rows| ==> rows[i].at in keys && rows[i].at in t && rows[i].counts == t[rows[i].at])
    && (forall k :: k in keys ==> k in t && Bucket(k, t[k]) in rows)
    && (forall i, j :: 0 <= i < j < |rows| ==> rows[i].at < rows[j].at)
  }

  lemma OrderedCons(t: Table, keys: set<int>, k: int, rest: seq<Bucket>)
    requires k in keys && k in t && (forall j :: j in keys ==> k <= j) && Ordered(t, keys - {k}, rest)
    ensures Ordered(t, keys, [Bucket(k, t[k])] + rest)
  {
    var rows := [Bucket(k, t[k])] + rest;
    forall j | j in keys ensures j in t && Bucket(j, t[j]) in rows {
      if j != k { assert j in keys - {k}; }
    }
  }

  /** Such a row sequence always exists. */
  lemma {:induction false} OrderedRows(t: Table, keys: set<int>) returns (rows: seq<Bucket>)
    requires keys <= t.Keys
    ensures Ordered(t, keys, rows)
    decreases |keys|
  {
    if |keys| == 0 {
      rows := [];
    } else {
      var k := SmallestKey(keys);
      var rest := OrderedRows(t, keys - {k});
      OrderedCons(t, keys, k, rest);
      rows := [Bucket(k, t[k])] + rest;
    }
  }

  function Selected(t: Table, start: int, end: int): set<int> {
    set b | b in t && start <= b <= end
  }

  function CountsAt(t: Table, b: int): Counts {
    if b in t then t[b] else Zero()
  }

  ghost predicate Aligned(t: Table, interval: int)
    requires interval > 0
  {
    forall b :: b in t ==> b % interval == 0
  }

  /** Where the walk stands: the rows before `at` are the first `next` ones. */
  ghost predicate Due(rows: seq<Bucket>, next: int, at: int) {
    0 <= next <= |rows| && forall i :: 0 <= i < |rows| ==> (rows[i].at < at <==> i < next)
  }

  lemma FirstDue(rows: seq<Bucket>, next: nat, at: int, i: nat)
    requires Due(rows, next, at) && i < |rows| && rows[i].at == at
    requires forall a, b :: 0 <= a < b < |rows| ==> rows[a].at < rows[b].at
    ensures next == i
  {
    assert next <= i;
    assert rows[next].at >= at;
  }

  /** At an aligned instant the next row is that instant's row, if it has one; after it the walk
      stands at the following instant. */
  lemma RowDue(t: Table, w: Window, rows: seq<Bucket>, next: nat, at: int)
    requires w.interval > 0 && Aligned(t, w.interval) && at % w.interval == 0 && w.start <= at <= w.end
    requires Ordered(t, Selected(t, w.start, w.end), rows) && Due(rows, next, at)
    ensures at in t <==> next < |rows| && rows[next].at == at
    ensures Due(rows, if at in t then next + 1 else next, at + w.interval)
  {
    if at in t {
      assert at in Selected(t, w.start, w.end);
      assert Bucket(at, t[at]) in rows;
      var i :| 0 <= i < |rows| && rows[i].at == at;
      FirstDue(rows, next, at, i);
    }
    forall i | 0 <= i < |rows| && rows[i].at > at ensures rows[i].at >= at + w.interval {
      AlignedGap(at, rows[i].at, w.interval);
    }
  }

  lemma AllTaken(t: Table, w: Window, rows: seq<Bucket>, next: int, at: int)
    requires Ordered(t, Selected(t, w.start, w.end), rows) && Due(rows, next, at) && at > w.end
    ensures next == |rows|
  {
    if rows != [] { assert rows[|rows| - 1].at in Selected(t, w.start, w.end); }
  }

  lemma InstantWithin(w: Window, index: nat)
    requires w.interval > 0 && w.start <= w.end && w.start % w.interval == 0 && index < w.Size()
    ensures w.start <= w.start + index * w.interval <= w.end
    ensures (w.start + index * w.interval) % w.interval == 0
  {
    var q := (w.end - w.start) / w.interval;
    MulMonotone(index, q, w.interval);
    MulMonotone(0, index, w.interval);
    ShiftAligned(w.start, index, w.interval);
  }

  function Instant(w: Window, index: int): int { w.start + index * w.interval }

  lemma NextInstant(w: Window, index: int)
    ensures Instant(w, index + 1) == Instant(w, index) + w.interval
  {
    MulDistributes(index, 1, w.interval);
  }

  lemma RowDueAt(t: Table, w: Window, rows: seq<Bucket>, next: nat, index: nat)
    requires w.interval > 0 && w.start <= w.end && w.start % w.interval == 0 && index < w.Size()
    requires Aligned(t, w.interval) && Ordered(t, Selected(t, w.start, w.end), rows)
    requires Due(rows, next, Instant(w, index))
    ensures var at := Instant(w, index);
            && (at in t <==> next < |rows| && rows[next].at == at)
            && (at in t ==> rows[next].counts == t[at])
            && Due(rows, if at in t then next + 1 else next, Instant(w, index + 1))
  {
    InstantWithin(w, index);
    RowDue(t, w, rows, next, Instant(w, index));
    NextInstant(w, index);
  }

  /** The first n buckets of a trend, independently of how they are read. */
  function TrendBuckets(t: Table, w: Window, n: nat): (r: seq<Bucket>)
    ensures |r| == n
  {
    if n == 0 then [] else TrendBuckets(t, w, n - 1) + [Bucket(Instant(w, n - 1), CountsAt(t, Instant(w, n - 1)))]
  }

  lemma {:induction false} TrendBucketAt(t: Table, w: Window, n: nat, k: nat)
    requires k < n
    ensures TrendBuckets(t, w, n)[k] == Bucket(Instant(w, k), CountsAt(t, Instant(w, k)))
  {
    if k < n - 1 { TrendBucketAt(t, w, n - 1, k); }
  }

  /** The peek-merge: walk the aligned instants, taking the next stored row when it is due and a zero
      otherwise. `left` are the rows never taken: none. */
  method MergeRows(ghost t: Table, rows: seq<Bucket>, w: Window) returns (buckets: seq<Bucket>, left: seq<Bucket>)
    requires w.interval > 0 && w.start <= w.end && w.start % w.interval == 0
    requires Aligned(t, w.interval) && Ordered(t, Selected(t, w.start, w.end), rows)
    ensures buckets == TrendBuckets(t, w, w.Size()) && left == []
  {
    var next := 0;
    var count := w.Size();
    buckets := [];
    for index := 0 to count
      invariant Due(rows, next, Instant(w, index))
      invariant buckets == TrendBuckets(t, w, index)
    {
      RowDueAt(t, w, rows, next, index);
      if next < |rows| && rows[next].at == Instant(w, index) {
        buckets := buckets + [rows[next]];
        next := next + 1;
      } else {
        buckets := buckets + [Bucket(Instant(w, index), Zero())];
      }
    }
    PastTheEnd(w);
    AllTaken(t, w, rows, next, Instant(w, count));
    left := rows[next..];
  }

  lemma PastTheEnd(w: Window)
    requires w.interval > 0
    ensures Instant(w, w.Size()) > w.end
  {
    MulDistributes((w.end - w.start) / w.interval, 1, w.interval);
  }

  // The store as an object, and whole runs

  /** What trend returns, given the tables. */
  function Trend(cal: Calendar, s: Tables, retentionDays: nat, now: int): Result<seq<Bucket>> {
    var w := WindowOf(retentionDays, now);
    if !cal.Represents(now) || w.Err? || w.value.end < w.value.start || w.value.Size() > MAX_TREND_BUCKETS then Err
    else Ok(TrendBuckets(if w.value.hourly then s.hourly else s.daily, w.value, w.value.Size()))
  }

  datatype Op = Insert(events: seq<Event>) | Clean(now: int)

  function Apply(cal: Calendar, s: Tables, retentionDays: nat, op: Op): Tables {
    match op
    case Insert(events) => if AllRepresentable(cal, events) then InsertAll(s, events) else s
    case Clean(now) => Cleanup(s, retentionDays, now)
  }

  function After(cal: Calendar, retentionDays: nat, ops: seq<Op>): Tables {
    if ops == [] then Tables([], map[], map[])
    else Apply(cal, After(cal, retentionDays, ops[..|ops| - 1]), retentionDays, ops[|ops| - 1])
  }

  /** Every event a successful insert ever stored. */
  function Ever(cal: Calendar, ops: seq<Op>): seq<Event> {
    if ops == [] then []
    else
      var op := ops[|ops| - 1];
      Ever(cal, ops[..|ops| - 1])
      + if op.Insert? && AllRepresentable(cal, op.events) then op.events else []
  }

  /** The counts of the events that fall into bucket b. */
  function Tally(events: seq<Event>, bucket: int -> int, b: int): Counts {
    if events == [] then Zero()
    else
      var e := events[|events| - 1];
      Tally(events[..|events| - 1], bucket, b).Plus(if bucket(e.timestamp) == b then One(e) else Zero())
  }

  /** The table agrees with the events on every bucket that outlives the cutoff. */
  ghost predicate Agrees(t: Table, events: seq<Event>, bucket: int -> int, span: int, cutoff: int) {
    forall b :: b + span > cutoff ==> CountsAt(t, b) == Tally(events, bucket, b)
  }

  ghost predicate BothAgree(s: Tables, events: seq<Event>, cutoff: int) {
    && Agrees(s.hourly, events, HourBucket, HOUR_MS, cutoff)
    && Agrees(s.daily, events, DayBucket, DAY_MS, cutoff)
  }

  lemma TallyPush(events: seq<Event>, e: Event, bucket: int -> int, b: int)
    ensures Tally(events + [e], bucket, b)
            == Tally(events, bucket, b).Plus(if bucket(e.timestamp) == b then One(e) else Zero())
  {
    assert (events + [e])[..|events|] == events;
  }

  lemma BumpAgrees(t: Table, events: seq<Event>, e: Event, bucket: int -> int, span: int, cutoff: int)
    requires Agrees(t, events, bucket, span, cutoff)
    ensures Agrees(Bump(t, bucket(e.timestamp), e), events + [e], bucket, span, cutoff)
  {
    var f := bucket(e.timestamp);
    forall b | b + span > cutoff ensures CountsAt(Bump(t, f, e), b) == Tally(events + [e], bucket, b) {
      TallyPush(events, e, bucket, b);
      BumpCounts(t, f, e, b);
    }
  }

  lemma BumpCounts(t: Table, f: int, e: Event, b: int)
    ensures CountsAt(Bump(t, f, e), b) == CountsAt(t, b).Plus(if f == b then One(e) else Zero())
  {
  }

  lemma PruneAgrees(t: Table, events: seq<Event>, bucket: int -> int, span: int, cut: int, cutoff: int)
    requires Agrees(t, events, bucket, span, cutoff) && cut <= cutoff
    ensures Agrees(Prune(t, span, cut), events, bucket, span, cutoff)
  {
  }

  lemma {:induction false} FillAgrees(t: Table, before: seq<Event>, events: seq<Event>, bucket: int -> int, span: int,
                                      cutoff: int)
    requires Agrees(t, before, bucket, span, cutoff)
    ensures Agrees(Fill(t, events, bucket), before + events, bucket, span, cutoff)
  {
    if events == [] {
      assert before + events == before;
    } else {
      var p, e := events[..|events| - 1], events[|events| - 1];
      FillAgrees(t, before, p, bucket, span, cutoff);
      BumpAgrees(Fill(t, p, bucket), before + p, e, bucket, span, cutoff);
      assert before + events == before + p + [e];
    }
  }

  lemma FillPush(t: Table, events: seq<Event>, e: Event, bucket: int -> int)
    ensures Fill(t, events + [e], bucket) == Bump(Fill(t, events, bucket), bucket(e.timestamp), e)
  {
    assert (events + [e])[..|events|] == events;
  }

  ghost predicate CleanedBefore(ops: seq<Op>, now: int) {
    forall i :: 0 <= i < |ops| && ops[i].Clean? ==> ops[i].now <= now
  }

  lemma {:induction false} RunAgrees(cal: Calendar, retentionDays: nat, ops: seq<Op>, now: int, cutoff: int)
    requires CleanedBefore(ops, now) && (retentionDays > 0 ==> cutoff >= now - retentionDays * DAY_MS)
    ensures BothAgree(After(cal, retentionDays, ops), Ever(cal, ops), cutoff)
  {
    if ops != [] {
      var p, op := ops[..|ops| - 1], ops[|ops| - 1];
      RunAgrees(cal, retentionDays, p, now, cutoff);
      var s, events := After(cal, retentionDays, p), Ever(cal, p);
      match op
      case Insert(added) =>
        if AllRepresentable(cal, added) {
          FillAgrees(s.hourly, events, added, HourBucket, HOUR_MS, cutoff);
          FillAgrees(s.daily, events, added, DayBucket, DAY_MS, cutoff);
        } else {
          assert events + [] == events;
        }
      case Clean(at) =>
        assert events + [] == events;
        var cut := CleanupCutoff(retentionDays, at);
        if retentionDays > 0 && cut.Ok? {
          PruneAgrees(s.hourly, events, HourBucket, HOUR_MS, cut.value, cutoff);
          PruneAgrees(s.daily, events, DayBucket, DAY_MS, cut.value, cutoff);
        }
    }
  }

  /** Every row of either table sits on a bucket boundary, so the merge meets it. */
  ghost predicate BothAligned(s: Tables) {
    Aligned(s.hourly, HOUR_MS) && Aligned(s.daily, DAY_MS)
  }

  ghost predicate Rounds(bucket: int -> int, interval: int)
    requires interval > 0
  {
    forall t :: bucket(t) % interval == 0
  }

  lemma {:induction false} FillAligned(t: Table, events: seq<Event>, bucket: int -> int, interval: int)
    requires interval > 0 && Aligned(t, interval) && Rounds(bucket, interval)
    ensures Aligned(Fill(t, events, bucket), interval)
  {
    if events != [] {
      FillAligned(t, events[..|events| - 1], bucket, interval);
    }
  }

  lemma {:induction false} RunAligned(cal: Calendar, retentionDays: nat, ops: seq<Op>)
    ensures BothAligned(After(cal, retentionDays, ops))
  {
    if ops != [] {
      var p, op := ops[..|ops| - 1], ops[|ops| - 1];
      RunAligned(cal, retentionDays, p);
      if op.Insert? {
        var s := After(cal, retentionDays, p);
        FillAligned(s.hourly, op.events, HourBucket, HOUR_MS);
        FillAligned(s.daily, op.events, DayBucket, DAY_MS);
      }
    }
  }

  // What a cleanup removes

  lemma {:induction false} KeptLogs(logs: seq<Event>, cutoff: int, e: Event)
    ensures multiset(KeepLogs(logs, cutoff))[e] == if e.timestamp >= cutoff then multiset(logs)[e] else 0
  {
    if logs != [] {
      KeptLogs(logs[..|logs| - 1], cutoff, e);
      assert logs == logs[..|logs| - 1] + [logs[|logs| - 1]];
    }
  }

  predicate InBucket(t: int, b: int, span: int) { b <= t < b + span }

  /** Some instant of the bucket is not older than the given one. */
  ghost predicate Reaches(b: int, span: int, oldest: int) {
    exists t :: InBucket(t, b, span) && t >= oldest
  }

  lemma ReachesIff(b: int, span: int, oldest: int)
    requires span > 0
    ensures Reaches(b, span, oldest) <==> b + span > oldest
  {
    if b + span > oldest { assert InBucket(b + span - 1, b, span); }
  }

  /** t' is t without the buckets that lie wholly before the given instant; the others are unchanged. */
  ghost predicate OnlyOldGone(t: Table, t': Table, span: int, oldest: int) {
    && (forall b :: b in t' <==> b in t && Reaches(b, span, oldest))
    && (forall b :: b in t' ==> t'[b] == t[b])
  }

  /** Likewise for the details: each one as often as before, or not at all if it is older. */
  ghost predicate OnlyOldLogsGone(logs: seq<Event>, logs': seq<Event>, oldest: int) {
    forall e: Event :: multiset(logs')[e] == if e.timestamp >= oldest then multiset(logs)[e] else 0
  }

  lemma PruneIsExact(t: Table, span: int, oldest: int)
    requires span > 0
    ensures OnlyOldGone(t, Prune(t, span, oldest), span, oldest)
  {
    forall b ensures Reaches(b, span, oldest) <==> b + span > oldest { ReachesIff(b, span, oldest); }
  }

  /** A cleanup removes exactly the details older than the period and the buckets that lie wholly before it;
      what it keeps, it keeps unchanged. */
  lemma CleanupIsExact(s: Tables, retentionDays: nat, now: int)
    requires retentionDays > 0 && CleanupCutoff(retentionDays, now).Ok?
    ensures var s', oldest := Cleanup(s, retentionDays, now), now - retentionDays * DAY_MS;
            && OnlyOldLogsGone(s.logs, s'.logs, oldest)
            && OnlyOldGone(s.hourly, s'.hourly, HOUR_MS, oldest)
            && OnlyOldGone(s.daily, s'.daily, DAY_MS, oldest)
  {
    var oldest := now - retentionDays * DAY_MS;
    forall e: Event
      ensures multiset(KeepLogs(s.logs, oldest))[e] == if e.timestamp >= oldest then multiset(s.logs)[e] else 0
    {
      KeptLogs(s.logs, oldest, e);
    }
    PruneIsExact(s.hourly, HOUR_MS, oldest);
    PruneIsExact(s.daily, DAY_MS, oldest);
  }

  // The details over whole runs

  /** A cleanup at this moment removes details of this timestamp. */
  predicate TooOld(retentionDays: nat, now: int, timestamp: int) {
    && 0 < retentionDays && retentionDays * 86_400_000 <= I64_MAX
    && I64_MIN <= now - retentionDays * 86_400_000 <= I64_MAX
    && timestamp < now - retentionDays * 86_400_000
  }

  /** No cleanup after the i-th operation removes the event. */
  predicate Spared(retentionDays: nat, ops: seq<Op>, i: nat, e: Event) {
    forall j :: i < j < |ops| && ops[j].Clean? ==> !TooOld(retentionDays, ops[j].now, e.timestamp)
  }

  /** How often the first n operations stored this event and no later cleanup removed it. */
  function Survives(cal: Calendar, retentionDays: nat, ops: seq<Op>, n: nat, e: Event): nat
    requires n <= |ops|
  {
    if n == 0 then 0
    else
      var op := ops[n - 1];
      Survives(cal, retentionDays, ops, n - 1, e)
      + if op.Insert? && AllRepresentable(cal, op.events) && Spared(retentionDays, ops, n - 1, e)
        then multiset(op.events)[e] else 0
  }

  lemma SparedExtends(retentionDays: nat, p: seq<Op>, op: Op, i: nat, e: Event)
    requires i < |p|
    ensures Spared(retentionDays, p + [op], i, e)
            <==> Spared(retentionDays, p, i, e) && !(op.Clean? && TooOld(retentionDays, op.now, e.timestamp))
  {
    var ops := p + [op];
    assert ops[|p|] == op && forall j :: 0 <= j < |p| ==> ops[j] == p[j];
  }

  lemma {:induction false} SurvivesExtends(cal: Calendar, retentionDays: nat, p: seq<Op>, op: Op, n: nat, e: Event)
    requires n <= |p|
    ensures Survives(cal, retentionDays, p + [op], n, e)
            == if op.Clean? && TooOld(retentionDays, op.now, e.timestamp) then 0
               else Survives(cal, retentionDays, p, n, e)
  {
    if n > 0 {
      SurvivesExtends(cal, retentionDays, p, op, n - 1, e);
      SparedExtends(retentionDays, p, op, n - 1, e);
    }
  }

  /** After any inserts and cleanups the log holds each event as often as it was stored by a successful insert without
      a later cleanup being past its retention. */
  lemma {:induction false} LogsAreKept(cal: Calendar, retentionDays: nat, ops: seq<Op>, e: Event)
    ensures multiset(After(cal, retentionDays, ops).logs)[e] == Survives(cal, retentionDays, ops, |ops|, e)
  {
    if ops != [] {
      var p, op := ops[..|ops| - 1], ops[|ops| - 1];
      assert ops == p + [op];
      LogsAreKept(cal, retentionDays, p, e);
      SurvivesExtends(cal, retentionDays, p, op, |p|, e);
      var s := After(cal, retentionDays, p);
      match op
      case Insert(events) => assert multiset(s.logs + events)[e] == multiset(s.logs)[e] + multiset(events)[e];
      case Clean(now) =>
        var cutoff := CleanupCutoff(retentionDays, now);
        if retentionDays > 0 && cutoff.Ok? { KeptLogs(s.logs, cutoff.value, e); }
    }
  }

  // The window

  function WindowSize(retentionDays: nat): nat {
    if retentionDays == 0 then 30 else if retentionDays <= 15 then 24 * retentionDays + 1 else retentionDays + 1
  }

  lemma FloorBounds(x: int, interval: int)
    requires interval > 0
    ensures Floor(x, interval) % interval == 0 && Floor(x, interval) <= x < Floor(x, interval) + interval
  {
    MultipleDivides(x / interval, interval);
  }

  lemma FloorShift(now: int, n: int, interval: int)
    requires interval > 0
    ensures Floor(now - n * interval, interval) == Floor(now, interval) - n * interval
    ensures Floor(now, interval) % interval == 0 && Floor(now, interval) <= now < Floor(now, interval) + interval
  {
    FloorBounds(now, interval);
    var q, back := now / interval, -n;
    assert back * interval == -(n * interval) by { MulDistributes(n, -n, interval); }
    assert (now + back * interval) / interval == q + back by { ShiftQuotient(now, back, interval); }
    MulDistributes(q, back, interval);
  }

  /** The window is well defined and has exactly the expected size; its first bucket reaches past the
      cleanup cutoff. */
  lemma WindowShape(cal: Calendar, retentionDays: nat, now: int)
    requires cal.Fits() && cal.Represents(now) && retentionDays * DAY_MS <= I64_MAX / 2
    ensures var w := WindowOf(retentionDays, now);
            && w.Ok? && w.value.start <= w.value.end
            && w.value.start % w.value.interval == 0
            && w.value.hourly == (1 <= retentionDays <= 15)
            && w.value.Size() == WindowSize(retentionDays)
            && w.value.end == Floor(now, w.value.interval)
            && (retentionDays > 0 ==> w.value.start + w.value.interval > now - retentionDays * DAY_MS)
  {
    var hourly := 1 <= retentionDays <= 15;
    var interval := if hourly then HOUR_MS else DAY_MS;
    var n := if retentionDays == 0 then 29 else if hourly then 24 * retentionDays else retentionDays;
    FloorShift(now, n, interval);
    FloorShift(now, 0, interval);
    FloorShift(now - n * interval, 0, interval);
    MultipleDivides(n, interval);
    ShiftAligned(Floor(now, interval), -n, interval);
  }

  /** The k-th bucket of the window with the counts of the given events. */
  function TrueBucket(w: Window, events: seq<Event>, k: int): Bucket {
    Bucket(Instant(w, k), Tally(events, BucketOf(w.hourly), Instant(w, k)))
  }

  lemma TrendTallies(cal: Calendar, retentionDays: nat, ops: seq<Op>, now: int)
    requires cal.Fits() && cal.Represents(now) && retentionDays <= 9_999 && CleanedBefore(ops, now)
    ensures var w := WindowOf(retentionDays, now);
            var trend := Trend(cal, After(cal, retentionDays, ops), retentionDays, now);
            && w.Ok? && trend.Ok? && |trend.value| == WindowSize(retentionDays)
            && forall k :: 0 <= k < |trend.value| ==> trend.value[k] == TrueBucket(w.value, Ever(cal, ops), k)
  {
    WindowShape(cal, retentionDays, now);
    var w := WindowOf(retentionDays, now).value;
    var s, events := After(cal, retentionDays, ops), Ever(cal, ops);
    var cutoff := if retentionDays > 0 then now - retentionDays * DAY_MS else w.start;
    RunAgrees(cal, retentionDays, ops, now, cutoff);
    var t := if w.hourly then s.hourly else s.daily;
    forall k | 0 <= k < w.Size() ensures TrendBuckets(t, w, w.Size())[k] == TrueBucket(w, events, k) {
      TrendBucketAt(t, w, w.Size(), k);
      BucketAgrees(t, events, w, k, cutoff);
    }
  }

  datatype Kind = Any | OnlyBlocked | OnlyHits

  predicate Is(e: Event, kind: Kind) {
    match kind
    case Any => true
    case OnlyBlocked => e.blocked
    case OnlyHits => e.cacheHit
  }

  /** How many events of the kind have a timestamp in the bucket from b on. */
  function HowMany(events: seq<Event>, b: int, span: int, kind: Kind): nat {
    if events == [] then 0
    else
      var e := events[|events| - 1];
      HowMany(events[..|events| - 1], b, span, kind) + if InBucket(e.timestamp, b, span) && Is(e, kind) then 1 else 0
  }

  /** The counts of the events with a timestamp in the bucket. */
  predicate Counted(events: seq<Event>, b: int, span: int, c: Counts) {
    && c.total == HowMany(events, b, span, Any)
    && c.blocked == HowMany(events, b, span, OnlyBlocked)
    && c.hits == HowMany(events, b, span, OnlyHits)
  }

  lemma FloorIffIn(t: int, b: int, span: int)
    requires span > 0 && b % span == 0
    ensures Floor(t, span) == b <==> InBucket(t, b, span)
  {
    FloorBounds(t, span);
    var f := Floor(t, span);
    if InBucket(t, b, span) && f != b {
      if f < b { AlignedGap(f, b, span); } else { AlignedGap(b, f, span); }
    }
  }

  ghost predicate Sorts(bucket: int -> int, b: int, span: int) {
    forall t :: bucket(t) == b <==> InBucket(t, b, span)
  }

  lemma BucketSorts(hourly: bool, b: int)
    requires b % Span(hourly) == 0
    ensures Sorts(BucketOf(hourly), b, Span(hourly))
  {
    forall t ensures BucketOf(hourly)(t) == b <==> InBucket(t, b, Span(hourly)) { FloorIffIn(t, b, Span(hourly)); }
  }

  lemma {:induction false} HowManyPush(events: seq<Event>, e: Event, b: int, span: int, kind: Kind)
    ensures HowMany(events + [e], b, span, kind)
            == HowMany(events, b, span, kind) + if InBucket(e.timestamp, b, span) && Is(e, kind) then 1 else 0
  {
    assert (events + [e])[..|events|] == events;
  }

  /** Adding an event's counts, field by field. */
  lemma PlusOne(c: Counts, e: Event, falls: bool, c': Counts)
    requires c' == c.Plus(if falls then One(e) else Zero())
    ensures c'.total == c.total + if falls then 1 else 0
    ensures c'.blocked == c.blocked + if falls && e.blocked then 1 else 0
    ensures c'.hits == c.hits + if falls && e.cacheHit then 1 else 0
  {
  }

  lemma {:induction false} CountedPush(events: seq<Event>, e: Event, b: int, span: int, c: Counts, c': Counts)
    requires Counted(events, b, span, c)
    requires c'.total == c.total + if InBucket(e.timestamp, b, span) then 1 else 0
    requires c'.blocked == c.blocked + if InBucket(e.timestamp, b, span) && e.blocked then 1 else 0
    requires c'.hits == c.hits + if InBucket(e.timestamp, b, span) && e.cacheHit then 1 else 0
    ensures Counted(events + [e], b, span, c')
  {
    HowManyPush(events, e, b, span, Any);
    HowManyPush(events, e, b, span, OnlyBlocked);
    HowManyPush(events, e, b, span, OnlyHits);
  }

  lemma {:induction false} TallyCounts(events: seq<Event>, bucket: int -> int, b: int, span: int)
    requires Sorts(bucket, b, span)
    ensures Counted(events, b, span, Tally(events, bucket, b))
  {
    if events != [] {
      var p, e := events[..|events| - 1], events[|events| - 1];
      assert events == p + [e];
      TallyCounts(p, bucket, b, span);
      PlusOne(Tally(p, bucket, b), e, InBucket(e.timestamp, b, span), Tally(events, bucket, b));
      CountedPush(p, e, b, span, Tally(p, bucket, b), Tally(events, bucket, b));
    }
  }

  /** A trend at `now` of everything stored: buckets of an hour for 1 to 15 days of retention, else of a day, one after
      another, the last one holding now; and each counts the events with a timestamp in it. */
  ghost predicate ExactTrend(buckets: seq<Bucket>, events: seq<Event>, retentionDays: nat, now: int) {
    var span := if 1 <= retentionDays <= 15 then 3_600_000 else 86_400_000;
    && |buckets| == WindowSize(retentionDays)
    && var last := buckets[|buckets| - 1].at;
    && last % span == 0 && InBucket(now, last, span)
    && forall k :: 0 <= k < |buckets| ==>
         && buckets[k].at == last - (|buckets| - 1 - k) * span
         && Counted(events, buckets[k].at, span, buckets[k].counts)
  }

  lemma InstantsBackFromLast(w: Window, n: nat, k: nat)
    requires k < n
    ensures Instant(w, k) == Instant(w, n - 1) - (n - 1 - k) * w.interval
  {
    MulDistributes(k, n - 1 - k, w.interval);
  }

  lemma LastInstant(w: Window, now: int)
    requires w.interval > 0 && w.start <= w.end && w.start % w.interval == 0 && w.end == Floor(now, w.interval)
    ensures Instant(w, w.Size() - 1) == w.end && InBucket(now, w.end, w.interval) && w.end % w.interval == 0
  {
    FloorBounds(now, w.interval);
    var q := (w.end - w.start) / w.interval;
    ShiftAligned(w.end, -(w.start / w.interval), w.interval);
    ExactQuotient(w.start, w.interval);
    assert -(w.start / w.interval) * w.interval == -w.start by {
      MulDistributes(w.start / w.interval, -(w.start / w.interval), w.interval);
    }
    ExactQuotient(w.end - w.start, w.interval);
  }

  lemma BucketIsExact(w: Window, events: seq<Event>, k: nat)
    requires w.interval == Span(w.hourly) && w.start <= w.end && w.start % w.interval == 0 && k < w.Size()
    ensures var b := TrueBucket(w, events, k);
            && b.at == Instant(w, w.Size() - 1) - (w.Size() - 1 - k) * w.interval
            && Counted(events, b.at, w.interval, b.counts)
  {
    InstantsBackFromLast(w, w.Size(), k);
    InstantWithin(w, k);
    BucketSorts(w.hourly, Instant(w, k));
    TallyCounts(events, BucketOf(w.hourly), Instant(w, k), w.interval);
  }

  lemma WindowIsExact(w: Window, buckets: seq<Bucket>, events: seq<Event>, retentionDays: nat, now: int)
    requires w.interval == Span(w.hourly) && w.hourly == (1 <= retentionDays <= 15)
    requires w.start <= w.end && w.start % w.interval == 0 && w.end == Floor(now, w.interval)
    requires |buckets| == w.Size() == WindowSize(retentionDays)
    requires forall k :: 0 <= k < |buckets| ==> buckets[k] == TrueBucket(w, events, k)
    ensures ExactTrend(buckets, events, retentionDays, now)
  {
    LastInstant(w, now);
    forall k | 0 <= k < |buckets|
      ensures buckets[k].at == w.end - (|buckets| - 1 - k) * w.interval
      ensures Counted(events, buckets[k].at, w.interval, buckets[k].counts)
    {
      BucketIsExact(w, events, k);
    }
  }

  /** The trend is exact: after any run of inserts and cleanups at or before now, it has one bucket per aligned instant
      of its window, in order, and each holds the counts of all events ever stored in that bucket. Cleanup never
      shows. */
  lemma TrendIsExact(cal: Calendar, retentionDays: nat, ops: seq<Op>, now: int)
    requires cal.Fits() && cal.Represents(now) && retentionDays <= 9_999 && CleanedBefore(ops, now)
    ensures var trend := Trend(cal, After(cal, retentionDays, ops), retentionDays, now);
            trend.Ok? && ExactTrend(trend.value, Ever(cal, ops), retentionDays, now)
  {
    TrendTallies(cal, retentionDays, ops, now);
    WindowShape(cal, retentionDays, now);
    var trend := Trend(cal, After(cal, retentionDays, ops), retentionDays, now);
    WindowIsExact(WindowOf(retentionDays, now).value, trend.value, Ever(cal, ops), retentionDays, now);
  }

  lemma BucketAgrees(t: Table, events: seq<Event>, w: Window, k: nat, cutoff: int)
    requires w.interval == Span(w.hourly) && Agrees(t, events, BucketOf(w.hourly), Span(w.hourly), cutoff)
    requires w.start + w.interval > cutoff
    ensures CountsAt(t, Instant(w, k)) == Tally(events, BucketOf(w.hourly), Instant(w, k))
  {
    MulMonotone(0, k, w.interval);
    assert Instant(w, k) + Span(w.hourly) > cutoff;
  }

  /** When there is a trend: exactly for an instant the calendar represents and at most 9,999 days of retention, the
      limit the configuration enforces. */
  lemma TrendLimit(cal: Calendar, s: Tables, retentionDays: nat, now: int)
    requires cal.Fits()
    ensures Trend(cal, s, retentionDays, now).Ok? <==> cal.Represents(now) && retentionDays <= 9_999
  {
    if cal.Represents(now) {
      if retentionDays * DAY_MS <= I64_MAX / 2 {
        WindowShape(cal, retentionDays, now);
      } else {
        HugeWindow(cal, retentionDays, now);
      }
    }
  }

  /** Periods so long that the checked arithmetic may fail are too many buckets if it does not. */
  lemma HugeWindow(cal: Calendar, retentionDays: nat, now: int)
    requires cal.Fits() && cal.Represents(now) && retentionDays * DAY_MS > I64_MAX / 2
    ensures var w := WindowOf(retentionDays, now);
            w.Ok? ==> w.value.end < w.value.start || w.value.Size() > MAX_TREND_BUCKETS
  {
    FloorShift(now, 0, DAY_MS);
    FloorShift(now, retentionDays, DAY_MS);
    FloorShift(now - retentionDays * DAY_MS, 0, DAY_MS);
    MultipleDivides(retentionDays, DAY_MS);
  }

  class Store {
    const calendar: Calendar
    var logs: seq<Event>
    var hourly: Table
    var daily: Table

    function Value(): Tables
      reads this
    {
      Tables(logs, hourly, daily)
    }

    constructor (calendar: Calendar)
      ensures this.calendar == calendar && Value() == Tables([], map[], map[])
    {
      this.calendar := calendar;
      logs, hourly, daily := [], map[], map[];
    }

    /** One transaction: all rows, or none when a timestamp is out of range. */
    method InsertEvents(events: seq<Event>) returns (ok: bool)
      modifies this
      ensures ok == AllRepresentable(calendar, events)
      ensures Value() == if ok then InsertAll(old(Value()), events) else old(Value())
    {
      var before := Value();
      for i := 0 to |events|
        invariant AllRepresentable(calendar, events[..i])
        invariant Value() == InsertAll(old(Value()), events[..i])
      {
        var e := events[i];
        assert events[..i + 1] == events[..i] + [e];
        FillPush(before.hourly, events[..i], e, HourBucket);
        FillPush(before.daily, events[..i], e, DayBucket);
        logs := logs + [e];
        if !calendar.Represents(e.timestamp) {
          logs, hourly, daily := before.logs, before.hourly, before.daily;  // rollback
          return false;
        }
        hourly := Bump(hourly, HourBucket(e.timestamp), e);
        daily := Bump(daily, DayBucket(e.timestamp), e);
      }
      assert events[..|events|] == events;
      return true;
    }

    /** Removes exactly what is older than the retention period; nothing when there is no period, or its start
        cannot be represented. */
    method Clean(retentionDays: nat, now: int)
      modifies this
      ensures Value() == Cleanup(old(Value()), retentionDays, now)
      ensures var oldest := now - retentionDays * DAY_MS;
              if retentionDays == 0 || retentionDays * DAY_MS > I64_MAX || oldest < I64_MIN || oldest > I64_MAX
              then Value() == old(Value())
              else && OnlyOldLogsGone(old(logs), logs, oldest)
                   && OnlyOldGone(old(hourly), hourly, HOUR_MS, oldest)
                   && OnlyOldGone(old(daily), daily, DAY_MS, oldest)
    {
      if retentionDays == 0 || retentionDays * DAY_MS > I64_MAX { return; }
      var cutoff := Checked(now - retentionDays * DAY_MS);
      if cutoff.Err? { return; }
      CleanupIsExact(Value(), retentionDays, now);
      logs := KeepLogs(logs, cutoff.value);
      hourly := Prune(hourly, HOUR_MS, cutoff.value);
      daily := Prune(daily, DAY_MS, cutoff.value);
    }

    /** Reads the rows (given as the query returned them) and merges them into the zero-filled window. */
    method ReadTrend(retentionDays: nat, now: int, rows: seq<Bucket>) returns (r: Result<seq<Bucket>>)
      requires BothAligned(Value())
      requires var w := WindowOf(retentionDays, now);
               w.Ok? ==> var t := if w.value.hourly then hourly else daily;
                         Ordered(t, Selected(t, w.value.start, w.value.end), rows)
      ensures r == Trend(calendar, Value(), retentionDays, now)
    {
      if !calendar.Represents(now) { return Err; }
      var w := WindowOf(retentionDays, now);
      if w.Err? || w.value.end < w.value.start || w.value.Size() > MAX_TREND_BUCKETS { return Err; }
      WindowAligned(retentionDays, now);
      var buckets, _ := MergeRows(if w.value.hourly then hourly else daily, rows, w.value);
      return Ok(buckets);
    }
  }

  lemma WindowAligned(retentionDays: nat, now: int)
    requires WindowOf(retentionDays, now).Ok?
    ensures var w := WindowOf(retentionDays, now).value; w.start % w.interval == 0
  {
    var w := WindowOf(retentionDays, now).value;
    FloorShift(now, 0, w.interval);
    FloorShift(now - retentionDays * DAY_MS, 0, w.interval);
    ShiftAligned(Floor(now, w.interval), -29, w.interval);
  }
}
