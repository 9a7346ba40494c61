/** The write-warning rate limit: WarningRateLimit in src/dashboard/store.rs.

    Any number of calls interleave. The atomic is accessed with relaxed ordering, so a read may return any value it
    has held; a successful exchange acts on the latest one. */
module WarningLimit {
  import opened Prelude
  import opened Units

  /** saturating_add on u64. */
  function Sat(x: nat): nat {
    if x > U64_MAX then U64_MAX else x
  }

  /** Where a call of should_log stands; `now` is the clock reading it was given. */
  datatype Caller =
    | Loading(now: nat)
    | Deciding(now: nat, seen: nat)
    | Logged(now: nat)
    | Silent(now: nat)

  /** The values next_log_ms has held, the calls, and the readings of those that were told to log, in order. */
  datatype State = State(stored: seq<nat>, callers: seq<Caller>, warnings: seq<nat>)

  const INIT := State([0], [], [])

  datatype Label =
    | Call(now: nat)
    | Load(i: nat, value: nat)
    | Decide(i: nat, spurious: bool, value: nat)  // compare, then compare_exchange_weak; `value` is read if it fails

  predicate Enabled(s: State, l: Label) {
    match l
    case Call(now) => now <= U64_MAX
    case Load(i, value) => i < |s.callers| && s.callers[i].Loading? && value in s.stored
    case Decide(i, _, value) => i < |s.callers| && s.callers[i].Deciding? && value in s.stored
  }

  function Latest(s: State): nat {
    if s.stored == [] then 0 else s.stored[|s.stored| - 1]
  }

  function Next(interval: nat, s: State, l: Label): State
    requires Enabled(s, l)
  {
    match l
    case Call(now) => s.(callers := s.callers + [Loading(now)])
    case Load(i, value) => s.(callers := s.callers[i := Deciding(s.callers[i].now, value)])
    case Decide(i, spurious, value) =>
      var q := s.callers[i];
      if q.now < q.seen then s.(callers := s.callers[i := Silent(q.now)])
      else if Latest(s) == q.seen && !spurious then
        State(s.stored + [Sat(q.now + interval)], s.callers[i := Logged(q.now)], s.warnings + [q.now])
      else s.(callers := s.callers[i := Deciding(q.now, value)])
  }

  ghost predicate Run(interval: nat, states: seq<State>, labels: seq<Label>) {
    && |states| == |labels| + 1 && states[0] == INIT
    && forall k :: 0 <= k < |labels| ==> StepAt(interval, states, labels, k)
  }

  ghost predicate StepAt(interval: nat, states: seq<State>, labels: seq<Label>, k: nat)
    requires k < |labels| && |states| == |labels| + 1
  {
    Enabled(states[k], labels[k]) && states[k + 1] == Next(interval, states[k], labels[k])
  }

  // What every run keeps

  /** Each stored value but the first is a warning's reading plus the interval, and no warning came before the value
      stored when it was given. */
  ghost predicate Chained(interval: nat, s: State) {
    && |s.stored| == |s.warnings| + 1
    && s.stored[0] == 0
    && (forall k :: 0 <= k < |s.warnings| ==> s.stored[k] <= s.warnings[k] <= U64_MAX)
    && (forall k :: 0 <= k < |s.warnings| ==> s.stored[k + 1] == Sat(s.warnings[k] + interval))
  }

  function IsLogged(q: Caller): int { if q.Logged? then 1 else 0 }

  ghost predicate CallersSound(s: State) {
    && (forall i :: 0 <= i < |s.callers| ==> CallerSound(s.stored, s.callers[i]))
    && Sum(s.callers, IsLogged) == |s.warnings|
  }

  /** A call has seen only stored values, and keeps silent only for one that lies after its reading. */
  ghost predicate CallerSound(stored: seq<nat>, q: Caller) {
    && q.now <= U64_MAX
    && (q.Deciding? ==> q.seen in stored)
    && (q.Silent? ==> Exceeded(stored, q.now))
  }

  /** Some stored value lies after the reading. */
  ghost predicate Exceeded(stored: seq<nat>, now: nat) {
    exists v :: v in stored && now < v
  }

  lemma ChainedKept(interval: nat, s: State, l: Label)
    requires Chained(interval, s) && CallersSound(s) && Enabled(s, l)
    ensures Chained(interval, Next(interval, s, l))
  {
  }

  lemma StillSound(stored: seq<nat>, more: seq<nat>, q: Caller)
    requires CallerSound(stored, q)
    ensures CallerSound(stored + more, q)
  {
    if q.Silent? {
      var v :| v in stored && q.now < v;
      assert v in stored + more;
    }
  }

  /** The call that makes the step. */
  lemma MoverSound(interval: nat, s: State, l: Label)
    requires Enabled(s, l) && !l.Call? && CallerSound(s.stored, s.callers[l.i])
    ensures CallerSound(Next(interval, s, l).stored, Next(interval, s, l).callers[l.i])
  {
    var q := s.callers[l.i];
    if l.Decide? && q.now < q.seen { assert q.seen in s.stored; }
  }

  lemma CallersSoundKept(interval: nat, s: State, l: Label)
    requires CallersSound(s) && Enabled(s, l)
    ensures CallersSound(Next(interval, s, l))
  {
    var s' := Next(interval, s, l);
    LoggedCount(interval, s, l);
    var more := s'.stored[|s.stored|..];
    assert s'.stored == s.stored + more;
    forall i | 0 <= i < |s'.callers| ensures CallerSound(s'.stored, s'.callers[i]) {
      if i < |s.callers| && s'.callers[i] == s.callers[i] {
        StillSound(s.stored, more, s.callers[i]);
      } else if !l.Call? {
        MoverSound(interval, s, l);
      }
    }
  }

  lemma LoggedCount(interval: nat, s: State, l: Label)
    requires Enabled(s, l) && Sum(s.callers, IsLogged) == |s.warnings|
    ensures Sum(Next(interval, s, l).callers, IsLogged) == |Next(interval, s, l).warnings|
  {
    var s' := Next(interval, s, l);
    match l
    case Call(now) => SumPush(s.callers, Loading(now), IsLogged);
    case Load(i, _) => SumSet(s.callers, i, s'.callers[i], IsLogged);
    case Decide(i, _, _) => SumSet(s.callers, i, s'.callers[i], IsLogged);
  }

  lemma {:induction false} SoundAlways(interval: nat, states: seq<State>, labels: seq<Label>, k: nat)
    requires Run(interval, states, labels) && k < |states|
    ensures Chained(interval, states[k]) && CallersSound(states[k])
  {
    if k > 0 {
      SoundAlways(interval, states, labels, k - 1);
      assert StepAt(interval, states, labels, k - 1);
      ChainedKept(interval, states[k - 1], labels[k - 1]);
      CallersSoundKept(interval, states[k - 1], labels[k - 1]);
    }
  }

  /** Each warning comes at or after the reading of every earlier one plus the interval, as far as u64 reaches. */
  lemma {:induction false} ChainSpaced(interval: nat, s: State, i: nat, j: nat)
    requires Chained(interval, s) && i < j < |s.warnings|
    ensures s.warnings[j] >= Sat(s.warnings[i] + interval)
    decreases j
  {
    if i < j - 1 {
      ChainSpaced(interval, s, i, j - 1);
      assert s.stored[j] == Sat(s.warnings[j - 1] + interval);
    }
  }

  /** Two warnings are an interval apart. */
  predicate Apart(interval: nat, a: nat, b: nat) { a + interval <= b }

  ghost predicate AllApart(interval: nat, warnings: seq<nat>) {
    forall i, j :: 0 <= i < j < |warnings| ==> Apart(interval, warnings[i], warnings[j])
  }

  /** Over every interleaving, stale reads and spurious failures included: as many calls are told to log as there are
      warnings; any two warnings are at least the interval apart, unless the later reading is the last number u64
      has; and a call is told not to only if some warning is less than the interval before it, or after it. */
  lemma WarningsAreSpaced(interval: nat, states: seq<State>, labels: seq<Label>, k: nat)
    requires Run(interval, states, labels) && k < |states|
    ensures var s := states[k];
            && Sum(s.callers, IsLogged) == |s.warnings|
            && (forall i, j :: 0 <= i < j < |s.warnings| && s.warnings[j] < U64_MAX ==>
                  Apart(interval, s.warnings[i], s.warnings[j]))
            && (forall i :: 0 <= i < |s.callers| && s.callers[i].Silent? ==>
                  exists w :: w in s.warnings && s.callers[i].now < w + interval)
  {
    SoundAlways(interval, states, labels, k);
    var s := states[k];
    forall i, j | 0 <= i < j < |s.warnings| && s.warnings[j] < U64_MAX
      ensures Apart(interval, s.warnings[i], s.warnings[j])
    {
      ChainSpaced(interval, s, i, j);
    }
    forall i | 0 <= i < |s.callers| && s.callers[i].Silent?
      ensures exists w :: w in s.warnings && s.callers[i].now < w + interval
    {
      assert CallerSound(s.stored, s.callers[i]);
      var v :| v in s.stored && s.callers[i].now < v;
      var n :| 0 <= n < |s.stored| && s.stored[n] == v;
      assert s.stored[n - 1 + 1] == Sat(s.warnings[n - 1] + interval);
      assert s.warnings[n - 1] in s.warnings;
    }
  }

  // Exactly when the interval is kept

  /** Every clock reading is at most `latest`. */
  ghost predicate ClockUpTo(labels: seq<Label>, latest: nat) {
    forall k :: 0 <= k < |labels| && labels[k].Call? ==> labels[k].now <= latest
  }

  ghost predicate CallersUpTo(s: State, latest: nat) {
    && (forall i :: 0 <= i < |s.callers| ==> s.callers[i].now <= latest)
    && (forall i :: 0 <= i < |s.warnings| ==> s.warnings[i] <= latest)
  }

  lemma {:induction false} ReadingsUpTo(interval: nat, states: seq<State>, labels: seq<Label>, latest: nat, k: nat)
    requires Run(interval, states, labels) && k < |states| && ClockUpTo(labels, latest)
    ensures CallersUpTo(states[k], latest)
  {
    if k > 0 {
      ReadingsUpTo(interval, states, labels, latest, k - 1);
      assert StepAt(interval, states, labels, k - 1);
    }
  }

  /** In every run whose clock stays at or below `latest`, warnings are an interval apart. */
  ghost predicate KeepsInterval(interval: nat, latest: nat) {
    forall states: seq<State>, labels: seq<Label>, k: nat ::
      Run(interval, states, labels) && k < |states| && ClockUpTo(labels, latest) ==>
        AllApart(interval, states[k].warnings)
  }

  /** A call that runs undisturbed at a reading not before the latest stored value is told to log. */
  lemma AloneLogs(interval: nat, s: State, now: nat) returns (s1: State, s2: State, s3: State)
    requires s.stored != [] && Latest(s) <= now <= U64_MAX
    ensures var i, v := |s.callers|, Latest(s);
            && Enabled(s, Call(now)) && s1 == Next(interval, s, Call(now))
            && Enabled(s1, Load(i, v)) && s2 == Next(interval, s1, Load(i, v))
            && Enabled(s2, Decide(i, false, v)) && s3 == Next(interval, s2, Decide(i, false, v))
    ensures s3.stored == s.stored + [Sat(now + interval)] && s3.warnings == s.warnings + [now]
    ensures |s3.callers| == |s.callers| + 1
  {
    var i, v := |s.callers|, Latest(s);
    s1 := Next(interval, s, Call(now));
    assert s1.callers[i] == Loading(now) && v in s1.stored;
    s2 := Next(interval, s1, Load(i, v));
    assert s2.callers[i] == Deciding(now, v) && v in s2.stored && Latest(s2) == v;
    s3 := Next(interval, s2, Decide(i, false, v));
  }

  /** Two calls at the last number u64 has are both told to log: the sum saturates. */
  lemma SaturationRepeats(interval: nat) returns (states: seq<State>, labels: seq<Label>)
    ensures Run(interval, states, labels) && ClockUpTo(labels, U64_MAX)
    ensures states[|states| - 1].warnings == [U64_MAX, U64_MAX]
  {
    var now: nat := U64_MAX;
    var s1, s2, s3 := AloneLogs(interval, INIT, now);
    assert Latest(s3) == now;
    var s4, s5, s6 := AloneLogs(interval, s3, now);
    states := [INIT, s1, s2, s3, s4, s5, s6];
    labels := [Call(now), Load(0, 0), Decide(0, false, 0), Call(now), Load(1, now), Decide(1, false, now)];
    forall k | 0 <= k < |labels| ensures StepAt(interval, states, labels, k) {
      if k == 0 {} else if k == 1 {} else if k == 2 {} else if k == 3 {} else if k == 4 {} else {}
    }
  }

  /** The limiter keeps its interval on all runs if and only if the clock stays below the last number u64 has, or the
      interval is zero. */
  lemma IntervalKeptIff(interval: nat, latest: nat)
    requires latest <= U64_MAX
    ensures KeepsInterval(interval, latest) <==> latest < U64_MAX || interval == 0
  {
    if latest < U64_MAX || interval == 0 {
      forall states: seq<State>, labels: seq<Label>, k: nat
        | Run(interval, states, labels) && k < |states| && ClockUpTo(labels, latest)
        ensures AllApart(interval, states[k].warnings)
      {
        ApartBelow(interval, states, labels, latest, k);
      }
    } else {
      var states, labels := SaturationRepeats(interval);
      var s := states[|states| - 1];
      assert !Apart(interval, s.warnings[0], s.warnings[1]);
      assert !AllApart(interval, s.warnings);
    }
  }

  lemma ApartBelow(interval: nat, states: seq<State>, labels: seq<Label>, latest: nat, k: nat)
    requires Run(interval, states, labels) && k < |states| && ClockUpTo(labels, latest)
    requires latest <= U64_MAX && (latest < U64_MAX || interval == 0)
    ensures AllApart(interval, states[k].warnings)
  {
    SoundAlways(interval, states, labels, k);
    ReadingsUpTo(interval, states, labels, latest, k);
    var s := states[k];
    forall i, j | 0 <= i < j < |s.warnings| ensures Apart(interval, s.warnings[i], s.warnings[j]) {
      ChainSpaced(interval, s, i, j);
    }
  }
}
