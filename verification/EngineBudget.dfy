/** What every run of the retry engine keeps about time, spawning and the number of live attempts. */
module EngineBudget {
  import opened Multiples
  import opened Prelude
  import opened Engine
  import EngineAccounting
  import Group

  function Lives(a: Attempt): int { if a.Gone? then 0 else 1 }
  function IsHedge(p: Spawn): int { if p.cause.Hedge? then 1 else 0 }
  function IsRetry(p: Spawn): int { if p.cause.Retry? then 1 else 0 }

  /** The counter in_flight against the JoinSet. */
  ghost predicate Counted(c: Config, s: State) {
    s.phase.Running? ==>
      && s.inFlight == Sum(s.attempts, Lives) <= c.Cap()
      && (s.lastError.None? <==> s.inFlight == |s.attempts|)
  }

  /** Spawns happen in order, before the deadline, and a retry only a full floor after the spawn before it. */
  ghost predicate Spaced(c: Config, spawns: seq<Spawn>) {
    && spawns != []
    && spawns[0] == Spawn(First, c.start)
    && forall k :: 0 < k < |spawns| ==>
         && !spawns[k].cause.First?
         && spawns[k - 1].at <= spawns[k].at < c.Deadline()
         && (spawns[k].cause.Retry? ==> spawns[k].at >= spawns[k - 1].at + 50_000_000)
         && (spawns[k].cause.Hedge? ==> c.interval != 0)
  }

  ghost predicate Timed(c: Config, s: State) {
    && c.start <= s.lastSpawn <= s.now
    && |s.spawns| == |s.attempts|
    && Spaced(c, s.spawns)
    && s.lastSpawn == s.spawns[|s.spawns| - 1].at
    && (s.phase.Running? && s.inFlight == 0 ==> s.retryAt >= s.lastSpawn + RETRY_FLOOR)
    && (!s.phase.Running? && s.phase.outcome.Err? ==> s.now >= c.Deadline())
  }

  /** The two spawn budgets. */
  ghost predicate Budgeted(c: Config, s: State) {
    && s.nextHedge == c.start + (s.hedgeTicks + 1) * c.interval
    && (s.hedgeTicks > 0 ==> c.interval > 0 && s.hedgeTicks * c.interval < c.maxWait)
    && Sum(s.spawns, IsHedge) <= s.hedgeTicks
    && c.start + RETRY_FLOOR * Sum(s.spawns, IsRetry) <= s.lastSpawn
    && |s.spawns| == 1 + Sum(s.spawns, IsHedge) + Sum(s.spawns, IsRetry)
    && (|s.spawns| > 1 ==> s.lastSpawn < c.Deadline())
  }

  ghost predicate Paced(c: Config, s: State) {
    Counted(c, s) && Timed(c, s) && Budgeted(c, s)
  }

  /** An attempt's own step changes its slot, the calls and the charges, and nothing of the engine. */
  lemma AttemptStepFrame(c: Config, s: State, l: Label)
    requires CallsExist(s) && Enabled(c, s, l) && (l.Begin? || l.Answer? || l.Fail? || l.Drop?)
    ensures l.i < |s.attempts| && |Next(c, s, l).attempts| == |s.attempts|
    ensures var s' := Next(c, s, l);
            && s' == s.(attempts := s.attempts[l.i := s'.attempts[l.i]], calls := s'.calls, charges := s'.charges)
            && (!l.Drop? ==> !s.attempts[l.i].Gone? && !s'.attempts[l.i].Gone?)
            && (l.Drop? ==> !s.phase.Running?)
  {
  }

  lemma CountedKept(c: Config, s: State, l: Label)
    requires Counted(c, s) && CallsExist(s) && Enabled(c, s, l)
    ensures Counted(c, Next(c, s, l))
  {
    if l.Poll? {
      CountedPoll(c, s, l.i);
    } else if l.Begin? || l.Answer? || l.Fail? || l.Drop? {
      AttemptStepFrame(c, s, l);
      SumSet(s.attempts, l.i, Next(c, s, l).attempts[l.i], Lives);
    }
  }

  lemma CountedPoll(c: Config, s: State, i: nat)
    requires Counted(c, s) && Enabled(c, s, Poll(i))
    ensures Counted(c, PollStep(c, s, i))
  {
    match Ready(c, s)
    case Join => CountedJoin(c, s, i);
    case Expire =>
    case Hedged => if s.inFlight < c.Cap() { CountedLaunch(c, s, Hedge); }
    case Retried => CountedLaunch(c, s, Retry);
  }

  lemma CountedJoin(c: Config, s: State, i: nat)
    requires Counted(c, s) && Enabled(c, s, Poll(i)) && Ready(c, s).Join?
    ensures Counted(c, PollStep(c, s, i))
  {
    SumSet(s.attempts, i, Gone, Lives);
    LivesAtMostLength(s.attempts);
  }

  lemma CountedLaunch(c: Config, s: State, cause: Cause)
    requires Counted(c, s) && s.inFlight < c.Cap()
    ensures Counted(c, Launch(s, cause))
  {
    SumPush(s.attempts, Spawned, Lives);
  }

  lemma {:induction false} LivesAtMostLength(attempts: seq<Attempt>)
    ensures 0 <= Sum(attempts, Lives) <= |attempts|
  {
    if attempts != [] { LivesAtMostLength(attempts[..|attempts| - 1]); }
  }

  lemma TimedKept(c: Config, s: State, l: Label)
    requires Counted(c, s) && Timed(c, s) && CallsExist(s) && Enabled(c, s, l)
    ensures Timed(c, Next(c, s, l))
  {
    if l.Begin? || l.Answer? || l.Fail? || l.Drop? {
      AttemptStepFrame(c, s, l);
    } else if l.Poll? {
      TimedPoll(c, s, l.i);
    }
  }

  lemma TimedPoll(c: Config, s: State, i: nat)
    requires Counted(c, s) && Timed(c, s) && Enabled(c, s, Poll(i))
    ensures Timed(c, PollStep(c, s, i))
  {
    LivesAtMostLength(s.attempts);
    match Ready(c, s)
    case Join => TimedJoin(c, s, i);
    case Expire =>
    case Hedged =>
      var s' := s.(nextHedge := s.nextHedge + c.interval, hedgeTicks := s.hedgeTicks + 1);
      if s.inFlight < c.Cap() { TimedLaunch(c, s', Hedge); }
    case Retried => TimedLaunch(c, s, Retry);
  }

  lemma TimedJoin(c: Config, s: State, i: nat)
    requires Timed(c, s) && Enabled(c, s, Poll(i)) && Ready(c, s).Join?
    ensures Timed(c, PollStep(c, s, i))
  {
    var s' := PollStep(c, s, i);
    assert s'.spawns == s.spawns && s'.lastSpawn == s.lastSpawn && |s'.attempts| == |s.attempts| && s'.now == s.now;
  }

  lemma TimedLaunch(c: Config, s: State, cause: Cause)
    requires Timed(c, s) && s.inFlight >= 0 && s.phase.Running? && s.now < c.Deadline()
    requires (cause == Hedge && c.interval != 0) || (cause == Retry && s.now >= s.lastSpawn + RETRY_FLOOR)
    ensures Timed(c, Launch(s, cause))
  {
    SpacedPush(c, s.spawns, Spawn(cause, s.now));
  }

  lemma SpacedPush(c: Config, spawns: seq<Spawn>, p: Spawn)
    requires Spaced(c, spawns) && spawns[|spawns| - 1].at <= p.at < c.Deadline()
    requires (p.cause == Hedge && c.interval != 0)
             || (p.cause == Retry && p.at >= spawns[|spawns| - 1].at + RETRY_FLOOR)
    ensures Spaced(c, spawns + [p])
  {
    var all := spawns + [p];
    assert all[0] == spawns[0] && forall k :: 0 <= k < |spawns| ==> all[k] == spawns[k];
  }

  lemma BudgetedKept(c: Config, s: State, l: Label)
    requires Timed(c, s) && Budgeted(c, s) && CallsExist(s) && Enabled(c, s, l)
    ensures Budgeted(c, Next(c, s, l))
  {
    if l.Begin? || l.Answer? || l.Fail? || l.Drop? {
      AttemptStepFrame(c, s, l);
    } else if l.Poll? {
      if Ready(c, s).Hedged? {
        HedgeBudgeted(c, s, l.i);
      } else if Ready(c, s).Retried? {
        RetryBudgeted(c, s, l.i);
      } else {
        QuietPollBudgeted(c, s, l.i);
      }
    }
  }

  lemma QuietPollBudgeted(c: Config, s: State, i: nat)
    requires Budgeted(c, s) && Enabled(c, s, Poll(i)) && (Ready(c, s).Join? || Ready(c, s).Expire?)
    ensures Budgeted(c, PollStep(c, s, i))
  {
    var s' := PollStep(c, s, i);
    assert s'.nextHedge == s.nextHedge && s'.hedgeTicks == s.hedgeTicks && s'.spawns == s.spawns
           && s'.lastSpawn == s.lastSpawn;
  }

  lemma HedgeBudgeted(c: Config, s: State, i: nat)
    requires Timed(c, s) && Budgeted(c, s) && Enabled(c, s, Poll(i)) && Ready(c, s).Hedged?
    ensures Budgeted(c, PollStep(c, s, i))
  {
    var s' := s.(nextHedge := s.nextHedge + c.interval, hedgeTicks := s.hedgeTicks + 1);
    TickBudgeted(c, s, s');
    if s.inFlight < c.Cap() {
      HedgeLaunchBudgeted(c, s');
      assert PollStep(c, s, i) == Launch(s', Hedge);
    } else {
      assert PollStep(c, s, i) == s';
    }
  }

  /** What a tick of the hedge timer leaves: one spawn of the budget may be used. */
  ghost predicate TickPaid(c: Config, s: State) {
    && Budgeted(c, s) && Sum(s.spawns, IsHedge) < s.hedgeTicks
  }

  lemma TickBudgeted(c: Config, s: State, s': State)
    requires Budgeted(c, s) && c.interval > 0 && s.nextHedge <= s.now < c.Deadline()
    requires s' == s.(nextHedge := s.nextHedge + c.interval, hedgeTicks := s.hedgeTicks + 1)
    ensures TickPaid(c, s')
  {
    MulDistributes(s.hedgeTicks + 1, 1, c.interval);
  }

  lemma HedgeLaunchBudgeted(c: Config, s: State)
    requires TickPaid(c, s) && s.lastSpawn <= s.now < c.Deadline()
    ensures Budgeted(c, Launch(s, Hedge))
  {
    SumPush(s.spawns, Spawn(Hedge, s.now), IsHedge);
    SumPush(s.spawns, Spawn(Hedge, s.now), IsRetry);
  }

  lemma RetryBudgeted(c: Config, s: State, i: nat)
    requires Timed(c, s) && Budgeted(c, s) && Enabled(c, s, Poll(i)) && Ready(c, s).Retried?
    ensures Budgeted(c, PollStep(c, s, i))
  {
    SumPush(s.spawns, Spawn(Retry, s.now), IsHedge);
    SumPush(s.spawns, Spawn(Retry, s.now), IsRetry);
  }

  lemma {:induction false} PacedAlways(c: Config, states: seq<State>, labels: seq<Label>, k: nat)
    requires Run(c, states, labels) && k < |states|
    ensures Paced(c, states[k])
  {
    if k == 0 {
      SumOne(Spawned, Lives);
      SumOne(Spawn(First, c.start), IsHedge);
      SumOne(Spawn(First, c.start), IsRetry);
    } else {
      PacedAlways(c, states, labels, k - 1);
      assert StepAt(c, states, labels, k - 1);
      CountedKept(c, states[k - 1], labels[k - 1]);
      TimedKept(c, states[k - 1], labels[k - 1]);
      BudgetedKept(c, states[k - 1], labels[k - 1]);
    }
  }

  // Whole runs

  /** At every moment: in_flight counts the live attempts and respects the cap (one in serial mode); an error
      outcome comes no earlier than the deadline; retries keep the floor; after the first, which happens at the
      start, nothing is spawned at or after the deadline. So every spawn comes before it if and only if the budget
      is not zero. */
  lemma EngineSafety(c: Config, states: seq<State>, labels: seq<Label>, k: nat)
    requires Run(c, states, labels) && k < |states|
    ensures var s := states[k];
            && (s.phase.Running? ==> s.inFlight == Sum(s.attempts, Lives) <= if c.interval == 0 then 1 else 8)
            && (!s.phase.Running? && s.phase.outcome.Err? ==> s.now >= c.start + c.maxWait)
            && Spaced(c, s.spawns) && |s.spawns| == |s.attempts|
            && ((forall i :: 0 <= i < |s.spawns| ==> s.spawns[i].at < c.start + c.maxWait) <==> c.maxWait > 0)
  {
    PacedAlways(c, states, labels, k);
    var s := states[k];
    assert s.spawns[0].at == c.start;
  }

  lemma QuotientBound(n: nat, d: nat, w: nat)
    requires d > 0 && n * d <= w
    ensures n <= w / d
  {
    var q := w / d;
    MulDistributes(q, 1, d);
    MulOrder(n, q + 1, d);
  }

  /** The number of attempts one query can ever make. */
  lemma AttemptBound(c: Config, states: seq<State>, labels: seq<Label>, k: nat)
    requires Run(c, states, labels) && k < |states|
    ensures |states[k].attempts|
            <= 1 + (if c.interval == 0 then 0 else c.maxWait / c.interval) + c.maxWait / 50_000_000
  {
    PacedAlways(c, states, labels, k);
    var s := states[k];
    RetriesBound(c, s);
    HedgesBound(c, s);
  }

  lemma RetriesBound(c: Config, s: State)
    requires Budgeted(c, s) && |s.spawns| >= 1
    ensures Sum(s.spawns, IsRetry) <= c.maxWait / RETRY_FLOOR
  {
    SumNonNegative(s.spawns, IsHedge);
    SumNonNegative(s.spawns, IsRetry);
    QuotientBound(Sum(s.spawns, IsRetry), RETRY_FLOOR, c.maxWait);
  }

  lemma HedgesBound(c: Config, s: State)
    requires Budgeted(c, s)
    ensures Sum(s.spawns, IsHedge) <= if c.interval == 0 then 0 else c.maxWait / c.interval
  {
    if s.hedgeTicks > 0 {
      QuotientBound(s.hedgeTicks, c.interval, c.maxWait);
    } else if c.interval > 0 {
      QuotientBound(0, c.interval, c.maxWait);
    }
  }

  /** A reply that has arrived is never lost to the deadline: when the deadline branch is taken no
      attempt has finished, and everything still alive is pending. */
  lemma DeadlineFindsNothingFinished(c: Config, states: seq<State>, labels: seq<Label>, k: nat)
    requires Run(c, states, labels) && k < |labels|
    requires states[k].phase.Running? && states[k + 1].phase.Stopping? && states[k + 1].phase.outcome.Err?
    ensures forall i :: 0 <= i < |states[k].attempts| ==> !states[k].attempts[i].Done?
    ensures states[k].now >= c.start + c.maxWait
  {
    var s := states[k];
    assert StepAt(c, states, labels, k);
    PacedAlways(c, states, labels, k);
    var l := labels[k];
    if l.Begin? || l.Answer? || l.Fail? || l.Drop? { AttemptStepFrame(c, s, l); }
    SumNonNegative(s.attempts, Lives);
    forall i | 0 <= i < |s.attempts| ensures !s.attempts[i].Done? {
      assert Lives(s.attempts[i]) <= s.inFlight;
    }
  }

  // Termination

  function Rank(a: Attempt): int {
    match a
    case Spawned => 4
    case Waiting(tried, _) => if |tried| <= 1 then 3 else 2
    case Done(_) => 1
    case Gone => 0
  }

  function PhaseRank(p: Phase): nat {
    match p
    case Running => 3
    case Stopping(o) => if o.Abandoned? then 1 else 2
    case Returned(_) => 0
  }

  /** Steps still possible once the deadline is due. */
  function Fuel(s: State): int {
    Sum(s.attempts, Rank) + PhaseRank(s.phase)
  }

  /** Once the deadline is due, every step but the clock's uses up fuel. */
  lemma DueStepBurns(c: Config, s: State, l: Label)
    requires CallsExist(s) && Enabled(c, s, l) && !l.Tick? && s.now >= c.Deadline()
    requires forall i :: 0 <= i < |s.attempts| && s.attempts[i].Waiting? ==> |s.attempts[i].tried| >= 1
    ensures Fuel(Next(c, s, l)) < Fuel(s)
  {
    var s' := Next(c, s, l);
    if l.Begin? || l.Answer? || l.Fail? || l.Drop? {
      AttemptStepFrame(c, s, l);
      AttemptStepRank(c, s, l);
      SumSet(s.attempts, l.i, s'.attempts[l.i], Rank);
    } else if l.Poll? && Ready(c, s).Join? {
      SumSet(s.attempts, l.i, Gone, Rank);
    }
  }

  lemma AttemptStepRank(c: Config, s: State, l: Label)
    requires CallsExist(s) && Enabled(c, s, l) && (l.Begin? || l.Answer? || l.Fail? || l.Drop?)
    requires s.attempts[l.i].Waiting? ==> |s.attempts[l.i].tried| >= 1
    ensures l.i < |Next(c, s, l).attempts| && Rank(Next(c, s, l).attempts[l.i]) < Rank(s.attempts[l.i])
  {
    assert Group.TryLimit(c.members) <= 2;
  }

  /** The engine is never stuck past the deadline: while it runs, a join or the deadline branch is
      ready; while it stops, some attempt can be dropped or all are gone and it can return. */
  lemma DueNotStuck(c: Config, s: State)
    requires s.now >= c.Deadline() && !s.phase.Returned?
    ensures s.phase.Running? ==> Ready(c, s).Join? || Ready(c, s).Expire?
    ensures exists l :: Enabled(c, s, l) && (l.Poll? || l.Drop? || l.Return?)
  {
    if s.phase.Running? {
      if AnyDone(s) && s.inFlight > 0 {
        var i :| 0 <= i < |s.attempts| && s.attempts[i].Done?;
        assert Enabled(c, s, Poll(i));
      } else {
        assert Enabled(c, s, Poll(0));
      }
    } else if i :| 0 <= i < |s.attempts| && !s.attempts[i].Gone? {
      assert Enabled(c, s, Drop(i, 0));
    } else {
      assert Enabled(c, s, Return);
    }
  }

  function IsStep(l: Label): int { if l.Tick? then 0 else 1 }
  function IsPoll(l: Label): int { if l.Poll? then 1 else 0 }

  lemma {:induction false} FuelBounds(attempts: seq<Attempt>)
    ensures 0 <= Sum(attempts, Rank) <= 4 * Sum(attempts, Lives)
  {
    if attempts != [] { FuelBounds(attempts[..|attempts| - 1]); }
  }

  /** From the moment the deadline is due, at most four steps per live attempt and three more remain
      before nothing can happen but the passing of time: the engine has returned with every attempt gone. */
  lemma DueRunIsShort(c: Config, states: seq<State>, labels: seq<Label>, j: nat, k: nat)
    requires Run(c, states, labels) && j <= k < |states| && states[j].now >= c.Deadline()
    ensures Sum(labels[j..k], IsStep) <= 4 * Sum(states[j].attempts, Lives) + 3
  {
    DueRunBurns(c, states, labels, j, k);
    FuelBounds(states[j].attempts);
    FuelBounds(states[k].attempts);
  }

  lemma {:induction false} DueRunBurns(c: Config, states: seq<State>, labels: seq<Label>, j: nat, k: nat)
    requires Run(c, states, labels) && j <= k < |states| && states[j].now >= c.Deadline()
    ensures states[k].now >= c.Deadline()
    ensures Sum(labels[j..k], IsStep) <= Fuel(states[j]) - Fuel(states[k])
    decreases k
  {
    if j < k {
      DueRunBurns(c, states, labels, j, k - 1);
      SumNext(labels, j, k - 1, IsStep);
      DueStepAt(c, states, labels, k - 1);
    }
  }

  lemma DueStepAt(c: Config, states: seq<State>, labels: seq<Label>, k: nat)
    requires Run(c, states, labels) && k < |labels| && states[k].now >= c.Deadline()
    ensures states[k + 1].now >= c.Deadline()
    ensures Fuel(states[k + 1]) + IsStep(labels[k]) <= Fuel(states[k])
  {
    assert StepAt(c, states, labels, k);
    assert EngineAccounting.Linked(c, states[k]) by { EngineAccounting.BooksAlways(c, states, labels, k); }
    DueStep(c, states[k], labels[k]);
  }

  lemma DueStep(c: Config, s: State, l: Label)
    requires EngineAccounting.Linked(c, s) && CallsExist(s) && Enabled(c, s, l) && s.now >= c.Deadline()
    ensures Next(c, s, l).now >= c.Deadline()
    ensures Fuel(Next(c, s, l)) + IsStep(l) <= Fuel(s)
  {
    if !l.Tick? {
      forall i | 0 <= i < |s.attempts| && s.attempts[i].Waiting? ensures |s.attempts[i].tried| >= 1 {
        assert EngineAccounting.Owns(c, s, i);
      }
      DueStepBurns(c, s, l);
      if l.Begin? || l.Answer? || l.Fail? || l.Drop? { AttemptStepFrame(c, s, l); }
    }
  }

  lemma DuePoll(c: Config, s: State, l: Label)
    requires CallsExist(s) && Enabled(c, s, l) && s.now >= c.Deadline() && Next(c, s, l).phase.Running?
    ensures var s' := Next(c, s, l);
            && s.phase.Running? && s'.now >= c.Deadline()
            && s'.inFlight == s.inFlight - IsPoll(l) && |s'.attempts| == |s.attempts|
  {
    if l.Begin? || l.Answer? || l.Fail? || l.Drop? { AttemptStepFrame(c, s, l); }
  }

  /** While the engine still runs past the deadline its turns have all been joins of failed attempts,
      so at most in_flight of them come before the deadline branch; and nothing was spawned. */
  lemma {:induction false} DuePollsAreJoins(c: Config, states: seq<State>, labels: seq<Label>, j: nat, k: nat)
    requires Run(c, states, labels) && j <= k < |states|
    requires states[j].now >= c.Deadline() && states[k].phase.Running?
    ensures states[j].phase.Running? && states[k].now >= c.Deadline()
    ensures Sum(labels[j..k], IsPoll) == states[j].inFlight - states[k].inFlight <= states[j].inFlight
    ensures |states[k].attempts| == |states[j].attempts|
    decreases k
  {
    assert states[k].inFlight >= 0 by {
      PacedAlways(c, states, labels, k);
      LivesAtMostLength(states[k].attempts);
    }
    if j < k {
      assert states[k - 1].phase.Running? by {
        assert StepAt(c, states, labels, k - 1);
        StillRunning(c, states[k - 1], labels[k - 1]);
      }
      DuePollsAreJoins(c, states, labels, j, k - 1);
      SumNext(labels, j, k - 1, IsPoll);
      DuePollAt(c, states, labels, k - 1);
    }
  }

  lemma DuePollAt(c: Config, states: seq<State>, labels: seq<Label>, k: nat)
    requires Run(c, states, labels) && k < |labels|
    requires states[k].now >= c.Deadline() && states[k + 1].phase.Running?
    ensures states[k + 1].now >= c.Deadline()
    ensures states[k + 1].inFlight == states[k].inFlight - IsPoll(labels[k])
    ensures |states[k + 1].attempts| == |states[k].attempts|
  {
    assert StepAt(c, states, labels, k);
    DuePoll(c, states[k], labels[k]);
  }

  lemma StillRunning(c: Config, s: State, l: Label)
    requires CallsExist(s) && Enabled(c, s, l) && Next(c, s, l).phase.Running?
    ensures s.phase.Running?
  {
    if l.Begin? || l.Answer? || l.Fail? || l.Drop? { AttemptStepFrame(c, s, l); }
  }

  // The fallback chain

  /** A primary run, then a fallback run only if the primary gave up. */
  ghost predicate FallbackRun(c: Config, states: seq<State>, labels: seq<Label>,
                              c': Config, states': seq<State>, labels': seq<Label>, outcome: Outcome, end: nat) {
    && Run(c, states, labels)
    && var s := states[|states| - 1];
    && s.phase.Returned?
    && (s.phase.outcome.Ok? ==> outcome == s.phase.outcome && end == s.now)
    && (s.phase.outcome.Err? ==>
          && Run(c', states', labels') && c'.start == s.now
          && var s' := states'[|states'| - 1];
          && s'.phase.Returned? && outcome == s'.phase.outcome && end == s'.now)
    && !s.phase.outcome.Abandoned? && !outcome.Abandoned?
  }

  /** The fallback starts only after the primary's whole budget, an overall error takes both budgets,
      and an answer is one given to whichever chain produced it. */
  lemma FallbackWaitsForBudget(c: Config, states: seq<State>, labels: seq<Label>,
                               c': Config, states': seq<State>, labels': seq<Label>, outcome: Outcome, end: nat)
    requires FallbackRun(c, states, labels, c', states', labels', outcome, end)
    ensures states[|states| - 1].phase.outcome.Err? ==> c'.start >= c.start + c.maxWait
    ensures outcome.Err? ==> end >= c.start + c.maxWait + c'.maxWait
    ensures outcome.Ok? ==>
              || EngineAccounting.Given(states[|states| - 1].calls, outcome.reply)
              || (states' != [] && EngineAccounting.Given(states'[|states'| - 1].calls, outcome.reply))
  {
    EngineSafety(c, states, labels, |states| - 1);
    if states[|states| - 1].phase.outcome.Ok? {
      EngineAccounting.RetryAccounting(c, states, labels, |states| - 1);
    } else {
      EngineSafety(c', states', labels', |states'| - 1);
      EngineAccounting.RetryAccounting(c', states', labels', |states'| - 1);
    }
  }
}
