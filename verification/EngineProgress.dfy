/** What the retry engine does do, and when: relaunching, hedging, taking answers, trying members, charging. */
module EngineProgress {
  import opened Multiples
  import opened Prelude
  import opened Engine
  import EngineAccounting
  import opened EngineBudget
  import Group
  import Stats

  /** A turn while some attempt has finished: that attempt is joined. */
  predicate Joins(s: State, l: Label) { l.Poll? && AnyDone(s) }

  /** A step that spawns one attempt, now. */
  ghost predicate Launches(s: State, s': State, cause: Cause) {
    && s'.attempts == s.attempts + [Spawned]
    && s'.spawns == s.spawns + [Spawn(cause, s.now)]
    && s'.inFlight == s.inFlight + 1
  }

  lemma {:induction false} SomeAlive(attempts: seq<Attempt>, i: nat)
    requires i < |attempts| && !attempts[i].Gone?
    ensures Sum(attempts, Lives) > 0
  {
    SumNonNegative(attempts, Lives);
  }

  lemma {:induction false} NoneAlive(attempts: seq<Attempt>)
    requires forall i :: 0 <= i < |attempts| ==> attempts[i].Gone?
    ensures Sum(attempts, Lives) == 0
  {
    EngineAccounting.AllZero(attempts, Lives);
  }

  /** While the engine runs, a finished attempt is in flight. */
  lemma FinishedIsCounted(c: Config, s: State)
    requires Counted(c, s) && s.phase.Running? && AnyDone(s)
    ensures s.inFlight > 0
  {
    var i :| 0 <= i < |s.attempts| && s.attempts[i].Done?;
    SomeAlive(s.attempts, i);
  }

  // Relaunching

  /** A step that joins nothing and after which nothing is in flight leaves the retry variables alone. */
  lemma QuietStep(c: Config, s: State, l: Label)
    requires Counted(c, s) && CallsExist(s) && Enabled(c, s, l) && !Joins(s, l)
    requires Next(c, s, l).phase.Running? && Next(c, s, l).inFlight == 0
    ensures var s' := Next(c, s, l);
            s.phase.Running? && s.inFlight == 0 && s'.retryAt == s.retryAt && s'.lastSpawn == s.lastSpawn
  {
    LivesAtMostLength(s.attempts);
    if l.Begin? || l.Answer? || l.Fail? || l.Drop? { AttemptStepFrame(c, s, l); }
  }

  lemma JoinStep(c: Config, s: State, l: Label)
    requires Counted(c, s) && CallsExist(s) && Enabled(c, s, l) && Joins(s, l)
    requires Next(c, s, l).phase.Running? && Next(c, s, l).inFlight == 0
    ensures var s' := Next(c, s, l);
            s'.retryAt == Max(s.now, s.lastSpawn + RETRY_FLOOR) && s'.lastSpawn == s.lastSpawn
  {
    FinishedIsCounted(c, s);
  }

  /** With nothing in flight there was a last join, and the retry time comes from it. */
  lemma {:induction false} LastJoin(c: Config, states: seq<State>, labels: seq<Label>, k: nat) returns (p: nat)
    requires Run(c, states, labels) && k < |states| && states[k].phase.Running? && states[k].inFlight == 0
    ensures p < k && Joins(states[p], labels[p]) && forall q :: p < q < k ==> !Joins(states[q], labels[q])
    ensures states[k].retryAt == Max(states[p].now, states[k].lastSpawn + RETRY_FLOOR)
  {
    assert StepAt(c, states, labels, k - 1);
    assert Counted(c, states[k - 1]) by { PacedAlways(c, states, labels, k - 1); }
    if Joins(states[k - 1], labels[k - 1]) {
      p := k - 1;
      JoinStep(c, states[k - 1], labels[k - 1]);
    } else {
      QuietStep(c, states[k - 1], labels[k - 1]);
      p := LastJoin(c, states, labels, k - 1);
    }
  }

  lemma {:induction false} TimeAdvances(c: Config, states: seq<State>, labels: seq<Label>, j: nat, k: nat)
    requires Run(c, states, labels) && j <= k < |states|
    ensures states[j].now <= states[k].now
    decreases k
  {
    if j < k {
      TimeAdvances(c, states, labels, j, k - 1);
      assert StepAt(c, states, labels, k - 1);
      var s, l := states[k - 1], labels[k - 1];
      if l.Begin? || l.Answer? || l.Fail? || l.Drop? { AttemptStepFrame(c, s, l); }
    }
  }

  // Hedging

  /** The turns of the hedge timer up to moment k: turns with nothing finished, before the deadline, at or after the
      next multiple of the interval. */
  function HedgeTurns(c: Config, states: seq<State>, labels: seq<Label>, k: nat): nat
    requires k <= |labels| && |states| == |labels| + 1
  {
    if k == 0 then 0
    else
      var t := HedgeTurns(c, states, labels, k - 1);
      if labels[k - 1].Poll? && HedgeDue(c, states[k - 1], t) then t + 1 else t
  }

  predicate HedgeDue(c: Config, s: State, turns: nat) {
    && s.phase.Running? && !AnyDone(s)
    && 0 < c.interval && s.now < c.start + c.maxWait && s.now >= c.start + (turns + 1) * c.interval
  }

  /** Which branch a turn takes, in terms of the clock and the turns so far. */
  lemma BranchTaken(c: Config, s: State)
    requires Paced(c, s) && s.phase.Running?
    ensures AnyDone(s) <==> Ready(c, s).Join?
    ensures Ready(c, s).Hedged? <==> HedgeDue(c, s, s.hedgeTicks)
  {
    if AnyDone(s) { FinishedIsCounted(c, s); }
  }

  lemma TurnsCounted(c: Config, s: State, l: Label)
    requires Paced(c, s) && CallsExist(s) && Enabled(c, s, l)
    ensures Next(c, s, l).hedgeTicks
            == s.hedgeTicks + if l.Poll? && HedgeDue(c, s, s.hedgeTicks) then 1 else 0
  {
    if l.Begin? || l.Answer? || l.Fail? || l.Drop? {
      AttemptStepFrame(c, s, l);
    } else if l.Poll? {
      BranchTaken(c, s);
    }
  }

  lemma {:induction false} TicksAreTurns(c: Config, states: seq<State>, labels: seq<Label>, k: nat)
    requires Run(c, states, labels) && k < |states|
    ensures states[k].hedgeTicks == HedgeTurns(c, states, labels, k)
  {
    if k > 0 {
      TicksAreTurns(c, states, labels, k - 1);
      PacedAlways(c, states, labels, k - 1);
      assert StepAt(c, states, labels, k - 1);
      TurnsCounted(c, states[k - 1], labels[k - 1]);
    }
  }

  /** The engine hedges: with an interval, nothing finished and the deadline not reached, once the next multiple of
      the interval has come its task can run, and that turn spawns an attempt, unless eight are alive already. */
  lemma HedgeIsPrompt(c: Config, states: seq<State>, labels: seq<Label>, k: nat)
    requires Run(c, states, labels) && k < |states|
    requires HedgeDue(c, states[k], HedgeTurns(c, states, labels, k))
    ensures var s := states[k];
            && Enabled(c, s, Poll(0))
            && (if Sum(s.attempts, Lives) < 8 then Launches(s, PollStep(c, s, 0), Hedge)
                else PollStep(c, s, 0).attempts == s.attempts)
            && PollStep(c, s, 0).phase.Running?
  {
    TicksAreTurns(c, states, labels, k);
    PacedAlways(c, states, labels, k);
    BranchTaken(c, states[k]);
  }

  /** The engine retries: with every attempt gone and the deadline not reached, its task can run exactly from 50 ms
      after the last spawn on (and not before the last join, which has been), or when a hedge is due; and that turn
      spawns an attempt. */
  lemma RetryIsPrompt(c: Config, states: seq<State>, labels: seq<Label>, k: nat) returns (p: nat)
    requires Run(c, states, labels) && k < |states| && states[k].phase.Running?
    requires forall i :: 0 <= i < |states[k].attempts| ==> states[k].attempts[i].Gone?
    requires states[k].now < c.start + c.maxWait
    ensures p < k && Joins(states[p], labels[p]) && states[p].now <= states[k].now
    ensures forall q :: p < q < k ==> !Joins(states[q], labels[q])
    ensures var s := states[k];
            var hedge := HedgeDue(c, s, HedgeTurns(c, states, labels, k));
            && s.spawns != []
            && var retry := s.now >= s.spawns[|s.spawns| - 1].at + 50_000_000;
            && ((exists i :: Enabled(c, s, Poll(i))) <==> retry || hedge)
            && (retry || hedge ==> Enabled(c, s, Poll(0))
                                   && Launches(s, PollStep(c, s, 0), if hedge then Hedge else Retry))
  {
    var s := states[k];
    PacedAlways(c, states, labels, k);
    NoneAlive(s.attempts);
    TicksAreTurns(c, states, labels, k);
    BranchTaken(c, s);
    p := LastJoin(c, states, labels, k);
    TimeAdvances(c, states, labels, p, k);
  }

  // Taking answers

  /** Attempt i has finished with this reply. */
  predicate HasAnswered(s: State, i: nat, r: Reply) {
    i < |s.attempts| && s.attempts[i] == Done(Some(r))
  }

  /** A finished attempt stays so until it is joined, and joining it ends the query with its reply. */
  lemma AnswerStands(c: Config, s: State, l: Label, i: nat, r: Reply)
    requires Paced(c, s) && CallsExist(s) && Enabled(c, s, l) && s.phase.Running? && HasAnswered(s, i, r)
    ensures var s' := Next(c, s, l);
            || (s'.phase.Running? && HasAnswered(s', i, r))
            || (!s'.phase.Running? && s'.phase.outcome.Abandoned?)
            || (!s'.phase.Running? && s'.phase.outcome.Ok?)
    ensures l == Poll(i) ==> Next(c, s, l).phase == Stopping(Ok(r))
  {
    assert AnyDone(s);
    FinishedIsCounted(c, s);
    if l.Begin? || l.Answer? || l.Fail? || l.Drop? { AttemptStepFrame(c, s, l); }
  }

  ghost predicate Decided(p: Phase, o: Outcome) { !p.Running? && (p.outcome == o || p.outcome.Abandoned?) }

  /** Once decided, an outcome changes only by the caller dropping the query. */
  lemma {:induction false} OutcomeStands(c: Config, states: seq<State>, labels: seq<Label>, j: nat, k: nat)
    requires Run(c, states, labels) && j <= k < |states| && !states[j].phase.Running?
    ensures Decided(states[k].phase, states[j].phase.outcome)
    decreases k
  {
    if j < k {
      OutcomeStands(c, states, labels, j, k - 1);
      assert StepAt(c, states, labels, k - 1);
      var s, l := states[k - 1], labels[k - 1];
      if l.Begin? || l.Answer? || l.Fail? || l.Drop? { AttemptStepFrame(c, s, l); }
    }
  }

  /** An answer that arrives while the engine runs is not lost: if some attempt has finished with a reply, the query
      does not end in an error; and the turn that joins the attempt ends the query with exactly that reply. */
  lemma {:induction false} AnswerWins(c: Config, states: seq<State>, labels: seq<Label>, j: nat, k: nat,
                                      i: nat, r: Reply)
    requires Run(c, states, labels) && j <= k < |states| && states[j].phase.Running? && HasAnswered(states[j], i, r)
    ensures !states[k].phase.Running? ==> !states[k].phase.outcome.Err?
    ensures states[k].phase.Running? ==> HasAnswered(states[k], i, r)
    ensures j < k && states[k - 1].phase.Running? && labels[k - 1] == Poll(i) ==> states[k].phase == Stopping(Ok(r))
    decreases k
  {
    if j < k {
      AnswerWins(c, states, labels, j, k - 1, i, r);
      assert StepAt(c, states, labels, k - 1);
      if states[k - 1].phase.Running? {
        PacedAlways(c, states, labels, k - 1);
        AnswerStands(c, states[k - 1], labels[k - 1], i, r);
      } else {
        OutcomeStands(c, states, labels, k - 1, k);
      }
    }
  }

  /** The last turn before moment k that joined an attempt. */
  function LatestJoin(states: seq<State>, labels: seq<Label>, k: nat): (p: Option<nat>)
    requires k <= |labels| && |states| == |labels| + 1
    ensures p.Some? ==> p.value < k && Joins(states[p.value], labels[p.value])
    ensures forall q :: 0 <= q < k && (p.Some? ==> p.value < q) ==> !Joins(states[q], labels[q])
  {
    if k == 0 then None
    else if Joins(states[k - 1], labels[k - 1]) then Some(k - 1)
    else LatestJoin(states, labels, k - 1)
  }

  lemma ErrorAfter(c: Config, s: State, l: Label)
    requires Counted(c, s) && CallsExist(s) && Enabled(c, s, l) && Next(c, s, l).phase.Running?
    ensures Next(c, s, l).lastError == if Joins(s, l) then Some(l.i) else s.lastError
  {
    if l.Begin? || l.Answer? || l.Fail? || l.Drop? {
      AttemptStepFrame(c, s, l);
    } else if Joins(s, l) {
      FinishedIsCounted(c, s);
    }
  }

  lemma {:induction false} LastErrorIsLatest(c: Config, states: seq<State>, labels: seq<Label>, k: nat)
    requires Run(c, states, labels) && k < |states| && states[k].phase.Running?
    ensures var p := LatestJoin(states, labels, k);
            states[k].lastError == if p.None? then None else Some(labels[p.value].i)
  {
    if k > 0 {
      assert StepAt(c, states, labels, k - 1);
      StillRunning(c, states[k - 1], labels[k - 1]);
      LastErrorIsLatest(c, states, labels, k - 1);
      assert Counted(c, states[k - 1]) by { PacedAlways(c, states, labels, k - 1); }
      ErrorAfter(c, states[k - 1], labels[k - 1]);
    }
  }

  /** When the budget ends the query, the error carried is that of the attempt joined last, or none if no attempt had
      been joined. */
  lemma ExpiryError(c: Config, states: seq<State>, labels: seq<Label>, k: nat)
    requires Run(c, states, labels) && k < |labels| && states[k].phase.Running?
    requires states[k + 1].phase.Stopping? && states[k + 1].phase.outcome.Err?
    ensures var p := LatestJoin(states, labels, k);
            states[k + 1].phase.outcome.lastError == if p.None? then None else Some(labels[p.value].i)
  {
    LastErrorIsLatest(c, states, labels, k);
    assert StepAt(c, states, labels, k);
    var s, l := states[k], labels[k];
    if l.Begin? || l.Answer? || l.Fail? || l.Drop? { AttemptStepFrame(c, s, l); }
  }

  // Trying members

  /** An attempt gives up only when it has tried two members, or all there are, and the last of them failed. */
  lemma GivesUpExhausted(c: Config, states: seq<State>, labels: seq<Label>, k: nat, i: nat)
    requires Run(c, states, labels) && k < |labels| && i < |states[k].attempts| && i < |states[k + 1].attempts|
    requires !states[k].attempts[i].Done? && states[k + 1].attempts[i] == Done(None)
    ensures var a := states[k].attempts[i];
            || (a.Spawned? && c.members == 0 && labels[k].Begin?)
            || (a.Waiting? && labels[k].Fail? && |a.tried| == (if c.members < 2 then c.members else 2)
                && Group.Tries(a.tried, c.members))
  {
    assert StepAt(c, states, labels, k);
    var s, l := states[k], labels[k];
    EngineAccounting.BooksAlways(c, states, labels, k);
    if s.attempts[i].Waiting? { assert EngineAccounting.Owns(c, s, i); }
    if l.Begin? && l.i == i && c.members > 0 {
      Group.ChooseIsFresh(l.raw, l.roll, c.fp, []);
    } else if l.Fail? && l.i == i && |s.attempts[i].tried| < Group.TryLimit(c.members) {
      Group.ChooseIsFresh(l.raw, l.roll, c.fp, s.attempts[i].tried);
    }
  }

  /** Until then it goes on: its first poll calls a member, and a failure before the limit calls another one. */
  lemma TriesOn(c: Config, states: seq<State>, labels: seq<Label>, k: nat)
    requires Run(c, states, labels) && k < |labels| && (labels[k].Begin? || labels[k].Fail?)
    ensures var s, s', l := states[k], states[k + 1], labels[k];
            && l.i < |s.attempts| && l.i < |s'.attempts| && (l.Fail? ==> s.attempts[l.i].Waiting?)
            && var tried := if l.Begin? then [] else s.attempts[l.i].tried;
            |tried| < (if c.members < 2 then c.members else 2) ==>
              && s'.attempts[l.i].Waiting? && tried < s'.attempts[l.i].tried && |s'.attempts[l.i].tried| == |tried| + 1
              && Group.Choose(l.raw, l.roll, c.fp, tried) == Some(s'.attempts[l.i].tried[|tried|])
              && |s'.calls| == |s.calls| + 1
              && s'.calls[|s.calls|] == Call(s'.attempts[l.i].tried[|tried|], Open)
  {
    assert StepAt(c, states, labels, k);
    var s, l := states[k], labels[k];
    EngineAccounting.BooksAlways(c, states, labels, k);
    if l.Fail? { assert EngineAccounting.Owns(c, s, l.i); }
    var tried := if l.Begin? then [] else s.attempts[l.i].tried;
    if |tried| < Group.TryLimit(c.members) { Group.ChooseIsFresh(l.raw, l.roll, c.fp, tried); }
  }

  // Charging

  /** The record a step makes, and on whom: an answer its latency, an error a soft failure, a dropped call a timeout
      unless the query has succeeded; anything else nothing. */
  lemma StepCharges(c: Config, states: seq<State>, labels: seq<Label>, k: nat)
    requires Run(c, states, labels) && k < |labels|
    ensures var s, s', l := states[k], states[k + 1], labels[k];
            var waiting := (l.Answer? || l.Fail? || l.Drop?) && l.i < |s.attempts| && s.attempts[l.i].Waiting?;
            && (waiting ==> s.attempts[l.i].tried != [])
            && var member := if waiting then s.attempts[l.i].tried[|s.attempts[l.i].tried| - 1] else 0;
            s'.charges == s.charges +
              if l.Answer? then [Charge(member, Stats.RecordSuccess(l.latency, l.wall))]
              else if l.Fail? then [Charge(member, Stats.RecordSoftFail)]
              else if l.Drop? && waiting && !s.succeeded then [Charge(member, Stats.RecordTimeout(l.wall))]
              else []
  {
    assert StepAt(c, states, labels, k);
    var s, l := states[k], labels[k];
    EngineAccounting.BooksAlways(c, states, labels, k);
    if (l.Answer? || l.Fail? || l.Drop?) && s.attempts[l.i].Waiting? { assert EngineAccounting.Owns(c, s, l.i); }
  }
}
