/** resolve_attributed itself: the select! loop of src/upstream/hedged.rs on its mutable variables, run
    against a script of what the clock, the attempts and the scheduler do. */
module EngineLoop {
  import opened Prelude
  import opened Scripts
  import opened Engine
  import EngineAccounting
  import EngineBudget

  /** A step of the clock or of an attempt, not of the engine. */
  predicate OfEnvironment(l: Label) {
    l.Tick? || l.Begin? || l.Answer? || l.Fail?
  }

  /** A step of the transition system, if it is possible and is not the caller dropping the engine's future. */
  ghost function Taken(c: Config): (State, Label) -> Option<State> {
    (s: State, l: Label) => if CallsExist(s) && Enabled(c, s, l) && !l.Cancel? then Some(Next(c, s, l)) else None
  }

  ghost function Over(): State -> bool { (s: State) => s.phase.Returned? }

  /** The labels are those of a run to the engine's return. */
  ghost predicate Returns(c: Config, s: State, labels: seq<Label>) {
    Playable(Taken(c), Over(), s, labels)
  }

  /** Every run that ends in a return, and in which the caller does not drop the engine, is a script. */
  lemma {:induction false} EveryRunIsAScript(c: Config, states: seq<State>, labels: seq<Label>, k: nat)
    requires Run(c, states, labels) && k <= |labels|
    requires states[|labels|].phase.Returned?
    requires forall i :: 0 <= i < |labels| ==> !states[i].phase.Returned? && !labels[i].Cancel?
    ensures Returns(c, states[k], labels[k..])
    decreases |labels| - k
  {
    if k < |labels| {
      assert StepAt(c, states, labels, k);
      EveryRunIsAScript(c, states, labels, k + 1);
      assert labels[k..][0] == labels[k] && labels[k..][1..] == labels[k + 1..];
    }
  }

  lemma RunExtends(c: Config, states: seq<State>, labels: seq<Label>, l: Label, s: State)
    requires Run(c, states, labels) && Step(c, states[|labels|], l, s)
    ensures Run(c, states + [s], labels + [l])
  {
    var states', labels' := states + [s], labels + [l];
    forall k | 0 <= k < |labels'| ensures StepAt(c, states', labels', k) {
      if k < |labels| { assert StepAt(c, states, labels, k); }
    }
  }

  /** The variables of the loop, the attempts it shares with the runtime, and the script still to come. */
  class HedgedResolver {
    const config: Config
    const script: seq<Label>
    var upcoming: seq<Label>
    var now: nat
    var attempts: seq<Attempt>
    var inFlight: int
    var nextHedge: nat
    var lastSpawn: nat
    var retryAt: nat
    var lastError: Option<nat>
    var succeeded: bool
    var phase: Phase
    var hedgeTicks: nat
    var spawns: seq<Spawn>
    var calls: seq<Call>
    var charges: seq<Charge>
    ghost var states: seq<State>
    ghost var labels: seq<Label>

    function Value(): State
      reads this
    {
      State(now, attempts, inFlight, nextHedge, lastSpawn, retryAt, lastError, succeeded, phase, hedgeTicks,
            spawns, calls, charges)
    }

    /** What was done so far is a run up to the present state; and as long as the script is itself the rest of
        a run, it has been followed to the letter. */
    ghost predicate Valid()
      reads this
    {
      && Run(config, states, labels)
      && states[|labels|] == Value()
      && Follows(Taken(config), Over(), Init(config), script, labels, upcoming, Value())
    }

    constructor (config: Config, script: seq<Label>)
      ensures Valid() && this.config == config && this.script == script && phase.Running?
    {
      this.config, this.script, upcoming := config, script, script;
      now, attempts, inFlight := config.start, [Spawned], 1;
      nextHedge, lastSpawn, retryAt := config.start + config.interval, config.start, config.start;
      lastError, succeeded, phase, hedgeTicks := None, false, Running, 0;
      spawns, calls, charges := [Spawn(First, config.start)], [], [];
      states, labels := [Init(config)], [];
    }

    /** Books a step just made, and takes it off the script if it came from there. */
    method Book(l: Label, ghost s: State)
      requires Run(config, states, labels) && states[|labels|] == s && Step(config, s, l, Value())
      requires Follows(Taken(config), Over(), Init(config), script, labels, upcoming, s) && !s.phase.Returned?
      requires !l.Cancel? && (upcoming != [] ==> upcoming[0] == l)
      modifies this`states, this`labels, this`upcoming
      ensures Valid() && upcoming == if old(upcoming) == [] then [] else old(upcoming)[1..]
    {
      RunExtends(config, states, labels, l, Value());
      if upcoming != [] {
        FollowsStep(Taken(config), Over(), Init(config), script, labels, upcoming, s, Value());
        upcoming := upcoming[1..];
      } else {
        NotPlayable(Taken(config), Over(), Init(config), script, labels, upcoming, s);
      }
      states, labels := states + [Value()], labels + [l];
    }

    lemma CallsAreThere()
      requires Valid()
      ensures CallsExist(Value())
    {
      EngineAccounting.BooksAlways(config, states, labels, |labels|);
    }

    // The runtime's side

    /** The clock or an attempt moves. */
    method Move(l: Label)
      requires CallsExist(Value()) && Enabled(config, Value(), l) && (OfEnvironment(l) || l.Drop?)
      modifies this`now, this`attempts, this`calls, this`charges
      ensures Value() == Next(config, old(Value()), l)
    {
      if !l.Tick? { EngineBudget.AttemptStepFrame(config, Value(), l); }
      var s := Next(config, Value(), l);
      now, attempts, calls, charges := s.now, s.attempts, s.calls, s.charges;
    }

    /** The next item of the script: done if it is possible now, skipped if not. */
    method Play()
      requires Valid() && upcoming != [] && !phase.Returned?
      requires Enabled(config, Value(), upcoming[0]) ==>
                 OfEnvironment(upcoming[0]) || upcoming[0].Drop? || upcoming[0].Cancel?
      modifies this`upcoming, this`now, this`attempts, this`calls, this`charges, this`states, this`labels
      ensures Valid() && upcoming == old(upcoming)[1..]
    {
      var l := upcoming[0];
      CallsAreThere();
      ghost var s := Value();
      if Enabled(config, Value(), l) && !l.Cancel? {
        Move(l);
        Book(l, s);
      } else {
        NotPlayable(Taken(config), Over(), Init(config), script, labels, upcoming, s);
        upcoming := upcoming[1..];
      }
    }

    // The engine's side

    method SpawnAttempt(cause: Cause)
      modifies this`inFlight, this`lastSpawn, this`attempts, this`spawns
      ensures Value() == Launch(old(Value()), cause)
    {
      inFlight := inFlight + 1;
      lastSpawn := now;
      attempts := attempts + [Spawned];
      spawns := spawns + [Spawn(cause, now)];
    }

    method Join(i: nat)
      requires Enabled(config, Value(), Poll(i)) && Ready(config, Value()).Join?
      modifies this`inFlight, this`attempts, this`succeeded, this`phase, this`lastError, this`retryAt
      ensures Value() == PollStep(config, old(Value()), i)
    {
      inFlight := inFlight - 1;
      var result := attempts[i].result;
      attempts := attempts[i := Gone];
      if result.Some? {
        succeeded := true;
        phase := Stopping(Ok(result.value));
      } else {
        lastError := Some(i);
        if inFlight == 0 { retryAt := Max(now, lastSpawn + RETRY_FLOOR); }
      }
    }

    method HedgeTick(i: nat)
      requires Enabled(config, Value(), Poll(i)) && Ready(config, Value()).Hedged?
      modifies this`nextHedge, this`hedgeTicks, this`inFlight, this`lastSpawn, this`attempts, this`spawns
      ensures Value() == PollStep(config, old(Value()), i)
    {
      nextHedge := nextHedge + config.interval;
      hedgeTicks := hedgeTicks + 1;
      if inFlight < config.Cap() { SpawnAttempt(Hedge); }
    }

    /** One pass of the loop: the first ready branch, in the order written. */
    method Select(i: nat)
      requires Enabled(config, Value(), Poll(i))
      modifies this`nextHedge, this`hedgeTicks, this`inFlight, this`lastSpawn, this`attempts, this`spawns
      modifies this`succeeded, this`phase, this`lastError, this`retryAt
      ensures Value() == PollStep(config, old(Value()), i)
    {
      if AnyDone(Value()) && inFlight > 0 {
        Join(i);
      } else if now >= config.start + config.maxWait {
        phase := Stopping(Err(lastError));
      } else if config.interval != 0 && now >= nextHedge {
        HedgeTick(i);
      } else {
        SpawnAttempt(Retry);
      }
    }

    /** The engine's task sleeps until one of its branches is ready. When the script ends nothing more comes
        from the attempts, and the deadline wakes it. */
    method Await() returns (i: nat)
      requires Valid() && phase.Running?
      modifies this`upcoming, this`now, this`attempts, this`calls, this`charges, this`states, this`labels
      ensures Valid() && Enabled(config, Value(), Poll(i)) && |upcoming| <= old(|upcoming|)
      ensures upcoming != [] ==> upcoming[0] == Poll(i)
      ensures upcoming == [] ==> now >= config.Deadline()
    {
      while upcoming != [] && !(upcoming[0].Poll? && Enabled(config, Value(), upcoming[0]))
        invariant Valid() && phase.Running? && |upcoming| <= old(|upcoming|)
        decreases |upcoming|
      {
        Play();
      }
      if upcoming != [] { return upcoming[0].i; }
      i := AtDeadline();
    }

    /** The script is over: the clock moves on to the deadline, and whatever has finished by then is seen. */
    method AtDeadline() returns (i: nat)
      requires Valid() && phase.Running? && upcoming == []
      modifies this`upcoming, this`now, this`attempts, this`calls, this`charges, this`states, this`labels
      ensures Valid() && Enabled(config, Value(), Poll(i)) && upcoming == [] && now >= config.Deadline()
    {
      if now < config.Deadline() {
        ghost var s := Value();
        CallsAreThere();
        Move(Tick(config.Deadline()));
        Book(Tick(config.Deadline()), s);
      }
      i := 0;
      while i < |attempts| && !attempts[i].Done?
        invariant i <= |attempts| && forall j :: 0 <= j < i ==> !attempts[j].Done?
      {
        i := i + 1;
      }
    }

    /** abort_all, then join until the set is empty: attempts may still move until their futures are dropped. */
    method StopAttempts(wall: int)
      requires Valid() && phase.Stopping?
      modifies this`upcoming, this`now, this`attempts, this`calls, this`charges, this`states, this`labels, this`phase
      ensures Valid() && phase == Returned(old(phase.outcome))
    {
      while upcoming != [] && !(upcoming[0].Return? && Enabled(config, Value(), upcoming[0]))
        invariant Valid() && phase == old(phase)
        decreases |upcoming|
      {
        Play();
      }
      if upcoming == [] { DropRest(wall); }
      CallsAreThere();
      ghost var s := Value();
      phase := Returned(phase.outcome);
      Book(Return, s);
    }

    method DropRest(wall: int)
      requires Valid() && phase.Stopping? && upcoming == []
      modifies this`upcoming, this`now, this`attempts, this`calls, this`charges, this`states, this`labels
      ensures Valid() && upcoming == [] && forall j :: 0 <= j < |attempts| ==> attempts[j].Gone?
    {
      var n := |attempts|;
      for i := 0 to n
        invariant Valid() && |attempts| == n && upcoming == []
        invariant forall j :: 0 <= j < i ==> attempts[j].Gone?
      {
        if !attempts[i].Gone? {
          ghost var s := Value();
          CallsAreThere();
          EngineBudget.AttemptStepFrame(config, s, Drop(i, wall));
          Move(Drop(i, wall));
          Book(Drop(i, wall), s);
        }
      }
    }

    /** One wake-up of the loop. Either the script gets shorter, or it is over and the loop ends or is one
        attempt closer to its end. */
    method Turn()
      requires Valid() && phase.Running?
      modifies this
      ensures Valid() && !phase.Returned? && (phase.Stopping? ==> !phase.outcome.Abandoned?)
      ensures |upcoming| < old(|upcoming|)
              || (upcoming == old(upcoming) && (phase.Stopping? || 0 <= inFlight < old(inFlight)))
    {
      var i := Await();
      CallsAreThere();
      ghost var s := Value();
      Select(i);
      Book(Poll(i), s);
    }

    /** The loop and what follows it. Whatever the script, what happens is a run to the engine's return; and
        every run to a return can happen. */
    method Resolve(wall: int) returns (outcome: Outcome)
      requires Valid() && phase.Running?
      modifies this
      ensures Valid() && phase == Returned(outcome) && !outcome.Abandoned?
      ensures Returns(config, Init(config), script) ==> labels == script
      ensures outcome.Ok? ==>
                && EngineAccounting.Given(calls, outcome.reply)
                && forall i :: 0 <= i < |charges| ==> !charges[i].record.RecordTimeout?
      ensures outcome.Err? ==>
                && now >= config.start + config.maxWait
                && forall i :: 0 <= i < |calls| ==> !calls[i].fate.Cancelled?
      ensures forall i :: 0 <= i < |calls| ==> !calls[i].fate.Open?
    {
      while phase.Running?
        invariant Valid() && (phase.Stopping? ==> !phase.outcome.Abandoned?) && !phase.Returned?
        decreases |upcoming|, if phase.Running? then 1 else 0, inFlight
      {
        Turn();
      }
      StopAttempts(wall);
      outcome := phase.outcome;
      WhatReturnMeans();
    }

    lemma WhatReturnMeans()
      requires Valid() && phase.Returned?
      ensures Returns(config, Init(config), script) ==> labels == script
      ensures phase.outcome.Ok? ==>
                && EngineAccounting.Given(calls, phase.outcome.reply)
                && forall i :: 0 <= i < |charges| ==> !charges[i].record.RecordTimeout?
      ensures phase.outcome.Err? ==>
                && now >= config.start + config.maxWait
                && forall i :: 0 <= i < |calls| ==> !calls[i].fate.Cancelled?
      ensures forall i :: 0 <= i < |calls| ==> !calls[i].fate.Open?
    {
      EngineAccounting.RetryAccounting(config, states, labels, |labels|);
      EngineBudget.EngineSafety(config, states, labels, |labels|);
      FollowedToTheEnd(Taken(config), Over(), Init(config), script, labels, upcoming, Value());
      if phase.outcome.Ok? {
        forall i | 0 <= i < |charges| ensures !charges[i].record.RecordTimeout? {
          NotCharged(charges, i);
        }
      }
    }
  }

  lemma NotCharged(charges: seq<Charge>, i: nat)
    requires i < |charges|
    requires forall m: nat :: Sum(charges, EngineAccounting.ChargesOf(m, EngineAccounting.Timeout)) == 0
    ensures !charges[i].record.RecordTimeout?
  {
    var f := EngineAccounting.ChargesOf(charges[i].member, EngineAccounting.Timeout);
    SumNonNegative(charges, f);
    assert f(charges[i]) <= Sum(charges, f);
  }

  /** FallbackResolver: the primary chain, and the fallback chain only when the primary gave up, from that moment on.
      So an answer of the primary is final, and everything proved of fallback runs holds of what happens here. */
  method ResolveWithFallback(primary: Config, script: seq<Label>, fallback: Config, script': seq<Label>, wall: int)
      returns (outcome: Outcome, end: nat, ghost first: seq<State>, ghost labels: seq<Label>, ghost second: seq<State>,
               ghost labels': seq<Label>)
    ensures first != []
    ensures EngineBudget.FallbackRun(primary, first, labels, fallback.(start := first[|first| - 1].now), second,
                                     labels', outcome, end)
    ensures outcome.Err? ==> end >= primary.start + primary.maxWait + fallback.maxWait
    ensures first[|first| - 1].phase.outcome.Ok? ==> outcome == first[|first| - 1].phase.outcome && second == []
    ensures first[|first| - 1].phase.outcome.Err? ==> second != [] && second[0].now >= primary.start + primary.maxWait
  {
    var p := new HedgedResolver(primary, script);
    outcome := p.Resolve(wall);
    end, first, labels, second, labels' := p.now, p.states, p.labels, [], [];
    if outcome.Err? {
      var f := new HedgedResolver(fallback.(start := p.now), script');
      outcome := f.Resolve(wall);
      end, second, labels' := f.now, f.states, f.labels;
    }
    EngineBudget.FallbackWaitsForBudget(primary, first, labels, fallback.(start := first[|first| - 1].now), second,
                                        labels', outcome, end);
  }
}
