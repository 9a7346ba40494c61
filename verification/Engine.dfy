/** The budget-scoped retry engine as a transition system: src/upstream/hedged.rs over src/upstream/group.rs.

    Attempts are spawned futures that run between the engine's polls, and also while the engine is
    already stopping them. Time is in nanoseconds and is read once per step. */
module Engine {
  import opened Prelude
  import opened Selector
  import Group
  import Stats

  const MAX_IN_FLIGHT: nat := 8
  const RETRY_FLOOR: nat := 50_000_000

  type Message = Group.Message

  datatype Config = Config(interval: nat, maxWait: nat, start: nat, members: nat, fp: Arithmetic) {
    function Deadline(): nat { start + maxWait }
    function Cap(): nat { if interval == 0 then 1 else MAX_IN_FLIGHT }
  }

  datatype Reply = Reply(message: Message, member: nat)

  /** A spawned attempt in the JoinSet. Gone means joined or dropped. */
  datatype Attempt =
    | Spawned
    | Waiting(tried: seq<nat>, call: nat)
    | Done(result: Option<Reply>)
    | Gone

  datatype Fate = Open | Succeeded(message: Message) | SoftFailed | TimedOut | Cancelled

  /** One call of a member's resolver, started by some attempt. */
  datatype Call = Call(member: nat, fate: Fate)

  datatype Cause = First | Hedge | Retry
  datatype Spawn = Spawn(cause: Cause, at: nat)

  datatype Outcome = Ok(reply: Reply) | Err(lastError: Option<nat>) | Abandoned
  datatype Phase = Running | Stopping(outcome: Outcome) | Returned(outcome: Outcome)

  /** A statistics update made on behalf of this query. */
  datatype Charge = Charge(member: nat, record: Stats.Record)

  /** The engine's variables, its attempts, and the history of calls, spawns and charges. */
  datatype State = State(
    now: nat,
    attempts: seq<Attempt>,
    inFlight: int,
    nextHedge: nat,
    lastSpawn: nat,
    retryAt: nat,
    lastError: Option<nat>,
    succeeded: bool,
    phase: Phase,
    hedgeTicks: nat,
    spawns: seq<Spawn>,
    calls: seq<Call>,
    charges: seq<Charge>)

  function Init(c: Config): State {
    State(c.start, [Spawned], 1, c.start + c.interval, c.start, c.start, None, false, Running, 0,
          [Spawn(First, c.start)], [], [])
  }

  datatype Label =
    | Tick(to: nat)                                            // the clock moves
    | Begin(i: nat, raw: seq<Weight>, roll: real)              // first poll of an attempt
    | Answer(i: nat, message: Message, latency: real, wall: int)
    | Fail(i: nat, raw: seq<Weight>, roll: real)               // the member errors; maybe a second one is tried
    | Poll(i: nat)                                             // one turn of the engine's select!
    | Drop(i: nat, wall: int)                                  // an aborted attempt's future is dropped
    | Cancel                                                   // the caller drops the engine's own future
    | Return                                                   // stop_attempts has seen every attempt end

  datatype Branch = Join | Expire | Hedged | Retried | Pending

  predicate AnyDone(s: State) {
    exists i :: 0 <= i < |s.attempts| && s.attempts[i].Done?
  }

  /** The biased select!: join, then deadline, then hedge, then retry. */
  function Ready(c: Config, s: State): Branch {
    if AnyDone(s) && s.inFlight > 0 then Join
    else if s.now >= c.Deadline() then Expire
    else if c.interval != 0 && s.now >= s.nextHedge then Hedged
    else if s.inFlight == 0 && s.now >= s.retryAt then Retried
    else Pending
  }

  predicate Alive(a: Attempt) { !a.Gone? }

  predicate Enabled(c: Config, s: State, l: Label) {
    match l
    case Tick(to) => to >= s.now
    case Begin(i, raw, _) => i < |s.attempts| && s.attempts[i].Spawned? && |raw| == c.members
    case Answer(i, _, _, _) => i < |s.attempts| && s.attempts[i].Waiting?
    case Fail(i, raw, _) => i < |s.attempts| && s.attempts[i].Waiting? && |raw| == c.members
    case Poll(i) =>
      && s.phase.Running?
      && Ready(c, s) != Pending
      && (Ready(c, s) == Join ==> i < |s.attempts| && s.attempts[i].Done?)
    case Drop(i, _) => !s.phase.Running? && i < |s.attempts| && Alive(s.attempts[i])
    case Cancel => !s.phase.Returned? && s.phase != Stopping(Abandoned)
    case Return => s.phase.Stopping? && forall j :: 0 <= j < |s.attempts| ==> s.attempts[j].Gone?
  }

  /** The attempt calls a member it has not tried. With no member left to choose it ends in error. */
  function CallNext(c: Config, s: State, i: nat, tried: seq<nat>, raw: seq<Weight>, roll: real): State
    requires i < |s.attempts|
  {
    var choice := if |tried| < Group.TryLimit(c.members) then Group.Choose(raw, roll, c.fp, tried) else None;
    if choice.None? then s.(attempts := s.attempts[i := Done(None)])
    else s.(attempts := s.attempts[i := Waiting(tried + [choice.value], |s.calls|)],
            calls := s.calls + [Call(choice.value, Open)])
  }

  /** The attempt's current call ends with the given fate, charged as the guard and try_member do;
      the attempt is left between calls. */
  function EndCall(s: State, i: nat, fate: Fate, reply: Group.Reply): State
    requires i < |s.attempts| && s.attempts[i].Waiting? && s.attempts[i].call < |s.calls|
  {
    var call := s.attempts[i].call;
    var member := s.calls[call].member;
    var charge := Group.Charge(reply, Some(s.succeeded));
    s.(attempts := s.attempts[i := Done(None)],
       calls := s.calls[call := Call(member, fate)],
       charges := s.charges + if charge.None? then [] else [Charge(member, charge.value)])
  }

  function Launch(s: State, cause: Cause): State {
    s.(inFlight := s.inFlight + 1, lastSpawn := s.now, attempts := s.attempts + [Spawned],
       spawns := s.spawns + [Spawn(cause, s.now)])
  }

  function Max(a: nat, b: nat): nat { if a < b then b else a }

  /** One turn of the select! loop. */
  function PollStep(c: Config, s: State, i: nat): State
    requires Enabled(c, s, Poll(i))
  {
    match Ready(c, s)
    case Join =>
      var result := s.attempts[i].result;
      var s' := s.(inFlight := s.inFlight - 1, attempts := s.attempts[i := Gone]);
      if result.Some? then s'.(succeeded := true, phase := Stopping(Ok(result.value)))
      else s'.(lastError := Some(i),
               retryAt := if s'.inFlight == 0 then Max(s.now, s.lastSpawn + RETRY_FLOOR) else s.retryAt)
    case Expire => s.(phase := Stopping(Err(s.lastError)))
    case Hedged =>
      var s' := s.(nextHedge := s.nextHedge + c.interval, hedgeTicks := s.hedgeTicks + 1);
      if s.inFlight < c.Cap() then Launch(s', Hedge) else s'
    case Retried => Launch(s, Retry)
    case Pending => s
  }

  ghost predicate CallsExist(s: State) {
    forall i :: 0 <= i < |s.attempts| && s.attempts[i].Waiting? ==> s.attempts[i].call < |s.calls|
  }

  function Next(c: Config, s: State, l: Label): State
    requires Enabled(c, s, l) && CallsExist(s)
  {
    match l
    case Tick(to) => s.(now := to)
    case Begin(i, raw, roll) => CallNext(c, s, i, [], raw, roll)
    case Answer(i, message, latency, wall) =>
      var s' := EndCall(s, i, Succeeded(message), Group.Answered(message, latency, wall));
      s'.(attempts := s'.attempts[i := Done(Some(Reply(message, s.calls[s.attempts[i].call].member)))])
    case Fail(i, raw, roll) =>
      CallNext(c, EndCall(s, i, SoftFailed, Group.Errored), i, s.attempts[i].tried, raw, roll)
    case Poll(i) => PollStep(c, s, i)
    case Drop(i, wall) =>
      var s' := if s.attempts[i].Waiting?
                then EndCall(s, i, if s.succeeded then Cancelled else TimedOut, Group.Dropped(wall))
                else s;
      s'.(attempts := s'.attempts[i := Gone])
    case Cancel => s.(phase := Stopping(Abandoned))
    case Return => s.(phase := Returned(s.phase.outcome))
  }

  /** A run: every state follows from the one before by an enabled step. */
  ghost predicate Run(c: Config, states: seq<State>, labels: seq<Label>) {
    && |states| == |labels| + 1
    && states[0] == Init(c)
    && forall k :: 0 <= k < |labels| ==> StepAt(c, states, labels, k)
  }

  ghost predicate StepAt(c: Config, states: seq<State>, labels: seq<Label>, k: nat)
    requires k < |labels| && |states| == |labels| + 1
  {
    Step(c, states[k], labels[k], states[k + 1])
  }

  ghost predicate Step(c: Config, s: State, l: Label, s': State) {
    Enabled(c, s, l) && CallsExist(s) && s' == Next(c, s, l)
  }
}
