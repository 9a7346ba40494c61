/** The batching history worker: run_store_worker_with_interval in src/dashboard/store.rs.

    A transition system over the awaits of the loop; producers, the shutdown signal and the timer
    act at any point. */
module Worker {
  import opened Prelude

  const MAX_BATCH_SIZE: nat := 128

  type Event = nat

  datatype Mode =
    | Selecting                                   // at the select!
    | AfterClose                                  // in recv() after close()
    | Batching(events: seq<Event>)                // in timeout_at(deadline, recv())
    | Collected(events: seq<Event>, timer: bool)  // the block_on returned
    | Exited(timer: bool)

  /** `closed` is Receiver::is_closed; `finished` means additionally that no send is still under way, which
      is when recv() on an empty queue returns None. */
  datatype State = State(queue: seq<Event>, accepted: seq<Event>, closed: bool, finished: bool,
                         shutdownReceived: bool, mode: Mode, batches: seq<seq<Event>>)

  const INIT := State([], [], false, false, false, Selecting, [])

  datatype Label =
    | Arrive(event: Event)  // a producer's event is accepted
    | SendersGone           // the last sender is dropped
    | LastSendDone          // after close(), the last send under way is over
    | RecvFirst             // select!: receiver.recv()
    | Shutdown              // select!: the shutdown signal
    | RecvAfterClose
    | CleanupTimer          // select!: the cleanup timer
    | RecvMore              // another event within the batch wait
    | BatchEnd              // full, timed out, or recv() returned None
    | Write                 // insert_events, cleanup if due, and the exit test

  predicate Enabled(s: State, l: Label) {
    match l
    case Arrive(_) => !s.finished && !s.mode.Exited?
    case SendersGone => true
    case LastSendDone => s.closed
    case RecvFirst => s.mode.Selecting? && (s.queue != [] || s.finished)
    case Shutdown => s.mode.Selecting? && !s.shutdownReceived
    case RecvAfterClose => s.mode.AfterClose? && (s.queue != [] || s.finished)
    case CleanupTimer => s.mode.Selecting?
    case RecvMore => s.mode.Batching? && |s.mode.events| < MAX_BATCH_SIZE && s.queue != []
    case BatchEnd => s.mode.Batching?
    case Write => s.mode.Collected?
  }

  /** recv() once it is ready. */
  function Receive(s: State): State {
    if s.queue != [] then s.(queue := s.queue[1..], mode := Batching([s.queue[0]]))
    else s.(mode := Collected([], false))
  }

  function Next(s: State, l: Label): State
    requires Enabled(s, l)
  {
    match l
    case Arrive(e) => s.(queue := s.queue + [e], accepted := s.accepted + [e])
    case SendersGone => s.(closed := true, finished := true)
    case LastSendDone => s.(finished := true)
    case RecvFirst => Receive(s)
    case Shutdown => s.(shutdownReceived := true, closed := true, mode := AfterClose)
    case RecvAfterClose => Receive(s)
    case CleanupTimer => s.(mode := Collected([], true))
    case RecvMore => s.(queue := s.queue[1..], mode := Batching(s.mode.events + [s.queue[0]]))
    case BatchEnd => s.(mode := Collected(s.mode.events, false))
    case Write =>
      var events := s.mode.events;
      if events != [] then s.(batches := s.batches + [events], mode := Selecting)
      else s.(mode := if s.closed then Exited(s.mode.timer) else Selecting)
  }

  ghost predicate Run(states: seq<State>, labels: seq<Label>) {
    && |states| == |labels| + 1 && states[0] == INIT
    && forall k :: 0 <= k < |labels| ==> StepAt(states, labels, k)
  }

  ghost predicate StepAt(states: seq<State>, labels: seq<Label>, k: nat)
    requires k < |labels| && |states| == |labels| + 1
  {
    Enabled(states[k], labels[k]) && states[k + 1] == Next(states[k], labels[k])
  }

  function Flatten(batches: seq<seq<Event>>): seq<Event> {
    if batches == [] then [] else Flatten(batches[..|batches| - 1]) + batches[|batches| - 1]
  }

  function InHand(m: Mode): seq<Event> {
    if m.Batching? || m.Collected? then m.events else []
  }

  /** Nothing is lost, repeated or reordered: written, in hand and queued are together what was accepted. */
  ghost predicate Conserved(s: State) {
    && Flatten(s.batches) + InHand(s.mode) + s.queue == s.accepted
    && BatchSizes(s.batches)
    && |InHand(s.mode)| <= MAX_BATCH_SIZE
    && (s.mode.Batching? ==> s.mode.events != [])
    && (s.mode.Collected? && s.mode.timer ==> s.mode.events == [])
    && (s.mode.Collected? && !s.mode.timer && s.mode.events == [] ==> s.finished && s.queue == [])
    && (s.mode.Exited? && !s.mode.timer ==> s.finished && s.queue == [])
    && (s.mode.Exited? || s.mode.AfterClose? || s.finished ==> s.closed)
  }

  lemma FlattenPush(batches: seq<seq<Event>>, b: seq<Event>)
    ensures Flatten(batches + [b]) == Flatten(batches) + b
  {
    assert (batches + [b])[..|batches|] == batches;
  }

  lemma ConservedKept(s: State, l: Label)
    requires Conserved(s) && Enabled(s, l)
    ensures Conserved(Next(s, l))
  {
    match l
    case Arrive(e) =>
      var f := Flatten(s.batches) + InHand(s.mode);
      assert f + (s.queue + [e]) == f + s.queue + [e];
    case RecvFirst => ReceiveConserves(s);
    case RecvAfterClose => ReceiveConserves(s);
    case RecvMore => RecvMoreConserves(s);
    case Write => WriteConserves(s);
    case SendersGone =>
    case LastSendDone =>
    case Shutdown =>
    case CleanupTimer =>
    case BatchEnd =>
  }

  lemma RecvMoreConserves(s: State)
    requires Conserved(s) && Enabled(s, RecvMore)
    ensures Conserved(Next(s, RecvMore))
  {
    var f, q, events := Flatten(s.batches), s.queue, s.mode.events;
    assert q == [q[0]] + q[1..];
    assert f + (events + [q[0]]) + q[1..] == f + events + q;
  }

  ghost predicate BatchSizes(batches: seq<seq<Event>>) {
    forall i :: 0 <= i < |batches| ==> 1 <= |batches[i]| <= 128
  }

  lemma BatchSizesPush(batches: seq<seq<Event>>, b: seq<Event>)
    requires BatchSizes(batches) && 1 <= |b| <= 128
    ensures BatchSizes(batches + [b])
  {
  }

  lemma WriteConserves(s: State)
    requires Conserved(s) && Enabled(s, Write)
    ensures Conserved(Next(s, Write))
  {
    var f, events := Flatten(s.batches), s.mode.events;
    NothingInHand(f, events, s.queue);
    if events != [] {
      FlattenPush(s.batches, events);
      BatchSizesPush(s.batches, events);
    }
  }

  lemma NothingInHand(f: seq<Event>, events: seq<Event>, queue: seq<Event>)
    ensures f + events + [] + queue == f + events + queue
    ensures events == [] ==> f + [] + queue == f + events + queue
  {
    assert f + events + [] == f + events;
  }

  lemma ReceiveConserves(s: State)
    requires Conserved(s) && InHand(s.mode) == [] && (s.queue != [] || s.finished)
    requires s.mode.Selecting? || s.mode.AfterClose?
    ensures Conserved(Receive(s))
  {
    var f, q := Flatten(s.batches), s.queue;
    if q != [] {
      assert q == [q[0]] + q[1..];
      assert f + [q[0]] + q[1..] == f + [] + q;
    }
  }

  lemma {:induction false} ConservedAlways(states: seq<State>, labels: seq<Label>, k: nat)
    requires Run(states, labels) && k < |states|
    ensures Conserved(states[k])
  {
    if k > 0 {
      ConservedAlways(states, labels, k - 1);
      assert StepAt(states, labels, k - 1);
      ConservedKept(states[k - 1], labels[k - 1]);
    }
  }

  /** On every run, at every moment: each batch has 1 to 128 events, and the batches one after another
      are a prefix of the accepted events, in order and without repetition. */
  lemma BatchesArePrefix(states: seq<State>, labels: seq<Label>, k: nat)
    requires Run(states, labels) && k < |states|
    ensures var s := states[k];
            && Flatten(s.batches) <= s.accepted
            && BatchSizes(s.batches)
  {
    ConservedAlways(states, labels, k);
  }

  /** While events wait, a batch takes more exactly until it holds 128; and without waiting ones it cannot. */
  lemma BatchesFillUp(states: seq<State>, labels: seq<Label>, k: nat)
    requires Run(states, labels) && k < |states| && states[k].mode.Batching?
    ensures Enabled(states[k], RecvMore) <==> states[k].queue != [] && |states[k].mode.events| < 128
    ensures Enabled(states[k], RecvMore) ==>
              var s' := Next(states[k], RecvMore);
              && s'.mode.Batching? && s'.mode.events == states[k].mode.events + [states[k].queue[0]]
              && s'.queue == states[k].queue[1..]
  {
  }

  // What decides whether everything was written when the worker exits

  predicate OfWorker(l: Label) {
    !(l.Arrive? || l.SendersGone? || l.LastSendDone?)
  }

  predicate Selects(l: Label) {
    l.RecvFirst? || l.Shutdown? || l.CleanupTimer?
  }

  /** No select! is decided from state j on, up to state k. */
  ghost predicate NoSelect(labels: seq<Label>, j: nat, k: nat) {
    k <= |labels| && forall i :: j <= i < k ==> !Selects(labels[i])
  }

  ghost predicate Drained(s: State) { Flatten(s.batches) == s.accepted }

  /** The events accepted after a. */
  function Later(a: State, s: State): seq<Event>
    requires |a.accepted| <= |s.accepted|
  {
    s.accepted[|a.accepted|..]
  }

  /** How s relates to the state a in which the timer branch was last chosen: nothing was written and nothing
      taken from the queue since. */
  ghost predicate SinceTimer(a: State, s: State) {
    && a.accepted <= s.accepted
    && s.queue == a.queue + Later(a, s)
    && s.batches == a.batches
    && (a.closed ==> s.closed)
    && (s.mode == Collected([], true) || s.mode == Exited(true) || (s.mode == Selecting && !a.closed))
  }

  lemma SinceTimerKept(a: State, s: State, l: Label)
    requires SinceTimer(a, s) && Enabled(s, l) && !Selects(l)
    ensures SinceTimer(a, Next(s, l))
  {
    if l.Arrive? {
      var s' := Next(s, l);
      assert Later(a, s') == Later(a, s) + [l.event];
      assert a.queue + (Later(a, s) + [l.event]) == s.queue + [l.event];
    }
  }

  lemma {:induction false} AfterTimer(states: seq<State>, labels: seq<Label>, j: nat, k: nat)
    requires Run(states, labels) && j < k < |states| && labels[j].CleanupTimer? && NoSelect(labels, j + 1, k)
    ensures SinceTimer(states[j], states[k])
    decreases k
  {
    assert StepAt(states, labels, k - 1);
    if k == j + 1 {
      assert states[j].queue + [] == states[j].queue;
    } else {
      AfterTimer(states, labels, j, k - 1);
      SinceTimerKept(states[j], states[k - 1], labels[k - 1]);
    }
  }

  /** An exit through the timer branch chosen at j: lost are exactly the events queued at that moment and those
      accepted since. So it drains if and only if there were none of either. */
  lemma TimerExitDrains(states: seq<State>, labels: seq<Label>, j: nat, k: nat)
    requires Run(states, labels) && j < k < |states| && states[k].mode.Exited?
    requires labels[j].CleanupTimer? && NoSelect(labels, j + 1, k)
    ensures states[j].accepted <= states[k].accepted
    ensures states[k].accepted == Flatten(states[k].batches) + (states[j].queue + Later(states[j], states[k]))
    ensures Drained(states[k]) <==> states[j].queue == [] && states[k].accepted == states[j].accepted
  {
    AfterTimer(states, labels, j, k);
    ConservedAlways(states, labels, k);
    var a, s := states[j], states[k];
    var f, lost := Flatten(s.batches), a.queue + Later(a, s);
    assert f + [] + s.queue == f + lost;
    assert |s.accepted| == |f| + |lost|;
    if lost == [] { assert f + lost == f; }
    if s.accepted == a.accepted { assert Later(a, s) == []; }
    if Later(a, s) == [] { assert s.accepted == a.accepted + Later(a, s); }
  }

  /** Once the channel is closed the timer branch is fatal: whatever the schedule, from there on the worker only
      exits, at its next step, and what was queued then and arrives until then is never written. */
  lemma {:induction false} TimerWhileClosedIsFatal(states: seq<State>, labels: seq<Label>, j: nat, k: nat)
    requires Run(states, labels) && j < k < |states| && labels[j].CleanupTimer? && states[j].closed
    ensures states[k].mode == Exited(true) || (states[k].mode == Collected([], true) && Enabled(states[k], Write))
    ensures states[k].mode.Exited? <==> exists i :: j < i < k && OfWorker(labels[i])
    ensures states[k].batches == states[j].batches && states[j].accepted <= states[k].accepted
    ensures states[k].queue == states[j].queue + Later(states[j], states[k])
    ensures NoSelect(labels, j + 1, k)
    decreases k
  {
    assert StepAt(states, labels, k - 1);
    if k > j + 1 {
      TimerWhileClosedIsFatal(states, labels, j, k - 1);
      var l := labels[k - 1];
      assert OfWorker(l) ==> l.Write?;
    }
    AfterTimer(states, labels, j, k);
  }

  /** The select! that led to a state off the select!. */
  lemma {:induction false} LastSelect(states: seq<State>, labels: seq<Label>, k: nat) returns (j: nat)
    requires Run(states, labels) && k < |states| && !states[k].mode.Selecting?
    ensures j < k && Selects(labels[j]) && NoSelect(labels, j + 1, k)
  {
    assert StepAt(states, labels, k - 1);
    if Selects(labels[k - 1]) { j := k - 1; } else { j := LastSelect(states, labels, k - 1); }
  }

  /** The exit remembers which branch it came from. */
  lemma {:induction false} ExitRemembers(states: seq<State>, labels: seq<Label>, j: nat, k: nat)
    requires Run(states, labels) && j < k < |states| && Selects(labels[j]) && NoSelect(labels, j + 1, k)
    ensures states[k].mode.Collected? || states[k].mode.Exited? ==>
              (states[k].mode.timer <==> labels[j].CleanupTimer?)
    ensures states[k].mode.Batching? || states[k].mode.AfterClose? ==> !labels[j].CleanupTimer?
    decreases k
  {
    assert StepAt(states, labels, k - 1);
    if k > j + 1 { ExitRemembers(states, labels, j, k - 1); }
  }

  /** For every exit, in terms of the last select!, taken at j. Through recv() everything has been written and
      nothing more can come. Through the timer everything has been written if and only if the queue was empty at
      that moment and nothing was accepted between it and the exit; when no send was under way any more, if and
      only if the queue was empty. */
  lemma ExitDrains(states: seq<State>, labels: seq<Label>, k: nat) returns (j: nat)
    requires Run(states, labels) && k < |states| && states[k].mode.Exited?
    ensures j < k && Selects(labels[j]) && NoSelect(labels, j + 1, k)
    ensures Drained(states[k]) <==>
              (labels[j].CleanupTimer? ==> states[j].queue == [] && states[k].accepted == states[j].accepted)
    ensures labels[j].CleanupTimer? && states[j].finished ==> (Drained(states[k]) <==> states[j].queue == [])
    ensures !labels[j].CleanupTimer? ==> states[k].finished
  {
    j := LastSelect(states, labels, k);
    ExitRemembers(states, labels, j, k);
    ConservedAlways(states, labels, k);
    if labels[j].CleanupTimer? {
      TimerExitDrains(states, labels, j, k);
      if states[j].finished { FinishedIsFinal(states, labels, j, k); }
    } else {
      var f := Flatten(states[k].batches);
      assert f + [] + [] == f;
    }
  }

  /** Once no send is under way, nothing is accepted any more. */
  lemma {:induction false} FinishedIsFinal(states: seq<State>, labels: seq<Label>, j: nat, k: nat)
    requires Run(states, labels) && j <= k < |states| && states[j].finished
    ensures states[k].finished && states[k].accepted == states[j].accepted
    decreases k
  {
    if j < k {
      FinishedIsFinal(states, labels, j, k - 1);
      assert StepAt(states, labels, k - 1);
    }
  }

  /** The timer exit can lose events: closed, one event queued, and the timer branch chosen. */
  lemma TimerExitCanLoseEvents(e: Event) returns (states: seq<State>, labels: seq<Label>)
    ensures Run(states, labels)
    ensures var s := states[|states| - 1]; s.mode.Exited? && s.closed && Flatten(s.batches) == [] && s.accepted == [e]
  {
    var s0 := INIT;
    var s1 := Next(s0, Arrive(e));
    var s2 := Next(s1, SendersGone);
    var s3 := Next(s2, CleanupTimer);
    var s4 := Next(s3, Write);
    states, labels := [s0, s1, s2, s3, s4], [Arrive(e), SendersGone, CleanupTimer, Write];
    forall k | 0 <= k < |labels| ensures StepAt(states, labels, k) {
      if k == 0 {} else if k == 1 {} else if k == 2 {} else {}
    }
  }

  // Termination after shutdown

  function ModeRank(m: Mode): nat {
    match m
    case Batching(_) => 6
    case Collected(events, _) => if events != [] then 5 else 1
    case Selecting => 4
    case AfterClose => 3
    case Exited(_) => 0
  }

  function Fuel(s: State): nat {
    8 * |s.queue| + ModeRank(s.mode)
  }

  function Steps(l: Label): int { if OfWorker(l) then 1 else 0 }

  lemma WorkerStepBurns(s: State, l: Label)
    requires Conserved(s) && Enabled(s, l) && s.finished
    ensures Fuel(Next(s, l)) + Steps(l) <= Fuel(s)
  {
  }

  /** After shutdown, with no send under way, the worker takes at most eight steps per queued event and six
      more; and until it has exited it can always take one. */
  lemma ShutdownTerminates(states: seq<State>, labels: seq<Label>, j: nat, k: nat)
    requires Run(states, labels) && j <= k < |states| && states[j].finished
    ensures Sum(labels[j..k], Steps) <= 8 * |states[j].queue| + 6
    ensures !states[k].mode.Exited? ==> exists l :: OfWorker(l) && Enabled(states[k], l)
  {
    StepsBurn(states, labels, j, k);
    FinishedIsFinal(states, labels, j, k);
    var s := states[k];
    match s.mode
    case Selecting => assert Enabled(s, RecvFirst);
    case AfterClose => assert Enabled(s, RecvAfterClose);
    case Batching(_) => assert Enabled(s, BatchEnd);
    case Collected(_, _) => assert Enabled(s, Write);
    case Exited(_) =>
  }

  lemma {:induction false} StepsBurn(states: seq<State>, labels: seq<Label>, j: nat, k: nat)
    requires Run(states, labels) && j <= k < |states| && states[j].finished
    ensures states[k].finished && Sum(labels[j..k], Steps) + Fuel(states[k]) <= Fuel(states[j])
    decreases k
  {
    if j < k {
      StepsBurn(states, labels, j, k - 1);
      StepBurnsAt(states, labels, k - 1);
      SumNext(labels, j, k - 1, Steps);
    }
  }

  lemma StepBurnsAt(states: seq<State>, labels: seq<Label>, k: nat)
    requires Run(states, labels) && k < |labels| && states[k].finished
    ensures states[k + 1].finished && Fuel(states[k + 1]) + Steps(labels[k]) <= Fuel(states[k])
  {
    ConservedAlways(states, labels, k);
    assert StepAt(states, labels, k);
    WorkerStepBurns(states[k], labels[k]);
  }
}
