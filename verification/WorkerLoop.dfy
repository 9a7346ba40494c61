/** run_store_worker_with_interval itself: the loop of src/dashboard/store.rs on its channel and its local
    variables, run against a script of what the producers, the timers and the scheduler do. */
module WorkerLoop {
  import opened Prelude
  import opened Scripts
  import opened Worker

  ghost function Taken(): (State, Label) -> Option<State> {
    (s: State, l: Label) => if Enabled(s, l) then Some(Next(s, l)) else None
  }

  ghost function Over(): State -> bool { (s: State) => s.mode.Exited? }

  /** The labels are those of a run to the worker's exit. */
  ghost predicate Exits(s: State, labels: seq<Label>) {
    Playable(Taken(), Over(), s, labels)
  }

  /** Every run that ends with the worker's exit is a script. */
  lemma {:induction false} EveryRunIsAScript(states: seq<State>, labels: seq<Label>, k: nat)
    requires Run(states, labels) && k <= |labels| && states[|labels|].mode.Exited?
    requires forall i :: 0 <= i < |labels| ==> !states[i].mode.Exited?
    ensures Exits(states[k], labels[k..])
    decreases |labels| - k
  {
    if k < |labels| {
      assert StepAt(states, labels, k);
      EveryRunIsAScript(states, labels, k + 1);
      assert labels[k..][0] == labels[k] && labels[k..][1..] == labels[k + 1..];
    }
  }

  lemma RunExtends(states: seq<State>, labels: seq<Label>, l: Label)
    requires Run(states, labels) && Enabled(states[|labels|], l)
    ensures Run(states + [Next(states[|labels|], l)], labels + [l])
  {
    var states', labels' := states + [Next(states[|labels|], l)], labels + [l];
    forall k | 0 <= k < |labels'| ensures StepAt(states', labels', k) {
      if k < |labels| { assert StepAt(states, labels, k); }
    }
  }

  /** The channel, the worker's variables, and the script still to come. `mode` is where the worker stands. */
  class StoreWorker {
    const script: seq<Label>
    var upcoming: seq<Label>
    var queue: seq<Event>
    var closed: bool
    var finished: bool
    var shutdownReceived: bool
    var batches: seq<seq<Event>>
    ghost var accepted: seq<Event>
    ghost var mode: Mode
    ghost var states: seq<State>
    ghost var labels: seq<Label>

    ghost function Value(): State
      reads this
    {
      State(queue, accepted, closed, finished, shutdownReceived, mode, batches)
    }

    /** What was done so far is a run up to the present state, and a script that is itself a run to the exit has
        been followed to the letter. */
    ghost predicate Valid()
      reads this
    {
      && Run(states, labels)
      && states[|labels|] == Value()
      && Follows(Taken(), Over(), INIT, script, labels, upcoming, Value())
    }

    constructor (script: seq<Label>)
      ensures Valid() && this.script == script && mode.Selecting?
    {
      this.script, upcoming := script, script;
      queue, closed, finished, shutdownReceived, batches := [], false, false, false, [];
      accepted, mode, states, labels := [], Selecting, [INIT], [];
    }

    /** Books a step just made, and takes it off the script if it came from there. */
    method Book(l: Label, ghost s: State)
      requires Run(states, labels) && states[|labels|] == s && Enabled(s, l) && Value() == Next(s, l)
      requires Follows(Taken(), Over(), INIT, script, labels, upcoming, s) && !s.mode.Exited?
      requires upcoming != [] ==> upcoming[0] == l
      modifies this`states, this`labels, this`upcoming
      ensures Valid() && upcoming == if old(upcoming) == [] then [] else old(upcoming)[1..]
    {
      RunExtends(states, labels, l);
      if upcoming != [] {
        FollowsStep(Taken(), Over(), INIT, script, labels, upcoming, s, Value());
        upcoming := upcoming[1..];
      } else {
        NotPlayable(Taken(), Over(), INIT, script, labels, upcoming, s);
      }
      states, labels := states + [Value()], labels + [l];
    }

    /** Passes over an item of the script that is impossible now. */
    method Skip()
      requires Valid() && !mode.Exited? && upcoming != [] && !Enabled(Value(), upcoming[0])
      modifies this`upcoming
      ensures Valid() && upcoming == old(upcoming)[1..]
    {
      NotPlayable(Taken(), Over(), INIT, script, labels, upcoming, Value());
      upcoming := upcoming[1..];
    }

    // The producers' side

    /** Producers act until the worker is to make its next step. */
    method Settle()
      requires Valid() && !mode.Exited?
      modifies this`upcoming, this`queue, this`closed, this`finished, this`accepted, this`states, this`labels
      ensures Valid() && (upcoming != [] ==> OfWorker(upcoming[0])) && (old(closed) ==> closed)
      ensures |upcoming| < old(|upcoming|) || (upcoming == old(upcoming) && queue == old(queue))
    {
      while upcoming != [] && !OfWorker(upcoming[0])
        invariant Valid() && (old(closed) ==> closed)
        invariant |upcoming| < old(|upcoming|) || (upcoming == old(upcoming) && queue == old(queue))
        decreases |upcoming|
      {
        Produce();
      }
    }

    method Produce()
      requires Valid() && !mode.Exited? && upcoming != [] && !OfWorker(upcoming[0])
      modifies this`upcoming, this`queue, this`closed, this`finished, this`accepted, this`states, this`labels
      ensures Valid() && upcoming == old(upcoming)[1..] && (old(closed) ==> closed)
    {
      ghost var s := Value();
      match upcoming[0] {
        case Arrive(e) =>
          if finished { Skip(); return; }
          queue, accepted := queue + [e], accepted + [e];
        case SendersGone =>
          closed, finished := true, true;
        case LastSendDone =>
          if !closed { Skip(); return; }
          finished := true;
      }
      Book(upcoming[0], s);
    }

    /** When the script is over the senders go away, so that every recv() becomes ready. */
    method HangUp()
      requires Valid() && !mode.Exited? && upcoming == []
      modifies this`closed, this`finished, this`states, this`labels, this`upcoming
      ensures Valid() && upcoming == [] && closed && finished
    {
      ghost var s := Value();
      closed, finished := true, true;
      Book(SendersGone, s);
    }

    // The worker's side

    /** recv() that is ready: the oldest event, or None when the channel is closed and drained. */
    method Recv(l: Label) returns (first: Option<Event>)
      requires Valid() && (queue != [] || finished) && (upcoming != [] ==> upcoming[0] == l)
      requires (l == RecvFirst && mode.Selecting?) || (l == RecvAfterClose && mode.AfterClose?)
      modifies this`queue, this`mode, this`upcoming, this`states, this`labels
      ensures Valid() && mode == (if first.Some? then Batching([first.value]) else Collected([], false))
      ensures upcoming == if old(upcoming) == [] then [] else old(upcoming)[1..]
      ensures if first.Some? then |queue| < old(|queue|) else queue == []
    {
      ghost var s := Value();
      if queue == [] {
        first, mode := None, Collected([], false);
      } else {
        first := Some(queue[0]);
        mode := Batching([queue[0]]);
        queue := queue[1..];
      }
      Book(l, s);
    }

    /** The select! at the top of the loop: recv(), the shutdown signal (which closes the channel and then
        receives), or the cleanup timer, as the script has it. */
    method SelectFirst() returns (first: Option<Event>)
      requires Valid() && mode.Selecting?
      modifies this`upcoming, this`queue, this`closed, this`finished, this`accepted, this`states, this`labels
      modifies this`shutdownReceived, this`mode
      ensures Valid()
      ensures if first.Some? then mode == Batching([first.value]) else mode.Collected? && mode.events == []
      ensures |upcoming| < old(|upcoming|)
              || (upcoming == [] && if first.Some? then |queue| < old(|queue|) else closed && queue == [])
    {
      while upcoming != []
        invariant Valid() && mode.Selecting?
        invariant |upcoming| < old(|upcoming|) || (upcoming == old(upcoming) && queue == old(queue))
        decreases |upcoming|
      {
        Settle();
        if upcoming == [] { break; }
        if upcoming[0].RecvFirst? && (queue != [] || finished) {
          first := Recv(RecvFirst);
          return;
        } else if upcoming[0].Shutdown? && !shutdownReceived {
          Close();
          first := RecvClosed();
          return;
        } else if upcoming[0].CleanupTimer? {
          TimerFires();
          return None;
        }
        Skip();
      }
      if !finished { HangUp(); }
      ConservedAlways(states, labels, |labels|);
      first := Recv(RecvFirst);
    }

    /** The shutdown signal: close(), and on to recv(). */
    method Close()
      requires Valid() && mode.Selecting? && upcoming != [] && upcoming[0].Shutdown? && !shutdownReceived
      modifies this`shutdownReceived, this`closed, this`mode, this`upcoming, this`states, this`labels
      ensures Valid() && mode.AfterClose? && upcoming == old(upcoming)[1..]
    {
      ghost var s := Value();
      shutdownReceived, closed, mode := true, true, AfterClose;
      Book(Shutdown, s);
    }

    method TimerFires()
      requires Valid() && mode.Selecting? && upcoming != [] && upcoming[0].CleanupTimer?
      modifies this`mode, this`upcoming, this`states, this`labels
      ensures Valid() && mode == Collected([], true) && upcoming == old(upcoming)[1..]
    {
      ghost var s := Value();
      mode := Collected([], true);
      Book(CleanupTimer, s);
    }

    /** receiver.recv().await after close(). */
    method RecvClosed() returns (first: Option<Event>)
      requires Valid() && mode.AfterClose?
      modifies this`upcoming, this`queue, this`closed, this`finished, this`accepted, this`states, this`labels, this`mode
      ensures Valid() && mode == (if first.Some? then Batching([first.value]) else Collected([], false))
      ensures |upcoming| <= old(|upcoming|)
    {
      while upcoming != []
        invariant Valid() && mode.AfterClose? && |upcoming| <= old(|upcoming|)
        decreases |upcoming|
      {
        Settle();
        if upcoming == [] { break; }
        if upcoming[0].RecvAfterClose? && (queue != [] || finished) {
          first := Recv(RecvAfterClose);
          return;
        }
        Skip();
      }
      if !finished { HangUp(); }
      first := Recv(RecvAfterClose);
    }

    /** Producers act, and impossible items are passed over, until the one step the worker can make is next. */
    method Reach(l: Label)
      requires Valid()
      requires (l == Write && mode.Collected?) || (l == BatchEnd && mode.Batching? && |mode.events| >= MAX_BATCH_SIZE)
      modifies this`upcoming, this`queue, this`closed, this`finished, this`accepted, this`states, this`labels
      ensures Valid() && (upcoming != [] ==> upcoming[0] == l) && (old(closed) ==> closed)
      ensures |upcoming| < old(|upcoming|) || (upcoming == old(upcoming) && queue == old(queue))
    {
      Settle();
      while upcoming != [] && upcoming[0] != l
        invariant Valid() && (upcoming != [] ==> OfWorker(upcoming[0])) && (old(closed) ==> closed)
        invariant |upcoming| < old(|upcoming|) || (upcoming == old(upcoming) && queue == old(queue))
        decreases |upcoming|
      {
        Skip();
        Settle();
      }
    }

    method TakeMore(events: seq<Event>) returns (more: seq<Event>)
      requires Valid() && mode == Batching(events) && |events| < MAX_BATCH_SIZE && queue != []
      requires upcoming != [] ==> upcoming[0] == RecvMore
      modifies this`queue, this`mode, this`upcoming, this`states, this`labels
      ensures Valid() && mode == Batching(more) && |more| == |events| + 1 && |queue| < old(|queue|)
      ensures upcoming == if old(upcoming) == [] then [] else old(upcoming)[1..]
    {
      ghost var s := Value();
      more := events + [queue[0]];
      queue := queue[1..];
      mode := Batching(more);
      Book(RecvMore, s);
    }

    /** The inner loop: more events while they come within the batch wait, up to a full batch. */
    method CollectBatch(first: Event) returns (events: seq<Event>)
      requires Valid() && mode == Batching([first])
      modifies this`upcoming, this`queue, this`closed, this`finished, this`accepted, this`states, this`labels, this`mode
      ensures Valid() && mode == Collected(events, false) && 1 <= |events| <= MAX_BATCH_SIZE
      ensures |upcoming| < old(|upcoming|) || (upcoming == old(upcoming) && |queue| <= old(|queue|))
    {
      events := [first];
      while |events| < MAX_BATCH_SIZE
        invariant Valid() && mode == Batching(events) && 1 <= |events| <= MAX_BATCH_SIZE
        invariant |upcoming| < old(|upcoming|) || (upcoming == old(upcoming) && |queue| <= old(|queue|))
        decreases |upcoming|, |queue|
      {
        Settle();
        if upcoming == [] && queue == [] {
          break;
        } else if upcoming == [] || (upcoming[0].RecvMore? && queue != []) {
          events := TakeMore(events);
        } else if upcoming[0].BatchEnd? {
          break;
        } else {
          Skip();
        }
      }
      if |events| == MAX_BATCH_SIZE { Reach(BatchEnd); }
      ghost var s := Value();
      mode := Collected(events, false);
      Book(BatchEnd, s);
    }

    /** insert_events for a batch that is not empty, then the test for the exit. */
    method WriteBatch(events: seq<Event>) returns (leave: bool)
      requires Valid() && mode.Collected? && mode.events == events
      modifies this`upcoming, this`queue, this`closed, this`finished, this`accepted, this`states, this`labels, this`mode
      modifies this`batches
      ensures Valid() && (if leave then mode.Exited? else mode.Selecting?)
      ensures |upcoming| < old(|upcoming|) || (upcoming == old(upcoming) && |queue| <= old(|queue|))
      ensures events == [] && old(closed) ==> leave
    {
      Reach(Write);
      ghost var s := Value();
      if events != [] { batches := batches + [events]; }
      leave := events == [] && closed;
      mode := if leave then Exited(mode.timer) else Selecting;
      Book(Write, s);
    }

    /** The whole loop. Whatever the script, what happens is a run of the worker to its exit, with every accepted
        event in a batch or left in the queue, in order; and every run to an exit can happen. */
    method Work()
      requires Valid() && mode.Selecting?
      modifies this
      ensures Valid() && mode.Exited?
      ensures Exits(INIT, script) ==> labels == script
      ensures Flatten(batches) + queue == accepted
      ensures BatchSizes(batches)
    {
      var leave := false;
      while !leave
        invariant Valid() && (if leave then mode.Exited? else mode.Selecting?)
        decreases |upcoming|, |queue|, if leave then 0 else 1
      {
        var first := SelectFirst();
        var events := [];
        if first.Some? { events := CollectBatch(first.value); }
        leave := WriteBatch(events);
      }
      FollowedToTheEnd(Taken(), Over(), INIT, script, labels, upcoming, Value());
      ConservedAlways(states, labels, |labels|);
      assert Flatten(batches) + [] + queue == Flatten(batches) + queue;
    }
  }
}
