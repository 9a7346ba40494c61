/** H3Conn::request itself: the two-pass loop of src/upstream/doh3.rs on the shared connection, run against a
    script of what the other requests, the network and the scheduler do. */
module ConnectionLoop {
  import opened Prelude
  import opened Scripts
  import opened Generations

  /** A step of request r itself. */
  predicate Mine(r: nat, l: Label) { !l.Start? && l.r == r }

  /** A step of the transition system, if it is possible and is not request r being dropped by its caller. */
  function Taken(r: nat): (State, Label) -> Option<State> {
    (s: State, l: Label) => if Enabled(s, l) && l != DropRequest(r) then Some(Next(s, l)) else None
  }

  predicate Ended(r: nat, s: State) { r < |s.requests| && s.requests[r].Finished? }

  function Over(r: nat): State -> bool { (s: State) => Ended(r, s) }

  lemma RunExtends(states: seq<State>, labels: seq<Label>, l: Label)
    requires Run(states, labels) && Enabled(states[|labels|], l)
    ensures Run(states + [Next(states[|labels|], l)], labels + [l])
  {
    var states', labels' := states + [Next(states[|labels|], l)], labels + [l];
    forall k | 0 <= k < |labels'| ensures StepAt(states', labels', k) {
      if k < |labels| { assert StepAt(states, labels, k); }
    }
  }

  /** Every continuation of a run from its k-th state to the end of request r is a script. */
  lemma {:induction false} EveryRunIsAScript(states: seq<State>, labels: seq<Label>, r: nat, k: nat)
    requires Run(states, labels) && k <= |labels| && Ended(r, states[|labels|])
    requires forall i :: k <= i < |labels| ==> !Ended(r, states[i]) && labels[i] != DropRequest(r)
    ensures Playable(Taken(r), Over(r), states[k], labels[k..])
    decreases |labels| - k
  {
    if k < |labels| {
      assert StepAt(states, labels, k);
      EveryRunIsAScript(states, labels, r, k + 1);
      assert labels[k..][0] == labels[k] && labels[k..][1..] == labels[k + 1..];
    }
  }

  /** The shared fields, where every request stands, and one request's script. */
  class H3Conn {
    var installed: Option<nat>
    var nextGeneration: nat
    var lock: Option<nat>
    var requests: seq<Request>
    var installs: seq<nat>
    var sends: seq<Send>
    var upcoming: seq<Label>
    ghost var states: seq<State>
    ghost var labels: seq<Label>

    function Value(): State
      reads this
    {
      State(installed, nextGeneration, lock, requests, installs, sends)
    }

    /** What was done so far is a run up to the present state. */
    ghost predicate Valid()
      reads this
    {
      Run(states, labels) && states[|labels|] == Value()
    }

    constructor ()
      ensures Valid() && labels == []
    {
      installed, nextGeneration, lock, requests, installs, sends, upcoming := None, 0, None, [], [], [], [];
      states, labels := [INIT], [];
    }

    /** Request me began at moment `from`; a script that leads to its end has been followed to the letter. */
    ghost predicate Following(me: nat, from: nat, script: seq<Label>)
      reads this
    {
      && Valid() && me < |requests| && from <= |labels|
      && Follows(Taken(me), Over(me), states[from], script, labels[from..], upcoming, Value())
    }

    /** The run so far continues the given one. */
    ghost predicate Later(before: seq<State>, done: seq<Label>)
      reads this
    {
      before <= states && done <= labels
    }

    /** Books a step just made, and takes it off the script if it came from there. */
    method Book(l: Label, ghost me: nat, ghost from: nat, ghost script: seq<Label>, ghost s: State)
      requires Run(states, labels) && states[|labels|] == s && Enabled(s, l) && Value() == Next(s, l)
      requires me < |s.requests| && from <= |labels| && !Ended(me, s) && l != DropRequest(me)
      requires Follows(Taken(me), Over(me), states[from], script, labels[from..], upcoming, s)
      requires upcoming != [] ==> upcoming[0] == l
      modifies this`states, this`labels, this`upcoming
      ensures Following(me, from, script) && upcoming == if old(upcoming) == [] then [] else old(upcoming)[1..]
      ensures Later(old(states), old(labels))
    {
      RunExtends(states, labels, l);
      ghost var states', labels' := states + [Value()], labels + [l];
      assert labels'[from..] == labels[from..] + [l] && states'[from] == states[from];
      if upcoming != [] {
        FollowsStep(Taken(me), Over(me), states[from], script, labels[from..], upcoming, s, Value());
        upcoming := upcoming[1..];
      } else {
        NotPlayable(Taken(me), Over(me), states[from], script, labels[from..], upcoming, s);
      }
      states, labels := states', labels';
    }

    // The other requests and the network

    method Move(l: Label)
      requires Enabled(Value(), l)
      modifies this`installed, this`nextGeneration, this`lock, this`requests, this`installs, this`sends
      ensures Value() == Next(old(Value()), l)
    {
      var s := Next(Value(), l);
      installed, nextGeneration, lock, requests, installs, sends :=
        s.installed, s.nextGeneration, s.lock, s.requests, s.installs, s.sends;
    }

    /** Others act until a step of request me comes up that is possible now; the rest is passed over. */
    method Others(me: nat, ghost from: nat, ghost script: seq<Label>)
      requires Following(me, from, script) && Attempting(requests[me])
      modifies this
      ensures Following(me, from, script) && requests[me] == old(requests[me]) && Later(old(states), old(labels))
      ensures upcoming != [] ==> Mine(me, upcoming[0]) && Enabled(Value(), upcoming[0]) && !upcoming[0].DropRequest?
    {
      while upcoming != [] && !(Mine(me, upcoming[0]) && Enabled(Value(), upcoming[0]) && !upcoming[0].DropRequest?)
        invariant Following(me, from, script) && requests[me] == old(requests[me]) && Later(old(states), old(labels))
        decreases |upcoming|
      {
        ghost var s := Value();
        var l := upcoming[0];
        if Enabled(Value(), l) && !Mine(me, l) {
          Move(l);
          Book(l, me, from, script, s);
        } else {
          NotPlayable(Taken(me), Over(me), states[from], script, labels[from..], upcoming, s);
          upcoming := upcoming[1..];
        }
      }
    }

    /** When the script is over, a request still connecting under the lock gives up. */
    method FreeLock(me: nat, ghost from: nat, ghost script: seq<Label>)
      requires Following(me, from, script) && Attempting(requests[me]) && !requests[me].Connecting? && upcoming == []
      modifies this
      ensures Following(me, from, script) && requests[me] == old(requests[me]) && Later(old(states), old(labels))
      ensures upcoming == [] && lock.None?
    {
      if lock.Some? {
        ghost var s := Value();
        InvAlways(states, labels, |labels|);
        var l := ConnectFailed(lock.value);
        Move(l);
        Book(l, me, from, script, s);
      }
    }

    // The request's own steps

    method AllocateGeneration() returns (g: nat)
      modifies this`nextGeneration, this`installs
      ensures g == old(nextGeneration) && nextGeneration == g + 1 && installs == old(installs) + [g]
    {
      g := nextGeneration;
      nextGeneration := nextGeneration + 1;
      installs := installs + [g];
    }

    /** The lock is released with the sender of the installed connection cloned: the request goes out on it. */
    method SendOn(me: nat, g: nat)
      requires me < |requests| && Attempting(requests[me])
      modifies this`lock, this`requests, this`sends
      ensures Value() == GoSend(old(Value()), me, old(requests[me].attempt), old(requests[me].failed), g)
    {
      var q := requests[me];
      sends := sends + [Send(me, q.attempt, g)];
      requests := requests[me := Sending(q.attempt, q.failed, g)];
      lock := None;
    }

    /** Takes the lock, drops a dead connection, and either goes out on a live one or keeps the lock to connect. */
    method Lock(me: nat, dead: bool, ghost from: nat, ghost script: seq<Label>)
      requires Following(me, from, script) && requests[me].WantsConnection? && lock.None?
      requires upcoming != [] ==> upcoming[0] == Acquire(me, dead)
      modifies this
      ensures Following(me, from, script) && Later(old(states), old(labels))
      ensures var q := old(requests[me]);
              || requests[me] == Connecting(q.attempt, q.failed)
              || (installed.Some? && requests[me] == Sending(q.attempt, q.failed, installed.value))
    {
      ghost var s := Value();
      if installed.Some? && dead { installed := None; }
      if installed.None? {
        requests := requests[me := Connecting(requests[me].attempt, requests[me].failed)];
        lock := Some(me);
      } else {
        SendOn(me, installed.value);
      }
      Book(Acquire(me, dead), me, from, script, s);
    }

    /** connect() under the lock. */
    method Connect(me: nat, ghost from: nat, ghost script: seq<Label>) returns (g: Option<nat>)
      requires Following(me, from, script) && requests[me].Connecting?
      modifies this
      ensures Following(me, from, script) && Later(old(states), old(labels))
      ensures requests[me] == var q := old(requests[me]);
                              if g.Some? then Sending(q.attempt, q.failed, g.value) else Finished(Failed)
    {
      Others(me, from, script);
      ghost var s := Value();
      if upcoming != [] && upcoming[0].ConnectFailed? {
        g := None;
        requests := requests[me := Finished(Failed)];
        lock := None;
        Book(ConnectFailed(me), me, from, script, s);
      } else {
        var generation := AllocateGeneration();
        installed := Some(generation);
        SendOn(me, generation);
        g := Some(generation);
        Book(Connected(me), me, from, script, s);
      }
    }

    /** The locked block: a generation to send on, or none when connecting failed. */
    method Checkout(me: nat, ghost from: nat, ghost script: seq<Label>) returns (g: Option<nat>)
      requires Following(me, from, script) && requests[me].WantsConnection?
      modifies this
      ensures Following(me, from, script) && Later(old(states), old(labels))
      ensures requests[me] == var q := old(requests[me]);
                              if g.Some? then Sending(q.attempt, q.failed, g.value) else Finished(Failed)
    {
      Others(me, from, script);
      if upcoming == [] { FreeLock(me, from, script); }
      Lock(me, upcoming != [] && upcoming[0].dead, from, script);
      if requests[me].Sending? {
        g := installed;
      } else {
        g := Connect(me, from, script);
      }
    }

    /** The exchange on the cloned sender, outside the lock. */
    method Exchange(me: nat, ghost from: nat, ghost script: seq<Label>) returns (ok: bool)
      requires Following(me, from, script) && requests[me].Sending?
      modifies this
      ensures Following(me, from, script) && Later(old(states), old(labels))
      ensures requests[me] == var q := old(requests[me]);
                              if ok then Finished(Answered) else Invalidating(q.attempt, q.failed, q.generation)
    {
      Others(me, from, script);
      ghost var s := Value();
      var q := requests[me];
      ok := upcoming == [] || upcoming[0].SendOk?;
      requests := requests[me := if ok then Finished(Answered) else Invalidating(q.attempt, q.failed, q.generation)];
      Book(if ok then SendOk(me) else SendFailed(me), me, from, script, s);
    }

    method InvalidateGeneration(me: nat, generation: nat, ghost from: nat, ghost script: seq<Label>)
      requires Following(me, from, script) && requests[me].Invalidating? && requests[me].generation == generation
      modifies this
      ensures Following(me, from, script) && Later(old(states), old(labels))
      ensures requests[me] == if old(requests[me]).attempt == 1 then Finished(Failed)
                              else WantsConnection(1, Some(generation))
    {
      Others(me, from, script);
      if upcoming == [] { FreeLock(me, from, script); }
      ghost var s := Value();
      if installed.Some? && installed.value == generation { installed := None; }
      requests := requests[me := if requests[me].attempt == 1 then Finished(Failed)
                                 else WantsConnection(1, Some(generation))];
      Book(Invalidate(me), me, from, script, s);
    }

    /** The two passes. */
    method Passes(me: nat, ghost from: nat, ghost script: seq<Label>) returns (end: End)
      requires Following(me, from, script) && requests[me] == WantsConnection(0, None)
      modifies this
      ensures Following(me, from, script) && requests[me] == Finished(end) && !end.Dropped?
      ensures Later(old(states), old(labels))
    {
      for attempt := 0 to 2
        invariant attempt <= 1  // the second pass always returns
        invariant Following(me, from, script) && Later(old(states), old(labels))
        invariant requests[me].WantsConnection? && requests[me].attempt == attempt
      {
        var g := Checkout(me, from, script);
        if g.None? { return Failed; }
        var ok := Exchange(me, from, script);
        if ok { return Answered; }
        InvalidateGeneration(me, g.value, from, script);
        if attempt == 1 { return Failed; }
      }
      assert false;
    }

    method Begin(script: seq<Label>) returns (me: nat)
      requires Valid()
      modifies this
      ensures Following(me, |old(labels)| + 1, script) && requests[me] == WantsConnection(0, None)
      ensures me == |old(requests)| && labels == old(labels) + [Start]
      ensures states == old(states) + [Next(old(Value()), Start)]
    {
      ghost var s := Value();
      RunExtends(states, labels, Start);
      me, upcoming := |requests|, script;
      requests := requests + [WantsConnection(0, None)];
      states, labels := states + [Value()], labels + [Start];
      assert labels[|labels|..] == [] && [] + script == script;
    }

    /** A whole request, from any moment of any run. Whatever the others do, what happens is a run; every way the
        request can go on to its end can happen; it sends at most twice, the second time on a newer generation. */
    method PerformRequest(script: seq<Label>) returns (me: nat, end: End)
      requires Valid()
      modifies this
      ensures Valid() && me == |old(requests)| < |requests| && requests[me] == Finished(end) && !end.Dropped?
      ensures old(labels) + [Start] <= labels
      ensures Playable(Taken(me), Over(me), Next(old(Value()), Start), script) ==>
                labels == old(labels) + [Start] + script
      ensures forall i, j :: 0 <= i < j < |sends| && sends[i].request == me == sends[j].request ==>
                sends[i].attempt == 0 && sends[j].attempt == 1 && sends[i].generation < sends[j].generation
    {
      ghost var from, before := |labels| + 1, labels;
      me := Begin(script);
      ghost var start := states[from];
      end := Passes(me, from, script);
      assert states[from] == start && labels == before + [Start] + labels[from..];
      FollowedToTheEnd(Taken(me), Over(me), start, script, labels[from..], upcoming, Value());
      GenerationsAdvance(states, labels, |labels|);
    }
  }
}
