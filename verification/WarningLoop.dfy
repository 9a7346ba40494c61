/** WarningRateLimit::should_log itself: the compare-exchange loop of src/dashboard/store.rs on the shared atomic,
    run against a script of what the other calls do and what the relaxed reads return. */
module WarningLoop {
  import opened Prelude
  import opened Scripts
  import opened WarningLimit

  /** A step of call r itself. */
  predicate Mine(r: nat, l: Label) { !l.Call? && l.i == r }

  function Taken(interval: nat): (State, Label) -> Option<State> {
    (s: State, l: Label) => if Enabled(s, l) then Some(Next(interval, s, l)) else None
  }

  predicate Ended(r: nat, s: State) { r < |s.callers| && (s.callers[r].Logged? || s.callers[r].Silent?) }

  function Over(r: nat): State -> bool { (s: State) => Ended(r, s) }

  lemma RunExtends(interval: nat, states: seq<State>, labels: seq<Label>, l: Label)
    requires Run(interval, states, labels) && Enabled(states[|labels|], l)
    ensures Run(interval, states + [Next(interval, states[|labels|], l)], labels + [l])
  {
    var states', labels' := states + [Next(interval, states[|labels|], l)], labels + [l];
    forall k | 0 <= k < |labels'| ensures StepAt(interval, states', labels', k) {
      if k < |labels| { assert StepAt(interval, states, labels, k); }
    }
  }

  /** Every continuation of a run from its k-th state to the end of call r is a script. */
  lemma {:induction false} EveryRunIsAScript(interval: nat, states: seq<State>, labels: seq<Label>, r: nat, k: nat)
    requires Run(interval, states, labels) && k <= |labels| && Ended(r, states[|labels|])
    requires forall i :: k <= i < |labels| ==> !Ended(r, states[i])
    ensures Playable(Taken(interval), Over(r), states[k], labels[k..])
    decreases |labels| - k
  {
    if k < |labels| {
      assert StepAt(interval, states, labels, k);
      EveryRunIsAScript(interval, states, labels, r, k + 1);
      assert labels[k..][0] == labels[k] && labels[k..][1..] == labels[k + 1..];
    }
  }

  /** The atomic with the values it has held, where every call stands, and one call's script. */
  class WarningRateLimit {
    const interval: nat
    var stored: seq<nat>
    var callers: seq<Caller>
    var warnings: seq<nat>
    var upcoming: seq<Label>
    ghost var states: seq<State>
    ghost var labels: seq<Label>

    function Value(): State
      reads this
    {
      State(stored, callers, warnings)
    }

    /** What was done so far is a run up to the present state. */
    ghost predicate Valid()
      reads this
    {
      Run(interval, states, labels) && states[|labels|] == Value()
    }

    constructor (interval: nat)
      ensures Valid() && labels == [] && this.interval == interval
    {
      this.interval := interval;
      stored, callers, warnings, upcoming := [0], [], [], [];
      states, labels := [INIT], [];
    }

    /** Call me began at moment `from`; a script that leads to its end has been followed to the letter. */
    ghost predicate Following(me: nat, from: nat, script: seq<Label>)
      reads this
    {
      && Valid() && me < |callers| && from <= |labels|
      && Follows(Taken(interval), Over(me), states[from], script, labels[from..], upcoming, Value())
    }

    /** The run so far continues the given one. */
    ghost predicate Later(before: seq<State>, done: seq<Label>)
      reads this
    {
      before <= states && done <= labels
    }

    /** Books a step just made, and takes it off the script if it came from there. */
    method Book(l: Label, ghost me: nat, ghost from: nat, ghost script: seq<Label>, ghost s: State)
      requires Run(interval, states, labels) && states[|labels|] == s && Enabled(s, l)
      requires Value() == Next(interval, s, l) && me < |s.callers| && from <= |labels| && !Ended(me, s)
      requires Follows(Taken(interval), Over(me), states[from], script, labels[from..], upcoming, s)
      requires upcoming != [] ==> upcoming[0] == l
      modifies this`states, this`labels, this`upcoming
      ensures Following(me, from, script) && upcoming == if old(upcoming) == [] then [] else old(upcoming)[1..]
      ensures Later(old(states), old(labels))
    {
      RunExtends(interval, states, labels, l);
      ghost var states', labels' := states + [Value()], labels + [l];
      assert labels'[from..] == labels[from..] + [l] && states'[from] == states[from];
      if upcoming != [] {
        FollowsStep(Taken(interval), Over(me), states[from], script, labels[from..], upcoming, s, Value());
        upcoming := upcoming[1..];
      } else {
        NotPlayable(Taken(interval), Over(me), states[from], script, labels[from..], upcoming, s);
      }
      states, labels := states', labels';
    }

    /** Others act until a step of call me comes up that is possible now; the rest is passed over. */
    method Others(me: nat, ghost from: nat, ghost script: seq<Label>)
      requires Following(me, from, script) && !Ended(me, Value())
      modifies this
      ensures Following(me, from, script) && callers[me] == old(callers[me]) && Later(old(states), old(labels))
      ensures upcoming != [] ==> Mine(me, upcoming[0]) && Enabled(Value(), upcoming[0])
      ensures |upcoming| < old(|upcoming|) || (upcoming == old(upcoming) && Value() == old(Value()))
    {
      while upcoming != [] && !(Mine(me, upcoming[0]) && Enabled(Value(), upcoming[0]))
        invariant Following(me, from, script) && callers[me] == old(callers[me]) && Later(old(states), old(labels))
        invariant |upcoming| < old(|upcoming|) || (upcoming == old(upcoming) && Value() == old(Value()))
        decreases |upcoming|
      {
        ghost var s := Value();
        var l := upcoming[0];
        if Enabled(Value(), l) {
          var next := Next(interval, Value(), l);
          stored, callers, warnings := next.stored, next.callers, next.warnings;
          Book(l, me, from, script, s);
        } else {
          NotPlayable(Taken(interval), Over(me), states[from], script, labels[from..], upcoming, s);
          upcoming := upcoming[1..];
        }
      }
    }

    method Begin(now: nat, script: seq<Label>) returns (me: nat)
      requires Valid() && Enabled(Value(), Call(now))
      modifies this
      ensures Following(me, |old(labels)| + 1, script) && callers[me] == Loading(now)
      ensures me == |old(callers)| && labels == old(labels) + [Call(now)]
      ensures states == old(states) + [Next(interval, old(Value()), Call(now))]
    {
      RunExtends(interval, states, labels, Call(now));
      me, upcoming := |callers|, script;
      callers := callers + [Loading(now)];
      states, labels := states + [Value()], labels + [Call(now)];
      assert labels[|labels|..] == [] && [] + script == script;
    }

    /** The first load: any value the atomic has held. */
    method LoadNext(me: nat, ghost from: nat, ghost script: seq<Label>) returns (next: nat)
      requires Following(me, from, script) && callers[me].Loading?
      modifies this
      ensures Following(me, from, script) && Later(old(states), old(labels))
      ensures callers[me] == Deciding(old(callers[me]).now, next)
    {
      Others(me, from, script);
      SoundAlways(interval, states, labels, |labels|);
      ghost var s := Value();
      next := if upcoming != [] then upcoming[0].value else stored[|stored| - 1];
      callers := callers[me := Deciding(callers[me].now, next)];
      Book(Load(me, next), me, from, script, s);
    }

    /** compare_exchange_weak succeeds: the latest value is replaced and this call logs. */
    method Exchange(me: nat, now: nat, seen: nat, value: nat, ghost from: nat, ghost script: seq<Label>)
      requires Following(me, from, script) && callers[me] == Deciding(now, seen) && seen <= now
      requires stored != [] && stored[|stored| - 1] == seen && value in stored
      requires upcoming != [] ==> upcoming[0] == Decide(me, false, value)
      modifies this
      ensures Following(me, from, script) && Later(old(states), old(labels)) && callers[me] == Logged(now)
      ensures |upcoming| <= old(|upcoming|)
    {
      ghost var s := Value();
      stored := stored + [Sat(now + interval)];
      warnings := warnings + [now];
      callers := callers[me := Logged(now)];
      Book(Decide(me, false, value), me, from, script, s);
    }

    /** The reading lies before the value seen, or the exchange fails: silence, or another pass with the value read. */
    method Stay(me: nat, now: nat, seen: nat, spurious: bool, value: nat, ghost from: nat, ghost script: seq<Label>)
      requires Following(me, from, script) && callers[me] == Deciding(now, seen) && value in stored
      requires now < seen || spurious || stored[|stored| - 1] != seen
      requires upcoming != [] ==> upcoming[0] == Decide(me, spurious, value)
      modifies this`callers, this`states, this`labels, this`upcoming
      ensures Following(me, from, script) && Later(old(states), old(labels))
      ensures callers[me] == if now < seen then Silent(now) else Deciding(now, value)
      ensures upcoming == if old(upcoming) == [] then [] else old(upcoming)[1..]
    {
      ghost var s := Value();
      callers := callers[me := if now < seen then Silent(now) else Deciding(now, value)];
      Book(Decide(me, spurious, value), me, from, script, s);
    }

    /** One pass of the loop: keep silent, log, or take the value read and try again. */
    method Attempt(me: nat, now: nat, seen: nat, ghost from: nat, ghost script: seq<Label>)
        returns (done: bool, log: bool, next: nat)
      requires Following(me, from, script) && callers[me] == Deciding(now, seen)
      modifies this
      ensures Following(me, from, script) && Later(old(states), old(labels)) && |upcoming| <= old(|upcoming|)
      ensures callers[me] == if !done then Deciding(now, next) else if log then Logged(now) else Silent(now)
      ensures !done ==> |upcoming| < old(|upcoming|)
                        || (stored == old(stored) && seen != Latest(Value()) && next == Latest(Value()))
    {
      Others(me, from, script);
      SoundAlways(interval, states, labels, |labels|);
      var spurious := upcoming != [] && upcoming[0].spurious;
      next := if upcoming != [] then upcoming[0].value else stored[|stored| - 1];
      log := seen <= now && stored[|stored| - 1] == seen && !spurious;
      done := log || now < seen;
      if log {
        Exchange(me, now, seen, next, from, script);
      } else {
        Stay(me, now, seen, spurious, next, from, script);
      }
    }

    /** A whole call, from any moment of any run. Whatever the others do and the reads return, it ends, what happens
        is a run, and every way the call can go on to its end can happen. So its answer and the warnings given so far
        are as the theorems about runs say. */
    method ShouldLog(now: nat, script: seq<Label>) returns (me: nat, log: bool)
      requires Valid() && Enabled(Value(), Call(now))
      modifies this
      ensures Valid() && me == |old(callers)| < |callers|
      ensures callers[me] == if log then Logged(now) else Silent(now)
      ensures old(labels) + [Call(now)] <= labels
      ensures Playable(Taken(interval), Over(me), Next(interval, old(Value()), Call(now)), script) ==>
                labels == old(labels) + [Call(now)] + script
    {
      ghost var from, before := |labels| + 1, labels;
      me := Begin(now, script);
      ghost var start := states[from];
      var next := LoadNext(me, from, script);
      var done := false;
      log := false;
      while !done
        invariant Following(me, from, script) && states[from] == start && before + [Call(now)] <= labels
        invariant callers[me] == if !done then Deciding(now, next) else if log then Logged(now) else Silent(now)
        decreases |upcoming|, if done then 0 else if next == Latest(Value()) then 1 else 2
      {
        done, log, next := Attempt(me, now, next, from, script);
      }
      assert labels == before + [Call(now)] + labels[from..];
      FollowedToTheEnd(Taken(interval), Over(me), start, script, labels[from..], upcoming, Value());
    }
  }
}
