/** The shared HTTP/3 connection and its generations: H3Conn in src/upstream/doh3.rs.

    Any number of requests interleave. The state lock is held across connect, and a request's
    future may be dropped at any await. */
module Generations {
  import opened Prelude

  datatype End = Answered | Failed | Dropped

  /** Where a request is. `attempt` is 0 or 1; `failed` is the generation of the first, failed send. */
  datatype Request =
    | WantsConnection(attempt: nat, failed: Option<nat>)
    | Connecting(attempt: nat, failed: Option<nat>)          // holds the lock
    | Sending(attempt: nat, failed: Option<nat>, generation: nat)
    | Invalidating(attempt: nat, failed: Option<nat>, generation: nat)
    | Finished(end: End)

  datatype Send = Send(request: nat, attempt: nat, generation: nat)

  /** The two shared fields, the lock, the requests, and the history of installs and sends. */
  datatype State = State(
    installed: Option<nat>,
    nextGeneration: nat,
    lock: Option<nat>,
    requests: seq<Request>,
    installs: seq<nat>,
    sends: seq<Send>)

  const INIT := State(None, 0, None, [], [], [])

  datatype Label =
    | Start                       // a new request
    | Acquire(r: nat, dead: bool) // lock taken; `dead`: the installed connection has a close reason
    | Connected(r: nat)
    | ConnectFailed(r: nat)
    | SendOk(r: nat)
    | SendFailed(r: nat)
    | Invalidate(r: nat)          // lock taken and released inside invalidate_generation
    | DropRequest(r: nat)

  predicate Enabled(s: State, l: Label) {
    match l
    case Start => true
    case Acquire(r, _) => r < |s.requests| && s.requests[r].WantsConnection? && s.lock.None?
    case Connected(r) => r < |s.requests| && s.requests[r].Connecting?
    case ConnectFailed(r) => r < |s.requests| && s.requests[r].Connecting?
    case SendOk(r) => r < |s.requests| && s.requests[r].Sending?
    case SendFailed(r) => r < |s.requests| && s.requests[r].Sending?
    case Invalidate(r) => r < |s.requests| && s.requests[r].Invalidating? && s.lock.None?
    case DropRequest(r) => r < |s.requests| && !s.requests[r].Finished?
  }

  function Move(s: State, r: nat, q: Request): State
    requires r < |s.requests|
  {
    s.(requests := s.requests[r := q])
  }

  /** The lock is released with the connection's sender cloned: the request goes out on it. */
  function GoSend(s: State, r: nat, attempt: nat, failed: Option<nat>, generation: nat): State
    requires r < |s.requests|
  {
    Move(s, r, Sending(attempt, failed, generation)).(lock := None, sends := s.sends + [Send(r, attempt, generation)])
  }

  function Next(s: State, l: Label): State
    requires Enabled(s, l)
  {
    match l
    case Start => s.(requests := s.requests + [WantsConnection(0, None)])
    case Acquire(r, dead) =>
      var q := s.requests[r];
      var s' := if s.installed.Some? && dead then s.(installed := None) else s;
      if s'.installed.None? then Move(s', r, Connecting(q.attempt, q.failed)).(lock := Some(r))
      else GoSend(s', r, q.attempt, q.failed, s'.installed.value)
    case Connected(r) =>
      var q, g := s.requests[r], s.nextGeneration;
      var s' := s.(installed := Some(g), nextGeneration := g + 1, installs := s.installs + [g]);
      GoSend(s', r, q.attempt, q.failed, g)
    case ConnectFailed(r) => Move(s, r, Finished(Failed)).(lock := None)
    case SendOk(r) => Move(s, r, Finished(Answered))
    case SendFailed(r) =>
      var q := s.requests[r];
      Move(s, r, Invalidating(q.attempt, q.failed, q.generation))
    case Invalidate(r) =>
      var q := s.requests[r];
      var s' := if s.installed == Some(q.generation) then s.(installed := None) else s;
      Move(s', r, if q.attempt == 1 then Finished(Failed) else WantsConnection(1, Some(q.generation)))
    case DropRequest(r) =>
      Move(s, r, Finished(Dropped)).(lock := if s.lock == Some(r) then None else s.lock)
  }

  ghost predicate Run(states: seq<State>, labels: seq<Label>) {
    && |states| == |labels| + 1 && states[0] == INIT
    && forall k :: 0 <= k < |labels| ==> StepAt(states, labels, k)
  }

  ghost predicate StepAt(states: seq<State>, labels: seq<Label>, k: nat)
    requires k < |labels| && |states| == |labels| + 1
  {
    Enabled(states[k], labels[k]) && states[k + 1] == Next(states[k], labels[k])
  }

  predicate Attempting(q: Request) { !q.Finished? }

  /** An installed connection is always the newest generation, and the counter is ahead of every generation
      in use. The lock is held exactly by the one request that is connecting, with nothing installed. */
  ghost predicate Fresh(s: State) {
    && |s.installs| == s.nextGeneration
    && (forall i :: 0 <= i < |s.installs| ==> s.installs[i] == i)
    && (s.installed.Some? ==> s.installed.value + 1 == s.nextGeneration)
    && (forall r :: 0 <= r < |s.requests| ==> (s.requests[r].Connecting? <==> s.lock == Some(r)))
    && (s.lock.Some? ==> s.lock.value < |s.requests| && s.installed.None?)
  }

  /** What a request in flight has behind it. A failed first generation is gone for good. */
  ghost predicate Sound(s: State, r: nat)
    requires r < |s.requests|
  {
    var q := s.requests[r];
    Attempting(q) ==>
      && q.attempt <= 1
      && (q.attempt == 0 <==> q.failed.None?)
      && (q.failed.Some? ==> q.failed.value < s.nextGeneration && s.installed != Some(q.failed.value))
      && (q.Sending? || q.Invalidating? ==> q.generation < s.nextGeneration)
      && ((q.Sending? || q.Invalidating?) && q.failed.Some? ==> q.failed.value < q.generation)
  }

  /** A logged send against where its request is now: it belongs to an earlier attempt, whose generation
      is remembered as failed, or it is the one the request is on. */
  ghost predicate SendSound(s: State, i: nat)
    requires i < |s.sends|
  {
    var d := s.sends[i];
    && d.request < |s.requests| && d.attempt <= 1
    && var q := s.requests[d.request];
    && (q.WantsConnection? || q.Connecting? ==> d.attempt < q.attempt && q.failed == Some(d.generation))
    && (q.Sending? || q.Invalidating? ==>
          || (d.attempt == q.attempt && d.generation == q.generation)
          || (d.attempt < q.attempt && q.failed == Some(d.generation)))
  }

  /** Two sends of one request: the second attempt after the first, on a newer generation. */
  ghost predicate Paired(d: Send, e: Send) {
    d.request == e.request ==> d.attempt == 0 && e.attempt == 1 && d.generation < e.generation
  }

  ghost predicate Logged(s: State) {
    && (forall i :: 0 <= i < |s.sends| ==> SendSound(s, i))
    && (forall i, j :: 0 <= i < j < |s.sends| ==> Paired(s.sends[i], s.sends[j]))
  }

  ghost predicate Inv(s: State) {
    Fresh(s) && (forall r :: 0 <= r < |s.requests| ==> Sound(s, r)) && Logged(s)
  }

  lemma FreshKept(s: State, l: Label)
    requires Fresh(s) && Enabled(s, l)
    ensures Fresh(Next(s, l))
  {
  }

  lemma SoundKept(s: State, l: Label, r: nat)
    requires Fresh(s) && Enabled(s, l) && r < |Next(s, l).requests|
    requires forall q :: 0 <= q < |s.requests| ==> Sound(s, q)
    ensures Sound(Next(s, l), r)
  {
    if r < |s.requests| { assert Sound(s, r); }
  }

  lemma SendSoundKept(s: State, l: Label, i: nat)
    requires Inv(s) && Enabled(s, l) && i < |Next(s, l).sends|
    ensures SendSound(Next(s, l), i)
  {
    if !l.Start? { assert Sound(s, l.r); }
    if i < |s.sends| { assert SendSound(s, i); }
  }

  lemma NewSendPaired(s: State, l: Label, i: nat)
    requires Inv(s) && Enabled(s, l) && i < |s.sends| < |Next(s, l).sends|
    ensures Paired(s.sends[i], Next(s, l).sends[|s.sends|])
  {
    assert Sound(s, l.r);
    assert SendSound(s, i);
  }

  lemma LoggedKept(s: State, l: Label)
    requires Inv(s) && Enabled(s, l)
    ensures Logged(Next(s, l))
  {
    var s' := Next(s, l);
    forall i | 0 <= i < |s'.sends| ensures SendSound(s', i) { SendSoundKept(s, l, i); }
    forall i, j | 0 <= i < j < |s'.sends| ensures Paired(s'.sends[i], s'.sends[j]) {
      assert s'.sends[i] == s.sends[i];
      if j == |s.sends| { NewSendPaired(s, l, i); } else { assert s'.sends[j] == s.sends[j]; }
    }
  }

  lemma {:induction false} InvAlways(states: seq<State>, labels: seq<Label>, k: nat)
    requires Run(states, labels) && k < |states|
    ensures Inv(states[k])
  {
    if k > 0 {
      var s, l := states[k - 1], labels[k - 1];
      InvAlways(states, labels, k - 1);
      assert StepAt(states, labels, k - 1);
      FreshKept(s, l);
      forall r | 0 <= r < |states[k].requests| ensures Sound(states[k], r) { SoundKept(s, l, r); }
      LoggedKept(s, l);
    }
  }

  /** Over every interleaving: installed generations strictly increase, every request sends at most twice,
      and a second send always uses a strictly newer generation than the failed first one. */
  lemma GenerationsAdvance(states: seq<State>, labels: seq<Label>, k: nat)
    requires Run(states, labels) && k < |states|
    ensures var s := states[k];
            && (forall i, j :: 0 <= i < j < |s.installs| ==> s.installs[i] < s.installs[j])
            && (forall i, j :: 0 <= i < j < |s.sends| ==> Paired(s.sends[i], s.sends[j]))
            && (forall h, i, j :: 0 <= h < i < j < |s.sends| ==>
                  s.sends[h].request != s.sends[i].request || s.sends[i].request != s.sends[j].request)
  {
    InvAlways(states, labels, k);
    var s := states[k];
    forall h, i, j | 0 <= h < i < j < |s.sends|
      ensures s.sends[h].request != s.sends[i].request || s.sends[i].request != s.sends[j].request
    {
      assert Paired(s.sends[h], s.sends[i]) && Paired(s.sends[i], s.sends[j]);
    }
  }

  /** A failure on generation g can only take out generation g: every other step leaves a live installed
      connection alone, so another request's newer connection is never discarded. */
  lemma FailureDiscardsOnlyItself(states: seq<State>, labels: seq<Label>, k: nat)
    requires Run(states, labels) && k < |labels|
    ensures var s, s', l := states[k], states[k + 1], labels[k];
            s.installed.Some? && s'.installed != s.installed ==>
              && s'.installed.None?
              && (|| (l.Invalidate? && l.r < |s.requests| && s.requests[l.r].Invalidating?
                      && s.requests[l.r].generation == s.installed.value)
                  || (l.Acquire? && l.dead))
  {
    InvAlways(states, labels, k);
    var s, l := states[k], labels[k];
    assert StepAt(states, labels, k);
    if l.Connected? { assert s.lock == Some(l.r); }
  }

  /** A request goes out on the installed connection if that is alive, without a new one; a dead or missing one is
      replaced under the lock, and the request goes out on the replacement. */
  lemma GoesOutOnLive(states: seq<State>, labels: seq<Label>, k: nat)
    requires Run(states, labels) && k < |labels|
    ensures var s, s', l := states[k], states[k + 1], labels[k];
            && (l.Acquire? && s.installed.Some? && !l.dead ==>
                  && s'.installed == s.installed && s'.nextGeneration == s.nextGeneration && s'.lock.None?
                  && |s'.sends| == |s.sends| + 1 && s'.sends[|s.sends|].request == l.r
                  && s'.sends[|s.sends|].generation == s.installed.value)
            && (l.Acquire? && (s.installed.None? || l.dead) ==>
                  s'.installed.None? && s'.lock == Some(l.r) && s'.sends == s.sends)
            && (l.Connected? ==>
                  && s'.installed.Some? && s'.lock.None? && (forall i :: 0 <= i < |s.installs| ==>
                                                               s.installs[i] != s'.installed.value)
                  && |s'.sends| == |s.sends| + 1 && s'.sends[|s.sends|].request == l.r
                  && s'.sends[|s.sends|].generation == s'.installed.value)
            && (!l.Acquire? && !l.Connected? ==> s'.sends == s.sends)
  {
    InvAlways(states, labels, k);
    assert StepAt(states, labels, k);
  }

  function FailsFor(r: nat): Label -> int { (l: Label) => if l == SendFailed(r) then 1 else 0 }

  /** How a request stands, by what has happened to it: `failures` sends have failed. */
  ghost predicate StandsBy(done: seq<Label>, r: nat, q: Request) {
    var failures := Sum(done, FailsFor(r));
    match q
    case WantsConnection(attempt, _) => failures == attempt
    case Connecting(attempt, _) => failures == attempt
    case Sending(attempt, _, _) => failures == attempt
    case Invalidating(attempt, _, _) => failures == attempt + 1
    case Finished(Answered) => SendOk(r) in done
    case Finished(Failed) => failures == 2 || ConnectFailed(r) in done
    case Finished(Dropped) => DropRequest(r) in done
  }

  lemma {:induction false} NothingCounts(done: seq<Label>, r: nat)
    requires forall i :: 0 <= i < |done| ==> done[i] != SendFailed(r)
    ensures Sum(done, FailsFor(r)) == 0
  {
    if done != [] { NothingCounts(done[..|done| - 1], r); }
  }

  /** Requests are numbered in the order they start, so nothing is said about one before it has. */
  lemma {:induction false} OnlyStarted(states: seq<State>, labels: seq<Label>, k: nat, i: nat)
    requires Run(states, labels) && i < k < |states| && !labels[i].Start?
    ensures labels[i].r < |states[k].requests|
    decreases k
  {
    assert StepAt(states, labels, k - 1);
    if i < k - 1 { OnlyStarted(states, labels, k - 1, i); }
  }

  lemma StandsByNext(s: State, l: Label, done: seq<Label>, r: nat)
    requires Enabled(s, l) && r < |s.requests| && StandsBy(done, r, s.requests[r])
    requires Attempting(s.requests[r]) ==> s.requests[r].attempt <= 1
    ensures r < |Next(s, l).requests| && StandsBy(done + [l], r, Next(s, l).requests[r])
  {
    SumPush(done, l, FailsFor(r));
    assert l in done + [l] && forall x :: x in done ==> x in done + [l];
  }

  /** A request ends answered only after a send of its own succeeded, and failed only after connecting failed or two of
      its sends did: a first failed send is always followed by another try. */
  lemma {:induction false} RequestsEndForAReason(states: seq<State>, labels: seq<Label>, r: nat, k: nat)
    requires Run(states, labels) && k < |states| && r < |states[k].requests|
    ensures StandsBy(labels[..k], r, states[k].requests[r])
  {
    assert k > 0;
    var s, l, done := states[k - 1], labels[k - 1], labels[..k - 1];
    assert StepAt(states, labels, k - 1);
    assert labels[..k] == done + [l];
    if r < |s.requests| {
      RequestsEndForAReason(states, labels, r, k - 1);
      assert Sound(s, r) by { InvAlways(states, labels, k - 1); }
      StandsByNext(s, l, done, r);
    } else {
      forall i | 0 <= i < |labels[..k]| ensures labels[..k][i] != SendFailed(r) {
        if i < k - 1 && !labels[i].Start? { OnlyStarted(states, labels, k - 1, i); }
      }
      NothingCounts(labels[..k], r);
    }
  }
}
