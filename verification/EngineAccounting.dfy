/** What every run of the retry engine keeps about member calls and what they are charged. */
module EngineAccounting {
  import opened Prelude
  import opened Engine
  import opened Selector
  import Group
  import Stats

  function Waits(a: Attempt): int { if a.Waiting? then 1 else 0 }
  function Opens(k: Call): int { if k.fate.Open? then 1 else 0 }

  /** Each waiting attempt owns one open call, to the last of its distinct tries. */
  ghost predicate Linked(c: Config, s: State) {
    && (forall i :: 0 <= i < |s.attempts| && s.attempts[i].Waiting? ==> Owns(c, s, i))
    && (forall i, j :: 0 <= i < j < |s.attempts| && s.attempts[i].Waiting? && s.attempts[j].Waiting?
          ==> s.attempts[i].call != s.attempts[j].call)
    && Sum(s.calls, Opens) == Sum(s.attempts, Waits)
  }

  ghost predicate Owns(c: Config, s: State, i: nat)
    requires i < |s.attempts| && s.attempts[i].Waiting?
  {
    var a := s.attempts[i];
    && a.call < |s.calls|
    && 1 <= |a.tried| <= Group.TryLimit(c.members)
    && Group.Tries(a.tried, c.members)
    && s.calls[a.call] == Call(a.tried[|a.tried| - 1], Open)
  }

  /** Some member really gave this reply. */
  ghost predicate Given(calls: seq<Call>, r: Reply) {
    exists k :: 0 <= k < |calls| && calls[k] == Call(r.member, Succeeded(r.message))
  }

  /** Finished attempts and the engine's own answer carry replies that were given. */
  ghost predicate Replies(s: State) {
    && (forall i :: 0 <= i < |s.attempts| && s.attempts[i].Done? && s.attempts[i].result.Some?
          ==> Given(s.calls, s.attempts[i].result.value))
    && (!s.phase.Running? && s.phase.outcome.Ok? ==> Given(s.calls, s.phase.outcome.reply))
  }

  /** The shared flag separates the two ways a call can be cut short. */
  ghost predicate Flags(s: State) {
    && (s.phase.Running? ==> !s.succeeded)
    && (!s.phase.Running? && s.phase.outcome.Ok? ==> s.succeeded)
    && (!s.phase.Running? && s.phase.outcome.Err? ==> !s.succeeded)
    && (forall k :: 0 <= k < |s.calls| ==>
          && (s.calls[k].fate.TimedOut? ==> !s.phase.Running? && !s.succeeded)
          && (s.calls[k].fate.Cancelled? ==> s.succeeded))
  }

  datatype Kind = Success | SoftFail | Timeout

  function FateKind(f: Fate): Option<Kind> {
    match f
    case Succeeded(_) => Some(Success)
    case SoftFailed => Some(SoftFail)
    case TimedOut => Some(Timeout)
    case Open => None
    case Cancelled => None
  }

  function RecordKind(r: Stats.Record): Kind {
    match r
    case RecordSuccess(_, _) => Success
    case RecordSoftFail => SoftFail
    case RecordTimeout(_) => Timeout
  }

  function CallsOf(m: nat, kind: Kind): Call -> int {
    (k: Call) => if k.member == m && FateKind(k.fate) == Some(kind) then 1 else 0
  }

  function ChargesOf(m: nat, kind: Kind): Charge -> int {
    (h: Charge) => if h.member == m && RecordKind(h.record) == kind then 1 else 0
  }

  /** The books balance: per member and kind, as many charges as calls with that fate. */
  ghost predicate Ledger(s: State) {
    forall m: nat, kind :: Sum(s.calls, CallsOf(m, kind)) == Sum(s.charges, ChargesOf(m, kind))
  }

  ghost predicate Gathered(s: State) {
    s.phase.Returned? ==> forall j :: 0 <= j < |s.attempts| ==> s.attempts[j].Gone?
  }

  ghost predicate Books(c: Config, s: State) {
    Linked(c, s) && Replies(s) && Flags(s) && Ledger(s) && Gathered(s)
  }

  // The building blocks of a step

  lemma EndCallLinked(c: Config, s: State, i: nat, fate: Fate, reply: Group.Reply)
    requires Linked(c, s) && i < |s.attempts| && s.attempts[i].Waiting? && !fate.Open?
    ensures Linked(c, EndCall(s, i, fate, reply))
  {
    var s' := EndCall(s, i, fate, reply);
    var call := s.attempts[i].call;
    assert Owns(c, s, i);
    SumSet(s.attempts, i, Done(None), Waits);
    SumSet(s.calls, call, s'.calls[call], Opens);
    forall j | 0 <= j < |s'.attempts| && s'.attempts[j].Waiting? ensures Owns(c, s', j) {
      assert s'.attempts[j] == s.attempts[j] && Owns(c, s, j);
    }
  }

  /** A fresh call at the end of the log, owned by attempt i. */
  lemma NewCallLinked(c: Config, s: State, i: nat, tried: seq<nat>, m: nat, s': State)
    requires Linked(c, s) && i < |s.attempts| && !s.attempts[i].Waiting?
    requires Group.Tries(tried, c.members) && m < c.members && m !in tried && |tried| < Group.TryLimit(c.members)
    requires s'.attempts == s.attempts[i := Waiting(tried + [m], |s.calls|)] && s'.calls == s.calls + [Call(m, Open)]
    ensures Linked(c, s')
  {
    SumSet(s.attempts, i, s'.attempts[i], Waits);
    SumPush(s.calls, Call(m, Open), Opens);
    forall j | 0 <= j < |s'.attempts| && s'.attempts[j].Waiting? ensures Owns(c, s', j) {
      if j != i {
        assert s'.attempts[j] == s.attempts[j] && Owns(c, s, j);
      } else {
        TriesPush(tried, m, c.members);
      }
    }
    forall j, k | 0 <= j < k < |s'.attempts| && s'.attempts[j].Waiting? && s'.attempts[k].Waiting?
      ensures s'.attempts[j].call != s'.attempts[k].call
    {
      if j != i { assert Owns(c, s, j); }
      if k != i { assert Owns(c, s, k); }
    }
  }

  lemma TriesPush(tried: seq<nat>, m: nat, members: nat)
    requires Group.Tries(tried, members) && m < members && m !in tried
    ensures Group.Tries(tried + [m], members)
  {
  }

  lemma CallNextLinked(c: Config, s: State, i: nat, tried: seq<nat>, raw: seq<Weight>, roll: real)
    requires Linked(c, s) && i < |s.attempts| && !s.attempts[i].Waiting? && |raw| == c.members
    requires Group.Tries(tried, c.members)
    ensures Linked(c, CallNext(c, s, i, tried, raw, roll))
  {
    var s' := CallNext(c, s, i, tried, raw, roll);
    if |tried| < Group.TryLimit(c.members) {
      Group.ChooseIsFresh(raw, roll, c.fp, tried);
      NewCallLinked(c, s, i, tried, Group.Choose(raw, roll, c.fp, tried).value, s');
    } else {
      ReplaceLinked(c, s, i, Done(None), s');
    }
  }

  lemma ReplaceLinked(c: Config, s: State, i: nat, a: Attempt, s': State)
    requires Linked(c, s) && i < |s.attempts| && !s.attempts[i].Waiting? && !a.Waiting?
    requires s'.attempts == s.attempts[i := a] && s'.calls == s.calls
    ensures Linked(c, s')
  {
    SumSet(s.attempts, i, a, Waits);
    forall j | 0 <= j < |s'.attempts| && s'.attempts[j].Waiting? ensures Owns(c, s', j) {
      assert s'.attempts[j] == s.attempts[j] && Owns(c, s, j);
    }
  }

  lemma LaunchLinked(c: Config, s: State, s': State)
    requires Linked(c, s) && s'.attempts == s.attempts + [Spawned] && s'.calls == s.calls
    ensures Linked(c, s')
  {
    SumPush(s.attempts, Spawned, Waits);
    forall j | 0 <= j < |s'.attempts| && s'.attempts[j].Waiting?
      ensures j < |s.attempts| && s'.attempts[j] == s.attempts[j] && Owns(c, s', j)
    {
      assert j < |s.attempts|;
      assert s'.attempts[j] == s.attempts[j] && Owns(c, s, j);
    }
  }

  lemma LinkedKept(c: Config, s: State, l: Label)
    requires Linked(c, s) && CallsExist(s) && Enabled(c, s, l)
    ensures Linked(c, Next(c, s, l))
  {
    var s' := Next(c, s, l);
    match l
    case Tick(_) => SameLinked(c, s, s');
    case Cancel => SameLinked(c, s, s');
    case Return => SameLinked(c, s, s');
    case Begin(i, raw, roll) => CallNextLinked(c, s, i, [], raw, roll);
    case Answer(i, message, latency, wall) =>
      var r := Group.Answered(message, latency, wall);
      EndCallLinked(c, s, i, Succeeded(message), r);
      ReplaceLinked(c, EndCall(s, i, Succeeded(message), r), i, s'.attempts[i], s');
    case Fail(i, raw, roll) =>
      EndCallLinked(c, s, i, SoftFailed, Group.Errored);
      assert Owns(c, s, i);
      CallNextLinked(c, EndCall(s, i, SoftFailed, Group.Errored), i, s.attempts[i].tried, raw, roll);
    case Drop(i, wall) =>
      if s.attempts[i].Waiting? {
        var fate, r := if s.succeeded then Cancelled else TimedOut, Group.Dropped(wall);
        EndCallLinked(c, s, i, fate, r);
        ReplaceLinked(c, EndCall(s, i, fate, r), i, Gone, s');
      } else {
        ReplaceLinked(c, s, i, Gone, s');
      }
    case Poll(i) =>
      match Ready(c, s) {
        case Join => ReplaceLinked(c, s, i, Gone, s');
        case Expire => SameLinked(c, s, s');
        case Hedged => if s.inFlight < c.Cap() { LaunchLinked(c, s, s'); } else { SameLinked(c, s, s'); }
        case Retried => LaunchLinked(c, s, s');
      }
  }

  lemma SameLinked(c: Config, s: State, s': State)
    requires Linked(c, s) && s'.attempts == s.attempts && s'.calls == s.calls
    ensures Linked(c, s')
  {
    forall j | 0 <= j < |s'.attempts| && s'.attempts[j].Waiting? ensures Owns(c, s', j) {
      assert Owns(c, s, j);
    }
  }

  /** How a step may change the calls: nothing, one new open call, one open call closed, or both. */
  ghost predicate CallsGrow(calls: seq<Call>, calls': seq<Call>) {
    && |calls| <= |calls'|
    && forall k :: 0 <= k < |calls| ==>
         calls'[k].member == calls[k].member && (calls[k].fate.Open? || calls'[k] == calls[k])
  }

  lemma GivenKept(calls: seq<Call>, calls': seq<Call>, r: Reply)
    requires Given(calls, r) && CallsGrow(calls, calls')
    ensures Given(calls', r)
  {
    var k :| 0 <= k < |calls| && calls[k] == Call(r.member, Succeeded(r.message));
    assert calls'[k] == calls[k];
  }

  /** Members never change, an ended call never changes again, and no call disappears. */
  lemma StepGrowsCalls(c: Config, s: State, l: Label)
    requires Linked(c, s) && CallsExist(s) && Enabled(c, s, l)
    ensures CallsGrow(s.calls, Next(c, s, l).calls)
  {
    if (l.Answer? || l.Fail? || l.Drop?) && s.attempts[l.i].Waiting? {
      assert Owns(c, s, l.i);
    }
  }

  lemma RepliesKept(c: Config, s: State, l: Label)
    requires Linked(c, s) && Replies(s) && CallsExist(s) && Enabled(c, s, l)
    ensures Replies(Next(c, s, l))
  {
    var s' := Next(c, s, l);
    StepGrowsCalls(c, s, l);
    forall i | 0 <= i < |s'.attempts| && s'.attempts[i].Done? && s'.attempts[i].result.Some?
      ensures Given(s'.calls, s'.attempts[i].result.value)
    {
      if i < |s.attempts| && s'.attempts[i] == s.attempts[i] {
        GivenKept(s.calls, s'.calls, s.attempts[i].result.value);
      } else {
        assert l.Answer? && l.i == i;
        var k := s.attempts[i].call;
        assert s'.calls[k] == Call(s.calls[k].member, Succeeded(l.message));
      }
    }
    if !s'.phase.Running? && s'.phase.outcome.Ok? {
      if s.phase.Running? {
        GivenKept(s.calls, s'.calls, s.attempts[l.i].result.value);
      } else {
        GivenKept(s.calls, s'.calls, s.phase.outcome.reply);
      }
    }
  }

  lemma FlagsKept(c: Config, s: State, l: Label)
    requires Flags(s) && CallsExist(s) && Enabled(c, s, l)
    ensures Flags(Next(c, s, l))
  {
  }

  lemma EndCallLedger(s: State, i: nat, fate: Fate, reply: Group.Reply)
    requires i < |s.attempts| && s.attempts[i].Waiting? && s.attempts[i].call < |s.calls|
    requires Ledger(s) && s.calls[s.attempts[i].call].fate.Open?
    requires var h := Group.Charge(reply, Some(s.succeeded));
             FateKind(fate) == if h.None? then None else Some(RecordKind(h.value))
    ensures Ledger(EndCall(s, i, fate, reply))
  {
    var s' := EndCall(s, i, fate, reply);
    var call := s.attempts[i].call;
    forall m: nat, kind ensures Sum(s'.calls, CallsOf(m, kind)) == Sum(s'.charges, ChargesOf(m, kind)) {
      SumSet(s.calls, call, s'.calls[call], CallsOf(m, kind));
      if s'.charges != s.charges {
        SumPush(s.charges, s'.charges[|s.charges|], ChargesOf(m, kind));
      }
    }
  }

  lemma CallNextLedger(c: Config, s: State, i: nat, tried: seq<nat>, raw: seq<Weight>, roll: real)
    requires Ledger(s) && i < |s.attempts|
    ensures Ledger(CallNext(c, s, i, tried, raw, roll))
  {
    var s' := CallNext(c, s, i, tried, raw, roll);
    if s'.calls != s.calls {
      forall m: nat, kind ensures Sum(s'.calls, CallsOf(m, kind)) == Sum(s'.charges, ChargesOf(m, kind)) {
        SumPush(s.calls, s'.calls[|s.calls|], CallsOf(m, kind));
      }
    }
  }

  lemma LedgerKept(c: Config, s: State, l: Label)
    requires Linked(c, s) && Ledger(s) && CallsExist(s) && Enabled(c, s, l)
    ensures Ledger(Next(c, s, l))
  {
    if (l.Answer? || l.Fail? || l.Drop?) && s.attempts[l.i].Waiting? {
      assert Owns(c, s, l.i);
    }
    match l
    case Begin(i, raw, roll) => CallNextLedger(c, s, i, [], raw, roll);
    case Answer(i, message, latency, wall) =>
      EndCallLedger(s, i, Succeeded(message), Group.Answered(message, latency, wall));
    case Fail(i, raw, roll) =>
      EndCallLedger(s, i, SoftFailed, Group.Errored);
      CallNextLedger(c, EndCall(s, i, SoftFailed, Group.Errored), i, s.attempts[i].tried, raw, roll);
    case Drop(i, wall) =>
      if s.attempts[i].Waiting? {
        EndCallLedger(s, i, if s.succeeded then Cancelled else TimedOut, Group.Dropped(wall));
      }
    case Tick(_) =>
    case Cancel =>
    case Return =>
    case Poll(_) =>
  }

  lemma BooksKept(c: Config, s: State, l: Label)
    requires Books(c, s) && CallsExist(s) && Enabled(c, s, l)
    ensures Books(c, Next(c, s, l))
  {
    LinkedKept(c, s, l);
    RepliesKept(c, s, l);
    FlagsKept(c, s, l);
    LedgerKept(c, s, l);
  }

  lemma BooksAtStart(c: Config)
    ensures Books(c, Init(c))
  {
    SumOne(Spawned, Waits);
  }

  lemma {:induction false} BooksAlways(c: Config, states: seq<State>, labels: seq<Label>, k: nat)
    requires Run(c, states, labels) && k < |states|
    ensures Books(c, states[k]) && CallsExist(states[k])
  {
    if k == 0 {
      BooksAtStart(c);
    } else {
      BooksAlways(c, states, labels, k - 1);
      assert StepAt(c, states, labels, k - 1);
      BooksKept(c, states[k - 1], labels[k - 1]);
    }
    forall i | 0 <= i < |states[k].attempts| && states[k].attempts[i].Waiting?
      ensures states[k].attempts[i].call < |states[k].calls|
    {
      assert Owns(c, states[k], i);
    }
  }

  // Whole runs

  /** Between any two moments of a run no call is lost or moved to another member, and a call
      that has ended keeps its one fate for good. */
  lemma {:induction false} CallsSettleOnce(c: Config, states: seq<State>, labels: seq<Label>, j: nat, k: nat)
    requires Run(c, states, labels) && j <= k < |states|
    ensures CallsGrow(states[j].calls, states[k].calls)
    decreases k
  {
    if j < k {
      CallsSettleOnce(c, states, labels, j, k - 1);
      StepGrowsCallsAt(c, states, labels, k - 1);
      GrowTransitive(states[j].calls, states[k - 1].calls, states[k].calls);
    }
  }

  lemma StepGrowsCallsAt(c: Config, states: seq<State>, labels: seq<Label>, k: nat)
    requires Run(c, states, labels) && k < |labels|
    ensures CallsGrow(states[k].calls, states[k + 1].calls)
  {
    assert Linked(c, states[k]) by { BooksAlways(c, states, labels, k); }
    assert StepAt(c, states, labels, k);
    StepGrowsCalls(c, states[k], labels[k]);
  }

  lemma GrowTransitive(a: seq<Call>, b: seq<Call>, c: seq<Call>)
    requires CallsGrow(a, b) && CallsGrow(b, c)
    ensures CallsGrow(a, c)
  {
  }

  /** When the engine has returned: every attempt is gone; every call it started ended in exactly one of
      success, soft failure, timeout or silent cancel; Ok means no timeout was charged to anyone and
      the answer is one a member gave; Err means no call was cancelled silently; and each member's
      charges match its calls, kind by kind. */
  lemma RetryAccounting(c: Config, states: seq<State>, labels: seq<Label>, k: nat)
    requires Run(c, states, labels) && k < |states| && states[k].phase.Returned?
    ensures var s := states[k];
            && (forall i :: 0 <= i < |s.attempts| ==> s.attempts[i].Gone?)
            && (forall i :: 0 <= i < |s.calls| ==> !s.calls[i].fate.Open?)
            && (s.phase.outcome.Ok? ==>
                  && Given(s.calls, s.phase.outcome.reply)
                  && (forall i :: 0 <= i < |s.calls| ==> !s.calls[i].fate.TimedOut?)
                  && (forall m: nat :: Sum(s.charges, ChargesOf(m, Timeout)) == 0))
            && (s.phase.outcome.Err? ==> forall i :: 0 <= i < |s.calls| ==> !s.calls[i].fate.Cancelled?)
            && (forall m: nat, kind :: Sum(s.charges, ChargesOf(m, kind)) == Sum(s.calls, CallsOf(m, kind)))
  {
    var s := states[k];
    BooksAlways(c, states, labels, k);
    AllZero(s.attempts, Waits);
    SumNonNegative(s.calls, Opens);
    forall i | 0 <= i < |s.calls| ensures !s.calls[i].fate.Open? {
      assert Opens(s.calls[i]) <= Sum(s.calls, Opens);
    }
    if s.phase.outcome.Ok? {
      forall m: nat ensures Sum(s.charges, ChargesOf(m, Timeout)) == 0 {
        AllZero(s.calls, CallsOf(m, Timeout));
      }
    }
  }

  lemma {:induction false} AllZero<T>(s: seq<T>, f: T -> int)
    requires forall i :: 0 <= i < |s| ==> f(s[i]) == 0
    ensures Sum(s, f) == 0
  {
    if s != [] {
      var p := s[..|s| - 1];
      assert forall i :: 0 <= i < |p| ==> p[i] == s[i];
      AllZero(p, f);
    }
  }

  // Budget expiry

  function OpenTo(m: nat): Call -> int {
    (k: Call) => if k.member == m && k.fate.Open? then 1 else 0
  }

  /** The attempts do nothing more of their own: they are only dropped. */
  predicate OnlyStops(l: Label) {
    l.Drop? || l.Tick? || l.Cancel? || l.Return?
  }

  /** Dropping moves a waiting call from the open ones to the timeouts of its member. */
  lemma StopConserves(c: Config, s: State, l: Label, m: nat)
    requires Linked(c, s) && CallsExist(s) && Enabled(c, s, l) && OnlyStops(l)
    requires !s.succeeded
    ensures var s' := Next(c, s, l);
            && !s'.succeeded
            && Sum(s'.calls, OpenTo(m)) + Sum(s'.charges, ChargesOf(m, Timeout))
               == Sum(s.calls, OpenTo(m)) + Sum(s.charges, ChargesOf(m, Timeout))
  {
    if l.Drop? && s.attempts[l.i].Waiting? {
      assert Owns(c, s, l.i);
      TimeoutConserves(s.calls, s.charges, s.attempts[l.i].call, l.wall, m);
    }
  }

  /** An open call becomes a timeout and is charged as one. */
  lemma TimeoutConserves(calls: seq<Call>, charges: seq<Charge>, call: nat, wall: int, m: nat)
    requires call < |calls| && calls[call].fate.Open?
    ensures var member := calls[call].member;
            var calls', charges' := calls[call := Call(member, TimedOut)],
                                    charges + [Charge(member, Stats.RecordTimeout(wall))];
            Sum(calls', OpenTo(m)) + Sum(charges', ChargesOf(m, Timeout))
            == Sum(calls, OpenTo(m)) + Sum(charges, ChargesOf(m, Timeout))
  {
    var member := calls[call].member;
    SumSet(calls, call, Call(member, TimedOut), OpenTo(m));
    SumPush(charges, Charge(member, Stats.RecordTimeout(wall)), ChargesOf(m, Timeout));
  }

  lemma {:induction false} StopsConserve(c: Config, states: seq<State>, labels: seq<Label>, j: nat, k: nat, m: nat)
    requires Run(c, states, labels) && j <= k < |states| && !states[j].succeeded
    requires forall i :: j <= i < k ==> OnlyStops(labels[i])
    ensures !states[k].succeeded
    ensures Sum(states[k].calls, OpenTo(m)) + Sum(states[k].charges, ChargesOf(m, Timeout))
            == Sum(states[j].calls, OpenTo(m)) + Sum(states[j].charges, ChargesOf(m, Timeout))
    decreases k
  {
    if j < k {
      StopsConserve(c, states, labels, j, k - 1, m);
      StopConservesAt(c, states, labels, k - 1, m);
    }
  }

  lemma StopConservesAt(c: Config, states: seq<State>, labels: seq<Label>, k: nat, m: nat)
    requires Run(c, states, labels) && k < |labels| && OnlyStops(labels[k]) && !states[k].succeeded
    ensures !states[k + 1].succeeded
    ensures Sum(states[k + 1].calls, OpenTo(m)) + Sum(states[k + 1].charges, ChargesOf(m, Timeout))
            == Sum(states[k].calls, OpenTo(m)) + Sum(states[k].charges, ChargesOf(m, Timeout))
  {
    assert Linked(c, states[k]) by { BooksAlways(c, states, labels, k); }
    assert StepAt(c, states, labels, k);
    StopConserves(c, states[k], labels[k], m);
  }

  // One call at a time

  /** Attempt i is waiting on call x. */
  predicate Owner(s: State, i: nat, x: nat) {
    i < |s.attempts| && s.attempts[i].Waiting? && s.attempts[i].call == x
  }

  /** Every open call has an attempt waiting on it. */
  ghost predicate OpenOwned(s: State) {
    forall x :: 0 <= x < |s.calls| && s.calls[x].fate.Open? ==> HasOwner(s, x)
  }

  ghost predicate HasOwner(s: State, x: nat) {
    exists i: nat :: Owner(s, i, x)
  }

  lemma OpenOwnedKept(c: Config, s: State, l: Label)
    requires Linked(c, s) && OpenOwned(s) && CallsExist(s) && Enabled(c, s, l)
    ensures OpenOwned(Next(c, s, l))
  {
    var s' := Next(c, s, l);
    StepGrowsCalls(c, s, l);
    forall x | 0 <= x < |s'.calls| && s'.calls[x].fate.Open? ensures HasOwner(s', x) {
      if x < |s.calls| {
        assert HasOwner(s, x);
        var i: nat :| Owner(s, i, x);
        OwnerKept(c, s, l, i, x);
      } else {
        assert Owner(s', l.i, x);
      }
    }
  }

  lemma OwnerKept(c: Config, s: State, l: Label, i: nat, x: nat)
    requires Linked(c, s) && CallsExist(s) && Enabled(c, s, l)
    requires Owner(s, i, x) && x < |Next(c, s, l).calls| && Next(c, s, l).calls[x].fate.Open?
    ensures Owner(Next(c, s, l), i, x)
  {
    assert Owns(c, s, i);
  }

  lemma {:induction false} OpenOwnedAlways(c: Config, states: seq<State>, labels: seq<Label>, k: nat)
    requires Run(c, states, labels) && k < |states|
    ensures OpenOwned(states[k])
  {
    if k > 0 {
      OpenOwnedAlways(c, states, labels, k - 1);
      assert Linked(c, states[k - 1]) by { BooksAlways(c, states, labels, k - 1); }
      assert StepAt(c, states, labels, k - 1);
      OpenOwnedKept(c, states[k - 1], labels[k - 1]);
    }
  }

  /** The member attempt i waits on answers or errors. */
  predicate MovesOn(l: Label, i: nat) { (l.Answer? || l.Fail?) && l.i == i }

  ghost predicate Idle(labels: seq<Label>, i: nat, j: nat, k: nat) {
    k <= |labels| && forall p :: j <= p < k ==> !MovesOn(labels[p], i)
  }

  /** Where call x of attempt i stands: while the attempt is idle it is open or has timed out; once the attempt has
      moved on it has ended otherwise. */
  ghost predicate Stands(s: State, i: nat, x: nat, idle: bool) {
    && i < |s.attempts| && x < |s.calls|
    && if idle
       then (Owner(s, i, x) && s.calls[x].fate.Open?) || (s.attempts[i].Gone? && s.calls[x].fate.TimedOut?)
       else s.calls[x].fate.Succeeded? || s.calls[x].fate.SoftFailed?
  }

  lemma StandsKept(c: Config, s: State, l: Label, i: nat, x: nat, idle: bool)
    requires Linked(c, s) && CallsExist(s) && Enabled(c, s, l) && Stands(s, i, x, idle)
    requires !s.phase.Running? && !s.succeeded
    ensures Stands(Next(c, s, l), i, x, idle && !MovesOn(l, i))
  {
    StepGrowsCalls(c, s, l);
    if idle && Owner(s, i, x) {
      assert Owns(c, s, i);
      if (l.Answer? || l.Fail? || l.Drop?) && s.attempts[l.i].Waiting? && l.i != i {
        assert Owns(c, s, l.i) && s.attempts[l.i].call != x;
      }
    }
  }

  lemma {:induction false} CallFate(c: Config, states: seq<State>, labels: seq<Label>, j: nat, k: nat, i: nat, x: nat)
    requires Run(c, states, labels) && j <= k < |states| && !states[j].phase.Running? && !states[j].succeeded
    requires Owner(states[j], i, x)
    ensures Stands(states[k], i, x, Idle(labels, i, j, k))
    decreases k
  {
    if j == k {
      assert Owns(c, states[j], i) by { BooksAlways(c, states, labels, j); }
    } else {
      CallFate(c, states, labels, j, k - 1, i, x);
      FlagStaysDown(c, states, labels, j, k - 1);
      assert Linked(c, states[k - 1]) by { BooksAlways(c, states, labels, k - 1); }
      assert StepAt(c, states, labels, k - 1);
      StandsKept(c, states[k - 1], labels[k - 1], i, x, Idle(labels, i, j, k - 1));
      assert Idle(labels, i, j, k) <==> Idle(labels, i, j, k - 1) && !MovesOn(labels[k - 1], i);
    }
  }

  /** Call x ends, by moment k, as a timeout if and only if the attempt that waits on it at j neither gets an answer
      nor an error from then on; otherwise it ends as a success or a soft failure. */
  ghost predicate TimesOutIffIdle(states: seq<State>, labels: seq<Label>, j: nat, k: nat, x: nat)
    requires j < |states| && k < |states|
  {
    exists i: nat ::
      && Owner(states[j], i, x)
      && x < |states[k].calls|
      && (states[k].calls[x].fate.TimedOut? <==> Idle(labels, i, j, k))
      && (!states[k].calls[x].fate.TimedOut? ==>
            states[k].calls[x].fate.Succeeded? || states[k].calls[x].fate.SoftFailed?)
  }

  lemma OpenCallEnds(c: Config, states: seq<State>, labels: seq<Label>, j: nat, k: nat, x: nat)
    requires Run(c, states, labels) && j <= k < |states|
    requires !states[j].phase.Running? && !states[j].succeeded && states[k].phase.Returned?
    requires x < |states[j].calls| && states[j].calls[x].fate.Open?
    ensures TimesOutIffIdle(states, labels, j, k, x)
  {
    OpenOwnedAlways(c, states, labels, j);
    assert HasOwner(states[j], x);
    var i: nat :| Owner(states[j], i, x);
    CallFate(c, states, labels, j, k, i, x);
    assert Gathered(states[k]) by { BooksAlways(c, states, labels, k); }
  }

  /** Once the budget has expired, every call then open ends charged: as a timeout if and only if the attempt waiting
      on it gets neither an answer nor an error while it is being stopped, else as what it got; it is never cancelled
      silently. If no attempt takes a step of its own any more, each member is charged exactly one timeout per open
      call. */
  lemma ExpiryCharges(c: Config, states: seq<State>, labels: seq<Label>, j: nat, k: nat)
    requires Run(c, states, labels) && j <= k < |states|
    requires states[j].phase.Stopping? && states[j].phase.outcome.Err? && states[k].phase.Returned?
    ensures forall x :: 0 <= x < |states[j].calls| && states[j].calls[x].fate.Open? ==>
              TimesOutIffIdle(states, labels, j, k, x)
    ensures forall i :: 0 <= i < |states[j].calls| && states[j].calls[i].fate.Open? ==>
              i < |states[k].calls| && FateKind(states[k].calls[i].fate).Some?
    ensures (forall i :: j <= i < k ==> OnlyStops(labels[i])) ==> forall m: nat ::
              Sum(states[k].charges, ChargesOf(m, Timeout))
              == Sum(states[j].charges, ChargesOf(m, Timeout)) + Sum(states[j].calls, OpenTo(m))
  {
    assert !states[j].succeeded by { BooksAlways(c, states, labels, j); }
    forall x | 0 <= x < |states[j].calls| && states[j].calls[x].fate.Open?
      ensures TimesOutIffIdle(states, labels, j, k, x)
    {
      OpenCallEnds(c, states, labels, j, k, x);
    }
    if forall i :: j <= i < k ==> OnlyStops(labels[i]) {
      RetryAccounting(c, states, labels, k);
      forall m: nat ensures Sum(states[k].charges, ChargesOf(m, Timeout))
                            == Sum(states[j].charges, ChargesOf(m, Timeout)) + Sum(states[j].calls, OpenTo(m))
      {
        StopsConserve(c, states, labels, j, k, m);
        AllZero(states[k].calls, OpenTo(m));
      }
    }
  }

  /** The flag is raised only on the way out of the running phase. */
  lemma {:induction false} FlagStaysDown(c: Config, states: seq<State>, labels: seq<Label>, j: nat, k: nat)
    requires Run(c, states, labels) && j <= k < |states|
    requires !states[j].phase.Running?
    ensures !states[k].phase.Running? && states[k].succeeded == states[j].succeeded
    decreases k
  {
    if j < k {
      FlagStaysDown(c, states, labels, j, k - 1);
      assert StepAt(c, states, labels, k - 1);
    }
  }

  // Down to the member statistics

  /** The records a member received, in order. */
  function RecordsTo(m: nat, charges: seq<Charge>): seq<Stats.Record> {
    if charges == [] then []
    else
      var last := charges[|charges| - 1];
      RecordsTo(m, charges[..|charges| - 1]) + if last.member == m then [last.record] else []
  }

  lemma {:induction false} RecordCounts(m: nat, charges: seq<Charge>)
    ensures var rs := RecordsTo(m, charges);
            && |rs| == Sum(charges, ChargesOf(m, Success)) + Sum(charges, ChargesOf(m, SoftFail))
                       + Sum(charges, ChargesOf(m, Timeout))
            && Sum(rs, Stats.IsSuccess) == Sum(charges, ChargesOf(m, Success))
            && Sum(rs, Stats.IsTimeout) == Sum(charges, ChargesOf(m, Timeout))
  {
    if charges != [] {
      var p, last := charges[..|charges| - 1], charges[|charges| - 1];
      RecordCounts(m, p);
      if last.member == m {
        SumPush(RecordsTo(m, p), last.record, Stats.IsSuccess);
        SumPush(RecordsTo(m, p), last.record, Stats.IsTimeout);
      } else {
        assert RecordsTo(m, charges) == RecordsTo(m, p);
      }
    }
  }

  /** The member's whole log: this query's records and those of other queries, each in their own order. */
  ghost predicate Interleaved(all: seq<Stats.Record>, mine: seq<Stats.Record>, others: seq<Stats.Record>) {
    if all == [] then mine == [] && others == []
    else
      var p, r := all[..|all| - 1], all[|all| - 1];
      || (mine != [] && mine[|mine| - 1] == r && Interleaved(p, mine[..|mine| - 1], others))
      || (others != [] && others[|others| - 1] == r && Interleaved(p, mine, others[..|others| - 1]))
  }

  lemma {:induction false} InterleavedSums(all: seq<Stats.Record>, mine: seq<Stats.Record>, others: seq<Stats.Record>,
                                           f: Stats.Record -> int)
    requires Interleaved(all, mine, others)
    ensures |all| == |mine| + |others| && Sum(all, f) == Sum(mine, f) + Sum(others, f)
  {
    if all != [] {
      var p, r := all[..|all| - 1], all[|all| - 1];
      if mine != [] && mine[|mine| - 1] == r && Interleaved(p, mine[..|mine| - 1], others) {
        InterleavedSums(p, mine[..|mine| - 1], others, f);
      } else {
        InterleavedSums(p, mine, others[..|others| - 1], f);
      }
    }
  }

  lemma {:induction false} InterleavedWithin(all: seq<Stats.Record>, mine: seq<Stats.Record>, others: seq<Stats.Record>,
                                             now: int)
    requires Interleaved(all, mine, others) && Stats.WithinClock(all, now)
    ensures Stats.WithinClock(others, now)
  {
    if all != [] {
      var p, r := all[..|all| - 1], all[|all| - 1];
      assert forall i :: 0 <= i < |p| ==> p[i] == all[i];
      if mine != [] && mine[|mine| - 1] == r && Interleaved(p, mine[..|mine| - 1], others) {
        InterleavedWithin(p, mine[..|mine| - 1], others, now);
      } else {
        InterleavedWithin(p, mine, others[..|others| - 1], now);
      }
    }
  }

  /** What a query does to a member's statistics, whatever other queries record before it, after it and in between:
      the window receives one sample per success, soft failure and timeout of that member, and the dashboard one
      per success and timeout. Without a retention limit that is what the dashboard shows more, at any time. */
  lemma MemberStatistics(c: Config, states: seq<State>, labels: seq<Label>, k: nat, m: nat,
                         others: seq<Stats.Record>, all: seq<Stats.Record>, window: nat, retentionDays: nat, now: int)
    requires Run(c, states, labels) && k < |states|
    requires Interleaved(all, RecordsTo(m, states[k].charges), others)
    ensures var s := states[k];
            var won, soft, late := Sum(s.calls, CallsOf(m, Success)), Sum(s.calls, CallsOf(m, SoftFail)),
                                   Sum(s.calls, CallsOf(m, Timeout));
            var st := Stats.Replay(Stats.WithRetention(window, retentionDays), all);
            var without := Stats.Replay(Stats.WithRetention(window, retentionDays), others);
            && |all| == |others| + won + soft + late
            && st.samples == Stats.LastN(Stats.Samples(all), st.window)
            && Stats.LogTotals(Stats.DashboardLog(all), None).samples
               == Stats.LogTotals(Stats.DashboardLog(others), None).samples + won + late
            && Stats.LogTotals(Stats.DashboardLog(all), None).successes
               == Stats.LogTotals(Stats.DashboardLog(others), None).successes + won
            && (retentionDays == 0 && Stats.I64(now) && Stats.WithinClock(all, now) ==>
                  && Stats.SnapshotAt(st, now).samples == Stats.SnapshotAt(without, now).samples + won + late
                  && Stats.SnapshotAt(st, now).successes == Stats.SnapshotAt(without, now).successes + won)
  {
    var s := states[k];
    var mine := RecordsTo(m, s.charges);
    BooksAlways(c, states, labels, k);
    RecordCounts(m, s.charges);
    Stats.WindowIsLastSamples(window, retentionDays, all);
    Stats.DashboardCounts(others);
    Stats.DashboardCounts(all);
    InterleavedSums(all, mine, others, Stats.IsSuccess);
    InterleavedSums(all, mine, others, Stats.IsTimeout);
    if retentionDays == 0 && Stats.I64(now) && Stats.WithinClock(all, now) {
      InterleavedWithin(all, mine, others, now);
      Stats.SnapshotEqualsLog(window, retentionDays, all, now);
      Stats.SnapshotEqualsLog(window, retentionDays, others, now);
    }
  }
}
