/** Member choice and accounting inside one attempt: src/upstream/group.rs. */
module Group {
  import opened Prelude
  import opened Selector
  import Stats

  const MAX_ATTEMPTS: nat := 2

  /** The engine treats messages as opaque; a token identifies one. */
  type Message = nat

  /** The number of members one resolution may try. */
  function TryLimit(members: nat): nat {
    if members < MAX_ATTEMPTS then members else MAX_ATTEMPTS
  }

  /** Tried members weigh nothing; the others carry their raw weight. */
  function Weights(raw: seq<Weight>, tried: seq<nat>): (ws: seq<Weight>)
    ensures |ws| == |raw|
    ensures forall i :: 0 <= i < |ws| ==> ws[i] == if i in tried then Finite(0.0) else raw[i]
  {
    seq(|raw|, i requires 0 <= i < |raw| => if i in tried then Finite(0.0) else raw[i])
  }

  function FirstUntried(members: nat, tried: seq<nat>, from: nat): (r: Option<nat>)
    requires from <= members
    ensures r.Some? ==> from <= r.value < members && r.value !in tried
    ensures r.None? ==> forall i :: from <= i < members ==> i in tried
    decreases members - from
  {
    if from == members then None
    else if from !in tried then Some(from)
    else FirstUntried(members, tried, from + 1)
  }

  /** The member the next iteration tries; None is a `break`. */
  function Choose(raw: seq<Weight>, roll: real, fp: Arithmetic, tried: seq<nat>): Option<nat> {
    var pick := Pick(Weights(raw, tried), roll, fp);
    if pick.None? then None
    else if pick.value in tried then FirstUntried(|raw|, tried, 0)
    else pick
  }

  /** Tried members so far: distinct indices of the group. */
  ghost predicate Tries(tried: seq<nat>, members: nat) {
    Distinct(tried) && forall i :: 0 <= i < |tried| ==> tried[i] < members
  }

  ghost function Below(n: nat): (r: set<nat>)
    ensures |r| == n && forall i: nat :: i in r <==> i < n
  {
    if n == 0 then {} else Below(n - 1) + {n - 1}
  }

  ghost function Elements(s: seq<nat>): (r: set<nat>)
    ensures |r| <= |s| && forall x: nat :: x in r <==> x in s
  {
    if s == [] then {} else Elements(s[..|s| - 1]) + {s[|s| - 1]}
  }

  lemma CoverNeedsLength(tried: seq<nat>, n: nat)
    requires forall i :: 0 <= i < |tried| ==> tried[i] < n
    requires forall i :: 0 <= i < n ==> i in tried
    ensures |tried| >= n
  {
    assert Below(n) == Elements(tried);
  }

  /** While some member is untried the choice exists and is a fresh member, whatever the
      weights (all zero, poisoned, not finite), the roll and the rounding. */
  lemma ChooseIsFresh(raw: seq<Weight>, roll: real, fp: Arithmetic, tried: seq<nat>)
    requires Tries(tried, |raw|) && |tried| < |raw|
    ensures Choose(raw, roll, fp, tried).Some?
    ensures Choose(raw, roll, fp, tried).value < |raw| && Choose(raw, roll, fp, tried).value !in tried
  {
    PickInRange(Weights(raw, tried), roll, fp);
    if forall i :: 0 <= i < |raw| ==> i in tried {
      CoverNeedsLength(tried, |raw|);
    }
  }

  method NextMember(raw: seq<Weight>, roll: real, fp: Arithmetic, tried: seq<nat>) returns (idx: nat)
    requires Tries(tried, |raw|) && |tried| < |raw|
    ensures Choose(raw, roll, fp, tried) == Some(idx)
    ensures idx < |raw| && idx !in tried
  {
    ChooseIsFresh(raw, roll, fp, tried);
    var picked := PickWeighted(Weights(raw, tried), roll, fp);
    idx := 0;
    if picked.None? {
      assert false;  // the first `break` is unreachable
    } else if picked.value in tried {
      var untried := FirstUntried(|raw|, tried, 0);
      if untried.None? {
        assert false;  // and so is the second
      } else {
        idx := untried.value;
      }
    } else {
      idx := picked.value;
    }
  }

  /** The recorder calls made on each member's statistics. */
  type Records = seq<seq<Stats.Record>>

  /** The weights the group draws from: one per member, from that member's statistics. */
  function RawWeights(stats: seq<Stats.Model>, k: real): (ws: seq<Weight>)
    requires forall i :: 0 <= i < |stats| ==> Stats.NonNegativeLatencies(stats[i].samples)
    ensures |ws| == |stats|
  {
    seq(|stats|, i requires 0 <= i < |stats| => Finite(Stats.WeightOf(stats[i], k)))
  }

  /** The choice is the weighted one among the untried members: without rounding, member i is chosen exactly when
      roll * total lies between the untried weights before and after it. */
  lemma ChooseIsWeighted(raw: seq<Weight>, roll: real, fp: Arithmetic, tried: seq<nat>, i: nat, target: real)
    requires Exact(fp) && 0.0 <= roll < 1.0 && i < |raw| && i !in tried
    requires Prefix(Weights(raw, tried), |raw|) > 0.0 && target == roll * Prefix(Weights(raw, tried), |raw|)
    ensures Choose(raw, roll, fp, tried) == Some(i)
            <==> Prefix(Weights(raw, tried), i) <= target < Prefix(Weights(raw, tried), i + 1)
  {
    var ws := Weights(raw, tried);
    PickIsPartition(ws, roll, fp, i, target);
    AccumulatedIsPrefix(ws, |ws|, fp);
    PickInRange(ws, roll, fp);
  }

  /** When no untried member has a positive weight, it is a uniform draw over all members; if that falls on a tried one,
      the first untried member takes its place. */
  lemma ChooseIsUniform(raw: seq<Weight>, roll: real, fp: Arithmetic, tried: seq<nat>, drawn: nat, target: real)
    requires Exact(fp) && 0.0 <= roll < 1.0 && drawn < |raw|
    requires forall j :: 0 <= j < |raw| && j !in tried ==> !Positive(raw[j])
    requires target == roll * |raw| as real && drawn as real <= target < drawn as real + 1.0
    ensures var chosen := Choose(raw, roll, fp, tried);
            if drawn !in tried then chosen == Some(drawn)
            else if chosen.Some? then
              && chosen.value < |raw| && chosen.value !in tried
              && forall j :: 0 <= j < chosen.value ==> j in tried
            else forall j :: 0 <= j < |raw| ==> j in tried
  {
    var ws := Weights(raw, tried);
    assert forall j :: 0 <= j < |ws| ==> !Positive(ws[j]);
    PickIsUniform(ws, roll, fp, drawn, target);
    FirstUntriedIsFirst(|raw|, tried, 0);
  }

  lemma {:induction false} FirstUntriedIsFirst(members: nat, tried: seq<nat>, from: nat)
    requires from <= members
    ensures var r := FirstUntried(members, tried, from);
            r.Some? ==> forall j :: from <= j < r.value ==> j in tried
    decreases members - from
  {
    if from < members && from in tried { FirstUntriedIsFirst(members, tried, from + 1); }
  }

  /** The statistics the recorder calls made of fresh objects. */
  function Statistics(records: Records, window: nat, retentionDays: nat): (r: seq<Stats.Model>)
    ensures |r| == |records|
    ensures forall i :: 0 <= i < |r| ==> r[i] == Stats.Replay(Stats.WithRetention(window, retentionDays), records[i])
  {
    seq(|records|, i requires 0 <= i < |records| =>
        Stats.Replay(Stats.WithRetention(window, retentionDays), records[i]))
  }

  /** No member is starved: whatever was recorded, and whichever others were tried before in this resolution, some
      roll chooses it. */
  lemma NoMemberStarved(records: Records, window: nat, retentionDays: nat, k: real, fp: Arithmetic,
                        tried: seq<nat>, m: nat) returns (roll: real)
    requires forall i :: 0 <= i < |records| ==> Stats.Durations(records[i])
    requires m < |records| && m !in tried && Exact(fp)
    ensures forall i :: 0 <= i < |records| ==>
              Stats.NonNegativeLatencies(Statistics(records, window, retentionDays)[i].samples)
    ensures 0.0 <= roll < 1.0
    ensures Choose(RawWeights(Statistics(records, window, retentionDays), k), roll, fp, tried) == Some(m)
  {
    var stats := Statistics(records, window, retentionDays);
    forall i | 0 <= i < |records| ensures Stats.NonNegativeLatencies(stats[i].samples) {
      Stats.ReplayNonNegative(window, retentionDays, records[i]);
    }
    var ws := Weights(RawWeights(stats, k), tried);
    Stats.WeightInUnitInterval(window, retentionDays, records[m], k);
    assert ws[m] == Finite(Stats.WeightOf(stats[m], k));
    roll := PositiveWeightIsReachable(ws, fp, m);
  }

  // What one member call records

  /** How a call of a member's resolver ends: it answers, errors, or its future is dropped. */
  datatype Reply =
    | Answered(message: Message, latency: real, now: int)
    | Errored
    | Dropped(now: int)

  /** The record a call leaves: a dropped call is charged unless its query already succeeded. */
  function Charge(reply: Reply, succeeded: Option<bool>): Option<Stats.Record> {
    match reply
    case Answered(_, latency, now) => Some(Stats.RecordSuccess(latency, now))
    case Errored => Some(Stats.RecordSoftFail)
    case Dropped(now) => if succeeded == Some(true) then None else Some(Stats.RecordTimeout(now))
  }

  function ChargeTo(records: Records, m: nat, reply: Reply, succeeded: Option<bool>): Records
    requires m < |records|
  {
    var charge := Charge(reply, succeeded);
    if charge.None? then records else records[m := records[m] + [charge.value]]
  }

  /** The recorder calls after the given tries, the k-th of them answered by the k-th round. */
  function AfterTries(records: Records, tried: seq<nat>, rounds: seq<Round>, succeeded: Option<bool>): (r: Records)
    requires |tried| <= |rounds| && forall i :: 0 <= i < |tried| ==> tried[i] < |records|
    ensures |r| == |records|
  {
    if tried == [] then records
    else
      var k := |tried| - 1;
      ChargeTo(AfterTries(records, tried[..k], rounds, succeeded), tried[k], rounds[k].reply, succeeded)
  }

  /** Each tried member is charged for its own call and nothing else; the others are untouched. */
  lemma {:induction false} ChargedOnce(records: Records, tried: seq<nat>, rounds: seq<Round>,
                                       succeeded: Option<bool>, m: nat)
    requires |tried| <= |rounds| && Tries(tried, |records|) && m < |records|
    ensures m !in tried ==> AfterTries(records, tried, rounds, succeeded)[m] == records[m]
    ensures forall j :: 0 <= j < |tried| && tried[j] == m ==>
              AfterTries(records, tried, rounds, succeeded)[m] == ChargeTo(records, m, rounds[j].reply, succeeded)[m]
  {
    if tried != [] {
      var k := |tried| - 1;
      var p := tried[..k];
      assert Tries(p, |records|) && forall j :: 0 <= j < k ==> p[j] == tried[j];
      ChargedOnce(records, p, rounds, succeeded, m);
      if tried[k] == m {
        assert m !in p;
      } else {
        assert forall j :: 0 <= j < |tried| && tried[j] == m ==> j < k && p[j] == m;
      }
    }
  }

  /** Every try was the choice made after the ones before it. */
  ghost predicate Picks(rounds: seq<Round>, fp: Arithmetic, tried: seq<nat>)
    requires |tried| <= |rounds|
  {
    tried == [] ||
    (var k := |tried| - 1;
     Picks(rounds, fp, tried[..k]) && Choose(rounds[k].raw, rounds[k].roll, fp, tried[..k]) == Some(tried[k]))
  }

  datatype Resolution = Ok(message: Message, name: string) | Err | Cancelled

  /** What the environment supplies to the k-th iteration. */
  datatype Round = Round(raw: seq<Weight>, roll: real, reply: Reply)

  lemma OneMoreTry(records: Records, tried: seq<nat>, idx: nat, rounds: seq<Round>, fp: Arithmetic,
                   succeeded: Option<bool>)
    requires |tried| < |rounds| && Tries(tried, |records|) && idx < |records| && idx !in tried
    requires Picks(rounds, fp, tried)
    requires Choose(rounds[|tried|].raw, rounds[|tried|].roll, fp, tried) == Some(idx)
    ensures Tries(tried + [idx], |records|) && Picks(rounds, fp, tried + [idx])
    ensures AfterTries(records, tried + [idx], rounds, succeeded)
            == ChargeTo(AfterTries(records, tried, rounds, succeeded), idx, rounds[|tried|].reply, succeeded)
  {
    assert (tried + [idx])[..|tried|] == tried;
  }

  /** The first n rounds all ended in an error. */
  ghost predicate AllErrored(rounds: seq<Round>, n: nat) {
    n <= |rounds| && forall k :: 0 <= k < n ==> rounds[k].reply.Errored?
  }

  /** What a result says about the last try: an answer is that member's, under its name; an error means the try
      limit was used up. */
  predicate Concludes(result: Resolution, names: seq<string>, rounds: seq<Round>, tried: seq<nat>)
    requires |tried| <= |rounds| && forall i :: 0 <= i < |tried| ==> tried[i] < |names|
  {
    var k := |tried| - 1;
    match result
    case Err => |tried| == TryLimit(|names|) && (tried != [] ==> rounds[k].reply.Errored?)
    case Ok(message, name) =>
      tried != [] && name == names[tried[k]] && rounds[k].reply.Answered? && rounds[k].reply.message == message
    case Cancelled => tried != [] && rounds[k].reply.Dropped?
  }

  class UpstreamGroup {
    const names: seq<string>
    const window: nat
    const retentionDays: nat
    var records: Records

    ghost predicate Valid()
      reads this
    {
      |records| == |names|
    }

    /** A member's statistics are what its recorder calls made of a fresh object. */
    ghost function StatsOf(m: nat): Stats.Model
      requires Valid() && m < |names|
      reads this
    {
      Statistics(records, window, retentionDays)[m]
    }

    constructor (names: seq<string>, window: nat, retentionDays: nat)
      ensures Valid() && this.names == names
      ensures forall i :: 0 <= i < |names| ==> StatsOf(i) == Stats.WithRetention(window, retentionDays)
    {
      this.names, this.window, this.retentionDays := names, window, retentionDays;
      this.records := seq(|names|, i => []);
    }

    /** The guard is armed across the await, disarmed on either answer, and consulted on drop. */
    method TryMember(m: nat, reply: Reply, succeeded: Option<bool>)
      requires Valid() && m < |names|
      modifies this`records
      ensures Valid() && records == ChargeTo(old(records), m, reply, succeeded)
    {
      var armed := true;
      match reply {
        case Answered(_, latency, now) =>
          armed := false;
          records := records[m := records[m] + [Stats.RecordSuccess(latency, now)]];
        case Errored =>
          armed := false;
          records := records[m := records[m] + [Stats.RecordSoftFail]];
        case Dropped(_) =>
      }
      if armed && succeeded != Some(true) {
        records := records[m := records[m] + [Stats.RecordTimeout(reply.now)]];
      }
    }

    /** The try order is distinct, an error means exactly the try limit was used up, each try but
        the last failed, and the name reported is that of the member that answered. */
    method ResolveMember(rounds: seq<Round>, fp: Arithmetic, succeeded: Option<bool>)
        returns (result: Resolution, tried: seq<nat>)
      requires Valid()
      requires |rounds| >= TryLimit(|names|)
      requires forall k :: 0 <= k < |rounds| ==> |rounds[k].raw| == |names|
      modifies this`records
      ensures Valid() && Tries(tried, |names|) && |tried| <= TryLimit(|names|)
      ensures Picks(rounds, fp, tried)
      ensures tried != [] ==> AllErrored(rounds, |tried| - 1)
      ensures Concludes(result, names, rounds, tried)
      ensures records == AfterTries(old(records), tried, rounds, succeeded)
    {
      tried := [];
      if |names| == 0 {
        return Err, tried;
      }
      var attempts := TryLimit(|names|);
      for k := 0 to attempts
        invariant Valid() && |tried| == k && Tries(tried, |names|)
        invariant Picks(rounds, fp, tried)
        invariant AllErrored(rounds, k)
        invariant records == AfterTries(old(records), tried, rounds, succeeded)
      {
        var idx := NextMember(rounds[k].raw, rounds[k].roll, fp, tried);
        OneMoreTry(old(records), tried, idx, rounds, fp, succeeded);
        tried := tried + [idx];
        TryMember(idx, rounds[k].reply, succeeded);
        match rounds[k].reply {
          case Answered(message, _, _) => return Ok(message, names[idx]), tried;
          case Dropped(_) => return Cancelled, tried;
          case Errored =>
        }
      }
      return Err, tried;
    }
  }
}
