/** Two runs of the cache with different budgets against each other. */
module CacheInclusion {
  import opened Multiples
  import opened Prelude
  import opened Dns
  import opened Cache
  import opened CacheRuns

  /** a is b with some entries left out. */
  predicate Subsequence(a: seq<Entry>, b: seq<Entry>) {
    a == [] ||
    (b != [] && if a[|a| - 1] == b[|b| - 1] then Subsequence(a[..|a| - 1], b[..|b| - 1])
                else Subsequence(a, b[..|b| - 1]))
  }

  lemma {:induction false} SubsequenceLength(a: seq<Entry>, b: seq<Entry>)
    requires Subsequence(a, b)
    ensures |a| <= |b| && forall e :: e in a ==> e in b
  {
    if a != [] {
      var a', b' := a[..|a| - 1], b[..|b| - 1];
      if a[|a| - 1] == b[|b| - 1] {
        SubsequenceLength(a', b');
        assert a == a' + [a[|a| - 1]];
      } else {
        SubsequenceLength(a, b');
      }
      assert b == b' + [b[|b| - 1]];
    }
  }

  lemma {:induction false} SubsequenceDropLast(a: seq<Entry>, b: seq<Entry>)
    requires Subsequence(a, b) && a != []
    ensures Subsequence(a[..|a| - 1], b)
    decreases |b|
  {
    var a', b' := a[..|a| - 1], b[..|b| - 1];
    if a[|a| - 1] == b[|b| - 1] {
      if a' != [] && a'[|a'| - 1] == b[|b| - 1] { SubsequenceDropLast(a', b'); }
    } else {
      SubsequenceDropLast(a, b');
      if a' != [] && a'[|a'| - 1] == b[|b| - 1] { SubsequenceDropLast(a', b'); }
    }
  }

  lemma SubsequencePushRight(a: seq<Entry>, b: seq<Entry>, e: Entry)
    requires Subsequence(a, b)
    ensures Subsequence(a, b + [e])
  {
    assert (b + [e])[..|b|] == b;
    if a != [] { SubsequenceDropLast(a, b); }
  }

  lemma SubsequencePush(a: seq<Entry>, b: seq<Entry>, e: Entry)
    requires Subsequence(a, b)
    ensures Subsequence(a + [e], b + [e])
  {
    assert (a + [e])[..|a|] == a && (b + [e])[..|b|] == b;
  }

  lemma {:induction false} SubsequenceWithout(a: seq<Entry>, b: seq<Entry>, key: Key)
    requires Subsequence(a, b)
    ensures Subsequence(Without(a, key), Without(b, key))
    decreases |b|
  {
    if a != [] {
      var a', b', last := a[..|a| - 1], b[..|b| - 1], b[|b| - 1];
      if a[|a| - 1] == last {
        SubsequenceWithout(a', b', key);
        SubsequencePush(Without(a', key), Without(b', key), last);
      } else {
        SubsequenceWithout(a, b', key);
        SubsequencePushRight(Without(a, key), Without(b', key), last);
      }
      if last.key == key {
        assert Without(b, key) == Without(b', key);
        assert a[|a| - 1] == last ==> Without(a, key) == Without(a', key);
      }
    }
  }

  lemma {:induction false} SubsequenceDropFront(a: seq<Entry>, b: seq<Entry>)
    requires Subsequence(a, b) && a != []
    ensures b != [] && Subsequence(a[1..], b) && Subsequence(a[1..], b[1..])
    decreases |b|
  {
    if |a| > 1 {
      var a', b' := a[..|a| - 1], b[..|b| - 1];
      var t := a[1..];
      assert b[1..][..|b| - 2] == b'[1..] && t[..|t| - 1] == a'[1..];
      if a[|a| - 1] == b[|b| - 1] {
        SubsequenceDropFront(a', b');
        assert |b| > 1 by { SubsequenceLength(a, b); }
      } else {
        SubsequenceDropFront(a, b');
        assert |b'| > 1 by { SubsequenceLength(a, b'); }
      }
    }
  }

  /** Equal costs turn the byte budget into a capacity. */
  predicate EqualCosts(entries: seq<Entry>, cost: nat) {
    forall i :: 0 <= i < |entries| ==> entries[i].cost == cost
  }

  lemma {:induction false} CostsOfEqual(entries: seq<Entry>, cost: nat)
    requires EqualCosts(entries, cost)
    ensures Costs(entries) == |entries| * cost
  {
    if entries != [] {
      CostsOfEqual(entries[..|entries| - 1], cost);
      assert |entries| * cost == (|entries| - 1) * cost + cost;
    }
  }

  lemma CapacityRule(n: nat, cost: nat, maxBytes: nat)
    requires cost > 0
    ensures n * cost <= maxBytes <==> n <= maxBytes / cost
  {
    var q := maxBytes / cost;
    MulDistributes(q, 1, cost);
    if n <= q { MulMonotone(n, q, cost); } else { MulMonotone(q + 1, n, cost); }
  }

  /** With equal costs, a list over capacity by at most one loses at most its first entry. */
  lemma TrimEqual(a: seq<Entry>, cost: nat, maxBytes: nat)
    requires cost > 0 && EqualCosts(a, cost) && |a| <= maxBytes / cost + 1
    ensures Trim(a, maxBytes) == if |a| <= maxBytes / cost then a else a[1..]
  {
    CostsOfEqual(a, cost);
    CapacityRule(|a|, cost, maxBytes);
    if |a| > maxBytes / cost {
      CostsOfEqual(a[1..], cost);
      CapacityRule(|a| - 1, cost, maxBytes);
    }
  }

  /** The relation between the small cache s and the large cache l. */
  ghost predicate Included(s: Model, l: Model, cost: nat)
    requires cost > 0
  {
    && s.maxBytes <= l.maxBytes
    && DistinctKeys(s.entries) && DistinctKeys(l.entries)
    && EqualCosts(s.entries, cost) && EqualCosts(l.entries, cost)
    && |s.entries| <= s.maxBytes / cost && |l.entries| <= l.maxBytes / cost
    && Subsequence(s.entries, l.entries)
    && (|s.entries| < s.maxBytes / cost ==> s.entries == l.entries)
  }

  lemma WithoutLength(a: seq<Entry>, key: Key)
    requires DistinctKeys(a)
    ensures |Without(a, key)| == |a| - if Has(a, key) then 1 else 0
  {
    if Has(a, key) {
      var i :| 0 <= i < |a| && a[i].key == key;
      WithoutPresent(a, i);
    } else {
      WithoutAbsent(a, key);
    }
  }

  lemma CapacityMonotone(s: nat, l: nat, cost: nat)
    requires cost > 0 && s <= l
    ensures s / cost <= l / cost
  {
    CapacityRule(s / cost, cost, l);
    assert s / cost * cost <= s;
  }

  lemma FitsIffCapacity(maxBytes: nat, cost: nat)
    requires cost > 0
    ensures cost <= maxBytes <==> 1 <= maxBytes / cost
  {
    CapacityRule(1, cost, maxBytes);
  }

  /** The list a put starts trimming from. */
  lemma WithPushed(a: seq<Entry>, e: Entry, cost: nat)
    requires EqualCosts(a, cost) && DistinctKeys(a) && e.cost == cost
    ensures var all := Without(a, e.key) + [e];
            EqualCosts(all, cost) && DistinctKeys(all) && |all| <= |a| + 1
  {
    WithoutKeeps(a, e.key);
    WithoutLength(a, e.key);
    var rest := Without(a, e.key);
    forall i | 0 <= i < |rest| ensures rest[i].cost == cost { assert rest[i] in rest; }
  }

  /** What a put does under equal costs, with the capacity worked out. */
  lemma PutEqual(m: Model, e: Entry, cost: nat, cap: nat)
    requires cost > 0 && e.cost == cost && EqualCosts(m.entries, cost) && DistinctKeys(m.entries)
    requires |m.entries| <= cap && cap == m.maxBytes / cost
    ensures var m' := Put(m, e, 0);
            && (cap == 0 ==> m' == m)
            && (cap > 0 ==> m'.entries == Capped(Without(m.entries, e.key) + [e], cap))
            && m'.maxBytes == m.maxBytes
            && EqualCosts(m'.entries, cost) && DistinctKeys(m'.entries) && |m'.entries| <= cap
  {
    var all := Without(m.entries, e.key) + [e];
    WithPushed(m.entries, e, cost);
    assert cost <= m.maxBytes <==> 1 <= cap by { FitsIffCapacity(m.maxBytes, cost); }
    if cap > 0 {
      assert Trim(all, m.maxBytes) == Capped(all, cap) by { TrimEqual(all, cost, m.maxBytes); }
      PutIsTrim(m, e);
      CappedKeeps(all, cap, cost);
    }
  }

  lemma PutIsTrim(m: Model, e: Entry)
    requires e.cost <= m.maxBytes
    ensures Put(m, e, 0).entries == Trim(Without(m.entries, e.key) + [e], m.maxBytes)
  {
    assert Without(m.entries, e.key)[0..] == Without(m.entries, e.key);
  }

  lemma CappedKeeps(all: seq<Entry>, cap: nat, cost: nat)
    requires EqualCosts(all, cost) && DistinctKeys(all) && |all| <= cap + 1
    ensures EqualCosts(Capped(all, cap), cost) && DistinctKeys(Capped(all, cap)) && |Capped(all, cap)| <= cap
  {
  }

  /** The list a put leaves under a capacity. */
  function Capped(all: seq<Entry>, cap: nat): seq<Entry> {
    if |all| <= cap || all == [] then all else all[1..]
  }

  lemma PutListsIncluded(s: seq<Entry>, l: seq<Entry>, e: Entry, cap: nat, cap': nat)
    requires 0 < cap <= cap' && |s| <= cap && |l| <= cap' && DistinctKeys(s) && DistinctKeys(l)
    requires Subsequence(s, l) && (|s| < cap ==> s == l)
    ensures var s', l' := Capped(Without(s, e.key) + [e], cap), Capped(Without(l, e.key) + [e], cap');
            Subsequence(s', l') && (|s'| < cap ==> s' == l')
  {
    var a, b := Without(s, e.key), Without(l, e.key);
    assert Subsequence(a + [e], b + [e]) by {
      SubsequenceWithout(s, l, e.key);
      SubsequencePush(a, b, e);
    }
    WithoutLength(s, e.key);
    WithoutLength(l, e.key);
    if |a| + 1 > cap {
      SubsequenceDropFront(a + [e], b + [e]);
    } else if |s| == cap {
      assert Has(l, e.key) by { MemberIncluded(s, l, e.key); }
    }
  }

  lemma MemberIncluded(s: seq<Entry>, l: seq<Entry>, key: Key)
    requires Subsequence(s, l) && Has(s, key)
    ensures Has(l, key)
  {
    SubsequenceLength(s, l);
    var i :| 0 <= i < |s| && s[i].key == key;
    assert s[i] in l;
  }

  lemma PutKeepsIncluded(s: Model, l: Model, e: Entry, cost: nat)
    requires cost > 0 && Included(s, l, cost) && e.cost == cost
    ensures Included(Put(s, e, 0), Put(l, e, 0), cost)
  {
    var cap, cap' := s.maxBytes / cost, l.maxBytes / cost;
    PutEqual(s, e, cost, cap);
    PutEqual(l, e, cost, cap');
    CapacityMonotone(s.maxBytes, l.maxBytes, cost);
    if cap > 0 {
      PutListsIncluded(s.entries, l.entries, e, cap, cap');
    }
  }

  lemma TouchKeepsIncluded(s: Model, l: Model, key: Key, cost: nat)
    requires cost > 0 && Included(s, l, cost)
    ensures Included(Touch(s, key), Touch(l, key), cost)
  {
    HitIncluded(s, l, key, cost);
    SubsequenceWithout(s.entries, l.entries, key);
    TouchEqual(s, key, cost);
    TouchEqual(l, key, cost);
    if Has(s.entries, key) {
      SubsequencePush(Without(s.entries, key), Without(l.entries, key), Lookup(s.entries, key).value);
    } else if Has(l.entries, key) {
      WithoutAbsent(s.entries, key);
      SubsequencePushRight(s.entries, Without(l.entries, key), Lookup(l.entries, key).value);
    }
  }

  lemma TouchEqual(m: Model, key: Key, cost: nat)
    requires EqualCosts(m.entries, cost) && DistinctKeys(m.entries)
    ensures var m' := Touch(m, key);
            EqualCosts(m'.entries, cost) && DistinctKeys(m'.entries) && |m'.entries| == |m.entries|
  {
    var hit := Lookup(m.entries, key);
    if hit.Some? {
      WithPushed(m.entries, hit.value, cost);
      WithoutLength(m.entries, key);
    }
  }

  /** A hit in the small cache is a hit on the same entry in the large one. */
  lemma HitIncluded(s: Model, l: Model, key: Key, cost: nat)
    requires cost > 0 && Included(s, l, cost)
    ensures Has(s.entries, key) ==> Lookup(l.entries, key) == Lookup(s.entries, key)
  {
    if Has(s.entries, key) {
      SubsequenceLength(s.entries, l.entries);
      var e := Lookup(s.entries, key).value;
      var i :| 0 <= i < |l.entries| && l.entries[i] == e;
      LookupPresent(l.entries, i);
    }
  }

  /** All puts cost the same and the allocator never refuses. */
  ghost predicate Uniform(ops: seq<Op>, cost: nat) {
    forall i :: 0 <= i < |ops| && ops[i].PutOp? ==> ops[i].entry.cost == cost && ops[i].refusals == 0
  }

  lemma {:induction false} InclusionAlways(small: nat, large: nat, ops: seq<Op>, cost: nat)
    requires cost > 0 && small <= large && Uniform(ops, cost)
    ensures Included(After(small, ops), After(large, ops), cost)
  {
    if ops != [] {
      var p, op := ops[..|ops| - 1], ops[|ops| - 1];
      InclusionAlways(small, large, p, cost);
      match op
      case GetOp(key) => TouchKeepsIncluded(After(small, p), After(large, p), key, cost);
      case PutOp(e, _) => PutKeepsIncluded(After(small, p), After(large, p), e, cost);
    }
  }

  /** LRU inclusion: run the same operations on a smaller and a larger budget, and the smaller cache is
      always a subsequence of the larger; so whatever it answers, the larger answers identically. */
  lemma LruInclusion(small: nat, large: nat, ops: seq<Op>, cost: nat, key: Key, id: nat, now: nat)
    requires cost > 0 && small <= large && Uniform(ops, cost)
    ensures Subsequence(After(small, ops).entries, After(large, ops).entries)
    ensures var hit := Get(After(small, ops), key, id, now);
            hit.Some? ==> Get(After(large, ops), key, id, now) == hit
  {
    InclusionAlways(small, large, ops, cost);
    HitIncluded(After(small, ops), After(large, ops), key, cost);
  }

  /** Puts with costs from a given set, and an allocator that never refuses. */
  ghost predicate CostsFrom(ops: seq<Op>, costs: set<nat>) {
    forall i :: 0 <= i < |ops| && ops[i].PutOp? ==> ops[i].entry.cost in costs && ops[i].refusals == 0
  }

  /** Inclusion between the two budgets after the operations. */
  ghost predicate IncludedAfter(small: nat, large: nat, ops: seq<Op>) {
    Subsequence(After(small, ops).entries, After(large, ops).entries)
  }

  /** Inclusion for every pair of budgets and every run with such costs. */
  ghost predicate InclusionFor(costs: set<nat>) {
    forall small: nat, large: nat, ops :: small <= large && CostsFrom(ops, costs) ==> IncludedAfter(small, large, ops)
  }

  /** No put is too big for the budget: every one is accepted. */
  ghost predicate AllFit(ops: seq<Op>, maxBytes: nat) {
    forall i :: 0 <= i < |ops| && ops[i].PutOp? ==> ops[i].entry.cost <= maxBytes
  }

  /** Inclusion only for the runs in which both caches accept every put. */
  ghost predicate AcceptedInclusionFor(costs: set<nat>) {
    forall small: nat, large: nat, ops ::
      small <= large && CostsFrom(ops, costs) && AllFit(ops, small) ==> IncludedAfter(small, large, ops)
  }

  // Steps of a run written out

  lemma PutAppends(m: Model, e: Entry)
    requires !Has(m.entries, e.key) && 0 <= Costs(m.entries) <= m.maxBytes - e.cost
    ensures Put(m, e, 0).entries == m.entries + [e]
  {
    WithoutAbsent(m.entries, e.key);
    PutIsTrim(m, e);
    SumPush(m.entries, e, CostOf);
  }

  lemma PutEvictsFirst(m: Model, x: Entry, rest: seq<Entry>, e: Entry)
    requires m.entries == [x] + rest && !Has(m.entries, e.key) && e.cost <= m.maxBytes
    requires Costs(rest) + e.cost <= m.maxBytes < Costs(m.entries) + e.cost
    ensures Put(m, e, 0).entries == rest + [e]
  {
    WithoutAbsent(m.entries, e.key);
    PutIsTrim(m, e);
    var all := m.entries + [e];
    SumPush(m.entries, e, CostOf);
    SumPush(rest, e, CostOf);
    assert all[1..] == rest + [e];
  }

  lemma TouchFirst(m: Model, x: Entry, rest: seq<Entry>)
    requires m.entries == [x] + rest && DistinctKeys(m.entries)
    ensures Touch(m, x.key).entries == rest + [x]
  {
    assert m.entries[0] == x;
    LookupPresent(m.entries, 0);
    assert !Has(rest, x.key) by { assert forall i :: 0 <= i < |rest| ==> rest[i] == m.entries[i + 1]; }
    assert [] + [x] + rest == m.entries && [] + rest == rest;
    WithoutSplit([], x, rest);
  }

  lemma TouchMisses(m: Model, key: Key)
    requires !Has(m.entries, key)
    ensures Touch(m, key) == m
  {
  }

  lemma PairCosts(e: Entry, f: Entry)
    ensures Costs([]) == 0 && Costs([e]) == e.cost && Costs([e] + [f]) == e.cost + f.cost
  {
    SumOne(e, CostOf);
    SumPush([e], f, CostOf);
  }

  lemma NotInPair(e: Entry, f: Entry, key: Key)
    requires e.key != key && f.key != key
    ensures !Has([e], key) && !Has([e] + [f], key)
  {
  }

  // The same as steps of a run, from the entries held so far

  lemma StepAppends(maxBytes: nat, ops: seq<Op>, held: seq<Entry>, e: Entry)
    requires After(maxBytes, ops).entries == held && !Has(held, e.key) && Costs(held) + e.cost <= maxBytes
    ensures After(maxBytes, ops + [PutOp(e, 0)]).entries == held + [e]
  {
    AfterPush(maxBytes, ops, PutOp(e, 0));
    AlwaysValid(maxBytes, ops);
    SumNonNegative(held, CostOf);
    PutAppends(After(maxBytes, ops), e);
  }

  lemma StepEvictsFirst(maxBytes: nat, ops: seq<Op>, x: Entry, rest: seq<Entry>, e: Entry)
    requires After(maxBytes, ops).entries == [x] + rest && !Has([x] + rest, e.key) && e.cost <= maxBytes
    requires Costs(rest) + e.cost <= maxBytes < Costs([x] + rest) + e.cost
    ensures After(maxBytes, ops + [PutOp(e, 0)]).entries == rest + [e]
  {
    AfterPush(maxBytes, ops, PutOp(e, 0));
    AlwaysValid(maxBytes, ops);
    PutEvictsFirst(After(maxBytes, ops), x, rest, e);
  }

  lemma StepTouchesFirst(maxBytes: nat, ops: seq<Op>, x: Entry, rest: seq<Entry>)
    requires After(maxBytes, ops).entries == [x] + rest
    ensures After(maxBytes, ops + [GetOp(x.key)]).entries == rest + [x]
  {
    AfterPush(maxBytes, ops, GetOp(x.key));
    AlwaysValid(maxBytes, ops);
    TouchFirst(After(maxBytes, ops), x, rest);
  }

  lemma StepMisses(maxBytes: nat, ops: seq<Op>, key: Key)
    requires !Has(After(maxBytes, ops).entries, key)
    ensures After(maxBytes, ops + [GetOp(key)]) == After(maxBytes, ops)
  {
    AfterPush(maxBytes, ops, GetOp(key));
    TouchMisses(After(maxBytes, ops), key);
  }

  /** put D, put a, get D, put b. */
  function Witness(big: Entry, a: Entry, b: Entry): seq<Op> {
    [] + [PutOp(big, 0)] + [PutOp(a, 0)] + [GetOp(big.key)] + [PutOp(b, 0)]
  }

  /** With D dearer than a and b, in a cache that cannot hold D and a together ... */
  lemma SmallWitness(big: Entry, a: Entry, b: Entry, maxBytes: nat)
    requires a.key != b.key && big.key != a.key && big.key != b.key
    requires 0 < a.cost == b.cost < big.cost && maxBytes == big.cost + a.cost - 1
    ensures After(maxBytes, Witness(big, a, b)).entries == [a] + [b]
  {
    PairCosts(big, a);
    PairCosts(a, b);
    var o1: seq<Op> := [] + [PutOp(big, 0)];
    var o2 := o1 + [PutOp(a, 0)];
    var o3 := o2 + [GetOp(big.key)];
    assert After(maxBytes, o1).entries == [big] + [] by { StepAppends(maxBytes, [], [], big); }
    assert After(maxBytes, o2).entries == [a] by { StepEvictsFirst(maxBytes, o1, big, [], a); }
    assert After(maxBytes, o3).entries == [a] by { StepMisses(maxBytes, o2, big.key); }
    StepAppends(maxBytes, o3, [a], b);
  }

  /** ... and in one byte more, where D stays and a goes. */
  lemma LargeWitness(big: Entry, a: Entry, b: Entry, maxBytes: nat)
    requires a.key != b.key && big.key != a.key && big.key != b.key
    requires 0 < a.cost == b.cost < big.cost && maxBytes == big.cost + a.cost
    ensures After(maxBytes, Witness(big, a, b)).entries == [big] + [b]
  {
    PairCosts(big, a);
    PairCosts(a, big);
    var o1: seq<Op> := [] + [PutOp(big, 0)];
    var o2 := o1 + [PutOp(a, 0)];
    var o3 := o2 + [GetOp(big.key)];
    assert After(maxBytes, o1).entries == [big] by { StepAppends(maxBytes, [], [], big); }
    assert After(maxBytes, o2).entries == [big] + [a] by { StepAppends(maxBytes, o1, [big], a); }
    assert After(maxBytes, o3).entries == [a] + [big] by { StepTouchesFirst(maxBytes, o2, big, [a]); }
    NotInPair(a, big, b.key);
    StepEvictsFirst(maxBytes, o3, a, [big], b);
  }

  /** Any two unequal costs break inclusion, even when every put is accepted: the larger cache keeps the dear
      entry at the cost of a cheap one the smaller still has. */
  lemma UnequalCostsBreakInclusion(big: Entry, a: Entry, b: Entry)
    requires a.key != b.key && big.key != a.key && big.key != b.key && 0 < a.cost == b.cost < big.cost
    ensures var n := big.cost + a.cost;
            && AllFit(Witness(big, a, b), n - 1)
            && Has(After(n - 1, Witness(big, a, b)).entries, a.key)
            && !Has(After(n, Witness(big, a, b)).entries, a.key)
  {
    var n := big.cost + a.cost;
    assert Has(After(n - 1, Witness(big, a, b)).entries, a.key) by {
      SmallWitness(big, a, b, n - 1);
      FirstOfPair(a, b);
    }
    assert !Has(After(n, Witness(big, a, b)).entries, a.key) by {
      LargeWitness(big, a, b, n);
      NotInPair(big, b, a.key);
    }
  }

  lemma FirstOfPair(e: Entry, f: Entry)
    ensures Has([e] + [f], e.key)
  {
    assert ([e] + [f])[0] == e;
  }

  lemma InclusionForcesEqual(costs: set<nat>, c: nat, d: nat)
    requires AcceptedInclusionFor(costs) && c in costs && d in costs && 0 < c
    ensures c >= d
  {
    if c < d {
      var m := Message(0, NoError, [], []);
      var a, b, big := Entry(Key("n", 0), m, 0, c), Entry(Key("n", 1), m, 0, c), Entry(Key("n", 2), m, 0, d);
      UnequalCostsBreakInclusion(big, a, b);
      assert CostsFrom(Witness(big, a, b), costs);
      assert IncludedAfter(d + c - 1, d + c, Witness(big, a, b));
      MemberIncluded(After(d + c - 1, Witness(big, a, b)).entries, After(d + c, Witness(big, a, b)).entries, a.key);
    }
  }

  lemma EqualCostsInclude(costs: set<nat>)
    requires 0 !in costs && forall c, d :: c in costs && d in costs ==> c == d
    ensures InclusionFor(costs)
  {
    var cost: nat := if costs == {} then 1 else var c :| c in costs; c;
    forall small: nat, large: nat, ops | small <= large && CostsFrom(ops, costs)
      ensures IncludedAfter(small, large, ops)
    {
      assert Uniform(ops, cost);
      InclusionAlways(small, large, ops, cost);
    }
  }

  /** Inclusion holds on all runs over a set of entry costs if and only if those costs are all the same; and
      looking only at runs in which every put is accepted changes nothing. */
  lemma InclusionIffEqualCosts(costs: set<nat>)
    requires 0 !in costs
    ensures InclusionFor(costs) <==> forall c, d :: c in costs && d in costs ==> c == d
    ensures AcceptedInclusionFor(costs) <==> forall c, d :: c in costs && d in costs ==> c == d
  {
    if AcceptedInclusionFor(costs) {
      forall c, d | c in costs && d in costs ensures c == d {
        InclusionForcesEqual(costs, c, d);
        InclusionForcesEqual(costs, d, c);
      }
    }
    if forall c, d :: c in costs && d in costs ==> c == d { EqualCostsInclude(costs); }
  }

  // A run at budgets the configuration can give

  function Puts(es: seq<Entry>): seq<Op> {
    if es == [] then [] else Puts(es[..|es| - 1]) + [PutOp(es[|es| - 1], 0)]
  }

  function Gets(es: seq<Entry>): seq<Op> {
    if es == [] then [] else Gets(es[..|es| - 1]) + [GetOp(es[|es| - 1].key)]
  }

  lemma DistinctPrefix(a: seq<Entry>, b: seq<Entry>)
    requires DistinctKeys(a + b)
    ensures DistinctKeys(a)
  {
    assert forall i :: 0 <= i < |a| ==> (a + b)[i] == a[i];
  }

  lemma NotHeld(a: seq<Entry>, b: seq<Entry>, i: nat)
    requires DistinctKeys(a + b) && i < |b|
    ensures !Has(a, b[i].key)
  {
    assert (a + b)[|a| + i] == b[i];
    forall j | 0 <= j < |a| ensures a[j].key != b[i].key { assert (a + b)[j] == a[j]; }
  }

  /** New entries that fit are appended one after another. */
  lemma {:induction false} PutsAppend(maxBytes: nat, ops: seq<Op>, held: seq<Entry>, es: seq<Entry>)
    requires After(maxBytes, ops).entries == held && DistinctKeys(held + es) && Costs(held) + Costs(es) <= maxBytes
    ensures After(maxBytes, ops + Puts(es)).entries == held + es
  {
    if es == [] {
      assert ops + Puts(es) == ops && held + es == held;
    } else {
      var p, e := es[..|es| - 1], es[|es| - 1];
      assert es == p + [e] && held + es == held + p + [e] && ops + Puts(es) == ops + Puts(p) + [PutOp(e, 0)];
      DistinctPrefix(held + p, [e]);
      SumPush(p, e, CostOf);
      SumConcat(held, p, CostOf);
      PutsAppend(maxBytes, ops, held, p);
      NotHeld(held + p, [e], 0);
      StepAppends(maxBytes, ops + Puts(p), held + p, e);
    }
  }

  /** The operations, and then puts of k entries after the first n. */
  function Fed(ops: seq<Op>, all: seq<Entry>, n: nat, k: nat): seq<Op>
    requires n + k <= |all|
  {
    ops + Puts(all[n..n + k])
  }

  lemma FedNext(ops: seq<Op>, all: seq<Entry>, n: nat, k: nat)
    requires 0 < k && n + k <= |all|
    ensures Fed(ops, all, n, k) == Fed(ops, all, n, k - 1) + [PutOp(all[n + k - 1], 0)]
  {
    var es := all[n..n + k];
    assert es[..|es| - 1] == all[n..n + (k - 1)] && es[|es| - 1] == all[n + k - 1];
  }

  lemma FedNothing(ops: seq<Op>, all: seq<Entry>, n: nat)
    requires n <= |all|
    ensures Fed(ops, all, n, 0) == ops
  {
    assert all[n..n + 0] == [];
  }

  /** A cache with room for n equal entries slides over the sequence of those put into it. */
  lemma {:induction false} PutsSlide(maxBytes: nat, ops: seq<Op>, all: seq<Entry>, n: nat, k: nat, cost: nat)
    requires 0 < n && n + k <= |all| && EqualCosts(all, cost) && DistinctKeys(all) && RoomFor(n, cost, maxBytes)
    requires After(maxBytes, ops).entries == all[..n]
    ensures After(maxBytes, Fed(ops, all, n, k)).entries == all[k..n + k]
  {
    if k == 0 {
      FedNothing(ops, all, n);
    } else {
      PutsSlide(maxBytes, ops, all, n, k - 1, cost);
      FedNext(ops, all, n, k);
      SlideStep(maxBytes, Fed(ops, all, n, k - 1), all, n, k, cost);
    }
  }

  /** n entries of this cost fit and no more. */
  predicate RoomFor(n: nat, cost: nat, maxBytes: nat) {
    n * cost <= maxBytes < n * cost + cost
  }

  lemma SlideStep(maxBytes: nat, ops: seq<Op>, all: seq<Entry>, n: nat, k: nat, cost: nat)
    requires 0 < n && 0 < k && n + k <= |all| && EqualCosts(all, cost) && DistinctKeys(all)
    requires RoomFor(n, cost, maxBytes) && After(maxBytes, ops).entries == all[k - 1..n + (k - 1)]
    ensures After(maxBytes, ops + [PutOp(all[n + k - 1], 0)]).entries == all[k..n + k]
  {
    var x, rest, e := all[k - 1], all[k..n + (k - 1)], all[n + k - 1];
    SlideShapes(all, n, k);
    SlideCosts(x, rest, e, n, cost, maxBytes);
    StepEvictsFirst(maxBytes, ops, x, rest, e);
  }

  lemma SlideShapes(all: seq<Entry>, n: nat, k: nat)
    requires 0 < n && 0 < k && n + k <= |all| && DistinctKeys(all)
    ensures var x, rest, e := all[k - 1], all[k..n + (k - 1)], all[n + k - 1];
            && all[k - 1..n + (k - 1)] == [x] + rest && rest + [e] == all[k..n + k]
            && !Has([x] + rest, e.key)
  {
    var held := [all[k - 1]] + all[k..n + (k - 1)];
    assert forall i :: 0 <= i < n ==> held[i] == all[k - 1 + i];
  }

  lemma SlideCosts(x: Entry, rest: seq<Entry>, e: Entry, n: nat, cost: nat, maxBytes: nat)
    requires EqualCosts(rest, cost) && x.cost == e.cost == cost && |rest| + 1 == n && RoomFor(n, cost, maxBytes)
    ensures e.cost <= maxBytes && Costs(rest) + e.cost <= maxBytes < Costs([x] + rest) + e.cost
  {
    CostsOfEqual([x] + rest, cost);
    CostsOfEqual(rest, cost);
    MulDistributes(n - 1, 1, cost);
    MulMonotone(0, n - 1, cost);
  }

  lemma {:induction false} GetsMiss(maxBytes: nat, ops: seq<Op>, es: seq<Entry>)
    requires forall i :: 0 <= i < |es| ==> !Has(After(maxBytes, ops).entries, es[i].key)
    ensures After(maxBytes, ops + Gets(es)) == After(maxBytes, ops)
  {
    if es == [] {
      assert ops + Gets(es) == ops;
    } else {
      var p, e := es[..|es| - 1], es[|es| - 1];
      GetsMiss(maxBytes, ops, p);
      assert ops + Gets(es) == ops + Gets(p) + [GetOp(e.key)];
      StepMisses(maxBytes, ops + Gets(p), e.key);
    }
  }

  /** Looking up the least recent entries in order moves them to the recent end in order. */
  lemma {:induction false} GetsRotate(maxBytes: nat, ops: seq<Op>, es: seq<Entry>, rest: seq<Entry>)
    requires After(maxBytes, ops).entries == es + rest
    ensures After(maxBytes, ops + Gets(es)).entries == rest + es
  {
    if es == [] {
      assert ops + Gets(es) == ops && es + rest == rest + es;
    } else {
      var p, e := es[..|es| - 1], es[|es| - 1];
      RotateShapes(es, rest);
      GetsRotate(maxBytes, ops, p, [e] + rest);
      assert ops + Gets(es) == ops + Gets(p) + [GetOp(e.key)];
      StepTouchesFirst(maxBytes, ops + Gets(p), e, rest + p);
    }
  }

  lemma RotateShapes(es: seq<Entry>, rest: seq<Entry>)
    requires es != []
    ensures var p, e := es[..|es| - 1], es[|es| - 1];
            es + rest == p + ([e] + rest) && [e] + rest + p == [e] + (rest + p) && rest + p + [e] == rest + es
  {
  }

  /** A name of 14 characters with an answer of 63,286 bytes, and one of 13 with 32,812. */
  const DEAR: nat := EntryCost(14, 63_286)
  const CHEAP: nat := EntryCost(13, 32_812)

  /** entry_cost: a fixed overhead, the name, and three times the wire length. */
  function EntryCost(name: nat, wire: nat): nat { 128 + name + 3 * wire }

  /** What an answer of at most 65,535 bytes costs under its own key. */
  predicate CostsAsAnswer(e: Entry) {
    exists wire :: 0 <= wire <= 0xffff && e.cost == EntryCost(|e.key.name|, wire)
  }

  /** Two batches of five dear entries and two cheap ones, all under different keys. */
  ghost predicate Cast(xs: seq<Entry>, d: Entry, ds: seq<Entry>, c: Entry, c': Entry) {
    && |xs| == 5 && |ds| == 4
    && EqualCosts(xs + ([d] + ds), DEAR) && c.cost == c'.cost == CHEAP
    && DistinctKeys(xs + ([d] + ds) + [c] + [c'])
  }

  /** Both batches, a cheap entry, the first batch and one of the second looked up again, another cheap entry. */
  function LongRun(xs: seq<Entry>, d: Entry, ds: seq<Entry>, c: Entry, c': Entry): seq<Op> {
    [] + Puts(xs) + Puts([d] + ds) + [PutOp(c, 0)] + Gets(xs) + [GetOp(d.key)] + [PutOp(c', 0)]
  }

  lemma CastKeys(xs: seq<Entry>, d: Entry, ds: seq<Entry>, c: Entry, c': Entry)
    requires Cast(xs, d, ds, c, c')
    ensures DistinctKeys(xs) && DistinctKeys(xs + ([d] + ds)) && DistinctKeys(xs + ([d] + ds) + [c])
    ensures forall i :: 0 <= i < |xs| ==> !Has(ds + [c], xs[i].key)
    ensures !Has(ds + [c], d.key) && !Has([d] + ds, c.key) && !Has(ds + [c], c'.key)
  {
    var two := xs + ([d] + ds);
    var all := two + [c] + [c'];
    DistinctPrefix(two + [c], [c']);
    DistinctPrefix(two, [c]);
    DistinctPrefix(xs, [d] + ds);
    assert forall i :: 0 <= i < 5 ==> xs[i] == all[i];
    assert d == all[5] && c == all[10] && c' == all[11];
    assert forall i :: 0 <= i < 4 ==> ds[i] == all[6 + i];
    assert forall i :: 0 <= i < 5 ==> (ds + [c])[i] == all[6 + i];
    assert forall i :: 0 <= i < 5 ==> ([d] + ds)[i] == all[5 + i];
  }

  lemma CastCosts(xs: seq<Entry>, d: Entry, ds: seq<Entry>, c: Entry, c': Entry)
    requires Cast(xs, d, ds, c, c')
    ensures Costs(xs) == 950_000 && Costs([d] + ds) == 950_000 && Costs(xs + ([d] + ds)) == 1_900_000
    ensures Costs(ds) == 760_000 && Costs(ds + [c]) == 858_577
  {
    var two := xs + ([d] + ds);
    assert forall i :: 0 <= i < 5 ==> xs[i] == two[i];
    forall i | 0 <= i < 5 ensures ([d] + ds)[i].cost == DEAR { assert ([d] + ds)[i] == two[5 + i]; }
    forall i | 0 <= i < 4 ensures ds[i].cost == DEAR { assert ds[i] == two[6 + i]; }
    CostsOfEqual(two, DEAR);
    CostsOfEqual(xs, DEAR);
    CostsOfEqual([d] + ds, DEAR);
    CostsOfEqual(ds, DEAR);
    SumPush(ds, c, CostOf);
  }

  /** With one mebibyte the second batch replaces the first ... */
  lemma SmallBatches(xs: seq<Entry>, d: Entry, ds: seq<Entry>, c: Entry, c': Entry)
    requires Cast(xs, d, ds, c, c')
    ensures After(MIB, [] + Puts(xs) + Puts([d] + ds)).entries == [d] + ds
  {
    var all := xs + ([d] + ds);
    assert DistinctKeys(xs) && DistinctKeys(all) by { CastKeys(xs, d, ds, c, c'); }
    assert After(MIB, [] + Puts(xs)).entries == xs by {
      assert Costs(xs) == 950_000 by { CastCosts(xs, d, ds, c, c'); }
      assert [] + xs == xs;
      PutsAppend(MIB, [], [], xs);
    }
    assert all[..5] == xs && all[5..5 + 5] == [d] + ds;
    PutsSlide(MIB, [] + Puts(xs), all, 5, 5, DEAR);
  }

  /** ... and d goes with it before either is looked up. */
  lemma SmallLongRun(xs: seq<Entry>, d: Entry, ds: seq<Entry>, c: Entry, c': Entry)
    requires Cast(xs, d, ds, c, c')
    ensures After(MIB, LongRun(xs, d, ds, c, c')).entries == ds + [c] + [c']
  {
    var o2 := [] + Puts(xs) + Puts([d] + ds);
    CastKeys(xs, d, ds, c, c');
    CastCosts(xs, d, ds, c, c');
    SmallBatches(xs, d, ds, c, c');
    SmallCheap(o2, xs, d, ds, c);
    StepAppends(MIB, o2 + [PutOp(c, 0)] + Gets(xs) + [GetOp(d.key)], ds + [c], c');
  }

  lemma SmallCheap(ops: seq<Op>, xs: seq<Entry>, d: Entry, ds: seq<Entry>, c: Entry)
    requires After(MIB, ops).entries == [d] + ds && c.cost == CHEAP
    requires !Has([d] + ds, c.key) && !Has(ds + [c], d.key)
    requires forall i :: 0 <= i < |xs| ==> !Has(ds + [c], xs[i].key)
    requires Costs(ds) == 760_000 && Costs([d] + ds) == 950_000
    ensures After(MIB, ops + [PutOp(c, 0)] + Gets(xs) + [GetOp(d.key)]).entries == ds + [c]
  {
    StepEvictsFirst(MIB, ops, d, ds, c);
    GetsMiss(MIB, ops + [PutOp(c, 0)], xs);
    StepMisses(MIB, ops + [PutOp(c, 0)] + Gets(xs), d.key);
  }

  lemma LargeFirstHalf(xs: seq<Entry>, d: Entry, ds: seq<Entry>, c: Entry, c': Entry)
    requires Cast(xs, d, ds, c, c')
    ensures After(2 * MIB, [] + Puts(xs) + Puts([d] + ds) + [PutOp(c, 0)]).entries == xs + ([d] + (ds + [c]))
  {
    CastKeys(xs, d, ds, c, c');
    CastCosts(xs, d, ds, c, c');
    var two := xs + ([d] + ds);
    var o1 := [] + Puts(xs);
    assert After(2 * MIB, o1).entries == xs by {
      assert [] + xs == xs;
      PutsAppend(2 * MIB, [], [], xs);
    }
    PutsAppend(2 * MIB, o1, xs, [d] + ds);
    assert !Has(two, c.key) by { NotHeld(two, [c], 0); }
    StepAppends(2 * MIB, o1 + Puts([d] + ds), two, c);
    assert two + [c] == xs + ([d] + (ds + [c]));
  }

  lemma LookupsRotate(maxBytes: nat, ops: seq<Op>, xs: seq<Entry>, d: Entry, tail: seq<Entry>)
    requires After(maxBytes, ops).entries == xs + ([d] + tail)
    ensures After(maxBytes, ops + Gets(xs) + [GetOp(d.key)]).entries == tail + xs + [d]
  {
    assert After(maxBytes, ops + Gets(xs)).entries == [d] + (tail + xs) by {
      GetsRotate(maxBytes, ops, xs, [d] + tail);
      Regrouped([d], tail, xs);
    }
    StepTouchesFirst(maxBytes, ops + Gets(xs), d, tail + xs);
  }

  lemma Regrouped(a: seq<Entry>, b: seq<Entry>, c: seq<Entry>)
    ensures a + b + c == a + (b + c)
  {
  }

  lemma FirstOfTail(e: Entry, ds: seq<Entry>, c: Entry, xs: seq<Entry>, d: Entry)
    ensures [e] + ds + [c] + xs + [d] == [e] + (ds + [c] + xs + [d])
  {
  }

  /** With two, both batches are still there; looking them up leaves the second of the second batch least recent. */
  lemma LargeLongRun(xs: seq<Entry>, d: Entry, e: Entry, ds: seq<Entry>, c: Entry, c': Entry)
    requires Cast(xs, d, [e] + ds, c, c')
    ensures After(2 * MIB, LongRun(xs, d, [e] + ds, c, c')).entries == ds + [c] + xs + [d] + [c']
  {
    var ops := [] + Puts(xs) + Puts([d] + ([e] + ds)) + [PutOp(c, 0)];
    assert After(2 * MIB, ops + Gets(xs) + [GetOp(d.key)]).entries == [e] + ds + [c] + xs + [d] by {
      LargeFirstHalf(xs, d, [e] + ds, c, c');
      LookupsRotate(2 * MIB, ops, xs, d, [e] + ds + [c]);
    }
    FirstOfTail(e, ds, c, xs, d);
    LastPut(xs, d, e, ds, c, c', ops + Gets(xs) + [GetOp(d.key)]);
  }

  lemma LastPut(xs: seq<Entry>, d: Entry, e: Entry, ds: seq<Entry>, c: Entry, c': Entry, ops: seq<Op>)
    requires Cast(xs, d, [e] + ds, c, c')
    requires After(2 * MIB, ops).entries == [e] + (ds + [c] + xs + [d])
    ensures After(2 * MIB, ops + [PutOp(c', 0)]).entries == ds + [c] + xs + [d] + [c']
  {
    var rest := ds + [c] + xs + [d];
    assert Costs(rest) == 1_808_577 && Costs([e] + rest) == 1_998_577 by { LastCosts(xs, d, e, ds, c, c'); }
    assert !Has([e] + rest, c'.key) by {
      var two := xs + ([d] + ([e] + ds));
      assert !Has(two + [c], c'.key) by { NotHeld(two + [c], [c'], 0); }
      forall i | 0 <= i < |[e] + rest| ensures ([e] + rest)[i] in two + [c] {
        InOneOf(xs, d, e, ds, c, ([e] + rest)[i]);
      }
    }
    StepEvictsFirst(2 * MIB, ops, e, rest, c');
  }

  lemma InOneOf(xs: seq<Entry>, d: Entry, e: Entry, ds: seq<Entry>, c: Entry, x: Entry)
    requires x in [e] + (ds + [c] + xs + [d])
    ensures x in xs + ([d] + ([e] + ds)) + [c]
  {
  }

  lemma LastCosts(xs: seq<Entry>, d: Entry, e: Entry, ds: seq<Entry>, c: Entry, c': Entry)
    requires Cast(xs, d, [e] + ds, c, c')
    ensures Costs(ds + [c] + xs + [d]) == 1_808_577 && Costs([e] + (ds + [c] + xs + [d])) == 1_998_577
  {
    CastCosts(xs, d, [e] + ds, c, c');
    var two := xs + ([d] + ([e] + ds));
    assert d == two[5] && e == two[6];
    SumConcat([e], ds, CostOf);
    SumPush(ds, c, CostOf);
    SumConcat(ds + [c], xs, CostOf);
    SumPush(ds + [c] + xs, d, CostOf);
    SumConcat([e], ds + [c] + xs + [d], CostOf);
    SumOne(e, CostOf);
  }

  lemma NotInLarge(xs: seq<Entry>, d: Entry, e: Entry, ds: seq<Entry>, c: Entry, c': Entry)
    requires Cast(xs, d, [e] + ds, c, c')
    ensures Has([e] + ds + [c] + [c'], e.key) && !Has(ds + [c] + xs + [d] + [c'], e.key)
  {
    assert ([e] + ds + [c] + [c'])[0] == e;
    var all, large := xs + ([d] + ([e] + ds)) + [c] + [c'], ds + [c] + xs + [d] + [c'];
    assert all[6] == e;
    forall i | 0 <= i < |large| ensures large[i].key != e.key {
      var j := if i < 4 then 7 + i else if i < 9 then i - 4 else if i == 9 then 5 else 11;
      assert large[i] == all[j];
    }
  }

  /** Inclusion fails at budgets the configuration can give, with costs real answers have and every put accepted:
      after eighteen operations an entry is in a cache of one mebibyte and not in one of two. */
  lemma InclusionFailsInPractice(message: Message) returns (ops: seq<Op>, key: Key)
    ensures CostsFrom(ops, {DEAR, CHEAP}) && AllFit(ops, MIB) && |ops| == 18
    ensures forall i :: 0 <= i < |ops| && ops[i].PutOp? ==> CostsAsAnswer(ops[i].entry)
    ensures Has(After(MIB, ops).entries, key) && !Has(After(2 * MIB, ops).entries, key)
  {
    var xs, d, e, ds, c, c' := Actors(message);
    ops, key := LongRun(xs, d, [e] + ds, c, c'), e.key;
    NotInLarge(xs, d, e, ds, c, c');
    SmallLongRun(xs, d, [e] + ds, c, c');
    LargeLongRun(xs, d, e, ds, c, c');
    LongRunOps(xs, d, [e] + ds, c, c');
    RealCosts(xs, d, [e] + ds, c, c');
  }

  const LONG_NAME := "large1.example"
  const SHORT_NAME := "small.example"

  /** The keys are two names, told apart by record type. */
  ghost predicate Named(xs: seq<Entry>, d: Entry, ds: seq<Entry>, c: Entry, c': Entry) {
    && (forall i :: 0 <= i < |xs| ==> xs[i].key.name == LONG_NAME)
    && (forall i :: 0 <= i < |[d] + ds| ==> ([d] + ds)[i].key.name == LONG_NAME)
    && c.key.name == c'.key.name == SHORT_NAME
  }

  lemma Actors(m: Message) returns (xs: seq<Entry>, d: Entry, e: Entry, ds: seq<Entry>, c: Entry, c': Entry)
    ensures Cast(xs, d, [e] + ds, c, c') && Named(xs, d, [e] + ds, c, c')
  {
    xs, ds := Batch(LONG_NAME, 0, 5, DEAR, m), Batch(LONG_NAME, 5, 3, DEAR, m);
    d, e := Entry(Key(LONG_NAME, 8), m, 0, DEAR), Entry(Key(LONG_NAME, 9), m, 0, DEAR);
    c, c' := Entry(Key(SHORT_NAME, 0), m, 0, CHEAP), Entry(Key(SHORT_NAME, 1), m, 0, CHEAP);
    assert LONG_NAME[0] != SHORT_NAME[0];
  }

  lemma RealCosts(xs: seq<Entry>, d: Entry, ds: seq<Entry>, c: Entry, c': Entry)
    requires Cast(xs, d, ds, c, c') && Named(xs, d, ds, c, c')
    ensures var ops := LongRun(xs, d, ds, c, c');
            forall i :: 0 <= i < |ops| && ops[i].PutOp? ==> CostsAsAnswer(ops[i].entry)
  {
    PutsShape(xs);
    PutsShape([d] + ds);
    GetsShape(xs);
    var two := xs + ([d] + ds);
    forall e: Entry | e.cost == DEAR && e.key.name == LONG_NAME ensures CostsAsAnswer(e) {
      assert e.cost == EntryCost(|e.key.name|, 63_286);
    }
    forall e: Entry | e.cost == CHEAP && e.key.name == SHORT_NAME ensures CostsAsAnswer(e) {
      assert e.cost == EntryCost(|e.key.name|, 32_812);
    }
    forall i | 0 <= i < 5 ensures CostsAsAnswer(xs[i]) { assert xs[i] == two[i]; }
    forall i | 0 <= i < 5 ensures CostsAsAnswer(([d] + ds)[i]) { assert ([d] + ds)[i] == two[5 + i]; }
  }

  /** n entries under one name, with record types from `first` on. */
  function Batch(name: string, first: nat, n: nat, cost: nat, message: Message): (r: seq<Entry>)
    ensures |r| == n && forall i :: 0 <= i < n ==> r[i] == Entry(Key(name, first + i), message, 0, cost)
  {
    seq(n, i requires 0 <= i < n => Entry(Key(name, first + i), message, 0, cost))
  }

  lemma {:induction false} PutsShape(es: seq<Entry>)
    ensures |Puts(es)| == |es| && forall i :: 0 <= i < |es| ==> Puts(es)[i] == PutOp(es[i], 0)
  {
    if es != [] { PutsShape(es[..|es| - 1]); }
  }

  lemma {:induction false} GetsShape(es: seq<Entry>)
    ensures |Gets(es)| == |es| && forall i :: 0 <= i < |es| ==> Gets(es)[i] == GetOp(es[i].key)
  {
    if es != [] { GetsShape(es[..|es| - 1]); }
  }

  lemma LongRunOps(xs: seq<Entry>, d: Entry, ds: seq<Entry>, c: Entry, c': Entry)
    requires Cast(xs, d, ds, c, c')
    ensures CostsFrom(LongRun(xs, d, ds, c, c'), {DEAR, CHEAP}) && AllFit(LongRun(xs, d, ds, c, c'), MIB)
    ensures |LongRun(xs, d, ds, c, c')| == 18
  {
    PutsShape(xs);
    PutsShape([d] + ds);
    GetsShape(xs);
    var two := xs + ([d] + ds);
    forall i | 0 <= i < 5 ensures xs[i].cost == DEAR { assert xs[i] == two[i]; }
    forall i | 0 <= i < 5 ensures ([d] + ds)[i].cost == DEAR { assert ([d] + ds)[i] == two[5 + i]; }
  }
}
