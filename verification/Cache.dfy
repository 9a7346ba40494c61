/** The byte-budgeted LRU cache: src/cache.rs. */
module Cache {
  import opened Prelude
  import opened Dns

  datatype Key = Key(name: string, qtype: nat)

  datatype Entry = Entry(key: Key, message: Message, expiresAt: nat, cost: nat)

  /** The linked map from least to most recently used, and the byte total beside it. */
  datatype Model = Model(maxBytes: nat, entries: seq<Entry>, usedBytes: int)

  function CostOf(e: Entry): int { e.cost }

  function Costs(entries: seq<Entry>): int { Sum(entries, CostOf) }

  ghost predicate DistinctKeys(entries: seq<Entry>) {
    forall i, j :: 0 <= i < j < |entries| ==> entries[i].key != entries[j].key
  }

  predicate Has(entries: seq<Entry>, key: Key) {
    exists i :: 0 <= i < |entries| && entries[i].key == key
  }

  function Without(entries: seq<Entry>, key: Key): seq<Entry> {
    if entries == [] then []
    else
      var last := entries[|entries| - 1];
      Without(entries[..|entries| - 1], key) + if last.key == key then [] else [last]
  }

  function Lookup(entries: seq<Entry>, key: Key): (r: Option<Entry>)
    ensures r.Some? ==> r.value in entries && r.value.key == key
    ensures r.Some? <==> Has(entries, key)
  {
    if entries == [] then None
    else
      var last := entries[|entries| - 1];
      if last.key == key then Some(last) else Lookup(entries[..|entries| - 1], key)
  }

  /** The shortest eviction from the least recent end that fits. */
  function Trim(entries: seq<Entry>, maxBytes: nat): seq<Entry> {
    if entries == [] || Costs(entries) <= maxBytes then entries else Trim(entries[1..], maxBytes)
  }

  /** 60 seconds when there are no answers, else the smallest TTL. */
  function Ttl(answers: seq<Record>): nat {
    if answers == [] then 60
    else if |answers| == 1 then answers[0].ttl
    else
      var rest := Ttl(answers[..|answers| - 1]);
      var last := answers[|answers| - 1].ttl;
      if last < rest then last else rest
  }

  const NANOS: nat := 1_000_000_000
  const MIB: nat := 1_048_576

  function MakeEntry(key: Key, message: Message, cost: nat, now: nat): Entry {
    Entry(key, message, now + Ttl(message.answers) * NANOS, cost)
  }

  /** Whether a put ends with its entry stored. `refusals` is how many times in a row the allocator says no. */
  predicate Accepts(m: Model, key: Key, cost: nat, refusals: nat) {
    cost <= m.maxBytes && refusals <= |Without(m.entries, key)|
  }

  function Put(m: Model, e: Entry, refusals: nat): Model {
    if e.cost > m.maxBytes then m
    else
      var rest := Without(m.entries, e.key);
      if refusals > |rest| then m.(entries := [], usedBytes := 0)
      else
        var kept := Trim(rest[refusals..] + [e], m.maxBytes);
        m.(entries := kept, usedBytes := Costs(kept))
  }

  function Touch(m: Model, key: Key): Model {
    var hit := Lookup(m.entries, key);
    if hit.None? then m else m.(entries := Without(m.entries, key) + [hit.value])
  }

  /** The answer of a lookup: the stored message under the query's id, and whether it has expired. */
  function Get(m: Model, key: Key, id: nat, now: nat): Option<(Message, bool)> {
    var hit := Lookup(m.entries, key);
    if hit.None? then None else Some((hit.value.message.(id := id), now >= hit.value.expiresAt))
  }

  ghost predicate Valid(m: Model) {
    && m.usedBytes == Costs(m.entries) <= m.maxBytes
    && DistinctKeys(m.entries)
  }

  // Removal and lookup

  lemma {:induction false} WithoutConcat(a: seq<Entry>, b: seq<Entry>, key: Key)
    ensures Without(a + b, key) == Without(a, key) + Without(b, key)
  {
    if b == [] {
      assert a + b == a;
    } else {
      var b' := b[..|b| - 1];
      assert (a + b)[..|a + b| - 1] == a + b';
      WithoutConcat(a, b', key);
    }
  }

  lemma {:induction false} WithoutAbsent(a: seq<Entry>, key: Key)
    requires !Has(a, key)
    ensures Without(a, key) == a
  {
    if a != [] {
      var p := a[..|a| - 1];
      assert forall i :: 0 <= i < |p| ==> p[i] == a[i];
      WithoutAbsent(p, key);
    }
  }

  lemma WithoutSplit(l: seq<Entry>, e: Entry, r: seq<Entry>)
    requires !Has(l, e.key) && !Has(r, e.key)
    ensures Without(l + [e] + r, e.key) == l + r
  {
    WithoutConcat(l + [e], r, e.key);
    WithoutConcat(l, [e], e.key);
    assert Without([e], e.key) == [];
    WithoutAbsent(l, e.key);
    WithoutAbsent(r, e.key);
  }

  lemma {:induction false} LookupPresent(a: seq<Entry>, i: nat)
    requires i < |a| && DistinctKeys(a)
    ensures Lookup(a, a[i].key) == Some(a[i])
  {
    if i < |a| - 1 {
      LookupPresent(a[..|a| - 1], i);
    }
  }

  lemma CostsSplit(l: seq<Entry>, e: Entry, r: seq<Entry>)
    ensures Costs(l + [e] + r) == Costs(l + r) + e.cost
  {
    SumConcat(l + [e], r, CostOf);
    SumConcat(l, r, CostOf);
    SumPush(l, e, CostOf);
  }

  lemma SplitDistinct(a: seq<Entry>, i: nat)
    requires i < |a| && DistinctKeys(a)
    ensures a == a[..i] + [a[i]] + a[i + 1..]
    ensures !Has(a[..i], a[i].key) && !Has(a[i + 1..], a[i].key)
  {
  }

  /** Removing a present key takes out exactly the one entry that has it. */
  lemma WithoutPresent(a: seq<Entry>, i: nat)
    requires i < |a| && DistinctKeys(a)
    ensures Without(a, a[i].key) == a[..i] + a[i + 1..]
    ensures Lookup(a, a[i].key) == Some(a[i])
    ensures Costs(Without(a, a[i].key)) == Costs(a) - a[i].cost
  {
    var l, r := a[..i], a[i + 1..];
    SplitDistinct(a, i);
    WithoutSplit(l, a[i], r);
    LookupPresent(a, i);
    CostsSplit(l, a[i], r);
  }

  lemma WithoutKeeps(a: seq<Entry>, key: Key)
    requires DistinctKeys(a)
    ensures DistinctKeys(Without(a, key)) && !Has(Without(a, key), key)
    ensures forall e :: e in Without(a, key) <==> e in a && e.key != key
  {
    if Has(a, key) {
      var i :| 0 <= i < |a| && a[i].key == key;
      assert Without(a, key) == a[..i] + a[i + 1..] by { WithoutPresent(a, i); }
      DropOne(a, i);
    } else {
      WithoutAbsent(a, key);
    }
  }

  lemma DropOne(a: seq<Entry>, i: nat)
    requires DistinctKeys(a) && i < |a|
    ensures var r := a[..i] + a[i + 1..];
            DistinctKeys(r) && (forall e :: e in r <==> e in a && e.key != a[i].key)
  {
    var r := a[..i] + a[i + 1..];
    forall e | e in a && e.key != a[i].key ensures e in r {
      var j :| 0 <= j < |a| && a[j] == e;
      if j < i { assert r[j] == e; } else { assert r[j - 1] == e; }
    }
  }

  /** The lifetime is the smallest TTL among the answers. */
  lemma {:induction false} TtlIsMinimum(answers: seq<Record>)
    requires answers != []
    ensures forall i :: 0 <= i < |answers| ==> Ttl(answers) <= answers[i].ttl
    ensures exists i :: 0 <= i < |answers| && Ttl(answers) == answers[i].ttl
  {
    if |answers| == 1 {
      assert Ttl(answers) == answers[0].ttl;
    } else {
      var p := answers[..|answers| - 1];
      TtlIsMinimum(p);
      var i :| 0 <= i < |p| && Ttl(p) == p[i].ttl;
      assert forall j :: 0 <= j < |p| ==> answers[j] == p[j];
      var w := if answers[|p|].ttl < Ttl(p) then |p| else i;
      assert Ttl(answers) == answers[w].ttl;
    }
  }

  // Trimming

  /** Trimming drops a front part, the shortest that fits; a last entry that fits alone stays. */
  lemma {:induction false} TrimIsShortest(a: seq<Entry>, maxBytes: nat)
    ensures var t := Trim(a, maxBytes);
            && |t| <= |a| && t == a[|a| - |t|..]
            && Costs(t) <= maxBytes
            && (|t| < |a| ==> Costs(a[|a| - |t| - 1..]) > maxBytes)
            && (a != [] && a[|a| - 1].cost <= maxBytes ==> t != [])
  {
    if a != [] && Costs(a) > maxBytes {
      var r := a[1..];
      TrimIsShortest(r, maxBytes);
      var n := |Trim(r, maxBytes)|;
      assert r[|r| - n..] == a[|a| - n..];
      if n < |r| {
        assert r[|r| - n - 1..] == a[|a| - n - 1..];
      } else {
        assert a[0..] == a;
      }
      CostsDropFront(a);
    }
  }

  lemma CostsDropFront(a: seq<Entry>)
    requires a != []
    ensures Costs(a[1..]) == Costs(a) - a[0].cost
  {
    assert a == [a[0]] + a[1..];
    SumConcat([a[0]], a[1..], CostOf);
    SumPush([], a[0], CostOf);
    assert [a[0]] == [] + [a[0]];
  }

  lemma PutValid(m: Model, e: Entry, refusals: nat)
    requires Valid(m)
    ensures Valid(Put(m, e, refusals))
  {
    if e.cost <= m.maxBytes {
      var rest := Without(m.entries, e.key);
      if refusals <= |rest| {
        var cut := rest[refusals..] + [e];
        assert DistinctKeys(cut) by { WithoutKeeps(m.entries, e.key); }
        TrimmedValid(cut, m.maxBytes);
      }
    }
  }

  lemma TrimmedValid(cut: seq<Entry>, maxBytes: nat)
    requires DistinctKeys(cut)
    ensures DistinctKeys(Trim(cut, maxBytes)) && Costs(Trim(cut, maxBytes)) <= maxBytes
  {
    TrimIsShortest(cut, maxBytes);
  }

  /** A put adds at most its own entry. */
  lemma PutMembers(m: Model, e: Entry, refusals: nat)
    requires DistinctKeys(m.entries)
    ensures DistinctKeys(Put(m, e, refusals).entries)
    ensures forall x :: x in Put(m, e, refusals).entries ==> x == e || x in m.entries
  {
    var rest := Without(m.entries, e.key);
    if e.cost <= m.maxBytes && refusals <= |rest| {
      var cut := rest[refusals..] + [e];
      assert DistinctKeys(cut) && forall x :: x in cut ==> x == e || x in m.entries by {
        WithoutKeeps(m.entries, e.key);
        assert forall x :: x in cut ==> x == e || x in rest;
      }
      var t := Trim(cut, m.maxBytes);
      assert t == cut[|cut| - |t|..] by { TrimIsShortest(cut, m.maxBytes); }
    }
  }

  lemma TouchValid(m: Model, key: Key)
    requires Valid(m)
    ensures Valid(Touch(m, key))
  {
    if Has(m.entries, key) {
      var i :| 0 <= i < |m.entries| && m.entries[i].key == key;
      var e := m.entries[i];
      assert Lookup(m.entries, key) == Some(e) && Costs(Without(m.entries, key)) == Costs(m.entries) - e.cost by {
        WithoutPresent(m.entries, i);
      }
      var rest := Without(m.entries, key);
      assert DistinctKeys(rest + [e]) by { WithoutKeeps(m.entries, key); }
      SumPush(rest, e, CostOf);
    }
  }

  /** A put evicts from the least recent end only. Stored: the key is the most recent entry, and beyond
      what the allocator forced out no entry was evicted that could have stayed. Refused: the cache is
      empty. Too big for the budget: nothing changes. */
  lemma PutEvictsLeastRecent(m: Model, e: Entry, refusals: nat)
    ensures var m', rest := Put(m, e, refusals), Without(m.entries, e.key);
            if e.cost > m.maxBytes then m' == m
            else if refusals > |rest| then m'.entries == [] && m'.usedBytes == 0
            else m'.entries != [] && m'.entries[|m'.entries| - 1] == e
                 && ShortestEviction(rest + [e], m'.entries, refusals, m.maxBytes)
  {
    var rest := Without(m.entries, e.key);
    if e.cost <= m.maxBytes && refusals <= |rest| {
      StoredAtEnd(rest, e, refusals, m.maxBytes);
    }
  }

  /** kept is all without its first entries: n of them at least, and no more than the budget demands. */
  ghost predicate ShortestEviction(all: seq<Entry>, kept: seq<Entry>, n: nat, maxBytes: nat) {
    var dropped := |all| - |kept|;
    && n <= dropped && kept == all[dropped..]
    && (dropped > n ==> Costs(all[dropped - 1..]) > maxBytes)
  }

  lemma StoredAtEnd(rest: seq<Entry>, e: Entry, n: nat, maxBytes: nat)
    requires n <= |rest| && e.cost <= maxBytes
    ensures var kept := Trim(rest[n..] + [e], maxBytes);
            kept != [] && kept[|kept| - 1] == e && ShortestEviction(rest + [e], kept, n, maxBytes)
  {
    var all := rest + [e];
    assert rest[n..] + [e] == all[n..];
    TrimAfterForced(all, n, maxBytes);
  }

  /** Trimming what is left after n forced evictions. */
  lemma TrimAfterForced(all: seq<Entry>, n: nat, maxBytes: nat)
    requires n < |all| && all[|all| - 1].cost <= maxBytes
    ensures var t := Trim(all[n..], maxBytes);
            var dropped := |all| - |t|;
            && n <= dropped < |all| && t == all[dropped..]
            && (dropped > n ==> Costs(all[dropped - 1..]) > maxBytes)
  {
    var cut := all[n..];
    TrimIsShortest(cut, maxBytes);
    var k := |cut| - |Trim(cut, maxBytes)|;
    assert cut[k..] == all[n + k..];
    if k > 0 { assert cut[k - 1..] == all[n + k - 1..]; }
  }

  /** The cache itself: a linked map and a counter, both updated in place under one lock. */
  class Cache {
    const maxBytes: nat
    var entries: seq<Entry>
    var usedBytes: int
    var lookups: nat
    var hits: nat

    function Value(): Model
      reads this
    {
      Model(maxBytes, entries, usedBytes)
    }

    ghost predicate Ok()
      reads this
    {
      Valid(Value()) && hits <= lookups
    }

    constructor (maxMemoryMb: nat)
      ensures Ok() && entries == [] && lookups == 0
      ensures maxBytes == (if maxMemoryMb < 1 then 1 else maxMemoryMb) * MIB
    {
      maxBytes := (if maxMemoryMb < 1 then 1 else maxMemoryMb) * MIB;
      entries, usedBytes, lookups, hits := [], 0, 0, 0;
    }

    method Position(key: Key) returns (i: nat)
      ensures i <= |entries|
      ensures i < |entries| ==> entries[i].key == key
      ensures i == |entries| ==> !Has(entries, key)
    {
      i := 0;
      while i < |entries| && entries[i].key != key
        invariant i <= |entries| && forall j :: 0 <= j < i ==> entries[j].key != key
      {
        i := i + 1;
      }
    }

    method Fetch(key: Key, id: nat, now: nat) returns (r: Option<(Message, bool)>)
      requires Ok()
      modifies this`entries, this`lookups, this`hits
      ensures Ok() && Value() == Touch(old(Value()), key)
      ensures r == Get(old(Value()), key, id, now)
      ensures lookups == old(lookups) + 1
      ensures hits == old(hits) + if r.Some? then 1 else 0
    {
      lookups := lookups + 1;
      var i := Position(key);
      if i == |entries| { return None; }
      WithoutPresent(entries, i);
      TouchValid(Value(), key);
      var e := entries[i];
      entries := entries[..i] + entries[i + 1..] + [e];  // to_back
      hits := hits + 1;
      r := Some((e.message.(id := id), now >= e.expiresAt));
    }

    method ReserveOrEvict(refusals: nat) returns (ok: bool)
      requires usedBytes == Costs(entries)
      modifies this`entries, this`usedBytes
      ensures ok <==> refusals <= |old(entries)|
      ensures entries == if ok then old(entries)[refusals..] else []
      ensures usedBytes == Costs(entries)
    {
      var left := refusals;
      while left > 0
        invariant 0 <= left <= refusals && refusals - left <= |old(entries)|
        invariant entries == old(entries)[refusals - left..]
        invariant usedBytes == Costs(entries)
      {
        if entries == [] { return false; }
        CostsDropFront(entries);
        usedBytes := usedBytes - entries[0].cost;
        entries := entries[1..];
        left := left - 1;
      }
      return true;
    }

    method Store(key: Key, message: Message, cost: nat, now: nat, refusals: nat)
      requires Ok()
      modifies this`entries, this`usedBytes
      ensures Ok() && Value() == Put(old(Value()), MakeEntry(key, message, cost, now), refusals)
    {
      var e := MakeEntry(key, message, cost, now);
      if cost <= maxBytes {
        Remove(key);
        var ok := ReserveOrEvict(refusals);
        if ok { InsertAndEvict(e); }
      }
      PutValid(old(Value()), e, refusals);
    }

    /** Insert at the recent end, then evict from the other until the total fits. */
    method InsertAndEvict(e: Entry)
      requires usedBytes == Costs(entries)
      modifies this`entries, this`usedBytes
      ensures entries == Trim(old(entries) + [e], maxBytes) && usedBytes == Costs(entries)
    {
      SumPush(entries, e, CostOf);
      usedBytes := usedBytes + e.cost;
      entries := entries + [e];
      EvictToBudget();
    }

    /** Evict the least recently used until the total fits. */
    method EvictToBudget()
      requires usedBytes == Costs(entries)
      modifies this`entries, this`usedBytes
      ensures entries == Trim(old(entries), maxBytes) && usedBytes == Costs(entries)
    {
      while usedBytes > maxBytes
        invariant usedBytes == Costs(entries)
        invariant Trim(entries, maxBytes) == Trim(old(entries), maxBytes)
        decreases |entries|
      {
        assert entries != [];  // so the `break` on an empty map is never taken
        CostsDropFront(entries);
        usedBytes := usedBytes - entries[0].cost;
        entries := entries[1..];
      }
    }

    /** Take out the entry of a key, if there is one. */
    method Remove(key: Key)
      requires Valid(Value())
      modifies this`entries, this`usedBytes
      ensures entries == Without(old(entries), key) && usedBytes == Costs(entries)
    {
      var i := Position(key);
      if i < |entries| {
        WithoutPresent(entries, i);
        usedBytes := usedBytes - entries[i].cost;
        entries := entries[..i] + entries[i + 1..];
      } else {
        WithoutAbsent(entries, key);
      }
    }
  }
}
