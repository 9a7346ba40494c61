/** Whole runs of the cache against a recency list that never forgets. */
module CacheRuns {
  import opened Prelude
  import opened Cache

  datatype Op =
    | GetOp(key: Key)
    | PutOp(entry: Entry, refusals: nat)

  function Apply(m: Model, op: Op): Model {
    match op
    case GetOp(key) => Touch(m, key)
    case PutOp(e, refusals) => Put(m, e, refusals)
  }

  function After(maxBytes: nat, ops: seq<Op>): Model {
    if ops == [] then Model(maxBytes, [], 0)
    else Apply(After(maxBytes, ops[..|ops| - 1]), ops[|ops| - 1])
  }

  lemma AfterPush(maxBytes: nat, ops: seq<Op>, op: Op)
    ensures After(maxBytes, ops + [op]) == Apply(After(maxBytes, ops), op)
  {
    assert (ops + [op])[..|ops|] == ops;
  }

  lemma {:induction false} AlwaysValid(maxBytes: nat, ops: seq<Op>)
    ensures Valid(After(maxBytes, ops)) && After(maxBytes, ops).maxBytes == maxBytes
  {
    if ops != [] {
      var m, op := After(maxBytes, ops[..|ops| - 1]), ops[|ops| - 1];
      AlwaysValid(maxBytes, ops[..|ops| - 1]);
      match op
      case GetOp(key) => TouchValid(m, key);
      case PutOp(e, refusals) => PutValid(m, e, refusals);
    }
  }

  // The reference: every key ever stored, most recently used last, nothing ever evicted

  predicate Stores(m: Model, op: Op) {
    op.PutOp? && Accepts(m, op.entry.key, op.entry.cost, op.refusals)
  }

  function Reference(maxBytes: nat, ops: seq<Op>): seq<Entry> {
    if ops == [] then []
    else
      var m, op := After(maxBytes, ops[..|ops| - 1]), ops[|ops| - 1];
      var r := Reference(maxBytes, ops[..|ops| - 1]);
      match op
      case GetOp(key) => if Has(m.entries, key) && Has(r, key) then Without(r, key) + [Lookup(r, key).value] else r
      case PutOp(e, _) => if Stores(m, op) then Without(r, e.key) + [e] else r
  }

  /** The entry of the last accepted put of a key. */
  function LastStored(maxBytes: nat, ops: seq<Op>, key: Key): Option<Entry> {
    if ops == [] then None
    else
      var op := ops[|ops| - 1];
      if Stores(After(maxBytes, ops[..|ops| - 1]), op) && op.entry.key == key then Some(op.entry)
      else LastStored(maxBytes, ops[..|ops| - 1], key)
  }

  predicate IsSuffix(a: seq<Entry>, b: seq<Entry>) {
    |a| <= |b| && a == b[|b| - |a|..]
  }

  lemma {:induction false} LookupWithout(a: seq<Entry>, key: Key, other: Key)
    ensures Lookup(Without(a, key), other) == if other == key then None else Lookup(a, other)
  {
    if a != [] {
      var p, last := a[..|a| - 1], a[|a| - 1];
      LookupWithout(p, key, other);
      if last.key != key {
        LookupPush(Without(p, key), last, other);
      } else {
        assert Without(a, key) == Without(p, key);
      }
    }
  }

  lemma LookupPush(a: seq<Entry>, e: Entry, key: Key)
    ensures Lookup(a + [e], key) == if e.key == key then Some(e) else Lookup(a, key)
  {
    assert (a + [e])[..|a|] == a;
  }

  /** The reference holds, for each key, its last accepted entry. */
  lemma {:induction false} ReferenceHoldsLast(maxBytes: nat, ops: seq<Op>, key: Key)
    ensures Lookup(Reference(maxBytes, ops), key) == LastStored(maxBytes, ops, key)
  {
    if ops != [] {
      var p, op := ops[..|ops| - 1], ops[|ops| - 1];
      ReferenceHoldsLast(maxBytes, p, key);
      var r := Reference(maxBytes, p);
      match op
      case GetOp(k) =>
        LookupWithout(r, k, key);
        if Has(r, k) { LookupPush(Without(r, k), Lookup(r, k).value, key); }
      case PutOp(e, _) =>
        LookupWithout(r, e.key, key);
        LookupPush(Without(r, e.key), e, key);
    }
  }

  lemma {:induction false} ReferenceDistinct(maxBytes: nat, ops: seq<Op>)
    ensures DistinctKeys(Reference(maxBytes, ops))
  {
    if ops != [] {
      var p, op := ops[..|ops| - 1], ops[|ops| - 1];
      ReferenceDistinct(maxBytes, p);
      WithoutKeeps(Reference(maxBytes, p), if op.GetOp? then op.key else op.entry.key);
    }
  }

  lemma SuffixWithout(a: seq<Entry>, b: seq<Entry>, key: Key)
    requires IsSuffix(a, b)
    ensures IsSuffix(Without(a, key), Without(b, key))
  {
    var f := b[..|b| - |a|];
    assert b == f + a;
    WithoutConcat(f, a, key);
  }

  lemma SuffixPush(a: seq<Entry>, b: seq<Entry>, e: Entry, n: nat)
    requires IsSuffix(a, b) && n <= |a| + 1
    ensures IsSuffix((a + [e])[n..], b + [e])
  {
  }

  lemma SuffixLookup(a: seq<Entry>, b: seq<Entry>, key: Key)
    requires IsSuffix(a, b) && Has(a, key) && DistinctKeys(b)
    ensures Has(b, key) && Lookup(b, key) == Lookup(a, key)
  {
    var i :| 0 <= i < |a| && a[i].key == key;
    var k := |b| - |a|;
    SuffixShape(a, b);
    assert Lookup(a, key) == Some(a[i]) by { LookupPresent(a, i); }
    assert Lookup(b, key) == Some(b[k + i]) by { LookupPresent(b, k + i); }
  }

  lemma SuffixShape(a: seq<Entry>, b: seq<Entry>)
    requires IsSuffix(a, b) && DistinctKeys(b)
    ensures DistinctKeys(a) && forall j :: 0 <= j < |a| ==> a[j] == b[|b| - |a| + j]
  {
  }

  /** The cache is always the most recently used end of the reference: what it holds are the last accepted
      entries of the most recently used keys, in order of use, and what it lacks was used less recently
      than anything it holds. */
  lemma {:induction false} CacheIsRecentEnd(maxBytes: nat, ops: seq<Op>)
    ensures IsSuffix(After(maxBytes, ops).entries, Reference(maxBytes, ops))
  {
    if ops != [] {
      var p, op := ops[..|ops| - 1], ops[|ops| - 1];
      CacheIsRecentEnd(maxBytes, p);
      var m, r := After(maxBytes, p), Reference(maxBytes, p);
      match op
      case GetOp(key) => if Has(m.entries, key) { TouchKeepsEnd(maxBytes, p, key); }
      case PutOp(e, refusals) => if Stores(m, op) { PutKeepsEnd(m, r, e, refusals); }
    }
  }

  lemma TouchKeepsEnd(maxBytes: nat, ops: seq<Op>, key: Key)
    requires IsSuffix(After(maxBytes, ops).entries, Reference(maxBytes, ops)) && Has(After(maxBytes, ops).entries, key)
    ensures var r := Reference(maxBytes, ops);
            Has(r, key) && IsSuffix(Touch(After(maxBytes, ops), key).entries, Without(r, key) + [Lookup(r, key).value])
  {
    var m, r := After(maxBytes, ops), Reference(maxBytes, ops);
    ReferenceDistinct(maxBytes, ops);
    SuffixLookup(m.entries, r, key);
    SuffixWithout(m.entries, r, key);
    var a, b, e := Without(m.entries, key), Without(r, key), Lookup(r, key).value;
    SuffixPush(a, b, e, 0);
    assert (a + [e])[0..] == a + [e];
  }

  lemma PutKeepsEnd(m: Model, r: seq<Entry>, e: Entry, refusals: nat)
    requires IsSuffix(m.entries, r) && Accepts(m, e.key, e.cost, refusals)
    ensures IsSuffix(Put(m, e, refusals).entries, Without(r, e.key) + [e])
  {
    var a, b := Without(m.entries, e.key), Without(r, e.key);
    SuffixWithout(m.entries, r, e.key);
    PutEvictsLeastRecent(m, e, refusals);
    SuffixPush(a, b, e, |a| + 1 - |Put(m, e, refusals).entries|);
  }

  /** Read as a map: in every reachable state the byte count is exact and within budget, and every stored
      entry is the last one accepted for its key. */
  lemma CacheRefinesMap(maxBytes: nat, ops: seq<Op>, e: Entry)
    requires e in After(maxBytes, ops).entries
    ensures LastStored(maxBytes, ops, e.key) == Some(e)
    ensures After(maxBytes, ops).usedBytes == Costs(After(maxBytes, ops).entries) <= maxBytes
  {
    AlwaysValid(maxBytes, ops);
    CacheIsRecentEnd(maxBytes, ops);
    ReferenceDistinct(maxBytes, ops);
    ReferenceHoldsLast(maxBytes, ops, e.key);
    var a := After(maxBytes, ops).entries;
    SuffixLookup(a, Reference(maxBytes, ops), e.key);
    var i :| 0 <= i < |a| && a[i] == e;
    LookupPresent(a, i);
  }
}
