/** Cache runs in which every lookup and every put carries its time: what a hit returns and when it is expired. */
module CacheExpiry {
  import opened Prelude
  import opened Dns
  import opened Cache
  import opened CacheRuns

  datatype TimedOp =
    | Fetch(key: Key, now: nat)
    | Store(key: Key, message: Message, cost: nat, now: nat, refusals: nat)

  function OpOf(o: TimedOp): Op {
    match o
    case Fetch(key, _) => GetOp(key)
    case Store(key, message, cost, now, refusals) => PutOp(MakeEntry(key, message, cost, now), refusals)
  }

  function Ops(os: seq<TimedOp>): (r: seq<Op>)
    ensures |r| == |os|
  {
    if os == [] then [] else Ops(os[..|os| - 1]) + [OpOf(os[|os| - 1])]
  }

  /** The cache after the operations. */
  function Reached(maxBytes: nat, os: seq<TimedOp>): Model { After(maxBytes, Ops(os)) }

  lemma ReachedNext(maxBytes: nat, os: seq<TimedOp>, o: TimedOp)
    ensures Reached(maxBytes, os + [o]) == Apply(Reached(maxBytes, os), OpOf(o))
  {
    assert (os + [o])[..|os|] == os;
    AfterPush(maxBytes, Ops(os), OpOf(o));
  }

  /** The last put under a key that was accepted. */
  function LastStore(maxBytes: nat, os: seq<TimedOp>, key: Key): (r: Option<TimedOp>)
    ensures r.Some? ==> r.value.Store? && r.value.key == key && r.value in os
  {
    if os == [] then None
    else
      var p, o := os[..|os| - 1], os[|os| - 1];
      if o.Store? && o.key == key && Accepts(Reached(maxBytes, p), key, o.cost, o.refusals) then Some(o)
      else LastStore(maxBytes, p, key)
  }

  /** The lifetime is over: some answer's TTL has passed since the message was stored; a minute if it has no answers.
      Times are in nanoseconds. */
  predicate Elapsed(answers: seq<Record>, stored: nat, now: nat) {
    if answers == [] then now >= stored + 60_000_000_000
    else exists i :: 0 <= i < |answers| && now >= stored + answers[i].ttl * 1_000_000_000
  }

  lemma ElapsedIffExpired(key: Key, message: Message, cost: nat, stored: nat, now: nat)
    ensures now >= MakeEntry(key, message, cost, stored).expiresAt <==> Elapsed(message.answers, stored, now)
  {
    var answers := message.answers;
    if answers != [] {
      TtlIsMinimum(answers);
      var i :| 0 <= i < |answers| && Ttl(answers) == answers[i].ttl;
      assert now >= stored + Ttl(answers) * NANOS ==> now >= stored + answers[i].ttl * 1_000_000_000;
    }
  }

  lemma {:induction false} StoredByLast(maxBytes: nat, os: seq<TimedOp>, key: Key)
    ensures var o := LastStore(maxBytes, os, key);
            LastStored(maxBytes, Ops(os), key)
            == if o.None? then None
               else Some(MakeEntry(o.value.key, o.value.message, o.value.cost, o.value.now))
  {
    if os != [] {
      var p, o := os[..|os| - 1], os[|os| - 1];
      StoredByLast(maxBytes, p, key);
      assert Ops(os)[..|os| - 1] == Ops(p) && Ops(os)[|os| - 1] == OpOf(o);
    }
  }

  /** A hit is the message of the last accepted put of its key, under the asker's id, and it is marked expired if and
      only if that message's lifetime has passed since that put. */
  lemma HitMeans(maxBytes: nat, os: seq<TimedOp>, key: Key, id: nat, now: nat)
    ensures var hit, o := Get(Reached(maxBytes, os), key, id, now), LastStore(maxBytes, os, key);
            && (hit.Some? <==> Has(Reached(maxBytes, os).entries, key))
            && (hit.Some? ==>
                  && o.Some?
                  && hit.value.0.id == id && hit.value.0.rcode == o.value.message.rcode
                  && hit.value.0.questions == o.value.message.questions
                  && hit.value.0.answers == o.value.message.answers
                  && (hit.value.1 <==> Elapsed(o.value.message.answers, o.value.now, now)))
  {
    var found := Lookup(Reached(maxBytes, os).entries, key);
    if found.Some? {
      CacheRefinesMap(maxBytes, Ops(os), found.value);
      StoredByLast(maxBytes, os, key);
      var o := LastStore(maxBytes, os, key).value;
      ElapsedIffExpired(o.key, o.message, o.cost, o.now, now);
    }
  }
}
