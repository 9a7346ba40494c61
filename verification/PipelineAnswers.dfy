/** What clients get, what the cache is given and what the recorder sees, over whole runs of the pipeline. */
module PipelineAnswers {
  import opened Prelude
  import opened Dns
  import opened Pipeline
  import Cache
  import CacheExpiry
  import CacheRuns
  import Filter
  import Hosts
  import Names

  // Questions and keys

  /** The same record type of the same name, up to letter case and trailing dots. */
  predicate SameQuestion(p: Message, q: Message) {
    && p.questions != [] && q.questions != []
    && p.questions[0].qtype == q.questions[0].qtype
    && Names.SameName(p.questions[0].name, q.questions[0].name)
  }

  /** Queries share a cache key if and only if they ask the same question. */
  lemma KeyMeans(p: Message, q: Message)
    requires p.questions != [] && q.questions != []
    ensures KeyOf(p) == KeyOf(q) <==> SameQuestion(p, q)
  {
    Names.NormalizeIff(p.questions[0].name, q.questions[0].name);
  }

  // Local answers

  /** The addresses of one family, in order. */
  function OfFamily(addrs: Hosts.Addresses, v4: bool): seq<nat> {
    if addrs == [] then []
    else (if addrs[0].V4? == v4 then [addrs[0].bits] else []) + OfFamily(addrs[1..], v4)
  }

  lemma {:induction false} OfFamilyPush(addrs: Hosts.Addresses, a: Hosts.Address, v4: bool)
    ensures OfFamily(addrs + [a], v4) == OfFamily(addrs, v4) + if a.V4? == v4 then [a.bits] else []
  {
    if addrs != [] {
      assert (addrs + [a])[1..] == addrs[1..] + [a];
      OfFamilyPush(addrs[1..], a, v4);
    } else {
      assert [a][1..] == [];
    }
  }

  /** Exactly the addresses of the queried family, in order, each with a TTL of 300 seconds. */
  predicate ServesAddresses(answers: seq<Record>, addrs: Hosts.Addresses, qtype: nat) {
    if qtype == 1 then
      var bits := OfFamily(addrs, true);
      |answers| == |bits| && forall i :: 0 <= i < |bits| ==> answers[i] == Record(300, A(bits[i]))
    else if qtype == 28 then
      var bits := OfFamily(addrs, false);
      |answers| == |bits| && forall i :: 0 <= i < |bits| ==> answers[i] == Record(300, AAAA(bits[i]))
    else answers == []
  }

  lemma {:induction false} HostRecordsMean(addrs: Hosts.Addresses, qtype: nat)
    ensures ServesAddresses(HostRecords(addrs, qtype), addrs, qtype)
  {
    if addrs != [] {
      var p, a := addrs[..|addrs| - 1], addrs[|addrs| - 1];
      assert addrs == p + [a];
      HostRecordsMean(p, qtype);
      OfFamilyPush(p, a, qtype == 1);
    }
  }

  /** What the hosts file says about a query's name: the exact entry, else the wildcard of the longest proper label
      suffix. */
  ghost predicate HostsSay(hosts: Hosts.HostsMap, q: Message, addrs: Hosts.Addresses)
    requires q.questions != []
  {
    var n := Names.Normalize(q.questions[0].name);
    if n in hosts.exact then addrs == hosts.exact[n] else Hosts.LongestWildcard(hosts.wildcard, n, 1, addrs)
  }

  ghost predicate HostsAnswer(hosts: Hosts.HostsMap, q: Message, m: Message)
    requires q.questions != []
  {
    && m.id == q.id && m.rcode.NoError? && m.questions == [q.questions[0]]
    && exists addrs :: HostsSay(hosts, q, addrs) && ServesAddresses(m.answers, addrs, q.questions[0].qtype)
  }

  lemma HostsLookupMeans(hosts: Hosts.HostsMap, q: Message)
    requires q.questions != []
    ensures HostsLookup(hosts, q).Some? ==> HostsAnswer(hosts, q, HostsLookup(hosts, q).value)
    ensures HostsLookup(hosts, q).None? ==> forall addrs :: !HostsSay(hosts, q, addrs)
  {
    var n := Names.Normalize(q.questions[0].name);
    Hosts.MatchedIsExactOrLongest(hosts, n);
    var addrs := Hosts.Matched(hosts, n);
    if addrs.Some? {
      HostRecordsMean(addrs.value, q.questions[0].qtype);
      assert HostsSay(hosts, q, addrs.value);
    }
  }

  /** The unspecified address for an address query, nothing for any other. */
  predicate BlockAnswer(q: Message, m: Message)
    requires q.questions != []
  {
    && m.id == q.id && m.rcode.NoError? && m.questions == [q.questions[0]]
    && m.answers == if q.questions[0].qtype == 1 then [Record(300, A(0))]
                    else if q.questions[0].qtype == 28 then [Record(300, AAAA(0))] else []
  }

  predicate FailureAnswer(q: Message, m: Message) {
    m.id == q.id && m.rcode.ServFail? && m.questions == q.questions && m.answers == []
  }

  // Where every answer comes from

  predicate Plain(a: Answer) { !a.blocked && !a.cacheHit && a.upstream.None? }

  /** The answer a step gives, case by case. */
  ghost predicate Rightly(s: State, l: Label, a: Answer) {
    match l
    case Arrive(q, _) =>
      && a.query == q && a.upstream.None?
      && if q.questions == [] then Plain(a) && FailureAnswer(q, a.response)
         else if exists addrs :: HostsSay(s.hosts, q, addrs) then Plain(a) && HostsAnswer(s.hosts, q, a.response)
         else if Filter.Blocked(s.rules, s.allowlist, q.questions[0].name) then
           a.blocked && !a.cacheHit && BlockAnswer(q, a.response)
         else a.cacheHit && (a.blocked <==> BlockShaped(a.response))
    case UpstreamOk(i, response, name, _, _, _) =>
      && i < |s.pending| && s.pending[i] == Some(a.query)
      && a.response == response && a.upstream == name && !a.cacheHit && (a.blocked <==> BlockShaped(response))
    case UpstreamErr(i) =>
      i < |s.pending| && s.pending[i] == Some(a.query) && Plain(a) && FailureAnswer(a.query, a.response)
    case RefreshOk(_, _, _, _, _) => false
    case RefreshErr(_) => false
    case SwapRules(_) => false
  }

  lemma StepAnswersRightly(s: State, l: Label)
    requires Enabled(s, l) && |Next(s, l).answers| > |s.answers|
    ensures Rightly(s, l, Next(s, l).answers[|s.answers|])
  {
    if l.Arrive? && l.query.questions != [] { HostsLookupMeans(s.hosts, l.query); }
  }

  ghost predicate GivenRightly(states: seq<State>, labels: seq<Label>, k: nat, a: Answer)
    requires |states| == |labels| + 1 && k <= |labels|
  {
    exists p :: 0 <= p < k && Rightly(states[p], labels[p], a)
  }

  /** Every answer is right: a query without a question gets a failure; a hosts match its addresses; a blocked name the
      block answer; a cached answer is marked by its shape; what an upstream answered is passed on as it came, with
      that upstream's name; and when the upstream gave nothing the client gets a failure. */
  lemma {:induction false} AnswersAreRight(states: seq<State>, labels: seq<Label>, k: nat)
    requires Run(states, labels) && k < |states|
    ensures forall x :: 0 <= x < |states[k].answers| ==> GivenRightly(states, labels, k, states[k].answers[x])
  {
    if k > 0 {
      AnswersAreRight(states, labels, k - 1);
      var s, l, s' := states[k - 1], labels[k - 1], states[k];
      assert StepAt(states, labels, k - 1);
      LogsGrow(s, l);
      forall x | 0 <= x < |s'.answers| ensures GivenRightly(states, labels, k, s'.answers[x]) {
        if x < |s.answers| {
          assert s'.answers[x] == s.answers[x];
          assert GivenRightly(states, labels, k - 1, s.answers[x]);
        } else {
          StepAnswersRightly(s, l);
        }
      }
    }
  }

  /** A cached answer was an upstream's error-free answer to the same question, under the asker's id. */
  lemma HitsAnswerTheQuestion(states: seq<State>, labels: seq<Label>, k: nat, x: nat)
    requires Run(states, labels) && k < |states| && x < |states[k].answers| && states[k].answers[x].cacheHit
    ensures var a := states[k].answers[x];
            exists e :: e in states[k].exchanges && SameQuestion(e.query, a.query)
                        && a.response == Message(a.query.id, NoError, e.response.questions, e.response.answers)
  {
    PipelineAlways(states, labels, k);
    var s := states[k];
    var a := s.answers[x];
    assert HitIsGenuine(s.exchanges, a);
    var m :| FromUpstream(s.exchanges, KeyOf(a.query).value, m) && a.response == m.(id := a.query.id);
    var i :| 0 <= i < |s.exchanges| && s.exchanges[i].response == m
             && KeyOf(s.exchanges[i].query) == Some(KeyOf(a.query).value);
    KeyMeans(s.exchanges[i].query, a.query);
    assert s.exchanges[i] in s.exchanges;
  }

  // The recorder

  predicate Describes(e: Event, a: Answer) {
    && a.query.questions != []
    && Names.IsNormal(a.query.questions[0].name, e.domain) && e.qtype == a.query.questions[0].qtype
    && e.rcode == a.response.rcode && e.blocked == a.blocked && e.cacheHit == a.cacheHit && e.upstream == a.upstream
  }

  /** The answers to queries that had a question. */
  function Questioned(answers: seq<Answer>): seq<Answer> {
    if answers == [] then []
    else
      var a := answers[|answers| - 1];
      Questioned(answers[..|answers| - 1]) + if a.query.questions == [] then [] else [a]
  }

  lemma {:induction false} RecordedDescribes(answers: seq<Answer>)
    ensures |Recorded(answers)| == |Questioned(answers)|
    ensures forall i :: 0 <= i < |Recorded(answers)| ==> Describes(Recorded(answers)[i], Questioned(answers)[i])
  {
    if answers != [] {
      RecordedDescribes(answers[..|answers| - 1]);
      var a := answers[|answers| - 1];
      if a.query.questions != [] { Names.NormalizeMeans(a.query.questions[0].name); }
    }
  }

  /** The recorder has been offered one event per answered question, in order, each describing its answer. */
  lemma EventsDescribeAnswers(states: seq<State>, labels: seq<Label>, k: nat)
    requires Run(states, labels) && k < |states|
    ensures var s := states[k];
            && |s.events| == |Questioned(s.answers)|
            && forall i :: 0 <= i < |s.events| ==> Describes(s.events[i], Questioned(s.answers)[i])
  {
    PipelineAlways(states, labels, k);
    RecordedDescribes(states[k].answers);
  }

  // The cache as a run of its own

  /** What a step does with the cache: a query that matches nothing locally looks its key up, an error-free upstream
      response is put under the key of its query. */
  function CacheStep(s: State, l: Label): seq<CacheExpiry.TimedOp> {
    match l
    case Arrive(q, now) =>
      if q.questions == [] || Local(s, q) then [] else [CacheExpiry.Fetch(KeyOf(q).value, now)]
    case UpstreamOk(i, response, _, cost, now, refusals) =>
      if i < |s.pending| && s.pending[i].Some? && KeyOf(s.pending[i].value).Some? && response.rcode.NoError?
      then [CacheExpiry.Store(KeyOf(s.pending[i].value).value, response, cost, now, refusals)] else []
    case RefreshOk(i, response, cost, now, refusals) =>
      if i < |s.refreshes| && s.refreshes[i].Some? && KeyOf(s.refreshes[i].value.query).Some? && response.rcode.NoError?
      then [CacheExpiry.Store(KeyOf(s.refreshes[i].value.query).value, response, cost, now, refusals)] else []
    case UpstreamErr(_) => []
    case RefreshErr(_) => []
    case SwapRules(_) => []
  }

  function CacheOps(states: seq<State>, labels: seq<Label>, k: nat): seq<CacheExpiry.TimedOp>
    requires |states| == |labels| + 1 && k <= |labels|
  {
    if k == 0 then [] else CacheOps(states, labels, k - 1) + CacheStep(states[k - 1], labels[k - 1])
  }

  lemma CacheAfter(s: State, l: Label)
    requires CacheFromUpstream(s) && Enabled(s, l)
    ensures |CacheStep(s, l)| <= 1
    ensures Next(s, l).cache == if CacheStep(s, l) == [] then s.cache
                                else CacheRuns.Apply(s.cache, CacheExpiry.OpOf(CacheStep(s, l)[0]))
  {
  }

  lemma CacheStepIsStep(s: State, l: Label, os: seq<CacheExpiry.TimedOp>, maxBytes: nat, step: seq<CacheExpiry.TimedOp>)
    requires CacheFromUpstream(s) && Enabled(s, l) && s.cache == CacheExpiry.Reached(maxBytes, os)
    requires step == CacheStep(s, l)
    ensures Next(s, l).cache == CacheExpiry.Reached(maxBytes, os + step)
  {
    CacheAfter(s, l);
    if step == [] {
      assert os + step == os;
    } else {
      assert os + step == os + [step[0]];
      CacheExpiry.ReachedNext(maxBytes, os, step[0]);
    }
  }

  /** At every moment the cache is what these operations make of an empty one. */
  lemma {:induction false} CacheIsRun(states: seq<State>, labels: seq<Label>, k: nat)
    requires Run(states, labels) && k < |states|
    ensures states[k].cache == CacheExpiry.Reached(states[0].cache.maxBytes, CacheOps(states, labels, k))
  {
    if k > 0 {
      CacheIsRun(states, labels, k - 1);
      assert CacheFromUpstream(states[k - 1]) by { PipelineAlways(states, labels, k - 1); }
      assert StepAt(states, labels, k - 1);
      CacheStepIsStep(states[k - 1], labels[k - 1], CacheOps(states, labels, k - 1), states[0].cache.maxBytes,
                      CacheStep(states[k - 1], labels[k - 1]));
    }
  }

  /** A query that matches nothing locally: with its key in the cache it is answered at once with the message of the
      last accepted put under that key, and one refresh of it starts if and only if that message's lifetime has passed
      since; otherwise it goes to the upstream and nothing is answered yet. */
  lemma CacheDecides(states: seq<State>, labels: seq<Label>, k: nat)
    requires Run(states, labels) && k < |labels| && labels[k].Arrive?
    requires labels[k].query.questions != [] && !Local(states[k], labels[k].query)
    ensures var s, s', q, now := states[k], states[k + 1], labels[k].query, labels[k].now;
            var key := KeyOf(q).value;
            var stored := CacheExpiry.LastStore(states[0].cache.maxBytes, CacheOps(states, labels, k), key);
            if Cache.Has(s.cache.entries, key) then
              && stored.Some? && s'.pending == s.pending
              && |s'.answers| == |s.answers| + 1
              && s'.answers[|s.answers|].response == stored.value.message.(id := q.id)
              && s'.refreshes == s.refreshes +
                   if CacheExpiry.Elapsed(stored.value.message.answers, stored.value.now, now)
                   then [Some(Refresh(key, q))] else []
            else s'.pending == s.pending + [Some(q)] && s'.answers == s.answers && s'.refreshes == s.refreshes
  {
    assert StepAt(states, labels, k);
    CacheIsRun(states, labels, k);
    var q := labels[k].query;
    CacheExpiry.HitMeans(states[0].cache.maxBytes, CacheOps(states, labels, k), KeyOf(q).value, q.id, labels[k].now);
  }

  lemma PutIsThere(m: Cache.Model, e: Cache.Entry, refusals: nat)
    requires Cache.Accepts(m, e.key, e.cost, refusals)
    ensures Cache.Lookup(Cache.Put(m, e, refusals).entries, e.key) == Some(e)
  {
    Cache.PutEvictsLeastRecent(m, e, refusals);
  }

  /** An error-free upstream response of a cost the cache takes is in it right after, under the key of its query, for a
      first answer and for a refresh alike; any other response leaves the cache alone. */
  lemma ResponsesAreCached(states: seq<State>, labels: seq<Label>, k: nat)
    requires Run(states, labels) && k < |labels| && (labels[k].UpstreamOk? || labels[k].RefreshOk?)
    ensures var s, s', l := states[k], states[k + 1], labels[k];
            && (l.UpstreamOk? ==> l.i < |s.pending| && s.pending[l.i].Some?)
            && (l.RefreshOk? ==> l.i < |s.refreshes| && s.refreshes[l.i].Some?)
            && var q := if l.UpstreamOk? then s.pending[l.i].value else s.refreshes[l.i].value.query;
            && q.questions != []
            && var key := KeyOf(q).value;
            if !l.response.rcode.NoError? then s'.cache == s.cache
            else Cache.Accepts(s.cache, key, l.cost, l.refusals) ==>
                   && Cache.Lookup(s'.cache.entries, key).Some?
                   && Cache.Lookup(s'.cache.entries, key).value.message == l.response
  {
    assert StepAt(states, labels, k);
    PipelineAlways(states, labels, k);
    var s, l := states[k], labels[k];
    var q := if l.UpstreamOk? then s.pending[l.i].value else s.refreshes[l.i].value.query;
    var e := Cache.MakeEntry(KeyOf(q).value, l.response, l.cost, l.now);
    if Cache.Accepts(s.cache, e.key, l.cost, l.refusals) { PutIsThere(s.cache, e, l.refusals); }
  }
}
