/** Query orchestration with background refreshes: src/pipeline.rs.

    Queries interleave at the upstream await. Upstream responses are an oracle constrained by the id check
    every leaf resolver makes. */
module Pipeline {
  import opened Prelude
  import opened Dns
  import Cache
  import Filter
  import Hosts
  import Names

  const LOCAL_TTL: nat := 300
  const QTYPE_A: nat := 1
  const QTYPE_AAAA: nat := 28

  function KeyOf(q: Message): Option<Cache.Key> {
    if q.questions == [] then None
    else Some(Cache.Key(Names.Normalize(q.questions[0].name), q.questions[0].qtype))
  }

  function Servfail(q: Message): Message {
    Message(q.id, ServFail, q.questions, [])
  }

  /** The records of the right family, in order. */
  function HostRecords(addrs: Hosts.Addresses, qtype: nat): seq<Record> {
    if addrs == [] then []
    else
      var rest, a := HostRecords(addrs[..|addrs| - 1], qtype), addrs[|addrs| - 1];
      if qtype == QTYPE_A && a.V4? then rest + [Record(LOCAL_TTL, A(a.bits))]
      else if qtype == QTYPE_AAAA && a.V6? then rest + [Record(LOCAL_TTL, AAAA(a.bits))]
      else rest
  }

  function HostsLookup(hosts: Hosts.HostsMap, q: Message): Option<Message> {
    if q.questions == [] then None
    else
      var addrs := Hosts.Matched(hosts, Names.Normalize(q.questions[0].name));
      if addrs.None? then None
      else Some(Message(q.id, NoError, [q.questions[0]], HostRecords(addrs.value, q.questions[0].qtype)))
  }

  function BlockResponse(q: Message): Message
    requires q.questions != []
  {
    var qtype := q.questions[0].qtype;
    Message(q.id, NoError, [q.questions[0]],
            if qtype == QTYPE_A then [Record(LOCAL_TTL, A(0))]
            else if qtype == QTYPE_AAAA then [Record(LOCAL_TTL, AAAA(0))] else [])
  }

  // Block-type responses

  predicate IsAddress(d: RData) { d.A? || d.AAAA? }

  predicate Unspecified(d: RData) { d == A(0) || d == AAAA(0) }

  /** A block-type response: no error, some address record, and every address unspecified. */
  predicate BlockShaped(m: Message) {
    && m.rcode.NoError?
    && (exists i :: 0 <= i < |m.answers| && IsAddress(m.answers[i].data))
    && (forall i :: 0 <= i < |m.answers| && IsAddress(m.answers[i].data) ==> Unspecified(m.answers[i].data))
  }

  method IsBlockedResponse(m: Message) returns (r: bool)
    ensures r <==> BlockShaped(m)
  {
    if !m.rcode.NoError? { return false; }
    var addresses := 0;
    for i := 0 to |m.answers|
      invariant 0 <= addresses
      invariant addresses > 0 <==> exists j :: 0 <= j < i && IsAddress(m.answers[j].data)
      invariant forall j :: 0 <= j < i && IsAddress(m.answers[j].data) ==> Unspecified(m.answers[j].data)
    {
      match m.answers[i].data {
        case A(v) =>
          if v != 0 { return false; }
          addresses := addresses + 1;
        case AAAA(v) =>
          if v != 0 { return false; }
          addresses := addresses + 1;
        case OtherData =>
      }
    }
    return addresses > 0;
  }

  /** A local block response is recognised as one wherever it is seen again. */
  lemma BlockResponseIsBlockShaped(q: Message)
    requires q.questions != []
    ensures BlockShaped(BlockResponse(q)) <==> q.questions[0].qtype == QTYPE_A || q.questions[0].qtype == QTYPE_AAAA
  {
    var m := BlockResponse(q);
    if q.questions[0].qtype == QTYPE_A || q.questions[0].qtype == QTYPE_AAAA {
      assert IsAddress(m.answers[0].data);
    }
  }

  // The pipeline as a transition system

  datatype Answer = Answer(query: Message, response: Message, blocked: bool, cacheHit: bool, upstream: Option<string>)

  datatype Event =
    Event(domain: string, qtype: nat, rcode: Rcode, blocked: bool, cacheHit: bool, upstream: Option<string>)

  datatype Refresh = Refresh(key: Cache.Key, query: Message)

  /** An upstream response and the query it was for. */
  datatype Exchange = Exchange(query: Message, response: Message)

  datatype State = State(
    hosts: Hosts.HostsMap,
    rules: Filter.RuleSet,
    allowlist: set<string>,
    cache: Cache.Model,
    pending: seq<Option<Message>>,
    refreshes: seq<Option<Refresh>>,
    arrived: nat,
    answers: seq<Answer>,
    events: seq<Event>,
    exchanges: seq<Exchange>)

  datatype Label =
    | Arrive(query: Message, now: nat)
    | UpstreamOk(i: nat, response: Message, name: Option<string>, cost: nat, now: nat, refusals: nat)
    | UpstreamErr(i: nat)                       // failure or overall timeout
    | RefreshOk(i: nat, response: Message, cost: nat, now: nat, refusals: nat)
    | RefreshErr(i: nat)
    | SwapRules(rules: Filter.RuleSet)          // the updater stores a new rule set

  predicate Enabled(s: State, l: Label) {
    match l
    case Arrive(_, _) => true
    case UpstreamOk(i, response, _, _, _, _) =>
      i < |s.pending| && s.pending[i].Some? && response.id == s.pending[i].value.id
    case UpstreamErr(i) => i < |s.pending| && s.pending[i].Some?
    case RefreshOk(i, response, _, _, _) =>
      i < |s.refreshes| && s.refreshes[i].Some? && response.id == s.refreshes[i].value.query.id
    case RefreshErr(i) => i < |s.refreshes| && s.refreshes[i].Some?
    case SwapRules(_) => true
  }

  /** record_query: nothing for a query without a question, else exactly one event. */
  function EventOf(a: Answer): seq<Event> {
    if a.query.questions == [] then []
    else [Event(Names.Normalize(a.query.questions[0].name), a.query.questions[0].qtype, a.response.rcode,
                a.blocked, a.cacheHit, a.upstream)]
  }

  function Reply(s: State, a: Answer): State {
    s.(answers := s.answers + [a], events := s.events + EventOf(a))
  }

  predicate Local(s: State, q: Message) {
    q.questions != [] &&
    (HostsLookup(s.hosts, q).Some? || Filter.Blocked(s.rules, s.allowlist, q.questions[0].name))
  }

  /** The first part of handle: hosts, then filter, then cache, else on to the upstream. */
  function Handle(s: State, q: Message, now: nat): State {
    if q.questions == [] then Reply(s, Answer(q, Servfail(q), false, false, None))
    else if HostsLookup(s.hosts, q).Some? then Reply(s, Answer(q, HostsLookup(s.hosts, q).value, false, false, None))
    else if Filter.Blocked(s.rules, s.allowlist, q.questions[0].name) then
      Reply(s, Answer(q, BlockResponse(q), true, false, None))
    else
      var key := KeyOf(q).value;
      var hit := Cache.Get(s.cache, key, q.id, now);
      if hit.None? then s.(pending := s.pending + [Some(q)])
      else
        var (cached, expired) := hit.value;
        var s' := s.(cache := Cache.Touch(s.cache, key),
                     refreshes := s.refreshes + if expired then [Some(Refresh(key, q))] else []);
        Reply(s', Answer(q, cached, BlockShaped(cached), true, None))
  }

  function PutResponse(s: State, key: Cache.Key, response: Message, cost: nat, now: nat, refusals: nat): State {
    if response.rcode.NoError?
    then s.(cache := Cache.Put(s.cache, Cache.MakeEntry(key, response, cost, now), refusals)) else s
  }

  function Next(s: State, l: Label): State
    requires Enabled(s, l)
  {
    match l
    case Arrive(q, now) => Handle(s.(arrived := s.arrived + 1), q, now)
    case UpstreamOk(i, response, name, cost, now, refusals) =>
      var q := s.pending[i].value;
      var s' := s.(pending := s.pending[i := None], exchanges := s.exchanges + [Exchange(q, response)]);
      var s'' := if KeyOf(q).Some? then PutResponse(s', KeyOf(q).value, response, cost, now, refusals) else s';
      Reply(s'', Answer(q, response, BlockShaped(response), false, name))
    case UpstreamErr(i) =>
      var q := s.pending[i].value;
      Reply(s.(pending := s.pending[i := None]), Answer(q, Servfail(q), BlockShaped(Servfail(q)), false, None))
    case RefreshOk(i, response, cost, now, refusals) =>
      var r := s.refreshes[i].value;
      PutResponse(s.(refreshes := s.refreshes[i := None], exchanges := s.exchanges + [Exchange(r.query, response)]),
                  r.key, response, cost, now, refusals)
    case RefreshErr(i) => s.(refreshes := s.refreshes[i := None])
    case SwapRules(rules) => s.(rules := rules)
  }

  ghost predicate Run(states: seq<State>, labels: seq<Label>) {
    && |states| == |labels| + 1
    && Started(states[0])
    && forall k :: 0 <= k < |labels| ==> StepAt(states, labels, k)
  }

  ghost predicate StepAt(states: seq<State>, labels: seq<Label>, k: nat)
    requires k < |labels| && |states| == |labels| + 1
  {
    Enabled(states[k], labels[k]) && states[k + 1] == Next(states[k], labels[k])
  }

  predicate Started(s: State) {
    && s.cache.entries == [] && s.cache.usedBytes == 0
    && s.pending == [] && s.refreshes == [] && s.arrived == 0
    && s.answers == [] && s.events == [] && s.exchanges == []
  }

  // What every run keeps

  /** The message was an upstream's error-free response to some query with this key. */
  ghost predicate FromUpstream(exchanges: seq<Exchange>, key: Cache.Key, m: Message) {
    m.rcode.NoError? &&
    exists k :: 0 <= k < |exchanges| && exchanges[k].response == m && KeyOf(exchanges[k].query) == Some(key)
  }

  ghost predicate CacheFromUpstream(s: State) {
    && (forall e :: e in s.cache.entries ==> FromUpstream(s.exchanges, e.key, e.message))
    && (forall i :: 0 <= i < |s.refreshes| && s.refreshes[i].Some? ==>
          KeyOf(s.refreshes[i].value.query) == Some(s.refreshes[i].value.key))
    && (forall i :: 0 <= i < |s.pending| && s.pending[i].Some? ==> s.pending[i].value.questions != [])
    && Cache.DistinctKeys(s.cache.entries)
  }

  /** A cached answer is a genuine upstream answer to the same question, under the asker's id. */
  ghost predicate HitIsGenuine(exchanges: seq<Exchange>, a: Answer) {
    a.cacheHit ==> KeyOf(a.query).Some? && exists m :: FromUpstream(exchanges, KeyOf(a.query).value, m)
                                                       && a.response == m.(id := a.query.id)
  }

  ghost predicate AnswersGood(s: State) {
    forall i :: 0 <= i < |s.answers| ==>
      s.answers[i].response.id == s.answers[i].query.id && HitIsGenuine(s.exchanges, s.answers[i])
  }

  function Recorded(answers: seq<Answer>): seq<Event> {
    if answers == [] then [] else Recorded(answers[..|answers| - 1]) + EventOf(answers[|answers| - 1])
  }

  function Waits(p: Option<Message>): int { if p.Some? then 1 else 0 }

  /** The recorder saw one event per answered question, and every arrival is answered or waiting. */
  ghost predicate Accounted(s: State) {
    s.events == Recorded(s.answers) && s.arrived == |s.answers| + Sum(s.pending, Waits)
  }

  lemma RecordedPush(answers: seq<Answer>, a: Answer)
    ensures Recorded(answers + [a]) == Recorded(answers) + EventOf(a)
  {
    assert (answers + [a])[..|answers|] == answers;
  }

  /** A step gives at most one answer, and records it if and only if it gives one. */
  lemma StepReplies(s: State, l: Label)
    requires Enabled(s, l)
    ensures var s' := Next(s, l);
            || (s'.answers == s.answers && s'.events == s.events)
            || (|s'.answers| == |s.answers| + 1
                && s'.answers == s.answers + [s'.answers[|s.answers|]]
                && s'.events == s.events + EventOf(s'.answers[|s.answers|]))
  {
  }

  lemma StepAnswersArrivals(s: State, l: Label)
    requires Enabled(s, l)
    ensures var s' := Next(s, l);
            s'.arrived - |s'.answers| - Sum(s'.pending, Waits) == s.arrived - |s.answers| - Sum(s.pending, Waits)
  {
    match l
    case Arrive(q, _) => SumPush(s.pending, Some(q), Waits);
    case UpstreamOk(i, _, _, _, _, _) => SumSet(s.pending, i, None, Waits);
    case UpstreamErr(i) => SumSet(s.pending, i, None, Waits);
    case RefreshOk(_, _, _, _, _) =>
    case RefreshErr(_) =>
    case SwapRules(_) =>
  }

  lemma AccountedKept(s: State, l: Label)
    requires Accounted(s) && Enabled(s, l)
    ensures Accounted(Next(s, l))
  {
    StepReplies(s, l);
    StepAnswersArrivals(s, l);
    var s' := Next(s, l);
    if |s'.answers| > |s.answers| { RecordedPush(s.answers, s'.answers[|s.answers|]); }
  }

  lemma FromUpstreamGrows(a: seq<Exchange>, b: seq<Exchange>, key: Cache.Key, m: Message)
    requires FromUpstream(a, key, m)
    ensures FromUpstream(a + b, key, m)
  {
    var k :| 0 <= k < |a| && a[k].response == m && KeyOf(a[k].query) == Some(key);
    assert (a + b)[k] == a[k];
  }

  lemma PutKeepsUpstream(c: Cache.Model, e: Cache.Entry, refusals: nat, exchanges: seq<Exchange>)
    requires Cache.DistinctKeys(c.entries) && FromUpstream(exchanges, e.key, e.message)
    requires forall x :: x in c.entries ==> FromUpstream(exchanges, x.key, x.message)
    ensures Cache.DistinctKeys(Cache.Put(c, e, refusals).entries)
    ensures forall x :: x in Cache.Put(c, e, refusals).entries ==> FromUpstream(exchanges, x.key, x.message)
  {
    Cache.PutMembers(c, e, refusals);
  }

  lemma TouchKeepsUpstream(c: Cache.Model, key: Cache.Key, exchanges: seq<Exchange>)
    requires Cache.DistinctKeys(c.entries)
    requires forall x :: x in c.entries ==> FromUpstream(exchanges, x.key, x.message)
    ensures Cache.DistinctKeys(Cache.Touch(c, key).entries)
    ensures forall x :: x in Cache.Touch(c, key).entries ==> FromUpstream(exchanges, x.key, x.message)
  {
    Cache.WithoutKeeps(c.entries, key);
  }

  lemma PutResponseKept(s: State, key: Cache.Key, q: Message, response: Message, cost: nat, now: nat, refusals: nat)
    requires CacheFromUpstream(s) && KeyOf(q) == Some(key)
    ensures var s' := s.(exchanges := s.exchanges + [Exchange(q, response)]);
            CacheFromUpstream(PutResponse(s', key, response, cost, now, refusals))
  {
    var x := s.exchanges + [Exchange(q, response)];
    forall e | e in s.cache.entries ensures FromUpstream(x, e.key, e.message) {
      FromUpstreamGrows(s.exchanges, [Exchange(q, response)], e.key, e.message);
    }
    if response.rcode.NoError? {
      assert x[|s.exchanges|] == Exchange(q, response);
      assert FromUpstream(x, key, response);
      PutKeepsUpstream(s.cache, Cache.MakeEntry(key, response, cost, now), refusals, x);
    }
  }

  lemma ArriveKeepsCache(s: State, q: Message, now: nat)
    requires CacheFromUpstream(s)
    ensures CacheFromUpstream(Next(s, Arrive(q, now)))
  {
    if q.questions != [] {
      TouchKeepsUpstream(s.cache, KeyOf(q).value, s.exchanges);
      var s' := Next(s, Arrive(q, now));
      assert s'.cache == s.cache || s'.cache == Cache.Touch(s.cache, KeyOf(q).value);
      assert s'.exchanges == s.exchanges;
    }
  }

  lemma CacheKept(s: State, l: Label)
    requires CacheFromUpstream(s) && Enabled(s, l)
    ensures CacheFromUpstream(Next(s, l))
  {
    match l
    case Arrive(q, now) => ArriveKeepsCache(s, q, now);
    case UpstreamOk(i, response, _, cost, now, refusals) =>
      var q := s.pending[i].value;
      PutResponseKept(s.(pending := s.pending[i := None]), KeyOf(q).value, q, response, cost, now, refusals);
    case RefreshOk(i, response, cost, now, refusals) =>
      var r := s.refreshes[i].value;
      PutResponseKept(s.(refreshes := s.refreshes[i := None]), r.key, r.query, response, cost, now, refusals);
    case UpstreamErr(_) =>
    case RefreshErr(_) =>
    case SwapRules(_) =>
  }

  lemma GenuineGrows(a: seq<Exchange>, b: seq<Exchange>, ans: Answer)
    requires HitIsGenuine(a, ans)
    ensures HitIsGenuine(a + b, ans)
  {
    if ans.cacheHit {
      var m :| FromUpstream(a, KeyOf(ans.query).value, m) && ans.response == m.(id := ans.query.id);
      FromUpstreamGrows(a, b, KeyOf(ans.query).value, m);
    }
  }

  /** The answer a step adds, if it adds one. */
  lemma NewAnswerGood(s: State, l: Label)
    requires CacheFromUpstream(s) && Enabled(s, l) && |Next(s, l).answers| > |s.answers|
    ensures var a := Next(s, l).answers[|s.answers|];
            a.response.id == a.query.id && HitIsGenuine(s.exchanges, a)
  {
    if l.Arrive? && l.query.questions != [] {
      var key := KeyOf(l.query).value;
      var hit := Cache.Lookup(s.cache.entries, key);
      if hit.Some? { assert FromUpstream(s.exchanges, key, hit.value.message); }
    }
  }

  /** How a step changes the two logs the answers depend on. */
  lemma LogsGrow(s: State, l: Label)
    requires Enabled(s, l)
    ensures var s' := Next(s, l);
            && |s.answers| <= |s'.answers| <= |s.answers| + 1 && s'.answers[..|s.answers|] == s.answers
            && |s.exchanges| <= |s'.exchanges| && s'.exchanges[..|s.exchanges|] == s.exchanges
  {
  }

  lemma AnswersKept(s: State, l: Label)
    requires CacheFromUpstream(s) && AnswersGood(s) && Enabled(s, l)
    ensures AnswersGood(Next(s, l))
  {
    var s' := Next(s, l);
    LogsGrow(s, l);
    var more := s'.exchanges[|s.exchanges|..];
    assert s'.exchanges == s.exchanges + more;
    forall i | 0 <= i < |s'.answers|
      ensures s'.answers[i].response.id == s'.answers[i].query.id && HitIsGenuine(s'.exchanges, s'.answers[i])
    {
      if i < |s.answers| { assert s'.answers[i] == s.answers[i]; } else { NewAnswerGood(s, l); }
      GenuineGrows(s.exchanges, more, s'.answers[i]);
    }
  }

  ghost predicate Inv(s: State) {
    CacheFromUpstream(s) && AnswersGood(s) && Accounted(s)
  }

  /** Over every interleaving of queries, upstream replies, refreshes and rule updates: each answer carries
      its query's id; every cache entry is an error-free upstream response to a query with that key; a cache
      hit is such a response under the asker's id; the recorder is offered exactly one event per answered
      question, none for refreshes; and every query that arrived is answered once or still waiting. */
  lemma {:induction false} PipelineAlways(states: seq<State>, labels: seq<Label>, k: nat)
    requires Run(states, labels) && k < |states|
    ensures Inv(states[k])
  {
    if k > 0 {
      PipelineAlways(states, labels, k - 1);
      assert StepAt(states, labels, k - 1);
      CacheKept(states[k - 1], labels[k - 1]);
      AnswersKept(states[k - 1], labels[k - 1]);
      AccountedKept(states[k - 1], labels[k - 1]);
    }
  }

  // What is matched locally never leaves

  /** Before moment k this query arrived and matched neither hosts nor filter, as they stood then. */
  ghost predicate AskedBefore(states: seq<State>, labels: seq<Label>, k: nat, q: Message)
    requires |states| == |labels| + 1 && k <= |labels|
  {
    exists j :: 0 <= j < k && ArrivedUnmatched(states[j], labels[j], q)
  }

  predicate ArrivedUnmatched(s: State, l: Label, q: Message) {
    l.Arrive? && l.query == q && !Local(s, q)
  }

  /** Everything that waits for an upstream, or came from one, was asked by such a query. */
  ghost predicate Traced(states: seq<State>, labels: seq<Label>, k: nat)
    requires |states| == |labels| + 1 && k <= |labels|
  {
    var s := states[k];
    && (forall i :: 0 <= i < |s.pending| && s.pending[i].Some? ==> AskedBefore(states, labels, k, s.pending[i].value))
    && (forall i :: 0 <= i < |s.refreshes| && s.refreshes[i].Some? ==>
          AskedBefore(states, labels, k, s.refreshes[i].value.query))
    && (forall i :: 0 <= i < |s.exchanges| ==> AskedBefore(states, labels, k, s.exchanges[i].query))
  }

  /** What a step adds to the three lists comes from them or from an unmatched arrival. */
  lemma StepTraces(s: State, l: Label)
    requires Enabled(s, l)
    ensures var s' := Next(s, l);
            && (forall i :: 0 <= i < |s'.pending| && s'.pending[i].Some? ==>
                  Some(s'.pending[i].value) in s.pending || ArrivedUnmatched(s, l, s'.pending[i].value))
            && (forall i :: 0 <= i < |s'.refreshes| && s'.refreshes[i].Some? ==>
                  s'.refreshes[i] in s.refreshes || ArrivedUnmatched(s, l, s'.refreshes[i].value.query))
            && (forall i :: 0 <= i < |s'.exchanges| ==>
                  || s'.exchanges[i] in s.exchanges
                  || Some(s'.exchanges[i].query) in s.pending
                  || exists r :: r in s.refreshes && r.Some? && r.value.query == s'.exchanges[i].query)
  {
    var s' := Next(s, l);
    match l
    case Arrive(q, now) => ArriveTraces(s, q, now);
    case UpstreamOk(i, response, _, _, _, _) => assert s.pending[i] in s.pending;
    case RefreshOk(i, response, _, _, _) => assert s.refreshes[i] in s.refreshes;
    case UpstreamErr(_) =>
    case RefreshErr(_) =>
    case SwapRules(_) =>
  }

  lemma ArriveTraces(s: State, q: Message, now: nat)
    ensures var s', l := Next(s, Arrive(q, now)), Arrive(q, now);
            && s'.exchanges == s.exchanges
            && (forall i :: 0 <= i < |s'.pending| && s'.pending[i].Some? ==>
                  s'.pending[i] in s.pending || ArrivedUnmatched(s, l, s'.pending[i].value))
            && (forall i :: 0 <= i < |s'.refreshes| && s'.refreshes[i].Some? ==>
                  s'.refreshes[i] in s.refreshes || ArrivedUnmatched(s, l, s'.refreshes[i].value.query))
  {
  }

  lemma AskedEarlier(states: seq<State>, labels: seq<Label>, k: nat, q: Message)
    requires |states| == |labels| + 1 && k < |labels|
    requires AskedBefore(states, labels, k, q) || ArrivedUnmatched(states[k], labels[k], q)
    ensures AskedBefore(states, labels, k + 1, q)
  {
  }

  lemma {:induction false} TracedAlways(states: seq<State>, labels: seq<Label>, k: nat)
    requires Run(states, labels) && k < |states|
    ensures Traced(states, labels, k)
  {
    if k > 0 {
      TracedAlways(states, labels, k - 1);
      assert StepAt(states, labels, k - 1);
      StepTraces(states[k - 1], labels[k - 1]);
      var s := states[k];
      forall i | 0 <= i < |s.pending| && s.pending[i].Some? ensures AskedBefore(states, labels, k, s.pending[i].value) {
        AskedEarlier(states, labels, k - 1, s.pending[i].value);
      }
      forall i | 0 <= i < |s.refreshes| && s.refreshes[i].Some?
        ensures AskedBefore(states, labels, k, s.refreshes[i].value.query)
      {
        AskedEarlier(states, labels, k - 1, s.refreshes[i].value.query);
      }
      forall i | 0 <= i < |s.exchanges| ensures AskedBefore(states, labels, k, s.exchanges[i].query) {
        AskedEarlier(states, labels, k - 1, s.exchanges[i].query);
      }
    }
  }

  /** A stored message is the response to a query of its key that was asked before and matched nothing. */
  ghost predicate StoredForAsked(states: seq<State>, labels: seq<Label>, k: nat, e: Cache.Entry)
    requires |states| == |labels| + 1 && k <= |labels|
  {
    exists x :: x in states[k].exchanges && x.response == e.message && KeyOf(x.query) == Some(e.key)
                && AskedBefore(states, labels, k, x.query)
  }

  /** One new answer, without error, from neither cache nor upstream, marked blocked unless hosts gave it. */
  ghost predicate AnsweredLocally(s: State, s': State, q: Message) {
    && |s'.answers| == |s.answers| + 1 && s'.answers[..|s.answers|] == s.answers
    && var a := s'.answers[|s.answers|];
    && a.query == q && !a.cacheHit && a.upstream == None && a.response.rcode.NoError? && a.response.id == q.id
    && (a.blocked <==> HostsLookup(s.hosts, q).None?)
  }

  /** A hosts or filter match is answered on the spot and never touches cache or upstream, at any time: over every
      run, rule swaps included, each query sent upstream and each cache entry goes back to an arrival that matched
      neither hosts nor filter when it came. */
  lemma LocalAnswerTouchesNothing(states: seq<State>, labels: seq<Label>, k: nat)
    requires Run(states, labels) && k < |states|
    ensures forall x :: x in states[k].exchanges ==> AskedBefore(states, labels, k, x.query)
    ensures forall e :: e in states[k].cache.entries ==> StoredForAsked(states, labels, k, e)
    ensures k < |labels| && labels[k].Arrive? && Local(states[k], labels[k].query) ==>
              && states[k + 1].cache == states[k].cache && states[k + 1].exchanges == states[k].exchanges
              && states[k + 1].pending == states[k].pending && states[k + 1].refreshes == states[k].refreshes
              && AnsweredLocally(states[k], states[k + 1], labels[k].query)
  {
    TracedAlways(states, labels, k);
    PipelineAlways(states, labels, k);
    var s := states[k];
    forall e | e in s.cache.entries ensures StoredForAsked(states, labels, k, e) {
      assert FromUpstream(s.exchanges, e.key, e.message);
      var i :| 0 <= i < |s.exchanges| && s.exchanges[i].response == e.message
               && KeyOf(s.exchanges[i].query) == Some(e.key);
      assert s.exchanges[i] in s.exchanges;
    }
    if k < |labels| { assert StepAt(states, labels, k); }
  }

  /** The parts the handler shares: the cache object, the recorder, and the queries waiting on an await. */
  class Pipeline {
    const hosts: Hosts.HostsMap
    const allowlist: set<string>
    const cache: Cache.Cache
    var rules: Filter.RuleSet
    var pending: seq<Option<Message>>
    var refreshes: seq<Option<Refresh>>
    var arrived: nat
    var answers: seq<Answer>
    var events: seq<Event>
    var exchanges: seq<Exchange>

    ghost function Value(): State
      reads this, cache
    {
      State(hosts, rules, allowlist, cache.Value(), pending, refreshes, arrived, answers, events, exchanges)
    }

    constructor (hosts: Hosts.HostsMap, allowlist: set<string>, cache: Cache.Cache)
      requires cache.entries == [] && cache.usedBytes == 0
      ensures this.cache == cache && Started(Value())
    {
      this.hosts, this.allowlist, this.cache := hosts, allowlist, cache;
      rules := Filter.RuleSet({}, {});
      pending, refreshes, arrived, answers, events, exchanges := [], [], 0, [], [], [];
    }

    method Respond(a: Answer)
      modifies this`answers, this`events
      ensures Value() == Reply(old(Value()), a)
    {
      answers := answers + [a];
      events := events + EventOf(a);
    }

    /** handle up to its answer or its upstream await. */
    method HandleQuery(q: Message, now: nat)
      requires cache.Ok()
      modifies this, cache
      ensures cache.Ok() && Value() == Next(old(Value()), Arrive(q, now))
    {
      arrived := arrived + 1;
      if q.questions == [] {
        Respond(Answer(q, Servfail(q), false, false, None));
        return;
      }
      var qname := q.questions[0].name;
      var addrs := Hosts.Find(hosts, Names.Normalize(qname));
      if addrs.Some? {
        var r := Message(q.id, NoError, [q.questions[0]], HostRecords(addrs.value, q.questions[0].qtype));
        Respond(Answer(q, r, false, false, None));
        return;
      }
      var blocked := Filter.IsBlocked(rules, allowlist, qname);
      if blocked {
        Respond(Answer(q, BlockResponse(q), true, false, None));
        return;
      }
      Optimistic(q, KeyOf(q).value, now);
    }

    /** The optimistic cache: answer a hit at once, and refresh it in the background if it has expired. */
    method Optimistic(q: Message, key: Cache.Key, now: nat)
      requires cache.Ok() && KeyOf(q) == Some(key)
      requires HostsLookup(hosts, q).None? && !Filter.Blocked(rules, allowlist, q.questions[0].name)
      modifies this, cache
      ensures cache.Ok() && Value() == Handle(old(Value()), q, now)
    {
      var hit := cache.Fetch(key, q.id, now);
      if hit.None? {
        pending := pending + [Some(q)];
        return;
      }
      var (cached, expired) := hit.value;
      if expired { refreshes := refreshes + [Some(Refresh(key, q))]; }
      var shaped := IsBlockedResponse(cached);
      Respond(Answer(q, cached, shaped, true, None));
    }

    /** handle after its upstream await: an error-free response goes into the cache, the response or a failure is
        answered. `reply` is what the upstream gave within the time limit, if anything. */
    method FinishQuery(i: nat, reply: Option<(Message, Option<string>)>, cost: nat, now: nat, refusals: nat)
      requires cache.Ok() && i < |pending| && pending[i].Some?
      requires reply.Some? ==> reply.value.0.id == pending[i].value.id
      modifies this, cache
      ensures cache.Ok()
      ensures Value() == Next(old(Value()), if reply.Some?
                                            then UpstreamOk(i, reply.value.0, reply.value.1, cost, now, refusals)
                                            else UpstreamErr(i))
    {
      var q := pending[i].value;
      pending := pending[i := None];
      var response, upstream := Servfail(q), None;
      if reply.Some? {
        response, upstream := reply.value.0, reply.value.1;
        exchanges := exchanges + [Exchange(q, response)];
        var key := KeyOf(q);
        if response.rcode.NoError? && key.Some? { cache.Store(key.value, response, cost, now, refusals); }
      }
      var shaped := IsBlockedResponse(response);
      Respond(Answer(q, response, shaped, false, upstream));
    }

    /** The background refresh after its await: an error-free response replaces the entry, anything else leaves it. */
    method FinishRefresh(i: nat, reply: Option<Message>, cost: nat, now: nat, refusals: nat)
      requires cache.Ok() && i < |refreshes| && refreshes[i].Some?
      requires reply.Some? ==> reply.value.id == refreshes[i].value.query.id
      modifies this, cache
      ensures cache.Ok()
      ensures Value() == Next(old(Value()), if reply.Some? then RefreshOk(i, reply.value, cost, now, refusals)
                                            else RefreshErr(i))
    {
      var r := refreshes[i].value;
      refreshes := refreshes[i := None];
      if reply.Some? {
        exchanges := exchanges + [Exchange(r.query, reply.value)];
        if reply.value.rcode.NoError? { cache.Store(r.key, reply.value, cost, now, refusals); }
      }
    }
  }
}
