/** Custom hosts: exact names and wildcards in src/hosts.rs. */
module Hosts {
  import opened Prelude
  import opened Names

  datatype Address = V4(bits: nat) | V6(bits: nat)

  type Addresses = seq<Address>

  datatype HostEntry = HostEntry(name: string, addrs: Addresses)

  datatype HostsMap = HostsMap(exact: map<string, Addresses>, wildcard: map<string, Addresses>)

  predicate IsWildcard(name: string) {
    "*." <= name
  }

  /** Later entries replace earlier ones with the same normalised name. */
  function LastExact(entries: seq<HostEntry>, name: string): Option<Addresses> {
    if entries == [] then None
    else
      var e := entries[|entries| - 1];
      var n := Normalize(e.name);
      if !IsWildcard(n) && n == name then Some(e.addrs) else LastExact(entries[..|entries| - 1], name)
  }

  function LastWildcard(entries: seq<HostEntry>, base: string): Option<Addresses> {
    if entries == [] then None
    else
      var e := entries[|entries| - 1];
      var n := Normalize(e.name);
      if IsWildcard(n) && n[2..] == base then Some(e.addrs) else LastWildcard(entries[..|entries| - 1], base)
  }

  function Get(m: map<string, Addresses>, k: string): Option<Addresses> {
    if k in m then Some(m[k]) else None
  }

  method FromEntries(entries: seq<HostEntry>) returns (hosts: HostsMap)
    ensures BuiltFrom(hosts, entries)
  {
    var exact: map<string, Addresses>, wildcard: map<string, Addresses> := map[], map[];
    for i := 0 to |entries|
      invariant forall k :: Get(exact, k) == LastExact(entries[..i], k)
      invariant forall k :: Get(wildcard, k) == LastWildcard(entries[..i], k)
    {
      assert entries[..i + 1][..i] == entries[..i];
      var name := Normalize(entries[i].name);
      if IsWildcard(name) {
        wildcard := wildcard[name[2..] := entries[i].addrs];
      } else {
        exact := exact[name := entries[i].addrs];
      }
    }
    assert entries[..|entries|] == entries;
    hosts := HostsMap(exact, wildcard);
  }

  /** The wildcard of the first label suffix from position i on that has one. */
  function WildcardFrom(wildcard: map<string, Addresses>, n: string, i: nat): Option<Addresses>
    decreases |n| + 1 - i
  {
    if i > |n| then None
    else if Boundary(n, i) && n[i..] in wildcard then Some(wildcard[n[i..]])
    else WildcardFrom(wildcard, n, i + 1)
  }

  /** The exact entry, else the wildcard of the longest proper label suffix. */
  function Matched(hosts: HostsMap, name: string): Option<Addresses> {
    if name in hosts.exact then Some(hosts.exact[name]) else WildcardFrom(hosts.wildcard, name, 1)
  }

  /** v belongs to the longest label suffix of n, starting at i or later, that has a wildcard. */
  ghost predicate LongestWildcard(wildcard: map<string, Addresses>, n: string, from: nat, v: Addresses) {
    exists i :: from <= i && Boundary(n, i) && n[i..] in wildcard && wildcard[n[i..]] == v
                && forall j :: from <= j < i && Boundary(n, j) ==> n[j..] !in wildcard
  }

  /** A match is the longest suffix with a wildcard; no match means no suffix has one. */
  lemma {:induction false} WildcardFromIsLongest(wildcard: map<string, Addresses>, n: string, i: nat)
    ensures var r := WildcardFrom(wildcard, n, i);
            if r.Some? then LongestWildcard(wildcard, n, i, r.value)
            else forall j :: i <= j && Boundary(n, j) ==> n[j..] !in wildcard
    decreases |n| + 1 - i
  {
    if i <= |n| && !(Boundary(n, i) && n[i..] in wildcard) {
      WildcardFromIsLongest(wildcard, n, i + 1);
      var r := WildcardFrom(wildcard, n, i);
      if r.Some? {
        var k :| i + 1 <= k && Boundary(n, k) && n[k..] in wildcard && wildcard[n[k..]] == r.value
                 && forall j :: i + 1 <= j < k && Boundary(n, j) ==> n[j..] !in wildcard;
        forall j | i <= j < k && Boundary(n, j) ensures n[j..] !in wildcard {
          if j > i { assert n[j..] !in wildcard; }
        }
      } else {
        forall j | i <= j && Boundary(n, j) ensures n[j..] !in wildcard {
          if j > i { assert n[j..] !in wildcard; }
        }
      }
    }
  }

  lemma {:induction false} SkipToLabel(wildcard: map<string, Addresses>, n: string, pos: int, at: int)
    requires 0 <= pos < at && NoLabelBetween(n, pos, at)
    ensures WildcardFrom(wildcard, n, pos + 1) == WildcardFrom(wildcard, n, at)
    decreases at - pos
  {
    if pos + 1 < at { SkipToLabel(wildcard, n, pos + 1, at); }
  }

  /** The wildcard loop of `find`: strip the leftmost label level by level. */
  method FindWildcard(wildcard: map<string, Addresses>, name: string) returns (r: Option<Addresses>)
    ensures r == WildcardFrom(wildcard, name, 1)
  {
    var rest := name;
    ghost var pos := 0;
    while true
      invariant Boundary(name, pos) && rest == name[pos..]
      invariant WildcardFrom(wildcard, name, 1) == WildcardFrom(wildcard, name, pos + 1)
      decreases |rest|
    {
      var dot := FindDot(rest);
      NextLabel(name, pos, dot);
      if dot.None? {
        SkipToLabel(wildcard, name, pos, |name| + 1);
        return None;
      }
      SkipToLabel(wildcard, name, pos, pos + dot.value + 1);
      pos := pos + dot.value + 1;
      rest := rest[dot.value + 1..];
      if rest in wildcard { return Some(wildcard[rest]); }
    }
  }

  /** The exact entry if there is one, else what the longest proper-suffix wildcard gives. */
  method Find(hosts: HostsMap, name: string) returns (r: Option<Addresses>)
    ensures r == Matched(hosts, name)
  {
    if name in hosts.exact { return Some(hosts.exact[name]); }
    r := FindWildcard(hosts.wildcard, name);
  }

  /** What `find` returns, read off the maps: the exact entry; else the wildcard of the longest proper
      label suffix; nothing exactly when neither exists. */
  lemma MatchedIsExactOrLongest(hosts: HostsMap, name: string)
    ensures var r := Matched(hosts, name);
            if name in hosts.exact then r == Some(hosts.exact[name])
            else if r.Some? then LongestWildcard(hosts.wildcard, name, 1, r.value)
            else forall i :: 0 < i && Boundary(name, i) ==> name[i..] !in hosts.wildcard
  {
    WildcardFromIsLongest(hosts.wildcard, name, 1);
  }

  /** The maps hold the last entry of each name. */
  ghost predicate BuiltFrom(hosts: HostsMap, entries: seq<HostEntry>) {
    && (forall k :: Get(hosts.exact, k) == LastExact(entries, k))
    && (forall k :: Get(hosts.wildcard, k) == LastWildcard(entries, k))
  }

  /** From the configuration to the answer: a plain entry is found under every spelling of its name. */
  lemma ExactEntryIsFound(entries: seq<HostEntry>, e: HostEntry, hosts: HostsMap, name: string)
    requires BuiltFrom(hosts, entries + [e]) && !("*." <= Normalize(e.name)) && SameName(e.name, name)
    ensures Matched(hosts, Normalize(name)) == Some(e.addrs)
  {
    NormalizeIff(e.name, name);
    assert Get(hosts.exact, Normalize(name)) == LastExact(entries + [e], Normalize(name));
  }

  /** A wildcard entry is found under every name below its base that has no exact entry and no closer wildcard. */
  lemma WildcardEntryIsFound(entries: seq<HostEntry>, e: HostEntry, hosts: HostsMap, name: string, at: nat)
    requires BuiltFrom(hosts, entries + [e]) && "*." <= Normalize(e.name)
    requires 0 < at && Boundary(Normalize(name), at) && Normalize(name)[at..] == Normalize(e.name)[2..]
    requires Normalize(name) !in hosts.exact
    requires forall j :: 0 < j < at && Boundary(Normalize(name), j) ==> Normalize(name)[j..] !in hosts.wildcard
    ensures Matched(hosts, Normalize(name)) == Some(e.addrs)
  {
    var base := Normalize(e.name)[2..];
    assert Get(hosts.wildcard, base) == LastWildcard(entries + [e], base);
    WildcardAt(hosts.wildcard, Normalize(name), 1, at);
  }

  lemma {:induction false} WildcardAt(wildcard: map<string, Addresses>, n: string, from: nat, i: nat)
    requires from <= i && Boundary(n, i) && n[i..] in wildcard
    requires forall j :: from <= j < i && Boundary(n, j) ==> n[j..] !in wildcard
    ensures WildcardFrom(wildcard, n, from) == Some(wildcard[n[i..]])
    decreases i - from
  {
    if from < i { WildcardAt(wildcard, n, from + 1, i); }
  }
}
