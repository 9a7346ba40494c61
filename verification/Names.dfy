/** Normalised domain names and their label suffixes, shared by src/filter.rs and src/hosts.rs. */
module Names {
  import opened Prelude

  function Lower(c: char): char {
    if 'A' <= c <= 'Z' then (c as int + 32) as char else c
  }

  function LowerAll(s: string): (r: string)
    ensures |r| == |s| && forall i :: 0 <= i < |s| ==> r[i] == Lower(s[i])
  {
    seq(|s|, i requires 0 <= i < |s| => Lower(s[i]))
  }

  function TrimDots(s: string): string {
    if s != [] && s[|s| - 1] == '.' then TrimDots(s[..|s| - 1]) else s
  }

  function Normalize(s: string): string {
    LowerAll(TrimDots(s))
  }

  lemma {:induction false} TrimDotsOfDots(s: string, dots: string)
    requires forall i :: 0 <= i < |dots| ==> dots[i] == '.'
    ensures TrimDots(s + dots) == TrimDots(s)
  {
    if dots == [] {
      assert s + dots == s;
    } else {
      assert (s + dots)[..|s + dots| - 1] == s + dots[..|dots| - 1];
      TrimDotsOfDots(s, dots[..|dots| - 1]);
    }
  }

  lemma {:induction false} TrimKeepsCase(s: string)
    ensures LowerAll(TrimDots(s)) == TrimDots(LowerAll(s))
  {
    if s != [] {
      TrimKeepsCase(s[..|s| - 1]);
      assert LowerAll(s)[..|s| - 1] == LowerAll(s[..|s| - 1]);
    }
  }

  predicate AllDots(s: string) { forall i :: 0 <= i < |s| ==> s[i] == '.' }

  /** n is s with its letters in lower case and exactly its trailing dots gone. */
  predicate IsNormal(s: string, n: string) {
    && |n| <= |s| && AllDots(s[|n|..])
    && (n != [] ==> s[|n| - 1] != '.')
    && forall i :: 0 <= i < |n| ==> n[i] == Lower(s[i])
  }

  lemma {:induction false} TrimDotsShape(s: string)
    ensures var t := TrimDots(s); t <= s && AllDots(s[|t|..]) && (t != [] ==> t[|t| - 1] != '.')
  {
    if s != [] && s[|s| - 1] == '.' {
      var p := s[..|s| - 1];
      TrimDotsShape(p);
      var n := |TrimDots(p)|;
      forall i | 0 <= i < |s[n..]| ensures s[n..][i] == '.' {
        if i < |p| - n { assert s[n..][i] == p[n..][i]; }
      }
    }
  }

  lemma NormalizeMeans(s: string)
    ensures IsNormal(s, Normalize(s))
  {
    TrimDotsShape(s);
  }

  /** Lower case is that of the twenty-six letters, and nothing else changes. */
  lemma LowerMeans(c: char)
    ensures Lower(c) == if 'A' <= c <= 'Z' then "abcdefghijklmnopqrstuvwxyz"[c as int - 'A' as int] else c
  {
  }

  /** The two names agree up to letter case and trailing dots. */
  predicate SameName(x: string, y: string) {
    exists n :: 0 <= n <= |x| && n <= |y| && AgreeUpTo(x, y, n)
  }

  predicate AgreeUpTo(x: string, y: string, n: nat)
    requires n <= |x| && n <= |y|
  {
    && (forall i :: 0 <= i < n ==> Lower(x[i]) == Lower(y[i]))
    && AllDots(x[n..]) && AllDots(y[n..])
  }

  lemma SameNormal(x: string, y: string)
    requires Normalize(x) == Normalize(y)
    ensures SameName(x, y)
  {
    NormalizeMeans(x);
    NormalizeMeans(y);
    var n := Normalize(x);
    assert forall i :: 0 <= i < |n| ==> Lower(x[i]) == n[i] == Lower(y[i]);
    assert AgreeUpTo(x, y, |n|);
  }

  lemma DotsVanish(core: string, dots: string)
    requires AllDots(dots)
    ensures Normalize(core + dots) == Normalize(core)
  {
    TrimDotsOfDots(core, dots);
  }

  lemma AgreeingNormal(x: string, y: string, n: nat)
    requires n <= |x| && n <= |y| && AgreeUpTo(x, y, n)
    ensures Normalize(x) == Normalize(y)
  {
    var cx, cy := x[..n], y[..n];
    assert x == cx + x[n..] && y == cy + y[n..];
    DotsVanish(cx, x[n..]);
    DotsVanish(cy, y[n..]);
    assert LowerAll(cx) == LowerAll(cy);
    TrimKeepsCase(cx);
    TrimKeepsCase(cy);
  }

  /** Names normalise to the same text if and only if they agree up to letter case and trailing dots. */
  lemma NormalizeIff(x: string, y: string)
    ensures Normalize(x) == Normalize(y) <==> SameName(x, y)
  {
    if Normalize(x) == Normalize(y) { SameNormal(x, y); }
    if SameName(x, y) {
      var n :| 0 <= n <= |x| && n <= |y| && AgreeUpTo(x, y, n);
      AgreeingNormal(x, y, n);
    }
  }

  /** Names that differ in letter case and trailing dots only are the same name. */
  lemma NormalizeIgnoresCaseAndDots(x: string, y: string, dots: string)
    requires LowerAll(x) == LowerAll(y) && forall i :: 0 <= i < |dots| ==> dots[i] == '.'
    ensures Normalize(x + dots) == Normalize(y)
  {
    TrimDotsOfDots(x, dots);
    TrimKeepsCase(x);
    TrimKeepsCase(y);
  }

  /** Position i starts a label. */
  predicate Boundary(n: string, i: int) {
    0 <= i <= |n| && (i == 0 || n[i - 1] == '.')
  }

  /** Some label suffix of n is in the set. */
  predicate SuffixIn(n: string, s: set<string>) {
    exists i :: 0 <= i <= |n| && Boundary(n, i) && n[i..] in s
  }

  /** d is the position of the first dot of s, if it has one. */
  ghost predicate FirstDot(s: string, d: Option<nat>) {
    match d
    case Some(k) => k < |s| && s[k] == '.' && forall i :: 0 <= i < k ==> s[i] != '.'
    case None => forall i :: 0 <= i < |s| ==> s[i] != '.'
  }

  method FindDot(s: string) returns (d: Option<nat>)
    ensures FirstDot(s, d)
  {
    for i := 0 to |s|
      invariant forall j :: 0 <= j < i ==> s[j] != '.'
    {
      if s[i] == '.' { return Some(i); }
    }
    return None;
  }

  /** No label starts strictly between the two positions. */
  ghost predicate NoLabelBetween(n: string, pos: int, at: int) {
    forall i :: pos < i < at ==> !Boundary(n, i)
  }

  /** From one label start, the dot found next is right before the next label start. */
  lemma NextLabel(n: string, pos: int, d: Option<nat>)
    requires Boundary(n, pos) && FirstDot(n[pos..], d)
    ensures d.Some? ==> Boundary(n, pos + d.value + 1) && NoLabelBetween(n, pos, pos + d.value + 1)
    ensures d.Some? ==> n[pos..][d.value + 1..] == n[pos + d.value + 1..]
    ensures d.None? ==> NoLabelBetween(n, pos, |n| + 1)
  {
    var c := n[pos..];
    assert forall k :: 0 <= k < |c| ==> c[k] == n[pos + k];
    forall i | pos < i <= |n| && (d.Some? ==> i <= pos + d.value) ensures !Boundary(n, i) {
      assert n[i - 1] == c[i - 1 - pos];
    }
  }

  /** No label suffix starting before pos is in the set. */
  ghost predicate NoneBefore(n: string, s: set<string>, pos: int) {
    forall i :: 0 <= i < pos && Boundary(n, i) ==> n[i..] !in s
  }

  lemma NoneBeforeNext(n: string, s: set<string>, pos: int, at: int)
    requires NoneBefore(n, s, pos) && 0 <= pos < at && pos <= |n| && n[pos..] !in s && NoLabelBetween(n, pos, at)
    ensures NoneBefore(n, s, at)
  {
    forall i | 0 <= i < at && Boundary(n, i) ensures n[i..] !in s {
      if i < pos { assert n[i..] !in s; } else { assert i == pos; }
    }
  }

  /** The suffix walk: strip the leftmost label until a suffix is in the set or no dot is left. */
  method AnySuffixIn(n: string, s: set<string>) returns (hit: bool)
    ensures hit <==> SuffixIn(n, s)
  {
    var candidate := n;
    ghost var pos := 0;
    while true
      invariant Boundary(n, pos) && candidate == n[pos..]
      invariant NoneBefore(n, s, pos)
      decreases |candidate|
    {
      if candidate in s { return true; }
      var dot := FindDot(candidate);
      NextLabel(n, pos, dot);
      if dot.None? {
        NoneBeforeNext(n, s, pos, |n| + 1);
        return false;
      }
      NoneBeforeNext(n, s, pos, pos + dot.value + 1);
      pos := pos + dot.value + 1;
      candidate := candidate[dot.value + 1..];
    }
  }
}
