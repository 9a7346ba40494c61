/** Shared vocabulary: options, and sums over sequences. */
module Prelude {

  datatype Option<+T> = None | Some(value: T)

  /** The sum of f over s, by the last element. */
  function Sum<T>(s: seq<T>, f: T -> int): int {
    if s == [] then 0 else Sum(s[..|s| - 1], f) + f(s[|s| - 1])
  }

  lemma SumPush<T>(s: seq<T>, x: T, f: T -> int)
    ensures Sum(s + [x], f) == Sum(s, f) + f(x)
  {
    assert (s + [x])[..|s|] == s;
  }

  lemma SumOne<T>(x: T, f: T -> int)
    ensures Sum([x], f) == f(x)
  {
    assert [x][..0] == [];
  }

  lemma SumNext<T>(s: seq<T>, j: nat, k: nat, f: T -> int)
    requires j <= k < |s|
    ensures Sum(s[j..k + 1], f) == Sum(s[j..k], f) + f(s[k])
  {
    assert s[j..k + 1] == s[j..k] + [s[k]];
    SumPush(s[j..k], s[k], f);
  }

  lemma {:induction false} SumConcat<T>(a: seq<T>, b: seq<T>, f: T -> int)
    ensures Sum(a + b, f) == Sum(a, f) + Sum(b, f)
  {
    if b == [] {
      assert a + b == a;
    } else {
      var n := |b| - 1;
      assert (a + b)[..|a| + n] == a + b[..n];
      SumConcat(a, b[..n], f);
    }
  }

  lemma SumSet<T>(s: seq<T>, i: nat, x: T, f: T -> int)
    requires i < |s|
    ensures Sum(s[i := x], f) == Sum(s, f) - f(s[i]) + f(x)
  {
    var a, b := s[..i], s[i + 1..];
    assert s == a + [s[i]] + b && s[i := x] == a + [x] + b;
    SumConcat(a + [s[i]], b, f);
    SumConcat(a + [x], b, f);
    SumPush(a, s[i], f);
    SumPush(a, x, f);
  }

  /** A non-negative summand bounds the whole sum from below by any one element. */
  lemma {:induction false} SumNonNegative<T>(s: seq<T>, f: T -> int)
    requires forall i :: 0 <= i < |s| ==> f(s[i]) >= 0
    ensures Sum(s, f) >= 0
    ensures forall i :: 0 <= i < |s| ==> f(s[i]) <= Sum(s, f)
  {
    if s != [] {
      var r := s[..|s| - 1];
      assert forall i :: 0 <= i < |r| ==> r[i] == s[i];
      SumNonNegative(r, f);
    }
  }

  lemma NoElements<T(!new)>(s: set<T>)
    requires forall x :: x !in s
    ensures |s| == 0
  {
    assert s == {};
  }

  lemma SomeElement<T(!new)>(s: set<T>) returns (x: T)
    requires |s| > 0
    ensures x in s
  {
    if forall y :: y !in s { NoElements(s); }
    x :| x in s;
  }

  lemma {:induction false} SmallestKey(keys: set<int>) returns (k: int)
    requires |keys| > 0
    ensures k in keys && forall j :: j in keys ==> k <= j
    decreases |keys|
  {
    var x := SomeElement(keys);
    var rest := keys - {x};
    if |rest| == 0 {
      assert keys == {x};
      k := x;
    } else {
      var m := SmallestKey(rest);
      k := if x < m then x else m;
      assert keys == rest + {x};
    }
  }

  ghost predicate Distinct<T>(s: seq<T>) {
    forall i, j :: 0 <= i < j < |s| ==> s[i] != s[j]
  }
}
