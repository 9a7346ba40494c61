/** Weighted choice of an index: src/upstream/selector.rs. */
module Selector {
  import opened Prelude

  /** An f64 weight. NaN and both infinities are skipped alike. */
  datatype Weight = Finite(value: real) | NotFinite

  /** The f64 operations the selector uses; their rounding is left open. */
  datatype Arithmetic = Arithmetic(add: (real, real) -> real, mul: (real, real) -> real)

  predicate Positive(w: Weight) {
    w.Finite? && w.value > 0.0
  }

  /** The running total of the positive weights, rounded by fp at every addition. */
  function Accumulated(ws: seq<Weight>, n: nat, fp: Arithmetic): real
    requires n <= |ws|
  {
    if n == 0 then 0.0
    else if Positive(ws[n - 1]) then fp.add(Accumulated(ws, n - 1, fp), ws[n - 1].value)
    else Accumulated(ws, n - 1, fp)
  }

  /** `as usize`: truncation that saturates at zero. */
  function Truncate(x: real): nat {
    if x < 0.0 then 0 else x.Floor
  }

  /** The first index from i on whose accumulated total exceeds the target. */
  function Scan(ws: seq<Weight>, target: real, fp: Arithmetic, i: nat): (r: Option<nat>)
    requires i <= |ws|
    ensures r.Some? ==> i <= r.value < |ws| && Positive(ws[r.value])
    decreases |ws| - i
  {
    if i == |ws| then None
    else if Positive(ws[i]) && target < Accumulated(ws, i + 1, fp) then Some(i)
    else Scan(ws, target, fp, i + 1)
  }

  function LastPositive(ws: seq<Weight>, n: nat): (r: Option<nat>)
    requires n <= |ws|
    ensures r.Some? ==> r.value < n && Positive(ws[r.value])
    ensures r.None? ==> forall i :: 0 <= i < n ==> !Positive(ws[i])
  {
    if n == 0 then None
    else if Positive(ws[n - 1]) then Some(n - 1)
    else LastPositive(ws, n - 1)
  }

  /** What pick_weighted returns. */
  function Pick(ws: seq<Weight>, roll: real, fp: Arithmetic): Option<nat> {
    if ws == [] then None
    else
      var total := Accumulated(ws, |ws|, fp);
      if total <= 0.0 then
        var idx := Truncate(fp.mul(roll, |ws| as real));
        Some(if idx < |ws| - 1 then idx else |ws| - 1)
      else
        var hit := Scan(ws, fp.mul(roll, total), fp, 0);
        if hit.Some? then hit else LastPositive(ws, |ws|)
  }

  method PickWeighted(ws: seq<Weight>, roll: real, fp: Arithmetic) returns (pick: Option<nat>)
    ensures pick == Pick(ws, roll, fp)
    ensures pick.None? <==> ws == []
    ensures pick.Some? ==> pick.value < |ws|
    ensures Accumulated(ws, |ws|, fp) > 0.0 ==> pick.Some? && Positive(ws[pick.value])
  {
    PickInRange(ws, roll, fp);
    if ws == [] {
      return None;
    }
    var total := 0.0;
    for i := 0 to |ws|
      invariant total == Accumulated(ws, i, fp)
    {
      if Positive(ws[i]) { total := fp.add(total, ws[i].value); }
    }
    if total <= 0.0 {
      var idx := Truncate(fp.mul(roll, |ws| as real));
      return Some(if idx < |ws| - 1 then idx else |ws| - 1);
    }
    var target := fp.mul(roll, total);
    var acc := 0.0;
    for i := 0 to |ws|
      invariant acc == Accumulated(ws, i, fp)
      invariant Scan(ws, target, fp, 0) == Scan(ws, target, fp, i)
    {
      if Positive(ws[i]) {
        acc := fp.add(acc, ws[i].value);
        if target < acc { return Some(i); }
      }
    }
    var last := |ws|;
    while last > 0
      invariant 0 <= last <= |ws|
      invariant LastPositive(ws, |ws|) == LastPositive(ws, last)
    {
      last := last - 1;
      if Positive(ws[last]) { return Some(last); }
    }
    return None;
  }

  /** Whatever the rounding: an index always comes back, and if the computed total
      is positive that index carries a positive weight. */
  lemma PickInRange(ws: seq<Weight>, roll: real, fp: Arithmetic)
    ensures Pick(ws, roll, fp).None? <==> ws == []
    ensures ws != [] ==> Pick(ws, roll, fp).value < |ws|
    ensures ws != [] && Accumulated(ws, |ws|, fp) > 0.0 ==> Positive(ws[Pick(ws, roll, fp).value])
  {
    if forall i :: 0 <= i < |ws| ==> !Positive(ws[i]) {
      NothingAccumulates(ws, |ws|, fp);
    }
  }

  lemma {:induction false} NothingAccumulates(ws: seq<Weight>, n: nat, fp: Arithmetic)
    requires n <= |ws| && forall i :: 0 <= i < n ==> !Positive(ws[i])
    ensures Accumulated(ws, n, fp) == 0.0
  {
    if n > 0 { NothingAccumulates(ws, n - 1, fp); }
  }

  // Exact arithmetic

  ghost predicate Exact(fp: Arithmetic) {
    && (forall a, b :: fp.add(a, b) == a + b)
    && (forall a, b :: fp.mul(a, b) == a * b)
  }

  /** The total of the positive weights before index n, without rounding. */
  function Prefix(ws: seq<Weight>, n: nat): real
    requires n <= |ws|
  {
    if n == 0 then 0.0 else Prefix(ws, n - 1) + (if Positive(ws[n - 1]) then ws[n - 1].value else 0.0)
  }

  lemma {:induction false} AccumulatedIsPrefix(ws: seq<Weight>, n: nat, fp: Arithmetic)
    requires n <= |ws| && Exact(fp)
    ensures Accumulated(ws, n, fp) == Prefix(ws, n)
  {
    if n > 0 { AccumulatedIsPrefix(ws, n - 1, fp); }
  }

  lemma {:induction false} PrefixMonotone(ws: seq<Weight>, i: nat, j: nat)
    requires i <= j <= |ws|
    ensures Prefix(ws, i) <= Prefix(ws, j)
    decreases j
  {
    if i < j { PrefixMonotone(ws, i, j - 1); }
  }

  lemma ScaleBelow(roll: real, total: real, target: real)
    requires 0.0 <= roll < 1.0 && total > 0.0 && target == roll * total
    ensures 0.0 <= target < total
  {
    assert (1.0 - roll) * total > 0.0;
  }

  /** Where the scan stops, when the target lies in cell i. */
  lemma {:induction false} ScanFindsCell(ws: seq<Weight>, target: real, fp: Arithmetic, from: nat, i: nat)
    requires from <= i < |ws| && Exact(fp)
    requires Prefix(ws, i) <= target < Prefix(ws, i + 1)
    ensures Scan(ws, target, fp, from) == Some(i)
    decreases i - from
  {
    AccumulatedIsPrefix(ws, from + 1, fp);
    if from < i {
      PrefixMonotone(ws, from + 1, i);
      ScanFindsCell(ws, target, fp, from + 1, i);
    }
  }

  lemma {:induction false} CellOf(ws: seq<Weight>, target: real, n: nat) returns (i: nat)
    requires n <= |ws| && 0.0 <= target < Prefix(ws, n)
    ensures i < n && Prefix(ws, i) <= target < Prefix(ws, i + 1)
  {
    if target < Prefix(ws, n - 1) { i := CellOf(ws, target, n - 1); } else { i := n - 1; }
  }

  lemma ScanIsPartition(ws: seq<Weight>, target: real, fp: Arithmetic, i: nat)
    requires Exact(fp) && i < |ws| && 0.0 <= target < Prefix(ws, |ws|)
    ensures Scan(ws, target, fp, 0) == Some(i) <==> Prefix(ws, i) <= target < Prefix(ws, i + 1)
  {
    var c := CellOf(ws, target, |ws|);
    ScanFindsCell(ws, target, fp, 0, c);
    if Prefix(ws, i) <= target < Prefix(ws, i + 1) {
      ScanFindsCell(ws, target, fp, 0, i);
    }
  }

  /** When the target is below the total, the answer is the scan's, not the fallback's. */
  lemma PickIsScan(ws: seq<Weight>, roll: real, fp: Arithmetic, target: real)
    requires Exact(fp) && ws != [] && target == fp.mul(roll, Prefix(ws, |ws|))
    requires 0.0 <= target < Prefix(ws, |ws|)
    ensures Pick(ws, roll, fp) == Scan(ws, target, fp, 0)
    ensures Scan(ws, target, fp, 0).Some?
  {
    AccumulatedIsPrefix(ws, |ws|, fp);
    var c := CellOf(ws, target, |ws|);
    ScanFindsCell(ws, target, fp, 0, c);
  }

  /** The choice partitions [0, total): index i is picked exactly when roll * total
      falls between the totals before and after it. The rounding fallback is dead. */
  lemma PickIsPartition(ws: seq<Weight>, roll: real, fp: Arithmetic, i: nat, target: real)
    requires Exact(fp) && 0.0 <= roll < 1.0 && i < |ws| && Prefix(ws, |ws|) > 0.0
    requires target == roll * Prefix(ws, |ws|)
    ensures Pick(ws, roll, fp) == Some(i) <==> Prefix(ws, i) <= target < Prefix(ws, i + 1)
    ensures Scan(ws, target, fp, 0).Some?
  {
    assert 0.0 <= target < Prefix(ws, |ws|) by { ScaleBelow(roll, Prefix(ws, |ws|), target); }
    assert target == fp.mul(roll, Prefix(ws, |ws|));
    PickIsScan(ws, roll, fp, target);
    ScanIsPartition(ws, target, fp, i);
  }

  lemma RatioBelowOne(a: real, b: real)
    requires 0.0 <= a < b
    ensures 0.0 <= a / b < 1.0 && a / b * b == a
  {
    var q := a / b;
    assert q * b == a;
    assert (1.0 - q) * b == b - a;
  }

  /** No positive weight is starved: some roll in [0, 1) picks it. */
  lemma PositiveWeightIsReachable(ws: seq<Weight>, fp: Arithmetic, i: nat) returns (roll: real)
    requires Exact(fp) && i < |ws| && Positive(ws[i])
    ensures 0.0 <= roll < 1.0 && Pick(ws, roll, fp) == Some(i)
  {
    PrefixMonotone(ws, 0, i);
    PrefixMonotone(ws, i + 1, |ws|);
    RatioBelowOne(Prefix(ws, i), Prefix(ws, |ws|));
    roll := Prefix(ws, i) / Prefix(ws, |ws|);
    PickIsPartition(ws, roll, fp, i, Prefix(ws, i));
  }

  // Without positive weights, and under rounding

  /** With no positive weight the choice is uniform: index i is picked exactly when roll * n lies in [i, i + 1). */
  lemma PickIsUniform(ws: seq<Weight>, roll: real, fp: Arithmetic, i: nat, target: real)
    requires Exact(fp) && 0.0 <= roll < 1.0 && i < |ws| && forall j :: 0 <= j < |ws| ==> !Positive(ws[j])
    requires target == roll * |ws| as real
    ensures Pick(ws, roll, fp) == Some(i) <==> i as real <= target < i as real + 1.0
  {
    NothingAccumulates(ws, |ws|, fp);
    ScaleBelow(roll, |ws| as real, target);
    assert fp.mul(roll, |ws| as real) == target;
    TruncateCell(target, i);
  }

  lemma TruncateCell(x: real, i: nat)
    requires x >= 0.0
    ensures Truncate(x) == i <==> i as real <= x < i as real + 1.0
  {
  }

  /** The first index whose running total exceeds the target. */
  ghost predicate FirstBeyond(ws: seq<Weight>, target: real, fp: Arithmetic, from: nat, i: nat) {
    && from <= i < |ws| && Beyond(ws, target, fp, i)
    && forall j :: from <= j < i ==> !Beyond(ws, target, fp, j)
  }

  predicate Beyond(ws: seq<Weight>, target: real, fp: Arithmetic, i: nat)
    requires i < |ws|
  {
    Positive(ws[i]) && target < Accumulated(ws, i + 1, fp)
  }

  lemma {:induction false} ScanIsFirst(ws: seq<Weight>, target: real, fp: Arithmetic, from: nat)
    requires from <= |ws|
    ensures var r := Scan(ws, target, fp, from);
            if r.Some? then FirstBeyond(ws, target, fp, from, r.value)
            else forall j :: from <= j < |ws| ==> !Beyond(ws, target, fp, j)
    decreases |ws| - from
  {
    if from < |ws| && !Beyond(ws, target, fp, from) { ScanIsFirst(ws, target, fp, from + 1); }
  }

  lemma {:induction false} LastPositiveIsLast(ws: seq<Weight>, n: nat)
    requires n <= |ws|
    ensures var r := LastPositive(ws, n);
            r.Some? ==> forall j :: r.value < j < n ==> !Positive(ws[j])
  {
    if n > 0 && !Positive(ws[n - 1]) { LastPositiveIsLast(ws, n - 1); }
  }

  /** Whatever the rounding, with a positive total: the first positive weight whose running total exceeds the rounded
      target, or the last positive weight when none does. */
  lemma PickIsFirstOrLast(ws: seq<Weight>, roll: real, fp: Arithmetic)
    requires ws != [] && Accumulated(ws, |ws|, fp) > 0.0
    ensures var target := fp.mul(roll, Accumulated(ws, |ws|, fp));
            && Pick(ws, roll, fp).Some?
            && var i := Pick(ws, roll, fp).value;
            && i < |ws| && Positive(ws[i])
            && (FirstBeyond(ws, target, fp, 0, i)
                || ((forall j :: 0 <= j < |ws| ==> !Beyond(ws, target, fp, j))
                    && forall j :: i < j < |ws| ==> !Positive(ws[j])))
  {
    PickInRange(ws, roll, fp);
    ScanIsFirst(ws, fp.mul(roll, Accumulated(ws, |ws|, fp)), fp, 0);
    LastPositiveIsLast(ws, |ws|);
  }
}
