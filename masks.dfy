/**
 * Boolean node masks and numpy's boolean indexing `xs[mask]`: the rows whose
 * mask entry is true, in their original order.
 */
module Masks {

  function CountTrue(mask: seq<bool>): (c: nat)
    ensures c <= |mask|
    decreases |mask|
  {
    if |mask| == 0 then 0 else (if mask[0] then 1 else 0) + CountTrue(mask[1..])
  }

  /** np.ones(n, dtype=bool). */
  function AllTrue(n: nat): (m: seq<bool>)
    ensures |m| == n && forall i :: 0 <= i < n ==> m[i]
  {
    seq(n, _ => true)
  }

  /** Elementwise `a & b`. */
  function And(a: seq<bool>, b: seq<bool>): (m: seq<bool>)
    requires |a| == |b|
  {
    seq(|a|, i requires 0 <= i < |a| => a[i] && b[i])
  }

  /** xs[mask]. */
  function Filter<T>(xs: seq<T>, mask: seq<bool>): (r: seq<T>)
    requires |xs| == |mask|
    ensures |r| == CountTrue(mask)
    decreases |xs|
  {
    if |xs| == 0 then [] else (if mask[0] then [xs[0]] else []) + Filter(xs[1..], mask[1..])
  }

  /** The positions j >= i with mask[j] true, ascending. */
  function PositionsFrom(mask: seq<bool>, i: nat): (r: seq<nat>)
    requires i <= |mask|
    ensures |r| == CountTrue(mask[i..])
    ensures forall k :: 0 <= k < |r| ==> i <= r[k] < |mask|
    decreases |mask| - i
  {
    if i == |mask| then []
    else
      assert mask[i..][1..] == mask[i + 1..];
      (if mask[i] then [i] else []) + PositionsFrom(mask, i + 1)
  }

  /** The positions from i are true positions at or after i, ascending, and all of them. */
  lemma {:induction false} PositionsFromFacts(mask: seq<bool>, i: nat)
    requires i <= |mask|
    ensures forall k :: 0 <= k < |PositionsFrom(mask, i)| ==> mask[PositionsFrom(mask, i)[k]]
    ensures forall k, l :: 0 <= k < l < |PositionsFrom(mask, i)| ==> PositionsFrom(mask, i)[k] < PositionsFrom(mask, i)[l]
    ensures forall j :: i <= j < |mask| && mask[j] ==> j in PositionsFrom(mask, i)
    decreases |mask| - i
  {
    if i < |mask| {
      PositionsFromFacts(mask, i + 1);
      PositionsStep(mask, i);
    }
  }

  /** The positions of the true entries of mask, ascending: np.flatnonzero(mask). */
  function TruePositions(mask: seq<bool>): (r: seq<nat>)
    ensures |r| == CountTrue(mask)
    ensures forall k :: 0 <= k < |r| ==> r[k] < |mask| && mask[r[k]]
    ensures forall k, l :: 0 <= k < l < |r| ==> r[k] < r[l]
    ensures forall i :: 0 <= i < |mask| && mask[i] ==> i in r
  {
    assert mask[0..] == mask;
    var r := PositionsFrom(mask, 0);
    PositionsFromFacts(mask, 0);
    r
  }

  /** One step of xs[i..][mask[i..]]. */
  lemma FilterStep<T>(xs: seq<T>, mask: seq<bool>, i: nat)
    requires |xs| == |mask| && i < |xs|
    ensures Filter(xs[i..], mask[i..]) == (if mask[i] then [xs[i]] else []) + Filter(xs[i + 1..], mask[i + 1..])
  {
    assert xs[i..][1..] == xs[i + 1..];
    assert mask[i..][1..] == mask[i + 1..];
  }

  /** One step of the true positions from i. */
  lemma PositionsStep(mask: seq<bool>, i: nat)
    requires i < |mask|
    ensures PositionsFrom(mask, i) == (if mask[i] then [i] else []) + PositionsFrom(mask, i + 1)
  {
  }

  lemma {:induction false} FilterFrom<T>(xs: seq<T>, mask: seq<bool>, i: nat, k: nat)
    requires |xs| == |mask| && i <= |xs| && k < CountTrue(mask[i..])
    ensures Filter(xs[i..], mask[i..])[k] == xs[PositionsFrom(mask, i)[k]]
    decreases |xs| - i
  {
    FilterStep(xs, mask, i);
    PositionsStep(mask, i);
    var f := Filter(xs[i + 1..], mask[i + 1..]);
    var p := PositionsFrom(mask, i + 1);
    if !mask[i] {
      FilterFrom(xs, mask, i + 1, k);
    } else if k > 0 {
      FilterFrom(xs, mask, i + 1, k - 1);
      assert ([xs[i]] + f)[k] == f[k - 1];
      assert ([i] + p)[k] == p[k - 1];
    }
  }

  /**
   * The k-th surviving row is the row at the k-th true position: mapping a
   * filtered index back through the true positions recovers the original row.
   */
  lemma FilterAt<T>(xs: seq<T>, mask: seq<bool>, k: nat)
    requires |xs| == |mask| && k < CountTrue(mask)
    ensures Filter(xs, mask)[k] == xs[TruePositions(mask)[k]]
  {
    assert xs[0..] == xs && mask[0..] == mask;
    FilterFrom(xs, mask, 0, k);
  }

  /** Every element of xs whose mask entry is true survives the filter. */
  lemma FilterKeeps<T>(xs: seq<T>, mask: seq<bool>, i: nat)
    requires |xs| == |mask| && i < |xs| && mask[i]
    ensures xs[i] in Filter(xs, mask)
  {
    var pos := TruePositions(mask);
    var k :| 0 <= k < |pos| && pos[k] == i;
    FilterAt(xs, mask, k);
  }

  /** A mask with no false entry keeps everything. */
  lemma {:induction false} FilterAllTrue<T>(xs: seq<T>, mask: seq<bool>)
    requires |xs| == |mask| && forall i :: 0 <= i < |mask| ==> mask[i]
    ensures Filter(xs, mask) == xs
    decreases |xs|
  {
    if |xs| > 0 {
      FilterAllTrue(xs[1..], mask[1..]);
      assert xs == [xs[0]] + xs[1..];
    }
  }

  /** Nothing survives exactly when every mask entry is false. */
  lemma {:induction false} CountTrueZero(mask: seq<bool>)
    ensures CountTrue(mask) == 0 <==> forall i :: 0 <= i < |mask| ==> !mask[i]
    decreases |mask|
  {
    if |mask| > 0 {
      CountTrueZero(mask[1..]);
      assert forall i :: 1 <= i < |mask| ==> mask[i] == mask[1..][i - 1];
    }
  }

  /** A mask that implies another pointwise keeps no more entries. */
  lemma {:induction false} CountTrueMonotone(a: seq<bool>, b: seq<bool>)
    requires |a| == |b| && forall i :: 0 <= i < |a| && a[i] ==> b[i]
    ensures CountTrue(a) <= CountTrue(b)
    decreases |a|
  {
    if |a| > 0 {
      assert forall i :: 0 <= i < |a| - 1 && a[1..][i] ==> b[1..][i] by {
        forall i | 0 <= i < |a| - 1 && a[1..][i] ensures b[1..][i] { assert a[i + 1]; }
      }
      CountTrueMonotone(a[1..], b[1..]);
    }
  }

  /** Filtering only drops rows: every surviving row is a row of the input. */
  lemma {:induction false} FilterSubset<T>(xs: seq<T>, mask: seq<bool>)
    requires |xs| == |mask|
    ensures forall x | x in Filter(xs, mask) :: x in xs
    decreases |xs|
  {
    if |xs| > 0 {
      FilterSubset(xs[1..], mask[1..]);
      assert forall x | x in xs[1..] :: x in xs;
    }
  }
}
