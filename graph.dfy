/**
 * Coordinates and edge indices. A [N, D] coordinate array is a Matrix of N
 * rows of width D; a [2, M] edge index is the sequence of its M columns.
 */
module Graph {

  /** One column of an edge index: (source, target). */
  type Edge = (int, int)

  datatype Matrix = Matrix(width: nat, rows: seq<seq<real>>) {
    predicate Valid() {
      forall i :: 0 <= i < |rows| ==> |rows[i]| == width
    }
  }

  function Reverse(e: Edge): Edge { (e.1, e.0) }

  /** Every (i, j) in the index comes with (j, i). */
  predicate Symmetric(edges: seq<Edge>) {
    forall e | e in edges :: Reverse(e) in edges
  }

  predicate NoSelfLoops(edges: seq<Edge>) {
    forall e | e in edges :: e.0 != e.1
  }

  /** Every endpoint indexes one of n nodes. */
  predicate InRange(edges: seq<Edge>, n: nat) {
    forall e | e in edges :: 0 <= e.0 < n && 0 <= e.1 < n
  }

  predicate Distinct<T(==)>(xs: seq<T>) {
    forall i, j :: 0 <= i < j < |xs| ==> xs[i] != xs[j]
  }

  /** The columns with rows swapped: np.stack([col, row]) of np.stack([row, col]). */
  function Reversed(edges: seq<Edge>): (r: seq<Edge>)
    ensures |r| == |edges|
  {
    seq(|edges|, k requires 0 <= k < |edges| => Reverse(edges[k]))
  }

  /**
   * The index `unique + reversed(unique)`: symmetric, and it holds an edge
   * exactly when the edge or its reverse is in unique.
   */
  lemma Mirrored(unique: seq<Edge>)
    ensures Symmetric(unique + Reversed(unique))
    ensures forall e :: e in unique + Reversed(unique) <==> e in unique || Reverse(e) in unique
  {
    var out := unique + Reversed(unique);
    forall e | e in out ensures Reverse(e) in out {
      var k :| 0 <= k < |out| && out[k] == e;
      if k < |unique| {
        assert out[k + |unique|] == Reverse(e);
      } else {
        assert out[k - |unique|] == Reverse(e);
      }
    }
    forall e | Reverse(e) in unique ensures e in out {
      var k :| 0 <= k < |unique| && unique[k] == Reverse(e);
      assert out[k + |unique|] == e;
    }
  }

  /**
   * When every edge of unique is in range, so is the mirrored index; when
   * every edge of a duplicate-free unique points upwards, the mirrored index
   * has no self-loops and no repeated column.
   */
  lemma MirroredWellFormed(unique: seq<Edge>, n: nat)
    ensures (forall e | e in unique :: 0 <= e.0 < n && 0 <= e.1 < n) ==> InRange(unique + Reversed(unique), n)
    ensures Distinct(unique) && (forall e | e in unique :: e.0 < e.1) ==>
      NoSelfLoops(unique + Reversed(unique)) && Distinct(unique + Reversed(unique))
  {
    var out := unique + Reversed(unique);
    Mirrored(unique);
    if Distinct(unique) && (forall e | e in unique :: e.0 < e.1) {
      forall i, j | 0 <= i < j < |out| ensures out[i] != out[j] {
        if j < |unique| {
        } else if i >= |unique| {
          assert out[i] == Reverse(unique[i - |unique|]) && out[j] == Reverse(unique[j - |unique|]);
        } else {
          assert out[i] in unique && Reverse(out[j]) in unique;
        }
      }
    }
  }

  /** In a duplicate-free list every value occurs at most once. */
  lemma {:induction false} DistinctCount<T>(xs: seq<T>, x: T)
    requires Distinct(xs)
    ensures multiset(xs)[x] <= 1
    decreases |xs|
  {
    if |xs| > 0 {
      var init := xs[..|xs| - 1];
      assert xs == init + [xs[|xs| - 1]];
      assert Distinct(init) by {
        forall i, j | 0 <= i < j < |init| ensures init[i] != init[j] { assert xs[i] != xs[j]; }
      }
      DistinctCount(init, x);
      if x == xs[|xs| - 1] {
        assert x !in init;
        assert multiset(init)[x] == 0;
      }
    }
  }

  /** A permutation of a duplicate-free list is duplicate-free. */
  lemma PermutationDistinct<T>(a: seq<T>, b: seq<T>)
    requires Distinct(a) && multiset(a) == multiset(b)
    ensures Distinct(b)
  {
    forall i, j | 0 <= i < j < |b| ensures b[i] != b[j] {
      if b[i] == b[j] {
        var x := b[i];
        assert b == b[..j] + [b[j]] + b[j + 1..];
        assert x in b[..j];
        assert multiset(b)[x] == multiset(b[..j])[x] + 1 + multiset(b[j + 1..])[x];
        DistinctCount(a, x);
      }
    }
  }
}
