/**
 * The k-nearest-neighbour edge builder on top of cKDTree. The tree queries
 * are foreign: their answer enters as the N x (k + 1) neighbour-index matrix,
 * None where the query raises. What the builder adds is index combinatorics:
 * drop the self column, pair every node with its k neighbours row-major, add
 * the reversed edges, and keep the distinct columns in lexicographic order as
 * `np.unique(..., axis=1)` does.
 */
module KnnScipy {
  import opened Wrappers
  import opened Graph

  /** Lexicographic order on edge-index columns: by source, then by target. */
  predicate EdgeLess(a: Edge, b: Edge) {
    a.0 < b.0 || (a.0 == b.0 && a.1 < b.1)
  }

  predicate StrictlySorted(xs: seq<Edge>) {
    forall i, j :: 0 <= i < j < |xs| ==> EdgeLess(xs[i], xs[j])
  }

  /** Insert e into a strictly sorted list unless it is already there. */
  function Insert(xs: seq<Edge>, e: Edge): (r: seq<Edge>)
    requires StrictlySorted(xs)
    ensures StrictlySorted(r) && |r| <= |xs| + 1
    ensures forall x :: x in r <==> x in xs || x == e
    decreases |xs|
  {
    if |xs| == 0 then [e]
    else if e == xs[0] then xs
    else if EdgeLess(e, xs[0]) then [e] + xs
    else
      var rest := Insert(xs[1..], e);
      assert forall x | x in rest :: EdgeLess(xs[0], x) by {
        forall x | x in rest ensures EdgeLess(xs[0], x) {
          if x != e {
            var t :| 0 <= t < |xs[1..]| && xs[1..][t] == x;
            assert xs[t + 1] == x;
          }
        }
      }
      [xs[0]] + rest
  }

  /** `np.unique(edges, axis=1)`: the distinct columns, strictly increasing. */
  function Unique(xs: seq<Edge>): (r: seq<Edge>)
    ensures StrictlySorted(r) && |r| <= |xs|
    ensures forall x :: x in r <==> x in xs
    decreases |xs|
  {
    if |xs| == 0 then [] else Insert(Unique(xs[..|xs| - 1]), xs[|xs| - 1])
  }

  /** Two strictly sorted lists with the same elements are equal. */
  lemma {:induction false} SortedUnique(a: seq<Edge>, b: seq<Edge>)
    requires StrictlySorted(a) && StrictlySorted(b)
    requires forall x :: x in a <==> x in b
    ensures a == b
    decreases |a|
  {
    assert |a| > 0 ==> a[0] in b;
    assert |b| > 0 ==> b[0] in a;
    if |a| > 0 && |b| > 0 {
      assert a[0] == b[0] by {
        var i :| 0 <= i < |a| && a[i] == b[0];
        var j :| 0 <= j < |b| && b[j] == a[0];
      }
      forall x ensures x in a[1..] <==> x in b[1..] {
        if x in a[1..] {
          var i :| 0 <= i < |a[1..]| && a[1..][i] == x;
          assert a[i + 1] == x && EdgeLess(a[0], x);
          assert x in b;
          var j :| 0 <= j < |b| && b[j] == x;
          assert j != 0;
          assert b[1..][j - 1] == x;
        }
        if x in b[1..] {
          var j :| 0 <= j < |b[1..]| && b[1..][j] == x;
          assert b[j + 1] == x && EdgeLess(b[0], x);
          assert x in a;
          var i :| 0 <= i < |a| && a[i] == x;
          assert i != 0;
          assert a[1..][i - 1] == x;
        }
      }
      SortedUnique(a[1..], b[1..]);
      assert a == [a[0]] + a[1..] && b == [b[0]] + b[1..];
    }
  }

  /** The neighbour matrix has N rows of k + 1 entries. */
  predicate Shaped(indices: seq<seq<int>>, n: nat, k: nat) {
    |indices| == n && forall t :: 0 <= t < |indices| ==> |indices[t]| == k + 1
  }

  /** Node i's k edges `(i, row[1]) .. (i, row[k])`: the self column row[0] is dropped. */
  function RowEdges(i: int, row: seq<int>, k: nat): (r: seq<Edge>)
    requires |row| == k + 1
    ensures |r| == k
    ensures forall e :: e in r <==> exists j :: 1 <= j <= k && e == (i, row[j])
  {
    var r := seq(k, j requires 0 <= j < k => (i, row[j + 1]));
    assert forall j :: 1 <= j <= k ==> r[j - 1] == (i, row[j]);
    r
  }

  /**
   * The columns of the directed index for rows i.. of the neighbour matrix:
   * `row = repeat(arange(N), k)` and `col = indices[:, 1:].flatten()`, zipped.
   */
  function DirectedFrom(indices: seq<seq<int>>, k: nat, i: nat): (r: seq<Edge>)
    requires i <= |indices| && Shaped(indices, |indices|, k)
    ensures |r| == (|indices| - i) * k
    ensures forall e :: e in r <==> exists t, j :: i <= t < |indices| && 1 <= j <= k && e == (t, indices[t][j])
    decreases |indices| - i
  {
    if i == |indices| then []
    else
      var rest := DirectedFrom(indices, k, i + 1);
      var r := RowEdges(i, indices[i], k) + rest;
      assert |r| == (|indices| - i) * k by {
        assert (|indices| - i) * k == k + (|indices| - (i + 1)) * k;
      }
      r
  }

  /** `directed_edge_index`. */
  function Directed(indices: seq<seq<int>>, k: nat): (r: seq<Edge>)
    requires Shaped(indices, |indices|, k)
    ensures |r| == |indices| * k
    ensures forall e :: e in r <==> exists t, j :: 0 <= t < |indices| && 1 <= j <= k && e == (t, indices[t][j])
  {
    DirectedFrom(indices, k, 0)
  }

  /** `np.unique(np.concatenate([directed, reversed]), axis=1)`. */
  function Symmetrised(directed: seq<Edge>): seq<Edge> {
    Unique(directed + Reversed(directed))
  }

  /**
   * build_edges as written. The first query with k + 1 <= 0 raises, and with
   * k + 1 == 1 it returns squeezed one-dimensional distances that
   * `distances[:, k]` cannot index; with no nodes `np.max` reduces an empty
   * array and raises.
   */
  function BuildEdgesAsWritten(n: nat, k: int, indices: Option<seq<seq<int>>>): (r: Result<seq<Edge>, Error>)
    ensures r.Failure? <==> k < 1 || n == 0 || indices.None? || !Shaped(indices.value, n, k)
    ensures k < 1 ==> r == Failure(BadArgument("k"))
    ensures k >= 1 && n == 0 ==> r == Failure(EmptyReduction)
  {
    if k < 1 then Failure(BadArgument("k"))
    else if n == 0 then Failure(EmptyReduction)
    else if indices.None? || !Shaped(indices.value, n, k) then Failure(OracleFailure)
    else Success(Symmetrised(Directed(indices.value, k)))
  }

  /** build_edges with the unused radius computation out of the way: an empty node set gives an empty index. */
  function BuildEdges(n: nat, k: int, indices: Option<seq<seq<int>>>): (r: Result<seq<Edge>, Error>)
    ensures r.Failure? <==> k < 1 || indices.None? || !Shaped(indices.value, n, k)
    ensures k < 1 ==> r == Failure(BadArgument("k"))
    ensures k >= 1 && n == 0 && indices.Some? && Shaped(indices.value, n, k) ==> r == Success([])
  {
    if k < 1 then Failure(BadArgument("k"))
    else if indices.None? || !Shaped(indices.value, n, k) then Failure(OracleFailure)
    else
      assert n == 0 ==> Directed(indices.value, k) == [] && Reversed([]) == [];
      Success(Symmetrised(Directed(indices.value, k)))
  }

  /** With no nodes the code as written raises, although the intended index is simply empty. */
  lemma EmptyInputRaises(k: int)
    requires k >= 1
    ensures BuildEdgesAsWritten(0, k, Some([])) == Failure(EmptyReduction)
    ensures BuildEdges(0, k, Some([])) == Success([])
  {
  }

  /** With at least one node the corrected builder agrees with the code as written. */
  lemma AgreesWhenNonEmpty(n: nat, k: int, indices: Option<seq<seq<int>>>)
    requires n > 0
    ensures BuildEdges(n, k, indices) == BuildEdgesAsWritten(n, k, indices)
  {
  }

  /**
   * The output is symmetric, strictly increasing in lexicographic order (so
   * free of duplicates), holds every directed kNN edge in both directions and
   * nothing else, and has at most 2 N k columns.
   */
  lemma KnnIndex(n: nat, k: int, indices: seq<seq<int>>)
    requires k >= 1 && Shaped(indices, n, k)
    ensures BuildEdges(n, k, Some(indices)).Success?
    ensures var out := BuildEdges(n, k, Some(indices)).value;
      var directed := Directed(indices, k);
      Symmetric(out) && StrictlySorted(out) && Distinct(out) &&
      (forall e :: e in out <==> e in directed || Reverse(e) in directed) &&
      |out| <= 2 * n * k
  {
    var directed := Directed(indices, k);
    var full := directed + Reversed(directed);
    var out := Unique(full);
    assert |out| <= 2 * n * k by {
      assert |full| == 2 * (n * k);
    }
    Mirrored(directed);
    assert Symmetric(out) by {
      forall e | e in out ensures Reverse(e) in out {
        assert e in full;
        assert Reverse(e) in full;
      }
    }
    assert Distinct(out) by {
      forall i, j | 0 <= i < j < |out| ensures out[i] != out[j] {
        assert EdgeLess(out[i], out[j]);
      }
    }
  }

  /** Every node of the output is a node of the graph when the neighbour indices are. */
  lemma KnnInRange(n: nat, k: int, indices: seq<seq<int>>)
    requires k >= 1 && Shaped(indices, n, k)
    requires forall t, j :: 0 <= t < n && 0 <= j <= k ==> 0 <= indices[t][j] < n
    ensures BuildEdges(n, k, Some(indices)).Success?
    ensures InRange(BuildEdges(n, k, Some(indices)).value, n)
  {
    KnnIndex(n, k, indices);
  }

  /**
   * cKDTree reports a missing neighbour (fewer than k + 1 points) as index n,
   * so such a query gives edges to the node n, which does not exist.
   */
  lemma MissingNeighbourEdge(n: nat, k: int, indices: seq<seq<int>>, t: nat, j: nat)
    requires k >= 1 && Shaped(indices, n, k)
    requires t < n && 1 <= j <= k && indices[t][j] == n
    ensures BuildEdges(n, k, Some(indices)).Success?
    ensures (t, n) in BuildEdges(n, k, Some(indices)).value && (n, t) in BuildEdges(n, k, Some(indices)).value
    ensures !InRange(BuildEdges(n, k, Some(indices)).value, n)
  {
    KnnIndex(n, k, indices);
    assert (t, indices[t][j]) in Directed(indices, k);
  }

  /** No node lists itself among its k neighbours, hence no self-loops. */
  lemma KnnNoSelfLoops(n: nat, k: int, indices: seq<seq<int>>)
    requires k >= 1 && Shaped(indices, n, k)
    requires forall t, j :: 0 <= t < n && 1 <= j <= k ==> indices[t][j] != t
    ensures BuildEdges(n, k, Some(indices)).Success?
    ensures NoSelfLoops(BuildEdges(n, k, Some(indices)).value)
  {
    KnnIndex(n, k, indices);
  }

  /**
   * The output depends only on which directed edges occur, not on their
   * order or multiplicity: two neighbour matrices that yield the same directed
   * edges give the same index.
   */
  lemma KnnOrderIndependent(n: nat, k: int, a: seq<seq<int>>, b: seq<seq<int>>)
    requires k >= 1 && Shaped(a, n, k) && Shaped(b, n, k)
    requires forall e :: e in Directed(a, k) <==> e in Directed(b, k)
    ensures BuildEdges(n, k, Some(a)) == BuildEdges(n, k, Some(b))
  {
    KnnIndex(n, k, a);
    KnnIndex(n, k, b);
    SortedUnique(BuildEdges(n, k, Some(a)).value, BuildEdges(n, k, Some(b)).value);
  }
}
