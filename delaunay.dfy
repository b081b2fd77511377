/**
 * The Delaunay edge builder around the Qhull triangulation: guard the input
 * size and dimension, soften a triangulation failure into an empty index,
 * collect the canonical (min, max) pairs of the six edges of every
 * tetrahedron in a set, and emit each pair in both directions.
 *
 * The triangulation itself is foreign; it enters as its outcome, None where
 * Qhull raises. The set is kept as its listing in first-insertion order, which
 * stands for the order in which the interpreter iterates it.
 */
module Delaunay {
  import opened Wrappers
  import opened Graph

  /** One row of `tri.simplices`: the four vertex indices of a tetrahedron. */
  datatype Simplex = Simplex(p0: int, p1: int, p2: int, p3: int)

  /** `tuple(sorted((i, j)))`. */
  function Canonical(i: int, j: int): Edge {
    if i <= j then (i, j) else (j, i)
  }

  /** The six canonical edges of a simplex, in the order they are added. */
  function SixEdges(s: Simplex): seq<Edge> {
    [Canonical(s.p0, s.p1), Canonical(s.p0, s.p2), Canonical(s.p0, s.p3),
     Canonical(s.p1, s.p2), Canonical(s.p1, s.p3), Canonical(s.p2, s.p3)]
  }

  /** The six canonical edges of a simplex, as a set. */
  function SixSet(s: Simplex): set<Edge> {
    {Canonical(s.p0, s.p1), Canonical(s.p0, s.p2), Canonical(s.p0, s.p3),
     Canonical(s.p1, s.p2), Canonical(s.p1, s.p3), Canonical(s.p2, s.p3)}
  }

  /** The contents of edge_set after the loop: every canonical edge of every simplex. */
  function EdgeSet(simplices: seq<Simplex>): set<Edge>
    decreases |simplices|
  {
    if |simplices| == 0 then {}
    else EdgeSet(simplices[..|simplices| - 1]) + SixSet(simplices[|simplices| - 1])
  }

  /** `edge_set.add(e)`. */
  function Add(edges: seq<Edge>, e: Edge): (r: seq<Edge>)
    requires Distinct(edges)
    ensures Distinct(r) && forall x :: x in r <==> x in edges || x == e
  {
    if e in edges then edges else edges + [e]
  }

  /** The six additions of one loop iteration. */
  function AddSix(edges: seq<Edge>, s: Simplex): (r: seq<Edge>)
    requires Distinct(edges)
    ensures Distinct(r) && forall x :: x in r <==> x in edges || x in SixSet(s)
  {
    var es := SixEdges(s);
    var r1 := Add(edges, es[0]);
    var r2 := Add(r1, es[1]);
    var r3 := Add(r2, es[2]);
    var r4 := Add(r3, es[3]);
    var r5 := Add(r4, es[4]);
    var r6 := Add(r5, es[5]);
    assert forall x :: x in r6 <==> x in edges || x == es[0] || x == es[1] || x == es[2] || x == es[3] || x == es[4] || x == es[5];
    r6
  }

  /** edge_set after the loop over the first |simplices| simplices, listed in first-insertion order. */
  function EdgeList(simplices: seq<Simplex>): (r: seq<Edge>)
    ensures Distinct(r) && forall x :: x in r <==> x in EdgeSet(simplices)
    decreases |simplices|
  {
    if |simplices| == 0 then []
    else AddSix(EdgeList(simplices[..|simplices| - 1]), simplices[|simplices| - 1])
  }

  /** build_edges as a value. */
  function BuildEdgesSpec(coords: Matrix, triangulation: Option<seq<Simplex>>): (r: Result<seq<Edge>, Error>)
    ensures r.Failure? <==> |coords.rows| >= 4 && coords.width != 3
    ensures r.Failure? ==> r.error == DimensionMismatch(3, coords.width)
  {
    if |coords.rows| < 4 then Success([])
    else if coords.width != 3 then Failure(DimensionMismatch(3, coords.width))
    else if triangulation.None? then Success([])
    else
      var unique := EdgeList(triangulation.value);
      if |unique| == 0 then Success([]) else Success(unique + Reversed(unique))
  }

  /**
   * build_edges. Fewer than four points give an empty index whatever their
   * dimension; otherwise a dimension other than 3 raises; a triangulation
   * failure gives an empty index; otherwise the result is the unique
   * canonical pairs followed by the same pairs reversed.
   */
  method BuildEdges(coords: Matrix, triangulation: Option<seq<Simplex>>) returns (r: Result<seq<Edge>, Error>)
    ensures r == BuildEdgesSpec(coords, triangulation)
    ensures |coords.rows| < 4 ==> r == Success([])
    ensures |coords.rows| >= 4 && coords.width != 3 ==> r == Failure(DimensionMismatch(3, coords.width))
    ensures |coords.rows| >= 4 && coords.width == 3 && triangulation.None? ==> r == Success([])
    ensures r.Failure? <==> |coords.rows| >= 4 && coords.width != 3
  {
    if |coords.rows| < 4 {
      return Success([]);
    }
    if coords.width != 3 {
      return Failure(DimensionMismatch(3, coords.width));
    }
    if triangulation.None? {
      return Success([]);
    }
    var edges := CollectEdges(triangulation.value);
    if |edges| == 0 {
      return Success([]);
    }
    r := Success(edges + Reversed(edges));
  }

  /** The loop of build_edges: add the six canonical edges of every simplex to edge_set. */
  method CollectEdges(simplices: seq<Simplex>) returns (edges: seq<Edge>)
    ensures edges == EdgeList(simplices)
    ensures Distinct(edges) && forall x :: x in edges <==> x in EdgeSet(simplices)
  {
    edges := [];
    for k := 0 to |simplices|
      invariant edges == EdgeList(simplices[..k])
    {
      assert simplices[..k + 1][..k] == simplices[..k];
      assert simplices[..k + 1][k] == simplices[k];
      edges := AddSix(edges, simplices[k]);
    }
    assert simplices[..|simplices|] == simplices;
  }

  /** A duplicate-free list has as many distinct elements as entries. */
  lemma {:induction false} DistinctCardinality<T>(xs: seq<T>)
    requires Distinct(xs)
    ensures |set x | x in xs| == |xs|
    decreases |xs|
  {
    if |xs| > 0 {
      var rest := xs[..|xs| - 1];
      assert Distinct(rest) by {
        forall i, j | 0 <= i < j < |rest| ensures rest[i] != rest[j] { assert xs[i] != xs[j]; }
      }
      DistinctCardinality(rest);
      assert (set x | x in xs) == (set x | x in rest) + {xs[|xs| - 1]};
      assert xs[|xs| - 1] !in rest;
    }
  }

  /**
   * On a successful triangulation the index holds exactly the unique
   * unordered pairs of the simplices in both directions, so it is symmetric,
   * and it has 2 x (number of unique pairs) columns.
   */
  lemma TriangulatedIndex(coords: Matrix, simplices: seq<Simplex>)
    requires |coords.rows| >= 4 && coords.width == 3
    ensures BuildEdgesSpec(coords, Some(simplices)).Success?
    ensures var out := BuildEdgesSpec(coords, Some(simplices)).value;
      |out| == 2 * |EdgeSet(simplices)| &&
      Symmetric(out) &&
      (forall e :: e in out <==> e in EdgeSet(simplices) || Reverse(e) in EdgeSet(simplices))
  {
    var unique := EdgeList(simplices);
    var out := unique + Reversed(unique);
    assert BuildEdgesSpec(coords, Some(simplices)) == Success(out) by {
      if |unique| == 0 {
        assert out == [];
      }
    }
    ListedCardinality(unique, EdgeSet(simplices));
    Mirrored(unique);
  }

  /** A duplicate-free listing of a set has its cardinality. */
  lemma ListedCardinality(xs: seq<Edge>, s: set<Edge>)
    requires Distinct(xs) && forall x :: x in xs <==> x in s
    ensures |s| == |xs|
  {
    DistinctCardinality(xs);
    assert (set x | x in xs) == s;
  }

  /** The vertex indices of a simplex name nodes 0..n-1. */
  predicate VerticesInRange(s: Simplex, n: nat) {
    0 <= s.p0 < n && 0 <= s.p1 < n && 0 <= s.p2 < n && 0 <= s.p3 < n
  }

  /** The four vertices of a simplex are pairwise different. */
  predicate VerticesDistinct(s: Simplex) {
    s.p0 != s.p1 && s.p0 != s.p2 && s.p0 != s.p3 && s.p1 != s.p2 && s.p1 != s.p3 && s.p2 != s.p3
  }

  /** The six edges of one simplex join its vertices, canonically ordered. */
  lemma SixSetBounds(s: Simplex, n: nat)
    ensures VerticesInRange(s, n) ==> forall e | e in SixSet(s) :: 0 <= e.0 < n && 0 <= e.1 < n
    ensures VerticesDistinct(s) ==> forall e | e in SixSet(s) :: e.0 < e.1
  {
    CanonicalBounds(s.p0, s.p1, n);
    CanonicalBounds(s.p0, s.p2, n);
    CanonicalBounds(s.p0, s.p3, n);
    CanonicalBounds(s.p1, s.p2, n);
    CanonicalBounds(s.p1, s.p3, n);
    CanonicalBounds(s.p2, s.p3, n);
  }

  /** A canonical pair keeps its endpoints and orders two different ones strictly. */
  lemma CanonicalBounds(i: int, j: int, n: nat)
    ensures 0 <= i < n && 0 <= j < n ==> 0 <= Canonical(i, j).0 < n && 0 <= Canonical(i, j).1 < n
    ensures i != j ==> Canonical(i, j).0 < Canonical(i, j).1
  {
  }

  lemma {:induction false} EdgeSetBounds(simplices: seq<Simplex>, n: nat)
    ensures (forall k :: 0 <= k < |simplices| ==> VerticesInRange(simplices[k], n)) ==>
      forall e | e in EdgeSet(simplices) :: 0 <= e.0 < n && 0 <= e.1 < n
    ensures (forall k :: 0 <= k < |simplices| ==> VerticesDistinct(simplices[k])) ==>
      forall e | e in EdgeSet(simplices) :: e.0 < e.1
    decreases |simplices|
  {
    if |simplices| > 0 {
      var init := simplices[..|simplices| - 1];
      var last := simplices[|simplices| - 1];
      assert EdgeSet(simplices) == EdgeSet(init) + SixSet(last);
      assert forall k :: 0 <= k < |init| ==> init[k] == simplices[k];
      EdgeSetBounds(init, n);
      SixSetBounds(last, n);
    }
  }

  /**
   * Every output index is a simplex vertex, hence in [0, n) when Qhull's
   * vertices are; with four distinct vertices per simplex there are no
   * self-loops and no repeated columns.
   */
  lemma TriangulatedIndexWellFormed(coords: Matrix, simplices: seq<Simplex>)
    requires |coords.rows| >= 4 && coords.width == 3
    ensures BuildEdgesSpec(coords, Some(simplices)).Success?
    ensures (forall k :: 0 <= k < |simplices| ==> VerticesInRange(simplices[k], |coords.rows|)) ==>
      InRange(BuildEdgesSpec(coords, Some(simplices)).value, |coords.rows|)
    ensures (forall k :: 0 <= k < |simplices| ==> VerticesDistinct(simplices[k])) ==>
      NoSelfLoops(BuildEdgesSpec(coords, Some(simplices)).value) &&
      Distinct(BuildEdgesSpec(coords, Some(simplices)).value)
  {
    var unique := EdgeList(simplices);
    TriangulatedIndex(coords, simplices);
    EdgeSetBounds(simplices, |coords.rows|);
    assert BuildEdgesSpec(coords, Some(simplices)) == Success(unique + Reversed(unique)) by {
      if |unique| == 0 {
        assert unique + Reversed(unique) == [];
      }
    }
    MirroredWellFormed(unique, |coords.rows|);
  }
}
