/**
 * EdgeBuilder: look the algorithm and the optional metric up in their fixed
 * registries when it is built, then compute an edge index by applying the
 * metric (if any) and handing the result to the graph builder.
 *
 * The builders and metrics that are foreign or not part of this model enter
 * through Oracles: Qhull's triangulation, cKDTree's neighbour query,
 * radius.build_edges (radius.py is not part of this model),
 * knn_pyg.build_edges (torch_geometric) and the weighted Euclidean metric
 * (a floating-point distance matrix).
 */
module EdgeBuilder {
  import opened Wrappers
  import opened Graph
  import opened Text
  import D = Delaunay
  import K = KnnScipy
  import S = Spacetime

  datatype Algorithm = KnnScipy | Delaunay | Radius | KnnPyg
  datatype Metric = Spacetime | WeightedEuclidean

  /** The keys of GRAPH_BUILDERS. */
  const AlgorithmNames: seq<string> := ["knn_scipy", "delaunay", "radius", "knn_pyg"]
  /** The keys of METRIC_REGISTRY. */
  const MetricNames: seq<string> := ["spacetime", "weighted_euclidean"]

  function AlgorithmName(a: Algorithm): string {
    match a
    case KnnScipy => "knn_scipy"
    case Delaunay => "delaunay"
    case Radius => "radius"
    case KnnPyg => "knn_pyg"
  }

  function MetricName(m: Metric): string {
    match m
    case Spacetime => "spacetime"
    case WeightedEuclidean => "weighted_euclidean"
  }

  /** `GRAPH_BUILDERS.get(name)`. */
  function LookupAlgorithm(name: string): (r: Option<Algorithm>)
    ensures r.Some? <==> name in AlgorithmNames
    ensures r.Some? ==> AlgorithmName(r.value) == name
  {
    if name == "knn_scipy" then Some(KnnScipy)
    else if name == "delaunay" then Some(Delaunay)
    else if name == "radius" then Some(Radius)
    else if name == "knn_pyg" then Some(KnnPyg)
    else None
  }

  /** `METRIC_REGISTRY.get(name)`. */
  function LookupMetric(name: string): (r: Option<Metric>)
    ensures r.Some? <==> name in MetricNames
    ensures r.Some? ==> MetricName(r.value) == name
  {
    if name == "spacetime" then Some(Spacetime)
    else if name == "weighted_euclidean" then Some(WeightedEuclidean)
    else None
  }

  /** Every registered builder and metric is found under its own name. */
  lemma RegistryRoundTrip(a: Algorithm, m: Metric)
    ensures LookupAlgorithm(AlgorithmName(a)) == Some(a)
    ensures LookupMetric(MetricName(m)) == Some(m)
  {
  }

  /** The foreign builders and metrics. */
  datatype Oracles = Oracles(
    /** Delaunay(coords).simplices; None where Qhull raises. */
    triangulate: Matrix -> Option<seq<D.Simplex>>,
    /** The indices of cKDTree(coords).query(coords, k=k+1); None where it raises. */
    neighbours: (Matrix, int) -> Option<seq<seq<int>>>,
    /** radius.build_edges(coords, **params). */
    radius: (Matrix, map<string, Value>) -> Result<seq<Edge>, Error>,
    /** knn_pyg.build_edges(coords, **params). */
    knnPyg: (Matrix, map<string, Value>) -> Result<seq<Edge>, Error>,
    /** process_coords_weighted_euclidean(coords, **params). */
    weightedEuclidean: (Matrix, map<string, Value>) -> Result<Matrix, Error>)

  /** The int a callee sees in v: an int, or a bool as 1 or 0, since bool is a subclass of int. */
  function IntArgument(v: Value): Option<int> {
    match v
    case IntValue(i) => Some(i)
    case BoolValue(b) => Some(if b then 1 else 0)
    case _ => None
  }

  /**
   * `graph_builder(coords, **params)`. knn_scipy needs an int k; both shown
   * builders ignore other keywords but refuse a second value for coords.
   */
  function Build(a: Algorithm, o: Oracles, coords: Matrix, params: map<string, Value>): (r: Result<seq<Edge>, Error>)
    ensures (a == KnnScipy || a == Delaunay) && "coords" in params ==> r == Failure(BadArgument("coords"))
    ensures a == KnnScipy && "coords" !in params && "k" !in params ==> r == Failure(MissingArgument("k"))
    ensures a == KnnScipy && "coords" !in params && "k" in params && IntArgument(params["k"]).None? ==>
      r == Failure(BadArgument("k"))
    ensures a == KnnScipy && r.Success? ==>
      "k" in params && IntArgument(params["k"]).Some? && IntArgument(params["k"]).value >= 1 &&
      |r.value| <= 2 * |coords.rows| * IntArgument(params["k"]).value
    ensures a == Delaunay && "coords" !in params ==>
      (r.Failure? <==> |coords.rows| >= 4 && coords.width != 3) &&
      (r.Failure? ==> r.error == DimensionMismatch(3, coords.width))
  {
    match a
    case KnnScipy =>
      if "coords" in params then Failure(BadArgument("coords"))
      else if "k" !in params then Failure(MissingArgument("k"))
      else if IntArgument(params["k"]).None? then Failure(BadArgument("k"))
      else
        var k := IntArgument(params["k"]).value;
        var r := K.BuildEdges(|coords.rows|, k, o.neighbours(coords, k));
        if r.Success? then
          K.KnnIndex(|coords.rows|, k, o.neighbours(coords, k).value);
          r
        else r
    case Delaunay =>
      if "coords" in params then Failure(BadArgument("coords"))
      else D.BuildEdgesSpec(coords, o.triangulate(coords))
    case Radius => o.radius(coords, params)
    case KnnPyg => o.knnPyg(coords, params)
  }

  /** `metric_func(coords, **params)`. */
  function ApplyMetric(m: Metric, o: Oracles, coords: Matrix, params: map<string, Value>): (r: Result<Matrix, Error>)
    requires coords.Valid()
    ensures m == Spacetime && params.Keys <= S.Parameters && coords.width != 4 ==>
      r == Failure(DimensionMismatch(4, coords.width))
    ensures m == Spacetime && r.Success? ==>
      r.value.Valid() && r.value.width == 3 && |r.value.rows| == |coords.rows|
  {
    match m
    case Spacetime => S.ProcessWithParams(coords, params)
    case WeightedEuclidean => o.weightedEuclidean(coords, params)
  }

  /** The fields an EdgeBuilder holds after `__init__`. */
  datatype EdgeBuilder = EdgeBuilder(
    algorithm: string,
    metric: Option<string>,
    algorithmParams: map<string, Value>,
    metricParams: map<string, Value>,
    graphBuilder: Algorithm,
    metricFunc: Option<Metric>)

  /**
   * `EdgeBuilder.__init__`: None parameters become empty dictionaries; the
   * algorithm is looked up first, then the metric when one is given.
   */
  function Create(algorithm: string, metric: Option<string>,
                  algorithmParams: Option<map<string, Value>>, metricParams: Option<map<string, Value>>)
    : (r: Result<EdgeBuilder, Error>)
    ensures algorithm !in AlgorithmNames ==> r == Failure(UnknownAlgorithm(algorithm))
    ensures algorithm in AlgorithmNames && metric.Some? && metric.value !in MetricNames ==>
      r == Failure(UnknownMetric(metric.value))
    ensures r.Success? <==> algorithm in AlgorithmNames && (metric.None? || metric.value in MetricNames)
    ensures r.Success? ==>
      r.value.algorithm == algorithm && r.value.metric == metric &&
      AlgorithmName(r.value.graphBuilder) == algorithm &&
      (r.value.metricFunc.Some? <==> metric.Some?) &&
      (metric.Some? ==> MetricName(r.value.metricFunc.value) == metric.value) &&
      r.value.algorithmParams == (if algorithmParams.Some? then algorithmParams.value else map[]) &&
      r.value.metricParams == (if metricParams.Some? then metricParams.value else map[])
  {
    var graphBuilder := LookupAlgorithm(algorithm);
    if graphBuilder.None? then Failure(UnknownAlgorithm(algorithm))
    else
      var metricFunc := if metric.Some? then LookupMetric(metric.value) else None;
      if metric.Some? && metricFunc.None? then Failure(UnknownMetric(metric.value))
      else Success(EdgeBuilder(algorithm, metric, algorithmParams.GetOr(map[]), metricParams.GetOr(map[]),
                               graphBuilder.value, metricFunc))
  }

  /** The documented `euclidean_3d` metric is not in the registry, so it is refused. */
  lemma Euclidean3dRejected(algorithm: string)
    requires algorithm in AlgorithmNames
    ensures Create(algorithm, Some("euclidean_3d"), None, None) == Failure(UnknownMetric("euclidean_3d"))
  {
  }

  /**
   * `compute_edge_index`: the metric, when there is one, then the builder on
   * its output. A spacetime width error ends it before any builder runs, and
   * since the spacetime metric keeps one row per hit, the kNN bound of
   * 2 N k columns holds for the raw N.
   */
  function ComputeEdgeIndex(b: EdgeBuilder, o: Oracles, raw: Matrix): (r: Result<seq<Edge>, Error>)
    requires raw.Valid()
    ensures b.metricFunc == Some(Spacetime) && b.metricParams.Keys <= S.Parameters && raw.width != 4 ==>
      r == Failure(DimensionMismatch(4, raw.width))
    ensures (b.metricFunc.None? || b.metricFunc == Some(Spacetime)) && b.graphBuilder == KnnScipy && r.Success? ==>
      "k" in b.algorithmParams && IntArgument(b.algorithmParams["k"]).Some? &&
      |r.value| <= 2 * |raw.rows| * IntArgument(b.algorithmParams["k"]).value
  {
    var coords :- if b.metricFunc.Some? then ApplyMetric(b.metricFunc.value, o, raw, b.metricParams) else Success(raw);
    Build(b.graphBuilder, o, coords, b.algorithmParams)
  }

  /** Both builders of this repository return symmetric edge indices, whatever the metric and the oracles. */
  lemma ShownBuildersSymmetric(b: EdgeBuilder, o: Oracles, raw: Matrix)
    requires raw.Valid() && b.graphBuilder in {KnnScipy, Delaunay}
    requires ComputeEdgeIndex(b, o, raw).Success?
    ensures Symmetric(ComputeEdgeIndex(b, o, raw).value)
  {
    var coords := if b.metricFunc.Some? then ApplyMetric(b.metricFunc.value, o, raw, b.metricParams).value else raw;
    var params := b.algorithmParams;
    if b.graphBuilder == Delaunay {
      var tri := o.triangulate(coords);
      if |coords.rows| >= 4 && coords.width == 3 && tri.Some? {
        D.TriangulatedIndex(coords, tri.value);
      }
    } else {
      var k := IntArgument(params["k"]).value;
      K.KnnIndex(|coords.rows|, k, o.neighbours(coords, k).value);
    }
  }

  /** `k: true` is the int 1 to knn_scipy, and `k: false` the int 0, which raises. */
  lemma BoolKIsInt(o: Oracles, coords: Matrix, params: map<string, Value>)
    requires "coords" !in params
    ensures Build(KnnScipy, o, coords, params["k" := BoolValue(true)]) ==
            Build(KnnScipy, o, coords, params["k" := IntValue(1)])
    ensures Build(KnnScipy, o, coords, params["k" := BoolValue(false)]) == Failure(BadArgument("k"))
  {
  }

  /**
   * The spacetime metric feeds Delaunay 3-D rows, so a [N, 4] input never hits
   * the dimension error: the index is empty for N < 4 or a failed
   * triangulation and otherwise comes from the simplices of the converted
   * points.
   */
  lemma SpacetimeThenDelaunay(o: Oracles, raw: Matrix)
    requires raw.Valid() && raw.width == 4
    ensures var b := Create("delaunay", Some("spacetime"), None, None);
      b.Success? && ComputeEdgeIndex(b.value, o, raw).Success?
  {
    var b := Create("delaunay", Some("spacetime"), None, None).value;
    var coords := S.ProcessCoordsSpacetime(raw, 1.0, 1.0);
    assert S.ProcessWithParams(raw, map[]) == coords;
  }
}
