/**
 * The job-folder name built from a configuration: the date, the algorithm
 * with its k or r, the position features in short form, the metric's tag,
 * and the particle type and energy range found in the data file's path.
 * The clock and the two regular-expression searches enter as parameters.
 */
module JobName {
  import opened Wrappers
  import opened Text

  /** A configuration key: absent, present with null, or present with a value. */
  datatype Field<T> = Absent | Null | Given(value: T)

  /** feature_map. */
  function FeatureTable(f: string): Option<string> {
    if f == "hitx" then Some("x")
    else if f == "hity" then Some("y")
    else if f == "hitz" then Some("z")
    else if f == "hitt" then Some("t")
    else if f == "charge" then Some("q")
    else if f == "time" then Some("t")
    else if f == "energy" then Some("E")
    else None
  }

  /** A stripped feature: by the table, then "hit?" to its fourth letter, else unchanged. */
  function ShortForm(f: string): string {
    var mapped := FeatureTable(f);
    if mapped.Some? then mapped.value
    else if StartsWith(f, "hit") && |f| == 4 then [f[3]]
    else f
  }

  /** One feature: stripped, then shortened. */
  function SimplifyFeature(feature: string): string {
    ShortForm(Strip(feature))
  }

  /** f applied to every element. */
  function Map<A, B>(f: A -> B, xs: seq<A>): (r: seq<B>)
    ensures |r| == |xs| && forall i :: 0 <= i < |r| ==> r[i] == f(xs[i])
  {
    seq(|xs|, i requires 0 <= i < |xs| => f(xs[i]))
  }

  lemma MapAppend<A, B>(f: A -> B, a: seq<A>, b: seq<A>)
    ensures Map(f, a + b) == Map(f, a) + Map(f, b)
  {
    var l := Map(f, a + b);
    var r := Map(f, a) + Map(f, b);
    forall i | 0 <= i < |l| ensures l[i] == r[i] {
      if i < |a| {
        assert (a + b)[i] == a[i];
      } else {
        assert (a + b)[i] == b[i - |a|];
      }
    }
  }

  function Simplified(features: seq<string>): (r: seq<string>)
    ensures |r| == |features| && forall i :: 0 <= i < |r| ==> r[i] == SimplifyFeature(features[i])
  {
    Map(SimplifyFeature, features)
  }

  /** `"".join(result)`. */
  function SimplifyFeaturesSpec(features: seq<string>): string {
    Join("", Simplified(features))
  }

  /** simplify_features: the loop appends one short form per feature. */
  method SimplifyFeatures(features: seq<string>) returns (r: string)
    ensures r == SimplifyFeaturesSpec(features)
  {
    var result: seq<string> := [];
    for i := 0 to |features|
      invariant result == Simplified(features[..i])
    {
      assert features[..i + 1] == features[..i] + [features[i]];
      SimplifiedAppend(features[..i], [features[i]]);
      result := result + [SimplifyFeature(features[i])];
    }
    assert features[..|features|] == features;
    r := Join("", result);
  }

  lemma {:induction false} JoinEmptyAppend(a: seq<string>, b: seq<string>)
    ensures Join("", a + b) == Join("", a) + Join("", b)
    decreases |a|
  {
    if |a| == 0 {
      assert a + b == b;
    } else if |a| == 1 {
      if |b| > 0 {
        assert a + b == [a[0]] + b;
        assert (a + b)[1..] == b;
      } else {
        assert a + b == a;
      }
    } else {
      assert (a + b)[1..] == a[1..] + b;
      JoinEmptyAppend(a[1..], b);
      if |b| == 0 {
        assert a + b == a;
      }
    }
  }

  /** Simplifying a concatenation simplifies each part. */
  lemma SimplifiedAppend(a: seq<string>, b: seq<string>)
    ensures Simplified(a + b) == Simplified(a) + Simplified(b)
  {
    MapAppend(SimplifyFeature, a, b);
  }

  /** The short form of a list is the short forms of its parts, one after the other. */
  lemma SimplifyFeaturesAppend(a: seq<string>, b: seq<string>)
    ensures SimplifyFeaturesSpec(a + b) == SimplifyFeaturesSpec(a) + SimplifyFeaturesSpec(b)
  {
    SimplifiedAppend(a, b);
    JoinEmptyAppend(Simplified(a), Simplified(b));
  }

  /** A string without surrounding whitespace is its own strip. */
  lemma StripUnchanged(s: string)
    requires |s| > 0 && !IsSpace(s[0]) && !IsSpace(s[|s| - 1])
    ensures Strip(s) == s
  {
    StripLeftNoSpace(s);
  }

  /** Surrounding whitespace does not change a short form. */
  lemma StripIrrelevant(feature: string)
    ensures SimplifyFeature(feature) == SimplifyFeature(Strip(feature))
  {
    StripIdempotent(feature);
  }

  /** Every four-letter "hit?" name, x, y, z and t included, gives its fourth letter. */
  lemma HitRule(feature: string, c: char)
    requires Strip(feature) == "hit" + [c]
    ensures SimplifyFeature(feature) == [c]
  {
    var f := Strip(feature);
    assert |f| == 4 && f[0] == 'h' && f[3] == c;
    assert f != "charge" && f != "time" && f != "energy";
    assert FeatureTable(f) == (if c in "xyzt" then Some([c]) else None) by {
      if c == 'x' { assert f == "hitx"; } else { assert f != "hitx" by { assert f[3] != "hitx"[3]; } }
      if c == 'y' { assert f == "hity"; } else { assert f != "hity" by { assert f[3] != "hity"[3]; } }
      if c == 'z' { assert f == "hitz"; } else { assert f != "hitz" by { assert f[3] != "hitz"[3]; } }
      if c == 't' { assert f == "hitt"; } else { assert f != "hitt" by { assert f[3] != "hitt"[3]; } }
    }
    assert StartsWith(f, "hit");
  }

  /** The table's other entries: charge, time and energy. */
  lemma TableForms(feature: string)
    ensures Strip(feature) == "charge" ==> SimplifyFeature(feature) == "q"
    ensures Strip(feature) == "time" ==> SimplifyFeature(feature) == "t"
    ensures Strip(feature) == "energy" ==> SimplifyFeature(feature) == "E"
  {
  }

  /** extract_algorithm_params: k wins over r; a null mapping cannot be searched. */
  function AlgorithmParamsPart(params: Field<map<string, Value>>): (r: Result<string, Error>)
    ensures r.Failure? <==> params.Null?
    ensures params.Given? && "k" in params.value ==> r == Success("_k" + Str(params.value["k"]))
    ensures params.Given? && "k" !in params.value && "r" in params.value ==> r == Success("_r" + Str(params.value["r"]))
    ensures params.Absent? || (params.Given? && "k" !in params.value && "r" !in params.value) ==> r == Success("")
  {
    match params
    case Absent => Success("")
    case Null => Failure(NotADictionary("algorithm_params"))
    case Given(m) =>
      var parts := if "k" in m then ["k" + Str(m["k"])] else if "r" in m then ["r" + Str(m["r"])] else [];
      assert "k" in m ==> "_" + Join("_", parts) == "_k" + Str(m["k"]);
      assert "k" !in m && "r" in m ==> "_" + Join("_", parts) == "_r" + Str(m["r"]);
      Success(if |parts| > 0 then "_" + Join("_", parts) else "")
  }

  /** The metric's tag. */
  function MetricTag(metric: string): (r: string)
    ensures metric !in {"spacetime", "euclidean_3d", "weighted_euclidean"} ==> r == metric
  {
    if metric == "spacetime" then "st"
    else if metric == "euclidean_3d" then "e3d"
    else if metric == "weighted_euclidean" then "we"
    else metric
  }

  /** extract_metric_info: "_" + the tag, or "" when the metric is absent or null. */
  function MetricPart(metric: Field<string>): (r: string)
    ensures metric.Given? <==> |r| > 0
    ensures metric.Given? ==> r == "_" + MetricTag(metric.value)
  {
    var parts := if metric.Given? then [MetricTag(metric.value)] else [];
    if |parts| > 0 then "_" + Join("_", parts) else ""
  }

  /** The keys of the configuration the name reads. */
  datatype JobConfig = JobConfig(
    algorithm: Option<string>,
    posFeatures: Option<seq<string>>,
    algorithmParams: Field<map<string, Value>>,
    metric: Field<string>,
    metricParams: Field<map<string, Value>>)

  /**
   * generate_job_name; date is the formatted clock, particleMatch and
   * energyMatch the groups of the two path searches. Any exception ends the
   * script, so a Failure stands for its exit.
   */
  function GenerateJobName(date: string, cfg: JobConfig, particleMatch: Option<string>, energyMatch: Option<string>)
    : (r: Result<string, Error>)
    ensures r.Failure? <==> cfg.algorithmParams.Null?
    ensures r.Failure? ==> r.error == NotADictionary("algorithm_params")
    ensures r.Success? ==> StartsWith(r.value, date + "_")
  {
    var algorithm := if cfg.algorithm.Some? then cfg.algorithm.value else "unknown";
    var features := SimplifyFeaturesSpec(if cfg.posFeatures.Some? then cfg.posFeatures.value else []);
    var params :- AlgorithmParamsPart(cfg.algorithmParams);
    var metricInfo := MetricPart(cfg.metric);
    var particle := if particleMatch.Some? then particleMatch.value else "unknown";
    var parts := [date, algorithm + params, features] +
      (if |metricInfo| > 0 then [metricInfo[1..]] else []) +
      [particle] +
      (if energyMatch.Some? && |energyMatch.value| > 0 then [energyMatch.value] else []);
    Success(Join("_", parts))
  }

  /** metric_params is read but never used. */
  lemma MetricParamsIgnored(date: string, cfg: JobConfig, other: Field<map<string, Value>>,
                            particleMatch: Option<string>, energyMatch: Option<string>)
    ensures GenerateJobName(date, cfg, particleMatch, energyMatch) ==
            GenerateJobName(date, cfg.(metricParams := other), particleMatch, energyMatch)
  {
  }

  /** With k and r both given, only k is named. */
  lemma KBeforeR(k: Value, r: Value)
    ensures AlgorithmParamsPart(Given(map["k" := k, "r" := r])) == Success("_k" + Str(k))
  {
  }

  lemma {:induction false} JoinAppend(sep: string, parts: seq<string>, x: string)
    requires |parts| > 0
    ensures Join(sep, parts + [x]) == Join(sep, parts) + sep + x
    decreases |parts|
  {
    if |parts| == 1 {
      assert (parts + [x])[1..] == [x];
    } else {
      assert (parts + [x])[1..] == parts[1..] + [x];
      JoinAppend(sep, parts[1..], x);
    }
  }

  lemma {:induction false} JoinJobParts(date: string, algorithm: string, features: string, tag: Option<string>,
                                        particle: string, energy: Option<string>)
    ensures var parts := [date, algorithm, features] + (if tag.Some? then [tag.value] else []) + [particle] +
                         (if energy.Some? then [energy.value] else []);
      var head := date + "_" + algorithm + "_" + features + (if tag.Some? then "_" + tag.value else "") + "_" + particle;
      Join("_", parts) == if energy.Some? then head + "_" + energy.value else head
  {
    var first := [date, algorithm, features];
    assert first[1..] == [algorithm, features];
    assert first[1..][1..] == [features];
    assert Join("_", first[1..]) == algorithm + "_" + features;
    assert Join("_", first) == date + "_" + algorithm + "_" + features;
    var withTag := first + (if tag.Some? then [tag.value] else []);
    if tag.Some? {
      JoinAppend("_", first, tag.value);
    } else {
      assert withTag == first;
    }
    var tagPart := if tag.Some? then "_" + tag.value else "";
    assert Join("_", withTag) == Join("_", first) + tagPart;
    JoinAppend("_", withTag, particle);
    var withParticle := withTag + [particle];
    if energy.Some? {
      JoinAppend("_", withParticle, energy.value);
    } else {
      assert withParticle + [] == withParticle;
    }
  }

  /**
   * The name's parts in order: date_algorithmparams_features_particle, with
   * the metric's tag before the particle when a metric is set and the energy
   * range after it when the path has one.
   */
  lemma JobNameLayout(date: string, cfg: JobConfig, particleMatch: Option<string>, energyMatch: Option<string>)
    requires !cfg.algorithmParams.Null?
    ensures var algorithm := (if cfg.algorithm.Some? then cfg.algorithm.value else "unknown") +
                             AlgorithmParamsPart(cfg.algorithmParams).value;
      var features := SimplifyFeaturesSpec(if cfg.posFeatures.Some? then cfg.posFeatures.value else []);
      var particle := if particleMatch.Some? then particleMatch.value else "unknown";
      var head := date + "_" + algorithm + "_" + features +
                  (if cfg.metric.Given? then "_" + MetricTag(cfg.metric.value) else "") + "_" + particle;
      GenerateJobName(date, cfg, particleMatch, energyMatch) ==
        Success(if energyMatch.Some? && |energyMatch.value| > 0 then head + "_" + energyMatch.value else head)
  {
    var algorithm := (if cfg.algorithm.Some? then cfg.algorithm.value else "unknown") +
                     AlgorithmParamsPart(cfg.algorithmParams).value;
    var features := SimplifyFeaturesSpec(if cfg.posFeatures.Some? then cfg.posFeatures.value else []);
    var metricInfo := MetricPart(cfg.metric);
    var particle := if particleMatch.Some? then particleMatch.value else "unknown";
    var tag := if |metricInfo| > 0 then Some(metricInfo[1..]) else None;
    var energy := if energyMatch.Some? && |energyMatch.value| > 0 then energyMatch else None;
    assert tag.Some? ==> tag.value == MetricTag(cfg.metric.value);
    JoinJobParts(date, algorithm, features, tag, particle, energy);
  }
}
