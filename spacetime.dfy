/**
 * The spacetime metric: from [N, 4] rows (x, y, z, t) to [N, 3] rows
 * spatial_weight * (x, y, z) + temporal_weight * c_water * t, where c_water
 * is the speed of light in water at 20 degrees Celsius in cm/ns. The
 * arithmetic is exact real arithmetic, not float64.
 */
module Spacetime {
  import opened Wrappers
  import opened Graph
  import opened Text

  /** In m/s. */
  const SpeedOfLight: real := 299792458.0
  /** Refractive index of pure water at 20 degrees Celsius. */
  const NPureWater: real := 1.3333
  /** SPEED_OF_LIGHT * (1e2 / 1e9) / N_PURE_WATER, in cm/ns. */
  const SpeedInWater: real := SpeedOfLight * (100.0 / 1000000000.0) / NPureWater

  /** The keyword parameters process_coords_spacetime accepts besides coords. */
  const Parameters: set<string> := {"spatial_weight", "temporal_weight"}

  /**
   * process_coords_spacetime: reject any width but 4; scale the time column
   * of a copy by SpeedInWater; combine the weighted spatial columns with the
   * weighted scaled time.
   */
  function ProcessCoordsSpacetime(coords: Matrix, spatialWeight: real, temporalWeight: real): (r: Result<Matrix, Error>)
    requires coords.Valid()
    ensures r.Success? <==> coords.width == 4
    ensures r.Failure? ==> r.error == DimensionMismatch(4, coords.width)
    ensures r.Success? ==> r.value.width == 3 && |r.value.rows| == |coords.rows| && r.value.Valid()
  {
    if coords.width != 4 then Failure(DimensionMismatch(4, coords.width))
    else
      var n := |coords.rows|;
      var copy := seq(n, i requires 0 <= i < n => coords.rows[i][..3] + [coords.rows[i][3] * SpeedInWater]);
      Success(Matrix(3, seq(n, i requires 0 <= i < n =>
        seq(3, j requires 0 <= j < 3 => spatialWeight * copy[i][j] + temporalWeight * copy[i][3]))))
  }

  /** Every output entry is the weighted spatial coordinate plus the weighted time converted to a length. */
  lemma SpacetimeEntries(coords: Matrix, spatialWeight: real, temporalWeight: real)
    requires coords.Valid() && coords.width == 4
    ensures var out := ProcessCoordsSpacetime(coords, spatialWeight, temporalWeight).value.rows;
      forall i, j :: 0 <= i < |coords.rows| && 0 <= j < 3 ==>
        out[i][j] == spatialWeight * coords.rows[i][j] + temporalWeight * SpeedInWater * coords.rows[i][3]
  {
  }

  /** With temporal_weight 0 the metric is the scaled spatial part alone. */
  lemma NoTemporalWeight(coords: Matrix, spatialWeight: real)
    requires coords.Valid() && coords.width == 4
    ensures var out := ProcessCoordsSpacetime(coords, spatialWeight, 0.0).value.rows;
      forall i, j :: 0 <= i < |coords.rows| && 0 <= j < 3 ==> out[i][j] == spatialWeight * coords.rows[i][j]
  {
    SpacetimeEntries(coords, spatialWeight, 0.0);
  }

  /** coords with every time shifted by delta. */
  function ShiftTimes(coords: Matrix, delta: real): (r: Matrix)
    requires coords.Valid() && coords.width == 4
    ensures r.Valid() && r.width == 4 && |r.rows| == |coords.rows|
  {
    Matrix(4, seq(|coords.rows|, i requires 0 <= i < |coords.rows| => coords.rows[i][..3] + [coords.rows[i][3] + delta]))
  }

  /**
   * Shifting every hit time by delta moves every output point by the same
   * amount temporal_weight * c_water * delta along each axis, so pairwise
   * differences, and the graph built on them, do not change.
   */
  lemma TimeShift(coords: Matrix, spatialWeight: real, temporalWeight: real, delta: real)
    requires coords.Valid() && coords.width == 4
    ensures var a := ProcessCoordsSpacetime(coords, spatialWeight, temporalWeight).value.rows;
      var b := ProcessCoordsSpacetime(ShiftTimes(coords, delta), spatialWeight, temporalWeight).value.rows;
      |a| == |b| &&
      forall i, j :: 0 <= i < |a| && 0 <= j < 3 ==> b[i][j] == a[i][j] + temporalWeight * SpeedInWater * delta
  {
    var shifted := ShiftTimes(coords, delta);
    SpacetimeEntries(coords, spatialWeight, temporalWeight);
    SpacetimeEntries(shifted, spatialWeight, temporalWeight);
    forall i, j | 0 <= i < |coords.rows| && 0 <= j < 3
      ensures shifted.rows[i][j] == coords.rows[i][j] && shifted.rows[i][3] == coords.rows[i][3] + delta
    {
    }
  }

  /** The numeric value numpy multiplies by: ints and bools as numbers, strings refused. */
  function Number(v: Value): Option<real> {
    match v
    case IntValue(i) => Some(i as real)
    case FloatValue(f, _) => Some(f)
    case BoolValue(b) => Some(if b then 1.0 else 0.0)
    case TextValue(_) => None
  }

  /**
   * `process_coords_spacetime(coords, **params)`: keywords other than the two
   * weights raise before the body runs; the weights default to 1.0; the width
   * check comes before a weight that is not a number is multiplied.
   */
  function ProcessWithParams(coords: Matrix, params: map<string, Value>): (r: Result<Matrix, Error>)
    requires coords.Valid()
    ensures !(params.Keys <= Parameters) ==> r == Failure(UnexpectedKeywords(params.Keys - Parameters))
    ensures params.Keys <= Parameters && coords.width != 4 ==> r == Failure(DimensionMismatch(4, coords.width))
    ensures params == map[] ==> r == ProcessCoordsSpacetime(coords, 1.0, 1.0)
    ensures r.Success? ==> r.value.Valid() && r.value.width == 3 && |r.value.rows| == |coords.rows|
  {
    if !(params.Keys <= Parameters) then Failure(UnexpectedKeywords(params.Keys - Parameters))
    else if coords.width != 4 then Failure(DimensionMismatch(4, coords.width))
    else
      var spatial := if "spatial_weight" in params then Number(params["spatial_weight"]) else Some(1.0);
      var temporal := if "temporal_weight" in params then Number(params["temporal_weight"]) else Some(1.0);
      if spatial.None? then Failure(BadArgument("spatial_weight"))
      else if temporal.None? then Failure(BadArgument("temporal_weight"))
      else ProcessCoordsSpacetime(coords, spatial.value, temporal.value)
  }
}
