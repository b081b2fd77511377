/**
 * NodeSelection: keep the hits whose time and charge lie inside closed
 * [min, max] cuts. The mask starts all true and is narrowed in place once per
 * bound that is present.
 */
module NodeSelection {
  import opened Wrappers
  import opened Masks

  /** A cut dictionary `{'min': .., 'max': ..}`; either key may be missing. */
  datatype Cut = Cut(min: Option<real>, max: Option<real>)

  /** NodeSelection(time_cut, charge_cut); an absent cut is None. */
  datatype NodeSelection = NodeSelection(timeCut: Option<Cut>, chargeCut: Option<Cut>)

  /** v passes every bound present in cut; both bounds are inclusive. */
  predicate WithinCut(cut: Option<Cut>, v: real) {
    cut.None? ||
    ((cut.value.min.None? || v >= cut.value.min.value) &&
     (cut.value.max.None? || v <= cut.value.max.value))
  }

  /** A hit with time t and charge q survives the selection. */
  predicate Keeps(sel: NodeSelection, t: real, q: real) {
    WithinCut(sel.timeCut, t) && WithinCut(sel.chargeCut, q)
  }

  /** The keep-mask of a hit list, as a value. */
  function Mask(sel: NodeSelection, time: seq<real>, charge: seq<real>): (m: seq<bool>)
    requires |time| == |charge|
    ensures |m| == |time|
  {
    seq(|time|, i requires 0 <= i < |time| => Keeps(sel, time[i], charge[i]))
  }

  /** `mask &= (values >= bound)` when isMin, `mask &= (values <= bound)` otherwise. */
  method Narrow(mask: array<bool>, values: seq<real>, bound: real, isMin: bool)
    requires mask.Length == |values|
    modifies mask
    ensures forall i :: 0 <= i < mask.Length ==>
      mask[i] == (old(mask[i]) && (if isMin then values[i] >= bound else values[i] <= bound))
  {
    for i := 0 to mask.Length
      invariant forall j :: 0 <= j < i ==>
        mask[j] == (old(mask[j]) && (if isMin then values[j] >= bound else values[j] <= bound))
      invariant forall j :: i <= j < mask.Length ==> mask[j] == old(mask[j])
    {
      mask[i] := mask[i] && (if isMin then values[i] >= bound else values[i] <= bound);
    }
  }

  /** Narrow mask by every bound present in cut. */
  method NarrowByCut(mask: array<bool>, values: seq<real>, cut: Option<Cut>)
    requires mask.Length == |values|
    modifies mask
    ensures forall i :: 0 <= i < mask.Length ==> mask[i] == (old(mask[i]) && WithinCut(cut, values[i]))
  {
    if cut.Some? {
      if cut.value.min.Some? {
        Narrow(mask, values, cut.value.min.value, true);
      }
      if cut.value.max.Some? {
        Narrow(mask, values, cut.value.max.value, false);
      }
    }
  }

  /**
   * apply_selection: the coordinates rows whose hit passes the time cut and the
   * charge cut, in their original order.
   */
  method ApplySelection<T>(sel: NodeSelection, coordinates: seq<T>, time: seq<real>, charge: seq<real>)
    returns (r: seq<T>)
    requires |time| == |coordinates| && |charge| == |coordinates|
    ensures r == Filter(coordinates, Mask(sel, time, charge))
  {
    var mask := new bool[|coordinates|](_ => true);
    NarrowByCut(mask, time, sel.timeCut);
    NarrowByCut(mask, charge, sel.chargeCut);
    assert mask[..] == Mask(sel, time, charge);
    r := Filter(coordinates, mask[..]);
  }

  /** `__call__`, the alias of apply_selection. */
  method Call<T>(sel: NodeSelection, coordinates: seq<T>, time: seq<real>, charge: seq<real>)
    returns (r: seq<T>)
    requires |time| == |coordinates| && |charge| == |coordinates|
    ensures r == Filter(coordinates, Mask(sel, time, charge))
  {
    r := ApplySelection(sel, coordinates, time, charge);
  }

  /**
   * The selected rows are exactly the rows whose hit is kept: the k-th output
   * row is the row at the k-th kept position, and every kept row appears.
   */
  lemma SelectedRows<T>(sel: NodeSelection, coordinates: seq<T>, time: seq<real>, charge: seq<real>)
    requires |time| == |coordinates| && |charge| == |coordinates|
    ensures var out := Filter(coordinates, Mask(sel, time, charge));
      var pos := TruePositions(Mask(sel, time, charge));
      |out| <= |coordinates| && |pos| == |out| &&
      (forall k :: 0 <= k < |out| ==>
         out[k] == coordinates[pos[k]] && Keeps(sel, time[pos[k]], charge[pos[k]])) &&
      (forall i :: 0 <= i < |coordinates| && Keeps(sel, time[i], charge[i]) ==> coordinates[i] in out)
  {
    var m := Mask(sel, time, charge);
    forall k | 0 <= k < CountTrue(m) ensures Filter(coordinates, m)[k] == coordinates[TruePositions(m)[k]] {
      FilterAt(coordinates, m, k);
    }
    forall i | 0 <= i < |coordinates| && Keeps(sel, time[i], charge[i]) ensures coordinates[i] in Filter(coordinates, m) {
      FilterKeeps(coordinates, m, i);
    }
  }

  /** A selection that sets no bound (no cut, or cut dictionaries without keys) returns its input. */
  lemma NoBoundsKeepsAll<T>(sel: NodeSelection, coordinates: seq<T>, time: seq<real>, charge: seq<real>)
    requires |time| == |coordinates| && |charge| == |coordinates|
    requires sel.timeCut.None? || sel.timeCut.value == Cut(None, None)
    requires sel.chargeCut.None? || sel.chargeCut.value == Cut(None, None)
    ensures Filter(coordinates, Mask(sel, time, charge)) == coordinates
  {
    FilterAllTrue(coordinates, Mask(sel, time, charge));
  }

  /** Cut a is at least as strict as cut b: every bound of b is present in a and no looser. */
  predicate Tighter(a: Option<Cut>, b: Option<Cut>) {
    b.None? ||
    (a.Some? &&
     (b.value.min.Some? ==> a.value.min.Some? && a.value.min.value >= b.value.min.value) &&
     (b.value.max.Some? ==> a.value.max.Some? && a.value.max.value <= b.value.max.value))
  }

  /** Tightening the cuts never keeps a hit that the looser cuts drop, so it keeps at most as many. */
  lemma TighterKeepsFewer(a: NodeSelection, b: NodeSelection, time: seq<real>, charge: seq<real>)
    requires |time| == |charge|
    requires Tighter(a.timeCut, b.timeCut) && Tighter(a.chargeCut, b.chargeCut)
    ensures forall i :: 0 <= i < |time| && Mask(a, time, charge)[i] ==> Mask(b, time, charge)[i]
    ensures CountTrue(Mask(a, time, charge)) <= CountTrue(Mask(b, time, charge))
  {
    CountTrueMonotone(Mask(a, time, charge), Mask(b, time, charge));
  }

  /**
   * The repository's own check: with time in [200, 800] and charge in [5, 30]
   * the selection equals `coords[time_mask & charge_mask]`.
   */
  lemma SimpleFilteringFixture<T>(coords: seq<T>, time: seq<real>, charge: seq<real>)
    requires |time| == |coords| && |charge| == |coords|
    ensures var sel := NodeSelection(Some(Cut(Some(200.0), Some(800.0))), Some(Cut(Some(5.0), Some(30.0))));
      var timeMask := seq(|time|, i requires 0 <= i < |time| => time[i] >= 200.0 && time[i] <= 800.0);
      var chargeMask := seq(|charge|, i requires 0 <= i < |charge| => charge[i] >= 5.0 && charge[i] <= 30.0);
      Filter(coords, Mask(sel, time, charge)) == Filter(coords, And(timeMask, chargeMask))
  {
    var sel := NodeSelection(Some(Cut(Some(200.0), Some(800.0))), Some(Cut(Some(5.0), Some(30.0))));
    var timeMask := seq(|time|, i requires 0 <= i < |time| => time[i] >= 200.0 && time[i] <= 800.0);
    var chargeMask := seq(|charge|, i requires 0 <= i < |charge| => charge[i] >= 5.0 && charge[i] <= 30.0);
    assert Mask(sel, time, charge) == And(timeMask, chargeMask);
  }

  /** Times [100, 500, 900] under a [200, 800] time cut give the mask [False, True, False]. */
  lemma ThresholdExample(charge: seq<real>)
    requires |charge| == 3
    ensures Mask(NodeSelection(Some(Cut(Some(200.0), Some(800.0))), None), [100.0, 500.0, 900.0], charge)
      == [false, true, false]
  {
  }
}
