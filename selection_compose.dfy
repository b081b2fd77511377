/**
 * SelectionCompose: AND together the keep-masks of an ordered list of
 * selection predicates, each evaluated on the original event group, and keep
 * the last combined mask in a field.
 */
module SelectionCompose {
  import opened Wrappers
  import opened Masks
  import NS = NodeSelection

  /** An HDF5 event group: named per-hit signal arrays. */
  type Event = map<string, seq<real>>

  /**
   * What SelectionCompose asks of a selection. `check` is None when the
   * selection has no check_data_requirements method; `getMask` is None where
   * get_mask raises.
   */
  datatype Predicate = Predicate(check: Option<Event -> bool>, getMask: Event -> Option<seq<bool>>)

  /**
   * The interval formula of NodeSelection as a get_mask over an event group:
   * it reads the "time" and "charge" arrays, and fails when one is missing or
   * their lengths differ.
   */
  function ThresholdMask(sel: NS.NodeSelection, e: Event): (r: Option<seq<bool>>)
    ensures r.Some? <==> "time" in e && "charge" in e && |e["time"]| == |e["charge"]|
    ensures r.Some? ==>
      (|r.value| == |e["time"]| &&
       forall i :: 0 <= i < |r.value| ==> (r.value[i] <==> NS.Keeps(sel, e["time"][i], e["charge"][i])))
  {
    if "time" in e && "charge" in e && |e["time"]| == |e["charge"]| then Some(NS.Mask(sel, e["time"], e["charge"]))
    else None
  }

  /** NodeSelection as a predicate; it has no check_data_requirements. */
  function ThresholdPredicate(sel: NS.NodeSelection): Predicate {
    Predicate(None, e => ThresholdMask(sel, e))
  }

  /** The mask of p on e exists and has one entry per node. */
  predicate MaskFits(p: Predicate, e: Event, n: nat) {
    p.getMask(e).Some? && |p.getMask(e).value| == n
  }

  /** Every predicate that exposes a requirement check accepts e. */
  predicate RequirementsMet(preds: seq<Predicate>, e: Event) {
    PrefixRequirementsMet(preds, e, |preds|)
  }

  predicate PrefixRequirementsMet(preds: seq<Predicate>, e: Event, j: nat)
    requires j <= |preds|
  {
    forall i :: 0 <= i < j && preds[i].check.Some? ==> preds[i].check.value(e)
  }

  /**
   * get_combined_mask as a value, folding the predicates left to right. None
   * when some get_mask raises or returns a mask whose length is not n.
   */
  function CombinedMask(preds: seq<Predicate>, e: Event, n: nat): (r: Option<seq<bool>>)
    ensures r.Some? ==> |r.value| == n
    decreases |preds|
  {
    if |preds| == 0 then Some(AllTrue(n))
    else
      match CombinedMask(preds[..|preds| - 1], e, n)
      case None => None
      case Some(acc) =>
        var last := preds[|preds| - 1];
        if MaskFits(last, e, n) then Some(And(acc, last.getMask(e).value)) else None
  }

  /**
   * The combined mask exists exactly when every predicate's mask does and has
   * length n, and then its i-th entry is the AND of the i-th entries of all of
   * them.
   */
  lemma {:induction false} CombinedMaskMeaning(preds: seq<Predicate>, e: Event, n: nat)
    ensures CombinedMask(preds, e, n).Some? <==> forall p | p in preds :: MaskFits(p, e, n)
    ensures CombinedMask(preds, e, n).Some? ==>
      forall i :: 0 <= i < n ==>
        (CombinedMask(preds, e, n).value[i] <==> forall p | p in preds :: p.getMask(e).value[i])
    decreases |preds|
  {
    if |preds| > 0 {
      var init := preds[..|preds| - 1];
      var last := preds[|preds| - 1];
      CombinedMaskMeaning(init, e, n);
      assert preds == init + [last];
      assert forall p :: p in preds <==> p in init || p == last;
    }
  }

  /** With no selection the combined mask keeps every node. */
  lemma EmptyComposeKeepsAll(e: Event, n: nat)
    ensures CombinedMask([], e, n) == Some(AllTrue(n))
  {
  }

  /** The combined mask of two predicates is the elementwise AND of their masks. */
  lemma TwoPredicates(p1: Predicate, p2: Predicate, e: Event, n: nat)
    requires MaskFits(p1, e, n) && MaskFits(p2, e, n)
    ensures CombinedMask([p1, p2], e, n) == Some(And(p1.getMask(e).value, p2.getMask(e).value))
  {
    assert [p1, p2][..1] == [p1];
    assert [p1][..0] == [];
    assert And(AllTrue(n), p1.getMask(e).value) == p1.getMask(e).value;
    assert CombinedMask([p1], e, n) == Some(p1.getMask(e).value);
  }

  /** The order of the predicates does not matter: any permutation gives the same mask, or the same failure. */
  lemma PermutationInvariant(preds: seq<Predicate>, other: seq<Predicate>, e: Event, n: nat)
    requires multiset(preds) == multiset(other)
    ensures CombinedMask(preds, e, n) == CombinedMask(other, e, n)
  {
    assert forall p :: p in preds <==> p in other by {
      forall p ensures p in preds <==> p in other {
        assert p in preds <==> p in multiset(preds);
        assert p in other <==> p in multiset(other);
      }
    }
    CombinedMaskMeaning(preds, e, n);
    CombinedMaskMeaning(other, e, n);
    if CombinedMask(preds, e, n).Some? {
      assert CombinedMask(preds, e, n).value == CombinedMask(other, e, n).value;
    }
  }

  class SelectionCompose {
    const selections: seq<Predicate>
    /** The mask of the last successful get_combined_mask; None before any call. */
    var lastMask: Option<seq<bool>>

    constructor (selections: seq<Predicate>)
      ensures this.selections == selections && lastMask == None
    {
      this.selections := selections;
      lastMask := None;
    }

    /**
     * check_data_requirements: False as soon as one selection that has a
     * requirement check rejects e; selections without a check are skipped.
     */
    method CheckDataRequirements(e: Event) returns (ok: bool)
      ensures ok == RequirementsMet(selections, e)
    {
      for j := 0 to |selections|
        invariant PrefixRequirementsMet(selections, e, j)
      {
        var check := selections[j].check;
        if check.Some? && !check.value(e) {
          return false;
        }
      }
      return true;
    }

    /**
     * get_combined_mask: start from all true and AND in each selection's mask
     * of the original event, in place; on success record the mask in lastMask.
     * A failing get_mask leaves lastMask as it was.
     */
    method GetCombinedMask(e: Event, n: nat) returns (r: Option<seq<bool>>)
      modifies this`lastMask
      ensures r == CombinedMask(selections, e, n)
      ensures lastMask == if r.Some? then r else old(lastMask)
    {
      var cumulative := new bool[n](_ => true);
      assert selections[..0] == [];
      assert cumulative[..] == AllTrue(n);
      for j := 0 to |selections|
        invariant CombinedMask(selections[..j], e, n) == Some(cumulative[..])
        invariant lastMask == old(lastMask)
      {
        var m := selections[j].getMask(e);
        assert selections[..j + 1][..j] == selections[..j];
        assert selections[..j + 1][j] == selections[j];
        if m.None? || |m.value| != n {
          assert CombinedMask(selections[..j + 1], e, n) == None;
          PrefixFailureSticks(selections, e, n, j + 1);
          return None;
        }
        ghost var before := cumulative[..];
        for i := 0 to n
          modifies cumulative
          invariant forall t :: 0 <= t < i ==> cumulative[t] == (before[t] && m.value[t])
          invariant forall t :: i <= t < n ==> cumulative[t] == before[t]
        {
          cumulative[i] := cumulative[i] && m.value[i];
        }
        assert cumulative[..] == And(before, m.value);
      }
      assert selections[..|selections|] == selections;
      r := Some(cumulative[..]);
      lastMask := r;
    }

    /**
     * `__call__`: compute the combined mask of the original event for
     * |coordinates| nodes and return the rows it keeps, in order.
     */
    method Call<T>(coordinates: seq<T>, e: Event) returns (r: Option<seq<T>>)
      modifies this`lastMask
      ensures var m := CombinedMask(selections, e, |coordinates|);
        r == (if m.Some? then Some(Filter(coordinates, m.value)) else None) &&
        lastMask == (if m.Some? then m else old(lastMask))
      ensures r.Some? ==> |r.value| == CountTrue(lastMask.value) <= |coordinates|
    {
      var mask := GetCombinedMask(e, |coordinates|);
      if mask.None? {
        return None;
      }
      r := Some(Filter(coordinates, mask.value));
    }
  }

  /** Once a prefix of the predicates fails, every longer prefix fails. */
  lemma {:induction false} PrefixFailureSticks(preds: seq<Predicate>, e: Event, n: nat, j: nat)
    requires j <= |preds| && CombinedMask(preds[..j], e, n).None?
    ensures CombinedMask(preds, e, n).None?
    decreases |preds| - j
  {
    if j < |preds| {
      assert preds[..j + 1][..j] == preds[..j];
      PrefixFailureSticks(preds, e, n, j + 1);
    } else {
      assert preds[..j] == preds;
    }
  }
}
