/**
 * The name of the edge-index file the generator writes next to its input:
 * the input's stem, the algorithm, its parameters in key order, the position
 * features, the metric and the node-selection bounds, then ".h5".
 */
module OutputFilename {
  import opened Wrappers
  import opened Text

  /** A YAML mapping in its insertion order; a Python dict never repeats a key. */
  type Items = seq<(string, Value)>

  predicate DistinctKeys(items: Items) {
    forall i, j :: 0 <= i < j < |items| ==> items[i].0 != items[j].0
  }

  predicate SortedItems(items: Items) {
    forall i, j :: 0 <= i < j < |items| ==> Less(items[i].0, items[j].0)
  }

  /** One value of the node_selection mapping. */
  datatype Entry = CutEntry(cut: map<string, Value>) | ScalarEntry(v: Value) | NullEntry

  /** The node_selection value: a mapping, or a list (its entries do not matter here). */
  datatype RawSelection = SelectionDict(entries: map<string, Entry>) | SelectionList(size: nat)

  /** A key-sorted list stays sorted behind a head whose key is below all of its keys. */
  lemma ConsSortedItems(h: (string, Value), items: Items)
    requires SortedItems(items) && forall y | y in items :: Less(h.0, y.0)
    ensures SortedItems([h] + items)
  {
    var r := [h] + items;
    forall i, j | 0 <= i < j < |r| ensures Less(r[i].0, r[j].0) {
      assert r[j] == items[j - 1];
      if i > 0 { assert r[i] == items[i - 1]; }
    }
  }

  /** A key below the first key of a sorted list is below all of them. */
  lemma BelowHead(items: Items, x: (string, Value))
    requires SortedItems(items) && |items| > 0 && Less(x.0, items[0].0)
    ensures forall y | y in items :: Less(x.0, y.0)
  {
    forall y | y in items ensures Less(x.0, y.0) {
      if y != items[0] {
        var t :| 0 <= t < |items| && items[t] == y;
        LessTransitive(x.0, items[0].0, y.0);
      }
    }
  }

  /** The tail of a sorted list is sorted, and its keys are those of the list. */
  lemma SortedRest(items: Items)
    requires SortedItems(items) && |items| > 0
    ensures SortedItems(items[1..]) && forall y | y in items[1..] :: y in items
  {
    var tail := items[1..];
    forall i, j | 0 <= i < j < |tail| ensures Less(tail[i].0, tail[j].0) {
      assert tail[i] == items[i + 1] && tail[j] == items[j + 1];
    }
  }

  /** The first key of a sorted list is below every key of its tail with x added. */
  lemma HeadBelowRest(items: Items, x: (string, Value), rest: Items)
    requires SortedItems(items) && |items| > 0 && Less(items[0].0, x.0)
    requires multiset(rest) == multiset(items[1..]) + multiset{x}
    ensures forall y | y in rest :: Less(items[0].0, y.0)
  {
    forall y | y in rest ensures Less(items[0].0, y.0) {
      assert y in multiset(rest);
      if y != x {
        assert y in multiset(items[1..]);
        var t :| 0 <= t < |items[1..]| && items[1..][t] == y;
        assert items[t + 1] == y;
      }
    }
  }

  /** Insert an item with a new key into a key-sorted list. */
  function InsertItem(items: Items, x: (string, Value)): (r: Items)
    requires SortedItems(items) && forall y | y in items :: y.0 != x.0
    ensures SortedItems(r) && |r| == |items| + 1
    ensures multiset(r) == multiset(items) + multiset{x}
    decreases |items|
  {
    if |items| == 0 then [x]
    else if Less(x.0, items[0].0) then
      BelowHead(items, x);
      ConsSortedItems(x, items);
      [x] + items
    else
      SortedRest(items);
      var rest := InsertItem(items[1..], x);
      LessTotal(x.0, items[0].0);
      HeadBelowRest(items, x, rest);
      ConsSortedItems(items[0], rest);
      assert items == [items[0]] + items[1..];
      [items[0]] + rest
  }

  /** The list without its last item keeps distinct keys, none of them the last key. */
  lemma InitKeys(items: Items)
    requires DistinctKeys(items) && |items| > 0
    ensures var init := items[..|items| - 1];
      DistinctKeys(init) && forall y | y in init :: y.0 != items[|items| - 1].0
  {
    var init := items[..|items| - 1];
    forall i, j | 0 <= i < j < |init| ensures init[i].0 != init[j].0 {
      assert init[i] == items[i] && init[j] == items[j];
    }
    forall y | y in init ensures y.0 != items[|items| - 1].0 {
      var t :| 0 <= t < |init| && init[t] == y;
      assert items[t] == y;
    }
  }

  /** Items equal as multisets have the same members. */
  lemma SameMembers(a: Items, b: Items)
    requires multiset(a) == multiset(b)
    ensures forall y :: y in a <==> y in b
  {
    forall y ensures y in a <==> y in b {
      assert y in a <==> y in multiset(a);
      assert y in b <==> y in multiset(b);
    }
  }

  /** `sorted(params.items())`: keys are distinct, so items are ordered by key alone. */
  function SortItems(items: Items): (r: Items)
    requires DistinctKeys(items)
    ensures SortedItems(r) && |r| == |items|
    ensures multiset(r) == multiset(items)
    decreases |items|
  {
    if |items| == 0 then []
    else
      var init := items[..|items| - 1];
      var last := items[|items| - 1];
      InitKeys(items);
      var sorted := SortItems(init);
      SameMembers(sorted, init);
      assert items == init + [last];
      InsertItem(sorted, last)
  }

  lemma SortedTail(a: Items)
    requires SortedItems(a) && |a| > 0
    ensures SortedItems(a[1..])
    ensures multiset(a[1..]) == multiset(a) - multiset{a[0]}
  {
    assert a == [a[0]] + a[1..];
    assert multiset(a) == multiset{a[0]} + multiset(a[1..]);
    forall s, t | 0 <= s < t < |a[1..]| ensures Less(a[1..][s].0, a[1..][t].0) {
      assert a[1..][s] == a[s + 1] && a[1..][t] == a[t + 1];
    }
  }

  /** Two key-sorted lists of the same items start with the same item. */
  lemma SortedHeads(a: Items, b: Items)
    requires SortedItems(a) && SortedItems(b) && multiset(a) == multiset(b) && |a| > 0 && |b| > 0
    ensures a[0] == b[0]
  {
    assert a[0] in multiset(b) && b[0] in multiset(a);
    var i :| 0 <= i < |a| && a[i] == b[0];
    var j :| 0 <= j < |b| && b[j] == a[0];
    LessAsymmetric(a[0].0, b[0].0);
  }

  /** Two key-sorted lists of the same items are the same list. */
  lemma {:induction false} SortedItemsUnique(a: Items, b: Items)
    requires SortedItems(a) && SortedItems(b) && multiset(a) == multiset(b)
    ensures a == b
    decreases |a|
  {
    assert |a| == |multiset(a)| == |multiset(b)| == |b|;
    if |a| > 0 {
      SortedHeads(a, b);
      SortedTail(a);
      SortedTail(b);
      SortedItemsUnique(a[1..], b[1..]);
      assert a == [a[0]] + a[1..] && b == [b[0]] + b[1..];
    }
  }

  /** `int(value)` for an integral float, the value itself otherwise, as f-strings print them. */
  function Render(v: Value): string {
    if IsWholeFloat(v) then IntToString(v.f.Floor) else Str(v)
  }

  /** `f"_{key}{value_str}"` for each item in turn. */
  function ParamsPart(items: Items): string
    decreases |items|
  {
    if |items| == 0 then ""
    else ParamsPart(items[..|items| - 1]) + "_" + items[|items| - 1].0 + Render(items[|items| - 1].1)
  }

  /** The features written one after the other. */
  function Concat(parts: seq<string>): string
    decreases |parts|
  {
    if |parts| == 0 then "" else Concat(parts[..|parts| - 1]) + parts[|parts| - 1]
  }

  const DefaultFeatures: seq<string> := ["x", "y", "z"]

  /**
   * A truthy scalar cut raises, at `'min' in cut` or at `cut['min']`, unless
   * it is text in which neither "min" nor "max" occurs.
   */
  predicate ScalarCutRaises(v: Value) {
    Truthy(v) && !(v.TextValue? && !Contains(v.s, "min") && !Contains(v.s, "max"))
  }

  /**
   * The "_tmin.._tmax.." (or q) tags of one cut: a mapping contributes the
   * bounds it has, min before max; an absent, null, empty or falsy cut adds
   * nothing; a scalar that cannot be searched or indexed raises.
   */
  function CutTags(entries: map<string, Entry>, key: string, tag: string): (r: Result<string, Error>)
    ensures r.Failure? <==> key in entries && entries[key].ScalarEntry? && ScalarCutRaises(entries[key].v)
    ensures r.Failure? ==> r.error == NotADictionary(key)
    ensures (key !in entries || entries[key].NullEntry? || (entries[key].CutEntry? && |entries[key].cut| == 0) ||
             (entries[key].ScalarEntry? && !ScalarCutRaises(entries[key].v))) ==> r == Success("")
    ensures key in entries && entries[key].CutEntry? && |entries[key].cut| > 0 ==>
      var c := entries[key].cut;
      r == Success((if "min" in c then "_" + tag + "min" + Str(c["min"]) else "") +
                   (if "max" in c then "_" + tag + "max" + Str(c["max"]) else ""))
  {
    if key !in entries then Success("")
    else
      match entries[key]
      case NullEntry => Success("")
      case ScalarEntry(v) =>
        if !Truthy(v) then Success("")
        else if v.TextValue? && !Contains(v.s, "min") && !Contains(v.s, "max") then Success("")
        else Failure(NotADictionary(key))
      case CutEntry(c) =>
        if |c| == 0 then Success("")
        else Success((if "min" in c then "_" + tag + "min" + Str(c["min"]) else "") +
                     (if "max" in c then "_" + tag + "max" + Str(c["max"]) else ""))
  }

  /**
   * The node-selection part: "_nodesel" and the cut tags for a non-empty
   * mapping, nothing for an absent, null or empty selection; a non-empty list
   * has no `.get`, and a cut that raises ends the naming.
   */
  function SelectionPart(selection: Option<RawSelection>): (r: Result<string, Error>)
    ensures r.Failure? <==> (selection.Some? &&
      ((selection.value.SelectionList? && selection.value.size > 0) ||
       (selection.value.SelectionDict? && |selection.value.entries| > 0 &&
        (CutTags(selection.value.entries, "time_cut", "t").Failure? ||
         CutTags(selection.value.entries, "charge_cut", "q").Failure?))))
    ensures r.Failure? ==> r.error in {NotADictionary("node_selection"), NotADictionary("time_cut"), NotADictionary("charge_cut")}
    ensures r.Success? ==> (r.value != "" <==> selection.Some? && selection.value.SelectionDict? && |selection.value.entries| > 0)
    ensures r.Success? && r.value != "" ==> StartsWith(r.value, "_nodesel")
  {
    if selection.None? then Success("")
    else
      match selection.value
      case SelectionList(size) => if size == 0 then Success("") else Failure(NotADictionary("node_selection"))
      case SelectionDict(entries) =>
        if |entries| == 0 then Success("")
        else
          var time :- CutTags(entries, "time_cut", "t");
          var charge :- CutTags(entries, "charge_cut", "q");
          assert ("_nodesel" + time + charge)[..8] == "_nodesel";
          Success("_nodesel" + time + charge)
  }

  /**
   * `_generate_output_filename`. None stands for a key that is absent (or,
   * for the parameters and the selection, null); absent features default to
   * x, y, z.
   */
  function FilenameSpec(stem: string, algorithm: string, algorithmParams: Option<Items>,
                        posFeatures: Option<seq<string>>, metric: Option<string>,
                        selection: Option<RawSelection>): (r: Result<string, Error>)
    requires algorithmParams.Some? ==> DistinctKeys(algorithmParams.value)
    ensures r.Failure? <==> SelectionPart(selection).Failure?
  {
    var params := if algorithmParams.Some? then ParamsPart(SortItems(algorithmParams.value)) else "";
    var features := if posFeatures.Some? then posFeatures.value else DefaultFeatures;
    var featurePart := if |features| > 0 then "_posfeat_" + Concat(features) else "";
    var metricPart := if metric.Some? && |metric.value| > 0 then "_" + metric.value else "";
    var selectionPart :- SelectionPart(selection);
    var configName := "edges_" + algorithm + params + featurePart + metricPart + selectionPart;
    Success(stem + "_" + configName + ".h5")
  }

  /** The loop over the sorted parameters. */
  method ParamsLoop(sorted: Items) returns (part: string)
    ensures part == ParamsPart(sorted)
  {
    part := "";
    for i := 0 to |sorted|
      invariant part == ParamsPart(sorted[..i])
    {
      assert sorted[..i + 1][..i] == sorted[..i];
      part := part + "_" + sorted[i].0 + Render(sorted[i].1);
    }
    assert sorted[..|sorted|] == sorted;
  }

  /** The loop over the position features. */
  method FeaturesLoop(features: seq<string>) returns (part: string)
    ensures part == "_posfeat_" + Concat(features)
  {
    part := "_posfeat_";
    for i := 0 to |features|
      invariant part == "_posfeat_" + Concat(features[..i])
    {
      assert features[..i + 1][..i] == features[..i];
      part := part + features[i];
    }
    assert features[..|features|] == features;
  }

  /** The method as written: config_name grows with `+=` in two loops and a chain of conditions. */
  method GenerateOutputFilename(stem: string, algorithm: string, algorithmParams: Option<Items>,
                                posFeatures: Option<seq<string>>, metric: Option<string>,
                                selection: Option<RawSelection>)
    returns (r: Result<string, Error>)
    requires algorithmParams.Some? ==> DistinctKeys(algorithmParams.value)
    ensures r == FilenameSpec(stem, algorithm, algorithmParams, posFeatures, metric, selection)
  {
    var configName := "edges_" + algorithm;
    var params := "";
    if algorithmParams.Some? {
      params := ParamsLoop(SortItems(algorithmParams.value));
    }
    configName := configName + params;
    var features := if posFeatures.Some? then posFeatures.value else DefaultFeatures;
    var featurePart := "";
    if |features| > 0 {
      featurePart := FeaturesLoop(features);
    }
    configName := configName + featurePart;
    var metricPart := "";
    if metric.Some? && |metric.value| > 0 {
      metricPart := "_" + metric.value;
    }
    configName := configName + metricPart;
    var selectionPart := SelectionPart(selection);
    if selectionPart.Failure? {
      return Failure(selectionPart.error);
    }
    configName := configName + selectionPart.value;
    r := Success(stem + "_" + configName + ".h5");
  }

  /** The name depends on which parameters are set, not on the order they were written in. */
  lemma ParamsOrderIrrelevant(stem: string, algorithm: string, p: Items, q: Items,
                              posFeatures: Option<seq<string>>, metric: Option<string>,
                              selection: Option<RawSelection>)
    requires DistinctKeys(p) && DistinctKeys(q) && multiset(p) == multiset(q)
    ensures FilenameSpec(stem, algorithm, Some(p), posFeatures, metric, selection) ==
            FilenameSpec(stem, algorithm, Some(q), posFeatures, metric, selection)
  {
    SortedItemsUnique(SortItems(p), SortItems(q));
  }

  /** The name starts with "<stem>_edges_<algorithm>" and ends with ".h5". */
  lemma FilenameShape(stem: string, algorithm: string, algorithmParams: Option<Items>,
                      posFeatures: Option<seq<string>>, metric: Option<string>,
                      selection: Option<RawSelection>)
    requires algorithmParams.Some? ==> DistinctKeys(algorithmParams.value)
    requires FilenameSpec(stem, algorithm, algorithmParams, posFeatures, metric, selection).Success?
    ensures var name := FilenameSpec(stem, algorithm, algorithmParams, posFeatures, metric, selection).value;
      StartsWith(name, stem + "_edges_" + algorithm) && |name| >= 3 && name[|name| - 3..] == ".h5"
  {
    var name := FilenameSpec(stem, algorithm, algorithmParams, posFeatures, metric, selection).value;
    var head := stem + "_edges_" + algorithm;
    assert name[..|head|] == head;
  }

  /** An integral float parameter is printed like an int: k = 8.0 gives "_k8". */
  lemma WholeFloatPrintsAsInt()
    ensures ParamsPart([("k", FloatValue(8.0, "8.0"))]) == "_k8"
    ensures ParamsPart([("r", FloatValue(0.5, "0.5"))]) == "_r0.5"
  {
    assert [("k", FloatValue(8.0, "8.0"))][..0] == [];
    assert [("r", FloatValue(0.5, "0.5"))][..0] == [];
    assert IntToString(8) == "8";
  }

  /** A node-selection list has no `.get`, so naming fails. */
  lemma SelectionListRaises(size: nat)
    requires size > 0
    ensures SelectionPart(Some(SelectionList(size))).Failure?
  {
  }

  /** The bounds are tagged in the order tmin, tmax, qmin, qmax. */
  lemma SelectionTags(tmin: Value, tmax: Value, qmin: Value, qmax: Value)
    ensures var entries := map["time_cut" := CutEntry(map["min" := tmin, "max" := tmax]),
                               "charge_cut" := CutEntry(map["min" := qmin, "max" := qmax])];
      SelectionPart(Some(SelectionDict(entries))) ==
        Success("_nodesel" + ("_tmin" + Str(tmin) + ("_tmax" + Str(tmax))) + ("_qmin" + Str(qmin) + ("_qmax" + Str(qmax))))
  {
    var entries := map["time_cut" := CutEntry(map["min" := tmin, "max" := tmax]),
                       "charge_cut" := CutEntry(map["min" := qmin, "max" := qmax])];
    assert "time_cut" in entries && "charge_cut" in entries;
    assert |map["min" := tmin, "max" := tmax]| > 0 by { assert "min" in map["min" := tmin, "max" := tmax]; }
    assert |map["min" := qmin, "max" := qmax]| > 0 by { assert "min" in map["min" := qmin, "max" := qmax]; }
    assert |entries| > 0 by { assert "time_cut" in entries; }
    assert "_" + "t" + "min" == "_tmin" && "_" + "t" + "max" == "_tmax";
    assert "_" + "q" + "min" == "_qmin" && "_" + "q" + "max" == "_qmax";
  }

  /** The default features give "_posfeat_xyz". */
  lemma DefaultFeaturesPart()
    ensures Concat(DefaultFeatures) == "xyz"
  {
    assert DefaultFeatures[..2] == ["x", "y"];
    assert DefaultFeatures[..2][..1] == ["x"];
    assert DefaultFeatures[..2][..1][..0] == [];
    assert Concat(["x"]) == "x";
    assert Concat(["x", "y"]) == "xy";
  }
}
