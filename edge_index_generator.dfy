/**
 * The edge-index generator's main loop in the two-file mode: validate the
 * configuration and the first event, record the configuration as file
 * attributes, then visit the events in ascending numeric order and, for each
 * one that is not already present (or when overwriting), stack its position
 * features, apply the node selection, build the edge index and replace the
 * event's edge and mask datasets.
 */
module EdgeIndexGenerator {
  import opened Wrappers
  import opened Graph
  import opened Text
  import opened Masks
  import opened H5Store
  import opened EventOrder
  import NS = NodeSelection
  import SC = SelectionCompose
  import EB = EdgeBuilder

  /** One entry of the node_selection configuration. */
  datatype SelectionConfig =
    | Fixed(timeCut: Option<NS.Cut>, chargeCut: Option<NS.Cut>)   // type 'fixed', the default
    | Percentile(selection: SC.Predicate)                         // PercentileTimeSelection, not part of this model

  function MakeSelection(c: SelectionConfig): SC.Predicate {
    match c
    case Fixed(timeCut, chargeCut) => SC.ThresholdPredicate(NS.NodeSelection(timeCut, chargeCut))
    case Percentile(p) => p
  }

  function Selections(cs: seq<SelectionConfig>): (r: seq<SC.Predicate>)
    ensures |r| == |cs|
  {
    seq(|cs|, i requires 0 <= i < |cs| => MakeSelection(cs[i]))
  }

  /**
   * The configuration the loop reads. The str() renderings of the
   * dictionaries and lists written as attributes are supplied as text.
   */
  datatype Config = Config(
    algorithm: string,
    metric: Option<string>,
    algorithmParams: Option<map<string, Value>>,
    metricParams: Option<map<string, Value>>,
    posFeatures: seq<string>,
    overwrite: bool,
    nodeSelection: Option<seq<SelectionConfig>>,
    algorithmParamsText: string,
    metricParamsText: string,
    posFeaturesText: string,
    nodeSelectionText: string)

  /** The input HDF5 file: its group names in iteration order, and the groups. */
  datatype DataFile = DataFile(names: seq<string>, groups: map<string, SC.Event>) {
    predicate Valid() {
      Distinct(names) && (forall n | n in names :: n in groups) && (forall n | n in groups :: n in names)
    }
  }

  /** `f"{event_name}_mask"`. */
  function MaskName(name: string): string {
    name + "_mask"
  }

  /** `mask.astype(np.uint8)`. */
  function Bits(mask: seq<bool>): (r: seq<int>)
    ensures |r| == |mask| && forall i :: 0 <= i < |r| ==> r[i] == (if mask[i] then 1 else 0)
  {
    seq(|mask|, i requires 0 <= i < |mask| => if mask[i] then 1 else 0)
  }

  /** The file attributes written before the loop. */
  function Attributes(cfg: Config): map<string, Attr> {
    map[
      "algorithm" := AttrText(cfg.algorithm),
      "metric" := AttrText(if cfg.metric.Some? then cfg.metric.value else "none"),
      "algorithm_params" := AttrText(cfg.algorithmParamsText),
      "metric_params" := AttrText(cfg.metricParamsText),
      "pos_features" := AttrText(cfg.posFeaturesText),
      "combine_files" := AttrFlag(false),
      "node_selection" := AttrText(if cfg.nodeSelection.Some? then cfg.nodeSelectionText else "none")]
  }

  /** The first feature the group lacks, in list order. */
  function FirstMissing(features: seq<string>, group: SC.Event): (r: Option<string>)
    ensures r.None? <==> forall f | f in features :: f in group
    ensures r.Some? ==> (exists i :: 0 <= i < |features| && r.value == features[i] && features[i] !in group &&
                                      forall j :: 0 <= j < i ==> features[j] in group)
    decreases |features|
  {
    if |features| == 0 then None
    else if features[0] !in group then Some(features[0])
    else
      var rest := FirstMissing(features[1..], group);
      assert forall f :: f in features <==> f == features[0] || f in features[1..];
      if rest.Some? then
        var i :| 0 <= i < |features[1..]| && rest.value == features[1..][i] && features[1..][i] !in group &&
          forall j :: 0 <= j < i ==> features[1..][j] in group;
        assert rest.value == features[i + 1] && forall j :: 0 <= j < i + 1 ==> features[j] in group;
        rest
      else rest
  }

  /** `[group[f][:] for f in features]`; a missing feature raises KeyError. */
  function Columns(features: seq<string>, group: SC.Event): (r: Result<seq<seq<real>>, Error>)
    ensures r.Success? ==> |r.value| == |features|
    ensures r.Success? ==> forall j :: 0 <= j < |features| ==> features[j] in group && r.value[j] == group[features[j]]
    ensures r.Failure? <==> FirstMissing(features, group).Some?
  {
    var missing := FirstMissing(features, group);
    if missing.Some? then Failure(MissingKey(missing.value))
    else Success(seq(|features|, j requires 0 <= j < |features| => assert features[j] in features; group[features[j]]))
  }

  /** `np.stack(columns, axis=1)`: one row per hit, one column per feature. */
  function Stack(columns: seq<seq<real>>): (r: Result<Matrix, Error>)
    ensures r.Success? ==> |columns| > 0 && r.value.Valid() && r.value.width == |columns| && |r.value.rows| == |columns[0]|
    ensures r.Success? ==> forall i, j :: 0 <= i < |r.value.rows| && 0 <= j < |columns| ==>
      |columns[j]| == |columns[0]| && r.value.rows[i][j] == columns[j][i]
    ensures r.Failure? ==> r.error == (if |columns| == 0 then NothingToStack else ShapeMismatch)
  {
    if |columns| == 0 then Failure(NothingToStack)
    else if exists j :: 0 <= j < |columns| && |columns[j]| != |columns[0]| then Failure(ShapeMismatch)
    else
      var n := |columns[0]|;
      Success(Matrix(|columns|, seq(n, i requires 0 <= i < n =>
        seq(|columns|, j requires 0 <= j < |columns| => columns[j][i]))))
  }

  /** What the loop needs besides the files. */
  datatype Context = Context(
    builder: EB.EdgeBuilder,
    oracles: EB.Oracles,
    selections: Option<seq<SC.Predicate>>,
    features: seq<string>,
    overwrite: bool)

  /** The datasets an event contributes: its edge index and, under a selection, its mask. */
  datatype Output = Output(edges: seq<Edge>, mask: Option<seq<bool>>)

  /**
   * The per-event computation, independent of the output file: None when the
   * selection keeps no node. A missing feature raises first; a mask is part
   * of the output exactly under a selection, with one entry per hit.
   */
  function EventOutput(ctx: Context, group: SC.Event): (r: Result<Option<Output>, Error>)
    ensures FirstMissing(ctx.features, group).Some? ==> r == Failure(MissingKey(FirstMissing(ctx.features, group).value))
    ensures r.Success? && r.value.None? ==> ctx.selections.Some?
    ensures r.Success? && r.value.Some? ==> (r.value.value.mask.Some? <==> ctx.selections.Some?)
    ensures r.Success? && r.value.Some? && r.value.value.mask.Some? ==>
      |ctx.features| > 0 && ctx.features[0] in group && |r.value.value.mask.value| == |group[ctx.features[0]]|
  {
    var columns :- Columns(ctx.features, group);
    var raw :- Stack(columns);
    if ctx.selections.None? then
      var edges :- EB.ComputeEdgeIndex(ctx.builder, ctx.oracles, raw);
      Success(Some(Output(edges, None)))
    else
      var m := SC.CombinedMask(ctx.selections.value, group, |raw.rows|);
      if m.None? then Failure(MaskFailure)
      else
        var kept := Filter(raw.rows, m.value);
        if |kept| == 0 then Success(None)
        else
          FilterSubset(raw.rows, m.value);
          var coords := Matrix(raw.width, kept);
          assert coords.Valid() by {
            forall i | 0 <= i < |kept| ensures |kept[i]| == raw.width {
              assert kept[i] in raw.rows;
            }
          }
          var edges :- EB.ComputeEdgeIndex(ctx.builder, ctx.oracles, coords);
          Success(Some(Output(edges, Some(m.value))))
  }

  /**
   * Delete `name` and `name_mask` where present, then create them from out:
   * name holds the edge index, name_mask exists exactly when there is a mask,
   * and every other dataset and every attribute stays as it was.
   */
  function Write(s: Store, name: string, out: Output): (r: Store)
    ensures name in r.datasets && r.datasets[name] == EdgeIndex(out.edges)
    ensures MaskName(name) in r.datasets <==> out.mask.Some?
    ensures out.mask.Some? ==> r.datasets[MaskName(name)] == MaskData(Bits(out.mask.value))
    ensures forall k | k != name && k != MaskName(name) ::
      (k in r.datasets <==> k in s.datasets) && (k in r.datasets ==> r.datasets[k] == s.datasets[k])
    ensures r.attrs == s.attrs
  {
    MaskNameInjective(name, name);
    var cleared := s.datasets - {name, MaskName(name)};
    var withEdges := cleared[name := EdgeIndex(out.edges)];
    Store(if out.mask.Some? then withEdges[MaskName(name) := MaskData(Bits(out.mask.value))] else withEdges, s.attrs)
  }

  /**
   * One iteration of the event loop; a Failure is an exception that ends the
   * run. It raises only where the event's computation does, and touches no
   * attribute and no dataset other than name and name_mask.
   */
  function ProcessEvent(ctx: Context, data: DataFile, name: string, s: Store): (r: Result<Store, Error>)
    requires name in data.groups
    ensures r.Failure? ==> EventOutput(ctx, data.groups[name]).Failure?
    ensures r.Success? ==> r.value.attrs == s.attrs
    ensures r.Success? ==> forall k | k in s.datasets && k != name && k != MaskName(name) ::
      k in r.value.datasets && r.value.datasets[k] == s.datasets[k]
  {
    if name in s.datasets && !ctx.overwrite then Success(s)
    else
      var out :- EventOutput(ctx, data.groups[name]);
      if out.None? then Success(s) else Success(Write(s, name, out.value))
  }

  /** How a run ends: normally, or by an exception; either way with the file's contents. */
  datatype RunResult = Finished(store: Store) | Aborted(error: Error, store: Store)

  /** No dataset of an event among names is stored under k. */
  predicate Untouched(k: string, names: seq<string>) {
    forall n | n in names :: k != n && k != MaskName(n)
  }

  /** The event loop over names, in order; it changes only the visited events' datasets. */
  function ProcessEvents(ctx: Context, data: DataFile, names: seq<string>, s: Store): (r: RunResult)
    requires forall n | n in names :: n in data.groups
    ensures forall k | k in s.datasets && Untouched(k, names) :: k in r.store.datasets && r.store.datasets[k] == s.datasets[k]
    decreases |names|
  {
    if |names| == 0 then Finished(s)
    else
      match ProcessEvent(ctx, data, names[0], s)
      case Failure(e) => Aborted(e, s)
      case Success(next) =>
        assert forall n | n in names[1..] :: n in names;
        ProcessEvents(ctx, data, names[1..], next)
  }

  /** The names the loop visits: the event groups, by ascending event number. */
  function ProcessingOrder(names: seq<string>): (r: seq<string>)
    requires Keyed(EventNames(names))
    ensures forall n :: n in r <==> n in names && StartsWith(n, Prefix)
    ensures Distinct(names) ==> Distinct(r)
    ensures |r| == |EventNames(names)| &&
      forall i, j :: 0 <= i < j < |r| ==> EventKey(r[i]).value <= EventKey(r[j]).value
  {
    SortedNames(EventNames(names));
    SortByKey(EventNames(names))
  }

  /**
   * The checks before anything is written: build the edge builder, require
   * event_0 with every position feature, and, under a node selection, the
   * data its selections need. Success is the context of the event loop.
   */
  function Validate(cfg: Config, data: DataFile, o: EB.Oracles): (r: Result<Context, Error>)
    requires data.Valid()
    ensures r.Success? ==> r.value.oracles == o && r.value.features == cfg.posFeatures
    ensures r.Success? ==> r.value.overwrite == cfg.overwrite
    ensures r.Success? ==> r.value.selections == (if cfg.nodeSelection.Some? then Some(Selections(cfg.nodeSelection.value)) else None)
    ensures r.Success? <==>
      EB.Create(cfg.algorithm, cfg.metric, cfg.algorithmParams, cfg.metricParams).Success? &&
      "event_0" in data.groups &&
      (forall f | f in cfg.posFeatures :: f in data.groups["event_0"]) &&
      (cfg.nodeSelection.Some? ==> SC.RequirementsMet(Selections(cfg.nodeSelection.value), data.groups["event_0"]))
  {
    var selections := if cfg.nodeSelection.Some? then Some(Selections(cfg.nodeSelection.value)) else None;
    var builder :- EB.Create(cfg.algorithm, cfg.metric, cfg.algorithmParams, cfg.metricParams);
    if "event_0" !in data.groups then Failure(MissingKey("event_0"))
    else
      var event0 := data.groups["event_0"];
      var missing := FirstMissing(cfg.posFeatures, event0);
      if missing.Some? then Failure(MissingKey(missing.value))
      else if selections.Some? && !SC.RequirementsMet(selections.value, event0) then Failure(RequirementsNotMet)
      else Success(Context(builder, o, selections, cfg.posFeatures, cfg.overwrite))
  }

  /** The store after the seven attribute writes. */
  function WithAttributes(s: Store, cfg: Config): (r: Store)
    ensures r.datasets == s.datasets
    ensures forall k :: k in r.attrs <==> k in s.attrs || k in Attributes(cfg)
    ensures forall k | k in Attributes(cfg) :: r.attrs[k] == Attributes(cfg)[k]
    ensures forall k | k in s.attrs && k !in Attributes(cfg) :: r.attrs[k] == s.attrs[k]
  {
    Store(s.datasets, s.attrs + Attributes(cfg))
  }

  /**
   * The event names' sort keys, then the event loop in key order; a dataset
   * that is no group's edge or mask dataset is never changed.
   */
  function Loop(ctx: Context, data: DataFile, s: Store): (r: RunResult)
    requires data.Valid()
    ensures forall k | k in s.datasets && Untouched(k, data.names) :: k in r.store.datasets && r.store.datasets[k] == s.datasets[k]
  {
    var bad := FirstUnkeyed(EventNames(data.names));
    if bad.Some? then Aborted(InvalidEventName(bad.value), s)
    else
      var order := ProcessingOrder(data.names);
      assert forall n | n in order :: n in data.groups;
      assert forall k | Untouched(k, data.names) :: Untouched(k, order);
      ProcessEvents(ctx, data, order, s)
  }

  /** main in the two-file mode, from the creation of the edge builder to the end of the loop. */
  function RunSpec(cfg: Config, data: DataFile, o: EB.Oracles, s0: Store): (r: RunResult)
    requires data.Valid()
    ensures r.Finished? ==> Validate(cfg, data, o).Success?
    ensures forall k | k in s0.datasets && Untouched(k, data.names) :: k in r.store.datasets && r.store.datasets[k] == s0.datasets[k]
  {
    var ctx := Validate(cfg, data, o);
    if ctx.Failure? then Aborted(ctx.error, s0)
    else Loop(ctx.value, data, WithAttributes(s0, cfg))
  }

  // ---------------------------------------------------------------------
  // The code as written imports torch only for a "pyg" algorithm but reads
  // torch.cuda before the edge builder is created.

  /**
   * main as written: `import torch` sits inside `if 'pyg' in args.algorithm`,
   * which makes torch a local name of main, and the device print reads it
   * unconditionally, so every other algorithm raises before anything happens.
   */
  function RunAsWritten(cfg: Config, data: DataFile, o: EB.Oracles, s0: Store): (r: RunResult)
    requires data.Valid()
    ensures !Contains(cfg.algorithm, "pyg") ==> r.Aborted? && r.store == s0
    ensures r.Finished? ==> Contains(cfg.algorithm, "pyg") && r == RunSpec(cfg, data, o, s0)
  {
    if !Contains(cfg.algorithm, "pyg") then Aborted(UnboundName("torch"), s0)
    else RunSpec(cfg, data, o, s0)
  }

  /** With delaunay the run as written stops at the device print, leaving the file as it was. */
  lemma DelaunayRunAsWrittenRaises(cfg: Config, data: DataFile, o: EB.Oracles, s0: Store)
    requires data.Valid() && cfg.algorithm == "delaunay"
    ensures RunAsWritten(cfg, data, o, s0) == Aborted(UnboundName("torch"), s0)
  {
    forall i | 0 <= i <= |cfg.algorithm| ensures !StartsWith(cfg.algorithm[i..], "pyg") {
      if i < |cfg.algorithm| {
        assert cfg.algorithm[i..][0] == cfg.algorithm[i] != 'p';
      }
    }
  }

  /** For knn_pyg the run as written is the intended run. */
  lemma PygRunAsWrittenAgrees(cfg: Config, data: DataFile, o: EB.Oracles, s0: Store)
    requires data.Valid() && cfg.algorithm == "knn_pyg"
    ensures RunAsWritten(cfg, data, o, s0) == RunSpec(cfg, data, o, s0)
  {
    assert StartsWith(cfg.algorithm[4..], "pyg");
  }

  // ---------------------------------------------------------------------
  // The persistence contract of one iteration.

  /** Validation failures leave the output file untouched. */
  lemma FailFast(cfg: Config, data: DataFile, o: EB.Oracles, s0: Store)
    requires data.Valid()
    requires EB.Create(cfg.algorithm, cfg.metric, cfg.algorithmParams, cfg.metricParams).Failure? ||
      "event_0" !in data.groups ||
      FirstMissing(cfg.posFeatures, data.groups["event_0"]).Some? ||
      (cfg.nodeSelection.Some? && !SC.RequirementsMet(Selections(cfg.nodeSelection.value), data.groups["event_0"]))
    ensures RunSpec(cfg, data, o, s0).Aborted? && RunSpec(cfg, data, o, s0).store == s0
  {
  }

  /** An existing edge dataset is kept as it is when not overwriting. */
  lemma SkipExisting(ctx: Context, data: DataFile, name: string, s: Store)
    requires name in data.groups && name in s.datasets && !ctx.overwrite
    ensures ProcessEvent(ctx, data, name, s) == Success(s)
  {
  }

  /**
   * A selection whose combined mask keeps no hit gives no output, so the
   * event writes and deletes nothing.
   */
  lemma EmptySelectionSkips(ctx: Context, data: DataFile, name: string, s: Store)
    requires name in data.groups && ctx.selections.Some?
    requires Columns(ctx.features, data.groups[name]).Success?
    requires Stack(Columns(ctx.features, data.groups[name]).value).Success?
    requires var raw := Stack(Columns(ctx.features, data.groups[name]).value).value;
      var m := SC.CombinedMask(ctx.selections.value, data.groups[name], |raw.rows|);
      m.Some? && CountTrue(m.value) == 0
    ensures EventOutput(ctx, data.groups[name]) == Success(None)
    ensures ProcessEvent(ctx, data, name, s) == Success(s)
  {
    var raw := Stack(Columns(ctx.features, data.groups[name]).value).value;
    var m := SC.CombinedMask(ctx.selections.value, data.groups[name], |raw.rows|);
    assert |Filter(raw.rows, m.value)| == CountTrue(m.value);
  }

  /**
   * A processed event: its edge index is stored under its name, its mask
   * (one 0/1 entry per hit before filtering) under name_mask exactly when a
   * selection is configured, so a stale mask is removed; nothing else changes.
   */
  lemma WrittenEvent(ctx: Context, data: DataFile, name: string, s: Store)
    requires name in data.groups && !(name in s.datasets && !ctx.overwrite)
    requires EventOutput(ctx, data.groups[name]).Success? && EventOutput(ctx, data.groups[name]).value.Some?
    ensures var out := EventOutput(ctx, data.groups[name]).value.value;
      var t := ProcessEvent(ctx, data, name, s).value;
      t.datasets[name] == EdgeIndex(out.edges) &&
      (MaskName(name) in t.datasets <==> ctx.selections.Some?) &&
      (ctx.selections.Some? ==>
        var hits := |Stack(Columns(ctx.features, data.groups[name]).value).value.rows|;
        t.datasets[MaskName(name)] == MaskData(Bits(out.mask.value)) && |out.mask.value| == hits) &&
      (forall k | k != name && k != MaskName(name) :: (k in t.datasets <==> k in s.datasets) &&
        (k in s.datasets ==> t.datasets[k] == s.datasets[k])) &&
      t.attrs == s.attrs
  {
    assert name != MaskName(name) by {
      assert |MaskName(name)| == |name| + 5;
    }
  }

  // ---------------------------------------------------------------------
  // Re-running the generator.

  /** Two events never touch each other's datasets. */
  predicate Apart(e: string, f: string) {
    e != f && e != MaskName(f) && f != MaskName(e)
  }

  predicate PairwiseApart(names: seq<string>) {
    forall i, j :: 0 <= i < j < |names| ==> Apart(names[i], names[j])
  }

  /** No group of the data file is named like another group's mask. */
  predicate NoMaskCollisions(names: seq<string>) {
    forall a, b | a in names && b in names :: a != MaskName(b)
  }

  /** Processing e again would leave s as it is. */
  predicate Settled(ctx: Context, data: DataFile, e: string, s: Store)
    requires e in data.groups
  {
    ProcessEvent(ctx, data, e, s) == Success(s)
  }

  lemma WriteTwice(s: Store, name: string, out: Output)
    ensures Write(Write(s, name, out), name, out) == Write(s, name, out)
  {
    var a := Write(s, name, out);
    var b := Write(a, name, out);
    assert b.datasets == a.datasets;
  }

  lemma MaskNameInjective(e: string, f: string)
    ensures e != MaskName(e)
    ensures e != f ==> MaskName(e) != MaskName(f)
  {
    assert |MaskName(e)| == |e| + 5;
    if |e| == |f| {
      assert MaskName(e)[..|e|] == e && MaskName(f)[..|f|] == f;
    }
  }

  /** What Write leaves under one key. */
  lemma WriteAt(s: Store, name: string, out: Output, k: string)
    ensures var t := Write(s, name, out).datasets;
      (k == name ==> k in t && t[k] == EdgeIndex(out.edges)) &&
      (k == MaskName(name) ==> (k in t <==> out.mask.Some?) && (out.mask.Some? ==> t[k] == MaskData(Bits(out.mask.value)))) &&
      (k != name && k != MaskName(name) ==> (k in t <==> k in s.datasets) && (k in t ==> t[k] == s.datasets[k]))
  {
    MaskNameInjective(name, name);
  }

  lemma WriteCommutes(s: Store, e: string, oe: Output, f: string, of: Output)
    requires Apart(e, f)
    ensures Write(Write(s, f, of), e, oe) == Write(Write(s, e, oe), f, of)
  {
    MaskNameInjective(e, f);
    var sf := Write(s, f, of);
    var se := Write(s, e, oe);
    var a := Write(sf, e, oe);
    var b := Write(se, f, of);
    forall k ensures (k in a.datasets <==> k in b.datasets) && (k in a.datasets ==> a.datasets[k] == b.datasets[k]) {
      WriteAt(s, f, of, k);
      WriteAt(s, e, oe, k);
      WriteAt(sf, e, oe, k);
      WriteAt(se, f, of, k);
    }
    assert a.datasets == b.datasets;
  }

  /** After an event is processed, processing it again changes nothing. */
  lemma ProcessedIsSettled(ctx: Context, data: DataFile, e: string, s: Store)
    requires e in data.groups && ProcessEvent(ctx, data, e, s).Success?
    ensures Settled(ctx, data, e, ProcessEvent(ctx, data, e, s).value)
  {
    var out := EventOutput(ctx, data.groups[e]);
    if !(e in s.datasets && !ctx.overwrite) && out.value.Some? {
      WriteTwice(s, e, out.value.value);
    }
  }

  /** Processing another event keeps e settled. */
  lemma SettledPreserved(ctx: Context, data: DataFile, e: string, f: string, s: Store)
    requires e in data.groups && f in data.groups && Apart(e, f)
    requires Settled(ctx, data, e, s) && ProcessEvent(ctx, data, f, s).Success?
    ensures Settled(ctx, data, e, ProcessEvent(ctx, data, f, s).value)
  {
    var t := ProcessEvent(ctx, data, f, s).value;
    var of := EventOutput(ctx, data.groups[f]);
    var oe := EventOutput(ctx, data.groups[e]);
    if t != s {
      assert of.Success? && of.value.Some? && t == Write(s, f, of.value.value);
      if !(e in s.datasets && !ctx.overwrite) && oe.value.Some? {
        WriteCommutes(s, e, oe.value.value, f, of.value.value);
      }
    }
  }

  /** A loop over events that are all settled finishes without changing anything. */
  lemma {:induction false} AllSettledFinish(ctx: Context, data: DataFile, names: seq<string>, s: Store)
    requires forall n | n in names :: n in data.groups && Settled(ctx, data, n, s)
    ensures ProcessEvents(ctx, data, names, s) == Finished(s)
    decreases |names|
  {
    if |names| > 0 {
      assert names[0] in names;
      assert forall n | n in names[1..] :: n in names;
      AllSettledFinish(ctx, data, names[1..], s);
    }
  }

  /** A settled event stays settled through a loop over events apart from it. */
  lemma {:induction false} SettledSurvives(ctx: Context, data: DataFile, e: string, names: seq<string>, s: Store)
    requires e in data.groups && forall n | n in names :: n in data.groups && Apart(e, n)
    requires Settled(ctx, data, e, s) && ProcessEvents(ctx, data, names, s).Finished?
    ensures Settled(ctx, data, e, ProcessEvents(ctx, data, names, s).store)
    decreases |names|
  {
    if |names| > 0 {
      assert names[0] in names;
      assert forall n | n in names[1..] :: n in names;
      SettledPreserved(ctx, data, e, names[0], s);
      SettledSurvives(ctx, data, e, names[1..], ProcessEvent(ctx, data, names[0], s).value);
    }
  }

  /** After a loop that finishes, every event it visited is settled. */
  lemma {:induction false} FinishedSettles(ctx: Context, data: DataFile, names: seq<string>, s: Store)
    requires (forall n | n in names :: n in data.groups) && PairwiseApart(names)
    requires ProcessEvents(ctx, data, names, s).Finished?
    ensures forall n | n in names :: Settled(ctx, data, n, ProcessEvents(ctx, data, names, s).store)
    decreases |names|
  {
    if |names| > 0 {
      var rest := names[1..];
      assert names[0] in names;
      assert forall n | n in rest :: n in names;
      var next := ProcessEvent(ctx, data, names[0], s).value;
      assert PairwiseApart(rest) by {
        forall i, j | 0 <= i < j < |rest| ensures Apart(rest[i], rest[j]) {
          assert Apart(names[i + 1], names[j + 1]);
        }
      }
      FinishedSettles(ctx, data, rest, next);
      ProcessedIsSettled(ctx, data, names[0], s);
      assert forall n | n in rest :: Apart(names[0], n) by {
        forall n | n in rest ensures Apart(names[0], n) {
          var j :| 0 <= j < |rest| && rest[j] == n;
          assert Apart(names[0], names[j + 1]);
        }
      }
      SettledSurvives(ctx, data, names[0], rest, next);
      assert forall n :: n in names <==> n == names[0] || n in rest;
    }
  }

  /** A state settled while overwriting is also settled without overwriting. */
  lemma SettledWithoutOverwrite(ctx: Context, data: DataFile, e: string, s: Store)
    requires e in data.groups && Settled(ctx, data, e, s)
    ensures Settled(ctx.(overwrite := false), data, e, s)
  {
    var out := EventOutput(ctx, data.groups[e]);
    if !(e in s.datasets && !ctx.overwrite) && out.value.Some? {
      assert e in Write(s, e, out.value.value).datasets;
    }
  }

  lemma {:induction false} LoopKeepsAttributes(ctx: Context, data: DataFile, names: seq<string>, s: Store)
    requires forall n | n in names :: n in data.groups
    ensures ProcessEvents(ctx, data, names, s).store.attrs == s.attrs
    decreases |names|
  {
    if |names| > 0 {
      assert forall n | n in names[1..] :: n in names;
      var r := ProcessEvent(ctx, data, names[0], s);
      if r.Success? {
        LoopKeepsAttributes(ctx, data, names[1..], r.value);
      }
    }
  }

  /** The visited names are apart when group names are distinct and none is another's mask name. */
  lemma OrderApart(data: DataFile)
    requires data.Valid() && NoMaskCollisions(data.names) && Keyed(EventNames(data.names))
    ensures PairwiseApart(ProcessingOrder(data.names))
  {
    var order := ProcessingOrder(data.names);
    forall i, j | 0 <= i < j < |order| ensures Apart(order[i], order[j]) {
      assert order[i] in data.names && order[j] in data.names;
    }
  }

  /** Writing the same attributes again changes nothing. */
  lemma AttributesTwice(s: Store, cfg: Config)
    ensures WithAttributes(WithAttributes(s, cfg), cfg) == WithAttributes(s, cfg)
  {
    var once := WithAttributes(s, cfg);
    var twice := WithAttributes(once, cfg);
    assert twice.attrs == once.attrs;
  }

  /** A loop that finishes leaves a store on which it finishes again without change, overwriting or not. */
  lemma LoopRerun(ctx: Context, data: DataFile, s: Store)
    requires data.Valid() && NoMaskCollisions(data.names)
    requires Loop(ctx, data, s).Finished?
    ensures var s1 := Loop(ctx, data, s).store;
      Loop(ctx, data, s1) == Finished(s1) && Loop(ctx.(overwrite := false), data, s1) == Finished(s1)
  {
    var order := ProcessingOrder(data.names);
    assert forall n | n in order :: n in data.groups;
    var s1 := ProcessEvents(ctx, data, order, s).store;
    OrderApart(data);
    FinishedSettles(ctx, data, order, s);
    AllSettledFinish(ctx, data, order, s1);
    forall n | n in order ensures Settled(ctx.(overwrite := false), data, n, s1) {
      SettledWithoutOverwrite(ctx, data, n, s1);
    }
    AllSettledFinish(ctx.(overwrite := false), data, order, s1);
  }

  /** The loop's result store keeps the attributes it started with. */
  lemma LoopAttributes(ctx: Context, data: DataFile, s: Store)
    requires data.Valid()
    ensures Loop(ctx, data, s).store.attrs == s.attrs
  {
    if FirstUnkeyed(EventNames(data.names)).None? {
      var order := ProcessingOrder(data.names);
      assert forall n | n in order :: n in data.groups;
      LoopKeepsAttributes(ctx, data, order, s);
    }
  }

  /** The overwrite flag reaches the context and nothing else. */
  lemma ValidateOverwrite(cfg: Config, data: DataFile, o: EB.Oracles)
    requires data.Valid() && Validate(cfg, data, o).Success?
    ensures Validate(cfg.(overwrite := false), data, o) == Success(Validate(cfg, data, o).value.(overwrite := false))
  {
  }

  /**
   * Idempotence: running the generator again on the file a finished run
   * produced leaves the file exactly as it is, with the same configuration,
   * and also when the second run does not overwrite.
   */
  lemma RerunChangesNothing(cfg: Config, data: DataFile, o: EB.Oracles, s0: Store)
    requires data.Valid() && NoMaskCollisions(data.names)
    requires RunSpec(cfg, data, o, s0).Finished?
    ensures var s1 := RunSpec(cfg, data, o, s0).store;
      RunSpec(cfg, data, o, s1) == Finished(s1) &&
      RunSpec(cfg.(overwrite := false), data, o, s1) == Finished(s1)
  {
    var ctx := Validate(cfg, data, o).value;
    var start := WithAttributes(s0, cfg);
    var s1 := Loop(ctx, data, start).store;
    LoopRerun(ctx, data, start);
    LoopAttributes(ctx, data, start);
    AttributesTwice(s0, cfg);
    assert WithAttributes(s1, cfg) == s1 by {
      assert WithAttributes(s1, cfg).attrs == WithAttributes(start, cfg).attrs;
    }
    ValidateOverwrite(cfg, data, o);
  }

  /**
   * Without overwriting, a file that already holds every event's edge dataset
   * keeps all its datasets: only the attributes are rewritten.
   */
  lemma ExistingEventsUntouched(cfg: Config, data: DataFile, o: EB.Oracles, s: Store)
    requires data.Valid() && !cfg.overwrite
    requires forall n | n in data.names && StartsWith(n, Prefix) :: n in s.datasets
    ensures RunSpec(cfg, data, o, s).store.datasets == s.datasets
  {
    var ctx := Validate(cfg, data, o);
    if ctx.Success? && FirstUnkeyed(EventNames(data.names)).None? {
      var order := ProcessingOrder(data.names);
      var start := WithAttributes(s, cfg);
      assert forall n | n in order :: n in data.groups && Settled(ctx.value, data, n, start);
      AllSettledFinish(ctx.value, data, order, start);
    }
  }

  // ---------------------------------------------------------------------
  // The imperative loop.

  datatype Outcome = Completed | Raised(error: Error)

  /** The run result an outcome and the file's final contents stand for. */
  function Ended(outcome: Outcome, s: Store): RunResult {
    if outcome.Completed? then Finished(s) else Aborted(outcome.error, s)
  }

  /** The feature loop that fills raw_edge_coords. */
  method ReadColumns(features: seq<string>, group: SC.Event) returns (r: Result<seq<seq<real>>, Error>)
    ensures r == Columns(features, group)
  {
    var columns: seq<seq<real>> := [];
    for i := 0 to |features|
      invariant |columns| == i && forall j :: 0 <= j < i ==> features[j] in group && columns[j] == group[features[j]]
    {
      if features[i] !in group {
        return Failure(MissingKey(features[i]));
      }
      columns := columns + [group[features[i]]];
    }
    var expected := Columns(features, group);
    assert expected.Success?;
    assert columns == expected.value;
    return Success(columns);
  }

  /** The check of the position features against event_0. */
  method CheckFeatures(features: seq<string>, event0: SC.Event) returns (missing: Option<string>)
    ensures missing == FirstMissing(features, event0)
  {
    for i := 0 to |features|
      invariant forall j :: 0 <= j < i ==> features[j] in event0
    {
      if features[i] !in event0 {
        return Some(features[i]);
      }
    }
    return None;
  }

  /** The body of the loop from reading the features to the edge index. */
  method ComputeOutput(ctx: Context, group: SC.Event, compose: SC.SelectionCompose?) returns (r: Result<Option<Output>, Error>)
    requires (compose != null) == ctx.selections.Some?
    requires compose != null ==> compose.selections == ctx.selections.value
    modifies compose
    ensures r == EventOutput(ctx, group)
  {
    var columns := ReadColumns(ctx.features, group);
    if columns.Failure? {
      return Failure(columns.error);
    }
    var raw := Stack(columns.value);
    if raw.Failure? {
      return Failure(raw.error);
    }
    var coords := raw.value;
    var mask: Option<seq<bool>> := None;
    if compose != null {
      var filtered := compose.Call(coords.rows, group);
      if filtered.None? {
        return Failure(MaskFailure);
      }
      if |filtered.value| == 0 {
        return Success(None);
      }
      mask := compose.lastMask;
      FilterSubset(coords.rows, mask.value);
      coords := Matrix(raw.value.width, filtered.value);
      assert coords.Valid() by {
        forall i | 0 <= i < |coords.rows| ensures |coords.rows[i]| == raw.value.width {
          assert coords.rows[i] in raw.value.rows;
        }
      }
    }
    var edges := EB.ComputeEdgeIndex(ctx.builder, ctx.oracles, coords);
    if edges.Failure? {
      return Failure(edges.error);
    }
    return Success(Some(Output(edges.value, mask)));
  }

  /** Delete the event's datasets where present and create them anew. */
  method WriteIn(target: H5File, name: string, out: Output)
    modifies target
    ensures target.Contents() == Write(old(target.Contents()), name, out)
  {
    MaskNameInjective(name, name);
    var maskName := MaskName(name);
    ghost var d := target.datasets;
    if name in target.datasets {
      target.Delete(name);
    }
    assert target.datasets == d - {name};
    if maskName in target.datasets {
      target.Delete(maskName);
    }
    assert target.datasets == d - {name, maskName};
    target.CreateDataset(name, EdgeIndex(out.edges));
    if out.mask.Some? {
      target.CreateDataset(maskName, MaskData(Bits(out.mask.value)));
    }
  }

  /** One loop iteration against the open output file. */
  method ProcessEventIn(ctx: Context, data: DataFile, name: string, target: H5File, compose: SC.SelectionCompose?)
    returns (err: Option<Error>)
    requires name in data.groups
    requires (compose != null) == ctx.selections.Some?
    requires compose != null ==> compose.selections == ctx.selections.value
    modifies target, compose
    ensures var r := ProcessEvent(ctx, data, name, old(target.Contents()));
      if r.Success? then err.None? && target.Contents() == r.value
      else err == Some(r.error) && target.Contents() == old(target.Contents())
  {
    if name in target.datasets && !ctx.overwrite {
      return None;
    }
    var out := ComputeOutput(ctx, data.groups[name], compose);
    if out.Failure? {
      return Some(out.error);
    }
    if out.value.Some? {
      WriteIn(target, name, out.value.value);
    }
    return None;
  }

  /** The validation before anything is written, and the SelectionCompose it sets up. */
  method Prepare(cfg: Config, data: DataFile, o: EB.Oracles) returns (r: Result<Context, Error>, compose: SC.SelectionCompose?)
    requires data.Valid()
    ensures r == Validate(cfg, data, o)
    ensures r.Success? ==> (compose != null) == r.value.selections.Some?
    ensures r.Success? && compose != null ==> fresh(compose) && compose.selections == r.value.selections.value
  {
    compose := null;
    var selections: Option<seq<SC.Predicate>> := None;
    if cfg.nodeSelection.Some? {
      var configs := cfg.nodeSelection.value;
      var built: seq<SC.Predicate> := [];
      for i := 0 to |configs|
        invariant |built| == i && forall t :: 0 <= t < i ==> built[t] == MakeSelection(configs[t])
      {
        built := built + [MakeSelection(configs[i])];
      }
      assert built == Selections(configs);
      compose := new SC.SelectionCompose(built);
      selections := Some(built);
    }
    var builder := EB.Create(cfg.algorithm, cfg.metric, cfg.algorithmParams, cfg.metricParams);
    if builder.Failure? {
      return Failure(builder.error), compose;
    }
    if "event_0" !in data.groups {
      return Failure(MissingKey("event_0")), compose;
    }
    var event0 := data.groups["event_0"];
    var missing := CheckFeatures(cfg.posFeatures, event0);
    if missing.Some? {
      return Failure(MissingKey(missing.value)), compose;
    }
    if compose != null {
      var ok := compose.CheckDataRequirements(event0);
      if !ok {
        return Failure(RequirementsNotMet), compose;
      }
    }
    r := Success(Context(builder.value, o, selections, cfg.posFeatures, cfg.overwrite));
  }

  lemma UnionUpdate<K, V>(a: map<K, V>, m: map<K, V>, k: K, v: V)
    ensures (a + m)[k := v] == a + m[k := v]
  {
  }

  /** The seven `f.attrs[...] = ...` assignments. */
  method WriteAttributes(cfg: Config, target: H5File)
    modifies target
    ensures target.Contents() == WithAttributes(old(target.Contents()), cfg)
  {
    ghost var a := target.attrs;
    var metric := AttrText(if cfg.metric.Some? then cfg.metric.value else "none");
    var selection := AttrText(if cfg.nodeSelection.Some? then cfg.nodeSelectionText else "none");
    ghost var m: map<string, Attr> := map[];
    assert a == a + m;
    target.SetAttr("algorithm", AttrText(cfg.algorithm));
    UnionUpdate(a, m, "algorithm", AttrText(cfg.algorithm));
    m := m["algorithm" := AttrText(cfg.algorithm)];
    target.SetAttr("metric", metric);
    UnionUpdate(a, m, "metric", metric);
    m := m["metric" := metric];
    target.SetAttr("algorithm_params", AttrText(cfg.algorithmParamsText));
    UnionUpdate(a, m, "algorithm_params", AttrText(cfg.algorithmParamsText));
    m := m["algorithm_params" := AttrText(cfg.algorithmParamsText)];
    target.SetAttr("metric_params", AttrText(cfg.metricParamsText));
    UnionUpdate(a, m, "metric_params", AttrText(cfg.metricParamsText));
    m := m["metric_params" := AttrText(cfg.metricParamsText)];
    target.SetAttr("pos_features", AttrText(cfg.posFeaturesText));
    UnionUpdate(a, m, "pos_features", AttrText(cfg.posFeaturesText));
    m := m["pos_features" := AttrText(cfg.posFeaturesText)];
    target.SetAttr("combine_files", AttrFlag(false));
    UnionUpdate(a, m, "combine_files", AttrFlag(false));
    m := m["combine_files" := AttrFlag(false)];
    target.SetAttr("node_selection", selection);
    UnionUpdate(a, m, "node_selection", selection);
    m := m["node_selection" := selection];
    assert m == Attributes(cfg);
  }

  /** Sort the event names, then run the loop body on each in turn. */
  method RunLoop(ctx: Context, data: DataFile, target: H5File, compose: SC.SelectionCompose?) returns (outcome: Outcome)
    requires data.Valid()
    requires (compose != null) == ctx.selections.Some?
    requires compose != null ==> compose.selections == ctx.selections.value
    modifies target, compose
    ensures Ended(outcome, target.Contents()) == Loop(ctx, data, old(target.Contents()))
  {
    var bad := FirstUnkeyed(EventNames(data.names));
    if bad.Some? {
      return Raised(InvalidEventName(bad.value));
    }
    var order := ProcessingOrder(data.names);
    assert forall n | n in order :: n in data.groups;
    ghost var start := target.Contents();
    for k := 0 to |order|
      invariant ProcessEvents(ctx, data, order[k..], target.Contents()) == ProcessEvents(ctx, data, order, start)
    {
      assert order[k] in order;
      assert order[k..][1..] == order[k + 1..];
      var err := ProcessEventIn(ctx, data, order[k], target, compose);
      if err.Some? {
        return Raised(err.value);
      }
    }
    return Completed;
  }

  /** main in the two-file mode. */
  method Run(cfg: Config, data: DataFile, o: EB.Oracles, target: H5File) returns (outcome: Outcome)
    requires data.Valid()
    modifies target
    ensures Ended(outcome, target.Contents()) == RunSpec(cfg, data, o, old(target.Contents()))
  {
    var ctx, compose := Prepare(cfg, data, o);
    if ctx.Failure? {
      return Raised(ctx.error);
    }
    WriteAttributes(cfg, target);
    outcome := RunLoop(ctx.value, data, target, compose);
  }
}
