# events2graph core in Dafny

events2graph turns detector events (point clouds of photomultiplier hits) into
graphs. This project models the core of that pipeline and proves properties
about it:

- **Node selection.** `NodeSelection` keeps the hits whose time and charge lie within closed `[min, max]` cuts. `SelectionCompose` ANDs the keep-masks of an ordered list of selections, evaluates each one on the original event, and caches the last combined mask in a field.
- **Edge construction.** Around the foreign geometry libraries: the Delaunay builder turns tetrahedra into a set of unique, canonical (min, max) pairs and emits each in both directions. The kNN builder drops the self column of the neighbour matrix, pairs every node with its k neighbours, symmetrises, and keeps the distinct columns in lexicographic order.
- **Dispatch.** `EdgeBuilder` looks the algorithm up in a fixed registry, then the optional metric. It then composes the metric with the builder. The spacetime metric is modelled over the reals.
- **Persistence.** The driver of `edge_index_generator.py` in its two-file mode:
  - it validates before any write;
  - it records the run configuration as file attributes;
  - it visits the events in ascending numeric order;
  - it skips existing events unless overwriting, and skips events whose selection keeps nothing;
  - otherwise it replaces `event_n` and `event_n_mask` by delete-then-create.

  The output file is a class holding two maps (datasets and attributes). The loop is an imperative method, proved equal to a functional specification, about which the persistence rules are proved. The key theorem is idempotence: a run on the file that a finished run produced changes nothing, with or without overwriting.
- **Names.** The output-file name (`_generate_output_filename`) and the job-folder name (`generate_job_name.py`).
- **Work slicing.** `process_in_parallel` splits `min(nb_datapoints, num_entries)` entries into contiguous slices of `ceil(total / n_workers)` entries and concatenates the workers' results in slice order.

Foreign computations enter as parameters. The Qhull triangulation, the cKDTree neighbour query, `radius.build_edges`, `knn_pyg.build_edges` and the weighted-Euclidean metric are function-valued fields of `EdgeBuilder.Oracles`. A triangulation or query that raises is `None`. The clock and the two regular-expression searches of the job name are plain arguments.

Files:
- `wrappers.dfy`: `Option`, `Result`, and the error kinds.
- `graph.dfy`: matrices and edge indices.
- `masks.dfy`: boolean masks and `xs[mask]`.
- `text.dfy`: Python string helpers.
- `node_selection.dfy`, `selection_compose.dfy`, `delaunay.dfy`, `knn_scipy.dfy`, `edge_builder.dfy`, `spacetime.dfy`: one each for the selection, edge and metric sources.
- `event_order.dfy`: event discovery and ordering.
- `h5_store.dfy`: the output file.
- `edge_index_generator.dfy`: the driver.
- `output_filename.dfy`, `job_name.dfy`: the two names.
- `work_slices.dfy`: work slicing.

Points where the model follows the code closely:
- **The spacetime metric applies no trigger-time offset and no standardisation.** It converts time to a distance and weights the spatial and temporal parts, and nothing else.
- **An exception inside the event loop ends the run.** The loop has no handler: the run stops, and the events already written stay written (`RunResult.Aborted` carries the store at that point).
- **kNN with zero nodes raises in the code as written.** `KnnScipy.BuildEdgesAsWritten` keeps that behaviour. The edge builder and the run use the corrected `KnnScipy.BuildEdges` (see Findings and "## Left out").
- **`euclidean_3d` is rejected.** The `EdgeBuilder` docstring mentions it, but the metric registry does not contain it.
- **Selections are not applied one after another.** The `SelectionCompose` class docstring says they are. The code evaluates every selection's mask on the original event and ANDs the masks.

## Model

| member | source | states |
|---|---|---|
| NodeSelection.Narrow | utils/node_selection.py:44-53 | one `mask &= (values >= bound)` or `mask &= (values <= bound)` pass: every entry becomes its old value AND the bound test on its hit |
| NodeSelection.NarrowByCut | utils/node_selection.py:42-53 | after narrowing by a cut, entry i is its old value AND "hit i satisfies every bound the cut has"; no cut, or a cut without keys, imposes nothing |
| NodeSelection.ApplySelection | utils/node_selection.py:39-55 | the result is exactly the coordinate rows whose hit passes both cuts (inclusive bounds), in their original order |
| NodeSelection.Call | utils/node_selection.py:57-59 | `__call__` returns the same rows as `apply_selection` |
| NodeSelection.SelectedRows | utils/node_selection.py:39-55 | output length is at most N; output row k is the input row at the k-th kept position, and that hit passes the cuts; every kept input row appears in the output |
| NodeSelection.NoBoundsKeepsAll | utils/node_selection.py:39-53 | with no cut, or cut dictionaries without `min`/`max`, the output equals the input |
| NodeSelection.TighterKeepsFewer | utils/node_selection.py:42-53 | tightening the bounds never keeps a hit the looser bounds drop, so at most as many hits survive |
| NodeSelection.SimpleFilteringFixture | simple_test.py:30-48 | with time in [200, 800] and charge in [5, 30] the selection equals `coords[time_mask & charge_mask]` for every input |
| NodeSelection.ThresholdExample | utils/node_selection.py:42-46 | times [100, 500, 900] under a [200, 800] cut give the mask [False, True, False] |
| Masks.FilterAt | utils/node_selection.py:55 | mapping a filtered index back through the true positions of the mask recovers the original row |
| Masks.CountTrueZero | utils/selection_compose.py:80 | the filtered list is empty exactly when every mask entry is false |
| Masks.FilterSubset | utils/selection_compose.py:80 | every surviving row is a row of the input |
| SelectionCompose.ThresholdMask | utils/node_selection.py:39-53 | NodeSelection's interval formula as a `get_mask` on an event group: it is defined exactly when "time" and "charge" exist with equal lengths, and then entry i is true iff hit i passes both cuts |
| SelectionCompose.CombinedMaskMeaning | utils/selection_compose.py:54-59 | the combined mask exists iff every selection yields a mask of length n; then entry i is true iff it is true in every selection's mask |
| SelectionCompose.EmptyComposeKeepsAll | utils/selection_compose.py:54 | with no selection the combined mask is all true |
| SelectionCompose.TwoPredicates | utils/selection_compose.py:54-59 | for two selections the combined mask is the elementwise AND of their masks |
| SelectionCompose.PermutationInvariant | utils/selection_compose.py:57-59 | permuting the selection list gives the same combined mask, or the same failure |
| SelectionCompose.PrefixFailureSticks | utils/selection_compose.py:57-59 | once one selection's `get_mask` fails, the whole combined mask fails |
| SelectionCompose.SelectionCompose.constructor | utils/selection_compose.py:17-25 | the selections are stored and `last_mask` starts as None |
| SelectionCompose.SelectionCompose.CheckDataRequirements | utils/selection_compose.py:37-41 | true iff every selection that has a requirement check accepts the group; selections without one are ignored; the loop stops at the first rejection |
| SelectionCompose.SelectionCompose.GetCombinedMask | utils/selection_compose.py:43-62 | the in-place `&=` loop returns the combined mask of the original event; on success `last_mask` is that mask, and a raising `get_mask` leaves it unchanged |
| SelectionCompose.SelectionCompose.Call | utils/selection_compose.py:64-80 | returns the rows the combined mask keeps, in order and counted by the mask, and leaves that mask in `last_mask` |
| Delaunay.EdgeList | graph_builders/delaunay.py:69-77 | `edge_set` after the loop: no duplicates, and it holds exactly the canonical pairs of the six vertex pairs of every simplex |
| Delaunay.CollectEdges | graph_builders/delaunay.py:69-77 | the loop of `edge_set.add` calls produces that set |
| Delaunay.BuildEdgesSpec | graph_builders/delaunay.py:38-101 | build_edges as a value: it raises exactly when N >= 4 and the width is not 3, and then with the dimension error |
| Delaunay.BuildEdges | graph_builders/delaunay.py:38-101 | fewer than 4 points give an empty index whatever the dimension; otherwise any width other than 3 raises; a failed triangulation gives an empty index; otherwise the unique pairs followed by the same pairs reversed. It raises exactly when N >= 4 and D != 3 |
| Delaunay.TriangulatedIndex | graph_builders/delaunay.py:69-99 | after a successful triangulation the index is symmetric, holds an edge iff it or its reverse is a canonical simplex pair, and has exactly 2 x (number of unique pairs) columns |
| Delaunay.TriangulatedIndexWellFormed | graph_builders/delaunay.py:70-99 | every endpoint is a simplex vertex, hence in [0, N) when the vertices are; with distinct vertices per simplex there are no self-loops and no repeated columns |
| KnnScipy.Unique | graph_builders/knn_scipy.py:72 | `np.unique(..., axis=1)`: strictly increasing in lexicographic order, no longer than its input, same members |
| KnnScipy.SortedUnique | graph_builders/knn_scipy.py:72 | two strictly sorted column lists with the same members are equal |
| KnnScipy.Directed | graph_builders/knn_scipy.py:50-58 | `directed_edge_index` has N x k columns, exactly the pairs (i, indices[i][j]) for j in 1..k; column 0 is dropped |
| KnnScipy.BuildEdgesAsWritten | graph_builders/knn_scipy.py:4-73 | build_edges as written: it raises exactly when k < 1, when there are no nodes, or when the neighbour query fails or has the wrong shape; k < 1 raises first, then the empty reduction |
| KnnScipy.BuildEdges | graph_builders/knn_scipy.py:4-73 | the corrected build_edges: it raises exactly when k < 1 or the neighbour query fails or has the wrong shape; with no nodes it returns an empty index |
| KnnScipy.EmptyInputRaises | graph_builders/knn_scipy.py:35 | with no nodes the code as written raises at `np.max`, while the corrected builder returns an empty index |
| KnnScipy.AgreesWhenNonEmpty | graph_builders/knn_scipy.py:35-73 | with at least one node the corrected builder and the code as written agree |
| KnnScipy.KnnIndex | graph_builders/knn_scipy.py:47-73 | the output is symmetric, strictly sorted (so duplicate-free), holds a column iff it or its reverse is a directed kNN edge, and has at most 2 N k columns |
| KnnScipy.KnnInRange | graph_builders/knn_scipy.py:47-73 | with neighbour indices in [0, N) every output endpoint is in [0, N) |
| KnnScipy.MissingNeighbourEdge | graph_builders/knn_scipy.py:47-73 | a neighbour reported as the missing-point index N yields the edge (i, N) and its reverse, so the index is not within [0, N) |
| KnnScipy.KnnNoSelfLoops | graph_builders/knn_scipy.py:50-73 | when no node lists itself among its k neighbours there are no self-loops |
| KnnScipy.KnnOrderIndependent | graph_builders/knn_scipy.py:66-72 | two neighbour matrices with the same set of directed edges give the same output |
| EdgeBuilder.LookupAlgorithm | utils/edge_builder.py:17-22 | a builder is found iff the name is one of knn_scipy, delaunay, radius, knn_pyg, and it is the one registered under that name |
| EdgeBuilder.LookupMetric | utils/edge_builder.py:25-28 | a metric is found iff the name is spacetime or weighted_euclidean, and it is the one registered under that name |
| EdgeBuilder.RegistryRoundTrip | utils/edge_builder.py:17-28 | every registered builder and metric is found again under its own name |
| EdgeBuilder.Create | utils/edge_builder.py:36-61 | an unknown algorithm raises first; then a given but unknown metric raises; success exactly otherwise, with the fields as given and None parameters replaced by empty dictionaries |
| EdgeBuilder.Euclidean3dRejected | utils/edge_builder.py:42-61 | the documented `euclidean_3d` metric is refused for every valid algorithm |
| EdgeBuilder.Build | utils/edge_builder.py:80-81 | `graph_builder(coords, **params)`: a `coords` keyword refused by both shown builders; for knn_scipy a missing k, or a k that is neither an int nor a bool, raises; a successful kNN index means a k >= 1 (a bool counting as 1 or 0) and at most 2 N k columns; delaunay raises exactly when N >= 4 and the width is not 3 |
| EdgeBuilder.ApplyMetric | utils/edge_builder.py:74-78 | the spacetime metric with accepted keywords refuses a width other than 4, and its output keeps one row per hit with three columns |
| EdgeBuilder.ComputeEdgeIndex | utils/edge_builder.py:63-83 | the spacetime width error ends the computation before any builder runs; with no metric or the spacetime metric, a kNN index has at most 2 N k columns for the N raw hits |
| EdgeBuilder.ShownBuildersSymmetric | utils/edge_builder.py:74-83 | whatever the metric and the oracles, a successful knn_scipy or delaunay index is symmetric |
| EdgeBuilder.BoolKIsInt | graph_builders/knn_scipy.py:29-54 | `k: true` builds exactly the k = 1 index, since a bool is an int to `k + 1` and `np.repeat`; `k: false` raises |
| EdgeBuilder.SpacetimeThenDelaunay | utils/edge_builder.py:74-83 | the spacetime metric feeds Delaunay three columns, so [N, 4] input never hits the dimension error |
| Spacetime.ProcessCoordsSpacetime | metrics/spacetime.py:23-35 | succeeds exactly on width 4; fails with a dimension error otherwise; the output has N rows of width 3 |
| Spacetime.SpacetimeEntries | metrics/spacetime.py:5-33 | `out[i][j] = spatial_weight * x[i][j] + temporal_weight * c * t[i]` with c = 299792458 * 1e2 / 1e9 / 1.3333 |
| Spacetime.NoTemporalWeight | metrics/spacetime.py:33 | with temporal weight 0 the output is spatial_weight * (x, y, z) |
| Spacetime.TimeShift | metrics/spacetime.py:30-33 | shifting every time by delta moves every output coordinate by temporal_weight * c * delta |
| Spacetime.ProcessWithParams | metrics/spacetime.py:11-24 | unknown keywords are refused, then a width other than 4, and the weights default to 1.0 |
| EventOrder.EventNames | edge_index_generator.py:167 | the kept names are exactly the names starting with "event_", and they are distinct when the file's names are |
| EventOrder.EventKey | edge_index_generator.py:168 | `int(name.split('_')[1])` succeeds exactly when the stripped second field is an optionally signed run of ASCII digits |
| EventOrder.FirstUnkeyed | edge_index_generator.py:168 | none iff every event name's suffix parses as int; otherwise the first one in list order whose suffix does not |
| EventOrder.KeyOfEventName | edge_index_generator.py:168 | the sort key of "event_" + str(i) is i |
| EventOrder.SortByKey | edge_index_generator.py:168 | the sort is a permutation of its input and sorted by the integer key |
| EventOrder.SortedNames | edge_index_generator.py:167-168 | the sorted names are ascending by event number, are the same names, and are distinct when the input is |
| H5Store.H5File.constructor | edge_index_generator.py:141-145 | an opened file shows its current contents |
| H5Store.H5File.SetAttr | edge_index_generator.py:159-165 | setting an attribute changes that key only |
| H5Store.H5File.Delete | edge_index_generator.py:213-217 | `del f[name]` removes that dataset only |
| H5Store.H5File.CreateDataset | edge_index_generator.py:220-232 | creating a dataset under a new name adds it and changes nothing else |
| EdgeIndexGenerator.FirstMissing | edge_index_generator.py:150-152 | none iff all position features are in the group; otherwise the first missing feature in list order |
| EdgeIndexGenerator.Columns | edge_index_generator.py:186-188 | one column per feature, each the group's array, failing iff a feature is missing |
| EdgeIndexGenerator.Stack | edge_index_generator.py:191 | `np.stack(axis=1)`: row i column j is feature j of hit i; nothing to stack and ragged columns raise |
| EdgeIndexGenerator.Bits | edge_index_generator.py:230 | the uint8 rendering of the mask, 1 for kept and 0 for dropped, same length |
| EdgeIndexGenerator.EventOutput | edge_index_generator.py:185-207 | a missing position feature raises KeyError naming the first one; no output only under a selection; the output carries a mask exactly under a selection, one entry per hit before filtering |
| EdgeIndexGenerator.Write | edge_index_generator.py:212-232 | after the deletes and creates, name holds the edge index, name_mask exists exactly when there is a mask and holds its 0/1 rendering, every other dataset and all attributes are unchanged |
| EdgeIndexGenerator.ProcessEvent | edge_index_generator.py:171-232 | one iteration raises only where the event's computation raises, and changes no attribute and no dataset other than the event's two |
| EdgeIndexGenerator.ProcessEvents | edge_index_generator.py:171-232 | the loop, finished or aborted, leaves every dataset that is not a visited event's edge or mask dataset as it was |
| EdgeIndexGenerator.Loop | edge_index_generator.py:167-232 | the sorted loop never changes a dataset that is no group's edge or mask dataset |
| EdgeIndexGenerator.RunSpec | edge_index_generator.py:91-232 | the corrected main: a finished run passed validation, and no run changes a dataset that is no group's edge or mask dataset |
| EdgeIndexGenerator.RunAsWritten | edge_index_generator.py:73-84 | main as written: without "pyg" in the algorithm name the run aborts with the file as it was; a run that finishes is a pyg run and equals the corrected run |
| EdgeIndexGenerator.Validate | edge_index_generator.py:93-156 | the run passes validation iff the edge builder can be created, event_0 exists, holds every position feature, and satisfies the selections' requirements; the context carries the configured selections, features and overwrite flag |
| EdgeIndexGenerator.WithAttributes | edge_index_generator.py:159-165 | the seven attributes are set ("none" for an unset metric or selection), every other attribute and every dataset is kept |
| EdgeIndexGenerator.ProcessingOrder | edge_index_generator.py:167-168 | the loop visits exactly the "event_" groups, each once, in ascending numeric order |
| EdgeIndexGenerator.DelaunayRunAsWrittenRaises | edge_index_generator.py:73-84 | as written, a delaunay run raises at the device print and leaves the output file exactly as it was |
| EdgeIndexGenerator.PygRunAsWrittenAgrees | edge_index_generator.py:73-84 | for knn_pyg the run as written is the intended run |
| EdgeIndexGenerator.FailFast | edge_index_generator.py:149-165 | a bad algorithm or metric, a missing event_0 or feature, or unmet selection requirements abort the run before any attribute or dataset is written |
| EdgeIndexGenerator.SkipExisting | edge_index_generator.py:182-183 | an existing event dataset without overwrite leaves the file unchanged for that event |
| EdgeIndexGenerator.EmptySelectionSkips | edge_index_generator.py:194-200 | when the combined mask of the event has no true entry, the event has no output and nothing is written or deleted |
| EdgeIndexGenerator.WrittenEvent | edge_index_generator.py:195-232 | a processed event's name holds its edge index; `name_mask` exists iff a selection is configured (so a stale mask is removed), with one 0/1 entry per unfiltered hit; every other dataset and all attributes are unchanged |
| EdgeIndexGenerator.WriteTwice | edge_index_generator.py:213-232 | writing the same event output twice is the same as writing it once |
| EdgeIndexGenerator.WriteCommutes | edge_index_generator.py:213-232 | writes of two events whose datasets do not overlap commute |
| EdgeIndexGenerator.ProcessedIsSettled | edge_index_generator.py:182-232 | processing an event a second time changes nothing |
| EdgeIndexGenerator.SettledPreserved | edge_index_generator.py:171-232 | processing another event keeps a settled event settled |
| EdgeIndexGenerator.AllSettledFinish | edge_index_generator.py:171-183 | a loop over settled events finishes without change |
| EdgeIndexGenerator.FinishedSettles | edge_index_generator.py:171-232 | after a loop finishes, every event it visited is settled |
| EdgeIndexGenerator.SettledWithoutOverwrite | edge_index_generator.py:182-183 | a state settled while overwriting is settled without overwriting |
| EdgeIndexGenerator.LoopKeepsAttributes | edge_index_generator.py:171-232 | the event loop never touches file attributes |
| EdgeIndexGenerator.OrderApart | edge_index_generator.py:167-168 | visited events never share datasets when no group name is another group's mask name |
| EdgeIndexGenerator.LoopRerun | edge_index_generator.py:167-232 | the loop run again on its own result finishes without change, with or without overwriting |
| EdgeIndexGenerator.RerunChangesNothing | edge_index_generator.py:149-232 | idempotence: a run on the file a finished run produced leaves it exactly as it is, with the same configuration or with overwrite off |
| EdgeIndexGenerator.ExistingEventsUntouched | edge_index_generator.py:182-183 | without overwrite, a file that already holds every event keeps all its datasets; only the attributes are rewritten |
| EdgeIndexGenerator.ReadColumns | edge_index_generator.py:186-188 | the feature loop reads the columns the specification describes, or raises on the first missing one |
| EdgeIndexGenerator.CheckFeatures | edge_index_generator.py:150-152 | the check loop finds the first missing feature of event_0 |
| EdgeIndexGenerator.ComputeOutput | edge_index_generator.py:186-207 | reading, stacking, selecting and building in the loop body give the per-event output of the specification |
| EdgeIndexGenerator.WriteIn | edge_index_generator.py:213-232 | the deletes and creates leave the file as the specification's write does |
| EdgeIndexGenerator.ProcessEventIn | edge_index_generator.py:179-232 | one iteration leaves the file as the specification's step does, and a raising step leaves it unchanged |
| EdgeIndexGenerator.Prepare | edge_index_generator.py:91-156 | the setup returns the specification's validation result, and a fresh SelectionCompose exactly when a selection is configured |
| EdgeIndexGenerator.WriteAttributes | edge_index_generator.py:159-165 | the seven assignments leave the file with the attributes of the specification |
| EdgeIndexGenerator.RunLoop | edge_index_generator.py:167-232 | the sorted loop ends, normally or by an exception, with the result and contents of the specification's loop |
| EdgeIndexGenerator.Run | edge_index_generator.py:91-232 | main ends with the result and file contents of the corrected run specification |
| OutputFilename.SortItems | edge_index_generator.py:308 | `sorted(items())` with distinct keys: a permutation ordered strictly by key |
| OutputFilename.SortedItemsUnique | edge_index_generator.py:308 | two key-sorted lists of the same items are equal |
| OutputFilename.CutTags | edge_index_generator.py:326-337 | a cut raises exactly when it is a truthy scalar other than text without "min" and "max", and the error names that cut; an absent, null, empty or falsy cut, or such text, adds nothing; a non-empty mapping adds `_{tag}min{min}` when min is set, then `_{tag}max{max}` when max is set |
| OutputFilename.SelectionPart | edge_index_generator.py:322-337 | naming raises exactly for a non-empty list or a non-empty mapping one of whose cuts raises; the part is non-empty exactly for a non-empty mapping, and then starts with `_nodesel` |
| OutputFilename.FilenameSpec | edge_index_generator.py:293-341 | the name can only fail through the node-selection part |
| OutputFilename.ParamsLoop | edge_index_generator.py:307-310 | the loop appends `_{key}{value}` for every sorted item, integral floats printed as ints |
| OutputFilename.FeaturesLoop | edge_index_generator.py:313-316 | the loop appends the features without separator after `_posfeat_` |
| OutputFilename.GenerateOutputFilename | edge_index_generator.py:293-341 | the `+=` chain builds the specified name: stem, `_edges_`, algorithm, sorted parameters, features, metric, selection tags, `.h5` |
| OutputFilename.ParamsOrderIrrelevant | edge_index_generator.py:307-310 | the name does not depend on the order in which the parameters were written |
| OutputFilename.FilenameShape | edge_index_generator.py:304-340 | every name starts with `<stem>_edges_<algorithm>` and ends with `.h5` |
| OutputFilename.WholeFloatPrintsAsInt | edge_index_generator.py:309-310 | k = 8.0 gives `_k8`, r = 0.5 gives `_r0.5` |
| OutputFilename.SelectionListRaises | edge_index_generator.py:323-326 | a non-empty list as node_selection raises (a list has no `.get`) |
| OutputFilename.SelectionTags | edge_index_generator.py:322-337 | the bounds are tagged in the order tmin, tmax, qmin, qmax after `_nodesel` |
| OutputFilename.DefaultFeaturesPart | edge_index_generator.py:301-316 | the default features give `xyz` |
| JobName.Simplified | utils/generate_job_name.py:25-35 | one short form per feature, in order |
| JobName.SimplifyFeatures | utils/generate_job_name.py:12-37 | the loop produces the short forms joined without separator |
| JobName.SimplifyFeaturesAppend | utils/generate_job_name.py:24-37 | the short form of a concatenation is the concatenation of short forms |
| JobName.StripIrrelevant | utils/generate_job_name.py:26 | surrounding whitespace does not change a short form |
| JobName.HitRule | utils/generate_job_name.py:28-32 | every four-letter `hit?` name maps to its fourth letter, table entries included |
| JobName.TableForms | utils/generate_job_name.py:14-29 | charge, time and energy map to q, t and E |
| JobName.AlgorithmParamsPart | utils/generate_job_name.py:39-51 | `_k{k}` when k is present (even with r), else `_r{r}`, else ""; a null mapping raises |
| JobName.KBeforeR | utils/generate_job_name.py:45-48 | with both k and r only k is named |
| JobName.MetricTag | utils/generate_job_name.py:57-66 | an unknown metric keeps its own name |
| JobName.MetricPart | utils/generate_job_name.py:53-73 | non-empty iff a metric is given (not null, not absent); then "_" + its tag |
| JobName.MetricParamsIgnored | utils/generate_job_name.py:69-73 | metric_params never changes the name |
| JobName.GenerateJobName | utils/generate_job_name.py:87-127 | the job name raises exactly when algorithm_params is null, and otherwise starts with the date and an underscore |
| JobName.JobNameLayout | utils/generate_job_name.py:87-125 | the name is `date_alg+params_features[_metric tag]_particle[_energy]`, with particle "unknown" when the path has none and the energy omitted when there is no match |
| WorkSlices.Ceil | graph_builder_main_pt.py:39 | the least r with r x b >= a |
| WorkSlices.WorkerCount | graph_builder_main_pt.py:38 | None or 0 become min(cpu_count, nb_datapoints); any other given count is kept |
| WorkSlices.EmittedForm | graph_builder_main_pt.py:42-46 | the loop emits worker w's slice iff w x chunk < total; the emitted ones are the first workers', and slice i is [i x chunk, min((i+1) x chunk, total)) |
| WorkSlices.SliceSpec | graph_builder_main_pt.py:37-46 | at most one slice per worker, and slice i is [i x chunk, min((i+1) x chunk, total)) with chunk = ceil(total / n) |
| WorkSlices.SlicesPartition | graph_builder_main_pt.py:37-46 | at most n_workers slices, each non-empty and at most chunk long, inside [0, total), back to back from 0 to total; none iff total is 0 |
| WorkSlices.SlicesDisjoint | graph_builder_main_pt.py:42-46 | later slices start no earlier than earlier ones end |
| WorkSlices.SliceOf | graph_builder_main_pt.py:42-46 | every entry below total lies in some slice |
| WorkSlices.SlicesCover | graph_builder_main_pt.py:42-46 | an entry lies in some slice iff it is in [0, total) |
| WorkSlices.ProcessSlices | graph_builder_main_pt.py:37-48 | fails exactly when the worker count is not positive: 0 divides by zero, negative is refused by the pool; otherwise the slices of min(nb_datapoints, num_entries) entries for that many workers |
| WorkSlices.ComputeSlices | graph_builder_main_pt.py:41-46 | the append loop produces the specified slices |
| WorkSlices.FlattenAppend | graph_builder_main_pt.py:48-52 | concatenating the results of two runs of slices is concatenating their flattenings |
| WorkSlices.FlattenPosition | graph_builder_main_pt.py:48-52 | slice i's results sit in the output right after those of the slices before it |
| WorkSlices.ConcatResults | graph_builder_main_pt.py:47-52 | the three `extend` loops give the flattening of the workers' results in slice order |

## Left out

- File and ROOT input/output are replaced by values: `h5py`, `uproot`, the existence check of the input file, directory creation and the output path options (edge_index_generator.py:70-71, 141-145, 263-278). The output file is the `H5File` class; the data file is a value.
- The single-file mode (`combine_files`), where the data file is also the target, is not modelled. The `combine_files` attribute is always False.
- Monitoring, timing, progress bars and printing are not modelled; they do not affect results.
- The `str()` rendering of dictionaries and lists stored as attributes is supplied as text in the configuration. The compression argument is not modelled.
- The following are not part of this model: `PercentileTimeSelection`, `graph_builders/radius.py` and `utils/hdf5_writer.py`. A percentile selection enters as an arbitrary selection predicate, and the radius builder as an oracle.
- `knn_pyg.build_edges` and the weighted-Euclidean metric are thin wrappers over torch and floating-point distance code. They enter as oracles.
- The cKDTree queries and the Qhull triangulation are foreign. Only their outputs (or their failure) are modelled. For the kNN builder, the radius and its `query_pairs` set are unused. Only the failure of `np.max` at graph_builders/knn_scipy.py:35 on an empty input is modelled; `query_pairs` itself is not.
- KnnScipy.KnnInRange: cKDTree reports a missing neighbour with index N when an event has at most k hits, which is common after node selection. The hypothesis of this lemma then fails, and the code as written emits edges to the nonexistent node N (KnnScipy.MissingNeighbourEdge). The model does not correct this: the builders pass the query's indices through as the source does.
- Delaunay.EdgeList: a Python set is listed in first-insertion order to stand in for its iteration order. Every property proved is independent of that order.
- NodeSelection.ApplySelection: requires time, charge and coordinates of equal length. numpy's broadcasting of length-one arrays and its shape errors are not modelled. Times and charges are reals, so a NaN cannot be expressed; the source's `>=` and `<=` tests always drop a hit whose time or charge is NaN.
- Spacetime.ProcessCoordsSpacetime: exact real arithmetic stands in for float64, so rounding is not modelled. Nor is the dtype of the copy: the scaled time is assigned back into `coords_copy` (metrics/spacetime.py:30), so an integer input array truncates it and a float32 array rounds it to single precision.
- WorkSlices.Ceil: exact integer ceiling, whereas the source computes `math.ceil(total / n)` in floating point. The two differ only beyond 2^53 entries.
- WorkSlices.ProcessSlices: `os.cpu_count()` returning None is not modelled. The threads, `worker_slice`, `RootToGraph` and the dataset classes are not modelled either: the workers' results enter as a list in slice order, the order `ThreadPoolExecutor.map` yields them in.
- EventOrder.EventKey: `int()` accepts ASCII digits with an optional sign and surrounding whitespace. Non-ASCII Unicode digits are not modelled.
- OutputFilename.CutTags: a cut given as a YAML list, and non-scalar parameter values, are not modelled. Parameter keys are strings. A `Value` has no null, so a null parameter value (`k: null` gives `_kNone`, edge_index_generator.py:310) and a null cut bound (`_tminNone`) cannot be expressed.
- OutputFilename.SelectionPart: a truthy scalar `node_selection` cannot be expressed; the source raises AttributeError at its `.get` (edge_index_generator.py:326).
- JobName.GenerateJobName: a null or non-string `pos_features` is not modelled, and neither are non-string features. A null `k` or `r` (which renders as `_kNone`, utils/generate_job_name.py:46) cannot be expressed, since a `Value` has no null. Reading the YAML file, the clock (`datetime.now`) and the regular-expression engine are parameters.
- EdgeBuilder.Build: the knn_scipy branch calls the corrected builder KnnScipy.BuildEdges. An event with zero hits therefore gets an empty edge index, where the code as written raises ValueError at `np.max` (graph_builders/knn_scipy.py:35). The code as written is KnnScipy.BuildEdgesAsWritten, and KnnScipy.AgreesWhenNonEmpty shows that the two agree on every event with at least one hit.
- EdgeIndexGenerator.Run: models the corrected run. It omits the torch finding below, which EdgeIndexGenerator.RunAsWritten models separately. It also uses the corrected kNN builder (see EdgeBuilder.Build).
- SelectionCompose.ThresholdMask: the `NodeSelection` class of utils/node_selection.py has no `get_mask`, only `apply_selection` and `__call__`. Its requirement check is skipped by the `hasattr` guard (utils/selection_compose.py:38). With that class, a run with a fixed node selection therefore raises AttributeError at `selection.get_mask(event_group)` (utils/selection_compose.py:58) on the first event it computes. edge_index_generator.py:19 imports `NodeSelection` together with `PercentileTimeSelection` from a `node_selection` module, and that file does not define the latter. The model gives the fixed selection a `get_mask` that applies the interval test of `apply_selection` to the group's "time" and "charge" arrays. That method and those two key names are the model's.
- SelectionCompose.CombinedMask: a mask whose length is not the number of hits fails. This includes a length-one mask, which numpy would broadcast in `cumulative_mask &= mask` (utils/selection_compose.py:59).

## Findings

| source | as written | input that shows it | evidently intended | confidence | as-written member | corrected member |
|---|---|---|---|---|---|---|
| graph_builders/knn_scipy.py:35 | `np.max(distances[:, k])` reduces an empty array when there are no nodes, and raises although the radius it computes is never used | an event with zero hits and no node selection, k = 5 | an empty edge index, as Delaunay returns for small inputs | medium, not executed | KnnScipy.BuildEdgesAsWritten, KnnScipy.EmptyInputRaises | KnnScipy.BuildEdges |
| edge_index_generator.py:73-84 | `import torch` sits inside `if 'pyg' in args.algorithm`, which makes `torch` local to `main`; line 84 reads `torch.cuda` unconditionally | algorithm "delaunay" (any name without "pyg") raises UnboundLocalError before anything is written | the device print only when torch is loaded, then the normal run | high, not executed | EdgeIndexGenerator.RunAsWritten, EdgeIndexGenerator.DelaunayRunAsWrittenRaises | EdgeIndexGenerator.RunSpec |
