# meegsim core, modelled in Dafny

meegsim simulates M/EEG data. A `SourceSimulator` is bound to a source space
(`src`). Point sources are added to it in groups: each group has a location, a
waveform, an optional SNR and names. Noise sources are added the same way.
`simulate` then generates every group and, when asked, scales the signal
waveforms so that their sensor-space variance reaches a target signal-to-noise
ratio relative to the noise. The helpers around this core do several jobs:

- they check the user's inputs (`_check.py`);
- they build point sources from vertex lists (`sources.py`);
- they compute sensor-space variance and amplitude factors (`snr.py`);
- they combine two source estimates, unpack vertex lists, read the sampling
  rate and grow a surface patch (`utils.py`);
- they turn a set of coupling edges into depth-first walks over each tree of
  the coupling forest (`coupling_graph.py`).

The Dafny modules follow that structure:

| module | file | models |
|---|---|---|
| Outcomes | outcomes.dfy | the exceptions the code raises (`Error`), `Result`/`Option`, and the first error a sequence of steps raises |
| PyValues | pyvalues.dfy | the small universe of Python values the checks inspect (ints, strings, lists, tuples, arrays) and iteration over them |
| PyStrings | pystrings.dfy | decimal `str()` of integers, as used in f-string names |
| Dicts | dicts.dfy | insertion-ordered Python dicts and dict comprehensions where the last key wins |
| Floats | floats.dfy | IEEE-style division and square root with NaN and infinities, over exact reals |
| Sums, Matrices | sums.dfy, matrices.dfy | finite sums and the matrix algebra behind the variance formula |
| Graphs | graphs.dfy | the part of networkx the coupling graph uses: `Graph.add_edges_from`, `dfs_edges`, `connected_components`, `subgraph`, `is_forest` |
| CouplingGraph | coupling_graph.dfy | `generate_walkaround_paths`, `connecting_paths` |
| Check | checks.dfy | `_check.py` |
| Sources | sources.dfy | `PointSource.__repr__`, `_create_point_sources` |
| SourceGroups | source_groups.dfy | `PointSourceGroup.create`, `PatchSourceGroup`, the base `simulate` |
| Simulate | simulate.dfy | `SourceSimulator` and `_simulate` |
| Snr | snr.dfy | `snr.py` and `PointSource.to_stc` |
| Utils | utils.dfy | `_extract_hemi`, `get_sfreq`, `unpack_vertices`, the flattening of vertex lists |
| CombineStcs | combine_stcs.dfy | `combine_stcs` |
| Patches | grow_patch.dfy | `grow_patch` |

Real numbers stand in for floating point. NaN and the infinities are modelled
where the code tests for them (`np.isinf`). The random number generator, the
band-pass filter, the forward model's gain matrix and a few functions that are
not part of this model are passed in as parameters. Each one is listed under
"Left out".

## Model

| member | source | states |
|---|---|---|
| Outcomes.Collect | src/meegsim/simulate.py:321-329 | a sequence of steps succeeds iff every step succeeds, giving each step's value in order; otherwise it fails with the error of the first failing step |
| Outcomes.FirstFailure | src/meegsim/_check.py:77-85 | a sequence of checks passes iff all pass; otherwise the result is the first failing check |
| Outcomes.Need | src/meegsim/_check.py:168-180 | a guarded raise passes exactly when the condition holds and otherwise raises the given error |
| PyValues.Iterate | src/meegsim/_check.py:104 | iterating a list, tuple or array yields its items; a string yields its one-character strings; None, an int or any other non-iterable object raises TypeError |
| PyValues.Row | src/meegsim/sources.py:121 | row k of a 2-D array has the array's column count, and entry t is the row-major element k * cols + t |
| PyStrings.NatToStringInjective | src/meegsim/_check.py:192 | two natural numbers with the same decimal string are equal |
| PyStrings.ParseNatToString | src/meegsim/_check.py:192 | reading back the decimal digits of str(n) gives n |
| PyStrings.IntToString | src/meegsim/sources.py:126 | str(i) starts with '-' exactly for negative i, holds only digits otherwise, and equals the unsigned form for i >= 0 |
| PyStrings.IntToStringInjective | src/meegsim/sources.py:126 | two integers with the same str() are equal |
| Dicts.Store | src/meegsim/sources.py:120-127 | `d[k] = v` maps k to v and leaves every other key unchanged; a new key goes to the end of the key order and an existing key keeps its position |
| Dicts.FromPairsDomain | src/meegsim/sources.py:120-127 | a key is in the comprehension's dict iff some pair has that key |
| Dicts.FromPairsLastWins | src/meegsim/sources.py:120-127 | the value stored for a key is that of the last pair with that key |
| Dicts.FromDistinctPairs | src/meegsim/sources.py:120-127 | with distinct keys, the dict has one entry per pair, in pair order |
| Dicts.Values | src/meegsim/snr.py:120 | `dict.values()` lists the values in key-insertion order |
| Dicts.MapValues | src/meegsim/snr.py:183-184 | transforming every value keeps the keys and their order and applies the function to each value |
| Floats.Divide | src/meegsim/snr.py:88 | `np.divide` on finite operands with a non-zero divisor is the real quotient; x/0 is +inf or -inf by the sign of x, and 0/0 is NaN; NaN and inf/inf give NaN; finite/inf is 0 |
| Floats.Sqrt | src/meegsim/snr.py:96 | `np.sqrt` is finite exactly on finite non-negative input, where it is the non-negative root; sqrt(+inf) is +inf; NaN, -inf and negative input give NaN |
| Sums.SumScale | src/meegsim/snr.py:56-60 | a sum of c-scaled terms is c times the sum |
| Sums.SumNonnegative | src/meegsim/snr.py:56-60 | a sum of non-negative terms is non-negative |
| Matrices.TraceOfQuadraticForm | src/meegsim/snr.py:58-60 | trace(L (c X X^T) L^T) equals c times the sum over sensors of the squared projections of X's columns |
| Graphs.AppendNew | src/meegsim/coupling_graph.py:61 | after adding a node the list holds exactly the old nodes and the new one, and a duplicate-free list stays duplicate-free |
| Graphs.AddNodeWellFormed | src/meegsim/coupling_graph.py:61 | adding a node keeps the graph well formed and its edge set, and gives a new node no neighbours |
| Graphs.LinkAdj | src/meegsim/coupling_graph.py:61 | linking u and v adds v to u's neighbours and u to v's, and changes no other adjacency |
| Graphs.AddEdgeWellFormed | src/meegsim/coupling_graph.py:61 | `add_edge(u, v)` keeps the graph well formed, adds exactly the undirected edge {u, v}, and adds exactly u and v as nodes |
| Graphs.BuildFacts | src/meegsim/coupling_graph.py:60-61 | the graph built from the coupling keys is well formed; its edges are exactly the keys, read as undirected; its nodes are exactly the keys' endpoints |
| Graphs.Visit | src/meegsim/coupling_graph.py:34 | the depth-first visit only adds nodes of the graph to the visited set |
| Graphs.VisitFresh | src/meegsim/coupling_graph.py:34 | every tree edge of the visit reaches a node that was not visited before, and the visited set grows by exactly the reached nodes |
| Graphs.VisitDistinct | src/meegsim/coupling_graph.py:34 | no node is reached twice by the tree edges |
| Graphs.VisitOrdered | src/meegsim/coupling_graph.py:34 | every tree edge is an edge of the graph, and its parent is the root or was reached by an earlier edge |
| Graphs.VisitCloses | src/meegsim/coupling_graph.py:34 | the visit reaches every listed child, and every neighbour of a newly visited node is visited |
| Graphs.VisitStaysInside | src/meegsim/coupling_graph.py:34 | a visit started inside a closed node set never leaves it |
| Graphs.ReachFacts | src/meegsim/coupling_graph.py:34 | the nodes `dfs_edges` reaches from r are r plus the edges' targets; that set is closed under adjacency and is the least closed set holding r |
| Graphs.SameComponent | src/meegsim/coupling_graph.py:68 | a node reachable from x reaches exactly the same nodes as x |
| Graphs.RepsCover | src/meegsim/coupling_graph.py:68 | every node not yet seen lies in the component of some representative `connected_components` picks |
| Graphs.ComponentsFacts | src/meegsim/coupling_graph.py:68 | each component is the set reachable from its representative, contains it, and is closed under adjacency |
| Graphs.ComponentsCover | src/meegsim/coupling_graph.py:68 | every node of the graph is in some component |
| Graphs.EdgesInComponents | src/meegsim/coupling_graph.py:68 | an edge is in the graph iff it lies within some component |
| Graphs.Filter | src/meegsim/coupling_graph.py:69 | keeping the nodes of a set keeps exactly those nodes, in order and without duplicates |
| Graphs.Subgraph | src/meegsim/coupling_graph.py:69 | the subgraph induced by a node set of a well-formed graph is well formed and has exactly those nodes |
| Graphs.SubgraphFacts | src/meegsim/coupling_graph.py:69 | the induced subgraph's edges are exactly the graph's edges with both ends in the set |
| Graphs.VisitOnSubgraph | src/meegsim/coupling_graph.py:69-72 | a depth-first visit inside a closed set gives the same walk on the induced subgraph as on the whole graph |
| Graphs.DfsOnComponent | src/meegsim/coupling_graph.py:69-72 | `dfs_edges` from any node of a component gives the same edges on the component's subgraph as on the whole graph |
| Graphs.DistinctChildrenCard | src/meegsim/coupling_graph.py:34 | tree edges with distinct targets reach as many nodes as there are edges |
| Graphs.TreePairsDistinct | src/meegsim/coupling_graph.py:34 | a depth-first edge list has no self-loops and no undirected edge twice |
| Graphs.TreeFacts | src/meegsim/coupling_graph.py:34 | the depth-first tree from r has one edge fewer than the nodes reachable from r; its edges are distinct undirected graph edges within that set, and none is a self-loop |
| Graphs.TreeSpansIff | src/meegsim/coupling_graph.py:34 | a component has one edge fewer than it has nodes iff the depth-first tree uses every edge of the component |
| Graphs.ComponentTree | src/meegsim/coupling_graph.py:68-69 | the same equivalence, stated for the subgraph of the i-th component |
| Graphs.ForestIffSpanningTrees | src/meegsim/coupling_graph.py:63 | `is_forest` holds iff, in every component, the depth-first tree from its representative covers all of the component's edges |
| Graphs.SelfLoopNotForest | src/meegsim/coupling_graph.py:63 | a graph with a self-loop is not a forest |
| CouplingGraph.GenerateWalkaroundPaths | src/meegsim/coupling_graph.py:29-34 | with a start node: fails exactly when the node is not in the tree, else gives `dfs_edges` from it; without one: fails exactly on an empty tree (choice from an empty list), else gives `dfs_edges` from some node of the tree |
| CouplingGraph.ComponentWalk | src/meegsim/coupling_graph.py:67-74 | in a forest, the walk generated for each component succeeds, starts at a node of the component, reaches all its nodes and uses exactly its edges |
| CouplingGraph.ComponentWalksFacts | src/meegsim/coupling_graph.py:67-74 | the same holds for every entry of the list of walks |
| CouplingGraph.WalksCoverKeys | src/meegsim/coupling_graph.py:60-74 | when each walk uses exactly its component's edges, the walks together use exactly the coupling keys as undirected edges |
| CouplingGraph.ConnectingPathsOk | src/meegsim/coupling_graph.py:59-76 | for keys forming a forest, `connecting_paths` succeeds with one walk per component, each a spanning depth-first tree of its component, and the walks together cover exactly the keys |
| CouplingGraph.ConnectingPathsValue | src/meegsim/coupling_graph.py:67-76 | for keys forming a forest, the result is the built graph paired with the walks of its components, in component order |
| CouplingGraph.ConnectingPathsErrors | src/meegsim/coupling_graph.py:60-64 | no keys gives the empty-graph error of `is_forest`; otherwise the call fails exactly when the graph is not a forest, and then with the cycles error |
| CouplingGraph.SelfCouplingRejected | src/meegsim/coupling_graph.py:60-64 | a key coupling a source with itself makes the call fail with the cycles error |
| CouplingGraph.WalkaroundExample | tests/test_coupling_graph.py:56-64 | on the tree 0-1, 0-2, 1-3, 1-4 started at 0, the walk is (0,1), (1,3), (1,4), (0,2) |
| CouplingGraph.SingleNodeExample | tests/test_coupling_graph.py:78-86 | a single-node tree gives no walk edges |
| Check.Partial | src/meegsim/_check.py:148 | `functools.partial` keeps the function and binds the given keywords over the earlier bindings, keeping all other bindings |
| Check.SeededKeywords | src/meegsim/_check.py:47-48 | the keywords of the trial call are the bound and passed keywords, with random_state set to 0 |
| Check.CheckCallable | src/meegsim/_check.py:20-52 | passing random_state yourself raises the duplicate-keyword TypeError; otherwise the result is the function called with random_state=0 |
| Check.PartialSeedReplaced | src/meegsim/_check.py:146-149 | a location function with parameters is called once with those parameters and random_state=0 |
| Check.ElementShape | src/meegsim/_check.py:77-85 | an element passes iff it is a list or tuple of two items, and a failure names the element and its index |
| Check.CheckVerticesListOfTuples | src/meegsim/_check.py:55-85 | passes iff the value is a list or tuple all of whose elements are pairs; a non-list fails first; otherwise the failure names the first bad element |
| Check.VertexInSrc | src/meegsim/_check.py:104-111 | one vertex passes iff it unpacks into a source-space index valid for `src[...]` (negative counts from the end) and a vertex number in that space's vertno |
| Check.CheckVerticesInSrc | src/meegsim/_check.py:88-111 | a non-iterable raises TypeError; otherwise passes iff every vertex is in src, and fails with the error of the first vertex that is not |
| Check.NegativeIndexAccepted | src/meegsim/_check.py:104-111 | the index -1 passes the `src_idx >= len(src)` guard and reads the last source space |
| Check.IndexBelowRangeRejected | src/meegsim/_check.py:104-111 | an index below -len(src) is rejected by the list indexing |
| Check.CheckLocation | src/meegsim/_check.py:114-154 | a vertex list is accepted iff it is a list of pairs all in src, with one source per pair; a location function is called once with its parameters and random_state=0, its error is passed on, and its result must pass the same two checks |
| Check.TrialTimes | src/meegsim/_check.py:163-164 | the trial time axis has 1000 samples spaced 1/1000 apart, starting at 0 |
| Check.CheckShape | src/meegsim/_check.py:168-180 | a waveform passes iff it has one row per source and, when it came from a function, 1000 samples per row; the row check comes first |
| Check.RowsCheckedFirst | src/meegsim/_check.py:168-180 | with both the rows and the samples wrong, the row error is raised |
| Check.CheckWaveform | src/meegsim/_check.py:157-182 | an array is kept iff its shape passes; a function is called on the trial times, its error is passed on, and its output shape must pass |
| Check.AutoNames | src/meegsim/_check.py:192 | automatic names are one per source, each built from the group label and the index |
| Check.AutoNameInjective | src/meegsim/_check.py:192 | two automatic names of one group are equal only for equal indices |
| Check.CheckNames | src/meegsim/_check.py:185-202 | no names or an empty list gives the automatic names; otherwise the list must have one name per source, else NameCountMismatch |
| Check.NamesNotChecked | src/meegsim/_check.py:195-202 | given names are accepted whatever the existing names are |
| Check.CheckSnr | src/meegsim/_check.py:205-211 | any SNR value raises; only None passes |
| Check.CheckSnrParams | src/meegsim/_check.py:214-218 | the SNR parameters always come back as None |
| Utils.ExtractHemi | src/meegsim/utils.py:107-124 | missing type or id raises; a non-surface space has no hemisphere; a surface space gives "lh" or "rh" for the two FreeSurfer ids and raises for any other id |
| Utils.Diffs | src/meegsim/utils.py:147 | `np.diff` has one element fewer than the times, each the difference of neighbours |
| Utils.DiffsTelescope | src/meegsim/utils.py:147-150 | the differences sum to last time minus first time |
| Utils.GetSfreq | src/meegsim/utils.py:143-153 | fewer than two points raises the too-few-points ValueError; otherwise it succeeds iff the mean step is close to the first step, fails with the not-uniform ValueError when it is not, and the rate is 1/first step (+inf for a zero step) |
| Utils.UniformTimesRate | src/meegsim/utils.py:143-153 | uniformly spaced times with step d give the rate 1/d |
| Utils.Concat | src/meegsim/sources.py:108-117 | concatenation has the total length of the lists |
| Utils.FlattenIndexedAt | src/meegsim/utils.py:178-182 | element j of list i lands at position (length of the lists before i) + j, tagged with i |
| Utils.FlattenIndexedFrom | src/meegsim/utils.py:178-182 | every flattened entry carries a valid list index and an element of that list |
| Utils.UnpackVertices | src/meegsim/utils.py:174-182 | a list with an item that is not a list is wrapped into one source space with a warning; otherwise the input must be an iterable of iterables, else TypeError |
| Utils.UnpackListOfLists | src/meegsim/utils.py:174-182 | a list of lists unpacks without warning into (list index, vertex) pairs in order |
| Utils.UnpackFlatList | src/meegsim/utils.py:174-182 | a flat list of ints unpacks with a warning into pairs with index 0 |
| Sources.Repr | src/meegsim/sources.py:46-49 | the repr shows the hemisphere when there is one, else `src[i]`, and always the vertex number |
| Sources.ReprInjective | src/meegsim/sources.py:46-49 | two sources with equal reprs have the same location description and vertex number |
| Sources.SpaceHemi | src/meegsim/sources.py:115 | an index past the source spaces raises IndexError; otherwise the hemisphere is read from that space |
| Sources.CallKeywords | src/meegsim/sources.py:89 | `**params` succeeds iff the parameters are a mapping without a `random_state` key; the default None raises TypeError (not a mapping), and a `random_state` key raises TypeError (multiple values) |
| Sources.Locate | src/meegsim/sources.py:89 | a vertex list is used as given; a location function is called with the random state and the location parameters, after the `**` check, whose error comes first |
| Sources.Generate | src/meegsim/sources.py:100 | a waveform array is used as given; a waveform function is called with the source count, the times, the random state and the waveform parameters, after the `**` check |
| Sources.PrepareInputs | src/meegsim/sources.py:88-103 | the location's error (including TypeError for `**None`) comes first; then a name count unlike the vertex count raises; then the waveform's error; then a waveform of the wrong shape raises; on success the vertices and data are what the location and waveform gave, with one name slot per vertex, None when no names are given |
| Sources.SpaceHemis | src/meegsim/sources.py:112-116 | the hemisphere of each used source space, in order |
| Sources.Entries | src/meegsim/sources.py:119-126 | one (name, source) entry per vertex, in flattened order |
| Sources.EntryAt | src/meegsim/sources.py:108-126 | vertex j of space i gets the given name, else the default name; it keeps its space index, vertex number, waveform row and hemisphere |
| Sources.BuildSources | src/meegsim/sources.py:120-129 | the dict of sources is well formed and has at most one entry per vertex |
| Sources.BuiltEntry | src/meegsim/sources.py:120-129 | the entry with the last occurrence of a name is the one stored under it |
| Sources.BuiltDistinct | src/meegsim/sources.py:120-129 | with distinct names, the dict has every entry, in vertex order |
| Sources.CreatePointSources | src/meegsim/sources.py:72-129 | fails exactly when input preparation fails, with the same error; otherwise gives the dict of the prepared entries |
| Sources.DefaultLocationParamsRaise | src/meegsim/sources.py:78-89 | with a location function and the default `location_params=None`, creating point sources raises TypeError |
| Sources.DefaultWaveformParamsRaise | src/meegsim/sources.py:79-100 | with vertex lists, matching names, a waveform function and the default `waveform_params=None`, creating point sources raises TypeError |
| SourceGroups.BaseSimulate | src/meegsim/source_groups.py:13-17 | the base `simulate` raises NotImplementedError |
| SourceGroups.Create | src/meegsim/source_groups.py:54-79 | a created group has no SNR or SNR parameters and one name per source: the given names, else the automatic ones |
| SourceGroups.CreateOrder | src/meegsim/source_groups.py:73-79 | the checks run in the order location, waveform, snr, names, and the first failure decides the error; success stores the checked values |
| SourceGroups.CreateSucceeds | src/meegsim/source_groups.py:73-79 | a group is created iff the location, waveform and names checks pass and no SNR is given |
| SourceGroups.CreatePatchGroup | src/meegsim/source_groups.py:82-83 | `PatchSourceGroup.create` raises AttributeError |
| Simulate.Init | src/meegsim/simulate.py:18-34 | a new simulator keeps src, has no groups, names or coupling, and no SNR adjustment |
| Simulate.AddPointSources | src/meegsim/simulate.py:84-107 | succeeds iff the group is created with label `sg<k>` and the known names; then the group and its names are appended, the SNR flag is set iff the group has an SNR, and the names are returned |
| Simulate.AddPatchSources | src/meegsim/simulate.py:160-180 | always raises AttributeError |
| Simulate.AddNoiseSources | src/meegsim/simulate.py:223-242 | succeeds iff the noise group is created with label `ng<k>`; then it and its names are appended and the returned names are the automatic ones |
| Simulate.SetCoupling | src/meegsim/simulate.py:244-245 | always raises NotImplementedError |
| Simulate.FlagNeverRaised | src/meegsim/simulate.py:102-104 | no sequence of commands turns on the SNR flag or changes src or the coupling |
| Simulate.ReachableNotAdjusted | src/meegsim/simulate.py:102-104 | from a new simulator, the SNR flag stays off and the coupling stays empty |
| Simulate.SignalNamesInjective | src/meegsim/simulate.py:84-94 | automatic signal names of different groups or indices differ |
| Simulate.NoiseNamesInjective | src/meegsim/simulate.py:223-233 | automatic noise names of different groups or indices differ |
| Simulate.SignalNotNoise | src/meegsim/simulate.py:223-233 | no automatic signal name equals an automatic noise name |
| Simulate.AppendedDistinct | src/meegsim/simulate.py:98-100 | appending a new group's automatic names keeps the registry free of duplicates |
| Simulate.ApplyGenerated | src/meegsim/simulate.py:98-100 | a command without given names keeps every registered name an automatic name of an existing group |
| Simulate.GeneratedNamesDistinct | src/meegsim/simulate.py:98-100 | any run of commands without given names keeps the registry duplicate-free |
| Simulate.FreshNamesDistinct | src/meegsim/simulate.py:237-239 | from a new simulator, commands without given names never register a name twice |
| Simulate.GroupNames | src/meegsim/simulate.py:100 | the names of a list of groups are those of all but the last group, followed by the last group's names |
| Simulate.ApplyKeepsRegistry | src/meegsim/simulate.py:98-100 | every command keeps the registry equal, as a multiset, to the names of the signal and noise groups |
| Simulate.RegistryIsGroupNames | src/meegsim/simulate.py:98-100 | any run of commands keeps that equality |
| Simulate.FreshRegistry | src/meegsim/simulate.py:21-27 | from a new simulator, the registry is always exactly the names of the stored groups |
| Simulate.PointGroupSimulate | src/meegsim/source_groups.py:43-52 | generating a point group raises AttributeError, since `PointSource.create` does not exist |
| Simulate.NoGroupGenerates | src/meegsim/source_groups.py:43-52 | any non-empty list of point groups fails to generate |
| Simulate.AsWrittenSimulateFails | src/meegsim/simulate.py:249-304 | as the code stands, `simulate` fails for every simulator; past its own checks it raises IndexError when sfreq * duration <= 1 and that AttributeError otherwise |
| Simulate.GenerateAll | src/meegsim/simulate.py:321-329 | generation succeeds iff every group does, giving the groups' sources concatenated in order; otherwise it fails with the first group's error |
| Simulate.NoiseGeneratedFirst | src/meegsim/simulate.py:321-329 | a failing noise group decides the error, before any signal group runs |
| Simulate.SimulateGroups | src/meegsim/simulate.py:307-343 | noise errors come first, then signal errors; without adjustment the result is the two dicts; with adjustment it is the adjuster's result on them |
| Simulate.SampleCount | src/meegsim/configuration.py:35-36 | `np.arange(n)` has n rounded up samples, and none for n <= 0 |
| Simulate.TimeAxis | src/meegsim/configuration.py:35-37 | the configuration's time axis raises IndexError exactly when sfreq * duration <= 1; otherwise sample i is at i / sfreq |
| Simulate.TimeAxisRate | src/meegsim/configuration.py:35-37 | `get_sfreq` reads the rate sfreq back from that time axis |
| Simulate.SimulateAll | src/meegsim/simulate.py:249-304 | no groups raises; a needed but missing forward model raises; then too short a time axis raises IndexError; otherwise the result is `_simulate` on the stored groups and the time axis |
| Simulate.ReachableNeedsNoForward | src/meegsim/simulate.py:282-284 | for every reachable simulator with a valid time axis, simulating without a forward model never needs one and runs without adjustment |
| Snr.Restrict | src/meegsim/snr.py:47-54 | restricting the forward model succeeds iff every vertex has a gain column, and then has one row per sensor and one column per vertex |
| Snr.VarianceData | src/meegsim/snr.py:37-45 | filtering without both band limits raises; without filtering the data is used as is; with filtering the result is the filtered data of the same shape |
| Snr.TraceIsEnergy | src/meegsim/snr.py:56-60 | the trace formula equals c times the total squared sensor projection |
| Snr.ProjectedVariance | src/meegsim/snr.py:56-60 | the variance is NaN exactly for no sensors, or for no samples with some sources; it is 0 for no sources and no samples; it is never infinite or negative, and otherwise it is the mean squared sensor projection |
| Snr.TraceIsMeanSquare | src/meegsim/snr.py:56-60 | trace over sensors equals the mean of the squared projections over sensors and samples |
| Snr.SensorSpaceVariance | src/meegsim/snr.py:10-62 | fails on missing band limits or on vertices missing from the forward model; otherwise the variance is never infinite, is NaN exactly on NaN data, no sensors or no samples, and is otherwise the mean squared projection of the (filtered) data |
| Snr.CancellationExample | tests/test_snr.py:24-39 | opposite gains for two equal constant sources give zero sensor-space variance |
| Snr.ScaleWaveform | src/meegsim/snr.py:146 | scaling a waveform keeps its length; a NaN factor gives NaNs; a finite factor multiplies every sample |
| Snr.ScaleSource | src/meegsim/snr.py:146 | scaling a source changes only its waveform |
| Snr.ScaleEstimate | src/meegsim/snr.py:184 | scaling an estimate scales every row and keeps vertices, samples and rate |
| Snr.VarianceScales | src/meegsim/snr.py:56-60 | scaling the data by c keeps success and errors and multiplies the variance by c squared |
| Snr.ScaledProjectedVariance | src/meegsim/snr.py:56-60 | the projected variance of c-scaled data is c squared times the original |
| Snr.AmplitudeAdjustmentFactor | src/meegsim/snr.py:65-105 | zero noise with positive signal raises the noise error; zero signal with positive noise and target raises the signal error; the factor is finite exactly for positive variances and a non-negative target, and is then non-negative and never infinite |
| Snr.TargetReached | src/meegsim/snr.py:96 | f squared equal to target / (signal/noise) means f squared times signal equals target times noise |
| Snr.FactorReachesTarget | src/meegsim/snr.py:84-96 | a finite factor, squared and applied to the signal variance, gives target times the noise variance |
| Snr.FactorOnVariances | src/meegsim/snr.py:84-96 | the same, for a scaled variance passed as a value |
| Snr.BothVariancesZero | src/meegsim/snr.py:88-103 | zero signal and zero noise variance give a NaN factor and raise nothing |
| Snr.SourceEstimate | src/meegsim/sources.py:51-63 | `to_stc` needs a space index below 2 and a non-zero rate; it gives a one-vertex estimate with the source's waveform |
| Snr.CombineSources | src/meegsim/snr.py:120 | combining sources needs equal waveform lengths; it gives one row per source, in order, with its vertex |
| Snr.ScaledSourceEstimate | src/meegsim/sources.py:51-63 | the estimate of a scaled source is the scaled estimate |
| Snr.ScaledCombination | src/meegsim/snr.py:163 | combining scaled sources gives the scaled combination |
| Snr.Param | src/meegsim/snr.py:128 | `snr_params[key]` raises TypeError on None, KeyError on a missing key, and gives the value otherwise |
| Snr.SourceReachesTarget | src/meegsim/snr.py:139-146 | a source scaled by its finite factor has sensor-space variance equal to target times the noise variance |
| Snr.LocalPair | src/meegsim/snr.py:134-146 | an unknown name raises KeyError; a factor error is passed on; otherwise only that source is scaled by its factor and the keys stay the same |
| Snr.LocalPairs | src/meegsim/snr.py:134-146 | a successful pass over the names needs equal-length names and targets, keeps the keys and their order, and leaves unnamed sources unchanged |
| Snr.LocalPairsScaleOnce | src/meegsim/snr.py:134-146 | a name listed once ends up as its original source scaled by its own factor |
| Snr.LocalGroups | src/meegsim/snr.py:123-146 | success needs one target per name in each adjusted group, keeps the keys, and leaves sources of no adjusted group unchanged |
| Snr.LocalGroupsScaleOnce | src/meegsim/snr.py:123-146 | a name that appears once across the adjusted groups ends up scaled once by its factor |
| Snr.GroupBand | src/meegsim/snr.py:128-131 | a group's band comes from its fmin and fmax parameters, whose errors are passed on, and its noise variance is that of the combined noise in the band |
| Snr.GroupFactorAt | src/meegsim/snr.py:128-145 | a group's factor function fails with the band's error, or gives the factor of each source and target in that band |
| Snr.AdjustSnrLocal | src/meegsim/snr.py:108-146 | no noise sources raises; noise waveforms of unequal length raise; otherwise the groups are adjusted against the combined noise |
| Snr.AdjustSnrLocalFrame | src/meegsim/snr.py:108-146 | a successful local adjustment keeps the keys and leaves sources outside adjusted groups unchanged |
| Snr.AdjustSnrLocalScalesOnce | src/meegsim/snr.py:108-146 | a name appearing once across the adjusted groups is scaled exactly once, by its own factor against the group's band |
| Snr.MeasuredInputs | src/meegsim/snr.py:156-179 | the global inputs fail on unequal signal waveforms, on no noise sources, on unequal noise waveforms or on a missing parameter, in that order; otherwise they are the combined signal and noise and the band |
| Snr.GlobalFactor | src/meegsim/snr.py:173-182 | the global factor is never infinite and passes on the input errors |
| Snr.GlobalFactorParts | src/meegsim/snr.py:173-182 | the global factor is the amplitude factor of the combined signal and noise variances in the band |
| Snr.ScaleAll | src/meegsim/snr.py:183-184 | every source is scaled by the same factor, and the keys stay the same |
| Snr.AdjustSnrGlobal | src/meegsim/snr.py:149-184 | no sources skips with a warning; otherwise succeeds iff the factor does, and then scales every source by it |
| Snr.GlobalCommonFactor | src/meegsim/snr.py:149-184 | a successful global adjustment skips exactly when there are no sources, and otherwise scales all sources by one common factor |
| Snr.GlobalReachesTarget | src/meegsim/snr.py:172-184 | after the global scaling by a finite factor, the combined signal reaches the target SNR against the combined noise |
| Snr.ScaledMeetsTarget | src/meegsim/snr.py:172-184 | a signal estimate scaled by its finite factor meets the target in the band |
| CombineStcs.IndexOf | src/meegsim/utils.py:44 | the position found is the first one holding the value, and it is past the end iff the value is absent |
| CombineStcs.Common | src/meegsim/utils.py:44 | `intersect1d` gives the first list's vertices at the shared positions, one per position |
| CombineStcs.CommonPositions | src/meegsim/utils.py:44 | `ind1` lists, in increasing order, positions of the first list whose vertex is in the second |
| CombineStcs.PartnerPositions | src/meegsim/utils.py:44 | `ind2` gives, for each shared vertex, a position of the second list holding it |
| CombineStcs.PartnerPositionsExact | src/meegsim/utils.py:44 | a position of the second list is listed iff its vertex is shared, iff it is in the first list |
| CombineStcs.SearchSortedMonotone | src/meegsim/utils.py:57 | `searchsorted` positions do not decrease as the searched vertex grows |
| CombineStcs.KeptIfNotDropped | src/meegsim/utils.py:53-54 | a row whose position is not deleted is kept |
| CombineStcs.MergeSorted | src/meegsim/utils.py:57-58 | the merge of two increasing, disjoint keyed lists is increasing |
| CombineStcs.MergePermutes | src/meegsim/utils.py:57-58 | the merge is a permutation of the two lists together |
| CombineStcs.PlaceIsMerge | src/meegsim/utils.py:57-58 | inserting at the `searchsorted` positions is the sorted merge |
| CombineStcs.MergedLists | src/meegsim/utils.py:57-58 | the merged vertices of a space are increasing and are exactly the vertices of either estimate |
| CombineStcs.LocalMerge | src/meegsim/utils.py:44-58 | for one source space, the merged vertex list is increasing and holds exactly the vertices of both estimates |
| CombineStcs.LocalSummed | src/meegsim/utils.py:44-49 | in one space, a shared vertex's old row becomes the sum of its two rows; other old rows stay |
| CombineStcs.LocalRemaining | src/meegsim/utils.py:53-54 | in one space, the remaining new rows are exactly those of the vertices only in the second estimate |
| CombineStcs.AddRowsLocal | src/meegsim/utils.py:47-49 | adding the shared rows with both offsets applied touches only this space's block |
| CombineStcs.DeleteRowsLocal | src/meegsim/utils.py:53 | deleting the shared rows with the offset applied removes only rows of this space's block |
| CombineStcs.StepExpected | src/meegsim/utils.py:43-61 | when the offsets in use are the right ones, one iteration takes the expected state after k spaces to the expected state after k+1 spaces |
| CombineStcs.LoopExpected | src/meegsim/utils.py:43-61 | with the right offsets at every space, the whole loop ends in the expected final state |
| CombineStcs.FirstTwoRight | src/meegsim/utils.py:38-39 | for the first two spaces, the non-cumulative offsets of the code agree with the cumulative ones |
| CombineStcs.CumulativeRight | src/meegsim/utils.py:38-39 | cumulative offsets are right at every space |
| CombineStcs.SpaceCombines | src/meegsim/utils.py:63-65 | the output rows for one space match its merged vertices: each row is the first estimate's row, the second's, or their sum where the vertex is shared |
| CombineStcs.FinalInsert | src/meegsim/utils.py:63-65 | the final `np.insert` of the remaining new rows at the shifted positions gives the expected output rows |
| CombineStcs.AssembledCombines | src/meegsim/utils.py:63-65 | the assembled estimate is a combination of the two inputs |
| CombineStcs.CombineExpected | src/meegsim/utils.py:12-67 | with the right offsets at every space, `combine_stcs` returns the assembled estimate |
| CombineStcs.CombineStcs | src/meegsim/utils.py:12-67 | `combine_stcs` as written; no source spaces raises (`np.concatenate` of nothing) |
| CombineStcs.CombineStcsCorrected | src/meegsim/utils.py:12-67 | the same procedure with cumulative offsets; no source spaces raises |
| CombineStcs.CorrectedCombines | src/meegsim/utils.py:12-67 | with cumulative offsets, any two estimates over the same source spaces combine: each space's vertices are the sorted union, and a shared vertex's row is the sum of both rows |
| CombineStcs.AsWrittenTwoSpaces | src/meegsim/utils.py:12-67 | with one or two source spaces, the code as written agrees with the corrected version and combines correctly |
| CombineStcs.AsWrittenThreeSpaces | src/meegsim/utils.py:38-39 | with three source spaces, the code as written returns rows out of place, which is not a combination of the inputs |
| CombineStcs.ThreeSpacesNotUnion | src/meegsim/utils.py:60-63 | the rows returned for the three-space example do not combine the inputs |
| Patches.Add | src/meegsim/utils.py:226-229 | adding a vertex not yet in the patch appends it; the old order is kept and duplicates never arise |
| Patches.AddCorners | src/meegsim/utils.py:225-229 | accepting a triangle adds its corners that are not yet in the patch, at the end, keeping the old order |
| Patches.Connected | src/meegsim/utils.py:216-219 | the triangles holding a vertex, from a given index on, in increasing index order |
| Patches.VisitGrows | src/meegsim/utils.py:213-231 | visiting one vertex only appends to the patch and to the accepted triangles, recording that vertex as their origin |
| Patches.VisitStops | src/meegsim/utils.py:219-231 | the triangles accepted for a vertex are a prefix of its connected triangles, and the first rejected one would overflow the area (`break`) |
| Patches.VisitArea | src/meegsim/utils.py:219-223 | after a visit, the accumulated area is the sum of the accepted triangles' areas and stays within the patch size whenever something was accepted |
| Patches.AcceptShaped | src/meegsim/utils.py:222-229 | accepting a triangle keeps the patch duplicate-free and every added vertex a corner of an accepted triangle |
| Patches.VisitShaped | src/meegsim/utils.py:213-231 | a visit keeps every patch vertex after the start a corner of a triangle accepted from an earlier vertex |
| Patches.ShapedWithin | src/meegsim/utils.py:205-229 | the patch holds only the start vertex and corners of the triangles |
| Patches.DistinctWithin | src/meegsim/utils.py:212 | a duplicate-free list of values from a finite set is no longer than the set, which bounds the queue |
| Patches.GrowingStep | src/meegsim/utils.py:212-231 | one dequeued vertex keeps the growth invariant and is within the bound |
| Patches.GrowPatch | src/meegsim/utils.py:196-233 | the patch starts with the start vertex and has no duplicates; a non-positive size gives just the start vertex; the loop stops when the queue is empty or the area is reached; every added vertex is a corner of a triangle accepted from an earlier vertex, and the area is the accepted triangles' sum, within the size |

## Left out

- `coupling.py`, `waveform.py`, `location.py` and `viz.py` are not part of this model: the core only passes their functions along.
- `configuration.py`: only the time axis built by `SourceConfiguration.__init__` is modelled (`Simulate.TimeAxis`), since `simulate` fails there for short simulations. The rest of the class (`to_stc`, sensor noise, plotting) is not part of this model.
- The random number generator: `np.random.default_rng(seed).choice` becomes a `Chooser` parameter. A seed of None stands for fresh entropy drawn outside the model.
- networkx is re-implemented with the behaviour the core relies on: node and adjacency insertion order, `dfs_edges` as a preorder walk in adjacency order, components in order of their first node, and `is_forest` raising on a graph without nodes.
- CouplingGraph.ConnectingPathsValue: the random start node is drawn from the component's nodes listed in the graph's insertion order. networkx lists a subgraph view smaller than half the graph in the order of the component's node set, so for the same chooser value the start node, and hence the walk, can differ. Every walk still spans its component (`CouplingGraph.ConnectingPathsOk`).
- PyValues.Iterate: iterables other than lists, tuples, one-dimensional arrays and strings (dicts, sets, ranges, generators) are not represented as values. `Utils.UnpackVertices` and `Check.CheckVerticesInSrc` therefore say nothing about such inputs.
- Floating-point rounding: values are exact reals. Only NaN and the infinities are modelled, where the code tests for them. `np.isclose` uses its default tolerances on exact values.
- The Butterworth filter of `get_sensor_space_variance` (`butter` and `filtfilt`) is a linear kernel parameter that can fail.
- `mne.forward.restrict_forward_to_stc` is a map from vertex to gain column.
- Check.VertexInSrc: a vertex number must be an integer value. Python's `in` on a numpy vertno array would also accept an equal float such as 3.0.
- Logging and warnings are not printed. The warning of `unpack_vertices` is a flag on its result, and the skipped global adjustment is a `Skipped` outcome.
- `_adjust_snr` is called by `_simulate` but is not defined in snr.py. It is a parameter of `Simulate.SimulateGroups` (an `Adjuster`).
- `PointSource.create` is called by `PointSourceGroup.simulate` but not defined. `Simulate.PointGroupSimulate` raises AttributeError, and `Simulate.SimulateGroups` takes the group generator as a parameter.
- Snr.AdjustSnrLocal: a group's `snr` is a list of per-source targets or None. A scalar snr, which `zip` would reject with TypeError, is not represented. It cannot reach this code, because `check_snr` rejects every snr that is not None.
- `_combine_sources_into_stc` is called by snr.py but not defined. `Snr.CombineSources` stacks one row per source and needs equal waveform lengths.
- CombineStcs.CombineStcs: requires both estimates to have the same number of source spaces. The model leaves out what `zip` does with unequal lengths. Data rows are an abstract type with an `add` parameter.
- `normalize_power`, `theoretical_plv` and `compute_triangle_areas` are numerical helpers that are not modelled. `Patches.GrowPatch` takes the triangle areas as input.
- Patches.GrowPatch: returns the patch in insertion order. The code returns `list(patch)`, whose order is the set's hash order.
- Snr.SourceEstimate: models `PointSource.to_stc(src, tstep)` with the rate set to the `tstep` argument, as the code passes it to the sampling-rate parameter. The rate is never checked for plausibility.
- The tests and examples are not modelled. Three of them are restated as lemmas (`CouplingGraph.WalkaroundExample`, `CouplingGraph.SingleNodeExample`, `Snr.CancellationExample`).

## Findings

| source | as written | input that shows it | evidently intended | confidence | as-written member | corrected member |
|---|---|---|---|---|---|---|
| src/meegsim/utils.py:38-39, 60-63 | `offsets_old` and `offsets_new` record the length of each space's block, not the running total, so from the third source space on, rows are added, deleted and inserted at positions inside earlier blocks | first estimate with vertices [[1],[2],[5]] and rows [10,20,50]; second with vertices [[],[],[6]] and row [60]: the rows come out as [10,20,60,50] instead of [10,20,50,60] | cumulative offsets, so that each space's positions are shifted by the total length of all earlier blocks | not executed | CombineStcs.AsWrittenThreeSpaces | CombineStcs.CorrectedCombines |
