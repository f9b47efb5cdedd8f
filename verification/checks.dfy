/** The input validators of _check.py: calling user functions, the shape and
    membership checks on vertex lists, the waveform shape checks, name
    autogeneration and the SNR placeholders. */
module Check {
  import opened Outcomes
  import opened PyStrings
  import opened PyValues
  import opened Utils

  /** Keyword arguments of a call. */
  type Keywords = map<string, Value>

  /** A Python callable taking positional arguments of type A: its body, and
      the keywords `functools.partial` has bound to it. */
  datatype Function<!A, R> = Function(body: (A, Keywords) -> Result<R>, bound: Keywords)

  /** `functools.partial(f, **params)`: the new keywords replace bound ones. */
  function Partial<A, R>(f: Function<A, R>, params: Keywords): (g: Function<A, R>)
    ensures g.body == f.body
    ensures g.bound.Keys == f.bound.Keys + params.Keys
    ensures forall k :: k in params ==> g.bound[k] == params[k]
    ensures forall k :: k in f.bound && k !in params ==> g.bound[k] == f.bound[k]
  {
    Function(f.body, f.bound + params)
  }

  const RandomState: string := "random_state"

  /** The keywords the body finally receives from `fun(*args, **kwargs,
      random_state=0)`: the bound ones, those of the call, and the seed 0. */
  function SeededKeywords(bound: Keywords, kwargs: Keywords): (kw: Keywords)
    ensures kw.Keys == bound.Keys + kwargs.Keys + {RandomState}
    ensures kw[RandomState] == Int(0)
    ensures forall k :: k in kwargs && k != RandomState ==> kw[k] == kwargs[k]
    ensures forall k :: k in bound && k !in kwargs && k != RandomState ==> kw[k] == bound[k]
  {
    (bound + kwargs)[RandomState := Int(0)]
  }

  /** `check_callable`: the call with random_state=0 added. Passing
      random_state among the call's own keywords is a TypeError (it is given
      twice); whatever the call raises reaches the caller unchanged. */
  function CheckCallable<A, R>(fun: Function<A, R>, args: A, kwargs: Keywords): (r: Result<R>)
    ensures RandomState in kwargs ==> r == Err(DuplicateKeywordArgument(RandomState))
    ensures RandomState !in kwargs ==> r == fun.body(args, SeededKeywords(fun.bound, kwargs))
  {
    if RandomState in kwargs then Err(DuplicateKeywordArgument(RandomState))
    else fun.body(args, SeededKeywords(fun.bound, kwargs))
  }

  /** A random_state bound by `partial` does not clash: the call's seed 0
      replaces it, and the other bound parameters arrive unchanged. */
  lemma PartialSeedReplaced<A, R>(f: Function<A, R>, params: Keywords, args: A)
    requires f.bound == map[]
    ensures var kw := SeededKeywords(Partial(f, params).bound, map[]);
      CheckCallable(Partial(f, params), args, map[]) == f.body(args, kw)
      && kw[RandomState] == Int(0)
      && kw.Keys == params.Keys + {RandomState}
      && forall k :: k in params && k != RandomState ==> kw[k] == params[k]
  {
    var g := Partial(f, params);
    assert g.bound.Keys == params.Keys;
  }

  // ----- check_vertices_list_of_tuples -----

  predicate IsPair(v: Value)
  {
    IsListOrTuple(v) && |v.items| == 2
  }

  /** The error raised for element i, when it is not a pair. */
  function ShapeError(v: Value, i: nat): Error
  {
    if !IsListOrTuple(v) then VertexNotListOrTuple(i) else VertexNotPair(i)
  }

  function ElementShape(v: Value, i: nat): (r: Outcome)
    ensures r.Pass? <==> IsPair(v)
    ensures r.Fail? ==> r.error == ShapeError(v, i)
  {
    if !IsListOrTuple(v) then Fail(VertexNotListOrTuple(i))
    else if |v.items| != 2 then Fail(VertexNotPair(i))
    else Pass
  }

  /** Element i is the first element that a check rejects. */
  predicate FirstRejected(items: seq<Value>, ok: Value -> bool, i: int)
  {
    0 <= i < |items| && !ok(items[i]) && forall j :: 0 <= j < i ==> ok(items[j])
  }

  /** `check_vertices_list_of_tuples`: a list or tuple whose every element is a
      list or tuple of length 2; otherwise the first offending element is
      reported, as not a sequence or as not of length 2. */
  function CheckVerticesListOfTuples(vertices: Value): (r: Outcome)
    ensures r.Pass? <==> IsListOrTuple(vertices) && forall i :: 0 <= i < |vertices.items| ==> IsPair(vertices.items[i])
    ensures !IsListOrTuple(vertices) ==> r == Fail(VerticesNotListOrTuple)
    ensures IsListOrTuple(vertices) && r.Fail? ==> exists i ::
      FirstRejected(vertices.items, IsPair, i) && r.error == ShapeError(vertices.items[i], i)
  {
    if !IsListOrTuple(vertices) then Fail(VerticesNotListOrTuple)
    else
      var items := vertices.items;
      var steps := seq(|items|, i requires 0 <= i < |items| => ElementShape(items[i], i));
      assert forall i :: 0 <= i < |items| ==> steps[i] == ElementShape(items[i], i);
      FirstFailure(steps)
  }

  // ----- check_vertices_in_src -----

  /** Python indexing of a list of length n with the integer i: negative
      indices count from the end. */
  function PyIndex(i: int, n: nat): int
  {
    if i < 0 then n + i else i
  }

  /** What the membership check accepts: a pair whose first item is an integer
      below len(src) that indexes src (so -len(src) <= index), and whose second
      item is an integer listed in that space. */
  predicate InSrc(v: Value, src: seq<SourceSpace>)
  {
    Iterate(v).Ok? && |Iterate(v).value| == 2
    && var idx := Iterate(v).value[0];
       var vertno := Iterate(v).value[1];
       idx.Int? && -|src| <= idx.i < |src|
       && vertno.Int? && vertno.i in src[PyIndex(idx.i, |src|)].vertno
  }

  /** One iteration of the loop: unpack the pair, compare the index with
      len(src), index src, and look the vertno up. */
  function VertexInSrc(v: Value, i: nat, src: seq<SourceSpace>): (r: Outcome)
    ensures r.Pass? <==> InSrc(v, src)
  {
    var parts := Iterate(v);
    if parts.Err? then Fail(NotIterable)
    else if |parts.value| != 2 then Fail(VertexNotPair(i))
    else
      var idx := parts.value[0];
      var vertno := parts.value[1];
      if !idx.Int? then Fail(SpaceIndexNotInteger(i))
      else if idx.i >= |src| then Fail(SpaceIndexTooLarge(i))
      else if idx.i < -|src| then Fail(SpaceIndexBelowRange(i))
      else if !(vertno.Int? && vertno.i in src[PyIndex(idx.i, |src|)].vertno) then Fail(VertexNotInSpace(i))
      else Pass
  }

  /** `check_vertices_in_src`: every vertex passes, or the first that does not
      decides the error. */
  function CheckVerticesInSrc(vertices: Value, src: seq<SourceSpace>): (r: Outcome)
    ensures Iterate(vertices).Err? ==> r == Fail(NotIterable)
    ensures r.Pass? <==> Iterate(vertices).Ok? && forall i :: 0 <= i < |Iterate(vertices).value| ==> InSrc(Iterate(vertices).value[i], src)
    ensures r.Fail? && Iterate(vertices).Ok? ==> exists i ::
      0 <= i < |Iterate(vertices).value| && r == VertexInSrc(Iterate(vertices).value[i], i, src)
      && FirstRejected(Iterate(vertices).value, v => InSrc(v, src), i)
  {
    match Iterate(vertices)
    case Err(e) => Fail(e)
    case Ok(items) =>
      var steps := seq(|items|, i requires 0 <= i < |items| => VertexInSrc(items[i], i, src));
      assert forall i :: 0 <= i < |items| ==> steps[i] == VertexInSrc(items[i], i, src);
      FirstFailure(steps)
  }

  /** Only the upper bound of the space index is compared: index -1 reaches the
      last space and is accepted when the vertno is there. */
  lemma NegativeIndexAccepted(src: seq<SourceSpace>, vertno: int)
    requires |src| > 0 && vertno in src[|src| - 1].vertno
    ensures CheckVerticesInSrc(List([Tuple([Int(-1), Int(vertno)])]), src) == Pass
  {
    assert InSrc(Tuple([Int(-1), Int(vertno)]), src);
  }

  /** An index below -len(src) passes the comparison and fails when src is
      indexed (IndexError). */
  lemma IndexBelowRangeRejected(src: seq<SourceSpace>, vertno: int)
    ensures CheckVerticesInSrc(List([Tuple([Int(-|src| - 1), Int(vertno)])]), src) == Fail(SpaceIndexBelowRange(0))
  {
    var v := Tuple([Int(-|src| - 1), Int(vertno)]);
    assert !InSrc(v, src);
    assert VertexInSrc(v, 0, src) == Fail(SpaceIndexBelowRange(0));
  }

  // ----- check_location -----

  /** The location argument: vertices given directly, or a function of src. */
  datatype LocationInput = LocationList(vertices: Value) | LocationFunction(f: Function<seq<SourceSpace>, Value>)

  /** `check_location`: the vertices (the given value, or what the function
      bound to its parameters returns for src with random_state 0), checked for
      shape and then for membership. It returns the location (a function bound
      to its parameters) and the number of vertices. */
  function CheckLocation(location: LocationInput, params: Keywords, src: seq<SourceSpace>): (r: Result<(LocationInput, nat)>)
    ensures location.LocationList? ==> (r.Ok? <==> CheckVerticesListOfTuples(location.vertices).Pass?
                                                   && CheckVerticesInSrc(location.vertices, src).Pass?)
    ensures location.LocationList? && r.Ok? ==> r.value == (location, |location.vertices.items|)
    ensures location.LocationList? && CheckVerticesListOfTuples(location.vertices).Fail? ==>
      r == Err(CheckVerticesListOfTuples(location.vertices).error)
    ensures location.LocationFunction? ==>
      var called := CheckCallable(Partial(location.f, params), src, map[]);
      (called.Err? ==> r == Err(called.error))
      && (r.Ok? <==> called.Ok? && CheckVerticesListOfTuples(called.value).Pass? && CheckVerticesInSrc(called.value, src).Pass?)
      && (r.Ok? ==> r.value == (LocationFunction(Partial(location.f, params)), |called.value.items|))
    ensures r.Ok? ==> var vertices := if location.LocationList? then location.vertices
                                        else CheckCallable(Partial(location.f, params), src, map[]).value;
      forall i :: 0 <= i < |vertices.items| ==> IsPair(vertices.items[i]) && InSrc(vertices.items[i], src)
  {
    var (checked, vertices) :- match location
      case LocationList(v) => Ok((location, v))
      case LocationFunction(f) =>
        var g := Partial(f, params);
        var v :- CheckCallable(g, src, map[]);
        Ok((LocationFunction(g), v));
    :- CheckVerticesListOfTuples(vertices);
    :- CheckVerticesInSrc(vertices, src);
    Ok((checked, |vertices.items|))
  }

  // ----- check_waveform -----

  /** The waveform argument: an array, or a function of (number of sources,
      times). */
  datatype WaveformInput = WaveformArray(data: NdArray) | WaveformFunction(f: Function<(nat, seq<real>), NdArray>)

  /** A waveform function is tried on 1000 samples. */
  const TrialSamples: nat := 1000

  /** `np.arange(1000) / 1000`. */
  function TrialTimes(): (t: seq<real>)
    ensures |t| == TrialSamples
    ensures forall i :: 0 <= i < |t| ==> t[i] == i as real / TrialSamples as real
  {
    seq(TrialSamples, i requires 0 <= i < TrialSamples => i as real / TrialSamples as real)
  }

  /** The shape checks on the data: the number of rows, and for a function
      also the number of samples; a missing axis raises IndexError. */
  function CheckShape(data: NdArray, nSources: nat, fromFunction: bool): (r: Outcome)
    ensures r.Pass? <==> |data.shape| >= 1 && data.shape[0] == nSources
                         && (fromFunction ==> |data.shape| >= 2 && data.shape[1] == TrialSamples)
    ensures |data.shape| >= 1 && data.shape[0] != nSources ==> r == Fail(WaveformRowMismatch(nSources, data.shape[0]))
    ensures |data.shape| == 0 ==> r == Fail(WaveformAxisMissing(0))
  {
    if |data.shape| == 0 then Fail(WaveformAxisMissing(0))
    else if data.shape[0] != nSources then Fail(WaveformRowMismatch(nSources, data.shape[0]))
    else if fromFunction && |data.shape| < 2 then Fail(WaveformAxisMissing(1))
    else if fromFunction && data.shape[1] != TrialSamples then Fail(WaveformSampleMismatch(TrialSamples, data.shape[1]))
    else Pass
  }

  /** `check_waveform`: an array must have n_sources rows (any number of
      columns); a function bound to its parameters is called once for
      n_sources and the trial times and must return n_sources x 1000. The
      array, or the bound function, is returned. */
  function CheckWaveform(waveform: WaveformInput, params: Keywords, nSources: nat): (r: Result<WaveformInput>)
    ensures waveform.WaveformArray? ==> (r.Ok? <==> CheckShape(waveform.data, nSources, false).Pass?)
    ensures waveform.WaveformArray? && r.Ok? ==> r.value == waveform
    ensures waveform.WaveformArray? && r.Err? ==> r.error == CheckShape(waveform.data, nSources, false).error
    ensures waveform.WaveformFunction? ==>
      var called := CheckCallable(Partial(waveform.f, params), (nSources, TrialTimes()), map[]);
      (called.Err? ==> r == Err(called.error))
      && (called.Ok? ==> (r.Ok? <==> CheckShape(called.value, nSources, true).Pass?))
      && (called.Ok? && r.Err? ==> r.error == CheckShape(called.value, nSources, true).error)
      && (r.Ok? ==> r.value == WaveformFunction(Partial(waveform.f, params)))
  {
    match waveform
    case WaveformArray(data) =>
      :- CheckShape(data, nSources, false);
      Ok(waveform)
    case WaveformFunction(f) =>
      var g := Partial(f, params);
      var data :- CheckCallable(g, (nSources, TrialTimes()), map[]);
      :- CheckShape(data, nSources, true);
      Ok(WaveformFunction(g))
  }

  /** The row check comes first: a function returning the wrong number of rows
      is reported for its rows even when its samples are wrong too. */
  lemma RowsCheckedFirst(data: NdArray, nSources: nat)
    requires |data.shape| == 2 && data.shape[0] != nSources && data.shape[1] != TrialSamples
    ensures CheckShape(data, nSources, true) == Fail(WaveformRowMismatch(nSources, data.shape[0]))
  {
  }

  // ----- check_names -----

  /** The name given to source i of a group without names. */
  function AutoName(group: string, i: nat): string
  {
    "auto-" + group + "-s" + NatToString(i)
  }

  function AutoNames(group: string, n: nat): (names: seq<string>)
    ensures |names| == n && forall i :: 0 <= i < n ==> names[i] == AutoName(group, i)
  {
    seq(n, i requires 0 <= i < n => AutoName(group, i))
  }

  /** The names of one group are distinct. */
  lemma AutoNameInjective(group: string, i: nat, j: nat)
    requires AutoName(group, i) == AutoName(group, j)
    ensures i == j
  {
    var prefix := "auto-" + group + "-s";
    assert AutoName(group, i)[|prefix|..] == NatToString(i);
    assert AutoName(group, j)[|prefix|..] == NatToString(j);
    NatToStringInjective(i, j);
  }

  /** `check_names`: no names (None or an empty list) become
      `auto-{group}-s{i}` for every source; otherwise the list must have one
      name per source and is returned as it is. */
  function CheckNames(names: Option<seq<string>>, group: string, nSources: nat, existing: seq<string>): (r: Result<seq<string>>)
    ensures (names.None? || names.value == []) ==> r == Ok(AutoNames(group, nSources))
    ensures names.Some? && names.value != [] && |names.value| != nSources ==>
      r == Err(NameCountMismatch(nSources, |names.value|))
    ensures names.Some? && names.value != [] && |names.value| == nSources ==> r == Ok(names.value)
    ensures r.Ok? ==> |r.value| == nSources
  {
    if names.None? || names.value == [] then Ok(AutoNames(group, nSources))
    else if |names.value| != nSources then Err(NameCountMismatch(nSources, |names.value|))
    else Ok(names.value)
  }

  /** Neither uniqueness nor the names already taken are checked: the result
      does not depend on the existing names, and a repeated name passes. */
  lemma NamesNotChecked(names: seq<string>, group: string, existing: seq<string>, other: seq<string>)
    requires names != []
    ensures CheckNames(Some(names), group, |names|, existing) == CheckNames(Some(names), group, |names|, other) == Ok(names)
  {
  }

  // ----- check_snr, check_snr_params -----

  /** `check_snr`: only None is accepted (SNR adjustment is not supported). */
  function CheckSnr(snr: Option<Value>, nSources: nat): (r: Result<Option<Value>>)
    ensures r.Ok? <==> snr.None?
    ensures r.Ok? ==> r.value.None?
    ensures r.Err? ==> r.error == SnrNotSupported
  {
    if snr.Some? then Err(SnrNotSupported) else Ok(None)
  }

  /** `check_snr_params` has an empty body and so returns None. */
  function CheckSnrParams(snrParams: Keywords): (r: Option<Keywords>)
    ensures r.None?
  {
    None
  }
}
