/** Point sources (sources.py): their printed form and `_create_point_sources`,
    which turns per-space vertex lists, a waveform array and optional names into
    a name-keyed dict of sources. */
module Sources {
  import opened Outcomes
  import opened PyStrings
  import opened PyValues
  import opened Dicts
  import opened Utils
  import Check

  /** The time course of a source: sample values, or the all-NaN series of the
      given length that scaling by a NaN factor leaves behind. */
  datatype Waveform = Samples(values: seq<real>) | NaNs(length: nat)

  function Length(w: Waveform): nat
  {
    match w
    case Samples(values) => |values|
    case NaNs(length) => length
  }

  datatype PointSource = PointSource(srcIdx: nat, vertno: int, waveform: Waveform, hemi: Option<string>)

  /** A hemi counts as set when it is a non-empty string (Python truthiness). */
  predicate HasHemi(hemi: Option<string>)
  {
    hemi.Some? && hemi.value != ""
  }

  /** The space part of the repr: the hemi when set, otherwise `src[idx]`. */
  function Description(s: PointSource): string
  {
    if HasHemi(s.hemi) then s.hemi.value else "src[" + NatToString(s.srcIdx) + "]"
  }

  predicate OccursAt(s: string, part: string, i: int)
  {
    0 <= i <= |s| - |part| && s[i..i + |part|] == part
  }

  predicate Contains(s: string, part: string)
  {
    exists i :: 0 <= i <= |s| && OccursAt(s, part, i)
  }

  /** `PointSource.__repr__`. */
  function Repr(s: PointSource): (r: string)
    ensures HasHemi(s.hemi) ==> Contains(r, s.hemi.value)
    ensures !HasHemi(s.hemi) ==> Contains(r, "src[" + NatToString(s.srcIdx) + "]")
    ensures Contains(r, IntToString(s.vertno))
  {
    var head := "<PointSource | ";
    var d := Description(s);
    var v := IntToString(s.vertno);
    var r := head + d + " | " + v + ">";
    assert r[|head|..|head| + |d|] == d;
    assert OccursAt(r, d, |head|);
    assert r[|head| + |d| + 3..|head| + |d| + 3 + |v|] == v;
    assert OccursAt(r, v, |head| + |d| + 3);
    r
  }

  /** Two sources print the same only if they have the same space part and the
      same vertex number. */
  lemma ReprInjective(a: PointSource, b: PointSource)
    requires Repr(a) == Repr(b)
    ensures Description(a) == Description(b) && a.vertno == b.vertno
  {
    var va, vb := IntToString(a.vertno), IntToString(b.vertno);
    NoSpace(va);
    NoSpace(vb);
    FramedSplit("<PointSource | ", Description(a), Description(b), " | ", va, vb, ">");
    IntToStringInjective(a.vertno, b.vertno);
  }

  /** A printed integer holds no space. */
  lemma NoSpace(v: string)
    requires forall k :: 0 <= k < |v| ==> IsDigit(v[k]) || (k == 0 && v[k] == '-')
    ensures forall k :: 0 <= k < |v| ==> v[k] != ' '
  {
  }

  /** Where the parts of a framed string sit: the last part starts just after
      the last copy of the separator's last character. */
  lemma FrameParts(head: string, d: string, sep: string, v: string, tail: string)
    requires |sep| > 0
    requires forall k :: 0 <= k < |v| ==> v[k] != sep[|sep| - 1]
    ensures var r := head + d + sep + v + tail;
      var p := |r| - |tail| - |v| - 1;
      0 <= p && r[p] == sep[|sep| - 1]
      && (forall j :: p < j < |r| - |tail| ==> r[j] != sep[|sep| - 1])
      && r[p + 1..|r| - |tail|] == v && r[|head|..|head| + |d|] == d
  {
    var r := head + d + sep + v + tail;
    var p := |r| - |tail| - |v| - 1;
    forall j | p < j < |r| - |tail| ensures r[j] != sep[|sep| - 1] {
      assert r[j] == v[j - p - 1];
    }
    assert r[p + 1..|r| - |tail|] == v;
    assert r[|head|..|head| + |d|] == d;
  }

  /** Two strings framed the same way, whose last parts hold no copy of the
      last character of the separator, have the same parts. */
  lemma FramedSplit(head: string, da: string, db: string, sep: string, va: string, vb: string, tail: string)
    requires |sep| > 0
    requires forall k :: 0 <= k < |va| ==> va[k] != sep[|sep| - 1]
    requires forall k :: 0 <= k < |vb| ==> vb[k] != sep[|sep| - 1]
    requires head + da + sep + va + tail == head + db + sep + vb + tail
    ensures da == db && va == vb
  {
    FrameParts(head, da, sep, va, tail);
    FrameParts(head, db, sep, vb, tail);
    if |va| < |vb| {
      assert false;
    }
    if |vb| < |va| {
      assert false;
    }
  }

  // ----- _create_point_sources -----

  /** The location argument: per-space lists of vertex numbers, or a function of
      the random state and the keyword parameters that returns them. */
  datatype LocationArg =
    | VertexLists(lists: seq<seq<int>>)
    | LocationFunction(call: (Option<int>, Check.Keywords) -> Result<seq<seq<int>>>)

  /** The waveform argument: an array, or a function of (number of sources,
      times, random state, keyword parameters) that returns one. */
  datatype WaveformArg =
    | WaveformArray(given: NdArray)
    | WaveformFunction(call: (nat, seq<real>, Option<int>, Check.Keywords) -> Result<NdArray>)

  /** The checked inputs: vertex lists, one optional name per source, the
      waveform array and the hemi of every listed space. */
  datatype Prepared = Prepared(
    vertices: seq<seq<int>>,
    names: seq<Option<string>>,
    data: NdArray,
    hemis: seq<Option<string>>)

  function SpaceHemi(src: seq<SourceSpace>, idx: nat): (r: Result<Option<string>>)
    ensures idx >= |src| ==> r == Err(SourceSpaceIndexOutOfRange(idx))
    ensures idx < |src| ==> r == ExtractHemi(src[idx])
  {
    if idx < |src| then ExtractHemi(src[idx]) else Err(SourceSpaceIndexOutOfRange(idx))
  }

  /** The keywords a call `f(..., random_state=..., **params)` passes on: `**`
      of None is not a mapping, and a `random_state` key among the parameters
      clashes with the explicit one. Both raise TypeError before the call. */
  function CallKeywords(params: Option<Check.Keywords>): (r: Result<Check.Keywords>)
    ensures r.Ok? <==> params.Some? && Check.RandomState !in params.value
    ensures params.None? ==> r == Err(KeywordsNotMapping)
    ensures params.Some? && Check.RandomState in params.value ==>
      r == Err(DuplicateKeywordArgument(Check.RandomState))
    ensures r.Ok? ==> r.value == params.value
  {
    match params
    case None => Err(KeywordsNotMapping)
    case Some(kw) =>
      if Check.RandomState in kw then Err(DuplicateKeywordArgument(Check.RandomState)) else Ok(kw)
  }

  /** The vertex lists: given directly, or returned by the location function
      called with the random state and the location parameters. */
  function Locate(location: LocationArg, randomState: Option<int>, params: Option<Check.Keywords>): (r: Result<seq<seq<int>>>)
    ensures location.VertexLists? ==> r == Ok(location.lists)
    ensures location.LocationFunction? && CallKeywords(params).Err? ==> r == Err(CallKeywords(params).error)
    ensures location.LocationFunction? && CallKeywords(params).Ok? ==>
      r == location.call(randomState, params.value)
  {
    match location
    case VertexLists(lists) => Ok(lists)
    case LocationFunction(call) =>
      var kw :- CallKeywords(params);
      call(randomState, kw)
  }

  /** The waveform array: given directly, or returned by the waveform function
      called with the source count, the times, the random state and the
      waveform parameters. */
  function Generate(waveform: WaveformArg, n: nat, times: seq<real>, randomState: Option<int>,
                    params: Option<Check.Keywords>): (r: Result<NdArray>)
    ensures waveform.WaveformArray? ==> r == Ok(waveform.given)
    ensures waveform.WaveformFunction? && CallKeywords(params).Err? ==> r == Err(CallKeywords(params).error)
    ensures waveform.WaveformFunction? && CallKeywords(params).Ok? ==>
      r == waveform.call(n, times, randomState, params.value)
  {
    match waveform
    case WaveformArray(given) => Ok(given)
    case WaveformFunction(call) =>
      var kw :- CallKeywords(params);
      call(n, times, randomState, kw)
  }

  /** The checks of `_create_point_sources`, in the order the code makes them:
      the location (or its call), the number of names, the waveform (or its
      call), the waveform's shape, and the hemi of each listed space. */
  function PrepareInputs(src: seq<SourceSpace>, times: seq<real>, location: LocationArg, waveform: WaveformArg,
                         locationParams: Option<Check.Keywords>, waveformParams: Option<Check.Keywords>,
                         randomState: Option<int>, names: Option<seq<Option<string>>>): (r: Result<Prepared>)
    ensures Locate(location, randomState, locationParams).Err? ==>
      r == Err(Locate(location, randomState, locationParams).error)
    ensures Locate(location, randomState, locationParams).Ok? ==>
      var n := TotalLength(Locate(location, randomState, locationParams).value);
      (names.Some? && |names.value| != n ==> r == Err(SourceNameCountMismatch(n, |names.value|)))
      && ((names.None? || |names.value| == n) && Generate(waveform, n, times, randomState, waveformParams).Err? ==>
            r == Err(Generate(waveform, n, times, randomState, waveformParams).error))
      && ((names.None? || |names.value| == n) && Generate(waveform, n, times, randomState, waveformParams).Ok?
          && Generate(waveform, n, times, randomState, waveformParams).value.shape != [n, |times|] ==>
            r == Err(WaveformShapeMismatch))
    ensures r.Ok? ==> var n := TotalLength(r.value.vertices);
      Locate(location, randomState, locationParams) == Ok(r.value.vertices)
      && (names.None? ==> r.value.names == seq(n, _ => None))
      && (names.Some? ==> r.value.names == names.value)
      && |r.value.names| == n
      && Generate(waveform, n, times, randomState, waveformParams) == Ok(r.value.data)
      && r.value.data.shape == [n, |times|]
      && WellFormed(r.value)
      && |r.value.vertices| <= |src|
      && forall i :: 0 <= i < |r.value.vertices| ==> ExtractHemi(src[i]) == Ok(r.value.hemis[i])
  {
    var vertices :- Locate(location, randomState, locationParams);
    var n := TotalLength(vertices);
    var allNames := if names.None? then seq(n, _ => None) else names.value;
    if |allNames| != n then Err(SourceNameCountMismatch(n, |allNames|))
    else
      var data :- Generate(waveform, n, times, randomState, waveformParams);
      if data.shape != [n, |times|] then Err(WaveformShapeMismatch)
      else
        var hemis :- SpaceHemis(src, |vertices|);
        Ok(Prepared(vertices, allNames, data, hemis))
  }

  /** The hemi of each of the first `count` spaces; the first index past the
      end of `src` raises. */
  function SpaceHemis(src: seq<SourceSpace>, count: nat): (r: Result<seq<Option<string>>>)
    ensures r.Ok? ==> |r.value| == count && count <= |src|
    ensures r.Ok? ==> forall i :: 0 <= i < count ==> ExtractHemi(src[i]) == Ok(r.value[i])
  {
    var steps := seq(count, i requires 0 <= i < count => SpaceHemi(src, i));
    var hemis :- Collect(steps);
    assert forall i :: 0 <= i < count ==> steps[i] == SpaceHemi(src, i);
    assert count > 0 ==> steps[count - 1].Ok?;
    Ok(hemis)
  }

  /** A source without a name gets `{prefix}{hemi or 'src' + idx}-{vertno}`. */
  function DefaultName(prefix: string, hemi: Option<string>, srcIdx: nat, vertno: int): string
  {
    prefix + (if HasHemi(hemi) then hemi.value else "src" + NatToString(srcIdx)) + "-" + IntToString(vertno)
  }

  /** The k-th source of the flattened input and the name it is stored under. */
  function Entry(p: Prepared, prefix: string, k: nat): (string, PointSource)
    requires k < |FlattenIndexed(p.vertices)|
  {
    var (idx, vertno) := FlattenIndexed(p.vertices)[k];
    var hemi := if idx < |p.hemis| then p.hemis[idx] else None;
    var name := if k < |p.names| && p.names[k].Some? then p.names[k].value else DefaultName(prefix, hemi, idx, vertno);
    (name, PointSource(idx, vertno, Samples(Row(p.data, k)), hemi))
  }

  function Entries(p: Prepared, prefix: string): (es: seq<(string, PointSource)>)
    ensures |es| == TotalLength(p.vertices)
    ensures forall k :: 0 <= k < |es| ==> es[k] == Entry(p, prefix, k)
  {
    seq(|FlattenIndexed(p.vertices)|, k requires 0 <= k < |FlattenIndexed(p.vertices)| => Entry(p, prefix, k))
  }

  /** The dict comprehension over the flattened sources. */
  function BuildSources(p: Prepared, prefix: string): (d: Dict<PointSource>)
    ensures Valid(d) && |d.keys| <= TotalLength(p.vertices)
  {
    FromPairsKeyCount(Entries(p, prefix));
    FromPairs(Entries(p, prefix))
  }

  /** `_create_point_sources`: the checks, then one source per listed vertex. */
  function CreatePointSources(src: seq<SourceSpace>, times: seq<real>, location: LocationArg, waveform: WaveformArg,
                              locationParams: Option<Check.Keywords>, waveformParams: Option<Check.Keywords>,
                              randomState: Option<int>, names: Option<seq<Option<string>>>, prefix: string): (r: Result<Dict<PointSource>>)
    ensures r.Ok? <==> PrepareInputs(src, times, location, waveform, locationParams, waveformParams, randomState, names).Ok?
    ensures r.Err? ==> r.error == PrepareInputs(src, times, location, waveform, locationParams, waveformParams, randomState, names).error
    ensures r.Ok? ==> r.value == BuildSources(PrepareInputs(src, times, location, waveform, locationParams, waveformParams, randomState, names).value, prefix)
  {
    var p :- PrepareInputs(src, times, location, waveform, locationParams, waveformParams, randomState, names);
    Ok(BuildSources(p, prefix))
  }

  /** Under the default `location_params=None`, a location function is never
      called: `**None` raises TypeError first. */
  lemma DefaultLocationParamsRaise(src: seq<SourceSpace>, times: seq<real>, location: LocationArg, waveform: WaveformArg,
                                   waveformParams: Option<Check.Keywords>, randomState: Option<int>,
                                   names: Option<seq<Option<string>>>, prefix: string)
    requires location.LocationFunction?
    ensures var r := CreatePointSources(src, times, location, waveform, None, waveformParams, randomState, names, prefix);
      r == Err(KeywordsNotMapping) && Kind(r.error) == TypeError
  {
  }

  /** The same for a waveform function under `waveform_params=None`, once the
      vertex lists and the names have passed. */
  lemma DefaultWaveformParamsRaise(src: seq<SourceSpace>, times: seq<real>, lists: seq<seq<int>>, waveform: WaveformArg,
                                   randomState: Option<int>, names: Option<seq<Option<string>>>, prefix: string)
    requires waveform.WaveformFunction?
    requires names.None? || |names.value| == TotalLength(lists)
    ensures var r := CreatePointSources(src, times, VertexLists(lists), waveform, None, None, randomState, names, prefix);
      r == Err(KeywordsNotMapping) && Kind(r.error) == TypeError
  {
  }

  lemma {:induction false} FromPairsKeyCount<V>(ps: seq<(string, V)>)
    ensures |FromPairs(ps).keys| <= |ps|
  {
    if ps != [] {
      FromPairsKeyCount(ps[..|ps| - 1]);
    }
  }

  /** What the checks guarantee about the prepared inputs. */
  predicate WellFormed(p: Prepared)
  {
    |p.names| == TotalLength(p.vertices) && |p.hemis| == |p.vertices|
  }

  /** The name and source the k-th flattened vertex (vertex j of space i) yields. */
  lemma EntryAt(p: Prepared, prefix: string, i: nat, j: nat)
    requires WellFormed(p) && i < |p.vertices| && j < |p.vertices[i]|
    ensures TotalLength(p.vertices[..i]) + j < TotalLength(p.vertices)
    ensures var k := TotalLength(p.vertices[..i]) + j;
      var name := if p.names[k].Some? then p.names[k].value else DefaultName(prefix, p.hemis[i], i, p.vertices[i][j]);
      Entry(p, prefix, k) == (name, PointSource(i, p.vertices[i][j], Samples(Row(p.data, k)), p.hemis[i]))
  {
    FlattenIndexedAt(p.vertices, i, j);
  }

  /** Every source is stored under its name unless a later source has the same
      name (with EntryAt, vertex j of space i ends up in space i with that vertno,
      the hemi of space i and the waveform row at its flattened position). */
  lemma BuiltEntry(p: Prepared, prefix: string, k: nat)
    requires k < TotalLength(p.vertices)
    requires forall m :: k < m < TotalLength(p.vertices) ==> Entry(p, prefix, m).0 != Entry(p, prefix, k).0
    ensures Entry(p, prefix, k).0 in BuildSources(p, prefix).values
    ensures BuildSources(p, prefix).values[Entry(p, prefix, k).0] == Entry(p, prefix, k).1
  {
    var es := Entries(p, prefix);
    assert forall m :: k < m < |es| ==> es[m].0 != es[k].0;
    FromPairsLastWins(es, k);
  }

  /** With distinct names the dict has one source per vertex, in flattened order. */
  lemma BuiltDistinct(p: Prepared, prefix: string)
    requires forall a, b :: 0 <= a < b < TotalLength(p.vertices) ==> Entry(p, prefix, a).0 != Entry(p, prefix, b).0
    ensures |BuildSources(p, prefix).keys| == TotalLength(p.vertices)
    ensures forall k :: 0 <= k < TotalLength(p.vertices) ==> BuildSources(p, prefix).keys[k] == Entry(p, prefix, k).0
  {
    FromDistinctPairs(Entries(p, prefix));
  }
}
