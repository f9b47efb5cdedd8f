/** The helpers of utils.py that classify source spaces, read a sampling rate
    off a time axis and flatten per-space vertex lists. */
module Utils {
  import opened Outcomes
  import opened Floats
  import opened PyValues

  /** FIFF identifiers of the left and right cortical surface source spaces. */
  const SurfLeftHemi: int := 101
  const SurfRightHemi: int := 102

  /** One entry of an MNE SourceSpaces list: its 'type' and 'id' fields (either may
      be missing) and the vertex numbers it contains. */
  datatype SourceSpace = SourceSpace(kind: Option<string>, id: Option<int>, vertno: seq<int>)

  /** `_extract_hemi`: "lh" or "rh" for the two surface spaces, None for any other
      space type; missing fields and an unknown surface id raise ValueError. */
  function ExtractHemi(space: SourceSpace): (r: Result<Option<string>>)
    ensures r == Err(SourceSpaceFieldsMissing) <==> space.kind.None? || space.id.None?
    ensures r == Ok(None) <==> space.kind.Some? && space.id.Some? && space.kind.value != "surf"
    ensures r == Ok(Some("lh")) <==> space.kind == Some("surf") && space.id == Some(SurfLeftHemi)
    ensures r == Ok(Some("rh")) <==> space.kind == Some("surf") && space.id == Some(SurfRightHemi)
    ensures r == Err(UnexpectedSurfaceId) <==>
      space.kind == Some("surf") && space.id.Some? && space.id.value != SurfLeftHemi && space.id.value != SurfRightHemi
  {
    if space.kind.None? || space.id.None? then Err(SourceSpaceFieldsMissing)
    else if space.kind.value != "surf" then Ok(None)
    else if space.id.value == SurfLeftHemi then Ok(Some("lh"))
    else if space.id.value == SurfRightHemi then Ok(Some("rh"))
    else Err(UnexpectedSurfaceId)
  }

  // ----- get_sfreq -----

  function Abs(x: real): real
  {
    if x < 0.0 then -x else x
  }

  /** `np.isclose(a, b)` with numpy's default tolerances. */
  predicate IsClose(a: real, b: real)
  {
    Abs(a - b) <= 0.00000001 + 0.00001 * Abs(b)
  }

  /** `np.diff(times)`. */
  function Diffs(times: seq<real>): (d: seq<real>)
    ensures |d| == if |times| == 0 then 0 else |times| - 1
    ensures forall i :: 0 <= i < |d| ==> d[i] == times[i + 1] - times[i]
  {
    if |times| < 2 then [] else seq(|times| - 1, i requires 0 <= i < |times| - 1 => times[i + 1] - times[i])
  }

  function SeqSum(s: seq<real>): real
  {
    if s == [] then 0.0 else SeqSum(s[..|s| - 1]) + s[|s| - 1]
  }

  /** `np.mean(dt)` for a non-empty dt. */
  function Mean(s: seq<real>): real
    requires |s| > 0
  {
    SeqSum(s) / |s| as real
  }

  /** The differences of a time axis add up to its span. */
  lemma {:induction false} DiffsTelescope(times: seq<real>)
    requires |times| >= 1
    ensures SeqSum(Diffs(times)) == times[|times| - 1] - times[0]
  {
    if |times| >= 2 {
      var front := times[..|times| - 1];
      DiffsTelescope(front);
      DiffsFront(times);
      var d := Diffs(times);
      assert SeqSum(d) == SeqSum(d[..|d| - 1]) + d[|d| - 1];
    }
  }

  /** Dropping the last time point drops the last difference. */
  lemma DiffsFront(times: seq<real>)
    requires |times| >= 2
    ensures Diffs(times)[..|times| - 2] == Diffs(times[..|times| - 1])
  {
  }

  /** `get_sfreq`: at least two points, a first step that matches the mean step,
      and then the reciprocal of the first step (infinite for a zero step). */
  function GetSfreq(times: seq<real>): (r: Result<Float>)
    ensures r == Err(TooFewTimePoints) <==> |times| < 2
    ensures |times| >= 2 && r.Err? ==> r.error == TimesNotUniform
    ensures r.Ok? <==> (|times| >= 2 &&
      IsClose((times[|times| - 1] - times[0]) / (|times| - 1) as real, times[1] - times[0]))
    ensures r.Ok? && times[1] != times[0] ==> r.value == Finite(1.0 / (times[1] - times[0]))
    ensures r.Ok? && times[1] == times[0] ==> r.value == Infinite(false)
  {
    if |times| < 2 then Err(TooFewTimePoints)
    else
      var dt := Diffs(times);
      DiffsTelescope(times);
      if !IsClose(Mean(dt), dt[0]) then Err(TimesNotUniform)
      else Ok(Divide(Finite(1.0), Finite(dt[0])))
  }

  /** A uniform time axis with step d has rate 1/d. */
  lemma UniformTimesRate(times: seq<real>, d: real)
    requires |times| >= 2 && d != 0.0
    requires forall i :: 0 <= i < |times| ==> times[i] == times[0] + i as real * d
    ensures GetSfreq(times) == Ok(Finite(1.0 / d))
  {
    var n := |times|;
    assert times[n - 1] == times[0] + (n - 1) as real * d;
    assert times[1] == times[0] + 1 as real * d;
    StepRate(times, d);
  }

  /** A time axis whose span is (n - 1) times its first step d has rate 1/d. */
  lemma StepRate(times: seq<real>, d: real)
    requires |times| >= 2 && d != 0.0
    requires times[|times| - 1] - times[0] == (|times| - 1) as real * d && times[1] - times[0] == d
    ensures GetSfreq(times) == Ok(Finite(1.0 / d))
  {
    var n := |times|;
    DivideBack(times[n - 1] - times[0], (n - 1) as real, d);
    assert IsClose((times[n - 1] - times[0]) / (n - 1) as real, times[1] - times[0]);
  }

  lemma DivideBack(x: real, m: real, d: real)
    requires m > 0.0 && x == m * d
    ensures x / m == d
  {
  }

  // ----- flattening per-space vertex lists -----

  /** The total number of items in all lists. */
  function TotalLength<T>(lists: seq<seq<T>>): nat
  {
    if lists == [] then 0 else TotalLength(lists[..|lists| - 1]) + |lists[|lists| - 1]|
  }

  /** The lists joined, list after list. */
  function Concat<T>(lists: seq<seq<T>>): (r: seq<T>)
    ensures |r| == TotalLength(lists)
  {
    if lists == [] then [] else Concat(lists[..|lists| - 1]) + lists[|lists| - 1]
  }

  /** Each item paired with the index of its list, list after list. */
  function FlattenIndexed<T>(lists: seq<seq<T>>): (r: seq<(nat, T)>)
    ensures |r| == TotalLength(lists)
  {
    if lists == [] then []
    else
      var last := lists[|lists| - 1];
      FlattenIndexed(lists[..|lists| - 1]) + seq(|last|, j requires 0 <= j < |last| => (|lists| - 1, last[j]))
  }

  /** Item j of list i sits at the number of items before list i, plus j. */
  lemma {:induction false} FlattenIndexedAt<T>(lists: seq<seq<T>>, i: nat, j: nat)
    requires i < |lists| && j < |lists[i]|
    ensures TotalLength(lists[..i]) + j < TotalLength(lists)
    ensures FlattenIndexed(lists)[TotalLength(lists[..i]) + j] == (i, lists[i][j])
  {
    var front := lists[..|lists| - 1];
    if i < |lists| - 1 {
      FlattenIndexedAt(front, i, j);
      assert front[..i] == lists[..i];
      assert front[i] == lists[i];
    } else {
      assert lists[..i] == front;
    }
  }

  /** Every flattened item comes from its list. */
  lemma {:induction false} FlattenIndexedFrom<T>(lists: seq<seq<T>>, k: nat)
    requires k < |FlattenIndexed(lists)|
    ensures FlattenIndexed(lists)[k].0 < |lists|
    ensures FlattenIndexed(lists)[k].1 in lists[FlattenIndexed(lists)[k].0]
  {
    var front := lists[..|lists| - 1];
    if k < |FlattenIndexed(front)| {
      FlattenIndexedFrom(front, k);
      assert front[FlattenIndexed(front)[k].0] == lists[FlattenIndexed(front)[k].0];
    } else {
      assert lists[|lists| - 1][k - |FlattenIndexed(front)|] in lists[|lists| - 1];
    }
  }

  /** The result of `unpack_vertices`, and whether it warned that the input was
      taken as a single source space. */
  datatype Unpacked = Unpacked(warned: bool, pairs: seq<(nat, Value)>)

  /** A list with an element that is not a list is wrapped as one source space. */
  predicate NeedsWrapping(v: Value)
  {
    v.List? && exists i :: 0 <= i < |v.items| && !v.items[i].List?
  }

  /** `unpack_vertices`: (space index, vertno) for every vertex, space by space. */
  function UnpackVertices(v: Value): (r: Result<Unpacked>)
    ensures NeedsWrapping(v) ==> r.Ok? && r.value.warned
    ensures r.Ok? <==> (NeedsWrapping(v) ||
      (Iterate(v).Ok? && forall i :: 0 <= i < |Iterate(v).value| ==> Iterate(Iterate(v).value[i]).Ok?))
    ensures r.Ok? ==> r.value.warned == NeedsWrapping(v)
    ensures r.Err? ==> r.error == NotIterable
  {
    var spaces := if NeedsWrapping(v) then [v] else (if Iterate(v).Ok? then Iterate(v).value else []);
    if !NeedsWrapping(v) && Iterate(v).Err? then Err(NotIterable)
    else
      var steps := seq(|spaces|, i requires 0 <= i < |spaces| => Iterate(spaces[i]));
      assert forall i :: 0 <= i < |spaces| ==> steps[i] == Iterate(spaces[i]);
      var lists :- Collect(steps);
      Ok(Unpacked(NeedsWrapping(v), FlattenIndexed(lists)))
  }

  /** For a list of lists, the pairs are the flattened lists and there are as
      many as there are vertices. */
  lemma UnpackListOfLists(v: Value)
    requires v.List? && forall i :: 0 <= i < |v.items| ==> v.items[i].List?
    ensures UnpackVertices(v).Ok?
    ensures var lists := seq(|v.items|, i requires 0 <= i < |v.items| => v.items[i].items);
      UnpackVertices(v).value == Unpacked(false, FlattenIndexed(lists))
  {
    var lists := seq(|v.items|, i requires 0 <= i < |v.items| => v.items[i].items);
    var steps := seq(|v.items|, i requires 0 <= i < |v.items| => Iterate(v.items[i]));
    assert Collect(steps).value == lists;
  }

  /** A flat list of vertex numbers becomes one source space, with a warning. */
  lemma UnpackFlatList(v: Value)
    requires v.List? && |v.items| > 0 && forall i :: 0 <= i < |v.items| ==> v.items[i].Int?
    ensures UnpackVertices(v).Ok?
    ensures UnpackVertices(v).value.warned
    ensures UnpackVertices(v).value.pairs == seq(|v.items|, k requires 0 <= k < |v.items| => (0, v.items[k]))
  {
    assert !v.items[0].List?;
    var steps := seq(1, i requires 0 <= i < 1 => Iterate([v][i]));
    assert Collect(steps).value == [v.items];
    assert FlattenIndexed([v.items]) == FlattenIndexed([v.items][..0]) + seq(|v.items|, j requires 0 <= j < |v.items| => (0, v.items[j]));
  }
}
