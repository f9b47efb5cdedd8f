/** `combine_stcs` of utils.py: the union of two source estimates over the same
    source spaces, where a vertex present in both gets the sum of its two rows.
    The numpy calls it makes (`intersect1d`, fancy-index `+=`, `delete`,
    `isin`, `searchsorted`, `insert`, `concatenate`) are modelled on sequences. */
module CombineStcs {
  import opened Outcomes
  import opened Utils

  /** A source estimate: one vertex list per source space and one data row per
      vertex, space after space. A row is kept abstract (type R); the numpy
      row sum is the `add` the operations are given. */
  datatype Estimate<R> = Estimate(vertices: seq<seq<int>>, data: seq<R>)

  predicate Increasing(s: seq<int>)
  {
    forall i, j :: 0 <= i < j < |s| ==> s[i] < s[j]
  }

  /** What a SourceEstimate guarantees: strictly increasing vertex lists and
      one row per vertex. */
  predicate Valid<R>(e: Estimate<R>)
  {
    (forall j :: 0 <= j < |e.vertices| ==> Increasing(e.vertices[j])) && |e.data| == TotalLength(e.vertices)
  }

  /** The number of rows before space j. */
  function Offset(vertices: seq<seq<int>>, j: nat): nat
    requires j <= |vertices|
  {
    TotalLength(vertices[..j])
  }

  // ----- numpy on sequences -----

  /** The first position of x in s, or |s| when x is absent. */
  function IndexOf(s: seq<int>, x: int): (r: nat)
    ensures r <= |s| && (r < |s| <==> x in s)
    ensures r < |s| ==> s[r] == x && forall i :: 0 <= i < r ==> s[i] != x
  {
    if s == [] then 0 else if s[0] == x then 0 else 1 + IndexOf(s[1..], x)
  }

  /** The positions in a of the items that b also holds, in increasing order:
      the first index array of `np.intersect1d(a, b, return_indices=True)`
      when a and b are strictly increasing. */
  function CommonPositions(a: seq<int>, b: seq<int>): (r: seq<nat>)
    ensures forall k :: 0 <= k < |r| ==> r[k] < |a| && a[r[k]] in b
    ensures forall i, j :: 0 <= i < j < |r| ==> r[i] < r[j]
  {
    if a == [] then []
    else
      var rest := CommonPositions(a[..|a| - 1], b);
      if a[|a| - 1] in b then rest + [|a| - 1] else rest
  }

  /** Every position of a whose item b holds is a common position. */
  lemma {:induction false} CommonPositionsComplete(a: seq<int>, b: seq<int>, p: nat)
    requires p < |a| && a[p] in b
    ensures p in CommonPositions(a, b)
  {
    if p < |a| - 1 {
      CommonPositionsComplete(a[..|a| - 1], b, p);
    }
  }

  /** The common vertices of a and b. */
  function Common(a: seq<int>, b: seq<int>): (r: seq<int>)
    ensures |r| == |CommonPositions(a, b)|
    ensures forall k :: 0 <= k < |r| ==> r[k] == a[CommonPositions(a, b)[k]]
  {
    var ps := CommonPositions(a, b);
    seq(|ps|, k requires 0 <= k < |ps| => a[ps[k]])
  }

  /** The positions in b of the common vertices (the second index array of
      `np.intersect1d`). */
  function PartnerPositions(a: seq<int>, b: seq<int>): (r: seq<nat>)
    ensures |r| == |Common(a, b)|
    ensures forall k :: 0 <= k < |r| ==> r[k] < |b| && b[r[k]] == Common(a, b)[k]
  {
    var c := Common(a, b);
    seq(|c|, k requires 0 <= k < |c| => IndexOf(b, c[k]))
  }

  /** `s[np.isin(s, values, invert=True)]`: the items of s not among values. */
  function Without(s: seq<int>, values: seq<int>): (r: seq<int>)
  {
    if s == [] then [] else (if s[0] in values then [] else [s[0]]) + Without(s[1..], values)
  }

  /** `np.searchsorted(a, x)` on an increasing a: the first position whose item
      is not below x. */
  function SearchSorted(a: seq<int>, x: int): (r: nat)
    ensures r <= |a|
  {
    if a == [] || a[0] >= x then 0 else 1 + SearchSorted(a[1..], x)
  }

  function SearchAll(a: seq<int>, xs: seq<int>): (r: seq<nat>)
  {
    seq(|xs|, k requires 0 <= k < |xs| => SearchSorted(a, xs[k]))
  }

  /** An index array plus a constant. */
  function Shift(s: seq<nat>, c: nat): (r: seq<nat>)
  {
    seq(|s|, k requires 0 <= k < |s| => s[k] + c)
  }

  /** The last position of x in s. */
  function LastPosition(s: seq<nat>, x: nat): (r: nat)
    requires x in s
    ensures r < |s| && s[r] == x && forall i :: r < i < |s| ==> s[i] != x
  {
    if s[|s| - 1] == x then |s| - 1 else LastPosition(s[..|s| - 1], x)
  }

  /** `data[rows] += src[srcRows]` with every index in range: each listed row
      becomes its sum with the matching source row; for a row listed twice
      the last assignment wins, as with numpy. */
  function AddAt<R>(data: seq<R>, rows: seq<nat>, src: seq<R>, srcRows: seq<nat>, add: (R, R) -> R): (r: seq<R>)
    requires |rows| == |srcRows| && forall k :: 0 <= k < |srcRows| ==> srcRows[k] < |src|
    ensures |r| == |data|
  {
    seq(|data|, q requires 0 <= q < |data| =>
      if q in rows then add(data[q], src[srcRows[LastPosition(rows, q)]]) else data[q])
  }

  function AddRows<R>(data: seq<R>, rows: seq<nat>, src: seq<R>, srcRows: seq<nat>, add: (R, R) -> R): (r: Result<seq<R>>)
    requires |rows| == |srcRows|
  {
    if exists k :: 0 <= k < |rows| && (rows[k] >= |data| || srcRows[k] >= |src|) then Err(IndexOutOfBounds)
    else Ok(AddAt(data, rows, src, srcRows, add))
  }

  /** The items of s whose position, counted from b, is not in drop. */
  function KeepFrom<T>(s: seq<T>, drop: seq<nat>, b: nat): (r: seq<T>)
    ensures |r| <= |s|
  {
    if s == [] then [] else (if b in drop then [] else [s[0]]) + KeepFrom(s[1..], drop, b + 1)
  }

  /** `np.delete(data, drop, axis=0)`. */
  function DeleteRows<T>(data: seq<T>, drop: seq<nat>): (r: Result<seq<T>>)
  {
    if exists k :: 0 <= k < |drop| && drop[k] >= |data| then Err(IndexOutOfBounds) else Ok(KeepFrom(data, drop, 0))
  }

  function Pair<X, Y>(xs: seq<X>, ys: seq<Y>): (r: seq<(X, Y)>)
    requires |xs| == |ys|
  {
    seq(|xs|, k requires 0 <= k < |xs| => (xs[k], ys[k]))
  }

  /** Stable insertion by key: p goes before every item whose key is not smaller. */
  function InsertByKey<T>(p: (nat, T), s: seq<(nat, T)>): (r: seq<(nat, T)>)
    ensures |r| == |s| + 1
  {
    if s == [] || p.0 <= s[0].0 then [p] + s else [s[0]] + InsertByKey(p, s[1..])
  }

  /** A stable sort by key (`argsort(kind='mergesort')`). */
  function SortByKey<T>(ps: seq<(nat, T)>): (r: seq<(nat, T)>)
    ensures |r| == |ps|
  {
    if ps == [] then [] else InsertByKey(ps[0], SortByKey(ps[1..]))
  }

  /** The items of base with the values of the key-sorted ps placed among them:
      a value with key i goes just before the item that was at position i,
      and b is the position base[0] had. */
  function Place<T>(base: seq<T>, ps: seq<(nat, T)>, b: nat): (r: seq<T>)
    ensures |r| == |base| + |ps|
    decreases |base| + |ps|
  {
    if ps == [] then base
    else if base == [] || ps[0].0 <= b then [ps[0].1] + Place(base, ps[1..], b)
    else [base[0]] + Place(base[1..], ps, b + 1)
  }

  /** `np.insert(base, inds, vals, axis=0)`; `vals` has one item per index in
      every call below (the shape error cannot occur for valid estimates). */
  function Insert<T>(base: seq<T>, inds: seq<nat>, vals: seq<T>): (r: Result<seq<T>>)
  {
    if exists k :: 0 <= k < |inds| && inds[k] > |base| then Err(IndexOutOfBounds)
    else if |inds| != |vals| then Err(ShapeMismatch)
    else Ok(Place(base, SortByKey(Pair(inds, vals)), 0))
  }

  // ----- the loop over the source spaces -----

  /** The loop state: the vertex lists and rows of the copy of stc1, what is
      left of stc2's rows, and the three lists the loop accumulates. */
  datatype Progress<R> = Progress(
    vertices: seq<seq<int>>,
    data: seq<R>,
    newData: seq<R>,
    inserters: seq<seq<nat>>,
    offsetsOld: seq<nat>,
    offsetsNew: seq<nat>)

  function Last(s: seq<nat>): nat
  {
    if s == [] then 0 else s[|s| - 1]
  }

  /** The offset the loop records after a space of the given length. The code
      records the length alone; with `cumulative` the running total is
      recorded, which is what indexing the stacked rows needs. */
  function NextOffset(last: nat, length: nat, cumulative: bool): nat
  {
    if cumulative then last + length else length
  }

  /** One iteration, for space k: sum the rows of the common vertices, drop
      them from stc2, and merge the remaining vertices into the list. */
  function Step<R>(A: seq<seq<int>>, B: seq<seq<int>>, k: nat, st: Progress<R>, add: (R, R) -> R, cumulative: bool): (r: Result<Progress<R>>)
    requires k < |A| && k < |B| && k < |st.vertices|
    ensures r.Ok? ==> |r.value.vertices| == |st.vertices|
    ensures r.Ok? ==> |r.value.inserters| == |st.inserters| + 1 && |r.value.offsetsOld| == |st.offsetsOld| + 1
  {
    var vOld := A[k];
    var vNew := B[k];
    var common := Common(vOld, vNew);
    var (data, newData, remaining) :-
      if |common| > 0 then
        var rows1 := Shift(CommonPositions(vOld, vNew), Last(st.offsetsOld));
        var rows2 := Shift(PartnerPositions(vOld, vNew), Last(st.offsetsNew));
        var summed :- AddRows(st.data, rows1, st.newData, rows2, add);
        var kept :- DeleteRows(st.newData, rows2);
        Ok((summed, kept, Without(vNew, common)))
      else Ok((st.data, st.newData, vNew));
    var inds := SearchAll(vOld, remaining);
    var merged :- Insert(vOld, inds, remaining);
    Ok(Progress(st.vertices[k := merged], data, newData, st.inserters + [inds],
                st.offsetsOld + [NextOffset(Last(st.offsetsOld), |vOld|, cumulative)],
                st.offsetsNew + [NextOffset(Last(st.offsetsNew), |remaining|, cumulative)]))
  }

  function Loop<R>(A: seq<seq<int>>, B: seq<seq<int>>, k: nat, st: Progress<R>, add: (R, R) -> R, cumulative: bool): (r: Result<Progress<R>>)
    requires k <= |A| && |A| == |B| && |st.vertices| == |A|
    ensures r.Ok? ==> |r.value.vertices| == |A|
    ensures r.Ok? ==> |r.value.inserters| == |st.inserters| + |A| - k && |r.value.offsetsOld| == |st.offsetsOld| + |A| - k
    decreases |A| - k
  {
    if k == |A| then Ok(st)
    else
      var next :- Step(A, B, k, st, add, cumulative);
      Loop(A, B, k + 1, next, add, cumulative)
  }

  /** The positions space j's vertices of stc2 go in at, shifted by the
      offset recorded for space j, for the first n spaces. */
  function ShiftedInserters<R>(st: Progress<R>, n: nat): (r: seq<seq<nat>>)
    requires n <= |st.inserters| && n <= |st.offsetsOld|
    ensures |r| == n
  {
    seq(n, j requires 0 <= j < n => Shift(st.inserters[j], st.offsetsOld[j]))
  }

  /** The function with the offsets chosen by `cumulative`: the loop, then the
      insertion of stc2's remaining rows at the positions the loop recorded. */
  function CombineWith<R>(stc1: Estimate<R>, stc2: Estimate<R>, add: (R, R) -> R, cumulative: bool): (r: Result<Estimate<R>>)
    requires |stc1.vertices| == |stc2.vertices|
  {
    var n := |stc1.vertices|;
    var st :- Loop(stc1.vertices, stc2.vertices, 0, Progress(stc1.vertices, stc1.data, stc2.data, [], [0], [0]), add, cumulative);
    if n == 0 then Err(NothingToConcatenate)
    else
      var inds := Concat(ShiftedInserters(st, n));
      var data :- Insert(st.data, inds, st.newData);
      Ok(Estimate(st.vertices, data))
  }

  // ----- facts about the sequence operations -----

  predicate KeysNondecreasing<T>(ps: seq<(nat, T)>)
  {
    forall i, j :: 0 <= i < j < |ps| ==> ps[i].0 <= ps[j].0
  }

  /** Sorting pairs whose keys already increase changes nothing. */
  lemma {:induction false} SortKeepsSorted<T>(ps: seq<(nat, T)>)
    requires KeysNondecreasing(ps)
    ensures SortByKey(ps) == ps
  {
    if ps != [] {
      SortKeepsSorted(ps[1..]);
      assert ps == [ps[0]] + ps[1..];
    }
  }

  /** The head and tail of a joined list whose first part is not empty. */
  lemma JoinTail<U>(x: seq<U>, y: seq<U>)
    requires x != []
    ensures (x + y)[0] == x[0] && (x + y)[1..] == x[1..] + y
  {
  }

  lemma JoinEmpty<U>(x: seq<U>, y: seq<U>)
    requires x == []
    ensures x + y == y && y + x == y
  {
  }

  lemma ConsTail<U>(x: seq<U>)
    requires x != []
    ensures x == [x[0]] + x[1..]
  {
  }

  /** Place when its first value goes first. */
  lemma PlaceHead<T>(base: seq<T>, ps: seq<(nat, T)>, b: nat)
    requires ps != [] && (base == [] || ps[0].0 <= b)
    ensures Place(base, ps, b) == [ps[0].1] + Place(base, ps[1..], b)
  {
  }

  /** Place when the first item of the list goes first. */
  lemma PlaceSkip<T>(base: seq<T>, ps: seq<(nat, T)>, b: nat)
    requires ps != [] && base != [] && ps[0].0 > b
    ensures Place(base, ps, b) == [base[0]] + Place(base[1..], ps, b + 1)
  {
  }

  /** Values keyed at or after the end of x go after all of x. */
  lemma {:induction false} PlaceAfter<T>(x: seq<T>, y: seq<T>, py: seq<(nat, T)>, b: nat)
    requires forall k :: 0 <= k < |py| ==> py[k].0 >= b + |x|
    ensures Place(x + y, py, b) == x + Place(y, py, b + |x|)
    decreases |x|
  {
    if x == [] {
      JoinEmpty(x, y);
    } else if py != [] {
      JoinTail(x, y);
      PlaceSkip(x + y, py, b);
      PlaceAfter(x[1..], y, py, b + 1);
      ConsJoin(x, y, Place(x + y, py, b), Place(x[1..] + y, py, b + 1), Place(y, py, b + |x|));
    }
  }

  /** A list that starts with the head of x and goes on with the rest of x
      followed by r is x followed by r. */
  lemma ConsJoin<U>(x: seq<U>, y: seq<U>, p: seq<U>, q: seq<U>, r: seq<U>)
    requires x != [] && p == [(x + y)[0]] + q && q == x[1..] + r
    ensures p == x + r
  {
    assert (x + y)[0] == x[0];
    assert x == [x[0]] + x[1..];
  }

  /** Placing into two joined lists: the values keyed up to the join go into
      the first, the others into the second. */
  lemma {:induction false} PlaceAppend<T>(x: seq<T>, y: seq<T>, px: seq<(nat, T)>, py: seq<(nat, T)>, b: nat)
    requires forall k :: 0 <= k < |px| ==> px[k].0 <= b + |x|
    requires forall k :: 0 <= k < |py| ==> py[k].0 >= b + |x|
    ensures Place(x + y, px + py, b) == Place(x, px, b) + Place(y, py, b + |x|)
    decreases |x| + |px|
  {
    if px == [] {
      JoinEmpty(px, py);
      PlaceAfter(x, y, py, b);
    } else if x == [] || px[0].0 <= b {
      PlaceAppend(x, y, px[1..], py, b);
      PlaceAppendHead(x, y, px, py, b);
    } else {
      PlaceAppend(x[1..], y, px, py, b + 1);
      PlaceAppendSkip(x, y, px, py, b);
    }
  }

  /** PlaceAppend's step when the first value goes first. */
  lemma PlaceAppendHead<T>(x: seq<T>, y: seq<T>, px: seq<(nat, T)>, py: seq<(nat, T)>, b: nat)
    requires px != [] && (x == [] || px[0].0 <= b) && px[0].0 <= b + |x|
    requires Place(x + y, px[1..] + py, b) == Place(x, px[1..], b) + Place(y, py, b + |x|)
    ensures Place(x + y, px + py, b) == Place(x, px, b) + Place(y, py, b + |x|)
  {
    assert Place(x + y, px + py, b) == [px[0].1] + Place(x + y, px[1..] + py, b) by {
      JoinTail(px, py);
      PlaceHead(x + y, px + py, b);
    }
    assert Place(x, px, b) == [px[0].1] + Place(x, px[1..], b) by {
      PlaceHead(x, px, b);
    }
    ConsAssoc(px[0].1, Place(x + y, px + py, b), Place(x, px, b), Place(x, px[1..], b),
              Place(y, py, b + |x|), Place(x + y, px[1..] + py, b));
  }

  /** PlaceAppend's step when the first item of x goes first. */
  lemma PlaceAppendSkip<T>(x: seq<T>, y: seq<T>, px: seq<(nat, T)>, py: seq<(nat, T)>, b: nat)
    requires px != [] && x != [] && px[0].0 > b
    requires Place(x[1..] + y, px + py, b + 1) == Place(x[1..], px, b + 1) + Place(y, py, b + |x|)
    ensures Place(x + y, px + py, b) == Place(x, px, b) + Place(y, py, b + |x|)
  {
    assert Place(x + y, px + py, b) == [x[0]] + Place(x[1..] + y, px + py, b + 1) by {
      JoinTail(x, y);
      PlaceSkip(x + y, px + py, b);
    }
    assert Place(x, px, b) == [x[0]] + Place(x[1..], px, b + 1) by {
      PlaceSkip(x, px, b);
    }
    ConsAssoc(x[0], Place(x + y, px + py, b), Place(x, px, b), Place(x[1..], px, b + 1),
              Place(y, py, b + |x|), Place(x[1..] + y, px + py, b + 1));
  }

  /** One item put in front of a join goes in front of its first part. */
  lemma ConsAssoc<U>(a: U, p: seq<U>, q: seq<U>, s: seq<U>, r: seq<U>, t: seq<U>)
    requires p == [a] + t && t == s + r && q == [a] + s
    ensures p == q + r
  {
  }

  /** Adding c to every key and to the base position changes nothing. */
  lemma {:induction false} PlaceShift<T>(x: seq<T>, ps: seq<(nat, T)>, qs: seq<(nat, T)>, b: nat, c: nat)
    requires |qs| == |ps| && forall k :: 0 <= k < |ps| ==> qs[k] == (ps[k].0 + c, ps[k].1)
    ensures Place(x, qs, b + c) == Place(x, ps, b)
    decreases |x| + |ps|
  {
    if ps == [] {
    } else if x == [] || ps[0].0 <= b {
      PlaceShift(x, ps[1..], qs[1..], b, c);
    } else {
      PlaceShift(x[1..], ps, qs, b + 1, c);
    }
  }

  /** The head and tail of a list of pairs. */
  lemma PairSplit<X, Y>(xs: seq<X>, ys: seq<Y>)
    requires |xs| == |ys| && xs != []
    ensures Pair(xs, ys)[0] == (xs[0], ys[0]) && Pair(xs, ys)[1..] == Pair(xs[1..], ys[1..])
  {
  }

  /** Pairing two lists with new heads puts the pair of the heads first. */
  lemma PairCons<X, Y>(x: X, y: Y, xs: seq<X>, ys: seq<Y>)
    requires |xs| == |ys|
    ensures Pair([x] + xs, [y] + ys) == [(x, y)] + Pair(xs, ys)
  {
  }

  /** Placing pairs is placing their two halves with the same keys. */
  lemma {:induction false} PlacePair<X, Y>(xs: seq<X>, ys: seq<Y>, keys: seq<nat>, vx: seq<X>, vy: seq<Y>, b: nat)
    requires |xs| == |ys| && |keys| == |vx| == |vy|
    ensures Place(Pair(xs, ys), Pair(keys, Pair(vx, vy)), b) == Pair(Place(xs, Pair(keys, vx), b), Place(ys, Pair(keys, vy), b))
    decreases |xs| + |keys|
  {
    if keys == [] {
    } else {
      PairSplit(keys, Pair(vx, vy));
      PairSplit(vx, vy);
      PairSplit(keys, vx);
      PairSplit(keys, vy);
      if xs == [] || keys[0] <= b {
        PlaceHead(Pair(xs, ys), Pair(keys, Pair(vx, vy)), b);
        PlaceHead(xs, Pair(keys, vx), b);
        PlaceHead(ys, Pair(keys, vy), b);
        PlacePair(xs, ys, keys[1..], vx[1..], vy[1..], b);
        PairCons(vx[0], vy[0], Place(xs, Pair(keys[1..], vx[1..]), b), Place(ys, Pair(keys[1..], vy[1..]), b));
      } else {
        PairSplit(xs, ys);
        PlaceSkip(Pair(xs, ys), Pair(keys, Pair(vx, vy)), b);
        PlaceSkip(xs, Pair(keys, vx), b);
        PlaceSkip(ys, Pair(keys, vy), b);
        PlacePair(xs[1..], ys[1..], keys, vx, vy, b + 1);
        PairCons(xs[0], ys[0], Place(xs[1..], Pair(keys, vx), b + 1), Place(ys[1..], Pair(keys, vy), b + 1));
      }
    }
  }

  /** The vertices of entries. */
  function Keys<R>(es: seq<(int, R)>): (r: seq<int>)
  {
    seq(|es|, i requires 0 <= i < |es| => es[i].0)
  }

  predicate Disjoint(a: seq<int>, b: seq<int>)
  {
    forall i, j :: 0 <= i < |a| && 0 <= j < |b| ==> a[i] != b[j]
  }

  /** The merge of two vertex-sorted lists of entries. */
  function Merge<R>(e1: seq<(int, R)>, e2: seq<(int, R)>): (r: seq<(int, R)>)
    ensures |r| == |e1| + |e2|
    decreases |e1| + |e2|
  {
    if e1 == [] then e2
    else if e2 == [] then e1
    else if e1[0].0 < e2[0].0 then [e1[0]] + Merge(e1[1..], e2)
    else [e2[0]] + Merge(e1, e2[1..])
  }

  /** A bound below every vertex of both lists is below every vertex of the merge. */
  lemma {:induction false} MergeAbove<R>(e1: seq<(int, R)>, e2: seq<(int, R)>, lo: int)
    requires forall i :: 0 <= i < |e1| ==> lo < e1[i].0
    requires forall i :: 0 <= i < |e2| ==> lo < e2[i].0
    ensures forall i :: 0 <= i < |Merge(e1, e2)| ==> lo < Merge(e1, e2)[i].0
    decreases |e1| + |e2|
  {
    if e1 != [] && e2 != [] {
      if e1[0].0 < e2[0].0 {
        MergeAbove(e1[1..], e2, lo);
      } else {
        MergeAbove(e1, e2[1..], lo);
      }
    }
  }

  /** The merge holds exactly the entries of both lists. */
  lemma {:induction false} MergePermutes<R>(e1: seq<(int, R)>, e2: seq<(int, R)>)
    ensures multiset(Merge(e1, e2)) == multiset(e1) + multiset(e2)
    decreases |e1| + |e2|
  {
    if e1 == [] || e2 == [] {
    } else if e1[0].0 < e2[0].0 {
      MergePermutes(e1[1..], e2);
      ConsPermutes(e1[0], e1[1..], e1, Merge(e1[1..], e2), Merge(e1, e2), multiset(e2));
    } else {
      MergePermutes(e1, e2[1..]);
      ConsPermutes(e2[0], e2[1..], e2, Merge(e1, e2[1..]), Merge(e1, e2), multiset(e1));
    }
  }

  /** Putting the head of a list in front of a permutation of its tail and
      other items gives a permutation of the list and those items. */
  lemma ConsPermutes<U>(x: U, tail: seq<U>, whole: seq<U>, m: seq<U>, mx: seq<U>, other: multiset<U>)
    requires whole == [x] + tail && mx == [x] + m && multiset(m) == multiset(tail) + other
    ensures multiset(mx) == multiset(whole) + other
  {
  }

  /** Every entry of the merge comes from one of the lists. */
  lemma MergeFrom<R>(e1: seq<(int, R)>, e2: seq<(int, R)>, p: nat)
    requires p < |Merge(e1, e2)|
    ensures Merge(e1, e2)[p] in e1 || Merge(e1, e2)[p] in e2
  {
    MergePermutes(e1, e2);
    assert Merge(e1, e2)[p] in multiset(Merge(e1, e2));
  }

  /** Every entry of either list is in the merge. */
  lemma MergeHas<R>(e1: seq<(int, R)>, e2: seq<(int, R)>, x: (int, R))
    requires x in e1 || x in e2
    ensures x in Merge(e1, e2)
  {
    MergePermutes(e1, e2);
    assert x in multiset(e1) + multiset(e2);
  }

  /** A list whose head is below all of its increasing tail is increasing. */
  lemma ConsIncreasing<R>(x: (int, R), rest: seq<(int, R)>)
    requires Increasing(Keys(rest))
    requires forall i :: 0 <= i < |rest| ==> x.0 < rest[i].0
    ensures Increasing(Keys([x] + rest))
  {
    var ks := Keys([x] + rest);
    forall i, j | 0 <= i < j < |ks| ensures ks[i] < ks[j] {
      assert ks[j] == rest[j - 1].0;
      if i > 0 {
        assert ks[i] == Keys(rest)[i - 1] && ks[j] == Keys(rest)[j - 1];
      }
    }
  }

  /** The head of an increasing list is below all of its tail. */
  lemma HeadBelow<R>(e: seq<(int, R)>)
    requires Increasing(Keys(e)) && e != []
    ensures forall i :: 0 <= i < |e[1..]| ==> e[0].0 < e[1..][i].0
    ensures Increasing(Keys(e[1..]))
  {
    assert Keys(e[1..]) == Keys(e)[1..];
    forall i | 0 <= i < |e[1..]| ensures e[0].0 < e[1..][i].0 {
      assert Keys(e)[0] < Keys(e)[i + 1];
    }
  }

  /** The merge of increasing lists with no common vertex is increasing. */
  lemma {:induction false} MergeSorted<R>(e1: seq<(int, R)>, e2: seq<(int, R)>)
    requires Increasing(Keys(e1)) && Increasing(Keys(e2)) && Disjoint(Keys(e1), Keys(e2))
    ensures Increasing(Keys(Merge(e1, e2)))
    decreases |e1| + |e2|
  {
    if e1 == [] || e2 == [] {
    } else if e1[0].0 < e2[0].0 {
      HeadBelow(e1);
      HeadBelow(e2);
      assert Keys(e1[1..]) == Keys(e1)[1..];
      MergeSorted(e1[1..], e2);
      assert e2 == [e2[0]] + e2[1..];
      MergeAbove(e1[1..], e2, e1[0].0);
      ConsIncreasing(e1[0], Merge(e1[1..], e2));
    } else {
      assert e2[0].0 < e1[0].0 by {
        assert Keys(e1)[0] != Keys(e2)[0];
      }
      HeadBelow(e1);
      HeadBelow(e2);
      assert Keys(e2[1..]) == Keys(e2)[1..];
      MergeSorted(e1, e2[1..]);
      assert e1 == [e1[0]] + e1[1..];
      MergeAbove(e1, e2[1..], e2[0].0);
      ConsIncreasing(e2[0], Merge(e1, e2[1..]));
    }
  }

  /** `searchsorted` is monotone in the searched value. */
  lemma {:induction false} SearchSortedMonotone(a: seq<int>, x: int, y: int)
    requires x <= y
    ensures SearchSorted(a, x) <= SearchSorted(a, y)
  {
    if a != [] && a[0] < x {
      SearchSortedMonotone(a[1..], x, y);
    }
  }

  /** Inserting the searched positions of increasing values into an increasing
      list merges the two lists. */
  lemma {:induction false} PlaceMerges<R>(e1: seq<(int, R)>, e2: seq<(int, R)>, ps: seq<(nat, (int, R))>, b: nat)
    requires Increasing(Keys(e1)) && Increasing(Keys(e2)) && Disjoint(Keys(e1), Keys(e2))
    requires Positioned(e1, e2, ps, b)
    ensures Place(e1, ps, b) == Merge(e1, e2)
    decreases |e1| + |e2|
  {
    if ps == [] {
    } else if e1 == [] || ps[0].0 <= b {
      PositionedTail(e1, e2, ps, b);
      PlaceMerges(e1, e2[1..], ps[1..], b);
      PlaceMergesHead(e1, e2, ps, b);
    } else {
      PositionedSkip(e1, e2, ps, b);
      PlaceMerges(e1[1..], e2, ps, b + 1);
      PlaceMergesSkip(e1, e2, ps, b);
    }
  }

  /** ps holds each entry of e2 keyed by its search position in e1, plus b. */
  ghost predicate Positioned<R>(e1: seq<(int, R)>, e2: seq<(int, R)>, ps: seq<(nat, (int, R))>, b: nat)
  {
    |ps| == |e2| && forall k :: 0 <= k < |ps| ==> ps[k] == (b + SearchSorted(Keys(e1), e2[k].0), e2[k])
  }

  /** Dropping the first entry of e2 keeps PlaceMerges' conditions. */
  lemma PositionedTail<R>(e1: seq<(int, R)>, e2: seq<(int, R)>, ps: seq<(nat, (int, R))>, b: nat)
    requires Increasing(Keys(e2)) && Disjoint(Keys(e1), Keys(e2)) && Positioned(e1, e2, ps, b) && ps != []
    ensures Increasing(Keys(e2[1..])) && Disjoint(Keys(e1), Keys(e2[1..])) && Positioned(e1, e2[1..], ps[1..], b)
  {
    assert Keys(e2[1..]) == Keys(e2)[1..];
  }

  /** Dropping the first entry of e1 when every key of e2 is above it keeps
      PlaceMerges' conditions with the base moved on by one. */
  lemma PositionedSkip<R>(e1: seq<(int, R)>, e2: seq<(int, R)>, ps: seq<(nat, (int, R))>, b: nat)
    requires Increasing(Keys(e1)) && Increasing(Keys(e2)) && Disjoint(Keys(e1), Keys(e2))
    requires Positioned(e1, e2, ps, b) && ps != [] && e1 != [] && ps[0].0 > b
    ensures Increasing(Keys(e1[1..])) && Disjoint(Keys(e1[1..]), Keys(e2)) && Positioned(e1[1..], e2, ps, b + 1)
  {
    assert Keys(e1[1..]) == Keys(e1)[1..];
    forall k | 0 <= k < |ps| ensures ps[k] == (b + 1 + SearchSorted(Keys(e1[1..]), e2[k].0), e2[k]) {
      assert k > 0 ==> Keys(e2)[0] < Keys(e2)[k];
    }
  }

  /** PlaceMerges' step when the first entry of e2 goes first. */
  lemma PlaceMergesHead<R>(e1: seq<(int, R)>, e2: seq<(int, R)>, ps: seq<(nat, (int, R))>, b: nat)
    requires Disjoint(Keys(e1), Keys(e2)) && Positioned(e1, e2, ps, b) && ps != [] && (e1 == [] || ps[0].0 <= b)
    requires Place(e1, ps[1..], b) == Merge(e1, e2[1..])
    ensures Place(e1, ps, b) == Merge(e1, e2)
  {
    if e1 != [] {
      assert Keys(e1)[0] != Keys(e2)[0];
    }
  }

  /** PlaceMerges' step when the first entry of e1 goes first. */
  lemma PlaceMergesSkip<R>(e1: seq<(int, R)>, e2: seq<(int, R)>, ps: seq<(nat, (int, R))>, b: nat)
    requires Positioned(e1, e2, ps, b) && ps != [] && e1 != [] && ps[0].0 > b
    requires Place(e1[1..], ps, b + 1) == Merge(e1[1..], e2)
    ensures Place(e1, ps, b) == Merge(e1, e2)
  {
  }

  /** Every kept item sits at a position that is not dropped. */
  lemma {:induction false} KeptFromSomewhere<T>(s: seq<T>, drop: seq<nat>, b: nat, x: T)
    requires x in KeepFrom(s, drop, b)
    ensures exists p :: 0 <= p < |s| && s[p] == x && b + p !in drop
  {
    var head := if b in drop then [] else [s[0]];
    assert KeepFrom(s, drop, b) == head + KeepFrom(s[1..], drop, b + 1);
    if x in KeepFrom(s[1..], drop, b + 1) {
      KeptFromSomewhere(s[1..], drop, b + 1, x);
      var p :| 0 <= p < |s[1..]| && s[1..][p] == x && b + 1 + p !in drop;
      assert s[p + 1] == x;
    } else {
      assert x in head;
      assert s[0] == x && b + 0 !in drop;
    }
  }

  /** Every item at a position that is not dropped is kept. */
  lemma {:induction false} KeptIfNotDropped<T>(s: seq<T>, drop: seq<nat>, b: nat, p: nat)
    requires p < |s| && b + p !in drop
    ensures s[p] in KeepFrom(s, drop, b)
  {
    var head := if b in drop then [] else [s[0]];
    assert KeepFrom(s, drop, b) == head + KeepFrom(s[1..], drop, b + 1);
    if p > 0 {
      KeptIfNotDropped(s[1..], drop, b + 1, p - 1);
      assert s[1..][p - 1] == s[p];
    }
  }

  /** Keeping from pairs is keeping from both halves. */
  lemma {:induction false} KeepFromPair<X, Y>(xs: seq<X>, ys: seq<Y>, drop: seq<nat>, b: nat)
    requires |xs| == |ys|
    ensures |KeepFrom(xs, drop, b)| == |KeepFrom(ys, drop, b)|
    ensures KeepFrom(Pair(xs, ys), drop, b) == Pair(KeepFrom(xs, drop, b), KeepFrom(ys, drop, b))
  {
    if xs != [] {
      KeepFromPair(xs[1..], ys[1..], drop, b + 1);
      assert Pair(xs, ys)[1..] == Pair(xs[1..], ys[1..]);
    }
  }

  /** Filtering by value is filtering by position when the two agree. */
  lemma {:induction false} WithoutIsKeep(s: seq<int>, values: seq<int>, drop: seq<nat>, b: nat)
    requires forall p :: 0 <= p < |s| ==> (s[p] in values <==> b + p in drop)
    ensures Without(s, values) == KeepFrom(s, drop, b)
  {
    if s != [] {
      assert s[0] in values <==> b + 0 in drop;
      forall p | 0 <= p < |s[1..]| ensures s[1..][p] in values <==> b + 1 + p in drop {
        assert s[1..][p] == s[p + 1];
      }
      WithoutIsKeep(s[1..], values, drop, b + 1);
    }
  }

  /** Keeping from a list whose items increase keeps them increasing. */
  lemma {:induction false} KeepFromIncreasing(s: seq<int>, drop: seq<nat>, b: nat)
    requires Increasing(s)
    ensures Increasing(KeepFrom(s, drop, b))
  {
    if s != [] {
      KeepFromIncreasing(s[1..], drop, b + 1);
      var rest := KeepFrom(s[1..], drop, b + 1);
      forall i | 0 <= i < |rest| ensures s[0] < rest[i] {
        KeptFromSomewhere(s[1..], drop, b + 1, rest[i]);
        var p :| 0 <= p < |s[1..]| && s[1..][p] == rest[i] && b + 1 + p !in drop;
        assert s[0] < s[p + 1];
      }
    }
  }

  // ----- one source space -----

  /** What the loop does for one space, in the space's own rows: stc1's rows
      with the common ones summed, stc2's rows left after the deletion, stc2's
      remaining vertices and the positions they are inserted at. */
  datatype SpaceStep<R> = SpaceStep(summed: seq<R>, kept: seq<R>, remaining: seq<int>, inds: seq<nat>)

  function LocalStep<R>(a: seq<int>, b: seq<int>, rows1: seq<R>, rows2: seq<R>, add: (R, R) -> R): SpaceStep<R>
    requires |rows2| == |b|
  {
    var common := Common(a, b);
    if |common| > 0 then
      var remaining := Without(b, common);
      SpaceStep(AddAt(rows1, CommonPositions(a, b), rows2, PartnerPositions(a, b), add),
                KeepFrom(rows2, PartnerPositions(a, b), 0), remaining, SearchAll(a, remaining))
    else SpaceStep(rows1, rows2, b, SearchAll(a, b))
  }

  /** The row the union holds for vertex v of one space, where the first
      estimate has vertices a with rows rows1 and the second has b with rows2:
      the sum of both rows when both have v, otherwise the one row there is. */
  function UnionRow<R>(a: seq<int>, rows1: seq<R>, b: seq<int>, rows2: seq<R>, add: (R, R) -> R, v: int): R
    requires |rows1| == |a| && |rows2| == |b| && (v in a || v in b)
  {
    if v in a && v in b then add(rows1[IndexOf(a, v)], rows2[IndexOf(b, v)])
    else if v in a then rows1[IndexOf(a, v)]
    else rows2[IndexOf(b, v)]
  }

  lemma IndexOfIncreasing(s: seq<int>, p: nat)
    requires Increasing(s) && p < |s|
    ensures IndexOf(s, s[p]) == p
  {
  }

  /** A vertex of b is common exactly when its position is a partner position. */
  lemma PartnerPositionsExact(a: seq<int>, b: seq<int>, p: nat)
    requires Increasing(a) && Increasing(b) && p < |b|
    ensures b[p] in Common(a, b) <==> p in PartnerPositions(a, b)
    ensures b[p] in Common(a, b) <==> b[p] in a
  {
    var c := Common(a, b);
    var ps := PartnerPositions(a, b);
    if b[p] in c {
      var k :| 0 <= k < |c| && c[k] == b[p];
      IndexOfIncreasing(b, p);
      assert ps[k] == p;
    }
    if p in ps {
      var k :| 0 <= k < |ps| && ps[k] == p;
      assert c[k] == b[p];
    }
    if b[p] in a {
      var q :| 0 <= q < |a| && a[q] == b[p];
      var cp := CommonPositions(a, b);
      CommonPositionsComplete(a, b, q);
      var k :| 0 <= k < |cp| && cp[k] == q;
      assert c[k] == b[p];
    }
  }

  /** Without common vertices nothing is summed, deleted or filtered. */
  lemma LocalNoCommon<R>(a: seq<int>, b: seq<int>, rows1: seq<R>, rows2: seq<R>, add: (R, R) -> R)
    requires Increasing(a) && Increasing(b) && |rows1| == |a| && |rows2| == |b|
    requires |Common(a, b)| == 0
    ensures forall v :: v in b ==> v !in a
  {
    forall v | v in b ensures v !in a {
      var p :| 0 <= p < |b| && b[p] == v;
      PartnerPositionsExact(a, b, p);
    }
  }

  /** A position of b is a partner position exactly when its vertex is common,
      that is, when stc1 has it too. */
  lemma DropExact(a: seq<int>, b: seq<int>)
    requires Increasing(a) && Increasing(b)
    ensures forall p :: 0 <= p < |b| ==> (b[p] in Common(a, b) <==> 0 + p in PartnerPositions(a, b))
    ensures forall p :: 0 <= p < |b| ==> (b[p] in a <==> 0 + p in PartnerPositions(a, b))
  {
    forall p | 0 <= p < |b| ensures (b[p] in Common(a, b) <==> 0 + p in PartnerPositions(a, b))
                                && (b[p] in a <==> 0 + p in PartnerPositions(a, b)) {
      PartnerPositionsExact(a, b, p);
    }
  }

  /** Filtering out the common vertices keeps the non-partner positions. */
  lemma RemainingIsKept(a: seq<int>, b: seq<int>)
    requires Increasing(a) && Increasing(b)
    ensures Without(b, Common(a, b)) == KeepFrom(b, PartnerPositions(a, b), 0)
  {
    DropExact(a, b);
    WithoutIsKeep(b, Common(a, b), PartnerPositions(a, b), 0);
  }

  /** Keeping the positions whose vertex is not in a keeps the vertices not in a. */
  lemma KeptMembers(a: seq<int>, b: seq<int>, drop: seq<nat>)
    requires forall p :: 0 <= p < |b| ==> (b[p] in a <==> 0 + p in drop)
    ensures forall v :: v in KeepFrom(b, drop, 0) <==> v in b && v !in a
  {
    forall v | v in KeepFrom(b, drop, 0) ensures v in b && v !in a {
      KeptFromSomewhere(b, drop, 0, v);
    }
    forall v | v in b && v !in a ensures v in KeepFrom(b, drop, 0) {
      var p :| 0 <= p < |b| && b[p] == v;
      KeptIfNotDropped(b, drop, 0, p);
    }
  }

  /** Rows kept alongside their vertices stay each vertex's own row. */
  lemma KeptRows<R>(b: seq<int>, rows: seq<R>, drop: seq<nat>, rem: seq<int>, kept: seq<R>)
    requires Increasing(b) && |rows| == |b| && |rem| == |kept|
    requires Pair(rem, kept) == KeepFrom(Pair(b, rows), drop, 0)
    ensures forall i :: 0 <= i < |rem| ==> rem[i] in b && kept[i] == rows[IndexOf(b, rem[i])]
  {
    var pairs := Pair(rem, kept);
    forall i | 0 <= i < |rem| ensures rem[i] in b && kept[i] == rows[IndexOf(b, rem[i])] {
      assert pairs[i] in KeepFrom(Pair(b, rows), drop, 0);
      KeptFromSomewhere(Pair(b, rows), drop, 0, pairs[i]);
      var p :| 0 <= p < |b| && Pair(b, rows)[p] == pairs[i] && 0 + p !in drop;
      IndexOfIncreasing(b, p);
    }
  }

  /** stc2's remaining vertices are its vertices not in stc1, in order, and
      each keeps its own row. */
  lemma LocalRemaining<R>(a: seq<int>, b: seq<int>, rows1: seq<R>, rows2: seq<R>, add: (R, R) -> R)
    requires Increasing(a) && Increasing(b) && |rows1| == |a| && |rows2| == |b|
    ensures var L := LocalStep(a, b, rows1, rows2, add);
      |L.kept| == |L.remaining| && Increasing(L.remaining)
      && (forall v :: v in L.remaining <==> v in b && v !in a)
      && forall i :: 0 <= i < |L.remaining| ==> L.kept[i] == rows2[IndexOf(b, L.remaining[i])]
  {
    var L := LocalStep(a, b, rows1, rows2, add);
    if |Common(a, b)| == 0 {
      LocalNoCommon(a, b, rows1, rows2, add);
      forall i | 0 <= i < |b| ensures rows2[i] == rows2[IndexOf(b, b[i])] {
        IndexOfIncreasing(b, i);
      }
    } else {
      var drop := PartnerPositions(a, b);
      RemainingIsKept(a, b);
      KeepFromPair(b, rows2, drop, 0);
      DropExact(a, b);
      KeepFromIncreasing(b, drop, 0);
      KeptMembers(a, b, drop);
      KeptRows(b, rows2, drop, L.remaining, L.kept);
    }
  }

  /** stc1's rows, with each common vertex's row summed with stc2's. */
  lemma LocalSummed<R>(a: seq<int>, b: seq<int>, rows1: seq<R>, rows2: seq<R>, add: (R, R) -> R)
    requires Increasing(a) && Increasing(b) && |rows1| == |a| && |rows2| == |b|
    ensures var L := LocalStep(a, b, rows1, rows2, add);
      |L.summed| == |a|
      && forall q :: 0 <= q < |a| ==> L.summed[q] == UnionRow(a, rows1, b, rows2, add, a[q])
  {
    var L := LocalStep(a, b, rows1, rows2, add);
    var ind1 := CommonPositions(a, b);
    var ind2 := PartnerPositions(a, b);
    forall q | 0 <= q < |a| ensures L.summed[q] == UnionRow(a, rows1, b, rows2, add, a[q]) {
      IndexOfIncreasing(a, q);
      if |Common(a, b)| == 0 {
        LocalNoCommon(a, b, rows1, rows2, add);
      } else if a[q] in b {
        CommonPositionsComplete(a, b, q);
        var k := LastPosition(ind1, q);
        var p := ind2[k];
        assert b[p] == a[q];
        IndexOfIncreasing(b, p);
      } else {
        assert q !in ind1;
      }
    }
  }

  /** Searched positions of increasing values do not decrease. */
  lemma SearchAllNondecreasing(a: seq<int>, xs: seq<int>, keys: seq<nat>)
    requires Increasing(xs) && keys == SearchAll(a, xs)
    ensures forall i, j :: 0 <= i < j < |keys| ==> keys[i] <= keys[j]
  {
    forall i, j | 0 <= i < j < |keys| ensures keys[i] <= keys[j] {
      SearchSortedMonotone(a, xs[i], xs[j]);
    }
  }

  /** Inserting the remaining vertices and their rows at their searched
      positions merges both lists, vertices and rows alike. */
  lemma PlaceIsMerge<R>(a: seq<int>, sa: seq<R>, rem: seq<int>, kr: seq<R>, inds: seq<nat>)
    requires Increasing(a) && Increasing(rem) && Disjoint(a, rem)
    requires |sa| == |a| && |kr| == |rem| && inds == SearchAll(a, rem)
    ensures Pair(Place(a, Pair(inds, rem), 0), Place(sa, Pair(inds, kr), 0)) == Merge(Pair(a, sa), Pair(rem, kr))
  {
    var e1 := Pair(a, sa);
    var e2 := Pair(rem, kr);
    assert Keys(e1) == a;
    assert Keys(e2) == rem;
    PlaceMerges(e1, e2, Pair(inds, e2), 0);
    PlacePair(a, sa, inds, rem, kr, 0);
  }

  /** The merged vertices increase, hold the vertices of both lists, and each
      merged row is the row of its vertex in one of the two lists. */
  lemma MergedLists<R>(a: seq<int>, sa: seq<R>, rem: seq<int>, kr: seq<R>, m: seq<int>, o: seq<R>)
    requires Increasing(a) && Increasing(rem) && Disjoint(a, rem) && |sa| == |a| && |kr| == |rem|
    requires |m| == |o| && Pair(m, o) == Merge(Pair(a, sa), Pair(rem, kr))
    ensures Increasing(m)
    ensures forall v :: v in m <==> v in a || v in rem
    ensures forall p :: 0 <= p < |m| ==>
      (exists q :: 0 <= q < |a| && m[p] == a[q] && o[p] == sa[q])
      || (exists i :: 0 <= i < |rem| && m[p] == rem[i] && o[p] == kr[i])
  {
    var e1 := Pair(a, sa);
    var e2 := Pair(rem, kr);
    var M := Merge(e1, e2);
    assert Keys(e1) == a;
    assert Keys(e2) == rem;
    MergeSorted(e1, e2);
    assert Keys(M) == m;
    forall p | 0 <= p < |m| ensures
      (exists q :: 0 <= q < |a| && m[p] == a[q] && o[p] == sa[q])
      || (exists i :: 0 <= i < |rem| && m[p] == rem[i] && o[p] == kr[i])
    {
      MergeFrom(e1, e2, p);
      assert M[p] == (m[p], o[p]);
      if M[p] in e1 {
        var q :| 0 <= q < |e1| && e1[q] == M[p];
      } else {
        var i :| 0 <= i < |e2| && e2[i] == M[p];
      }
    }
    forall v | v in a || v in rem ensures v in m {
      if v in a {
        var q :| 0 <= q < |a| && a[q] == v;
        MergeHas(e1, e2, e1[q]);
        var p :| 0 <= p < |M| && M[p] == e1[q];
        assert m[p] == v;
      } else {
        var i :| 0 <= i < |rem| && rem[i] == v;
        MergeHas(e1, e2, e2[i]);
        var p :| 0 <= p < |M| && M[p] == e2[i];
        assert m[p] == v;
      }
    }
  }

  /** For one space, the merged vertex list is the increasing union of both
      lists and every merged row is the union row of its vertex. */
  lemma LocalMerge<R>(a: seq<int>, b: seq<int>, rows1: seq<R>, rows2: seq<R>, add: (R, R) -> R)
    requires Increasing(a) && Increasing(b) && |rows1| == |a| && |rows2| == |b|
    ensures var L := LocalStep(a, b, rows1, rows2, add);
      |L.inds| == |L.remaining| == |L.kept|
      && var m := Place(a, Pair(L.inds, L.remaining), 0);
      var o := Place(L.summed, Pair(L.inds, L.kept), 0);
      |m| == |o| && Increasing(m)
      && (forall v :: v in m <==> v in a || v in b)
      && forall p :: 0 <= p < |m| ==> (m[p] in a || m[p] in b) && o[p] == UnionRow(a, rows1, b, rows2, add, m[p])
  {
    var L := LocalStep(a, b, rows1, rows2, add);
    LocalRemaining(a, b, rows1, rows2, add);
    LocalSummed(a, b, rows1, rows2, add);
    var m := Place(a, Pair(L.inds, L.remaining), 0);
    var o := Place(L.summed, Pair(L.inds, L.kept), 0);
    PlaceIsMerge(a, L.summed, L.remaining, L.kept, L.inds);
    MergedLists(a, L.summed, L.remaining, L.kept, m, o);
    forall p | 0 <= p < |m| ensures (m[p] in a || m[p] in b) && o[p] == UnionRow(a, rows1, b, rows2, add, m[p]) {
      if q :| 0 <= q < |a| && m[p] == a[q] && o[p] == L.summed[q] {
      } else {
        var i :| 0 <= i < |L.remaining| && m[p] == L.remaining[i] && o[p] == L.kept[i];
      }
    }
  }

  // ----- one block of joined lists -----

  /** Shifting the list moves the last position of a value along with it. */
  lemma LastPositionShift(s: seq<nat>, x: nat, c: nat)
    requires x in s
    ensures x + c in Shift(s, c) && LastPosition(Shift(s, c), x + c) == LastPosition(s, x)
  {
    var r1 := LastPosition(s, x);
    assert Shift(s, c)[r1] == x + c;
    var r2 := LastPosition(Shift(s, c), x + c);
    assert s[r2] == x;
  }

  /** Adding rows inside one block of joined lists, through indices shifted
      past the blocks before it, changes that block only. */
  lemma AddRowsLocal<R>(P: seq<R>, X: seq<R>, Q: seq<R>, P2: seq<R>, Y: seq<R>, Q2: seq<R>,
                        rows: seq<nat>, srcRows: seq<nat>, add: (R, R) -> R)
    requires |rows| == |srcRows|
    requires forall k :: 0 <= k < |rows| ==> rows[k] < |X| && srcRows[k] < |Y|
    ensures AddRows(P + X + Q, Shift(rows, |P|), P2 + Y + Q2, Shift(srcRows, |P2|), add)
         == Ok(P + AddAt(X, rows, Y, srcRows, add) + Q)
  {
    var sr := Shift(rows, |P|);
    var ss := Shift(srcRows, |P2|);
    var r := AddAt(P + X + Q, sr, P2 + Y + Q2, ss, add);
    var e := P + AddAt(X, rows, Y, srcRows, add) + Q;
    forall q | 0 <= q < |r| ensures r[q] == e[q] {
      if q < |P| || q >= |P| + |X| {
        assert q !in sr;
      } else {
        var x := q - |P|;
        assert q in sr <==> x in rows by {
          if x in rows {
            var k :| 0 <= k < |rows| && rows[k] == x;
            assert sr[k] == q;
          }
        }
        if x in rows {
          LastPositionShift(rows, x, |P|);
          var k := LastPosition(rows, x);
          assert (P2 + Y + Q2)[ss[k]] == Y[srcRows[k]];
        }
      }
    }
    assert !exists k :: 0 <= k < |sr| && (sr[k] >= |P + X + Q| || ss[k] >= |P2 + Y + Q2|);
    assert r == e;
  }

  lemma {:induction false} KeepFromAppend<T>(x: seq<T>, y: seq<T>, drop: seq<nat>, b: nat)
    ensures KeepFrom(x + y, drop, b) == KeepFrom(x, drop, b) + KeepFrom(y, drop, b + |x|)
  {
    if x == [] {
      assert x + y == y;
    } else {
      assert (x + y)[1..] == x[1..] + y;
      KeepFromAppend(x[1..], y, drop, b + 1);
    }
  }

  /** Keeping from a stretch that no dropped position falls in keeps it all. */
  lemma {:induction false} KeepFromNone<T>(s: seq<T>, drop: seq<nat>, b: nat)
    requires forall k :: 0 <= k < |drop| ==> drop[k] < b || drop[k] >= b + |s|
    ensures KeepFrom(s, drop, b) == s
  {
    if s != [] {
      assert b !in drop;
      KeepFromNone(s[1..], drop, b + 1);
      assert s == [s[0]] + s[1..];
    }
  }

  lemma InShift(d: seq<nat>, x: nat, c: nat)
    ensures x + c in Shift(d, c) <==> x in d
  {
    if x in d {
      var k :| 0 <= k < |d| && d[k] == x;
      assert Shift(d, c)[k] == x + c;
    }
  }

  /** Shifting the dropped positions and the start alike keeps the same items. */
  lemma {:induction false} KeepFromShift<T>(s: seq<T>, d: seq<nat>, b: nat, c: nat)
    ensures KeepFrom(s, Shift(d, c), b + c) == KeepFrom(s, d, b)
  {
    if s != [] {
      InShift(d, b, c);
      KeepFromShift(s[1..], d, b + 1, c);
    }
  }

  /** Keeping from joined lists, with drop positions shifted into the middle
      list, keeps the outer lists whole. */
  lemma KeepFromBlock<T>(P: seq<T>, Y: seq<T>, Q: seq<T>, drop: seq<nat>)
    requires forall k :: 0 <= k < |drop| ==> drop[k] < |Y|
    ensures KeepFrom(P + Y + Q, Shift(drop, |P|), 0) == P + KeepFrom(Y, drop, 0) + Q
  {
    var sd := Shift(drop, |P|);
    KeepFromAppend(P + Y, Q, sd, 0);
    KeepFromNone(Q, sd, |P + Y|);
    KeepFromAppend(P, Y, sd, 0);
    KeepFromNone(P, sd, 0);
    KeepFromShift(Y, drop, 0, |P|);
  }

  /** Deleting rows of one block of joined lists, through indices shifted past
      the blocks before it, changes that block only. */
  lemma DeleteRowsLocal<T>(P: seq<T>, Y: seq<T>, Q: seq<T>, drop: seq<nat>)
    requires forall k :: 0 <= k < |drop| ==> drop[k] < |Y|
    ensures DeleteRows(P + Y + Q, Shift(drop, |P|)) == Ok(P + KeepFrom(Y, drop, 0) + Q)
  {
    KeepFromBlock(P, Y, Q, drop);
  }

  // ----- the spaces of two estimates -----

  /** Two estimates the function can combine: both valid, with the same
      number of source spaces. */
  predicate Compatible<R>(stc1: Estimate<R>, stc2: Estimate<R>)
  {
    Valid(stc1) && Valid(stc2) && |stc1.vertices| == |stc2.vertices|
  }

  lemma OffsetStep(V: seq<seq<int>>, j: nat)
    requires j < |V|
    ensures Offset(V, j + 1) == Offset(V, j) + |V[j]|
  {
    assert V[..j + 1][..j] == V[..j];
  }

  lemma {:induction false} OffsetMonotone(V: seq<seq<int>>, i: nat, j: nat)
    requires i <= j <= |V|
    ensures Offset(V, i) <= Offset(V, j)
    decreases j
  {
    if i < j {
      OffsetStep(V, j - 1);
      OffsetMonotone(V, i, j - 1);
    }
  }

  lemma OffsetEnd(V: seq<seq<int>>)
    ensures Offset(V, |V|) == TotalLength(V)
  {
    assert V[..|V|] == V;
  }

  /** The rows of the spaces from j on. */
  function Rest<R>(e: Estimate<R>, j: nat): seq<R>
    requires Valid(e) && j <= |e.vertices|
  {
    OffsetMonotone(e.vertices, j, |e.vertices|);
    OffsetEnd(e.vertices);
    e.data[Offset(e.vertices, j)..]
  }

  /** The rows of space j. */
  function Block<R>(e: Estimate<R>, j: nat): (r: seq<R>)
    requires Valid(e) && j < |e.vertices|
    ensures |r| == |e.vertices[j]|
  {
    OffsetStep(e.vertices, j);
    OffsetMonotone(e.vertices, j + 1, |e.vertices|);
    OffsetEnd(e.vertices);
    e.data[Offset(e.vertices, j)..Offset(e.vertices, j + 1)]
  }

  lemma RestSplit<R>(e: Estimate<R>, j: nat)
    requires Valid(e) && j < |e.vertices|
    ensures Rest(e, j) == Block(e, j) + Rest(e, j + 1)
  {
    OffsetStep(e.vertices, j);
    OffsetMonotone(e.vertices, j + 1, |e.vertices|);
    OffsetEnd(e.vertices);
    var o1 := Offset(e.vertices, j);
    var o2 := Offset(e.vertices, j + 1);
    assert e.data[o1..] == e.data[o1..o2] + e.data[o2..];
  }

  /** What the loop computes for space j on its own rows. */
  function Local<R>(stc1: Estimate<R>, stc2: Estimate<R>, add: (R, R) -> R, j: nat): SpaceStep<R>
    requires Compatible(stc1, stc2) && j < |stc1.vertices|
  {
    LocalStep(stc1.vertices[j], stc2.vertices[j], Block(stc1, j), Block(stc2, j), add)
  }

  /** What the loop computes for every space. */
  function Locals<R>(stc1: Estimate<R>, stc2: Estimate<R>, add: (R, R) -> R): seq<SpaceStep<R>>
    requires Compatible(stc1, stc2)
  {
    seq(|stc1.vertices|, j requires 0 <= j < |stc1.vertices| => Local(stc1, stc2, add, j))
  }

  predicate Nondecreasing(s: seq<nat>)
  {
    forall i, j :: 0 <= i < j < |s| ==> s[i] <= s[j]
  }

  /** The shape of the per-space results over vertex lists A: one summed row
      per vertex of A, one position and one kept row per remaining vertex,
      and positions that do not decrease and stay within the space. */
  predicate Fits<R>(A: seq<seq<int>>, Ls: seq<SpaceStep<R>>)
  {
    |Ls| == |A|
    && forall j :: 0 <= j < |Ls| ==>
      |Ls[j].summed| == |A[j]| && |Ls[j].inds| == |Ls[j].remaining| == |Ls[j].kept|
      && Nondecreasing(Ls[j].inds) && forall i :: 0 <= i < |Ls[j].inds| ==> Ls[j].inds[i] <= |A[j]|
  }

  lemma LocalFits<R>(stc1: Estimate<R>, stc2: Estimate<R>, add: (R, R) -> R, j: nat)
    requires Compatible(stc1, stc2) && j < |stc1.vertices|
    ensures var L := Local(stc1, stc2, add, j);
      |L.summed| == |stc1.vertices[j]| && |L.inds| == |L.remaining| == |L.kept|
      && Nondecreasing(L.inds) && forall i :: 0 <= i < |L.inds| ==> L.inds[i] <= |stc1.vertices[j]|
  {
    var L := Local(stc1, stc2, add, j);
    LocalRemaining(stc1.vertices[j], stc2.vertices[j], Block(stc1, j), Block(stc2, j), add);
    SearchAllNondecreasing(stc1.vertices[j], L.remaining, L.inds);
  }

  lemma LocalsFit<R>(stc1: Estimate<R>, stc2: Estimate<R>, add: (R, R) -> R)
    requires Compatible(stc1, stc2)
    ensures Fits(stc1.vertices, Locals(stc1, stc2, add))
  {
    forall j | 0 <= j < |stc1.vertices| ensures var L := Locals(stc1, stc2, add)[j];
      |L.summed| == |stc1.vertices[j]| && |L.inds| == |L.remaining| == |L.kept|
      && Nondecreasing(L.inds) && forall i :: 0 <= i < |L.inds| ==> L.inds[i] <= |stc1.vertices[j]|
    {
      LocalFits(stc1, stc2, add, j);
    }
  }

  /** Space j's merged vertex list. */
  function MergedVertices<R>(A: seq<seq<int>>, Ls: seq<SpaceStep<R>>, j: nat): seq<int>
    requires Fits(A, Ls) && j < |A|
  {
    Place(A[j], Pair(Ls[j].inds, Ls[j].remaining), 0)
  }

  /** Space j's rows of the result. */
  function OutRows<R>(A: seq<seq<int>>, Ls: seq<SpaceStep<R>>, j: nat): seq<R>
    requires Fits(A, Ls) && j < |A|
  {
    Place(Ls[j].summed, Pair(Ls[j].inds, Ls[j].kept), 0)
  }

  /** stc1's rows of the first k spaces once the common rows are summed. */
  function SummedUpTo<R>(A: seq<seq<int>>, Ls: seq<SpaceStep<R>>, k: nat): (r: seq<R>)
    requires Fits(A, Ls) && k <= |A|
    ensures |r| == Offset(A, k)
  {
    if k == 0 then []
    else
      OffsetStep(A, k - 1);
      SummedUpTo(A, Ls, k - 1) + Ls[k - 1].summed
  }

  /** stc2's rows of the first k spaces left after the deletions. */
  function KeptUpTo<R>(Ls: seq<SpaceStep<R>>, k: nat): seq<R>
    requires k <= |Ls|
  {
    if k == 0 then [] else KeptUpTo(Ls, k - 1) + Ls[k - 1].kept
  }

  /** The result's rows of the first k spaces. */
  function OutUpTo<R>(A: seq<seq<int>>, Ls: seq<SpaceStep<R>>, k: nat): seq<R>
    requires Fits(A, Ls) && k <= |A|
  {
    if k == 0 then [] else OutUpTo(A, Ls, k - 1) + OutRows(A, Ls, k - 1)
  }

  /** The value `offsets_old` holds at position j. */
  function OldOffsetAt(A: seq<seq<int>>, j: nat, cumulative: bool): nat
    requires j <= |A|
  {
    if j == 0 then 0 else NextOffset(OldOffsetAt(A, j - 1, cumulative), |A[j - 1]|, cumulative)
  }

  /** The value `offsets_new` holds at position j. */
  function NewOffsetAt<R>(Ls: seq<SpaceStep<R>>, j: nat, cumulative: bool): nat
    requires j <= |Ls|
  {
    if j == 0 then 0 else NextOffset(NewOffsetAt(Ls, j - 1, cumulative), |Ls[j - 1].remaining|, cumulative)
  }

  function OldOffsets(A: seq<seq<int>>, k: nat, cumulative: bool): (r: seq<nat>)
    requires k <= |A|
    ensures |r| == k + 1 && forall j :: 0 <= j <= k ==> r[j] == OldOffsetAt(A, j, cumulative)
  {
    seq(k + 1, j requires 0 <= j <= k => OldOffsetAt(A, j, cumulative))
  }

  function NewOffsets<R>(Ls: seq<SpaceStep<R>>, k: nat, cumulative: bool): (r: seq<nat>)
    requires k <= |Ls|
    ensures |r| == k + 1 && forall j :: 0 <= j <= k ==> r[j] == NewOffsetAt(Ls, j, cumulative)
  {
    seq(k + 1, j requires 0 <= j <= k => NewOffsetAt(Ls, j, cumulative))
  }

  /** The loop state after k spaces, given the per-space results Ls. */
  function Expected<R>(stc1: Estimate<R>, stc2: Estimate<R>, Ls: seq<SpaceStep<R>>, cumulative: bool, k: nat): (st: Progress<R>)
    requires Compatible(stc1, stc2) && Fits(stc1.vertices, Ls) && k <= |stc1.vertices|
    ensures |st.vertices| == |stc1.vertices|
  {
    var n := |stc1.vertices|;
    Progress(
      seq(n, j requires 0 <= j < n => if j < k then MergedVertices(stc1.vertices, Ls, j) else stc1.vertices[j]),
      SummedUpTo(stc1.vertices, Ls, k) + Rest(stc1, k),
      KeptUpTo(Ls, k) + Rest(stc2, k),
      seq(k, j requires 0 <= j < k => Ls[j].inds),
      OldOffsets(stc1.vertices, k, cumulative),
      NewOffsets(Ls, k, cumulative))
  }

  /** The offsets recorded for space k locate its rows in both estimates. */
  predicate RightOffsets<R>(A: seq<seq<int>>, Ls: seq<SpaceStep<R>>, cumulative: bool, k: nat)
    requires k <= |A| && k <= |Ls|
  {
    OldOffsetAt(A, k, cumulative) == Offset(A, k) && NewOffsetAt(Ls, k, cumulative) == |KeptUpTo(Ls, k)|
  }

  // ----- the loop, space by space -----

  /** The merged vertex list of space k is what `np.insert` makes of it. */
  lemma InsertMerges<R>(A: seq<seq<int>>, Ls: seq<SpaceStep<R>>, k: nat)
    requires Fits(A, Ls) && k < |A|
    ensures Insert(A[k], Ls[k].inds, Ls[k].remaining) == Ok(MergedVertices(A, Ls, k))
  {
    var ps := Pair(Ls[k].inds, Ls[k].remaining);
    assert KeysNondecreasing(ps);
    SortKeepsSorted(ps);
  }

  /** The rows one iteration leaves: stc1's with space k's common rows summed,
      and stc2's with space k's common rows deleted. */
  lemma StepRows<R>(stc1: Estimate<R>, stc2: Estimate<R>, add: (R, R) -> R, cumulative: bool, k: nat)
    requires Compatible(stc1, stc2) && k < |stc1.vertices|
    requires Fits(stc1.vertices, Locals(stc1, stc2, add))
    requires RightOffsets(stc1.vertices, Locals(stc1, stc2, add), cumulative, k)
    ensures var A := stc1.vertices;
      var B := stc2.vertices;
      var Ls := Locals(stc1, stc2, add);
      var st := Expected(stc1, stc2, Ls, cumulative, k);
      var common := Common(A[k], B[k]);
      |common| > 0 ==>
        AddRows(st.data, Shift(CommonPositions(A[k], B[k]), Last(st.offsetsOld)),
                st.newData, Shift(PartnerPositions(A[k], B[k]), Last(st.offsetsNew)), add)
          == Ok(SummedUpTo(A, Ls, k + 1) + Rest(stc1, k + 1))
        && DeleteRows(st.newData, Shift(PartnerPositions(A[k], B[k]), Last(st.offsetsNew)))
          == Ok(KeptUpTo(Ls, k + 1) + Rest(stc2, k + 1))
        && Without(B[k], common) == Ls[k].remaining
    ensures var Ls := Locals(stc1, stc2, add);
      var st := Expected(stc1, stc2, Ls, cumulative, k);
      |Common(stc1.vertices[k], stc2.vertices[k])| == 0 ==>
        st.data == SummedUpTo(stc1.vertices, Ls, k + 1) + Rest(stc1, k + 1)
        && st.newData == KeptUpTo(Ls, k + 1) + Rest(stc2, k + 1)
        && stc2.vertices[k] == Ls[k].remaining
  {
    var A := stc1.vertices;
    var B := stc2.vertices;
    var Ls := Locals(stc1, stc2, add);
    var st := Expected(stc1, stc2, Ls, cumulative, k);
    var X := Block(stc1, k);
    var Y := Block(stc2, k);
    var P := SummedUpTo(A, Ls, k);
    var Q := Rest(stc1, k + 1);
    var P2 := KeptUpTo(Ls, k);
    var Q2 := Rest(stc2, k + 1);
    RestSplit(stc1, k);
    RestSplit(stc2, k);
    assert st.data == P + X + Q;
    assert st.newData == P2 + Y + Q2;
    assert Last(st.offsetsOld) == |P|;
    assert Last(st.offsetsNew) == |P2|;
    if |Common(A[k], B[k])| > 0 {
      AddRowsLocal(P, X, Q, P2, Y, Q2, CommonPositions(A[k], B[k]), PartnerPositions(A[k], B[k]), add);
      DeleteRowsLocal(P2, Y, Q2, PartnerPositions(A[k], B[k]));
    }
  }

  lemma NextVertices<R>(stc1: Estimate<R>, stc2: Estimate<R>, Ls: seq<SpaceStep<R>>, cumulative: bool, k: nat)
    requires Compatible(stc1, stc2) && Fits(stc1.vertices, Ls) && k < |stc1.vertices|
    ensures Expected(stc1, stc2, Ls, cumulative, k + 1).vertices
         == Expected(stc1, stc2, Ls, cumulative, k).vertices[k := MergedVertices(stc1.vertices, Ls, k)]
  {
  }

  lemma NextInserters<R>(stc1: Estimate<R>, stc2: Estimate<R>, Ls: seq<SpaceStep<R>>, cumulative: bool, k: nat)
    requires Compatible(stc1, stc2) && Fits(stc1.vertices, Ls) && k < |stc1.vertices|
    ensures Expected(stc1, stc2, Ls, cumulative, k + 1).inserters
         == Expected(stc1, stc2, Ls, cumulative, k).inserters + [Ls[k].inds]
  {
  }

  lemma NextOffsetsOld<R>(stc1: Estimate<R>, stc2: Estimate<R>, Ls: seq<SpaceStep<R>>, cumulative: bool, k: nat)
    requires Compatible(stc1, stc2) && Fits(stc1.vertices, Ls) && k < |stc1.vertices|
    ensures var st := Expected(stc1, stc2, Ls, cumulative, k);
      Expected(stc1, stc2, Ls, cumulative, k + 1).offsetsOld
        == st.offsetsOld + [NextOffset(Last(st.offsetsOld), |stc1.vertices[k]|, cumulative)]
  {
    var a := OldOffsets(stc1.vertices, k, cumulative);
    var b := OldOffsets(stc1.vertices, k + 1, cumulative);
    assert Last(a) == OldOffsetAt(stc1.vertices, k, cumulative);
    assert b == a + [OldOffsetAt(stc1.vertices, k + 1, cumulative)];
  }

  lemma NextOffsetsNew<R>(stc1: Estimate<R>, stc2: Estimate<R>, Ls: seq<SpaceStep<R>>, cumulative: bool, k: nat)
    requires Compatible(stc1, stc2) && Fits(stc1.vertices, Ls) && k < |stc1.vertices|
    ensures var st := Expected(stc1, stc2, Ls, cumulative, k);
      Expected(stc1, stc2, Ls, cumulative, k + 1).offsetsNew
        == st.offsetsNew + [NextOffset(Last(st.offsetsNew), |Ls[k].remaining|, cumulative)]
  {
    var a := NewOffsets(Ls, k, cumulative);
    var b := NewOffsets(Ls, k + 1, cumulative);
    assert Last(a) == NewOffsetAt(Ls, k, cumulative);
    assert b == a + [NewOffsetAt(Ls, k + 1, cumulative)];
  }

  /** The expected state after k + 1 spaces, built from the one after k the
      way an iteration builds it. */
  lemma ExpectedNext<R>(stc1: Estimate<R>, stc2: Estimate<R>, Ls: seq<SpaceStep<R>>, cumulative: bool, k: nat)
    requires Compatible(stc1, stc2) && Fits(stc1.vertices, Ls) && k < |stc1.vertices|
    ensures var st := Expected(stc1, stc2, Ls, cumulative, k);
      Expected(stc1, stc2, Ls, cumulative, k + 1)
        == Progress(st.vertices[k := MergedVertices(stc1.vertices, Ls, k)],
                    SummedUpTo(stc1.vertices, Ls, k + 1) + Rest(stc1, k + 1),
                    KeptUpTo(Ls, k + 1) + Rest(stc2, k + 1),
                    st.inserters + [Ls[k].inds],
                    st.offsetsOld + [NextOffset(Last(st.offsetsOld), |stc1.vertices[k]|, cumulative)],
                    st.offsetsNew + [NextOffset(Last(st.offsetsNew), |Ls[k].remaining|, cumulative)])
  {
    NextVertices(stc1, stc2, Ls, cumulative, k);
    NextInserters(stc1, stc2, Ls, cumulative, k);
    NextOffsetsOld(stc1, stc2, Ls, cumulative, k);
    NextOffsetsNew(stc1, stc2, Ls, cumulative, k);
  }

  /** With the right offsets, one iteration takes the expected state after k
      spaces to the expected state after k + 1. */
  lemma StepExpected<R>(stc1: Estimate<R>, stc2: Estimate<R>, add: (R, R) -> R, cumulative: bool, k: nat)
    requires Compatible(stc1, stc2) && k < |stc1.vertices|
    requires Fits(stc1.vertices, Locals(stc1, stc2, add))
    requires RightOffsets(stc1.vertices, Locals(stc1, stc2, add), cumulative, k)
    ensures var Ls := Locals(stc1, stc2, add);
      Step(stc1.vertices, stc2.vertices, k, Expected(stc1, stc2, Ls, cumulative, k), add, cumulative)
        == Ok(Expected(stc1, stc2, Ls, cumulative, k + 1))
  {
    var Ls := Locals(stc1, stc2, add);
    StepRows(stc1, stc2, add, cumulative, k);
    InsertMerges(stc1.vertices, Ls, k);
    ExpectedNext(stc1, stc2, Ls, cumulative, k);
  }

  /** A loop whose every iteration takes one listed state to the next ends in
      the last listed state. */
  lemma {:induction false} LoopThrough<R>(A: seq<seq<int>>, B: seq<seq<int>>, k: nat, sts: seq<Progress<R>>, add: (R, R) -> R, cumulative: bool)
    requires k <= |A| && |A| == |B| && |sts| == |A| + 1
    requires forall j :: k <= j <= |A| ==> |sts[j].vertices| == |A|
    requires forall j {:trigger Step(A, B, j, sts[j], add, cumulative)} :: k <= j < |A| ==> Step(A, B, j, sts[j], add, cumulative) == Ok(sts[j + 1])
    ensures Loop(A, B, k, sts[k], add, cumulative) == Ok(sts[|A|])
    decreases |A| - k
  {
    if k < |A| {
      LoopThrough(A, B, k + 1, sts, add, cumulative);
    }
  }

  /** The expected states after 0, 1, ..., n spaces. */
  function ExpectedStates<R>(stc1: Estimate<R>, stc2: Estimate<R>, Ls: seq<SpaceStep<R>>, cumulative: bool): (sts: seq<Progress<R>>)
    requires Compatible(stc1, stc2) && Fits(stc1.vertices, Ls)
    ensures |sts| == |stc1.vertices| + 1
    ensures forall j :: 0 <= j <= |stc1.vertices| ==> |sts[j].vertices| == |stc1.vertices|
  {
    seq(|stc1.vertices| + 1, j requires 0 <= j <= |stc1.vertices| => Expected(stc1, stc2, Ls, cumulative, j))
  }

  /** With the right offsets for every space, each iteration takes one expected
      state to the next. */
  lemma StepsExpected<R>(stc1: Estimate<R>, stc2: Estimate<R>, add: (R, R) -> R, cumulative: bool)
    requires Compatible(stc1, stc2) && Fits(stc1.vertices, Locals(stc1, stc2, add))
    requires forall j :: 0 <= j < |stc1.vertices| ==> RightOffsets(stc1.vertices, Locals(stc1, stc2, add), cumulative, j)
    ensures var sts := ExpectedStates(stc1, stc2, Locals(stc1, stc2, add), cumulative);
      forall j {:trigger Step(stc1.vertices, stc2.vertices, j, sts[j], add, cumulative)} :: 0 <= j < |stc1.vertices| ==>
        Step(stc1.vertices, stc2.vertices, j, sts[j], add, cumulative) == Ok(sts[j + 1])
  {
    var sts := ExpectedStates(stc1, stc2, Locals(stc1, stc2, add), cumulative);
    forall j | 0 <= j < |stc1.vertices|
      ensures Step(stc1.vertices, stc2.vertices, j, sts[j], add, cumulative) == Ok(sts[j + 1])
    {
      StepListed(stc1, stc2, add, cumulative, j);
    }
  }

  /** StepExpected for the listed states. */
  lemma StepListed<R>(stc1: Estimate<R>, stc2: Estimate<R>, add: (R, R) -> R, cumulative: bool, k: nat)
    requires Compatible(stc1, stc2) && k < |stc1.vertices|
    requires Fits(stc1.vertices, Locals(stc1, stc2, add))
    requires RightOffsets(stc1.vertices, Locals(stc1, stc2, add), cumulative, k)
    ensures var sts := ExpectedStates(stc1, stc2, Locals(stc1, stc2, add), cumulative);
      Step(stc1.vertices, stc2.vertices, k, sts[k], add, cumulative) == Ok(sts[k + 1])
  {
    var Ls := Locals(stc1, stc2, add);
    var sts := ExpectedStates(stc1, stc2, Ls, cumulative);
    var s, t := Expected(stc1, stc2, Ls, cumulative, k), Expected(stc1, stc2, Ls, cumulative, k + 1);
    assert sts[k] == s && sts[k + 1] == t && k < |s.vertices|;
    assert Step(stc1.vertices, stc2.vertices, k, s, add, cumulative) == Ok(t) by {
      StepExpected(stc1, stc2, add, cumulative, k);
    }
    StepAt(stc1.vertices, stc2.vertices, k, sts, s, t, add, cumulative);
  }

  /** A step between two states is a step between the listed states equal to them. */
  lemma StepAt<R>(A: seq<seq<int>>, B: seq<seq<int>>, k: nat, sts: seq<Progress<R>>, s: Progress<R>, t: Progress<R>, add: (R, R) -> R, cumulative: bool)
    requires k < |A| && k < |B| && k < |s.vertices| && k + 1 < |sts| && sts[k] == s && sts[k + 1] == t
    requires Step(A, B, k, s, add, cumulative) == Ok(t)
    ensures Step(A, B, k, sts[k], add, cumulative) == Ok(sts[k + 1])
  {
  }

  /** With the right offsets for every space, the loop ends in the expected
      state after all spaces. */
  lemma LoopExpected<R>(stc1: Estimate<R>, stc2: Estimate<R>, add: (R, R) -> R, cumulative: bool)
    requires Compatible(stc1, stc2) && Fits(stc1.vertices, Locals(stc1, stc2, add))
    requires forall j :: 0 <= j < |stc1.vertices| ==> RightOffsets(stc1.vertices, Locals(stc1, stc2, add), cumulative, j)
    ensures var sts := ExpectedStates(stc1, stc2, Locals(stc1, stc2, add), cumulative);
      Loop(stc1.vertices, stc2.vertices, 0, sts[0], add, cumulative) == Ok(sts[|stc1.vertices|])
  {
    StepsExpected(stc1, stc2, add, cumulative);
    LoopThrough(stc1.vertices, stc2.vertices, 0, ExpectedStates(stc1, stc2, Locals(stc1, stc2, add), cumulative), add, cumulative);
  }

  /** The state the loop starts from is the expected state after no space. */
  lemma ExpectedStart<R>(stc1: Estimate<R>, stc2: Estimate<R>, Ls: seq<SpaceStep<R>>, cumulative: bool)
    requires Compatible(stc1, stc2) && Fits(stc1.vertices, Ls)
    ensures Expected(stc1, stc2, Ls, cumulative, 0) == Progress(stc1.vertices, stc1.data, stc2.data, [], [0], [0])
  {
    var st := Expected(stc1, stc2, Ls, cumulative, 0);
    assert st.vertices == stc1.vertices;
    assert st.offsetsOld == [0];
    assert st.offsetsNew == [0];
  }

  /** Running totals are the right offsets for every space. */
  lemma {:induction false} CumulativeRight<R>(A: seq<seq<int>>, Ls: seq<SpaceStep<R>>, k: nat)
    requires Fits(A, Ls) && k <= |A|
    ensures RightOffsets(A, Ls, true, k)
  {
    if k > 0 {
      CumulativeRight(A, Ls, k - 1);
      OffsetStep(A, k - 1);
    }
  }

  /** The lengths alone are the right offsets for the first two spaces. */
  lemma FirstTwoRight<R>(A: seq<seq<int>>, Ls: seq<SpaceStep<R>>, cumulative: bool, k: nat)
    requires Fits(A, Ls) && k <= |A| && k <= 1
    ensures RightOffsets(A, Ls, cumulative, k)
  {
    if k == 1 {
      OffsetStep(A, 0);
    }
  }

  // ----- the final insertion -----

  /** The insertion positions of the first m spaces, each shifted by the
      number of stc1 rows before its space. */
  function ShiftedUpTo<R>(A: seq<seq<int>>, Ls: seq<SpaceStep<R>>, m: nat): seq<nat>
    requires Fits(A, Ls) && m <= |A|
  {
    if m == 0 then [] else ShiftedUpTo(A, Ls, m - 1) + Shift(Ls[m - 1].inds, Offset(A, m - 1))
  }

  /** The concatenation the code builds is the shifted positions. */
  lemma {:induction false} ConcatShifted<R>(A: seq<seq<int>>, Ls: seq<SpaceStep<R>>, lists: seq<seq<nat>>)
    requires Fits(A, Ls) && |lists| <= |A|
    requires forall j :: 0 <= j < |lists| ==> lists[j] == Shift(Ls[j].inds, Offset(A, j))
    ensures Concat(lists) == ShiftedUpTo(A, Ls, |lists|)
  {
    if lists != [] {
      ConcatShifted(A, Ls, lists[..|lists| - 1]);
    }
  }

  /** The shifted positions of the first m spaces: one per remaining row, not
      decreasing, and none past the rows of those spaces. */
  lemma {:induction false} ShiftedKeys<R>(A: seq<seq<int>>, Ls: seq<SpaceStep<R>>, m: nat)
    requires Fits(A, Ls) && m <= |A|
    ensures var si := ShiftedUpTo(A, Ls, m);
      |si| == |KeptUpTo(Ls, m)| && Nondecreasing(si) && forall i :: 0 <= i < |si| ==> si[i] <= Offset(A, m)
  {
    if m > 0 {
      var k := m - 1;
      ShiftedKeys(A, Ls, k);
      OffsetStep(A, k);
      var si := ShiftedUpTo(A, Ls, k);
      var off := Offset(A, k);
      var sh := Shift(Ls[k].inds, off);
      var all := si + sh;
      forall i, j | 0 <= i < j < |all| ensures all[i] <= all[j] {
        if j < |si| {
        } else if i < |si| {
          assert all[i] <= off <= all[j];
        } else {
          assert all[i] == sh[i - |si|] && all[j] == sh[j - |si|];
        }
      }
    }
  }

  /** Inserting one more space's rows after the joined rows, at positions
      shifted past them. */
  lemma AssembleStep<R>(summed: seq<R>, rows: seq<R>, si: seq<nat>, kept: seq<R>, inds: seq<nat>, more: seq<R>)
    requires |si| == |kept| && |inds| == |more|
    requires forall i :: 0 <= i < |si| ==> si[i] <= |summed|
    ensures |si + Shift(inds, |summed|)| == |kept + more|
    ensures Place(summed + rows, Pair(si + Shift(inds, |summed|), kept + more), 0)
         == Place(summed, Pair(si, kept), 0) + Place(rows, Pair(inds, more), 0)
  {
    var off := |summed|;
    var sh := Shift(inds, off);
    assert Pair(si + sh, kept + more) == Pair(si, kept) + Pair(sh, more);
    PlaceAppend(summed, rows, Pair(si, kept), Pair(sh, more), 0);
    PlaceShift(rows, Pair(inds, more), Pair(sh, more), 0, off);
  }

  /** Inserting the remaining rows of the first m spaces at the shifted
      positions gives the result's rows of those spaces. */
  lemma {:induction false} AssembleUpTo<R>(A: seq<seq<int>>, Ls: seq<SpaceStep<R>>, m: nat)
    requires Fits(A, Ls) && m <= |A|
    ensures |ShiftedUpTo(A, Ls, m)| == |KeptUpTo(Ls, m)|
    ensures Place(SummedUpTo(A, Ls, m), Pair(ShiftedUpTo(A, Ls, m), KeptUpTo(Ls, m)), 0) == OutUpTo(A, Ls, m)
  {
    ShiftedKeys(A, Ls, m);
    if m > 0 {
      var k := m - 1;
      AssembleUpTo(A, Ls, k);
      ShiftedKeys(A, Ls, k);
      AssembleStep(SummedUpTo(A, Ls, k), Ls[k].summed, ShiftedUpTo(A, Ls, k), KeptUpTo(Ls, k), Ls[k].inds, Ls[k].kept);
    }
  }

  // ----- the result -----

  /** The result's vertex lists. */
  function MergedAll<R>(A: seq<seq<int>>, Ls: seq<SpaceStep<R>>): seq<seq<int>>
    requires Fits(A, Ls)
  {
    seq(|A|, j requires 0 <= j < |A| => MergedVertices(A, Ls, j))
  }

  lemma {:induction false} OutLength<R>(A: seq<seq<int>>, Ls: seq<SpaceStep<R>>, m: nat)
    requires Fits(A, Ls) && m <= |A|
    ensures |OutUpTo(A, Ls, m)| == Offset(MergedAll(A, Ls), m)
  {
    if m > 0 {
      OutLength(A, Ls, m - 1);
      OffsetStep(MergedAll(A, Ls), m - 1);
    }
  }

  lemma {:induction false} OutPrefix<R>(A: seq<seq<int>>, Ls: seq<SpaceStep<R>>, m: nat, k: nat)
    requires Fits(A, Ls) && k <= m <= |A|
    ensures OutUpTo(A, Ls, k) <= OutUpTo(A, Ls, m)
    decreases m
  {
    if k < m {
      OutPrefix(A, Ls, m - 1, k);
    }
  }

  lemma PrefixBlock<T>(whole: seq<T>, front: seq<T>, pre: seq<T>, blk: seq<T>)
    requires front == pre + blk && front <= whole
    ensures |pre| + |blk| <= |whole| && whole[|pre|..|pre| + |blk|] == blk
  {
    assert whole[..|pre| + |blk|] == pre + blk;
  }

  /** The result's rows of space j sit at the space's offset among the merged lists. */
  lemma OutSlice<R>(A: seq<seq<int>>, Ls: seq<SpaceStep<R>>, j: nat)
    requires Fits(A, Ls) && j < |A|
    ensures var MV := MergedAll(A, Ls);
      Offset(MV, j) <= Offset(MV, j + 1) <= |OutUpTo(A, Ls, |A|)|
      && OutUpTo(A, Ls, |A|)[Offset(MV, j)..Offset(MV, j + 1)] == OutRows(A, Ls, j)
  {
    var MV := MergedAll(A, Ls);
    var whole := OutUpTo(A, Ls, |A|);
    var front := OutUpTo(A, Ls, j + 1);
    var pre := OutUpTo(A, Ls, j);
    var blk := OutRows(A, Ls, j);
    OutLength(A, Ls, j);
    OutLength(A, Ls, j + 1);
    OffsetStep(MV, j);
    OutPrefix(A, Ls, |A|, j + 1);
    PrefixBlock(whole, front, pre, blk);
  }

  /** out is the union of the two estimates: the same number of spaces, each
      vertex list the increasing union of both, and each row the sum of both
      rows for a vertex in both and the one row otherwise. */
  ghost predicate IsCombination<R>(stc1: Estimate<R>, stc2: Estimate<R>, add: (R, R) -> R, out: Estimate<R>)
    requires Compatible(stc1, stc2)
  {
    Valid(out) && |out.vertices| == |stc1.vertices|
    && forall j :: 0 <= j < |out.vertices| ==>
      (forall v :: v in out.vertices[j] <==> v in stc1.vertices[j] || v in stc2.vertices[j])
      && forall p :: 0 <= p < |out.vertices[j]| ==>
        (out.vertices[j][p] in stc1.vertices[j] || out.vertices[j][p] in stc2.vertices[j])
        && Block(out, j)[p]
           == UnionRow(stc1.vertices[j], Block(stc1, j), stc2.vertices[j], Block(stc2, j), add, out.vertices[j][p])
  }

  /** Space j of the result: the union of the space's vertex lists, with the
      union rows. */
  lemma SpaceCombines<R>(stc1: Estimate<R>, stc2: Estimate<R>, add: (R, R) -> R, j: nat)
    requires Compatible(stc1, stc2) && j < |stc1.vertices| && Fits(stc1.vertices, Locals(stc1, stc2, add))
    ensures var Ls := Locals(stc1, stc2, add);
      var m := MergedVertices(stc1.vertices, Ls, j);
      var o := OutRows(stc1.vertices, Ls, j);
      |m| == |o| && Increasing(m)
      && (forall v :: v in m <==> v in stc1.vertices[j] || v in stc2.vertices[j])
      && forall p :: 0 <= p < |m| ==>
        (m[p] in stc1.vertices[j] || m[p] in stc2.vertices[j])
        && o[p] == UnionRow(stc1.vertices[j], Block(stc1, j), stc2.vertices[j], Block(stc2, j), add, m[p])
  {
    LocalMerge(stc1.vertices[j], stc2.vertices[j], Block(stc1, j), Block(stc2, j), add);
    assert Locals(stc1, stc2, add)[j] == Local(stc1, stc2, add, j);
  }

  /** The merged lists with the assembled rows are the union. */
  lemma AssembledCombines<R>(stc1: Estimate<R>, stc2: Estimate<R>, add: (R, R) -> R)
    requires Compatible(stc1, stc2) && Fits(stc1.vertices, Locals(stc1, stc2, add))
    ensures var Ls := Locals(stc1, stc2, add);
      IsCombination(stc1, stc2, add, Estimate(MergedAll(stc1.vertices, Ls), OutUpTo(stc1.vertices, Ls, |stc1.vertices|)))
  {
    var n := |stc1.vertices|;
    var A := stc1.vertices;
    var Ls := Locals(stc1, stc2, add);
    var MV := MergedAll(A, Ls);
    var out := Estimate(MV, OutUpTo(A, Ls, n));
    OutLength(A, Ls, n);
    OffsetEnd(MV);
    forall j | 0 <= j < n ensures Increasing(MV[j]) {
      SpaceCombines(stc1, stc2, add, j);
    }
    assert Valid(out);
    forall j | 0 <= j < n
      ensures (forall v :: v in MV[j] <==> v in stc1.vertices[j] || v in stc2.vertices[j])
      && forall p :: 0 <= p < |MV[j]| ==>
        (MV[j][p] in stc1.vertices[j] || MV[j][p] in stc2.vertices[j])
        && Block(out, j)[p] == UnionRow(stc1.vertices[j], Block(stc1, j), stc2.vertices[j], Block(stc2, j), add, MV[j][p])
    {
      OutSlice(A, Ls, j);
      SpaceCombines(stc1, stc2, add, j);
    }
  }

  /** The expected state after all spaces: every list merged, and the rows
      left to insert. */
  lemma ExpectedEnd<R>(stc1: Estimate<R>, stc2: Estimate<R>, Ls: seq<SpaceStep<R>>, cumulative: bool)
    requires Compatible(stc1, stc2) && Fits(stc1.vertices, Ls)
    ensures var st := Expected(stc1, stc2, Ls, cumulative, |stc1.vertices|);
      st.data == SummedUpTo(stc1.vertices, Ls, |stc1.vertices|)
      && st.newData == KeptUpTo(Ls, |stc1.vertices|)
      && st.vertices == MergedAll(stc1.vertices, Ls)
  {
    OffsetEnd(stc1.vertices);
    OffsetEnd(stc2.vertices);
  }

  /** The positions the code concatenates are the shifted positions. */
  lemma ExpectedInds<R>(stc1: Estimate<R>, stc2: Estimate<R>, Ls: seq<SpaceStep<R>>, cumulative: bool)
    requires Compatible(stc1, stc2) && Fits(stc1.vertices, Ls)
    requires forall j :: 0 <= j < |stc1.vertices| ==> RightOffsets(stc1.vertices, Ls, cumulative, j)
    ensures var n := |stc1.vertices|;
      var st := Expected(stc1, stc2, Ls, cumulative, n);
      Concat(ShiftedInserters(st, n)) == ShiftedUpTo(stc1.vertices, Ls, n)
  {
    var n := |stc1.vertices|;
    var st := Expected(stc1, stc2, Ls, cumulative, n);
    var lists := ShiftedInserters(st, n);
    forall j | 0 <= j < n ensures lists[j] == Shift(Ls[j].inds, Offset(stc1.vertices, j)) {
      assert st.inserters[j] == Ls[j].inds;
      assert st.offsetsOld[j] == OldOffsetAt(stc1.vertices, j, cumulative);
      assert RightOffsets(stc1.vertices, Ls, cumulative, j);
    }
    ConcatShifted(stc1.vertices, Ls, lists);
  }

  /** The final `np.insert` puts the remaining rows where they belong. */
  lemma FinalInsert<R>(A: seq<seq<int>>, Ls: seq<SpaceStep<R>>)
    requires Fits(A, Ls)
    ensures Insert(SummedUpTo(A, Ls, |A|), ShiftedUpTo(A, Ls, |A|), KeptUpTo(Ls, |A|)) == Ok(OutUpTo(A, Ls, |A|))
  {
    ShiftedKeys(A, Ls, |A|);
    AssembleUpTo(A, Ls, |A|);
    var ps := Pair(ShiftedUpTo(A, Ls, |A|), KeptUpTo(Ls, |A|));
    assert KeysNondecreasing(ps);
    SortKeepsSorted(ps);
  }

  /** With the right offsets for every space, the function returns the merged
      lists with the assembled rows. */
  lemma CombineExpected<R>(stc1: Estimate<R>, stc2: Estimate<R>, add: (R, R) -> R, cumulative: bool)
    requires Compatible(stc1, stc2) && |stc1.vertices| > 0 && Fits(stc1.vertices, Locals(stc1, stc2, add))
    requires forall j :: 0 <= j < |stc1.vertices| ==> RightOffsets(stc1.vertices, Locals(stc1, stc2, add), cumulative, j)
    ensures var Ls := Locals(stc1, stc2, add);
      CombineWith(stc1, stc2, add, cumulative)
        == Ok(Estimate(MergedAll(stc1.vertices, Ls), OutUpTo(stc1.vertices, Ls, |stc1.vertices|)))
  {
    var Ls := Locals(stc1, stc2, add);
    ExpectedStart(stc1, stc2, Ls, cumulative);
    LoopExpected(stc1, stc2, add, cumulative);
    var sts := ExpectedStates(stc1, stc2, Ls, cumulative);
    assert sts[0] == Expected(stc1, stc2, Ls, cumulative, 0);
    assert sts[|stc1.vertices|] == Expected(stc1, stc2, Ls, cumulative, |stc1.vertices|);
    ExpectedEnd(stc1, stc2, Ls, cumulative);
    ExpectedInds(stc1, stc2, Ls, cumulative);
    FinalInsert(stc1.vertices, Ls);
  }

  // ----- combine_stcs -----

  /** `combine_stcs` as written: the offsets it records are the lengths of the
      previous space alone. */
  function CombineStcs<R>(stc1: Estimate<R>, stc2: Estimate<R>, add: (R, R) -> R): (r: Result<Estimate<R>>)
    requires |stc1.vertices| == |stc2.vertices|
    ensures |stc1.vertices| == 0 ==> r == Err(NothingToConcatenate)
  {
    CombineWith(stc1, stc2, add, false)
  }

  /** `combine_stcs` with running totals as offsets. */
  function CombineStcsCorrected<R>(stc1: Estimate<R>, stc2: Estimate<R>, add: (R, R) -> R): (r: Result<Estimate<R>>)
    requires |stc1.vertices| == |stc2.vertices|
    ensures |stc1.vertices| == 0 ==> r == Err(NothingToConcatenate)
  {
    CombineWith(stc1, stc2, add, true)
  }

  /** The corrected function combines any two compatible estimates. */
  lemma CorrectedCombines<R>(stc1: Estimate<R>, stc2: Estimate<R>, add: (R, R) -> R)
    requires Compatible(stc1, stc2) && |stc1.vertices| > 0
    ensures var r := CombineStcsCorrected(stc1, stc2, add);
      r.Ok? && IsCombination(stc1, stc2, add, r.value)
  {
    var Ls := Locals(stc1, stc2, add);
    LocalsFit(stc1, stc2, add);
    forall j | 0 <= j < |stc1.vertices| ensures RightOffsets(stc1.vertices, Ls, true, j) {
      CumulativeRight(stc1.vertices, Ls, j);
    }
    CombineExpected(stc1, stc2, add, true);
    AssembledCombines(stc1, stc2, add);
  }

  /** With at most two spaces, as for the two hemispheres of a surface source
      space, the function as written returns what the corrected one does, so
      it combines the estimates too. */
  lemma AsWrittenTwoSpaces<R>(stc1: Estimate<R>, stc2: Estimate<R>, add: (R, R) -> R)
    requires Compatible(stc1, stc2) && 0 < |stc1.vertices| <= 2
    ensures var r := CombineStcs(stc1, stc2, add);
      r == CombineStcsCorrected(stc1, stc2, add) && r.Ok? && IsCombination(stc1, stc2, add, r.value)
  {
    var Ls := Locals(stc1, stc2, add);
    LocalsFit(stc1, stc2, add);
    forall j | 0 <= j < |stc1.vertices| ensures RightOffsets(stc1.vertices, Ls, false, j) {
      FirstTwoRight(stc1.vertices, Ls, false, j);
    }
    forall j | 0 <= j < |stc1.vertices| ensures RightOffsets(stc1.vertices, Ls, true, j) {
      CumulativeRight(stc1.vertices, Ls, j);
    }
    CombineExpected(stc1, stc2, add, false);
    CombineExpected(stc1, stc2, add, true);
    AssembledCombines(stc1, stc2, add);
  }

  // ----- the offsets as written, on three spaces -----

  /** A step for a space with no common vertex keeps the rows and merges all
      of stc2's vertices into the list. */
  lemma StepWithoutCommon<R>(A: seq<seq<int>>, B: seq<seq<int>>, k: nat, st: Progress<R>, add: (R, R) -> R, cumulative: bool, merged: seq<int>)
    requires k < |A| && k < |B| && k < |st.vertices|
    requires Common(A[k], B[k]) == []
    requires Insert(A[k], SearchAll(A[k], B[k]), B[k]) == Ok(merged)
    ensures Step(A, B, k, st, add, cumulative)
      == Ok(Progress(st.vertices[k := merged], st.data, st.newData, st.inserters + [SearchAll(A[k], B[k])],
                     st.offsetsOld + [NextOffset(Last(st.offsetsOld), |A[k]|, cumulative)],
                     st.offsetsNew + [NextOffset(Last(st.offsetsNew), |B[k]|, cumulative)]))
  {
  }

  /** Three spaces where only the third gains a vertex: stc1 has one vertex
      per space, stc2 adds vertex 6 to the third. */
  function ThreeOld(): Estimate<int>
  {
    Estimate([[1], [2], [5]], [10, 20, 50])
  }

  function ThreeNew(): Estimate<int>
  {
    Estimate([[], [], [6]], [60])
  }

  /** What the function as written returns for them. */
  function ThreeOut(): Estimate<int>
  {
    Estimate([[1], [2], [5, 6]], [10, 20, 60, 50])
  }

  /** The loop state before space k of the three, k <= 3: the offsets
      recorded so far are the lengths 1, 1, 1 of the spaces. */
  function ThreeState(k: nat): Progress<int>
    requires k <= 3
  {
    match k
    case 0 => Progress(ThreeOld().vertices, ThreeOld().data, ThreeNew().data, [], [0], [0])
    case 1 => Progress(ThreeOld().vertices, ThreeOld().data, ThreeNew().data, [[]], [0, 1], [0, 0])
    case 2 => Progress(ThreeOld().vertices, ThreeOld().data, ThreeNew().data, [[], []], [0, 1, 1], [0, 0, 0])
    case _ => Progress(ThreeOut().vertices, ThreeOld().data, ThreeNew().data, [[], [], [1]], [0, 1, 1, 1], [0, 0, 0, 1])
  }

  /** The first space has no new vertex. */
  lemma ThreeStepFirst(add: (int, int) -> int)
    ensures Step(ThreeOld().vertices, ThreeNew().vertices, 0, ThreeState(0), add, false) == Ok(ThreeState(1))
  {
    var A, B := ThreeOld().vertices, ThreeNew().vertices;
    assert CommonPositions([1], []) == [] && Common(A[0], B[0]) == [];
    assert SearchAll([1], []) == [] && SortByKey(Pair<nat, int>([], [])) == [] && Place([1], [], 0) == [1];
    assert Insert([1], [], []) == Ok([1]) && A[0 := [1]] == A;
    StepWithoutCommon(A, B, 0, ThreeState(0), add, false, [1]);
    assert [] + [SearchAll([1], [])] == [[]] && [0] + [1] == [0, 1] && [0] + [0] == [0, 0];
  }

  /** The second space has no new vertex either. */
  lemma ThreeStepSecond(add: (int, int) -> int)
    ensures Step(ThreeOld().vertices, ThreeNew().vertices, 1, ThreeState(1), add, false) == Ok(ThreeState(2))
  {
    var A, B := ThreeOld().vertices, ThreeNew().vertices;
    assert CommonPositions([2], []) == [] && Common(A[1], B[1]) == [];
    assert SearchAll([2], []) == [] && SortByKey(Pair<nat, int>([], [])) == [] && Place([2], [], 0) == [2];
    assert Insert([2], [], []) == Ok([2]) && A[1 := [2]] == A;
    StepWithoutCommon(A, B, 1, ThreeState(1), add, false, [2]);
    assert [[]] + [SearchAll([2], [])] == [[], []] && [0, 1] + [1] == [0, 1, 1] && [0, 0] + [0] == [0, 0, 0];
  }

  /** The third space gains vertex 6 at position 1, and the offset the code
      records before it is 1. */
  lemma ThreeStepThird(add: (int, int) -> int)
    ensures Step(ThreeOld().vertices, ThreeNew().vertices, 2, ThreeState(2), add, false) == Ok(ThreeState(3))
  {
    var A, B := ThreeOld().vertices, ThreeNew().vertices;
    assert CommonPositions([5], [6]) == [] && Common(A[2], B[2]) == [];
    assert SearchAll([5], [6]) == [1] && Pair([1], [6]) == [(1, 6)] && SortByKey([(1, 6)]) == [(1, 6)];
    assert Place([5], [(1, 6)], 0) == [5, 6] by {
      assert Place([], [(1, 6)], 1) == [6];
    }
    assert Insert([5], [1], [6]) == Ok([5, 6]) && A[2 := [5, 6]] == ThreeOut().vertices;
    StepWithoutCommon(A, B, 2, ThreeState(2), add, false, [5, 6]);
    assert [[], []] + [SearchAll([5], [6])] == [[], [], [1]];
    assert [0, 1, 1] + [1] == [0, 1, 1, 1] && [0, 0, 0] + [1] == [0, 0, 0, 1];
  }

  /** The loop over the three spaces: nothing is common, the third space
      gains vertex 6, and the recorded offsets are 0, 1, 1. */
  lemma ThreeSpacesLoop(add: (int, int) -> int)
    ensures Loop(ThreeOld().vertices, ThreeNew().vertices, 0,
                 Progress(ThreeOld().vertices, ThreeOld().data, ThreeNew().data, [], [0], [0]), add, false)
      == Ok(ThreeState(3))
    ensures ThreeState(3).vertices == ThreeOut().vertices
  {
    var A, B := ThreeOld().vertices, ThreeNew().vertices;
    ThreeStepFirst(add);
    ThreeStepSecond(add);
    ThreeStepThird(add);
    assert Loop(A, B, 3, ThreeState(3), add, false) == Ok(ThreeState(3));
    assert Loop(A, B, 2, ThreeState(2), add, false) == Ok(ThreeState(3));
    assert Loop(A, B, 1, ThreeState(1), add, false) == Ok(ThreeState(3));
  }

  /** After the loop: the shifted position of vertex 6 is 2. */
  lemma ThreeSpacesPositions()
    ensures |ThreeState(3).inserters| >= 3 && |ThreeState(3).offsetsOld| >= 3
    ensures Concat(ShiftedInserters(ThreeState(3), 3)) == [2]
  {
    var lists := ShiftedInserters(ThreeState(3), 3);
    assert Shift([], 0) == [] && Shift([], 1) == [] && Shift([1], 1) == [2];
    assert lists == [[], [], [2]];
    var e0: seq<seq<nat>>, e1: seq<seq<nat>>, e2: seq<seq<nat>> := [], [[]], [[], []];
    assert lists[..2] == e2 && e2[..1] == e1 && e1[..0] == e0;
    assert Concat(e0) == [] && Concat(e1) == [] && Concat(e2) == [];
  }

  /** So stc2's row goes in before row 2, which is the row of vertex 5. */
  lemma ThreeSpacesRows()
    ensures Insert(ThreeState(3).data, [2], ThreeState(3).newData) == Ok(ThreeOut().data)
  {
    assert ThreeState(3).data == [10, 20, 50] && ThreeState(3).newData == [60];
    assert Pair([2], [60]) == [(2, 60)] && SortByKey([(2, 60)]) == [(2, 60)];
    assert Place([10, 20, 50], [(2, 60)], 0) == [10, 20, 60, 50] by {
      assert Place([50], [(2, 60)], 2) == [60, 50];
      assert Place([20, 50], [(2, 60)], 1) == [20, 60, 50];
    }
  }

  /** The three estimates are valid. */
  lemma ThreeValid()
    ensures Valid(ThreeOld()) && Valid(ThreeNew()) && Valid(ThreeOut())
    ensures TotalLength(ThreeOld().vertices[..2]) == 2 && TotalLength(ThreeOut().vertices[..2]) == 2
  {
    var stc1, stc2, out := ThreeOld(), ThreeNew(), ThreeOut();
    assert stc1.vertices[..2] == [[1], [2]] && [[1], [2]][..1] == [[1]] && [[1]][..0] == [];
    var e0: seq<seq<int>>, e1: seq<seq<int>>, e2: seq<seq<int>> := [], [[]], [[], []];
    assert stc2.vertices[..2] == e2 && e2[..1] == e1 && e1[..0] == e0;
    assert out.vertices[..2] == [[1], [2]];
    assert TotalLength(stc1.vertices) == 3 && TotalLength(stc2.vertices) == 1 && TotalLength(out.vertices) == 4;
  }

  /** The rows of the third space before and after. */
  lemma ThreeBlocks()
    ensures Valid(ThreeOld()) && Valid(ThreeOut())
    ensures Block(ThreeOut(), 2) == [60, 50] && Block(ThreeOld(), 2) == [50]
  {
    ThreeValid();
    var stc1, out := ThreeOld(), ThreeOut();
    assert Offset(out.vertices, 2) == 2;
    assert Offset(out.vertices, 3) == 4 by {
      assert out.vertices[..3] == out.vertices;
    }
    assert Offset(stc1.vertices, 2) == 2;
    assert Offset(stc1.vertices, 3) == 3 by {
      assert stc1.vertices[..3] == stc1.vertices;
    }
  }

  /** The returned rows of the third space are not the union rows: vertex 5
      gets stc2's row 60 instead of its own 50. */
  lemma ThreeSpacesNotUnion(add: (int, int) -> int)
    ensures Compatible(ThreeOld(), ThreeNew()) && !IsCombination(ThreeOld(), ThreeNew(), add, ThreeOut())
  {
    ThreeValid();
    ThreeBlocks();
    var stc1, stc2, out := ThreeOld(), ThreeNew(), ThreeOut();
    assert UnionRow([5], [50], [6], Block(stc2, 2), add, 5) == 50;
    assert Block(out, 2)[0] != UnionRow(stc1.vertices[2], Block(stc1, 2), stc2.vertices[2], Block(stc2, 2), add, out.vertices[2][0]);
  }

  /** CombineWith from the loop's final state and the final insertion. */
  lemma CombineFromLoop<R>(stc1: Estimate<R>, stc2: Estimate<R>, add: (R, R) -> R, cumulative: bool,
                           st: Progress<R>, inds: seq<nat>, data: seq<R>)
    requires |stc1.vertices| == |stc2.vertices| && |stc1.vertices| > 0
    requires Loop(stc1.vertices, stc2.vertices, 0, Progress(stc1.vertices, stc1.data, stc2.data, [], [0], [0]), add, cumulative) == Ok(st)
    requires |st.inserters| >= |stc1.vertices| && |st.offsetsOld| >= |stc1.vertices|
    requires Concat(ShiftedInserters(st, |stc1.vertices|)) == inds
    requires Insert(st.data, inds, st.newData) == Ok(data)
    ensures CombineWith(stc1, stc2, add, cumulative) == Ok(Estimate(st.vertices, data))
  {
  }

  /** The function as written returns ThreeOut for the three spaces. */
  lemma ThreeSpacesResult(add: (int, int) -> int)
    ensures CombineStcs(ThreeOld(), ThreeNew(), add) == Ok(ThreeOut())
  {
    ThreeSpacesLoop(add);
    ThreeSpacesPositions();
    ThreeSpacesRows();
    CombineFromLoop(ThreeOld(), ThreeNew(), add, false, ThreeState(3), [2], ThreeOut().data);
  }

  /** For two compatible estimates with three spaces the function as written
      returns an estimate that is not their combination, whatever the sum of
      rows is. */
  lemma AsWrittenThreeSpaces(add: (int, int) -> int)
    ensures Compatible(ThreeOld(), ThreeNew())
    ensures CombineStcs(ThreeOld(), ThreeNew(), add) == Ok(ThreeOut())
    ensures !IsCombination(ThreeOld(), ThreeNew(), add, ThreeOut())
  {
    ThreeSpacesResult(add);
    ThreeSpacesNotUnion(add);
  }
}
