/** `grow_patch` of utils.py: a breadth-first growth of a patch of vertices
    from a start vertex over the triangles of a mesh, accepting triangles
    while the accumulated area stays within the patch size. The triangle
    areas (`compute_triangle_areas`) are an input. */
module Patches {
  import Graphs

  /** A row of the `triangles` array: three vertex numbers. */
  datatype Triangle = Triangle(a: int, b: int, c: int)

  /** `np.any(triangles == v, axis=1)` for one row. */
  predicate Has(t: Triangle, v: int)
  {
    v == t.a || v == t.b || v == t.c
  }

  /** The state of the growth: the patch in the order its vertices were added
      (which is also the queue, since every added vertex is enqueued), the
      accumulated area, the accepted triangles in order, and for each the
      position in the patch of the dequeued vertex it was accepted for. */
  datatype Growth = Growth(vertices: seq<int>, area: real, accepted: seq<nat>, from: seq<nat>)

  /** `if vertex not in patch: patch.add(vertex); vertex_queue.put(vertex)`. */
  function Add(vs: seq<int>, v: int): (r: seq<int>)
    ensures vs <= r && v in r
    ensures forall q :: |vs| <= q < |r| ==> r[q] == v
    ensures Graphs.NoDuplicates(vs) ==> Graphs.NoDuplicates(r)
  {
    if v in vs then vs else vs + [v]
  }

  /** The loop over the three corners of an accepted triangle. */
  function AddCorners(vs: seq<int>, t: Triangle): (r: seq<int>)
    ensures vs <= r && t.a in r && t.b in r && t.c in r
    ensures forall q :: |vs| <= q < |r| ==> Has(t, r[q])
    ensures Graphs.NoDuplicates(vs) ==> Graphs.NoDuplicates(r)
  {
    var v1 := Add(vs, t.a);
    var v2 := Add(v1, t.b);
    var v3 := Add(v2, t.c);
    assert forall q :: |v1| <= q < |v3| ==> Has(t, v3[q]) by {
      forall q | |v1| <= q < |v3| ensures Has(t, v3[q]) {
        if q >= |v2| {
          assert v3[q] == t.c;
        } else {
          assert v3[q] == v2[q] == t.b;
        }
      }
    }
    forall q | |vs| <= q < |v3| ensures Has(t, v3[q]) {
      if q < |v1| {
        assert v3[q] == v1[q] == t.a;
      }
    }
    v3
  }

  /** Accepting triangle j for the dequeued vertex at position h. */
  function Accept(st: Growth, T: seq<Triangle>, A: seq<real>, j: nat, h: nat): Growth
    requires j < |T| && j < |A|
  {
    Growth(AddCorners(st.vertices, T[j]), st.area + A[j], st.accepted + [j], st.from + [h])
  }

  /** The total area of a list of triangles, counting a repeated one again. */
  function AreaOf(A: seq<real>, ks: seq<nat>): real
    requires forall i :: 0 <= i < |ks| ==> ks[i] < |A|
  {
    if ks == [] then 0.0 else AreaOf(A, ks[..|ks| - 1]) + A[ks[|ks| - 1]]
  }

  /** `np.where(connected_triangles)[0]` from index j on: the triangles that
      contain v, in increasing order. */
  function Connected(T: seq<Triangle>, v: int, j: nat): (r: seq<nat>)
    requires j <= |T|
    ensures forall i :: 0 <= i < |r| ==> j <= r[i] < |T| && Has(T[r[i]], v)
    decreases |T| - j
  {
    if j == |T| then [] else (if Has(T[j], v) then [j] else []) + Connected(T, v, j + 1)
  }

  /** The inner loop for the dequeued vertex cur, at position h of the patch,
      from triangle j on: a triangle containing cur is accepted when the area
      still fits, and the first one that does not fit ends the loop. */
  function Visit(T: seq<Triangle>, A: seq<real>, size: real, cur: int, h: nat, j: nat, st: Growth): Growth
    requires |A| == |T| && j <= |T|
    decreases |T| - j
  {
    if j == |T| then st
    else if !Has(T[j], cur) then Visit(T, A, size, cur, h, j + 1, st)
    else if st.area + A[j] <= size then Visit(T, A, size, cur, h, j + 1, Accept(st, T, A, j, h))
    else st
  }

  /** Visit only extends the state, and every triangle it accepts is recorded
      with position h. */
  lemma {:induction false} VisitGrows(T: seq<Triangle>, A: seq<real>, size: real, cur: int, h: nat, j: nat, st: Growth)
    requires |A| == |T| && j <= |T| && |st.accepted| == |st.from|
    ensures var r := Visit(T, A, size, cur, h, j, st);
      st.vertices <= r.vertices && st.accepted <= r.accepted && st.from <= r.from
      && |r.accepted| == |r.from|
      && forall i :: |st.from| <= i < |r.from| ==> r.from[i] == h
    decreases |T| - j
  {
    if j < |T| {
      if !Has(T[j], cur) {
        VisitGrows(T, A, size, cur, h, j + 1, st);
      } else if st.area + A[j] <= size {
        VisitGrows(T, A, size, cur, h, j + 1, Accept(st, T, A, j, h));
      }
    }
  }

  /** The break: the triangles Visit accepts are the first triangles that
      contain cur, in order, and when it stops before the last of them the
      next one would have taken the area past the patch size. */
  lemma {:induction false} VisitStops(T: seq<Triangle>, A: seq<real>, size: real, cur: int, h: nat, j: nat, st: Growth)
    requires |A| == |T| && j <= |T| && |st.accepted| == |st.from|
    ensures var r := Visit(T, A, size, cur, h, j, st);
      st.accepted <= r.accepted
      && var added := r.accepted[|st.accepted|..];
      var cands := Connected(T, cur, j);
      added <= cands && (|added| < |cands| ==> r.area + A[cands[|added|]] > size)
    decreases |T| - j
  {
    VisitGrows(T, A, size, cur, h, j, st);
    if j < |T| {
      if !Has(T[j], cur) {
        VisitStops(T, A, size, cur, h, j + 1, st);
      } else if st.area + A[j] <= size {
        var st' := Accept(st, T, A, j, h);
        var r := Visit(T, A, size, cur, h, j + 1, st');
        VisitStops(T, A, size, cur, h, j + 1, st');
        assert Connected(T, cur, j) == [j] + Connected(T, cur, j + 1);
        AfterAppended(st.accepted, st'.accepted, j, r.accepted);
        PrefixCons(j, r.accepted[|st'.accepted|..], Connected(T, cur, j + 1));
      }
    }
  }

  lemma AfterAppended(s: seq<nat>, t: seq<nat>, j: nat, r: seq<nat>)
    requires t == s + [j] && t <= r
    ensures s <= r && r[|s|..] == [j] + r[|t|..]
  {
    assert r[|s|..] == [r[|s|]] + r[|t|..];
  }

  lemma PrefixCons(j: nat, added: seq<nat>, cands: seq<nat>)
    requires added <= cands
    ensures [j] + added <= [j] + cands
    ensures |added| < |cands| ==> ([j] + cands)[|[j] + added|] == cands[|added|]
  {
  }

  /** Visit keeps the area equal to the accepted triangles' total, and once it
      accepts a triangle the area is within the patch size. */
  lemma {:induction false} VisitArea(T: seq<Triangle>, A: seq<real>, size: real, cur: int, h: nat, j: nat, st: Growth)
    requires |A| == |T| && j <= |T|
    requires forall i :: 0 <= i < |st.accepted| ==> st.accepted[i] < |T|
    requires st.area == AreaOf(A, st.accepted)
    ensures var r := Visit(T, A, size, cur, h, j, st);
      (forall i :: 0 <= i < |r.accepted| ==> r.accepted[i] < |T|)
      && r.area == AreaOf(A, r.accepted) && (r.accepted == st.accepted || r.area <= size)
    decreases |T| - j
  {
    if j < |T| {
      if !Has(T[j], cur) {
        VisitArea(T, A, size, cur, h, j + 1, st);
      } else if st.area + A[j] <= size {
        var st' := Accept(st, T, A, j, h);
        assert st'.accepted[..|st'.accepted| - 1] == st.accepted;
        VisitArea(T, A, size, cur, h, j + 1, st');
      }
    }
  }

  /** The shape of the patch: no repeated vertex, the start first, every
      accepted triangle contains the vertex it was accepted for, and every
      other vertex is a corner of a triangle accepted for an earlier one. */
  ghost predicate Shaped(T: seq<Triangle>, start: int, st: Growth)
  {
    && Graphs.NoDuplicates(st.vertices) && |st.vertices| > 0 && st.vertices[0] == start
    && |st.accepted| == |st.from|
    && (forall i :: 0 <= i < |st.accepted| ==>
          st.accepted[i] < |T| && st.from[i] < |st.vertices| && Has(T[st.accepted[i]], st.vertices[st.from[i]]))
    && (forall q :: 0 < q < |st.vertices| ==> Reached(T, st, q))
  }

  /** The vertex at position q is a corner of a triangle accepted for a vertex
      before it in the queue. */
  predicate Reached(T: seq<Triangle>, st: Growth, q: nat)
  {
    && q < |st.vertices|
    && exists i :: 0 <= i < |st.accepted| && i < |st.from| && st.from[i] < q
         && st.accepted[i] < |T| && Has(T[st.accepted[i]], st.vertices[q])
  }

  /** Accepting a triangle that contains the dequeued vertex keeps the shape. */
  lemma AcceptShaped(T: seq<Triangle>, A: seq<real>, start: int, st: Growth, j: nat, h: nat)
    requires |A| == |T| && j < |T| && Shaped(T, start, st) && h < |st.vertices| && Has(T[j], st.vertices[h])
    ensures Shaped(T, start, Accept(st, T, A, j, h))
  {
    var r := Accept(st, T, A, j, h);
    var n := |st.accepted|;
    assert r.accepted[n] == j && r.from[n] == h;
    forall i | 0 <= i < |r.accepted|
      ensures r.accepted[i] < |T| && r.from[i] < |r.vertices| && Has(T[r.accepted[i]], r.vertices[r.from[i]])
    {
      if i < n {
        assert r.accepted[i] == st.accepted[i] && r.from[i] == st.from[i];
      }
    }
    forall q | 0 < q < |r.vertices| ensures Reached(T, r, q) {
      if q < |st.vertices| {
        assert Reached(T, st, q);
        var i :| 0 <= i < n && st.from[i] < q && Has(T[st.accepted[i]], st.vertices[q]);
        assert r.accepted[i] == st.accepted[i] && r.from[i] == st.from[i];
      } else {
        assert Has(T[r.accepted[n]], r.vertices[q]);
      }
    }
  }

  /** Visit keeps the shape. */
  lemma {:induction false} VisitShaped(T: seq<Triangle>, A: seq<real>, size: real, start: int, cur: int, h: nat, j: nat, st: Growth)
    requires |A| == |T| && j <= |T| && Shaped(T, start, st) && h < |st.vertices| && st.vertices[h] == cur
    ensures Shaped(T, start, Visit(T, A, size, cur, h, j, st))
    decreases |T| - j
  {
    if j < |T| {
      if !Has(T[j], cur) {
        VisitShaped(T, A, size, start, cur, h, j + 1, st);
      } else if st.area + A[j] <= size {
        AcceptShaped(T, A, start, st, j, h);
        VisitShaped(T, A, size, start, cur, h, j + 1, Accept(st, T, A, j, h));
      }
    }
  }

  /** Every corner of every triangle. */
  function Corners(T: seq<Triangle>): set<int>
  {
    if T == [] then {} else Corners(T[..|T| - 1]) + {T[|T| - 1].a, T[|T| - 1].b, T[|T| - 1].c}
  }

  lemma {:induction false} CornerIn(T: seq<Triangle>, j: nat, v: int)
    requires j < |T| && Has(T[j], v)
    ensures v in Corners(T)
    decreases |T|
  {
    if j < |T| - 1 {
      CornerIn(T[..|T| - 1], j, v);
    }
  }

  /** A patch of that shape holds only the start and corners of triangles. */
  lemma ShapedWithin(T: seq<Triangle>, start: int, st: Growth)
    requires Shaped(T, start, st)
    ensures forall v :: v in st.vertices ==> v in {start} + Corners(T)
  {
    forall v | v in st.vertices ensures v in {start} + Corners(T) {
      var q :| 0 <= q < |st.vertices| && st.vertices[q] == v;
      if q > 0 {
        assert Reached(T, st, q);
        var i :| 0 <= i < |st.accepted| && st.from[i] < q && Has(T[st.accepted[i]], st.vertices[q]);
        CornerIn(T, st.accepted[i], v);
      }
    }
  }

  /** A list without repeats drawn from a finite set is no longer than the set. */
  lemma {:induction false} DistinctWithin(s: seq<int>, u: set<int>)
    requires Graphs.NoDuplicates(s) && forall v :: v in s ==> v in u
    ensures |s| <= |u|
  {
    if s != [] {
      var rest := s[1..];
      var x := s[0];
      assert x in s;
      assert x in u;
      assert |u - {x}| == |u| - 1 by {
        assert u == (u - {x}) + {x};
      }
      assert Graphs.NoDuplicates(rest) by {
        forall i, j | 0 <= i < j < |rest| ensures rest[i] != rest[j] {
          assert rest[i] == s[i + 1] && rest[j] == s[j + 1];
        }
      }
      assert forall v :: v in rest ==> v in u - {s[0]} by {
        forall v | v in rest ensures v in u - {s[0]} {
          var k :| 0 <= k < |rest| && rest[k] == v;
          assert s[k + 1] == v && s[0] != s[k + 1];
        }
      }
      DistinctWithin(rest, u - {s[0]});
    }
  }

  /** What holds each time the queue is tested: the patch has its shape,
      every accepted triangle belongs to a vertex already taken from the
      queue, and the area is the accepted triangles' total. */
  ghost predicate Growing(T: seq<Triangle>, A: seq<real>, size: real, start: int, r: Growth, dequeued: nat)
  {
    && |A| == |T| && Shaped(T, start, r) && dequeued <= |r.vertices|
    && (forall i :: 0 <= i < |r.from| ==> r.from[i] < dequeued)
    && r.area == AreaOf(A, r.accepted) && (r.accepted == [] || r.area <= size)
    && (dequeued == 0 ==> r == Growth([start], 0.0, [], []))
    && (size <= 0.0 ==> dequeued == 0)
  }

  /** One pass of the outer loop keeps Growing, and the queue position stays
      below the number of distinct vertices the mesh can offer. */
  lemma GrowingStep(T: seq<Triangle>, A: seq<real>, size: real, start: int, r: Growth, dequeued: nat)
    requires Growing(T, A, size, start, r, dequeued) && dequeued < |r.vertices| && r.area < size
    ensures dequeued < |{start} + Corners(T)|
    ensures Growing(T, A, size, start, Visit(T, A, size, r.vertices[dequeued], dequeued, 0, r), dequeued + 1)
  {
    ShapedWithin(T, start, r);
    DistinctWithin(r.vertices, {start} + Corners(T));
    var cur := r.vertices[dequeued];
    VisitGrows(T, A, size, cur, dequeued, 0, r);
    VisitArea(T, A, size, cur, dequeued, 0, r);
    VisitShaped(T, A, size, start, cur, dequeued, 0, r);
  }

  /** `grow_patch`, returning the growth state and how many vertices were
      taken from the queue; the vertices of the state are the patch. */
  method GrowPatch(T: seq<Triangle>, A: seq<real>, start: int, size: real) returns (r: Growth, dequeued: nat)
    requires |A| == |T|
    ensures |r.vertices| > 0 && r.vertices[0] == start && Graphs.NoDuplicates(r.vertices)
    ensures size <= 0.0 ==> r == Growth([start], 0.0, [], [])
    ensures dequeued <= |r.vertices| && (dequeued == |r.vertices| || r.area >= size)
    ensures |r.accepted| == |r.from|
    ensures forall i :: 0 <= i < |r.accepted| ==>
      r.accepted[i] < |T| && r.from[i] < dequeued && Has(T[r.accepted[i]], r.vertices[r.from[i]])
    ensures forall q :: 0 < q < |r.vertices| ==> Reached(T, r, q)
    ensures r.area == AreaOf(A, r.accepted) && (r.accepted == [] || r.area <= size)
  {
    r := Growth([start], 0.0, [], []);
    dequeued := 0;
    while dequeued < |r.vertices| && r.area < size
      invariant Growing(T, A, size, start, r, dequeued)
      decreases |{start} + Corners(T)| - dequeued
    {
      GrowingStep(T, A, size, start, r, dequeued);
      r := Visit(T, A, size, r.vertices[dequeued], dequeued, 0, r);
      dequeued := dequeued + 1;
    }
  }
}
