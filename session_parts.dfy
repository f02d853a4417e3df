/** The parts of the temporary state of a polygon being clicked out
    (`_tmp_data` in src/core/geom/data/poly_create.py) one at a time: for each part its
    invariant, the change each creation step makes to it, and the proof that the change
    keeps the invariant. PolySession assembles the parts into the whole state. */
module SessionParts {

  import opened Wrappers
  import opened Seqs
  import opened Vectors
  import opened Triangulation

  /** The two colours of the temporary edge lines: grey marks the edge from the pivot
      vertex to the mouse, yellow the other one. */
  datatype EdgeColor = Grey | Yellow

  datatype EdgeRow = EdgeRow(pos: Vec3, color: EdgeColor)

  function Opposite(c: EdgeColor): EdgeColor
  {
    if c == Grey then Yellow else Grey
  }

  // ---------------------------------------------------------------------------
  // The fan of triangles: `vert_indices`, `shared_verts`, `start_index`,
  // `start_index_prev`
  // ---------------------------------------------------------------------------

  /** `s` is one of the two committed indices of the current triangle `t`; when it is
      the last committed position, `p` holds the other one (needed by a switch). */
  ghost predicate PivotOK(s: nat, p: nat, t: seq<nat>)
    requires |t| == 3
  {
    (s == t[0] || s == t[1]) && (s + 1 == t[2] ==> p == Other(t, s))
  }

  /** Triangle `j + 1` of the fan follows from triangle `j` and the pivot recorded for
      it when position `j + 2` was committed. */
  ghost predicate LinkOK(vi: seq<seq<nat>>, sv: seq<(nat, nat)>, j: nat)
    requires j < |sv| && j + 1 < |vi| && IsTri(vi[j], j + 2)
  {
    && PivotOK(sv[j].0, sv[j].1, vi[j])
    && vi[j + 1] == NextTriangle(vi[j], sv[j].0, j + 2)
  }

  /** The placeholder index of the current triangle when `n` positions are committed. */
  function CurrentTop(n: nat): nat
  {
    if n <= 2 then 2 else n
  }

  /** With `n` committed positions the fan holds one triangle per committed position
      from the third one on, plus the current triangle ending in the placeholder; each
      triangle follows from the previous one and its recorded pivot. */
  ghost predicate FanOK(vi: seq<seq<nat>>, sv: seq<(nat, nat)>, s: nat, p: nat, n: nat)
  {
    && |vi| == (if n <= 2 then 1 else n - 1)
    && vi[0] == [0, 1, 2]
    && (forall j :: 0 <= j < |vi| ==> IsTri(vi[j], j + 2))
    && |sv| == |vi| - 1
    && (forall j :: 0 <= j < |sv| ==> LinkOK(vi, sv, j))
    && PivotOK(s, p, Last(vi))
  }

  lemma FanCurrent(vi: seq<seq<nat>>, sv: seq<(nat, nat)>, s: nat, p: nat, n: nat)
    requires FanOK(vi, sv, s, p, n)
    ensures IsTri(Last(vi), CurrentTop(n)) && (s == Last(vi)[0] || s == Last(vi)[1])
  {
  }

  /** The fan after committing position `k`: from the third position on, the triangle
      built on the pivot edge of the current one. */
  function GrownIndices(vi: seq<seq<nat>>, s: nat, k: nat): seq<seq<nat>>
    requires |vi| > 0 && IsTri(Last(vi), CurrentTop(k)) && (s == Last(vi)[0] || s == Last(vi)[1])
  {
    if k > 1 then
      NextTriangleShape(Last(vi), s, k);
      vi + [NextTriangle(Last(vi), s, k)]
    else vi
  }

  function GrownShared(sv: seq<(nat, nat)>, s: nat, p: nat, k: nat): seq<(nat, nat)>
  {
    if k > 1 then sv + [(s, p)] else sv
  }

  /** Committing a position keeps the fan well formed. */
  lemma FanGrows(vi: seq<seq<nat>>, sv: seq<(nat, nat)>, s: nat, p: nat, k: nat)
    requires FanOK(vi, sv, s, p, k)
    ensures FanOK(GrownIndices(vi, s, k), GrownShared(sv, s, p, k), s, p, k + 1)
  {
    if k > 1 {
      var prev := Last(vi);
      var next := NextTriangle(prev, s, k);
      NextTriangleShape(prev, s, k);
      var vi' := vi + [next];
      var sv' := sv + [(s, p)];
      assert GrownIndices(vi, s, k) == vi';
      forall j | 0 <= j < |vi'| ensures IsTri(vi'[j], j + 2) {
        if j < |vi| {
          assert vi'[j] == vi[j];
        }
      }
      forall j | 0 <= j < |sv'| ensures LinkOK(vi', sv', j) {
        if j < |sv| {
          assert LinkOK(vi, sv, j);
          assert sv'[j] == sv[j] && vi'[j] == vi[j] && vi'[j + 1] == vi[j + 1];
        } else {
          assert vi'[j] == prev && vi'[j + 1] == next;
        }
      }
      assert Last(vi') == next;
    }
  }

  function ShrunkIndices(vi: seq<seq<nat>>, last: nat): seq<seq<nat>>
    requires |vi| > 0
  {
    if last > 1 then DropLast(vi) else vi
  }

  /** The recorded pivot pair is restored when a position is withdrawn. */
  function Popped(sv: seq<(nat, nat)>, s: nat, p: nat): (seq<(nat, nat)>, nat, nat)
  {
    if |sv| > 0 then (DropLast(sv), Last(sv).0, Last(sv).1) else (sv, s, p)
  }

  /** Withdrawing the last committed position keeps the fan well formed. */
  lemma FanShrinks(vi: seq<seq<nat>>, sv: seq<(nat, nat)>, s: nat, p: nat, n: nat)
    requires FanOK(vi, sv, s, p, n) && n >= 2
    ensures var (sv', s', p') := Popped(sv, s, p);
      FanOK(ShrunkIndices(vi, n - 1), sv', s', p', n - 1)
  {
    if n > 2 {
      var vi' := DropLast(vi);
      var sv' := DropLast(sv);
      forall j | 0 <= j < |vi'| ensures IsTri(vi'[j], j + 2) {
        assert vi'[j] == vi[j];
      }
      forall j | 0 <= j < |sv'| ensures LinkOK(vi', sv', j) {
        assert LinkOK(vi, sv, j);
        assert sv'[j] == sv[j] && vi'[j] == vi[j] && vi'[j + 1] == vi[j + 1];
      }
      assert LinkOK(vi, sv, |sv| - 1);
      assert Last(vi') == vi[|sv| - 1];
    }
  }

  /** `switch_new_poly_start_vertex` on the pivot pair. */
  function SwitchedPivot(s: nat, p: nat, last: nat): (nat, nat)
  {
    if s == last then (p, s) else (last, s)
  }

  /** A switch makes the other committed index of the current triangle the pivot. */
  lemma FanSwitches(vi: seq<seq<nat>>, sv: seq<(nat, nat)>, s: nat, p: nat, n: nat)
    requires FanOK(vi, sv, s, p, n) && n >= 2
    ensures SwitchedPivot(s, p, n - 1).0 == Other(Last(vi), s)
    ensures FanOK(vi, sv, SwitchedPivot(s, p, n - 1).0, SwitchedPivot(s, p, n - 1).1, n)
  {
  }

  /** Withdrawing a position right after committing it restores the fan and the
      pivot pair. */
  lemma FanUndo(vi: seq<seq<nat>>, sv: seq<(nat, nat)>, s: nat, p: nat, k: nat)
    requires FanOK(vi, sv, s, p, k) && k >= 1
    ensures ShrunkIndices(GrownIndices(vi, s, k), k) == vi
    ensures Popped(GrownShared(sv, s, p, k), s, p) == (sv, s, p)
  {
    if k > 1 {
      var vi' := GrownIndices(vi, s, k);
      assert DropLast(vi') == vi;
      assert DropLast(sv + [(s, p)]) == sv;
    }
  }

  /** Two switches restore the pivot, and its partner too when the pivot was the last
      committed position. */
  lemma SwitchedPivotTwice(vi: seq<seq<nat>>, sv: seq<(nat, nat)>, s: nat, p: nat, n: nat)
    requires FanOK(vi, sv, s, p, n) && n >= 2
    ensures var q := SwitchedPivot(s, p, n - 1);
      SwitchedPivot(q.0, q.1, n - 1) == if s == n - 1 then (s, p) else (s, n - 1)
  {
    assert IsTri(Last(vi), CurrentTop(n));
  }

  // ---------------------------------------------------------------------------
  // The running normals: `normals`
  // ---------------------------------------------------------------------------

  /** The normals are the running sums over the committed triangles. */
  ghost predicate NormalsOK(normals: seq<Vec3>, vp: seq<Vec3>, vi: seq<seq<nat>>)
    requires |vi| > 0
  {
    IndicesBelow(DropLast(vi), |vp|) && normals == NormalsOf(vp, DropLast(vi))
  }

  /** The normal appended when position `k` is committed, summing the normal of the
      triangle `prev` that this commits. */
  function GrownNormals(normals: seq<Vec3>, vp: seq<Vec3>, prev: seq<nat>, k: nat): seq<Vec3>
    requires |normals| > 0
    requires k > 1 ==> |prev| == 3 && prev[0] < |vp| && prev[1] < |vp| && prev[2] < |vp|
  {
    if k > 1 then normals + [Add(TriNormal(vp, prev), Last(normals))] else normals
  }

  lemma NormalsGrow(normals: seq<Vec3>, vp: seq<Vec3>, vi: seq<seq<nat>>, sv: seq<(nat, nat)>,
                    s: nat, p: nat, pos: Vec3)
    requires FanOK(vi, sv, s, p, |vp|) && NormalsOK(normals, vp, vi)
    ensures |vp| > 1 ==> Last(vi)[0] < |vp| + 1 && Last(vi)[1] < |vp| + 1 && Last(vi)[2] < |vp| + 1
    ensures NormalsOK(GrownNormals(normals, vp + [pos], Last(vi), |vp|), vp + [pos],
                      GrownIndices(vi, s, |vp|))
  {
    var k := |vp|;
    var vp' := vp + [pos];
    assert IsTri(Last(vi), CurrentTop(k));
    if k > 1 {
      var vi' := GrownIndices(vi, s, k);
      assert DropLast(vi') == vi;
      assert IndicesBelow(vi, k + 1) by {
        forall j | 0 <= j < |vi| ensures |vi[j]| == 3 && vi[j][0] < k + 1 && vi[j][1] < k + 1 && vi[j][2] < k + 1 {
          assert IsTri(vi[j], j + 2);
        }
      }
      NormalsOfPrefix(vp, vp', DropLast(vi));
      assert vi[..|vi| - 1] == DropLast(vi);
    } else {
      assert DropLast(vi) == [];
    }
  }

  function ShrunkNormals(normals: seq<Vec3>, last: nat): seq<Vec3>
    requires |normals| > 0
  {
    if last > 1 then DropLast(normals) else normals
  }

  lemma NormalsShrink(normals: seq<Vec3>, vp: seq<Vec3>, vi: seq<seq<nat>>, sv: seq<(nat, nat)>,
                      s: nat, p: nat)
    requires FanOK(vi, sv, s, p, |vp|) && NormalsOK(normals, vp, vi) && |vp| >= 2
    ensures NormalsOK(ShrunkNormals(normals, |vp| - 1), DropLast(vp), ShrunkIndices(vi, |vp| - 1))
  {
    var n := |vp|;
    if n > 2 {
      var ts := DropLast(DropLast(vi));
      assert DropLast(ShrunkIndices(vi, n - 1)) == ts;
      assert DropLast(vi)[..|DropLast(vi)| - 1] == ts;
      assert IndicesBelow(ts, n - 1) by {
        forall j | 0 <= j < |ts| ensures |ts[j]| == 3 && ts[j][0] < n - 1 && ts[j][1] < n - 1 && ts[j][2] < n - 1 {
          assert ts[j] == vi[j] && IsTri(vi[j], j + 2);
        }
      }
      NormalsOfPrefix(DropLast(vp), vp, ts);
    } else {
      assert DropLast(vi) == [];
    }
  }

  // ---------------------------------------------------------------------------
  // Merged border vertices the polygon will share: `owned_verts`
  // ---------------------------------------------------------------------------

  ghost predicate OwnedOK(owned: map<nat, nat>, n: nat)
  {
    forall q :: q in owned ==> q < n
  }

  function GrownOwned(owned: map<nat, nat>, k: nat, owner: Option<nat>): map<nat, nat>
  {
    if owner.Some? then owned[k := owner.value] else owned
  }

  lemma OwnedUndo(owned: map<nat, nat>, k: nat, owner: Option<nat>)
    requires OwnedOK(owned, k)
    ensures GrownOwned(owned, k, owner) - {k} == owned
  {
    var m := GrownOwned(owned, k, owner) - {k};
    assert k !in owned;
    assert forall q :: q in m <==> q in owned;
    assert forall q :: q in m ==> m[q] == owned[q];
  }

  lemma OwnedShrinks(owned: map<nat, nat>, n: nat)
    requires OwnedOK(owned, n) && n >= 1
    ensures OwnedOK(owned - {n - 1}, n - 1)
  {
  }

  // ---------------------------------------------------------------------------
  // The temporary points: `vert_geom_rows` and the rows of the point geometry
  // ---------------------------------------------------------------------------

  /** The temporary point geometry shows exactly the positions created by a click on
      the grid, in order. */
  ghost predicate PointRowsOK(vgr: seq<nat>, pr: seq<Vec3>, vp: seq<Vec3>)
  {
    && StrictlyIncreasing(vgr)
    && (forall i :: 0 <= i < |vgr| ==> vgr[i] < |vp|)
    && |pr| == |vgr|
    && (forall i :: 0 <= i < |pr| ==> pr[i] == vp[vgr[i]])
  }

  lemma PointRowsGrow(vgr: seq<nat>, pr: seq<Vec3>, vp: seq<Vec3>, pos: Vec3, freestanding: bool)
    requires PointRowsOK(vgr, pr, vp)
    ensures PointRowsOK(if freestanding then vgr + [|vp|] else vgr,
                        if freestanding then pr + [pos] else pr, vp + [pos])
  {
    var vp' := vp + [pos];
    if freestanding {
      var g := vgr + [|vp|];
      var r := pr + [pos];
      forall i | 0 <= i < |r| ensures r[i] == vp'[g[i]] {
        if i < |pr| {
          assert r[i] == pr[i] && g[i] == vgr[i];
        }
      }
    } else {
      forall i | 0 <= i < |pr| ensures pr[i] == vp'[vgr[i]] {
        assert vp'[vgr[i]] == vp[vgr[i]];
      }
    }
  }

  function ShrunkGeomRows(vgr: seq<nat>, last: nat): seq<nat>
  {
    if last in vgr then RemoveFirst<nat>(vgr, last) else vgr
  }

  function ShrunkPointRows(pr: seq<Vec3>, vgr: seq<nat>, last: nat): seq<Vec3>
    requires |pr| == |vgr|
  {
    if last in vgr then DropLast(pr) else pr
  }

  /** A grid point for the last committed position is the last temporary point. */
  lemma LastGeomRow(vgr: seq<nat>, pr: seq<Vec3>, vp: seq<Vec3>)
    requires PointRowsOK(vgr, pr, vp) && |vp| >= 1 && |vp| - 1 in vgr
    ensures Last(vgr) == |vp| - 1
  {
  }

  lemma PointRowsShrink(vgr: seq<nat>, pr: seq<Vec3>, vp: seq<Vec3>)
    requires PointRowsOK(vgr, pr, vp) && |vp| >= 1
    ensures PointRowsOK(ShrunkGeomRows(vgr, |vp| - 1), ShrunkPointRows(pr, vgr, |vp| - 1), DropLast(vp))
  {
    var last := |vp| - 1;
    if last in vgr {
      LastGeomRow(vgr, pr, vp);
      RemoveFirstOfGreatest(vgr, last);
      forall i | 0 <= i < |vgr| - 1 ensures vgr[i] < last {
        assert vgr[i] < vgr[|vgr| - 1];
      }
    } else {
      forall i | 0 <= i < |vgr| ensures vgr[i] < last {
        assert vgr[i] in vgr;
      }
    }
  }

  lemma PointRowsUndo(vgr: seq<nat>, pr: seq<Vec3>, vp: seq<Vec3>, pos: Vec3, freestanding: bool)
    requires PointRowsOK(vgr, pr, vp)
    ensures var vgr' := if freestanding then vgr + [|vp|] else vgr;
      var pr' := if freestanding then pr + [pos] else pr;
      |pr'| == |vgr'| && ShrunkGeomRows(vgr', |vp|) == vgr && ShrunkPointRows(pr', vgr', |vp|) == pr
  {
    var k := |vp|;
    assert k !in vgr;
    if freestanding {
      PointRowsGrow(vgr, pr, vp, pos, freestanding);
      RemoveFirstOfGreatest(vgr + [k], k);
      assert DropLast(vgr + [k]) == vgr;
      assert DropLast(pr + [pos]) == pr;
    }
  }

  // ---------------------------------------------------------------------------
  // The rows of the temporary triangle geometry
  // ---------------------------------------------------------------------------

  /** One row per committed position and one for the placeholder. */
  ghost predicate PolyRowsOK(rows: seq<Vec3>, vp: seq<Vec3>)
  {
    |rows| == |vp| + 1 && rows[..|vp|] == vp
  }

  /** `set_row(k)`, `set_data3f(pos)`, `add_data3f(pos)`. */
  function GrownPolyRows(rows: seq<Vec3>, k: nat, pos: Vec3): seq<Vec3>
    requires k < |rows|
  {
    rows[k := pos] + [pos]
  }

  lemma PolyRowsGrow(rows: seq<Vec3>, vp: seq<Vec3>, pos: Vec3)
    requires PolyRowsOK(rows, vp)
    ensures PolyRowsOK(GrownPolyRows(rows, |vp|, pos), vp + [pos])
  {
    assert GrownPolyRows(rows, |vp|, pos)[..|vp| + 1] == vp + [pos];
  }

  lemma PolyRowsUndo(rows: seq<Vec3>, vp: seq<Vec3>, pos: Vec3)
    requires PolyRowsOK(rows, vp)
    ensures GrownPolyRows(rows, |vp|, pos)[..|vp| + 1] == vp + [pos]
  {
    assert GrownPolyRows(rows, |vp|, pos)[..|vp| + 1] == vp + [pos];
  }

  lemma PolyRowsShrink(rows: seq<Vec3>, vp: seq<Vec3>)
    requires PolyRowsOK(rows, vp) && |vp| >= 1
    ensures PolyRowsOK(rows[..|vp|], DropLast(vp))
  {
    assert rows[..|vp|][..|vp| - 1] == rows[..|vp| - 1];
  }

  /** `update_new_polygon` moves the placeholder row once a position is committed
      after the first. */
  function UpdatedPolyRows(rows: seq<Vec3>, last: nat, pos: Vec3): seq<Vec3>
    requires last + 1 < |rows|
  {
    if last > 0 then rows[last + 1 := pos] else rows
  }

  lemma PolyRowsUpdate(rows: seq<Vec3>, vp: seq<Vec3>, pos: Vec3)
    requires PolyRowsOK(rows, vp) && |vp| >= 1
    ensures PolyRowsOK(UpdatedPolyRows(rows, |vp| - 1, pos), vp)
  {
    assert UpdatedPolyRows(rows, |vp| - 1, pos)[..|vp|] == rows[..|vp|];
  }

  // ---------------------------------------------------------------------------
  // The triangle primitive of the temporary geometry
  // ---------------------------------------------------------------------------

  function Oriented(ts: seq<seq<nat>>, flip: bool): (r: seq<seq<nat>>)
    requires forall j :: 0 <= j < |ts| ==> |ts[j]| == 3
    ensures |r| == |ts| && forall j :: 0 <= j < |r| ==> |r[j]| == 3
  {
    if flip then ReverseAll(ts) else ts
  }

  /** The primitive lists every triangle of the fan, the current one included, in
      reversed winding while the normal is flipped. */
  ghost predicate TriPrimOK(prim: seq<nat>, vi: seq<seq<nat>>, flip: bool, n: nat)
  {
    && (forall j :: 0 <= j < |vi| ==> |vi[j]| == 3)
    && prim == if n <= 1 then [] else Flatten(Oriented(vi, flip))
  }

  /** Adding triangle `tri` while the winding may be reversed: reverse, append,
      reverse back. */
  function WithTriangle(prim: seq<nat>, tri: seq<nat>, flip: bool): seq<nat>
  {
    if flip then ReverseTriples(ReverseTriples(prim) + tri) else prim + tri
  }

  /** Dropping the last triangle the same way. */
  function WithoutTriangle(prim: seq<nat>, flip: bool): seq<nat>
    requires |prim| >= 3
  {
    if flip then ReverseTriples(ReverseTriples(prim)[..|prim| - 3]) else prim[..|prim| - 3]
  }

  /** At the second position `add_next_vertices(3)` adds rows 0, 1, 2; later ones add
      the new triangle `tri`. */
  function GrownTriPrim(prim: seq<nat>, tri: seq<nat>, flip: bool, k: nat): seq<nat>
  {
    if k == 1 then WithTriangle(prim, [0, 1, 2], flip)
    else if k > 1 then WithTriangle(prim, tri, flip)
    else prim
  }

  function ShrunkTriPrim(prim: seq<nat>, flip: bool, last: nat): seq<nat>
    requires last > 1 ==> |prim| >= 3
  {
    if last > 1 then WithoutTriangle(prim, flip) else []
  }

  lemma {:induction false} FlattenOfTriangles(ts: seq<seq<nat>>)
    requires forall j :: 0 <= j < |ts| ==> |ts[j]| == 3
    ensures |Flatten(ts)| == 3 * |ts|
  {
    if |ts| > 0 {
      FlattenOfTriangles(ts[..|ts| - 1]);
    }
  }

  /** `reverse_in_place` on a flattened list of triangles reverses each triangle. */
  lemma {:induction false} ReverseTriplesFlatten(ts: seq<seq<nat>>)
    requires forall j :: 0 <= j < |ts| ==> |ts[j]| == 3
    ensures ReverseTriples(Flatten(ts)) == Flatten(ReverseAll(ts))
  {
    if |ts| > 0 {
      var init := ts[..|ts| - 1];
      var t := ts[|ts| - 1];
      FlattenOfTriangles(init);
      ReverseTriplesAppend(Flatten(init), t);
      ReverseTriplesFlatten(init);
      assert ReverseTriples(t) == Reverse3(t) by {
        assert t[..3] == t && t[3..] == [];
      }
      assert ReverseAll(ts) == ReverseAll(init) + [Reverse3(t)];
      FlattenSnoc(ReverseAll(init), Reverse3(t));
    }
  }

  lemma ReverseAllTwice(ts: seq<seq<nat>>)
    requires forall j :: 0 <= j < |ts| ==> |ts[j]| == 3
    ensures ReverseAll(ReverseAll(ts)) == ts
  {
    assert forall j :: 0 <= j < |ts| ==> ReverseAll(ReverseAll(ts))[j] == ts[j];
  }

  lemma FlattenSnocTriangle(ts: seq<seq<nat>>, tri: seq<nat>)
    requires forall j :: 0 <= j < |ts| ==> |ts[j]| == 3
    requires |tri| == 3
    ensures Flatten(ts + [tri]) == Flatten(ts) + tri
    ensures ReverseAll(ts + [tri]) == ReverseAll(ts) + [Reverse3(tri)]
    ensures ReverseTriples(tri) == Reverse3(tri)
    ensures |Flatten(ts)| == 3 * |ts|
  {
    FlattenSnoc(ts, tri);
    FlattenOfTriangles(ts);
    assert ReverseAll(ts + [tri]) == ReverseAll(ts) + [Reverse3(tri)];
    assert tri[..3] == tri && tri[3..] == [];
  }

  lemma WithTriangleFlipped(ts: seq<seq<nat>>, tri: seq<nat>)
    requires forall j :: 0 <= j < |ts| ==> |ts[j]| == 3
    requires |tri| == 3
    ensures WithTriangle(Flatten(ReverseAll(ts)), tri, true) == Flatten(ReverseAll(ts + [tri]))
  {
    FlattenSnocTriangle(ts, tri);
    FlattenSnocTriangle(ReverseAll(ts), Reverse3(tri));
    ReverseTriplesFlatten(ReverseAll(ts));
    ReverseAllTwice(ts);
    ReverseTriplesAppend(Flatten(ts), tri);
    ReverseTriplesFlatten(ts);
  }

  lemma WithoutTriangleFlipped(ts: seq<seq<nat>>, tri: seq<nat>)
    requires forall j :: 0 <= j < |ts| ==> |ts[j]| == 3
    requires |tri| == 3
    ensures |Flatten(ReverseAll(ts + [tri]))| >= 3
    ensures WithoutTriangle(Flatten(ReverseAll(ts + [tri])), true) == Flatten(ReverseAll(ts))
  {
    var ts' := ts + [tri];
    FlattenSnocTriangle(ts, tri);
    FlattenSnocTriangle(ReverseAll(ts), Reverse3(tri));
    ReverseTriplesFlatten(ReverseAll(ts'));
    ReverseAllTwice(ts');
    assert Flatten(ts')[..|Flatten(ts')| - 3] == Flatten(ts);
    ReverseTriplesFlatten(ts);
  }

  /** Adding a triangle to the shown primitive extends the oriented fan by it, and
      dropping it again restores the primitive. */
  lemma WithTriangleFlatten(ts: seq<seq<nat>>, tri: seq<nat>, flip: bool)
    requires forall j :: 0 <= j < |ts| ==> |ts[j]| == 3
    requires |tri| == 3
    ensures WithTriangle(Flatten(Oriented(ts, flip)), tri, flip) == Flatten(Oriented(ts + [tri], flip))
    ensures |Flatten(Oriented(ts + [tri], flip))| >= 3
    ensures WithoutTriangle(Flatten(Oriented(ts + [tri], flip)), flip) == Flatten(Oriented(ts, flip))
  {
    if flip {
      WithTriangleFlipped(ts, tri);
      WithoutTriangleFlipped(ts, tri);
    } else {
      FlattenSnocTriangle(ts, tri);
      assert Flatten(ts + [tri])[..|Flatten(ts + [tri])| - 3] == Flatten(ts);
    }
  }

  lemma TriPrimAppend(prim: seq<nat>, vi: seq<seq<nat>>, tri: seq<nat>, flip: bool, k: nat)
    requires TriPrimOK(prim, vi, flip, k) && k >= 2 && |tri| == 3
    ensures TriPrimOK(WithTriangle(prim, tri, flip), vi + [tri], flip, k + 1)
  {
    WithTriangleFlatten(vi, tri, flip);
    assert forall j :: 0 <= j < |vi + [tri]| ==> |(vi + [tri])[j]| == 3;
  }

  /** At the second position the primitive takes the first triangle. */
  lemma TriPrimStarts(prim: seq<nat>, flip: bool)
    requires TriPrimOK(prim, [[0, 1, 2]], flip, 1)
    ensures TriPrimOK(WithTriangle(prim, [0, 1, 2], flip), [[0, 1, 2]], flip, 2)
  {
    WithTriangleFlatten([], [0, 1, 2], flip);
    assert Flatten(Oriented([], flip)) == [];
    assert [] + [[0, 1, 2]] == [[0, 1, 2]];
  }

  lemma TriPrimGrows(prim: seq<nat>, vi: seq<seq<nat>>, sv: seq<(nat, nat)>, s: nat, p: nat,
                     flip: bool, k: nat)
    requires FanOK(vi, sv, s, p, k) && TriPrimOK(prim, vi, flip, k)
    ensures TriPrimOK(GrownTriPrim(prim, Last(GrownIndices(vi, s, k)), flip, k),
                      GrownIndices(vi, s, k), flip, k + 1)
  {
    if k == 1 {
      assert vi == [[0, 1, 2]];
      TriPrimStarts(prim, flip);
    } else if k > 1 {
      TriPrimGrowsLater(prim, vi, sv, s, p, flip, k);
    }
  }

  lemma TriPrimGrowsLater(prim: seq<nat>, vi: seq<seq<nat>>, sv: seq<(nat, nat)>, s: nat, p: nat,
                          flip: bool, k: nat)
    requires FanOK(vi, sv, s, p, k) && TriPrimOK(prim, vi, flip, k) && k > 1
    ensures TriPrimOK(GrownTriPrim(prim, Last(GrownIndices(vi, s, k)), flip, k),
                      GrownIndices(vi, s, k), flip, k + 1)
  {
    NextTriangleShape(Last(vi), s, k);
    var next := NextTriangle(Last(vi), s, k);
    assert GrownIndices(vi, s, k) == vi + [next];
    TriPrimAppend(prim, vi, next, flip, k);
  }

  lemma TriPrimShrinks(prim: seq<nat>, vi: seq<seq<nat>>, sv: seq<(nat, nat)>, s: nat, p: nat,
                       flip: bool, n: nat)
    requires FanOK(vi, sv, s, p, n) && TriPrimOK(prim, vi, flip, n) && n >= 2
    ensures n - 1 > 1 ==> |prim| >= 3
    ensures TriPrimOK(ShrunkTriPrim(prim, flip, n - 1), ShrunkIndices(vi, n - 1), flip, n - 1)
  {
    if n > 2 {
      TriPrimShrinksLater(prim, vi, sv, s, p, flip, n);
    } else {
      assert ShrunkIndices(vi, n - 1) == vi;
      assert ShrunkTriPrim(prim, flip, n - 1) == [];
    }
  }

  lemma TriPrimShrinksLater(prim: seq<nat>, vi: seq<seq<nat>>, sv: seq<(nat, nat)>, s: nat, p: nat,
                            flip: bool, n: nat)
    requires FanOK(vi, sv, s, p, n) && TriPrimOK(prim, vi, flip, n) && n > 2
    ensures |prim| >= 3
    ensures TriPrimOK(ShrunkTriPrim(prim, flip, n - 1), ShrunkIndices(vi, n - 1), flip, n - 1)
  {
    var init := DropLast(vi);
    assert vi == init + [Last(vi)];
    assert forall j :: 0 <= j < |init| ==> |init[j]| == 3 by {
      forall j | 0 <= j < |init| ensures |init[j]| == 3 { assert init[j] == vi[j]; }
    }
    assert |Last(vi)| == 3;
    WithTriangleFlatten(init, Last(vi), flip);
    assert ShrunkIndices(vi, n - 1) == init;
    assert ShrunkTriPrim(prim, flip, n - 1) == WithoutTriangle(prim, flip);
  }

  /** Withdrawing a position right after committing it restores the primitive. */
  lemma TriPrimUndo(prim: seq<nat>, vi: seq<seq<nat>>, sv: seq<(nat, nat)>, s: nat, p: nat,
                    flip: bool, k: nat)
    requires FanOK(vi, sv, s, p, k) && TriPrimOK(prim, vi, flip, k) && k >= 1
    ensures var prim' := GrownTriPrim(prim, Last(GrownIndices(vi, s, k)), flip, k);
      (k > 1 ==> |prim'| >= 3) && ShrunkTriPrim(prim', flip, k) == prim
  {
    if k > 1 {
      NextTriangleShape(Last(vi), s, k);
      var next := NextTriangle(Last(vi), s, k);
      assert GrownIndices(vi, s, k) == vi + [next];
      WithTriangleFlatten(vi, next, flip);
    }
  }

  /** `flip_new_poly_normal` reverses the shown winding. */
  lemma TriPrimFlips(prim: seq<nat>, vi: seq<seq<nat>>, flip: bool, n: nat)
    requires TriPrimOK(prim, vi, flip, n) && n >= 2
    ensures TriPrimOK(ReverseTriples(prim), vi, !flip, n)
  {
    if flip {
      ReverseTriplesFlatten(ReverseAll(vi));
      ReverseAllTwice(vi);
    } else {
      ReverseTriplesFlatten(vi);
    }
  }

  // ---------------------------------------------------------------------------
  // The temporary edge lines: rows of the line geometry
  // ---------------------------------------------------------------------------

  /** The pivot in force while the line rows of position `m` were current. */
  function PivotAt(sv: seq<(nat, nat)>, s: nat, n: nat, m: nat): nat
    requires 1 <= m < n && |sv| + 2 >= n
  {
    if m == n - 1 then s else sv[m - 1].0
  }

  /** The four line rows appended for committed position `m`: the grey pair starts at
      the pivot `s` of the triangle `tri`, the yellow pair at its other committed index. */
  ghost predicate BlockOK(rows: seq<EdgeRow>, vp: seq<Vec3>, tri: seq<nat>, s: nat, m: nat)
    requires |tri| == 3 && 1 <= m && 4 * m + 2 <= |rows|
  {
    var o := Other(tri, s);
    var b := 4 * m - 2;
    && s < |vp| && o < |vp|
    && ((rows[b].color == Grey && rows[b + 1].color == Grey
         && rows[b + 2].color == Yellow && rows[b + 3].color == Yellow
         && rows[b].pos == vp[s] && rows[b + 2].pos == vp[o])
        || (rows[b].color == Yellow && rows[b + 1].color == Yellow
            && rows[b + 2].color == Grey && rows[b + 3].color == Grey
            && rows[b + 2].pos == vp[s] && rows[b].pos == vp[o]))
  }

  /** Two yellow rows for the first position, then four rows per further position. */
  ghost predicate EdgeRowsOK(rows: seq<EdgeRow>, vp: seq<Vec3>, vi: seq<seq<nat>>, sv: seq<(nat, nat)>, s: nat, p: nat)
    requires FanOK(vi, sv, s, p, |vp|)
  {
    var n := |vp|;
    && |rows| == (if n == 0 then 0 else 4 * n - 2)
    && (n >= 1 ==> rows[0] == EdgeRow(vp[0], Yellow) && rows[1].color == Yellow)
    && (forall m :: 1 <= m < n ==> BlockOK(rows, vp, vi[m - 1], PivotAt(sv, s, n, m), m))
  }

  /** The rows appended when position `k` is committed at `pos` (`vp` already holds it). */
  function GrownEdgeRows(rows: seq<EdgeRow>, vp: seq<Vec3>, s: nat, k: nat, pos: Vec3): seq<EdgeRow>
    requires k < |vp| && (k > 0 ==> s < |vp|)
  {
    if k == 0 then rows + [EdgeRow(pos, Yellow), EdgeRow(pos, Yellow)]
    else rows + [EdgeRow(vp[s], Grey), EdgeRow(pos, Grey),
                 EdgeRow(vp[SecondShared(s, k)], Yellow), EdgeRow(pos, Yellow)]
  }

  /** A block stays valid when its four rows and the two positions it shows are kept. */
  lemma BlockKept(rows: seq<EdgeRow>, rows': seq<EdgeRow>, vp: seq<Vec3>, vp': seq<Vec3>,
                  tri: seq<nat>, s: nat, m: nat)
    requires |tri| == 3 && 1 <= m && 4 * m + 2 <= |rows| && 4 * m + 2 <= |rows'|
    requires BlockOK(rows, vp, tri, s, m)
    requires rows'[4 * m - 2] == rows[4 * m - 2] && rows'[4 * m - 1] == rows[4 * m - 1]
    requires rows'[4 * m] == rows[4 * m] && rows'[4 * m + 1] == rows[4 * m + 1]
    requires s < |vp'| && Other(tri, s) < |vp'|
    requires vp'[s] == vp[s] && vp'[Other(tri, s)] == vp[Other(tri, s)]
    ensures BlockOK(rows', vp', tri, s, m)
  {
  }

  /** The block appended by an add is valid. */
  lemma BlockOfAdd(rows: seq<EdgeRow>, vp: seq<Vec3>, vi: seq<seq<nat>>, sv: seq<(nat, nat)>,
                   s: nat, p: nat, pos: Vec3)
    requires FanOK(vi, sv, s, p, |vp|) && |vp| >= 1 && |rows| == 4 * |vp| - 2
    ensures FanOK(GrownIndices(vi, s, |vp|), GrownShared(sv, s, p, |vp|), s, p, |vp| + 1)
    ensures s < |vp| + 1
    ensures BlockOK(GrownEdgeRows(rows, vp + [pos], s, |vp|, pos), vp + [pos],
                    GrownIndices(vi, s, |vp|)[|vp| - 1], s, |vp|)
  {
    var k := |vp|;
    FanGrows(vi, sv, s, p, k);
    assert IsTri(Last(vi), CurrentTop(k));
    if k > 1 {
      NextTriangleShape(Last(vi), s, k);
    }
    assert Other(GrownIndices(vi, s, k)[k - 1], s) == SecondShared(s, k);
  }

  lemma EdgeRowsGrow(rows: seq<EdgeRow>, vp: seq<Vec3>, vi: seq<seq<nat>>, sv: seq<(nat, nat)>,
                     s: nat, p: nat, pos: Vec3)
    requires FanOK(vi, sv, s, p, |vp|) && EdgeRowsOK(rows, vp, vi, sv, s, p)
    ensures |vp| > 0 ==> s < |vp| + 1
    ensures FanOK(GrownIndices(vi, s, |vp|), GrownShared(sv, s, p, |vp|), s, p, |vp| + 1)
    ensures EdgeRowsOK(GrownEdgeRows(rows, vp + [pos], s, |vp|, pos), vp + [pos],
                       GrownIndices(vi, s, |vp|), GrownShared(sv, s, p, |vp|), s, p)
  {
    var k := |vp|;
    FanGrows(vi, sv, s, p, k);
    assert IsTri(Last(vi), CurrentTop(k));
    var vp' := vp + [pos];
    var vi' := GrownIndices(vi, s, k);
    var sv' := GrownShared(sv, s, p, k);
    var rows' := GrownEdgeRows(rows, vp', s, k, pos);
    var n' := k + 1;
    if k >= 1 {
      BlockOfAdd(rows, vp, vi, sv, s, p, pos);
      BlocksKeptOnAdd(rows, vp, vi, sv, s, p, pos, n');
      forall m | 1 <= m < n' ensures BlockOK(rows', vp', vi'[m - 1], PivotAt(sv', s, n', m), m) {
        if m == k {
          assert PivotAt(sv', s, n', m) == s;
        }
      }
      assert rows'[0] == rows[0] && rows'[1] == rows[1] && vp'[0] == vp[0];
    }
  }

  /** The blocks of the positions committed before the new one are kept. */
  lemma BlocksKeptOnAdd(rows: seq<EdgeRow>, vp: seq<Vec3>, vi: seq<seq<nat>>, sv: seq<(nat, nat)>,
                        s: nat, p: nat, pos: Vec3, n': nat)
    requires FanOK(vi, sv, s, p, |vp|) && EdgeRowsOK(rows, vp, vi, sv, s, p) && |vp| >= 1 && n' == |vp| + 1
    ensures FanOK(GrownIndices(vi, s, |vp|), GrownShared(sv, s, p, |vp|), s, p, n') && s < n'
    ensures forall m :: 1 <= m < |vp| ==>
      BlockOK(GrownEdgeRows(rows, vp + [pos], s, |vp|, pos), vp + [pos], GrownIndices(vi, s, |vp|)[m - 1],
              PivotAt(GrownShared(sv, s, p, |vp|), s, n', m), m)
  {
    var k := |vp|;
    BlockOfAdd(rows, vp, vi, sv, s, p, pos);
    var vp' := vp + [pos];
    var vi' := GrownIndices(vi, s, k);
    var sv' := GrownShared(sv, s, p, k);
    var rows' := GrownEdgeRows(rows, vp', s, k, pos);
    forall m | 1 <= m < k ensures BlockOK(rows', vp', vi'[m - 1], PivotAt(sv', s, n', m), m) {
      var tri := vi[m - 1];
      var ps := PivotAt(sv, s, k, m);
      assert vi'[m - 1] == tri;
      assert PivotAt(sv', s, n', m) == ps;
      assert BlockOK(rows, vp, tri, ps, m);
      BlockKept(rows, rows', vp, vp', tri, ps, m);
    }
  }

  lemma EdgeRowsShrink(rows: seq<EdgeRow>, vp: seq<Vec3>, vi: seq<seq<nat>>, sv: seq<(nat, nat)>,
                       s: nat, p: nat)
    requires FanOK(vi, sv, s, p, |vp|) && EdgeRowsOK(rows, vp, vi, sv, s, p) && |vp| >= 2
    ensures var (sv', s', p') := Popped(sv, s, p);
      && FanOK(ShrunkIndices(vi, |vp| - 1), sv', s', p', |vp| - 1)
      && EdgeRowsOK(rows[..|rows| - 4], DropLast(vp), ShrunkIndices(vi, |vp| - 1), sv', s', p')
  {
    var n := |vp|;
    FanShrinks(vi, sv, s, p, n);
    var (sv', s', p') := Popped(sv, s, p);
    var vi' := ShrunkIndices(vi, n - 1);
    var vp' := DropLast(vp);
    var rows' := rows[..|rows| - 4];
    var n' := n - 1;
    forall m | 1 <= m < n' ensures BlockOK(rows', vp', vi'[m - 1], PivotAt(sv', s', n', m), m) {
      assert vi'[m - 1] == vi[m - 1];
      assert PivotAt(sv', s', n', m) == PivotAt(sv, s, n, m);
      OldBlockOfRemove(rows, vp, vi, sv, s, p, m);
    }
  }

  lemma OldBlockOfRemove(rows: seq<EdgeRow>, vp: seq<Vec3>, vi: seq<seq<nat>>, sv: seq<(nat, nat)>,
                         s: nat, p: nat, m: nat)
    requires FanOK(vi, sv, s, p, |vp|) && EdgeRowsOK(rows, vp, vi, sv, s, p) && 1 <= m < |vp| - 1
    ensures BlockOK(rows[..|rows| - 4], DropLast(vp), vi[m - 1], PivotAt(sv, s, |vp|, m), m)
  {
    var tri := vi[m - 1];
    var ps := PivotAt(sv, s, |vp|, m);
    assert IsTri(tri, m + 1) && LinkOK(vi, sv, m - 1);
    assert BlockOK(rows, vp, tri, ps, m);
    BlockKept(rows, rows[..|rows| - 4], vp, DropLast(vp), tri, ps, m);
  }

  /** The last four rows recoloured, the first pair with `first`, the second pair with
      the other colour. */
  function Recoloured(rows: seq<EdgeRow>, first: EdgeColor): seq<EdgeRow>
    requires |rows| >= 4
  {
    var c := |rows|;
    rows[..c - 4]
      + [rows[c - 4].(color := first), rows[c - 3].(color := first),
         rows[c - 2].(color := Opposite(first)), rows[c - 1].(color := Opposite(first))]
  }

  /** Yellow first becomes grey-grey-yellow-yellow, anything else the reverse. */
  function SwitchedEdgeRows(rows: seq<EdgeRow>): seq<EdgeRow>
    requires |rows| >= 4
  {
    Recoloured(rows, if rows[|rows| - 4].color == Yellow then Grey else Yellow)
  }

  lemma EdgeRowsSwitch(rows: seq<EdgeRow>, vp: seq<Vec3>, vi: seq<seq<nat>>, sv: seq<(nat, nat)>,
                       s: nat, p: nat)
    requires FanOK(vi, sv, s, p, |vp|) && EdgeRowsOK(rows, vp, vi, sv, s, p) && |vp| >= 2
    ensures var (s', p') := SwitchedPivot(s, p, |vp| - 1);
      && FanOK(vi, sv, s', p', |vp|)
      && EdgeRowsOK(SwitchedEdgeRows(rows), vp, vi, sv, s', p')
  {
    var n := |vp|;
    FanSwitches(vi, sv, s, p, n);
    var (s', p') := SwitchedPivot(s, p, n - 1);
    var rows' := SwitchedEdgeRows(rows);
    forall m | 1 <= m < n ensures BlockOK(rows', vp, vi[m - 1], PivotAt(sv, s', n, m), m) {
      var b := 4 * m - 2;
      if m < n - 1 {
        assert rows'[b] == rows[b] && rows'[b + 1] == rows[b + 1];
        assert rows'[b + 2] == rows[b + 2] && rows'[b + 3] == rows[b + 3];
        assert BlockOK(rows, vp, vi[m - 1], PivotAt(sv, s, n, m), m);
      } else {
        var tri := vi[m - 1];
        assert tri == Last(vi);
        assert BlockOK(rows, vp, tri, s, m);
        assert Other(tri, s') == s;
      }
    }
  }

  /** The last four rows form one grey pair and one yellow pair. */
  ghost predicate TwoPairs(rows: seq<EdgeRow>)
    requires |rows| >= 4
  {
    var c := |rows|;
    && rows[c - 4].color == rows[c - 3].color
    && rows[c - 2].color == rows[c - 1].color
    && rows[c - 2].color == Opposite(rows[c - 4].color)
  }

  /** A switch swaps the colours of the last two lines and changes nothing else;
      switching twice restores the rows. */
  lemma SwitchedEdgeRowsSwap(rows: seq<EdgeRow>)
    requires |rows| >= 4 && TwoPairs(rows)
    ensures var r := SwitchedEdgeRows(rows);
      && |r| == |rows| && r[..|rows| - 4] == rows[..|rows| - 4]
      && (forall i :: |rows| - 4 <= i < |rows| ==>
            r[i].pos == rows[i].pos && r[i].color == Opposite(rows[i].color))
    ensures SwitchedEdgeRows(SwitchedEdgeRows(rows)) == rows
  {
    var c := |rows|;
    var r := SwitchedEdgeRows(rows);
    assert r[c - 4].color == Opposite(rows[c - 4].color);
    var r2 := SwitchedEdgeRows(r);
    assert r2[c - 4].color == rows[c - 4].color;
    assert forall i :: 0 <= i < c ==> r2[i] == rows[i];
  }

  /** The colours of the current block always form two pairs. */
  lemma LastBlockPairs(rows: seq<EdgeRow>, vp: seq<Vec3>, vi: seq<seq<nat>>, sv: seq<(nat, nat)>,
                       s: nat, p: nat)
    requires FanOK(vi, sv, s, p, |vp|) && EdgeRowsOK(rows, vp, vi, sv, s, p) && |vp| >= 2
    ensures |rows| >= 4 && TwoPairs(rows)
  {
    var n := |vp|;
    assert BlockOK(rows, vp, vi[n - 2], PivotAt(sv, s, n, n - 1), n - 1);
  }

  /** `update_new_polygon` moves the loose end of the last line, and of the line before
      it once a position is committed after the first, to the mouse position. */
  function UpdatedEdgeRows(rows: seq<EdgeRow>, last: nat, pos: Vec3): seq<EdgeRow>
    requires |rows| >= 1 && (last > 0 ==> |rows| >= 3)
  {
    var c := |rows|;
    var moved := rows[c - 1 := rows[c - 1].(pos := pos)];
    if last > 0 then moved[c - 3 := moved[c - 3].(pos := pos)] else moved
  }

  lemma EdgeRowsUpdate(rows: seq<EdgeRow>, vp: seq<Vec3>, vi: seq<seq<nat>>, sv: seq<(nat, nat)>,
                       s: nat, p: nat, pos: Vec3)
    requires FanOK(vi, sv, s, p, |vp|) && EdgeRowsOK(rows, vp, vi, sv, s, p) && |vp| >= 1
    ensures EdgeRowsOK(UpdatedEdgeRows(rows, |vp| - 1, pos), vp, vi, sv, s, p)
  {
    var n := |vp|;
    var rows' := UpdatedEdgeRows(rows, n - 1, pos);
    forall m | 1 <= m < n ensures BlockOK(rows', vp, vi[m - 1], PivotAt(sv, s, n, m), m) {
      var b := 4 * m - 2;
      assert BlockOK(rows, vp, vi[m - 1], PivotAt(sv, s, n, m), m);
      assert rows'[b].pos == rows[b].pos && rows'[b + 2].pos == rows[b + 2].pos;
      assert forall i :: 0 <= i < |rows| ==> rows'[i].color == rows[i].color;
    }
  }
}
