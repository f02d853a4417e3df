/** PolygonCreationBase (src/core/geom/data/poly_create.py) as the part of a geometry
    data object it works on: the session state `_tmp_data`, kept in one field per
    key, and the geometry a commit writes. Every step is proved against the
    transition of the session it performs and keeps the object well formed. */
module PolyCreate {

  import opened Wrappers
  import opened Seqs
  import opened Vectors
  import opened Triangulation
  import opened SessionParts
  import opened PolySession
  import opened PolyFinalize
  import opened PolyCommit
  import opened PolyWrite

  /** What the user clicked: a merged vertex of this object (`border` tells whether
      it lies on the border of the mesh), a vertex of another object at `pos` (in this
      object's coordinates), or a point `pos` of the grid. */
  datatype Pick = OwnVertex(merged: nat, border: bool) | ForeignVertex(pos: Vec3) | GridPoint(pos: Vec3)

  /** The merged vertex the new position is to be joined with, when it is kept. */
  function PickOwner(pick: Pick): (r: Option<nat>)
    ensures r.Some? <==> pick.OwnVertex? && pick.border
    ensures r.Some? ==> r.value == pick.merged
  {
    if pick.OwnVertex? && pick.border then Some(pick.merged) else None
  }

  function EmptyMesh(): Mesh
  {
    Mesh(0, [], [], [], [], [], [], [], [], [])
  }

  lemma EmptyMeshOK()
    ensures MeshOK(EmptyMesh()) && WireOK(EmptyMesh())
  {
  }

  /** The geometry `m` is well formed, and so is a session `t` in progress, whose
      owned merged vertices exist in `m`. */
  ghost predicate ObjectOK(m: Mesh, creating: bool, t: TmpData)
  {
    && MeshOK(m) && WireOK(m)
    && (creating ==> Inv(t) && OwnersIn(t.ownedVerts, m))
  }

  class GeomDataObject {

    /** Whether `_tmp_data` exists, i.e. a polygon is being created. */
    var creating: bool

    /** `_tmp_data` with the rows of the temporary point, triangle and line geometry;
        meaningful while `creating`. */
    var tmp: TmpData

    /** The geometry of the object: its vertex rows, polygons and primitives. */
    var mesh: Mesh

    /** The geometry is well formed, and so is a session in progress, whose owned
        merged vertices exist. */
    ghost predicate Valid()
      reads this
    {
      ObjectOK(mesh, creating, tmp)
    }

    /** A merged vertex of this object is named by a row that names itself. */
    predicate PickOK(pick: Pick)
      reads this
    {
      pick.OwnVertex? ==> pick.merged < |mesh.rowPos| && pick.merged < |mesh.rowMerged| && mesh.rowMerged[pick.merged] == pick.merged
    }

    /** The position of a pick (`vertex.get_pos()` or the converted grid point). */
    function PickPos(pick: Pick): Vec3
      reads this
      requires PickOK(pick)
    {
      match pick
      case OwnVertex(v, _) => mesh.rowPos[v]
      case ForeignVertex(p) => p
      case GridPoint(p) => p
    }

    /** An object without geometry. */
    constructor ()
      ensures Valid() && !creating && mesh == EmptyMesh()
    {
      creating := false;
      tmp := Fresh();
      mesh := EmptyMesh();
      EmptyMeshOK();
    }

    /** `init_poly_creation`: start a session with no committed position. */
    method InitPolyCreation()
      requires Valid()
      modifies this
      ensures Valid() && creating
      ensures tmp == Fresh() && mesh == old(mesh)
    {
      tmp := tmp.(polyRows := [Zero], pointRows := [], triPrim := [], edgeRows := []);
      tmp := tmp.(normals := [Zero], sharedVerts := [], ownedVerts := map[], vertPos := []);
      tmp := tmp.(vertGeomRows := [], vertIndices := [[0, 1, 2]]);
      tmp := tmp.(startIndex := 0, startIndexPrev := 0, flipNormal := false);
      creating := true;
      FreshInv();
    }

    /** `add_new_poly_vertex`: commit the picked position. */
    method AddNewPolyVertex(pick: Pick)
      requires Valid() && creating && PickOK(pick)
      modifies this
      ensures Valid() && creating
      ensures tmp == Added(old(tmp), old(PickPos(pick)), pick.GridPoint?, PickOwner(pick))
      ensures |tmp.vertPos| == |old(tmp.vertPos)| + 1
      ensures mesh == old(mesh)
    {
      var t := AddWithin(mesh, tmp, PickPos(pick), pick.GridPoint?, PickOwner(pick));
      SetSession(t);
    }

    /** Replaces the session by `t`, which is well formed over the geometry. */
    method SetSession(t: TmpData)
      requires ObjectOK(mesh, creating, t)
      modifies this
      ensures Valid() && tmp == t && creating == old(creating) && mesh == old(mesh)
    {
      tmp := t;
    }

    /** `remove_new_poly_vertex`: withdraw the last committed position; refused
        (`False`) while only the first one is committed. */
    method RemoveNewPolyVertex() returns (removed: bool)
      requires Valid() && creating && |tmp.vertPos| >= 1
      modifies this
      ensures Valid() && creating
      ensures removed == (|old(tmp.vertPos)| >= 2)
      ensures tmp == Removed(old(tmp)) && mesh == old(mesh)
    {
      var t;
      t, removed := RemoveWithin(mesh, tmp);
      SetSession(t);
    }

    /** `switch_new_poly_start_vertex`: turn the diagonal of the current triangle. */
    method SwitchNewPolyStartVertex()
      requires Valid() && creating && |tmp.vertPos| >= 1
      modifies this
      ensures Valid() && creating
      ensures tmp == Switched(old(tmp)) && mesh == old(mesh)
    {
      var t := SwitchWithin(mesh, tmp);
      SetSession(t);
    }

    /** `flip_new_poly_normal`: from two committed positions on, flip the new
        polygon's normal. */
    method FlipNewPolyNormal()
      requires Valid() && creating
      modifies this
      ensures Valid() && creating
      ensures tmp == Flipped(old(tmp)) && mesh == old(mesh)
    {
      var t := FlipWithin(mesh, tmp);
      SetSession(t);
    }

    /** `update_new_polygon`: follow the mouse position `pos`. */
    method UpdateNewPolygon(pos: Vec3)
      requires Valid() && creating && |tmp.vertPos| >= 1
      modifies this
      ensures Valid() && creating
      ensures tmp == Updated(old(tmp), pos) && mesh == old(mesh)
    {
      var t := UpdateWithin(mesh, tmp, pos);
      SetSession(t);
    }

    /** `finalize_poly_creation`: refused (`False`, nothing changes) when fewer than
        three positions are committed and the session is not cancelled; otherwise
        the session ends, and unless cancelled its polygon is committed. */
    method FinalizePolyCreation(cancel: bool) returns (ok: bool)
      requires Valid() && creating
      modifies this
      ensures Valid()
      ensures ok == (cancel || |old(tmp.vertPos)| >= 3)
      ensures !ok ==> creating && tmp == old(tmp) && mesh == old(mesh)
      ensures ok ==> !creating
      ensures ok && cancel ==> mesh == old(mesh)
      ensures ok && !cancel ==> mesh == Committed(old(mesh), old(tmp))
    {
      if !cancel && |tmp.vertPos| < 3 {
        return false;
      }
      creating := false;
      if cancel {
        return true;
      }
      var m := mesh;
      SessionCommit(m, tmp);
      var m' := CommitStep(m, tmp);
      mesh := m';
      ok := true;
    }
  }

  // ---------------------------------------------------------------------------
  // The steps on a well-formed session over the geometry `m`
  // ---------------------------------------------------------------------------

  /** `add_new_poly_vertex`: a position joined with an existing merged vertex keeps
      every owned merged vertex in the mesh. */
  method AddWithin(ghost m: Mesh, d0: TmpData, pos: Vec3, freestanding: bool, owner: Option<nat>) returns (d: TmpData)
    requires ObjectOK(m, true, d0)
    requires owner.Some? ==> owner.value < |m.rowMerged| && m.rowMerged[owner.value] == owner.value
    ensures d == Added(d0, pos, freestanding, owner) && ObjectOK(m, true, d)
    ensures |d.vertPos| == |d0.vertPos| + 1
  {
    AddedInv(d0, pos, freestanding, owner);
    OwnersGrow(m, d0.ownedVerts, |d0.vertPos|, owner);
    d := AddStep(d0, pos, freestanding, owner);
  }

  lemma OwnersGrow(m: Mesh, owned: map<nat, nat>, k: nat, owner: Option<nat>)
    requires OwnersIn(owned, m)
    requires owner.Some? ==> owner.value < |m.rowMerged| && m.rowMerged[owner.value] == owner.value
    ensures OwnersIn(GrownOwned(owned, k, owner), m)
  {
  }

  /** `remove_new_poly_vertex` on a session with at least one committed position. */
  method RemoveWithin(ghost m: Mesh, d0: TmpData) returns (d: TmpData, removed: bool)
    requires ObjectOK(m, true, d0) && |d0.vertPos| >= 1
    ensures d == Removed(d0) && removed == (|d0.vertPos| >= 2) && ObjectOK(m, true, d)
  {
    RemovedInv(d0);
    d, removed := RemoveStep(d0);
  }

  /** `switch_new_poly_start_vertex` on a session with at least one committed position. */
  method SwitchWithin(ghost m: Mesh, d0: TmpData) returns (d: TmpData)
    requires ObjectOK(m, true, d0) && |d0.vertPos| >= 1
    ensures d == Switched(d0) && ObjectOK(m, true, d)
  {
    SwitchedInv(d0);
    d := SwitchStep(d0);
  }

  /** `flip_new_poly_normal`: nothing changes before the second position. */
  method FlipWithin(ghost m: Mesh, d0: TmpData) returns (d: TmpData)
    requires ObjectOK(m, true, d0)
    ensures d == Flipped(d0) && ObjectOK(m, true, d)
  {
    FlippedInv(d0);
    d := d0;
    if |d.vertPos| < 2 {
      return;
    }
    d := d.(flipNormal := !d.flipNormal, triPrim := ReverseTriples(d.triPrim));
  }

  /** `update_new_polygon` on a session with at least one committed position. */
  method UpdateWithin(ghost m: Mesh, d0: TmpData, pos: Vec3) returns (d: TmpData)
    requires ObjectOK(m, true, d0) && |d0.vertPos| >= 1
    ensures d == Updated(d0, pos) && ObjectOK(m, true, d)
  {
    UpdatedInv(d0, pos);
    d := UpdateStep(d0, pos);
  }

  // ---------------------------------------------------------------------------
  // The edits of `_tmp_data`, key by key
  // ---------------------------------------------------------------------------

  /** The entries `add_new_poly_vertex` changes, in the order it changes them. */
  method AddStep(d0: TmpData, pos: Vec3, freestanding: bool, owner: Option<nat>) returns (d: TmpData)
    requires Shaped(d0)
    ensures d == Added(d0, pos, freestanding, owner)
  {
    var lastIndex := |d0.vertPos|;
    FanCurrent(d0.vertIndices, d0.sharedVerts, d0.startIndex, d0.startIndexPrev, lastIndex);
    var ownedVerts := d0.ownedVerts;
    if owner.Some? {
      ownedVerts := ownedVerts[lastIndex := owner.value];
    }
    var pointRows, vertGeomRows := d0.pointRows, d0.vertGeomRows;
    if freestanding {
      pointRows, vertGeomRows := pointRows + [pos], vertGeomRows + [lastIndex];
    }
    var vertPos := d0.vertPos + [pos];
    var polyRows := d0.polyRows[lastIndex := pos] + [pos];
    assert ownedVerts == GrownOwned(d0.ownedVerts, lastIndex, owner);
    assert polyRows == GrownPolyRows(d0.polyRows, lastIndex, pos);
    var vi, sv, normals, prim, edges := GrowFan(d0.vertIndices, d0.sharedVerts, d0.normals, d0.triPrim, d0.edgeRows,
      vertPos, d0.startIndex, d0.startIndexPrev, d0.flipNormal, lastIndex, pos);
    d := d0.(vertPos := vertPos, vertIndices := vi, sharedVerts := sv, normals := normals, ownedVerts := ownedVerts,
             vertGeomRows := vertGeomRows, pointRows := pointRows, polyRows := polyRows, triPrim := prim,
             edgeRows := edges);
  }

  /** The fan, normal, triangle and line entries `add_new_poly_vertex` changes when
      the position with index `k` is committed; `vp` already holds it. */
  method GrowFan(vi0: seq<seq<nat>>, sv0: seq<(nat, nat)>, normals0: seq<Vec3>, prim0: seq<nat>,
                 edges0: seq<EdgeRow>, vp: seq<Vec3>, s: nat, p: nat, flip: bool, k: nat, pos: Vec3)
    returns (vi: seq<seq<nat>>, sv: seq<(nat, nat)>, normals: seq<Vec3>, prim: seq<nat>, edges: seq<EdgeRow>)
    requires |vi0| > 0 && IsTri(Last(vi0), CurrentTop(k)) && (s == Last(vi0)[0] || s == Last(vi0)[1])
    requires |normals0| > 0 && |vp| == k + 1
    ensures vi == GrownIndices(vi0, s, k) && sv == GrownShared(sv0, s, p, k)
    ensures normals == GrownNormals(normals0, vp, Last(vi0), k)
    ensures prim == GrownTriPrim(prim0, Last(vi), flip, k)
    ensures edges == GrownEdgeRows(edges0, vp, s, k, pos)
  {
    vi, sv, normals, prim := vi0, sv0, normals0, prim0;
    if k == 1 {
      prim := WithTriangle(prim, [0, 1, 2], flip);
    } else if k > 1 {
      var prev := Last(vi);
      NextTriangleShape(prev, s, k);
      sv := sv + [(s, p)];
      var indices := NextTriangle(prev, s, k);
      vi := vi + [indices];
      prim := WithTriangle(prim, indices, flip);
      normals := normals + [Add(TriNormal(vp, prev), Last(normals))];
    }
    if k > 0 {
      var index2 := SecondShared(s, k);
      edges := edges0 + [EdgeRow(vp[s], Grey), EdgeRow(pos, Grey), EdgeRow(vp[index2], Yellow), EdgeRow(pos, Yellow)];
    } else {
      edges := edges0 + [EdgeRow(pos, Yellow), EdgeRow(pos, Yellow)];
    }
  }

  /** The entries `remove_new_poly_vertex` changes, and its answer. */
  method RemoveStep(d0: TmpData) returns (d: TmpData, removed: bool)
    requires Shaped(d0) && |d0.vertPos| >= 1
    ensures d == Removed(d0) && removed == (|d0.vertPos| >= 2)
  {
    var lastIndex := |d0.vertPos| - 1;
    if lastIndex == 0 {
      return d0, false;
    }
    var normals := d0.normals;
    if lastIndex > 1 {
      normals := DropLast(normals);
    }
    var vertPos := DropLast(d0.vertPos);
    var pointRows, vertGeomRows := d0.pointRows, d0.vertGeomRows;
    if lastIndex in vertGeomRows {
      pointRows, vertGeomRows := DropLast(pointRows), RemoveFirst<nat>(vertGeomRows, lastIndex);
    }
    var ownedVerts := d0.ownedVerts - {lastIndex};
    var polyRows := d0.polyRows[..lastIndex + 1];
    var vi, prim, sv, s, p, edges := ShrinkFan(d0.vertIndices, d0.triPrim, d0.flipNormal, d0.sharedVerts,
      d0.startIndex, d0.startIndexPrev, d0.edgeRows, lastIndex);
    d := d0.(vertPos := vertPos, vertIndices := vi, startIndex := s, startIndexPrev := p, sharedVerts := sv,
             normals := normals, ownedVerts := ownedVerts, vertGeomRows := vertGeomRows, pointRows := pointRows,
             polyRows := polyRows, triPrim := prim, edgeRows := edges);
    removed := true;
  }

  /** The fan, triangle and line entries `remove_new_poly_vertex` changes when the
      position with index `last` (> 0) is withdrawn. */
  method ShrinkFan(vi0: seq<seq<nat>>, prim0: seq<nat>, flip: bool, sv0: seq<(nat, nat)>, s0: nat, p0: nat,
                   edges0: seq<EdgeRow>, last: nat)
    returns (vi: seq<seq<nat>>, prim: seq<nat>, sv: seq<(nat, nat)>, s: nat, p: nat, edges: seq<EdgeRow>)
    requires |vi0| > 0 && (last > 1 ==> |prim0| >= 3) && |edges0| >= 4
    ensures vi == ShrunkIndices(vi0, last) && prim == ShrunkTriPrim(prim0, flip, last)
    ensures (sv, s, p) == Popped(sv0, s0, p0)
    ensures edges == edges0[..|edges0| - 4]
  {
    vi, prim, sv, s, p := vi0, prim0, sv0, s0, p0;
    if last > 1 {
      vi, prim := DropLast(vi), WithoutTriangle(prim, flip);
    } else {
      prim := [];
    }
    if sv != [] {
      s, p := Last(sv).0, Last(sv).1;
      sv := DropLast(sv);
    }
    edges := edges0[..|edges0| - 4];
  }

  /** The entries `switch_new_poly_start_vertex` changes. */
  method SwitchStep(d0: TmpData) returns (d: TmpData)
    requires Shaped(d0) && |d0.vertPos| >= 1
    ensures d == Switched(d0)
  {
    d := d0;
    var lastIndex := |d.vertPos| - 1;
    if lastIndex == 0 {
      return;
    }
    if d.startIndex == lastIndex {
      d := d.(startIndex := d.startIndexPrev, startIndexPrev := d.startIndex);
    } else {
      d := d.(startIndexPrev := d.startIndex);
      d := d.(startIndex := lastIndex);
    }
    var first := if d.edgeRows[|d.edgeRows| - 4].color == Yellow then Grey else Yellow;
    d := d.(edgeRows := Recoloured(d.edgeRows, first));
  }

  /** The entries `update_new_polygon` changes. */
  method UpdateStep(d0: TmpData, pos: Vec3) returns (d: TmpData)
    requires Shaped(d0) && |d0.vertPos| >= 1
    ensures d == Updated(d0, pos)
  {
    d := d0;
    var lastIndex := |d.vertPos| - 1;
    if lastIndex > 0 {
      d := d.(polyRows := d.polyRows[lastIndex + 1 := pos]);
    }
    var count := |d.edgeRows|;
    d := d.(edgeRows := d.edgeRows[count - 1 := d.edgeRows[count - 1].(pos := pos)]);
    if lastIndex > 0 {
      d := d.(edgeRows := d.edgeRows[count - 3 := d.edgeRows[count - 3].(pos := pos)]);
    }
  }
}
