/** The temporary state of a polygon that is being clicked out (`_tmp_data` of
    PolygonCreationBase in src/core/geom/data/poly_create.py) together with the rows of
    the temporary geometry shown meanwhile, the transitions the creation steps perform
    on it, and the laws those transitions obey. */
module PolySession {

  import opened Wrappers
  import opened Seqs
  import opened Vectors
  import opened Triangulation
  import opened SessionParts

  /** `vertPos` holds the committed positions; position index `|vertPos|` is the
      placeholder that follows the mouse. `ownedVerts` maps a position index to the
      key of the merged border vertex of this object it coincides with. The last four
      fields are the rows of the temporary point, triangle and line geometry. */
  datatype TmpData = TmpData(
    vertPos: seq<Vec3>,
    vertIndices: seq<seq<nat>>,
    startIndex: nat,
    startIndexPrev: nat,
    sharedVerts: seq<(nat, nat)>,
    normals: seq<Vec3>,
    ownedVerts: map<nat, nat>,
    vertGeomRows: seq<nat>,
    flipNormal: bool,
    pointRows: seq<Vec3>,
    polyRows: seq<Vec3>,
    triPrim: seq<nat>,
    edgeRows: seq<EdgeRow>)

  /** The state right after `init_poly_creation`: the triangle geometry holds the one
      row of the first placeholder. */
  function Fresh(): TmpData
  {
    TmpData([], [[0, 1, 2]], 0, 0, [], [Zero], map[], [], false, [], [Zero], [], [])
  }

  // ---------------------------------------------------------------------------
  // The invariant of a session
  // ---------------------------------------------------------------------------

  ghost predicate FanOf(t: TmpData)
  {
    FanOK(t.vertIndices, t.sharedVerts, t.startIndex, t.startIndexPrev, |t.vertPos|)
  }

  /** The sizes of the lists and rows of a session as functions of the number `n` of
      committed positions, on top of a well-formed fan. Every step is defined on such
      a state. */
  ghost predicate Shaped(t: TmpData)
  {
    var n := |t.vertPos|;
    && FanOf(t)
    && |t.normals| == |t.vertIndices|
    && |t.pointRows| == |t.vertGeomRows|
    && |t.polyRows| == n + 1
    && |t.triPrim| == (if n <= 1 then 0 else 3 * (n - 1))
    && |t.edgeRows| == (if n == 0 then 0 else 4 * n - 2)
  }

  /** Every part of the state agrees with the fan and the committed positions. */
  ghost predicate PartsOK(t: TmpData)
    requires FanOf(t)
  {
    && NormalsOK(t.normals, t.vertPos, t.vertIndices)
    && OwnedOK(t.ownedVerts, |t.vertPos|)
    && PointRowsOK(t.vertGeomRows, t.pointRows, t.vertPos)
    && PolyRowsOK(t.polyRows, t.vertPos)
    && TriPrimOK(t.triPrim, t.vertIndices, t.flipNormal, |t.vertPos|)
    && EdgeRowsOK(t.edgeRows, t.vertPos, t.vertIndices, t.sharedVerts, t.startIndex, t.startIndexPrev)
  }

  ghost predicate Inv(t: TmpData)
  {
    Shaped(t) && PartsOK(t)
  }

  /** The sizes follow from the parts. */
  lemma SizesOfParts(t: TmpData)
    requires FanOf(t) && PartsOK(t)
    ensures Inv(t)
  {
    if |t.vertPos| > 1 {
      FlattenOfTriangles(Oriented(t.vertIndices, t.flipNormal));
    }
  }

  // ---------------------------------------------------------------------------
  // The creation steps
  // ---------------------------------------------------------------------------

  /** `add_new_poly_vertex`: commit position `pos`. `freestanding` tells that it came
      from a click on the grid (it then gets a temporary point), `owner` gives the
      merged border vertex of this object the click was on, if any. */
  function Added(t: TmpData, pos: Vec3, freestanding: bool, owner: Option<nat>): TmpData
    requires Shaped(t)
  {
    var k := |t.vertPos|;
    var vp := t.vertPos + [pos];
    var vi := GrownIndices(t.vertIndices, t.startIndex, k);
    FanCurrent(t.vertIndices, t.sharedVerts, t.startIndex, t.startIndexPrev, k);
    t.(
      vertPos := vp,
      vertIndices := vi,
      sharedVerts := GrownShared(t.sharedVerts, t.startIndex, t.startIndexPrev, k),
      normals := GrownNormals(t.normals, vp, Last(t.vertIndices), k),
      ownedVerts := GrownOwned(t.ownedVerts, k, owner),
      vertGeomRows := if freestanding then t.vertGeomRows + [k] else t.vertGeomRows,
      pointRows := if freestanding then t.pointRows + [pos] else t.pointRows,
      polyRows := GrownPolyRows(t.polyRows, k, pos),
      triPrim := GrownTriPrim(t.triPrim, Last(vi), t.flipNormal, k),
      edgeRows := GrownEdgeRows(t.edgeRows, vp, t.startIndex, k, pos))
  }

  /** `remove_new_poly_vertex`: withdraw the last committed position. With a single
      committed position nothing changes (the source then returns False). */
  function Removed(t: TmpData): TmpData
    requires Shaped(t) && |t.vertPos| >= 1
  {
    var last := |t.vertPos| - 1;
    if last == 0 then t
    else
      var popped := Popped(t.sharedVerts, t.startIndex, t.startIndexPrev);
      t.(
        vertPos := DropLast(t.vertPos),
        vertIndices := ShrunkIndices(t.vertIndices, last),
        startIndex := popped.1,
        startIndexPrev := popped.2,
        sharedVerts := popped.0,
        normals := ShrunkNormals(t.normals, last),
        ownedVerts := t.ownedVerts - {last},
        vertGeomRows := ShrunkGeomRows(t.vertGeomRows, last),
        pointRows := ShrunkPointRows(t.pointRows, t.vertGeomRows, last),
        polyRows := t.polyRows[..last + 1],
        triPrim := ShrunkTriPrim(t.triPrim, t.flipNormal, last),
        edgeRows := t.edgeRows[..|t.edgeRows| - 4])
  }

  /** `switch_new_poly_start_vertex`: make the other committed vertex of the current
      triangle the pivot and swap the colours of the two temporary edges. */
  function Switched(t: TmpData): TmpData
    requires Shaped(t) && |t.vertPos| >= 1
  {
    var last := |t.vertPos| - 1;
    if last == 0 then t
    else
      var (s, p) := SwitchedPivot(t.startIndex, t.startIndexPrev, last);
      t.(startIndex := s, startIndexPrev := p, edgeRows := SwitchedEdgeRows(t.edgeRows))
  }

  /** `flip_new_poly_normal`: from two committed positions on, toggle the flag and
      reverse the winding of the shown triangles. */
  function Flipped(t: TmpData): TmpData
  {
    if |t.vertPos| < 2 then t
    else t.(flipNormal := !t.flipNormal, triPrim := ReverseTriples(t.triPrim))
  }

  /** `update_new_polygon`: move the placeholder and the loose ends of the temporary
      edges to the mouse position `pos`. */
  function Updated(t: TmpData, pos: Vec3): TmpData
    requires Shaped(t) && |t.vertPos| >= 1
  {
    var last := |t.vertPos| - 1;
    t.(polyRows := UpdatedPolyRows(t.polyRows, last, pos),
       edgeRows := UpdatedEdgeRows(t.edgeRows, last, pos))
  }

  // ---------------------------------------------------------------------------
  // Each step keeps the invariant
  // ---------------------------------------------------------------------------

  lemma FreshInv()
    ensures Inv(Fresh())
    ensures Fresh().vertPos == [] && Fresh().vertIndices == [[0, 1, 2]]
    ensures Fresh().startIndex == 0 && Fresh().startIndexPrev == 0 && !Fresh().flipNormal
    ensures Fresh().sharedVerts == [] && Fresh().ownedVerts == map[] && Fresh().normals == [Zero]
  {
    assert IsTri([0, 1, 2], 2);
    assert DropLast([[0, 1, 2]]) == [];
  }

  /** An add keeps the invariant and grows the rows in lock-step: the triangle geometry
      gets rows up to the new placeholder, the primitive three indices per committed
      position after the first, the lines two rows for the first position and four for
      every later one, the points one row for a click on the grid. */
  lemma AddedInv(t: TmpData, pos: Vec3, freestanding: bool, owner: Option<nat>)
    requires Inv(t)
    ensures var t' := Added(t, pos, freestanding, owner);
      && Inv(t')
      && |t'.polyRows| == |t.vertPos| + 2
      && |t'.triPrim| == (if |t.vertPos| == 0 then 0 else 3 * |t.vertPos|)
      && |t'.edgeRows| == |t.edgeRows| + (if |t.vertPos| == 0 then 2 else 4)
      && |t'.pointRows| == |t.pointRows| + (if freestanding then 1 else 0)
  {
    AddedFan(t, pos, freestanding, owner);
    AddedRows(t, pos, freestanding, owner);
    AddedPrims(t, pos, freestanding, owner);
    AddedEdges(t, pos, freestanding, owner);
    SizesOfParts(Added(t, pos, freestanding, owner));
  }

  lemma AddedFan(t: TmpData, pos: Vec3, freestanding: bool, owner: Option<nat>)
    requires Shaped(t) && NormalsOK(t.normals, t.vertPos, t.vertIndices)
    ensures var t' := Added(t, pos, freestanding, owner);
      FanOf(t') && NormalsOK(t'.normals, t'.vertPos, t'.vertIndices)
  {
    AddedFanOnly(t, pos, freestanding, owner);
    AddedNormals(t, pos, freestanding, owner);
  }

  lemma AddedFanOnly(t: TmpData, pos: Vec3, freestanding: bool, owner: Option<nat>)
    requires Shaped(t)
    ensures FanOf(Added(t, pos, freestanding, owner))
  {
    var vi, sv, s, p, vp := t.vertIndices, t.sharedVerts, t.startIndex, t.startIndexPrev, t.vertPos;
    var t' := Added(t, pos, freestanding, owner);
    assert t'.vertIndices == GrownIndices(vi, s, |vp|) && |t'.vertPos| == |vp| + 1;
    assert t'.sharedVerts == GrownShared(sv, s, p, |vp|) && t'.startIndex == s && t'.startIndexPrev == p;
    FanGrows(vi, sv, s, p, |vp|);
  }

  lemma AddedNormals(t: TmpData, pos: Vec3, freestanding: bool, owner: Option<nat>)
    requires Shaped(t) && NormalsOK(t.normals, t.vertPos, t.vertIndices)
    ensures var t' := Added(t, pos, freestanding, owner);
      |t'.vertIndices| > 0 && NormalsOK(t'.normals, t'.vertPos, t'.vertIndices)
  {
    var vi, sv, s, p, vp := t.vertIndices, t.sharedVerts, t.startIndex, t.startIndexPrev, t.vertPos;
    var t' := Added(t, pos, freestanding, owner);
    assert t'.vertIndices == GrownIndices(vi, s, |vp|) && t'.vertPos == vp + [pos];
    NormalsGrow(t.normals, vp, vi, sv, s, p, pos);
    assert t'.normals == GrownNormals(t.normals, vp + [pos], Last(vi), |vp|);
  }

  lemma AddedRows(t: TmpData, pos: Vec3, freestanding: bool, owner: Option<nat>)
    requires Shaped(t)
    requires OwnedOK(t.ownedVerts, |t.vertPos|) && PointRowsOK(t.vertGeomRows, t.pointRows, t.vertPos)
    requires PolyRowsOK(t.polyRows, t.vertPos)
    ensures var t' := Added(t, pos, freestanding, owner);
      && OwnedOK(t'.ownedVerts, |t'.vertPos|) && PointRowsOK(t'.vertGeomRows, t'.pointRows, t'.vertPos)
      && PolyRowsOK(t'.polyRows, t'.vertPos)
  {
    var t' := Added(t, pos, freestanding, owner);
    assert t'.vertPos == t.vertPos + [pos] && t'.ownedVerts == GrownOwned(t.ownedVerts, |t.vertPos|, owner);
    assert t'.polyRows == GrownPolyRows(t.polyRows, |t.vertPos|, pos);
    PointRowsGrow(t.vertGeomRows, t.pointRows, t.vertPos, pos, freestanding);
    PolyRowsGrow(t.polyRows, t.vertPos, pos);
  }

  lemma AddedPrims(t: TmpData, pos: Vec3, freestanding: bool, owner: Option<nat>)
    requires Shaped(t) && TriPrimOK(t.triPrim, t.vertIndices, t.flipNormal, |t.vertPos|)
    ensures var t' := Added(t, pos, freestanding, owner);
      TriPrimOK(t'.triPrim, t'.vertIndices, t'.flipNormal, |t'.vertPos|)
  {
    var vi, sv, s, p, vp := t.vertIndices, t.sharedVerts, t.startIndex, t.startIndexPrev, t.vertPos;
    var t' := Added(t, pos, freestanding, owner);
    assert t'.vertIndices == GrownIndices(vi, s, |vp|) && |t'.vertPos| == |vp| + 1;
    TriPrimGrows(t.triPrim, vi, sv, s, p, t.flipNormal, |vp|);
  }

  lemma AddedEdges(t: TmpData, pos: Vec3, freestanding: bool, owner: Option<nat>)
    requires Shaped(t)
    requires EdgeRowsOK(t.edgeRows, t.vertPos, t.vertIndices, t.sharedVerts, t.startIndex, t.startIndexPrev)
    ensures var t' := Added(t, pos, freestanding, owner);
      && FanOf(t')
      && EdgeRowsOK(t'.edgeRows, t'.vertPos, t'.vertIndices, t'.sharedVerts, t'.startIndex, t'.startIndexPrev)
  {
    var vi, sv, s, p, vp := t.vertIndices, t.sharedVerts, t.startIndex, t.startIndexPrev, t.vertPos;
    var t' := Added(t, pos, freestanding, owner);
    assert t'.vertIndices == GrownIndices(vi, s, |vp|) && t'.vertPos == vp + [pos];
    assert t'.sharedVerts == GrownShared(sv, s, p, |vp|) && t'.startIndex == s && t'.startIndexPrev == p;
    EdgeRowsGrow(t.edgeRows, vp, vi, sv, s, p, pos);
  }

  lemma RemovedInv(t: TmpData)
    requires Inv(t) && |t.vertPos| >= 1
    ensures Inv(Removed(t))
  {
    if |t.vertPos| >= 2 {
      RemovedFan(t);
      RemovedRows(t);
      RemovedPrims(t);
      RemovedEdges(t);
      SizesOfParts(Removed(t));
    }
  }

  lemma RemovedFan(t: TmpData)
    requires Shaped(t) && NormalsOK(t.normals, t.vertPos, t.vertIndices) && |t.vertPos| >= 2
    ensures FanOf(Removed(t)) && NormalsOK(Removed(t).normals, Removed(t).vertPos, Removed(t).vertIndices)
  {
    var vi, sv, s, p, vp := t.vertIndices, t.sharedVerts, t.startIndex, t.startIndexPrev, t.vertPos;
    var t' := Removed(t);
    var popped := Popped(sv, s, p);
    assert t'.vertIndices == ShrunkIndices(vi, |vp| - 1) && t'.vertPos == DropLast(vp);
    assert t'.sharedVerts == popped.0 && t'.startIndex == popped.1 && t'.startIndexPrev == popped.2;
    FanShrinks(vi, sv, s, p, |vp|);
    NormalsShrink(t.normals, vp, vi, sv, s, p);
  }

  lemma RemovedRows(t: TmpData)
    requires Shaped(t) && |t.vertPos| >= 2
    requires OwnedOK(t.ownedVerts, |t.vertPos|) && PointRowsOK(t.vertGeomRows, t.pointRows, t.vertPos)
    requires PolyRowsOK(t.polyRows, t.vertPos)
    ensures var t' := Removed(t);
      && OwnedOK(t'.ownedVerts, |t'.vertPos|) && PointRowsOK(t'.vertGeomRows, t'.pointRows, t'.vertPos)
      && PolyRowsOK(t'.polyRows, t'.vertPos)
  {
    OwnedShrinks(t.ownedVerts, |t.vertPos|);
    PointRowsShrink(t.vertGeomRows, t.pointRows, t.vertPos);
    PolyRowsShrink(t.polyRows, t.vertPos);
  }

  lemma RemovedPrims(t: TmpData)
    requires Shaped(t) && |t.vertPos| >= 2
    requires TriPrimOK(t.triPrim, t.vertIndices, t.flipNormal, |t.vertPos|)
    ensures var t' := Removed(t);
      TriPrimOK(t'.triPrim, t'.vertIndices, t'.flipNormal, |t'.vertPos|)
  {
    var vi, sv, s, p, vp := t.vertIndices, t.sharedVerts, t.startIndex, t.startIndexPrev, t.vertPos;
    assert Removed(t).vertIndices == ShrunkIndices(vi, |vp| - 1) && Removed(t).vertPos == DropLast(vp);
    TriPrimShrinks(t.triPrim, vi, sv, s, p, t.flipNormal, |vp|);
  }

  lemma RemovedEdges(t: TmpData)
    requires Shaped(t) && |t.vertPos| >= 2
    requires EdgeRowsOK(t.edgeRows, t.vertPos, t.vertIndices, t.sharedVerts, t.startIndex, t.startIndexPrev)
    ensures var t' := Removed(t);
      && FanOf(t')
      && EdgeRowsOK(t'.edgeRows, t'.vertPos, t'.vertIndices, t'.sharedVerts, t'.startIndex, t'.startIndexPrev)
  {
    var vi, sv, s, p, vp := t.vertIndices, t.sharedVerts, t.startIndex, t.startIndexPrev, t.vertPos;
    var t' := Removed(t);
    var popped := Popped(sv, s, p);
    assert t'.vertIndices == ShrunkIndices(vi, |vp| - 1) && t'.vertPos == DropLast(vp);
    assert t'.sharedVerts == popped.0 && t'.startIndex == popped.1 && t'.startIndexPrev == popped.2;
    assert t'.edgeRows == t.edgeRows[..|t.edgeRows| - 4];
    EdgeRowsShrink(t.edgeRows, vp, vi, sv, s, p);
  }

  lemma SwitchedInv(t: TmpData)
    requires Inv(t) && |t.vertPos| >= 1
    ensures Inv(Switched(t))
  {
    var vi, sv, s, p, vp := t.vertIndices, t.sharedVerts, t.startIndex, t.startIndexPrev, t.vertPos;
    if |vp| >= 2 {
      FanSwitches(vi, sv, s, p, |vp|);
      EdgeRowsSwitch(t.edgeRows, vp, vi, sv, s, p);
      SizesOfParts(Switched(t));
    }
  }

  lemma FlippedInv(t: TmpData)
    requires Inv(t)
    ensures Inv(Flipped(t))
  {
    if |t.vertPos| >= 2 {
      TriPrimFlips(t.triPrim, t.vertIndices, t.flipNormal, |t.vertPos|);
      SizesOfParts(Flipped(t));
    }
  }

  lemma UpdatedInv(t: TmpData, pos: Vec3)
    requires Inv(t) && |t.vertPos| >= 1
    ensures Inv(Updated(t, pos))
  {
    var vi, sv, s, p, vp := t.vertIndices, t.sharedVerts, t.startIndex, t.startIndexPrev, t.vertPos;
    PolyRowsUpdate(t.polyRows, vp, pos);
    EdgeRowsUpdate(t.edgeRows, vp, vi, sv, s, p, pos);
    SizesOfParts(Updated(t, pos));
  }

  // ---------------------------------------------------------------------------
  // What a step does, and how steps combine
  // ---------------------------------------------------------------------------

  /** An add from the third position on pushes the pivot pair, keeps it in force, and
      appends one triangle built on the pivot edge and the new placeholder, winding
      that edge opposite to the previous triangle so both face the same way. The new
      running normal is the normal sum of all committed triangles. */
  lemma AddCommitsTriangle(t: TmpData, pos: Vec3, freestanding: bool, owner: Option<nat>)
    requires Inv(t) && |t.vertPos| >= 2
    ensures var t' := Added(t, pos, freestanding, owner);
      var k := |t.vertPos|;
      var s := t.startIndex;
      var prev := Last(t.vertIndices);
      var next := Last(t'.vertIndices);
      && t'.sharedVerts == t.sharedVerts + [(s, t.startIndexPrev)]
      && t'.startIndex == s && t'.startIndexPrev == t.startIndexPrev
      && t'.vertIndices == t.vertIndices + [next]
      && |next| == 3 && next[2] == k + 1
      && ((next[0] == s && next[1] == k) || (next[0] == k && next[1] == s))
      && (Directed(prev, s, k) <==> Directed(next, k, s))
      && (Directed(prev, k, s) <==> Directed(next, s, k))
      && DropLast(t'.normals) == t.normals
      && IndicesBelow(DropLast(t'.vertIndices), |t'.vertPos|)
      && Last(t'.normals) == NormalSum(t'.vertPos, DropLast(t'.vertIndices))
  {
    var k := |t.vertPos|;
    var t' := Added(t, pos, freestanding, owner);
    AddedInv(t, pos, freestanding, owner);
    FanCurrent(t.vertIndices, t.sharedVerts, t.startIndex, t.startIndexPrev, k);
    NextTriangleShape(Last(t.vertIndices), t.startIndex, k);
    NormalsOfLast(t'.vertPos, DropLast(t'.vertIndices));
  }

  /** Withdrawing a position right after adding it restores the whole state, except
      that the row under the mouse shows the withdrawn position. */
  lemma RemoveUndoesAdd(t: TmpData, pos: Vec3, freestanding: bool, owner: Option<nat>)
    requires Inv(t) && |t.vertPos| >= 1
    ensures Inv(Added(t, pos, freestanding, owner))
    ensures Removed(Added(t, pos, freestanding, owner)) == t.(polyRows := t.vertPos + [pos])
  {
    AddedInv(t, pos, freestanding, owner);
    AddThenRemove(t, pos, freestanding, owner);
  }

  lemma AddThenRemove(t: TmpData, pos: Vec3, freestanding: bool, owner: Option<nat>)
    requires Shaped(t) && |t.vertPos| >= 1 && Shaped(Added(t, pos, freestanding, owner))
    requires OwnedOK(t.ownedVerts, |t.vertPos|) && PointRowsOK(t.vertGeomRows, t.pointRows, t.vertPos)
    requires TriPrimOK(t.triPrim, t.vertIndices, t.flipNormal, |t.vertPos|)
    requires PolyRowsOK(t.polyRows, t.vertPos)
    ensures Removed(Added(t, pos, freestanding, owner)) == t.(polyRows := t.vertPos + [pos])
  {
    FanRoundTrip(t, pos, freestanding, owner);
    OwnedRoundTrip(t, pos, freestanding, owner);
    PointsRoundTrip(t, pos, freestanding, owner);
    PrimsRoundTrip(t, pos, freestanding, owner);
  }

  lemma FanRoundTrip(t: TmpData, pos: Vec3, freestanding: bool, owner: Option<nat>)
    requires Shaped(t) && |t.vertPos| >= 1 && Shaped(Added(t, pos, freestanding, owner))
    ensures var r := Removed(Added(t, pos, freestanding, owner));
      && r.vertPos == t.vertPos && r.vertIndices == t.vertIndices && r.normals == t.normals
      && r.sharedVerts == t.sharedVerts && r.startIndex == t.startIndex && r.startIndexPrev == t.startIndexPrev
      && r.flipNormal == t.flipNormal
  {
    FanUndo(t.vertIndices, t.sharedVerts, t.startIndex, t.startIndexPrev, |t.vertPos|);
  }

  lemma OwnedRoundTrip(t: TmpData, pos: Vec3, freestanding: bool, owner: Option<nat>)
    requires Shaped(t) && |t.vertPos| >= 1 && Shaped(Added(t, pos, freestanding, owner))
    requires OwnedOK(t.ownedVerts, |t.vertPos|)
    ensures Removed(Added(t, pos, freestanding, owner)).ownedVerts == t.ownedVerts
  {
    OwnedUndo(t.ownedVerts, |t.vertPos|, owner);
  }

  lemma PointsRoundTrip(t: TmpData, pos: Vec3, freestanding: bool, owner: Option<nat>)
    requires Shaped(t) && |t.vertPos| >= 1 && Shaped(Added(t, pos, freestanding, owner))
    requires PointRowsOK(t.vertGeomRows, t.pointRows, t.vertPos)
    ensures var r := Removed(Added(t, pos, freestanding, owner));
      r.vertGeomRows == t.vertGeomRows && r.pointRows == t.pointRows
  {
    var k := |t.vertPos|;
    var a := Added(t, pos, freestanding, owner);
    var vgr' := if freestanding then t.vertGeomRows + [k] else t.vertGeomRows;
    var pr' := if freestanding then t.pointRows + [pos] else t.pointRows;
    assert a.vertGeomRows == vgr' && a.pointRows == pr' && |a.vertPos| - 1 == k;
    PointRowsUndo(t.vertGeomRows, t.pointRows, t.vertPos, pos, freestanding);
    assert Removed(a).vertGeomRows == ShrunkGeomRows(vgr', k);
    assert Removed(a).pointRows == ShrunkPointRows(pr', vgr', k);
  }

  lemma PrimsRoundTrip(t: TmpData, pos: Vec3, freestanding: bool, owner: Option<nat>)
    requires Shaped(t) && |t.vertPos| >= 1 && Shaped(Added(t, pos, freestanding, owner))
    requires TriPrimOK(t.triPrim, t.vertIndices, t.flipNormal, |t.vertPos|)
    requires PolyRowsOK(t.polyRows, t.vertPos)
    ensures var r := Removed(Added(t, pos, freestanding, owner));
      r.triPrim == t.triPrim && r.polyRows == t.vertPos + [pos] && r.edgeRows == t.edgeRows
  {
    var vi, sv, s, p, vp := t.vertIndices, t.sharedVerts, t.startIndex, t.startIndexPrev, t.vertPos;
    TriPrimUndo(t.triPrim, vi, sv, s, p, t.flipNormal, |vp|);
    PolyRowsUndo(t.polyRows, vp, pos);
    var rows' := GrownEdgeRows(t.edgeRows, vp + [pos], s, |vp|, pos);
    assert rows'[..|rows'| - 4] == t.edgeRows;
  }

  /** Once the pivot stack is not empty a withdrawal does not depend on the pivot pair
      or on the colours of the last two lines, so it undoes any switch before it. */
  lemma RemoveIgnoresSwitch(t: TmpData)
    requires Shaped(t) && |t.vertPos| >= 3
    ensures Shaped(Switched(t))
    ensures Removed(Switched(t)) == Removed(t)
  {
    var n := |t.vertPos|;
    var u := Switched(t);
    FanSwitches(t.vertIndices, t.sharedVerts, t.startIndex, t.startIndexPrev, n);
    assert |t.sharedVerts| > 0;
    var c := |t.edgeRows|;
    assert SwitchedEdgeRows(t.edgeRows)[..c - 4] == t.edgeRows[..c - 4];
  }

  /** From the third position on, a withdrawal also undoes every switch made since the
      add, since the pivot pair is restored from the stack. */
  lemma RemoveUndoesSwitchedAdd(t: TmpData, pos: Vec3, freestanding: bool, owner: Option<nat>)
    requires Inv(t) && |t.vertPos| >= 2
    ensures Shaped(Added(t, pos, freestanding, owner))
    ensures Shaped(Switched(Added(t, pos, freestanding, owner)))
    ensures Removed(Switched(Added(t, pos, freestanding, owner))) == t.(polyRows := t.vertPos + [pos])
  {
    RemoveUndoesAdd(t, pos, freestanding, owner);
    RemoveIgnoresSwitch(Added(t, pos, freestanding, owner));
  }

  /** The row under the mouse is overwritten by the next add. */
  lemma AddIgnoresPlaceholder(t: TmpData, rows: seq<Vec3>, pos: Vec3, freestanding: bool,
                              owner: Option<nat>)
    requires Shaped(t) && |rows| == |t.polyRows| && rows[..|t.vertPos|] == t.polyRows[..|t.vertPos|]
    ensures Shaped(t.(polyRows := rows))
    ensures Added(t.(polyRows := rows), pos, freestanding, owner) == Added(t, pos, freestanding, owner)
  {
    var k := |t.vertPos|;
    assert GrownPolyRows(rows, k, pos) == GrownPolyRows(t.polyRows, k, pos);
  }

  /** Adding, withdrawing and adding again is the same as adding the second position
      only. */
  lemma ReAddReplaces(t: TmpData, a: Vec3, fa: bool, oa: Option<nat>, b: Vec3, fb: bool, ob: Option<nat>)
    requires Inv(t) && |t.vertPos| >= 1
    ensures Shaped(Added(t, a, fa, oa)) && Shaped(Removed(Added(t, a, fa, oa)))
    ensures Added(Removed(Added(t, a, fa, oa)), b, fb, ob) == Added(t, b, fb, ob)
  {
    RemoveUndoesAdd(t, a, fa, oa);
    AddIgnoresPlaceholder(t, t.vertPos + [a], b, fb, ob);
  }

  lemma SwitchedShaped(t: TmpData)
    requires Shaped(t) && |t.vertPos| >= 1
    ensures Shaped(Switched(t))
  {
    if |t.vertPos| >= 2 {
      FanSwitches(t.vertIndices, t.sharedVerts, t.startIndex, t.startIndexPrev, |t.vertPos|);
    }
  }

  lemma SwitchTwiceOfPairs(t: TmpData)
    requires Shaped(t) && |t.vertPos| >= 2 && TwoPairs(t.edgeRows)
    ensures Shaped(Switched(t))
    ensures Switched(Switched(t)) ==
      if t.startIndex != |t.vertPos| - 1 then t.(startIndexPrev := |t.vertPos| - 1) else t
  {
    var vi, sv, s, p, n := t.vertIndices, t.sharedVerts, t.startIndex, t.startIndexPrev, |t.vertPos|;
    SwitchedShaped(t);
    SwitchedPivotTwice(vi, sv, s, p, n);
    SwitchedEdgeRowsSwap(t.edgeRows);
  }

  /** Two switches in a row restore the pivot and the line colours; the previous pivot
      is restored as well when the pivot was the last committed position. */
  lemma SwitchTwice(t: TmpData)
    requires Inv(t) && |t.vertPos| >= 1
    ensures Shaped(Switched(t))
    ensures Switched(Switched(t)).startIndex == t.startIndex
    ensures Switched(Switched(t)) ==
      if |t.vertPos| >= 2 && t.startIndex != |t.vertPos| - 1 then t.(startIndexPrev := |t.vertPos| - 1)
      else t
  {
    if |t.vertPos| >= 2 {
      LastBlockPairs(t.edgeRows, t.vertPos, t.vertIndices, t.sharedVerts, t.startIndex, t.startIndexPrev);
      SwitchTwiceOfPairs(t);
    }
  }

  /** A switch swaps the colours of the two temporary edges and moves nothing. */
  lemma SwitchSwapsColours(t: TmpData)
    requires Inv(t) && |t.vertPos| >= 2
    ensures var r := Switched(t).edgeRows;
      var c := |t.edgeRows|;
      && |r| == c && r[..c - 4] == t.edgeRows[..c - 4]
      && (forall i :: c - 4 <= i < c ==>
            r[i].pos == t.edgeRows[i].pos && r[i].color == Opposite(t.edgeRows[i].color))
  {
    LastBlockPairs(t.edgeRows, t.vertPos, t.vertIndices, t.sharedVerts, t.startIndex, t.startIndexPrev);
    SwitchedEdgeRowsSwap(t.edgeRows);
  }

  /** Two flips in a row restore the state. */
  lemma FlipTwice(t: TmpData)
    ensures Flipped(Flipped(t)) == t
  {
    if |t.vertPos| >= 2 {
      ReverseTriplesTwice(t.triPrim);
    }
  }

  /** Only the last mouse position counts. */
  lemma UpdateTwice(t: TmpData, a: Vec3, b: Vec3)
    requires Shaped(t) && |t.vertPos| >= 1
    ensures Shaped(Updated(t, a))
    ensures Updated(Updated(t, a), b) == Updated(t, b)
  {
    var last := |t.vertPos| - 1;
    var c := |t.edgeRows|;
    var u := Updated(t, a);
    assert UpdatedEdgeRows(u.edgeRows, last, b) == UpdatedEdgeRows(t.edgeRows, last, b);
  }
}
