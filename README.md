# Polygon creation and box topology, modelled in Dafny

This project models two parts of Panda3D Studio's geometry core.

**Interactive polygon creation** (`src/core/geom/data/poly_create.py`):
- `PolygonCreationBase` keeps the record `_tmp_data` while a polygon is clicked out vertex by vertex. The record holds:
  - the committed positions;
  - the fan of index triangles, ending in a placeholder for the mouse position;
  - the pivot pair and the stack of earlier pivot pairs;
  - the running normal sums;
  - the positions joined with existing border vertices;
  - the rows of the temporary point, triangle and line geometry.
- Finalizing the session commits the polygon into the object's geometry. It creates one vertex row per distinct position, finds the border edges by XOR-folding the triangle edges, orients them and rebuilds the wire primitive.
- `PolygonCreationManager` is the controller that turns clicks into these steps.

**The box primitive** (`src/core/geom/prim/box.py`):
- the grid of vertices and the two-triangle cells `define_geom_data` builds on the six sides of a box;
- the positions shared along the edges of the box;
- the change-detecting setters;
- the size rules used while a box is created.

Modules, in dependency order:

| module | file | contents |
|---|---|---|
| `Wrappers` | `wrappers.dfy` | `Option` |
| `Seqs` | `seqs.dfy` | `Last`, `DropLast`, `Flatten`, `Count`, `NoDup` and their lemmas |
| `Vectors` | `vectors.dfy` | 3-vectors over reals, the cross product |
| `Triangulation` | `triangulation.dfy` | the index arithmetic of an add; triangle normals and normal sums; reversal of winding |
| `SessionParts` | `session_parts.dfy` | one predicate per group of `_tmp_data` keys, with the shape each step gives it |
| `PolySession` | `poly_session.dfy` | `TmpData` and the transitions `Fresh`, `Added`, `Removed`, `Switched`, `Flipped`, `Updated`; the invariant and the inverse and repeat laws |
| `PolyFinalize` | `poly_finalize.dfy` | vertex creation by first appearance, the XOR edge fold, edge orientation, and the loop that builds the triangles and edges |
| `PolyCommit` | `poly_commit.dfy` | the geometry `Mesh`; what a commit appends to it, and that the result is well formed |
| `PolyWrite` | `poly_write.dfy` | the loops writing vertex rows, triangle rows and the wire primitive, each proved against `PolyCommit` |
| `PolyCreate` | `poly_create.dfy` | class `GeomDataObject`: the session record and the geometry as fields, and a method per step |
| `PolyManager` | `poly_manager.dfy` | class `PolyCreationManager` and the picking-colour decoding |
| `Box` | `box.dfy` | the side table, vertex and face generation, class `BoxPrim` |

How the model is stated:
- Every step of `GeomDataObject` and of the manager is a method that changes fields in place.
- Each method's `ensures` ties the new state to a transition function of the old state (`tmp == Added(old(tmp), …)`).
- The laws the source promises are lemmas about those functions:
  - each step keeps the invariant `Inv`;
  - remove undoes add, also after a switch;
  - two switches and two flips restore the session;
  - the row counts grow in lock-step;
  - a commit gives `n - 2` triangles, one vertex per position, and border edges that occur an odd number of times.
- The finalize loops are methods with loop invariants, proved against the functions that state what they build.

Some identities are represented by numbers:
- A merged vertex is named by the row of its representative vertex (`rowMerged[r] == r`).
- A vertex is named by its row.

## Model

| member | source | states |
|---|---|---|
| Triangulation.IndexOf | src/core/geom/data/poly_create.py:187-188 | `list.index`: the position of the first occurrence of the value |
| Triangulation.NextTriangleShape | src/core/geom/data/poly_create.py:179-206 | the new triangle holds the pivot and the last position and ends in the new placeholder `k + 1`; it traverses the shared edge opposite to the previous triangle, so both face the same way |
| Triangulation.ReverseFlipsEdges | src/core/geom/data/poly_create.py:477-478 | `tri_data[::-1]` reverses every directed edge of the triangle |
| Triangulation.NormalSumOfReversed | src/core/geom/data/poly_create.py:463-467 | the normal sum of the reversed triangles is the negation of the sum, as the flipped normal at finalize |
| Triangulation.TriNormalOfReverse | src/core/geom/data/poly_create.py:219-220 | a reversed triangle has the negated cross-product normal |
| Triangulation.NormalsOfLast | src/core/geom/data/poly_create.py:219-223 | the last running normal is the sum of the cross products of all triangles so far |
| Vectors.CrossAntiCommutes | src/core/geom/data/poly_create.py:219-220 | swapping the factors of the cross product negates it |
| SessionParts.FanGrows | src/core/geom/data/poly_create.py:179-206 | an add pushes the pivot pair onto `shared_verts`, keeps the pivot pair and appends one triangle of the fan shape |
| SessionParts.FanShrinks | src/core/geom/data/poly_create.py:296-310 | a remove drops the last triangle and pops the pivot pair from `shared_verts` |
| SessionParts.FanSwitches | src/core/geom/data/poly_create.py:330-340 | a switch makes the other committed vertex of the current triangle the pivot and keeps the fan well formed |
| SessionParts.FanUndo | src/core/geom/data/poly_create.py:179-206 | removing restores the pivot pair an add pushed, whatever switches happened in between |
| SessionParts.SwitchedPivotTwice | src/core/geom/data/poly_create.py:335-340 | two switches restore `start_index` |
| SessionParts.NormalsGrow | src/core/geom/data/poly_create.py:219-223 | after an add, the normals are still the running sums of the committed triangles: the previous sum plus the cross product of the triangle just committed |
| SessionParts.NormalsShrink | src/core/geom/data/poly_create.py:273-274 | a remove from three positions on drops the last normal sum |
| SessionParts.OwnedUndo | src/core/geom/data/poly_create.py:123-131 | removing the position an add joined with a merged vertex restores `owned_verts` |
| SessionParts.OwnedShrinks | src/core/geom/data/poly_create.py:286-287 | after a remove, `owned_verts` names only the remaining positions |
| SessionParts.PointRowsGrow | src/core/geom/data/poly_create.py:140-153 | a grid point appends one point row and its index to `vert_geom_rows`; point rows always equal `len(vert_geom_rows)` |
| SessionParts.PointRowsShrink | src/core/geom/data/poly_create.py:278-284 | a remove deletes the point row only when the last position was a grid point |
| SessionParts.PointRowsUndo | src/core/geom/data/poly_create.py:140-153 | removing right after an add restores the point rows and `vert_geom_rows` |
| SessionParts.PolyRowsGrow | src/core/geom/data/poly_create.py:157-166 | an add sets the placeholder row to the position and appends a new placeholder: `k + 2` rows |
| SessionParts.PolyRowsShrink | src/core/geom/data/poly_create.py:294 | a remove truncates the triangle geometry to `last_index + 1` rows |
| SessionParts.PolyRowsUpdate | src/core/geom/data/poly_create.py:387-391 | an update keeps the rows of the committed positions; only the placeholder row moves |
| SessionParts.TriPrimGrows | src/core/geom/data/poly_create.py:168-177 | the second position adds the first triangle `0, 1, 2` to the triangle primitive, reversed when the normal is flipped |
| SessionParts.TriPrimGrowsLater | src/core/geom/data/poly_create.py:208-214 | each later add appends the new triangle, reversed when the normal is flipped: `3k` indices |
| SessionParts.TriPrimShrinks | src/core/geom/data/poly_create.py:289-305 | a remove drops the last three indices, or all of them at two positions |
| SessionParts.TriPrimUndo | src/core/geom/data/poly_create.py:168-214 | removing right after an add restores the triangle primitive |
| SessionParts.TriPrimFlips | src/core/geom/data/poly_create.py:359-374 | a flip reverses every triangle of the primitive and keeps it consistent with the toggled flag |
| SessionParts.EdgeRowsGrow | src/core/geom/data/poly_create.py:234-262 | an add appends two rows at `k = 0` and four from then on: grey from the pivot, yellow from the other shared vertex, both ending at the new position |
| SessionParts.EdgeRowsShrink | src/core/geom/data/poly_create.py:312-316 | a remove drops the last four edge rows |
| SessionParts.EdgeRowsSwitch | src/core/geom/data/poly_create.py:342-357 | a switch swaps the colours of the last four rows, keeping them consistent with the new pivot |
| SessionParts.SwitchedEdgeRowsSwap | src/core/geom/data/poly_create.py:342-357 | two colour switches of two grey/yellow pairs restore the rows |
| SessionParts.EdgeRowsUpdate | src/core/geom/data/poly_create.py:411-420 | an update moves the loose end of the last edge, and of the third last from two positions on, keeping the edge rows of every triangle consistent |
| PolySession.FreshInv | src/core/geom/data/poly_create.py:84-113 | a fresh session has no position, the triangle `[0, 1, 2]`, pivots 0, no flip, no shared pairs, nothing owned, one zero normal, and is well formed |
| PolySession.AddedInv | src/core/geom/data/poly_create.py:117-262 | an add keeps the invariant; poly rows become `k + 2`, triangle indices `3k` for `k >= 1`, edge rows grow by 2 at `k = 0` and by 4 later, point rows by 1 only for a grid point |
| PolySession.AddCommitsTriangle | src/core/geom/data/poly_create.py:179-223 | an add at `k > 1` pushes the pivot pair, keeps it, appends one triangle over the shared edge and `k + 1`, and appends the previous normal sum plus the cross product of the previous triangle |
| PolySession.RemovedInv | src/core/geom/data/poly_create.py:264-318 | a remove keeps the invariant |
| PolySession.RemoveUndoesAdd | src/core/geom/data/poly_create.py:264-318 | a remove right after an add restores the whole session, except the placeholder row, which holds the withdrawn position |
| PolySession.AddThenRemove | src/core/geom/data/poly_create.py:264-318 | the same round trip under the field-group invariants it needs |
| PolySession.RemoveIgnoresSwitch | src/core/geom/data/poly_create.py:307-310 | a switch before a remove makes no difference: the pivot pair is popped from the stack |
| PolySession.RemoveUndoesSwitchedAdd | src/core/geom/data/poly_create.py:264-318 | add, switch, remove restores the session up to the placeholder row |
| PolySession.AddIgnoresPlaceholder | src/core/geom/data/poly_create.py:157-166 | an add overwrites the placeholder row, so its old contents do not matter |
| PolySession.ReAddReplaces | src/core/geom/data/poly_create.py:117-318 | adding `a`, removing it and adding `b` equals adding `b` |
| PolySession.SwitchedInv | src/core/geom/data/poly_create.py:320-357 | a switch keeps the invariant |
| PolySession.SwitchTwice | src/core/geom/data/poly_create.py:320-357 | a switch at one position changes nothing; two switches restore `start_index`, the edge colours and everything else, and `start_index_prev` is restored except that it becomes the last index when the pivot was not the last position |
| PolySession.SwitchTwiceOfPairs | src/core/geom/data/poly_create.py:335-357 | the same for any rows ending in two grey/yellow pairs |
| PolySession.SwitchSwapsColours | src/core/geom/data/poly_create.py:342-357 | one switch keeps all but the last four edge rows and inverts the colour of those four |
| PolySession.FlippedInv | src/core/geom/data/poly_create.py:359-374 | a flip keeps the invariant |
| PolySession.FlipTwice | src/core/geom/data/poly_create.py:359-374 | two flips restore the session; with fewer than two positions a flip changes nothing |
| PolySession.UpdatedInv | src/core/geom/data/poly_create.py:376-420 | an update keeps the invariant |
| PolySession.UpdateTwice | src/core/geom/data/poly_create.py:376-420 | the second of two updates wins |
| PolyFinalize.AppearanceSpec | src/core/geom/data/poly_create.py:480-497 | the positions in the order vertices are created: each exactly once, exactly those used by a triangle |
| PolyFinalize.RowMapAt | src/core/geom/data/poly_create.py:484-494 | `verts_by_pos` sends each used position to a row among `old_count .. count - 1`, consecutive in creation order |
| PolyFinalize.VerticesOfTriangles | src/core/geom/data/poly_create.py:480-497 | the created positions have no duplicates and are committed positions |
| PolyFinalize.ToggleAllParity | src/core/geom/data/poly_create.py:516-524 | the XOR fold keeps each edge once, exactly when it occurs an odd number of times |
| PolyFinalize.ToggleAllKeeps | src/core/geom/data/poly_create.py:516-524 | every kept edge is an edge of some triangle |
| PolyFinalize.AllEdgesWithin | src/core/geom/data/poly_create.py:516-524 | the edges of triangles over a row range lie in that range |
| PolyFinalize.ToggleEdges | src/core/geom/data/poly_create.py:516-524 | the fold over the three edges of one triangle, in place |
| PolyFinalize.OrientSpec | src/core/geom/data/poly_create.py:629-640 | an edge is reversed exactly when its start row is already a start or its end row already an end |
| PolyFinalize.OrientKeepsRows | src/core/geom/data/poly_create.py:629-640 | orientation keeps the two rows of every edge |
| PolyFinalize.OrientEdges | src/core/geom/data/poly_create.py:623-643 | the orientation loop computes `Orient` and the start and end row lists |
| PolyFinalize.VisitPosition | src/core/geom/data/poly_create.py:480-497 | one corner: reuse the position's vertex or create the next row for it |
| PolyFinalize.VisitTriangle | src/core/geom/data/poly_create.py:475-526 | one triangle of new rows, with the created vertices extended only by new positions |
| PolyFinalize.AddTriangle | src/core/geom/data/poly_create.py:475-526 | one pass of the triangle loop keeps vertex creation, the row map, the triangle rows and the edge fold in step |
| PolyFinalize.BuildPolygon | src/core/geom/data/poly_create.py:470-526 | the triangle loop yields the appearance order, the row map, the mapped triangles and the XOR fold of their edges |
| PolyCommit.FinalTriangles | src/core/geom/data/poly_create.py:460-478 | `del indices[-1]` and the flip leave one triangle fewer than the fan, each of three corners |
| PolyCommit.FinalNormalIsSum | src/core/geom/data/poly_create.py:462-467 | the committed normal is the normal sum of the committed triangles |
| PolyCommit.FinalTriangleAt | src/core/geom/data/poly_create.py:475-478 | each committed triangle is the fan triangle, reversed when flipped |
| PolyCommit.FinalTrianglesCover | src/core/geom/data/poly_create.py:460-497 | `len(positions) - 2` triangles, every index below `len(positions)`, and every position used |
| PolyCommit.PositionCovered | src/core/geom/data/poly_create.py:475-497 | every committed position is a corner of some final triangle |
| PolyCommit.NewVertsExact | src/core/geom/data/poly_create.py:480-497 | exactly one new vertex per position |
| PolyCommit.CommitAppends | src/core/geom/data/poly_create.py:562-618 | the row count grows by the vertex count; old rows, polygons, triangle rows and unselected vertices are kept, and the new polygon, its triangles and rows `old_count .. count - 1` are appended |
| PolyCommit.CommitNewRows | src/core/geom/data/poly_create.py:482-599 | each new row holds its position and the polygon normal, and is joined with the owned merged vertex or is its own merged vertex |
| PolyCommit.CommitTriangles | src/core/geom/data/poly_create.py:707-712 | every corner of a new triangle is a new row holding the position of its index |
| PolyCommit.NewPolygonBorder | src/core/geom/data/poly_create.py:516-643 | the polygon's edges are the odd-count edges of its triangles, each once, each possibly reversed, all over the new rows; its vertices are rows `old_count .. count - 1` |
| PolyCommit.CommitMergedOK | src/core/geom/data/poly_create.py:500-514 | every row still names a merged vertex that names itself |
| PolyCommit.CommitPolysOK | src/core/geom/data/poly_create.py:562-576 | every polygon refers to existing rows only |
| PolyCommit.CommitTriPrimOK | src/core/geom/data/poly_create.py:707-712 | every index of the triangle primitive is an existing row |
| PolyCommit.CommitKeepsMeshOK | src/core/geom/data/poly_create.py:562-712 | a commit keeps the geometry well formed |
| PolyCommit.CommitWire | src/core/geom/data/poly_create.py:619-683 | the wire has a line from the start row of every edge of every polygon to the copy of its end row; all edges are unselected and none selected |
| PolyCommit.SessionCommit | src/core/geom/data/poly_create.py:422-768 | committing a well-formed session of `n >= 3` positions adds `n` rows and one polygon of `n - 2` triangles, keeps the geometry well formed, and gives every new row the normal sum of the committed triangles |
| PolyWrite.AppendRows | src/core/geom/data/poly_create.py:594-599 | the loop writes the positions, the normal and the merged vertices of the new rows |
| PolyWrite.AppendTriangles | src/core/geom/data/poly_create.py:707-712 | the loop appends every new triangle to the triangle primitive |
| PolyWrite.AppendWire | src/core/geom/data/poly_create.py:675-680 | the inner loop over one polygon's edges |
| PolyWrite.RebuildWire | src/core/geom/data/poly_create.py:674-683 | the loop over `ordered_polys` writes `WireOf` and the unselected start rows |
| PolyWrite.WriteCommit | src/core/geom/data/poly_create.py:562-712 | writing the rows, the triangles and the wire yields `CommitOf` |
| PolyWrite.CommitStep | src/core/geom/data/poly_create.py:460-712 | the geometry finalize writes for a session is `Committed` |
| PolyWrite.MakePolygon | src/core/geom/data/poly_create.py:475-569 | the polygon built is `NewPolygon`, its vertices in creation order |
| PolyCreate.EmptyMeshOK | src/core/geom/data/poly_create.py:573-576 | an object without geometry is well formed |
| PolyCreate.GeomDataObject.constructor | src/core/geom/data/poly_create.py:4 | a new object has no geometry and no session |
| PolyCreate.GeomDataObject.InitPolyCreation | src/core/geom/data/poly_create.py:16-115 | the session becomes `Fresh()`; the geometry is unchanged |
| PolyCreate.GeomDataObject.AddNewPolyVertex | src/core/geom/data/poly_create.py:117-262 | the session becomes `Added(old, position of the pick, grid point?, owner)` and gains one position; the object stays well formed |
| PolyCreate.GeomDataObject.RemoveNewPolyVertex | src/core/geom/data/poly_create.py:264-318 | returns False exactly at one position, and the session becomes `Removed(old)`, which is then unchanged |
| PolyCreate.GeomDataObject.SwitchNewPolyStartVertex | src/core/geom/data/poly_create.py:320-357 | the session becomes `Switched(old)` |
| PolyCreate.GeomDataObject.FlipNewPolyNormal | src/core/geom/data/poly_create.py:359-374 | the session becomes `Flipped(old)` |
| PolyCreate.GeomDataObject.UpdateNewPolygon | src/core/geom/data/poly_create.py:376-420 | the session becomes `Updated(old, pos)` |
| PolyCreate.GeomDataObject.FinalizePolyCreation | src/core/geom/data/poly_create.py:422-768 | returns False and changes nothing at fewer than three positions without cancel; a cancel returns True, ends the session and commits nothing; otherwise the session ends and the geometry becomes `Committed(old geometry, old session)` |
| PolyCreate.GeomDataObject.SetSession | src/core/geom/data/poly_create.py:117-420 | the session is replaced; nothing else changes |
| PolyCreate.AddWithin | src/core/geom/data/poly_create.py:117-262 | an add keeps the owned merged vertices inside the geometry |
| PolyCreate.OwnersGrow | src/core/geom/data/poly_create.py:123-131 | a border vertex of the object added to `owned_verts` exists in the geometry |
| PolyCreate.RemoveWithin | src/core/geom/data/poly_create.py:264-318 | a remove keeps the object well formed |
| PolyCreate.SwitchWithin | src/core/geom/data/poly_create.py:320-357 | a switch keeps the object well formed |
| PolyCreate.FlipWithin | src/core/geom/data/poly_create.py:359-374 | nothing changes below two positions, and the flag and winding are toggled otherwise |
| PolyCreate.UpdateWithin | src/core/geom/data/poly_create.py:376-420 | an update keeps the object well formed |
| PolyCreate.AddStep | src/core/geom/data/poly_create.py:117-262 | the key-by-key edits of an add compute `Added` |
| PolyCreate.GrowFan | src/core/geom/data/poly_create.py:168-262 | the edits of the fan, normals, triangle primitive and edge rows of an add |
| PolyCreate.RemoveStep | src/core/geom/data/poly_create.py:264-318 | the key-by-key edits of a remove compute `Removed`, refusing at one position |
| PolyCreate.ShrinkFan | src/core/geom/data/poly_create.py:289-310 | the edits of the fan, triangle primitive and pivots of a remove |
| PolyCreate.SwitchStep | src/core/geom/data/poly_create.py:320-357 | the edits of a switch compute `Switched` |
| PolyCreate.UpdateStep | src/core/geom/data/poly_create.py:376-420 | the edits of an update compute `Updated` |
| PolyManager.PixelRoundTrip | src/core/geom/data/poly_create.py:908-913 | decoding `r << 16 \| g << 8 \| b` and splitting it again gives back the pixel |
| PolyManager.ColorIdRoundTrip | src/core/geom/data/poly_create.py:908-913 | every 24-bit colour id is shown by exactly one pixel |
| PolyManager.GetVertexByColour | src/core/geom/data/poly_create.py:908-913 | the pixel showing a 24-bit colour id finds exactly the vertex registered under that id, and nothing when none is |
| PolyManager.PickPosOf | src/core/geom/data/poly_create.py:122-138 | a vertex of the active object is taken at the position of its merged vertex, a vertex of another object at its own position; never as a grid point |
| PolyManager.PolyCreationManager.constructor | src/core/geom/data/poly_create.py:781-792 | no active object, no picks, no objects, both flags clear |
| PolyManager.PolyCreationManager.EnterCreationMode | src/core/geom/data/poly_create.py:838-861 | right after a session ended only the ended flag is cleared; otherwise the selected objects are taken on |
| PolyManager.PolyCreationManager.ExitCreationMode | src/core/geom/data/poly_create.py:863-878 | right after a session started only the started flag is cleared; otherwise the objects are let go |
| PolyManager.PolyCreationManager.InitPolyCreation | src/core/geom/data/poly_create.py:915-949 | nothing happens without a vertex or grid point; otherwise a session starts on the vertex's object or the first selected object, whose session becomes a fresh one with that vertex or point added, with one pick, started and not ended; the selected objects are unchanged |
| PolyManager.PolyCreationManager.StartOn | src/core/geom/data/poly_create.py:937-946 | the object's session is a fresh one with the pick added; the picks are that one pick |
| PolyManager.PolyCreationManager.AddPolyVertex | src/core/geom/data/poly_create.py:974-1006 | clicking a temporary vertex or an already picked one finalizes; a new vertex or grid point is appended to the picks and the active session becomes `Added` with its position, the flags unchanged; without a grid point nothing changes; the selected objects are never changed |
| PolyManager.PolyCreationManager.CommitPick | src/core/geom/data/poly_create.py:1004-1006 | the picks grow by one, in step with the object's positions, and the session becomes `Added` |
| PolyManager.PolyCreationManager.RemovePolyVertex | src/core/geom/data/poly_create.py:1008-1015 | the last pick is dropped; the session is cancelled when none remains, and becomes `Removed` otherwise; the selected objects are unchanged |
| PolyManager.PolyCreationManager.SwitchStartVertex | src/core/geom/data/poly_create.py:1017-1019 | the active session becomes `Switched` |
| PolyManager.PolyCreationManager.FlipPolyNormal | src/core/geom/data/poly_create.py:1021-1023 | the active session becomes `Flipped` |
| PolyManager.PolyCreationManager.FinalizePolyCreation | src/core/geom/data/poly_create.py:1025-1038 | a refused finalize changes no manager or object state; otherwise no object is active, the picks are empty, the session has ended, the object is left well formed, and the geometry is committed unless cancelled; the selected objects are unchanged |
| PolyManager.PolyCreationManager.EndSession | src/core/geom/data/poly_create.py:1031-1035 | the active object and the picks are forgotten, and the flags mark the session as ended |
| Box.SideTable | src/core/geom/prim/box.py:185-197 | the planes are `yz`, `zx`, `xy` for axes 0, 1, 2, each with directions -1 and +1, and the side normal is the direction on axis i and 0 elsewhere |
| Box.KeyPosOf | src/core/geom/prim/box.py:235-250 | a grid vertex's position is determined by its integer key, so equal keys mean equal positions |
| Box.UVInUnit | src/core/geom/prim/box.py:255-258 | the texture coordinates of every grid vertex lie in the unit square |
| Box.SideVertices | src/core/geom/prim/box.py:218-259 | one side's vertices, ids running row-major, `j` fastest, over `(segs1 + 1) * (segs2 + 1)` ids |
| Box.RowVertices | src/core/geom/prim/box.py:228-259 | one grid row of a side with `segs1 + 1` vertices |
| Box.NewVertex | src/core/geom/prim/box.py:233-259 | a border vertex reuses the position stored under its key and stores a new one otherwise; an inner vertex always gets a fresh position |
| Box.RowsFlattened | src/core/geom/prim/box.py:228-259 | the row-major id `i * (segs1 + 1) + j` names the vertex of row i, column j |
| Box.SharedIff | src/core/geom/prim/box.py:239-253 | two grid vertices share a position object exactly when both lie on a side border and have the same key, or they are the same grid vertex |
| Box.AllShared | src/core/geom/prim/box.py:204-259 | the same for every pair of grid vertices of the whole box |
| Box.DefineVertices | src/core/geom/prim/box.py:204-259 | the vertex loop lays out all six sides and shares exactly the border positions with equal keys |
| Box.SideFaceCount | src/core/geom/prim/box.py:277-291 | a side yields `segs1 * segs2` polygons in row-major order |
| Box.CellFaceValid | src/core/geom/prim/box.py:279-291 | each cell's two triangles use `vi1 = i * (segs1 + 1) + j`, `vi2 = vi1 + 1`, `vi3 = vi2 + segs1`, `vi4 = vi3 + 1`, all valid ids of the side, with the side's smoothing id |
| Box.WindingReversed | src/core/geom/prim/box.py:285-288 | the direction -1 triangles are the reversals, up to rotation, of the direction +1 ones |
| Box.SideOrder | src/core/geom/prim/box.py:199-219 | sides 0 to 5 are `xy`, `yz`, `zx` (planes 2, 0, 1), each with direction +1 then -1, the order in which CPython 2.7 iterates `sides` and `side_pair` |
| Box.FacesUpToSmoothing | src/core/geom/prim/box.py:261-293 | every face's smoothing id is the number of its side, 0 to 5, in visiting order |
| Box.DefineFaces | src/core/geom/prim/box.py:261-295 | the face loop yields the faces of all six sides in order |
| Box.SideFacesLoop | src/core/geom/prim/box.py:277-291 | the loop over the cell rows of one side |
| Box.FaceRow | src/core/geom/prim/box.py:279-291 | the loop over the cells of one row |
| Box.WithAt | src/core/geom/prim/box.py:373-380 | setting one dimension leaves the other two alone |
| Box.CreationSizeBounds | src/core/geom/prim/box.py:329-367 | `update_creation_size` stores `abs(x)` and `abs(y)` clamped to at least 0.001, and `abs(z)` clamped likewise with the sign of z; dimensions not given are kept |
| Box.ValidAsWrittenRejectsDownwards | src/core/geom/prim/box.py:479-481 | as written, a box dragged 5 units down on a minimal footprint is invalid while the one dragged up is valid |
| Box.ValidIff | src/core/geom/prim/box.py:479-481 | the corrected test holds exactly when some dimension exceeds 0.001 in magnitude; it ignores the sign of z and agrees with the written test on non-negative sizes |
| Box.BoxPrim.constructor | src/core/geom/prim/box.py:167-175 | one segment and unit size per axis |
| Box.BoxPrim.SetSegments | src/core/geom/prim/box.py:306-313 | returns False and changes nothing for equal counts; otherwise stores them and returns True |
| Box.BoxPrim.SetDimension | src/core/geom/prim/box.py:373-380 | returns False and changes nothing for an equal value; otherwise stores it in that dimension only and returns True |
| Box.BoxPrim.UpdateCreationSize | src/core/geom/prim/box.py:329-367 | the size becomes `CreationSize` of the old size; the segments are unchanged |
| Box.BoxPrim.IsValid | src/core/geom/prim/box.py:479-481 | valid exactly when some dimension exceeds 0.001 in magnitude (corrected, see Findings) |
| Box.BoxPrim.DefineGeomData | src/core/geom/prim/box.py:177-295 | the vertices of the six sides with their shared positions, and the faces of `FacesUpTo(segments, 6)` |

## Left out

- Rendering: Panda3D vertex writers, `reverse_in_place`, node attach and removal, bounds and picking masks. Geometry is modelled as row sequences whose counts and contents are tracked.
- The raw byte-handle splicing of the finalize (`set_subdata`, `get_subdata`, doubled position arrays). Only the rows and primitives they produce are modelled.
- Picking colours written into the new rows and edges. They come from a foreign registry.
- Normalisation of normals. The finalized normal and the row normals are the exact, unnormalised sums. Over reals this has the same direction.
- The per-add rewrite of the temporary triangle normals (lines 163-166 and 224-232) and the `Plane` normal that `update_new_polygon` writes at one position (lines 393-409). These rows are display-only floating-point output. The model keeps the positions of the temporary triangle rows and the running normal sums, not their normals.
- Merged edges and the reselection of picked vertices and edges through `set_selected` and `subobjs_to_select` (lines 528-560 and 742-762). They depend on the edge registry, which is outside this model.
- The polygon part of the selection state, and `update_center_pos` and `update_normal`. These are foreign calls.
- The `merged_verts_by_pos` branch of vertex creation. Each position is visited once, so it never applies to a second vertex. The model gives every position that is not owned its own merged vertex.
- `prepare_poly_creation` and `end_poly_creation` (picking masks), `Mgr` factories and states, cursor changes, tasks and history. These are engine and UI plumbing.
- Coordinate transforms of grid points and foreign vertices (`get_relative_point`, `get_pos(origin)`). The caller passes positions already in the object's coordinates.
- `__update_polygon`, `__check_vertex_under_mouse` and `__get_point_on_grid`. These are mouse and task I/O. Their results (a pixel, whether a vertex is under the mouse, an optional grid point) are parameters of the manager's methods.
- The rounding of pixel components in `__get_vertex`. The model starts from the three colour bytes.
- Whether a vertex is a border vertex (`is_border_vertex`). The caller supplies it as a flag of the pick.
- The order of the box sides comes from dictionary iteration order. The source walks the dictionaries `sides` and `side_pair`. The model takes the order CPython 2.7 gives on a 64-bit build: `xy`, `yz`, `zx`, each with direction +1 before -1. Smoothing ids, vertex data and faces follow this order. Another interpreter or a 32-bit build could visit the sides differently. That would renumber the smoothing ids and reorder the faces, but the side table and the shared positions would not change.
- Floating-point rounding. Positions, sizes, UVs and normals are reals.
- Box origin and pivot transforms, `finalize`, `create`, `BoxManager` creation phases, `get_data_to_store` and `set_property`/`get_property`. These are engine and UI plumbing.
- The comparison of vertex objects when `sorted` orders an edge's two vertices (lines 518-519). The class that defines it is not part of this model. The model orders an edge's two vertices by row, and rows are handed out in creation order. This order decides each edge's direction before orientation. It therefore also decides which border edges orientation reverses and which row each wire line starts from. A different comparison could give other edge directions.
- Error paths that raise in the source are left out. The modelled callers never reach them, and the model excludes them or handles them as follows:
  - `remove_new_poly_vertex`, `switch_new_poly_start_vertex` and `update_new_polygon` on a session with no committed position. `GeomDataObject.RemoveNewPolyVertex`, `SwitchNewPolyStartVertex` and `UpdateNewPolygon` require at least one position. The manager always commits one when it starts a session.
  - `__init_poly_creation` on a grid point while no object is selected (`self._geom_data_objs[0]` raises IndexError). `PolyCreationManager.InitPolyCreation` requires a selected object in that case only.
  - `1. / segs` for a segment count of 0, which raises ZeroDivisionError. `Box.SegsOK` requires every count to be positive.
  - `update_creation_size` given `x` without `y`, where `abs(None)` raises TypeError. `Box.CreationSize` takes `x` and `y` as one optional pair.
  - `list.remove` of an absent value, which raises ValueError. `Seqs.RemoveFirst` keeps the list unchanged then, but each call in the model is guarded by a membership test, as in the source.
- Box.CellFaceValid: the vertex data in each triangle is named by vertex id, not by the `vert_data` dictionary entry itself.
- Box.BoxPrim.UpdateCreationSize: the origin transforms and the `finalize` call of `update_creation_size` are not modelled, only the stored sizes.

## Findings

| source | as written | input that shows it | evidently intended | confidence | as-written member | corrected member |
|---|---|---|---|---|---|---|
| src/core/geom/prim/box.py:479-481 | `is_valid` compares the largest signed size with 0.001, yet `update_creation_size` keeps the sign of z | drag out a footprint clamped to x = y = 0.001 and a height of z = -5: the largest size is 0.001, so the box is rejected, while z = +5 is accepted | a box is valid when some dimension exceeds 0.001 in magnitude, whatever the drag direction | medium, not executed | Box.ValidAsWritten, Box.ValidAsWrittenRejectsDownwards | Box.Valid, Box.ValidIff, Box.BoxPrim.IsValid |
