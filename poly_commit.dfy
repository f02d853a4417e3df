/** What `finalize_poly_creation` (src/core/geom/data/poly_create.py) commits to the
    geometry of the object: one vertex row per committed position, in the order the
    triangles first use them, the polygon made of the committed triangles and its
    border edges, and the rebuilt wire primitive. A vertex, like its row, is named by
    a number; a merged vertex by the row of its first member. */
module PolyCommit {

  import opened Seqs
  import opened Vectors
  import opened Triangulation
  import opened SessionParts
  import opened PolySession
  import opened PolyFinalize

  /** A polygon as the rows of its triangles, of its border edges (in the direction
      the edge was stored) and of its vertices. */
  datatype Polygon = Polygon(triangles: seq<seq<nat>>, edges: seq<(nat, nat)>, verts: seq<nat>)

  /** The part of a geometry data object that a commit writes: its row count
      (`_data_row_count`), per row the position, normal and merged vertex, the
      polygons in creation order (`_ordered_polys`), the rows of the shaded triangle
      primitive, and the vertex and edge selection lists and the wire primitive. */
  datatype Mesh = Mesh(
    rowCount: nat,
    rowPos: seq<Vec3>,
    rowNormal: seq<Vec3>,
    rowMerged: seq<nat>,
    polys: seq<Polygon>,
    triPrim: seq<nat>,
    vertUnsel: seq<nat>,
    wire: seq<(nat, nat)>,
    edgeUnsel: seq<nat>,
    edgeSel: seq<nat>)

  /** Every row the polygon refers to lies in `lo .. hi - 1`. */
  ghost predicate PolyWithin(p: Polygon, lo: nat, hi: nat)
  {
    && (forall j :: 0 <= j < |p.triangles| ==> |p.triangles[j]| == 3)
    && (forall j, c :: 0 <= j < |p.triangles| && 0 <= c < 3 ==> lo <= p.triangles[j][c] < hi)
    && (forall i :: 0 <= i < |p.edges| ==> lo <= p.edges[i].0 < hi && lo <= p.edges[i].1 < hi)
    && (forall i :: 0 <= i < |p.verts| ==> lo <= p.verts[i] < hi)
  }

  /** The merged vertex of a row is named by one of its members at or before it,
      which names itself. */
  ghost predicate MergedOK(merged: seq<nat>)
  {
    forall r :: 0 <= r < |merged| ==> merged[r] <= r && merged[merged[r]] == merged[r]
  }

  /** Rows are numbered from 0, and every polygon and triangle uses existing rows. */
  ghost predicate MeshOK(m: Mesh)
  {
    && |m.rowPos| == m.rowCount && |m.rowNormal| == m.rowCount && |m.rowMerged| == m.rowCount
    && MergedOK(m.rowMerged)
    && (forall j :: 0 <= j < |m.polys| ==> PolyWithin(m.polys[j], 0, m.rowCount))
    && (forall i :: 0 <= i < |m.triPrim| ==> m.triPrim[i] < m.rowCount)
  }

  /** The merged vertices a session joins exist in the mesh. */
  ghost predicate OwnersIn(owned: map<nat, nat>, m: Mesh)
  {
    forall q :: q in owned ==> owned[q] < |m.rowMerged| && m.rowMerged[owned[q]] == owned[q]
  }

  // ---------------------------------------------------------------------------
  // What the session hands over
  // ---------------------------------------------------------------------------

  /** The committed triangles: the fan without the current triangle (`del
      indices[-1]`), each reversed when the normal is flipped (`tri_data[::-1]`). */
  function FinalTriangles(t: TmpData): (r: seq<seq<nat>>)
    requires Shaped(t)
    ensures |r| == |t.vertIndices| - 1 && forall j :: 0 <= j < |r| ==> |r[j]| == 3
  {
    var ts := DropLast(t.vertIndices);
    assert forall j :: 0 <= j < |ts| ==> IsTri(t.vertIndices[j], j + 2) && ts[j] == t.vertIndices[j];
    Oriented(ts, t.flipNormal)
  }

  /** The normal every new vertex gets: the last running normal, negated when the
      normal is flipped (normalisation is not modelled). */
  function FinalNormal(t: TmpData): Vec3
    requires Shaped(t)
  {
    if t.flipNormal then Neg(Last(t.normals)) else Last(t.normals)
  }

  /** The new vertices' normal is the normal sum of the committed triangles in the
      winding they are committed with: winding and normal agree. */
  lemma FinalNormalIsSum(t: TmpData)
    requires Inv(t)
    ensures IndicesBelow(FinalTriangles(t), |t.vertPos|)
    ensures FinalNormal(t) == NormalSum(t.vertPos, FinalTriangles(t))
  {
    var ts := DropLast(t.vertIndices);
    NormalsOfLast(t.vertPos, ts);
    if t.flipNormal {
      NormalSumOfReversed(t.vertPos, ts);
    }
  }

  lemma FinalTriangleAt(t: TmpData, j: nat)
    requires Shaped(t) && j < |FinalTriangles(t)|
    ensures FinalTriangles(t)[j] == if t.flipNormal then Reverse3(t.vertIndices[j]) else t.vertIndices[j]
    ensures IsTri(t.vertIndices[j], j + 2)
  {
  }

  /** A committed position is used by the triangle that committed it, or by the first
      triangle for the first three. */
  lemma PositionCovered(t: TmpData, q: nat)
    requires Shaped(t) && q < |t.vertPos| && |t.vertPos| >= 3
    ensures q in Flatten(FinalTriangles(t))
  {
    var vi := t.vertIndices;
    var j := if q <= 2 then 0 else q - 2;
    FinalTriangleAt(t, j);
    assert q in vi[j] by {
      if q <= 2 {
        assert vi[0] == [0, 1, 2];
      } else {
        assert vi[j][2] == q;
      }
    }
    assert q in FinalTriangles(t)[j];
    FlattenOfTrianglesHas(FinalTriangles(t), q);
  }

  /** From three committed positions on, there are `n - 2` committed triangles, and
      their indices are exactly the committed positions 0 .. n - 1. */
  lemma FinalTrianglesCover(t: TmpData)
    requires Shaped(t) && |t.vertPos| >= 3
    ensures |FinalTriangles(t)| == |t.vertPos| - 2
    ensures IndicesBelow(FinalTriangles(t), |t.vertPos|)
    ensures forall q: nat :: q in Flatten(FinalTriangles(t)) <==> q < |t.vertPos|
  {
    var n := |t.vertPos|;
    var ft := FinalTriangles(t);
    forall j | 0 <= j < |ft| ensures ft[j][0] < n && ft[j][1] < n && ft[j][2] < n {
      FinalTriangleAt(t, j);
    }
    forall q: nat ensures q in Flatten(ft) <==> q < n {
      if q < n {
        PositionCovered(t, q);
      }
      if q in Flatten(ft) {
        CornerBelow(ft, n, q);
      }
    }
  }

  /** The position indices in the order the triangle loop first meets them
      (`poly_verts`); the `i`-th of them becomes row `base + i`. */
  function NewVerts(t: TmpData): seq<nat>
    requires Shaped(t)
  {
    Appearance(Flatten(FinalTriangles(t)))
  }

  /** Every committed position gets exactly one new vertex, and every new vertex stands
      on a committed position. */
  lemma NewVertsExact(t: TmpData)
    requires Shaped(t) && |t.vertPos| >= 3
    ensures |NewVerts(t)| == |t.vertPos| && NoDup(NewVerts(t))
    ensures forall q: nat :: q in NewVerts(t) <==> q < |t.vertPos|
  {
    FinalTrianglesCover(t);
    AppearanceSpec(Flatten(FinalTriangles(t)));
    NoDupBelow(NewVerts(t), |t.vertPos|);
  }

  // ---------------------------------------------------------------------------
  // The commit
  // ---------------------------------------------------------------------------

  function Range(base: nat, k: nat): (r: seq<nat>)
    ensures |r| == k && forall i :: 0 <= i < k ==> r[i] == base + i
  {
    seq(k, i requires 0 <= i < k => base + i)
  }

  /** The merged vertex of the `i`-th new vertex: the owned one when its position
      index is owned, else a new one named by the vertex's own row. */
  function MergedOf(owned: map<nat, nat>, order: seq<nat>, base: nat): (r: seq<nat>)
    ensures |r| == |order|
    ensures forall i :: 0 <= i < |order| ==> r[i] == if order[i] in owned then owned[order[i]] else base + i
  {
    seq(|order|, i requires 0 <= i < |order| => if order[i] in owned then owned[order[i]] else base + i)
  }

  /** The committed positions of the new vertices, in creation order. */
  function PositionsOf(vp: seq<Vec3>, order: seq<nat>): seq<Vec3>
    requires forall i :: 0 <= i < |order| ==> order[i] < |vp|
  {
    seq(|order|, i requires 0 <= i < |order| => vp[order[i]])
  }

  /** `k` copies of `v`: the polygon normal written to each new row. */
  function Repeat(v: Vec3, k: nat): seq<Vec3>
  {
    seq(k, i requires 0 <= i < k => v)
  }

  /** The edges of all polygons in order. */
  function PolyEdges(polys: seq<Polygon>): seq<(nat, nat)>
  {
    if polys == [] then [] else PolyEdges(DropLast(polys)) + Last(polys).edges
  }

  /** `lines_prim.add_vertices(row1, row2 + count)`: every edge line runs from its
      start row to the copy of its end row in the second half of the edge rows. */
  function WireOf(es: seq<(nat, nat)>, count: nat): (r: seq<(nat, nat)>)
    ensures |r| == |es| && forall i :: 0 <= i < |es| ==> r[i] == (es[i].0, es[i].1 + count)
  {
    seq(|es|, i requires 0 <= i < |es| => (es[i].0, es[i].1 + count))
  }

  /** The triangles `ft` of position indices as triangles of the new rows on top of
      `base` rows (`triangles`). */
  function NewTriangleRows(ft: seq<seq<nat>>, base: nat): (r: seq<seq<nat>>)
    requires forall j :: 0 <= j < |ft| ==> |ft[j]| == 3
    ensures |r| == |ft| && forall j :: 0 <= j < |r| ==> |r[j]| == 3
  {
    TrianglesKeyed(ft, base);
    MapTris(ft, RowMap(Appearance(Flatten(ft)), base))
  }

  /** The border edges of triangles of rows, each oriented as the edge loop stores it. */
  function BorderEdges(triRows: seq<seq<nat>>): seq<(nat, nat)>
    requires forall j :: 0 <= j < |triRows| ==> |triRows[j]| == 3
  {
    Orient(ToggleAll(AllEdges(triRows)))
  }

  /** The polygon made of the triangles `ft` of position indices, on top of `base`
      rows. */
  function NewPolygon(ft: seq<seq<nat>>, base: nat): Polygon
    requires forall j :: 0 <= j < |ft| ==> |ft[j]| == 3
  {
    var triRows := NewTriangleRows(ft, base);
    Polygon(triRows, BorderEdges(triRows), Range(base, |Appearance(Flatten(ft))|))
  }

  /** The mesh after committing the triangles `ft` over the positions `vp`, with the
      normal `normal` and the owned merged vertices `owned`. */
  function CommitOf(m: Mesh, ft: seq<seq<nat>>, vp: seq<Vec3>, normal: Vec3, owned: map<nat, nat>): Mesh
    requires IndicesBelow(ft, |vp|)
  {
    VerticesOfTriangles(ft, |vp|);
    var order := Appearance(Flatten(ft));
    var poly := NewPolygon(ft, m.rowCount);
    var count := m.rowCount + |order|;
    var polys := m.polys + [poly];
    Mesh(count,
         m.rowPos + PositionsOf(vp, order),
         m.rowNormal + Repeat(normal, |order|),
         m.rowMerged + MergedOf(owned, order, m.rowCount),
         polys,
         m.triPrim + Flatten(poly.triangles),
         m.vertUnsel + Range(m.rowCount, |order|),
         WireOf(PolyEdges(polys), count),
         Starts(PolyEdges(polys)),
         [])
  }

  /** The mesh after `finalize_poly_creation` commits the session `t`. */
  function Committed(m: Mesh, t: TmpData): Mesh
    requires Shaped(t) && |t.vertPos| >= 3
  {
    FinalTrianglesCover(t);
    CommitOf(m, FinalTriangles(t), t.vertPos, FinalNormal(t), t.ownedVerts)
  }

  // ---------------------------------------------------------------------------
  // What a commit does
  // ---------------------------------------------------------------------------

  /** The rows, polygons, primitive rows and unselected vertices the mesh had stay as
      they were; one row per new vertex, the new polygon and its triangles' rows
      follow them. */
  lemma CommitAppends(m: Mesh, ft: seq<seq<nat>>, vp: seq<Vec3>, normal: Vec3, owned: map<nat, nat>)
    requires MeshOK(m) && IndicesBelow(ft, |vp|)
    ensures var m' := CommitOf(m, ft, vp, normal, owned);
      var k := |Appearance(Flatten(ft))|;
      && m'.rowCount == m.rowCount + k
      && |m'.rowPos| == m'.rowCount && |m'.rowNormal| == m'.rowCount && |m'.rowMerged| == m'.rowCount
      && m'.rowPos[..m.rowCount] == m.rowPos && m'.rowNormal[..m.rowCount] == m.rowNormal
      && m'.rowMerged[..m.rowCount] == m.rowMerged
      && m'.polys == m.polys + [NewPolygon(ft, m.rowCount)]
      && m'.triPrim == m.triPrim + Flatten(NewPolygon(ft, m.rowCount).triangles)
      && m'.vertUnsel == m.vertUnsel + Range(m.rowCount, k)
  {
    var m' := CommitOf(m, ft, vp, normal, owned);
    assert m'.rowPos[..m.rowCount] == m.rowPos;
    assert m'.rowNormal[..m.rowCount] == m.rowNormal;
    assert m'.rowMerged[..m.rowCount] == m.rowMerged;
  }

  /** `r` is the new row whose vertex stands on position index `q`. */
  ghost predicate RowOf(order: seq<nat>, base: nat, r: nat, q: nat)
  {
    base <= r < base + |order| && order[r - base] == q
  }

  lemma MappedCorner(ft: seq<seq<nat>>, order: seq<nat>, base: nat, j: nat, c: nat)
    requires KeysIn(ft, RowMap(order, base)) && j < |ft| && c < 3
    ensures RowOf(order, base, MapTris(ft, RowMap(order, base))[j][c], ft[j][c])
  {
    var rm := RowMap(order, base);
    assert MapTris(ft, rm)[j] == TriOfRows(ft[j], rm);
    assert MapTris(ft, rm)[j][c] == rm[ft[j][c]];
    RowMapAt(order, base, ft[j][c]);
  }

  /** Corner `c` of triangle `j` of the new polygon is the new row of corner `c` of
      triangle `j` of `ft`. */
  lemma NewPolygonCorners(ft: seq<seq<nat>>, base: nat)
    requires forall j :: 0 <= j < |ft| ==> |ft[j]| == 3
    ensures var tris := NewTriangleRows(ft, base);
      forall j, c :: 0 <= j < |tris| && 0 <= c < 3 ==> RowOf(Appearance(Flatten(ft)), base, tris[j][c], ft[j][c])
  {
    var order := Appearance(Flatten(ft));
    TrianglesKeyed(ft, base);
    var tris := NewTriangleRows(ft, base);
    forall j, c | 0 <= j < |tris| && 0 <= c < 3 ensures RowOf(order, base, tris[j][c], ft[j][c]) {
      MappedCorner(ft, order, base, j, c);
    }
  }

  /** Row `r`, created for position index `q` on top of the old rows. */
  lemma NewRowAt(oldPos: seq<Vec3>, oldNormal: seq<Vec3>, oldMerged: seq<nat>, order: seq<nat>,
                 vp: seq<Vec3>, normal: Vec3, owned: map<nat, nat>, r: nat, q: nat)
    requires |oldPos| == |oldNormal| == |oldMerged|
    requires forall i :: 0 <= i < |order| ==> order[i] < |vp|
    requires RowOf(order, |oldPos|, r, q)
    ensures q < |vp| && r < |oldPos| + |order|
    ensures (oldPos + PositionsOf(vp, order))[r] == vp[q]
    ensures (oldNormal + Repeat(normal, |order|))[r] == normal
    ensures (oldMerged + MergedOf(owned, order, |oldPos|))[r] == if q in owned then owned[q] else r
  {
    var i := r - |oldPos|;
    assert order[i] == q;
    assert (oldPos + PositionsOf(vp, order))[r] == PositionsOf(vp, order)[i];
    assert (oldNormal + Repeat(normal, |order|))[r] == Repeat(normal, |order|)[i];
    assert (oldMerged + MergedOf(owned, order, |oldPos|))[r] == MergedOf(owned, order, |oldPos|)[i];
  }

  /** Each new row stands on the position index it was created for, has the
      polygon's normal, and joins the merged vertex its position index owns or starts
      a merged vertex of its own. */
  lemma CommitNewRows(m: Mesh, ft: seq<seq<nat>>, vp: seq<Vec3>, normal: Vec3, owned: map<nat, nat>)
    requires MeshOK(m) && IndicesBelow(ft, |vp|)
    ensures var m' := CommitOf(m, ft, vp, normal, owned);
      var order := Appearance(Flatten(ft));
      && |m'.rowPos| == m'.rowCount && |m'.rowNormal| == m'.rowCount && |m'.rowMerged| == m'.rowCount
      && (forall r :: m.rowCount <= r < m'.rowCount ==> m'.rowNormal[r] == normal)
      && forall r: nat, q: nat :: RowOf(order, m.rowCount, r, q) ==>
           && q < |vp| && r < m'.rowCount
           && m'.rowPos[r] == vp[q]
           && m'.rowMerged[r] == if q in owned then owned[q] else r
  {
    var order := Appearance(Flatten(ft));
    VerticesOfTriangles(ft, |vp|);
    forall r: nat, q: nat | RowOf(order, m.rowCount, r, q)
      ensures q < |vp| && r < m.rowCount + |order|
      ensures (m.rowPos + PositionsOf(vp, order))[r] == vp[q]
      ensures (m.rowNormal + Repeat(normal, |order|))[r] == normal
      ensures (m.rowMerged + MergedOf(owned, order, m.rowCount))[r] == if q in owned then owned[q] else r
    {
      NewRowAt(m.rowPos, m.rowNormal, m.rowMerged, order, vp, normal, owned, r, q);
    }
    forall r | m.rowCount <= r < m.rowCount + |order| ensures (m.rowNormal + Repeat(normal, |order|))[r] == normal {
      assert (m.rowNormal + Repeat(normal, |order|))[r] == Repeat(normal, |order|)[r - m.rowCount];
    }
  }

  /** The new polygon's triangles use new rows only, and stand on the positions of
      `ft` corner by corner: the polygon has the shape and the winding of `ft`. */
  lemma CommitTriangles(m: Mesh, ft: seq<seq<nat>>, vp: seq<Vec3>, normal: Vec3, owned: map<nat, nat>)
    requires MeshOK(m) && IndicesBelow(ft, |vp|)
    ensures var m' := CommitOf(m, ft, vp, normal, owned);
      var tris := NewTriangleRows(ft, m.rowCount);
      && NewPolygon(ft, m.rowCount).triangles == tris
      && |tris| == |ft| && |m'.rowPos| == m'.rowCount
      && forall j, c :: 0 <= j < |ft| && 0 <= c < 3 ==>
           && |tris[j]| == 3 && ft[j][c] < |vp|
           && m.rowCount <= tris[j][c] < m'.rowCount
           && m'.rowPos[tris[j][c]] == vp[ft[j][c]]
  {
    var tris := NewTriangleRows(ft, m.rowCount);
    var pos := CommitOf(m, ft, vp, normal, owned).rowPos;
    forall j, c | 0 <= j < |ft| && 0 <= c < 3
      ensures |tris[j]| == 3 && ft[j][c] < |vp|
      ensures m.rowCount <= tris[j][c] < |pos| && pos[tris[j][c]] == vp[ft[j][c]]
    {
      CornerStands(m, ft, vp, normal, owned, j, c);
    }
  }

  lemma CornerStands(m: Mesh, ft: seq<seq<nat>>, vp: seq<Vec3>, normal: Vec3, owned: map<nat, nat>, j: nat, c: nat)
    requires MeshOK(m) && IndicesBelow(ft, |vp|) && j < |ft| && c < 3
    ensures var tris := NewTriangleRows(ft, m.rowCount);
      var pos := CommitOf(m, ft, vp, normal, owned).rowPos;
      && |tris[j]| == 3 && ft[j][c] < |vp|
      && m.rowCount <= tris[j][c] < |pos| && pos[tris[j][c]] == vp[ft[j][c]]
  {
    var order := Appearance(Flatten(ft));
    VerticesOfTriangles(ft, |vp|);
    TrianglesKeyed(ft, m.rowCount);
    MappedCorner(ft, order, m.rowCount, j, c);
    NewRowAt(m.rowPos, m.rowNormal, m.rowMerged, order, vp, normal, owned, NewTriangleRows(ft, m.rowCount)[j][c], ft[j][c]);
  }

  /** Each corner of the new polygon is one of the new rows. */
  lemma NewCornerWithin(ft: seq<seq<nat>>, base: nat, j: nat, c: nat)
    requires forall j :: 0 <= j < |ft| ==> |ft[j]| == 3
    requires j < |ft| && c < 3
    ensures var tris := NewTriangleRows(ft, base);
      |tris[j]| == 3 && base <= tris[j][c] < base + |Appearance(Flatten(ft))|
  {
    TrianglesKeyed(ft, base);
    MappedCorner(ft, Appearance(Flatten(ft)), base, j, c);
  }

  /** The border edge at `i` of the new polygon joins two new rows. */
  lemma NewEdgeWithin(ft: seq<seq<nat>>, base: nat, i: nat)
    requires forall j :: 0 <= j < |ft| ==> |ft[j]| == 3
    requires i < |NewPolygon(ft, base).edges|
    ensures var p := NewPolygon(ft, base);
      var hi := base + |Appearance(Flatten(ft))|;
      base <= p.edges[i].0 < hi && base <= p.edges[i].1 < hi
  {
    var tris := NewTriangleRows(ft, base);
    var hi := base + |Appearance(Flatten(ft))|;
    var b := ToggleAll(AllEdges(tris));
    forall j, c | 0 <= j < |tris| && 0 <= c < 3 ensures base <= tris[j][c] < hi {
      NewCornerWithin(ft, base, j, c);
    }
    assert b[i] in b;
    ToggleAllKeeps(AllEdges(tris), b[i]);
    AllEdgesWithin(tris, base, hi, b[i]);
    OrientKeepsRows(b, i);
  }

  /** The border of the new polygon: the edges used by an odd number of its
      triangles, each once, each stored as found or reversed, and each joining two new
      rows; its vertices are the new rows. */
  lemma NewPolygonBorder(ft: seq<seq<nat>>, base: nat)
    requires forall j :: 0 <= j < |ft| ==> |ft[j]| == 3
    ensures var p := NewPolygon(ft, base);
      var k := |Appearance(Flatten(ft))|;
      var b := ToggleAll(AllEdges(p.triangles));
      && NoDup(b) && (forall e :: e in b <==> Odd(Count(AllEdges(p.triangles), e)))
      && |p.edges| == |b|
      && (forall i :: 0 <= i < |b| ==> p.edges[i] == b[i] || p.edges[i] == Swap(b[i]))
      && (forall i :: 0 <= i < |b| ==> base <= p.edges[i].0 < base + k && base <= p.edges[i].1 < base + k)
      && p.verts == Range(base, k)
  {
    var p := NewPolygon(ft, base);
    var b := ToggleAll(AllEdges(p.triangles));
    ToggleAllParity(AllEdges(p.triangles));
    forall i | 0 <= i < |b| ensures p.edges[i] == b[i] || p.edges[i] == Swap(b[i]) {
      OrientKeepsRows(b, i);
    }
    forall i | 0 <= i < |b|
      ensures base <= p.edges[i].0 < base + |Appearance(Flatten(ft))|
      ensures base <= p.edges[i].1 < base + |Appearance(Flatten(ft))|
    {
      NewEdgeWithin(ft, base, i);
    }
  }

  /** Appending rows that each join an existing merged vertex or start their own
      keeps the merged vertices well named. */
  lemma MergedAppend(merged: seq<nat>, added: seq<nat>)
    requires MergedOK(merged)
    requires forall i :: 0 <= i < |added| ==>
      added[i] == |merged| + i || (added[i] < |merged| && merged[added[i]] == added[i])
    ensures MergedOK(merged + added)
  {
    var s := merged + added;
    forall r | 0 <= r < |s| ensures s[r] <= r && s[s[r]] == s[r] {
      if r >= |merged| {
        var i := r - |merged|;
        assert s[r] == added[i];
        if added[i] != |merged| + i {
          assert s[added[i]] == merged[added[i]];
        }
      }
    }
  }

  lemma PolyWithinWider(p: Polygon, hi: nat, hi': nat)
    requires PolyWithin(p, 0, hi) && hi <= hi'
    ensures PolyWithin(p, 0, hi')
  {
  }

  /** The new polygon uses existing rows once the new rows are added. */
  lemma NewPolygonWithin(ft: seq<seq<nat>>, base: nat)
    requires forall j :: 0 <= j < |ft| ==> |ft[j]| == 3
    ensures PolyWithin(NewPolygon(ft, base), base, base + |Appearance(Flatten(ft))|)
  {
    var p := NewPolygon(ft, base);
    NewPolygonBorder(ft, base);
    forall j, c | 0 <= j < |p.triangles| && 0 <= c < 3
      ensures base <= p.triangles[j][c] < base + |Appearance(Flatten(ft))|
    {
      NewCornerWithin(ft, base, j, c);
    }
  }

  /** The rows of a list of triangles whose corners lie below `hi`. */
  lemma FlattenBelow(tris: seq<seq<nat>>, hi: nat)
    requires forall j :: 0 <= j < |tris| ==> |tris[j]| == 3
    requires forall j, c :: 0 <= j < |tris| && 0 <= c < 3 ==> tris[j][c] < hi
    ensures forall i :: 0 <= i < |Flatten<nat>(tris)| ==> Flatten<nat>(tris)[i] < hi
  {
    forall i | 0 <= i < |Flatten<nat>(tris)| ensures Flatten<nat>(tris)[i] < hi {
      var x := Flatten<nat>(tris)[i];
      FlattenOfTrianglesHas(tris, x);
      var j :| 0 <= j < |tris| && x in tris[j];
      assert x == tris[j][0] || x == tris[j][1] || x == tris[j][2];
    }
  }

  lemma CommitMergedOK(m: Mesh, ft: seq<seq<nat>>, vp: seq<Vec3>, normal: Vec3, owned: map<nat, nat>)
    requires MeshOK(m) && OwnersIn(owned, m) && IndicesBelow(ft, |vp|)
    ensures MergedOK(CommitOf(m, ft, vp, normal, owned).rowMerged)
  {
    MergedAppend(m.rowMerged, MergedOf(owned, Appearance(Flatten(ft)), m.rowCount));
  }

  lemma CommitPolysOK(m: Mesh, ft: seq<seq<nat>>, vp: seq<Vec3>, normal: Vec3, owned: map<nat, nat>)
    requires MeshOK(m) && IndicesBelow(ft, |vp|)
    ensures var m' := CommitOf(m, ft, vp, normal, owned);
      forall j :: 0 <= j < |m'.polys| ==> PolyWithin(m'.polys[j], 0, m'.rowCount)
  {
    var m' := CommitOf(m, ft, vp, normal, owned);
    NewPolygonWithin(ft, m.rowCount);
    forall j | 0 <= j < |m'.polys| ensures PolyWithin(m'.polys[j], 0, m'.rowCount) {
      if j < |m.polys| {
        PolyWithinWider(m.polys[j], m.rowCount, m'.rowCount);
      }
    }
  }

  lemma CommitTriPrimOK(m: Mesh, ft: seq<seq<nat>>, vp: seq<Vec3>, normal: Vec3, owned: map<nat, nat>)
    requires MeshOK(m) && IndicesBelow(ft, |vp|)
    ensures var m' := CommitOf(m, ft, vp, normal, owned);
      forall i :: 0 <= i < |m'.triPrim| ==> m'.triPrim[i] < m'.rowCount
  {
    var m' := CommitOf(m, ft, vp, normal, owned);
    var p := NewPolygon(ft, m.rowCount);
    NewPolygonWithin(ft, m.rowCount);
    FlattenBelow(p.triangles, m'.rowCount);
    AppendBelow(m.triPrim, Flatten(p.triangles), m'.rowCount);
  }

  lemma AppendBelow(a: seq<nat>, b: seq<nat>, hi: nat)
    requires forall i :: 0 <= i < |a| ==> a[i] < hi
    requires forall i :: 0 <= i < |b| ==> b[i] < hi
    ensures forall i :: 0 <= i < |a + b| ==> (a + b)[i] < hi
  {
  }

  /** A commit keeps the mesh well formed, given that the merged vertices the session
      joins exist. */
  lemma CommitKeepsMeshOK(m: Mesh, ft: seq<seq<nat>>, vp: seq<Vec3>, normal: Vec3, owned: map<nat, nat>)
    requires MeshOK(m) && OwnersIn(owned, m) && IndicesBelow(ft, |vp|)
    ensures MeshOK(CommitOf(m, ft, vp, normal, owned))
  {
    CommitAppends(m, ft, vp, normal, owned);
    CommitMergedOK(m, ft, vp, normal, owned);
    CommitPolysOK(m, ft, vp, normal, owned);
    CommitTriPrimOK(m, ft, vp, normal, owned);
  }

  /** The wire primitive draws every edge of every polygon from its start row to the
      copy of its end row, and every edge starts out unselected. */
  ghost predicate WireOK(m: Mesh)
  {
    var es := PolyEdges(m.polys);
    && |m.wire| == |es| && |m.edgeUnsel| == |es|
    && forall i :: 0 <= i < |es| ==> m.wire[i] == (es[i].0, es[i].1 + m.rowCount) && m.edgeUnsel[i] == es[i].0
  }

  lemma {:induction false} PolyEdgesBelow(polys: seq<Polygon>, hi: nat)
    requires forall j :: 0 <= j < |polys| ==> PolyWithin(polys[j], 0, hi)
    ensures forall i :: 0 <= i < |PolyEdges(polys)| ==> PolyEdges(polys)[i].0 < hi && PolyEdges(polys)[i].1 < hi
  {
    if polys != [] {
      var init := DropLast(polys);
      PolyEdgesBelow(init, hi);
      var a := PolyEdges(init);
      var b := Last(polys).edges;
      assert PolyWithin(Last(polys), 0, hi);
      forall i | 0 <= i < |PolyEdges(polys)| ensures PolyEdges(polys)[i].0 < hi && PolyEdges(polys)[i].1 < hi {
        if i >= |a| {
          assert PolyEdges(polys)[i] == b[i - |a|];
        }
      }
    }
  }

  /** After a commit the wire is rebuilt over all polygons with no edge selected; each
      line runs from a vertex row to a row of the second half, which holds the copies. */
  lemma CommitWire(m: Mesh, ft: seq<seq<nat>>, vp: seq<Vec3>, normal: Vec3, owned: map<nat, nat>)
    requires MeshOK(m) && IndicesBelow(ft, |vp|)
    ensures var m' := CommitOf(m, ft, vp, normal, owned);
      && WireOK(m') && m'.edgeSel == []
      && PolyEdges(m'.polys) == PolyEdges(m.polys) + NewPolygon(ft, m.rowCount).edges
      && forall i :: 0 <= i < |m'.wire| ==>
           m'.wire[i].0 < m'.rowCount <= m'.wire[i].1 < 2 * m'.rowCount
  {
    var m' := CommitOf(m, ft, vp, normal, owned);
    assert DropLast(m'.polys) == m.polys;
    CommitPolysOK(m, ft, vp, normal, owned);
    PolyEdgesBelow(m'.polys, m'.rowCount);
  }

  // ---------------------------------------------------------------------------
  // Committing a session
  // ---------------------------------------------------------------------------

  /** Committing a session of `n` >= 3 positions adds `n` rows and a polygon of `n - 2`
      triangles, gives every new row the normal sum of the committed triangles, and
      keeps the mesh and its wire well formed. */
  lemma SessionCommit(m: Mesh, t: TmpData)
    requires MeshOK(m) && Inv(t) && |t.vertPos| >= 3 && OwnersIn(t.ownedVerts, m)
    ensures var m' := Committed(m, t);
      && MeshOK(m') && WireOK(m') && m'.edgeSel == []
      && m'.rowCount == m.rowCount + |t.vertPos|
      && |m'.polys| == |m.polys| + 1 && |Last(m'.polys).triangles| == |t.vertPos| - 2
      && FinalTriangles(t) == Oriented(DropLast(t.vertIndices), t.flipNormal)
      && IndicesBelow(FinalTriangles(t), |t.vertPos|)
      && forall r :: m.rowCount <= r < m'.rowCount ==> m'.rowNormal[r] == NormalSum(t.vertPos, FinalTriangles(t))
  {
    var ft := FinalTriangles(t);
    FinalTrianglesCover(t);
    FinalNormalIsSum(t);
    NewVertsExact(t);
    CommitAppends(m, ft, t.vertPos, FinalNormal(t), t.ownedVerts);
    CommitNewRows(m, ft, t.vertPos, FinalNormal(t), t.ownedVerts);
    CommitKeepsMeshOK(m, ft, t.vertPos, FinalNormal(t), t.ownedVerts);
    CommitWire(m, ft, t.vertPos, FinalNormal(t), t.ownedVerts);
  }
}
