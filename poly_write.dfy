/** The loops with which `finalize_poly_creation` (src/core/geom/data/poly_create.py)
    writes a committed polygon into the geometry of the object: the vertex rows, the
    rows of the triangle primitive and the rebuilt wire primitive. Each is proved
    against the function of `PolyCommit` that states what it writes. */
module PolyWrite {

  import opened Seqs
  import opened Vectors
  import opened Triangulation
  import opened SessionParts
  import opened PolySession
  import opened PolyFinalize
  import opened PolyCommit

  /** `for vert in poly_verts`: one row per new vertex, holding its position, the
      polygon normal and its merged vertex (an owned one, or the new row itself). */
  method AppendRows(pos0: seq<Vec3>, normal0: seq<Vec3>, merged0: seq<nat>, vp: seq<Vec3>, order: seq<nat>,
                    normal: Vec3, owned: map<nat, nat>, base: nat)
    returns (pos: seq<Vec3>, normals: seq<Vec3>, merged: seq<nat>)
    requires forall i :: 0 <= i < |order| ==> order[i] < |vp|
    ensures pos == pos0 + PositionsOf(vp, order)
    ensures normals == normal0 + Repeat(normal, |order|)
    ensures merged == merged0 + MergedOf(owned, order, base)
  {
    pos, normals, merged := pos0, normal0, merged0;
    var i := 0;
    while i < |order|
      invariant 0 <= i <= |order|
      invariant pos == pos0 + PositionsOf(vp, order[..i])
      invariant normals == normal0 + Repeat(normal, i)
      invariant merged == merged0 + MergedOf(owned, order[..i], base)
    {
      var q := order[i];
      assert PositionsOf(vp, order[..i + 1]) == PositionsOf(vp, order[..i]) + [vp[q]];
      assert Repeat(normal, i + 1) == Repeat(normal, i) + [normal];
      var m := if q in owned then owned[q] else base + i;
      assert MergedOf(owned, order[..i + 1], base) == MergedOf(owned, order[..i], base) + [m];
      pos := pos + [vp[q]];
      normals := normals + [normal];
      merged := merged + [m];
      i := i + 1;
    }
    assert order[..|order|] == order;
  }

  /** `tris_prim.add_vertices(...)` for every new triangle, in order. */
  method AppendTriangles(prim0: seq<nat>, tris: seq<seq<nat>>) returns (prim: seq<nat>)
    ensures prim == prim0 + Flatten(tris)
  {
    prim := prim0;
    var j := 0;
    while j < |tris|
      invariant 0 <= j <= |tris|
      invariant prim == prim0 + Flatten(tris[..j])
    {
      TakeSnoc(tris, j);
      FlattenSnoc(tris[..j], tris[j]);
      prim := prim + tris[j];
      j := j + 1;
    }
    assert tris[..|tris|] == tris;
  }

  lemma WireSnoc(es: seq<(nat, nat)>, e: (nat, nat), count: nat)
    ensures WireOf(es + [e], count) == WireOf(es, count) + [(e.0, e.1 + count)]
    ensures Starts(es + [e]) == Starts(es) + [e.0]
  {
    assert WireOf(es + [e], count) == WireOf(es, count) + [(e.0, e.1 + count)];
    assert Starts(es + [e]) == Starts(es) + [e.0];
  }

  lemma PolyEdgesSnoc(polys: seq<Polygon>, j: nat)
    requires j < |polys|
    ensures PolyEdges(polys[..j + 1]) == PolyEdges(polys[..j]) + polys[j].edges
  {
    assert DropLast(polys[..j + 1]) == polys[..j];
  }

  /** The lines and unselected edge rows of the edges `edges` of one polygon, after
      those of the edges `done` of the polygons before it. */
  method AppendWire(wire0: seq<(nat, nat)>, unsel0: seq<nat>, ghost done: seq<(nat, nat)>,
                    edges: seq<(nat, nat)>, count: nat)
    returns (wire: seq<(nat, nat)>, unsel: seq<nat>)
    requires wire0 == WireOf(done, count) && unsel0 == Starts(done)
    ensures wire == WireOf(done + edges, count) && unsel == Starts(done + edges)
  {
    wire, unsel := wire0, unsel0;
    var i := 0;
    while i < |edges|
      invariant 0 <= i <= |edges|
      invariant wire == WireOf(done + edges[..i], count) && unsel == Starts(done + edges[..i])
    {
      var (row1, row2) := edges[i];
      assert done + edges[..i + 1] == (done + edges[..i]) + [edges[i]];
      WireSnoc(done + edges[..i], edges[i], count);
      wire := wire + [(row1, row2 + count)];
      unsel := unsel + [row1];
      i := i + 1;
    }
    assert edges[..|edges|] == edges;
  }

  /** The loop over `ordered_polys` and their edges: a line from the start row of
      every edge to the copy of its end row, and the start row in the unselected
      edge list. */
  method RebuildWire(polys: seq<Polygon>, count: nat) returns (wire: seq<(nat, nat)>, unsel: seq<nat>)
    ensures wire == WireOf(PolyEdges(polys), count) && unsel == Starts(PolyEdges(polys))
  {
    wire, unsel := [], [];
    var j := 0;
    while j < |polys|
      invariant 0 <= j <= |polys|
      invariant wire == WireOf(PolyEdges(polys[..j]), count) && unsel == Starts(PolyEdges(polys[..j]))
    {
      wire, unsel := AppendWire(wire, unsel, PolyEdges(polys[..j]), polys[j].edges, count);
      PolyEdgesSnoc(polys, j);
      j := j + 1;
    }
    assert polys[..|polys|] == polys;
  }

  /** The geometry `finalize_poly_creation` writes for the session `t` on top of the
      mesh `m`: the committed triangles (`del indices[-1]`, each reversed when the
      normal is flipped) and the final normal, written by `WriteCommit`. */
  method CommitStep(m: Mesh, t: TmpData) returns (m': Mesh)
    requires Shaped(t) && |t.vertPos| >= 3
    ensures m' == Committed(m, t)
  {
    FinalTrianglesCover(t);
    m' := WriteCommit(m, FinalTriangles(t), t.vertPos, FinalNormal(t), t.ownedVerts);
  }

  /** Commits the triangles `ft` over the positions `vp` with the normal `normal`,
      new vertices being joined with the merged vertices `owned` names. */
  method WriteCommit(m: Mesh, ft: seq<seq<nat>>, vp: seq<Vec3>, normal: Vec3, owned: map<nat, nat>)
    returns (m': Mesh)
    requires IndicesBelow(ft, |vp|)
    ensures m' == CommitOf(m, ft, vp, normal, owned)
  {
    var base := m.rowCount;
    var poly, order := MakePolygon(ft, base);
    var count := base + |order|;
    VerticesOfTriangles(ft, |vp|);
    var rowPos, rowNormal, rowMerged :=
      AppendRows(m.rowPos, m.rowNormal, m.rowMerged, vp, order, normal, owned, base);
    var triPrim := AppendTriangles(m.triPrim, poly.triangles);
    var vertUnsel := m.vertUnsel + Range(base, |order|);
    var polys := m.polys + [poly];
    var wire, edgeUnsel := RebuildWire(polys, count);
    m' := Mesh(count, rowPos, rowNormal, rowMerged, polys, triPrim, vertUnsel, wire, edgeUnsel, []);
  }

  /** The polygon of the triangles `ft` of position indices on top of `base` rows: its
      triangles over the new rows and its border edges, oriented. */
  method MakePolygon(ft: seq<seq<nat>>, base: nat) returns (poly: Polygon, order: seq<nat>)
    requires forall j :: 0 <= j < |ft| ==> |ft[j]| == 3
    ensures poly == NewPolygon(ft, base) && order == Appearance(Flatten(ft))
  {
    var byPos, triRows, edgeData;
    order, byPos, triRows, edgeData := BuildPolygon(ft, base);
    var oriented, starts, ends := OrientEdges(edgeData);
    poly := Polygon(triRows, oriented, Range(base, |order|));
  }
}
