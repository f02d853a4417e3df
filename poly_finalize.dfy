/** The computations `finalize_poly_creation` (src/core/geom/data/poly_create.py) does
    to commit the new polygon: the committed triangles, one vertex per distinct
    position in order of first appearance, the border edges found by cancelling edge
    pairs, and the orientation of those edges. Each loop of the source is a method
    proved against a function. */
module PolyFinalize {

  import opened Seqs
  import opened Vectors
  import opened Triangulation

  // ---------------------------------------------------------------------------
  // Vertices in order of first appearance: `verts_by_pos`, `poly_verts`
  // ---------------------------------------------------------------------------

  /** The distinct values of `s` in the order of their first occurrence. */
  function Appearance(s: seq<nat>): (r: seq<nat>)
  {
    if s == [] then []
    else
      var r := Appearance(DropLast(s));
      if Last(s) in r then r else r + [Last(s)]
  }

  lemma {:induction false} AppearanceSpec(s: seq<nat>)
    ensures NoDup(Appearance(s))
    ensures forall x :: x in Appearance(s) <==> x in s
  {
    if s != [] {
      var init := DropLast(s);
      AppearanceSpec(init);
      assert s == init + [Last(s)];
    }
  }

  /** The row of each value of `order`: `verts_by_pos` maps a position index to the
      vertex created for it, whose row is `base` (the rows the object had before) plus
      the index's place in `poly_verts`. A vertex is identified by that row. */
  function RowMap(order: seq<nat>, base: nat): (m: map<nat, nat>)
    ensures forall q :: q in m <==> q in order
  {
    map q | q in order :: base + IndexOf(order, q)
  }

  /** The row of a value leads back to it. */
  lemma RowMapAt(order: seq<nat>, base: nat, q: nat)
    requires q in order
    ensures base <= RowMap(order, base)[q] < base + |order|
    ensures order[RowMap(order, base)[q] - base] == q
  {
  }

  /** A triangle of position indices as a triangle of rows. */
  function TriOfRows(t: seq<nat>, m: map<nat, nat>): (r: seq<nat>)
    requires |t| == 3 && t[0] in m && t[1] in m && t[2] in m
    ensures |r| == 3
  {
    [m[t[0]], m[t[1]], m[t[2]]]
  }

  ghost predicate KeysIn(tris: seq<seq<nat>>, m: map<nat, nat>)
  {
    forall j :: 0 <= j < |tris| ==> |tris[j]| == 3 && tris[j][0] in m && tris[j][1] in m && tris[j][2] in m
  }

  /** `triangles`: every triangle with its position indices replaced by rows. */
  function MapTris(tris: seq<seq<nat>>, m: map<nat, nat>): (r: seq<seq<nat>>)
    requires KeysIn(tris, m)
    ensures |r| == |tris|
    ensures forall j :: 0 <= j < |tris| ==> r[j] == TriOfRows(tris[j], m)
  {
    seq(|tris|, j requires 0 <= j < |tris| => TriOfRows(tris[j], m))
  }

  /** A value is in the flattened list of triangles exactly when one triangle holds it. */
  lemma {:induction false} FlattenOfTrianglesHas(ts: seq<seq<nat>>, x: nat)
    ensures x in Flatten(ts) <==> exists j :: 0 <= j < |ts| && x in ts[j]
  {
    if ts != [] {
      var init := DropLast(ts);
      FlattenOfTrianglesHas(init, x);
      assert Flatten(ts) == Flatten(init) + Last(ts);
      if x in Flatten(init) {
        var j :| 0 <= j < |init| && x in init[j];
        assert ts[j] == init[j];
      }
      if exists j :: 0 <= j < |ts| && x in ts[j] {
        var j :| 0 <= j < |ts| && x in ts[j];
        if j < |init| {
          assert init[j] == ts[j];
        }
      }
    }
  }

  lemma CornersOfTriangles(tris: seq<seq<nat>>)
    requires forall j :: 0 <= j < |tris| ==> |tris[j]| == 3
    ensures forall j, c :: 0 <= j < |tris| && 0 <= c < 3 ==> tris[j][c] in Flatten(tris)
  {
    forall j, c | 0 <= j < |tris| && 0 <= c < 3 ensures tris[j][c] in Flatten(tris) {
      FlattenOfTrianglesHas(tris, tris[j][c]);
    }
  }

  lemma CornerBelow(tris: seq<seq<nat>>, n: nat, x: nat)
    requires IndicesBelow(tris, n) && x in Flatten(tris)
    ensures x < n
  {
    FlattenOfTrianglesHas(tris, x);
    var j :| 0 <= j < |tris| && x in tris[j];
    assert x == tris[j][0] || x == tris[j][1] || x == tris[j][2];
  }

  /** Every position index of the triangles has a vertex. */
  lemma TrianglesKeyed(tris: seq<seq<nat>>, base: nat)
    requires forall j :: 0 <= j < |tris| ==> |tris[j]| == 3
    ensures KeysIn(tris, RowMap(Appearance(Flatten(tris)), base))
  {
    var m := RowMap(Appearance(Flatten(tris)), base);
    AppearanceSpec(Flatten(tris));
    CornersOfTriangles(tris);
    forall j | 0 <= j < |tris| ensures tris[j][0] in m && tris[j][1] in m && tris[j][2] in m {
      assert tris[j][0] in Flatten(tris) && tris[j][1] in Flatten(tris) && tris[j][2] in Flatten(tris);
    }
  }

  /** Each vertex stands on a distinct position index, below `n` when the triangles'
      indices are. */
  lemma VerticesOfTriangles(tris: seq<seq<nat>>, n: nat)
    requires IndicesBelow(tris, n)
    ensures NoDup(Appearance(Flatten(tris)))
    ensures forall i :: 0 <= i < |Appearance(Flatten(tris))| ==> Appearance(Flatten(tris))[i] < n
  {
    var order := Appearance(Flatten(tris));
    AppearanceSpec(Flatten(tris));
    forall i | 0 <= i < |order| ensures order[i] < n {
      CornerBelow(tris, n, order[i]);
    }
  }

  // ---------------------------------------------------------------------------
  // Border edges: `edge_data`
  // ---------------------------------------------------------------------------

  /** `sorted([v1, v2])`: vertices compare by creation, that is by row. */
  function SortedPair(a: nat, b: nat): (nat, nat)
  {
    if a <= b then (a, b) else (b, a)
  }

  /** The edges (0, 1), (1, 2), (0, 2) of a triangle. */
  function EdgesOfTri(t: seq<nat>): seq<(nat, nat)>
    requires |t| == 3
  {
    [SortedPair(t[0], t[1]), SortedPair(t[1], t[2]), SortedPair(t[0], t[2])]
  }

  function AllEdges(trs: seq<seq<nat>>): seq<(nat, nat)>
    requires forall j :: 0 <= j < |trs| ==> |trs[j]| == 3
  {
    if trs == [] then [] else AllEdges(DropLast(trs)) + EdgesOfTri(Last(trs))
  }

  /** One step of the fold: an edge seen before is dropped, a new one appended. */
  function Toggled(es: seq<(nat, nat)>, e: (nat, nat)): seq<(nat, nat)>
  {
    if e in es then RemoveFirst(es, e) else es + [e]
  }

  function ToggleAll(ps: seq<(nat, nat)>): seq<(nat, nat)>
  {
    if ps == [] then [] else Toggled(ToggleAll(DropLast(ps)), Last(ps))
  }

  predicate Odd(n: nat)
  {
    n % 2 == 1
  }

  /** The fold keeps exactly the edges that occur an odd number of times, each once. */
  lemma {:induction false} ToggleAllParity(ps: seq<(nat, nat)>)
    ensures NoDup(ToggleAll(ps))
    ensures forall e :: e in ToggleAll(ps) <==> Odd(Count(ps, e))
  {
    if ps != [] {
      var init := DropLast(ps);
      var e := Last(ps);
      ToggleAllParity(init);
      var es := ToggleAll(init);
      assert ps == init + [e];
      forall x ensures Count(ps, x) == Count(init, x) + (if e == x then 1 else 0) {
        CountSnoc(init, e, x);
      }
      if e in es {
        RemoveFirstOfUnique(es, e);
      } else {
        var es' := es + [e];
        forall i, j | 0 <= i < j < |es'| ensures es'[i] != es'[j] {
          if j == |es| {
            assert es[i] in es;
          }
        }
      }
    }
  }

  /** The fold keeps only edges it was given. */
  lemma {:induction false} ToggleAllKeeps(ps: seq<(nat, nat)>, e: (nat, nat))
    requires e in ToggleAll(ps)
    ensures e in ps
  {
    var init := DropLast(ps);
    var es := ToggleAll(init);
    assert ps == init + [Last(ps)];
    if e != Last(ps) {
      if Last(ps) in es {
        RemoveFirstKeeps(es, Last(ps), e);
      }
      ToggleAllKeeps(init, e);
    }
  }

  /** The edges of triangles whose rows lie in `lo .. hi - 1` join rows in that range. */
  lemma {:induction false} AllEdgesWithin(trs: seq<seq<nat>>, lo: nat, hi: nat, e: (nat, nat))
    requires forall j :: 0 <= j < |trs| ==> |trs[j]| == 3
    requires forall j, c :: 0 <= j < |trs| && 0 <= c < 3 ==> lo <= trs[j][c] < hi
    requires e in AllEdges(trs)
    ensures lo <= e.0 < hi && lo <= e.1 < hi
  {
    var t := Last(trs);
    assert lo <= t[0] < hi && lo <= t[1] < hi && lo <= t[2] < hi;
    if e !in EdgesOfTri(t) {
      AllEdgesWithin(DropLast(trs), lo, hi, e);
    }
  }

  // ---------------------------------------------------------------------------
  // Edge orientation: `start_row_indices`, `end_row_indices`
  // ---------------------------------------------------------------------------

  function Starts(es: seq<(nat, nat)>): (r: seq<nat>)
    ensures |r| == |es| && forall i :: 0 <= i < |es| ==> r[i] == es[i].0
  {
    seq(|es|, i requires 0 <= i < |es| => es[i].0)
  }

  function Ends(es: seq<(nat, nat)>): (r: seq<nat>)
    ensures |r| == |es| && forall i :: 0 <= i < |es| ==> r[i] == es[i].1
  {
    seq(|es|, i requires 0 <= i < |es| => es[i].1)
  }

  function Swap(e: (nat, nat)): (nat, nat)
  {
    (e.1, e.0)
  }

  /** The edge as stored once the edges before it are oriented as in `done`. */
  function OrientOne(done: seq<(nat, nat)>, e: (nat, nat)): (nat, nat)
  {
    if e.0 in Starts(done) || e.1 in Ends(done) then Swap(e) else e
  }

  function Orient(es: seq<(nat, nat)>): (r: seq<(nat, nat)>)
    ensures |r| == |es|
  {
    if es == [] then []
    else
      var r := Orient(DropLast(es));
      r + [OrientOne(r, Last(es))]
  }

  lemma {:induction false} OrientPrefix(es: seq<(nat, nat)>, i: nat)
    requires i <= |es|
    ensures Orient(es)[..i] == Orient(es[..i])
    decreases |es|
  {
    if i < |es| {
      assert es[..|es| - 1][..i] == es[..i];
      OrientPrefix(DropLast(es), i);
      assert Orient(es)[..i] == Orient(DropLast(es))[..i];
    } else {
      assert es[..i] == es;
    }
  }

  lemma OrientAt(es: seq<(nat, nat)>, i: nat)
    requires i < |es|
    ensures Orient(es)[i] == OrientOne(Orient(es)[..i], es[i])
  {
    OrientPrefix(es, i + 1);
    OrientPrefix(es, i);
    assert es[..i + 1][..i] == es[..i];
    assert Orient(es)[i] == Orient(es)[..i + 1][i];
  }

  /** Every edge keeps its two rows, and is reversed exactly when its start row is
      already the start of an earlier edge or its end row the end of one. */
  lemma OrientSpec(es: seq<(nat, nat)>)
    ensures |Orient(es)| == |es|
    ensures forall i :: 0 <= i < |es| ==>
      Orient(es)[i] == if es[i].0 in Starts(Orient(es)[..i]) || es[i].1 in Ends(Orient(es)[..i])
                       then Swap(es[i]) else es[i]
  {
    forall i | 0 <= i < |es|
      ensures Orient(es)[i] == if es[i].0 in Starts(Orient(es)[..i]) || es[i].1 in Ends(Orient(es)[..i])
                               then Swap(es[i]) else es[i]
    {
      OrientAt(es, i);
    }
  }

  /** Orienting an edge keeps its two rows. */
  lemma OrientKeepsRows(es: seq<(nat, nat)>, i: nat)
    requires i < |es|
    ensures Orient(es)[i] == es[i] || Orient(es)[i] == Swap(es[i])
  {
    OrientAt(es, i);
  }

  /** The orientation loop of `finalize_poly_creation`. */
  method OrientEdges(es: seq<(nat, nat)>) returns (oriented: seq<(nat, nat)>, starts: seq<nat>, ends: seq<nat>)
    ensures oriented == Orient(es)
    ensures starts == Starts(oriented) && ends == Ends(oriented)
  {
    oriented, starts, ends := [], [], [];
    var i := 0;
    while i < |es|
      invariant i <= |es|
      invariant oriented == Orient(es[..i])
      invariant starts == Starts(oriented) && ends == Ends(oriented)
    {
      var row1, row2 := es[i].0, es[i].1;
      if row1 in starts || row2 in ends {
        row1, row2 := row2, row1;
      }
      assert es[..i + 1][..i] == es[..i];
      oriented := oriented + [(row1, row2)];
      starts := starts + [row1];
      ends := ends + [row2];
      i := i + 1;
    }
    assert es[..i] == es;
  }

  // ---------------------------------------------------------------------------
  // The triangle loop of `finalize_poly_creation`
  // ---------------------------------------------------------------------------

  lemma AppearanceSnoc(s: seq<nat>, x: nat)
    ensures Appearance(s + [x]) == if x in Appearance(s) then Appearance(s) else Appearance(s) + [x]
  {
    assert DropLast(s + [x]) == s;
  }

  /** `m` maps every value of `order` to `base` plus its place in `order`, and
      nothing else. */
  ghost predicate IsRowMap(m: map<nat, nat>, order: seq<nat>, base: nat)
  {
    && (forall q :: q in m <==> q in order)
    && (forall i :: 0 <= i < |order| ==> m[order[i]] == base + i)
  }

  lemma RowMapIs(m: map<nat, nat>, order: seq<nat>, base: nat)
    requires IsRowMap(m, order, base) && NoDup(order)
    ensures m == RowMap(order, base)
  {
    forall q | q in m ensures m[q] == RowMap(order, base)[q] {
      var i := IndexOf(order, q);
      assert m[order[i]] == base + i;
    }
  }

  /** One position index of a triangle: its vertex, created with the next row when the
      index is new (`verts_by_pos`, `row_index`, `poly_verts`). */
  method VisitPosition(posIndex: nat, base: nat, ghost seen: seq<nat>, order: seq<nat>, byPos: map<nat, nat>)
    returns (order': seq<nat>, byPos': map<nat, nat>, row: nat)
    requires order == Appearance(seen) && IsRowMap(byPos, order, base)
    ensures order' == Appearance(seen + [posIndex]) && IsRowMap(byPos', order', base)
    ensures forall q :: q in byPos ==> q in byPos' && byPos'[q] == byPos[q]
    ensures posIndex in byPos' && row == byPos'[posIndex]
  {
    AppearanceSnoc(seen, posIndex);
    if posIndex in byPos {
      order', byPos', row := order, byPos, byPos[posIndex];
    } else {
      row := base + |order|;
      byPos' := byPos[posIndex := row];
      order' := order + [posIndex];
    }
  }

  lemma AppendPrefixSnoc(seen: seq<nat>, tri: seq<nat>, c: nat)
    requires c < |tri|
    ensures seen + tri[..c + 1] == (seen + tri[..c]) + [tri[c]]
  {
    assert tri[..c + 1] == tri[..c] + [tri[c]];
  }

  /** `for pos_index in tri_data`. `seen` is what the loop visited before. */
  method VisitTriangle(tri: seq<nat>, base: nat, ghost seen: seq<nat>, order: seq<nat>, byPos: map<nat, nat>)
    returns (order': seq<nat>, byPos': map<nat, nat>, rows: seq<nat>)
    requires |tri| == 3 && order == Appearance(seen) && IsRowMap(byPos, order, base)
    ensures order' == Appearance(seen + tri) && IsRowMap(byPos', order', base)
    ensures forall q :: q in byPos ==> q in byPos' && byPos'[q] == byPos[q]
    ensures tri[0] in byPos' && tri[1] in byPos' && tri[2] in byPos'
    ensures rows == TriOfRows(tri, byPos')
  {
    order', byPos', rows := order, byPos, [];
    var c := 0;
    ghost var visited := seen;
    assert seen + tri[..0] == seen;
    while c < 3
      invariant c <= 3 && visited == seen + tri[..c]
      invariant order' == Appearance(visited) && IsRowMap(byPos', order', base)
      invariant forall q :: q in byPos ==> q in byPos' && byPos'[q] == byPos[q]
      invariant |rows| == c && forall d :: 0 <= d < c ==> tri[d] in byPos' && rows[d] == byPos'[tri[d]]
    {
      var row;
      ghost var prev := byPos';
      order', byPos', row := VisitPosition(tri[c], base, visited, order', byPos');
      var rows' := rows + [row];
      forall d | 0 <= d < c + 1 ensures tri[d] in byPos' && rows'[d] == byPos'[tri[d]] {
        if d < c {
          assert tri[d] in prev && rows[d] == prev[tri[d]] && rows'[d] == rows[d];
        }
      }
      rows := rows';
      AppendPrefixSnoc(seen, tri, c);
      visited := visited + [tri[c]];
      c := c + 1;
    }
    assert tri[..3] == tri;
  }

  lemma AllEdgesSnoc(trs: seq<seq<nat>>, t: seq<nat>)
    requires forall j :: 0 <= j < |trs| ==> |trs[j]| == 3
    requires |t| == 3
    ensures AllEdges(trs + [t]) == AllEdges(trs) + EdgesOfTri(t)
  {
    assert DropLast(trs + [t]) == trs;
  }

  lemma ToggleAllSnoc(ps: seq<(nat, nat)>, e: (nat, nat))
    ensures ToggleAll(ps + [e]) == Toggled(ToggleAll(ps), e)
  {
    assert DropLast(ps + [e]) == ps;
  }

  lemma TogglePrefix(ps: seq<(nat, nat)>, es: seq<(nat, nat)>, k: nat)
    requires k < |es|
    ensures ToggleAll(ps + es[..k + 1]) == Toggled(ToggleAll(ps + es[..k]), es[k])
  {
    assert ps + es[..k + 1] == (ps + es[..k]) + [es[k]];
    ToggleAllSnoc(ps + es[..k], es[k]);
  }

  /** `for i, j in ((0, 1), (1, 2), (0, 2))`: toggle the three edges of a triangle. */
  method ToggleEdges(edgeData: seq<(nat, nat)>, ghost ps: seq<(nat, nat)>, rows: seq<nat>)
    returns (edgeData': seq<(nat, nat)>)
    requires |rows| == 3 && edgeData == ToggleAll(ps)
    ensures edgeData' == ToggleAll(ps + EdgesOfTri(rows))
  {
    var pairs := [(0, 1), (1, 2), (0, 2)];
    ghost var es := EdgesOfTri(rows);
    edgeData' := edgeData;
    var k := 0;
    assert ps + es[..0] == ps;
    while k < 3
      invariant k <= 3 && edgeData' == ToggleAll(ps + es[..k])
    {
      var edgeVerts := SortedPair(rows[pairs[k].0], rows[pairs[k].1]);
      assert es[k] == edgeVerts;
      TogglePrefix(ps, es, k);
      if edgeVerts in edgeData' {
        edgeData' := RemoveFirst(edgeData', edgeVerts);
      } else {
        edgeData' := edgeData' + [edgeVerts];
      }
      k := k + 1;
    }
    assert es[..3] == es;
  }

  /** Rows already assigned do not change when the map gains new keys. */
  lemma MapTrisExtend(tris: seq<seq<nat>>, m: map<nat, nat>, m': map<nat, nat>)
    requires KeysIn(tris, m)
    requires forall q :: q in m ==> q in m' && m'[q] == m[q]
    ensures KeysIn(tris, m') && MapTris(tris, m') == MapTris(tris, m)
  {
  }

  lemma MapTrisSnoc(tris: seq<seq<nat>>, t: seq<nat>, m: map<nat, nat>)
    requires KeysIn(tris, m) && |t| == 3 && t[0] in m && t[1] in m && t[2] in m
    ensures KeysIn(tris + [t], m) && MapTris(tris + [t], m) == MapTris(tris, m) + [TriOfRows(t, m)]
  {
  }

  /** One turn of the triangle loop: the triangle `tri` after the triangles `done`. */
  method AddTriangle(tri: seq<nat>, base: nat, ghost done: seq<seq<nat>>, order: seq<nat>, byPos: map<nat, nat>,
                     triRows: seq<seq<nat>>, edgeData: seq<(nat, nat)>)
    returns (order': seq<nat>, byPos': map<nat, nat>, triRows': seq<seq<nat>>, edgeData': seq<(nat, nat)>)
    requires |tri| == 3 && order == Appearance(Flatten(done)) && IsRowMap(byPos, order, base)
    requires KeysIn(done, byPos) && triRows == MapTris(done, byPos)
    requires edgeData == ToggleAll(AllEdges(triRows))
    ensures order' == Appearance(Flatten(done + [tri])) && IsRowMap(byPos', order', base)
    ensures KeysIn(done + [tri], byPos') && triRows' == MapTris(done + [tri], byPos')
    ensures edgeData' == ToggleAll(AllEdges(triRows'))
  {
    FlattenSnoc(done, tri);
    var rows;
    order', byPos', rows := VisitTriangle(tri, base, Flatten(done), order, byPos);
    edgeData' := ToggleEdges(edgeData, AllEdges(triRows), rows);
    AllEdgesSnoc(triRows, rows);
    MapTrisExtend(done, byPos, byPos');
    MapTrisSnoc(done, tri, byPos');
    triRows' := triRows + [rows];
  }

  /** The triangle loop: vertices in order of first appearance with their rows, the
      triangles in rows and the edges left over after cancelling pairs. */
  method BuildPolygon(tris: seq<seq<nat>>, base: nat)
    returns (order: seq<nat>, byPos: map<nat, nat>, triRows: seq<seq<nat>>, edgeData: seq<(nat, nat)>)
    requires forall j :: 0 <= j < |tris| ==> |tris[j]| == 3
    ensures order == Appearance(Flatten(tris)) && byPos == RowMap(order, base)
    ensures KeysIn(tris, byPos) && triRows == MapTris(tris, byPos)
    ensures edgeData == ToggleAll(AllEdges(triRows))
  {
    order, byPos, triRows, edgeData := [], map[], [], [];
    var i := 0;
    while i < |tris|
      invariant i <= |tris|
      invariant order == Appearance(Flatten(tris[..i])) && IsRowMap(byPos, order, base)
      invariant KeysIn(tris[..i], byPos) && triRows == MapTris(tris[..i], byPos)
      invariant edgeData == ToggleAll(AllEdges(triRows))
    {
      TakeSnoc(tris, i);
      order, byPos, triRows, edgeData := AddTriangle(tris[i], base, tris[..i], order, byPos, triRows, edgeData);
      i := i + 1;
    }
    assert tris[..i] == tris;
    AppearanceSpec(Flatten(tris));
    RowMapIs(byPos, order, base);
  }
}
