/** Box (src/core/geom/prim/box.py): the topology `define_geom_data` builds for a box
    with a segment count per axis, and the change-detecting setters and size rules of
    the primitive. A box has six sides, numbered 0 .. 5 in the order the source visits
    them. It walks the dictionaries `sides` and `side_pair`, whose iteration order
    under CPython 2.7 on a 64-bit build is `xy`, `yz`, `zx` (plane index 2, 0, 1) and
    direction +1 before -1. So side 0 is `xy` +1 and side 5 is `zx` -1, which fixes
    the smoothing ids, the order of the vertex data and the order of the faces. Every
    side is a grid of vertices; each grid cell becomes a polygon of two triangles. */
module Box {

  import opened Wrappers
  import opened Seqs
  import opened Vectors

  /** A value per axis (`{"x": .., "y": .., "z": ..}`). */
  datatype Triple<T> = Triple(x: T, y: T, z: T)
  {
    function At(a: nat): T
      requires a < 3
    {
      if a == 0 then x else if a == 1 then y else z
    }
  }

  /** The integer key of a grid position on the box edges, per axis. */
  type Key = (nat, nat, nat)

  // ---------------------------------------------------------------------------
  // The side table (`get_side_data`)
  // ---------------------------------------------------------------------------

  /** Python's `s[k]`, where a negative `k` counts from the end. */
  function PyIndex(s: string, k: int): char
    requires -|s| <= k < |s|
  {
    if k < 0 then s[|s| + k] else s[k]
  }

  /** `"xyz"[i - 2] + "xyz"[i - 1]`: the plane of side pair `i`. */
  function PlaneName(i: nat): string
    requires i < 3
  {
    [PyIndex("xyz", i - 2), PyIndex("xyz", i - 1)]
  }

  /** The normal of the side of plane `i` with direction `sign`. */
  function SideNormal(i: nat, sign: int): Vec3
    requires i < 3
  {
    Vec3(if i == 0 then sign as real else 0.0,
         if i == 1 then sign as real else 0.0,
         if i == 2 then sign as real else 0.0)
  }

  /** The first and second axis of plane `i` (`axis1`, `axis2`); the third is `i`. */
  function Axis1(i: nat): nat { (i + 1) % 3 }
  function Axis2(i: nat): nat { (i + 2) % 3 }

  /** The table holds exactly the planes `yz`, `zx` and `xy`; plane `i` spans the two
      axes other than `i`, and its normals point along axis `i`. */
  lemma SideTable()
    ensures PlaneName(0) == "yz" && PlaneName(1) == "zx" && PlaneName(2) == "xy"
    ensures forall i: nat :: i < 3 ==>
      && "xyz"[Axis1(i)] == PlaneName(i)[0] && "xyz"[Axis2(i)] == PlaneName(i)[1]
      && Axis1(i) != i && Axis2(i) != i && Axis1(i) != Axis2(i)
    ensures forall i: nat, sign: int, a: nat :: i < 3 && a < 3 ==>
      Component(SideNormal(i, sign), a) == if a == i then sign as real else 0.0
  {
  }

  function Component(v: Vec3, a: nat): real
    requires a < 3
  {
    if a == 0 then v.x else if a == 1 then v.y else v.z
  }

  /** The plane and direction of side `s`: planes 2, 0, 1, each with +1 then -1. */
  function PlaneOf(s: nat): nat { (s / 2 + 2) % 3 }
  function DirOf(s: nat): int { if s % 2 == 0 then 1 else -1 }

  /** The six sides in visiting order: `xy`, `yz`, `zx` (plane 2, 0, 1, named as in
      `SideTable`), each with direction +1 then -1. */
  lemma SideOrder()
    ensures PlaneOf(0) == 2 && PlaneOf(1) == 2 && PlaneOf(2) == 0
    ensures PlaneOf(3) == 0 && PlaneOf(4) == 1 && PlaneOf(5) == 1
    ensures DirOf(0) == 1 && DirOf(1) == -1 && DirOf(2) == 1
    ensures DirOf(3) == -1 && DirOf(4) == 1 && DirOf(5) == -1
  {
  }

  /** All segment counts are positive (`1. / segs` is taken for every axis). */
  predicate SegsOK(segs: Triple<nat>)
  {
    segs.x > 0 && segs.y > 0 && segs.z > 0
  }

  /** The segment counts along the first, second and third axis of side `s`. */
  function Segs1(segs: Triple<nat>, s: nat): nat { segs.At(Axis1(PlaneOf(s))) }
  function Segs2(segs: Triple<nat>, s: nat): nat { segs.At(Axis2(PlaneOf(s))) }
  function Segs3(segs: Triple<nat>, s: nat): nat { segs.At(PlaneOf(s)) }

  /** The number of grid vertices of side `s`. */
  function VertexCount(segs: Triple<nat>, s: nat): nat
  {
    (Segs1(segs, s) + 1) * (Segs2(segs, s) + 1)
  }

  /** The id of grid vertex (`i`, `j`) of side `s`: `vert_id` counts the vertices of a
      side row by row, `j` fastest. */
  function VId(segs: Triple<nat>, s: nat, i: nat, j: nat): nat
  {
    i * (Segs1(segs, s) + 1) + j
  }

  // ---------------------------------------------------------------------------
  // Vertices
  // ---------------------------------------------------------------------------

  /** `offsets`: the box is centred on its origin in x and y and stands on it in z. */
  const Offsets: Triple<real> := Triple(-0.5, -0.5, 0.0)

  /** `(1. / n) * k`: the fraction of the way along an axis of `n` segments grid line
      `k` lies at. */
  function Fraction(k: nat, n: nat): real
    requires n > 0
  {
    (1.0 / n as real) * k as real
  }

  /** Coordinate `a` of grid vertex (`i`, `j`) of side `s`: the third axis is at 0 or 1
      by the direction, the other two at `j / segs1` and `i / segs2`, all shifted by the
      offsets. */
  function GridCoord(segs: Triple<nat>, s: nat, i: nat, j: nat, a: nat): real
    requires SegsOK(segs) && a < 3
  {
    var p := PlaneOf(s);
    if a == p then (if DirOf(s) == -1 then 0.0 else 1.0) + Offsets.At(a)
    else if a == Axis1(p) then Fraction(j, Segs1(segs, s)) + Offsets.At(a)
    else Fraction(i, Segs2(segs, s)) + Offsets.At(a)
  }

  function GridPos(segs: Triple<nat>, s: nat, i: nat, j: nat): Vec3
    requires SegsOK(segs)
  {
    Vec3(GridCoord(segs, s, i, j, 0), GridCoord(segs, s, i, j, 1), GridCoord(segs, s, i, j, 2))
  }

  /** `i in (0, segs2) or j in (0, segs1)`: the vertex lies on an edge of the box. */
  predicate OnBorder(segs: Triple<nat>, s: nat, i: nat, j: nat)
  {
    i == 0 || i == Segs2(segs, s) || j == 0 || j == Segs1(segs, s)
  }

  /** Component `a` of the edge key: `j` on the first axis, `i` on the second, and 0 or
      `segs3` on the third. */
  function KeyComp(segs: Triple<nat>, s: nat, i: nat, j: nat, a: nat): nat
  {
    var p := PlaneOf(s);
    if a == p then (if DirOf(s) == -1 then 0 else Segs3(segs, s))
    else if a == Axis1(p) then j
    else i
  }

  function GridKey(segs: Triple<nat>, s: nat, i: nat, j: nat): Key
  {
    (KeyComp(segs, s, i, j, 0), KeyComp(segs, s, i, j, 1), KeyComp(segs, s, i, j, 2))
  }

  /** The position an edge key stands for. */
  function KeyCoord(segs: Triple<nat>, c: nat, a: nat): real
    requires SegsOK(segs) && a < 3
  {
    Fraction(c, segs.At(a)) + Offsets.At(a)
  }

  function KeyPos(segs: Triple<nat>, k: Key): Vec3
    requires SegsOK(segs)
  {
    Vec3(KeyCoord(segs, k.0, 0), KeyCoord(segs, k.1, 1), KeyCoord(segs, k.2, 2))
  }

  lemma KeyCoordOf(segs: Triple<nat>, s: nat, i: nat, j: nat, a: nat)
    requires SegsOK(segs) && a < 3
    ensures GridCoord(segs, s, i, j, a) == KeyCoord(segs, KeyComp(segs, s, i, j, a), a)
  {
    var p := PlaneOf(s);
    if a == p && DirOf(s) == 1 {
      var n := segs.At(a);
      assert Fraction(n, n) == 1.0;
    } else if a == p {
      assert Fraction(0, segs.At(a)) == 0.0;
    }
  }

  /** A grid vertex is where its edge key says: vertices of different sides with equal
      keys have equal positions, so sharing one `PosObj` between them is sound. */
  lemma KeyPosOf(segs: Triple<nat>, s: nat, i: nat, j: nat)
    requires SegsOK(segs)
    ensures GridPos(segs, s, i, j) == KeyPos(segs, GridKey(segs, s, i, j))
  {
    KeyCoordOf(segs, s, i, j, 0);
    KeyCoordOf(segs, s, i, j, 1);
    KeyCoordOf(segs, s, i, j, 2);
  }

  /** The texture coordinates of grid vertex (`i`, `j`) of side `s`. */
  function GridUV(segs: Triple<nat>, s: nat, i: nat, j: nat): (real, real)
    requires SegsOK(segs)
  {
    // plane 1 is the one `SideTable` names "zx"
    UVOf(Fraction(j, Segs1(segs, s)), Fraction(i, Segs2(segs, s)), PlaneOf(s) == 1, DirOf(s))
  }

  /** `u` and `v` from the fractions `a` and `b` along the first and second axis. */
  function UVOf(a: real, b: real, zx: bool, direction: int): (real, real)
  {
    var u := (if zx then -b else a) * direction as real
      + (if (if zx then direction > 0 else direction < 0) then 1.0 else 0.0);
    (u, if zx then a else b)
  }

  lemma UVOfInUnit(a: real, b: real, zx: bool, direction: int)
    requires 0.0 <= a <= 1.0 && 0.0 <= b <= 1.0 && (direction == 1 || direction == -1)
    ensures 0.0 <= UVOf(a, b, zx, direction).0 <= 1.0 && 0.0 <= UVOf(a, b, zx, direction).1 <= 1.0
    ensures UVOf(0.0, 0.0, zx, direction).0 in {0.0, 1.0} && UVOf(0.0, 0.0, zx, direction).1 == 0.0
  {
    if direction == 1 {
      assert UVOf(a, b, zx, direction).0 == if zx then -b + 1.0 else a;
    } else {
      assert UVOf(a, b, zx, direction).0 == if zx then b else -a + 1.0;
    }
  }

  lemma FractionInUnit(n: nat, k: nat)
    requires 0 < n && k <= n
    ensures 0.0 <= Fraction(k, n) <= 1.0
  {
    var f := Fraction(k, n);
    assert f * n as real == k as real;
  }

  /** Every side is textured over the whole unit square: its texture coordinates run
      from 0 to 1 in both directions, and the corner (0, 0) of the grid lies at a corner
      of the square. */
  lemma UVInUnit(segs: Triple<nat>, s: nat, i: nat, j: nat)
    requires SegsOK(segs) && i <= Segs2(segs, s) && j <= Segs1(segs, s)
    ensures 0.0 <= GridUV(segs, s, i, j).0 <= 1.0 && 0.0 <= GridUV(segs, s, i, j).1 <= 1.0
    ensures GridUV(segs, s, 0, 0).0 in {0.0, 1.0} && GridUV(segs, s, 0, 0).1 == 0.0
  {
    UVEq(segs, s, i, j);
    UVEq(segs, s, 0, 0);
    FractionInUnit(Segs1(segs, s), j);
    FractionInUnit(Segs2(segs, s), i);
    assert Fraction(0, Segs1(segs, s)) == 0.0 && Fraction(0, Segs2(segs, s)) == 0.0;
    UVOfInUnit(Fraction(j, Segs1(segs, s)), Fraction(i, Segs2(segs, s)), PlaneOf(s) == 1, DirOf(s));
  }

  lemma UVEq(segs: Triple<nat>, s: nat, i: nat, j: nat)
    requires SegsOK(segs)
    ensures GridUV(segs, s, i, j) == UVOf(Fraction(j, Segs1(segs, s)), Fraction(i, Segs2(segs, s)), PlaneOf(s) == 1, DirOf(s))
  {
  }

  /** The data of one vertex of a side: the id of its `PosObj`, its normal and its
      texture coordinates. */
  datatype VertData = VertData(posObj: nat, normal: Vec3, uv: (real, real))

  /** The bookkeeping of `PosObj` identities: `positions` holds the position of every
      `PosObj` created so far (its id is its index), `edgePos` is `edge_positions`,
      `keyOf` its inverse and `owner` names the one interior vertex (side, `i`, `j`) a
      `PosObj` was created for. */
  ghost predicate StoreOK(segs: Triple<nat>, positions: seq<Vec3>, edgePos: map<Key, nat>,
                          keyOf: map<nat, Key>, owner: map<nat, (nat, nat, nat)>)
    requires SegsOK(segs)
  {
    && (forall k :: k in edgePos ==>
          && edgePos[k] < |positions| && edgePos[k] in keyOf && keyOf[edgePos[k]] == k
          && edgePos[k] !in owner && positions[edgePos[k]] == KeyPos(segs, k))
    && (forall x :: x in owner ==> x < |positions|)
    && (forall x :: x in keyOf ==> x < |positions|)
  }

  /** The store only grows: positions are appended and map entries kept. */
  ghost predicate Grows(positions0: seq<Vec3>, edgePos0: map<Key, nat>, keyOf0: map<nat, Key>,
                        owner0: map<nat, (nat, nat, nat)>, positions: seq<Vec3>, edgePos: map<Key, nat>,
                        keyOf: map<nat, Key>, owner: map<nat, (nat, nat, nat)>)
  {
    && |positions0| <= |positions| && (forall x :: 0 <= x < |positions0| ==> positions[x] == positions0[x])
    && (forall k :: k in edgePos0 ==> k in edgePos && edgePos[k] == edgePos0[k])
    && (forall x :: x in keyOf0 ==> x in keyOf && keyOf[x] == keyOf0[x])
    && (forall x :: x in owner0 ==> x in owner && owner[x] == owner0[x])
  }

  /** Vertex data `vd` has the normal, texture coordinates and position of grid vertex
      (`i`, `j`) of side `s`. */
  predicate VertexAt(segs: Triple<nat>, vd: VertData, s: nat, i: nat, j: nat, positions: seq<Vec3>)
    requires SegsOK(segs) && s < 6
  {
    && vd.normal == SideNormal(PlaneOf(s), DirOf(s)) && vd.uv == GridUV(segs, s, i, j)
    && vd.posObj < |positions| && positions[vd.posObj] == GridPos(segs, s, i, j)
  }

  /** Vertex data `vd` is that of grid vertex (`i`, `j`) of side `s`: its normal and
      texture coordinates, a `PosObj` at the grid position, which is the one stored for
      its edge key when it lies on an edge and one of its own otherwise. */
  ghost predicate VertOK(segs: Triple<nat>, vd: VertData, s: nat, i: nat, j: nat, positions: seq<Vec3>,
                         edgePos: map<Key, nat>, owner: map<nat, (nat, nat, nat)>)
    requires SegsOK(segs) && s < 6
  {
    && VertexAt(segs, vd, s, i, j, positions)
    && if OnBorder(segs, s, i, j) then GridKey(segs, s, i, j) in edgePos && edgePos[GridKey(segs, s, i, j)] == vd.posObj
       else vd.posObj in owner && owner[vd.posObj] == (s, i, j)
  }

  lemma VertOKGrows(segs: Triple<nat>, vd: VertData, s: nat, i: nat, j: nat,
                    positions0: seq<Vec3>, edgePos0: map<Key, nat>, keyOf0: map<nat, Key>, owner0: map<nat, (nat, nat, nat)>,
                    positions: seq<Vec3>, edgePos: map<Key, nat>, keyOf: map<nat, Key>, owner: map<nat, (nat, nat, nat)>)
    requires SegsOK(segs) && s < 6
    requires VertOK(segs, vd, s, i, j, positions0, edgePos0, owner0)
    requires Grows(positions0, edgePos0, keyOf0, owner0, positions, edgePos, keyOf, owner)
    ensures VertOK(segs, vd, s, i, j, positions, edgePos, owner)
  {
  }

  lemma GrowsTrans(p0: seq<Vec3>, e0: map<Key, nat>, k0: map<nat, Key>, o0: map<nat, (nat, nat, nat)>,
                   p1: seq<Vec3>, e1: map<Key, nat>, k1: map<nat, Key>, o1: map<nat, (nat, nat, nat)>,
                   p2: seq<Vec3>, e2: map<Key, nat>, k2: map<nat, Key>, o2: map<nat, (nat, nat, nat)>)
    requires Grows(p0, e0, k0, o0, p1, e1, k1, o1) && Grows(p1, e1, k1, o1, p2, e2, k2, o2)
    ensures Grows(p0, e0, k0, o0, p2, e2, k2, o2)
  {
  }

  /** The vertices of side `s`: the outer loop of the vertex part of
      `define_geom_data`, one row of the grid after the other. */
  method SideVertices(segs: Triple<nat>, s: nat, positions0: seq<Vec3>, edgePos0: map<Key, nat>,
                      ghost keyOf0: map<nat, Key>, ghost owner0: map<nat, (nat, nat, nat)>)
    returns (verts: seq<VertData>, positions: seq<Vec3>, edgePos: map<Key, nat>,
             ghost keyOf: map<nat, Key>, ghost owner: map<nat, (nat, nat, nat)>)
    requires SegsOK(segs) && s < 6 && StoreOK(segs, positions0, edgePos0, keyOf0, owner0)
    ensures StoreOK(segs, positions, edgePos, keyOf, owner)
    ensures Grows(positions0, edgePos0, keyOf0, owner0, positions, edgePos, keyOf, owner)
    ensures |verts| == VertexCount(segs, s)
    ensures forall i, j :: 0 <= i <= Segs2(segs, s) && 0 <= j <= Segs1(segs, s) ==>
      VId(segs, s, i, j) < |verts| && VertOK(segs, verts[VId(segs, s, i, j)], s, i, j, positions, edgePos, owner)
  {
    var segs1, segs2 := Segs1(segs, s), Segs2(segs, s);
    verts, positions, edgePos, keyOf, owner := [], positions0, edgePos0, keyOf0, owner0;
    ghost var rows: seq<seq<VertData>> := [];
    var i := 0;
    while i < segs2 + 1
      invariant 0 <= i <= segs2 + 1 && |rows| == i && verts == Flatten(rows)
      invariant forall k :: 0 <= k < i ==> |rows[k]| == segs1 + 1
      invariant StoreOK(segs, positions, edgePos, keyOf, owner)
      invariant Grows(positions0, edgePos0, keyOf0, owner0, positions, edgePos, keyOf, owner)
      invariant forall i', j' :: 0 <= i' < i && 0 <= j' <= segs1 ==>
        VertOK(segs, rows[i'][j'], s, i', j', positions, edgePos, owner)
    {
      ghost var before := (positions, edgePos, keyOf, owner);
      var row;
      row, positions, edgePos, keyOf, owner := RowVertices(segs, s, i, positions, edgePos, keyOf, owner);
      GrowsTrans(positions0, edgePos0, keyOf0, owner0, before.0, before.1, before.2, before.3, positions, edgePos, keyOf, owner);
      ghost var rows' := rows + [row];
      forall i', j' | 0 <= i' < i + 1 && 0 <= j' <= segs1
        ensures VertOK(segs, rows'[i'][j'], s, i', j', positions, edgePos, owner)
      {
        if i' < i {
          assert rows'[i'] == rows[i'];
          VertOKGrows(segs, rows[i'][j'], s, i', j', before.0, before.1, before.2, before.3, positions, edgePos, keyOf, owner);
        } else {
          assert rows'[i'] == row;
        }
      }
      assert forall k :: 0 <= k < i + 1 ==> |rows'[k]| == segs1 + 1;
      FlattenSnoc(rows, row);
      verts := verts + row;
      rows := rows';
      i := i + 1;
    }
    RowsFlattened(segs, s, rows, positions, edgePos, owner);
  }

  /** The grid rows of side `s`, numbered row by row, are its vertex list. */
  lemma RowsFlattened(segs: Triple<nat>, s: nat, rows: seq<seq<VertData>>, positions: seq<Vec3>,
                      edgePos: map<Key, nat>, owner: map<nat, (nat, nat, nat)>)
    requires SegsOK(segs) && s < 6 && |rows| == Segs2(segs, s) + 1
    requires forall k :: 0 <= k < |rows| ==> |rows[k]| == Segs1(segs, s) + 1
    requires forall i, j :: 0 <= i < |rows| && 0 <= j <= Segs1(segs, s) ==>
      VertOK(segs, rows[i][j], s, i, j, positions, edgePos, owner)
    ensures |Flatten(rows)| == VertexCount(segs, s)
    ensures forall i, j :: 0 <= i <= Segs2(segs, s) && 0 <= j <= Segs1(segs, s) ==>
      VId(segs, s, i, j) < |Flatten(rows)| && VertOK(segs, Flatten(rows)[VId(segs, s, i, j)], s, i, j, positions, edgePos, owner)
  {
    var w := Segs1(segs, s) + 1;
    forall i, j | 0 <= i <= Segs2(segs, s) && 0 <= j <= Segs1(segs, s)
      ensures VId(segs, s, i, j) < |Flatten(rows)| && Flatten(rows)[VId(segs, s, i, j)] == rows[i][j]
    {
      FlattenIndex(rows, w, i, j);
    }
    FlattenLength(rows, w);
  }

  /** Row `i` of side `s`: the inner loop of the vertex part of `define_geom_data`. */
  method RowVertices(segs: Triple<nat>, s: nat, i: nat, positions0: seq<Vec3>, edgePos0: map<Key, nat>,
                     ghost keyOf0: map<nat, Key>, ghost owner0: map<nat, (nat, nat, nat)>)
    returns (row: seq<VertData>, positions: seq<Vec3>, edgePos: map<Key, nat>,
             ghost keyOf: map<nat, Key>, ghost owner: map<nat, (nat, nat, nat)>)
    requires SegsOK(segs) && s < 6 && StoreOK(segs, positions0, edgePos0, keyOf0, owner0)
    ensures StoreOK(segs, positions, edgePos, keyOf, owner)
    ensures Grows(positions0, edgePos0, keyOf0, owner0, positions, edgePos, keyOf, owner)
    ensures |row| == Segs1(segs, s) + 1
    ensures forall j :: 0 <= j < |row| ==> VertOK(segs, row[j], s, i, j, positions, edgePos, owner)
  {
    row, positions, edgePos, keyOf, owner := [], positions0, edgePos0, keyOf0, owner0;
    var j := 0;
    while j < Segs1(segs, s) + 1
      invariant 0 <= j <= Segs1(segs, s) + 1 && |row| == j
      invariant StoreOK(segs, positions, edgePos, keyOf, owner)
      invariant Grows(positions0, edgePos0, keyOf0, owner0, positions, edgePos, keyOf, owner)
      invariant forall j' :: 0 <= j' < j ==> VertOK(segs, row[j'], s, i, j', positions, edgePos, owner)
    {
      ghost var before := (positions, edgePos, keyOf, owner);
      var vd;
      vd, positions, edgePos, keyOf, owner := NewVertex(segs, s, i, j, positions, edgePos, keyOf, owner);
      GrowsTrans(positions0, edgePos0, keyOf0, owner0, before.0, before.1, before.2, before.3, positions, edgePos, keyOf, owner);
      forall j' | 0 <= j' < j
        ensures VertOK(segs, row[j'], s, i, j', positions, edgePos, owner)
      {
        VertOKGrows(segs, row[j'], s, i, j', before.0, before.1, before.2, before.3, positions, edgePos, keyOf, owner);
      }
      row := row + [vd];
      j := j + 1;
    }
  }

  /** The body of the inner vertex loop: the `PosObj` of grid vertex (`i`, `j`) and the
      vertex data holding it. */
  method NewVertex(segs: Triple<nat>, s: nat, i: nat, j: nat, positions0: seq<Vec3>, edgePos0: map<Key, nat>,
                   ghost keyOf0: map<nat, Key>, ghost owner0: map<nat, (nat, nat, nat)>)
    returns (vd: VertData, positions: seq<Vec3>, edgePos: map<Key, nat>,
             ghost keyOf: map<nat, Key>, ghost owner: map<nat, (nat, nat, nat)>)
    requires SegsOK(segs) && s < 6 && StoreOK(segs, positions0, edgePos0, keyOf0, owner0)
    ensures StoreOK(segs, positions, edgePos, keyOf, owner)
    ensures Grows(positions0, edgePos0, keyOf0, owner0, positions, edgePos, keyOf, owner)
    ensures VertOK(segs, vd, s, i, j, positions, edgePos, owner)
    ensures VertexAt(segs, vd, s, i, j, positions)
    ensures !OnBorder(segs, s, i, j) ==>
      vd.posObj == |positions0| && positions == positions0 + [GridPos(segs, s, i, j)] && edgePos == edgePos0
    ensures OnBorder(segs, s, i, j) && GridKey(segs, s, i, j) in edgePos0 ==>
      vd.posObj == edgePos0[GridKey(segs, s, i, j)] && positions == positions0 && edgePos == edgePos0
    ensures OnBorder(segs, s, i, j) && GridKey(segs, s, i, j) !in edgePos0 ==>
      vd.posObj == |positions0| && positions == positions0 + [GridPos(segs, s, i, j)]
      && edgePos == edgePos0[GridKey(segs, s, i, j) := vd.posObj]
  {
    positions, edgePos, keyOf, owner := positions0, edgePos0, keyOf0, owner0;
    var pos := GridPos(segs, s, i, j);
    var posObj;
    if OnBorder(segs, s, i, j) {
      var key := GridKey(segs, s, i, j);
      KeyPosOf(segs, s, i, j);
      if key in edgePos {
        posObj := edgePos[key];
      } else {
        posObj := |positions|;
        positions := positions + [pos];
        edgePos := edgePos[key := posObj];
        keyOf := keyOf[posObj := key];
      }
    } else {
      posObj := |positions|;
      positions := positions + [pos];
      owner := owner[posObj := (s, i, j)];
    }
    vd := VertData(posObj, SideNormal(PlaneOf(s), DirOf(s)), GridUV(segs, s, i, j));
  }

  /** (`i`, `j`) is a grid vertex of side `s`. */
  predicate IsGridVertex(segs: Triple<nat>, s: nat, i: nat, j: nat)
  {
    s < 6 && i <= Segs2(segs, s) && j <= Segs1(segs, s)
  }

  /** Two vertices hold the same `PosObj` exactly when they are the same vertex, or both
      lie on edges of the box with the same edge key. */
  lemma SharedIff(segs: Triple<nat>, positions: seq<Vec3>, edgePos: map<Key, nat>, keyOf: map<nat, Key>,
                  owner: map<nat, (nat, nat, nat)>, vd: VertData, s: nat, i: nat, j: nat,
                  vd': VertData, s': nat, i': nat, j': nat)
    requires SegsOK(segs) && s < 6 && s' < 6 && StoreOK(segs, positions, edgePos, keyOf, owner)
    requires VertOK(segs, vd, s, i, j, positions, edgePos, owner)
    requires VertOK(segs, vd', s', i', j', positions, edgePos, owner)
    ensures vd.posObj == vd'.posObj ==>
      (s, i, j) == (s', i', j')
      || (OnBorder(segs, s, i, j) && OnBorder(segs, s', i', j') && GridKey(segs, s, i, j) == GridKey(segs, s', i', j'))
    ensures OnBorder(segs, s, i, j) && OnBorder(segs, s', i', j') && GridKey(segs, s, i, j) == GridKey(segs, s', i', j')
      ==> vd.posObj == vd'.posObj
  {
  }

  /** All vertices of the six sides: a `PosObj` is shared exactly by the vertices on
      the edges of the box with the same edge key. */
  lemma AllShared(segs: Triple<nat>, sides: seq<seq<VertData>>, positions: seq<Vec3>, edgePos: map<Key, nat>,
                  keyOf: map<nat, Key>, owner: map<nat, (nat, nat, nat)>)
    requires SegsOK(segs) && |sides| == 6 && StoreOK(segs, positions, edgePos, keyOf, owner)
    requires forall s :: 0 <= s < 6 ==> |sides[s]| == VertexCount(segs, s)
    requires forall s: nat, i: nat, j: nat :: IsGridVertex(segs, s, i, j) ==>
      VId(segs, s, i, j) < |sides[s]| && VertOK(segs, sides[s][VId(segs, s, i, j)], s, i, j, positions, edgePos, owner)
    ensures PosObjsShared(segs, sides)
  {
    forall s: nat, i: nat, j: nat, s': nat, i': nat, j': nat | IsGridVertex(segs, s, i, j) && IsGridVertex(segs, s', i', j')
      ensures sides[s][VId(segs, s, i, j)].posObj == sides[s'][VId(segs, s', i', j')].posObj <==>
        (s, i, j) == (s', i', j')
        || (OnBorder(segs, s, i, j) && OnBorder(segs, s', i', j') && GridKey(segs, s, i, j) == GridKey(segs, s', i', j'))
    {
      SharedIff(segs, positions, edgePos, keyOf, owner, sides[s][VId(segs, s, i, j)], s, i, j,
                sides[s'][VId(segs, s', i', j')], s', i', j');
    }
  }

  /** The six sides hold the vertices of their grids, row by row. */
  ghost predicate SidesLaidOut(segs: Triple<nat>, sides: seq<seq<VertData>>, positions: seq<Vec3>)
    requires SegsOK(segs)
  {
    && |sides| == 6 && (forall s :: 0 <= s < 6 ==> |sides[s]| == VertexCount(segs, s))
    && forall s: nat, i: nat, j: nat :: IsGridVertex(segs, s, i, j) ==>
         VId(segs, s, i, j) < |sides[s]| && VertexAt(segs, sides[s][VId(segs, s, i, j)], s, i, j, positions)
  }

  /** Two grid vertices hold the same `PosObj` exactly when they are the same vertex, or
      both lie on edges of the box with equal edge keys. */
  ghost predicate PosObjsShared(segs: Triple<nat>, sides: seq<seq<VertData>>)
  {
    forall s: nat, i: nat, j: nat, s': nat, i': nat, j': nat ::
      && IsGridVertex(segs, s, i, j) && IsGridVertex(segs, s', i', j')
      && s < |sides| && s' < |sides| && VId(segs, s, i, j) < |sides[s]| && VId(segs, s', i', j') < |sides[s']|
      ==>
      (sides[s][VId(segs, s, i, j)].posObj == sides[s'][VId(segs, s', i', j')].posObj <==>
        (s, i, j) == (s', i', j')
        || (OnBorder(segs, s, i, j) && OnBorder(segs, s', i', j') && GridKey(segs, s, i, j) == GridKey(segs, s', i', j')))
  }

  /** The vertex part of `define_geom_data`: the vertices of the six sides, with one
      `edge_positions` store shared by all of them. */
  method DefineVertices(segs: Triple<nat>) returns (sides: seq<seq<VertData>>, positions: seq<Vec3>)
    requires SegsOK(segs)
    ensures SidesLaidOut(segs, sides, positions) && PosObjsShared(segs, sides)
  {
    sides, positions := [], [];
    var edgePos: map<Key, nat> := map[];
    ghost var keyOf: map<nat, Key> := map[];
    ghost var owner: map<nat, (nat, nat, nat)> := map[];
    var s := 0;
    while s < 6
      invariant 0 <= s <= 6 && |sides| == s
      invariant forall s' :: 0 <= s' < s ==> |sides[s']| == VertexCount(segs, s')
      invariant StoreOK(segs, positions, edgePos, keyOf, owner)
      invariant forall s': nat, i: nat, j: nat :: s' < s && IsGridVertex(segs, s', i, j) ==>
        VId(segs, s', i, j) < |sides[s']| && VertOK(segs, sides[s'][VId(segs, s', i, j)], s', i, j, positions, edgePos, owner)
    {
      ghost var before := (positions, edgePos, keyOf, owner);
      var verts;
      verts, positions, edgePos, keyOf, owner := SideVertices(segs, s, positions, edgePos, keyOf, owner);
      forall s': nat, i: nat, j: nat | s' < s && IsGridVertex(segs, s', i, j)
        ensures VertOK(segs, sides[s'][VId(segs, s', i, j)], s', i, j, positions, edgePos, owner)
      {
        VertOKGrows(segs, sides[s'][VId(segs, s', i, j)], s', i, j, before.0, before.1, before.2, before.3,
                    positions, edgePos, keyOf, owner);
      }
      sides := sides + [verts];
      s := s + 1;
    }
    AllShared(segs, sides, positions, edgePos, keyOf, owner);
  }

  // ---------------------------------------------------------------------------
  // Faces
  // ---------------------------------------------------------------------------

  /** A polygon of the box: its side, its two triangles as vertex ids of that side and
      its smoothing group. */
  datatype PolyData = PolyData(side: nat, tris: seq<seq<nat>>, smoothing: nat)

  /** The two triangles of grid cell (`i`, `j`) on a side with `segs1` segments along
      its first axis, wound by `direction`. */
  function QuadTris(segs1: nat, i: nat, j: nat, direction: int): seq<seq<nat>>
  {
    var vi1 := i * (segs1 + 1) + j;
    var vi2 := vi1 + 1;
    var vi3 := vi2 + segs1;
    var vi4 := vi3 + 1;
    if direction == 1 then [[vi1, vi2, vi4], [vi1, vi4, vi3]]
    else [[vi1, vi4, vi2], [vi1, vi3, vi4]]
  }

  /** Row `i` of the cells of side `s`. */
  function CellRow(segs: Triple<nat>, s: nat, i: nat, smoothing: nat): seq<PolyData>
  {
    seq(Segs1(segs, s), j requires 0 <= j < Segs1(segs, s) =>
      PolyData(s, QuadTris(Segs1(segs, s), i, j, DirOf(s)), smoothing))
  }

  function RowsOf(segs: Triple<nat>, s: nat, smoothing: nat): seq<seq<PolyData>>
  {
    seq(Segs2(segs, s), i requires 0 <= i < Segs2(segs, s) => CellRow(segs, s, i, smoothing))
  }

  /** The rows of side `s`, whose smoothing group is the side number. */
  function SideRows(segs: Triple<nat>, s: nat): seq<seq<PolyData>>
  {
    RowsOf(segs, s, s)
  }

  /** The polygons of side `s`, cell by cell in row-major order. */
  function SideFaces(segs: Triple<nat>, s: nat): seq<PolyData>
  {
    Flatten(SideRows(segs, s))
  }

  /** The polygons of sides 0 .. n - 1. */
  function FacesUpTo(segs: Triple<nat>, n: nat): seq<PolyData>
  {
    if n == 0 then [] else FacesUpTo(segs, n - 1) + SideFaces(segs, n - 1)
  }

  lemma CellBelow(i: nat, j: nat, s1: nat, s2: nat)
    requires i < s2 && j < s1
    ensures (i + 1) * (s1 + 1) + j + 1 < (s1 + 1) * (s2 + 1)
  {
    assert (i + 1) * (s1 + 1) <= s2 * (s1 + 1);
  }

  /** A side has `segs1 * segs2` polygons, polygon `i * segs1 + j` being the one of
      cell (`i`, `j`). */
  lemma SideFaceCount(segs: Triple<nat>, s: nat, i: nat, j: nat)
    requires i < Segs2(segs, s) && j < Segs1(segs, s)
    ensures |SideFaces(segs, s)| == Segs1(segs, s) * Segs2(segs, s)
    ensures i * Segs1(segs, s) + j < |SideFaces(segs, s)|
    ensures SideFaces(segs, s)[i * Segs1(segs, s) + j] == SideRows(segs, s)[i][j]
  {
    FlattenLength(SideRows(segs, s), Segs1(segs, s));
    FlattenIndex(SideRows(segs, s), Segs1(segs, s), i, j);
  }

  /** The polygon of cell (`i`, `j`) has two triangles over exactly the four corners of
      the cell, all valid vertex ids of the side (vertices (`i`, `j`), (`i`, `j`+1),
      (`i`+1, `j`) and (`i`+1, `j`+1)); its smoothing group is its side, so the six
      sides have six distinct groups 0 .. 5. */
  lemma CellFaceValid(segs: Triple<nat>, s: nat, i: nat, j: nat)
    requires i < Segs2(segs, s) && j < Segs1(segs, s)
    ensures var p := SideRows(segs, s)[i][j];
      && p.side == s && p.smoothing == s && |p.tris| == 2 && |p.tris[0]| == 3 && |p.tris[1]| == 3
      && (forall t, c :: 0 <= t < 2 && 0 <= c < 3 ==> p.tris[t][c] < VertexCount(segs, s))
      && {p.tris[0][0], p.tris[0][1], p.tris[0][2], p.tris[1][1], p.tris[1][2]}
         == {VId(segs, s, i, j), VId(segs, s, i, j + 1), VId(segs, s, i + 1, j), VId(segs, s, i + 1, j + 1)}
  {
    var s1 := Segs1(segs, s);
    CellBelow(i, j, s1, Segs2(segs, s));
    assert i * (s1 + 1) + j + 1 + s1 == (i + 1) * (s1 + 1) + j;
  }

  /** Every polygon of the first `n` sides is in the smoothing group of its side, which
      is below `n`: the groups 0 .. 5 of a box are one per side. */
  lemma {:induction false} FacesUpToSmoothing(segs: Triple<nat>, n: nat, k: nat)
    requires k < |FacesUpTo(segs, n)|
    ensures FacesUpTo(segs, n)[k].smoothing == FacesUpTo(segs, n)[k].side < n
  {
    var prev := FacesUpTo(segs, n - 1);
    if k < |prev| {
      FacesUpToSmoothing(segs, n - 1, k);
    } else {
      var rows := SideRows(segs, n - 1);
      FlattenElem(rows, k - |prev|);
      var r :| 0 <= r < |rows| && Flatten(rows)[k - |prev|] in rows[r];
    }
  }

  /** Reversing a triangle and starting it at the same corner. */
  function Reversed(t: seq<nat>): seq<nat>
    requires |t| == 3
  {
    [t[0], t[2], t[1]]
  }

  /** The sides with direction -1 have the winding of direction +1 reversed: each of
      their triangles is the reversal, up to rotation, of the matching one, and the two
      triangles of a cell share its diagonal from `vi1` to `vi4`. */
  lemma WindingReversed(segs1: nat, i: nat, j: nat)
    ensures var up := QuadTris(segs1, i, j, 1);
      var down := QuadTris(segs1, i, j, -1);
      && down[0] == Reversed(up[0]) && down[1] == Reversed(up[1])
      && up[0][0] == up[1][0] && up[0][2] == up[1][1]
  {
  }

  /** The face part of `define_geom_data`: the loop over sides, with a smoothing id
      counting sides. */
  method DefineFaces(segs: Triple<nat>) returns (geom: seq<PolyData>)
    requires SegsOK(segs)
    ensures geom == FacesUpTo(segs, 6)
  {
    geom := [];
    var smoothingId := 0;
    var s := 0;
    while s < 6
      invariant 0 <= s <= 6 && smoothingId == s
      invariant geom == FacesUpTo(segs, s)
    {
      var faces := SideFacesLoop(segs, s, smoothingId);
      geom := geom + faces;
      smoothingId := smoothingId + 1;
      s := s + 1;
    }
  }

  /** The faces of side `s`, row after row, in smoothing group `smoothingId`. */
  method SideFacesLoop(segs: Triple<nat>, s: nat, smoothingId: nat) returns (faces: seq<PolyData>)
    ensures faces == Flatten(RowsOf(segs, s, smoothingId))
  {
    faces := [];
    var i := 0;
    while i < Segs2(segs, s)
      invariant 0 <= i <= Segs2(segs, s)
      invariant faces == Flatten(RowsOf(segs, s, smoothingId)[..i])
    {
      var row := FaceRow(segs, s, i, smoothingId);
      assert RowsOf(segs, s, smoothingId)[..i + 1] == RowsOf(segs, s, smoothingId)[..i] + [row];
      FlattenSnoc(RowsOf(segs, s, smoothingId)[..i], row);
      faces := faces + row;
      i := i + 1;
    }
    assert RowsOf(segs, s, smoothingId)[..Segs2(segs, s)] == RowsOf(segs, s, smoothingId);
  }

  /** Row `i` of the cells of side `s`: the innermost face loop. */
  method FaceRow(segs: Triple<nat>, s: nat, i: nat, smoothingId: nat) returns (row: seq<PolyData>)
    ensures row == CellRow(segs, s, i, smoothingId)
  {
    var segs1 := Segs1(segs, s);
    var direction := DirOf(s);
    row := [];
    var j := 0;
    while j < segs1
      invariant 0 <= j <= segs1
      invariant row == CellRow(segs, s, i, smoothingId)[..j]
    {
      var vi1 := i * (segs1 + 1) + j;
      var vi2 := vi1 + 1;
      var vi3 := vi2 + segs1;
      var vi4 := vi3 + 1;
      var tri1 := if direction == 1 then [vi1, vi2, vi4] else [vi1, vi4, vi2];
      var tri2 := if direction == 1 then [vi1, vi4, vi3] else [vi1, vi3, vi4];
      assert CellRow(segs, s, i, smoothingId)[..j + 1] == row + [PolyData(s, [tri1, tri2], smoothingId)];
      row := row + [PolyData(s, [tri1, tri2], smoothingId)];
      j := j + 1;
    }
  }

  // ---------------------------------------------------------------------------
  // The primitive
  // ---------------------------------------------------------------------------

  function Abs(x: real): real { if x < 0.0 then -x else x }
  function Max(a: real, b: real): real { if a < b then b else a }
  function Max3(t: Triple<real>): real { Max(Max(t.x, t.y), t.z) }

  /** The smallest size a box dimension is given while it is created. */
  const MinSize: real := 0.001

  /** A size with dimension `axis` set to `value`. */
  function WithAt(t: Triple<real>, axis: nat, value: real): (r: Triple<real>)
    requires axis < 3
    ensures r.At(axis) == value && forall a :: 0 <= a < 3 && a != axis ==> r.At(a) == t.At(a)
  {
    if axis == 0 then t.(x := value) else if axis == 1 then t.(y := value) else t.(z := value)
  }

  /** The size `update_creation_size` stores: when `x` (and `y`) are given their
      magnitudes clamped to `MinSize`, when `z` is given its magnitude clamped likewise
      with the sign of `z`. */
  function CreationSize(size: Triple<real>, xy: Option<(real, real)>, z: Option<real>): (r: Triple<real>)
  {
    var size1 := if xy.Some? then Triple(Max(Abs(xy.value.0), MinSize), Max(Abs(xy.value.1), MinSize), size.z) else size;
    if z.Some? then
      var sz := Max(Abs(z.value), MinSize);
      size1.(z := if z.value < 0.0 then -sz else sz)
    else size1
  }

  /** A creation size is never thinner than `MinSize` in a dimension that was given,
      keeps the sign of `z` and leaves the other dimensions alone. */
  lemma CreationSizeBounds(size: Triple<real>, xy: Option<(real, real)>, z: Option<real>)
    ensures var r := CreationSize(size, xy, z);
      && (xy.Some? ==> r.x >= MinSize && r.y >= MinSize
                       && (Abs(xy.value.0) >= MinSize ==> r.x == Abs(xy.value.0))
                       && (Abs(xy.value.1) >= MinSize ==> r.y == Abs(xy.value.1)))
      && (xy.None? ==> r.x == size.x && r.y == size.y)
      && (z.Some? ==> Abs(r.z) >= MinSize && (r.z < 0.0 <==> z.value < 0.0)
                      && (Abs(z.value) >= MinSize ==> r.z == z.value))
      && (z.None? ==> r.z == size.z)
  {
  }

  /** `is_valid` as written: the largest of the signed sizes exceeds `MinSize`. */
  predicate ValidAsWritten(size: Triple<real>)
  {
    Max3(size) > MinSize
  }

  /** A box dragged downwards keeps a negative z size, so a tall box of the smallest
      footprint is rejected when it was dragged down and accepted when dragged up. */
  lemma ValidAsWrittenRejectsDownwards()
    ensures var down := CreationSize(Triple(1.0, 1.0, 1.0), Some((0.0, 0.0)), Some(-5.0));
      var up := CreationSize(Triple(1.0, 1.0, 1.0), Some((0.0, 0.0)), Some(5.0));
      && !ValidAsWritten(down) && ValidAsWritten(up) && Abs(down.z) == Abs(up.z) == 5.0
  {
  }

  /** `is_valid` corrected: some dimension of the box is larger than `MinSize`, by
      magnitude. */
  predicate Valid(size: Triple<real>)
  {
    Max3(Triple(Abs(size.x), Abs(size.y), Abs(size.z))) > MinSize
  }

  /** The corrected test holds exactly when some dimension exceeds `MinSize` in
      magnitude, whatever the direction the box was dragged in; it agrees with the
      written one on boxes whose sizes are all positive. */
  lemma ValidIff(size: Triple<real>)
    ensures Valid(size) <==> Abs(size.x) > MinSize || Abs(size.y) > MinSize || Abs(size.z) > MinSize
    ensures Valid(size) == Valid(size.(z := -size.z))
    ensures size.x >= 0.0 && size.y >= 0.0 && size.z >= 0.0 ==> (Valid(size) <==> ValidAsWritten(size))
  {
  }

  /** The fields of the box primitive that its geometry and creation depend on. */
  class BoxPrim {
    var segments: Triple<nat>
    var size: Triple<real>

    constructor()
      ensures segments == Triple(1, 1, 1) && size == Triple(1.0, 1.0, 1.0)
    {
      segments := Triple(1, 1, 1);
      size := Triple(1.0, 1.0, 1.0);
    }

    /** `set_segments`: no change for equal counts; otherwise they are stored. */
    method SetSegments(segs: Triple<nat>) returns (changed: bool)
      modifies this
      ensures changed == (old(segments) != segs)
      ensures segments == segs && size == old(size)
    {
      if segments == segs {
        return false;
      }
      segments := segs;
      return true;
    }

    /** `set_dimension`: no change for an equal value; otherwise it is stored. */
    method SetDimension(axis: nat, value: real) returns (changed: bool)
      requires axis < 3
      modifies this
      ensures changed == (old(size).At(axis) != value)
      ensures size.At(axis) == value && segments == old(segments)
      ensures forall a :: 0 <= a < 3 && a != axis ==> size.At(a) == old(size).At(a)
    {
      if size.At(axis) == value {
        return false;
      }
      size := WithAt(size, axis, value);
      return true;
    }

    /** `update_creation_size` without `finalize`: the sizes; the transforms of the
        origin are not modelled. */
    method UpdateCreationSize(xy: Option<(real, real)>, z: Option<real>)
      modifies this
      ensures size == CreationSize(old(size), xy, z) && segments == old(segments)
    {
      if xy.Some? {
        var (x, y) := xy.value;
        var sx := Max(Abs(x), MinSize);
        var sy := Max(Abs(y), MinSize);
        if size.x != sx {
          size := size.(x := sx);
        }
        if size.y != sy {
          size := size.(y := sy);
        }
      }
      if z.Some? {
        var sz := Max(Abs(z.value), MinSize);
        var s := if z.value < 0.0 then -sz else sz;
        if size.z != s {
          size := size.(z := s);
        }
      }
    }

    /** `is_valid`, corrected to compare magnitudes. */
    predicate IsValid(): (ok: bool)
      reads this
      ensures ok <==> Abs(size.x) > MinSize || Abs(size.y) > MinSize || Abs(size.z) > MinSize
    {
      ValidIff(size);
      Valid(size)
    }

    /** `define_geom_data`: the vertices of the six sides over their position objects,
        and the polygons over the vertex ids of their sides. */
    method DefineGeomData() returns (sides: seq<seq<VertData>>, positions: seq<Vec3>, geom: seq<PolyData>)
      requires SegsOK(segments)
      ensures SidesLaidOut(segments, sides, positions) && PosObjsShared(segments, sides)
      ensures geom == FacesUpTo(segments, 6)
    {
      sides, positions := DefineVertices(segments);
      geom := DefineFaces(segments);
    }
  }
}
