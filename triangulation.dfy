/** Index arithmetic of the incremental triangulation done while a polygon is clicked
    out (add_new_poly_vertex in src/core/geom/data/poly_create.py), and the running
    normal built from it. A triangle is a list of three position indices. */
module Triangulation {

  import opened Vectors

  function Abs(x: int): nat
  {
    if x < 0 then -x else x
  }

  function Min(a: nat, b: nat): nat
  {
    if a <= b then a else b
  }

  function Max(a: nat, b: nat): nat
  {
    if a <= b then b else a
  }

  /** Python's `list.index`: the position of the first occurrence of `x`. */
  function IndexOf(s: seq<nat>, x: nat): (i: nat)
    requires x in s
    ensures i < |s| && s[i] == x
    ensures forall j :: 0 <= j < i ==> s[j] != x
  {
    if s[0] == x then 0 else 1 + IndexOf(s[1..], x)
  }

  /** The second vertex of the shared edge, next to the pivot `s`, when the position
      with index `k` is being committed. */
  function SecondShared(s: nat, k: nat): nat
    requires k >= 1
  {
    if s == k then k - 1 else k
  }

  /** The triangle appended when the position with index `k` (> 1) is committed:
      the edge it shares with the previous triangle `prev`, ordered by where its two
      ends stand in `prev`, followed by the new placeholder index `k + 1`. */
  function NextTriangle(prev: seq<nat>, s: nat, k: nat): seq<nat>
    requires |prev| == 3 && k >= 1
    requires s in prev && SecondShared(s, k) in prev
  {
    var i1 := IndexOf(prev, s);
    var i2 := IndexOf(prev, SecondShared(s, k));
    if Abs(i2 - i1) == 1 then
      [prev[Max(i1, i2)], prev[Min(i1, i2)], k + 1]
    else
      [prev[Min(i1, i2)], prev[Max(i1, i2)], k + 1]
  }

  /** Shape of every triangle of a session: it ends in the placeholder `top`, its two
      other indices are distinct committed positions, and one of them is the last
      committed position `top - 1`. */
  ghost predicate IsTri(t: seq<nat>, top: nat)
  {
    && |t| == 3
    && t[2] == top
    && t[0] < top && t[1] < top && t[0] != t[1]
    && (t[0] == top - 1 || t[1] == top - 1)
  }

  /** The triangle `t` traverses the directed edge a -> b in its winding order. */
  predicate Directed(t: seq<nat>, a: nat, b: nat)
    requires |t| == 3
  {
    (t[0] == a && t[1] == b) || (t[1] == a && t[2] == b) || (t[2] == a && t[0] == b)
  }

  /** Committing position `k` with pivot `s` yields a triangle of the same shape whose
      shared edge {s, k} is traversed in the direction opposite to the one it has in
      the previous triangle, so both triangles face the same way. */
  lemma NextTriangleShape(prev: seq<nat>, s: nat, k: nat)
    requires k >= 2 && IsTri(prev, k)
    requires s == prev[0] || s == prev[1]
    ensures SecondShared(s, k) == k && s in prev && k in prev
    ensures IsTri(NextTriangle(prev, s, k), k + 1)
    ensures s == NextTriangle(prev, s, k)[0] || s == NextTriangle(prev, s, k)[1]
    ensures Directed(prev, s, k) != Directed(prev, k, s)
    ensures Directed(prev, s, k) <==> Directed(NextTriangle(prev, s, k), k, s)
    ensures Directed(prev, k, s) <==> Directed(NextTriangle(prev, s, k), s, k)
  {
    assert prev[2] == k;
    if s == prev[1] {
      assert IndexOf(prev, s) == 1 && IndexOf(prev, k) == 2;
      assert NextTriangle(prev, s, k) == [k, s, k + 1];
    } else {
      assert IndexOf(prev, s) == 0 && IndexOf(prev, k) == 2;
      assert NextTriangle(prev, s, k) == [s, k, k + 1];
    }
  }

  /** `tri_data[::-1]` */
  function Reverse3(t: seq<nat>): seq<nat>
    requires |t| == 3
  {
    [t[2], t[1], t[0]]
  }

  /** Reversing a triangle reverses every edge it traverses. */
  lemma ReverseFlipsEdges(t: seq<nat>, a: nat, b: nat)
    requires |t| == 3
    ensures Directed(Reverse3(t), a, b) <==> Directed(t, b, a)
  {
  }

  ghost predicate IndicesBelow(ts: seq<seq<nat>>, n: nat)
  {
    forall j :: 0 <= j < |ts| ==> |ts[j]| == 3 && ts[j][0] < n && ts[j][1] < n && ts[j][2] < n
  }

  /** `V3D(pos2 - pos1) ** V3D(pos3 - pos2)` for the positions of triangle `t`. */
  function TriNormal(p: seq<Vec3>, t: seq<nat>): Vec3
    requires |t| == 3 && t[0] < |p| && t[1] < |p| && t[2] < |p|
  {
    Cross(Sub(p[t[1]], p[t[0]]), Sub(p[t[2]], p[t[1]]))
  }

  /** The running normal: the sum of the unnormalised normals of `ts`, each added to
      the sum of those before it. */
  function NormalSum(p: seq<Vec3>, ts: seq<seq<nat>>): Vec3
    requires IndicesBelow(ts, |p|)
  {
    if |ts| == 0 then Zero
    else Add(TriNormal(p, ts[|ts| - 1]), NormalSum(p, ts[..|ts| - 1]))
  }

  lemma NormalSumSnoc(p: seq<Vec3>, ts: seq<seq<nat>>, t: seq<nat>)
    requires IndicesBelow(ts + [t], |p|)
    ensures IndicesBelow(ts, |p|)
    ensures NormalSum(p, ts + [t]) == Add(TriNormal(p, t), NormalSum(p, ts))
  {
    assert (ts + [t])[..|ts|] == ts;
  }

  /** The running normal only depends on the positions the triangles refer to. */
  lemma {:induction false} NormalSumPrefix(p: seq<Vec3>, q: seq<Vec3>, ts: seq<seq<nat>>)
    requires IndicesBelow(ts, |p|) && |p| <= |q| && q[..|p|] == p
    ensures IndicesBelow(ts, |q|)
    ensures NormalSum(q, ts) == NormalSum(p, ts)
  {
    if |ts| > 0 {
      var t := ts[|ts| - 1];
      assert p[t[0]] == q[t[0]] && p[t[1]] == q[t[1]] && p[t[2]] == q[t[2]];
      NormalSumPrefix(p, q, ts[..|ts| - 1]);
    }
  }

  /** Reversing a triangle negates its normal. */
  lemma TriNormalOfReverse(p: seq<Vec3>, t: seq<nat>)
    requires |t| == 3 && t[0] < |p| && t[1] < |p| && t[2] < |p|
    ensures TriNormal(p, Reverse3(t)) == Neg(TriNormal(p, t))
  {
    var u := Sub(p[t[1]], p[t[0]]);
    var v := Sub(p[t[2]], p[t[1]]);
    assert Sub(p[t[1]], p[t[2]]) == Neg(v);
    assert Sub(p[t[0]], p[t[1]]) == Neg(u);
    CrossOfNegations(v, u);
    CrossAntiCommutes(u, v);
  }

  function ReverseAll(ts: seq<seq<nat>>): (r: seq<seq<nat>>)
    requires forall j :: 0 <= j < |ts| ==> |ts[j]| == 3
    ensures |r| == |ts| && forall j :: 0 <= j < |ts| ==> r[j] == Reverse3(ts[j])
  {
    seq(|ts|, j requires 0 <= j < |ts| => Reverse3(ts[j]))
  }

  /** Reversing every triangle negates the running normal: winding and normal invert
      together. */
  lemma {:induction false} NormalSumOfReversed(p: seq<Vec3>, ts: seq<seq<nat>>)
    requires IndicesBelow(ts, |p|)
    ensures IndicesBelow(ReverseAll(ts), |p|)
    ensures NormalSum(p, ReverseAll(ts)) == Neg(NormalSum(p, ts))
  {
    var r := ReverseAll(ts);
    if |ts| > 0 {
      var n := |ts| - 1;
      assert r[..n] == ReverseAll(ts[..n]);
      NormalSumOfReversed(p, ts[..n]);
      TriNormalOfReverse(p, ts[n]);
    }
  }

  /** The running normals of a session: entry `i` is the normal sum of the first `i`
      triangles (`tmp_data["normals"]`, which starts out as `[Vec3()]`). */
  function NormalsOf(p: seq<Vec3>, ts: seq<seq<nat>>): (r: seq<Vec3>)
    requires IndicesBelow(ts, |p|)
    ensures |r| == |ts| + 1 && r[0] == Zero
  {
    if |ts| == 0 then [Zero]
    else
      var r := NormalsOf(p, ts[..|ts| - 1]);
      r + [Add(TriNormal(p, ts[|ts| - 1]), r[|r| - 1])]
  }

  /** The last running normal is the normal sum of all triangles. */
  lemma {:induction false} NormalsOfLast(p: seq<Vec3>, ts: seq<seq<nat>>)
    requires IndicesBelow(ts, |p|)
    ensures NormalsOf(p, ts)[|ts|] == NormalSum(p, ts)
  {
    if |ts| > 0 {
      NormalsOfLast(p, ts[..|ts| - 1]);
    }
  }

  lemma {:induction false} NormalsOfPrefix(p: seq<Vec3>, q: seq<Vec3>, ts: seq<seq<nat>>)
    requires IndicesBelow(ts, |p|) && |p| <= |q| && q[..|p|] == p
    ensures IndicesBelow(ts, |q|)
    ensures NormalsOf(q, ts) == NormalsOf(p, ts)
  {
    if |ts| > 0 {
      var t := ts[|ts| - 1];
      assert p[t[0]] == q[t[0]] && p[t[1]] == q[t[1]] && p[t[2]] == q[t[2]];
      NormalsOfPrefix(p, q, ts[..|ts| - 1]);
    }
  }

  /** The other committed index of a triangle, next to `s`. */
  function Other(t: seq<nat>, s: nat): nat
    requires |t| == 3
  {
    if t[0] == s then t[1] else t[0]
  }

  /** `Geom.reverse_in_place` on a list of triangles: the winding of every complete
      triangle is reversed. */
  function ReverseTriples(s: seq<nat>): (r: seq<nat>)
    ensures |r| == |s|
    decreases |s|
  {
    if |s| < 3 then s else Reverse3(s[..3]) + ReverseTriples(s[3..])
  }

  lemma {:induction false} ReverseTriplesAppend(a: seq<nat>, b: seq<nat>)
    requires |a| % 3 == 0
    ensures ReverseTriples(a + b) == ReverseTriples(a) + ReverseTriples(b)
    decreases |a|
  {
    if |a| >= 3 {
      assert (a + b)[..3] == a[..3];
      assert (a + b)[3..] == a[3..] + b;
      ReverseTriplesAppend(a[3..], b);
    } else {
      assert a == [] && a + b == b;
    }
  }

  lemma {:induction false} ReverseTriplesTwice(s: seq<nat>)
    ensures ReverseTriples(ReverseTriples(s)) == s
    decreases |s|
  {
    if |s| >= 3 {
      var r := ReverseTriples(s);
      assert r[..3] == Reverse3(s[..3]);
      assert r[3..] == ReverseTriples(s[3..]);
      ReverseTriplesTwice(s[3..]);
      assert s == s[..3] + s[3..];
    }
  }
}
