/** Sequence helpers standing in for Python list operations. */
module Seqs {

  function Last<T>(s: seq<T>): T
    requires |s| > 0
  {
    s[|s| - 1]
  }

  function DropLast<T>(s: seq<T>): seq<T>
    requires |s| > 0
  {
    s[..|s| - 1]
  }

  /** Python's `list.remove(x)`, which drops the first occurrence of `x` (the model
      leaves the list as it is when `x` is absent, where Python raises). */
  function RemoveFirst<T(==)>(s: seq<T>, x: T): seq<T>
  {
    if s == [] then []
    else if s[0] == x then s[1..]
    else [s[0]] + RemoveFirst(s[1..], x)
  }

  ghost predicate NoDup<T>(s: seq<T>)
  {
    forall i, j :: 0 <= i < j < |s| ==> s[i] != s[j]
  }

  ghost predicate StrictlyIncreasing(s: seq<nat>)
  {
    forall i, j :: 0 <= i < j < |s| ==> s[i] < s[j]
  }

  /** Number of occurrences of `x` in `s`. */
  function Count<T(==)>(s: seq<T>, x: T): nat
  {
    if s == [] then 0 else Count(s[..|s| - 1], x) + (if s[|s| - 1] == x then 1 else 0)
  }

  function Flatten<T>(ss: seq<seq<T>>): seq<T>
  {
    if ss == [] then [] else Flatten(ss[..|ss| - 1]) + ss[|ss| - 1]
  }

  /** Removing the first occurrence of a value that occurs once removes exactly that
      value and keeps the order of the rest. */
  lemma {:induction false} RemoveFirstOfUnique<T>(s: seq<T>, x: T)
    requires NoDup(s)
    ensures |RemoveFirst(s, x)| == if x in s then |s| - 1 else |s|
    ensures NoDup(RemoveFirst(s, x))
    ensures forall y :: y in RemoveFirst(s, x) <==> y in s && y != x
  {
    if s != [] && s[0] != x {
      assert NoDup(s[1..]) by {
        forall i, j | 0 <= i < j < |s[1..]| ensures s[1..][i] != s[1..][j] {
          assert s[1..][i] == s[i + 1] && s[1..][j] == s[j + 1];
        }
      }
      RemoveFirstOfUnique(s[1..], x);
      var r := RemoveFirst(s[1..], x);
      assert RemoveFirst(s, x) == [s[0]] + r;
      assert s[0] !in r by {
        forall j | 0 <= j < |s[1..]| ensures s[1..][j] != s[0] {
          assert s[1..][j] == s[j + 1];
        }
      }
      forall i, j | 0 <= i < j < |[s[0]] + r| ensures ([s[0]] + r)[i] != ([s[0]] + r)[j] {
        if i > 0 {
          assert ([s[0]] + r)[i] == r[i - 1] && ([s[0]] + r)[j] == r[j - 1];
        }
      }
    } else if s != [] {
      assert s == [s[0]] + s[1..];
      forall i, j | 0 <= i < j < |s[1..]| ensures s[1..][i] != s[1..][j] {
        assert s[1..][i] == s[i + 1] && s[1..][j] == s[j + 1];
      }
      assert s[0] !in s[1..] by {
        forall j | 0 <= j < |s[1..]| ensures s[1..][j] != s[0] {
          assert s[1..][j] == s[j + 1];
        }
      }
    }
  }

  /** In a strictly increasing list, removing its greatest element drops the last one. */
  lemma {:induction false} RemoveFirstOfGreatest(s: seq<nat>, x: nat)
    requires StrictlyIncreasing(s) && |s| > 0 && Last(s) == x
    ensures RemoveFirst(s, x) == DropLast(s)
  {
    if |s| > 1 {
      assert s[0] < x;
      assert StrictlyIncreasing(s[1..]) by {
        forall i, j | 0 <= i < j < |s[1..]| ensures s[1..][i] < s[1..][j] {
          assert s[1..][i] == s[i + 1] && s[1..][j] == s[j + 1];
        }
      }
      RemoveFirstOfGreatest(s[1..], x);
      assert DropLast(s) == [s[0]] + DropLast(s[1..]);
    }
  }

  lemma CountSnoc<T>(s: seq<T>, y: T, x: T)
    ensures Count(s + [y], x) == Count(s, x) + (if y == x then 1 else 0)
  {
    assert (s + [y])[..|s|] == s;
  }

  /** A prefix one longer is the prefix and the next element. */
  lemma TakeSnoc<T>(s: seq<T>, i: nat)
    requires i < |s|
    ensures s[..i + 1] == s[..i] + [s[i]]
  {
  }

  lemma FlattenSnoc<T>(ss: seq<seq<T>>, t: seq<T>)
    ensures Flatten(ss + [t]) == Flatten(ss) + t
  {
    assert (ss + [t])[..|ss|] == ss;
  }

  lemma RemoveAt(s: seq<nat>, i: nat)
    requires NoDup(s) && i < |s|
    ensures |s[..i] + s[i + 1..]| == |s| - 1 && NoDup(s[..i] + s[i + 1..])
    ensures forall x :: x in s[..i] + s[i + 1..] <==> x in s && x != s[i]
  {
    var s' := s[..i] + s[i + 1..];
    forall a, b | 0 <= a < b < |s'| ensures s'[a] != s'[b] {
      var a' := if a < i then a else a + 1;
      var b' := if b < i then b else b + 1;
      assert s'[a] == s[a'] && s'[b] == s[b'];
    }
    forall x ensures x in s' <==> x in s && x != s[i] {
      if x in s' {
        var j :| 0 <= j < |s'| && s'[j] == x;
        var j' := if j < i then j else j + 1;
        assert s[j'] == x && s[j'] != s[i];
      }
      if x in s && x != s[i] {
        var j :| 0 <= j < |s| && s[j] == x;
        if j < i {
          assert s'[j] == x;
        } else {
          assert s'[j - 1] == x;
        }
      }
    }
  }

  lemma FirstIsIn<T>(s: seq<T>)
    requires |s| > 0
    ensures s[0] in s
  {
  }

  /** A list without repetitions of exactly the numbers below `n` has length `n`. */
  lemma {:induction false} NoDupBelow(s: seq<nat>, n: nat)
    requires NoDup(s) && forall x: nat :: x in s <==> x < n
    ensures |s| == n
  {
    if n > 0 {
      assert n - 1 in s;
      var i :| 0 <= i < |s| && s[i] == n - 1;
      RemoveAt(s, i);
      var s' := s[..i] + s[i + 1..];
      forall x: nat ensures x in s' <==> x < n - 1 {
        assert x in s <==> x < n;
      }
      NoDupBelow(s', n - 1);
    } else if |s| > 0 {
      FirstIsIn(s);
    }
  }

  /** `list.remove` only drops a value. */
  lemma {:induction false} RemoveFirstKeeps<T>(s: seq<T>, x: T, y: T)
    requires y in RemoveFirst(s, x)
    ensures y in s
  {
    if s != [] && s[0] != x {
      if y != s[0] {
        assert y in RemoveFirst(s[1..], x);
        RemoveFirstKeeps(s[1..], x, y);
      }
    }
  }

  /** Rows of one width `w` flatten to `|rows| * w` elements. */
  lemma {:induction false} FlattenLength<T>(rows: seq<seq<T>>, w: nat)
    requires forall k :: 0 <= k < |rows| ==> |rows[k]| == w
    ensures |Flatten(rows)| == |rows| * w
  {
    if rows != [] {
      var n := |rows| - 1;
      var init := rows[..n];
      assert forall k :: 0 <= k < |init| ==> |init[k]| == w by {
        forall k | 0 <= k < |init| ensures |init[k]| == w { assert init[k] == rows[k]; }
      }
      FlattenLength(init, w);
      assert |Flatten(rows)| == |Flatten(init)| + |rows[n]|;
      assert |rows| * w == n * w + w;
    }
  }

  /** In rows of one width `w`, element `j` of row `i` is element `i * w + j` of the
      flattened sequence (row-major order). */
  lemma {:induction false} FlattenIndex<T>(rows: seq<seq<T>>, w: nat, i: nat, j: nat)
    requires forall k :: 0 <= k < |rows| ==> |rows[k]| == w
    requires i < |rows| && j < w
    ensures i * w + j < |Flatten(rows)| && Flatten(rows)[i * w + j] == rows[i][j]
  {
    var init := rows[..|rows| - 1];
    FlattenLength(init, w);
    FlattenLength(rows, w);
    if i < |rows| - 1 {
      FlattenIndex(init, w, i, j);
      assert (i + 1) * w <= (|rows| - 1) * w;
    }
  }

  /** Every element of a flattened sequence comes from one of its rows. */
  lemma {:induction false} FlattenElem<T>(rows: seq<seq<T>>, k: nat)
    requires k < |Flatten(rows)|
    ensures exists r :: 0 <= r < |rows| && Flatten(rows)[k] in rows[r]
  {
    var init := rows[..|rows| - 1];
    if k < |Flatten(init)| {
      FlattenElem(init, k);
      var r :| 0 <= r < |init| && Flatten(init)[k] in init[r];
      assert rows[r] == init[r];
    } else {
      assert Flatten(rows)[k] == rows[|rows| - 1][k - |Flatten(init)|];
    }
  }
}
