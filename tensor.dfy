/**
 * Dense n-dimensional arrays as nested sequences, with their shapes, the
 * axis permutations numpy's `transpose`/`moveaxis` perform, the C-order
 * (row-major, last axis fastest) flattening that `tofile`/`tobytes` write,
 * and `[::f]` stride slicing.
 *
 * A shape is passed beside its array: with a zero extent, a nested sequence
 * alone would lose the extents of the inner axes.
 */
module Tensor {

  type Arr3<V> = seq<seq<seq<V>>>
  type Arr4<V> = seq<Arr3<V>>

  predicate HasShape3<V>(a: Arr3<V>, d0: nat, d1: nat, d2: nat) {
    && |a| == d0
    && (forall i :: 0 <= i < d0 ==> |a[i]| == d1)
    && (forall i, j :: 0 <= i < d0 && 0 <= j < d1 ==> |a[i][j]| == d2)
  }

  predicate HasShape4<V>(a: Arr4<V>, s: seq<nat>) {
    && |s| == 4
    && |a| == s[0]
    && forall t :: 0 <= t < s[0] ==> HasShape3(a[t], s[1], s[2], s[3])
  }

  /** numpy's `np.prod(shape)`: the number of elements of an array of that shape. */
  function Product(s: seq<nat>): nat {
    if s == [] then 1 else s[0] * Product(s[1..])
  }

  lemma Product4(s: seq<nat>)
    requires |s| == 4
    ensures Product(s) == s[0] * s[1] * s[2] * s[3]
  {
    var s1, s2, s3 := s[1..], s[2..], s[3..];
    assert s3[1..] == [];
    assert s2[1..] == s3 && s1[1..] == s2 && s[1..] == s1;
    assert Product(s3) == s[3];
    assert Product(s2) == s[2] * s[3];
    assert Product(s1) == s[1] * (s[2] * s[3]);
    Assoc4(s[0], s[1], s[2], s[3]);
  }

  // ---------------------------------------------------------------------
  // C-order offsets

  /** Offset of element (i, j, k) in the C-order dump of a (_, d1, d2) array. */
  function Offset3(d1: nat, d2: nat, i: nat, j: nat, k: nat): nat {
    (i * d1 + j) * d2 + k
  }

  /** Offset of element (t, x, y, z) in the C-order dump of an array of shape s. */
  function Offset4(s: seq<nat>, t: nat, x: nat, y: nat, z: nat): nat
    requires |s| == 4
  {
    ((t * s[1] + x) * s[2] + y) * s[3] + z
  }

  /** a*B + b stays below A*B when a < A and b < B. */
  lemma MixedRadixBound(a: nat, b: nat, A: nat, B: nat)
    requires a < A && b < B
    ensures a * B + b < A * B
  {
    assert (a + 1) * B <= A * B;
  }

  lemma Offset3Bound(d0: nat, d1: nat, d2: nat, i: nat, j: nat, k: nat)
    requires i < d0 && j < d1 && k < d2
    ensures Offset3(d1, d2, i, j, k) < d0 * d1 * d2
  {
    MixedRadixBound(i, j, d0, d1);
    MixedRadixBound(i * d1 + j, k, d0 * d1, d2);
  }

  lemma Offset4Bound(s: seq<nat>, t: nat, x: nat, y: nat, z: nat)
    requires |s| == 4 && t < s[0] && x < s[1] && y < s[2] && z < s[3]
    ensures Offset4(s, t, x, y, z) < s[0] * s[1] * s[2] * s[3]
  {
    MixedRadixBound(t, x, s[0], s[1]);
    MixedRadixBound(t * s[1] + x, y, s[0] * s[1], s[2]);
    MixedRadixBound((t * s[1] + x) * s[2] + y, z, s[0] * s[1] * s[2], s[3]);
  }

  /** Regrouping a C-order offset around its outermost index. */
  lemma Regroup(i: nat, j: nat, k: nat, d1: nat, d2: nat)
    ensures Offset3(d1, d2, i, j, k) == i * (d1 * d2) + (j * d2 + k)
  {
  }

  lemma Regroup4(s: seq<nat>, t: nat, x: nat, y: nat, z: nat)
    requires |s| == 4
    ensures Offset4(s, t, x, y, z) == t * (s[1] * s[2] * s[3]) + Offset3(s[2], s[3], x, y, z)
  {
    var X, Y, Z := s[1], s[2], s[3];
    assert ((t * X + x) * Y + y) * Z + z == t * (X * Y * Z) + ((x * Y + y) * Z + z);
  }

  /** Distinct in-range coordinates have distinct offsets. */
  lemma Offset4Injective(s: seq<nat>, t: nat, x: nat, y: nat, z: nat, t': nat, x': nat, y': nat, z': nat)
    requires |s| == 4 && x < s[1] && y < s[2] && z < s[3] && x' < s[1] && y' < s[2] && z' < s[3]
    requires Offset4(s, t, x, y, z) == Offset4(s, t', x', y', z')
    ensures t == t' && x == x' && y == y' && z == z'
  {
    var a, a' := t * s[1] + x, t' * s[1] + x';
    var b, b' := a * s[2] + y, a' * s[2] + y';
    MixedRadixUnique(b, z, b', z', s[3]);
    MixedRadixUnique(a, y, a', y', s[2]);
    MixedRadixUnique(t, x, t', x', s[1]);
  }

  lemma MixedRadixUnique(a: nat, b: nat, a': nat, b': nat, B: nat)
    requires b < B && b' < B && a * B + b == a' * B + b'
    ensures a == a' && b == b'
  {
    if a < a' {
      MixedRadixBound(a, b, a', B);
    } else if a' < a {
      MixedRadixBound(a', b', a, B);
    }
  }

  // ---------------------------------------------------------------------
  // C-order flattening

  function Concat<V>(s: seq<seq<V>>): seq<V> {
    if s == [] then [] else s[0] + Concat(s[1..])
  }

  lemma {:induction false} ConcatLength<V>(s: seq<seq<V>>, n: nat)
    requires forall i :: 0 <= i < |s| ==> |s[i]| == n
    ensures |Concat(s)| == |s| * n
  {
    if s != [] {
      ConcatLength(s[1..], n);
    }
  }

  /** Concatenating n-element rows puts element j of row i at i*n + j. */
  lemma {:induction false} ConcatAt<V>(s: seq<seq<V>>, n: nat, i: nat, j: nat)
    requires forall i :: 0 <= i < |s| ==> |s[i]| == n
    requires i < |s| && j < n
    ensures |Concat(s)| == |s| * n
    ensures i * n + j < |Concat(s)| && Concat(s)[i * n + j] == s[i][j]
  {
    ConcatLength(s, n);
    MixedRadixBound(i, j, |s|, n);
    if i > 0 {
      ConcatAt(s[1..], n, i - 1, j);
      assert i * n + j == n + ((i - 1) * n + j);
    }
  }

  /** The C-order dump of a 3-D array. */
  function Flatten3<V>(a: Arr3<V>): seq<V> {
    Concat(seq(|a|, i requires 0 <= i < |a| => Concat(a[i])))
  }

  /** The C-order dump of a 4-D array. */
  function Flatten4<V>(a: Arr4<V>): seq<V> {
    Concat(seq(|a|, t requires 0 <= t < |a| => Flatten3(a[t])))
  }

  lemma Flatten3At<V>(a: Arr3<V>, d0: nat, d1: nat, d2: nat, i: nat, j: nat, k: nat)
    requires HasShape3(a, d0, d1, d2) && i < d0 && j < d1 && k < d2
    ensures |Flatten3(a)| == d0 * d1 * d2
    ensures Offset3(d1, d2, i, j, k) < |Flatten3(a)|
    ensures Flatten3(a)[Offset3(d1, d2, i, j, k)] == a[i][j][k]
  {
    var planes := seq(|a|, i requires 0 <= i < |a| => Concat(a[i]));
    forall i' | 0 <= i' < |planes| ensures |planes[i']| == d1 * d2 {
      ConcatLength(a[i'], d2);
    }
    Flatten3Length(a, d0, d1, d2);
    ConcatAt(a[i], d2, j, k);
    var o := j * d2 + k;
    assert planes[i][o] == a[i][j][k];
    ConcatAt(planes, d1 * d2, i, o);
    Regroup(i, j, k, d1, d2);
  }

  lemma Flatten3Length<V>(a: Arr3<V>, d0: nat, d1: nat, d2: nat)
    requires HasShape3(a, d0, d1, d2)
    ensures |Flatten3(a)| == d0 * d1 * d2
  {
    var planes := seq(|a|, i requires 0 <= i < |a| => Concat(a[i]));
    forall i' | 0 <= i' < |planes| ensures |planes[i']| == d1 * d2 {
      ConcatLength(a[i'], d2);
    }
    ConcatLength(planes, d1 * d2);
    Assoc3(d0, d1, d2);
  }

  lemma Assoc3(a: nat, b: nat, c: nat)
    ensures a * (b * c) == a * b * c
  {
  }

  /** The element count does not depend on the order the three extents are listed in. */
  lemma Reverse3Count(a: nat, b: nat, c: nat)
    ensures a * b * c == c * b * a
  {
  }

  lemma Flatten4At<V>(a: Arr4<V>, s: seq<nat>, t: nat, x: nat, y: nat, z: nat)
    requires HasShape4(a, s) && t < s[0] && x < s[1] && y < s[2] && z < s[3]
    ensures |Flatten4(a)| == s[0] * s[1] * s[2] * s[3]
    ensures Offset4(s, t, x, y, z) < |Flatten4(a)|
    ensures Flatten4(a)[Offset4(s, t, x, y, z)] == a[t][x][y][z]
  {
    var vols := seq(|a|, t requires 0 <= t < |a| => Flatten3(a[t]));
    var n := s[1] * s[2] * s[3];
    forall t' | 0 <= t' < |vols| ensures |vols[t']| == n {
      Flatten3Length(a[t'], s[1], s[2], s[3]);
    }
    Flatten4Length(a, s);
    Flatten3At(a[t], s[1], s[2], s[3], x, y, z);
    var o := Offset3(s[2], s[3], x, y, z);
    Offset3Bound(s[1], s[2], s[3], x, y, z);
    ConcatAt(vols, n, t, o);
    Regroup4(s, t, x, y, z);
  }

  lemma Flatten4Length<V>(a: Arr4<V>, s: seq<nat>)
    requires HasShape4(a, s)
    ensures |Flatten4(a)| == s[0] * s[1] * s[2] * s[3]
  {
    var vols := seq(|a|, t requires 0 <= t < |a| => Flatten3(a[t]));
    var n := s[1] * s[2] * s[3];
    forall t' | 0 <= t' < |vols| ensures |vols[t']| == n {
      Flatten3Length(a[t'], s[1], s[2], s[3]);
    }
    ConcatLength(vols, n);
    Assoc4(s[0], s[1], s[2], s[3]);
  }

  lemma Assoc4(a: nat, b: nat, c: nat, d: nat)
    ensures a * (b * c * d) == a * b * c * d
  {
  }

  /** Round trip of the dump: the element at offset Offset4(s, t, x, y, z) is a[t][x][y][z]. */
  lemma Flatten4Layout<V>(a: Arr4<V>, s: seq<nat>)
    requires HasShape4(a, s)
    ensures |Flatten4(a)| == s[0] * s[1] * s[2] * s[3]
    ensures forall t, x, y, z :: 0 <= t < s[0] && 0 <= x < s[1] && 0 <= y < s[2] && 0 <= z < s[3] ==>
      Offset4(s, t, x, y, z) < |Flatten4(a)| && Flatten4(a)[Offset4(s, t, x, y, z)] == a[t][x][y][z]
  {
    Flatten4Length(a, s);
    forall t, x, y, z | 0 <= t < s[0] && 0 <= x < s[1] && 0 <= y < s[2] && 0 <= z < s[3]
      ensures Offset4(s, t, x, y, z) < |Flatten4(a)| && Flatten4(a)[Offset4(s, t, x, y, z)] == a[t][x][y][z]
    {
      Flatten4At(a, s, t, x, y, z);
    }
  }

  // ---------------------------------------------------------------------
  // Axis permutations

  /** p lists 0..3 in some order. */
  predicate IsPerm4(p: seq<nat>) {
    && |p| == 4
    && (forall k :: 0 <= k < 4 ==> p[k] < 4)
    && (forall m :: 0 <= m < 4 ==> m in p)
  }

  /** The position in p of axis m. */
  function Inv(p: seq<nat>, m: nat): (k: nat)
    requires IsPerm4(p) && m < 4
    ensures k < 4 && p[k] == m
  {
    assert m in p;
    if p[0] == m then 0 else if p[1] == m then 1 else if p[2] == m then 2 else 3
  }

  /** numpy: the shape of `a.transpose(p)`. */
  function PermuteShape(s: seq<nat>, p: seq<nat>): (r: seq<nat>)
    requires |s| == 4 && IsPerm4(p)
    ensures |r| == 4 && forall k :: 0 <= k < 4 ==> r[k] == s[p[k]]
  {
    [s[p[0]], s[p[1]], s[p[2]], s[p[3]]]
  }

  /** The element that `a.transpose(p)` holds at (i0, i1, i2, i3): axis p[k] of a gets index ik. */
  function TransposedAt<V>(a: Arr4<V>, s: seq<nat>, p: seq<nat>, i0: nat, i1: nat, i2: nat, i3: nat): V
    requires HasShape4(a, s) && IsPerm4(p)
    requires i0 < s[p[0]] && i1 < s[p[1]] && i2 < s[p[2]] && i3 < s[p[3]]
  {
    var i := [i0, i1, i2, i3];
    a[i[Inv(p, 0)]][i[Inv(p, 1)]][i[Inv(p, 2)]][i[Inv(p, 3)]]
  }

  /** numpy's `a.transpose(p)` (and `np.moveaxis`, which is a transpose). */
  function Transpose4<V>(a: Arr4<V>, s: seq<nat>, p: seq<nat>): (r: Arr4<V>)
    requires HasShape4(a, s) && IsPerm4(p)
    ensures HasShape4(r, PermuteShape(s, p))
    ensures forall i0, i1, i2, i3 ::
      0 <= i0 < s[p[0]] && 0 <= i1 < s[p[1]] && 0 <= i2 < s[p[2]] && 0 <= i3 < s[p[3]] ==>
      r[i0][i1][i2][i3] == TransposedAt(a, s, p, i0, i1, i2, i3)
  {
    seq(s[p[0]], i0 requires 0 <= i0 < s[p[0]] =>
      seq(s[p[1]], i1 requires 0 <= i1 < s[p[1]] =>
        seq(s[p[2]], i2 requires 0 <= i2 < s[p[2]] =>
          seq(s[p[3]], i3 requires 0 <= i3 < s[p[3]] =>
            TransposedAt(a, s, p, i0, i1, i2, i3)))))
  }

  /** No two axes of a permutation coincide. */
  lemma PermInjective(p: seq<nat>)
    requires IsPerm4(p)
    ensures forall k, l :: 0 <= k < 4 && 0 <= l < 4 && p[k] == p[l] ==> k == l
  {
    var w0, w1, w2, w3 := Inv(p, 0), Inv(p, 1), Inv(p, 2), Inv(p, 3);
    assert {w0, w1, w2, w3} == {0, 1, 2, 3} by {
      assert |{w0, w1, w2, w3}| == 4;
    }
  }

  /** The axis held at position k is the only one there: Inv undoes p. */
  lemma InvOfEntry(p: seq<nat>, k: nat)
    requires IsPerm4(p) && k < 4
    ensures Inv(p, p[k]) == k
  {
    PermInjective(p);
  }

  /** The permutation of `a.transpose(p).transpose(q)`: its axis k is axis p[q[k]] of a. */
  function ComposePerm(p: seq<nat>, q: seq<nat>): (r: seq<nat>)
    requires IsPerm4(p) && IsPerm4(q)
    ensures IsPerm4(r) && forall k :: 0 <= k < 4 ==> r[k] == p[q[k]]
  {
    var r := [p[q[0]], p[q[1]], p[q[2]], p[q[3]]];
    ComposeCovers(p, q, r);
    r
  }

  lemma ComposeCovers(p: seq<nat>, q: seq<nat>, r: seq<nat>)
    requires IsPerm4(p) && IsPerm4(q) && r == [p[q[0]], p[q[1]], p[q[2]], p[q[3]]]
    ensures forall m :: 0 <= m < 4 ==> m in r
  {
    forall m | 0 <= m < 4 ensures m in r {
      var k := Inv(q, Inv(p, m));
      assert r[k] == m;
    }
  }

  /** Two transposes in a row are one transpose, by the composed permutation. */
  lemma TransposeTwice<V>(a: Arr4<V>, s: seq<nat>, p: seq<nat>, q: seq<nat>)
    requires HasShape4(a, s) && IsPerm4(p) && IsPerm4(q)
    ensures PermuteShape(PermuteShape(s, p), q) == PermuteShape(s, ComposePerm(p, q))
    ensures forall i0, i1, i2, i3 ::
      0 <= i0 < s[p[q[0]]] && 0 <= i1 < s[p[q[1]]] && 0 <= i2 < s[p[q[2]]] && 0 <= i3 < s[p[q[3]]] ==>
      Transpose4(Transpose4(a, s, p), PermuteShape(s, p), q)[i0][i1][i2][i3] ==
      TransposedAt(a, s, ComposePerm(p, q), i0, i1, i2, i3)
  {
    forall i0, i1, i2, i3 |
      0 <= i0 < s[p[q[0]]] && 0 <= i1 < s[p[q[1]]] && 0 <= i2 < s[p[q[2]]] && 0 <= i3 < s[p[q[3]]]
      ensures Transpose4(Transpose4(a, s, p), PermuteShape(s, p), q)[i0][i1][i2][i3] ==
              TransposedAt(a, s, ComposePerm(p, q), i0, i1, i2, i3)
    {
      TransposeTwiceAt(a, s, p, q, i0, i1, i2, i3);
    }
  }

  lemma TransposeTwiceAt<V>(a: Arr4<V>, s: seq<nat>, p: seq<nat>, q: seq<nat>, i0: nat, i1: nat, i2: nat, i3: nat)
    requires HasShape4(a, s) && IsPerm4(p) && IsPerm4(q)
    requires i0 < s[p[q[0]]] && i1 < s[p[q[1]]] && i2 < s[p[q[2]]] && i3 < s[p[q[3]]]
    ensures Transpose4(Transpose4(a, s, p), PermuteShape(s, p), q)[i0][i1][i2][i3] ==
            TransposedAt(a, s, ComposePerm(p, q), i0, i1, i2, i3)
  {
    var b := Transpose4(a, s, p);
    var sp := PermuteShape(s, p);
    var c := ComposePerm(p, q);
    var i := [i0, i1, i2, i3];
    var j0, j1, j2, j3 := i[Inv(q, 0)], i[Inv(q, 1)], i[Inv(q, 2)], i[Inv(q, 3)];
    assert j0 < sp[0] && j1 < sp[1] && j2 < sp[2] && j3 < sp[3];
    calc {
      Transpose4(b, sp, q)[i0][i1][i2][i3];
      TransposedAt(b, sp, q, i0, i1, i2, i3);
      b[j0][j1][j2][j3];
      TransposedAt(a, s, p, j0, j1, j2, j3);
    }
    var j := [j0, j1, j2, j3];
    forall n | 0 <= n < 4 ensures j[Inv(p, n)] == i[Inv(c, n)] {
      InvOfEntry(c, Inv(q, Inv(p, n)));
    }
  }

  /** `[i for i in range(lo, n) if i != axis]`. */
  function RangeExcept(lo: nat, n: nat, axis: nat): (r: seq<nat>)
    requires lo <= n
    ensures forall k :: 0 <= k < |r| ==> lo <= r[k] < n && r[k] != axis
    ensures forall k, l :: 0 <= k < l < |r| ==> r[k] < r[l]
    ensures forall m :: lo <= m < n && m != axis ==> m in r
    ensures |r| == if lo <= axis < n then n - lo - 1 else n - lo
    decreases n - lo
  {
    if lo == n then [] else (if lo == axis then [] else [lo]) + RangeExcept(lo + 1, n, axis)
  }

  /** `[axis] + [i for i in range(n) if i != axis]`: move one axis to the front, keep the others in order. */
  function FrontPerm(n: nat, axis: nat): (r: seq<nat>)
    requires axis < n
    ensures |r| == n && r[0] == axis
    ensures forall k :: 0 <= k < n ==> r[k] < n
    ensures forall m :: 0 <= m < n ==> m in r
    ensures forall k, l :: 1 <= k < l < n ==> r[k] < r[l]
    ensures forall k :: 1 <= k < n ==> r[k] != axis
  {
    [axis] + RangeExcept(0, n, axis)
  }

  lemma FrontPermIsPerm4(axis: nat)
    requires axis < 4
    ensures IsPerm4(FrontPerm(4, axis))
  {
  }

  /** `np.moveaxis(a, -1, 0)`, i.e. `transpose(a, (3, 0, 1, 2))`, maps a[x][y][z][t] to r[t][x][y][z]. */
  lemma LastAxisToFront<V>(a: Arr4<V>, s: seq<nat>)
    requires HasShape4(a, s)
    ensures FrontPerm(4, 3) == [3, 0, 1, 2] && IsPerm4([3, 0, 1, 2])
    ensures PermuteShape(s, [3, 0, 1, 2]) == [s[3], s[0], s[1], s[2]]
    ensures forall t, x, y, z :: 0 <= t < s[3] && 0 <= x < s[0] && 0 <= y < s[1] && 0 <= z < s[2] ==>
      Transpose4(a, s, [3, 0, 1, 2])[t][x][y][z] == a[x][y][z][t]
  {
    var p: seq<nat> := [3, 0, 1, 2];
    assert FrontPerm(4, 3) == p by {
      assert RangeExcept(3, 4, 3) == [];
      assert RangeExcept(2, 4, 3) == [2];
      assert RangeExcept(1, 4, 3) == [1, 2];
    }
    assert 0 in p && 1 in p && 2 in p && 3 in p by {
      assert p[1] == 0 && p[2] == 1 && p[3] == 2 && p[0] == 3;
    }
  }

  // ---------------------------------------------------------------------
  // Stride slicing

  /** `len(range(0, d, f))`: the number of multiples of f below d. */
  function CeilDiv(d: nat, f: nat): nat
    requires f > 0
  {
    (d + f - 1) / f
  }

  /** i is below ceil(d/f) exactly when i*f is an index below d. */
  lemma CeilDivExact(d: nat, f: nat, i: nat)
    requires f > 0
    ensures i < CeilDiv(d, f) <==> i * f < d
  {
    var q := (d + f - 1) / f;
    var r := (d + f - 1) % f;
    assert d + f - 1 == q * f + r && 0 <= r < f;
    if i < q {
      MulMonotone(i + 1, q, f);
    } else {
      MulMonotone(q, i, f);
    }
  }

  lemma MulMonotone(a: nat, b: nat, f: nat)
    requires a <= b
    ensures a * f <= b * f
  {
    assert b * f == a * f + (b - a) * f;
  }

  /** Sample i of `[::f]` is an index below d. */
  predicate StrideHits(d: nat, f: nat, i: nat) {
    i * f < d
  }

  lemma StrideInRange(d: nat, f: nat)
    requires f > 0
    ensures forall i :: 0 <= i < CeilDiv(d, f) ==> StrideHits(d, f, i)
  {
    forall i | 0 <= i < CeilDiv(d, f) ensures StrideHits(d, f, i) {
      CeilDivExact(d, f, i);
    }
  }

  /** Every sample of `[::f, ::f, ::f]` on a (d0, d1, d2) array is in range. */
  predicate StridesFit3(d0: nat, d1: nat, d2: nat, f: nat)
    requires f > 0
  {
    && (forall i :: 0 <= i < CeilDiv(d0, f) ==> StrideHits(d0, f, i))
    && (forall j :: 0 <= j < CeilDiv(d1, f) ==> StrideHits(d1, f, j))
    && (forall k :: 0 <= k < CeilDiv(d2, f) ==> StrideHits(d2, f, k))
  }

  /** `vol[::f, ::f, ::f]` of a (d0, d1, d2) array. */
  function Stride3<V>(vol: Arr3<V>, d0: nat, d1: nat, d2: nat, f: nat): (r: Arr3<V>)
    requires f > 0 && HasShape3(vol, d0, d1, d2)
    ensures HasShape3(r, CeilDiv(d0, f), CeilDiv(d1, f), CeilDiv(d2, f))
    ensures StridesFit3(d0, d1, d2, f)
    ensures forall i, j, k :: 0 <= i < CeilDiv(d0, f) && 0 <= j < CeilDiv(d1, f) && 0 <= k < CeilDiv(d2, f) ==>
      StrideHits(d0, f, i) && StrideHits(d1, f, j) && StrideHits(d2, f, k) && r[i][j][k] == vol[i * f][j * f][k * f]
  {
    StrideInRange(d0, f);
    StrideInRange(d1, f);
    StrideInRange(d2, f);
    seq(CeilDiv(d0, f), i requires 0 <= i < CeilDiv(d0, f) =>
      assert StrideHits(d0, f, i);
      seq(CeilDiv(d1, f), j requires 0 <= j < CeilDiv(d1, f) =>
        assert StrideHits(d1, f, j);
        seq(CeilDiv(d2, f), k requires 0 <= k < CeilDiv(d2, f) =>
          assert StrideHits(d2, f, k);
          vol[i * f][j * f][k * f])))
  }

  // ---------------------------------------------------------------------
  // Axis reversal

  /** `a.transpose(2, 1, 0)` of a (d0, d1, d2) array. */
  function Reverse3<V>(a: Arr3<V>, d0: nat, d1: nat, d2: nat): (r: Arr3<V>)
    requires HasShape3(a, d0, d1, d2)
    ensures HasShape3(r, d2, d1, d0)
    ensures forall i, j, k :: 0 <= i < d2 && 0 <= j < d1 && 0 <= k < d0 ==> r[i][j][k] == a[k][j][i]
  {
    seq(d2, i requires 0 <= i < d2 =>
      seq(d1, j requires 0 <= j < d1 =>
        seq(d0, k requires 0 <= k < d0 => a[k][j][i])))
  }
  /** The C-order dump of the axis-reversed array holds element (i, j, k) at offset (k * d1 + j) * d0 + i. */
  lemma Reverse3FlatAt<V>(a: Arr3<V>, d0: nat, d1: nat, d2: nat, i: nat, j: nat, k: nat)
    requires HasShape3(a, d0, d1, d2) && i < d0 && j < d1 && k < d2
    ensures |Flatten3(Reverse3(a, d0, d1, d2))| == d2 * d1 * d0
    ensures Offset3(d1, d0, k, j, i) < |Flatten3(Reverse3(a, d0, d1, d2))|
    ensures Flatten3(Reverse3(a, d0, d1, d2))[Offset3(d1, d0, k, j, i)] == a[i][j][k]
  {
    Flatten3At(Reverse3(a, d0, d1, d2), d2, d1, d0, k, j, i);
  }


  /**
   * The position of voxel (x, y, z) in a buffer of extents (X, Y, Z) whose
   * first axis varies fastest, as the MetaImage format lays out `DimSize = X Y Z`.
   */
  function XFastestOffset(X: nat, Y: nat, x: nat, y: nat, z: nat): nat {
    (z * Y + y) * X + x
  }

  // ---------------------------------------------------------------------
  // Arrays with their shapes

  /** A 3-D numpy array: its shape and its elements. */
  datatype Array3<V> = Array3(shape: seq<nat>, cells: Arr3<V>) {
    predicate Valid() {
      |shape| == 3 && HasShape3(cells, shape[0], shape[1], shape[2])
    }
  }

  /** A 4-D numpy array: its shape and its elements. */
  datatype Array4<V> = Array4(shape: seq<nat>, cells: Arr4<V>) {
    predicate Valid() {
      HasShape4(cells, shape)
    }
  }

  /** `a.transpose(p)` on an array with its shape. */
  function Transposed<V>(a: Array4<V>, p: seq<nat>): (r: Array4<V>)
    requires a.Valid() && IsPerm4(p)
    ensures r.Valid() && r.shape == PermuteShape(a.shape, p)
    ensures forall i0, i1, i2, i3 ::
      0 <= i0 < r.shape[0] && 0 <= i1 < r.shape[1] && 0 <= i2 < r.shape[2] && 0 <= i3 < r.shape[3] ==>
      r.cells[i0][i1][i2][i3] == TransposedAt(a.cells, a.shape, p, i0, i1, i2, i3)
  {
    Array4(PermuteShape(a.shape, p), Transpose4(a.cells, a.shape, p))
  }

  /** out is `a.transpose(p)`: its shape is a's permuted by p and axis p[k] of a gets index k. */
  ghost predicate IsTransposeOf<V>(out: Array4<V>, a: Array4<V>, p: seq<nat>)
    requires a.Valid() && IsPerm4(p)
  {
    && out.Valid() && out.shape == PermuteShape(a.shape, p)
    && forall i0, i1, i2, i3 ::
         0 <= i0 < out.shape[0] && 0 <= i1 < out.shape[1] && 0 <= i2 < out.shape[2] && 0 <= i3 < out.shape[3] ==>
         out.cells[i0][i1][i2][i3] == TransposedAt(a.cells, a.shape, p, i0, i1, i2, i3)
  }

  /** Two transposes of an array in a row are one, by the composed permutation. */
  lemma TransposedTwice<V>(a: Array4<V>, p: seq<nat>, q: seq<nat>)
    requires a.Valid() && IsPerm4(p) && IsPerm4(q)
    ensures IsTransposeOf(Transposed(Transposed(a, p), q), a, ComposePerm(p, q))
  {
    TransposeTwice(a.cells, a.shape, p, q);
  }
}
