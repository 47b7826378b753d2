/**
 * The HDF5-to-Unity volume exporter: it picks the largest numeric 4-D
 * dataset, guesses which axis is time and moves it to the front, strides
 * the spatial axes down, looks up the repetition time, maps intensities
 * into [0, 1] through a percentile window, optionally crops to the brain
 * with a 2-voxel margin, and writes the time-mean anatomy and one
 * percent-signal-change frame per time point as 8-bit `.vol` volumes with
 * a manifest.
 */
module UnityVolumes {
  import opened Base
  import opened Tensor
  import opened Text
  import opened Hdf5
  import opened Intensity
  import ExportMhd

  // ---------------------------------------------------------------------
  // Choosing the dataset

  /** A dataset the walk can pick: rank 4 and a numeric element type. */
  predicate Eligible(d: Dataset) {
    |d.shape| == 4 && d.numeric
  }

  /**
   * `find_4d_dataset`: walk the datasets keeping the best so far, replaced
   * only by a strictly larger eligible one, so the result is the first
   * visited of maximal size. Fails when no dataset is eligible.
   */
  method FindLargest4d(visited: seq<Dataset>) returns (r: Result<Dataset>)
    ensures r.Err? <==> forall d :: d in visited ==> !Eligible(d)
    ensures r.Ok? ==> r.value in visited && Eligible(r.value)
    ensures r.Ok? ==> forall d :: d in visited && Eligible(d) ==> d.Size() <= r.value.Size()
    ensures r.Ok? ==> exists k :: (0 <= k < |visited| && visited[k] == r.value &&
      forall j :: 0 <= j < k && Eligible(visited[j]) ==> visited[j].Size() < r.value.Size())
  {
    var best: int := -1;
    var bestSize: int := -1;
    for i := 0 to |visited|
      invariant -1 <= best < i || (i == 0 && best == -1)
      invariant best == -1 ==> bestSize == -1 && forall j :: 0 <= j < i ==> !Eligible(visited[j])
      invariant best >= 0 ==> Eligible(visited[best]) && bestSize == visited[best].Size()
      invariant forall j :: 0 <= j < i && Eligible(visited[j]) ==> visited[j].Size() <= bestSize
      invariant best >= 0 ==> forall j :: 0 <= j < best && Eligible(visited[j]) ==> visited[j].Size() < bestSize
    {
      if |visited[i].shape| == 4 {
        var size := visited[i].Size();
        if size > bestSize && visited[i].numeric {
          best, bestSize := i, size;
        }
      }
    }
    if best == -1 {
      return Err("No 4D numeric dataset found (need T×X×Y×Z).");
    }
    r := Ok(visited[best]);
    forall d | d in visited && Eligible(d) ensures d.Size() <= r.value.Size() {
      var j :| 0 <= j < |visited| && visited[j] == d;
    }
  }

  // ---------------------------------------------------------------------
  // Intensity window and bytes

  /**
   * `percentile_window(a, 2, 98)`, given numpy's percentile: the 2nd and
   * 98th percentiles, the upper one raised to EPS above the lower when it
   * is not above it, so that the window is never empty.
   */
  function PercentileWindow(a: Array4<real>, percentile: (Array4<real>, real) -> real): (w: (real, real))
    ensures w.0 == percentile(a, 2.0) && w.0 < w.1
    ensures percentile(a, 2.0) < percentile(a, 98.0) ==> w.1 == percentile(a, 98.0)
    ensures percentile(a, 98.0) <= percentile(a, 2.0) ==> w.1 == w.0 + EPS
  {
    var lo, hi := percentile(a, 2.0), percentile(a, 98.0);
    if hi <= lo then (lo, lo + EPS) else (lo, hi)
  }

  /**
   * `to_uint8(v, vmin, vmax)`: v placed in [vmin, vmax] as a fraction,
   * clipped to [0, 1], scaled to 255 and rounded (halves up).
   */
  function ToUint8(v: real, vmin: real, vmax: real): (b: Byte)
    requires vmin < vmax
    ensures v <= vmin ==> b == 0
    ensures v >= vmax ==> b == 255
  {
    RoundToByte((v - vmin) / (vmax - vmin))
  }

  /** With the window [0, 1] that every call uses, `to_uint8` is the rounding of a clipped unit value. */
  lemma ToUint8OfUnit(v: real)
    ensures ToUint8(v, 0.0, 1.0) == RoundToByte(v)
  {
  }

  /** A larger value never gets a smaller byte. */
  lemma ToUint8Monotone(v: real, w: real, vmin: real, vmax: real)
    requires vmin < vmax && v <= w
    ensures ToUint8(v, vmin, vmax) <= ToUint8(w, vmin, vmax)
  {
    ExportMhd.DivMonotone(v - vmin, w - vmin, vmax - vmin);
    RoundToByteMonotone((v - vmin) / (vmax - vmin), (w - vmin) / (vmax - vmin));
  }

  lemma RoundToByteMonotone(v: real, w: real)
    requires v <= w
    ensures RoundToByte(v) <= RoundToByte(w)
  {
    ClipMonotone(v, w, 0.0, 1.0);
  }

  /** Every element of a (T, X, Y, Z) array lies in [0, 1]. */
  predicate UnitRange(data: Array4<real>)
    requires data.Valid()
  {
    forall t, x, y, z ::
      0 <= t < data.shape[0] && 0 <= x < data.shape[1] && 0 <= y < data.shape[2] && 0 <= z < data.shape[3] ==>
      0.0 <= data.cells[t][x][y][z] <= 1.0
  }

  /** `clip((v - lo) / (hi - lo), 0, 1)`: the window mapped onto [0, 1]. */
  function UnitValue(v: real, lo: real, hi: real): (u: real)
    requires lo < hi
    ensures 0.0 <= u <= 1.0
    ensures v <= lo ==> u == 0.0
    ensures v >= hi ==> u == 1.0
    ensures lo <= v <= hi ==> u * (hi - lo) == v - lo
  {
    var q := (v - lo) / (hi - lo);
    UnitFraction(v, lo, hi);
    Clip(q, 0.0, 1.0)
  }

  lemma UnitFraction(v: real, lo: real, hi: real)
    requires lo < hi
    ensures (v - lo) / (hi - lo) * (hi - lo) == v - lo
    ensures lo <= v ==> 0.0 <= (v - lo) / (hi - lo)
    ensures v <= hi ==> (v - lo) / (hi - lo) <= 1.0
    ensures v <= lo ==> (v - lo) / (hi - lo) <= 0.0
    ensures hi <= v ==> 1.0 <= (v - lo) / (hi - lo)
  {
    var d := hi - lo;
    DivTimes(v - lo, d);
    assert 0.0 / d == 0.0 && d / d == 1.0;
    if lo <= v {
      ExportMhd.DivMonotone(0.0, v - lo, d);
    } else {
      ExportMhd.DivMonotone(v - lo, 0.0, d);
    }
    if v <= hi {
      ExportMhd.DivMonotone(v - lo, d, d);
    } else {
      ExportMhd.DivMonotone(d, v - lo, d);
    }
  }

  lemma DivTimes(a: real, d: real)
    requires d != 0.0
    ensures a / d * d == a
  {
  }

  /** `data_norm`: every element mapped through the window. */
  function NormalizeUnit(data: Array4<real>, lo: real, hi: real): (r: Array4<real>)
    requires data.Valid() && lo < hi
    ensures r.Valid() && r.shape == data.shape && UnitRange(r)
    ensures forall t, x, y, z ::
      0 <= t < data.shape[0] && 0 <= x < data.shape[1] && 0 <= y < data.shape[2] && 0 <= z < data.shape[3] ==>
      r.cells[t][x][y][z] == UnitValue(data.cells[t][x][y][z], lo, hi)
  {
    var s := data.shape;
    Array4(s,
      seq(s[0], t requires 0 <= t < s[0] =>
        seq(s[1], x requires 0 <= x < s[1] =>
          seq(s[2], y requires 0 <= y < s[2] =>
            seq(s[3], z requires 0 <= z < s[3] => UnitValue(data.cells[t][x][y][z], lo, hi))))))
  }

  // ---------------------------------------------------------------------
  // Which axis is time

  /** `np.argmax` of a shape of four extents: the first largest. */
  function ArgMax4(s: seq<nat>): (k: nat)
    requires |s| == 4
    ensures k < 4
    ensures forall m :: 0 <= m < 4 ==> s[m] <= s[k]
    ensures forall m :: 0 <= m < k ==> s[m] < s[k]
  {
    var a := if s[1] > s[0] then 1 else 0;
    var b := if s[2] > s[a] then 2 else a;
    if s[3] > s[b] then 3 else b
  }

  /**
   * The axis `main` takes for time: the last when the first extent is below
   * 16 and the last above 32, the first when the first is at least 16 and
   * the last below 16, and otherwise the first largest.
   */
  function TimeAxis(shp: seq<nat>): (k: nat)
    requires |shp| == 4
    ensures k < 4
  {
    if shp[0] < 16 && shp[3] > 32 then 3
    else if shp[0] >= 16 && shp[3] < 16 then 0
    else ArgMax4(shp)
  }

  /**
   * `np.moveaxis(a, k, 0)` as a transpose: axis k first, the other three
   * after it in their order.
   */
  function MoveToFront(k: nat): (p: seq<nat>)
    requires k < 4
    ensures IsPerm4(p) && p[0] == k && p[1] < p[2] < p[3]
  {
    if k == 0 then [0, 1, 2, 3] else if k == 1 then [1, 0, 2, 3] else if k == 2 then [2, 0, 1, 3] else [3, 0, 1, 2]
  }

  /** Transposing by the identity changes nothing. */
  lemma TransposeIdentity(a: Array4<real>)
    requires a.Valid()
    ensures IsPerm4([0, 1, 2, 3]) && IsTransposeOf(a, a, [0, 1, 2, 3])
  {
    var p: seq<nat> := [0, 1, 2, 3];
    assert p[0] == 0 && p[1] == 1 && p[2] == 2 && p[3] == 3;
  }

  /**
   * The heuristic's result: `np.moveaxis(data, k, 0)` for the chosen axis k
   * (nothing moved when k is 0), that is the transpose by the permutation
   * putting k first and the other axes after it in their order.
   */
  function TimeFirst(data: Array4<real>): (r: Array4<real>)
    requires data.Valid()
    ensures IsTransposeOf(r, data, MoveToFront(TimeAxis(data.shape)))
  {
    var k := TimeAxis(data.shape);
    if k == 0 then
      TransposeIdentity(data);
      data
    else
      Transposed(data, MoveToFront(k))
  }

  /** An (X, Y, Z, T)-looking shape (first extent below 16, last above 32) has its last axis moved to the front. */
  lemma TimeFirstLastAxis(data: Array4<real>)
    requires data.Valid() && data.shape[0] < 16 && data.shape[3] > 32
    ensures var s, r := data.shape, TimeFirst(data);
      && r.shape == [s[3], s[0], s[1], s[2]]
      && forall t, x, y, z :: 0 <= t < s[3] && 0 <= x < s[0] && 0 <= y < s[1] && 0 <= z < s[2] ==>
           r.cells[t][x][y][z] == data.cells[x][y][z][t]
  {
    LastAxisToFront(data.cells, data.shape);
  }

  /** A (T, X, Y, Z)-looking shape (first extent at least 16, last below 16) is kept as it is. */
  lemma TimeFirstKept(data: Array4<real>)
    requires data.Valid() && data.shape[0] >= 16 && data.shape[3] < 16
    ensures TimeFirst(data) == data
  {
  }

  /**
   * Otherwise the new first axis is the largest, and every axis before it
   * in the input is strictly smaller (`argmax` takes the first).
   */
  lemma TimeFirstLargest(data: Array4<real>)
    requires data.Valid()
    requires !(data.shape[0] < 16 && data.shape[3] > 32) && !(data.shape[0] >= 16 && data.shape[3] < 16)
    ensures var s, r, k := data.shape, TimeFirst(data), TimeAxis(data.shape);
      && r.shape[0] == s[k]
      && (forall m :: 0 <= m < 4 ==> s[m] <= r.shape[0])
      && (forall m :: 0 <= m < k ==> s[m] < r.shape[0])
  {
    var r := TimeFirst(data);
    assert r.shape == PermuteShape(data.shape, MoveToFront(TimeAxis(data.shape)));
  }

  // ---------------------------------------------------------------------
  // Stride downsampling

  /**
   * `data[:, ::f, ::f, ::f]` when f > 1: T unchanged, every spatial extent
   * d becoming ceil(d / f), each frame strided alike. A factor of 1 or less
   * leaves the data as it is.
   */
  function StrideFrames(data: Array4<real>, f: int): (r: Array4<real>)
    requires data.Valid()
    ensures r.Valid()
    ensures f <= 1 ==> r == data
    ensures f > 1 ==> r.shape == [data.shape[0], CeilDiv(data.shape[1], f), CeilDiv(data.shape[2], f), CeilDiv(data.shape[3], f)]
    ensures f > 1 ==> forall t :: 0 <= t < data.shape[0] ==>
      r.cells[t] == Stride3(data.cells[t], data.shape[1], data.shape[2], data.shape[3], f)
  {
    if f <= 1 then data
    else
      var s := data.shape;
      var cells := seq(s[0], t requires 0 <= t < s[0] => Stride3(data.cells[t], s[1], s[2], s[3], f));
      var r := Array4([s[0], CeilDiv(s[1], f), CeilDiv(s[2], f), CeilDiv(s[3], f)], cells);
      assert forall t :: 0 <= t < s[0] ==> r.cells[t] == Stride3(data.cells[t], s[1], s[2], s[3], f);
      assert forall t :: 0 <= t < s[0] ==> HasShape3(r.cells[t], r.shape[1], r.shape[2], r.shape[3]);
      r
  }

  /** Element (t, i, j, k) of the strided data is input element (t, i*f, j*f, k*f), which exists. */
  lemma StrideFramesAt(data: Array4<real>, f: int, t: nat, i: nat, j: nat, k: nat)
    requires data.Valid() && f > 1
    requires var r := StrideFrames(data, f); t < r.shape[0] && i < r.shape[1] && j < r.shape[2] && k < r.shape[3]
    ensures i * f < data.shape[1] && j * f < data.shape[2] && k * f < data.shape[3]
    ensures StrideFrames(data, f).cells[t][i][j][k] == data.cells[t][i * f][j * f][k * f]
  {
    var s := data.shape;
    var r := StrideFrames(data, f);
    assert i < CeilDiv(s[1], f) && j < CeilDiv(s[2], f) && k < CeilDiv(s[3], f);
    var v := Stride3(data.cells[t], s[1], s[2], s[3], f);
    assert r.cells[t] == v;
    assert StrideHits(s[1], f, i) && StrideHits(s[2], f, j) && StrideHits(s[3], f, k);
    assert v[i][j][k] == data.cells[t][i * f][j * f][k * f];
  }

  // ---------------------------------------------------------------------
  // Repetition time

  /** The attribute names read as the repetition time, compared lowercased. */
  predicate IsTrKey(key: string) {
    var k := Lower(key);
    k == "tr" || k == "repetition_time" || k == "pixdim4"
  }

  /**
   * `float(val)` of a scalar or `float(val[0])` of an array; None where it
   * raises (an empty array or a non-numeric value), which `main` swallows.
   */
  function AttrTr(v: AttrValue): (r: Option<real>)
    ensures v.Scalar? ==> r == Some(v.v)
    ensures v.Vector? && v.vs != [] ==> r == Some(v.vs[0])
    ensures v.NonNumeric? || (v.Vector? && v.vs == []) ==> r.None?
  {
    match v
    case Scalar(x) => Some(x)
    case Vector(vs) => if vs == [] then None else Some(vs[0])
    case NonNumeric => None
  }

  /** An attribute that sets the repetition time: a matching key whose value reads as a number. */
  predicate Readable(a: Attr) {
    IsTrKey(a.key) && AttrTr(a.value).Some?
  }

  /**
   * The repetition time one object's attributes give: that of the last
   * readable matching attribute, since each match overwrites the last.
   */
  function LastTr(attrs: seq<Attr>): (r: Option<real>)
    ensures r.Some? <==> exists i :: 0 <= i < |attrs| && Readable(attrs[i])
    ensures r.Some? ==> exists i :: (0 <= i < |attrs| && Readable(attrs[i]) &&
      r.value == AttrTr(attrs[i].value).value && forall j :: i < j < |attrs| ==> !Readable(attrs[j]))
  {
    if attrs == [] then None
    else
      var n := |attrs| - 1;
      if Readable(attrs[n]) then AttrTr(attrs[n].value)
      else
        var r := LastTr(attrs[..n]);
        assert forall i :: 0 <= i < n ==> attrs[..n][i] == attrs[i];
        r
  }

  /** The inner loop over one object's attribute keys, entered while no value is known. */
  method ScanAttrs(attrs: seq<Attr>) returns (tr: Option<real>)
    ensures tr == LastTr(attrs)
  {
    tr := None;
    for i := 0 to |attrs|
      invariant tr == LastTr(attrs[..i])
    {
      assert attrs[..i + 1][..i] == attrs[..i];
      if IsTrKey(attrs[i].key) {
        var v := AttrTr(attrs[i].value);
        if v.Some? {
          tr := v;
        }
      }
    }
    assert attrs[..|attrs|] == attrs;
  }

  /** The value after searching the objects in order, each only while nothing is known yet. */
  function Searched(tr: Option<real>, objs: seq<seq<Attr>>): Option<real>
    decreases |objs|
  {
    if objs == [] then tr
    else Searched(if tr.Some? then tr else LastTr(objs[0]), objs[1..])
  }

  /**
   * The repetition time `main` records: the command-line value if given;
   * else the dataset's attributes, and only if they give none the file's;
   * else the default 2.0 seconds.
   */
  function TrOf(cli: Option<real>, dsAttrs: seq<Attr>, fileAttrs: seq<Attr>): (r: real)
    ensures cli.Some? ==> r == cli.value
    ensures cli.None? && LastTr(dsAttrs).Some? ==> r == LastTr(dsAttrs).value
    ensures cli.None? && LastTr(dsAttrs).None? && LastTr(fileAttrs).Some? ==> r == LastTr(fileAttrs).value
    ensures cli.None? && LastTr(dsAttrs).None? && LastTr(fileAttrs).None? ==> r == 2.0
  {
    SearchedPair(cli, dsAttrs, fileAttrs);
    var found := Searched(cli, [dsAttrs, fileAttrs]);
    if found.Some? then found.value else 2.0
  }

  /** The search over two objects, unfolded. */
  lemma SearchedPair(cli: Option<real>, a: seq<Attr>, b: seq<Attr>)
    ensures Searched(cli, [a, b]) == if cli.Some? then cli else if LastTr(a).Some? then LastTr(a) else LastTr(b)
  {
    var objs := [a, b];
    var afterA := if cli.Some? then cli else LastTr(a);
    assert objs[0] == a && objs[1..] == [b];
    assert Searched(cli, objs) == Searched(afterA, [b]);
    assert [b][0] == b && [b][1..] == [];
    var afterB := if afterA.Some? then afterA else LastTr(b);
    assert Searched(afterA, [b]) == Searched(afterB, []) == afterB;
  }

  /** The attribute search of `main`: the loop over the dataset and the file. */
  method LookupTr(cli: Option<real>, dsAttrs: seq<Attr>, fileAttrs: seq<Attr>) returns (tr: real)
    ensures tr == TrOf(cli, dsAttrs, fileAttrs)
  {
    var found := cli;
    var objs := [dsAttrs, fileAttrs];
    for o := 0 to |objs|
      invariant Searched(found, objs[o..]) == Searched(cli, objs)
    {
      assert objs[o..][1..] == objs[o + 1..];
      if found.None? {
        found := ScanAttrs(objs[o]);
      }
    }
    assert objs[|objs|..] == [];
    tr := if found.Some? then found.value else 2.0;
  }

  // ---------------------------------------------------------------------
  // crop_and_center

  /**
   * Voxel (x, y, z) of `mean_vol > thresh`. The mean over no frames is
   * NaN, which is above nothing.
   */
  predicate Masked(data: Array4<real>, thresh: real, x: nat, y: nat, z: nat)
    requires data.Valid() && x < data.shape[1] && y < data.shape[2] && z < data.shape[3]
  {
    data.shape[0] > 0 && ExportMhd.TimeSum(data, data.shape[0], x, y, z) / (data.shape[0] as real) > thresh
  }

  /** `mask.any()`. */
  predicate AnyMasked(data: Array4<real>, thresh: real)
    requires data.Valid()
  {
    exists x: nat, y: nat, z: nat :: x < data.shape[1] && y < data.shape[2] && z < data.shape[3] && Masked(data, thresh, x, y, z)
  }

  /** The plane at x holds a mask voxel. */
  predicate XHit(data: Array4<real>, thresh: real, x: nat)
    requires data.Valid() && x < data.shape[1]
  {
    exists y: nat, z: nat :: y < data.shape[2] && z < data.shape[3] && Masked(data, thresh, x, y, z)
  }

  /** The plane at y holds a mask voxel. */
  predicate YHit(data: Array4<real>, thresh: real, y: nat)
    requires data.Valid() && y < data.shape[2]
  {
    exists x: nat, z: nat :: x < data.shape[1] && z < data.shape[3] && Masked(data, thresh, x, y, z)
  }

  /** The plane at z holds a mask voxel. */
  predicate ZHit(data: Array4<real>, thresh: real, z: nat)
    requires data.Valid() && z < data.shape[3]
  {
    exists x: nat, y: nat :: x < data.shape[1] && y < data.shape[2] && Masked(data, thresh, x, y, z)
  }

  /** Which x-planes hold a mask voxel. */
  function XProfile(data: Array4<real>, thresh: real): (r: seq<bool>)
    requires data.Valid()
    ensures |r| == data.shape[1] && forall x :: 0 <= x < |r| ==> (r[x] <==> XHit(data, thresh, x))
  {
    seq(data.shape[1], x requires 0 <= x < data.shape[1] => XHit(data, thresh, x))
  }

  /** Which y-planes hold a mask voxel. */
  function YProfile(data: Array4<real>, thresh: real): (r: seq<bool>)
    requires data.Valid()
    ensures |r| == data.shape[2] && forall y :: 0 <= y < |r| ==> (r[y] <==> YHit(data, thresh, y))
  {
    seq(data.shape[2], y requires 0 <= y < data.shape[2] => YHit(data, thresh, y))
  }

  /** Which z-planes hold a mask voxel. */
  function ZProfile(data: Array4<real>, thresh: real): (r: seq<bool>)
    requires data.Valid()
    ensures |r| == data.shape[3] && forall z :: 0 <= z < |r| ==> (r[z] <==> ZHit(data, thresh, z))
  {
    seq(data.shape[3], z requires 0 <= z < data.shape[3] => ZHit(data, thresh, z))
  }

  /** The first index holding true, or |s| when there is none. */
  function FirstTrue(s: seq<bool>): (r: nat)
    ensures r <= |s|
    ensures forall i :: 0 <= i < r ==> !s[i]
    ensures r < |s| ==> s[r]
  {
    if s == [] then 0
    else if s[0] then 0
    else
      var r := FirstTrue(s[1..]);
      assert forall i :: 1 <= i <= r ==> s[i] == s[1..][i - 1];
      1 + r
  }

  /** The last index holding true, or -1 when there is none. */
  function LastTrue(s: seq<bool>): (r: int)
    ensures -1 <= r < |s|
    ensures forall i :: r < i < |s| ==> !s[i]
    ensures r >= 0 ==> s[r]
  {
    if s == [] then -1
    else if s[|s| - 1] then |s| - 1
    else LastTrue(s[..|s| - 1])
  }

  /** What `crop_and_center` reports. */
  datatype CropInfo =
    | NotCropped
    | Cropped(x0: nat, y0: nat, z0: nat, x1: nat, y1: nat, z1: nat, pad: nat)

  /** The box `coords.min(axis=0)` .. `coords.max(axis=0) + 1` of the mask, with the margin of 2. */
  function BoxOf(data: Array4<real>, thresh: real): (info: CropInfo)
    requires data.Valid()
    ensures info.Cropped?
  {
    var xs, ys, zs := XProfile(data, thresh), YProfile(data, thresh), ZProfile(data, thresh);
    Cropped(FirstTrue(xs), FirstTrue(ys), FirstTrue(zs), LastTrue(xs) + 1, LastTrue(ys) + 1, LastTrue(zs) + 1, 2)
  }

  /**
   * info is the tightest box around the mask: non-empty and inside the
   * volume, holding every mask voxel, and each of its six faces touching
   * one.
   */
  predicate TightBox(data: Array4<real>, thresh: real, info: CropInfo)
    requires data.Valid()
  {
    && info.Cropped?
    && info.x0 < info.x1 <= data.shape[1] && info.y0 < info.y1 <= data.shape[2] && info.z0 < info.z1 <= data.shape[3]
    && (forall x: nat, y: nat, z: nat :: x < data.shape[1] && y < data.shape[2] && z < data.shape[3] && Masked(data, thresh, x, y, z) ==>
          info.x0 <= x < info.x1 && info.y0 <= y < info.y1 && info.z0 <= z < info.z1)
    && XHit(data, thresh, info.x0) && XHit(data, thresh, info.x1 - 1)
    && YHit(data, thresh, info.y0) && YHit(data, thresh, info.y1 - 1)
    && ZHit(data, thresh, info.z0) && ZHit(data, thresh, info.z1 - 1)
  }

  /** A true entry lies between the first and the last true entry. */
  lemma BetweenFirstAndLast(s: seq<bool>, i: nat)
    requires i < |s| && s[i]
    ensures FirstTrue(s) <= i <= LastTrue(s)
  {
  }

  /** When some voxel is masked, BoxOf is the tight box. */
  lemma BoxOfIsTight(data: Array4<real>, thresh: real)
    requires data.Valid() && AnyMasked(data, thresh)
    ensures TightBox(data, thresh, BoxOf(data, thresh))
  {
    var xs, ys, zs := XProfile(data, thresh), YProfile(data, thresh), ZProfile(data, thresh);
    var x: nat, y: nat, z: nat :| x < data.shape[1] && y < data.shape[2] && z < data.shape[3] && Masked(data, thresh, x, y, z);
    assert XHit(data, thresh, x) && YHit(data, thresh, y) && ZHit(data, thresh, z);
    EndsHold(xs, x);
    EndsHold(ys, y);
    EndsHold(zs, z);
    var info := BoxOf(data, thresh);
    assert info.x0 == FirstTrue(xs) && info.x1 - 1 == LastTrue(xs);
    assert info.y0 == FirstTrue(ys) && info.y1 - 1 == LastTrue(ys);
    assert info.z0 == FirstTrue(zs) && info.z1 - 1 == LastTrue(zs);
    assert XHit(data, thresh, info.x0) && XHit(data, thresh, info.x1 - 1);
    assert YHit(data, thresh, info.y0) && YHit(data, thresh, info.y1 - 1);
    assert ZHit(data, thresh, info.z0) && ZHit(data, thresh, info.z1 - 1);
    BoxHoldsMask(data, thresh);
  }

  /** With some true entry, the first and the last true entries exist and are in order. */
  lemma EndsHold(s: seq<bool>, i: nat)
    requires i < |s| && s[i]
    ensures FirstTrue(s) <= LastTrue(s) && s[FirstTrue(s)] && s[LastTrue(s)]
  {
    BetweenFirstAndLast(s, i);
  }

  /** Every mask voxel lies in BoxOf. */
  lemma BoxHoldsMask(data: Array4<real>, thresh: real)
    requires data.Valid()
    ensures var info := BoxOf(data, thresh);
      forall x: nat, y: nat, z: nat :: x < data.shape[1] && y < data.shape[2] && z < data.shape[3] && Masked(data, thresh, x, y, z) ==>
        info.x0 <= x < info.x1 && info.y0 <= y < info.y1 && info.z0 <= z < info.z1
  {
    forall x: nat, y: nat, z: nat | x < data.shape[1] && y < data.shape[2] && z < data.shape[3] && Masked(data, thresh, x, y, z)
      ensures var info := BoxOf(data, thresh); info.x0 <= x < info.x1 && info.y0 <= y < info.y1 && info.z0 <= z < info.z1
    {
      MaskedVoxelInBox(data, thresh, x, y, z);
    }
  }

  lemma MaskedVoxelInBox(data: Array4<real>, thresh: real, x: nat, y: nat, z: nat)
    requires data.Valid() && x < data.shape[1] && y < data.shape[2] && z < data.shape[3] && Masked(data, thresh, x, y, z)
    ensures var info := BoxOf(data, thresh);
      info.x0 <= x < info.x1 && info.y0 <= y < info.y1 && info.z0 <= z < info.z1
  {
    assert XHit(data, thresh, x) && YHit(data, thresh, y) && ZHit(data, thresh, z);
    BetweenFirstAndLast(XProfile(data, thresh), x);
    BetweenFirstAndLast(YProfile(data, thresh), y);
    BetweenFirstAndLast(ZProfile(data, thresh), z);
  }

  /** `vol4d[:, x0:x1, y0:y1, z0:z1]`. */
  function CropBox(data: Array4<real>, x0: nat, x1: nat, y0: nat, y1: nat, z0: nat, z1: nat): (r: Array4<real>)
    requires data.Valid() && x0 <= x1 <= data.shape[1] && y0 <= y1 <= data.shape[2] && z0 <= z1 <= data.shape[3]
    ensures r.Valid() && r.shape == [data.shape[0], x1 - x0, y1 - y0, z1 - z0]
    ensures forall t, x, y, z :: 0 <= t < data.shape[0] && 0 <= x < x1 - x0 && 0 <= y < y1 - y0 && 0 <= z < z1 - z0 ==>
      r.cells[t][x][y][z] == data.cells[t][x0 + x][y0 + y][z0 + z]
  {
    var T := data.shape[0];
    var cells := seq(T, t requires 0 <= t < T =>
      CropFrame(data.cells[t], data.shape[1], data.shape[2], data.shape[3], x0, x1, y0, y1, z0, z1));
    assert forall t :: 0 <= t < T ==>
      cells[t] == CropFrame(data.cells[t], data.shape[1], data.shape[2], data.shape[3], x0, x1, y0, y1, z0, z1);
    Array4([T, x1 - x0, y1 - y0, z1 - z0], cells)
  }

  /** One frame of the crop. */
  function CropFrame(vol: Arr3<real>, X: nat, Y: nat, Z: nat, x0: nat, x1: nat, y0: nat, y1: nat, z0: nat, z1: nat): (r: Arr3<real>)
    requires HasShape3(vol, X, Y, Z) && x0 <= x1 <= X && y0 <= y1 <= Y && z0 <= z1 <= Z
    ensures HasShape3(r, x1 - x0, y1 - y0, z1 - z0)
    ensures forall x, y, z :: 0 <= x < x1 - x0 && 0 <= y < y1 - y0 && 0 <= z < z1 - z0 ==>
      r[x][y][z] == vol[x0 + x][y0 + y][z0 + z]
  {
    seq(x1 - x0, x requires 0 <= x < x1 - x0 =>
      seq(y1 - y0, y requires 0 <= y < y1 - y0 =>
        seq(z1 - z0, z requires 0 <= z < z1 - z0 => vol[x0 + x][y0 + y][z0 + z])))
  }

  /** (x, y, z) lies in the interior left by a margin of p around an (X, Y, Z) core. */
  predicate Interior(s: seq<nat>, p: nat, x: int, y: int, z: int)
    requires |s| == 4
  {
    p <= x < s[1] + p && p <= y < s[2] + p && p <= z < s[3] + p
  }

  /** `np.pad` of the spatial axes with p zeros on each side. */
  function PadSpatial(data: Array4<real>, p: nat): (r: Array4<real>)
    requires data.Valid()
    ensures r.Valid() && r.shape == [data.shape[0], data.shape[1] + 2 * p, data.shape[2] + 2 * p, data.shape[3] + 2 * p]
    ensures forall t, x, y, z :: 0 <= t < r.shape[0] && 0 <= x < r.shape[1] && 0 <= y < r.shape[2] && 0 <= z < r.shape[3] ==>
      r.cells[t][x][y][z] == if Interior(data.shape, p, x, y, z) then data.cells[t][x - p][y - p][z - p] else 0.0
  {
    var s := data.shape;
    var cells := seq(s[0], t requires 0 <= t < s[0] => PadFrame(data.cells[t], s, p));
    assert forall t :: 0 <= t < s[0] ==> cells[t] == PadFrame(data.cells[t], s, p);
    Array4([s[0], s[1] + 2 * p, s[2] + 2 * p, s[3] + 2 * p], cells)
  }

  /** One frame of the padding. */
  function PadFrame(vol: Arr3<real>, s: seq<nat>, p: nat): (r: Arr3<real>)
    requires |s| == 4 && HasShape3(vol, s[1], s[2], s[3])
    ensures HasShape3(r, s[1] + 2 * p, s[2] + 2 * p, s[3] + 2 * p)
    ensures forall x, y, z :: 0 <= x < s[1] + 2 * p && 0 <= y < s[2] + 2 * p && 0 <= z < s[3] + 2 * p ==>
      r[x][y][z] == if Interior(s, p, x, y, z) then vol[x - p][y - p][z - p] else 0.0
  {
    seq(s[1] + 2 * p, x requires 0 <= x < s[1] + 2 * p =>
      seq(s[2] + 2 * p, y requires 0 <= y < s[2] + 2 * p =>
        seq(s[3] + 2 * p, z requires 0 <= z < s[3] + 2 * p =>
          if Interior(s, p, x, y, z) then vol[x - p][y - p][z - p] else 0.0)))
  }

  datatype Cropping = Cropping(vol: Array4<real>, info: CropInfo)

  /**
   * out is the box of info cut out of data and padded: T kept, each spatial
   * extent the box's plus 2 * pad, the box's voxels in the interior and
   * zeros around them.
   */
  predicate CroppedFrom(out: Array4<real>, data: Array4<real>, info: CropInfo)
    requires data.Valid() && info.Cropped?
  {
    var X, Y, Z, p := info.x1 - info.x0, info.y1 - info.y0, info.z1 - info.z0, info.pad;
    && out.Valid()
    && out.shape == [data.shape[0], X + 2 * p, Y + 2 * p, Z + 2 * p]
    && forall t, x, y, z :: 0 <= t < out.shape[0] && 0 <= x < out.shape[1] && 0 <= y < out.shape[2] && 0 <= z < out.shape[3] ==>
         CroppedAt(out, data, info, t, x, y, z)
  }

  /** CroppedFrom's claim at one voxel (t, x, y, z) of out. */
  predicate CroppedAt(out: Array4<real>, data: Array4<real>, info: CropInfo, t: nat, x: nat, y: nat, z: nat)
    requires data.Valid() && info.Cropped? && out.Valid()
    requires t < out.shape[0] <= data.shape[0] && x < out.shape[1] && y < out.shape[2] && z < out.shape[3]
  {
    var X, Y, Z, p := info.x1 - info.x0, info.y1 - info.y0, info.z1 - info.z0, info.pad;
    if p <= x < X + p && p <= y < Y + p && p <= z < Z + p then
      info.x0 + x - p < data.shape[1] && info.y0 + y - p < data.shape[2] && info.z0 + z - p < data.shape[3] &&
      out.cells[t][x][y][z] == data.cells[t][info.x0 + x - p][info.y0 + y - p][info.z0 + z - p]
    else out.cells[t][x][y][z] == 0.0
  }

  /**
   * `crop_and_center(vol4d, thresh)`: with no voxel of the time-mean above
   * thresh, the input unchanged and not cropped; otherwise the tight box
   * around the mask, cut out and padded with 2 zero voxels on every
   * spatial side.
   */
  function CropAndCenter(data: Array4<real>, thresh: real): (r: Cropping)
    requires data.Valid()
    ensures r.vol.Valid()
    ensures !AnyMasked(data, thresh) ==> r == Cropping(data, NotCropped)
    ensures AnyMasked(data, thresh) ==>
      && TightBox(data, thresh, r.info)
      && r.info.pad == 2
      && CroppedFrom(r.vol, data, r.info)
  {
    if !AnyMasked(data, thresh) then Cropping(data, NotCropped)
    else
      var b := BoxOf(data, thresh);
      BoxOfIsTight(data, thresh);
      var cut := CropBox(data, b.x0, b.x1, b.y0, b.y1, b.z0, b.z1);
      var out := PadSpatial(cut, 2);
      PaddedCropIsCroppedFrom(data, b, cut, out);
      Cropping(out, b)
  }

  lemma PaddedCropIsCroppedFrom(data: Array4<real>, b: CropInfo, cut: Array4<real>, out: Array4<real>)
    requires data.Valid() && b.Cropped? && b.pad == 2
    requires b.x0 <= b.x1 <= data.shape[1] && b.y0 <= b.y1 <= data.shape[2] && b.z0 <= b.z1 <= data.shape[3]
    requires cut == CropBox(data, b.x0, b.x1, b.y0, b.y1, b.z0, b.z1) && out == PadSpatial(cut, 2)
    ensures CroppedFrom(out, data, b)
  {
    forall t, x, y, z | 0 <= t < out.shape[0] && 0 <= x < out.shape[1] && 0 <= y < out.shape[2] && 0 <= z < out.shape[3]
      ensures CroppedAt(out, data, b, t, x, y, z)
    {
      PaddedCropPoint(data, b, cut, out, t, x, y, z);
    }
  }

  lemma PaddedCropPoint(data: Array4<real>, b: CropInfo, cut: Array4<real>, out: Array4<real>, t: nat, x: nat, y: nat, z: nat)
    requires data.Valid() && b.Cropped? && b.pad == 2
    requires b.x0 <= b.x1 <= data.shape[1] && b.y0 <= b.y1 <= data.shape[2] && b.z0 <= b.z1 <= data.shape[3]
    requires cut == CropBox(data, b.x0, b.x1, b.y0, b.y1, b.z0, b.z1) && out == PadSpatial(cut, 2)
    requires t < out.shape[0] && x < out.shape[1] && y < out.shape[2] && z < out.shape[3]
    ensures CroppedAt(out, data, b, t, x, y, z)
  {
    if Interior(cut.shape, 2, x, y, z) {
      assert out.cells[t][x][y][z] == cut.cells[t][x - 2][y - 2][z - 2];
    } else {
      assert out.cells[t][x][y][z] == 0.0;
    }
  }

  /** Cropping keeps the values in [0, 1] (the margin is zeros). */
  lemma CropKeepsUnitRange(data: Array4<real>, thresh: real)
    requires data.Valid() && UnitRange(data)
    ensures UnitRange(CropAndCenter(data, thresh).vol)
    ensures CropAndCenter(data, thresh).vol.shape[0] == data.shape[0]
  {
    var r := CropAndCenter(data, thresh);
    if AnyMasked(data, thresh) {
      CroppedFromKeepsUnitRange(r.vol, data, r.info);
    }
  }

  /** A padded box cut out of values in [0, 1] holds values in [0, 1]. */
  lemma CroppedFromKeepsUnitRange(out: Array4<real>, data: Array4<real>, info: CropInfo)
    requires data.Valid() && UnitRange(data) && info.Cropped? && CroppedFrom(out, data, info)
    ensures UnitRange(out)
  {
    forall t, x, y, z | 0 <= t < out.shape[0] && 0 <= x < out.shape[1] && 0 <= y < out.shape[2] && 0 <= z < out.shape[3]
      ensures 0.0 <= out.cells[t][x][y][z] <= 1.0
    {
      assert CroppedAt(out, data, info, t, x, y, z);
    }
  }

  // ---------------------------------------------------------------------
  // Anatomy and percent signal change

  /** `data_norm.mean(axis=0)` at (x, y, z). */
  function TimeMean(data: Array4<real>, x: nat, y: nat, z: nat): (m: real)
    requires data.Valid() && data.shape[0] > 0 && x < data.shape[1] && y < data.shape[2] && z < data.shape[3]
  {
    ExportMhd.TimeSum(data, data.shape[0], x, y, z) / (data.shape[0] as real)
  }

  /** The mean of the first n frames of a voxel whose values lie in [0, 1] lies in [0, 1] too. */
  lemma {:induction false} TimeSumInUnit(data: Array4<real>, n: nat, x: nat, y: nat, z: nat)
    requires data.Valid() && UnitRange(data) && n <= data.shape[0] && x < data.shape[1] && y < data.shape[2] && z < data.shape[3]
    ensures 0.0 <= ExportMhd.TimeSum(data, n, x, y, z) <= n as real
  {
    if n > 0 {
      TimeSumInUnit(data, n - 1, x, y, z);
      assert 0.0 <= data.cells[n - 1][x][y][z] <= 1.0;
    }
  }

  /** The mean of n values in [0, n] lies in [0, 1]. */
  lemma MeanInUnit(s: real, n: nat)
    requires n > 0 && 0.0 <= s <= n as real
    ensures 0.0 <= s / (n as real) <= 1.0
  {
  }

  /** `anatomy_u8 = to_uint8(mean_vol, 0, 1)`: the (X, Y, Z) bytes of the time-mean. */
  function AnatomyVolume(data: Array4<real>): (r: Array3<Byte>)
    requires data.Valid() && data.shape[0] > 0
    ensures r.Valid() && r.shape == data.shape[1..]
    ensures forall x, y, z :: 0 <= x < data.shape[1] && 0 <= y < data.shape[2] && 0 <= z < data.shape[3] ==>
      r.cells[x][y][z] == ToUint8(TimeMean(data, x, y, z), 0.0, 1.0)
  {
    var s := data.shape;
    Array3(s[1..],
      seq(s[1], x requires 0 <= x < s[1] =>
        seq(s[2], y requires 0 <= y < s[2] =>
          seq(s[3], z requires 0 <= z < s[3] => ToUint8(TimeMean(data, x, y, z), 0.0, 1.0)))))
  }

  /** A voxel that keeps the value v in every frame gets the byte of v in the anatomy. */
  lemma SteadyVoxelAnatomy(data: Array4<real>, x: nat, y: nat, z: nat, v: real)
    requires data.Valid() && data.shape[0] > 0 && x < data.shape[1] && y < data.shape[2] && z < data.shape[3]
    requires forall t :: 0 <= t < data.shape[0] ==> data.cells[t][x][y][z] == v
    ensures AnatomyVolume(data).cells[x][y][z] == RoundToByte(v)
  {
    ExportMhd.ConstantTimeSum(data, data.shape[0], x, y, z, v);
    ExportMhd.MeanOfEqual(data.shape[0], v);
    assert TimeMean(data, x, y, z) == v;
    ToUint8OfUnit(v);
  }

  datatype BaselineMode = FirstN | MeanAll

  /**
   * The number of frames the baseline averages: for `firstN`, the option's
   * N clamped into 1..T; for `mean`, all T.
   */
  function BaselineCount(mode: BaselineMode, baselineN: int, T: nat): (n: nat)
    requires T > 0
    ensures 1 <= n <= T
    ensures mode == MeanAll ==> n == T
    ensures mode == FirstN && 1 <= baselineN <= T ==> n == baselineN
    ensures mode == FirstN && baselineN < 1 ==> n == 1
    ensures mode == FirstN && baselineN > T ==> n == T
  {
    match mode
    case FirstN => Max(1, Min(baselineN, T))
    case MeanAll => T
  }

  /** The baseline of a voxel: the mean of its first n frames, in [0, 1] for unit data. */
  function BaselineMean(data: Array4<real>, n: nat, x: nat, y: nat, z: nat): (b: real)
    requires data.Valid() && UnitRange(data) && 0 < n <= data.shape[0]
    requires x < data.shape[1] && y < data.shape[2] && z < data.shape[3]
    ensures 0.0 <= b <= 1.0
  {
    TimeSumInUnit(data, n, x, y, z);
    MeanInUnit(ExportMhd.TimeSum(data, n, x, y, z), n);
    ExportMhd.TimeSum(data, n, x, y, z) / (n as real)
  }

  /**
   * `100 * (v - b) / (b + eps)`: the change of v over a non-negative
   * baseline in percent, positive above it, negative below, zero at it.
   */
  function PscPercent(v: real, b: real): (p: real)
    requires b >= 0.0
    ensures v == b ==> p == 0.0
    ensures v > b ==> p > 0.0
    ensures v < b ==> p < 0.0
  {
    100.0 * (v - b) / (b + EPS)
  }

  /** `psc01`: the change mapped from [-pr, pr] onto [0, 1]. */
  function PscUnit(data: Array4<real>, n: nat, pr: real, t: nat, x: nat, y: nat, z: nat): (u: real)
    requires data.Valid() && UnitRange(data) && 0 < n <= data.shape[0] && pr != 0.0
    requires t < data.shape[0] && x < data.shape[1] && y < data.shape[2] && z < data.shape[3]
    ensures 0.0 <= u <= 1.0
  {
    var psc := PscPercent(data.cells[t][x][y][z], BaselineMean(data, n, x, y, z));
    Clip((psc + pr) / (2.0 * pr), 0.0, 1.0)
  }

  /** `to_uint8(psc01[t], 0, 1)`: the bytes of frame t. */
  function PscVolume(data: Array4<real>, n: nat, pr: real, t: nat): (r: Array3<Byte>)
    requires data.Valid() && UnitRange(data) && 0 < n <= data.shape[0] && pr != 0.0 && t < data.shape[0]
    ensures r.Valid() && r.shape == data.shape[1..]
    ensures forall x, y, z :: 0 <= x < data.shape[1] && 0 <= y < data.shape[2] && 0 <= z < data.shape[3] ==>
      r.cells[x][y][z] == ToUint8(PscUnit(data, n, pr, t, x, y, z), 0.0, 1.0)
  {
    var s := data.shape;
    Array3(s[1..],
      seq(s[1], x requires 0 <= x < s[1] =>
        seq(s[2], y requires 0 <= y < s[2] =>
          seq(s[3], z requires 0 <= z < s[3] => ToUint8(PscUnit(data, n, pr, t, x, y, z), 0.0, 1.0)))))
  }

  /**
   * A voxel that keeps its value over time has no signal change: with a
   * non-zero range, every frame gives it the middle byte 128.
   */
  lemma SteadyVoxelIsMidGray(data: Array4<real>, n: nat, pr: real, x: nat, y: nat, z: nat, v: real)
    requires data.Valid() && UnitRange(data) && 0 < n <= data.shape[0] && pr != 0.0
    requires x < data.shape[1] && y < data.shape[2] && z < data.shape[3]
    requires forall t :: 0 <= t < data.shape[0] ==> data.cells[t][x][y][z] == v
    ensures forall t :: 0 <= t < data.shape[0] ==> PscVolume(data, n, pr, t).cells[x][y][z] == 128
  {
    ExportMhd.ConstantTimeSum(data, n, x, y, z, v);
    ExportMhd.MeanOfEqual(n, v);
    assert BaselineMean(data, n, x, y, z) == v;
    assert (0.0 + pr) / (2.0 * pr) == 0.5;
    forall t | 0 <= t < data.shape[0] ensures PscVolume(data, n, pr, t).cells[x][y][z] == 128 {
      assert PscUnit(data, n, pr, t, x, y, z) == 0.5;
      assert RoundToByte(0.5) == 128;
    }
  }

  // ---------------------------------------------------------------------
  // Writing volumes

  /** A `.vol` file: its name and its bytes. */
  datatype VolFile = VolFile(name: string, bytes: seq<Byte>)

  /** `f"psc_{t:04d}.vol"`. */
  function PscName(t: nat): string {
    "psc_" + ZeroPad4(t) + ".vol"
  }

  lemma PscNamesDistinct(i: nat, j: nat)
    requires PscName(i) == PscName(j)
    ensures i == j
  {
    var a, b := PscName(i), PscName(j);
    assert ZeroPad4(i) == a[4..|a| - 4];
    assert ZeroPad4(j) == b[4..|b| - 4];
    ZeroPad4RoundTrip(i);
    ZeroPad4RoundTrip(j);
  }

  /** bytes hold the (X, Y, Z) volume vol in C order: voxel (x, y, z) at byte (x * Y + y) * Z + z. */
  predicate HoldsCOrder(bytes: seq<Byte>, vol: Array3<Byte>)
    requires vol.Valid()
  {
    var X, Y, Z := vol.shape[0], vol.shape[1], vol.shape[2];
    && |bytes| == X * Y * Z
    && forall x, y, z :: 0 <= x < X && 0 <= y < Y && 0 <= z < Z ==>
         Offset3(Y, Z, x, y, z) < |bytes| && bytes[Offset3(Y, Z, x, y, z)] == vol.cells[x][y][z]
  }

  /**
   * `vol.tofile(path)` as written, for an (X, Y, Z) volume: C order, so
   * byte (x * Y + y) * Z + z is voxel (x, y, z) and z varies fastest.
   */
  function ToFileBytes(vol: Array3<Byte>): (bytes: seq<Byte>)
    requires vol.Valid()
    ensures HoldsCOrder(bytes, vol)
  {
    var X, Y, Z := vol.shape[0], vol.shape[1], vol.shape[2];
    forall x, y, z | 0 <= x < X && 0 <= y < Y && 0 <= z < Z
      ensures Offset3(Y, Z, x, y, z) < |Flatten3(vol.cells)| && Flatten3(vol.cells)[Offset3(Y, Z, x, y, z)] == vol.cells[x][y][z]
    {
      Flatten3At(vol.cells, X, Y, Z, x, y, z);
    }
    Flatten3Length(vol.cells, X, Y, Z);
    Flatten3(vol.cells)
  }

  /** What a reader of the manifest's `"x_fastest"` takes voxel (x, y, z) to be. */
  function XFastestVoxel(bytes: seq<Byte>, X: nat, Y: nat, Z: nat, x: nat, y: nat, z: nat): Byte
    requires |bytes| == X * Y * Z && x < X && y < Y && z < Z
  {
    Offset3Bound(Z, Y, X, z, y, x);
    Reverse3Count(X, Y, Z);
    bytes[XFastestOffset(X, Y, x, y, z)]
  }

  /**
   * The discrepancy: in any volume with at least two voxels along x and
   * along z, a reader of the manifest takes voxel (1, 0, 0) from the byte
   * holding voxel (0, 0, 1).
   */
  lemma WrittenVolumeIsNotXFastest(vol: Array3<Byte>)
    requires vol.Valid() && vol.shape[0] >= 2 && vol.shape[1] >= 1 && vol.shape[2] >= 2
    ensures XFastestVoxel(ToFileBytes(vol), vol.shape[0], vol.shape[1], vol.shape[2], 1, 0, 0) == vol.cells[0][0][1]
  {
    var X, Y, Z := vol.shape[0], vol.shape[1], vol.shape[2];
    assert Offset3(Y, Z, 0, 0, 1) == 1 == XFastestOffset(X, Y, 1, 0, 0);
  }

  /**
   * For the (X, Y, Z) = (2, 1, 2) volume holding 0, 1, 2, 3 in C order, the
   * reader finds 1 at (1, 0, 0), where the volume holds 2.
   */
  lemma WrittenVolumeCounterexample(vol: Array3<Byte>)
    requires vol.shape == [2, 1, 2] && vol.cells == [[[0, 1]], [[2, 3]]]
    ensures vol.Valid() && vol.cells[1][0][0] == 2
    ensures XFastestVoxel(ToFileBytes(vol), 2, 1, 2, 1, 0, 0) == 1
  {
    ExportMhd.SmallFrameValid(vol);
    WrittenVolumeIsNotXFastest(vol);
  }

  /** The writer as intended: `vol.transpose(2, 1, 0).tofile(path)`, so that x varies fastest. */
  function XFastestBytes(vol: Array3<Byte>): (bytes: seq<Byte>)
    requires vol.Valid()
    ensures |bytes| == vol.shape[0] * vol.shape[1] * vol.shape[2]
  {
    var X, Y, Z := vol.shape[0], vol.shape[1], vol.shape[2];
    var zyx := Reverse3(vol.cells, X, Y, Z);
    Flatten3Length(zyx, Z, Y, X);
    Reverse3Count(X, Y, Z);
    Flatten3(zyx)
  }

  /** bytes hold the (X, Y, Z) volume vol as a reader of `"x_fastest"` sees it: every voxel where vol has it. */
  predicate ReadsBackXFastest(bytes: seq<Byte>, vol: Array3<Byte>)
    requires vol.Valid()
  {
    var X, Y, Z := vol.shape[0], vol.shape[1], vol.shape[2];
    && |bytes| == X * Y * Z
    && forall x, y, z :: 0 <= x < X && 0 <= y < Y && 0 <= z < Z ==>
         XFastestVoxel(bytes, X, Y, Z, x, y, z) == vol.cells[x][y][z]
  }

  /** A reader of the manifest finds every voxel of the corrected volume where the volume has it. */
  lemma XFastestBytesReadBack(vol: Array3<Byte>)
    requires vol.Valid()
    ensures ReadsBackXFastest(XFastestBytes(vol), vol)
  {
    var X, Y, Z := vol.shape[0], vol.shape[1], vol.shape[2];
    var zyx := Reverse3(vol.cells, X, Y, Z);
    forall x, y, z | 0 <= x < X && 0 <= y < Y && 0 <= z < Z
      ensures XFastestVoxel(XFastestBytes(vol), X, Y, Z, x, y, z) == vol.cells[x][y][z]
    {
      Flatten3At(zyx, Z, Y, X, z, y, x);
    }
  }

  /** An entry of the manifest's PSC frame list. */
  datatype FrameEntry = FrameEntry(file: string, t: nat)

  /** The PSC frames, one per time point, each written as `main` writes it (C order, z fastest). */
  function PscFiles(data: Array4<real>, n: nat, pr: real): (r: seq<VolFile>)
    requires data.Valid() && UnitRange(data) && 0 < n <= data.shape[0] && pr != 0.0
    ensures |r| == data.shape[0]
    ensures forall t :: 0 <= t < |r| ==> r[t] == VolFile(PscName(t), ToFileBytes(PscVolume(data, n, pr, t)))
  {
    seq(data.shape[0], t requires 0 <= t < data.shape[0] => VolFile(PscName(t), ToFileBytes(PscVolume(data, n, pr, t))))
  }

  /** The manifest's frame list for T frames. */
  function PscEntries(T: nat): (r: seq<FrameEntry>)
    ensures |r| == T && forall t :: 0 <= t < T ==> r[t] == FrameEntry(PscName(t), t)
  {
    seq(T, t requires 0 <= t < T => FrameEntry(PscName(t), t))
  }

  /** The PSC loop of `main`: write frame t and append its entry, for t in ascending order. */
  method WritePscFrames(data: Array4<real>, n: nat, pr: real) returns (files: seq<VolFile>, entries: seq<FrameEntry>)
    requires data.Valid() && UnitRange(data) && 0 < n <= data.shape[0] && pr != 0.0
    ensures files == PscFiles(data, n, pr)
    ensures entries == PscEntries(data.shape[0])
  {
    files, entries := [], [];
    for t := 0 to data.shape[0]
      invariant |files| == t && |entries| == t
      invariant forall t' :: 0 <= t' < t ==> files[t'] == VolFile(PscName(t'), ToFileBytes(PscVolume(data, n, pr, t')))
      invariant forall t' :: 0 <= t' < t ==> entries[t'] == FrameEntry(PscName(t'), t')
    {
      files := files + [VolFile(PscName(t), ToFileBytes(PscVolume(data, n, pr, t)))];
      entries := entries + [FrameEntry(PscName(t), t)];
    }
  }

  /**
   * The frame list names each frame once, in ascending t, and names the
   * file written for it; file t holds frame t's change in C order (z
   * fastest), which is not the order the manifest announces.
   */
  lemma PscFramesListed(data: Array4<real>, n: nat, pr: real, t: nat)
    requires data.Valid() && UnitRange(data) && 0 < n <= data.shape[0] && pr != 0.0 && t < data.shape[0]
    ensures PscEntries(data.shape[0])[t].t == t
    ensures PscEntries(data.shape[0])[t].file == PscFiles(data, n, pr)[t].name
    ensures forall t' :: 0 <= t' < data.shape[0] && t' != t ==> PscFiles(data, n, pr)[t'].name != PscFiles(data, n, pr)[t].name
    ensures HoldsCOrder(PscFiles(data, n, pr)[t].bytes, PscVolume(data, n, pr, t))
  {
    forall t' | 0 <= t' < data.shape[0] && t' != t ensures PscFiles(data, n, pr)[t'].name != PscFiles(data, n, pr)[t].name {
      if PscName(t') == PscName(t) {
        PscNamesDistinct(t', t);
      }
    }
  }

  // ---------------------------------------------------------------------
  // main

  /** The command-line options `main` reads. */
  datatype Options = Options(
    baseline: BaselineMode,
    baselineN: int,
    pscRange: real,
    cropCenter: bool,
    downsample: int,
    tr: Option<real>,
    noPsc: bool)

  /** `manifest.json`; `dims` is (x, y, z). */
  datatype Manifest = Manifest(
    dims: seq<nat>,
    voxelSizeMm: seq<real>,
    timepoints: nat,
    trSeconds: real,
    format: string,
    byteOrder: string,
    anatomyFile: string,
    anatomyDesc: string,
    pscEnabled: bool,
    pscRange: real,
    pscFrames: seq<FrameEntry>,
    rawFramesIncluded: bool,
    cropinfo: CropInfo)

  /** Everything `main` writes into the output folder. */
  datatype Output = Output(anatomy: VolFile, psc: seq<VolFile>, manifest: Manifest)

  const AnatomyName: string := "anatomy_mean.vol"

  /** The dataset with time moved to the front and the spatial axes strided. */
  function Oriented(ds: Dataset, downsample: int): (r: Array4<real>)
    requires ds.WellFormed() && Eligible(ds)
    ensures r.Valid() && r.shape[0] == ds.shape[TimeAxis(ds.shape)]
  {
    var data := TimeFirst(ds.AsArray());
    assert data.shape == PermuteShape(ds.shape, MoveToFront(TimeAxis(ds.shape)));
    StrideFrames(data, downsample)
  }

  /** Moving axes and striding never empties an axis nor fills an empty one. */
  lemma OrientedEmpty(ds: Dataset, downsample: int)
    requires ds.WellFormed() && Eligible(ds)
    ensures 0 in Oriented(ds, downsample).shape <==> 0 in ds.shape
  {
    var a := ds.AsArray();
    var p := MoveToFront(TimeAxis(ds.shape));
    var data := TimeFirst(a);
    assert data.shape == PermuteShape(ds.shape, p);
    assert 0 in data.shape <==> 0 in ds.shape by {
      if 0 in ds.shape {
        var m :| 0 <= m < 4 && ds.shape[m] == 0;
        var k := Inv(p, m);
        assert data.shape[k] == 0;
      }
      if 0 in data.shape {
        var k :| 0 <= k < 4 && data.shape[k] == 0;
        assert ds.shape[p[k]] == 0;
      }
    }
    if downsample > 1 {
      var r := Oriented(ds, downsample);
      forall k | 1 <= k < 4 ensures r.shape[k] == 0 <==> data.shape[k] == 0 {
        CeilDivZero(data.shape[k], downsample);
      }
      assert 0 in r.shape <==> 0 in data.shape by {
        if 0 in r.shape {
          var k :| 0 <= k < 4 && r.shape[k] == 0;
          assert data.shape[k] == 0;
        }
        if 0 in data.shape {
          var k :| 0 <= k < 4 && data.shape[k] == 0;
          assert r.shape[k] == 0;
        }
      }
    }
  }

  lemma CeilDivZero(d: nat, f: nat)
    requires f > 0
    ensures CeilDiv(d, f) == 0 <==> d == 0
  {
    CeilDivExact(d, f, 0);
  }

  /**
   * `data_norm` after the optional crop, with the crop record. No window
   * exists for an array with an empty axis (`np.percentile` of nothing
   * fails); otherwise every value lies in [0, 1], there is at least one
   * frame, and cropping changes neither the frames nor, when off, the shape.
   */
  function Staged(ds: Dataset, opts: Options, percentile: (Array4<real>, real) -> real): (r: Result<Cropping>)
    requires ds.WellFormed() && Eligible(ds)
    ensures r.Err? <==> 0 in ds.shape
    ensures r.Ok? ==> var vol := r.value.vol;
      && vol.Valid() && UnitRange(vol)
      && vol.shape[0] == ds.shape[TimeAxis(ds.shape)] > 0
    ensures r.Ok? && !opts.cropCenter ==> r.value.info == NotCropped && r.value.vol.shape == Oriented(ds, opts.downsample).shape
    ensures r.Ok? && r.value.info.Cropped? ==> opts.cropCenter && r.value.info.pad == 2
  {
    var data := Oriented(ds, opts.downsample);
    OrientedEmpty(ds, opts.downsample);
    if 0 in data.shape then Err("percentile of an empty array")
    else
      var w := PercentileWindow(data, percentile);
      var norm := NormalizeUnit(data, w.0, w.1);
      if opts.cropCenter then
        CropKeepsUnitRange(norm, 0.05);
        Ok(CropAndCenter(norm, 0.05))
      else Ok(Cropping(norm, NotCropped))
  }

  /**
   * Without an empty axis, the staged data is the oriented data mapped
   * through its percentile window, then cropped and centred when asked.
   */
  lemma StagedStages(ds: Dataset, opts: Options, percentile: (Array4<real>, real) -> real)
    requires ds.WellFormed() && Eligible(ds) && 0 !in ds.shape
    ensures var data := Oriented(ds, opts.downsample);
      var w := PercentileWindow(data, percentile);
      var norm := NormalizeUnit(data, w.0, w.1);
      && Staged(ds, opts, percentile).Ok?
      && (opts.cropCenter ==> Staged(ds, opts, percentile).value == CropAndCenter(norm, 0.05))
      && (!opts.cropCenter ==> Staged(ds, opts, percentile).value == Cropping(norm, NotCropped))
  {
    OrientedEmpty(ds, opts.downsample);
  }

  /**
   * The manifest describes the files beside it: the anatomy under its
   * listed name, one PSC frame per time point exactly when PSC is on, each
   * listed in order with its index, every file X * Y * Z bytes long and
   * every name different.
   */
  predicate Describes(out: Output) {
    var m := out.manifest;
    && |m.dims| == 3
    && m.voxelSizeMm == [1.0, 1.0, 1.0]
    && m.format == "R8" && m.byteOrder == "x_fastest" && !m.rawFramesIncluded
    && out.anatomy.name == m.anatomyFile == AnatomyName
    && |out.anatomy.bytes| == m.dims[0] * m.dims[1] * m.dims[2]
    && (m.pscEnabled ==> |out.psc| == m.timepoints)
    && (!m.pscEnabled ==> out.psc == [])
    && |m.pscFrames| == |out.psc|
    && (forall t :: 0 <= t < |out.psc| ==>
          && m.pscFrames[t] == FrameEntry(out.psc[t].name, t)
          && |out.psc[t].bytes| == m.dims[0] * m.dims[1] * m.dims[2]
          && out.psc[t].name != AnatomyName)
    && (forall i, j :: 0 <= i < j < |out.psc| ==> out.psc[i].name != out.psc[j].name)
  }

  /** The files and the manifest for the staged data. */
  function OutputOf(c: Cropping, tr: real, opts: Options): (out: Output)
    requires c.vol.Valid() && UnitRange(c.vol) && c.vol.shape[0] > 0
    requires opts.noPsc || opts.pscRange != 0.0
    ensures Describes(out)
    ensures out.manifest.dims == c.vol.shape[1..] && out.manifest.timepoints == c.vol.shape[0]
    ensures out.manifest.trSeconds == tr && out.manifest.cropinfo == c.info
    ensures out.manifest.pscEnabled == !opts.noPsc && out.manifest.pscRange == opts.pscRange
    ensures out.anatomy.bytes == ToFileBytes(AnatomyVolume(c.vol))
    ensures opts.noPsc ==> out.psc == []
    ensures !opts.noPsc ==> out.psc == PscFiles(c.vol, BaselineCount(opts.baseline, opts.baselineN, c.vol.shape[0]), opts.pscRange)
  {
    var vol := c.vol;
    var T := vol.shape[0];
    var anatomy := VolFile(AnatomyName, ToFileBytes(AnatomyVolume(vol)));
    var n := BaselineCount(opts.baseline, opts.baselineN, T);
    var files := if opts.noPsc then [] else PscFiles(vol, n, opts.pscRange);
    var entries := if opts.noPsc then [] else PscEntries(T);
    var m := Manifest(vol.shape[1..], [1.0, 1.0, 1.0], T, tr, "R8", "x_fastest", AnatomyName,
                      "time-mean of normalized BOLD [0..255]", !opts.noPsc, opts.pscRange, entries, false, c.info);
    var out := Output(anatomy, files, m);
    if opts.noPsc then out
    else
      PscFilesDescribed(vol, n, opts.pscRange);
      out
  }

  /** The PSC files bear distinct names, none of them the anatomy's, and X * Y * Z bytes each. */
  lemma PscFilesDescribed(vol: Array4<real>, n: nat, pr: real)
    requires vol.Valid() && UnitRange(vol) && 0 < n <= vol.shape[0] && pr != 0.0
    ensures var files := PscFiles(vol, n, pr);
      && (forall t :: 0 <= t < |files| ==>
            |files[t].bytes| == vol.shape[1] * vol.shape[2] * vol.shape[3] && files[t].name != AnatomyName)
      && (forall i, j :: 0 <= i < j < |files| ==> files[i].name != files[j].name)
  {
    var files := PscFiles(vol, n, pr);
    forall t | 0 <= t < |files|
      ensures |files[t].bytes| == vol.shape[1] * vol.shape[2] * vol.shape[3] && files[t].name != AnatomyName
    {
      PscFileSize(vol, n, pr, t);
      PscNameNotAnatomy(t);
    }
    forall i, j | 0 <= i < j < |files| ensures files[i].name != files[j].name {
      if files[i].name == files[j].name {
        PscNamesDistinct(i, j);
      }
    }
  }

  lemma PscFileSize(vol: Array4<real>, n: nat, pr: real, t: nat)
    requires vol.Valid() && UnitRange(vol) && 0 < n <= vol.shape[0] && pr != 0.0 && t < vol.shape[0]
    ensures |ToFileBytes(PscVolume(vol, n, pr, t))| == vol.shape[1] * vol.shape[2] * vol.shape[3]
  {
    var frame := PscVolume(vol, n, pr, t);
    assert frame.shape == vol.shape[1..];
  }

  lemma PscNameNotAnatomy(t: nat)
    ensures PscName(t) != AnatomyName
  {
    assert PscName(t)[0] == 'p' != AnatomyName[0];
  }

  /**
   * What `main` writes for the chosen dataset and the file's attributes:
   * nothing when the data has an empty axis, otherwise the outputs of the
   * staged data, described by their manifest.
   */
  function Converted(ds: Dataset, fileAttrs: seq<Attr>, opts: Options,
                     percentile: (Array4<real>, real) -> real): (r: Result<Output>)
    requires ds.WellFormed() && Eligible(ds)
    requires opts.noPsc || opts.pscRange != 0.0
    ensures r.Err? <==> 0 in ds.shape
    ensures r.Ok? ==> Describes(r.value)
    ensures r.Ok? ==> r.value == OutputOf(Staged(ds, opts, percentile).value, TrOf(opts.tr, ds.attrs, fileAttrs), opts)
  {
    match Staged(ds, opts, percentile)
    case Err(e) => Err(e)
    case Ok(c) => Ok(OutputOf(c, TrOf(opts.tr, ds.attrs, fileAttrs), opts))
  }

  /**
   * The anatomy file holds the bytes of the time-mean and PSC file t the
   * bytes of frame t's change, all of the listed (x, y, z) dimensions, in
   * C order (z fastest). (Converted's output is OutputOf of the staged data.)
   */
  lemma OutputReadsBack(c: Cropping, tr: real, opts: Options)
    requires c.vol.Valid() && UnitRange(c.vol) && c.vol.shape[0] > 0
    requires opts.noPsc || opts.pscRange != 0.0
    ensures var out, vol := OutputOf(c, tr, opts), c.vol;
      && out.manifest.dims == AnatomyVolume(vol).shape
      && HoldsCOrder(out.anatomy.bytes, AnatomyVolume(vol))
      && (!opts.noPsc ==> forall t :: 0 <= t < |out.psc| ==>
            HoldsCOrder(out.psc[t].bytes, PscVolume(vol, BaselineCount(opts.baseline, opts.baselineN, vol.shape[0]), opts.pscRange, t)))
  {
    var vol := c.vol;
    if !opts.noPsc {
      var n := BaselineCount(opts.baseline, opts.baselineN, vol.shape[0]);
      forall t | 0 <= t < vol.shape[0]
        ensures HoldsCOrder(PscFiles(vol, n, opts.pscRange)[t].bytes, PscVolume(vol, n, opts.pscRange, t))
      {
        PscFramesListed(vol, n, opts.pscRange, t);
      }
    }
  }

  /**
   * The discrepancy in `main`'s output: when the cropped volume has at least
   * two voxels along x and along z, a reader of the manifest's
   * `"x_fastest"` takes the anatomy's voxel (1, 0, 0) from the byte that
   * holds its voxel (0, 0, 1).
   */
  lemma AnatomyFileMisread(c: Cropping, tr: real, opts: Options)
    requires c.vol.Valid() && UnitRange(c.vol) && c.vol.shape[0] > 0
    requires opts.noPsc || opts.pscRange != 0.0
    requires c.vol.shape[1] >= 2 && c.vol.shape[2] >= 1 && c.vol.shape[3] >= 2
    ensures var out := OutputOf(c, tr, opts); var d := out.manifest.dims;
      XFastestVoxel(out.anatomy.bytes, d[0], d[1], d[2], 1, 0, 0) == AnatomyVolume(c.vol).cells[0][0][1]
  {
    WrittenVolumeIsNotXFastest(AnatomyVolume(c.vol));
  }

  /**
   * `main` on an opened file: the dataset `find_4d_dataset` picks (none
   * when no dataset is a numeric 4-D one, and then nothing is written),
   * converted with the file's attributes as the second place to look for
   * the repetition time.
   */
  method ConvertFile(file: File, opts: Options, percentile: (Array4<real>, real) -> real)
    returns (chosen: Option<Dataset>, r: Result<Output>)
    requires file.WellFormed()
    requires opts.noPsc || opts.pscRange != 0.0
    ensures chosen.None? <==> forall d :: d in file.datasets ==> !Eligible(d)
    ensures chosen.Some? ==> chosen.value in file.datasets && Eligible(chosen.value)
    ensures chosen.Some? ==> forall d :: d in file.datasets && Eligible(d) ==> d.Size() <= chosen.value.Size()
    ensures chosen.Some? ==> exists k :: (0 <= k < |file.datasets| && file.datasets[k] == chosen.value &&
      forall j :: 0 <= j < k && Eligible(file.datasets[j]) ==> file.datasets[j].Size() < chosen.value.Size())
    ensures chosen.None? ==> r.Err?
    ensures chosen.Some? ==> r == Converted(chosen.value, file.attrs, opts, percentile)
  {
    var found := FindLargest4d(file.datasets);
    if found.Err? {
      return None, Err(found.message);
    }
    chosen := Some(found.value);
    r := ConvertDataset(found.value, file.attrs, opts, percentile);
  }

  /** The part of `main` after the dataset is chosen, with its loops. */
  method ConvertDataset(ds: Dataset, fileAttrs: seq<Attr>, opts: Options,
                        percentile: (Array4<real>, real) -> real) returns (r: Result<Output>)
    requires ds.WellFormed() && Eligible(ds)
    requires opts.noPsc || opts.pscRange != 0.0
    ensures r == Converted(ds, fileAttrs, opts, percentile)
  {
    var staged := StageDataset(ds, opts, percentile);
    var tr := LookupTr(opts.tr, ds.attrs, fileAttrs);
    if staged.Err? {
      return Err(staged.message);
    }
    var out := WriteOutputs(staged.value, tr, opts);
    r := Ok(out);
  }

  /** Reorienting, striding, the window, the normalization and the optional crop. */
  method StageDataset(ds: Dataset, opts: Options, percentile: (Array4<real>, real) -> real) returns (r: Result<Cropping>)
    requires ds.WellFormed() && Eligible(ds)
    ensures r == Staged(ds, opts, percentile)
  {
    var data := TimeFirst(ds.AsArray());
    if opts.downsample > 1 {
      data := StrideFrames(data, opts.downsample);
    }
    assert data == Oriented(ds, opts.downsample);
    OrientedEmpty(ds, opts.downsample);
    if 0 in data.shape {
      return Err("percentile of an empty array");
    }
    var w := PercentileWindow(data, percentile);
    var norm := NormalizeUnit(data, w.0, w.1);
    var c := Cropping(norm, NotCropped);
    if opts.cropCenter {
      CropKeepsUnitRange(norm, 0.05);
      c := CropAndCenter(norm, 0.05);
    }
    r := Ok(c);
  }

  /** The anatomy file, the PSC loop and the manifest. */
  method WriteOutputs(c: Cropping, tr: real, opts: Options) returns (out: Output)
    requires c.vol.Valid() && UnitRange(c.vol) && c.vol.shape[0] > 0
    requires opts.noPsc || opts.pscRange != 0.0
    ensures out == OutputOf(c, tr, opts)
  {
    var T := c.vol.shape[0];
    var anatomy := VolFile(AnatomyName, ToFileBytes(AnatomyVolume(c.vol)));
    var files: seq<VolFile> := [];
    var entries: seq<FrameEntry> := [];
    if !opts.noPsc {
      var n := BaselineCount(opts.baseline, opts.baselineN, T);
      files, entries := WritePscFrames(c.vol, n, opts.pscRange);
    }
    var m := Manifest(c.vol.shape[1..], [1.0, 1.0, 1.0], T, tr, "R8", "x_fastest", AnatomyName,
                      "time-mean of normalized BOLD [0..255]", !opts.noPsc, opts.pscRange, entries, false, c.info);
    out := Output(anatomy, files, m);
  }
}
