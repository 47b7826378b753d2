/**
 * The HDF5-to-MetaImage exporter: it picks the 4-D dataset, moves the time
 * axis to the front and the smallest spatial extent next (as Z), optionally
 * downsamples each frame, maps intensities to bytes (percent signal change
 * against the mean of the first N frames, or a percentile window), and
 * writes every frame as a `.raw` buffer with a `.mhd` header.
 */
module ExportMhd {
  import opened Base
  import opened Tensor
  import opened Text
  import opened Hdf5
  import opened Intensity

  // ---------------------------------------------------------------------
  // Choosing the dataset

  /** The name, lowercased, contains "bold", "timeseries" or "data". */
  predicate Preferred(name: string) {
    var n := Lower(name);
    IsInfix("bold", n) || IsInfix("timeseries", n) || IsInfix("data", n)
  }

  /** a sorts strictly before b under the ranking key (not preferred, minus the element count). */
  predicate RanksBefore(a: Dataset, b: Dataset) {
    || (Preferred(a.name) && !Preferred(b.name))
    || (Preferred(a.name) == Preferred(b.name) && a.Size() > b.Size())
  }

  /** The 4-D datasets, in visiting order. */
  function Candidates(visited: seq<Dataset>): (r: seq<Dataset>)
    ensures forall d :: d in r <==> d in visited && |d.shape| == 4
  {
    if visited == [] then []
    else
      var last := visited[|visited| - 1];
      assert visited == visited[..|visited| - 1] + [last];
      Candidates(visited[..|visited| - 1]) + (if |last.shape| == 4 then [last] else [])
  }

  /**
   * `find_4d_dataset`: collect the 4-D datasets, then take the first of a
   * stable sort by the ranking key, that is the first candidate that no
   * candidate ranks before. Fails when no dataset has rank 4.
   */
  method Find4dDataset(visited: seq<Dataset>) returns (r: Result<Dataset>)
    ensures r.Err? <==> forall d :: d in visited ==> |d.shape| != 4
    ensures r.Ok? ==> r.value in visited && |r.value.shape| == 4
    ensures r.Ok? ==> forall d :: d in visited && |d.shape| == 4 ==> !RanksBefore(d, r.value)
    ensures r.Ok? ==> exists k :: (0 <= k < |Candidates(visited)| && Candidates(visited)[k] == r.value &&
      forall j :: 0 <= j < k ==> RanksBefore(r.value, Candidates(visited)[j]))
    ensures r.Ok? && (exists d :: d in visited && |d.shape| == 4 && Preferred(d.name)) ==> Preferred(r.value.name)
  {
    var candidates := CollectCandidates(visited);
    if candidates == [] {
      return Err("No 4D dataset found in HDF5 file.");
    }
    var best := FirstRanked(candidates);
    r := Ok(candidates[best]);
    assert forall d :: d in candidates ==> !RanksBefore(d, candidates[best]);
  }

  /** The visitor callback's appends. */
  method CollectCandidates(visited: seq<Dataset>) returns (candidates: seq<Dataset>)
    ensures candidates == Candidates(visited)
  {
    candidates := [];
    for i := 0 to |visited|
      invariant candidates == Candidates(visited[..i])
    {
      assert visited[..i + 1][..i] == visited[..i];
      if |visited[i].shape| == 4 {
        candidates := candidates + [visited[i]];
      }
    }
    assert visited[..|visited|] == visited;
  }

  /** `sorted(candidates, key=...)[0]`: the first candidate that none ranks before. */
  method FirstRanked(candidates: seq<Dataset>) returns (best: nat)
    requires candidates != []
    ensures best < |candidates|
    ensures forall j :: 0 <= j < |candidates| ==> !RanksBefore(candidates[j], candidates[best])
    ensures forall j :: 0 <= j < best ==> RanksBefore(candidates[best], candidates[j])
  {
    best := 0;
    for i := 1 to |candidates|
      invariant best < i
      invariant forall j :: 0 <= j < i ==> !RanksBefore(candidates[j], candidates[best])
      invariant forall j :: 0 <= j < best ==> RanksBefore(candidates[best], candidates[j])
    {
      if RanksBefore(candidates[i], candidates[best]) {
        forall j | 0 <= j < i
          ensures RanksBefore(candidates[i], candidates[j]) && !RanksBefore(candidates[j], candidates[i])
        {
          RanksBeforeStep(candidates[i], candidates[best], candidates[j]);
        }
        best := i;
      }
    }
  }

  /** The ranking is a strict weak order: whatever b does not rank after, a still ranks before. */
  lemma RanksBeforeStep(a: Dataset, b: Dataset, c: Dataset)
    requires RanksBefore(a, b) && !RanksBefore(c, b)
    ensures RanksBefore(a, c) && !RanksBefore(c, a)
  {
  }

  /**
   * A path inside the file relative to its root: HDF5 reads leading slashes
   * as the root group, and `visititems` gives names without them.
   */
  function RootRelative(path: string): (r: string)
    ensures |r| <= |path| && r == path[|path| - |r|..]
    ensures r == [] || r[0] != '/'
    ensures forall i :: 0 <= i < |path| - |r| ==> path[i] == '/'
  {
    if path != [] && path[0] == '/' then RootRelative(path[1..]) else path
  }

  /**
   * `h[name]` among the datasets: the one whose visited name is `name`
   * with its leading slashes dropped, if any.
   */
  function Lookup(visited: seq<Dataset>, name: string): (r: Option<Dataset>)
    ensures r.Some? <==> exists d :: d in visited && d.name == RootRelative(name)
    ensures r.Some? ==> r.value in visited && r.value.name == RootRelative(name)
  {
    FindNamed(visited, RootRelative(name))
  }

  /** The first of the datasets with exactly this name, if any. */
  function FindNamed(visited: seq<Dataset>, name: string): (r: Option<Dataset>)
    ensures r.Some? <==> exists d :: d in visited && d.name == name
    ensures r.Some? ==> r.value in visited && r.value.name == name
  {
    if visited == [] then None
    else if visited[0].name == name then Some(visited[0])
    else
      assert forall d :: d in visited[1..] ==> d in visited;
      assert forall d :: d in visited && d != visited[0] ==> d in visited[1..];
      FindNamed(visited[1..], name)
  }

  /** `--dataset /fmri_data` and `--dataset fmri_data` name the same dataset. */
  lemma AbsoluteNameSame(visited: seq<Dataset>, name: string)
    ensures Lookup(visited, "/" + name) == Lookup(visited, name)
  {
    assert ("/" + name)[1..] == name;
  }

  // ---------------------------------------------------------------------
  // block_reduce_mean

  /** The sum of row[lo .. lo + n). */
  function RowSum(row: seq<real>, lo: nat, n: nat): real
    requires lo + n <= |row|
  {
    if n == 0 then 0.0 else RowSum(row, lo, n - 1) + row[lo + n - 1]
  }

  /** The sum over rows [lo1, lo1 + n1) and columns [lo2, lo2 + n2) of a plane whose rows have length d2. */
  function PlaneSum(plane: seq<seq<real>>, d2: nat, lo1: nat, n1: nat, lo2: nat, n2: nat): real
    requires lo1 + n1 <= |plane| && lo2 + n2 <= d2
    requires forall j :: 0 <= j < |plane| ==> |plane[j]| == d2
  {
    if n1 == 0 then 0.0
    else PlaneSum(plane, d2, lo1, n1 - 1, lo2, n2) + RowSum(plane[lo1 + n1 - 1], lo2, n2)
  }

  /** The sum of the n x f x f box of vol whose first corner is (lo0, lo1, lo2). */
  function BoxSum(vol: Arr3<real>, d0: nat, d1: nat, d2: nat, lo0: nat, lo1: nat, lo2: nat, n: nat, f: nat): real
    requires HasShape3(vol, d0, d1, d2) && lo0 + n <= d0 && lo1 + f <= d1 && lo2 + f <= d2
  {
    if n == 0 then 0.0
    else BoxSum(vol, d0, d1, d2, lo0, lo1, lo2, n - 1, f) + PlaneSum(vol[lo0 + n - 1], d2, lo1, f, lo2, f)
  }

  /** Block i of length f lies inside an axis of extent d. */
  predicate BlockFits(d: nat, f: nat, i: nat) {
    i * f + f <= d
  }

  predicate Divisible(s: seq<nat>, f: nat)
    requires |s| == 3 && f > 0
  {
    s[0] % f == 0 && s[1] % f == 0 && s[2] % f == 0
  }

  /** The mean of the f x f x f block (i, j, k). */
  function BlockMean(vol: Arr3<real>, d0: nat, d1: nat, d2: nat, i: nat, j: nat, k: nat, f: nat): real
    requires f > 0 && HasShape3(vol, d0, d1, d2)
    requires BlockFits(d0, f, i) && BlockFits(d1, f, j) && BlockFits(d2, f, k)
  {
    BoxMean(vol, d0, d1, d2, i * f, j * f, k * f, f)
  }

  /** The mean of the f x f x f box whose first corner is (lo0, lo1, lo2). */
  function BoxMean(vol: Arr3<real>, d0: nat, d1: nat, d2: nat, lo0: nat, lo1: nat, lo2: nat, f: nat): real
    requires f > 0 && HasShape3(vol, d0, d1, d2) && lo0 + f <= d0 && lo1 + f <= d1 && lo2 + f <= d2
  {
    CubePositive(f);
    BoxSum(vol, d0, d1, d2, lo0, lo1, lo2, f, f) / ((f * f * f) as real)
  }

  lemma CubePositive(f: nat)
    requires f > 0
    ensures f * f * f > 0
  {
    assert f * f > 0;
  }

  /** On an axis that f divides, every block below d / f fits, and d / f is ceil(d / f). */
  lemma BlocksFit(d: nat, f: nat)
    requires f > 0 && d % f == 0
    ensures d / f == CeilDiv(d, f)
    ensures forall i :: 0 <= i < d / f ==> BlockFits(d, f, i)
  {
    var q := d / f;
    assert d == q * f;
    assert d + f - 1 == q * f + (f - 1);
    var q' := (d + f - 1) / f;
    var r' := (d + f - 1) % f;
    assert d + f - 1 == q' * f + r';
    MixedRadixUnique(q, f - 1, q', r', f);
    forall i | 0 <= i < q ensures BlockFits(d, f, i) {
      assert i + 1 <= q;
      assert (i + 1) * f <= q * f;
    }
  }

  /** Every block index below the reduced extents fits in the volume. */
  predicate BlocksFit3(s: seq<nat>, f: nat, reduced: seq<nat>)
    requires |s| == 3 && |reduced| == 3
  {
    && (forall i :: 0 <= i < reduced[0] ==> BlockFits(s[0], f, i))
    && (forall j :: 0 <= j < reduced[1] ==> BlockFits(s[1], f, j))
    && (forall k :: 0 <= k < reduced[2] ==> BlockFits(s[2], f, k))
  }

  /** Mean pooling over f x f x f blocks, for extents f divides. */
  function BlockMeans(vol: Array3<real>, f: nat): (r: Array3<real>)
    requires vol.Valid() && f > 0 && Divisible(vol.shape, f)
    ensures r.Valid()
    ensures r.shape == [CeilDiv(vol.shape[0], f), CeilDiv(vol.shape[1], f), CeilDiv(vol.shape[2], f)]
    ensures BlocksFit3(vol.shape, f, r.shape)
    ensures forall i, j, k :: 0 <= i < r.shape[0] && 0 <= j < r.shape[1] && 0 <= k < r.shape[2] ==>
      r.cells[i][j][k] == BlockMean(vol.cells, vol.shape[0], vol.shape[1], vol.shape[2], i, j, k, f)
  {
    var d0, d1, d2 := vol.shape[0], vol.shape[1], vol.shape[2];
    BlocksFit(d0, f);
    BlocksFit(d1, f);
    BlocksFit(d2, f);
    Array3([d0 / f, d1 / f, d2 / f],
      seq(d0 / f, i requires 0 <= i < d0 / f =>
        seq(d1 / f, j requires 0 <= j < d1 / f =>
          seq(d2 / f, k requires 0 <= k < d2 / f =>
            BlockMean(vol.cells, d0, d1, d2, i, j, k, f)))))
  }

  /**
   * `block_reduce_mean` of a (Z, Y, X) volume: unchanged for a factor of at
   * most 1; the mean of each f x f x f block when f divides every extent;
   * otherwise every f-th voxel on each axis. The last two give the same
   * shape, ceil(d / f) on every axis.
   */
  function BlockReduceMean(vol: Array3<real>, factor: int): (r: Array3<real>)
    requires vol.Valid()
    ensures r.Valid()
    ensures factor <= 1 ==> r == vol
    ensures factor > 1 ==>
      r.shape == [CeilDiv(vol.shape[0], factor), CeilDiv(vol.shape[1], factor), CeilDiv(vol.shape[2], factor)]
    ensures factor > 1 && Divisible(vol.shape, factor) ==> BlocksFit3(vol.shape, factor, r.shape)
    ensures factor > 1 && Divisible(vol.shape, factor) ==>
      forall i, j, k :: 0 <= i < r.shape[0] && 0 <= j < r.shape[1] && 0 <= k < r.shape[2] ==>
        r.cells[i][j][k] == BlockMean(vol.cells, vol.shape[0], vol.shape[1], vol.shape[2], i, j, k, factor)
    ensures factor > 1 && !Divisible(vol.shape, factor) ==> StridesFit3(vol.shape[0], vol.shape[1], vol.shape[2], factor)
    ensures factor > 1 && !Divisible(vol.shape, factor) ==>
      forall i, j, k :: 0 <= i < r.shape[0] && 0 <= j < r.shape[1] && 0 <= k < r.shape[2] ==>
        StrideHits(vol.shape[0], factor, i) && StrideHits(vol.shape[1], factor, j) && StrideHits(vol.shape[2], factor, k) &&
        r.cells[i][j][k] == vol.cells[i * factor][j * factor][k * factor]
  {
    if factor <= 1 then vol
    else if Divisible(vol.shape, factor) then BlockMeans(vol, factor)
    else StrideDown(vol, factor)
  }

  /** `vol[::f, ::f, ::f]`. */
  function StrideDown(vol: Array3<real>, f: nat): (r: Array3<real>)
    requires vol.Valid() && f > 0
    ensures r.Valid()
    ensures r.shape == [CeilDiv(vol.shape[0], f), CeilDiv(vol.shape[1], f), CeilDiv(vol.shape[2], f)]
    ensures StridesFit3(vol.shape[0], vol.shape[1], vol.shape[2], f)
    ensures forall i, j, k :: 0 <= i < r.shape[0] && 0 <= j < r.shape[1] && 0 <= k < r.shape[2] ==>
      StrideHits(vol.shape[0], f, i) && StrideHits(vol.shape[1], f, j) && StrideHits(vol.shape[2], f, k) &&
      r.cells[i][j][k] == vol.cells[i * f][j * f][k * f]
  {
    var d0, d1, d2 := vol.shape[0], vol.shape[1], vol.shape[2];
    Array3([CeilDiv(d0, f), CeilDiv(d1, f), CeilDiv(d2, f)], Stride3(vol.cells, d0, d1, d2, f))
  }

  /** Every voxel of vol lies in [a, b]. */
  predicate InRange3(vol: Array3<real>, a: real, b: real)
    requires vol.Valid()
  {
    forall i, j, k :: 0 <= i < vol.shape[0] && 0 <= j < vol.shape[1] && 0 <= k < vol.shape[2] ==>
      a <= vol.cells[i][j][k] <= b
  }

  /** s is a sum of cnt values in [a, b] as far as its bounds go: cnt * a <= s <= cnt * b. */
  predicate SumIn(s: real, cnt: nat, a: real, b: real) {
    (cnt as real) * a <= s <= (cnt as real) * b
  }

  lemma {:induction false} RowSumBounds(row: seq<real>, lo: nat, n: nat, a: real, b: real)
    requires lo + n <= |row| && forall k :: lo <= k < lo + n ==> a <= row[k] <= b
    ensures SumIn(RowSum(row, lo, n), n, a, b)
  {
    if n > 0 {
      RowSumBounds(row, lo, n - 1, a, b);
      AddBounds(RowSum(row, lo, n - 1), row[lo + n - 1], n - 1, 1, a, b);
    }
  }

  lemma {:induction false} PlaneSumBounds(plane: seq<seq<real>>, d2: nat, lo1: nat, n1: nat, lo2: nat, n2: nat, a: real, b: real)
    requires lo1 + n1 <= |plane| && lo2 + n2 <= d2
    requires forall j :: 0 <= j < |plane| ==> |plane[j]| == d2
    requires forall j, k :: lo1 <= j < lo1 + n1 && lo2 <= k < lo2 + n2 ==> a <= plane[j][k] <= b
    ensures SumIn(PlaneSum(plane, d2, lo1, n1, lo2, n2), n1 * n2, a, b)
  {
    if n1 > 0 {
      var m := (n1 - 1) * n2;
      PlaneSumBounds(plane, d2, lo1, n1 - 1, lo2, n2, a, b);
      RowSumBounds(plane[lo1 + n1 - 1], lo2, n2, a, b);
      AddBounds(PlaneSum(plane, d2, lo1, n1 - 1, lo2, n2), RowSum(plane[lo1 + n1 - 1], lo2, n2), m, n2, a, b);
      assert m + n2 == n1 * n2;
    }
  }

  /** Sums of m and of n values in [a, b] add up to a sum of m + n values in [a, b]. */
  lemma AddBounds(s: real, t: real, m: nat, n: nat, a: real, b: real)
    requires SumIn(s, m, a, b) && SumIn(t, n, a, b)
    ensures SumIn(s + t, m + n, a, b)
  {
    ScaledSplit(m, n, a);
    ScaledSplit(m, n, b);
  }

  lemma ScaledSplit(m: nat, n: nat, a: real)
    ensures ((m + n) as real) * a == (m as real) * a + (n as real) * a
  {
  }

  lemma {:induction false} BoxSumBounds(vol: Arr3<real>, d0: nat, d1: nat, d2: nat, lo0: nat, lo1: nat, lo2: nat, n: nat, f: nat, a: real, b: real)
    requires HasShape3(vol, d0, d1, d2) && lo0 + n <= d0 && lo1 + f <= d1 && lo2 + f <= d2
    requires forall i, j, k :: lo0 <= i < lo0 + n && lo1 <= j < lo1 + f && lo2 <= k < lo2 + f ==> a <= vol[i][j][k] <= b
    ensures SumIn(BoxSum(vol, d0, d1, d2, lo0, lo1, lo2, n, f), n * (f * f), a, b)
  {
    if n > 0 {
      var m, sq := (n - 1) * (f * f), f * f;
      BoxSumBounds(vol, d0, d1, d2, lo0, lo1, lo2, n - 1, f, a, b);
      PlaneSumBounds(vol[lo0 + n - 1], d2, lo1, f, lo2, f, a, b);
      AddBounds(BoxSum(vol, d0, d1, d2, lo0, lo1, lo2, n - 1, f), PlaneSum(vol[lo0 + n - 1], d2, lo1, f, lo2, f), m, sq, a, b);
      assert m + sq == n * sq;
    }
  }

  lemma MeanBounds(s: real, m: nat, a: real, b: real)
    requires m > 0 && SumIn(s, m, a, b)
    ensures a <= s / (m as real) <= b
  {
    var q := s / (m as real);
    assert q * (m as real) == s;
  }

  /** A block mean lies between the smallest and the largest voxel of the volume. */
  lemma BlockMeanBounds(vol: Array3<real>, i: nat, j: nat, k: nat, f: nat, a: real, b: real)
    requires vol.Valid() && f > 0 && InRange3(vol, a, b)
    requires BlockFits(vol.shape[0], f, i) && BlockFits(vol.shape[1], f, j) && BlockFits(vol.shape[2], f, k)
    ensures a <= BlockMean(vol.cells, vol.shape[0], vol.shape[1], vol.shape[2], i, j, k, f) <= b
  {
    BoxMeanBounds(vol, i * f, j * f, k * f, f, a, b);
  }

  lemma BoxMeanBounds(vol: Array3<real>, lo0: nat, lo1: nat, lo2: nat, f: nat, a: real, b: real)
    requires vol.Valid() && f > 0 && InRange3(vol, a, b)
    requires lo0 + f <= vol.shape[0] && lo1 + f <= vol.shape[1] && lo2 + f <= vol.shape[2]
    ensures a <= BoxMean(vol.cells, vol.shape[0], vol.shape[1], vol.shape[2], lo0, lo1, lo2, f) <= b
  {
    var d0, d1, d2 := vol.shape[0], vol.shape[1], vol.shape[2];
    forall i', j', k' | lo0 <= i' < lo0 + f && lo1 <= j' < lo1 + f && lo2 <= k' < lo2 + f
      ensures a <= vol.cells[i'][j'][k'] <= b
    {
      assert i' < d0 && j' < d1 && k' < d2;
    }
    BoxSumBounds(vol.cells, d0, d1, d2, lo0, lo1, lo2, f, f, a, b);
    var m := f * f * f;
    CubePositive(f);
    assert f * (f * f) == m;
    var sum := BoxSum(vol.cells, d0, d1, d2, lo0, lo1, lo2, f, f);
    MeanBounds(sum, m, a, b);
  }

  /** Downsampling, by either method, keeps every voxel inside the input's value range. */
  lemma ReduceStaysInRange(vol: Array3<real>, factor: int, a: real, b: real)
    requires vol.Valid() && InRange3(vol, a, b)
    ensures InRange3(BlockReduceMean(vol, factor), a, b)
  {
    var r := BlockReduceMean(vol, factor);
    if factor > 1 && Divisible(vol.shape, factor) {
      forall i, j, k | 0 <= i < r.shape[0] && 0 <= j < r.shape[1] && 0 <= k < r.shape[2]
        ensures a <= r.cells[i][j][k] <= b
      {
        BlockMeanBounds(vol, i, j, k, factor, a, b);
      }
    } else if factor > 1 {
      forall i, j, k | 0 <= i < r.shape[0] && 0 <= j < r.shape[1] && 0 <= k < r.shape[2]
        ensures a <= r.cells[i][j][k] <= b
      {
        assert StrideHits(vol.shape[0], factor, i) && StrideHits(vol.shape[1], factor, j) && StrideHits(vol.shape[2], factor, k);
      }
    }
  }

  /** A uniform volume stays uniform, with the same value. */
  lemma UniformStaysUniform(vol: Array3<real>, factor: int, v: real)
    requires vol.Valid()
    requires forall i, j, k :: 0 <= i < vol.shape[0] && 0 <= j < vol.shape[1] && 0 <= k < vol.shape[2] ==> vol.cells[i][j][k] == v
    ensures var r := BlockReduceMean(vol, factor);
      forall i, j, k :: 0 <= i < r.shape[0] && 0 <= j < r.shape[1] && 0 <= k < r.shape[2] ==> r.cells[i][j][k] == v
  {
    ReduceStaysInRange(vol, factor, v, v);
  }

  // ---------------------------------------------------------------------
  // Axis order: time first, then Z, Y, X

  /** `int(time_axis)` checked against 0..3. */
  function TimePerm(tAxis: int): (r: Result<seq<nat>>)
    ensures r.Err? <==> !(0 <= tAxis <= 3)
    ensures r.Ok? ==> IsPerm4(r.value) && r.value[0] == tAxis
    ensures r.Ok? ==> forall k, l :: 1 <= k < l < 4 ==> r.value[k] < r.value[l]
  {
    if tAxis < 0 || tAxis > 3 then Err("time_axis must be 0..3")
    else
      FrontPermIsPerm4(tAxis);
      Ok(FrontPerm(4, tAxis))
  }

  /** `np.argmin` of three extents: the first index of a smallest one. */
  function ArgMin3(s: seq<nat>): (k: nat)
    requires |s| == 3
    ensures k < 3 && forall j :: 0 <= j < 3 ==> s[k] <= s[j]
    ensures forall j :: 0 <= j < k ==> s[j] > s[k]
  {
    if s[0] <= s[1] && s[0] <= s[2] then 0 else if s[1] <= s[2] then 1 else 2
  }

  /**
   * `[0, 1 + order_map[0], 1 + order_map[1], 1 + order_map[2]]` with
   * `order_map = [z_idx] + the other two in order` (lemma ZyxPermIsOrderMap):
   * keep time first, bring spatial axis zIdx next, keep the other two in order.
   */
  function ZyxPerm(zIdx: nat): (p: seq<nat>)
    requires zIdx < 3
    ensures IsPerm4(p) && p[0] == 0 && p[1] == 1 + zIdx && p[2] < p[3]
  {
    if zIdx == 0 then [0, 1, 2, 3] else if zIdx == 1 then [0, 2, 1, 3] else [0, 3, 1, 2]
  }

  /** ZyxPerm is `[0] + [1 + o for o in order_map]`, for each of the three possible Z axes. */
  lemma ZyxPermIsOrderMap()
    ensures var om := FrontPerm(3, 0); ZyxPerm(0) == [0, 1 + om[0], 1 + om[1], 1 + om[2]]
    ensures var om := FrontPerm(3, 1); ZyxPerm(1) == [0, 1 + om[0], 1 + om[1], 1 + om[2]]
    ensures var om := FrontPerm(3, 2); ZyxPerm(2) == [0, 1 + om[0], 1 + om[1], 1 + om[2]]
  {
    ZyxPermAt0();
    ZyxPermAt1();
    ZyxPermAt2();
  }

  lemma ZyxPermAt0()
    ensures var om := FrontPerm(3, 0); ZyxPerm(0) == [0, 1 + om[0], 1 + om[1], 1 + om[2]]
  {
    OrderMap(0);
  }

  lemma ZyxPermAt1()
    ensures var om := FrontPerm(3, 1); ZyxPerm(1) == [0, 1 + om[0], 1 + om[1], 1 + om[2]]
  {
    OrderMap(1);
  }

  lemma ZyxPermAt2()
    ensures var om := FrontPerm(3, 2); ZyxPerm(2) == [0, 1 + om[0], 1 + om[1], 1 + om[2]]
  {
    OrderMap(2);
  }

  /** The three values of `order_map`. */
  lemma OrderMap(zIdx: nat)
    requires zIdx < 3
    ensures FrontPerm(3, zIdx) == if zIdx == 0 then [0, 1, 2] else if zIdx == 1 then [1, 0, 2] else [2, 0, 1]
  {
    var om := FrontPerm(3, zIdx);
    assert om[0] == zIdx;
    if zIdx == 0 {
      assert om[1] < om[2];
    } else if zIdx == 1 {
      assert om[1] < om[2];
    } else {
      assert om[1] < om[2];
    }
  }

  /** The spatial extents (A, B, C) left after the time axis moves to the front. */
  function Spatial(s: seq<nat>, perm: seq<nat>): (r: seq<nat>)
    requires |s| == 4 && IsPerm4(perm)
    ensures |r| == 3 && forall k :: 0 <= k < 3 ==> r[k] == s[perm[k + 1]]
  {
    [s[perm[1]], s[perm[2]], s[perm[3]]]
  }

  /**
   * The axis order `main` settles on, as a permutation P of the input's
   * axes: axis 0 is the time axis; axis 1 (Z) has the smallest spatial
   * extent, and no spatial axis before it is as small (argmin takes the
   * first); Y and X keep their order in the input.
   */
  predicate ZyxOrder(s: seq<nat>, tAxis: int, P: seq<nat>)
    requires |s| == 4
  {
    && IsPerm4(P) && P[0] == tAxis && P[2] < P[3]
    && s[P[1]] <= s[P[2]] && s[P[1]] <= s[P[3]]
    && forall m :: 0 <= m < P[1] && m != tAxis ==> s[m] > s[P[1]]
  }

  /**
   * The reordering in `main`: `data.transpose(perm)` and then
   * `.transpose([0, 1 + order_map...])`. Refused exactly when the time axis
   * is outside 0..3; otherwise one transpose of the input by a permutation
   * in ZyxOrder.
   */
  function ToTimeZyx(data: Array4<real>, tAxis: int): (r: Result<(Array4<real>, seq<nat>)>)
    requires data.Valid()
    ensures r.Err? <==> !(0 <= tAxis <= 3)
    ensures r.Ok? ==> ZyxOrder(data.shape, tAxis, r.value.1)
    ensures r.Ok? ==> IsTransposeOf(r.value.0, data, r.value.1)
  {
    match TimePerm(tAxis)
    case Err(e) => Err(e)
    case Ok(perm) =>
      var zIdx := ArgMin3(Spatial(data.shape, perm));
      var q := ZyxPerm(zIdx);
      var P := ComposePerm(perm, q);
      TransposedTwice(data, perm, q);
      ZyxFacts(data.shape, tAxis, perm, zIdx, q, P);
      Ok((Transposed(Transposed(data, perm), q), P))
  }

  /** The axis facts of ToTimeZyx, on the shape alone. */
  lemma ZyxFacts(s: seq<nat>, tAxis: int, perm: seq<nat>, zIdx: nat, q: seq<nat>, P: seq<nat>)
    requires |s| == 4 && 0 <= tAxis <= 3 && TimePerm(tAxis) == Ok(perm)
    requires zIdx == ArgMin3(Spatial(s, perm)) && q == ZyxPerm(zIdx) && P == ComposePerm(perm, q)
    ensures ZyxOrder(s, tAxis, P)
  {
    ZyxAxes(perm, zIdx, q, P);
    FirstSmallest(s, perm, zIdx, P[1]);
  }

  lemma ZyxAxes(perm: seq<nat>, zIdx: nat, q: seq<nat>, P: seq<nat>)
    requires IsPerm4(perm) && forall k, l :: 1 <= k < l < 4 ==> perm[k] < perm[l]
    requires zIdx < 3 && q == ZyxPerm(zIdx) && P == ComposePerm(perm, q)
    ensures P[0] == perm[0] && P[1] == perm[1 + zIdx] && P[2] < P[3]
    ensures forall k :: 1 <= k < 4 ==> P[k] == perm[q[k]] && 1 <= q[k]
  {
    PermInjective(q);
  }

  /** Axis z of the input, the (1 + zIdx)-th of perm, is the first smallest among the spatial axes. */
  lemma FirstSmallest(s: seq<nat>, perm: seq<nat>, zIdx: nat, z: nat)
    requires |s| == 4 && IsPerm4(perm) && (forall k, l :: 1 <= k < l < 4 ==> perm[k] < perm[l])
    requires zIdx == ArgMin3(Spatial(s, perm)) && z == perm[1 + zIdx]
    ensures forall m :: 0 <= m < z && m != perm[0] ==> s[m] > s[z]
  {
    forall m | 0 <= m < z && m != perm[0] ensures s[m] > s[z] {
      var k := Inv(perm, m);
      PermInjective(perm);
      assert k != 0;
      assert k < 1 + zIdx;
    }
  }

  // ---------------------------------------------------------------------
  // Downsampling every frame

  /** Frame t of a (T, Z, Y, X) array. */
  function FrameOf<V>(data: Array4<V>, t: nat): (r: Array3<V>)
    requires data.Valid() && t < data.shape[0]
    ensures r.Valid() && r.shape == data.shape[1..] && r.cells == data.cells[t]
  {
    Array3(data.shape[1..], data.cells[t])
  }

  /**
   * Every frame reduced by BlockReduceMean and the results stacked;
   * `np.stack` of no frames raises.
   */
  function DownsampledFrames(data: Array4<real>, f: int): (r: Result<Array4<real>>)
    requires data.Valid() && f > 1
    ensures r.Err? <==> data.shape[0] == 0
    ensures r.Ok? ==> r.value.Valid()
    ensures r.Ok? ==> r.value.shape == [data.shape[0], CeilDiv(data.shape[1], f), CeilDiv(data.shape[2], f), CeilDiv(data.shape[3], f)]
    ensures r.Ok? ==> forall t :: 0 <= t < data.shape[0] ==> r.value.cells[t] == BlockReduceMean(FrameOf(data, t), f).cells
  {
    var T := data.shape[0];
    if T == 0 then Err("need at least one array to stack")
    else
      Ok(Array4([T, CeilDiv(data.shape[1], f), CeilDiv(data.shape[2], f), CeilDiv(data.shape[3], f)],
                seq(T, t requires 0 <= t < T => BlockReduceMean(FrameOf(data, t), f).cells)))
  }

  /** The loop of `main` that reduces each frame and appends it to `downs`, then stacks them. */
  method DownsampleFrames(data: Array4<real>, f: int) returns (r: Result<Array4<real>>)
    requires data.Valid() && f > 1
    ensures r == DownsampledFrames(data, f)
  {
    var T := data.shape[0];
    var downs: seq<Arr3<real>> := [];
    for t := 0 to T
      invariant |downs| == t
      invariant forall t' :: 0 <= t' < t ==> downs[t'] == BlockReduceMean(FrameOf(data, t'), f).cells
    {
      var vol := BlockReduceMean(FrameOf(data, t), f);
      downs := downs + [vol.cells];
    }
    if T == 0 {
      return Err("need at least one array to stack");
    }
    assert downs == seq(T, t requires 0 <= t < T => BlockReduceMean(FrameOf(data, t), f).cells);
    r := Ok(Array4([T, CeilDiv(data.shape[1], f), CeilDiv(data.shape[2], f), CeilDiv(data.shape[3], f)], downs));
  }

  // ---------------------------------------------------------------------
  // Intensities to bytes

  /**
   * Both modes' byte mapping: clip to [lo, hi], divide the offset from lo by
   * `max(hi - lo, EPS)`, scale by 255, clip to [0, 255] and truncate. With
   * a window at least EPS wide, lo and below give 0 and hi and above 255.
   */
  function WindowByte(v: real, lo: real, hi: real): (b: Byte)
    ensures lo + EPS <= hi && v <= lo ==> b == 0
    ensures lo + EPS <= hi && v >= hi ==> b == 255
  {
    var c := Clip(v, lo, hi);
    TruncToByte((c - lo) / MaxReal(hi - lo, EPS) * 255.0)
  }

  /** A larger value never gets a smaller byte. */
  lemma WindowByteMonotone(v: real, w: real, lo: real, hi: real)
    requires v <= w
    ensures WindowByte(v, lo, hi) <= WindowByte(w, lo, hi)
  {
    ClipMonotone(v, w, lo, hi);
    var m := MaxReal(hi - lo, EPS);
    var x := (Clip(v, lo, hi) - lo) / m;
    var y := (Clip(w, lo, hi) - lo) / m;
    DivMonotone(Clip(v, lo, hi) - lo, Clip(w, lo, hi) - lo, m);
    TruncToByteMonotone(x * 255.0, y * 255.0);
  }

  lemma DivMonotone(a: real, b: real, m: real)
    requires a <= b && m > 0.0
    ensures a / m <= b / m
  {
    assert b / m - a / m == (b - a) / m;
  }

  /** The sum over the first n frames at voxel (z, y, x). */
  function TimeSum(data: Array4<real>, n: nat, z: nat, y: nat, x: nat): real
    requires data.Valid() && n <= data.shape[0] && z < data.shape[1] && y < data.shape[2] && x < data.shape[3]
  {
    if n == 0 then 0.0 else TimeSum(data, n - 1, z, y, x) + data.cells[n - 1][z][y][x]
  }

  /**
   * `data[:N].mean(axis=0)` at one voxel, a magnitude below EPS replaced by
   * EPS, so that it can divide.
   */
  function Baseline(data: Array4<real>, n: nat, z: nat, y: nat, x: nat): (b: real)
    requires data.Valid() && 0 < n <= data.shape[0] && z < data.shape[1] && y < data.shape[2] && x < data.shape[3]
    ensures b >= EPS || b <= -EPS
  {
    var m := TimeSum(data, n, z, y, x) / (n as real);
    if -EPS < m < EPS then EPS else m
  }

  /** Percent signal change against a baseline. */
  function Psc(v: real, b: real): real
    requires b != 0.0
  {
    100.0 * (v - b) / b
  }

  /** `psc` mode: every voxel's change against its baseline, mapped through the clamp window. */
  function PscBytes(data: Array4<real>, n: nat, cmin: real, cmax: real): (r: Array4<Byte>)
    requires data.Valid() && 0 < n <= data.shape[0]
    ensures r.Valid() && r.shape == data.shape
    ensures forall t, z, y, x ::
      0 <= t < data.shape[0] && 0 <= z < data.shape[1] && 0 <= y < data.shape[2] && 0 <= x < data.shape[3] ==>
      r.cells[t][z][y][x] == WindowByte(Psc(data.cells[t][z][y][x], Baseline(data, n, z, y, x)), cmin, cmax)
  {
    var s := data.shape;
    var cells: Arr4<Byte> :=
      seq(s[0], t requires 0 <= t < s[0] =>
        seq(s[1], z requires 0 <= z < s[1] =>
          seq(s[2], y requires 0 <= y < s[2] =>
            seq(s[3], x requires 0 <= x < s[3] => PscByte(data, n, cmin, cmax, t, z, y, x)))));
    Array4(s, cells)
  }

  /** One voxel of PscBytes. */
  function PscByte(data: Array4<real>, n: nat, cmin: real, cmax: real, t: nat, z: nat, y: nat, x: nat): Byte
    requires data.Valid() && 0 < n <= data.shape[0]
    requires t < data.shape[0] && z < data.shape[1] && y < data.shape[2] && x < data.shape[3]
  {
    WindowByte(Psc(data.cells[t][z][y][x], Baseline(data, n, z, y, x)), cmin, cmax)
  }

  /** `raw` mode: every voxel mapped through the percentile window [lo, hi]. */
  function RawBytes(data: Array4<real>, lo: real, hi: real): (r: Array4<Byte>)
    requires data.Valid()
    ensures r.Valid() && r.shape == data.shape
    ensures forall t, z, y, x ::
      0 <= t < data.shape[0] && 0 <= z < data.shape[1] && 0 <= y < data.shape[2] && 0 <= x < data.shape[3] ==>
      r.cells[t][z][y][x] == WindowByte(data.cells[t][z][y][x], lo, hi)
  {
    var s := data.shape;
    Array4(s,
      seq(s[0], t requires 0 <= t < s[0] =>
        seq(s[1], z requires 0 <= z < s[1] =>
          seq(s[2], y requires 0 <= y < s[2] =>
            seq(s[3], x requires 0 <= x < s[3] =>
              WindowByte(data.cells[t][z][y][x], lo, hi))))))
  }

  lemma {:induction false} ConstantTimeSum(data: Array4<real>, n: nat, z: nat, y: nat, x: nat, v: real)
    requires data.Valid() && n <= data.shape[0] && z < data.shape[1] && y < data.shape[2] && x < data.shape[3]
    requires forall t :: 0 <= t < data.shape[0] ==> data.cells[t][z][y][x] == v
    ensures TimeSum(data, n, z, y, x) == (n as real) * v
  {
    if n > 0 {
      ConstantTimeSum(data, n - 1, z, y, x, v);
      assert (n as real) * v == ((n - 1) as real) * v + v;
    }
  }

  lemma MeanOfEqual(n: nat, v: real)
    requires n > 0
    ensures (n as real) * v / (n as real) == v
  {
  }

  /**
   * A voxel that does not change over time (and is not within EPS of zero)
   * has no signal change: every frame gives it the byte of 0%.
   */
  lemma SteadyVoxelIsNeutral(data: Array4<real>, n: nat, cmin: real, cmax: real, z: nat, y: nat, x: nat, v: real)
    requires data.Valid() && 0 < n <= data.shape[0] && z < data.shape[1] && y < data.shape[2] && x < data.shape[3]
    requires forall t :: 0 <= t < data.shape[0] ==> data.cells[t][z][y][x] == v
    requires v >= EPS || v <= -EPS
    ensures forall t :: 0 <= t < data.shape[0] ==> PscBytes(data, n, cmin, cmax).cells[t][z][y][x] == WindowByte(0.0, cmin, cmax)
  {
    ConstantTimeSum(data, n, z, y, x, v);
    MeanOfEqual(n, v);
    var b := Baseline(data, n, z, y, x);
    assert b == v;
    assert Psc(v, b) == 0.0;
    var r := PscBytes(data, n, cmin, cmax);
    forall t | 0 <= t < data.shape[0] ensures r.cells[t][z][y][x] == WindowByte(0.0, cmin, cmax) {
      assert r.cells[t][z][y][x] == WindowByte(Psc(data.cells[t][z][y][x], b), cmin, cmax);
    }
  }

  // ---------------------------------------------------------------------
  // write_mhd_raw

  /** One frame on disk: the names of its two files, the raw buffer and the header, whose text is HeaderText(header). */
  datatype MhdFrame = MhdFrame(rawName: string, mhdName: string, raw: seq<Byte>, header: MhdHeader)

  /** The variable fields of a `.mhd` header: `DimSize = X Y Z` and `ElementDataFile`. */
  datatype MhdHeader = MhdHeader(X: nat, Y: nat, Z: nat, dataFile: string)

  /** `f"frame_{idx:04d}{ext}"`. */
  function FrameName(idx: nat, ext: string): string {
    "frame_" + ZeroPad4(idx) + ext
  }

  /** The header's lines, as `header.split("\n")` would give them before the trailing empty pieces. */
  function HeaderLines(X: nat, Y: nat, Z: nat, rawName: string): seq<string> {
    [ "ObjectType = Image",
      "NDims = 3",
      "DimSize = " + NatToDecimal(X) + " " + NatToDecimal(Y) + " " + NatToDecimal(Z),
      "ElementType = MET_UCHAR",
      "ElementSpacing = 1 1 1",
      "ElementByteOrderMSB = False",
      "ElementDataFile = " + rawName ]
  }

  /** The text written to the `.mhd` file: each header line ended by a newline, then one more newline. */
  function HeaderText(h: MhdHeader): string {
    Terminated(HeaderLines(h.X, h.Y, h.Z, h.dataFile), '\n') + "\n"
  }

  /**
   * The header reads back, line by line, as the seven MetaImage fields
   * followed by two empty pieces (the extra newline and the end of the
   * text), as long as the data file name holds no newline.
   */
  lemma MhdHeaderLines(X: nat, Y: nat, Z: nat, rawName: string)
    requires '\n' !in rawName
    ensures Split(HeaderText(MhdHeader(X, Y, Z, rawName)), '\n') == HeaderLines(X, Y, Z, rawName) + ["", ""]
  {
    var ls := HeaderLines(X, Y, Z, rawName);
    DigitsHaveNoSeparator(NatToDecimal(X), '\n');
    DigitsHaveNoSeparator(NatToDecimal(Y), '\n');
    DigitsHaveNoSeparator(NatToDecimal(Z), '\n');
    assert '\n' !in ls[2] by {
      assert ls[2] == "DimSize = " + NatToDecimal(X) + " " + NatToDecimal(Y) + " " + NatToDecimal(Z);
    }
    assert '\n' !in ls[6] by {
      assert ls[6] == "ElementDataFile = " + rawName;
    }
    SplitTerminated(ls, '\n', "\n");
    assert Split("\n", '\n') == ["", ""] by {
      assert "\n"[1..] == "";
    }
  }

  lemma DigitsHaveNoSeparator(d: string, c: char)
    requires (forall i :: 0 <= i < |d| ==> IsDigit(d[i])) && !IsDigit(c)
    ensures c !in d
  {
  }

  /** `DimSize`'s value splits at spaces into three numbers that read back as X, Y and Z. */
  lemma DimSizeReadsBack(X: nat, Y: nat, Z: nat)
    ensures var parts := Split(NatToDecimal(X) + " " + NatToDecimal(Y) + " " + NatToDecimal(Z), ' ');
      |parts| == 3 && ParseInt(parts[0]) == Some(X as int) && ParseInt(parts[1]) == Some(Y as int) && ParseInt(parts[2]) == Some(Z as int)
  {
    var dx, dy, dz := NatToDecimal(X), NatToDecimal(Y), NatToDecimal(Z);
    assert Split(dx + " " + dy + " " + dz, ' ') == [dx, dy, dz] by {
      DigitsHaveNoSeparator(dx, ' ');
      DigitsHaveNoSeparator(dy, ' ');
      DigitsHaveNoSeparator(dz, ' ');
      SplitThree(dx, dy, dz, ' ');
      assert dx + " " + dy + " " + dz == dx + [' '] + dy + [' '] + dz;
    }
    var parts := Split(dx + " " + dy + " " + dz, ' ');
    assert parts[0] == dx && parts[1] == dy && parts[2] == dz;
    NatRoundTrip(X);
    NatRoundTrip(Y);
    NatRoundTrip(Z);
  }

  lemma SplitThree(a: string, b: string, d: string, c: char)
    requires c !in a && c !in b && c !in d
    ensures Split(a + [c] + b + [c] + d, c) == [a, b, d]
  {
    calc {
      Split(a + [c] + b + [c] + d, c);
      { assert a + [c] + b + [c] + d == a + [c] + (b + [c] + d); }
      Split(a + [c] + (b + [c] + d), c);
      { SplitCons(a, c, b + [c] + d); }
      [a] + Split(b + [c] + d, c);
      { SplitCons(b, c, d); SplitNoSep(d, c); }
      [a] + ([b] + [d]);
      [a, b, d];
    }
  }

  lemma NatRoundTrip(n: nat)
    ensures ParseInt(NatToDecimal(n)) == Some(n as int)
  {
    IntRoundTrip(n);
  }

  /** Distinct frame indices give distinct file names. */
  lemma FrameNamesDistinct(i: nat, j: nat, ext: string)
    requires FrameName(i, ext) == FrameName(j, ext)
    ensures i == j
  {
    var a, b := FrameName(i, ext), FrameName(j, ext);
    assert ZeroPad4(i) == a[6..|a| - |ext|];
    assert ZeroPad4(j) == b[6..|b| - |ext|];
    ZeroPad4RoundTrip(i);
    ZeroPad4RoundTrip(j);
  }

  /**
   * `write_mhd_raw` as written: the (Z, Y, X) volume transposed to (X, Y, Z)
   * and dumped in C order, so byte (x * Y + y) * Z + z is voxel (z, y, x):
   * z varies fastest.
   */
  function WriteMhdRaw(frameIdx: nat, vol: Array3<Byte>): (r: MhdFrame)
    requires vol.Valid()
    ensures r.rawName == FrameName(frameIdx, ".raw") && r.mhdName == FrameName(frameIdx, ".mhd")
    ensures r.header == MhdHeader(vol.shape[2], vol.shape[1], vol.shape[0], r.rawName)
    ensures |r.raw| == vol.shape[2] * vol.shape[1] * vol.shape[0]
    ensures forall z, y, x :: 0 <= z < vol.shape[0] && 0 <= y < vol.shape[1] && 0 <= x < vol.shape[2] ==>
      Offset3(vol.shape[1], vol.shape[0], x, y, z) < |r.raw| &&
      r.raw[Offset3(vol.shape[1], vol.shape[0], x, y, z)] == vol.cells[z][y][x]
  {
    var Z, Y, X := vol.shape[0], vol.shape[1], vol.shape[2];
    var xyz := Reverse3(vol.cells, Z, Y, X);
    forall z, y, x | 0 <= z < Z && 0 <= y < Y && 0 <= x < X
      ensures Offset3(Y, Z, x, y, z) < |Flatten3(xyz)| && Flatten3(xyz)[Offset3(Y, Z, x, y, z)] == vol.cells[z][y][x]
    {
      Reverse3FlatAt(vol.cells, Z, Y, X, z, y, x);
    }
    Flatten3Length(xyz, X, Y, Z);
    FrameFiles(frameIdx, X, Y, Z, Flatten3(xyz))
  }

  /** The `.raw` and `.mhd` pair of frame frameIdx, holding raw and declaring `DimSize = X Y Z`. */
  function FrameFiles(frameIdx: nat, X: nat, Y: nat, Z: nat, raw: seq<Byte>): (r: MhdFrame)
    ensures r.rawName == FrameName(frameIdx, ".raw") && r.mhdName == FrameName(frameIdx, ".mhd")
    ensures r.header == MhdHeader(X, Y, Z, r.rawName) && r.raw == raw
  {
    var rawName := FrameName(frameIdx, ".raw");
    MhdFrame(rawName, FrameName(frameIdx, ".mhd"), raw, MhdHeader(X, Y, Z, rawName))
  }

  /** What a MetaImage reader takes voxel (x, y, z) to be, given `DimSize = X Y Z`: x varies fastest. */
  function MetaImageVoxel(raw: seq<Byte>, X: nat, Y: nat, Z: nat, x: nat, y: nat, z: nat): Byte
    requires |raw| == X * Y * Z && x < X && y < Y && z < Z
  {
    Offset3Bound(Z, Y, X, z, y, x);
    Reverse3Count(X, Y, Z);
    raw[XFastestOffset(X, Y, x, y, z)]
  }

  /**
   * The discrepancy: in any frame with at least two slices and two columns,
   * a reader of the header takes voxel (x, y, z) = (1, 0, 0) from the
   * byte that holds voxel (z, y, x) = (1, 0, 0) of the volume.
   */
  lemma WrittenFrameIsNotXFastest(frameIdx: nat, vol: Array3<Byte>)
    requires vol.Valid() && vol.shape[0] >= 2 && vol.shape[1] >= 1 && vol.shape[2] >= 2
    ensures MetaImageVoxel(WriteMhdRaw(frameIdx, vol).raw, vol.shape[2], vol.shape[1], vol.shape[0], 1, 0, 0) == vol.cells[1][0][0]
  {
    var Z, Y, X := vol.shape[0], vol.shape[1], vol.shape[2];
    assert Offset3(Y, Z, 0, 0, 1) == 1 == XFastestOffset(X, Y, 1, 0, 0);
  }

  /**
   * For the (Z, Y, X) = (2, 1, 2) volume holding 0, 1, 2, 3 in C order, the
   * reader finds 2 at (x, y, z) = (1, 0, 0), where the volume holds 1.
   */
  lemma WrittenFrameCounterexample(vol: Array3<Byte>)
    requires vol.shape == [2, 1, 2] && vol.cells == [[[0, 1]], [[2, 3]]]
    ensures vol.Valid() && vol.cells[0][0][1] == 1
    ensures MetaImageVoxel(WriteMhdRaw(0, vol).raw, 2, 1, 2, 1, 0, 0) == 2
  {
    SmallFrameValid(vol);
    WrittenFrameIsNotXFastest(0, vol);
  }

  lemma SmallFrameValid(vol: Array3<Byte>)
    requires vol.shape == [2, 1, 2] && vol.cells == [[[0, 1]], [[2, 3]]]
    ensures vol.Valid() && vol.cells[1][0][0] == 2
  {
  }

  /** The writer as intended: dump the (Z, Y, X) volume as it is, so x varies fastest. */
  function WriteMhdRawXFastest(frameIdx: nat, vol: Array3<Byte>): (r: MhdFrame)
    requires vol.Valid()
    ensures r.rawName == FrameName(frameIdx, ".raw") && r.mhdName == FrameName(frameIdx, ".mhd")
    ensures r.header == MhdHeader(vol.shape[2], vol.shape[1], vol.shape[0], r.rawName)
    ensures |r.raw| == vol.shape[2] * vol.shape[1] * vol.shape[0]
  {
    var Z, Y, X := vol.shape[0], vol.shape[1], vol.shape[2];
    Flatten3Length(vol.cells, Z, Y, X);
    Reverse3Count(Z, Y, X);
    FrameFiles(frameIdx, X, Y, Z, Flatten3(vol.cells))
  }

  /**
   * frame is vol on disk as a MetaImage reader sees it: the header declares
   * vol's (X, Y, Z) extents and names the frame's own `.raw` file, and the
   * reader finds every voxel (x, y, z) where vol has it.
   */
  predicate ReadsBackAs(frame: MhdFrame, vol: Array3<Byte>)
    requires vol.Valid()
  {
    var Z, Y, X := vol.shape[0], vol.shape[1], vol.shape[2];
    && frame.header == MhdHeader(X, Y, Z, frame.rawName)
    && |frame.raw| == X * Y * Z
    && forall z, y, x :: 0 <= z < Z && 0 <= y < Y && 0 <= x < X ==>
         MetaImageVoxel(frame.raw, X, Y, Z, x, y, z) == vol.cells[z][y][x]
  }

  /** A MetaImage reader of the corrected frame finds every voxel where the volume has it. */
  lemma XFastestFrameReadsBack(frameIdx: nat, vol: Array3<Byte>)
    requires vol.Valid()
    ensures ReadsBackAs(WriteMhdRawXFastest(frameIdx, vol), vol)
  {
    var Z, Y, X := vol.shape[0], vol.shape[1], vol.shape[2];
    forall z, y, x | 0 <= z < Z && 0 <= y < Y && 0 <= x < X
      ensures MetaImageVoxel(WriteMhdRawXFastest(frameIdx, vol).raw, X, Y, Z, x, y, z) == vol.cells[z][y][x]
    {
      Flatten3At(vol.cells, Z, Y, X, z, y, x);
    }
  }

  // ---------------------------------------------------------------------
  // Writing the frames

  /** Every frame t of the byte array, as `write_mhd_raw` writes it. */
  function FramesOf(u8: Array4<Byte>): (r: seq<MhdFrame>)
    requires u8.Valid()
    ensures |r| == u8.shape[0]
    ensures forall t :: 0 <= t < |r| ==> r[t] == WriteMhdRaw(t, FrameOf(u8, t))
  {
    seq(u8.shape[0], t requires 0 <= t < u8.shape[0] => WriteMhdRaw(t, FrameOf(u8, t)))
  }

  /** The `for t in range(T)` loop of `main` that writes each frame. */
  method WriteFrames(u8: Array4<Byte>) returns (frames: seq<MhdFrame>)
    requires u8.Valid()
    ensures frames == FramesOf(u8)
  {
    frames := [];
    for t := 0 to u8.shape[0]
      invariant |frames| == t
      invariant forall t' :: 0 <= t' < t ==> frames[t'] == WriteMhdRaw(t', FrameOf(u8, t'))
    {
      frames := frames + [WriteMhdRaw(t, FrameOf(u8, t))];
    }
  }

  /** Every frame t of the byte array, as the corrected writer would write it. */
  function XFastestFramesOf(u8: Array4<Byte>): (r: seq<MhdFrame>)
    requires u8.Valid()
    ensures |r| == u8.shape[0]
    ensures forall t :: 0 <= t < |r| ==> r[t] == WriteMhdRawXFastest(t, FrameOf(u8, t))
  {
    seq(u8.shape[0], t requires 0 <= t < u8.shape[0] => WriteMhdRawXFastest(t, FrameOf(u8, t)))
  }

  /** Across a whole export the frames' file names are pairwise distinct. */
  lemma FrameNamesUnique(u8: Array4<Byte>)
    requires u8.Valid()
    ensures var frames := FramesOf(u8);
      forall t, t' :: 0 <= t < |frames| && 0 <= t' < |frames| && t != t' ==>
        frames[t].rawName != frames[t'].rawName && frames[t].mhdName != frames[t'].mhdName
  {
    var frames := FramesOf(u8);
    forall t, t' | 0 <= t < |frames| && 0 <= t' < |frames| && t != t'
      ensures frames[t].rawName != frames[t'].rawName && frames[t].mhdName != frames[t'].mhdName
    {
      if frames[t].rawName == frames[t'].rawName {
        FrameNamesDistinct(t, t', ".raw");
      }
      if frames[t].mhdName == frames[t'].mhdName {
        FrameNamesDistinct(t, t', ".mhd");
      }
    }
  }

  /**
   * frame holds the (Z, Y, X) volume vol as `write_mhd_raw` puts it on disk:
   * the header declares vol's (X, Y, Z) extents and names the frame's own
   * `.raw` file, and byte (x * Y + y) * Z + z is voxel (z, y, x), so z
   * varies fastest.
   */
  predicate HoldsZFastest(frame: MhdFrame, vol: Array3<Byte>)
    requires vol.Valid()
  {
    var Z, Y, X := vol.shape[0], vol.shape[1], vol.shape[2];
    && frame.header == MhdHeader(X, Y, Z, frame.rawName)
    && |frame.raw| == X * Y * Z
    && forall z, y, x :: 0 <= z < Z && 0 <= y < Y && 0 <= x < X ==>
         Offset3(Y, Z, x, y, z) < |frame.raw| && frame.raw[Offset3(Y, Z, x, y, z)] == vol.cells[z][y][x]
  }

  /** Every written frame declares the extents of frame t of the byte array and holds it, z fastest. */
  lemma FramesReadBack(u8: Array4<Byte>, t: nat)
    requires u8.Valid() && t < u8.shape[0]
    ensures HoldsZFastest(FramesOf(u8)[t], FrameOf(u8, t))
  {
  }

  /**
   * The discrepancy in `main`'s output: when the frames have at least two
   * slices and two columns, a MetaImage reader of frame t's header takes
   * voxel (x, y, z) = (1, 0, 0) from the byte holding voxel (z, y, x) =
   * (1, 0, 0) of frame t.
   */
  lemma ExportedFrameMisread(u8: Array4<Byte>, t: nat)
    requires u8.Valid() && t < u8.shape[0] && u8.shape[1] >= 2 && u8.shape[2] >= 1 && u8.shape[3] >= 2
    ensures MetaImageVoxel(FramesOf(u8)[t].raw, u8.shape[3], u8.shape[2], u8.shape[1], 1, 0, 0) == u8.cells[t][1][0][0]
  {
    WrittenFrameIsNotXFastest(t, FrameOf(u8, t));
  }

  /** Every frame of the corrected writer reads back, through its header's dimensions, as frame t of the byte array. */
  lemma XFastestFramesReadBack(u8: Array4<Byte>, t: nat)
    requires u8.Valid() && t < u8.shape[0]
    ensures ReadsBackAs(XFastestFramesOf(u8)[t], FrameOf(u8, t))
  {
    XFastestFrameReadsBack(t, FrameOf(u8, t));
  }

  // ---------------------------------------------------------------------
  // main

  datatype Mode = Raw | PercentChange

  /** The command-line options `main` reads (the `--baseline` and `--dtype` choices have one value each). */
  datatype Options = Options(
    dataset: Option<string>,
    timeAxis: int,
    mode: Mode,
    baselineN: int,
    clamp: string,
    downsample: int,
    tr: Option<real>)

  /** `manifest.json`. */
  datatype Manifest = Manifest(
    nFrames: nat,
    dims: seq<nat>,
    dtype: string,
    mode: string,
    clamp: (real, real),
    downsample: int,
    trSeconds: Option<real>)

  datatype Export = Export(frames: seq<MhdFrame>, manifest: Manifest)

  /** `cmin, cmax = [float(x) for x in clamp.split(",")]`, given Python's `float` of one piece. */
  function ParseClamp(clamp: string, toFloat: string -> Option<real>): (r: Option<(real, real)>)
    ensures r.Some? <==> |Split(clamp, ',')| == 2 && toFloat(Split(clamp, ',')[0]).Some? && toFloat(Split(clamp, ',')[1]).Some?
    ensures r.Some? ==> r.value == (toFloat(Split(clamp, ',')[0]).value, toFloat(Split(clamp, ',')[1]).value)
  {
    var parts := Split(clamp, ',');
    if |parts| != 2 then None
    else
      match (toFloat(parts[0]), toFloat(parts[1]))
      case (Some(lo), Some(hi)) => Some((lo, hi))
      case _ => None
  }

  /** The `(T, Z, Y, X)` data after the optional downsampling. */
  function Scaled(data: Array4<real>, downsample: int): (r: Result<Array4<real>>)
    requires data.Valid()
    ensures r.Ok? ==> r.value.Valid()
    ensures downsample <= 1 ==> r == Ok(data)
    ensures downsample > 1 ==> r == DownsampledFrames(data, downsample)
  {
    if downsample > 1 then DownsampledFrames(data, downsample) else Ok(data)
  }

  /** The byte array of either mode, and the window recorded in the manifest. */
  function Normalized(data: Array4<real>, opts: Options, percentile: (Array4<real>, real) -> real,
                      toFloat: string -> Option<real>): (r: Result<(Array4<Byte>, (real, real))>)
    requires data.Valid()
    ensures r.Ok? ==> r.value.0.Valid() && r.value.0.shape == data.shape
    ensures opts.mode == PercentChange ==>
      (r.Err? <==> !(0 < opts.baselineN <= data.shape[0]) || ParseClamp(opts.clamp, toFloat).None?)
    ensures opts.mode == PercentChange && r.Ok? ==>
      var (cmin, cmax) := ParseClamp(opts.clamp, toFloat).value;
      r.value == (PscBytes(data, opts.baselineN, cmin, cmax), (cmin, cmax))
    ensures opts.mode == Raw ==> (r.Err? <==> 0 in data.shape)
    ensures opts.mode == Raw && r.Ok? ==>
      var lo, hi := percentile(data, 1.0), percentile(data, 99.0);
      r.value == (RawBytes(data, lo, hi), (lo, hi))
  {
    match opts.mode
    case PercentChange =>
      if opts.baselineN <= 0 || opts.baselineN > data.shape[0] then Err("baselineN must be in 1..T")
      else
        (match ParseClamp(opts.clamp, toFloat)
         case None => Err("could not read --clamp")
         case Some((cmin, cmax)) => Ok((PscBytes(data, opts.baselineN, cmin, cmax), (cmin, cmax))))
    case Raw =>
      if 0 in data.shape then Err("percentile of an empty array")
      else
        var lo, hi := percentile(data, 1.0), percentile(data, 99.0);
        Ok((RawBytes(data, lo, hi), (lo, hi)))
  }

  /**
   * `main` up to the downsampling: read the dataset as a 4-D numeric array
   * (anything else fails to convert or to transpose) and reorder it to
   * (T, Z, Y, X).
   */
  function Reordered(ds: Dataset, opts: Options): (r: Result<Array4<real>>)
    requires ds.WellFormed()
    ensures r.Err? <==> !ds.numeric || |ds.shape| != 4 || !(0 <= opts.timeAxis <= 3)
    ensures r.Ok? ==> r.value.Valid()
  {
    if !ds.numeric || |ds.shape| != 4 then Err("not a 4-D numeric dataset")
    else
      match ToTimeZyx(ds.AsArray(), opts.timeAxis)
      case Err(e) => Err(e)
      case Ok((data, _)) => Ok(data)
  }

  /** A reordered dataset is one transpose of it into the (T, Z, Y, X) axis order. */
  lemma ReorderedIsTimeZyx(ds: Dataset, opts: Options)
    requires ds.WellFormed() && Reordered(ds, opts).Ok?
    ensures |ds.shape| == 4
    ensures exists P :: ZyxOrder(ds.shape, opts.timeAxis, P) && IsTransposeOf(Reordered(ds, opts).value, ds.AsArray(), P)
  {
    var P := ToTimeZyx(ds.AsArray(), opts.timeAxis).value.1;
    assert ZyxOrder(ds.shape, opts.timeAxis, P) && IsTransposeOf(Reordered(ds, opts).value, ds.AsArray(), P);
  }

  /** `main` up to the byte mapping: the reordered array, downsampled. */
  function Prepared(ds: Dataset, opts: Options): (r: Result<Array4<real>>)
    requires ds.WellFormed()
    ensures !ds.numeric || |ds.shape| != 4 || !(0 <= opts.timeAxis <= 3) ==> r.Err?
    ensures r.Ok? ==> r.value.Valid()
  {
    match Reordered(ds, opts)
    case Err(e) => Err(e)
    case Ok(data) => Scaled(data, opts.downsample)
  }

  /** The manifest of an export whose (T, Z, Y, X) byte array has shape s. */
  function ManifestOf(s: seq<nat>, opts: Options, window: (real, real)): (m: Manifest)
    requires |s| == 4
    ensures m.nFrames == s[0] && m.dims == [s[3], s[2], s[1]]
    ensures m.dtype == "uint8" && m.mode == (if opts.mode == Raw then "raw" else "psc")
    ensures m.clamp == window && m.downsample == opts.downsample && m.trSeconds == opts.tr
  {
    Manifest(s[0], [s[3], s[2], s[1]], "uint8", if opts.mode == Raw then "raw" else "psc",
             window, opts.downsample, opts.tr)
  }

  /**
   * The files `main` writes for the (T, Z, Y, X) data after downsampling:
   * one frame per time point of the byte array and a manifest whose frame
   * count and (X, Y, Z) dimensions are those of the frames.
   */
  function ExportOf(scaled: Array4<real>, opts: Options, percentile: (Array4<real>, real) -> real,
                    toFloat: string -> Option<real>): (r: Result<Export>)
    requires scaled.Valid()
    ensures r.Ok? <==> Normalized(scaled, opts, percentile, toFloat).Ok?
    ensures r.Ok? ==> var (u8, window) := Normalized(scaled, opts, percentile, toFloat).value;
      && r.value.frames == FramesOf(u8)
      && r.value.manifest == ManifestOf(u8.shape, opts, window)
      && r.value.manifest.nFrames == |r.value.frames| == scaled.shape[0]
      && r.value.manifest.dims == [scaled.shape[3], scaled.shape[2], scaled.shape[1]]
  {
    match Normalized(scaled, opts, percentile, toFloat)
    case Err(e) => Err(e)
    case Ok((u8, window)) => Ok(Export(FramesOf(u8), ManifestOf(u8.shape, opts, window)))
  }

  /** What `main` writes for a dataset: nothing when it cannot be prepared, else the export of the prepared data. */
  function ExportFrom(ds: Dataset, opts: Options, percentile: (Array4<real>, real) -> real,
                      toFloat: string -> Option<real>): (r: Result<Export>)
    requires ds.WellFormed()
    ensures Prepared(ds, opts).Err? ==> r.Err?
    ensures Prepared(ds, opts).Ok? ==> r == ExportOf(Prepared(ds, opts).value, opts, percentile, toFloat)
  {
    match Prepared(ds, opts)
    case Err(e) => Err(e)
    case Ok(scaled) => ExportOf(scaled, opts, percentile, toFloat)
  }

  /**
   * `main` on an opened file. With `--dataset`, the named dataset (a
   * missing name is an error); otherwise the one `find_4d_dataset` picks.
   * `chosen` is the dataset used, None when none could be chosen.
   */
  method ExportFile(file: File, opts: Options, percentile: (Array4<real>, real) -> real,
                    toFloat: string -> Option<real>) returns (chosen: Option<Dataset>, r: Result<Export>)
    requires file.WellFormed()
    ensures opts.dataset.Some? ==> chosen == Lookup(file.datasets, opts.dataset.value)
    ensures opts.dataset.None? ==> (chosen.None? <==> forall d :: d in file.datasets ==> |d.shape| != 4)
    ensures opts.dataset.None? && chosen.Some? ==>
      && chosen.value in Candidates(file.datasets)
      && (forall d :: d in Candidates(file.datasets) ==> !RanksBefore(d, chosen.value))
      && exists k :: (0 <= k < |Candidates(file.datasets)| && Candidates(file.datasets)[k] == chosen.value &&
        forall j :: 0 <= j < k ==> RanksBefore(chosen.value, Candidates(file.datasets)[j]))
    ensures chosen.None? ==> r.Err?
    ensures chosen.Some? ==> chosen.value in file.datasets && r == ExportFrom(chosen.value, opts, percentile, toFloat)
  {
    match opts.dataset {
      case Some(name) =>
        chosen := Lookup(file.datasets, name);
      case None =>
        var found := Find4dDataset(file.datasets);
        chosen := if found.Ok? then Some(found.value) else None;
    }
    if chosen.None? {
      return chosen, Err("no dataset");
    }
    r := ExportDataset(chosen.value, opts, percentile, toFloat);
  }

  /** The part of `main` after the dataset is chosen, with its two loops. */
  method ExportDataset(ds: Dataset, opts: Options, percentile: (Array4<real>, real) -> real,
                       toFloat: string -> Option<real>) returns (r: Result<Export>)
    requires ds.WellFormed()
    ensures r == ExportFrom(ds, opts, percentile, toFloat)
  {
    var scaled := PrepareDataset(ds, opts);
    if scaled.Err? {
      return Err(scaled.message);
    }
    r := ExportScaled(scaled.value, opts, percentile, toFloat);
  }

  /** Reading, reordering and the downsampling loop. */
  method PrepareDataset(ds: Dataset, opts: Options) returns (r: Result<Array4<real>>)
    requires ds.WellFormed()
    ensures r == Prepared(ds, opts)
  {
    var reordered := Reordered(ds, opts);
    if reordered.Err? {
      return Err(reordered.message);
    }
    var data := reordered.value;
    if opts.downsample > 1 {
      r := DownsampleFrames(data, opts.downsample);
    } else {
      r := Ok(data);
    }
  }

  /** The byte mapping, the frame loop and the manifest. */
  method ExportScaled(scaled: Array4<real>, opts: Options, percentile: (Array4<real>, real) -> real,
                      toFloat: string -> Option<real>) returns (r: Result<Export>)
    requires scaled.Valid()
    ensures r == ExportOf(scaled, opts, percentile, toFloat)
  {
    var normalized := Normalized(scaled, opts, percentile, toFloat);
    if normalized.Err? {
      return Err(normalized.message);
    }
    var (u8, window) := normalized.value;
    var frames := WriteFrames(u8);
    r := Ok(Export(frames, ManifestOf(u8.shape, opts, window)));
  }
}
