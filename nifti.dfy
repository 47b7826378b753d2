/**
 * What `nib.load(path).get_fdata()` hands the scripts: an array of rank 3
 * (one volume, axes x, y, z), rank 4 (a series, axes x, y, z, t) or some
 * other rank, which the scripts only count the axes of.
 */
module Nifti {
  import opened Tensor

  datatype Image =
    | Volume(vol: Array3<real>)
    | Series(series: Array4<real>)
    | OtherRank(rank: nat)
  {
    /** `len(data.shape)`. */
    function Rank(): nat {
      match this
      case Volume(_) => 3
      case Series(_) => 4
      case OtherRank(r) => r
    }

    predicate WellFormed() {
      match this
      case Volume(v) => v.Valid()
      case Series(s) => s.Valid()
      case OtherRank(r) => r != 3 && r != 4
    }
  }

  /** `range(min(n, t_size))`: the time points the converters print a preview of. */
  function PreviewedTimePoints(n: int, timePoints: nat): (r: seq<nat>)
    ensures |r| == if n <= 0 then 0 else if n < timePoints then n else timePoints
    ensures forall i :: 0 <= i < |r| ==> r[i] == i
  {
    var count := if n < timePoints then n else timePoints;
    if count <= 0 then [] else seq(count, i requires 0 <= i < count => i)
  }

  /**
   * Whether the preview loop raises: its first pass takes `np.min` of time
   * point 0's (x, y, z) volume, and NumPy refuses the minimum of an empty
   * array. So it raises exactly when some time point's volume is previewed
   * and that volume has an empty axis.
   */
  function PreviewRaises(series: Array4<real>, n: int): (b: bool)
    requires series.Valid()
    ensures b <==> n > 0 && series.shape[3] > 0 && (series.shape[0] == 0 || series.shape[1] == 0 || series.shape[2] == 0)
  {
    |PreviewedTimePoints(n, series.shape[3])| > 0 && 0 in series.shape[..3]
  }
}
