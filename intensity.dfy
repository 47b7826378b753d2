/**
 * Intensity mapping shared by the exporters: numpy's `clip` and the two
 * ways the scripts turn a value into a `uint8` (truncating after a clip to
 * [0, 255], and rounding `v * 255 + 0.5` of a value clipped to [0, 1]).
 * Values are reals: float32 rounding is not modelled.
 */
module Intensity {
  import opened Base

  /** The guard both exporters use against division by zero. */
  const EPS: real := 0.000001

  /** `np.clip(v, lo, hi)`, that is `minimum(maximum(v, lo), hi)`. */
  function Clip(v: real, lo: real, hi: real): (r: real)
    ensures lo <= hi ==> lo <= r <= hi
    ensures lo <= v <= hi ==> r == v
    ensures hi < lo ==> r == hi
    ensures lo <= hi && v < lo ==> r == lo
    ensures lo <= hi && hi < v ==> r == hi
  {
    var m := if v < lo then lo else v;
    if m > hi then hi else m
  }

  lemma ClipMonotone(v: real, w: real, lo: real, hi: real)
    requires v <= w
    ensures Clip(v, lo, hi) <= Clip(w, lo, hi)
  {
  }

  /** `np.clip(v, 0, 255).astype(np.uint8)`: clip, then truncate toward zero. */
  function TruncToByte(v: real): (b: Byte)
    ensures 0.0 <= v <= 255.0 ==> b as real <= v < b as real + 1.0
    ensures v <= 0.0 ==> b == 0
    ensures v >= 255.0 ==> b == 255
  {
    Clip(v, 0.0, 255.0).Floor
  }

  lemma TruncToByteMonotone(v: real, w: real)
    requires v <= w
    ensures TruncToByte(v) <= TruncToByte(w)
  {
    ClipMonotone(v, w, 0.0, 255.0);
  }

  /**
   * `(np.clip(v, 0, 1) * 255.0 + 0.5).astype(np.uint8)`: the nearest byte
   * to 255 times the clipped value, halves rounding up.
   */
  function RoundToByte(v: real): (b: Byte)
    ensures var c := Clip(v, 0.0, 1.0); c * 255.0 - 0.5 < b as real <= c * 255.0 + 0.5
    ensures v <= 0.0 ==> b == 0
    ensures v >= 1.0 ==> b == 255
  {
    var c := Clip(v, 0.0, 1.0);
    (c * 255.0 + 0.5).Floor
  }
}
