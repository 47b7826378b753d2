/**
 * The NIfTI slice viewer: the volume it shows (the first of a series), the
 * slice position (the centre unless given, clamped into the volume), the
 * three orthogonal slices through it, the interactive prompt's
 * fallbacks, and which calls end in an exception. Plotting and statistics
 * are not modelled.
 */
module ReadFmri {
  import opened Base
  import opened Tensor
  import opened Text
  import opened Nifti

  /**
   * The volume the viewer shows: a series gives its first volume
   * `data[:, :, :, 0]` (none when it has no time points), a volume itself,
   * and any other rank none (unpacking its shape into three sizes fails).
   */
  function FirstVolume(img: Image): (r: Option<Array3<real>>)
    requires img.WellFormed()
    ensures r.Some? <==> img.Volume? || (img.Series? && img.series.shape[3] > 0)
    ensures r.Some? ==> r.value.Valid()
    ensures img.Volume? ==> r == Some(img.vol)
    ensures img.Series? && r.Some? ==> var s := img.series;
      && r.value.shape == s.shape[..3]
      && forall x, y, z :: 0 <= x < s.shape[0] && 0 <= y < s.shape[1] && 0 <= z < s.shape[2] ==>
           r.value.cells[x][y][z] == s.cells[x][y][z][0]
  {
    match img
    case Volume(v) => Some(v)
    case OtherRank(_) => None
    case Series(s) =>
      if s.shape[3] == 0 then None
      else
        var X, Y, Z := s.shape[0], s.shape[1], s.shape[2];
        Some(Array3(s.shape[..3],
          seq(X, x requires 0 <= x < X =>
            seq(Y, y requires 0 <= y < Y =>
              seq(Z, z requires 0 <= z < Z => s.cells[x][y][z][0])))))
  }

  /** A slice position. */
  datatype Coords = Coords(x: int, y: int, z: int)

  /** The default position: `size // 2` on each axis. */
  function Centre(vol: Array3<real>): (c: Coords)
    requires vol.Valid()
    ensures c.x * 2 <= vol.shape[0] < c.x * 2 + 2
    ensures c.y * 2 <= vol.shape[1] < c.y * 2 + 2
    ensures c.z * 2 <= vol.shape[2] < c.z * 2 + 2
  {
    Coords(vol.shape[0] / 2, vol.shape[1] / 2, vol.shape[2] / 2)
  }

  /** `max(0, min(c, size - 1))`. */
  function Clamp(c: int, size: nat): (r: int)
    ensures 0 <= r
    ensures size > 0 ==> r < size
    ensures 0 <= c < size ==> r == c
    ensures c < 0 ==> r == 0
    ensures size > 0 && c >= size ==> r == size - 1
  {
    Max(0, Min(c, size - 1))
  }

  /** Clamping a clamped coordinate changes nothing. */
  lemma ClampIdempotent(c: int, size: nat)
    ensures Clamp(Clamp(c, size), size) == Clamp(c, size)
  {
  }

  /** Clamping is monotone: the order of two coordinates is kept. */
  lemma ClampMonotone(c: int, d: int, size: nat)
    requires c <= d
    ensures Clamp(c, size) <= Clamp(d, size)
  {
  }

  /** The position clamped into the volume, axis by axis. */
  function Clamped(vol: Array3<real>, c: Coords): Coords
    requires vol.Valid()
  {
    Coords(Clamp(c.x, vol.shape[0]), Clamp(c.y, vol.shape[1]), Clamp(c.z, vol.shape[2]))
  }

  /** The position lies inside the volume. */
  predicate Inside(vol: Array3<real>, c: Coords)
    requires vol.Valid()
  {
    0 <= c.x < vol.shape[0] && 0 <= c.y < vol.shape[1] && 0 <= c.z < vol.shape[2]
  }

  /** A 2-D slice as rows of values. */
  type Plane = seq<seq<real>>

  predicate HasShape2(p: Plane, rows: nat, cols: nat) {
    |p| == rows && forall i :: 0 <= i < rows ==> |p[i]| == cols
  }

  /** What the figure shows: the clamped position and the three slices through it. */
  datatype View = View(at: Coords, sagittal: Plane, coronal: Plane, axial: Plane)

  /**
   * `data[x, :, :]`, `data[:, y, :]` and `data[:, :, z]` at an inside
   * position: (Y, Z), (X, Z) and (X, Y) planes of the volume's values.
   */
  function Slices(vol: Array3<real>, c: Coords): (v: View)
    requires vol.Valid() && Inside(vol, c)
    ensures v.at == c
    ensures HasShape2(v.sagittal, vol.shape[1], vol.shape[2])
    ensures HasShape2(v.coronal, vol.shape[0], vol.shape[2])
    ensures HasShape2(v.axial, vol.shape[0], vol.shape[1])
    ensures forall j, k :: 0 <= j < vol.shape[1] && 0 <= k < vol.shape[2] ==> v.sagittal[j][k] == vol.cells[c.x][j][k]
    ensures forall i, k :: 0 <= i < vol.shape[0] && 0 <= k < vol.shape[2] ==> v.coronal[i][k] == vol.cells[i][c.y][k]
    ensures forall i, j :: 0 <= i < vol.shape[0] && 0 <= j < vol.shape[1] ==> v.axial[i][j] == vol.cells[i][j][c.z]
  {
    var X, Y, Z := vol.shape[0], vol.shape[1], vol.shape[2];
    View(c,
      seq(Y, j requires 0 <= j < Y => seq(Z, k requires 0 <= k < Z => vol.cells[c.x][j][k])),
      seq(X, i requires 0 <= i < X => seq(Z, k requires 0 <= k < Z => vol.cells[i][c.y][k])),
      seq(X, i requires 0 <= i < X => seq(Y, j requires 0 <= j < Y => vol.cells[i][j][c.z])))
  }

  /** All three slices hold the voxel at the crosshair. */
  lemma CrosshairShared(vol: Array3<real>, c: Coords)
    requires vol.Valid() && Inside(vol, c)
    ensures var v := Slices(vol, c);
      && v.sagittal[c.y][c.z] == vol.cells[c.x][c.y][c.z]
      && v.coronal[c.x][c.z] == vol.cells[c.x][c.y][c.z]
      && v.axial[c.x][c.y] == vol.cells[c.x][c.y][c.z]
  {
  }

  /**
   * How a call of the viewer ends: the figure is shown, the load failed and
   * was reported (the `except` around `nib.load` returns), or an exception
   * left the call.
   */
  datatype Shown = Shown(view: View) | LoadFailed | Raised

  /**
   * `load_and_display_nifti(filepath, slice_coords)`: `loaded` is what
   * nibabel returned (None when loading raised, which is caught). With no
   * volume to show, unpacking the shape or `data[:, :, :, 0]` raises; with
   * an empty axis, the slice at the clamped index 0 of that axis raises;
   * otherwise the slices at the given position, or the centre, clamped into
   * the volume, are shown.
   */
  function Display(loaded: Option<Image>, given: Option<Coords>): (r: Shown)
    requires loaded.Some? ==> loaded.value.WellFormed()
    ensures r.LoadFailed? <==> loaded.None?
    ensures r.Raised? <==>
      && loaded.Some?
      && (FirstVolume(loaded.value).None? || 0 in FirstVolume(loaded.value).value.shape)
    ensures r.Shown? ==> var vol := FirstVolume(loaded.value).value;
      var wanted := if given.Some? then given.value else Centre(vol);
      && r.view.at == Clamped(vol, wanted)
      && Inside(vol, r.view.at)
      && r.view == Slices(vol, r.view.at)
  {
    if loaded.None? then LoadFailed
    else
      var first := FirstVolume(loaded.value);
      if first.None? then Raised
      else
        var vol := first.value;
        if 0 in vol.shape then Raised
        else
          var wanted := if given.Some? then given.value else Centre(vol);
          var at := Clamped(vol, wanted);
          assert vol.shape[0] > 0 && vol.shape[1] > 0 && vol.shape[2] > 0;
          Shown(Slices(vol, at))
  }

  /** Without a given position, the slices go through the centre itself. */
  lemma DefaultIsCentre(loaded: Option<Image>)
    requires loaded.Some? ==> loaded.value.WellFormed()
    requires Display(loaded, None).Shown?
    ensures Display(loaded, None).view.at == Centre(FirstVolume(loaded.value).value)
  {
  }

  /** One prompt's answer (already stripped): empty gives the centre value, otherwise `int(answer)`. */
  function Answer(s: string, centre: int): Option<int> {
    if s == [] then Some(centre) else ParseInt(s)
  }

  /**
   * `interactive_viewer`: its own `nib.load`, the first-volume step and the
   * shape unpacking are outside any `try`, so a failed load, a rank other
   * than 3 or 4 and a series without time points raise. Otherwise the three
   * answers are read as coordinates, an empty answer standing for that
   * axis's centre, and the viewer is called with them; if any answer is not
   * an integer, the `ValueError` is caught and the viewer is called with
   * the centre. An exception from the viewer itself (an empty axis) is not
   * a `ValueError` and leaves the call.
   */
  function Interactive(loaded: Option<Image>, xs: string, ys: string, zs: string): (r: Shown)
    requires loaded.Some? ==> loaded.value.WellFormed()
    ensures r.LoadFailed? == false
    ensures loaded.None? || FirstVolume(loaded.value).None? ==> r.Raised?
    ensures loaded.Some? && FirstVolume(loaded.value).Some? ==>
      var c := Centre(FirstVolume(loaded.value).value);
      var ax, ay, az := Answer(xs, c.x), Answer(ys, c.y), Answer(zs, c.z);
      && (ax.Some? && ay.Some? && az.Some? ==> r == Display(loaded, Some(Coords(ax.value, ay.value, az.value))))
      && (ax.None? || ay.None? || az.None? ==> r == Display(loaded, None))
  {
    if loaded.None? then Raised
    else
      var first := FirstVolume(loaded.value);
      if first.None? then Raised
      else
        var c := Centre(first.value);
        var ax, ay, az := Answer(xs, c.x), Answer(ys, c.y), Answer(zs, c.z);
        if ax.Some? && ay.Some? && az.Some? then Display(loaded, Some(Coords(ax.value, ay.value, az.value)))
        else Display(loaded, None)
  }

  /**
   * Pressing Enter at all three prompts shows the same view as giving no
   * position; only a failed load differs, which the prompt does not catch.
   */
  lemma AllEmptyIsDefault(loaded: Option<Image>)
    requires loaded.Some? ==> loaded.value.WellFormed()
    ensures loaded.Some? ==> Interactive(loaded, "", "", "") == Display(loaded, None)
    ensures loaded.None? ==> Interactive(loaded, "", "", "") == Raised && Display(loaded, None) == LoadFailed
  {
  }

  /** Answers naming a position inside the volume show the slices through exactly that position. */
  lemma AnswersInsideKept(loaded: Option<Image>, x: nat, y: nat, z: nat)
    requires loaded.Some? && loaded.value.WellFormed() && FirstVolume(loaded.value).Some?
    requires Inside(FirstVolume(loaded.value).value, Coords(x, y, z))
    ensures Interactive(loaded, NatToDecimal(x), NatToDecimal(y), NatToDecimal(z)).Shown?
    ensures Interactive(loaded, NatToDecimal(x), NatToDecimal(y), NatToDecimal(z)).view.at == Coords(x, y, z)
  {
    var vol := FirstVolume(loaded.value).value;
    var c := Centre(vol);
    var xs, ys, zs := NatToDecimal(x), NatToDecimal(y), NatToDecimal(z);
    AnswerOfDecimal(x, c.x);
    AnswerOfDecimal(y, c.y);
    AnswerOfDecimal(z, c.z);
    assert Interactive(loaded, xs, ys, zs) == Display(loaded, Some(Coords(x, y, z)));
    DisplayInside(loaded, Coords(x, y, z));
  }

  /** A given position inside the volume is shown as it is. */
  lemma DisplayInside(loaded: Option<Image>, c: Coords)
    requires loaded.Some? && loaded.value.WellFormed() && FirstVolume(loaded.value).Some?
    requires Inside(FirstVolume(loaded.value).value, c)
    ensures Display(loaded, Some(c)).Shown? && Display(loaded, Some(c)).view.at == c
  {
    var vol := FirstVolume(loaded.value).value;
    assert vol.shape == [vol.shape[0], vol.shape[1], vol.shape[2]];
    assert 0 !in vol.shape;
    assert Clamped(vol, c) == c;
  }

  /** A typed-in natural number is read back as that number. */
  lemma AnswerOfDecimal(n: nat, centre: int)
    ensures Answer(NatToDecimal(n), centre) == Some(n as int)
  {
    IntRoundTrip(n);
  }
}
