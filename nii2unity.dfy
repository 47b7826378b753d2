/**
 * The Python half of the NIfTI-to-Unity converter: rank check and lift,
 * the (x,y,z,t) -> (t,x,y,z) transpose, the output names, the C-order
 * float dump written to the `.bytes` file, and the metadata dimensions.
 * The loader that reads the dump back is in module UnityLoader.
 */
module NiiToUnity {
  import opened Base
  import opened Tensor
  import opened Text
  import opened Paths
  import opened Nifti

  /** `data[:, :, :, np.newaxis]`: a volume as a series of one time point. */
  function AddTimeAxis(v: Array3<real>): (r: Array4<real>)
    requires v.Valid()
    ensures r.Valid() && r.shape == v.shape + [1]
    ensures forall x, y, z :: 0 <= x < v.shape[0] && 0 <= y < v.shape[1] && 0 <= z < v.shape[2] ==>
      r.cells[x][y][z][0] == v.cells[x][y][z]
  {
    var X, Y, Z := v.shape[0], v.shape[1], v.shape[2];
    Array4(v.shape + [1],
      seq(X, x requires 0 <= x < X =>
        seq(Y, y requires 0 <= y < Y =>
          seq(Z, z requires 0 <= z < Z => [v.cells[x][y][z]]))))
  }

  /**
   * The rank check: a series is kept, a volume gains a trailing time axis
   * of length 1, any other rank is refused.
   */
  function AsSeries(img: Image): (r: Option<Array4<real>>)
    requires img.WellFormed()
    ensures r.Some? <==> img.Rank() == 3 || img.Rank() == 4
    ensures r.Some? ==> r.value.Valid()
    ensures img.Series? ==> r == Some(img.series)
    ensures img.Volume? ==> r.value.shape == img.vol.shape + [1]
  {
    match img
    case Series(s) => Some(s)
    case Volume(v) => Some(AddTimeAxis(v))
    case OtherRank(_) => None
  }

  /** `np.transpose(data, (3, 0, 1, 2))`: move the time axis to the front. */
  function UnityLayout(data: Array4<real>): (r: Array4<real>)
    requires data.Valid()
    ensures r.Valid() && r.shape == [data.shape[3], data.shape[0], data.shape[1], data.shape[2]]
    ensures forall t, x, y, z ::
      0 <= t < data.shape[3] && 0 <= x < data.shape[0] && 0 <= y < data.shape[1] && 0 <= z < data.shape[2] ==>
      r.cells[t][x][y][z] == data.cells[x][y][z][t]
  {
    LastAxisToFront(data.cells, data.shape);
    Transposed(data, [3, 0, 1, 2])
  }

  /** The output file name base: the stem without a trailing ".nii". */
  function NameBase(stem: string): (r: string)
    ensures EndsWith(stem, ".nii") ==> r + ".nii" == stem
    ensures !EndsWith(stem, ".nii") ==> r == stem
  {
    if EndsWith(stem, ".nii") then stem[..|stem| - 4] else stem
  }

  /** "s.nii.gz" and "s.nii" give the same base "s". */
  lemma NameBaseOfNiftiNames(s: string)
    requires s != [] && '.' !in s
    ensures NameBase(Stem(s + ".nii.gz")) == s
    ensures NameBase(Stem(s + ".nii")) == s
  {
    assert s + ".nii.gz" == (s + ".nii") + "." + "gz";
    assert '.' !in "gz";
    StemOfExtension(s + ".nii", "gz");
    assert s + ".nii" == s + "." + "nii";
    assert '.' !in "nii";
    StemOfExtension(s, "nii");
    assert (s + ".nii")[|s + ".nii"| - 4..] == ".nii";
  }

  /** The output directory: the input's own directory unless one is given. */
  function OutputDir(input: FilePath, outputDir: Option<string>): string {
    match outputDir
    case None => input.parent
    case Some(d) => d
  }

  /** The metadata's "dimensions" entry. */
  datatype Dimensions = Dimensions(t: nat, x: nat, y: nat, z: nat)

  /**
   * `header.get_zooms()` as the `.mat` file's `data_info` and the metadata
   * both record it: the first three entries as the voxel size, and the
   * fourth as the time step, 1.0 when there is no fourth.
   */
  datatype ZoomInfo = ZoomInfo(voxelSize: seq<real>, timeStep: real)

  function ZoomInfoOf(zooms: seq<real>): (r: ZoomInfo)
    ensures |r.voxelSize| == Min(3, |zooms|)
    ensures forall i :: 0 <= i < |r.voxelSize| ==> r.voxelSize[i] == zooms[i]
    ensures |zooms| > 3 ==> r.timeStep == zooms[3]
    ensures |zooms| <= 3 ==> r.timeStep == 1.0
  {
    if |zooms| > 3 then ZoomInfo(zooms[..3], zooms[3]) else ZoomInfo(zooms, 1.0)
  }

  /**
   * `data.astype(np.float32).tofile(path)`: the (t, x, y, z) array dumped
   * in C order, element (t, x, y, z) at the array's C-order offset.
   */
  function BytesDump(data: Array4<real>): (r: seq<real>)
    requires data.Valid()
    ensures |r| == data.shape[0] * data.shape[1] * data.shape[2] * data.shape[3]
    ensures forall t, x, y, z ::
      0 <= t < data.shape[0] && 0 <= x < data.shape[1] && 0 <= y < data.shape[2] && 0 <= z < data.shape[3] ==>
      Offset4(data.shape, t, x, y, z) < |r| && r[Offset4(data.shape, t, x, y, z)] == data.cells[t][x][y][z]
  {
    Flatten4Layout(data.cells, data.shape);
    Flatten4(data.cells)
  }

  /** The name `save_formats` gives the `.bytes` file, which the generated loader reads. */
  function BytesName(base: string): string {
    base + "_unity.bytes"
  }

  /** What `save_formats` (with the loader script it generates) writes when it completes. */
  datatype SavedFiles = SavedFiles(
    npy: FilePath,
    mat: FilePath,
    bytes: FilePath,
    metadata: FilePath,
    script: FilePath,
    bytesContent: seq<real>,   // the `.bytes` file, one value per float32
    shape: seq<nat>,           // the "shape" entry of the `.mat` file and of the metadata
    dtype: string,             // the metadata's "dtype"
    dimensions: Dimensions,
    zoomInfo: ZoomInfo,        // the `.mat` file's data_info and the metadata's voxel_size and time_step
    loaderDataFile: string,    // the generated loader's `dataFileName`
    loaderShape: seq<nat>)     // the generated loader's timePoints, xSize, ySize, zSize

  /**
   * How `save_formats` ends: it completes, or, for an array with an empty
   * axis, the metadata's `np.min(data)` raises after the `.npy`, `.mat`
   * and `.bytes` files are written and before the metadata and the script.
   */
  datatype Saving =
    | Saved(files: SavedFiles)
    | StatsRaised(written: seq<FilePath>)

  /** `save_formats` for the (t, x, y, z) array, the header's zooms, the output folder and the name base. */
  function SaveFormats(data: Array4<real>, zooms: seq<real>, outputDir: string, base: string): (r: Saving)
    requires data.Valid()
    ensures r.StatsRaised? <==> 0 in data.shape
    ensures r.StatsRaised? ==>
      r.written == [Join(outputDir, base + "_unity.npy"), Join(outputDir, base + "_unity.mat"), Join(outputDir, BytesName(base))]
    ensures r.Saved? ==>
      var f := r.files;
      && f.npy == Join(outputDir, base + "_unity.npy")
      && f.mat == Join(outputDir, base + "_unity.mat")
      && f.bytes == Join(outputDir, BytesName(base))
      && f.metadata == Join(outputDir, base + "_metadata.json")
      && f.script == Join(outputDir, "FMRILoader_" + base + ".cs")
      && f.loaderDataFile == f.bytes.name
      && f.shape == f.loaderShape == data.shape
      && f.dtype == "float64"
      && f.dimensions == Dimensions(data.shape[0], data.shape[1], data.shape[2], data.shape[3])
      && f.zoomInfo == ZoomInfoOf(zooms)
      && f.bytesContent == BytesDump(data)
  {
    var npy := Join(outputDir, base + "_unity.npy");
    var mat := Join(outputDir, base + "_unity.mat");
    var bytes := Join(outputDir, BytesName(base));
    if 0 in data.shape then StatsRaised([npy, mat, bytes])
    else
      Saved(SavedFiles(
        npy, mat, bytes,
        Join(outputDir, base + "_metadata.json"),
        Join(outputDir, "FMRILoader_" + base + ".cs"),
        BytesDump(data),
        data.shape,
        "float64",
        Dimensions(data.shape[0], data.shape[1], data.shape[2], data.shape[3]),
        ZoomInfoOf(zooms),
        BytesName(base),
        data.shape))
  }

  datatype Conversion = Conversion(unity: Array4<real>, saved: SavedFiles)

  /**
   * How `load_and_convert_nifti` ends: it returns (None, or the converted
   * array with what was saved for it), or an exception leaves it, after
   * the files listed were written.
   */
  datatype Outcome =
    | Returned(conversion: Option<Conversion>)
    | Raised(written: seq<FilePath>)

  /**
   * `load_and_convert_nifti` from the rank check on, for the (x,y,z,t)
   * series `data`: an empty axis raises, in the preview (writing nothing)
   * when a time point is previewed, else in `save_formats` after its first
   * three files; otherwise the (t,x,y,z) array whose element (t,x,y,z) is
   * the input's (x,y,z,t), and the files saved for it.
   */
  function ConvertSeries(data: Array4<real>, zooms: seq<real>, nPreview: int, outputDir: string, base: string): (r: Outcome)
    requires data.Valid()
    ensures r.Raised? <==> 0 in data.shape
    ensures r.Raised? ==>
      r.written == if PreviewRaises(data, nPreview) then [] else SaveFormats(UnityLayout(data), zooms, outputDir, base).written
    ensures r.Returned? ==>
      var X, Y, Z, T := data.shape[0], data.shape[1], data.shape[2], data.shape[3];
      && r.conversion.Some?
      && var c := r.conversion.value;
      && c.unity.Valid()
      && c.unity.shape == [T, X, Y, Z]
      && (forall t, x, y, z :: 0 <= t < T && 0 <= x < X && 0 <= y < Y && 0 <= z < Z ==>
            c.unity.cells[t][x][y][z] == data.cells[x][y][z][t])
      && Saved(c.saved) == SaveFormats(c.unity, zooms, outputDir, base)
  {
    if PreviewRaises(data, nPreview) then Raised([])
    else
      var unity := UnityLayout(data);
      assert 0 in unity.shape <==> 0 in data.shape;
      match SaveFormats(unity, zooms, outputDir, base)
      case StatsRaised(written) => Raised(written)
      case Saved(files) => Returned(Some(Conversion(unity, files)))
  }

  /**
   * `load_and_convert_nifti`: `loaded` is what nibabel returned (None when
   * loading raised) and `zooms` its header's zooms. It returns None exactly
   * when loading failed or the rank is neither 3 nor 4; otherwise it goes
   * on as ConvertSeries, a volume first lifted to a series of one time
   * point, into the output folder under the name base of the input.
   */
  function LoadAndConvertNifti(loaded: Option<Image>, zooms: seq<real>, filepath: FilePath, nPreview: int,
                               outputDir: Option<string>): (r: Outcome)
    requires loaded.Some? ==> loaded.value.WellFormed()
    ensures r == Returned(None) <==> loaded.None? || !(loaded.value.Rank() == 3 || loaded.value.Rank() == 4)
    ensures r != Returned(None) ==>
      r == ConvertSeries(AsSeries(loaded.value).value, zooms, nPreview, OutputDir(filepath, outputDir), NameBase(Stem(filepath.name)))
  {
    match loaded
    case None => Returned(None)
    case Some(img) =>
      match AsSeries(img)
      case None => Returned(None)
      case Some(data) => ConvertSeries(data, zooms, nPreview, OutputDir(filepath, outputDir), NameBase(Stem(filepath.name)))
  }
}
