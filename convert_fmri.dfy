/**
 * The NIfTI-to-HDF5 converter: rank check, the (x,y,z,t) -> (t,x,y,z)
 * transpose, the number of previewed time points, the output path, the
 * storage options chosen for the `fmri_data` dataset, and the batch loop
 * over the matched files. Loading, writing and printing are not modelled;
 * whether loading and writing succeed are inputs.
 */
module ConvertFmri {
  import opened Base
  import opened Tensor
  import opened Text
  import opened Paths
  import opened Nifti
  import NiiToUnity

  // ---------------------------------------------------------------------
  // Storage options

  /** How `create_dataset` stores the data. */
  datatype Storage =
    | Plain
    | Filtered(compression: string, level: Option<int>, shuffle: bool, fletcher32: bool)

  /**
   * The storage for a `compression` argument, "" standing for None and
   * the other falsy values: none then; otherwise that filter with shuffle
   * and checksums, at level 9 for gzip and with no level for the others.
   */
  function StorageFor(compression: string): (r: Storage)
    ensures r == Plain <==> compression == ""
    ensures r.Filtered? ==> r.compression == compression && r.shuffle && r.fletcher32
    ensures r.Filtered? ==> (r.level.Some? <==> compression == "gzip")
    ensures r.Filtered? && r.level.Some? ==> r.level.value == 9
  {
    if compression == "" then Plain
    else Filtered(compression, if compression == "gzip" then Some(9) else None, true, true)
  }

  // ---------------------------------------------------------------------
  // Output paths

  /** `str(path)`, an empty parent standing for the current directory. */
  function PathText(p: FilePath): string {
    if p.parent == "" then p.name else p.parent + "/" + p.name
  }

  /**
   * The default output beside the input: `stem + "_timeseries.h5"`, except
   * that for a ".gz" input every ".nii" is first removed from the stem.
   */
  function DefaultOutput(input: FilePath): (r: FilePath)
    ensures r.parent == input.parent
    ensures Suffix(input.name) == ".gz" ==> r.name == RemoveAll(Stem(input.name), ".nii") + "_timeseries.h5"
    ensures Suffix(input.name) != ".gz" ==> r.name == Stem(input.name) + "_timeseries.h5"
  {
    var output := Join(input.parent, Stem(input.name) + "_timeseries.h5");
    if Suffix(input.name) == ".gz" then Join(input.parent, RemoveAll(Stem(input.name), ".nii") + "_timeseries.h5")
    else output
  }

  /** The path written: the one given, as it is, or else the default. */
  function OutputPath(input: FilePath, given: Option<string>): (r: string)
    ensures given.Some? ==> r == given.value
    ensures given.None? ==> r == PathText(DefaultOutput(input))
  {
    match given
    case Some(p) => p
    case None => PathText(DefaultOutput(input))
  }

  /** A dot-free string holds no ".nii". */
  lemma NoNiiInPlainName(s: string)
    requires '.' !in s
    ensures !IsInfix(".nii", s)
  {
    forall i: nat | i <= |s| ensures !OccursAt(".nii", s, i) {
      if i + 4 <= |s| {
        assert s[i] in s;
        assert s[i..i + 4][0] == s[i] != '.';
      }
    }
  }

  /** "s.nii.gz" and "s.nii" both get the default name "s_timeseries.h5". */
  lemma DefaultOutputOfNiftiNames(dir: string, s: string)
    requires s != [] && '.' !in s
    ensures DefaultOutput(FilePath(dir, s + ".nii.gz")) == FilePath(dir, s + "_timeseries.h5")
    ensures DefaultOutput(FilePath(dir, s + ".nii")) == FilePath(dir, s + "_timeseries.h5")
  {
    assert s + ".nii.gz" == (s + ".nii") + "." + "gz";
    assert '.' !in "gz";
    StemOfExtension(s + ".nii", "gz");
    NoNiiInPlainName(s);
    RemoveAllSuffix(s, ".nii");
    assert s + ".nii" == s + "." + "nii";
    assert '.' !in "nii";
    StemOfExtension(s, "nii");
  }

  /** The batch's output for a matched file: `stem.replace(".nii", "") + "_timeseries.h5"` in the output folder. */
  function BatchOutput(dir: string, name: string): (r: FilePath)
    ensures r.parent == dir
  {
    Join(dir, RemoveAll(Stem(name), ".nii") + "_timeseries.h5")
  }

  /** Every batch output is an `.h5` file named `..._timeseries.h5`. */
  lemma BatchOutputIsTimeseries(dir: string, name: string)
    ensures EndsWith(BatchOutput(dir, name).name, "_timeseries.h5")
  {
    var base := RemoveAll(Stem(name), ".nii");
    assert (base + "_timeseries.h5")[|base|..] == "_timeseries.h5";
  }

  /**
   * The batch names its output as the default would, in its own folder,
   * for every ".gz" input and for every other input whose stem holds no ".nii".
   */
  lemma BatchAgreesWithDefault(dir: string, input: FilePath)
    requires Suffix(input.name) == ".gz" || !IsInfix(".nii", Stem(input.name))
    ensures BatchOutput(dir, input.name).name == DefaultOutput(input).name
  {
    if Suffix(input.name) != ".gz" {
      RemoveAllAbsent(Stem(input.name), ".nii");
    }
  }

  /** The batch's output folder: the one given unless it is empty or missing, else the input folder. */
  function BatchDir(inputDir: string, outputDir: Option<string>): string {
    if outputDir.Some? && outputDir.value != "" then outputDir.value else inputDir
  }

  // ---------------------------------------------------------------------
  // process_fmri_to_hdf5

  /** What a successful conversion writes, and the path it returns. */
  datatype Written = Written(
    path: string,
    datasetName: string,
    reshaped: Array4<real>,
    originalShape: seq<nat>,
    reshapedShape: seq<nat>,
    sourceFile: string,
    storage: Storage,
    preview: seq<nat>)

  /**
   * How `process_fmri_to_hdf5` ends: it returns (None, or what it wrote
   * with the path), or an exception of the preview leaves it.
   */
  datatype Processed =
    | Returned(written: Option<Written>)
    | Raised

  /**
   * `process_fmri_to_hdf5`: `loaded` is what nibabel returned (None when
   * loading raised) and `writeSucceeds` whether writing the HDF5 file
   * completes. A rank-4 image whose previewed volume is empty raises out of
   * the preview, which no `try` guards. Otherwise the result is None unless
   * the image loads with rank 4 (a volume is refused, not lifted) and the
   * file is written; then the (t,x,y,z) array with element (t,x,y,z) the
   * input's (x,y,z,t), the two shapes recorded beside it, the first
   * min(n, T) time points previewed, and the output path.
   */
  function ProcessFmri(loaded: Option<Image>, writeSucceeds: bool, input: FilePath, output: Option<string>,
                       nPrintSlices: int, compression: string): (r: Processed)
    requires loaded.Some? ==> loaded.value.WellFormed()
    ensures r.Raised? <==> loaded.Some? && loaded.value.Series? && PreviewRaises(loaded.value.series, nPrintSlices)
    ensures r.Returned? && r.written.Some? <==>
      loaded.Some? && loaded.value.Rank() == 4 && !PreviewRaises(loaded.value.series, nPrintSlices) && writeSucceeds
    ensures r.Returned? && r.written.Some? ==>
      var data := loaded.value.series;
      var X, Y, Z, T := data.shape[0], data.shape[1], data.shape[2], data.shape[3];
      var w := r.written.value;
      && w.reshaped.Valid()
      && w.reshaped.shape == w.reshapedShape == [T, X, Y, Z]
      && w.originalShape == data.shape
      && (forall t, x, y, z :: 0 <= t < T && 0 <= x < X && 0 <= y < Y && 0 <= z < Z ==>
            w.reshaped.cells[t][x][y][z] == data.cells[x][y][z][t])
      && |w.preview| == (if nPrintSlices <= 0 then 0 else Min(nPrintSlices, T))
      && w.path == OutputPath(input, output)
      && w.datasetName == "fmri_data"
      && w.sourceFile == PathText(input)
      && w.storage == StorageFor(compression)
  {
    if loaded.None? || !loaded.value.Series? then Returned(None)
    else
      var data := loaded.value.series;
      if PreviewRaises(data, nPrintSlices) then Raised
      else
        var preview := PreviewedTimePoints(nPrintSlices, data.shape[3]);
        var reshaped := NiiToUnity.UnityLayout(data);
        if !writeSucceeds then Returned(None)
        else
          Returned(Some(Written(OutputPath(input, output), "fmri_data", reshaped, data.shape, reshaped.shape,
                                PathText(input), StorageFor(compression), preview)))
  }

  // ---------------------------------------------------------------------
  // batch_convert_nifti_to_hdf5

  /** A file the glob matched, with what loading and writing it do. */
  datatype Matched = Matched(name: string, loaded: Option<Image>, writeSucceeds: bool)

  predicate MatchedWellFormed(m: Matched) {
    m.loaded.Some? ==> m.loaded.value.WellFormed()
  }

  /** What the batch makes of one file: reported converted, reported failed, or raised out of the batch. */
  datatype Report = Converted | Failed | Crashed

  /**
   * One conversion attempt of the batch: the input folder, the output
   * folder and the matched file's name, from which the two paths passed
   * follow, and how the attempt ended.
   */
  datatype Attempt = Attempt(inputDir: string, outputDir: string, name: string, report: Report) {
    /** The input path passed: the matched file in the input folder. */
    function Input(): FilePath {
      Join(inputDir, name)
    }

    /** The output path passed: `str(output_path / f"{stem.replace('.nii', '')}_timeseries.h5")`. */
    function Output(): string {
      PathText(BatchOutput(outputDir, name))
    }
  }

  /**
   * The attempt for one matched file: the file in the input folder,
   * converted into the batch's output folder. It raises exactly when the
   * file loads as a rank-4 image with an empty previewed volume, and
   * otherwise succeeds exactly when the file loads as a rank-4 image and is
   * written. (AttemptReportsProcess shows that this is what
   * `process_fmri_to_hdf5` with the default preview count and compression
   * does.)
   */
  function AttemptOf(inputDir: string, outputDir: Option<string>, m: Matched): (a: Attempt)
    requires MatchedWellFormed(m)
    ensures a.inputDir == inputDir && a.outputDir == BatchDir(inputDir, outputDir) && a.name == m.name
    ensures a.report == Crashed <==> m.loaded.Some? && m.loaded.value.Series? && PreviewRaises(m.loaded.value.series, 5)
    ensures a.report == Converted <==>
      m.loaded.Some? && m.loaded.value.Series? && !PreviewRaises(m.loaded.value.series, 5) && m.writeSucceeds
  {
    var report :=
      if m.loaded.None? || !m.loaded.value.Series? then Failed
      else if PreviewRaises(m.loaded.value.series, 5) then Crashed
      else if m.writeSucceeds then Converted
      else Failed;
    Attempt(inputDir, BatchDir(inputDir, outputDir), m.name, report)
  }

  /** `if result:` after the call, or the exception that leaves it. */
  function ReportOf(p: Processed): Report {
    match p
    case Raised => Crashed
    case Returned(Some(_)) => Converted
    case Returned(None) => Failed
  }

  /**
   * An attempt reports what `process_fmri_to_hdf5` on its input and output
   * path, with the default preview count and compression, does; a
   * converted file's returned path is the output path passed.
   */
  lemma AttemptReportsProcess(inputDir: string, outputDir: Option<string>, m: Matched)
    requires MatchedWellFormed(m)
    ensures var a := AttemptOf(inputDir, outputDir, m);
      var p := ProcessFmri(m.loaded, m.writeSucceeds, a.Input(), Some(a.Output()), 5, "gzip");
      && a.report == ReportOf(p)
      && (a.report == Converted ==> p.written.value.path == a.Output())
  {
  }

  /**
   * The attempts the batch makes: one per matched file, in the order the
   * glob gave them, until a file raises; that exception ends the batch, so
   * the files after it are never attempted (BatchAttemptsInOrder and
   * BatchEndsAtCrash).
   */
  function BatchAttempts(inputDir: string, outputDir: Option<string>, matched: seq<Matched>): (r: seq<Attempt>)
    requires forall i :: 0 <= i < |matched| ==> MatchedWellFormed(matched[i])
    ensures |r| <= |matched|
    decreases |matched|
  {
    if matched == [] then []
    else
      var a := AttemptOf(inputDir, outputDir, matched[0]);
      if a.report == Crashed then [a]
      else [a] + BatchAttempts(inputDir, outputDir, matched[1..])
  }

  /** Attempt i of the batch is the attempt for matched file i, and no attempt before the last one raised. */
  lemma {:induction false} BatchAttemptsInOrder(inputDir: string, outputDir: Option<string>, matched: seq<Matched>, i: nat)
    requires forall k :: 0 <= k < |matched| ==> MatchedWellFormed(matched[k])
    requires i < |BatchAttempts(inputDir, outputDir, matched)|
    ensures BatchAttempts(inputDir, outputDir, matched)[i] == AttemptOf(inputDir, outputDir, matched[i])
    ensures i < |BatchAttempts(inputDir, outputDir, matched)| - 1 ==> BatchAttempts(inputDir, outputDir, matched)[i].report != Crashed
    decreases i
  {
    if i > 0 {
      var rest := matched[1..];
      BatchAttemptsInOrder(inputDir, outputDir, rest, i - 1);
      assert rest[i - 1] == matched[i];
    }
  }

  /**
   * The batch attempts every matched file unless one raises, and when it
   * stops short, the last attempt made is the one that raised.
   */
  lemma {:induction false} BatchEndsAtCrash(inputDir: string, outputDir: Option<string>, matched: seq<Matched>)
    requires forall k :: 0 <= k < |matched| ==> MatchedWellFormed(matched[k])
    ensures var r := BatchAttempts(inputDir, outputDir, matched);
      |r| < |matched| ==> |r| > 0 && r[|r| - 1].report == Crashed
    decreases |matched|
  {
    if matched != [] && AttemptOf(inputDir, outputDir, matched[0]).report != Crashed {
      BatchEndsAtCrash(inputDir, outputDir, matched[1..]);
    }
  }

  /** The batch loop of `batch_convert_nifti_to_hdf5`. */
  method BatchConvert(inputDir: string, outputDir: Option<string>, matched: seq<Matched>) returns (attempts: seq<Attempt>)
    requires forall i :: 0 <= i < |matched| ==> MatchedWellFormed(matched[i])
    ensures attempts == BatchAttempts(inputDir, outputDir, matched)
  {
    attempts := [];
    var i := 0;
    while i < |matched|
      invariant 0 <= i <= |matched|
      invariant attempts + BatchAttempts(inputDir, outputDir, matched[i..]) == BatchAttempts(inputDir, outputDir, matched)
    {
      var a := AttemptOf(inputDir, outputDir, matched[i]);
      assert matched[i..][1..] == matched[i + 1..];
      attempts := attempts + [a];
      if a.report == Crashed {
        return;
      }
      i := i + 1;
    }
  }

  /** Two matched files with the same name base in the same batch get the same output path. */
  lemma BatchOutputsCollide(inputDir: string, outputDir: Option<string>, s: string, a: Matched, b: Matched)
    requires s != [] && '.' !in s
    requires a.name == s + ".nii" && b.name == s + ".nii.gz"
    requires MatchedWellFormed(a) && MatchedWellFormed(b)
    ensures AttemptOf(inputDir, outputDir, a).Output() == AttemptOf(inputDir, outputDir, b).Output()
  {
    DefaultOutputOfNiftiNames(inputDir, s);
    BatchAgreesWithDefault(inputDir, FilePath(inputDir, a.name));
    BatchAgreesWithDefault(inputDir, FilePath(inputDir, b.name));
  }
}
