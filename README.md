# fMRI layout and index-space core, modelled in Dafny

The scripts of this repository move a 4-D fMRI scalar field between
formats: NIfTI `(x, y, z, t)` files, HDF5 `(t, x, y, z)` datasets, a raw
C-order `.bytes` dump read by a generated Unity `FMRILoader` component,
MetaImage `.mhd`/`.raw` frame sequences, and 8-bit `.vol` volumes with a
JSON manifest. This project models what those scripts do to the *shape,
axis order, indexing, selection and naming* of that field, with values as
mathematical `real` numbers, and proves the properties the scripts promise.
Arrays are nested sequences with an explicit shape (`Tensor.Array3`,
`Tensor.Array4`); a transpose by a permutation of the axes is
`Tensor.Transposed`, and the C-order flattening is `Tensor.Flatten4` with the
offset `((t*X + x)*Y + y)*Z + z` (`Tensor.Offset4`).

Modules, one per core script plus shared ones:

- `NiiToUnity` (`nii2unity.dfy`): `load_and_convert_nifti` — rank check and
  lifting of a volume, the `(3, 0, 1, 2)` transpose, the name base, and the
  files `save_formats` writes (the `.bytes` content is the C-order flattening).
- `UnityLoader` (`fmri_loader.dfy`): the generated C# `FMRILoader`, as a class
  whose `LoadFMRIData` fills an `array4<real>` with four nested loops and a
  running index, and whose accessors are bounds-checked; `LoadConverted`
  closes the round trip from the converter's array to the loader's answers.
- `ConvertFmri` (`convert_fmri.dfy`): `process_fmri_to_hdf5` (rank check,
  transpose, preview count, output path, storage options) and the batch loop,
  which stops at the first file whose preview raises.
- `ReadFmri` (`read_fmri.dfy`): the slice viewer — first volume, centre,
  clamping, the three orthogonal slices, the interactive prompt's fallbacks.
- `ExportMhd` (`export_h5_to_mhd.dfy`): the MetaImage exporter — dataset
  ranking, time-axis and smallest-extent-Z reordering, block-mean/stride
  downsampling, the byte mapping of both modes, the frame writer and header,
  and the manifest.
- `UnityVolumes` (`h5_to_unity_volumes.dfy`): the `.vol` exporter — largest
  numeric dataset, time-axis heuristic, stride downsampling, TR lookup,
  percentile window, crop and centre, anatomy and PSC frames, manifest.
- Shared: `Tensor` (arrays, offsets, flattening, permutations, striding),
  `Text` (lowercasing, infixes, splitting, decimal and zero-padded numbers,
  `int()`), `Paths` (`pathlib` stem and suffix for the simple cases),
  `Intensity` (clip, `astype(uint8)` truncation, `+0.5` rounding), `Nifti`
  (what nibabel returns), `Hdf5` (datasets and attributes), `Base`.

Everything the scripts read from outside — what nibabel or h5py returned,
whether a file exists or a write succeeds, the files a glob matched, what
`input()` answered, `np.percentile`, Python's `float()` on a string — is a
parameter of the model. Of what the scripts write, the model gives the
file names and the contents listed under "Left out"; printed output is not
modelled. An exception that the scripts do not catch is part of the model:
such a call ends in a `Raised` outcome (a `Crashed` report in the batch).
The slice viewer tells a load failure it catches and reports
(`LoadFailed`) apart from one that leaves the call (`Raised`).
For `save_formats` the model also records which files were written before
the exception. In the two exporters, an exception ends `main` before any
file is written, and the model returns an error for it.

## Model

| member | source | states |
|---|---|---|
| NiiToUnity.AddTimeAxis | python-utils/nii2unity.py:39-41 | a volume gains a trailing time axis of length 1, element (x,y,z,0) being voxel (x,y,z) |
| NiiToUnity.AsSeries | python-utils/nii2unity.py:36-44 | a series exactly for rank 3 or 4: a 4-D image kept as it is, a 3-D image lifted to shape + [1], any other rank refused |
| NiiToUnity.UnityLayout | python-utils/nii2unity.py:67-69 | the result has shape (T,X,Y,Z) and element (t,x,y,z) is the input's (x,y,z,t) |
| NiiToUnity.NameBase | python-utils/nii2unity.py:82-84 | a trailing ".nii" is removed exactly when the stem ends with it, otherwise the stem is kept |
| NiiToUnity.NameBaseOfNiftiNames | python-utils/nii2unity.py:82-84 | "s.nii.gz" and "s.nii" both get the name base "s" |
| NiiToUnity.ZoomInfoOf | python-utils/nii2unity.py:110-111 | `[float(x) for x in zooms[:3]]` is the first min(3, n) zooms in order; the time step is zooms[3] when there are more than three, else 1.0 |
| NiiToUnity.BytesDump | python-utils/nii2unity.py:116-120 | the `.bytes` dump has T*X*Y*Z values with element (t,x,y,z) at its C-order offset ((t*X+x)*Y+y)*Z+z |
| NiiToUnity.SaveFormats | python-utils/nii2unity.py:91-155 | raises exactly for an array with an empty axis (the metadata's `np.min`), after writing only the `.npy`, `.mat` and `.bytes` files; otherwise the five files base + "_unity.npy", "_unity.mat", "_unity.bytes", "_metadata.json" and "FMRILoader_" + base + ".cs" in the output folder, the `.bytes` content the C-order dump, the recorded shape, dtype "float64", t/x/y/z dimensions, voxel size and time step of the zooms, and the loader generated with that file name and the array's shape |
| NiiToUnity.ConvertSeries | python-utils/nii2unity.py:46-89 | raises exactly when an axis is empty: in the preview, writing nothing, when a time point is previewed, else in `save_formats` after its first three files; otherwise returns the (T,X,Y,Z) array with unity[t,x,y,z] == data[x,y,z,t] and what SaveFormats saved for it |
| NiiToUnity.LoadAndConvertNifti | python-utils/nii2unity.py:7-89 | returns None exactly when loading fails or the rank is neither 3 nor 4; otherwise it ends as ConvertSeries of the (lifted) series into the output folder under the name base |
| UnityLoader.FMRILoader.constructor | python-utils/nii2unity.py:167-178 | the generated component names base + "_unity.bytes", carries the array's shape, and has nothing loaded |
| UnityLoader.FMRILoader.LoadFMRIData | python-utils/nii2unity.py:185-222 | a missing file changes neither the array nor the loaded flag; otherwise a fresh array whose element (t,x,y,z) is value number ((t*X+x)*Y+y)*Z+z of the file, and the data marked loaded |
| UnityLoader.FMRILoader.GetVoxelValue | python-utils/nii2unity.py:225-235 | 0 when nothing is loaded or any coordinate is outside its range; the stored value otherwise |
| UnityLoader.FMRILoader.GetVoxelTimeSeries | python-utils/nii2unity.py:238-246 | a fresh array of length T whose entry t is GetVoxelValue(t,x,y,z); all zeros for a voxel outside the volume |
| UnityLoader.FMRILoader.GetTimeSlice | python-utils/nii2unity.py:249-263 | a fresh X*Y*Z array equal to GetVoxelValue(timePoint,·,·,·); all zeros for a time point outside 0..T-1 |
| UnityLoader.Offset4Carry3 | python-utils/nii2unity.py:205-209 | finishing the z loop leaves the running index at the start of the next y row |
| UnityLoader.Offset4Carry2 | python-utils/nii2unity.py:203-211 | finishing the y loop leaves the running index at the start of the next x plane |
| UnityLoader.Offset4Carry1 | python-utils/nii2unity.py:201-212 | finishing the x loop leaves the running index at the start of the next time point |
| UnityLoader.LoadConverted | python-utils/nii2unity.py:117-215 | round trip: loading the `.bytes` dump of a (T,X,Y,Z) array into the loader generated for it (which reads base + "_unity.bytes") makes GetVoxelValue(t,x,y,z) return element (t,x,y,z) everywhere in range |
| Nifti.PreviewedTimePoints | python-utils/convert_fmri.py:48-49 | the previewed time points are 0 .. min(n, T)-1 in order, none when n <= 0 |
| Nifti.PreviewRaises | python-utils/convert_fmri.py:48-53 | the preview raises (`np.min` of an empty volume) exactly when n > 0, T > 0 and a spatial axis is empty, the same test as python-utils/nii2unity.py:52-57 |
| ConvertFmri.StorageFor | python-utils/convert_fmri.py:84-92 | no filter exactly for a falsy compression; otherwise that filter with shuffle and checksums, level 9 for gzip and no level for the others |
| ConvertFmri.DefaultOutput | python-utils/convert_fmri.py:71-75 | the default output sits beside the input; for a ".gz" input every ".nii" is removed from the stem, and "_timeseries.h5" is appended |
| ConvertFmri.OutputPath | python-utils/convert_fmri.py:70-77 | a given output path is used as it is; otherwise the default one |
| ConvertFmri.DefaultOutputOfNiftiNames | python-utils/convert_fmri.py:71-75 | "s.nii.gz" and "s.nii" both get the default output "s_timeseries.h5" in their folder |
| ConvertFmri.NoNiiInPlainName | python-utils/convert_fmri.py:75 | a stem without a dot holds no ".nii", so the replace leaves it alone |
| ConvertFmri.BatchOutput | python-utils/convert_fmri.py:217 | the batch's output path lies in its output folder |
| ConvertFmri.BatchOutputIsTimeseries | python-utils/convert_fmri.py:217 | every batch output name ends in "_timeseries.h5" |
| ConvertFmri.BatchAgreesWithDefault | python-utils/convert_fmri.py:206-218 | the batch's name agrees with the single-file default for every ".gz" input and every other input whose stem holds no ".nii" |
| ConvertFmri.ProcessFmri | python-utils/convert_fmri.py:7-136 | raises exactly when the image loads with rank 4 and a previewed volume is empty; returns a path exactly when the image loads with rank 4 (a volume is refused, not lifted), the preview does not raise and the file is written; then the (T,X,Y,Z) array with reshaped[t,x,y,z] == data[x,y,z,t], both shapes recorded, min(n,T) time points previewed, the "fmri_data" dataset with the chosen storage, the source file and the output path |
| ConvertFmri.AttemptOf | python-utils/convert_fmri.py:212-223 | one attempt converts the file from the input folder into the batch output folder; it raises exactly when the file loads with rank 4 and an empty previewed volume, and reports success exactly when the file loads with rank 4, the preview does not raise and the file is written |
| ConvertFmri.AttemptReportsProcess | python-utils/convert_fmri.py:217-223 | an attempt's report is what ProcessFmri does on its input and output path with the defaults (5 slices, gzip), and a converted file's returned path is the output path passed |
| ConvertFmri.BatchAttempts | python-utils/convert_fmri.py:212-223 | at most one attempt per matched file (BatchAttemptsInOrder and BatchEndsAtCrash say which) |
| ConvertFmri.BatchAttemptsInOrder | python-utils/convert_fmri.py:212-218 | attempt i is the attempt for matched file i, in glob order, and no attempt before the last one raised |
| ConvertFmri.BatchEndsAtCrash | python-utils/convert_fmri.py:212-223 | every matched file is attempted unless one raises; when the batch stops short, its last attempt is the one that raised (no `try` guards the loop) |
| ConvertFmri.BatchConvert | python-utils/convert_fmri.py:206-223 | the loop makes exactly the attempts BatchAttempts lists: in glob order, ending at the first file that raises |
| ConvertFmri.BatchOutputsCollide | python-utils/convert_fmri.py:217 | "s.nii" and "s.nii.gz" in one batch are passed the same output path |
| ReadFmri.FirstVolume | python-utils/read_fmri.py:27-33 | a series gives its first volume data[:,:,:,0] (none when it has no time points), a volume itself, any other rank nothing |
| ReadFmri.Centre | python-utils/read_fmri.py:36-40 | each default coordinate is size // 2 on its axis |
| ReadFmri.Clamp | python-utils/read_fmri.py:46-48 | the clamped coordinate lies in [0, size-1] for a non-empty axis, equals an in-range coordinate, and is 0 below and size-1 above the range |
| ReadFmri.ClampIdempotent | python-utils/read_fmri.py:46-48 | clamping twice is clamping once |
| ReadFmri.ClampMonotone | python-utils/read_fmri.py:46-48 | clamping keeps the order of two coordinates |
| ReadFmri.Slices | python-utils/read_fmri.py:50-53 | the sagittal slice is the (Y,Z) plane at x, the coronal the (X,Z) plane at y, the axial the (X,Y) plane at z, element by element |
| ReadFmri.CrosshairShared | python-utils/read_fmri.py:50-53 | all three slices hold the voxel at the crosshair |
| ReadFmri.Display | python-utils/read_fmri.py:6-53 | a failed load is caught (`LoadFailed`); a rank other than 3 or 4, a series without time points or an empty axis raises (`Raised`); otherwise the slices at the given position or the centre, clamped into the volume, are shown |
| ReadFmri.DefaultIsCentre | python-utils/read_fmri.py:36-48 | without a given position the slices go through the centre itself |
| ReadFmri.Interactive | python-utils/read_fmri.py:100-127 | a failed load, a rank other than 3 or 4 or a series without time points raises (its load and first volume are outside the `try`); otherwise the three answers are read as coordinates with an empty answer standing for that axis's centre, any non-integer answer makes the whole view fall back to the centre, and the viewer's own outcome is the result |
| ReadFmri.AllEmptyIsDefault | python-utils/read_fmri.py:100-127 | pressing Enter at all three prompts ends as the viewer without a position does, except that a failed load raises here where the viewer catches it |
| ReadFmri.AnswersInsideKept | python-utils/read_fmri.py:115-123 | typing the decimal coordinates of a voxel inside the volume shows the slices through exactly that voxel |
| ReadFmri.DisplayInside | python-utils/read_fmri.py:42-53 | a given position inside the volume is shown unclamped |
| ReadFmri.AnswerOfDecimal | python-utils/read_fmri.py:119-121 | a typed natural number is read back as that number |
| ExportMhd.Candidates | export_h5_to_mhd.py:17-21 | the candidates are exactly the visited datasets of rank 4 |
| ExportMhd.CollectCandidates | export_h5_to_mhd.py:17-21 | the visitor appends the rank-4 datasets in visiting order |
| ExportMhd.FirstRanked | export_h5_to_mhd.py:26-33 | the chosen candidate is ranked before by none, and ranks strictly before every earlier one (the first of a stable sort) |
| ExportMhd.RanksBeforeStep | export_h5_to_mhd.py:26-32 | the sort key is a strict weak order, which the first-of-the-sort argument needs |
| ExportMhd.Find4dDataset | export_h5_to_mhd.py:16-34 | fails exactly when no dataset has rank 4; otherwise a rank-4 dataset that no candidate ranks before and that ranks strictly before every earlier candidate, with a preferred name whenever any candidate has one |
| ExportMhd.RootRelative | export_h5_to_mhd.py:104 | HDF5 reads leading slashes as the root: the result is the path without its leading slashes, and what was dropped is all slashes |
| ExportMhd.Lookup | export_h5_to_mhd.py:102-104 | `h[name]` finds a dataset exactly when one has the visited name `name` without its leading slashes, and it has that name |
| ExportMhd.AbsoluteNameSame | export_h5_to_mhd.py:104 | `--dataset /n` and `--dataset n` find the same dataset |
| ExportMhd.BlockReduceMean | export_h5_to_mhd.py:37-47 | factor <= 1 keeps the volume; all extents divisible gives shape d/f with every cell the mean of its f*f*f block; otherwise shape ceil(d/f) with cell (i,j,k) = vol[i*f][j*f][k*f] |
| ExportMhd.BlockMeans | export_h5_to_mhd.py:43-45 | the reshape-and-mean gives shape d/f, every block inside the volume, each cell its block's mean |
| ExportMhd.StrideDown | export_h5_to_mhd.py:46-47 | the stride fallback gives shape ceil(d/f) and cell (i,j,k) = vol[i*f][j*f][k*f], always inside the volume |
| ExportMhd.BlocksFit | export_h5_to_mhd.py:43-44 | on an axis that f divides, d/f is ceil(d/f) and every block below it fits |
| ExportMhd.BlockMeanBounds | export_h5_to_mhd.py:44 | the mean of a block of values in [a,b] lies in [a,b] |
| ExportMhd.ReduceStaysInRange | export_h5_to_mhd.py:37-47 | downsampling a volume whose values lie in [a,b] keeps them in [a,b], in both branches |
| ExportMhd.UniformStaysUniform | export_h5_to_mhd.py:37-47 | downsampling a uniform volume gives a uniform volume of the same value |
| ExportMhd.TimePerm | export_h5_to_mhd.py:109-115 | refused exactly outside 0..3; otherwise a permutation of 0..3 starting with the time axis, the rest ascending |
| ExportMhd.Spatial | export_h5_to_mhd.py:117-120 | the three spatial extents after moving time to the front |
| ExportMhd.ArgMin3 | export_h5_to_mhd.py:121 | the first index of a smallest extent |
| ExportMhd.ZyxPerm | export_h5_to_mhd.py:122-128 | the second transpose is a permutation keeping time first, putting Z second and keeping Y before X in their input order |
| ExportMhd.ZyxPermIsOrderMap | export_h5_to_mhd.py:122-128 | for each Z index the transpose is [0, 1+order_map[0], 1+order_map[1], 1+order_map[2]] of the script's order_map |
| ExportMhd.OrderMap | export_h5_to_mhd.py:122 | order_map for Z index 0, 1, 2 is [0,1,2], [1,0,2], [2,0,1] |
| ExportMhd.FirstSmallest | export_h5_to_mhd.py:121 | no spatial axis before the chosen Z axis is as small as it |
| ExportMhd.ZyxFacts | export_h5_to_mhd.py:113-128 | the composed permutation puts time first, a smallest spatial extent second (the first such), and Y before X |
| ExportMhd.ToTimeZyx | export_h5_to_mhd.py:109-128 | refused exactly when the time axis is outside 0..3; otherwise one transpose of the input in the (T,Z,Y,X) axis order above |
| ExportMhd.FrameOf | export_h5_to_mhd.py:136 | `data[t]` is the (Z,Y,X) frame t |
| ExportMhd.DownsampledFrames | export_h5_to_mhd.py:131-140 | fails exactly with no frames (`np.stack` of nothing); otherwise T kept, every extent ceil(d/f), and frame t the downsampled frame t |
| ExportMhd.DownsampleFrames | export_h5_to_mhd.py:133-139 | the loop over t produces the downsampled frames |
| ExportMhd.WindowByte | export_h5_to_mhd.py:155-156 | for a window at least EPS wide, a value at or below its low end maps to 0 and one at or above its high end to 255 |
| ExportMhd.WindowByteMonotone | export_h5_to_mhd.py:152-156 | the byte mapping keeps the order of values |
| ExportMhd.Baseline | export_h5_to_mhd.py:148-149 | the baseline (mean of the first N frames) is never within EPS of 0 |
| ExportMhd.PscBytes | export_h5_to_mhd.py:144-156 | same shape; each byte is the clamp-window byte of the percent change of the voxel against its baseline |
| ExportMhd.RawBytes | export_h5_to_mhd.py:160-165 | same shape; each byte is the window byte of the voxel in [lo, hi] |
| ExportMhd.SteadyVoxelIsNeutral | export_h5_to_mhd.py:148-156 | a voxel constant over time has percent change 0 and the byte of 0 in every frame |
| ExportMhd.MhdHeaderLines | export_h5_to_mhd.py:63-74 | the header file reads as the seven header lines, each ended by a newline, followed by one empty line |
| ExportMhd.DimSizeReadsBack | export_h5_to_mhd.py:66 | the DimSize value splits into three numbers that read back as X, Y, Z |
| ExportMhd.FrameNamesDistinct | export_h5_to_mhd.py:57-58 | different frame indices give different file names |
| ExportMhd.WriteMhdRaw | export_h5_to_mhd.py:50-74 | as written: names frame_NNNN.raw/.mhd, header DimSize X Y Z naming the raw file, X*Y*Z bytes with vol[z][y][x] at offset (x*Y + y)*Z + z |
| ExportMhd.WrittenFrameIsNotXFastest | export_h5_to_mhd.py:53-61 | read as the x-fastest file its header announces, the written frame's voxel (1,0,0) is the input's (z=1,y=0,x=0) |
| ExportMhd.WrittenFrameCounterexample | export_h5_to_mhd.py:53-61 | a 2x1x2 frame whose voxel x=1 holds 1 reads back 2 there |
| ExportMhd.FrameFiles | export_h5_to_mhd.py:57-71 | a frame's names are frame_NNNN.raw/.mhd and its header names the raw file and the extents |
| ExportMhd.WriteMhdRawXFastest | export_h5_to_mhd.py:50-74 | corrected writer: same names and header, X*Y*Z bytes in x-fastest order |
| ExportMhd.XFastestFrameReadsBack | export_h5_to_mhd.py:53-71 | read as the header says (DimSize X Y Z, x fastest), the corrected frame gives back every voxel vol[z][y][x] |
| ExportMhd.FramesOf | export_h5_to_mhd.py:170-171 | one frame per time point, frame t being WriteMhdRaw as written of u8[t] under index t |
| ExportMhd.WriteFrames | export_h5_to_mhd.py:170-173 | the loop over t writes exactly those frames |
| ExportMhd.FrameNamesUnique | export_h5_to_mhd.py:57-58 | no two frames of an export share a file name |
| ExportMhd.FramesReadBack | export_h5_to_mhd.py:53-71 | each written frame declares the (X,Y,Z) extents of the byte frame it came from, names its own raw file, and holds voxel (z,y,x) at byte (x*Y+y)*Z+z, z fastest |
| ExportMhd.ExportedFrameMisread | export_h5_to_mhd.py:53-71 | in every export whose frames have at least two slices and two columns, a MetaImage reader of frame t takes voxel x=1 from the byte holding voxel z=1 of frame t |
| ExportMhd.XFastestFramesOf | export_h5_to_mhd.py:170-171 | corrected: frame t is WriteMhdRawXFastest of u8[t] under index t |
| ExportMhd.XFastestFramesReadBack | export_h5_to_mhd.py:53-71 | corrected: every frame reads back, through its own header, as the byte frame it came from |
| ExportMhd.ParseClamp | export_h5_to_mhd.py:151 | the clamp parses exactly when it splits at "," into two parts that both parse as floats, giving those two values |
| ExportMhd.Scaled | export_h5_to_mhd.py:130-140 | a factor of 1 or less (or none) leaves the data; a larger one downsamples every frame |
| ExportMhd.Normalized | export_h5_to_mhd.py:143-167 | psc mode fails exactly when baselineN is outside 1..T or the clamp does not parse, else the PSC bytes with the clamp as window; raw mode fails exactly for an empty axis (a percentile of nothing), else the bytes in the 1st-99th percentile window |
| ExportMhd.Reordered | export_h5_to_mhd.py:106-128 | fails exactly for a non-numeric or non-4-D dataset or a time axis outside 0..3 |
| ExportMhd.ReorderedIsTimeZyx | export_h5_to_mhd.py:109-128 | a reordered dataset is one transpose of it into the (T,Z,Y,X) axis order |
| ExportMhd.Prepared | export_h5_to_mhd.py:106-140 | reading, reordering and downsampling fail for a non-numeric or non-4-D dataset or a bad time axis |
| ExportMhd.ManifestOf | export_h5_to_mhd.py:176-184 | n_frames is T, dims are [X, Y, Z], dtype "uint8", mode, clamp window, downsample and TR as given |
| ExportMhd.ExportOf | export_h5_to_mhd.py:143-186 | succeeds exactly when the byte mapping does; the frames are FramesOf the byte array (as written, z fastest), the manifest's frame count is the number of frames and its dims are the frames' (X,Y,Z) |
| ExportMhd.ExportFrom | export_h5_to_mhd.py:106-186 | a dataset that cannot be prepared fails; otherwise the export of the prepared array |
| ExportMhd.ExportFile | export_h5_to_mhd.py:99-186 | a named dataset is looked up; otherwise the 4-D candidate that no candidate ranks before and that ranks strictly before every earlier candidate, i.e. the first in visiting order among equally ranked ones (`sorted(...)[0]`); no dataset fails; the export is that of the chosen dataset |
| ExportMhd.ExportDataset | export_h5_to_mhd.py:106-186 | the steps of `main` compute ExportFrom |
| ExportMhd.PrepareDataset | export_h5_to_mhd.py:106-140 | reading, reordering and the downsampling loop compute Prepared |
| ExportMhd.ExportScaled | export_h5_to_mhd.py:143-186 | the byte mapping, the frame loop and the manifest compute ExportOf |
| UnityVolumes.FindLargest4d | h5_to_unity_volumes.py:7-19 | fails exactly when no dataset is numeric and 4-D; otherwise one of maximal size, the first visited such (the comparison is strict) |
| UnityVolumes.PercentileWindow | h5_to_unity_volumes.py:21-26 | low end the 2nd percentile; high end the 98th when above it, else low + 1e-6; never empty |
| UnityVolumes.ToUint8 | h5_to_unity_volumes.py:28-30 | values at or below vmin give 0, at or above vmax give 255 |
| UnityVolumes.ToUint8OfUnit | h5_to_unity_volumes.py:28-30 | on the [0,1] window the byte is the rounded value*255 of the clipped value |
| UnityVolumes.ToUint8Monotone | h5_to_unity_volumes.py:28-30 | the byte mapping keeps the order of values |
| UnityVolumes.RoundToByteMonotone | h5_to_unity_volumes.py:28-30 | the `+0.5` rounding to a byte keeps the order of values |
| UnityVolumes.UnitValue | h5_to_unity_volumes.py:120-121 | the normalized value lies in [0,1]: 0 below the window, 1 above it, the window fraction inside it |
| UnityVolumes.NormalizeUnit | h5_to_unity_volumes.py:119-121 | same shape, every value in [0,1], each the normalized input value |
| UnityVolumes.ArgMax4 | h5_to_unity_volumes.py:88 | the first index of a largest extent |
| UnityVolumes.TimeAxis | h5_to_unity_volumes.py:80-90 | the heuristic picks one of the four axes as time |
| UnityVolumes.MoveToFront | h5_to_unity_volumes.py:82-90 | `moveaxis(k, 0)` is the permutation with k first and the other axes in their order |
| UnityVolumes.TransposeIdentity | h5_to_unity_volumes.py:89 | a time axis already at the front leaves the data as it is |
| UnityVolumes.TimeFirst | h5_to_unity_volumes.py:80-90 | the result is a transpose of the input by that permutation |
| UnityVolumes.TimeFirstLastAxis | h5_to_unity_volumes.py:80-82 | an (X,Y,Z,T)-looking shape gets element (t,x,y,z) = input (x,y,z,t) |
| UnityVolumes.TimeFirstKept | h5_to_unity_volumes.py:83-85 | a (T,X,Y,Z)-looking shape is kept |
| UnityVolumes.TimeFirstLargest | h5_to_unity_volumes.py:86-90 | otherwise the new first extent is the largest, and strictly larger than every extent before it |
| UnityVolumes.StrideFrames | h5_to_unity_volumes.py:94-97 | a factor of 1 or less keeps the data; a larger one keeps T, makes every spatial extent ceil(d/f) and strides each frame |
| UnityVolumes.StrideFramesAt | h5_to_unity_volumes.py:94-97 | element (t,i,j,k) of the strided data is input element (t,i*f,j*f,k*f), which exists |
| UnityVolumes.AttrTr | h5_to_unity_volumes.py:107-114 | `float(val)` of a scalar, `float(val[0])` of a non-empty array, nothing where the conversion raises |
| UnityVolumes.LastTr | h5_to_unity_volumes.py:103-114 | within one object the last matching, readable attribute gives the TR; nothing when none does |
| UnityVolumes.ScanAttrs | h5_to_unity_volumes.py:104-114 | the loop over the attribute keys computes LastTr |
| UnityVolumes.SearchedPair | h5_to_unity_volumes.py:102-103 | the dataset's attributes are searched before the file's, and the file's only when nothing was found |
| UnityVolumes.TrOf | h5_to_unity_volumes.py:99-116 | the command-line TR wins, then the dataset's, then the file's, then 2.0 |
| UnityVolumes.LookupTr | h5_to_unity_volumes.py:99-116 | the loops compute TrOf |
| UnityVolumes.XProfile | h5_to_unity_volumes.py:45-47 | entry x tells whether the plane at x holds a mask voxel |
| UnityVolumes.YProfile | h5_to_unity_volumes.py:45-47 | entry y tells whether the plane at y holds a mask voxel |
| UnityVolumes.ZProfile | h5_to_unity_volumes.py:45-47 | entry z tells whether the plane at z holds a mask voxel |
| UnityVolumes.FirstTrue | h5_to_unity_volumes.py:46 | the first true index (the minimum of the coordinates) |
| UnityVolumes.LastTrue | h5_to_unity_volumes.py:47 | the last true index (the maximum of the coordinates) |
| UnityVolumes.BetweenFirstAndLast | h5_to_unity_volumes.py:45-47 | every mask coordinate lies between the minimum and the maximum |
| UnityVolumes.BoxOf | h5_to_unity_volumes.py:45-47 | the bounding box of the mask as a crop record; BoxOfIsTight and BoxHoldsMask state which box it is |
| UnityVolumes.EndsHold | h5_to_unity_volumes.py:46-47 | with a mask voxel present, the minimum and the maximum are themselves mask planes |
| UnityVolumes.BoxHoldsMask | h5_to_unity_volumes.py:45-47 | every mask voxel lies in the box |
| UnityVolumes.MaskedVoxelInBox | h5_to_unity_volumes.py:45-47 | one mask voxel lies in the box |
| UnityVolumes.BoxOfIsTight | h5_to_unity_volumes.py:40-47 | with any mask voxel the box is non-empty, inside the volume, holds every mask voxel, and each of its six faces touches one |
| UnityVolumes.CropBox | h5_to_unity_volumes.py:48 | the cut keeps T, has extents x1-x0, y1-y0, z1-z0 and element (t,x,y,z) = data[t][x0+x][y0+y][z0+z] |
| UnityVolumes.CropFrame | h5_to_unity_volumes.py:48 | one frame of the cut |
| UnityVolumes.PadSpatial | h5_to_unity_volumes.py:54-55 | T kept, every spatial extent grows by 2p, the interior holds the input shifted by p, the border is 0 |
| UnityVolumes.PadFrame | h5_to_unity_volumes.py:54-55 | one frame of the padding |
| UnityVolumes.CropAndCenter | h5_to_unity_volumes.py:32-57 | with no mask voxel the input unchanged and not cropped; otherwise the tight box, pad 2, and the output the box cut out and padded with zeros |
| UnityVolumes.PaddedCropIsCroppedFrom | h5_to_unity_volumes.py:48-55 | padding the cut gives extents x1-x0+4 etc., the box's values in the interior and 0 on the 2-voxel border |
| UnityVolumes.PaddedCropPoint | h5_to_unity_volumes.py:48-55 | the same at one voxel |
| UnityVolumes.CropKeepsUnitRange | h5_to_unity_volumes.py:32-57 | cropping keeps values in [0,1] and keeps T |
| UnityVolumes.CroppedFromKeepsUnitRange | h5_to_unity_volumes.py:48-55 | a box cut out of [0,1] data and padded with zeros stays in [0,1] |
| UnityVolumes.MeanInUnit | h5_to_unity_volumes.py:131 | the mean of n values in [0,1] lies in [0,1] |
| UnityVolumes.AnatomyVolume | h5_to_unity_volumes.py:131-134 | (X,Y,Z) bytes, each the [0,1]-window byte of the voxel's time-mean |
| UnityVolumes.SteadyVoxelAnatomy | h5_to_unity_volumes.py:131-134 | a voxel constant over time shows its value rounded to a byte |
| UnityVolumes.BaselineCount | h5_to_unity_volumes.py:143-147 | N = max(1, min(baselineN, T)) in firstN mode and T in mean mode, always in 1..T |
| UnityVolumes.BaselineMean | h5_to_unity_volumes.py:145-147 | the baseline of [0,1] data lies in [0,1] |
| UnityVolumes.PscPercent | h5_to_unity_volumes.py:152 | the percent change is 0 at the baseline, positive above and negative below it |
| UnityVolumes.PscUnit | h5_to_unity_volumes.py:155-156 | the mapped change lies in [0,1] |
| UnityVolumes.PscVolume | h5_to_unity_volumes.py:152-162 | frame t has shape (X,Y,Z), each byte the [0,1]-window byte of the mapped change |
| UnityVolumes.SteadyVoxelIsMidGray | h5_to_unity_volumes.py:145-162 | for any non-zero `--psc_range`, a voxel constant over time is byte 128 in every PSC frame |
| UnityVolumes.PscNamesDistinct | h5_to_unity_volumes.py:160 | different time points give different PSC file names |
| UnityVolumes.ToFileBytes | h5_to_unity_volumes.py:162 | as written: `tofile` of an (X,Y,Z) array gives X*Y*Z bytes with voxel (x,y,z) at offset (x*Y + y)*Z + z |
| UnityVolumes.WrittenVolumeIsNotXFastest | h5_to_unity_volumes.py:162-179 | read x-fastest as the manifest announces, the written volume's voxel (1,0,0) is the input's (0,0,1) |
| UnityVolumes.WrittenVolumeCounterexample | h5_to_unity_volumes.py:162-179 | a 2x1x2 volume whose voxel (1,0,0) holds 2 reads back 1 there |
| UnityVolumes.XFastestBytes | h5_to_unity_volumes.py:162-179 | corrected writer: X*Y*Z bytes in x-fastest order |
| UnityVolumes.XFastestBytesReadBack | h5_to_unity_volumes.py:162-179 | read x-fastest, the corrected bytes give back every voxel |
| UnityVolumes.PscFiles | h5_to_unity_volumes.py:159-163 | one file per time point, named psc_NNNN.vol, holding ToFileBytes of PSC frame t |
| UnityVolumes.PscEntries | h5_to_unity_volumes.py:159-163 | the manifest lists each frame's file with its index, in ascending t |
| UnityVolumes.WritePscFrames | h5_to_unity_volumes.py:159-163 | the loop writes exactly those files and entries, in ascending t |
| UnityVolumes.PscFramesListed | h5_to_unity_volumes.py:159-163 | entry t lists file t under index t, no other file has its name, and file t holds PSC frame t in C order (z fastest) |
| UnityVolumes.Oriented | h5_to_unity_volumes.py:76-97 | orienting and striding keep the time extent the heuristic chose |
| UnityVolumes.OrientedEmpty | h5_to_unity_volumes.py:80-97 | moving axes and striding empty an axis exactly when the input has an empty one |
| UnityVolumes.CeilDivZero | h5_to_unity_volumes.py:96 | striding empties an axis exactly when it was empty |
| UnityVolumes.Staged | h5_to_unity_volumes.py:76-128 | fails exactly for an empty axis (no percentile of nothing); otherwise values in [0,1], at least one frame, and without cropping the oriented shape and no crop record |
| UnityVolumes.StagedStages | h5_to_unity_volumes.py:118-128 | the staged data is the oriented data through its percentile window, cropped and centred when asked |
| UnityVolumes.OutputOf | h5_to_unity_volumes.py:130-184 | the manifest describes the files: anatomy under its name holding ToFileBytes of the anatomy volume, one PSC file per time point exactly when PSC is on, listed in order, X*Y*Z bytes each, all names different; dims, T, TR, range, crop record as computed |
| UnityVolumes.PscFilesDescribed | h5_to_unity_volumes.py:159-181 | every PSC file has X*Y*Z bytes, differs from the anatomy's name and from every other PSC file's |
| UnityVolumes.PscFileSize | h5_to_unity_volumes.py:159-162 | a PSC file has X*Y*Z bytes |
| UnityVolumes.PscNameNotAnatomy | h5_to_unity_volumes.py:135-160 | no PSC file overwrites the anatomy file |
| UnityVolumes.Converted | h5_to_unity_volumes.py:74-186 | fails exactly for an empty axis; otherwise the output files and manifest of the staged data and the looked-up TR |
| UnityVolumes.OutputReadsBack | h5_to_unity_volumes.py:130-179 | the manifest dims are the anatomy's, and the anatomy and every PSC file hold their volumes in C order (z fastest) |
| UnityVolumes.AnatomyFileMisread | h5_to_unity_volumes.py:130-179 | in every output whose volume has at least two voxels along x and along z, a reader following the manifest's "x_fastest" takes the anatomy's voxel (1,0,0) from the byte holding its voxel (0,0,1) |
| UnityVolumes.ConvertFile | h5_to_unity_volumes.py:74-186 | the largest numeric 4-D dataset is chosen, the first visited among equally large ones (the strict `>`); none fails; the output is that of the chosen dataset |
| UnityVolumes.ConvertDataset | h5_to_unity_volumes.py:76-186 | the steps of `main` compute Converted |
| UnityVolumes.StageDataset | h5_to_unity_volumes.py:76-128 | the steps up to the crop compute Staged |
| UnityVolumes.WriteOutputs | h5_to_unity_volumes.py:130-186 | the writes compute OutputOf |
| Intensity.Clip | export_h5_to_mhd.py:152 | `np.clip`: the value inside the range, the nearer end outside it |
| Intensity.ClipMonotone | export_h5_to_mhd.py:152 | clipping keeps the order of values |
| Intensity.TruncToByte | export_h5_to_mhd.py:156 | `astype(uint8)` of a value in [0,255] is its integer part |
| Intensity.TruncToByteMonotone | export_h5_to_mhd.py:156 | truncation keeps the order of values |
| Intensity.RoundToByte | h5_to_unity_volumes.py:29-30 | `(clip(v,0,1)*255 + 0.5).astype(uint8)` is within 0.5 of the scaled value, 0 at or below 0 and 255 at or above 1 |
| Paths.StemSuffixSplit | python-utils/convert_fmri.py:73-74 | `stem + suffix` is the name, and the suffix is empty or a dot followed by no dot |
| Paths.StemOfExtension | python-utils/convert_fmri.py:73-75 | "base.ext" has stem "base" and suffix ".ext" |
| Text.Lower | h5_to_unity_volumes.py:106 | lowercasing acts character by character, on ASCII letters only ('A'..'Z' become 'a'..'z'; every other character is kept) |
| Text.RemoveAll | python-utils/convert_fmri.py:75 | `str.replace(pat, "")` never lengthens |
| Text.RemoveAllAbsent | python-utils/convert_fmri.py:75 | removing an absent pattern changes nothing |
| Text.RemoveAllSuffix | python-utils/convert_fmri.py:75 | removing ".nii" from "s.nii", s free of it, gives s |
| Text.Split | export_h5_to_mhd.py:151 | `str.split(c)` gives at least one part, none holding c |
| Text.SplitJoin | export_h5_to_mhd.py:151 | splitting parts joined by c gives the parts back |
| Text.NatToDecimal | export_h5_to_mhd.py:66 | `str(n)` of a natural number is a non-empty string of digits |
| Text.DecimalRoundTrip | export_h5_to_mhd.py:66 | the digits of n read back as n |
| Text.ZeroPad4 | export_h5_to_mhd.py:57 | `{:04d}` gives digits only |
| Text.ZeroPad4RoundTrip | export_h5_to_mhd.py:57 | the padded digits read back as the index |
| Text.ZeroPad4Width | export_h5_to_mhd.py:57 | at least 4 digits, exactly 4 below 10000 |
| Text.ParseInt | python-utils/read_fmri.py:119-121 | `int(s)` of an ASCII string succeeds exactly on an optional sign followed by digits with single underscores only between two digits; the value is that of the digits, negated after "-" |
| Text.UnderscoresGroupDigits | python-utils/read_fmri.py:119-121 | `int("1_000")` is 1000 |
| Text.MisplacedUnderscores | python-utils/read_fmri.py:119-121 | `int()` raises on "_1", "1_" and "1__0" |
| Text.ParsePlain | python-utils/read_fmri.py:119-121 | `int(d)` of a non-empty string of ASCII digits is their decimal value |
| Text.ParseNegated | python-utils/read_fmri.py:119-121 | `int("-" + d)` of a non-empty string of ASCII digits is their value negated |
| Text.IntRoundTrip | python-utils/read_fmri.py:119-121 | `int(str(n)) == n` |
| Tensor.Offset4Bound | python-utils/nii2unity.py:200-209 | the C-order offset of an in-range index is below T*X*Y*Z |
| Tensor.Offset4Injective | python-utils/nii2unity.py:200-209 | different in-range indices have different C-order offsets |
| Tensor.Flatten4Layout | python-utils/nii2unity.py:119-120 | the C-order dump has T*X*Y*Z values with element (t,x,y,z) at offset ((t*X+x)*Y+y)*Z+z |
| Tensor.Transposed | python-utils/nii2unity.py:69 | `np.transpose(a, p)` has shape s[p[k]] on axis k and each element picked from the input through p |
| Tensor.TransposedTwice | export_h5_to_mhd.py:116-128 | two transposes in a row are one transpose by the composed permutation |
| Tensor.ComposePerm | export_h5_to_mhd.py:116-128 | composing two permutations of 0..3 gives one, entry k being p[q[k]] |
| Tensor.Transpose4 | python-utils/nii2unity.py:69 | on nested sequences: the permuted shape and each element picked through p |
| Tensor.TransposeTwice | export_h5_to_mhd.py:116-128 | the permuted shape and every element of two transposes are those of the composed one |
| Tensor.FrontPerm | export_h5_to_mhd.py:115 | `[axis] + [i for i in range(n) if i != axis]`: axis first, every axis once, the rest ascending |
| Tensor.FrontPermIsPerm4 | export_h5_to_mhd.py:115 | that list for four axes is a permutation |
| Tensor.LastAxisToFront | h5_to_unity_volumes.py:82 | moving the last axis to the front gives shape (s3,s0,s1,s2) and element (t,x,y,z) = a[x][y][z][t] |
| Tensor.CeilDivExact | h5_to_unity_volumes.py:96 | index i survives a stride of f exactly when i*f < d |
| Tensor.Stride3 | h5_to_unity_volumes.py:96 | `vol[::f, ::f, ::f]` has extents ceil(d/f) and element (i,j,k) = vol[i*f][j*f][k*f] |
| Tensor.Reverse3 | export_h5_to_mhd.py:55 | `transpose(2,1,0)` reverses the shape and the index order |
| Tensor.Reverse3FlatAt | export_h5_to_mhd.py:55-61 | in the C-order dump of the reversed array, voxel a[i][j][k] sits at offset (k*d1 + j)*d0 + i |
| Base.MaxReal | export_h5_to_mhd.py:155 | Python's `max` of two floats is at least both and one of them |

## Left out

- File and library I/O: nibabel, h5py, `np.save`, `savemat`, `tofile`, `json.dump`, MetaImage and `.vol` writing, directory creation. Whether loading or writing succeeds, and what was read, are parameters. The model gives every file's name. Its content is modelled for the `.bytes` dump, the MetaImage frames and headers, the `.vol` files and the two manifests. It is not modelled for the `.npy` and `.mat` files or the metadata JSON text.
- NiiToUnity.SaveFormats: of the metadata it records the shape, dtype, dimensions, voxel size and time step, and of the `.mat` file's `data_info` the voxel size and time step. It does not model the `data_stats` values (min, max, mean, std), the fixed description and `file_info` strings, or the array stored in the `.npy` and `.mat` files.
- ConvertFmri.ProcessFmri: the HDF5 attributes taken from the header (`voxel_dimensions`, `data_type`, the affine and `header_info`) and the statistics group are not modelled. A failure while writing any of them is the `writeSucceeds` parameter.
- `print` output, the compression-ratio report and matplotlib plotting are not modelled. The previews' `np.min` is modelled only as far as it raises on an empty volume (Nifti.PreviewRaises), and so is the metadata's `np.min` in `save_formats`. The values those statistics print are not modelled.
- Floating point: values are `real`; float32 conversion (`astype(np.float32)`, `Buffer.BlockCopy`, `fileBytes.Length / 4`) is not modelled, and the `.bytes` file is a sequence of values.
- `np.percentile` and Python's `float()` on a string are parameters (`percentile`, `toFloat`), so their numerics are not modelled.
- The EPS guards are modelled as written: `np.where(|b| < EPS, EPS, b)`, `max(hi - lo, EPS)`, `+ 1e-6`. Division by an exact zero is not: a `--psc_range` of 0 yields NaN in numpy and an undefined byte after `astype(uint8)`.
- UnityVolumes.OutputOf: requires `--psc_range` to be non-zero when PSC is on, for the reason just given; the same precondition is carried by Converted, OutputReadsBack, ConvertFile, ConvertDataset and WriteOutputs.
- UnityLoader.FMRILoader.LoadFMRIData: requires the file to hold at least T*X*Y*Z values. The generated C# does not check the length, and a shorter file ends in an index exception, which is not modelled.
- Unity runtime calls in the generated script (`Application.streamingAssetsPath`, `File.Exists`, `Debug.Log`, `Start`) are not modelled; file presence is a boolean parameter. The f-string emission of the C# text is not modelled either: the class models the logic inside it, and `SaveFormats` models the file name and shape filled into it.
- Text.ParseInt: models `int()` on ASCII text only. Python also accepts the digits of other scripts (any Unicode decimal digit), which the model refuses.
- Text.Lower: lowercases ASCII letters only. Python's `str.lower` also lowers letters of other scripts, which the model keeps as they are. Only the candidate-name ranking and the TR key match use it, with ASCII patterns.
- ExportMhd.Lookup: of HDF5's path syntax it models only the leading slashes. Repeated or trailing slashes inside a path, `.` components, and soft or external links are compared as plain text.
- `pathlib` is modelled only for the simple cases the scripts meet (`stem` and `suffix` at the last dot). `glob` matching is replaced by its result, a sequence of matched files.
- ExportMhd.Prepared: states which inputs fail and that the result is a valid array, not the reordering itself. ReorderedIsTimeZyx and the Scaled, DownsampledFrames and BlockReduceMean contracts state the rest.
- `load_and_inspect_hdf5` and `load_unity_format` only read files back and print them; they are not part of this model.
- In `main` of the MetaImage exporter, `--baseline` and `--dtype` each admit a single choice, so they are not options of the model. The placeholder `ds_vols` array is never used.
- The visitor of `find_4d_dataset` is modelled as the sequence of datasets in visiting order.

## Findings

| source | as written | input that shows it | evidently intended | confidence | as-written member | corrected member |
|---|---|---|---|---|---|---|
| export_h5_to_mhd.py:53-61 | the frame is written as the C-order dump of the (X,Y,Z) transpose, so z varies fastest, while the header declares `DimSize = X Y Z`, which MetaImage reads with x fastest | a frame with Z=2, Y=1, X=2 and values [[[0,1]],[[2,3]]] (vol[z][y][x]): a MetaImage reader finds 2 at voxel x=1, where the input holds 1 | the raw buffer in x-fastest order, as the comment at line 54 says and the header announces | not executed | ExportMhd.WrittenFrameCounterexample | ExportMhd.XFastestFrameReadsBack |
| h5_to_unity_volumes.py:162-179 | the `.vol` files are `tofile` dumps of (X,Y,Z) arrays, so z varies fastest, while the manifest declares `"byte_order": "x_fastest"` | a volume with X=2, Y=1, Z=2 and values [[[0,1]],[[2,3]]] (vol[x][y][z]): a reader following the manifest finds 1 at voxel x=1, where the input holds 2 | the bytes in x-fastest order, as the manifest says | not executed | UnityVolumes.WrittenVolumeCounterexample | UnityVolumes.XFastestBytesReadBack |

The as-written writers are ExportMhd.WriteMhdRaw and UnityVolumes.ToFileBytes, and the pipelines are built on them: ExportMhd.FramesOf, ExportOf and the methods computing them, and UnityVolumes.PscFiles, OutputOf and the methods computing them. ExportMhd.FramesReadBack and UnityVolumes.OutputReadsBack state what those files hold, which is z fastest. WrittenFrameIsNotXFastest and WrittenVolumeIsNotXFastest state the misreading for every volume with at least two voxels along both swapped axes. ExportMhd.ExportedFrameMisread and UnityVolumes.AnatomyFileMisread state it for the exporters' own outputs. The corrected writers are ExportMhd.WriteMhdRawXFastest (used by XFastestFramesOf, with XFastestFramesReadBack) and UnityVolumes.XFastestBytes (with XFastestBytesReadBack).
