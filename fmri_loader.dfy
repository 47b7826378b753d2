/**
 * The `FMRILoader` component that the converter generates for Unity: it
 * reads the `.bytes` dump into a (t,x,y,z) array with four nested loops and
 * a running index, and answers bounds-checked voxel, time-series and
 * time-slice queries, with 0 for anything out of range or not loaded.
 *
 * The file system is a parameter: whether the file exists, and its
 * contents already decoded into one value per float32.
 */
module UnityLoader {
  import opened Tensor
  import NiiToUnity

  class FMRILoader {
    const dataFileName: string
    const timePoints: nat
    const xSize: nat
    const ySize: nat
    const zSize: nat

    var fmriData: array4?<real>
    var dataLoaded: bool

    /** The shape the loader was generated for, as (t, x, y, z). */
    function Shape(): seq<nat> {
      [timePoints, xSize, ySize, zSize]
    }

    /** Once loaded, the array has the generated shape. */
    ghost predicate Valid()
      reads this
    {
      dataLoaded ==>
        && fmriData != null
        && fmriData.Length0 == timePoints && fmriData.Length1 == xSize
        && fmriData.Length2 == ySize && fmriData.Length3 == zSize
    }

    predicate InBounds(timePoint: int, x: int, y: int, z: int) {
      0 <= timePoint < timePoints && 0 <= x < xSize && 0 <= y < ySize && 0 <= z < zSize
    }

    /** The generated script: file name and shape filled in, nothing loaded. */
    constructor (fileNameBase: string, shape: seq<nat>)
      requires |shape| == 4
      ensures dataFileName == fileNameBase + "_unity.bytes"
      ensures Shape() == shape
      ensures fmriData == null && !dataLoaded
      ensures Valid()
    {
      dataFileName := fileNameBase + "_unity.bytes";
      timePoints, xSize, ySize, zSize := shape[0], shape[1], shape[2], shape[3];
      fmriData := null;
      dataLoaded := false;
    }

    /**
     * `LoadFMRIData`. A missing file changes nothing. Otherwise a fresh
     * array is filled in C order, element (t,x,y,z) taking value number
     * Offset4((T,X,Y,Z), t, x, y, z) of the file, and only then is the data
     * marked as loaded. The script does not check the file's length; a file
     * shorter than T*X*Y*Z values makes it fail with an index error.
     */
    method LoadFMRIData(fileExists: bool, floats: seq<real>)
      requires Valid()
      requires fileExists ==> |floats| >= timePoints * xSize * ySize * zSize
      modifies this
      ensures Valid()
      ensures !fileExists ==> fmriData == old(fmriData) && dataLoaded == old(dataLoaded)
      ensures fileExists ==> dataLoaded && fresh(fmriData)
      ensures fileExists ==> forall t, x, y, z :: InBounds(t, x, y, z) ==>
        Offset4(Shape(), t, x, y, z) < |floats| &&
        fmriData[t, x, y, z] == floats[Offset4(Shape(), t, x, y, z)]
    {
      if fileExists {
        var a := new real[timePoints, xSize, ySize, zSize];
        fmriData := a;
        var s := Shape();
        var index := 0;
        for t := 0 to timePoints
          invariant fmriData == a
          invariant index == Offset4(s, t, 0, 0, 0)
          invariant forall t', x', y', z' :: 0 <= t' < t && 0 <= x' < xSize && 0 <= y' < ySize && 0 <= z' < zSize ==>
            Offset4(s, t', x', y', z') < |floats| && a[t', x', y', z'] == floats[Offset4(s, t', x', y', z')]
        {
          for x := 0 to xSize
            invariant fmriData == a
            invariant index == Offset4(s, t, x, 0, 0)
            invariant forall t', x', y', z' :: 0 <= t' < t && 0 <= x' < xSize && 0 <= y' < ySize && 0 <= z' < zSize ==>
              Offset4(s, t', x', y', z') < |floats| && a[t', x', y', z'] == floats[Offset4(s, t', x', y', z')]
            invariant forall x', y', z' :: 0 <= x' < x && 0 <= y' < ySize && 0 <= z' < zSize ==>
              Offset4(s, t, x', y', z') < |floats| && a[t, x', y', z'] == floats[Offset4(s, t, x', y', z')]
          {
            for y := 0 to ySize
              invariant fmriData == a
              invariant index == Offset4(s, t, x, y, 0)
              invariant forall t', x', y', z' :: 0 <= t' < t && 0 <= x' < xSize && 0 <= y' < ySize && 0 <= z' < zSize ==>
                Offset4(s, t', x', y', z') < |floats| && a[t', x', y', z'] == floats[Offset4(s, t', x', y', z')]
              invariant forall x', y', z' :: 0 <= x' < x && 0 <= y' < ySize && 0 <= z' < zSize ==>
                Offset4(s, t, x', y', z') < |floats| && a[t, x', y', z'] == floats[Offset4(s, t, x', y', z')]
              invariant forall y', z' :: 0 <= y' < y && 0 <= z' < zSize ==>
                Offset4(s, t, x, y', z') < |floats| && a[t, x, y', z'] == floats[Offset4(s, t, x, y', z')]
            {
              for z := 0 to zSize
                invariant fmriData == a
                invariant index == Offset4(s, t, x, y, z)
                invariant forall t', x', y', z' :: 0 <= t' < t && 0 <= x' < xSize && 0 <= y' < ySize && 0 <= z' < zSize ==>
                  Offset4(s, t', x', y', z') < |floats| && a[t', x', y', z'] == floats[Offset4(s, t', x', y', z')]
                invariant forall x', y', z' :: 0 <= x' < x && 0 <= y' < ySize && 0 <= z' < zSize ==>
                  Offset4(s, t, x', y', z') < |floats| && a[t, x', y', z'] == floats[Offset4(s, t, x', y', z')]
                invariant forall y', z' :: 0 <= y' < y && 0 <= z' < zSize ==>
                  Offset4(s, t, x, y', z') < |floats| && a[t, x, y', z'] == floats[Offset4(s, t, x, y', z')]
                invariant forall z' :: 0 <= z' < z ==>
                  Offset4(s, t, x, y, z') < |floats| && a[t, x, y, z'] == floats[Offset4(s, t, x, y, z')]
              {
                Offset4Bound(s, t, x, y, z);
                a[t, x, y, z] := floats[index];
                index := index + 1;
              }
              Offset4Carry3(s, t, x, y);
            }
            Offset4Carry2(s, t, x);
          }
          Offset4Carry1(s, t);
        }
        dataLoaded := true;
      }
    }

    /** `GetVoxelValue`: the stored value, or 0 when nothing is loaded or a coordinate is out of range. */
    function GetVoxelValue(timePoint: int, x: int, y: int, z: int): (v: real)
      requires Valid()
      reads this, fmriData
      ensures !dataLoaded || !InBounds(timePoint, x, y, z) ==> v == 0.0
      ensures dataLoaded && InBounds(timePoint, x, y, z) ==> v == fmriData[timePoint, x, y, z]
    {
      if !dataLoaded || !InBounds(timePoint, x, y, z) then 0.0
      else fmriData[timePoint, x, y, z]
    }

    /** `GetVoxelTimeSeries`: a fresh array of T values, entry t being GetVoxelValue(t, x, y, z). */
    method GetVoxelTimeSeries(x: int, y: int, z: int) returns (timeSeries: array<real>)
      requires Valid()
      ensures fresh(timeSeries) && timeSeries.Length == timePoints
      ensures forall t :: 0 <= t < timePoints ==> timeSeries[t] == GetVoxelValue(t, x, y, z)
      ensures !(0 <= x < xSize && 0 <= y < ySize && 0 <= z < zSize) ==>
        forall t :: 0 <= t < timePoints ==> timeSeries[t] == 0.0
    {
      timeSeries := new real[timePoints];
      for t := 0 to timePoints
        invariant forall t' :: 0 <= t' < t ==> timeSeries[t'] == GetVoxelValue(t', x, y, z)
      {
        timeSeries[t] := GetVoxelValue(t, x, y, z);
      }
    }

    /** `GetTimeSlice`: a fresh X*Y*Z array of GetVoxelValue(timePoint, ., ., .). */
    method GetTimeSlice(timePoint: int) returns (timeSlice: array3<real>)
      requires Valid()
      ensures fresh(timeSlice)
      ensures timeSlice.Length0 == xSize && timeSlice.Length1 == ySize && timeSlice.Length2 == zSize
      ensures forall x, y, z :: 0 <= x < xSize && 0 <= y < ySize && 0 <= z < zSize ==>
        timeSlice[x, y, z] == GetVoxelValue(timePoint, x, y, z)
      ensures !(0 <= timePoint < timePoints) ==>
        forall x, y, z :: 0 <= x < xSize && 0 <= y < ySize && 0 <= z < zSize ==> timeSlice[x, y, z] == 0.0
    {
      timeSlice := new real[xSize, ySize, zSize];
      for x := 0 to xSize
        invariant forall x', y', z' :: 0 <= x' < x && 0 <= y' < ySize && 0 <= z' < zSize ==>
          timeSlice[x', y', z'] == GetVoxelValue(timePoint, x', y', z')
      {
        for y := 0 to ySize
          invariant forall x', y', z' :: 0 <= x' < x && 0 <= y' < ySize && 0 <= z' < zSize ==>
            timeSlice[x', y', z'] == GetVoxelValue(timePoint, x', y', z')
          invariant forall y', z' :: 0 <= y' < y && 0 <= z' < zSize ==>
            timeSlice[x, y', z'] == GetVoxelValue(timePoint, x, y', z')
        {
          for z := 0 to zSize
            invariant forall x', y', z' :: 0 <= x' < x && 0 <= y' < ySize && 0 <= z' < zSize ==>
              timeSlice[x', y', z'] == GetVoxelValue(timePoint, x', y', z')
            invariant forall y', z' :: 0 <= y' < y && 0 <= z' < zSize ==>
              timeSlice[x, y', z'] == GetVoxelValue(timePoint, x, y', z')
            invariant forall z' :: 0 <= z' < z ==>
              timeSlice[x, y, z'] == GetVoxelValue(timePoint, x, y, z')
          {
            timeSlice[x, y, z] := GetVoxelValue(timePoint, x, y, z);
          }
        }
      }
    }
  }

  /** The running index after the last z of row (t, x, y) is the start of row (t, x, y + 1). */
  lemma Offset4Carry3(s: seq<nat>, t: nat, x: nat, y: nat)
    requires |s| == 4
    ensures Offset4(s, t, x, y, s[3]) == Offset4(s, t, x, y + 1, 0)
  {
    var a := (t * s[1] + x) * s[2] + y;
    assert a * s[3] + s[3] == (a + 1) * s[3];
  }

  lemma Offset4Carry2(s: seq<nat>, t: nat, x: nat)
    requires |s| == 4
    ensures Offset4(s, t, x, s[2], 0) == Offset4(s, t, x + 1, 0, 0)
  {
    var a := t * s[1] + x;
    assert a * s[2] + s[2] == (a + 1) * s[2];
  }

  lemma Offset4Carry1(s: seq<nat>, t: nat)
    requires |s| == 4
    ensures Offset4(s, t, s[1], 0, 0) == Offset4(s, t + 1, 0, 0, 0)
  {
    assert t * s[1] + s[1] == (t + 1) * s[1];
  }

  /**
   * The two halves together: the loader generated for a converted array,
   * given the `.bytes` file written for it, answers every in-range query
   * with the element of the (t,x,y,z) array.
   */
  method LoadConverted(unity: Array4<real>, base: string) returns (loader: FMRILoader)
    requires unity.Valid()
    ensures fresh(loader) && loader.Valid() && loader.dataLoaded
    ensures loader.Shape() == unity.shape
    ensures loader.dataFileName == NiiToUnity.BytesName(base)
    ensures forall t, x, y, z :: loader.InBounds(t, x, y, z) ==>
      loader.GetVoxelValue(t, x, y, z) == unity.cells[t][x][y][z]
  {
    loader := new FMRILoader(base, unity.shape);
    loader.LoadFMRIData(true, NiiToUnity.BytesDump(unity));
  }
}
