/**
 * What the exporters see of an HDF5 file: its attributes and its datasets
 * in the order `visititems` visits them. A dataset of rank 4 carries its
 * elements (already read as reals); the rest are described only by name,
 * shape and whether their element type is numeric.
 */
module Hdf5 {
  import opened Tensor

  /** An attribute value, as far as `float(val)` / `float(val[0])` can read it. */
  datatype AttrValue =
    | Scalar(v: real)          // `np.ndim(val) == 0` and numeric
    | Vector(vs: seq<real>)    // a numeric array
    | NonNumeric               // anything `float` refuses

  /** An attribute; a key stored as bytes is given here already decoded. */
  datatype Attr = Attr(key: string, value: AttrValue)

  datatype Dataset = Dataset(name: string, shape: seq<nat>, numeric: bool, cells: Arr4<real>, attrs: seq<Attr>) {
    predicate WellFormed() {
      |shape| == 4 ==> HasShape4(cells, shape)
    }

    /** `np.prod(shape)`. */
    function Size(): nat {
      Product(shape)
    }

    function AsArray(): (r: Array4<real>)
      requires WellFormed() && |shape| == 4
      ensures r.Valid() && r.shape == shape && r.cells == cells
    {
      Array4(shape, cells)
    }
  }

  datatype File = File(attrs: seq<Attr>, datasets: seq<Dataset>) {
    predicate WellFormed() {
      forall k :: 0 <= k < |datasets| ==> datasets[k].WellFormed()
    }
  }
}
