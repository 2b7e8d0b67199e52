/** Values shared by the preprocessor and the three commands: results and
    errors, vectors, and the dense matrix the centroids are stored in. */
module Common {

  datatype Option<+T> = None | Some(value: T)

  datatype Result<+T> = Ok(value: T) | Err(error: Error)

  /** The failures the commands can end with. */
  datatype Error =
    | InvalidPattern(pattern: string)  // a rule pattern that is not a valid regular expression
    | EmbedderFailure                  // the embedding model could not produce vectors
    | ShapeMismatch                    // blocks or vectors of different widths were combined
    | EmptyInput                       // a distance was asked between zero-length vectors
    | NoClustersFound                  // clustering labelled every point as noise

  /** One embedding or centroid. Floating-point rounding is not modelled. */
  type Vector = seq<real>

  /** A two-dimensional array: a column count and its rows. As in an
      ndarray `Array2`, the column count is part of the value even when
      there are no rows. */
  datatype Matrix = Matrix(cols: nat, rows: seq<Vector>)

  /** Every row has exactly `cols` entries. */
  predicate WellShaped(m: Matrix)
  {
    forall v :: v in m.rows ==> |v| == m.cols
  }

  /** The sentence embedder: one row per sentence of the batch, or a failure. */
  type Embedder = seq<string> -> Option<Matrix>

  /** What the embedder promises its callers: as many rows as sentences, all
      of the same width. */
  ghost predicate EmbedderContract(embed: Embedder)
  {
    forall batch :: embed(batch).Some? ==>
      |embed(batch).value.rows| == |batch| && WellShaped(embed(batch).value)
  }

  /** All rows laid end to end, as a tensor's `flatten_all` gives them. */
  function Flatten(rows: seq<Vector>): (r: Vector)
    ensures |rows| > 0 ==> |rows[0]| <= |r| && r[..|rows[0]|] == rows[0]
    ensures |rows| == 1 ==> r == rows[0]
  {
    if |rows| == 0 then [] else rows[0] + Flatten(rows[1..])
  }
}
