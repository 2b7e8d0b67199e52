/** The `retrain` command: every line of a backlog file becomes one new
    centroid, appended after the existing ones. */
module Retraining {
  import opened Common
  import opened Preprocessing
  import opened Training

  /** Two blocks concatenated along the rows: the first block's rows, then
      the second's. */
  lemma RowsOfTwo(first: Matrix, second: Matrix)
    ensures AllRows([first, second]) == first.rows + second.rows
  {
    assert [first, second][1..] == [second];
    assert [second][1..] == [];
    assert AllRows([second]) == second.rows + AllRows([]);
    assert second.rows + [] == second.rows;
  }

  /** `retrain`: preprocess every line, embed them all in one batch and
      append the new rows to the existing matrix. `Ok(None)` means the
      backlog was empty and nothing is saved; `Ok(Some(m))` is the matrix
      that is saved. */
  method Retrain(existing: Matrix, lines: seq<string>, pre: LogPreprocessor, replaceAll: ReplaceAll,
                 embed: Embedder)
    returns (r: Result<Option<Matrix>>)
    ensures r == Ok(None) <==> lines == []
    ensures lines != [] ==>
      match embed(Preprocessed(pre, lines, replaceAll))
      case None => r == Err(EmbedderFailure)
      case Some(added) =>
        (added.cols == existing.cols ==> r == Ok(Some(Matrix(existing.cols, existing.rows + added.rows)))) &&
        (added.cols != existing.cols ==> r == Err(ShapeMismatch))
    ensures EmbedderContract(embed) && r.Ok? && r.value.Some? ==>
      var saved := r.value.value;
      saved.cols == existing.cols &&
      |saved.rows| == |existing.rows| + |lines| &&
      saved.rows[..|existing.rows|] == existing.rows &&
      (WellShaped(existing) ==> WellShaped(saved))
  {
    var sentences: seq<string> := [];
    for i := 0 to |lines|
      invariant sentences == Preprocessed(pre, lines[..i], replaceAll)
    {
      var message := Preprocess(pre, lines[i], replaceAll);
      sentences := sentences + [message];
      assert sentences == Preprocessed(pre, lines[..i + 1], replaceAll);
    }
    assert lines[..|lines|] == lines;
    if sentences == [] {
      return Ok(None);
    }
    var embedded := embed(sentences);
    if embedded.None? {
      return Err(EmbedderFailure);
    }
    var added := embedded.value;
    var updated := ConcatRows([existing, added]);
    if updated.Err? {
      return Err(updated.error);
    }
    RowsOfTwo(existing, added);
    assert updated.value.rows[..|existing.rows|] == existing.rows;
    return Ok(Some(updated.value));
  }
}
