# railog: a verified model of training, ingestion and the log preprocessor

railog learns templates of log lines. It embeds log lines as vectors. `train`
clusters those vectors with DBSCAN and keeps one centroid per cluster.
`ingest` matches new lines against the centroids. A matched line nudges its
centroid; an unmatched line is appended to an "unmatched" file. `retrain`
turns the unmatched backlog into new centroids. Before any embedding, every
line is normalised by a `LogPreprocessor` that applies regex rules read
from a rule file.

This project models that control and bookkeeping logic in Dafny and proves
its properties. The modules are:

- `common.dfy` (`Common`) holds the shared types. It defines results and
  errors, `Vector = seq<real>`, and `Matrix(cols, rows)`. Like ndarray's
  `Array2`, a `Matrix` keeps its column count even when it has no rows. The
  embedder is a function `seq<string> -> Option<Matrix>`.
- `preprocessing.dfy` (`Preprocessing`) models `LogPreprocessor::new` and
  `preprocess`.
  - Line classification: a comment starts with `#` at column 0, and a
    blank line is empty or Unicode white space only.
  - A line is split at its first ` :: `.
  - The rule-file loop stops at the first pattern that does not compile.
  - Rules are applied in order, each one's `replace_all` feeding the next.
  - Regex compilation and `replace_all` are given as functions.
- `training.dfy` (`Training`) models `train`.
  - The batching loop reads 1024 lines at a time and stops at the first
    empty batch.
  - Embedding blocks are concatenated row-wise.
  - Points are grouped by their DBSCAN label into `cluster_map`, and noise
    points are counted.
  - No cluster at all is an error.
  - Each group is reduced to its coordinate-wise mean.
  - DBSCAN is a given labelling function. The order of the `HashMap`
    iteration is a nondeterministic choice, recorded in a ghost `order`.
- `ingestion.dfy` (`Ingestion`) models `ingest`.
  - `Step` and `Run` specify the per-record state machine: the time gate,
    deduplication, the first-minimum nearest-centroid scan, the threshold
    decision, and the in-place update `c += (v - c) * lr` or the appended
    unmatched line.
  - The class `Ingestor` holds the run's state and is proved against
    `Step`. Its fields are the centroid `array2<real>`, the `seen` set, the
    two counters and the unmatched output.
  - The method `Ingest` drives it over the records and is proved against
    `Run`.
- `retraining.dfy` (`Retraining`) models `retrain`. The new rows are
  appended after the existing ones. An empty backlog saves nothing, and a
  width mismatch is an error.

A command's result stands for what it saves:
- `Trained(m, _)` from `Train` means `m` is written.
- `Completed(m, ...)` from `Ingest` means `m` is written.
- `Ok(Some(m))` from `Retrain` means `m` is written.
- `NoInput`, `Ok(None)`, `Aborted` and `Err` mean nothing is written.

Where the doc comment of `LogPreprocessor::new` (src/preprocessing.rs:13-14)
and its code disagree, the model follows the code. The doc comment says a
line reads `regex :: replacement` and that lines starting with `#` and
empty lines are ignored. The code (src/preprocessing.rs:26-32) differs in
four ways the model keeps:
- a line of white space only is skipped too, since the test is
  `line.trim().is_empty()`;
- the line is split at its first ` :: `, and any later ` :: ` stays inside
  the replacement;
- a line without a separator is not an error: it is dropped silently;
- a line that starts with white space and then `#` is not a comment.

## Model

| member | source | states |
|---|---|---|
| Preprocessing.FindSeparator | src/preprocessing.rs:29 | the position found is the first occurrence of ` :: ` at or after the start; none is found exactly when no position holds one |
| Preprocessing.ParseLineSpec | src/preprocessing.rs:26-32 | a line yields a rule iff it is neither a comment (first character `#`) nor blank after trimming, and it reads pattern + ` :: ` + replacement with no separator inside the pattern; it yields nothing iff it is a comment, blank, or has no separator |
| Preprocessing.CommentExamples | src/preprocessing.rs:26 | `# a :: b` yields no rule; ` # a :: b`, with a leading space, is an ordinary rule line |
| Preprocessing.SplitExample | src/preprocessing.rs:29-32 | `a :: b :: c` splits at the first separator into pattern `a` and replacement `b :: c` |
| Preprocessing.DroppedExamples | src/preprocessing.rs:26-30 | a line with no separator and a whitespace-only line yield no rule and no error |
| Preprocessing.RuleLine | src/preprocessing.rs:29-32 | a line pattern + ` :: ` + replacement, whose pattern has no space and does not begin with `#` or white space, yields exactly that rule |
| Preprocessing.Accepted | src/preprocessing.rs:23-35 | the accepted rules, one per accepted line, are never more than the lines |
| Preprocessing.AcceptedAppend | src/preprocessing.rs:24-34 | the accepted rules of two consecutive parts of a file are those of the first part followed by those of the second: file order is kept |
| Preprocessing.FirstInvalid | src/preprocessing.rs:31 | nothing is found iff every pattern compiles; a result is a rule whose pattern does not compile and before which every pattern compiles |
| Preprocessing.FirstInvalidAppend | src/preprocessing.rs:24-34 | the first invalid rule of two consecutive lists is that of the first list if it has one, else that of the second |
| Preprocessing.ParseRulesErrorSticks | src/preprocessing.rs:31 | once a prefix of the rule file has failed, the whole file fails with that same error |
| Preprocessing.ParseRulesSpec | src/preprocessing.rs:20-36 | the parse succeeds with exactly the accepted rules in file order when all their patterns compile, and otherwise fails with `InvalidPattern` of the first accepted pattern that does not |
| Preprocessing.New | src/preprocessing.rs:20-36 | the loop over the lines builds the preprocessor of the parsed rules, or returns the parse's error |
| Preprocessing.ParseTwoLines | src/preprocessing.rs:24-35 | a two-line file whose lines both yield rules with compiling patterns gives exactly those two rules in order |
| Preprocessing.PidRuleLine | src/preprocessing.rs:61 | the unit test's first rule line yields the PID rule |
| Preprocessing.IpRuleLine | src/preprocessing.rs:62 | the unit test's second rule line yields the IP rule |
| Preprocessing.UnitTestRuleFile | src/preprocessing.rs:60-65 | the unit test's rule file parses to the PID rule followed by the IP rule, given that both patterns compile |
| Preprocessing.Preprocess | src/preprocessing.rs:43-49 | the loop leaves the message with every rule's `replace_all` applied in list order; with no rules the message is unchanged |
| Preprocessing.ApplyAppend | src/preprocessing.rs:45-47 | applying a concatenated rule list is applying the first list and then the second one to its output |
| Preprocessing.ApplyTwo | src/preprocessing.rs:45-47 | with two rules, the second rule's replacement runs on the output of the first |
| Preprocessing.UnitTestMessages | src/preprocessing.rs:67-73 | under the regex engine's replacements of the test, both test messages come out as expected |
| Preprocessing.Preprocessed | src/commands.rs:85 | one preprocessed message per line |
| Common.Flatten | src/commands.rs:228-230 | the first embedded row is a prefix of the flat vector, and a single embedded row laid out flat is that row |
| Preprocessing.PreprocessAll | src/commands.rs:85 | every line of a batch is preprocessed, in order, one message per line |
| Training.BatchesSpec | src/commands.rs:64-95 | the batches are non-empty, at most 1024 lines long, all but the last exactly 1024 long, their number is the line count divided by 1024 rounded up, and their concatenation is the input in file order |
| Training.EmbedBatches | src/commands.rs:85-94 | a successful embedding gives one block per batch |
| Training.ReadBatch | src/commands.rs:73-80 | the inner loop takes the next `min(1024, lines left)` lines, exactly those, in order |
| Training.BatchStep | src/commands.rs:72-95 | with lines left, the batches from the current position are the batch just read followed by the batches after it, and their embedding fails iff this batch's embedding or a later one fails, and otherwise is this batch's block followed by the later blocks |
| Training.PrependStep | src/commands.rs:94 | pushing one more block after the collected ones is the same as collecting it first among the remaining ones |
| Training.EmbedInBatches | src/commands.rs:64-95 | the reading loop takes up to 1024 lines at a time, stops at the first empty batch or the first embedder failure, and collects the embedded blocks of the batches in order |
| Training.AllRows | src/commands.rs:102-105 | every concatenated row comes from one of the blocks |
| Training.ConcatRows | src/commands.rs:102-105 | concatenation fails iff some block's width differs from the first block's; a result has the first block's width, all rows in block order, and is well-shaped when every block is |
| Training.EmbeddedBlocksWellShaped | src/commands.rs:89-93 | every block the embedder returns has rows of its own width |
| Training.IdsSpec | src/commands.rs:135-141 | a key of `cluster_map` is exactly an id that labels some point as `Core` or `Edge` |
| Training.MembersEmpty | src/commands.rs:138-139 | a cluster id has no members iff no point carries it |
| Training.GroupOfSnoc | src/commands.rs:135-141 | one more labelled point adds nothing to the map when it is noise, and otherwise appends that point to the group of its id |
| Training.GroupPartition | src/commands.rs:132-142 | `noise_points` plus the sizes of all groups equals the number of labelled points |
| Training.PointInItsGroup | src/commands.rs:138-139 | every non-noise point is in the group of its own cluster id |
| Training.MembersFromPoints | src/commands.rs:139 | a group holds only embedded points, and a group that exists is non-empty |
| Training.SingleCluster | src/commands.rs:132-142 | when every point is in one cluster `k`, the map is `k` to all points and there is no noise |
| Training.TotalSizeRemove | src/commands.rs:132-142 | the total group size is a group's size plus the total of the rest, whichever group is taken out |
| Training.TotalSizeUpdate | src/commands.rs:139 | replacing or adding one group changes the total size by the difference |
| Training.GroupByCluster | src/commands.rs:132-142 | the grouping loop builds exactly the map of cluster ids to their member points in point order, and counts exactly the noise points |
| Training.Mean | src/commands.rs:150-154 | the mean has one coordinate per column |
| Training.MeanOfCopies | src/commands.rs:150-154 | the mean of copies of one vector is that vector |
| Training.DivideBack | src/commands.rs:154 | dividing a total of `n` copies of a coordinate by `n` gives the coordinate back |
| Training.ColumnSumOfCopies | src/commands.rs:151-153 | the sum of `n` copies of a coordinate is `n` times it |
| Training.MeanOf | src/commands.rs:150-154 | the `sum += p` loop followed by the division gives the coordinate-wise mean of the group |
| Training.Means | src/commands.rs:148-156 | the listed groups' means, one row per listed group, each of the corpus width |
| Training.MeansAt | src/commands.rs:149-155 | row `j` is the mean of the group listed at position `j` |
| Training.ReduceClusters | src/commands.rs:148-156 | the loop over `cluster_map` lists every cluster id exactly once, in an order it leaves open, and row `j` is the mean of the `j`-th listed group; so there are as many rows as distinct cluster ids, each of the corpus width |
| Training.ReductionHasEveryMean | src/commands.rs:148-161 | every group's mean is one of the saved rows, and there is one row per group |
| Training.ReductionOnlyMeans | src/commands.rs:148-161 | every saved row is the mean of some group |
| Training.Cluster | src/commands.rs:110-161 | when DBSCAN labels every point as noise, the result is `NoClustersFound`; otherwise the centroids are a reduction of the non-empty groups of `cluster_map`, of the corpus width, non-empty and well-shaped, and the noise count is the number of noise labels |
| Training.Train | src/commands.rs:61-169 | empty input, and only empty input, returns success with nothing saved; embedder and shape errors propagate; no cluster is `NoClustersFound`; otherwise the saved centroids are the group means of the clustered corpus, non-empty, well-shaped, of the corpus width, and the noise count is DBSCAN's |
| Ingestion.Start | src/commands.rs:205-207 | a run starts from the loaded centroids, with nothing seen, nothing appended and both counters zero |
| Ingestion.L2 | src/commands.rs:235 | the distance fails with `EmptyInput` on an empty centroid, with `ShapeMismatch` on vectors of another length, and succeeds exactly when both have the same positive length |
| Ingestion.Nearest | src/commands.rs:232-241 | a found nearest centroid is a real row index whose distance is the one recorded |
| Ingestion.NearestErrorSticks | src/commands.rs:235 | a failing distance aborts the scan with its error |
| Ingestion.NearestIsFirstMinimum | src/commands.rs:232-241 | the scan succeeds iff every distance does; it finds nothing iff there are no centroids; what it finds has the minimum distance and the lowest index among those with that distance, since `<` is strict; a failure is the error of the first failing row |
| Ingestion.Nudge | src/commands.rs:248-250 | the updated row has the centroid's length |
| Ingestion.NudgeMoves | src/commands.rs:248-250 | a learning rate of 0 leaves the centroid, a rate of 1 moves it onto the message, and each coordinate moves by `lr * (v - c)` |
| Ingestion.SkippedRecord | src/commands.rs:218-224 | a record older than the centroids file, or whose message was already seen in this run, changes no counter, no centroid and no output |
| Ingestion.ProcessedRecord | src/commands.rs:226-256 | a fresh record adds its message to the seen set and counts once; either it matches, which counts a match, changes the row at the index the nearest-centroid scan found to `c + lr (v - c)` and leaves every other row and the row count alone, or it is appended exactly once to the unmatched output with the centroids untouched; it matches iff the scan found a distance below the threshold, so with no centroids it is always unmatched |
| Ingestion.StepKeeps | src/commands.rs:218-256 | any record keeps the centroids' width and row count and only adds to the seen set, the matched count and the output; a record that does not fail keeps the bookkeeping invariant |
| Ingestion.RunKeeps | src/commands.rs:209-258 | over a whole stream, the centroids keep their shape, the output and the counters only grow, and a completed run keeps the bookkeeping invariant |
| Ingestion.LaterDuplicatesIgnored | src/commands.rs:222-224 | a record whose message was already seen changes nothing, so only the first occurrence is processed |
| Ingestion.LaterFailureSticks | src/commands.rs:209-258 | the first failing record ends the run in the state it reached |
| Ingestion.RunFromStart | src/commands.rs:226-262 | in a completed run from the start, `matched_count <= total_count` and `total_count - matched_count` is the number of lines appended to the unmatched output |
| Ingestion.Ingestor.constructor | src/commands.rs:195-207 | the state starts as `Start` of the loaded centroids, copied into a fresh array |
| Ingestion.Ingestor.Row | src/commands.rs:234 | a row of the centroid array has the array's column count |
| Ingestion.Ingestor.Matrix | src/commands.rs:196 | the array read as a matrix has the array's dimensions |
| Ingestion.Ingestor.Closest | src/commands.rs:232-241 | the scan loop over the array's rows, with `min_dist` starting at infinity and index 0, computes `Nearest` of the rows |
| Ingestion.Ingestor.PullRow | src/commands.rs:248-250 | the in-place update changes row `k` to `c + (v - c) * lr` and no other entry of the array |
| Ingestion.Ingestor.Process | src/commands.rs:209-258 | one record changes the fields exactly as `Step` says, and reports its failure |
| Ingestion.Ingest | src/commands.rs:183-268 | the outcome is `Run` over the records from the loaded centroids: on success the centroids saved, the two counters and the appended lines, with `matched <= total`, `total - matched` equal to the number of appended lines and the shape of the matrix unchanged; on failure the error and the lines appended before it, with nothing saved |
| Retraining.RowsOfTwo | src/commands.rs:309-310 | concatenating two blocks gives the first block's rows followed by the second's |
| Retraining.Retrain | src/commands.rs:279-317 | an empty backlog, and only that, succeeds without saving; an embedder failure is an error; a new block of another width is `ShapeMismatch`; otherwise the saved matrix is the old rows followed verbatim by the new rows, `N + K` rows of the old width, well-shaped when the old matrix was |

## Left out

- The embedding model of `src/embedding.rs` is not modelled: the BERT model, tokenizer, downloads, tensor arithmetic and normalisation are all behind the `Embedder` function. `EmbedderContract` states what `train` and `retrain` rely on: one row per sentence, all of one width.
- The DBSCAN algorithm lives in an external crate and is not visible; it is a labelling function with one label per point (`ClustererContract`). Epsilon and min_points are folded into that function.
- The regular-expression engine is not modelled: whether a pattern compiles, and what `replace_all` produces, are the functions `PatternCheck` and `ReplaceAll`.
- `l2_dist` is the abstract `Distance`, with the library's two error cases kept. Nothing is assumed about its values, not even that they are non-negative.
- Floating-point numbers are `real`. The model does not capture f32 rounding, NaN, or the f64 comparison in the scan and the threshold test. A threshold of infinity cannot be expressed.
- Timestamp parsing with chrono and the current year is not modelled: each `Record` carries its parsed timestamp, if any, and the clock reading used when parsing fails. The modification time of the centroids file is the `lastModified` input. src/commands.rs:211 parses with `DateTime::parse_from_str` and the format `%b %d %H:%M:%S %Y`, which has no UTC offset; chrono's `DateTime` parser needs one, so by our reading of chrono that parse always fails and every record is stamped with `Local::now()`. The time gate at src/commands.rs:218-220 then skips a record only if the clock reads earlier than the file's modification time. The model's `parsed: Some(_)` case is therefore more general than what the code can produce; the model does not fix `parsed` to `None`, so that it also covers a parser that succeeds.
- All file I/O is left out: opening and reading files, the I/O error of a line read, the JSON load and save of the centroids, the metadata query and the `BufWriter`. Loaded centroids are a well-shaped `Matrix`; a save is the result value described above. A failed write or save is not modelled.
- Printing, the verbose re-read of the input in `train`, and `test_patterns` are left out; they only print.
- `src/main.rs` (command-line parsing and logger set-up) is not part of this model.
- Ingestion.Ingest: the tensor-to-vector steps (`flatten_all`, `to_vec1`, `from_shape_vec`) never fail in the model; the message vector is the embedder's rows laid end to end.
- Training.Train: the conversion of an embedded tensor to an `Array2` (`dims2`, `from_shape_vec`) is the embedder's `Matrix` result itself, so its error cases are not modelled.
- Training.ReduceClusters: the order of the output rows is `HashMap` order, which the contract leaves open. It is recorded in the ghost `order` and not fixed.
