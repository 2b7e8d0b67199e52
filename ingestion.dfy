/** The `ingest` command: a stream of new log records is matched against
    the stored centroids one record at a time. A matching record pulls its
    centroid towards itself; a record that matches nothing is appended to
    the unmatched output. */
module Ingestion {
  import opened Common
  import opened Preprocessing

  /** The Euclidean distance between a centroid row and a message vector. */
  type Distance = (Vector, Vector) -> real

  /** One line of the input. `parsed` is the timestamp read from the line's
      first three words, if they parse; `now` is the clock reading used
      when they do not. */
  datatype Record = Record(line: string, parsed: Option<int>, now: int)

  /** The timestamp the time gate compares. */
  function Stamp(rec: Record): int
  {
    if rec.parsed.Some? then rec.parsed.value else rec.now
  }

  /** The fixed inputs of a run: the modification time of the centroids
      file, the match threshold, the learning rate, the embedder and the
      distance. */
  datatype Config = Config(lastModified: int, threshold: real, learningRate: real,
                           embed: Embedder, dist: Distance)

  /** Everything a run changes: the centroid matrix, the messages seen in
      this run, the two counters, and the lines appended to the unmatched
      output. */
  datatype Tally = Tally(centroids: Matrix, seen: set<string>, matched: nat, total: nat,
                         unmatched: seq<string>)

  /** A tally and, when processing stopped early, the error it stopped with. */
  datatype State = State(tally: Tally, failure: Option<Error>)

  /** The tally before the first record: the loaded centroids, nothing seen. */
  function Start(loaded: Matrix): (t: Tally)
    ensures t.centroids == loaded && t.seen == {} && t.unmatched == []
    ensures t.matched == 0 && t.total == 0
  {
    Tally(loaded, {}, 0, 0, [])
  }

  /** `l2_dist`: it refuses an empty centroid row, then vectors of
      different length, and otherwise measures the distance. */
  function L2(c: Vector, v: Vector, dist: Distance): (r: Result<real>)
    ensures r.Ok? <==> 0 < |c| == |v|
    ensures |c| == 0 ==> r == Err(EmptyInput)
    ensures 0 < |c| != |v| ==> r == Err(ShapeMismatch)
  {
    if |c| == 0 then Err(EmptyInput)
    else if |c| != |v| then Err(ShapeMismatch)
    else Ok(dist(c, v))
  }

  /** A candidate nearest centroid: its row index and its distance. */
  datatype Best = Best(index: nat, dist: real)

  /** The scan over the centroid rows in order: the running minimum starts
      at infinity (`None`) and is replaced only by a strictly smaller
      distance; the first failing distance aborts the scan. */
  function Nearest(rows: seq<Vector>, v: Vector, dist: Distance): (r: Result<Option<Best>>)
    ensures r.Ok? && r.value.Some? ==>
      r.value.value.index < |rows| && L2(rows[r.value.value.index], v, dist) == Ok(r.value.value.dist)
    decreases |rows|
  {
    if |rows| == 0 then Ok(None)
    else
      match Nearest(rows[..|rows| - 1], v, dist)
      case Err(e) => Err(e)
      case Ok(best) =>
        match L2(rows[|rows| - 1], v, dist)
        case Err(e) => Err(e)
        case Ok(d) =>
          if best.None? || d < best.value.dist then Ok(Some(Best(|rows| - 1, d))) else Ok(best)
  }

  /** Once a prefix of the scan fails, the whole scan fails the same way. */
  lemma {:induction false} NearestErrorSticks(rows: seq<Vector>, v: Vector, dist: Distance, k: nat)
    requires k <= |rows|
    requires Nearest(rows[..k], v, dist).Err?
    ensures Nearest(rows, v, dist) == Nearest(rows[..k], v, dist)
    decreases |rows| - k
  {
    if k < |rows| {
      assert rows[..k + 1][..k] == rows[..k];
      NearestErrorSticks(rows, v, dist, k + 1);
    } else {
      assert rows[..k] == rows;
    }
  }

  /** The scan finds the minimum distance, the first row that achieves it
      wins, it finds nothing exactly when there are no rows, and it fails
      with the error of the first row whose distance fails. */
  lemma {:induction false} NearestIsFirstMinimum(rows: seq<Vector>, v: Vector, dist: Distance)
    ensures Nearest(rows, v, dist).Ok? <==> forall i :: 0 <= i < |rows| ==> L2(rows[i], v, dist).Ok?
    ensures Nearest(rows, v, dist).Ok? ==> (Nearest(rows, v, dist).value.None? <==> |rows| == 0)
    ensures Nearest(rows, v, dist).Ok? && Nearest(rows, v, dist).value.Some? ==>
      var b := Nearest(rows, v, dist).value.value;
      (forall i :: 0 <= i < |rows| ==> L2(rows[i], v, dist).Ok? && b.dist <= L2(rows[i], v, dist).value) &&
      (forall i :: 0 <= i < b.index ==> L2(rows[i], v, dist).Ok? && b.dist < L2(rows[i], v, dist).value)
    ensures Nearest(rows, v, dist).Err? ==>
      exists k :: 0 <= k < |rows| && L2(rows[k], v, dist) == Err(Nearest(rows, v, dist).error) &&
        forall i :: 0 <= i < k ==> L2(rows[i], v, dist).Ok?
    decreases |rows|
  {
    if |rows| > 0 {
      var init := rows[..|rows| - 1];
      var n := |rows| - 1;
      NearestIsFirstMinimum(init, v, dist);
      assert forall i :: 0 <= i < n ==> init[i] == rows[i];
      var r := Nearest(rows, v, dist);
      if Nearest(init, v, dist).Err? {
        var k :| 0 <= k < n && L2(init[k], v, dist) == Err(Nearest(init, v, dist).error) &&
          forall i :: 0 <= i < k ==> L2(init[i], v, dist).Ok?;
        assert L2(rows[k], v, dist) == Err(r.error);
      } else if L2(rows[n], v, dist).Err? {
        assert L2(rows[n], v, dist) == Err(r.error);
      }
    }
  }

  /** The in-place update `c += (v - c) * lr` of the matched row. */
  function Nudge(c: Vector, v: Vector, rate: real): (r: Vector)
    requires |c| == |v|
    ensures |r| == |c|
  {
    seq(|c|, j requires 0 <= j < |c| => c[j] + (v[j] - c[j]) * rate)
  }

  /** A rate of zero leaves the centroid where it is, a rate of one moves
      it onto the message, and every rate moves each coordinate along the
      line from the centroid to the message. */
  lemma NudgeMoves(c: Vector, v: Vector, rate: real)
    requires |c| == |v|
    ensures rate == 0.0 ==> Nudge(c, v, rate) == c
    ensures rate == 1.0 ==> Nudge(c, v, rate) == v
    ensures forall j :: 0 <= j < |c| ==> Nudge(c, v, rate)[j] - c[j] == rate * (v[j] - c[j])
  {
  }

  /** One record, whose preprocessed text is `message`. */
  function Step(cfg: Config, t: Tally, rec: Record, message: string): State
  {
    if Stamp(rec) < cfg.lastModified || message in t.seen then State(t, None)
    else
      var counted := t.(seen := t.seen + {message}, total := t.total + 1);
      match cfg.embed([message])
      case None => State(counted, Some(EmbedderFailure))
      case Some(m) =>
        var v := Flatten(m.rows);
        match Nearest(t.centroids.rows, v, cfg.dist)
        case Err(e) => State(counted, Some(e))
        case Ok(best) =>
          if best.Some? && best.value.dist < cfg.threshold then
            var k := best.value.index;
            var rows := t.centroids.rows;
            State(counted.(centroids := t.centroids.(rows := rows[k := Nudge(rows[k], v, cfg.learningRate)]),
                           matched := t.matched + 1), None)
          else
            State(counted.(unmatched := t.unmatched + [message]), None)
  }

  /** The preprocessed text of each record, in order. */
  function Run(cfg: Config, pre: LogPreprocessor, replaceAll: ReplaceAll, t: Tally, records: seq<Record>): State
    decreases |records|
  {
    if |records| == 0 then State(t, None)
    else
      var s := Run(cfg, pre, replaceAll, t, records[..|records| - 1]);
      if s.failure.Some? then s
      else
        var rec := records[|records| - 1];
        Step(cfg, s.tally, rec, Apply(pre.patterns, rec.line, replaceAll))
  }

  /** A record older than the centroids file, or whose message was already
      seen in this run, changes nothing at all. */
  lemma SkippedRecord(cfg: Config, t: Tally, rec: Record, message: string)
    requires Stamp(rec) < cfg.lastModified || message in t.seen
    ensures Step(cfg, t, rec, message) == State(t, None)
  {
  }

  /** A fresh record that is processed to the end either matches, moving
      exactly one row and counting a match, or is appended once to the
      unmatched output with the centroids untouched; it matches exactly
      when the nearest distance is below the threshold, and with no
      centroids it never matches. */
  lemma {:induction false} ProcessedRecord(cfg: Config, t: Tally, rec: Record, message: string)
    requires !(Stamp(rec) < cfg.lastModified) && message !in t.seen
    requires Step(cfg, t, rec, message).failure.None?
    ensures var s := Step(cfg, t, rec, message).tally;
      s.seen == t.seen + {message} && s.total == t.total + 1 &&
      s.centroids.cols == t.centroids.cols && |s.centroids.rows| == |t.centroids.rows| &&
      ((s.matched == t.matched + 1 && s.unmatched == t.unmatched) ||
       (s.matched == t.matched && s.unmatched == t.unmatched + [message] && s.centroids == t.centroids))
    ensures var s := Step(cfg, t, rec, message).tally;
      var v := Flatten(cfg.embed([message]).value.rows);
      var r := Nearest(t.centroids.rows, v, cfg.dist);
      r.Ok? &&
      (s.matched == t.matched + 1 <==> r.value.Some? && r.value.value.dist < cfg.threshold) &&
      (s.matched == t.matched + 1 ==>
        var k := r.value.value.index;
        && k < |t.centroids.rows|
        && s.centroids.rows[k] == Nudge(t.centroids.rows[k], v, cfg.learningRate)
        && forall i :: 0 <= i < |t.centroids.rows| && i != k ==> s.centroids.rows[i] == t.centroids.rows[i])
    ensures |t.centroids.rows| == 0 ==> Step(cfg, t, rec, message).tally.unmatched == t.unmatched + [message]
  {
  }

  /** The bookkeeping a run keeps: every seen message was counted once,
      every counted message either matched or was appended, and no line
      was appended twice. */
  predicate Consistent(t: Tally)
  {
    && t.matched + |t.unmatched| == t.total
    && t.total == |t.seen|
    && (forall i :: 0 <= i < |t.unmatched| ==> t.unmatched[i] in t.seen)
    && (forall i, j :: 0 <= i < j < |t.unmatched| ==> t.unmatched[i] != t.unmatched[j])
  }

  /** The centroid matrix keeps its width and its number of rows. */
  predicate SameShape(before: Matrix, after: Matrix)
  {
    after.cols == before.cols && |after.rows| == |before.rows| && (WellShaped(before) ==> WellShaped(after))
  }

  /** A record that does not stop the run keeps the bookkeeping; any record
      keeps the shape of the centroids and only adds to the output. */
  lemma {:induction false} StepKeeps(cfg: Config, t: Tally, rec: Record, message: string)
    ensures var s := Step(cfg, t, rec, message);
      SameShape(t.centroids, s.tally.centroids) &&
      t.unmatched <= s.tally.unmatched && t.seen <= s.tally.seen && t.matched <= s.tally.matched &&
      (Consistent(t) && s.failure.None? ==> Consistent(s.tally))
  {
  }

  /** A run keeps the bookkeeping when it completes, keeps the shape of the
      centroids, and only ever appends to the unmatched output. */
  lemma {:induction false} RunKeeps(cfg: Config, pre: LogPreprocessor, replaceAll: ReplaceAll, t: Tally, records: seq<Record>)
    ensures var s := Run(cfg, pre, replaceAll, t, records);
      SameShape(t.centroids, s.tally.centroids) &&
      t.unmatched <= s.tally.unmatched && t.seen <= s.tally.seen && t.matched <= s.tally.matched &&
      (Consistent(t) && s.failure.None? ==> Consistent(s.tally))
    decreases |records|
  {
    if |records| > 0 {
      var init := records[..|records| - 1];
      RunKeeps(cfg, pre, replaceAll, t, init);
      var s := Run(cfg, pre, replaceAll, t, init);
      if s.failure.None? {
        var rec := records[|records| - 1];
        StepKeeps(cfg, s.tally, rec, Apply(pre.patterns, rec.line, replaceAll));
      }
    }
  }

  /** Only the first occurrence of a message in a run is processed: once a
      record with some message has been processed, every later record
      with the same message leaves the state as it was. */
  lemma {:induction false} LaterDuplicatesIgnored(cfg: Config, pre: LogPreprocessor, replaceAll: ReplaceAll,
                                                  t: Tally, records: seq<Record>, rec: Record)
    requires Apply(pre.patterns, rec.line, replaceAll) in Run(cfg, pre, replaceAll, t, records).tally.seen
    ensures Run(cfg, pre, replaceAll, t, records + [rec]) == Run(cfg, pre, replaceAll, t, records)
  {
  }

  /** A run from an empty state: the counters and the output agree with
      each other, as the closing summary reports them. */
  lemma RunFromStart(cfg: Config, pre: LogPreprocessor, replaceAll: ReplaceAll, loaded: Matrix, records: seq<Record>)
    ensures var s := Run(cfg, pre, replaceAll, Start(loaded), records);
      SameShape(loaded, s.tally.centroids) &&
      (s.failure.None? ==> s.tally.matched <= s.tally.total && s.tally.total - s.tally.matched == |s.tally.unmatched|)
  {
  }

  /** The state of one `ingest` run. The centroid matrix is a
      two-dimensional array updated in place. */
  class Ingestor {
    const config: Config
    const centroids: array2<real>
    var seen: set<string>
    var matchedCount: nat
    var totalCount: nat
    var unmatched: seq<string>

    /** Row `i` of the centroid array. */
    function Row(i: nat): (r: Vector)
      requires i < centroids.Length0
      reads centroids
      ensures |r| == centroids.Length1
    {
      seq(centroids.Length1, j requires 0 <= j < centroids.Length1 reads centroids => centroids[i, j])
    }

    /** The centroid array as a matrix. */
    function Matrix(): (m: Matrix)
      reads centroids
      ensures m.cols == centroids.Length1 && |m.rows| == centroids.Length0
    {
      Common.Matrix(centroids.Length1, seq(centroids.Length0, i requires 0 <= i < centroids.Length0 reads centroids => Row(i)))
    }

    /** The current state as a value. */
    function Snapshot(): Tally
      reads this, centroids
    {
      Tally(Matrix(), seen, matchedCount, totalCount, unmatched)
    }

    /** Copies the loaded centroids into a fresh array; nothing seen yet. */
    constructor (config: Config, loaded: Common.Matrix)
      requires WellShaped(loaded)
      ensures this.config == config && fresh(centroids)
      ensures Snapshot() == Start(loaded)
    {
      this.config := config;
      var n := |loaded.rows|;
      var c := loaded.cols;
      assert forall i :: 0 <= i < n ==> loaded.rows[i] in loaded.rows;
      centroids := new real[n, c]((i, j) requires 0 <= i < n && 0 <= j < c => loaded.rows[i][j]);
      seen := {};
      matchedCount := 0;
      totalCount := 0;
      unmatched := [];
      new;
      assert forall i :: 0 <= i < n ==> Row(i) == loaded.rows[i];
    }

    /** The nearest-centroid scan over the rows of the array. */
    method Closest(v: Vector) returns (r: Result<Option<Best>>)
      ensures r == Nearest(Matrix().rows, v, config.dist)
    {
      ghost var rows := Matrix().rows;
      var minDist: Option<real> := None;
      var closest: nat := 0;
      for i := 0 to centroids.Length0
        invariant Nearest(rows[..i], v, config.dist) ==
          Ok(if minDist.None? then None else Some(Best(closest, minDist.value)))
      {
        assert rows[..i + 1][..i] == rows[..i];
        var d := L2(Row(i), v, config.dist);
        if d.Err? {
          NearestErrorSticks(rows, v, config.dist, i + 1);
          return Err(d.error);
        }
        if minDist.None? || d.value < minDist.value {
          minDist := Some(d.value);
          closest := i;
        }
      }
      assert rows[..centroids.Length0] == rows;
      r := Ok(if minDist.None? then None else Some(Best(closest, minDist.value)));
    }

    /** Moves row `k` towards `v` in place; no other entry changes. */
    method PullRow(k: nat, v: Vector, rate: real)
      requires k < centroids.Length0 && |v| == centroids.Length1
      modifies centroids
      ensures Matrix() == old(Matrix()).(rows := old(Matrix()).rows[k := Nudge(old(Row(k)), v, rate)])
    {
      ghost var before := Matrix();
      ghost var target := Nudge(Row(k), v, rate);
      for j := 0 to centroids.Length1
        invariant forall a, b :: 0 <= a < centroids.Length0 && 0 <= b < centroids.Length1 ==>
          centroids[a, b] == if a == k && b < j then target[b] else old(centroids[a, b])
      {
        centroids[k, j] := centroids[k, j] + (v[j] - centroids[k, j]) * rate;
      }
      assert forall i :: 0 <= i < centroids.Length0 ==> Row(i) == before.rows[k := target][i];
    }

    /** One record of the stream, whose preprocessed text is `message`. */
    method Process(rec: Record, message: string) returns (failure: Option<Error>)
      modifies this, centroids
      ensures State(Snapshot(), failure) == Step(config, old(Snapshot()), rec, message)
    {
      if Stamp(rec) < config.lastModified {
        return None;
      }
      if message in seen {
        return None;
      }
      seen := seen + {message};
      totalCount := totalCount + 1;
      var embedded := config.embed([message]);
      if embedded.None? {
        return Some(EmbedderFailure);
      }
      var v := Flatten(embedded.value.rows);
      var best := Closest(v);
      if best.Err? {
        return Some(best.error);
      }
      if best.value.Some? && best.value.value.dist < config.threshold {
        matchedCount := matchedCount + 1;
        PullRow(best.value.value.index, v, config.learningRate);
      } else {
        unmatched := unmatched + [message];
      }
      return None;
    }
  }

  /** What `ingest` ends with: on success the centroids it saves, the two
      counters and the lines it appended; on failure the error and the
      lines appended before it (nothing is saved). */
  datatype IngestOutcome =
    | Completed(centroids: Matrix, matched: nat, total: nat, appended: seq<string>)
    | Aborted(error: Error, appended: seq<string>)

  /** `ingest` over the records of the input file, starting from the
      loaded centroids. */
  method Ingest(cfg: Config, loaded: Matrix, records: seq<Record>, pre: LogPreprocessor, replaceAll: ReplaceAll)
    returns (outcome: IngestOutcome)
    requires WellShaped(loaded)
    ensures var s := Run(cfg, pre, replaceAll, Start(loaded), records);
      (outcome.Completed? <==> s.failure.None?) &&
      (outcome.Completed? ==>
        outcome == Completed(s.tally.centroids, s.tally.matched, s.tally.total, s.tally.unmatched)) &&
      (outcome.Aborted? ==> outcome == Aborted(s.failure.value, s.tally.unmatched))
    ensures outcome.Completed? ==>
      outcome.matched <= outcome.total && outcome.total - outcome.matched == |outcome.appended| &&
      SameShape(loaded, outcome.centroids)
  {
    var ingestor := new Ingestor(cfg, loaded);
    for i := 0 to |records|
      invariant fresh(ingestor) && fresh(ingestor.centroids) && ingestor.config == cfg
      invariant Run(cfg, pre, replaceAll, Start(loaded), records[..i]) == State(ingestor.Snapshot(), None)
    {
      assert records[..i + 1][..i] == records[..i];
      var message := Preprocess(pre, records[i].line, replaceAll);
      var failure := ingestor.Process(records[i], message);
      if failure.Some? {
        assert records[..i + 1] == records[..i] + [records[i]];
        LaterFailureSticks(cfg, pre, replaceAll, Start(loaded), records, i + 1);
        return Aborted(failure.value, ingestor.unmatched);
      }
    }
    assert records[..|records|] == records;
    RunFromStart(cfg, pre, replaceAll, loaded, records);
    var t := ingestor.Snapshot();
    return Completed(t.centroids, t.matched, t.total, t.unmatched);
  }

  /** Once a prefix of the run fails, the whole run ends in that state. */
  lemma {:induction false} LaterFailureSticks(cfg: Config, pre: LogPreprocessor, replaceAll: ReplaceAll,
                                              t: Tally, records: seq<Record>, k: nat)
    requires k <= |records|
    requires Run(cfg, pre, replaceAll, t, records[..k]).failure.Some?
    ensures Run(cfg, pre, replaceAll, t, records) == Run(cfg, pre, replaceAll, t, records[..k])
    decreases |records| - k
  {
    if k < |records| {
      assert records[..k + 1][..k] == records[..k];
      LaterFailureSticks(cfg, pre, replaceAll, t, records, k + 1);
    } else {
      assert records[..k] == records;
    }
  }
}
