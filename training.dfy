/** The `train` command (src/commands.rs): read the log in batches, embed
    each batch, label the points with DBSCAN, group the labelled points by
    cluster id and reduce every group to its coordinate-wise mean. The
    DBSCAN labeller is given as a function. */
module Training {
  import opened Common
  import opened Preprocessing

  /** Lines read and embedded together. */
  const BATCH_SIZE: nat := 1024

  /** DBSCAN's classification of one point. */
  datatype Label = Noise | Core(id: nat) | Edge(id: nat)

  /** The DBSCAN labeller, with epsilon and min_points fixed. */
  type Clusterer = seq<Vector> -> seq<Label>

  /** The labeller gives one label per point. */
  ghost predicate ClustererContract(dbscan: Clusterer)
  {
    forall points :: |dbscan(points)| == |points|
  }

  /** A successful run saves centroids, unless the log was empty. */
  datatype TrainOutcome = NoInput | Trained(centroids: Matrix, noisePoints: nat)

  function Min(a: nat, b: nat): nat
  {
    if a < b then a else b
  }

  // ----- Batching -----

  /** The groups of lines the reading loop produces, in file order. */
  function Batches(lines: seq<string>): seq<seq<string>>
    decreases |lines|
  {
    if |lines| == 0 then []
    else
      var n := Min(BATCH_SIZE, |lines|);
      [lines[..n]] + Batches(lines[n..])
  }

  function Concat(batches: seq<seq<string>>): seq<string>
  {
    if |batches| == 0 then [] else batches[0] + Concat(batches[1..])
  }

  /** The batches are consecutive, non-empty, at most BATCH_SIZE long, all
      but the last exactly BATCH_SIZE long, and together give back the input
      in file order. */
  lemma {:induction false} BatchesSpec(lines: seq<string>)
    ensures Concat(Batches(lines)) == lines
    ensures forall i :: 0 <= i < |Batches(lines)| ==> 0 < |Batches(lines)[i]| <= BATCH_SIZE
    ensures forall i :: 0 <= i < |Batches(lines)| - 1 ==> |Batches(lines)[i]| == BATCH_SIZE
    ensures |Batches(lines)| == (|lines| + BATCH_SIZE - 1) / BATCH_SIZE
    decreases |lines|
  {
    if |lines| > 0 {
      var n := Min(BATCH_SIZE, |lines|);
      var rest := lines[n..];
      BatchesSpec(rest);
      var bs := Batches(lines);
      assert bs == [lines[..n]] + Batches(rest);
      assert bs[1..] == Batches(rest);
      assert Concat(bs) == lines[..n] + Concat(Batches(rest));
      assert lines[..n] + rest == lines;
      forall i | 0 <= i < |bs| ensures 0 < |bs[i]| <= BATCH_SIZE {
        if i > 0 { assert bs[i] == Batches(rest)[i - 1]; }
      }
      forall i | 0 <= i < |bs| - 1 ensures |bs[i]| == BATCH_SIZE {
        if i > 0 { assert bs[i] == Batches(rest)[i - 1]; }
      }
    }
  }

  /** The embedding of every batch, or nothing if any batch fails. */
  function EmbedBatches(batches: seq<seq<string>>, pre: LogPreprocessor, replaceAll: ReplaceAll, embed: Embedder)
    : (r: Option<seq<Matrix>>)
    ensures r.Some? ==> |r.value| == |batches|
  {
    if |batches| == 0 then Some([])
    else
      match embed(Preprocessed(pre, batches[0], replaceAll))
      case None => None
      case Some(m) =>
        match EmbedBatches(batches[1..], pre, replaceAll, embed)
        case None => None
        case Some(ms) => Some([m] + ms)
  }

  function Prepend(blocks: seq<Matrix>, rest: Option<seq<Matrix>>): Option<seq<Matrix>>
  {
    match rest
    case None => None
    case Some(ms) => Some(blocks + ms)
  }

  // ----- Row-wise concatenation -----

  function AllRows(blocks: seq<Matrix>): (rows: seq<Vector>)
    ensures forall v :: v in rows ==> exists i :: 0 <= i < |blocks| && v in blocks[i].rows
  {
    if |blocks| == 0 then []
    else
      var rest := AllRows(blocks[1..]);
      assert forall v :: v in rest ==> exists i :: 0 <= i < |blocks[1..]| && v in blocks[1..][i].rows;
      forall v | v in rest ensures exists i :: 0 <= i < |blocks| && v in blocks[i].rows {
        var i :| 0 <= i < |blocks[1..]| && v in blocks[1..][i].rows;
        assert blocks[i + 1] == blocks[1..][i];
      }
      blocks[0].rows + rest
  }

  /** `concatenate(Axis(0), ...)`: the blocks' rows one after another, or a
      shape error when the blocks differ in width. */
  function ConcatRows(blocks: seq<Matrix>): (r: Result<Matrix>)
    requires |blocks| > 0
    ensures r.Ok? ==> r.value.cols == blocks[0].cols && r.value.rows == AllRows(blocks)
    ensures r.Ok? && (forall i :: 0 <= i < |blocks| ==> WellShaped(blocks[i])) ==> WellShaped(r.value)
    ensures r.Err? <==> exists i :: 0 <= i < |blocks| && blocks[i].cols != blocks[0].cols
  {
    if forall i :: 0 <= i < |blocks| ==> blocks[i].cols == blocks[0].cols
    then Ok(Matrix(blocks[0].cols, AllRows(blocks)))
    else Err(ShapeMismatch)
  }

  /** The embedded corpus the clustering runs on, or nothing for an empty log. */
  function Corpus(lines: seq<string>, pre: LogPreprocessor, replaceAll: ReplaceAll, embed: Embedder)
    : Result<Option<Matrix>>
  {
    match EmbedBatches(Batches(lines), pre, replaceAll, embed)
    case None => Err(EmbedderFailure)
    case Some(blocks) =>
      if |blocks| == 0 then Ok(None)
      else
        match ConcatRows(blocks)
        case Err(e) => Err(e)
        case Ok(m) => Ok(Some(m))
  }

  // ----- Grouping by cluster id -----

  predicate InCluster(tag: Label, k: nat)
  {
    !tag.Noise? && tag.id == k
  }

  /** The cluster ids that occur among the labels. */
  function Ids(labels: seq<Label>): set<nat>
  {
    if |labels| == 0 then {}
    else
      var last := labels[|labels| - 1];
      Ids(labels[..|labels| - 1]) + if last.Noise? then {} else {last.id}
  }

  /** The points labelled with cluster `k`, in point order. */
  function Members(labels: seq<Label>, points: seq<Vector>, k: nat): seq<Vector>
    requires |labels| <= |points|
  {
    if |labels| == 0 then []
    else
      var n := |labels| - 1;
      Members(labels[..n], points, k) + if InCluster(labels[n], k) then [points[n]] else []
  }

  /** The `cluster_map` the grouping loop builds. */
  function GroupOf(labels: seq<Label>, points: seq<Vector>): map<nat, seq<Vector>>
    requires |labels| <= |points|
  {
    map k | k in Ids(labels) :: Members(labels, points, k)
  }

  function NoiseCount(labels: seq<Label>): nat
  {
    if |labels| == 0 then 0
    else NoiseCount(labels[..|labels| - 1]) + if labels[|labels| - 1].Noise? then 1 else 0
  }

  /** The number of points over all groups. */
  ghost function TotalSize(m: map<nat, seq<Vector>>): nat
    decreases |m|
  {
    if |m| == 0 then 0
    else
      var k := PickKey(m);
      |m[k]| + TotalSize(m - {k})
  }

  ghost function PickKey(m: map<nat, seq<Vector>>): (k: nat)
    requires |m| > 0
    ensures k in m
  {
    assert m.Keys != {};
    var k :| k in m; k
  }

  /** TotalSize does not depend on which key it takes first. */
  lemma {:induction false} TotalSizeRemove(m: map<nat, seq<Vector>>, k: nat)
    requires k in m
    ensures TotalSize(m) == |m[k]| + TotalSize(m - {k})
    decreases |m|
  {
    var j := PickKey(m);
    if j != k {
      assert (m - {j}) - {k} == (m - {k}) - {j};
      TotalSizeRemove(m - {j}, k);
      TotalSizeRemove(m - {k}, j);
    }
  }

  lemma {:induction false} TotalSizeUpdate(m: map<nat, seq<Vector>>, k: nat, s: seq<Vector>)
    ensures TotalSize(m[k := s]) + (if k in m then |m[k]| else 0) == TotalSize(m) + |s|
  {
    var updated := m[k := s];
    TotalSizeRemove(updated, k);
    UpdateThenRemove(m, k, s);
    if k in m {
      TotalSizeRemove(m, k);
    } else {
      RemoveAbsent(m, k);
    }
  }

  lemma UpdateThenRemove(m: map<nat, seq<Vector>>, k: nat, s: seq<Vector>)
    ensures m[k := s][k] == s && m[k := s] - {k} == m - {k}
  {
  }

  lemma RemoveAbsent(m: map<nat, seq<Vector>>, k: nat)
    requires k !in m
    ensures m - {k} == m
  {
  }

  /** A cluster id occurs exactly when some point has it. */
  lemma {:induction false} IdsSpec(labels: seq<Label>, k: nat)
    ensures k in Ids(labels) <==> exists i :: 0 <= i < |labels| && InCluster(labels[i], k)
    decreases |labels|
  {
    if |labels| > 0 {
      var init := labels[..|labels| - 1];
      IdsSpec(init, k);
      if exists i :: 0 <= i < |init| && InCluster(init[i], k) {
        var i :| 0 <= i < |init| && InCluster(init[i], k);
        assert labels[i] == init[i];
      }
      if exists i :: 0 <= i < |labels| && InCluster(labels[i], k) {
        var i :| 0 <= i < |labels| && InCluster(labels[i], k);
        if i < |init| { assert init[i] == labels[i]; }
      }
    }
  }

  /** A group is empty exactly when its id does not occur. */
  lemma {:induction false} MembersEmpty(labels: seq<Label>, points: seq<Vector>, k: nat)
    requires |labels| <= |points|
    ensures k !in Ids(labels) <==> Members(labels, points, k) == []
    decreases |labels|
  {
    if |labels| > 0 {
      MembersEmpty(labels[..|labels| - 1], points, k);
    }
  }

  /** Labelling one more point adds it to its own group and to no other. */
  lemma {:induction false} GroupOfSnoc(labels: seq<Label>, points: seq<Vector>)
    requires 0 < |labels| <= |points|
    ensures var n := |labels| - 1;
            var before := GroupOf(labels[..n], points);
            GroupOf(labels, points) ==
              if labels[n].Noise? then before
              else before[labels[n].id := Members(labels[..n], points, labels[n].id) + [points[n]]]
  {
    var n := |labels| - 1;
    var init := labels[..n];
    var before := GroupOf(init, points);
    var after := GroupOf(labels, points);
    assert Ids(labels) == Ids(init) + if labels[n].Noise? then {} else {labels[n].id};
    assert forall k :: Members(labels, points, k) ==
                       Members(init, points, k) + if InCluster(labels[n], k) then [points[n]] else [];
    if labels[n].Noise? {
      assert after.Keys == before.Keys;
      forall k | k in after ensures after[k] == before[k] {
        assert Members(labels, points, k) == Members(init, points, k) + [];
      }
    } else {
      var id := labels[n].id;
      var expected := before[id := Members(init, points, id) + [points[n]]];
      assert after.Keys == expected.Keys;
      forall k | k in after ensures after[k] == expected[k] {
        if k != id {
          assert Members(labels, points, k) == Members(init, points, k) + [];
        }
      }
    }
  }

  /** Grouping is a partition: the noise points and the members of all
      groups together are exactly the points. */
  lemma {:induction false} GroupPartition(labels: seq<Label>, points: seq<Vector>)
    requires |labels| <= |points|
    ensures NoiseCount(labels) + TotalSize(GroupOf(labels, points)) == |labels|
    decreases |labels|
  {
    if |labels| == 0 {
      assert GroupOf(labels, points) == map[];
    } else {
      var n := |labels| - 1;
      var init := labels[..n];
      GroupPartition(init, points);
      GroupOfSnoc(labels, points);
      if !labels[n].Noise? {
        var id := labels[n].id;
        var before := GroupOf(init, points);
        TotalSizeUpdate(before, id, Members(init, points, id) + [points[n]]);
        MembersEmpty(init, points, id);
      }
    }
  }

  /** Every group has at least one member, and every member is one of the points. */
  lemma {:induction false} MembersFromPoints(labels: seq<Label>, points: seq<Vector>, k: nat)
    requires |labels| <= |points|
    ensures forall v :: v in Members(labels, points, k) ==> v in points
    ensures k in Ids(labels) ==> |Members(labels, points, k)| > 0
    decreases |labels|
  {
    if |labels| > 0 {
      MembersFromPoints(labels[..|labels| - 1], points, k);
      MembersEmpty(labels, points, k);
    }
  }

  /** Every point that is not noise is in the group of its own cluster id. */
  lemma {:induction false} PointInItsGroup(labels: seq<Label>, points: seq<Vector>, i: nat)
    requires i < |labels| <= |points|
    requires !labels[i].Noise?
    ensures labels[i].id in GroupOf(labels, points) && points[i] in GroupOf(labels, points)[labels[i].id]
    decreases |labels|
  {
    var n := |labels| - 1;
    var k := labels[i].id;
    assert InCluster(labels[i], k);
    IdsSpec(labels, k);
    if i < n {
      PointInItsGroup(labels[..n], points, i);
      assert Members(labels, points, k) == Members(labels[..n], points, k) +
        if InCluster(labels[n], k) then [points[n]] else [];
    }
  }

  /** When every point carries the same cluster id, there is exactly one
      group, it holds every point, and there is no noise. */
  lemma {:induction false} SingleCluster(labels: seq<Label>, points: seq<Vector>, k: nat)
    requires 0 < |labels| <= |points|
    requires forall i :: 0 <= i < |labels| ==> InCluster(labels[i], k)
    ensures GroupOf(labels, points) == map[k := points[..|labels|]]
    ensures NoiseCount(labels) == 0
    decreases |labels|
  {
    var n := |labels| - 1;
    var init := labels[..n];
    if n == 0 {
      assert Ids(init) == {} && Members(init, points, k) == [];
      assert Members(labels, points, k) == [] + [points[0]] == points[..1];
      assert GroupOf(labels, points).Keys == {k};
      assert GroupOf(labels, points)[k] == points[..1];
    } else {
      SingleCluster(init, points, k);
      GroupOfSnoc(labels, points);
      assert GroupOf(init, points)[k] == Members(init, points, k);
      assert points[..n] + [points[n]] == points[..|labels|];
    }
  }

  // ----- Reduction to means -----

  /** The sum of column `j` over the points. */
  function ColumnSum(points: seq<Vector>, j: nat): real
    requires forall v :: v in points ==> j < |v|
  {
    if |points| == 0 then 0.0
    else ColumnSum(points[..|points| - 1], j) + points[|points| - 1][j]
  }

  predicate AllOfWidth(points: seq<Vector>, d: nat)
  {
    forall v :: v in points ==> |v| == d
  }

  /** The coordinate-wise arithmetic mean of the points. */
  function Mean(points: seq<Vector>, d: nat): (mean: Vector)
    requires |points| > 0 && AllOfWidth(points, d)
    ensures |mean| == d
  {
    seq(d, j requires 0 <= j < d => ColumnSum(points, j) / (|points| as real))
  }

  /** The mean of copies of one vector is that vector. */
  lemma MeanOfCopies(points: seq<Vector>, v: Vector)
    requires |points| > 0
    requires forall i :: 0 <= i < |points| ==> points[i] == v
    ensures AllOfWidth(points, |v|) && Mean(points, |v|) == v
  {
    forall j | 0 <= j < |v| ensures Mean(points, |v|)[j] == v[j] {
      ColumnSumOfCopies(points, v, j);
      var n := |points| as real;
      assert Mean(points, |v|)[j] == ColumnSum(points, j) / n;
      DivideBack(ColumnSum(points, j), n, v[j]);
    }
  }

  /** Dividing `n` copies of `x` by `n` gives back `x`. */
  lemma DivideBack(total: real, n: real, x: real)
    requires n != 0.0 && total == n * x
    ensures total / n == x
  {
  }

  lemma {:induction false} ColumnSumOfCopies(points: seq<Vector>, v: Vector, j: nat)
    requires forall i :: 0 <= i < |points| ==> points[i] == v
    requires j < |v|
    ensures ColumnSum(points, j) == (|points| as real) * v[j]
    decreases |points|
  {
    if |points| > 0 {
      ColumnSumOfCopies(points[..|points| - 1], v, j);
    }
  }

  /** `sum += p` over the group, then `sum / len`. */
  method MeanOf(points: seq<Vector>, d: nat) returns (mean: Vector)
    requires |points| > 0 && AllOfWidth(points, d)
    ensures mean == Mean(points, d)
  {
    var sum: Vector := seq(d, _ => 0.0);
    for i := 0 to |points|
      invariant |sum| == d
      invariant forall j :: 0 <= j < d ==> sum[j] == ColumnSum(points[..i], j)
    {
      assert points[..i + 1][..i] == points[..i];
      var p := points[i];
      sum := seq(d, j requires 0 <= j < d => sum[j] + p[j]);
    }
    assert points[..|points|] == points;
    mean := seq(d, j requires 0 <= j < d => sum[j] / (|points| as real));
  }

  /** Every group can be averaged: it is non-empty and its points have width `d`. */
  predicate Reducible(groups: map<nat, seq<Vector>>, d: nat)
  {
    forall k :: k in groups ==> |groups[k]| > 0 && AllOfWidth(groups[k], d)
  }

  /** `order` lists every key of `keys` exactly once. */
  predicate Enumerates(order: seq<nat>, keys: set<nat>)
  {
    && |order| == |keys|
    && (forall j :: 0 <= j < |order| ==> order[j] in keys)
    && (forall k :: k in keys ==> k in order)
    && (forall i, j :: 0 <= i < j < |order| ==> order[i] != order[j])
  }

  /** The means of the groups listed in `order`, in that order. */
  function Means(order: seq<nat>, groups: map<nat, seq<Vector>>, d: nat): (rows: seq<Vector>)
    requires Reducible(groups, d)
    requires forall j :: 0 <= j < |order| ==> order[j] in groups
    ensures |rows| == |order|
    ensures forall v :: v in rows ==> |v| == d
    decreases |order|
  {
    if |order| == 0 then []
    else
      var n := |order| - 1;
      Means(order[..n], groups, d) + [Mean(groups[order[n]], d)]
  }

  /** Row `j` of the means is the mean of the group listed at `j`. */
  lemma {:induction false} MeansAt(order: seq<nat>, groups: map<nat, seq<Vector>>, d: nat, j: nat)
    requires Reducible(groups, d)
    requires forall i :: 0 <= i < |order| ==> order[i] in groups
    requires j < |order|
    ensures Means(order, groups, d)[j] == Mean(groups[order[j]], d)
    decreases |order|
  {
    var n := |order| - 1;
    if j < n {
      MeansAt(order[..n], groups, d, j);
    }
  }

  /** `rows` holds one mean per group, the group of `order[j]` at row `j`,
      every group exactly once. */
  predicate IsReduction(rows: seq<Vector>, order: seq<nat>, groups: map<nat, seq<Vector>>, d: nat)
    requires Reducible(groups, d)
  {
    Enumerates(order, groups.Keys) && rows == Means(order, groups, d)
  }

  /** One centroid per group, in the map's iteration order, which is left
      unspecified. */
  method ReduceClusters(groups: map<nat, seq<Vector>>, d: nat) returns (rows: seq<Vector>, ghost order: seq<nat>)
    requires Reducible(groups, d)
    ensures IsReduction(rows, order, groups, d)
    ensures |rows| == |groups|
    ensures forall v :: v in rows ==> |v| == d
  {
    var remaining := groups.Keys;
    rows, order := [], [];
    while remaining != {}
      invariant remaining <= groups.Keys
      invariant |order| + |remaining| == |groups.Keys|
      invariant forall j :: 0 <= j < |order| ==> order[j] in groups && order[j] !in remaining
      invariant forall k :: k in groups && k !in remaining ==> k in order
      invariant forall i, j :: 0 <= i < j < |order| ==> order[i] != order[j]
      invariant rows == Means(order, groups, d)
      decreases |remaining|
    {
      var k :| k in remaining;
      var mean := MeanOf(groups[k], d);
      assert (order + [k])[..|order|] == order;
      EnumerationStep(order, remaining, groups.Keys, k);
      assert Means(order + [k], groups, d) == Means(order, groups, d) + [Mean(groups[k], d)];
      rows, order := rows + [mean], order + [k];
      remaining := remaining - {k};
    }
    assert |order| == |groups.Keys| == |groups|;
  }

  /** Taking key `k` out of the keys still to do and listing it keeps the
      listing an enumeration of the keys done so far. */
  lemma EnumerationStep(order: seq<nat>, remaining: set<nat>, keys: set<nat>, k: nat)
    requires remaining <= keys && k in remaining
    requires |order| + |remaining| == |keys|
    requires forall j :: 0 <= j < |order| ==> order[j] in keys && order[j] !in remaining
    requires forall x :: x in keys && x !in remaining ==> x in order
    requires forall i, j :: 0 <= i < j < |order| ==> order[i] != order[j]
    ensures var order', remaining' := order + [k], remaining - {k};
      && |order'| + |remaining'| == |keys|
      && (forall j :: 0 <= j < |order'| ==> order'[j] in keys && order'[j] !in remaining')
      && (forall x :: x in keys && x !in remaining' ==> x in order')
      && (forall i, j :: 0 <= i < j < |order'| ==> order'[i] != order'[j])
  {
  }

  /** Every group's mean is a row of a reduction. */
  lemma ReductionHasEveryMean(rows: seq<Vector>, order: seq<nat>, groups: map<nat, seq<Vector>>, d: nat)
    requires Reducible(groups, d)
    requires IsReduction(rows, order, groups, d)
    ensures |rows| == |groups|
    ensures forall k :: k in groups ==> exists j :: 0 <= j < |rows| && rows[j] == Mean(groups[k], d)
  {
    forall k | k in groups
      ensures exists j :: 0 <= j < |rows| && rows[j] == Mean(groups[k], d)
    {
      var j :| 0 <= j < |order| && order[j] == k;
      MeansAt(order, groups, d, j);
    }
  }

  /** Every row of a reduction is the mean of some group. */
  lemma ReductionOnlyMeans(rows: seq<Vector>, order: seq<nat>, groups: map<nat, seq<Vector>>, d: nat)
    requires Reducible(groups, d)
    requires IsReduction(rows, order, groups, d)
    ensures forall j :: 0 <= j < |rows| ==> exists k :: k in groups && rows[j] == Mean(groups[k], d)
  {
    forall j | 0 <= j < |rows|
      ensures exists k :: k in groups && rows[j] == Mean(groups[k], d)
    {
      MeansAt(order, groups, d, j);
      assert order[j] in groups;
    }
  }

  /** `cluster_map` and `noise_points`. */
  method GroupByCluster(labels: seq<Label>, points: seq<Vector>)
    returns (clusterMap: map<nat, seq<Vector>>, noise: nat)
    requires |labels| <= |points|
    ensures clusterMap == GroupOf(labels, points)
    ensures noise == NoiseCount(labels)
  {
    clusterMap, noise := map[], 0;
    for i := 0 to |labels|
      invariant clusterMap == GroupOf(labels[..i], points)
      invariant noise == NoiseCount(labels[..i])
    {
      GroupOfSnoc(labels[..i + 1], points);
      assert labels[..i + 1][..i] == labels[..i];
      if labels[i].Noise? {
        noise := noise + 1;
      } else {
        var id := labels[i].id;
        MembersEmpty(labels[..i], points, id);
        var group := if id in clusterMap then clusterMap[id] else [];
        clusterMap := clusterMap[id := group + [points[i]]];
      }
    }
    assert labels[..|labels|] == labels;
  }

  // ----- The command -----

  /** The inner reading loop of `train`: up to BATCH_SIZE lines from `start`,
      fewer only when the input runs out. */
  method ReadBatch(lines: seq<string>, start: nat) returns (batch: seq<string>, pos: nat)
    requires start <= |lines|
    ensures pos == start + Min(BATCH_SIZE, |lines| - start)
    ensures batch == lines[start..pos]
  {
    batch, pos := [], start;
    for k := 0 to BATCH_SIZE
      invariant start <= pos <= |lines| && pos == start + k
      invariant batch == lines[start..pos]
    {
      if pos < |lines| {
        batch := batch + [lines[pos]];
        pos := pos + 1;
      } else {
        break;
      }
    }
  }

  /** The batches from `start` on are the batch read at `start` followed by
      the batches after it, and their embedding unfolds the same way. */
  lemma BatchStep(lines: seq<string>, start: nat, pre: LogPreprocessor, replaceAll: ReplaceAll, embed: Embedder)
    requires start < |lines|
    ensures var pos := start + Min(BATCH_SIZE, |lines| - start);
      var batch := lines[start..pos];
      && Batches(lines[start..]) == [batch] + Batches(lines[pos..])
      && EmbedBatches(Batches(lines[start..]), pre, replaceAll, embed) ==
           match embed(Preprocessed(pre, batch, replaceAll))
           case None => None
           case Some(m) => Prepend([m], EmbedBatches(Batches(lines[pos..]), pre, replaceAll, embed))
  {
    var rest := lines[start..];
    var n := Min(BATCH_SIZE, |rest|);
    assert rest[..n] == lines[start..start + n] && rest[n..] == lines[start + n..];
    var bs := Batches(rest);
    assert bs[0] == lines[start..start + n] && bs[1..] == Batches(lines[start + n..]);
  }

  /** Appending one block to the blocks collected so far. */
  lemma PrependStep(blocks: seq<Matrix>, m: Matrix, tail: Option<seq<Matrix>>)
    ensures Prepend(blocks, Prepend([m], tail)) == Prepend(blocks + [m], tail)
  {
    if tail.Some? {
      assert blocks + ([m] + tail.value) == (blocks + [m]) + tail.value;
    }
  }

  /** The reading loop of `train`: take up to BATCH_SIZE lines, stop at the
      first empty batch, and embed every batch as soon as it is read; the
      first embedder failure ends the loop. */
  method EmbedInBatches(lines: seq<string>, pre: LogPreprocessor, replaceAll: ReplaceAll, embed: Embedder)
    returns (r: Option<seq<Matrix>>)
    ensures r == EmbedBatches(Batches(lines), pre, replaceAll, embed)
  {
    ghost var all := EmbedBatches(Batches(lines), pre, replaceAll, embed);
    var blocks: seq<Matrix> := [];
    var pos := 0;
    assert lines[pos..] == lines;
    assert all.Some? ==> [] + all.value == all.value;
    while true
      invariant pos <= |lines|
      invariant all == Prepend(blocks, EmbedBatches(Batches(lines[pos..]), pre, replaceAll, embed))
      decreases |lines| - pos
    {
      var start := pos;
      var batch;
      batch, pos := ReadBatch(lines, start);
      if batch == [] {
        break;
      }
      BatchStep(lines, start, pre, replaceAll, embed);
      var messages := PreprocessAll(pre, batch, replaceAll);
      var embedded := embed(messages);
      if embedded.None? {
        return None;
      }
      PrependStep(blocks, embedded.value, EmbedBatches(Batches(lines[pos..]), pre, replaceAll, embed));
      blocks := blocks + [embedded.value];
    }
    assert lines[pos..] == [];
    assert blocks + [] == blocks;
    return Some(blocks);
  }

  /** Clustering and reduction of the embedded corpus: all noise is an
      error; otherwise one mean per cluster and the number of noise points. */
  method Cluster(corpus: Matrix, dbscan: Clusterer) returns (r: Result<TrainOutcome>, ghost order: seq<nat>)
    requires WellShaped(corpus)
    requires ClustererContract(dbscan)
    ensures var labels := dbscan(corpus.rows);
      var groups := GroupOf(labels, corpus.rows);
      && (groups == map[] ==> r == Err(NoClustersFound))
      && (groups != map[] ==>
            && r.Ok? && r.value.Trained?
            && r.value.centroids.cols == corpus.cols
            && Reducible(groups, corpus.cols)
            && IsReduction(r.value.centroids.rows, order, groups, corpus.cols)
            && r.value.noisePoints == NoiseCount(labels))
    ensures r.Ok? ==> r.value.Trained? && |r.value.centroids.rows| > 0 && WellShaped(r.value.centroids)
  {
    order := [];
    var points := corpus.rows;
    var labels := dbscan(points);
    var clusterMap, noise := GroupByCluster(labels, points);
    if clusterMap == map[] {
      return Err(NoClustersFound), order;
    }
    forall k | k in clusterMap ensures |clusterMap[k]| > 0 && AllOfWidth(clusterMap[k], corpus.cols) {
      MembersFromPoints(labels, points, k);
    }
    var rows;
    rows, order := ReduceClusters(clusterMap, corpus.cols);
    assert clusterMap.Keys != {};
    r := Ok(Trained(Matrix(corpus.cols, rows), noise));
  }

  /** `train`: an empty log saves nothing and succeeds; a corpus that is all
      noise is an error; otherwise the saved matrix holds one mean per
      cluster and the run reports the number of noise points. */
  method Train(lines: seq<string>, pre: LogPreprocessor, replaceAll: ReplaceAll, embed: Embedder, dbscan: Clusterer)
    returns (r: Result<TrainOutcome>, ghost order: seq<nat>)
    requires EmbedderContract(embed)
    requires ClustererContract(dbscan)
    ensures r == Ok(NoInput) <==> lines == []
    ensures Corpus(lines, pre, replaceAll, embed).Err? ==> r == Err(Corpus(lines, pre, replaceAll, embed).error)
    ensures Corpus(lines, pre, replaceAll, embed).Ok? && Corpus(lines, pre, replaceAll, embed).value.Some? ==>
              var corpus := Corpus(lines, pre, replaceAll, embed).value.value;
              var labels := dbscan(corpus.rows);
              var groups := GroupOf(labels, corpus.rows);
              && (groups == map[] ==> r == Err(NoClustersFound))
              && (groups != map[] ==>
                    && r.Ok? && r.value.Trained?
                    && r.value.centroids.cols == corpus.cols
                    && Reducible(groups, corpus.cols)
                    && IsReduction(r.value.centroids.rows, order, groups, corpus.cols)
                    && r.value.noisePoints == NoiseCount(labels))
    ensures r.Ok? && r.value.Trained? ==> |r.value.centroids.rows| > 0 && WellShaped(r.value.centroids)
  {
    order := [];
    var embedded := EmbedInBatches(lines, pre, replaceAll, embed);
    if embedded.None? {
      return Err(EmbedderFailure), order;
    }
    var blocks := embedded.value;
    if blocks == [] {
      return Ok(NoInput), order;
    }
    var corpus := ConcatRows(blocks);
    if corpus.Err? {
      return Err(corpus.error), order;
    }
    assert WellShaped(corpus.value) by {
      EmbeddedBlocksWellShaped(Batches(lines), pre, replaceAll, embed);
    }
    r, order := Cluster(corpus.value, dbscan);
  }

  /** Blocks the embedder returns are well-shaped. */
  lemma {:induction false} EmbeddedBlocksWellShaped(batches: seq<seq<string>>, pre: LogPreprocessor,
                                                    replaceAll: ReplaceAll, embed: Embedder)
    requires EmbedderContract(embed)
    requires EmbedBatches(batches, pre, replaceAll, embed).Some?
    ensures forall i :: 0 <= i < |batches| ==> WellShaped(EmbedBatches(batches, pre, replaceAll, embed).value[i])
    decreases |batches|
  {
    if |batches| > 0 {
      EmbeddedBlocksWellShaped(batches[1..], pre, replaceAll, embed);
    }
  }
}
