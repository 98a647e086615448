/**
 * Reassembly of per-group cross-validation results.
 *
 * Each group of a cross-validation run predicts its own rows. A group
 * indexer records, for every group, the original positions of those rows;
 * the concatenation routines scatter each group's values back to those
 * positions in a full-length vector. When the index lists partition
 * `0 .. n-1`, every slot is written exactly once, so the result does not
 * depend on the order in which the groups are visited.
 */
module CrossValidation {
  import opened Errors
  import opened Distributions
  import opened Models

  /** `GroupIndexer`: the original row positions of each group. */
  type GroupIndexer = map<string, seq<int>>

  predicate Distinct(s: seq<int>) {
    forall i, j :: 0 <= i < j < |s| ==> s[i] != s[j]
  }

  // ---------------------------------------------------------------------------
  // Partitions of 0 .. n-1

  /** Every position any group lists, with multiplicity. */
  ghost function AllIndices(indexer: GroupIndexer): multiset<int>
    decreases |indexer|
  {
    if indexer == map[] then multiset{}
    else
      var g :| g in indexer;
      multiset(indexer[g]) + AllIndices(indexer - {g})
  }

  /** The positions 0 .. n-1, each once. */
  ghost function Rows(n: nat): multiset<int> {
    if n == 0 then multiset{} else Rows(n - 1) + multiset{n - 1}
  }

  /** The index lists, concatenated, are a permutation of 0 .. n-1. */
  ghost predicate Partition(indexer: GroupIndexer, n: nat) {
    AllIndices(indexer) == Rows(n)
  }

  lemma {:induction false} RowsCount(n: nat, v: int)
    ensures Rows(n)[v] == if 0 <= v < n then 1 else 0
    ensures |Rows(n)| == n
  {
    if n > 0 {
      RowsCount(n - 1, v);
    }
  }

  /** The positions of any one group can be taken out first. */
  lemma {:induction false} AllIndicesRemove(indexer: GroupIndexer, g: string)
    requires g in indexer
    ensures AllIndices(indexer) == multiset(indexer[g]) + AllIndices(indexer - {g})
    decreases |indexer|
  {
    var h :| h in indexer && AllIndices(indexer) == multiset(indexer[h]) + AllIndices(indexer - {h});
    if h != g {
      AllIndicesRemove(indexer - {h}, g);
      AllIndicesRemove(indexer - {g}, h);
      assert indexer - {h} - {g} == indexer - {g} - {h};
    }
  }

  lemma {:induction false} AllIndicesMember(indexer: GroupIndexer, v: int)
    requires v in AllIndices(indexer)
    ensures exists g, i :: g in indexer && 0 <= i < |indexer[g]| && indexer[g][i] == v
    decreases |indexer|
  {
    var g :| g in indexer;
    AllIndicesRemove(indexer, g);
    if v in indexer[g] {
      var i :| 0 <= i < |indexer[g]| && indexer[g][i] == v;
    } else {
      AllIndicesMember(indexer - {g}, v);
    }
  }

  lemma CountTwo(s: seq<int>, i: int, j: int)
    requires 0 <= i < j < |s|
    ensures s[i] == s[j] ==> multiset(s)[s[i]] >= 2
  {
    assert s == s[..j] + [s[j]] + s[j + 1..];
    assert s[..j][i] == s[i];
  }

  /** In a partition every listed position is a row of the dataset. */
  lemma PartitionInRange(indexer: GroupIndexer, n: nat, g: string)
    requires Partition(indexer, n) && g in indexer
    ensures forall i :: 0 <= i < |indexer[g]| ==> 0 <= indexer[g][i] < n
  {
    AllIndicesRemove(indexer, g);
    forall i | 0 <= i < |indexer[g]|
      ensures 0 <= indexer[g][i] < n
    {
      assert indexer[g][i] in multiset(indexer[g]);
      RowsCount(n, indexer[g][i]);
    }
  }

  /** In a partition no group lists a position twice. */
  lemma PartitionGroupDistinct(indexer: GroupIndexer, n: nat, g: string)
    requires Partition(indexer, n) && g in indexer
    ensures Distinct(indexer[g])
  {
    AllIndicesRemove(indexer, g);
    var s := indexer[g];
    forall i, j | 0 <= i < j < |s|
      ensures s[i] != s[j]
    {
      CountTwo(s, i, j);
      RowsCount(n, s[i]);
    }
  }

  /** In a partition two groups share no position. */
  lemma PartitionGroupsDisjoint(indexer: GroupIndexer, n: nat, g: string, h: string)
    requires Partition(indexer, n) && g in indexer && h in indexer && g != h
    ensures forall i :: 0 <= i < |indexer[g]| ==> indexer[g][i] !in indexer[h]
  {
    AllIndicesRemove(indexer, g);
    AllIndicesRemove(indexer - {g}, h);
    forall i | 0 <= i < |indexer[g]|
      ensures indexer[g][i] !in indexer[h]
    {
      assert indexer[g][i] in multiset(indexer[g]);
      RowsCount(n, indexer[g][i]);
    }
  }

  /** In a partition every row is listed by some group. */
  lemma PartitionCovers(indexer: GroupIndexer, n: nat, j: int)
    requires Partition(indexer, n) && 0 <= j < n
    ensures exists g, i :: g in indexer && 0 <= i < |indexer[g]| && indexer[g][i] == j
  {
    RowsCount(n, j);
    AllIndicesMember(indexer, j);
  }

  // ---------------------------------------------------------------------------
  // set_subset

  /** `to` after the writes `to[indices[i]] := from[i]`, for i = 0, 1, ... in turn. */
  function Scattered(base: seq<real>, from: seq<real>, indices: seq<int>): (r: seq<real>)
    requires |from| == |indices|
    requires forall i :: 0 <= i < |indices| ==> 0 <= indices[i] < |base|
    ensures |r| == |base|
    decreases |indices|
  {
    if |indices| == 0 then base
    else
      var k := |indices| - 1;
      Scattered(base, from[..k], indices[..k])[indices[k] := from[k]]
  }

  /** With distinct positions, each written slot holds its value and every other slot is untouched. */
  lemma {:induction false} ScatteredAt(base: seq<real>, from: seq<real>, indices: seq<int>)
    requires |from| == |indices|
    requires forall i :: 0 <= i < |indices| ==> 0 <= indices[i] < |base|
    requires Distinct(indices)
    ensures forall i :: 0 <= i < |indices| ==> Scattered(base, from, indices)[indices[i]] == from[i]
    ensures forall j :: 0 <= j < |base| && j !in indices ==> Scattered(base, from, indices)[j] == base[j]
    decreases |indices|
  {
    if |indices| > 0 {
      var k := |indices| - 1;
      var prefix, prefixFrom := indices[..k], from[..k];
      ScatteredAt(base, prefixFrom, prefix);
      var prev := Scattered(base, prefixFrom, prefix);
      assert Scattered(base, from, indices) == prev[indices[k] := from[k]];
      forall i | 0 <= i < k
        ensures Scattered(base, from, indices)[indices[i]] == from[i]
      {
        assert indices[i] == prefix[i] && indices[i] != indices[k];
      }
      forall j | 0 <= j < |base| && j !in indices
        ensures Scattered(base, from, indices)[j] == base[j]
      {
        assert j !in prefix;
      }
    }
  }

  /** `set_subset(from, indices, to)`: writes `from[i]` at `to[indices[i]]` for every i. */
  method SetSubset(from: seq<real>, indices: seq<int>, to: array<real>)
    requires |from| == |indices|
    requires forall i :: 0 <= i < |indices| ==> 0 <= indices[i] < to.Length
    modifies to
    ensures to[..] == Scattered(old(to[..]), from, indices)
  {
    var i := 0;
    while i < |indices|
      invariant 0 <= i <= |indices|
      invariant to[..] == Scattered(old(to[..]), from[..i], indices[..i])
    {
      assert from[..i + 1][..i] == from[..i] && indices[..i + 1][..i] == indices[..i];
      to[indices[i]] := from[i];
      i := i + 1;
    }
    assert from[..i] == from && indices[..i] == indices;
  }

  // ---------------------------------------------------------------------------
  // Reassembly

  /** Every listed position of the given groups holds that group's value for it. */
  ghost predicate ScatteredOver(out: seq<real>, indexer: GroupIndexer, values: map<string, seq<real>>,
                                groups: set<string>)
  {
    && (forall g :: g in groups && g in indexer ==> g in values && |values[g]| == |indexer[g]|)
    && (forall g, i :: g in groups && g in indexer && 0 <= i < |indexer[g]| ==>
          0 <= indexer[g][i] < |out| && out[indexer[g][i]] == values[g][i])
  }

  /** The value at `indexer[g][i]` is group g's i-th value, for every group. */
  ghost predicate ScatteredFrom(out: seq<real>, indexer: GroupIndexer, values: map<string, seq<real>>) {
    ScatteredOver(out, indexer, values, indexer.Keys)
  }

  /** Writing one more group keeps the groups already written intact. */
  lemma ScatterStep(indexer: GroupIndexer, n: nat, values: map<string, seq<real>>, done: set<string>,
                    g: string, before: seq<real>, after: seq<real>)
    requires Partition(indexer, n) && g in indexer && |before| == n
    requires g in values && |values[g]| == |indexer[g]|
    requires forall i :: 0 <= i < |indexer[g]| ==> 0 <= indexer[g][i] < n
    requires ScatteredOver(before, indexer, values, done)
    requires after == Scattered(before, values[g], indexer[g])
    ensures ScatteredOver(after, indexer, values, done + {g})
  {
    var groups := done + {g};
    PartitionGroupDistinct(indexer, n, g);
    ScatteredAt(before, values[g], indexer[g]);
    forall h, i | h in groups && h in indexer && 0 <= i < |indexer[h]|
      ensures 0 <= indexer[h][i] < |after| && after[indexer[h][i]] == values[h][i]
    {
      if h != g {
        PartitionGroupsDisjoint(indexer, n, h, g);
        assert indexer[h][i] !in indexer[g];
      }
    }
  }

  /**
   * Order independence: over a partition, the full-length vector that holds
   * every group's values at that group's positions is unique.
   */
  lemma ReassemblyIsUnique(indexer: GroupIndexer, n: nat, values: map<string, seq<real>>,
                           a: seq<real>, b: seq<real>)
    requires Partition(indexer, n) && |a| == n && |b| == n
    requires ScatteredFrom(a, indexer, values) && ScatteredFrom(b, indexer, values)
    ensures a == b
  {
    forall j | 0 <= j < n
      ensures a[j] == b[j]
    {
      PartitionCovers(indexer, n, j);
      var g, i :| g in indexer && 0 <= i < |indexer[g]| && indexer[g][i] == j;
    }
  }

  /** The values of `v` at the listed positions, in the order listed (`subset`). */
  function Subset(v: seq<real>, indices: seq<int>): (r: seq<real>)
    requires forall i :: 0 <= i < |indices| ==> 0 <= indices[i] < |v|
    ensures |r| == |indices|
  {
    seq(|indices|, i requires 0 <= i < |indices| => v[indices[i]])
  }

  /** Every listed position is a row of `v`. */
  ghost predicate InRange(indexer: GroupIndexer, n: nat) {
    forall g, i :: g in indexer && 0 <= i < |indexer[g]| ==> 0 <= indexer[g][i] < n
  }

  /** Splits a full-length vector into one vector per group, as the folds of a run see it. */
  function Split(indexer: GroupIndexer, v: seq<real>): (m: map<string, seq<real>>)
    requires InRange(indexer, |v|)
    ensures m.Keys == indexer.Keys
  {
    map g | g in indexer :: Subset(v, indexer[g])
  }

  /** Over a partition, the split of `v` matches the indexer and scatters back to `v`. */
  lemma SplitScattersBack(indexer: GroupIndexer, n: nat, v: seq<real>)
    requires Partition(indexer, n) && |v| == n
    ensures InRange(indexer, n)
    ensures MeansMatch(indexer, Split(indexer, v))
    ensures ScatteredFrom(v, indexer, Split(indexer, v))
  {
    forall g | g in indexer
      ensures forall i :: 0 <= i < |indexer[g]| ==> 0 <= indexer[g][i] < n
    {
      PartitionInRange(indexer, n, g);
    }
    var m := Split(indexer, v);
    assert |m| == |m.Keys| == |indexer.Keys| == |indexer|;
  }

  /** The checks of `concatenate_mean_predictions`: as many groups, each with one mean per listed position. */
  predicate MeansMatch(indexer: GroupIndexer, means: map<string, seq<real>>) {
    |indexer| == |means| && forall g :: g in indexer ==> g in means && |means[g]| == |indexer[g]|
  }

  /** The checks of `concatenate_marginal_predictions`: the same, on the sizes of the distributions. */
  predicate DistributionsMatch(indexer: GroupIndexer, preds: map<string, Distribution>) {
    |indexer| == |preds| && forall g :: g in indexer ==> g in preds && preds[g].Size() == |indexer[g]|
  }

  /** One group's values written at the group's positions; the groups written before stay intact. */
  method ScatterGroup(indexer: GroupIndexer, n: nat, values: map<string, seq<real>>, g: string,
                      out: array<real>, ghost done: set<string>)
    requires Partition(indexer, n) && g in indexer && out.Length == n
    requires g in values && |values[g]| == |indexer[g]|
    requires ScatteredOver(out[..], indexer, values, done)
    modifies out
    ensures ScatteredOver(out[..], indexer, values, done + {g})
    ensures forall j :: 0 <= j < n && j !in indexer[g] ==> out[j] == old(out[j])
  {
    PartitionInRange(indexer, n, g);
    ghost var before := out[..];
    SetSubset(values[g], indexer[g], out);
    ScatterStep(indexer, n, values, done, g, before, out[..]);
    PartitionGroupDistinct(indexer, n, g);
    ScatteredAt(before, values[g], indexer[g]);
  }

  /**
   * Progress of the reassembly loop: the groups in `done` are written to
   * `out`, `rest` holds the others, and `filled` counts the rows written.
   */
  ghost predicate Filling(indexer: GroupIndexer, n: nat, rest: GroupIndexer, done: set<string>, filled: int) {
    && rest.Keys == indexer.Keys - done && done <= indexer.Keys
    && (forall g :: g in rest ==> rest[g] == indexer[g])
    && filled + |AllIndices(rest)| == n
  }

  /** Taking one group out of `rest` keeps the row count. */
  lemma FillingStep(indexer: GroupIndexer, n: nat, rest: GroupIndexer, done: set<string>, filled: int,
                    g: string)
    requires Filling(indexer, n, rest, done, filled) && g in rest
    ensures g in indexer && rest[g] == indexer[g]
    ensures Filling(indexer, n, rest - {g}, done + {g}, filled + |indexer[g]|)
  {
    AllIndicesRemove(rest, g);
  }

  /** When nothing is left, every group is done and every row is filled. */
  lemma FillingDone(indexer: GroupIndexer, n: nat, done: set<string>, filled: int)
    requires Filling(indexer, n, map[], done, filled)
    ensures done == indexer.Keys && filled == n
  {
  }

  /** One iteration of `concatenate_mean_predictions`: writes group g and moves it to `done`. */
  method FillMeans(indexer: GroupIndexer, n: nat, means: map<string, seq<real>>, pred: array<real>,
                   rest: GroupIndexer, ghost done: set<string>, filled: int, g: string)
    returns (rest': GroupIndexer, ghost done': set<string>, filled': int)
    requires Partition(indexer, n) && pred.Length == n
    requires Filling(indexer, n, rest, done, filled) && g in rest
    requires ScatteredOver(pred[..], indexer, means, done)
    requires g in means && |means[g]| == |indexer[g]|
    modifies pred
    ensures Filling(indexer, n, rest', done', filled') && |rest'| < |rest|
    ensures rest' == rest - {g} && done' == done + {g} && filled' == filled + |indexer[g]|
    ensures ScatteredOver(pred[..], indexer, means, done')
    ensures forall j :: 0 <= j < n && j !in indexer[g] ==> pred[j] == old(pred[j])
  {
    FillingStep(indexer, n, rest, done, filled, g);
    ScatterGroup(indexer, n, means, g, pred, done);
    rest', done', filled' := rest - {g}, done + {g}, filled + |rest[g]|;
  }

  /**
   * `concatenate_mean_predictions`: scatters each group's means back to the
   * group's rows, and fills all n rows.
   */
  method ConcatenateMeanPredictions(indexer: GroupIndexer, means: map<string, seq<real>>, n: nat)
    returns (r: Result<seq<real>>)
    requires Partition(indexer, n)
    ensures r.Ok? <==> MeansMatch(indexer, means)
    ensures r.Err? ==> r.error == InvalidArgument
    ensures r.Ok? ==> |r.value| == n && ScatteredFrom(r.value, indexer, means)
  {
    if |indexer| != |means| {
      return Err(InvalidArgument);
    }
    var pred := new real[n];
    var filled := 0;
    var rest := indexer;
    ghost var done: set<string> := {};
    RowsCount(n, 0);
    while rest != map[]
      invariant Filling(indexer, n, rest, done, filled)
      invariant ScatteredOver(pred[..], indexer, means, done)
      decreases |rest|
    {
      var g :| g in rest;
      if g !in means || |means[g]| != |rest[g]| {
        FillingStep(indexer, n, rest, done, filled, g);
        return Err(InvalidArgument);
      }
      rest, done, filled := FillMeans(indexer, n, means, pred, rest, done, filled, g);
    }
    FillingDone(indexer, n, done, filled);
    assert filled == n;
    r := Ok(pred[..]);
  }

  /**
   * Round trip: concatenating the per-group split of any full-length vector
   * gives that vector back, whatever order the groups are visited in.
   */
  method ConcatenateInvertsSplit(indexer: GroupIndexer, n: nat, v: seq<real>) returns (r: Result<seq<real>>)
    requires Partition(indexer, n) && |v| == n
    ensures r == Ok(v)
  {
    SplitScattersBack(indexer, n, v);
    r := ConcatenateMeanPredictions(indexer, Split(indexer, v), n);
    ReassemblyIsUnique(indexer, n, Split(indexer, v), r.value, v);
  }

  function MeansOf(preds: map<string, Distribution>): (m: map<string, seq<real>>)
    ensures m.Keys == preds.Keys
  {
    map g | g in preds :: preds[g].mean
  }

  function VariancesOf(preds: map<string, Distribution>): (m: map<string, seq<real>>)
    requires forall g :: g in preds ==> preds[g].Consistent()
    ensures m.Keys == preds.Keys
  {
    map g | g in preds :: preds[g].Variance()
  }

  /** One iteration of `concatenate_marginal_predictions`: writes group g's means and variances. */
  method FillMarginals(indexer: GroupIndexer, n: nat, means: map<string, seq<real>>,
                       variances: map<string, seq<real>>, mean: array<real>, variance: array<real>,
                       rest: GroupIndexer, ghost done: set<string>, filled: int, g: string)
    returns (rest': GroupIndexer, ghost done': set<string>, filled': int)
    requires Partition(indexer, n) && mean.Length == n && variance.Length == n && mean != variance
    requires Filling(indexer, n, rest, done, filled) && g in rest
    requires ScatteredOver(mean[..], indexer, means, done)
    requires ScatteredOver(variance[..], indexer, variances, done)
    requires g in means && |means[g]| == |indexer[g]|
    requires g in variances && |variances[g]| == |indexer[g]|
    modifies mean, variance
    ensures Filling(indexer, n, rest', done', filled') && |rest'| < |rest|
    ensures rest' == rest - {g} && done' == done + {g} && filled' == filled + |indexer[g]|
    ensures ScatteredOver(mean[..], indexer, means, done')
    ensures ScatteredOver(variance[..], indexer, variances, done')
    ensures forall j :: 0 <= j < n && j !in indexer[g] ==> mean[j] == old(mean[j]) && variance[j] == old(variance[j])
  {
    FillingStep(indexer, n, rest, done, filled, g);
    ScatterGroup(indexer, n, means, g, mean, done);
    ScatterGroup(indexer, n, variances, g, variance, done);
    rest', done', filled' := rest - {g}, done + {g}, filled + |rest[g]|;
  }

  /**
   * The loop of `concatenate_marginal_predictions`, on the predictions' means
   * and variances (a prediction's size is the length of its mean).
   */
  method ReassembleMarginals(indexer: GroupIndexer, n: nat, means: map<string, seq<real>>,
                             variances: map<string, seq<real>>)
    returns (ok: bool, mean: seq<real>, variance: seq<real>)
    requires Partition(indexer, n)
    requires means.Keys == variances.Keys
    requires forall g :: g in means ==> |variances[g]| == |means[g]|
    ensures ok <==> forall g :: g in indexer ==> g in means && |means[g]| == |indexer[g]|
    ensures ok ==> |mean| == n && |variance| == n
    ensures ok ==> ScatteredFrom(mean, indexer, means) && ScatteredFrom(variance, indexer, variances)
  {
    var meanOut := new real[n];
    var varianceOut := new real[n];
    var filled := 0;
    var rest := indexer;
    ghost var done: set<string> := {};
    RowsCount(n, 0);
    while rest != map[]
      invariant Filling(indexer, n, rest, done, filled)
      invariant ScatteredOver(meanOut[..], indexer, means, done)
      invariant ScatteredOver(varianceOut[..], indexer, variances, done)
      decreases |rest|
    {
      var g :| g in rest;
      if g !in means || |means[g]| != |rest[g]| {
        FillingStep(indexer, n, rest, done, filled, g);
        return false, [], [];
      }
      rest, done, filled := FillMarginals(indexer, n, means, variances, meanOut, varianceOut,
                                          rest, done, filled, g);
    }
    FillingDone(indexer, n, done, filled);
    assert filled == n;
    ok, mean, variance := true, meanOut[..], varianceOut[..];
  }

  /**
   * `concatenate_marginal_predictions`: scatters each group's means and
   * covariance diagonal back to the group's rows, with the same index list.
   */
  method ConcatenateMarginalPredictions(indexer: GroupIndexer, preds: map<string, Distribution>, n: nat)
    returns (r: Result<MarginalDistribution>)
    requires Partition(indexer, n)
    requires forall g :: g in preds ==> preds[g].Consistent()
    ensures r.Ok? <==> DistributionsMatch(indexer, preds)
    ensures r.Err? ==> r.error == InvalidArgument
    ensures r.Ok? ==> |r.value.mean| == n
    ensures r.Ok? ==> ScatteredFrom(r.value.mean, indexer, MeansOf(preds))
    ensures r.Ok? ==> ScatteredFrom(r.value.Variance(), indexer, VariancesOf(preds))
  {
    if |indexer| != |preds| {
      return Err(InvalidArgument);
    }
    var ok, mean, variance := ReassembleMarginals(indexer, n, MeansOf(preds), VariancesOf(preds));
    if !ok {
      return Err(InvalidArgument);
    }
    r := Ok(Distribution(mean, DiagonalMatrix(variance)));
  }

  // ---------------------------------------------------------------------------
  // Views of predictions and scoring

  /** `get_predict_types`: the requested view of every prediction, under the same key. */
  method GetPredictTypes<P, T>(predictions: map<string, P>, get: P -> T) returns (r: map<string, T>)
    ensures r.Keys == predictions.Keys
    ensures forall k :: k in r ==> r[k] == get(predictions[k])
  {
    r := map[];
    var rest := predictions.Keys;
    while rest != {}
      invariant rest <= predictions.Keys
      invariant r.Keys == predictions.Keys - rest
      invariant forall k :: k in r ==> r[k] == get(predictions[k])
    {
      var k :| k in rest;
      r := r[k := get(predictions[k])];
      rest := rest - {k};
    }
  }

  /** `get_means`: the mean view of every prediction. */
  method GetMeans<P>(predictions: map<string, P>, mean: P -> seq<real>) returns (r: map<string, seq<real>>)
    ensures r.Keys == predictions.Keys
    ensures forall k :: k in r ==> r[k] == mean(predictions[k])
  {
    r := GetPredictTypes(predictions, mean);
  }

  /** `get_marginals`: the marginal view of every prediction. */
  method GetMarginals<P>(predictions: map<string, P>, marginal: P -> MarginalDistribution)
    returns (r: map<string, MarginalDistribution>)
    ensures r.Keys == predictions.Keys
    ensures forall k :: k in r ==> r[k] == marginal(predictions[k])
  {
    r := GetPredictTypes(predictions, marginal);
  }

  /** `get_joints`: the joint view of every prediction. */
  method GetJoints<P>(predictions: map<string, P>, joint: P -> JointDistribution)
    returns (r: map<string, JointDistribution>)
    ensures r.Keys == predictions.Keys
    ensures forall k :: k in r ==> r[k] == joint(predictions[k])
  {
    r := GetPredictTypes(predictions, joint);
  }

  /** Every fold has a prediction, sized like the fold's test set. */
  predicate PredictionsFitFolds<F, P>(folds: map<string, RegressionFold<F>>, predictions: map<string, P>,
                                      size: P -> nat)
  {
    forall k :: k in folds ==> k in predictions && size(predictions[k]) == folds[k].testDataset.Size()
  }

  /**
   * `cross_validated_scores`: scores each fold's prediction against the
   * fold's held-out targets and combines the per-fold scores.
   */
  function CrossValidatedScores<F, P, S>(metric: (P, MarginalDistribution) -> S,
                                         combine: map<string, S> -> seq<real>,
                                         folds: map<string, RegressionFold<F>>,
                                         predictions: map<string, P>, size: P -> nat): (r: Result<seq<real>>)
    ensures r.Ok? <==> PredictionsFitFolds(folds, predictions, size)
    ensures r.Err? ==> r.error == InvalidArgument
    ensures r.Ok? ==> r.value == combine(map k | k in folds :: metric(predictions[k], folds[k].testDataset.targets))
  {
    if PredictionsFitFolds(folds, predictions, size) then
      Ok(combine(map k | k in folds :: metric(predictions[k], folds[k].testDataset.targets)))
    else
      Err(InvalidArgument)
  }

  /** Predictions under keys that are not folds play no part in the scores. */
  lemma ScoresIgnoreOtherPredictions<F, P, S>(metric: (P, MarginalDistribution) -> S,
                                              combine: map<string, S> -> seq<real>,
                                              folds: map<string, RegressionFold<F>>,
                                              predictions: map<string, P>, extra: map<string, P>, size: P -> nat)
    requires forall k :: k in extra ==> k !in folds
    ensures CrossValidatedScores(metric, combine, folds, predictions + extra, size)
         == CrossValidatedScores(metric, combine, folds, predictions, size)
  {
    var all := predictions + extra;
    assert PredictionsFitFolds(folds, all, size) <==> PredictionsFitFolds(folds, predictions, size);
    if PredictionsFitFolds(folds, predictions, size) {
      assert (map k | k in folds :: metric(all[k], folds[k].testDataset.targets))
          == (map k | k in folds :: metric(predictions[k], folds[k].testDataset.targets));
    }
  }

  function Length(v: seq<real>): nat {
    |v|
  }

  /**
   * `cross_validated_scores` over distributions: each prediction is replaced
   * by its mean, under the same key, and the means are scored.
   */
  method CrossValidatedScoresOfDistributions<F, S>(metric: (seq<real>, MarginalDistribution) -> S,
                                                   combine: map<string, S> -> seq<real>,
                                                   folds: map<string, RegressionFold<F>>,
                                                   predictions: map<string, Distribution>)
    returns (r: Result<seq<real>>)
    ensures r == CrossValidatedScores(metric, combine, folds, MeansOf(predictions), Length)
    ensures r.Ok? <==> forall k :: k in folds ==> k in predictions && predictions[k].Size() == folds[k].testDataset.Size()
  {
    var converted: map<string, seq<real>> := map[];
    var rest := predictions.Keys;
    while rest != {}
      invariant rest <= predictions.Keys
      invariant converted.Keys == predictions.Keys - rest
      invariant forall k :: k in converted ==> converted[k] == predictions[k].mean
    {
      var k :| k in rest;
      converted := converted[k := predictions[k].mean];
      rest := rest - {k};
    }
    assert converted == MeansOf(predictions);
    r := CrossValidatedScores(metric, combine, folds, converted, Length);
  }
}
