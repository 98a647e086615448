/**
 * Datasets, folds and the fit/predict state machine of `RegressionModel`.
 *
 * A concrete model supplies its fitting routine and its joint prediction, and
 * may supply cheaper marginal and mean predictions. Those virtual hooks become
 * the function values of an `Implementation`; the class around them holds the
 * fitted flag, the parameters and the fit state, and performs the size and
 * state checks of the base class.
 */
module Models {
  import opened Errors
  import opened Sizes
  import opened Distributions

  /**
   * The model's parameters, as the parameter-handling base class keeps them
   * (each a value with its prior). The regression core only passes them to the
   * implementation's fit and compares them for equality.
   */
  type Parameters(==)

  /** Features, their targets and free-form metadata. */
  datatype RegressionDataset<F> = RegressionDataset(
    features: seq<F>,
    targets: MarginalDistribution,
    metadata: map<string, string>)
  {
    function Size(): nat {
      |features|
    }

    /** The dataset invariant: one target per feature. */
    predicate Valid() {
      SameSize(|features|, targets.Size())
    }
  }

  /** The two-argument constructor: refuses features and targets of different counts. */
  function MakeDataset<F>(features: seq<F>, targets: MarginalDistribution): (r: Result<RegressionDataset<F>>)
    ensures r.Ok? <==> |features| == |targets.mean|
    ensures r.Ok? ==> r.value.Valid() && r.value.metadata == map[]
    ensures r.Ok? ==> r.value.features == features && r.value.targets == targets
    ensures r.Err? ==> r.error == InvalidArgument
  {
    if SameSize(|features|, targets.Size()) then Ok(RegressionDataset(features, targets, map[]))
    else Err(InvalidArgument)
  }

  /** The constructor from a plain target vector, which takes the targets as exact. */
  function MakeDatasetFromMeans<F>(features: seq<F>, targets: seq<real>): (r: Result<RegressionDataset<F>>)
    ensures r.Ok? <==> |features| == |targets|
    ensures r.Ok? ==> r.value.Valid() && r.value.features == features && r.value.targets.mean == targets
    ensures r.Ok? ==> forall i :: 0 <= i < |targets| ==> r.value.targets.Variance()[i] == 0.0
  {
    MakeDataset(features, FromMean(targets))
  }

  /** A train/test split of one cross-validation round. */
  datatype RegressionFold<F> = RegressionFold(
    trainDataset: RegressionDataset<F>,
    testDataset: RegressionDataset<F>,
    name: string,
    testIndices: seq<int>)

  /**
   * What a concrete model provides: `fit_`, `predict_` (joint), and optional
   * overrides of `predict_marginal_` and `predict_mean_`.
   */
  datatype Implementation<!F, !S> = Implementation(
    fit: (Parameters, seq<F>, MarginalDistribution) -> S,
    joint: (S, seq<F>) -> JointDistribution,
    marginal: Option<(S, seq<F>) -> MarginalDistribution>,
    mean: Option<(S, seq<F>) -> seq<real>>)

  const MarginalWarning: string :=
    "WARNING: A marginal prediction is being made, but in a horribly inefficient way."
  const MeanWarning: string :=
    "WARNING: A mean prediction is being made, but in a horribly inefficient way."

  /** The checks `fit` makes before delegating: some features, and one target per feature. */
  predicate CanFit<F>(features: seq<F>, targets: MarginalDistribution) {
    |features| > 0 && SameSize(|features|, targets.Size())
  }

  class RegressionModel<F, S> {
    const name: string
    const impl: Implementation<F, S>
    var params: Parameters
    var hasBeenFit: bool
    var fitState: S

    /** A new model is unfit. */
    constructor (name: string, impl: Implementation<F, S>, params: Parameters, initialState: S)
      ensures this.name == name && this.impl == impl && this.params == params
      ensures !hasBeenFit && fitState == initialState
    {
      this.name := name;
      this.impl := impl;
      this.params := params;
      hasBeenFit := false;
      fitState := initialState;
    }

    /**
     * Equality: refused once this model has been fit; otherwise name,
     * parameters and fitted flag must all match.
     */
    function Equals(other: RegressionModel<F, S>): (r: Result<bool>)
      reads this, other
      ensures r.Err? <==> hasBeenFit
      ensures r.Err? ==> r.error == IllegalState
      ensures r.Ok? ==> (r.value <==> name == other.name && params == other.params && !other.hasBeenFit)
    {
      if hasBeenFit then Err(IllegalState)
      else Ok(name == other.name && params == other.params && hasBeenFit == other.hasBeenFit)
    }

    /** Checks the sizes, runs the implementation's `fit_`, and marks the model fit. */
    method Fit(features: seq<F>, targets: MarginalDistribution) returns (r: Outcome)
      modifies this
      ensures r.Pass? <==> CanFit(features, targets)
      ensures r.Fail? ==> r.error == InvalidArgument
      ensures r.Pass? ==> hasBeenFit && fitState == impl.fit(old(params), features, targets)
      ensures r.Fail? ==> hasBeenFit == old(hasBeenFit) && fitState == old(fitState)
      ensures params == old(params)
    {
      if !CanFit(features, targets) {
        return Fail(InvalidArgument);
      }
      fitState := impl.fit(params, features, targets);
      hasBeenFit := true;
      r := Pass;
    }

    /** `fit` with a plain target vector, taken as exact. */
    method FitMeans(features: seq<F>, targets: seq<real>) returns (r: Outcome)
      modifies this
      ensures r.Pass? <==> |features| > 0 && |features| == |targets|
      ensures r.Pass? ==> hasBeenFit && fitState == impl.fit(old(params), features, FromMean(targets))
      ensures r.Fail? ==> r.error == InvalidArgument && hasBeenFit == old(hasBeenFit) && fitState == old(fitState)
      ensures params == old(params)
    {
      r := Fit(features, FromMean(targets));
    }

    /** `fit` on the features and targets of a dataset. */
    method FitDataset(dataset: RegressionDataset<F>) returns (r: Outcome)
      modifies this
      ensures r.Pass? <==> dataset.Size() > 0 && dataset.Valid()
      ensures r.Pass? ==> hasBeenFit && fitState == impl.fit(old(params), dataset.features, dataset.targets)
      ensures r.Fail? ==> r.error == InvalidArgument && hasBeenFit == old(hasBeenFit) && fitState == old(fitState)
      ensures params == old(params)
    {
      r := Fit(dataset.features, dataset.targets);
    }

    /** `predict_marginal_`: the override if there is one, else the marginal of the joint, with a warning. */
    function ComputeMarginal(features: seq<F>): (r: Logged<MarginalDistribution>)
      reads this
      ensures impl.marginal.Some? ==> r.value == impl.marginal.value(fitState, features) && r.warnings == []
      ensures impl.marginal.None? ==>
        var joint := impl.joint(fitState, features);
        && r.value.mean == joint.mean
        && r.value.Variance() == joint.covariance.Diagonal()
        && r.warnings == [MarginalWarning]
    {
      match impl.marginal
      case Some(marginal) => Logged(marginal(fitState, features), [])
      case None => Logged(MarginalOf(impl.joint(fitState, features)), [MarginalWarning])
    }

    /** `predict_mean_`: the override if there is one, else the mean of the joint, with a warning. */
    function ComputeMean(features: seq<F>): (r: Logged<seq<real>>)
      reads this
      ensures impl.mean.Some? ==> r.value == impl.mean.value(fitState, features) && r.warnings == []
      ensures impl.mean.None? ==> r.value == impl.joint(fitState, features).mean && r.warnings == [MeanWarning]
    {
      match impl.mean
      case Some(mean) => Logged(mean(fitState, features), [])
      case None => Logged(impl.joint(fitState, features).mean, [MeanWarning])
    }

    /** `predict<JointDistribution>`: only once fit, and only a result with one mean per feature. */
    function PredictJoint(features: seq<F>): (r: Result<JointDistribution>)
      reads this
      ensures !hasBeenFit ==> r == Err(IllegalState)
      ensures r.Ok? <==> hasBeenFit && |impl.joint(fitState, features).mean| == |features|
      ensures r.Ok? ==> r.value == impl.joint(fitState, features) && |r.value.mean| == |features|
      ensures r.Err? ==> r.error != InvalidArgument
    {
      if !hasBeenFit then Err(IllegalState)
      else
        var preds := impl.joint(fitState, features);
        if SameSize(|preds.mean|, |features|) then Ok(preds) else Err(InvalidResult)
    }

    /**
     * `predict<MarginalDistribution>`: only once fit, and only a result with one
     * mean per feature. A fallback computation logs its warning even when the
     * size check then fails.
     */
    function PredictMarginal(features: seq<F>): (r: Logged<Result<MarginalDistribution>>)
      reads this
      ensures !hasBeenFit ==> r == Logged(Err(IllegalState), [])
      ensures hasBeenFit ==> r.warnings == ComputeMarginal(features).warnings
      ensures hasBeenFit && impl.marginal.None? ==> r.warnings == [MarginalWarning]
      ensures r.value.Ok? <==> hasBeenFit && |ComputeMarginal(features).value.mean| == |features|
      ensures r.value.Ok? ==> r.value.value == ComputeMarginal(features).value && |r.value.value.mean| == |features|
      ensures r.value.Err? ==> r.value.error != InvalidArgument
    {
      if !hasBeenFit then Logged(Err(IllegalState), [])
      else
        var preds := ComputeMarginal(features);
        if SameSize(|preds.value.mean|, |features|) then Logged(Ok(preds.value), preds.warnings)
        else Logged(Err(InvalidResult), preds.warnings)
    }

    /**
     * `predict<Eigen::VectorXd>`: only once fit, and only a result with one
     * entry per feature; a fallback computation logs its warning.
     */
    function PredictMean(features: seq<F>): (r: Logged<Result<seq<real>>>)
      reads this
      ensures !hasBeenFit ==> r == Logged(Err(IllegalState), [])
      ensures hasBeenFit ==> r.warnings == ComputeMean(features).warnings
      ensures hasBeenFit && impl.mean.None? ==> r.warnings == [MeanWarning]
      ensures r.value.Ok? <==> hasBeenFit && |ComputeMean(features).value| == |features|
      ensures r.value.Ok? ==> r.value.value == ComputeMean(features).value && |r.value.value| == |features|
      ensures r.value.Err? ==> r.value.error != InvalidArgument
    {
      if !hasBeenFit then Logged(Err(IllegalState), [])
      else
        var preds := ComputeMean(features);
        if SameSize(|preds.value|, |features|) then Logged(Ok(preds.value), preds.warnings)
        else Logged(Err(InvalidResult), preds.warnings)
    }

    /**
     * `predict<PredictType>(features)`: dispatch on the requested
     * representation; the result, the error and the warnings are those of the
     * chosen specialisation.
     */
    function Predict(kind: PredictType, features: seq<F>): (r: Logged<Result<Predicted>>)
      reads this
      ensures !hasBeenFit ==> r == Logged(Err(IllegalState), [])
      ensures kind == JointType ==>
        && r.warnings == []
        && (r.value.Ok? <==> PredictJoint(features).Ok?)
        && (r.value.Ok? ==> r.value.value == JointPrediction(PredictJoint(features).value))
        && (r.value.Err? ==> r.value.error == PredictJoint(features).error)
      ensures kind == MarginalType ==>
        && r.warnings == PredictMarginal(features).warnings
        && (r.value.Ok? <==> PredictMarginal(features).value.Ok?)
        && (r.value.Ok? ==> r.value.value == MarginalPrediction(PredictMarginal(features).value.value))
        && (r.value.Err? ==> r.value.error == PredictMarginal(features).value.error)
      ensures kind == MeanType ==>
        && r.warnings == PredictMean(features).warnings
        && (r.value.Ok? <==> PredictMean(features).value.Ok?)
        && (r.value.Ok? ==> r.value.value == MeanPrediction(PredictMean(features).value.value))
        && (r.value.Err? ==> r.value.error == PredictMean(features).value.error)
      ensures r.value.Ok? ==> r.value.value.Kind() == kind && |r.value.value.Mean()| == |features|
    {
      match kind
      case JointType =>
        var joint := PredictJoint(features);
        Logged(if joint.Ok? then Ok(JointPrediction(joint.value)) else Err(joint.error), [])
      case MarginalType =>
        var marginal := PredictMarginal(features);
        Logged(if marginal.value.Ok? then Ok(MarginalPrediction(marginal.value.value)) else Err(marginal.value.error),
               marginal.warnings)
      case MeanType =>
        var mean := PredictMean(features);
        Logged(if mean.value.Ok? then Ok(MeanPrediction(mean.value.value)) else Err(mean.value.error),
               mean.warnings)
    }

    /** `predict<PredictType>(feature)`: a single feature is predicted as a one-element list. */
    function PredictOne(kind: PredictType, feature: F): (r: Logged<Result<Predicted>>)
      reads this
      ensures r == Predict(kind, [feature])
      ensures r.value.Ok? ==> r.value.value.Kind() == kind && |r.value.value.Mean()| == 1
    {
      Predict(kind, [feature])
    }

    /** `fit_and_predict`: fit on the training data, then predict the test features. */
    method FitAndPredict(kind: PredictType, trainFeatures: seq<F>, trainTargets: MarginalDistribution,
                         testFeatures: seq<F>) returns (r: Logged<Result<Predicted>>)
      modifies this
      ensures !CanFit(trainFeatures, trainTargets) ==> r == Logged(Err(InvalidArgument), [])
      ensures !CanFit(trainFeatures, trainTargets) ==> hasBeenFit == old(hasBeenFit) && fitState == old(fitState)
      ensures CanFit(trainFeatures, trainTargets) ==>
        && hasBeenFit
        && fitState == impl.fit(old(params), trainFeatures, trainTargets)
        && r == Predict(kind, testFeatures)
      ensures params == old(params)
    {
      var fitted := Fit(trainFeatures, trainTargets);
      if fitted.Fail? {
        return Logged(Err(fitted.error), []);
      }
      r := Predict(kind, testFeatures);
    }

    /** `fit_and_predict(fold)`: train on the fold's training set, predict its test features. */
    method FitAndPredictFold(kind: PredictType, fold: RegressionFold<F>) returns (r: Logged<Result<Predicted>>)
      modifies this
      ensures !CanFit(fold.trainDataset.features, fold.trainDataset.targets) ==> r == Logged(Err(InvalidArgument), [])
      ensures !CanFit(fold.trainDataset.features, fold.trainDataset.targets) ==>
        hasBeenFit == old(hasBeenFit) && fitState == old(fitState)
      ensures CanFit(fold.trainDataset.features, fold.trainDataset.targets) ==>
        && hasBeenFit
        && fitState == impl.fit(old(params), fold.trainDataset.features, fold.trainDataset.targets)
        && r == Predict(kind, fold.testDataset.features)
      ensures r.value.Ok? ==> |r.value.value.Mean()| == |fold.testDataset.features|
      ensures params == old(params)
    {
      r := FitAndPredict(kind, fold.trainDataset.features, fold.trainDataset.targets, fold.testDataset.features);
    }

    /**
     * When a model overrides neither the marginal nor the mean prediction,
     * its three views agree: all succeed or fail together, they share one
     * mean, and the marginal variances are the joint covariance diagonal.
     * Once fit, the two derived views each log their warning.
     */
    lemma FallbackViewsAgree(features: seq<F>)
      requires impl.marginal.None? && impl.mean.None?
      ensures PredictMarginal(features).value.Ok? == PredictJoint(features).Ok? == PredictMean(features).value.Ok?
      ensures PredictJoint(features).Ok? ==>
        && PredictMarginal(features).value.value.mean == PredictJoint(features).value.mean
        && PredictMean(features).value.value == PredictJoint(features).value.mean
        && PredictMarginal(features).value.value.Variance() == PredictJoint(features).value.Variance()
      ensures hasBeenFit ==>
        && PredictMarginal(features).warnings == [MarginalWarning]
        && PredictMean(features).warnings == [MeanWarning]
    {
    }

    /** A prediction never fails for a caller's argument: only for state or a bad implementation result. */
    lemma PredictFailsOnlyOnStateOrResult(kind: PredictType, features: seq<F>)
      requires hasBeenFit
      ensures Predict(kind, features).value.Err? ==> Predict(kind, features).value.error == InvalidResult
    {
    }

    /** Compared with a fitted model, an unfit model is never equal to it. */
    lemma UnfitNeverEqualsFitted(other: RegressionModel<F, S>)
      requires !hasBeenFit && other.hasBeenFit
      ensures Equals(other) == Ok(false)
    {
    }

    /** While both models are unfit, equality is symmetric. */
    lemma EqualsSymmetricWhileUnfit(other: RegressionModel<F, S>)
      requires !hasBeenFit && !other.hasBeenFit
      ensures Equals(other).Ok? && other.Equals(this).Ok?
      ensures Equals(other).value == other.Equals(this).value
    {
    }
  }

  /** Fitting a dataset and predicting its own features gives one mean per feature, or a result-size error. */
  method FitThenPredictOwnFeatures<F, S>(model: RegressionModel<F, S>, dataset: RegressionDataset<F>, kind: PredictType)
    returns (r: Logged<Result<Predicted>>)
    modifies model
    ensures dataset.Size() > 0 && dataset.Valid() ==>
      model.hasBeenFit && (r.value.Err? ==> r.value.error == InvalidResult)
    ensures !(dataset.Size() > 0 && dataset.Valid()) ==> r == Logged(Err(InvalidArgument), [])
    ensures r.value.Ok? ==> r.value.value.Kind() == kind && |r.value.value.Mean()| == dataset.Size()
  {
    var fitted := model.FitDataset(dataset);
    if fitted.Fail? {
      return Logged(Err(fitted.error), []);
    }
    r := model.Predict(kind, dataset.features);
    model.PredictFailsOnlyOnStateOrResult(kind, dataset.features);
  }
}
