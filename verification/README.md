# albatross regression core, modelled in Dafny

albatross is a C++ library for Gaussian-process and other regression models.
This project models its regression core:

- the `RegressionDataset` record and its size check;
- the `RegressionModel` base class: the fitted flag, the three `fit`
  overloads, the three `predict` specialisations (joint, marginal, mean), the
  single-feature `predict`, `fit_and_predict`, the default marginal and mean
  predictions, and equality;
- the `FitModel` pair of a model and its fit;
- the cross-validation utilities that take the per-group views of
  predictions, reassemble per-group predictions into one full-length vector
  or marginal distribution, and score folds.

Layout:

- `errors.dfy` (`Errors`): `Result`, `Option` and `Outcome`. A failed C++
  `assert` or a `std::map::at` miss becomes an `Err`:
  - `InvalidArgument` for a caller's bad input;
  - `IllegalState` for a call made in the wrong state;
  - `InvalidResult` for a concrete model whose prediction has the wrong size.
- `sizes.dfy` (`Sizes`): the 32-bit casts used by the size checks (see Findings).
- `distributions.dfy` (`Distributions`): the distributions a model predicts.
  - Means are `seq<real>`.
  - A joint distribution has a dense covariance.
  - A marginal distribution has a diagonal one.
- `model.dfy` (`Models`): datasets, folds and the `RegressionModel` class.
  - A concrete model's virtual hooks (`fit_`, `predict_`, and the optional
    overrides of `predict_marginal_` and `predict_mean_`) are the function
    values of an `Implementation`.
  - The class holds the parameters, the fitted flag and the fit state. Its
    methods update them in place.
- `fit_model.dfy` (`FitModels`): `FitModel`, an immutable pair, so a
  datatype. Its datatype constructor is the C++ constructor from a model and
  a moved fit.
- `cross_validation.dfy` (`CrossValidation`): the `cross_validation_utils.hpp`
  routines.
  - The reassembly loops write into arrays, as the C++ writes into
    `Eigen::VectorXd`.
  - Each loop is proved against `ScatteredFrom`: every group's i-th value
    lands at the group's i-th listed position.
  - When the index lists partition `0 .. n-1`, that vector is unique
    (`ReassemblyIsUnique`). So the result does not depend on the order the
    groups are visited in, and the `number_filled == n` assertion always holds.

## Model

| member | source | states |
|---|---|---|
| `Sizes.ToInt32` | albatross/core/model.h:141-142 | the cast of a size to a 32-bit signed integer lies in range, agrees with the size modulo 2^32, and is the size itself below 2^31 |
| `Sizes.SameSizeAsWrittenIsCongruence` | albatross/core/model.h:56-57 | the size check as written accepts two sizes exactly when they are congruent modulo 2^32 |
| `Sizes.SameSizeAsWrittenAcceptsMismatch` | albatross/core/model.h:141-142 | the check as written accepts 2^32 + 1 features against 1 target |
| `Sizes.SameSizeAgreesBelowTwoTo31` | albatross/core/model.h:181-182 | for sizes below 2^31 the written check and exact equality agree |
| `Distributions.Covariance.Diagonal` | albatross/core/model.h:284 | the diagonal has one entry per row, and entry i is the matrix entry (i, i) |
| `Distributions.FromMean` | albatross/core/model.h:150-153 | a target vector taken as a marginal distribution keeps its means and has zero variance everywhere |
| `Distributions.MarginalOf` | albatross/core/model.h:281-284 | the marginal of a joint distribution has the same mean, and its variances are the covariance diagonal |
| `Models.MakeDataset` | albatross/core/model.h:51-58 | a dataset is built exactly when features and targets have equal counts; it holds both unchanged with empty metadata; otherwise InvalidArgument |
| `Models.MakeDatasetFromMeans` | albatross/core/model.h:60-62 | the vector-target constructor succeeds exactly on equal counts and gives zero-variance targets with the given means |
| `Models.RegressionModel.constructor` | albatross/core/model.h:118 | a new model is not fit |
| `Models.RegressionModel.Equals` | albatross/core/model.h:121-131 | equality fails with IllegalState exactly when the receiver has been fit; otherwise it is true iff names and parameters match and the other model is unfit too |
| `Models.RegressionModel.UnfitNeverEqualsFitted` | albatross/core/model.h:127-130 | an unfit model compared with a fitted one is unequal, not an error |
| `Models.RegressionModel.EqualsSymmetricWhileUnfit` | albatross/core/model.h:128-130 | between two unfit models, equality succeeds in both directions with the same answer |
| `Models.RegressionModel.Fit` | albatross/core/model.h:138-145 | fit succeeds exactly on a non-empty feature list with one target per feature; it then runs the implementation's fit and marks the model fit; on failure the state is unchanged; the parameters are unchanged (see Left out) |
| `Models.RegressionModel.FitMeans` | albatross/core/model.h:150-153 | fitting a target vector fits its zero-variance marginal, under the same conditions |
| `Models.RegressionModel.FitDataset` | albatross/core/model.h:158-160 | fitting a dataset succeeds exactly when the dataset is non-empty and consistent, and fits its features and targets |
| `Models.RegressionModel.ComputeMarginal` | albatross/core/model.h:277-285 | without an override, the marginal prediction has the joint mean and the joint covariance diagonal, and logs the inefficiency warning; with one, it is the override's result and logs nothing |
| `Models.RegressionModel.ComputeMean` | albatross/core/model.h:287-293 | without an override, the mean prediction is the joint mean and logs the warning; with one, it is the override's result |
| `Models.RegressionModel.PredictJoint` | albatross/core/model.h:176-184 | an unfit model refuses with IllegalState; a fit model returns the implementation's joint prediction iff it has one mean per feature; it never blames the caller's argument |
| `Models.RegressionModel.PredictMarginal` | albatross/core/model.h:186-194 | IllegalState with no warning when unfit; once fit, the marginal prediction (override or fallback) is returned iff it has one mean per feature, else InvalidResult; the fallback's warning is logged in both cases |
| `Models.RegressionModel.PredictMean` | albatross/core/model.h:196-203 | IllegalState with no warning when unfit; once fit, the mean prediction (override or fallback) is returned iff it has one entry per feature, else InvalidResult; the fallback's warning is logged in both cases |
| `Models.RegressionModel.Predict` | albatross/core/model.h:167-170 | dispatch on the requested type: for each type, success, value, error and warnings are exactly those of that type's specialisation; unfit refuses; a success has the requested type and one mean per feature |
| `Models.RegressionModel.PredictOne` | albatross/core/model.h:205-209 | a single feature is predicted as the one-element list, giving exactly one mean |
| `Models.RegressionModel.FallbackViewsAgree` | albatross/core/model.h:277-293 | without overrides the joint, marginal and mean predictions succeed together, share one mean, and the marginal variances are the joint's; once fit, the marginal and mean predictions each log their warning |
| `Models.RegressionModel.PredictFailsOnlyOnStateOrResult` | albatross/core/model.h:176-203 | once fit, a prediction can fail only because the implementation returned a wrongly sized result |
| `Models.RegressionModel.FitAndPredict` | albatross/core/model.h:217-224 | a refused fit is returned as InvalidArgument with the state unchanged; otherwise the model is fit on the training data and the result is the prediction of the test features |
| `Models.RegressionModel.FitAndPredictFold` | albatross/core/model.h:230-234 | a refused fit of the fold's training dataset is InvalidArgument with the state unchanged; otherwise the model is fit on it and the result is the prediction of the fold's test features, with one mean per test feature |
| `Models.FitThenPredictOwnFeatures` | albatross/core/model.h:158-203 | after fitting a valid non-empty dataset, predicting its own features fails only on a wrongly sized implementation result; an invalid dataset is refused with InvalidArgument |
| `FitModels.FitModel.Predict` | include/albatross/core/fit_model.h:38-43 | a prediction binds the stored model and fit to the query features |
| `FitModels.FitModel.GetFit` | include/albatross/core/fit_model.h:45 | returns the stored fit |
| `FitModels.FitModel.Equals` | include/albatross/core/fit_model.h:47-49 | two pairs are equal iff they are the same value |
| `FitModels.PredictionRecoversFitModel` | include/albatross/core/fit_model.h:30-43 | the pair can be rebuilt from any of its predictions, whose fit is the stored fit |
| `FitModels.EqualsIffSamePredictions` | include/albatross/core/fit_model.h:38-49 | two pairs are equal exactly when they give the same prediction for the same features |
| `CrossValidation.PartitionInRange` | include/albatross/src/evaluation/cross_validation_utils.hpp:74 | in a partition every listed position is a row of the output |
| `CrossValidation.PartitionGroupDistinct` | include/albatross/src/evaluation/cross_validation_utils.hpp:74 | in a partition no group lists a position twice |
| `CrossValidation.PartitionGroupsDisjoint` | include/albatross/src/evaluation/cross_validation_utils.hpp:71-76 | in a partition no two groups share a position |
| `CrossValidation.PartitionCovers` | include/albatross/src/evaluation/cross_validation_utils.hpp:71-77 | in a partition every row is listed by some group |
| `CrossValidation.ScatteredAt` | include/albatross/src/evaluation/cross_validation_utils.hpp:74 | writing distinct positions puts each value at its position and leaves every other slot untouched |
| `CrossValidation.SetSubset` | include/albatross/src/evaluation/cross_validation_utils.hpp:74 | `set_subset` leaves the array as the sequential writes of each value at its listed position |
| `CrossValidation.ScatterStep` | include/albatross/src/evaluation/cross_validation_utils.hpp:71-76 | over a partition, writing one more group keeps every group already written intact |
| `CrossValidation.ScatterGroup` | include/albatross/src/evaluation/cross_validation_utils.hpp:74 | one group's values written at its positions, the groups written before preserved, and every slot outside the group unchanged |
| `CrossValidation.FillingStep` | include/albatross/src/evaluation/cross_validation_utils.hpp:75 | taking a group off the remaining ones adds its size to the filled count and keeps filled plus remaining rows equal to n |
| `CrossValidation.FillingDone` | include/albatross/src/evaluation/cross_validation_utils.hpp:77 | when no group remains, every group is written and the filled count is n |
| `CrossValidation.FillMeans` | include/albatross/src/evaluation/cross_validation_utils.hpp:71-76 | one iteration of the mean loop removes group g, adds its size to the filled count, writes its means at its positions, keeps the earlier groups and leaves every other slot unchanged |
| `CrossValidation.ReassemblyIsUnique` | include/albatross/src/evaluation/cross_validation_utils.hpp:71-78 | over a partition, two full-length vectors that both hold every group's values at its positions are equal, so the visiting order is irrelevant |
| `CrossValidation.ConcatenateMeanPredictions` | include/albatross/src/evaluation/cross_validation_utils.hpp:60-79 | succeeds exactly when there are as many mean vectors as groups and each group's vector has one entry per listed position (else InvalidArgument); the result has n entries, each group's values at its positions |
| `CrossValidation.SplitScattersBack` | include/albatross/src/evaluation/cross_validation_utils.hpp:60-79 | splitting a full-length vector by the groups of a partition gives per-group vectors that pass the checks and scatter back to that vector |
| `CrossValidation.ConcatenateInvertsSplit` | include/albatross/src/evaluation/cross_validation_utils.hpp:60-79 | concatenating the per-group split of any vector returns that vector |
| `CrossValidation.FillMarginals` | include/albatross/src/evaluation/cross_validation_utils.hpp:93-99 | one iteration of the marginal loop removes group g, adds its size to the filled count, writes its means and variances at its positions with the same index list, and leaves every other slot of both arrays unchanged |
| `CrossValidation.ReassembleMarginals` | include/albatross/src/evaluation/cross_validation_utils.hpp:93-100 | the marginal loop succeeds exactly when each group's prediction has one entry per listed position, and then scatters means and variances by the same index lists |
| `CrossValidation.ConcatenateMarginalPredictions` | include/albatross/src/evaluation/cross_validation_utils.hpp:81-102 | succeeds exactly when there are as many predictions as groups, each sized like its group (else InvalidArgument); the result has n entries, each group's means and covariance diagonal at its positions |
| `CrossValidation.GetPredictTypes` | include/albatross/src/evaluation/cross_validation_utils.hpp:30-40 | the result has the same keys, each holding the requested view of that key's prediction |
| `CrossValidation.GetMeans` | include/albatross/src/evaluation/cross_validation_utils.hpp:42-46 | the mean view of every prediction under the same key |
| `CrossValidation.GetMarginals` | include/albatross/src/evaluation/cross_validation_utils.hpp:48-52 | the marginal view of every prediction under the same key |
| `CrossValidation.GetJoints` | include/albatross/src/evaluation/cross_validation_utils.hpp:54-58 | the joint view of every prediction under the same key |
| `CrossValidation.CrossValidatedScores` | include/albatross/src/evaluation/cross_validation_utils.hpp:104-118 | scoring succeeds exactly when every fold has a prediction sized like its test set (else InvalidArgument), and then combines the metric of each fold's prediction against its held-out targets |
| `CrossValidation.ScoresIgnoreOtherPredictions` | include/albatross/src/evaluation/cross_validation_utils.hpp:110-115 | predictions under keys that are not folds do not change the scores |
| `CrossValidation.CrossValidatedScoresOfDistributions` | include/albatross/src/evaluation/cross_validation_utils.hpp:120-130 | scoring distributions is scoring their means under the same keys; it succeeds exactly when every fold's distribution is sized like its test set |

## Left out

- The compile-time dispatch of `predict<PredictType>` and the prediction-type
  traits. `Predict` takes the requested type as a `PredictType` value. The
  default template argument `JointDistribution` of `predict` and
  `fit_and_predict` means that a call without a type is `Predict(JointType, …)`
  (or `FitAndPredict(JointType, …)`).
- `get_predictions` (cross_validation_utils.hpp:18-28): it predicts the
  training features of each fold and is not part of this model.
- cereal serialization (`serialize`, `save`, `load`), `pretty_string`, and
  the dataset's own `operator==`. The dataset's `operator==` is Dafny's
  datatype equality.
- Console output. The warning lines of the default marginal and mean
  predictions are returned as the `warnings` of a `Logged` value, by the
  fallbacks themselves and by every prediction made through them
  (`PredictMarginal`, `PredictMean`, `Predict`, `FitAndPredict`).
- Eigen. Vectors are `seq<real>`, a dense covariance is a sequence of rows,
  and only `diagonal()` and `asDiagonal()` are modelled. Floating-point
  rounding is not modelled.
- `ParameterHandlingMixin`. The parameters (each a value with its prior) are
  an abstract type with equality, which the model compares and passes to the
  implementation's fit; reading, setting and tuning them is not part of this
  model.
- `dataset_size_from_indexer` is not part of this model. The concatenation
  routines receive the size n and require that the index lists partition
  `0 .. n-1`, which is what that function's result means.
- `set_subset` is defined in a header this model does not cover. `SetSubset`
  models it as the sequential writes its name and call describe.
- `distribution.h` is not part of this model. Distributions are assumed
  consistent (a square covariance, one row per mean entry). A plain vector
  turned into a marginal distribution has zero variance.
- `Models.RegressionModel.FitAndPredictFold`: the source reads
  `fold.train.features`, `fold.train.targets` and `fold.test.features`, which
  `RegressionFold` does not have. The model uses the fold's `train_dataset`
  and `test_dataset`, the only datasets a fold holds.
- `Models.RegressionModel.Fit`: a concrete model's `fit_` is taken to change
  only its fit state. In the library `fit_` is a non-const member of a class
  that also holds the parameters, so it could change them as well. The
  promise that the parameters are unchanged (also made by `FitMeans`,
  `FitDataset`, `FitAndPredict` and `FitAndPredictFold`) holds only under
  this assumption.
- `Models.RegressionModel.Equals`: only models with the same implementation
  and fit-state types are compared. The library compares a model with any
  other model of the same feature type.
- `Models.RegressionModel.Equals`: only the receiver's fitted flag is checked
  before comparing, as the code does. A fitted argument compared against an
  unfit receiver gives `false`, not an error.
- `CrossValidation.ConcatenateMeanPredictions`: a group missing from the means
  (the `std::map::at` exception) and a wrongly sized group (the failed
  `assert`) are both reported as `InvalidArgument`.
- `CrossValidation.ReassembleMarginals`: a prediction's size is taken as the
  length of its mean, which is what `size()` returns.
- Groups are visited in an arbitrary order rather than in key order. By
  `ReassemblyIsUnique` the result is the same. Which error is reported first
  can differ when several groups are wrong, but every such error is
  `InvalidArgument`.

## Findings

| source | as written | input that shows it | evidently intended | confidence | as-written member | corrected member |
|---|---|---|---|---|---|---|
| albatross/core/model.h:141-142 | the sizes are compared after `static_cast<s32>`, which keeps the low 32 bits; the same cast guards the dataset constructor (lines 56-57) and all three predictions (lines 181-182, 191-192, 201) | 2^32 + 1 features with 1 target: both cast to 1, so the check passes | reject any difference between the two counts | not executed | `Sizes.SameSizeAsWrittenAcceptsMismatch` | `Models.MakeDataset` |

The as-written check is `Sizes.SameSizeAsWritten`, and
`Sizes.SameSizeAsWrittenIsCongruence` characterises it completely. The
corrected check is `Sizes.SameSize` (exact equality). The rest of the model
uses the corrected check. For example, `Models.MakeDataset` and
`Models.RegressionModel.Fit` succeed exactly when the counts are equal.
`Sizes.SameSizeAgreesBelowTwoTo31` shows that the two checks differ only for
sizes of 2^31 or more.
