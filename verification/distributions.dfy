/**
 * Predictive distributions.
 *
 * A distribution is a mean vector and a covariance. A joint distribution
 * carries the full (dense) covariance across the queried points; a marginal
 * distribution carries only the per-point variances, stored as a diagonal
 * matrix. Vectors are `seq<real>`, a dense matrix is a sequence of rows.
 */
module Distributions {

  datatype Covariance =
    | Dense(rows: seq<seq<real>>)
    | DiagonalMatrix(entries: seq<real>)
  {
    /** Number of rows (and of columns, when the matrix is square). */
    function Dimension(): nat {
      match this
      case Dense(rows) => |rows|
      case DiagonalMatrix(entries) => |entries|
    }

    predicate Square() {
      Dense? ==> forall i :: 0 <= i < |rows| ==> |rows[i]| == |rows|
    }

    /** The main diagonal: `covariance.diagonal()`. */
    function Diagonal(): (d: seq<real>)
      requires Square()
      ensures |d| == Dimension()
      ensures Dense? ==> forall i :: 0 <= i < |d| ==> d[i] == rows[i][i]
      ensures DiagonalMatrix? ==> d == entries
    {
      match this
      case Dense(rows) => seq(|rows|, i requires 0 <= i < |rows| => rows[i][i])
      case DiagonalMatrix(entries) => entries
    }
  }

  datatype Distribution = Distribution(mean: seq<real>, covariance: Covariance) {
    /** `size()`: the number of points the distribution describes. */
    function Size(): nat {
      |mean|
    }

    /** The covariance is square and has one row per mean entry. */
    predicate Consistent() {
      covariance.Square() && covariance.Dimension() == |mean|
    }

    /** Per-point variances: the diagonal of the covariance. */
    function Variance(): (v: seq<real>)
      requires Consistent()
      ensures |v| == |mean|
    {
      covariance.Diagonal()
    }
  }

  /** `JointDistribution`: a distribution with a dense covariance. */
  type JointDistribution = d: Distribution | d.Consistent() && d.covariance.Dense?
    witness Distribution([], Dense([]))

  /** `MarginalDistribution`: a distribution with a diagonal covariance. */
  type MarginalDistribution = d: Distribution | d.Consistent() && d.covariance.DiagonalMatrix?
    witness Distribution([], DiagonalMatrix([]))

  /** `MarginalDistribution(targets)`: the given means with zero variance. */
  function FromMean(mean: seq<real>): (d: MarginalDistribution)
    ensures d.mean == mean
    ensures forall i :: 0 <= i < |mean| ==> d.Variance()[i] == 0.0
  {
    Distribution(mean, DiagonalMatrix(seq(|mean|, _ => 0.0)))
  }

  /** The marginal of a joint distribution: same mean, variances from the covariance diagonal. */
  function MarginalOf(joint: JointDistribution): (m: MarginalDistribution)
    ensures m.mean == joint.mean
    ensures m.Variance() == joint.Variance()
    ensures forall i :: 0 <= i < |m.mean| ==> m.Variance()[i] == joint.covariance.rows[i][i]
  {
    Distribution(joint.mean, DiagonalMatrix(joint.Variance()))
  }

  /** The three representations a prediction can be requested in (the `PredictType` template argument). */
  datatype PredictType = JointType | MarginalType | MeanType

  /** A prediction in one of the three representations. */
  datatype Predicted =
    | JointPrediction(joint: JointDistribution)
    | MarginalPrediction(marginal: MarginalDistribution)
    | MeanPrediction(means: seq<real>)
  {
    function Kind(): PredictType {
      match this
      case JointPrediction(_) => JointType
      case MarginalPrediction(_) => MarginalType
      case MeanPrediction(_) => MeanType
    }

    /** The predicted mean, whichever the representation. */
    function Mean(): seq<real> {
      match this
      case JointPrediction(j) => j.mean
      case MarginalPrediction(m) => m.mean
      case MeanPrediction(v) => v
    }
  }

  /** A value together with the warnings emitted while computing it. */
  datatype Logged<+T> = Logged(value: T, warnings: seq<string>)
}
