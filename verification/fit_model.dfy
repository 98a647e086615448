/**
 * The pairing of a model with the fit it produced.
 *
 * A `FitModel` owns a copy of the model and the fit state; both are fixed at
 * construction and there is no operation that changes either. A datatype
 * states that directly: its values are immutable. Prediction does not
 * compute anything yet; it binds the stored model and fit to the query
 * features, to be evaluated in whichever representation is asked for.
 */
module FitModels {

  /** A deferred prediction: the model, its fit and the features to predict. */
  datatype Prediction<M, F, Fit> = Prediction(model: M, fit: Fit, features: seq<F>)

  datatype FitModel<M(==), Fit(==)> = FitModel(model: M, fit: Fit) {

    /** Binds the stored model and fit to the query features. */
    function Predict<F>(features: seq<F>): (p: Prediction<M, F, Fit>)
      ensures p.model == model && p.fit == fit && p.features == features
    {
      Prediction(model, fit, features)
    }

    function GetFit(): (f: Fit)
      ensures f == fit
    {
      fit
    }

    /** Componentwise equality: the models are equal and the fits are equal. */
    function Equals(other: FitModel<M, Fit>): (r: bool)
      ensures r <==> this == other
    {
      model == other.model && fit == other.fit
    }
  }

  /** A prediction determines the pair it came from: model and fit are recovered unchanged. */
  lemma PredictionRecoversFitModel<M, Fit, F>(fm: FitModel<M, Fit>, features: seq<F>)
    ensures FitModel(fm.Predict(features).model, fm.Predict(features).fit) == fm
    ensures fm.Predict(features).fit == fm.GetFit()
  {
  }

  /** Equal pairs predict equally, and different pairs never give the same prediction. */
  lemma EqualsIffSamePredictions<M, Fit, F>(a: FitModel<M, Fit>, b: FitModel<M, Fit>, features: seq<F>)
    ensures a.Equals(b) <==> a.Predict(features) == b.Predict(features)
  {
  }
}
