/**
 * Garmentz/backend/wear_tear_model.py: the earlier `WearTearModel`, whose
 * constructor lets a load failure escape, and the module-level load that
 * catches it instead.
 */
module GarmentzWearTearModel {
  import opened Wrappers
  import opened Inference

  const Labels: seq<string> := ["heavily worn", "lightly worn", "not worn"]

  datatype WearTearModel = WearTearModel(model: Model, labels: seq<string>)
  {
    /** `predict(img_path)`: the label at `np.argmax` of the prediction; `image` is `None` when `load_img` raised. */
    function Predict(image: Option<Pixels>): (r: Result<string>)
      ensures image.None? ==> r == Raised(OSError)
      ensures image.Some? ==> r == ArgmaxLabel(labels, Flatten(model.predict(image.value)))
    {
      match image
      case None => Raised(OSError)
      case Some(pixels) => ArgmaxLabel(labels, Flatten(model.predict(pixels)))
    }
  }

  /**
   * `WearTearModel(model_path)`: `loaded` is what `load_model(model_path)`
   * does, return a model or raise; a raised exception escapes the constructor.
   */
  function New(loaded: Result<Model>): (r: Result<WearTearModel>)
    ensures r.Raised? <==> loaded.Raised?
    ensures r.Raised? ==> r.error == loaded.error
    ensures r.Returned? ==> r.value.model == loaded.value && r.value.labels == Labels
  {
    match loaded
    case Raised(e) => Raised(e)
    case Returned(m) => Returned(WearTearModel(m, Labels))
  }

  /** The module-level `model`: the loaded model, or `None` when `load_model` raised. */
  function ModuleModel(loaded: Result<Model>): (r: Option<Model>)
    ensures r.None? <==> loaded.Raised?
    ensures r.Some? ==> r.value == loaded.value
  {
    match loaded
    case Raised(_) => None
    case Returned(m) => Some(m)
  }

  /** The same failed load raises in the constructor but leaves `None` at module level. */
  lemma LoadFailureContrast(e: Exception)
    ensures New(Raised(e)) == Raised(e) && ModuleModel(Raised(e)) == None
  {
  }

  /**
   * A returned label is one of the three, at the first position of the
   * largest prediction; an empty prediction raises `ValueError`.
   */
  lemma PredictIsLargestLabel(m: Model, pixels: Pixels)
    ensures var r := New(Returned(m)).value.Predict(Some(pixels));
      var preds := Flatten(m.predict(pixels));
      && (r.Returned? ==> r.value in Labels)
      && (r.Returned? ==> r.value == Labels[Argmax(preds)])
      && (0 < |preds| <= 3 ==> r.Returned?)
      && (|preds| == 0 ==> r.Raised? && r.error.ValueError?)
  {
  }
}
