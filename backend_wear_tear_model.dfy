/**
 * backend/wear_tear_model.py: `WearTearModel`, the three-way wear
 * classifier. Its fields are set in the constructor and only read, so it
 * is a value.
 */
module BackendWearTearModel {
  import opened Wrappers
  import opened Inference

  const Labels: seq<string> := ["heavily worn", "lightly worn", "not worn"]

  datatype WearTearModel = WearTearModel(model: Option<Model>, labels: seq<string>)
  {
    /**
     * `predict(img_path)`: the fixed answer "Model not loaded." without a
     * model, else the label at `np.argmax` of the prediction. `image` is the
     * loaded and normalised file, `None` when `load_img` raised.
     */
    function Predict(image: Option<Pixels>): (r: Result<string>)
      ensures model.None? ==> r == Returned("Model not loaded.")
      ensures model.Some? && image.None? ==> r == Raised(OSError)
      ensures model.Some? && image.Some? ==> r == ArgmaxLabel(labels, Flatten(model.value.predict(image.value)))
    {
      match model
      case None => Returned("Model not loaded.")
      case Some(m) =>
        match image
        case None => Raised(OSError)
        case Some(pixels) => ArgmaxLabel(labels, Flatten(m.predict(pixels)))
    }
  }

  /** `WearTearModel(model_path)`: `loaded` is what `load_model` produced, `None` when it raised. */
  function New(loaded: Option<Model>): (w: WearTearModel)
    ensures w.model == loaded && w.labels == Labels
  {
    WearTearModel(loaded, Labels)
  }

  /** A failed load is caught: the object exists and answers "Model not loaded." for every image. */
  lemma FailedLoadAnswers(image: Option<Pixels>)
    ensures New(None).Predict(image) == Returned("Model not loaded.")
  {
  }

  /**
   * With a model, a returned answer is one of the three labels, the one at
   * the first position of the largest prediction; a prediction with more than three
   * entries whose largest lies past the third raises `IndexError`.
   */
  lemma PredictIsLargestLabel(m: Model, pixels: Pixels)
    ensures var r := New(Some(m)).Predict(Some(pixels));
      var preds := Flatten(m.predict(pixels));
      && (r.Returned? ==> r.value in Labels)
      && (r.Returned? ==> r.value == Labels[Argmax(preds)])
      && (|preds| > 0 && Argmax(preds) < 3 ==> r.Returned?)
      && (0 < |preds| <= 3 ==> r.Returned?)
  {
  }
}
