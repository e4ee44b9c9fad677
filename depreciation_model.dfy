/**
 * Garmentz/backend/depreciation_model.py: `DepreciationModel`, an optional
 * Keras regressor with the rule-based score as its fallback. The `model`
 * field is assigned only while the object is built, so the object is a value.
 */
module DepreciationModel {
  import opened Wrappers
  import Text
  import Rounding
  import AttributeScore
  import opened Inference

  datatype DepreciationModel = DepreciationModel(model: Option<Model>)
  {
    /**
     * `predict(img_path)`: raise `ValueError` without a model, else load the
     * image and answer the first output `prediction[0][0]` rounded to two
     * places. `image` is the loaded and normalised file, `None` when
     * `load_img` raised.
     */
    function Predict(image: Option<Pixels>): (r: Result<real>)
      ensures model.None? ==> r == Raised(ValueError("Model not loaded. Cannot predict."))
      ensures model.Some? && image.None? ==> r == Raised(OSError)
      ensures model.Some? && image.Some? ==>
        var out := model.value.predict(image.value);
        if out.Batch? && |out.rows| > 0 && |out.rows[0]| > 0
        then r.Returned? && -0.005 <= r.value - out.rows[0][0] <= 0.005
        else r == Raised(IndexError)
    {
      match model
      case None => Raised(ValueError("Model not loaded. Cannot predict."))
      case Some(m) =>
        match image
        case None => Raised(OSError)
        case Some(pixels) =>
          match m.predict(pixels)
          case Batch(rows) =>
            if |rows| > 0 && |rows[0]| > 0 then Returned(Rounding.Round(rows[0][0], 2))
            else Raised(IndexError)
          // `prediction[0]` of a rank-1 array is a scalar, and indexing it again raises.
          case Flat(_) => Raised(IndexError)
    }

    /** This file's copy of the attribute score, used when no model is loaded. */
    function CalculateDepreciation(brand: string, fabric: string, ageYears: real, wearLevelScore: real): (r: real)
      ensures r == AttributeScore.AttrScore(brand, fabric, ageYears, wearLevelScore)
    {
      var brandScore := if Text.Lower(brand) in ["gucci", "prada", "lv"] then 0.8 else 0.6;
      var fabricScore := if Text.Lower(fabric) in ["leather", "wool"] then 0.9 else 0.7;
      var ageScore := if 0.0 > 1.0 - ageYears / 10.0 then 0.0 else 1.0 - ageYears / 10.0;
      var wearScore := 1.0 - wearLevelScore;
      var depreciation := brandScore * fabricScore * ageScore * wearScore;
      assert depreciation == AttributeScore.RawScore(brand, fabric, ageYears, wearLevelScore);
      Rounding.Round(depreciation, 3)
    }
  }

  /**
   * `DepreciationModel(model_path=None)`: no load is attempted for a missing
   * or empty path; `loaded` is what `load_model(model_path)` produced, `None`
   * when it raised (the constructor catches that).
   */
  function New(modelPath: Option<string>, loaded: Option<Model>): (d: DepreciationModel)
    ensures d.model.None? <==> modelPath.None? || modelPath == Some("") || loaded.None?
    ensures d.model.Some? ==> d.model == loaded
  {
    match modelPath
    case Some(path) =>
      if path != "" then DepreciationModel(loaded) else DepreciationModel(None)
    case None => DepreciationModel(None)
  }

  /** Without a model path there is never a model, and prediction raises. */
  lemma NoPathNoModel(loaded: Option<Model>, image: Option<Pixels>)
    ensures New(None, loaded).model == None
    ensures New(None, loaded).Predict(image).Raised?
  {
  }

  /** A failed load is not an error: the fallback remains usable. */
  lemma FailedLoadFallsBack(path: string, brand: string, fabric: string, ageYears: real, wearLevelScore: real)
    requires 0.0 <= ageYears && 0.0 <= wearLevelScore <= 1.0
    ensures New(Some(path), None).model == None
    ensures 0.0 <= New(Some(path), None).CalculateDepreciation(brand, fabric, ageYears, wearLevelScore) <= 1.0
  {
    AttributeScore.AttrScoreBounds(brand, fabric, ageYears, wearLevelScore);
  }

  /** A prediction with two decimals already is returned as it is. */
  lemma PredictKeepsCents(m: Model, pixels: Pixels, cents: int)
    requires m.predict(pixels) == Batch([[cents as real / 100.0]])
    ensures DepreciationModel(Some(m)).Predict(Some(pixels)) == Returned(cents as real / 100.0)
  {
    assert cents as real / 100.0 == cents as real / Rounding.Pow10(2) as real;
    Rounding.RoundOnGrid(cents, 2);
  }
}
