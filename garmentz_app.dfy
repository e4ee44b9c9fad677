/**
 * Garmentz/backend/app.py: the attribute-score function and the
 * `POST /depreciation` handler that validates the JSON body and calls it.
 */
module GarmentzApp {
  import opened Wrappers
  import Text
  import Rounding
  import Json
  import AttributeScore

  /** This file's copy of `calculate_depreciation`. */
  function CalculateDepreciation(brand: string, fabric: string, ageYears: real, wearLevelScore: real): (r: real)
    ensures r == AttributeScore.AttrScore(brand, fabric, ageYears, wearLevelScore)
  {
    var brandScore := if Text.Lower(brand) in ["gucci", "prada", "lv"] then 0.8 else 0.6;
    var fabricScore := if Text.Lower(fabric) in ["leather", "wool"] then 0.9 else 0.7;
    var ageScore := if 0.0 > 1.0 - ageYears / 10.0 then 0.0 else 1.0 - ageYears / 10.0;
    var wearScore := 1.0 - wearLevelScore;
    var depreciation := brandScore * fabricScore * ageScore * wearScore;
    assert depreciation == AttributeScore.RawScore(brand, fabric, ageYears, wearLevelScore);
    Rounding.Round(depreciation, 3)
  }

  const RequiredFields: seq<string> := ["brand", "fabric", "age_years", "wear_level_score"]

  /** What the handler answers: a score, or a status code with an error body. */
  datatype Response =
    | ScoreResponse(depreciationScore: real)
    | ErrorResponse(status: int, error: string)

  const MissingFields := ErrorResponse(400, "Missing one or more required fields")

  /** An exception escaping a Flask view is answered with status 500. */
  const InternalError := ErrorResponse(500, "Internal Server Error")

  /**
   * `get_depreciation` on the decoded body: reject a body missing any of the
   * four fields with 400, convert age and wear with `float()`, and answer the
   * attribute score. `float()` on a non-number and `.lower()` on a non-string
   * raise, which Flask turns into 500.
   */
  function GetDepreciation(data: map<string, Json.JsonValue>): (r: Response)
    ensures (exists f :: f in RequiredFields && f !in data) <==> r == MissingFields
    ensures (forall f :: f in RequiredFields ==> f in data) ==>
      var brand, fabric := data["brand"], data["fabric"];
      var age, wear := Json.ToFloat(data["age_years"]), Json.ToFloat(data["wear_level_score"]);
      if brand.JString? && fabric.JString? && age.Some? && wear.Some? then
        r == ScoreResponse(AttributeScore.AttrScore(brand.s, fabric.s, age.value, wear.value))
      else r == InternalError
  {
    if !(forall f :: f in RequiredFields ==> f in data) then MissingFields
    else
      match (Json.ToFloat(data["age_years"]), Json.ToFloat(data["wear_level_score"]))
      case (Some(age), Some(wear)) =>
        if data["brand"].JString? && data["fabric"].JString? then
          ScoreResponse(CalculateDepreciation(data["brand"].s, data["fabric"].s, age, wear))
        else InternalError
      case _ => InternalError
  }

  /** A well-formed request is answered with a score between 0 and 0.72. */
  lemma WellFormedRequestScore(brand: string, fabric: string, ageYears: real, wearLevelScore: real)
    requires 0.0 <= ageYears && 0.0 <= wearLevelScore <= 1.0
    ensures var data := map["brand" := Json.JString(brand), "fabric" := Json.JString(fabric),
                            "age_years" := Json.JNumber(ageYears),
                            "wear_level_score" := Json.JNumber(wearLevelScore)];
      GetDepreciation(data).ScoreResponse?
      && 0.0 <= GetDepreciation(data).depreciationScore <= 0.72
  {
    AttributeScore.AttrScoreBounds(brand, fabric, ageYears, wearLevelScore);
  }
}
