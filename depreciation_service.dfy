/**
 * backend/depreciation_service.py: `DepreciationService`, whose one field,
 * the loss-rate table, is set when the service is built and only read
 * afterwards. The service is therefore a value; neither operation can
 * change the table.
 */
module DepreciationService {
  import opened Wrappers
  import Text
  import Rounding
  import AttributeScore

  datatype DepreciationService = DepreciationService(depreciationRates: map<string, real>)
  {
    /** `calculate(condition, original_price=100.0)`: the price left after the condition's loss. */
    function Calculate(condition: string, originalPrice: real := 100.0): (r: real)
      ensures var rate := GetOr(depreciationRates, Text.Lower(condition), 0.5);
        -0.005 <= r - originalPrice * (1.0 - rate) <= 0.005
    {
      var rate := GetOr(depreciationRates, Text.Lower(condition), 0.5);
      assert Rounding.Pow10(2) as real == 100.0;
      Rounding.Round(originalPrice * (1.0 - rate), 2)
    }

    /** This file's copy of the attribute score (`calculate_depreciation`). */
    function CalculateDepreciation(brand: string, fabric: string, ageYears: real, wearLevelScore: real): (r: real)
      ensures r == AttributeScore.AttrScore(brand, fabric, ageYears, wearLevelScore)
      ensures 0.0 <= ageYears && 0.0 <= wearLevelScore <= 1.0 ==> 0.0 <= r <= 1.0
    {
      var brandScore := if Text.Lower(brand) in ["gucci", "prada", "lv"] then 0.8 else 0.6;
      var fabricScore := if Text.Lower(fabric) in ["leather", "wool"] then 0.9 else 0.7;
      var ageScore := if 0.0 > 1.0 - ageYears / 10.0 then 0.0 else 1.0 - ageYears / 10.0;
      var wearScore := 1.0 - wearLevelScore;
      var depreciation := brandScore * fabricScore * ageScore * wearScore;
      assert depreciation == AttributeScore.RawScore(brand, fabric, ageYears, wearLevelScore);
      if 0.0 <= ageYears && 0.0 <= wearLevelScore <= 1.0 then
        AttributeScore.AttrScoreBounds(brand, fabric, ageYears, wearLevelScore);
        Rounding.Round(depreciation, 3)
      else
        Rounding.Round(depreciation, 3)
    }
  }

  /** `DepreciationService()`: the table of loss fractions by condition. */
  function New(): (s: DepreciationService)
    ensures s.depreciationRates.Keys == {"heavily worn", "lightly worn", "not worn"}
  {
    DepreciationService(map["heavily worn" := 0.80, "lightly worn" := 0.40, "not worn" := 0.10])
  }

  /** The loss rate `calculate` applies: looked up after lower-casing, 0.5 when unknown. */
  function LossRate(condition: string): real {
    GetOr(New().depreciationRates, Text.Lower(condition), 0.5)
  }

  /** The three known conditions lose 80%, 40% and 10%; every other label loses 50%. */
  lemma LossRateTable(condition: string)
    ensures Text.Lower(condition) == "heavily worn" ==> LossRate(condition) == 0.80
    ensures Text.Lower(condition) == "lightly worn" ==> LossRate(condition) == 0.40
    ensures Text.Lower(condition) == "not worn" ==> LossRate(condition) == 0.10
    ensures Text.Lower(condition) !in {"heavily worn", "lightly worn", "not worn"} ==>
      LossRate(condition) == 0.5
    ensures 0.10 <= LossRate(condition) <= 0.80
  {
  }

  /** Each known condition keeps its own share of the price, and any other label keeps half. */
  lemma CalculateByCondition(condition: string, originalPrice: real)
    ensures Text.Lower(condition) == "heavily worn" ==>
      New().Calculate(condition, originalPrice) == Rounding.Round(0.2 * originalPrice, 2)
    ensures Text.Lower(condition) == "lightly worn" ==>
      New().Calculate(condition, originalPrice) == Rounding.Round(0.6 * originalPrice, 2)
    ensures Text.Lower(condition) == "not worn" ==>
      New().Calculate(condition, originalPrice) == Rounding.Round(0.9 * originalPrice, 2)
    ensures Text.Lower(condition) !in {"heavily worn", "lightly worn", "not worn"} ==>
      New().Calculate(condition, originalPrice) == Rounding.Round(0.5 * originalPrice, 2)
  {
    LossRateTable(condition);
    assert originalPrice * (1.0 - 0.80) == 0.2 * originalPrice;
    assert originalPrice * (1.0 - 0.40) == 0.6 * originalPrice;
    assert originalPrice * (1.0 - 0.10) == 0.9 * originalPrice;
    assert originalPrice * (1.0 - 0.5) == 0.5 * originalPrice;
  }

  lemma KeptShare(price: real, rate: real)
    requires price >= 0.0 && 0.0 <= rate <= 1.0
    ensures 0.0 <= price * (1.0 - rate) <= price
  {
    assert price - price * (1.0 - rate) == price * rate;
  }

  /**
   * For a non-negative price the amount kept lies between 0 and the price;
   * rounding to cents keeps it non-negative and at most half a cent above.
   */
  lemma CalculateBounds(condition: string, originalPrice: real)
    requires originalPrice >= 0.0
    ensures 0.0 <= originalPrice * (1.0 - LossRate(condition)) <= originalPrice
    ensures 0.0 <= New().Calculate(condition, originalPrice) <= originalPrice + 0.005
  {
    LossRateTable(condition);
    var kept := originalPrice * (1.0 - LossRate(condition));
    KeptShare(originalPrice, LossRate(condition));
    Rounding.RoundOnGrid(0, 2);
    Rounding.RoundMonotone(0.0, kept, 2);
  }

  /** A price given in whole cents is never exceeded. */
  lemma CalculateAtMostPrice(condition: string, cents: nat)
    ensures New().Calculate(condition, cents as real / 100.0) <= cents as real / 100.0
  {
    var price := cents as real / 100.0;
    assert price == cents as real / Rounding.Pow10(2) as real;
    CalculateBounds(condition, price);
    Rounding.RoundWithin(price * (1.0 - LossRate(condition)), 0, cents, 2);
  }

  /** With a fixed non-negative price, a worse condition is never worth more. */
  lemma CalculateOrdered(originalPrice: real)
    requires originalPrice >= 0.0
    ensures New().Calculate("heavily worn", originalPrice) <= New().Calculate("lightly worn", originalPrice)
    ensures New().Calculate("lightly worn", originalPrice) <= New().Calculate("not worn", originalPrice)
  {
    assert Text.Lower("heavily worn") == "heavily worn";
    assert Text.Lower("lightly worn") == "lightly worn";
    assert Text.Lower("not worn") == "not worn";
    var h, l, n := originalPrice * (1.0 - 0.80), originalPrice * (1.0 - 0.40), originalPrice * (1.0 - 0.10);
    assert h <= l <= n;
    Rounding.RoundMonotone(h, l, 2);
    Rounding.RoundMonotone(l, n, 2);
  }

  /** At the default price of 100, "not worn" is worth 90 and an unknown label 50. */
  lemma DefaultPriceExamples()
    ensures New().Calculate("not worn") == 90.0
    ensures New().Calculate("unknown") == 50.0
  {
    assert Text.Lower("not worn") == "not worn";
    assert Text.Lower("unknown") == "unknown";
    assert 100.0 * (1.0 - 0.10) == 9000 as real / Rounding.Pow10(2) as real;
    Rounding.RoundOnGrid(9000, 2);
    assert 100.0 * (1.0 - 0.5) == 5000 as real / Rounding.Pow10(2) as real;
    Rounding.RoundOnGrid(5000, 2);
  }
}
