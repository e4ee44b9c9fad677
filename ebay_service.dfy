/**
 * Garmentz/backend/ebay_service.py: `EbayService`, which keeps no state;
 * `get_price_estimate` looks the lower-cased condition up in a table of
 * mocked price bands.
 */
module EbayService {
  import opened Wrappers
  import Text

  /** A price band: the dictionary `{'min': .., 'avg': .., 'max': ..}`. */
  datatype PriceEstimate = PriceEstimate(min: int, avg: int, max: int)

  const MockPrices: map<string, PriceEstimate> := map[
    "heavily worn" := PriceEstimate(10, 15, 20),
    "lightly worn" := PriceEstimate(25, 35, 45),
    "not worn" := PriceEstimate(50, 65, 80)
  ]

  const DefaultEstimate := PriceEstimate(20, 30, 40)

  /** `get_price_estimate(condition)`: every band is ordered. */
  function GetPriceEstimate(condition: string): (r: PriceEstimate)
    ensures Text.Lower(condition) in MockPrices ==> r == MockPrices[Text.Lower(condition)]
    ensures Text.Lower(condition) !in MockPrices ==> r == DefaultEstimate
    ensures r.min <= r.avg <= r.max
  {
    GetOr(MockPrices, Text.Lower(condition), DefaultEstimate)
  }

  /** The listed bands and the default, read case-insensitively. */
  lemma PriceBands(condition: string)
    ensures Text.Lower(condition) == "heavily worn" ==> GetPriceEstimate(condition) == PriceEstimate(10, 15, 20)
    ensures Text.Lower(condition) == "lightly worn" ==> GetPriceEstimate(condition) == PriceEstimate(25, 35, 45)
    ensures Text.Lower(condition) == "not worn" ==> GetPriceEstimate(condition) == PriceEstimate(50, 65, 80)
    ensures Text.Lower(condition) !in {"heavily worn", "lightly worn", "not worn"} ==>
      GetPriceEstimate(condition) == PriceEstimate(20, 30, 40)
  {
  }

  /** Less wear, a higher average price; the bands of the known conditions do not overlap. */
  lemma AverageIncreasesWithCondition()
    ensures GetPriceEstimate("heavily worn").avg < GetPriceEstimate("lightly worn").avg < GetPriceEstimate("not worn").avg
    ensures GetPriceEstimate("heavily worn").max < GetPriceEstimate("lightly worn").min
    ensures GetPriceEstimate("lightly worn").max < GetPriceEstimate("not worn").min
  {
    assert Text.Lower("heavily worn") == "heavily worn";
    assert Text.Lower("lightly worn") == "lightly worn";
    assert Text.Lower("not worn") == "not worn";
  }

  /** Case does not matter. */
  lemma CaseInsensitive(condition: string)
    ensures GetPriceEstimate(condition) == GetPriceEstimate(Text.Lower(condition))
  {
    Text.LowerIdempotent(condition);
  }
}
