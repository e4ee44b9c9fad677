/**
 * backend/recommendation_service.py: `RecommendationService`, which keeps
 * no state; `get_recommendations` is a dictionary lookup on the lower-cased
 * condition with a one-line default.
 */
module RecommendationService {
  import opened Wrappers
  import Text

  const Recommendations: map<string, seq<string>> := map[
    "heavily worn" := ["Try recycling via local programs", "Consider donation drop-off services"],
    "lightly worn" := ["Sell on Depop or Facebook Marketplace", "Bundle with other clothes for higher value"],
    "not worn" := ["Sell on Vestiaire or eBay", "Mark as \"new with tags\" to increase price"]
  ]

  const NoRecommendations: seq<string> := ["No recommendations available"]

  /** `get_recommendations(condition)`. */
  function GetRecommendations(condition: string): (r: seq<string>)
    ensures Text.Lower(condition) in Recommendations ==> r == Recommendations[Text.Lower(condition)]
    ensures Text.Lower(condition) !in Recommendations ==> r == NoRecommendations
  {
    GetOr(Recommendations, Text.Lower(condition), NoRecommendations)
  }

  /** Every answer holds one or two suggestions: never an empty list. */
  lemma NeverEmpty(condition: string)
    ensures 1 <= |GetRecommendations(condition)| <= 2
    ensures |GetRecommendations(condition)| == 2 <==>
      Text.Lower(condition) in {"heavily worn", "lightly worn", "not worn"}
  {
  }

  /** Case does not matter: a condition and its lower-cased form get the same list. */
  lemma CaseInsensitive(condition: string)
    ensures GetRecommendations(condition) == GetRecommendations(Text.Lower(condition))
  {
    Text.LowerIdempotent(condition);
  }

  /** Each known condition gets its two suggestions in order; capitals included. */
  lemma KnownConditions()
    ensures GetRecommendations("heavily worn") == ["Try recycling via local programs", "Consider donation drop-off services"]
    ensures GetRecommendations("Not Worn") == ["Sell on Vestiaire or eBay", "Mark as \"new with tags\" to increase price"]
    ensures GetRecommendations("brand new") == NoRecommendations
  {
    assert Text.Lower("heavily worn") == "heavily worn";
    assert Text.Lower("Not Worn") == "not worn";
    assert Text.Lower("brand new") == "brand new";
  }
}
