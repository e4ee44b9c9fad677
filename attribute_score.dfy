/**
 * The rule-based depreciation score over four item attributes, which the
 * code base defines five times with the same body (`calculate_depreciation`).
 * Each file's copy lives in that file's module and is proved equal to
 * `AttrScore`; the properties are proved here once.
 *
 * The score is a product of four factors in [0, 1]: a higher score means
 * more of the value is kept.
 */
module AttributeScore {
  import Text
  import Rounding

  const LuxuryBrands: seq<string> := ["gucci", "prada", "lv"]
  const PremiumFabrics: seq<string> := ["leather", "wool"]

  function BrandFactor(brand: string): real {
    if Text.Lower(brand) in LuxuryBrands then 0.8 else 0.6
  }

  function FabricFactor(fabric: string): real {
    if Text.Lower(fabric) in PremiumFabrics then 0.9 else 0.7
  }

  /** `max(0, 1 - age_years / 10)`: a tenth of the value per year, never negative. */
  function AgeFactor(ageYears: real): real {
    if 1.0 - ageYears / 10.0 < 0.0 then 0.0 else 1.0 - ageYears / 10.0
  }

  function WearFactor(wearLevelScore: real): real {
    1.0 - wearLevelScore
  }

  /** The product before rounding. */
  function RawScore(brand: string, fabric: string, ageYears: real, wearLevelScore: real): real {
    BrandFactor(brand) * FabricFactor(fabric) * AgeFactor(ageYears) * WearFactor(wearLevelScore)
  }

  /** `round(brand * fabric * age * wear, 3)`. */
  function AttrScore(brand: string, fabric: string, ageYears: real, wearLevelScore: real): real {
    Rounding.Round(RawScore(brand, fabric, ageYears, wearLevelScore), 3)
  }

  /** The brand factor is 0.8 exactly for gucci, prada and lv in any case, else 0.6. */
  lemma BrandFactorSpec(brand: string)
    ensures BrandFactor(brand) == 0.8 <==>
      Text.Lower(brand) == "gucci" || Text.Lower(brand) == "prada" || Text.Lower(brand) == "lv"
    ensures BrandFactor(brand) != 0.8 ==> BrandFactor(brand) == 0.6
  {
  }

  /** The fabric factor is 0.9 exactly for leather and wool in any case, else 0.7. */
  lemma FabricFactorSpec(fabric: string)
    ensures FabricFactor(fabric) == 0.9 <==>
      Text.Lower(fabric) == "leather" || Text.Lower(fabric) == "wool"
    ensures FabricFactor(fabric) != 0.9 ==> FabricFactor(fabric) == 0.7
  {
  }

  /** From ten years on the age factor is 0; before that it is in (0, 1] for a non-negative age. */
  lemma AgeFactorRange(ageYears: real)
    ensures ageYears >= 10.0 ==> AgeFactor(ageYears) == 0.0
    ensures 0.0 <= ageYears < 10.0 ==> 0.0 < AgeFactor(ageYears) <= 1.0
    ensures AgeFactor(ageYears) >= 0.0
  {
  }

  /** An older item never gets a larger age factor. */
  lemma AgeFactorNonIncreasing(a1: real, a2: real)
    requires a1 <= a2
    ensures AgeFactor(a2) <= AgeFactor(a1)
  {
  }

  /** For a non-negative age and a wear level in [0, 1] the product lies in [0, 0.72]. */
  lemma RawScoreBounds(brand: string, fabric: string, ageYears: real, wearLevelScore: real)
    requires 0.0 <= ageYears && 0.0 <= wearLevelScore <= 1.0
    ensures 0.0 <= RawScore(brand, fabric, ageYears, wearLevelScore) <= 0.72
  {
    var b, f := BrandFactor(brand), FabricFactor(fabric);
    var a, w := AgeFactor(ageYears), WearFactor(wearLevelScore);
    assert 0.0 <= a <= 1.0 && 0.0 <= w <= 1.0;
    assert 0.0 <= a * w <= 1.0 by { ProductInUnit(a, w); }
    assert 0.0 <= b * f <= 0.72;
    assert b * f * a * w == (b * f) * (a * w);
    BoundedProduct(b * f, 0.72, a * w);
  }

  lemma ProductInUnit(x: real, y: real)
    requires 0.0 <= x <= 1.0 && 0.0 <= y <= 1.0
    ensures 0.0 <= x * y <= 1.0
  {
    BoundedProduct(x, 1.0, y);
  }

  lemma BoundedProduct(x: real, bound: real, y: real)
    requires 0.0 <= x <= bound && 0.0 <= y <= 1.0
    ensures 0.0 <= x * y <= bound
  {
    assert x * y >= 0.0;
    assert x * y <= x by { assert x - x * y == x * (1.0 - y); }
  }

  /** The rounded score stays in [0, 0.72], hence in the documented [0, 1]. */
  lemma AttrScoreBounds(brand: string, fabric: string, ageYears: real, wearLevelScore: real)
    requires 0.0 <= ageYears && 0.0 <= wearLevelScore <= 1.0
    ensures 0.0 <= AttrScore(brand, fabric, ageYears, wearLevelScore) <= 0.72
  {
    RawScoreBounds(brand, fabric, ageYears, wearLevelScore);
    Rounding.RoundWithin(RawScore(brand, fabric, ageYears, wearLevelScore), 0, 720, 3);
  }

  /** More wear never raises the score, whatever the other inputs. */
  lemma AttrScoreNonIncreasingInWear(brand: string, fabric: string, ageYears: real, w1: real, w2: real)
    requires w1 <= w2
    ensures AttrScore(brand, fabric, ageYears, w2) <= AttrScore(brand, fabric, ageYears, w1)
  {
    var c := BrandFactor(brand) * FabricFactor(fabric) * AgeFactor(ageYears);
    assert c >= 0.0;
    assert RawScore(brand, fabric, ageYears, w1) == c * WearFactor(w1);
    assert RawScore(brand, fabric, ageYears, w2) == c * WearFactor(w2);
    assert c * WearFactor(w1) - c * WearFactor(w2) == c * (w2 - w1);
    Rounding.RoundMonotone(RawScore(brand, fabric, ageYears, w2), RawScore(brand, fabric, ageYears, w1), 3);
  }

  /** An older item never scores higher, for a wear level of at most 1. */
  lemma AttrScoreNonIncreasingInAge(brand: string, fabric: string, a1: real, a2: real, wearLevelScore: real)
    requires a1 <= a2 && wearLevelScore <= 1.0
    ensures AttrScore(brand, fabric, a2, wearLevelScore) <= AttrScore(brand, fabric, a1, wearLevelScore)
  {
    var c := BrandFactor(brand) * FabricFactor(fabric);
    var w := WearFactor(wearLevelScore);
    AgeFactorNonIncreasing(a1, a2);
    assert c >= 0.0 && w >= 0.0;
    assert RawScore(brand, fabric, a1, wearLevelScore) == (c * w) * AgeFactor(a1);
    assert RawScore(brand, fabric, a2, wearLevelScore) == (c * w) * AgeFactor(a2);
    assert (c * w) * AgeFactor(a1) - (c * w) * AgeFactor(a2) == (c * w) * (AgeFactor(a1) - AgeFactor(a2));
    Rounding.RoundMonotone(RawScore(brand, fabric, a2, wearLevelScore), RawScore(brand, fabric, a1, wearLevelScore), 3);
  }

  /** Brand and fabric are compared without regard to case. */
  lemma AttrScoreCaseInsensitive(b1: string, b2: string, f1: string, f2: string, ageYears: real, wearLevelScore: real)
    requires Text.Lower(b1) == Text.Lower(b2) && Text.Lower(f1) == Text.Lower(f2)
    ensures AttrScore(b1, f1, ageYears, wearLevelScore) == AttrScore(b2, f2, ageYears, wearLevelScore)
  {
    assert BrandFactor(b1) == BrandFactor(b2) && FabricFactor(f1) == FabricFactor(f2);
    assert RawScore(b1, f1, ageYears, wearLevelScore) == RawScore(b2, f2, ageYears, wearLevelScore);
  }

  /** "GUCCI" and "gucci" score the same. */
  lemma GucciAnyCase(fabric: string, ageYears: real, wearLevelScore: real)
    ensures AttrScore("GUCCI", fabric, ageYears, wearLevelScore) == AttrScore("gucci", fabric, ageYears, wearLevelScore)
  {
    assert Text.Lower("GUCCI") == "gucci";
    AttrScoreCaseInsensitive("GUCCI", "gucci", fabric, fabric, ageYears, wearLevelScore);
  }

  /** A new, unworn Gucci leather item keeps 0.72 of its value. */
  lemma NewGucciLeather()
    ensures AttrScore("Gucci", "Leather", 0.0, 0.0) == 0.72
  {
    assert Text.Lower("Gucci") == "gucci";
    assert Text.Lower("Leather") == "leather";
    assert RawScore("Gucci", "Leather", 0.0, 0.0) == 720 as real / Rounding.Pow10(3) as real;
    Rounding.RoundOnGrid(720, 3);
  }

  /** A ten-year-old item scores 0 whatever its brand and fabric. */
  lemma TenYearsOld(brand: string, fabric: string, wearLevelScore: real)
    ensures AttrScore(brand, fabric, 10.0, wearLevelScore) == 0.0
  {
    assert RawScore(brand, fabric, 10.0, wearLevelScore) == 0 as real / Rounding.Pow10(3) as real;
    Rounding.RoundOnGrid(0, 3);
  }
}
