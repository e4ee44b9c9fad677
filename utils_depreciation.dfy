/**
 * Garmentz/backend/utils/depreciation.py: the upload filter, the
 * purchase-context score, the condition score and the `POST /predict`
 * handler that composes them with the wear classifier.
 */
module UtilsDepreciation {
  import opened Wrappers
  import Text
  import Rounding
  import Json
  import opened Inference

  // ---------------------------------------------------------------- uploads

  const AllowedExtensions: set<string> := {"png", "jpg", "jpeg"}

  /** `allowed_file(filename)`. */
  predicate AllowedFile(filename: string) {
    Text.HasExtensionIn(filename, AllowedExtensions)
  }

  /** Accepted exactly when the part after the last dot is png, jpg or jpeg in any case. */
  lemma AllowedFileSpec(filename: string)
    ensures AllowedFile(filename) <==>
      exists name, ext :: filename == name + "." + ext && '.' !in ext && Text.Lower(ext) in AllowedExtensions
  {
    Text.ExtensionSpec(filename, AllowedExtensions);
  }

  /** A name without a dot is refused, whatever it spells. */
  lemma NoDotRefused(filename: string)
    requires '.' !in filename
    ensures !AllowedFile(filename)
  {
  }

  // ------------------------------------------------------ purchase-date year

  function DigitValue(c: char): int { c as int - '0' as int }

  /** The `%m` field: `1[0-2]`, `0[1-9]` or `[1-9]`, and its value. */
  function MonthField(m: string): (r: Option<int>)
    ensures r.Some? ==> 1 <= r.value <= 12
  {
    if |m| == 1 && '1' <= m[0] <= '9' then Some(DigitValue(m[0]))
    else if |m| == 2 && m[0] == '0' && '1' <= m[1] <= '9' then Some(DigitValue(m[1]))
    else if |m| == 2 && m[0] == '1' && '0' <= m[1] <= '2' then Some(10 + DigitValue(m[1]))
    else None
  }

  /** The `%d` field: `3[01]`, `[12]\d`, `0[1-9]`, `[1-9]` or a space and `[1-9]`. */
  function DayField(d: string): (r: Option<int>)
    ensures r.Some? ==> 1 <= r.value <= 31
  {
    if |d| == 1 && '1' <= d[0] <= '9' then Some(DigitValue(d[0]))
    else if |d| == 2 && (d[0] == '0' || d[0] == ' ') && '1' <= d[1] <= '9' then Some(DigitValue(d[1]))
    else if |d| == 2 && (d[0] == '1' || d[0] == '2') && Json.IsDigit(d[1]) then Some(10 * DigitValue(d[0]) + DigitValue(d[1]))
    else if |d| == 2 && d[0] == '3' && (d[1] == '0' || d[1] == '1') then Some(30 + DigitValue(d[1]))
    else None
  }

  predicate IsLeapYear(y: int) { y % 4 == 0 && (y % 100 != 0 || y % 400 == 0) }

  function DaysInMonth(y: int, m: int): (r: int)
    requires 1 <= m <= 12
    ensures 28 <= r <= 31
  {
    if m == 2 then (if IsLeapYear(y) then 29 else 28)
    else if m == 4 || m == 6 || m == 9 || m == 11 then 30
    else 31
  }

  /**
   * `datetime.strptime(s, "%Y-%m-%d").year`, `None` where it raises: four
   * digits, a dash, the month field, a dash, the day field and nothing
   * more, naming a real date from year 1 on.
   */
  function StrptimeYear(s: string): (r: Option<int>)
    ensures r.Some? ==> |s| >= 5 && Json.AllDigits(s[..4]) && s[4] == '-'
                        && r.value == Json.DigitsValue(s[..4]) && 1 <= r.value <= 9999
  {
    if |s| < 5 || !Json.AllDigits(s[..4]) || s[4] != '-' then None
    else
      var year := Json.DigitsValue(s[..4]);
      var fields := Text.Split(s[5..], '-');
      if |fields| != 2 then None
      else
        match (MonthField(fields[0]), DayField(fields[1]))
        case (Some(month), Some(day)) =>
          if year >= 1 && day <= DaysInMonth(year, month) then
            FourDigitsBound(s[..4]);
            Some(year)
          else None
        case _ => None
  }

  lemma FourDigitsBound(y: string)
    requires |y| == 4 && Json.AllDigits(y)
    ensures Json.DigitsValue(y) <= 9999
  {
    Json.DigitsValueBound(y);
    assert Rounding.Pow10(4) == 10000;
  }

  /** A date spelled `YYYY-MM-DD` with a valid month and day gives its year. */
  lemma {:induction false} StrptimeYearOf(y: string, m: string, d: string)
    requires |y| == 4 && Json.AllDigits(y) && Json.DigitsValue(y) >= 1
    requires MonthField(m).Some? && DayField(d).Some?
    requires DayField(d).value <= DaysInMonth(Json.DigitsValue(y), MonthField(m).value)
    ensures StrptimeYear(y + "-" + m + "-" + d) == Some(Json.DigitsValue(y))
  {
    var s := y + "-" + m + "-" + d;
    assert s[..4] == y;
    assert s[5..] == m + "-" + d;
    assert '-' !in m;
    assert '-' !in d;
    Text.SplitFirst(m, '-', d);
    Text.SplitNoSep(d, '-');
  }

  /** The two dates the handler can see parse to 2021 and 2020. */
  lemma KnownDates()
    ensures StrptimeYear("2021-01-01") == Some(2021)
    ensures StrptimeYear("2020-05-01") == Some(2020)
  {
    assert Json.DigitsValue("2021") == 2021 by {
      assert "2021"[..3] == "202" && "202"[..2] == "20" && "20"[..1] == "2" && "2"[..0] == "";
    }
    assert Json.DigitsValue("2020") == 2020 by {
      assert "2020"[..3] == "202" && "202"[..2] == "20" && "20"[..1] == "2" && "2"[..0] == "";
    }
    assert "2021-01-01" == "2021" + "-" + "01" + "-" + "01";
    assert "2020-05-01" == "2020" + "-" + "05" + "-" + "01";
    StrptimeYearOf("2021", "01", "01");
    StrptimeYearOf("2020", "05", "01");
  }

  // ------------------------------------------------- purchase-context score

  /** `min(1, original_price / 1000)`. */
  function PriceFactor(originalPrice: real): (r: real)
    ensures r <= 1.0
    ensures r == 1.0 || r == originalPrice / 1000.0
    ensures r <= originalPrice / 1000.0
  {
    if originalPrice / 1000.0 < 1.0 then originalPrice / 1000.0 else 1.0
  }

  /** The year the item counts as bought: the parsed year, or this year when parsing failed. */
  function PurchaseYear(currentYear: int, parsedYear: Option<int>): int {
    match parsedYear
    case Some(y) => y
    case None => currentYear
  }

  /** `1 - (0.5 * age_factor + 0.3 * wear_factor + 0.2 * price_factor)` before clamping. */
  function LinearScore(currentYear: int, parsedYear: Option<int>, wearScore: real, originalPrice: real): real {
    var ageFactor := (currentYear - PurchaseYear(currentYear, parsedYear)) as real / 10.0;
    var wearFactor := wearScore / 10.0;
    1.0 - (0.5 * ageFactor + 0.3 * wearFactor + 0.2 * PriceFactor(originalPrice))
  }

  /**
   * `compute_depreciation_score(purchase_date, wear_score, original_price)`
   * with `datetime.now().year` as `currentYear` and the parsed purchase year
   * (`None` when `strptime` raised) as `parsedYear`.
   */
  function ComputeDepreciationScore(currentYear: int, parsedYear: Option<int>, wearScore: real, originalPrice: real): (r: real)
    ensures r >= 0.0
  {
    var d := LinearScore(currentYear, parsedYear, wearScore, originalPrice);
    var clamped := if d < 0.0 then 0.0 else d;
    Rounding.RoundOnGrid(0, 2);
    Rounding.RoundMonotone(0.0, clamped, 2);
    Rounding.Round(clamped, 2)
  }

  /** An unparseable date counts as bought this year: no age term at all. */
  lemma UnparseableDateIsNew(currentYear: int, wearScore: real, originalPrice: real)
    ensures ComputeDepreciationScore(currentYear, None, wearScore, originalPrice)
         == ComputeDepreciationScore(currentYear, Some(currentYear), wearScore, originalPrice)
    ensures LinearScore(currentYear, None, wearScore, originalPrice)
         == 1.0 - (0.3 * (wearScore / 10.0) + 0.2 * PriceFactor(originalPrice))
  {
  }

  lemma ClampRoundMonotone(d1: real, d2: real)
    requires d1 <= d2
    ensures Rounding.Round(if d1 < 0.0 then 0.0 else d1, 2) <= Rounding.Round(if d2 < 0.0 then 0.0 else d2, 2)
  {
    Rounding.RoundMonotone(if d1 < 0.0 then 0.0 else d1, if d2 < 0.0 then 0.0 else d2, 2);
  }

  /** More wear never raises the score. */
  lemma NonIncreasingInWear(currentYear: int, parsedYear: Option<int>, w1: real, w2: real, originalPrice: real)
    requires w1 <= w2
    ensures ComputeDepreciationScore(currentYear, parsedYear, w2, originalPrice)
         <= ComputeDepreciationScore(currentYear, parsedYear, w1, originalPrice)
  {
    ClampRoundMonotone(LinearScore(currentYear, parsedYear, w2, originalPrice),
                       LinearScore(currentYear, parsedYear, w1, originalPrice));
  }

  /** A dearer item never scores higher. */
  lemma NonIncreasingInPrice(currentYear: int, parsedYear: Option<int>, wearScore: real, p1: real, p2: real)
    requires p1 <= p2
    ensures ComputeDepreciationScore(currentYear, parsedYear, wearScore, p2)
         <= ComputeDepreciationScore(currentYear, parsedYear, wearScore, p1)
  {
    assert PriceFactor(p1) <= PriceFactor(p2);
    ClampRoundMonotone(LinearScore(currentYear, parsedYear, wearScore, p2),
                       LinearScore(currentYear, parsedYear, wearScore, p1));
  }

  /** An item bought earlier never scores higher. */
  lemma NonIncreasingInAge(currentYear: int, y1: int, y2: int, wearScore: real, originalPrice: real)
    requires y1 <= y2
    ensures ComputeDepreciationScore(currentYear, Some(y1), wearScore, originalPrice)
         <= ComputeDepreciationScore(currentYear, Some(y2), wearScore, originalPrice)
  {
    ClampRoundMonotone(LinearScore(currentYear, Some(y1), wearScore, originalPrice),
                       LinearScore(currentYear, Some(y2), wearScore, originalPrice));
  }

  /** For a purchase not in the future, non-negative wear and price, the score is at most 1. */
  lemma ScoreAtMostOne(currentYear: int, parsedYear: Option<int>, wearScore: real, originalPrice: real)
    requires parsedYear.Some? ==> parsedYear.value <= currentYear
    requires wearScore >= 0.0 && originalPrice >= 0.0
    ensures ComputeDepreciationScore(currentYear, parsedYear, wearScore, originalPrice) <= 1.0
  {
    var d := LinearScore(currentYear, parsedYear, wearScore, originalPrice);
    assert PriceFactor(originalPrice) >= 0.0;
    assert d <= 1.0;
    var clamped := if d < 0.0 then 0.0 else d;
    assert 0 as real / Rounding.Pow10(2) as real <= clamped <= 100 as real / Rounding.Pow10(2) as real;
    Rounding.RoundWithin(clamped, 0, 100, 2);
  }

  // -------------------------------------------------------- condition score

  /** `get_condition_score(prediction_class)`: exact, case-sensitive matching, 5 otherwise. */
  function GetConditionScore(predictionClass: string): (r: int)
    ensures predictionClass == "not worn" ==> r == 1
    ensures predictionClass == "lightly worn" ==> r == 5
    ensures predictionClass == "heavily worn" ==> r == 9
    ensures predictionClass !in {"not worn", "lightly worn", "heavily worn"} ==> r == 5
  {
    if predictionClass == "not worn" then 1
    else if predictionClass == "lightly worn" then 5
    else if predictionClass == "heavily worn" then 9
    else 5
  }

  /** The score grows with the wear, stays on the 0..10 scale, and capitals fall to the default. */
  lemma ConditionScoreOrder()
    ensures GetConditionScore("not worn") < GetConditionScore("lightly worn") < GetConditionScore("heavily worn")
    ensures forall c :: 0 <= GetConditionScore(c) <= 10
    ensures GetConditionScore("Heavily Worn") == 5
  {
  }

  // ---------------------------------------------------------- the endpoint

  /** The item details the handler uses for the price and purchase date. */
  datatype EbayData = EbayData(brand: string, purchaseDate: string, price: real)

  /** What the handler uses when the form names no eBay item. */
  const DefaultEbayData := EbayData("Unknown", "2021-01-01", 100.0)

  /** `get_ebay_item_details`: a stub with the same answer for every item. */
  function GetEbayItemDetails(ebayItemId: string): (r: EbayData)
    ensures r == EbayData("Nike", "2020-05-01", 120.0)
  {
    EbayData("Nike", "2020-05-01", 120.0)
  }

  const ClassNames: seq<string> := ["heavily worn", "lightly worn", "not worn"]

  datatype PredictResponse =
    | Predicted(predictedClass: string, wearScore: int, depreciationScore: real, ebayData: EbayData)
    | Rejected(status: int, error: string)

  const InternalError := Rejected(500, "Internal Server Error")

  /** The item data the handler uses: the stub for a non-empty item id, the default otherwise. */
  function ItemData(ebayItemId: Option<string>): (r: EbayData)
    ensures ebayItemId.None? || ebayItemId == Some("") ==> r == DefaultEbayData
    ensures ebayItemId.Some? && ebayItemId.value != "" ==> r == GetEbayItemDetails(ebayItemId.value)
  {
    match ebayItemId
    case Some(id) => if id != "" then GetEbayItemDetails(id) else DefaultEbayData
    case None => DefaultEbayData
  }

  /**
   * `predict()`. `hasImage` says whether the upload has an `image` part
   * and `filename` is its name; `image` is what preprocessing produced
   * (`None` when it raised); the module-level `model` and the current year
   * are parameters. An exception escaping the view is answered with 500.
   */
  function Predict(hasImage: bool, filename: string, ebayItemId: Option<string>,
                   image: Option<Pixels>, model: Model, currentYear: int): (r: PredictResponse)
    ensures !hasImage ==> r == Rejected(400, "No image part")
    ensures hasImage && !AllowedFile(filename) ==> r == Rejected(400, "Invalid file format")
    ensures r.Predicted? <==>
      hasImage && AllowedFile(filename) && image.Some?
      && |Flatten(model.predict(image.value))| > 0
      && Argmax(Flatten(model.predict(image.value))) < |ClassNames|
    ensures r.Predicted? ==>
      var preds := Flatten(model.predict(image.value));
      && r.ebayData == ItemData(ebayItemId)
      && r.wearScore == GetConditionScore(r.predictedClass)
      && r.depreciationScore == ComputeDepreciationScore(
           currentYear, StrptimeYear(r.ebayData.purchaseDate), r.wearScore as real, r.ebayData.price)
      && r.predictedClass == ClassNames[Argmax(preds)]
  {
    if !hasImage then Rejected(400, "No image part")
    else if !AllowedFile(filename) then Rejected(400, "Invalid file format")
    else match image
      case None => InternalError
      case Some(pixels) =>
        match ArgmaxLabel(ClassNames, Flatten(model.predict(pixels)))
        case Raised(_) => InternalError
        case Returned(predictedClass) =>
          var wearScore := GetConditionScore(predictedClass);
          var ebayData := ItemData(ebayItemId);
          Predicted(predictedClass, wearScore,
                    ComputeDepreciationScore(currentYear, StrptimeYear(ebayData.purchaseDate),
                                             wearScore as real, ebayData.price),
                    ebayData)
  }

  /**
   * Without an eBay item the score is computed for a 100.0 item bought in
   * 2021; with one, for the stub's 120.0 item bought in 2020.
   */
  lemma PredictItemData(hasImage: bool, filename: string, ebayItemId: Option<string>,
                        image: Option<Pixels>, model: Model, currentYear: int)
    requires Predict(hasImage, filename, ebayItemId, image, model, currentYear).Predicted?
    ensures var r := Predict(hasImage, filename, ebayItemId, image, model, currentYear);
      if ebayItemId.None? || ebayItemId == Some("") then
        r.depreciationScore == ComputeDepreciationScore(currentYear, Some(2021), r.wearScore as real, 100.0)
      else
        r.depreciationScore == ComputeDepreciationScore(currentYear, Some(2020), r.wearScore as real, 120.0)
  {
    KnownDates();
  }
}
