/**
 * The image-analysis server that backend/train_wear_tear_model.py and
 * app.py both define with the same text: the upload filter, the two
 * model-backed scores with their fallbacks, the blob-URL assembly, the
 * upload endpoint and the currency endpoint. The two model globals are
 * assigned once at import and only read afterwards, so they are passed in
 * as `Option<Model>`; so is the container SAS URL, whose value differs
 * between the two files only after the `?`.
 */
module AnalysisServer {
  import opened Wrappers
  import Text
  import Rounding
  import Json
  import opened Inference

  // ---------------------------------------------------------------- uploads

  const AllowedExtensions: set<string> := {"png", "jpg", "jpeg", "gif", "bmp", "webp"}

  /** `allowed_file(filename)`. */
  predicate AllowedFile(filename: string) {
    Text.HasExtensionIn(filename, AllowedExtensions)
  }

  /** Accepted exactly when the part after the last dot is one of the six extensions in any case. */
  lemma AllowedFileSpec(filename: string)
    ensures AllowedFile(filename) <==>
      exists name, ext :: filename == name + "." + ext && '.' !in ext && Text.Lower(ext) in AllowedExtensions
  {
    Text.ExtensionSpec(filename, AllowedExtensions);
  }

  // --------------------------------------------------------- model scores

  /**
   * The body shared by `analyze_wear` and `predict_depreciation`: a fixed
   * answer without a model, another when preprocessing failed (`pixels` is
   * `None`), else the first prediction clamped to [0, 1] and rounded to
   * three places. Indexing an empty prediction raises `IndexError`.
   */
  function ModelScore(model: Option<Model>, pixels: Option<Pixels>, noModel: real, noImage: real): (r: Result<real>)
    ensures model.None? ==> r == Returned(noModel)
    ensures model.Some? && pixels.None? ==> r == Returned(noImage)
    ensures model.Some? && pixels.Some? ==>
      match FirstValue(model.value.predict(pixels.value))
      case None => r == Raised(IndexError)
      case Some(v) => r.Returned? && 0.0 <= r.value <= 1.0 && -0.0005 <= r.value - Clamp01(v) <= 0.0005
  {
    match model
    case None => Returned(noModel)
    case Some(m) =>
      match pixels
      case None => Returned(noImage)
      case Some(arr) =>
        match FirstValue(m.predict(arr))
        case None => Raised(IndexError)
        case Some(v) =>
          var c := Clamp01(v);
          assert 0 as real / Rounding.Pow10(3) as real <= c <= 1000 as real / Rounding.Pow10(3) as real;
          Rounding.RoundWithin(c, 0, 1000, 3);
          Returned(Rounding.Round(c, 3))
  }

  /** `analyze_wear(image_path)`: 0.3 without a wear model, 0.5 when the image does not load. */
  function AnalyzeWear(wearModel: Option<Model>, pixels: Option<Pixels>): (r: Result<real>)
    ensures wearModel.None? ==> r == Returned(0.3)
    ensures wearModel.Some? && pixels.None? ==> r == Returned(0.5)
    ensures r.Returned? ==> 0.0 <= r.value <= 1.0
  {
    ModelScore(wearModel, pixels, 0.3, 0.5)
  }

  /** `predict_depreciation(image_path)`: 0.5 both without a model and when the image does not load. */
  function PredictDepreciation(depreciationModel: Option<Model>, pixels: Option<Pixels>): (r: Result<real>)
    ensures depreciationModel.None? || pixels.None? ==> r == Returned(0.5)
    ensures r.Returned? ==> 0.0 <= r.value <= 1.0
  {
    ModelScore(depreciationModel, pixels, 0.5, 0.5)
  }

  /** A prediction already in [0, 1] with three decimals is passed through unchanged. */
  lemma ScoreKeepsGridValue(model: Model, pixels: Pixels, k: int, noModel: real, noImage: real)
    requires 0 <= k <= 1000
    requires FirstValue(model.predict(pixels)) == Some(k as real / 1000.0)
    ensures ModelScore(Some(model), Some(pixels), noModel, noImage) == Returned(k as real / 1000.0)
  {
    assert k as real / 1000.0 == k as real / Rounding.Pow10(3) as real;
    Rounding.RoundOnGrid(k, 3);
  }

  /** A prediction beyond either end of [0, 1] is reported as that end. */
  lemma ScoreSaturates(model: Model, pixels: Pixels, v: real, noModel: real, noImage: real)
    requires FirstValue(model.predict(pixels)) == Some(v)
    ensures v <= 0.0 ==> ModelScore(Some(model), Some(pixels), noModel, noImage) == Returned(0.0)
    ensures v >= 1.0 ==> ModelScore(Some(model), Some(pixels), noModel, noImage) == Returned(1.0)
  {
    assert 0.0 == 0 as real / Rounding.Pow10(3) as real;
    Rounding.RoundOnGrid(0, 3);
    assert 1.0 == 1000 as real / Rounding.Pow10(3) as real;
    Rounding.RoundOnGrid(1000, 3);
  }

  // --------------------------------------------------------------- blob URL

  /**
   * The URL `upload_to_azure` writes to: the SAS URL's part before the
   * first `?`, a slash, the blob name, `?`, and the part between the first
   * and second `?`. `None` where `split('?')[1]` raises (no `?` at all);
   * the surrounding `try` turns that into no upload.
   */
  function BlobUrl(containerSas: string, blobName: string): (r: Option<string>)
    ensures r.None? <==> '?' !in containerSas
  {
    var parts := Text.Split(containerSas, '?');
    if |parts| < 2 then
      SplitAtLeastTwo(containerSas);
      None
    else
      SplitAtLeastTwo(containerSas);
      Some(parts[0] + "/" + blobName + "?" + parts[1])
  }

  /** `s.split('?')` has a second piece exactly when `s` contains `?`. */
  lemma SplitAtLeastTwo(s: string)
    ensures |Text.Split(s, '?')| >= 2 <==> '?' in s
  {
    if '?' in s {
      var i :| 0 <= i < |s| && s[i] == '?';
      var j := FirstIndex(s, '?');
      assert s == s[..j] + ['?'] + s[j + 1..];
      Text.SplitFirst(s[..j], '?', s[j + 1..]);
    } else {
      Text.SplitNoSep(s, '?');
    }
  }

  /** The position of the first `c` in `s`. */
  function FirstIndex(s: string, c: char): (i: nat)
    requires c in s
    ensures i < |s| && s[i] == c && c !in s[..i]
  {
    if s[0] == c then 0
    else
      assert c in s[1..] by {
        var k :| 0 <= k < |s| && s[k] == c;
        assert s[1..][k - 1] == c;
      }
      var j := FirstIndex(s[1..], c);
      assert s[..j + 1] == [s[0]] + s[1..][..j];
      j + 1
  }

  /** For a container URL `base?query`, the blob sits under `base` and keeps the query. */
  lemma BlobUrlOf(base: string, query: string, blobName: string)
    requires '?' !in base && '?' !in query
    ensures BlobUrl(base + "?" + query, blobName) == Some(base + "/" + blobName + "?" + query)
  {
    Text.SplitFirst(base, '?', query);
    Text.SplitNoSep(query, '?');
  }

  /**
   * `upload_to_azure(file_path, blob_name)`: `fileOpens` says whether the
   * saved upload can be opened and `putStatus` is the status of the PUT
   * (`None` when the request raised). Success only on 201 or 202.
   */
  function UploadToAzure(fileOpens: bool, containerSas: string, blobName: string, putStatus: Option<int>): (r: Option<string>)
    ensures r.Some? <==> fileOpens && '?' in containerSas && putStatus.Some? && putStatus.value in {201, 202}
    ensures r.Some? ==> Some(r.value) == BlobUrl(containerSas, blobName)
  {
    if !fileOpens then None
    else match BlobUrl(containerSas, blobName)
      case None => None
      case Some(url) =>
        match putStatus
        case Some(status) => if status == 201 || status == 202 then Some(url) else None
        case None => None
  }

  // ---------------------------------------------------------- /upload-image

  datatype UploadResponse =
    | Analyzed(wearLevelScore: real, depreciationScore: real, azureBlobUrl: Option<string>)
    | UploadError(status: int, error: string)

  const InternalError := UploadError(500, "Internal Server Error")

  /**
   * `upload_image()`. `storedName` is the timestamped name the upload is
   * saved under; `pixels` is the preprocessed saved file (`None` when it
   * does not load), read once by each model.
   */
  function UploadImage(hasImage: bool, filename: string, storedName: string,
                       wearModel: Option<Model>, depreciationModel: Option<Model>, pixels: Option<Pixels>,
                       containerSas: string, fileOpens: bool, putStatus: Option<int>): (r: UploadResponse)
    ensures !hasImage ==> r == UploadError(400, "No image provided")
    ensures hasImage && !AllowedFile(filename) ==> r == UploadError(400, "Invalid file")
    ensures r.Analyzed? <==>
      hasImage && AllowedFile(filename)
      && AnalyzeWear(wearModel, pixels).Returned? && PredictDepreciation(depreciationModel, pixels).Returned?
    ensures r.Analyzed? ==>
      && r.wearLevelScore == AnalyzeWear(wearModel, pixels).value
      && r.depreciationScore == PredictDepreciation(depreciationModel, pixels).value
      && r.azureBlobUrl == UploadToAzure(fileOpens, containerSas, storedName, putStatus)
      && 0.0 <= r.wearLevelScore <= 1.0 && 0.0 <= r.depreciationScore <= 1.0
  {
    if !hasImage then UploadError(400, "No image provided")
    else if !AllowedFile(filename) then UploadError(400, "Invalid file")
    else
      match (AnalyzeWear(wearModel, pixels), PredictDepreciation(depreciationModel, pixels))
      case (Returned(wear), Returned(dep)) =>
        Analyzed(wear, dep, UploadToAzure(fileOpens, containerSas, storedName, putStatus))
      case _ => InternalError
  }

  /** With neither model loaded every accepted upload gets the fallbacks 0.3 and 0.5. */
  lemma NoModelsFallback(filename: string, storedName: string, pixels: Option<Pixels>,
                         containerSas: string, fileOpens: bool, putStatus: Option<int>)
    requires AllowedFile(filename)
    ensures var r := UploadImage(true, filename, storedName, None, None, pixels, containerSas, fileOpens, putStatus);
      r.Analyzed? && r.wearLevelScore == 0.3 && r.depreciationScore == 0.5
  {
  }

  // ------------------------------------------------------ /convert-currency

  /** What `get_exchange_rate(base, target)` produced: a rate, `None`, or an exception. */
  datatype RateLookup = RateFound(rate: real) | RateMissing | RateFailed

  datatype ConversionResponse =
    | Converted(convertedAmount: real, exchangeRate: real)
    | ConversionError(status: int, error: string)

  const InvalidRequest := ConversionError(400, "Invalid request")
  const RateFetchFailed := ConversionError(500, "Exchange rate fetch failed")

  /** The three request fields after `float()` and `.upper()`. */
  datatype ConversionRequest = ConversionRequest(amount: real, base: string, target: string)

  /** The request fields as the handler reads them, `None` where reading one raises. */
  function ReadConversion(data: Option<map<string, Json.JsonValue>>): (r: Option<ConversionRequest>)
    ensures r.Some? <==>
      && data.Some? && "amount" in data.value && Json.ToFloat(data.value["amount"]).Some?
      && "base_currency" in data.value && data.value["base_currency"].JString?
      && "target_currency" in data.value && data.value["target_currency"].JString?
    ensures r.Some? ==>
      && r.value.amount == Json.ToFloat(data.value["amount"]).value
      && r.value.base == Text.Upper(data.value["base_currency"].s)
      && r.value.target == Text.Upper(data.value["target_currency"].s)
  {
    match data
    case None => None
    case Some(d) =>
      if "amount" !in d then None
      else match Json.ToFloat(d["amount"])
        case None => None
        case Some(amount) =>
          if "base_currency" !in d || !d["base_currency"].JString? then None
          else if "target_currency" !in d || !d["target_currency"].JString? then None
          else Some(ConversionRequest(amount, Text.Upper(d["base_currency"].s), Text.Upper(d["target_currency"].s)))
  }

  /** `round(amount * rate, 2)`: within half a cent of the exact product. */
  function ConvertAmount(amount: real, rate: real): (r: real)
    ensures -0.005 <= r - amount * rate <= 0.005
  {
    assert Rounding.Pow10(2) as real == 100.0;
    Rounding.Round(amount * rate, 2)
  }

  /**
   * `convert_currency()`. `data` is the decoded body, `None` when it is
   * not a JSON object; `rates` stands for `get_exchange_rate`. Every
   * exception inside the `try` is answered with 400.
   */
  function ConvertCurrency(data: Option<map<string, Json.JsonValue>>, rates: (string, string) -> RateLookup): (r: ConversionResponse)
    ensures ReadConversion(data).None? ==> r == InvalidRequest
    ensures ReadConversion(data).Some? && ReadConversion(data).value.base == ReadConversion(data).value.target ==>
      r == Converted(ReadConversion(data).value.amount, 1.0)
    ensures ReadConversion(data).Some? && ReadConversion(data).value.base != ReadConversion(data).value.target ==>
      var req := ReadConversion(data).value;
      match rates(req.base, req.target)
      case RateMissing => r == RateFetchFailed
      case RateFailed => r == InvalidRequest
      case RateFound(rate) => r == Converted(ConvertAmount(req.amount, rate), rate)
  {
    match ReadConversion(data)
    case None => InvalidRequest
    case Some(req) =>
      if req.base == req.target then Converted(req.amount, 1.0)
      else match rates(req.base, req.target)
        case RateMissing => RateFetchFailed
        case RateFailed => InvalidRequest
        case RateFound(rate) => Converted(ConvertAmount(req.amount, rate), rate)
  }

  /** Same currency in any case: the amount comes back at rate 1.0 and no rate is consulted. */
  lemma SameCurrencyNeedsNoRate(amount: real, base: string, target: string,
                                rates1: (string, string) -> RateLookup, rates2: (string, string) -> RateLookup)
    requires Text.Upper(base) == Text.Upper(target)
    ensures var data := Some(map["amount" := Json.JNumber(amount), "base_currency" := Json.JString(base),
                                 "target_currency" := Json.JString(target)]);
      ConvertCurrency(data, rates1) == ConvertCurrency(data, rates2) == Converted(amount, 1.0)
  {
  }

  /** "usd" and "USD" are the same currency. */
  lemma CurrencyCaseIgnored(amount: real, rates: (string, string) -> RateLookup)
    ensures var data := Some(map["amount" := Json.JNumber(amount), "base_currency" := Json.JString("usd"),
                                 "target_currency" := Json.JString("USD")]);
      ConvertCurrency(data, rates) == Converted(amount, 1.0)
  {
    assert Text.Upper("usd") == "USD";
    assert Text.Upper("USD") == "USD";
  }
}
