# Garmentz scoring and lookup rules in Dafny

Garmentz estimates how much of a garment's resale value is left. It uses a
photo of the garment, an optional eBay listing and a few typed-in
attributes. The Python back ends have no engine of their own. Their logic
is a set of small scoring formulas, condition tables with defaults, and
request checks around two Keras models. Several Flask apps and training
scripts copy these rules.

This project models those rules and proves what they promise. It covers:

- the attribute score `calculate_depreciation`, which appears in five files;
- the purchase-context score, the condition score and the `/predict` handler;
- the loss-rate, recommendation and eBay price tables;
- the wear classifier's argmax-to-label step and its no-model fallbacks;
- the clamped model scores of the image-analysis server;
- the currency-conversion branching, the blob-URL assembly and the eBay notification endpoints;
- the two label-collection loops of the training scripts.

## Layout

The model has one module per source file, plus six shared modules.

Shared modules:

- `Wrappers`: `Option`, `Result`, Python exceptions and `dict.get`.
- `Text`: ASCII `lower`, `upper` and `strip`, `split`, the last-dot extension test, and `os.path.join`.
- `Rounding`: Python's `round(x, n)` on exact reals, with ties going to even.
- `Json`: request values and `float()`.
- `Inference`: a loaded model as a function from pixels to a prediction array, with `np.argmax` and the clamp.
- `AttributeScore`: the attribute score, defined once.

Every copy of `calculate_depreciation` is written out again in its own
file's module. Each copy is proved equal to `AttributeScore.AttrScore`.

app.py and backend/train_wear_tear_model.py share the same text for the
upload filter, the two model scores, the Azure upload, `/upload-image` and
`/convert-currency`. That text is modelled once, in `AnalysisServer`. Each
file keeps only its own eBay endpoint (`RootApp`, `WearTearServer`).
The table below cites backend/train_wear_tear_model.py for the shared
members. The same code sits in app.py at these lines:

- `AllowedFile`: 26 and 67-68;
- `AnalyzeWear`: 82-90;
- `PredictDepreciation`: 92-100;
- `BlobUrl` and `UploadToAzure`: 102-117;
- `UploadImage`: 119-141;
- `ConvertCurrency`: 143-164.

Objects that are only read after construction are Dafny datatypes with
member functions: `DepreciationService`, `DepreciationModel` and both
`WearTearModel`s. The two `load_data` loops append to lists row by row.
They are Dafny methods with loop invariants, proved against a recursive
function `Load` that walks the rows the same way. Lemmas tie `Load` to
`KeptRows`, the rows whose image exists, and to the first row that raises.

A few things the code leaves to its surroundings are passed in as
parameters:

- the current year;
- whether a model loaded, as `Option<Model>`, or what `load_model` did, as a `Result`;
- the preprocessed image, as `Option<Pixels>`, `None` when `load_img` raised;
- which image files exist, and which of them `load_img` can read, as predicates;
- the exchange-rate lookup;
- the status of the Azure PUT.

An exception that escapes a Flask view appears in the model as the
status-500 answer that Flask sends for it.

## Model

| member | source | states |
|---|---|---|
| Inference.FirstValue | backend/train_wear_tear_model.py:104 | a value exists exactly when the flattened prediction is non-empty and, for a rank-2 array, so is its first row; it is then the first entry |
| Inference.Clamp01 | backend/train_wear_tear_model.py:105 | the result is in [0, 1], equals the input inside that range, and is the nearer bound outside it |
| Inference.Argmax | backend/wear_tear_model.py:22 | the position holds a largest entry, and every earlier entry is strictly smaller: the first maximum, as `np.argmax` returns |
| Inference.ArgmaxIsFirstMaximum | backend/wear_tear_model.py:22 | any position holding a largest entry with only smaller entries before it is the one `Argmax` returns, so its contract determines it |
| Inference.ArgmaxTie | Garmentz/backend/utils/depreciation.py:78 | on [0.5, 0.5, 0.0] the argmax is 0, the first of the two tied entries |
| Inference.ArgmaxLabel | backend/wear_tear_model.py:21-23 | an empty prediction raises ValueError; a label is returned exactly when the argmax position is within the labels, and it is the label at that position; otherwise IndexError |
| AttributeScore.BrandFactorSpec | Garmentz/backend/app.py:16 | the brand factor is 0.8 exactly when the lower-cased brand is gucci, prada or lv, and 0.6 otherwise |
| AttributeScore.FabricFactorSpec | Garmentz/backend/app.py:17 | the fabric factor is 0.9 exactly when the lower-cased fabric is leather or wool, and 0.7 otherwise |
| AttributeScore.AgeFactorRange | Garmentz/backend/app.py:18 | the age factor is 0 from ten years on, lies in (0, 1] below ten years, and is never negative |
| AttributeScore.AgeFactorNonIncreasing | Garmentz/backend/app.py:18 | an older item never gets a larger age factor |
| AttributeScore.RawScoreBounds | Garmentz/backend/app.py:15-21 | for age >= 0 and wear in [0, 1], the unrounded product lies in [0, 0.72] |
| AttributeScore.AttrScoreBounds | Garmentz/backend/app.py:15-22 | for the same inputs, the rounded score lies in [0, 0.72] |
| AttributeScore.AttrScoreNonIncreasingInWear | Garmentz/backend/app.py:19-22 | with brand, fabric and age fixed, more wear never raises the score |
| AttributeScore.AttrScoreNonIncreasingInAge | Garmentz/backend/app.py:18-22 | for wear at most 1, an older item never scores higher |
| AttributeScore.AttrScoreCaseInsensitive | Garmentz/backend/app.py:16-17 | brands equal after lower-casing give the same score, and so do fabrics |
| AttributeScore.GucciAnyCase | Garmentz/backend/app.py:16 | "GUCCI" and "gucci" give the same score |
| AttributeScore.NewGucciLeather | Garmentz/backend/app.py:15-22 | a new, unworn Gucci leather item scores exactly 0.72 |
| AttributeScore.TenYearsOld | Garmentz/backend/app.py:18-22 | a ten-year-old item scores 0.0 for every brand, fabric and wear |
| GarmentzApp.CalculateDepreciation | Garmentz/backend/app.py:15-22 | this file's copy equals the shared attribute score |
| GarmentzApp.GetDepreciation | Garmentz/backend/app.py:26-40 | a body missing any of the four fields is answered 400 with the missing-fields error, and only then; otherwise string brand and fabric and convertible age and wear get the score of the converted fields, and anything else gets 500 |
| GarmentzApp.WellFormedRequestScore | Garmentz/backend/app.py:33-40 | a body with the four fields, age >= 0 and wear in [0, 1] gets a score in [0, 0.72] |
| DepreciationService.New | backend/depreciation_service.py:2-7 | the loss table has exactly the keys heavily worn, lightly worn and not worn |
| DepreciationService.LossRateTable | backend/depreciation_service.py:3-13 | after lower-casing, the loss rate is 0.80, 0.40 or 0.10 for the three conditions and 0.5 for any other, so it always lies in [0.10, 0.80] |
| DepreciationService.DepreciationService.Calculate | backend/depreciation_service.py:9-15 | the answer is within half a cent of the price times one minus the loss rate looked up under the lower-cased condition, 0.5 when the condition is unknown |
| DepreciationService.CalculateByCondition | backend/depreciation_service.py:3-15 | heavily worn keeps 20% of the price, lightly worn 60%, not worn 90% and any other label 50%, each rounded to cents |
| DepreciationService.CalculateBounds | backend/depreciation_service.py:13-15 | for a price >= 0, the unrounded amount lies in [0, price], and the rounded amount is >= 0 and at most half a cent above the price |
| DepreciationService.CalculateAtMostPrice | backend/depreciation_service.py:13-15 | a price with whole cents is never exceeded |
| DepreciationService.CalculateOrdered | backend/depreciation_service.py:4-15 | for a fixed price >= 0: heavily worn <= lightly worn <= not worn |
| DepreciationService.DefaultPriceExamples | backend/depreciation_service.py:9-15 | at the default price 100, "not worn" gives 90.0 and an unknown label gives 50.0 |
| DepreciationService.DepreciationService.CalculateDepreciation | backend/depreciation_service.py:17-28 | this copy equals the shared score, and lies in [0, 1] for age >= 0 and wear in [0, 1], as its docstring says |
| DepreciationModel.New | Garmentz/backend/depreciation_model.py:6-12 | the model is None exactly when there is no path, the path is empty, or loading failed; otherwise it is the loaded model |
| DepreciationModel.NoPathNoModel | Garmentz/backend/depreciation_model.py:8-19 | without a path there is no model, and `predict` raises |
| DepreciationModel.FailedLoadFallsBack | Garmentz/backend/depreciation_model.py:7-37 | a failed load leaves no model and raises nothing; the rule-based fallback still gives a score in [0, 1] |
| DepreciationModel.DepreciationModel.Predict | Garmentz/backend/depreciation_model.py:14-25 | without a model it raises ValueError with the source's message. With one, an image `load_img` cannot read raises OSError; otherwise it returns `prediction[0][0]` to within half a cent, or raises IndexError when that entry does not exist |
| DepreciationModel.PredictKeepsCents | Garmentz/backend/depreciation_model.py:24-25 | a prediction that already has two decimals is returned unchanged |
| DepreciationModel.DepreciationModel.CalculateDepreciation | Garmentz/backend/depreciation_model.py:27-37 | this copy, age clamp included, equals the shared score rounded to 3 places |
| GarmentzTraining.LoadData | Garmentz/backend/train_depreciation_model.py:17-34 | the walk returns exactly when no row raises. Then the images are the paths of the rows whose image exists, in CSV order, and each label is what `float()` reads from that row's cell. Otherwise the exception is the one the first failing row raises: OSError for an unreadable image, else ValueError for a cell that is not a number |
| GarmentzTraining.RaisedPersists | Garmentz/backend/train_depreciation_model.py:22-30 | once a row has raised, the later rows change nothing: the whole walk raises that exception |
| GarmentzTraining.LoadSucceeds | Garmentz/backend/train_depreciation_model.py:22-30 | the walk returns exactly when no row raises |
| GarmentzTraining.LoadReturnsKept | Garmentz/backend/train_depreciation_model.py:17-34 | a returned dataset holds the paths of the rows whose image exists, in order, each with the value of its cell |
| GarmentzTraining.LoadRaisesFirst | Garmentz/backend/train_depreciation_model.py:22-30 | a raised exception comes from the first row that raises, and every earlier row went through |
| GarmentzTraining.KeptRowsAppend | Garmentz/backend/train_depreciation_model.py:22-31 | keeping rows distributes over concatenation: the order is kept and each row is decided on its own |
| GarmentzTraining.SingleRow | Garmentz/backend/train_depreciation_model.py:24-30 | a single row is kept exactly when its image exists |
| GarmentzTraining.AllPresent | Garmentz/backend/train_depreciation_model.py:22-28 | when every image exists, every row is kept |
| GarmentzTraining.NonePresent | Garmentz/backend/train_depreciation_model.py:29-30 | when no image exists, nothing is loaded |
| GarmentzTraining.CalculateDepreciation | Garmentz/backend/train_depreciation_model.py:85-91 | this copy equals the shared attribute score |
| GarmentzTraining.CalculateDepreciationInUnit | Garmentz/backend/train_depreciation_model.py:80-91 | for age >= 0 and wear in [0, 1] the result is in [0.0, 1.0], as the docstring says |
| BackendTraining.WearLabel | backend/train_depreciation_model.py:23-37 | every label lies in [0, 1] |
| BackendTraining.WearLabelTable | backend/train_depreciation_model.py:23-37 | after stripping and lower-casing, not worn gives 0.0, lightly worn 0.5 and heavily worn 1.0; any other text gives 0.0 |
| BackendTraining.PaddingIgnored | backend/train_depreciation_model.py:36 | whitespace around the text does not change its label |
| BackendTraining.PaddedCapitalised | backend/train_depreciation_model.py:36-37 | "  Heavily Worn " is labelled 1.0 |
| BackendTraining.LoadData | backend/train_depreciation_model.py:29-44 | the walk returns exactly when `load_img` can read every existing image, and otherwise raises OSError. Then the images and labels are exactly the paths and mapped labels of the rows whose image exists, in order; there are as many labels as images, and each label is in [0, 1] |
| BackendTraining.RaisedPersists | backend/train_depreciation_model.py:29-40 | once a row has raised, the later rows change nothing: the whole walk raises that exception |
| BackendTraining.LoadSucceeds | backend/train_depreciation_model.py:29-33 | the walk returns exactly when every existing image can be read, and the only exception it raises is OSError |
| BackendTraining.LoadReturnsKept | backend/train_depreciation_model.py:29-40 | a returned dataset holds the path and mapped label of each row whose image exists, in order |
| BackendTraining.KeptRowsAppend | backend/train_depreciation_model.py:29-40 | keeping rows distributes over concatenation |
| BackendTraining.CalculateDepreciation | backend/train_depreciation_model.py:82-88 | this copy equals the shared attribute score |
| UtilsDepreciation.AllowedFileSpec | Garmentz/backend/utils/depreciation.py:16-22 | a name is accepted exactly when it is `name.ext` where `ext` has no dot and, lower-cased, is png, jpg or jpeg |
| UtilsDepreciation.GetEbayItemDetails | Garmentz/backend/utils/depreciation.py:24-31 | whatever the item id, the stub answers a Nike item bought on 2020-05-01 for 120.0 |
| UtilsDepreciation.NoDotRefused | Garmentz/backend/utils/depreciation.py:21-22 | a name without a dot is refused |
| UtilsDepreciation.StrptimeYear | Garmentz/backend/utils/depreciation.py:36 | a parsed date starts with four digits and a dash, and its year is the value of those digits, between 1 and 9999 |
| UtilsDepreciation.StrptimeYearOf | Garmentz/backend/utils/depreciation.py:36 | every valid `YYYY-MM-DD` date, including one-digit and space-padded days, parses to its year |
| UtilsDepreciation.KnownDates | Garmentz/backend/utils/depreciation.py:29-86 | the two dates the handler can see parse to 2021 and 2020 |
| UtilsDepreciation.PriceFactor | Garmentz/backend/utils/depreciation.py:42 | the price factor is min(1, price/1000): never above 1 or above price/1000, and equal to one of them |
| UtilsDepreciation.ComputeDepreciationScore | Garmentz/backend/utils/depreciation.py:33-45 | the clamped and rounded score is never negative |
| UtilsDepreciation.UnparseableDateIsNew | Garmentz/backend/utils/depreciation.py:34-40 | an unparseable date scores as a purchase this year, so the age term is 0 |
| UtilsDepreciation.NonIncreasingInWear | Garmentz/backend/utils/depreciation.py:41-45 | more wear never raises the score |
| UtilsDepreciation.NonIncreasingInPrice | Garmentz/backend/utils/depreciation.py:42-45 | a dearer item never scores higher |
| UtilsDepreciation.NonIncreasingInAge | Garmentz/backend/utils/depreciation.py:40-45 | an earlier purchase year never scores higher |
| UtilsDepreciation.ScoreAtMostOne | Garmentz/backend/utils/depreciation.py:40-45 | for a purchase not in the future, wear >= 0 and price >= 0, the score is at most 1 |
| UtilsDepreciation.GetConditionScore | Garmentz/backend/utils/depreciation.py:53-60 | exact matching: not worn gives 1, lightly worn 5, heavily worn 9, and anything else 5 |
| UtilsDepreciation.ConditionScoreOrder | Garmentz/backend/utils/depreciation.py:53-60 | the score rises with wear and stays in 0..10; "Heavily Worn" falls to the default 5 |
| UtilsDepreciation.ItemData | Garmentz/backend/utils/depreciation.py:84-88 | without a non-empty item id the data is Unknown, 2021-01-01, 100.0; with one it is the stub's answer |
| UtilsDepreciation.Predict | Garmentz/backend/utils/depreciation.py:62-103 | no image part gives 400 "No image part", and a refused name gives 400 "Invalid file format". A prediction is returned exactly when the image loads and the argmax of the non-empty prediction names one of the three classes. Then the class is the one at the first position of the largest prediction, as `np.argmax` picks it, the wear score is its condition score, and the depreciation score is computed from the item data |
| UtilsDepreciation.PredictItemData | Garmentz/backend/utils/depreciation.py:84-92 | without an item the score is computed for a 100.0 item bought in 2021; with one, for a 120.0 item bought in 2020 |
| AnalysisServer.AllowedFileSpec | backend/train_wear_tear_model.py:26-83 | a name is accepted exactly when its text after the last dot, lower-cased, is png, jpg, jpeg, gif, bmp or webp |
| AnalysisServer.ModelScore | backend/train_wear_tear_model.py:97-105 | no model gives the no-model constant, and a failed preprocessing gives the no-image constant. Otherwise the first prediction is clamped to [0, 1] and rounded to within 0.0005; the result is in [0, 1]. An empty prediction raises IndexError |
| AnalysisServer.AnalyzeWear | backend/train_wear_tear_model.py:97-105 | 0.3 without a model, 0.5 when preprocessing fails, and every returned value in [0, 1] |
| AnalysisServer.PredictDepreciation | backend/train_wear_tear_model.py:107-115 | 0.5 without a model and when preprocessing fails; every returned value in [0, 1] |
| AnalysisServer.ScoreKeepsGridValue | backend/train_wear_tear_model.py:104-105 | a prediction in [0, 1] with three decimals is returned unchanged |
| AnalysisServer.ScoreSaturates | backend/train_wear_tear_model.py:105 | a prediction <= 0 gives 0.0, and one >= 1 gives 1.0 |
| AnalysisServer.BlobUrl | backend/train_wear_tear_model.py:124 | the URL can be built exactly when the SAS string has a `?` |
| AnalysisServer.SplitAtLeastTwo | backend/train_wear_tear_model.py:124 | `split('?')` has a second piece exactly when the text contains `?` |
| AnalysisServer.BlobUrlOf | backend/train_wear_tear_model.py:124 | for a container URL `base?query`, the blob URL is `base/blob?query` |
| AnalysisServer.UploadToAzure | backend/train_wear_tear_model.py:117-132 | a URL is returned exactly when the file opens, the SAS has a `?` and the PUT answers 201 or 202; it is then the assembled blob URL |
| AnalysisServer.UploadImage | backend/train_wear_tear_model.py:134-156 | no image gives 400 "No image provided", and a refused name gives 400 "Invalid file". The upload is analyzed exactly when both scores return; it then reports both scores, each in [0, 1], and the upload result |
| AnalysisServer.NoModelsFallback | backend/train_wear_tear_model.py:98-147 | with neither model loaded, every accepted upload gets 0.3 and 0.5 |
| AnalysisServer.ReadConversion | backend/train_wear_tear_model.py:161-164 | the fields can be read exactly when the body has an amount `float()` accepts and string currencies; the currencies are upper-cased |
| AnalysisServer.ConvertAmount | backend/train_wear_tear_model.py:174 | the converted amount is within half a cent of amount times rate |
| AnalysisServer.ConvertCurrency | backend/train_wear_tear_model.py:158-179 | unreadable input gives 400. Equal currencies after upper-casing give the amount at rate 1.0. A missing rate gives 500, a lookup that raises gives 400, and a found rate gives the rounded product with that rate |
| AnalysisServer.SameCurrencyNeedsNoRate | backend/train_wear_tear_model.py:166-167 | with equal currencies the answer is the amount at rate 1.0, whatever the rate lookup would say |
| WearTearServer.EbayNotify | backend/train_wear_tear_model.py:189-231 | a GET with a non-empty challenge gets 200 and the challenge itself; any other GET gets 400 "Challenge code required"; every POST gets 200 with an empty body |
| WearTearServer.ChallengeEcho | backend/train_wear_tear_model.py:192-206 | a GET succeeds exactly when the challenge is non-empty, and echoes it unchanged |
| WearTearServer.PostAlwaysAcknowledged | backend/train_wear_tear_model.py:208-231 | a POST gets 200 whatever its payload, even when reading it fails |
| RootApp.EbayNotify | app.py:174-182 | a decodable body gets 200 with status "received"; otherwise 500 with "Notification error" |
| RootApp.NotifyStatus | app.py:174-182 | the answer is 200 exactly when the body decodes, and 500 otherwise |
| BackendWearTearModel.New | backend/wear_tear_model.py:6-13 | the model is what loading produced (None when it failed), and the labels are the fixed three |
| BackendWearTearModel.WearTearModel.Predict | backend/wear_tear_model.py:15-23 | without a model the answer is "Model not loaded."; otherwise it is the label at the argmax of the prediction, and an unreadable image raises |
| BackendWearTearModel.FailedLoadAnswers | backend/wear_tear_model.py:7-17 | after a failed load, every image gets "Model not loaded." |
| BackendWearTearModel.PredictIsLargestLabel | backend/wear_tear_model.py:13-23 | a returned label is one of the three, the one at the first position of the largest prediction. Any non-empty prediction of at most three entries returns a label |
| GarmentzWearTearModel.New | Garmentz/backend/wear_tear_model.py:6-8 | the constructor raises exactly the exception `load_model` raises; otherwise it holds the model and the three labels |
| GarmentzWearTearModel.WearTearModel.Predict | Garmentz/backend/wear_tear_model.py:10-16 | the label at the argmax of the prediction; an unreadable image raises |
| GarmentzWearTearModel.ModuleModel | Garmentz/backend/wear_tear_model.py:18-22 | the module-level model is None exactly when `load_model` raised, and otherwise the model it loaded |
| GarmentzWearTearModel.LoadFailureContrast | Garmentz/backend/wear_tear_model.py:6-22 | a load that raises makes the constructor raise the same exception but leaves None at module level |
| GarmentzWearTearModel.PredictIsLargestLabel | Garmentz/backend/wear_tear_model.py:8-16 | a returned label is one of the three, the one at the first position of the largest prediction. A non-empty prediction of at most three entries returns a label, and an empty one raises ValueError |
| RecommendationService.GetRecommendations | backend/recommendation_service.py:5-23 | a known lower-cased condition gets its table entry, and any other gets ["No recommendations available"] |
| RecommendationService.NeverEmpty | backend/recommendation_service.py:9-23 | the list is never empty: two suggestions exactly for the three known conditions, otherwise one |
| RecommendationService.CaseInsensitive | backend/recommendation_service.py:23 | a condition and its lower-cased form get the same list |
| RecommendationService.KnownConditions | backend/recommendation_service.py:10-23 | "heavily worn" and "Not Worn" get their two listed suggestions in order, and "brand new" gets the default |
| EbayService.GetPriceEstimate | Garmentz/backend/ebay_service.py:5-15 | a known lower-cased condition gets its band, and any other gets 20/30/40; every band has min <= avg <= max |
| EbayService.PriceBands | Garmentz/backend/ebay_service.py:10-15 | heavily worn 10/15/20, lightly worn 25/35/45, not worn 50/65/80, otherwise 20/30/40, all after lower-casing |
| EbayService.AverageIncreasesWithCondition | Garmentz/backend/ebay_service.py:11-13 | the average rises strictly from heavily to lightly to not worn, and the three bands do not overlap |
| EbayService.CaseInsensitive | Garmentz/backend/ebay_service.py:15 | a condition and its lower-cased form get the same band |
| Json.ParseDigits | Garmentz/backend/app.py:36-37 | `float()` reads a run of digits as the number they spell |

## Left out

- Binary floating point. Values are exact reals. `round(x, n)` is rounding to the nearest multiple of 10^-n with ties going to even. The model proves it is within half a unit, monotone and exact on grid values. Python rounds the binary double instead, so ties that are not exact in binary can round the other way.
- Unicode. `lower()`, `upper()` and `strip()` are modelled on ASCII. The `\d` of `strptime` is also ASCII only. Non-ASCII case mappings and whitespace are not modelled.
- `float()` on text accepts surrounding whitespace, an optional sign and a plain decimal. Exponents, `inf`, `nan` and underscores are left out, and are treated as unparseable.
- Signed text such as `float("-12")` is handled by `Json.ParseFloat`, but no lemma states its value.
- Keras, PIL and numpy. Loading and running a model, preprocessing, `build_model`, `fit` and `train_test_split` are not modelled. A model is a total function from pixels to a rank-1 or rank-2 array. Arrays of higher rank, NaN predictions and a `predict` that raises are therefore not modelled. What `load_model` did, and whether `load_img` could read a file, are parameters.
- GarmentzTraining.LoadData: the `depreciation` cell is taken as text and read with `float()`. Pandas' own typing of the column, and empty cells that pandas reads as NaN, are not modelled.
- `DepreciationModel.predict` tests `if not self.model`. The model treats every loaded Keras model as truthy.
- Network and filesystem: downloading models, the Azure PUT itself, `get_exchange_rate`'s HTTP call and its `lru_cache`, `file.save`, `os.remove` and `os.makedirs`, and reading the CSV. Their outcomes are parameters: existence predicates, the PUT status, the rate lookup and whether the file opens.
- backend/currency_conversions.py and Garmentz/backend/currency_conversions.py are not part of this model. They are thin network clients.
- Flask glue. Routing to methods other than GET and POST is not modelled. Neither are `jsonify` and CORS, `secure_filename`, or the timestamp and uuid upload names. The stored name is a parameter.
- Flask glue, continued: a request body that is not a JSON object in `get_depreciation`, where `field in data` raises. The model takes the decoded object.
- `datetime.now()` and `datetime.utcnow()`. The current year is a parameter.
- The front end (Garmentz/screens, Garmentz/App.js, navigation, components) and backend/config.py, which hold UI and configuration only.
- Logging and `print`.
- The sign convention. `calculate_depreciation` returns the share of value kept, while `predict`'s docstring speaks of a loss percentage. The model states what each formula computes and does not reconcile the callers.
