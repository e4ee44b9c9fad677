/**
 * backend/train_depreciation_model.py: the loop in `load_data` that maps
 * each kept row's wear text to a numeric label through `wear_signs_mapping`,
 * and this file's copy of the attribute score. The CSV and the images are
 * not read: rows are given and image existence is a predicate.
 */
module BackendTraining {
  import opened Wrappers
  import Text
  import Rounding
  import AttributeScore

  /** A CSV row: the `image_name` and `wear_signs` columns, the latter as `str()` shows it. */
  datatype Row = Row(imageName: string, wearSigns: string)

  const WearSignsMapping: map<string, real> :=
    map["not worn" := 0.0, "lightly worn" := 0.5, "heavily worn" := 1.0]

  /** `wear_signs_mapping.get(str(text).strip().lower(), 0.0)`. */
  function WearLabel(wearSigns: string): (r: real)
    ensures 0.0 <= r <= 1.0
  {
    GetOr(WearSignsMapping, Text.Lower(Text.Strip(wearSigns)), 0.0)
  }

  /** The mapping, read after stripping and lower-casing; unknown text counts as unworn. */
  lemma WearLabelTable(wearSigns: string)
    ensures var key := Text.Lower(Text.Strip(wearSigns));
      && (key == "not worn" ==> WearLabel(wearSigns) == 0.0)
      && (key == "lightly worn" ==> WearLabel(wearSigns) == 0.5)
      && (key == "heavily worn" ==> WearLabel(wearSigns) == 1.0)
      && (key !in {"not worn", "lightly worn", "heavily worn"} ==> WearLabel(wearSigns) == 0.0)
  {
  }

  /** Surrounding whitespace does not change the label. */
  lemma PaddingIgnored(left: string, t: string, right: string)
    requires Text.AllSpace(left) && Text.AllSpace(right)
    requires t == [] || (!Text.IsSpace(t[0]) && !Text.IsSpace(t[|t| - 1]))
    ensures WearLabel(left + t + right) == WearLabel(t)
  {
    Text.StripPadding(left, t, right);
    Text.StripUnchanged(t);
  }

  /** Nor do capitals: "  Heavily Worn " is heavily worn. */
  lemma PaddedCapitalised()
    ensures WearLabel("  Heavily Worn ") == 1.0
  {
    var t := "Heavily Worn";
    assert "  Heavily Worn " == "  " + t + " ";
    PaddingIgnored("  ", t, " ");
    assert Text.Lower(t) == "heavily worn";
    Text.StripUnchanged(t);
  }

  function ImagePath(imageDir: string, row: Row): string {
    Text.JoinPath(imageDir, row.imageName)
  }

  /** The rows whose image exists, in CSV order. */
  function KeptRows(rows: seq<Row>, imageDir: string, imageExists: string -> bool): (kept: seq<Row>)
    ensures |kept| <= |rows|
    ensures forall k :: 0 <= k < |kept| ==> kept[k] in rows && imageExists(ImagePath(imageDir, kept[k]))
  {
    if rows == [] then []
    else
      var last := rows[|rows| - 1];
      KeptRows(rows[..|rows| - 1], imageDir, imageExists) + (if imageExists(ImagePath(imageDir, last)) then [last] else [])
  }

  function Paths(rows: seq<Row>, imageDir: string): seq<string> {
    seq(|rows|, k requires 0 <= k < |rows| => ImagePath(imageDir, rows[k]))
  }

  function Labels(rows: seq<Row>): (labels: seq<real>)
    ensures |labels| == |rows|
    ensures forall k :: 0 <= k < |labels| ==> 0.0 <= labels[k] <= 1.0
  {
    seq(|rows|, k requires 0 <= k < |rows| => WearLabel(rows[k].wearSigns))
  }

  /** The two arrays `load_data` returns. */
  datatype Dataset = Dataset(images: seq<string>, labels: seq<real>)

  /** A row does not make `load_data` raise: its image is missing, or `load_img` can read it. */
  predicate RowLoads(row: Row, imageDir: string, imageExists: string -> bool, imageLoads: string -> bool) {
    imageExists(ImagePath(imageDir, row)) ==> imageLoads(ImagePath(imageDir, row))
  }

  /** Whether `load_img` can read every existing image the rows name. */
  predicate AllLoad(rows: seq<Row>, imageDir: string, imageExists: string -> bool, imageLoads: string -> bool) {
    forall k :: 0 <= k < |rows| ==> RowLoads(rows[k], imageDir, imageExists, imageLoads)
  }

  /** `load_data` on the rows: the rows before the last one first, then the last one, unless `load_img` already raised. */
  function Load(rows: seq<Row>, imageDir: string, imageExists: string -> bool, imageLoads: string -> bool): Result<Dataset> {
    if rows == [] then Returned(Dataset([], []))
    else
      match Load(rows[..|rows| - 1], imageDir, imageExists, imageLoads)
      case Raised(e) => Raised(e)
      case Returned(d) =>
        var row := rows[|rows| - 1];
        var path := ImagePath(imageDir, row);
        if !imageExists(path) then Returned(d)
        else if !imageLoads(path) then Raised(OSError)
        else Returned(Dataset(d.images + [path], d.labels + [WearLabel(row.wearSigns)]))
  }

  /**
   * `load_data`: for each row in order, if its image exists, load it (here:
   * record the path) and append the mapped wear label; otherwise skip it.
   * An image that exists but cannot be read raises out of the walk.
   */
  method LoadData(rows: seq<Row>, imageDir: string, imageExists: string -> bool, imageLoads: string -> bool)
    returns (r: Result<Dataset>)
    ensures r == Load(rows, imageDir, imageExists, imageLoads)
    ensures r.Returned? <==> AllLoad(rows, imageDir, imageExists, imageLoads)
    ensures r.Raised? ==> r.error == OSError
    ensures r.Returned? ==>
      && r.value.images == Paths(KeptRows(rows, imageDir, imageExists), imageDir)
      && r.value.labels == Labels(KeptRows(rows, imageDir, imageExists))
      && |r.value.images| == |r.value.labels|
      && forall k :: 0 <= k < |r.value.labels| ==> 0.0 <= r.value.labels[k] <= 1.0
  {
    var images, labels := [], [];
    for i := 0 to |rows|
      invariant Load(rows[..i], imageDir, imageExists, imageLoads) == Returned(Dataset(images, labels))
    {
      assert rows[..i + 1][..i] == rows[..i];
      var row := rows[i];
      var imgPath := Text.JoinPath(imageDir, row.imageName);
      if imageExists(imgPath) {
        if !imageLoads(imgPath) {
          r := Raised(OSError);
          RaisedPersists(rows, i + 1, imageDir, imageExists, imageLoads);
          LoadSucceeds(rows, imageDir, imageExists, imageLoads);
          return;
        }
        images := images + [imgPath];
        labels := labels + [WearLabel(row.wearSigns)];
      }
    }
    assert rows[..|rows|] == rows;
    r := Returned(Dataset(images, labels));
    LoadSucceeds(rows, imageDir, imageExists, imageLoads);
    LoadReturnsKept(rows, imageDir, imageExists, imageLoads);
  }

  /** Once a prefix of the rows has raised, the whole walk raises the same exception. */
  lemma {:induction false} RaisedPersists(rows: seq<Row>, j: nat, imageDir: string, imageExists: string -> bool, imageLoads: string -> bool)
    requires j <= |rows|
    requires Load(rows[..j], imageDir, imageExists, imageLoads).Raised?
    ensures Load(rows, imageDir, imageExists, imageLoads) == Load(rows[..j], imageDir, imageExists, imageLoads)
  {
    if j < |rows| {
      var init := rows[..|rows| - 1];
      assert init[..j] == rows[..j];
      RaisedPersists(init, j, imageDir, imageExists, imageLoads);
    } else {
      assert rows[..j] == rows;
    }
  }

  /** The walk succeeds exactly when every existing image can be read; the only exception it raises is `load_img`'s. */
  lemma {:induction false} LoadSucceeds(rows: seq<Row>, imageDir: string, imageExists: string -> bool, imageLoads: string -> bool)
    ensures var r := Load(rows, imageDir, imageExists, imageLoads);
      && (r.Returned? <==> AllLoad(rows, imageDir, imageExists, imageLoads))
      && (r.Raised? ==> r.error == OSError)
  {
    if rows != [] {
      var init := rows[..|rows| - 1];
      LoadSucceeds(init, imageDir, imageExists, imageLoads);
      assert forall k :: 0 <= k < |init| ==> init[k] == rows[k];
      if !AllLoad(init, imageDir, imageExists, imageLoads) {
        var k :| 0 <= k < |init| && !RowLoads(init[k], imageDir, imageExists, imageLoads);
        assert !RowLoads(rows[k], imageDir, imageExists, imageLoads);
      }
    }
  }

  /** A successful walk holds the path and label of each row whose image exists, in order. */
  lemma {:induction false} LoadReturnsKept(rows: seq<Row>, imageDir: string, imageExists: string -> bool, imageLoads: string -> bool)
    ensures var r := Load(rows, imageDir, imageExists, imageLoads);
      r.Returned? ==>
        && r.value.images == Paths(KeptRows(rows, imageDir, imageExists), imageDir)
        && r.value.labels == Labels(KeptRows(rows, imageDir, imageExists))
  {
    if rows != [] {
      var init := rows[..|rows| - 1];
      var last := rows[|rows| - 1];
      var r := Load(rows, imageDir, imageExists, imageLoads);
      if r.Returned? {
        LoadReturnsKept(init, imageDir, imageExists, imageLoads);
        var keptInit := KeptRows(init, imageDir, imageExists);
        if imageExists(ImagePath(imageDir, last)) {
          assert KeptRows(rows, imageDir, imageExists) == keptInit + [last];
          PathsAppend(keptInit, last, imageDir);
          LabelsAppend(keptInit, last);
        } else {
          assert KeptRows(rows, imageDir, imageExists) == keptInit;
        }
      }
    }
  }

  lemma PathsAppend(rows: seq<Row>, row: Row, imageDir: string)
    ensures Paths(rows + [row], imageDir) == Paths(rows, imageDir) + [ImagePath(imageDir, row)]
  {
    assert forall k :: 0 <= k < |rows| ==> (rows + [row])[k] == rows[k];
  }

  lemma LabelsAppend(rows: seq<Row>, row: Row)
    ensures Labels(rows + [row]) == Labels(rows) + [WearLabel(row.wearSigns)]
  {
    assert forall k :: 0 <= k < |rows| ==> (rows + [row])[k] == rows[k];
  }

  /** Keeping rows distributes over concatenation: order is kept and no row is moved. */
  lemma {:induction false} KeptRowsAppend(a: seq<Row>, b: seq<Row>, imageDir: string, imageExists: string -> bool)
    ensures KeptRows(a + b, imageDir, imageExists) == KeptRows(a, imageDir, imageExists) + KeptRows(b, imageDir, imageExists)
  {
    if b == [] {
      assert a + b == a;
    } else {
      var b' := b[..|b| - 1];
      assert (a + b)[..|a + b| - 1] == a + b';
      KeptRowsAppend(a, b', imageDir, imageExists);
    }
  }

  /** This file's copy of the attribute score (`calculate_depreciation`). */
  function CalculateDepreciation(brand: string, fabric: string, ageYears: real, wearLevelScore: real): (r: real)
    ensures r == AttributeScore.AttrScore(brand, fabric, ageYears, wearLevelScore)
  {
    var brandScore := if Text.Lower(brand) in ["gucci", "prada", "lv"] then 0.8 else 0.6;
    var fabricScore := if Text.Lower(fabric) in ["leather", "wool"] then 0.9 else 0.7;
    var ageScore := if 0.0 > 1.0 - ageYears / 10.0 then 0.0 else 1.0 - ageYears / 10.0;
    var wearScore := 1.0 - wearLevelScore;
    var depreciation := brandScore * fabricScore * ageScore * wearScore;
    assert depreciation == AttributeScore.RawScore(brand, fabric, ageYears, wearLevelScore);
    Rounding.Round(depreciation, 3)
  }
}
