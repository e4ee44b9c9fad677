/**
 * Garmentz/backend/train_depreciation_model.py: the loop in `load_data` that
 * pairs each CSV row whose image exists with its numeric depreciation label,
 * and this file's copy of the attribute score. Reading the CSV and the
 * images is not modelled: the rows are given, and whether a path exists
 * and whether `load_img` can read it are predicates.
 */
module GarmentzTraining {
  import opened Wrappers
  import Text
  import Json
  import Rounding
  import AttributeScore

  /** `IMAGE_DIR`, the directory `main` reads images from. */
  const ImageDir := "static/"

  /** A CSV row: the `filename` column and the `depreciation` cell as text. */
  datatype Row = Row(filename: string, depreciation: string)

  /** The two arrays `load_data` returns. */
  datatype Dataset = Dataset(images: seq<string>, labels: seq<real>)

  function ImagePath(imageDir: string, row: Row): string {
    Text.JoinPath(imageDir, row.filename)
  }

  /** The rows whose image exists, in CSV order. */
  function KeptRows(rows: seq<Row>, imageDir: string, imageExists: string -> bool): (kept: seq<Row>)
    ensures |kept| <= |rows|
    ensures forall k :: 0 <= k < |kept| ==> kept[k] in rows && imageExists(ImagePath(imageDir, kept[k]))
  {
    if rows == [] then []
    else
      var last := rows[|rows| - 1];
      KeptRows(rows[..|rows| - 1], imageDir, imageExists) + (if imageExists(ImagePath(imageDir, last)) then [last] else [])
  }

  function Paths(rows: seq<Row>, imageDir: string): seq<string> {
    seq(|rows|, k requires 0 <= k < |rows| => ImagePath(imageDir, rows[k]))
  }

  /**
   * What processing one row raises, if anything: a row whose image is
   * missing is skipped; otherwise `load_img` fails on an unreadable file,
   * and then `float()` on a cell that is not a number.
   */
  function RowError(row: Row, imageDir: string, imageExists: string -> bool, imageLoads: string -> bool): Option<Exception> {
    var path := ImagePath(imageDir, row);
    if !imageExists(path) then None
    else if !imageLoads(path) then Some(OSError)
    else if Json.ParseFloat(row.depreciation).None? then Some(ValueError("could not convert string to float"))
    else None
  }

  /** `load_data` on the rows: the rows before the last one first, then the last one, unless an exception is already raised. */
  function Load(rows: seq<Row>, imageDir: string, imageExists: string -> bool, imageLoads: string -> bool): Result<Dataset> {
    if rows == [] then Returned(Dataset([], []))
    else
      match Load(rows[..|rows| - 1], imageDir, imageExists, imageLoads)
      case Raised(e) => Raised(e)
      case Returned(d) =>
        var row := rows[|rows| - 1];
        match RowError(row, imageDir, imageExists, imageLoads)
        case Some(e) => Raised(e)
        case None =>
          if imageExists(ImagePath(imageDir, row)) then
            Returned(Dataset(d.images + [ImagePath(imageDir, row)], d.labels + [Json.ParseFloat(row.depreciation).value]))
          else Returned(d)
  }

  /**
   * `load_data`: walk the rows in order; for a row whose image exists load
   * the image (here: record its path) and append `float(row['depreciation'])`,
   * otherwise skip it. The first exception ends the walk.
   */
  method LoadData(rows: seq<Row>, imageDir: string, imageExists: string -> bool, imageLoads: string -> bool)
    returns (r: Result<Dataset>)
    ensures r == Load(rows, imageDir, imageExists, imageLoads)
    ensures r.Returned? <==> forall k :: 0 <= k < |rows| ==> RowError(rows[k], imageDir, imageExists, imageLoads).None?
    ensures r.Returned? ==>
      && r.value.images == Paths(KeptRows(rows, imageDir, imageExists), imageDir)
      && |r.value.labels| == |r.value.images|
      && forall k :: 0 <= k < |r.value.labels| ==>
           Json.ParseFloat(KeptRows(rows, imageDir, imageExists)[k].depreciation) == Some(r.value.labels[k])
    ensures r.Raised? ==> exists i ::
      (&& 0 <= i < |rows|
       && RowError(rows[i], imageDir, imageExists, imageLoads) == Some(r.error)
       && forall k :: 0 <= k < i ==> RowError(rows[k], imageDir, imageExists, imageLoads).None?)
  {
    var images, labels := [], [];
    for i := 0 to |rows|
      invariant Load(rows[..i], imageDir, imageExists, imageLoads) == Returned(Dataset(images, labels))
    {
      assert rows[..i + 1][..i] == rows[..i];
      var row := rows[i];
      var imgPath := Text.JoinPath(imageDir, row.filename);
      if imageExists(imgPath) {
        if !imageLoads(imgPath) {
          r := Raised(OSError);
          RaisedPersists(rows, i + 1, imageDir, imageExists, imageLoads);
          LoadSucceeds(rows, imageDir, imageExists, imageLoads);
          LoadRaisesFirst(rows, imageDir, imageExists, imageLoads);
          return;
        }
        var value := Json.ParseFloat(row.depreciation);
        if value.None? {
          r := Raised(ValueError("could not convert string to float"));
          RaisedPersists(rows, i + 1, imageDir, imageExists, imageLoads);
          LoadSucceeds(rows, imageDir, imageExists, imageLoads);
          LoadRaisesFirst(rows, imageDir, imageExists, imageLoads);
          return;
        }
        images := images + [imgPath];
        labels := labels + [value.value];
      }
    }
    assert rows[..|rows|] == rows;
    r := Returned(Dataset(images, labels));
    LoadSucceeds(rows, imageDir, imageExists, imageLoads);
    LoadReturnsKept(rows, imageDir, imageExists, imageLoads);
  }

  /** Once a prefix of the rows has raised, the whole walk raises the same exception. */
  lemma {:induction false} RaisedPersists(rows: seq<Row>, j: nat, imageDir: string, imageExists: string -> bool, imageLoads: string -> bool)
    requires j <= |rows|
    requires Load(rows[..j], imageDir, imageExists, imageLoads).Raised?
    ensures Load(rows, imageDir, imageExists, imageLoads) == Load(rows[..j], imageDir, imageExists, imageLoads)
  {
    if j < |rows| {
      var init := rows[..|rows| - 1];
      assert init[..j] == rows[..j];
      RaisedPersists(init, j, imageDir, imageExists, imageLoads);
    } else {
      assert rows[..j] == rows;
    }
  }

  /** The walk succeeds exactly when no row raises. */
  lemma {:induction false} LoadSucceeds(rows: seq<Row>, imageDir: string, imageExists: string -> bool, imageLoads: string -> bool)
    ensures Load(rows, imageDir, imageExists, imageLoads).Returned?
        <==> forall k :: 0 <= k < |rows| ==> RowError(rows[k], imageDir, imageExists, imageLoads).None?
  {
    if rows != [] {
      var init := rows[..|rows| - 1];
      LoadSucceeds(init, imageDir, imageExists, imageLoads);
      assert forall k :: 0 <= k < |init| ==> init[k] == rows[k];
    }
  }

  /** A successful walk holds the paths of the rows whose image exists, in order, each with its cell's value. */
  lemma {:induction false} LoadReturnsKept(rows: seq<Row>, imageDir: string, imageExists: string -> bool, imageLoads: string -> bool)
    ensures var r := Load(rows, imageDir, imageExists, imageLoads);
      r.Returned? ==>
        && r.value.images == Paths(KeptRows(rows, imageDir, imageExists), imageDir)
        && |r.value.labels| == |r.value.images|
        && forall k :: 0 <= k < |r.value.labels| ==>
             Json.ParseFloat(KeptRows(rows, imageDir, imageExists)[k].depreciation) == Some(r.value.labels[k])
  {
    if rows != [] {
      var init := rows[..|rows| - 1];
      var last := rows[|rows| - 1];
      var r := Load(rows, imageDir, imageExists, imageLoads);
      if r.Returned? {
        LoadReturnsKept(init, imageDir, imageExists, imageLoads);
        var d := Load(init, imageDir, imageExists, imageLoads).value;
        var keptInit := KeptRows(init, imageDir, imageExists);
        var kept := KeptRows(rows, imageDir, imageExists);
        if imageExists(ImagePath(imageDir, last)) {
          var v := Json.ParseFloat(last.depreciation).value;
          assert r.value == Dataset(d.images + [ImagePath(imageDir, last)], d.labels + [v]);
          assert kept == keptInit + [last];
          PathsAppend(keptInit, last, imageDir);
          forall k | 0 <= k < |r.value.labels|
            ensures Json.ParseFloat(kept[k].depreciation) == Some(r.value.labels[k])
          {
            if k < |d.labels| {
              assert kept[k] == keptInit[k] && r.value.labels[k] == d.labels[k];
            }
          }
        } else {
          assert kept == keptInit;
        }
      }
    }
  }

  lemma PathsAppend(rows: seq<Row>, row: Row, imageDir: string)
    ensures Paths(rows + [row], imageDir) == Paths(rows, imageDir) + [ImagePath(imageDir, row)]
  {
    assert forall k :: 0 <= k < |rows| ==> (rows + [row])[k] == rows[k];
  }

  /** The first row that raises decides the exception, and every row before it was processed normally. */
  lemma {:induction false} LoadRaisesFirst(rows: seq<Row>, imageDir: string, imageExists: string -> bool, imageLoads: string -> bool)
    requires Load(rows, imageDir, imageExists, imageLoads).Raised?
    ensures exists i ::
      (&& 0 <= i < |rows|
       && RowError(rows[i], imageDir, imageExists, imageLoads) == Some(Load(rows, imageDir, imageExists, imageLoads).error)
       && forall k :: 0 <= k < i ==> RowError(rows[k], imageDir, imageExists, imageLoads).None?)
  {
    var init := rows[..|rows| - 1];
    assert forall k :: 0 <= k < |init| ==> init[k] == rows[k];
    if Load(init, imageDir, imageExists, imageLoads).Raised? {
      LoadRaisesFirst(init, imageDir, imageExists, imageLoads);
    } else {
      LoadSucceeds(init, imageDir, imageExists, imageLoads);
      assert RowError(rows[|rows| - 1], imageDir, imageExists, imageLoads) == Some(Load(rows, imageDir, imageExists, imageLoads).error);
    }
  }

  /** Keeping rows distributes over concatenation: order is kept and no row is moved. */
  lemma {:induction false} KeptRowsAppend(a: seq<Row>, b: seq<Row>, imageDir: string, imageExists: string -> bool)
    ensures KeptRows(a + b, imageDir, imageExists) == KeptRows(a, imageDir, imageExists) + KeptRows(b, imageDir, imageExists)
  {
    if b == [] {
      assert a + b == a;
    } else {
      var b' := b[..|b| - 1];
      assert (a + b)[..|a + b| - 1] == a + b';
      KeptRowsAppend(a, b', imageDir, imageExists);
    }
  }

  /** A row contributes its label exactly when its image exists. */
  lemma SingleRow(row: Row, imageDir: string, imageExists: string -> bool)
    ensures KeptRows([row], imageDir, imageExists) == if imageExists(ImagePath(imageDir, row)) then [row] else []
  {
    assert [row][..0] == [];
  }

  /** When every image exists, every row is kept. */
  lemma {:induction false} AllPresent(rows: seq<Row>, imageDir: string, imageExists: string -> bool)
    requires forall k :: 0 <= k < |rows| ==> imageExists(ImagePath(imageDir, rows[k]))
    ensures KeptRows(rows, imageDir, imageExists) == rows
  {
    if rows != [] {
      AllPresent(rows[..|rows| - 1], imageDir, imageExists);
    }
  }

  /** When no image exists, nothing is loaded. */
  lemma {:induction false} NonePresent(rows: seq<Row>, imageDir: string, imageExists: string -> bool)
    requires forall k :: 0 <= k < |rows| ==> !imageExists(ImagePath(imageDir, rows[k]))
    ensures KeptRows(rows, imageDir, imageExists) == []
  {
    if rows != [] {
      NonePresent(rows[..|rows| - 1], imageDir, imageExists);
    }
  }

  /** This file's copy of the attribute score (`calculate_depreciation`). */
  function CalculateDepreciation(brand: string, fabric: string, ageYears: real, wearLevelScore: real): (r: real)
    ensures r == AttributeScore.AttrScore(brand, fabric, ageYears, wearLevelScore)
  {
    var brandScore := if Text.Lower(brand) in ["gucci", "prada", "lv"] then 0.8 else 0.6;
    var fabricScore := if Text.Lower(fabric) in ["leather", "wool"] then 0.9 else 0.7;
    var ageScore := if 0.0 > 1.0 - ageYears / 10.0 then 0.0 else 1.0 - ageYears / 10.0;
    var wearScore := 1.0 - wearLevelScore;
    var depreciation := brandScore * fabricScore * ageScore * wearScore;
    assert depreciation == AttributeScore.RawScore(brand, fabric, ageYears, wearLevelScore);
    Rounding.Round(depreciation, 3)
  }

  /** The docstring's promise: for wear in [0, 1] and a non-negative age, a score in [0, 1]. */
  lemma CalculateDepreciationInUnit(brand: string, fabric: string, ageYears: real, wearLevelScore: real)
    requires 0.0 <= ageYears && 0.0 <= wearLevelScore <= 1.0
    ensures 0.0 <= CalculateDepreciation(brand, fabric, ageYears, wearLevelScore) <= 1.0
  {
    AttributeScore.AttrScoreBounds(brand, fabric, ageYears, wearLevelScore);
  }
}
