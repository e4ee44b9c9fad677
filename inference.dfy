/**
 * The trained networks seen from outside: a loaded model is a function from
 * a preprocessed image to the array `model.predict` returns. Loading,
 * preprocessing and the network itself are not modelled.
 */
module Inference {
  import opened Wrappers

  /** A preprocessed 224x224x3 image with a batch axis, flattened. */
  type Pixels = seq<real>

  /** A prediction array of rank 2 (batch x outputs) or of rank 1. */
  datatype ModelOutput = Batch(rows: seq<seq<real>>) | Flat(values: seq<real>)

  /** A loaded Keras model. */
  datatype Model = Model(predict: Pixels -> ModelOutput)

  /** The prediction as `np.argmax` sees it: all entries in row-major order. */
  function Flatten(out: ModelOutput): seq<real> {
    match out
    case Flat(v) => v
    case Batch(rows) => Concat(rows)
  }

  function Concat(rows: seq<seq<real>>): (r: seq<real>)
    ensures rows != [] ==> |r| >= |rows[0]| && r[..|rows[0]|] == rows[0]
  {
    if rows == [] then [] else rows[0] + Concat(rows[1..])
  }

  /** `float(pred[0][0]) if pred.ndim > 1 else float(pred[0])`; `None` on an IndexError. */
  function FirstValue(out: ModelOutput): (r: Option<real>)
    ensures r.Some? <==> |Flatten(out)| > 0 && (out.Batch? ==> |out.rows[0]| > 0)
    ensures r.Some? ==> r.value == Flatten(out)[0]
  {
    match out
    case Flat(v) => if |v| > 0 then Some(v[0]) else None
    case Batch(rows) => if |rows| > 0 && |rows[0]| > 0 then Some(rows[0][0]) else None
  }

  /** `max(0, min(1, x))`. */
  function Clamp01(x: real): (r: real)
    ensures 0.0 <= r <= 1.0
    ensures 0.0 <= x <= 1.0 ==> r == x
    ensures x < 0.0 ==> r == 0.0
    ensures x > 1.0 ==> r == 1.0
  {
    if x < 0.0 then 0.0 else if x > 1.0 then 1.0 else x
  }

  /** `np.argmax(v)`: the first position of the largest entry. */
  function Argmax(v: seq<real>): (i: nat)
    requires |v| > 0
    ensures i < |v|
    ensures forall j :: 0 <= j < |v| ==> v[j] <= v[i]
    ensures forall j :: 0 <= j < i ==> v[j] < v[i]
  {
    if |v| == 1 then 0
    else
      var i := Argmax(v[..|v| - 1]);
      if v[|v| - 1] > v[i] then |v| - 1 else i
  }

  /** `labels[np.argmax(preds)]`; `np.argmax` raises on an empty array. */
  function ArgmaxLabel(labels: seq<string>, preds: seq<real>): (r: Result<string>)
    ensures |preds| == 0 ==> r.Raised? && r.error.ValueError?
    ensures |preds| > 0 && Argmax(preds) >= |labels| ==> r == Raised(IndexError)
    ensures r.Returned? <==> |preds| > 0 && Argmax(preds) < |labels|
    ensures r.Returned? ==> r.value == labels[Argmax(preds)]
  {
    if |preds| == 0 then Raised(ValueError("attempt to get argmax of an empty sequence"))
    else
      var i := Argmax(preds);
      if i < |labels| then Returned(labels[i]) else Raised(IndexError)
  }

  /**
   * The contract of `Argmax` pins it down: the first position holding a
   * largest entry is the only one that satisfies it. On a tie the earlier
   * position wins.
   */
  lemma ArgmaxIsFirstMaximum(v: seq<real>, i: nat)
    requires i < |v|
    requires forall j :: 0 <= j < |v| ==> v[j] <= v[i]
    requires forall j :: 0 <= j < i ==> v[j] < v[i]
    ensures Argmax(v) == i
  {
  }

  /** A tie between the first two entries goes to the first. */
  lemma ArgmaxTie()
    ensures Argmax([0.5, 0.5, 0.0]) == 0
  {
    ArgmaxIsFirstMaximum([0.5, 0.5, 0.0], 0);
  }
}
