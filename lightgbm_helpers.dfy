/**
  The multiclass accuracy metric handed to LightGBM as a custom evaluation
  function. LightGBM passes the raw scores as one flat, class-major vector:
  the score of class `c` for row `i` sits at position `c * n + i`, where `n`
  is the number of rows. The metric views that vector as a 9-by-n matrix,
  decodes each row (each matrix column) to the class with the highest score,
  and reports the fraction of rows whose decoded class equals the label.
 */
module LightgbmHelpers {
  import opened Results

  /** The number of surface classes the competition's classifier predicts. */
  const NUM_CLASSES: nat := 9

  /** The metric's name, the first component reported to LightGBM. */
  const METRIC_NAME: string := "accuracy"

  /** A floating-point mean: NaN when taken over no elements. */
  datatype Value = NaN | Num(x: real)

  /** What the metric reports: its name, its value, and whether higher is better. */
  datatype Metric = Metric(name: string, value: Value, higherIsBetter: bool)

  /** A reshape to `rows` by `cols` of a vector whose length is not `rows * cols`. */
  datatype Error = ReshapeError(size: nat, rows: nat, cols: nat)

  /**
    Where row `c` of a row-major matrix with `cols` columns starts in the flat
    vector. Defined by repeated addition so that proofs about positions stay
    linear; RowStartIsProduct relates it to `c * cols`.
   */
  function RowStart(c: nat, cols: nat): nat
  {
    if c == 0 then 0 else RowStart(c - 1, cols) + cols
  }

  lemma {:induction false} RowStartIsProduct(c: nat, cols: nat)
    ensures RowStart(c, cols) == c * cols
  {
    if c > 0 {
      RowStartIsProduct(c - 1, cols);
      assert c * cols == (c - 1) * cols + cols;
    }
  }

  /** Every row of a `rows`-row matrix ends within the flat vector. */
  lemma {:induction false} RowStartsInRange(rows: nat, cols: nat)
    ensures forall c :: 0 <= c < rows ==> RowStart(c, cols) + cols <= RowStart(rows, cols)
  {
    if rows > 0 {
      RowStartsInRange(rows - 1, cols);
    }
  }

  /**
    Cuts `flat` into `rows` consecutive pieces of `cols` elements each:
    row `c`, column `i` holds the element at `RowStart(c, cols) + i`.
   */
  function Split(flat: seq<real>, rows: nat, cols: nat): (m: seq<seq<real>>)
    requires |flat| == RowStart(rows, cols)
    ensures |m| == rows && forall c :: 0 <= c < rows ==> |m[c]| == cols
    ensures forall c :: 0 <= c < rows ==> RowStart(c, cols) + cols <= |flat|
    ensures forall c, i :: 0 <= c < rows && 0 <= i < cols ==> m[c][i] == flat[RowStart(c, cols) + i]
    decreases rows
  {
    if rows == 0 then []
    else
      var start := RowStart(rows - 1, cols);
      var front := Split(flat[..start], rows - 1, cols);
      var m := front + [flat[start..]];
      assert forall c, i :: 0 <= c < rows && 0 <= i < cols ==> m[c][i] == flat[RowStart(c, cols) + i] by {
        forall c, i | 0 <= c < rows && 0 <= i < cols
          ensures m[c][i] == flat[RowStart(c, cols) + i]
        {
          if c < rows - 1 {
            assert m[c] == front[c];
          } else {
            assert m[c] == flat[start..];
          }
        }
      }
      m
  }

  /**
    Row-major reshape of a flat vector into a `rows` by `cols` matrix:
    it fails unless the sizes agree, and otherwise entry `(c, i)` is the
    element at flat position `RowStart(c, cols) + i`, that is `c * cols + i`
    (see ReshapeLayout).
   */
  function Reshape(flat: seq<real>, rows: nat, cols: nat): (r: Result<seq<seq<real>>, Error>)
    ensures r.Ok? <==> |flat| == rows * cols
    ensures r.Err? ==> r.error == ReshapeError(|flat|, rows, cols)
    ensures r.Ok? ==> |r.value| == rows && forall c :: 0 <= c < rows ==> |r.value[c]| == cols
    ensures r.Ok? ==> forall c :: 0 <= c < rows ==> RowStart(c, cols) + cols <= |flat|
    ensures r.Ok? ==>
      forall c, i :: 0 <= c < rows && 0 <= i < cols ==> r.value[c][i] == flat[RowStart(c, cols) + i]
  {
    if |flat| != rows * cols then Err(ReshapeError(|flat|, rows, cols))
    else
      RowStartIsProduct(rows, cols);
      Ok(Split(flat, rows, cols))
  }

  /** numpy's C-order layout: after the reshape, entry `(c, i)` is flat element `c * cols + i`. */
  lemma ReshapeLayout(flat: seq<real>, rows: nat, cols: nat, c: nat, i: nat)
    requires |flat| == rows * cols && c < rows && i < cols
    ensures Reshape(flat, rows, cols).Ok?
    ensures c * cols + i < |flat| && Reshape(flat, rows, cols).value[c][i] == flat[c * cols + i]
  {
    var m := Reshape(flat, rows, cols).value;
    assert RowStart(c, cols) + cols <= |flat|;
    assert m[c][i] == flat[RowStart(c, cols) + i];
    RowStartIsProduct(c, cols);
  }

  /**
    `k` is where numpy's `argmax` lands in `s`: a maximal entry, and the
    first one among equal maxima.
   */
  predicate IsFirstMax(s: seq<real>, k: nat)
  {
    && k < |s|
    && (forall j :: 0 <= j < |s| ==> s[j] <= s[k])
    && (forall j :: 0 <= j < k ==> s[j] < s[k])
  }

  /** At most one index of a sequence is its first maximum. */
  lemma FirstMaxUnique(s: seq<real>, k1: nat, k2: nat)
    requires IsFirstMax(s, k1) && IsFirstMax(s, k2)
    ensures k1 == k2
  {
    assert s[k1] == s[k2];
  }

  /** The index of the first largest element, scanning from the front. */
  function ArgMax(s: seq<real>): (k: nat)
    requires |s| > 0
    ensures IsFirstMax(s, k)
  {
    if |s| == 1 then 0
    else
      var k := ArgMax(s[..|s| - 1]);
      if s[k] < s[|s| - 1] then |s| - 1 else k
  }

  /** Column `i` of a matrix given as a sequence of rows. */
  function Column(m: seq<seq<real>>, i: nat): (col: seq<real>)
    requires forall c :: 0 <= c < |m| ==> i < |m[c]|
    ensures |col| == |m| && forall c :: 0 <= c < |m| ==> col[c] == m[c][i]
  {
    seq(|m|, c requires 0 <= c < |m| => m[c][i])
  }

  /** numpy's `argmax(axis=0)`: the first-maximum row index of every column. */
  function ArgMaxAxis0(m: seq<seq<real>>, cols: nat): (r: seq<nat>)
    requires |m| > 0 && forall c :: 0 <= c < |m| ==> |m[c]| == cols
    ensures |r| == cols
    ensures forall i :: 0 <= i < cols ==> IsFirstMax(Column(m, i), r[i])
  {
    seq(cols, i requires 0 <= i < cols => ArgMax(Column(m, i)))
  }

  /**
    The scores of all classes for row `i`, read straight off the flat
    class-major vector without reshaping it: class `c` scores at position
    `RowStart(c, n) + i`, that is `c * n + i`.
   */
  function ClassScores(yPred: seq<real>, n: nat, i: nat): (s: seq<real>)
    requires |yPred| == NUM_CLASSES * n && i < n
    ensures |s| == NUM_CLASSES
  {
    RowStartIsProduct(NUM_CLASSES, n);
    RowStartsInRange(NUM_CLASSES, n);
    seq(NUM_CLASSES, c requires 0 <= c < NUM_CLASSES => yPred[RowStart(c, n) + i])
  }

  /** Class `c`'s score for row `i` is flat element `c * n + i`. */
  lemma ClassScoresLayout(yPred: seq<real>, n: nat, i: nat, c: nat)
    requires |yPred| == NUM_CLASSES * n && i < n && c < NUM_CLASSES
    ensures c * n + i < |yPred| && ClassScores(yPred, n, i)[c] == yPred[c * n + i]
  {
    RowStartsInRange(NUM_CLASSES, n);
    RowStartIsProduct(NUM_CLASSES, n);
    RowStartIsProduct(c, n);
  }

  /** Column `i` of the reshaped scores holds every class's score for row `i`. */
  lemma ColumnIsClassScores(yPred: seq<real>, n: nat, i: nat)
    requires |yPred| == NUM_CLASSES * n && i < n
    ensures Reshape(yPred, NUM_CLASSES, n).Ok?
    ensures Column(Reshape(yPred, NUM_CLASSES, n).value, i) == ClassScores(yPred, n, i)
  {
    var m := Reshape(yPred, NUM_CLASSES, n).value;
    var col := Column(m, i);
    var scores := ClassScores(yPred, n, i);
    RowStartsInRange(NUM_CLASSES, n);
    forall c | 0 <= c < NUM_CLASSES ensures col[c] == scores[c] {
      assert col[c] == m[c][i];
      assert m[c][i] == yPred[RowStart(c, n) + i];
      assert scores[c] == yPred[RowStart(c, n) + i];
    }
    assert |col| == |scores|;
  }

  /**
    `y_pred.reshape(9, n).argmax(axis=0)`: the class decoded for every row.
    It fails exactly when `y_pred` does not hold 9 scores per row; otherwise
    each row's class lies in 0..8 and is the first class with the highest score.
   */
  function Decode(yPred: seq<real>, n: nat): (r: Result<seq<nat>, Error>)
    ensures r.Ok? <==> |yPred| == NUM_CLASSES * n
    ensures r.Err? ==> r.error == ReshapeError(|yPred|, NUM_CLASSES, n)
    ensures r.Ok? ==> |r.value| == n
    ensures r.Ok? ==> forall i :: 0 <= i < n ==> r.value[i] < NUM_CLASSES
    ensures r.Ok? ==> forall i :: 0 <= i < n ==> IsFirstMax(ClassScores(yPred, n, i), r.value[i])
  {
    match Reshape(yPred, NUM_CLASSES, n)
    case Err(e) => Err(e)
    case Ok(m) =>
      var yHat := ArgMaxAxis0(m, n);
      assert forall i :: 0 <= i < n ==> Column(m, i) == ClassScores(yPred, n, i) by {
        forall i | 0 <= i < n ensures Column(m, i) == ClassScores(yPred, n, i) {
          ColumnIsClassScores(yPred, n, i);
        }
      }
      Ok(yHat)
  }

  /**
    The elementwise comparison `y_true == y_hat` of two equally long vectors:
    it holds `true` exactly at the rows where label and decoded class agree.
   */
  function ElementwiseEqual(a: seq<int>, b: seq<nat>): (eq: seq<bool>)
    requires |a| == |b|
    ensures |eq| == |a| && forall i :: 0 <= i < |a| ==> (eq[i] <==> a[i] == b[i])
    ensures TruePositions(eq) == MatchingRows(a, b)
  {
    var eq := seq(|a|, i requires 0 <= i < |a| => a[i] == b[i]);
    assert TruePositions(eq) == MatchingRows(a, b);
    eq
  }

  /** The number of `true` entries. */
  function CountTrue(bs: seq<bool>): (k: nat)
    ensures k <= |bs|
  {
    if bs == [] then 0
    else CountTrue(bs[..|bs| - 1]) + (if bs[|bs| - 1] then 1 else 0)
  }

  /** The positions holding `true`. */
  function TruePositions(bs: seq<bool>): set<nat>
  {
    set i: nat | i < |bs| && bs[i]
  }

  lemma {:induction false} CountTrueIsCardinality(bs: seq<bool>)
    ensures CountTrue(bs) == |TruePositions(bs)|
  {
    if bs != [] {
      var front := bs[..|bs| - 1];
      CountTrueIsCardinality(front);
      var last := |bs| - 1;
      assert TruePositions(bs) == TruePositions(front) + (if bs[last] then {last} else {});
    }
  }

  lemma {:induction false} CountTrueAll(bs: seq<bool>)
    ensures CountTrue(bs) == |bs| <==> forall i :: 0 <= i < |bs| ==> bs[i]
  {
    if bs != [] {
      var front := bs[..|bs| - 1];
      CountTrueAll(front);
      assert forall i :: 0 <= i < |front| ==> front[i] == bs[i];
    }
  }

  lemma {:induction false} CountTrueNone(bs: seq<bool>)
    ensures CountTrue(bs) == 0 <==> forall i :: 0 <= i < |bs| ==> !bs[i]
  {
    if bs != [] {
      var front := bs[..|bs| - 1];
      CountTrueNone(front);
      assert forall i :: 0 <= i < |front| ==> front[i] == bs[i];
    }
  }

  /** Facts about a fraction `k / n` of whole numbers with `k <= n`. */
  lemma FractionFacts(k: nat, n: nat)
    requires 0 < n && k <= n
    ensures 0.0 <= k as real / n as real <= 1.0
    ensures k as real / n as real == 1.0 <==> k == n
    ensures k as real / n as real == 0.0 <==> k == 0
  {
    var q := k as real / n as real;
    assert q * n as real == k as real;
  }

  /** numpy's `mean` of a boolean vector: the fraction of `true` entries, NaN if empty. */
  function Mean(bs: seq<bool>): (v: Value)
    ensures v.NaN? <==> bs == []
    ensures v.Num? ==> v.x == |TruePositions(bs)| as real / |bs| as real
    ensures v.Num? ==> 0.0 <= v.x <= 1.0
  {
    if bs == [] then NaN
    else
      CountTrueIsCardinality(bs);
      FractionFacts(CountTrue(bs), |bs|);
      Num(CountTrue(bs) as real / |bs| as real)
  }

  /** The rows whose decoded class equals the label. */
  function MatchingRows(yTrue: seq<int>, yHat: seq<nat>): set<nat>
  {
    set i: nat | i < |yTrue| && i < |yHat| && yTrue[i] == yHat[i]
  }

  /**
    `accuracy(y_true, y_pred)`. It fails when `y_pred` does not hold
    9 scores per label; otherwise it reports the name "accuracy", the
    higher-is-better flag, and as value the number of rows whose decoded
    class equals the label divided by the number of rows (NaN for no rows).
   */
  function Accuracy(yTrue: seq<int>, yPred: seq<real>): (r: Result<Metric, Error>)
    ensures r.Ok? <==> |yPred| == NUM_CLASSES * |yTrue|
    ensures r.Err? ==> r.error == ReshapeError(|yPred|, NUM_CLASSES, |yTrue|)
    ensures r.Ok? ==> r.value.name == "accuracy" && r.value.higherIsBetter
    ensures r.Ok? ==> (r.value.value.NaN? <==> |yTrue| == 0)
    ensures r.Ok? && |yTrue| > 0 ==>
      var yHat := Decode(yPred, |yTrue|).value;
      r.value.value == Num(|MatchingRows(yTrue, yHat)| as real / |yTrue| as real)
  {
    var n := |yTrue|;
    match Decode(yPred, n)
    case Err(e) => Err(e)
    case Ok(yHat) =>
      var eq := ElementwiseEqual(yTrue, yHat);
      Ok(Metric(METRIC_NAME, Mean(eq), true))
  }

  /** For at least one row, the accuracy lies between 0 and 1. */
  lemma AccuracyInUnitInterval(yTrue: seq<int>, yPred: seq<real>)
    requires |yTrue| > 0 && |yPred| == NUM_CLASSES * |yTrue|
    ensures Accuracy(yTrue, yPred).Ok?
    ensures 0.0 <= Accuracy(yTrue, yPred).value.value.x <= 1.0
  {
  }

  /** The accuracy is 1 exactly when every row is decoded to its label. */
  lemma AccuracyOneIffAllMatch(yTrue: seq<int>, yPred: seq<real>)
    requires |yTrue| > 0 && |yPred| == NUM_CLASSES * |yTrue|
    ensures Accuracy(yTrue, yPred).Ok?
    ensures
      var yHat := Decode(yPred, |yTrue|).value;
      Accuracy(yTrue, yPred).value.value.x == 1.0 <==>
        forall i :: 0 <= i < |yTrue| ==> yTrue[i] == yHat[i]
  {
    var n := |yTrue|;
    var yHat := Decode(yPred, n).value;
    var eq := ElementwiseEqual(yTrue, yHat);
    CountTrueIsCardinality(eq);
    FractionFacts(CountTrue(eq), n);
    CountTrueAll(eq);
  }

  /** The accuracy is 0 exactly when no row is decoded to its label. */
  lemma AccuracyZeroIffNoneMatch(yTrue: seq<int>, yPred: seq<real>)
    requires |yTrue| > 0 && |yPred| == NUM_CLASSES * |yTrue|
    ensures Accuracy(yTrue, yPred).Ok?
    ensures
      var yHat := Decode(yPred, |yTrue|).value;
      Accuracy(yTrue, yPred).value.value.x == 0.0 <==>
        forall i :: 0 <= i < |yTrue| ==> yTrue[i] != yHat[i]
  {
    var n := |yTrue|;
    var yHat := Decode(yPred, n).value;
    var eq := ElementwiseEqual(yTrue, yHat);
    CountTrueIsCardinality(eq);
    FractionFacts(CountTrue(eq), n);
    CountTrueNone(eq);
  }

}
