/** The XGBoost position labelling of signal-generator-lasso-xgb/generate_signals.py
    (`generate_xgb_signals`).

    The source adds columns to the caller's DataFrame in place; here the frame is the
    class `SignalFrame`, whose columns are sequence fields of one common length, and
    `GenerateXgbSignals` assigns the new columns in the order the source does. */
module XgbSignals {

  /** The default thresholds of the source. */
  const DefaultConfThresh: real := 0.7
  const DefaultGapThresh: real := 0.2

  /** The input columns of one row. */
  datatype Row = Row(prediction: int, longConf: real, shortConf: real, confidenceGap: real)

  /** `Long_Signal` of one row. */
  predicate LongSignal(r: Row, confThresh: real, gapThresh: real)
  {
    r.prediction == 2 && r.longConf > confThresh && r.confidenceGap > gapThresh
  }

  /** `Short_Signal` of one row. */
  predicate ShortSignal(r: Row, confThresh: real, gapThresh: real)
  {
    r.prediction == 0 && r.shortConf > confThresh && r.confidenceGap > gapThresh
  }

  /** The Position the three assignments leave in one row: 0, overwritten by 1
      under the long mask, then by -1 under the short mask. The labelling rule
      follows: 1 exactly for a confident, well-separated class-2 prediction, -1
      exactly for such a class-0 prediction, and 0 otherwise. */
  function Position(r: Row, confThresh: real, gapThresh: real): (p: int)
    ensures p in {-1, 0, 1}
    ensures p == 1 <==> r.prediction == 2 && r.longConf > confThresh && r.confidenceGap > gapThresh
    ensures p == -1 <==> r.prediction == 0 && r.shortConf > confThresh && r.confidenceGap > gapThresh
  {
    var p0 := 0;
    var p1 := if LongSignal(r, confThresh, gapThresh) then 1 else p0;
    if ShortSignal(r, confThresh, gapThresh) then -1 else p1
  }

  /** The two masks never both hold, so applying the short mask before the long
      one would give the same Position. */
  lemma MasksExclusive(r: Row, confThresh: real, gapThresh: real)
    ensures !(LongSignal(r, confThresh, gapThresh) && ShortSignal(r, confThresh, gapThresh))
    ensures Position(r, confThresh, gapThresh) ==
              (if LongSignal(r, confThresh, gapThresh) then 1
               else if ShortSignal(r, confThresh, gapThresh) then -1 else 0)
  {
  }

  /** The thresholds are strict: a confidence or a gap equal to its threshold, or
      the neutral class 1, leaves the row flat. */
  lemma ThresholdsStrict(r: Row, confThresh: real, gapThresh: real)
    requires r.prediction == 1 || r.confidenceGap == gapThresh ||
             (r.longConf == confThresh && r.shortConf == confThresh)
    ensures Position(r, confThresh, gapThresh) == 0
  {
  }

  /** The frame's columns that the function reads and writes. */
  class SignalFrame {
    var prediction: seq<int>       // XGB_Prediction
    var longConf: seq<real>        // XGB_Long_Conf
    var shortConf: seq<real>       // XGB_Short_Conf
    var confidenceGap: seq<real>   // Confidence_Gap
    var longSignal: seq<bool>      // Long_Signal
    var shortSignal: seq<bool>     // Short_Signal
    var position: seq<int>         // Position

    /** The input columns have one common length. */
    ghost predicate Valid()
      reads this
    {
      |longConf| == |prediction| && |shortConf| == |prediction| && |confidenceGap| == |prediction|
    }

    ghost function RowAt(k: int): Row
      reads this
      requires Valid() && 0 <= k < |prediction|
    {
      Row(prediction[k], longConf[k], shortConf[k], confidenceGap[k])
    }

    constructor (prediction: seq<int>, longConf: seq<real>, shortConf: seq<real>, confidenceGap: seq<real>)
      requires |longConf| == |prediction| && |shortConf| == |prediction| && |confidenceGap| == |prediction|
      ensures Valid()
      ensures this.prediction == prediction && this.longConf == longConf
      ensures this.shortConf == shortConf && this.confidenceGap == confidenceGap
      ensures longSignal == [] && shortSignal == [] && position == []
    {
      this.prediction, this.longConf, this.shortConf, this.confidenceGap := prediction, longConf, shortConf, confidenceGap;
      longSignal, shortSignal, position := [], [], [];
    }

    /** `generate_xgb_signals(df, conf_thresh, gap_thresh)`: the input columns are
        left alone, the two masks are the row predicates, and Position is the
        labelling rule of every row. */
    method GenerateXgbSignals(confThresh: real, gapThresh: real)
      requires Valid()
      modifies this`longSignal, this`shortSignal, this`position
      ensures Valid()
      ensures |longSignal| == |shortSignal| == |position| == |prediction|
      ensures forall k :: 0 <= k < |prediction| ==>
                && longSignal[k] == LongSignal(RowAt(k), confThresh, gapThresh)
                && shortSignal[k] == ShortSignal(RowAt(k), confThresh, gapThresh)
                && position[k] == Position(RowAt(k), confThresh, gapThresh)
    {
      var n := |prediction|;
      var pred, lc, sc, gap := prediction, longConf, shortConf, confidenceGap;
      longSignal := seq(n, k requires 0 <= k < n => pred[k] == 2 && lc[k] > confThresh && gap[k] > gapThresh);
      shortSignal := seq(n, k requires 0 <= k < n => pred[k] == 0 && sc[k] > confThresh && gap[k] > gapThresh);
      var longMask, shortMask := longSignal, shortSignal;
      position := seq(n, k => 0);
      var p0 := position;
      position := seq(n, k requires 0 <= k < n => if longMask[k] then 1 else p0[k]);
      var p1 := position;
      position := seq(n, k requires 0 <= k < n => if shortMask[k] then -1 else p1[k]);
    }
  }
}
