/** The trade signal of java_signal_filter/signal.java (`model.Signal`).

    Its three fields are final, so a signal is a value: the datatype's
    destructors are the getters and its constructor is the Java constructor. */
module Signals {

  /** `Signal(confidence, gap, prediction)`. */
  datatype Signal = Signal(confidence: real, gap: real, prediction: int)
  {
    /** `isLong(threshold, gapThreshold)`. */
    predicate IsLong(threshold: real, gapThreshold: real)
    {
      prediction == 2 && confidence > threshold && gap > gapThreshold
    }

    /** `isShort(threshold, gapThreshold)`. */
    predicate IsShort(threshold: real, gapThreshold: real)
    {
      prediction == 0 && confidence > threshold && gap > gapThreshold
    }

    /** `getLabel(confThresh, gapThresh)`: "Long" exactly when the signal is long,
        "Short" exactly when it is short, and "Flat" otherwise. */
    function GetLabel(confThresh: real, gapThresh: real): (tag: string)
      ensures tag in {"Long", "Short", "Flat"}
      ensures tag == "Long" <==> prediction == 2 && confidence > confThresh && gap > gapThresh
      ensures tag == "Short" <==> prediction == 0 && confidence > confThresh && gap > gapThresh
      ensures tag == "Flat" <==> !IsLong(confThresh, gapThresh) && !IsShort(confThresh, gapThresh)
    {
      if IsLong(confThresh, gapThresh) then "Long"
      else if IsShort(confThresh, gapThresh) then "Short"
      else "Flat"
    }
  }

  /** For the same thresholds a signal is never both long and short. */
  lemma LongShortExclusive(s: Signal, threshold: real, gapThreshold: real)
    ensures !(s.IsLong(threshold, gapThreshold) && s.IsShort(threshold, gapThreshold))
  {
  }
}
