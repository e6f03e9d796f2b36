/** The batch labeller of java_signal_filter/signalFilter.java (`core.SignalFilter`).

    The thresholds are final, so a filter is a value. `filterSignals` maps every
    signal to its label through a parallel stream; `collect(toList())` keeps the
    encounter order, so the result is the sequential, order-preserving map. */
module SignalFilters {
  import opened Signals

  /** `SignalFilter(confidenceThreshold, gapThreshold)`. */
  datatype SignalFilter = SignalFilter(confidenceThreshold: real, gapThreshold: real)
  {
    /** `filterSignals(signals)`: one label per signal, at the signal's position. */
    function FilterSignals(signals: seq<Signal>): (labels: seq<string>)
      ensures |labels| == |signals|
      ensures forall i :: 0 <= i < |signals| ==>
                labels[i] == signals[i].GetLabel(confidenceThreshold, gapThreshold)
      ensures forall i :: 0 <= i < |labels| ==> labels[i] in {"Long", "Short", "Flat"}
    {
      if signals == [] then []
      else FilterSignals(signals[..|signals| - 1])
             + [signals[|signals| - 1].GetLabel(confidenceThreshold, gapThreshold)]
    }
  }

  /** Labelling a concatenation labels each part in place, so no signal's label
      depends on its neighbours; an empty batch gives an empty list. */
  lemma {:induction false} FilterSignalsConcat(f: SignalFilter, a: seq<Signal>, b: seq<Signal>)
    ensures f.FilterSignals(a + b) == f.FilterSignals(a) + f.FilterSignals(b)
    ensures f.FilterSignals([]) == []
  {
    var whole := f.FilterSignals(a + b);
    var parts := f.FilterSignals(a) + f.FilterSignals(b);
    assert |whole| == |parts|;
    forall i | 0 <= i < |whole|
      ensures whole[i] == parts[i]
    {
      if i < |a| {
        assert (a + b)[i] == a[i];
      } else {
        assert (a + b)[i] == b[i - |a|];
      }
    }
  }
}
