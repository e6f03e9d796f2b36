/** The alignment of 2-hour signals onto 1-minute bars of
    signal-generator-lasso-xgb/sync_dfs.py (`attach_signals_to_lower_tf`).

    A close time is an `int` timestamp. The model starts from the two frames as the
    source leaves them after `sort_values(...).reset_index(drop=True)`: the 1-minute
    close times are sorted (the lemmas assume it through `Sorted`) and the 2-hour
    rows are in the order the loop visits them. pandas' NaN is `None`, in the 2-hour
    `Rolling_TR` and `Close` as much as in the columns the alignment writes. */
module SyncFrames {
  import opened Outcomes

  /** A 2-hour row: `Close_time`, `Position`, `Rolling_TR` and `Close`. */
  datatype SignalRow = SignalRow(closeTime: int, position: int, rollingTR: Option<real>, close: Option<real>)

  /** The three columns the alignment gives every 1-minute bar. */
  datatype Attached = Attached(position: int, rollingTR: Option<real>, signalClose: Option<real>)

  /** The columns every 1-minute bar starts with: Position 0, two NaNs. */
  const Unsignalled: Attached := Attached(0, None, None)

  /** The columns of a bar that received `row`: copied as they are, NaN included. */
  function Mark(row: SignalRow): Attached
  {
    Attached(row.position, row.rollingTR, row.close)
  }

  /** A 2-hour row whose `Rolling_TR` and `Close` are both numbers. */
  predicate Numeric(row: SignalRow)
  {
    row.rollingTR.Some? && row.close.Some?
  }

  predicate Sorted(times: seq<int>)
  {
    forall i, j :: 0 <= i <= j < |times| ==> times[i] <= times[j]
  }

  /** `df_2h[df_2h['Position'] != 0]`, in order. */
  function SignalRows(rows: seq<SignalRow>): (s: seq<SignalRow>)
    ensures |s| <= |rows|
    ensures forall r :: r in s <==> r in rows && r.position != 0
  {
    if rows == [] then []
    else
      var last := rows[|rows| - 1];
      var p := SignalRows(rows[..|rows| - 1]);
      assert rows == rows[..|rows| - 1] + [last];
      p + (if last.position != 0 then [last] else [])
  }

  /** The filter keeps the relative order: it distributes over concatenation. */
  lemma {:induction false} SignalRowsConcat(a: seq<SignalRow>, b: seq<SignalRow>)
    ensures SignalRows(a + b) == SignalRows(a) + SignalRows(b)
    decreases |b|
  {
    if b == [] {
      assert a + b == a;
    } else {
      var b' := b[..|b| - 1];
      assert (a + b)[..|a + b| - 1] == a + b';
      SignalRowsConcat(a, b');
    }
  }

  /** `searchsorted(t, side='right')` on the 1-minute close times: the number of
      them that are not later than `t`. */
  function SearchsortedRight(times: seq<int>, t: int): (k: nat)
    ensures k <= |times|
  {
    if times == [] then 0
    else SearchsortedRight(times[..|times| - 1], t) + (if times[|times| - 1] <= t then 1 else 0)
  }

  /** On sorted times the count is the position of the first time strictly later
      than `t`: every time before it is not later, every time from it on is. */
  lemma {:induction false} SearchsortedRightSplits(times: seq<int>, t: int)
    requires Sorted(times)
    ensures var k := SearchsortedRight(times, t);
            && (forall j :: 0 <= j < k ==> times[j] <= t)
            && (forall j :: k <= j < |times| ==> t < times[j])
  {
    if times != [] {
      var p := times[..|times| - 1];
      assert Sorted(p);
      SearchsortedRightSplits(p, t);
    }
  }

  /** `start_time <= signal_time <= end_time`, with the minimum and maximum of the
      sorted times; an empty frame has NaT bounds and admits nothing. */
  predicate InWindow(times: seq<int>, t: int)
  {
    |times| > 0 && times[0] <= t <= times[|times| - 1]
  }

  /** The index a signal row is written to, or `None` when it is skipped. */
  function Landing(times: seq<int>, row: SignalRow): (k: Option<nat>)
    ensures k.Some? ==> k.value < |times|
  {
    if !InWindow(times, row.closeTime) then None
    else
      var k := SearchsortedRight(times, row.closeTime);
      if k < |times| then Some(k) else None
  }

  /** A signal inside the window lands on the first bar that closes strictly after
      it, and it is dropped exactly when it coincides with the last bar. */
  lemma LandingIsFirstLaterBar(times: seq<int>, row: SignalRow)
    requires Sorted(times)
    ensures Landing(times, row).Some? ==>
              var k := Landing(times, row).value;
              && row.closeTime < times[k]
              && 0 < k && times[k - 1] <= row.closeTime
    ensures InWindow(times, row.closeTime) ==>
              (Landing(times, row).None? <==> row.closeTime == times[|times| - 1])
  {
    SearchsortedRightSplits(times, row.closeTime);
  }

  /** One iteration of the loop: the landing bar, if any, is overwritten. */
  function Place(bars: seq<Attached>, times: seq<int>, row: SignalRow): (r: seq<Attached>)
    requires |bars| == |times|
    ensures |r| == |bars|
  {
    match Landing(times, row)
    case Some(k) => bars[k := Mark(row)]
    case None => bars
  }

  /** The 1-minute columns after the loop has visited `rows` in order. */
  function Attach(times: seq<int>, rows: seq<SignalRow>): (bars: seq<Attached>)
    ensures |bars| == |times|
  {
    if rows == [] then seq(|times|, _ => Unsignalled)
    else Place(Attach(times, rows[..|rows| - 1]), times, rows[|rows| - 1])
  }

  /** The last of `rows` that lands on bar `j`. */
  function LastLanding(times: seq<int>, rows: seq<SignalRow>, j: int): (r: Option<SignalRow>)
    ensures r.Some? ==> r.value in rows && Landing(times, r.value) == Some(j)
  {
    if rows == [] then None
    else
      var last := rows[|rows| - 1];
      if Landing(times, last) == Some(j) then Some(last)
      else
        var r := LastLanding(times, rows[..|rows| - 1], j);
        assert r.Some? ==> r.value in rows[..|rows| - 1];
        r
  }

  /** Later signals overwrite earlier ones: bar `j` carries the columns of the last
      row landing on it, and keeps Position 0 and NaNs when none does. */
  lemma {:induction false} AttachIsLastLanding(times: seq<int>, rows: seq<SignalRow>, j: int)
    requires 0 <= j < |times|
    ensures Attach(times, rows)[j] ==
              match LastLanding(times, rows, j)
              case Some(r) => Mark(r)
              case None => Unsignalled
  {
    if rows != [] {
      AttachIsLastLanding(times, rows[..|rows| - 1], j);
    }
  }

  /** A bar with Position 0 has NaN in both signal columns. */
  predicate Consistent(b: Attached)
  {
    b.position == 0 ==> b.rollingTR.None? && b.signalClose.None?
  }

  /** Given signal rows with a non-zero Position, every bar with Position 0 has two
      NaN columns; when the rows' `Rolling_TR` and `Close` are numbers, the converse
      holds too: a bar with two NaN columns has Position 0. A signal row carrying a
      NaN (the warm-up rows of `Rolling_TR`) gives a bar with a Position and a NaN. */
  lemma {:induction false} AttachConsistent(times: seq<int>, rows: seq<SignalRow>)
    requires forall k :: 0 <= k < |rows| ==> rows[k].position != 0
    ensures forall j :: 0 <= j < |times| ==> Consistent(Attach(times, rows)[j])
    ensures (forall k :: 0 <= k < |rows| ==> Numeric(rows[k])) ==>
              forall j :: 0 <= j < |times| ==>
                var b := Attach(times, rows)[j];
                b.rollingTR.None? && b.signalClose.None? ==> b.position == 0
  {
    forall j | 0 <= j < |times|
      ensures Consistent(Attach(times, rows)[j])
      ensures (forall k :: 0 <= k < |rows| ==> Numeric(rows[k])) ==>
                var b := Attach(times, rows)[j];
                b.rollingTR.None? && b.signalClose.None? ==> b.position == 0
    {
      AttachIsLastLanding(times, rows, j);
      var r := LastLanding(times, rows, j);
      if r.Some? {
        var k :| 0 <= k < |rows| && rows[k] == r.value;
      }
    }
  }

  /** The whole function on the two (sorted) frames. */
  function AttachSignals(times: seq<int>, rows2h: seq<SignalRow>): (bars: seq<Attached>)
    ensures |bars| == |times|
  {
    Attach(times, SignalRows(rows2h))
  }

  /** Every bar of the result is either untouched or carries a signal that lies in
      the window and closes before the bar. */
  lemma AttachSignalsBars(times: seq<int>, rows2h: seq<SignalRow>, j: int)
    requires Sorted(times) && 0 <= j < |times|
    ensures var b := AttachSignals(times, rows2h)[j];
            && Consistent(b)
            && (b == Unsignalled ||
                exists r :: r in rows2h && r.position != 0 && b == Mark(r)
                  && InWindow(times, r.closeTime) && r.closeTime < times[j])
  {
    var s := SignalRows(rows2h);
    AttachConsistent(times, s);
    AttachIsLastLanding(times, s, j);
    var r := LastLanding(times, s, j);
    if r.Some? {
      LandingIsFirstLaterBar(times, r.value);
    }
  }

  /** `attach_signals_to_lower_tf`: the columns are initialised, the signal rows
      filtered, and each in-window signal written into its landing bar. */
  method AttachSignalsToLowerTf(times: seq<int>, rows2h: seq<SignalRow>) returns (bars: array<Attached>)
    ensures fresh(bars)
    ensures bars[..] == AttachSignals(times, rows2h)
  {
    bars := new Attached[|times|](_ => Unsignalled);
    var signalRows := SignalRows(rows2h);
    assert bars[..] == Attach(times, signalRows[..0]);
    for i := 0 to |signalRows|
      invariant bars[..] == Attach(times, signalRows[..i])
    {
      var row := signalRows[i];
      assert signalRows[..i + 1][..i] == signalRows[..i];
      if InWindow(times, row.closeTime) {
        var matchIdx := SearchsortedRight(times, row.closeTime);
        if matchIdx < bars.Length {
          bars[matchIdx] := Mark(row);
        }
      }
    }
    assert signalRows[..|signalRows|] == signalRows;
  }
}
