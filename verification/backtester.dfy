/** The execution-aware backtester of signal-generator-lasso-xgb/backtester.py.

    The source keeps its state in module-level variables and walks the bars once, from
    the second bar on. Here that state is the class `Backtest`; the behaviour of one
    bar is the pure function `StepSpec` over a snapshot `State`, and `Backtest.Step`
    is proved to perform exactly that transition. The properties of the engine are
    lemmas about `StepSpec` and `RunSpec`.

    `random.random()` is replaced by the `coin` argument of each step; a column that
    pandas holds as NaN is an `Option` that is `None`. */
module Backtester {
  import opened Outcomes

  /** `AsWritten` follows the source line by line. `Corrected` repairs its two
      defects: the operator precedence in the ambiguous-bar resolver, and the
      immediate entry that never sets stop and target levels. */
  datatype Variant = AsWritten | Corrected

  /** The tunables of the source and the starting balance. */
  datatype Config = Config(
    targetReturn: real,         // TARGET_RETURN
    leverage: real,             // LEVERAGE
    maxRisk: real,              // MAX_RISK
    makerFee: real,             // MAKER_FEE
    atrMultiplier: real,        // ATR_MULTIPLIER: trigger offset, 0 = enter at the close
    stopAtrMultiplier: real,    // STOP_ATR_MULTIPLIER
    targetAtrMultiplier: real,  // TARGET_ATR_MULTIPLIER
    maxWaitBars: int,           // MAX_WAIT_BARS
    initialBalance: real,       // the initial `balance`
    variant: Variant)

  /** The values the source ships with. */
  const SourceConfig: Config :=
    Config(0.1, 5.0, 0.05, 0.0002 * 5.0, 2.0, 0.0, 0.0, 5, 100.0, AsWritten)

  /** Configurations under which no step divides by zero: the fixed-fraction
      levels divide by the leverage, the drawdown by the (positive) peak, and a
      non-negative trigger multiplier keeps a short's trigger price positive. */
  predicate ValidConfig(cfg: Config)
  {
    0.0 < cfg.leverage && 0.0 <= cfg.atrMultiplier && 0.0 < cfg.initialBalance
  }

  /** Configurations whose fixed-fraction stop and target are positive prices for
      every positive entry price (the shipped values are one). */
  predicate PositiveLevelsConfig(cfg: Config)
  {
    && !(cfg.stopAtrMultiplier != 0.0 && cfg.targetAtrMultiplier != 0.0)
    && 0.0 <= cfg.maxRisk < cfg.leverage
    && 0.0 <= cfg.targetReturn < cfg.leverage
  }

  /** One row of the bar frame: `Position`, `High`, `Low`, `Close`, `Rolling_TR`
      and `Realized_Vol_6` of the 1-minute frame at the same position. */
  datatype Bar = Bar(position: int, high: real, low: real, close: real,
                     rollingTR: real, realizedVol: Option<real>)

  /** Bars as the upstream pipeline produces them: signals in {-1, 0, 1},
      positive prices and a non-negative volatility when it is defined. */
  predicate ValidBar(bar: Bar)
  {
    && bar.position in {-1, 0, 1}
    && 0.0 < bar.low && 0.0 < bar.high && 0.0 < bar.close
    && (bar.realizedVol.Some? ==> 0.0 <= bar.realizedVol.value)
  }

  predicate ValidBars(bars: seq<Bar>)
  {
    forall k :: 0 <= k < |bars| ==> ValidBar(bars[k])
  }

  /** A closed-trade record, with the keys of the source's trade dict. */
  datatype Trade = Trade(entryIndex: int, exitIndex: int, entryPrice: real,
                         exitPrice: real, pnl: real, balanceAfter: real, direction: int)

  /** A snapshot of every module-level variable of the source. Stop and target are
      optional because the source resets them to `None` and, on an immediate entry,
      never sets them; the other variables that start as `None` are never read
      before they are assigned, so they start at 0. */
  datatype State = State(
    balance: real, peakBalance: real, maxDrawdown: real,
    entryPrice: real, entryIndex: int, lowestEquityInTrade: real,
    inPosition: bool, waitingForEntry: bool, waitingDirection: int,
    waitingTriggerPrice: real, waitingBarCount: int,
    stopPrice: Option<real>, targetPrice: Option<real>,
    tradeDirection: int, entryBalance: real,
    trades: seq<Trade>, equityCurve: seq<real>, timestamps: seq<int>,
    winCount: nat, loseCount: nat, ambiguousCount: nat, ambiguousIndexes: seq<int>)

  /** The outcome of one bar: the next state, or the `TypeError` the source raises
      when it compares a price with a stop or target that is `None`. */
  datatype StepResult = Next(state: State) | TypeError

  function Initial(cfg: Config): State
  {
    State(cfg.initialBalance, cfg.initialBalance, 0.0, 0.0, 0, 0.0,
          false, false, 0, 0.0, 0, None, None, 0, 0.0, [], [], [], 0, 0, 0, [])
  }

  // ---------------------------------------------------------------------------
  // Price levels and profit

  /** Stop and target for a new position: distances in ATR units when both ATR
      multipliers are non-zero, fixed fractions of the entry price otherwise. */
  function Levels(cfg: Config, dir: int, entry: real, atr: real): (real, real)
    requires 0.0 < cfg.leverage
  {
    if cfg.stopAtrMultiplier != 0.0 && cfg.targetAtrMultiplier != 0.0 then
      (entry - dir as real * atr * cfg.stopAtrMultiplier,
       entry + dir as real * atr * cfg.targetAtrMultiplier)
    else
      (if dir == 1 then entry * (1.0 - cfg.maxRisk / cfg.leverage)
       else entry * (1.0 + cfg.maxRisk / cfg.leverage),
       entry * (1.0 + dir as real * cfg.targetReturn / cfg.leverage))
  }

  /** Leveraged profit before the exit fee. */
  function RawPnl(cfg: Config, dir: int, entry: real, exit: real, entryBalance: real): real
    requires entry != 0.0
  {
    (exit - entry) / entry * dir as real * entryBalance * cfg.leverage
  }

  /** Capital left after the entry fee. */
  function AfterFee(cfg: Config, balance: real): real
  {
    balance * (1.0 - cfg.makerFee)
  }

  lemma QuotientBelowOne(a: real, b: real)
    requires 0.0 <= a < b
    ensures 0.0 <= a / b < 1.0
  {
  }

  lemma ProductPositive(a: real, b: real)
    requires 0.0 < a && 0.0 < b
    ensures 0.0 < a * b
  {
  }

  lemma ProductNonNegative(a: real, b: real)
    requires 0.0 <= a && 0.0 <= b
    ensures 0.0 <= a * b
  {
  }

  lemma TripleProductNonNegative(a: real, b: real, c: real)
    ensures 0.0 <= a && 0.0 <= b && 0.0 <= c ==> 0.0 <= a * b * c
  {
    if 0.0 <= a && 0.0 <= b && 0.0 <= c {
      ProductNonNegative(a, b);
      ProductNonNegative(a * b, c);
    }
  }

  /** Fixed-fraction levels bracket the entry: below it for a long's stop and a
      short's target, above it for the other two. */
  lemma {:induction false} FixedLevelsBracketEntry(cfg: Config, dir: int, entry: real, atr: real)
    requires 0.0 < cfg.leverage && 0.0 < entry
    requires 0.0 < cfg.maxRisk < cfg.leverage && 0.0 < cfg.targetReturn
    requires !(cfg.stopAtrMultiplier != 0.0 && cfg.targetAtrMultiplier != 0.0)
    requires dir in {-1, 1}
    ensures var (stop, target) := Levels(cfg, dir, entry, atr);
            if dir == 1 then stop < entry < target else target < entry < stop
  {
    var r, t := cfg.maxRisk / cfg.leverage, cfg.targetReturn / cfg.leverage;
    ProductPositive(entry, r);
    ProductPositive(entry, t);
    assert entry * (1.0 - r) == entry - entry * r;
    assert entry * (1.0 + r) == entry + entry * r;
    assert dir as real * cfg.targetReturn / cfg.leverage == dir as real * t;
    assert entry * (1.0 + dir as real * t) == entry + dir as real * (entry * t);
  }

  /** Under fixed-fraction levels a target exit earns `TARGET_RETURN` of the entry
      balance and a stop exit loses `MAX_RISK` of it, before the exit fee, in either
      direction. */
  lemma {:induction false} FixedLevelsPnl(cfg: Config, dir: int, entry: real, atr: real, eb: real)
    requires 0.0 < cfg.leverage && 0.0 < entry
    requires !(cfg.stopAtrMultiplier != 0.0 && cfg.targetAtrMultiplier != 0.0)
    requires dir in {-1, 1}
    ensures var (stop, target) := Levels(cfg, dir, entry, atr);
            && RawPnl(cfg, dir, entry, target, eb) == cfg.targetReturn * eb
            && RawPnl(cfg, dir, entry, stop, eb) == -cfg.maxRisk * eb
  {
    var (stop, target) := Levels(cfg, dir, entry, atr);
    var L, d := cfg.leverage, dir as real;
    var r, t := cfg.maxRisk / L, cfg.targetReturn / L;
    assert d * d == 1.0;
    assert target - entry == entry * (d * t);
    assert (target - entry) / entry == d * t;
    assert (target - entry) / entry * d == t;
    assert t * eb * L == cfg.targetReturn * eb;
    assert stop - entry == entry * (-d * r) by {
      if dir == 1 {
        assert stop == entry * (1.0 - r);
      } else {
        assert stop == entry * (1.0 + r);
      }
    }
    assert (stop - entry) / entry == -d * r;
    assert (stop - entry) / entry * d == -r;
    assert -r * eb * L == -cfg.maxRisk * eb;
  }

  /** Under a positive-levels configuration both levels of a positive entry are
      positive prices. */
  lemma {:induction false} FixedLevelsPositive(cfg: Config, dir: int, entry: real, atr: real)
    requires 0.0 < cfg.leverage && PositiveLevelsConfig(cfg) && 0.0 < entry
    requires dir in {-1, 1}
    ensures var (stop, target) := Levels(cfg, dir, entry, atr); 0.0 < stop && 0.0 < target
  {
    var r, t := cfg.maxRisk / cfg.leverage, cfg.targetReturn / cfg.leverage;
    QuotientBelowOne(cfg.maxRisk, cfg.leverage);
    QuotientBelowOne(cfg.targetReturn, cfg.leverage);
    SignedQuotient(dir as real, cfg.targetReturn, cfg.leverage);
    var (stop, target) := Levels(cfg, dir, entry, atr);
    if dir == 1 {
      assert stop == entry * (1.0 - r) && target == entry * (1.0 + t);
      ProductPositive(entry, 1.0 - r);
      ProductPositive(entry, 1.0 + t);
    } else {
      assert stop == entry * (1.0 + r) && target == entry * (1.0 + -1.0 * t);
      ProductPositive(entry, 1.0 + r);
      ProductPositive(entry, 1.0 + -1.0 * t);
    }
  }

  lemma SignedQuotient(d: real, a: real, b: real)
    requires b != 0.0 && (d == 1.0 || d == -1.0)
    ensures d * a / b == d * (a / b)
  {
  }

  // ---------------------------------------------------------------------------
  // The ambiguous-bar resolver

  /** Both levels lie inside the bar for the position's direction. */
  predicate Ambiguous(low: real, high: real, stop: real, target: real, dir: int)
  {
    if dir > 0 then low <= stop && high >= target else low <= target && high >= stop
  }

  predicate StopHit(dir: int, low: real, high: real, stop: real)
  {
    (dir == 1 && low <= stop) || (dir == -1 && high >= stop)
  }

  predicate TargetHit(dir: int, low: real, high: real, target: real)
  {
    (dir == 1 && high >= target) || (dir == -1 && low <= target)
  }

  /** `resolve_ambiguous_trade` as written: the conditional expression groups as
      `target if coin < 0.5 else (stop if ambiguous else None)`. */
  function ResolveAsWritten(low: real, high: real, stop: real, target: real, dir: int, coin: real): (r: Option<real>)
    ensures r.Some? ==> r.value == target || r.value == stop
    ensures r.None? <==> 0.5 <= coin && !Ambiguous(low, high, stop, target, dir)
    ensures coin < 0.5 ==> r == Some(target)
  {
    if coin < 0.5 then Some(target)
    else if Ambiguous(low, high, stop, target, dir) then Some(stop)
    else None
  }

  /** The resolver as its name and docstring intend: a fair coin between target
      and stop on an ambiguous bar, and no exit otherwise. */
  function ResolveCorrected(low: real, high: real, stop: real, target: real, dir: int, coin: real): (r: Option<real>)
    ensures r.Some? <==> Ambiguous(low, high, stop, target, dir)
    ensures r.Some? ==> r.value == (if coin < 0.5 then target else stop)
  {
    if Ambiguous(low, high, stop, target, dir) then Some(if coin < 0.5 then target else stop)
    else None
  }

  function Resolve(v: Variant, low: real, high: real, stop: real, target: real, dir: int, coin: real): Option<real>
  {
    match v
    case AsWritten => ResolveAsWritten(low, high, stop, target, dir, coin)
    case Corrected => ResolveCorrected(low, high, stop, target, dir, coin)
  }

  /** As written, a coin below one half closes a long at its target on a bar whose
      high never reached the target, and counts it as ambiguous. */
  lemma AsWrittenExitsAtUntouchedTarget()
    ensures var (low, high, stop, target) := (100.5, 101.0, 99.0, 102.0);
            && !Ambiguous(low, high, stop, target, 1)
            && !TargetHit(1, low, high, target) && !StopHit(1, low, high, stop)
            && ResolveAsWritten(low, high, stop, target, 1, 0.25) == Some(target)
  {
  }

  // ---------------------------------------------------------------------------
  // The ledger: balances, peak and drawdown as functions of the closed trades

  /** The balance before trade `k` was opened: the initial balance, or what the
      previous trade left. */
  function BalanceBefore(cfg: Config, trades: seq<Trade>, k: nat): real
    requires k <= |trades|
  {
    if k == 0 then cfg.initialBalance else trades[k - 1].balanceAfter
  }

  /** The balance after the last closed trade. */
  function BalanceAfter(cfg: Config, trades: seq<Trade>): real
  {
    BalanceBefore(cfg, trades, |trades|)
  }

  /** Every trade turns the balance it started from, less the entry fee, into its
      recorded balance by adding its recorded pnl. */
  predicate LedgerChained(cfg: Config, trades: seq<Trade>)
  {
    forall k :: 0 <= k < |trades| ==>
      trades[k].balanceAfter == AfterFee(cfg, BalanceBefore(cfg, trades, k)) + trades[k].pnl
  }

  /** The running peak of the balance over the ledger. */
  function PeakOf(cfg: Config, trades: seq<Trade>): (p: real)
    ensures cfg.initialBalance <= p
    ensures forall k :: 0 <= k < |trades| ==> trades[k].balanceAfter <= p
    ensures p == cfg.initialBalance || exists k :: 0 <= k < |trades| && p == trades[k].balanceAfter
  {
    if trades == [] then cfg.initialBalance
    else
      var prev := PeakOf(cfg, trades[..|trades| - 1]);
      var last := trades[|trades| - 1].balanceAfter;
      assert forall k :: 0 <= k < |trades| - 1 ==> trades[k] == trades[..|trades| - 1][k];
      if last > prev then last else prev
  }

  /** The drawdown of `balance` from `peak`, as a fraction of the peak. */
  function Drawdown(peak: real, balance: real): (d: real)
    requires 0.0 < peak
    ensures balance <= peak ==> 0.0 <= d
    ensures 0.0 < balance <= peak ==> d < 1.0
  {
    if 0.0 <= peak - balance < peak then QuotientBelowOne(peak - balance, peak); (peak - balance) / peak
    else (peak - balance) / peak
  }

  /** The running maximum drawdown over the ledger. */
  function DrawdownOf(cfg: Config, trades: seq<Trade>): real
    requires 0.0 < cfg.initialBalance
  {
    if trades == [] then 0.0
    else
      var peak := PeakOf(cfg, trades);
      var dd := Drawdown(peak, trades[|trades| - 1].balanceAfter);
      var prev := DrawdownOf(cfg, trades[..|trades| - 1]);
      if prev < dd then dd else prev
  }

  /** The maximum drawdown is never negative and is at least the drawdown measured
      right after every closed trade. */
  lemma {:induction false} DrawdownDominates(cfg: Config, trades: seq<Trade>, k: nat)
    requires 0.0 < cfg.initialBalance
    requires k < |trades|
    ensures 0.0 <= DrawdownOf(cfg, trades)
    ensures var peak := PeakOf(cfg, trades[..k + 1]);
            Drawdown(peak, trades[k].balanceAfter) <= DrawdownOf(cfg, trades)
    decreases |trades|
  {
    var n := |trades|;
    var peak := PeakOf(cfg, trades);
    assert trades[n - 1].balanceAfter <= peak;
    if k < n - 1 {
      var prefix := trades[..n - 1];
      DrawdownDominates(cfg, prefix, k);
      assert prefix[..k + 1] == trades[..k + 1];
      assert prefix[k] == trades[k];
    } else {
      assert trades[..k + 1] == trades;
    }
  }

  // ---------------------------------------------------------------------------
  // The invariant of the engine

  predicate CountsBalanced(s: State)
  {
    s.winCount + s.loseCount + s.ambiguousCount == |s.trades|
  }

  predicate LevelsPositive(s: State)
  {
    && (s.stopPrice.Some? ==> 0.0 < s.stopPrice.value)
    && (s.targetPrice.Some? ==> 0.0 < s.targetPrice.value)
  }

  /** The control state: at most one of waiting and holding, and what each of
      them needs. */
  predicate ShapeInv(cfg: Config, s: State)
  {
    && ValidConfig(cfg)
    && !(s.inPosition && s.waitingForEntry)
    && (s.waitingForEntry ==> s.waitingDirection in {-1, 1})
    && (s.waitingForEntry && s.waitingDirection == -1 ==> 0.0 < s.waitingTriggerPrice)
    && (s.inPosition ==> 0.0 < s.entryPrice && s.tradeDirection in {-1, 1})
    // stop and target are set together, only while holding, and always when corrected
    && (s.stopPrice.Some? <==> s.targetPrice.Some?)
    && (!s.inPosition ==> s.stopPrice.None?)
    && (cfg.variant == Corrected && s.inPosition ==> s.stopPrice.Some?)
    && (PositiveLevelsConfig(cfg) ==> LevelsPositive(s))
  }

  /** The accounting: the balance is what the chained ledger left, less the entry
      fee while holding; peak and drawdown are those of the ledger. */
  predicate LedgerInv(cfg: Config, s: State)
    requires 0.0 < cfg.initialBalance
  {
    && LedgerChained(cfg, s.trades)
    && (s.inPosition ==> s.balance == s.entryBalance)
    && s.balance == (if s.inPosition then AfterFee(cfg, BalanceAfter(cfg, s.trades))
                     else BalanceAfter(cfg, s.trades))
    && s.peakBalance == PeakOf(cfg, s.trades)
    && s.maxDrawdown == DrawdownOf(cfg, s.trades)
    && |s.equityCurve| == |s.timestamps|
  }

  /** What holds between any two bars, apart from the outcome counters. */
  predicate StateInv(cfg: Config, s: State)
  {
    ShapeInv(cfg, s) && LedgerInv(cfg, s)
  }

  /** Every closed trade was counted once; with positive levels, every counted
      outcome closed a trade. */
  predicate CountInv(cfg: Config, s: State)
  {
    && |s.ambiguousIndexes| == s.ambiguousCount
    && |s.trades| <= s.winCount + s.loseCount + s.ambiguousCount
    && (PositiveLevelsConfig(cfg) ==> CountsBalanced(s))
  }

  /** What holds between any two bars. */
  predicate Inv(cfg: Config, s: State)
  {
    StateInv(cfg, s) && CountInv(cfg, s)
  }

  lemma InitialInv(cfg: Config)
    requires ValidConfig(cfg)
    ensures Inv(cfg, Initial(cfg))
  {
  }

  // ---------------------------------------------------------------------------
  // One bar, phase by phase

  /** A pending long fills once the low reaches the trigger, a pending short once
      the high does. */
  predicate Triggered(dir: int, trigger: real, bar: Bar)
  {
    (dir == 1 && bar.low <= trigger) || (dir == -1 && bar.high >= trigger)
  }

  /** Append the end-of-bar balance and the bar index to the equity curve. */
  function Record(s: State, i: int): State
  {
    s.(equityCurve := s.equityCurve + [s.balance], timestamps := s.timestamps + [i])
  }

  /** Enter at the trigger price: debit the entry fee and set the levels. */
  function Fill(cfg: Config, s: State, i: int, bar: Bar): State
    requires 0.0 < cfg.leverage
  {
    var entry := s.waitingTriggerPrice;
    var eb := AfterFee(cfg, s.balance);
    var (stop, target) := Levels(cfg, s.waitingDirection, entry, bar.rollingTR);
    s.(entryPrice := entry, inPosition := true, tradeDirection := s.waitingDirection,
       entryIndex := i, entryBalance := eb, balance := eb, lowestEquityInTrade := eb,
       waitingForEntry := false, stopPrice := Some(stop), targetPrice := Some(target))
  }

  /** A bar on which a pending entry did not fill: it is counted, the wait expires
      once `maxWaitBars` bars have been counted, and the bar is recorded. */
  function WaitedBar(cfg: Config, s: State, i: int): State
  {
    var count := s.waitingBarCount + 1;
    Record(s.(waitingBarCount := count, waitingForEntry := s.waitingForEntry && count < cfg.maxWaitBars), i)
  }

  /** The waiting branch. The flag is true when the bar ends here (`continue`),
      which happens exactly when a pending entry did not fill. */
  function WaitPhase(cfg: Config, s: State, i: int, bar: Bar): (State, bool)
    requires 0.0 < cfg.leverage
  {
    if !s.waitingForEntry then (s, false)
    else if Triggered(s.waitingDirection, s.waitingTriggerPrice, bar) then (Fill(cfg, s, i, bar), false)
    else (WaitedBar(cfg, s, i), true)
  }

  /** The trade booked by closing at `exit`: the leveraged pnl less the exit fee. */
  function ClosedTrade(cfg: Config, s: State, i: int, exit: real): Trade
    requires s.entryPrice != 0.0
  {
    var pnl := RawPnl(cfg, s.tradeDirection, s.entryPrice, exit, s.entryBalance)
               - s.entryBalance * cfg.leverage * cfg.makerFee;
    Trade(s.entryIndex, i, s.entryPrice, exit, pnl, s.balance + pnl, s.tradeDirection)
  }

  /** Close the position at `exit`: append the trade, move the balance to its
      closing balance and update peak and drawdown. */
  function Close(cfg: Config, s: State, i: int, exit: real): State
    requires s.entryPrice != 0.0 && 0.0 < s.peakBalance
  {
    var trade := ClosedTrade(cfg, s, i, exit);
    var balance := trade.balanceAfter;
    var peak := if balance > s.peakBalance then balance else s.peakBalance;
    var dd := Drawdown(peak, balance);
    s.(balance := balance, trades := s.trades + [trade], inPosition := false,
       stopPrice := None, targetPrice := None, peakBalance := peak,
       maxDrawdown := if s.maxDrawdown < dd then dd else s.maxDrawdown)
  }

  /** How a held bar resolves: the exit price, if any, and the state with the
      outcome counted. An ambiguous bar (resolved by the coin) counts as
      ambiguous, then a stop hit as a loss, then a target hit as a win. */
  function Settle(cfg: Config, s: State, i: int, bar: Bar, coin: real): (r: (Option<real>, State))
    requires s.stopPrice.Some? && s.targetPrice.Some?
    ensures r.0.Some? ==> r.0.value == s.stopPrice.value || r.0.value == s.targetPrice.value
    ensures r.1.winCount + r.1.loseCount + r.1.ambiguousCount
            == s.winCount + s.loseCount + s.ambiguousCount + (if r.0.Some? then 1 else 0)
    ensures var stop, target, dir := s.stopPrice.value, s.targetPrice.value, s.tradeDirection;
            var res := Resolve(cfg.variant, bar.low, bar.high, stop, target, dir, coin);
            var stopHit := StopHit(dir, bar.low, bar.high, stop);
            var targetHit := TargetHit(dir, bar.low, bar.high, target);
            && r.1.ambiguousCount == s.ambiguousCount + (if res.Some? then 1 else 0)
            && r.1.ambiguousIndexes == s.ambiguousIndexes + (if res.Some? then [i] else [])
            && r.1.loseCount == s.loseCount + (if res.None? && stopHit then 1 else 0)
            && r.1.winCount == s.winCount + (if res.None? && !stopHit && targetHit then 1 else 0)
            && r.0 == (if res.Some? then res
                       else if stopHit then Some(stop)
                       else if targetHit then Some(target)
                       else None)
    ensures r.1 == s.(winCount := r.1.winCount, loseCount := r.1.loseCount,
                      ambiguousCount := r.1.ambiguousCount, ambiguousIndexes := r.1.ambiguousIndexes)
  {
    var stop, target, dir := s.stopPrice.value, s.targetPrice.value, s.tradeDirection;
    var resolved := Resolve(cfg.variant, bar.low, bar.high, stop, target, dir, coin);
    if resolved.Some? then
      (resolved, s.(ambiguousCount := s.ambiguousCount + 1, ambiguousIndexes := s.ambiguousIndexes + [i]))
    else if StopHit(dir, bar.low, bar.high, stop) then (Some(stop), s.(loseCount := s.loseCount + 1))
    else if TargetHit(dir, bar.low, bar.high, target) then (Some(target), s.(winCount := s.winCount + 1))
    else (None, s)
  }

  /** The in-trade branch: resolve the bar, count the outcome, and close unless
      there is no exit price or it is 0.0 (the source tests `if exit_price:`).
      A missing stop or target is the source's `TypeError`. */
  function ExitPhase(cfg: Config, s: State, i: int, bar: Bar, coin: real): StepResult
    requires Inv(cfg, s)
  {
    if !s.inPosition then Next(s)
    else if s.stopPrice.None? || s.targetPrice.None? then TypeError
    else
      var (exit, counted) := Settle(cfg, s, i, bar, coin);
      if exit.Some? && exit.value != 0.0 then Next(Close(cfg, counted, i, exit.value)) else Next(counted)
  }

  /** Enter at the bar's close, with the entry filter switched off. As written
      the levels are left unset; corrected, they are set as on a fill. */
  function EnterAtClose(cfg: Config, s: State, i: int, bar: Bar): State
    requires 0.0 < cfg.leverage
  {
    var eb := AfterFee(cfg, s.balance);
    var entered := s.(entryPrice := bar.close, inPosition := true, tradeDirection := bar.position,
                      entryIndex := i, entryBalance := eb, balance := eb, lowestEquityInTrade := eb);
    if cfg.variant == AsWritten then entered
    else
      var (stop, target) := Levels(cfg, bar.position, bar.close, bar.rollingTR);
      entered.(stopPrice := Some(stop), targetPrice := Some(target))
  }

  /** The limit price of a pending entry: `atrMultiplier` volatility-scaled
      fractions of the close below it for a long, above it for a short. */
  function Trigger(cfg: Config, dir: int, close: real, vol: real): (p: real)
    ensures dir == 1 ==> p == close * (1.0 - vol * cfg.atrMultiplier)
    ensures dir != 1 ==> p == close * (1.0 + vol * cfg.atrMultiplier)
    ensures 0.0 <= cfg.atrMultiplier && 0.0 <= vol && 0.0 < close ==>
              (dir == 1 ==> p <= close) && (dir != 1 ==> close <= p)
  {
    TripleProductNonNegative(vol, cfg.atrMultiplier, close);
    if dir == 1 then close - vol * cfg.atrMultiplier * close
    else close + vol * cfg.atrMultiplier * close
  }

  /** The new-signal branch, taken when neither holding nor waiting. The flag is
      true when the bar ends without being recorded: a missing volatility. */
  function SignalPhase(cfg: Config, s: State, i: int, bar: Bar): (State, bool)
    requires 0.0 < cfg.leverage
  {
    if s.inPosition || s.waitingForEntry || bar.position == 0 then (s, false)
    else if cfg.atrMultiplier == 0.0 then (EnterAtClose(cfg, s, i, bar), false)
    else if bar.realizedVol.None? then (s, true)
    else
      var trigger := Trigger(cfg, bar.position, bar.close, bar.realizedVol.value);
      (s.(waitingForEntry := true, waitingDirection := bar.position,
          waitingTriggerPrice := trigger, waitingBarCount := 0), false)
  }

  /** One iteration of the bar loop. */
  function StepSpec(cfg: Config, s: State, i: int, bar: Bar, coin: real): StepResult
    requires Inv(cfg, s) && ValidBar(bar)
  {
    var (s1, done) := WaitPhase(cfg, s, i, bar);
    if done then Next(s1)
    else
      WaitPhaseInv(cfg, s, i, bar);
      match ExitPhase(cfg, s1, i, bar, coin)
      case TypeError => TypeError
      case Next(s2) =>
        var (s3, skipped) := SignalPhase(cfg, s2, i, bar);
        Next(if skipped then s3 else Record(s3, i))
  }

  // ---------------------------------------------------------------------------
  // Preservation of the invariant

  lemma RecordInv(cfg: Config, s: State, i: int)
    requires Inv(cfg, s)
    ensures Inv(cfg, Record(s, i))
  {
  }

  lemma {:induction false} WaitPhaseInv(cfg: Config, s: State, i: int, bar: Bar)
    requires Inv(cfg, s) && ValidBar(bar)
    ensures Inv(cfg, WaitPhase(cfg, s, i, bar).0)
  {
    if s.waitingForEntry && Triggered(s.waitingDirection, s.waitingTriggerPrice, bar) {
      var s' := Fill(cfg, s, i, bar);
      assert 0.0 < s'.entryPrice;
      if PositiveLevelsConfig(cfg) {
        FixedLevelsPositive(cfg, s.waitingDirection, s.waitingTriggerPrice, bar.rollingTR);
      }
    }
  }

  /** Appending a trade extends the chained ledger, the peak and the drawdown the
      way `Close` does. */
  lemma {:induction false} AppendTrade(cfg: Config, trades: seq<Trade>, t: Trade)
    requires 0.0 < cfg.initialBalance
    requires LedgerChained(cfg, trades)
    requires t.balanceAfter == AfterFee(cfg, BalanceAfter(cfg, trades)) + t.pnl
    ensures LedgerChained(cfg, trades + [t])
    ensures BalanceAfter(cfg, trades + [t]) == t.balanceAfter
    ensures PeakOf(cfg, trades + [t]) ==
            (if t.balanceAfter > PeakOf(cfg, trades) then t.balanceAfter else PeakOf(cfg, trades))
    ensures var peak := PeakOf(cfg, trades + [t]);
            var dd := Drawdown(peak, t.balanceAfter);
            DrawdownOf(cfg, trades + [t]) ==
            (if DrawdownOf(cfg, trades) < dd then dd else DrawdownOf(cfg, trades))
  {
    var ts := trades + [t];
    assert ts[..|ts| - 1] == trades;
    forall k | 0 <= k < |ts|
      ensures ts[k].balanceAfter == AfterFee(cfg, BalanceBefore(cfg, ts, k)) + ts[k].pnl
    {
      if k < |trades| {
        assert ts[k] == trades[k];
        assert BalanceBefore(cfg, ts, k) == BalanceBefore(cfg, trades, k);
      }
    }
  }

  lemma {:induction false} CloseInv(cfg: Config, s: State, i: int, exit: real)
    requires StateInv(cfg, s)
    requires |s.ambiguousIndexes| == s.ambiguousCount
    requires s.inPosition && s.stopPrice.Some? && s.targetPrice.Some?
    requires |s.trades| < s.winCount + s.loseCount + s.ambiguousCount
    requires PositiveLevelsConfig(cfg) ==> s.winCount + s.loseCount + s.ambiguousCount == |s.trades| + 1
    ensures Inv(cfg, Close(cfg, s, i, exit))
  {
    var t := ClosedTrade(cfg, s, i, exit);
    var s' := Close(cfg, s, i, exit);
    AppendTrade(cfg, s.trades, t);
    assert ShapeInv(cfg, s');
    assert LedgerInv(cfg, s');
  }

  lemma {:induction false} ExitPhaseInv(cfg: Config, s: State, i: int, bar: Bar, coin: real)
    requires Inv(cfg, s) && ValidBar(bar)
    ensures ExitPhase(cfg, s, i, bar, coin).Next? ==> Inv(cfg, ExitPhase(cfg, s, i, bar, coin).state)
  {
    if s.inPosition && s.stopPrice.Some? && s.targetPrice.Some? {
      var (exit, counted) := Settle(cfg, s, i, bar, coin);
      assert ShapeInv(cfg, counted);
      assert LedgerInv(cfg, counted);
      if exit.Some? && exit.value != 0.0 {
        CloseInv(cfg, counted, i, exit.value);
      } else {
        assert PositiveLevelsConfig(cfg) ==> exit.None?;
      }
    }
  }

  lemma {:induction false} SignalPhaseInv(cfg: Config, s: State, i: int, bar: Bar)
    requires Inv(cfg, s) && ValidBar(bar)
    ensures Inv(cfg, SignalPhase(cfg, s, i, bar).0)
  {
    if !(s.inPosition || s.waitingForEntry || bar.position == 0) {
      if cfg.atrMultiplier == 0.0 {
        if cfg.variant == Corrected && PositiveLevelsConfig(cfg) {
          FixedLevelsPositive(cfg, bar.position, bar.close, bar.rollingTR);
        }
      }
    }
  }

  /** Every step keeps the invariant. */
  lemma {:induction false} StepInv(cfg: Config, s: State, i: int, bar: Bar, coin: real)
    requires Inv(cfg, s) && ValidBar(bar)
    ensures StepSpec(cfg, s, i, bar, coin).Next? ==> Inv(cfg, StepSpec(cfg, s, i, bar, coin).state)
  {
    var (s1, done) := WaitPhase(cfg, s, i, bar);
    WaitPhaseInv(cfg, s, i, bar);
    if !done {
      ExitPhaseInv(cfg, s1, i, bar, coin);
      var r := ExitPhase(cfg, s1, i, bar, coin);
      if r.Next? {
        SignalPhaseInv(cfg, r.state, i, bar);
        RecordInv(cfg, SignalPhase(cfg, r.state, i, bar).0, i);
      }
    }
  }

  // ---------------------------------------------------------------------------
  // Counted outcomes and booked trades, for any configuration

  /** Outcomes counted without a trade being booked. */
  function Unbooked(s: State): int
  {
    s.winCount + s.loseCount + s.ambiguousCount - |s.trades|
  }

  /** The held position of `s` resolves on `bar` to an exit priced 0.0, which is
      counted but, failing `if exit_price:`, never closed. */
  predicate ZeroExit(cfg: Config, s: State, i: int, bar: Bar, coin: real)
  {
    && s.inPosition && s.stopPrice.Some? && s.targetPrice.Some?
    && Settle(cfg, s, i, bar, coin).0 == Some(0.0)
  }

  /** Both levels, when set, are non-zero prices. */
  predicate LevelsNonZero(s: State)
  {
    && (s.stopPrice.Some? ==> s.stopPrice.value != 0.0)
    && (s.targetPrice.Some? ==> s.targetPrice.value != 0.0)
  }

  /** The in-trade branch books a trade for every outcome it counts, except an
      exit priced 0.0. */
  lemma ExitPhaseUnbooked(cfg: Config, s: State, i: int, bar: Bar, coin: real)
    requires Inv(cfg, s)
    ensures var r := ExitPhase(cfg, s, i, bar, coin);
            r.Next? ==> Unbooked(r.state) == Unbooked(s) + (if ZeroExit(cfg, s, i, bar, coin) then 1 else 0)
  {
  }

  /** Whatever the configuration, one bar changes the number of counted but
      unbooked outcomes only by an exit priced 0.0, which the non-zero levels of
      the position held after any fill rule out. */
  lemma {:induction false} StepUnbooked(cfg: Config, s: State, i: int, bar: Bar, coin: real)
    requires Inv(cfg, s) && ValidBar(bar)
    ensures var s1 := WaitPhase(cfg, s, i, bar).0;
            var r := StepSpec(cfg, s, i, bar, coin);
            r.Next? ==> Unbooked(r.state) == Unbooked(s) + (if ZeroExit(cfg, s1, i, bar, coin) then 1 else 0)
    ensures var s1 := WaitPhase(cfg, s, i, bar).0;
            var r := StepSpec(cfg, s, i, bar, coin);
            r.Next? && LevelsNonZero(s1) ==> Unbooked(r.state) == Unbooked(s)
  {
    var (s1, done) := WaitPhase(cfg, s, i, bar);
    WaitPhaseInv(cfg, s, i, bar);
    if done {
      assert !s1.inPosition;
    } else {
      ExitPhaseUnbooked(cfg, s1, i, bar, coin);
      var r := ExitPhase(cfg, s1, i, bar, coin);
      if r.Next? {
        var (s3, skipped) := SignalPhase(cfg, r.state, i, bar);
        assert Unbooked(s3) == Unbooked(r.state);
        assert Unbooked(Record(s3, i)) == Unbooked(s3);
      }
    }
  }

  // ---------------------------------------------------------------------------
  // The whole run

  /** The bars from index `i` on, starting from `s`: the state after the last bar,
      or the `TypeError` that ends the run early. */
  function RunSpec(cfg: Config, s: State, bars: seq<Bar>, coins: seq<real>, i: nat): StepResult
    requires Inv(cfg, s) && ValidBars(bars) && |coins| == |bars|
    decreases |bars| - i
  {
    if |bars| <= i then Next(s)
    else
      StepInv(cfg, s, i, bars[i], coins[i]);
      match StepSpec(cfg, s, i, bars[i], coins[i])
      case TypeError => TypeError
      case Next(s') => RunSpec(cfg, s', bars, coins, i + 1)
  }

  /** What one bar can change in the ledger and the counters: at most one trade is
      appended, at most one outcome counted, at most one point added to the
      equity curve (at the bar's own index); the peak and the maximum drawdown
      never fall. */
  predicate Grows(s: State, r: State, i: int)
  {
    && s.trades <= r.trades && |r.trades| <= |s.trades| + 1
    && s.winCount + s.loseCount + s.ambiguousCount
       <= r.winCount + r.loseCount + r.ambiguousCount
       <= s.winCount + s.loseCount + s.ambiguousCount + 1
    && s.ambiguousIndexes <= r.ambiguousIndexes
    && s.peakBalance <= r.peakBalance
    && s.maxDrawdown <= r.maxDrawdown
    && (r.trades == s.trades ==> r.peakBalance == s.peakBalance && r.maxDrawdown == s.maxDrawdown)
    && (r.timestamps == s.timestamps || r.timestamps == s.timestamps + [i])
    && s.equityCurve <= r.equityCurve
  }

  /** The ledger, the counters, peak, drawdown and the equity curve are as in `s`. */
  predicate LedgerUntouched(s: State, r: State)
  {
    && r.trades == s.trades && r.winCount == s.winCount && r.loseCount == s.loseCount
    && r.ambiguousCount == s.ambiguousCount && r.ambiguousIndexes == s.ambiguousIndexes
    && r.peakBalance == s.peakBalance && r.maxDrawdown == s.maxDrawdown
    && r.timestamps == s.timestamps && r.equityCurve == s.equityCurve
  }

  /** A pending entry fills at exactly its trigger price, with no trade booked;
      otherwise the bar is counted, the wait is dropped once `maxWaitBars` bars
      have been counted, and the bar ends recorded. */
  lemma WaitPhaseOutcome(cfg: Config, s: State, i: int, bar: Bar)
    requires Inv(cfg, s) && s.waitingForEntry
    ensures var (r, done) := WaitPhase(cfg, s, i, bar);
            && r.trades == s.trades
            && (Triggered(s.waitingDirection, s.waitingTriggerPrice, bar) ==>
                  !done && r.inPosition && !r.waitingForEntry && r.entryPrice == s.waitingTriggerPrice
                  && r.tradeDirection == s.waitingDirection && r.entryIndex == i
                  && r.timestamps == s.timestamps)
            && (!Triggered(s.waitingDirection, s.waitingTriggerPrice, bar) ==>
                  done && !r.inPosition && r.waitingBarCount == s.waitingBarCount + 1
                  && (r.waitingForEntry <==> s.waitingBarCount + 1 < cfg.maxWaitBars)
                  && r.timestamps == s.timestamps + [i] && r.equityCurve == s.equityCurve + [s.balance])
  {
  }

  /** With the entry filter on and no entry pending, a signal on a bar without a
      volatility ends the bar unrecorded exactly when the bar ends flat, which
      includes a bar that closed a trade. */
  lemma MissingVolSkipsRecord(cfg: Config, s: State, i: int, bar: Bar, coin: real)
    requires Inv(cfg, s) && ValidBar(bar) && !s.waitingForEntry
    requires cfg.atrMultiplier != 0.0 && bar.realizedVol.None? && bar.position != 0
    ensures var r := StepSpec(cfg, s, i, bar, coin);
            r.Next? ==> !r.state.waitingForEntry && (!r.state.inPosition <==> r.state.timestamps == s.timestamps)
  {
    ExitPhaseGrows(cfg, s, i, bar, coin);
  }

  lemma ExitPhaseGrows(cfg: Config, s: State, i: int, bar: Bar, coin: real)
    requires Inv(cfg, s)
    ensures var r := ExitPhase(cfg, s, i, bar, coin);
            r.Next? ==> Grows(s, r.state, i) && r.state.timestamps == s.timestamps
                        && r.state.equityCurve == s.equityCurve
  {
  }

  lemma {:induction false} StepGrows(cfg: Config, s: State, i: int, bar: Bar, coin: real)
    requires Inv(cfg, s) && ValidBar(bar)
    ensures StepSpec(cfg, s, i, bar, coin).Next? ==> Grows(s, StepSpec(cfg, s, i, bar, coin).state, i)
  {
    var (s1, done) := WaitPhase(cfg, s, i, bar);
    WaitPhaseInv(cfg, s, i, bar);
    if !done {
      assert LedgerUntouched(s, s1);
      ExitPhaseGrows(cfg, s1, i, bar, coin);
      var r := ExitPhase(cfg, s1, i, bar, coin);
      if r.Next? {
        var (s3, skipped) := SignalPhase(cfg, r.state, i, bar);
        assert LedgerUntouched(r.state, s3);
      }
    }
  }

  /** Over a whole run the ledger, the ambiguous-bar list and the equity curve are
      only ever appended to, the peak and the maximum drawdown never fall, and
      every new timestamp is the index of a bar of the run. */
  lemma {:induction false} RunGrows(cfg: Config, s: State, bars: seq<Bar>, coins: seq<real>, i: nat)
    requires Inv(cfg, s) && ValidBars(bars) && |coins| == |bars|
    ensures var r := RunSpec(cfg, s, bars, coins, i);
            r.Next? ==>
              && s.trades <= r.state.trades
              && s.ambiguousIndexes <= r.state.ambiguousIndexes
              && s.equityCurve <= r.state.equityCurve
              && s.timestamps <= r.state.timestamps
              && s.peakBalance <= r.state.peakBalance
              && s.maxDrawdown <= r.state.maxDrawdown
              && (forall k :: |s.timestamps| <= k < |r.state.timestamps| ==>
                    i <= r.state.timestamps[k] < |bars|)
    decreases |bars| - i
  {
    if i < |bars| {
      StepInv(cfg, s, i, bars[i], coins[i]);
      StepGrows(cfg, s, i, bars[i], coins[i]);
      var st := StepSpec(cfg, s, i, bars[i], coins[i]);
      if st.Next? {
        var s' := st.state;
        RunGrows(cfg, s', bars, coins, i + 1);
        var r := RunSpec(cfg, s', bars, coins, i + 1);
        if r.Next? {
          forall k | |s.timestamps| <= k < |r.state.timestamps|
            ensures i <= r.state.timestamps[k] < |bars|
          {
            if k < |s'.timestamps| {
              assert s'.timestamps[k] == r.state.timestamps[k];
            }
          }
        }
      }
    }
  }

  /** Every state a run reaches satisfies the invariant; in particular, with
      positive levels every counted outcome closed exactly one trade. */
  lemma {:induction false} RunInv(cfg: Config, s: State, bars: seq<Bar>, coins: seq<real>, i: nat)
    requires Inv(cfg, s) && ValidBars(bars) && |coins| == |bars|
    ensures var r := RunSpec(cfg, s, bars, coins, i);
            r.Next? ==> Inv(cfg, r.state) &&
                        (PositiveLevelsConfig(cfg) ==>
                           r.state.winCount + r.state.loseCount + r.state.ambiguousCount
                           == |r.state.trades|)
    decreases |bars| - i
  {
    if i < |bars| {
      StepInv(cfg, s, i, bars[i], coins[i]);
      var st := StepSpec(cfg, s, i, bars[i], coins[i]);
      if st.Next? {
        RunInv(cfg, st.state, bars, coins, i + 1);
      }
    }
  }

  // ---------------------------------------------------------------------------
  // The two defects of the source, and their repair

  /** As written, a long whose bar touches neither level still exits at the
      target whenever the coin falls below one half. */
  lemma AsWrittenSettlesUntouchedBar()
    ensures var s := Initial(SourceConfig).(inPosition := true, entryPrice := 100.0,
                       tradeDirection := 1, entryBalance := 99.9, balance := 99.9,
                       stopPrice := Some(99.0), targetPrice := Some(102.0));
            var bar := Bar(0, 100.5, 100.4, 100.45, 1.0, Some(0.01));
            && !StopHit(1, bar.low, bar.high, 99.0) && !TargetHit(1, bar.low, bar.high, 102.0)
            && Settle(SourceConfig, s, 7, bar, 0.25).0 == Some(102.0)
  {
  }

  /** Repaired, an exit price is always a level the bar reached: the stop when it
      was hit (or both were and the coin chose it), the target likewise. */
  lemma CorrectedExitsAtTouchedLevel(cfg: Config, s: State, i: int, bar: Bar, coin: real)
    requires cfg.variant == Corrected
    requires s.stopPrice.Some? && s.targetPrice.Some? && s.tradeDirection in {-1, 1}
    ensures var exit := Settle(cfg, s, i, bar, coin).0;
            var dir := s.tradeDirection;
            exit.Some? ==>
              || (exit.value == s.stopPrice.value && StopHit(dir, bar.low, bar.high, s.stopPrice.value))
              || (exit.value == s.targetPrice.value && TargetHit(dir, bar.low, bar.high, s.targetPrice.value))
    ensures Settle(cfg, s, i, bar, coin).0.None? <==>
              !StopHit(s.tradeDirection, bar.low, bar.high, s.stopPrice.value) &&
              !TargetHit(s.tradeDirection, bar.low, bar.high, s.targetPrice.value)
  {
  }

  /** As written, with the ATR entry filter switched off, a signal opens a position
      without levels and the very next bar raises the `TypeError`. */
  lemma {:induction false} AsWrittenImmediateEntryRaises(cfg: Config, s: State, i: int,
                                                         bar: Bar, coin: real, next: Bar, nextCoin: real)
    requires Inv(cfg, s) && ValidBar(bar) && ValidBar(next)
    requires cfg.variant == AsWritten && cfg.atrMultiplier == 0.0
    requires !s.inPosition && !s.waitingForEntry && bar.position != 0
    ensures StepSpec(cfg, s, i, bar, coin).Next?
    ensures var s' := StepSpec(cfg, s, i, bar, coin).state;
            Inv(cfg, s') && StepSpec(cfg, s', i + 1, next, nextCoin) == TypeError
  {
    StepInv(cfg, s, i, bar, coin);
  }

  /** Repaired, a run never raises. */
  lemma {:induction false} CorrectedNeverRaises(cfg: Config, s: State, bars: seq<Bar>, coins: seq<real>, i: nat)
    requires Inv(cfg, s) && ValidBars(bars) && |coins| == |bars|
    requires cfg.variant == Corrected
    ensures RunSpec(cfg, s, bars, coins, i).Next?
    decreases |bars| - i
  {
    if i < |bars| {
      StepInv(cfg, s, i, bars[i], coins[i]);
      var st := StepSpec(cfg, s, i, bars[i], coins[i]);
      var (s1, done) := WaitPhase(cfg, s, i, bars[i]);
      WaitPhaseInv(cfg, s, i, bars[i]);
      assert st.Next?;
      CorrectedNeverRaises(cfg, st.state, bars, coins, i + 1);
    }
  }

  // ---------------------------------------------------------------------------
  // Reporting

  /** The printed win rate: wins over decided trades, ambiguous bars excluded, with
      the denominator floored at one. */
  function WinRate(wins: nat, losses: nat): (r: real)
    ensures 0.0 <= r <= 1.0
    ensures r == 0.0 <==> wins == 0
    ensures wins + losses > 0 ==> r * (wins + losses) as real == wins as real
  {
    var d := if wins + losses < 1 then 1 else wins + losses;
    wins as real / d as real
  }

  // ---------------------------------------------------------------------------
  // The engine, with the source's state variables as fields

  class Backtest {
    const cfg: Config
    var balance: real
    var peakBalance: real
    var maxDrawdown: real
    var entryPrice: real
    var entryIndex: int
    var lowestEquityInTrade: real
    var inPosition: bool
    var waitingForEntry: bool
    var waitingDirection: int
    var waitingTriggerPrice: real
    var waitingBarCount: int
    var stopPrice: Option<real>
    var targetPrice: Option<real>
    var tradeDirection: int
    var entryBalance: real
    var trades: seq<Trade>
    var equityCurve: seq<real>
    var timestamps: seq<int>
    var winCount: nat
    var loseCount: nat
    var ambiguousCount: nat
    var ambiguousIndexes: seq<int>

    /** The state variables as one value. */
    ghost function Snapshot(): State
      reads this
    {
      State(balance, peakBalance, maxDrawdown, entryPrice, entryIndex, lowestEquityInTrade,
            inPosition, waitingForEntry, waitingDirection, waitingTriggerPrice, waitingBarCount,
            stopPrice, targetPrice, tradeDirection, entryBalance, trades, equityCurve, timestamps,
            winCount, loseCount, ambiguousCount, ambiguousIndexes)
    }

    constructor (cfg: Config)
      requires ValidConfig(cfg)
      ensures this.cfg == cfg && Snapshot() == Initial(cfg) && Inv(cfg, Snapshot())
    {
      this.cfg := cfg;
      balance, peakBalance, maxDrawdown := cfg.initialBalance, cfg.initialBalance, 0.0;
      entryPrice, entryIndex, lowestEquityInTrade := 0.0, 0, 0.0;
      inPosition, waitingForEntry, waitingDirection := false, false, 0;
      waitingTriggerPrice, waitingBarCount := 0.0, 0;
      stopPrice, targetPrice := None, None;
      tradeDirection, entryBalance := 0, 0.0;
      trades, equityCurve, timestamps := [], [], [];
      winCount, loseCount, ambiguousCount, ambiguousIndexes := 0, 0, 0, [];
      new;
      InitialInv(cfg);
    }

    /** Append the end-of-bar balance to the equity curve. */
    method RecordEquity(i: int)
      modifies this`equityCurve, this`timestamps
      ensures equityCurve == old(equityCurve) + [balance]
      ensures timestamps == old(timestamps) + [i]
    {
      equityCurve := equityCurve + [balance];
      timestamps := timestamps + [i];
    }

    /** Debit the entry fee and open a position in direction `dir` at `price`. */
    method Open(i: int, dir: int, price: real)
      modifies this`entryPrice, this`inPosition, this`tradeDirection, this`entryIndex,
               this`entryBalance, this`balance, this`lowestEquityInTrade
      ensures entryPrice == price && inPosition && tradeDirection == dir && entryIndex == i
      ensures entryBalance == balance == lowestEquityInTrade == AfterFee(cfg, old(balance))
    {
      entryPrice := price;
      inPosition := true;
      tradeDirection := dir;
      entryIndex := i;
      entryBalance := AfterFee(cfg, balance);
      balance := entryBalance;
      lowestEquityInTrade := balance;
    }

    /** Set stop and target for a position opened at `entry`. */
    method SetLevels(dir: int, entry: real, atr: real)
      requires 0.0 < cfg.leverage
      modifies this`stopPrice, this`targetPrice
      ensures stopPrice == Some(Levels(cfg, dir, entry, atr).0)
      ensures targetPrice == Some(Levels(cfg, dir, entry, atr).1)
    {
      var (stop, target) := Levels(cfg, dir, entry, atr);
      stopPrice, targetPrice := Some(stop), Some(target);
    }

    /** A pending entry that did not fill: one more bar waited, and the wait
        expires at `maxWaitBars`. */
    method WaitOneBar()
      modifies this`waitingBarCount, this`waitingForEntry
      ensures waitingBarCount == old(waitingBarCount) + 1
      ensures waitingForEntry == (old(waitingForEntry) && waitingBarCount < cfg.maxWaitBars)
    {
      waitingBarCount := waitingBarCount + 1;
      if waitingBarCount >= cfg.maxWaitBars {
        waitingForEntry := false;
      }
    }

    /** A pending entry stops waiting. */
    method StopWaiting()
      modifies this`waitingForEntry
      ensures !waitingForEntry
    {
      waitingForEntry := false;
    }

    /** A pending entry fills at its trigger price. */
    method EnterAtTrigger(i: int, bar: Bar)
      requires 0.0 < cfg.leverage
      modifies this
      ensures Snapshot() == Fill(cfg, old(Snapshot()), i, bar)
    {
      Open(i, waitingDirection, waitingTriggerPrice);
      StopWaiting();
      SetLevels(tradeDirection, entryPrice, bar.rollingTR);
    }

    /** A pending entry that did not fill: count the bar and record it. */
    method KeepWaiting(i: int)
      modifies this
      ensures Snapshot() == WaitedBar(cfg, old(Snapshot()), i)
    {
      WaitOneBar();
      RecordEquity(i);
    }

    /** The waiting branch; `done` is the source's `continue`. */
    method WaitForTrigger(i: int, bar: Bar) returns (done: bool)
      requires 0.0 < cfg.leverage
      modifies this
      ensures (Snapshot(), done) == WaitPhase(cfg, old(Snapshot()), i, bar)
    {
      done := false;
      if waitingForEntry {
        if Triggered(waitingDirection, waitingTriggerPrice, bar) {
          EnterAtTrigger(i, bar);
        } else {
          KeepWaiting(i);
          done := true;
        }
      }
    }

    /** Count the outcome of a held bar and return its exit price, if any. */
    method CountOutcome(i: int, bar: Bar, coin: real) returns (exit: Option<real>)
      requires stopPrice.Some? && targetPrice.Some?
      modifies this`winCount, this`loseCount, this`ambiguousCount, this`ambiguousIndexes
      ensures (exit, Snapshot()) == Settle(cfg, old(Snapshot()), i, bar, coin)
    {
      var stop, target, dir := stopPrice.value, targetPrice.value, tradeDirection;
      exit := Resolve(cfg.variant, bar.low, bar.high, stop, target, dir, coin);
      if exit.Some? {
        ambiguousCount := ambiguousCount + 1;
        ambiguousIndexes := ambiguousIndexes + [i];
      } else if StopHit(dir, bar.low, bar.high, stop) {
        exit := Some(stop);
        loseCount := loseCount + 1;
      } else if TargetHit(dir, bar.low, bar.high, target) {
        exit := Some(target);
        winCount := winCount + 1;
      }
    }

    /** Book the trade closed at `exit` and update peak and drawdown. */
    method Book(i: int, exit: real)
      requires entryPrice != 0.0 && 0.0 < peakBalance
      modifies this`balance, this`trades, this`peakBalance, this`maxDrawdown
      ensures var t := ClosedTrade(cfg, old(Snapshot()), i, exit);
              && trades == old(trades) + [t]
              && balance == t.balanceAfter
              && peakBalance == (if balance > old(peakBalance) then balance else old(peakBalance))
              && maxDrawdown == (if old(maxDrawdown) < Drawdown(peakBalance, balance)
                                 then Drawdown(peakBalance, balance) else old(maxDrawdown))
    {
      ghost var t := ClosedTrade(cfg, Snapshot(), i, exit);
      var tradePnl := RawPnl(cfg, tradeDirection, entryPrice, exit, entryBalance)
                      - entryBalance * cfg.leverage * cfg.makerFee;
      assert tradePnl == t.pnl;
      balance := balance + tradePnl;
      trades := trades + [Trade(entryIndex, i, entryPrice, exit, tradePnl, balance, tradeDirection)];
      assert trades == old(trades) + [t];
      if balance > peakBalance {
        peakBalance := balance;
      }
      var dd := Drawdown(peakBalance, balance);
      if maxDrawdown < dd {
        maxDrawdown := dd;
      }
    }

    /** Leave the position: no longer holding, stop and target reset to `None`. */
    method Flatten()
      modifies this`inPosition, this`stopPrice, this`targetPrice
      ensures !inPosition && stopPrice.None? && targetPrice.None?
    {
      inPosition := false;
      stopPrice, targetPrice := None, None;
    }

    /** Close the position at `exit`. */
    method CloseAt(i: int, exit: real)
      requires entryPrice != 0.0 && 0.0 < peakBalance
      modifies this
      ensures Snapshot() == Close(cfg, old(Snapshot()), i, exit)
    {
      Book(i, exit);
      Flatten();
    }

    /** The in-trade branch; `ok` is false where the source raises `TypeError`, and
        then nothing has changed. */
    method ManagePosition(i: int, bar: Bar, coin: real) returns (ok: bool)
      requires Inv(cfg, Snapshot())
      modifies this
      ensures ok == ExitPhase(cfg, old(Snapshot()), i, bar, coin).Next?
      ensures ok ==> Snapshot() == ExitPhase(cfg, old(Snapshot()), i, bar, coin).state
      ensures !ok ==> Snapshot() == old(Snapshot())
    {
      if !inPosition {
        return true;
      }
      if stopPrice.None? || targetPrice.None? {
        return false;
      }
      var exit := CountOutcome(i, bar, coin);
      if exit.Some? && exit.value != 0.0 {
        CloseAt(i, exit.value);
      }
      return true;
    }

    /** A signal opens a position at the close when the entry filter is off. */
    method EnterOnSignal(i: int, bar: Bar)
      requires 0.0 < cfg.leverage
      modifies this
      ensures Snapshot() == EnterAtClose(cfg, old(Snapshot()), i, bar)
    {
      Open(i, bar.position, bar.close);
      if cfg.variant == Corrected {
        SetLevels(bar.position, bar.close, bar.rollingTR);
      }
    }

    /** Wait for the price to reach `trigger` in direction `dir`. */
    method StartWaiting(dir: int, trigger: real)
      modifies this`waitingTriggerPrice, this`waitingForEntry, this`waitingDirection,
               this`waitingBarCount
      ensures waitingForEntry && waitingDirection == dir
      ensures waitingTriggerPrice == trigger && waitingBarCount == 0
    {
      waitingTriggerPrice := trigger;
      waitingForEntry := true;
      waitingDirection := dir;
      waitingBarCount := 0;
    }

    /** The new-signal branch; `skipped` is the source's `continue` on a missing
        volatility. */
    method ActOnSignal(i: int, bar: Bar) returns (skipped: bool)
      requires 0.0 < cfg.leverage
      modifies this
      ensures (Snapshot(), skipped) == SignalPhase(cfg, old(Snapshot()), i, bar)
    {
      skipped := false;
      if !inPosition && !waitingForEntry && bar.position != 0 {
        if cfg.atrMultiplier == 0.0 {
          EnterOnSignal(i, bar);
        } else if bar.realizedVol.None? {
          skipped := true;
        } else {
          StartWaiting(bar.position, Trigger(cfg, bar.position, bar.close, bar.realizedVol.value));
        }
      }
    }

    /** One iteration of the bar loop. */
    method Step(i: int, bar: Bar, coin: real) returns (ok: bool)
      requires Inv(cfg, Snapshot()) && ValidBar(bar)
      modifies this
      ensures ok == StepSpec(cfg, old(Snapshot()), i, bar, coin).Next?
      ensures ok ==> Snapshot() == StepSpec(cfg, old(Snapshot()), i, bar, coin).state
      ensures ok ==> Inv(cfg, Snapshot())
    {
      ghost var s0 := Snapshot();
      StepInv(cfg, s0, i, bar, coin);
      var done := WaitForTrigger(i, bar);
      if done {
        return true;
      }
      WaitPhaseInv(cfg, s0, i, bar);
      ok := ManagePosition(i, bar, coin);
      if !ok {
        return;
      }
      var skipped := ActOnSignal(i, bar);
      if !skipped {
        RecordEquity(i);
      }
    }

    /** The main loop over the bars, from the second one on, as the source's
        `range(1, len(df))`; `ok` is false if a bar raised. */
    method Run(bars: seq<Bar>, coins: seq<real>) returns (ok: bool)
      requires Inv(cfg, Snapshot()) && ValidBars(bars) && |coins| == |bars|
      modifies this
      ensures ok == RunSpec(cfg, old(Snapshot()), bars, coins, 1).Next?
      ensures ok ==> Snapshot() == RunSpec(cfg, old(Snapshot()), bars, coins, 1).state
    {
      var i := 1;
      while i < |bars|
        invariant 1 <= i
        invariant Inv(cfg, Snapshot())
        invariant RunSpec(cfg, Snapshot(), bars, coins, i) == RunSpec(cfg, old(Snapshot()), bars, coins, 1)
        decreases |bars| - i
      {
        ok := Step(i, bars[i], coins[i]);
        if !ok {
          return;
        }
        i := i + 1;
      }
      ok := true;
    }
  }
}
