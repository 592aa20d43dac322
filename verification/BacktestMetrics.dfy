/** Single-pass backtest metrics against their declarative meanings. */
module BacktestMetrics {
  import opened Prelude
  import opened RealArithmetic
  import opened Market
  import opened BrokerPolicies
  import opened PaperExchange
  import opened PaperLedger

  // ---------------------------------------------------------------- peaks and drawdowns

  /** The running peak after the last bar of a non-empty curve. */
  function Peak(curve: seq<real>): real
    requires curve != []
  {
    if |curve| == 1 then curve[0] else Larger(curve[|curve| - 1], Peak(curve[..|curve| - 1]))
  }

  function DropPercent(peak: real, equity: real): real
    requires peak != 0.0
  {
    (peak - equity) / peak * 100.0
  }

  /** Bar `i` measured against the peak so far; a peak that is not positive measures nothing. */
  function DrawdownAt(curve: seq<real>, i: nat): real
    requires i < |curve|
  {
    var peak := Peak(curve[..i + 1]);
    if peak > 0.0 then DropPercent(peak, curve[i]) else 0.0
  }

  /** The largest of the bars' drawdowns, and not negative. */
  ghost predicate IsMaxDrawdown(curve: seq<real>, d: real) {
    && d >= 0.0
    && (forall i :: 0 <= i < |curve| ==> DrawdownAt(curve, i) <= d)
    && (d == 0.0 || exists i :: 0 <= i < |curve| && DrawdownAt(curve, i) == d)
  }

  lemma DropSign(peak: real, equity: real)
    requires peak != 0.0 && equity <= peak
    ensures peak > 0.0 ==> DropPercent(peak, equity) >= 0.0 && (DropPercent(peak, equity) == 0.0 <==> equity == peak)
    ensures peak < 0.0 ==> DropPercent(peak, equity) <= 0.0
  {
    var ratio := (peak - equity) / peak;
    assert ratio * peak == peak - equity;
    if peak > 0.0 && ratio < 0.0 {
      ProductPositive(-ratio, peak);
    }
    if peak < 0.0 && ratio > 0.0 {
      ProductPositive(ratio, -peak);
    }
  }

  lemma {:induction false} PeakIsReached(curve: seq<real>)
    requires curve != []
    ensures forall j :: 0 <= j < |curve| ==> curve[j] <= Peak(curve)
    ensures exists j :: 0 <= j < |curve| && curve[j] == Peak(curve)
  {
    var n := |curve| - 1;
    if n == 0 {
      assert curve[0] == Peak(curve);
    } else {
      var before := curve[..n];
      PeakIsReached(before);
      assert forall j :: 0 <= j < n ==> curve[j] == before[j];
      var j :| 0 <= j < n && before[j] == Peak(before);
      assert curve[j] == Peak(before);
      assert Peak(curve) == curve[n] || Peak(curve) == curve[j];
    }
  }

  lemma PeakStep(curve: seq<real>, i: nat, peak: real)
    requires i < |curve| && peak == if i == 0 then curve[0] else Peak(curve[..i])
    ensures Peak(curve[..i + 1]) == Larger(curve[i], peak)
  {
    assert curve[..i + 1][..i] == curve[..i];
  }

  /** One more bar: the maximum moves to that bar's drawdown if that is larger. */
  lemma DrawdownStep(curve: seq<real>, i: nat, d: real)
    requires i < |curve| && IsMaxDrawdown(curve[..i], d)
    ensures IsMaxDrawdown(curve[..i + 1], Larger(d, DrawdownAt(curve, i)))
    ensures curve[i] == Peak(curve[..i + 1]) ==> DrawdownAt(curve, i) == 0.0
  {
    var shorter, longer := curve[..i], curve[..i + 1];
    forall j | 0 <= j <= i
      ensures DrawdownAt(longer, j) == DrawdownAt(curve, j)
      ensures j < i ==> DrawdownAt(shorter, j) == DrawdownAt(curve, j)
    {
      assert longer[..j + 1] == curve[..j + 1];
      if j < i {
        assert shorter[..j + 1] == curve[..j + 1];
      }
    }
    if d > 0.0 {
      var j :| 0 <= j < i && DrawdownAt(shorter, j) == d;
      assert DrawdownAt(longer, j) == d;
    }
    assert DrawdownAt(longer, i) == DrawdownAt(curve, i);
    hide DrawdownAt;
  }

  /** `_max_drawdown_percent`. */
  method MaxDrawdownPercent(curve: seq<real>) returns (maxDrawdown: real)
    ensures IsMaxDrawdown(curve, maxDrawdown)
  {
    maxDrawdown := 0.0;
    if curve == [] {
      return;
    }
    var peak := curve[0];
    for i := 0 to |curve|
      invariant peak == if i == 0 then curve[0] else Peak(curve[..i])
      invariant IsMaxDrawdown(curve[..i], maxDrawdown)
    {
      var equity := curve[i];
      PeakStep(curve, i, peak);
      DrawdownStep(curve, i, maxDrawdown);
      if equity > peak {
        peak := equity;
      } else if peak != 0.0 {
        DropSign(peak, equity);
        var drawdown := (peak - equity) / peak * 100.0;
        maxDrawdown := Larger(maxDrawdown, drawdown);
      }
    }
    assert curve[..|curve|] == curve;
  }

  // ---------------------------------------------------------------- drawdown, over pairs of bars

  ghost predicate NonNegative(curve: seq<real>) {
    forall i :: 0 <= i < |curve| ==> curve[i] >= 0.0
  }

  /** From bar `i` down to a later bar `j`. */
  ghost predicate Fall(curve: seq<real>, i: int, j: int) {
    0 <= i <= j < |curve| && curve[i] > 0.0
  }

  lemma DropIsShare(peak: real, equity: real)
    requires peak != 0.0
    ensures DropPercent(peak, equity) == (1.0 - equity / peak) * 100.0
  {
    var ratio, share := (peak - equity) / peak, equity / peak;
    assert ratio * peak == peak - equity && share * peak == equity;
    assert (ratio + share - 1.0) * peak == ratio * peak + share * peak - peak;
    ZeroFactor(ratio + share - 1.0, peak);
  }

  /** A higher peak makes the same trough a larger drawdown, as long as equity is not negative. */
  lemma HigherPeakDropsMore(low: real, high: real, equity: real)
    requires 0.0 < low <= high && equity >= 0.0
    ensures DropPercent(low, equity) <= DropPercent(high, equity)
  {
    var a, b := equity / low, equity / high;
    assert a * low == equity && b * high == equity;
    if a < b {
      ProductPositive(b - a, low);
      ProductNonNegative(b, high - low);
      assert (b - a) * low == b * low - a * low && b * (high - low) == b * high - b * low;
    }
    DropIsShare(low, equity);
    DropIsShare(high, equity);
  }

  lemma PairIsWithinDrawdown(curve: seq<real>, i: int, j: int)
    requires NonNegative(curve) && Fall(curve, i, j)
    ensures DropPercent(curve[i], curve[j]) <= DrawdownAt(curve, j)
  {
    PeakIsReached(curve[..j + 1]);
    assert curve[..j + 1][i] == curve[i];
    HigherPeakDropsMore(curve[i], Peak(curve[..j + 1]), curve[j]);
    hide DropPercent;
  }

  lemma DrawdownIsSomePair(curve: seq<real>, j: nat) returns (i: nat)
    requires j < |curve| && Peak(curve[..j + 1]) > 0.0
    ensures Fall(curve, i, j) && DropPercent(curve[i], curve[j]) == DrawdownAt(curve, j)
  {
    PeakIsReached(curve[..j + 1]);
    i :| 0 <= i < j + 1 && curve[..j + 1][i] == Peak(curve[..j + 1]);
    assert curve[i] == Peak(curve[..j + 1]);
  }

  lemma DropIsAtMostWhole(peak: real, equity: real)
    requires peak > 0.0 && equity >= 0.0
    ensures DropPercent(peak, equity) <= 100.0
  {
    HigherPeakDropsMore(peak, peak, equity);
    DropIsShare(peak, equity);
    var share := equity / peak;
    assert share * peak == equity;
    if share < 0.0 {
      ProductPositive(-share, peak);
    }
  }

  lemma DropMeans(peak: real, equity: real, d: real)
    requires peak > 0.0
    ensures DropPercent(peak, equity) <= d <==> 100.0 * (peak - equity) <= Times(d, peak)
    ensures DropPercent(peak, equity) == d ==> 100.0 * (peak - equity) == Times(d, peak)
  {
    var drop, ratio := DropPercent(peak, equity), (peak - equity) / peak;
    assert ratio * peak == peak - equity;
    assert drop * peak == 100.0 * (ratio * peak);
    assert (d - drop) * peak == d * peak - drop * peak;
    if drop == d {
      assert (d - drop) * peak == 0.0;
    } else if drop < d {
      ProductPositive(d - drop, peak);
    } else {
      ProductPositive(drop - d, peak);
      assert (drop - d) * peak == -((d - drop) * peak);
    }
  }

  /** Bar `i` is positive and the highest so far at the later bar `j`. */
  ghost predicate PeakFor(curve: seq<real>, i: int, j: int) {
    Fall(curve, i, j) && forall k :: 0 <= k <= j ==> curve[k] <= curve[i]
  }

  lemma PeakIsAt(curve: seq<real>, i: int, j: int)
    requires PeakFor(curve, i, j)
    ensures Peak(curve[..j + 1]) == curve[i]
  {
    PeakIsReached(curve[..j + 1]);
    assert curve[..j + 1][i] == curve[i];
    var k :| 0 <= k < j + 1 && curve[..j + 1][k] == Peak(curve[..j + 1]);
    assert curve[k] == Peak(curve[..j + 1]);
  }

  lemma PeakIsSomewhere(curve: seq<real>, j: nat) returns (i: nat)
    requires j < |curve| && Peak(curve[..j + 1]) > 0.0
    ensures PeakFor(curve, i, j) && curve[i] == Peak(curve[..j + 1])
  {
    PeakIsReached(curve[..j + 1]);
    i :| 0 <= i < j + 1 && curve[..j + 1][i] == Peak(curve[..j + 1]);
    assert curve[i] == Peak(curve[..j + 1]);
    forall k | 0 <= k <= j ensures curve[k] <= curve[i] {
      assert curve[..j + 1][k] == curve[k];
    }
  }

  /** On every curve: the largest fall from a positive running peak, as a percent of that peak. */
  lemma DrawdownIsFallFromPeak(curve: seq<real>, d: real)
    requires IsMaxDrawdown(curve, d)
    ensures d >= 0.0
    ensures forall i, j :: PeakFor(curve, i, j) ==> 100.0 * (curve[i] - curve[j]) <= Times(d, curve[i])
    ensures d == 0.0 || exists i, j :: PeakFor(curve, i, j) && 100.0 * (curve[i] - curve[j]) == Times(d, curve[i])
  {
    hide Times, DropPercent;
    forall i, j | PeakFor(curve, i, j) ensures 100.0 * (curve[i] - curve[j]) <= Times(d, curve[i]) {
      PeakIsAt(curve, i, j);
      assert DrawdownAt(curve, j) == DropPercent(curve[i], curve[j]);
      DropMeans(curve[i], curve[j], d);
    }
    if d > 0.0 {
      var j :| 0 <= j < |curve| && DrawdownAt(curve, j) == d;
      var i := PeakIsSomewhere(curve, j);
      DropMeans(curve[i], curve[j], d);
      assert PeakFor(curve, i, j) && 100.0 * (curve[i] - curve[j]) == Times(d, curve[i]);
    }
    hide DrawdownAt;
  }

  /**
   * On an equity curve that never goes negative, the drawdown is the largest fall from any positive bar to
   * any later one, as a percent of the earlier; and it lies between 0 and 100.
   */
  lemma DrawdownIsLargestFall(curve: seq<real>, d: real)
    requires NonNegative(curve) && IsMaxDrawdown(curve, d)
    ensures 0.0 <= d <= 100.0
    ensures forall i, j :: Fall(curve, i, j) ==> 100.0 * (curve[i] - curve[j]) <= Times(d, curve[i])
    ensures d == 0.0 || exists i, j :: Fall(curve, i, j) && 100.0 * (curve[i] - curve[j]) == Times(d, curve[i])
  {
    hide Times, DropPercent;
    forall i, j | Fall(curve, i, j) ensures 100.0 * (curve[i] - curve[j]) <= Times(d, curve[i]) {
      PairIsWithinDrawdown(curve, i, j);
      DropMeans(curve[i], curve[j], d);
    }
    if d > 0.0 {
      var j :| 0 <= j < |curve| && DrawdownAt(curve, j) == d;
      var i := DrawdownIsSomePair(curve, j);
      DropMeans(curve[i], curve[j], d);
      assert Fall(curve, i, j) && 100.0 * (curve[i] - curve[j]) == Times(d, curve[i]);
      DropIsAtMostWhole(curve[i], curve[j]);
    }
    hide DrawdownAt;
  }

  // ---------------------------------------------------------------- longest runs

  /** Bars `from` up to `to` are all marked. */
  ghost predicate MarkedRun(marks: seq<bool>, from: int, to: int) {
    0 <= from <= to <= |marks| && forall k :: from <= k < to ==> marks[k]
  }

  ghost predicate RunOfLength(marks: seq<bool>, from: int, n: nat) {
    MarkedRun(marks, from, from + n)
  }

  /** `n` is the length of the longest contiguous run of marks. */
  ghost predicate IsLongestRun(marks: seq<bool>, n: nat) {
    && (exists from :: RunOfLength(marks, from, n))
    && (forall from, to :: MarkedRun(marks, from, to) ==> to - from <= n)
  }

  /** The run that ends here. */
  function Trailing(marks: seq<bool>): nat {
    if marks == [] || !marks[|marks| - 1] then 0 else Trailing(marks[..|marks| - 1]) + 1
  }

  function Longest(marks: seq<bool>): nat {
    if marks == [] then 0
    else
      var before := Longest(marks[..|marks| - 1]);
      if Trailing(marks) > before then Trailing(marks) else before
  }

  lemma {:induction false} TrailingIsRun(marks: seq<bool>)
    ensures MarkedRun(marks, |marks| - Trailing(marks), |marks|)
    ensures forall from :: MarkedRun(marks, from, |marks|) ==> |marks| - from <= Trailing(marks)
  {
    if marks != [] {
      var n, before := |marks| - 1, marks[..|marks| - 1];
      TrailingIsRun(before);
      assert forall k :: 0 <= k < n ==> before[k] == marks[k];
      forall from | MarkedRun(marks, from, |marks|) ensures |marks| - from <= Trailing(marks) {
        if from <= n {
          assert marks[n];
          assert MarkedRun(before, from, n);
        }
      }
    }
  }

  /** The one-pass counters compute the longest run. */
  lemma {:induction false} LongestIsLongest(marks: seq<bool>)
    ensures IsLongestRun(marks, Longest(marks))
  {
    TrailingIsRun(marks);
    if marks == [] {
      assert RunOfLength(marks, 0, 0);
    } else {
      var n, before := |marks| - 1, marks[..|marks| - 1];
      LongestIsLongest(before);
      assert forall k :: 0 <= k < n ==> before[k] == marks[k];
      var f :| RunOfLength(before, f, Longest(before));
      assert RunOfLength(marks, f, Longest(before));
      assert RunOfLength(marks, |marks| - Trailing(marks), Trailing(marks));
      forall from, to | MarkedRun(marks, from, to) ensures to - from <= Longest(marks) {
        if to <= n {
          assert MarkedRun(before, from, to);
        }
      }
      hide Trailing;
    }
  }

  lemma LongestOfLonger(marks: seq<bool>, mark: bool)
    ensures Trailing(marks + [mark]) == if mark then Trailing(marks) + 1 else 0
    ensures Longest(marks + [mark])
         == if mark && Trailing(marks) + 1 > Longest(marks) then Trailing(marks) + 1 else Longest(marks)
  {
    assert (marks + [mark])[..|marks|] == marks;
  }

  // ---------------------------------------------------------------- drawdown duration

  /** Which bars lie strictly below the peak so far. */
  function BelowPeak(curve: seq<real>): seq<bool> {
    if curve == [] then [] else BelowPeak(curve[..|curve| - 1]) + [curve[|curve| - 1] < Peak(curve)]
  }

  /** `_max_drawdown_duration_bars`: the longest stretch strictly below the running peak. */
  method MaxDrawdownDurationBars(curve: seq<real>) returns (maxDuration: nat)
    ensures IsLongestRun(BelowPeak(curve), maxDuration)
    ensures maxDuration == Longest(BelowPeak(curve))
  {
    LongestIsLongest(BelowPeak(curve));
    maxDuration := 0;
    if curve == [] {
      return;
    }
    var peak, current: nat := curve[0], 0;
    for i := 0 to |curve|
      invariant peak == if i == 0 then curve[0] else Peak(curve[..i])
      invariant current == Trailing(BelowPeak(curve[..i])) && maxDuration == Longest(BelowPeak(curve[..i]))
    {
      var equity := curve[i];
      PeakStep(curve, i, peak);
      assert curve[..i + 1][..i] == curve[..i];
      LongestOfLonger(BelowPeak(curve[..i]), equity < Peak(curve[..i + 1]));
      hide Trailing, Longest;
      if equity >= peak {
        peak := equity;
        current := 0;
      } else {
        current := current + 1;
        maxDuration := if maxDuration >= current then maxDuration else current;
      }
    }
    assert curve[..|curve|] == curve;
  }

  lemma {:induction false} BelowPeakAt(curve: seq<real>)
    ensures |BelowPeak(curve)| == |curve|
    ensures forall i :: 0 <= i < |curve| ==> BelowPeak(curve)[i] == (curve[i] < Peak(curve[..i + 1]))
  {
    if curve != [] {
      var n, before := |curve| - 1, curve[..|curve| - 1];
      BelowPeakAt(before);
      forall i | 0 <= i < |curve| ensures BelowPeak(curve)[i] == (curve[i] < Peak(curve[..i + 1])) {
        if i < n {
          assert before[..i + 1] == curve[..i + 1];
        } else {
          assert curve[..n + 1] == curve;
        }
      }
    }
  }

  lemma PeakAtLeastStart(curve: seq<real>, i: nat)
    requires i < |curve|
    ensures Peak(curve[..i + 1]) >= curve[0] && Peak(curve[..i + 1]) >= curve[i]
  {
    PeakIsReached(curve[..i + 1]);
    assert curve[..i + 1][0] == curve[0] && curve[..i + 1][i] == curve[i];
  }

  lemma NoMarksNoRun(marks: seq<bool>)
    ensures Longest(marks) == 0 <==> forall i :: 0 <= i < |marks| ==> !marks[i]
  {
    LongestIsLongest(marks);
    hide Longest;
    forall i | 0 <= i < |marks| && marks[i] ensures Longest(marks) > 0 {
      assert MarkedRun(marks, i, i + 1);
    }
    if Longest(marks) > 0 {
      var from :| RunOfLength(marks, from, Longest(marks));
      assert marks[from];
    }
  }

  /** From a positive start, there is a drawdown exactly when some bar is spent below the peak. */
  lemma DrawdownAndDurationAgree(curve: seq<real>, d: real)
    requires IsMaxDrawdown(curve, d) && (curve != [] ==> curve[0] > 0.0)
    ensures d == 0.0 <==> Longest(BelowPeak(curve)) == 0
  {
    BelowPeakAt(curve);
    NoMarksNoRun(BelowPeak(curve));
    forall i | 0 <= i < |curve|
      ensures DrawdownAt(curve, i) >= 0.0 && (DrawdownAt(curve, i) == 0.0 <==> !BelowPeak(curve)[i])
    {
      PeakAtLeastStart(curve, i);
      DropSign(Peak(curve[..i + 1]), curve[i]);
    }
    hide DrawdownAt, BelowPeak, Longest;
    assert d == 0.0 ==> forall i :: 0 <= i < |curve| ==> DrawdownAt(curve, i) == 0.0;
  }

  // ---------------------------------------------------------------- streaks

  function Wins(trades: seq<Trade>): seq<bool> {
    if trades == [] then [] else Wins(trades[..|trades| - 1]) + [trades[|trades| - 1].pnl > 0.0]
  }

  function Losses(trades: seq<Trade>): seq<bool> {
    if trades == [] then [] else Losses(trades[..|trades| - 1]) + [trades[|trades| - 1].pnl < 0.0]
  }

  lemma StreaksOfLonger(trades: seq<Trade>, i: nat)
    requires i < |trades|
    ensures Wins(trades[..i + 1]) == Wins(trades[..i]) + [trades[i].pnl > 0.0]
    ensures Losses(trades[..i + 1]) == Losses(trades[..i]) + [trades[i].pnl < 0.0]
  {
    assert trades[..i + 1][..i] == trades[..i];
  }

  /** `_max_consecutive_streaks`: the longest contiguous runs of winning and of losing trades. */
  method MaxConsecutiveStreaks(trades: seq<Trade>) returns (maxWins: nat, maxLosses: nat)
    ensures IsLongestRun(Wins(trades), maxWins) && IsLongestRun(Losses(trades), maxLosses)
  {
    LongestIsLongest(Wins(trades));
    LongestIsLongest(Losses(trades));
    maxWins, maxLosses := 0, 0;
    var currentWins: nat, currentLosses: nat := 0, 0;
    for i := 0 to |trades|
      invariant currentWins == Trailing(Wins(trades[..i])) && maxWins == Longest(Wins(trades[..i]))
      invariant currentLosses == Trailing(Losses(trades[..i])) && maxLosses == Longest(Losses(trades[..i]))
    {
      hide Trailing, Longest, Wins, Losses;
      StreaksOfLonger(trades, i);
      LongestOfLonger(Wins(trades[..i]), trades[i].pnl > 0.0);
      LongestOfLonger(Losses(trades[..i]), trades[i].pnl < 0.0);
      if trades[i].pnl > 0.0 {
        currentWins := currentWins + 1;
        currentLosses := 0;
      } else if trades[i].pnl < 0.0 {
        currentLosses := currentLosses + 1;
        currentWins := 0;
      } else {
        currentWins, currentLosses := 0, 0;
      }
      maxWins := if maxWins >= currentWins then maxWins else currentWins;
      maxLosses := if maxLosses >= currentLosses then maxLosses else currentLosses;
    }
    assert trades[..|trades|] == trades;
  }

  // ---------------------------------------------------------------- profit

  datatype Metrics = Metrics(
    netProfit: real,
    netProfitPercent: real,
    grossProfit: real,
    grossLoss: real,
    maxDrawdownPercent: real,
    totalClosedTrades: nat,
    percentProfitable: real,
    profitFactor: Option<real>,  // None is infinity
    totalFeesPaid: real,
    maxDrawdownDurationBars: nat,
    maxConsecutiveWins: nat,
    maxConsecutiveLosses: nat)

  function Fees(trades: seq<Trade>): real {
    if trades == [] then 0.0 else Fees(trades[..|trades| - 1]) + trades[|trades| - 1].feesPaid
  }

  /** What the price moves alone earned. */
  function GrossMoves(trades: seq<Trade>): real {
    if trades == [] then 0.0
    else
      var t := trades[|trades| - 1];
      GrossMoves(trades[..|trades| - 1]) + Gross(t.side, t.quantity, t.entryPrice, t.exitPrice)
  }

  function CountWins(trades: seq<Trade>): nat {
    if trades == [] then 0 else CountWins(trades[..|trades| - 1]) + if trades[|trades| - 1].pnl > 0.0 then 1 else 0
  }

  /** The winners are the trades with a profit. */
  lemma {:induction false} WinsAreCounted(trades: seq<Trade>)
    ensures CountWins(trades) == |set i | 0 <= i < |trades| && trades[i].pnl > 0.0|
  {
    var winners := set i | 0 <= i < |trades| && trades[i].pnl > 0.0;
    if trades != [] {
      var n, before := |trades| - 1, trades[..|trades| - 1];
      WinsAreCounted(before);
      var earlier := set i | 0 <= i < |before| && before[i].pnl > 0.0;
      assert winners == earlier + if trades[n].pnl > 0.0 then {n} else {};
    }
  }

  lemma {:induction false} WinsAreTrades(trades: seq<Trade>)
    ensures CountWins(trades) <= |trades|
  {
    if trades != [] { WinsAreTrades(trades[..|trades| - 1]); }
  }

  ghost predicate NoLosers(trades: seq<Trade>) {
    forall t :: t in trades ==> t.pnl >= 0.0
  }

  ghost predicate NoWinners(trades: seq<Trade>) {
    forall t :: t in trades ==> t.pnl <= 0.0
  }

  lemma SumsOfLonger(trades: seq<Trade>, i: nat)
    requires i < |trades|
    ensures var before, after, t := trades[..i], trades[..i + 1], trades[i];
      && Pnls(after) == Pnls(before) + t.pnl && Fees(after) == Fees(before) + t.feesPaid
      && CountWins(after) == CountWins(before) + (if t.pnl > 0.0 then 1 else 0)
      && (NoLosers(after) <==> NoLosers(before) && t.pnl >= 0.0)
      && (NoWinners(after) <==> NoWinners(before) && t.pnl <= 0.0)
  {
    assert trades[..i + 1][..i] == trades[..i];
    assert trades[..i + 1] == trades[..i] + [trades[i]];
  }

  /** What the winning trades earned, and what the losing ones lost. */
  function Gains(trades: seq<Trade>): real {
    if trades == [] then 0.0
    else Gains(trades[..|trades| - 1]) + if trades[|trades| - 1].pnl > 0.0 then trades[|trades| - 1].pnl else 0.0
  }

  function Shortfalls(trades: seq<Trade>): real {
    if trades == [] then 0.0
    else Shortfalls(trades[..|trades| - 1]) + if trades[|trades| - 1].pnl < 0.0 then trades[|trades| - 1].pnl else 0.0
  }

  lemma GainsOfLonger(trades: seq<Trade>, i: nat)
    requires i < |trades|
    ensures Gains(trades[..i + 1]) == Gains(trades[..i]) + if trades[i].pnl > 0.0 then trades[i].pnl else 0.0
    ensures Shortfalls(trades[..i + 1]) == Shortfalls(trades[..i]) + if trades[i].pnl < 0.0 then trades[i].pnl else 0.0
  {
    assert trades[..i + 1][..i] == trades[..i];
  }

  /** The sums of `compute`, in one pass: winners, losers and fees. */
  method ProfitSums(trades: seq<Trade>) returns (grossProfit: real, grossLoss: real, fees: real, winners: nat)
    ensures grossProfit + grossLoss == Pnls(trades) && grossProfit >= 0.0 && grossLoss <= 0.0
    ensures (grossLoss == 0.0 <==> NoLosers(trades)) && (grossProfit == 0.0 <==> NoWinners(trades))
    ensures fees == Fees(trades) && winners == CountWins(trades)
    ensures grossProfit == Gains(trades) && grossLoss == Shortfalls(trades)
  {
    grossProfit, grossLoss, fees, winners := 0.0, 0.0, 0.0, 0;
    for i := 0 to |trades|
      invariant grossProfit + grossLoss == Pnls(trades[..i]) && grossProfit >= 0.0 && grossLoss <= 0.0
      invariant (grossLoss == 0.0 <==> NoLosers(trades[..i])) && (grossProfit == 0.0 <==> NoWinners(trades[..i]))
      invariant fees == Fees(trades[..i]) && winners == CountWins(trades[..i])
      invariant grossProfit == Gains(trades[..i]) && grossLoss == Shortfalls(trades[..i])
    {
      SumsOfLonger(trades, i);
      GainsOfLonger(trades, i);
      hide Pnls, Fees, CountWins, NoLosers, NoWinners, Gains, Shortfalls;
      if trades[i].pnl > 0.0 {
        grossProfit, winners := grossProfit + trades[i].pnl, winners + 1;
      } else if trades[i].pnl < 0.0 {
        grossLoss := grossLoss + trades[i].pnl;
      }
      fees := fees + trades[i].feesPaid;
    }
    assert trades[..|trades|] == trades;
  }

  lemma PercentTimesWhole(part: real, whole: real)
    requires whole != 0.0
    ensures part / whole * 100.0 * whole == part * 100.0
  {
    var share := part / whole;
    assert share * whole == part;
    assert share * 100.0 * whole == share * whole * 100.0;
  }

  lemma NoTradesNoProfit(trades: seq<Trade>)
    ensures trades == [] ==> Pnls(trades) == 0.0 && CountWins(trades) == 0
  {
  }

  lemma ShareOfWhole(part: nat, whole: nat)
    requires part <= whole && whole > 0
    ensures 0.0 <= part as real / whole as real * 100.0 <= 100.0
    ensures part as real / whole as real * 100.0 * whole as real == part as real * 100.0
  {
    PercentTimesWhole(part as real, whole as real);
    var share := part as real / whole as real;
    assert share * whole as real == part as real;
    if share < 0.0 {
      ProductPositive(-share, whole as real);
    } else if share > 1.0 {
      ProductPositive(share - 1.0, whole as real);
    }
  }

  /** `BacktestMetrics.compute`, without the annualized ratios and the averages. */
  method Compute(trades: seq<Trade>, curve: seq<real>, initialBalance: real) returns (m: Metrics)
    ensures m.netProfit == Pnls(trades) && m.netProfit == m.grossProfit + m.grossLoss
    ensures m.grossProfit == Gains(trades) >= 0.0 && m.grossLoss == Shortfalls(trades) <= 0.0
    ensures m.netProfitPercent * initialBalance == (if initialBalance != 0.0 then m.netProfit * 100.0 else 0.0)
    ensures trades == [] ==> m.percentProfitable == 0.0
    ensures initialBalance == 0.0 ==> m.netProfitPercent == 0.0
    ensures NoLosers(trades) && NoWinners(trades) ==> m.profitFactor == Some(0.0)
    ensures m.percentProfitable * |trades| as real == CountWins(trades) as real * 100.0
    ensures m.totalClosedTrades == |trades| && m.totalFeesPaid == Fees(trades)
    ensures 0.0 <= m.percentProfitable <= 100.0
    ensures m.profitFactor.None? <==> NoLosers(trades) && !NoWinners(trades)
    ensures m.profitFactor.Some? && m.grossLoss < 0.0 ==> m.profitFactor.value * -m.grossLoss == m.grossProfit
    ensures IsMaxDrawdown(curve, m.maxDrawdownPercent) && IsLongestRun(BelowPeak(curve), m.maxDrawdownDurationBars)
    ensures IsLongestRun(Wins(trades), m.maxConsecutiveWins) && IsLongestRun(Losses(trades), m.maxConsecutiveLosses)
  {
    hide IsMaxDrawdown, IsLongestRun, Wins, Losses, BelowPeak, Longest, Pnls, Fees, CountWins, Gains, Shortfalls;
    var drawdown := MaxDrawdownPercent(curve);
    var duration := MaxDrawdownDurationBars(curve);
    var wins, losses := MaxConsecutiveStreaks(trades);
    var grossProfit, grossLoss, fees, winners := ProfitSums(trades);
    var percentProfitable, factor := 0.0, Some(0.0);
    WinsAreTrades(trades);
    if trades != [] {
      ShareOfWhole(winners, |trades|);
      percentProfitable := winners as real / |trades| as real * 100.0;
    }
    var netProfitPercent := 0.0;
    if trades != [] && initialBalance != 0.0 {
      PercentTimesWhole(grossProfit + grossLoss, initialBalance);
      netProfitPercent := (grossProfit + grossLoss) / initialBalance * 100.0;
    }
    NoTradesNoProfit(trades);
    if grossLoss != 0.0 {
      factor := Some(grossProfit / -grossLoss);
      QuotientPositive(grossProfit, -grossLoss);
    } else if grossProfit > 0.0 {
      factor := None;
    }
    m := Metrics(grossProfit + grossLoss, netProfitPercent, grossProfit, grossLoss, drawdown, |trades|,
                 percentProfitable, factor, fees, duration, wins, losses);
  }

  // ---------------------------------------------------------------- the backtest's books

  lemma {:induction false} FeesExplainTheDifference(trades: seq<Trade>)
    requires forall t :: t in trades ==> Honest(t)
    ensures Pnls(trades) == GrossMoves(trades) - Fees(trades)
  {
    if trades != [] {
      FeesExplainTheDifference(trades[..|trades| - 1]);
      assert Honest(trades[|trades| - 1]);
    }
  }

  /**
   * After a backtest's final `force_close`, the net profit reported over its trades is the cash earned, and
   * equals what the price moves earned less every fee paid.
   */
  lemma NetProfitIsCashEarned(initialBalance: real, config: Config, sizing: Sizing, steps: seq<Step>, price: real,
                              time: int)
    requires ValidConfig(config)
    ensures var a := After(NewAccount(initialBalance, config, sizing), steps + [ForceClose(price, time)]);
      Pnls(a.trades) == a.balance - initialBalance && Pnls(a.trades) == GrossMoves(a.trades) - Fees(a.trades)
  {
    ForceCloseLeavesCash(initialBalance, config, sizing, steps, price, time, price);
    RunKeepsLedger(initialBalance, config, sizing, steps + [ForceClose(price, time)]);
    FeesExplainTheDifference(After(NewAccount(initialBalance, config, sizing),
                                   steps + [ForceClose(price, time)]).trades);
    hide After, Honest, Sound;
  }
}
