/** The indicator engine: moving averages, MACD, RSI, ATR and volume
    statistics over price series and OHLC candles. */
module Indicators {
  import opened Wrappers
  import opened RealSeqs

  /** One candle; prices already read as numbers. The volume is `None` when
      `Number(candle.volume)` is falsy (missing, unparsable or zero). */
  datatype Candle = Candle(open: real, high: real, low: real, close: real, volume: Option<real>)

  function Min(a: int, b: int): int
  {
    if a <= b then a else b
  }

  function Max(a: int, b: int): int
  {
    if a >= b then a else b
  }

  function Abs(x: real): real
  {
    if x >= 0.0 then x else -x
  }

  // ---------------------------------------------------------------- mid price

  /** Per candle, the midpoint of open and close; it lies between the two. */
  function CalcMidPrice(data: seq<Candle>): (r: seq<real>)
    ensures |r| == |data|
    ensures forall i :: 0 <= i < |data| ==> r[i] == (data[i].open + data[i].close) / 2.0
    ensures forall i :: 0 <= i < |data| ==>
      (data[i].open <= r[i] <= data[i].close) || (data[i].close <= r[i] <= data[i].open)
  {
    seq(|data|, i requires 0 <= i < |data| => (data[i].open + data[i].close) / 2.0)
  }

  // ---------------------------------------------------------------- SMA

  /** One value per full window of `period` prices: the mean of
      `data[i..i + period]`. */
  method CalculateSMA(data: seq<real>, period: nat) returns (sma: seq<real>)
    requires period >= 1
    ensures |sma| == Max(0, |data| - period + 1)
    ensures forall i :: 0 <= i < |sma| ==> i + period <= |data| && sma[i] == Mean(data[i..i + period])
  {
    sma := [];
    var i := 0;
    while i <= |data| - period
      invariant 0 <= i <= Max(0, |data| - period + 1)
      invariant |sma| == i
      invariant forall j :: 0 <= j < i ==> j + period <= |data| && sma[j] == Mean(data[j..j + period])
    {
      var slice := data[i..i + period];
      sma := sma + [Sum(slice) / (period as real)];
      i := i + 1;
    }
  }

  /** Every moving average lies within the bounds of the prices. */
  lemma SmaWithinBounds(data: seq<real>, period: nat, i: nat, lo: real, hi: real)
    requires period >= 1 && i + period <= |data|
    requires forall j :: 0 <= j < |data| ==> lo <= data[j] <= hi
    ensures lo <= Mean(data[i..i + period]) <= hi
  {
    var w := data[i..i + period];
    assert forall j :: 0 <= j < |w| ==> w[j] == data[i + j];
    MeanBounds(w, lo, hi);
  }

  // ---------------------------------------------------------------- EMA

  /** The smoothing factor `k = 2 / (period + 1)`, in (0, 1]. */
  function Smoothing(period: nat): (k: real)
    requires period >= 1
    ensures 0.0 < k <= 1.0
  {
    2.0 / ((period + 1) as real)
  }

  /** The first EMA value: the sum of the first `period` prices (fewer when
      the series is shorter) divided by `period`. */
  function EmaSeed(data: seq<real>, period: nat): real
    requires period >= 1
  {
    Sum(data[..Min(period, |data|)]) / (period as real)
  }

  /** One smoothing step. */
  function EmaStep(price: real, prev: real, k: real): real
  {
    price * k + prev * (1.0 - k)
  }

  /** The EMA series after reading the first `m` prices. */
  function EmaUpTo(data: seq<real>, period: nat, m: nat): (r: seq<real>)
    requires period >= 1 && m <= |data|
    ensures |r| == 1 + Max(0, m - period)
    decreases m
  {
    if m <= period then [EmaSeed(data, period)]
    else
      var prev := EmaUpTo(data, period, m - 1);
      prev + [EmaStep(data[m - 1], prev[|prev| - 1], Smoothing(period))]
  }

  /** The value `calculateEMA(data, period)` returns. */
  function Ema(data: seq<real>, period: nat): seq<real>
    requires period >= 1
  {
    EmaUpTo(data, period, |data|)
  }

  /** The EMA series starts at the seed and then applies one smoothing step
      per price after the first `period`. */
  lemma {:induction false} EmaUpToShape(data: seq<real>, period: nat, m: nat)
    requires period >= 1 && m <= |data|
    ensures EmaUpTo(data, period, m)[0] == EmaSeed(data, period)
    ensures forall j :: 1 <= j < |EmaUpTo(data, period, m)| ==>
      EmaUpTo(data, period, m)[j] ==
        EmaStep(data[period + j - 1], EmaUpTo(data, period, m)[j - 1], Smoothing(period))
    decreases m
  {
    if m > period {
      EmaUpToShape(data, period, m - 1);
    }
  }

  lemma EmaShape(data: seq<real>, period: nat)
    requires period >= 1
    ensures |Ema(data, period)| == 1 + Max(0, |data| - period)
    ensures Ema(data, period)[0] == EmaSeed(data, period)
    ensures forall j :: 1 <= j < |Ema(data, period)| ==>
      Ema(data, period)[j] == EmaStep(data[period + j - 1], Ema(data, period)[j - 1], Smoothing(period))
  {
    EmaUpToShape(data, period, |data|);
  }

  /** `calculateEMA`: the seed, then one smoothed value per later price. */
  method CalculateEMA(data: seq<real>, period: nat) returns (ema: seq<real>)
    requires period >= 1
    ensures ema == Ema(data, period)
    ensures |ema| == 1 + Max(0, |data| - period)
    ensures ema[0] == EmaSeed(data, period)
    ensures forall j :: 1 <= j < |ema| ==>
      ema[j] == data[period + j - 1] * Smoothing(period) + ema[j - 1] * (1.0 - Smoothing(period))
  {
    var k := 2.0 / ((period + 1) as real);
    var sma := Sum(data[..Min(period, |data|)]) / (period as real);
    ema := [sma];
    var i := period;
    while i < |data|
      invariant period <= i
      invariant ema == EmaUpTo(data, period, Min(i, |data|))
    {
      var emaToday := (data[i] * k) + (ema[|ema| - 1] * (1.0 - k));
      assert ema == EmaUpTo(data, period, i);
      assert emaToday == EmaStep(data[i], ema[|ema| - 1], Smoothing(period));
      assert EmaUpTo(data, period, i + 1) == ema + [emaToday];
      ema := ema + [emaToday];
      i := i + 1;
    }
    EmaShape(data, period);
  }

  lemma ConvexCombinationWithin(x: real, p: real, k: real, lo: real, hi: real)
    requires 0.0 < k <= 1.0
    requires lo <= x <= hi && lo <= p <= hi
    ensures lo <= EmaStep(x, p, k) <= hi
  {
    assert (x - lo) * k >= 0.0;
    assert (p - lo) * (1.0 - k) >= 0.0;
    assert (hi - x) * k >= 0.0;
    assert (hi - p) * (1.0 - k) >= 0.0;
  }

  /** Once a full window exists, every EMA value lies within the bounds of the
      prices. */
  lemma {:induction false} EmaUpToWithinBounds(data: seq<real>, period: nat, m: nat, lo: real, hi: real)
    requires period >= 1 && period <= m <= |data|
    requires forall j :: 0 <= j < |data| ==> lo <= data[j] <= hi
    ensures forall j :: 0 <= j < |EmaUpTo(data, period, m)| ==> lo <= EmaUpTo(data, period, m)[j] <= hi
    decreases m
  {
    if m == period {
      var w := data[..period];
      assert forall j :: 0 <= j < |w| ==> w[j] == data[j];
      MeanBounds(w, lo, hi);
    } else {
      EmaUpToWithinBounds(data, period, m - 1, lo, hi);
      var prev := EmaUpTo(data, period, m - 1);
      ConvexCombinationWithin(data[m - 1], prev[|prev| - 1], Smoothing(period), lo, hi);
    }
  }

  lemma EmaWithinBounds(data: seq<real>, period: nat, lo: real, hi: real)
    requires period >= 1 && period <= |data|
    requires forall j :: 0 <= j < |data| ==> lo <= data[j] <= hi
    ensures forall j :: 0 <= j < |Ema(data, period)| ==> lo <= Ema(data, period)[j] <= hi
  {
    EmaUpToWithinBounds(data, period, |data|, lo, hi);
  }

  /** A flat price series has a flat EMA. */
  lemma EmaOfConstant(data: seq<real>, period: nat, c: real)
    requires period >= 1 && period <= |data|
    requires forall j :: 0 <= j < |data| ==> data[j] == c
    ensures forall j :: 0 <= j < |Ema(data, period)| ==> Ema(data, period)[j] == c
  {
    EmaWithinBounds(data, period, c, c);
  }

  // ---------------------------------------------------------------- MACD

  /** `calculateMACD`: the EMA-12 series cut to the length of the EMA-26
      series (its last values), minus the EMA-26 series. */
  function CalculateMACD(data: seq<real>): (macd: seq<real>)
    ensures |macd| == |Ema(data, 26)|
    ensures forall i :: 0 <= i < |macd| ==>
      |Ema(data, 26)| <= |Ema(data, 12)| &&
      macd[i] == Ema(data, 12)[|Ema(data, 12)| - |Ema(data, 26)| + i] - Ema(data, 26)[i]
  {
    var ema26 := Ema(data, 26);
    var ema12 := Ema(data, 12);
    var tail := ema12[|ema12| - |ema26|..];
    seq(|tail|, i requires 0 <= i < |tail| => tail[i] - ema26[i])
  }

  /** On a flat price series long enough for EMA-26, MACD is identically 0. */
  lemma MacdOfConstant(data: seq<real>, c: real)
    requires |data| >= 26
    requires forall j :: 0 <= j < |data| ==> data[j] == c
    ensures forall i :: 0 <= i < |CalculateMACD(data)| ==> CalculateMACD(data)[i] == 0.0
  {
    EmaOfConstant(data, 12, c);
    EmaOfConstant(data, 26, c);
  }

  // ---------------------------------------------------------------- RSI

  /** Average gain and average loss, Wilder-smoothed. */
  datatype Averages = Averages(gain: real, loss: real)

  function Change(data: seq<real>, i: nat): real
    requires 1 <= i < |data|
  {
    data[i] - data[i - 1]
  }

  /** Sum of the non-negative changes among the first `m`; never negative. */
  function InitialGains(data: seq<real>, m: nat): (g: real)
    requires m < |data|
    ensures g >= 0.0
  {
    if m == 0 then 0.0
    else InitialGains(data, m - 1) + (if Change(data, m) >= 0.0 then Change(data, m) else 0.0)
  }

  /** Sum of the magnitudes of the negative changes among the first `m`;
      never negative. */
  function InitialLosses(data: seq<real>, m: nat): (l: real)
    requires m < |data|
    ensures l >= 0.0
  {
    if m == 0 then 0.0
    else InitialLosses(data, m - 1) + (if Change(data, m) >= 0.0 then 0.0 else -Change(data, m))
  }

  predicate NonNegative(a: Averages)
  {
    a.gain >= 0.0 && a.loss >= 0.0
  }

  /** Wilder smoothing of both averages by one more change: a rise feeds the
      gain, a fall the loss; non-negative averages stay non-negative. */
  function SmoothStep(a: Averages, change: real, period: nat): (r: Averages)
    requires period >= 1
    ensures NonNegative(a) ==> NonNegative(r)
  {
    var p := period as real;
    if change >= 0.0 then Averages((a.gain * (p - 1.0) + change) / p, (a.loss * (p - 1.0)) / p)
    else Averages((a.gain * (p - 1.0)) / p, (a.loss * (p - 1.0) - change) / p)
  }

  /** The averages behind the `j`-th RSI value; never negative. */
  function AveragesAt(data: seq<real>, period: nat, j: nat): (a: Averages)
    requires period >= 1 && period + j < |data|
    ensures NonNegative(a)
  {
    if j == 0 then Averages(InitialGains(data, period) / (period as real), InitialLosses(data, period) / (period as real))
    else SmoothStep(AveragesAt(data, period, j - 1), Change(data, period + j), period)
  }

  /** `100 - 100 / (1 + RS)` with `RS = gain / loss`, or 100 when the average
      loss is 0. */
  function RsiOf(a: Averages): real
    requires NonNegative(a)
  {
    if a.loss == 0.0 then 100.0 else 100.0 - 100.0 / (1.0 + a.gain / a.loss)
  }

  /** The RSI lies in [0, 100] and is exactly 100 when (and only when) the
      average loss is 0. */
  lemma RsiBounds(a: Averages)
    requires NonNegative(a)
    ensures 0.0 <= RsiOf(a) <= 100.0
    ensures RsiOf(a) == 100.0 <==> a.loss == 0.0
  {
    if a.loss != 0.0 {
      var rs := a.gain / a.loss;
      assert rs * a.loss == a.gain;
      assert rs >= 0.0;
      var d := 1.0 + rs;
      var q := 100.0 / d;
      assert q * d == 100.0;
      assert q > 0.0;
      assert q <= 100.0;
    }
  }

  /** The initial sums of `calculateRSI`'s first loop. */
  method InitialSums(data: seq<real>, period: nat) returns (gains: real, losses: real)
    requires period < |data|
    ensures gains == InitialGains(data, period) && losses == InitialLosses(data, period)
  {
    gains := 0.0;
    losses := 0.0;
    for i := 1 to period + 1
      invariant gains == InitialGains(data, i - 1)
      invariant losses == InitialLosses(data, i - 1)
    {
      var change := data[i] - data[i - 1];
      if change >= 0.0 {
        gains := gains + change;
      } else {
        losses := losses - change;
      }
    }
  }

  /** The first `m` RSI values. */
  function RsiUpTo(data: seq<real>, period: nat, m: nat): (r: seq<real>)
    requires period >= 1 && 1 <= m <= |data| - period
    ensures |r| == m
  {
    if m == 1 then [RsiOf(AveragesAt(data, period, 0))]
    else RsiUpTo(data, period, m - 1) + [RsiOf(AveragesAt(data, period, m - 1))]
  }

  /** The value `calculateRSI(data, period)` returns. */
  function Rsi(data: seq<real>, period: nat): seq<real>
    requires period >= 1 && |data| > period
  {
    RsiUpTo(data, period, |data| - period)
  }

  lemma {:induction false} RsiUpToElements(data: seq<real>, period: nat, m: nat)
    requires period >= 1 && 1 <= m <= |data| - period
    ensures forall j :: 0 <= j < m ==> RsiUpTo(data, period, m)[j] == RsiOf(AveragesAt(data, period, j))
  {
    if m > 1 {
      RsiUpToElements(data, period, m - 1);
    }
  }

  /** One RSI value per price after the first `period`, the `j`-th computed
      from the `j`-th averages; each lies in [0, 100] and equals 100 exactly
      when the average loss is 0. */
  lemma RsiProperties(data: seq<real>, period: nat)
    requires period >= 1 && |data| > period
    ensures |Rsi(data, period)| == |data| - period
    ensures forall j :: 0 <= j < |data| - period ==> Rsi(data, period)[j] == RsiOf(AveragesAt(data, period, j))
    ensures forall j :: 0 <= j < |data| - period ==> 0.0 <= Rsi(data, period)[j] <= 100.0
    ensures forall j :: 0 <= j < |data| - period ==>
      (Rsi(data, period)[j] == 100.0 <==> AveragesAt(data, period, j).loss == 0.0)
  {
    RsiUpToElements(data, period, |data| - period);
    forall j | 0 <= j < |data| - period
      ensures 0.0 <= RsiOf(AveragesAt(data, period, j)) <= 100.0
      ensures RsiOf(AveragesAt(data, period, j)) == 100.0 <==> AveragesAt(data, period, j).loss == 0.0
    {
      RsiBounds(AveragesAt(data, period, j));
    }
  }

  /** `calculateRSI` for a series longer than `period`. */
  method CalculateRSI(data: seq<real>, period: nat) returns (rsi: seq<real>)
    requires period >= 1 && |data| > period
    ensures rsi == Rsi(data, period)
    ensures |rsi| == |data| - period
    ensures forall j :: 0 <= j < |rsi| ==> 0.0 <= rsi[j] <= 100.0
  {
    var gains, losses := InitialSums(data, period);
    var p := period as real;
    var averageGain := gains / p;
    var averageLoss := losses / p;
    rsi := [RsiOf(Averages(averageGain, averageLoss))];
    var i := period + 1;
    while i < |data|
      invariant period + 1 <= i <= |data|
      invariant Averages(averageGain, averageLoss) == AveragesAt(data, period, i - period - 1)
      invariant rsi == RsiUpTo(data, period, i - period)
    {
      var change := data[i] - data[i - 1];
      var next := SmoothStep(Averages(averageGain, averageLoss), change, period);
      averageGain, averageLoss := next.gain, next.loss;
      rsi := rsi + [RsiOf(next)];
      i := i + 1;
    }
    RsiProperties(data, period);
  }

  // ---------------------------------------------------------------- ATR

  /** `max(high - low, |high - prevClose|, |low - prevClose|)`: never negative
      and never below the candle's own range. */
  function TrueRange(prev: Candle, curr: Candle): (tr: real)
    ensures tr >= curr.high - curr.low
    ensures tr >= Abs(curr.high - prev.close) && tr >= Abs(curr.low - prev.close)
    ensures tr == curr.high - curr.low || tr == Abs(curr.high - prev.close) || tr == Abs(curr.low - prev.close)
    ensures tr >= 0.0
  {
    var a := curr.high - curr.low;
    var b := Abs(curr.high - prev.close);
    var c := Abs(curr.low - prev.close);
    if a >= b && a >= c then a else if b >= c then b else c
  }

  /** The true range of every candle after the first. */
  function TrueRanges(data: seq<Candle>): (r: seq<real>)
    ensures |r| == Max(0, |data| - 1)
  {
    seq(Max(0, |data| - 1), i requires 0 <= i < Max(0, |data| - 1) => TrueRange(data[i], data[i + 1]))
  }

  /** `calculateATR`: the SMA of the true ranges, `max(0, n - period)` values,
      each non-negative. */
  method CalculateATR(data: seq<Candle>, period: nat) returns (atr: seq<real>)
    requires period >= 1
    ensures |atr| == Max(0, |data| - period)
    ensures forall i :: 0 <= i < |atr| ==>
      i + period <= |TrueRanges(data)| && atr[i] == Mean(TrueRanges(data)[i..i + period])
    ensures forall i :: 0 <= i < |atr| ==> atr[i] >= 0.0
  {
    var trueRanges := TrueRangesOf(data);
    atr := CalculateSMA(trueRanges, period);
    TrueRangeWindowsNonNegative(data, period, atr);
  }

  /** The loop collecting the true range of each consecutive pair. */
  method TrueRangesOf(data: seq<Candle>) returns (trueRanges: seq<real>)
    ensures trueRanges == TrueRanges(data)
  {
    trueRanges := [];
    var i := 1;
    while i < |data|
      invariant 1 <= i && (|data| > 0 ==> i <= |data|) && (|data| == 0 ==> i == 1)
      invariant |trueRanges| == i - 1
      invariant forall j :: 0 <= j < i - 1 ==> trueRanges[j] == TrueRange(data[j], data[j + 1])
    {
      var tr := TrueRange(data[i - 1], data[i]);
      trueRanges := trueRanges + [tr];
      i := i + 1;
    }
    assert trueRanges == TrueRanges(data);
  }

  /** Means of windows of true ranges are non-negative. */
  lemma TrueRangeWindowsNonNegative(data: seq<Candle>, period: nat, atr: seq<real>)
    requires period >= 1
    requires forall i :: 0 <= i < |atr| ==>
      i + period <= |TrueRanges(data)| && atr[i] == Mean(TrueRanges(data)[i..i + period])
    ensures forall i :: 0 <= i < |atr| ==> atr[i] >= 0.0
  {
    var trs := TrueRanges(data);
    forall k | 0 <= k < |atr| ensures atr[k] >= 0.0 {
      assert k + period <= |trs| && atr[k] == Mean(trs[k..k + period]);
      var w := trs[k..k + period];
      assert forall j :: 0 <= j < |w| ==> w[j] == TrueRange(data[k + j], data[k + j + 1]);
      MeanNonNegative(w);
    }
  }

  // ---------------------------------------------------------------- volume

  datatype VolumeData = VolumeData(currentVolume: real, averageVolume: real)

  /** `Number(candle.volume) || 0`: a candle without a usable volume counts 0. */
  function VolumeOf(c: Candle): real
  {
    c.volume.GetOr(0.0)
  }

  function Volumes(data: seq<Candle>): (r: seq<real>)
    ensures |r| == |data|
    ensures forall i :: 0 <= i < |data| ==> r[i] == (if data[i].volume.Some? then data[i].volume.value else 0.0)
  {
    seq(|data|, i requires 0 <= i < |data| => VolumeOf(data[i]))
  }

  /** `calculateVolumeData`: (0, 0) for no candles; otherwise the last volume
      and the mean volume. */
  function CalculateVolumeData(data: seq<Candle>): (r: VolumeData)
    ensures |data| == 0 ==> r == VolumeData(0.0, 0.0)
    ensures |data| > 0 ==> r.currentVolume == data[|data| - 1].volume.GetOr(0.0)
    ensures |data| > 0 ==> r.averageVolume == Mean(Volumes(data))
  {
    var volumes := Volumes(data);
    var currentVolume := if |volumes| > 0 then volumes[|volumes| - 1] else 0.0;
    var averageVolume := if |volumes| > 0 then Sum(volumes) / (|volumes| as real) else 0.0;
    VolumeData(currentVolume, averageVolume)
  }

  /** The average volume lies within the bounds of the candles' volumes. */
  lemma AverageVolumeWithinBounds(data: seq<Candle>, lo: real, hi: real)
    requires |data| > 0
    requires forall i :: 0 <= i < |data| ==> lo <= data[i].volume.GetOr(0.0) <= hi
    ensures lo <= CalculateVolumeData(data).averageVolume <= hi
  {
    MeanBounds(Volumes(data), lo, hi);
  }
}
