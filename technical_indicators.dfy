/** Simple moving averages over a price series and detection of golden and
    death crosses between the 7- and 30-period averages
    (utils/technicalIndicators.ts). */
module TechnicalIndicators {
  import opened Common

  /** A price point enriched with its two moving averages, absent until
      enough history exists. */
  datatype IndicatorPoint = IndicatorPoint(date: Day, price: real, sma7: Option<real>, sma30: Option<real>)

  /** The outcome of a crossover scan: which cross came last, and where. */
  datatype CrossoverSignal = CrossoverSignal(goldenCross: bool, deathCross: bool, lastCrossoverIndex: Option<nat>)

  const PeriodError: string := "Period must be a positive number"

  /** The arithmetic mean of a non-empty window. */
  function Mean(w: seq<real>): real
    requires |w| > 0
  {
    Sum(w) / |w| as real
  }

  // ---------------------------------------------------------------------
  // calculateSMA
  // ---------------------------------------------------------------------

  /** `calculateSMA(prices, period)`: entry i is the mean of the `period`
      prices ending at i, or absent while fewer than `period` prices have
      been seen. A non-positive period throws. */
  function CalculateSMA(prices: seq<real>, period: int): (r: Result<seq<Option<real>>>)
    ensures r.Err? <==> period <= 0
    ensures r.Err? ==> r.message == PeriodError
    ensures r.Ok? ==> |r.value| == |prices|
    ensures r.Ok? ==> forall i :: 0 <= i < |prices| ==>
              (r.value[i].None? <==> i < period - 1)
    ensures r.Ok? ==> forall i :: period - 1 <= i < |prices| ==>
              i - period + 1 >= 0 && r.value[i] == Some(Mean(prices[i - period + 1..i + 1]))
  {
    if period <= 0 then
      Err(PeriodError)
    else
      Ok(seq(|prices|, i requires 0 <= i < |prices| =>
        if i < period - 1 then None
        else Some(Sum(prices[i - period + 1..i + 1]) / period as real)))
  }

  /** A period longer than the series leaves every entry absent. */
  lemma SMAPeriodBeyondLength(prices: seq<real>, period: int)
    requires period > |prices|
    ensures CalculateSMA(prices, period).Ok?
    ensures forall i :: 0 <= i < |prices| ==> CalculateSMA(prices, period).value[i].None?
  {
  }

  /** With period 1 every entry is the price itself. */
  lemma SMAPeriodOne(prices: seq<real>)
    ensures CalculateSMA(prices, 1).Ok?
    ensures |CalculateSMA(prices, 1).value| == |prices|
    ensures forall i :: 0 <= i < |prices| ==> CalculateSMA(prices, 1).value[i] == Some(prices[i])
  {
    forall i | 0 <= i < |prices|
      ensures CalculateSMA(prices, 1).value[i] == Some(prices[i])
    {
      assert prices[i..i + 1] == [prices[i]];
      assert [prices[i]][1..] == [];
      assert Sum([prices[i]]) == prices[i];
    }
  }

  /** The rolling window: each mean differs from the previous one by the
      price that entered minus the price that left, divided by the period. */
  lemma SMASlides(prices: seq<real>, period: int, i: int)
    requires period > 0 && period <= i < |prices|
    ensures CalculateSMA(prices, period).Ok?
    ensures var v := CalculateSMA(prices, period).value;
            v[i].Some? && v[i - 1].Some? &&
            v[i].value == v[i - 1].value + (prices[i] - prices[i - period]) / period as real
  {
    var lo := i - period;
    SumSliceExtend(prices, lo + 1, i);
    SumSliceDrop(prices, lo, i);
    var oldSum := Sum(prices[lo..i]);
    var newSum := Sum(prices[lo + 1..i + 1]);
    assert newSum == oldSum - prices[lo] + prices[i];
    DivideSplits(oldSum, prices[lo], prices[i], period as real);
  }

  /** Dividing a sum that gained c and lost b. */
  lemma DivideSplits(a: real, b: real, c: real, p: real)
    requires p > 0.0
    ensures (a - b + c) / p == a / p + (c - b) / p
  {
    assert (a - b + c) / p * p == a - b + c;
    assert (a / p + (c - b) / p) * p == a / p * p + (c - b) / p * p;
  }

  lemma SumThree(a: real, b: real, c: real)
    ensures Sum([a, b, c]) == a + b + c
  {
    assert [c][1..] == [];
    assert Sum([c]) == c;
    assert [b, c][1..] == [c];
    assert Sum([b, c]) == b + c;
    assert [a, b, c][1..] == [b, c];
  }

  /** The example of the unit tests: [10,20,30,40,50] with period 3. */
  lemma SMAExample()
    ensures CalculateSMA([10.0, 20.0, 30.0, 40.0, 50.0], 3)
         == Ok([None, None, Some(20.0), Some(30.0), Some(40.0)])
  {
    var p := [10.0, 20.0, 30.0, 40.0, 50.0];
    var r := CalculateSMA(p, 3).value;
    assert p[0..3] == [10.0, 20.0, 30.0];
    assert p[1..4] == [20.0, 30.0, 40.0];
    assert p[2..5] == [30.0, 40.0, 50.0];
    assert Sum([10.0, 20.0, 30.0]) == 60.0 by { SumThree(10.0, 20.0, 30.0); }
    assert Sum([20.0, 30.0, 40.0]) == 90.0 by { SumThree(20.0, 30.0, 40.0); }
    assert Sum([30.0, 40.0, 50.0]) == 120.0 by { SumThree(30.0, 40.0, 50.0); }
    assert r == [None, None, Some(20.0), Some(30.0), Some(40.0)];
  }

  // ---------------------------------------------------------------------
  // addSMAIndicators
  // ---------------------------------------------------------------------

  /** `addSMAIndicators(data)`: every point keeps its date and price and
      gains its entries of the 7- and 30-period averages. */
  function AddSMAIndicators(data: seq<PricePoint>): (r: seq<IndicatorPoint>)
    ensures |r| == |data|
    ensures forall i :: 0 <= i < |data| ==>
              r[i].date == data[i].date && r[i].price == data[i].price &&
              r[i].sma7 == CalculateSMA(Prices(data), 7).value[i] &&
              r[i].sma30 == CalculateSMA(Prices(data), 30).value[i]
  {
    var prices := Prices(data);
    var sma7 := CalculateSMA(prices, 7).value;
    var sma30 := CalculateSMA(prices, 30).value;
    seq(|data|, i requires 0 <= i < |data| =>
      IndicatorPoint(data[i].date, data[i].price, sma7[i], sma30[i]))
  }

  /** The short average exists from the seventh point on, the long one from
      the thirtieth, each the mean of the trailing prices. */
  lemma IndicatorsDefinedFrom(data: seq<PricePoint>, i: int)
    requires 0 <= i < |data|
    ensures var r := AddSMAIndicators(data);
            (r[i].sma7.Some? <==> i >= 6) && (r[i].sma30.Some? <==> i >= 29) &&
            (i >= 6 ==> r[i].sma7.value == Mean(Prices(data)[i - 6..i + 1])) &&
            (i >= 29 ==> r[i].sma30.value == Mean(Prices(data)[i - 29..i + 1]))
  {
  }

  // ---------------------------------------------------------------------
  // detectCrossovers
  // ---------------------------------------------------------------------

  /** JavaScript truthiness of an optional number: `undefined` and 0 are
      both falsy. */
  predicate Truthy(v: Option<real>)
  {
    v.Some? && v.value != 0.0
  }

  /** The pair (data[i-1], data[i]) is examined only when all four averages
      are truthy. */
  predicate Comparable(data: seq<IndicatorPoint>, i: int)
    requires 1 <= i < |data|
  {
    Truthy(data[i - 1].sma7) && Truthy(data[i - 1].sma30) &&
    Truthy(data[i].sma7) && Truthy(data[i].sma30)
  }

  /** The short average moves from at-or-below to strictly above the long one. */
  predicate GoldenAt(data: seq<IndicatorPoint>, i: int)
    requires 1 <= i < |data|
  {
    Comparable(data, i) &&
    data[i - 1].sma7.value <= data[i - 1].sma30.value &&
    data[i].sma7.value > data[i].sma30.value
  }

  /** The short average moves from at-or-above to strictly below the long one
      (tested only when no golden cross is found at i). */
  predicate DeathAt(data: seq<IndicatorPoint>, i: int)
    requires 1 <= i < |data|
  {
    Comparable(data, i) && !GoldenAt(data, i) &&
    data[i - 1].sma7.value >= data[i - 1].sma30.value &&
    data[i].sma7.value < data[i].sma30.value
  }

  predicate CrossAt(data: seq<IndicatorPoint>, i: int)
    requires 1 <= i < |data|
  {
    GoldenAt(data, i) || DeathAt(data, i)
  }

  const NoSignal: CrossoverSignal := CrossoverSignal(false, false, None)

  /** The signal after the scan has examined the pairs ending at 1..k-1:
      each crossover found replaces the flags and index. */
  function Scan(data: seq<IndicatorPoint>, k: nat): (r: CrossoverSignal)
    requires k <= |data|
    ensures !(r.goldenCross && r.deathCross)
    ensures r.lastCrossoverIndex.None? <==> !r.goldenCross && !r.deathCross
    ensures r.lastCrossoverIndex.Some? ==> 1 <= r.lastCrossoverIndex.value < k
  {
    if k <= 1 then NoSignal
    else if GoldenAt(data, k - 1) then CrossoverSignal(true, false, Some(k - 1))
    else if DeathAt(data, k - 1) then CrossoverSignal(false, true, Some(k - 1))
    else Scan(data, k - 1)
  }

  /** The scan reports the last crossover: no index exactly when there is no
      crossover at all; otherwise the greatest crossover index, with the flag
      of its kind and never both flags. */
  lemma {:induction false} ScanReportsLastCrossover(data: seq<IndicatorPoint>, k: nat)
    requires k <= |data|
    ensures var r := Scan(data, k);
            && !(r.goldenCross && r.deathCross)
            && (r.lastCrossoverIndex.None? <==> forall i :: 1 <= i < k ==> !CrossAt(data, i))
            && (r.lastCrossoverIndex.None? ==> !r.goldenCross && !r.deathCross)
            && (r.lastCrossoverIndex.Some? ==>
                  var j := r.lastCrossoverIndex.value;
                  && 1 <= j < k
                  && CrossAt(data, j)
                  && (forall i :: j < i < k ==> !CrossAt(data, i))
                  && r.goldenCross == GoldenAt(data, j)
                  && r.deathCross == DeathAt(data, j))
  {
    if k > 1 && !CrossAt(data, k - 1) {
      ScanReportsLastCrossover(data, k - 1);
    }
  }

  /** `detectCrossovers(data)`: scans the adjacent pairs in order and keeps
      the last golden or death cross found. */
  method DetectCrossovers(data: seq<IndicatorPoint>) returns (r: CrossoverSignal)
    ensures r == Scan(data, |data|)
    ensures !(r.goldenCross && r.deathCross)
    ensures r.lastCrossoverIndex.None? <==> forall i :: 1 <= i < |data| ==> !CrossAt(data, i)
    ensures r.lastCrossoverIndex.None? ==> !r.goldenCross && !r.deathCross
    ensures r.lastCrossoverIndex.Some? ==>
              var j := r.lastCrossoverIndex.value;
              1 <= j < |data| && CrossAt(data, j) &&
              (forall i :: j < i < |data| ==> !CrossAt(data, i)) &&
              r.goldenCross == GoldenAt(data, j) && r.deathCross == DeathAt(data, j)
  {
    var goldenCross := false;
    var deathCross := false;
    var lastCrossoverIndex: Option<nat> := None;
    var i := 1;
    while i < |data|
      invariant 1 <= i
      invariant |data| >= 1 ==> i <= |data|
      invariant CrossoverSignal(goldenCross, deathCross, lastCrossoverIndex) == Scan(data, if |data| == 0 then 0 else i)
    {
      var prev := data[i - 1];
      var curr := data[i];
      if Truthy(prev.sma7) && Truthy(prev.sma30) && Truthy(curr.sma7) && Truthy(curr.sma30) {
        if prev.sma7.value <= prev.sma30.value && curr.sma7.value > curr.sma30.value {
          goldenCross := true;
          deathCross := false;
          lastCrossoverIndex := Some(i);
        } else if prev.sma7.value >= prev.sma30.value && curr.sma7.value < curr.sma30.value {
          deathCross := true;
          goldenCross := false;
          lastCrossoverIndex := Some(i);
        }
      }
      i := i + 1;
    }
    r := CrossoverSignal(goldenCross, deathCross, lastCrossoverIndex);
    ScanReportsLastCrossover(data, |data|);
  }

  /** Fewer than two points: nothing to compare, no signal. */
  lemma ShortSeriesHasNoSignal(data: seq<IndicatorPoint>)
    requires |data| < 2
    ensures Scan(data, |data|) == NoSignal
  {
  }

  /** On the output of AddSMAIndicators no crossover can be found before
      index 30, because the previous point of the pair needs a 30-period
      average. */
  lemma {:induction false} IndicatorCrossNeedsLongHistory(data: seq<PricePoint>)
    ensures var s := Scan(AddSMAIndicators(data), |data|);
            s.lastCrossoverIndex.Some? ==> s.lastCrossoverIndex.value >= 30
  {
    var ind := AddSMAIndicators(data);
    forall i | 1 <= i < |data| && i < 30
      ensures !CrossAt(ind, i)
    {
      IndicatorsDefinedFrom(data, i - 1);
    }
    ScanReportsLastCrossover(ind, |data|);
  }

  /** The unit tests' golden-cross pair. */
  lemma GoldenCrossExample()
    ensures Scan([IndicatorPoint(0, 100.0, Some(90.0), Some(100.0)),
                  IndicatorPoint(1, 110.0, Some(105.0), Some(100.0))], 2)
         == CrossoverSignal(true, false, Some(1))
  {
  }

  /** The unit tests' death-cross pair. */
  lemma DeathCrossExample()
    ensures Scan([IndicatorPoint(0, 100.0, Some(110.0), Some(100.0)),
                  IndicatorPoint(1, 90.0, Some(95.0), Some(100.0))], 2)
         == CrossoverSignal(false, true, Some(1))
  {
  }
}
