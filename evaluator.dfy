/**
 * The recommendation evaluator of static/js/analytics.js: the percent return
 * from the recommendation's price to the price at each of five calendar
 * horizons, judged against a per-sentiment threshold table.
 */
module Evaluator {
  import opened Wrappers
  import opened Records
  import opened Sentiments
  import Text
  import opened PriceMatcher

  /** The horizons of `TIME_PERIODS`, in calendar days after the recommendation. */
  datatype Period = M3 | M6 | Y1 | Y2 | Y5 {
    function Days(): nat {
      match this
      case M3 => 90
      case M6 => 180
      case Y1 => 365
      case Y2 => 730
      case Y5 => 1825
    }

    /** The position of the horizon in `Periods`. */
    function Index(): nat {
      match this
      case M3 => 0
      case M6 => 1
      case Y1 => 2
      case Y2 => 3
      case Y5 => 4
    }

    /** `shortTermPeriods` holds 3M and 6M; the other three are long-term. */
    predicate IsShortTerm() {
      this == M3 || this == M6
    }
  }

  /** `[...shortTermPeriods, ...longTermPeriods]`: the order the horizons are evaluated in. */
  const Periods: seq<Period> := [M3, M6, Y1, Y2, Y5]

  /** Rounds a non-negative number to two decimals, halves upwards. */
  function RoundHalfUp(x: real): (r: real)
    requires x >= 0.0
    ensures -0.005 < r - x <= 0.005
    ensures (r * 100.0).Floor as real == r * 100.0
  {
    var n := (x * 100.0 + 0.5).Floor;
    assert n as real <= x * 100.0 + 0.5 < n as real + 1.0;
    assert (n as real / 100.0) * 100.0 == n as real;
    n as real / 100.0
  }

  /** `x.toFixed(2)` read back as a number: round half away from zero to two decimals. */
  function Round2(x: real): (r: real)
    ensures -0.005 <= r - x <= 0.005
    ensures x >= 0.0 ==> -0.005 < r - x
    ensures x < 0.0 ==> r - x < 0.005
    ensures (r * 100.0).Floor as real == r * 100.0
  {
    if x >= 0.0 then RoundHalfUp(x)
    else
      var m := RoundHalfUp(-x);
      var k := (m * 100.0).Floor;
      assert (-m) * 100.0 == (-k) as real;
      assert ((-k) as real).Floor == -k;
      -m
  }

  /**
   * `calculateReturn(startPrice, endPrice)`: the percent change from start to
   * end, to two decimals; None when either price is missing, not a number or zero.
   */
  function CalculateReturn(start: Option<real>, end: Option<real>): (r: Option<real>)
    ensures r.Some? <==> start.Some? && end.Some? && start.value != 0.0 && end.value != 0.0
    ensures r.Some? ==> -0.005 <= r.value - (end.value - start.value) / start.value * 100.0 <= 0.005
    ensures r.Some? ==> (r.value * 100.0).Floor as real == r.value * 100.0
  {
    if start.None? || end.None? || start.value == 0.0 || end.value == 0.0 then None
    else Some(Round2((end.value - start.value) / start.value * 100.0))
  }

  /**
   * The threshold table: whether return `r` (percent) at horizon `p` bears
   * out a recommendation of the given kind; None for an unrecognised sentiment.
   */
  function Judge(kind: Option<Kind>, p: Period, r: real): (verdict: Option<bool>)
    ensures verdict.None? <==> kind.None?
    ensures kind == Some(StrongBuy) ==> verdict == Some(if p.IsShortTerm() then r > 5.0 else r > 15.0)
    ensures kind == Some(Buy) ==> verdict == Some(if p.IsShortTerm() then r > 3.0 else r > 10.0)
    ensures kind == Some(Hold) && p.IsShortTerm() ==> verdict == Some((if r < 0.0 then -r else r) <= 10.0)
    ensures kind == Some(Hold) && !p.IsShortTerm() ==> verdict == Some(r > 0.0)
    ensures kind == Some(Sell) ==> verdict == Some(if p.IsShortTerm() then r < -3.0 else r < -10.0)
    ensures kind == Some(StrongSell) ==> verdict == Some(if p.IsShortTerm() then r < -5.0 else r < -15.0)
  {
    match kind
    case None => None
    case Some(StrongBuy) => Some(if p.IsShortTerm() then r > 5.0 else r > 15.0)
    case Some(Buy) => Some(if p.IsShortTerm() then r > 3.0 else r > 10.0)
    case Some(Hold) => Some(if p.IsShortTerm() then -10.0 <= r <= 10.0 else r > 0.0)
    case Some(Sell) => Some(if p.IsShortTerm() then r < -3.0 else r < -10.0)
    case Some(StrongSell) => Some(if p.IsShortTerm() then r < -5.0 else r < -15.0)
  }

  /** A strong call that comes true makes the plain call of the same direction come true. */
  lemma JudgeStrongImpliesPlain(p: Period, r: real)
    ensures Judge(Some(StrongBuy), p, r) == Some(true) ==> Judge(Some(Buy), p, r) == Some(true)
    ensures Judge(Some(StrongSell), p, r) == Some(true) ==> Judge(Some(Sell), p, r) == Some(true)
  {
  }

  /** A buy-side and a sell-side call are never both right about the same return. */
  lemma JudgeBuySellExclusive(buy: Kind, sell: Kind, p: Period, r: real)
    requires GroupOf(buy) == BuySide && GroupOf(sell) == SellSide
    ensures !(Judge(Some(buy), p, r) == Some(true) && Judge(Some(sell), p, r) == Some(true))
  {
  }

  /** Buy-side calls stay right as the return rises; sell-side calls as it falls. */
  lemma JudgeMonotone(k: Kind, p: Period, r: real, r': real)
    requires Judge(Some(k), p, r) == Some(true)
    ensures GroupOf(k) == BuySide && r <= r' ==> Judge(Some(k), p, r') == Some(true)
    ensures GroupOf(k) == SellSide && r' <= r ==> Judge(Some(k), p, r') == Some(true)
  {
  }

  /**
   * One entry of `details`. Absent map keys are absent object properties; None
   * is null. `returnByPeriod` is the source's `returns` object.
   */
  datatype Analysis = Analysis(
    ticker: string,
    date: string,
    sentiment: Option<string>,
    initialPrice: Option<real>,
    prices: map<Period, Option<real>>,
    returnByPeriod: map<Period, Option<real>>,
    accuracyByPeriod: map<Period, Option<bool>>,
    accurate: bool,
    hasValidPeriod: bool,
    shortTermAccurate: Option<bool>,
    longTermAccurate: Option<bool>,
    error: Option<string>)

  /** `rec.sentiment?.toUpperCase()` */
  function UpperSentiment(s: Option<string>): Option<string> {
    match s
    case None => None
    case Some(text) => Some(Text.ToUpper(text))
  }

  /** The kind the evaluator's `switch` selects for an (upper-cased) sentiment. */
  function KindOf(sentiment: Option<string>): Option<Kind> {
    match sentiment
    case None => None
    case Some(text) => Parse(text)
  }

  /** The price point matched to the recommendation's own date (an unparseable date matches nothing). */
  function InitialPrice(stock: Stock, rec: Recommendation): Option<PricePoint> {
    match rec.day
    case None => None
    case Some(day) => FindClosestPrice(stock.weeklyPrices, day)
  }

  /** `findClosestPrice(prices, recDate + days)?.close` */
  function PeriodPrice(prices: seq<PricePoint>, day: int, p: Period): Option<real> {
    var target := day + p.Days();
    match FindClosestPrice(prices, target)
    case None => None
    case Some(point) => point.close
  }

  /** `periodPrice || null` */
  function OrNull(x: Option<real>): Option<real> {
    if x == Some(0.0) then None else x
  }

  /** The analysis returned when no initial price is found. */
  function Unpriced(ticker: string, rec: Recommendation, sentiment: Option<string>): Analysis {
    Analysis(ticker, rec.date, sentiment, None, map[], map[], map[], false, false, None, None,
             Some("Missing initial price"))
  }

  /** Some horizon of the given group has a return. */
  predicate HasReturn(rets: map<Period, Option<real>>, shortTerm: bool) {
    exists p :: p in rets && p.IsShortTerm() == shortTerm && rets[p].Some?
  }

  /** Some horizon of the given group is judged exactly `true`. */
  predicate HasTrue(accuracy: map<Period, Option<bool>>, shortTerm: bool) {
    exists p :: p in accuracy && p.IsShortTerm() == shortTerm && accuracy[p] == Some(true)
  }

  /** `accuracyByPeriod[period] === true` */
  predicate Verdict(accuracy: map<Period, Option<bool>>, p: Period) {
    p in accuracy && accuracy[p] == Some(true)
  }

  /** The return from `start` to the price matched at horizon p. */
  function ReturnAt(prices: seq<PricePoint>, day: int, start: Option<real>, p: Period): Option<real> {
    CalculateReturn(start, PeriodPrice(prices, day, p))
  }

  /** The `prices` object over the horizons in ps. */
  ghost function PriceMap(prices: seq<PricePoint>, day: int, ps: seq<Period>): map<Period, Option<real>> {
    map p | p in ps :: OrNull(PeriodPrice(prices, day, p))
  }

  /** The `returns` object over the horizons in ps. */
  ghost function ReturnMap(prices: seq<PricePoint>, day: int, start: Option<real>, ps: seq<Period>): map<Period, Option<real>> {
    map p | p in ps :: ReturnAt(prices, day, start, p)
  }

  /** The `accuracyByPeriod` object: a verdict exactly where there is a return. */
  ghost function VerdictMap(rets: map<Period, Option<real>>, kind: Option<Kind>): map<Period, Option<bool>> {
    map p | p in rets && rets[p].Some? :: Judge(kind, p, rets[p].value)
  }

  /**
   * What `analyzeRecommendation` computes, stated per horizon: every horizon
   * gets a price and a return, a horizon with a return gets a verdict, and the
   * summary flags are read off the two groups of horizons.
   */
  ghost function Analyze(ticker: string, stock: Stock, rec: Recommendation): Analysis {
    var sentiment := UpperSentiment(rec.sentiment);
    var initial := InitialPrice(stock, rec);
    if initial.None? then Unpriced(ticker, rec, sentiment)
    else
      var day := rec.day.value;
      var start := initial.value.close;
      var returnByPeriod := ReturnMap(stock.weeklyPrices, day, start, Periods);
      var accuracy := VerdictMap(returnByPeriod, KindOf(sentiment));
      var shortTerm := HasReturn(returnByPeriod, true) && HasTrue(accuracy, true);
      var longTerm := HasReturn(returnByPeriod, false) && HasTrue(accuracy, false);
      Analysis(ticker, rec.date, sentiment, start, PriceMap(stock.weeklyPrices, day, Periods),
               returnByPeriod, accuracy, shortTerm || longTerm,
               HasReturn(returnByPeriod, true) || HasReturn(returnByPeriod, false),
               Some(shortTerm), Some(longTerm), None)
  }

  lemma PeriodsComplete(p: Period)
    ensures p in Periods
  {
    assert Periods[p.Index()] == p;
  }

  lemma PeriodsPrefix(i: nat)
    requires i < |Periods|
    ensures Periods[..i + 1] == Periods[..i] + [Periods[i]]
    ensures Periods[i] !in Periods[..i]
  {
  }

  /** Extending the horizons by one horizon sets each map at that horizon only. */
  lemma PriceMapExtend(prices: seq<PricePoint>, day: int, ps: seq<Period>, p: Period)
    ensures PriceMap(prices, day, ps + [p]) == PriceMap(prices, day, ps)[p := OrNull(PeriodPrice(prices, day, p))]
  {
  }

  lemma ReturnMapExtend(prices: seq<PricePoint>, day: int, start: Option<real>, ps: seq<Period>, p: Period)
    ensures ReturnMap(prices, day, start, ps + [p]) == ReturnMap(prices, day, start, ps)[p := ReturnAt(prices, day, start, p)]
  {
  }

  lemma VerdictMapExtend(rets: map<Period, Option<real>>, kind: Option<Kind>, p: Period, v: Option<real>)
    requires p !in rets
    ensures v.Some? ==> VerdictMap(rets[p := v], kind) == VerdictMap(rets, kind)[p := Judge(kind, p, v.value)]
    ensures v.None? ==> VerdictMap(rets[p := v], kind) == VerdictMap(rets, kind)
  {
    var before, after := VerdictMap(rets, kind), VerdictMap(rets[p := v], kind);
    if v.None? {
      assert forall q :: q in after <==> q in before;
    }
  }

  /** Adding a new horizon to the returns adds at most that horizon to its group. */
  lemma HasReturnUpdate(rets: map<Period, Option<real>>, p: Period, v: Option<real>, shortTerm: bool)
    requires p !in rets
    ensures HasReturn(rets[p := v], shortTerm) <==> HasReturn(rets, shortTerm) || (p.IsShortTerm() == shortTerm && v.Some?)
  {
    var m := rets[p := v];
    if HasReturn(m, shortTerm) {
      var q :| q in m && q.IsShortTerm() == shortTerm && m[q].Some?;
      if q != p {
        assert q in rets && rets[q].Some?;
      }
    }
    if HasReturn(rets, shortTerm) {
      var q :| q in rets && q.IsShortTerm() == shortTerm && rets[q].Some?;
      assert q in m && m[q].Some?;
    }
    if p.IsShortTerm() == shortTerm && v.Some? {
      assert p in m && m[p].Some?;
    }
  }

  /** The two groups of horizons, spelled out. */
  lemma GroupsByName(accuracy: map<Period, Option<bool>>)
    ensures HasTrue(accuracy, true) <==> Verdict(accuracy, M3) || Verdict(accuracy, M6)
    ensures HasTrue(accuracy, false) <==> Verdict(accuracy, Y1) || Verdict(accuracy, Y2) || Verdict(accuracy, Y5)
  {
    if HasTrue(accuracy, true) {
      var p :| p in accuracy && p.IsShortTerm() && accuracy[p] == Some(true);
      assert Verdict(accuracy, p);
    }
    if HasTrue(accuracy, false) {
      var p :| p in accuracy && !p.IsShortTerm() && accuracy[p] == Some(true);
      assert Verdict(accuracy, p);
    }
  }

  /** `analyzeRecommendation(ticker, stock, rec)`: fills the three maps horizon by horizon. */
  method AnalyzeRecommendation(ticker: string, stock: Stock, rec: Recommendation) returns (a: Analysis)
    ensures a == Analyze(ticker, stock, rec)
  {
    var sentiment := UpperSentiment(rec.sentiment);
    var initial := InitialPrice(stock, rec);
    if initial.None? {
      return Unpriced(ticker, rec, sentiment);
    }
    var series := stock.weeklyPrices;
    var day := rec.day.value;
    var start := initial.value.close;
    var kind := KindOf(sentiment);
    var rets: map<Period, Option<real>> := map[];
    var prices: map<Period, Option<real>> := map[];
    var accuracy: map<Period, Option<bool>> := map[];
    var validShort, validLong := false, false;
    for i := 0 to |Periods|
      invariant prices == PriceMap(series, day, Periods[..i])
      invariant rets == ReturnMap(series, day, start, Periods[..i])
      invariant accuracy == VerdictMap(rets, kind)
      invariant validShort == HasReturn(rets, true)
      invariant validLong == HasReturn(rets, false)
    {
      var p := Periods[i];
      PeriodsPrefix(i);
      PriceMapExtend(series, day, Periods[..i], p);
      ReturnMapExtend(series, day, start, Periods[..i], p);
      var periodPrice := PeriodPrice(series, day, p);
      prices := prices[p := OrNull(periodPrice)];
      var ret := CalculateReturn(start, periodPrice);
      assert ret == ReturnAt(series, day, start, p);
      HasReturnUpdate(rets, p, ret, true);
      HasReturnUpdate(rets, p, ret, false);
      VerdictMapExtend(rets, kind, p, ret);
      rets := rets[p := ret];
      if ret.Some? {
        if p.IsShortTerm() {
          validShort := true;
        } else {
          validLong := true;
        }
        accuracy := accuracy[p := Judge(kind, p, ret.value)];
      }
    }
    assert Periods[..|Periods|] == Periods;
    GroupsByName(accuracy);
    var shortTerm := validShort && (Verdict(accuracy, M3) || Verdict(accuracy, M6));
    var longTerm := validLong && (Verdict(accuracy, Y1) || Verdict(accuracy, Y2) || Verdict(accuracy, Y5));
    a := Analysis(ticker, rec.date, sentiment, start, prices, rets, accuracy,
                  shortTerm || longTerm, validShort || validLong, Some(shortTerm), Some(longTerm), None);
  }

  /** The analysis echoes the ticker, the raw date and the upper-cased sentiment. */
  lemma AnalyzeEcho(ticker: string, stock: Stock, rec: Recommendation)
    ensures var a := Analyze(ticker, stock, rec);
      a.ticker == ticker && a.date == rec.date && a.sentiment == UpperSentiment(rec.sentiment)
  {
  }

  /** An analysis either has no returns at all (and an error) or a return slot at every horizon. */
  lemma AnalyzeShape(ticker: string, stock: Stock, rec: Recommendation)
    ensures var a := Analyze(ticker, stock, rec);
      && (a.error.Some? <==> a.returnByPeriod == map[])
      && (a.error.None? ==> forall p: Period :: p in a.returnByPeriod)
  {
    var a := Analyze(ticker, stock, rec);
    if a.error.None? {
      forall p: Period
        ensures p in a.returnByPeriod
      {
        PeriodsComplete(p);
      }
      assert M3 in a.returnByPeriod;
    }
  }

  /**
   * The short-circuit: without a price within five days of the recommendation
   * date (or without a usable date) nothing is evaluated, whatever later prices exist.
   */
  lemma AnalyzeShortCircuit(ticker: string, stock: Stock, rec: Recommendation)
    ensures var a := Analyze(ticker, stock, rec);
      && (a.error.Some? <==>
            rec.day.None? ||
            forall j :: 0 <= j < |stock.weeklyPrices| ==> Distance(stock.weeklyPrices[j].date, rec.day.value) > ToleranceDays)
      && (a.error.Some? ==>
            && a.initialPrice.None? && a.prices == map[] && a.returnByPeriod == map[] && a.accuracyByPeriod == map[]
            && !a.hasValidPeriod && !a.accurate)
  {
  }

  /**
   * How the summary flags follow from the horizons: a verdict exists exactly
   * where a return exists; each group is accurate exactly when one of its
   * verdicts is `true` (so the `hasValidShortTerm` guard adds nothing);
   * `accurate` is their disjunction; and only a recommendation with some
   * return can be accurate.
   */
  lemma {:induction false} AnalyzeSummary(ticker: string, stock: Stock, rec: Recommendation)
    ensures var a := Analyze(ticker, stock, rec);
      && (forall p :: p in a.accuracyByPeriod <==> p in a.returnByPeriod && a.returnByPeriod[p].Some?)
      && (a.hasValidPeriod <==> exists p :: p in a.returnByPeriod && a.returnByPeriod[p].Some?)
      && (a.error.None? ==> a.shortTermAccurate == Some(HasTrue(a.accuracyByPeriod, true)))
      && (a.error.None? ==> a.longTermAccurate == Some(HasTrue(a.accuracyByPeriod, false)))
      && (a.accurate <==> HasTrue(a.accuracyByPeriod, true) || HasTrue(a.accuracyByPeriod, false))
      && (a.accurate ==> a.hasValidPeriod)
  {
    var a := Analyze(ticker, stock, rec);
    if a.error.None? {
      forall shortTerm: bool | HasTrue(a.accuracyByPeriod, shortTerm)
        ensures HasReturn(a.returnByPeriod, shortTerm)
      {
        var p :| p in a.accuracyByPeriod && p.IsShortTerm() == shortTerm && a.accuracyByPeriod[p] == Some(true);
        assert p in a.returnByPeriod && a.returnByPeriod[p].Some?;
      }
      if a.hasValidPeriod {
        var shortTerm :| HasReturn(a.returnByPeriod, shortTerm);
        var p :| p in a.returnByPeriod && p.IsShortTerm() == shortTerm && a.returnByPeriod[p].Some?;
      }
    }
  }

  /**
   * An unrecognised sentiment gets a null verdict at every horizon with a
   * return and is never accurate, though it may still have a valid period.
   */
  lemma {:induction false} AnalyzeUnrecognised(ticker: string, stock: Stock, rec: Recommendation)
    requires KindOf(UpperSentiment(rec.sentiment)).None?
    ensures var a := Analyze(ticker, stock, rec);
      && (forall p :: p in a.accuracyByPeriod ==> a.accuracyByPeriod[p].None?)
      && !a.accurate
  {
    AnalyzeSummary(ticker, stock, rec);
  }

  /**
   * Once an initial price is found, every horizon has a return, and a
   * horizon with a return is judged by the threshold table on that rounded
   * return.
   */
  lemma AnalyzeHorizon(ticker: string, stock: Stock, rec: Recommendation, p: Period)
    requires InitialPrice(stock, rec).Some?
    ensures var a := Analyze(ticker, stock, rec);
      var r := ReturnAt(stock.weeklyPrices, rec.day.value, InitialPrice(stock, rec).value.close, p);
      && p in a.returnByPeriod && a.returnByPeriod[p] == r
      && (p in a.accuracyByPeriod <==> r.Some?)
      && (r.Some? ==> a.accuracyByPeriod[p] == Judge(KindOf(UpperSentiment(rec.sentiment)), p, r.value))
  {
    assert p in Periods;
  }

  /** The fold over a two-point series, unrolled. */
  lemma NearestOfTwo(x: PricePoint, y: PricePoint, target: int, tolerance: Option<nat>)
    ensures Nearest([x, y], target, tolerance) == Step(Step(None, x, target, tolerance), y, target, tolerance)
  {
    assert [x, y][..1] == [x];
    assert [x][..0] == [];
    assert Nearest([x], target, tolerance) == Step(None, x, target, tolerance);
  }

  /** A label in any letter case selects its kind. */
  lemma KindOfLabel(text: string, k: Kind)
    requires Text.ToUpper(text) == Label(k)
    ensures KindOf(UpperSentiment(Some(text))) == Some(k)
  {
  }

  /** The price series of the buy scenario: the 3-month return is 6.00 and there is no 6-month price. */
  lemma BuySeries(series: seq<PricePoint>, day: int)
    requires series == [PricePoint(day, Some(100.0)), PricePoint(day + 91, Some(106.0))]
    ensures FindClosestPrice(series, day) == Some(series[0])
    ensures ReturnAt(series, day, Some(100.0), M3) == Some(6.0)
    ensures ReturnAt(series, day, Some(100.0), M6) == None
  {
    NearestOfTwo(series[0], series[1], day, Some(ToleranceDays));
    NearestOfTwo(series[0], series[1], day + 90, Some(ToleranceDays));
    NearestOfTwo(series[0], series[1], day + 180, Some(ToleranceDays));
    assert PeriodPrice(series, day, M3) == Some(106.0);
    assert Round2(6.0) == 6.0;
  }

  /** A buy recommendation at 100 with a 106 close 91 days later: the 3-month return is 6.00, above 3%. */
  lemma ScenarioBuyRight(stock: Stock, rec: Recommendation, day: int)
    requires stock.weeklyPrices == [PricePoint(day, Some(100.0)), PricePoint(day + 91, Some(106.0))]
    requires rec.day == Some(day) && rec.sentiment == Some("buy")
    ensures var a := Analyze("T", stock, rec);
      && M3 in a.returnByPeriod && a.returnByPeriod[M3] == Some(6.0)
      && M3 in a.accuracyByPeriod && a.accuracyByPeriod[M3] == Some(true)
      && M6 in a.returnByPeriod && a.returnByPeriod[M6].None? && M6 !in a.accuracyByPeriod
      && a.shortTermAccurate == Some(true) && a.accurate
  {
    BuySeries(stock.weeklyPrices, day);
    assert Text.ToUpper("buy") == "BUY";
    KindOfLabel("buy", Buy);
    AnalyzeHorizon("T", stock, rec, M3);
    AnalyzeHorizon("T", stock, rec, M6);
    AnalyzeSummary("T", stock, rec);
    var a := Analyze("T", stock, rec);
    assert HasTrue(a.accuracyByPeriod, true);
  }

  /** The price series of the hold scenario: the 1-year return is 0.00. */
  lemma FlatYearSeries(series: seq<PricePoint>, day: int)
    requires series == [PricePoint(day, Some(100.0)), PricePoint(day + 365, Some(100.0))]
    ensures FindClosestPrice(series, day) == Some(series[0])
    ensures ReturnAt(series, day, Some(100.0), Y1) == Some(0.0)
  {
    NearestOfTwo(series[0], series[1], day, Some(ToleranceDays));
    NearestOfTwo(series[0], series[1], day + 365, Some(ToleranceDays));
    assert PeriodPrice(series, day, Y1) == Some(100.0);
    assert Round2(0.0) == 0.0;
  }

  /** A hold whose price is flat after one year is wrong at that horizon: the long-term rule asks for a strict gain. */
  lemma ScenarioHoldFlatYear(stock: Stock, rec: Recommendation, day: int)
    requires stock.weeklyPrices == [PricePoint(day, Some(100.0)), PricePoint(day + 365, Some(100.0))]
    requires rec.day == Some(day) && rec.sentiment == Some("HOLD")
    ensures var a := Analyze("T", stock, rec);
      && Y1 in a.returnByPeriod && a.returnByPeriod[Y1] == Some(0.0)
      && Y1 in a.accuracyByPeriod && a.accuracyByPeriod[Y1] == Some(false)
  {
    FlatYearSeries(stock.weeklyPrices, day);
    KindOfLabel("HOLD", Hold);
    AnalyzeHorizon("T", stock, rec, Y1);
  }

  /** The price series of the unrecognised scenario: the 3-month return exists. */
  lemma RiseSeries(series: seq<PricePoint>, day: int)
    requires series == [PricePoint(day, Some(100.0)), PricePoint(day + 90, Some(120.0))]
    ensures FindClosestPrice(series, day) == Some(series[0])
    ensures ReturnAt(series, day, Some(100.0), M3).Some?
  {
    NearestOfTwo(series[0], series[1], day, Some(ToleranceDays));
    NearestOfTwo(series[0], series[1], day + 90, Some(ToleranceDays));
    assert PeriodPrice(series, day, M3) == Some(120.0);
  }

  /** An unrecognised sentiment with a resolvable return: a valid period, a null verdict, not accurate. */
  lemma ScenarioUnrecognisedValid(stock: Stock, rec: Recommendation, day: int)
    requires stock.weeklyPrices == [PricePoint(day, Some(100.0)), PricePoint(day + 90, Some(120.0))]
    requires rec.day == Some(day) && rec.sentiment == Some("WATCH")
    ensures var a := Analyze("T", stock, rec);
      && a.hasValidPeriod
      && M3 in a.accuracyByPeriod && a.accuracyByPeriod[M3].None?
      && !a.accurate
  {
    RiseSeries(stock.weeklyPrices, day);
    assert Text.ToUpper("WATCH") == "WATCH";
    assert KindOf(UpperSentiment(rec.sentiment)).None?;
    var a := Analyze("T", stock, rec);
    assert M3 in a.returnByPeriod && a.returnByPeriod[M3].Some? && M3 in a.accuracyByPeriod && a.accuracyByPeriod[M3].None? by {
      AnalyzeHorizon("T", stock, rec, M3);
    }
    assert a.hasValidPeriod by {
      AnalyzeSummary("T", stock, rec);
    }
    assert !a.accurate by {
      AnalyzeUnrecognised("T", stock, rec);
    }
  }
}
