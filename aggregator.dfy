/**
 * `analyzeRecommendations` of static/js/analytics.js: every admitted
 * recommendation of every stock is analysed, in order, and the analyses are
 * tallied overall and per recognised sentiment.
 */
module Aggregator {
  import opened Wrappers
  import opened Records
  import opened Sentiments
  import opened Counting
  import Text
  import opened Evaluator

  /** One entry of `byType`. */
  datatype Bucket = Bucket(total: nat, correct: nat, valid: nat)

  /** The `results` object. `byType` is keyed by the label's kind. */
  datatype Report = Report(
    total: nat,
    accurate: nat,
    validRecommendations: nat,
    byType: map<Kind, Bucket>,
    details: seq<Analysis>)

  const AllKinds: set<Kind> := {StrongBuy, Buy, Hold, Sell, StrongSell}

  lemma AllKindsComplete(k: Kind)
    ensures k in AllKinds
  {
  }

  /** A recommendation with a non-empty date and a non-empty sentiment is analysed; others are skipped. */
  predicate Admitted(rec: Recommendation) {
    rec.date != "" && rec.sentiment.Some? && rec.sentiment.value != ""
  }

  /** The analyses of one stock's recommendations, in order. */
  ghost function RecDetails(ticker: string, stock: Stock, recs: seq<Recommendation>): (ds: seq<Analysis>)
    ensures |ds| == Count(recs, Admitted)
  {
    if |recs| == 0 then []
    else
      var rest := RecDetails(ticker, stock, recs[..|recs| - 1]);
      var rec := recs[|recs| - 1];
      if Admitted(rec) then rest + [Analyze(ticker, stock, rec)] else rest
  }

  /** A stock without a recommendations list contributes nothing. */
  ghost function StockDetails(entry: (string, Stock)): seq<Analysis> {
    match entry.1.recommendations
    case None => []
    case Some(recs) => RecDetails(entry.0, entry.1, recs)
  }

  /** `results.details`: the analyses over `Object.entries(stockData)`, in order. */
  ghost function Details(stocks: seq<(string, Stock)>): seq<Analysis> {
    if |stocks| == 0 then []
    else Details(stocks[..|stocks| - 1]) + StockDetails(stocks[|stocks| - 1])
  }

  predicate Valid(a: Analysis) {
    a.hasValidPeriod
  }

  predicate Accurate(a: Analysis) {
    a.accurate
  }

  /** What `results.accurate` counts: valid, of a recognised kind, and accurate. */
  predicate Tallied(a: Analysis) {
    a.hasValidPeriod && KindOf(a.sentiment).Some? && a.accurate
  }

  /** Valid, but of no recognised kind: counted in `validRecommendations` and in no bucket. */
  predicate Untallied(a: Analysis) {
    a.hasValidPeriod && KindOf(a.sentiment).None?
  }

  function InBucket(k: Kind): Analysis -> bool {
    (a: Analysis) => a.hasValidPeriod && KindOf(a.sentiment) == Some(k)
  }

  function CorrectIn(k: Kind): Analysis -> bool {
    (a: Analysis) => a.hasValidPeriod && KindOf(a.sentiment) == Some(k) && a.accurate
  }

  /** The bucket of kind k over the given analyses; its total and valid counts coincide. */
  function Tally(details: seq<Analysis>, k: Kind): Bucket {
    var valid := Count(details, InBucket(k));
    Bucket(valid, Count(details, CorrectIn(k)), valid)
  }

  function Buckets(details: seq<Analysis>): map<Kind, Bucket> {
    map k | k in AllKinds :: Tally(details, k)
  }

  /** The tallies over a sequence of analyses. */
  function Summary(details: seq<Analysis>): Report {
    Report(|details|, Count(details, Tallied), Count(details, Valid), Buckets(details), details)
  }

  /** Appending one analysis adds it to the bucket of its own kind, if it is valid. */
  lemma TallySnoc(details: seq<Analysis>, a: Analysis, k: Kind)
    ensures var t := Tally(details, k);
      Tally(details + [a], k)
        == if InBucket(k)(a) then Bucket(t.total + 1, if a.accurate then t.correct + 1 else t.correct, t.valid + 1) else t
  {
    CountSnoc(details, a, InBucket(k));
    CountSnoc(details, a, CorrectIn(k));
  }

  /** Appending one analysis moves at most the bucket of its own kind. */
  lemma BucketsSnoc(details: seq<Analysis>, a: Analysis)
    ensures a.hasValidPeriod && KindOf(a.sentiment).Some? ==>
      var k := KindOf(a.sentiment).value;
      var b := Buckets(details)[k];
      Buckets(details + [a]) == Buckets(details)[k := Bucket(b.total + 1, if a.accurate then b.correct + 1 else b.correct, b.valid + 1)]
    ensures !(a.hasValidPeriod && KindOf(a.sentiment).Some?) ==> Buckets(details + [a]) == Buckets(details)
  {
    var before, after := Buckets(details), Buckets(details + [a]);
    var expected := before;
    if a.hasValidPeriod && KindOf(a.sentiment).Some? {
      var k := KindOf(a.sentiment).value;
      AllKindsComplete(k);
      var b := before[k];
      expected := before[k := Bucket(b.total + 1, if a.accurate then b.correct + 1 else b.correct, b.valid + 1)];
    }
    forall k | k in AllKinds
      ensures after[k] == expected[k]
    {
      TallySnoc(details, a, k);
    }
    assert after.Keys == expected.Keys;
  }

  /** One more recommendation of the same stock. */
  lemma RecDetailsSnoc(ticker: string, stock: Stock, recs: seq<Recommendation>, j: nat)
    requires j < |recs|
    ensures RecDetails(ticker, stock, recs[..j + 1])
         == RecDetails(ticker, stock, recs[..j]) + if Admitted(recs[j]) then [Analyze(ticker, stock, recs[j])] else []
  {
    assert recs[..j + 1][..j] == recs[..j];
  }

  /** One more stock. */
  lemma DetailsSnoc(stocks: seq<(string, Stock)>, i: nat)
    requires i < |stocks|
    ensures Details(stocks[..i + 1]) == Details(stocks[..i]) + StockDetails(stocks[i])
  {
    assert stocks[..i + 1][..i] == stocks[..i];
  }

  /**
   * The body of the inner `forEach` once the analysis is made: count it, and
   * if it has a valid period count it as valid and, when its upper-cased
   * sentiment is one of the five labels, in that label's bucket.
   */
  method Record(results: Report, a: Analysis) returns (next: Report)
    requires results == Summary(results.details)
    ensures next == Summary(results.details + [a])
  {
    CountSnoc(results.details, a, Valid);
    CountSnoc(results.details, a, Tallied);
    BucketsSnoc(results.details, a);
    var total, accurate, valid, byType := results.total + 1, results.accurate, results.validRecommendations, results.byType;
    if a.hasValidPeriod {
      valid := valid + 1;
      var kind := KindOf(a.sentiment);
      if kind.Some? {
        AllKindsComplete(kind.value);
        var b := byType[kind.value];
        byType := byType[kind.value := Bucket(b.total + 1, if a.accurate then b.correct + 1 else b.correct, b.valid + 1)];
        if a.accurate {
          accurate := accurate + 1;
        }
      }
    }
    next := Report(total, accurate, valid, byType, results.details + [a]);
  }

  /** The outer `forEach` callback for one stock that has a recommendations list. */
  method RecordStock(results: Report, ticker: string, stock: Stock, recs: seq<Recommendation>) returns (next: Report)
    requires results == Summary(results.details)
    ensures next == Summary(results.details + RecDetails(ticker, stock, recs))
  {
    next := results;
    assert results.details + RecDetails(ticker, stock, recs[..0]) == results.details;
    for j := 0 to |recs|
      invariant next == Summary(results.details + RecDetails(ticker, stock, recs[..j]))
    {
      var rec := recs[j];
      RecDetailsSnoc(ticker, stock, recs, j);
      ghost var done := RecDetails(ticker, stock, recs[..j]);
      if Admitted(rec) {
        var a := AnalyzeRecommendation(ticker, stock, rec);
        next := Record(next, a);
        assert (results.details + done) + [a] == results.details + (done + [a]);
      } else {
        assert done + [] == done;
      }
    }
    assert recs[..|recs|] == recs;
  }

  /** `analyzeRecommendations()` over the entries of `stockData`. */
  method AnalyzeRecommendations(stocks: seq<(string, Stock)>) returns (results: Report)
    ensures results == Summary(Details(stocks))
  {
    results := Report(0, 0, 0, map k | k in AllKinds :: Bucket(0, 0, 0), []);
    assert results == Summary([]);
    for i := 0 to |stocks|
      invariant results == Summary(Details(stocks[..i]))
    {
      var ticker, stock := stocks[i].0, stocks[i].1;
      DetailsSnoc(stocks, i);
      if stock.recommendations.Some? {
        results := RecordStock(results, ticker, stock, stock.recommendations.value);
      } else {
        assert Details(stocks[..i]) + [] == Details(stocks[..i]);
      }
    }
    assert stocks[..|stocks|] == stocks;
  }

  /** Every analysis in `details` comes from an admitted recommendation and obeys the evaluator's summary rules. */
  ghost predicate Recorded(a: Analysis) {
    && a.date != "" && a.sentiment.Some? && a.sentiment.value != ""
    && (a.accurate ==> a.hasValidPeriod && KindOf(a.sentiment).Some?)
    && (forall p :: p in a.returnByPeriod && a.returnByPeriod[p].Some? ==> a.hasValidPeriod)
    && (a.error.Some? <==> a.returnByPeriod == map[])
    && (a.error.None? ==> forall p: Period :: p in a.returnByPeriod)
  }

  lemma {:induction false} RecDetailsRecorded(ticker: string, stock: Stock, recs: seq<Recommendation>)
    ensures forall i :: 0 <= i < |RecDetails(ticker, stock, recs)| ==> Recorded(RecDetails(ticker, stock, recs)[i])
  {
    if |recs| > 0 {
      var rec := recs[|recs| - 1];
      RecDetailsRecorded(ticker, stock, recs[..|recs| - 1]);
      if Admitted(rec) {
        var a := Analyze(ticker, stock, rec);
        AnalyzeSummary(ticker, stock, rec);
        AnalyzeShape(ticker, stock, rec);
        AnalyzeEcho(ticker, stock, rec);
        if KindOf(UpperSentiment(rec.sentiment)).None? {
          AnalyzeUnrecognised(ticker, stock, rec);
        }
        assert |Text.ToUpper(rec.sentiment.value)| == |rec.sentiment.value|;
        assert Recorded(a);
      }
    }
  }

  lemma {:induction false} DetailsRecorded(stocks: seq<(string, Stock)>)
    ensures forall i :: 0 <= i < |Details(stocks)| ==> Recorded(Details(stocks)[i])
  {
    if |stocks| > 0 {
      DetailsRecorded(stocks[..|stocks| - 1]);
      var entry := stocks[|stocks| - 1];
      if entry.1.recommendations.Some? {
        RecDetailsRecorded(entry.0, entry.1, entry.1.recommendations.value);
      }
    }
  }

  /** Each admitted recommendation of a stock has its analysis among that stock's details. */
  lemma {:induction false} RecDetailsComplete(ticker: string, stock: Stock, recs: seq<Recommendation>, j: nat)
    requires j < |recs| && Admitted(recs[j])
    ensures Analyze(ticker, stock, recs[j]) in RecDetails(ticker, stock, recs)
  {
    if j < |recs| - 1 {
      RecDetailsComplete(ticker, stock, recs[..|recs| - 1], j);
    }
  }

  /**
   * Each admitted recommendation of each stock that has a recommendations
   * list has its analysis in `details`.
   */
  lemma {:induction false} DetailsComplete(stocks: seq<(string, Stock)>, i: nat, j: nat)
    requires i < |stocks| && stocks[i].1.recommendations.Some?
    requires j < |stocks[i].1.recommendations.value| && Admitted(stocks[i].1.recommendations.value[j])
    ensures Analyze(stocks[i].0, stocks[i].1, stocks[i].1.recommendations.value[j]) in Details(stocks)
  {
    if i == |stocks| - 1 {
      RecDetailsComplete(stocks[i].0, stocks[i].1, stocks[i].1.recommendations.value, j);
    } else {
      assert stocks[..|stocks| - 1][i] == stocks[i];
      DetailsComplete(stocks[..|stocks| - 1], i, j);
    }
  }

  /**
   * `validRecommendations` is the sum of the five buckets plus the valid
   * analyses of unrecognised sentiment, which land in no bucket.
   */
  lemma {:induction false} ValidSplit(details: seq<Analysis>)
    ensures Count(details, Valid)
         == Count(details, InBucket(StrongBuy)) + Count(details, InBucket(Buy)) + Count(details, InBucket(Hold))
          + Count(details, InBucket(Sell)) + Count(details, InBucket(StrongSell)) + Count(details, Untallied)
  {
    if |details| > 0 {
      ValidSplit(details[..|details| - 1]);
    }
  }

  /** `accurate` is the sum of the buckets' correct counts. */
  lemma {:induction false} TalliedSplit(details: seq<Analysis>)
    ensures Count(details, Tallied)
         == Count(details, CorrectIn(StrongBuy)) + Count(details, CorrectIn(Buy)) + Count(details, CorrectIn(Hold))
          + Count(details, CorrectIn(Sell)) + Count(details, CorrectIn(StrongSell))
  {
    if |details| > 0 {
      TalliedSplit(details[..|details| - 1]);
    }
  }

  /**
   * The report's counts: in every bucket total equals valid and correct is
   * at most valid; `accurate` is the sum of the correct counts; the buckets'
   * valid counts plus the unrecognised valid ones make `validRecommendations`,
   * which is at most `total`, the number of analyses.
   */
  lemma SummaryCounts(details: seq<Analysis>)
    ensures var r := Summary(details);
      && r.byType.Keys == AllKinds
      && (forall k :: k in r.byType ==> r.byType[k].total == r.byType[k].valid && r.byType[k].correct <= r.byType[k].valid)
      && r.accurate == r.byType[StrongBuy].correct + r.byType[Buy].correct + r.byType[Hold].correct
                     + r.byType[Sell].correct + r.byType[StrongSell].correct
      && r.validRecommendations == r.byType[StrongBuy].valid + r.byType[Buy].valid + r.byType[Hold].valid
                                 + r.byType[Sell].valid + r.byType[StrongSell].valid + Count(details, Untallied)
      && r.accurate <= r.validRecommendations <= r.total == |details|
  {
    forall k | k in AllKinds
      ensures Count(details, CorrectIn(k)) <= Count(details, InBucket(k))
    {
      CountMonotone(details, CorrectIn(k), InBucket(k));
    }
    ValidSplit(details);
    TalliedSplit(details);
    CountMonotone(details, Tallied, Valid);
  }

  /**
   * Over the evaluator's output, `accurate` counts exactly the accurate
   * analyses: an accurate analysis always has a valid period and a
   * recognised sentiment.
   */
  lemma ReportAccurate(stocks: seq<(string, Stock)>)
    ensures var details := Details(stocks);
      Count(details, Tallied) == Count(details, Accurate)
  {
    var details := Details(stocks);
    DetailsRecorded(stocks);
    CountMonotone(details, Tallied, Accurate);
    CountMonotone(details, Accurate, Tallied);
  }
}
