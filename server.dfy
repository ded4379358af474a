/**
 * The FastAPI server's preparation of one stock (`process_stock_data` in
 * app.py): the weekly prices are sorted newest first in place, and each
 * recommendation gets a colour class and three prices matched by date.
 * Dates are day numbers; the ISO date strings of the source compare like them.
 */
module Server {
  import opened Wrappers
  import opened Records
  import opened Sentiments
  import Text
  import opened StableSort

  /** The table of `get_sentiment_class`, keyed by upper-case label. */
  const SentimentClasses: map<string, string> := map[
    "STRONG BUY" := "bg-success",
    "BUY" := "bg-success",
    "HOLD" := "bg-warning text-dark",
    "SELL" := "bg-danger",
    "STRONG SELL" := "bg-danger",
    "UNKNOWN" := "bg-secondary"]

  /** `get_sentiment_class(sentiment)`: a table lookup on the upper-cased text, "bg-secondary" when absent. */
  function GetSentimentClass(sentiment: string): (cls: string)
    ensures Classify(sentiment).None? ==> cls == "bg-secondary"
    ensures Classify(sentiment).Some? ==>
      cls == match GroupOf(Classify(sentiment).value)
             case BuySide => "bg-success"
             case Neutral => "bg-warning text-dark"
             case SellSide => "bg-danger"
  {
    var key := Text.ToUpper(sentiment);
    if key in SentimentClasses then SentimentClasses[key] else "bg-secondary"
  }

  /** The sort key of a weekly price: its date. */
  function Date(p: PricePoint): int {
    p.date
  }

  /** The date conditions of the matching loop. */
  datatype Target = OnOrBefore(day: int) | OnOrAfter(day: int)

  predicate Hits(t: Target, date: int) {
    match t
    case OnOrBefore(d) => date <= d
    case OnOrAfter(d) => date >= d
  }

  /** The index of the first price, in list order, whose date meets the target. */
  function FirstWhere(s: seq<PricePoint>, t: Target): (r: Option<nat>)
    ensures r.Some? ==> r.value < |s| && Hits(t, s[r.value].date)
    ensures r.Some? ==> forall j :: 0 <= j < r.value ==> !Hits(t, s[j].date)
    ensures r.None? ==> forall j :: 0 <= j < |s| ==> !Hits(t, s[j].date)
  {
    if |s| == 0 then None
    else
      var r := FirstWhere(s[..|s| - 1], t);
      if r.Some? then r
      else if Hits(t, s[|s| - 1].date) then Some(|s| - 1)
      else None
  }

  /** Once a prefix holds a hit, longer lists have the same first hit. */
  lemma FirstWherePrefix(s: seq<PricePoint>, n: nat, t: Target)
    requires n <= |s| && FirstWhere(s[..n], t).Some?
    ensures FirstWhere(s, t) == FirstWhere(s[..n], t)
  {
    var i := FirstWhere(s[..n], t).value;
    assert s[..n][i] == s[i];
  }

  /** `float(price['close'])` fails for the first hit: the recommendation is dropped. */
  predicate Fails(s: seq<PricePoint>, i: Option<nat>) {
    i.Some? && i.value < |s| && s[i.value].close.None?
  }

  function CloseOf(s: seq<PricePoint>, i: Option<nat>): Option<real> {
    if i.Some? && i.value < |s| then s[i.value].close else None
  }

  /** The outcome of the matching loop: an exception, or the three prices (None where nothing matched). */
  datatype Scan = ConversionError | Found(atReport: Option<real>, before: Option<real>, after: Option<real>)

  /** What the matching loop yields: each slot holds the first price in list order that meets its condition. */
  function ScanSpec(s: seq<PricePoint>, recDay: int): Scan {
    var atReport := FirstWhere(s, OnOrBefore(recDay));
    var before := FirstWhere(s, OnOrBefore(recDay - 90));
    var after := FirstWhere(s, OnOrAfter(recDay + 90));
    if Fails(s, atReport) || Fails(s, before) || Fails(s, after) then ConversionError
    else Found(CloseOf(s, atReport), CloseOf(s, before), CloseOf(s, after))
  }

  /** Python truthiness of a float that may be None. */
  predicate Truthy(x: Option<real>) {
    x.Some? && x.value != 0.0
  }

  /** The state of one slot after scanning a prefix without an exception. */
  predicate SlotAfter(s: seq<PricePoint>, t: Target, slot: Option<real>) {
    !Fails(s, FirstWhere(s, t)) && slot == CloseOf(s, FirstWhere(s, t))
  }

  /** One more price: the slot is filled at its first hit and kept afterwards. */
  lemma SlotStep(s: seq<PricePoint>, i: nat, t: Target, slot: Option<real>)
    requires i < |s| && SlotAfter(s[..i], t, slot)
    ensures slot.None? && Hits(t, s[i].date) ==> FirstWhere(s[..i + 1], t) == Some(i)
    ensures slot.None? && Hits(t, s[i].date) && s[i].close.Some? ==> SlotAfter(s[..i + 1], t, s[i].close)
    ensures !(slot.None? && Hits(t, s[i].date)) ==> SlotAfter(s[..i + 1], t, slot)
  {
    assert s[..i + 1][..i] == s[..i];
    var r := FirstWhere(s[..i], t);
    if r.Some? {
      assert s[..i + 1][r.value] == s[..i][r.value];
    }
  }

  /** When the prefix already settles a slot, the whole list agrees. */
  lemma SlotSettled(s: seq<PricePoint>, i: nat, t: Target, slot: Option<real>)
    requires i <= |s| && SlotAfter(s[..i], t, slot) && slot.Some?
    ensures SlotAfter(s, t, slot)
  {
    FirstWherePrefix(s, i, t);
    var r := FirstWhere(s[..i], t).value;
    assert s[..i][r] == s[r];
  }

  /**
   * The loop over the sorted prices for one recommendation: fill each slot
   * at its first hit, converting the close; stop once all three are truthy.
   */
  method MatchPrices(prices: array<PricePoint>, recDay: int) returns (scan: Scan)
    ensures scan == ScanSpec(prices[..], recDay)
  {
    var atReportT, beforeT, afterT := OnOrBefore(recDay), OnOrBefore(recDay - 90), OnOrAfter(recDay + 90);
    var priceAtRec: Option<real> := None;
    var price3mBefore: Option<real> := None;
    var price3mAfter: Option<real> := None;
    ghost var s := prices[..];
    var i := 0;
    while i < prices.Length
      invariant 0 <= i <= prices.Length
      invariant SlotAfter(s[..i], atReportT, priceAtRec)
      invariant SlotAfter(s[..i], beforeT, price3mBefore)
      invariant SlotAfter(s[..i], afterT, price3mAfter)
    {
      var price := prices[i];
      SlotStep(s, i, atReportT, priceAtRec);
      SlotStep(s, i, beforeT, price3mBefore);
      SlotStep(s, i, afterT, price3mAfter);
      if price.date <= recDay && priceAtRec.None? {
        if price.close.None? {
          FirstWherePrefix(s, i + 1, atReportT);
          return ConversionError;
        }
        priceAtRec := price.close;
      }
      if price.date <= recDay - 90 && price3mBefore.None? {
        if price.close.None? {
          FirstWherePrefix(s, i + 1, beforeT);
          return ConversionError;
        }
        price3mBefore := price.close;
      }
      if price.date >= recDay + 90 && price3mAfter.None? {
        if price.close.None? {
          FirstWherePrefix(s, i + 1, afterT);
          return ConversionError;
        }
        price3mAfter := price.close;
      }
      if Truthy(priceAtRec) && Truthy(price3mBefore) && Truthy(price3mAfter) {
        SlotSettled(s, i + 1, atReportT, priceAtRec);
        SlotSettled(s, i + 1, beforeT, price3mBefore);
        SlotSettled(s, i + 1, afterT, price3mAfter);
        break;
      }
      i := i + 1;
    }
    if i == prices.Length {
      assert s[..i] == s;
    }
    scan := Found(priceAtRec, price3mBefore, price3mAfter);
  }

  /** A recommendation as returned to the browser: the original fields plus the computed ones. */
  datatype Processed = Processed(
    original: Recommendation,
    sentimentClass: string,
    priceAtReport: real,
    price3mBefore: Option<real>,
    price3mAfter: Option<real>,
    date3mBefore: int,
    date3mAfter: int)

  /**
   * One iteration of the loop over the recommendations: None when the
   * date does not parse, a close does not convert, no truthy price on or
   * before the date exists, or the sentiment is missing.
   */
  function ProcessRecommendation(s: seq<PricePoint>, rec: Recommendation): Option<Processed> {
    match rec.day
    case None => None
    case Some(day) =>
      match ScanSpec(s, day)
      case ConversionError => None
      case Found(atReport, before, after) =>
        if !Truthy(atReport) || rec.sentiment.None? then None
        else Some(Processed(rec, GetSentimentClass(rec.sentiment.value), atReport.value, before, after, day - 90, day + 90))
  }

  /** `processed_recommendations` before the final sort. */
  function ProcessAll(s: seq<PricePoint>, recs: seq<Recommendation>): (ps: seq<Processed>)
    ensures |ps| <= |recs|
  {
    if |recs| == 0 then []
    else
      var rest := ProcessAll(s, recs[..|recs| - 1]);
      match ProcessRecommendation(s, recs[|recs| - 1])
      case None => rest
      case Some(p) => rest + [p]
  }

  /** One more recommendation appends its processing, if any. */
  lemma ProcessAllStep(s: seq<PricePoint>, recs: seq<Recommendation>, j: nat)
    requires j < |recs|
    ensures ProcessAll(s, recs[..j + 1]) ==
      ProcessAll(s, recs[..j]) + match ProcessRecommendation(s, recs[j]) case None => [] case Some(p) => [p]
  {
    assert recs[..j + 1][..j] == recs[..j];
  }

  /** The sort key of a processed recommendation: its date. */
  function RecDay(p: Processed): int {
    match p.original.day
    case None => 0
    case Some(d) => d
  }

  /**
   * The input fields `process_stock_data` reads besides the price list;
   * None stands for a missing key. `sector` is read from `company_info`.
   */
  datatype StockData = StockData(
    ticker: Option<string>,
    companyName: Option<string>,
    market: Option<string>,
    sector: Option<string>,
    recommendations: Option<seq<Recommendation>>)

  /** The result dictionary, without the passed-through quote and fundamentals. */
  datatype ProcessedStock = ProcessedStock(
    ticker: string,
    companyName: string,
    market: string,
    sector: string,
    recommendations: seq<Processed>,
    weeklyPrices: seq<PricePoint>)

  function OrNA(x: Option<string>): string {
    match x
    case None => "N/A"
    case Some(v) => v
  }

  /** An empty price list or an empty or missing recommendation list returns None before anything is sorted. */
  predicate Rejected(data: StockData, prices: seq<PricePoint>) {
    |prices| == 0 || data.recommendations.None? || |data.recommendations.value| == 0
  }

  /** The value `process_stock_data` returns for the given input. */
  function ProcessStock(data: StockData, prices: seq<PricePoint>): Option<ProcessedStock> {
    if Rejected(data, prices) || data.ticker.None? then None
    else
      var sorted := SortDesc(prices, Date);
      var processed := ProcessAll(sorted, data.recommendations.value);
      Some(ProcessedStock(data.ticker.value, OrNA(data.companyName), OrNA(data.market), OrNA(data.sector),
                          SortDesc(processed, RecDay), sorted))
  }

  /**
   * `process_stock_data(stock_data)`. The price list is sorted in place
   * (the caller's list changes too); a missing ticker fails only when the
   * result is built, so the list is sorted even then.
   */
  method ProcessStockData(data: StockData, prices: array<PricePoint>) returns (r: Option<ProcessedStock>)
    modifies prices
    ensures r == ProcessStock(data, old(prices[..]))
    ensures prices[..] == if Rejected(data, old(prices[..])) then old(prices[..]) else SortDesc(old(prices[..]), Date)
  {
    if prices.Length == 0 || data.recommendations.None? || |data.recommendations.value| == 0 {
      return None;
    }
    var recs := data.recommendations.value;
    var sorted := SortDesc(prices[..], Date);
    forall i | 0 <= i < prices.Length {
      prices[i] := sorted[i];
    }
    assert prices[..] == sorted;
    var processed: seq<Processed> := [];
    for j := 0 to |recs|
      invariant processed == ProcessAll(sorted, recs[..j])
      invariant prices[..] == sorted
    {
      var rec := recs[j];
      ProcessAllStep(sorted, recs, j);
      if rec.day.Some? {
        var scan := MatchPrices(prices, rec.day.value);
        if scan.Found? && Truthy(scan.atReport) && rec.sentiment.Some? {
          var day := rec.day.value;
          var entry := Processed(rec, GetSentimentClass(rec.sentiment.value), scan.atReport.value,
                                 scan.before, scan.after, day - 90, day + 90);
          processed := processed + [entry];
        }
      }
    }
    assert recs[..|recs|] == recs;
    if data.ticker.None? {
      return None;
    }
    r := Some(ProcessedStock(data.ticker.value, OrNA(data.companyName), OrNA(data.market), OrNA(data.sector),
                             SortDesc(processed, RecDay), sorted));
  }

  /** In a list sorted newest first, the first price on or before d is the newest such price. */
  lemma FirstOnOrBeforeIsNewest(s: seq<PricePoint>, d: int)
    requires SortedDesc(s, Date)
    ensures var r := FirstWhere(s, OnOrBefore(d));
      r.Some? ==> forall j :: 0 <= j < |s| && s[j].date <= d ==> s[j].date <= s[r.value].date
  {
  }

  /**
   * The matched prices of a processed recommendation: the price at report
   * is the close of the newest price on or before the date and the price
   * three months before is that of the newest price at least 90 days earlier.
   */
  lemma ProcessedPrices(s: seq<PricePoint>, rec: Recommendation)
    requires SortedDesc(s, Date)
    requires ProcessRecommendation(s, rec).Some?
    ensures var p := ProcessRecommendation(s, rec).value;
      var day := rec.day.value;
      && p.priceAtReport != 0.0
      && p.sentimentClass == GetSentimentClass(rec.sentiment.value)
      && (exists i :: 0 <= i < |s| && s[i].date <= day && s[i].close == Some(p.priceAtReport) &&
            (forall j :: 0 <= j < |s| && s[j].date <= day ==> s[j].date <= s[i].date))
      && (p.price3mBefore.Some? ==>
            (exists i :: 0 <= i < |s| && s[i].date <= day - 90 && s[i].close == p.price3mBefore &&
              (forall j :: 0 <= j < |s| && s[j].date <= day - 90 ==> s[j].date <= s[i].date)))
      && (p.price3mBefore.None? <==> forall j :: 0 <= j < |s| ==> s[j].date > day - 90)
  {
    var day := rec.day.value;
    FirstOnOrBeforeIsNewest(s, day);
    FirstOnOrBeforeIsNewest(s, day - 90);
  }

  /**
   * As written, the "3 months after" slot takes the first price on or after
   * the target in a list sorted newest first: the newest price of all,
   * whenever that one is late enough.
   */
  lemma PriceAfterIsNewest(s: seq<PricePoint>, target: int)
    requires SortedDesc(s, Date) && |s| > 0
    ensures FirstWhere(s, OnOrAfter(target)).Some? <==> s[0].date >= target
    ensures FirstWhere(s, OnOrAfter(target)).Some? ==> FirstWhere(s, OnOrAfter(target)) == Some(0)
  {
  }

  /** The index of the last price, in list order, whose date meets the target. */
  function LastWhere(s: seq<PricePoint>, t: Target): (r: Option<nat>)
    ensures r.Some? ==> r.value < |s| && Hits(t, s[r.value].date)
    ensures r.Some? ==> forall j :: r.value < j < |s| ==> !Hits(t, s[j].date)
    ensures r.None? ==> forall j :: 0 <= j < |s| ==> !Hits(t, s[j].date)
  {
    if |s| == 0 then None
    else if Hits(t, s[|s| - 1].date) then Some(|s| - 1)
    else LastWhere(s[..|s| - 1], t)
  }

  /**
   * The evidently intended "closest after": in a list sorted newest first,
   * the last price on or after the target is the earliest such price.
   */
  lemma LastOnOrAfterIsEarliest(s: seq<PricePoint>, target: int)
    requires SortedDesc(s, Date)
    ensures var r := LastWhere(s, OnOrAfter(target));
      && (r.None? <==> forall j :: 0 <= j < |s| ==> s[j].date < target)
      && (r.Some? ==> (s[r.value].date >= target &&
                       forall j :: 0 <= j < |s| && s[j].date >= target ==> s[r.value].date <= s[j].date))
  {
  }

  /**
   * A recommendation on day d with weekly prices on d + 400, d + 91 and
   * d - 7: it is kept, and its 3-month-after slot holds the d + 400 close,
   * 310 days past the target, where the earliest price after the target is
   * one day past it.
   */
  lemma PriceAfterExample(d: int, rec: Recommendation)
    requires rec.day == Some(d) && rec.sentiment.Some?
    ensures var s := [PricePoint(d + 400, Some(50.0)), PricePoint(d + 91, Some(10.0)), PricePoint(d - 7, Some(30.0))];
      && SortedDesc(s, Date)
      && ScanSpec(s, d) == Found(Some(30.0), None, Some(50.0))
      && ProcessRecommendation(s, rec).Some?
      && ProcessRecommendation(s, rec).value.price3mAfter == Some(50.0)
      && CloseOf(s, LastWhere(s, OnOrAfter(d + 90))) == Some(10.0)
  {
    var s := [PricePoint(d + 400, Some(50.0)), PricePoint(d + 91, Some(10.0)), PricePoint(d - 7, Some(30.0))];
    assert s[..2] == [s[0], s[1]];
    assert s[..2][..1] == [s[0]];
    assert s[..2][..1][..0] == [];
    assert FirstWhere(s, OnOrAfter(d + 90)) == Some(0);
    assert FirstWhere(s, OnOrBefore(d)) == Some(2);
    assert FirstWhere(s, OnOrBefore(d - 90)) == None;
    assert LastWhere(s, OnOrAfter(d + 90)) == Some(1);
  }

  /** Every processed recommendation is the processing of one of the input recommendations. */
  lemma {:induction false} ProcessAllOrigin(s: seq<PricePoint>, recs: seq<Recommendation>, p: Processed)
    requires p in ProcessAll(s, recs)
    ensures exists j :: 0 <= j < |recs| && ProcessRecommendation(s, recs[j]) == Some(p)
  {
    var prefix := recs[..|recs| - 1];
    var last := |recs| - 1;
    if p in ProcessAll(s, prefix) {
      ProcessAllOrigin(s, prefix, p);
      var j :| 0 <= j < |prefix| && ProcessRecommendation(s, prefix[j]) == Some(p);
      assert recs[j] == prefix[j];
    } else {
      assert ProcessRecommendation(s, recs[last]) == Some(p);
    }
  }

  /** Every recommendation that processes is kept: the converse of `ProcessAllOrigin`. */
  lemma {:induction false} ProcessAllComplete(s: seq<PricePoint>, recs: seq<Recommendation>, j: nat)
    requires j < |recs| && ProcessRecommendation(s, recs[j]).Some?
    ensures ProcessRecommendation(s, recs[j]).value in ProcessAll(s, recs)
  {
    var prefix := recs[..|recs| - 1];
    if j < |recs| - 1 {
      assert prefix[j] == recs[j];
      ProcessAllComplete(s, prefix, j);
    }
  }

  /**
   * The result of `process_stock_data`: the prices sorted newest first
   * (a permutation of the input, equal dates in input order) and the
   * recommendations newest first, each the processing of an input one.
   */
  lemma ProcessStockResult(data: StockData, prices: seq<PricePoint>)
    requires ProcessStock(data, prices).Some?
    ensures var r := ProcessStock(data, prices).value;
      && SortedDesc(r.weeklyPrices, Date)
      && multiset(r.weeklyPrices) == multiset(prices)
      && SortedDesc(r.recommendations, RecDay)
      && multiset(r.recommendations) == multiset(ProcessAll(r.weeklyPrices, data.recommendations.value))
      && |r.recommendations| <= |data.recommendations.value|
  {
    var sorted := SortDesc(prices, Date);
    SortDescCorrect(prices, Date);
    SortDescCorrect(ProcessAll(sorted, data.recommendations.value), RecDay);
  }

  /** Each returned recommendation has a truthy price at report and comes from an input recommendation. */
  lemma ProcessStockEntries(data: StockData, prices: seq<PricePoint>, p: Processed)
    requires ProcessStock(data, prices).Some? && p in ProcessStock(data, prices).value.recommendations
    ensures p.priceAtReport != 0.0
    ensures exists j :: (0 <= j < |data.recommendations.value| &&
                         ProcessRecommendation(SortDesc(prices, Date), data.recommendations.value[j]) == Some(p))
  {
    var sorted := SortDesc(prices, Date);
    var processed := ProcessAll(sorted, data.recommendations.value);
    SortDescCorrect(processed, RecDay);
    assert p in multiset(SortDesc(processed, RecDay));
    ProcessAllOrigin(sorted, data.recommendations.value, p);
  }

  /**
   * Every input recommendation whose date parses, whose prices convert, which
   * has a truthy price at report and a sentiment, is among the returned ones.
   */
  lemma ProcessStockComplete(data: StockData, prices: seq<PricePoint>, j: nat)
    requires ProcessStock(data, prices).Some?
    requires j < |data.recommendations.value|
    requires ProcessRecommendation(SortDesc(prices, Date), data.recommendations.value[j]).Some?
    ensures ProcessRecommendation(SortDesc(prices, Date), data.recommendations.value[j]).value
      in ProcessStock(data, prices).value.recommendations
  {
    var sorted := SortDesc(prices, Date);
    var processed := ProcessAll(sorted, data.recommendations.value);
    ProcessAllComplete(sorted, data.recommendations.value, j);
    SortDescCorrect(processed, RecDay);
    assert ProcessRecommendation(sorted, data.recommendations.value[j]).value in multiset(SortDesc(processed, RecDay));
  }
}
