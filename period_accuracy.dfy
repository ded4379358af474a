/**
 * The per-horizon accuracy table of static/js/analytics.js:
 * `displayPeriodAccuracy` counts, for every horizon, the analyses it takes as
 * having a return there and those `determineAccuracy` calls correct, overall
 * and per sentiment string.
 */
module PeriodAccuracy {
  import opened Wrappers
  import opened Sentiments
  import opened Counting
  import opened Evaluator
  import Aggregator

  /**
   * `determineAccuracy(sentiment, return_percent)`. The return arrives as
   * the `toFixed` text, so only an absent one (None) is falsy; "0.00" is
   * compared like any other number.
   */
  function DetermineAccuracy(sentiment: string, r: Option<real>): (ok: bool)
    ensures ok ==> r.Some? && Classify(sentiment).Some?
    ensures r.Some? && Classify(sentiment) == Some(StrongBuy) ==> (ok <==> r.value >= 10.0)
    ensures r.Some? && Classify(sentiment) == Some(Buy) ==> (ok <==> r.value >= 5.0)
    ensures r.Some? && Classify(sentiment) == Some(Hold) ==> (ok <==> (if r.value < 0.0 then -r.value else r.value) < 5.0)
    ensures r.Some? && Classify(sentiment) == Some(Sell) ==> (ok <==> r.value <= -5.0)
    ensures r.Some? && Classify(sentiment) == Some(StrongSell) ==> (ok <==> r.value <= -10.0)
  {
    match r
    case None => false
    case Some(x) =>
      match Classify(sentiment)
      case Some(StrongBuy) => x >= 10.0
      case Some(Buy) => x >= 5.0
      case Some(Hold) => -5.0 < x < 5.0
      case Some(Sell) => x <= -5.0
      case Some(StrongSell) => x <= -10.0
      case None => false
  }

  /**
   * This table is stricter than the evaluator's short-term rule: a return it
   * calls correct is judged correct at 3M and 6M as well.
   */
  lemma DetermineAccuracyShortTerm(sentiment: string, r: real, p: Period)
    requires p.IsShortTerm()
    requires DetermineAccuracy(sentiment, Some(r))
    ensures Judge(Classify(sentiment), p, r) == Some(true)
  {
  }

  /**
   * At the long horizons the two tables disagree in both directions: a 6%
   * gain on a buy is correct here but not a long-term success, and a 7% gain
   * on a hold is a long-term success but not correct here.
   */
  lemma DetermineAccuracyLongTermDiffers()
    ensures DetermineAccuracy("BUY", Some(6.0)) && Judge(Some(Buy), Y1, 6.0) == Some(false)
    ensures !DetermineAccuracy("HOLD", Some(7.0)) && Judge(Some(Hold), Y1, 7.0) == Some(true)
  {
    assert Text.ToUpper("BUY") == "BUY";
    assert Text.ToUpper("HOLD") == "HOLD";
  }

  /** One `byType` entry of a horizon. */
  datatype TypeStat = TypeStat(total: nat, correct: nat)

  /** `periodStats[period]` */
  datatype PeriodStat = PeriodStat(total: nat, correct: nat, byType: map<string, TypeStat>)

  /** `detail.sentiment`, which every analysis of the evaluator carries. */
  function SentimentText(a: Analysis): string {
    match a.sentiment
    case None => ""
    case Some(s) => s
  }

  /** `detail.returns[period]`, with an absent property (`undefined`) as None. */
  function ReturnOf(a: Analysis, p: Period): Option<real> {
    if p in a.returnByPeriod then a.returnByPeriod[p] else None
  }

  /** `return_percent !== null`: true unless the horizon is present and null. */
  predicate CountedAt(p: Period, a: Analysis) {
    !(p in a.returnByPeriod && a.returnByPeriod[p].None?)
  }

  predicate CorrectAt(p: Period, a: Analysis) {
    CountedAt(p, a) && DetermineAccuracy(SentimentText(a), ReturnOf(a, p))
  }

  function Counted(p: Period): Analysis -> bool {
    (a: Analysis) => CountedAt(p, a)
  }

  function Correct(p: Period): Analysis -> bool {
    (a: Analysis) => CorrectAt(p, a)
  }

  function CountedWith(p: Period, s: string): Analysis -> bool {
    (a: Analysis) => CountedAt(p, a) && SentimentText(a) == s
  }

  function CorrectWith(p: Period, s: string): Analysis -> bool {
    (a: Analysis) => CorrectAt(p, a) && SentimentText(a) == s
  }

  /** The sentiments that get a `byType` entry at horizon p, in no particular order. */
  function Keys(details: seq<Analysis>, p: Period): set<string> {
    if |details| == 0 then {}
    else
      var last := details[|details| - 1];
      Keys(details[..|details| - 1], p) + if CountedAt(p, last) then {SentimentText(last)} else {}
  }

  /** A sentiment has an entry exactly when some analysis with it is counted at p. */
  lemma {:induction false} KeysMeaning(details: seq<Analysis>, p: Period, s: string)
    ensures s in Keys(details, p) <==> Count(details, CountedWith(p, s)) > 0
  {
    if |details| > 0 {
      KeysMeaning(details[..|details| - 1], p, s);
    }
  }

  /** What `periodStats[p]` holds after the given analyses. */
  function Stat(details: seq<Analysis>, p: Period): PeriodStat {
    PeriodStat(
      Count(details, Counted(p)),
      Count(details, Correct(p)),
      ByType(details, p))
  }

  /** `periodStats[p].byType`: per sentiment, the counted and the correct analyses. */
  function ByType(details: seq<Analysis>, p: Period): map<string, TypeStat> {
    map s | s in Keys(details, p) :: TypeStat(Count(details, CountedWith(p, s)), Count(details, CorrectWith(p, s)))
  }

  /** At each horizon: correct at most total, total at most the number of analyses, and likewise per sentiment. */
  lemma StatBounds(details: seq<Analysis>, p: Period)
    ensures var st := Stat(details, p);
      && st.correct <= st.total <= |details|
      && (forall s :: s in st.byType ==> 0 < st.byType[s].total <= st.total && st.byType[s].correct <= st.byType[s].total)
  {
    CountMonotone(details, Correct(p), Counted(p));
    forall s | s in Keys(details, p)
      ensures 0 < Count(details, CountedWith(p, s)) <= Count(details, Counted(p))
      ensures Count(details, CorrectWith(p, s)) <= Count(details, CountedWith(p, s))
    {
      KeysMeaning(details, p, s);
      CountMonotone(details, CountedWith(p, s), Counted(p));
      CountMonotone(details, CorrectWith(p, s), CountedWith(p, s));
    }
  }

  /** One more analysis changes the entry of sentiment s only if it is counted with that sentiment. */
  lemma EntrySnoc(details: seq<Analysis>, p: Period, a: Analysis, s: string)
    requires s in Keys(details + [a], p)
    ensures var before := ByType(details, p);
      var t := if s in before then before[s] else TypeStat(0, 0);
      ByType(details + [a], p)[s]
        == if CountedWith(p, s)(a) then TypeStat(t.total + 1, if CorrectWith(p, s)(a) then t.correct + 1 else t.correct) else t
  {
    var ds := details + [a];
    assert ds[..|details|] == details;
    CountSnoc(details, a, CountedWith(p, s));
    CountSnoc(details, a, CorrectWith(p, s));
    if s !in Keys(details, p) {
      KeysMeaning(details, p, s);
      CountMonotone(details, CorrectWith(p, s), CountedWith(p, s));
    }
  }

  /** An analysis not counted at p leaves the entries as they are. */
  lemma ByTypeSnocSkipped(details: seq<Analysis>, p: Period, a: Analysis)
    requires !CountedAt(p, a)
    ensures ByType(details + [a], p) == ByType(details, p)
  {
    var ds := details + [a];
    var before, after := ByType(details, p), ByType(ds, p);
    assert after.Keys == before.Keys by {
      assert ds[..|details|] == details;
    }
    forall s | s in after
      ensures after[s] == before[s]
    {
      EntrySnoc(details, p, a, s);
    }
  }

  /** A counted analysis moves the entry of its own sentiment only. */
  lemma ByTypeSnocCounted(details: seq<Analysis>, p: Period, a: Analysis)
    requires CountedAt(p, a)
    ensures var before := ByType(details, p);
      var key := SentimentText(a);
      var t := if key in before then before[key] else TypeStat(0, 0);
      var ok := DetermineAccuracy(key, ReturnOf(a, p));
      ByType(details + [a], p) == before[key := TypeStat(t.total + 1, if ok then t.correct + 1 else t.correct)]
  {
    var ds := details + [a];
    var before, after := ByType(details, p), ByType(ds, p);
    var key := SentimentText(a);
    var t := if key in before then before[key] else TypeStat(0, 0);
    var ok := DetermineAccuracy(key, ReturnOf(a, p));
    var expected := before[key := TypeStat(t.total + 1, if ok then t.correct + 1 else t.correct)];
    assert after.Keys == expected.Keys by {
      assert ds[..|details|] == details;
    }
    forall s | s in after
      ensures after[s] == expected[s]
    {
      EntrySnoc(details, p, a, s);
    }
  }

  /** One more analysis moves the horizon's counts and its sentiment's entry only. */
  lemma StatSnoc(details: seq<Analysis>, p: Period, a: Analysis)
    ensures !CountedAt(p, a) ==> Stat(details + [a], p) == Stat(details, p)
    ensures CountedAt(p, a) ==>
      var st := Stat(details, p);
      var key := SentimentText(a);
      var t := if key in st.byType then st.byType[key] else TypeStat(0, 0);
      var ok := DetermineAccuracy(key, ReturnOf(a, p));
      Stat(details + [a], p)
        == PeriodStat(st.total + 1, if ok then st.correct + 1 else st.correct,
                      st.byType[key := TypeStat(t.total + 1, if ok then t.correct + 1 else t.correct)])
  {
    CountSnoc(details, a, Counted(p));
    CountSnoc(details, a, Correct(p));
    if CountedAt(p, a) {
      ByTypeSnocCounted(details, p, a);
    } else {
      ByTypeSnocSkipped(details, p, a);
    }
  }

  /**
   * The body of `analysis.details.forEach` for one horizon: count the detail
   * unless its return there is null, and tally it under its sentiment.
   */
  function CountAt(stat: PeriodStat, p: Period, detail: Analysis): PeriodStat {
    if p in detail.returnByPeriod && detail.returnByPeriod[p].None? then stat
    else
      var key := SentimentText(detail);
      var t := if key in stat.byType then stat.byType[key] else TypeStat(0, 0);
      if DetermineAccuracy(key, ReturnOf(detail, p)) then
        PeriodStat(stat.total + 1, stat.correct + 1, stat.byType[key := TypeStat(t.total + 1, t.correct + 1)])
      else
        PeriodStat(stat.total + 1, stat.correct, stat.byType[key := TypeStat(t.total + 1, t.correct)])
  }

  /** `periodStats[p]` built up detail by detail, as the loop does. */
  function Tabulate(details: seq<Analysis>, p: Period): PeriodStat {
    if |details| == 0 then PeriodStat(0, 0, map[])
    else CountAt(Tabulate(details[..|details| - 1], p), p, details[|details| - 1])
  }

  /** The loop's running table is the declarative count of the details seen so far. */
  lemma {:induction false} TabulateCounts(details: seq<Analysis>, p: Period)
    ensures Tabulate(details, p) == Stat(details, p)
  {
    if |details| == 0 {
      assert Keys(details, p) == {};
    } else {
      var prefix := details[..|details| - 1];
      TabulateCounts(prefix, p);
      CountAtStat(prefix, p, details[|details| - 1]);
      assert prefix + [details[|details| - 1]] == details;
    }
  }

  /** One step of the loop body turns the statistics of some details into those of one more. */
  lemma CountAtStat(details: seq<Analysis>, p: Period, a: Analysis)
    ensures CountAt(Stat(details, p), p, a) == Stat(details + [a], p)
  {
    StatSnoc(details, p, a);
  }

  /** The tables of all horizons, those before position k over `next` and the rest over `prev`. */
  function TablesUpTo(prev: seq<Analysis>, next: seq<Analysis>, k: nat): map<Period, PeriodStat> {
    map[M3 := Tabulate(if 0 < k then next else prev, M3),
        M6 := Tabulate(if 1 < k then next else prev, M6),
        Y1 := Tabulate(if 2 < k then next else prev, Y1),
        Y2 := Tabulate(if 3 < k then next else prev, Y2),
        Y5 := Tabulate(if 4 < k then next else prev, Y5)]
  }

  lemma TablesUpToStep(prev: seq<Analysis>, next: seq<Analysis>, k: nat)
    requires k < |Periods|
    ensures TablesUpTo(prev, next, k + 1) == TablesUpTo(prev, next, k)[Periods[k] := Tabulate(next, Periods[k])]
  {
  }

  lemma TablesUpToEntry(prev: seq<Analysis>, next: seq<Analysis>, k: nat, p: Period)
    ensures p in TablesUpTo(prev, next, k)
    ensures TablesUpTo(prev, next, k)[p] == Tabulate(if p.Index() < k then next else prev, p)
  {
    PeriodsComplete(p);
  }

  /**
   * `displayPeriodAccuracy(analysis)` up to the chart: the statistics of
   * every horizon over all the details. A detail without a sentiment would
   * make `toUpperCase` throw; the evaluator never produces one.
   */
  method DisplayPeriodAccuracy(details: seq<Analysis>) returns (periodStats: map<Period, PeriodStat>)
    requires forall i :: 0 <= i < |details| ==> details[i].sentiment.Some?
    ensures forall p: Period :: p in periodStats && periodStats[p] == Stat(details, p)
  {
    periodStats := map p | p in Periods :: PeriodStat(0, 0, map[]);
    assert periodStats == TablesUpTo([], [], 0);
    for i := 0 to |details|
      invariant periodStats == TablesUpTo(details[..i], details[..i], 0)
    {
      var detail := details[i];
      ghost var seen, next := details[..i], details[..i + 1];
      assert next[..i] == seen;
      for k := 0 to |Periods|
        invariant periodStats == TablesUpTo(seen, next, k)
      {
        var p := Periods[k];
        TablesUpToEntry(seen, next, k, p);
        assert p.Index() == k;
        var stat := CountAt(periodStats[p], p, detail);
        TablesUpToStep(seen, next, k);
        periodStats := periodStats[p := stat];
      }
      assert TablesUpTo(seen, next, |Periods|) == TablesUpTo(next, next, 0) by {
        forall p | p in Periods
          ensures TablesUpTo(seen, next, |Periods|)[p] == TablesUpTo(next, next, 0)[p]
        {
          assert p.Index() < |Periods| by { PeriodsComplete(p); }
        }
      }
    }
    assert details[..|details|] == details;
    forall p: Period
      ensures p in periodStats && periodStats[p] == Stat(details, p)
    {
      TablesUpToEntry(details, details, 0, p);
      TabulateCounts(details, p);
    }
  }

  /** A horizon with an actual return: what the `!== null` test evidently means to select. */
  predicate ResolvedAt(p: Period, a: Analysis) {
    p in a.returnByPeriod && a.returnByPeriod[p].Some?
  }

  function Resolved(p: Period): Analysis -> bool {
    (a: Analysis) => ResolvedAt(p, a)
  }

  function Errored(): Analysis -> bool {
    (a: Analysis) => a.error.Some?
  }

  function ResolvedWith(p: Period, s: string): Analysis -> bool {
    (a: Analysis) => ResolvedAt(p, a) && SentimentText(a) == s
  }

  function ResolvedCorrectWith(p: Period, s: string): Analysis -> bool {
    (a: Analysis) => ResolvedAt(p, a) && CorrectAt(p, a) && SentimentText(a) == s
  }

  /** The sentiments of the analyses with a return at p. */
  function ResolvedKeys(details: seq<Analysis>, p: Period): set<string> {
    set i | 0 <= i < |details| && ResolvedAt(p, details[i]) :: SentimentText(details[i])
  }

  /**
   * The horizon's count restricted to analyses with a return there, overall
   * and per sentiment: each entry counts at least one analysis, and no
   * entry exceeds the overall count.
   */
  function ResolvedStat(details: seq<Analysis>, p: Period): (st: PeriodStat)
    ensures st.correct <= st.total <= |details|
    ensures st.byType.Keys == ResolvedKeys(details, p)
    ensures forall s :: s in st.byType ==>
      0 < st.byType[s].total <= st.total && st.byType[s].correct <= st.byType[s].total
  {
    var correct := (a: Analysis) => ResolvedAt(p, a) && CorrectAt(p, a);
    CountMonotone(details, correct, Resolved(p));
    var byType := map s | s in ResolvedKeys(details, p) ::
      TypeStat(Count(details, ResolvedWith(p, s)), Count(details, ResolvedCorrectWith(p, s)));
    ResolvedEntries(details, p);
    PeriodStat(Count(details, Resolved(p)), Count(details, correct), byType)
  }

  /** Each per-sentiment entry of the corrected count lies within the overall count. */
  lemma ResolvedEntries(details: seq<Analysis>, p: Period)
    ensures forall s :: s in ResolvedKeys(details, p) ==>
      0 < Count(details, ResolvedWith(p, s)) <= Count(details, Resolved(p))
      && Count(details, ResolvedCorrectWith(p, s)) <= Count(details, ResolvedWith(p, s))
  {
    forall s | s in ResolvedKeys(details, p)
      ensures 0 < Count(details, ResolvedWith(p, s)) <= Count(details, Resolved(p))
      ensures Count(details, ResolvedCorrectWith(p, s)) <= Count(details, ResolvedWith(p, s))
    {
      var i :| 0 <= i < |details| && ResolvedAt(p, details[i]) && SentimentText(details[i]) == s;
      CountPositive(details, ResolvedWith(p, s), i);
      CountMonotone(details, ResolvedWith(p, s), Resolved(p));
      CountMonotone(details, ResolvedCorrectWith(p, s), ResolvedWith(p, s));
    }
  }

  /**
   * As written: an analysis without an initial price has an empty `returns`
   * object, so `returns[period]` is `undefined`, which is `!== null`; it is
   * counted at every horizon, and never correct.
   */
  lemma UnpricedCounted(ticker: string, rec: Records.Recommendation, sentiment: Option<string>, p: Period)
    ensures var a := Unpriced(ticker, rec, sentiment);
      CountedAt(p, a) && !ResolvedAt(p, a) && !CorrectAt(p, a)
  {
  }

  /** A single unpriced buy makes every horizon report one call, none correct, with no return anywhere. */
  lemma UnpricedCountedExample(p: Period)
    ensures var a := Unpriced("ACME", Records.Recommendation("2024-01-02", Some(0), Some("BUY")), Some("BUY"));
      && Stat([a], p).total == 1 && Stat([a], p).correct == 0
      && ResolvedStat([a], p).total == 0
      && !a.hasValidPeriod
  {
    var a := Unpriced("ACME", Records.Recommendation("2024-01-02", Some(0), Some("BUY")), Some("BUY"));
    UnpricedCounted("ACME", Records.Recommendation("2024-01-02", Some(0), Some("BUY")), Some("BUY"), p);
    assert [a][..0] == [];
  }

  /**
   * Over the evaluator's details the as-written total at a horizon is the
   * corrected total plus the number of unpriced analyses; the corrected total
   * never exceeds `validRecommendations`.
   */
  lemma PeriodTotals(stocks: seq<(string, Records.Stock)>, p: Period)
    ensures var details := Aggregator.Details(stocks);
      && Stat(details, p).total == ResolvedStat(details, p).total + Count(details, Errored())
      && ResolvedStat(details, p).total <= Count(details, Aggregator.Valid)
  {
    var details := Aggregator.Details(stocks);
    Aggregator.DetailsRecorded(stocks);
    CountSplit(details, Counted(p), Resolved(p), Errored());
    CountMonotone(details, Resolved(p), Aggregator.Valid);
  }
}
