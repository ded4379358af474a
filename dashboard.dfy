/**
 * The browser dashboard's helpers: sentiment badge classes and marker
 * colours, the colour class of a return, the filter applied to the stock
 * list and the option lists of the market and sector filters.
 */
module Dashboard {
  import opened Wrappers
  import opened Records
  import opened Sentiments
  import Text
  import Server

  /**
   * The `switch (sentiment?.toUpperCase())` that `getSentimentClass` and
   * `getSentimentColor` share: the colour family of the sentiment, None for
   * the default branch.
   */
  function SwitchGroup(sentiment: Option<string>): (g: Option<Group>)
    ensures sentiment.None? || Classify(sentiment.value).None? <==> g.None?
    ensures sentiment.Some? && Classify(sentiment.value).Some? ==> g == Some(GroupOf(Classify(sentiment.value).value))
  {
    match sentiment
    case None => None
    case Some(s) =>
      var key := Text.ToUpper(s);
      if key == "STRONG BUY" || key == "BUY" then Some(BuySide)
      else if key == "HOLD" then Some(Neutral)
      else if key == "SELL" || key == "STRONG SELL" then Some(SellSide)
      else None
  }

  /** `getSentimentClass(sentiment)`: the badge class; a missing sentiment falls to the default. */
  function GetSentimentClass(sentiment: Option<string>): (cls: string)
    ensures sentiment.None? || Classify(sentiment.value).None? ==> cls == "bg-secondary text-white"
    ensures sentiment.Some? && Classify(sentiment.value).Some? ==>
      cls == match GroupOf(Classify(sentiment.value).value)
             case BuySide => "bg-success text-white"
             case Neutral => "bg-warning"
             case SellSide => "bg-danger text-white"
  {
    match SwitchGroup(sentiment)
    case None => "bg-secondary text-white"
    case Some(BuySide) => "bg-success text-white"
    case Some(Neutral) => "bg-warning"
    case Some(SellSide) => "bg-danger text-white"
  }

  /** `getSentimentColor(sentiment)`: the chart marker colour. */
  function GetSentimentColor(sentiment: Option<string>): (colour: string)
    ensures sentiment.None? || Classify(sentiment.value).None? ==> colour == "#6c757d"
    ensures sentiment.Some? && Classify(sentiment.value).Some? ==>
      colour == match GroupOf(Classify(sentiment.value).value)
                case BuySide => "#198754"
                case Neutral => "#ffc107"
                case SellSide => "#dc3545"
  {
    match SwitchGroup(sentiment)
    case None => "#6c757d"
    case Some(BuySide) => "#198754"
    case Some(Neutral) => "#ffc107"
    case Some(SellSide) => "#dc3545"
  }

  /** Badges and markers group sentiments alike: two sentiments share a class exactly when they share a colour. */
  lemma ClassMatchesColour(a: Option<string>, b: Option<string>)
    ensures GetSentimentClass(a) == GetSentimentClass(b) <==> GetSentimentColor(a) == GetSentimentColor(b)
  {
    var ka := if a.Some? then Classify(a.value) else None;
    var kb := if b.Some? then Classify(b.value) else None;
    if ka.Some? && kb.Some? {
      assert GetSentimentClass(a) == GetSentimentClass(b) <==> GroupOf(ka.value) == GroupOf(kb.value);
    }
  }

  /** The badge class ignores letter case. */
  lemma SentimentClassIgnoresCase(s: string)
    ensures GetSentimentClass(Some(Text.ToUpper(s))) == GetSentimentClass(Some(s))
    ensures GetSentimentColor(Some(Text.ToUpper(s))) == GetSentimentColor(Some(s))
  {
    Text.ToUpperIdempotent(s);
  }

  /** The dashboard's badge classes and the server's `get_sentiment_class` draw the same distinctions. */
  lemma SentimentClassesAgree(a: string, b: string)
    ensures GetSentimentClass(Some(a)) == GetSentimentClass(Some(b)) <==>
            Server.GetSentimentClass(a) == Server.GetSentimentClass(b)
  {
    var ka, kb := Classify(a), Classify(b);
    if ka.Some? && kb.Some? {
      assert GetSentimentClass(Some(a)) == GetSentimentClass(Some(b)) <==> GroupOf(ka.value) == GroupOf(kb.value);
      assert Server.GetSentimentClass(a) == Server.GetSentimentClass(b) <==> GroupOf(ka.value) == GroupOf(kb.value);
    }
  }

  /**
   * `getReturnClass(changePercent)`. `parsed` is `parseFloat(changePercent)`,
   * None when that is NaN: "N/A" and unparsable text are muted, a
   * non-negative change green and a negative one red.
   */
  function GetReturnClass(changePercent: string, parsed: Option<real>): (cls: string)
    ensures cls == "text-muted" <==> changePercent == "N/A" || parsed.None?
    ensures cls == "text-success" <==> changePercent != "N/A" && parsed.Some? && parsed.value >= 0.0
    ensures cls == "text-danger" <==> changePercent != "N/A" && parsed.Some? && parsed.value < 0.0
  {
    if changePercent == "N/A" then "text-muted"
    else if parsed.None? then "text-muted"
    else if parsed.value >= 0.0 then "text-success"
    else "text-danger"
  }

  /** A larger change never gets a worse class. */
  lemma ReturnClassMonotone(text1: string, x: real, text2: string, y: real)
    requires text1 != "N/A" && text2 != "N/A" && x <= y
    ensures GetReturnClass(text1, Some(x)) == "text-success" ==> GetReturnClass(text2, Some(y)) == "text-success"
    ensures GetReturnClass(text2, Some(y)) == "text-danger" ==> GetReturnClass(text1, Some(x)) == "text-danger"
  {
  }

  /** A JavaScript string is truthy when it is present and not empty. */
  predicate Present(field: Option<string>) {
    field.Some? && field.value != ""
  }

  /** `stock.recommendations?.[0]?.sentiment`. */
  function FirstSentiment(stock: Stock): Option<string> {
    match stock.recommendations
    case None => None
    case Some(recs) => if |recs| == 0 then None else recs[0].sentiment
  }

  /** `field?.toLowerCase().includes(term)`: false when the field is missing. */
  predicate FieldHas(field: Option<string>, term: string) {
    field.Some? && Text.Contains(Text.ToLower(field.value), term)
  }

  /** The search condition for a lower-cased term: empty, or found in one of the five fields. */
  predicate SearchMatch(stock: Stock, term: string) {
    term == ""
    || FieldHas(stock.ticker, term)
    || FieldHas(stock.companyName, term)
    || FieldHas(stock.sector, term)
    || FieldHas(stock.market, term)
    || FieldHas(FirstSentiment(stock), term)
  }

  /** The predicate passed to `.filter` in `applyFilters`; the search box is lower-cased first. */
  predicate Matches(stock: Stock, market: string, sector: string, search: string) {
    && (market == "" || stock.market == Some(market))
    && (sector == "" || stock.sector == Some(sector))
    && SearchMatch(stock, Text.ToLower(search))
  }

  /** `s.filter(f)`: the elements satisfying f, in their original order. */
  function Filter<T>(s: seq<T>, f: T -> bool): (r: seq<T>)
    ensures |r| <= |s|
    ensures forall i :: 0 <= i < |r| ==> f(r[i])
    ensures forall i :: 0 <= i < |s| && f(s[i]) ==> s[i] in r
  {
    if |s| == 0 then []
    else
      var rest := Filter(s[..|s| - 1], f);
      assert forall i :: 0 <= i < |s| - 1 ==> s[..|s| - 1][i] == s[i];
      if f(s[|s| - 1]) then rest + [s[|s| - 1]] else rest
  }

  /** Strictly increasing positions. */
  predicate Increasing(idx: seq<nat>) {
    forall a, b :: 0 <= a < b < |idx| ==> idx[a] < idx[b]
  }

  /** The positions of the elements satisfying f, in increasing order. */
  function Positions<T>(s: seq<T>, f: T -> bool): seq<nat> {
    if |s| == 0 then []
    else
      var rest := Positions(s[..|s| - 1], f);
      if f(s[|s| - 1]) then rest + [|s| - 1] else rest
  }

  lemma {:induction false} PositionsIncreasing<T>(s: seq<T>, f: T -> bool)
    ensures Increasing(Positions(s, f))
    ensures forall k :: 0 <= k < |Positions(s, f)| ==> Positions(s, f)[k] < |s|
  {
    if |s| > 0 {
      PositionsIncreasing(s[..|s| - 1], f);
    }
  }

  lemma {:induction false} PositionsSelect<T>(s: seq<T>, f: T -> bool)
    ensures |Positions(s, f)| == |Filter(s, f)|
    ensures forall k :: 0 <= k < |Positions(s, f)| ==> Positions(s, f)[k] < |s| && Filter(s, f)[k] == s[Positions(s, f)[k]]
  {
    if |s| > 0 {
      var n := |s| - 1;
      var prefix := s[..n];
      PositionsSelect(prefix, f);
      PositionsIncreasing(prefix, f);
      var p, r := Positions(s, f), Filter(s, f);
      var pp, rp := Positions(prefix, f), Filter(prefix, f);
      forall k | 0 <= k < |p|
        ensures p[k] < |s| && r[k] == s[p[k]]
      {
        if k < |pp| {
          assert p[k] == pp[k] && r[k] == rp[k] && prefix[pp[k]] == s[pp[k]];
        }
      }
    }
  }

  lemma {:induction false} PositionsComplete<T>(s: seq<T>, f: T -> bool, i: nat)
    requires i < |s| && f(s[i])
    ensures i in Positions(s, f)
  {
    var n := |s| - 1;
    if i < n {
      assert s[..n][i] == s[i];
      PositionsComplete(s[..n], f, i);
    }
  }

  /**
   * The filtered list is an order-preserving selection: the kept elements sit
   * at increasing positions of the input, and every satisfying position is kept.
   */
  lemma FilterSelects<T>(s: seq<T>, f: T -> bool) returns (idx: seq<nat>)
    ensures |idx| == |Filter(s, f)| && Increasing(idx)
    ensures forall k :: 0 <= k < |idx| ==> idx[k] < |s| && Filter(s, f)[k] == s[idx[k]]
    ensures forall i :: 0 <= i < |s| && f(s[i]) ==> i in idx
  {
    idx := Positions(s, f);
    PositionsIncreasing(s, f);
    PositionsSelect(s, f);
    forall i | 0 <= i < |s| && f(s[i])
      ensures i in idx
    {
      PositionsComplete(s, f, i);
    }
  }

  /** The stocks `applyFilters` keeps, in their original order. */
  function ApplyFilters(stocks: seq<Stock>, market: string, sector: string, search: string): (r: seq<Stock>)
    ensures |r| <= |stocks|
    ensures forall i :: 0 <= i < |r| ==> Matches(r[i], market, sector, search)
    ensures forall i :: 0 <= i < |stocks| && Matches(stocks[i], market, sector, search) ==> stocks[i] in r
  {
    Filter(stocks, (stock: Stock) => Matches(stock, market, sector, search))
  }

  /**
   * `applyFilters` keeps an order-preserving selection of the stocks: the
   * kept ones sit at increasing positions, and every matching position is kept.
   */
  lemma ApplyFiltersSelects(stocks: seq<Stock>, market: string, sector: string, search: string)
    returns (idx: seq<nat>)
    ensures var r := ApplyFilters(stocks, market, sector, search);
      && |idx| == |r| && Increasing(idx)
      && (forall k :: 0 <= k < |idx| ==> idx[k] < |stocks| && r[k] == stocks[idx[k]])
      && (forall i :: 0 <= i < |stocks| && Matches(stocks[i], market, sector, search) ==> i in idx)
  {
    idx := FilterSelects(stocks, (stock: Stock) => Matches(stock, market, sector, search));
  }

  /** `hay.includes(a + b)` implies `hay.includes(a)`. */
  lemma {:induction false} ContainsPrefix(hay: string, a: string, b: string)
    requires Text.Contains(hay, a + b)
    ensures Text.Contains(hay, a)
    decreases |hay|
  {
    if !(a + b <= hay) {
      ContainsPrefix(hay[1..], a, b);
    }
  }

  lemma {:induction false} ToLowerConcat(a: string, b: string)
    ensures Text.ToLower(a + b) == Text.ToLower(a) + Text.ToLower(b)
  {
    if |a| > 0 {
      assert (a + b)[0] == a[0] && (a + b)[1..] == a[1..] + b;
      ToLowerConcat(a[1..], b);
      calc {
        Text.ToLower(a + b);
        [Text.LowerChar(a[0])] + Text.ToLower(a[1..] + b);
        [Text.LowerChar(a[0])] + (Text.ToLower(a[1..]) + Text.ToLower(b));
        ([Text.LowerChar(a[0])] + Text.ToLower(a[1..])) + Text.ToLower(b);
      }
    } else {
      assert a + b == b;
    }
  }

  /** Typing more characters into the search box only narrows the result. */
  lemma SearchNarrows(stock: Stock, market: string, sector: string, search: string, more: string)
    requires Matches(stock, market, sector, search + more)
    ensures Matches(stock, market, sector, search)
  {
    var a, b := Text.ToLower(search), Text.ToLower(more);
    ToLowerConcat(search, more);
    if a != "" {
      if FieldHas(stock.ticker, a + b) { ContainsPrefix(Text.ToLower(stock.ticker.value), a, b); }
      if FieldHas(stock.companyName, a + b) { ContainsPrefix(Text.ToLower(stock.companyName.value), a, b); }
      if FieldHas(stock.sector, a + b) { ContainsPrefix(Text.ToLower(stock.sector.value), a, b); }
      if FieldHas(stock.market, a + b) { ContainsPrefix(Text.ToLower(stock.market.value), a, b); }
      if FieldHas(FirstSentiment(stock), a + b) { ContainsPrefix(Text.ToLower(FirstSentiment(stock).value), a, b); }
    }
  }

  function MarketOf(stock: Stock): Option<string> {
    stock.market
  }

  function SectorOf(stock: Stock): Option<string> {
    stock.sector
  }

  /** The set of present, non-empty values of one field over the stocks. */
  function Collect(stocks: seq<Stock>, field: Stock -> Option<string>): (r: set<string>)
    ensures forall x :: x in r <==> exists i :: 0 <= i < |stocks| && field(stocks[i]) == Some(x) && x != ""
  {
    if |stocks| == 0 then {}
    else
      var prefix := stocks[..|stocks| - 1];
      var rest := Collect(prefix, field);
      assert forall i :: 0 <= i < |prefix| ==> prefix[i] == stocks[i];
      var f := field(stocks[|stocks| - 1]);
      if Present(f) then rest + {f.value} else rest
  }

  /** Ascending without repeats, in the code-unit order of the default `sort()`. */
  predicate StrictlyAscending(s: seq<string>) {
    forall a, b :: 0 <= a < b < |s| ==> Text.LexLess(s[a], s[b])
  }

  /** `[...set].sort()`: the elements of the set in ascending order. */
  method SortStrings(s: set<string>) returns (r: seq<string>)
    ensures StrictlyAscending(r)
    ensures forall x :: x in r <==> x in s
  {
    r := [];
    var rest := s;
    while rest != {}
      invariant forall x :: x in s <==> x in r || x in rest
      invariant forall x :: x in r ==> x !in rest
      invariant StrictlyAscending(r)
      invariant forall a, x :: 0 <= a < |r| && x in rest ==> Text.LexLess(r[a], x)
      decreases |rest|
    {
      ghost var least := Text.LeastExists(rest);
      var m :| m in rest && Text.IsLeast(m, rest);
      assert forall x :: x in rest && x != m ==> Text.LexLess(m, x) by {
        assert Text.IsLeast(m, rest);
      }
      forall a, x | 0 <= a < |r| && x in rest - {m}
        ensures Text.LexLess(r[a], x)
      {
        Text.LexLessTransitive(r[a], m, x);
      }
      r := r + [m];
      rest := rest - {m};
    }
  }

  /**
   * `initializeFilters(data)` without the DOM: the options of the market
   * and sector filters, each the distinct non-empty values in ascending order.
   */
  method InitializeFilters(stocks: seq<Stock>) returns (markets: seq<string>, sectors: seq<string>)
    ensures StrictlyAscending(markets) && StrictlyAscending(sectors)
    ensures forall x :: x in markets <==> exists i :: 0 <= i < |stocks| && stocks[i].market == Some(x) && x != ""
    ensures forall x :: x in sectors <==> exists i :: 0 <= i < |stocks| && stocks[i].sector == Some(x) && x != ""
  {
    var marketSet: set<string> := {};
    var sectorSet: set<string> := {};
    for i := 0 to |stocks|
      invariant marketSet == Collect(stocks[..i], MarketOf)
      invariant sectorSet == Collect(stocks[..i], SectorOf)
    {
      var stock := stocks[i];
      assert stocks[..i + 1][..i] == stocks[..i];
      if Present(stock.market) {
        marketSet := marketSet + {stock.market.value};
      }
      if Present(stock.sector) {
        sectorSet := sectorSet + {stock.sector.value};
      }
    }
    assert stocks[..|stocks|] == stocks;
    markets := SortStrings(marketSet);
    sectors := SortStrings(sectorSet);
    assert forall i :: 0 <= i < |stocks| ==> MarketOf(stocks[i]) == stocks[i].market && SectorOf(stocks[i]) == stocks[i].sector;
  }
}
