/**
 * The stock records exchanged between the server and the browser, as far as
 * the modelled code reads them. Calendar dates are day numbers; ISO date
 * strings compare like the day numbers they denote.
 */
module Records {
  import opened Wrappers

  /** One weekly closing price. `close` is None when it is missing; in the browser, a close that is not a number counts as missing too. */
  datatype PricePoint = PricePoint(date: int, close: Option<real>)

  /**
   * One dated recommendation. `date` is the raw text ("" when missing);
   * `day` is the day it denotes, None when the text does not parse as a date.
   * `sentiment` is None when missing or not a string.
   */
  datatype Recommendation = Recommendation(date: string, day: Option<int>, sentiment: Option<string>)

  /** A stock record; `recommendations` is None when missing or not a list. */
  datatype Stock = Stock(
    ticker: Option<string>,
    companyName: Option<string>,
    market: Option<string>,
    sector: Option<string>,
    weeklyPrices: seq<PricePoint>,
    recommendations: Option<seq<Recommendation>>)
}
