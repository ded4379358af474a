/**
 * The five recommendation labels. Every component matches a sentiment
 * string against them after upper-casing it; anything else is unrecognised.
 */
module Sentiments {
  import opened Wrappers
  import Text

  datatype Kind = StrongBuy | Buy | Hold | Sell | StrongSell

  function Label(k: Kind): string {
    match k
    case StrongBuy => "STRONG BUY"
    case Buy => "BUY"
    case Hold => "HOLD"
    case Sell => "SELL"
    case StrongSell => "STRONG SELL"
  }

  /** The kind whose label is exactly `text`, if any (a `switch` on the upper-cased string). */
  function Parse(text: string): (k: Option<Kind>)
    ensures k.Some? ==> Label(k.value) == text
    ensures k.None? ==> forall kind: Kind :: Label(kind) != text
  {
    if text == "STRONG BUY" then Some(StrongBuy)
    else if text == "BUY" then Some(Buy)
    else if text == "HOLD" then Some(Hold)
    else if text == "SELL" then Some(Sell)
    else if text == "STRONG SELL" then Some(StrongSell)
    else None
  }

  /** Case-insensitive recognition: upper-case, then match a label. */
  function Classify(s: string): Option<Kind> {
    Parse(Text.ToUpper(s))
  }

  /** The colour families the dashboard uses: buy-side, hold, sell-side. */
  datatype Group = BuySide | Neutral | SellSide

  function GroupOf(k: Kind): Group {
    match k
    case StrongBuy | Buy => BuySide
    case Hold => Neutral
    case Sell | StrongSell => SellSide
  }
}
