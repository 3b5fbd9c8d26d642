/** The values the trade confirmation modal derives from its inputs: the
    side the protocol fee is charged on, the fee and price labels, the
    summary line and the choice between error and confirmation content. */
module ConfirmTrade {
  import opened Common
  import TradeError
  import TradeCallback

  /** The traded synthetic as the modal reads it: its id, the fee as
      `fee.toSignificant()` renders it, and its price as a decimal string. */
  datatype Asset = Asset(id: string, feeSignificant: string, price: string)

  /** The amount the fee is taken from: the amount spent when opening a
      position, the amount received when closing one; nothing unless both
      amounts and the asset are known. */
  function FeeBase(amountIn: Option<Amount>, amountOut: Option<Amount>, asset: Option<Asset>,
                   tradeType: TradeType): (base: Option<Amount>)
    ensures base.None? <==> amountIn.None? || amountOut.None? || asset.None?
    ensures base.Some? && tradeType == OPEN ==> base == amountIn
    ensures base.Some? && tradeType == CLOSE ==> base == amountOut
  {
    if amountIn.None? || amountOut.None? || asset.None? then None
    else if tradeType == OPEN then amountIn
    else amountOut
  }

  /** `feeAmount`: the base amount times the asset's fee, rendered by
      `toExact()`; `exact` stands for that multiplication and rendering. */
  function FeeAmount(amountIn: Option<Amount>, amountOut: Option<Amount>, asset: Option<Asset>,
                     tradeType: TradeType, exact: (Amount, Asset) -> string): (fee: Option<string>)
    ensures fee.None? <==> amountIn.None? || amountOut.None? || asset.None?
    ensures fee.Some? ==> fee.value == exact(FeeBase(amountIn, amountOut, asset, tradeType).value, asset.value)
  {
    var base := FeeBase(amountIn, amountOut, asset, tradeType);
    if base.Some? then Some(exact(base.value, asset.value)) else None
  }

  /** Swapping the two amounts and the trade direction charges the same fee:
      the fee always follows the DEI side of the trade. */
  lemma FeeFollowsTheDeiSide(dei: Option<Amount>, synthetic: Option<Amount>, asset: Option<Asset>,
                             exact: (Amount, Asset) -> string)
    ensures FeeAmount(dei, synthetic, asset, OPEN, exact) == FeeAmount(synthetic, dei, asset, CLOSE, exact)
  {
  }

  /** `feeLabel`: empty without an asset or without a (non-empty) fee
      amount, otherwise `<fee>% / <amount> DEI`. */
  function FeeLabel(asset: Option<Asset>, feeAmount: Option<string>): (text: string)
    ensures text == "" <==> asset.None? || !Truthy(feeAmount)
    ensures text != "" ==> text == asset.value.feeSignificant + "% / " + feeAmount.value + " DEI"
  {
    if asset.None? || !Truthy(feeAmount) then ""
    else asset.value.feeSignificant + "% / " + feeAmount.value + " DEI"
  }

  /** The fee label of the modal is blank exactly when an amount or the
      asset is missing, or the rendered fee is the empty string. */
  lemma FeeLabelBlankExactly(amountIn: Option<Amount>, amountOut: Option<Amount>, asset: Option<Asset>,
                             tradeType: TradeType, exact: (Amount, Asset) -> string)
    ensures FeeLabel(asset, FeeAmount(amountIn, amountOut, asset, tradeType, exact)) == "" <==>
      amountIn.None? || amountOut.None? || asset.None? ||
      exact(FeeBase(amountIn, amountOut, asset, tradeType).value, asset.value) == ""
  {
  }

  /** `priceLabel`: empty without an asset, otherwise the dollar-formatted
      price followed by `$ / ` and the asset id; `formatDollar` stands for
      `formatDollarAmount(Number(price))`. */
  function PriceLabel(asset: Option<Asset>, formatDollar: string -> string): (text: string)
    ensures text == "" <==> asset.None?
    ensures asset.Some? ==> text == formatDollar(asset.value.price) + "$ / " + asset.value.id
  {
    if asset.Some? then formatDollar(asset.value.price) + "$ / " + asset.value.id else ""
  }

  /** `summary`: empty unless both amounts and both currencies are known. */
  function Summary(amountIn: Option<Amount>, amountOut: Option<Amount>,
                   currencyIn: Option<Currency>, currencyOut: Option<Currency>): (s: string)
    ensures s == "" <==> amountIn.None? || amountOut.None? || currencyIn.None? || currencyOut.None?
    ensures s != "" ==> s == TradeSummary(amountIn.value.significant, Render(currencyIn.value.symbol),
                                          amountOut.value.significant, Render(currencyOut.value.symbol))
  {
    if amountIn.None? || amountOut.None? || currencyIn.None? || currencyOut.None? then ""
    else TradeSummary(amountIn.value.significant, Render(currencyIn.value.symbol),
                      amountOut.value.significant, Render(currencyOut.value.symbol))
  }

  /** The modal shows the same summary the trade is registered under once sent. */
  lemma SummaryIsTheRegisteredSummary(amountA: Amount, amountB: Amount, currencyA: Currency, currencyB: Currency)
    ensures Summary(Some(amountA), Some(amountB), Some(currencyA), Some(currencyB))
         == TradeCallback.RegisteredSummary(Some(amountA), currencyA, Some(amountB), currencyB)
  {
  }

  /** What the modal shows. */
  datatype Content = ErrorContent(message: string) | ConfirmationContent

  /** A non-empty error message replaces the confirmation content. */
  function ContentFor(tradeErrorMessage: Option<string>): (c: Content)
    ensures c.ErrorContent? <==> Truthy(tradeErrorMessage)
    ensures c.ErrorContent? ==> c.message == tradeErrorMessage.value
  {
    if Truthy(tradeErrorMessage) then ErrorContent(tradeErrorMessage.value) else ConfirmationContent
  }

  /** Every message the error classifier produces is non-empty, so a
      classified failure is always shown as an error. */
  lemma ClassifiedErrorsAreShown(error: TradeError.Cause)
    ensures ContentFor(Some(TradeError.UserReadableMessage(error))) == ErrorContent(TradeError.UserReadableMessage(error))
  {
    var s := TradeError.StripRevertPrefix(TradeError.Walk(error, None));
    if s.Some? && s.value != "" && s.value != TradeError.InvalidPartnerId && !TradeError.Contains(s.value, TradeError.TypeErrorMarker) {
      assert |TradeError.MessageForReason(TradeError.Walk(error, None))| > 0;
    }
  }
}
