/** Values shared by the trade pipeline, the confirmation modal and the
    portfolio pages: optional values, JavaScript truthiness, slicing, trade
    direction, currency amounts and the trade summary line. */
module Common {

  datatype Option<+T> = None | Some(value: T)

  /** `!!s` in JavaScript for a value that is a string, `null` or `undefined`:
      the empty string is falsy. */
  predicate Truthy(s: Option<string>) {
    s.Some? && s.value != ""
  }

  /** `!!chainId` in JavaScript: a missing chain id and the chain id 0 are falsy. */
  predicate ChainSet(chainId: Option<int>) {
    chainId.Some? && chainId.value != 0
  }

  /** `${v}` in a JavaScript template literal, for a string that may be `undefined`. */
  function Render(v: Option<string>): string {
    if v.Some? then v.value else "undefined"
  }

  function Min(a: int, b: int): int {
    if a <= b then a else b
  }

  /** `s.slice(0, end)` in JavaScript for a non-negative `end`: the first
      `end` elements, or all of them when there are fewer. */
  function SliceTo<T>(s: seq<T>, end: nat): (r: seq<T>)
    ensures |r| == Min(end, |s|)
    ensures r <= s
  {
    if end <= |s| then s[..end] else s
  }

  /** Whether a trade opens a synthetic position (spends DEI) or closes one. */
  datatype TradeType = OPEN | CLOSE

  /** A positive denominator. */
  type Denominator = d: nat | d > 0 witness 1

  /** A `CurrencyAmount`: a fraction of base units (an amount made by
      `multiply` or from a fractional value carries a denominator other than
      1) and the decimal rendering `toSignificant()` produces, which is
      computed by a library and kept here as given. */
  datatype Amount = Amount(numerator: nat, denominator: Denominator, significant: string)

  /** `amount.quotient`: the whole base units, the fraction rounded down. */
  function Quotient(a: Amount): (q: nat)
    ensures q * a.denominator <= a.numerator < (q + 1) * a.denominator
  {
    a.numerator / a.denominator
  }

  /** `amount.equalTo(ZERO)`: the fraction itself is zero. */
  predicate IsZero(a: Amount)
    ensures IsZero(a) <==> a.numerator * 1 == 0 * a.denominator
    ensures IsZero(a) ==> Quotient(a) == 0
  {
    a.numerator == 0
  }

  /** A zero amount has no whole base unit, but an amount without a whole
      base unit need not be zero: a fraction of one unit is not zero. */
  lemma ZeroHasNoQuotient(a: Amount)
    ensures IsZero(a) ==> Quotient(a) == 0
    ensures 0 < a.numerator < a.denominator ==> Quotient(a) == 0 && !IsZero(a)
  {
    if 0 < a.numerator < a.denominator {
      assert a.numerator / a.denominator == 0;
    }
  }

  /** A `Currency`: its symbol (which the library types as optional) and the
      address of its wrapped token. */
  datatype Currency = Currency(symbol: Option<string>, wrappedAddress: string)

  /** `amount?.toSignificant()` inside a template literal. */
  function Significant(amount: Option<Amount>): string {
    if amount.Some? then amount.value.significant else "undefined"
  }

  /** The one-line description of a trade, `Trade <in> <symbol> for <out> <symbol>`,
      used both as the confirmation summary and as the summary under which a
      sent transaction is registered. */
  function TradeSummary(amountIn: string, symbolIn: string, amountOut: string, symbolOut: string): string {
    "Trade " + amountIn + " " + symbolIn + " for " + amountOut + " " + symbolOut
  }
}
