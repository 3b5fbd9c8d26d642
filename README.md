# Synced trading app: trade pipeline, trade history and portfolio, in Dafny

This project models the core of the trading front end of a synthetic-asset
exchange. It states and proves what that core promises. Users buy and sell
synthetic assets (registrars) against the DEI stablecoin. A trade goes
through four stages:

- a set of oracle signatures (Muon) for the trade;
- a call to the synchronizer contract;
- a gas estimate;
- a transaction sent through the wallet.

Every failure on that path becomes a message the user can read.

The modules follow the source files:

- `common.dfy` (`Common`) holds the values shared by the other modules:
  - optional values, and JavaScript truthiness of strings and chain ids;
  - `slice(0, n)`;
  - the trade direction (`OPEN` / `CLOSE`), currency amounts and currencies;
  - the one-line trade summary.
- `trade_error.dfy` (`TradeError`) holds the error classifier
  `tradeErrorToUserReadableMessage`. It walks the nested causes of an error,
  keeps the innermost reason, strips the `execution reverted: ` prefix and
  maps the reason to a message. The walk is an imperative loop, proved
  against a recursive specification.
- `trade_callback.dfy` (`TradeCallback`) holds the trade hook:
  - the registrar memo;
  - `constructCall`, with the oracle request and the positional argument list
    of `buyFor` / `sellFor`;
  - the validity memo;
  - the `onTrade` pipeline, as a method over the answers of the oracle
    network, the provider and the wallet.
- `transactions.dfy` (`Transactions`) holds the trade history:
  - grouping by day (an accumulator map that a loop mutates, then
    `Object.values` in ascending integer-key order);
  - paging by an `offset` counter in a `TradeHistory` class;
  - the Buy/Sell row fields.
- `confirm_trade.dfy` (`ConfirmTrade`) holds the derived values of the trade
  confirmation modal.
- `portfolio.dfy` (`Portfolio`) holds the portfolio page:
  - the supported-chain check and the priority of its status messages;
  - the position count;
  - the ordering of contracts by equity;
  - the equity label.

The model treats several things as inputs:

- Calls into libraries appear as function parameters or as uninterpreted
  terms: address checksumming, ABI encoding, `toHex`, the gas margin,
  `toSignificant`, `toExact` and dollar formatting.
- The oracle network, the provider and the wallet are represented by the
  answers they gave (`OracleResponse`, `GasEstimate`, `DryRun`,
  `Broadcast`).
- Transaction timestamps are already-parsed natural numbers.
- Equity is an abstract ordered number (`real`).

Three behaviours of the code may surprise a reader:

- When no layer of an error has a reason, the classifier returns `: s`, not
  `Unknown error`. The expression `undefined?.indexOf(...) !== -1` is true
  (useTradeCallback.ts:192-194). `TradeError.NoReasonAnywhere` proves this.
  `Unknown error` with nothing after it is returned only for an empty reason.
- The walk over nested causes does not stop at the first reason it finds.
  A reason found deeper replaces it, so the innermost reason wins
  (`TradeError.WalkKeepsInnermostReason`).
- The validity memo does not check the chain against the oracle network's
  chains, but `constructCall` does. On such a chain a callback can be
  `VALID` and still fail with `Missing dependencies.`
  (`TradeCallback.ValidCallbackRequestsSignatures`).

## Model

| member | source | states |
|---|---|---|
| TradeError.LayerReason | src/hooks/useTradeCallback.ts:182 | a layer's reason is its own `reason` when present, else `data.message`, else `message`; it is missing exactly when all three are |
| TradeError.Next | src/hooks/useTradeCallback.ts:183 | the walk descends to `error` unless it is nullish, else to `data.originalError`; it has nowhere to go exactly when both are nullish |
| TradeError.Walk | src/hooks/useTradeCallback.ts:181-184 | once a reason has been found the walk never loses it, and a cause that is not an object ends the walk with the reason held |
| TradeError.UserReadableMessage | src/hooks/useTradeCallback.ts:178-198 | every classified message is the partner guidance, `: s`, or begins with `Unknown error` |
| TradeError.Code | src/hooks/useTradeCallback.ts:165 | `error?.code` is absent for a nullish or falsy cause, otherwise the layer's own `code` |
| TradeError.WalkWithoutReasons | src/hooks/useTradeCallback.ts:181-184 | when no layer of the error has a reason of its own, the loop ends with the reason it started with |
| TradeError.WalkKeepsInnermostReason | src/hooks/useTradeCallback.ts:181-184 | when some layer has a reason, the loop ends with the reason of a layer after which no deeper layer has one (the innermost reason wins) |
| TradeError.NoReasonAnywhere | src/hooks/useTradeCallback.ts:181-196 | an error with no reason at any depth leaves no reason and is classified as `: s` |
| TradeError.IndexOf | src/hooks/useTradeCallback.ts:186 | `indexOf` is -1 exactly when the text does not occur, otherwise the first position where it occurs; it is 0 exactly when the string begins with the text |
| TradeError.StripRevertPrefix | src/hooks/useTradeCallback.ts:186 | a reason beginning with `execution reverted: ` loses exactly that prefix; any other reason, and a missing one, is unchanged |
| TradeError.StripOnce | src/hooks/useTradeCallback.ts:186 | the prefix is removed once only, and only at the start |
| TradeError.MessageForReason | src/hooks/useTradeCallback.ts:188-197 | the invalid-partner reason gives the registration guidance; a missing reason or one containing `undefined is not an object` gives `: s`; an empty reason gives `Unknown error`; any other reason is quoted after `Unknown error: ` |
| TradeError.UnknownReasonRecoverable | src/hooks/useTradeCallback.ts:196 | two reasons that give the same `Unknown error` message were the same reason after stripping |
| TradeError.TradeErrorToUserReadableMessage | src/hooks/useTradeCallback.ts:178-198 | the loop that reassigns reason and error returns the message of the innermost reason, as the recursive walk defines it |
| TradeError.NestedPartnerRevert | src/hooks/useTradeCallback.ts:181-190 | an invalid-partner revert nested under `error.data.message` gives the guidance, not the raw revert text |
| TradeError.UnmappedRevert | src/hooks/useTradeCallback.ts:186-196 | an unmapped revert reason in `message` is shown quoted after `Unknown error: `, without the revert prefix |
| TradeCallback.Registrar | src/hooks/useTradeCallback.ts:38-43 | no registrar unless both currencies are present; otherwise the checksummed wrapped address of currency B when opening and of currency A when closing |
| TradeCallback.RegistrarIsTheSyntheticSide | src/hooks/useTradeCallback.ts:38-43 | opening DEI→asset and closing asset→DEI name the same registrar, the asset's |
| TradeCallback.OracleAction | src/hooks/useTradeCallback.ts:51 | the oracle action is `buy` exactly for OPEN and `sell` exactly for CLOSE |
| TradeCallback.MethodName | src/hooks/useTradeCallback.ts:52 | the contract method is the oracle action of the same direction followed by `For` |
| TradeCallback.NamingAgrees | src/hooks/useTradeCallback.ts:51-52 | `buy`/`buyFor` for OPEN and `sell`/`sellFor` for CLOSE: the method is the oracle action plus `For`, and the two directions never share a name |
| TradeCallback.CallArgs | src/hooks/useTradeCallback.ts:61-70 | eight arguments; only the fourth is the hex amount and only the eighth the signature list, carrying the trade's amount and signatures |
| TradeCallback.ArgsRoundTrip | src/hooks/useTradeCallback.ts:61-70 | the eight positional arguments read back by position give exactly the partner id, account, registrar, amount and signed price that were put in |
| TradeCallback.NewError | src/hooks/useTradeCallback.ts:48 | a new error carries its message, and an error made with a non-empty message is rethrown by `onTrade` with that same message |
| TradeCallback.RequestFor | src/hooks/useTradeCallback.ts:47-53 | signatures are requested exactly when account, chain id (an oracle chain), registrar, amount and contract are all present, and the request names that registrar, the direction's action and that chain |
| TradeCallback.ConstructCall | src/hooks/useTradeCallback.ts:45-83 | a missing dependency gives the `Missing dependencies.` error; an oracle refusal gives `Unable to fetch Muon signatures: <error>`; an oracle exception is returned as caught; signatures give a call to the synchronizer with value 0, the direction's method and arguments that decode to the trade |
| TradeCallback.MissingDependencyIgnoresOracle | src/hooks/useTradeCallback.ts:47-49 | with a dependency missing, the result does not depend on the oracle's answer |
| TradeCallback.State | src/hooks/useTradeCallback.ts:85-103 | `Missing dependencies` exactly when account, chain id, provider, contract or a currency is missing; otherwise `No amount provided` exactly when the amount is missing or equal to zero as a fraction; otherwise valid |
| Common.IsZero | src/hooks/useTradeCallback.ts:93 | `equalTo(ZERO)` compares fractions by cross-multiplying: zero exactly when numerator × 1 = 0 × denominator; a zero amount has quotient 0 |
| Common.Quotient | src/hooks/useTradeCallback.ts:65 | the amount sent is the whole number of base units: the fraction rounded down |
| Common.ZeroHasNoQuotient | src/hooks/useTradeCallback.ts:93 | a zero amount has quotient 0, and an amount below one base unit has quotient 0 without being zero |
| TradeCallback.SubUnitAmountIsSentAsZero | src/hooks/useTradeCallback.ts:65-101 | an amount below one base unit passes the zero test, so the callback is valid and the call it builds carries the amount 0 |
| TradeCallback.ValidCallbackRequestsSignatures | src/hooks/useTradeCallback.ts:45-103 | for a valid callback, signatures are requested exactly when the chain is an oracle chain and the checksummed registrar is non-empty |
| TradeCallback.ConstructionFailure | src/hooks/useTradeCallback.ts:108-115 | a construction error with a non-empty message is rethrown with that message, otherwise as `Unexpected error, could not construct calldata: <error>` |
| TradeCallback.GasErrorMessage | src/hooks/useTradeCallback.ts:129-143 | after a dry run that succeeds, the estimate's own message is thrown, and a missing message becomes the empty string |
| TradeCallback.RegisteredSummary | src/hooks/useTradeCallback.ts:156-158 | with both amounts, `Trade <in> <symbol> for <out> <symbol>`; a missing output amount gives `Trade <in> <symbol> for undefined <symbol>`; a missing input amount gives a summary starting `Trade undefined ` |
| TradeCallback.TxFor | src/hooks/useTradeCallback.ts:117-119 | the request carries `value` exactly when it is non-zero, and is sent from the account to the call's address with its data |
| TradeCallback.OnTrade | src/hooks/useTradeCallback.ts:103-173 | construction errors, gas failures (with the dry run's verdict) and wallet failures (4001 → `Transaction rejected.`, otherwise `Transaction failed: ` plus the classified message) end the attempt as the source says; a transaction is sent exactly when the call was built and gas estimated, with the margin as gas limit and no value; success returns the hash with the registered summary |
| Transactions.Day | src/components/App/Portfolio/Transactions.tsx:229 | a transaction's day is the day of 86400 seconds that contains its timestamp |
| Transactions.DaysOfMembers | src/components/App/Portfolio/Transactions.tsx:229 | a day number is a key of the grouping exactly when some transaction falls on it |
| Transactions.OnDayNonEmpty | src/components/App/Portfolio/Transactions.tsx:228-233 | the group of a day is non-empty exactly when the day occurs |
| Transactions.PositionsSelect | src/components/App/Portfolio/Transactions.tsx:230-231 | the k-th member of a day's group is the input transaction at the k-th listed position, and it falls on that day |
| Transactions.PositionsIncrease | src/components/App/Portfolio/Transactions.tsx:230-231 | the listed positions strictly increase: a group keeps the input order |
| Transactions.PositionsComplete | src/components/App/Portfolio/Transactions.tsx:230-231 | every input position of a transaction of that day is listed |
| Transactions.OnDayIsFilter | src/components/App/Portfolio/Transactions.tsx:228-233 | a day's group is exactly that day's transactions in input order |
| Transactions.AscendingSorts | src/components/App/Portfolio/Transactions.tsx:234 | the key order of `Object.values` lists every day once, strictly increasing |
| Transactions.AscendingUnique | src/components/App/Portfolio/Transactions.tsx:234 | two strictly increasing lists of the same days are equal |
| Transactions.GroupOrderIsForced | src/components/App/Portfolio/Transactions.tsx:234 | any strictly increasing list of exactly the history's days is the group order |
| Transactions.GroupsShareTheirDay | src/components/App/Portfolio/Transactions.tsx:227-235 | no group is empty and all its members fall on the group's day |
| Transactions.EveryTransactionGrouped | src/components/App/Portfolio/Transactions.tsx:227-235 | each transaction sits in the group of its own day |
| Transactions.GroupedIsPartition | src/components/App/Portfolio/Transactions.tsx:227-235 | grouping is a partition: non-empty groups, one day per group, days strictly increasing from group to group, every transaction in a group |
| Transactions.OnDayAppend | src/components/App/Portfolio/Transactions.tsx:230-231 | appending a transaction extends only the group of its own day, and adds its day to the days present |
| Transactions.AccumulateStep | src/components/App/Portfolio/Transactions.tsx:229-231 | creating the day's array when absent and pushing the transaction keeps the accumulator equal to the grouping of the prefix read so far |
| Transactions.AccumulateByDay | src/components/App/Portfolio/Transactions.tsx:228-233 | the reduce leaves one key per day present, each holding that day's transactions in input order |
| Transactions.ValuesByAscendingKey | src/components/App/Portfolio/Transactions.tsx:234 | `Object.values` on integer keys returns the values in ascending key order |
| Transactions.GroupByDay | src/components/App/Portfolio/Transactions.tsx:227-235 | the memo returns the grouped history: one group per day, days ascending |
| Transactions.Paginate | src/components/App/Portfolio/Transactions.tsx:237-239 | the visible groups are a prefix of the grouped list of length min(offset + 1, group count) |
| Transactions.ShowLoadMore | src/components/App/Portfolio/Transactions.tsx:241-243 | for a page that is a prefix of the groups, the button shows exactly when the page is shorter |
| Transactions.ShowLoadMoreExactly | src/components/App/Portfolio/Transactions.tsx:241-243 | the load-more button shows exactly when offset + 1 < group count |
| Transactions.LoadMoreRevealsNextDay | src/components/App/Portfolio/Transactions.tsx:249-251 | one more page adds exactly the next day's group and keeps the visible ones; with everything visible it changes nothing |
| Transactions.RendersHistory | src/components/App/Portfolio/Transactions.tsx:253-255 | the history renders exactly when account and chain id are set and the page holds at least one group |
| Transactions.PageEmptyIffNoTransactions | src/components/App/Portfolio/Transactions.tsx:253-255 | there is no visible group exactly when there are no transactions |
| Transactions.TradeHistory.constructor | src/components/App/Portfolio/Transactions.tsx:193-194 | the history starts with no transactions and offset 0 |
| Transactions.TradeHistory.ReceiveTransactions | src/components/App/Portfolio/Transactions.tsx:218-235 | fetched transactions replace the list and the grouping is recomputed; offset and session are unchanged |
| Transactions.TradeHistory.LoadMore | src/components/App/Portfolio/Transactions.tsx:249-251 | the offset grows by exactly one and the page gains the next day's group when one is hidden |
| Transactions.TradeHistory.SessionChanged | src/components/App/Portfolio/Transactions.tsx:245-247 | a change of account or chain id resets the offset to 0; otherwise the offset is kept |
| Transactions.TradeHistory.Renders | src/components/App/Portfolio/Transactions.tsx:253-255 | the history renders exactly when account and chain id are set and there is at least one transaction |
| Transactions.RowFields | src/components/App/Portfolio/Transactions.tsx:299-333 | `open` gives Buy with DEI in, the registrar symbol out, price in 1 and green; anything else gives Sell with the sides swapped, price out 1 and red; the amounts are the first 8 characters; the hash is the id |
| Transactions.SellMirrorsBuy | src/components/App/Portfolio/Transactions.tsx:309-332 | a Sell row is the Buy row with tickers and prices swapped, and the same amounts and hash |
| Common.SliceTo | src/components/App/Portfolio/Transactions.tsx:301-302 | `slice(0, n)` is a prefix of length min(n, length) |
| ConfirmTrade.FeeBase | src/components/TransactionConfirmationModal/ConfirmTrade.tsx:160-165 | there is no fee base unless both amounts and the asset are present; OPEN charges on the input amount and CLOSE on the output amount |
| ConfirmTrade.FeeAmount | src/components/TransactionConfirmationModal/ConfirmTrade.tsx:160-165 | the fee amount is null exactly when an amount or the asset is missing, otherwise the rendered fee on the base |
| ConfirmTrade.FeeFollowsTheDeiSide | src/components/TransactionConfirmationModal/ConfirmTrade.tsx:162-164 | swapping the amounts and the direction charges the same fee |
| ConfirmTrade.FeeLabel | src/components/TransactionConfirmationModal/ConfirmTrade.tsx:167-170 | the label is empty exactly without an asset or a non-empty fee amount, otherwise `<fee>% / <amount> DEI` |
| ConfirmTrade.FeeLabelBlankExactly | src/components/TransactionConfirmationModal/ConfirmTrade.tsx:160-170 | the modal's fee label is blank exactly when an amount or the asset is missing or the rendered fee is empty |
| ConfirmTrade.PriceLabel | src/components/TransactionConfirmationModal/ConfirmTrade.tsx:179-181 | the label is empty exactly without an asset, otherwise the formatted price, `$ / ` and the asset id |
| ConfirmTrade.Summary | src/components/TransactionConfirmationModal/ConfirmTrade.tsx:183-188 | the summary is empty exactly when an amount or a currency is missing, otherwise `Trade <in> <symbol> for <out> <symbol>` |
| ConfirmTrade.SummaryIsTheRegisteredSummary | src/components/TransactionConfirmationModal/ConfirmTrade.tsx:183-188 | the modal's summary is the one the sent trade is registered under |
| ConfirmTrade.ContentFor | src/components/TransactionConfirmationModal/ConfirmTrade.tsx:271-275 | a non-empty error message always replaces the confirmation content and is shown as given |
| ConfirmTrade.ClassifiedErrorsAreShown | src/components/TransactionConfirmationModal/ConfirmTrade.tsx:271-275 | every classified error message is non-empty, so it is shown as error content |
| Portfolio.IsSupportedChainId | src/components/App/Portfolio/Portfolio.tsx:215-218 | false without a chain id or an account; otherwise membership of the chain in the synchronizer's chains |
| Portfolio.StatusLabel | src/components/App/Portfolio/Portfolio.tsx:224-254 | Connect Wallet exactly without an account; otherwise the switch prompt exactly on an unsupported chain; otherwise the empty-portfolio message exactly with no contracts; otherwise no status |
| Portfolio.PositionCount | src/components/App/Portfolio/Portfolio.tsx:261 | the number of contracts on a supported chain, 0 on any other |
| Portfolio.PositionsCountedIffRowsShown | src/components/App/Portfolio/Portfolio.tsx:256-276 | the header counts positions exactly when the rows are shown instead of a status, and then counts every row |
| Portfolio.Insert | src/components/App/Portfolio/Portfolio.tsx:196-198 | inserting by the comparator keeps equity non-increasing and adds exactly the one entry |
| Portfolio.SortByEquity | src/components/App/Portfolio/Portfolio.tsx:207-208 | the sorted entries are a permutation of the entries, in non-increasing equity |
| Portfolio.Contracts | src/components/App/Portfolio/Portfolio.tsx:207-210 | one contract per entry, and exactly the contracts of the balances |
| Portfolio.ContractsInEquityOrder | src/components/App/Portfolio/Portfolio.tsx:196-210 | with distinct keys, the contracts are listed in non-increasing order of their equity |
| Portfolio.EquityLabelFor | src/components/App/Portfolio/Portfolio.tsx:336-341 | `-- %` exactly when equity is hidden and the total is zero; dollars exactly when equity is shown; a share of the total only when the total is non-zero |

## Left out

- The network and wallet I/O are not modelled as behaviour. They are the oracle signature request, `estimateGas`, `call`, `sendTransaction`, the transaction query of the history and the stock-quote request of the portfolio. They appear only as the answers they gave.
- Library calls stay uninterpreted. These are address checksumming, ABI encoding, `toHex`, `calculateGasMargin`, the amount arithmetic with its `toExact`/`toSignificant` renderings, `formatDollarAmount`, date formatting, hash truncation and explorer links. An exception thrown by address checksumming or ABI encoding is not modelled.
- Floating point and decimal formatting are left out. This covers the fee sum and `toFixed` of the history rows, `parseFloat` (NaN in particular), the BigNumber balance, equity and percentage arithmetic of the portfolio rows, and the fee tooltip of the modal. Equity is an abstract ordered number.
- React machinery is left out: hooks, memoisation, effect scheduling, asynchronous sequencing, redux dispatches (`updatePrice`, `updateEquity`), the transaction adder and console logging.
- Presentation is left out: styles, logos, collapse state and the theme, menu, logo, pagination and search components.
- Error values are finite nested data, so the classifier's walk always ends. A cyclic error graph, on which the source loop would not end, is not modelled.
- Transactions.ValuesByAscendingKey: models `Object.values` only for non-negative integer keys, the day numbers. String keys, and integer keys of 2^32 - 1 and above, are not modelled because day numbers from timestamps are small non-negative integers.
- Portfolio.Contracts: states that the result holds the right contracts, one per entry, rather than a multiset equality of names. The keys of an object are distinct, where the two coincide.
- Portfolio.SortByEquity: is one valid order of the library sort. The source's comparator promises nothing about ties, so the model fixes one tie order.
- Amounts are non-negative fractions. A negative `CurrencyAmount` is not modelled, because the amounts entered for a trade are never negative.
- TradeError.IndexOf: counts positions in characters, while JavaScript's `indexOf` counts UTF-16 code units. The two differ after a character outside the Basic Multilingual Plane. The classifier only tests the result against 0 and -1, and those answers are the same either way.
- TradeCallback.OnTrade: returns the thrown message as a value. The wrapping `Error` objects are not modelled.
