/** The trade callback: resolve the registrar, fetch oracle signatures,
    build the synchronizer call, estimate gas (with a dry-run call to explain
    a failed estimate), send the transaction and classify what fails.
    The oracle network and the wallet provider are not modelled: what they
    answered is passed in as a value, and the model states which branch
    each answer leads to. */
module TradeCallback {
  import opened Common
  import opened TradeError

  /** The wallet session and contract handle the hook reads from its context. */
  datatype Session = Session(
    account: Option<string>,
    chainId: Option<int>,
    hasLibrary: bool,                 // whether a wallet provider is connected
    synchronizer: Option<string>,     // the address of the synchronizer contract, when one is loaded
    partnerId: string)

  /** The registrar of the synthetic asset being traded: the output currency
      when opening a position, the input currency when closing one.
      `getAddress` is the library's address checksumming, left uninterpreted. */
  function Registrar(currencyA: Option<Currency>, currencyB: Option<Currency>, tradeType: TradeType,
                     getAddress: string -> string): (r: Option<string>)
    ensures r.None? <==> currencyA.None? || currencyB.None?
    ensures r.Some? ==> r.value == getAddress(if tradeType == OPEN then currencyB.value.wrappedAddress
                                                                 else currencyA.value.wrappedAddress)
  {
    if currencyA.None? || currencyB.None? then None
    else if tradeType == OPEN then Some(getAddress(currencyB.value.wrappedAddress))
    else Some(getAddress(currencyA.value.wrappedAddress))
  }

  /** Opening with DEI in and the asset out names the same registrar as
      closing with the asset in and DEI out. */
  lemma RegistrarIsTheSyntheticSide(dei: Currency, asset: Currency, getAddress: string -> string)
    ensures Registrar(Some(dei), Some(asset), OPEN, getAddress) == Registrar(Some(asset), Some(dei), CLOSE, getAddress)
    ensures Registrar(Some(dei), Some(asset), OPEN, getAddress) == Some(getAddress(asset.wrappedAddress))
  {
  }

  /** The action named to the oracle network. */
  function OracleAction(tradeType: TradeType): (action: string)
    ensures action == "buy" <==> tradeType == OPEN
    ensures action == "sell" <==> tradeType == CLOSE
  {
    match tradeType
    case OPEN => "buy"
    case CLOSE => assert "sell"[0] != "buy"[0]; "sell"
  }

  /** The synchronizer method called. */
  function MethodName(tradeType: TradeType): (name: string)
    ensures name == OracleAction(tradeType) + "For"
  {
    match tradeType
    case OPEN => "buyFor"
    case CLOSE => assert "sellFor"[0] != "buyFor"[0]; "sellFor"
  }

  /** The two vocabularies name the same direction and are kept apart: the
      contract method is the oracle action followed by `For`, and the two
      directions are never given the same name. */
  lemma NamingAgrees(t: TradeType, u: TradeType)
    ensures MethodName(t) == OracleAction(t) + "For"
    ensures MethodName(t) != OracleAction(t)
    ensures t != u ==> OracleAction(t) != OracleAction(u) && MethodName(t) != MethodName(u)
  {
  }

  /** One oracle signature. */
  datatype Signature = Signature(signature: string, owner: string, nonce: string)

  /** The signed price the oracle network returns on success. */
  datatype SignedPrice = SignedPrice(price: string, timestamp: string, reqId: string, sigs: seq<Signature>)

  /** A positional argument of the synchronizer call. `Hex(n)` stands for
      `toHex(n)`, whose rendering is left uninterpreted. */
  datatype Arg = Text(text: string) | Hex(n: nat) | Signatures(sigs: seq<Signature>)

  /** Everything the synchronizer call carries. */
  datatype TradeArgs = TradeArgs(partnerId: string, account: string, registrar: string, amount: nat, signed: SignedPrice)

  /** The argument list, in the order the deployed contract expects. */
  function CallArgs(a: TradeArgs): (args: seq<Arg>)
    ensures |args| == 8
    ensures forall i :: 0 <= i < |args| ==> (args[i].Hex? <==> i == 3) && (args[i].Signatures? <==> i == 7)
    ensures args[3].n == a.amount && args[7].sigs == a.signed.sigs
  {
    [Text(a.partnerId), Text(a.account), Text(a.registrar), Hex(a.amount),
     Text(a.signed.price), Text(a.signed.timestamp), Text(a.signed.reqId), Signatures(a.signed.sigs)]
  }

  /** How the contract reads its arguments back, by position. */
  function DecodeCallArgs(args: seq<Arg>): Option<TradeArgs> {
    if |args| == 8 && args[0].Text? && args[1].Text? && args[2].Text? && args[3].Hex?
       && args[4].Text? && args[5].Text? && args[6].Text? && args[7].Signatures?
    then Some(TradeArgs(args[0].text, args[1].text, args[2].text, args[3].n,
                        SignedPrice(args[4].text, args[5].text, args[6].text, args[7].sigs)))
    else None
  }

  /** The argument list is read back by position into exactly what was put in. */
  lemma ArgsRoundTrip(a: TradeArgs)
    ensures DecodeCallArgs(CallArgs(a)) == Some(a)
  {
  }

  /** The encoded call data, `encodeFunctionData(method, args)`, kept as a term. */
  datatype CallData = Encoded(methodName: string, args: seq<Arg>)

  /** A thrown value: its `message` property and its rendering inside a
      template literal (`${error}`). */
  datatype Thrown = Thrown(message: Option<string>, text: string)

  /** `new Error(message)` */
  function NewError(message: string): (error: Thrown)
    ensures error.message == Some(message)
    ensures message != "" ==> ConstructionFailure(error) == message
  {
    Thrown(Some(message), "Error: " + message)
  }

  /** What the oracle network answered: signatures, `success === false`
      with an error text, or an exception. */
  datatype OracleResponse =
    | Signed(data: SignedPrice)
    | Refused(error: Option<string>)
    | OracleThrew(thrown: Thrown)

  /** The request made to the oracle network. */
  datatype SignatureRequest = SignatureRequest(registrar: string, action: string, chainId: int)

  /** The result of `constructCall`: a call to send, or the error it caught. */
  datatype CallResult =
    | Call(address: string, calldata: CallData, value: nat)
    | CallError(error: Thrown)

  const MissingDependencies := "Missing dependencies."
  const OracleFailurePrefix := "Unable to fetch Muon signatures: "

  /** The request `constructCall` sends to the oracle network, or `None`
      when a dependency is missing and it stops before any request.
      `muonChains` are the chain ids of the oracle network's enum. */
  function RequestFor(session: Session, registrar: Option<string>, amountA: Option<Amount>,
                      tradeType: TradeType, muonChains: set<int>): (r: Option<SignatureRequest>)
    ensures r.Some? <==>
      Truthy(session.account) && ChainSet(session.chainId) && session.chainId.value in muonChains &&
      Truthy(registrar) && amountA.Some? && session.synchronizer.Some?
    ensures r.Some? ==> r.value.registrar == registrar.value && r.value.chainId == session.chainId.value
                        && r.value.action == OracleAction(tradeType)
  {
    if !Truthy(session.account) || !ChainSet(session.chainId) || session.chainId.value !in muonChains
       || !Truthy(registrar) || amountA.None? || session.synchronizer.None?
    then None
    else Some(SignatureRequest(registrar.value, OracleAction(tradeType), session.chainId.value))
  }

  /** `constructCall`, given what the oracle network answered to the request
      (the answer is not consulted when no request is made). */
  function ConstructCall(session: Session, registrar: Option<string>, amountA: Option<Amount>,
                         tradeType: TradeType, muonChains: set<int>, oracle: OracleResponse): (r: CallResult)
    ensures RequestFor(session, registrar, amountA, tradeType, muonChains).None? ==>
      r == CallError(NewError(MissingDependencies))
    ensures RequestFor(session, registrar, amountA, tradeType, muonChains).Some? ==>
      match oracle
      case Refused(error) => r == CallError(NewError(OracleFailurePrefix + Render(error)))
      case OracleThrew(thrown) => r == CallError(thrown)
      case Signed(data) =>
        && r.Call?
        && r.address == session.synchronizer.value
        && r.value == 0
        && r.calldata.methodName == OracleAction(tradeType) + "For"
        && DecodeCallArgs(r.calldata.args) ==
             Some(TradeArgs(session.partnerId, session.account.value, registrar.value, Quotient(amountA.value), data))
  {
    if RequestFor(session, registrar, amountA, tradeType, muonChains).None? then
      CallError(NewError(MissingDependencies))
    else
      match oracle
      case Refused(error) => CallError(NewError(OracleFailurePrefix + Render(error)))
      case OracleThrew(thrown) => CallError(thrown)
      case Signed(data) =>
        var args := CallArgs(TradeArgs(session.partnerId, session.account.value, registrar.value,
                                       Quotient(amountA.value), data));
        ArgsRoundTrip(TradeArgs(session.partnerId, session.account.value, registrar.value,
                                Quotient(amountA.value), data));
        Call(session.synchronizer.value, Encoded(MethodName(tradeType), args), 0)
  }

  /** With a dependency missing, what the oracle network would have said
      makes no difference: no request is made. */
  lemma MissingDependencyIgnoresOracle(session: Session, registrar: Option<string>, amountA: Option<Amount>,
                                       tradeType: TradeType, muonChains: set<int>, o1: OracleResponse, o2: OracleResponse)
    requires RequestFor(session, registrar, amountA, tradeType, muonChains).None?
    ensures ConstructCall(session, registrar, amountA, tradeType, muonChains, o1)
         == ConstructCall(session, registrar, amountA, tradeType, muonChains, o2)
  {
  }

  /** The state of the callback the hook hands out. */
  datatype CallbackState = Invalid(error: string) | Valid

  const MissingDependenciesState := "Missing dependencies"
  const NoAmount := "No amount provided"

  /** The checks of the returned memo, in their order. */
  function State(session: Session, currencyA: Option<Currency>, currencyB: Option<Currency>,
                 amountA: Option<Amount>): (r: CallbackState)
    ensures r == Invalid(MissingDependenciesState) <==>
      !(Truthy(session.account) && ChainSet(session.chainId) && session.hasLibrary &&
        session.synchronizer.Some? && currencyA.Some? && currencyB.Some?)
    ensures r == Invalid(NoAmount) <==>
      Truthy(session.account) && ChainSet(session.chainId) && session.hasLibrary &&
      session.synchronizer.Some? && currencyA.Some? && currencyB.Some? &&
      (amountA.None? || IsZero(amountA.value))
    ensures r.Valid? || r == Invalid(MissingDependenciesState) || r == Invalid(NoAmount)
  {
    if !Truthy(session.account) || !ChainSet(session.chainId) || !session.hasLibrary
       || session.synchronizer.None? || currencyA.None? || currencyB.None?
    then Invalid(MissingDependenciesState)
    else if amountA.None? || IsZero(amountA.value) then Invalid(NoAmount)
    else Valid
  }

  /** A valid callback builds its call whenever the chain is one the oracle
      network serves and the checksummed registrar is not empty; the
      validity checks do not look at the chain, so on any other chain the
      callback is valid and still fails with `Missing dependencies.`. */
  lemma ValidCallbackRequestsSignatures(session: Session, currencyA: Option<Currency>, currencyB: Option<Currency>,
                                        amountA: Option<Amount>, tradeType: TradeType, muonChains: set<int>,
                                        getAddress: string -> string)
    requires State(session, currencyA, currencyB, amountA).Valid?
    ensures var registrar := Registrar(currencyA, currencyB, tradeType, getAddress);
      RequestFor(session, registrar, amountA, tradeType, muonChains).Some? <==>
        session.chainId.value in muonChains && registrar.value != ""
  {
  }

  /** An amount worth less than one base unit is not zero, so the callback is
      valid, and the call built for it carries the whole-unit amount 0. */
  lemma SubUnitAmountIsSentAsZero(session: Session, currencyA: Option<Currency>, currencyB: Option<Currency>,
                                  a: Amount, tradeType: TradeType, muonChains: set<int>,
                                  getAddress: string -> string, data: SignedPrice)
    requires Truthy(session.account) && ChainSet(session.chainId) && session.hasLibrary
    requires session.synchronizer.Some? && currencyA.Some? && currencyB.Some?
    requires 0 < a.numerator < a.denominator
    ensures State(session, currencyA, currencyB, Some(a)).Valid?
    ensures var call := ConstructCall(session, Registrar(currencyA, currencyB, tradeType, getAddress),
                                      Some(a), tradeType, muonChains, Signed(data));
      call.Call? ==> DecodeCallArgs(call.calldata.args).Some? && DecodeCallArgs(call.calldata.args).value.amount == 0
  {
    ZeroHasNoQuotient(a);
  }

  /** The transaction request: `value` is present only when non-zero and
      `gasLimit` only once an estimate exists. */
  datatype GasLimit = WithMargin(estimate: nat)   // calculateGasMargin(estimate), left uninterpreted
  datatype TxRequest = TxRequest(from: string, to: string, data: CallData, value: Option<nat>, gasLimit: Option<GasLimit>)

  /** What the provider answered to the gas estimate. */
  datatype GasEstimate = Estimated(gas: nat) | EstimateFailed(gasError: ErrorObject)
  /** What the provider answered to the dry-run call made after a failed estimate. */
  datatype DryRun = DryRunSucceeded | DryRunFailed(callError: Cause)
  /** What the wallet answered to `sendTransaction`. */
  datatype Broadcast = Sent(hash: string) | SendFailed(sendError: Cause)

  /** How `onTrade` settles: the hash of the sent transaction together with
      the summary it was registered under, or the message of the error thrown. */
  datatype TradeOutcome = Submitted(hash: string, summary: string) | Failed(message: string)

  const UserRejectedCode := 4001
  const TransactionRejected := "Transaction rejected."
  const TransactionFailedPrefix := "Transaction failed: "
  const UnexpectedCallDataPrefix := "Unexpected error, could not construct calldata: "

  /** The message `onTrade` throws when `constructCall` returned an error. */
  function ConstructionFailure(error: Thrown): (m: string)
    ensures Truthy(error.message) ==> m == error.message.value
    ensures !Truthy(error.message) ==> m == UnexpectedCallDataPrefix + error.text
  {
    if Truthy(error.message) then error.message.value else UnexpectedCallDataPrefix + error.text
  }

  /** `new Error(gasError.message).message`: an absent message becomes `''`. */
  function GasErrorMessage(gasError: ErrorObject): (m: string)
    ensures gasError.message.None? ==> m == ""
    ensures gasError.message.Some? ==> m == gasError.message.value
  {
    if gasError.message.Some? then gasError.message.value else ""
  }

  /** The summary a sent trade is registered under. */
  function RegisteredSummary(amountA: Option<Amount>, currencyA: Currency, amountB: Option<Amount>, currencyB: Currency): (s: string)
    ensures amountA.Some? && amountB.Some? ==>
      s == TradeSummary(amountA.value.significant, Render(currencyA.symbol), amountB.value.significant, Render(currencyB.symbol))
    ensures amountA.Some? && amountB.None? ==>
      s == TradeSummary(amountA.value.significant, Render(currencyA.symbol), "undefined", Render(currencyB.symbol))
    ensures amountA.None? ==> "Trade undefined " <= s
  {
    TradeSummary(Significant(amountA), Render(currencyA.symbol), Significant(amountB), Render(currencyB.symbol))
  }

  /** The transaction built from a constructed call. */
  function TxFor(account: string, call: CallResult): (tx: TxRequest)
    requires call.Call?
    ensures tx.value.Some? <==> call.value != 0
    ensures tx.value.Some? ==> tx.value.value == call.value
    ensures tx.from == account && tx.to == call.address && tx.data == call.calldata && tx.gasLimit.None?
  {
    if call.value == 0 then TxRequest(account, call.address, call.calldata, None, None)
    else TxRequest(account, call.address, call.calldata, Some(call.value), None)
  }

  /** `onTrade`: one attempt of the pipeline. `sent` is the transaction
      handed to the wallet, if the pipeline got that far. */
  method OnTrade(session: Session, currencyA: Option<Currency>, currencyB: Option<Currency>,
                 amountA: Option<Amount>, amountB: Option<Amount>, tradeType: TradeType,
                 muonChains: set<int>, getAddress: string -> string,
                 oracle: OracleResponse, estimate: GasEstimate, dryRun: DryRun, broadcast: Broadcast)
    returns (outcome: TradeOutcome, sent: Option<TxRequest>)
    requires State(session, currencyA, currencyB, amountA).Valid?
    ensures var call := ConstructCall(session, Registrar(currencyA, currencyB, tradeType, getAddress),
                                      amountA, tradeType, muonChains, oracle);
      && (sent.Some? <==> call.Call? && estimate.Estimated?)
      && (call.CallError? ==> outcome == Failed(ConstructionFailure(call.error)))
      && (call.Call? ==>
            && (estimate.EstimateFailed? && dryRun.DryRunSucceeded? ==>
                  outcome == Failed(GasErrorMessage(estimate.gasError)))
            && (estimate.EstimateFailed? && dryRun.DryRunFailed? ==>
                  outcome == Failed(UserReadableMessage(dryRun.callError))))
      && (sent.Some? ==>
            && sent.value.from == session.account.value
            && sent.value.to == call.address
            && sent.value.data == call.calldata
            && sent.value.value.None?
            && sent.value.gasLimit == Some(WithMargin(estimate.gas)))
    ensures outcome.Submitted? <==> sent.Some? && broadcast.Sent?
    ensures outcome.Submitted? ==>
      outcome == Submitted(broadcast.hash, RegisteredSummary(amountA, currencyA.value, amountB, currencyB.value))
    ensures sent.Some? && broadcast.SendFailed? && Code(broadcast.sendError) == Some(UserRejectedCode) ==>
      outcome == Failed(TransactionRejected)
    ensures sent.Some? && broadcast.SendFailed? && Code(broadcast.sendError) != Some(UserRejectedCode) ==>
      outcome == Failed(TransactionFailedPrefix + UserReadableMessage(broadcast.sendError))
  {
    var registrar := Registrar(currencyA, currencyB, tradeType, getAddress);
    var call := ConstructCall(session, registrar, amountA, tradeType, muonChains, oracle);
    if call.CallError? {
      return Failed(ConstructionFailure(call.error)), None;
    }
    var tx := TxFor(session.account.value, call);
    match estimate {
      case EstimateFailed(gasError) =>
        sent := None;
        match dryRun {
          case DryRunSucceeded =>
            // the dry run unexpectedly succeeds: the estimate's own error still decides
            outcome := Failed(GasErrorMessage(gasError));
          case DryRunFailed(callError) =>
            var message := TradeErrorToUserReadableMessage(callError);
            outcome := Failed(message);
        }
      case Estimated(gas) =>
        var request := tx.(gasLimit := Some(WithMargin(gas)));
        sent := Some(request);
        match broadcast {
          case Sent(hash) =>
            outcome := Submitted(hash, RegisteredSummary(amountA, currencyA.value, amountB, currencyB.value));
          case SendFailed(error) =>
            if Code(error) == Some(UserRejectedCode) {
              outcome := Failed(TransactionRejected);
            } else {
              var message := TradeErrorToUserReadableMessage(error);
              outcome := Failed(TransactionFailedPrefix + message);
            }
        }
    }
  }
}
