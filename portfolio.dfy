/** The portfolio page: whether the connected chain is supported, which
    status message replaces the position list, how many positions the
    header counts, the order of the held contracts and the equity label of
    a row. */
module Portfolio {
  import opened Common

  /** `isSupportedChainId`: false without a chain id or an account,
      otherwise whether the chain is one of the synchronizer's chains. */
  function IsSupportedChainId(chainId: Option<int>, account: Option<string>, synchronizerChains: seq<int>): (r: bool)
    ensures r ==> Truthy(account) && ChainSet(chainId)
    ensures ChainSet(chainId) && Truthy(account) ==> (r <==> chainId.value in synchronizerChains)
  {
    if !ChainSet(chainId) || !Truthy(account) then false
    else chainId.value in synchronizerChains
  }

  /** What `getStatusLabel` shows in place of the position rows. */
  datatype Status = ConnectWallet | SwitchChain | EmptyPortfolio | NoStatus

  /** The first failing condition wins: no wallet, then an unsupported
      chain, then no contracts; with none of them the rows are shown. */
  function StatusLabel(account: Option<string>, isSupported: bool, contractCount: nat): (s: Status)
    ensures s == ConnectWallet <==> !Truthy(account)
    ensures s == SwitchChain <==> Truthy(account) && !isSupported
    ensures s == EmptyPortfolio <==> Truthy(account) && isSupported && contractCount == 0
    ensures s == NoStatus <==> Truthy(account) && isSupported && contractCount > 0
  {
    if !Truthy(account) then ConnectWallet
    else if !isSupported then SwitchChain
    else if contractCount == 0 then EmptyPortfolio
    else NoStatus
  }

  /** The Positions count of the header. */
  function PositionCount(isSupported: bool, contractCount: nat): (n: nat)
    ensures n <= contractCount
    ensures isSupported ==> n == contractCount
    ensures !isSupported ==> n == 0
  {
    if isSupported then contractCount else 0
  }

  /** The header counts positions exactly when the rows are shown, and then
      it counts every row. */
  lemma PositionsCountedIffRowsShown(chainId: Option<int>, account: Option<string>, chains: seq<int>,
                                     contractCount: nat)
    ensures var supported := IsSupportedChainId(chainId, account, chains);
      && (PositionCount(supported, contractCount) > 0 <==> StatusLabel(account, supported, contractCount) == NoStatus)
      && (StatusLabel(account, supported, contractCount) == NoStatus ==> PositionCount(supported, contractCount) == contractCount)
  {
  }

  /** One entry of `Object.entries(balances)`: the contract and its equity,
      as `parseFloat` reads it (an abstract ordered number here). */
  datatype Balance = Balance(contract: string, equity: real)

  predicate NonIncreasing(s: seq<Balance>) {
    forall i, j :: 0 <= i < j < |s| ==> s[i].equity >= s[j].equity
  }

  /** Places `b` before the first entry whose equity it reaches, as the
      comparator (`-1` when `a.equity >= b.equity`) asks. */
  function Insert(b: Balance, sorted: seq<Balance>): (r: seq<Balance>)
    requires NonIncreasing(sorted)
    ensures NonIncreasing(r)
    ensures multiset(r) == multiset(sorted) + multiset{b}
    ensures |r| == |sorted| + 1 && (r[0] == b || (sorted != [] && r[0] == sorted[0]))
    decreases |sorted|
  {
    if sorted == [] || b.equity >= sorted[0].equity then
      [b] + sorted
    else
      var rest := Insert(b, sorted[1..]);
      assert sorted == [sorted[0]] + sorted[1..];
      ConsNonIncreasing(sorted[0], rest);
      [sorted[0]] + rest
  }

  lemma ConsNonIncreasing(x: Balance, s: seq<Balance>)
    requires NonIncreasing(s) && (s == [] || x.equity >= s[0].equity)
    ensures NonIncreasing([x] + s)
  {
    assert forall j :: 0 <= j < |s| ==> x.equity >= s[0].equity >= s[j].equity;
  }

  /** `Object.entries(balances).sort(sortBalances)`: the entries in
      non-increasing order of equity. Ties are left in an order the sort
      does not promise; this is one valid order. */
  function SortByEquity(entries: seq<Balance>): (sorted: seq<Balance>)
    ensures NonIncreasing(sorted)
    ensures multiset(sorted) == multiset(entries)
    decreases |entries|
  {
    if entries == [] then []
    else
      assert entries == entries[..|entries| - 1] + [entries[|entries| - 1]];
      Insert(entries[|entries| - 1], SortByEquity(entries[..|entries| - 1]))
  }

  function Names(entries: seq<Balance>): (names: seq<string>)
    ensures |names| == |entries|
    ensures forall i :: 0 <= i < |entries| ==> names[i] == entries[i].contract
  {
    seq(|entries|, i requires 0 <= i < |entries| => entries[i].contract)
  }

  /** `contracts`: the held contracts, richest first. */
  function Contracts(entries: seq<Balance>): (contracts: seq<string>)
    ensures |contracts| == |entries|
    ensures forall c :: c in contracts <==> c in Names(entries)
  {
    var sorted := SortByEquity(entries);
    assert |sorted| == |multiset(sorted)| == |multiset(entries)| == |entries|;
    forall c ensures c in Names(sorted) <==> c in Names(entries) {
      if c in Names(sorted) {
        NameKept(sorted, entries, c);
      }
      if c in Names(entries) {
        NameKept(entries, sorted, c);
      }
    }
    Names(sorted)
  }

  /** A name held by some entry is held by every permutation of the entries. */
  lemma NameKept(a: seq<Balance>, b: seq<Balance>, c: string)
    requires multiset(a) == multiset(b) && c in Names(a)
    ensures c in Names(b)
  {
    var i :| 0 <= i < |a| && Names(a)[i] == c;
    assert a[i] in multiset(b);
    var j :| 0 <= j < |b| && b[j] == a[i];
    assert Names(b)[j] == c;
  }

  predicate Distinct(names: seq<string>) {
    forall i, j :: 0 <= i < j < |names| ==> names[i] != names[j]
  }

  /** The equity recorded for `name` (any entry of that name: with
      distinct keys there is only one). */
  ghost function EquityOf(entries: seq<Balance>, name: string): real
    requires name in Names(entries)
  {
    var i :| 0 <= i < |entries| && entries[i].contract == name;
    entries[i].equity
  }

  /** With distinct keys, each entry's equity is the equity recorded for its contract. */
  lemma EquityOfEntry(entries: seq<Balance>, k: nat)
    requires Distinct(Names(entries))
    requires k < |entries|
    ensures entries[k].contract in Names(entries) && EquityOf(entries, entries[k].contract) == entries[k].equity
  {
    assert Names(entries)[k] == entries[k].contract;
  }

  /** The contracts are listed in non-increasing order of their equity. */
  lemma ContractsInEquityOrder(entries: seq<Balance>)
    requires Distinct(Names(entries))
    ensures var contracts := Contracts(entries);
      forall i, j :: 0 <= i < j < |contracts| ==>
        contracts[i] in Names(entries) && contracts[j] in Names(entries) &&
        EquityOf(entries, contracts[i]) >= EquityOf(entries, contracts[j])
  {
    var sorted := SortByEquity(entries);
    var contracts := Contracts(entries);
    forall i | 0 <= i < |sorted|
      ensures contracts[i] in Names(entries) && EquityOf(entries, contracts[i]) == sorted[i].equity
    {
      assert sorted[i] in multiset(entries);
      var k :| 0 <= k < |entries| && entries[k] == sorted[i];
      EquityOfEntry(entries, k);
    }
  }

  /** The equity cell of a position row. */
  datatype EquityLabel =
    | Dashes                             // `-- %`
    | Dollars(equity: real)              // the equity in dollars
    | Percent(equity: real, total: real) // the equity as a share of the total

  /** `equityLabel`: dashes when equity is hidden and the total is zero,
      dollars when equity is shown, otherwise the share of the total. */
  function EquityLabelFor(showEquity: bool, equity: real, totalEquity: real): (l: EquityLabel)
    ensures l == Dashes <==> !showEquity && totalEquity == 0.0
    ensures l.Dollars? <==> showEquity
    ensures l.Dollars? ==> l.equity == equity
    ensures l.Percent? ==> l.equity == equity && l.total == totalEquity && l.total != 0.0
  {
    if !showEquity && totalEquity == 0.0 then Dashes
    else if showEquity then Dollars(equity)
    else Percent(equity, totalEquity)
  }
}
