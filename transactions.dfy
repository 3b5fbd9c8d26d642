/** The trade history: transactions grouped by day, revealed one day at a
    time, each shown as a Buy or Sell row. */
module Transactions {
  import opened Common

  /** A trade as the indexer returns it. The timestamp is in seconds and is
      taken as already parsed from its decimal string. */
  datatype Tx = Tx(id: string, timestamp: nat, kind: string, amountIn: string, amountOut: string,
                   price: string, registrarSymbol: string)

  const SecondsPerDay := 86400

  /** `Math.floor(parseInt(tx.timestamp) / 86400)`: the day number. */
  function Day(tx: Tx): (d: nat)
    ensures d * SecondsPerDay <= tx.timestamp < (d + 1) * SecondsPerDay
  {
    tx.timestamp / SecondsPerDay
  }

  /** The transactions of day `d`, in input order. */
  function OnDay(txs: seq<Tx>, d: nat): seq<Tx>
    decreases |txs|
  {
    if txs == [] then []
    else OnDay(txs[..|txs| - 1], d) + (if Day(txs[|txs| - 1]) == d then [txs[|txs| - 1]] else [])
  }

  /** The day numbers that occur in `txs`. */
  function DaysOf(txs: seq<Tx>): set<nat>
    decreases |txs|
  {
    if txs == [] then {} else DaysOf(txs[..|txs| - 1]) + {Day(txs[|txs| - 1])}
  }

  lemma {:induction false} DaysOfMembers(txs: seq<Tx>)
    ensures forall d :: d in DaysOf(txs) <==> exists t :: t in txs && Day(t) == d
    decreases |txs|
  {
    if txs != [] {
      var init := txs[..|txs| - 1];
      DaysOfMembers(init);
      assert txs == init + [txs[|txs| - 1]];
    }
  }

  /** A day occurs in `txs` exactly when it has transactions. */
  lemma {:induction false} OnDayNonEmpty(txs: seq<Tx>, d: nat)
    ensures OnDay(txs, d) != [] <==> d in DaysOf(txs)
    decreases |txs|
  {
    if txs != [] {
      OnDayNonEmpty(txs[..|txs| - 1], d);
    }
  }

  /** The positions of the transactions of day `d`, ascending. */
  ghost function Positions(txs: seq<Tx>, d: nat): seq<nat>
    decreases |txs|
  {
    if txs == [] then []
    else Positions(txs[..|txs| - 1], d) + (if Day(txs[|txs| - 1]) == d then [|txs| - 1] else [])
  }

  /** The k-th transaction of the day is the one at the k-th position. */
  lemma {:induction false} PositionsSelect(txs: seq<Tx>, d: nat)
    ensures |Positions(txs, d)| == |OnDay(txs, d)|
    ensures forall k :: 0 <= k < |Positions(txs, d)| ==>
      Positions(txs, d)[k] < |txs| && OnDay(txs, d)[k] == txs[Positions(txs, d)[k]] && Day(txs[Positions(txs, d)[k]]) == d
    decreases |txs|
  {
    if txs != [] {
      var n := |txs| - 1;
      PositionsSelect(txs[..n], d);
      assert forall p :: 0 <= p < n ==> txs[..n][p] == txs[p];
    }
  }

  /** The positions strictly increase: the day keeps the input order. */
  lemma {:induction false} PositionsIncrease(txs: seq<Tx>, d: nat)
    ensures forall k :: 0 <= k < |Positions(txs, d)| ==> Positions(txs, d)[k] < |txs|
    ensures forall k, l :: 0 <= k < l < |Positions(txs, d)| ==> Positions(txs, d)[k] < Positions(txs, d)[l]
    decreases |txs|
  {
    if txs != [] {
      PositionsIncrease(txs[..|txs| - 1], d);
    }
  }

  /** Every position of a transaction of day `d` is listed. */
  lemma {:induction false} PositionsComplete(txs: seq<Tx>, d: nat)
    ensures forall p :: 0 <= p < |txs| && Day(txs[p]) == d ==> p in Positions(txs, d)
    decreases |txs|
  {
    if txs != [] {
      var n := |txs| - 1;
      PositionsComplete(txs[..n], d);
      assert forall p :: 0 <= p < n ==> txs[..n][p] == txs[p];
    }
  }

  /** `OnDay` keeps exactly the transactions of that day, in input order:
      the k-th element is the transaction at position idx[k] of the input,
      the positions increase, and every position of that day is taken. */
  lemma OnDayIsFilter(txs: seq<Tx>, d: nat) returns (idx: seq<nat>)
    ensures |idx| == |OnDay(txs, d)|
    ensures forall k :: 0 <= k < |idx| ==> idx[k] < |txs| && OnDay(txs, d)[k] == txs[idx[k]] && Day(txs[idx[k]]) == d
    ensures forall k, l :: 0 <= k < l < |idx| ==> idx[k] < idx[l]
    ensures forall p :: 0 <= p < |txs| && Day(txs[p]) == d ==> p in idx
  {
    idx := Positions(txs, d);
    PositionsSelect(txs, d);
    PositionsIncrease(txs, d);
    PositionsComplete(txs, d);
  }

  /** The least element of a non-empty set of day numbers. */
  ghost function MinOf(s: set<nat>): (m: nat)
    requires s != {}
    ensures m in s && forall x :: x in s ==> m <= x
  {
    MinExists(s);
    var m :| m in s && forall x :: x in s ==> m <= x; m
  }

  lemma MinExists(s: set<nat>)
    requires s != {}
    ensures exists m :: m in s && forall x :: x in s ==> m <= x
  {
    var y :| y in s;
    MinBelow(s, y);
  }

  /** Descending from any element reaches a least one, since day numbers
      cannot decrease forever. */
  lemma {:induction false} MinBelow(s: set<nat>, y: nat)
    requires y in s
    ensures exists m :: m in s && forall x :: x in s ==> m <= x
    decreases y
  {
    if !forall x :: x in s ==> y <= x {
      var z :| z in s && z < y;
      MinBelow(s, z);
    }
  }

  predicate StrictlyIncreasing(s: seq<nat>) {
    forall i, j :: 0 <= i < j < |s| ==> s[i] < s[j]
  }

  /** The elements of `s` in ascending order: the least first, then the rest. */
  ghost function Ascending(s: set<nat>): seq<nat>
    decreases s
  {
    if s == {} then [] else [MinOf(s)] + Ascending(s - {MinOf(s)})
  }

  /** `Ascending` lists every element of the set once, in strictly increasing order. */
  lemma {:induction false} AscendingSorts(s: set<nat>)
    ensures StrictlyIncreasing(Ascending(s))
    ensures forall x :: x in Ascending(s) <==> x in s
    ensures |Ascending(s)| == |s|
    decreases s
  {
    if s != {} {
      var m := MinOf(s);
      var rest := Ascending(s - {m});
      AscendingSorts(s - {m});
      assert Ascending(s) == [m] + rest;
      forall i, j | 0 <= i < j < |Ascending(s)| ensures Ascending(s)[i] < Ascending(s)[j] {
        if i == 0 {
          assert rest[j - 1] in s - {m};
        }
      }
    }
  }

  /** An ascending sequence is determined by the elements it holds. */
  lemma {:induction false} AscendingUnique(a: seq<nat>, b: seq<nat>)
    requires StrictlyIncreasing(a) && StrictlyIncreasing(b)
    requires |a| == |b|
    requires forall x :: x in a <==> x in b
    ensures a == b
    decreases |a|
  {
    if a != [] {
      assert b[0] in a;
      var i :| 0 <= i < |a| && a[i] == b[0];
      assert a[0] <= a[i];
      assert a[0] in b;
      var j :| 0 <= j < |b| && b[j] == a[0];
      assert b[0] <= b[j];
      forall x ensures x in a[1..] <==> x in b[1..] {
        if x in a[1..] {
          var k :| 1 <= k < |a| && a[k] == x;
          assert x in b;
          assert x != b[0];
        }
        if x in b[1..] {
          var k :| 1 <= k < |b| && b[k] == x;
          assert x in a;
          assert x != a[0];
        }
      }
      AscendingUnique(a[1..], b[1..]);
      assert a == [a[0]] + a[1..] && b == [b[0]] + b[1..];
    }
  }

  /** The day numbers of `txs`, ascending: the order in which `Object.values`
      returns the groups of an object whose keys are these integers. */
  ghost function GroupDays(txs: seq<Tx>): (days: seq<nat>)
    ensures StrictlyIncreasing(days)
    ensures forall d :: d in days <==> d in DaysOf(txs)
    ensures |days| == |DaysOf(txs)|
  {
    AscendingSorts(DaysOf(txs));
    Ascending(DaysOf(txs))
  }

  /** The order of the groups is forced: any strictly increasing list of
      exactly the days of the history is `GroupDays`. */
  lemma GroupOrderIsForced(txs: seq<Tx>, days: seq<nat>)
    requires StrictlyIncreasing(days) && |days| == |DaysOf(txs)|
    requires forall d :: d in days <==> d in DaysOf(txs)
    ensures days == GroupDays(txs)
  {
    AscendingUnique(days, GroupDays(txs));
  }

  /** The grouped history: one group per day, days ascending. */
  ghost function Grouped(txs: seq<Tx>): (groups: seq<seq<Tx>>)
    ensures |groups| == |GroupDays(txs)|
  {
    var days := GroupDays(txs);
    seq(|days|, i requires 0 <= i < |days| => OnDay(txs, days[i]))
  }

  /** No group is empty, and all members of a group share the group's day. */
  lemma GroupsShareTheirDay(txs: seq<Tx>, i: nat)
    requires i < |Grouped(txs)|
    ensures Grouped(txs)[i] != []
    ensures forall t :: t in Grouped(txs)[i] ==> Day(t) == GroupDays(txs)[i]
  {
    var day := GroupDays(txs)[i];
    var group := Grouped(txs)[i];
    assert group == OnDay(txs, day);
    OnDayNonEmpty(txs, day);
    var idx := OnDayIsFilter(txs, day);
    forall t | t in group ensures Day(t) == day {
      var k :| 0 <= k < |group| && group[k] == t;
    }
  }

  /** Every transaction sits in the group of its own day. */
  lemma EveryTransactionGrouped(txs: seq<Tx>, p: nat)
    requires p < |txs|
    ensures exists i :: 0 <= i < |Grouped(txs)| && GroupDays(txs)[i] == Day(txs[p]) && txs[p] in Grouped(txs)[i]
  {
    var days := GroupDays(txs);
    DaysOfMembers(txs);
    assert Day(txs[p]) in DaysOf(txs);
    var i :| 0 <= i < |days| && days[i] == Day(txs[p]);
    var idx := OnDayIsFilter(txs, days[i]);
    var k :| 0 <= k < |idx| && idx[k] == p;
    assert Grouped(txs)[i][k] == txs[p];
  }

  /** Grouping is a partition of the history: no group is empty, all members
      of a group share its day, the days strictly increase from group to
      group (so no two groups share a day), and each transaction belongs to
      a group. */
  lemma GroupedIsPartition(txs: seq<Tx>)
    ensures var groups := Grouped(txs);
      && (forall i :: 0 <= i < |groups| ==> groups[i] != [])
      && (forall i, t :: 0 <= i < |groups| && t in groups[i] ==> Day(t) == Day(groups[i][0]))
      && (forall i, j :: 0 <= i < j < |groups| ==> Day(groups[i][0]) < Day(groups[j][0]))
      && (forall t :: t in txs ==> exists i :: 0 <= i < |groups| && t in groups[i])
  {
    var groups, days := Grouped(txs), GroupDays(txs);
    forall i | 0 <= i < |groups|
      ensures groups[i] != [] && Day(groups[i][0]) == days[i]
      ensures forall t :: t in groups[i] ==> Day(t) == days[i]
    {
      GroupsShareTheirDay(txs, i);
    }
    forall t | t in txs ensures exists i :: 0 <= i < |groups| && t in groups[i] {
      var p :| 0 <= p < |txs| && txs[p] == t;
      EveryTransactionGrouped(txs, p);
    }
  }

  lemma OnDayAppend(txs: seq<Tx>, tx: Tx, d: nat)
    ensures OnDay(txs + [tx], d) == OnDay(txs, d) + (if Day(tx) == d then [tx] else [])
    ensures DaysOf(txs + [tx]) == DaysOf(txs) + {Day(tx)}
  {
    assert (txs + [tx])[..|txs|] == txs;
  }

  /** The `reduce` of the component: an accumulator keyed by day number
      gets a new empty group the first time a day is seen, and each
      transaction is appended to the group of its day. */
  method AccumulateByDay(txs: seq<Tx>) returns (acc: map<nat, seq<Tx>>)
    ensures Accumulates(acc, txs)
  {
    acc := map[];
    for i := 0 to |txs|
      invariant Accumulates(acc, txs[..i])
    {
      var tx := txs[i];
      var d := Day(tx);
      ghost var before := acc;
      if d !in acc {
        acc := acc[d := []];
      }
      acc := acc[d := acc[d] + [tx]];
      AccumulateStep(before, txs[..i], tx);
      assert acc == Pushed(before, tx);
      assert txs[..i + 1] == txs[..i] + [tx];
    }
    assert txs[..|txs|] == txs;
  }

  /** `acc` holds, for every day of `done`, the transactions of that day. */
  ghost predicate Accumulates(acc: map<nat, seq<Tx>>, done: seq<Tx>) {
    acc.Keys == DaysOf(done) && forall d :: d in acc ==> acc[d] == OnDay(done, d)
  }

  /** The accumulator after `tx` is pushed onto the group of its day. */
  ghost function Pushed(acc: map<nat, seq<Tx>>, tx: Tx): map<nat, seq<Tx>> {
    acc[Day(tx) := (if Day(tx) in acc then acc[Day(tx)] else []) + [tx]]
  }

  lemma AccumulateStep(acc: map<nat, seq<Tx>>, done: seq<Tx>, tx: Tx)
    requires Accumulates(acc, done)
    ensures Accumulates(Pushed(acc, tx), done + [tx])
  {
    var d := Day(tx);
    forall e ensures OnDay(done + [tx], e) == OnDay(done, e) + (if d == e then [tx] else []) {
      OnDayAppend(done, tx, e);
    }
    OnDayAppend(done, tx, d);
    if d !in acc {
      OnDayNonEmpty(done, d);
    }
  }

  /** `Object.values` of an object whose keys are day numbers: the values
      in ascending key order. */
  method ValuesByAscendingKey(m: map<nat, seq<Tx>>) returns (values: seq<seq<Tx>>)
    ensures values == AscendingValues(m)
  {
    var left := m.Keys;
    ghost var all := Ascending(m.Keys);
    AscendingKeysInMap(m);
    values := [];
    while left != {}
      invariant left <= m.Keys
      invariant |values| <= |all|
      invariant all[|values|..] == Ascending(left)
      invariant forall i :: 0 <= i < |values| ==> values[i] == m[all[i]]
      decreases left
    {
      var k := LeastKey(left);
      NextKey(all, |values|, left, k);
      values := values + [m[k]];
      left := left - {k};
    }
  }

  lemma NextKey(all: seq<nat>, n: nat, left: set<nat>, k: nat)
    requires n <= |all| && all[n..] == Ascending(left)
    requires k in left && forall e :: e in left ==> k <= e
    ensures n < |all| && all[n] == k && all[n + 1..] == Ascending(left - {k})
  {
    AscendingStep(left, k);
    assert all[n..][0] == k;
    assert all[n + 1..] == all[n..][1..];
  }

  lemma AscendingKeysInMap(m: map<nat, seq<Tx>>)
    ensures forall i :: 0 <= i < |Ascending(m.Keys)| ==> Ascending(m.Keys)[i] in m
  {
    AscendingSorts(m.Keys);
  }

  /** The values of `m` in ascending order of their keys. */
  ghost function AscendingValues(m: map<nat, seq<Tx>>): (values: seq<seq<Tx>>)
    ensures |values| == |m|
  {
    var keys := Ascending(m.Keys);
    AscendingKeysInMap(m);
    AscendingSorts(m.Keys);
    seq(|keys|, i requires 0 <= i < |keys| => m[keys[i]])
  }

  /** The least day number of a non-empty set. */
  method LeastKey(s: set<nat>) returns (k: nat)
    requires s != {}
    ensures k in s && forall e :: e in s ==> k <= e
  {
    MinExists(s);
    k :| k in s && forall e :: e in s ==> k <= e;
  }

  /** Taking the least element off a set takes the head off its ascending sequence. */
  lemma AscendingStep(s: set<nat>, k: nat)
    requires k in s && forall e :: e in s ==> k <= e
    ensures Ascending(s) == [k] + Ascending(s - {k})
  {
    assert MinOf(s) <= k && k <= MinOf(s);
  }

  /** The memo `groupedTransactions`: accumulate by day, then read the groups out. */
  method GroupByDay(txs: seq<Tx>) returns (groups: seq<seq<Tx>>)
    ensures groups == Grouped(txs)
  {
    var acc := AccumulateByDay(txs);
    groups := ValuesByAscendingKey(acc);
  }

  const ItemsPerOffset := 1

  /** `groupedTransactions.slice(0, offset * ITEMS_PER_OFFSET + ITEMS_PER_OFFSET)` */
  function Paginate(groups: seq<seq<Tx>>, offset: nat): (page: seq<seq<Tx>>)
    ensures page <= groups
    ensures |page| == Min(offset + 1, |groups|)
  {
    SliceTo(groups, offset * ItemsPerOffset + ItemsPerOffset)
  }

  /** `paginatedTransactions.length !== groupedTransactions.length` */
  function ShowLoadMore(page: seq<seq<Tx>>, groups: seq<seq<Tx>>): (b: bool)
    ensures page <= groups ==> (b <==> |page| < |groups|)
  {
    |page| != |groups|
  }

  /** The button shows exactly when some day is still hidden. */
  lemma ShowLoadMoreExactly(groups: seq<seq<Tx>>, offset: nat)
    ensures ShowLoadMore(Paginate(groups, offset), groups) <==> offset + 1 < |groups|
  {
  }

  /** Loading more reveals the next day and keeps the ones already shown;
      once everything is shown it changes nothing. */
  lemma LoadMoreRevealsNextDay(groups: seq<seq<Tx>>, offset: nat)
    ensures offset + 1 < |groups| ==> Paginate(groups, offset + 1) == Paginate(groups, offset) + [groups[offset + 1]]
    ensures offset + 1 >= |groups| ==> Paginate(groups, offset + 1) == Paginate(groups, offset) == groups
  {
    if offset + 1 < |groups| {
      assert groups[..offset + 2] == groups[..offset + 1] + [groups[offset + 1]];
    }
  }

  /** The history renders nothing without an account or chain, or when there
      is no visible group, which happens exactly when there are no
      transactions. */
  function RendersHistory(account: Option<string>, chainId: Option<int>, page: seq<seq<Tx>>): (r: bool)
    ensures r <==> Truthy(account) && ChainSet(chainId) && page != []
  {
    Truthy(account) && ChainSet(chainId) && |page| != 0
  }

  lemma PageEmptyIffNoTransactions(txs: seq<Tx>, offset: nat)
    ensures Paginate(Grouped(txs), offset) == [] <==> txs == []
  {
    if txs != [] {
      assert Day(txs[0]) in DaysOf(txs) by { DaysOfMembers(txs); }
    }
  }

  /** The history component's state: the session it was rendered for, the
      fetched transactions with their grouping, and the page counter. */
  class TradeHistory {
    var account: Option<string>
    var chainId: Option<int>
    var transactions: seq<Tx>
    var grouped: seq<seq<Tx>>
    var offset: nat

    ghost predicate Valid()
      reads this
    {
      grouped == Grouped(transactions)
    }

    constructor (account: Option<string>, chainId: Option<int>)
      ensures Valid()
      ensures this.account == account && this.chainId == chainId
      ensures transactions == [] && offset == 0
    {
      this.account := account;
      this.chainId := chainId;
      transactions := [];
      grouped := [];
      offset := 0;
      assert DaysOf([]) == {};
    }

    /** The fetched transactions arrive: the grouping is recomputed. */
    method ReceiveTransactions(txs: seq<Tx>)
      modifies this
      ensures Valid()
      ensures transactions == txs
      ensures account == old(account) && chainId == old(chainId) && offset == old(offset)
    {
      var groups := GroupByDay(txs);
      transactions, grouped := txs, groups;
    }

    /** `onLoadMore`: one more day becomes visible. */
    method LoadMore()
      requires Valid()
      modifies this
      ensures Valid()
      ensures offset == old(offset) + 1
      ensures account == old(account) && chainId == old(chainId) && transactions == old(transactions)
      ensures old(ShowLoadMore(Page(), grouped)) ==> Page() == old(Page()) + [grouped[old(offset) + 1]]
      ensures !old(ShowLoadMore(Page(), grouped)) ==> Page() == old(Page())
    {
      LoadMoreRevealsNextDay(grouped, offset);
      offset := offset + 1;
    }

    /** The effect on `[chainId, account]`: a change of either resets the counter. */
    method SessionChanged(account: Option<string>, chainId: Option<int>)
      requires Valid()
      modifies this
      ensures Valid()
      ensures this.account == account && this.chainId == chainId && transactions == old(transactions)
      ensures offset == if account != old(this.account) || chainId != old(this.chainId) then 0 else old(offset)
    {
      if account != this.account || chainId != this.chainId {
        offset := 0;
      }
      this.account, this.chainId := account, chainId;
    }

    /** The visible groups. */
    function Page(): seq<seq<Tx>>
      reads this
    {
      Paginate(grouped, offset)
    }

    function Renders(): (r: bool)
      reads this
      requires Valid()
      ensures r <==> Truthy(account) && ChainSet(chainId) && transactions != []
    {
      PageEmptyIffNoTransactions(transactions, offset);
      RendersHistory(account, chainId, Page())
    }
  }

  /** A price cell: the constant `1` for the DEI side, or the trade price
      formatted with `toFixed(2)` (left uninterpreted). */
  datatype PriceCell = One | Quoted(price: string)

  /** What a history row displays. */
  datatype Row = Row(action: string, tickerIn: string, tickerOut: string, amountIn: string, amountOut: string,
                     priceIn: PriceCell, priceOut: PriceCell, color: string, txHash: string)

  const AmountChars := 8

  /** The fields of `TransactionRow`. */
  function RowFields(tx: Tx): (r: Row)
    ensures r.action == (if tx.kind == "open" then "Buy" else "Sell")
    ensures r.amountIn <= tx.amountIn && |r.amountIn| == Min(AmountChars, |tx.amountIn|)
    ensures r.amountOut <= tx.amountOut && |r.amountOut| == Min(AmountChars, |tx.amountOut|)
    ensures r.txHash == tx.id
    ensures r.action == "Buy" ==> r.tickerIn == "DEI" && r.tickerOut == tx.registrarSymbol
                                   && r.priceIn == One && r.priceOut == Quoted(tx.price) && r.color == "green"
    ensures r.action == "Sell" ==> r.tickerIn == tx.registrarSymbol && r.tickerOut == "DEI"
                                    && r.priceIn == Quoted(tx.price) && r.priceOut == One && r.color == "red"
  {
    var amountIn, amountOut := SliceTo(tx.amountIn, AmountChars), SliceTo(tx.amountOut, AmountChars);
    if tx.kind == "open" then
      Row("Buy", "DEI", tx.registrarSymbol, amountIn, amountOut, One, Quoted(tx.price), "green", tx.id)
    else
      Row("Sell", tx.registrarSymbol, "DEI", amountIn, amountOut, Quoted(tx.price), One, "red", tx.id)
  }

  /** A sale row mirrors the purchase row of the same trade: tickers and
      prices trade places, the amounts and the hash stay. */
  lemma SellMirrorsBuy(tx: Tx, other: string)
    requires other != "open"
    ensures var buy, sell := RowFields(tx.(kind := "open")), RowFields(tx.(kind := other));
      && sell.tickerIn == buy.tickerOut && sell.tickerOut == buy.tickerIn
      && sell.priceIn == buy.priceOut && sell.priceOut == buy.priceIn
      && sell.amountIn == buy.amountIn && sell.amountOut == buy.amountOut
      && sell.txHash == buy.txHash && sell.color != buy.color
  {
  }
}
