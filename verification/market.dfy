/**
 * The "market" strategy: buy the three index ETFs if the market is up on the
 * day and sell them otherwise, sizing each position as a fixed share of the
 * account's cash. The class doc-comment names 11:00 New York time, but `run`
 * does not wait for it: it trades whenever it is called.
 *
 * The broker's rules are those of the Alpaca adapter in `brokers/alpaca.py`:
 * `valid` stands for its asset lookup, an `Account` for `get_account()`. The data API's latest prices, change over the
 * previous close and quote are inputs of `Run`.
 */
module Market {
  import opened Alpaca
  import Strategy
  import opened Broker

  /** One entry of the per-symbol table that `calc_shares_to_order` fills in. */
  datatype AssetEntry = AssetEntry(factor: real, latestPrice: real, cashToAllocate: real, sharesToOrder: int)

  /** The market strategy allocates all of its cash (the base default is 0.1). */
  const MarketRiskPct: real := 1.0

  /** Each ETF gets a third of the cash, rounded down to 0.333. */
  const DefaultFactor: real := 0.333

  /** An entry before any sizing: the factor, and zeros elsewhere. */
  const Unsized: AssetEntry := AssetEntry(DefaultFactor, 0.0, 0.0, 0)

  /** The table's keys as the source writes them: the Dow Jones under its index name. */
  const AsWrittenAssetKeys: seq<string> := ["SPY", "DJIA", "QQQ"]

  /** The table's keys as the symbol list names them: the Dow Jones under its ETF ticker. */
  const AssetKeys: seq<string> := ["SPY", "DIA", "QQQ"]

  /** A fresh table with the given keys, in that order. */
  function AssetTable(keys: seq<string>): (table: map<string, AssetEntry>)
    ensures forall k :: k in table <==> k in keys
    ensures forall k :: k in table ==> table[k] == Unsized
  {
    map k | k in keys :: Unsized
  }

  // ---------------------------------------------------------------------------
  // Sizing

  /** One entry after sizing at `latestPrice`, given the cash and the risk share. */
  function Size(entry: AssetEntry, latestPrice: real, cash: real, riskPct: real): AssetEntry
    requires latestPrice != 0.0
  {
    var cashToAllocate := cash * riskPct * entry.factor;
    AssetEntry(entry.factor, latestPrice, cashToAllocate, (cashToAllocate / latestPrice).Floor)
  }

  /** What `calc_shares_to_order` may assume: every symbol has an entry and a nonzero price. */
  ghost predicate CanSize(table: map<string, AssetEntry>, symbols: seq<string>, latestPrices: map<string, real>)
  {
    forall s :: s in symbols ==> s in table && s in latestPrices && latestPrices[s] != 0.0
  }

  /** The table after `calc_shares_to_order`: the listed symbols sized, every other entry as it was. */
  function SizedTable(table: map<string, AssetEntry>, symbols: seq<string>, latestPrices: map<string, real>,
                      cash: real, riskPct: real): map<string, AssetEntry>
    requires CanSize(table, symbols, latestPrices)
  {
    map k | k in table :: if k in symbols then Size(table[k], latestPrices[k], cash, riskPct) else table[k]
  }

  /**
   * The number of shares is the largest whole number whose cost at the latest
   * price stays within the cash allocated; the allocation is cash times risk
   * times the symbol's factor, and the factor itself is kept.
   */
  lemma SharesBracket(entry: AssetEntry, latestPrice: real, cash: real, riskPct: real)
    requires 0.0 < latestPrice
    ensures var sized := Size(entry, latestPrice, cash, riskPct);
      && sized.factor == entry.factor && sized.latestPrice == latestPrice
      && sized.cashToAllocate == cash * riskPct * entry.factor
      && sized.sharesToOrder as real * latestPrice <= sized.cashToAllocate
      && sized.cashToAllocate < (sized.sharesToOrder + 1) as real * latestPrice
  {
    var sized := Size(entry, latestPrice, cash, riskPct);
    var x := sized.cashToAllocate / latestPrice;
    var n := sized.sharesToOrder as real;
    assert n <= x < n + 1.0;
    assert x * latestPrice == sized.cashToAllocate;
    MultiplyKeepsOrder(n, x, latestPrice);
    MultiplyKeepsStrictOrder(x, n + 1.0, latestPrice);
    assert x * latestPrice < (n + 1.0) * latestPrice;
    assert sized.cashToAllocate < (n + 1.0) * latestPrice;
    assert (sized.sharesToOrder + 1) as real == n + 1.0;
  }

  lemma MultiplyKeepsOrder(a: real, b: real, c: real)
    requires a <= b && 0.0 < c
    ensures a * c <= b * c
  {
    assert b * c - a * c == (b - a) * c;
  }

  lemma MultiplyKeepsStrictOrder(a: real, b: real, c: real)
    requires a < b && 0.0 < c
    ensures a * c < b * c
  {
    assert b * c - a * c == (b - a) * c;
  }

  /** With no debt, a nonnegative factor and a positive price, no negative share count is ordered. */
  lemma SharesNonNegative(entry: AssetEntry, latestPrice: real, cash: real, riskPct: real)
    requires 0.0 < latestPrice && 0.0 <= cash && 0.0 <= riskPct && 0.0 <= entry.factor
    ensures 0 <= Size(entry, latestPrice, cash, riskPct).sharesToOrder
  {
    var cashToAllocate := cash * riskPct * entry.factor;
    assert 0.0 <= cash * riskPct;
    assert 0.0 <= cashToAllocate;
    assert 0.0 <= cashToAllocate / latestPrice;
  }

  /**
   * The table after sizing `symbols` one after another, as the loop of
   * `calc_shares_to_order` does; each step re-sizes the entry as it then stands.
   */
  function SizeInOrder(table: map<string, AssetEntry>, symbols: seq<string>, latestPrices: map<string, real>,
                       cash: real, riskPct: real): (sized: map<string, AssetEntry>)
    requires CanSize(table, symbols, latestPrices)
    ensures sized.Keys == table.Keys
    decreases |symbols|
  {
    if symbols == [] then table
    else
      var last := symbols[|symbols| - 1];
      var before := SizeInOrder(table, symbols[..|symbols| - 1], latestPrices, cash, riskPct);
      before[last := Size(before[last], latestPrices[last], cash, riskPct)]
  }

  /** The fold after `i + 1` symbols is the fold after `i` with the `i`-th symbol re-sized. */
  lemma SizeInOrderStep(table: map<string, AssetEntry>, symbols: seq<string>, i: nat,
                        latestPrices: map<string, real>, cash: real, riskPct: real)
    requires i < |symbols| && CanSize(table, symbols, latestPrices)
    ensures CanSize(table, symbols[..i], latestPrices) && CanSize(table, symbols[..i + 1], latestPrices)
    ensures var before := SizeInOrder(table, symbols[..i], latestPrices, cash, riskPct);
      symbols[i] in before &&
      SizeInOrder(table, symbols[..i + 1], latestPrices, cash, riskPct)
        == before[symbols[i] := Size(before[symbols[i]], latestPrices[symbols[i]], cash, riskPct)]
  {
    assert symbols[..i + 1][..i] == symbols[..i];
  }

  /**
   * Sizing in order gives the same table as sizing every listed symbol once from
   * the original entries: the order of the symbols and repeated symbols make no
   * difference.
   */
  lemma {:induction false} SizeInOrderIsPointwise(table: map<string, AssetEntry>, symbols: seq<string>,
                                                  latestPrices: map<string, real>, cash: real, riskPct: real)
    requires CanSize(table, symbols, latestPrices)
    ensures SizeInOrder(table, symbols, latestPrices, cash, riskPct) == SizedTable(table, symbols, latestPrices, cash, riskPct)
    decreases |symbols|
  {
    if symbols != [] {
      var init, last := symbols[..|symbols| - 1], symbols[|symbols| - 1];
      assert symbols == init + [last];
      SizeOneMore(table, init, last, latestPrices, cash, riskPct);
      SizeInOrderIsPointwise(table, init, latestPrices, cash, riskPct);
    }
  }

  /** Sizing one more symbol re-sizes its current entry and leaves the rest of the table alone. */
  lemma SizeOneMore(table: map<string, AssetEntry>, symbols: seq<string>, symbol: string,
                    latestPrices: map<string, real>, cash: real, riskPct: real)
    requires CanSize(table, symbols + [symbol], latestPrices)
    ensures CanSize(table, symbols, latestPrices)
    ensures var sized := SizedTable(table, symbols, latestPrices, cash, riskPct);
      symbol in sized &&
      SizedTable(table, symbols + [symbol], latestPrices, cash, riskPct)
        == sized[symbol := Size(sized[symbol], latestPrices[symbol], cash, riskPct)]
  {
    assert forall s :: s in symbols ==> s in symbols + [symbol];
    var sized := SizedTable(table, symbols, latestPrices, cash, riskPct);
    var longer := SizedTable(table, symbols + [symbol], latestPrices, cash, riskPct);
    var updated := sized[symbol := Size(sized[symbol], latestPrices[symbol], cash, riskPct)];
    forall k | k in table
      ensures longer[k] == updated[k]
    {
      if k == symbol {
        assert k in symbols + [symbol];
        SizeReadsFactorOnly(sized[k], table[k], latestPrices[k], cash, riskPct);
      } else {
        assert k in symbols + [symbol] <==> k in symbols;
      }
    }
    assert longer.Keys == updated.Keys;
  }

  /** Of an entry, sizing reads only the factor. */
  lemma SizeReadsFactorOnly(entry: AssetEntry, other: AssetEntry, latestPrice: real, cash: real, riskPct: real)
    requires latestPrice != 0.0 && entry.factor == other.factor
    ensures Size(entry, latestPrice, cash, riskPct) == Size(other, latestPrice, cash, riskPct)
  {
  }

  /** Sizing touches the listed symbols only, and sizing one twice gives what sizing it once gives. */
  lemma SizingUpdatesListedSymbolsOnly(table: map<string, AssetEntry>, symbols: seq<string>,
                                       latestPrices: map<string, real>, cash: real, riskPct: real)
    requires CanSize(table, symbols, latestPrices)
    ensures var sized := SizedTable(table, symbols, latestPrices, cash, riskPct);
      && sized.Keys == table.Keys
      && (forall k :: k in table && k !in symbols ==> sized[k] == table[k])
      && SizedTable(sized, symbols, latestPrices, cash, riskPct) == sized
  {
    var sized := SizedTable(table, symbols, latestPrices, cash, riskPct);
    assert CanSize(sized, symbols, latestPrices);
    var again := SizedTable(sized, symbols, latestPrices, cash, riskPct);
    forall k | k in sized
      ensures again[k] == sized[k]
    {
      if k in symbols {
        assert sized[k].factor == table[k].factor;
      }
    }
  }

  // ---------------------------------------------------------------------------
  // What the sized table costs

  /** The sum of the factors of `keys`. */
  function FactorSum(table: map<string, AssetEntry>, keys: seq<string>): real
    requires forall k :: k in keys ==> k in table
  {
    if keys == [] then 0.0 else table[keys[0]].factor + FactorSum(table, keys[1..])
  }

  /** What the orders for `keys` cost at the latest prices: shares times price, summed. */
  function Cost(table: map<string, AssetEntry>, keys: seq<string>): real
    requires forall k :: k in keys ==> k in table
  {
    if keys == [] then 0.0
    else table[keys[0]].sharesToOrder as real * table[keys[0]].latestPrice + Cost(table, keys[1..])
  }

  /** When no entry costs more than its share of `cash * riskPct`, the total stays within the summed shares. */
  lemma {:induction false} CostWithinFactorShare(table: map<string, AssetEntry>, keys: seq<string>, cash: real, riskPct: real)
    requires forall k :: k in keys ==> k in table
    requires forall k :: k in keys ==>
      table[k].sharesToOrder as real * table[k].latestPrice <= cash * riskPct * table[k].factor
    ensures Cost(table, keys) <= cash * riskPct * FactorSum(table, keys)
  {
    if keys != [] {
      CostWithinFactorShare(table, keys[1..], cash, riskPct);
      var f, rest := table[keys[0]].factor, FactorSum(table, keys[1..]);
      assert cash * riskPct * (f + rest) == cash * riskPct * f + cash * riskPct * rest;
    }
  }

  /** The three default factors add up to 0.999. */
  lemma DefaultFactorsSum()
    ensures FactorSum(AssetTable(AssetKeys), AssetKeys) == 0.999
  {
    var t := AssetTable(AssetKeys);
    assert AssetKeys[1..] == ["DIA", "QQQ"];
    assert AssetKeys[1..][1..] == ["QQQ"];
    assert FactorSum(t, ["QQQ"]) == DefaultFactor + FactorSum(t, []);
  }

  /**
   * Whatever subset of the ETFs the broker accepts and whatever the (positive)
   * prices, the orders placed from the default table cost no more than the cash.
   */
  lemma DefaultOrdersWithinCash(symbols: seq<string>, latestPrices: map<string, real>, cash: real)
    requires 0.0 <= cash
    requires CanSize(AssetTable(AssetKeys), symbols, latestPrices)
    requires forall s :: s in symbols ==> 0.0 < latestPrices[s]
    ensures Cost(SizedTable(AssetTable(AssetKeys), symbols, latestPrices, cash, MarketRiskPct), AssetKeys) <= cash
  {
    var t := AssetTable(AssetKeys);
    var sized := SizedTable(t, symbols, latestPrices, cash, MarketRiskPct);
    forall k | k in AssetKeys
      ensures k in sized
      ensures sized[k].sharesToOrder as real * sized[k].latestPrice <= cash * MarketRiskPct * sized[k].factor
    {
      DefaultEntryWithinShare(symbols, latestPrices, cash, k);
    }
    CostWithinFactorShare(sized, AssetKeys, cash, MarketRiskPct);
    SameFactors(t, sized, AssetKeys);
    DefaultFactorsSum();
    assert cash * MarketRiskPct * 0.999 <= cash;
  }

  /** One entry of the default table, sized or not, costs no more than its share of the cash. */
  lemma DefaultEntryWithinShare(symbols: seq<string>, latestPrices: map<string, real>, cash: real, k: string)
    requires 0.0 <= cash && k in AssetKeys
    requires CanSize(AssetTable(AssetKeys), symbols, latestPrices)
    requires forall s :: s in symbols ==> 0.0 < latestPrices[s]
    ensures var sized := SizedTable(AssetTable(AssetKeys), symbols, latestPrices, cash, MarketRiskPct);
      k in sized && sized[k].sharesToOrder as real * sized[k].latestPrice <= cash * MarketRiskPct * sized[k].factor
  {
    var t := AssetTable(AssetKeys);
    if k in symbols {
      SharesBracket(t[k], latestPrices[k], cash, MarketRiskPct);
    } else {
      assert 0.0 <= cash * MarketRiskPct * DefaultFactor;
    }
  }

  /** Sizing keeps the factors, so it keeps their sum. */
  lemma {:induction false} SameFactors(table: map<string, AssetEntry>, other: map<string, AssetEntry>, keys: seq<string>)
    requires forall k :: k in keys ==> k in table && k in other && other[k].factor == table[k].factor
    ensures FactorSum(other, keys) == FactorSum(table, keys)
  {
    if keys != [] {
      SameFactors(table, other, keys[1..]);
    }
  }

  // ---------------------------------------------------------------------------
  // The symbol table and the symbol list

  /**
   * The table as written has no `'DIA'` key, but the broker keeps `'DIA'` in the
   * symbol list whenever it knows the ticker; `calc_shares_to_order` then looks
   * `'DIA'` up and fails.
   */
  lemma AsWrittenTableMissesDia(valid: string -> bool)
    requires valid("DIA")
    ensures "DIA" in CheckedSymbols(Strategy.MarketSymbols, valid)
    ensures "DIA" !in AssetTable(AsWrittenAssetKeys)
    ensures forall latestPrices :: !CanSize(AssetTable(AsWrittenAssetKeys), CheckedSymbols(Strategy.MarketSymbols, valid), latestPrices)
  {
    ValidSymbolsSurvive(Strategy.MarketSymbols, valid, "DIA");
  }

  /** Keyed by ticker, the table has an entry for every symbol the broker lets through. */
  lemma TableCoversCheckedSymbols(valid: string -> bool)
    ensures forall s :: s in CheckedSymbols(Strategy.MarketSymbols, valid) ==> s in AssetTable(AssetKeys)
  {
    forall s | s in CheckedSymbols(Strategy.MarketSymbols, valid)
      ensures s in AssetTable(AssetKeys)
    {
      CheckedKeepsMembersOnly(Strategy.MarketSymbols, valid, s);
    }
  }

  // ---------------------------------------------------------------------------
  // Orders

  /** `'buy'` when the market is positive, `'sell'` otherwise. */
  function Side(marketPositive: bool): (side: string)
    ensures side == "buy" <==> marketPositive
    ensures side == "sell" <==> !marketPositive
  {
    if marketPositive then "buy" else "sell"
  }

  /** One order per key, in key order, for that key's share count, all on the same side. */
  function OrdersFor(keys: seq<string>, table: map<string, AssetEntry>, side: string): (orders: seq<OrderCall>)
    requires forall k :: k in keys ==> k in table
    ensures |orders| == |keys|
    ensures forall i :: 0 <= i < |keys| ==>
      orders[i] == OrderCall(keys[i], table[keys[i]].sharesToOrder, side)
  {
    if keys == [] then [] else OrdersFor(keys[..|keys| - 1], table, side) + [OrderCall(keys[|keys| - 1], table[keys[|keys| - 1]].sharesToOrder, side)]
  }

  // ---------------------------------------------------------------------------
  // The strategy object

  class Market {
    var stopLossPct: real
    var takeProfitPct: real
    var riskPct: real
    var marketPositiveThresholdPct: real
    var symbolsMarket: seq<string>
    var symbolMarket: seq<string>
    var cash: real
    var symbols: seq<string>
    /** The table's keys in insertion order, which is the order `run` places orders in. */
    var assetKeys: seq<string>
    var assets: map<string, AssetEntry>

    /** The keys are listed once each, and every symbol to size has an entry. */
    ghost predicate Valid()
      reads this
    {
      && (forall i, j :: 0 <= i < j < |assetKeys| ==> assetKeys[i] != assetKeys[j])
      && (forall k :: k in assets <==> k in assetKeys)
      && (forall s :: s in symbols ==> s in assets)
    }

    /**
     * `Market(broker)`: the base strategy's defaults, the market symbols the
     * broker accepts, a risk share of 1.0, and the three-entry table keyed by
     * ticker.
     */
    constructor (valid: string -> bool)
      ensures Valid()
      ensures stopLossPct == Strategy.DefaultStopLossPct && takeProfitPct == Strategy.DefaultTakeProfitPct
      ensures marketPositiveThresholdPct == Strategy.DefaultMarketPositiveThresholdPct
      ensures riskPct == MarketRiskPct && cash == 0.0
      ensures symbolsMarket == CheckedSymbols(Strategy.MarketSymbols, valid)
      ensures symbolMarket == CheckedSymbols(Strategy.MarketSymbol, valid)
      ensures symbols == symbolsMarket
      ensures assetKeys == AssetKeys && assets == AssetTable(AssetKeys)
    {
      var market := CheckSymbols(Strategy.MarketSymbols, valid);
      var spy := CheckSymbols(Strategy.MarketSymbol, valid);
      stopLossPct := Strategy.DefaultStopLossPct;
      takeProfitPct := Strategy.DefaultTakeProfitPct;
      riskPct := Strategy.DefaultRiskPct;
      marketPositiveThresholdPct := Strategy.DefaultMarketPositiveThresholdPct;
      symbolsMarket := market;
      symbolMarket := spy;
      cash := 0.0;
      riskPct := MarketRiskPct;
      symbols := market;
      assetKeys := AssetKeys;
      assets := AssetTable(AssetKeys);
      TableCoversCheckedSymbols(valid);
    }

    /** `calc_shares_to_order`, given the prices `get_latest_price(symbols)` returns. */
    method CalcSharesToOrder(latestPrices: map<string, real>)
      requires Valid()
      requires forall s :: s in symbols ==> s in latestPrices && latestPrices[s] != 0.0
      modifies this`assets
      ensures Valid()
      ensures CanSize(old(assets), symbols, latestPrices)
      ensures assets == SizeInOrder(old(assets), symbols, latestPrices, cash, riskPct)
    {
      ghost var table := assets;
      assert CanSize(table, symbols, latestPrices);
      var i := 0;
      while i < |symbols|
        invariant 0 <= i <= |symbols|
        invariant CanSize(table, symbols, latestPrices) && CanSize(table, symbols[..i], latestPrices)
        invariant assets == SizeInOrder(table, symbols[..i], latestPrices, cash, riskPct)
      {
        var symbol := symbols[i];
        SizeInOrderStep(table, symbols, i, latestPrices, cash, riskPct);
        assets := assets[symbol := Size(assets[symbol], latestPrices[symbol], cash, riskPct)];
        i := i + 1;
      }
      assert symbols[..i] == symbols;
    }

    /**
     * `run`: nothing happens for an account that cannot trade; otherwise the
     * cash is read, the table sized, and one order placed per table entry, all
     * buying if the market is positive and all selling if not.
     */
    method Run(account: Account, latestPrices: map<string, real>,
               changePrevDayPct: real, quote: Strategy.Quote) returns (orders: seq<OrderCall>)
      requires Valid()
      requires CheckAccountTradeable(account) ==>
        forall s :: s in symbols ==> s in latestPrices && latestPrices[s] != 0.0
      modifies this`cash, this`assets
      ensures Valid()
      ensures !CheckAccountTradeable(account) ==> orders == [] && cash == old(cash) && assets == old(assets)
      ensures CheckAccountTradeable(account) ==>
        && cash == account.cash
        && CanSize(old(assets), symbols, latestPrices)
        && assets == SizedTable(old(assets), symbols, latestPrices, account.cash, riskPct)
        && orders == OrdersFor(assetKeys, assets,
             Side(Strategy.CheckChangePositiveDaily(changePrevDayPct, quote, marketPositiveThresholdPct)))
    {
      orders := [];
      var tradeable := CheckAccountTradeable(account);
      if !tradeable {
        return;
      }
      cash := account.cash;
      CalcSharesToOrder(latestPrices);
      SizeInOrderIsPointwise(old(assets), symbols, latestPrices, account.cash, riskPct);
      var marketPositive := Strategy.CheckChangePositiveDaily(changePrevDayPct, quote, marketPositiveThresholdPct);
      var side := if marketPositive then "buy" else "sell";
      orders := PlaceOrders(side);
    }

    /** The order loop of `run`: one `order_asset` call per table entry, in table order. */
    method PlaceOrders(side: string) returns (orders: seq<OrderCall>)
      requires Valid()
      ensures orders == OrdersFor(assetKeys, assets, side)
    {
      orders := [];
      var i := 0;
      while i < |assetKeys|
        invariant 0 <= i <= |assetKeys|
        invariant orders == OrdersFor(assetKeys[..i], assets, side)
      {
        var key := assetKeys[i];
        orders := orders + [OrderCall(key, assets[key].sharesToOrder, side)];
        assert assetKeys[..i + 1][..i] == assetKeys[..i];
        i := i + 1;
      }
      assert assetKeys[..i] == assetKeys;
    }
  }
}
