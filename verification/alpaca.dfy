/**
 * The Alpaca broker adapter: filtering a symbol list to the assets the broker
 * knows, the account gate, and the bracket-order rule.
 *
 * Every call into the Alpaca REST API is an input: `valid(symbol)` says whether
 * `get_asset(symbol)` succeeds, an `Account` is what `get_account()` returns, and
 * an optional `Asset` is the outcome of the asset lookup in `order_asset`.
 */
module Alpaca {
  import opened Wrappers
  import opened PyList

  /** The fields of `get_account()` that the adapter reads. */
  datatype Account = Account(status: string, accountBlocked: bool, tradingBlocked: bool, cash: real)

  /** The field of `get_asset(symbol)` that the adapter reads. */
  datatype Asset = Asset(tradable: bool)

  /** The bracket order `submit_order` receives for a buy. */
  datatype BracketOrder = BracketOrder(
    symbol: string, qty: int, side: string, orderType: string, timeInForce: string,
    orderClass: string, takeProfitLimitPrice: real, stopLossStopPrice: string, stopLossLimitPrice: string)

  /** The stop-loss prices are fixed strings, whatever the symbol. */
  const FixedStopLoss: string := "295.5"

  // ---------------------------------------------------------------------------
  // check_symbols

  /**
   * What `check_symbols` returns: Python's list iterator over the list being
   * shrunk. `next` is the iterator's index; it moves on by one after every
   * element, also after `list.remove` has shifted the rest of the list left.
   */
  function IterateRemovingInvalid<T(==)>(list: seq<T>, next: nat, valid: T -> bool): seq<T>
    decreases |list| - next
  {
    if |list| <= next then list
    else IterateRemovingInvalid(Visit(list, next, valid), next + 1, valid)
  }

  /** The list after the loop body has looked at `list[next]`. */
  function Visit<T(==)>(list: seq<T>, next: nat, valid: T -> bool): (after: seq<T>)
    requires next < |list|
    ensures |after| == if valid(list[next]) then |list| else |list| - 1
  {
    if valid(list[next]) then list else Remove(list, list[next]).value
  }

  function CheckedSymbols(symbols: seq<string>, valid: string -> bool): seq<string>
  {
    IterateRemovingInvalid(symbols, 0, valid)
  }

  /** `check_symbols`: removes, while iterating, each symbol whose asset lookup fails. */
  method CheckSymbols(symbols: seq<string>, valid: string -> bool) returns (checked: seq<string>)
    ensures checked == CheckedSymbols(symbols, valid)
  {
    checked := symbols;
    var next := 0;
    while next < |checked|
      invariant next <= |checked| + 1
      invariant IterateRemovingInvalid(checked, next, valid) == CheckedSymbols(symbols, valid)
      decreases |checked| + 1 - next
    {
      var symbol := checked[next];
      next := next + 1;
      if !valid(symbol) {
        checked := Remove(checked, symbol).value;
      }
    }
  }

  /** The filtered list keeps its symbols in their order, and every symbol it lost failed the lookup. */
  lemma CheckedSymbolsFilters(symbols: seq<string>, valid: string -> bool)
    ensures IsSubsequence(CheckedSymbols(symbols, valid), symbols)
    ensures forall s :: s in multiset(symbols) - multiset(CheckedSymbols(symbols, valid)) ==> !valid(s)
  {
    CheckedIsSubsequence(symbols, 0, valid);
    CheckedRemovesOnlyInvalid(symbols, 0, valid);
  }

  lemma {:induction false} CheckedIsSubsequence(list: seq<string>, next: nat, valid: string -> bool)
    ensures IsSubsequence(IterateRemovingInvalid(list, next, valid), list)
    decreases |list| - next
  {
    if |list| <= next {
      SubsequenceReflexive(list);
    } else if valid(list[next]) {
      CheckedIsSubsequence(list, next + 1, valid);
    } else {
      var x := list[next];
      var i := IndexOf(list, x);
      var shorter := Remove(list, x).value;
      assert shorter == list[..i] + list[i + 1..];
      DeleteIsSubsequence(list, i);
      CheckedIsSubsequence(shorter, next + 1, valid);
      SubsequenceTransitive(IterateRemovingInvalid(shorter, next + 1, valid), shorter, list);
    }
  }

  lemma {:induction false} CheckedRemovesOnlyInvalid(list: seq<string>, next: nat, valid: string -> bool)
    ensures var r := IterateRemovingInvalid(list, next, valid);
      multiset(r) <= multiset(list) &&
      forall s :: s in multiset(list) - multiset(r) ==> !valid(s)
    decreases |list| - next
  {
    if |list| <= next {
    } else if valid(list[next]) {
      CheckedRemovesOnlyInvalid(list, next + 1, valid);
    } else {
      var x := list[next];
      var shorter := Remove(list, x).value;
      RemoveMultiset(list, x);
      CheckedRemovesOnlyInvalid(shorter, next + 1, valid);
      var r := IterateRemovingInvalid(shorter, next + 1, valid);
      assert IterateRemovingInvalid(list, next, valid) == r;
      forall s | s in multiset(list) - multiset(r) ensures !valid(s) {
        if s != x {
          assert (multiset(list) - multiset(r))[s] == (multiset(shorter) - multiset(r))[s];
        }
      }
    }
  }

  /** A symbol the broker knows is never removed, wherever it stands. */
  lemma ValidSymbolsSurvive(symbols: seq<string>, valid: string -> bool, s: string)
    requires s in symbols && valid(s)
    ensures s in CheckedSymbols(symbols, valid)
  {
    CheckedRemovesOnlyInvalid(symbols, 0, valid);
    var r := CheckedSymbols(symbols, valid);
    assert s !in multiset(symbols) - multiset(r);
  }

  /** Filtering adds nothing: every symbol it returns was in the input. */
  lemma CheckedKeepsMembersOnly(symbols: seq<string>, valid: string -> bool, s: string)
    requires s in CheckedSymbols(symbols, valid)
    ensures s in symbols
  {
    CheckedRemovesOnlyInvalid(symbols, 0, valid);
    var r := CheckedSymbols(symbols, valid);
    assert s in multiset(r);
  }

  /**
   * The element right after a removed one is never looked at: an invalid first
   * symbol lets the second one through unchecked (unless it occurs again later).
   */
  lemma UncheckedFollowerSurvives(symbols: seq<string>, valid: string -> bool)
    requires 2 <= |symbols| && !valid(symbols[0]) && symbols[1] !in symbols[2..]
    ensures symbols[1] in CheckedSymbols(symbols, valid)
  {
    var shorter := Remove(symbols, symbols[0]).value;
    assert IndexOf(symbols, symbols[0]) == 0;
    assert shorter == symbols[1..];
    HeadStaysAfterFirstStep(shorter, 1, valid);
  }

  /** `list[0]` occurs nowhere else in `list`. */
  ghost predicate HeadUnique<T>(list: seq<T>)
  {
    1 <= |list| && forall j :: 1 <= j < |list| ==> list[j] != list[0]
  }

  /** Once the iterator is past position 0, a first symbol that occurs only once stays first. */
  lemma {:induction false} HeadStaysAfterFirstStep<T>(list: seq<T>, next: nat, valid: T -> bool)
    requires 1 <= next && HeadUnique(list)
    ensures var r := IterateRemovingInvalid(list, next, valid); 1 <= |r| && r[0] == list[0]
    decreases |list| - next
  {
    if next < |list| {
      VisitKeepsHead(list, next, valid);
      HeadStaysAfterFirstStep(Visit(list, next, valid), next + 1, valid);
    }
  }

  lemma VisitKeepsHead<T>(list: seq<T>, next: nat, valid: T -> bool)
    requires 1 <= next < |list| && HeadUnique(list)
    ensures var after := Visit(list, next, valid); HeadUnique(after) && after[0] == list[0]
    ensures IterateRemovingInvalid(list, next, valid) == IterateRemovingInvalid(Visit(list, next, valid), next + 1, valid)
  {
    if !valid(list[next]) {
      var x := list[next];
      var i := IndexOf(list, x);
      assert i != 0;
      var after := Remove(list, x).value;
      assert after == list[..i] + list[i + 1..];
      forall j | 1 <= j < |after| ensures after[j] != after[0] {
        assert after[j] == if j < i then list[j] else list[j + 1];
      }
    }
  }

  function RejectAll(symbol: string): bool
  {
    false
  }

  /** The market symbols all rejected by the broker: `'DIA'` still comes back. */
  lemma AllInvalidMarketSymbolsLeaveDia()
    ensures CheckedSymbols(["SPY", "DIA", "QQQ"], RejectAll) == ["DIA"]
  {
    var l0: seq<string> := ["SPY", "DIA", "QQQ"];
    var l1: seq<string> := ["DIA", "QQQ"];
    var l2: seq<string> := ["DIA"];
    assert IndexOf(l0, "SPY") == 0;
    assert l0[..0] + l0[1..] == l1;
    assert Remove(l0, "SPY") == Some(l1);
    assert IterateRemovingInvalid(l0, 0, RejectAll) == IterateRemovingInvalid(l1, 1, RejectAll);
    assert "QQQ" != "DIA";
    assert IndexOf(l1, "QQQ") == 1;
    assert l1[..1] + l1[2..] == l2;
    assert Remove(l1, "QQQ") == Some(l2);
    assert IterateRemovingInvalid(l1, 1, RejectAll) == IterateRemovingInvalid(l2, 2, RejectAll);
    assert IterateRemovingInvalid(l2, 2, RejectAll) == l2;
  }

  // ---------------------------------------------------------------------------
  // check_account_tradeable, order_asset

  /** `check_account_tradeable`: an active account with neither trading nor the account blocked. */
  function CheckAccountTradeable(account: Account): (tradeable: bool)
    ensures account.status != "ACTIVE" ==> !tradeable
    ensures account.accountBlocked ==> !tradeable
    ensures account.tradingBlocked ==> !tradeable
    ensures account.status == "ACTIVE" && !account.accountBlocked && !account.tradingBlocked ==> tradeable
  {
    if account.status == "ACTIVE" && account.accountBlocked == false && account.tradingBlocked == false then true
    else false
  }

  /**
   * `order_asset`: the order submitted to the broker, or `None` when nothing is
   * submitted (the lookup failed, the asset is not tradable, or the side is not
   * `'buy'`). `asset` is `None` when `get_asset` raised.
   */
  function OrderAsset(asset: Option<Asset>, symbol: string, qty: int, latestPrice: real,
                      takeProfitPct: real, side: string, orderType: string, timeInForce: string)
    : (submitted: Option<BracketOrder>)
    ensures submitted.Some? <==> asset.Some? && asset.value.tradable && side == "buy"
    ensures submitted.Some? ==>
      && submitted.value.symbol == symbol && submitted.value.qty == qty
      && submitted.value.side == "buy" && submitted.value.orderClass == "bracket"
      && submitted.value.orderType == orderType && submitted.value.timeInForce == timeInForce
      && submitted.value.takeProfitLimitPrice == latestPrice * takeProfitPct
      && submitted.value.stopLossStopPrice == FixedStopLoss
      && submitted.value.stopLossLimitPrice == FixedStopLoss
  {
    if asset.None? || asset.value.tradable != true then None
    else if side == "buy" then
      Some(BracketOrder(symbol, qty, side, orderType, timeInForce, "bracket",
                        latestPrice * takeProfitPct, FixedStopLoss, FixedStopLoss))
    else if side == "sell" then None
    else None
  }

  /** With a take-profit factor above 1 and a positive price, the take-profit limit lies above the price. */
  lemma TakeProfitAbovePrice(asset: Option<Asset>, symbol: string, qty: int, latestPrice: real,
                             takeProfitPct: real, orderType: string, timeInForce: string)
    requires 0.0 < latestPrice && 1.0 < takeProfitPct
    requires asset.Some? && asset.value.tradable
    ensures var o := OrderAsset(asset, symbol, qty, latestPrice, takeProfitPct, "buy", orderType, timeInForce);
      o.Some? && o.value.takeProfitLimitPrice > latestPrice
  {
    var o := OrderAsset(asset, symbol, qty, latestPrice, takeProfitPct, "buy", orderType, timeInForce);
    assert latestPrice * takeProfitPct - latestPrice == latestPrice * (takeProfitPct - 1.0);
  }
}
