/**
 * The trade-entry form: the stock-name field with its autocomplete list,
 * the Buy/Sell switch, the strategy toggle, price, quantity and date, and
 * saving a trade (validation, appending it to the stored list, and adding
 * its stock name to the registry when it is new).
 */
module TradeEntry {
  import opened Strings
  import opened Seqs
  import opened TradeData

  // ---------------------------------------------------------------------
  // Autocomplete (`onStockInputChange`)
  // ---------------------------------------------------------------------

  /** `name` is suggested for typed `text`: it starts with `text`, ignoring letter case. */
  predicate Suggested(name: string, text: string) {
    StartsWith(Lower(name), Lower(text))
  }

  /** The suggestion test for typed `text`, as a predicate. */
  function StartsWithText(text: string): string -> bool {
    (s: string) => Suggested(s, text)
  }

  /** The registry entries that start with `text`, ignoring letter case, in registry order. */
  function Suggestions(names: seq<string>, text: string): seq<string> {
    Filter(names, StartsWithText(text))
  }

  /**
   * The suggestions are exactly the registry entries whose first `|text|`
   * characters equal `text` ignoring letter case, they keep the registry's
   * order, and a duplicate-free registry gives duplicate-free suggestions.
   */
  lemma SuggestionsSpec(names: seq<string>, text: string, a: seq<string>, b: seq<string>)
    ensures forall s :: s in Suggestions(names, text) <==>
      s in names && |text| <= |s| && Lower(s[..|text|]) == Lower(text)
    ensures Suggestions(a + b, text) == Suggestions(a, text) + Suggestions(b, text)
    ensures NoDuplicates(names) ==> NoDuplicates(Suggestions(names, text))
  {
    FilterContains(names, StartsWithText(text));
    forall s ensures s in Suggestions(names, text) <==>
      s in names && |text| <= |s| && Lower(s[..|text|]) == Lower(text)
    {
      SuggestedPrefix(s, text);
    }
    FilterAppend(a, b, StartsWithText(text));
    if NoDuplicates(names) {
      FilterKeepsNoDuplicates(names, StartsWithText(text));
    }
  }

  /** The suggestion test compares the first `|text|` characters, lower-cased. */
  lemma SuggestedPrefix(name: string, text: string)
    ensures Suggested(name, text) <==> |text| <= |name| && Lower(name[..|text|]) == Lower(text)
  {
    if |text| <= |name| {
      LowerPrefix(name, |text|);
    }
  }

  /** Filtering a duplicate-free list gives a duplicate-free list. */
  lemma {:induction false} FilterKeepsNoDuplicates(s: seq<string>, p: string -> bool)
    requires NoDuplicates(s)
    ensures NoDuplicates(Filter(s, p))
  {
    if s != [] {
      var init, last := s[..|s| - 1], s[|s| - 1];
      FilterKeepsNoDuplicates(init, p);
      FilterContains(init, p);
      assert last !in init;
    }
  }

  // ---------------------------------------------------------------------
  // Saving (`saveTrade`)
  // ---------------------------------------------------------------------

  /** The required-field check: the name, quantity or price field is empty. */
  predicate MissingField(stockName: string, quantity: string, price: string) {
    stockName == "" || quantity == "" || price == ""
  }

  /** The registry after saving a trade of `name`: unchanged if present, else `name` appended. */
  function WithName(registry: seq<string>, name: string): seq<string> {
    if name in registry then registry else registry + [name]
  }

  /**
   * After a save the name is in the registry; the registry only grows, by
   * at most that one name at the end; and it stays free of duplicates.
   */
  lemma WithNameSpec(registry: seq<string>, name: string)
    ensures name in WithName(registry, name)
    ensures |registry| <= |WithName(registry, name)| <= |registry| + 1
    ensures WithName(registry, name)[..|registry|] == registry
    ensures NoDuplicates(registry) ==> NoDuplicates(WithName(registry, name))
  {
  }

  /**
   * Once a name is saved, typing any non-empty beginning of it, in any
   * letter case, suggests it.
   */
  lemma SavedNameIsSuggested(registry: seq<string>, name: string, text: string)
    requires 0 < |text| <= |name| && Lower(text) == Lower(name[..|text|])
    ensures name in Suggestions(WithName(registry, name), text)
  {
    SuggestedPrefix(name, text);
    FilterContains(WithName(registry, name), StartsWithText(text));
  }

  // ---------------------------------------------------------------------
  // The form
  // ---------------------------------------------------------------------

  /**
   * The form's state. `price` and `quantity` are the text fields as typed;
   * `allStockNames` is the registry as last loaded or saved by the form.
   */
  class TradeForm {
    var stockName: string
    var isBuy: bool
    var price: string
    var quantity: string
    var date: int
    var filteredStocks: seq<string>
    var showSuggestions: bool
    var tradeStrategy: string
    var allStockNames: seq<string>

    /** Opening the form: the initial field values, then loading the registry. */
    constructor (store: TradeStore, now: int)
      ensures stockName == "" && isBuy && price == "" && quantity == "" && date == now
      ensures filteredStocks == [] && !showSuggestions && tradeStrategy == "Intraday"
      ensures allStockNames == store.stockNames
    {
      stockName, isBuy, price, quantity, date := "", true, "", "", now;
      filteredStocks, showSuggestions := [], false;
      tradeStrategy := "Intraday";
      allStockNames := store.stockNames;
    }

    /**
     * Typing in the stock-name field: the field takes the text; non-empty
     * text shows the matching registry entries, empty text hides the list
     * (and leaves the last suggestions as they were).
     */
    method OnStockInputChange(text: string)
      modifies this
      ensures stockName == text
      ensures |text| > 0 ==> showSuggestions && filteredStocks == Suggestions(allStockNames, text)
      ensures |text| == 0 ==> !showSuggestions && filteredStocks == old(filteredStocks)
      ensures isBuy == old(isBuy) && price == old(price) && quantity == old(quantity) && date == old(date)
      ensures tradeStrategy == old(tradeStrategy) && allStockNames == old(allStockNames)
    {
      stockName := text;
      if |text| > 0 {
        var matches := Suggestions(allStockNames, text);
        filteredStocks := matches;
        showSuggestions := true;
      } else {
        showSuggestions := false;
      }
    }

    /** Tapping a suggestion: the field takes the name and the list closes. */
    method SelectStock(name: string)
      modifies this
      ensures stockName == name && !showSuggestions
      ensures isBuy == old(isBuy) && price == old(price) && quantity == old(quantity) && date == old(date)
      ensures filteredStocks == old(filteredStocks)
      ensures tradeStrategy == old(tradeStrategy) && allStockNames == old(allStockNames)
    {
      stockName := name;
      showSuggestions := false;
    }

    /** The Buy/Sell switch. */
    method SetIsBuy(buy: bool)
      modifies this
      ensures isBuy == buy
      ensures stockName == old(stockName) && price == old(price) && quantity == old(quantity) && date == old(date)
      ensures filteredStocks == old(filteredStocks) && showSuggestions == old(showSuggestions)
      ensures tradeStrategy == old(tradeStrategy) && allStockNames == old(allStockNames)
    {
      isBuy := buy;
    }

    /** The Intraday/Swing toggle. */
    method SetTradeStrategy(strategy: string)
      modifies this
      ensures tradeStrategy == strategy
      ensures stockName == old(stockName) && isBuy == old(isBuy) && price == old(price) && quantity == old(quantity)
      ensures date == old(date) && filteredStocks == old(filteredStocks) && showSuggestions == old(showSuggestions)
      ensures allStockNames == old(allStockNames)
    {
      tradeStrategy := strategy;
    }

    /**
     * `resetFields`: clears name, price and quantity, sets the switch to Buy
     * and the date to now; the strategy and the suggestions stay.
     */
    method ResetFields(now: int)
      modifies this
      ensures stockName == "" && isBuy && price == "" && quantity == "" && date == now
      ensures tradeStrategy == old(tradeStrategy) && allStockNames == old(allStockNames)
      ensures filteredStocks == old(filteredStocks) && showSuggestions == old(showSuggestions)
    {
      stockName := "";
      isBuy := true;
      price := "";
      quantity := "";
      date := now;
    }

    /**
     * `saveTrade`. With a field missing nothing changes. Otherwise the new
     * trade (id `tradeId`, the parsed price and quantity, the form's name,
     * side, date and strategy) is appended to the stored list, its name is
     * added to the registry when it is not there yet, and the fields are
     * reset.
     */
    method SaveTrade(store: TradeStore, tradeId: string, parsedPrice: real, parsedQuantity: int, now: int)
      returns (saved: bool)
      modifies this, store
      ensures saved == !MissingField(old(stockName), old(quantity), old(price))
      ensures !saved ==>
        store.trades == old(store.trades) && store.stockNames == old(store.stockNames) &&
        stockName == old(stockName) && isBuy == old(isBuy) && price == old(price) &&
        quantity == old(quantity) && date == old(date) && allStockNames == old(allStockNames)
      ensures saved ==>
        store.trades == old(store.trades) + [Trade(tradeId, old(stockName), if old(isBuy) then Buy else Sell,
                                                   parsedPrice, parsedQuantity, old(date), old(tradeStrategy))]
      ensures saved ==> store.stockNames == WithName(old(store.stockNames), old(stockName))
      ensures saved ==>
        allStockNames == if old(stockName) in old(store.stockNames) then old(allStockNames) else store.stockNames
      ensures saved ==> stockName == "" && isBuy && price == "" && quantity == "" && date == now
      ensures tradeStrategy == old(tradeStrategy)
      ensures filteredStocks == old(filteredStocks) && showSuggestions == old(showSuggestions)
    {
      if MissingField(stockName, quantity, price) {
        return false;
      }
      var trade := Trade(tradeId, stockName, if isBuy then Buy else Sell, parsedPrice, parsedQuantity, date, tradeStrategy);
      var trades := store.trades;
      trades := trades + [trade];
      store.trades := trades;

      var stockArray := store.stockNames;
      if stockName !in stockArray {
        var updatedList := stockArray + [stockName];
        store.stockNames := updatedList;
        allStockNames := updatedList;
      }
      ResetFields(now);
      saved := true;
    }
  }
}
