# tickerbook trade book — a Dafny model

tickerbook is a small React Native app for recording stock trades. This
project models its two screens, apart from the UI and storage layers:

- **Trade entry** (`screens/TradeScreen.js`). This is a form with a
  stock-name field and case-insensitive prefix autocomplete over a registry
  of known names. It also has a Buy/Sell switch, an Intraday/Swing strategy
  toggle, and price, quantity and date fields. `saveTrade` checks that the
  required fields are filled and appends the new trade to the stored list.
  It adds the stock name to the registry when the name is new, then resets
  the form.
- **Trade history** (`screens/TradeHistory.js`). It filters the stored
  trades by a search text (case-insensitive substring of the stock name)
  and by a strategy filter ('All' / 'Intraday' / 'Swing'). It groups the
  trades by stock name in first-occurrence order and sorts the groups by
  name or by the date of the group's first trade. For each group it
  computes the summary numbers of `calculateStats`. The screen also shows
  one stock's trades, deletes a single trade, and deletes all of a stock's
  trades (optionally only those with the current strategy).

The modules:

| file | module | contents |
|---|---|---|
| `strings.dfy` | `Strings` | `toLowerCase`, `startsWith`, `includes`, `localeCompare` |
| `seqs.dfy` | `Seqs` | `filter` and insertion-ordered de-duplication, with their laws |
| `trade_data.dfy` | `TradeData` | the trade record, `toFixed(2)` rounding, the persistent store |
| `trade_history.dfy` | `TradeHistory` | grouping, sorting, statistics, deletes, the history screen's state |
| `trade_entry.dfy` | `TradeEntry` | autocomplete, the stock registry, the entry form's state and `saveTrade` |

Each screen's state is modelled by a class. `TradeHistory.TradeHistoryScreen`
and `TradeEntry.TradeForm` have one field per React state variable, except the
two visibility flags `modalVisible` and `showDatePicker` (see "## Left out").
Every handler is a method that states its whole new state. The device storage is
the class `TradeData.TradeStore`: the `"trades"` and `"stockList"` keys
become two `seq` fields, and each is read and replaced in full, as the code
does.

The two loops of the history screen are modelled as loops:

- the `reduce` that groups trades (`TradeHistory.GroupTrades`)
- the `forEach` of `calculateStats` (`TradeHistory.CalculateStats`)

Each loop is proved equal to a specification function, and the properties
are proved as lemmas about those functions:

- every selected trade lands in exactly one group;
- the group keys are the distinct selected names, in order of first occurrence;
- the sort is a permutation and ordered by the chosen comparison;
- the statistics do not depend on trade order.

The on-screen summary rows are `TradeHistory.TradeHistoryScreen.StockSummaries`.

The inputs that cannot be modelled become parameters:

- the clock (`Date.now()`, `new Date()`): a `now` / `tradeId` parameter;
- `parseFloat` / `parseInt` of the typed price and quantity: the already
  parsed `parsedPrice` / `parsedQuantity` arguments of
  `TradeEntry.TradeForm.SaveTrade`.

## Model

| member | source | states |
|---|---|---|
| Strings.Lower | screens/TradeHistory.js:54-55 | `toLowerCase` keeps the length and lower-cases each character |
| Strings.LowerIdempotent | screens/TradeHistory.js:55 | lower-casing an already lower-cased string changes nothing |
| Strings.Contains | screens/TradeHistory.js:54 | `includes` is true exactly when the text occurs at some position |
| Strings.StartsWith | screens/TradeScreen.js:63 | `startsWith`: the text begins with the prefix (its properties are `LowerPrefix` and `SuggestedPrefix`) |
| Strings.ContainsEmpty | screens/TradeHistory.js:54 | an empty search text matches every stock name |
| Strings.Compare | screens/TradeHistory.js:65 | `localeCompare` returns -1, 0 or 1, zero exactly for equal names |
| Strings.CompareAntisymmetric | screens/TradeHistory.js:65 | swapping the names negates the comparison |
| Strings.CompareTransitive | screens/TradeHistory.js:65 | the name order is transitive |
| Seqs.Filter | screens/TradeHistory.js:186 | `filter`: the elements satisfying the predicate, in order (its laws are the Filter lemmas below) |
| Seqs.FilterContains | screens/TradeHistory.js:186 | `filter` keeps exactly the elements satisfying the predicate |
| Seqs.FilterMultiset | screens/TradeHistory.js:186 | `filter` keeps each surviving element with its full multiplicity |
| Seqs.FilterAppend | screens/TradeHistory.js:186 | `filter` distributes over concatenation, so the survivors keep their order |
| Seqs.FilterIdempotent | screens/TradeHistory.js:186 | filtering twice with the same predicate is filtering once |
| Seqs.Distinct | screens/TradeHistory.js:59 | the keys of an object filled left to right: each name once, at its first insertion (its laws are the next two lemmas) |
| Seqs.DistinctSpec | screens/TradeHistory.js:59 | a list of object keys holds every inserted key once and nothing else |
| Seqs.DistinctFirstOccurrenceOrder | screens/TradeHistory.js:59 | a list of object keys is in order of first insertion |
| Seqs.IndexOf | screens/TradeHistory.js:59 | the first position at which a name occurs |
| TradeData.Hundredths | screens/TradeHistory.js:91 | the number of hundredths `toFixed(2)` rounds to, halves away from zero |
| TradeData.Round2 | screens/TradeHistory.js:91 | `Number(x.toFixed(2))` on an exact real (its properties are `Round2Spec` and `Round2Exact`) |
| TradeData.Value | screens/TradeHistory.js:87-94 | `qty * price` of one trade, the amount added to `totalInvested` or `totalSellValue` |
| TradeData.Round2Spec | screens/TradeHistory.js:91 | `toFixed(2)` gives a whole number of hundredths, within half a hundredth of the input, with the input's sign |
| TradeData.Round2Exact | screens/TradeHistory.js:91 | `toFixed(2)` leaves an amount already on the hundredths grid unchanged |
| TradeData.TradeStore.constructor | screens/TradeHistory.js:35-36 | with no stored keys, both the trade list and the registry read as empty |
| TradeHistory.MatchesSearch | screens/TradeHistory.js:54 | the stock name contains the search text, both lower-cased |
| TradeHistory.SearchExample | screens/TradeHistory.js:54 | the search ignores letter case and matches substrings: "inf" finds "INFY" and does not find "TCS" |
| TradeHistory.IsAllFilter | screens/TradeHistory.js:55 | the strategy filter is the word "all" in any letter case, which lets every tag through |
| TradeHistory.SelectedTrades | screens/TradeHistory.js:53-57 | the trades that pass both the search and the strategy filter, in stored order (`SelectedStep`, `EmptySearchShowsAll`) |
| TradeHistory.GroupOf | screens/TradeHistory.js:53-62 | the group of one stock name: its selected trades in stored order (properties in `GroupTrades`, `GroupKeepsOrder`, `DeleteOnlyExact`) |
| TradeHistory.GroupKeys | screens/TradeHistory.js:53-62 | the keys of the grouping object: each selected stock name once, in first-occurrence order (`KeysInFirstOccurrenceOrder`) |
| TradeHistory.GroupMap | screens/TradeHistory.js:53-62 | the grouping object as a map from each key to its group (`GroupTrades` returns it) |
| TradeHistory.MatchesStrategy | screens/TradeHistory.js:55 | the filter is 'all' in any case, or the trade's tag equals the filter ignoring case |
| TradeHistory.GroupingStep | screens/TradeHistory.js:53-62 | one more trade extends its group, and the key list when its name is new, only if it passes both filters |
| TradeHistory.SelectedStep | screens/TradeHistory.js:54-57 | one more trade extends the selected trades iff it passes the search and the strategy filter |
| TradeHistory.GroupStep | screens/TradeHistory.js:57-60 | one more trade extends a stock's group iff it is selected and carries that stock name |
| TradeHistory.KeysStep | screens/TradeHistory.js:57-59 | one more selected trade adds its stock name to the keys iff the name is new |
| TradeHistory.GroupTrades | screens/TradeHistory.js:53-62 | the `reduce` yields exactly the specified key list and the specified name-to-trades map |
| TradeHistory.NamesContain | screens/TradeHistory.js:59 | a name is among the trades' names iff some trade carries it |
| TradeHistory.GroupMembers | screens/TradeHistory.js:53-61 | a group holds exactly the trades with that name that pass the search and strategy filters |
| TradeHistory.GroupKeysSpec | screens/TradeHistory.js:59-64 | the keys have no duplicates and are exactly the names of the trades that pass both filters |
| TradeHistory.ExactlyOneGroup | screens/TradeHistory.js:53-62 | a trade that passes the filters is in its own stock's group, and no trade is in any other group |
| TradeHistory.GroupsNonEmpty | screens/TradeHistory.js:59-60 | a name is a key iff its group is non-empty |
| TradeHistory.GroupKeepsOrder | screens/TradeHistory.js:60 | a group lists its trades in stored order |
| TradeHistory.KeysInFirstOccurrenceOrder | screens/TradeHistory.js:59-64 | the keys come in the order in which their names first appear among the selected trades |
| TradeHistory.EmptySearchShowsAll | screens/TradeHistory.js:54-55 | with an empty search and the 'all' filter every trade is selected |
| TradeHistory.FirstDate | screens/TradeHistory.js:66-67 | the date of a group's first trade, or 0 when there is none |
| TradeHistory.CompareStocks | screens/TradeHistory.js:64-69 | the comparator: `localeCompare` of the names in 'stock' mode, otherwise later first dates first |
| TradeHistory.PrecedesTotalOrder | screens/TradeHistory.js:64-69 | both sort comparisons are total and transitive |
| TradeHistory.Insert | screens/TradeHistory.js:64-69 | inserting a name into a sorted list keeps it sorted and adds exactly that name |
| TradeHistory.SortStocks | screens/TradeHistory.js:64-69 | the sorted names are a permutation of the keys, ordered by the comparison |
| TradeHistory.PermutationNoDuplicates | screens/TradeHistory.js:64 | sorting a duplicate-free key list gives a duplicate-free list |
| TradeHistory.DistinctCount | screens/TradeHistory.js:64 | a duplicate-free list holds each name at most once |
| TradeHistory.SortByStockAscending | screens/TradeHistory.js:65 | by name, the groups come in strictly ascending `localeCompare` order |
| TradeHistory.SortByDateDescending | screens/TradeHistory.js:66-68 | by date, each group's first trade is no older than any later group's first trade |
| TradeHistory.SortByStockExample | screens/TradeHistory.js:65 | TCS, INFY, RELI sort by name to INFY, RELI, TCS |
| TradeHistory.AveragePrice | screens/TradeHistory.js:91 | a side's average: its value over its quantity rounded to hundredths, or 0 when the quantity is not positive |
| TradeHistory.StatsFromTotals | screens/TradeHistory.js:103-117 | the position, averages, invested amount and P/L from the four per-side totals |
| TradeHistory.StatsOf | screens/TradeHistory.js:71-120 | the statistics of a list of trades (the loop `CalculateStats` is proved equal to it) |
| TradeHistory.BuyQty | screens/TradeHistory.js:86-89 | the sum of the quantities of the Buy trades, the final `totalBuyQty` (`TotalsPermutation`, `CalculateStats`) |
| TradeHistory.BuyValue | screens/TradeHistory.js:86-90 | the sum of `qty * price` over the Buy trades, the final `totalInvested` and `totalBuyPrice` |
| TradeHistory.SellQty | screens/TradeHistory.js:93-97 | the sum of the quantities of the Sell trades, the final `totalSellQty` |
| TradeHistory.SellValue | screens/TradeHistory.js:93-98 | the sum of `qty * price` over the Sell trades, the final `totalSellValue` and `totalSellPrice` |
| TradeHistory.TotalsSnoc | screens/TradeHistory.js:83-101 | a Buy adds to the buy totals and a Sell to the sell totals, nothing else |
| TradeHistory.CalculateStats | screens/TradeHistory.js:71-120 | the loop yields the closed-form statistics of the buy and sell totals: quantity, averages, invested, P/L |
| TradeHistory.TotalsAppend | screens/TradeHistory.js:83-101 | the totals of two lists together are the sums of their totals |
| TradeHistory.StatsOrderIndependent | screens/TradeHistory.js:71-120 | any two lists holding the same trades, in any order, give the same statistics |
| TradeHistory.TotalsPermutation | screens/TradeHistory.js:83-101 | any two lists holding the same trades, in any order, give the same four buy and sell totals |
| TradeHistory.TotalsRemove | screens/TradeHistory.js:83-101 | taking one trade out of a list takes its quantity and value out of its own side's totals |
| TradeHistory.StatsEmpty | screens/TradeHistory.js:72-81 | a group with no trades shows all zeros |
| TradeHistory.SideTotalsZero | screens/TradeHistory.js:86-100 | with no Buy (no Sell) trades the buy (sell) totals are zero |
| TradeHistory.AveragesPerSide | screens/TradeHistory.js:83-117 | each average depends only on that side's trades; with no trades of a side its average and the P/L are zero |
| TradeHistory.SideFilterTotals | screens/TradeHistory.js:86-100 | the buy totals are those of the Buy trades alone, and likewise for Sell |
| TradeHistory.StatsExample | screens/TradeHistory.js:71-120 | buying 10 at 100 and selling 4 at 120 gives quantity 10, averages 100 and 120, invested 1000, P/L 80 |
| TradeHistory.WithoutTrade | screens/TradeHistory.js:186 | the list without the trades of one id (its laws are the next two lemmas) |
| TradeHistory.WithoutStock | screens/TradeHistory.js:158 | the list without the trades of one stock |
| TradeHistory.WithoutStockStrategy | screens/TradeHistory.js:143-145 | the list without the trades of one stock whose tag equals the filter exactly |
| TradeHistory.DetailTrades | screens/TradeHistory.js:219-223 | the detail view: the selected stock's trades that pass the strategy filter |
| TradeHistory.DeleteSingleExact | screens/TradeHistory.js:186 | deleting by id removes exactly the trades with that id and keeps every other trade with its multiplicity |
| TradeHistory.DeleteSingleUnique | screens/TradeHistory.js:186 | with unique ids, deleting a trade's id removes just that position |
| TradeHistory.DeleteAllExact | screens/TradeHistory.js:158 | Delete All removes exactly that stock's trades: its group is gone and every other group is unchanged |
| TradeHistory.OtherGroupsKept | screens/TradeHistory.js:143-158 | a delete that keeps all of a stock's trades leaves that stock's group unchanged |
| TradeHistory.DeleteOnlyExact | screens/TradeHistory.js:143-145 | the Only-strategy delete removes exactly the stock's trades whose tag equals the filter, keeps every other trade with its multiplicity, distributes over concatenation, and changes no other group |
| TradeHistory.DetailIsGroup | screens/TradeHistory.js:218-223 | the detail view ignores the search text. When the search matches the tapped stock, the detail list is that stock's summary group. When it does not, the summary group is empty |
| TradeHistory.DeleteChoicesAsWritten | screens/TradeHistory.js:139 | the dialog as written: Cancel and Delete All are always offered, and the Only-strategy button is offered exactly when the filter is not the exact string 'all' |
| TradeHistory.DeleteChoices | screens/TradeHistory.js:132-165 | the corrected dialog of the finding below: Cancel and Delete All are always offered, and the Only-strategy button is offered exactly when the filter is not 'all' in any letter case |
| TradeHistory.OnlyAllDeletesNothing | screens/TradeHistory.js:139-145 | as written, after tapping the 'All' filter button (lines 276-280) the dialog offers "Only ALL", and that deletes nothing |
| TradeHistory.OnlyStrategyEmptiesGroup | screens/TradeHistory.js:139-145 | whenever the corrected dialog offers the Only-strategy button, that delete empties the stock's group in the current view |
| TradeHistory.LowerTags | screens/TradeHistory.js:55 | the lower-cased filter and strategy tags |
| TradeHistory.Toggled | screens/TradeHistory.js:292 | the sort toggle always switches the mode |
| TradeHistory.TradeHistoryScreen.constructor | screens/TradeHistory.js:25-43 | initial state: sorted by stock, filter 'all', empty search, no stock selected, trades read from storage |
| TradeHistory.TradeHistoryScreen.FetchTrades | screens/TradeHistory.js:34-38 | the trade list becomes the stored list; nothing else changes |
| TradeHistory.TradeHistoryScreen.SelectStock | screens/TradeHistory.js:203 | tapping a row selects that stock; nothing else changes |
| TradeHistory.TradeHistoryScreen.Back | screens/TradeHistory.js:227 | Back clears the selection; nothing else changes |
| TradeHistory.TradeHistoryScreen.ToggleSort | screens/TradeHistory.js:292 | the sort mode flips, and flipping again restores it |
| TradeHistory.TradeHistoryScreen.SetStrategy | screens/TradeHistory.js:280 | a filter button sets the filter; nothing else changes |
| TradeHistory.TradeHistoryScreen.SetSearchText | screens/TradeHistory.js:267-270 | typing sets the search text; nothing else changes |
| TradeHistory.TradeHistoryScreen.StockSummaries | screens/TradeHistory.js:196-198 | one row per group in sorted order, each with that group's statistics |
| TradeHistory.TradeHistoryScreen.DeleteTradesForStock | screens/TradeHistory.js:131-174 | any button of the dialog as written can be pressed, including "Only ALL". Cancel changes nothing. Only-strategy and Delete All store the filtered list, re-read it and clear the selection. The registry is untouched |
| TradeHistory.TradeHistoryScreen.DeleteSingleTrade | screens/TradeHistory.js:176-194 | stores the list without the trades of that id, re-reads it, and keeps the selection and the registry |
| TradeEntry.Suggestions | screens/TradeScreen.js:62-64 | the registry names that start with the typed text, both lower-cased, in registry order |
| TradeEntry.SuggestionsSpec | screens/TradeScreen.js:59-66 | the suggestions are exactly the registry names whose first characters match the typed text ignoring case, in registry order and without duplicates |
| TradeEntry.SuggestedPrefix | screens/TradeScreen.js:62-63 | `startsWith` on lower-cased strings compares the lower-cased first characters |
| TradeEntry.FilterKeepsNoDuplicates | screens/TradeScreen.js:62-64 | filtering a duplicate-free registry gives duplicate-free suggestions |
| TradeEntry.MissingField | screens/TradeScreen.js:87 | the validation: the name, quantity or price field is empty |
| TradeEntry.WithName | screens/TradeScreen.js:112-113 | the registry after a save: unchanged if the name is present, else the name appended |
| TradeEntry.WithNameSpec | screens/TradeScreen.js:109-116 | after a save the name is registered, the registry only grows by at most that name at the end, and it stays free of duplicates |
| TradeEntry.SavedNameIsSuggested | screens/TradeScreen.js:109-116 | once saved, a name is suggested for every non-empty beginning of it, typed in any case |
| TradeEntry.TradeForm.constructor | screens/TradeScreen.js:33-57 | initial form state: empty fields, Buy, today's date, Intraday, suggestions hidden, registry loaded from storage |
| TradeEntry.TradeForm.OnStockInputChange | screens/TradeScreen.js:59-70 | the field takes the text. Non-empty text shows the matching suggestions. Empty text hides the list and keeps the old suggestions |
| TradeEntry.TradeForm.SelectStock | screens/TradeScreen.js:73-76 | the field takes the chosen name and the list closes |
| TradeEntry.TradeForm.SetIsBuy | screens/TradeScreen.js:173 | the Buy/Sell switch sets the side; nothing else changes |
| TradeEntry.TradeForm.SetTradeStrategy | screens/TradeScreen.js:192-201 | the strategy toggle sets the strategy; nothing else changes |
| TradeEntry.TradeForm.ResetFields | screens/TradeScreen.js:78-84 | name, price and quantity are cleared, the side is Buy and the date is now; the strategy stays |
| TradeEntry.TradeForm.SaveTrade | screens/TradeScreen.js:86-124 | Saves iff no required field is empty, and a failed save changes nothing. A save appends exactly the new trade, registers a new name, and resets the form |

## Left out

- Rendering, the modal, toasts, alerts, the date picker and the ad components (`App.js`, `screens/NativeAdComponent.js`): display only. `formatDate` is also display only.
- `AsyncStorage` is modelled as the `TradeStore` fields. Its asynchrony, its failures and the `catch` blocks that only log are not modelled; every storage call is taken to succeed.
- JSON serialisation is taken as the identity. Dates are kept as integer timestamps, not ISO strings, so `new Date(...)` conversions are treated as lossless.
- `Date.now()`, `new Date()`, `parseFloat` and `parseInt` are not modelled. Their results are method parameters (`tradeId`, `now`, `parsedPrice`, `parsedQuantity`), so `NaN` quantities and prices are not covered.
- TradeEntry.TradeForm.SaveTrade: the `!date` test of the validation (TradeScreen.js:87) is not modelled. `date` is always a `Date` object there, so the test never fails. The date is meant to be a required field, but the model follows the code: only the name, quantity and price can be missing.
- The text-field setters for price and quantity (TradeScreen.js:209,218) and the date picker's handler are plain assignments and are not modelled separately. `ResetFields` covers how those fields are cleared.
- Strings.Lower: lower-cases ASCII letters only, not the full Unicode mapping of `toLowerCase`.
- Strings.Compare: orders by character code, not by the locale collation of `localeCompare`.
- TradeHistory.SortStocks: stated as "sorted and a permutation", not as the exact output of the engine's `sort`. The order of names that compare equal (same first date, in the date mode) is left open. The model also does not say that `Object.keys` lists integer-like names first.
- TradeHistory.CalculateStats: arithmetic is on exact reals, not IEEE doubles, and `toFixed(2)` is modelled as exact rounding of halves away from zero. The stored `type` field is modelled as the two-valued `Side`, so a trade of any other type is not expressible. The average strings of `toFixed` are modelled as the numbers they coerce to.
- `CalculateStats` keeps the accumulators `totalBuyPrice` and `totalSellPrice` as separate variables. Its loop invariants prove they always equal `totalInvested` and `totalSellValue`. `totalSellPrice` is the P/L guard at TradeHistory.js:116; `totalBuyPrice` is never read. The net-quantity assignment at TradeHistory.js:103-106 is computed and then overwritten, as in the code.
- TradeHistory.GroupTrades: the grouping object of TradeHistory.js:53-62 starts as the literal `{}`, which inherits the members of `Object.prototype`. The source throws a TypeError while rendering when a stock name is `constructor`, `toString`, `valueOf`, `hasOwnProperty`, `__proto__` or another inherited member: `acc[name]` is already truthy, so no array is created and `push` fails. The model treats every name as an ordinary key, so it groups such trades. The grouping lemmas (`GroupMembers`, `ExactlyOneGroup` and the rest) hold only for names that are not inherited members.
- `modalVisible` (TradeHistory.js:30) and `showDatePicker` (TradeScreen.js:38) have no field. They only control which overlay is drawn and feed no computation.
- `screens/TradeHistory - Copy.js` is an unused copy of the history screen and is not part of this model.

## Findings

| source | as written | input that shows it | evidently intended | confidence | as-written member | corrected member |
|---|---|---|---|---|---|---|
| screens/TradeHistory.js:139,276-280 | The Only-strategy button is guarded by `strategy !== 'all'`, a case-sensitive test. The filter buttons set the strategy to `'All'`, and the Only delete compares `t.strategy === strategy` exactly. | Tap the "ALL" filter, then long-press a stock. The dialog offers "Only ALL", which deletes no trade, because saved trades are tagged 'Intraday' or 'Swing'. | The button is hidden whenever the filter means "all", as the case-insensitive grouping filter at line 55 treats it. | not executed | TradeHistory.OnlyAllDeletesNothing | TradeHistory.OnlyStrategyEmptiesGroup |

The screen class follows the code: `TradeHistory.TradeHistoryScreen.DeleteTradesForStock`
accepts any button of `TradeHistory.DeleteChoicesAsWritten`, so "Only ALL" can be
pressed and stores the list unchanged. `TradeHistory.DeleteChoices` is the
corrected dialog, and `TradeHistory.OnlyStrategyEmptiesGroup` proves what it
achieves.
