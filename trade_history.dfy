/**
 * The trade-summary screen: filtering and grouping the stored trades by
 * stock, ordering the groups, the per-stock statistics, the delete filters,
 * the detail-view filter, and the screen's view state (selected stock, sort
 * mode, strategy filter, search text).
 */
module TradeHistory {
  import opened Strings
  import opened Seqs
  import opened TradeData

  datatype Option<T> = None | Some(value: T)

  // ---------------------------------------------------------------------
  // Filtering and grouping (the `groupedTrades` reduce)
  // ---------------------------------------------------------------------

  /** The strategy filter selects everything ('all' in any letter case). */
  predicate IsAllFilter(strategy: string) {
    Lower(strategy) == "all"
  }

  /** The stock name contains the search text, ignoring letter case. */
  predicate MatchesSearch(t: Trade, searchText: string) {
    Contains(Lower(t.stockName), Lower(searchText))
  }

  /** Searching "inf" finds "INFY" and not "TCS". */
  lemma SearchExample(infy: Trade, tcs: Trade)
    requires infy.stockName == "INFY" && tcs.stockName == "TCS"
    ensures MatchesSearch(infy, "inf") && !MatchesSearch(tcs, "inf")
  {
    LowerIs("INFY", "infy");
    LowerIs("inf", "inf");
    LowerIs("TCS", "tcs");
    assert OccursAt("infy", "inf", 0);
    assert "tcs"[0..3] != "inf" by { assert "tcs"[0..3][0] == 't'; }
    forall i ensures !OccursAt("tcs", "inf", i) {
      if 0 <= i && i + 3 <= 3 {
        assert i == 0;
      }
    }
  }

  /** The trade passes the strategy filter, ignoring letter case. */
  predicate MatchesStrategy(t: Trade, strategy: string) {
    IsAllFilter(strategy) || Lower(t.strategy) == Lower(strategy)
  }

  /** The trade passes both filters of the summary list. */
  predicate Selected(t: Trade, searchText: string, strategy: string) {
    MatchesSearch(t, searchText) && MatchesStrategy(t, strategy)
  }

  /** The selection test of the summary list, as a predicate. */
  function InSummary(searchText: string, strategy: string): Trade -> bool {
    (t: Trade) => Selected(t, searchText, strategy)
  }

  /** The selection test of one group, as a predicate. */
  function InGroup(searchText: string, strategy: string, name: string): Trade -> bool {
    (t: Trade) => Selected(t, searchText, strategy) && t.stockName == name
  }

  /** The trades that pass both filters, in stored order. */
  function SelectedTrades(trades: seq<Trade>, searchText: string, strategy: string): seq<Trade> {
    Filter(trades, InSummary(searchText, strategy))
  }

  /** The group of `name`: the selected trades with exactly that stock name, in stored order. */
  function GroupOf(trades: seq<Trade>, searchText: string, strategy: string, name: string): seq<Trade> {
    Filter(trades, InGroup(searchText, strategy, name))
  }

  /** The stock names of a list of trades. */
  function Names(trades: seq<Trade>): (r: seq<string>)
    ensures |r| == |trades|
    ensures forall i :: 0 <= i < |trades| ==> r[i] == trades[i].stockName
  {
    if trades == [] then [] else Names(trades[..|trades| - 1]) + [trades[|trades| - 1].stockName]
  }

  /** The keys of the grouping object: each selected stock name once, in order of first occurrence. */
  function GroupKeys(trades: seq<Trade>, searchText: string, strategy: string): seq<string> {
    Distinct(Names(SelectedTrades(trades, searchText, strategy)))
  }

  /** The grouping object as a map from stock name to its group. */
  function GroupMap(trades: seq<Trade>, searchText: string, strategy: string): map<string, seq<Trade>> {
    map k | k in GroupKeys(trades, searchText, strategy) :: GroupOf(trades, searchText, strategy, k)
  }

  /** One more trade at the end extends the selection iff it passes both filters. */
  lemma SelectedStep(s: seq<Trade>, t: Trade, searchText: string, strategy: string)
    ensures SelectedTrades(s + [t], searchText, strategy) ==
      SelectedTrades(s, searchText, strategy) + (if Selected(t, searchText, strategy) then [t] else [])
  {
    FilterSnoc(s, t, InSummary(searchText, strategy));
  }

  /** One more trade at the end extends the group of `k` iff it is selected and named `k`. */
  lemma GroupStep(s: seq<Trade>, t: Trade, searchText: string, strategy: string, k: string)
    ensures GroupOf(s + [t], searchText, strategy, k) ==
      GroupOf(s, searchText, strategy, k) + (if Selected(t, searchText, strategy) && t.stockName == k then [t] else [])
  {
    FilterSnoc(s, t, InGroup(searchText, strategy, k));
  }

  /** One more selected trade at the end adds its name to the keys if it is new. */
  lemma KeysStep(s: seq<Trade>, t: Trade, searchText: string, strategy: string)
    ensures GroupKeys(s + [t], searchText, strategy) ==
      var keys := GroupKeys(s, searchText, strategy);
      if !Selected(t, searchText, strategy) || t.stockName in keys then keys else keys + [t.stockName]
  {
    SelectedStep(s, t, searchText, strategy);
    var sel := SelectedTrades(s, searchText, strategy);
    if Selected(t, searchText, strategy) {
      assert SelectedTrades(s + [t], searchText, strategy) == sel + [t];
      var names := Names(sel) + [t.stockName];
      assert Names(sel + [t]) == names;
      assert names[..|names| - 1] == Names(sel);
      assert Distinct(names) ==
        if t.stockName in Distinct(Names(sel)) then Distinct(Names(sel)) else Distinct(Names(sel)) + [t.stockName];
      assert GroupKeys(s + [t], searchText, strategy) == Distinct(names);
    } else {
      assert SelectedTrades(s + [t], searchText, strategy) == sel;
    }
  }

  /** How one more trade at the end changes the selection, every group and the key list. */
  lemma GroupingStep(s: seq<Trade>, t: Trade, searchText: string, strategy: string)
    ensures SelectedTrades(s + [t], searchText, strategy) ==
      SelectedTrades(s, searchText, strategy) + (if Selected(t, searchText, strategy) then [t] else [])
    ensures forall k {:trigger GroupOf(s + [t], searchText, strategy, k)} ::
      GroupOf(s + [t], searchText, strategy, k) ==
      GroupOf(s, searchText, strategy, k) + (if Selected(t, searchText, strategy) && t.stockName == k then [t] else [])
    ensures GroupKeys(s + [t], searchText, strategy) ==
      var keys := GroupKeys(s, searchText, strategy);
      if !Selected(t, searchText, strategy) || t.stockName in keys then keys else keys + [t.stockName]
  {
    SelectedStep(s, t, searchText, strategy);
    forall k ensures GroupOf(s + [t], searchText, strategy, k) ==
      GroupOf(s, searchText, strategy, k) + (if Selected(t, searchText, strategy) && t.stockName == k then [t] else [])
    {
      GroupStep(s, t, searchText, strategy, k);
    }
    KeysStep(s, t, searchText, strategy);
  }

  /**
   * `keys` and `groups` are the grouping object after the reduce has seen
   * the trades `s`: its keys in insertion order, and for each key its group.
   */
  ghost predicate GroupingState(s: seq<Trade>, searchText: string, strategy: string,
                          keys: seq<string>, groups: map<string, seq<Trade>>)
  {
    keys == GroupKeys(s, searchText, strategy) &&
    (forall k :: k in groups <==> k in keys) &&
    (forall k :: k in groups ==> groups[k] == GroupOf(s, searchText, strategy, k)) &&
    (forall k :: k !in groups ==> GroupOf(s, searchText, strategy, k) == [])
  }

  /** A trade failing either filter changes neither the keys nor any group. */
  lemma GroupingStateSkip(s: seq<Trade>, t: Trade, s2: seq<Trade>, searchText: string, strategy: string,
                          keys: seq<string>, groups: map<string, seq<Trade>>)
    requires GroupingState(s, searchText, strategy, keys, groups)
    requires s2 == s + [t] && !Selected(t, searchText, strategy)
    ensures GroupingState(s2, searchText, strategy, keys, groups)
  {
    KeysStep(s, t, searchText, strategy);
    forall k ensures GroupOf(s2, searchText, strategy, k) == GroupOf(s, searchText, strategy, k) {
      GroupStep(s, t, searchText, strategy, k);
    }
  }

  /**
   * A selected trade is appended to its stock's group, which is created
   * (and its key recorded) on first sight; `keys2` and `groups2` are the
   * grouping object afterwards.
   */
  lemma GroupingStateAdd(s: seq<Trade>, t: Trade, s2: seq<Trade>, searchText: string, strategy: string,
                         keys: seq<string>, groups: map<string, seq<Trade>>,
                         keys2: seq<string>, groups2: map<string, seq<Trade>>)
    requires GroupingState(s, searchText, strategy, keys, groups)
    requires s2 == s + [t] && Selected(t, searchText, strategy)
    requires keys2 == if t.stockName in groups then keys else keys + [t.stockName]
    requires forall k :: k in groups2 <==> k in groups || k == t.stockName
    requires forall k :: k in groups && k != t.stockName ==> groups2[k] == groups[k]
    requires t.stockName in groups2
    requires groups2[t.stockName] == (if t.stockName in groups then groups[t.stockName] else []) + [t]
    ensures GroupingState(s2, searchText, strategy, keys2, groups2)
  {
    var name := t.stockName;
    KeysStep(s, t, searchText, strategy);
    assert name in groups <==> name in keys;
    assert keys2 == GroupKeys(s2, searchText, strategy);
    forall k | k in groups2 ensures groups2[k] == GroupOf(s2, searchText, strategy, k) {
      GroupStep(s, t, searchText, strategy, k);
      if k == name && name !in groups {
        assert GroupOf(s, searchText, strategy, k) == [];
      }
    }
    forall k | k !in groups2 ensures GroupOf(s2, searchText, strategy, k) == [] {
      GroupStep(s, t, searchText, strategy, k);
    }
  }

  /** Once every trade is seen, the grouping state is the grouping object. */
  lemma GroupingStateMap(s: seq<Trade>, searchText: string, strategy: string,
                         keys: seq<string>, groups: map<string, seq<Trade>>)
    requires GroupingState(s, searchText, strategy, keys, groups)
    ensures groups == GroupMap(s, searchText, strategy)
  {
  }

  /**
   * The `groupedTrades` reduce: one pass over the stored trades that skips
   * the trades failing either filter and appends each other trade to the
   * list of its stock, creating that list on first sight.
   */
  method GroupTrades(trades: seq<Trade>, searchText: string, strategy: string)
    returns (keys: seq<string>, groups: map<string, seq<Trade>>)
    ensures keys == GroupKeys(trades, searchText, strategy)
    ensures groups == GroupMap(trades, searchText, strategy)
  {
    keys, groups := [], map[];
    for i := 0 to |trades|
      invariant GroupingState(trades[..i], searchText, strategy, keys, groups)
    {
      var t := trades[i];
      var matchesSearch := MatchesSearch(t, searchText);
      var matchesStrategy := MatchesStrategy(t, strategy);
      assert trades[..i + 1] == trades[..i] + [t];
      if !matchesSearch || !matchesStrategy {
        // the trade is skipped
        GroupingStateSkip(trades[..i], t, trades[..i + 1], searchText, strategy, keys, groups);
      } else {
        ghost var keys0, groups0 := keys, groups;
        if t.stockName !in groups {
          groups := groups[t.stockName := []];
          keys := keys + [t.stockName];
        }
        groups := groups[t.stockName := groups[t.stockName] + [t]];
        GroupingStateAdd(trades[..i], t, trades[..i + 1], searchText, strategy, keys0, groups0, keys, groups);
      }
    }
    assert trades[..|trades|] == trades;
    GroupingStateMap(trades, searchText, strategy, keys, groups);
  }

  /** A stock name is in a list of trades' names iff some trade carries it. */
  lemma {:induction false} NamesContain(trades: seq<Trade>, name: string)
    ensures name in Names(trades) <==> exists t :: t in trades && t.stockName == name
  {
    if trades != [] {
      var init, last := trades[..|trades| - 1], trades[|trades| - 1];
      NamesContain(init, name);
      assert trades == init + [last];
      assert Names(trades) == Names(init) + [last.stockName];
    }
  }

  /** Every member of group `name` is a stored trade that passes both filters and is named `name`; and conversely. */
  lemma GroupMembers(trades: seq<Trade>, searchText: string, strategy: string, name: string)
    ensures forall t :: t in GroupOf(trades, searchText, strategy, name) <==>
      t in trades && Selected(t, searchText, strategy) && t.stockName == name
  {
    FilterContains(trades, InGroup(searchText, strategy, name));
  }

  /** The group keys are distinct, and they are exactly the names of the selected trades. */
  lemma GroupKeysSpec(trades: seq<Trade>, searchText: string, strategy: string)
    ensures NoDuplicates(GroupKeys(trades, searchText, strategy))
    ensures forall k :: k in GroupKeys(trades, searchText, strategy) <==>
      exists t :: t in trades && Selected(t, searchText, strategy) && t.stockName == k
  {
    var sel := SelectedTrades(trades, searchText, strategy);
    DistinctSpec(Names(sel));
    FilterContains(trades, InSummary(searchText, strategy));
    forall k ensures k in Names(sel) <==> exists t :: t in trades && Selected(t, searchText, strategy) && t.stockName == k {
      NamesContain(sel, k);
    }
  }

  /**
   * A trade that passes both filters lands in exactly one group, the one of
   * its own stock name; a trade that fails either filter lands in none.
   */
  lemma ExactlyOneGroup(trades: seq<Trade>, searchText: string, strategy: string, t: Trade)
    requires t in trades
    ensures Selected(t, searchText, strategy) ==>
      t.stockName in GroupKeys(trades, searchText, strategy) &&
      t in GroupOf(trades, searchText, strategy, t.stockName)
    ensures forall k :: t in GroupOf(trades, searchText, strategy, k) ==>
      Selected(t, searchText, strategy) && k == t.stockName
  {
    GroupKeysSpec(trades, searchText, strategy);
    forall k ensures t in GroupOf(trades, searchText, strategy, k) <==>
      Selected(t, searchText, strategy) && t.stockName == k
    {
      GroupMembers(trades, searchText, strategy, k);
    }
  }

  /** Every key has a non-empty group, and every name outside the keys has none. */
  lemma GroupsNonEmpty(trades: seq<Trade>, searchText: string, strategy: string, name: string)
    ensures name in GroupKeys(trades, searchText, strategy) <==> GroupOf(trades, searchText, strategy, name) != []
  {
    GroupKeysSpec(trades, searchText, strategy);
    GroupMembers(trades, searchText, strategy, name);
    var g := GroupOf(trades, searchText, strategy, name);
    if g != [] {
      assert g[0] in g;
    }
  }

  /**
   * Within a group, trades keep the relative order they have in the stored
   * list: grouping a concatenation concatenates the groups.
   */
  lemma GroupKeepsOrder(a: seq<Trade>, b: seq<Trade>, searchText: string, strategy: string, name: string)
    ensures GroupOf(a + b, searchText, strategy, name) ==
      GroupOf(a, searchText, strategy, name) + GroupOf(b, searchText, strategy, name)
  {
    FilterAppend(a, b, InGroup(searchText, strategy, name));
  }

  /** The keys appear in the order in which their first selected trade appears. */
  lemma KeysInFirstOccurrenceOrder(trades: seq<Trade>, searchText: string, strategy: string)
    ensures forall i, j :: 0 <= i < j < |GroupKeys(trades, searchText, strategy)| ==>
      var names, keys := Names(SelectedTrades(trades, searchText, strategy)), GroupKeys(trades, searchText, strategy);
      keys[i] in names && keys[j] in names && IndexOf(names, keys[i]) < IndexOf(names, keys[j])
  {
    var names := Names(SelectedTrades(trades, searchText, strategy));
    var keys := GroupKeys(trades, searchText, strategy);
    assert keys == Distinct(names);
    DistinctFirstOccurrenceOrder(names);
    forall i, j | 0 <= i < j < |keys|
      ensures keys[i] in names && keys[j] in names && IndexOf(names, keys[i]) < IndexOf(names, keys[j])
    {
      var x, y := Distinct(names)[i], Distinct(names)[j];
      assert x == keys[i] && y == keys[j];
      assert IndexOf(names, keys[i]) == IndexOf(names, x);
      assert IndexOf(names, keys[j]) == IndexOf(names, y);
    }
  }

  /** An empty search text hides nothing: with the 'all' filter, every stored trade is in some group. */
  lemma EmptySearchShowsAll(trades: seq<Trade>, strategy: string)
    requires IsAllFilter(strategy)
    ensures SelectedTrades(trades, "", strategy) == trades
  {
    forall i | 0 <= i < |trades| ensures InSummary("", strategy)(trades[i]) {
      ContainsEmpty(Lower(trades[i].stockName));
    }
    FilterAll(trades, InSummary("", strategy));
  }

  // ---------------------------------------------------------------------
  // Ordering the groups (the `sortedStocks` sort)
  // ---------------------------------------------------------------------

  /** The `sortBy` state: 'stock' or 'date'. */
  datatype SortMode = ByStock | ByDate

  /** The date of a group's first trade, or 0 when there is none. */
  function FirstDate(groups: map<string, seq<Trade>>, name: string): int {
    if name in groups && |groups[name]| > 0 then groups[name][0].date else 0
  }

  /**
   * The sort comparator: names compared with `localeCompare` in 'stock'
   * mode, otherwise the first trades' dates, later dates first.
   */
  function CompareStocks(mode: SortMode, groups: map<string, seq<Trade>>, a: string, b: string): int {
    match mode
    case ByStock => Compare(a, b)
    case ByDate => FirstDate(groups, b) - FirstDate(groups, a)
  }

  /** `a` may come before `b` in the sorted list. */
  predicate Precedes(mode: SortMode, groups: map<string, seq<Trade>>, a: string, b: string) {
    CompareStocks(mode, groups, a, b) <= 0
  }

  /** The comparator is consistent: any two names can be ordered, and the order is transitive. */
  lemma PrecedesTotalOrder(mode: SortMode, groups: map<string, seq<Trade>>, a: string, b: string, c: string)
    ensures Precedes(mode, groups, a, b) || Precedes(mode, groups, b, a)
    ensures Precedes(mode, groups, a, b) && Precedes(mode, groups, b, c) ==> Precedes(mode, groups, a, c)
  {
    if mode == ByStock {
      CompareAntisymmetric(a, b);
      if Precedes(mode, groups, a, b) && Precedes(mode, groups, b, c) {
        CompareTransitive(a, b, c);
      }
    }
  }

  /** Every earlier name may precede every later one. */
  predicate SortedBy(mode: SortMode, groups: map<string, seq<Trade>>, s: seq<string>) {
    forall i, j :: 0 <= i < j < |s| ==> Precedes(mode, groups, s[i], s[j])
  }

  /** Inserts `x` before the first name it may precede. */
  function Insert(mode: SortMode, groups: map<string, seq<Trade>>, x: string, s: seq<string>): (r: seq<string>)
    requires SortedBy(mode, groups, s)
    ensures multiset(r) == multiset(s) + multiset{x}
    ensures SortedBy(mode, groups, r)
  {
    if s == [] then [x]
    else if Precedes(mode, groups, x, s[0]) then
      forall j | 0 <= j < |s| ensures Precedes(mode, groups, x, s[j]) {
        PrecedesTotalOrder(mode, groups, x, s[0], s[j]);
      }
      [x] + s
    else
      var rest := Insert(mode, groups, x, s[1..]);
      PrecedesTotalOrder(mode, groups, x, s[0], x);
      assert s == [s[0]] + s[1..];
      forall j | 0 <= j < |rest| ensures Precedes(mode, groups, s[0], rest[j]) {
        assert rest[j] in multiset(rest);
        if rest[j] != x {
          assert rest[j] in s[1..];
        }
      }
      [s[0]] + rest
  }

  /**
   * `Object.keys(groupedTrades).sort(comparator)`: the keys reordered so
   * that each may precede the next, as an insertion sort.
   */
  function SortStocks(mode: SortMode, groups: map<string, seq<Trade>>, keys: seq<string>): (r: seq<string>)
    ensures multiset(r) == multiset(keys)
    ensures SortedBy(mode, groups, r)
  {
    if keys == [] then []
    else
      assert keys == [keys[0]] + keys[1..];
      Insert(mode, groups, keys[0], SortStocks(mode, groups, keys[1..]))
  }

  /** A permutation of a duplicate-free list is duplicate-free. */
  lemma PermutationNoDuplicates(a: seq<string>, b: seq<string>)
    requires multiset(a) == multiset(b) && NoDuplicates(a)
    ensures NoDuplicates(b)
  {
    forall i, j | 0 <= i < j < |b| ensures b[i] != b[j] {
      if b[i] == b[j] {
        assert b == b[..i] + [b[i]] + b[i + 1..j] + [b[j]] + b[j + 1..];
        assert multiset(b)[b[i]] >= 2;
        DistinctCount(a, b[i]);
      }
    }
  }

  /** In a duplicate-free list every element occurs at most once. */
  lemma {:induction false} DistinctCount(a: seq<string>, x: string)
    requires NoDuplicates(a)
    ensures multiset(a)[x] <= 1
  {
    if a != [] {
      assert a == [a[0]] + a[1..];
      DistinctCount(a[1..], x);
      if a[0] == x {
        assert x !in a[1..];
      }
    }
  }

  /** In 'stock' mode the sorted group keys are a permutation of the keys in strictly ascending name order. */
  lemma SortByStockAscending(trades: seq<Trade>, searchText: string, strategy: string)
    ensures var keys := GroupKeys(trades, searchText, strategy);
      var r := SortStocks(ByStock, GroupMap(trades, searchText, strategy), keys);
      multiset(r) == multiset(keys) &&
      forall i, j :: 0 <= i < j < |r| ==> Compare(r[i], r[j]) < 0
  {
    var keys := GroupKeys(trades, searchText, strategy);
    var r := SortStocks(ByStock, GroupMap(trades, searchText, strategy), keys);
    GroupKeysSpec(trades, searchText, strategy);
    PermutationNoDuplicates(keys, r);
  }

  /** In 'date' mode the first trade's date never increases along the sorted keys. */
  lemma SortByDateDescending(trades: seq<Trade>, searchText: string, strategy: string)
    ensures var groups := GroupMap(trades, searchText, strategy);
      var keys := GroupKeys(trades, searchText, strategy);
      var r := SortStocks(ByDate, groups, keys);
      multiset(r) == multiset(keys) &&
      forall i, j :: 0 <= i < j < |r| ==>
        r[i] in keys && groups[r[i]] != [] &&
        groups[r[i]][0].date >= FirstDate(groups, r[j])
  {
    var groups := GroupMap(trades, searchText, strategy);
    var keys := GroupKeys(trades, searchText, strategy);
    var r := SortStocks(ByDate, groups, keys);
    assert multiset(r) == multiset(keys) && SortedBy(ByDate, groups, r);
    forall i | 0 <= i < |r| ensures r[i] in keys && r[i] in groups && groups[r[i]] != [] {
      assert r[i] in multiset(r);
      GroupsNonEmpty(trades, searchText, strategy, r[i]);
    }
    forall i, j | 0 <= i < j < |r| ensures groups[r[i]][0].date >= FirstDate(groups, r[j]) {
      assert Precedes(ByDate, groups, r[i], r[j]);
      assert FirstDate(groups, r[i]) == groups[r[i]][0].date;
    }
  }

  /** The names "TCS", "INFY", "RELI" sort by name to "INFY", "RELI", "TCS". */
  lemma SortByStockExample(groups: map<string, seq<Trade>>)
    ensures SortStocks(ByStock, groups, ["TCS", "INFY", "RELI"]) == ["INFY", "RELI", "TCS"]
  {
    var keys := ["TCS", "INFY", "RELI"];
    assert keys[1..] == ["INFY", "RELI"] && keys[1..][1..] == ["RELI"] && ["RELI"][1..] == [];
    assert Compare("INFY", "RELI") == -1 && Compare("TCS", "INFY") == 1 && Compare("TCS", "RELI") == 1;
    assert SortStocks(ByStock, groups, []) == [];
    assert SortStocks(ByStock, groups, ["RELI"]) == ["RELI"];
    assert Insert(ByStock, groups, "INFY", ["RELI"]) == ["INFY", "RELI"];
    assert SortStocks(ByStock, groups, ["INFY", "RELI"]) == ["INFY", "RELI"];
    assert Insert(ByStock, groups, "TCS", []) == ["TCS"];
    assert Insert(ByStock, groups, "TCS", ["RELI"]) == ["RELI", "TCS"];
    assert ["INFY", "RELI"][1..] == ["RELI"];
    assert Insert(ByStock, groups, "TCS", ["INFY", "RELI"]) == ["INFY", "RELI", "TCS"];
  }

  // ---------------------------------------------------------------------
  // Per-stock statistics (`calculateStats`)
  // ---------------------------------------------------------------------

  /** What the summary row of one stock shows. */
  datatype Stats = Stats(totalQty: int, avgBuyPrice: real, avgSellPrice: real, totalInvested: real, pnl: real)

  /** Total quantity over the Buy trades. */
  function BuyQty(trades: seq<Trade>): int {
    if trades == [] then 0
    else BuyQty(trades[..|trades| - 1]) + (if trades[|trades| - 1].side == Buy then trades[|trades| - 1].quantity else 0)
  }

  /** Total value (quantity times price) over the Buy trades. */
  function BuyValue(trades: seq<Trade>): real {
    if trades == [] then 0.0
    else BuyValue(trades[..|trades| - 1]) + (if trades[|trades| - 1].side == Buy then Value(trades[|trades| - 1]) else 0.0)
  }

  /** Total quantity over the Sell trades. */
  function SellQty(trades: seq<Trade>): int {
    if trades == [] then 0
    else SellQty(trades[..|trades| - 1]) + (if trades[|trades| - 1].side == Sell then trades[|trades| - 1].quantity else 0)
  }

  /** Total value (quantity times price) over the Sell trades. */
  function SellValue(trades: seq<Trade>): real {
    if trades == [] then 0.0
    else SellValue(trades[..|trades| - 1]) + (if trades[|trades| - 1].side == Sell then Value(trades[|trades| - 1]) else 0.0)
  }

  /**
   * The 2-decimal average price of one side, `qty > 0 ? (value / qty).toFixed(2) : 0`:
   * 0 when that side's quantity is not positive.
   */
  function AveragePrice(value: real, qty: int): real {
    if qty > 0 then Round2(value / qty as real) else 0.0
  }

  /** A quantity times an amount. */
  function Times(qty: int, amount: real): real {
    qty as real * amount
  }

  /** The statistics in closed form, from the four per-side totals. */
  function StatsFromTotals(buyQty: int, buyValue: real, sellQty: int, sellValue: real): Stats {
    var avgBuy := AveragePrice(buyValue, buyQty);
    var avgSell := AveragePrice(sellValue, sellQty);
    var totalQty := if buyQty >= sellQty then buyQty else sellQty;
    var invested := if Times(totalQty, avgBuy) == 0.0 then Times(totalQty, avgSell) else Times(totalQty, avgBuy);
    var pnl := if buyQty > 0 && sellValue > 0.0
      then Times(sellQty, avgSell) - Times(sellQty, avgBuy) else 0.0;
    Stats(totalQty, avgBuy, avgSell, invested, pnl)
  }

  /** The statistics of a list of trades. */
  function StatsOf(trades: seq<Trade>): Stats {
    StatsFromTotals(BuyQty(trades), BuyValue(trades), SellQty(trades), SellValue(trades))
  }

  /** One more trade at the end adds to its own side's totals only. */
  lemma TotalsSnoc(s: seq<Trade>, t: Trade)
    ensures BuyQty(s + [t]) == BuyQty(s) + (if t.side == Buy then t.quantity else 0)
    ensures BuyValue(s + [t]) == BuyValue(s) + (if t.side == Buy then Value(t) else 0.0)
    ensures SellQty(s + [t]) == SellQty(s) + (if t.side == Sell then t.quantity else 0)
    ensures SellValue(s + [t]) == SellValue(s) + (if t.side == Sell then Value(t) else 0.0)
  {
    assert (s + [t])[..|s|] == s;
  }

  /**
   * `calculateStats`: one pass over the trades updating the running totals,
   * recomputing a side's average after each of its trades, then the
   * position, invested amount and profit/loss.
   */
  method CalculateStats(trades: seq<Trade>) returns (stats: Stats)
    ensures stats == StatsOf(trades)
  {
    var totalQty := 0;
    var totalBuyQty, totalSellQty := 0, 0;
    var totalInvested, totalSellValue := 0.0, 0.0;
    var avgBuyPrice, avgSellPrice := 0.0, 0.0;
    var pnl := 0.0;
    var totalBuyPrice, totalSellPrice := 0.0, 0.0;
    for i := 0 to |trades|
      invariant totalBuyQty == BuyQty(trades[..i]) && totalSellQty == SellQty(trades[..i])
      invariant totalInvested == totalBuyPrice == BuyValue(trades[..i])
      invariant totalSellValue == totalSellPrice == SellValue(trades[..i])
      invariant avgBuyPrice == AveragePrice(totalInvested, totalBuyQty)
      invariant avgSellPrice == AveragePrice(totalSellValue, totalSellQty)
    {
      var t := trades[i];
      assert trades[..i + 1] == trades[..i] + [t];
      TotalsSnoc(trades[..i], t);
      var qty, price := t.quantity, t.price;
      var value := qty as real * price;
      assert value == Value(t);
      if t.side == Buy {
        totalInvested := totalInvested + value;
        totalBuyQty := totalBuyQty + qty;
        totalBuyPrice := totalBuyPrice + value;
        avgBuyPrice := AveragePrice(totalInvested, totalBuyQty);
      } else if t.side == Sell {
        totalSellValue := totalSellValue + value;
        totalSellQty := totalSellQty + qty;
        totalSellPrice := totalSellPrice + value;
        avgSellPrice := AveragePrice(totalSellValue, totalSellQty);
      }
    }
    assert trades[..|trades|] == trades;
    assert StatsOf(trades) == StatsFromTotals(totalBuyQty, totalBuyPrice, totalSellQty, totalSellPrice);

    // the net position is computed and then overwritten by the larger side
    if totalBuyQty >= totalSellQty {
      totalQty := totalBuyQty - totalSellQty;
    } else {
      totalQty := totalSellQty - totalBuyQty;
    }
    totalQty := if totalBuyQty >= totalSellQty then totalBuyQty else totalSellQty;

    totalInvested := Times(totalQty, avgBuyPrice);
    if totalInvested == 0.0 {
      totalInvested := Times(totalQty, avgSellPrice);
    }
    if totalBuyQty > 0 && totalSellPrice > 0.0 {
      pnl := Times(totalSellQty, avgSellPrice) - Times(totalSellQty, avgBuyPrice);
    }
    stats := Stats(totalQty, avgBuyPrice, avgSellPrice, totalInvested, pnl);
  }

  /** The four totals of a concatenation are the sums of the parts' totals. */
  lemma {:induction false} TotalsAppend(a: seq<Trade>, b: seq<Trade>)
    ensures BuyQty(a + b) == BuyQty(a) + BuyQty(b) && SellQty(a + b) == SellQty(a) + SellQty(b)
    ensures BuyValue(a + b) == BuyValue(a) + BuyValue(b) && SellValue(a + b) == SellValue(a) + SellValue(b)
  {
    if b == [] {
      assert a + b == a;
    } else {
      var init := b[..|b| - 1];
      TotalsAppend(a, init);
      assert (a + b)[..|a + b| - 1] == a + init;
    }
  }

  /** Taking out the trade at position `i` takes its contribution out of its side's totals. */
  lemma TotalsRemove(b: seq<Trade>, i: int)
    requires 0 <= i < |b|
    ensures var rest, x := b[..i] + b[i + 1..], b[i];
      BuyQty(b) == BuyQty(rest) + (if x.side == Buy then x.quantity else 0) &&
      BuyValue(b) == BuyValue(rest) + (if x.side == Buy then Value(x) else 0.0) &&
      SellQty(b) == SellQty(rest) + (if x.side == Sell then x.quantity else 0) &&
      SellValue(b) == SellValue(rest) + (if x.side == Sell then Value(x) else 0.0)
  {
    var b1, x, b2 := b[..i], b[i], b[i + 1..];
    assert b == (b1 + [x]) + b2;
    TotalsAppend(b1, b2);
    TotalsSnoc(b1, x);
    TotalsAppend(b1 + [x], b2);
  }

  /** Taking the last element of `a` and a matching element of `b` out of equal multisets leaves equal multisets. */
  lemma MultisetRemove(a: seq<Trade>, b: seq<Trade>, i: int)
    requires multiset(a) == multiset(b) && |a| > 0 && 0 <= i < |b| && b[i] == a[|a| - 1]
    ensures multiset(a[..|a| - 1]) == multiset(b[..i] + b[i + 1..])
  {
    var init, x := a[..|a| - 1], a[|a| - 1];
    var b1, b2 := b[..i], b[i + 1..];
    assert a == init + [x];
    assert b == b1 + [x] + b2;
    assert multiset(b) == multiset(b1) + multiset{x} + multiset(b2);
    assert multiset(b1 + b2) == multiset(b1) + multiset(b2);
    forall y ensures multiset(init)[y] == multiset(b1 + b2)[y] {
      assert multiset(a)[y] == multiset(b)[y];
    }
  }

  /** The four totals depend only on which trades there are, not on their order. */
  lemma {:induction false} TotalsPermutation(a: seq<Trade>, b: seq<Trade>)
    requires multiset(a) == multiset(b)
    ensures BuyQty(a) == BuyQty(b) && BuyValue(a) == BuyValue(b)
    ensures SellQty(a) == SellQty(b) && SellValue(a) == SellValue(b)
    decreases |a|
  {
    if a == [] {
      assert |b| == |multiset(b)| == 0;
    } else {
      var init, x := a[..|a| - 1], a[|a| - 1];
      assert a == init + [x];
      assert x in multiset(b);
      var i :| 0 <= i < |b| && b[i] == x;
      MultisetRemove(a, b, i);
      TotalsPermutation(init, b[..i] + b[i + 1..]);
      TotalsSnoc(init, x);
      TotalsRemove(b, i);
    }
  }

  /** The statistics do not depend on the order in which the trades were stored. */
  lemma StatsOrderIndependent(a: seq<Trade>, b: seq<Trade>)
    requires multiset(a) == multiset(b)
    ensures StatsOf(a) == StatsOf(b)
  {
    TotalsPermutation(a, b);
  }

  /** For no trades every statistic is 0 (and no division happens). */
  lemma StatsEmpty()
    ensures StatsOf([]) == Stats(0, 0.0, 0.0, 0.0, 0.0)
  {
  }

  /** Without Buy trades the Buy totals are 0; without Sell trades the Sell totals are 0. */
  lemma {:induction false} SideTotalsZero(trades: seq<Trade>)
    ensures (forall i :: 0 <= i < |trades| ==> trades[i].side != Buy) ==> BuyQty(trades) == 0 && BuyValue(trades) == 0.0
    ensures (forall i :: 0 <= i < |trades| ==> trades[i].side != Sell) ==> SellQty(trades) == 0 && SellValue(trades) == 0.0
  {
    if trades != [] {
      SideTotalsZero(trades[..|trades| - 1]);
    }
  }

  /**
   * Each side's average is independent of the other side: it is 0 when the
   * side has no trades, and otherwise depends only on that side's trades.
   * Without Buy trades the profit/loss is 0 as well.
   */
  lemma AveragesPerSide(trades: seq<Trade>)
    ensures (forall i :: 0 <= i < |trades| ==> trades[i].side != Buy) ==>
      StatsOf(trades).avgBuyPrice == 0.0 && StatsOf(trades).pnl == 0.0
    ensures (forall i :: 0 <= i < |trades| ==> trades[i].side != Sell) ==>
      StatsOf(trades).avgSellPrice == 0.0 && StatsOf(trades).pnl == 0.0
    ensures StatsOf(trades).avgBuyPrice == StatsOf(Filter(trades, IsSide(Buy))).avgBuyPrice
    ensures StatsOf(trades).avgSellPrice == StatsOf(Filter(trades, IsSide(Sell))).avgSellPrice
  {
    SideTotalsZero(trades);
    SideFilterTotals(trades);
  }

  /** The side test, as a predicate. */
  function IsSide(side: Side): Trade -> bool {
    (t: Trade) => t.side == side
  }

  /** Keeping one side's trades keeps that side's totals. */
  lemma {:induction false} SideFilterTotals(trades: seq<Trade>)
    ensures BuyQty(Filter(trades, IsSide(Buy))) == BuyQty(trades)
    ensures BuyValue(Filter(trades, IsSide(Buy))) == BuyValue(trades)
    ensures SellQty(Filter(trades, IsSide(Sell))) == SellQty(trades)
    ensures SellValue(Filter(trades, IsSide(Sell))) == SellValue(trades)
  {
    if trades != [] {
      var init, last := trades[..|trades| - 1], trades[|trades| - 1];
      SideFilterTotals(init);
      TotalsAppend(Filter(init, IsSide(Buy)), if last.side == Buy then [last] else []);
      TotalsAppend(Filter(init, IsSide(Sell)), if last.side == Sell then [last] else []);
    }
  }

  /** The totals of one Buy of 10 at 100 followed by one Sell of 4 at 120. */
  lemma ExampleTotals(buy: Trade, sell: Trade)
    requires buy.side == Buy && buy.quantity == 10 && buy.price == 100.0
    requires sell.side == Sell && sell.quantity == 4 && sell.price == 120.0
    ensures BuyQty([buy, sell]) == 10 && BuyValue([buy, sell]) == 1000.0
    ensures SellQty([buy, sell]) == 4 && SellValue([buy, sell]) == 480.0
  {
    assert Value(buy) == 10 as real * 100.0 == 1000.0;
    assert Value(sell) == 4 as real * 120.0 == 480.0;
    TotalsAppend([buy], [sell]);
    assert [buy] + [sell] == [buy, sell];
    assert [buy][..0] == [] && [sell][..0] == [];
  }

  /** A Buy of 10 at 100 and a Sell of 4 at 120 give quantity 10, averages 100 and 120, invested 1000 and P/L 80. */
  lemma StatsExample(stock: string, d1: int, d2: int)
    ensures StatsOf([Trade("1", stock, Buy, 100.0, 10, d1, "Swing"), Trade("2", stock, Sell, 120.0, 4, d2, "Swing")])
      == Stats(10, 100.0, 120.0, 1000.0, 80.0)
  {
    var buy := Trade("1", stock, Buy, 100.0, 10, d1, "Swing");
    var sell := Trade("2", stock, Sell, 120.0, 4, d2, "Swing");
    ExampleTotals(buy, sell);
    assert AveragePrice(1000.0, 10) == 100.0 by {
      assert 1000.0 / 10 as real == 10000 as real / 100.0;
      Round2Exact(10000);
    }
    assert AveragePrice(480.0, 4) == 120.0 by {
      assert 480.0 / 4 as real == 12000 as real / 100.0;
      Round2Exact(12000);
    }
    assert Times(10, 100.0) == 1000.0 && Times(4, 120.0) == 480.0 && Times(4, 100.0) == 400.0;
    assert StatsOf([buy, sell]) == StatsFromTotals(10, 1000.0, 4, 480.0);
  }

  // ---------------------------------------------------------------------
  // Delete filters and the detail-view filter
  // ---------------------------------------------------------------------

  /** The test kept by a single delete, as a predicate. */
  function OtherId(tradeId: string): Trade -> bool {
    (t: Trade) => t.id != tradeId
  }

  /** The test kept by "Delete All", as a predicate. */
  function OtherStock(stock: string): Trade -> bool {
    (t: Trade) => t.stockName != stock
  }

  /** The test kept by "Only <strategy>", as a predicate (case-sensitive strategy). */
  function NotStockAndStrategy(stock: string, strategy: string): Trade -> bool {
    (t: Trade) => !(t.stockName == stock && t.strategy == strategy)
  }

  /** The test of the detail view, as a predicate. */
  function InDetail(selected: string, strategy: string): Trade -> bool {
    (t: Trade) => t.stockName == selected && MatchesStrategy(t, strategy)
  }

  /** `deleteSingleTrade`: drop the records whose id is `tradeId`. */
  function WithoutTrade(trades: seq<Trade>, tradeId: string): seq<Trade> {
    Filter(trades, OtherId(tradeId))
  }

  /** "Delete All": drop every record of `stock`. */
  function WithoutStock(trades: seq<Trade>, stock: string): seq<Trade> {
    Filter(trades, OtherStock(stock))
  }

  /** "Only <strategy>": drop the records of `stock` whose strategy is exactly `strategy`. */
  function WithoutStockStrategy(trades: seq<Trade>, stock: string, strategy: string): seq<Trade> {
    Filter(trades, NotStockAndStrategy(stock, strategy))
  }

  /** `renderStockTrades`: the selected stock's trades under the strategy filter (the search text does not apply). */
  function DetailTrades(trades: seq<Trade>, selected: string, strategy: string): seq<Trade> {
    Filter(trades, InDetail(selected, strategy))
  }

  /**
   * A single delete removes exactly the records with that id, every other
   * record stays with its multiplicity, and the survivors keep their order.
   */
  lemma DeleteSingleExact(trades: seq<Trade>, tradeId: string, a: seq<Trade>, b: seq<Trade>)
    ensures forall t :: t in WithoutTrade(trades, tradeId) <==> t in trades && t.id != tradeId
    ensures forall t: Trade :: t.id != tradeId ==> multiset(WithoutTrade(trades, tradeId))[t] == multiset(trades)[t]
    ensures WithoutTrade(a + b, tradeId) == WithoutTrade(a, tradeId) + WithoutTrade(b, tradeId)
  {
    FilterContains(trades, OtherId(tradeId));
    FilterMultiset(trades, OtherId(tradeId));
    FilterAppend(a, b, OtherId(tradeId));
  }

  /** With unique ids, deleting the id of the record at `i` removes that record and nothing else. */
  lemma DeleteSingleUnique(trades: seq<Trade>, i: int)
    requires 0 <= i < |trades|
    requires forall j :: 0 <= j < |trades| && j != i ==> trades[j].id != trades[i].id
    ensures WithoutTrade(trades, trades[i].id) == trades[..i] + trades[i + 1..]
  {
    var id := trades[i].id;
    assert trades == trades[..i] + [trades[i]] + trades[i + 1..];
    FilterAppend(trades[..i] + [trades[i]], trades[i + 1..], OtherId(id));
    FilterSnoc(trades[..i], trades[i], OtherId(id));
    FilterAll(trades[..i], OtherId(id));
    var rest := trades[i + 1..];
    forall j | 0 <= j < |rest| ensures OtherId(id)(rest[j]) {
      assert rest[j] == trades[i + 1 + j];
    }
    FilterAll(rest, OtherId(id));
  }

  /**
   * "Delete All" removes exactly the records of `stock`: no group of that
   * name survives, and every other stock's group is untouched.
   */
  lemma {:induction false} DeleteAllExact(trades: seq<Trade>, stock: string, searchText: string, strategy: string)
    ensures forall t :: t in WithoutStock(trades, stock) <==> t in trades && t.stockName != stock
    ensures stock !in GroupKeys(WithoutStock(trades, stock), searchText, strategy)
    ensures forall k :: k != stock ==>
      GroupOf(WithoutStock(trades, stock), searchText, strategy, k) == GroupOf(trades, searchText, strategy, k)
  {
    FilterContains(trades, OtherStock(stock));
    GroupKeysSpec(WithoutStock(trades, stock), searchText, strategy);
    forall k | k != stock
      ensures GroupOf(WithoutStock(trades, stock), searchText, strategy, k) == GroupOf(trades, searchText, strategy, k)
    {
      OtherGroupsKept(trades, OtherStock(stock), searchText, strategy, k);
    }
  }

  /**
   * A delete that keeps every trade of stock `k` leaves the group of `k`
   * as it was.
   */
  lemma {:induction false} OtherGroupsKept(trades: seq<Trade>, keep: Trade -> bool, searchText: string, strategy: string, k: string)
    requires forall t: Trade :: t.stockName == k ==> keep(t)
    ensures GroupOf(Filter(trades, keep), searchText, strategy, k) == GroupOf(trades, searchText, strategy, k)
  {
    if trades != [] {
      var init, last := trades[..|trades| - 1], trades[|trades| - 1];
      OtherGroupsKept(init, keep, searchText, strategy, k);
      assert trades == init + [last];
      GroupingStep(init, last, searchText, strategy);
      if keep(last) {
        assert Filter(trades, keep) == Filter(init, keep) + [last];
        GroupingStep(Filter(init, keep), last, searchText, strategy);
      } else {
        assert Filter(trades, keep) == Filter(init, keep);
        assert last.stockName != k;
      }
    }
  }

  /**
   * "Only <strategy>" removes exactly the records of `stock` whose strategy
   * equals `strategy` letter for letter; every other stock's group is
   * untouched.
   */
  lemma DeleteOnlyExact(trades: seq<Trade>, stock: string, strategy: string, searchText: string, filter: string,
                        a: seq<Trade>, b: seq<Trade>)
    ensures forall t :: t in WithoutStockStrategy(trades, stock, strategy) <==>
      t in trades && !(t.stockName == stock && t.strategy == strategy)
    ensures forall t: Trade :: !(t.stockName == stock && t.strategy == strategy) ==>
      multiset(WithoutStockStrategy(trades, stock, strategy))[t] == multiset(trades)[t]
    ensures WithoutStockStrategy(a + b, stock, strategy) ==
      WithoutStockStrategy(a, stock, strategy) + WithoutStockStrategy(b, stock, strategy)
    ensures forall k :: k != stock ==>
      GroupOf(WithoutStockStrategy(trades, stock, strategy), searchText, filter, k) == GroupOf(trades, searchText, filter, k)
  {
    FilterContains(trades, NotStockAndStrategy(stock, strategy));
    FilterMultiset(trades, NotStockAndStrategy(stock, strategy));
    FilterAppend(a, b, NotStockAndStrategy(stock, strategy));
    forall k | k != stock
      ensures GroupOf(WithoutStockStrategy(trades, stock, strategy), searchText, filter, k) == GroupOf(trades, searchText, filter, k)
    {
      OtherGroupsKept(trades, NotStockAndStrategy(stock, strategy), searchText, filter, k);
    }
  }

  /**
   * The detail view of a stock shows the same trades as that stock's group
   * in the summary list whenever the search text matches the stock's name,
   * and otherwise shows trades the summary list hides.
   */
  lemma DetailIsGroup(trades: seq<Trade>, selected: string, strategy: string, searchText: string)
    ensures Contains(Lower(selected), Lower(searchText)) ==>
      DetailTrades(trades, selected, strategy) == GroupOf(trades, searchText, strategy, selected)
    ensures !Contains(Lower(selected), Lower(searchText)) ==>
      GroupOf(trades, searchText, strategy, selected) == []
  {
    if Contains(Lower(selected), Lower(searchText)) {
      FilterAgree(trades, InDetail(selected, strategy), InGroup(searchText, strategy, selected));
    } else {
      FilterNone(trades, InGroup(searchText, strategy, selected));
    }
  }

  // ---------------------------------------------------------------------
  // The bulk-delete dialog
  // ---------------------------------------------------------------------

  /** The buttons of the "Delete Trades for <stock>" dialog. */
  datatype DeleteChoice = Cancel | OnlyStrategy | DeleteAll

  /**
   * The dialog's buttons as the source builds them: "Only <strategy>" is
   * added when the filter is not the exact string 'all'. The filter buttons
   * set 'All', so after pressing "All" the extra button is offered too.
   */
  function DeleteChoicesAsWritten(strategy: string): (r: seq<DeleteChoice>)
    ensures Cancel in r && DeleteAll in r
    ensures OnlyStrategy in r <==> strategy != "all"
  {
    [Cancel] + (if strategy != "all" then [OnlyStrategy] else []) + [DeleteAll]
  }

  /** The dialog's buttons with the 'all' test made case-insensitive, as the other filters are. */
  function DeleteChoices(strategy: string): (r: seq<DeleteChoice>)
    ensures Cancel in r && DeleteAll in r
    ensures OnlyStrategy in r <==> !IsAllFilter(strategy)
  {
    [Cancel] + (if !IsAllFilter(strategy) then [OnlyStrategy] else []) + [DeleteAll]
  }

  /** The strategy tags a trade can be saved with. */
  predicate SavedStrategy(t: Trade) {
    t.strategy == "Intraday" || t.strategy == "Swing"
  }

  /**
   * As written: after the "All" filter button, "Only ALL" is offered, yet it
   * deletes nothing, because no saved trade has the strategy 'All'.
   */
  lemma OnlyAllDeletesNothing(trades: seq<Trade>, stock: string)
    requires forall i :: 0 <= i < |trades| ==> SavedStrategy(trades[i])
    ensures OnlyStrategy in DeleteChoicesAsWritten("All")
    ensures WithoutStockStrategy(trades, stock, "All") == trades
  {
    assert DeleteChoicesAsWritten("All")[1] == OnlyStrategy;
    FilterAll(trades, NotStockAndStrategy(stock, "All"));
  }

  /**
   * Corrected: "Only <strategy>" is offered only under a specific strategy
   * filter, and then (for trades saved with the tags the filter buttons
   * use) it empties exactly the group the user is looking at.
   */
  lemma {:induction false} OnlyStrategyEmptiesGroup(trades: seq<Trade>, stock: string, strategy: string, searchText: string)
    requires strategy == "All" || strategy == "all" || strategy == "Intraday" || strategy == "Swing"
    requires forall i :: 0 <= i < |trades| ==> SavedStrategy(trades[i])
    requires OnlyStrategy in DeleteChoices(strategy)
    ensures GroupOf(WithoutStockStrategy(trades, stock, strategy), searchText, strategy, stock) == []
  {
    LowerTags();
    var r := WithoutStockStrategy(trades, stock, strategy);
    FilterContains(trades, NotStockAndStrategy(stock, strategy));
    forall i | 0 <= i < |r| ensures !InGroup(searchText, strategy, stock)(r[i]) {
      assert r[i] in r;
      assert r[i] in trades;
    }
    FilterNone(r, InGroup(searchText, strategy, stock));
  }

  /** The lower-case forms of the filter and strategy tags. */
  lemma LowerTags()
    ensures Lower("All") == "all" && Lower("all") == "all"
    ensures Lower("Intraday") == "intraday" && Lower("Swing") == "swing"
  {
    LowerIs("All", "all");
    LowerIs("all", "all");
    LowerIs("Intraday", "intraday");
    LowerIs("Swing", "swing");
  }

  // ---------------------------------------------------------------------
  // The screen
  // ---------------------------------------------------------------------

  /** The sort button flips between 'stock' and 'date'. */
  function Toggled(mode: SortMode): (r: SortMode)
    ensures r != mode
  {
    if mode == ByDate then ByStock else ByDate
  }

  /** One row of the summary list. */
  datatype StockSummary = StockSummary(stock: string, stats: Stats)

  /**
   * The summary screen's state: the last trade list read from the store,
   * the sort mode, the strategy filter, the search text and the stock whose
   * detail view is open (None for the list).
   */
  class TradeHistoryScreen {
    var trades: seq<Trade>
    var sortBy: SortMode
    var strategy: string
    var searchText: string
    var selectedStock: Option<string>

    /** Mounting the screen: initial state, then the first fetch. */
    constructor (store: TradeStore)
      ensures trades == store.trades
      ensures sortBy == ByStock && strategy == "all" && searchText == "" && selectedStock == None
    {
      trades := store.trades;
      sortBy := ByStock;
      strategy := "all";
      searchText := "";
      selectedStock := None;
    }

    /** `fetchTrades`: re-read the full list from the store. */
    method FetchTrades(store: TradeStore)
      modifies this
      ensures trades == store.trades
      ensures sortBy == old(sortBy) && strategy == old(strategy) && searchText == old(searchText)
      ensures selectedStock == old(selectedStock)
    {
      trades := store.trades;
    }

    /** Tapping a summary row opens that stock's detail view. */
    method SelectStock(stock: string)
      modifies this
      ensures selectedStock == Some(stock)
      ensures trades == old(trades) && sortBy == old(sortBy) && strategy == old(strategy) && searchText == old(searchText)
    {
      selectedStock := Some(stock);
    }

    /** The back button returns to the summary list. */
    method Back()
      modifies this
      ensures selectedStock == None
      ensures trades == old(trades) && sortBy == old(sortBy) && strategy == old(strategy) && searchText == old(searchText)
    {
      selectedStock := None;
    }

    /** The sort button. */
    method ToggleSort()
      modifies this
      ensures sortBy == Toggled(old(sortBy)) && Toggled(sortBy) == old(sortBy)
      ensures trades == old(trades) && strategy == old(strategy) && searchText == old(searchText)
      ensures selectedStock == old(selectedStock)
    {
      sortBy := if sortBy == ByDate then ByStock else ByDate;
    }

    /** A strategy filter button ('All', 'Intraday' or 'Swing'). */
    method SetStrategy(s: string)
      modifies this
      ensures strategy == s
      ensures trades == old(trades) && sortBy == old(sortBy) && searchText == old(searchText)
      ensures selectedStock == old(selectedStock)
    {
      strategy := s;
    }

    /** Typing in the search box. */
    method SetSearchText(text: string)
      modifies this
      ensures searchText == text
      ensures trades == old(trades) && sortBy == old(sortBy) && strategy == old(strategy)
      ensures selectedStock == old(selectedStock)
    {
      searchText := text;
    }

    /**
     * The summary list: group the trades, sort the keys, and compute each
     * row's statistics, in display order.
     */
    method StockSummaries() returns (rows: seq<StockSummary>)
      ensures var groups := GroupMap(trades, searchText, strategy);
        var sorted := SortStocks(sortBy, groups, GroupKeys(trades, searchText, strategy));
        |rows| == |sorted| &&
        forall i :: 0 <= i < |rows| ==>
          rows[i].stock == sorted[i] && rows[i].stats == StatsOf(GroupOf(trades, searchText, strategy, sorted[i]))
    {
      var keys, groups := GroupTrades(trades, searchText, strategy);
      var sorted := SortStocks(sortBy, groups, keys);
      rows := [];
      for i := 0 to |sorted|
        invariant |rows| == i
        invariant forall j :: 0 <= j < i ==>
          rows[j].stock == sorted[j] && rows[j].stats == StatsOf(GroupOf(trades, searchText, strategy, sorted[j]))
      {
        assert sorted[i] in multiset(keys);
        var stats := CalculateStats(groups[sorted[i]]);
        rows := rows + [StockSummary(sorted[i], stats)];
      }
    }

    /**
     * A button of the bulk-delete dialog for `stock`, as the dialog is built
     * (so "Only ALL" can be pressed after the 'All' filter button): Cancel
     * changes nothing; the two delete buttons filter the screen's trade list,
     * write it to the store, close the detail view and re-read the store.
     */
    method DeleteTradesForStock(store: TradeStore, stock: string, choice: DeleteChoice)
      requires choice in DeleteChoicesAsWritten(strategy)
      modifies this, store
      ensures choice == Cancel ==>
        store.trades == old(store.trades) && trades == old(trades) && selectedStock == old(selectedStock)
      ensures choice == OnlyStrategy ==>
        store.trades == WithoutStockStrategy(old(trades), stock, strategy) && trades == store.trades &&
        selectedStock == None
      ensures choice == DeleteAll ==>
        store.trades == WithoutStock(old(trades), stock) && trades == store.trades && selectedStock == None
      ensures store.stockNames == old(store.stockNames)
      ensures sortBy == old(sortBy) && strategy == old(strategy) && searchText == old(searchText)
    {
      match choice
      case Cancel =>
      case OnlyStrategy =>
        store.trades := WithoutStockStrategy(trades, stock, strategy);
        selectedStock := None;
        FetchTrades(store);
      case DeleteAll =>
        store.trades := WithoutStock(trades, stock);
        selectedStock := None;
        FetchTrades(store);
    }

    /**
     * "Delete" in the confirmation of a long-pressed trade: filter out that
     * id, write the list to the store and re-read it. The detail view stays
     * open.
     */
    method DeleteSingleTrade(store: TradeStore, tradeId: string)
      modifies this, store
      ensures store.trades == WithoutTrade(old(trades), tradeId) && trades == store.trades
      ensures store.stockNames == old(store.stockNames)
      ensures selectedStock == old(selectedStock)
      ensures sortBy == old(sortBy) && strategy == old(strategy) && searchText == old(searchText)
    {
      store.trades := WithoutTrade(trades, tradeId);
      FetchTrades(store);
    }
  }
}
