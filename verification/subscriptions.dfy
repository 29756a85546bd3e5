/** The ingestor's market data subscriptions: watchlist, line budget, on-demand symbols, and the connector's tickers. */
module Subscriptions {
  import opened Wrappers
  import opened Text

  /** A trimmed, non-empty key: what the tables are indexed by. */
  type Key = s: string | s != "" && Strip(s) == s witness "K"

  function ToKey(s: string): (key: Option<Key>)
    ensures key.None? <==> Strip(s) == ""
    ensures key.Some? ==> key.value == Strip(s)
  {
    StripIdempotent(s);
    if Strip(s) == "" then None else Some(Strip(s))
  }

  function ToKeys(symbols: seq<string>): (keys: seq<Option<Key>>)
    ensures |keys| == |symbols| && forall i :: 0 <= i < |keys| ==> keys[i] == ToKey(symbols[i])
  {
    seq(|symbols|, i requires 0 <= i < |symbols| => ToKey(symbols[i]))
  }

  /** An option row as queried; the strike is there by the query's own filter. */
  datatype OptRow = OptRow(key: string, symbol: string, expiry: string, strike: real, right: string)

  /** A trimmed row that has a key. */
  datatype Contract = Contract(key: Key, symbol: string, expiry: string, strike: real, right: string)

  /** A call unless the text says otherwise; of the upper-casing only these two letters matter. */
  function RightOf(text: string): string {
    match Strip(text)
    case "" => "C"
    case "c" => "C"
    case "p" => "P"
    case right => right
  }

  function ToContract(r: OptRow): Option<Contract> {
    match ToKey(r.key)
    case None => None
    case Some(key) =>
      Some(Contract(key, Strip(r.symbol), Strip(r.expiry), r.strike, RightOf(r.right)))
  }

  function ToContracts(rows: seq<OptRow>): (contracts: seq<Option<Contract>>)
    ensures |contracts| == |rows| && forall i :: 0 <= i < |contracts| ==> contracts[i] == ToContract(rows[i])
  {
    seq(|rows|, i requires 0 <= i < |rows| => ToContract(rows[i]))
  }

  /** A row counts if it has a key; each of its texts is trimmed, and without a right it is a call. */
  lemma {:induction false} ContractFields(r: OptRow)
    ensures ToContract(r).Some? <==> Strip(r.key) != ""
    ensures Strip(r.key) != "" ==>
              var c := ToContract(r).value;
              && c.key == Strip(r.key) && c.symbol == Strip(r.symbol) && c.expiry == Strip(r.expiry)
              && c.strike == r.strike
              && (Strip(r.right) in {"", "C", "c"} ==> c.right == "C")
              && (Strip(r.right) in {"P", "p"} ==> c.right == "P")
              && (Strip(r.right) !in {"", "C", "c", "P", "p"} ==> c.right !in {"C", "P"})
  {
  }

  function Elements<T>(s: seq<T>): set<T> {
    set x | x in s
  }

  function Keys(rows: seq<Contract>): set<Key> {
    set r | r in rows :: r.key
  }

  /** Key `key` is among the rows that have one. */
  ghost predicate Among(rows: seq<Option<Contract>>, key: Key) {
    exists j :: 0 <= j < |rows| && rows[j].Some? && rows[j].value.key == key
  }

  /** The rows that have a key, in order. */
  ghost function WithKey(rows: seq<Option<Contract>>): seq<Contract> {
    if rows == [] then []
    else
      var n := |rows| - 1;
      WithKey(rows[..n]) + if rows[n].Some? then [rows[n].value] else []
  }

  /** The positions whose key is neither watched nor that of an earlier position, in order. */
  ghost function NewPositions(watched: set<Key>, positions: seq<Option<Contract>>): seq<Contract> {
    if positions == [] then []
    else
      var n := |positions| - 1;
      var earlier := NewPositions(watched, positions[..n]);
      if positions[n].Some? && positions[n].value.key !in watched && !Among(positions[..n], positions[n].value.key) then
        earlier + [positions[n].value]
      else earlier
  }

  /** All option rows in the order of priority. */
  ghost function Options(watchlist: seq<OptRow>, positions: seq<OptRow>): seq<Contract> {
    var watched := WithKey(ToContracts(watchlist));
    watched + NewPositions(Keys(watched), ToContracts(positions))
  }

  function Budget(maxSubscriptions: int): (budget: nat)
    ensures maxSubscriptions >= 0 ==> budget == maxSubscriptions
    ensures maxSubscriptions < 0 ==> budget == 0
  {
    if maxSubscriptions < 0 then 0 else maxSubscriptions
  }

  lemma {:induction false} AmongExtended(rows: seq<Option<Contract>>, last: Option<Contract>)
    ensures forall key :: Among(rows + [last], key) <==> Among(rows, key) || (last.Some? && last.value.key == key)
  {
    var more := rows + [last];
    assert more[|rows|] == last;
    assert forall j :: 0 <= j < |rows| ==> more[j] == rows[j];
  }

  /** Positions join the watchlist rows unless their key is there already. */
  method CollectOptions(watchlist: seq<OptRow>, positions: seq<OptRow>) returns (optRows: seq<Contract>)
    ensures optRows == Options(watchlist, positions)
  {
    optRows := AddWatched(ToContracts(watchlist));
    optRows := AddPositions(optRows, ToContracts(positions));
  }

  method AddWatched(rows: seq<Option<Contract>>) returns (optRows: seq<Contract>)
    ensures optRows == WithKey(rows)
  {
    optRows := [];
    for k := 0 to |rows|
      invariant optRows == WithKey(rows[..k])
    {
      assert rows[..k + 1][..k] == rows[..k];
      if rows[k].Some? {
        optRows := optRows + [rows[k].value];
      }
    }
    assert rows[..|rows|] == rows;
  }

  method AddPositions(watched: seq<Contract>, rows: seq<Option<Contract>>) returns (optRows: seq<Contract>)
    ensures optRows == watched + NewPositions(Keys(watched), rows)
  {
    optRows := watched;
    var seenKeys := set r | r in watched :: r.key;
    ghost var watchedKeys := Keys(watched);
    for k := 0 to |rows|
      invariant optRows == watched + NewPositions(watchedKeys, rows[..k])
      invariant forall key :: key in seenKeys <==> key in watchedKeys || Among(rows[..k], key)
    {
      assert rows[..k + 1] == rows[..k] + [rows[k]];
      assert rows[..k + 1][..k] == rows[..k];
      AmongExtended(rows[..k], rows[k]);
      if rows[k].None? || rows[k].value.key in seenKeys {
        continue;
      }
      seenKeys := seenKeys + {rows[k].value.key};
      optRows := optRows + [rows[k].value];
    }
    assert rows[..|rows|] == rows;
  }

  /** What the database answers. */
  datatype Rows = Rows(watchlist: seq<OptRow>, positions: seq<OptRow>, stocks: seq<string>)

  datatype Limits = Limits(maxSubscriptions: int, includeStk: bool, includeOpt: bool)

  function First<T>(s: seq<T>, n: nat): seq<T> {
    if |s| < n then s else s[..n]
  }

  /** All rows there are to choose from; none when the query fails. */
  ghost function AllOptions(answer: Option<Rows>, limits: Limits): seq<Contract> {
    if answer.None? || !limits.includeOpt then [] else Options(answer.value.watchlist, answer.value.positions)
  }

  function AllStocks(answer: Option<Rows>, limits: Limits): seq<string> {
    if answer.None? || !limits.includeStk then [] else answer.value.stocks
  }

  ghost function SelectedOptions(answer: Option<Rows>, limits: Limits): seq<Contract> {
    First(AllOptions(answer, limits), Budget(limits.maxSubscriptions))
  }

  ghost function SelectedStocks(answer: Option<Rows>, limits: Limits): seq<string> {
    var room := Budget(limits.maxSubscriptions) - |SelectedOptions(answer, limits)|;
    First(AllStocks(answer, limits), if room < 0 then 0 else room)
  }

  /** Options use the budget first and stocks get the rest, both in order; nothing is left out while budget remains,
      and a failed query selects nothing. */
  method FetchWatchlist(answer: Option<Rows>, limits: Limits) returns (optSel: seq<Contract>, stkSel: seq<string>)
    ensures optSel == SelectedOptions(answer, limits) && stkSel == SelectedStocks(answer, limits)
    ensures |optSel| + |stkSel| <= if limits.maxSubscriptions < 0 then 0 else limits.maxSubscriptions
    ensures optSel <= AllOptions(answer, limits) && stkSel <= AllStocks(answer, limits)
    ensures |optSel| < limits.maxSubscriptions || stkSel != [] ==> optSel == AllOptions(answer, limits)
    ensures |optSel| + |stkSel| < limits.maxSubscriptions ==> stkSel == AllStocks(answer, limits)
    ensures answer.None? || !limits.includeOpt ==> optSel == []
    ensures answer.None? || !limits.includeStk ==> stkSel == []
    ensures answer.Some? && limits.includeOpt && |optSel| < limits.maxSubscriptions ==>
              optSel == Options(answer.value.watchlist, answer.value.positions)
    ensures answer.Some? && limits.includeStk && |optSel| + |stkSel| < limits.maxSubscriptions ==>
              stkSel == answer.value.stocks
  {
    if answer.None? {
      return [], [];
    }
    var optRows: seq<Contract> := [];
    if limits.includeOpt {
      optRows := CollectOptions(answer.value.watchlist, answer.value.positions);
    }
    var stkSyms := if limits.includeStk then answer.value.stocks else [];
    var budget := if limits.maxSubscriptions < 0 then 0 else limits.maxSubscriptions;
    var optTake := if |optRows| < budget then |optRows| else budget;
    optSel := optRows[..optTake];
    var remaining := budget - optTake;
    stkSel := stkSyms[..if |stkSyms| < remaining then |stkSyms| else remaining];
  }

  /** Watchlist rows keep their order, repeated keys included. */
  lemma {:induction false} WithKeyInOrder(rows: seq<Option<Contract>>, k: nat)
    requires k < |rows|
    ensures WithKey(rows[..k]) + (if rows[k].Some? then [rows[k].value] else []) <= WithKey(rows)
    decreases |rows|
  {
    var n := |rows| - 1;
    if k < n {
      WithKeyInOrder(rows[..n], k);
      assert rows[..n][..k] == rows[..k];
    }
  }

  /** Position `k` is the first with its key, and nobody watches that. */
  ghost predicate NewAt(watched: set<Key>, positions: seq<Option<Contract>>, k: nat)
    requires k < |positions|
  {
    && positions[k].Some? && positions[k].value.key !in watched
    && forall j :: 0 <= j < k ==> positions[j].None? || positions[j].value.key != positions[k].value.key
  }

  lemma {:induction false} NewAtIff(watched: set<Key>, positions: seq<Option<Contract>>, k: nat)
    requires k < |positions|
    ensures NewAt(watched, positions, k) <==>
              positions[k].Some? && positions[k].value.key !in watched
              && !Among(positions[..k], positions[k].value.key)
  {
    assert forall j :: 0 <= j < k ==> positions[..k][j] == positions[j];
  }

  lemma {:induction false} PrefixOfLonger<T>(s: seq<T>, t: seq<T>, u: seq<T>)
    requires s <= t <= u
    ensures s <= u
  {
  }

  /** Positions keep theirs; of several with one key the first is taken. */
  lemma {:induction false} NewPositionsInOrder(watched: set<Key>, positions: seq<Option<Contract>>, k: nat)
    requires k < |positions|
    ensures NewPositions(watched, positions[..k]) + (if NewAt(watched, positions, k) then [positions[k].value] else [])
         <= NewPositions(watched, positions)
    decreases |positions|
  {
    var n := |positions| - 1;
    NewAtIff(watched, positions, k);
    if k < n {
      var shorter := positions[..n];
      NewPositionsInOrder(watched, shorter, k);
      NewAtIff(watched, shorter, k);
      assert shorter[..k] == positions[..k] && shorter[k] == positions[k];
      PrefixOfLonger(
        NewPositions(watched, positions[..k]) + (if NewAt(watched, positions, k) then [positions[k].value] else []),
        NewPositions(watched, shorter), NewPositions(watched, positions));
    }
  }

  lemma {:induction false} WithKeyMeaning(rows: seq<Option<Contract>>, key: Key)
    ensures key in Keys(WithKey(rows)) <==> Among(rows, key)
    decreases |rows|
  {
    if rows != [] {
      var n := |rows| - 1;
      WithKeyMeaning(rows[..n], key);
      AmongExtended(rows[..n], rows[n]);
      assert rows == rows[..n] + [rows[n]];
      assert Keys(WithKey(rows)) == Keys(WithKey(rows[..n])) + if rows[n].Some? then {rows[n].value.key} else {};
    }
  }

  lemma {:induction false} NewPositionsMeaning(watched: set<Key>, positions: seq<Option<Contract>>, key: Key)
    ensures key in Keys(NewPositions(watched, positions)) <==> Among(positions, key) && key !in watched
    decreases |positions|
  {
    if positions != [] {
      var n := |positions| - 1;
      NewPositionsMeaning(watched, positions[..n], key);
      AmongExtended(positions[..n], positions[n]);
      assert positions == positions[..n] + [positions[n]];
      var earlier, all := NewPositions(watched, positions[..n]), NewPositions(watched, positions);
      assert all == earlier || Keys(all) == Keys(earlier) + {positions[n].value.key};
    }
  }

  ghost predicate DistinctKeys(rows: seq<Contract>) {
    forall i, j :: 0 <= i < j < |rows| ==> rows[i].key != rows[j].key
  }

  lemma {:induction false} NewPositionsDistinct(watched: set<Key>, positions: seq<Option<Contract>>)
    ensures DistinctKeys(NewPositions(watched, positions))
    decreases |positions|
  {
    if positions != [] {
      var n := |positions| - 1;
      NewPositionsDistinct(watched, positions[..n]);
      var earlier := NewPositions(watched, positions[..n]);
      if positions[n].Some? {
        NewPositionsMeaning(watched, positions[..n], positions[n].value.key);
        assert forall i :: 0 <= i < |earlier| ==> earlier[i].key in Keys(earlier);
      }
    }
  }

  /** Every key of the watchlist or the positions has an option row, and no position repeats a key. */
  lemma {:induction false} OptionsMeaning(watchlist: seq<OptRow>, positions: seq<OptRow>, key: Key)
    ensures var all := Options(watchlist, positions);
      var watched := WithKey(ToContracts(watchlist));
      && (key in Keys(all) <==> Among(ToContracts(watchlist), key) || Among(ToContracts(positions), key))
      && watched <= all && DistinctKeys(all[|watched|..])
      && Keys(all[|watched|..]) !! Keys(watched)
  {
    var watched := WithKey(ToContracts(watchlist));
    var added := NewPositions(Keys(watched), ToContracts(positions));
    var all := Options(watchlist, positions);
    assert all[|watched|..] == added;
    WithKeyMeaning(ToContracts(watchlist), key);
    NewPositionsMeaning(Keys(watched), ToContracts(positions), key);
    NewPositionsDistinct(Keys(watched), ToContracts(positions));
    assert Keys(all) == Keys(watched) + Keys(added);
    forall k | k in Keys(added)
      ensures k !in Keys(watched)
    {
      NewPositionsMeaning(Keys(watched), ToContracts(positions), k);
    }
  }

  /** The on-demand symbols that are neither selected nor earlier in the list, in order. */
  ghost function NewSymbols(selected: set<string>, extra: seq<string>): seq<string> {
    if extra == [] then []
    else
      var n := |extra| - 1;
      var earlier := NewSymbols(selected, extra[..n]);
      if extra[n] in selected || extra[n] in extra[..n] then earlier else earlier + [extra[n]]
  }

  lemma {:induction false} NewSymbolsMeaning(selected: set<string>, extra: seq<string>)
    ensures Elements(NewSymbols(selected, extra)) == Elements(extra) - selected
    ensures |NewSymbols(selected, extra)| == |Elements(extra) - selected|
    decreases |extra|
  {
    if extra != [] {
      var n := |extra| - 1;
      NewSymbolsMeaning(selected, extra[..n]);
      assert extra == extra[..n] + [extra[n]];
      ElementsExtended(extra[..n], extra[n]);
      ElementsExtended(NewSymbols(selected, extra[..n]), extra[n]);
      if extra[n] in selected || extra[n] in extra[..n] {
        assert Elements(extra) - selected == Elements(extra[..n]) - selected;
      } else {
        assert Elements(extra) - selected == (Elements(extra[..n]) - selected) + {extra[n]};
      }
    }
  }

  /** Appends the on-demand symbols that are not selected yet, each once; no cap applies to them. */
  method MergeOnDemand(stkSel: seq<string>, extra: seq<string>) returns (merged: seq<string>)
    ensures merged == stkSel + NewSymbols(Elements(stkSel), extra)
    ensures Elements(merged) == Elements(stkSel) + Elements(extra)
    ensures |merged| == |stkSel| + |Elements(extra) - Elements(stkSel)|
  {
    ghost var selected := Elements(stkSel);
    merged := AppendNew(stkSel, extra);
    NewSymbolsMeaning(selected, extra);
    ElementsJoined(stkSel, NewSymbols(selected, extra));
  }

  method AppendNew(stkSel: seq<string>, extra: seq<string>) returns (merged: seq<string>)
    ensures merged == stkSel + NewSymbols(Elements(stkSel), extra)
  {
    merged := stkSel;
    var seen := set s | s in stkSel;
    ghost var selected := Elements(stkSel);
    for k := 0 to |extra|
      invariant merged == stkSel + NewSymbols(selected, extra[..k])
      invariant forall s :: s in seen <==> s in selected || s in extra[..k]
    {
      assert extra[..k + 1] == extra[..k] + [extra[k]];
      assert extra[..k + 1][..k] == extra[..k];
      if extra[k] !in seen {
        seen := seen + {extra[k]};
        merged := merged + [extra[k]];
      }
    }
    assert extra[..|extra|] == extra;
  }

  ghost function WantedStocks(answer: Option<Rows>, limits: Limits, extra: seq<string>): seq<string> {
    var selected := SelectedStocks(answer, limits);
    selected + NewSymbols(Elements(selected), extra)
  }

  lemma {:induction false} ElementsJoined<T>(s: seq<T>, t: seq<T>)
    ensures Elements(s + t) == Elements(s) + Elements(t)
  {
    assert forall x :: x in s + t <==> x in s || x in t;
  }

  lemma {:induction false} ElementsExtended<T>(s: seq<T>, x: T)
    ensures Elements(s + [x]) == Elements(s) + {x}
  {
    assert (s + [x])[|s|] == x;
    assert forall j :: 0 <= j < |s| ==> (s + [x])[j] == s[j];
  }

  function PublishedKey(r: Contract): string {
    r.key
  }

  function StockKey(symbol: string): string {
    symbol + "|STK|||"
  }

  /** The keys of the options, of which some may read like a stock's. */
  function OptionPart(optSel: seq<Contract>): set<string> {
    set r | r in optSel :: PublishedKey(r)
  }

  function StockPart(stocks: seq<string>): set<string> {
    set s | s in stocks :: StockKey(s)
  }

  /** What is published as subscribed. */
  function SubscriptionKeys(optSel: seq<Contract>, stocks: seq<string>): set<string> {
    OptionPart(optSel) + StockPart(stocks)
  }

  /** An option is published under its contract key, a stock under its symbol and a suffix; nothing else is. */
  lemma {:induction false} PublishedMeaning(optSel: seq<Contract>, stocks: seq<string>, x: string)
    ensures x in SubscriptionKeys(optSel, stocks)
       <==> (exists r :: r in optSel && r.key == x) || (exists s :: s in stocks && s + "|STK|||" == x)
  {
    if s :| s in stocks && s + "|STK|||" == x {
      assert StockKey(s) == x;
    }
    if r :| r in optSel && r.key == x {
      assert PublishedKey(r) == x;
    }
  }

  lemma {:induction false} ImageNoLarger<T, U>(s: seq<T>, image: set<U>, f: T -> U)
    requires forall y :: y in image ==> exists k :: 0 <= k < |s| && f(s[k]) == y
    ensures |image| <= |s|
    decreases |s|
  {
    if s == [] {
      assert image == {};
    } else {
      var n := |s| - 1;
      forall y | y in image - {f(s[n])}
        ensures exists k :: 0 <= k < n && f(s[..n][k]) == y
      {
        var k :| 0 <= k < |s| && f(s[k]) == y;
        assert s[..n][k] == s[k];
      }
      ImageNoLarger(s[..n], image - {f(s[n])}, f);
    }
  }

  lemma {:induction false} PublishesNothingIff(optSel: seq<Contract>, stocks: seq<string>)
    ensures SubscriptionKeys(optSel, stocks) == {} <==> optSel == [] && stocks == []
  {
    if optSel != [] {
      assert PublishedKey(optSel[0]) in SubscriptionKeys(optSel, stocks);
    } else if stocks != [] {
      assert StockKey(stocks[0]) in SubscriptionKeys(optSel, stocks);
    }
  }

  /** The published keys exceed the cap by at most the on-demand symbols that were not selected anyway. */
  lemma {:induction false} KeysWithinCapPlusOnDemand(answer: Option<Rows>, limits: Limits, extra: seq<string>)
    ensures |SubscriptionKeys(SelectedOptions(answer, limits), WantedStocks(answer, limits, extra))|
         <= Budget(limits.maxSubscriptions) + |Elements(extra) - Elements(SelectedStocks(answer, limits))|
  {
    var optSel, wanted := SelectedOptions(answer, limits), WantedStocks(answer, limits, extra);
    var stk, opt := StockPart(wanted), OptionPart(optSel);
    NewSymbolsMeaning(Elements(SelectedStocks(answer, limits)), extra);
    ImageNoLarger(optSel, opt, PublishedKey);
    ImageNoLarger(wanted, stk, StockKey);
    assert |opt + stk| <= |opt| + |stk|;
  }

  lemma {:induction false} StockKeysDistinct(symbols: set<string>)
    ensures |set s | s in symbols :: StockKey(s)| == |symbols|
    decreases |symbols|
  {
    var keys := set s | s in symbols :: StockKey(s);
    if symbols != {} {
      var s :| s in symbols;
      var rest := symbols - {s};
      StockKeysDistinct(rest);
      forall r | r in rest
        ensures StockKey(r) != StockKey(s)
      {
        assert StockKey(r)[..|StockKey(r)| - 7] == r && StockKey(s)[..|StockKey(s)| - 7] == s;
      }
      assert keys == (set r | r in rest :: StockKey(r)) + {StockKey(s)};
    }
  }

  /** Exactly how many keys are published, and so exactly when the cap is kept: when the on-demand symbols not already
      selected fit into what the selected options and stocks leave of it. (An option key that is also a stock's counts
      once.) */
  lemma {:induction false} CapKeptIff(answer: Option<Rows>, limits: Limits, extra: seq<string>)
    ensures var optSel, wanted := SelectedOptions(answer, limits), WantedStocks(answer, limits, extra);
      var selected := Elements(SelectedStocks(answer, limits));
      var shared, budget := |OptionPart(optSel) * StockPart(wanted)|, Budget(limits.maxSubscriptions);
      && |SubscriptionKeys(optSel, wanted)|
         == |OptionPart(optSel)| + |selected| + |Elements(extra) - selected| - shared
      && (|SubscriptionKeys(optSel, wanted)| <= budget
          <==> |Elements(extra) - selected| <= budget - |OptionPart(optSel)| - |selected| + shared)
  {
    var optSel, wanted := SelectedOptions(answer, limits), WantedStocks(answer, limits, extra);
    var selected := Elements(SelectedStocks(answer, limits));
    var opt, stk := OptionPart(optSel), StockPart(wanted);
    NewSymbolsMeaning(selected, extra);
    ElementsJoined(SelectedStocks(answer, limits), NewSymbols(selected, extra));
    assert Elements(wanted) == selected + (Elements(extra) - selected);
    StockKeysDistinct(Elements(wanted));
    assert stk == set s | s in Elements(wanted) :: StockKey(s);
    assert |stk| == |selected| + |Elements(extra) - selected|;
    assert SubscriptionKeys(optSel, wanted) == opt + stk;
  }

  /** A watchlist that fills the cap without repeats leaves no room: the cap is kept exactly when every on-demand symbol
      was selected anyway. */
  lemma {:induction false} FullCapKeptIff(answer: Option<Rows>, limits: Limits, extra: seq<string>)
    requires var optSel, stkSel := SelectedOptions(answer, limits), SelectedStocks(answer, limits);
      && |optSel| + |stkSel| == Budget(limits.maxSubscriptions)
      && |OptionPart(optSel)| == |optSel| && |Elements(stkSel)| == |stkSel|
      && OptionPart(optSel) !! StockPart(WantedStocks(answer, limits, extra))
    ensures |SubscriptionKeys(SelectedOptions(answer, limits), WantedStocks(answer, limits, extra))|
              <= Budget(limits.maxSubscriptions)
       <==> Elements(extra) <= Elements(SelectedStocks(answer, limits))
  {
    CapKeptIff(answer, limits, extra);
    var beyond := Elements(extra) - Elements(SelectedStocks(answer, limits));
    assert OptionPart(SelectedOptions(answer, limits)) * StockPart(WantedStocks(answer, limits, extra)) == {};
    if beyond == {} {
      forall x | x in Elements(extra)
        ensures x in Elements(SelectedStocks(answer, limits))
      {
        assert x in beyond || x in Elements(SelectedStocks(answer, limits));
      }
    }
    assert |beyond| == 0 <==> beyond == {};
  }

  /** The bound is met: under a cap of zero every on-demand symbol is a key. */
  lemma {:induction false} OnDemandIsNotCapped(answer: Option<Rows>, limits: Limits, extra: seq<string>)
    requires Budget(limits.maxSubscriptions) == 0
    ensures |SubscriptionKeys(SelectedOptions(answer, limits), WantedStocks(answer, limits, extra))|
         == |Elements(extra)|
  {
    assert SelectedOptions(answer, limits) == [] && SelectedStocks(answer, limits) == [];
    var wanted := WantedStocks(answer, limits, extra);
    var selected := Elements(SelectedStocks(answer, limits));
    assert selected == {};
    assert wanted == NewSymbols(selected, extra);
    NewSymbolsMeaning(selected, extra);
    assert Elements(wanted) == Elements(extra);
    StockKeysDistinct(Elements(wanted));
    assert SubscriptionKeys([], wanted) == set s | s in Elements(wanted) :: StockKey(s);
  }

  // ---------- The connector's tickers ----------

  /** Which market data requests succeed, by key (an option gets a second try), and which cancels, by line. */
  datatype Wire = Wire(stock: Key -> bool, option1: Key -> bool, option2: Key -> bool, cancel: nat -> bool)

  predicate Requestable(r: Contract) {
    r.symbol != "" && r.expiry != "" && r.right in {"C", "P"}
  }

  predicate GetsLine(r: Contract, wire: Wire) {
    Requestable(r) && (wire.option1(r.key) || wire.option2(r.key))
  }

  /** Keys that get a line; a repeated key is skipped, even if its first row could not be requested. */
  ghost function OptionKeys(rows: seq<Contract>, wire: Wire): set<Key> {
    if rows == [] then {}
    else
      var n := |rows| - 1;
      OptionKeys(rows[..n], wire)
        + if rows[n].key !in Keys(rows[..n]) && GetsLine(rows[n], wire) then {rows[n].key} else {}
  }

  lemma {:induction false} OptionKeysExtended(rows: seq<Contract>, k: nat, wire: Wire)
    requires k < |rows|
    ensures Keys(rows[..k + 1]) == Keys(rows[..k]) + {rows[k].key}
    ensures OptionKeys(rows[..k + 1], wire)
         == OptionKeys(rows[..k], wire)
              + if rows[k].key !in Keys(rows[..k]) && GetsLine(rows[k], wire) then {rows[k].key} else {}
  {
    assert rows[..k + 1] == rows[..k] + [rows[k]];
    assert rows[..k + 1][..k] == rows[..k];
  }

  ghost predicate FirstWithLine(rows: seq<Contract>, wire: Wire, key: Key, j: nat)
    requires j < |rows|
  {
    && rows[j].key == key && (forall i :: 0 <= i < j ==> rows[i].key != key)
    && rows[j].symbol != "" && rows[j].expiry != "" && rows[j].right in {"C", "P"}
    && (wire.option1(key) || wire.option2(key))
  }

  lemma {:induction false} FirstWithLinePrefix(rows: seq<Contract>, wire: Wire, key: Key, n: nat, j: nat)
    requires j < n <= |rows|
    ensures FirstWithLine(rows[..n], wire, key, j) <==> FirstWithLine(rows, wire, key, j)
  {
    assert forall i :: 0 <= i <= j ==> rows[..n][i] == rows[i];
  }

  lemma {:induction false} KeysPrefix(rows: seq<Contract>, n: nat, key: Key)
    requires n <= |rows|
    ensures key in Keys(rows[..n]) <==> exists i :: 0 <= i < n && rows[i].key == key
  {
    assert forall i :: 0 <= i < n ==> rows[..n][i] == rows[i] && rows[i] in rows[..n];
  }

  /** What `OptionKeys` means: the first row with the key decides, and a second request is made when the first fails. */
  lemma {:induction false} OptionKeysMeaning(rows: seq<Contract>, wire: Wire, key: Key)
    ensures key in OptionKeys(rows, wire) <==> exists j :: 0 <= j < |rows| && FirstWithLine(rows, wire, key, j)
    decreases |rows|
  {
    if rows != [] {
      var n := |rows| - 1;
      OptionKeysMeaning(rows[..n], wire, key);
      KeysPrefix(rows, n, rows[n].key);
      assert FirstWithLine(rows, wire, key, n) <==>
             rows[n].key == key && rows[n].key !in Keys(rows[..n]) && GetsLine(rows[n], wire);
      if j :| 0 <= j < n && FirstWithLine(rows[..n], wire, key, j) {
        FirstWithLinePrefix(rows, wire, key, n, j);
      }
      if j :| 0 <= j < |rows| && FirstWithLine(rows, wire, key, j) {
        if j < n {
          FirstWithLinePrefix(rows, wire, key, n, j);
        }
      }
    }
  }

  ghost function StockKeys(keys: seq<Option<Key>>, wire: Wire): set<Key> {
    set k | k in keys && k.Some? && wire.stock(k.value) :: k.value
  }

  ghost function Somes(keys: seq<Option<Key>>): set<Key> {
    set k | k in keys && k.Some? :: k.value
  }

  lemma {:induction false} StockKeysExtended(keys: seq<Option<Key>>, last: Option<Key>, wire: Wire)
    ensures Somes(keys + [last]) == Somes(keys) + if last.Some? then {last.value} else {}
    ensures StockKeys(keys + [last], wire)
         == StockKeys(keys, wire) + if last.Some? && wire.stock(last.value) then {last.value} else {}
  {
    assert (keys + [last])[|keys|] == last;
    assert forall j :: 0 <= j < |keys| ==> (keys + [last])[j] == keys[j];
  }

  ghost predicate OneToOne(m: map<Key, nat>) {
    forall j, k :: j in m && k in m && m[j] == m[k] ==> j == k
  }

  /** Lines among `lines` whose cancel goes through. */
  ghost function Cancelled(lines: set<nat>, wire: Wire): set<nat> {
    set line | line in lines && wire.cancel(line)
  }

  /** `out` holds what was added to the table `base`, each under a line of its own beyond those open `before`. */
  ghost predicate Added(
      base: map<Key, nat>, before: set<nat>, out: map<Key, nat>, table: map<Key, nat>, open: set<nat>)
  {
    table == base + out && open == before + out.Values && out.Values !! before
  }

  lemma {:induction false} AddedNone(base: map<Key, nat>, before: set<nat>)
    ensures Added(base, before, map[], base, before)
  {
  }

  class TickerTable {
    var connected: bool
    var tickers: map<Key, nat>
    var optionTickers: map<Key, nat>
    /** Lines open at the broker, and the number of the next one. */
    var open: set<nat>
    var next: nat

    /** No two tracked keys share a line, and every tracked line is open. */
    ghost predicate Valid()
      reads this
    {
      && tickers.Values <= open && optionTickers.Values <= open && tickers.Values !! optionTickers.Values
      && OneToOne(tickers) && OneToOne(optionTickers)
      && (forall line :: line in open ==> line < next)
    }

    ghost function Tracked(): set<nat>
      reads this
    {
      tickers.Values + optionTickers.Values
    }

    constructor (connected: bool)
      ensures Valid() && open == {} && tickers == map[] && optionTickers == map[] && this.connected == connected
    {
      this.connected, tickers, optionTickers, open, next := connected, map[], map[], {}, 0;
    }

    method UnsubscribeTicker(symbol: string, wire: Wire)
      requires Valid()
      modifies this`tickers, this`open
      ensures Valid()
      ensures ToKey(symbol).None? || ToKey(symbol).value !in old(tickers) ==>
                tickers == old(tickers) && open == old(open)
      ensures ToKey(symbol).Some? && ToKey(symbol).value in old(tickers) ==>
                var key, line := ToKey(symbol).value, old(tickers)[ToKey(symbol).value];
                && tickers == old(tickers) - {key} && tickers.Values == old(tickers.Values) - {line}
                && open == old(open) - Cancelled({line}, wire)
    {
      var key := ToKey(symbol);
      if key.None? || key.value !in tickers {
        return;
      }
      var line := tickers[key.value];
      ValuesWithout(tickers, key.value);
      if wire.cancel(line) {
        open := open - {line};
      }
      tickers := tickers - {key.value};
    }

    method UnsubscribeOptionTicker(contractKey: string, wire: Wire)
      requires Valid()
      modifies this`optionTickers, this`open
      ensures Valid()
      ensures ToKey(contractKey).None? || ToKey(contractKey).value !in old(optionTickers) ==>
                optionTickers == old(optionTickers) && open == old(open)
      ensures ToKey(contractKey).Some? && ToKey(contractKey).value in old(optionTickers) ==>
                var key, line := ToKey(contractKey).value, old(optionTickers)[ToKey(contractKey).value];
                && optionTickers == old(optionTickers) - {key}
                && optionTickers.Values == old(optionTickers.Values) - {line}
                && open == old(open) - Cancelled({line}, wire)
    {
      var key := ToKey(contractKey);
      if key.None? || key.value !in optionTickers {
        return;
      }
      var line := optionTickers[key.value];
      ValuesWithout(optionTickers, key.value);
      if wire.cancel(line) {
        open := open - {line};
      }
      optionTickers := optionTickers - {key.value};
    }

    method UnsubscribeStocks(wire: Wire)
      requires Valid()
      modifies this`tickers, this`open
      ensures Valid() && tickers == map[]
      ensures open == old(open) - Cancelled(old(tickers.Values), wire)
    {
      while tickers.Keys != {}
        invariant Valid() && tickers.Values <= old(tickers.Values)
        invariant open == old(open) - Cancelled(old(tickers.Values) - tickers.Values, wire)
        decreases tickers.Keys
      {
        var key: Key :| key in tickers.Keys;
        UnsubscribeTicker(key, wire);
      }
    }

    method UnsubscribeOptions(wire: Wire)
      requires Valid()
      modifies this`optionTickers, this`open
      ensures Valid() && optionTickers == map[]
      ensures open == old(open) - Cancelled(old(optionTickers.Values), wire)
    {
      while optionTickers.Keys != {}
        invariant Valid() && optionTickers.Values <= old(optionTickers.Values)
        invariant open == old(open) - Cancelled(old(optionTickers.Values) - optionTickers.Values, wire)
        decreases optionTickers.Keys
      {
        var key: Key :| key in optionTickers.Keys;
        UnsubscribeOptionTicker(key, wire);
      }
    }

    /** A successful request opens a line of its own, which the key is tracked under from then on. */
    method OpenStock(key: Key) returns (line: nat)
      requires Valid()
      modifies this`tickers, this`open, this`next
      ensures Valid() && tickers == old(tickers)[key := line]
      ensures open == old(open) + {line} && line !in old(open)
    {
      line := next;
      tickers, open, next := tickers[key := line], open + {line}, next + 1;
    }

    method OpenOption(key: Key) returns (line: nat)
      requires Valid()
      modifies this`optionTickers, this`open, this`next
      ensures Valid() && optionTickers == old(optionTickers)[key := line]
      ensures open == old(open) + {line} && line !in old(open)
    {
      line := next;
      optionTickers, open, next := optionTickers[key := line], open + {line}, next + 1;
    }

    /** Adds a line for `key` to those requested so far; `base` and `before` are the table and the open lines from
        before the first of them. */
    method AddStock(out: map<Key, nat>, key: Key, ghost base: map<Key, nat>, ghost before: set<nat>)
      returns (more: map<Key, nat>)
      requires Valid() && key !in out && Added(base, before, out, tickers, open)
      modifies this`tickers, this`open, this`next
      ensures Valid() && Added(base, before, more, tickers, open)
      ensures more.Keys == out.Keys + {key}
    {
      var line := OpenStock(key);
      OneMoreLine(base, out, before, key, line);
      more := out[key := line];
    }

    method AddOption(out: map<Key, nat>, r: Contract, wire: Wire, ghost base: map<Key, nat>, ghost before: set<nat>)
      returns (more: map<Key, nat>)
      requires Valid() && r.key !in out && Added(base, before, out, optionTickers, open)
      modifies this`optionTickers, this`open, this`next
      ensures Valid() && Added(base, before, more, optionTickers, open)
      ensures more.Keys == out.Keys + if connected && GetsLine(r, wire) then {r.key} else {}
    {
      more := out;
      var line := SubscribeOptionTicker(r, wire);
      if line.Some? {
        OneMoreLine(base, out, before, r.key, line.value);
        more := out[r.key := line.value];
      }
    }

    /** Each trimmed symbol is requested once, even if it is tracked already: then its old line stays open but is
        tracked no more. */
    method SubscribeTickers(keys: seq<Option<Key>>, wire: Wire) returns (out: map<Key, nat>)
      requires Valid()
      modifies this`tickers, this`open, this`next
      ensures Valid()
      ensures out.Keys == if connected then StockKeys(keys, wire) else {}
      ensures forall key :: key in out <==> connected && Some(key) in keys && wire.stock(key)
      ensures Added(old(tickers), old(open), out, tickers, open)
      ensures open - Tracked() == (old(open) - old(Tracked())) + Displaced(old(tickers), out)
    {
      ghost var base, before := tickers, open;
      out := map[];
      AddedNone(base, before);
      if connected {
        var seen: set<Key> := {};
        for k := 0 to |keys|
          invariant Valid() && out.Keys <= seen == Somes(keys[..k])
          invariant out.Keys == StockKeys(keys[..k], wire)
          invariant Added(base, before, out, tickers, open)
        {
          assert keys[..k + 1] == keys[..k] + [keys[k]];
          StockKeysExtended(keys[..k], keys[k], wire);
          if keys[k].None? || keys[k].value in seen {
            continue;
          }
          seen := seen + {keys[k].value};
          if wire.stock(keys[k].value) {
            out := AddStock(out, keys[k].value, base, before);
          }
        }
        assert keys[..|keys|] == keys;
      }
      Strays(base, before, out, tickers, open, optionTickers.Values);
    }

    /** A second try is made when the first request raises. */
    method SubscribeOptionTicker(r: Contract, wire: Wire) returns (line: Option<nat>)
      requires Valid()
      modifies this`optionTickers, this`open, this`next
      ensures Valid()
      ensures line.Some? <==> connected && GetsLine(r, wire)
      ensures line.Some? <==>
                && connected && r.symbol != "" && r.expiry != "" && r.right in {"C", "P"}
                && (wire.option1(r.key) || wire.option2(r.key))
      ensures line.None? ==> optionTickers == old(optionTickers) && open == old(open)
      ensures line.Some? ==>
                && optionTickers == old(optionTickers)[r.key := line.value]
                && open == old(open) + {line.value} && line.value !in old(open)
    {
      if !connected || !Requestable(r) {
        return None;
      }
      if wire.option1(r.key) {
        var got := OpenOption(r.key);
        return Some(got);
      }
      if wire.option2(r.key) {
        var got := OpenOption(r.key);
        return Some(got);
      }
      line := None;
    }

    /** Each contract key is requested once, likewise. */
    method SubscribeOptionTickers(rows: seq<Contract>, wire: Wire) returns (out: map<Key, nat>)
      requires Valid()
      modifies this`optionTickers, this`open, this`next
      ensures Valid()
      ensures out.Keys == if connected then OptionKeys(rows, wire) else {}
      ensures Added(old(optionTickers), old(open), out, optionTickers, open)
      ensures open - Tracked() == (old(open) - old(Tracked())) + Displaced(old(optionTickers), out)
    {
      ghost var base, before := optionTickers, open;
      if connected {
        out := RequestOptions(rows, wire);
      } else {
        out := map[];
        AddedNone(base, before);
      }
      Strays(base, before, out, optionTickers, open, tickers.Values);
    }

    method RequestOptions(rows: seq<Contract>, wire: Wire) returns (out: map<Key, nat>)
      requires Valid() && connected
      modifies this`optionTickers, this`open, this`next
      ensures Valid() && out.Keys == OptionKeys(rows, wire)
      ensures Added(old(optionTickers), old(open), out, optionTickers, open)
    {
      ghost var base, before := optionTickers, open;
      out := map[];
      AddedNone(base, before);
      var seen: set<Key> := {};
      for k := 0 to |rows|
        invariant Valid() && out.Keys <= seen == Keys(rows[..k])
        invariant out.Keys == OptionKeys(rows[..k], wire)
        invariant Added(base, before, out, optionTickers, open)
      {
        ghost var keys, got := Keys(rows[..k]), OptionKeys(rows[..k], wire);
        OptionKeysExtended(rows, k, wire);
        assert seen == keys && out.Keys == got;
        if rows[k].key !in seen {
          seen := seen + {rows[k].key};
          out := AddOption(out, rows[k], wire, base, before);
        }
      }
      assert rows[..|rows|] == rows;
    }

    /** The connector's `disconnect`: option lines are cancelled, both tables are cleared, and closing the socket, if
        that goes through, ends every line. */
    method Disconnect(wire: Wire, closes: bool)
      requires Valid()
      modifies this`connected, this`tickers, this`optionTickers, this`open
      ensures Valid() && !connected
      ensures !old(connected) ==>
                tickers == old(tickers) && optionTickers == old(optionTickers) && open == old(open)
      ensures old(connected) ==>
                && tickers == map[] && optionTickers == map[]
                && open == if closes then {} else old(open) - Cancelled(old(optionTickers.Values), wire)
    {
      if !connected {
        return;
      }
      var rest := optionTickers.Values;
      while rest != {}
        invariant rest <= optionTickers.Values && optionTickers == old(optionTickers)
        invariant open == old(open) - Cancelled(optionTickers.Values - rest, wire)
        decreases rest
      {
        var line :| line in rest;
        rest := rest - {line};
        if wire.cancel(line) {
          open := open - {line};
        }
      }
      connected, tickers, optionTickers := false, map[], map[];
      if closes {
        open := {};
      }
    }

    /** Drops every subscription and makes the new ones: afterwards the tables hold exactly the new keys that got a
        line, and the open lines they do not track are those that were untracked before or could not be cancelled.
        So when every cancel goes through and no line was untracked before, lines and entries correspond one to
        one. */
    method ApplySubs(optRows: seq<Contract>, stkSyms: seq<string>, wire: Wire)
      requires Valid()
      modifies this`tickers, this`optionTickers, this`open, this`next
      ensures Valid()
      ensures tickers.Keys == if connected then StockKeys(ToKeys(stkSyms), wire) else {}
      ensures optionTickers.Keys == if connected then OptionKeys(optRows, wire) else {}
      ensures open - Tracked() == old(open) - Cancelled(old(Tracked()), wire)
      ensures old(open) == old(Tracked()) && (forall line :: line in old(Tracked()) ==> wire.cancel(line)) ==>
                open == Tracked() && |open| == |tickers| + |optionTickers|
    {
      UnsubscribeStocks(wire);
      UnsubscribeOptions(wire);
      NewSubs(optRows, stkSyms, wire);
      RoundLines(old(open), old(tickers.Values), old(optionTickers.Values), optionTickers.Values, tickers.Values, wire);
      LinesAreEntries();
    }

    method NewSubs(optRows: seq<Contract>, stkSyms: seq<string>, wire: Wire)
      requires Valid() && tickers == map[] && optionTickers == map[]
      modifies this`tickers, this`optionTickers, this`open, this`next
      ensures Valid()
      ensures tickers.Keys == if connected then StockKeys(ToKeys(stkSyms), wire) else {}
      ensures optionTickers.Keys == if connected then OptionKeys(optRows, wire) else {}
      ensures open == old(open) + optionTickers.Values + tickers.Values
      ensures optionTickers.Values !! old(open) && tickers.Values !! old(open) + optionTickers.Values
    {
      var opts := SubscribeOptionTickers(optRows, wire);
      assert optionTickers == opts && open == old(open) + opts.Values;
      var stks := SubscribeTickers(ToKeys(stkSyms), wire);
      assert tickers == stks;
    }

    lemma {:induction false} LinesAreEntries()
      requires Valid()
      ensures |Tracked()| == |tickers| + |optionTickers|
    {
      OneToOneSize(tickers);
      OneToOneSize(optionTickers);
    }

    /** One round of the session. With nothing wanted, which is also what a failed query looks like, it publishes
        that nothing is subscribed but leaves the tables and lines as they are; that is the only way to publish
        nothing while lines are tracked. */
    method Poll(round: Round) returns (published: set<string>)
      requires Valid()
      modifies this`tickers, this`optionTickers, this`open, this`next
      ensures Valid() && published == round.Published()
      ensures round.Nothing() ==> tickers == old(tickers) && optionTickers == old(optionTickers) && open == old(open)
      ensures !round.Nothing() ==>
                && tickers.Keys == (if connected then StockKeys(ToKeys(round.Symbols()), round.wire) else {})
                && optionTickers.Keys == (if connected then OptionKeys(round.Contracts(), round.wire) else {})
                && open - Tracked() == old(open) - Cancelled(old(Tracked()), round.wire)
      ensures published == {} && Tracked() != {} <==> round.Nothing() && old(Tracked()) != {}
      ensures old(open) == old(Tracked()) && (forall line :: line in old(Tracked()) ==> round.wire.cancel(line)) ==>
                open == Tracked() && |open| == |tickers| + |optionTickers|
    {
      var optRows, stkSyms := FetchWatchlist(round.answer, round.limits);
      stkSyms := MergeOnDemand(stkSyms, round.extra);
      PublishesNothingIff(optRows, stkSyms);
      published := SubscriptionKeys(optRows, stkSyms);
      if optRows != [] || stkSyms != [] {
        ApplySubs(optRows, stkSyms, round.wire);
      } else {
        LinesAreEntries();
      }
    }

    /** Round `k` of a session. */
    method PollNext(rounds: seq<Round>, k: nat, ghost before: set<nat>) returns (keys: set<string>)
      requires Valid() && k < |rounds| && OldOrFailed(before, open - Tracked(), rounds[..k])
      modifies this`tickers, this`optionTickers, this`open, this`next
      ensures Valid() && keys == rounds[k].Published() && OldOrFailed(before, open - Tracked(), rounds[..k + 1])
    {
      ghost var was, tracked := open, Tracked();
      keys := Poll(rounds[k]);
      StraysExtended(before, was, tracked, open - Tracked(), rounds, k);
    }

    /** A whole session of rounds: a line that is open but not tracked was so before or failed to be cancelled in
        some round; so as long as cancels go through, lines and entries correspond one to one. */
    method PollAll(rounds: seq<Round>) returns (published: seq<set<string>>)
      requires Valid()
      modifies this`tickers, this`optionTickers, this`open, this`next
      ensures Valid() && published == AllPublished(rounds)
      ensures OldOrFailed(old(open) - old(Tracked()), open - Tracked(), rounds)
      ensures old(open) == old(Tracked()) && (forall line: nat :: !CancelFails(rounds, line)) ==>
                open == Tracked() && |open| == |tickers| + |optionTickers|
    {
      ghost var before := open - Tracked();
      published := [];
      for k := 0 to |rounds|
        invariant Valid() && published == AllPublished(rounds[..k])
        invariant OldOrFailed(before, open - Tracked(), rounds[..k])
      {
        var keys := PollNext(rounds, k, before);
        AllPublishedExtended(rounds, k);
        published := published + [keys];
      }
      assert rounds[..|rounds|] == rounds;
      NoneAstray(before, rounds);
    }

    /** Lines and entries correspond when nothing went astray before or in the rounds. */
    lemma {:induction false} NoneAstray(before: set<nat>, rounds: seq<Round>)
      requires Valid() && OldOrFailed(before, open - Tracked(), rounds)
      ensures before == {} && (forall line: nat :: !CancelFails(rounds, line)) ==>
                open == Tracked() && |open| == |tickers| + |optionTickers|
    {
      LinesAreEntries();
      NoStrays(open, Tracked(), before, rounds);
    }
  }

  /** What one round meets: the database's answer, the limits, the on-demand symbols, and the broker. */
  datatype Round = Round(answer: Option<Rows>, limits: Limits, extra: seq<string>, wire: Wire) {
    ghost function Contracts(): seq<Contract> {
      SelectedOptions(answer, limits)
    }

    ghost function Symbols(): seq<string> {
      WantedStocks(answer, limits, extra)
    }

    ghost function Published(): set<string> {
      SubscriptionKeys(Contracts(), Symbols())
    }

    ghost predicate Nothing() {
      Contracts() == [] && Symbols() == []
    }
  }

  ghost function AllPublished(rounds: seq<Round>): seq<set<string>> {
    if rounds == [] then []
    else
      var n := |rounds| - 1;
      AllPublished(rounds[..n]) + [rounds[n].Published()]
  }

  lemma {:induction false} AllPublishedExtended(rounds: seq<Round>, k: nat)
    requires k < |rounds|
    ensures AllPublished(rounds[..k + 1]) == AllPublished(rounds[..k]) + [rounds[k].Published()]
  {
    assert rounds[..k + 1][..k] == rounds[..k];
  }

  /** In one of the rounds a cancel of `line` would fail. */
  ghost predicate CancelFails(rounds: seq<Round>, line: nat) {
    exists k :: 0 <= k < |rounds| && !rounds[k].wire.cancel(line)
  }

  /** Every line in `strays` was a stray before or failed to be cancelled in one of the rounds. */
  ghost predicate OldOrFailed(before: set<nat>, strays: set<nat>, rounds: seq<Round>) {
    forall line :: line in strays ==> line in before || CancelFails(rounds, line)
  }

  lemma {:induction false} StraysExtended(
      before: set<nat>, open: set<nat>, tracked: set<nat>, strays: set<nat>, rounds: seq<Round>, k: nat)
    requires k < |rounds| && OldOrFailed(before, open - tracked, rounds[..k]) && tracked <= open
    requires strays == open - tracked || strays == open - Cancelled(tracked, rounds[k].wire)
    ensures OldOrFailed(before, strays, rounds[..k + 1])
  {
    var more := rounds[..k + 1];
    assert more[k] == rounds[k];
    forall line | line in strays && line !in before
      ensures CancelFails(more, line)
    {
      if line in open - tracked {
        var j :| 0 <= j < k && !rounds[..k][j].wire.cancel(line);
        assert more[j] == rounds[..k][j];
      } else {
        assert !more[k].wire.cancel(line);
      }
    }
  }

  lemma {:induction false} NoStrays(open: set<nat>, tracked: set<nat>, before: set<nat>, rounds: seq<Round>)
    requires OldOrFailed(before, open - tracked, rounds) && tracked <= open
    ensures before == {} && (forall line: nat :: !CancelFails(rounds, line)) ==> open == tracked
  {
    if before == {} && forall line: nat :: !CancelFails(rounds, line) {
      forall line | line in open
        ensures line in tracked
      {
        assert line in open - tracked || line in tracked;
      }
    }
  }

  lemma {:induction false} OneMoreLine(base: map<Key, nat>, out: map<Key, nat>, before: set<nat>, key: Key, line: nat)
    requires key !in out && out.Values !! before && line !in before + out.Values
    ensures var more := out[key := line];
      && (base + out)[key := line] == base + more && more.Keys == out.Keys + {key}
      && before + out.Values + {line} == before + more.Values && more.Values !! before
  {
    ValuesWith(out, key, line);
  }

  /** The lines open after a round in which all were cancelled, as far as that went, and new ones were opened. */
  lemma {:induction false} RoundLines(
      before: set<nat>, stocks: set<nat>, options: set<nat>, opts: set<nat>, stks: set<nat>, wire: Wire)
    requires var left := before - Cancelled(stocks, wire) - Cancelled(options, wire);
      opts !! left && stks !! left + opts
    ensures var after := before - Cancelled(stocks, wire) - Cancelled(options, wire) + opts + stks;
      && after - (stks + opts) == before - Cancelled(stocks + options, wire)
      && (before == stocks + options && (forall line :: line in stocks + options ==> wire.cancel(line)) ==>
            after == stks + opts)
  {
    var left := before - Cancelled(stocks, wire) - Cancelled(options, wire);
    assert left == before - Cancelled(stocks + options, wire);
  }

  /** Lines whose key was subscribed again. */
  ghost function Displaced(m: map<Key, nat>, out: map<Key, nat>): set<nat> {
    set k | k in m && k in out :: m[k]
  }

  lemma {:induction false} ValuesReplaced(m: map<Key, nat>, out: map<Key, nat>)
    requires OneToOne(m) && m.Values !! out.Values
    ensures (m + out).Values == (m.Values - Displaced(m, out)) + out.Values
  {
    var both := m + out;
    forall v | v in (m.Values - Displaced(m, out)) + out.Values
      ensures v in both.Values
    {
      if v in out.Values {
        var k :| k in out && out[k] == v;
        assert both[k] == v;
      } else {
        var k :| k in m && m[k] == v;
        assert both[k] == v;
      }
    }
  }

  /** What is open but tracked neither by a table that grew nor by another one with the lines `others`. */
  lemma {:induction false} Strays(
      base: map<Key, nat>, before: set<nat>, out: map<Key, nat>, table: map<Key, nat>, open: set<nat>, others: set<nat>)
    requires Added(base, before, out, table, open) && OneToOne(base)
    requires base.Values <= before && others <= before && base.Values !! others
    ensures open - (table.Values + others) == (before - (base.Values + others)) + Displaced(base, out)
  {
    ValuesReplaced(base, out);
    assert Displaced(base, out) <= base.Values;
  }

  lemma {:induction false} ValuesWithout(m: map<Key, nat>, k: Key)
    requires k in m && OneToOne(m)
    ensures (m - {k}).Values == m.Values - {m[k]}
  {
    var less := m - {k};
    forall v | v in m.Values - {m[k]}
      ensures v in less.Values
    {
      var j :| j in m && m[j] == v;
      assert less[j] == v;
    }
  }

  lemma {:induction false} ValuesWith(m: map<Key, nat>, k: Key, v: nat)
    requires k !in m
    ensures m[k := v].Values == m.Values + {v}
  {
    var more := m[k := v];
    assert more[k] == v;
    forall w | w in m.Values
      ensures w in more.Values
    {
      var j :| j in m && m[j] == w;
      assert more[j] == w;
    }
  }

  lemma {:induction false} OneToOneSize(m: map<Key, nat>)
    requires OneToOne(m)
    ensures |m.Values| == |m|
    decreases |m|
  {
    if m == map[] {
      assert m.Values == {};
    } else {
      var k :| k in m;
      OneToOneSize(m - {k});
      ValuesWithout(m, k);
      assert m.Values == (m - {k}).Values + {m[k]};
    }
  }
}
