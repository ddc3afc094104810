/** Missing daily snapshots rebuilt for all days at once: bisections and range sums instead of one pass per day. */
module SnapshotBackfill {
  import opened Prelude

  datatype Status = Hold | Sold | Failed

  /** Day and unit price of one side of a trade; an unreadable date is None and a missing price 0. */
  datatype Deal = Deal(day: Option<int>, price: real)

  datatype Trade = Trade(strategy: Text, code: Text, quantity: Option<real>, buy: Deal, status: Status, sale: Deal)

  /** Cached closing prices by code and day, and the first calendar day of the backfill. */
  datatype Market = Market(closes: map<Text, map<int, real>>, first: int)

  datatype Side = Cost | Value

  // ---- the definition, one day at a time ----

  /** The last close on or before `day`, not looking before the first calendar day. */
  function CloseOn(closes: map<int, real>, first: int, day: int): Option<real>
    decreases day - first
  {
    if day < first then None
    else if day in closes then Some(closes[day])
    else CloseOn(closes, first, day - 1)
  }

  function Close(m: Market, code: Text, day: int): Option<real> {
    if code in m.closes then CloseOn(m.closes[code], m.first, day) else None
  }

  function Units(t: Trade): real { match t.quantity case Some(q) => q case None => 1.0 }

  function Amount(price: real, units: real): real { price * units }

  predicate Bought(t: Trade, day: int) { t.buy.price != 0.0 && t.buy.day.Some? && t.buy.day.value <= day }

  predicate SoldBy(t: Trade, day: int) { t.status == Sold && t.sale.day.Some? && t.sale.day.value <= day }

  /** What one unit of a trade is worth on a day it counts. */
  function Worth(t: Trade, m: Market, day: int): real {
    if SoldBy(t, day) then (if t.sale.price > 0.0 then t.sale.price else t.buy.price)
    else match Close(m, t.code, day) case Some(p) => p case None => t.buy.price
  }

  function Contribution(side: Side, t: Trade, m: Market, day: int): real {
    if !Bought(t, day) then 0.0
    else Amount(if side == Cost then t.buy.price else Worth(t, m, day), Units(t))
  }

  /** The sum of one strategy's trades on one day. */
  function Sum(side: Side, trades: seq<Trade>, strategy: Text, m: Market, day: int): real {
    if trades == [] then 0.0
    else
      var last := trades[|trades| - 1];
      Sum(side, trades[..|trades| - 1], strategy, m, day)
        + if last.strategy == strategy then Contribution(side, last, m, day) else 0.0
  }

  function Total(side: Side, trades: seq<Trade>, m: Market, day: int): real {
    if trades == [] then 0.0
    else Total(side, trades[..|trades| - 1], m, day) + Contribution(side, trades[|trades| - 1], m, day)
  }

  // ---- the fast form ----

  ghost predicate Ascending(days: seq<int>) { forall i, j :: 0 <= i < j < |days| ==> days[i] < days[j] }

  method BisectLeft(days: seq<int>, day: int) returns (k: nat)
    requires Ascending(days)
    ensures k <= |days|
    ensures forall i :: 0 <= i < |days| ==> (i >= k <==> days[i] >= day)
  {
    var lo, hi := 0, |days|;
    while lo < hi
      invariant 0 <= lo <= hi <= |days|
      invariant forall i :: 0 <= i < lo ==> days[i] < day
      invariant forall i :: hi <= i < |days| ==> days[i] >= day
    {
      var mid := (lo + hi) / 2;
      if days[mid] < day {
        lo := mid + 1;
      } else {
        hi := mid;
      }
    }
    k := lo;
  }

  /** Forward filling of one code's closes over the calendar from `first` to `last`. */
  method FillForward(closes: map<int, real>, first: int, last: int) returns (filled: seq<Option<real>>)
    ensures |filled| == if last < first then 0 else last - first + 1
    ensures forall k :: 0 <= k < |filled| ==> filled[k] == CloseOn(closes, first, first + k)
  {
    filled := [];
    var day := first;
    var latest := None;
    while day <= last
      invariant first <= day && (day <= last + 1 || day == first)
      invariant |filled| == day - first && latest == CloseOn(closes, first, day - 1)
      invariant forall k :: 0 <= k < |filled| ==> filled[k] == CloseOn(closes, first, first + k)
    {
      if day in closes {
        latest := Some(closes[day]);
      }
      filled := filled + [latest];
      day := day + 1;
    }
  }

  method AddRange(a: array2<real>, from: nat, to: nat, col: nat, v: real)
    requires from <= to <= a.Length0 && col < a.Length1
    modifies a
    ensures forall i, j :: 0 <= i < a.Length0 && 0 <= j < a.Length1 ==>
              a[i, j] == old(a[i, j]) + if j == col && from <= i < to then v else 0.0
  {
    for k := from to to
      invariant forall i, j :: 0 <= i < a.Length0 && 0 <= j < a.Length1 ==>
                  a[i, j] == old(a[i, j]) + if j == col && from <= i < k then v else 0.0
    {
      a[k, col] := a[k, col] + v;
    }
  }

  /** The price to use on the i-th missing day: its close, or the buy price where there is none. */
  function PriceAt(column: Option<seq<Option<real>>>, i: nat, buyPrice: real): real
    requires column.Some? ==> i < |column.value|
  {
    if column.Some? && column.value[i].Some? then column.value[i].value else buyPrice
  }

  method AddPrices(a: array2<real>, from: nat, to: nat, col: nat, column: Option<seq<Option<real>>>, buyPrice: real,
                   units: real)
    requires from <= to <= a.Length0 && col < a.Length1 && (column.Some? ==> |column.value| == a.Length0)
    modifies a
    ensures forall i, j :: 0 <= i < a.Length0 && 0 <= j < a.Length1 ==>
              a[i, j] == old(a[i, j]) +
                         if j == col && from <= i < to then Amount(PriceAt(column, i, buyPrice), units) else 0.0
  {
    for k := from to to
      invariant forall i, j :: 0 <= i < a.Length0 && 0 <= j < a.Length1 ==>
                  a[i, j] == old(a[i, j]) +
                             if j == col && from <= i < k then Amount(PriceAt(column, i, buyPrice), units) else 0.0
    {
      a[k, col] := a[k, col] + Amount(PriceAt(column, k, buyPrice), units);
    }
  }

  /** `column` holds the closes of the trade's code on the missing days. */
  ghost predicate ColumnOf(column: Option<seq<Option<real>>>, m: Market, code: Text, days: seq<int>) {
    match column
    case None => forall i :: 0 <= i < |days| ==> Close(m, code, days[i]) == None
    case Some(c) => |c| == |days| && forall i :: 0 <= i < |days| ==> c[i] == Close(m, code, days[i])
  }

  /** Adds one trade to both tables by ranges; the result is its per-day contribution in its strategy's column. */
  method AddTrade(t: Trade, m: Market, days: seq<int>, col: nat, column: Option<seq<Option<real>>>,
                  buySums: array2<real>, evalSums: array2<real>) returns (ok: bool)
    requires Ascending(days) && ColumnOf(column, m, t.code, days) && buySums != evalSums
    requires buySums.Length0 == evalSums.Length0 == |days| && buySums.Length1 == evalSums.Length1 &&
              col < buySums.Length1
    modifies buySums, evalSums
    ensures ok <==> t.buy.price == 0.0 || t.buy.day.Some?
    ensures ok ==> forall i, j :: 0 <= i < |days| && 0 <= j < buySums.Length1 ==>
              buySums[i, j] == old(buySums[i, j]) + if j == col then Contribution(Cost, t, m, days[i]) else 0.0
    ensures ok ==> forall i, j :: 0 <= i < |days| && 0 <= j < buySums.Length1 ==>
              evalSums[i, j] == old(evalSums[i, j]) + if j == col then Contribution(Value, t, m, days[i]) else 0.0
  {
    var bp, qty, n := t.buy.price, Units(t), |days|;
    if bp == 0.0 {
      return true;
    }
    if t.buy.day.None? {
      return false;
    }
    ok := true;
    var start := BisectLeft(days, t.buy.day.value);
    if start >= n {
      return;
    }
    if t.status == Sold && t.sale.day.Some? {
      var sellIdx := BisectLeft(days, t.sale.day.value);
      if sellIdx < n {
        var val := if t.sale.price > 0.0 then t.sale.price else bp;
        var sStart := Max(start, sellIdx);
        AddRange(buySums, sStart, n, col, Amount(bp, qty));
        AddRange(evalSums, sStart, n, col, Amount(val, qty));
      }
      var hEnd := Min(sellIdx, n);
      if start < hEnd {
        AddRange(buySums, start, hEnd, col, Amount(bp, qty));
        AddPrices(evalSums, start, hEnd, col, column, bp, qty);
      }
    } else {
      AddRange(buySums, start, n, col, Amount(bp, qty));
      AddPrices(evalSums, start, n, col, column, bp, qty);
    }
  }

  // ---- strategies, price columns and the two tables ----

  /** Strategies without repetition and the column of each. */
  ghost predicate Indexed(strategies: seq<Text>, index: map<Text, nat>) {
    && (forall j :: 0 <= j < |strategies| ==> strategies[j] in index && index[strategies[j]] == j)
    && (forall s :: s in index ==> index[s] < |strategies| && strategies[index[s]] == s)
  }

  method IndexStrategies(trades: seq<Trade>) returns (strategies: seq<Text>, index: map<Text, nat>)
    ensures Indexed(strategies, index)
    ensures forall k :: 0 <= k < |trades| ==> trades[k].strategy in index
  {
    strategies, index := [], map[];
    for k := 0 to |trades|
      invariant Indexed(strategies, index)
      invariant forall l :: 0 <= l < k ==> trades[l].strategy in index
    {
      if trades[k].strategy !in index {
        index := index[trades[k].strategy := |strategies|];
        strategies := strategies + [trades[k].strategy];
      }
    }
  }

  ghost predicate Columns(columns: map<Text, seq<Option<real>>>, m: Market, days: seq<int>) {
    forall c :: c in columns ==> c in m.closes && ColumnOf(Some(columns[c]), m, c, days)
  }

  method AlignPrices(trades: seq<Trade>, m: Market, last: int, days: seq<int>)
    returns (columns: map<Text, seq<Option<real>>>)
    requires forall i :: 0 <= i < |days| ==> m.first <= days[i] <= last
    ensures Columns(columns, m, days)
    ensures forall k :: 0 <= k < |trades| && trades[k].code in m.closes ==> trades[k].code in columns
  {
    columns := map[];
    for k := 0 to |trades|
      invariant Columns(columns, m, days)
      invariant forall l :: 0 <= l < k && trades[l].code in m.closes ==> trades[l].code in columns
    {
      var code := trades[k].code;
      if code in m.closes && code !in columns {
        var filled := FillForward(m.closes[code], m.first, last);
        var column := [];
        for i := 0 to |days|
          invariant |column| == i && forall j :: 0 <= j < i ==> column[j] == Close(m, code, days[j])
        {
          column := column + [filled[days[i] - m.first]];
        }
        columns := columns[code := column];
      }
    }
  }

  lemma SumSnoc(side: Side, trades: seq<Trade>, t: Trade, strategy: Text, m: Market, day: int)
    ensures Sum(side, trades + [t], strategy, m, day)
         == Sum(side, trades, strategy, m, day) + if t.strategy == strategy then Contribution(side, t, m, day) else 0.0
    ensures Total(side, trades + [t], m, day) == Total(side, trades, m, day) + Contribution(side, t, m, day)
  {
    assert (trades + [t])[..|trades|] == trades;
  }

  lemma SumTake(side: Side, trades: seq<Trade>, k: nat, m: Market)
    requires k < |trades|
    ensures forall s, day :: Sum(side, trades[..k + 1], s, m, day)
                          == Sum(side, trades[..k], s, m, day) +
                              if trades[k].strategy == s then Contribution(side, trades[k], m, day) else 0.0
  {
    assert trades[..k + 1] == trades[..k] + [trades[k]];
    forall s, day
      ensures Sum(side, trades[..k + 1], s, m, day)
           == Sum(side, trades[..k], s, m, day) +
               if trades[k].strategy == s then Contribution(side, trades[k], m, day) else 0.0
    {
      SumSnoc(side, trades[..k], trades[k], s, m, day);
    }
  }

  ghost predicate Holds(a: array2<real>, side: Side, trades: seq<Trade>, strategies: seq<Text>, m: Market,
                        days: seq<int>)
    reads a
  {
    && a.Length0 == |days| && a.Length1 == |strategies|
    && forall i, j :: 0 <= i < |days| && 0 <= j < |strategies| ==>
          a[i, j] == Sum(side, trades, strategies[j], m, days[i])
  }

  ghost predicate Readable(t: Trade) { t.buy.price == 0.0 || t.buy.day.Some? }

  ghost predicate BothHold(buySums: array2<real>, evalSums: array2<real>, trades: seq<Trade>, strategies: seq<Text>,
                           m: Market, days: seq<int>)
    reads buySums, evalSums
  {
    Holds(buySums, Cost, trades, strategies, m, days) && Holds(evalSums, Value, trades, strategies, m, days)
  }

  /** Trade `k` on top of the ones before it. */
  method AddNext(trades: seq<Trade>, k: nat, m: Market, days: seq<int>, columns: map<Text, seq<Option<real>>>,
                 strategies: seq<Text>, index: map<Text, nat>, buySums: array2<real>, evalSums: array2<real>)
    returns (ok: bool)
    requires Ascending(days) && Indexed(strategies, index) && Columns(columns, m, days)
    requires k < |trades| && trades[k].strategy in index && (trades[k].code in m.closes ==> trades[k].code in columns)
    requires buySums != evalSums && BothHold(buySums, evalSums, trades[..k], strategies, m, days)
    modifies buySums, evalSums
    ensures ok <==> Readable(trades[k])
    ensures ok ==> BothHold(buySums, evalSums, trades[..k + 1], strategies, m, days)
  {
    var t := trades[k];
    var column := if t.code in columns then Some(columns[t.code]) else None;
    SumTake(Cost, trades, k, m);
    SumTake(Value, trades, k, m);
    ok := AddTrade(t, m, days, index[t.strategy], column, buySums, evalSums);
  }

  /** Both tables at once, one trade after the other; false where the code fails on a trade without a buy date. */
  method FillTables(trades: seq<Trade>, m: Market, days: seq<int>, columns: map<Text, seq<Option<real>>>,
                    strategies: seq<Text>, index: map<Text, nat>)
    returns (ok: bool, buySums: array2<real>, evalSums: array2<real>)
    requires Ascending(days) && Indexed(strategies, index) && Columns(columns, m, days)
    requires forall k :: 0 <= k < |trades| ==>
              trades[k].strategy in index && (trades[k].code in m.closes ==> trades[k].code in columns)
    ensures ok <==> forall k :: 0 <= k < |trades| ==> Readable(trades[k])
    ensures ok ==> BothHold(buySums, evalSums, trades, strategies, m, days)
  {
    buySums := new real[|days|, |strategies|]((i, j) => 0.0);
    evalSums := new real[|days|, |strategies|]((i, j) => 0.0);
    ok := true;
    for k := 0 to |trades|
      invariant fresh(buySums) && fresh(evalSums) && buySums != evalSums
      invariant ok && forall l :: 0 <= l < k ==> Readable(trades[l])
      invariant BothHold(buySums, evalSums, trades[..k], strategies, m, days)
    {
      ok := AddNext(trades, k, m, days, columns, strategies, index, buySums, evalSums);
      if !ok {
        assert !Readable(trades[k]);
        return;
      }
    }
    assert trades[..|trades|] == trades;
  }

  // ---- totals and snapshots ----

  function RowSum(side: Side, trades: seq<Trade>, strategies: seq<Text>, n: nat, m: Market, day: int): real
    requires n <= |strategies|
  {
    if n == 0 then 0.0
    else RowSum(side, trades, strategies, n - 1, m, day) + Sum(side, trades, strategies[n - 1], m, day)
  }

  /** The columns up to `n` of one more trade: its contribution falls into exactly one column. */
  lemma {:induction false} RowSumGrows(side: Side, trades: seq<Trade>, strategies: seq<Text>, index: map<Text, nat>,
                                       n: nat, m: Market, day: int)
    requires trades != [] && Indexed(strategies, index) && n <= |strategies|
    ensures var last := trades[|trades| - 1];
            RowSum(side, trades, strategies, n, m, day) == RowSum(side, trades[..|trades| - 1], strategies, n, m, day)
              + if last.strategy in index && index[last.strategy] < n then Contribution(side, last, m, day) else 0.0
  {
    if n == 0 {
    } else {
      RowSumGrows(side, trades, strategies, index, n - 1, m, day);
      assert strategies[n - 1] in index && index[strategies[n - 1]] == n - 1;
    }
  }

  lemma {:induction false} RowSumOfNothing(side: Side, strategies: seq<Text>, n: nat, m: Market, day: int)
    requires n <= |strategies|
    ensures RowSum(side, [], strategies, n, m, day) == 0.0
  {
    if n == 0 {
    } else {
      RowSumOfNothing(side, strategies, n - 1, m, day);
    }
  }

  /** The sum over all strategies is the sum over all trades. */
  lemma {:induction false} TotalsAreSumsOverStrategies(side: Side, trades: seq<Trade>, strategies: seq<Text>,
                                                       index: map<Text, nat>, m: Market, day: int)
    requires Indexed(strategies, index) && forall k :: 0 <= k < |trades| ==> trades[k].strategy in index
    ensures RowSum(side, trades, strategies, |strategies|, m, day) == Total(side, trades, m, day)
  {
    if trades == [] {
      RowSumOfNothing(side, strategies, |strategies|, m, day);
    } else {
      TotalsAreSumsOverStrategies(side, trades[..|trades| - 1], strategies, index, m, day);
      RowSumGrows(side, trades, strategies, index, |strategies|, m, day);
    }
  }

  /** A strategy without trades has sum zero on every day. */
  lemma {:induction false} NothingWithoutTrades(side: Side, trades: seq<Trade>, strategy: Text, m: Market, day: int)
    requires forall k :: 0 <= k < |trades| ==> trades[k].strategy != strategy
    ensures Sum(side, trades, strategy, m, day) == 0.0
  {
    if trades == [] {
    } else {
      NothingWithoutTrades(side, trades[..|trades| - 1], strategy, m, day);
    }
  }

  /** Return in percent, 0 where nothing was bought. */
  function Rate(cost: real, value: real): real { if cost == 0.0 then 0.0 else (value - cost) / cost * 100.0 }

  datatype Snapshot = Snapshot(rates: map<Text, real>, all: real)

  /** The snapshot of one day by the per-day definition: strategies with something bought, and everything together. */
  ghost predicate IsSnapshot(snap: Snapshot, trades: seq<Trade>, m: Market, day: int) {
    && snap.all == Rate(Total(Cost, trades, m, day), Total(Value, trades, m, day))
    && (forall s :: s in snap.rates <==> Sum(Cost, trades, s, m, day) > 0.0)
    && (forall s :: s in snap.rates ==>
          snap.rates[s] == Rate(Sum(Cost, trades, s, m, day), Sum(Value, trades, s, m, day)))
  }

  method RowTotal(a: array2<real>, side: Side, trades: seq<Trade>, strategies: seq<Text>, index: map<Text, nat>,
                  m: Market,
                  days: seq<int>, i: nat) returns (total: real)
    requires Holds(a, side, trades, strategies, m, days) && i < |days|
    requires Indexed(strategies, index) && forall k :: 0 <= k < |trades| ==> trades[k].strategy in index
    ensures total == Total(side, trades, m, days[i])
  {
    total := 0.0;
    for j := 0 to |strategies|
      invariant total == RowSum(side, trades, strategies, j, m, days[i])
    {
      total := total + a[i, j];
    }
    TotalsAreSumsOverStrategies(side, trades, strategies, index, m, days[i]);
  }

  method DaySnapshot(buySums: array2<real>, evalSums: array2<real>, trades: seq<Trade>, strategies: seq<Text>,
                     index: map<Text, nat>, m: Market, days: seq<int>, i: nat) returns (snap: Option<Snapshot>)
    requires BothHold(buySums, evalSums, trades, strategies, m, days)
    requires i < |days| && Indexed(strategies, index) && forall k :: 0 <= k < |trades| ==> trades[k].strategy in index
    ensures snap.Some? <==> Total(Cost, trades, m, days[i]) > 0.0
    ensures snap.Some? ==> IsSnapshot(snap.value, trades, m, days[i])
  {
    var totalBuy := RowTotal(buySums, Cost, trades, strategies, index, m, days, i);
    var totalEval := RowTotal(evalSums, Value, trades, strategies, index, m, days, i);
    if totalBuy <= 0.0 {
      return None;
    }
    var rates: map<Text, real> := map[];
    for j := 0 to |strategies|
      invariant forall s :: s in rates <==> s in index && index[s] < j && Sum(Cost, trades, s, m, days[i]) > 0.0
      invariant forall s :: s in rates ==>
                  rates[s] == Rate(Sum(Cost, trades, s, m, days[i]), Sum(Value, trades, s, m, days[i]))
    {
      if buySums[i, j] > 0.0 {
        rates := rates[strategies[j] := Rate(buySums[i, j], evalSums[i, j])];
      }
    }
    forall s | s !in index ensures Sum(Cost, trades, s, m, days[i]) == 0.0 {
      NothingWithoutTrades(Cost, trades, s, m, days[i]);
    }
    snap := Some(Snapshot(rates, Rate(totalBuy, totalEval)));
  }

  /** The days from `first` to `last` without a snapshot; `at` tells where each stands. */
  method MissingDays(daily: map<int, Snapshot>, first: int, last: int) returns (days: seq<int>, ghost at: map<int, nat>)
    ensures Ascending(days) && forall i :: 0 <= i < |days| ==> first <= days[i] <= last && days[i] !in daily
    ensures forall d :: first <= d <= last && d !in daily ==> d in at && at[d] < |days| && days[at[d]] == d
  {
    days, at := [], map[];
    var d := first;
    while d <= last
      invariant Ascending(days) && forall i :: 0 <= i < |days| ==>
                first <= days[i] <= last && days[i] < d && days[i] !in daily
      invariant forall e :: first <= e <= last && e < d && e !in daily ==> e in at && at[e] < |days| && days[at[e]] == e
      decreases last - d
    {
      if d !in daily {
        at := at[d := |days|];
        days := days + [d];
      }
      d := d + 1;
    }
  }

  /** The daily map once the first `n` missing days have been merged into it. */
  ghost predicate Merged(merged: map<int, Snapshot>, daily: map<int, Snapshot>, trades: seq<Trade>, m: Market,
                         last: int,
                         days: seq<int>, n: nat)
  {
    && n <= |days|
    && (forall d :: d in daily ==> d in merged && merged[d] == daily[d])
    && (forall d :: d in merged && d !in daily ==>
          m.first <= d <= last && Total(Cost, trades, m, d) > 0.0 && IsSnapshot(merged[d], trades, m, d))
    && (forall k :: 0 <= k < n ==> (days[k] in merged <==> Total(Cost, trades, m, days[k]) > 0.0))
    && (forall k :: n <= k < |days| ==> days[k] !in merged)
  }

  lemma MergeOne(merged: map<int, Snapshot>, daily: map<int, Snapshot>, trades: seq<Trade>, m: Market, last: int,
                 days: seq<int>, n: nat, snap: Option<Snapshot>)
    requires Merged(merged, daily, trades, m, last, days, n) && n < |days|
    requires Ascending(days) && m.first <= days[n] <= last && days[n] !in daily
    requires snap.Some? <==> Total(Cost, trades, m, days[n]) > 0.0
    requires snap.Some? ==> IsSnapshot(snap.value, trades, m, days[n])
    ensures Merged(if snap.Some? then merged[days[n] := snap.value] else merged, daily, trades, m, last, days, n + 1)
  {
  }

  method MergeSnapshots(buySums: array2<real>, evalSums: array2<real>, trades: seq<Trade>, strategies: seq<Text>,
                        index: map<Text, nat>, m: Market, last: int, days: seq<int>, daily: map<int, Snapshot>)
    returns (merged: map<int, Snapshot>, added: nat, ghost addedAt: nat)
    requires BothHold(buySums, evalSums, trades, strategies, m, days)
    requires Indexed(strategies, index) && forall k :: 0 <= k < |trades| ==> trades[k].strategy in index
    requires Ascending(days) && forall i :: 0 <= i < |days| ==> m.first <= days[i] <= last && days[i] !in daily
    ensures Merged(merged, daily, trades, m, last, days, |days|)
    ensures added == 0 ==> merged == daily
    ensures added > 0 ==> addedAt < |days| && Total(Cost, trades, m, days[addedAt]) > 0.0
  {
    merged, added, addedAt := daily, 0, 0;
    for i := 0 to |days|
      invariant Merged(merged, daily, trades, m, last, days, i)
      invariant added == 0 ==> merged == daily
      invariant added > 0 ==> addedAt < i && Total(Cost, trades, m, days[addedAt]) > 0.0
    {
      var snap := DaySnapshot(buySums, evalSums, trades, strategies, index, m, days, i);
      MergeOne(merged, daily, trades, m, last, days, i, snap);
      if snap.Some? {
        merged := merged[days[i] := snap.value];
        added, addedAt := added + 1, i;
      }
    }
  }

  ghost predicate Missing(m: Market, last: int, daily: map<int, Snapshot>, d: int) {
    m.first <= d <= last && d !in daily
  }

  ghost predicate Addable(trades: seq<Trade>, m: Market, last: int, daily: map<int, Snapshot>, d: int) {
    Missing(m, last, daily, d) && Total(Cost, trades, m, d) > 0.0
  }

  /** The whole backfill from `m.first` to `last`: None where the code fails, otherwise the snapshots to keep.
      Present days are never rewritten; a missing day gets the per-day snapshot if something was bought by then;
      and days before the cutoff go if anything was added. */
  method BackfillSnapshots(trades: seq<Trade>, m: Market, last: int, daily: map<int, Snapshot>, cutoff: int)
    returns (r: Option<map<int, Snapshot>>)
    ensures r.None? <==>
              (exists d :: Missing(m, last, daily, d)) && exists k :: 0 <= k < |trades| && !Readable(trades[k])
    ensures r.Some? ==> if exists d :: Addable(trades, m, last, daily, d)
                        then forall d :: d in r.value <==>
                            d >= cutoff && (d in daily || Addable(trades, m, last, daily, d))
                        else r.value == daily
    ensures r.Some? ==> forall d :: d in r.value ==>
              if d in daily then r.value[d] == daily[d] else IsSnapshot(r.value[d], trades, m, d)
  {
    var days, at := MissingDays(daily, m.first, last);
    if days == [] {
      return Some(daily);
    }
    assert Missing(m, last, daily, days[0]);
    var strategies, index := IndexStrategies(trades);
    var columns := AlignPrices(trades, m, last, days);
    var ok, buySums, evalSums := FillTables(trades, m, days, columns, strategies, index);
    if !ok {
      return None;
    }
    var merged, added, addedAt := MergeSnapshots(buySums, evalSums, trades, strategies, index, m, last, days, daily);
    assert added > 0 ==> Addable(trades, m, last, daily, days[addedAt]);
    assert forall d :: d in merged <==> d in daily || Addable(trades, m, last, daily, d);
    if added > 0 {
      r := Some(map d | d in merged && d >= cutoff :: merged[d]);
    } else {
      r := Some(merged);
    }
  }

  // ---- what a snapshot says, in the columns of the trades ----

  /** The trade has a price and was bought by the day. */
  predicate InvestedBy(t: Trade, day: int) {
    t.buy.price != 0.0 && match t.buy.day case None => false case Some(bought) => bought <= day
  }

  predicate SoldOutBy(t: Trade, day: int) {
    t.status == Sold && match t.sale.day case None => false case Some(sold) => sold <= day
  }

  /** `p` is the close of the last calendar day with one, from `m.first` up to `day`. */
  ghost predicate IsLastClose(m: Market, code: Text, day: int, p: real) {
    code in m.closes && exists on :: m.first <= on <= day && on in m.closes[code] && m.closes[code][on] == p
                                     && forall later :: on < later <= day ==> later !in m.closes[code]
  }

  ghost predicate NoClose(m: Market, code: Text, day: int) {
    code in m.closes ==> forall on :: m.first <= on <= day ==> on !in m.closes[code]
  }

  /** What one unit of a trade is worth on the day: once sold its sale price, or its buy price if that is not positive;
      while open its last close, or its buy price if there is none. */
  ghost predicate ValuedAt(t: Trade, m: Market, day: int, p: real) {
    || (SoldOutBy(t, day) && t.sale.price > 0.0 && p == t.sale.price)
    || (SoldOutBy(t, day) && t.sale.price <= 0.0 && p == t.buy.price)
    || (!SoldOutBy(t, day) && IsLastClose(m, t.code, day, p))
    || (!SoldOutBy(t, day) && NoClose(m, t.code, day) && p == t.buy.price)
  }

  predicate OfStrategy(t: Trade, strategy: Option<Text>) { strategy.None? || strategy == Some(t.strategy) }

  /** Price times units of a trade bought by the day; a missing quantity is one unit. */
  function AmountOn(t: Trade, price: real, day: int): real {
    if !InvestedBy(t, day) then 0.0
    else match t.quantity case None => price case Some(units) => price * units
  }

  /** The sum of that over the trades of one strategy, or of all. */
  function Amounts(trades: seq<Trade>, prices: seq<real>, strategy: Option<Text>, day: int): real
    requires |prices| == |trades|
  {
    if trades == [] then 0.0
    else
      var n := |trades| - 1;
      Amounts(trades[..n], prices[..n], strategy, day)
      + if OfStrategy(trades[n], strategy) then AmountOn(trades[n], prices[n], day) else 0.0
  }

  /** The prices the trades were bought at. */
  function BuyPrices(trades: seq<Trade>): seq<real> {
    seq(|trades|, k requires 0 <= k < |trades| => trades[k].buy.price)
  }

  /** Every trade bought by the day has its worth of that day in `prices`. */
  ghost predicate Valued(trades: seq<Trade>, m: Market, day: int, prices: seq<real>) {
    |prices| == |trades|
    && forall k :: 0 <= k < |trades| && InvestedBy(trades[k], day) ==> ValuedAt(trades[k], m, day, prices[k])
  }

  lemma {:induction false} CloseOnIsLast(closes: map<int, real>, first: int, day: int, on: int)
    requires first <= on <= day && on in closes && forall later :: on < later <= day ==> later !in closes
    ensures CloseOn(closes, first, day) == Some(closes[on])
    decreases day - first
  {
    if on == day {
    } else {
      CloseOnIsLast(closes, first, day - 1, on);
    }
  }

  lemma {:induction false} CloseOnNone(closes: map<int, real>, first: int, day: int)
    requires forall on :: first <= on <= day ==> on !in closes
    ensures CloseOn(closes, first, day) == None
    decreases day - first
  {
    if day < first {
    } else {
      CloseOnNone(closes, first, day - 1);
    }
  }

  /** A trade has only one worth, and it is the one the definition uses. */
  lemma WorthIs(t: Trade, m: Market, day: int, p: real)
    requires ValuedAt(t, m, day, p)
    ensures Worth(t, m, day) == p
  {
    if !SoldOutBy(t, day) && IsLastClose(m, t.code, day, p) {
      var on :| m.first <= on <= day && on in m.closes[t.code] && m.closes[t.code][on] == p
                && forall later :: on < later <= day ==> later !in m.closes[t.code];
      CloseOnIsLast(m.closes[t.code], m.first, day, on);
    } else if !SoldOutBy(t, day) && t.code in m.closes {
      CloseOnNone(m.closes[t.code], m.first, day);
    }
  }

  /** The prices of one side: what was paid, or what it is worth. */
  ghost predicate PricesOf(side: Side, trades: seq<Trade>, m: Market, day: int, prices: seq<real>) {
    if side == Cost then prices == BuyPrices(trades) else Valued(trades, m, day, prices)
  }

  lemma ContributionIs(side: Side, t: Trade, m: Market, day: int, p: real)
    requires if side == Cost then p == t.buy.price else InvestedBy(t, day) ==> ValuedAt(t, m, day, p)
    ensures Contribution(side, t, m, day) == AmountOn(t, p, day)
  {
    if side == Value && InvestedBy(t, day) { WorthIs(t, m, day, p); }
  }

  lemma PricesOfPrefix(side: Side, trades: seq<Trade>, m: Market, day: int, prices: seq<real>)
    requires trades != [] && PricesOf(side, trades, m, day, prices)
    ensures |prices| == |trades| && PricesOf(side, trades[..|trades| - 1], m, day, prices[..|trades| - 1])
  {
    var n := |trades| - 1;
    assert BuyPrices(trades)[..n] == BuyPrices(trades[..n]);
  }

  /** The sums of the definition, written in the columns of the trades. */
  lemma {:induction false} SumIsAmounts(side: Side, trades: seq<Trade>, m: Market, day: int, prices: seq<real>,
                                        strategy: Text)
    requires PricesOf(side, trades, m, day, prices)
    ensures |prices| == |trades| && Sum(side, trades, strategy, m, day) == Amounts(trades, prices, Some(strategy), day)
  {
    if trades == [] {
    } else {
      var n := |trades| - 1;
      PricesOfPrefix(side, trades, m, day, prices);
      SumIsAmounts(side, trades[..n], m, day, prices[..n], strategy);
      ContributionIs(side, trades[n], m, day, prices[n]);
    }
  }

  lemma {:induction false} TotalIsAmounts(side: Side, trades: seq<Trade>, m: Market, day: int, prices: seq<real>)
    requires PricesOf(side, trades, m, day, prices)
    ensures |prices| == |trades| && Total(side, trades, m, day) == Amounts(trades, prices, None, day)
  {
    if trades == [] {
    } else {
      var n := |trades| - 1;
      PricesOfPrefix(side, trades, m, day, prices);
      TotalIsAmounts(side, trades[..n], m, day, prices[..n]);
      ContributionIs(side, trades[n], m, day, prices[n]);
    }
  }

  /** What was invested, grown by `rate` percent, is what it is worth. */
  predicate Grown(invested: real, rate: real, worth: real) { invested * (100.0 + rate) == 100.0 * worth }

  lemma RateIsGrowth(cost: real, value: real)
    requires cost > 0.0
    ensures Grown(cost, Rate(cost, value), value)
  {
    var share := (value - cost) / cost;
    assert share * cost == value - cost;
    assert cost * (share * 100.0) == 100.0 * (share * cost);
  }

  /** In every snapshot a strategy is listed exactly if it invested something, and its rate is the growth of what it
      invested to what its trades are worth. */
  lemma SnapshotTellsGrowth(snap: Snapshot, trades: seq<Trade>, m: Market, day: int, prices: seq<real>, strategy: Text)
    requires IsSnapshot(snap, trades, m, day) && Valued(trades, m, day, prices)
    ensures strategy in snap.rates <==> Amounts(trades, BuyPrices(trades), Some(strategy), day) > 0.0
    ensures strategy in snap.rates ==>
              Grown(Amounts(trades, BuyPrices(trades), Some(strategy), day), snap.rates[strategy],
                    Amounts(trades, prices, Some(strategy), day))
  {
    SumIsAmounts(Cost, trades, m, day, BuyPrices(trades), strategy);
    SumIsAmounts(Value, trades, m, day, prices, strategy);
    if strategy in snap.rates {
      RateIsGrowth(Sum(Cost, trades, strategy, m, day), Sum(Value, trades, strategy, m, day));
    }
  }

  /** The same for everything together; and a day gets its snapshot exactly if something was invested by then. */
  lemma SnapshotTellsTotalGrowth(snap: Snapshot, trades: seq<Trade>, m: Market, day: int, prices: seq<real>)
    requires IsSnapshot(snap, trades, m, day) && Valued(trades, m, day, prices)
    ensures Total(Cost, trades, m, day) > 0.0 <==> Amounts(trades, BuyPrices(trades), None, day) > 0.0
    ensures Total(Cost, trades, m, day) > 0.0 ==>
              Grown(Amounts(trades, BuyPrices(trades), None, day), snap.all, Amounts(trades, prices, None, day))
  {
    TotalIsAmounts(Cost, trades, m, day, BuyPrices(trades));
    TotalIsAmounts(Value, trades, m, day, prices);
    if Total(Cost, trades, m, day) > 0.0 {
      RateIsGrowth(Total(Cost, trades, m, day), Total(Value, trades, m, day));
    }
  }

  lemma TwoAmounts(trades: seq<Trade>, prices: seq<real>, day: int)
    requires |trades| == 2 == |prices| && InvestedBy(trades[0], day) && InvestedBy(trades[1], day)
    requires trades[0].strategy == 1 && trades[1].strategy == 2
    requires trades[0].quantity == None && trades[1].quantity == Some(1.0)
    ensures Amounts(trades, prices, None, day) == prices[0] + prices[1]
    ensures Amounts(trades, prices, Some(1), day) == prices[0]
    ensures Amounts(trades, prices, Some(2), day) == prices[1]
  {
    assert trades[..1][..0] == [] && prices[..1][..0] == [];
    forall who | who == None || who == Some(1) || who == Some(2)
      ensures Amounts(trades[..1], prices[..1], who, day) == if OfStrategy(trades[0], who) then prices[0] else 0.0
    {
      assert Amounts([], [], who, day) == 0.0;
    }
  }

  /** One table: a unit bought at 100 and sold at 110, and a unit of another strategy bought at 100 and last closed at
      130. The first gained 10%, the second 30%, both together 20%. */
  lemma ProfitShowsAsGain(snap: Snapshot, m: Market) returns (trades: seq<Trade>)
    requires 8 in m.closes && m.closes[8] == map[3 := 90.0, 5 := 130.0] && m.first == 1
    ensures trades == [Trade(1, 7, None, Deal(Some(2), 100.0), Sold, Deal(Some(4), 110.0)),
                       Trade(2, 8, Some(1.0), Deal(Some(2), 100.0), Hold, Deal(None, 0.0))]
    ensures IsSnapshot(snap, trades, m, 6) ==>
              snap.all == 20.0 && 1 in snap.rates && snap.rates[1] == 10.0 && 2 in snap.rates && snap.rates[2] == 30.0
  {
    trades := [Trade(1, 7, None, Deal(Some(2), 100.0), Sold, Deal(Some(4), 110.0)),
               Trade(2, 8, Some(1.0), Deal(Some(2), 100.0), Hold, Deal(None, 0.0))];
    var prices, bought := [110.0, 130.0], BuyPrices(trades);
    assert bought == [100.0, 100.0];
    assert 5 in m.closes[8] && forall later :: 5 < later <= 6 ==> later !in m.closes[8];
    assert ValuedAt(trades[1], m, 6, 130.0);
    assert Valued(trades, m, 6, prices);
    TwoAmounts(trades, prices, 6);
    TwoAmounts(trades, bought, 6);
    TotalIsAmounts(Cost, trades, m, 6, bought);
    if IsSnapshot(snap, trades, m, 6) {
      SnapshotTellsTotalGrowth(snap, trades, m, 6, prices);
      SnapshotTellsGrowth(snap, trades, m, 6, prices, 1);
      SnapshotTellsGrowth(snap, trades, m, 6, prices, 2);
    }
  }

  // ---- what the code does with failed orders ----

  /** The trades without the failed orders: what a snapshot of the account should be made of. */
  function NonFailed(trades: seq<Trade>): seq<Trade> {
    if trades == [] then []
    else if trades[|trades| - 1].status == Failed then NonFailed(trades[..|trades| - 1])
    else NonFailed(trades[..|trades| - 1]) + [trades[|trades| - 1]]
  }

  /** A trade adds nothing to a day: it has no price, is not bought by then, or is for no units. */
  predicate Weightless(t: Trade, day: int) { !Bought(t, day) || Units(t) == 0.0 }

  /** Prices are not negative, and neither are quantities. */
  ghost predicate Sound(trades: seq<Trade>) {
    forall k :: 0 <= k < |trades| ==> trades[k].buy.price >= 0.0 && Units(trades[k]) >= 0.0
  }

  lemma CostSign(t: Trade, m: Market, day: int)
    requires t.buy.price >= 0.0 && Units(t) >= 0.0
    ensures Contribution(Cost, t, m, day) >= 0.0
    ensures Contribution(Cost, t, m, day) == 0.0 <==> Weightless(t, day)
    ensures Weightless(t, day) ==> Contribution(Value, t, m, day) == 0.0
  {
  }

  predicate Concerns(t: Trade, strategy: Option<Text>) { strategy.None? || t.strategy == strategy.value }

  /** Every failed order, of the strategy if one is given, is weightless on the day. */
  ghost predicate FailedWeightless(trades: seq<Trade>, strategy: Option<Text>, day: int) {
    forall k :: 0 <= k < |trades| && trades[k].status == Failed && Concerns(trades[k], strategy) ==>
      Weightless(trades[k], day)
  }

  lemma FailedWeightlessSnoc(trades: seq<Trade>, strategy: Option<Text>, day: int)
    requires trades != []
    ensures var last := trades[|trades| - 1];
            FailedWeightless(trades, strategy, day) <==>
              && FailedWeightless(trades[..|trades| - 1], strategy, day)
              && (last.status == Failed && Concerns(last, strategy) ==> Weightless(last, day))
  {
    var prefix := trades[..|trades| - 1];
    assert forall k :: 0 <= k < |prefix| ==> prefix[k] == trades[k];
  }

  /** Failed orders leave a strategy's cost on a day alone exactly if each of them is weightless on that day; otherwise
      they raise it. Without effect on the cost they have none on the value. */
  lemma {:induction false} FailedTradesCountForEver(trades: seq<Trade>, strategy: Text, m: Market, day: int)
    requires Sound(trades)
    ensures Sum(Cost, trades, strategy, m, day) >= Sum(Cost, NonFailed(trades), strategy, m, day) >= 0.0
    ensures Sum(Cost, trades, strategy, m, day) == Sum(Cost, NonFailed(trades), strategy, m, day)
            <==> FailedWeightless(trades, Some(strategy), day)
    ensures FailedWeightless(trades, Some(strategy), day) ==>
              Sum(Value, trades, strategy, m, day) == Sum(Value, NonFailed(trades), strategy, m, day)
  {
    if trades == [] {
    } else {
      var prefix, last := trades[..|trades| - 1], trades[|trades| - 1];
      assert forall k :: 0 <= k < |prefix| ==> prefix[k] == trades[k];
      FailedTradesCountForEver(prefix, strategy, m, day);
      FailedWeightlessSnoc(trades, Some(strategy), day);
      CostSign(last, m, day);
      SumSnoc(Cost, NonFailed(prefix), last, strategy, m, day);
      SumSnoc(Value, NonFailed(prefix), last, strategy, m, day);
    }
  }

  /** The same for the totals of the day. */
  lemma {:induction false} FailedTradesInTotals(trades: seq<Trade>, m: Market, day: int)
    requires Sound(trades)
    ensures Total(Cost, trades, m, day) >= Total(Cost, NonFailed(trades), m, day) >= 0.0
    ensures Total(Cost, trades, m, day) == Total(Cost, NonFailed(trades), m, day) <==>
              FailedWeightless(trades, None, day)
    ensures FailedWeightless(trades, None, day) ==>
              Total(Value, trades, m, day) == Total(Value, NonFailed(trades), m, day)
  {
    if trades == [] {
    } else {
      var prefix, last := trades[..|trades| - 1], trades[|trades| - 1];
      assert forall k :: 0 <= k < |prefix| ==> prefix[k] == trades[k];
      FailedTradesInTotals(prefix, m, day);
      FailedWeightlessSnoc(trades, None, day);
      CostSign(last, m, day);
      SumSnoc(Cost, NonFailed(prefix), last, EMPTY, m, day);
      SumSnoc(Value, NonFailed(prefix), last, EMPTY, m, day);
    }
  }

  /** What that does to the snapshots: a day gets one that it should not have exactly if nothing but failed orders
      weighs on it; a strategy is listed that should not be under the same condition on its own orders; and where the
      failed orders weigh nothing the snapshot is the right one. */
  lemma FailedTradesInSnapshots(snap: Snapshot, trades: seq<Trade>, m: Market, day: int)
    requires Sound(trades) && IsSnapshot(snap, trades, m, day)
    ensures Total(Cost, trades, m, day) > 0.0 && Total(Cost, NonFailed(trades), m, day) <= 0.0
            <==> Total(Cost, NonFailed(trades), m, day) == 0.0 && !FailedWeightless(trades, None, day)
    ensures forall s ::
              (s in snap.rates && Sum(Cost, NonFailed(trades), s, m, day) <= 0.0
               <==> Sum(Cost, NonFailed(trades), s, m, day) == 0.0 && !FailedWeightless(trades, Some(s), day))
    ensures FailedWeightless(trades, None, day) ==> IsSnapshot(snap, NonFailed(trades), m, day)
  {
    FailedTradesInTotals(trades, m, day);
    forall s
      ensures Sum(Cost, trades, s, m, day) >= Sum(Cost, NonFailed(trades), s, m, day) >= 0.0
      ensures Sum(Cost, trades, s, m, day) == Sum(Cost, NonFailed(trades), s, m, day) <==>
                FailedWeightless(trades, Some(s), day)
      ensures FailedWeightless(trades, Some(s), day) ==>
                Sum(Value, trades, s, m, day) == Sum(Value, NonFailed(trades), s, m, day)
      ensures FailedWeightless(trades, None, day) ==> FailedWeightless(trades, Some(s), day)
    {
      FailedTradesCountForEver(trades, s, m, day);
    }
  }

  /** One table: a single failed order for 3 units at 100 on day 5 gives every later day a snapshot of an account that
      never bought anything. */
  lemma FailedOrderMakesSnapshots(m: Market, day: int) returns (trades: seq<Trade>)
    requires day >= 5
    ensures trades == [Trade(7, 11, Some(3.0), Deal(Some(5), 100.0), Failed, Deal(None, 0.0))]
    ensures Total(Cost, trades, m, day) == 300.0 && Sum(Cost, trades, 7, m, day) == 300.0
    ensures NonFailed(trades) == [] && Total(Cost, NonFailed(trades), m, day) == 0.0
  {
    var t := Trade(7, 11, Some(3.0), Deal(Some(5), 100.0), Failed, Deal(None, 0.0));
    trades := [t];
    assert [] + [t] == trades;
    SumSnoc(Cost, [], t, 7, m, day);
    assert trades[..0] == [];
    assert NonFailed([]) == [];
  }
}
