/** The paper-trading ledger: at most one open row per strategy and code, partial sales split the row. */
module VirtualLedger {
  import opened Prelude
  import opened StrategyIdentity

  datatype Status = Hold | Sold | Failed

  /** Clock reading, to the second, price and the recorded signal metadata of a purchase. */
  datatype Purchase = Purchase(date: int, price: real, metadata: Text)

  /** The sell-side columns of a row. */
  datatype Closing = Closing(sellDate: Option<int>, sellPrice: Option<real>, returnRate: real, reason: Text)

  const OPEN := Closing(None, None, 0.0, EMPTY)

  datatype Row = Row(id: int, strategy: Text, code: Text, buy: Purchase, qty: int, close: Closing, status: Status)

  datatype Ledger = Ledger(rows: seq<Row>, nextId: int)

  datatype Sale = Sale(price: real, date: int, reason: Text)

  /** A sale names a code alone, or a strategy and a code. */
  datatype Selection = ByCode(code: Text) | ByStrategy(strategy: Text, code: Text)

  predicate Selects(r: Resolver, sel: Selection, row: Row)
    requires Injective(r.display)
  {
    && row.status == Hold && row.code == sel.code
    && (sel.ByStrategy? ==> FilterMatches(r, sel.strategy, row.strategy))
  }

  /** Position of the newest selected row. */
  function LatestHold(r: Resolver, sel: Selection, rows: seq<Row>): (k: Option<nat>)
    requires Injective(r.display)
    ensures k.Some? ==> k.value < |rows| && Selects(r, sel, rows[k.value])
    ensures k.Some? ==> forall i :: k.value < i < |rows| ==> !Selects(r, sel, rows[i])
    ensures k.None? ==> forall i :: 0 <= i < |rows| ==> !Selects(r, sel, rows[i])
  {
    if rows == [] then None
    else if Selects(r, sel, rows[|rows| - 1]) then Some(|rows| - 1)
    else LatestHold(r, sel, rows[..|rows| - 1])
  }

  predicate IsHolding(r: Resolver, strategy: Text, code: Text, rows: seq<Row>)
    requires Injective(r.display)
  {
    LatestHold(r, ByStrategy(strategy, code), rows).Some?
  }

  /** A row that came from this purchase, in whole or in part, as far as the table can tell. */
  predicate IsPartOf(r: Resolver, strategy: Text, code: Text, date: int, price: real, row: Row)
    requires Injective(r.display)
  {
    FilterMatches(r, strategy, row.strategy) && row.code == code
    && row.buy.date == date && row.buy.price == price && row.status != Failed
  }

  predicate IsSameBuy(r: Resolver, strategy: Text, code: Text, date: int, price: real, qty: int, row: Row)
    requires Injective(r.display)
  {
    IsPartOf(r, strategy, code, date, price, row) && row.qty == qty
  }

  predicate HasSameBuy(r: Resolver, strategy: Text, code: Text, date: int, price: real, qty: int, rows: seq<Row>)
    requires Injective(r.display)
  {
    exists i :: 0 <= i < |rows| && IsSameBuy(r, strategy, code, date, price, qty, rows[i])
  }

  function ReturnRate(buyPrice: real, sellPrice: real): real {
    if buyPrice == 0.0 then 0.0 else (sellPrice - buyPrice) / buyPrice * 100.0
  }

  function Closed(row: Row, s: Sale): Closing {
    Closing(Some(s.date), Some(s.price), ReturnRate(row.buy.price, s.price), s.reason)
  }

  /** Sells all of row `k`, unless fewer (but some) units than it holds are asked for: then the sold part
      becomes a new SOLD row and the rest stays open. */
  function Settle(l: Ledger, k: nat, sold: Option<int>, s: Sale): Ledger
    requires k < |l.rows|
  {
    var row := l.rows[k];
    var filled := if sold.None? then row.qty else sold.value;
    if filled <= 0 || filled >= row.qty then
      l.(rows := l.rows[k := row.(close := Closed(row, s), status := Sold)])
    else
      Ledger(l.rows[k := row.(qty := row.qty - filled)]
               + [row.(id := l.nextId, qty := filled, close := Closed(row, s), status := Sold)],
             l.nextId + 1)
  }

  function SettledQty(held: int, sold: Option<int>): int {
    var filled := if sold.None? then held else sold.value;
    if filled <= 0 || filled >= held then (if held > 0 then held else filled) else filled
  }

  // ---- operations ----

  datatype Op =
    | LogBuy(strategy: Text, code: Text, qty: int, purchase: Purchase)
    | LogSell(sel: Selection, sold: Option<int>, sale: Sale)
    | SetQty(holder: Text, held: Text, newQty: int)
    | LogFailure(blamed: Text, tag: Text, failedCode: Text, failedQty: int, attempt: Purchase, why: Text)

  function AddRow(l: Ledger, strategy: Text, code: Text, qty: int, buy: Purchase, close: Closing, status: Status)
    : Ledger
  {
    Ledger(l.rows + [Row(l.nextId, strategy, code, buy, qty, close, status)], l.nextId + 1)
  }

  function Requantified(r: Resolver, rows: seq<Row>, strategy: Text, code: Text, qty: int): (out: seq<Row>)
    requires Injective(r.display)
    ensures |out| == |rows|
    ensures forall i :: 0 <= i < |rows| ==>
              out[i] == if Selects(r, ByStrategy(strategy, code), rows[i]) then rows[i].(qty := qty) else rows[i]
  {
    seq(|rows|, i requires 0 <= i < |rows| =>
      if Selects(r, ByStrategy(strategy, code), rows[i]) then rows[i].(qty := qty) else rows[i])
  }

  /** A failure without a strategy is filed under the name of the failed action. */
  function FailureName(r: Resolver, strategy: Text, tag: Text): Text
    requires Injective(r.display)
  {
    if strategy == EMPTY then tag else ToId(r, strategy)
  }

  function Step(r: Resolver, l: Ledger, op: Op): Ledger
    requires Injective(r.display)
  {
    match op
    case LogBuy(strategy, code, qty, buy) =>
      var sid := ToId(r, strategy);
      if IsHolding(r, sid, code, l.rows) || HasSameBuy(r, sid, code, buy.date, buy.price, qty, l.rows) then l
      else AddRow(l, sid, code, qty, buy, OPEN, Hold)
    case LogSell(sel, sold, s) =>
      var k := LatestHold(r, sel, l.rows);
      if k.None? then l else Settle(l, k.value, sold, s)
    case SetQty(strategy, code, qty) =>
      if qty <= 0 then l else l.(rows := Requantified(r, l.rows, strategy, code, qty))
    case LogFailure(strategy, tag, code, qty, attempt, why) =>
      AddRow(l, FailureName(r, strategy, tag), code, qty, attempt, OPEN.(reason := why), Failed)
  }

  function Run(r: Resolver, l: Ledger, ops: seq<Op>): Ledger
    requires Injective(r.display)
  {
    if ops == [] then l else Step(r, Run(r, l, ops[..|ops| - 1]), ops[|ops| - 1])
  }

  // ---- the one-open-row invariant ----

  /** At most one open row per strategy identity and code; rows under a display name count for their id. */
  ghost predicate OneHold(r: Resolver, l: Ledger)
    requires Injective(r.display)
  {
    forall i, j :: 0 <= i < j < |l.rows| && l.rows[i].status == Hold && l.rows[j].status == Hold &&
        l.rows[i].code == l.rows[j].code
      ==> ToId(r, l.rows[i].strategy) != ToId(r, l.rows[j].strategy)
  }

  lemma SettleKeepsOneHold(r: Resolver, l: Ledger, k: nat, sold: Option<int>, s: Sale)
    requires Injective(r.display) && OneHold(r, l) && k < |l.rows| && l.rows[k].status == Hold
    ensures OneHold(r, Settle(l, k, sold, s))
  {
    var after := Settle(l, k, sold, s).rows;
    forall i, j | 0 <= i < j < |after| && after[i].status == Hold && after[j].status == Hold &&
        after[i].code == after[j].code
      ensures ToId(r, after[i].strategy) != ToId(r, after[j].strategy)
    {
      assert l.rows[i].status == Hold && l.rows[j].status == Hold;
      assert after[i].strategy == l.rows[i].strategy && after[j].strategy == l.rows[j].strategy;
    }
  }

  lemma BuyKeepsOneHold(r: Resolver, l: Ledger, strategy: Text, code: Text, qty: int, buy: Purchase)
    requires WellFormed(r) && OneHold(r, l) && !IsHolding(r, ToId(r, strategy), code, l.rows)
    ensures OneHold(r, AddRow(l, ToId(r, strategy), code, qty, buy, OPEN, Hold))
  {
    var after := AddRow(l, ToId(r, strategy), code, qty, buy, OPEN, Hold).rows;
    forall i | 0 <= i < |l.rows| && l.rows[i].status == Hold && l.rows[i].code == code
      ensures ToId(r, l.rows[i].strategy) != ToId(r, ToId(r, strategy))
    {
      FilterIsIdentity(r, ToId(r, strategy), l.rows[i].strategy);
      assert !Selects(r, ByStrategy(ToId(r, strategy), code), l.rows[i]);
    }
  }

  lemma StepKeepsOneHold(r: Resolver, l: Ledger, op: Op)
    requires WellFormed(r) && OneHold(r, l)
    ensures OneHold(r, Step(r, l, op))
  {
    match op
    case LogBuy(strategy, code, qty, buy) =>
      if !IsHolding(r, ToId(r, strategy), code, l.rows) { BuyKeepsOneHold(r, l, strategy, code, qty, buy); }
    case LogSell(sel, sold, s) =>
      var k := LatestHold(r, sel, l.rows);
      if k.Some? { SettleKeepsOneHold(r, l, k.value, sold, s); }
    case SetQty(strategy, code, qty) =>
      if qty > 0 {
        var after := Requantified(r, l.rows, strategy, code, qty);
        assert forall i :: 0 <= i < |after| ==> after[i].status == l.rows[i].status && after[i].code == l.rows[i].code
                                                && after[i].strategy == l.rows[i].strategy;
      }
    case LogFailure(_, _, _, _, _, _) =>
  }

  /** Every run of buys, sales, quantity updates and failures keeps at most one open row per strategy and code. */
  lemma {:induction false} RunKeepsOneHold(r: Resolver, l: Ledger, ops: seq<Op>)
    requires WellFormed(r) && OneHold(r, l)
    ensures OneHold(r, Run(r, l, ops))
  {
    if ops == [] {
    } else {
      RunKeepsOneHold(r, l, ops[..|ops| - 1]);
      StepKeepsOneHold(r, Run(r, l, ops[..|ops| - 1]), ops[|ops| - 1]);
    }
  }

  /** So a quantity update touches at most one row, and finds one exactly when the strategy is holding. */
  lemma SetQtyTouchesAtMostOne(r: Resolver, l: Ledger, strategy: Text, code: Text, i: nat, j: nat)
    requires WellFormed(r) && OneHold(r, l) && i < |l.rows| && j < |l.rows|
    requires Selects(r, ByStrategy(strategy, code), l.rows[i]) && Selects(r, ByStrategy(strategy, code), l.rows[j])
    ensures i == j && LatestHold(r, ByStrategy(strategy, code), l.rows) == Some(i)
  {
    FilterIsIdentity(r, strategy, l.rows[i].strategy);
    FilterIsIdentity(r, strategy, l.rows[j].strategy);
    var k := LatestHold(r, ByStrategy(strategy, code), l.rows).value;
    FilterIsIdentity(r, strategy, l.rows[k].strategy);
    assert Selects(r, ByStrategy(strategy, code), l.rows[k]);
  }

  // ---- conservation ----

  function QtyOf(r: Resolver, row: Row, status: Status, sid: Text, code: Text): int
    requires Injective(r.display)
  {
    if row.status == status && ToId(r, row.strategy) == sid && row.code == code then row.qty else 0
  }

  /** The quantity of one strategy identity and code in rows of one status. */
  function StatusQty(r: Resolver, rows: seq<Row>, status: Status, sid: Text, code: Text): int
    requires Injective(r.display)
  {
    if rows == [] then 0
    else StatusQty(r, rows[..|rows| - 1], status, sid, code) + QtyOf(r, rows[|rows| - 1], status, sid, code)
  }

  /** Open plus sold quantity of one strategy identity and code. */
  function TradedQty(r: Resolver, rows: seq<Row>, sid: Text, code: Text): int
    requires Injective(r.display)
  {
    StatusQty(r, rows, Hold, sid, code) + StatusQty(r, rows, Sold, sid, code)
  }

  lemma {:induction false} StatusReplace(r: Resolver, rows: seq<Row>, k: nat, row: Row, status: Status, sid: Text,
                                         code: Text)
    requires Injective(r.display) && k < |rows|
    ensures StatusQty(r, rows[k := row], status, sid, code) ==
            StatusQty(r, rows, status, sid, code) - QtyOf(r, rows[k], status, sid, code) +
                QtyOf(r, row, status, sid, code)
  {
    var n := |rows| - 1;
    if k == n {
      assert rows[k := row][..n] == rows[..n];
    } else {
      assert rows[k := row][..n] == rows[..n][k := row];
      StatusReplace(r, rows[..n], k, row, status, sid, code);
    }
  }

  lemma StatusAppend(r: Resolver, rows: seq<Row>, row: Row, status: Status, sid: Text, code: Text)
    requires Injective(r.display)
    ensures StatusQty(r, rows + [row], status, sid, code) ==
              StatusQty(r, rows, status, sid, code) + QtyOf(r, row, status, sid, code)
  {
    assert (rows + [row])[..|rows|] == rows;
  }

  /** What a settlement of `row` takes out of HOLD and puts into SOLD for one strategy identity and code. */
  function Moved(r: Resolver, row: Row, sold: Option<int>, sid: Text, code: Text): int
    requires Injective(r.display)
  {
    if ToId(r, row.strategy) != sid || row.code != code then 0
    else if sold.None? || sold.value <= 0 || sold.value >= row.qty then row.qty else sold.value
  }

  lemma SplitMoves(r: Resolver, rows: seq<Row>, k: nat, filled: int, id: int, close: Closing, status: Status,
                   sid: Text, code: Text)
    requires Injective(r.display) && k < |rows| && rows[k].status == Hold
    ensures var rest := rows[k].(qty := rows[k].qty - filled);
            var part := rows[k].(id := id, qty := filled, close := close, status := Sold);
            var moved := if ToId(r, rows[k].strategy) == sid && rows[k].code == code then filled else 0;
            StatusQty(r, rows[k := rest] + [part], status, sid, code) == StatusQty(r, rows, status, sid, code) +
            match status case Hold => -moved case Sold => moved case Failed => 0
  {
    var rest := rows[k].(qty := rows[k].qty - filled);
    var part := rows[k].(id := id, qty := filled, close := close, status := Sold);
    StatusReplace(r, rows, k, rest, status, sid, code);
    StatusAppend(r, rows[k := rest], part, status, sid, code);
  }

  lemma SettleMoves(r: Resolver, l: Ledger, k: nat, sold: Option<int>, s: Sale, status: Status, sid: Text, code: Text)
    requires Injective(r.display) && k < |l.rows| && l.rows[k].status == Hold
    ensures StatusQty(r, Settle(l, k, sold, s).rows, status, sid, code) == StatusQty(r, l.rows, status, sid, code) +
            match status
            case Hold => -Moved(r, l.rows[k], sold, sid, code)
            case Sold => Moved(r, l.rows[k], sold, sid, code)
            case Failed => 0
  {
    var row := l.rows[k];
    var filled := if sold.None? then row.qty else sold.value;
    if filled <= 0 || filled >= row.qty {
      StatusReplace(r, l.rows, k, row.(close := Closed(row, s), status := Sold), status, sid, code);
    } else {
      SplitMoves(r, l.rows, k, filled, l.nextId, Closed(row, s), status, sid, code);
    }
  }

  /** The quantity reported for a sale is what left HOLD and arrived in SOLD; a row that held nothing reports what was
      asked for. */
  lemma ReportedIsMoved(r: Resolver, l: Ledger, k: nat, sold: Option<int>, s: Sale)
    requires Injective(r.display) && k < |l.rows| && l.rows[k].status == Hold
    ensures var row, after := l.rows[k], Settle(l, k, sold, s).rows;
            var sid, reported := ToId(r, row.strategy), SettledQty(row.qty, sold);
            && (row.qty <= 0 ==> reported == sold.GetOr(row.qty))
            && (row.qty > 0 ==>
                  && StatusQty(r, after, Sold, sid, row.code) == StatusQty(r, l.rows, Sold, sid, row.code) + reported
                  && StatusQty(r, after, Hold, sid, row.code) == StatusQty(r, l.rows, Hold, sid, row.code) - reported)
  {
    SettleMoves(r, l, k, sold, s, Hold, ToId(r, l.rows[k].strategy), l.rows[k].code);
    SettleMoves(r, l, k, sold, s, Sold, ToId(r, l.rows[k].strategy), l.rows[k].code);
  }

  /** A sale, full or partial, moves quantity from HOLD to SOLD without creating or losing any, strategy by strategy. */
  lemma SaleConserves(r: Resolver, l: Ledger, k: nat, sold: Option<int>, s: Sale, sid: Text, code: Text)
    requires Injective(r.display) && k < |l.rows| && l.rows[k].status == Hold
    ensures TradedQty(r, Settle(l, k, sold, s).rows, sid, code) == TradedQty(r, l.rows, sid, code)
  {
    SettleMoves(r, l, k, sold, s, Hold, sid, code);
    SettleMoves(r, l, k, sold, s, Sold, sid, code);
  }

  /** A strategy's sale leaves it holding exactly if it was holding more than it sold. It then still holds the same
      purchase in the same row; its open quantity went down and its sold quantity up by what was sold; no other
      strategy or code is affected. */
  lemma PartialSaleShape(r: Resolver, l: Ledger, strategy: Text, code: Text, sold: int, s: Sale, sid: Text, other: Text)
    requires WellFormed(r) && OneHold(r, l) && sold > 0
    ensures var sel := ByStrategy(strategy, code);
            var before, after := l.rows, Step(r, l, LogSell(sel, Some(sold), s)).rows;
            var k := LatestHold(r, sel, before);
            && (IsHolding(r, strategy, code, after) <==> k.Some? && sold < before[k.value].qty)
            && (IsHolding(r, strategy, code, after) ==>
                  LatestHold(r, sel, after) == k && after[k.value].buy == before[k.value].buy)
            && var moved := if k.Some? && sid == ToId(r, strategy) &&
                  other == code then Min(sold, before[k.value].qty) else 0;
               && StatusQty(r, after, Hold, sid, other) == StatusQty(r, before, Hold, sid, other) - moved
               && StatusQty(r, after, Sold, sid, other) == StatusQty(r, before, Sold, sid, other) + moved
  {
    var sel := ByStrategy(strategy, code);
    var k := LatestHold(r, sel, l.rows);
    if k.Some? {
      var after := Step(r, l, LogSell(sel, Some(sold), s)).rows;
      FilterIsIdentity(r, strategy, l.rows[k.value].strategy);
      SettleMoves(r, l, k.value, Some(sold), s, Hold, sid, other);
      SettleMoves(r, l, k.value, Some(sold), s, Sold, sid, other);
      forall i | 0 <= i < |after| && Selects(r, sel, after[i]) ensures i == k.value {
        assert i < |l.rows| && Selects(r, sel, l.rows[i]);
        SetQtyTouchesAtMostOne(r, l, strategy, code, i, k.value);
      }
      if sold < l.rows[k.value].qty {
        assert Selects(r, sel, after[k.value]);
      }
    }
  }

  // ---- what a settled row says ----

  /** Percentages; a row bought for nothing has no return. */
  predicate IsReturn(rate: real, buy: real, sell: real) {
    if buy == 0.0 then rate == 0.0 else buy * (100.0 + rate) == 100.0 * sell
  }

  lemma ReturnIsGrowth(buy: real, sell: real)
    ensures IsReturn(ReturnRate(buy, sell), buy, sell)
  {
    if buy != 0.0 {
      var growth := (sell - buy) / buy;
      assert growth * buy == sell - buy;
    }
  }

  /** `sold` is `qty` units of the open row `held`, sold: date, price, return and reason are those of the sale. */
  predicate IsSaleOf(sold: Row, held: Row, qty: int, s: Sale) {
    && sold.status == Sold && sold.qty == qty
    && sold.close.sellDate == Some(s.date) && sold.close.sellPrice == Some(s.price) && sold.close.reason == s.reason
    && IsReturn(sold.close.returnRate, held.buy.price, s.price)
    && sold.strategy == held.strategy && sold.code == held.code && sold.buy == held.buy
  }

  /** A sale of fewer (but some) units than the row holds leaves it open with the rest, sell columns untouched, and
      appends the sold units under the next id; any other sale closes the row itself. No other row changes. */
  lemma SettleTells(l: Ledger, k: nat, sold: Option<int>, s: Sale)
    requires k < |l.rows| && l.rows[k].status == Hold
    ensures var held, after := l.rows[k], Settle(l, k, sold, s);
            && |after.rows| >= |l.rows| && (forall i :: 0 <= i < |l.rows| && i != k ==> after.rows[i] == l.rows[i])
            && if sold.Some? && 0 < sold.value < held.qty
               then && |after.rows| == |l.rows| + 1 && after.nextId == l.nextId + 1
                    && after.rows[k] == held.(qty := held.qty - sold.value)
                    && after.rows[|l.rows|].id == l.nextId
                    && IsSaleOf(after.rows[|l.rows|], held, sold.value, s)
               else && |after.rows| == |l.rows| && after.nextId == l.nextId
                    && after.rows[k].id == held.id && IsSaleOf(after.rows[k], held, held.qty, s)
  {
    ReturnIsGrowth(l.rows[k].buy.price, s.price);
  }

  /** The open rows are the same, and everything added is sold. */
  ghost predicate SameOpenRows(n: nat, one: seq<Row>, two: seq<Row>) {
    && |one| >= n && |two| >= n
    && (forall i :: 0 <= i < n ==>
          (two[i].status == Hold <==> one[i].status == Hold) && (one[i].status == Hold ==> two[i] == one[i]))
    && (forall i :: n <= i < |two| ==> two[i].status == Sold)
    && (forall i :: n <= i < |one| ==> one[i].status == Sold)
  }

  lemma SettleTwice(l: Ledger, k: nat, a: int, b: int, s: Sale, t: Sale, u: Sale)
    requires k < |l.rows| && l.rows[k].status == Hold && a > 0 && b > 0
    ensures a < l.rows[k].qty ==>
              && k < |Settle(l, k, Some(a), s).rows|
              && SameOpenRows(|l.rows|, Settle(l, k, Some(a + b), u).rows,
                    Settle(Settle(l, k, Some(a), s), k, Some(b), t).rows)
    ensures a >= l.rows[k].qty ==>
              SameOpenRows(|l.rows|, Settle(l, k, Some(a + b), u).rows, Settle(l, k, Some(a), s).rows)
  {
  }

  /** Selling `a` and then `b` units of a strategy's holding leaves the same open rows as selling `a + b`. */
  lemma SellTwice(r: Resolver, l: Ledger, strategy: Text, code: Text, a: int, b: int, s: Sale, t: Sale, u: Sale)
    requires WellFormed(r) && OneHold(r, l) && a > 0 && b > 0
    ensures var sel := ByStrategy(strategy, code);
            SameOpenRows(|l.rows|, Step(r, l, LogSell(sel, Some(a + b), u)).rows,
                         Step(r, Step(r, l, LogSell(sel, Some(a), s)), LogSell(sel, Some(b), t)).rows)
  {
    var k := LatestHold(r, ByStrategy(strategy, code), l.rows);
    PartialSaleShape(r, l, strategy, code, a, s, strategy, code);
    if k.Some? { SettleTwice(l, k.value, a, b, s, t, u); }
  }

  // ---- replaying a purchase ----

  /** The same purchase submitted when the clock reads `d`: every call stamps its own reading, to the second. */
  function At(b: Op, d: int): Op
    requires b.LogBuy?
  {
    b.(purchase := b.purchase.(date := d))
  }

  /** The rows a step may touch: only open ones change, and no row changes its strategy, code or purchase. */
  ghost predicate Evolves(before: seq<Row>, after: seq<Row>) {
    && |before| <= |after|
    && forall i :: 0 <= i < |before| ==>
         && (before[i].status != Hold ==> after[i] == before[i])
         && after[i].strategy == before[i].strategy && after[i].code == before[i].code && after[i].buy == before[i].buy
         && (after[i].status == Failed <==> before[i].status == Failed)
  }

  lemma StepEvolves(r: Resolver, l: Ledger, op: Op)
    requires Injective(r.display)
    ensures Evolves(l.rows, Step(r, l, op).rows)
  {
  }

  lemma EvolvesFurther(a: seq<Row>, b: seq<Row>, c: seq<Row>)
    requires Evolves(a, b) && Evolves(b, c)
    ensures Evolves(a, c)
  {
  }

  lemma {:induction false} RunEvolves(r: Resolver, l: Ledger, ops: seq<Op>)
    requires Injective(r.display)
    ensures Evolves(l.rows, Run(r, l, ops).rows)
  {
    if ops == [] {
    } else {
      var mid := Run(r, l, ops[..|ops| - 1]);
      RunEvolves(r, l, ops[..|ops| - 1]);
      StepEvolves(r, mid, ops[|ops| - 1]);
      EvolvesFurther(l.rows, mid.rows, Run(r, l, ops).rows);
    }
  }

  /** The purchase `b` was recorded by a step from `l`, in the row at position |l.rows|. */
  predicate Records(r: Resolver, l: Ledger, b: Op)
    requires Injective(r.display)
  {
    b.LogBuy? && Step(r, l, b) != l
  }

  predicate PartOf(r: Resolver, b: Op, row: Row)
    requires Injective(r.display) && b.LogBuy?
  {
    IsPartOf(r, b.strategy, b.code, b.purchase.date, b.purchase.price, row)
  }

  lemma SameUnderId(r: Resolver, strategy: Text, code: Text, rows: seq<Row>)
    requires WellFormed(r)
    ensures forall row :: Selects(r, ByStrategy(ToId(r, strategy), code), row) <==>
              Selects(r, ByStrategy(strategy, code), row)
    ensures IsHolding(r, ToId(r, strategy), code, rows) <==> IsHolding(r, strategy, code, rows)
  {
    ConversionsKeepIdentity(r, strategy);
  }

  /** Rows older than a recorded purchase never take part in the guard again: none of the same strategy and code was
      open. */
  lemma OlderRowsDoNotMatch(r: Resolver, l: Ledger, b: Op, end: seq<Row>, i: nat)
    requires WellFormed(r) && Records(r, l, b) && Evolves(Step(r, l, b).rows, end) && i < |l.rows|
    ensures !(PartOf(r, b, end[i]) && end[i].status == Hold)
    ensures !(PartOf(r, b, end[i]) && end[i].qty == b.qty)
  {
    ConversionsKeepIdentity(r, b.strategy);
    assert Step(r, l, b).rows[i] == l.rows[i];
    if PartOf(r, b, end[i]) {
      assert !Selects(r, ByStrategy(ToId(r, b.strategy), b.code), l.rows[i]);
      assert end[i] == l.rows[i];
      assert !IsSameBuy(r, ToId(r, b.strategy), b.code, b.purchase.date, b.purchase.price, b.qty, l.rows[i]);
    }
  }

  /** The rows by which the guard recognises a recorded purchase later on. */
  lemma GuardMatches(r: Resolver, l: Ledger, b: Op, end: seq<Row>, i: nat)
    requires WellFormed(r) && Records(r, l, b) && Evolves(Step(r, l, b).rows, end) && i < |end|
    ensures IsSameBuy(r, ToId(r, b.strategy), b.code, b.purchase.date, b.purchase.price, b.qty, end[i])
       <==> i >= |l.rows| && PartOf(r, b, end[i]) && end[i].qty == b.qty
    ensures i == |l.rows| ==> PartOf(r, b, end[i])
  {
    ConversionsKeepIdentity(r, b.strategy);
    if i < |l.rows| { OlderRowsDoNotMatch(r, l, b, end, i); }
    if i == |l.rows| { FilterIsIdentity(r, b.strategy, end[i].strategy); }
  }

  /** Within the second of the purchase: replaying it after any run does nothing exactly if its strategy holds the code,
      or the row of the purchase or some later part of it carries the purchased quantity. */
  lemma SameSecondGuardIff(r: Resolver, l: Ledger, b: Op, ops: seq<Op>)
    requires WellFormed(r) && Records(r, l, b)
    ensures var end := Run(r, Step(r, l, b), ops);
            && |end.rows| > |l.rows|
            && (Step(r, end, b) == end <==>
                  || IsHolding(r, b.strategy, b.code, end.rows)
                  || end.rows[|l.rows|].qty == b.qty
                  || exists i :: |l.rows| < i < |end.rows| && PartOf(r, b, end.rows[i]) && end.rows[i].qty == b.qty)
  {
    var end := Run(r, Step(r, l, b), ops);
    RunEvolves(r, Step(r, l, b), ops);
    SameUnderId(r, b.strategy, b.code, end.rows);
    forall i | 0 <= i < |end.rows|
      ensures IsSameBuy(r, ToId(r, b.strategy), b.code, b.purchase.date, b.purchase.price, b.qty, end.rows[i])
         <==> i >= |l.rows| && PartOf(r, b, end.rows[i]) && end.rows[i].qty == b.qty
    {
      GuardMatches(r, l, b, end.rows, i);
    }
    GuardMatches(r, l, b, end.rows, |l.rows|);
  }

  /** For any ledger and any clock reading: a purchase is skipped exactly if its strategy holds the code, or some row of
      that strategy and code that did not fail has that very second, price and quantity. */
  lemma RepeatIsNoopIff(r: Resolver, l: Ledger, b: Op, d: int)
    requires WellFormed(r) && b.LogBuy?
    ensures Step(r, l, At(b, d)) == l <==>
              || IsHolding(r, b.strategy, b.code, l.rows)
              || exists i :: 0 <= i < |l.rows| && PartOf(r, At(b, d), l.rows[i]) && l.rows[i].qty == b.qty
  {
    ConversionsKeepIdentity(r, b.strategy);
    SameUnderId(r, b.strategy, b.code, l.rows);
    forall i | 0 <= i < |l.rows|
      ensures IsSameBuy(r, ToId(r, b.strategy), b.code, d, b.purchase.price, b.qty, l.rows[i])
         <==> PartOf(r, At(b, d), l.rows[i]) && l.rows[i].qty == b.qty
    {
      FilterIsIdentity(r, b.strategy, l.rows[i].strategy);
    }
  }

  /** No row can have come from the purchase `c`. */
  ghost predicate NoPart(r: Resolver, c: Op, rows: seq<Row>)
    requires Injective(r.display) && c.LogBuy?
  {
    forall i :: 0 <= i < |rows| ==> !PartOf(r, c, rows[i])
  }

  /** The operation is not itself a purchase of the strategy and code of `c` at its second and price. */
  predicate NotAgain(r: Resolver, c: Op, op: Op)
    requires Injective(r.display) && c.LogBuy?
  {
    op.LogBuy? ==>
      !(ToId(r, op.strategy) == ToId(r, c.strategy) && op.code == c.code
        && op.purchase.date == c.purchase.date && op.purchase.price == c.purchase.price)
  }

  lemma StepKeepsNoPart(r: Resolver, c: Op, l: Ledger, op: Op)
    requires WellFormed(r) && c.LogBuy? && NoPart(r, c, l.rows) && NotAgain(r, c, op)
    ensures NoPart(r, c, Step(r, l, op).rows)
  {
    var after := Step(r, l, op).rows;
    StepEvolves(r, l, op);
    if op.LogBuy? {
      ConversionsKeepIdentity(r, op.strategy);
      FilterIsIdentity(r, c.strategy, ToId(r, op.strategy));
    }
    forall i | 0 <= i < |after| ensures !PartOf(r, c, after[i]) {
      if i < |l.rows| { assert !PartOf(r, c, l.rows[i]); }
      if i >= |l.rows| && op.LogSell? { assert !PartOf(r, c, l.rows[LatestHold(r, op.sel, l.rows).value]); }
    }
  }

  lemma {:induction false} RunKeepsNoPart(r: Resolver, c: Op, l: Ledger, ops: seq<Op>)
    requires WellFormed(r) && c.LogBuy? && NoPart(r, c, l.rows) && forall i :: 0 <= i < |ops| ==> NotAgain(r, c, ops[i])
    ensures NoPart(r, c, Run(r, l, ops).rows)
  {
    if ops == [] {
    } else {
      RunKeepsNoPart(r, c, l, ops[..|ops| - 1]);
      StepKeepsNoPart(r, c, Run(r, l, ops[..|ops| - 1]), ops[|ops| - 1]);
    }
  }

  ghost predicate DatedUpTo(rows: seq<Row>, d: int) { forall i :: 0 <= i < |rows| ==> rows[i].buy.date <= d }

  /** On a clock that has moved on, the guard knows nothing but holdings: over every run whose rows and purchases are
      all dated before the reading `d`, a purchase is skipped exactly if its strategy holds the code. */
  lemma RepeatOnForwardClockIff(r: Resolver, l: Ledger, ops: seq<Op>, b: Op, d: int)
    requires WellFormed(r) && b.LogBuy? && DatedUpTo(l.rows, d - 1)
    requires forall i :: 0 <= i < |ops| && ops[i].LogBuy? ==> ops[i].purchase.date < d
    ensures var end := Run(r, l, ops);
            Step(r, end, At(b, d)) == end <==> IsHolding(r, b.strategy, b.code, end.rows)
  {
    RunKeepsNoPart(r, At(b, d), l, ops);
    RepeatIsNoopIff(r, Run(r, l, ops), b, d);
  }

  /** After any run, replaying a recorded purchase at a reading `d` does nothing exactly if its strategy holds the
      code; or the second has not changed and the recorded row carries the purchased quantity; or some later row of
      this strategy and code has that second, price and quantity. */
  lemma ReplayGuardSurvivesIff(r: Resolver, l: Ledger, b: Op, ops: seq<Op>, d: int)
    requires WellFormed(r) && Records(r, l, b) && DatedUpTo(l.rows, b.purchase.date) && d >= b.purchase.date
    ensures var end, k := Run(r, Step(r, l, b), ops), |l.rows|;
            && |end.rows| > k
            && (Step(r, end, At(b, d)) == end <==>
                  || IsHolding(r, b.strategy, b.code, end.rows)
                  || (d == b.purchase.date && end.rows[k].qty == b.qty)
                  || exists i :: k < i < |end.rows| && PartOf(r, At(b, d), end.rows[i]) && end.rows[i].qty == b.qty)
  {
    var start, end, k := Step(r, l, b), Run(r, Step(r, l, b), ops), |l.rows|;
    RunEvolves(r, start, ops);
    if d == b.purchase.date {
      assert At(b, d) == b;
      SameSecondGuardIff(r, l, b, ops);
    } else {
      RepeatIsNoopIff(r, end, b, d);
      forall i | 0 <= i <= k ensures !PartOf(r, At(b, d), end.rows[i]) {
        assert end.rows[i].buy == start.rows[i].buy;
      }
    }
  }

  /** No step of the run changed the quantity of the row at `k`, by a split or by an update. */
  predicate QtyUntouched(r: Resolver, l: Ledger, ops: seq<Op>, k: nat)
    requires Injective(r.display)
  {
    ops != [] ==>
      var mid, end := Run(r, l, ops[..|ops| - 1]), Run(r, l, ops);
      && QtyUntouched(r, l, ops[..|ops| - 1], k)
      && (k < |mid.rows| && k < |end.rows| ==> end.rows[k].qty == mid.rows[k].qty)
  }

  lemma {:induction false} UntouchedQtyStays(r: Resolver, l: Ledger, ops: seq<Op>, k: nat)
    requires Injective(r.display) && k < |l.rows| && QtyUntouched(r, l, ops, k)
    ensures |Run(r, l, ops).rows| >= |l.rows| && Run(r, l, ops).rows[k].qty == l.rows[k].qty
  {
    RunEvolves(r, l, ops);
    if ops == [] {
    } else {
      UntouchedQtyStays(r, l, ops[..|ops| - 1], k);
    }
  }

  /** No row dated after the purchase came from a replay of it at `d`. */
  lemma NoLaterPart(r: Resolver, l: Ledger, b: Op, ops: seq<Op>, d: int)
    requires WellFormed(r) && Records(r, l, b) && DatedUpTo(l.rows, b.purchase.date) && d > b.purchase.date
    requires forall i :: 0 <= i < |ops| ==> NotAgain(r, At(b, d), ops[i])
    ensures NoPart(r, At(b, d), Run(r, Step(r, l, b), ops).rows)
  {
    assert NoPart(r, At(b, d), l.rows);
    StepKeepsNoPart(r, At(b, d), l, b);
    RunKeepsNoPart(r, At(b, d), Step(r, l, b), ops);
  }

  /** In every run that never changes the quantity of the recorded row, replaying the purchase does nothing exactly if
      the strategy still holds the code or the second has not changed. */
  lemma UntouchedReplayIsNoopIff(r: Resolver, l: Ledger, b: Op, ops: seq<Op>, d: int)
    requires WellFormed(r) && Records(r, l, b) && DatedUpTo(l.rows, b.purchase.date) && d >= b.purchase.date
    requires QtyUntouched(r, Step(r, l, b), ops, |l.rows|)
    requires d > b.purchase.date ==> forall i :: 0 <= i < |ops| ==> NotAgain(r, At(b, d), ops[i])
    ensures var end := Run(r, Step(r, l, b), ops);
            Step(r, end, At(b, d)) == end <==> IsHolding(r, b.strategy, b.code, end.rows) || d == b.purchase.date
  {
    UntouchedQtyStays(r, Step(r, l, b), ops, |l.rows|);
    ReplayGuardSurvivesIff(r, l, b, ops, d);
    if d > b.purchase.date { NoLaterPart(r, l, b, ops, d); }
  }

  /** The operation is neither a quantity update of the purchase's strategy and code nor another purchase at the same
      date and price. */
  predicate Unrelated(r: Resolver, b: Op, op: Op)
    requires Injective(r.display) && b.LogBuy?
  {
    match op
    case LogBuy(strategy, code, _, purchase) =>
      !(ToId(r, strategy) == ToId(r, b.strategy) && code == b.code
        && purchase.date == b.purchase.date && purchase.price == b.purchase.price)
    case SetQty(strategy, code, _) => !(ToId(r, strategy) == ToId(r, b.strategy) && code == b.code)
    case _ => true
  }

  /** Without updates the row at `k` only shrinks, and every later part is smaller than the purchase. */
  ghost predicate Shrinking(r: Resolver, b: Op, k: nat, rows: seq<Row>)
    requires Injective(r.display) && b.LogBuy?
  {
    && k < |rows| && PartOf(r, b, rows[k]) && rows[k].qty <= b.qty
    && (forall i :: 0 <= i < k && PartOf(r, b, rows[i]) ==> rows[i].status != Hold)
    && (forall i :: k < i < |rows| && PartOf(r, b, rows[i]) ==> rows[i].qty < b.qty)
  }

  lemma SettleKeepsShrinking(r: Resolver, b: Op, k: nat, l: Ledger, j: nat, sold: Option<int>, s: Sale)
    requires WellFormed(r) && b.LogBuy? && Shrinking(r, b, k, l.rows) && j < |l.rows| && l.rows[j].status == Hold
    ensures Shrinking(r, b, k, Settle(l, j, sold, s).rows)
  {
    var after := Settle(l, j, sold, s).rows;
    assert forall i :: 0 <= i < |l.rows| ==> (PartOf(r, b, after[i]) <==> PartOf(r, b, l.rows[i]));
    if |after| > |l.rows| {
      assert PartOf(r, b, after[|l.rows|]) <==> PartOf(r, b, l.rows[j]);
    }
  }

  lemma StepKeepsShrinking(r: Resolver, b: Op, k: nat, l: Ledger, op: Op)
    requires WellFormed(r) && b.LogBuy? && Shrinking(r, b, k, l.rows) && Unrelated(r, b, op)
    ensures Shrinking(r, b, k, Step(r, l, op).rows)
    ensures Step(r, l, op).rows[k].qty <= l.rows[k].qty
  {
    match op
    case LogBuy(strategy, code, qty, buy) =>
      ConversionsKeepIdentity(r, strategy);
      FilterIsIdentity(r, b.strategy, ToId(r, strategy));
    case LogSell(sel, sold, s) =>
      var j := LatestHold(r, sel, l.rows);
      if j.Some? { SettleKeepsShrinking(r, b, k, l, j.value, sold, s); }
    case SetQty(strategy, code, qty) =>
      forall i | 0 <= i < |l.rows| && PartOf(r, b, l.rows[i])
        ensures !Selects(r, ByStrategy(strategy, code), l.rows[i])
      {
        FilterIsIdentity(r, strategy, l.rows[i].strategy);
        FilterIsIdentity(r, b.strategy, l.rows[i].strategy);
      }
      var after := Step(r, l, op).rows;
      assert forall i :: 0 <= i < |l.rows| ==> (PartOf(r, b, after[i]) <==> PartOf(r, b, l.rows[i]));
    case LogFailure(_, _, _, _, _, _) =>
  }

  lemma {:induction false} RunKeepsShrinking(r: Resolver, b: Op, k: nat, l: Ledger, ops: seq<Op>)
    requires WellFormed(r) && b.LogBuy? && Shrinking(r, b, k, l.rows)
    requires forall i :: 0 <= i < |ops| ==> Unrelated(r, b, ops[i])
    ensures Shrinking(r, b, k, Run(r, l, ops).rows)
    ensures Run(r, l, ops).rows[k].qty <= l.rows[k].qty
    ensures QtyUntouched(r, l, ops, k) <==> Run(r, l, ops).rows[k].qty == l.rows[k].qty
  {
    if ops == [] {
    } else {
      var prefix := ops[..|ops| - 1];
      RunKeepsShrinking(r, b, k, l, prefix);
      StepKeepsShrinking(r, b, k, Run(r, l, prefix), ops[|ops| - 1]);
    }
  }

  lemma SameSecondIffHeldOrUnsplit(r: Resolver, l: Ledger, b: Op, ops: seq<Op>)
    requires WellFormed(r) && Records(r, l, b)
    requires forall i :: 0 <= i < |ops| ==> Unrelated(r, b, ops[i])
    ensures var start := Step(r, l, b);
            var end := Run(r, start, ops);
            Step(r, end, b) == end <==>
              IsHolding(r, b.strategy, b.code, end.rows) || QtyUntouched(r, start, ops, |l.rows|)
  {
    var start, k := Step(r, l, b), |l.rows|;
    ConversionsKeepIdentity(r, b.strategy);
    FilterIsIdentity(r, b.strategy, start.rows[k].strategy);
    forall i | 0 <= i < k && PartOf(r, b, start.rows[i]) ensures start.rows[i].status != Hold {
      OlderRowsDoNotMatch(r, l, b, start.rows, i);
    }
    RunKeepsShrinking(r, b, k, start, ops);
    SameSecondGuardIff(r, l, b, ops);
  }

  /** Over every run of other operations without quantity updates of the holding: replaying a recorded purchase at a
      reading `d` does nothing exactly if the strategy still holds the code, or the second has not changed and no sale
      ever split the recorded row. */
  lemma ReplayIsNoopIffHeldOrUnsplit(r: Resolver, l: Ledger, b: Op, ops: seq<Op>, d: int)
    requires WellFormed(r) && Records(r, l, b) && DatedUpTo(l.rows, b.purchase.date) && d >= b.purchase.date
    requires forall i :: 0 <= i < |ops| ==> Unrelated(r, b, ops[i]) && NotAgain(r, At(b, d), ops[i])
    ensures var start := Step(r, l, b);
            var end := Run(r, start, ops);
            Step(r, end, At(b, d)) == end <==>
              || IsHolding(r, b.strategy, b.code, end.rows)
              || (d == b.purchase.date && QtyUntouched(r, start, ops, |l.rows|))
  {
    if d == b.purchase.date {
      assert At(b, d) == b;
      SameSecondIffHeldOrUnsplit(r, l, b, ops);
    } else {
      ReplayGuardSurvivesIff(r, l, b, ops, d);
      NoLaterPart(r, l, b, ops, d);
    }
  }

  /** The table after a recorded purchase and one whole sale of its strategy's holding. */
  lemma WholeSaleCloses(r: Resolver, l: Ledger, strategy: Text, code: Text, k: nat, s: Sale)
    requires WellFormed(r) && OneHold(r, l) && k < |l.rows| && Selects(r, ByStrategy(strategy, code), l.rows[k])
    ensures Step(r, l, LogSell(ByStrategy(strategy, code), None, s)) == Settle(l, k, None, s)
    ensures !IsHolding(r, strategy, code, Settle(l, k, None, s).rows)
  {
    SetQtyTouchesAtMostOne(r, l, strategy, code, k, k);
    var after := Settle(l, k, None, s).rows;
    forall i | 0 <= i < |after| && Selects(r, ByStrategy(strategy, code), after[i]) ensures false {
      assert Selects(r, ByStrategy(strategy, code), l.rows[i]);
      SetQtyTouchesAtMostOne(r, l, strategy, code, i, k);
    }
  }

  /** Without any split: a purchase whose quantity is updated to `q` and then sold is recorded a second time by a replay
      unless `q` is the purchased quantity and the second has not changed. */
  lemma UpdatedThenSoldReplay(r: Resolver, l: Ledger, b: Op, q: int, s: Sale, d: int)
    requires WellFormed(r) && OneHold(r, l) && Records(r, l, b) && q > 0
    requires DatedUpTo(l.rows, b.purchase.date) && d >= b.purchase.date
    ensures var updated := Step(r, Step(r, l, b), SetQty(b.strategy, b.code, q));
            var end := Step(r, updated, LogSell(ByStrategy(b.strategy, b.code), None, s));
            Step(r, end, At(b, d)) == end <==> q == b.qty && d == b.purchase.date
  {
    var start, k := Step(r, l, b), |l.rows|;
    StepKeepsOneHold(r, l, b);
    ConversionsKeepIdentity(r, b.strategy);
    FilterIsIdentity(r, b.strategy, start.rows[k].strategy);
    var update := SetQty(b.strategy, b.code, q);
    var updated := Step(r, start, update);
    StepKeepsOneHold(r, start, update);
    assert Selects(r, ByStrategy(b.strategy, b.code), start.rows[k]) && updated.rows[k] == start.rows[k].(qty := q);
    assert Selects(r, ByStrategy(b.strategy, b.code), updated.rows[k]);
    WholeSaleCloses(r, updated, b.strategy, b.code, k, s);
    var sell := LogSell(ByStrategy(b.strategy, b.code), None, s);
    RunOfTwo(r, start, update, sell);
    ReplayGuardSurvivesIff(r, l, b, [update, sell], d);
  }

  lemma RunOfTwo(r: Resolver, l: Ledger, first: Op, second: Op)
    requires Injective(r.display)
    ensures Run(r, l, [first]) == Step(r, l, first)
    ensures Run(r, l, [first, second]) == Step(r, Step(r, l, first), second)
  {
    assert [first, second][..1] == [first] && [first][..0] == [];
    assert Run(r, l, []) == l;
  }

  /** The same with two sales and no update: whatever part is sold first, the replay records the purchase again, even
      within the second. */
  lemma SplitThenSoldReplay(r: Resolver, l: Ledger, b: Op, part: int, s: Sale, t: Sale, d: int)
    requires WellFormed(r) && OneHold(r, l) && Records(r, l, b) && 0 < part < b.qty
    requires DatedUpTo(l.rows, b.purchase.date) && d >= b.purchase.date
    ensures var sel := ByStrategy(b.strategy, b.code);
            var end := Step(r, Step(r, Step(r, l, b), LogSell(sel, Some(part), s)), LogSell(sel, None, t));
            Step(r, end, At(b, d)) != end
  {
    var start, k, sel := Step(r, l, b), |l.rows|, ByStrategy(b.strategy, b.code);
    var first, second := LogSell(sel, Some(part), s), LogSell(sel, None, t);
    StepKeepsOneHold(r, l, b);
    ConversionsKeepIdentity(r, b.strategy);
    FilterIsIdentity(r, b.strategy, start.rows[k].strategy);
    SetQtyTouchesAtMostOne(r, start, b.strategy, b.code, k, k);
    var split := Step(r, start, first);
    StepKeepsOneHold(r, start, first);
    WholeSaleCloses(r, split, b.strategy, b.code, k, t);
    RunOfTwo(r, start, first, second);
    ReplayIsNoopIffHeldOrUnsplit(r, l, b, [first, second], d);
    assert split.rows[k].qty != start.rows[k].qty;
    assert [first, second][..1] == [first];
    assert !QtyUntouched(r, start, [first], k);
  }

  /** And without split or update: bought, sold, and submitted again when the clock has moved, a purchase is recorded a
      second time, quantity and all. */
  lemma SoldThenRepeatedLater(r: Resolver, strategy: Text, code: Text, qty: int, purchase: Purchase, s: Sale,
                              later: int)
    returns (end: Ledger)
    requires WellFormed(r) && later > purchase.date
    ensures var b := LogBuy(strategy, code, qty, purchase);
            end == Step(r, Step(r, Step(r, Ledger([], 1), b), LogSell(ByStrategy(strategy, code), None, s)),
                At(b, later))
    ensures |end.rows| == 2
    ensures end.rows[0].status == Sold && end.rows[0].qty == qty && end.rows[0].buy == purchase
    ensures end.rows[1] == Row(2, ToId(r, strategy), code, purchase.(date := later), qty, OPEN, Hold)
  {
    var l, b := Ledger([], 1), LogBuy(strategy, code, qty, purchase);
    var bought := Step(r, l, b);
    RepeatIsNoopIff(r, l, b, purchase.date);
    assert At(b, purchase.date) == b;
    assert bought.rows == [Row(1, ToId(r, strategy), code, purchase, qty, OPEN, Hold)];
    ConversionsKeepIdentity(r, strategy);
    FilterIsIdentity(r, strategy, ToId(r, strategy));
    WholeSaleCloses(r, bought, strategy, code, 0, s);
    var sold := Step(r, bought, LogSell(ByStrategy(strategy, code), None, s));
    assert sold == Settle(bought, 0, None, s);
    RepeatIsNoopIff(r, sold, b, later);
    end := Step(r, sold, At(b, later));
  }

  /** A table of one holding after an update and a whole sale. */
  lemma UpdatedAndSold(r: Resolver, l: Ledger, strategy: Text, code: Text, q: int, s: Sale) returns (sold: Ledger)
    requires WellFormed(r) && |l.rows| == 1 && Selects(r, ByStrategy(strategy, code), l.rows[0]) && q > 0
    ensures sold == Step(r, Step(r, l, SetQty(strategy, code, q)), LogSell(ByStrategy(strategy, code), None, s))
    ensures sold.nextId == l.nextId && |sold.rows| == 1 && sold.rows[0].status == Sold
    ensures sold.rows[0] == l.rows[0].(qty := q, close := sold.rows[0].close, status := Sold)
    ensures !IsHolding(r, strategy, code, sold.rows)
  {
    var updated := Step(r, l, SetQty(strategy, code, q));
    assert updated.rows == [l.rows[0].(qty := q)];
    WholeSaleCloses(r, updated, strategy, code, 0, s);
    sold := Settle(updated, 0, None, s);
  }

  /** One such table within a second, from nothing: buy 10, correct the quantity to 4, sell everything, replay. */
  lemma PurchaseRecordedTwice(r: Resolver, strategy: Text, code: Text, purchase: Purchase, s: Sale)
    returns (end: Ledger)
    requires WellFormed(r)
    ensures var b := LogBuy(strategy, code, 10, purchase);
            end == Step(r, Step(r, Step(r, Step(r, Ledger([], 1), b), SetQty(strategy, code, 4)),
                                LogSell(ByStrategy(strategy, code), None, s)), b)
    ensures |end.rows| == 2 && end.rows[1] == Row(2, ToId(r, strategy), code, purchase, 10, OPEN, Hold)
    ensures end.rows[0].qty == 4 && end.rows[0].status == Sold && end.rows[0].buy == purchase
  {
    var l, b := Ledger([], 1), LogBuy(strategy, code, 10, purchase);
    var bought := Step(r, l, b);
    RepeatIsNoopIff(r, l, b, purchase.date);
    assert At(b, purchase.date) == b;
    assert bought.rows == [Row(1, ToId(r, strategy), code, purchase, 10, OPEN, Hold)];
    ConversionsKeepIdentity(r, strategy);
    FilterIsIdentity(r, strategy, ToId(r, strategy));
    var sold := UpdatedAndSold(r, bought, strategy, code, 4, s);
    RepeatIsNoopIff(r, sold, b, purchase.date);
    end := Step(r, sold, b);
  }

  // ---- the repository ----

  class VirtualTradeRepository {
    const resolver: Resolver
    var rows: seq<Row>
    var nextId: int

    function Table(): Ledger reads this { Ledger(rows, nextId) }

    ghost predicate Valid()
      reads this
    {
      WellFormed(resolver) && OneHold(resolver, Table())
    }

    constructor (resolver: Resolver, stored: Ledger)
      requires WellFormed(resolver) && OneHold(resolver, stored)
      ensures Valid() && this.resolver == resolver && Table() == stored
    {
      this.resolver := resolver;
      rows, nextId := stored.rows, stored.nextId;
    }

    /** Skips a purchase that is already held or already recorded. */
    method Buy(strategy: Text, code: Text, qty: int, purchase: Purchase)
      requires Valid()
      modifies this
      ensures Valid()
      ensures Table() == Step(resolver, old(Table()), LogBuy(strategy, code, qty, purchase))
      ensures rows != old(rows) ==>
                && |rows| == |old(rows)| + 1 && rows[..|old(rows)|] == old(rows)
                && var row := rows[|old(rows)|];
                   && row.status == Hold && row.code == code && row.qty == qty && row.buy == purchase
                   && ToId(resolver, row.strategy) == ToId(resolver, strategy)
                   && row.close.sellDate == None && row.close.sellPrice == None && row.close.returnRate == 0.0
    {
      StepKeepsOneHold(resolver, Table(), LogBuy(strategy, code, qty, purchase));
      ConversionsKeepIdentity(resolver, strategy);
      var sid := ToId(resolver, strategy);
      if IsHolding(resolver, sid, code, rows) {
        return;
      }
      if HasSameBuy(resolver, sid, code, purchase.date, purchase.price, qty, rows) {
        return;
      }
      rows := rows + [Row(nextId, sid, code, purchase, qty, OPEN, Hold)];
      nextId := nextId + 1;
    }

    method SettleHoldSale(k: nat, sold: Option<int>, s: Sale) returns (filledQty: int)
      requires k < |rows|
      modifies this
      ensures Table() == Settle(old(Table()), k, sold, s)
      ensures filledQty == SettledQty(old(rows)[k].qty, sold)
    {
      var row := rows[k];
      var filled := if sold.None? then row.qty else sold.value;
      if filled <= 0 || filled >= row.qty {
        rows := rows[k := row.(close := Closed(row, s), status := Sold)];
        return if row.qty > 0 then row.qty else filled;
      }
      var soldPart := row.(id := nextId, qty := filled, close := Closed(row, s), status := Sold);
      rows := rows[k := row.(qty := row.qty - filled)] + [soldPart];
      nextId := nextId + 1;
      filledQty := filled;
    }

    /** Sells from the newest open row that is selected; without one, nothing happens. */
    method Sell(sel: Selection, sold: Option<int>, s: Sale) returns (filledQty: int)
      requires Valid()
      modifies this
      ensures Valid()
      ensures Table() == Step(resolver, old(Table()), LogSell(sel, sold, s))
      ensures var k := LatestHold(resolver, sel, old(rows));
              filledQty == if k.None? then 0 else SettledQty(old(rows)[k.value].qty, sold)
    {
      StepKeepsOneHold(resolver, Table(), LogSell(sel, sold, s));
      var k := LatestHold(resolver, sel, rows);
      if k.None? {
        return 0;
      }
      filledQty := SettleHoldSale(k.value, sold, s);
    }

    method UpdateHoldQty(strategy: Text, code: Text, qty: int) returns (updated: bool)
      requires Valid()
      modifies this
      ensures Valid()
      ensures Table() == Step(resolver, old(Table()), SetQty(strategy, code, qty))
      ensures updated <==> qty > 0 && IsHolding(resolver, strategy, code, old(rows))
    {
      StepKeepsOneHold(resolver, Table(), SetQty(strategy, code, qty));
      if qty <= 0 {
        return false;
      }
      updated := IsHolding(resolver, strategy, code, rows);
      rows := Requantified(resolver, rows, strategy, code, qty);
    }

    /** `tag` names the failed action and stands in for a missing strategy. */
    method OrderFailure(strategy: Text, tag: Text, code: Text, qty: int, attempt: Purchase, why: Text)
      requires Valid()
      modifies this
      ensures Valid()
      ensures Table() == Step(resolver, old(Table()), LogFailure(strategy, tag, code, qty, attempt, why))
      ensures |rows| == |old(rows)| + 1 && rows[..|old(rows)|] == old(rows)
      ensures var row := rows[|old(rows)|];
              && row.status == Failed && row.code == code && row.qty == qty && row.close.reason == why
              && (if strategy == EMPTY then row.strategy == tag
                  else ToId(resolver, row.strategy) == ToId(resolver, strategy))
    {
      StepKeepsOneHold(resolver, Table(), LogFailure(strategy, tag, code, qty, attempt, why));
      ConversionsKeepIdentity(resolver, strategy);
      var name := if strategy != EMPTY then ToId(resolver, strategy) else tag;
      rows := rows + [Row(nextId, name, code, attempt, qty, OPEN.(reason := why), Failed)];
      nextId := nextId + 1;
    }
  }
}
