/** The USD trade ledger: lots are bought whole and sold oldest first, splitting at most one lot per sale. */
module OverseasLedger {
  import opened Prelude

  datatype Status = Hold | Sold | Canceled

  /** Where a lot came from; never changes afterwards. */
  datatype Origin = Origin(exchange: Text, buyDate: int, source: Text, orderNo: Text)

  datatype Exit = NoExit | Exit(date: int, price: real, returnRate: real)

  datatype Row = Row(id: int, symbol: Text, origin: Origin, buyPrice: real, qty: int, exit: Exit,
                     status: Status, reason: Text)

  /** Price, time and reason of one sale. */
  datatype Sale = Sale(price: real, date: int, reason: Text)

  datatype Ledger = Ledger(rows: seq<Row>, nextId: int)

  ghost predicate WellFormed(l: Ledger) {
    && (forall i :: 0 <= i < |l.rows| ==> l.rows[i].id < l.nextId)
    && (forall i, j :: 0 <= i < j < |l.rows| ==> l.rows[i].id < l.rows[j].id)
  }

  /** Return in percent after a commission of 0.25% on each side. */
  function CalculateReturn(buyPrice: real, sellPrice: real): real {
    if buyPrice <= 0.0 then 0.0
    else (sellPrice - buyPrice - (buyPrice * 0.0025 + sellPrice * 0.0025)) / buyPrice * 100.0
  }

  predicate IsOpen(r: Row, symbol: Text) { r.symbol == symbol && r.status == Hold }

  function OpenQty(r: Row, symbol: Text): int { if IsOpen(r, symbol) then r.qty else 0 }

  function Settled(r: Row, s: Sale): Row {
    r.(status := Sold, exit := Exit(s.date, s.price, CalculateReturn(r.buyPrice, s.price)), reason := s.reason)
  }

  // ---- what one sale does to the table ----

  /** Units taken from one row when `n` are still to be sold. */
  function Take(r: Row, symbol: Text, n: int): int { if IsOpen(r, symbol) then Min(r.qty, n) else 0 }

  /** The row itself after that: sold off, reduced, or left alone. */
  function Reduced(r: Row, symbol: Text, n: int, s: Sale): Row {
    if !IsOpen(r, symbol) then r
    else if r.qty <= n then Settled(r, s)
    else r.(qty := r.qty - n)
  }

  /** The SOLD row split off it, if it is only reduced. */
  function Split(r: Row, symbol: Text, n: int, s: Sale, id: int): seq<Row> {
    if IsOpen(r, symbol) && r.qty > n then [Settled(r.(id := id, qty := n), s)] else []
  }

  /** The existing rows after selling up to `n` units of `symbol`. */
  function SellRows(rows: seq<Row>, symbol: Text, n: int, s: Sale): seq<Row> {
    if rows == [] || n <= 0 then rows
    else [Reduced(rows[0], symbol, n, s)] + SellRows(rows[1..], symbol, n - Take(rows[0], symbol, n), s)
  }

  /** The SOLD rows it inserts, with the id they get. */
  function SplitRows(rows: seq<Row>, symbol: Text, n: int, s: Sale, id: int): seq<Row> {
    if rows == [] || n <= 0 then []
    else Split(rows[0], symbol, n, s, id) + SplitRows(rows[1..], symbol, n - Take(rows[0], symbol, n), s, id)
  }

  function SoldQty(rows: seq<Row>, symbol: Text, n: int): int {
    if rows == [] || n <= 0 then 0
    else Take(rows[0], symbol, n) + SoldQty(rows[1..], symbol, n - Take(rows[0], symbol, n))
  }

  function HeldQty(rows: seq<Row>, symbol: Text): int {
    if rows == [] then 0 else OpenQty(rows[0], symbol) + HeldQty(rows[1..], symbol)
  }

  /** The open lots, oldest first, add up to `n` somewhere along the way. */
  predicate Reaches(rows: seq<Row>, symbol: Text, n: int) {
    n <= 0 || (rows != [] && Reaches(rows[1..], symbol, n - OpenQty(rows[0], symbol)))
  }

  function OpenRows(rows: seq<Row>, symbol: Text): seq<Row> {
    if rows == [] then []
    else (if IsOpen(rows[0], symbol) then [rows[0]] else []) + OpenRows(rows[1..], symbol)
  }

  // ---- how much is sold ----

  lemma {:induction false} SoldMeaning(rows: seq<Row>, symbol: Text, n: int)
    requires n > 0
    ensures SoldQty(rows, symbol, n) == if Reaches(rows, symbol, n) then n else HeldQty(rows, symbol)
  {
    if rows != [] && Take(rows[0], symbol, n) < n {
      SoldMeaning(rows[1..], symbol, n - Take(rows[0], symbol, n));
    }
  }

  /** A sale sells min(requested, held) exactly when enough is held in all, or the running sum never gets there. */
  lemma SoldIsMinIff(rows: seq<Row>, symbol: Text, n: int)
    requires n > 0
    ensures SoldQty(rows, symbol, n) == Min(n, HeldQty(rows, symbol)) <==>
            HeldQty(rows, symbol) >= n || !Reaches(rows, symbol, n)
  {
    SoldMeaning(rows, symbol, n);
    EnoughReaches(rows, symbol, n);
  }

  lemma {:induction false} EnoughReaches(rows: seq<Row>, symbol: Text, n: int)
    ensures HeldQty(rows, symbol) >= n ==> Reaches(rows, symbol, n)
  {
    if rows != [] && n > 0 {
      EnoughReaches(rows[1..], symbol, n - OpenQty(rows[0], symbol));
    }
  }

  ghost predicate NonNegative(rows: seq<Row>) {
    forall i :: 0 <= i < |rows| ==> rows[i].qty >= 0
  }

  lemma {:induction false} ReachesOnlyIfEnough(rows: seq<Row>, symbol: Text, n: int)
    requires NonNegative(rows) && n > 0
    ensures HeldQty(rows, symbol) >= 0
    ensures Reaches(rows, symbol, n) ==> HeldQty(rows, symbol) >= n
  {
    if rows == [] {
    } else {
      assert rows[0].qty >= 0;
      forall i | 0 <= i < |rows[1..]| ensures rows[1..][i].qty >= 0 { assert rows[1..][i] == rows[i + 1]; }
      var rest := n - OpenQty(rows[0], symbol);
      ReachesOnlyIfEnough(rows[1..], symbol, if rest > 0 then rest else 1);
    }
  }

  /** With no negative lot a sale sells min(requested, held). */
  lemma SoldIsMin(rows: seq<Row>, symbol: Text, n: int)
    requires NonNegative(rows) && n > 0
    ensures SoldQty(rows, symbol, n) == Min(n, HeldQty(rows, symbol))
  {
    ReachesOnlyIfEnough(rows, symbol, n);
    SoldIsMinIff(rows, symbol, n);
  }

  // ---- oldest first ----

  lemma {:induction false} SellRowsLength(rows: seq<Row>, symbol: Text, n: int, s: Sale)
    ensures |SellRows(rows, symbol, n, s)| == |rows|
    ensures forall i :: 0 <= i < |rows| ==> SellRows(rows, symbol, n, s)[i].id == rows[i].id
  {
    if rows != [] && n > 0 {
      SellRowsLength(rows[1..], symbol, n - Take(rows[0], symbol, n), s);
    }
  }

  /** A sale treats the first row by itself and hands the rest what is left. */
  lemma SellRowsCons(rows: seq<Row>, symbol: Text, n: int, s: Sale)
    requires rows != [] && n > 0
    ensures var rest := SellRows(rows[1..], symbol, n - Take(rows[0], symbol, n), s);
            && |rest| == |rows| - 1 && |SellRows(rows, symbol, n, s)| == |rows|
            && SellRows(rows, symbol, n, s)[0] == Reduced(rows[0], symbol, n, s)
            && forall i :: 0 < i < |rows| ==> SellRows(rows, symbol, n, s)[i] == rest[i - 1]
  {
    SellRowsLength(rows[1..], symbol, n - Take(rows[0], symbol, n), s);
  }

  /** Nothing is left for later rows unless the first one is sold off or not open. */
  lemma LeftAfterFirst(r: Row, symbol: Text, n: int, s: Sale)
    ensures IsOpen(r, symbol) && n - Take(r, symbol, n) > 0 ==> Reduced(r, symbol, n, s) == Settled(r, s)
  {
  }

  /** First in, first out: if a lot is touched, every older open lot is sold off completely; rows that
      are not open lots of the symbol never change. */
  lemma {:induction false} OldestFirst(rows: seq<Row>, symbol: Text, n: int, s: Sale, i: int, j: int)
    requires 0 <= i < j < |rows|
    ensures |SellRows(rows, symbol, n, s)| == |rows|
    ensures var after := SellRows(rows, symbol, n, s);
            && (rows[j].symbol != symbol || rows[j].status != Hold ==> after[j] == rows[j])
            && (after[j] != rows[j] && rows[i].symbol == symbol && rows[i].status == Hold ==>
                  after[i] == Settled(rows[i], s))
  {
    if n <= 0 {
    } else {
      var left := n - Take(rows[0], symbol, n);
      SellRowsCons(rows, symbol, n, s);
      LeftAfterFirst(rows[0], symbol, n, s);
      if i > 0 {
        OldestFirst(rows[1..], symbol, left, s, i - 1, j - 1);
      } else if j > 1 {
        OldestFirst(rows[1..], symbol, left, s, 0, j - 1);
      } else if left > 0 {
        SellRowsCons(rows[1..], symbol, left, s);
      }
    }
  }

  /** One row: what is split off it is exactly what it loses. */
  lemma SplitShape(r: Row, symbol: Text, n: int, s: Sale, id: int)
    requires n > 0 && Split(r, symbol, n, s, id) != []
    ensures var split := Split(r, symbol, n, s, id)[0];
            && |Split(r, symbol, n, s, id)| == 1 && IsOpen(r, symbol) && 0 < split.qty < r.qty
            && split == Settled(r.(id := id, qty := split.qty), s)
            && Reduced(r, symbol, n, s) == r.(qty := r.qty - split.qty)
            && n - Take(r, symbol, n) == 0
  {
  }

  /** At most one lot is split, and the inserted row carries exactly what its lot lost. */
  lemma {:induction false} SplitsAtMostOne(rows: seq<Row>, symbol: Text, n: int, s: Sale, id: int) returns (k: int)
    ensures |SplitRows(rows, symbol, n, s, id)| <= 1 && |SellRows(rows, symbol, n, s)| == |rows|
    ensures SplitRows(rows, symbol, n, s, id) != [] ==>
              var split := SplitRows(rows, symbol, n, s, id)[0];
              && 0 <= k < |rows| && IsOpen(rows[k], symbol) && 0 < split.qty < rows[k].qty
              && split == Settled(rows[k].(id := id, qty := split.qty), s)
              && SellRows(rows, symbol, n, s)[k] == rows[k].(qty := rows[k].qty - split.qty)
  {
    k := 0;
    if rows == [] || n <= 0 {
    } else {
      SellRowsCons(rows, symbol, n, s);
      if Split(rows[0], symbol, n, s, id) == [] {
        k := SplitsAtMostOne(rows[1..], symbol, n - Take(rows[0], symbol, n), s, id);
        k := k + 1;
      } else {
        SplitShape(rows[0], symbol, n, s, id);
      }
    }
  }

  // ---- two sales against one ----

  /** The queue of open lots after taking `n` units from its front. */
  function Drain(lots: seq<Row>, n: int): seq<Row> {
    if lots == [] || n <= 0 then lots
    else if lots[0].qty <= n then Drain(lots[1..], n - lots[0].qty)
    else [lots[0].(qty := lots[0].qty - n)] + lots[1..]
  }

  /** A sale is a first-in-first-out drain of the open lots, whatever its price, time or reason. */
  lemma {:induction false} SaleDrains(rows: seq<Row>, symbol: Text, n: int, s: Sale)
    ensures OpenRows(SellRows(rows, symbol, n, s), symbol) == Drain(OpenRows(rows, symbol), n)
  {
    if rows != [] && n > 0 {
      var left := n - Take(rows[0], symbol, n);
      SaleDrains(rows[1..], symbol, left, s);
      OpenCons(Reduced(rows[0], symbol, n, s), SellRows(rows[1..], symbol, left, s), symbol);
      if IsOpen(rows[0], symbol) {
        assert OpenRows(rows, symbol)[1..] == OpenRows(rows[1..], symbol);
      } else {
        assert OpenRows(rows, symbol) == OpenRows(rows[1..], symbol);
      }
    }
  }

  lemma OpenCons(r: Row, rows: seq<Row>, symbol: Text)
    ensures OpenRows([r] + rows, symbol) == (if IsOpen(r, symbol) then [r] else []) + OpenRows(rows, symbol)
  {
    assert ([r] + rows)[1..] == rows;
  }

  lemma {:induction false} DrainTwice(lots: seq<Row>, a: int, b: int)
    requires a >= 0 && b >= 0
    ensures Drain(Drain(lots, a), b) == Drain(lots, a + b)
  {
    if lots != [] && a > 0 {
      if lots[0].qty <= a {
        DrainTwice(lots[1..], a - lots[0].qty, b);
      } else {
        assert ([lots[0].(qty := lots[0].qty - a)] + lots[1..])[1..] == lots[1..];
      }
    }
  }

  /** Selling `a` and then `b` leaves the same open lots as selling `a + b`. */
  lemma SellTwice(rows: seq<Row>, symbol: Text, a: int, b: int, s: Sale, t: Sale, u: Sale)
    requires a >= 0 && b >= 0
    ensures OpenRows(SellRows(SellRows(rows, symbol, a, s), symbol, b, t), symbol)
            == OpenRows(SellRows(rows, symbol, a + b, u), symbol)
  {
    SaleDrains(rows, symbol, a, s);
    SaleDrains(SellRows(rows, symbol, a, s), symbol, b, t);
    SaleDrains(rows, symbol, a + b, u);
    DrainTwice(OpenRows(rows, symbol), a, b);
  }

  // ---- conservation ----

  function QtyWith(rows: seq<Row>, status: Status): int {
    if rows == [] then 0 else (if rows[0].status == status then rows[0].qty else 0) + QtyWith(rows[1..], status)
  }

  function AllQty(rows: seq<Row>): int { QtyWith(rows, Hold) + QtyWith(rows, Sold) + QtyWith(rows, Canceled) }

  lemma {:induction false} QtyAppend(a: seq<Row>, b: seq<Row>, status: Status)
    ensures QtyWith(a + b, status) == QtyWith(a, status) + QtyWith(b, status)
  {
    if a == [] {
      assert a + b == b;
    } else {
      assert (a + b)[1..] == a[1..] + b;
      QtyAppend(a[1..], b, status);
    }
  }

  lemma {:induction false} SaleRowsQty(rows: seq<Row>, symbol: Text, n: int, s: Sale, id: int)
    ensures QtyWith(SellRows(rows, symbol, n, s), Hold) == QtyWith(rows, Hold) - SoldQty(rows, symbol, n)
    ensures QtyWith(SellRows(rows, symbol, n, s), Sold) + QtyWith(SplitRows(rows, symbol, n, s, id), Sold)
            == QtyWith(rows, Sold) + SoldQty(rows, symbol, n)
    ensures QtyWith(SellRows(rows, symbol, n, s), Canceled) == QtyWith(rows, Canceled)
    ensures forall i :: 0 <= i < |SplitRows(rows, symbol, n, s, id)| ==>
              SplitRows(rows, symbol, n, s, id)[i].status == Sold
  {
    if rows != [] && n > 0 {
      var left := n - Take(rows[0], symbol, n);
      SaleRowsQty(rows[1..], symbol, left, s, id);
      assert SellRows(rows, symbol, n, s)[1..] == SellRows(rows[1..], symbol, left, s);
      QtyAppend(Split(rows[0], symbol, n, s, id), SplitRows(rows[1..], symbol, left, s, id), Sold);
    }
  }

  lemma {:induction false} OnlySold(rows: seq<Row>)
    requires forall i :: 0 <= i < |rows| ==> rows[i].status == Sold
    ensures QtyWith(rows, Hold) == 0 && QtyWith(rows, Canceled) == 0
  {
    if rows == [] {
    } else {
      OnlySold(rows[1..]);
    }
  }

  /** What leaves HOLD in a sale arrives in SOLD, and it is the quantity reported as sold. */
  lemma SaleConserves(rows: seq<Row>, symbol: Text, n: int, s: Sale, id: int)
    ensures var after := SellRows(rows, symbol, n, s) + SplitRows(rows, symbol, n, s, id);
            && QtyWith(after, Hold) == QtyWith(rows, Hold) - SoldQty(rows, symbol, n)
            && QtyWith(after, Sold) == QtyWith(rows, Sold) + SoldQty(rows, symbol, n)
            && QtyWith(after, Canceled) == QtyWith(rows, Canceled)
  {
    var kept, split := SellRows(rows, symbol, n, s), SplitRows(rows, symbol, n, s, id);
    SaleRowsQty(rows, symbol, n, s, id);
    OnlySold(split);
    QtyAppend(kept, split, Hold);
    QtyAppend(kept, split, Sold);
    QtyAppend(kept, split, Canceled);
  }

  // ---- the operations as steps on the whole table ----

  datatype Op =
    | Buy(symbol: Text, price: real, qty: int, origin: Origin)
    | SellOp(sellSymbol: Text, requested: Option<int>, sale: Sale)
    | CancelOp(cancelId: int, cancelReason: Text)
    | AdjustOp(adjustId: int, filled: int, adjustReason: Text)

  function Requested(rows: seq<Row>, symbol: Text, requested: Option<int>): int {
    if requested.None? then HeldQty(rows, symbol) else requested.value
  }

  function Bought(l: Ledger, symbol: Text, price: real, qty: int, origin: Origin): Ledger {
    Ledger(l.rows + [Row(l.nextId, symbol, origin, price, qty, NoExit, Hold, EMPTY)], l.nextId + 1)
  }

  function AfterSale(l: Ledger, symbol: Text, n: int, s: Sale): Ledger {
    var split := SplitRows(l.rows, symbol, n, s, l.nextId);
    Ledger(SellRows(l.rows, symbol, n, s) + split, l.nextId + |split|)
  }

  function CancelRow(rows: seq<Row>, id: int, reason: Text): seq<Row> {
    if rows == [] then []
    else if rows[0].id == id && rows[0].status == Hold then [rows[0].(status := Canceled, reason := reason)] + rows[1..]
    else [rows[0]] + CancelRow(rows[1..], id, reason)
  }

  function AdjustRow(rows: seq<Row>, id: int, filled: int, reason: Text): seq<Row> {
    if rows == [] then []
    else if rows[0].id == id && rows[0].status == Hold then [rows[0].(qty := filled, reason := reason)] + rows[1..]
    else [rows[0]] + AdjustRow(rows[1..], id, filled, reason)
  }

  predicate IsHoldOf(r: Row, id: int) { r.id == id && r.status == Hold }

  function HoldWithId(rows: seq<Row>, id: int): (found: Option<Row>)
    ensures found.None? ==> forall i :: 0 <= i < |rows| ==> !IsHoldOf(rows[i], id)
    ensures found.Some? ==> exists i :: 0 <= i < |rows| && IsHoldOf(rows[i], id) && rows[i] == found.value
  {
    if rows == [] then None
    else if rows[0].id == id && rows[0].status == Hold then Some(rows[0])
    else HoldWithId(rows[1..], id)
  }

  function Adjusted(l: Ledger, id: int, filled: int, reason: Text): Ledger {
    var row := HoldWithId(l.rows, id);
    if filled < 0 || row.None? || filled > row.value.qty then l
    else if filled == 0 then l.(rows := CancelRow(l.rows, id, reason))
    else l.(rows := AdjustRow(l.rows, id, filled, reason))
  }

  function Step(l: Ledger, op: Op): Ledger {
    match op
    case Buy(symbol, price, qty, origin) => Bought(l, symbol, price, qty, origin)
    case SellOp(symbol, requested, s) => AfterSale(l, symbol, Requested(l.rows, symbol, requested), s)
    case CancelOp(id, reason) => l.(rows := CancelRow(l.rows, id, reason))
    case AdjustOp(id, filled, reason) => Adjusted(l, id, filled, reason)
  }

  function Run(l: Ledger, ops: seq<Op>): Ledger {
    if ops == [] then l else Step(Run(l, ops[..|ops| - 1]), ops[|ops| - 1])
  }

  /** Two purchases, the second of a negative quantity, which the repository accepts: 1 unit is held in all, and a sale
      of 3 sells 3. */
  lemma NegativeLotOversells(symbol: Text, price: real, origin: Origin, s: Sale) returns (l: Ledger)
    ensures l == Run(Ledger([], 1), [Buy(symbol, price, 3, origin), Buy(symbol, price, -2, origin)])
    ensures HeldQty(l.rows, symbol) == 1 && SoldQty(l.rows, symbol, 3) == 3
    ensures Step(l, SellOp(symbol, Some(3), s)).rows
         == [Settled(l.rows[0], s), Row(2, symbol, origin, price, -2, NoExit, Hold, EMPTY)]
  {
    var first, second := Buy(symbol, price, 3, origin), Buy(symbol, price, -2, origin);
    var lots := [Row(1, symbol, origin, price, 3, NoExit, Hold, EMPTY),
        Row(2, symbol, origin, price, -2, NoExit, Hold, EMPTY)];
    assert [first, second][..1] == [first] && [first][..0] == [];
    assert Run(Ledger([], 1), []) == Ledger([], 1);
    assert Run(Ledger([], 1), [first]) == Ledger([lots[0]], 2);
    l := Run(Ledger([], 1), [first, second]);
    assert l == Ledger(lots, 3);
    assert lots[1..] == [lots[1]] && lots[1..][1..] == [];
    assert HeldQty(lots[1..], symbol) == -2;
    assert Take(lots[0], symbol, 3) == 3;
    assert SellRows(lots[1..], symbol, 0, s) == lots[1..] && SplitRows(lots[1..], symbol, 0, s, 3) == [];
    assert Split(lots[0], symbol, 3, s, 3) == [];
    assert SplitRows(lots, symbol, 3, s, 3) == [];
    assert SellRows(lots, symbol, 3, s) == [Settled(lots[0], s)] + lots[1..];
    assert Requested(lots, symbol, Some(3)) == 3;
    assert Step(l, SellOp(symbol, Some(3), s)) == AfterSale(l, symbol, 3, s);
  }

  /** Units an adjustment strikes off its lot. */
  function Removed(l: Ledger, op: Op): int {
    if op.AdjustOp? && HoldWithId(l.rows, op.adjustId).Some? &&
        0 < op.filled <= HoldWithId(l.rows, op.adjustId).value.qty
    then HoldWithId(l.rows, op.adjustId).value.qty - op.filled else 0
  }

  function TotalRemoved(l: Ledger, ops: seq<Op>): int {
    if ops == [] then 0
    else TotalRemoved(l, ops[..|ops| - 1]) + Removed(Run(l, ops[..|ops| - 1]), ops[|ops| - 1])
  }

  function TotalBought(ops: seq<Op>): int {
    if ops == [] then 0
    else TotalBought(ops[..|ops| - 1]) + if ops[|ops| - 1].Buy? then ops[|ops| - 1].qty else 0
  }

  lemma {:induction false} CancelConserves(rows: seq<Row>, id: int, reason: Text)
    ensures AllQty(CancelRow(rows, id, reason)) == AllQty(rows)
  {
    if rows == [] {
    } else {
      CancelConserves(rows[1..], id, reason);
      assert CancelRow(rows, id, reason)[1..] ==
             if rows[0].id == id && rows[0].status == Hold then rows[1..] else CancelRow(rows[1..], id, reason);
    }
  }

  lemma {:induction false} AdjustMeaning(rows: seq<Row>, id: int, filled: int, reason: Text)
    requires HoldWithId(rows, id).Some?
    ensures AllQty(AdjustRow(rows, id, filled, reason)) == AllQty(rows) - (HoldWithId(rows, id).value.qty - filled)
  {
    if rows[0].id == id && rows[0].status == Hold {
      assert AdjustRow(rows, id, filled, reason)[1..] == rows[1..];
    } else {
      AdjustMeaning(rows[1..], id, filled, reason);
      assert AdjustRow(rows, id, filled, reason)[1..] == AdjustRow(rows[1..], id, filled, reason);
    }
  }

  lemma StepConserves(l: Ledger, op: Op)
    ensures AllQty(Step(l, op).rows) + Removed(l, op) == AllQty(l.rows) + if op.Buy? then op.qty else 0
    ensures Removed(l, op) >= 0
  {
    match op
    case Buy(_, _, qty, _) =>
      var added := [Step(l, op).rows[|l.rows|]];
      QtyAppend(l.rows, added, Hold);
      QtyAppend(l.rows, added, Sold);
      QtyAppend(l.rows, added, Canceled);
    case SellOp(symbol, requested, s) =>
      SaleConserves(l.rows, symbol, Requested(l.rows, symbol, requested), s, l.nextId);
    case CancelOp(id, reason) => CancelConserves(l.rows, id, reason);
    case AdjustOp(id, filled, reason) =>
      CancelConserves(l.rows, id, reason);
      if HoldWithId(l.rows, id).Some? { AdjustMeaning(l.rows, id, filled, reason); }
  }

  /** Over any run: what was bought is held, sold, canceled, or was struck off by an adjustment,
      and no adjustment ever added anything. */
  lemma {:induction false} RunConserves(l: Ledger, ops: seq<Op>)
    ensures var end := Run(l, ops).rows;
            QtyWith(end, Hold) + QtyWith(end, Sold) + QtyWith(end, Canceled) + TotalRemoved(l, ops)
            == AllQty(l.rows) + TotalBought(ops)
    ensures TotalRemoved(l, ops) >= 0
  {
    if ops == [] {
    } else {
      RunConserves(l, ops[..|ops| - 1]);
      StepConserves(Run(l, ops[..|ops| - 1]), ops[|ops| - 1]);
    }
  }

  lemma {:induction false} HeldAfterSale(rows: seq<Row>, symbol: Text, n: int, s: Sale)
    ensures HeldQty(SellRows(rows, symbol, n, s), symbol) == HeldQty(rows, symbol) - SoldQty(rows, symbol, n)
  {
    if rows != [] && n > 0 {
      var left := n - Take(rows[0], symbol, n);
      HeldAfterSale(rows[1..], symbol, left, s);
      assert SellRows(rows, symbol, n, s)[1..] == SellRows(rows[1..], symbol, left, s);
    }
  }

  lemma {:induction false} HeldOfBoth(a: seq<Row>, b: seq<Row>, symbol: Text)
    ensures HeldQty(a + b, symbol) == HeldQty(a, symbol) + HeldQty(b, symbol)
  {
    if a == [] {
      assert a + b == b;
    } else {
      assert (a + b)[1..] == a[1..] + b;
      HeldOfBoth(a[1..], b, symbol);
    }
  }

  /** A purchase is held: the held quantity of its symbol grows by it, that of any other symbol stays; and the new row
      has its price and origin. */
  lemma PurchaseIsHeld(l: Ledger, symbol: Text, price: real, qty: int, origin: Origin, other: Text)
    ensures var after := Step(l, Buy(symbol, price, qty, origin)).rows;
            && HeldQty(after, other) == HeldQty(l.rows, other) + (if other == symbol then qty else 0)
            && |after| == |l.rows| + 1 && after[..|l.rows|] == l.rows
            && after[|l.rows|].symbol == symbol && after[|l.rows|].origin == origin
            && after[|l.rows|].buyPrice == price && after[|l.rows|].exit == NoExit
  {
    var after := Step(l, Buy(symbol, price, qty, origin)).rows;
    HeldOfBoth(l.rows, [after[|l.rows|]], other);
    HeldOfOne(after[|l.rows|], other);
  }

  lemma HeldOfOne(r: Row, symbol: Text)
    ensures HeldQty([r], symbol) == if r.symbol == symbol && r.status == Hold then r.qty else 0
  {
    assert [r][1..] == [];
    assert HeldQty([], symbol) == 0;
  }

  /** Held before a sale is sold plus held after it; and with no negative lot a sale without a quantity sells
      everything. */
  lemma SaleEmptiesHolding(l: Ledger, symbol: Text, requested: Option<int>, s: Sale)
    ensures var n, after := Requested(l.rows, symbol, requested), Step(l, SellOp(symbol, requested, s)).rows;
            && HeldQty(after, symbol) + SoldQty(l.rows, symbol, n) == HeldQty(l.rows, symbol)
            && (requested.None? && NonNegative(l.rows) ==> HeldQty(after, symbol) == 0)
            && (requested.Some? && NonNegative(l.rows) ==>
                  HeldQty(after, symbol) == Max(0, HeldQty(l.rows, symbol) - Max(0, requested.value)))
  {
    var n := Requested(l.rows, symbol, requested);
    var kept, split := SellRows(l.rows, symbol, n, s), SplitRows(l.rows, symbol, n, s, l.nextId);
    HeldAfterSale(l.rows, symbol, n, s);
    HeldOfBoth(kept, split, symbol);
    SaleRowsQty(l.rows, symbol, n, s, l.nextId);
    NothingHeldIn(split, symbol);
    if NonNegative(l.rows) {
      ReachesOnlyIfEnough(l.rows, symbol, 1);
      if n > 0 { SoldIsMin(l.rows, symbol, n); }
    }
  }

  lemma {:induction false} NothingHeldIn(rows: seq<Row>, symbol: Text)
    requires forall i :: 0 <= i < |rows| ==> rows[i].status == Sold
    ensures HeldQty(rows, symbol) == 0
  {
    if rows == [] {
    } else {
      NothingHeldIn(rows[1..], symbol);
    }
  }

  lemma SaleKeepsIds(l: Ledger, symbol: Text, n: int, s: Sale)
    requires WellFormed(l)
    ensures WellFormed(AfterSale(l, symbol, n, s))
  {
    SellRowsLength(l.rows, symbol, n, s);
    var k := SplitsAtMostOne(l.rows, symbol, n, s, l.nextId);
  }

  /** What the sale loop has accumulated. */
  datatype Progress = Progress(left: int, updated: seq<Row>, inserted: seq<Row>, soldQty: int)

  /** One turn of the loop, on one row. */
  function Advance(p: Progress, r: Row, symbol: Text, s: Sale, id: int): Progress {
    if p.left > 0 && IsOpen(r, symbol) then
      var take := Min(r.qty, p.left);
      if take == r.qty then Progress(p.left - take, p.updated + [Settled(r, s)], p.inserted, p.soldQty + take)
      else Progress(p.left - take, p.updated + [r.(qty := r.qty - take)],
                    p.inserted + [Settled(r.(id := id, qty := take), s)], p.soldQty + take)
    else p.(updated := p.updated + [r])
  }

  function Process(rows: seq<Row>, symbol: Text, n: int, s: Sale, id: int): Progress {
    if rows == [] then Progress(n, [], [], 0)
    else Advance(Process(rows[..|rows| - 1], symbol, n, s, id), rows[|rows| - 1], symbol, s, id)
  }

  lemma AdvanceMeaning(p: Progress, r: Row, rest: seq<Row>, symbol: Text, s: Sale, id: int)
    ensures var q := Advance(p, r, symbol, s, id);
            && p.updated + SellRows([r] + rest, symbol, p.left, s) == q.updated + SellRows(rest, symbol, q.left, s)
            && p.inserted + SplitRows([r] + rest, symbol, p.left, s, id) ==
                  q.inserted + SplitRows(rest, symbol, q.left, s, id)
            && p.soldQty + SoldQty([r] + rest, symbol, p.left) == q.soldQty + SoldQty(rest, symbol, q.left)
  {
    var q := Advance(p, r, symbol, s, id);
    assert ([r] + rest)[1..] == rest;
    if p.left > 0 {
      assert p.updated + ([Reduced(r, symbol, p.left, s)] + SellRows(rest, symbol, q.left, s)) ==
             p.updated + [Reduced(r, symbol, p.left, s)] + SellRows(rest, symbol, q.left, s);
      assert p.inserted + (Split(r, symbol, p.left, s, id) + SplitRows(rest, symbol, q.left, s, id)) ==
             p.inserted + Split(r, symbol, p.left, s, id) + SplitRows(rest, symbol, q.left, s, id);
    } else {
      assert p.updated + ([r] + rest) == p.updated + [r] + rest;
    }
  }

  /** What has been accumulated, completed by the sale of the rows still to come, is the whole sale. */
  ghost predicate Completes(p: Progress, rest: seq<Row>, rows: seq<Row>, symbol: Text, n: int, s: Sale, id: int) {
    && p.updated + SellRows(rest, symbol, p.left, s) == SellRows(rows, symbol, n, s)
    && p.inserted + SplitRows(rest, symbol, p.left, s, id) == SplitRows(rows, symbol, n, s, id)
    && p.soldQty + SoldQty(rest, symbol, p.left) == SoldQty(rows, symbol, n)
  }

  lemma AdvanceCompletes(p: Progress, r: Row, rest: seq<Row>, rows: seq<Row>, symbol: Text, n: int, s: Sale, id: int)
    requires Completes(p, [r] + rest, rows, symbol, n, s, id)
    ensures Completes(Advance(p, r, symbol, s, id), rest, rows, symbol, n, s, id)
  {
    AdvanceMeaning(p, r, rest, symbol, s, id);
  }

  /** The loop computes the sale. */
  lemma {:induction false} ProcessMeaning(rows: seq<Row>, i: nat, symbol: Text, n: int, s: Sale, id: int)
    requires i <= |rows|
    ensures Completes(Process(rows[..i], symbol, n, s, id), rows[i..], rows, symbol, n, s, id)
  {
    if i == 0 {
      assert rows[0..] == rows;
    } else {
      ProcessMeaning(rows, i - 1, symbol, n, s, id);
      assert rows[..i][..i - 1] == rows[..i - 1];
      assert rows[i - 1..] == [rows[i - 1]] + rows[i..];
      AdvanceCompletes(Process(rows[..i - 1], symbol, n, s, id), rows[i - 1], rows[i..], rows, symbol, n, s, id);
    }
  }

  // ---- what the changed rows say ----

  /** Percentages: a sale at `sell` of a lot bought at `buy`, after a commission of 0.25% on each side. */
  predicate IsNetReturn(rate: real, buy: real, sell: real) {
    if buy <= 0.0 then rate == 0.0 else buy * (100.0 + rate) == 100.0 * sell - 0.25 * (buy + sell)
  }

  lemma ReturnIsNet(buy: real, sell: real)
    ensures IsNetReturn(CalculateReturn(buy, sell), buy, sell)
  {
    if buy > 0.0 {
      var gain := sell - buy - (buy * 0.0025 + sell * 0.0025);
      assert gain / buy * buy == gain;
    }
  }

  /** A lot sold off: date, price, reason and net return of the sale; everything else as in `lot`. */
  predicate IsSaleOf(sold: Row, lot: Row, s: Sale) {
    && sold.status == Sold && sold.reason == s.reason
    && sold.exit.Exit? && sold.exit.date == s.date && sold.exit.price == s.price
    && IsNetReturn(sold.exit.returnRate, lot.buyPrice, s.price)
    && sold.symbol == lot.symbol && sold.origin == lot.origin && sold.buyPrice == lot.buyPrice
  }

  lemma SettledTells(r: Row, s: Sale)
    ensures IsSaleOf(Settled(r, s), r, s)
  {
    ReturnIsNet(r.buyPrice, s.price);
  }

  /** Each lot that a sale takes from is either sold off whole, under its own id, or only reduced; and a row split off
      is a sale of one of the reduced lots. */
  lemma {:induction false} SaleTells(rows: seq<Row>, symbol: Text, n: int, s: Sale, id: int, i: nat)
    requires i < |rows| == |SellRows(rows, symbol, n, s)|
    ensures var before, after := rows[i], SellRows(rows, symbol, n, s)[i];
            || after == before
            || (before.symbol == symbol && before.status == Hold
                && ((IsSaleOf(after, before, s) && after.qty == before.qty && after.id == before.id)
                    || (after == before.(qty := after.qty) && |SplitRows(rows, symbol, n, s, id)| == 1
                        && var split := SplitRows(rows, symbol, n, s, id)[0];
                           IsSaleOf(split, before, s) && split.qty == before.qty - after.qty && split.id == id)))
  {
    if n > 0 {
      var left := n - Take(rows[0], symbol, n);
      SellRowsCons(rows, symbol, n, s);
      SettledTells(rows[0], s);
      SettledTells(rows[0].(id := id, qty := n), s);
      if i > 0 {
        SaleTells(rows[1..], symbol, left, s, id, i - 1);
      } else if Split(rows[0], symbol, n, s, id) != [] {
        assert SplitRows(rows[1..], symbol, left, s, id) == [];
      }
    }
  }

  /** The open lots a sale takes from, as they were before. */
  function Touched(rows: seq<Row>, symbol: Text, n: int): seq<Row> {
    if rows == [] || n <= 0 then []
    else (if IsOpen(rows[0], symbol) then [rows[0]] else [])
         + Touched(rows[1..], symbol, n - Take(rows[0], symbol, n))
  }

  /** They are the first open lots, so many that one fewer would not have been enough. */
  lemma {:induction false} TouchedMeaning(rows: seq<Row>, symbol: Text, n: int)
    ensures var touched, open := Touched(rows, symbol, n), OpenRows(rows, symbol);
            && |touched| <= |open| && touched == open[..|touched|]
            && (touched != [] ==> !Reaches(touched[..|touched| - 1], symbol, n))
            && (|touched| < |open| ==> Reaches(touched, symbol, n))
  {
    if rows != [] && n > 0 {
      var r, left := rows[0], n - Take(rows[0], symbol, n);
      var later := Touched(rows[1..], symbol, left);
      TouchedMeaning(rows[1..], symbol, left);
      if IsOpen(r, symbol) {
        ReachesCons(r, later, symbol, n);
        if later != [] {
          ReachesCons(r, later[..|later| - 1], symbol, n);
          assert ([r] + later)[..|later|] == [r] + later[..|later| - 1];
        }
      } else {
        assert Touched(rows, symbol, n) == later && OpenRows(rows, symbol) == OpenRows(rows[1..], symbol);
      }
    }
  }

  lemma ReachesCons(r: Row, rows: seq<Row>, symbol: Text, n: int)
    requires n > 0
    ensures Reaches([r] + rows, symbol, n) == Reaches(rows, symbol, n - OpenQty(r, symbol))
  {
    assert ([r] + rows)[1..] == rows;
  }

  /** One turn of the loop: what it has touched, and what is still to be touched. */
  lemma TouchedTurn(touched: seq<Row>, rows: seq<Row>, i: nat, symbol: Text, n: int)
    requires i < |rows|
    ensures touched + Touched(rows[i..], symbol, n) ==
            if n > 0 && IsOpen(rows[i], symbol)
            then touched + [rows[i]] + Touched(rows[i + 1..], symbol, n - Min(rows[i].qty, n))
            else touched + Touched(rows[i + 1..], symbol, n)
  {
    assert rows[i..][1..] == rows[i + 1..];
    if n > 0 && IsOpen(rows[i], symbol) {
      var later := Touched(rows[i + 1..], symbol, n - Min(rows[i].qty, n));
      assert touched + ([rows[i]] + later) == touched + [rows[i]] + later;
    }
  }

  lemma ReturnsSnoc(rates: seq<real>, lots: seq<Row>, lot: Row, price: real)
    requires AreReturnsOf(rates, lots, price)
    ensures AreReturnsOf(rates + [CalculateReturn(lot.buyPrice, price)], lots + [lot], price)
  {
    ReturnIsNet(lot.buyPrice, price);
  }

  /** One net return per lot, in the order of the lots. */
  predicate AreReturnsOf(rates: seq<real>, lots: seq<Row>, price: real) {
    |rates| == |lots| && forall k :: 0 <= k < |lots| ==> IsNetReturn(rates[k], lots[k].buyPrice, price)
  }

  /** Exactly the open row with this id, if there is one, became `CANCELED` for the given reason. */
  ghost predicate OnlyCanceled(before: seq<Row>, after: seq<Row>, id: int, reason: Text) {
    |after| == |before| && forall i :: 0 <= i < |before| ==>
      after[i] == if before[i].id == id && before[i].status == Hold
                  then before[i].(status := Canceled, reason := reason) else before[i]
  }

  /** Exactly the open row with this id, if there is one, now has the filled quantity. */
  ghost predicate OnlyAdjusted(before: seq<Row>, after: seq<Row>, id: int, filled: int, reason: Text) {
    |after| == |before| && forall i :: 0 <= i < |before| ==>
      after[i] == if before[i].id == id && before[i].status == Hold
                  then before[i].(qty := filled, reason := reason) else before[i]
  }

  ghost predicate DistinctIds(rows: seq<Row>) { forall i, j :: 0 <= i < j < |rows| ==> rows[i].id != rows[j].id }

  lemma {:induction false} CancelChangesOne(rows: seq<Row>, id: int, reason: Text)
    requires DistinctIds(rows)
    ensures OnlyCanceled(rows, CancelRow(rows, id, reason), id, reason)
  {
    if rows == [] {
    } else {
      CancelChangesOne(rows[1..], id, reason);
      assert forall i :: 0 < i < |rows| ==> rows[i] == rows[1..][i - 1];
    }
  }

  lemma {:induction false} AdjustChangesOne(rows: seq<Row>, id: int, filled: int, reason: Text)
    requires DistinctIds(rows)
    ensures OnlyAdjusted(rows, AdjustRow(rows, id, filled, reason), id, filled, reason)
  {
    if rows == [] {
    } else {
      AdjustChangesOne(rows[1..], id, filled, reason);
      assert forall i :: 0 < i < |rows| ==> rows[i] == rows[1..][i - 1];
    }
  }

  // ---- the methods ----

  datatype SellResult = SellResult(soldQty: int, rates: seq<real>)

  /** The loop over the lots, oldest first. */
  method SellLots(rows: seq<Row>, symbol: Text, n: int, s: Sale, id: int)
    returns (updated: seq<Row>, inserted: seq<Row>, soldQty: int, rates: seq<real>)
    ensures updated == SellRows(rows, symbol, n, s)
    ensures inserted == SplitRows(rows, symbol, n, s, id)
    ensures soldQty == SoldQty(rows, symbol, n)
    ensures AreReturnsOf(rates, Touched(rows, symbol, n), s.price)
  {
    var remaining := n;
    updated, inserted, soldQty, rates := [], [], 0, [];
    ghost var touched: seq<Row> := [];
    assert rows[0..] == rows;
    for i := 0 to |rows|
      invariant Process(rows[..i], symbol, n, s, id) == Progress(remaining, updated, inserted, soldQty)
      invariant touched + Touched(rows[i..], symbol, remaining) == Touched(rows, symbol, n)
      invariant AreReturnsOf(rates, touched, s.price)
    {
      var row := rows[i];
      TouchedTurn(touched, rows, i, symbol, remaining);
      assert rows[..i + 1][..i] == rows[..i];
      if remaining > 0 && IsOpen(row, symbol) {
        var take := Min(row.qty, remaining);
        if take == row.qty {
          updated := updated + [Settled(row, s)];
        } else {
          updated := updated + [row.(qty := row.qty - take)];
          inserted := inserted + [Settled(row.(id := id, qty := take), s)];
        }
        soldQty := soldQty + take;
        remaining := remaining - take;
        ReturnsSnoc(rates, touched, row, s.price);
        rates := rates + [CalculateReturn(row.buyPrice, s.price)];
        touched := touched + [row];
      } else {
        updated := updated + [row];
      }
    }
    ProcessMeaning(rows, |rows|, symbol, n, s, id);
    assert rows[..|rows|] == rows && rows[|rows|..] == [];
  }

  lemma {:induction false} CancelKeepsIds(rows: seq<Row>, id: int, reason: Text)
    ensures |CancelRow(rows, id, reason)| == |rows|
    ensures forall i :: 0 <= i < |rows| ==> CancelRow(rows, id, reason)[i].id == rows[i].id
  {
    if rows == [] {
    } else {
      CancelKeepsIds(rows[1..], id, reason);
    }
  }

  lemma {:induction false} AdjustKeepsIds(rows: seq<Row>, id: int, filled: int, reason: Text)
    ensures |AdjustRow(rows, id, filled, reason)| == |rows|
    ensures forall i :: 0 <= i < |rows| ==> AdjustRow(rows, id, filled, reason)[i].id == rows[i].id
  {
    if rows == [] {
    } else {
      AdjustKeepsIds(rows[1..], id, filled, reason);
    }
  }

  class OverseasTradeRepository {
    var rows: seq<Row>
    var nextId: int

    function Table(): Ledger reads this { Ledger(rows, nextId) }

    constructor ()
      ensures Table() == Ledger([], 1) && WellFormed(Table())
    {
      rows, nextId := [], 1;
    }

    method LogBuy(symbol: Text, exchange: Text, price: real, qty: int, date: int, source: Text, orderNo: Text)
      requires WellFormed(Table())
      modifies this
      ensures WellFormed(Table())
      ensures Table() == Step(old(Table()), Buy(symbol, price, qty, Origin(exchange, date, source, orderNo)))
    {
      rows := rows + [Row(nextId, symbol, Origin(exchange, date, source, orderNo), price, qty, NoExit, Hold, EMPTY)];
      nextId := nextId + 1;
    }

    /** Oldest lots first; the reported quantity is what left HOLD. */
    method LogSell(symbol: Text, price: real, qty: Option<int>, reason: Text, date: int) returns (result: SellResult)
      requires WellFormed(Table())
      modifies this
      ensures WellFormed(Table())
      ensures Table() == Step(old(Table()), SellOp(symbol, qty, Sale(price, date, reason)))
      ensures var n := Requested(old(rows), symbol, qty);
              result.soldQty == SoldQty(old(rows), symbol, n)
              && AreReturnsOf(result.rates, Touched(old(rows), symbol, n), price)
    {
      var held := HeldQty(rows, symbol);
      var remaining := if qty.None? then held else qty.value;
      var s := Sale(price, date, reason);
      result := SellResult(0, []);
      SaleKeepsIds(Table(), symbol, remaining, s);
      if remaining <= 0 {
        assert rows + [] == rows;
        return;
      }
      var updated, inserted, soldQty, rates := SellLots(rows, symbol, remaining, s, nextId);
      rows := updated + inserted;
      nextId := nextId + |inserted|;
      result := SellResult(soldQty, rates);
    }

    /** Only a HOLD row can be canceled. */
    method MarkCanceled(id: int, reason: Text) returns (ok: bool)
      requires WellFormed(Table())
      modifies this
      ensures WellFormed(Table())
      ensures Table() == Step(old(Table()), CancelOp(id, reason))
      ensures ok <==> exists i :: 0 <= i < |old(rows)| && IsHoldOf(old(rows)[i], id)
      ensures OnlyCanceled(old(rows), rows, id, reason) && nextId == old(nextId)
    {
      CancelChangesOne(rows, id, reason);
      ok := HoldWithId(rows, id).Some?;
      CancelKeepsIds(rows, id, reason);
      rows := CancelRow(rows, id, reason);
    }

    /** Shrinks a HOLD lot to what was filled; refuses to grow it. */
    method AdjustQty(id: int, filled: int, reason: Text) returns (ok: bool)
      requires WellFormed(Table())
      modifies this
      ensures WellFormed(Table())
      ensures Table() == Step(old(Table()), AdjustOp(id, filled, reason))
      ensures ok <==> exists i :: 0 <= i < |old(rows)| && IsHoldOf(old(rows)[i], id) && 0 <= filled <= old(rows)[i].qty
      ensures nextId == old(nextId) && if !ok then rows == old(rows)
              else if filled == 0 then OnlyCanceled(old(rows), rows, id, reason)
              else OnlyAdjusted(old(rows), rows, id, filled, reason)
    {
      AdjustChangesOne(rows, id, filled, reason);
      if filled < 0 {
        return false;
      }
      var row := HoldWithId(rows, id);
      if row.None? || filled > row.value.qty {
        return false;
      }
      if filled == 0 {
        ok := MarkCanceled(id, reason);
        return;
      }
      CancelKeepsIds(rows, id, reason);
      AdjustKeepsIds(rows, id, filled, reason);
      rows := AdjustRow(rows, id, filled, reason);
      ok := true;
    }
  }
}
