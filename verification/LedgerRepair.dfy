/** Repair of partial sales that were recorded as full ones. */
module LedgerRepair {
  import opened Prelude
  import opened StrategyIdentity
  import opened VirtualLedger

  datatype Refusal = NotSold | NothingFilled | NotPartial

  /** The checks before a repair; on success the recorded quantity. */
  function Validate(row: Row, filled: int): Result<int, Refusal> {
    if row.status != Sold then Failure(NotSold)
    else if filled <= 0 then Failure(NothingFilled)
    else if filled >= row.qty then Failure(NotPartial)
    else Success(row.qty)
  }

  /** Copies the row with the quantity that was really filled, then reopens the original with the rest. */
  function Repaired(l: Ledger, k: nat, filled: int, held: int): Ledger
    requires k < |l.rows|
  {
    var row := l.rows[k];
    Ledger(l.rows[k := row.(qty := held - filled, status := Hold, close := OPEN)] +
        [row.(id := l.nextId, qty := filled)],
           l.nextId + 1)
  }

  /** A repair is accepted exactly for a sold row of which some units, but not all, were filled; otherwise the first of
      these that fails is reported: not sold, nothing filled, not partial. An accepted one gives both parts a positive
      quantity, and together they have the recorded one. */
  lemma RepairAcceptedIff(l: Ledger, k: nat, filled: int)
    requires k < |l.rows|
    ensures var row, checked := l.rows[k], Validate(l.rows[k], filled);
            && (checked == Success(row.qty) <==> row.status == Sold && 0 < filled < row.qty)
            && (checked == Failure(NotSold) <==> row.status == Hold || row.status == VirtualLedger.Failed)
            && (checked == Failure(NothingFilled) <==> row.status == Sold && filled <= 0)
            && (checked == Failure(NotPartial) <==> row.status == Sold && filled > 0 && row.qty <= filled)
            && (checked.Success? ==>
                  var after := Repaired(l, k, filled, checked.value).rows;
                  && |after| == |l.rows| + 1 && after[k].status == Hold && after[|l.rows|].status == Sold
                  && after[k].qty > 0 && after[|l.rows|].qty == filled > 0
                  && after[k].qty + after[|l.rows|].qty == row.qty
                  && after[|l.rows|].close == row.close && after[k].close == OPEN)
  {
  }

  method Apply(l: Ledger, k: nat, filled: int, held: int) returns (repaired: Ledger, newId: int)
    requires k < |l.rows|
    ensures repaired == Repaired(l, k, filled, held) && newId == l.nextId
  {
    newId := l.nextId;
    repaired := Ledger(l.rows + [l.rows[k].(id := newId, qty := filled)], newId + 1);
    repaired := repaired.(rows := repaired.rows[k := repaired.rows[k].(qty := held - filled, status := Hold,
        close := OPEN)]);
  }

  /** Settling a partial sale in full and then repairing it gives the rows of the correct settlement, exactly
      when the open row had untouched sell columns; and the repair is never refused. */
  lemma RepairIsCorrectSettlementIff(l: Ledger, k: nat, filled: int, s: Sale)
    requires k < |l.rows| && l.rows[k].status == Hold && 0 < filled < l.rows[k].qty
    ensures var wrong := Settle(l, k, None, s);
            && Validate(wrong.rows[k], filled) == Success(l.rows[k].qty)
            && (Repaired(wrong, k, filled, l.rows[k].qty) == Settle(l, k, Some(filled), s) <==> l.rows[k].close == OPEN)
  {
    var wrong := Settle(l, k, None, s);
    var fixed, right := Repaired(wrong, k, filled, l.rows[k].qty), Settle(l, k, Some(filled), s);
    var row := l.rows[k];
    assert fixed.rows[k] == row.(qty := row.qty - filled, close := OPEN);
    assert right.rows[k] == row.(qty := row.qty - filled);
    if row.close == OPEN {
      assert fixed.rows == right.rows;
    }
  }

  /** A repair reopens a row, so it keeps the one-open-row invariant exactly when the strategy is not
      holding the code again already. */
  lemma RepairKeepsOneHoldIff(r: Resolver, l: Ledger, k: nat, filled: int)
    requires WellFormed(r) && OneHold(r, l) && k < |l.rows|
    requires Validate(l.rows[k], filled).Success?
    ensures OneHold(r, Repaired(l, k, filled, l.rows[k].qty)) <==>
            !IsHolding(r, l.rows[k].strategy, l.rows[k].code, l.rows)
  {
    var row := l.rows[k];
    var sel := ByStrategy(row.strategy, row.code);
    var after := Repaired(l, k, filled, row.qty).rows;
    assert forall i :: 0 <= i < |l.rows| && i != k ==> after[i] == l.rows[i];
    var found := LatestHold(r, sel, l.rows);
    if found.Some? {
      var j := found.value;
      FilterIsIdentity(r, row.strategy, l.rows[j].strategy);
      var lo, hi := if j < k then j else k, if j < k then k else j;
      assert after[lo].status == Hold && after[hi].status == Hold && after[lo].code == after[hi].code;
      assert ToId(r, after[lo].strategy) == ToId(r, after[hi].strategy);
    } else {
      forall i | 0 <= i < |l.rows| && l.rows[i].status == Hold && l.rows[i].code == row.code
        ensures ToId(r, l.rows[i].strategy) != ToId(r, row.strategy)
      {
        FilterIsIdentity(r, row.strategy, l.rows[i].strategy);
        assert !Selects(r, sel, l.rows[i]);
      }
    }
  }
}
