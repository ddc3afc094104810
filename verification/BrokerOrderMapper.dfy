/** Classification of broker order-query rows, and its agreement with the order state machine. */
module BrokerOrderMapper {
  import opened Prelude
  import opened OrderFsm

  /** A query row after number parsing. A missing or zero order quantity reads as unknown. */
  datatype QueryRow = QueryRow(ordQty: int, filled: int, remaining: Option<int>,
                               rejected: int, canceled: int, cancelFlag: bool)

  function OrderQty(r: QueryRow): Option<int> {
    if r.ordQty == 0 then None else Some(r.ordQty)
  }

  function Classify(r: QueryRow): OrderState {
    var orderQty := OrderQty(r);
    if r.rejected != 0 && r.filled == 0 && (orderQty.None? || r.rejected >= orderQty.value) then Rejected
    else if r.cancelFlag
      || (r.canceled != 0 && (r.remaining == Some(0) || orderQty.None? ||
          r.filled + r.canceled >= orderQty.value)) then Canceled
    else if orderQty.Some? && r.filled >= orderQty.value then Filled
    else if r.remaining == Some(0) && r.filled > 0 then Filled
    else if r.filled > 0 then PartialFilled
    else Submitted
  }

  /** Units of the order that are neither filled, canceled nor rejected. */
  function Outstanding(r: QueryRow): int { r.ordQty - r.filled - r.canceled - r.rejected }

  /** A truthful row: quantities add up, a reported remainder is right, and the
      cancel flag is set only once nothing remains and something was canceled. */
  predicate Truthful(r: QueryRow) {
    && r.ordQty > 0
    && r.filled >= 0 && r.canceled >= 0 && r.rejected >= 0
    && Outstanding(r) >= 0
    && (r.remaining.Some? ==> r.remaining.value == Outstanding(r))
    && (r.cancelFlag ==> Outstanding(r) == 0 && r.canceled > 0)
  }

  /** Row `b` may follow row `a`: same order, no cumulative quantity goes down. */
  predicate Follows(a: QueryRow, b: QueryRow) {
    a.ordQty == b.ordQty && a.filled <= b.filled && a.canceled <= b.canceled && a.rejected <= b.rejected
  }

  predicate History(rows: seq<QueryRow>) {
    && (forall i :: 0 <= i < |rows| ==> Truthful(rows[i]))
    && (forall i :: 0 <= i < |rows| - 1 ==> Follows(rows[i], rows[i + 1]))
  }

  function UpdateOf(r: QueryRow): Update {
    Update(Classify(r), Some(r.filled), None, 0, None)
  }

  function Updates(rows: seq<QueryRow>): (us: seq<Update>)
    ensures |us| == |rows|
    ensures forall i :: 0 <= i < |rows| ==> us[i] == UpdateOf(rows[i])
  {
    seq(|rows|, i requires 0 <= i < |rows| => UpdateOf(rows[i]))
  }

  /** What the classification means on a truthful row that reports its remainder:
      no branch order matters, the quantities alone decide. */
  lemma ClassifyMeaning(r: QueryRow)
    requires Truthful(r) && r.remaining.Some?
    ensures Classify(r) == Rejected <==> r.rejected == r.ordQty
    ensures Classify(r) == Canceled <==> Outstanding(r) == 0 && r.canceled > 0
    ensures Classify(r) == Filled <==> Outstanding(r) == 0 && r.canceled == 0 && r.filled > 0
    ensures Classify(r) == PartialFilled <==> Outstanding(r) > 0 && r.filled > 0
    ensures Classify(r) == Submitted <==> Outstanding(r) > 0 && r.filled == 0
  {
  }

  /** What it means on a truthful row that does not report the remainder: a part that was rejected is not noticed. */
  lemma ClassifyUnreported(r: QueryRow)
    requires Truthful(r) && r.remaining.None?
    ensures Classify(r) == Rejected <==> r.rejected == r.ordQty
    ensures Classify(r) == Canceled <==> r.cancelFlag || (r.canceled > 0 && r.filled + r.canceled == r.ordQty)
    ensures Classify(r) == Filled <==> r.filled == r.ordQty
    ensures Classify(r) == PartialFilled <==>
              !r.cancelFlag && 0 < r.filled < r.ordQty && r.filled + r.canceled < r.ordQty
    ensures Classify(r) == Submitted <==>
              !r.cancelFlag && r.filled == 0 && r.rejected < r.ordQty && r.canceled < r.ordQty
  {
  }

  /** On a row that does not tell the order quantity: any rejection of an unfilled order is final, so is any
      cancellation, and an order is filled only if the row says that nothing remains. */
  lemma ClassifyUnknownQty(r: QueryRow)
    requires r.ordQty == 0 && r.filled >= 0 && r.canceled >= 0 && r.rejected >= 0
    ensures Classify(r) == Rejected <==> r.rejected > 0 && r.filled == 0
    ensures Classify(r) == Canceled <==> (r.cancelFlag || r.canceled > 0) && (r.rejected == 0 || r.filled > 0)
    ensures Classify(r) == Filled <==> !r.cancelFlag && r.canceled == 0 && r.filled > 0 && r.remaining == Some(0)
    ensures Classify(r) == PartialFilled <==> !r.cancelFlag && r.canceled == 0 && r.filled > 0 && r.remaining != Some(0)
    ensures Classify(r) == Submitted <==> !r.cancelFlag && r.canceled == 0 && r.filled == 0 && r.rejected == 0
  {
  }

  /** The one way two truthful successive rows can disagree with the state machine: the order is
      finished, part of it (not all) was rejected, the first row showed that it is finished
      and the second one reports neither the remainder nor the cancel flag. */
  predicate LosesClosure(a: QueryRow, b: QueryRow) {
    && Outstanding(a) == 0
    && 0 < a.rejected < a.ordQty
    && (a.cancelFlag || a.remaining.Some?)
    && !b.cancelFlag && b.remaining.None?
  }

  /** Successive rows map to an allowed transition exactly when closure is not lost. */
  lemma StepLegalIff(a: QueryRow, b: QueryRow)
    requires Truthful(a) && Truthful(b) && Follows(a, b)
    ensures CanTransition(Classify(a), Classify(b)) <==> !LosesClosure(a, b)
  {
    if Outstanding(a) == 0 {
      assert b.filled == a.filled && b.canceled == a.canceled && b.rejected == a.rejected;
    }
  }

  predicate ClosureKept(rows: seq<QueryRow>) {
    forall i :: 0 <= i < |rows| - 1 ==> !LosesClosure(rows[i], rows[i + 1])
  }

  lemma HistoryTail(rows: seq<QueryRow>)
    requires History(rows) && |rows| > 1
    ensures History(rows[1..]) && Truthful(rows[0]) && Truthful(rows[1]) && Follows(rows[0], rows[1])
    ensures ClosureKept(rows) <==> !LosesClosure(rows[0], rows[1]) && ClosureKept(rows[1..])
  {
    var rest := rows[1..];
    assert rows[1] == rest[0];
    assert Follows(rows[0], rows[0 + 1]);
    forall i | 0 <= i < |rest| - 1
      ensures Follows(rest[i], rest[i + 1])
      ensures LosesClosure(rest[i], rest[i + 1]) == LosesClosure(rows[i + 1], rows[i + 2])
    {
      assert rest[i] == rows[i + 1] && rest[i + 1] == rows[i + 1 + 1];
      assert Follows(rows[i + 1], rows[i + 1 + 1]);
    }
    if !LosesClosure(rows[0], rows[1]) && ClosureKept(rest) {
      forall i | 0 <= i < |rows| - 1 ensures !LosesClosure(rows[i], rows[i + 1]) {
        if i > 0 {
          assert !LosesClosure(rest[i - 1], rest[i - 1 + 1]);
        }
      }
    }
    if ClosureKept(rows) {
      assert !LosesClosure(rows[0], rows[0 + 1]);
    }
  }

  /** A run of rows is accepted by the state machine, from a freshly submitted order, exactly
      when no adjacent pair loses closure. */
  lemma {:induction false} HistoryAcceptedIff(c: OrderContext, rows: seq<QueryRow>)
    requires History(rows)
    requires c.state == Submitted || (rows != [] && CanTransition(c.state, Classify(rows[0])))
    ensures Run(c, Updates(rows)).Success? <==> ClosureKept(rows)
    ensures Run(c, Updates(rows)).Success? && rows != [] ==>
            Run(c, Updates(rows)).value.state == Classify(rows[|rows| - 1])
    decreases |rows|
  {
    if rows == [] {
    } else {
      var us := Updates(rows);
      var next := Transition(c, us[0]).value;
      var rest := rows[1..];
      assert us[1..] == Updates(rest);
      assert Run(c, us) == Run(next, Updates(rest));
      if rest != [] {
        HistoryTail(rows);
        StepLegalIff(rows[0], rows[1]);
        if LosesClosure(rows[0], rows[1]) {
          assert Transition(next, Updates(rest)[0]).Failure?;
        } else {
          HistoryAcceptedIff(next, rest);
        }
      }
    }
  }

  /** A broker that always reports the remainder never drives the order into an illegal transition. */
  lemma ReportedHistoryNeverRaises(c: OrderContext, rows: seq<QueryRow>)
    requires c.state == Submitted && History(rows)
    requires forall i :: 0 <= i < |rows| ==> rows[i].remaining.Some?
    ensures Run(c, Updates(rows)).Success?
  {
    HistoryAcceptedIff(c, rows);
  }

  /** The state machine refuses to go back from FILLED to PARTIAL. */
  predicate RefusedAfter(c: OrderContext, rows: seq<QueryRow>) {
    Run(c, Updates(rows)) == Failure(IllegalTransition(Filled, PartialFilled))
  }

  /** Two truthful successive rows that go from FILLED back to PARTIAL are a history the state machine refuses. */
  lemma {:induction false} BackToPartialRaises(c: OrderContext, a: QueryRow, b: QueryRow)
    requires CanTransition(c.state, Filled) && Classify(a) == Filled && Classify(b) == PartialFilled
    requires Truthful(a) && Truthful(b) && Follows(a, b)
    ensures History([a, b]) && RefusedAfter(c, [a, b])
  {
    var us := Updates([a, b]);
    assert us == [UpdateOf(a), UpdateOf(b)];
    assert us[1..] == [UpdateOf(b)];
    var next := Transition(c, us[0]).value;
    assert Run(c, us) == Run(next, us[1..]);
    assert Transition(next, us[1..][0]) == Failure(IllegalTransition(Filled, PartialFilled));
  }

  /** An order of which part was filled and the rest rejected, first with its remainder and then without. */
  predicate HalfRejected(a: QueryRow, b: QueryRow) {
    && a.filled > 0 && a.rejected > 0 && a.canceled == 0 && a.ordQty == a.filled + a.rejected && !a.cancelFlag
    && a.remaining == Some(0) && b == a.(remaining := None)
  }

  lemma HalfRejectedRows(a: QueryRow, b: QueryRow)
    requires HalfRejected(a, b)
    ensures Classify(a) == Filled && Classify(b) == PartialFilled && LosesClosure(a, b)
    ensures Truthful(a) && Truthful(b) && Follows(a, b)
  {
  }

  /** Without the remainder the claim is false: a half-rejected order goes from FILLED back to PARTIAL. */
  lemma UnreportedRemainderRaises(c: OrderContext, a: QueryRow, b: QueryRow)
    requires c.state == Submitted && HalfRejected(a, b)
    ensures LosesClosure(a, b) && History([a, b]) && RefusedAfter(c, [a, b])
  {
    HalfRejectedRows(a, b);
    BackToPartialRaises(c, a, b);
  }
}
