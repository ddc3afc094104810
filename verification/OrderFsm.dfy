/** The order state machine: allowed transitions and the context they update. */
module OrderFsm {
  import opened Prelude

  datatype OrderState = PendingSubmit | Submitted | PartialFilled | Filled | Canceled | Rejected

  predicate IsTerminal(s: OrderState) { s.Filled? || s.Canceled? || s.Rejected? }

  function AllowedTransitions(s: OrderState): set<OrderState> {
    match s
    case PendingSubmit => {Submitted, Canceled, Rejected}
    case Submitted => {PartialFilled, Filled, Canceled, Rejected}
    case PartialFilled => {Filled, Canceled}
    case Filled => {}
    case Canceled => {}
    case Rejected => {}
  }

  /** A state may always be re-entered; otherwise the table decides. */
  predicate CanTransition(from: OrderState, to: OrderState) {
    to == from || to in AllowedTransitions(from)
  }

  /** The fields of an order that a transition reads or writes. */
  datatype OrderContext = OrderContext(
    state: OrderState,
    qty: int,
    filledQty: int,
    remainingQty: int,
    virtualRecordedQty: int,
    enteredAt: int,
    stuckAlert: Option<int>)

  /** Arguments of one transition; `None` keeps the current value. */
  datatype Update = Update(target: OrderState, filled: Option<int>, recorded: Option<int>,
                           time: int, stuckAlert: Option<int>)

  datatype TransitionError = IllegalTransition(from: OrderState, to: OrderState)

  /** Construction derives the remaining quantity, whatever the caller passed. */
  function Create(state: OrderState, qty: int, filledQty: int, recorded: int, time: int): OrderContext {
    OrderContext(state, qty, filledQty, Max(qty - filledQty, 0), recorded, time, None)
  }

  function Transition(c: OrderContext, u: Update): Result<OrderContext, TransitionError> {
    if !CanTransition(c.state, u.target) then
      Failure(IllegalTransition(c.state, u.target))
    else
      var filled := if u.filled.Some? then Max(u.filled.value, 0) else c.filledQty;
      var recorded := if u.recorded.Some? then Max(u.recorded.value, 0) else c.virtualRecordedQty;
      var changed := u.target != c.state;
      Success(OrderContext(
        u.target, c.qty, filled, Max(c.qty - filled, 0), Min(recorded, filled),
        if changed then u.time else c.enteredAt,
        if u.stuckAlert.Some? then u.stuckAlert else if changed then None else c.stuckAlert))
  }

  /** Applies updates until one is refused. */
  function Run(c: OrderContext, us: seq<Update>): Result<OrderContext, TransitionError>
    decreases |us|
  {
    if us == [] then Success(c)
    else match Transition(c, us[0])
      case Success(next) => Run(next, us[1..])
      case Failure(e) => Failure(e)
  }

  /** What every reachable context satisfies. */
  predicate Consistent(c: OrderContext) {
    && 0 <= c.virtualRecordedQty <= c.filledQty
    && c.remainingQty == Max(c.qty - c.filledQty, 0)
  }

  /** Distance from the start of an order's life; a change of state never lowers it. */
  function Stage(s: OrderState): nat {
    match s
    case PendingSubmit => 0
    case Submitted => 1
    case PartialFilled => 2
    case _ => 3
  }

  /** Number of updates in an accepted run that changed the state. */
  function StateChanges(c: OrderContext, us: seq<Update>): nat
    decreases |us|
  {
    if us == [] then 0
    else match Transition(c, us[0])
      case Success(next) => (if next.state != c.state then 1 else 0) + StateChanges(next, us[1..])
      case Failure(_) => 0
  }

  /** Every accepted run keeps the order quantity, the derived remainder and recorded <= filled. */
  lemma {:induction false} RunKeepsConsistency(c: OrderContext, us: seq<Update>)
    requires Consistent(c) && Run(c, us).Success?
    ensures Consistent(Run(c, us).value)
    ensures Run(c, us).value.qty == c.qty
    decreases |us|
  {
    if us == [] {
    } else {
      RunKeepsConsistency(Transition(c, us[0]).value, us[1..]);
    }
  }

  /** So does every accepted run of a newly constructed order, whatever remainder its caller passed. */
  lemma CreatedOrderStaysConsistent(state: OrderState, qty: int, filledQty: int, recorded: int, time: int,
                                    us: seq<Update>)
    requires 0 <= recorded <= filledQty
    ensures var c := Create(state, qty, filledQty, recorded, time);
            && c.state == state && c.qty == qty && c.filledQty == filledQty && c.virtualRecordedQty == recorded
            && c.enteredAt == time && c.stuckAlert == None
            && (Run(c, us).Success? ==> Consistent(Run(c, us).value) && Run(c, us).value.qty == qty)
  {
    var c := Create(state, qty, filledQty, recorded, time);
    if Run(c, us).Success? { RunKeepsConsistency(c, us); }
  }

  /** The machine is acyclic: an order changes state at most three times, and only ever forward. */
  lemma {:induction false} RunMovesForward(c: OrderContext, us: seq<Update>)
    requires Run(c, us).Success?
    ensures Stage(c.state) + StateChanges(c, us) <= Stage(Run(c, us).value.state)
    ensures StateChanges(c, us) <= 3
    decreases |us|
  {
    if us == [] {
    } else {
      RunMovesForward(Transition(c, us[0]).value, us[1..]);
    }
  }

  /** Once an order is filled, canceled or rejected, a run is accepted iff it only repeats that state. */
  lemma {:induction false} TerminalIsFinal(c: OrderContext, us: seq<Update>)
    requires IsTerminal(c.state)
    ensures Run(c, us).Success? <==> forall i :: 0 <= i < |us| ==> us[i].target == c.state
    ensures Run(c, us).Success? ==> Run(c, us).value.state == c.state
    decreases |us|
  {
    if us == [] {
    } else {
      if us[0].target == c.state {
        var next := Transition(c, us[0]).value;
        TerminalIsFinal(next, us[1..]);
        assert (forall i :: 0 <= i < |us| ==> us[i].target == c.state) <==>
               (forall i :: 0 <= i < |us[1..]| ==> us[1..][i].target == next.state) by {
          if forall i :: 0 <= i < |us[1..]| ==> us[1..][i].target == next.state {
            forall i | 0 <= i < |us| ensures us[i].target == c.state {
              if i > 0 { assert us[i] == us[1..][i - 1]; }
            }
          }
        }
      } else {
        assert Transition(c, us[0]).Failure?;
      }
    }
  }

  /** The table in one sentence: only forward, no fill before submission, no rejection after a partial fill. */
  lemma TransitionIff(from: OrderState, to: OrderState)
    ensures CanTransition(from, to) <==>
            || from == to
            || (Stage(from) < Stage(to) && !(from.PendingSubmit? && (to.PartialFilled? || to.Filled?))
                && !(from.PartialFilled? && to.Rejected?))
  {
  }

  /** The state before update `i` of an accepted run. */
  function StateBefore(c: OrderContext, us: seq<Update>, i: nat): OrderState
    requires i < |us|
  {
    if i == 0 then c.state else us[i - 1].target
  }

  /** In an accepted run an order that ends up filled, in part or in full, was submitted on the way,
      and one that was partially filled is never rejected. */
  lemma {:induction false} FillsFollowSubmission(c: OrderContext, us: seq<Update>)
    requires Run(c, us).Success?
    ensures c.state.PendingSubmit? && (Run(c, us).value.state.PartialFilled? || Run(c, us).value.state.Filled?) ==>
              exists i :: 0 <= i < |us| && us[i].target == Submitted
    ensures c.state.PartialFilled? ==> !Run(c, us).value.state.Rejected?
    decreases |us|
  {
    if us == [] {
    } else {
      var next := Transition(c, us[0]).value;
      FillsFollowSubmission(next, us[1..]);
      if IsTerminal(next.state) { TerminalIsFinal(next, us[1..]); }
      if i :| 0 <= i < |us[1..]| && us[1..][i].target == Submitted {
        assert us[i + 1].target == Submitted;
      }
    }
  }

  /** What an accepted run remembers: the state is the last target, the entry time is that of the last update
      that changed the state, and the quantities are those last reported. */
  lemma {:induction false} RunRemembers(c: OrderContext, us: seq<Update>) returns (k: int)
    requires Run(c, us).Success? && us != []
    ensures var d := Run(c, us).value;
            && d.state == us[|us| - 1].target
            && -1 <= k < |us|
            && (if k < 0 then d.enteredAt == c.enteredAt
                else us[k].target != StateBefore(c, us, k) && d.enteredAt == us[k].time)
            && (forall i :: k < i < |us| ==> us[i].target == StateBefore(c, us, i))
            && (us[|us| - 1].filled.Some? ==> d.filledQty == Max(us[|us| - 1].filled.value, 0))
            && (us[|us| - 1].stuckAlert.Some? ==> d.stuckAlert == us[|us| - 1].stuckAlert)
            && (us[|us| - 1].stuckAlert.None? && k == |us| - 1 ==> d.stuckAlert == None)
    decreases |us|
  {
    var next, rest := Transition(c, us[0]).value, us[1..];
    k := if us[0].target != c.state then 0 else -1;
    if rest != [] {
      var j := RunRemembers(next, rest);
      assert forall i :: 0 <= i < |rest| ==> rest[i] == us[i + 1];
      forall i | 0 <= i < |rest| ensures StateBefore(next, rest, i) == StateBefore(c, us, i + 1) {
      }
      if j >= 0 { k := j + 1; }
      forall i | k < i < |us| ensures us[i].target == StateBefore(c, us, i) {
        if i > 0 { assert rest[i - 1].target == StateBefore(next, rest, i - 1); }
      }
    }
  }

  // ---- the two quantities over a run ----

  /** The filled quantity after the first `i` updates: the last one given, or the one at the start. */
  function FilledAfter(filled: int, us: seq<Update>, i: nat): int
    requires i <= |us|
  {
    if i == 0 then filled
    else if us[i - 1].filled.Some? then Max(us[i - 1].filled.value, 0)
    else FilledAfter(filled, us, i - 1)
  }

  lemma {:induction false} FilledShift(filled: int, us: seq<Update>, i: nat)
    requires us != [] && i < |us|
    ensures FilledAfter(FilledAfter(filled, us, 1), us[1..], i) == FilledAfter(filled, us, i + 1)
  {
    if i > 0 {
      FilledShift(filled, us, i - 1);
      assert us[1..][i - 1] == us[i];
    }
  }

  /** `m` is the least of `start` and the filled quantities after each of the updates beyond the first `from`. */
  ghost predicate IsLowest(m: int, start: int, filled: int, us: seq<Update>, from: nat) {
    && m <= start && (forall i :: from < i <= |us| ==> m <= FilledAfter(filled, us, i))
    && (m == start || exists i :: from < i <= |us| && m == FilledAfter(filled, us, i))
  }

  lemma LowestOfTail(m: int, start: int, filled: int, us: seq<Update>, from: nat)
    requires us != [] && from < |us| && IsLowest(m, start, FilledAfter(filled, us, 1), us[1..], from)
    ensures IsLowest(m, start, filled, us, from + 1)
  {
    forall i | from < i <= |us[1..]|
      ensures FilledAfter(FilledAfter(filled, us, 1), us[1..], i) == FilledAfter(filled, us, i + 1)
    {
      FilledShift(filled, us, i);
    }
    forall j | from + 1 < j <= |us| ensures m <= FilledAfter(filled, us, j) {
      assert m <= FilledAfter(FilledAfter(filled, us, 1), us[1..], j - 1);
    }
  }

  lemma LowestWithFirst(m: int, start: int, filled: int, us: seq<Update>)
    requires us != [] && IsLowest(m, Min(start, FilledAfter(filled, us, 1)), filled, us, 1)
    ensures IsLowest(m, start, filled, us, 0)
  {
    if m == FilledAfter(filled, us, 1) { assert m == FilledAfter(filled, us, 0 + 1); }
    forall i | 0 < i <= |us| ensures m <= FilledAfter(filled, us, i) {
    }
  }

  /** After an accepted run the filled quantity is the last one given; the recorded quantity is the last one given
      (update `k`) or the one at the start (`k` = -1), but never more than any filled quantity since. */
  lemma {:induction false} RunQuantities(c: OrderContext, us: seq<Update>) returns (k: int)
    requires Run(c, us).Success? && us != []
    ensures var d := Run(c, us).value;
            && d.filledQty == FilledAfter(c.filledQty, us, |us|)
            && -1 <= k < |us| && (forall i :: k < i < |us| ==> us[i].recorded.None?)
            && (k >= 0 ==> us[k].recorded.Some?)
            && var start := if k < 0 then c.virtualRecordedQty else Max(us[k].recorded.value, 0);
               IsLowest(d.virtualRecordedQty, start, c.filledQty, us, Max(k, 0))
    decreases |us|
  {
    var next, rest := Transition(c, us[0]).value, us[1..];
    var d := Run(c, us).value;
    k := if us[0].recorded.Some? then 0 else -1;
    var start := if k < 0 then c.virtualRecordedQty else Max(us[0].recorded.value, 0);
    assert next.filledQty == FilledAfter(c.filledQty, us, 0 + 1);
    assert next.virtualRecordedQty == Min(start, next.filledQty);
    if rest == [] {
      LowestWithFirst(d.virtualRecordedQty, start, c.filledQty, us);
    } else {
      var j := RunQuantities(next, rest);
      FilledShift(c.filledQty, us, |rest|);
      if j >= 0 {
        LowestOfTail(d.virtualRecordedQty, Max(rest[j].recorded.value, 0), c.filledQty, us, j);
        k := j + 1;
      } else {
        LowestOfTail(d.virtualRecordedQty, next.virtualRecordedQty, c.filledQty, us, 0);
        LowestWithFirst(d.virtualRecordedQty, start, c.filledQty, us);
      }
    }
  }

  // ---- the alert over a run ----

  /** Of an accepted run, `k` is the last update that changed the state and `a` the last that gave an alert, -1 for
      none. */
  ghost predicate LastTimes(c: OrderContext, us: seq<Update>, k: int, a: int) {
    && -1 <= k < |us| && (k >= 0 ==> us[k].target != StateBefore(c, us, k))
    && (forall i :: k < i < |us| ==> us[i].target == StateBefore(c, us, i))
    && -1 <= a < |us| && (a >= 0 ==> us[a].stuckAlert.Some?)
    && (forall i :: a < i < |us| ==> us[i].stuckAlert.None?)
  }

  lemma LastTimesShift(c: OrderContext, us: seq<Update>, next: OrderContext, k: int, a: int)
    requires us != [] && next.state == us[0].target && LastTimes(next, us[1..], k, a)
    ensures LastTimes(c, us, if k >= 0 then k + 1 else if us[0].target != c.state then 0 else -1,
                      if a >= 0 then a + 1 else if us[0].stuckAlert.Some? then 0 else -1)
  {
    var rest := us[1..];
    assert forall i :: 0 <= i < |rest| ==> rest[i] == us[i + 1];
    forall i | 0 <= i < |rest| ensures StateBefore(next, rest, i) == StateBefore(c, us, i + 1) {
    }
    forall i | 0 < i < |us|
      ensures us[i] == rest[i - 1] && StateBefore(c, us, i) == StateBefore(next, rest, i - 1)
    {
    }
  }

  /** The alert after a run: the last one given, unless the state changed after that; a change of state clears it. */
  lemma {:induction false} AlertFollowsState(c: OrderContext, us: seq<Update>) returns (k: int, a: int)
    requires Run(c, us).Success?
    ensures LastTimes(c, us, k, a)
    ensures Run(c, us).value.stuckAlert ==
            if a >= 0 && a >= k then us[a].stuckAlert else if k >= 0 then None else c.stuckAlert
    decreases |us|
  {
    k, a := -1, -1;
    if us != [] {
      var next := Transition(c, us[0]).value;
      k, a := AlertFollowsState(next, us[1..]);
      LastTimesShift(c, us, next, k, a);
      k := if k >= 0 then k + 1 else if us[0].target != c.state then 0 else -1;
      a := if a >= 0 then a + 1 else if us[0].stuckAlert.Some? then 0 else -1;
    }
  }
}
