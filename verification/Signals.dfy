/** Executed signals, and the last-in-first-out position they leave open. */
module Signals {
  import opened Prelude

  datatype Action = Buy | Sell | Other

  datatype Signal = Signal(strategy: Text, code: Text, action: Action, qty: int, price: int,
                           date: int, success: bool)

  /** Part of a BUY that no later SELL has closed. */
  datatype Lot = Lot(qty: int, signal: Signal)

  /** Sells `qty` from the top (end) of the stack; what the stack cannot cover is discarded. */
  function Pop(stack: seq<Lot>, qty: int): seq<Lot> {
    if stack == [] || qty <= 0 then stack
    else
      var top := stack[|stack| - 1];
      if qty >= top.qty then Pop(stack[..|stack| - 1], qty - top.qty)
      else stack[..|stack| - 1] + [top.(qty := top.qty - qty)]
  }

  /** The forward simulation: BUY pushes a lot, SELL pops, anything without a positive quantity is ignored. */
  function OpenStack(signals: seq<Signal>): seq<Lot> {
    if signals == [] then []
    else
      var before, s := OpenStack(signals[..|signals| - 1]), signals[|signals| - 1];
      if s.qty <= 0 then before
      else match s.action
        case Buy => before + [Lot(s.qty, s)]
        case Sell => Pop(before, s.qty)
        case Other => before
  }

  function Total(lots: seq<Lot>): int {
    if lots == [] then 0 else Total(lots[..|lots| - 1]) + lots[|lots| - 1].qty
  }

  /** Held quantity by the plain fold: add a BUY, subtract a SELL but never below zero. */
  function Held(signals: seq<Signal>): int {
    if signals == [] then 0
    else
      var before, s := Held(signals[..|signals| - 1]), signals[|signals| - 1];
      if s.qty <= 0 then before
      else match s.action
        case Buy => before + s.qty
        case Sell => Max(0, before - s.qty)
        case Other => before
  }

  /** Signed sum of the quantities. */
  function Net(signals: seq<Signal>): int {
    if signals == [] then 0
    else
      var before, s := Net(signals[..|signals| - 1]), signals[|signals| - 1];
      match s.action
      case Buy => before + s.qty
      case Sell => before - s.qty
      case Other => before
  }

  /** The lowest net quantity over all prefixes, the empty one included. */
  function LowestNet(signals: seq<Signal>): int {
    if signals == [] then 0 else Min(LowestNet(signals[..|signals| - 1]), Net(signals))
  }

  ghost predicate PositiveLots(lots: seq<Lot>) {
    forall i :: 0 <= i < |lots| ==> lots[i].qty > 0 && lots[i].signal.action == Buy
  }

  ghost predicate NonNegative(signals: seq<Signal>) {
    forall i :: 0 <= i < |signals| ==> signals[i].qty >= 0
  }

  lemma {:induction false} PopPositive(stack: seq<Lot>, qty: int)
    requires PositiveLots(stack)
    ensures PositiveLots(Pop(stack, qty))
    ensures Total(Pop(stack, qty)) == if qty <= 0 then Total(stack) else Max(0, Total(stack) - qty)
  {
    TotalNonNegative(stack);
    if stack != [] && qty > 0 {
      var rest, top := stack[..|stack| - 1], stack[|stack| - 1];
      TotalNonNegative(rest);
      if qty >= top.qty {
        PopPositive(rest, qty - top.qty);
      } else {
        assert (rest + [top.(qty := top.qty - qty)])[..|rest|] == rest;
      }
    }
  }

  lemma {:induction false} TotalNonNegative(lots: seq<Lot>)
    requires PositiveLots(lots)
    ensures Total(lots) >= 0 && (Total(lots) == 0 <==> lots == [])
  {
    if lots == [] {
    } else {
      TotalNonNegative(lots[..|lots| - 1]);
    }
  }

  /** The stack and the plain fold agree on the held quantity, for every signal list. */
  lemma {:induction false} StackTotalIsHeld(signals: seq<Signal>)
    ensures PositiveLots(OpenStack(signals))
    ensures Total(OpenStack(signals)) == Held(signals)
    ensures Held(signals) > 0 <==> OpenStack(signals) != []
  {
    if signals != [] {
      var prefix, s := signals[..|signals| - 1], signals[|signals| - 1];
      StackTotalIsHeld(prefix);
      PopPositive(OpenStack(prefix), s.qty);
      assert (OpenStack(prefix) + [Lot(s.qty, s)])[..|OpenStack(prefix)|] == OpenStack(prefix);
    }
    TotalNonNegative(OpenStack(signals));
  }

  /** Popping twice is popping the sum. */
  lemma {:induction false} PopTwice(stack: seq<Lot>, a: int, b: int)
    requires PositiveLots(stack) && a >= 0 && b >= 0
    ensures Pop(Pop(stack, a), b) == Pop(stack, a + b)
  {
    if stack != [] && a > 0 {
      var rest, top := stack[..|stack| - 1], stack[|stack| - 1];
      if a >= top.qty {
        PopTwice(rest, a - top.qty, b);
      } else {
        var cut := rest + [top.(qty := top.qty - a)];
        assert cut[..|cut| - 1] == rest;
      }
    }
  }

  /** The held quantity is the net quantity plus everything that was oversold along the way. */
  lemma {:induction false} HeldIsNetAboveLowest(signals: seq<Signal>)
    requires NonNegative(signals)
    ensures Held(signals) == Net(signals) - LowestNet(signals)
    ensures LowestNet(signals) <= Net(signals) && LowestNet(signals) <= 0
  {
    if signals == [] {
    } else {
      HeldIsNetAboveLowest(signals[..|signals| - 1]);
    }
  }

  lemma {:induction false} LowestNetIsMinimum(signals: seq<Signal>)
    ensures LowestNet(signals) < 0 <==> exists k :: 0 <= k <= |signals| && Net(signals[..k]) < 0
  {
    if signals == [] {
    } else {
      var prefix := signals[..|signals| - 1];
      LowestNetIsMinimum(prefix);
      assert signals[..|signals|] == signals;
      assert forall k :: 0 <= k <= |prefix| ==> prefix[..k] == signals[..k];
    }
  }

  /** Open quantity is never below net quantity, and equals it exactly when no prefix oversells. */
  lemma HeldEqualsNetIff(signals: seq<Signal>)
    requires NonNegative(signals)
    ensures Held(signals) >= Net(signals)
    ensures Held(signals) == Net(signals) <==> forall k :: 0 <= k <= |signals| ==> Net(signals[..k]) >= 0
  {
    HeldIsNetAboveLowest(signals);
    LowestNetIsMinimum(signals);
  }

  // ---- which signal an open lot belongs to, without the stack ----

  function HeldAfter(held: int, s: Signal): int {
    if s.qty <= 0 || s.action.Other? then held
    else if s.action.Buy? then held + s.qty
    else Max(0, held - s.qty)
  }

  lemma HeldSnoc(signals: seq<Signal>, s: Signal)
    ensures Held(signals + [s]) == HeldAfter(Held(signals), s)
  {
    assert (signals + [s])[..|signals|] == signals;
  }

  lemma TotalSnoc(lots: seq<Lot>, lot: Lot)
    ensures Total(lots + [lot]) == Total(lots) + lot.qty
  {
    assert (lots + [lot])[..|lots|] == lots;
  }

  /** What a SELL leaves of the lots from the `j`-th on: they lose first, and keep their signals. */
  lemma {:induction false} PopTail(stack: seq<Lot>, qty: int, j: nat)
    requires PositiveLots(stack) && qty >= 0 && j <= |Pop(stack, qty)|
    ensures j <= |stack| && Total(Pop(stack, qty)[j..]) == Max(0, Total(stack[j..]) - qty)
    ensures j < |Pop(stack, qty)| ==> j < |stack| && Pop(stack, qty)[j].signal == stack[j].signal
  {
    if stack == [] || qty == 0 {
      TotalNonNegative(stack[j..]);
    } else {
      var rest, top := stack[..|stack| - 1], stack[|stack| - 1];
      if qty >= top.qty {
        PopTail(rest, qty - top.qty, j);
        TailBelowTop(stack, j);
      } else {
        PopShrinksTop(stack, qty, j);
      }
    }
  }

  lemma TailBelowTop(stack: seq<Lot>, j: nat)
    requires j < |stack|
    ensures Total(stack[j..]) == Total(stack[..|stack| - 1][j..]) + stack[|stack| - 1].qty
  {
    assert stack[j..] == stack[..|stack| - 1][j..] + [stack[|stack| - 1]];
    TotalSnoc(stack[..|stack| - 1][j..], stack[|stack| - 1]);
  }

  lemma PopShrinksTop(stack: seq<Lot>, qty: int, j: nat)
    requires PositiveLots(stack) && stack != [] && 0 < qty < stack[|stack| - 1].qty && j <= |stack|
    ensures |Pop(stack, qty)| == |stack| && Total(Pop(stack, qty)[j..]) == Max(0, Total(stack[j..]) - qty)
    ensures j < |stack| ==> Pop(stack, qty)[j].signal == stack[j].signal
  {
    if j < |stack| {
      var rest, top := stack[..|stack| - 1], stack[|stack| - 1];
      var less := top.(qty := top.qty - qty);
      assert stack[j..] == rest[j..] + [top] && Pop(stack, qty)[j..] == rest[j..] + [less];
      TotalSnoc(rest[j..], top);
      TotalSnoc(rest[j..], less);
      TotalNonNegative(rest[j..]);
    }
  }

  /** The lots from the `j`-th on are worth what the signals from `i` on leave held, and those above it what the signals
      after `i` leave held. */
  ghost predicate LotFrom(signals: seq<Signal>, j: nat, i: nat)
    requires j < |OpenStack(signals)|
  {
    && i < |signals| && OpenStack(signals)[j].signal == signals[i] && signals[i].action == Buy
    && Held(signals[i..]) == Total(OpenStack(signals)[j..])
    && Held(signals[i + 1..]) == Total(OpenStack(signals)[j + 1..])
  }

  lemma {:induction false} LotOfLastBuy(signals: seq<Signal>)
    requires signals != [] && signals[|signals| - 1].action.Buy? && signals[|signals| - 1].qty > 0
    ensures var n := |OpenStack(signals)| - 1; n >= 0 && LotFrom(signals, n, |signals| - 1)
  {
    var n := |signals| - 1;
    var s := signals[n];
    assert signals[n..] == [] + [s] && signals[n + 1..] == [];
    HeldSnoc([], s);
    var stack := OpenStack(signals);
    assert stack[|stack| - 1..] == [] + [Lot(s.qty, s)];
    TotalSnoc([], Lot(s.qty, s));
  }

  lemma {:induction false} TailStep(before: seq<Signal>, s: Signal, j: nat)
    requires j <= |OpenStack(before)| && j <= |OpenStack(before + [s])|
    ensures Total(OpenStack(before + [s])[j..]) == HeldAfter(Total(OpenStack(before)[j..]), s)
    ensures j < |OpenStack(before)| && j < |OpenStack(before + [s])| ==>
              OpenStack(before + [s])[j].signal == OpenStack(before)[j].signal
  {
    var stack := OpenStack(before);
    assert (before + [s])[..|before|] == before;
    if s.qty > 0 && s.action.Sell? {
      StackTotalIsHeld(before);
      PopTail(stack, s.qty, j);
    } else if s.qty > 0 && s.action.Buy? {
      var lot := Lot(s.qty, s);
      assert (stack + [lot])[j..] == stack[j..] + [lot];
      TotalSnoc(stack[j..], lot);
    }
  }

  lemma {:induction false} LotStays(before: seq<Signal>, s: Signal, j: nat, i: nat)
    requires j < |OpenStack(before)| && j < |OpenStack(before + [s])| && LotFrom(before, j, i)
    ensures LotFrom(before + [s], j, i)
  {
    assert (before + [s])[i..] == before[i..] + [s] && (before + [s])[i + 1..] == before[i + 1..] + [s];
    HeldSnoc(before[i..], s);
    HeldSnoc(before[i + 1..], s);
    TailStep(before, s, j);
    TailStep(before, s, j + 1);
  }

  lemma {:induction false} LotsAreFromBuys(signals: seq<Signal>, j: nat) returns (i: nat)
    requires j < |OpenStack(signals)|
    ensures LotFrom(signals, j, i)
  {
    var n := |signals| - 1;
    var prefix, s := signals[..n], signals[n];
    if s.qty > 0 && s.action.Buy? && j == |OpenStack(prefix)| {
      LotOfLastBuy(signals);
      i := n;
    } else {
      StackTotalIsHeld(prefix);
      if s.qty > 0 && s.action.Sell? { PopTail(OpenStack(prefix), s.qty, j); }
      i := LotsAreFromBuys(prefix, j);
      assert signals == prefix + [s];
      LotStays(prefix, s, j, i);
    }
  }

  lemma {:induction false} HeldOfFewer(a: seq<Signal>, b: seq<Signal>)
    ensures 0 <= Held(b) <= Held(a + b)
  {
    if b == [] {
      assert a + b == a;
      StackTotalIsHeld(a);
      TotalNonNegative(OpenStack(a));
    } else {
      var n := |b| - 1;
      HeldOfFewer(a, b[..n]);
      assert b == b[..n] + [b[n]] && a + b == a + b[..n] + [b[n]];
      HeldSnoc(b[..n], b[n]);
      HeldSnoc(a + b[..n], b[n]);
    }
  }

  lemma TopLot(stack: seq<Lot>)
    requires stack != []
    ensures Total(stack[|stack| - 1..]) == stack[|stack| - 1].qty && Total(stack[|stack|..]) == 0
  {
    var top := stack[|stack| - 1];
    assert stack[|stack| - 1..] == [] + [top] && stack[|stack|..] == [];
    TotalSnoc([], top);
  }

  /** Of the signals from `i` on something stays held. */
  ghost predicate HeldFrom(signals: seq<Signal>, i: nat) { i <= |signals| && Held(signals[i..]) > 0 }

  lemma NothingHeldLater(signals: seq<Signal>, i: nat, k: nat)
    requires i <= k <= |signals| && Held(signals[i..]) == 0
    ensures Held(signals[k..]) == 0
  {
    assert signals[i..] == signals[i..k] + signals[k..];
    HeldOfFewer(signals[i..k], signals[k..]);
  }

  /** The newest open lot, without the stack: it comes from the last position from which on something stays held. */
  lemma {:induction false} NewestOpen(signals: seq<Signal>) returns (i: nat)
    requires Held(signals) > 0
    ensures OpenStack(signals) != [] && i < |signals|
    ensures signals[i].action == Buy && OpenStack(signals)[|OpenStack(signals)| - 1].signal == signals[i]
    ensures HeldFrom(signals, i) && forall k: nat :: i < k ==> !HeldFrom(signals, k)
  {
    StackTotalIsHeld(signals);
    var stack := OpenStack(signals);
    i := LotsAreFromBuys(signals, |stack| - 1);
    TopLot(stack);
    forall k: nat | i < k ensures !HeldFrom(signals, k) {
      if k <= |signals| { NothingHeldLater(signals, i + 1, k); }
    }
  }
}
