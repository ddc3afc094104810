/** Recovery of open lots from the stored signal history, by one backward scan per (strategy, code). */
module OpenSignalScan {
  import opened Prelude
  import opened Signals

  datatype Pair = Pair(strategy: Text, code: Text)

  datatype OpenPosition = OpenPosition(qty: int, buyPrice: int, buyDate: int)

  function Reverse(lots: seq<Lot>): (r: seq<Lot>)
    ensures |r| == |lots|
  {
    if lots == [] then [] else [lots[|lots| - 1]] + Reverse(lots[..|lots| - 1])
  }

  /** Successful signals of one pair, in order. */
  function SignalsOf(rows: seq<Signal>, pair: Pair): seq<Signal> {
    if rows == [] then []
    else
      var before, s := SignalsOf(rows[..|rows| - 1], pair), rows[|rows| - 1];
      if s.success && s.strategy == pair.strategy && s.code == pair.code then before + [s] else before
  }

  /** The scan has read back to `i`: the whole stack is what the unread signals leave after
      `remaining` more units are sold, followed by the open lots found so far (oldest first). */
  ghost predicate Scanned(signals: seq<Signal>, i: nat, remaining: int, found: seq<Lot>)
    requires i <= |signals|
  {
    remaining >= 0 && OpenStack(signals) == Pop(OpenStack(signals[..i]), remaining) + found
  }

  /** Reading one more signal: how it changes the unmatched quantity, and the lot it leaves open, if any. */
  lemma ScanStep(signals: seq<Signal>, i: nat, remaining: int, found: seq<Lot>)
    requires i < |signals| && Scanned(signals, i + 1, remaining, found)
    ensures var s := signals[i];
            if s.qty <= 0 || s.action.Other? then Scanned(signals, i, remaining, found)
            else if s.action.Sell? then Scanned(signals, i, remaining + s.qty, found)
            else if remaining >= s.qty then Scanned(signals, i, remaining - s.qty, found)
            else Scanned(signals, i, 0, [Lot(s.qty - remaining, s)] + found)
  {
    var s, before := signals[i], OpenStack(signals[..i]);
    assert signals[..i + 1][..i] == signals[..i];
    StackTotalIsHeld(signals[..i]);
    if s.qty > 0 && s.action.Sell? {
      PopTwice(before, s.qty, remaining);
    } else if s.qty > 0 && s.action.Buy? {
      var lot := Lot(s.qty - remaining, s);
      assert (before + [Lot(s.qty, s)])[..|before|] == before;
      assert before + [lot] + found == before + ([lot] + found);
    }
  }

  /** Scans from the newest signal back, letting accumulated SELL quantity cancel or reduce BUYs.
      The result, newest first, is exactly the stack of the forward simulation. */
  method ScanOpenLots(signals: seq<Signal>) returns (openLots: seq<Lot>)
    ensures openLots == Reverse(OpenStack(signals))
  {
    var remainingSellQty := 0;
    openLots := [];
    ghost var found: seq<Lot> := [];
    var i := |signals|;
    assert signals[..i] == signals && OpenStack(signals) + [] == OpenStack(signals);
    while i > 0
      invariant 0 <= i <= |signals|
      invariant openLots == Reverse(found)
      invariant Scanned(signals, i, remainingSellQty, found)
    {
      i := i - 1;
      var s := signals[i];
      ScanStep(signals, i, remainingSellQty, found);
      if s.qty <= 0 {
        continue;
      }
      if s.action == Sell {
        remainingSellQty := remainingSellQty + s.qty;
        continue;
      }
      if s.action != Buy {
        continue;
      }
      if remainingSellQty >= s.qty {
        remainingSellQty := remainingSellQty - s.qty;
        continue;
      }
      var lot := Lot(s.qty - remainingSellQty, s);
      ReversePrepend(lot, found);
      remainingSellQty := 0;
      openLots := openLots + [lot];
      found := [lot] + found;
    }
    assert [] + found == found;
  }

  lemma {:induction false} ReversePrepend(lot: Lot, lots: seq<Lot>)
    ensures Reverse([lot] + lots) == Reverse(lots) + [lot]
  {
    if lots == [] {
    } else {
      var all := [lot] + lots;
      assert all[..|all| - 1] == [lot] + lots[..|lots| - 1];
      ReversePrepend(lot, lots[..|lots| - 1]);
    }
  }

  lemma {:induction false} ReverseTotal(lots: seq<Lot>)
    ensures Total(Reverse(lots)) == Total(lots)
    ensures lots != [] ==> Reverse(lots)[0] == lots[|lots| - 1]
  {
    if lots == [] {
    } else {
      ReverseTotal(lots[..|lots| - 1]);
      TotalPrepend(lots[|lots| - 1], Reverse(lots[..|lots| - 1]));
    }
  }

  lemma {:induction false} TotalPrepend(lot: Lot, lots: seq<Lot>)
    ensures Total([lot] + lots) == lot.qty + Total(lots)
  {
    if lots == [] {
      assert [lot] + lots == [lot];
    } else {
      var all := [lot] + lots;
      assert all[..|all| - 1] == [lot] + lots[..|lots| - 1];
      TotalPrepend(lot, lots[..|lots| - 1]);
    }
  }

  method SumQty(lots: seq<Lot>) returns (sum: int)
    ensures sum == Total(lots)
  {
    sum := 0;
    for i := 0 to |lots|
      invariant sum == Total(lots[..i])
    {
      assert lots[..i + 1][..i] == lots[..i];
      sum := sum + lots[i].qty;
    }
    assert lots[..|lots|] == lots;
  }

  /** What is recovered for one pair: the held quantity, priced and dated by the newest open lot. */
  function Recovered(signals: seq<Signal>): Option<OpenPosition> {
    var stack := OpenStack(signals);
    if stack == [] then None
    else
      var newest := stack[|stack| - 1].signal;
      Some(OpenPosition(Held(signals), newest.price, newest.date))
  }

  method GroupByPair(rows: seq<Signal>, targets: set<Pair>) returns (byPair: map<Pair, seq<Signal>>)
    ensures byPair.Keys <= targets
    ensures forall pair :: pair in byPair ==> byPair[pair] == SignalsOf(rows, pair)
    ensures forall pair :: pair in targets && pair !in byPair ==> SignalsOf(rows, pair) == []
  {
    byPair := map[];
    for i := 0 to |rows|
      invariant byPair.Keys <= targets
      invariant forall pair :: pair in byPair ==> byPair[pair] == SignalsOf(rows[..i], pair)
      invariant forall pair :: pair in targets && pair !in byPair ==> SignalsOf(rows[..i], pair) == []
    {
      assert rows[..i + 1][..i] == rows[..i];
      var s := rows[i];
      var key := Pair(s.strategy, s.code);
      if s.success && key in targets {
        byPair := byPair[key := (if key in byPair then byPair[key] else []) + [s]];
      }
    }
    assert rows[..|rows|] == rows;
  }

  /** The open position of one pair's signals, if any. */
  method OpenPositionOf(signals: seq<Signal>) returns (position: Option<OpenPosition>)
    ensures position == Recovered(signals) && (position.Some? <==> Held(signals) > 0)
  {
    var openLots := ScanOpenLots(signals);
    StackTotalIsHeld(signals);
    ReverseTotal(OpenStack(signals));
    if openLots == [] {
      return None;
    }
    var qty := SumQty(openLots);
    var newest := openLots[0].signal;
    position := Some(OpenPosition(qty, newest.price, newest.date));
  }

  /** A pair is recovered exactly when it is asked for and still holds something. */
  method LoadOpenSignalMap(rows: seq<Signal>, targets: set<Pair>) returns (open: map<Pair, OpenPosition>)
    ensures forall pair :: pair in open <==> pair in targets && Held(SignalsOf(rows, pair)) > 0
    ensures forall pair :: pair in open ==> Recovered(SignalsOf(rows, pair)) == Some(open[pair])
  {
    open := map[];
    if targets == {} {
      return;
    }
    var byPair := GroupByPair(rows, targets);
    var todo := byPair.Keys;
    while todo != {}
      invariant todo <= byPair.Keys
      invariant forall pair :: pair in open <==> pair in byPair && pair !in todo && Held(byPair[pair]) > 0
      invariant forall pair :: pair in open ==> Recovered(byPair[pair]) == Some(open[pair])
      decreases |todo|
    {
      var pair :| pair in todo;
      var position := OpenPositionOf(byPair[pair]);
      if position.Some? {
        open := open[pair := position.value];
      }
      todo := todo - {pair};
    }
    forall pair | pair in targets && pair !in byPair ensures Held(SignalsOf(rows, pair)) == 0 {
      assert SignalsOf(rows, pair) == [];
    }
  }

  // ---- what is grouped and recovered, in the columns of the rows ----

  lemma SignalsOfSnoc(rows: seq<Signal>, s: Signal, pair: Pair)
    ensures SignalsOf(rows + [s], pair) ==
            if s.success && s.strategy == pair.strategy && s.code == pair.code
            then SignalsOf(rows, pair) + [s] else SignalsOf(rows, pair)
  {
    assert (rows + [s])[..|rows|] == rows;
  }

  lemma {:induction false} SignalsOfAppend(a: seq<Signal>, b: seq<Signal>, pair: Pair)
    ensures SignalsOf(a + b, pair) == SignalsOf(a, pair) + SignalsOf(b, pair)
  {
    if b == [] {
      assert a + b == a;
    } else {
      var n := |b| - 1;
      SignalsOfAppend(a, b[..n], pair);
      assert (a + b)[..|a + b| - 1] == a + b[..n];
    }
  }

  /** Wherever a row stands, it is seen for its own strategy and code if it was successful, and for no other pair. */
  lemma RowIsSeenIff(a: seq<Signal>, s: Signal, b: seq<Signal>, pair: Pair)
    ensures SignalsOf(a + [s] + b, pair) ==
            if s.success && s.strategy == pair.strategy && s.code == pair.code
            then SignalsOf(a, pair) + [s] + SignalsOf(b, pair) else SignalsOf(a + b, pair)
  {
    SignalsOfSnoc(a, s, pair);
    SignalsOfAppend(a + [s], b, pair);
    SignalsOfAppend(a, b, pair);
  }

  /** A failed row, or one of another strategy or code, changes nothing that is recovered for a pair. */
  lemma OtherRowsDoNotCount(a: seq<Signal>, s: Signal, b: seq<Signal>, pair: Pair)
    requires !s.success || s.strategy != pair.strategy || s.code != pair.code
    ensures Held(SignalsOf(a + [s] + b, pair)) == Held(SignalsOf(a + b, pair))
    ensures Recovered(SignalsOf(a + [s] + b, pair)) == Recovered(SignalsOf(a + b, pair))
  {
    RowIsSeenIff(a, s, b, pair);
  }

  /** The recovered price and date are those of one BUY: the last from which on something stays held. */
  lemma RecoveredIsNewestOpen(signals: seq<Signal>)
    ensures Held(signals) <= 0 ==> Recovered(signals) == None
    ensures Held(signals) > 0 ==>
              exists i: nat :: i < |signals| && signals[i].action == Buy
                && HeldFrom(signals, i) && (forall k: nat :: i < k ==> !HeldFrom(signals, k))
                && Recovered(signals) == Some(OpenPosition(Held(signals), signals[i].price, signals[i].date))
  {
    StackTotalIsHeld(signals);
    if Held(signals) > 0 {
      var i := NewestOpen(signals);
      assert signals[i].action == Buy;
    }
  }
}
