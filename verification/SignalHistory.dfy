/** The scheduler's in-memory signal history: trimming, the two queries on it, and force-exit recovery. */
module SignalHistory {
  import opened Prelude
  import opened Signals
  import opened OpenSignalScan

  const MAX_HISTORY := 200

  /** An empty date prefix (`None`) matches every record. */
  predicate OnDate(s: Signal, day: Option<int>) { day.None? || s.date == day.value }

  function OnDay(history: seq<Signal>, day: int): seq<Signal> {
    if history == [] then []
    else
      var before, s := OnDay(history[..|history| - 1], day), history[|history| - 1];
      if s.date == day then before + [s] else before
  }

  predicate Selects(s: Signal, pair: Pair, onlySuccess: bool, day: Option<int>) {
    s.strategy == pair.strategy && s.code == pair.code && (onlySuccess ==> s.success) && OnDate(s, day)
  }

  function Matching(history: seq<Signal>, pair: Pair, onlySuccess: bool, day: Option<int>): seq<Signal> {
    if history == [] then []
    else
      var before, s := Matching(history[..|history| - 1], pair, onlySuccess, day), history[|history| - 1];
      if Selects(s, pair, onlySuccess, day) then before + [s] else before
  }

  // ---- the queries ----

  function Signed(s: Signal): int {
    match s.action
    case Buy => s.qty
    case Sell => -s.qty
    case Other => 0
  }

  lemma NetStep(history: seq<Signal>, i: nat, pair: Pair, onlySuccess: bool, day: Option<int>)
    requires i < |history|
    ensures Net(Matching(history[..i + 1], pair, onlySuccess, day)) ==
            Net(Matching(history[..i], pair, onlySuccess, day))
            + if Selects(history[i], pair, onlySuccess, day) then Signed(history[i]) else 0
  {
    assert history[..i + 1][..i] == history[..i];
    var before := Matching(history[..i], pair, onlySuccess, day);
    assert (before + [history[i]])[..|before|] == before;
  }

  method GetSignalNetQty(history: seq<Signal>, pair: Pair, onlySuccess: bool, day: Option<int>) returns (net: int)
    ensures net == Net(Matching(history, pair, onlySuccess, day))
  {
    net := 0;
    for i := 0 to |history|
      invariant net == Net(Matching(history[..i], pair, onlySuccess, day))
    {
      var s := history[i];
      NetStep(history, i, pair, onlySuccess, day);
      if Selects(s, pair, onlySuccess, day) {
        if s.action == Buy {
          net := net + s.qty;
        } else if s.action == Sell {
          net := net - s.qty;
        }
      }
    }
    assert history[..|history|] == history;
  }

  /** The newest lot that is still open, by the forward simulation. */
  function LatestOpen(signals: seq<Signal>): Option<Signal> {
    var stack := OpenStack(signals);
    if stack == [] then None else Some(stack[|stack| - 1].signal)
  }

  /** Number of selected records among the first `i`. */
  function Rank(history: seq<Signal>, i: nat, pair: Pair, onlySuccess: bool, day: Option<int>): nat
    requires i <= |history|
  {
    |Matching(history[..i], pair, onlySuccess, day)|
  }

  /** A selected record sits in the selection at its rank. */
  lemma {:induction false} RankIsPosition(history: seq<Signal>, i: nat, pair: Pair, onlySuccess: bool, day: Option<int>)
    requires i < |history|
    ensures var m, k := Matching(history, pair, onlySuccess, day), Rank(history, i, pair, onlySuccess, day);
            if Selects(history[i], pair, onlySuccess, day)
            then Rank(history, i + 1, pair, onlySuccess, day) == k + 1 && k < |m| && m[k] == history[i]
            else Rank(history, i + 1, pair, onlySuccess, day) == k && k <= |m|
    decreases |history|
  {
    var n := |history| - 1;
    var prefix := history[..n];
    assert history[..i + 1][..i] == history[..i];
    assert history[..n + 1] == history;
    if i < n {
      assert prefix[..i] == history[..i] && prefix[..i + 1] == history[..i + 1];
      RankIsPosition(prefix, i, pair, onlySuccess, day);
    }
  }

  /** The search has read back to `i` without finding an open BUY: the selected records below `i`,
      after selling `remaining` more units, leave the whole stack. */
  ghost predicate Unread(history: seq<Signal>, i: nat, pair: Pair, onlySuccess: bool, day: Option<int>, remaining: int)
    requires i <= |history|
  {
    var m := Matching(history, pair, onlySuccess, day);
    Rank(history, i, pair, onlySuccess, day) <= |m|
    && Scanned(m, Rank(history, i, pair, onlySuccess, day), remaining, [])
  }

  /** A BUY that outlasts the SELLs read so far is the latest open one. */
  lemma ScanFinds(m: seq<Signal>, k: nat, remaining: int)
    requires k < |m| && m[k].action.Buy? && 0 <= remaining < m[k].qty && Scanned(m, k + 1, remaining, [])
    ensures LatestOpen(m) == Some(m[k])
  {
    ScanStep(m, k, remaining, []);
    assert OpenStack(m)[|OpenStack(m)| - 1] == Lot(m[k].qty - remaining, m[k]);
  }

  /** Reading one selected record back. */
  lemma ScanBack(m: seq<Signal>, k: nat, remaining: int)
    requires k < |m| && m[k].qty >= 0 && Scanned(m, k + 1, remaining, [])
    ensures m[k].action.Other? ==> Scanned(m, k, remaining, [])
    ensures m[k].action.Sell? ==> Scanned(m, k, remaining + m[k].qty, [])
    ensures m[k].action.Buy? && remaining >= m[k].qty ==> Scanned(m, k, remaining - m[k].qty, [])
    ensures m[k].action.Buy? && remaining < m[k].qty ==> LatestOpen(m) == Some(m[k])
  {
    if m[k].action.Buy? && remaining < m[k].qty {
      ScanFinds(m, k, remaining);
    } else {
      ScanStep(m, k, remaining, []);
    }
  }

  lemma ReadBack(history: seq<Signal>, i: nat, pair: Pair, onlySuccess: bool, day: Option<int>, remaining: int)
    requires i < |history| && NonNegative(history) && Unread(history, i + 1, pair, onlySuccess, day, remaining)
    ensures var s := history[i];
            if !Selects(s, pair, onlySuccess, day) || s.action.Other?
            then Unread(history, i, pair, onlySuccess, day, remaining)
            else if s.action.Sell? then Unread(history, i, pair, onlySuccess, day, remaining + s.qty)
            else if remaining >= s.qty then Unread(history, i, pair, onlySuccess, day, remaining - s.qty)
            else LatestOpen(Matching(history, pair, onlySuccess, day)) == Some(s)
  {
    RankIsPosition(history, i, pair, onlySuccess, day);
    if Selects(history[i], pair, onlySuccess, day) {
      ScanBack(Matching(history, pair, onlySuccess, day), Rank(history, i, pair, onlySuccess, day), remaining);
    }
  }

  lemma NothingRead(history: seq<Signal>, pair: Pair, onlySuccess: bool, day: Option<int>)
    ensures Unread(history, |history|, pair, onlySuccess, day, 0)
  {
    var m := Matching(history, pair, onlySuccess, day);
    assert history[..|history|] == history && m[..|m|] == m;
    assert OpenStack(m) + [] == OpenStack(m);
  }

  /** With non-negative quantities the backward search finds the top of the forward stack. */
  method GetLatestOpenBuyRecord(history: seq<Signal>, pair: Pair, onlySuccess: bool, day: Option<int>)
    returns (record: Option<Signal>)
    ensures NonNegative(history) ==> record == LatestOpen(Matching(history, pair, onlySuccess, day))
  {
    NothingRead(history, pair, onlySuccess, day);
    var remainingSellQty := 0;
    var i := |history|;
    while i > 0
      invariant 0 <= i <= |history|
      invariant NonNegative(history) ==> Unread(history, i, pair, onlySuccess, day, remainingSellQty)
    {
      i := i - 1;
      var s := history[i];
      if NonNegative(history) {
        ReadBack(history, i, pair, onlySuccess, day, remainingSellQty);
      }
      if !Selects(s, pair, onlySuccess, day) {
        continue;
      }
      if s.action == Sell {
        remainingSellQty := remainingSellQty + s.qty;
        continue;
      }
      if s.action != Buy {
        continue;
      }
      if remainingSellQty >= s.qty {
        remainingSellQty := remainingSellQty - s.qty;
        continue;
      }
      return Some(s);
    }
    record := None;
  }

  lemma {:induction false} MatchingNonNegative(history: seq<Signal>, pair: Pair, onlySuccess: bool, day: Option<int>)
    requires NonNegative(history)
    ensures NonNegative(Matching(history, pair, onlySuccess, day))
  {
    if history == [] {
    } else {
      MatchingNonNegative(history[..|history| - 1], pair, onlySuccess, day);
    }
  }

  /** A positive net quantity always comes with an open BUY record. */
  lemma PositiveNetHasOpenBuy(history: seq<Signal>, pair: Pair, onlySuccess: bool, day: Option<int>)
    requires NonNegative(history)
    ensures var m := Matching(history, pair, onlySuccess, day);
            && (LatestOpen(m).Some? <==> Held(m) > 0)
            && (LatestOpen(m).Some? ==> LatestOpen(m).value.action == Buy)
            && Held(m) >= Net(m)
            && (Net(m) > 0 ==> LatestOpen(m).Some?)
  {
    var m := Matching(history, pair, onlySuccess, day);
    MatchingNonNegative(history, pair, onlySuccess, day);
    StackTotalIsHeld(m);
    HeldEqualsNetIff(m);
  }

  // ---- whose records count, in the fields of the records ----

  lemma {:induction false} MatchingSnoc(history: seq<Signal>, s: Signal, pair: Pair, onlySuccess: bool,
                                        day: Option<int>)
    ensures Matching(history + [s], pair, onlySuccess, day) ==
            if s.strategy == pair.strategy && s.code == pair.code && (onlySuccess ==> s.success)
               && (day.Some? ==> s.date == day.value)
            then Matching(history, pair, onlySuccess, day) + [s] else Matching(history, pair, onlySuccess, day)
  {
    assert (history + [s])[..|history|] == history;
  }

  lemma {:induction false} MatchingAppend(a: seq<Signal>, b: seq<Signal>, pair: Pair, onlySuccess: bool,
                                          day: Option<int>)
    ensures Matching(a + b, pair, onlySuccess, day) ==
            Matching(a, pair, onlySuccess, day) + Matching(b, pair, onlySuccess, day)
  {
    if b == [] {
      assert a + b == a;
    } else {
      var n := |b| - 1;
      MatchingAppend(a, b[..n], pair, onlySuccess, day);
      assert (a + b)[..|a + b| - 1] == a + b[..n];
    }
  }

  /** Wherever it stands in the history, a record of another strategy, another code or another day, or a failed one
      where success is asked for, changes neither query, nor what is recovered. */
  lemma OthersDoNotCount(a: seq<Signal>, s: Signal, b: seq<Signal>, pair: Pair, onlySuccess: bool, day: Option<int>)
    requires s.strategy != pair.strategy || s.code != pair.code || (onlySuccess && !s.success)
             || (day.Some? && s.date != day.value)
    ensures var m, m' := Matching(a + b, pair, onlySuccess, day), Matching(a + [s] + b, pair, onlySuccess, day);
            m' == m && Net(m') == Net(m) && LatestOpen(m') == LatestOpen(m)
    ensures onlySuccess ==> forall brokerQty, activeBuy ::
              Recovery(a + [s] + b, pair, day, brokerQty, activeBuy) == Recovery(a + b, pair, day, brokerQty, activeBuy)
  {
    MatchingSnoc(a, s, pair, onlySuccess, day);
    MatchingAppend(a + [s], b, pair, onlySuccess, day);
    MatchingAppend(a, b, pair, onlySuccess, day);
  }

  lemma {:induction false} NetOfBoth(a: seq<Signal>, b: seq<Signal>)
    ensures Net(a + b) == Net(a) + Net(b)
  {
    if b == [] {
      assert a + b == a;
    } else {
      var n := |b| - 1;
      NetOfBoth(a, b[..n]);
      assert (a + b)[..|a + b| - 1] == a + b[..n];
    }
  }

  lemma NetOfOne(s: Signal)
    ensures Net([s]) == if s.action == Buy then s.qty else if s.action == Sell then -s.qty else 0
  {
    assert [s][..0] == [];
    assert Net([]) == 0;
  }

  /** A record of the pair and day moves the net quantity by its own: up for a BUY, down for a SELL. */
  lemma OwnRecordMovesNet(a: seq<Signal>, s: Signal, b: seq<Signal>, pair: Pair, onlySuccess: bool, day: Option<int>)
    requires s.strategy == pair.strategy && s.code == pair.code && (onlySuccess ==> s.success)
             && (day.Some? ==> s.date == day.value)
    ensures Net(Matching(a + [s] + b, pair, onlySuccess, day)) == Net(Matching(a + b, pair, onlySuccess, day))
              + if s.action == Buy then s.qty else if s.action == Sell then -s.qty else 0
  {
    MatchingSnoc(a, s, pair, onlySuccess, day);
    MatchingAppend(a + [s], b, pair, onlySuccess, day);
    MatchingAppend(a, b, pair, onlySuccess, day);
    var m, n := Matching(a, pair, onlySuccess, day), Matching(b, pair, onlySuccess, day);
    NetOfBoth(m + [s], n);
    NetOfBoth(m, [s]);
    NetOfBoth(m, n);
    NetOfOne(s);
  }

  /** The latest open BUY is the pair's record from which on the pair last holds something. */
  lemma LatestOpenIsLastHeld(history: seq<Signal>, pair: Pair, onlySuccess: bool, day: Option<int>)
    ensures var m := Matching(history, pair, onlySuccess, day);
            && (Held(m) <= 0 ==> LatestOpen(m) == None)
            && (Held(m) > 0 ==>
                  exists i: nat :: i < |m| && m[i].action == Buy && LatestOpen(m) == Some(m[i])
                                   && HeldFrom(m, i) && (forall k: nat :: i < k ==> !HeldFrom(m, k)))
  {
    var m := Matching(history, pair, onlySuccess, day);
    StackTotalIsHeld(m);
    if Held(m) > 0 {
      var i := NewestOpen(m);
      assert m[i].action == Buy;
    }
  }

  // ---- trimming ----

  /** Keeps the newest MAX_HISTORY records, and of the older ones only today's. With no clock nothing older is kept. */
  function Trim(history: seq<Signal>, today: Option<int>): seq<Signal> {
    if |history| <= MAX_HISTORY then history
    else
      var cut := |history| - MAX_HISTORY;
      (if today.Some? then OnDay(history[..cut], today.value) else []) + history[cut..]
  }

  lemma {:induction false} OnDayAppend(a: seq<Signal>, b: seq<Signal>, day: int)
    ensures OnDay(a + b, day) == OnDay(a, day) + OnDay(b, day)
  {
    if b == [] {
      assert a + b == a;
    } else {
      assert (a + b)[..|a + b| - 1] == a + b[..|b| - 1];
      OnDayAppend(a, b[..|b| - 1], day);
    }
  }

  lemma {:induction false} OnDayIdempotent(a: seq<Signal>, today: int, day: int)
    ensures OnDay(OnDay(a, today), day) == if day == today then OnDay(a, day) else []
    ensures |OnDay(a, today)| <= |a|
  {
    if a == [] {
    } else {
      var prefix := a[..|a| - 1];
      OnDayIdempotent(prefix, today, day);
      OnDayAppend(OnDay(prefix, today), [a[|a| - 1]], day);
      assert OnDay([a[|a| - 1]], day) == if a[|a| - 1].date == day then [a[|a| - 1]] else [];
    }
  }

  /** One trim keeps the records of `day` exactly when nothing of that day overflows, or `day` is today. */
  lemma TrimKeepsDayIff(history: seq<Signal>, today: Option<int>, day: int)
    ensures OnDay(Trim(history, today), day) == OnDay(history, day) <==>
            today == Some(day) || |history| <= MAX_HISTORY || OnDay(history[..|history| - MAX_HISTORY], day) == []
  {
    if |history| > MAX_HISTORY {
      var cut := |history| - MAX_HISTORY;
      assert history == history[..cut] + history[cut..];
      OnDayAppend(history[..cut], history[cut..], day);
      var kept := if today.Some? then OnDay(history[..cut], today.value) else [];
      OnDayAppend(kept, history[cut..], day);
      if today.Some? { OnDayIdempotent(history[..cut], today.value, day); }
      if OnDay(kept, day) != OnDay(history[..cut], day) {
        assert OnDay(kept, day) == [];
        assert |OnDay(Trim(history, today), day)| != |OnDay(history, day)|;
      }
    }
  }

  /** One `_record_signal` call: the record, and the date the clock showed. */
  datatype Call = Call(record: Signal, today: int)

  function RunCalls(history: seq<Signal>, calls: seq<Call>): seq<Signal> {
    if calls == [] then history
    else
      var last := calls[|calls| - 1];
      Trim(RunCalls(history, calls[..|calls| - 1]) + [last.record], Some(last.today))
  }

  function Untrimmed(history: seq<Signal>, calls: seq<Call>): seq<Signal> {
    if calls == [] then history else Untrimmed(history, calls[..|calls| - 1]) + [calls[|calls| - 1].record]
  }

  /** The clock never goes back, and no record is dated after the call that stores it. */
  ghost predicate ForwardClock(history: seq<Signal>, calls: seq<Call>) {
    && (forall i, j :: 0 <= i < j < |calls| ==> calls[i].today <= calls[j].today)
    && (forall i :: 0 <= i < |calls| ==> calls[i].record.date <= calls[i].today)
    && (forall i, j :: 0 <= i < |history| && 0 <= j < |calls| ==> history[i].date <= calls[j].today)
  }

  lemma {:induction false} NothingLater(history: seq<Signal>, day: int)
    requires forall i :: 0 <= i < |history| ==> history[i].date < day
    ensures OnDay(history, day) == []
  {
    if history == [] {
    } else {
      NothingLater(history[..|history| - 1], day);
    }
  }

  lemma {:induction false} TrimSubset(history: seq<Signal>, day: int)
    ensures forall i :: 0 <= i < |OnDay(history, day)| ==> OnDay(history, day)[i] in history
  {
    if history == [] {
    } else {
      var prefix := history[..|history| - 1];
      TrimSubset(prefix, day);
      assert forall s :: s in prefix ==> s in history;
    }
  }

  lemma {:induction false} RunDates(history: seq<Signal>, calls: seq<Call>, bound: int)
    requires forall i :: 0 <= i < |history| ==> history[i].date <= bound
    requires forall i :: 0 <= i < |calls| ==> calls[i].record.date <= bound
    ensures forall s :: s in RunCalls(history, calls) ==> s.date <= bound
    ensures forall s :: s in Untrimmed(history, calls) ==> s.date <= bound
  {
    if calls == [] {
    } else {
      var last := calls[|calls| - 1];
      RunDates(history, calls[..|calls| - 1], bound);
      var grown := RunCalls(history, calls[..|calls| - 1]) + [last.record];
      if |grown| > MAX_HISTORY {
        TrimSubset(grown[..|grown| - MAX_HISTORY], last.today);
      }
    }
  }

  lemma TrimOnForwardClock(grown: seq<Signal>, today: int, day: int)
    requires today <= day && forall s :: s in grown ==> s.date <= today
    ensures OnDay(Trim(grown, Some(today)), day) == OnDay(grown, day)
  {
    TrimKeepsDayIff(grown, Some(today), day);
    if today < day && |grown| > MAX_HISTORY {
      var overflow := grown[..|grown| - MAX_HISTORY];
      forall i | 0 <= i < |overflow| ensures overflow[i].date < day {
        assert overflow[i] == grown[i] && grown[i] in grown;
      }
      NothingLater(overflow, day);
    }
  }

  /** Trimming is invisible on the current day: over any run on a forward clock, today's records in the
      trimmed history are today's records of the untrimmed one, in the same order. */
  lemma {:induction false} TodayUntouched(history: seq<Signal>, calls: seq<Call>, day: int)
    requires ForwardClock(history, calls)
    requires forall i :: 0 <= i < |calls| ==> calls[i].today <= day
    ensures OnDay(RunCalls(history, calls), day) == OnDay(Untrimmed(history, calls), day)
  {
    if calls == [] {
    } else {
      var prefix, last := calls[..|calls| - 1], calls[|calls| - 1];
      ForwardPrefix(history, calls);
      TodayUntouched(history, prefix, day);
      var state, full := RunCalls(history, prefix), Untrimmed(history, prefix);
      OnDayAppend(state, [last.record], day);
      OnDayAppend(full, [last.record], day);
      RunDates(history, prefix, last.today);
      TrimOnForwardClock(state + [last.record], last.today, day);
    }
  }

  lemma ForwardPrefix(history: seq<Signal>, calls: seq<Call>)
    requires ForwardClock(history, calls) && calls != []
    ensures var prefix, last := calls[..|calls| - 1], calls[|calls| - 1];
            && ForwardClock(history, prefix)
            && last.record.date <= last.today
            && (forall i :: 0 <= i < |prefix| ==> prefix[i] == calls[i])
            && (forall i :: 0 <= i < |prefix| ==> prefix[i].record.date <= last.today)
            && (forall i :: 0 <= i < |history| ==> history[i].date <= last.today)
  {
    var prefix, last := calls[..|calls| - 1], calls[|calls| - 1];
    forall i | 0 <= i < |prefix| ensures prefix[i].record.date <= last.today {
      assert calls[i].today <= calls[|calls| - 1].today;
    }
  }

  lemma {:induction false} MatchingOfDay(history: seq<Signal>, pair: Pair, onlySuccess: bool, day: int)
    ensures Matching(history, pair, onlySuccess, Some(day)) ==
              Matching(OnDay(history, day), pair, onlySuccess, Some(day))
  {
    if history == [] {
    } else {
      var prefix, s := history[..|history| - 1], history[|history| - 1];
      MatchingOfDay(prefix, pair, onlySuccess, day);
      if s.date == day {
        assert (OnDay(prefix, day) + [s])[..|OnDay(prefix, day)|] == OnDay(prefix, day);
      }
    }
  }

  /** So today's net quantity and latest open BUY are what the untrimmed history would answer. */
  lemma TodayQueriesUntouched(history: seq<Signal>, calls: seq<Call>, day: int, pair: Pair, onlySuccess: bool)
    requires ForwardClock(history, calls)
    requires forall i :: 0 <= i < |calls| ==> calls[i].today <= day
    ensures var trimmed, full := RunCalls(history, calls), Untrimmed(history, calls);
            && Net(Matching(trimmed, pair, onlySuccess, Some(day))) == Net(Matching(full, pair, onlySuccess, Some(day)))
            && LatestOpen(Matching(trimmed, pair, onlySuccess, Some(day))) ==
                  LatestOpen(Matching(full, pair, onlySuccess, Some(day)))
  {
    TodayUntouched(history, calls, day);
    MatchingOfDay(RunCalls(history, calls), pair, onlySuccess, day);
    MatchingOfDay(Untrimmed(history, calls), pair, onlySuccess, day);
  }

  /** `part` is `whole` with some records left out. */
  predicate Subsequence(part: seq<Signal>, whole: seq<Signal>) {
    part == [] || (whole != [] &&
      ((part[|part| - 1] == whole[|whole| - 1] && Subsequence(part[..|part| - 1], whole[..|whole| - 1]))
       || Subsequence(part, whole[..|whole| - 1])))
  }

  lemma {:induction false} SubsequenceTransitive(a: seq<Signal>, b: seq<Signal>, c: seq<Signal>)
    requires Subsequence(a, b) && Subsequence(b, c)
    ensures Subsequence(a, c)
    decreases |b| + |c|
  {
    if a == [] {
    } else {
      var c' := c[..|c| - 1];
      if Subsequence(b, c') {
        SubsequenceTransitive(a, b, c');
      } else {
        var b' := b[..|b| - 1];
        if Subsequence(a, b') {
          SubsequenceTransitive(a, b', c');
        } else {
          SubsequenceTransitive(a[..|a| - 1], b', c');
        }
      }
    }
  }

  lemma {:induction false} SubsequenceAppend(a: seq<Signal>, b: seq<Signal>, tail: seq<Signal>)
    requires Subsequence(a, b)
    ensures Subsequence(a + tail, b + tail)
  {
    if tail == [] {
      assert a + tail == a && b + tail == b;
    } else {
      var t := tail[..|tail| - 1];
      SubsequenceAppend(a, b, t);
      assert (a + tail)[..|a + tail| - 1] == a + t && (b + tail)[..|b + tail| - 1] == b + t;
    }
  }

  lemma {:induction false} OnDaySubsequence(history: seq<Signal>, day: int)
    ensures Subsequence(OnDay(history, day), history)
  {
    if history == [] {
    } else {
      var prefix, s := history[..|history| - 1], history[|history| - 1];
      OnDaySubsequence(prefix, day);
      if s.date == day {
        assert (OnDay(prefix, day) + [s])[..|OnDay(prefix, day)|] == OnDay(prefix, day);
      }
    }
  }

  /** The trimmed history keeps the order of the untrimmed one, and after a call holds at most
      MAX_HISTORY records plus the older ones of that call's day. */
  lemma {:induction false} TrimmedOrderAndSize(history: seq<Signal>, calls: seq<Call>)
    ensures Subsequence(RunCalls(history, calls), Untrimmed(history, calls))
    ensures calls != [] ==>
              |RunCalls(history, calls)| <= MAX_HISTORY + |OnDay(Untrimmed(history, calls), calls[|calls| - 1].today)|
  {
    if calls == [] {
      SubsequenceAppend([], [], history);
      assert [] + history == history;
    } else {
      var prefix, last := calls[..|calls| - 1], calls[|calls| - 1];
      TrimmedOrderAndSize(history, prefix);
      var state, full := RunCalls(history, prefix), Untrimmed(history, prefix);
      SubsequenceAppend(state, full, [last.record]);
      var grown := state + [last.record];
      if |grown| > MAX_HISTORY {
        var cut := |grown| - MAX_HISTORY;
        OnDaySubsequence(grown[..cut], last.today);
        SubsequenceAppend(OnDay(grown[..cut], last.today), grown[..cut], grown[cut..]);
        assert grown[..cut] + grown[cut..] == grown;
        SubsequenceTransitive(Trim(grown, Some(last.today)), grown, full + [last.record]);
        OnDayAppend(grown[..cut], grown[cut..], last.today);
        SubsequenceOnDay(grown, full + [last.record], last.today);
      }
    }
  }

  lemma {:induction false} SubsequenceOnDay(a: seq<Signal>, b: seq<Signal>, day: int)
    requires Subsequence(a, b)
    ensures |OnDay(a, day)| <= |OnDay(b, day)|
    decreases |b|
  {
    if a == [] {
    } else {
      var b' := b[..|b| - 1];
      if Subsequence(a, b') {
        SubsequenceOnDay(a, b', day);
      } else {
        SubsequenceOnDay(a[..|a| - 1], b', day);
      }
    }
  }

  class SignalLog {
    var history: seq<Signal>

    constructor (loaded: seq<Signal>)
      ensures history == loaded
    {
      history := loaded;
    }

    method RecordSignal(record: Signal, today: Option<int>)
      modifies this
      ensures history == Trim(old(history) + [record], today)
    {
      history := history + [record];
      if |history| > MAX_HISTORY {
        var cut := |history| - MAX_HISTORY;
        var overflow := history[..cut];
        var kept: seq<Signal> := [];
        for i := 0 to |overflow|
          invariant kept == if today.Some? then OnDay(overflow[..i], today.value) else []
          invariant history == old(history) + [record]
        {
          assert overflow[..i + 1][..i] == overflow[..i];
          if today.Some? && overflow[i].date == today.value {
            kept := kept + [overflow[i]];
          }
        }
        assert overflow[..|overflow|] == overflow;
        history := kept + history[cut..];
      }
    }
  }

  // ---- force-exit recovery ----

  /** A holding to liquidate; `record` is the BUY it was recovered from, absent for ledger holdings. */
  datatype Holding = Holding(qty: int, record: Option<Signal>)

  /** What is recovered for one code that the ledger does not hold. */
  function Recovery(history: seq<Signal>, pair: Pair, day: Option<int>, brokerQty: int, activeBuy: bool)
    : Option<Holding>
  {
    var m := Matching(history, pair, true, day);
    if activeBuy || brokerQty <= 0 || Net(m) <= 0 then None
    else Some(Holding(Min(Net(m), brokerQty), LatestOpen(m)))
  }

  /** A code is recovered exactly if no BUY of it is under way and both the broker and the net quantity are positive;
      the holding is then the smaller of both, no more than the open quantity, and has a successful BUY record of the
      strategy, the code and the day behind it. */
  lemma RecoveryIsBacked(history: seq<Signal>, pair: Pair, day: Option<int>, brokerQty: int, activeBuy: bool)
    requires NonNegative(history)
    ensures var r, m := Recovery(history, pair, day, brokerQty, activeBuy), Matching(history, pair, true, day);
            && (r.Some? <==> !activeBuy && brokerQty > 0 && Net(m) > 0)
            && (r.Some? ==>
                  && 0 < r.value.qty <= brokerQty && r.value.qty <= Net(m) <= Held(m)
                  && (r.value.qty == brokerQty || r.value.qty == Net(m))
                  && r.value.record.Some?
                  && var buy := r.value.record.value;
                     && buy in history && buy.action == Buy && buy.strategy == pair.strategy && buy.code == pair.code
                     && buy.success && (day.Some? ==> buy.date == day.value))
  {
    PositiveNetHasOpenBuy(history, pair, true, day);
    StackSignals(Matching(history, pair, true, day));
    MatchingMembers(history, pair, true, day);
  }

  lemma {:induction false} StackSignals(signals: seq<Signal>)
    ensures forall i :: 0 <= i < |OpenStack(signals)| ==> OpenStack(signals)[i].signal in signals
  {
    if signals == [] {
    } else {
      var prefix, s := signals[..|signals| - 1], signals[|signals| - 1];
      StackSignals(prefix);
      PopSignals(OpenStack(prefix), s.qty, signals);
    }
  }

  lemma {:induction false} PopSignals(stack: seq<Lot>, qty: int, signals: seq<Signal>)
    requires forall i :: 0 <= i < |stack| ==> stack[i].signal in signals
    ensures forall i :: 0 <= i < |Pop(stack, qty)| ==> Pop(stack, qty)[i].signal in signals
  {
    if stack != [] && qty > 0 && qty >= stack[|stack| - 1].qty {
      PopSignals(stack[..|stack| - 1], qty - stack[|stack| - 1].qty, signals);
    }
  }

  lemma {:induction false} MatchingMembers(history: seq<Signal>, pair: Pair, onlySuccess: bool, day: Option<int>)
    ensures forall s :: s in Matching(history, pair, onlySuccess, day) <==>
              s in history && Selects(s, pair, onlySuccess, day)
  {
    if history == [] {
    } else {
      MatchingMembers(history[..|history| - 1], pair, onlySuccess, day);
      assert history == history[..|history| - 1] + [history[|history| - 1]];
    }
  }

  predicate BuyOf(s: Signal, strategy: Text, code: Text, day: Option<int>) {
    s.strategy == strategy && s.action == Buy && s.success && s.code == code && (day.Some? ==> s.date == day.value)
  }

  /** Codes with a successful BUY of the strategy on the day, without repetition. */
  method CandidateCodes(history: seq<Signal>, strategy: Text, day: Option<int>) returns (codes: seq<Text>)
    ensures forall code :: code in codes <==>
              code != EMPTY && exists i :: 0 <= i < |history| && BuyOf(history[i], strategy, code, day)
    ensures forall i, j :: 0 <= i < j < |codes| ==> codes[i] != codes[j]
  {
    codes := [];
    for i := 0 to |history|
      invariant forall code :: code in codes <==>
                  code != EMPTY && exists j :: 0 <= j < i && BuyOf(history[j], strategy, code, day)
      invariant forall j, k :: 0 <= j < k < |codes| ==> codes[j] != codes[k]
    {
      var s := history[i];
      if s.strategy == strategy && s.action == Buy && s.success && s.code != EMPTY && OnDate(s, day)
         && s.code !in codes {
        codes := codes + [s.code];
      }
    }
  }

  function BrokerQty(broker: map<Text, int>, code: Text): int { if code in broker then broker[code] else 0 }

  /** Ledger holdings stay as they are; every other code with a BUY of the day is added exactly when it is recovered. */
  method GetForceLiquidationHoldings(history: seq<Signal>, strategy: Text, day: Option<int>,
                                     ledger: map<Text, Holding>, broker: map<Text, int>, activeBuys: set<Text>)
    returns (merged: map<Text, Holding>)
    ensures forall code :: code in ledger ==> code in merged && merged[code] == ledger[code]
    ensures broker == map[] ==> merged == ledger
    ensures broker != map[] && NonNegative(history) ==> forall code :: code != EMPTY && code !in ledger ==>
              var r := Recovery(history, Pair(strategy, code), day, BrokerQty(broker, code), code in activeBuys);
              if r.Some? then code in merged && merged[code] == r.value else code !in merged
  {
    merged := ledger;
    if broker == map[] {
      return;
    }
    var codes := CandidateCodes(history, strategy, day);
    for i := 0 to |codes|
      invariant forall code :: code in ledger ==> code in merged && merged[code] == ledger[code]
      invariant NonNegative(history) ==> forall code :: code !in ledger ==>
                  var r := Recovery(history, Pair(strategy, code), day, BrokerQty(broker, code), code in activeBuys);
                  if code in codes[..i] && r.Some? then code in merged && merged[code] == r.value else code !in merged
    {
      var code := codes[i];
      assert codes[..i + 1] == codes[..i] + [code];
      var pair := Pair(strategy, code);
      var brokerQty := if code in broker then broker[code] else 0;
      if code !in merged && code !in activeBuys && brokerQty > 0 {
        var net := GetSignalNetQty(history, pair, true, day);
        if net > 0 {
          var latest := GetLatestOpenBuyRecord(history, pair, true, day);
          merged := merged[code := Holding(Min(net, brokerQty), latest)];
        }
      }
    }
    assert codes[..|codes|] == codes;
    forall code | NonNegative(history) && code != EMPTY && code !in ledger && code !in codes
      ensures Recovery(history, Pair(strategy, code), day, BrokerQty(broker, code), code in activeBuys).None?
    {
      RecoveredIsCandidate(history, Pair(strategy, code), day, BrokerQty(broker, code), code in activeBuys);
    }
  }

  lemma RecoveredIsCandidate(history: seq<Signal>, pair: Pair, day: Option<int>, brokerQty: int, activeBuy: bool)
    requires NonNegative(history) && pair.code != EMPTY
    ensures Recovery(history, pair, day, brokerQty, activeBuy).Some? ==>
              exists i :: 0 <= i < |history| && BuyOf(history[i], pair.strategy, pair.code, day)
  {
    var r := Recovery(history, pair, day, brokerQty, activeBuy);
    if r.Some? {
      RecoveryIsBacked(history, pair, day, brokerQty, activeBuy);
      var i :| 0 <= i < |history| && history[i] == r.value.record.value;
      assert history[i].code == pair.code;
    }
  }
}
