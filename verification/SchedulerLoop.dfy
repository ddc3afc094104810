/** One pass of the strategy loop: due strategies are sorted by urgency and run behind a stagger gate. */
module SchedulerLoop {
  import opened Prelude

  const STAGGER_INTERVAL_SEC := 60

  datatype Config = Config(name: Text, enabled: bool, exitsOnClose: bool, intervalMinutes: int)

  /** What the pass learns about one strategy: a forced-exit tier is pending; it has holdings (false if the lookup
      raises); the clock when its run ends, should it run. */
  datatype Condition = Condition(tierPending: bool, holdings: bool, end: int)

  datatype Tick = Tick(now: int, inExitWindow: bool, allowed: bool, conditions: seq<Condition>)

  /** A strategy that wants to run; `overdue` is None when it is infinite. */
  datatype Entry = Entry(pos: nat, force: bool, holdings: bool, overdue: Option<int>)

  datatype LoopState = LoopState(lastRun: map<Text, int>, lastExecution: Option<int>)

  datatype PassResult = PassResult(state: LoopState, ran: seq<Entry>)

  ghost predicate Fits(configs: seq<Config>, t: Tick) {
    |t.conditions| == |configs| && forall i :: 0 <= i < |configs| ==> t.conditions[i].end >= t.now
  }

  ghost predicate DistinctNames(configs: seq<Config>) {
    forall i, j :: 0 <= i < j < |configs| ==> configs[i].name != configs[j].name
  }

  // ---- who wants to run ----

  function Evaluate(c: Config, pos: nat, t: Tick, lastRun: map<Text, int>): (r: Option<Entry>)
    requires pos < |t.conditions|
    ensures r.Some? ==> r.value.pos == pos && !(r.value.force && r.value.holdings)
  {
    var force := c.exitsOnClose && t.conditions[pos].tierPending;
    var regular := !(c.exitsOnClose && t.inExitWindow) && t.allowed;
    if !c.enabled then None
    else if force then Some(Entry(pos, true, false, None))
    else if !regular then None
    else if c.name !in lastRun then Some(Entry(pos, false, t.conditions[pos].holdings, None))
    else if t.now - lastRun[c.name] < c.intervalMinutes * 60 then None
    else Some(Entry(pos, false, t.conditions[pos].holdings, Some(t.now - lastRun[c.name] - c.intervalMinutes * 60)))
  }

  function Due(configs: seq<Config>, n: nat, t: Tick, lastRun: map<Text, int>): seq<Entry>
    requires n <= |configs| == |t.conditions|
  {
    if n == 0 then []
    else Due(configs, n - 1, t, lastRun) +
         match Evaluate(configs[n - 1], n - 1, t, lastRun) case Some(e) => [e] case None => []
  }

  ghost predicate ByPosition(es: seq<Entry>) { forall i, j :: 0 <= i < j < |es| ==> es[i].pos < es[j].pos }

  /** An enabled strategy that exits on close has a tier pending. */
  predicate ForcedDue(c: Config, cond: Condition) { c.enabled && c.exitsOnClose && cond.tierPending }

  /** An enabled strategy may run regularly, and its interval is over or it never ran. */
  predicate RegularDue(c: Config, cond: Condition, t: Tick, lastRun: map<Text, int>) {
    && c.enabled && t.allowed
    && (c.exitsOnClose ==> !cond.tierPending && !t.inExitWindow)
    && (c.name in lastRun ==> t.now >= lastRun[c.name] + c.intervalMinutes * 60)
  }

  /** The entry of a strategy that wants to run, by those two conditions alone. */
  ghost predicate Wants(configs: seq<Config>, n: nat, t: Tick, lastRun: map<Text, int>, e: Entry)
    requires n <= |configs| == |t.conditions|
  {
    e.pos < n &&
    var c, cond := configs[e.pos], t.conditions[e.pos];
    || (ForcedDue(c, cond) && e.force && !e.holdings && e.overdue == None)
    || (RegularDue(c, cond, t, lastRun) && !e.force && e.holdings == cond.holdings
        && e.overdue == if c.name !in lastRun then None
                        else Some(t.now - (lastRun[c.name] + c.intervalMinutes * 60)))
  }

  /** The evaluation in the loop finds exactly the entries wanted. */
  lemma EvaluateMeaning(configs: seq<Config>, n: nat, t: Tick, lastRun: map<Text, int>, e: Entry)
    requires n <= |configs| == |t.conditions| && e.pos < n
    ensures Wants(configs, n, t, lastRun, e) <==> Evaluate(configs[e.pos], e.pos, t, lastRun) == Some(e)
  {
  }

  lemma {:induction false} DueMembers(configs: seq<Config>, n: nat, t: Tick, lastRun: map<Text, int>)
    requires n <= |configs| == |t.conditions|
    ensures forall e :: e in Due(configs, n, t, lastRun) <==> Wants(configs, n, t, lastRun, e)
  {
    if n == 0 {
    } else {
      DueMembers(configs, n - 1, t, lastRun);
    }
  }

  lemma {:induction false} DueByPosition(configs: seq<Config>, n: nat, t: Tick, lastRun: map<Text, int>)
    requires n <= |configs| == |t.conditions|
    ensures ByPosition(Due(configs, n, t, lastRun))
  {
    if n == 0 {
    } else {
      var before := Due(configs, n - 1, t, lastRun);
      DueByPosition(configs, n - 1, t, lastRun);
      DueMembers(configs, n - 1, t, lastRun);
      assert forall i :: 0 <= i < |before| ==> before[i] in before;
    }
  }

  // ---- the order ----

  predicate More(x: Option<int>, y: Option<int>) { y.Some? && (x.None? || x.value > y.value) }

  /** The sort key (force, holdings, overdue), compared descending. */
  predicate Higher(x: Entry, y: Entry) {
    if x.force != y.force then x.force
    else if x.holdings != y.holdings then x.holdings
    else More(x.overdue, y.overdue)
  }

  /** A stable descending sort puts equal keys in configuration order. */
  predicate Before(x: Entry, y: Entry) { Higher(x, y) || (!Higher(y, x) && x.pos < y.pos) }

  function Insert(sorted: seq<Entry>, e: Entry): seq<Entry> {
    if sorted == [] then [e]
    else if Higher(e, sorted[0]) then [e] + sorted
    else [sorted[0]] + Insert(sorted[1..], e)
  }

  function ByUrgency(es: seq<Entry>): seq<Entry> {
    if es == [] then [] else Insert(ByUrgency(es[..|es| - 1]), es[|es| - 1])
  }

  ghost predicate Sorted(es: seq<Entry>) { forall i, j :: 0 <= i < j < |es| ==> Before(es[i], es[j]) }

  lemma {:induction false} InsertMeaning(sorted: seq<Entry>, e: Entry)
    requires Sorted(sorted) && forall f :: f in sorted ==> f.pos < e.pos
    ensures Sorted(Insert(sorted, e)) && |Insert(sorted, e)| == |sorted| + 1
    ensures forall f :: f in Insert(sorted, e) <==> f in sorted || f == e
  {
    if sorted != [] && !Higher(e, sorted[0]) {
      var rest := Insert(sorted[1..], e);
      assert forall f :: f in sorted[1..] ==> f in sorted;
      InsertMeaning(sorted[1..], e);
      assert forall f :: f in sorted <==> f == sorted[0] || f in sorted[1..];
      assert forall k :: 0 <= k < |rest| ==> rest[k] in rest;
    } else if sorted != [] {
      assert forall k :: 0 <= k < |sorted| ==> Before(e, sorted[k]);
    }
  }

  lemma {:induction false} ByUrgencyMeaning(es: seq<Entry>)
    requires ByPosition(es)
    ensures Sorted(ByUrgency(es)) && |ByUrgency(es)| == |es|
    ensures forall e :: e in ByUrgency(es) <==> e in es
  {
    if es == [] {
    } else {
      var n := |es| - 1;
      ByUrgencyMeaning(es[..n]);
      InsertMeaning(ByUrgency(es[..n]), es[n]);
      assert es == es[..n] + [es[n]];
    }
  }

  // ---- the dispatch ----

  predicate Gated(e: Entry) { !e.force && !e.holdings }

  predicate GateOpen(now: int, lastExecution: Option<int>) {
    lastExecution.None? || now - lastExecution.value >= STAGGER_INTERVAL_SEC
  }

  function DispatchOne(configs: seq<Config>, t: Tick, p: PassResult, e: Entry): PassResult
    requires |configs| == |t.conditions| && e.pos < |configs|
  {
    if Gated(e) && !GateOpen(t.now, p.state.lastExecution) then p
    else
      PassResult(LoopState(p.state.lastRun[configs[e.pos].name := t.now],
                           if e.force then p.state.lastExecution else Some(t.conditions[e.pos].end)),
                 p.ran + [e])
  }

  function Dispatch(configs: seq<Config>, t: Tick, s: LoopState, es: seq<Entry>): PassResult
    requires |configs| == |t.conditions| && forall e :: e in es ==> e.pos < |configs|
  {
    if es == [] then PassResult(s, [])
    else DispatchOne(configs, t, Dispatch(configs, t, s, es[..|es| - 1]), es[|es| - 1])
  }

  /** Without the sort and the loop: forced exits and holders always run; one gated strategy runs if the gate is
      open and no holder wants to run, and it is the first of all gated ones in the order. */
  ghost predicate Chosen(es: seq<Entry>, open: bool, e: Entry) {
    && e in es
    && (Gated(e) ==>
          && open
          && (forall f :: f in es ==> !f.holdings)
          && (forall f :: f in es && Gated(f) && f != e ==> Before(e, f)))
  }

  /** No run of these touches the stagger clock. */
  ghost predicate Quiet(es: seq<Entry>, open: bool) { forall e :: e in es ==> e.force || (Gated(e) && !open) }

  lemma LastIsChosenIff(was: seq<Entry>, last: Entry, open: bool)
    requires Sorted(was + [last]) && Gated(last) && forall e :: e in was ==> !(e.force && e.holdings)
    ensures Chosen(was + [last], open, last) <==> Quiet(was, open) && open
  {
    var es := was + [last];
    assert forall i :: 0 <= i < |was| ==> es[i] == was[i] && Before(was[i], es[|was|]);
    assert es[|was|] == last;
    assert forall f :: f in es <==> f in was || f == last;
    if open && !Quiet(was, open) {
      var f :| f in was && !f.force;
      assert Before(f, last) && !Before(last, f);
      assert f in es && (f.holdings || Gated(f));
    }
  }

  lemma EarlierStayChosen(was: seq<Entry>, last: Entry, open: bool, e: Entry)
    requires Sorted(was + [last]) && e in was && !(last.force && last.holdings)
    ensures e != last
    ensures Chosen(was + [last], open, e) <==> Chosen(was, open, e)
  {
    var es := was + [last];
    var k :| 0 <= k < |was| && was[k] == e;
    assert Before(es[k], es[|was|]);
    assert forall f :: f in es <==> f in was || f == last;
  }

  lemma {:induction false} DispatchMeaning(configs: seq<Config>, t: Tick, s: LoopState, es: seq<Entry>)
    requires Fits(configs, t) && Sorted(es) && forall e :: e in es ==> e.pos < |configs| && !(e.force && e.holdings)
    ensures var p, open := Dispatch(configs, t, s, es), GateOpen(t.now, s.lastExecution);
            && (forall e :: e in p.ran <==> Chosen(es, open, e))
            && (if Quiet(es, open) then p.state.lastExecution == s.lastExecution
                else p.state.lastExecution.Some? && p.state.lastExecution.value >= t.now)
  {
    if es == [] {
    } else {
      var n, open := |es| - 1, GateOpen(t.now, s.lastExecution);
      var was, last := es[..n], es[n];
      assert es == was + [last];
      DispatchMeaning(configs, t, s, was);
      var p, q := Dispatch(configs, t, s, was), Dispatch(configs, t, s, es);
      assert q == DispatchOne(configs, t, p, last);
      if Gated(last) { LastIsChosenIff(was, last, open); }
      forall e ensures e in q.ran <==> Chosen(es, open, e) {
        if e in was { EarlierStayChosen(was, last, open, e); }
      }
      assert Quiet(es, open) <==> Quiet(was, open) && (last.force || (Gated(last) && !open));
    }
  }

  function Pass(configs: seq<Config>, t: Tick, s: LoopState): PassResult
    requires |configs| == |t.conditions|
  {
    var es := Due(configs, |configs|, t, s.lastRun);
    OrderIsFaithful(configs, t, s.lastRun);
    Dispatch(configs, t, s, ByUrgency(es))
  }

  lemma OrderIsFaithful(configs: seq<Config>, t: Tick, lastRun: map<Text, int>)
    requires |configs| == |t.conditions|
    ensures var es := ByUrgency(Due(configs, |configs|, t, lastRun));
            Sorted(es) && forall e :: e in es <==> Wants(configs, |configs|, t, lastRun, e)
  {
    DueMembers(configs, |configs|, t, lastRun);
    DueByPosition(configs, |configs|, t, lastRun);
    ByUrgencyMeaning(Due(configs, |configs|, t, lastRun));
  }

  // ---- what a pass does, without its sort and loops ----

  predicate RanAt(ran: seq<Entry>, pos: nat) { exists e :: e in ran && e.pos == pos }

  function LastAt(configs: seq<Config>, s: LoopState, pos: nat): Option<int>
    requires pos < |configs|
  {
    if configs[pos].name in s.lastRun then Some(s.lastRun[configs[pos].name]) else None
  }

  lemma RanAtAppend(ran: seq<Entry>, e: Entry, pos: nat)
    ensures RanAt(ran + [e], pos) <==> RanAt(ran, pos) || e.pos == pos
  {
    var all := ran + [e];
    assert forall f :: f in all <==> f in ran || f == e;
    if e.pos == pos { assert e in all; }
    if RanAt(ran, pos) {
      var f :| f in ran && f.pos == pos;
      assert f in all;
    }
  }

  /** Last-run times after a pass: the pass's own time for what ran, unchanged for the rest. */
  ghost predicate RunsRecorded(configs: seq<Config>, t: Tick, s: LoopState, p: PassResult) {
    forall pos: nat :: pos < |configs| ==>
      LastAt(configs, p.state, pos) == if RanAt(p.ran, pos) then Some(t.now) else LastAt(configs, s, pos)
  }

  lemma {:induction false} DispatchLastRun(configs: seq<Config>, t: Tick, s: LoopState, es: seq<Entry>)
    requires |configs| == |t.conditions| && DistinctNames(configs) && forall e :: e in es ==> e.pos < |configs|
    ensures RunsRecorded(configs, t, s, Dispatch(configs, t, s, es))
    ensures forall e :: e in Dispatch(configs, t, s, es).ran ==> e in es
  {
    if es == [] {
    } else {
      var n := |es| - 1;
      DispatchLastRun(configs, t, s, es[..n]);
      var p, q := Dispatch(configs, t, s, es[..n]), Dispatch(configs, t, s, es);
      assert q == DispatchOne(configs, t, p, es[n]);
      if !Gated(es[n]) || GateOpen(t.now, p.state.lastExecution) {
        assert q.ran == p.ran + [es[n]];
        assert forall e :: e in q.ran <==> e in p.ran || e == es[n];
        forall pos: nat | pos < |configs|
          ensures LastAt(configs, q.state, pos) == if RanAt(q.ran, pos) then Some(t.now) else LastAt(configs, s, pos)
        {
          RanAtAppend(p.ran, es[n], pos);
        }
      }
    }
  }

  ghost predicate GatedWant(configs: seq<Config>, t: Tick, s: LoopState, e: Entry)
    requires |configs| == |t.conditions|
  {
    Wants(configs, |configs|, t, s.lastRun, e) && Gated(e)
  }

  ghost predicate NoHolder(configs: seq<Config>, t: Tick, s: LoopState)
    requires |configs| == |t.conditions|
  {
    forall f :: Wants(configs, |configs|, t, s.lastRun, f) ==> !f.holdings
  }

  /** Exactly which strategies run: every forced exit, every due holder, and, if the gate is open and no holder is due,
      the first gated one in the order. */
  lemma PassRuns(configs: seq<Config>, t: Tick, s: LoopState, e: Entry)
    requires Fits(configs, t)
    ensures e in Pass(configs, t, s).ran <==>
              && Wants(configs, |configs|, t, s.lastRun, e)
              && (Gated(e) ==>
                    && GateOpen(t.now, s.lastExecution)
                    && NoHolder(configs, t, s)
                    && (forall f :: GatedWant(configs, t, s, f) && f != e ==> Before(e, f)))
  {
    OrderIsFaithful(configs, t, s.lastRun);
    DispatchMeaning(configs, t, s, ByUrgency(Due(configs, |configs|, t, s.lastRun)));
  }

  lemma PassState(configs: seq<Config>, t: Tick, s: LoopState)
    requires Fits(configs, t) && DistinctNames(configs)
    ensures var p := Pass(configs, t, s);
            && RunsRecorded(configs, t, s, p)
            && (if forall e :: e in p.ran ==> e.force then p.state.lastExecution == s.lastExecution
                else p.state.lastExecution.Some? && p.state.lastExecution.value >= t.now)
  {
    var es := ByUrgency(Due(configs, |configs|, t, s.lastRun));
    OrderIsFaithful(configs, t, s.lastRun);
    DispatchMeaning(configs, t, s, es);
    DispatchLastRun(configs, t, s, es);
    QuietIffOnlyForced(configs, t, s, es);
  }

  lemma {:induction false} QuietIffOnlyForced(configs: seq<Config>, t: Tick, s: LoopState, es: seq<Entry>)
    requires Fits(configs, t) && Sorted(es) && forall e :: e in es ==> e.pos < |configs| && !(e.force && e.holdings)
    ensures Quiet(es, GateOpen(t.now, s.lastExecution)) <==>
              forall e :: e in Dispatch(configs, t, s, es).ran ==> e.force
  {
    if es == [] {
    } else {
      var n, open := |es| - 1, GateOpen(t.now, s.lastExecution);
      var was, last := es[..n], es[n];
      assert es == was + [last];
      QuietIffOnlyForced(configs, t, s, was);
      DispatchMeaning(configs, t, s, was);
      var p, q := Dispatch(configs, t, s, was), Dispatch(configs, t, s, es);
      assert q == DispatchOne(configs, t, p, last);
      assert Quiet(es, open) <==> Quiet(was, open) && (last.force || (Gated(last) && !open));
      if Gated(last) && !GateOpen(t.now, p.state.lastExecution) {
        assert q == p;
      } else {
        assert q.ran == p.ran + [last];
        assert forall e :: e in q.ran <==> e in p.ran || e == last;
      }
    }
  }

  // ---- consequences for one pass ----

  /** Whatever the gate, the sort and the kill switch do: a pending forced exit always runs; without permission, or in
      the exit window for a strategy that exits on close, nothing but forced exits runs; nothing else runs early. */
  lemma PassIsSafe(configs: seq<Config>, t: Tick, s: LoopState, pos: nat)
    requires Fits(configs, t) && pos < |configs|
    ensures var c, ran := configs[pos], Pass(configs, t, s).ran;
            && (c.enabled && c.exitsOnClose && t.conditions[pos].tierPending ==> Entry(pos, true, false, None) in ran)
            && (forall e :: e in ran && e.pos == pos ==>
                  && c.enabled
                  && (e.force <==> c.exitsOnClose && t.conditions[pos].tierPending)
                  && (!t.allowed || (c.exitsOnClose && t.inExitWindow) ==> e.force)
                  && (!e.force && Deadline(configs, s, pos).Some? ==> t.now >= Deadline(configs, s, pos).value))
  {
    PassRuns(configs, t, s, Entry(pos, true, false, None));
    forall e | e in Pass(configs, t, s).ran && e.pos == pos
      ensures Evaluate(configs[pos], pos, t, s.lastRun) == Some(e)
    {
      PassRuns(configs, t, s, e);
    }
  }

  /** The instant a strategy became due; never having run counts as minus infinity (None). */
  function Deadline(configs: seq<Config>, s: LoopState, pos: nat): Option<int>
    requires pos < |configs|
  {
    match LastAt(configs, s, pos) case None => None case Some(last) => Some(last + configs[pos].intervalMinutes * 60)
  }

  predicate Earlier(x: Option<int>, y: Option<int>) { y.Some? && (x.None? || x.value < y.value) }

  /** Of all gated strategies that want to run, the one that runs has the earliest deadline; equal deadlines go by
      configuration order; no second one runs; and it starts at least the stagger interval after the last recorded
      end. */
  lemma EarliestDeadlineFirst(configs: seq<Config>, t: Tick, s: LoopState, e: Entry)
    requires Fits(configs, t) && e in Pass(configs, t, s).ran && Gated(e)
    ensures e.pos < |configs|
    ensures forall f :: GatedWant(configs, t, s, f) && f != e ==>
              && f !in Pass(configs, t, s).ran
              && (Earlier(Deadline(configs, s, e.pos), Deadline(configs, s, f.pos))
                  || (Deadline(configs, s, e.pos) == Deadline(configs, s, f.pos) && e.pos < f.pos))
    ensures s.lastExecution.Some? ==> t.now >= s.lastExecution.value + STAGGER_INTERVAL_SEC
  {
    PassRuns(configs, t, s, e);
    forall f | GatedWant(configs, t, s, f) && f != e
      ensures f !in Pass(configs, t, s).ran
    {
      PassRuns(configs, t, s, f);
      assert Before(e, f) && !Before(f, e) && GatedWant(configs, t, s, e);
    }
  }

  /** Forced exits come first, then strategies with holdings, then the others. */
  function Rank(e: Entry): nat { if e.force then 2 else if e.holdings then 1 else 0 }

  lemma {:induction false} DispatchKeepsOrder(configs: seq<Config>, t: Tick, s: LoopState, es: seq<Entry>)
    requires |configs| == |t.conditions| && Sorted(es) && forall e :: e in es ==> e.pos < |configs|
    ensures Sorted(Dispatch(configs, t, s, es).ran)
    ensures forall e :: e in Dispatch(configs, t, s, es).ran ==> e in es
  {
    if es == [] {
    } else {
      var n := |es| - 1;
      var p := Dispatch(configs, t, s, es[..n]);
      var ran := p.ran;
      DispatchKeepsOrder(configs, t, s, es[..n]);
      assert Dispatch(configs, t, s, es) == DispatchOne(configs, t, p, es[n]);
      assert forall i :: 0 <= i < n ==> es[..n][i] == es[i] && Before(es[i], es[n]);
      assert forall f :: f in es[..n] ==> Before(f, es[n]);
      assert forall i :: 0 <= i < |ran| ==> ran[i] in ran;
      assert forall e :: e in es[..n] ==> e in es;
    }
  }

  /** `x` runs before `y`: forced exits in configuration order, then strategies with holdings, then the others; among
      regular runs of one kind the earlier deadline first, equal deadlines in configuration order. */
  ghost predicate RunsBefore(configs: seq<Config>, s: LoopState, x: Entry, y: Entry)
    requires x.pos < |configs| && y.pos < |configs|
  {
    || Rank(x) > Rank(y)
    || (Rank(x) == Rank(y) == 2 && x.pos < y.pos)
    || (Rank(x) == Rank(y) < 2 && Earlier(Deadline(configs, s, x.pos), Deadline(configs, s, y.pos)))
    || (Rank(x) == Rank(y) < 2 && Deadline(configs, s, x.pos) == Deadline(configs, s, y.pos) && x.pos < y.pos)
  }

  lemma BeforeMeaning(configs: seq<Config>, t: Tick, s: LoopState, x: Entry, y: Entry)
    requires |configs| == |t.conditions| && Before(x, y)
    requires Wants(configs, |configs|, t, s.lastRun, x) && Wants(configs, |configs|, t, s.lastRun, y)
    ensures RunsBefore(configs, s, x, y)
  {
  }

  /** What runs in a pass runs in that order. */
  lemma PassOrder(configs: seq<Config>, t: Tick, s: LoopState, i: nat, j: nat)
    requires Fits(configs, t) && i < j < |Pass(configs, t, s).ran|
    ensures var x, y := Pass(configs, t, s).ran[i], Pass(configs, t, s).ran[j];
            x.pos < |configs| && y.pos < |configs| && RunsBefore(configs, s, x, y)
  {
    var es, ran := ByUrgency(Due(configs, |configs|, t, s.lastRun)), Pass(configs, t, s).ran;
    OrderIsFaithful(configs, t, s.lastRun);
    DispatchKeepsOrder(configs, t, s, es);
    assert ran[i] in ran && ran[j] in ran;
    BeforeMeaning(configs, t, s, ran[i], ran[j]);
  }

  /** Once the gate is open and no holder is due, a pass with gated candidates does run one. */
  lemma OpportunityIsUsed(configs: seq<Config>, t: Tick, s: LoopState, w: Entry)
    requires Fits(configs, t) && GatedWant(configs, t, s, w)
    requires GateOpen(t.now, s.lastExecution) && NoHolder(configs, t, s)
    ensures exists e :: e in Pass(configs, t, s).ran && Gated(e)
  {
    var es := ByUrgency(Due(configs, |configs|, t, s.lastRun));
    OrderIsFaithful(configs, t, s.lastRun);
    var e := FirstGated(es, w);
    PassRuns(configs, t, s, e);
  }

  lemma {:induction false} FirstGated(es: seq<Entry>, w: Entry) returns (e: Entry)
    requires Sorted(es) && w in es && Gated(w)
    ensures e in es && Gated(e) && forall f :: f in es && Gated(f) && f != e ==> Before(e, f)
  {
    if Gated(es[0]) {
      e := es[0];
      assert forall i :: 0 < i < |es| ==> Before(es[0], es[i]);
    } else {
      assert w in es[1..];
      e := FirstGated(es[1..], w);
      assert forall f :: f in es ==> f == es[0] || f in es[1..];
    }
  }

  // ---- whole runs ----

  ghost predicate IsRun(configs: seq<Config>, ticks: seq<Tick>, states: seq<LoopState>) {
    && |states| == |ticks| + 1
    && (forall k :: 0 <= k < |ticks| ==> Fits(configs, ticks[k]))
    && (forall k :: 0 <= k < |ticks| ==> states[k + 1] == Pass(configs, ticks[k], states[k]).state)
    && (forall j, k :: 0 <= j <= k < |ticks| ==> ticks[j].now <= ticks[k].now)
  }

  /** The strategy at `x` is a gated candidate in every pass from `i` up to `j` and is passed over each time. */
  ghost predicate Waits(configs: seq<Config>, ticks: seq<Tick>, states: seq<LoopState>, x: nat, i: nat, j: nat)
    requires IsRun(configs, ticks, states)
  {
    x < |configs| && i <= j <= |ticks| &&
    forall k :: i <= k < j ==>
      Candidate(configs, ticks[k], states[k], x) && !RanAt(Pass(configs, ticks[k], states[k]).ran, x)
  }

  /** A strategy without holdings that is due: it may run regularly, and its interval is over or it never ran. */
  predicate Candidate(configs: seq<Config>, t: Tick, s: LoopState, x: nat)
    requires |configs| == |t.conditions| && x < |configs|
  {
    RegularDue(configs[x], t.conditions[x], t, s.lastRun) && !t.conditions[x].holdings
  }

  /** A candidate's entry. */
  function EntryOf(configs: seq<Config>, t: Tick, s: LoopState, x: nat): (e: Entry)
    requires |configs| == |t.conditions| && x < |configs| && Candidate(configs, t, s, x)
    ensures GatedWant(configs, t, s, e) && e.pos == x
  {
    Entry(x, false, false,
          match LastAt(configs, s, x)
          case None => None
          case Some(last) => Some(t.now - (last + configs[x].intervalMinutes * 60)))
  }

  lemma {:induction false} WaitingFreezesDeadline(configs: seq<Config>, ticks: seq<Tick>, states: seq<LoopState>,
                                                  x: nat, i: nat, j: nat)
    requires IsRun(configs, ticks, states) && DistinctNames(configs) && Waits(configs, ticks, states, x, i, j)
    ensures LastAt(configs, states[j], x) == LastAt(configs, states[i], x)
  {
    if i < j {
      WaitingFreezesDeadline(configs, ticks, states, x, i, j - 1);
      PassState(configs, ticks[j - 1], states[j - 1]);
    }
  }

  lemma {:induction false} RanNotLongAgo(configs: seq<Config>, ticks: seq<Tick>, states: seq<LoopState>, y: nat,
                                         i: nat, j: nat)
    requires IsRun(configs, ticks, states) && DistinctNames(configs) && y < |configs| && i < j <= |ticks|
    requires RanAt(Pass(configs, ticks[i], states[i]).ran, y)
    ensures LastAt(configs, states[j], y).Some? && LastAt(configs, states[j], y).value >= ticks[i].now
  {
    if i + 1 < j { RanNotLongAgo(configs, ticks, states, y, i, j - 1); }
    PassState(configs, ticks[j - 1], states[j - 1]);
  }

  /** While `x` waits, a strategy that has run, in whatever way, gets no gated run before `x` does. */
  lemma AtMostOnceBefore(configs: seq<Config>, ticks: seq<Tick>, states: seq<LoopState>, x: nat, i: nat, j: nat,
                         e: Entry)
    requires IsRun(configs, ticks, states) && DistinctNames(configs) && i < j < |ticks|
    requires Waits(configs, ticks, states, x, i, j) && Candidate(configs, ticks[j], states[j], x)
    requires e.pos < |configs| && RanAt(Pass(configs, ticks[i], states[i]).ran, e.pos)
    requires configs[e.pos].intervalMinutes > 0 && e.pos != x
    ensures !(Gated(e) && e in Pass(configs, ticks[j], states[j]).ran)
  {
    WaitingFreezesDeadline(configs, ticks, states, x, i, j);
    RanNotLongAgo(configs, ticks, states, e.pos, i, j);
    PassRuns(configs, ticks[j], states[j], e);
    var w := EntryOf(configs, ticks[j], states[j], x);
    assert GatedWant(configs, ticks[j], states[j], w);
    assert ticks[i].now <= ticks[j].now;
    assert Candidate(configs, ticks[i], states[i], x);
    if Evaluate(configs[e.pos], e.pos, ticks[j], states[j].lastRun) == Some(e) {
      assert e.holdings == w.holdings && e.force == w.force ==> Higher(w, e);
    }
  }

  // ---- bounded waiting ----

  /** The position of the gated strategy a pass ran, if any. */
  function GatedWinner(ran: seq<Entry>): (r: Option<nat>)
    ensures r.Some? <==> exists e :: e in ran && Gated(e)
    ensures r.Some? ==> exists e :: e in ran && Gated(e) && e.pos == r.value
  {
    if ran == [] then None
    else if Gated(ran[0]) then
      assert ran[0] in ran;
      Some(ran[0].pos)
    else
      assert forall e :: e in ran <==> e == ran[0] || e in ran[1..];
      GatedWinner(ran[1..])
  }

  ghost predicate Opportunity(configs: seq<Config>, t: Tick, s: LoopState)
    requires |configs| == |t.conditions|
  {
    GateOpen(t.now, s.lastExecution) && NoHolder(configs, t, s)
  }

  ghost function WinnerAt(configs: seq<Config>, ticks: seq<Tick>, states: seq<LoopState>, k: nat): Option<nat>
    requires IsRun(configs, ticks, states) && k < |ticks|
  {
    GatedWinner(Pass(configs, ticks[k], states[k]).ran)
  }

  ghost predicate OpportunityAt(configs: seq<Config>, ticks: seq<Tick>, states: seq<LoopState>, k: nat)
    requires IsRun(configs, ticks, states) && k < |ticks|
  {
    Opportunity(configs, ticks[k], states[k])
  }

  /** The gated runs, and the passes with the gate open and no holder due, from pass `i` up to `j`. */
  ghost function Winners(configs: seq<Config>, ticks: seq<Tick>, states: seq<LoopState>, i: nat, j: nat)
    : seq<Option<nat>>
    requires IsRun(configs, ticks, states) && i <= j <= |ticks|
  {
    seq(j - i, k requires 0 <= k < j - i => WinnerAt(configs, ticks, states, i + k))
  }

  ghost function Opportunities(configs: seq<Config>, ticks: seq<Tick>, states: seq<LoopState>, i: nat, j: nat)
    : seq<bool>
    requires IsRun(configs, ticks, states) && i <= j <= |ticks|
  {
    seq(j - i, k requires 0 <= k < j - i => OpportunityAt(configs, ticks, states, i + k))
  }

  function Present(os: seq<Option<nat>>): seq<nat> {
    if os == [] then []
    else Present(os[..|os| - 1]) + match os[|os| - 1] case Some(p) => [p] case None => []
  }

  function HowMany(bs: seq<bool>): nat {
    if bs == [] then 0 else HowMany(bs[..|bs| - 1]) + if bs[|bs| - 1] then 1 else 0
  }

  ghost predicate Distinct(ps: seq<nat>, bound: nat) {
    (forall i :: 0 <= i < |ps| ==> ps[i] < bound) && forall i, j :: 0 <= i < j < |ps| ==> ps[i] != ps[j]
  }

  lemma {:induction false} Pigeonhole(ps: seq<nat>, bound: nat)
    requires Distinct(ps, bound)
    ensures |ps| <= bound
  {
    assert |ps| > 0 ==> ps[0] < bound;
    if k :| 0 <= k < |ps| && ps[k] == bound - 1 {
      Pigeonhole(ps[..k] + ps[k + 1..], bound - 1);
    } else if bound > 0 {
      Pigeonhole(ps, bound - 1);
    }
  }

  ghost predicate PositiveIntervals(configs: seq<Config>) {
    forall i :: 0 <= i < |configs| ==> configs[i].intervalMinutes > 0
  }

  ghost predicate Fresh(os: seq<Option<nat>>, bound: nat, x: nat) {
    && (forall k :: 0 <= k < |os| && os[k].Some? ==> os[k].value < bound && os[k].value != x)
    && (forall k, l :: 0 <= k < l < |os| && os[k].Some? ==> os[l] != os[k])
  }

  lemma {:induction false} PresentIsDistinct(os: seq<Option<nat>>, bound: nat, x: nat)
    requires Fresh(os, bound, x)
    ensures Distinct(Present(os), bound)
    ensures forall k :: 0 <= k < |Present(os)| ==> Present(os)[k] != x && Some(Present(os)[k]) in os
  {
    if os == [] {
    } else {
      PresentIsDistinct(os[..|os| - 1], bound, x);
    }
  }

  lemma {:induction false} UsedOpportunities(bs: seq<bool>, os: seq<Option<nat>>)
    requires |bs| == |os| && forall k :: 0 <= k < |bs| && bs[k] ==> os[k].Some?
    ensures HowMany(bs) <= |Present(os)|
  {
    if bs == [] {
    } else {
      UsedOpportunities(bs[..|bs| - 1], os[..|os| - 1]);
    }
  }

  /** The gated winner of pass `j` is neither the one waiting nor one that won earlier in the wait. */
  lemma WinnerIsNew(configs: seq<Config>, ticks: seq<Tick>, states: seq<LoopState>, x: nat, i: nat, j: nat)
    requires IsRun(configs, ticks, states) && DistinctNames(configs) && PositiveIntervals(configs)
    requires i <= j < |ticks| && Waits(configs, ticks, states, x, i, j + 1)
    ensures var w := WinnerAt(configs, ticks, states, j);
            w.Some? ==> && w.value < |configs| && w.value != x
                        && (i < j ==> WinnerAt(configs, ticks, states, i) != w)
  {
    var ran := Pass(configs, ticks[j], states[j]).ran;
    if GatedWinner(ran).Some? {
      var e :| e in ran && Gated(e) && e.pos == GatedWinner(ran).value;
      PassRuns(configs, ticks[j], states[j], e);
      assert RanAt(ran, e.pos) && !RanAt(ran, x);
      if i < j && WinnerAt(configs, ticks, states, i) == Some(e.pos) {
        AtMostOnceBefore(configs, ticks, states, x, i, j, e);
      }
    }
  }

  lemma WinnersAreFresh(configs: seq<Config>, ticks: seq<Tick>, states: seq<LoopState>, x: nat, i: nat, j: nat)
    requires IsRun(configs, ticks, states) && DistinctNames(configs) && PositiveIntervals(configs)
    requires Waits(configs, ticks, states, x, i, j)
    ensures Fresh(Winners(configs, ticks, states, i, j), |configs|, x)
  {
    forall k, l | i <= k <= l < j
      ensures var w := WinnerAt(configs, ticks, states, l);
              w.Some? ==> w.value < |configs| && w.value != x && (k < l ==> WinnerAt(configs, ticks, states, k) != w)
    {
      assert Waits(configs, ticks, states, x, k, l + 1);
      WinnerIsNew(configs, ticks, states, x, k, l);
    }
  }

  lemma EveryOpportunityHasWinner(configs: seq<Config>, ticks: seq<Tick>, states: seq<LoopState>, x: nat, i: nat,
                                  j: nat, k: nat)
    requires IsRun(configs, ticks, states) && Waits(configs, ticks, states, x, i, j)
    requires i <= k < j && OpportunityAt(configs, ticks, states, k)
    ensures WinnerAt(configs, ticks, states, k).Some?
  {
    assert Candidate(configs, ticks[k], states[k], x);
    OpportunityIsUsed(configs, ticks[k], states[k], EntryOf(configs, ticks[k], states[k], x));
  }

  /** With n strategies of positive interval, one that stays a gated candidate is passed over in at most n - 1 passes
      that have the gate open and no holder due; and at most n - 1 gated runs of others, all different, precede its
      own. */
  lemma BoundedWaiting(configs: seq<Config>, ticks: seq<Tick>, states: seq<LoopState>, x: nat, i: nat, j: nat)
    requires IsRun(configs, ticks, states) && DistinctNames(configs) && PositiveIntervals(configs)
    requires Waits(configs, ticks, states, x, i, j)
    ensures var ws := Present(Winners(configs, ticks, states, i, j));
            HowMany(Opportunities(configs, ticks, states, i, j)) <= |ws| <= |configs| - 1 && Distinct(ws, |configs|)
  {
    var ws := Winners(configs, ticks, states, i, j);
    WinnersAreFresh(configs, ticks, states, x, i, j);
    PresentIsDistinct(ws, |configs|, x);
    Pigeonhole(Present(ws) + [x], |configs|);
    forall k | i <= k < j && OpportunityAt(configs, ticks, states, k)
      ensures WinnerAt(configs, ticks, states, k).Some?
    {
      EveryOpportunityHasWinner(configs, ticks, states, x, i, j, k);
    }
    UsedOpportunities(Opportunities(configs, ticks, states, i, j), ws);
  }

  // ---- the loop body ----

  class StrategyScheduler {
    const configs: seq<Config>
    var lastRun: map<Text, int>
    var lastExecutionTime: Option<int>

    ghost function State(): LoopState reads this { LoopState(lastRun, lastExecutionTime) }

    constructor (configs: seq<Config>)
      ensures this.configs == configs && State() == LoopState(map[], None)
    {
      this.configs := configs;
      lastRun := map[];
      lastExecutionTime := None;
    }

    method CollectDue(t: Tick) returns (evaluations: seq<Entry>)
      requires |configs| == |t.conditions|
      ensures evaluations == Due(configs, |configs|, t, lastRun)
    {
      evaluations := [];
      for i := 0 to |configs|
        invariant evaluations == Due(configs, i, t, lastRun)
      {
        var e := Evaluate(configs[i], i, t, lastRun);
        if e.Some? {
          evaluations := evaluations + [e.value];
        }
      }
    }

    method RunInOrder(t: Tick, evaluations: seq<Entry>) returns (ran: seq<Entry>)
      requires |configs| == |t.conditions| && forall e :: e in evaluations ==> e.pos < |configs|
      modifies this
      ensures PassResult(State(), ran) == Dispatch(configs, t, old(State()), evaluations)
    {
      ran := [];
      for i := 0 to |evaluations|
        invariant PassResult(State(), ran) == Dispatch(configs, t, old(State()), evaluations[..i])
      {
        var e := evaluations[i];
        assert evaluations[..i + 1][..i] == evaluations[..i];
        if !e.force && !e.holdings && lastExecutionTime.Some? &&
            t.now - lastExecutionTime.value < STAGGER_INTERVAL_SEC {
          continue;
        }
        lastRun := lastRun[configs[e.pos].name := t.now];
        ran := ran + [e];
        if !e.force {
          lastExecutionTime := Some(t.conditions[e.pos].end);
        }
      }
      assert evaluations[..|evaluations|] == evaluations;
    }

    /** One pass of the loop inside trading hours and before the order cutoff. */
    method RunPass(t: Tick) returns (ran: seq<Entry>)
      requires |configs| == |t.conditions|
      modifies this
      ensures PassResult(State(), ran) == Pass(configs, t, old(State()))
    {
      var evaluations := CollectDue(t);
      OrderIsFaithful(configs, t, lastRun);
      ran := RunInOrder(t, ByUrgency(evaluations));
    }
  }
}
