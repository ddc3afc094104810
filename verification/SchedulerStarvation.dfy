/** When strategies without holdings get their turn, and when those with holdings starve them. */
module SchedulerStarvation {
  import opened Prelude
  import opened SchedulerLoop

  // ---- when a gated strategy gets its turn ----

  ghost predicate GatedTurn(configs: seq<Config>, t: Tick, s: LoopState)
    requires |configs| == |t.conditions|
  {
    exists e :: e in Pass(configs, t, s).ran && Gated(e)
  }

  /** A strategy with holdings is due: it may run regularly, and its interval is over or it never ran. */
  predicate HolderDue(configs: seq<Config>, t: Tick, s: LoopState, h: nat)
    requires |configs| == |t.conditions| && h < |configs|
  {
    RegularDue(configs[h], t.conditions[h], t, s.lastRun) && t.conditions[h].holdings
  }

  lemma HolderDueRuns(configs: seq<Config>, t: Tick, s: LoopState, h: nat)
    requires Fits(configs, t) && h < |configs|
    ensures var r := Evaluate(configs[h], h, t, s.lastRun);
            HolderDue(configs, t, s, h) <==> r.Some? && r.value.holdings
    ensures HolderDue(configs, t, s, h) ==> RanAt(Pass(configs, t, s).ran, h) && !NoHolder(configs, t, s)
  {
    var r := Evaluate(configs[h], h, t, s.lastRun);
    if HolderDue(configs, t, s, h) {
      assert Wants(configs, |configs|, t, s.lastRun, r.value);
      PassRuns(configs, t, s, r.value);
    }
  }

  /** Exactly when a pass gives a gated strategy its turn: one is a candidate, the gate is open, and no holder is
      due. */
  lemma GatedTurnIff(configs: seq<Config>, t: Tick, s: LoopState)
    requires Fits(configs, t)
    ensures GatedTurn(configs, t, s) <==>
              && (exists x :: 0 <= x < |configs| && Candidate(configs, t, s, x))
              && GateOpen(t.now, s.lastExecution)
              && (forall h :: 0 <= h < |configs| ==> !HolderDue(configs, t, s, h))
  {
    forall h | 0 <= h < |configs|
      ensures var r := Evaluate(configs[h], h, t, s.lastRun); HolderDue(configs, t, s, h) <==>
                r.Some? && r.value.holdings
    {
      HolderDueRuns(configs, t, s, h);
    }
    if GatedTurn(configs, t, s) {
      var e :| e in Pass(configs, t, s).ran && Gated(e);
      PassRuns(configs, t, s, e);
      assert Candidate(configs, t, s, e.pos);
    }
    if x :| 0 <= x < |configs| && Candidate(configs, t, s, x) && Opportunity(configs, t, s) {
      OpportunityIsUsed(configs, t, s, EntryOf(configs, t, s, x));
    }
    if forall h :: 0 <= h < |configs| ==> !HolderDue(configs, t, s, h) {
      forall f | Wants(configs, |configs|, t, s.lastRun, f) ensures !f.holdings {
        assert f.pos < |configs| && !HolderDue(configs, t, s, f.pos);
      }
    }
  }

  /** The end of the last run that was not a forced exit. */
  function LastEnd(ran: seq<Entry>, t: Tick): Option<int>
    requires forall e :: e in ran ==> e.pos < |t.conditions|
  {
    if ran == [] then None
    else if !ran[|ran| - 1].force then Some(t.conditions[ran[|ran| - 1].pos].end)
    else LastEnd(ran[..|ran| - 1], t)
  }

  /** The stagger clock shows the end of the last regular run of the pass, or what it showed before. */
  lemma {:induction false} DispatchClock(configs: seq<Config>, t: Tick, s: LoopState, es: seq<Entry>)
    requires |configs| == |t.conditions| && forall e :: e in es ==> e.pos < |configs|
    ensures var p := Dispatch(configs, t, s, es);
            && (forall e :: e in p.ran ==> e.pos < |configs|)
            && p.state.lastExecution == match LastEnd(p.ran, t) case Some(end) => Some(end) case None => s.lastExecution
  {
    if es == [] {
    } else {
      var n := |es| - 1;
      var p, q := Dispatch(configs, t, s, es[..n]), Dispatch(configs, t, s, es);
      DispatchClock(configs, t, s, es[..n]);
      assert q == DispatchOne(configs, t, p, es[n]);
      if q != p { assert q.ran[..|p.ran|] == p.ran; }
    }
  }

  lemma PassClock(configs: seq<Config>, t: Tick, s: LoopState)
    requires Fits(configs, t)
    ensures var p := Pass(configs, t, s);
            && (forall e :: e in p.ran ==> e.pos < |configs|)
            && p.state.lastExecution == match LastEnd(p.ran, t) case Some(end) => Some(end) case None => s.lastExecution
  {
    OrderIsFaithful(configs, t, s.lastRun);
    DispatchClock(configs, t, s, ByUrgency(Due(configs, |configs|, t, s.lastRun)));
  }

  /** What the stagger clock shows before pass `k`: the end of the last regular run of the passes before it. */
  ghost function ClockAt(configs: seq<Config>, ticks: seq<Tick>, states: seq<LoopState>, k: nat): Option<int>
    requires IsRun(configs, ticks, states) && k <= |ticks|
  {
    if k == 0 then states[0].lastExecution
    else
      PassClock(configs, ticks[k - 1], states[k - 1]);
      match LastEnd(Pass(configs, ticks[k - 1], states[k - 1]).ran, ticks[k - 1])
      case Some(end) => Some(end)
      case None => ClockAt(configs, ticks, states, k - 1)
  }

  lemma {:induction false} ClockIsLastEnd(configs: seq<Config>, ticks: seq<Tick>, states: seq<LoopState>, k: nat)
    requires IsRun(configs, ticks, states) && k <= |ticks|
    ensures states[k].lastExecution == ClockAt(configs, ticks, states, k)
  {
    if k == 0 {
    } else {
      ClockIsLastEnd(configs, ticks, states, k - 1);
      PassClock(configs, ticks[k - 1], states[k - 1]);
    }
  }

  /** No gated strategy runs from pass `i` up to `j`. */
  ghost predicate Starved(configs: seq<Config>, ticks: seq<Tick>, states: seq<LoopState>, i: nat, j: nat)
    requires IsRun(configs, ticks, states)
  {
    i <= j <= |ticks| && forall k :: i <= k < j ==> !GatedTurn(configs, ticks[k], states[k])
  }

  /** Pass `k` passes over all gated strategies: none is a candidate, or a holder is due, or the last regular run ended
      less than the stagger interval ago. */
  ghost predicate PassedOver(configs: seq<Config>, ticks: seq<Tick>, states: seq<LoopState>, k: nat)
    requires IsRun(configs, ticks, states) && k < |ticks|
  {
    || (forall x :: 0 <= x < |configs| ==> !Candidate(configs, ticks[k], states[k], x))
    || (exists h :: 0 <= h < |configs| && HolderDue(configs, ticks[k], states[k], h))
    || !GateOpen(ticks[k].now, ClockAt(configs, ticks, states, k))
  }

  /** Over any window of any run: gated strategies starve exactly if every pass has one of these three reasons. */
  lemma StarvedIff(configs: seq<Config>, ticks: seq<Tick>, states: seq<LoopState>, i: nat, j: nat)
    requires IsRun(configs, ticks, states) && i <= j <= |ticks|
    ensures Starved(configs, ticks, states, i, j) <==> forall k :: i <= k < j ==> PassedOver(configs, ticks, states, k)
  {
    forall k | i <= k < j ensures GatedTurn(configs, ticks[k], states[k]) <==> !PassedOver(configs, ticks, states, k) {
      GatedTurnIff(configs, ticks[k], states[k]);
      ClockIsLastEnd(configs, ticks, states, k);
    }
  }

  // ---- intervals and run times that guarantee a turn ----

  /** Passes from `i` up to `j` start at most `period` apart, and each starts after the runs of the one before ended. */
  ghost predicate Paced(configs: seq<Config>, ticks: seq<Tick>, i: nat, j: nat, period: int) {
    && period >= 0 && i <= j <= |ticks|
    && (forall k :: i <= k < j ==> |ticks[k].conditions| == |configs|)
    && (forall k, l :: i <= k < l < j && l == k + 1 ==> ticks[l].now <= ticks[k].now + period)
    && (forall k, l, p :: i <= k < l < j && l == k + 1 && 0 <= p < |configs| ==>
          ticks[k].conditions[p].end <= ticks[l].now)
  }

  ghost predicate SomeCandidate(configs: seq<Config>, t: Tick, s: LoopState)
    requires |configs| == |t.conditions|
  {
    exists x :: 0 <= x < |configs| && Candidate(configs, t, s, x)
  }

  /** In every pass some gated strategy would like to run, and none does. */
  ghost predicate Hungry(configs: seq<Config>, ticks: seq<Tick>, states: seq<LoopState>, i: nat, j: nat)
    requires IsRun(configs, ticks, states)
  {
    && Starved(configs, ticks, states, i, j)
    && forall k :: i <= k < j ==> SomeCandidate(configs, ticks[k], states[k])
  }

  /** Longest time from one pass with a due holder to the next while gated strategies starve. */
  function Gap(period: int): int { STAGGER_INTERVAL_SEC + 2 * period }

  function Times(n: nat, gap: int): int { if n == 0 then 0 else Times(n - 1, gap) + gap }

  /** A window in which a gated strategy gets its turn among m holders, and how far apart such windows start. */
  function Window(m: nat, period: int): int { Times(m + 1, Gap(period)) + STAGGER_INTERVAL_SEC + period }

  function Stride(m: nat, period: int): int { Window(m, period) + 2 * period }

  lemma {:induction false} TimesIsProduct(n: nat, gap: int)
    ensures Times(n, gap) == n * gap
  {
    if n == 0 {
    } else {
      TimesIsProduct(n - 1, gap);
    }
  }

  /** Both in seconds, for m holders and passes at most `period` apart. */
  lemma WindowAndStride(m: nat, period: int)
    ensures Window(m, period) == (m + 1) * (60 + 2 * period) + 60 + period
    ensures Stride(m, period) == (m + 1) * (60 + 2 * period) + 60 + 3 * period
  {
    TimesIsProduct(m + 1, Gap(period));
  }

  lemma {:induction false} TimesGrows(m: nat, n: nat, gap: int)
    requires m <= n && gap >= 0
    ensures Times(m, gap) <= Times(n, gap)
  {
    if m == n {
    } else {
      TimesGrows(m, n - 1, gap);
    }
  }

  ghost predicate HolderPass(configs: seq<Config>, ticks: seq<Tick>, states: seq<LoopState>, k: nat)
    requires IsRun(configs, ticks, states) && k < |ticks|
  {
    exists h :: 0 <= h < |configs| && HolderDue(configs, ticks[k], states[k], h)
  }

  /** While gated strategies starve, a pass without a due holder leaves the stagger clock alone. */
  lemma IdlePass(configs: seq<Config>, ticks: seq<Tick>, states: seq<LoopState>, i: nat, j: nat, k: nat)
    requires IsRun(configs, ticks, states) && DistinctNames(configs) && Hungry(configs, ticks, states, i, j)
    requires i <= k < j && !HolderPass(configs, ticks, states, k)
    ensures states[k + 1].lastExecution == states[k].lastExecution
    ensures states[k].lastExecution.Some? && ticks[k].now < states[k].lastExecution.value + STAGGER_INTERVAL_SEC
  {
    var t, s := ticks[k], states[k];
    assert SomeCandidate(configs, t, s) && !GatedTurn(configs, t, s);
    GatedTurnIff(configs, t, s);
    PassState(configs, t, s);
    forall e | e in Pass(configs, t, s).ran ensures e.force {
      PassRuns(configs, t, s, e);
      HolderDueRuns(configs, t, s, e.pos);
      assert !HolderDue(configs, t, s, e.pos);
    }
  }

  /** After a pass with a due holder the stagger clock is at most a period after its start. */
  lemma ClockAfterHolder(configs: seq<Config>, ticks: seq<Tick>, states: seq<LoopState>, i: nat, j: nat, period: int,
                         k: nat)
    requires IsRun(configs, ticks, states) && Paced(configs, ticks, i, j, period)
    requires i <= k && k + 1 < j && HolderPass(configs, ticks, states, k)
    ensures states[k + 1].lastExecution.Some? && states[k + 1].lastExecution.value <= ticks[k].now + period
  {
    var t, s := ticks[k], states[k];
    var h :| 0 <= h < |configs| && HolderDue(configs, t, s, h);
    HolderDueRuns(configs, t, s, h);
    var e := Evaluate(configs[h], h, t, s.lastRun).value;
    assert Wants(configs, |configs|, t, s.lastRun, e);
    PassRuns(configs, t, s, e);
    PassClock(configs, t, s);
    RegularRunEnds(Pass(configs, t, s).ran, t, e, ticks[k + 1].now);
  }

  lemma {:induction false} RegularRunEnds(ran: seq<Entry>, t: Tick, e: Entry, latest: int)
    requires forall f :: f in ran ==> f.pos < |t.conditions|
    requires forall p :: 0 <= p < |t.conditions| ==> t.conditions[p].end <= latest
    requires e in ran && !e.force
    ensures LastEnd(ran, t).Some? && LastEnd(ran, t).value <= latest
  {
    var n := |ran| - 1;
    assert ran == ran[..n] + [ran[n]];
    if !ran[n].force {
      assert ran[n] in ran;
    } else {
      RegularRunEnds(ran[..n], t, e, latest);
    }
  }

  /** What a famine looks like from outside, from pass `from` on: the starts of the passes, the stagger clock before
      each, and which of them have a due holder. Without one the gate is shut and the clock stays; after one the clock
      shows a recent end. */
  ghost predicate Famine(starts: seq<int>, clock: seq<Option<int>>, due: seq<bool>, period: int, from: nat) {
    && |starts| == |clock| == |due| && period >= 0
    && (forall k :: from <= k < |starts| && !due[k] ==>
          clock[k].Some? && starts[k] < clock[k].value + STAGGER_INTERVAL_SEC)
    && (forall k :: from <= k < |starts| - 1 && !due[k] ==> clock[k + 1] == clock[k])
    && (forall k :: from <= k < |starts| - 1 && due[k] ==>
          clock[k + 1].Some? && clock[k + 1].value <= starts[k] + period)
    && (forall k, l :: from <= k < l < |starts| && l == k + 1 ==> starts[l] <= starts[k] + period)
  }

  /** The next pass with a due holder, when the stagger clock and pass `a` are not long after `base`. */
  lemma {:induction false} NextHolderPass(starts: seq<int>, clock: seq<Option<int>>, due: seq<bool>, period: int,
                                          a: nat, base: int)
    returns (k: nat)
    requires Famine(starts, clock, due, period, a) && a < |starts|
    requires clock[a].Some? ==> clock[a].value <= base + period
    requires starts[a] < base + Gap(period)
    requires starts[|starts| - 1] >= base + STAGGER_INTERVAL_SEC + period
    ensures a <= k < |starts| && due[k] && starts[k] < base + Gap(period)
    decreases |starts| - a
  {
    if due[a] {
      k := a;
    } else {
      assert a != |starts| - 1;
      k := NextHolderPass(starts, clock, due, period, a + 1, base);
    }
  }

  /** Passes with a due holder, from `a` on, that follow each other within the gap. */
  ghost predicate Chain(starts: seq<int>, due: seq<bool>, a: nat, base: int, gap: int, ks: seq<nat>)
    requires |starts| == |due|
  {
    && (forall p :: 0 <= p < |ks| ==> a <= ks[p] < |starts| && due[ks[p]] && starts[ks[p]] < base + Times(p + 1, gap))
    && (forall p, q :: 0 <= p < q < |ks| ==>
          ks[p] < ks[q] < |starts| && starts[ks[q]] < starts[ks[p]] + Times(q - p, gap))
  }

  lemma ChainCons(starts: seq<int>, due: seq<bool>, a: nat, base: int, gap: int, k: nat, rest: seq<nat>)
    requires |starts| == |due| && a <= k < |starts| && due[k] && starts[k] < base + gap
    requires Chain(starts, due, k + 1, starts[k], gap, rest)
    ensures Chain(starts, due, a, base, gap, [k] + rest)
  {
    var ks := [k] + rest;
    assert Times(1, gap) == gap by { assert Times(0, gap) == 0; }
    forall p | 0 <= p < |ks| ensures starts[ks[p]] < base + Times(p + 1, gap) {
      if p > 0 { assert ks[p] == rest[p - 1] && Times(p + 1, gap) == Times(p, gap) + gap; }
    }
    forall p, q | 0 <= p < q < |ks| ensures ks[p] < ks[q] && starts[ks[q]] < starts[ks[p]] + Times(q - p, gap) {
      assert ks[q] == rest[q - 1];
      if p > 0 { assert ks[p] == rest[p - 1]; }
    }
  }

  lemma FamineGoesOn(starts: seq<int>, clock: seq<Option<int>>, due: seq<bool>, period: int, a: nat, k: nat)
    requires Famine(starts, clock, due, period, a) && a <= k < |starts| - 1 && due[k]
    ensures Famine(starts, clock, due, period, k + 1)
    ensures clock[k + 1].Some? && clock[k + 1].value <= starts[k] + period
    ensures starts[k + 1] < starts[k] + Gap(period)
  {
  }

  /** As long as a famine lasts, passes with a due holder follow each other within the gap. */
  lemma {:induction false} ChainOfHolderPasses(starts: seq<int>, clock: seq<Option<int>>, due: seq<bool>, period: int,
                                               a: nat, base: int, n: nat) returns (ks: seq<nat>)
    requires Famine(starts, clock, due, period, a) && a < |starts|
    requires clock[a].Some? ==> clock[a].value <= base + period
    requires starts[a] < base + Gap(period)
    requires starts[|starts| - 1] >= base + Times(n, Gap(period)) + STAGGER_INTERVAL_SEC + period
    ensures |ks| == n && Chain(starts, due, a, base, Gap(period), ks)
    decreases n
  {
    if n == 0 {
      ks := [];
    } else {
      TimesGrows(0, n - 1, Gap(period));
      var last := starts[|starts| - 1];
      assert last >= base + Gap(period) + Times(n - 1, Gap(period)) + STAGGER_INTERVAL_SEC + period;
      var k := NextHolderPass(starts, clock, due, period, a, base);
      assert starts[k] < last;
      FamineGoesOn(starts, clock, due, period, a, k);
      var rest := ChainOfHolderPasses(starts, clock, due, period, k + 1, starts[k], n - 1);
      ks := [k] + rest;
      ChainCons(starts, due, a, base, Gap(period), k, rest);
    }
  }

  predicate Listed(ps: seq<nat>, p: nat) { exists r :: 0 <= r < |ps| && ps[r] == p }

  function Place(ps: seq<nat>, p: nat): (r: nat)
    requires Listed(ps, p)
    ensures r < |ps| && ps[r] == p
  {
    if ps[|ps| - 1] == p then |ps| - 1
    else
      assert forall r :: 0 <= r < |ps| && ps[r] == p ==> r < |ps| - 1 && ps[..|ps| - 1][r] == p;
      Place(ps[..|ps| - 1], p)
  }

  /** All due holders of the window are among `holders`, and each repeats no faster than all their gaps together. */
  ghost predicate SlowHolders(configs: seq<Config>, ticks: seq<Tick>, states: seq<LoopState>, i: nat, j: nat,
                              period: int,
                              holders: seq<nat>)
    requires IsRun(configs, ticks, states) && j <= |ticks|
  {
    && (forall r :: 0 <= r < |holders| ==>
          holders[r] < |configs| && configs[holders[r]].intervalMinutes * 60 >= Times(|holders|, Gap(period)))
    && (forall k, h :: i <= k < j && 0 <= h < |configs| && HolderDue(configs, ticks[k], states[k], h) ==>
          Listed(holders, h))
  }

  /** A holder due in two of the passes of a chain has an interval shorter than the time between them. */
  lemma DueTwice(configs: seq<Config>, ticks: seq<Tick>, states: seq<LoopState>, h: nat, k: nat, l: nat)
    requires IsRun(configs, ticks, states) && DistinctNames(configs) && h < |configs| && k < l < |ticks|
    requires HolderDue(configs, ticks[k], states[k], h) && HolderDue(configs, ticks[l], states[l], h)
    ensures ticks[l].now >= ticks[k].now + configs[h].intervalMinutes * 60
  {
    HolderDueRuns(configs, ticks[k], states[k], h);
    RanNotLongAgo(configs, ticks, states, h, k, l);
  }

  /** For each pass of a list, which of the holders is due. */
  lemma {:induction false} WhoIsDue(configs: seq<Config>, ticks: seq<Tick>, states: seq<LoopState>, i: nat, j: nat,
                                    period: int,
                                    holders: seq<nat>, ks: seq<nat>) returns (ws: seq<nat>)
    requires IsRun(configs, ticks, states) && j <= |ticks| && SlowHolders(configs, ticks, states, i, j, period, holders)
    requires forall p :: 0 <= p < |ks| ==> i <= ks[p] < j && HolderPass(configs, ticks, states, ks[p])
    ensures |ws| == |ks|
    ensures forall p :: 0 <= p < |ws| ==>
              ws[p] < |holders| && HolderDue(configs, ticks[ks[p]], states[ks[p]], holders[ws[p]])
  {
    if ks == [] {
      ws := [];
    } else {
      var n := |ks| - 1;
      var front := WhoIsDue(configs, ticks, states, i, j, period, holders, ks[..n]);
      var k := ks[n];
      assert HolderPass(configs, ticks, states, k);
      var h :| 0 <= h < |configs| && HolderDue(configs, ticks[k], states[k], h);
      assert Listed(holders, h);
      ws := front + [Place(holders, h)];
    }
  }

  /** A window of a run in which gated strategies starve although some are candidates is a famine. */
  lemma HungryIsFamine(configs: seq<Config>, ticks: seq<Tick>, states: seq<LoopState>, i: nat, j: nat, period: int,
                       starts: seq<int>, clock: seq<Option<int>>, due: seq<bool>)
    requires IsRun(configs, ticks, states) && DistinctNames(configs) && Hungry(configs, ticks, states, i, j)
    requires Paced(configs, ticks, i, j, period) && |starts| == |clock| == |due| == j
    requires forall k :: 0 <= k < j ==> Seen(configs, ticks, states, k, starts[k], clock[k], due[k])
    ensures Famine(starts, clock, due, period, i)
  {
    forall k | i <= k < j
      ensures !due[k] ==> clock[k].Some? && starts[k] < clock[k].value + STAGGER_INTERVAL_SEC
      ensures k < j - 1 && !due[k] ==> clock[k + 1] == clock[k]
      ensures k < j - 1 && due[k] ==> clock[k + 1].Some? && clock[k + 1].value <= starts[k] + period
    {
      assert Seen(configs, ticks, states, k, starts[k], clock[k], due[k]);
      if k < j - 1 { assert Seen(configs, ticks, states, k + 1, starts[k + 1], clock[k + 1], due[k + 1]); }
      if !due[k] {
        IdlePass(configs, ticks, states, i, j, k);
      } else if k < j - 1 {
        ClockAfterHolder(configs, ticks, states, i, j, period, k);
      }
    }
  }

  /** What is seen of pass `k`: its start, the clock before it, and whether a holder is due. */
  ghost predicate Seen(configs: seq<Config>, ticks: seq<Tick>, states: seq<LoopState>, k: nat,
                       start: int, clock: Option<int>, due: bool)
    requires IsRun(configs, ticks, states) && k < |ticks|
  {
    start == ticks[k].now && clock == states[k].lastExecution && (due <==> HolderPass(configs, ticks, states, k))
  }

  lemma Observe(configs: seq<Config>, ticks: seq<Tick>, states: seq<LoopState>, j: nat)
    returns (starts: seq<int>, clock: seq<Option<int>>, due: seq<bool>)
    requires IsRun(configs, ticks, states) && j <= |ticks|
    ensures |starts| == |clock| == |due| == j
    ensures forall k :: 0 <= k < j ==> Seen(configs, ticks, states, k, starts[k], clock[k], due[k])
  {
    starts := seq(j, k requires 0 <= k < j => ticks[k].now);
    clock := seq(j, k requires 0 <= k < j => states[k].lastExecution);
    due := seq(j, k requires 0 <= k < j => HolderPass(configs, ticks, states, k));
  }

  /** Ascending passes, each at most a gap after the one before. */
  ghost predicate CloseTogether(ticks: seq<Tick>, ks: seq<nat>, gap: int)
    requires forall p :: 0 <= p < |ks| ==> ks[p] < |ticks|
  {
    forall p, q :: 0 <= p < q < |ks| ==> ks[p] < ks[q] && ticks[ks[q]].now < ticks[ks[p]].now + Times(q - p, gap)
  }

  /** So it has as many holder passes, close together, as its length allows. */
  lemma HungryChain(configs: seq<Config>, ticks: seq<Tick>, states: seq<LoopState>, i: nat, j: nat, period: int, n: nat)
    returns (ks: seq<nat>)
    requires IsRun(configs, ticks, states) && DistinctNames(configs) && Hungry(configs, ticks, states, i, j) && i < j
    requires Paced(configs, ticks, i, j, period)
    requires states[i].lastExecution.Some? ==> states[i].lastExecution.value <= ticks[i].now
    requires ticks[j - 1].now >= ticks[i].now + Times(n, Gap(period)) + STAGGER_INTERVAL_SEC + period
    ensures |ks| == n && forall p :: 0 <= p < n ==> i <= ks[p] < j && HolderPass(configs, ticks, states, ks[p])
    ensures CloseTogether(ticks, ks, Gap(period))
  {
    var starts, clock, due := Observe(configs, ticks, states, j);
    assert Seen(configs, ticks, states, i, starts[i], clock[i], due[i]);
    assert Seen(configs, ticks, states, j - 1, starts[j - 1], clock[j - 1], due[j - 1]);
    HungryIsFamine(configs, ticks, states, i, j, period, starts, clock, due);
    ks := ChainOfHolderPasses(starts, clock, due, period, i, ticks[i].now, n);
    forall p | 0 <= p < n ensures starts[ks[p]] == ticks[ks[p]].now && HolderPass(configs, ticks, states, ks[p]) {
      assert Seen(configs, ticks, states, ks[p], starts[ks[p]], clock[ks[p]], due[ks[p]]);
    }
  }

  /** More holder passes than holders, that close together: some holder was due twice too soon. */
  lemma ChainIsTooDense(configs: seq<Config>, ticks: seq<Tick>, states: seq<LoopState>, i: nat, j: nat, period: int,
                        holders: seq<nat>, ks: seq<nat>)
    requires IsRun(configs, ticks, states) && DistinctNames(configs) && j <= |ticks| && period >= 0
    requires SlowHolders(configs, ticks, states, i, j, period, holders) && |ks| == |holders| + 1
    requires forall p :: 0 <= p < |ks| ==> i <= ks[p] < j && HolderPass(configs, ticks, states, ks[p])
    ensures !CloseTogether(ticks, ks, Gap(period))
  {
    var ws := WhoIsDue(configs, ticks, states, i, j, period, holders, ks);
    if CloseTogether(ticks, ks, Gap(period)) {
      forall p, q | 0 <= p < q < |ws| ensures ws[p] != ws[q] {
        assert ks[p] < ks[q];
        if ws[p] == ws[q] {
          DueTwice(configs, ticks, states, holders[ws[p]], ks[p], ks[q]);
          TimesGrows(q - p, |holders|, Gap(period));
        }
      }
      Pigeonhole(ws, |holders|);
    }
  }

  /** With m holders that each repeat no faster than m gaps, a window longer than m + 1 gaps and a stagger gives a gated
      strategy its turn, if one is a candidate in each of its passes. */
  lemma GatedTurnWithin(configs: seq<Config>, ticks: seq<Tick>, states: seq<LoopState>, i: nat, j: nat, period: int,
                        holders: seq<nat>)
    requires IsRun(configs, ticks, states) && DistinctNames(configs) && i < j && Paced(configs, ticks, i, j, period)
    requires SlowHolders(configs, ticks, states, i, j, period, holders)
    requires states[i].lastExecution.Some? ==> states[i].lastExecution.value <= ticks[i].now
    requires forall k :: i <= k < j ==> SomeCandidate(configs, ticks[k], states[k])
    requires ticks[j - 1].now >= ticks[i].now + Window(|holders|, period)
    ensures exists k :: i <= k < j && GatedTurn(configs, ticks[k], states[k])
  {
    if Starved(configs, ticks, states, i, j) {
      var ks := HungryChain(configs, ticks, states, i, j, period, |holders| + 1);
      ChainIsTooDense(configs, ticks, states, i, j, period, holders, ks);
    }
  }

  // ---- the wait of one strategy ----

  lemma {:induction false} LastEndWithin(ran: seq<Entry>, t: Tick, latest: int)
    requires forall e :: e in ran ==> e.pos < |t.conditions|
    requires forall p :: 0 <= p < |t.conditions| ==> t.conditions[p].end <= latest
    ensures LastEnd(ran, t).Some? ==> LastEnd(ran, t).value <= latest
  {
    if ran == [] {
    } else {
      var n := |ran| - 1;
      assert ran[n] in ran;
      LastEndWithin(ran[..n], t, latest);
    }
  }

  /** With paced passes the stagger clock is never ahead of a pass. */
  lemma {:induction false} ClockNotAhead(configs: seq<Config>, ticks: seq<Tick>, states: seq<LoopState>, i: nat, j: nat,
                                         period: int, k: nat)
    requires IsRun(configs, ticks, states) && Paced(configs, ticks, i, j, period) && i <= k < j
    requires states[i].lastExecution.Some? ==> states[i].lastExecution.value <= ticks[i].now
    ensures states[k].lastExecution.Some? ==> states[k].lastExecution.value <= ticks[k].now
  {
    if k == i {
    } else {
      ClockNotAhead(configs, ticks, states, i, j, period, k - 1);
      PassClock(configs, ticks[k - 1], states[k - 1]);
      LastEndWithin(Pass(configs, ticks[k - 1], states[k - 1]).ran, ticks[k - 1], ticks[k].now);
    }
  }

  lemma {:induction false} PresentAppend(a: seq<Option<nat>>, b: seq<Option<nat>>)
    ensures |Present(a + b)| == |Present(a)| + |Present(b)|
  {
    if b == [] {
      assert a + b == a;
    } else {
      assert (a + b)[..|a + b| - 1] == a + b[..|b| - 1];
      PresentAppend(a, b[..|b| - 1]);
    }
  }

  lemma {:induction false} SomePresent(os: seq<Option<nat>>, k: nat)
    requires k < |os| && os[k].Some?
    ensures |Present(os)| >= 1
  {
    var n := |os| - 1;
    if k == n {
    } else {
      assert os[..n][k] == os[k];
      SomePresent(os[..n], k);
    }
  }

  /** How many gated runs passes `a` up to `b` give. */
  ghost function Turns(configs: seq<Config>, ticks: seq<Tick>, states: seq<LoopState>, a: nat, b: nat): nat
    requires IsRun(configs, ticks, states) && a <= b <= |ticks|
  {
    |Present(Winners(configs, ticks, states, a, b))|
  }

  lemma TurnsAdd(configs: seq<Config>, ticks: seq<Tick>, states: seq<LoopState>, a: nat, b: nat, c: nat)
    requires IsRun(configs, ticks, states) && a <= b <= c <= |ticks|
    ensures Turns(configs, ticks, states, a, c) ==
              Turns(configs, ticks, states, a, b) + Turns(configs, ticks, states, b, c)
  {
    var front, back := Winners(configs, ticks, states, a, b), Winners(configs, ticks, states, b, c);
    assert Winners(configs, ticks, states, a, c) == front + back;
    PresentAppend(front, back);
  }

  /** No gated runs counted, no gated turn. */
  lemma NoTurnsIsStarved(configs: seq<Config>, ticks: seq<Tick>, states: seq<LoopState>, a: nat, b: nat)
    requires IsRun(configs, ticks, states) && a <= b <= |ticks| && Turns(configs, ticks, states, a, b) == 0
    ensures Starved(configs, ticks, states, a, b)
  {
    var ws := Winners(configs, ticks, states, a, b);
    forall k | a <= k < b ensures !GatedTurn(configs, ticks[k], states[k]) {
      assert ws[k - a] == WinnerAt(configs, ticks, states, a + (k - a));
      if ws[k - a].Some? { SomePresent(ws, k - a); }
    }
  }

  /** The first pass from `a` on that starts at `t` or later. */
  lemma {:induction false} FirstSince(ticks: seq<Tick>, a: nat, j: nat, t: int) returns (b: nat)
    requires a < j <= |ticks| && ticks[j - 1].now >= t
    ensures a <= b < j && ticks[b].now >= t && (a < b ==> ticks[b - 1].now < t)
    decreases j - a
  {
    if ticks[a].now >= t {
      b := a;
    } else {
      b := FirstSince(ticks, a + 1, j, t);
    }
  }

  lemma WindowPositive(m: nat, period: int)
    requires period >= 0
    ensures Window(m, period) > 0
  {
    TimesGrows(0, m + 1, Gap(period));
  }

  lemma PacedWithin(configs: seq<Config>, ticks: seq<Tick>, i: nat, j: nat, period: int, a: nat, b: nat)
    requires Paced(configs, ticks, i, j, period) && i <= a <= b <= j
    ensures Paced(configs, ticks, a, b, period)
  {
  }

  lemma SlowWithin(configs: seq<Config>, ticks: seq<Tick>, states: seq<LoopState>, i: nat, j: nat, period: int,
                   holders: seq<nat>, a: nat, b: nat)
    requires IsRun(configs, ticks, states) && j <= |ticks| && i <= a <= b <= j
    requires SlowHolders(configs, ticks, states, i, j, period, holders)
    ensures SlowHolders(configs, ticks, states, a, b, period, holders)
  {
  }

  /** Slow holders and paced passes from `i` up to `j`, with a gated candidate in each. */
  ghost predicate Served(configs: seq<Config>, ticks: seq<Tick>, states: seq<LoopState>, i: nat, j: nat, period: int,
                         holders: seq<nat>)
    requires IsRun(configs, ticks, states)
  {
    && DistinctNames(configs) && i < j && Paced(configs, ticks, i, j, period)
    && SlowHolders(configs, ticks, states, i, j, period, holders)
    && (states[i].lastExecution.Some? ==> states[i].lastExecution.value <= ticks[i].now)
    && forall k :: i <= k < j ==> SomeCandidate(configs, ticks[k], states[k])
  }

  lemma ServedWithin(configs: seq<Config>, ticks: seq<Tick>, states: seq<LoopState>, i: nat, j: nat, period: int,
                     holders: seq<nat>, a: nat, b: nat)
    requires IsRun(configs, ticks, states) && Served(configs, ticks, states, i, j, period, holders) && i <= a < b <= j
    ensures Served(configs, ticks, states, a, b, period, holders)
  {
    ClockNotAhead(configs, ticks, states, i, j, period, a);
    PacedWithin(configs, ticks, i, j, period, a, b);
    SlowWithin(configs, ticks, states, i, j, period, holders, a, b);
  }

  /** A window of GatedTurnWithin. */
  lemma TurnInWindow(configs: seq<Config>, ticks: seq<Tick>, states: seq<LoopState>, period: int, holders: seq<nat>,
                     a: nat, b: nat)
    requires IsRun(configs, ticks, states) && a <= b < |ticks| &&
              Served(configs, ticks, states, a, b + 1, period, holders)
    requires ticks[b].now >= ticks[a].now + Window(|holders|, period)
    ensures Turns(configs, ticks, states, a, b + 1) >= 1
  {
    GatedTurnWithin(configs, ticks, states, a, b + 1, period, holders);
    if Turns(configs, ticks, states, a, b + 1) == 0 { NoTurnsIsStarved(configs, ticks, states, a, b + 1); }
  }

  /** The end of the first window from `a`, and the start of the next. */
  lemma NextWindow(configs: seq<Config>, ticks: seq<Tick>, i: nat, j: nat, period: int, m: nat, a: nat) returns (b: nat)
    requires Paced(configs, ticks, i, j, period) && i <= a < j
    requires ticks[j - 1].now >= ticks[a].now + Stride(m, period)
    ensures a <= b && b + 1 < j && ticks[b].now >= ticks[a].now + Window(m, period)
    ensures ticks[b + 1].now <= ticks[a].now + Stride(m, period)
  {
    WindowPositive(m, period);
    b := FirstSince(ticks, a, j, ticks[a].now + Window(m, period));
    assert ticks[b].now <= ticks[b - 1].now + period;
    assert b != j - 1;
  }

  /** Window q runs from pass `starts[q]` to pass `ends[q]`; they do not overlap and lie in `a` up to `j`. */
  ghost predicate Windows(ticks: seq<Tick>, a: nat, j: nat, length: int, starts: seq<nat>, ends: seq<nat>) {
    && |starts| == |ends| && a <= j <= |ticks|
    && (forall q :: 0 <= q < |starts| ==>
          a <= starts[q] <= ends[q] < j && ticks[ends[q]].now >= ticks[starts[q]].now + length)
    && (forall p, q :: 0 <= p < q < |starts| ==> ends[p] < starts[q])
  }

  /** n strides hold n windows. */
  lemma {:induction false} WindowsWithin(configs: seq<Config>, ticks: seq<Tick>, i: nat, j: nat, period: int, m: nat,
                                         a: nat,
                                         n: nat) returns (starts: seq<nat>, ends: seq<nat>)
    requires Paced(configs, ticks, i, j, period) && i <= a < j
    requires ticks[j - 1].now >= ticks[a].now + Times(n, Stride(m, period))
    ensures |starts| == n && Windows(ticks, a, j, Window(m, period), starts, ends)
    decreases n
  {
    if n == 0 {
      starts, ends := [], [];
    } else {
      WindowPositive(m, period);
      TimesGrows(0, n - 1, Stride(m, period));
      var b := NextWindow(configs, ticks, i, j, period, m, a);
      var restStarts, restEnds := WindowsWithin(configs, ticks, i, j, period, m, b + 1, n - 1);
      starts, ends := [a] + restStarts, [b] + restEnds;
      WindowsCons(ticks, a, b, j, Window(m, period), restStarts, restEnds);
    }
  }

  lemma WindowsCons(ticks: seq<Tick>, a: nat, b: nat, j: nat, length: int, starts: seq<nat>, ends: seq<nat>)
    requires a <= b && b + 1 < j <= |ticks| && ticks[b].now >= ticks[a].now + length
    requires Windows(ticks, b + 1, j, length, starts, ends)
    ensures Windows(ticks, a, j, length, [a] + starts, [b] + ends)
  {
    var s, e := [a] + starts, [b] + ends;
    forall q | 0 <= q < |s|
      ensures a <= s[q] <= e[q] < j && ticks[e[q]].now >= ticks[s[q]].now + length
    {
      if q > 0 { assert s[q] == starts[q - 1] && e[q] == ends[q - 1]; }
    }
    forall p, q | 0 <= p < q < |s| ensures e[p] < s[q] {
      assert s[q] == starts[q - 1];
      if p > 0 { assert e[p] == ends[p - 1]; }
    }
  }

  /** Windows with a turn each add up. */
  lemma {:induction false} TurnsOfWindows(configs: seq<Config>, ticks: seq<Tick>, states: seq<LoopState>, a: nat,
                                          j: nat,
                                          length: int, starts: seq<nat>, ends: seq<nat>)
    requires IsRun(configs, ticks, states) && Windows(ticks, a, j, length, starts, ends)
    requires forall q :: 0 <= q < |starts| ==> Turns(configs, ticks, states, starts[q], ends[q] + 1) >= 1
    ensures Turns(configs, ticks, states, a, j) >= |starts|
    decreases |starts|
  {
    if starts == [] {
    } else {
      var n := |starts| - 1;
      var b := starts[n];
      assert Windows(ticks, a, b, length, starts[..n], ends[..n]);
      TurnsOfWindows(configs, ticks, states, a, b, length, starts[..n], ends[..n]);
      TurnsAdd(configs, ticks, states, a, b, j);
      TurnsAdd(configs, ticks, states, b, ends[n] + 1, j);
    }
  }

  /** n strides give n gated turns. */
  lemma TurnsWithin(configs: seq<Config>, ticks: seq<Tick>, states: seq<LoopState>, i: nat, j: nat, period: int,
                    holders: seq<nat>, n: nat)
    requires IsRun(configs, ticks, states) && Served(configs, ticks, states, i, j, period, holders)
    requires ticks[j - 1].now >= ticks[i].now + Times(n, Stride(|holders|, period))
    ensures Turns(configs, ticks, states, i, j) >= n
  {
    var length := Window(|holders|, period);
    var starts, ends := WindowsWithin(configs, ticks, i, j, period, |holders|, i, n);
    forall q | 0 <= q < n ensures Turns(configs, ticks, states, starts[q], ends[q] + 1) >= 1 {
      ServedWithin(configs, ticks, states, i, j, period, holders, starts[q], ends[q] + 1);
      TurnInWindow(configs, ticks, states, period, holders, starts[q], ends[q]);
    }
    TurnsOfWindows(configs, ticks, states, i, j, length, starts, ends);
  }

  /** `x` is a gated candidate in every pass from `i` up to `j` for as long as it has not run. */
  ghost predicate StaysCandidate(configs: seq<Config>, ticks: seq<Tick>, states: seq<LoopState>, x: nat, i: nat, j: nat)
    requires IsRun(configs, ticks, states)
  {
    && x < |configs| && i <= j <= |ticks|
    && forall k :: i <= k < j && (forall l :: i <= l < k ==> !RanAt(Pass(configs, ticks[l], states[l]).ran, x)) ==>
         Candidate(configs, ticks[k], states[k], x)
  }

  /** With n strategies of positive interval, slow holders and paced passes, every strategy that stays a candidate runs
      within n strides. */
  lemma CandidateRunsWithin(configs: seq<Config>, ticks: seq<Tick>, states: seq<LoopState>, x: nat, i: nat, j: nat,
                            period: int, holders: seq<nat>)
    requires IsRun(configs, ticks, states) && DistinctNames(configs) && PositiveIntervals(configs) && i < j
    requires Paced(configs, ticks, i, j, period) && SlowHolders(configs, ticks, states, i, j, period, holders)
    requires states[i].lastExecution.Some? ==> states[i].lastExecution.value <= ticks[i].now
    requires StaysCandidate(configs, ticks, states, x, i, j)
    requires ticks[j - 1].now >= ticks[i].now + Times(|configs|, Stride(|holders|, period))
    ensures exists k :: i <= k < j && RanAt(Pass(configs, ticks[k], states[k]).ran, x)
  {
    if forall k :: i <= k < j ==> !RanAt(Pass(configs, ticks[k], states[k]).ran, x) {
      forall k | i <= k < j ensures Candidate(configs, ticks[k], states[k], x) {
      }
      BoundedWaiting(configs, ticks, states, x, i, j);
      TurnsWithin(configs, ticks, states, i, j, period, holders, |configs|);
    }
  }

  // ---- intervals and run times that starve ----

  /** `h` holds positions in the pass and may run regularly. */
  predicate HoldsAt(configs: seq<Config>, t: Tick, h: nat) {
    && h < |configs| && configs[h].enabled && !configs[h].exitsOnClose
    && h < |t.conditions| && t.conditions[h].holdings && t.allowed
  }

  ghost predicate AlwaysHolds(configs: seq<Config>, ticks: seq<Tick>, h: nat) {
    h < |configs| && forall k :: 0 <= k < |ticks| ==> HoldsAt(configs, ticks[k], h)
  }

  /** Every run of a holder in the pass takes at least `length`. */
  predicate HoldersTake(t: Tick, length: int) {
    forall p :: 0 <= p < |t.conditions| && t.conditions[p].holdings ==> t.conditions[p].end >= t.now + length
  }

  /** The last run is past, and the stagger clock is at least `length` after it. */
  ghost predicate Blocked(last: Option<int>, lastExecution: Option<int>, length: int, now: int) {
    last.None? || (last.value <= now && lastExecution.Some? && lastExecution.value >= last.value + length)
  }

  /** `h` always holds, every run of a holder takes at least `length`, and the run starts from a blocked state, for
      instance one in which `h` never ran. */
  ghost predicate BusyHolder(configs: seq<Config>, ticks: seq<Tick>, states: seq<LoopState>, h: nat, length: int) {
    && IsRun(configs, ticks, states) && DistinctNames(configs) && AlwaysHolds(configs, ticks, h) && length >= 0
    && (forall k :: 0 <= k < |ticks| ==> HoldersTake(ticks[k], length))
    && (|ticks| > 0 ==> Blocked(LastAt(configs, states[0], h), states[0].lastExecution, length, ticks[0].now))
  }

  lemma {:induction false} AllEndsAfter(ran: seq<Entry>, t: Tick, earliest: int)
    requires forall e :: e in ran ==> e.pos < |t.conditions|
    requires forall e :: e in ran && !e.force ==> t.conditions[e.pos].end >= earliest
    ensures LastEnd(ran, t).Some? ==> LastEnd(ran, t).value >= earliest
    ensures LastEnd(ran, t).None? <==> forall e :: e in ran ==> e.force
  {
    if ran == [] {
    } else {
      var n := |ran| - 1;
      assert ran == ran[..n] + [ran[n]];
      AllEndsAfter(ran[..n], t, earliest);
    }
  }

  lemma HolderRanAt(configs: seq<Config>, t: Tick, s: LoopState, e: Entry)
    requires Fits(configs, t) && !GatedTurn(configs, t, s) && e in Pass(configs, t, s).ran && !e.force
    ensures e.pos < |configs| && t.conditions[e.pos].holdings
  {
    PassRuns(configs, t, s, e);
    assert !Gated(e);
  }

  /** While no gated strategy runs, only holders move the stagger clock, and by no less than their run time. */
  lemma HoldersMoveClock(configs: seq<Config>, t: Tick, s: LoopState, length: int)
    requires Fits(configs, t) && !GatedTurn(configs, t, s)
    requires HoldersTake(t, length)
    ensures var p := Pass(configs, t, s);
            || (p.state.lastExecution == s.lastExecution && forall e :: e in p.ran ==> e.force)
            || (p.state.lastExecution.Some? && p.state.lastExecution.value >= t.now + length)
  {
    var p := Pass(configs, t, s);
    PassClock(configs, t, s);
    forall e | e in p.ran && !e.force ensures t.conditions[e.pos].end >= t.now + length {
      HolderRanAt(configs, t, s, e);
    }
    AllEndsAfter(p.ran, t, t.now + length);
  }

  /** A pass from a blocked state: `h` is due, or the gate is shut; and the state after it is blocked again. */
  lemma BusyPass(configs: seq<Config>, t: Tick, s: LoopState, h: nat, length: int)
    requires Fits(configs, t) && DistinctNames(configs) && HoldsAt(configs, t, h) && length >= 0
    requires HoldersTake(t, length)
    requires Blocked(LastAt(configs, s, h), s.lastExecution, length, t.now)
    requires configs[h].intervalMinutes * 60 <= STAGGER_INTERVAL_SEC + length
    ensures !GatedTurn(configs, t, s)
    ensures var after := Pass(configs, t, s).state;
            Blocked(LastAt(configs, after, h), after.lastExecution, length, t.now)
  {
    GatedTurnIff(configs, t, s);
    if !HolderDue(configs, t, s, h) {
      assert t.now < LastAt(configs, s, h).value + STAGGER_INTERVAL_SEC + length;
      assert !GateOpen(t.now, s.lastExecution);
    }
    HoldersMoveClock(configs, t, s, length);
    PassState(configs, t, s);
    var ran := Pass(configs, t, s).ran;
    if RanAt(ran, h) {
      var e :| e in ran && e.pos == h;
      PassRuns(configs, t, s, e);
      assert !e.force;
    }
  }

  lemma {:induction false} BusyHolderBlocks(configs: seq<Config>, ticks: seq<Tick>, states: seq<LoopState>, h: nat,
                                            length: int, k: nat)
    requires BusyHolder(configs, ticks, states, h, length) && k < |ticks|
    requires configs[h].intervalMinutes * 60 <= STAGGER_INTERVAL_SEC + length
    ensures Blocked(LastAt(configs, states[k], h), states[k].lastExecution, length, ticks[k].now)
  {
    if k == 0 {
    } else {
      BusyHolderBlocks(configs, ticks, states, h, length, k - 1);
      BusyPass(configs, ticks[k - 1], states[k - 1], h, length);
    }
  }

  /** A strategy that always holds something starves all gated ones, whatever the timing of the passes, if its interval
      is no longer than the stagger interval plus its run time. */
  lemma BusyHolderStarvesTheRest(configs: seq<Config>, ticks: seq<Tick>, states: seq<LoopState>, h: nat, length: int)
    requires BusyHolder(configs, ticks, states, h, length)
    requires configs[h].intervalMinutes * 60 <= STAGGER_INTERVAL_SEC + length
    ensures Starved(configs, ticks, states, 0, |ticks|)
  {
    forall k | 0 <= k < |ticks| ensures !GatedTurn(configs, ticks[k], states[k]) {
      BusyHolderBlocks(configs, ticks, states, h, length, k);
      BusyPass(configs, ticks[k], states[k], h, length);
    }
  }

  /** Whatever else happens, such a holder starves the rest. */
  ghost predicate AlwaysStarves(intervalMinutes: int, length: int) {
    forall configs: seq<Config>, ticks: seq<Tick>, states: seq<LoopState>, h: nat ::
      BusyHolder(configs, ticks, states, h, length) && configs[h].intervalMinutes == intervalMinutes ==>
        Starved(configs, ticks, states, 0, |ticks|)
  }

  lemma HolderGoesFirst(configs: seq<Config>, t: Tick)
    requires |configs| == 2 == |t.conditions| && configs[0].enabled && configs[1].enabled
    requires !configs[0].exitsOnClose && !configs[1].exitsOnClose && t.allowed
    requires t.conditions[0].holdings && !t.conditions[1].holdings && t.conditions[0].end >= t.now
    ensures Pass(configs, t, LoopState(map[], None)).state
         == LoopState(map[configs[0].name := t.now], Some(t.conditions[0].end))
  {
    var h, x := Entry(0, false, true, None), Entry(1, false, false, None);
    assert Due(configs, 1, t, map[]) == [h];
    assert Due(configs, 2, t, map[]) == [h, x];
    assert [h, x][..1] == [h] && [h][..0] == [] && [h][1..] == [];
    assert ByUrgency([]) == [];
    assert ByUrgency([h]) == [h];
    assert Insert([], x) == [x];
    assert Insert([h], x) == [h, x];
    assert ByUrgency([h, x]) == [h, x];
    var s0 := LoopState(map[], None);
    var p := PassResult(LoopState(map[configs[0].name := t.now], Some(t.conditions[0].end)), [h]);
    assert Dispatch(configs, t, s0, []) == PassResult(s0, []);
    assert Dispatch(configs, t, s0, [h]) == p;
    assert Dispatch(configs, t, s0, [h, x]) == p;
  }

  lemma RestGetsItsTurn(configs: seq<Config>, t: Tick, s: LoopState)
    requires |configs| == 2 && Fits(configs, t) && configs[1].enabled && !configs[0].exitsOnClose &&
              !configs[1].exitsOnClose
    requires t.allowed && !t.conditions[1].holdings
    requires LastAt(configs, s, 1).None? && GateOpen(t.now, s.lastExecution)
    requires LastAt(configs, s, 0).Some? && t.now - LastAt(configs, s, 0).value < configs[0].intervalMinutes * 60
    ensures GatedTurn(configs, t, s)
  {
    PassRuns(configs, t, s, Entry(1, false, false, None));
  }

  lemma TwoPasses(configs: seq<Config>, a: Tick, b: Tick, s: LoopState, s1: LoopState)
    requires Fits(configs, a) && Fits(configs, b) && a.now <= b.now && Pass(configs, a, s).state == s1
    ensures IsRun(configs, [a, b], [s, s1, Pass(configs, b, s1).state])
  {
  }

  /** Two passes, the second as soon as the gate opens: first the holder runs, then the other strategy. */
  lemma HolderThenRest(configs: seq<Config>, first: Tick, second: Tick, length: int) returns (states: seq<LoopState>)
    requires |configs| == 2 && DistinctNames(configs) && HoldsAt(configs, first, 0) && HoldsAt(configs, second, 0)
    requires configs[1].enabled && !configs[1].exitsOnClose && length >= 0
    requires Fits(configs, first) && Fits(configs, second) && HoldersTake(first, length) && HoldersTake(second, length)
    requires !first.conditions[1].holdings && !second.conditions[1].holdings
    requires first.conditions[0].end == first.now + length && second.now == first.now + STAGGER_INTERVAL_SEC + length
    requires configs[0].intervalMinutes * 60 > STAGGER_INTERVAL_SEC + length
    ensures BusyHolder(configs, [first, second], states, 0, length) && GatedTurn(configs, second, states[1])
  {
    var s0 := LoopState(map[], None);
    HolderGoesFirst(configs, first);
    var s1 := LoopState(map[configs[0].name := first.now], Some(first.conditions[0].end));
    assert LastAt(configs, s1, 1).None?;
    states := [s0, s1, Pass(configs, second, s1).state];
    TwoPasses(configs, first, second, s0, s1);
    RestGetsItsTurn(configs, second, s1);
  }

  /** With a longer interval some run of such a holder does give a gated strategy its turn. */
  lemma SlowerHolderLeavesRoom(interval: int, length: int)
    returns (configs: seq<Config>, ticks: seq<Tick>, states: seq<LoopState>)
    requires length >= 0 && interval * 60 > STAGGER_INTERVAL_SEC + length
    ensures BusyHolder(configs, ticks, states, 0, length) && configs[0].intervalMinutes == interval
    ensures |ticks| == 2 && GatedTurn(configs, ticks[1], states[1])
  {
    var later := STAGGER_INTERVAL_SEC + length;
    configs := [Config(1, true, false, interval), Config(2, true, false, 1)];
    var first := Tick(0, false, true, [Condition(false, true, length), Condition(false, false, 0)]);
    var second := Tick(later, false, true, [Condition(false, true, later + length), Condition(false, false, later)]);
    ticks := [first, second];
    states := HolderThenRest(configs, first, second, length);
  }

  /** Over all timings of passes, all other strategies, and all blocked starting states: a holder whose runs take at
      least `length` starves the rest exactly if its interval is no longer than the stagger interval plus `length`. */
  lemma HolderStarvesIff(intervalMinutes: int, length: int)
    requires length >= 0
    ensures AlwaysStarves(intervalMinutes, length) <==> intervalMinutes * 60 <= STAGGER_INTERVAL_SEC + length
  {
    if intervalMinutes * 60 <= STAGGER_INTERVAL_SEC + length {
      forall configs: seq<Config>, ticks: seq<Tick>, states: seq<LoopState>, h: nat |
        BusyHolder(configs, ticks, states, h, length) && configs[h].intervalMinutes == intervalMinutes
        ensures Starved(configs, ticks, states, 0, |ticks|)
      {
        BusyHolderStarvesTheRest(configs, ticks, states, h, length);
      }
    } else {
      var configs, ticks, states := SlowerHolderLeavesRoom(intervalMinutes, length);
      assert !Starved(configs, ticks, states, 0, |ticks|);
    }
  }

  /** Passes no closer than the holder's interval: it is due in every one of them. */
  lemma {:induction false} AlwaysDue(configs: seq<Config>, ticks: seq<Tick>, states: seq<LoopState>, h: nat, k: nat)
    requires IsRun(configs, ticks, states) && DistinctNames(configs) && AlwaysHolds(configs, ticks, h) && k < |ticks|
    requires configs[h].intervalMinutes >= 0 && HolderDue(configs, ticks[0], states[0], h)
    requires forall l, n :: 0 <= l < n < |ticks| && n == l + 1 ==>
               ticks[n].now >= ticks[l].now + configs[h].intervalMinutes * 60
    ensures HolderDue(configs, ticks[k], states[k], h)
  {
    if k == 0 {
    } else {
      AlwaysDue(configs, ticks, states, h, k - 1);
      HolderDueRuns(configs, ticks[k - 1], states[k - 1], h);
      PassState(configs, ticks[k - 1], states[k - 1]);
    }
  }

  /** Slow passes starve with any interval. */
  lemma SlowPassesStarveTheRest(configs: seq<Config>, ticks: seq<Tick>, states: seq<LoopState>, h: nat)
    requires IsRun(configs, ticks, states) && DistinctNames(configs) && AlwaysHolds(configs, ticks, h) && |ticks| > 0
    requires configs[h].intervalMinutes >= 0 && HolderDue(configs, ticks[0], states[0], h)
    requires forall l, n :: 0 <= l < n < |ticks| && n == l + 1 ==>
               ticks[n].now >= ticks[l].now + configs[h].intervalMinutes * 60
    ensures Starved(configs, ticks, states, 0, |ticks|)
  {
    forall k | 0 <= k < |ticks| ensures !GatedTurn(configs, ticks[k], states[k]) {
      AlwaysDue(configs, ticks, states, h, k);
      GatedTurnIff(configs, ticks[k], states[k]);
    }
  }

  /** The strategies at `hs` last ran one minute after the other, the first of them |hs| minutes before `mark`. */
  ghost predicate Rotating(configs: seq<Config>, s: LoopState, hs: seq<nat>, mark: int)
    requires forall r :: 0 <= r < |hs| ==> hs[r] < |configs|
  {
    forall r :: 0 <= r < |hs| ==> LastAt(configs, s, hs[r]) == Some(mark - 60 * (|hs| - r))
  }

  /** The first minute mark after `now`, counted from `start`. */
  function NextMark(start: int, now: int): int { start + 60 * ((now - start) / 60 + 1) }

  /** m different strategies that hold in the pass and repeat every m minutes. */
  ghost predicate Riders(configs: seq<Config>, t: Tick, hs: seq<nat>) {
    && hs != []
    && (forall r :: 0 <= r < |hs| ==>
          hs[r] < |configs| && HoldsAt(configs, t, hs[r]) && configs[hs[r]].intervalMinutes == |hs|)
    && (forall q, r :: 0 <= q < r < |hs| ==> hs[q] != hs[r])
  }

  /** Passes at any times that leave out no minute mark, with such strategies in each of them. */
  ghost predicate Carousel(configs: seq<Config>, ticks: seq<Tick>, states: seq<LoopState>, hs: seq<nat>) {
    && IsRun(configs, ticks, states) && DistinctNames(configs)
    && (forall k :: 0 <= k < |ticks| ==> Riders(configs, ticks[k], hs))
    && (forall k, l :: 0 <= k < l < |ticks| && l == k + 1 ==> ticks[l].now <= NextMark(ticks[0].now, ticks[k].now))
  }

  /** A strategy that holds and may only run regularly runs only when due. */
  lemma NotDueDoesNotRun(configs: seq<Config>, t: Tick, s: LoopState, h: nat)
    requires Fits(configs, t) && HoldsAt(configs, t, h) && !HolderDue(configs, t, s, h)
    ensures !RanAt(Pass(configs, t, s).ran, h)
  {
    HolderDueRuns(configs, t, s, h);
    forall e | e in Pass(configs, t, s).ran && e.pos == h ensures false {
      PassRuns(configs, t, s, e);
    }
  }

  /** In a pass at the mark exactly the first of them is due, and goes to the end of the line for the next mark. */
  lemma CarouselTurns(configs: seq<Config>, t: Tick, s: LoopState, hs: seq<nat>)
    requires Fits(configs, t) && DistinctNames(configs) && Riders(configs, t, hs) && Rotating(configs, s, hs, t.now)
    ensures !GatedTurn(configs, t, s)
    ensures var next, after := hs[1..] + [hs[0]], Pass(configs, t, s).state;
            && |next| == |hs| && (forall r :: 0 <= r < |next| ==> next[r] < |configs|)
            && Rotating(configs, after, next, t.now + 60)
            && after.lastExecution.Some? && after.lastExecution.value >= t.now
  {
    var ran, next := Pass(configs, t, s).ran, hs[1..] + [hs[0]];
    PassState(configs, t, s);
    forall r | 0 <= r < |hs| ensures HolderDue(configs, t, s, hs[r]) <==> r == 0 {
      assert LastAt(configs, s, hs[r]) == Some(t.now - 60 * (|hs| - r));
    }
    HolderDueRuns(configs, t, s, hs[0]);
    RegularRunMovesClock(configs, t, s, hs[0]);
    GatedTurnIff(configs, t, s);
    forall r | 0 < r < |hs| ensures !RanAt(ran, hs[r]) {
      NotDueDoesNotRun(configs, t, s, hs[r]);
    }
    forall r | 0 <= r < |next|
      ensures LastAt(configs, Pass(configs, t, s).state, next[r]) == Some(t.now + 60 - 60 * (|next| - r))
    {
      if r < |hs| - 1 { assert next[r] == hs[r + 1]; }
    }
  }

  /** The run of a due holder sets the stagger clock. */
  lemma RegularRunMovesClock(configs: seq<Config>, t: Tick, s: LoopState, h: nat)
    requires Fits(configs, t) && DistinctNames(configs) && h < |configs| && HolderDue(configs, t, s, h)
    ensures var after := Pass(configs, t, s).state;
            after.lastExecution.Some? && after.lastExecution.value >= t.now
  {
    HolderDueRuns(configs, t, s, h);
    PassState(configs, t, s);
    var e := Evaluate(configs[h], h, t, s.lastRun).value;
    assert Wants(configs, |configs|, t, s.lastRun, e) && !e.force;
    PassRuns(configs, t, s, e);
  }

  /** In a pass between two marks none of them is due, and the gate is shut. */
  lemma CarouselRests(configs: seq<Config>, t: Tick, s: LoopState, hs: seq<nat>, mark: int)
    requires Fits(configs, t) && DistinctNames(configs) && Riders(configs, t, hs) && Rotating(configs, s, hs, mark)
    requires mark - 60 <= t.now < mark && s.lastExecution.Some? && s.lastExecution.value >= mark - 60
    ensures !GatedTurn(configs, t, s)
    ensures var after := Pass(configs, t, s).state;
            && Rotating(configs, after, hs, mark)
            && after.lastExecution.Some? && after.lastExecution.value >= mark - 60
  {
    PassState(configs, t, s);
    GatedTurnIff(configs, t, s);
    forall r | 0 <= r < |hs| ensures !RanAt(Pass(configs, t, s).ran, hs[r]) {
      assert LastAt(configs, s, hs[r]) == Some(mark - 60 * (|hs| - r));
      NotDueDoesNotRun(configs, t, s, hs[r]);
    }
  }

  /** Before a pass: the line is ordered for `mark`, which is this pass or the next minute mark after it. */
  ghost predicate OnCourse(configs: seq<Config>, s: LoopState, line: seq<nat>, start: int, mark: int, now: int)
    requires forall r :: 0 <= r < |line| ==> line[r] < |configs|
  {
    && Rotating(configs, s, line, mark) && (mark - start) % 60 == 0 && mark - 60 <= now <= mark
    && (now < mark ==> s.lastExecution.Some? && s.lastExecution.value >= mark - 60)
  }

  lemma CarouselPass(configs: seq<Config>, t: Tick, s: LoopState, line: seq<nat>, start: int, mark: int)
    returns (next: seq<nat>, nextMark: int)
    requires Fits(configs, t) && DistinctNames(configs) && Riders(configs, t, line)
    requires OnCourse(configs, s, line, start, mark, t.now)
    ensures !GatedTurn(configs, t, s)
    ensures next == (if t.now == mark then line[1..] + [line[0]] else line)
    ensures nextMark == if t.now == mark then mark + 60 else mark
    ensures forall r :: 0 <= r < |next| ==> next[r] < |configs|
    ensures forall now :: t.now <= now <= NextMark(start, t.now) ==>
              OnCourse(configs, Pass(configs, t, s).state, next, start, nextMark, now)
  {
    if t.now == mark {
      CarouselTurns(configs, t, s, line);
      next, nextMark := line[1..] + [line[0]], mark + 60;
    } else {
      CarouselRests(configs, t, s, line, mark);
      next, nextMark := line, mark;
    }
    assert NextMark(start, t.now) == nextMark;
  }

  lemma CarouselRotates(configs: seq<Config>, ticks: seq<Tick>, states: seq<LoopState>, hs: seq<nat>)
    requires Carousel(configs, ticks, states, hs) && hs != []
    ensures Carousel(configs, ticks, states, hs[1..] + [hs[0]])
  {
    forall k | 0 <= k < |ticks| ensures Riders(configs, ticks[k], hs[1..] + [hs[0]]) {
      assert Riders(configs, ticks[k], hs);
    }
  }

  lemma {:induction false} CarouselGoesOn(configs: seq<Config>, ticks: seq<Tick>, states: seq<LoopState>,
                                          hs: seq<nat>, k: nat)
    returns (line: seq<nat>, mark: int)
    requires Carousel(configs, ticks, states, hs) && k < |ticks| && Rotating(configs, states[0], hs, ticks[0].now)
    ensures Carousel(configs, ticks, states, line)
    ensures OnCourse(configs, states[k], line, ticks[0].now, mark, ticks[k].now)
  {
    if k == 0 {
      line, mark := hs, ticks[0].now;
    } else {
      var before, last := CarouselGoesOn(configs, ticks, states, hs, k - 1);
      line, mark := CarouselPass(configs, ticks[k - 1], states[k - 1], before, ticks[0].now, last);
      CarouselRotates(configs, ticks, states, before);
      assert ticks[k - 1].now <= ticks[k].now <= NextMark(ticks[0].now, ticks[k - 1].now);
    }
  }

  /** So m holders of interval m minutes, out of step, starve the rest although each repeats far slower than the stagger
      interval, whatever passes lie between the minute marks: the sum of the gaps in GatedTurnWithin is needed. */
  lemma CarouselStarvesTheRest(configs: seq<Config>, ticks: seq<Tick>, states: seq<LoopState>, hs: seq<nat>)
    requires Carousel(configs, ticks, states, hs) && |ticks| > 0 && Rotating(configs, states[0], hs, ticks[0].now)
    ensures Starved(configs, ticks, states, 0, |ticks|)
  {
    forall k | 0 <= k < |ticks| ensures !GatedTurn(configs, ticks[k], states[k]) {
      var line, mark := CarouselGoesOn(configs, ticks, states, hs, k);
      var next, nextMark := CarouselPass(configs, ticks[k], states[k], line, ticks[0].now, mark);
    }
  }

  /** Every forward sequence of passes has a run. */
  lemma {:induction false} RunExists(configs: seq<Config>, ticks: seq<Tick>, s: LoopState)
    returns (states: seq<LoopState>)
    requires forall k :: 0 <= k < |ticks| ==> Fits(configs, ticks[k])
    requires forall j, k :: 0 <= j <= k < |ticks| ==> ticks[j].now <= ticks[k].now
    ensures IsRun(configs, ticks, states) && states[0] == s
  {
    if ticks == [] {
      states := [s];
    } else {
      var n := |ticks| - 1;
      var front := RunExists(configs, ticks[..n], s);
      states := front + [Pass(configs, ticks[n], front[n]).state];
      forall k | 0 <= k < |ticks| ensures states[k + 1] == Pass(configs, ticks[k], states[k]).state {
        if k < n { assert front[k + 1] == Pass(configs, ticks[..n][k], front[k]).state; }
      }
    }
  }

  lemma WithoutTurnDoesNotRun(configs: seq<Config>, t: Tick, s: LoopState, x: nat)
    requires Fits(configs, t) && x < |configs| && !configs[x].exitsOnClose && !t.conditions[x].holdings
    requires !GatedTurn(configs, t, s)
    ensures !RanAt(Pass(configs, t, s).ran, x)
  {
    forall e | e in Pass(configs, t, s).ran ensures e.pos != x {
      PassRuns(configs, t, s, e);
    }
  }

  /** While gated strategies starve, one without holdings that never ran stays a candidate. */
  lemma {:induction false} NeverRanStaysCandidate(configs: seq<Config>, ticks: seq<Tick>, states: seq<LoopState>,
                                                  x: nat, k: nat)
    requires IsRun(configs, ticks, states) && DistinctNames(configs) && Starved(configs, ticks, states, 0, |ticks|)
    requires x < |configs| && configs[x].enabled && !configs[x].exitsOnClose && k < |ticks|
    requires forall l :: 0 <= l < |ticks| ==> ticks[l].allowed && !ticks[l].conditions[x].holdings
    requires LastAt(configs, states[0], x).None?
    ensures LastAt(configs, states[k], x).None? && Candidate(configs, ticks[k], states[k], x)
  {
    if k == 0 {
    } else {
      NeverRanStaysCandidate(configs, ticks, states, x, k - 1);
      PassState(configs, ticks[k - 1], states[k - 1]);
      WithoutTurnDoesNotRun(configs, ticks[k - 1], states[k - 1], x);
    }
  }

  /** When pass `k` starts: the pass at a minute mark runs a holder for a second, and every pass is followed by a
      second of sleep, so that second 1 of each minute has none. */
  function StartOf(k: nat): int { 60 * (k / 59) + if k % 59 == 0 then 0 else k % 59 + 1 }

  lemma StartsAscend(j: nat, k: nat)
    requires j <= k
    ensures StartOf(j) <= StartOf(k) <= StartOf(k + 1) <= NextMark(0, StartOf(k))
  {
    assert j / 59 <= k / 59;
    if k % 59 == 58 {
      assert (k + 1) / 59 == k / 59 + 1 && (k + 1) % 59 == 0;
    } else {
      assert (k + 1) / 59 == k / 59 && (k + 1) % 59 == k % 59 + 1;
    }
  }

  /** Two holders of interval 2 and a third strategy without holdings, in pass `k`; every run takes a second. */
  function PassTick(k: nat): Tick {
    var now := StartOf(k);
    Tick(now, false, true, [Condition(false, true, now + 1), Condition(false, true, now + 1),
        Condition(false, false, now + 1)])
  }

  /** One such case: for any number of passes a second apart, two holders of interval 2 alternate and the third
      strategy, due from the start, never runs. */
  lemma TwoHoldersStarveAThird(n: nat) returns (configs: seq<Config>, ticks: seq<Tick>, states: seq<LoopState>)
    requires n > 0
    ensures configs == [Config(1, true, false, 2), Config(2, true, false, 2), Config(3, true, false, 1)]
    ensures |ticks| == n && forall k :: 0 <= k < n ==> ticks[k] == PassTick(k)
    ensures IsRun(configs, ticks, states) && Starved(configs, ticks, states, 0, n)
    ensures forall k :: 0 <= k < n ==> Candidate(configs, ticks[k], states[k], 2)
  {
    configs := [Config(1, true, false, 2), Config(2, true, false, 2), Config(3, true, false, 1)];
    ticks := seq(n, k requires 0 <= k < n => PassTick(k));
    forall j: nat, k: nat | j <= k < n ensures ticks[j].now <= ticks[k].now {
      StartsAscend(j, k);
    }
    states := RunExists(configs, ticks, LoopState(map[1 := -120, 2 := -60], None));
    AlternatingHolders(configs, ticks, states);
    forall k | 0 <= k < n ensures Candidate(configs, ticks[k], states[k], 2) {
      NeverRanStaysCandidate(configs, ticks, states, 2, k);
    }
  }

  lemma AlternatingHolders(configs: seq<Config>, ticks: seq<Tick>, states: seq<LoopState>)
    requires configs == [Config(1, true, false, 2), Config(2, true, false, 2), Config(3, true, false, 1)] && |ticks| > 0
    requires IsRun(configs, ticks, states) && states[0] == LoopState(map[1 := -120, 2 := -60], None)
    requires forall k :: 0 <= k < |ticks| ==> ticks[k] == PassTick(k)
    ensures Starved(configs, ticks, states, 0, |ticks|)
  {
    var hs: seq<nat> := [0, 1];
    forall k: nat, l: nat | k < l < |ticks| && l == k + 1 ensures ticks[l].now <= NextMark(ticks[0].now, ticks[k].now) {
      StartsAscend(k, k);
    }
    CarouselStarvesTheRest(configs, ticks, states, hs);
  }
}
