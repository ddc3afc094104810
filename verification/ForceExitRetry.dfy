/** Deduplicated force-exit retries: one registry entry per key, tasks that outlive their entry, and late callbacks. */
module ForceExitRetry {
  import opened Prelude
  import opened CircuitBreaker

  /** `Waiting` tasks have not fired; `Done` ones still have their completion callback to run. */
  datatype Phase = Waiting | Executing | Done | Finished

  datatype Task = Task(key: Text, phase: Phase)

  /** The delay told by a blocked reply, at least a second; five minutes if it tells none. */
  function RetryDelay(retryAfterSeconds: Option<int>): int {
    if retryAfterSeconds.None? then 5 * 60 else Max(1, retryAfterSeconds.value)
  }

  /** A retry scheduled from a blocked reply fires, if it beats the order cutoff, when that opening is over;
      it then meets an open breaker exactly when a failure re-extended it meanwhile. */
  lemma ScheduledRetryMeetsClosedBreaker(s: State, now: int, later: int, scheduledAt: int, wokenAt: int,
                                         es: seq<Event>, m: Limits)
    requires OpenAt(s, now) && now <= later <= scheduledAt
    requires scheduledAt + RetryDelay(Some(RetryAfter(s.openUntil.value, later))) * SECOND <= wokenAt
    requires Timed(es, now, wokenAt)
    ensures OpenAt(Run(Checked(s, now), es, m), wokenAt) <==> ReopenedBeyond(s, es, m, wokenAt)
    ensures s.openUntil.value >= later ==>
              later + (RetryDelay(Some(RetryAfter(s.openUntil.value, later))) - 1) * SECOND <= s.openUntil.value
  {
    AdvertisedDelayCovers(s.openUntil.value, later);
    WaitingOutFindsClosedUnlessReopened(s, now, later, es, m, wokenAt);
  }

  /** A retry scheduled without a told delay meets a breaker that nothing re-extended closed, exactly if the opening had
      at most five minutes left when it was scheduled. */
  lemma UntoldDelayMeetsClosedBreakerIff(s: State, now: int, scheduledAt: int, m: Limits)
    requires OpenAt(s, now) && now <= scheduledAt
    ensures OpenAt(Run(Checked(s, now), [], m), scheduledAt + RetryDelay(None) * SECOND) <==>
            s.openUntil.value - scheduledAt > 5 * 60 * SECOND
  {
  }

  /** The dictionary and tasks after a reservation: a key whose registered task is not done keeps it. */
  function Reserved(tasks: seq<Task>, registry: map<Text, nat>, key: Text): (seq<Task>, map<Text, nat>)
    requires forall k :: k in registry ==> registry[k] < |tasks|
  {
    if key in registry && tasks[registry[key]].phase != Done &&
        tasks[registry[key]].phase != Finished then (tasks, registry)
    else (tasks + [Task(key, Waiting)], registry[key := |tasks|])
  }

  /** Every waiting task is the one registered under its key, and no registered task has fired. */
  ghost predicate Tracked(tasks: seq<Task>, registry: map<Text, nat>) {
    && (forall k :: k in registry ==> registry[k] < |tasks| && tasks[registry[k]].key == k
                                      && (tasks[registry[k]].phase == Waiting || tasks[registry[k]].phase == Done))
    && (forall i :: 0 <= i < |tasks| && tasks[i].phase == Waiting ==>
          tasks[i].key in registry && registry[tasks[i].key] == i)
  }

  ghost predicate OneUnfiredPerKey(tasks: seq<Task>) {
    forall i, j :: 0 <= i < j < |tasks| && tasks[i].phase == Waiting && tasks[j].phase == Waiting ==>
        tasks[i].key != tasks[j].key
  }

  /** A reservation keeps at most one unfired retry per key, and there is one for its own key afterwards. */
  lemma ReservationKeepsOneUnfired(tasks: seq<Task>, registry: map<Text, nat>, key: Text)
    requires Tracked(tasks, registry)
    ensures var (t, r) := Reserved(tasks, registry, key);
            Tracked(t, r) && OneUnfiredPerKey(t) && key in r && t[r[key]] == Task(key, Waiting)
  {
  }

  // ---- stopping ----

  ghost predicate NoneWaiting(tasks: seq<Task>) { forall i :: 0 <= i < |tasks| ==> tasks[i].phase != Waiting }

  ghost predicate NoneExecuting(tasks: seq<Task>) { forall i :: 0 <= i < |tasks| ==> tasks[i].phase != Executing }

  predicate InRange(tasks: seq<Task>, registry: map<Text, nat>) { forall k :: k in registry ==> registry[k] < |tasks| }

  /** Any number of reservations, one after the other. */
  function ReserveAll(tasks: seq<Task>, registry: map<Text, nat>, keys: seq<Text>): (r: (seq<Task>, map<Text, nat>))
    requires InRange(tasks, registry)
    ensures InRange(r.0, r.1)
  {
    if keys == [] then (tasks, registry)
    else
      var (t, r) := ReserveAll(tasks, registry, keys[..|keys| - 1]);
      Reserved(t, r, keys[|keys| - 1])
  }

  lemma {:induction false} ReservationsKeepOneUnfired(tasks: seq<Task>, registry: map<Text, nat>, keys: seq<Text>)
    requires Tracked(tasks, registry)
    ensures var (t, r) := ReserveAll(tasks, registry, keys); Tracked(t, r) && OneUnfiredPerKey(t)
  {
    if keys == [] {
    } else {
      ReservationsKeepOneUnfired(tasks, registry, keys[..|keys| - 1]);
      var (t, r) := ReserveAll(tasks, registry, keys[..|keys| - 1]);
      ReservationKeepsOneUnfired(t, r, keys[|keys| - 1]);
    }
  }

  /** Forgetting the registry keeps one unfired retry per key through all later reservations exactly when nothing is
      waiting at that moment. */
  lemma ForgettingIsSafeIff(tasks: seq<Task>)
    ensures (forall keys: seq<Text> :: OneUnfiredPerKey(ReserveAll(tasks, map[], keys).0)) <==> NoneWaiting(tasks)
  {
    if NoneWaiting(tasks) {
      forall keys: seq<Text> ensures OneUnfiredPerKey(ReserveAll(tasks, map[], keys).0) {
        ReservationsKeepOneUnfired(tasks, map[], keys);
      }
    } else {
      var i: nat :| i < |tasks| && tasks[i].phase == Waiting;
      ReservedTwice(tasks, i);
    }
  }

  lemma ReservedTwice(tasks: seq<Task>, i: nat)
    requires i < |tasks| && tasks[i].phase == Waiting
    ensures !OneUnfiredPerKey(ReserveAll(tasks, map[], [tasks[i].key]).0)
  {
    var keys := [tasks[i].key];
    assert keys[..0] == [];
    assert ReserveAll(tasks, map[], []) == (tasks, map[]);
    var t := ReserveAll(tasks, map[], keys).0;
    assert t == tasks + [Task(tasks[i].key, Waiting)];
    assert t[i].key == t[|tasks|].key && t[i].phase == Waiting;
  }

  /** Tasks and registry while stop() awaits the retries it has cancelled: the tasks below `n` at its snapshot. */
  datatype Retries = Retries(tasks: seq<Task>, registry: map<Text, nat>)

  /** What may happen in between. The loop is stopped, so only a retry that is already ordering can reserve anew. */
  datatype StopEvent =
    | Cancelled(i: nat)     // a waiting retry of the snapshot ends
    | BlockedAgain(i: nat)  // the order of an executing retry is blocked, and its key is reserved again
    | Ended(i: nat)         // an executing retry ends, or a new one wakes and finds the scheduler stopped
    | CalledBack(i: nat)    // the completion callback of a finished retry

  function StopStep(m: Retries, n: nat, e: StopEvent): Retries
    requires InRange(m.tasks, m.registry)
  {
    if e.i >= |m.tasks| then m
    else
      var task := m.tasks[e.i];
      match e
      case Cancelled(i) => if i < n && task.phase == Waiting then m.(tasks := m.tasks[i := Task(task.key, Done)]) else m
      case BlockedAgain(i) =>
        if task.phase != Executing then m
        else var (t, r) := Reserved(m.tasks, m.registry, task.key); Retries(t, r)
      case Ended(i) =>
        if task.phase == Executing || (task.phase == Waiting && i >= n)
        then m.(tasks := m.tasks[i := Task(task.key, Done)]) else m
      case CalledBack(i) =>
        if task.phase != Done then m
        else Retries(m.tasks[i := Task(task.key, Finished)],
                     if task.key !in m.registry || m.registry[task.key] != i then m.registry
                     else m.registry - {task.key})
  }

  function StopRun(m: Retries, n: nat, events: seq<StopEvent>): (r: Retries)
    requires InRange(m.tasks, m.registry)
    ensures InRange(r.tasks, r.registry)
  {
    if events == [] then m else StopStep(StopRun(m, n, events[..|events| - 1]), n, events[|events| - 1])
  }

  /** The interleavings of one stop from `m` until the registry is cleared: every retry of the snapshot has ended; with
      nothing to await there is none. */
  ghost predicate StopMayRun(m: Retries, events: seq<StopEvent>)
    requires InRange(m.tasks, m.registry)
  {
    && (m.registry == map[] ==> events == [])
    && var end := StopRun(m, |m.tasks|, events);
       |end.tasks| >= |m.tasks| && forall i :: 0 <= i < |m.tasks| ==> end.tasks[i].phase != Waiting
  }

  /** Without an executing retry nothing is added and nothing starts to wait. */
  lemma {:induction false} IdleStop(m: Retries, events: seq<StopEvent>)
    requires InRange(m.tasks, m.registry) && NoneExecuting(m.tasks)
    ensures var end := StopRun(m, |m.tasks|, events); |end.tasks| == |m.tasks| && NoneExecuting(end.tasks)
  {
    if events == [] {
    } else {
      IdleStop(m, events[..|events| - 1]);
    }
  }

  /** Cancelling the first `k` tasks in order. */
  lemma {:induction false} CancelInOrder(m: Retries, k: nat)
    requires InRange(m.tasks, m.registry) && k <= |m.tasks|
    ensures var end := StopRun(m, |m.tasks|, seq(k, i requires 0 <= i < k => Cancelled(i)));
            && |end.tasks| == |m.tasks| && end.registry == m.registry
            && forall i :: 0 <= i < |m.tasks| ==>
                 end.tasks[i] == if i < k && m.tasks[i].phase == Waiting then Task(m.tasks[i].key, Done) else m.tasks[i]
  {
    var events := seq(k, i requires 0 <= i < k => Cancelled(i));
    if k == 0 {
    } else {
      assert events[..k - 1] == seq(k - 1, i requires 0 <= i < k - 1 => Cancelled(i));
      CancelInOrder(m, k - 1);
    }
  }

  /** With an executing retry: everything of the snapshot is cancelled, its order is blocked, and a new one waits. */
  lemma BlockedWhileStopping(m: Retries, i: nat) returns (events: seq<StopEvent>)
    requires Tracked(m.tasks, m.registry) && m.registry != map[] && i < |m.tasks| && m.tasks[i].phase == Executing
    ensures StopMayRun(m, events) && !NoneWaiting(StopRun(m, |m.tasks|, events).tasks)
  {
    var n := |m.tasks|;
    var cancels := seq(n, k requires 0 <= k < n => Cancelled(k));
    CancelInOrder(m, n);
    var mid := StopRun(m, n, cancels);
    events := cancels + [BlockedAgain(i)];
    assert events[..n] == cancels;
    var end := StopRun(m, n, events);
    assert end == StopStep(mid, n, BlockedAgain(i));
    assert end.tasks == mid.tasks + [Task(m.tasks[i].key, Waiting)];
    assert end.tasks[n].phase == Waiting;
  }

  /** Nothing is left waiting by any interleaving of a stop exactly if, at its snapshot, no retry is registered or no
      retry is executing. */
  lemma StopLeavesNoneWaitingIff(m: Retries)
    requires Tracked(m.tasks, m.registry)
    ensures (forall events :: StopMayRun(m, events) ==> NoneWaiting(StopRun(m, |m.tasks|, events).tasks)) <==>
            m.registry == map[] || NoneExecuting(m.tasks)
  {
    if m.registry == map[] || NoneExecuting(m.tasks) {
      forall events | StopMayRun(m, events) ensures NoneWaiting(StopRun(m, |m.tasks|, events).tasks) {
        if m.registry != map[] { IdleStop(m, events); }
      }
    } else {
      var i: nat :| i < |m.tasks| && m.tasks[i].phase == Executing;
      var events := BlockedWhileStopping(m, i);
      assert !NoneWaiting(StopRun(m, |m.tasks|, events).tasks);
    }
  }

  /** After the stop from `m`, and any later reservations, there is at most one unfired retry per key. */
  ghost predicate StopIsSafe(m: Retries)
    requires InRange(m.tasks, m.registry)
  {
    forall events: seq<StopEvent>, keys: seq<Text> :: StopMayRun(m, events) ==>
      OneUnfiredPerKey(ReserveAll(StopRun(m, |m.tasks|, events).tasks, map[], keys).0)
  }

  /** So a stop keeps at most one unfired retry per key, whatever is reserved after it, under exactly that condition. */
  lemma StopIsSafeIff(m: Retries)
    requires Tracked(m.tasks, m.registry)
    ensures StopIsSafe(m) <==> m.registry == map[] || NoneExecuting(m.tasks)
  {
    StopLeavesNoneWaitingIff(m);
    if m.registry == map[] || NoneExecuting(m.tasks) {
      forall events: seq<StopEvent>, keys: seq<Text> | StopMayRun(m, events)
        ensures OneUnfiredPerKey(ReserveAll(StopRun(m, |m.tasks|, events).tasks, map[], keys).0)
      {
        ForgettingIsSafeIff(StopRun(m, |m.tasks|, events).tasks);
      }
    } else {
      var events :| StopMayRun(m, events) && !NoneWaiting(StopRun(m, |m.tasks|, events).tasks);
      var left := StopRun(m, |m.tasks|, events).tasks;
      var j: nat :| j < |left| && left[j].phase == Waiting;
      ReservedTwice(left, j);
    }
  }

  class RetryScheduler {
    var tasks: seq<Task>            // by task number, in order of creation
    var registry: map<Text, nat>    // key to task number

    ghost predicate Valid()
      reads this
    {
      Tracked(tasks, registry)
    }

    constructor ()
      ensures Valid() && tasks == [] && registry == map[]
    {
      tasks, registry := [], map[];
    }

    /** Reserves a retry unless it would miss the cutoff or one is already waiting for the key. */
    method Schedule(key: Text, delay: int, now: int, cutoff: int) returns (accepted: bool)
      requires Valid()
      modifies this
      ensures Valid() && OneUnfiredPerKey(tasks)
      ensures accepted <==> now + delay < cutoff
      ensures accepted ==> (tasks, registry) == Reserved(old(tasks), old(registry), key)
      ensures !accepted ==> tasks == old(tasks) && registry == old(registry)
    {
      if now + delay >= cutoff {
        return false;
      }
      accepted := true;
      ReservationKeepsOneUnfired(tasks, registry, key);
      if key in registry && tasks[registry[key]].phase != Done {
        return;
      }
      tasks := tasks + [Task(key, Waiting)];
      registry := registry[key := |tasks| - 1];
    }

    /** A waiting task wakes and is about to place its order: it first frees its key. */
    method Fire(i: nat)
      requires Valid() && i < |tasks| && tasks[i].phase == Waiting
      modifies this
      ensures Valid() && OneUnfiredPerKey(tasks)
      ensures tasks == old(tasks)[i := Task(old(tasks)[i].key, Executing)]
      ensures registry == old(registry) - {old(tasks)[i].key}
    {
      registry := registry - {tasks[i].key};
      tasks := tasks[i := tasks[i].(phase := Executing)];
    }

    /** A task ends: cancelled or given up while waiting, or after its order. */
    method End(i: nat)
      requires Valid() && i < |tasks| && (tasks[i].phase == Waiting || tasks[i].phase == Executing)
      modifies this
      ensures Valid() && OneUnfiredPerKey(tasks)
      ensures tasks == old(tasks)[i := Task(old(tasks)[i].key, Done)] && registry == old(registry)
    {
      tasks := tasks[i := tasks[i].(phase := Done)];
    }

    /** The completion callback runs, perhaps after the key was reserved again: it only removes its own entry. */
    method Callback(i: nat)
      requires Valid() && i < |tasks| && tasks[i].phase == Done
      modifies this
      ensures Valid() && OneUnfiredPerKey(tasks)
      ensures tasks == old(tasks)[i := Task(old(tasks)[i].key, Finished)]
      ensures forall j :: 0 <= j < |tasks| && tasks[j].phase == Waiting ==>
                tasks[j].key in registry && registry[tasks[j].key] == j
    {
      var key := tasks[i].key;
      tasks := tasks[i := tasks[i].(phase := Finished)];
      if key in registry && registry[key] == i {
        registry := registry - {key};
      }
    }

    /** The last step of stopping the scheduler forgets the registry; what it tracked stays tracked
        exactly when nothing is waiting. */
    method ClearRegistry()
      requires Valid()
      modifies this
      ensures tasks == old(tasks) && registry == map[]
      ensures Valid() <==> forall i :: 0 <= i < |tasks| ==> tasks[i].phase != Waiting
    {
      registry := map[];
    }
  }

  /** A retry can be waiting when the registry is forgotten: the order of one that has fired is blocked again while
      another, cancelled one is awaited. The next reservation of that key then makes a second waiting retry. */
  method StopForgetsRetry(key: Text, other: Text, delay: int, now: int, cutoff: int) returns (s: RetryScheduler)
    requires key != other && now + delay < cutoff
    ensures s.tasks == [Task(key, Executing), Task(other, Finished), Task(key, Waiting)] && s.registry == map[]
    ensures !s.Valid() && !OneUnfiredPerKey(Reserved(s.tasks, s.registry, key).0)
  {
    s := new RetryScheduler();
    var accepted := s.Schedule(key, delay, now, cutoff);
    accepted := s.Schedule(other, delay, now, cutoff);
    s.Fire(0);
    s.End(1);
    accepted := s.Schedule(key, delay, now, cutoff);
    s.Callback(1);
    s.ClearRegistry();
    assert s.tasks[2] == Task(key, Waiting);
    var next := Reserved(s.tasks, s.registry, key).0;
    assert next[2].key == next[3].key && next[2].phase == next[3].phase == Waiting;
  }
}
