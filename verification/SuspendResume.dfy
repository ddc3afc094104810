/** Foreground actions suspend the background tasks: reference counting under a lock, with every await a step
    boundary. */
module SuspendResume {
  import opened Prelude

  datatype TaskState = Idle | Running | Suspended | Stopped

  /** Where an actor is in `context()`. The entering and exiting actors hold the lock and are about to
      handle the task with that number. */
  datatype Actor = Outside | WantEnter | Entering(next: nat) | Inside | WantExit | Exiting(next: nat)

  datatype Call = SuspendAll | ResumeAll

  /** `leaked` counts entries that will never be paid back; `abandoned` are the suspended tasks that the last
      resume_all failed to resume or, being cancelled, never reached. */
  datatype State = State(actors: seq<Actor>, count: int, holder: Option<nat>, poolSuspended: bool,
                         tasks: seq<TaskState>, calls: seq<Call>, leaked: nat, abandoned: set<nat>)

  datatype Action =
    | Request(a: nat)                      // reaches `async with context()`
    | AcquireEnter(a: nat)                 // takes the lock; the first one starts suspend_all
    | SuspendNext(a: nat, ok: bool)        // one `await task.suspend()`
    | FinishEnter(a: nat)
    | RequestExit(a: nat)
    | AcquireExit(a: nat)                  // takes the lock; the last one starts resume_all
    | ResumeNext(a: nat, ok: bool)
    | FinishExit(a: nat)
    | CancelWait(a: nat)                   // cancelled while waiting for the lock
    | CancelHolding(a: nat)                // cancelled inside suspend_all or resume_all
    | TaskMoves(i: nat, to: TaskState)     // a task starts, finishes or is stopped by itself

  predicate At(s: State, a: nat, here: Actor) { a < |s.actors| && s.actors[a] == here }
  predicate EnteringAt(s: State, a: nat) { a < |s.actors| && s.actors[a].Entering? }
  predicate ExitingAt(s: State, a: nat) { a < |s.actors| && s.actors[a].Exiting? }

  predicate Enabled(s: State, act: Action) {
    match act
    case Request(a) => At(s, a, Outside)
    case AcquireEnter(a) => At(s, a, WantEnter) && s.holder == None
    case SuspendNext(a, _) => EnteringAt(s, a) && s.actors[a].next < |s.tasks|
    case FinishEnter(a) => EnteringAt(s, a) && s.actors[a].next >= |s.tasks|
    case RequestExit(a) => At(s, a, Inside)
    case AcquireExit(a) => At(s, a, WantExit) && s.holder == None
    case ResumeNext(a, _) => ExitingAt(s, a) && s.actors[a].next < |s.tasks|
    case FinishExit(a) => ExitingAt(s, a) && s.actors[a].next >= |s.tasks|
    case CancelWait(a) => At(s, a, WantEnter) || At(s, a, WantExit)
    case CancelHolding(a) => EnteringAt(s, a) || ExitingAt(s, a)
    case TaskMoves(i, to) => i < |s.tasks| && to != Suspended && (s.tasks[i] == Suspended ==> to == Stopped)
  }

  function Put(s: State, a: nat, to: Actor): State
    requires a < |s.actors|
  {
    s.(actors := s.actors[a := to])
  }

  /** The suspended tasks from `next` on. */
  function Unreached(tasks: seq<TaskState>, next: nat): set<nat> {
    set i: nat | next <= i < |tasks| && tasks[i] == Suspended
  }

  /** One atomic step; a step that is not enabled does nothing. */
  function Step(s: State, act: Action): State {
    if !Enabled(s, act) then s
    else match act
      case Request(a) => Put(s, a, WantEnter)
      case AcquireEnter(a) =>
        if s.count + 1 == 1 then
          Put(s.(count := s.count + 1, holder := Some(a), poolSuspended := true, calls := s.calls + [SuspendAll]), a,
              Entering(0))
        else Put(s.(count := s.count + 1), a, Inside)
      case SuspendNext(a, ok) =>
        var i := s.actors[a].next;
        Put(s.(tasks := if s.tasks[i] == Running && ok then s.tasks[i := Suspended] else s.tasks), a, Entering(i + 1))
      case FinishEnter(a) => Put(s.(holder := None), a, Inside)
      case RequestExit(a) => Put(s, a, WantExit)
      case AcquireExit(a) =>
        if s.count - 1 == 0 then
          Put(s.(count := s.count - 1, holder := Some(a), poolSuspended := false, calls := s.calls + [ResumeAll],
                 abandoned := {}), a, Exiting(0))
        else Put(s.(count := s.count - 1), a, Outside)
      case ResumeNext(a, ok) =>
        var i := s.actors[a].next;
        if s.tasks[i] != Suspended then Put(s, a, Exiting(i + 1))
        else if ok then Put(s.(tasks := s.tasks[i := Running]), a, Exiting(i + 1))
        else Put(s.(abandoned := s.abandoned + {i}), a, Exiting(i + 1))
      case FinishExit(a) => Put(s.(holder := None), a, Outside)
      case CancelWait(a) =>
        if s.actors[a] == WantEnter then Put(s, a, Outside)
        else Put(s.(leaked := s.leaked + 1), a, Outside)
      case CancelHolding(a) =>
        if s.actors[a].Entering? then Put(s.(holder := None, leaked := s.leaked + 1), a, Outside)
        else Put(s.(holder := None, abandoned := s.abandoned + Unreached(s.tasks, s.actors[a].next)), a, Outside)
      case TaskMoves(i, to) => s.(tasks := s.tasks[i := to], abandoned := s.abandoned - {i})
  }

  function Run(s: State, acts: seq<Action>): State {
    if acts == [] then s else Step(Run(s, acts[..|acts| - 1]), acts[|acts| - 1])
  }

  predicate Counted(a: Actor) { a.Entering? || a.Inside? || a.WantExit? }

  /** Actors that have incremented the count and not yet decremented it. */
  function Insiders(actors: seq<Actor>): nat {
    if actors == [] then 0
    else Insiders(actors[..|actors| - 1]) + if Counted(actors[|actors| - 1]) then 1 else 0
  }

  lemma {:induction false} InsidersUpdate(actors: seq<Actor>, a: nat, to: Actor)
    requires a < |actors|
    ensures Insiders(actors[a := to]) + (if Counted(actors[a]) then 1 else 0) == Insiders(actors) +
              if Counted(to) then 1 else 0
  {
    var n := |actors| - 1;
    if a < n {
      assert actors[a := to][..n] == actors[..n][a := to];
      InsidersUpdate(actors[..n], a, to);
    } else {
      assert actors[a := to][..n] == actors[..n];
    }
  }

  lemma {:induction false} InsidersPositive(actors: seq<Actor>, a: nat)
    requires a < |actors| && Counted(actors[a])
    ensures Insiders(actors) >= 1
  {
    var n := |actors| - 1;
    if a < n {
      assert actors[..n][a] == actors[a];
      InsidersPositive(actors[..n], a);
    }
  }

  /** suspend_all, resume_all, suspend_all, ... ending with a suspend_all exactly if `suspended`. */
  ghost predicate Alternate(calls: seq<Call>, suspended: bool) {
    && (forall i :: 0 <= i < |calls| ==> calls[i] == if i % 2 == 0 then SuspendAll else ResumeAll)
    && (|calls| % 2 == 1 <==> suspended)
  }

  ghost predicate NoneSuspended(tasks: seq<TaskState>, upTo: int) {
    forall i :: 0 <= i < |tasks| && i < upTo ==> tasks[i] != Suspended
  }

  /** The lock holder is exactly the actor inside suspend_all or resume_all. */
  ghost predicate LockInv(s: State) {
    && (forall a :: 0 <= a < |s.actors| ==> (s.holder == Some(a) <==> s.actors[a].Entering? || s.actors[a].Exiting?))
    && (s.holder.Some? ==> s.holder.value < |s.actors|)
  }

  /** The count is the actors between increment and decrement plus what cancellation leaked. */
  predicate Balanced(s: State) { s.count == Insiders(s.actors) + s.leaked }

  /** The count is balanced; the pool is suspended exactly while it is positive; suspend_all and resume_all calls
      strictly alternate. */
  ghost predicate CountInv(s: State) {
    && Balanced(s)
    && (s.poolSuspended <==> s.count > 0)
    && Alternate(s.calls, s.count > 0)
  }

  /** Of the tasks below `upTo`, exactly the abandoned ones are suspended. */
  ghost predicate OnlyAbandoned(s: State, upTo: int) {
    forall i: nat :: i < |s.tasks| && i < upTo ==> (s.tasks[i] == Suspended <==> i in s.abandoned)
  }

  /** resume_all runs only at count zero, and leaves nothing suspended but the abandoned tasks. */
  ghost predicate TaskInv(s: State) {
    && (forall a :: 0 <= a < |s.actors| && s.actors[a].Exiting? ==>
          && s.count == 0 && OnlyAbandoned(s, s.actors[a].next)
          && forall i: nat :: i >= s.actors[a].next ==> i !in s.abandoned)
    && (s.count == 0 && s.holder == None ==> OnlyAbandoned(s, |s.tasks|))
  }

  /** What holds after every step of every interleaving. */
  ghost predicate Inv(s: State) { LockInv(s) && CountInv(s) && TaskInv(s) }

  function Initial(actors: nat, tasks: seq<TaskState>): State {
    State(seq(actors, _ => Outside), 0, None, false, tasks, [], 0, {})
  }

  lemma {:induction false} NobodyInside(n: nat)
    ensures Insiders(seq(n, _ => Outside)) == 0
  {
    if n == 0 {
    } else {
      var all: seq<Actor> := seq(n, _ => Outside);
      assert all[..n - 1] == seq(n - 1, _ => Outside);
      NobodyInside(n - 1);
    }
  }

  lemma StepKeepsLock(s: State, act: Action)
    requires LockInv(s)
    ensures LockInv(Step(s, act))
  {
  }

  predicate EntersOrHolds(act: Action) {
    act.Request? || act.AcquireEnter? || act.SuspendNext? || act.FinishEnter? || act.CancelHolding?
  }

  lemma EntryKeepsBalance(s: State, act: Action)
    requires Balanced(s) && Enabled(s, act) && EntersOrHolds(act)
    ensures Balanced(Step(s, act))
  {
    InsidersUpdate(s.actors, act.a, Step(s, act).actors[act.a]);
  }

  lemma ExitKeepsBalance(s: State, act: Action)
    requires Balanced(s) && Enabled(s, act) && !EntersOrHolds(act) && !act.TaskMoves?
    ensures Balanced(Step(s, act))
  {
    InsidersUpdate(s.actors, act.a, Step(s, act).actors[act.a]);
  }

  lemma StepKeepsBalance(s: State, act: Action)
    requires Balanced(s)
    ensures Balanced(Step(s, act))
  {
    if Enabled(s, act) && EntersOrHolds(act) { EntryKeepsBalance(s, act); }
    else if Enabled(s, act) && !act.TaskMoves? { ExitKeepsBalance(s, act); }
  }

  lemma StepKeepsCount(s: State, act: Action)
    requires CountInv(s)
    ensures CountInv(Step(s, act))
  {
    StepKeepsBalance(s, act);
    if Enabled(s, act) && act.AcquireExit? { InsidersPositive(s.actors, act.a); }
  }

  predicate Exits(act: Action) { act.AcquireExit? || act.ResumeNext? || act.FinishExit? }

  lemma EntryKeepsTasks(s: State, act: Action)
    requires Inv(s) && Enabled(s, act) && (act.SuspendNext? || act.FinishEnter? || act.CancelHolding?)
    ensures TaskInv(Step(s, act))
  {
    var a := act.a;
    if s.actors[a].Entering? {
      InsidersPositive(s.actors, a);
      assert forall b :: 0 <= b < |s.actors| ==> !s.actors[b].Exiting?;
    }
  }

  lemma ExitKeepsTasks(s: State, act: Action)
    requires Inv(s) && Enabled(s, act) && Exits(act)
    ensures TaskInv(Step(s, act))
  {
    var a, t := act.a, Step(s, act);
    assert forall b :: 0 <= b < |t.actors| && t.actors[b].Exiting? ==> b == a;
  }

  lemma OthersKeepTasks(s: State, act: Action)
    requires Inv(s) && !Exits(act) && !act.SuspendNext? && !act.FinishEnter? && !act.CancelHolding?
    ensures TaskInv(Step(s, act))
  {
  }

  lemma StepKeepsInv(s: State, act: Action)
    requires Inv(s)
    ensures Inv(Step(s, act))
  {
    StepKeepsLock(s, act);
    StepKeepsCount(s, act);
    if Enabled(s, act) && Exits(act) { ExitKeepsTasks(s, act); }
    else if Enabled(s, act) && (act.SuspendNext? || act.FinishEnter? || act.CancelHolding?) { EntryKeepsTasks(s, act); }
    else if Enabled(s, act) { OthersKeepTasks(s, act); }
  }

  /** Any number of actors, any interleaving: count, lock, pool and call log stay consistent. */
  lemma {:induction false} RunKeepsInv(actors: nat, tasks: seq<TaskState>, acts: seq<Action>)
    requires NoneSuspended(tasks, |tasks|)
    ensures Inv(Run(Initial(actors, tasks), acts))
  {
    if acts == [] {
      NobodyInside(actors);
    } else {
      RunKeepsInv(actors, tasks, acts[..|acts| - 1]);
      StepKeepsInv(Run(Initial(actors, tasks), acts[..|acts| - 1]), acts[|acts| - 1]);
    }
  }

  /** A suspended task starts running again only in the resume_all of the last actor out:
      at that moment no other actor is between increment and decrement. */
  lemma ResumedOnlyByLastExit(s: State, act: Action, i: nat)
    requires Inv(s) && i < |s.tasks| && s.tasks[i] == Suspended
    requires i < |Step(s, act).tasks| && Step(s, act).tasks[i] == Running
    ensures act.ResumeNext? && act.a < |s.actors| && s.actors[act.a] == Exiting(i)
    ensures Insiders(s.actors) == 0 && s.leaked == 0 && s.count == 0 && !s.poolSuspended
  {
  }

  /** A task becomes suspended only in the suspend_all of the first actor in, with the lock held. */
  lemma SuspendedOnlyByFirstEntry(s: State, act: Action, i: nat)
    requires Inv(s) && i < |s.tasks| && s.tasks[i] != Suspended
    requires i < |Step(s, act).tasks| && Step(s, act).tasks[i] == Suspended
    ensures act.SuspendNext? && act.ok && s.tasks[i] == Running && s.holder == Some(act.a) && s.poolSuspended
    ensures act.a < |s.actors| && s.actors[act.a] == Entering(i)
  {
    InsidersPositive(s.actors, act.a);
  }

  // ---- everybody is out: what is still suspended ----

  /** Nobody is between increment and decrement, and the lock is free. */
  predicate Quiet(s: State) { s.holder == None && Insiders(s.actors) == 0 }

  /** The cancellations that leak an entry: waiting for the lock to leave, and inside suspend_all. */
  predicate Leaks(s: State, act: Action) {
    || (act.CancelWait? && At(s, act.a, WantExit))
    || (act.CancelHolding? && EnteringAt(s, act.a))
  }

  /** Some action of the run leaked. */
  predicate LeakedIn(s: State, acts: seq<Action>) {
    acts != [] && (LeakedIn(s, acts[..|acts| - 1]) || Leaks(Run(s, acts[..|acts| - 1]), acts[|acts| - 1]))
  }

  lemma StepLeaks(s: State, act: Action)
    ensures Step(s, act).leaked == s.leaked + if Leaks(s, act) then 1 else 0
  {
  }

  lemma {:induction false} LeakedInIff(s: State, acts: seq<Action>)
    requires s.leaked == 0
    ensures Run(s, acts).leaked > 0 <==> LeakedIn(s, acts)
  {
    if acts == [] {
    } else {
      LeakedInIff(s, acts[..|acts| - 1]);
      StepLeaks(Run(s, acts[..|acts| - 1]), acts[|acts| - 1]);
    }
  }

  /** Whenever everybody is out, the pool is suspended exactly if some action of the run leaked an entry. */
  lemma QuietPoolIff(actors: nat, tasks: seq<TaskState>, acts: seq<Action>)
    requires NoneSuspended(tasks, |tasks|) && Quiet(Run(Initial(actors, tasks), acts))
    ensures Run(Initial(actors, tasks), acts).poolSuspended <==> LeakedIn(Initial(actors, tasks), acts)
  {
    RunKeepsInv(actors, tasks, acts);
    LeakedInIff(Initial(actors, tasks), acts);
  }

  /** resume_all starts. */
  predicate StartsResumeAll(s: State, act: Action) { act.AcquireExit? && Enabled(s, act) && s.count == 1 }

  /** resume_all fails to resume task `i`, or is cancelled before it reaches it. */
  predicate Abandons(s: State, act: Action, i: nat) {
    && i < |s.tasks| && s.tasks[i] == Suspended
    && (|| (act.ResumeNext? && !act.ok && At(s, act.a, Exiting(i)))
        || (act.CancelHolding? && ExitingAt(s, act.a) && s.actors[act.a].next <= i))
  }

  /** Since the last start of resume_all, task `i` was abandoned and has not moved by itself. */
  predicate LeftBehind(s: State, acts: seq<Action>, i: nat) {
    acts != [] &&
    var before, last := Run(s, acts[..|acts| - 1]), acts[|acts| - 1];
    if StartsResumeAll(before, last) then false
    else if last.TaskMoves? && last.i == i && Enabled(before, last) then false
    else LeftBehind(s, acts[..|acts| - 1], i) || Abandons(before, last, i)
  }

  lemma StepAbandons(s: State, act: Action, i: nat)
    ensures i in Step(s, act).abandoned <==>
              && !StartsResumeAll(s, act)
              && !(act.TaskMoves? && act.i == i && Enabled(s, act))
              && (i in s.abandoned || Abandons(s, act, i))
  {
  }

  lemma {:induction false} LeftBehindIff(s: State, acts: seq<Action>, i: nat)
    requires s.abandoned == {}
    ensures i in Run(s, acts).abandoned <==> LeftBehind(s, acts, i)
  {
    if acts == [] {
    } else {
      LeftBehindIff(s, acts[..|acts| - 1], i);
      StepAbandons(Run(s, acts[..|acts| - 1]), acts[|acts| - 1], i);
    }
  }

  /** Whenever everybody is out and nothing leaked, a task is suspended exactly if the last resume_all failed on it or
      was cancelled before it, and it has not moved by itself since. */
  lemma QuietTasksIff(actors: nat, tasks: seq<TaskState>, acts: seq<Action>, i: nat)
    requires NoneSuspended(tasks, |tasks|) && Quiet(Run(Initial(actors, tasks), acts))
    requires !LeakedIn(Initial(actors, tasks), acts) && i < |Run(Initial(actors, tasks), acts).tasks|
    ensures Run(Initial(actors, tasks), acts).tasks[i] == Suspended <==> LeftBehind(Initial(actors, tasks), acts, i)
  {
    RunKeepsInv(actors, tasks, acts);
    LeakedInIff(Initial(actors, tasks), acts);
    LeftBehindIff(Initial(actors, tasks), acts, i);
  }

  /** No task is left behind. */
  ghost predicate NoneLeftBehind(s: State, acts: seq<Action>, tasks: nat) {
    forall i: nat :: i < tasks ==> !LeftBehind(s, acts, i)
  }

  lemma NoneSuspendedIff(s0: State, acts: seq<Action>, tasks: seq<TaskState>)
    requires forall i: nat :: i < |tasks| ==> (tasks[i] == Suspended <==> LeftBehind(s0, acts, i))
    ensures NoneSuspended(tasks, |tasks|) <==> NoneLeftBehind(s0, acts, |tasks|)
  {
    if NoneLeftBehind(s0, acts, |tasks|) {
      forall i: nat | i < |tasks| ensures tasks[i] != Suspended {
        assert !LeftBehind(s0, acts, i);
      }
    }
  }

  /** Over every run: whenever everybody is out, pool and tasks are all resumed exactly if nothing leaked and no task
      was left behind. */
  lemma QuietMeansResumedIff(actors: nat, tasks: seq<TaskState>, acts: seq<Action>)
    requires NoneSuspended(tasks, |tasks|) && Quiet(Run(Initial(actors, tasks), acts))
    ensures var s0 := Initial(actors, tasks);
            var s := Run(s0, acts);
            !s.poolSuspended && NoneSuspended(s.tasks, |s.tasks|) <==>
            !LeakedIn(s0, acts) && NoneLeftBehind(s0, acts, |s.tasks|)
  {
    var s0 := Initial(actors, tasks);
    var left := Run(s0, acts).tasks;
    QuietPoolIff(actors, tasks, acts);
    if !LeakedIn(s0, acts) {
      forall i: nat | i < |left| ensures left[i] == Suspended <==> LeftBehind(s0, acts, i) {
        QuietTasksIff(actors, tasks, acts, i);
      }
      NoneSuspendedIff(s0, acts, left);
    }
  }

  /** One leaked entry is for ever: the pool stays suspended and resume_all is never called again. */
  lemma {:induction false} LeakIsForever(s: State, acts: seq<Action>)
    requires Inv(s) && s.leaked > 0
    ensures Inv(Run(s, acts)) && Run(s, acts).leaked >= s.leaked
    ensures Run(s, acts).poolSuspended && Run(s, acts).calls == s.calls
  {
    if acts == [] {
    } else {
      var before, last := Run(s, acts[..|acts| - 1]), acts[|acts| - 1];
      LeakIsForever(s, acts[..|acts| - 1]);
      StepKeepsInv(before, last);
      if Enabled(before, last) && last.AcquireExit? {
        InsidersPositive(before.actors, last.a);
      }
    }
  }

  /** Appending an enabled action to a run appends its step. */
  lemma RunThen(s: State, acts: seq<Action>, mid: State, act: Action, end: State)
    requires Run(s, acts) == mid && Step(mid, act) == end
    ensures Run(s, acts + [act]) == end
  {
    assert (acts + [act])[..|acts|] == acts;
  }

  lemma EnteringSteps(s0: State, s1: State, s2: State, s3: State, s4: State, s5: State)
    requires |s0.tasks| <= 1 && s0 == Initial(1, s0.tasks) && s1 == s0.(actors := [WantEnter])
    requires s2 == State([Entering(0)], 1, Some(0), true, s0.tasks, [SuspendAll], 0, {})
    requires s3 == s2.(actors := [Entering(|s0.tasks|)], tasks := s3.tasks) && |s3.tasks| == |s0.tasks|
    requires s0.tasks != [] ==> s0.tasks[0] == Running && s3.tasks[0] == Suspended
    requires s4 == s3.(actors := [Inside], holder := None) && s5 == s3.(actors := [WantExit], holder := None)
    ensures Step(s0, Request(0)) == s1 && Step(s1, AcquireEnter(0)) == s2
    ensures if s0.tasks == [] then s3 == s2 else Step(s2, SuspendNext(0, true)) == s3
    ensures Step(s3, FinishEnter(0)) == s4 && Step(s4, RequestExit(0)) == s5
  {
    assert s0.actors == [Outside];
  }

  /** One actor from outside to inside, for one running task or none. */
  lemma ComingIn(tasks: seq<TaskState>, suspended: seq<TaskState>) returns (acts: seq<Action>)
    requires (tasks == [] && suspended == []) || (tasks == [Running] && suspended == [Suspended])
    ensures acts == [Request(0), AcquireEnter(0)] + (if tasks == [] then [] else [SuspendNext(0, true)])
                    + [FinishEnter(0), RequestExit(0)]
    ensures Run(Initial(1, tasks), acts) == State([WantExit], 1, None, true, suspended, [SuspendAll], 0, {})
  {
    var s0 := Initial(1, tasks);
    var s1 := State([WantEnter], 0, None, false, tasks, [], 0, {});
    var s2 := State([Entering(0)], 1, Some(0), true, tasks, [SuspendAll], 0, {});
    var s3 := s2.(actors := [Entering(|tasks|)], tasks := suspended);
    var s4, s5 := s3.(actors := [Inside], holder := None), s3.(actors := [WantExit], holder := None);
    EnteringSteps(s0, s1, s2, s3, s4, s5);
    acts := [];
    RunThen(s0, acts, s0, Request(0), s1);
    acts := acts + [Request(0)];
    RunThen(s0, acts, s1, AcquireEnter(0), s2);
    acts := acts + [AcquireEnter(0)];
    if tasks != [] {
      RunThen(s0, acts, s2, SuspendNext(0, true), s3);
      acts := acts + [SuspendNext(0, true)];
    }
    RunThen(s0, acts, s3, FinishEnter(0), s4);
    acts := acts + [FinishEnter(0)];
    RunThen(s0, acts, s4, RequestExit(0), s5);
    acts := acts + [RequestExit(0)];
  }

  /** Such a leak is within reach: one actor comes in, asks to leave, and is cancelled while waiting for the lock. */
  lemma LeakIsReachable() returns (acts: seq<Action>)
    ensures acts == [Request(0), AcquireEnter(0), FinishEnter(0), RequestExit(0), CancelWait(0)]
    ensures Run(Initial(1, []), acts) == State([Outside], 1, None, true, [], [SuspendAll], 1, {})
  {
    var before := State([WantExit], 1, None, true, [], [SuspendAll], 0, {});
    acts := ComingIn([], []);
    RunThen(Initial(1, []), acts, before, CancelWait(0), before.(actors := [Outside], leaked := 1));
    acts := acts + [CancelWait(0)];
  }

  /** So is the other failure: the actor takes the lock to leave and is cancelled before the task is resumed. Count
      zero, pool resumed, nothing leaked, and the task stays suspended. */
  lemma CutShortResumeIsReachable() returns (acts: seq<Action>)
    ensures acts == [Request(0), AcquireEnter(0), SuspendNext(0, true), FinishEnter(0), RequestExit(0), AcquireExit(0),
                     CancelHolding(0)]
    ensures Run(Initial(1, [Running]), acts) ==
              State([Outside], 0, None, false, [Suspended], [SuspendAll, ResumeAll], 0, {0})
  {
    var s0, before := Initial(1, [Running]), State([WantExit], 1, None, true, [Suspended], [SuspendAll], 0, {});
    var leaving := State([Exiting(0)], 0, Some(0), false, [Suspended], [SuspendAll, ResumeAll], 0, {});
    acts := ComingIn([Running], [Suspended]);
    RunThen(s0, acts, before, AcquireExit(0), leaving);
    acts := acts + [AcquireExit(0)];
    assert Unreached([Suspended], 0) == {0};
    RunThen(s0, acts, leaving, CancelHolding(0), leaving.(actors := [Outside], holder := None, abandoned := {0}));
    acts := acts + [CancelHolding(0)];
  }

  // ---- the calls themselves, when nothing interferes ----

  /** The registry after the first `upTo` turns of suspend_all; `ok[i]` is whether task i's own suspend succeeds. */
  function Suspending(tasks: seq<TaskState>, ok: seq<bool>, upTo: nat): seq<TaskState>
    requires |ok| == |tasks|
  {
    seq(|tasks|, i requires 0 <= i < |tasks| =>
      if i < upTo && tasks[i] == Running && ok[i] then Suspended else tasks[i])
  }

  function Resuming(tasks: seq<TaskState>, ok: seq<bool>, upTo: nat): seq<TaskState>
    requires |ok| == |tasks|
  {
    seq(|tasks|, i requires 0 <= i < |tasks| =>
      if i < upTo && tasks[i] == Suspended && ok[i] then Running else tasks[i])
  }

  /** A suspension with failures anywhere, followed by a resume without failures, changes no task. */
  lemma ResumeUndoesSuspend(tasks: seq<TaskState>, ok: seq<bool>, all: seq<bool>)
    requires |ok| == |all| == |tasks| && (forall i :: 0 <= i < |all| ==> all[i])
    ensures Resuming(Suspending(tasks, ok, |tasks|), all, |tasks|) == tasks <==> NoneSuspended(tasks, |tasks|)
  {
    var back := Resuming(Suspending(tasks, ok, |tasks|), all, |tasks|);
    assert forall i :: 0 <= i < |tasks| ==> back[i] == if tasks[i] == Suspended then Running else tasks[i];
  }

  /** The entering actor after `k` turns of suspend_all. */
  function AfterSuspends(s: State, a: nat, ok: seq<bool>, k: nat): State
    requires a < |s.actors| && |ok| == |s.tasks|
  {
    Put(s.(tasks := Suspending(s.tasks, ok, k)), a, Entering(k))
  }

  lemma OneMoreSuspend(s: State, a: nat, ok: seq<bool>, k: nat)
    requires a < |s.actors| && |ok| == |s.tasks| && k < |s.tasks|
    ensures Step(AfterSuspends(s, a, ok, k), SuspendNext(a, ok[k])) == AfterSuspends(s, a, ok, k + 1)
  {
    var was := Suspending(s.tasks, ok, k);
    assert Suspending(s.tasks, ok, k + 1) == if was[k] == Running && ok[k] then was[k := Suspended] else was;
    assert s.actors[a := Entering(k)][a := Entering(k + 1)] == s.actors[a := Entering(k + 1)];
  }

  /** Uninterrupted, the steps of the protocol are the turns of suspend_all's loop, ... */
  lemma {:induction false} StepsAreSuspendAll(s: State, a: nat, ok: seq<bool>, k: nat)
    requires a < |s.actors| && s.actors[a] == Entering(0) && |ok| == |s.tasks| && k <= |s.tasks|
    ensures Run(s, seq(k, i requires 0 <= i < k => SuspendNext(a, ok[i]))) == AfterSuspends(s, a, ok, k)
  {
    if k == 0 {
      assert Suspending(s.tasks, ok, 0) == s.tasks;
      assert s.actors[a := Entering(0)] == s.actors;
    } else {
      var acts := seq(k, i requires 0 <= i < k => SuspendNext(a, ok[i]));
      assert acts[..k - 1] == seq(k - 1, i requires 0 <= i < k - 1 => SuspendNext(a, ok[i]));
      StepsAreSuspendAll(s, a, ok, k - 1);
      OneMoreSuspend(s, a, ok, k - 1);
    }
  }

  /** The abandoned tasks after the first `upTo` turns: those whose resume failed. */
  function FailedResumes(tasks: seq<TaskState>, ok: seq<bool>, upTo: nat): set<nat>
    requires |ok| == |tasks|
  {
    set i: nat | i < |tasks| && i < upTo && tasks[i] == Suspended && !ok[i]
  }

  /** The exiting actor after `k` turns of resume_all. */
  function AfterResumes(s: State, a: nat, ok: seq<bool>, k: nat): State
    requires a < |s.actors| && |ok| == |s.tasks|
  {
    Put(s.(tasks := Resuming(s.tasks, ok, k), abandoned := FailedResumes(s.tasks, ok, k)), a, Exiting(k))
  }

  lemma OneMoreResume(s: State, a: nat, ok: seq<bool>, k: nat)
    requires a < |s.actors| && |ok| == |s.tasks| && k < |s.tasks|
    ensures Step(AfterResumes(s, a, ok, k), ResumeNext(a, ok[k])) == AfterResumes(s, a, ok, k + 1)
  {
    var was := Resuming(s.tasks, ok, k);
    assert Resuming(s.tasks, ok, k + 1) == if was[k] == Suspended && ok[k] then was[k := Running] else was;
    assert s.actors[a := Exiting(k)][a := Exiting(k + 1)] == s.actors[a := Exiting(k + 1)];
    assert was[k] == Suspended && !ok[k] ==>
             FailedResumes(s.tasks, ok, k + 1) == FailedResumes(s.tasks, ok, k) + {k};
    assert was[k] != Suspended || ok[k] ==> FailedResumes(s.tasks, ok, k + 1) == FailedResumes(s.tasks, ok, k);
  }

  /** ... and those of resume_all's loop; the tasks whose resume fails are the abandoned ones. */
  lemma {:induction false} StepsAreResumeAll(s: State, a: nat, ok: seq<bool>, k: nat)
    requires a < |s.actors| && s.actors[a] == Exiting(0) && |ok| == |s.tasks| && k <= |s.tasks|
    requires s.abandoned == {}
    ensures Run(s, seq(k, i requires 0 <= i < k => ResumeNext(a, ok[i]))) == AfterResumes(s, a, ok, k)
  {
    if k == 0 {
      assert Resuming(s.tasks, ok, 0) == s.tasks && FailedResumes(s.tasks, ok, 0) == {};
      assert s.actors[a := Exiting(0)] == s.actors;
    } else {
      var acts := seq(k, i requires 0 <= i < k => ResumeNext(a, ok[i]));
      assert acts[..k - 1] == seq(k - 1, i requires 0 <= i < k - 1 => ResumeNext(a, ok[i]));
      StepsAreResumeAll(s, a, ok, k - 1);
      OneMoreResume(s, a, ok, k - 1);
    }
  }

  class BackgroundScheduler {
    var tasks: seq<TaskState>
    var poolSuspended: bool

    constructor (tasks: seq<TaskState>)
      ensures this.tasks == tasks && !poolSuspended
    {
      this.tasks := tasks;
      poolSuspended := false;
    }

    /** A task whose own suspend fails is logged and skipped. */
    method SuspendAllTasks(ok: seq<bool>)
      requires |ok| == |tasks|
      modifies this
      ensures poolSuspended && tasks == Suspending(old(tasks), ok, |ok|)
    {
      poolSuspended := true;
      assert tasks == Suspending(old(tasks), ok, 0);
      for i := 0 to |tasks|
        invariant poolSuspended && |tasks| == |old(tasks)|
        invariant tasks == Suspending(old(tasks), ok, i)
      {
        if tasks[i] == Running && ok[i] {
          tasks := tasks[i := Suspended];
        }
        assert tasks == Suspending(old(tasks), ok, i + 1);
      }
    }

    method ResumeAllTasks(ok: seq<bool>)
      requires |ok| == |tasks|
      modifies this
      ensures !poolSuspended && tasks == Resuming(old(tasks), ok, |ok|)
    {
      poolSuspended := false;
      assert tasks == Resuming(old(tasks), ok, 0);
      for i := 0 to |tasks|
        invariant !poolSuspended && |tasks| == |old(tasks)|
        invariant tasks == Resuming(old(tasks), ok, i)
      {
        if tasks[i] == Suspended && ok[i] {
          tasks := tasks[i := Running];
        }
        assert tasks == Resuming(old(tasks), ok, i + 1);
      }
    }
  }

  /** `context()` of one actor whose lock phases are not cancelled. */
  class ForegroundScheduler {
    const bg: BackgroundScheduler
    var activeCount: int

    constructor (bg: BackgroundScheduler)
      ensures this.bg == bg && activeCount == 0
    {
      this.bg := bg;
      activeCount := 0;
    }

    method Enter(ok: seq<bool>)
      requires |ok| == |bg.tasks|
      modifies this, bg
      ensures activeCount == old(activeCount) + 1
      ensures if old(activeCount) == 0
              then bg.poolSuspended && bg.tasks == Suspending(old(bg.tasks), ok, |ok|)
              else bg.poolSuspended == old(bg.poolSuspended) && bg.tasks == old(bg.tasks)
    {
      activeCount := activeCount + 1;
      if activeCount == 1 {
        bg.SuspendAllTasks(ok);
      }
    }

    method Leave(ok: seq<bool>)
      requires |ok| == |bg.tasks|
      modifies this, bg
      ensures activeCount == old(activeCount) - 1
      ensures if old(activeCount) == 1
              then !bg.poolSuspended && bg.tasks == Resuming(old(bg.tasks), ok, |ok|)
              else bg.poolSuspended == old(bg.poolSuspended) && bg.tasks == old(bg.tasks)
    {
      activeCount := activeCount - 1;
      if activeCount == 0 {
        bg.ResumeAllTasks(ok);
      }
    }
  }
}
