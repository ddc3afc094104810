/** Streaming subscriptions: the in-memory desired set, its write-behind queue and the table they must agree on. */
module StreamingStockRepo {
  import opened Prelude

  /** A subscribed stock code. */
  datatype Code = Code(text: Text)

  datatype StreamType = UnifiedPrice | ProgramTrading

  /** Who asked for a subscription. Any other stored text reads as `Legacy`. */
  datatype Source = Manual | Program | Legacy | Unrecognized(other: Text)

  function Normalize(s: Source): Source {
    if s.Program? then Program else if s.Manual? then Manual else Legacy
  }

  function NormalizeCodes(codes: seq<Option<Code>>): set<Code> {
    set i | 0 <= i < |codes| && codes[i].Some? && codes[i].value != Code(EMPTY) :: codes[i].value
  }

  datatype Row = Row(source: Source, updatedAt: Option<int>)

  type Table = map<Code, Row>

  datatype Op = Op(code: Code, add: bool, source: Source)

  /** One queued operation as the flush writes it: insert-or-ignore then update, or delete. */
  function Write(t: Table, op: Op, now: int): Table {
    if op.add then t[op.code := Row(op.source, Some(now))] else t - {op.code}
  }

  function Replay(t: Table, ops: seq<Op>, now: int): Table {
    if ops == [] then t else Write(Replay(t, ops[..|ops| - 1], now), ops[|ops| - 1], now)
  }

  /** The codes of a table with their normalised sources. */
  function View(t: Table): map<Code, Source> {
    map code | code in t :: Normalize(t[code].source)
  }

  /** What loading keeps in memory: a manual row that was never stamped counts as legacy. */
  function LoadedSource(r: Row): Source {
    if Normalize(r.source) == Manual && r.updatedAt.None? then Legacy else Normalize(r.source)
  }

  function Restored(stored: Table): map<Code, Source> {
    map code | code in stored :: LoadedSource(stored[code])
  }

  function Migrated(codes: set<Code>): map<Code, Source> {
    map code | code in codes :: Legacy
  }

  /** Loading rewrites the source of every unstamped manual row, and nothing else. */
  method Relabel(stored: Table) returns (table: Table)
    ensures table.Keys == stored.Keys
    ensures forall code :: code in stored ==>
              table[code] == if LoadedSource(stored[code]) == Normalize(stored[code].source) then stored[code]
                             else stored[code].(source := Legacy)
  {
    table := stored;
    var todo := stored.Keys;
    while todo != {}
      invariant todo <= stored.Keys && table.Keys == stored.Keys
      invariant forall code :: code in todo ==> table[code] == stored[code]
      invariant forall code :: code in stored && code !in todo ==>
                  table[code] == if LoadedSource(stored[code]) == Normalize(stored[code].source) then stored[code]
                                 else stored[code].(source := Legacy)
      decreases |todo|
    {
      var code :| code in todo;
      if Normalize(stored[code].source) == Manual && stored[code].updatedAt.None? {
        table := table[code := table[code].(source := Legacy)];
      }
      todo := todo - {code};
    }
  }

  function LastOp(ops: seq<Op>, code: Code): Option<Op> {
    if ops == [] then None
    else if ops[|ops| - 1].code == code then Some(ops[|ops| - 1])
    else LastOp(ops[..|ops| - 1], code)
  }

  /** Only the last operation of a code matters. */
  lemma {:induction false} ReplayByLastOp(t: Table, ops: seq<Op>, now: int, code: Code)
    ensures code in View(Replay(t, ops, now)) <==>
            match LastOp(ops, code) case None => code in t case Some(op) => op.add
    ensures code in View(Replay(t, ops, now)) ==>
            View(Replay(t, ops, now))[code] ==
            match LastOp(ops, code) case None => Normalize(t[code].source) case Some(op) => Normalize(op.source)
  {
    if ops != [] && ops[|ops| - 1].code != code {
      ReplayByLastOp(t, ops[..|ops| - 1], now, code);
    }
  }

  /** The last operation on the code of operation `i` repeats what the table holds. */
  predicate Repeats(t: Table, ops: seq<Op>, i: nat)
    requires i < |ops|
  {
    var last := LastOp(ops, ops[i].code).GetOr(ops[i]);
    if last.add then last.code in t && Normalize(t[last.code].source) == Normalize(last.source)
    else last.code !in t
  }

  /** The queue, followed by removing `gone`, says nothing the table does not already say. */
  predicate RedundantExcept(t: Table, ops: seq<Op>, gone: set<Code>) {
    && (forall code :: code in gone ==> code !in t)
    && (forall i :: 0 <= i < |ops| && ops[i].code !in gone ==> Repeats(t, ops, i))
  }

  /** The queue says nothing the table does not already say. */
  predicate Redundant(t: Table, ops: seq<Op>) { RedundantExcept(t, ops, {}) }

  lemma {:induction false} LastOpOfMember(ops: seq<Op>, i: nat)
    requires i < |ops|
    ensures LastOp(ops, ops[i].code).Some? && LastOp(ops, ops[i].code).value.code == ops[i].code
  {
    var n := |ops| - 1;
    if ops[n].code != ops[i].code {
      assert ops[..n][i] == ops[i];
      LastOpOfMember(ops[..n], i);
    }
  }

  lemma {:induction false} LastOpIsMember(ops: seq<Op>, code: Code) returns (i: nat)
    requires LastOp(ops, code).Some?
    ensures i < |ops| && ops[i].code == code
  {
    var n := |ops| - 1;
    if ops[n].code == code { i := n; } else { i := LastOpIsMember(ops[..n], code); }
  }

  /** Losing the queue and the removals of `gone` that follow it is harmless exactly when no removed code is in the
      table and every other queued code's last operation repeats what the table holds. */
  lemma LosingRemovalsHarmlessIff(t: Table, ops: seq<Op>, now: int, gone: set<Code>)
    ensures View(Replay(t, ops, now)) - gone == View(t) <==> RedundantExcept(t, ops, gone)
  {
    var after := View(Replay(t, ops, now)) - gone;
    if RedundantExcept(t, ops, gone) {
      forall code
        ensures code in after <==> code in View(t)
        ensures code in View(t) ==> after[code] == View(t)[code]
      {
        ReplayByLastOp(t, ops, now, code);
        if LastOp(ops, code).Some? {
          var i := LastOpIsMember(ops, code);
          LastOpOfMember(ops, i);
          assert code !in gone ==> Repeats(t, ops, i);
        }
      }
    } else if code :| code in gone && code in t {
      assert code in View(t) && code !in after;
    } else {
      var i :| 0 <= i < |ops| && ops[i].code !in gone && !Repeats(t, ops, i);
      LastOpOfMember(ops, i);
      ReplayByLastOp(t, ops, now, ops[i].code);
      assert ops[i].code in View(t) <==> ops[i].code in t;
      assert ops[i].code in after <==> ops[i].code in View(Replay(t, ops, now));
    }
  }

  /** Losing the queue (a reload, or a flush that fails and drops its batch) is harmless exactly
      when every queued code's last operation repeats what the table holds. */
  lemma LosingQueueHarmlessIff(t: Table, ops: seq<Op>, now: int)
    ensures View(Replay(t, ops, now)) == View(t) <==> Redundant(t, ops)
  {
    LosingRemovalsHarmlessIff(t, ops, now, {});
    assert View(Replay(t, ops, now)) - {} == View(Replay(t, ops, now));
  }

  lemma ReplayAppend(t: Table, ops: seq<Op>, op: Op, now: int)
    ensures View(Replay(t, ops + [op], now)) ==
            if op.add then View(Replay(t, ops, now))[op.code := Normalize(op.source)]
            else View(Replay(t, ops, now)) - {op.code}
  {
    assert (ops + [op])[..|ops|] == ops;
  }

  /** The stamp written by a flush does not show in the view. */
  lemma {:induction false} StampInvisible(t: Table, ops: seq<Op>, now: int, later: int)
    ensures View(Replay(t, ops, now)) == View(Replay(t, ops, later))
  {
    forall code
      ensures code in View(Replay(t, ops, now)) <==> code in View(Replay(t, ops, later))
      ensures code in View(Replay(t, ops, now)) ==> View(Replay(t, ops, now))[code] == View(Replay(t, ops, later))[code]
    {
      ReplayByLastOp(t, ops, now, code);
      ReplayByLastOp(t, ops, later, code);
    }
  }

  // ---- whole runs ----

  /** The program-trading part of the state: memory, queue, and the table behind the connection. */
  datatype Memory = Memory(sources: map<Code, Source>, pending: seq<Op>, table: Table, connected: bool)

  datatype Call =
    | Load(stored: Table, fallback: set<Code>, at: int)
    | Mark(code: Code, source: Source)
    | Unmark(code: Code)
    | Flush(now: int, commitOk: bool)
    | Prune(owned: set<Code>, now: int, commitOk: bool)

  /** What loading leaves in the table: unstamped manual rows relabelled, or the fallback codes inserted. */
  function Loaded(stored: Table, fallback: set<Code>, at: int): Table {
    if stored == map[] then map code | code in fallback :: Row(Legacy, Some(at))
    else map code | code in stored :: if LoadedSource(stored[code]) == Normalize(stored[code].source) then stored[code]
                                      else stored[code].(source := Legacy)
  }

  function Queued(m: Memory, op: Op): seq<Op> { if m.connected then m.pending + [op] else m.pending }

  function Orphans(sources: map<Code, Source>, owned: set<Code>): set<Code> {
    set code | code in sources && code !in owned && sources[code] != Manual
  }

  function Step(m: Memory, call: Call): Memory {
    match call
    case Load(stored, fallback, at) =>
      Memory(if stored != map[] then Restored(stored) else Migrated(fallback), m.pending,
          Loaded(stored, fallback, at), true)
    case Mark(code, source) =>
      m.(sources := m.sources[code := Normalize(source)], pending := Queued(m, Op(code, true, Normalize(source))))
    case Unmark(code) =>
      m.(sources := m.sources - {code}, pending := Queued(m, Op(code, false, Manual)))
    case Flush(now, commitOk) =>
      if !m.connected then m
      else m.(pending := [], table := if commitOk then Replay(m.table, m.pending, now) else m.table)
    case Prune(owned, now, commitOk) =>
      var gone := Orphans(m.sources, owned);
      if gone == {} then m
      else if !m.connected then m.(sources := m.sources - gone)
      else Memory(m.sources - gone, [], if commitOk then Replay(m.table, m.pending, now) - gone else m.table, true)
  }

  function Run(m: Memory, calls: seq<Call>): Memory {
    if calls == [] then m else Step(Run(m, calls[..|calls| - 1]), calls[|calls| - 1])
  }

  /** Replaying the queue on the table gives the in-memory codes and sources. */
  predicate InAgreement(m: Memory) { View(Replay(m.table, m.pending, 0)) == m.sources }

  /** A call that loses no operation that matters: a load or a failed flush drops only what the table already says. */
  predicate Harmless(m: Memory, call: Call) {
    match call
    case Load(stored, fallback, at) => Redundant(Loaded(stored, fallback, at), m.pending)
    case Mark(_, _) => true
    case Unmark(_) => true
    case Flush(_, commitOk) => commitOk || Redundant(m.table, m.pending)
    case Prune(owned, _, commitOk) =>
      commitOk || Orphans(m.sources, owned) == {} || RedundantExcept(m.table, m.pending, Orphans(m.sources, owned))
  }

  lemma LoadedView(stored: Table, fallback: set<Code>, at: int)
    ensures View(Loaded(stored, fallback, at)) == if stored != map[] then Restored(stored) else Migrated(fallback)
  {
  }

  lemma FlushAgreesIff(m: Memory, now: int, commitOk: bool)
    requires InAgreement(m) && m.connected
    ensures InAgreement(Step(m, Flush(now, commitOk))) <==> Harmless(m, Flush(now, commitOk))
  {
    StampInvisible(m.table, m.pending, 0, now);
    LosingQueueHarmlessIff(m.table, m.pending, 0);
  }

  lemma PruneAgreesIff(m: Memory, owned: set<Code>, now: int, commitOk: bool)
    requires InAgreement(m) && m.connected
    ensures InAgreement(Step(m, Prune(owned, now, commitOk))) <==> Harmless(m, Prune(owned, now, commitOk))
  {
    var gone := Orphans(m.sources, owned);
    if gone != {} {
      StampInvisible(m.table, m.pending, 0, now);
      if commitOk {
        assert View(Replay(m.table, m.pending, now) - gone) == View(Replay(m.table, m.pending, now)) - gone;
      } else {
        LosingRemovalsHarmlessIff(m.table, m.pending, 0, gone);
      }
    }
  }

  /** After loading, from whatever state, memory and table agree exactly when the queue left over is redundant. */
  lemma LoadAgreesIff(m: Memory, stored: Table, fallback: set<Code>, at: int)
    ensures InAgreement(Step(m, Load(stored, fallback, at))) <==> Redundant(Loaded(stored, fallback, at), m.pending)
    ensures View(Loaded(stored, fallback, at)) == Step(m, Load(stored, fallback, at)).sources
  {
    LoadedView(stored, fallback, at);
    LosingQueueHarmlessIff(Loaded(stored, fallback, at), m.pending, 0);
  }

  lemma MarkAgrees(m: Memory, code: Code, source: Source)
    requires InAgreement(m) && m.connected
    ensures InAgreement(Step(m, Mark(code, source)))
  {
    ReplayAppend(m.table, m.pending, Op(code, true, Normalize(source)), 0);
  }

  lemma UnmarkAgrees(m: Memory, code: Code)
    requires InAgreement(m) && m.connected
    ensures InAgreement(Step(m, Unmark(code)))
  {
    ReplayAppend(m.table, m.pending, Op(code, false, Manual), 0);
  }

  /** From agreement, one call of a connected repository keeps agreement exactly when it is harmless. */
  lemma StepAgreesIff(m: Memory, call: Call)
    requires InAgreement(m) && m.connected
    ensures InAgreement(Step(m, call)) <==> Harmless(m, call)
  {
    match call
    case Load(stored, fallback, at) => LoadAgreesIff(m, stored, fallback, at);
    case Mark(code, source) => MarkAgrees(m, code, source);
    case Unmark(code) => UnmarkAgrees(m, code);
    case Flush(now, commitOk) => FlushAgreesIff(m, now, commitOk);
    case Prune(owned, now, commitOk) => PruneAgreesIff(m, owned, now, commitOk);
  }

  predicate AgreesThroughout(m: Memory, calls: seq<Call>) {
    InAgreement(Run(m, calls)) && (calls != [] ==> AgreesThroughout(m, calls[..|calls| - 1]))
  }

  predicate HarmlessThroughout(m: Memory, calls: seq<Call>) {
    calls != [] ==>
      && HarmlessThroughout(m, calls[..|calls| - 1])
      && Harmless(Run(m, calls[..|calls| - 1]), calls[|calls| - 1])
  }

  /** Over every run of loads, marks, unmarks, prunes and flushes, successful or not: memory and table agree after every
      call exactly when every call was harmless. */
  lemma {:induction false} RunAgreesIff(m: Memory, calls: seq<Call>)
    requires InAgreement(m) && m.connected
    ensures AgreesThroughout(m, calls) <==> HarmlessThroughout(m, calls)
  {
    if calls == [] {
    } else {
      var prefix := calls[..|calls| - 1];
      RunAgreesIff(m, prefix);
      RunConnected(m, prefix);
      if AgreesThroughout(m, prefix) {
        StepAgreesIff(Run(m, prefix), calls[|calls| - 1]);
      }
    }
  }

  lemma {:induction false} RunConnected(m: Memory, calls: seq<Call>)
    requires m.connected
    ensures Run(m, calls).connected
  {
    if calls == [] {
    } else {
      RunConnected(m, calls[..|calls| - 1]);
    }
  }

  // ---- what the marks are for ----

  /** A marked code is pruned exactly if nobody owns it and it was not marked by hand; a program mark does not protect
      it, and neither does a source the repository does not know, which counts as legacy. */
  lemma OnlyManualIsKept(m: Memory, code: Code, source: Source, owned: set<Code>, now: int, commitOk: bool)
    ensures var marked := Step(m, Mark(code, source));
            && code in marked.sources
            && marked.sources[code] == (match source case Unrecognized(_) => Legacy case known => known)
            && (code in Step(marked, Prune(owned, now, commitOk)).sources <==> code in owned || source == Manual)
  {
    var marked := Step(m, Mark(code, source));
    assert code in Orphans(marked.sources, owned) <==> code !in owned && source != Manual;
  }

  /** Loading takes the codes of the table, or of the fallback if the table is empty. A stored program row stays one, a
      manual row stays one if it was ever stamped, and everything else, the fallback codes too, is legacy. */
  lemma LoadedLabels(m: Memory, stored: Table, fallback: set<Code>, at: int, code: Code)
    ensures var sources := Step(m, Load(stored, fallback, at)).sources;
            && (code in sources <==> if stored != map[] then code in stored else code in fallback)
            && (code in sources ==>
                  && (sources[code] == Program <==> code in stored && stored[code].source == Program)
                  && (sources[code] == Manual <==>
                        code in stored && stored[code].source == Manual && stored[code].updatedAt.Some?)
                  && (sources[code] == Program || sources[code] == Manual || sources[code] == Legacy))
  {
  }

  /** Given codes are taken as they are, except that missing and empty ones are skipped. */
  lemma GivenCodes(codes: seq<Option<Code>>, code: Code)
    ensures code in NormalizeCodes(codes) <==>
            code.text != EMPTY && exists i :: 0 <= i < |codes| && codes[i] == Some(code)
  {
    if code.text != EMPTY && exists i :: 0 <= i < |codes| && codes[i] == Some(code) {
      var i :| 0 <= i < |codes| && codes[i] == Some(code);
      assert codes[i].value in NormalizeCodes(codes);
    }
  }

  /** No row would be relabelled by a load: every manual row carries a stamp. */
  ghost predicate Stamped(t: Table) {
    forall code :: code in t && t[code].source == Manual ==> t[code].updatedAt.Some?
  }

  lemma {:induction false} ReplayStamped(t: Table, ops: seq<Op>, now: int)
    requires Stamped(t)
    ensures Stamped(Replay(t, ops, now))
  {
    if ops == [] {
    } else {
      ReplayStamped(t, ops[..|ops| - 1], now);
    }
  }

  lemma StepStamped(m: Memory, call: Call)
    requires Stamped(m.table)
    ensures Stamped(Step(m, call).table)
  {
    match call
    case Load(_, _, _) =>
    case Mark(_, _) =>
    case Unmark(_) =>
    case Flush(now, _) => ReplayStamped(m.table, m.pending, now);
    case Prune(_, now, _) => ReplayStamped(m.table, m.pending, now);
  }

  lemma {:induction false} RunStamped(m: Memory, calls: seq<Call>)
    requires Stamped(m.table)
    ensures Stamped(Run(m, calls).table)
  {
    if calls == [] {
    } else {
      RunStamped(m, calls[..|calls| - 1]);
      StepStamped(Run(m, calls[..|calls| - 1]), calls[|calls| - 1]);
    }
  }

  lemma RestoredIsView(t: Table)
    requires Stamped(t)
    ensures Restored(t) == View(t)
  {
    forall code | code in t ensures LoadedSource(t[code]) == Normalize(t[code].source) {
    }
  }

  /** A restart brings back the subscriptions with their sources: after any run of harmless calls and one more flush
      that succeeds, a new repository that loads the table has the codes and sources of the old one. The one exception
      is an emptied table with fallback codes, which come back as legacy subscriptions. */
  lemma RestartRestoresIff(m: Memory, calls: seq<Call>, now: int, fallback: set<Code>, at: int)
    requires m.connected && InAgreement(m) && Stamped(m.table) && HarmlessThroughout(m, calls)
    ensures var end := Step(Run(m, calls), Flush(now, true));
            Step(Memory(map[], [], map[], false), Load(end.table, fallback, at)).sources == end.sources <==>
            end.sources != map[] || fallback == {}
  {
    var before := Run(m, calls);
    RunAgreesIff(m, calls);
    RunConnected(m, calls);
    RunStamped(m, calls);
    StepStamped(before, Flush(now, true));
    StampInvisible(before.table, before.pending, 0, now);
    var end := Step(before, Flush(now, true));
    assert View(end.table) == end.sources;
    RestoredIsView(end.table);
    if end.table == map[] {
      assert Migrated(fallback).Keys == fallback;
      assert fallback == {} ==> Migrated(fallback) == map[];
    } else {
      assert View(end.table).Keys == end.table.Keys;
    }
  }

  /** From an empty table: a code is marked, the flush fails, and the code is in memory only. */
  lemma DroppedMarkIsLost(code: Code, now: int) returns (end: Memory)
    ensures end == Step(Step(Memory(map[], [], map[], true), Mark(code, Manual)), Flush(now, false))
    ensures end == Memory(map[code := Manual], [], map[], true) && !InAgreement(end)
  {
    end := Memory(map[code := Manual], [], map[], true);
    assert Replay(map[], [], 0) == map[];
    assert code in end.sources && code !in View(Replay(end.table, end.pending, 0));
  }

  /** The part of loading that reads the rows, or inserts the fallback codes once. */
  method ReadRows(stored: Table, fallback: seq<Option<Code>>, now: int)
    returns (table: Table, sources: map<Code, Source>)
    ensures table == Loaded(stored, NormalizeCodes(fallback), now)
    ensures sources == if stored != map[] then Restored(stored) else Migrated(NormalizeCodes(fallback))
    ensures forall code :: code in sources ==> Normalize(sources[code]) == sources[code]
  {
    if stored != map[] {
      table := Relabel(stored);
      sources := Restored(stored);
    } else {
      var codes := NormalizeCodes(fallback);
      table := map code | code in codes :: Row(Legacy, Some(now));
      sources := Migrated(codes);
    }
  }

  /** `m` is `before` with the codes of `gone` unmarked one by one, in whatever order. */
  ghost predicate Unmarked(before: Memory, m: Memory, gone: set<Code>, now: int) {
    && m.sources == before.sources - gone && m.table == before.table && m.connected == before.connected
    && (if m.connected then Replay(m.table, m.pending, now) == Replay(before.table, before.pending, now) - gone
        else m.pending == before.pending)
  }

  lemma UnmarkedNothing(m: Memory, now: int)
    ensures Unmarked(m, m, {}, now)
  {
    assert m.sources - {} == m.sources;
    assert Replay(m.table, m.pending, now) - {} == Replay(m.table, m.pending, now);
  }

  lemma UnmarkOneMore(before: Memory, m: Memory, gone: set<Code>, code: Code, now: int)
    requires Unmarked(before, m, gone, now)
    ensures Unmarked(before, Step(m, Unmark(code)), gone + {code}, now)
  {
    assert (m.pending + [Op(code, false, Manual)])[..|m.pending|] == m.pending;
    assert Replay(before.table, before.pending, now) - gone - {code} ==
        Replay(before.table, before.pending, now) - (gone + {code});
    assert before.sources - gone - {code} == before.sources - (gone + {code});
  }

  class StreamingStockRepo {
    var desired: map<StreamType, set<Code>>
    var active: map<StreamType, set<Code>>
    var sources: map<Code, Source>
    var capacityPending: set<Code>
    var pending: seq<Op>
    var connected: bool      // a database connection exists
    var table: Table

    /** Source keys are the desired program-trading codes, in every state. */
    ghost predicate Valid()
      reads this
    {
      && ProgramTrading in desired && UnifiedPrice in desired
      && ProgramTrading in active && UnifiedPrice in active
      && sources.Keys == desired[ProgramTrading]
      && (forall code :: code in sources ==> Normalize(sources[code]) == sources[code])
    }

    ghost predicate Agrees()
      reads this
    {
      InAgreement(Mem())
    }

    ghost function Mem(): Memory
      reads this
    {
      Memory(sources, pending, table, connected)
    }

    constructor ()
      ensures Valid() && !connected && pending == [] && sources == map[] && table == map[]
    {
      desired := map[UnifiedPrice := {}, ProgramTrading := {}];
      active := map[UnifiedPrice := {}, ProgramTrading := {}];
      sources, capacityPending, pending, connected, table := map[], {}, [], false, map[];
    }

    /** Restores the desired set from the stored rows, or once from the fallback codes. Afterwards
        memory and queue agree with the table exactly when the queue left over from before is redundant. */
    method LoadPtDesired(stored: Table, fallback: seq<Option<Code>>, now: int)
      requires Valid()
      modifies this
      ensures Valid() && connected && pending == old(pending) && active == old(active)
      ensures Mem() == Step(old(Mem()), Load(stored, NormalizeCodes(fallback), now))
      ensures View(table) == sources
      ensures Agrees() <==> Redundant(table, pending)
    {
      LoadAgreesIff(Mem(), stored, NormalizeCodes(fallback), now);
      table, sources := ReadRows(stored, fallback, now);
      connected := true;
      desired := desired[ProgramTrading := sources.Keys];
    }

    /** Queues a change, unless there is no database yet. */
    method Persist(code: Code, add: bool, source: Source)
      modifies this`pending
      ensures pending == if connected then old(pending) + [Op(code, add, Normalize(source))] else old(pending)
    {
      if connected {
        pending := pending + [Op(code, add, Normalize(source))];
      }
    }

    method MarkDesired(code: Code, streamType: StreamType, source: Source)
      requires Valid()
      modifies this
      ensures Valid() && connected == old(connected) && table == old(table) && active == old(active)
      ensures desired == old(desired)[streamType := old(desired)[streamType] + {code}]
      ensures Mem() == if streamType.ProgramTrading? then Step(old(Mem()), Mark(code, source)) else old(Mem())
      ensures connected && old(Agrees()) ==> Agrees()
    {
      if connected && Agrees() { MarkAgrees(Mem(), code, source); }
      desired := desired[streamType := desired[streamType] + {code}];
      if streamType == ProgramTrading {
        sources := sources[code := Normalize(source)];
        Persist(code, true, Normalize(source));
      }
    }

    method UnmarkDesired(code: Code, streamType: StreamType)
      requires Valid()
      modifies this
      ensures Valid() && connected == old(connected) && table == old(table) && active == old(active)
      ensures desired == old(desired)[streamType := old(desired)[streamType] - {code}]
      ensures Mem() == if streamType.ProgramTrading? then Step(old(Mem()), Unmark(code)) else old(Mem())
      ensures connected && old(Agrees()) ==> Agrees()
    {
      if connected && Agrees() { UnmarkAgrees(Mem(), code); }
      desired := desired[streamType := desired[streamType] - {code}];
      if streamType == ProgramTrading {
        sources := sources - {code};
        Persist(code, false, Manual);
      }
    }

    /** A successful flush moves the queue into the table; a failed one drops it. Agreement
        survives a failure exactly when the dropped queue was redundant. */
    method FlushPtDesired(now: int, commitOk: bool)
      requires Valid()
      modifies this`pending, this`table
      ensures Valid()
      ensures Mem() == Step(old(Mem()), Flush(now, commitOk))
      ensures connected && commitOk && old(Agrees()) ==> Agrees() && View(table) == sources
      ensures connected && !commitOk && old(Agrees()) ==> (Agrees() <==> Redundant(old(table), old(pending)))
    {
      if !connected {
        return;
      }
      if Agrees() { FlushAgreesIff(Mem(), now, commitOk); }
      if pending == [] {
        return;
      }
      var ops := pending;
      pending := [];
      if commitOk {
        var written := table;
        for i := 0 to |ops|
          invariant written == Replay(table, ops[..i], now)
        {
          assert ops[..i + 1][..i] == ops[..i];
          written := Write(written, ops[i], now);
        }
        assert ops[..|ops|] == ops;
        table := written;
      }
    }

    /** Removes precisely the unowned codes that were not subscribed by hand, and flushes; a failed flush drops the
        removals with the rest of the queue. */
    method PruneOrphans(ownedCodes: seq<Option<Code>>, now: int, commitOk: bool) returns (targets: set<Code>)
      requires Valid()
      modifies this
      ensures Valid()
      ensures forall code :: code in targets <==>
                code in old(sources) && code !in NormalizeCodes(ownedCodes) && old(sources)[code] != Manual
      ensures Mem() == Step(old(Mem()), Prune(NormalizeCodes(ownedCodes), now, commitOk))
      ensures desired == old(desired)[ProgramTrading := old(desired)[ProgramTrading] - targets]
      ensures active == old(active)
      ensures connected && old(Agrees()) ==>
                (Agrees() <==> Harmless(old(Mem()), Prune(NormalizeCodes(ownedCodes), now, commitOk)))
      ensures connected && old(Agrees()) && targets != {} && commitOk ==> pending == [] && View(table) == sources
    {
      var owned := NormalizeCodes(ownedCodes);
      targets := set code | code in desired[ProgramTrading] && code !in owned
                            && (if code in sources then sources[code] else Legacy) != Manual;
      assert targets == Orphans(sources, owned);
      if connected && Agrees() { PruneAgreesIff(Mem(), owned, now, commitOk); }
      if targets == {} {
        assert desired[ProgramTrading] - targets == desired[ProgramTrading];
        return;
      }
      ghost var before := Mem();
      UnmarkAll(targets, now);
      FlushPtDesired(now, commitOk);
      if connected && commitOk && InAgreement(before) {
        assert Agrees() && pending == [];
        assert View(Replay(table, [], 0)) == View(table);
      }
    }

    method UnmarkAll(targets: set<Code>, ghost now: int)
      requires Valid()
      modifies this
      ensures Valid() && active == old(active)
      ensures Unmarked(old(Mem()), Mem(), targets, now)
      ensures desired == old(desired)[ProgramTrading := old(desired)[ProgramTrading] - targets]
    {
      ghost var gone := {};
      UnmarkedNothing(Mem(), now);
      var todo := targets;
      while todo != {}
        invariant todo !! gone && todo + gone == targets
        invariant Valid() && active == old(active)
        invariant Unmarked(old(Mem()), Mem(), gone, now)
        invariant desired == old(desired)[ProgramTrading := sources.Keys]
        decreases |todo|
      {
        var code :| code in todo;
        UnmarkOneMore(old(Mem()), Mem(), gone, code, now);
        UnmarkDesired(code, ProgramTrading);
        todo, gone := todo - {code}, gone + {code};
      }
      assert sources.Keys == old(sources).Keys - targets;
    }

    method MarkActive(code: Code, streamType: StreamType)
      requires Valid()
      modifies this`active, this`capacityPending
      ensures Valid()
      ensures active == old(active)[streamType := old(active)[streamType] + {code}]
      ensures capacityPending ==
              if streamType.ProgramTrading? then old(capacityPending) - {code} else old(capacityPending)
      ensures GetPending(streamType) == old(GetPending(streamType)) - {code}
    {
      active := active[streamType := active[streamType] + {code}];
      if streamType == ProgramTrading {
        capacityPending := capacityPending - {code};
      }
    }

    method MarkInactive(code: Code, streamType: StreamType)
      requires Valid()
      modifies this`active
      ensures Valid()
      ensures active == old(active)[streamType := old(active)[streamType] - {code}]
      ensures GetPending(streamType) == old(GetPending(streamType)) + (desired[streamType] * {code})
    {
      active := active[streamType := active[streamType] - {code}];
    }

    /** After a reconnect everything desired is pending again. */
    method ClearActive(streamType: StreamType)
      requires Valid()
      modifies this`active
      ensures Valid()
      ensures active == old(active)[streamType := {}]
      ensures GetPending(streamType) == desired[streamType]
    {
      active := active[streamType := {}];
    }

    function GetPending(streamType: StreamType): set<Code>
      requires streamType in desired && streamType in active
      reads this
    {
      desired[streamType] - active[streamType]
    }
  }
}
