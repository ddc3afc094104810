/** Daily candles: a table ordered by date per stock code, read through an LFU cache that ticks update in place. */
module OhlcvRepository {
  import opened Prelude
  import opened Cache

  datatype Candle = Candle(date: int, open: real, high: real, low: real, close: real, volume: int)

  datatype Tick = Tick(price: real, volume: int)

  datatype Record = Record(code: Text, candle: Candle)

  datatype Entry = Entry(historical: seq<Candle>, today: Option<Candle>, complete: bool)

  function Shown(e: Entry): seq<Candle> {
    e.historical + match e.today case Some(c) => [c] case None => []
  }

  type Table = map<Text, seq<Candle>>

  function RowsOf(t: Table, code: Text): seq<Candle> { if code in t then t[code] else [] }

  ghost predicate ByDate(rows: seq<Candle>) {
    forall i, j :: 0 <= i < j < |rows| ==> rows[i].date < rows[j].date
  }

  ghost predicate OrderedTable(t: Table) {
    forall code :: code in t ==> ByDate(t[code])
  }

  // ---- INSERT OR REPLACE ----

  function UpsertRow(rows: seq<Candle>, c: Candle): (r: seq<Candle>)
    ensures r != []
  {
    if rows == [] then [c]
    else if c.date < rows[0].date then [c] + rows
    else if c.date == rows[0].date then [c] + rows[1..]
    else [rows[0]] + UpsertRow(rows[1..], c)
  }

  function UpsertAll(t: Table, records: seq<Record>): Table {
    if records == [] then t
    else
      var last := records[|records| - 1];
      var before := UpsertAll(t, records[..|records| - 1]);
      before[last.code := UpsertRow(RowsOf(before, last.code), last.candle)]
  }

  function CandleOn(rows: seq<Candle>, date: int): Option<Candle> {
    if rows == [] then None
    else if rows[0].date == date then Some(rows[0])
    else CandleOn(rows[1..], date)
  }

  /** The last record for a code and date, if any. */
  function LatestRecord(records: seq<Record>, code: Text, date: int): Option<Candle> {
    if records == [] then None
    else
      var last := records[|records| - 1];
      if last.code == code && last.candle.date == date then Some(last.candle)
      else LatestRecord(records[..|records| - 1], code, date)
  }

  lemma {:induction false} UpsertRowOrder(rows: seq<Candle>, c: Candle)
    requires ByDate(rows)
    ensures ByDate(UpsertRow(rows, c))
    ensures UpsertRow(rows, c)[0].date == (if rows != [] && rows[0].date < c.date then rows[0].date else c.date)
  {
    if rows != [] && c.date > rows[0].date {
      var rest := rows[1..];
      UpsertRowOrder(rest, c);
      var r := UpsertRow(rest, c);
      assert rows[0].date < r[0].date;
      assert forall j :: 0 < j < |r| ==> r[0].date < r[j].date;
    }
  }

  /** Upserting replaces exactly the candle of that date. */
  lemma {:induction false} UpsertRowLookup(rows: seq<Candle>, c: Candle, date: int)
    requires ByDate(rows)
    ensures CandleOn(UpsertRow(rows, c), date) == if date == c.date then Some(c) else CandleOn(rows, date)
  {
    if rows != [] && c.date > rows[0].date {
      var rest := rows[1..];
      UpsertRowLookup(rest, c, date);
      assert ([rows[0]] + UpsertRow(rest, c))[1..] == UpsertRow(rest, c);
    } else if rows != [] {
      if date < rows[0].date { OlderThanAll(rows, date); }
      assert ([c] + rows)[1..] == rows;
      assert ([c] + rows[1..])[1..] == rows[1..];
    }
  }

  lemma {:induction false} OlderThanAll(rows: seq<Candle>, date: int)
    requires ByDate(rows) && (rows != [] ==> date < rows[0].date)
    ensures CandleOn(rows, date) == None
  {
    if rows == [] {
    } else {
      if |rows| > 1 { assert rows[0].date < rows[1].date; }
      OlderThanAll(rows[1..], date);
    }
  }

  /** A successful batch keeps every code's rows date-ordered, and every (code, date) then holds
      the last record written for it, or what it held before. */
  lemma {:induction false} UpsertAllMeaning(t: Table, records: seq<Record>, code: Text, date: int)
    requires OrderedTable(t)
    ensures OrderedTable(UpsertAll(t, records))
    ensures CandleOn(RowsOf(UpsertAll(t, records), code), date) ==
            match LatestRecord(records, code, date)
            case Some(c) => Some(c)
            case None => CandleOn(RowsOf(t, code), date)
  {
    if records == [] {
    } else {
      var last := records[|records| - 1];
      var prefix := records[..|records| - 1];
      UpsertAllMeaning(t, prefix, code, date);
      UpsertRowOrder(RowsOf(UpsertAll(t, prefix), last.code), last.candle);
      UpsertRowLookup(RowsOf(UpsertAll(t, prefix), last.code), last.candle, date);
    }
  }

  lemma {:induction false} UntouchedCode(t: Table, records: seq<Record>, code: Text)
    requires forall i :: 0 <= i < |records| ==> records[i].code != code
    ensures RowsOf(UpsertAll(t, records), code) == RowsOf(t, code)
  {
    if records == [] {
    } else {
      var prefix := records[..|records| - 1];
      assert forall i :: 0 <= i < |prefix| ==> prefix[i] == records[i];
      UntouchedCode(t, prefix, code);
    }
  }

  // ---- ticks ----

  function Tock(c: Candle, k: Tick): Candle {
    c.(close := k.price,
       volume := if k.volume > 0 then k.volume else c.volume,
       high := if k.price > c.high then k.price else c.high,
       low := if k.price < c.low then k.price else c.low)
  }

  function ApplyTicks(rows: seq<Candle>, ticks: seq<Tick>): (r: seq<Candle>)
    requires rows != []
    ensures |r| == |rows|
  {
    if ticks == [] then rows
    else
      var before := ApplyTicks(rows, ticks[..|ticks| - 1]);
      before[|rows| - 1 := Tock(before[|rows| - 1], ticks[|ticks| - 1])]
  }

  ghost predicate IsRunningMax(m: real, start: real, ticks: seq<Tick>) {
    && (m == start || exists i :: 0 <= i < |ticks| && m == ticks[i].price)
    && m >= start && forall i :: 0 <= i < |ticks| ==> m >= ticks[i].price
  }

  ghost predicate IsRunningMin(m: real, start: real, ticks: seq<Tick>) {
    && (m == start || exists i :: 0 <= i < |ticks| && m == ticks[i].price)
    && m <= start && forall i :: 0 <= i < |ticks| ==> m <= ticks[i].price
  }

  /** The volume of the last tick that carries one, or the one at the start. */
  ghost predicate IsLastVolume(v: int, start: int, ticks: seq<Tick>) {
    || (v == start && forall i :: 0 <= i < |ticks| ==> ticks[i].volume <= 0)
    || exists i :: 0 <= i < |ticks| && v == ticks[i].volume > 0 && forall j :: i < j < |ticks| ==> ticks[j].volume <= 0
  }

  lemma MaxGrows(m: real, start: real, ticks: seq<Tick>)
    requires ticks != [] && IsRunningMax(m, start, ticks[..|ticks| - 1])
    ensures var last := ticks[|ticks| - 1].price;
            IsRunningMax(if last > m then last else m, start, ticks)
  {
    var n := |ticks| - 1;
    if m != start && ticks[n].price <= m {
      var i :| 0 <= i < n && m == ticks[..n][i].price;
      assert m == ticks[i].price;
    }
    assert forall i :: 0 <= i < n ==> m >= ticks[..n][i].price == ticks[i].price;
  }

  lemma MinGrows(m: real, start: real, ticks: seq<Tick>)
    requires ticks != [] && IsRunningMin(m, start, ticks[..|ticks| - 1])
    ensures var last := ticks[|ticks| - 1].price;
            IsRunningMin(if last < m then last else m, start, ticks)
  {
    var n := |ticks| - 1;
    if m != start && ticks[n].price >= m {
      var i :| 0 <= i < n && m == ticks[..n][i].price;
      assert m == ticks[i].price;
    }
    assert forall i :: 0 <= i < n ==> m <= ticks[..n][i].price == ticks[i].price;
  }

  lemma VolumeGrows(v: int, start: int, ticks: seq<Tick>)
    requires ticks != [] && IsLastVolume(v, start, ticks[..|ticks| - 1])
    ensures var last := ticks[|ticks| - 1].volume;
            IsLastVolume(if last > 0 then last else v, start, ticks)
  {
    var n := |ticks| - 1;
    var prefix := ticks[..n];
    assert forall i :: 0 <= i < n ==> prefix[i] == ticks[i];
    if ticks[n].volume <= 0 && !(v == start && forall i :: 0 <= i < n ==> prefix[i].volume <= 0) {
      var i :| 0 <= i < n && v == prefix[i].volume > 0 && forall j :: i < j < n ==> prefix[j].volume <= 0;
      assert v == ticks[i].volume && forall j :: i < j < n ==> ticks[j].volume == prefix[j].volume;
    }
  }

  /** Ticks leave every older candle alone, keep date and open of the last one, make its high and low the running
      extremes, and its volume that of the last tick that carries one. */
  lemma {:induction false} TicksMeaning(rows: seq<Candle>, ticks: seq<Tick>)
    requires rows != []
    ensures var r, n := ApplyTicks(rows, ticks), |rows| - 1;
            && r[..n] == rows[..n]
            && r[n].date == rows[n].date && r[n].open == rows[n].open
            && (ticks != [] ==> r[n].close == ticks[|ticks| - 1].price)
            && IsRunningMax(r[n].high, rows[n].high, ticks)
            && IsRunningMin(r[n].low, rows[n].low, ticks)
            && IsLastVolume(r[n].volume, rows[n].volume, ticks)
  {
    if ticks == [] {
    } else {
      var prefix := ticks[..|ticks| - 1];
      TicksMeaning(rows, prefix);
      var before := ApplyTicks(rows, prefix);
      var n := |rows| - 1;
      VolumeGrows(before[n].volume, rows[n].volume, ticks);
      MaxGrows(before[n].high, rows[n].high, ticks);
      MinGrows(before[n].low, rows[n].low, ticks);
    }
  }

  // ---- coherence ----

  function Newest(rows: seq<Candle>, n: int): seq<Candle>
    requires 0 <= n <= |rows|
  {
    rows[|rows| - n..]
  }

  predicate IsSuffix(s: seq<Candle>, rows: seq<Candle>) {
    |s| <= |rows| && Newest(rows, |s|) == s
  }

  /** `SELECT … ORDER BY date DESC LIMIT ?`, returned oldest first; a negative limit is no limit. */
  function Select(rows: seq<Candle>, limit: int): seq<Candle> {
    if 0 <= limit < |rows| then Newest(rows, limit) else rows
  }

  /** A cached history is a suffix of the table rows, up to the ticks received since it was loaded. */
  ghost predicate CoherentEntry(e: Entry, rows: seq<Candle>, ticks: seq<Tick>) {
    && e.complete && e.today.None?
    && 0 < |e.historical| <= |rows|
    && e.historical == ApplyTicks(Newest(rows, |e.historical|), ticks)
  }

  ghost predicate Coherent(entries: map<Text, Entry>, table: Table, ticks: map<Text, seq<Tick>>) {
    forall code :: code in entries ==> code in ticks && CoherentEntry(entries[code], RowsOf(table, code), ticks[code])
  }

  lemma SelectMeaning(rows: seq<Candle>, limit: int)
    ensures Select(rows, limit) == [] <==> rows == [] || limit == 0
    ensures var s := Select(rows, limit);
            Min(limit, |rows|) <= |s| <= |rows| && s == Newest(rows, |s|)
            && (s != [] ==> CoherentEntry(Entry(s, None, true), rows, []))
  {
  }

  function Counted(t: Trace, code: Text, found: bool): Trace { Then(t, if found then Hit(code) else Miss) }

  /** No other of `keys` was used less since its insertion, and those used equally often were inserted later. */
  ghost predicate IsLeastUsed(t: Trace, keys: set<Text>, v: Text) {
    && v in keys
    && (forall k :: k in keys ==> UsesSinceInsert(t, v) <= UsesSinceInsert(t, k))
    && (forall k :: k in keys && k != v && UsesSinceInsert(t, v) == UsesSinceInsert(t, k) ==>
          InsertedAt(t, v) < InsertedAt(t, k))
  }

  /** The rows became the entry of `code`; all other entries stayed, or all but the least used one if the cache was
      full without `code`. `t` is what had happened to the cache before. */
  ghost predicate StoredAs(before: map<Text, Entry>, after: map<Text, Entry>, code: Text, rows: seq<Candle>,
                           capacity: nat, t: Trace) {
    && code in after && after[code] == Entry(rows, None, true)
    && (forall c :: c in after && c != code ==> c in before && after[c] == before[c])
    && (code in before || |before| < capacity ==> forall c :: c in before ==> c in after)
    && (code !in before && |before| == capacity ==>
          exists v :: IsLeastUsed(t, before.Keys, v) && after.Keys == before.Keys - {v} + {code})
  }

  lemma VictimIsLeastUsed(freq: map<Text, int>, order: seq<Text>, hits: int, misses: int, t: Trace)
    requires LfuHolds(freq, order, hits, misses, t)
    ensures forall v :: IsLfuVictim(freq, t, v) ==> IsLeastUsed(t, freq.Keys, v)
  {
  }

  lemma PutStores(before: map<Text, Entry>, after: map<Text, Entry>, code: Text, rows: seq<Candle>, capacity: nat,
                  t: Trace, evicted: Option<Text>)
    requires evicted.Some? <==> code !in before && |before| == capacity
    requires evicted.Some? ==> IsLeastUsed(t, before.Keys, evicted.value) && evicted.value != code
    requires after == (if evicted.Some? then before - {evicted.value} else before)[code := Entry(rows, None, true)]
    ensures StoredAs(before, after, code, rows, capacity, t)
  {
    if evicted.Some? { assert after.Keys == before.Keys - {evicted.value} + {code}; }
  }

  /** What one tick does to a cached entry: the last candle closes at the price, its extremes contain the price, and
      its volume is replaced by a positive one. */
  ghost predicate Ticked(before: Entry, after: Entry, price: real, volume: int) {
    && |after.historical| == |before.historical| > 0
    && after.today == before.today && after.complete == before.complete
    && var n := |before.historical| - 1;
       var was, now := before.historical[n], after.historical[n];
       && after.historical[..n] == before.historical[..n]
       && now.date == was.date && now.open == was.open && now.close == price
       && now.volume == (if volume > 0 then volume else was.volume)
       && now.high >= was.high && now.high >= price && (now.high == was.high || now.high == price)
       && now.low <= was.low && now.low <= price && (now.low == was.low || now.low == price)
  }

  predicate Mentions(records: seq<Record>, code: Text) { exists i :: 0 <= i < |records| && records[i].code == code }

  /** Exactly the entries of the codes in `records` are gone, and the others are unchanged. */
  ghost predicate Dropped(before: map<Text, Entry>, after: map<Text, Entry>, records: seq<Record>) {
    && (forall code :: code in after <==> code in before && !Mentions(records, code))
    && (forall code :: code in after ==> after[code] == before[code])
  }

  lemma DropOne(before: map<Text, Entry>, now: map<Text, Entry>, records: seq<Record>, i: nat)
    requires i < |records| && Dropped(before, now, records[..i])
    ensures Dropped(before, now - {records[i].code}, records[..i + 1])
  {
    var was, done := records[..i], records[..i + 1];
    assert done == was + [records[i]];
    forall code ensures Mentions(done, code) <==> Mentions(was, code) || records[i].code == code {
      assert forall j :: 0 <= j < i ==> done[j] == was[j];
      assert done[i] == records[i];
    }
  }

  class StockOhlcvRepository {
    const cache: LfuCache<Entry>
    var table: Table
    ghost var ticks: map<Text, seq<Tick>>   // per cached code, the ticks since it was loaded

    ghost predicate Valid()
      reads this, cache
    {
      && cache.Valid()
      && OrderedTable(table)
      && Coherent(cache.entries, table, ticks)
    }

    constructor (capacity: nat, table: Table)
      requires capacity >= 1 && OrderedTable(table)
      ensures Valid() && this.table == table && fresh(cache) && cache.entries == map[]
    {
      cache := new LfuCache<Entry>(capacity);
      this.table := table;
      ticks := map[];
    }

    /** A read with limit `n` answers with a (ticked) suffix of the table rows of length at least min(n, total). A hit
        answers with the whole cached history and changes no entry. A miss that finds rows caches them, forgets the
        ticks of its own code only, and removes another code at most by eviction. `dbOk` is whether the database could
        be read. */
    method GetStockData(code: Text, limit: int, dbOk: bool) returns (result: Option<seq<Candle>>)
      requires Valid()
      modifies this, cache
      ensures Valid()
      ensures table == old(table)
      ensures var hit := code in old(cache.entries) && |old(cache.entries)[code].historical| >= limit;
              result.None? <==> !hit && (!dbOk || RowsOf(table, code) == [] || limit == 0)
      ensures result.Some? ==>
                && code in cache.entries && result.value == cache.entries[code].historical
                && Min(limit, |RowsOf(table, code)|) <= |result.value| <= |RowsOf(table, code)|
                && result.value != []
                && result.value == ApplyTicks(Newest(RowsOf(table, code), |result.value|), ticks[code])
      ensures var hit := code in old(cache.entries) && |old(cache.entries)[code].historical| >= limit;
              && (hit ==> result == Some(old(cache.entries)[code].historical))
              && (hit || result.None? ==> cache.entries == old(cache.entries) && ticks == old(ticks))
              && (!hit && result.Some? ==>
                    && ticks == old(ticks)[code := []]
                    && StoredAs(old(cache.entries), cache.entries, code, result.value, cache.capacity,
                         Counted(old(cache.trace), code, code in old(cache.entries))))
    {
      var cached := cache.Get(code, true);
      if cached.Some? && cached.value.complete && |cached.value.historical| >= limit {
        assert CoherentEntry(cached.value, RowsOf(table, code), ticks[code]);
        return Some(Shown(cached.value));
      }
      if !dbOk {
        return None;
      }
      result := Load(code, limit);
    }

    /** The database branch of a read. */
    method Load(code: Text, limit: int) returns (result: Option<seq<Candle>>)
      requires Valid()
      modifies this, cache
      ensures Valid()
      ensures table == old(table)
      ensures var rows := Select(RowsOf(table, code), limit); result == if rows == [] then None else Some(rows)
      ensures (result.None? <==> RowsOf(table, code) == [] || limit == 0)
      ensures result.Some? ==>
                && code in cache.entries && code in ticks && ticks[code] == []
                && result.value == cache.entries[code].historical
                && Min(limit, |RowsOf(table, code)|) <= |result.value| <= |RowsOf(table, code)|
                && result.value == Newest(RowsOf(table, code), |result.value|)
      ensures result.None? ==> cache.entries == old(cache.entries) && ticks == old(ticks)
      ensures result.Some? ==>
                && ticks == old(ticks)[code := []]
                && StoredAs(old(cache.entries), cache.entries, code, result.value, cache.capacity, old(cache.trace))
    {
      var historical := Select(RowsOf(table, code), limit);
      SelectMeaning(RowsOf(table, code), limit);
      if historical == [] {
        return None;
      }
      ghost var before, freq, order, t := cache.entries, cache.freq, cache.order, cache.trace;
      VictimIsLeastUsed(freq, order, cache.hits, cache.misses, t);
      var evicted := cache.Put(code, Entry(historical, None, true));
      PutStores(before, cache.entries, code, historical, cache.capacity, t, evicted);
      ticks := ticks[code := []];
      result := Some(historical);
    }

    /** A tick for an uncached code does nothing; otherwise it is appended to that code's ticks. */
    method UpdateTodayCandle(code: Text, price: real, volume: int)
      requires Valid()
      modifies this, cache
      ensures Valid()
      ensures table == old(table) && cache.entries.Keys == old(cache.entries).Keys
      ensures cache.trace == old(cache.trace)
      ensures forall c :: c in cache.entries && c != code ==> cache.entries[c] == old(cache.entries)[c]
      ensures code in cache.entries ==> ticks == old(ticks)[code := old(ticks)[code] + [Tick(price, volume)]]
      ensures code in cache.entries ==> Ticked(old(cache.entries)[code], cache.entries[code], price, volume)
      ensures code !in cache.entries ==> ticks == old(ticks)
    {
      if code !in cache.entries {
        return;
      }
      var e := cache.entries[code];
      var n := |e.historical| - 1;
      var tick := Tick(price, volume);
      var e' := e.(historical := e.historical[n := Tock(e.historical[n], tick)]);
      ghost var received := ticks[code] + [tick];
      assert received[..|received| - 1] == ticks[code];
      SameKeysSameSize(cache.entries[code := e'], cache.entries);
      cache.entries := cache.entries[code := e'];
      ticks := ticks[code := received];
    }

    /** A successful batch rewrites the table and drops the cached codes it touched; a failed one changes nothing. */
    method UpsertOhlcv(records: seq<Record>, dbOk: bool)
      requires Valid()
      modifies this, cache
      ensures Valid()
      ensures table == if dbOk then UpsertAll(old(table), records) else old(table)
      ensures ticks == old(ticks)
      ensures if dbOk then Dropped(old(cache.entries), cache.entries, records)
              else cache.entries == old(cache.entries)
    {
      if records == [] || !dbOk {
        return;
      }
      var written := WriteAll(records);
      Invalidate(records);
      forall code | code in cache.entries ensures RowsOf(written, code) == RowsOf(table, code) {
        UntouchedCode(table, records, code);
      }
      UpsertAllMeaning(table, records, EMPTY, 0);
      table := written;
    }

    method WriteAll(records: seq<Record>) returns (written: Table)
      ensures written == UpsertAll(table, records)
    {
      written := table;
      for i := 0 to |records|
        invariant written == UpsertAll(table, records[..i])
      {
        assert records[..i + 1][..i] == records[..i];
        written := written[records[i].code := UpsertRow(RowsOf(written, records[i].code), records[i].candle)];
      }
      assert records[..|records|] == records;
    }

    method Invalidate(records: seq<Record>)
      requires Valid()
      modifies cache
      ensures Valid()
      ensures Dropped(old(cache.entries), cache.entries, records)
    {
      for i := 0 to |records|
        invariant Valid()
        invariant Dropped(old(cache.entries), cache.entries, records[..i])
      {
        DropOne(old(cache.entries), cache.entries, records, i);
        cache.Delete(records[i].code);
      }
      assert records[..|records|] == records;
    }
  }

  /** A tick for a cached code shows in the next read that the cache can answer, and in that read the whole cached
      history comes back, however few candles were asked for. */
  method TickThenRead(repo: StockOhlcvRepository, code: Text, price: real, volume: int, limit: int, dbOk: bool)
    returns (rows: seq<Candle>)
    requires repo.Valid() && code in repo.cache.entries && |repo.cache.entries[code].historical| >= limit
    modifies repo, repo.cache
    ensures repo.Valid()
    ensures Ticked(old(repo.cache.entries)[code], Entry(rows, None, true), price, volume)
    ensures rows[|rows| - 1].close == price
  {
    repo.UpdateTodayCandle(code, price, volume);
    var result := repo.GetStockData(code, limit, dbOk);
    rows := result.value;
  }

  // ---- why reads must not overlap writes ----

  lemma {:induction false} CandleOnMember(rows: seq<Candle>, i: nat)
    requires ByDate(rows) && i < |rows|
    ensures CandleOn(rows, rows[i].date) == Some(rows[i])
  {
    if i == 0 {
    } else {
      assert rows[0].date < rows[i].date;
      CandleOnMember(rows[1..], i - 1);
    }
  }

  lemma {:induction false} CandleOnFound(rows: seq<Candle>, date: int) returns (i: nat)
    requires CandleOn(rows, date).Some?
    ensures i < |rows| && rows[i].date == date && rows[i] == CandleOn(rows, date).value
  {
    if rows[0].date == date {
      i := 0;
    } else {
      i := CandleOnFound(rows[1..], date);
      i := i + 1;
    }
  }

  predicate SameOn(a: seq<Candle>, b: seq<Candle>, date: int) { CandleOn(a, date) == CandleOn(b, date) }

  /** A dated list says which candle each date has, and nothing else. */
  lemma {:induction false} SameLookupSameRows(a: seq<Candle>, b: seq<Candle>)
    requires ByDate(a) && ByDate(b) && forall date :: SameOn(a, b, date)
    ensures a == b
  {
    if a != [] { CandleOnMember(a, 0); assert SameOn(a, b, a[0].date); }
    if b != [] { CandleOnMember(b, 0); assert SameOn(a, b, b[0].date); }
    if a == [] || b == [] {
    } else {
      if a[0].date < b[0].date { OlderThanAll(b, a[0].date); }
      if b[0].date < a[0].date { OlderThanAll(a, b[0].date); }
      assert a[0] == b[0];
      forall date ensures SameOn(a[1..], b[1..], date) {
        assert SameOn(a, b, date);
        if date == a[0].date {
          if |a| > 1 { assert a[0].date < a[1].date; }
          if |b| > 1 { assert b[0].date < b[1].date; }
          OlderThanAll(a[1..], date);
          OlderThanAll(b[1..], date);
        } else {
          assert CandleOn(a, date) == CandleOn(b, date);
        }
      }
      SameLookupSameRows(a[1..], b[1..]);
    }
  }

  /** The rows of `rows` on or after a date. */
  function Since(rows: seq<Candle>, date: int): seq<Candle> {
    if rows == [] then []
    else if rows[0].date < date then Since(rows[1..], date)
    else rows
  }

  lemma {:induction false} SinceMeaning(rows: seq<Candle>, start: int, date: int)
    requires ByDate(rows)
    ensures ByDate(Since(rows, start)) && IsSuffix(Since(rows, start), rows)
    ensures CandleOn(Since(rows, start), date) == if date < start then None else CandleOn(rows, date)
  {
    if rows == [] {
    } else if rows[0].date < start {
      SinceMeaning(rows[1..], start, date);
      var s := Since(rows[1..], start);
      assert Newest(rows, |s|) == Newest(rows[1..], |s|);
    } else if date < start {
      OlderThanAll(rows, date);
    }
  }

  /** A nonempty suffix of dated rows is everything since its first date. */
  lemma {:induction false} SuffixIsSince(s: seq<Candle>, rows: seq<Candle>)
    requires ByDate(rows) && s != [] && IsSuffix(s, rows)
    ensures ByDate(s) && s == Since(rows, s[0].date)
  {
    if |s| == |rows| {
      assert Newest(rows, |s|) == rows;
    } else {
      assert Newest(rows, |s|) == Newest(rows[1..], |s|);
      assert rows[0].date < rows[|rows| - |s|].date;
      SuffixIsSince(s, rows[1..]);
    }
  }

  /** Dated rows `s` are a suffix of dated `rows` exactly if both agree on every date since the first of `s`. */
  lemma SuffixIff(s: seq<Candle>, rows: seq<Candle>)
    requires ByDate(rows) && ByDate(s) && s != []
    ensures IsSuffix(s, rows) <==> forall date :: date >= s[0].date ==> SameOn(rows, s, date)
  {
    var start := s[0].date;
    var since := Since(rows, start);
    forall date ensures CandleOn(since, date) == if date < start then None else CandleOn(rows, date) {
      SinceMeaning(rows, start, date);
    }
    SinceMeaning(rows, start, start);
    if IsSuffix(s, rows) {
      SuffixIsSince(s, rows);
    } else if forall date :: date >= start ==> SameOn(rows, s, date) {
      forall date ensures SameOn(s, since, date) {
        if date < start { OlderThanAll(s, date); } else { assert SameOn(rows, s, date); }
      }
      SameLookupSameRows(s, since);
    }
  }

  lemma {:induction false} LatestRecordDate(records: seq<Record>, code: Text, date: int)
    requires LatestRecord(records, code, date).Some?
    ensures LatestRecord(records, code, date).value.date == date
  {
    var last := records[|records| - 1];
    if last.code == code && last.candle.date == date {
    } else {
      LatestRecordDate(records[..|records| - 1], code, date);
    }
  }

  lemma LookupIsMembership(s: seq<Candle>, c: Candle)
    requires ByDate(s)
    ensures CandleOn(s, c.date) == Some(c) <==> c in s
  {
    if c in s {
      var i :| 0 <= i < |s| && s[i] == c;
      CandleOnMember(s, i);
    }
    if CandleOn(s, c.date) == Some(c) {
      var i := CandleOnFound(s, c.date);
    }
  }

  /** The batch says nothing new about the date: its last record for it, if any, is one of the candles of `s`. */
  predicate NothingNew(records: seq<Record>, code: Text, s: seq<Candle>, date: int) {
    match LatestRecord(records, code, date) case None => true case Some(c) => c in s
  }

  lemma NothingNewIff(t: Table, records: seq<Record>, code: Text, s: seq<Candle>, date: int)
    requires OrderedTable(t) && ByDate(s) && CandleOn(RowsOf(t, code), date) == CandleOn(s, date)
    ensures SameOn(RowsOf(UpsertAll(t, records), code), s, date) <==> NothingNew(records, code, s, date)
  {
    UpsertAllMeaning(t, records, code, date);
    if LatestRecord(records, code, date).Some? {
      LatestRecordDate(records, code, date);
      LookupIsMembership(s, LatestRecord(records, code, date).value);
    }
  }

  /** Rows read before a batch was written, and cached after it, are still a suffix of the table exactly if, from the
      first date read on, the last record of every date in the batch is one of the candles read. */
  lemma OverlappedReadCoherentIff(t: Table, records: seq<Record>, code: Text, n: nat)
    requires OrderedTable(t) && 0 < n <= |RowsOf(t, code)|
    ensures var s := Newest(RowsOf(t, code), n);
            IsSuffix(s, RowsOf(UpsertAll(t, records), code)) <==>
            forall date :: date >= s[0].date ==> NothingNew(records, code, s, date)
  {
    var rows, after := RowsOf(t, code), RowsOf(UpsertAll(t, records), code);
    var s := Newest(rows, n);
    assert ByDate(rows) && ByDate(s);
    UpsertAllMeaning(t, records, code, s[0].date);
    SuffixIff(s, rows);
    SuffixIff(s, after);
    forall date | date >= s[0].date ensures SameOn(after, s, date) <==> NothingNew(records, code, s, date) {
      assert SameOn(rows, s, date);
      NothingNewIff(t, records, code, s, date);
    }
  }

  /** A read of the whole table, by the same condition. */
  lemma WholeReadCoherentIff(t: Table, records: seq<Record>, code: Text)
    requires OrderedTable(t) && RowsOf(t, code) != []
    ensures var rows := RowsOf(t, code);
            IsSuffix(rows, RowsOf(UpsertAll(t, records), code)) <==>
            forall date :: date >= rows[0].date ==> NothingNew(records, code, rows, date)
  {
    OverlappedReadCoherentIff(t, records, code, |RowsOf(t, code)|);
    assert Newest(RowsOf(t, code), |RowsOf(t, code)|) == RowsOf(t, code);
  }

  /** One stale read: the close of a day already read is corrected by the batch. */
  lemma CorrectedCloseIsStale(code: Text, before: Candle, corrected: Candle)
    requires corrected.date == before.date && corrected != before
    ensures var t := map[code := [before]];
            RowsOf(UpsertAll(t, [Record(code, corrected)]), code) == [corrected]
            && !IsSuffix([before], RowsOf(UpsertAll(t, [Record(code, corrected)]), code))
  {
    var t, records := map[code := [before]], [Record(code, corrected)];
    assert records[..0] == [];
    assert UpsertAll(t, []) == t;
    assert UpsertRow([before], corrected) == [corrected];
  }
}
