/** Pairing of backtest and live trade records by strategy, code and day, in signal-time order. */
module TradeJournal {
  import opened Prelude

  /** Which object a record is; two entries with the same identity are the same object. */
  datatype Ident = Ident(n: int)

  datatype Key = Key(strategy: Text, code: Text, date: Text)

  datatype Record = Record(id: Ident, key: Key, time: Text)

  datatype Pair = Pair(backtest: Record, live: Record)

  datatype Progress = Progress(queues: map<Key, seq<Record>>, matches: seq<Pair>, unmatched: seq<Record>)

  datatype Comparison = Comparison(matches: seq<Pair>, unmatchedBacktest: seq<Record>, unmatchedLive: seq<Record>)

  // ---- sorting ----

  predicate KeyBefore(a: Key, b: Key) {
    if a.strategy != b.strategy then a.strategy < b.strategy
    else if a.code != b.code then a.code < b.code
    else a.date < b.date
  }

  /** The sort key (strategy, code, date, time) of `a` is smaller. */
  predicate Before(a: Record, b: Record) {
    if a.key != b.key then KeyBefore(a.key, b.key) else a.time < b.time
  }

  function Insert(sorted: seq<Record>, r: Record): seq<Record> {
    if sorted == [] then [r]
    else if Before(r, sorted[|sorted| - 1]) then Insert(sorted[..|sorted| - 1], r) + [sorted[|sorted| - 1]]
    else sorted + [r]
  }

  /** A stable ascending sort. */
  function Sort(rs: seq<Record>): seq<Record> {
    if rs == [] then [] else Insert(Sort(rs[..|rs| - 1]), rs[|rs| - 1])
  }

  ghost predicate Sorted(rs: seq<Record>) { forall i, j :: 0 <= i < j < |rs| ==> !Before(rs[j], rs[i]) }

  /** The records with one key, in order. */
  function Of(rs: seq<Record>, k: Key): seq<Record> {
    if rs == [] then []
    else if rs[|rs| - 1].key == k then Of(rs[..|rs| - 1], k) + [rs[|rs| - 1]]
    else Of(rs[..|rs| - 1], k)
  }

  function PairsOf(ps: seq<Pair>, k: Key): seq<Pair> {
    if ps == [] then []
    else if ps[|ps| - 1].backtest.key == k then PairsOf(ps[..|ps| - 1], k) + [ps[|ps| - 1]]
    else PairsOf(ps[..|ps| - 1], k)
  }

  lemma OfSnoc(rs: seq<Record>, r: Record, k: Key)
    ensures Of(rs + [r], k) == if r.key == k then Of(rs, k) + [r] else Of(rs, k)
  {
    assert (rs + [r])[..|rs|] == rs;
  }

  lemma {:induction false} InsertReorders(sorted: seq<Record>, r: Record)
    ensures multiset(Insert(sorted, r)) == multiset(sorted) + multiset{r} && |Insert(sorted, r)| == |sorted| + 1
  {
    if sorted != [] && Before(r, sorted[|sorted| - 1]) {
      InsertReorders(sorted[..|sorted| - 1], r);
      assert sorted == sorted[..|sorted| - 1] + [sorted[|sorted| - 1]];
    }
  }

  lemma {:induction false} InsertIsSorted(sorted: seq<Record>, r: Record)
    requires Sorted(sorted)
    ensures Sorted(Insert(sorted, r))
  {
    if sorted != [] && Before(r, sorted[|sorted| - 1]) {
      var n := |sorted| - 1;
      var front := Insert(sorted[..n], r);
      InsertIsSorted(sorted[..n], r);
      InsertReorders(sorted[..n], r);
      forall i | 0 <= i < |front| ensures !Before(sorted[n], front[i]) {
        assert front[i] in multiset(front);
        assert front[i] in sorted[..n] || front[i] == r;
      }
    }
  }

  /** Sorting reorders, and sorts. */
  lemma {:induction false} SortIsSorted(rs: seq<Record>)
    ensures Sorted(Sort(rs)) && multiset(Sort(rs)) == multiset(rs) && |Sort(rs)| == |rs|
  {
    if rs == [] {
    } else {
      var n := |rs| - 1;
      SortIsSorted(rs[..n]);
      InsertIsSorted(Sort(rs[..n]), rs[n]);
      InsertReorders(Sort(rs[..n]), rs[n]);
      assert rs == rs[..n] + [rs[n]];
    }
  }

  lemma {:induction false} InsertCommutes(sorted: seq<Record>, r: Record, k: Key)
    requires Sorted(sorted)
    ensures Of(Insert(sorted, r), k) == if r.key == k then Insert(Of(sorted, k), r) else Of(sorted, k)
  {
    if sorted != [] && Before(r, sorted[|sorted| - 1]) {
      var n := |sorted| - 1;
      InsertCommutes(sorted[..n], r, k);
      OfSnoc(Insert(sorted[..n], r), sorted[n], k);
      if r.key == k && sorted[n].key == k {
        assert Of(sorted, k)[..|Of(sorted, k)| - 1] == Of(sorted[..n], k);
      }
    } else {
      OfSnoc(sorted, r, k);
      if sorted != [] && Of(sorted, k) != [] {
        var last := Of(sorted, k)[|Of(sorted, k)| - 1];
        OfMembers(sorted, k);
        var i :| 0 <= i < |sorted| && sorted[i] == last;
        assert i < |sorted| - 1 ==> !Before(sorted[|sorted| - 1], sorted[i]);
      }
    }
  }

  lemma {:induction false} OfMembers(rs: seq<Record>, k: Key)
    ensures forall r :: r in Of(rs, k) <==> r in rs && r.key == k
  {
    if rs == [] {
    } else {
      OfMembers(rs[..|rs| - 1], k);
      assert rs == rs[..|rs| - 1] + [rs[|rs| - 1]];
    }
  }

  /** Sorting everything and then looking at one key is sorting that key's records by time, equal times in input
      order. */
  lemma {:induction false} SortCommutes(rs: seq<Record>, k: Key)
    ensures Of(Sort(rs), k) == Sort(Of(rs, k))
  {
    if rs == [] {
    } else {
      var n := |rs| - 1;
      SortCommutes(rs[..n], k);
      SortIsSorted(rs[..n]);
      InsertCommutes(Sort(rs[..n]), rs[n], k);
      if rs[n].key == k {
        assert Of(rs, k)[..|Of(rs, k)| - 1] == Of(rs[..n], k);
      }
    }
  }

  // ---- pairing ----

  function Queue(queues: map<Key, seq<Record>>, k: Key): seq<Record> { if k in queues then queues[k] else [] }

  function Enqueue(live: seq<Record>): map<Key, seq<Record>> {
    if live == [] then map[]
    else
      var before, last := Enqueue(live[..|live| - 1]), live[|live| - 1];
      before[last.key := Queue(before, last.key) + [last]]
  }

  function MatchOne(p: Progress, r: Record): Progress {
    var candidates := Queue(p.queues, r.key);
    if candidates == [] then p.(unmatched := p.unmatched + [r])
    else p.(queues := p.queues[r.key := candidates[1..]], matches := p.matches + [Pair(r, candidates[0])])
  }

  function MatchAll(live: seq<Record>, backtest: seq<Record>): Progress {
    if backtest == [] then Progress(Enqueue(live), [], [])
    else MatchOne(MatchAll(live, backtest[..|backtest| - 1]), backtest[|backtest| - 1])
  }

  function MatchedIds(ps: seq<Pair>): set<Ident> {
    if ps == [] then {} else MatchedIds(ps[..|ps| - 1]) + {ps[|ps| - 1].live.id}
  }

  function Without(rs: seq<Record>, ids: set<Ident>): seq<Record> {
    if rs == [] then []
    else if rs[|rs| - 1].id in ids then Without(rs[..|rs| - 1], ids)
    else Without(rs[..|rs| - 1], ids) + [rs[|rs| - 1]]
  }

  function Compare(backtest: seq<Record>, live: seq<Record>): Comparison {
    var p := MatchAll(Sort(live), Sort(backtest));
    Comparison(p.matches, p.unmatched, Without(Sort(live), MatchedIds(p.matches)))
  }

  method GroupByKey(live: seq<Record>) returns (liveByKey: map<Key, seq<Record>>)
    ensures liveByKey == Enqueue(live)
  {
    liveByKey := map[];
    for i := 0 to |live|
      invariant liveByKey == Enqueue(live[..i])
    {
      assert live[..i + 1][..i] == live[..i];
      liveByKey := liveByKey[live[i].key := Queue(liveByKey, live[i].key) + [live[i]]];
    }
    assert live[..|live|] == live;
  }

  method PairRecords(live: seq<Record>, backtest: seq<Record>)
    returns (matches: seq<Pair>, unmatchedBacktest: seq<Record>, matchedLiveIds: set<Ident>)
    ensures matches == MatchAll(live, backtest).matches && unmatchedBacktest == MatchAll(live, backtest).unmatched
    ensures matchedLiveIds == MatchedIds(matches)
  {
    var liveByKey := GroupByKey(live);
    matches, unmatchedBacktest, matchedLiveIds := [], [], {};
    for i := 0 to |backtest|
      invariant Progress(liveByKey, matches, unmatchedBacktest) == MatchAll(live, backtest[..i])
      invariant matchedLiveIds == MatchedIds(matches)
    {
      assert backtest[..i + 1][..i] == backtest[..i];
      var record := backtest[i];
      if record.key !in liveByKey || liveByKey[record.key] == [] {
        unmatchedBacktest := unmatchedBacktest + [record];
        continue;
      }
      var candidates := liveByKey[record.key];
      liveByKey := liveByKey[record.key := candidates[1..]];
      matchedLiveIds := matchedLiveIds + {candidates[0].id};
      MatchedIdsSnoc(matches, Pair(record, candidates[0]));
      matches := matches + [Pair(record, candidates[0])];
    }
    assert backtest[..|backtest|] == backtest;
  }

  lemma MatchedIdsSnoc(ps: seq<Pair>, p: Pair)
    ensures MatchedIds(ps + [p]) == MatchedIds(ps) + {p.live.id}
  {
    assert (ps + [p])[..|ps|] == ps;
  }

  method CompareTradeJournals(backtestRecords: seq<Record>, liveRecords: seq<Record>) returns (c: Comparison)
    ensures c == Compare(backtestRecords, liveRecords)
  {
    var backtest, live := Sort(backtestRecords), Sort(liveRecords);
    var matches, unmatchedBacktest, matchedLiveIds := PairRecords(live, backtest);
    var unmatchedLive := [];
    for i := 0 to |live|
      invariant unmatchedLive == Without(live[..i], matchedLiveIds)
    {
      assert live[..i + 1][..i] == live[..i];
      if live[i].id !in matchedLiveIds {
        unmatchedLive := unmatchedLive + [live[i]];
      }
    }
    assert live[..|live|] == live;
    c := Comparison(matches, unmatchedBacktest, unmatchedLive);
  }

  // ---- what the pairing is, key by key ----

  function Zip(b: seq<Record>, l: seq<Record>): seq<Pair> {
    seq(Min(|b|, |l|), i requires 0 <= i < Min(|b|, |l|) => Pair(b[i], l[i]))
  }

  lemma {:induction false} QueuesAreKeys(live: seq<Record>, k: Key)
    ensures Queue(Enqueue(live), k) == Of(live, k)
  {
    if live == [] {
    } else {
      QueuesAreKeys(live[..|live| - 1], k);
    }
  }

  /** For one key, with `b` seen and `l` waiting: the i-th of `b` is paired with the i-th of `l`, the rest are left. */
  ghost predicate Paired(p: Progress, b: seq<Record>, l: seq<Record>, k: Key) {
    var m := Min(|b|, |l|);
    && Queue(p.queues, k) == l[m..]
    && PairsOf(p.matches, k) == Zip(b, l)
    && Of(p.unmatched, k) == b[m..]
  }

  lemma PairsOfSnoc(ps: seq<Pair>, p: Pair, k: Key)
    ensures PairsOf(ps + [p], k) == if p.backtest.key == k then PairsOf(ps, k) + [p] else PairsOf(ps, k)
  {
    assert (ps + [p])[..|ps|] == ps;
  }

  lemma ZipGrows(b: seq<Record>, r: Record, l: seq<Record>)
    ensures Zip(b + [r], l) == if |b| < |l| then Zip(b, l) + [Pair(r, l[|b|])] else Zip(b, l)
  {
  }

  lemma MatchOnePaired(p: Progress, r: Record, b: seq<Record>, l: seq<Record>, k: Key)
    requires Paired(p, b, l, k)
    ensures Paired(MatchOne(p, r), if r.key == k then b + [r] else b, l, k)
  {
    var candidates := Queue(p.queues, r.key);
    if candidates == [] {
      OfSnoc(p.unmatched, r, k);
    } else {
      PairsOfSnoc(p.matches, Pair(r, candidates[0]), k);
    }
    if r.key == k { ZipGrows(b, r, l); }
  }

  lemma {:induction false} PairingByKey(live: seq<Record>, backtest: seq<Record>, k: Key)
    ensures Paired(MatchAll(live, backtest), Of(backtest, k), Of(live, k), k)
  {
    if backtest == [] {
      QueuesAreKeys(live, k);
    } else {
      var n := |backtest| - 1;
      PairingByKey(live, backtest[..n], k);
      MatchOnePaired(MatchAll(live, backtest[..n]), backtest[n], Of(backtest[..n], k), Of(live, k), k);
    }
  }

  // ---- nothing lost, nothing twice ----

  lemma {:induction false} MatchedIdsMembers(ps: seq<Pair>, id: Ident)
    ensures id in MatchedIds(ps) <==> exists p :: p in ps && p.live.id == id
  {
    if ps == [] {
    } else {
      MatchedIdsMembers(ps[..|ps| - 1], id);
      assert ps == ps[..|ps| - 1] + [ps[|ps| - 1]];
      assert ps[|ps| - 1] in ps;
    }
  }

  lemma {:induction false} PairsOfMembers(ps: seq<Pair>, k: Key)
    ensures forall p :: p in PairsOf(ps, k) <==> p in ps && p.backtest.key == k
  {
    if ps == [] {
    } else {
      PairsOfMembers(ps[..|ps| - 1], k);
      assert ps == ps[..|ps| - 1] + [ps[|ps| - 1]];
    }
  }

  /** What is at a matched position of any key has been matched, ... */
  lemma MatchedAt(live: seq<Record>, backtest: seq<Record>, k: Key, i: nat)
    requires i < Min(|Of(backtest, k)|, |Of(live, k)|)
    ensures Of(live, k)[i].id in MatchedIds(MatchAll(live, backtest).matches)
  {
    var ps := MatchAll(live, backtest).matches;
    PairingByKey(live, backtest, k);
    PairsOfMembers(ps, k);
    assert PairsOf(ps, k)[i] in PairsOf(ps, k);
    MatchedIdsMembers(ps, Of(live, k)[i].id);
  }

  /** ... and nothing else. */
  lemma MatchedFrom(live: seq<Record>, backtest: seq<Record>, id: Ident) returns (k: Key, i: nat)
    requires id in MatchedIds(MatchAll(live, backtest).matches)
    ensures i < Min(|Of(backtest, k)|, |Of(live, k)|) && Of(live, k)[i].id == id
  {
    var ps := MatchAll(live, backtest).matches;
    MatchedIdsMembers(ps, id);
    var p :| p in ps && p.live.id == id;
    k := p.backtest.key;
    PairingByKey(live, backtest, k);
    PairsOfMembers(ps, k);
    i :| 0 <= i < |PairsOf(ps, k)| && PairsOf(ps, k)[i] == p;
  }

  lemma {:induction false} WithoutCommutes(rs: seq<Record>, ids: set<Ident>, k: Key)
    ensures Of(Without(rs, ids), k) == Without(Of(rs, k), ids)
  {
    if rs == [] {
    } else {
      var n := |rs| - 1;
      WithoutCommutes(rs[..n], ids, k);
      OfSnoc(Without(rs[..n], ids), rs[n], k);
      if rs[n].key == k {
        assert Of(rs, k)[..|Of(rs, k)| - 1] == Of(rs[..n], k);
      }
    }
  }

  lemma {:induction false} WithoutPrefix(l: seq<Record>, ids: set<Ident>, m: nat)
    requires m <= |l| && forall i :: 0 <= i < |l| ==> (l[i].id in ids <==> i < m)
    ensures Without(l, ids) == l[m..]
  {
    if |l| > m {
      WithoutPrefix(l[..|l| - 1], ids, m);
      assert l[..|l| - 1][m..] + [l[|l| - 1]] == l[m..];
    } else if l != [] {
      WithoutPrefix(l[..|l| - 1], ids, m - 1);
    }
  }

  /** One object cannot carry two different records. */
  ghost predicate Consistent(rs: seq<Record>) {
    forall i, j :: 0 <= i < |rs| && 0 <= j < |rs| && rs[i].id == rs[j].id ==> rs[i] == rs[j]
  }

  ghost predicate DistinctObjects(rs: seq<Record>) {
    forall i, j :: 0 <= i < j < |rs| ==> rs[i].id != rs[j].id
  }

  /** For every key the matches are the zip of both sides in time order, and each unmatched list is the rest of its
      side. */
  ghost predicate PartitionAt(c: Comparison, backtest: seq<Record>, live: seq<Record>, k: Key) {
    var b, l := Sort(Of(backtest, k)), Sort(Of(live, k));
    var m := Min(|b|, |l|);
    PairsOf(c.matches, k) == Zip(b, l) && Of(c.unmatchedBacktest, k) == b[m..] && Of(c.unmatchedLive, k) == l[m..]
  }

  lemma {:induction false} DistinctOf(rs: seq<Record>, k: Key)
    requires DistinctObjects(rs)
    ensures DistinctObjects(Of(rs, k))
  {
    if rs == [] {
    } else {
      DistinctOf(rs[..|rs| - 1], k);
      OfMembers(rs[..|rs| - 1], k);
      var front := Of(rs[..|rs| - 1], k);
      assert forall i :: 0 <= i < |front| ==> front[i] in front;
    }
  }

  lemma InsertMembers(sorted: seq<Record>, r: Record, s: Record)
    ensures s in Insert(sorted, r) <==> s in sorted || s == r
  {
    InsertReorders(sorted, r);
    assert s in Insert(sorted, r) <==> s in multiset(Insert(sorted, r));
    assert s in sorted <==> s in multiset(sorted);
  }

  lemma {:induction false} InsertDistinct(sorted: seq<Record>, r: Record)
    requires DistinctObjects(sorted) && forall i :: 0 <= i < |sorted| ==> sorted[i].id != r.id
    ensures DistinctObjects(Insert(sorted, r))
  {
    if sorted != [] && Before(r, sorted[|sorted| - 1]) {
      var n := |sorted| - 1;
      var front := Insert(sorted[..n], r);
      InsertDistinct(sorted[..n], r);
      forall i | 0 <= i < |front| ensures front[i].id != sorted[n].id {
        InsertMembers(sorted[..n], r, front[i]);
        assert front[i] in front;
      }
    }
  }

  lemma {:induction false} SortDistinct(rs: seq<Record>)
    requires DistinctObjects(rs)
    ensures DistinctObjects(Sort(rs))
  {
    if rs == [] {
    } else {
      var n := |rs| - 1;
      SortDistinct(rs[..n]);
      var front := Sort(rs[..n]);
      SortIsSorted(rs[..n]);
      forall i | 0 <= i < |front| ensures front[i].id != rs[n].id {
        assert front[i] in multiset(front);
        assert front[i] in rs[..n];
      }
      InsertDistinct(front, rs[n]);
    }
  }

  /** Matched identities of one key are exactly its first `m` records: identities do not leak between keys. */
  lemma MatchedIffEarly(live: seq<Record>, backtest: seq<Record>, k: Key, i: nat)
    requires DistinctObjects(live) && i < |Of(live, k)|
    ensures Of(live, k)[i].id in MatchedIds(MatchAll(live, backtest).matches) <==> i < |Of(backtest, k)|
  {
    var r := Of(live, k)[i];
    if i < |Of(backtest, k)| {
      MatchedAt(live, backtest, k, i);
    } else if r.id in MatchedIds(MatchAll(live, backtest).matches) {
      var k2, j := MatchedFrom(live, backtest, r.id);
      var r2 := Of(live, k2)[j];
      OfMembers(live, k);
      OfMembers(live, k2);
      assert r in Of(live, k) && r2 in Of(live, k2);
      assert r == r2 && k == k2;
      DistinctOf(live, k);
      assert false;
    }
  }

  /** With distinct live objects the comparison is an order-respecting partition, for every key. */
  lemma DistinctObjectsPartition(backtest: seq<Record>, live: seq<Record>, k: Key)
    requires DistinctObjects(live)
    ensures PartitionAt(Compare(backtest, live), backtest, live, k)
  {
    var b, l, ids := Sort(backtest), Sort(live), MatchedIds(MatchAll(Sort(live), Sort(backtest)).matches);
    SortDistinct(live);
    SortCommutes(backtest, k);
    SortCommutes(live, k);
    PairingByKey(l, b, k);
    WithoutCommutes(l, ids, k);
    forall i | 0 <= i < |Of(l, k)| ensures Of(l, k)[i].id in ids <==> i < Min(|Of(b, k)|, |Of(l, k)|) {
      MatchedIffEarly(l, b, k, i);
    }
    WithoutPrefix(Of(l, k), ids, Min(|Of(b, k)|, |Of(l, k)|));
  }

  lemma {:induction false} OfItself(rs: seq<Record>, k: Key)
    requires forall r :: r in rs ==> r.key == k
    ensures Of(rs, k) == rs
  {
    if rs == [] {
    } else {
      assert rs[|rs| - 1] in rs;
      OfItself(rs[..|rs| - 1], k);
      assert rs == rs[..|rs| - 1] + [rs[|rs| - 1]];
    }
  }

  // ---- the order of the pairing, in the fields of the records ----

  /** The records of one key and signal time, in input order. */
  function AtTime(rs: seq<Record>, k: Key, time: Text): seq<Record> {
    if rs == [] then []
    else
      var before, r := AtTime(rs[..|rs| - 1], k, time), rs[|rs| - 1];
      if r.key.strategy == k.strategy && r.key.code == k.code && r.key.date == k.date && r.time == time
      then before + [r] else before
  }

  ghost predicate TimeAscends(rs: seq<Record>) { forall i, j :: 0 <= i < j < |rs| ==> rs[i].time <= rs[j].time }

  /** The records of key `k` among `rs` in time order: `ordered` ascends in time, and for every time it has exactly the
      records of that key and time, in input order. */
  ghost predicate InTimeOrder(ordered: seq<Record>, rs: seq<Record>, k: Key) {
    && TimeAscends(ordered)
    && (forall i :: 0 <= i < |ordered| ==> ordered[i].key == k)
    && (forall time :: AtTime(ordered, k, time) == AtTime(rs, k, time))
  }

  lemma AtTimeSnoc(rs: seq<Record>, r: Record, k: Key, time: Text)
    ensures AtTime(rs + [r], k, time) ==
            if r.key == k && r.time == time then AtTime(rs, k, time) + [r] else AtTime(rs, k, time)
  {
    assert (rs + [r])[..|rs|] == rs;
  }

  lemma {:induction false} AtTimeOfKey(rs: seq<Record>, k: Key, time: Text)
    ensures AtTime(Of(rs, k), k, time) == AtTime(rs, k, time)
  {
    if rs == [] {
    } else {
      var n := |rs| - 1;
      AtTimeOfKey(rs[..n], k, time);
      AtTimeSnoc(Of(rs[..n], k), rs[n], k, time);
    }
  }

  /** Inserting into records of one key puts the new one after all of its own time. */
  lemma {:induction false} InsertByTime(sorted: seq<Record>, r: Record, k: Key, time: Text)
    requires r.key == k && forall i :: 0 <= i < |sorted| ==> sorted[i].key == k
    ensures AtTime(Insert(sorted, r), k, time) == AtTime(sorted + [r], k, time)
  {
    if sorted != [] && r.time < sorted[|sorted| - 1].time {
      var n := |sorted| - 1;
      InsertByTime(sorted[..n], r, k, time);
      AtTimeSnoc(Insert(sorted[..n], r), sorted[n], k, time);
      AtTimeSnoc(sorted[..n], r, k, time);
      AtTimeSnoc(sorted, r, k, time);
    }
  }

  /** The sort leaves equal times in input order, ... */
  lemma {:induction false} SortByTime(rs: seq<Record>, k: Key, time: Text)
    requires forall i :: 0 <= i < |rs| ==> rs[i].key == k
    ensures AtTime(Sort(rs), k, time) == AtTime(rs, k, time)
  {
    if rs == [] {
    } else {
      var n := |rs| - 1;
      SortByTime(rs[..n], k, time);
      SortKeepsKey(rs[..n], k);
      InsertByTime(Sort(rs[..n]), rs[n], k, time);
      AtTimeSnoc(Sort(rs[..n]), rs[n], k, time);
    }
  }

  lemma SortKeepsKey(rs: seq<Record>, k: Key)
    requires forall i :: 0 <= i < |rs| ==> rs[i].key == k
    ensures forall i :: 0 <= i < |Sort(rs)| ==> Sort(rs)[i].key == k
  {
    SortIsSorted(rs);
    forall i | 0 <= i < |Sort(rs)| ensures Sort(rs)[i].key == k {
      assert Sort(rs)[i] in multiset(Sort(rs));
      assert Sort(rs)[i] in rs;
    }
  }

  /** ... and ascends in time. */
  lemma SortAscends(rs: seq<Record>, k: Key)
    requires forall i :: 0 <= i < |rs| ==> rs[i].key == k
    ensures TimeAscends(Sort(rs))
  {
    SortIsSorted(rs);
    SortKeepsKey(rs, k);
    forall i, j | 0 <= i < j < |Sort(rs)| ensures Sort(rs)[i].time <= Sort(rs)[j].time {
      assert !Before(Sort(rs)[j], Sort(rs)[i]);
    }
  }

  lemma SortOfKeyInTimeOrder(rs: seq<Record>, k: Key)
    ensures InTimeOrder(Sort(Of(rs, k)), rs, k)
  {
    OfMembers(rs, k);
    var mine := Of(rs, k);
    assert forall i :: 0 <= i < |mine| ==> mine[i] in mine;
    SortAscends(mine, k);
    SortKeepsKey(mine, k);
    forall time ensures AtTime(Sort(mine), k, time) == AtTime(rs, k, time) {
      SortByTime(mine, k, time);
      AtTimeOfKey(rs, k, time);
    }
  }

  function Backtests(ps: seq<Pair>): seq<Record> { seq(|ps|, i requires 0 <= i < |ps| => ps[i].backtest) }

  function Lives(ps: seq<Pair>): seq<Record> { seq(|ps|, i requires 0 <= i < |ps| => ps[i].live) }

  /** For every key, with distinct live objects: the matched backtest records followed by the unmatched ones are the
      backtest records of that key in time order; the same for the live side; and one side has nothing unmatched. So the
      earliest of both sides are paired, first with first, and equal times keep input order. */
  lemma PairingFollowsTime(backtest: seq<Record>, live: seq<Record>, k: Key)
    requires DistinctObjects(live)
    ensures var c := Compare(backtest, live);
            && InTimeOrder(Backtests(PairsOf(c.matches, k)) + Of(c.unmatchedBacktest, k), backtest, k)
            && InTimeOrder(Lives(PairsOf(c.matches, k)) + Of(c.unmatchedLive, k), live, k)
            && (Of(c.unmatchedBacktest, k) == [] || Of(c.unmatchedLive, k) == [])
  {
    var c := Compare(backtest, live);
    var b, l := Sort(Of(backtest, k)), Sort(Of(live, k));
    DistinctObjectsPartition(backtest, live, k);
    SortOfKeyInTimeOrder(backtest, k);
    SortOfKeyInTimeOrder(live, k);
    assert Backtests(Zip(b, l)) + b[Min(|b|, |l|)..] == b;
    assert Lives(Zip(b, l)) + l[Min(|b|, |l|)..] == l;
  }

  lemma SortOne(r: Record)
    ensures Sort([r]) == [r]
  {
    assert [r][..0] == [];
    assert Sort([]) == [];
  }

  lemma SortTwo(late: Record, early: Record)
    requires late.key == early.key && early.time < late.time
    ensures Sort([late, early]) == [early, late]
  {
    assert [late, early][..1] == [late] && [late][..0] == [];
    SortOne(late);
    assert Insert([], early) == [early];
  }

  lemma OneAgainstTwo(backtest: seq<Record>, live: seq<Record>, test: Record, late: Record, early: Record)
    requires DistinctObjects(live)
    requires Sort(Of(backtest, test.key)) == [test] && Sort(Of(live, test.key)) == [early, late]
    ensures var c := Compare(backtest, live);
            PairsOf(c.matches, test.key) == [Pair(test, early)] && Of(c.unmatchedLive, test.key) == [late]
  {
    DistinctObjectsPartition(backtest, live, test.key);
    assert Zip([test], [early, late]) == [Pair(test, early)];
    assert [early, late][1..] == [late];
  }

  /** One comparison: a backtest record and two live records of its key, the later one given first. The earlier one is
      matched and the later one is left. */
  lemma EarliestIsMatched(test: Record, late: Record, early: Record)
    requires test.key == early.key == late.key && early.id != late.id && early.time < late.time
    ensures var c := Compare([test], [late, early]);
            PairsOf(c.matches, test.key) == [Pair(test, early)] && Of(c.unmatchedLive, test.key) == [late]
  {
    OfItself([late, early], test.key);
    OfItself([test], test.key);
    SortOne(test);
    SortTwo(late, early);
    OneAgainstTwo([test], [late, early], test, late, early);
  }

  /** Strategies ascend, codes within a strategy, days within a code. */
  ghost predicate KeysAscend(rs: seq<Record>) {
    forall i, j :: 0 <= i < j < |rs| ==>
      && rs[i].key.strategy <= rs[j].key.strategy
      && (rs[i].key.strategy == rs[j].key.strategy ==> rs[i].key.code <= rs[j].key.code)
      && (rs[i].key.strategy == rs[j].key.strategy && rs[i].key.code == rs[j].key.code ==>
            rs[i].key.date <= rs[j].key.date)
  }

  lemma SortedAscends(rs: seq<Record>)
    requires Sorted(rs)
    ensures KeysAscend(rs)
  {
  }

  ghost predicate AllIn(part: seq<Record>, rs: seq<Record>) { forall i :: 0 <= i < |part| ==> part[i] in rs }

  lemma SortedSnoc(part: seq<Record>, rs: seq<Record>)
    requires rs != [] && Sorted(rs) && Sorted(part) && AllIn(part, rs[..|rs| - 1])
    ensures Sorted(part + [rs[|rs| - 1]]) && AllIn(part + [rs[|rs| - 1]], rs) && AllIn(part, rs)
  {
    forall i | 0 <= i < |part| ensures !Before(rs[|rs| - 1], part[i]) && part[i] in rs {
      assert part[i] in rs[..|rs| - 1];
    }
  }

  lemma {:induction false} PairingKeepsOrder(live: seq<Record>, backtest: seq<Record>)
    requires Sorted(backtest)
    ensures var p := MatchAll(live, backtest);
            && Sorted(Backtests(p.matches)) && AllIn(Backtests(p.matches), backtest)
            && Sorted(p.unmatched) && AllIn(p.unmatched, backtest)
  {
    if backtest == [] {
    } else {
      var n := |backtest| - 1;
      PairingKeepsOrder(live, backtest[..n]);
      var before, after := MatchAll(live, backtest[..n]), MatchAll(live, backtest);
      SortedSnoc(Backtests(before.matches), backtest);
      SortedSnoc(before.unmatched, backtest);
      if |after.matches| > |before.matches| {
        assert Backtests(after.matches) == Backtests(before.matches) + [backtest[n]];
      }
    }
  }

  lemma {:induction false} WithoutKeepsOrder(rs: seq<Record>, ids: set<Ident>)
    requires Sorted(rs)
    ensures Sorted(Without(rs, ids)) && AllIn(Without(rs, ids), rs)
  {
    if rs == [] {
    } else {
      WithoutKeepsOrder(rs[..|rs| - 1], ids);
      SortedSnoc(Without(rs[..|rs| - 1], ids), rs);
    }
  }

  /** Across keys, the three lists come in ascending order of strategy, code and day. */
  lemma ListsFollowKeys(backtest: seq<Record>, live: seq<Record>)
    ensures var c := Compare(backtest, live);
            KeysAscend(Backtests(c.matches)) && KeysAscend(c.unmatchedBacktest) && KeysAscend(c.unmatchedLive)
  {
    var c := Compare(backtest, live);
    SortIsSorted(backtest);
    SortIsSorted(live);
    PairingKeepsOrder(Sort(live), Sort(backtest));
    WithoutKeepsOrder(Sort(live), MatchedIds(c.matches));
    SortedAscends(Backtests(c.matches));
    SortedAscends(c.unmatchedBacktest);
    SortedAscends(c.unmatchedLive);
  }

  // ---- and only with distinct objects ----

  lemma {:induction false} OfCount(rs: seq<Record>, r: Record)
    ensures multiset(Of(rs, r.key))[r] == multiset(rs)[r]
  {
    if rs == [] {
    } else {
      OfCount(rs[..|rs| - 1], r);
      assert rs == rs[..|rs| - 1] + [rs[|rs| - 1]];
    }
  }

  lemma {:induction false} TwoPositions(rs: seq<Record>, r: Record) returns (i: nat, j: nat)
    requires multiset(rs)[r] >= 2
    ensures i < j < |rs| && rs[i] == rs[j] == r
  {
    var n := |rs| - 1;
    assert rs == rs[..n] + [rs[n]];
    if rs[n] == r {
      assert r in multiset(rs[..n]);
      i :| 0 <= i < n && rs[..n][i] == r;
      j := n;
    } else {
      i, j := TwoPositions(rs[..n], r);
    }
  }

  lemma CountsTwice(rs: seq<Record>, i: nat, j: nat)
    requires i < j < |rs| && rs[i] == rs[j]
    ensures multiset(rs)[rs[i]] >= 2
  {
    assert rs == rs[..j] + [rs[j]] + rs[j + 1..];
    assert rs[..j][i] in multiset(rs[..j]);
  }

  lemma {:induction false} WithoutMembers(rs: seq<Record>, ids: set<Ident>)
    ensures forall r :: r in Without(rs, ids) ==> r.id !in ids
  {
    if rs == [] {
    } else {
      WithoutMembers(rs[..|rs| - 1], ids);
    }
  }

  /** If the same live object is given twice, some backtest list makes the comparison lose a live record. */
  lemma RepeatedObjectIsLost(live: seq<Record>, i: nat, j: nat) returns (backtest: seq<Record>)
    requires i < j < |live| && live[i] == live[j]
    ensures !PartitionAt(Compare(backtest, live), backtest, live, live[i].key)
  {
    var r := live[i];
    var l := Of(Sort(live), r.key);
    CountsTwice(live, i, j);
    SortIsSorted(live);
    OfCount(Sort(live), r);
    var a, b := TwoPositions(l, r);
    backtest := l[..a + 1];
    OfMembers(Sort(live), r.key);
    OfItself(backtest, r.key);
    SortCommutes(backtest, r.key);
    SortCommutes(live, r.key);
    SortIsSorted(backtest);
    MatchedAt(Sort(live), Sort(backtest), r.key, a);
    var ids := MatchedIds(MatchAll(Sort(live), Sort(backtest)).matches);
    var c := Compare(backtest, live);
    WithoutMembers(Sort(live), ids);
    OfMembers(c.unmatchedLive, r.key);
    assert l[a + 1..][b - a - 1] == r;
    assert r !in Of(c.unmatchedLive, r.key);
  }

  /** The comparison is a partition for every backtest list exactly if the live records are distinct objects. */
  lemma PartitionAlwaysIffDistinct(live: seq<Record>)
    requires Consistent(live)
    ensures DistinctObjects(live) <==>
            forall backtest: seq<Record>, k: Key :: PartitionAt(Compare(backtest, live), backtest, live, k)
  {
    if DistinctObjects(live) {
      forall backtest: seq<Record>, k: Key ensures PartitionAt(Compare(backtest, live), backtest, live, k) {
        DistinctObjectsPartition(backtest, live, k);
      }
    } else {
      var i: nat, j: nat :| i < j < |live| && live[i].id == live[j].id;
      var backtest := RepeatedObjectIsLost(live, i, j);
      assert !PartitionAt(Compare(backtest, live), backtest, live, live[i].key);
    }
  }
}
