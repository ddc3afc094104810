/** The order circuit breaker, and what its advertised delay is worth to a caller that waits for it. */
module CircuitBreaker {
  import opened Prelude

  const SECOND := 1_000_000   // times are in microseconds

  /** Limits: consecutive failures before opening, and how long it then stays open. */
  datatype Limits = Limits(threshold: int, timeout: int)

  datatype State = State(failures: int, openUntil: Option<int>)

  /** Open, looked at from outside, at time `t`. */
  predicate OpenAt(s: State, t: int) { s.openUntil.Some? && t < s.openUntil.value }

  /** The check before an order also resets an opening that has expired. */
  function Checked(s: State, now: int): State {
    if s.openUntil.Some? && now >= s.openUntil.value then State(0, None) else s
  }

  function Failed(s: State, now: int, m: Limits): State {
    var n := s.failures + 1;
    State(n, if n >= m.threshold then Some(now + m.timeout) else s.openUntil)
  }

  /** A success forgets the failures but leaves an opening in place. */
  function Succeeded(s: State): State { if s.failures > 0 then s.(failures := 0) else s }

  /** `int()` of a duration in seconds: truncation toward zero. */
  function TruncatedSeconds(micros: int): int {
    if micros >= 0 then micros / SECOND else -(-micros / SECOND)
  }

  /** The advertised `retry_after_seconds`, computed from a clock read after the check. */
  function RetryAfter(openUntil: int, later: int): int {
    Max(1, TruncatedSeconds(openUntil - later) + 1)
  }

  /** The advertised delay is strictly longer than what remains, and too long by at most a second. */
  lemma AdvertisedDelayCovers(openUntil: int, later: int)
    ensures later + RetryAfter(openUntil, later) * SECOND > openUntil
    ensures openUntil >= later ==> later + (RetryAfter(openUntil, later) - 1) * SECOND <= openUntil
    ensures RetryAfter(openUntil, later) >= 1
  {
  }

  // ---- runs of interleaved orders: an order is checked, and later completes ----

  datatype Outcome = Success | BusinessRejection | TechnicalFailure

  datatype Event = Check(now: int) | Complete(outcome: Outcome, now: int)

  function Step(s: State, e: Event, m: Limits): State {
    match e
    case Check(now) => Checked(s, now)
    case Complete(Success, _) => Succeeded(s)
    case Complete(BusinessRejection, _) => s
    case Complete(TechnicalFailure, now) => Failed(s, now, m)
  }

  function Run(s: State, es: seq<Event>, m: Limits): State {
    if es == [] then s else Step(Run(s, es[..|es| - 1], m), es[|es| - 1], m)
  }

  ghost predicate Timed(es: seq<Event>, start: int, end: int) {
    && (forall i, j :: 0 <= i < j < |es| ==> es[i].now <= es[j].now)
    && (forall i :: 0 <= i < |es| ==> start <= es[i].now <= end)
  }

  /** Some failure of the run reached the threshold and opened the breaker beyond `t`. */
  predicate ReopenedBeyond(s: State, es: seq<Event>, m: Limits, t: int) {
    es != [] &&
    var before, last := Run(s, es[..|es| - 1], m), es[|es| - 1];
    || ReopenedBeyond(s, es[..|es| - 1], m, t)
    || (last.Complete? && last.outcome.TechnicalFailure? && before.failures + 1 >= m.threshold &&
        last.now + m.timeout > t)
  }

  lemma {:induction false} OpenOnlyIfReopened(s: State, es: seq<Event>, m: Limits, start: int, t: int)
    requires Timed(es, start, t) && !OpenAt(s, t)
    ensures OpenAt(Run(s, es, m), t) <==> ReopenedBeyond(s, es, m, t)
    ensures OpenAt(Run(s, es, m), t) ==> es != [] && Run(s, es, m).openUntil.value <= es[|es| - 1].now + m.timeout
  {
    if es == [] {
    } else {
      var prefix, last := es[..|es| - 1], es[|es| - 1];
      assert forall i :: 0 <= i < |prefix| ==> prefix[i] == es[i];
      assert start <= es[|es| - 1].now <= t;
      OpenOnlyIfReopened(s, prefix, m, start, t);
      if prefix != [] { assert es[|es| - 2].now <= es[|es| - 1].now; }
    }
  }

  /** A caller blocked at `now`, who waits the advertised delay from `later` on, finds the breaker open
      exactly when a failure in between re-extended it beyond that moment. */
  lemma WaitingOutFindsClosedUnlessReopened(s: State, now: int, later: int, es: seq<Event>, m: Limits, retryAt: int)
    requires OpenAt(s, now) && now <= later
    requires later + RetryAfter(s.openUntil.value, later) * SECOND <= retryAt
    requires Timed(es, now, retryAt)
    ensures OpenAt(Run(Checked(s, now), es, m), retryAt) <==> ReopenedBeyond(s, es, m, retryAt)
    ensures (forall i :: 0 <= i < |es| ==> es[i].Check? || !es[i].outcome.TechnicalFailure?)
            ==> !OpenAt(Run(Checked(s, now), es, m), retryAt)
  {
    AdvertisedDelayCovers(s.openUntil.value, later);
    OpenOnlyIfReopened(s, es, m, now, retryAt);
    NoFailureNoReopening(s, es, m, retryAt);
  }

  lemma {:induction false} NoFailureNoReopening(s: State, es: seq<Event>, m: Limits, t: int)
    ensures (forall i :: 0 <= i < |es| ==> es[i].Check? || !es[i].outcome.TechnicalFailure?) ==>
              !ReopenedBeyond(s, es, m, t)
  {
    if es == [] {
    } else {
      var prefix := es[..|es| - 1];
      assert forall i :: 0 <= i < |prefix| ==> prefix[i] == es[i];
      NoFailureNoReopening(s, prefix, m, t);
    }
  }

  /** A fresh breaker opens only once at least `threshold` orders have failed technically. */
  lemma {:induction false} OpensOnlyAfterThreshold(s: State, es: seq<Event>, m: Limits)
    requires s == State(0, None) && m.threshold >= 1
    ensures Run(s, es, m).failures >= 0
    ensures Run(s, es, m).openUntil.Some? ==> TechnicalFailures(es) >= m.threshold
    ensures Run(s, es, m).failures <= TechnicalFailures(es)
  {
    if es == [] {
    } else {
      OpensOnlyAfterThreshold(s, es[..|es| - 1], m);
    }
  }

  function TechnicalFailures(es: seq<Event>): nat {
    if es == [] then 0
    else TechnicalFailures(es[..|es| - 1])
         + if es[|es| - 1].Complete? && es[|es| - 1].outcome.TechnicalFailure? then 1 else 0
  }

  /** Technical failures since the last success; checks and business rejections do not interrupt them. */
  function Streak(es: seq<Event>): nat {
    if es == [] then 0
    else match es[|es| - 1]
      case Complete(Success, _) => 0
      case Complete(TechnicalFailure, _) => Streak(es[..|es| - 1]) + 1
      case _ => Streak(es[..|es| - 1])
  }

  /** After no prefix of the run is the breaker open. */
  predicate NeverOpened(es: seq<Event>, m: Limits) {
    Run(State(0, None), es, m).openUntil.None? && (es != [] ==> NeverOpened(es[..|es| - 1], m))
  }

  /** No prefix of the run ends in a streak of failures as long as the threshold. */
  predicate ShortStreaks(es: seq<Event>, m: Limits) {
    Streak(es) < m.threshold && (es != [] ==> ShortStreaks(es[..|es| - 1], m))
  }

  /** A fresh breaker stays unopened through a whole run exactly if no streak of failures reaches the threshold. */
  lemma {:induction false} NeverOpensIff(es: seq<Event>, m: Limits)
    requires m.threshold >= 1
    ensures NeverOpened(es, m) <==> ShortStreaks(es, m)
    ensures NeverOpened(es, m) ==> Run(State(0, None), es, m) == State(Streak(es), None)
  {
    if es == [] {
    } else {
      NeverOpensIff(es[..|es| - 1], m);
    }
  }

  lemma {:induction false} AfterFirst(s: State, e: Event, es: seq<Event>, m: Limits)
    ensures Run(s, [e] + es, m) == Run(Step(s, e, m), es, m)
  {
    if es == [] {
      assert [e] + es == [e] && [e][..0] == [];
      assert Run(s, [], m) == s;
    } else {
      AfterFirst(s, e, es[..|es| - 1], m);
      assert ([e] + es)[..|[e] + es| - 1] == [e] + es[..|es| - 1];
    }
  }

  lemma {:induction false} NeverOpenedPrefixes(es: seq<Event>, m: Limits)
    ensures NeverOpened(es, m) <==> forall k :: 0 <= k <= |es| ==> Run(State(0, None), es[..k], m).openUntil.None?
  {
    assert es[..|es|] == es;
    if es == [] {
    } else {
      var prefix := es[..|es| - 1];
      NeverOpenedPrefixes(prefix, m);
      assert forall k :: 0 <= k <= |prefix| ==> prefix[..k] == es[..k];
    }
  }

  /** The breaker is unopened after `first` and after each of the events that follow. */
  ghost predicate Unopened(s: State, first: Event, es: seq<Event>, m: Limits) {
    forall k :: 0 <= k <= |es| ==> Run(s, [first] + es[..k], m).openUntil.None?
  }

  /** An order checked after an opening has expired starts the breaker afresh, whatever failures it had counted: from
      then on it stays unopened exactly if no streak of failures reaches the threshold, and counts the last streak. */
  lemma ExpiryStartsAfresh(s: State, now: int, es: seq<Event>, m: Limits)
    requires s.openUntil.Some? && s.openUntil.value <= now && m.threshold >= 1
    ensures Unopened(s, Check(now), es, m) <==> ShortStreaks(es, m)
    ensures ShortStreaks(es, m) ==> Run(s, [Check(now)] + es, m) == State(Streak(es), None)
  {
    NeverOpensIff(es, m);
    NeverOpenedPrefixes(es, m);
    AfterFirst(s, Check(now), es, m);
    forall k | 0 <= k <= |es| ensures Run(s, [Check(now)] + es[..k], m) == Run(State(0, None), es[..k], m) {
      AfterFirst(s, Check(now), es[..k], m);
    }
  }

  datatype Reply = Forwarded | Blocked(retryAfterSeconds: int)

  class BrokerApiWrapper {
    const limits: Limits
    var failures: int
    var openUntil: Option<int>

    function Breaker(): State reads this { State(failures, openUntil) }

    constructor (limits: Limits)
      ensures this.limits == limits && Breaker() == State(0, None)
    {
      this.limits := limits;
      failures, openUntil := 0, None;
    }

    method IsOpen(now: int) returns (open: bool)
      modifies this
      ensures Breaker() == Step(old(Breaker()), Check(now), limits)
      ensures open <==> OpenAt(old(Breaker()), now)
    {
      if openUntil.None? {
        return false;
      }
      if now >= openUntil.value {
        openUntil, failures := None, 0;
        return false;
      }
      open := true;
    }

    /** The part of `place_stock_order` before the client call: an order is forwarded exactly when
        the breaker is not open. */
    method Submit(now: int, later: int) returns (reply: Reply)
      requires now <= later
      modifies this
      ensures Breaker() == Step(old(Breaker()), Check(now), limits)
      ensures reply.Forwarded? <==> !OpenAt(old(Breaker()), now)
      ensures reply.Blocked? ==> later + reply.retryAfterSeconds * SECOND > old(openUntil).value
                                 && reply.retryAfterSeconds == RetryAfter(old(openUntil).value, later)
    {
      var open := IsOpen(now);
      if open {
        AdvertisedDelayCovers(openUntil.value, later);
        return Blocked(RetryAfter(openUntil.value, later));
      }
      reply := Forwarded;
    }

    /** The part after the client call. */
    method Finish(outcome: Outcome, now: int)
      modifies this
      ensures Breaker() == Step(old(Breaker()), Complete(outcome, now), limits)
    {
      match outcome
      case Success =>
        if failures > 0 {
          failures := 0;
        }
      case BusinessRejection =>
      case TechnicalFailure =>
        failures := failures + 1;
        if failures >= limits.threshold {
          openUntil := Some(now + limits.timeout);
        }
    }
  }
}
