/** `api/rate_limit.py`: the sliding-window limiter against the full history of accepted hits. */
module RateLimit {

  // --- counting hits ---

  // The hits a check at `now` still counts.
  function Trailing(hits: seq<real>, now: real, window: real): seq<real> {
    if hits == [] then []
    else
      var newest := hits[|hits| - 1];
      Trailing(hits[..|hits| - 1], now, window) + if now - newest < window then [newest] else []
  }

  // The hits at or after `from` and before `to`.
  function Within(hits: seq<real>, from: real, to: real): seq<real> {
    if hits == [] then []
    else
      var newest := hits[|hits| - 1];
      Within(hits[..|hits| - 1], from, to) + if from <= newest < to then [newest] else []
  }

  lemma {:induction false} WithinAre(hits: seq<real>, from: real, to: real, hit: real)
    ensures multiset(Within(hits, from, to))[hit] == if from <= hit < to then multiset(hits)[hit] else 0
  {
    if hits != [] {
      var n := |hits| - 1;
      WithinAre(hits[..n], from, to, hit);
      assert hits == hits[..n] + [hits[n]];
    }
  }

  // A history the limiter may have produced: each hit found fewer than `limit` before it.
  ghost predicate Admitted(hits: seq<real>, limit: int, window: real) {
    hits == [] ||
    var older, newest := hits[..|hits| - 1], hits[|hits| - 1];
    Admitted(older, limit, window) && |Trailing(older, newest, window)| < limit
  }

  ghost predicate Ascending(hits: seq<real>) {
    forall i, j :: 0 <= i < j < |hits| ==> hits[i] <= hits[j]
  }

  lemma {:induction false} WithinIsTrailing(hits: seq<real>, from: real, window: real, now: real)
    requires from <= now < from + window
    ensures |Within(hits, from, from + window)| <= |Trailing(hits, now, window)|
  {
    if hits != [] {
      WithinIsTrailing(hits[..|hits| - 1], from, window, now);
    }
  }

  // No interval of one window length holds more than `limit` accepted hits, wherever it starts.
  lemma {:induction false} NoWindowExceedsLimit(hits: seq<real>, limit: int, window: real, from: real)
    requires Admitted(hits, limit, window) && limit >= 0
    ensures |Within(hits, from, from + window)| <= limit
  {
    if hits != [] {
      var n := |hits| - 1;
      NoWindowExceedsLimit(hits[..n], limit, window, from);
      if from <= hits[n] < from + window {
        WithinIsTrailing(hits[..n], from, window, hits[n]);
      }
    }
  }

  lemma {:induction false} OldHitsDoNotCount(hits: seq<real>, now: real, window: real)
    requires forall i :: 0 <= i < |hits| ==> now - hits[i] >= window
    ensures Trailing(hits, now, window) == []
  {
    if hits != [] {
      OldHitsDoNotCount(hits[..|hits| - 1], now, window);
    }
  }

  lemma {:induction false} RecentHitsCount(hits: seq<real>, now: real, window: real)
    requires forall i :: 0 <= i < |hits| ==> now - hits[i] < window
    ensures Trailing(hits, now, window) == hits
  {
    if hits != [] {
      RecentHitsCount(hits[..|hits| - 1], now, window);
      assert hits == hits[..|hits| - 1] + [hits[|hits| - 1]];
    }
  }

  lemma {:induction false} TrailingOfConcat(a: seq<real>, b: seq<real>, now: real, window: real)
    ensures Trailing(a + b, now, window) == Trailing(a, now, window) + Trailing(b, now, window)
  {
    if b == [] {
      assert a + b == a;
    } else {
      assert (a + b)[..|a + b| - 1] == a + b[..|b| - 1];
      TrailingOfConcat(a, b[..|b| - 1], now, window);
    }
  }

  // Said of intervals of any shape: the hit `limit` places later comes a whole window later.
  lemma {:induction false} HitsAreSpaced(hits: seq<real>, limit: nat, window: real, i: nat, j: nat)
    requires Admitted(hits, limit, window) && Ascending(hits) && i + limit <= j < |hits|
    ensures hits[j] - hits[i] >= window
  {
    hide Trailing;
    var n := |hits| - 1;
    if j < n {
      HitsAreSpaced(hits[..n], limit, window, i, j);
    } else if hits[j] - hits[i] < window {
      ManyTrailing(hits[..n], hits[j], window, i);
    }
  }

  lemma ManyTrailing(hits: seq<real>, now: real, window: real, i: nat)
    requires Ascending(hits) && i <= |hits| && (i < |hits| ==> now - hits[i] < window)
    ensures |Trailing(hits, now, window)| >= |hits| - i
  {
    hide Trailing;
    assert hits == hits[..i] + hits[i..];
    TrailingOfConcat(hits[..i], hits[i..], now, window);
    RecentHitsCount(hits[i..], now, window);
  }

  // Once the time a refusal asks for has passed, nothing accepted up to it counts any more: the
  // client is admitted exactly when fewer than `limit` hits were accepted since and still count.
  lemma RetryAfterWindow(before: seq<real>, since: seq<real>, limit: int, window: real, refused: real, now: real)
    requires now >= refused + window
    requires forall i :: 0 <= i < |before| ==> before[i] <= refused
    ensures Trailing(before + since, now, window) == Trailing(since, now, window)
    ensures |Trailing(before + since, now, window)| < limit <==> |Trailing(since, now, window)| < limit
    ensures since == [] && limit > 0 ==> |Trailing(before + since, now, window)| < limit
  {
    TrailingOfConcat(before, since, now, window);
    OldHitsDoNotCount(before, now, window);
  }

  // So waiting alone is not always enough: with one hit allowed per 10 seconds, accepted at 0,
  // refused at 5, accepted again at 10, a client is still refused at 15.
  lemma RetryCanBeRefused()
    ensures Admitted([0.0, 10.0], 1, 10.0)
    ensures |Trailing([0.0], 5.0, 10.0)| >= 1
    ensures |Trailing([0.0, 10.0], 5.0 + 10.0, 10.0)| >= 1
  {
    var hits := [0.0, 10.0];
    assert hits[..1] == [0.0] && [0.0][..0] == [];
    assert Trailing([], 0.0, 10.0) == [] && Trailing([0.0], 10.0, 10.0) == [];
    assert Trailing([0.0], 15.0, 10.0) == [];
  }

  lemma TrailingOne(hits: seq<real>, now: real, window: real)
    requires hits != []
    ensures
      var n := |hits| - 1;
      Trailing(hits, now, window) == Trailing(hits[..n], now, window) + if now - hits[n] < window then [hits[n]] else []
  {
  }

  lemma TailOne(hits: seq<real>, cut: nat)
    requires cut < |hits|
    ensures hits[..|hits| - 1][cut..] + [hits[|hits| - 1]] == hits[cut..]
  {
  }

  // What is still counted of an ascending list is one of its tails.
  lemma {:induction false} TrailingIsTail(hits: seq<real>, now: real, window: real) returns (cut: nat)
    requires Ascending(hits)
    ensures cut <= |hits| && Trailing(hits, now, window) == hits[cut..]
    ensures forall i :: 0 <= i < cut ==> now - hits[i] >= window
  {
    hide Trailing;
    cut := |hits|;
    if hits == [] || now - hits[|hits| - 1] >= window {
      OldHitsDoNotCount(hits, now, window);
    } else {
      cut := TrailingIsTail(hits[..|hits| - 1], now, window);
      TrailingOne(hits, now, window);
      TailOne(hits, cut);
    }
  }

  // --- the history behind a bucket ---

  // Every accepted hit of a key, and how many of the oldest have been pruned away.
  datatype Log = Log(accepted: seq<real>, pruned: nat)

  ghost predicate Fits(bucket: seq<real>, log: Log, clock: real) {
    && log.pruned <= |log.accepted| && bucket == log.accepted[log.pruned..]
    && Ascending(log.accepted) && forall i :: 0 <= i < |log.accepted| ==> log.accepted[i] <= clock
  }

  // The key has only been checked with this limit and window: its history respects them, and what
  // was pruned is older than the window.
  ghost predicate LogRegular(log: Log, clock: real, limit: int, window: real) {
    && Admitted(log.accepted, limit, window)
    && log.pruned <= |log.accepted| && forall i :: 0 <= i < log.pruned ==> clock - log.accepted[i] >= window
  }

  lemma EmptyLog(clock: real, limit: int, window: real)
    ensures Fits([], Log([], 0), clock) && LogRegular(Log([], 0), clock, limit, window)
  {
  }

  lemma Later(bucket: seq<real>, log: Log, clock: real, now: real)
    requires now >= clock
    ensures Fits(bucket, log, clock) ==> Fits(bucket, log, now)
    ensures forall l, w :: LogRegular(log, clock, l, w) ==> LogRegular(log, now, l, w)
  {
    hide Admitted;
  }

  lemma Pruning(bucket: seq<real>, log: Log, clock: real, window: real, now: real) returns (log': Log)
    requires Fits(bucket, log, clock) && now >= clock
    ensures Fits(Trailing(bucket, now, window), log', now) && log'.accepted == log.accepted
    ensures forall l :: LogRegular(log, clock, l, window) ==>
      LogRegular(log', now, l, window) && Trailing(bucket, now, window) == Trailing(log.accepted, now, window)
  {
    hide Trailing, Admitted;
    var more := TrailingIsTail(bucket, now, window);
    log' := log.(pruned := log.pruned + more);
    assert log.accepted[log.pruned..][more..] == log.accepted[log.pruned + more..];
    assert forall i :: log.pruned <= i < log.pruned + more ==> log.accepted[i] == bucket[i - log.pruned];
    if forall i :: 0 <= i < log.pruned ==> now - log.accepted[i] >= window {
      assert log.accepted == log.accepted[..log.pruned] + bucket;
      TrailingOfConcat(log.accepted[..log.pruned], bucket, now, window);
      OldHitsDoNotCount(log.accepted[..log.pruned], now, window);
    }
  }

  lemma Appending(bucket: seq<real>, log: Log, now: real)
    requires Fits(bucket, log, now)
    ensures Fits(bucket + [now], Log(log.accepted + [now], log.pruned), now)
    ensures forall l, w :: LogRegular(log, now, l, w) && |Trailing(log.accepted, now, w)| < l ==>
      LogRegular(Log(log.accepted + [now], log.pruned), now, l, w)
  {
    hide Trailing;
    var longer := log.accepted + [now];
    assert longer[..|longer| - 1] == log.accepted;
    assert longer[log.pruned..] == bucket + [now];
  }

  // --- the limiter ---

  class SlidingWindowLimiter {
    var buckets: map<string, seq<real>>
    ghost var logs: map<string, Log>
    ghost var clock: real

    ghost function LogOf(key: string): Log
      reads this
    {
      if key in logs then logs[key] else Log([], 0)
    }

    ghost function History(key: string): seq<real>
      reads this
    {
      LogOf(key).accepted
    }

    ghost predicate Valid()
      reads this
    {
      logs.Keys == buckets.Keys && forall key :: key in buckets ==> Fits(buckets[key], logs[key], clock)
    }

    ghost predicate Regular(key: string, limit: int, window: real)
      reads this
    {
      LogRegular(LogOf(key), clock, limit, window)
    }

    constructor (start: real)
      ensures Valid() && clock == start
      ensures forall key, limit, window :: Regular(key, limit, window) && History(key) == []
    {
      buckets, logs, clock := map[], map[], start;
      new;
      forall key, limit, window ensures Regular(key, limit, window) {
        EmptyLog(clock, limit, window);
      }
    }

    // The timestamps a list comprehension keeps.
    method Keep(hits: seq<real>, now: real, window: real) returns (kept: seq<real>)
      ensures kept == Trailing(hits, now, window)
    {
      kept := [];
      for i := 0 to |hits|
        invariant kept == Trailing(hits[..i], now, window)
      {
        assert hits[..i + 1][..i] == hits[..i];
        if now - hits[i] < window { kept := kept + [hits[i]]; }
      }
      assert hits[..|hits|] == hits;
    }

    // A non-positive limit admits everything and records nothing. Otherwise, as long as the key is
    // always checked with this limit and window, a hit is refused exactly when the trailing window
    // already holds `limit` accepted hits.
    method Check(key: string, limit: int, window: real, now: real) returns (allowed: bool)
      requires Valid() && now >= clock
      modifies this
      ensures Valid()
      ensures limit <= 0 ==> allowed && buckets == old(buckets) && logs == old(logs) && clock == old(clock)
      ensures limit > 0 ==> clock == now
      ensures limit > 0 ==> History(key) == if allowed then old(History(key)) + [now] else old(History(key))
      ensures limit > 0 && old(Regular(key, limit, window)) ==>
        && Regular(key, limit, window)
        && (allowed <==> |Trailing(old(History(key)), now, window)| < limit)
      ensures forall k :: k != key ==> History(k) == old(History(k))
      ensures forall k, l, w :: k != key && old(Regular(k, l, w)) ==> Regular(k, l, w)
    {
      hide Fits, LogRegular, Trailing;
      if limit <= 0 { return true; }
      EmptyLog(clock, limit, window);
      forall k
        ensures k in buckets ==> Fits(buckets[k], logs[k], now)
        ensures forall l, w :: LogRegular(LogOf(k), clock, l, w) ==> LogRegular(LogOf(k), now, l, w)
      {
        Later(if k in buckets then buckets[k] else [], LogOf(k), clock, now);
      }
      var bucket := if key in buckets then buckets[key] else [];
      ghost var log := Pruning(bucket, LogOf(key), clock, window, now);
      var kept := Keep(bucket, now, window);
      Appending(kept, log, now);
      clock := now;
      if |kept| >= limit {
        buckets, logs := buckets[key := kept], logs[key := log];
        return false;
      }
      buckets := buckets[key := kept + [now]];
      logs := logs[key := Log(log.accepted + [now], log.pruned)];
      return true;
    }

    method Reset()
      modifies this
      ensures Valid() && clock == old(clock)
      ensures forall key, limit, window :: Regular(key, limit, window) && History(key) == []
    {
      buckets, logs := map[], map[];
      forall key, limit, window ensures Regular(key, limit, window) {
        EmptyLog(clock, limit, window);
      }
    }
  }
}
