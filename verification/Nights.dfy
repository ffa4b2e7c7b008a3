/**
 Many nights in a row (`_list_candidate_sources` feeding `run_overnight_orchestrator`): how often a
 source is worked on, and what the agents cost in all.
 */
module Nights {
  import opened Wrappers
  import opened Counting
  import opened AuthoringModel
  import opened OrchestratorProgress

  // The settings of every night: no retry flags.
  datatype Limits = Limits(maxAttempts: int, maxRepairs: int)

  // The sources a night works on are candidates; `--limit` and the country filter may leave some out.
  ghost predicate OneNight(
    limits: Limits, sources: set<Id>, before: map<Id, Task>, results: map<Id, NightResult>, after: map<Id, Task>) {
    && results.Keys <= sources
    && (forall id :: id in results ==> IsCandidate(Lookup(before, id), false, {}, limits.maxAttempts))
    && Night(limits.maxRepairs, before, results, after)
  }

  ghost predicate AreNights(
    limits: Limits, sources: set<Id>, tables: seq<map<Id, Task>>, nights: seq<map<Id, NightResult>>) {
    && |tables| == |nights| + 1
    && tables[0] == map[]
    && forall n :: 0 <= n < |nights| ==> OneNight(limits, sources, tables[n], nights[n], tables[n + 1])
  }

  // How often a source was worked on, how often the outcome reached its row, and the agent calls.
  function Processed(nights: seq<map<Id, NightResult>>, id: Id): nat {
    if nights == [] then 0
    else Processed(nights[..|nights| - 1], id) + One(id in nights[|nights| - 1])
  }

  function Lost(nights: seq<map<Id, NightResult>>, id: Id): nat {
    if nights == [] then 0
    else
      var last := nights[|nights| - 1];
      Lost(nights[..|nights| - 1], id) + One(id in last && !last[id].persisted)
  }

  function CallsFor(nights: seq<map<Id, NightResult>>, id: Id): nat {
    if nights == [] then 0
    else
      var last := nights[|nights| - 1];
      CallsFor(nights[..|nights| - 1], id) + if id in last then last[id].calls else 0
  }

  function CallsOf(r: NightResult): nat {
    r.calls
  }

  ghost function TotalCalls(nights: seq<map<Id, NightResult>>): nat {
    if nights == [] then 0 else TotalCalls(nights[..|nights| - 1]) + Sum(nights[|nights| - 1], CallsOf)
  }

  function Max1(n: int): nat {
    if n < 1 then 1 else n
  }

  // --- one source over the nights ---

  // The row counts the attempts that reached it, and never more than the limit.
  ghost predicate RowKeepsCount(limits: Limits, row: Option<Task>, processed: nat, lost: nat) {
    && (row.None? ==> processed == lost)
    && (row.Some? ==>
          && row.value.attempts == processed - lost
          && row.value.attempts <= Max1(limits.maxAttempts)
          && (row.value.status.Deployed? || row.value.status.AwaitingReview? || row.value.status.SkippedReview?
              || row.value.status.Failed?))
  }

  lemma NightKeepsCount(
    limits: Limits, sources: set<Id>, before: map<Id, Task>, results: map<Id, NightResult>, after: map<Id, Task>,
    id: Id, processed: nat, lost: nat)
    requires OneNight(limits, sources, before, results, after)
    requires RowKeepsCount(limits, Lookup(before, id), processed, lost)
    ensures
      var worked := id in results;
      RowKeepsCount(limits, Lookup(after, id), processed + One(worked),
                    lost + One(worked && !results[id].persisted))
  {
  }

  lemma {:induction false} RowsKeepCount(
    limits: Limits, sources: set<Id>, tables: seq<map<Id, Task>>, nights: seq<map<Id, NightResult>>, n: nat, id: Id)
    requires AreNights(limits, sources, tables, nights) && n <= |nights|
    ensures RowKeepsCount(limits, Lookup(tables[n], id), Processed(nights[..n], id), Lost(nights[..n], id))
  {
    if n > 0 {
      hide RowKeepsCount, OneNight;
      RowsKeepCount(limits, sources, tables, nights, n - 1, id);
      assert nights[..n][..n - 1] == nights[..n - 1];
      NightKeepsCount(limits, sources, tables[n - 1], nights[n - 1], tables[n], id,
                      Processed(nights[..n - 1], id), Lost(nights[..n - 1], id));
    }
  }

  // Retries end: a source is worked on at most max(1, max_attempts) times, and once more for every
  // time its outcome could not be stored.
  lemma RetriesEnd(
    limits: Limits, sources: set<Id>, tables: seq<map<Id, Task>>, nights: seq<map<Id, NightResult>>, id: Id)
    requires AreNights(limits, sources, tables, nights)
    ensures Processed(nights, id) <= Max1(limits.maxAttempts) + Lost(nights, id)
    ensures id in tables[|nights|] ==> tables[|nights|][id].attempts == Processed(nights, id) - Lost(nights, id)
  {
    hide Processed, Lost, OneNight;
    RowsKeepCount(limits, sources, tables, nights, |nights|, id);
    assert nights[..|nights|] == nights;
  }

  // A row no later night may touch.
  predicate Closed(row: Option<Task>) {
    && row.Some?
    && (row.value.status.Deployed? || row.value.status.AwaitingReview? || row.value.status.SkippedReview?
        || (row.value.status.Failed? && row.value.category.Some? && Permanent(row.value.category.value)))
  }

  // Deployed, waiting for review, skipped or failed for good: never worked on again.
  lemma {:induction false} ClosedForGood(
    limits: Limits, sources: set<Id>, tables: seq<map<Id, Task>>, nights: seq<map<Id, NightResult>>,
    n: nat, m: nat, id: Id)
    requires AreNights(limits, sources, tables, nights) && n <= m <= |nights|
    requires Closed(Lookup(tables[n], id))
    ensures Lookup(tables[m], id) == Lookup(tables[n], id)
    ensures m < |nights| ==> id !in nights[m]
  {
    if n < m {
      ClosedForGood(limits, sources, tables, nights, n, m - 1, id);
      assert OneNight(limits, sources, tables[m - 1], nights[m - 1], tables[m]);
    }
    if m < |nights| {
      assert OneNight(limits, sources, tables[m], nights[m], tables[m + 1]);
    }
  }

  // A source whose every outcome was lost has no row, and is a candidate on each further night.
  lemma LostSourceStaysCandidate(
    limits: Limits, sources: set<Id>, tables: seq<map<Id, Task>>, nights: seq<map<Id, NightResult>>, id: Id)
    requires AreNights(limits, sources, tables, nights)
    ensures id !in tables[|nights|] <==> Processed(nights, id) == Lost(nights, id)
    ensures id !in tables[|nights|] ==> IsCandidate(Lookup(tables[|nights|], id), false, {}, limits.maxAttempts)
  {
    RowIsLastStored(limits, sources, tables, nights, |nights|, id);
    assert nights[..|nights|] == nights;
  }

  // No bound holds once storing the outcome may fail: for any number of nights there is a run that
  // works on the source, and pays for every repair, on each of them.
  lemma {:induction false} LostOutcomesRetryForEver(limits: Limits, id: Id, n: nat)
    returns (tables: seq<map<Id, Task>>, nights: seq<map<Id, NightResult>>)
    ensures AreNights(limits, {id}, tables, nights)
    ensures |nights| == n && Processed(nights, id) == n && tables[n] == map[]
    ensures CallsFor(nights, id) == n * (1 + NonNegative(limits.maxRepairs))
  {
    hide OneNight;
    if n == 0 {
      return [map[]], [];
    }
    var lost := LostNight(limits, id);
    tables, nights := LostOutcomesRetryForEver(limits, id, n - 1);
    OneMoreNight(limits, {id}, tables, nights, map[id := lost], map[]);
    assert (nights + [map[id := lost]])[..n - 1] == nights;
    OneMore(n - 1, lost.calls);
    tables, nights := tables + [map[]], nights + [map[id := lost]];
  }

  // A night whose one outcome, at full cost, was lost.
  lemma LostNight(limits: Limits, id: Id) returns (lost: NightResult)
    ensures lost.calls == 1 + NonNegative(limits.maxRepairs)
    ensures OneNight(limits, {id}, map[], map[id := lost], map[])
  {
    lost := NightResult(Result(Failed, Some(AgentError)), 1 + NonNegative(limits.maxRepairs), false);
  }

  // --- exactly which sources a night may pick up ---

  // Without retry flags: a source without a row, or one whose row is not closed and, if it failed,
  // has attempts left. With them: every failed row, or those of the named categories, as well.
  lemma CandidateExactly(row: Option<Task>, retryFailed: bool, categories: set<Category>, maxAttempts: int)
    ensures IsCandidate(row, false, {}, maxAttempts) <==>
      row.None? || (!Closed(row) && (row.value.status.Failed? ==> row.value.attempts < maxAttempts))
    ensures IsCandidate(row, retryFailed, categories, maxAttempts) <==>
      || IsCandidate(row, false, {}, maxAttempts)
      || (&& row.Some? && row.value.status.Failed?
          && (retryFailed || (row.value.category.Some? && row.value.category.value in categories)))
  {
  }

  // The last result of a source that reached its row.
  function LastStored(nights: seq<map<Id, NightResult>>, id: Id): Option<Result> {
    if nights == [] then None
    else
      var last := nights[|nights| - 1];
      if id in last && last[id].persisted then Some(last[id].result) else LastStored(nights[..|nights| - 1], id)
  }

  // The row of a source is its last stored result, with the number of results stored.
  lemma {:induction false} RowIsLastStored(
    limits: Limits, sources: set<Id>, tables: seq<map<Id, Task>>, nights: seq<map<Id, NightResult>>, n: nat, id: Id)
    requires AreNights(limits, sources, tables, nights) && n <= |nights|
    ensures Lost(nights[..n], id) <= Processed(nights[..n], id)
    ensures Lookup(tables[n], id) ==
      match LastStored(nights[..n], id)
      case None => None
      case Some(r) => Some(Task(r.status, r.category, Processed(nights[..n], id) - Lost(nights[..n], id)))
    ensures LastStored(nights[..n], id).None? <==> Processed(nights[..n], id) == Lost(nights[..n], id)
    ensures LastStored(nights[..n], id).Some? ==> LastStored(nights[..n], id).value.status in SETTLED
  {
    if n > 0 {
      RowIsLastStored(limits, sources, tables, nights, n - 1, id);
      assert nights[..n][..n - 1] == nights[..n - 1];
      assert OneNight(limits, sources, tables[n - 1], nights[n - 1], tables[n]);
    }
  }

  const SETTLED: set<TaskStatus> := {Deployed, AwaitingReview, SkippedReview, Failed}

  // What follows the last stored result: everything is settled but a failure that may pass.
  predicate MayBeRetried(last: Option<Result>, stored: int, maxAttempts: int) {
    last.Some? ==>
      && last.value.status.Failed?
      && (last.value.category.Some? ==> last.value.category.value in PASSING)
      && stored < maxAttempts
  }

  const PASSING: set<Category> := {TransientNetwork, AgentError, ValidationFailed, Timeout}

  lemma CandidateByLastStored(
    limits: Limits, sources: set<Id>, tables: seq<map<Id, Task>>, nights: seq<map<Id, NightResult>>, id: Id)
    requires AreNights(limits, sources, tables, nights)
    ensures IsCandidate(Lookup(tables[|nights|], id), false, {}, limits.maxAttempts) <==>
      MayBeRetried(LastStored(nights, id), Processed(nights, id) - Lost(nights, id), limits.maxAttempts)
  {
    hide OneNight, IsCandidate, LastStored;
    RowIsLastStored(limits, sources, tables, nights, |nights|, id);
    assert nights[..|nights|] == nights;
    CandidateExactly(Lookup(tables[|nights|], id), false, {}, limits.maxAttempts);
  }

  // After any nights, one more may work on a source, with any result, exactly when nothing was
  // stored for it yet, or its last stored result is a failure that may pass and fewer than
  // `max_attempts` results were stored.
  lemma NextNightExactly(
    limits: Limits, sources: set<Id>, tables: seq<map<Id, Task>>, nights: seq<map<Id, NightResult>>, id: Id,
    r: NightResult, after: map<Id, Task>)
    requires AreNights(limits, sources, tables, nights) && id in sources
    requires Night(limits.maxRepairs, tables[|nights|], map[id := r], after)
    ensures AreNights(limits, sources, tables + [after], nights + [map[id := r]]) <==>
      MayBeRetried(LastStored(nights, id), Processed(nights, id) - Lost(nights, id), limits.maxAttempts)
  {
    hide Night, IsCandidate, LastStored, MayBeRetried, Processed, Lost;
    CandidateByLastStored(limits, sources, tables, nights, id);
    OneMoreNight(limits, sources, tables, nights, map[id := r], after);
  }

  lemma OneMoreNight(
    limits: Limits, sources: set<Id>, tables: seq<map<Id, Task>>, nights: seq<map<Id, NightResult>>,
    results: map<Id, NightResult>, after: map<Id, Task>)
    requires AreNights(limits, sources, tables, nights)
    ensures AreNights(limits, sources, tables + [after], nights + [results]) <==>
      OneNight(limits, sources, tables[|nights|], results, after)
  {
    hide OneNight;
    var tables', nights', n := tables + [after], nights + [results], |nights|;
    if OneNight(limits, sources, tables[n], results, after) {
      forall k | 0 <= k < |nights'| ensures OneNight(limits, sources, tables'[k], nights'[k], tables'[k + 1]) {
        assert k < n ==> OneNight(limits, sources, tables[k], nights[k], tables[k + 1]);
      }
    }
    if AreNights(limits, sources, tables', nights') {
      assert OneNight(limits, sources, tables'[n], nights'[n], tables'[n + 1]);
    }
  }

  const PASSED_OVER := Result(Failed, Some(TransientNetwork))

  // So far the source was worked on every night and failed for a passing reason, at full cost.
  ghost predicate FailedEveryNight(
    limits: Limits, id: Id, tables: seq<map<Id, Task>>, nights: seq<map<Id, NightResult>>) {
    && |tables| == |nights| + 1 && AreNights(limits, {id}, tables, nights)
    && Processed(nights, id) == |nights| && Lost(nights, id) == 0
    && LastStored(nights, id) == (if nights == [] then None else Some(PASSED_OVER))
    && CallsFor(nights, id) == |nights| * (1 + NonNegative(limits.maxRepairs))
  }

  lemma AnotherFailure(limits: Limits, id: Id, tables: seq<map<Id, Task>>, nights: seq<map<Id, NightResult>>)
    returns (after: map<Id, Task>, r: NightResult)
    requires FailedEveryNight(limits, id, tables, nights) && |nights| < Max1(limits.maxAttempts)
    ensures FailedEveryNight(limits, id, tables + [after], nights + [map[id := r]])
  {
    hide AreNights, Night;
    r := NightResult(PASSED_OVER, 1 + NonNegative(limits.maxRepairs), true);
    var n := |nights|;
    after := tables[n][id := Task(Failed, Some(TransientNetwork), n + 1)];
    RowIsLastStored(limits, {id}, tables, nights, n, id);
    assert nights[..n] == nights && (nights + [map[id := r]])[..n] == nights;
    NightOfOne(limits, tables[n], id, r, after);
    NextNightExactly(limits, {id}, tables, nights, id, r, after);
    OneMore(n, r.calls);
  }

  lemma NightOfOne(limits: Limits, before: map<Id, Task>, id: Id, r: NightResult, after: map<Id, Task>)
    requires ValidResult(limits.maxRepairs, r) && r.persisted
    requires after == before[id := Task(r.result.status, r.result.category,
                                        if id in before then before[id].attempts + 1 else 1)]
    ensures Night(limits.maxRepairs, before, map[id := r], after)
  {
  }

  // The bound on attempts is attained, whatever the limits: a source that fails for a passing reason,
  // with every outcome stored, is worked on max(1, max_attempts) times, with every repair.
  lemma {:induction false} EveryAttemptIsTaken(limits: Limits, id: Id, n: nat)
    returns (tables: seq<map<Id, Task>>, nights: seq<map<Id, NightResult>>)
    requires n <= Max1(limits.maxAttempts)
    ensures AreNights(limits, {id}, tables, nights)
    ensures |nights| == n && Processed(nights, id) == n && Lost(nights, id) == 0
    ensures CallsFor(nights, id) == n * if limits.maxRepairs > 0 then 1 + limits.maxRepairs else 1
    ensures FailedEveryNight(limits, id, tables, nights)
  {
    if n == 0 {
      return [map[]], [];
    }
    hide AreNights;
    tables, nights := EveryAttemptIsTaken(limits, id, n - 1);
    var after, r := AnotherFailure(limits, id, tables, nights);
    tables, nights := tables + [after], nights + [map[id := r]];
  }

  // --- the cost ---

  lemma {:induction false} CallsBounded(
    limits: Limits, sources: set<Id>, tables: seq<map<Id, Task>>, nights: seq<map<Id, NightResult>>, n: nat, id: Id)
    requires AreNights(limits, sources, tables, nights) && n <= |nights|
    ensures CallsFor(nights[..n], id) <= Processed(nights[..n], id) * (1 + NonNegative(limits.maxRepairs))
    ensures id !in sources ==> CallsFor(nights[..n], id) == 0
  {
    if n > 0 {
      CallsBounded(limits, sources, tables, nights, n - 1, id);
      assert nights[..n][..n - 1] == nights[..n - 1];
      OneMore(Processed(nights[..n - 1], id), 1 + NonNegative(limits.maxRepairs));
      assert OneNight(limits, sources, tables[n - 1], nights[n - 1], tables[n]);
    }
  }

  function Same(n: nat): nat {
    n
  }

  // What each source cost so far.
  function Costs(sources: set<Id>, nights: seq<map<Id, NightResult>>): map<Id, nat> {
    map id | id in sources :: CallsFor(nights, id)
  }

  // Adding a night's calls source by source adds their sum.
  lemma {:induction false} SumOfNight(costs: map<Id, nat>, night: map<Id, NightResult>, after: map<Id, nat>)
    requires night.Keys <= costs.Keys && after.Keys == costs.Keys
    requires forall id :: id in costs ==> after[id] == costs[id] + if id in night then night[id].calls else 0
    ensures Sum(after, Same) == Sum(costs, Same) + Sum(night, CallsOf)
    decreases |night|
  {
    if night == map[] {
      assert after == costs;
    } else {
      var id :| id in night;
      SumPick(night, id, CallsOf);
      var between := after[id := costs[id]];
      SumOfNight(costs, night - {id}, between);
      SumUpdate(after, id, costs[id], Same);
    }
  }

  lemma {:induction false} TotalIsSumOfCosts(
    limits: Limits, sources: set<Id>, tables: seq<map<Id, Task>>, nights: seq<map<Id, NightResult>>, n: nat)
    requires AreNights(limits, sources, tables, nights) && n <= |nights|
    ensures TotalCalls(nights[..n]) == Sum(Costs(sources, nights[..n]), Same)
  {
    if n == 0 {
      SumBounded(Costs(sources, nights[..0]), Same, 0);
    } else {
      TotalIsSumOfCosts(limits, sources, tables, nights, n - 1);
      assert nights[..n][..n - 1] == nights[..n - 1];
      assert OneNight(limits, sources, tables[n - 1], nights[n - 1], tables[n]);
      SumOfNight(Costs(sources, nights[..n - 1]), nights[n - 1], Costs(sources, nights[..n]));
    }
  }

  // How many outcomes of each source were lost.
  function Losses(sources: set<Id>, nights: seq<map<Id, NightResult>>): map<Id, nat> {
    map id | id in sources :: Lost(nights, id)
  }

  // All the nights together call the agent at most once and for every repair, for each of the
  // max(1, max_attempts) attempts a source has and each attempt whose outcome was lost.
  lemma AgentCallsBounded(
    limits: Limits, sources: set<Id>, tables: seq<map<Id, Task>>, nights: seq<map<Id, NightResult>>)
    requires AreNights(limits, sources, tables, nights)
    ensures TotalCalls(nights) <=
      (|sources| * Max1(limits.maxAttempts) + Sum(Losses(sources, nights), Same)) * (1 + NonNegative(limits.maxRepairs))
  {
    hide CallsFor, Processed, Lost, TotalCalls, OneNight, Sum, Times;
    assert nights[..|nights|] == nights;
    var costs, losses := Costs(sources, nights), Losses(sources, nights);
    var counts: map<Id, nat> := map id | id in sources :: Processed(nights, id);
    var perCall := 1 + NonNegative(limits.maxRepairs);
    TotalIsSumOfCosts(limits, sources, tables, nights, |nights|);
    forall id | id in sources
      ensures costs[id] <= Times(counts[id], perCall) && counts[id] <= Max1(limits.maxAttempts) + losses[id]
    {
      CallsBounded(limits, sources, tables, nights, |nights|, id);
      TimesIsProduct(counts[id], perCall);
      RetriesEnd(limits, sources, tables, nights, id);
    }
    SumOfMultiples(costs, counts, Same, Same, perCall);
    SumOfAllowances(counts, losses, Same, Same, Max1(limits.maxAttempts));
    assert counts.Keys == sources && |counts| == |counts.Keys|;
    TimesIsProduct(Sum(counts, Same), perCall);
    TimesAtMost(Sum(counts, Same), |sources| * Max1(limits.maxAttempts) + Sum(losses, Same), perCall);
  }

  // While every outcome is stored that is sources * max(1, max_attempts) * (1 + max repairs).
  lemma AgentCallsWhenStored(
    limits: Limits, sources: set<Id>, tables: seq<map<Id, Task>>, nights: seq<map<Id, NightResult>>)
    requires AreNights(limits, sources, tables, nights)
    requires forall id :: id in sources ==> Lost(nights, id) == 0
    ensures TotalCalls(nights) <= |sources| * Max1(limits.maxAttempts) * (1 + NonNegative(limits.maxRepairs))
  {
    hide TotalCalls, AreNights, Lost;
    AgentCallsBounded(limits, sources, tables, nights);
    SumBounded(Losses(sources, nights), Same, 0);
  }

  lemma TimesIsProduct(n: nat, factor: nat)
    ensures Times(n, factor) == n * factor
  {
  }

  lemma TimesAtMost(a: nat, b: nat, c: nat)
    requires a <= b
    ensures a * c <= b * c
  {
  }
}
