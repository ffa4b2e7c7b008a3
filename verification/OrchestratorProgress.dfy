/**
 A run cannot get stuck and cannot go on for ever, and what it stores is one night's
 work.
 */
module OrchestratorProgress {
  import opened Wrappers
  import opened Counting
  import opened AuthoringModel
  import opened Orchestrator
  import opened OrchestratorAnswers

  // --- no deadlock ---

  // The step a coroutine can take while the progress lock is free and its slot is granted.
  function StepOf(id: Id, pc: Pc): Action {
    if pc.PfChecking? then Check(id, Some(Keep))
    else if pc.Working? then Work(id, Outcome(Result(Failed, Some(AgentError)), 0, false))
    else Advance(id)
  }

  predicate Settled(pc: Pc) {
    pc.PfDone? || pc.Done?
  }

  lemma ReadyToStep(cfg: Config, s: State, id: Id)
    requires id in s.pcs && !Settled(s.pcs[id])
    requires WantsLock(s.pcs[id]) ==> s.lock.None?
    requires s.pcs[id].PfQueued? ==> s.phase == Preflight && s.preflightSlots > 0
    requires s.pcs[id].Waiting? ==> s.slots > 0
    ensures Enabled(cfg, s, StepOf(id, s.pcs[id]))
  {
  }

  // With the lock free, an unsettled source either can step or waits for a slot somebody holds.
  lemma SomebodyCanStep(cfg: Config, s: State, waiting: Id) returns (id: Id)
    requires LockAgrees(s) && PhaseAgrees(s) && CountersAgree(cfg, s) && s.lock.None?
    requires waiting in s.pcs && !Settled(s.pcs[waiting])
    ensures id in s.pcs && Enabled(cfg, s, StepOf(id, s.pcs[id]))
  {
    hide Count;
    id := waiting;
    if s.pcs[waiting].PfQueued? && s.preflightSlots == 0 {
      id := CountPositive(s.pcs, HasPreflightSlot);
    } else if s.pcs[waiting].Waiting? && s.slots == 0 {
      id := CountPositive(s.pcs, HasSlot);
    }
    ReadyToStep(cfg, s, id);
  }

  // In every reachable state that is not the end a step forward is possible, at once or as soon as
  // the heartbeat has given back the lock.
  lemma NeverStuck(
    cfg: Config, tasks: map<Id, Task>, states: seq<State>, actions: seq<Action>, i: nat) returns (a: Action)
    requires IsRun(cfg, tasks, states, actions) && i < |states| && states[i].phase != Finished
    ensures
      var s := states[i];
      && !IsHeartbeat(a)
      && if s.lock == Some(Heartbeat)
         then Enabled(cfg, s, HeartbeatUnlock) && Enabled(cfg, Next(s, HeartbeatUnlock), a)
         else Enabled(cfg, s, a)
  {
    InvariantThroughout(cfg, tasks, states, actions, i);
    var s := states[i];
    if s.lock == Some(Heartbeat) {
      InvariantKept(cfg, tasks, s, HeartbeatUnlock);
      a := UnstuckStep(cfg, tasks, Next(s, HeartbeatUnlock));
    } else {
      a := UnstuckStep(cfg, tasks, s);
    }
  }

  lemma UnstuckStep(cfg: Config, tasks: map<Id, Task>, s: State) returns (a: Action)
    requires Invariant(cfg, tasks, s) && s.phase != Finished && s.lock != Some(Heartbeat)
    ensures Enabled(cfg, s, a) && !IsHeartbeat(a)
  {
    hide CountersAgree, RowsAgree, SettledAgrees;
    if s.lock.Some? {
      a := Advance(s.lock.value.id);
    } else if exists id :: id in s.pcs && !Settled(s.pcs[id]) {
      var waiting :| waiting in s.pcs && !Settled(s.pcs[waiting]);
      var id := SomebodyCanStep(cfg, s, waiting);
      a := StepOf(id, s.pcs[id]);
    } else {
      a := if s.phase == Preflight then StartAgents else Finish;
    }
  }

  // --- no infinite run ---

  // Steps a coroutine has left.
  function Rank(pc: Pc): nat {
    match pc
    case PfQueued => 23
    case PfChecking => 22
    case PfCrashed => 21
    case PfNoting => 20
    case PfDecided(_) => 19
    case PfRecorded(_) => 18
    case PfLocked(_) => 17
    case PfProcessed(_) => 16
    case PfCounted(_) => 15
    case PfReleasing(_) => 14
    case PfDone(v) => if v.Keep? then 13 else 0
    case Waiting => 12
    case Arriving => 11
    case Entering => 10
    case Entered => 9
    case Working => 8
    case Worked(_) => 7
    case Leaving(_) => 6
    case LeftFlight(_) => 5
    case Bucketed(_) => 4
    case Tallied(_) => 3
    case Releasing(_) => 2
    case Done(_) => 1
  }

  function PhaseRank(p: Phase): nat {
    match p
    case Preflight => 2
    case Agents => 1
    case Finished => 0
  }

  ghost function Remaining(s: State): nat {
    Sum(s.pcs, Rank) + PhaseRank(s.phase)
  }

  predicate IsHeartbeat(a: Action) {
    a.HeartbeatLock? || a.HeartbeatUnlock?
  }

  lemma MoveLowersRank(cfg: Config, s: State, a: Action)
    requires MovesOne(a) && Enabled(cfg, s, a)
    ensures Rank(NextPc(s, a)) < Rank(s.pcs[a.id]) && Shared(s, a).phase == s.phase && Shared(s, a).pcs == s.pcs
  {
    hide ValidVerdict, ValidOutcome, Recorded, BucketOf;
  }

  lemma {:induction false} SumAtMost(m: map<Id, Pc>, m': map<Id, Pc>)
    requires m'.Keys == m.Keys && forall k :: k in m ==> Rank(m'[k]) <= Rank(m[k])
    ensures Sum(m', Rank) <= Sum(m, Rank)
    decreases |m|
  {
    hide Rank;
    if m != map[] {
      var k :| k in m;
      SumPick(m, k, Rank);
      SumPick(m', k, Rank);
      SumAtMost(m - {k}, m' - {k});
    }
  }

  // Every step but the heartbeat's uses up one of finitely many.
  lemma StepUsesUp(cfg: Config, s: State, a: Action)
    requires Enabled(cfg, s, a)
    ensures if IsHeartbeat(a) then Remaining(Next(s, a)) == Remaining(s) else Remaining(Next(s, a)) < Remaining(s)
  {
    hide Sum;
    if MovesOne(a) {
      MoveLowersRank(cfg, s, a);
      SumUpdate(s.pcs, a.id, NextPc(s, a), Rank);
    } else if a.StartAgents? {
      SumAtMost(s.pcs, Next(s, a).pcs);
    }
  }

  function OwnSteps(actions: seq<Action>): nat {
    if actions == [] then 0
    else OwnSteps(actions[..|actions| - 1]) + if IsHeartbeat(actions[|actions| - 1]) then 0 else 1
  }

  lemma {:induction false} StepsUseUp(
    cfg: Config, tasks: map<Id, Task>, states: seq<State>, actions: seq<Action>, n: nat)
    requires IsRun(cfg, tasks, states, actions) && n <= |actions|
    ensures OwnSteps(actions[..n]) + Remaining(states[n]) <= Remaining(states[0])
  {
    hide Enabled, Next, Remaining;
    if n > 0 {
      StepsUseUp(cfg, tasks, states, actions, n - 1);
      StepUsesUp(cfg, states[n - 1], actions[n - 1]);
      assert actions[..n][..n - 1] == actions[..n - 1];
    }
  }

  // So a run has at most 23 steps per source and two more, heartbeats aside; with NeverStuck it ends.
  lemma RunsAreFinite(cfg: Config, tasks: map<Id, Task>, states: seq<State>, actions: seq<Action>)
    requires IsRun(cfg, tasks, states, actions)
    ensures OwnSteps(actions) <= 23 * |cfg.sources| + 2
  {
    hide Enabled, Next, OwnSteps;
    StepsUseUp(cfg, tasks, states, actions, |actions|);
    assert actions[..|actions|] == actions;
    var pcs := states[0].pcs;
    assert pcs.Keys == cfg.sources && |pcs| == |pcs.Keys|;
    SumBounded(pcs, Rank, 23);
  }

  // --- what the run leaves behind ---

  // The end of one candidate: dropped before the agents ran, or processed by them.
  datatype NightResult = NightResult(result: Result, calls: nat, persisted: bool)

  function ResultAt(pc: Pc): NightResult
    requires Settled(pc) && (pc.PfDone? ==> pc.verdict.Drop?)
  {
    if pc.PfDone? then NightResult(pc.verdict.result, 0, true)
    else NightResult(pc.outcome.result, pc.outcome.calls, pc.outcome.persisted)
  }

  predicate ValidResult(maxRepairs: int, r: NightResult) {
    && (r.result.status.Deployed? || r.result.status.AwaitingReview? || r.result.status.SkippedReview?
        || r.result.status.Failed?)
    && r.calls <= 1 + NonNegative(maxRepairs)
    && (!r.persisted ==> r.result == Result(Failed, Some(AgentError)))
  }

  function TaskAfter(before: map<Id, Task>, id: Id, r: NightResult): Option<Task> {
    if r.persisted then Some(Task(r.result.status, r.result.category, AttemptsOf(before, id) + 1))
    else if id in before then Some(before[id]) else None
  }

  // One night: exactly the candidates get a result, and only their rows change, as the results say.
  ghost predicate Night(
    maxRepairs: int, before: map<Id, Task>, results: map<Id, NightResult>, after: map<Id, Task>) {
    && (forall id :: id in results ==> ValidResult(maxRepairs, results[id]))
    && (forall id :: Lookup(after, id) ==
          if id in results then TaskAfter(before, id, results[id]) else Lookup(before, id))
  }

  function EndsIn(status: TaskStatus): NightResult -> bool {
    (r: NightResult) => r.result.status == status
  }

  // The summary's status counters, against the results of the night.
  ghost predicate SummaryCounts(s: State, results: map<Id, NightResult>) {
    && s.deployed == Count(results, EndsIn(Deployed)) && s.authored == Count(results, EndsIn(AwaitingReview))
    && s.skippedReview == Count(results, EndsIn(SkippedReview)) && s.failed == Count(results, EndsIn(Failed))
  }

  // The result of a source is what it was told: pre-flight's verdict if that dropped it, and then it
  // was not worked on; else the one outcome of working on it.
  ghost predicate ResultAnswers(cfg: Config, actions: seq<Action>, id: Id, r: NightResult) {
    var verdicts, outcomes := Verdicts(actions, id), Outcomes(actions, id);
    && |verdicts| == (if cfg.runPreflight then 1 else 0)
    && if verdicts != [] && verdicts[0].Drop?
       then outcomes == [] && r == NightResult(verdicts[0].result, 0, true)
       else outcomes == [Outcome(r.result, r.calls, r.persisted)]
  }

  // Every finished interleaving is a night for the sources it started with, made of the answers
  // given on the way, and its summary counts the results of that night.
  lemma FinishedRunIsANight(cfg: Config, tasks: map<Id, Task>, states: seq<State>, actions: seq<Action>)
    returns (results: map<Id, NightResult>)
    requires IsRun(cfg, tasks, states, actions) && states[|actions|].phase == Finished
    ensures results.Keys == cfg.sources
    ensures Night(cfg.maxRepairs, tasks, results, states[|actions|].tasks)
    ensures SummaryCounts(states[|actions|], results)
    ensures forall id :: id in results ==> ResultAnswers(cfg, actions, id, results[id])
  {
    hide Enabled, Next, Invariant, Night, SummaryCounts, GoesByAnswers, AreResults, ResultAnswers;
    InvariantThroughout(cfg, tasks, states, actions, |actions|);
    results := NightOf(cfg, tasks, states[|actions|]);
    AnswersThroughout(cfg, tasks, states, actions, |actions|);
    assert actions[..|actions|] == actions;
    NightOfAnswers(cfg, actions, states[|actions|], results);
  }

  lemma NightOfAnswers(cfg: Config, actions: seq<Action>, s: State, results: map<Id, NightResult>)
    requires GoesByAnswers(cfg, actions, s) && AreResults(s, results)
    ensures forall id :: id in results ==> ResultAnswers(cfg, actions, id, results[id])
  {
    hide Verdicts, Outcomes;
  }

  lemma CounterThrough(cfg: Config, s: State, results: map<Id, NightResult>, b: Bucket, status: TaskStatus)
    requires CountersAgree(cfg, s) && PhaseAgrees(s) && s.phase == Finished && AreResults(s, results)
    requires forall id :: id in results ==> ValidResult(cfg.maxRepairs, results[id])
    requires status in {Deployed, AwaitingReview, SkippedReview, Failed} && BucketOf(status) == b
    ensures Counter(s, b) == Count(results, EndsIn(status))
  {
    hide Count, Counter;
    CountThrough(s.pcs, results, In(b), EndsIn(status));
  }

  lemma NightOf(cfg: Config, tasks: map<Id, Task>, s: State) returns (results: map<Id, NightResult>)
    requires Invariant(cfg, tasks, s) && s.phase == Finished
    ensures results.Keys == cfg.sources && Night(cfg.maxRepairs, tasks, results, s.tasks)
    ensures SummaryCounts(s, results) && AreResults(s, results)
  {
    hide CountersAgree, SettledAgrees, LockAgrees, RowsAgree, ResultAt, ValidResult, SummaryCounts;
    AllSettled(s);
    results := map id | id in s.pcs :: ResultAt(s.pcs[id]);
    RowsOfNight(cfg, tasks, s, results);
    SummaryOfNight(cfg, s, results);
  }

  lemma AllSettled(s: State)
    requires PhaseAgrees(s) && s.phase == Finished
    ensures forall id :: id in s.pcs ==> Settled(s.pcs[id]) && (s.pcs[id].PfDone? ==> s.pcs[id].verdict.Drop?)
  {
  }

  ghost predicate AreResults(s: State, results: map<Id, NightResult>) {
    && results.Keys == s.pcs.Keys
    && forall id :: id in s.pcs ==>
         && Settled(s.pcs[id]) && (s.pcs[id].PfDone? ==> s.pcs[id].verdict.Drop?)
         && results[id] == ResultAt(s.pcs[id])
  }

  lemma RowsOfNight(cfg: Config, tasks: map<Id, Task>, s: State, results: map<Id, NightResult>)
    requires RowsAgree(cfg, tasks, s) && AreResults(s, results)
    ensures Night(cfg.maxRepairs, tasks, results, s.tasks)
  {
    forall id
      ensures Lookup(s.tasks, id) == if id in results then TaskAfter(tasks, id, results[id]) else Lookup(tasks, id)
      ensures id in results ==> ValidResult(cfg.maxRepairs, results[id])
    {
      if id in s.pcs {
        assert RowAgrees(tasks, s.tasks, id, s.pcs[id]) && AnswersValid(cfg, s.pcs[id]);
      }
    }
  }

  lemma SummaryOfNight(cfg: Config, s: State, results: map<Id, NightResult>)
    requires CountersAgree(cfg, s) && PhaseAgrees(s) && s.phase == Finished && AreResults(s, results)
    requires forall id :: id in results ==> ValidResult(cfg.maxRepairs, results[id])
    ensures SummaryCounts(s, results)
  {
    hide CountersAgree, PhaseAgrees, AreResults, ValidResult, Count, EndsIn;
    CounterThrough(cfg, s, results, InDeployed, Deployed);
    CounterThrough(cfg, s, results, InAuthored, AwaitingReview);
    CounterThrough(cfg, s, results, InSkippedReview, SkippedReview);
    CounterThrough(cfg, s, results, InFailed, Failed);
  }
}
