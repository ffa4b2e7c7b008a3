/** What the surroundings answered during a run, against where the coroutines stand. */
module OrchestratorAnswers {
  import opened Wrappers
  import opened Counting
  import opened AuthoringModel
  import opened Orchestrator

  // The verdicts pre-flight came to for a source; a crash keeps it.
  function Verdicts(actions: seq<Action>, id: Id): seq<Verdict> {
    if actions == [] then []
    else
      var before, a := Verdicts(actions[..|actions| - 1], id), actions[|actions| - 1];
      if a.Check? && a.id == id then before + [if a.answer.Some? then a.answer.value else Keep] else before
  }

  // The outcomes of processing it.
  function Outcomes(actions: seq<Action>, id: Id): seq<Outcome> {
    if actions == [] then []
    else
      var before, a := Outcomes(actions[..|actions| - 1], id), actions[|actions| - 1];
      if a.Work? && a.id == id then before + [a.outcome] else before
  }

  function ToldVerdicts(cfg: Config, pc: Pc): seq<Verdict> {
    if pc.PfQueued? || pc.PfChecking? then []
    else if pc.PfCrashed? || pc.PfNoting? then [Keep]
    else if InPreflight(pc) then [pc.verdict]
    else if cfg.runPreflight then [Keep] else []
  }

  function ToldOutcomes(pc: Pc): seq<Outcome> {
    if InPreflight(pc) || pc.Waiting? || pc.Arriving? || pc.Entering? || pc.Entered? || pc.Working? then []
    else [pc.outcome]
  }

  // Every coroutine goes by what it was told, once: a source worked on was not dropped before.
  ghost predicate GoesByAnswers(cfg: Config, actions: seq<Action>, s: State) {
    && (s.phase == Preflight ==> cfg.runPreflight)
    && forall id :: id in s.pcs ==>
         && (InPreflight(s.pcs[id]) ==> cfg.runPreflight)
         && Verdicts(actions, id) == ToldVerdicts(cfg, s.pcs[id]) && Outcomes(actions, id) == ToldOutcomes(s.pcs[id])
  }

  // Going on by itself a coroutine forgets nothing it was told.
  lemma FollowingKeepsTold(cfg: Config, pc: Pc)
    ensures ToldVerdicts(cfg, Following(pc)) == if pc.PfQueued? then [] else ToldVerdicts(cfg, pc)
    ensures ToldOutcomes(Following(pc)) == ToldOutcomes(pc)
    ensures InPreflight(Following(pc)) <==> InPreflight(pc)
  {
  }

  lemma AnswerTold(cfg: Config, s: State, a: Action)
    requires Enabled(cfg, s, a) && MovesOne(a)
    ensures ToldVerdicts(cfg, NextPc(s, a)) ==
      ToldVerdicts(cfg, s.pcs[a.id]) + (if a.Check? then [if a.answer.Some? then a.answer.value else Keep] else [])
    ensures ToldOutcomes(NextPc(s, a)) == ToldOutcomes(s.pcs[a.id]) + (if a.Work? then [a.outcome] else [])
    ensures InPreflight(NextPc(s, a)) <==> InPreflight(s.pcs[a.id])
  {
    FollowingKeepsTold(cfg, s.pcs[a.id]);
    hide Following, ValidVerdict, ValidOutcome;
  }

  lemma StartTellsNothing(cfg: Config, s: State, id: Id)
    requires s.phase == Preflight && cfg.runPreflight && id in s.pcs
    ensures
      var pc := Next(s, StartAgents).pcs[id];
      ToldVerdicts(cfg, pc) == ToldVerdicts(cfg, s.pcs[id]) && ToldOutcomes(pc) == ToldOutcomes(s.pcs[id])
  {
  }

  lemma AnswersKept(cfg: Config, actions: seq<Action>, s: State, a: Action)
    requires GoesByAnswers(cfg, actions, s) && Enabled(cfg, s, a)
    ensures GoesByAnswers(cfg, actions + [a], Next(s, a))
  {
    hide ValidVerdict, ValidOutcome, Shared, NextPc, ToldVerdicts, ToldOutcomes;
    SourcesKept(cfg, s, a);
    SharedKeepsPhase(s, a);
    assert (actions + [a])[..|actions|] == actions;
    if MovesOne(a) { AnswerTold(cfg, s, a); }
    forall id | id in s.pcs
      ensures Verdicts(actions + [a], id) == ToldVerdicts(cfg, Next(s, a).pcs[id])
      ensures Outcomes(actions + [a], id) == ToldOutcomes(Next(s, a).pcs[id])
      ensures InPreflight(Next(s, a).pcs[id]) ==> cfg.runPreflight
    {
      if a.StartAgents? { StartTellsNothing(cfg, s, id); }
    }
  }

  lemma SharedKeepsPhase(s: State, a: Action)
    requires MovesOne(a) ==> a.id in s.pcs
    ensures Next(s, a).phase == Preflight ==> s.phase == Preflight
  {
  }

  lemma {:induction false} AnswersThroughout(
    cfg: Config, tasks: map<Id, Task>, states: seq<State>, actions: seq<Action>, i: nat)
    requires IsRun(cfg, tasks, states, actions) && i < |states|
    ensures GoesByAnswers(cfg, actions[..i], states[i])
  {
    if i > 0 {
      hide Invariant, Enabled, Next, GoesByAnswers;
      AnswersThroughout(cfg, tasks, states, actions, i - 1);
      AnswersKept(cfg, actions[..i - 1], states[i - 1], actions[i - 1]);
      assert actions[..i] == actions[..i - 1] + [actions[i - 1]];
    }
  }

  // --- every slot is used ---

  // A waiting source may start exactly while fewer than max(1, workers) sources hold a slot.
  lemma WaitingMayStart(cfg: Config, tasks: map<Id, Task>, s: State, id: Id)
    requires Invariant(cfg, tasks, s) && id in s.pcs
    ensures s.pcs[id].Waiting? ==>
      (Enabled(cfg, s, Advance(id)) <==> Count(s.pcs, HasSlot) < if cfg.workers == 0 then 1 else cfg.workers)
    ensures s.pcs[id].PfQueued? && s.phase == Preflight ==>
      (Enabled(cfg, s, Advance(id)) <==>
         Count(s.pcs, HasPreflightSlot) < if cfg.preflightWorkers == 0 then 1 else cfg.preflightWorkers)
  {
    hide Count, LockAgrees, PhaseAgrees, SettledAgrees, RowsAgree;
  }

  // --- the heartbeat ---

  predicate SameSummary(s: State, s': State) {
    && s'.inFlight == s.inFlight && s'.processed == s.processed && s'.deployed == s.deployed
    && s'.authored == s.authored && s'.skippedReview == s.skippedReview && s'.failed == s.failed
  }

  // While the agents run, the heartbeat may take the lock whenever nobody is inside a locked section.
  lemma HeartbeatMayRead(cfg: Config, tasks: map<Id, Task>, s: State)
    requires Invariant(cfg, tasks, s)
    ensures Enabled(cfg, s, HeartbeatLock) <==>
      s.phase == Agents && s.lock != Some(Heartbeat) && forall id :: id in s.pcs ==> !HoldsLock(s.pcs[id])
  {
    hide CountersAgree, PhaseAgrees, SettledAgrees, RowsAgree, HoldsLock;
    if s.lock.Some? && s.lock.value.Source? {
      assert HoldsLock(s.pcs[s.lock.value.id]);
    }
  }

  // The summary it reads does not change until it gives the lock back.
  lemma HeartbeatReadsOneSummary(cfg: Config, tasks: map<Id, Task>, s: State, a: Action)
    requires Invariant(cfg, tasks, s) && Enabled(cfg, s, a)
    ensures a == HeartbeatLock ==> SameSummary(s, Next(s, a)) && Next(s, a).lock == Some(Heartbeat)
    ensures s.lock == Some(Heartbeat) && a != HeartbeatUnlock ==>
      SameSummary(s, Next(s, a)) && Next(s, a).lock == Some(Heartbeat)
    ensures a == HeartbeatUnlock ==> SameSummary(s, Next(s, a)) && Next(s, a).lock.None?
  {
    hide CountersAgree, PhaseAgrees, SettledAgrees, RowsAgree, ValidVerdict, ValidOutcome;
  }
}
