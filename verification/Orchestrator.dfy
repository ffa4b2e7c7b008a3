/**
 One overnight run (`run_overnight_orchestrator`, `_batch_preflight`, `_process_one`) as the
 interleaving of one coroutine per source, a heartbeat and the main coroutine. Every change of
 the shared summary is a step of its own, so a step of any other coroutine can come between two.
 */
module Orchestrator {
  import opened Wrappers
  import opened Counting
  import opened AuthoringModel

  // Pre-flight either keeps a source for the agents or records a terminal verdict for it.
  datatype Verdict = Keep | Drop(result: Result)

  // How processing ended: the stored result, the agent calls spent, and whether the row of the
  // source was written (both attempts to write it can fail).
  datatype Outcome = Outcome(result: Result, calls: nat, persisted: bool)

  // Where the coroutine of a source stands.
  datatype Pc =
    // pre-flight: `_check`
    | PfQueued
    | PfChecking
    | PfCrashed                    // wants the progress lock to note the crash
    | PfNoting                     // holds it
    | PfDecided(verdict: Verdict)  // about to join the survivors or to write the verdict
    | PfRecorded(verdict: Verdict) // wants the progress lock
    | PfLocked(verdict: Verdict)   // holds it
    | PfProcessed(verdict: Verdict) // holds it, `processed` incremented
    | PfCounted(verdict: Verdict)  // holds it, everything incremented
    | PfReleasing(verdict: Verdict)
    | PfDone(verdict: Verdict)
    // authoring: `_process_one`
    | Waiting
    | Arriving                     // has a slot, wants the progress lock
    | Entering                     // holds it
    | Entered                      // holds it, `in_flight` incremented
    | Working
    | Worked(outcome: Outcome)     // wants the progress lock
    | Leaving(outcome: Outcome)    // holds it
    | LeftFlight(outcome: Outcome) // holds it, `in_flight` decremented
    | Bucketed(outcome: Outcome)   // holds it, the status counter incremented
    | Tallied(outcome: Outcome)    // holds it, `processed` incremented
    | Releasing(outcome: Outcome)
    | Done(outcome: Outcome)

  datatype Holder = Source(id: Id) | Heartbeat

  datatype Phase = Preflight | Agents | Finished

  datatype Bucket = InDeployed | InAuthored | InSkippedReview | InFailed

  datatype How = Filtered | Processed

  datatype Config = Config(
    sources: set<Id>, runPreflight: bool, preflightWorkers: nat, workers: nat, dryRun: bool, maxRepairs: int)

  datatype State = State(
    phase: Phase, pcs: map<Id, Pc>, lock: Option<Holder>, preflightSlots: int, slots: int,
    inFlight: int, processed: int, deployed: int, authored: int, skippedReview: int, failed: int,
    tasks: map<Id, Task>, settled: seq<(Id, How)>)

  datatype Action =
    | Advance(id: Id)
    | Check(id: Id, answer: Option<Verdict>) // None: pre-flight crashed
    | Work(id: Id, outcome: Outcome)
    | StartAgents
    | Finish
    | HeartbeatLock
    | HeartbeatUnlock

  // asyncio.Semaphore(max(1, n))
  function AtLeastOne(n: nat): nat {
    if n == 0 then 1 else n
  }

  function Start(cfg: Config, tasks: map<Id, Task>): State {
    State(if cfg.runPreflight then Preflight else Agents,
          map id | id in cfg.sources :: if cfg.runPreflight then PfQueued else Waiting,
          None, AtLeastOne(cfg.preflightWorkers), AtLeastOne(cfg.workers), 0, 0, 0, 0, 0, 0, tasks, [])
  }

  // --- what the environment may answer ---

  // Only permanent failures and umbrella sites are decided before the agents run.
  predicate ValidVerdict(v: Verdict) {
    v.Drop? ==>
      || (v.result.status == Failed && v.result.category.Some? && Permanent(v.result.category.value))
      || v.result == Result(SkippedReview, Some(UmbrellaReview))
  }

  // Deployment turns an authored script into deployed or failed, except on a dry run; a run whose
  // row could not be written counts as failed.
  predicate ValidOutcome(cfg: Config, o: Outcome) {
    && (o.result.status.Deployed? || o.result.status.AwaitingReview? || o.result.status.SkippedReview?
        || o.result.status.Failed?)
    && (o.result.status.AwaitingReview? ==> cfg.dryRun)
    && (o.result.status.Deployed? ==> !cfg.dryRun)
    && (!o.persisted ==> o.result == Result(Failed, Some(AgentError)))
    && o.calls <= 1 + NonNegative(cfg.maxRepairs)
  }

  function BucketOf(status: TaskStatus): Bucket {
    match status
    case Deployed => InDeployed
    case AwaitingReview => InAuthored
    case SkippedReview => InSkippedReview
    case _ => InFailed
  }

  // --- steps ---

  predicate HoldsLock(pc: Pc) {
    || pc.PfNoting? || pc.PfLocked? || pc.PfProcessed? || pc.PfCounted?
    || pc.Entering? || pc.Entered? || pc.Leaving? || pc.LeftFlight? || pc.Bucketed? || pc.Tallied?
  }

  predicate WantsLock(pc: Pc) {
    pc.PfCrashed? || pc.PfRecorded? || pc.Arriving? || pc.Worked?
  }

  predicate Enabled(cfg: Config, s: State, a: Action) {
    match a
    case Advance(id) =>
      && id in s.pcs
      && var pc := s.pcs[id];
         if WantsLock(pc) then s.lock.None?
         else if pc.PfQueued? then s.phase == Preflight && s.preflightSlots > 0
         else if pc.Waiting? then s.slots > 0
         else !pc.PfChecking? && !pc.Working? && !pc.PfDone? && !pc.Done?
    case Check(id, answer) =>
      id in s.pcs && s.pcs[id].PfChecking? && (answer.Some? ==> ValidVerdict(answer.value))
    case Work(id, outcome) => id in s.pcs && s.pcs[id].Working? && ValidOutcome(cfg, outcome)
    case StartAgents => s.phase == Preflight && forall id :: id in s.pcs ==> s.pcs[id].PfDone?
    case Finish => s.phase == Agents && forall id :: id in s.pcs ==> s.pcs[id].Done? || s.pcs[id].PfDone?
    case HeartbeatLock => s.phase == Agents && s.lock.None?
    case HeartbeatUnlock => s.lock == Some(Heartbeat)
  }

  function AddToBucket(s: State, b: Bucket): State {
    match b
    case InDeployed => s.(deployed := s.deployed + 1)
    case InAuthored => s.(authored := s.authored + 1)
    case InSkippedReview => s.(skippedReview := s.skippedReview + 1)
    case InFailed => s.(failed := s.failed + 1)
  }

  function AttemptsOf(tasks: map<Id, Task>, id: Id): nat {
    if id in tasks then tasks[id].attempts else 0
  }

  function Recorded(tasks: map<Id, Task>, id: Id, r: Result): map<Id, Task> {
    tasks[id := Task(r.status, r.category, AttemptsOf(tasks, id) + 1)]
  }

  // Where a coroutine goes next when nothing from outside is needed.
  function Following(pc: Pc): Pc {
    match pc
    case PfQueued => PfChecking
    case PfCrashed => PfNoting
    case PfNoting => PfDecided(Keep)
    case PfDecided(v) => PfRecorded(v)
    case PfRecorded(v) => PfLocked(v)
    case PfLocked(v) => if v.Drop? then PfProcessed(v) else PfCounted(v)
    case PfProcessed(v) => PfCounted(v)
    case PfCounted(v) => PfReleasing(v)
    case PfReleasing(v) => PfDone(v)
    case Waiting => Arriving
    case Arriving => Entering
    case Entering => Entered
    case Entered => Working
    case Worked(o) => Leaving(o)
    case Leaving(o) => LeftFlight(o)
    case LeftFlight(o) => Bucketed(o)
    case Bucketed(o) => Tallied(o)
    case Tallied(o) => Releasing(o)
    case Releasing(o) => Done(o)
    case _ => pc
  }

  // What the step does to everything the coroutines share.
  function Effect(s: State, id: Id, pc: Pc): State {
    match pc
    case PfQueued => s.(preflightSlots := s.preflightSlots - 1)
    case PfCrashed => s.(lock := Some(Source(id)))
    case PfNoting => s.(lock := None)
    case PfDecided(v) => s.(tasks := if v.Drop? then Recorded(s.tasks, id, v.result) else s.tasks)
    case PfRecorded(v) => s.(lock := Some(Source(id)))
    case PfLocked(v) =>
      if v.Drop? then s.(processed := s.processed + 1, settled := s.settled + [(id, Filtered)]) else s
    case PfProcessed(v) => if v.Drop? then AddToBucket(s, BucketOf(v.result.status)) else s
    case PfCounted(v) => s.(lock := None)
    case PfReleasing(v) => s.(preflightSlots := s.preflightSlots + 1)
    case Waiting => s.(slots := s.slots - 1)
    case Arriving => s.(lock := Some(Source(id)))
    case Entering => s.(inFlight := s.inFlight + 1)
    case Entered => s.(lock := None)
    case Worked(o) => s.(lock := Some(Source(id)))
    case Leaving(o) => s.(inFlight := s.inFlight - 1)
    case LeftFlight(o) => AddToBucket(s, BucketOf(o.result.status))
    case Bucketed(o) => s.(processed := s.processed + 1, settled := s.settled + [(id, Processed)])
    case Tallied(o) => s.(lock := None)
    case Releasing(o) => s.(slots := s.slots + 1)
    case _ => s
  }

  // The next point of the coroutine a step belongs to.
  function NextPc(s: State, a: Action): Pc
    requires MovesOne(a) && a.id in s.pcs
  {
    match a
    case Advance(id) => Following(s.pcs[id])
    case Check(id, answer) => if answer.None? then PfCrashed else PfDecided(answer.value)
    case Work(id, o) => Worked(o)
  }

  function Shared(s: State, a: Action): State
    requires MovesOne(a) && a.id in s.pcs
  {
    match a
    case Advance(id) => Effect(s, id, s.pcs[id])
    case Check(_, _) => s
    case Work(id, o) => s.(tasks := if o.persisted then Recorded(s.tasks, id, o.result) else s.tasks)
  }

  predicate MovesOne(a: Action) {
    a.Advance? || a.Check? || a.Work?
  }

  function Next(s: State, a: Action): State
    requires MovesOne(a) ==> a.id in s.pcs
  {
    match a
    case StartAgents =>
      s.(phase := Agents, pcs := map id | id in s.pcs :: if s.pcs[id] == PfDone(Keep) then Waiting else s.pcs[id])
    case Finish => s.(phase := Finished)
    case HeartbeatLock => s.(lock := Some(Heartbeat))
    case HeartbeatUnlock => s.(lock := None)
    case _ => Shared(s, a).(pcs := s.pcs[a.id := NextPc(s, a)])
  }

  // A run: the states passed through and the actions taken.
  ghost predicate IsRun(cfg: Config, tasks: map<Id, Task>, states: seq<State>, actions: seq<Action>) {
    && |states| == |actions| + 1
    && states[0] == Start(cfg, tasks)
    && forall i :: 0 <= i < |actions| ==>
         Enabled(cfg, states[i], actions[i]) && states[i + 1] == Next(states[i], actions[i])
  }

  // --- the invariant ---

  predicate InPreflight(pc: Pc) {
    || pc.PfQueued? || pc.PfChecking? || pc.PfCrashed? || pc.PfNoting? || pc.PfDecided? || pc.PfRecorded?
    || pc.PfLocked? || pc.PfProcessed? || pc.PfCounted? || pc.PfReleasing? || pc.PfDone?
  }

  predicate HasPreflightSlot(pc: Pc) {
    InPreflight(pc) && !pc.PfQueued? && !pc.PfDone?
  }

  predicate HasSlot(pc: Pc) {
    !InPreflight(pc) && !pc.Waiting? && !pc.Done?
  }

  predicate IsInFlight(pc: Pc) {
    pc.Entered? || pc.Working? || pc.Worked? || pc.Leaving?
  }

  // `processed` includes the source.
  predicate IsProcessed(pc: Pc) {
    || ((pc.PfProcessed? || pc.PfCounted? || pc.PfReleasing? || pc.PfDone?) && pc.verdict.Drop?)
    || pc.Tallied? || pc.Releasing? || pc.Done?
  }

  // The status counter `b` includes the source.
  predicate IsIn(b: Bucket, pc: Pc) {
    || ((pc.PfCounted? || pc.PfReleasing? || pc.PfDone?) && pc.verdict.Drop? && BucketOf(pc.verdict.result.status) == b)
    || ((pc.Bucketed? || pc.Tallied? || pc.Releasing? || pc.Done?) && BucketOf(pc.outcome.result.status) == b)
  }

  function In(b: Bucket): Pc -> bool {
    pc => IsIn(b, pc)
  }

  function Counter(s: State, b: Bucket): int {
    match b
    case InDeployed => s.deployed
    case InAuthored => s.authored
    case InSkippedReview => s.skippedReview
    case InFailed => s.failed
  }

  ghost predicate CountersAgree(cfg: Config, s: State) {
    && s.preflightSlots >= 0 && s.slots >= 0
    && s.preflightSlots + Count(s.pcs, HasPreflightSlot) == AtLeastOne(cfg.preflightWorkers)
    && s.slots + Count(s.pcs, HasSlot) == AtLeastOne(cfg.workers)
    && s.inFlight == Count(s.pcs, IsInFlight)
    && s.processed == Count(s.pcs, IsProcessed)
    && (forall b: Bucket :: Counter(s, b) == Count(s.pcs, In(b)))
  }

  predicate LockAgrees(s: State) {
    && (forall id :: id in s.pcs ==> (HoldsLock(s.pcs[id]) <==> s.lock == Some(Source(id))))
    && (s.lock.Some? && s.lock.value.Source? ==> s.lock.value.id in s.pcs)
    && (s.lock == Some(Heartbeat) ==> s.phase != Preflight)
  }

  predicate PhaseAgrees(s: State) {
    forall id :: id in s.pcs ==>
      && (s.phase == Preflight ==> InPreflight(s.pcs[id]))
      && (s.phase != Preflight ==> !InPreflight(s.pcs[id]) || (s.pcs[id].PfDone? && s.pcs[id].verdict.Drop?))
      && (s.phase == Finished ==> s.pcs[id].Done? || s.pcs[id].PfDone?)
      && (s.pcs[id].PfProcessed? ==> s.pcs[id].verdict.Drop?)
  }

  ghost predicate SettledAgrees(s: State) {
    && (forall i :: 0 <= i < |s.settled| ==>
          var (id, how) := s.settled[i];
          id in s.pcs && IsProcessed(s.pcs[id]) && (how == Filtered <==> InPreflight(s.pcs[id])))
    && (forall id :: id in s.pcs && IsProcessed(s.pcs[id]) ==> exists i :: 0 <= i < |s.settled| && s.settled[i].0 == id)
    && (forall i, j :: 0 <= i < j < |s.settled| ==> s.settled[i].0 != s.settled[j].0)
  }

  // The result stored for a source at this point of its coroutine, if any.
  function Written(pc: Pc): Option<Result> {
    if pc.PfRecorded? || pc.PfLocked? || pc.PfProcessed? || pc.PfCounted? || pc.PfReleasing? || pc.PfDone? then
      if pc.verdict.Drop? then Some(pc.verdict.result) else None
    else if pc.Worked? || pc.Leaving? || pc.LeftFlight? || pc.Bucketed? || pc.Tallied? || pc.Releasing? || pc.Done? then
      if pc.outcome.persisted then Some(pc.outcome.result) else None
    else None
  }

  predicate RowAgrees(before: map<Id, Task>, after: map<Id, Task>, id: Id, pc: Pc) {
    match Written(pc)
    case None => (id in after <==> id in before) && (id in after ==> after[id] == before[id])
    case Some(r) => id in after && after[id] == Task(r.status, r.category, AttemptsOf(before, id) + 1)
  }

  predicate AnswersValid(cfg: Config, pc: Pc) {
    && ((pc.PfDecided? || pc.PfRecorded? || pc.PfLocked? || pc.PfProcessed? || pc.PfCounted? || pc.PfReleasing?
         || pc.PfDone?)
        ==> ValidVerdict(pc.verdict))
    && ((pc.Worked? || pc.Leaving? || pc.LeftFlight? || pc.Bucketed? || pc.Tallied? || pc.Releasing? || pc.Done?)
        ==> ValidOutcome(cfg, pc.outcome))
  }

  ghost predicate RowsAgree(cfg: Config, tasks: map<Id, Task>, s: State) {
    && (forall id :: id in s.pcs ==> RowAgrees(tasks, s.tasks, id, s.pcs[id]) && AnswersValid(cfg, s.pcs[id]))
    && (forall id :: id !in s.pcs ==> (id in s.tasks <==> id in tasks) && (id in s.tasks ==> s.tasks[id] == tasks[id]))
  }

  ghost predicate Invariant(cfg: Config, tasks: map<Id, Task>, s: State) {
    && s.pcs.Keys == cfg.sources
    && LockAgrees(s) && PhaseAgrees(s) && CountersAgree(cfg, s) && SettledAgrees(s) && RowsAgree(cfg, tasks, s)
  }

  lemma StartKeeps(cfg: Config, tasks: map<Id, Task>)
    ensures Invariant(cfg, tasks, Start(cfg, tasks))
  {
    var s := Start(cfg, tasks);
    CountNone(s.pcs, HasPreflightSlot);
    CountNone(s.pcs, HasSlot);
    CountNone(s.pcs, IsInFlight);
    CountNone(s.pcs, IsProcessed);
    forall b: Bucket ensures Counter(s, b) == Count(s.pcs, In(b)) {
      CountNone(s.pcs, In(b));
    }
  }

  // --- one step keeps it, part by part ---

  lemma CountsAfterMove(s: State, id: Id, pc: Pc, b: Bucket)
    requires id in s.pcs
    ensures
      var was, pcs' := s.pcs[id], s.pcs[id := pc];
      && Count(pcs', HasPreflightSlot) ==
         Count(s.pcs, HasPreflightSlot) - One(HasPreflightSlot(was)) + One(HasPreflightSlot(pc))
      && Count(pcs', HasSlot) == Count(s.pcs, HasSlot) - One(HasSlot(was)) + One(HasSlot(pc))
      && Count(pcs', IsInFlight) == Count(s.pcs, IsInFlight) - One(IsInFlight(was)) + One(IsInFlight(pc))
      && Count(pcs', IsProcessed) == Count(s.pcs, IsProcessed) - One(IsProcessed(was)) + One(IsProcessed(pc))
      && Count(pcs', In(b)) == Count(s.pcs, In(b)) - One(IsIn(b, was)) + One(IsIn(b, pc))
  {
    hide HasPreflightSlot, HasSlot, IsInFlight, IsProcessed, IsIn, Count;
    CountUpdate(s.pcs, id, pc, HasPreflightSlot);
    CountUpdate(s.pcs, id, pc, HasSlot);
    CountUpdate(s.pcs, id, pc, IsInFlight);
    CountUpdate(s.pcs, id, pc, IsProcessed);
    CountUpdate(s.pcs, id, pc, In(b));
  }

  // Each step changes the shared counters by what its coroutine gains or loses.
  lemma EffectMatchesSlots(cfg: Config, s: State, a: Action)
    requires MovesOne(a) && Enabled(cfg, s, a) && (s.pcs[a.id].PfProcessed? ==> s.pcs[a.id].verdict.Drop?)
    ensures
      var was, pc, s' := s.pcs[a.id], NextPc(s, a), Shared(s, a);
      && s'.preflightSlots + One(HasPreflightSlot(pc)) == s.preflightSlots + One(HasPreflightSlot(was))
      && s'.slots + One(HasSlot(pc)) == s.slots + One(HasSlot(was))
      && (s.preflightSlots >= 0 && s.slots >= 0 ==> s'.preflightSlots >= 0 && s'.slots >= 0)
  {
    hide ValidVerdict, ValidOutcome, Recorded, BucketOf;
  }

  lemma EffectMatchesInFlight(cfg: Config, s: State, a: Action)
    requires MovesOne(a) && Enabled(cfg, s, a)
    ensures
      var was, pc, s' := s.pcs[a.id], NextPc(s, a), Shared(s, a);
      s'.inFlight - One(IsInFlight(pc)) == s.inFlight - One(IsInFlight(was))
  {
    hide ValidVerdict, ValidOutcome, Recorded, BucketOf;
  }

  lemma EffectMatchesProcessed(cfg: Config, s: State, a: Action)
    requires MovesOne(a) && Enabled(cfg, s, a) && (s.pcs[a.id].PfProcessed? ==> s.pcs[a.id].verdict.Drop?)
    ensures
      var was, pc, s' := s.pcs[a.id], NextPc(s, a), Shared(s, a);
      s'.processed - One(IsProcessed(pc)) == s.processed - One(IsProcessed(was))
  {
    hide ValidVerdict, ValidOutcome, Recorded, BucketOf;
  }

  lemma EffectMatchesBucket(cfg: Config, s: State, a: Action, b: Bucket)
    requires MovesOne(a) && Enabled(cfg, s, a) && (s.pcs[a.id].PfProcessed? ==> s.pcs[a.id].verdict.Drop?)
    ensures
      var was, pc, s' := s.pcs[a.id], NextPc(s, a), Shared(s, a);
      Counter(s', b) - One(IsIn(b, pc)) == Counter(s, b) - One(IsIn(b, was))
  {
    hide ValidVerdict, ValidOutcome, Recorded, BucketOf;
  }

  lemma CountersKept(cfg: Config, s: State, a: Action)
    requires CountersAgree(cfg, s) && PhaseAgrees(s) && Enabled(cfg, s, a)
    ensures CountersAgree(cfg, Next(s, a))
  {
    if MovesOne(a) {
      CountersKeptByMove(cfg, s, a);
    } else if a.StartAgents? {
      CountersKeptByStart(cfg, s);
    }
  }

  lemma CountersKeptByMove(cfg: Config, s: State, a: Action)
    requires CountersAgree(cfg, s) && PhaseAgrees(s) && Enabled(cfg, s, a) && MovesOne(a)
    ensures CountersAgree(cfg, Next(s, a))
  {
    hide Count, Enabled, HasPreflightSlot, HasSlot, IsInFlight, IsProcessed, IsIn, In, Shared, NextPc, Next,
      PhaseAgrees, Counter;
    MovesOneOf(cfg, s, a);
    var s' := Next(s, a);
    EffectMatchesSlots(cfg, s, a);
    EffectMatchesInFlight(cfg, s, a);
    EffectMatchesProcessed(cfg, s, a);
    CountsAfterMove(s, a.id, NextPc(s, a), InFailed);
    forall b: Bucket ensures Counter(s', b) == Count(s'.pcs, In(b)) {
      EffectMatchesBucket(cfg, s, a, b);
      CountsAfterMove(s, a.id, NextPc(s, a), b);
    }
  }

  lemma MovesOneOf(cfg: Config, s: State, a: Action)
    requires MovesOne(a) && Enabled(cfg, s, a) && PhaseAgrees(s)
    ensures a.id in s.pcs && (s.pcs[a.id].PfProcessed? ==> s.pcs[a.id].verdict.Drop?)
    ensures
      var s', shared := Next(s, a), Shared(s, a);
      && s'.pcs == s.pcs[a.id := NextPc(s, a)]
      && s'.preflightSlots == shared.preflightSlots && s'.slots == shared.slots
      && s'.inFlight == shared.inFlight && s'.processed == shared.processed
      && forall b :: Counter(s', b) == Counter(shared, b)
  {
    hide ValidVerdict, ValidOutcome, Shared, NextPc;
  }

  lemma SurvivorCountsNowhere(pc: Pc)
    requires pc == PfDone(Keep) || pc == Waiting
    ensures !HasPreflightSlot(pc) && !HasSlot(pc) && !IsInFlight(pc) && !IsProcessed(pc)
    ensures forall b: Bucket :: !IsIn(b, pc)
  {
  }

  predicate SurvivorsMoved(pcs: map<Id, Pc>, pcs': map<Id, Pc>) {
    && pcs'.Keys == pcs.Keys
    && forall id :: id in pcs ==> pcs'[id] == pcs[id] || (pcs[id] == PfDone(Keep) && pcs'[id] == Waiting)
  }

  // Starting the agents moves the survivors and nothing else.
  lemma StartMovesSurvivors(s: State)
    ensures
      var s' := Next(s, StartAgents);
      s' == s.(phase := Agents, pcs := s'.pcs) && SurvivorsMoved(s.pcs, s'.pcs)
  {
  }

  lemma CountersKeptByStart(cfg: Config, s: State)
    requires CountersAgree(cfg, s) && Enabled(cfg, s, StartAgents)
    ensures CountersAgree(cfg, Next(s, StartAgents))
  {
    hide Count, HasPreflightSlot, HasSlot, IsInFlight, IsProcessed, IsIn, Next, Enabled, SurvivorsMoved;
    var s' := Next(s, StartAgents);
    StartMovesSurvivors(s);
    SurvivorCountsNowhere(PfDone(Keep));
    SurvivorCountsNowhere(Waiting);
    SurvivorsNotCounted(s.pcs, s'.pcs, HasPreflightSlot);
    SurvivorsNotCounted(s.pcs, s'.pcs, HasSlot);
    SurvivorsNotCounted(s.pcs, s'.pcs, IsInFlight);
    SurvivorsNotCounted(s.pcs, s'.pcs, IsProcessed);
    forall b: Bucket ensures Counter(s', b) == Count(s'.pcs, In(b)) {
      SurvivorsNotCounted(s.pcs, s'.pcs, In(b));
    }
  }

  lemma SurvivorsNotCounted(pcs: map<Id, Pc>, pcs': map<Id, Pc>, p: Pc -> bool)
    requires SurvivorsMoved(pcs, pcs')
    requires !p(PfDone(Keep)) && !p(Waiting)
    ensures Count(pcs', p) == Count(pcs, p)
  {
    CountSame(pcs, pcs', p);
  }

  // The lock changes hands only through the coroutine that takes or gives it.
  lemma EffectMovesLock(cfg: Config, s: State, a: Action)
    requires MovesOne(a) && Enabled(cfg, s, a) && LockAgrees(s)
    ensures
      var pc, s' := NextPc(s, a), Shared(s, a);
      if HoldsLock(pc) == HoldsLock(s.pcs[a.id]) then s'.lock == s.lock
      else if HoldsLock(pc) then s.lock.None? && s'.lock == Some(Source(a.id))
      else s.lock == Some(Source(a.id)) && s'.lock.None?
  {
    hide ValidVerdict, ValidOutcome, Recorded, BucketOf;
    assert HoldsLock(s.pcs[a.id]) <==> s.lock == Some(Source(a.id));
  }

  lemma LockKept(cfg: Config, s: State, a: Action)
    requires LockAgrees(s) && PhaseAgrees(s) && Enabled(cfg, s, a)
    ensures LockAgrees(Next(s, a))
  {
    if MovesOne(a) {
      EffectMovesLock(cfg, s, a);
      hide HoldsLock, Shared, NextPc;
    }
  }

  lemma MoveKeepsPhase(cfg: Config, s: State, a: Action)
    requires MovesOne(a) && Enabled(cfg, s, a)
    ensures
      var was, pc := s.pcs[a.id], NextPc(s, a);
      && Shared(s, a).phase == s.phase
      && (InPreflight(pc) <==> InPreflight(was)) && !was.PfDone? && !was.Done?
      && (pc.PfProcessed? ==> pc.verdict.Drop?)
  {
    hide ValidVerdict, ValidOutcome, Recorded, BucketOf;
  }

  lemma PhaseKept(cfg: Config, s: State, a: Action)
    requires PhaseAgrees(s) && Enabled(cfg, s, a)
    ensures PhaseAgrees(Next(s, a))
  {
    if MovesOne(a) {
      MoveKeepsPhase(cfg, s, a);
      hide Shared, NextPc, InPreflight;
    }
  }

  // A source enters the settled list in the step that counts it.
  lemma EffectSettles(cfg: Config, s: State, a: Action)
    requires MovesOne(a) && Enabled(cfg, s, a) && (s.pcs[a.id].PfProcessed? ==> s.pcs[a.id].verdict.Drop?)
    ensures
      var was, pc, s' := s.pcs[a.id], NextPc(s, a), Shared(s, a);
      if IsProcessed(pc) == IsProcessed(was) then s'.settled == s.settled
      else IsProcessed(pc) && s'.settled == s.settled + [(a.id, if InPreflight(pc) then Filtered else Processed)]
  {
    hide ValidVerdict, ValidOutcome, Recorded, BucketOf;
  }

  lemma SettledKept(cfg: Config, s: State, a: Action)
    requires SettledAgrees(s) && PhaseAgrees(s) && Enabled(cfg, s, a)
    ensures SettledAgrees(Next(s, a))
  {
    var s' := Next(s, a);
    if MovesOne(a) {
      EffectSettles(cfg, s, a);
      MoveKeepsPhase(cfg, s, a);
      SettledKeptByMove(s, s', a.id);
    } else {
      forall id | id in s'.pcs
        ensures IsProcessed(s'.pcs[id]) <==> IsProcessed(s.pcs[id])
        ensures IsProcessed(s.pcs[id]) ==> (InPreflight(s'.pcs[id]) <==> InPreflight(s.pcs[id]))
      {}
    }
  }

  lemma SettledKeptByMove(s: State, s': State, id: Id)
    requires SettledAgrees(s) && id in s.pcs && id in s'.pcs && s'.pcs == s.pcs[id := s'.pcs[id]]
    requires InPreflight(s'.pcs[id]) <==> InPreflight(s.pcs[id])
    requires if IsProcessed(s'.pcs[id]) == IsProcessed(s.pcs[id]) then s'.settled == s.settled
      else IsProcessed(s'.pcs[id])
           && s'.settled == s.settled + [(id, if InPreflight(s'.pcs[id]) then Filtered else Processed)]
    ensures SettledAgrees(s')
  {
    hide IsProcessed, InPreflight;
    if s'.settled != s.settled {
      assert s'.settled[|s.settled|].0 == id;
      forall x | x in s'.pcs && IsProcessed(s'.pcs[x])
        ensures exists i :: 0 <= i < |s'.settled| && s'.settled[i].0 == x
      {
        if x != id {
          var i :| 0 <= i < |s.settled| && s.settled[i].0 == x;
          assert s'.settled[i].0 == x;
        }
      }
    }
  }

  // A task row is written in one step, once per source.
  lemma EffectWrites(cfg: Config, s: State, a: Action)
    requires MovesOne(a) && Enabled(cfg, s, a) && AnswersValid(cfg, s.pcs[a.id])
    ensures
      var was, pc, s' := s.pcs[a.id], NextPc(s, a), Shared(s, a);
      && AnswersValid(cfg, pc)
      && if Written(pc) == Written(was) then s'.tasks == s.tasks
         else Written(was).None? && Written(pc).Some? && s'.tasks == Recorded(s.tasks, a.id, Written(pc).value)
  {
    assert ValidVerdict(Keep);
    hide ValidVerdict, ValidOutcome, Recorded, BucketOf;
  }

  lemma RowsKept(cfg: Config, tasks: map<Id, Task>, s: State, a: Action)
    requires RowsAgree(cfg, tasks, s) && Enabled(cfg, s, a)
    ensures RowsAgree(cfg, tasks, Next(s, a))
  {
    if MovesOne(a) {
      assert a.id in s.pcs && AnswersValid(cfg, s.pcs[a.id]);
      hide AnswersValid, Written, Shared, NextPc, Enabled;
      EffectWrites(cfg, s, a);
    } else if a.StartAgents? {
      RowsKeptByStart(cfg, tasks, s);
    }
  }

  lemma RowsKeptByStart(cfg: Config, tasks: map<Id, Task>, s: State)
    requires RowsAgree(cfg, tasks, s) && Enabled(cfg, s, StartAgents)
    ensures RowsAgree(cfg, tasks, Next(s, StartAgents))
  {
    hide RowAgrees, AnswersValid, Next, Enabled;
    StartMovesSurvivors(s);
    forall id | id in s.pcs && s.pcs[id] == PfDone(Keep)
      ensures RowAgrees(tasks, s.tasks, id, PfDone(Keep)) <==> RowAgrees(tasks, s.tasks, id, Waiting)
      ensures AnswersValid(cfg, Waiting)
    {
      SurvivorWroteNothing(cfg, tasks, s.tasks, id);
    }
  }

  lemma SurvivorWroteNothing(cfg: Config, before: map<Id, Task>, after: map<Id, Task>, id: Id)
    ensures RowAgrees(before, after, id, PfDone(Keep)) <==> RowAgrees(before, after, id, Waiting)
    ensures AnswersValid(cfg, Waiting)
  {
  }

  lemma InvariantKept(cfg: Config, tasks: map<Id, Task>, s: State, a: Action)
    requires Invariant(cfg, tasks, s) && Enabled(cfg, s, a)
    ensures Invariant(cfg, tasks, Next(s, a))
  {
    hide CountersAgree, LockAgrees, PhaseAgrees, SettledAgrees, RowsAgree, Enabled, Next;
    SourcesKept(cfg, s, a);
    CountersKept(cfg, s, a);
    LockKept(cfg, s, a);
    PhaseKept(cfg, s, a);
    SettledKept(cfg, s, a);
    RowsKept(cfg, tasks, s, a);
  }

  lemma SourcesKept(cfg: Config, s: State, a: Action)
    requires Enabled(cfg, s, a)
    ensures Next(s, a).pcs.Keys == s.pcs.Keys
  {
    hide ValidVerdict, ValidOutcome, Shared, NextPc;
  }

  lemma {:induction false} InvariantThroughout(
    cfg: Config, tasks: map<Id, Task>, states: seq<State>, actions: seq<Action>, i: nat)
    requires IsRun(cfg, tasks, states, actions) && i < |states|
    ensures Invariant(cfg, tasks, states[i])
  {
    hide Invariant, Enabled, Next;
    if i == 0 {
      StartKeeps(cfg, tasks);
    } else {
      InvariantThroughout(cfg, tasks, states, actions, i - 1);
      InvariantKept(cfg, tasks, states[i - 1], actions[i - 1]);
    }
  }

  // --- what the invariant means ---

  // `in_flight` never exceeds the worker count.
  lemma InFlightWithinWorkers(
    cfg: Config, tasks: map<Id, Task>, states: seq<State>, actions: seq<Action>, i: nat)
    requires IsRun(cfg, tasks, states, actions) && i < |states|
    ensures 0 <= states[i].inFlight <= AtLeastOne(cfg.workers)
  {
    hide Enabled, Next, Count;
    InvariantThroughout(cfg, tasks, states, actions, i);
    CountAtMost(states[i].pcs, IsInFlight, HasSlot);
  }

  // Whenever no source holds the progress lock the summary adds up.
  lemma SummaryAddsUp(cfg: Config, tasks: map<Id, Task>, states: seq<State>, actions: seq<Action>, i: nat)
    requires IsRun(cfg, tasks, states, actions) && i < |states|
    requires states[i].lock.None? || states[i].lock == Some(Heartbeat)
    ensures
      var s := states[i];
      s.processed == s.deployed + s.authored + s.skippedReview + s.failed
  {
    hide Enabled, Next, IsRun;
    InvariantThroughout(cfg, tasks, states, actions, i);
    var s := states[i];
    forall id | id in s.pcs ensures !HoldsLock(s.pcs[id]) {}
    BucketsPartition(s.pcs);
  }

  lemma BucketsPartition(pcs: map<Id, Pc>)
    requires forall id :: id in pcs ==> !HoldsLock(pcs[id])
    ensures Count(pcs, IsProcessed) ==
      Count(pcs, In(InDeployed)) + Count(pcs, In(InAuthored))
      + Count(pcs, In(InSkippedReview)) + Count(pcs, In(InFailed))
  {
    hide Count;
    var reviewed := (pc: Pc) => IsIn(InSkippedReview, pc) || IsIn(InFailed, pc);
    var rest := (pc: Pc) => IsIn(InAuthored, pc) || reviewed(pc);
    CountSplit(pcs, reviewed, In(InSkippedReview), In(InFailed));
    CountSplit(pcs, rest, In(InAuthored), reviewed);
    CountSplit(pcs, IsProcessed, In(InDeployed), rest);
  }

  // When the run is over every candidate has been settled exactly once, filtered by pre-flight or
  // processed by an agent, and counted as such.
  lemma EveryCandidateSettledOnce(cfg: Config, tasks: map<Id, Task>, states: seq<State>, actions: seq<Action>)
    requires IsRun(cfg, tasks, states, actions) && states[|actions|].phase == Finished
    ensures
      var s := states[|actions|];
      && s.processed == |cfg.sources| && s.inFlight == 0
      && (forall id :: id in cfg.sources <==> exists i :: 0 <= i < |s.settled| && s.settled[i].0 == id)
      && (forall i, j :: 0 <= i < j < |s.settled| ==> s.settled[i].0 != s.settled[j].0)
      && (forall i :: 0 <= i < |s.settled| ==>
            var (id, how) := s.settled[i];
            id in s.pcs && (how == Filtered <==> s.pcs[id].PfDone?) && (how == Processed <==> s.pcs[id].Done?))
  {
    hide Enabled, Next, Count;
    InvariantThroughout(cfg, tasks, states, actions, |actions|);
    var s := states[|actions|];
    assert s.phase == Finished && PhaseAgrees(s);
    forall id | id in s.pcs ensures IsProcessed(s.pcs[id]) && !IsInFlight(s.pcs[id]) {
      assert s.pcs[id].Done? || (s.pcs[id].PfDone? && s.pcs[id].verdict.Drop?);
    }
    CountAll(s.pcs, IsProcessed);
    CountNone(s.pcs, IsInFlight);
    assert |s.pcs| == |s.pcs.Keys|;
  }
}
