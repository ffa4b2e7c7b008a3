/**
 What one source goes through in `ingest/authoring/orchestrator.py`: the retry rule, the
 deterministic gates, and the agent's bounded repair loop.
 */
module AuthoringModel {
  import opened Wrappers

  type Id = nat

  datatype TaskStatus = Queued | Discovering | Authoring | AwaitingReview | Deployed | SkippedReview | Failed

  datatype Category =
    | PermanentNoJamaat | DeadSite | BlockedRobots | Aggregator | UmbrellaReview
    | TransientNetwork | AgentError | ValidationFailed | Timeout

  predicate Permanent(c: Category) {
    c.PermanentNoJamaat? || c.DeadSite? || c.BlockedRobots? || c.Aggregator? || c.UmbrellaReview?
  }

  // The persisted row of a source: what later nights read.
  datatype Task = Task(status: TaskStatus, category: Option<Category>, attempts: nat)

  // --- which sources a night picks up ---

  predicate EligibleForRetry(task: Task, retryFailed: bool, retryCategories: set<Category>, maxAttempts: int) {
    if task.status != Failed then false
    else if retryFailed then true
    else if task.category.Some? && task.category.value in retryCategories then true
    else if task.category.Some? && Permanent(task.category.value) then false
    else task.attempts < maxAttempts
  }

  predicate IsCandidate(task: Option<Task>, retryFailed: bool, retryCategories: set<Category>, maxAttempts: int) {
    if task.None? then true
    else if task.value.status in {Deployed, AwaitingReview, SkippedReview} then false
    else if task.value.status.Failed? then EligibleForRetry(task.value, retryFailed, retryCategories, maxAttempts)
    else true
  }

  // --- one source ---

  // What comes back from the agent, the static gates, the registry and the smoke test in one turn;
  // Crashed is any other exception than a timeout.
  datatype AgentTurn =
    | TimedOut
    | Crashed
    | ReportedSkip
    | ReportedFailure(category: Category)
    | InvalidScript
    | Unregistered
    | Authored(smokeOk: bool)

  datatype DomainPolicy = AggregatorDomain | UmbrellaDomain

  datatype Reachability = Reachable | Unreachable(category: Category) | FetchCrashed

  // The answers the surroundings give while one source is processed.
  datatype Surroundings = Surroundings(
    lookupCrashes: bool, policy: Option<DomainPolicy>, reach: Reachability, agentAvailable: bool,
    turns: nat -> AgentTurn)

  datatype Result = Result(status: TaskStatus, category: Option<Category>)

  function PolicyResult(policy: DomainPolicy): Result {
    match policy
    case AggregatorDomain => Result(Failed, Some(Aggregator))
    case UmbrellaDomain => Result(SkippedReview, Some(UmbrellaReview))
  }

  // A failed static gate or smoke test sends the script back to the agent. A script that registers
  // no extractor does not: its result carries no validation issues.
  predicate Repairable(turn: AgentTurn, smokeTest: bool) {
    turn.InvalidScript? || (turn.Authored? && smokeTest && !turn.smokeOk)
  }

  // The result a turn ends in; none when an exception leaves the loop.
  function TurnResult(turn: AgentTurn, smokeTest: bool): Option<Result> {
    match turn
    case TimedOut => Some(Result(Failed, Some(Timeout)))
    case Crashed => None
    case ReportedSkip => Some(Result(SkippedReview, None))
    case ReportedFailure(category) => Some(Result(Failed, Some(category)))
    case InvalidScript => Some(Result(Failed, Some(ValidationFailed)))
    case Unregistered => Some(Result(Failed, Some(ValidationFailed)))
    case Authored(smokeOk) =>
      Some(if smokeTest && !smokeOk then Result(Failed, Some(ValidationFailed)) else Result(AwaitingReview, None))
  }

  // Read backwards: what the stored result of a turn says about the turn. Only a crash leaves none.
  lemma ResultTellsTurn(turn: AgentTurn, smokeTest: bool, r: Result)
    requires TurnResult(turn, smokeTest) == Some(r)
    ensures r.status.AwaitingReview? || r.status.SkippedReview? || r.status.Failed?
    ensures r.category.Some? <==> r.status.Failed?
    ensures r.status.AwaitingReview? <==> turn.Authored? && (turn.smokeOk || !smokeTest)
    ensures r.status.SkippedReview? <==> turn.ReportedSkip?
    ensures r.status.Failed? && !turn.ReportedFailure? ==>
      r.category.value == (if turn.TimedOut? then Timeout else ValidationFailed)
    ensures turn.ReportedFailure? ==> r == Result(Failed, Some(turn.category))
    ensures Repairable(turn, smokeTest) <==>
      r.category == Some(ValidationFailed) && turn != Unregistered && !turn.ReportedFailure?
  {
  }

  lemma OnlyCrashLeavesNone(turn: AgentTurn, smokeTest: bool)
    ensures TurnResult(turn, smokeTest).None? <==> turn.Crashed?
  {
  }

  function NonNegative(n: int): nat {
    if n < 0 then 0 else n
  }

  // The turns a run of the agent took: all but the last could be repaired, and the last could not or
  // used up the repairs.
  predicate RanFor(turns: nat -> AgentTurn, calls: nat, maxRepairs: int, smokeTest: bool) {
    && 1 <= calls <= 1 + NonNegative(maxRepairs)
    && (forall i :: 0 <= i < calls - 1 ==> Repairable(turns(i), smokeTest))
    && (!Repairable(turns(calls - 1), smokeTest) || calls == 1 + NonNegative(maxRepairs))
  }

  // Runs the agent until a turn needs no repair or the repairs are used up.
  method RunAgent(turns: nat -> AgentTurn, maxRepairs: int, smokeTest: bool)
    returns (result: Option<Result>, calls: nat)
    ensures RanFor(turns, calls, maxRepairs, smokeTest)
    ensures result == TurnResult(turns(calls - 1), smokeTest)
  {
    var bound := if maxRepairs < 0 then 0 else maxRepairs;
    var repairs := 0;
    calls := 0;
    while true
      invariant 0 <= repairs <= bound && calls == repairs
      invariant forall i :: 0 <= i < calls ==> Repairable(turns(i), smokeTest)
      decreases bound - repairs
    {
      var turn := turns(calls);
      calls := calls + 1;
      match turn {
        case TimedOut => return Some(Result(Failed, Some(Timeout))), calls;
        case Crashed => return None, calls;
        case ReportedSkip => return Some(Result(SkippedReview, None)), calls;
        case ReportedFailure(category) => return Some(Result(Failed, Some(category))), calls;
        case Unregistered => return Some(Result(Failed, Some(ValidationFailed))), calls;
        case Authored(smokeOk) =>
          if !smokeTest || smokeOk { return Some(Result(AwaitingReview, None)), calls; }
        case InvalidScript =>
      }
      if repairs >= bound { return Some(Result(Failed, Some(ValidationFailed))), calls; }
      repairs := repairs + 1;
    }
  }

  // What the gates before the agent decide: nothing, a result, or (none inside) an exception.
  function GateResult(world: Surroundings): Option<Option<Result>> {
    if world.lookupCrashes then Some(None)
    else if world.policy.Some? then Some(Some(PolicyResult(world.policy.value)))
    else if world.reach.FetchCrashed? then Some(None)
    else if world.reach.Unreachable? then Some(Some(Result(Failed, Some(world.reach.category))))
    else if !world.agentAvailable then Some(Some(Result(Failed, Some(AgentError))))
    else None
  }

  // Read backwards: what a source that spared the agent was stored as says which gate decided.
  lemma GateTells(world: Surroundings)
    ensures GateResult(world).None? <==>
      !world.lookupCrashes && world.policy.None? && world.reach.Reachable? && world.agentAvailable
    ensures GateResult(world) == Some(None) <==>
      world.lookupCrashes || (world.policy.None? && world.reach.FetchCrashed?)
    ensures GateResult(world).Some? && GateResult(world).value.Some? ==>
      var r := GateResult(world).value.value;
      && (r.status.SkippedReview? <==> world.policy == Some(UmbrellaDomain))
      && (r.status.SkippedReview? || r.status.Failed?) && r.category.Some?
      && match r.category.value
         case UmbrellaReview => world.policy == Some(UmbrellaDomain) || world.reach == Unreachable(UmbrellaReview)
         case Aggregator => world.policy == Some(AggregatorDomain) || world.reach == Unreachable(Aggregator)
         case AgentError => world.reach == Unreachable(AgentError) || (world.reach.Reachable? && !world.agentAvailable)
         case category => world.reach == Unreachable(category)
  {
  }

  // The gates in order: domain policy, reachability, an agent to run; each spares the agent.
  method ProcessSource(world: Surroundings, maxRepairs: int, smokeTest: bool)
    returns (result: Option<Result>, calls: nat)
    ensures match GateResult(world)
            case Some(decided) => result == decided && calls == 0
            case None =>
              && RanFor(world.turns, calls, maxRepairs, smokeTest)
              && result == TurnResult(world.turns(calls - 1), smokeTest)
  {
    if world.lookupCrashes { return None, 0; }
    if world.policy.Some? {
      match world.policy.value {
        case AggregatorDomain => return Some(Result(Failed, Some(Aggregator))), 0;
        case UmbrellaDomain => return Some(Result(SkippedReview, Some(UmbrellaReview))), 0;
      }
    }
    match world.reach {
      case FetchCrashed => return None, 0;
      case Unreachable(category) => return Some(Result(Failed, Some(category))), 0;
      case Reachable =>
    }
    if !world.agentAvailable { return Some(Result(Failed, Some(AgentError))), 0; }
    result, calls := RunAgent(world.turns, maxRepairs, smokeTest);
  }
}
