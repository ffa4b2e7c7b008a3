/**
 What `_check` and `_process_one` do for one source between the steps it shares with the others:
 where the verdicts and outcomes of the run come from.
 */
module Processing {
  import opened Wrappers
  import opened AuthoringModel
  import opened Orchestrator

  // --- pre-flight ---

  // Domain policy first, then one fetch; only permanent failures drop a source, and a crash keeps it
  // (no answer).
  method CheckSource(policy: Option<DomainPolicy>, reach: Reachability) returns (answer: Option<Verdict>)
    ensures answer.Some? ==> ValidVerdict(answer.value)
    ensures answer.None? <==> policy.None? && reach.FetchCrashed?
    ensures answer.Some? && answer.value.Drop? <==>
      policy.Some? || (reach.Unreachable? && Permanent(reach.category))
    ensures policy.Some? ==> answer == Some(Drop(PolicyResult(policy.value)))
    ensures policy.None? && reach.Unreachable? && Permanent(reach.category) ==>
      answer == Some(Drop(Result(Failed, Some(reach.category))))
  {
    if policy.Some? { return Some(Drop(PolicyResult(policy.value))); }
    match reach {
      case FetchCrashed => return None;
      case Reachable => return Some(Keep);
      case Unreachable(category) =>
        if Permanent(category) { return Some(Drop(Result(Failed, Some(category)))); }
        return Some(Keep);
    }
  }

  // --- processing ---

  // How deploying an authored script goes.
  datatype Deployment = Assigned | NotAssigned | DeployCrashed

  // Whether storing the result succeeds, and storing the failure that an exception leaves.
  datatype Storing = Storing(result: bool, failure: bool)

  // The result that is stored when nothing else goes wrong: a script that awaits review is deployed
  // at once, except on a dry run.
  function AfterDeploy(r: Result, dryRun: bool, deployment: Deployment): Result {
    if dryRun || !r.status.AwaitingReview? then r
    else match deployment
      case Assigned => Result(Deployed, None)
      case NotAssigned => Result(Failed, Some(ValidationFailed))
      case DeployCrashed => Result(Failed, Some(AgentError))
  }

  // Every way one source can be processed ends in an outcome the run allows, after at most one agent
  // call and one for each repair. Its row is written unless both attempts to write it fail.
  method ProcessOne(cfg: Config, world: Surroundings, smokeTest: bool, deployment: Deployment, storing: Storing)
    returns (o: Outcome, ghost processed: Option<Result>)
    ensures ValidOutcome(cfg, o)
    ensures match GateResult(world)
            case Some(decided) => processed == decided && o.calls == 0
            case None =>
              && RanFor(world.turns, o.calls, cfg.maxRepairs, smokeTest)
              && processed == TurnResult(world.turns(o.calls - 1), smokeTest)
    ensures
      var authored := processed.Some? && processed.value.status.AwaitingReview? && storing.result;
      && (o.result.status.Deployed? <==> authored && !cfg.dryRun && deployment.Assigned?)
      && (o.result.status.AwaitingReview? <==> authored && cfg.dryRun)
      && (authored && o.result.status.Failed? ==>
            o.result.category == Some(if deployment.NotAssigned? then ValidationFailed else AgentError))
    ensures o.result.status.SkippedReview? <==>
      processed.Some? && processed.value.status.SkippedReview? && storing.result
    ensures o.persisted <==> (processed.Some? && storing.result) || storing.failure
    ensures o.result == if processed.Some? && storing.result
                        then AfterDeploy(processed.value, cfg.dryRun, deployment)
                        else Result(Failed, Some(AgentError))
  {
    var result, calls := ProcessSource(world, cfg.maxRepairs, smokeTest);
    processed := result;
    if result.Some? {
      var r := result.value;
      if !cfg.dryRun && r.status.AwaitingReview? {
        match deployment {
          case Assigned => r := Result(Deployed, None);
          case NotAssigned => r := Result(Failed, Some(ValidationFailed));
          case DeployCrashed => r := Result(Failed, Some(AgentError));
        }
      }
      if storing.result { return Outcome(r, calls, true), processed; }
    }
    return Outcome(Result(Failed, Some(AgentError)), calls, storing.failure), processed;
  }
}
