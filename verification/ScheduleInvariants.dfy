/**
 What every run of the schedule lifecycle keeps: one active candidate per natural key, no
 forbidden approval, and versions made only of safe rows from public sources.
 */
module ScheduleInvariants {
  import opened Wrappers
  import opened ScheduleModel
  import opened ScheduleSpec

  // --- one active candidate per (mosque, source, date, prayer, session) ---

  predicate Twins(candidates: map<Id, Candidate>, a: Id, b: Id)
    requires a in candidates && b in candidates
  {
    && a != b && Active(candidates[a]) && Active(candidates[b])
    && NaturalKeyOf(candidates[a]).Some? && NaturalKeyOf(candidates[a]) == NaturalKeyOf(candidates[b])
  }

  ghost predicate ActiveUnique(s: State) {
    forall a, b :: a in s.candidates && b in s.candidates ==> !Twins(s.candidates, a, b)
  }

  // A change that activates nothing and renames no active row creates no twins.
  lemma FewerActive(s: State, s': State)
    requires ActiveUnique(s)
    requires forall id :: id in s'.candidates && Active(s'.candidates[id]) ==>
      && id in s.candidates && Active(s.candidates[id])
      && NaturalKeyOf(s'.candidates[id]) == NaturalKeyOf(s.candidates[id])
    ensures ActiveUnique(s')
  {
    forall a, b | a in s'.candidates && b in s'.candidates ensures !Twins(s'.candidates, a, b) {
      if Twins(s'.candidates, a, b) { assert Twins(s.candidates, a, b); }
    }
  }

  lemma UpsertKeepsUnique(s: State, u: UpsertArgs, freshId: Id, s': State)
    requires ActiveUnique(s) && UpsertStep(s, u, freshId, s')
    ensures ActiveUnique(s')
  {
    var twins := ActiveTwins(s.candidates, u);
    var source := s.sources[u.sourceId];
    var existing := freshId;
    if twins != {} {
      existing :| existing in twins && s'.candidates == UpsertOver(s.candidates, existing, u, freshId, source);
      forall e | e in twins ensures e == existing {
        assert !Twins(s.candidates, e, existing);
      }
    }
    forall a, b | a in s'.candidates && b in s'.candidates ensures !Twins(s'.candidates, a, b) {
      assert a in s.candidates && b in s.candidates ==> !Twins(s.candidates, a, b);
      var other := if a == freshId then b else a;
      assert (other in s.candidates && Active(s.candidates[other])
              && NaturalKeyOf(s.candidates[other]) == Some(UpsertKey(u))) ==> other in twins;
    }
  }

  // An old row can be approved again only when no active row has its natural key.
  lemma ApproveKeepsUnique(s: State, id: Id, cfg: Settings, clock: Clock, s': State)
    requires ActiveUnique(s) && ApproveStep(s, id, cfg, clock, s')
    ensures ActiveUnique(s')
  {
    if Approvable(s, id, cfg, clock) {
      ErrorsExact(s.candidates[id], Duplicates(s.candidates, id), cfg, clock, DuplicateSession);
      assert Duplicates(s.candidates, id) == {};
      forall a, b | a in s'.candidates && b in s'.candidates ensures !Twins(s'.candidates, a, b) {
        assert !Twins(s.candidates, a, b);
        assert a !in Duplicates(s.candidates, id) && b !in Duplicates(s.candidates, id);
      }
    }
  }

  lemma StepKeepsUnique(cfg: Settings, op: Op, s: State, s': State)
    requires ActiveUnique(s) && Step(cfg, op, s, s')
    ensures ActiveUnique(s')
  {
    hide ActiveUnique, ErrorsIn, EvaluatedStatus, Approvable, Batch, Commits, NewRows, OwedEvents, UpsertOver;
    match op
    case Upsert(u, freshId) => UpsertKeepsUnique(s, u, freshId, s');
    case Approve(id, clock) => ApproveKeepsUnique(s, id, cfg, clock, s');
    case Publish(f, clock) => PublishKeepsUnique(s, f, cfg, clock, s');
    case Environment => FewerActive(s, s');
    case Reject(id) => FewerActive(s, s');
    case Validate(v, updateStatus, clock) => FewerActive(s, s');
  }

  lemma PublishKeepsUnique(s: State, f: Filter, cfg: Settings, clock: Clock, s': State)
    requires ActiveUnique(s) && PublishStep(s, f, cfg, clock, s')
    ensures ActiveUnique(s')
  {
    hide ActiveUnique, Batch, Commits, NewRows, OwedEvents;
    FewerActive(s, s');
  }

  // --- nothing that needs a human is ever approved ---

  // AI extraction, community submissions, and website rows that did not pass the repository gate.
  predicate NeedsHuman(cfg: Settings, s: State, c: Candidate)
    requires c.sourceId in s.sources
  {
    var sourceType := s.sources[c.sourceId].sourceType;
    || (c.runId.Some? && c.runId.value in s.runs && s.runs[c.runId.value] == Ai)
    || sourceType == Community
    || (sourceType == MosqueWebsite
        && !(cfg.autoApprove && c.evidence.contract == Some(REPO_CONTRACT) && c.evidence.gatePassed))
  }

  ghost predicate RowsKnown(s: State) {
    forall id :: id in s.candidates ==>
      var c := s.candidates[id];
      c.sourceId in s.sources && (c.runId.Some? ==> c.runId.value in s.runs)
  }

  ghost predicate ApprovedSafe(cfg: Settings, s: State) {
    && RowsKnown(s)
    && forall id :: id in s.candidates && s.candidates[id].status == Approved ==>
         !NeedsHuman(cfg, s, s.candidates[id])
  }

  lemma ApprovedMeansSafe(cfg: Settings, s: State, id: Id, clock: Clock)
    requires id in s.candidates && s.candidates[id].sourceId in s.sources
    requires EvaluatedStatus(s, id, cfg, clock) == Approved
    ensures !NeedsHuman(cfg, s, s.candidates[id])
  {
    hide ErrorsIn;
  }

  lemma ValidateKeepsApprovedSafe(
    s: State, v: Selection, updateStatus: bool, cfg: Settings, clock: Clock, s': State)
    requires ApprovedSafe(cfg, s) && ValidateStep(s, v, updateStatus, cfg, clock, s')
    ensures ApprovedSafe(cfg, s')
  {
    hide ErrorsIn, EvaluatedStatus;
    forall id | id in s'.candidates && s'.candidates[id].status == Approved
      ensures !NeedsHuman(cfg, s', s'.candidates[id])
    {
      if s'.candidates[id] != s.candidates[id] && updateStatus { ApprovedMeansSafe(cfg, s, id, clock); }
    }
  }

  // A step that approves nothing and changes no approved row keeps approvals safe.
  lemma NoneApproved(cfg: Settings, s: State, s': State)
    requires ApprovedSafe(cfg, s) && RowsKnown(s')
    requires forall id :: id in s.sources ==> id in s'.sources && s'.sources[id].sourceType == s.sources[id].sourceType
    requires forall id :: id in s.runs ==> id in s'.runs && s'.runs[id] == s.runs[id]
    requires forall id :: id in s'.candidates && s'.candidates[id].status == Approved ==>
      id in s.candidates && s'.candidates[id] == s.candidates[id]
    ensures ApprovedSafe(cfg, s')
  {
  }

  lemma ApproveKeepsApprovedSafe(s: State, id: Id, cfg: Settings, clock: Clock, s': State)
    requires ApprovedSafe(cfg, s) && ApproveStep(s, id, cfg, clock, s')
    ensures ApprovedSafe(cfg, s')
  {
    hide ErrorsIn, EvaluatedStatus, PolicyAllows;
    if Approvable(s, id, cfg, clock) { ApprovedMeansSafe(cfg, s, id, clock); }
  }

  lemma UpsertKeepsApprovedSafe(cfg: Settings, s: State, u: UpsertArgs, freshId: Id, s': State)
    requires ApprovedSafe(cfg, s) && UpsertStep(s, u, freshId, s')
    ensures ApprovedSafe(cfg, s')
  {
    hide NeedsHuman;
    NoneApproved(cfg, s, s');
  }

  lemma RejectKeepsApprovedSafe(cfg: Settings, s: State, id: Id, s': State)
    requires ApprovedSafe(cfg, s) && RejectStep(s, id, s')
    ensures ApprovedSafe(cfg, s')
  {
    hide NeedsHuman;
    NoneApproved(cfg, s, s');
  }

  lemma PublishKeepsApprovedSafe(cfg: Settings, s: State, f: Filter, clock: Clock, s': State)
    requires ApprovedSafe(cfg, s) && PublishStep(s, f, cfg, clock, s')
    ensures ApprovedSafe(cfg, s')
  {
    hide NeedsHuman, Batch, Commits, NewRows, OwedEvents;
    NoneApproved(cfg, s, s');
  }

  lemma EnvironmentKeepsApprovedSafe(cfg: Settings, s: State, s': State)
    requires ApprovedSafe(cfg, s) && EnvironmentStep(s, s')
    ensures ApprovedSafe(cfg, s')
  {
    hide NeedsHuman;
    NoneApproved(cfg, s, s');
  }

  lemma StepKeepsApprovedSafe(cfg: Settings, op: Op, s: State, s': State)
    requires ApprovedSafe(cfg, s) && Step(cfg, op, s, s')
    ensures ApprovedSafe(cfg, s')
  {
    hide ApprovedSafe, UpsertStep, ValidateStep, ApproveStep, RejectStep, PublishStep, EnvironmentStep;
    match op
    case Upsert(u, freshId) => UpsertKeepsApprovedSafe(cfg, s, u, freshId, s');
    case Validate(v, updateStatus, clock) => ValidateKeepsApprovedSafe(s, v, updateStatus, cfg, clock, s');
    case Approve(id, clock) => ApproveKeepsApprovedSafe(s, id, cfg, clock, s');
    case Reject(id) => RejectKeepsApprovedSafe(cfg, s, id, s');
    case Publish(f, clock) => PublishKeepsApprovedSafe(cfg, s, f, clock, s');
    case Environment => EnvironmentKeepsApprovedSafe(cfg, s, s');
  }

  function ContentOfCandidate(c: Candidate)
    : (Option<Time>, Option<Time>, Option<string>, string, Evidence, Option<Id>)
  {
    (c.start, c.jamaat, c.sessionLabel, c.timezone, c.evidence, c.runId)
  }

  // Whatever rewrites the content or the evidence of a row leaves it waiting for approval.
  lemma ContentChangeWithdrawsApproval(cfg: Settings, op: Op, s: State, s': State, id: Id)
    requires Step(cfg, op, s, s') && id in s.candidates
    ensures id in s'.candidates
    ensures ContentOfCandidate(s'.candidates[id]) != ContentOfCandidate(s.candidates[id]) ==>
      s'.candidates[id].status == Pending
  {
    hide ErrorsIn, EvaluatedStatus, Batch, Commits, NewRows, OwedEvents, PolicyAllows;
  }

  // --- what versions are made of ---

  predicate SafeRow(k: Key, row: Occurrence) {
    && k.session >= 1
    && (row.start.Some? ==> row.jamaat >= row.start.value)
    && (k.prayer == Jumuah ==> Weekday(k.date) == FRIDAY)
  }

  predicate SafeVersion(v: Version) {
    forall k :: k in v.rows ==> SafeRow(k, v.rows[k]) && v.rows[k].sourceId in v.publicAtWrite
  }

  ghost predicate SnapshotsSafe(s: State) {
    forall i :: 0 <= i < |s.versions| ==> SafeVersion(s.versions[i])
  }

  lemma BatchRowIsSafe(s: State, f: Filter, cfg: Settings, clock: Clock, id: Id)
    requires id in Batch(s, f, cfg, clock) && Ready(s, {id})
    ensures
      var c := s.candidates[id];
      var row := BatchRow(Previous(s), id, c, s.sources[c.sourceId]);
      SafeRow(KeyOf(c), row) && IsPublic(s.sources, row.sourceId)
  {
    hide Previous, ErrorsOf;
    var c := s.candidates[id];
    var d := Duplicates(s.candidates, id);
    ErrorsExact(c, d, cfg, clock, InvalidTimezone);
    ErrorsExact(c, d, cfg, clock, InvalidSessionNumber);
    ErrorsExact(c, d, cfg, clock, JumuahNotFriday);
    ErrorsExact(c, d, cfg, clock, JamaatBeforeStart);
  }

  lemma NewVersionIsSafe(s: State, f: Filter, cfg: Settings, clock: Clock, rows: map<Key, Occurrence>)
    requires SnapshotsSafe(s) && Ready(s, Batch(s, f, cfg, clock)) && NewRows(s, f, Batch(s, f, cfg, clock), rows)
    ensures forall k :: k in rows ==> SafeRow(k, rows[k]) && IsPublic(s.sources, rows[k].sourceId)
  {
    hide Batch, BatchRow, SafeRow;
    var batch := Batch(s, f, cfg, clock);
    forall k | k in rows ensures SafeRow(k, rows[k]) && IsPublic(s.sources, rows[k].sourceId) {
      if k in BatchKeys(s, batch) {
        var id :| id in batch && KeyOf(s.candidates[id]) == k;
        assert RowFor(s, Previous(s), id, rows);
        BatchRowIsSafe(s, f, cfg, clock, id);
      } else {
        assert SafeVersion(s.versions[|s.versions| - 1]);
      }
    }
  }

  lemma StepKeepsSnapshotsSafe(cfg: Settings, op: Op, s: State, s': State)
    requires SnapshotsSafe(s) && Step(cfg, op, s, s')
    ensures SnapshotsSafe(s')
  {
    hide ErrorsIn, EvaluatedStatus, Batch, Commits, NewRows, OwedEvents, ValidatedRows, PolicyAllows, SafeRow,
      UpsertOver;
    if op.Publish? && s' != s {
      BatchIsReady(s, op.filter, cfg, op.clock);
      var n := |s.versions|;
      NewVersionIsSafe(s, op.filter, cfg, op.clock, s'.versions[n].rows);
      assert SafeVersion(s'.versions[n]);
      forall i | 0 <= i < n ensures SafeVersion(s'.versions[i]) {
        assert s'.versions[i] == s'.versions[..n][i];
      }
    }
  }

  // --- runs ---

  ghost predicate Invariant(cfg: Settings, s: State) {
    ActiveUnique(s) && ApprovedSafe(cfg, s) && SnapshotsSafe(s)
  }

  lemma StepKeepsInvariant(cfg: Settings, op: Op, s: State, s': State)
    requires Invariant(cfg, s) && Step(cfg, op, s, s')
    ensures Invariant(cfg, s')
  {
    hide Step, ActiveUnique, ApprovedSafe, SnapshotsSafe;
    StepKeepsUnique(cfg, op, s, s');
    StepKeepsApprovedSafe(cfg, op, s, s');
    StepKeepsSnapshotsSafe(cfg, op, s, s');
  }

  // Every state of every run has at most one active candidate per natural key, approves nothing
  // that needs a human, and holds only safe rows that were public when they were written.
  lemma {:induction false} EveryRunIsSafe(cfg: Settings, states: seq<State>, ops: seq<Op>, i: nat)
    requires IsRun(cfg, states, ops) && i < |states|
    ensures Invariant(cfg, states[i])
  {
    hide Step;
    if i > 0 {
      EveryRunIsSafe(cfg, states, ops, i - 1);
      StepKeepsInvariant(cfg, ops[i - 1], states[i - 1], states[i]);
    }
  }
}
