/** Where published rows come from: every row of every version goes back to a proper approval. */
module ScheduleProvenance {
  import opened Wrappers
  import opened ScheduleModel
  import opened ScheduleSpec
  import opened ScheduleInvariants
  import opened ScheduleFeed

  // In this state the row's candidate was approved with the row's content, needed no human and had
  // a public source.
  ghost predicate ApprovedOrigin(cfg: Settings, s: State, k: Key, row: Occurrence) {
    && row.candidateId in s.candidates
    && var c := s.candidates[row.candidateId];
       && c.status == Approved && c.mosqueId.Some? && KeyOf(c) == k
       && c.sourceId == row.sourceId && c.jamaat == Some(row.jamaat) && c.start == row.start
       && c.sessionLabel == row.sessionLabel && c.timezone == row.timezone
       && IsPublic(s.sources, c.sourceId) && !NeedsHuman(cfg, s, c)
  }

  lemma BatchMemberIsApproved(s: State, f: Filter, cfg: Settings, clock: Clock, id: Id)
    requires ApprovedSafe(cfg, s) && id in Batch(s, f, cfg, clock)
    ensures
      var c := s.candidates[id];
      c.status == Approved && c.mosqueId.Some? && IsPublic(s.sources, c.sourceId) && !NeedsHuman(cfg, s, c)
  {
    hide ErrorsIn, NeedsHuman;
  }

  // A row of a new version is carried unchanged, or its candidate is approved right now.
  lemma NewRowOrigin(cfg: Settings, s: State, f: Filter, clock: Clock, s': State, k: Key)
    requires ApprovedSafe(cfg, s) && PublishStep(s, f, cfg, clock, s') && s' != s && k in Latest(s')
    ensures (k in Latest(s) && Latest(s')[k] == Latest(s)[k]) || ApprovedOrigin(cfg, s, k, Latest(s')[k])
  {
    hide ApprovedSafe, Batch, Commits, NeedsHuman, OwedEvents, WithSuperseded, HasBatchRows, CarriedKeys;
    BatchIsReady(s, f, cfg, clock);
    var batch := Batch(s, f, cfg, clock);
    if k in BatchKeys(s, batch) {
      var id :| id in batch && KeyOf(s.candidates[id]) == k;
      BatchIsPublishedAsApproved(s, f, batch, s', id);
      BatchMemberIsApproved(s, f, cfg, clock, id);
    } else {
      CarriedIsKept(s, f, batch, Latest(s'), k);
    }
  }

  lemma CarriedIsKept(s: State, f: Filter, batch: set<Id>, rows: map<Key, Occurrence>, k: Key)
    requires Ready(s, batch) && NewRows(s, f, batch, rows) && k in rows && k !in BatchKeys(s, batch)
    ensures k in Latest(s) && rows[k] == Latest(s)[k]
  {
    hide HasBatchRows, BatchKeys;
    assert k in CarriedKeys(s, f, batch);
  }

  lemma VersionsGrowByPublish(cfg: Settings, op: Op, s: State, s': State)
    requires Step(cfg, op, s, s')
    ensures s'.versions == s.versions || (op.Publish? && s' != s && |s'.versions| == |s.versions| + 1
                                          && s'.versions[..|s.versions|] == s.versions)
  {
    hide ErrorsIn, EvaluatedStatus, Batch, Commits, NewRows, OwedEvents, UpsertOver, ValidatedRows, Approvable,
      WithSuperseded;
  }

  // Every row of every version of every run, however often it was carried, was once the content of
  // an approved candidate of a public source that needed no human.
  lemma {:induction false} EveryRowWasApproved(
    cfg: Settings, states: seq<State>, ops: seq<Op>, i: nat, n: nat, k: Key) returns (j: nat)
    requires IsRun(cfg, states, ops) && i < |states| && n < |states[i].versions| && k in states[i].versions[n].rows
    ensures j < i && ApprovedOrigin(cfg, states[j], k, states[i].versions[n].rows[k])
  {
    hide Step, ApprovedOrigin, ActiveUnique, ApprovedSafe, SnapshotsSafe;
    assert i > 0;
    var s, s', op := states[i - 1], states[i], ops[i - 1];
    assert Step(cfg, op, s, s');
    VersionsGrowByPublish(cfg, op, s, s');
    if n < |s.versions| {
      assert s'.versions[n] == s'.versions[..|s.versions|][n] == s.versions[n];
      j := EveryRowWasApproved(cfg, states, ops, i - 1, n, k);
    } else {
      EveryRunIsSafe(cfg, states, ops, i - 1);
      PublishOrigin(cfg, op, s, s', k);
      if k in Latest(s) && Latest(s')[k] == Latest(s)[k] {
        j := EveryRowWasApproved(cfg, states, ops, i - 1, |s.versions| - 1, k);
      } else {
        j := i - 1;
      }
    }
  }

  lemma PublishOrigin(cfg: Settings, op: Op, s: State, s': State, k: Key)
    requires ApprovedSafe(cfg, s) && Step(cfg, op, s, s') && op.Publish? && s' != s && k in Latest(s')
    ensures (k in Latest(s) && Latest(s')[k] == Latest(s)[k]) || ApprovedOrigin(cfg, s, k, Latest(s')[k])
  {
    hide ApprovedSafe, PublishStep, ApprovedOrigin;
    NewRowOrigin(cfg, s, op.filter, op.clock, s', k);
  }
}
