/** What the counters that a validation or a publish reports stand for. */
module ScheduleCounts {
  import opened Wrappers
  import opened Listing
  import opened ScheduleModel
  import opened ScheduleSpec
  import opened ScheduleStore
  import opened ScheduleFeed
  import opened ScheduleEffects

  ghost predicate Distinct(rows: seq<Id>) {
    |Elems(rows)| == |rows|
  }

  lemma DistinctPrefix(rows: seq<Id>)
    requires rows != [] && Distinct(rows)
    ensures
      var n := |rows| - 1;
      Distinct(rows[..n]) && rows[n] !in rows[..n] && forall id :: id in rows <==> id in rows[..n] || id == rows[n]
  {
    var n := |rows| - 1;
    ListsPrefix(rows, Elems(rows), n);
    assert rows[..n + 1] == rows;
    assert rows[n] !in Elems(rows[..n]);
    assert Elems(rows) == Elems(rows[..n]) + {rows[n]};
  }

  lemma OneMoreIn(before: set<Id>, after: set<Id>, id: Id, joins: bool)
    requires id !in before && forall x :: x in after <==> x in before || (x == id && joins)
    ensures |after| == |before| + One(joins)
  {
    assert after == before + if joins then {id} else {};
  }

  // --- validation ---

  // The rows of known sources that evaluation gives this status.
  ghost function Reaching(s: State, rows: seq<Id>, status: Status, cfg: Settings, clock: Clock): set<Id>
    requires AllIn(rows, s.candidates)
  {
    set id | id in rows && s.candidates[id].sourceId in s.sources && EvaluatedStatus(s, id, cfg, clock) == status
  }

  ghost function Sourceless(s: State, rows: seq<Id>): set<Id>
    requires AllIn(rows, s.candidates)
  {
    set id | id in rows && s.candidates[id].sourceId !in s.sources
  }

  // Each counter is the number of rows that came to that; a dry run counts them without their status.
  lemma {:induction false} TallyCounts(s: State, rows: seq<Id>, updateStatus: bool, cfg: Settings, clock: Clock)
    requires AllIn(rows, s.candidates) && Distinct(rows)
    ensures
      var r := Tally(s, rows, updateStatus, cfg, clock);
      && r.examined == |rows| && r.skipped == |Sourceless(s, rows)|
      && r.approved == (if updateStatus then |Reaching(s, rows, Approved, cfg, clock)| else 0)
      && r.rejected == (if updateStatus then |Reaching(s, rows, Rejected, cfg, clock)| else 0)
      && r.pending == (if updateStatus then |Reaching(s, rows, Pending, cfg, clock)| else 0)
  {
    hide EvaluatedStatus, Distinct;
    if rows != [] {
      var n := |rows| - 1;
      DistinctPrefix(rows);
      TallyCounts(s, rows[..n], updateStatus, cfg, clock);
      SourcelessGrows(s, rows);
      ReachingGrows(s, rows, Approved, cfg, clock);
      ReachingGrows(s, rows, Rejected, cfg, clock);
      ReachingGrows(s, rows, Pending, cfg, clock);
      hide Reaching, Sourceless;
      if s.candidates[rows[n]].sourceId in s.sources {
        EvaluationExact(s, rows[n], cfg, clock);
      }
    }
  }

  lemma SourcelessGrows(s: State, rows: seq<Id>)
    requires AllIn(rows, s.candidates) && rows != [] && Distinct(rows)
    ensures
      var n := |rows| - 1;
      |Sourceless(s, rows)| == |Sourceless(s, rows[..n])| + One(s.candidates[rows[n]].sourceId !in s.sources)
  {
    var n := |rows| - 1;
    DistinctPrefix(rows);
    OneMoreIn(Sourceless(s, rows[..n]), Sourceless(s, rows), rows[n], s.candidates[rows[n]].sourceId !in s.sources);
  }

  lemma ReachingGrows(s: State, rows: seq<Id>, status: Status, cfg: Settings, clock: Clock)
    requires AllIn(rows, s.candidates) && rows != [] && Distinct(rows)
    ensures
      var n := |rows| - 1;
      |Reaching(s, rows, status, cfg, clock)| == |Reaching(s, rows[..n], status, cfg, clock)|
        + One(s.candidates[rows[n]].sourceId in s.sources && EvaluatedStatus(s, rows[n], cfg, clock) == status)
  {
    hide EvaluatedStatus, Distinct;
    var n := |rows| - 1;
    DistinctPrefix(rows);
    OneMoreIn(Reaching(s, rows[..n], status, cfg, clock), Reaching(s, rows, status, cfg, clock), rows[n],
              s.candidates[rows[n]].sourceId in s.sources && EvaluatedStatus(s, rows[n], cfg, clock) == status);
  }

  // --- publication ---

  ghost function Gated(s: State, rows: seq<Id>, gate: Gate, cfg: Settings, clock: Clock): set<Id>
    requires AllIn(rows, s.candidates)
  {
    set id | id in rows && GateOf(s, id, cfg, clock) == gate
  }

  lemma GatedGrows(s: State, rows: seq<Id>, gate: Gate, cfg: Settings, clock: Clock)
    requires AllIn(rows, s.candidates) && rows != [] && Distinct(rows)
    ensures
      var n := |rows| - 1;
      |Gated(s, rows, gate, cfg, clock)| == |Gated(s, rows[..n], gate, cfg, clock)|
        + One(GateOf(s, rows[n], cfg, clock) == gate)
  {
    hide GateOf, Distinct;
    var n := |rows| - 1;
    DistinctPrefix(rows);
    OneMoreIn(Gated(s, rows[..n], gate, cfg, clock), Gated(s, rows, gate, cfg, clock), rows[n],
              GateOf(s, rows[n], cfg, clock) == gate);
  }

  lemma {:induction false} GateCounts(s: State, rows: seq<Id>, gate: Gate, cfg: Settings, clock: Clock)
    requires AllIn(rows, s.candidates) && Distinct(rows)
    ensures CountGate(s, rows, gate, cfg, clock) == |Gated(s, rows, gate, cfg, clock)|
  {
    hide GateOf, Distinct;
    if rows != [] {
      DistinctPrefix(rows);
      GateCounts(s, rows[..|rows| - 1], gate, cfg, clock);
      GatedGrows(s, rows, gate, cfg, clock);
      hide Gated;
    }
  }

  lemma {:induction false} GatesAddUp(s: State, rows: seq<Id>, cfg: Settings, clock: Clock)
    requires AllIn(rows, s.candidates)
    ensures CountGate(s, rows, Pass, cfg, clock) + CountGate(s, rows, SkipPolicy, cfg, clock)
            + CountGate(s, rows, SkipValidation, cfg, clock) == |rows|
  {
    hide GateOf;
    if rows != [] {
      GatesAddUp(s, rows[..|rows| - 1], cfg, clock);
    }
  }

  // The approved rows that may not be published: from a source that is not public, or read by AI where
  // that may not be.
  ghost function Withheld(s: State, rows: seq<Id>, cfg: Settings): set<Id>
    requires AllIn(rows, s.candidates)
  {
    set id | id in rows
      && var c := s.candidates[id];
         && c.mosqueId.Some? && c.mosqueId.value in s.mosques && c.sourceId in s.sources
         && (!PublicSource(s, c) || (ReadByAi(s, c) && !cfg.publishAllowAi))
  }

  lemma SelectedAreDistinct(s: State, f: Filter, rows: seq<Id>)
    requires Lists(rows, (set id | id in s.candidates && PublishSelected(s, f, id)))
    ensures AllIn(rows, s.candidates) && Distinct(rows)
    ensures forall id :: id in rows <==> id in s.candidates && PublishSelected(s, f, id)
  {
    hide PublishSelected;
    var selected := set id | id in s.candidates && PublishSelected(s, f, id);
    forall id ensures id in rows <==> id in selected {
      assert id in rows <==> id in Elems(rows);
    }
    assert forall i :: 0 <= i < |rows| ==> rows[i] in rows;
  }

  lemma GateIs(s: State, id: Id, cfg: Settings, clock: Clock)
    requires id in s.candidates
    ensures GateOf(s, id, cfg, clock) == Pass <==> Publishable(s, id, cfg, clock)
    ensures GateOf(s, id, cfg, clock) == SkipPolicy <==>
      var c := s.candidates[id];
      && c.mosqueId.Some? && c.mosqueId.value in s.mosques && c.sourceId in s.sources
      && (!PublicSource(s, c) || (ReadByAi(s, c) && !cfg.publishAllowAi))
  {
    hide ErrorsIn;
  }

  lemma GatesAre(s: State, f: Filter, rows: seq<Id>, cfg: Settings, clock: Clock)
    requires AllIn(rows, s.candidates)
    requires forall id :: id in rows <==> id in s.candidates && PublishSelected(s, f, id)
    ensures Gated(s, rows, Pass, cfg, clock) == Batch(s, f, cfg, clock)
    ensures Gated(s, rows, SkipPolicy, cfg, clock) == Withheld(s, rows, cfg)
  {
    hide GateOf, ErrorsIn, PublishSelected, Publishable, PublicSource, ReadByAi;
    forall id | id in rows
      ensures GateOf(s, id, cfg, clock) == Pass <==> Publishable(s, id, cfg, clock)
      ensures GateOf(s, id, cfg, clock) == SkipPolicy <==> id in Withheld(s, rows, cfg)
    {
      GateIs(s, id, cfg, clock);
    }
  }

  lemma SelectionCounts(s: State, f: Filter, rows: seq<Id>, cfg: Settings, clock: Clock)
    requires Lists(rows, (set id | id in s.candidates && PublishSelected(s, f, id)))
    ensures AllIn(rows, s.candidates)
    ensures
      var r := SelectionReport(s, rows, cfg, clock);
      && |Batch(s, f, cfg, clock)| + r.skippedPolicy + r.skippedValidation == |rows|
      && r.skippedPolicy == |Withheld(s, rows, cfg)|
      && r == PublishResult(0, r.skippedPolicy, r.skippedValidation, 0, 0, 0)
  {
    hide Batch, Withheld, Gated, CountGate, Lists, PublishSelected, Distinct;
    SelectedAreDistinct(s, f, rows);
    GatesAddUp(s, rows, cfg, clock);
    GateCounts(s, rows, Pass, cfg, clock);
    GateCounts(s, rows, SkipPolicy, cfg, clock);
    GatesAre(s, f, rows, cfg, clock);
  }

  lemma VersionCounts(s: State, f: Filter, batch: set<Id>, s': State)
    requires Ready(s, batch) && DistinctKeys(s, batch) && Published(s, f, batch, s')
    ensures |batch| + |CarriedKeys(s, f, batch)| == |Latest(s')|
    ensures |OwedEvents(s, f, batch)| == |s'.feed| - |s.feed|
    ensures Previous(s).Keys - BatchKeys(s, batch) - CarriedKeys(s, f, batch) == Previous(s).Keys - Latest(s').Keys
  {
    hide Previous, HasBatchRows, WithSuperseded, OwedEvents, DistinctKeys, BatchKeys, KeepsRows, CarriedKeys;
    RowsAreConserved(s, f, batch, s');
  }

  // Every approved row the filter selects is published, skipped for its policy or skipped as invalid,
  // and counted once; what is published and what is carried make up the new version.
  lemma PublishCountsAddUp(
    s: State, f: Filter, rows: seq<Id>, cfg: Settings, clock: Clock, outcome: PublishOutcome, s': State)
    requires Lists(rows, (set id | id in s.candidates && PublishSelected(s, f, id)))
    requires PublishStep(s, f, cfg, clock, s') && PublishReport(s, f, rows, cfg, clock, outcome)
    requires outcome.NothingToPublish? <==> Batch(s, f, cfg, clock) == {}
    ensures AllIn(rows, s.candidates)
    ensures outcome.RolledBack? ==> s' == s
    ensures !outcome.RolledBack? ==>
      var r := outcome.result;
      && r.published + r.skippedPolicy + r.skippedValidation == |rows|
      && r.skippedPolicy == |Withheld(s, rows, cfg)|
      && r.changeEvents == |s'.feed| - |s.feed|
    ensures outcome.NothingToPublish? ==>
      s' == s && outcome.result.published == outcome.result.carriedForward == outcome.result.removedOccurrences == 0
    ensures outcome.Committed? ==>
      var r := outcome.result;
      && r.published == |Batch(s, f, cfg, clock)| && r.published + r.carriedForward == |Latest(s')|
      && r.removedOccurrences == |Previous(s).Keys - Latest(s').Keys|
  {
    hide Batch, Withheld, Published, SelectionReport, Lists, BatchKeys, CarriedKeys, OwedEvents, Previous, Latest,
      DistinctKeys, NoScopeCollision, AllLinked, Ready;
    var batch := Batch(s, f, cfg, clock);
    BatchIsReady(s, f, cfg, clock);
    SelectionCounts(s, f, rows, cfg, clock);
    EmptyHasNone(batch);
    if outcome.Committed? { VersionCounts(s, f, batch, s'); }
  }

  lemma EmptyHasNone(ids: set<Id>)
    ensures ids == {} <==> |ids| == 0
  {
  }
}
