/**
 What a step leaves behind, said about the tables alone: what an upload turns into, and when a row
 passes evaluation.
 */
module ScheduleEffects {
  import opened Wrappers
  import opened ScheduleModel
  import opened ScheduleSpec
  import opened ScheduleInvariants
  import opened ScheduleFeed

  // --- upsert ---

  // The row says what the upload says, for the mosque, source and session it names.
  predicate Shows(c: Candidate, u: UpsertArgs) {
    && c.mosqueId == Some(u.mosqueId) && c.sourceId == u.sourceId
    && c.date == u.date && c.prayer == u.prayer && c.session == u.session
    && c.start == u.start && c.jamaat == Some(u.jamaat) && c.sessionLabel == u.sessionLabel
    && c.timezone == u.timezone && c.runId == u.runId
  }

  // What the upload leaves in `id`: a row that showed it already stays as it was, approval and
  // evidence included; a row written for it awaits approval with the new evidence.
  ghost predicate Holds(s: State, u: UpsertArgs, freshId: Id, s': State, id: Id)
    requires u.sourceId in s.sources && id in s'.candidates
  {
    var c := s'.candidates[id];
    && Active(c) && Shows(c, u)
    && if id in s.candidates
       then
         var before := s.candidates[id];
         && Active(before) && before.runId == u.runId && c.confidence == before.confidence
         && if Shows(before, u) then c == before else WrittenFor(c, u)
       else id == freshId && c.confidence == s.sources[u.sourceId].confidence && WrittenFor(c, u)
  }

  predicate WrittenFor(c: Candidate, u: UpsertArgs) {
    c.status == Pending && c.evidence == u.evidence && c.errors == []
  }

  // An active row of an earlier run that stood for the same session.
  predicate GivesWay(before: Candidate, after: Candidate, u: UpsertArgs) {
    && Active(before) && before.runId != u.runId && NaturalKeyOf(before) == Some(UpsertKey(u))
    && after == before.(status := Superseded)
  }

  // An upload ends as one active row that shows it; at most a row of an earlier run gives way to it
  // and nothing else changes.
  lemma UpsertLeavesUpload(s: State, u: UpsertArgs, freshId: Id, s': State) returns (id: Id)
    requires UpsertStep(s, u, freshId, s')
    ensures id in s'.candidates && Holds(s, u, freshId, s', id)
    ensures s' == s.(candidates := s'.candidates) && s'.candidates.Keys == s.candidates.Keys + {id}
    ensures forall other :: other in s.candidates && other != id ==>
      s'.candidates[other] == s.candidates[other] || GivesWay(s.candidates[other], s'.candidates[other], u)
  {
    var twins := ActiveTwins(s.candidates, u);
    var source := s.sources[u.sourceId];
    id := freshId;
    if twins != {} {
      var e :| e in twins && s'.candidates == UpsertOver(s.candidates, e, u, freshId, source);
      if s.candidates[e].runId == u.runId { id := e; }
    }
  }

  // In a reachable state it is then the only active row of its key.
  lemma UploadStandsAlone(s: State, u: UpsertArgs, freshId: Id, s': State, id: Id, other: Id)
    requires ActiveUnique(s) && UpsertStep(s, u, freshId, s')
    requires id in s'.candidates && Active(s'.candidates[id]) && Shows(s'.candidates[id], u)
    requires other in s'.candidates && Rivals(s'.candidates[other], s'.candidates[id])
    ensures other == id
  {
    hide UpsertStep;
    UpsertKeepsUnique(s, u, freshId, s');
    assert !Twins(s'.candidates, other, id);
  }

  // --- evaluation ---

  // What a row must be to be published: placed and timed, in a known zone and near today there, a
  // Friday for Jumuah (day 5 was one), and alone among the active rows of its natural key.
  predicate Sound(s: State, id: Id, cfg: Settings, clock: Clock)
    requires id in s.candidates
  {
    var c := s.candidates[id];
    var zone := if c.timezone == "" then "Europe/London" else c.timezone;
    && c.mosqueId.Some? && c.jamaat.Some? && c.session >= 1
    && (c.start.Some? ==> c.start.value <= c.jamaat.value)
    && zone in clock && -cfg.pastDays <= c.date - clock[zone] <= cfg.futureDays
    && (c.prayer == Jumuah ==> (c.date - 5) % 7 == 0)
    && forall other :: other in s.candidates && Rivals(s.candidates[other], c) ==> other == id
  }

  // Two rows that would stand for the same session of the same mosque and source.
  predicate Rivals(a: Candidate, b: Candidate) {
    && (a.status == Pending || a.status == Approved)
    && a.mosqueId.Some? && a.mosqueId == b.mosqueId && a.sourceId == b.sourceId
    && a.date == b.date && a.prayer == b.prayer && a.session == b.session
  }

  lemma NoErrorsExactly(s: State, id: Id, cfg: Settings, clock: Clock)
    requires id in s.candidates
    ensures ErrorsIn(s, id, cfg, clock) == [] <==> Sound(s, id, cfg, clock)
  {
    var c, d := s.candidates[id], Duplicates(s.candidates, id);
    assert forall code :: code in ErrorsIn(s, id, cfg, clock) <==> Flawed(code, c, d, cfg, clock) by {
      forall code ensures code in ErrorsIn(s, id, cfg, clock) <==> Flawed(code, c, d, cfg, clock) {
        ErrorsExact(c, d, cfg, clock, code);
      }
    }
    NoFlawExactly(s, id, cfg, clock);
    hide Flawed, Sound, ErrorsOf;
    var errors := ErrorsIn(s, id, cfg, clock);
    assert errors != [] ==> errors[0] in errors;
  }

  lemma NoFlawExactly(s: State, id: Id, cfg: Settings, clock: Clock)
    requires id in s.candidates
    ensures (forall code :: !Flawed(code, s.candidates[id], Duplicates(s.candidates, id), cfg, clock))
      <==> Sound(s, id, cfg, clock)
  {
    var c, d := s.candidates[id], Duplicates(s.candidates, id);
    forall other | other in s.candidates && other != id ensures other in d <==> Rivals(s.candidates[other], c) {
    }
    if forall code :: !Flawed(code, c, d, cfg, clock) {
      assert !Flawed(InvalidTimezone, c, d, cfg, clock) && !Flawed(MissingMosque, c, d, cfg, clock);
      assert !Flawed(MissingJamaat, c, d, cfg, clock) && !Flawed(InvalidSessionNumber, c, d, cfg, clock);
      assert !Flawed(DateOutOfRange, c, d, cfg, clock) && !Flawed(JumuahNotFriday, c, d, cfg, clock);
      assert !Flawed(JamaatBeforeStart, c, d, cfg, clock) && !Flawed(DuplicateSession, c, d, cfg, clock);
    }
  }

  // A row is approved exactly when it is sound and needs no human; it is rejected exactly when it is
  // not sound, and waits otherwise.
  lemma EvaluationExact(s: State, id: Id, cfg: Settings, clock: Clock)
    requires id in s.candidates && s.candidates[id].sourceId in s.sources
    ensures EvaluatedStatus(s, id, cfg, clock) ==
      if !Sound(s, id, cfg, clock) then Rejected
      else if NeedsHuman(cfg, s, s.candidates[id]) then Pending else Approved
  {
    hide Sound, ErrorsIn;
    NoErrorsExactly(s, id, cfg, clock);
  }

  // --- which rows a run reaches ---

  // A filter lets a row through unless it names another source or mosque, or the date is outside.
  predicate FilteredOut(f: Filter, c: Candidate) {
    || (f.sourceId.Some? && f.sourceId.value != c.sourceId)
    || (f.mosqueId.Some? && (c.mosqueId.None? || c.mosqueId.value != f.mosqueId.value))
    || (f.dateFrom.Some? && c.date < f.dateFrom.value)
    || (f.dateTo.Some? && f.dateTo.value < c.date)
  }

  // A validation run gives every active row it selects the errors and, unless it is a dry run, the
  // status of the tables before it; every other row, and a row without a source, stays as it was.
  lemma ValidationReaches(
    s: State, v: Selection, updateStatus: bool, cfg: Settings, clock: Clock, s': State, id: Id)
    requires ValidateStep(s, v, updateStatus, cfg, clock, s') && id in s.candidates
    ensures id in s'.candidates
    ensures
      var c, c' := s.candidates[id], s'.candidates[id];
      if !(c.status == Pending || c.status == Approved) || c.sourceId !in s.sources || FilteredOut(v.filter, c)
         || (v.sourceIds != {} && c.sourceId !in v.sourceIds)
      then c' == c
      else
        && c' == c.(errors := c'.errors, status := c'.status)
        && (c'.errors == [] <==> Sound(s, id, cfg, clock))
        && c'.status ==
             if !updateStatus then c.status
             else if !Sound(s, id, cfg, clock) then Rejected
             else if NeedsHuman(cfg, s, c) then Pending else Approved
  {
    hide ErrorsIn, EvaluatedStatus, Sound, NeedsHuman;
    NoErrorsExactly(s, id, cfg, clock);
    if s.candidates[id].sourceId in s.sources {
      EvaluationExact(s, id, cfg, clock);
    }
  }

  // A hand approval goes through exactly for a row of a public source that would be approved without
  // one; otherwise nothing changes.
  lemma ApprovalExact(s: State, id: Id, cfg: Settings, clock: Clock, s': State)
    requires ApproveStep(s, id, cfg, clock, s')
    ensures
      if id in s.candidates && PublicSource(s, s.candidates[id]) && Sound(s, id, cfg, clock)
         && !NeedsHuman(cfg, s, s.candidates[id])
      then
        var c := s.candidates[id];
        s'.candidates == s.candidates[id := c.(status := Approved, errors := [])]
        && s' == s.(candidates := s'.candidates)
      else s' == s
  {
    hide ErrorsIn, EvaluatedStatus, Sound;
    if id in s.candidates && s.candidates[id].sourceId in s.sources {
      EvaluationExact(s, id, cfg, clock);
    }
  }

  predicate PublicSource(s: State, c: Candidate) {
    c.sourceId in s.sources && s.sources[c.sourceId].policy == PublicRedistributionAllowed
  }

  predicate ReadByAi(s: State, c: Candidate) {
    c.runId.Some? && c.runId.value in s.runs && s.runs[c.runId.value] == Ai
  }

  // A publish takes exactly the approved rows within its filter that are still sound, of an existing
  // mosque and a public source, read by AI only where that may be published.
  lemma BatchExact(s: State, f: Filter, cfg: Settings, clock: Clock, id: Id)
    ensures id in Batch(s, f, cfg, clock) <==>
      && id in s.candidates
      && var c := s.candidates[id];
         && c.status == Approved && !FilteredOut(f, c) && Sound(s, id, cfg, clock)
         && c.mosqueId.value in s.mosques && PublicSource(s, c) && (ReadByAi(s, c) ==> cfg.publishAllowAi)
  {
    hide ErrorsIn;
    if id in s.candidates {
      NoErrorsExactly(s, id, cfg, clock);
    }
  }

  // --- when a publish goes through ---

  predicate HasMosque(s: State, sourceId: Id) {
    sourceId in s.sources && s.sources[sourceId].mosqueId.Some?
  }

  predicate SameSession(a: Candidate, b: Candidate) {
    a.mosqueId == b.mosqueId && a.date == b.date && a.prayer == b.prayer && a.session == b.session
  }

  predicate StandsUnder(c: Candidate, k: Key) {
    c.mosqueId == Some(k.mosqueId) && c.date == k.date && c.prayer == k.prayer && c.session == k.session
  }

  // No two rows of the batch stand for one session.
  predicate OneRowEach(s: State, batch: set<Id>)
    requires batch <= s.candidates.Keys
  {
    forall a, b :: a in batch && b in batch && SameSession(s.candidates[a], s.candidates[b]) ==> a == b
  }

  // With a filter on a source, the batch writes over no row of another one.
  predicate WritesOnlyItsOwn(s: State, f: Filter, batch: set<Id>)
    requires batch <= s.candidates.Keys
  {
    f.sourceId.Some? ==> forall id, k ::
      id in batch && k in Previous(s) && StandsUnder(s.candidates[id], k) ==>
        Previous(s)[k].sourceId == f.sourceId.value
  }

  // The source of every row of the new version has a mosque: those of the batch and, with a filter,
  // those of the previous rows it does not write.
  predicate SourcesPlaced(s: State, f: Filter, batch: set<Id>)
    requires batch <= s.candidates.Keys
  {
    && (forall id :: id in batch ==> HasMosque(s, s.candidates[id].sourceId))
    && (f != NO_FILTER ==> forall k :: k in Previous(s) ==>
          || HasMosque(s, Previous(s)[k].sourceId)
          || exists id :: id in batch && StandsUnder(s.candidates[id], k))
  }

  // A publish adds a version exactly when it has rows to publish and none of the three stands in its
  // way; otherwise every table is as before.
  lemma PublishCommitsExactly(s: State, f: Filter, cfg: Settings, clock: Clock, s': State)
    requires PublishStep(s, f, cfg, clock, s')
    ensures
      var batch := Batch(s, f, cfg, clock);
      if batch != {} && OneRowEach(s, batch) && WritesOnlyItsOwn(s, f, batch) && SourcesPlaced(s, f, batch)
      then
        && |s'.versions| == |s.versions| + 1
        && s' == s.(candidates := s'.candidates, versions := s'.versions, feed := s'.feed)
      else s' == s
  {
    hide Batch, Published, OneRowEach, WritesOnlyItsOwn, SourcesPlaced, DistinctKeys, NoScopeCollision, AllLinked;
    BatchIsReady(s, f, cfg, clock);
    var batch := Batch(s, f, cfg, clock);
    SessionsAreKeys(s, batch);
    WritesAreInScope(s, f, cfg, clock);
    PlacedAreLinked(s, f, batch);
    if batch != {} && Commits(s, f, batch) { PublishAddsVersion(s, f, batch, s'); }
  }

  lemma PublishAddsVersion(s: State, f: Filter, batch: set<Id>, s': State)
    requires Ready(s, batch) && Published(s, f, batch, s')
    ensures |s'.versions| == |s.versions| + 1
    ensures s' == s.(candidates := s'.candidates, versions := s'.versions, feed := s'.feed)
  {
  }

  lemma SessionsAreKeys(s: State, batch: set<Id>)
    requires Ready(s, batch)
    ensures DistinctKeys(s, batch) <==> OneRowEach(s, batch)
  {
  }

  lemma WritesAreInScope(s: State, f: Filter, cfg: Settings, clock: Clock)
    ensures Ready(s, Batch(s, f, cfg, clock))
    ensures NoScopeCollision(s, f, Batch(s, f, cfg, clock)) <==> WritesOnlyItsOwn(s, f, Batch(s, f, cfg, clock))
  {
    hide Batch, Previous, NoScopeCollision;
    if f.sourceId.None? {
      ScopeNeverCollidesWithoutSource(s, f, cfg, clock);
    } else {
      SourceFilterCollidesExactly(s, f, cfg, clock);
    }
  }

  lemma PlacedAreLinked(s: State, f: Filter, batch: set<Id>)
    requires Ready(s, batch)
    ensures AllLinked(s, f, batch) <==> SourcesPlaced(s, f, batch)
  {
    hide Previous;
    forall k ensures k in BatchKeys(s, batch) <==> exists id :: id in batch && StandsUnder(s.candidates[id], k) {
    }
  }
}
