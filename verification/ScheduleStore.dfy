/**
 The schedule services (`candidates.py`, `prefetch.py`, `evaluation.py`, `approval.py`,
 `publication.py`) over the tables they update. A query that returns rows in no stated order
 is a sequence parameter listing those rows; `datetime.now` is the clock parameter.
 */
module ScheduleStore {
  import opened Wrappers
  import opened Listing
  import opened ScheduleModel
  import opened ScheduleSpec

  // What the prefetch hands to each evaluation.
  datatype Context = Context(
    sources: map<Id, Source>, mosques: set<Id>, kinds: map<Id, Option<ExtractionKind>>,
    duplicates: map<Id, set<Id>>)

  datatype Evaluation = Evaluation(errors: seq<ErrorCode>, policyAllowed: bool, status: Status)

  datatype Mode = ValidateMode | ApproveMode | PublishMode

  datatype ValidateResult = ValidateResult(examined: nat, approved: nat, rejected: nat, pending: nat, skipped: nat)

  datatype PublishResult = PublishResult(
    published: nat, skippedPolicy: nat, skippedValidation: nat, carriedForward: nat,
    removedOccurrences: nat, changeEvents: nat)

  datatype PublishOutcome = NothingToPublish(result: PublishResult) | RolledBack | Committed(result: PublishResult)

  ghost predicate ContextFor(s: State, ids: set<Id>, context: Context)
    requires forall id :: id in ids ==> id in s.candidates
  {
    && (forall id :: id in ids ==>
          var c := s.candidates[id];
          && (c.sourceId in context.sources <==> c.sourceId in s.sources)
          && (c.sourceId in s.sources ==> context.sources[c.sourceId] == s.sources[c.sourceId])
          && (c.mosqueId.Some? ==> (c.mosqueId.value in context.mosques <==> c.mosqueId.value in s.mosques))
          && id in context.kinds && context.kinds[id] == KindOf(s.runs, c)
          && id in context.duplicates && context.duplicates[id] == Duplicates(s.candidates, id))
  }

  // --- counters of a validation batch, row by row ---

  function Counted(r: ValidateResult, s: State, id: Id, updateStatus: bool, cfg: Settings, clock: Clock): ValidateResult
    requires id in s.candidates
  {
    var r := r.(examined := r.examined + 1);
    if s.candidates[id].sourceId !in s.sources then r.(skipped := r.skipped + 1)
    else if !updateStatus then r
    else match EvaluatedStatus(s, id, cfg, clock)
      case Approved => r.(approved := r.approved + 1)
      case Rejected => r.(rejected := r.rejected + 1)
      case _ => r.(pending := r.pending + 1)
  }

  ghost predicate AllIn(ids: seq<Id>, candidates: map<Id, Candidate>) {
    forall i :: 0 <= i < |ids| ==> ids[i] in candidates
  }

  function Tally(s: State, rows: seq<Id>, updateStatus: bool, cfg: Settings, clock: Clock): ValidateResult
    requires forall i :: 0 <= i < |rows| ==> rows[i] in s.candidates
  {
    if rows == [] then ValidateResult(0, 0, 0, 0, 0)
    else Counted(Tally(s, rows[..|rows| - 1], updateStatus, cfg, clock), s, rows[|rows| - 1], updateStatus, cfg, clock)
  }

  lemma {:induction false} TallyAccountsForEveryRow(s: State, rows: seq<Id>, cfg: Settings, clock: Clock)
    requires AllIn(rows, s.candidates)
    ensures var r := Tally(s, rows, true, cfg, clock);
      r.examined == |rows| == r.approved + r.rejected + r.pending + r.skipped
  {
    if rows != [] { TallyAccountsForEveryRow(s, rows[..|rows| - 1], cfg, clock); }
  }

  lemma ValidatedRowsGrow(s: State, done: set<Id>, id: Id, updateStatus: bool, cfg: Settings, clock: Clock)
    requires id in s.candidates
    ensures ValidatedRows(s, done + {id}, updateStatus, cfg, clock) ==
      if s.candidates[id].sourceId in s.sources
      then ValidatedRows(s, done, updateStatus, cfg, clock)[id := Validated(s, id, updateStatus, cfg, clock)]
      else ValidatedRows(s, done, updateStatus, cfg, clock)
  {
  }

  ghost predicate InGroup(candidates: map<Id, Candidate>, mosqueIds: set<Id>, id: Id, k: NaturalKey) {
    && id in candidates && Active(candidates[id])
    && NaturalKeyOf(candidates[id]) == Some(k) && k.mosqueId in mosqueIds
  }

  function GroupOf(byKey: map<NaturalKey, set<Id>>, key: Option<NaturalKey>): set<Id> {
    if key.Some? && key.value in byKey then byKey[key.value] else {}
  }

  // Looking a row up in the index gives the pairwise definition of its duplicates.
  lemma GroupIsDuplicates(
    candidates: map<Id, Candidate>, mosqueIds: set<Id>, byKey: map<NaturalKey, set<Id>>, id: Id)
    requires id in candidates
    requires candidates[id].mosqueId.Some? ==> candidates[id].mosqueId.value in mosqueIds
    requires forall k, d :: k in byKey && d in byKey[k] ==> InGroup(candidates, mosqueIds, d, k)
    requires forall k, d :: InGroup(candidates, mosqueIds, d, k) ==> k in byKey && d in byKey[k]
    ensures GroupOf(byKey, NaturalKeyOf(candidates[id])) - {id} == Duplicates(candidates, id)
  {
    var key := NaturalKeyOf(candidates[id]);
    if key.Some? {
      forall d ensures d in GroupOf(byKey, key) - {id} <==> d in Duplicates(candidates, id) {
        assert InGroup(candidates, mosqueIds, d, key.value) <==>
               d in candidates && Active(candidates[d]) && NaturalKeyOf(candidates[d]) == key;
      }
    }
  }

  class Store {
    var sources: map<Id, Source>
    var mosques: set<Id>
    var runs: map<Id, ExtractionKind>
    var candidates: map<Id, Candidate>
    var versions: seq<Version>
    var feed: seq<Event>

    function Tables(): State
      reads this
    {
      State(sources, mosques, runs, candidates, versions, feed)
    }

    // --- prefetch.py ---

    // The active rows of the given mosques, grouped by natural key.
    method GroupByNaturalKey(mosqueIds: set<Id>) returns (byKey: map<NaturalKey, set<Id>>)
      ensures forall k, id :: k in byKey && id in byKey[k] ==> InGroup(candidates, mosqueIds, id, k)
      ensures forall k, id :: InGroup(candidates, mosqueIds, id, k) ==> k in byKey && id in byKey[k]
    {
      var active := set id | id in candidates && Active(candidates[id])
                             && candidates[id].mosqueId.Some? && candidates[id].mosqueId.value in mosqueIds;
      byKey := map[];
      var rest := active;
      while rest != {}
        invariant rest <= active
        invariant forall k, id :: k in byKey && id in byKey[k] ==> InGroup(candidates, mosqueIds, id, k)
        invariant forall k, id :: InGroup(candidates, mosqueIds, id, k) && id !in rest ==> k in byKey && id in byKey[k]
      {
        var row :| row in rest;
        var key := NaturalKeyOf(candidates[row]).value;
        var before := if key in byKey then byKey[key] else {};
        byKey := byKey[key := before + {row}];
        rest := rest - {row};
      }
    }

    method BuildDuplicateMap(ids: seq<Id>) returns (duplicates: map<Id, set<Id>>)
      requires AllIn(ids, candidates)
      ensures duplicates.Keys == Elems(ids)
      ensures forall id :: id in duplicates ==> id in candidates && duplicates[id] == Duplicates(candidates, id)
    {
      var mosqueIds := set id | id in ids && candidates[id].mosqueId.Some? :: candidates[id].mosqueId.value;
      forall id | id in ids ensures candidates[id].mosqueId.Some? ==> candidates[id].mosqueId.value in mosqueIds {}
      if mosqueIds == {} {
        duplicates := map id | id in ids :: {};
        return;
      }
      var byKey := GroupByNaturalKey(mosqueIds);
      duplicates := map id | id in ids :: GroupOf(byKey, NaturalKeyOf(candidates[id])) - {id};
      forall id | id in ids ensures duplicates[id] == Duplicates(candidates, id) {
        GroupIsDuplicates(candidates, mosqueIds, byKey, id);
      }
    }

    method BuildKinds(ids: seq<Id>) returns (kinds: map<Id, Option<ExtractionKind>>)
      requires AllIn(ids, candidates)
      ensures kinds.Keys == Elems(ids)
      ensures forall id :: id in kinds ==> id in candidates && kinds[id] == KindOf(runs, candidates[id])
    {
      var runIds := set id | id in ids && candidates[id].runId.Some? :: candidates[id].runId.value;
      var runKinds := map r | r in runIds && r in runs :: runs[r];
      kinds := map[];
      for i := 0 to |ids|
        invariant kinds.Keys == Elems(ids[..i])
        invariant forall id :: id in kinds ==> id in candidates && kinds[id] == KindOf(runs, candidates[id])
      {
        var c := candidates[ids[i]];
        if c.runId.None? {
          kinds := kinds[ids[i] := None];
        } else {
          assert c.runId.value in runIds;
          kinds := kinds[ids[i] := if c.runId.value in runKinds then Some(runKinds[c.runId.value]) else None];
        }
        assert ids[..i + 1] == ids[..i] + [ids[i]];
      }
      assert ids[..|ids|] == ids;
    }

    method BuildContext(ids: seq<Id>) returns (context: Context)
      requires AllIn(ids, candidates)
      ensures ContextFor(Tables(), Elems(ids), context)
    {
      var sourceIds := set id | id in ids :: candidates[id].sourceId;
      var mosqueIds := set id | id in ids && candidates[id].mosqueId.Some? :: candidates[id].mosqueId.value;
      var kinds := BuildKinds(ids);
      var duplicates := BuildDuplicateMap(ids);
      context := Context(
        map id | id in sourceIds && id in sources :: sources[id],
        (set id | id in mosqueIds && id in mosques), kinds, duplicates);
      forall id | id in Elems(ids)
        ensures candidates[id].sourceId in sourceIds
        ensures candidates[id].mosqueId.Some? ==> candidates[id].mosqueId.value in mosqueIds
      {}
    }

    // --- validation.py and evaluation.py ---

    method ValidateCandidate(c: Candidate, duplicates: set<Id>, cfg: Settings, clock: Clock)
      returns (issues: seq<ErrorCode>)
      ensures issues == ErrorsOf(c, duplicates, cfg, clock)
    {
      issues := [];
      var tz := if c.timezone == "" then "Europe/London" else c.timezone;
      if tz !in clock { issues := issues + [InvalidTimezone]; }
      if c.mosqueId.None? { issues := issues + [MissingMosque]; }
      if c.jamaat.None? { issues := issues + [MissingJamaat]; }
      if c.session < 1 { issues := issues + [InvalidSessionNumber]; }
      assert issues == RowErrors(c, cfg, clock);
      if tz in clock {
        var earliest, latest := clock[tz] - cfg.pastDays, clock[tz] + cfg.futureDays;
        if c.date < earliest || c.date > latest { issues := issues + [DateOutOfRange]; }
        if c.prayer == Jumuah && Weekday(c.date) != FRIDAY { issues := issues + [JumuahNotFriday]; }
        if c.start.Some? && c.jamaat.Some? && c.jamaat.value < c.start.value {
          issues := issues + [JamaatBeforeStart];
        }
      }
      assert issues == DayErrors(RowErrors(c, cfg, clock), c, cfg, clock);
      if duplicates != {} { issues := issues + [DuplicateSession]; }
    }

    // `s` is the state the context was read from; the loops that evaluate go on to update later rows.
    method Evaluate(id: Id, c: Candidate, context: Context, mode: Mode, cfg: Settings, clock: Clock, ghost s: State)
      returns (e: Evaluation)
      requires id in s.candidates && s.candidates[id] == c && ContextFor(s, {id}, context)
      ensures c.sourceId !in s.sources ==> e == Evaluation([], false, Rejected)
      ensures c.sourceId in s.sources ==>
        && e.errors == ErrorsIn(s, id, cfg, clock)
        && e.policyAllowed == (mode == ValidateMode || PolicyAllows(s, id, cfg))
        && e.status == EvaluatedStatus(s, id, cfg, clock)
    {
      if c.sourceId !in context.sources {
        return Evaluation([], false, Rejected);
      }
      var source, kind := context.sources[c.sourceId], context.kinds[id];
      var errors := ValidateCandidate(c, context.duplicates[id], cfg, clock);
      var allowed := true;
      if mode == ApproveMode || mode == PublishMode {
        allowed := source.policy == PublicRedistributionAllowed && (kind == Some(Ai) ==> cfg.publishAllowAi);
      }
      e := Evaluation(errors, allowed, StatusAfterValidation(errors, RequiresManualApproval(source, kind, c, cfg)));
    }

    // --- candidates.py ---

    method Upsert(u: UpsertArgs, freshId: Id) returns (changed: bool, skipped: bool)
      requires RefersToRows(Tables(), u) && freshId !in candidates
      modifies this`candidates
      ensures UpsertStep(old(Tables()), u, freshId, Tables())
      ensures changed != skipped && (skipped ==> candidates == old(candidates))
    {
      var twins := ActiveTwins(candidates, u);
      if twins != {} {
        var existing :| existing in twins;
        var c := candidates[existing];
        if c.start == u.start && c.jamaat == Some(u.jamaat) && c.sessionLabel == u.sessionLabel
           && c.timezone == u.timezone && c.runId == u.runId {
          assert candidates == UpsertOver(candidates, existing, u, freshId, sources[u.sourceId]);
          return false, true;
        }
        if c.runId == u.runId {
          c := c.(start := u.start, jamaat := Some(u.jamaat), sessionLabel := u.sessionLabel,
                  timezone := u.timezone, runId := u.runId, evidence := u.evidence, errors := []);
          if c.status == Approved { c := c.(status := Pending); }
          candidates := candidates[existing := c];
          assert candidates == UpsertOver(old(candidates), existing, u, freshId, sources[u.sourceId]);
          return true, false;
        }
        candidates := candidates[existing := c.(status := Superseded)];
        candidates := candidates[freshId := NewCandidate(u, sources[u.sourceId])];
        assert candidates == UpsertOver(old(candidates), existing, u, freshId, sources[u.sourceId]);
        return true, false;
      }
      candidates := candidates[freshId := NewCandidate(u, sources[u.sourceId])];
      return true, false;
    }

    // --- publication.py: validate_candidates ---

    // One turn of the loop: evaluate the row, store its errors and, unless dry, its status.
    method ValidateRow(
      id: Id, context: Context, updateStatus: bool, cfg: Settings, clock: Clock, counters: ValidateResult,
      ghost s: State)
      returns (result: ValidateResult)
      requires id in s.candidates && id in candidates && candidates[id] == s.candidates[id]
      requires ContextFor(s, {id}, context)
      modifies this`candidates
      ensures candidates == if s.candidates[id].sourceId in s.sources
                            then old(candidates)[id := Validated(s, id, updateStatus, cfg, clock)]
                            else old(candidates)
      ensures result == Counted(counters, s, id, updateStatus, cfg, clock)
    {
      result := counters.(examined := counters.examined + 1);
      if candidates[id].sourceId !in context.sources {
        return result.(skipped := result.skipped + 1);
      }
      var e := Evaluate(id, candidates[id], context, ValidateMode, cfg, clock, s);
      candidates := candidates[id := candidates[id].(errors := e.errors)];
      if updateStatus {
        if e.status == Approved { result := result.(approved := result.approved + 1); }
        else if e.status == Rejected { result := result.(rejected := result.rejected + 1); }
        else { result := result.(pending := result.pending + 1); }
        candidates := candidates[id := candidates[id].(status := e.status)];
      }
    }

    method ValidateCandidates(v: Selection, rows: seq<Id>, updateStatus: bool, cfg: Settings, clock: Clock)
      returns (result: ValidateResult)
      requires Lists(rows, (set id | id in candidates && ValidateSelected(Tables(), v, id)))
      modifies this`candidates
      ensures ValidateStep(old(Tables()), v, updateStatus, cfg, clock, Tables())
      ensures AllIn(rows, old(candidates)) && result == Tally(old(Tables()), rows, updateStatus, cfg, clock)
    {
      ghost var selected := set id | id in candidates && ValidateSelected(Tables(), v, id);
      assert forall i :: 0 <= i < |rows| ==> rows[i] in Elems(rows);
      var context := BuildContext(rows);
      result := ValidateRows(rows, context, updateStatus, cfg, clock, Tables(), selected);
    }

    method ValidateRows(
      rows: seq<Id>, context: Context, updateStatus: bool, cfg: Settings, clock: Clock,
      ghost s: State, ghost selected: set<Id>) returns (result: ValidateResult)
      requires s == Tables() && Lists(rows, selected) && selected <= candidates.Keys && AllIn(rows, s.candidates)
      requires ContextFor(s, Elems(rows), context)
      modifies this`candidates
      ensures candidates == ValidatedRows(s, selected, updateStatus, cfg, clock)
      ensures result == Tally(s, rows, updateStatus, cfg, clock)
    {
      hide Counted, Validated, ValidatedRows, ContextFor, Lists;
      result := ValidateResult(0, 0, 0, 0, 0);
      ValidateStart(s, rows, selected, updateStatus, cfg, clock);
      for i := 0 to |rows|
        invariant candidates == ValidatedRows(s, Elems(rows[..i]), updateStatus, cfg, clock)
        invariant result == Tally(s, rows[..i], updateStatus, cfg, clock)
      {
        ValidateTurn(s, selected, rows, i, updateStatus, cfg, clock);
        ContextForOne(s, Elems(rows), context, rows[i]);
        result := ValidateRow(rows[i], context, updateStatus, cfg, clock, result, s);
      }
      assert rows[..|rows|] == rows;
    }

    // --- approval.py and services/schedule_moderation.py ---

    // False stands for the ValueError the source raises; nothing is written then.
    method ApproveCandidate(id: Id, cfg: Settings, clock: Clock) returns (ok: bool)
      modifies this`candidates
      ensures ApproveStep(old(Tables()), id, cfg, clock, Tables())
      ensures ok <==> Approvable(old(Tables()), id, cfg, clock)
    {
      if id !in candidates { return false; }
      var context := BuildContext([id]);
      assert Elems([id]) == {id};
      var e := Evaluate(id, candidates[id], context, ApproveMode, cfg, clock, Tables());
      if !e.policyAllowed { return false; }
      if e.errors != [] { return false; }
      if e.status != Approved { return false; }
      candidates := candidates[id := candidates[id].(errors := e.errors, status := e.status)];
      return true;
    }

    method RejectCandidate(id: Id) returns (ok: bool)
      modifies this`candidates
      ensures RejectStep(old(Tables()), id, Tables())
      ensures ok <==> id in old(candidates)
    {
      if id !in candidates { return false; }
      candidates := candidates[id := candidates[id].(status := Rejected)];
      return true;
    }

    // --- publication.py: publish_candidates ---

    method PublishGate(id: Id, context: Context, cfg: Settings, clock: Clock, ghost s: State) returns (gate: Gate)
      requires s == Tables() && id in candidates && ContextFor(s, {id}, context)
      ensures gate == GateOf(s, id, cfg, clock)
    {
      var c := candidates[id];
      if c.mosqueId.None? { return SkipValidation; }
      if c.sourceId !in context.sources || c.mosqueId.value !in context.mosques { return SkipValidation; }
      var e := Evaluate(id, c, context, PublishMode, cfg, clock, s);
      if !e.policyAllowed { return SkipPolicy; }
      if e.errors != [] { return SkipValidation; }
      return Pass;
    }

    method SelectPublishable(rows: seq<Id>, context: Context, cfg: Settings, clock: Clock, ghost s: State)
      returns (publishable: seq<Id>, skippedPolicy: nat, skippedValidation: nat)
      requires s == Tables() && AllIn(rows, candidates) && ContextFor(s, Elems(rows), context)
      ensures publishable == Passing(s, rows, cfg, clock)
      ensures skippedPolicy == CountGate(s, rows, SkipPolicy, cfg, clock)
      ensures skippedValidation == CountGate(s, rows, SkipValidation, cfg, clock)
    {
      publishable, skippedPolicy, skippedValidation := [], 0, 0;
      for i := 0 to |rows|
        invariant publishable == Passing(s, rows[..i], cfg, clock)
        invariant skippedPolicy == CountGate(s, rows[..i], SkipPolicy, cfg, clock)
        invariant skippedValidation == CountGate(s, rows[..i], SkipValidation, cfg, clock)
      {
        assert rows[i] in Elems(rows);
        assert rows[..i + 1][..i] == rows[..i];
        var gate := PublishGate(rows[i], context, cfg, clock, s);
        match gate {
          case Pass => publishable := publishable + [rows[i]];
          case SkipPolicy => skippedPolicy := skippedPolicy + 1;
          case SkipValidation => skippedValidation := skippedValidation + 1;
        }
      }
      assert rows[..|rows|] == rows;
    }

    // Copies previous rows whose key has no row yet; `scope` restricts the copy to rows in or out of scope.
    static method CarryForward(
      previous: map<Key, Occurrence>, f: Filter, scope: Option<bool>, base: map<Key, Occurrence>)
      returns (rows: map<Key, Occurrence>, carried: nat)
      ensures rows == Carried(previous, Carriable(previous, f, scope, base.Keys), base)
      ensures carried == |Carriable(previous, f, scope, base.Keys)|
    {
      hide InReplaceScope, Carriable, Carried;
      rows, carried := base, 0;
      var rest := previous.Keys;
      CarryStart(previous, f, scope, base);
      while rest != {}
        invariant rest <= previous.Keys
        invariant rows == Carried(previous, Taken(previous, f, scope, base.Keys, rest), base)
        invariant carried == |Taken(previous, f, scope, base.Keys, rest)|
      {
        var key :| key in rest;
        CarryTurn(previous, f, scope, base, rest, key);
        rest := rest - {key};
        if key !in rows && (scope.None? || InReplaceScope(f, key, previous[key]) == scope.value) {
          rows := rows[key := previous[key]];
          carried := carried + 1;
        }
      }
    }

    // Inserts one row per batch member; false stands for the unique-constraint violation.
    method PublishBatchRows(publishable: seq<Id>, previous: map<Key, Occurrence>, base: map<Key, Occurrence>)
      returns (ok: bool, rows: map<Key, Occurrence>, events: seq<Event>, published: nat)
      requires Ready(Tables(), Elems(publishable)) && |Elems(publishable)| == |publishable|
      modifies this`candidates
      ensures ok <==> DistinctKeys(old(Tables()), Elems(publishable))
                      && BatchKeys(old(Tables()), Elems(publishable)) !! base.Keys
      ensures ok ==> candidates == WithSuperseded(old(candidates), Elems(publishable))
      ensures ok ==> BatchRows(old(Tables()), previous, base, Elems(publishable), rows)
      ensures ok ==> Lists(events, NewEvents(old(Tables()), previous, Elems(publishable)))
      ensures ok ==> published == |publishable|
    {
      ghost var s := Tables();
      hide BatchRows, NewEvents, Lists, DistinctKeys, BatchRow, Unchanged, WithSuperseded, BatchKeys;
      rows, events, published := base, [], 0;
      BatchStart(s, previous, base);
      assert Elems(publishable[..0]) == {};
      for i := 0 to |publishable|
        invariant candidates == WithSuperseded(s.candidates, Elems(publishable[..i]))
        invariant Ready(s, Elems(publishable[..i]))
        invariant BatchRows(s, previous, base, Elems(publishable[..i]), rows)
        invariant Lists(events, NewEvents(s, previous, Elems(publishable[..i])))
        invariant published == i
      {
        var id := publishable[i];
        ghost var done := Elems(publishable[..i]);
        BatchTurn(s, publishable, i);
        BatchRowsKeys(s, previous, base, done, rows);
        var c := candidates[id];
        var key := KeyOf(c);
        if key in rows {
          CollisionIsReal(s, base, Elems(publishable), done, id);
          return false, rows, events, published;
        }
        BatchRowsStep(s, previous, base, done, id, rows);
        NewEventsStep(s, previous, done, id, events);
        var row, same := RowOf(id, c, sources[c.sourceId], previous);
        rows := rows[key := row];
        if !same {
          events := events + [Event(OccurrencePublished, key, |versions|)];
        }
        published := published + 1;
        candidates := candidates[id := c.(status := Superseded)];
      }
      assert publishable[..|publishable|] == publishable;
      BatchRowsKeys(s, previous, base, Elems(publishable), rows);
      return true, rows, events, published;
    }

    // The row for one batch member: a copy when no compared field changed, else a new one.
    static method RowOf(id: Id, c: Candidate, source: Source, previous: map<Key, Occurrence>)
      returns (row: Occurrence, same: bool)
      requires c.mosqueId.Some? && c.jamaat.Some?
      ensures same == Unchanged(previous, c) && row == BatchRow(previous, id, c, source)
    {
      var key := KeyOf(c);
      same := key in previous && !Changed(previous[key], c);
      if same {
        row := previous[key].(candidateId := id);
      } else {
        row := Occurrence(c.sourceId, id, c.start, c.jamaat.value, c.sessionLabel, c.timezone,
                          c.confidence, Linkback(c, source));
      }
    }

    static method EmitRemovals(previous: map<Key, Occurrence>, finalKeys: set<Key>, version: nat)
      returns (removals: seq<Event>)
      ensures Lists(removals, RemovalEvents(previous.Keys - finalKeys, version))
      ensures |removals| == |previous.Keys - finalKeys|
    {
      hide RemovalEvents, Lists;
      removals := [];
      NoRemovals(version);
      ghost var gone: set<Key> := {};
      var rest := previous.Keys;
      while rest != {}
        invariant rest <= previous.Keys && gone == previous.Keys - rest - finalKeys
        invariant Lists(removals, RemovalEvents(gone, version)) && |removals| == |gone|
      {
        var key :| key in rest;
        rest := rest - {key};
        if key !in finalKeys {
          OneMoreRemoval(removals, gone, key, version);
          removals := removals + [Event(OccurrenceRemoved, key, version)];
          gone := gone + {key};
        }
      }
    }

    method SelectBatch(f: Filter, rows: seq<Id>, cfg: Settings, clock: Clock, ghost s: State)
      returns (publishable: seq<Id>, result: PublishResult)
      requires s == Tables() && Lists(rows, (set id | id in candidates && PublishSelected(s, f, id)))
      ensures Lists(publishable, Batch(s, f, cfg, clock)) && Ready(s, Batch(s, f, cfg, clock))
      ensures AllIn(rows, candidates) && result == SelectionReport(s, rows, cfg, clock)
    {
      assert forall i :: 0 <= i < |rows| ==> rows[i] in Elems(rows);
      var context := BuildContext(rows);
      var skippedPolicy, skippedValidation;
      publishable, skippedPolicy, skippedValidation := SelectPublishable(rows, context, cfg, clock, s);
      PassingIsBatch(s, f, rows, cfg, clock);
      result := PublishResult(0, skippedPolicy, skippedValidation, 0, 0, 0);
    }

    // The inserts of one publish: carried rows out of scope, the batch, carried rows in scope.
    method AssembleRows(
      f: Filter, publishable: seq<Id>, previous: map<Key, Occurrence>, ghost s: State, ghost batch: set<Id>)
      returns (ok: bool, rows: map<Key, Occurrence>, events: seq<Event>, published: nat, carried: nat)
      requires s == Tables() && previous == Previous(s) && Lists(publishable, batch) && Ready(s, batch)
      modifies this`candidates
      ensures ok <==> DistinctKeys(s, batch) && NoScopeCollision(s, f, batch)
      ensures ok ==> candidates == WithSuperseded(s.candidates, batch) && NewRows(s, f, batch, rows)
      ensures ok ==> Lists(events, NewEvents(s, previous, batch))
      ensures ok ==> published == |batch| && carried == |CarriedKeys(s, f, batch)|
    {
      hide NewRows, BatchRows, Lists, NewEvents, DistinctKeys, NoScopeCollision, BatchKeys, WithSuperseded, Carriable,
        Carried, CarriedKeys;
      rows, carried := map[], 0;
      assert rows.Keys == {};
      if FiltersActive(f) {
        rows, carried := CarryForward(previous, f, Some(false), rows);
      }
      ghost var base := rows;
      ScopeCollisions(s, f, batch, base);
      ListsSize(publishable, batch);
      ok, rows, events, published := PublishBatchRows(publishable, previous, rows);
      if !ok { return; }
      ghost var middle := rows;
      var within := 0;
      if FiltersActive(f) {
        rows, within := CarryForward(previous, f, Some(true), rows);
      }
      carried := carried + within;
      AssembledRows(s, f, batch, base, middle, rows);
    }

    // Those rows and the events they owe.
    method AssembleVersion(
      f: Filter, publishable: seq<Id>, previous: map<Key, Occurrence>, ghost s: State, ghost batch: set<Id>)
      returns (ok: bool, rows: map<Key, Occurrence>, events: seq<Event>, published: nat, carried: nat, removed: nat)
      requires s == Tables() && previous == Previous(s) && Lists(publishable, batch) && Ready(s, batch)
      modifies this`candidates
      ensures ok <==> DistinctKeys(s, batch) && NoScopeCollision(s, f, batch)
      ensures ok ==> candidates == WithSuperseded(s.candidates, batch) && NewRows(s, f, batch, rows)
      ensures ok ==> Lists(events, OwedEvents(s, f, batch))
      ensures ok ==> published == |batch| && carried == |CarriedKeys(s, f, batch)|
      ensures ok ==> removed == |Previous(s).Keys - BatchKeys(s, batch) - CarriedKeys(s, f, batch)|
    {
      hide NewRows, Lists, OwedEvents, NewEvents, RemovalEvents, DistinctKeys, NoScopeCollision, BatchKeys,
        WithSuperseded, CarriedKeys;
      removed := 0;
      ok, rows, events, published, carried := AssembleRows(f, publishable, previous, s, batch);
      if !ok { return; }
      var removals := EmitRemovals(previous, rows.Keys, |versions|);
      EventsSplit(s, f, batch, rows, events, removals);
      events := events + removals;
      removed := |removals|;
    }

    method CommitVersion(
      f: Filter, rows: map<Key, Occurrence>, events: seq<Event>, ghost s: State, ghost batch: set<Id>)
      returns (ok: bool)
      requires Ready(s, batch) && NewRows(s, f, batch, rows) && Lists(events, OwedEvents(s, f, batch))
      requires Tables() == s.(candidates := WithSuperseded(s.candidates, batch))
      modifies this`versions, this`feed
      ensures ok <==> AllLinked(s, f, batch)
      ensures ok ==> Published(s, f, batch, Tables())
      ensures !ok ==> Tables() == old(Tables())
    {
      hide NewRows, OwedEvents, Lists, WithSuperseded, AllLinked, Published;
      LinkedThroughRows(s, f, batch, rows);
      if exists k :: k in rows && !Linked(sources, rows[k].sourceId) {
        return false;
      }
      versions := versions + [Version(rows, (set id | id in sources && IsPublic(sources, id)))];
      feed := feed + events;
      CommittedIsPublished(s, f, batch, rows, events, Tables());
      return true;
    }

    // A publish runs in one transaction: on a unique-constraint violation or a raised error
    // every table is as before. `rows` lists the approved candidates the filters select.
    method PublishCandidates(f: Filter, rows: seq<Id>, cfg: Settings, clock: Clock) returns (outcome: PublishOutcome)
      requires Lists(rows, (set id | id in candidates && PublishSelected(Tables(), f, id)))
      modifies this`candidates, this`versions, this`feed
      ensures PublishStep(old(Tables()), f, cfg, clock, Tables())
      ensures outcome.NothingToPublish? <==> Batch(old(Tables()), f, cfg, clock) == {}
      ensures PublishReport(old(Tables()), f, rows, cfg, clock, outcome)
    {
      ghost var s := Tables();
      ghost var batch := Batch(s, f, cfg, clock);
      hide Batch, PublishSelected, SelectionReport, Lists, Published, DistinctKeys, NoScopeCollision, NewRows,
        OwedEvents, BatchKeys, CarriedKeys, WithSuperseded, AllLinked, PublishStep, PublishReport, Previous, Ready;
      var publishable, result := SelectBatch(f, rows, cfg, clock, s);
      ListsSize(publishable, batch);
      if publishable == [] {
        PublishedNothing(s, f, rows, cfg, clock, result);
        return NothingToPublish(result);
      }
      var saved := candidates;
      var ok, newRows, events, published, carried, removed :=
        AssembleVersion(f, publishable, Previous(Tables()), s, batch);
      if ok {
        ok := CommitVersion(f, newRows, events, s, batch);
      }
      if !ok {
        candidates := saved;
        PublishRolledBack(s, f, rows, cfg, clock);
        return RolledBack;
      }
      ListsSize(events, OwedEvents(s, f, batch));
      result := result.(published := published, carriedForward := carried, removedOccurrences := removed,
                        changeEvents := |events|);
      PublishCommitted(s, f, rows, cfg, clock, result, Tables());
      return Committed(result);
    }
  }

  // --- what a publish has assembled so far ---

  datatype Gate = Pass | SkipPolicy | SkipValidation

  function GateOf(s: State, id: Id, cfg: Settings, clock: Clock): Gate
    requires id in s.candidates
  {
    var c := s.candidates[id];
    if c.mosqueId.None? || c.sourceId !in s.sources || c.mosqueId.value !in s.mosques then SkipValidation
    else if !PolicyAllows(s, id, cfg) then SkipPolicy
    else if ErrorsIn(s, id, cfg, clock) != [] then SkipValidation
    else Pass
  }

  function Passing(s: State, rows: seq<Id>, cfg: Settings, clock: Clock): seq<Id>
    requires forall i :: 0 <= i < |rows| ==> rows[i] in s.candidates
  {
    if rows == [] then []
    else
      var front := Passing(s, rows[..|rows| - 1], cfg, clock);
      if GateOf(s, rows[|rows| - 1], cfg, clock) == Pass then front + [rows[|rows| - 1]] else front
  }

  function CountGate(s: State, rows: seq<Id>, gate: Gate, cfg: Settings, clock: Clock): nat
    requires forall i :: 0 <= i < |rows| ==> rows[i] in s.candidates
  {
    if rows == [] then 0
    else
      CountGate(s, rows[..|rows| - 1], gate, cfg, clock)
      + One(GateOf(s, rows[|rows| - 1], cfg, clock) == gate)
  }

  function Carriable(previous: map<Key, Occurrence>, f: Filter, scope: Option<bool>, finalKeys: set<Key>): set<Key> {
    set k | k in previous && k !in finalKeys && (scope.None? || InReplaceScope(f, k, previous[k]) == scope.value)
  }

  function RowsAt(rows: map<Key, Occurrence>, keys: set<Key>): map<Key, Occurrence>
    requires keys <= rows.Keys
  {
    map k | k in keys :: rows[k]
  }

  // The base rows plus the previous rows stored under `keys`.
  function Carried(previous: map<Key, Occurrence>, keys: set<Key>, base: map<Key, Occurrence>): map<Key, Occurrence>
    requires keys <= previous.Keys
  {
    base + RowsAt(previous, keys)
  }

  // The keys taken once only `rest` is left to look at.
  function Taken(
    previous: map<Key, Occurrence>, f: Filter, scope: Option<bool>, baseKeys: set<Key>, rest: set<Key>): (r: set<Key>)
    ensures r <= previous.Keys
    ensures rest == {} ==> r == Carriable(previous, f, scope, baseKeys)
  {
    Carriable(previous, f, scope, baseKeys) - rest
  }

  lemma CarryStart(previous: map<Key, Occurrence>, f: Filter, scope: Option<bool>, base: map<Key, Occurrence>)
    ensures Taken(previous, f, scope, base.Keys, previous.Keys) == {}
    ensures Carried(previous, {}, base) == base
  {
  }

  lemma CarryTurn(
    previous: map<Key, Occurrence>, f: Filter, scope: Option<bool>, base: map<Key, Occurrence>, rest: set<Key>, k: Key)
    requires k in rest && rest <= previous.Keys
    ensures
      var taken := Taken(previous, f, scope, base.Keys, rest);
      var taken' := Taken(previous, f, scope, base.Keys, rest - {k});
      var rows := Carried(previous, taken, base);
      if k !in rows && (scope.None? || InReplaceScope(f, k, previous[k]) == scope.value)
      then |taken'| == |taken| + 1 && Carried(previous, taken', base) == rows[k := previous[k]]
      else taken' == taken
  {
    hide InReplaceScope;
    var taken := Taken(previous, f, scope, base.Keys, rest);
    var taken' := Taken(previous, f, scope, base.Keys, rest - {k});
    assert k in Carried(previous, taken, base) <==> k in base;
    if k in Carriable(previous, f, scope, base.Keys) {
      assert taken' == taken + {k};
      CarryOneMore(previous, base, taken, k);
    } else {
      assert taken' == taken;
    }
  }

  lemma CarryOneMore(previous: map<Key, Occurrence>, base: map<Key, Occurrence>, keys: set<Key>, k: Key)
    requires keys <= previous.Keys && k in previous
    ensures Carried(previous, keys + {k}, base) == Carried(previous, keys, base)[k := previous[k]]
  {
  }

  // The rows are the base rows and, under other keys, one row per batch member.
  ghost predicate BatchRows(
    s: State, previous: map<Key, Occurrence>, base: map<Key, Occurrence>, batch: set<Id>, rows: map<Key, Occurrence>)
    requires Ready(s, batch)
  {
    && DistinctKeys(s, batch)
    && BatchKeys(s, batch) !! base.Keys
    && rows.Keys == base.Keys + BatchKeys(s, batch)
    && KeepsRows(base, base.Keys, rows)
    && HasBatchRows(s, previous, batch, rows)
  }

  function RemovalEvents(keys: set<Key>, version: nat): set<Event> {
    set k | k in keys :: Event(OccurrenceRemoved, k, version)
  }

  // The counters after selection.
  function SelectionReport(s: State, rows: seq<Id>, cfg: Settings, clock: Clock): PublishResult
    requires forall i :: 0 <= i < |rows| ==> rows[i] in s.candidates
  {
    PublishResult(
      0, CountGate(s, rows, SkipPolicy, cfg, clock), CountGate(s, rows, SkipValidation, cfg, clock), 0, 0, 0)
  }

  ghost predicate PublishReport(
    s: State, f: Filter, rows: seq<Id>, cfg: Settings, clock: Clock, outcome: PublishOutcome) {
    BatchIsReady(s, f, cfg, clock);
    var batch := Batch(s, f, cfg, clock);
    && AllIn(rows, s.candidates)
    && match outcome
       case NothingToPublish(r) => r == SelectionReport(s, rows, cfg, clock)
       case RolledBack => !Commits(s, f, batch)
       case Committed(r) =>
         && Commits(s, f, batch)
         && r == SelectionReport(s, rows, cfg, clock).(
                   published := |batch|,
                   carriedForward := |CarriedKeys(s, f, batch)|,
                   removedOccurrences := |Previous(s).Keys - BatchKeys(s, batch) - CarriedKeys(s, f, batch)|,
                   changeEvents := |OwedEvents(s, f, batch)|)
  }

  lemma PublishedNothing(s: State, f: Filter, rows: seq<Id>, cfg: Settings, clock: Clock, r: PublishResult)
    requires AllIn(rows, s.candidates) && r == SelectionReport(s, rows, cfg, clock) && Batch(s, f, cfg, clock) == {}
    ensures PublishStep(s, f, cfg, clock, s) && PublishReport(s, f, rows, cfg, clock, NothingToPublish(r))
  {
    hide Batch, SelectionReport;
  }

  lemma PublishRolledBack(s: State, f: Filter, rows: seq<Id>, cfg: Settings, clock: Clock)
    requires AllIn(rows, s.candidates) && Ready(s, Batch(s, f, cfg, clock)) && !Commits(s, f, Batch(s, f, cfg, clock))
    ensures PublishStep(s, f, cfg, clock, s) && PublishReport(s, f, rows, cfg, clock, RolledBack)
  {
    hide Batch, Commits;
  }

  lemma PublishCommitted(
    s: State, f: Filter, rows: seq<Id>, cfg: Settings, clock: Clock, r: PublishResult, s': State)
    requires AllIn(rows, s.candidates) && Ready(s, Batch(s, f, cfg, clock))
    requires Batch(s, f, cfg, clock) != {} && Commits(s, f, Batch(s, f, cfg, clock))
    requires Published(s, f, Batch(s, f, cfg, clock), s')
    requires
      var batch := Batch(s, f, cfg, clock);
      r == SelectionReport(s, rows, cfg, clock).(
             published := |batch|,
             carriedForward := |CarriedKeys(s, f, batch)|,
             removedOccurrences := |Previous(s).Keys - BatchKeys(s, batch) - CarriedKeys(s, f, batch)|,
             changeEvents := |OwedEvents(s, f, batch)|)
    ensures PublishStep(s, f, cfg, clock, s') && PublishReport(s, f, rows, cfg, clock, Committed(r))
  {
    hide Batch, Commits, Published, BatchKeys, CarriedKeys, OwedEvents, Previous, SelectionReport;
  }

  // Every row comes from the batch or is carried, so the rows tell which sources must be linked.
  lemma LinkedThroughRows(s: State, f: Filter, batch: set<Id>, rows: map<Key, Occurrence>)
    requires Ready(s, batch) && NewRows(s, f, batch, rows)
    ensures AllLinked(s, f, batch) <==> forall k :: k in rows ==> Linked(s.sources, rows[k].sourceId)
  {
    hide Linked, Previous, CarriedKeys;
    forall id | id in batch
      ensures KeyOf(s.candidates[id]) in rows && rows[KeyOf(s.candidates[id])].sourceId == s.candidates[id].sourceId
    {
      assert RowFor(s, Previous(s), id, rows);
    }
  }

  lemma CommittedIsPublished(
    s: State, f: Filter, batch: set<Id>, rows: map<Key, Occurrence>, events: seq<Event>, s': State)
    requires Ready(s, batch) && NewRows(s, f, batch, rows) && Lists(events, OwedEvents(s, f, batch))
    requires s' == s.(
      candidates := WithSuperseded(s.candidates, batch),
      versions := s.versions + [Version(rows, (set id | id in s.sources && IsPublic(s.sources, id)))],
      feed := s.feed + events)
    ensures Published(s, f, batch, s')
  {
    hide NewRows, OwedEvents, Lists, WithSuperseded;
    assert s'.feed[|s.feed|..] == events;
  }

  lemma {:induction false} PassingElems(s: State, rows: seq<Id>, cfg: Settings, clock: Clock)
    requires AllIn(rows, s.candidates) && |Elems(rows)| == |rows|
    ensures var passing := Passing(s, rows, cfg, clock);
      Lists(passing, (set id | id in Elems(rows) && GateOf(s, id, cfg, clock) == Pass))
  {
    hide GateOf;
    if rows != [] {
      var n := |rows| - 1;
      var front, last := rows[..n], rows[n];
      ListsPrefix(rows, Elems(rows), n);
      assert rows[..n + 1] == rows;
      ElemsSize(front);
      PassingElems(s, front, cfg, clock);
      var passed := set id | id in Elems(front) && GateOf(s, id, cfg, clock) == Pass;
      if GateOf(s, last, cfg, clock) == Pass {
        ListsAppend(Passing(s, front, cfg, clock), passed, last);
        assert (set id | id in Elems(rows) && GateOf(s, id, cfg, clock) == Pass) == passed + {last};
      } else {
        assert (set id | id in Elems(rows) && GateOf(s, id, cfg, clock) == Pass) == passed;
      }
    }
  }

  lemma PassingIsBatch(s: State, f: Filter, rows: seq<Id>, cfg: Settings, clock: Clock)
    requires Lists(rows, (set id | id in s.candidates && PublishSelected(s, f, id)))
    ensures AllIn(rows, s.candidates)
    ensures Lists(Passing(s, rows, cfg, clock), Batch(s, f, cfg, clock)) && Ready(s, Batch(s, f, cfg, clock))
  {
    assert forall i :: 0 <= i < |rows| ==> rows[i] in Elems(rows);
    PassingElems(s, rows, cfg, clock);
    BatchIsReady(s, f, cfg, clock);
    assert Batch(s, f, cfg, clock) == set id | id in Elems(rows) && GateOf(s, id, cfg, clock) == Pass;
  }

  // What the first carry pass leaves in the version.
  function FirstPass(s: State, f: Filter): map<Key, Occurrence> {
    if FiltersActive(f) then Carried(Previous(s), Carriable(Previous(s), f, Some(false), {}), map[]) else map[]
  }

  // Inserting the batch after the first pass meets a key already there exactly when a batch key is out of scope.
  lemma ScopeCollisions(s: State, f: Filter, batch: set<Id>, base: map<Key, Occurrence>)
    requires Ready(s, batch) && base == FirstPass(s, f)
    ensures BatchKeys(s, batch) !! base.Keys <==> NoScopeCollision(s, f, batch)
  {
    hide Previous;
    if NoScopeCollision(s, f, batch) {
      forall k | k in BatchKeys(s, batch) ensures k !in base {
        var id :| id in batch && KeyOf(s.candidates[id]) == k;
      }
    } else {
      var id :| id in batch && KeyOf(s.candidates[id]) in Previous(s)
                && !InReplaceScope(f, KeyOf(s.candidates[id]), Previous(s)[KeyOf(s.candidates[id])]);
      assert KeyOf(s.candidates[id]) in BatchKeys(s, batch) && KeyOf(s.candidates[id]) in base;
    }
  }

  // The two passes together carry every previous key the batch does not write.
  lemma PassesCoverPrevious(previous: map<Key, Occurrence>, f: Filter, batchKeys: set<Key>)
    requires Carriable(previous, f, Some(false), {}) !! batchKeys
    ensures
      var out := Carriable(previous, f, Some(false), {});
      var within := Carriable(previous, f, Some(true), out + batchKeys);
      out + within == previous.Keys - batchKeys && out !! within
  {
    hide InReplaceScope;
  }

  lemma BatchRowsSurvive(
    s: State, previous: map<Key, Occurrence>, batch: set<Id>, rows: map<Key, Occurrence>, rows': map<Key, Occurrence>)
    requires Ready(s, batch) && HasBatchRows(s, previous, batch, rows)
    requires KeepsRows(rows, BatchKeys(s, batch), rows')
    ensures HasBatchRows(s, previous, batch, rows')
  {
    hide BatchRow;
    forall id | id in batch ensures RowFor(s, previous, id, rows') {
      assert RowFor(s, previous, id, rows);
      assert KeyOf(s.candidates[id]) in BatchKeys(s, batch);
    }
  }

  lemma Overlay(
    previous: map<Key, Occurrence>, out: set<Key>, within: set<Key>, batchKeys: set<Key>,
    middle: map<Key, Occurrence>, rows: map<Key, Occurrence>)
    requires out + within == previous.Keys - batchKeys
    requires middle.Keys == out + batchKeys && KeepsRows(previous, out, middle)
    requires rows == Carried(previous, within, middle) && within !! out
    ensures rows.Keys == batchKeys + (previous.Keys - batchKeys)
    ensures KeepsRows(middle, batchKeys, rows) && KeepsRows(previous, previous.Keys - batchKeys, rows)
  {
    forall k | k in previous.Keys - batchKeys ensures k in rows && rows[k] == previous[k] {
      assert k in out + within;
    }
  }

  lemma KeepsThrough(
    previous: map<Key, Occurrence>, keys: set<Key>, base: map<Key, Occurrence>, middle: map<Key, Occurrence>)
    requires KeepsRows(previous, keys, base) && KeepsRows(base, base.Keys, middle)
    ensures KeepsRows(previous, keys, middle)
  {
  }

  lemma FilteredRows(
    s: State, f: Filter, batch: set<Id>, out: set<Key>, within: set<Key>,
    base: map<Key, Occurrence>, middle: map<Key, Occurrence>, rows: map<Key, Occurrence>)
    requires Ready(s, batch) && FiltersActive(f) && BatchRows(s, Previous(s), base, batch, middle)
    requires base.Keys == out && KeepsRows(Previous(s), out, base)
    requires out + within == Previous(s).Keys - BatchKeys(s, batch) && out !! within
    requires rows == Carried(Previous(s), within, middle)
    ensures NewRows(s, f, batch, rows)
  {
    hide HasBatchRows, KeepsRows, DistinctKeys, Previous, BatchKeys, Carried;
    KeepsThrough(Previous(s), out, base, middle);
    Overlay(Previous(s), out, within, BatchKeys(s, batch), middle, rows);
    BatchRowsSurvive(s, Previous(s), batch, middle, rows);
  }

  lemma UnfilteredRows(s: State, f: Filter, batch: set<Id>, rows: map<Key, Occurrence>)
    requires Ready(s, batch) && !FiltersActive(f) && BatchRows(s, Previous(s), map[], batch, rows)
    ensures NewRows(s, f, batch, rows)
  {
    hide HasBatchRows, DistinctKeys, Previous, BatchKeys;
  }

  lemma AssembledRows(
    s: State, f: Filter, batch: set<Id>, base: map<Key, Occurrence>, middle: map<Key, Occurrence>,
    rows: map<Key, Occurrence>)
    requires Ready(s, batch) && base == FirstPass(s, f) && BatchRows(s, Previous(s), base, batch, middle)
    requires rows == if FiltersActive(f)
                     then Carried(Previous(s), Carriable(Previous(s), f, Some(true), middle.Keys), middle)
                     else middle
    ensures NewRows(s, f, batch, rows)
    ensures |CarriedKeys(s, f, batch)| ==
      if FiltersActive(f)
      then |Carriable(Previous(s), f, Some(false), {})| + |Carriable(Previous(s), f, Some(true), middle.Keys)|
      else 0
  {
    hide NewRows, BatchRows, Previous, BatchKeys, Carriable, Carried;
    BatchRowsKeys(s, Previous(s), base, batch, middle);
    if FiltersActive(f) {
      var out := Carriable(Previous(s), f, Some(false), {});
      FirstPassRows(s, f, out);
      PassesCoverPrevious(Previous(s), f, BatchKeys(s, batch));
      var within := Carriable(Previous(s), f, Some(true), out + BatchKeys(s, batch));
      assert |out + within| == |out| + |within|;
      FilteredRows(s, f, batch, out, within, base, middle, rows);
    } else {
      UnfilteredRows(s, f, batch, rows);
    }
  }

  lemma FirstPassRows(s: State, f: Filter, out: set<Key>)
    requires FiltersActive(f) && out == Carriable(Previous(s), f, Some(false), {})
    ensures FirstPass(s, f).Keys == out && KeepsRows(Previous(s), out, FirstPass(s, f))
  {
    hide Previous, InReplaceScope;
  }

  lemma EventsSplit(
    s: State, f: Filter, batch: set<Id>, rows: map<Key, Occurrence>, events: seq<Event>, removals: seq<Event>)
    requires Ready(s, batch) && NewRows(s, f, batch, rows)
    requires Lists(events, NewEvents(s, Previous(s), batch))
    requires Lists(removals, RemovalEvents(Previous(s).Keys - rows.Keys, |s.versions|))
    ensures Lists(events + removals, OwedEvents(s, f, batch))
    ensures Previous(s).Keys - rows.Keys == Previous(s).Keys - BatchKeys(s, batch) - CarriedKeys(s, f, batch)
  {
    hide Lists, Previous, HasBatchRows, KeepsRows, BatchKeys;
    var gone := Previous(s).Keys - BatchKeys(s, batch) - CarriedKeys(s, f, batch);
    assert Previous(s).Keys - rows.Keys == gone;
    OwedSplit(s, f, batch, gone);
    ListsConcat(events, NewEvents(s, Previous(s), batch), removals, RemovalEvents(gone, |s.versions|));
  }

  lemma OwedSplit(s: State, f: Filter, batch: set<Id>, gone: set<Key>)
    requires Ready(s, batch)
    requires gone == Previous(s).Keys - BatchKeys(s, batch) - CarriedKeys(s, f, batch)
    ensures OwedEvents(s, f, batch) == NewEvents(s, Previous(s), batch) + RemovalEvents(gone, |s.versions|)
    ensures NewEvents(s, Previous(s), batch) !! RemovalEvents(gone, |s.versions|)
  {
    hide Previous, BatchKeys, CarriedKeys, Unchanged;
  }

  lemma NoRemovals(version: nat)
    ensures Lists([], RemovalEvents({}, version))
  {
  }

  lemma OneMoreRemoval(removals: seq<Event>, gone: set<Key>, k: Key, version: nat)
    requires Lists(removals, RemovalEvents(gone, version)) && k !in gone
    ensures Lists(removals + [Event(OccurrenceRemoved, k, version)], RemovalEvents(gone + {k}, version))
  {
    var e := Event(OccurrenceRemoved, k, version);
    assert e !in RemovalEvents(gone, version);
    ListsAppend(removals, RemovalEvents(gone, version), e);
    assert RemovalEvents(gone + {k}, version) == RemovalEvents(gone, version) + {e};
  }

  function NewEvents(s: State, previous: map<Key, Occurrence>, batch: set<Id>): set<Event>
    requires Ready(s, batch)
  {
    set id | id in batch && !Unchanged(previous, s.candidates[id])
      :: Event(OccurrencePublished, KeyOf(s.candidates[id]), |s.versions|)
  }

  lemma ListsAppend<T>(xs: seq<T>, items: set<T>, x: T)
    requires Lists(xs, items) && x !in items
    ensures Lists(xs + [x], items + {x})
  {
    ElemsOfConcat(xs, [x]);
    assert Elems([x]) == {x};
  }

  lemma BatchStart(s: State, previous: map<Key, Occurrence>, base: map<Key, Occurrence>)
    ensures BatchRows(s, previous, base, {}, base)
    ensures s.candidates == WithSuperseded(s.candidates, {})
    ensures Lists([], NewEvents(s, previous, {}))
  {
    assert BatchKeys(s, {}) == {};
  }

  lemma BatchRowsKeys(
    s: State, previous: map<Key, Occurrence>, base: map<Key, Occurrence>, batch: set<Id>, rows: map<Key, Occurrence>)
    requires Ready(s, batch) && BatchRows(s, previous, base, batch, rows)
    ensures DistinctKeys(s, batch) && BatchKeys(s, batch) !! base.Keys
    ensures rows.Keys == base.Keys + BatchKeys(s, batch)
  {
  }

  lemma BatchTurn(s: State, publishable: seq<Id>, i: nat)
    requires Ready(s, Elems(publishable)) && |Elems(publishable)| == |publishable| && i < |publishable|
    ensures publishable[i] in Elems(publishable) && publishable[i] !in Elems(publishable[..i])
    ensures publishable[i] in s.candidates && Ready(s, {publishable[i]})
    ensures publishable[i] in WithSuperseded(s.candidates, Elems(publishable[..i]))
    ensures Elems(publishable[..i + 1]) == Elems(publishable[..i]) + {publishable[i]} <= Elems(publishable)
    ensures WithSuperseded(s.candidates, Elems(publishable[..i]))[publishable[i]] == s.candidates[publishable[i]]
    ensures WithSuperseded(s.candidates, Elems(publishable[..i + 1])) ==
            WithSuperseded(s.candidates, Elems(publishable[..i]))
              [publishable[i] := s.candidates[publishable[i]].(status := Superseded)]
  {
    ListsPrefix(publishable, Elems(publishable), i);
    assert forall x :: x in publishable[..i] ==> x in publishable;
  }

  lemma CollisionIsReal(s: State, base: map<Key, Occurrence>, batch: set<Id>, done: set<Id>, id: Id)
    requires Ready(s, batch) && done <= batch && id in batch && id !in done
    requires KeyOf(s.candidates[id]) in base.Keys + BatchKeys(s, done)
    ensures !(DistinctKeys(s, batch) && BatchKeys(s, batch) !! base.Keys)
  {
    if KeyOf(s.candidates[id]) in BatchKeys(s, done) {
      var other :| other in done && KeyOf(s.candidates[other]) == KeyOf(s.candidates[id]);
    } else {
      assert KeyOf(s.candidates[id]) in BatchKeys(s, batch);
    }
  }

  lemma BatchRowsStep(
    s: State, previous: map<Key, Occurrence>, base: map<Key, Occurrence>, done: set<Id>, id: Id,
    rows: map<Key, Occurrence>)
    requires Ready(s, done + {id}) && id !in done && BatchRows(s, previous, base, done, rows)
    requires KeyOf(s.candidates[id]) !in rows
    ensures
      var c := s.candidates[id];
      BatchRows(s, previous, base, done + {id}, rows[KeyOf(c) := BatchRow(previous, id, c, s.sources[c.sourceId])])
    ensures BatchKeys(s, done + {id}) == BatchKeys(s, done) + {KeyOf(s.candidates[id])}
    ensures KeyOf(s.candidates[id]) !in BatchKeys(s, done)
  {
    var c := s.candidates[id];
    var k := KeyOf(c);
    var rows' := rows[k := BatchRow(previous, id, c, s.sources[c.sourceId])];
    assert BatchKeys(s, done + {id}) == BatchKeys(s, done) + {k};
    forall other | other in done + {id} ensures RowFor(s, previous, other, rows') {
      if other != id {
        assert RowFor(s, previous, other, rows);
        assert KeyOf(s.candidates[other]) in BatchKeys(s, done);
      }
    }
  }

  lemma NewEventsStep(s: State, previous: map<Key, Occurrence>, done: set<Id>, id: Id, events: seq<Event>)
    requires Ready(s, done + {id}) && Lists(events, NewEvents(s, previous, done))
    requires KeyOf(s.candidates[id]) !in BatchKeys(s, done)
    ensures
      var c := s.candidates[id];
      Lists(if Unchanged(previous, c) then events else events + [Event(OccurrencePublished, KeyOf(c), |s.versions|)],
            NewEvents(s, previous, done + {id}))
  {
    var e := Event(OccurrencePublished, KeyOf(s.candidates[id]), |s.versions|);
    if Unchanged(previous, s.candidates[id]) {
      assert NewEvents(s, previous, done + {id}) == NewEvents(s, previous, done);
    } else {
      assert NewEvents(s, previous, done + {id}) == NewEvents(s, previous, done) + {e};
      assert e !in NewEvents(s, previous, done);
      ListsAppend(events, NewEvents(s, previous, done), e);
    }
  }

  lemma ContextForOne(s: State, ids: set<Id>, context: Context, id: Id)
    requires (forall x :: x in ids ==> x in s.candidates) && ContextFor(s, ids, context) && id in ids
    ensures ContextFor(s, {id}, context)
  {
  }

  lemma ValidateStart(s: State, rows: seq<Id>, selected: set<Id>, updateStatus: bool, cfg: Settings, clock: Clock)
    requires Lists(rows, selected)
    ensures s.candidates == ValidatedRows(s, {}, updateStatus, cfg, clock)
    ensures Elems(rows[..0]) == {} && Elems(rows) == selected
  {
  }

  // What one turn of the validation loop relies on and what it then has to show.
  lemma ValidateTurn(
    s: State, selected: set<Id>, rows: seq<Id>, i: nat, updateStatus: bool, cfg: Settings, clock: Clock)
    requires Lists(rows, selected) && selected <= s.candidates.Keys && i < |rows|
    ensures AllIn(rows, s.candidates) && rows[i] in Elems(rows)
    ensures rows[i] in ValidatedRows(s, Elems(rows[..i]), updateStatus, cfg, clock)
    ensures ValidatedRows(s, Elems(rows[..i]), updateStatus, cfg, clock)[rows[i]] == s.candidates[rows[i]]
    ensures ValidatedRows(s, Elems(rows[..i + 1]), updateStatus, cfg, clock) ==
      if s.candidates[rows[i]].sourceId in s.sources
      then ValidatedRows(s, Elems(rows[..i]), updateStatus, cfg, clock)
             [rows[i] := Validated(s, rows[i], updateStatus, cfg, clock)]
      else ValidatedRows(s, Elems(rows[..i]), updateStatus, cfg, clock)
    ensures Tally(s, rows[..i + 1], updateStatus, cfg, clock) ==
      Counted(Tally(s, rows[..i], updateStatus, cfg, clock), s, rows[i], updateStatus, cfg, clock)
  {
    assert forall j :: 0 <= j < |rows| ==> rows[j] in Elems(rows);
    ListsPrefix(rows, selected, i);
    ValidatedRowsGrow(s, Elems(rows[..i]), rows[i], updateStatus, cfg, clock);
    assert rows[..i + 1][..i] == rows[..i];
  }
}
