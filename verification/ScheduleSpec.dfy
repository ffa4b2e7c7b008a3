/**
 What each transition of the schedule lifecycle does to the tables, as relations between
 the state before and the state after. `ScheduleStore` implements them; `ScheduleInvariants`,
 `ScheduleFeed` and `ScheduleReplay` reason about runs of them.
 */
module ScheduleSpec {
  import opened Wrappers
  import opened Listing
  import opened ScheduleModel

  // --- evaluation ---

  function ErrorsIn(s: State, id: Id, cfg: Settings, clock: Clock): seq<ErrorCode>
    requires id in s.candidates
  {
    ErrorsOf(s.candidates[id], Duplicates(s.candidates, id), cfg, clock)
  }

  function EvaluatedStatus(s: State, id: Id, cfg: Settings, clock: Clock): Status
    requires id in s.candidates && s.candidates[id].sourceId in s.sources
  {
    var c := s.candidates[id];
    StatusAfterValidation(
      ErrorsIn(s, id, cfg, clock),
      RequiresManualApproval(s.sources[c.sourceId], KindOf(s.runs, c), c, cfg))
  }

  predicate PolicyAllows(s: State, id: Id, cfg: Settings)
    requires id in s.candidates
  {
    var c := s.candidates[id];
    IsPublic(s.sources, c.sourceId) && (KindOf(s.runs, c) == Some(Ai) ==> cfg.publishAllowAi)
  }

  // --- upsert ---

  datatype UpsertArgs = UpsertArgs(
    mosqueId: Id, sourceId: Id, runId: Option<Id>, date: Date, prayer: Prayer, session: int,
    start: Option<Time>, jamaat: Time, sessionLabel: Option<string>, timezone: string,
    evidence: Evidence)

  // The rows an upsert refers to exist (foreign keys).
  predicate RefersToRows(s: State, u: UpsertArgs) {
    u.mosqueId in s.mosques && u.sourceId in s.sources && (u.runId.Some? ==> u.runId.value in s.runs)
  }

  function NewCandidate(u: UpsertArgs, source: Source): Candidate {
    Candidate(Some(u.mosqueId), u.sourceId, u.runId, u.date, u.prayer, u.session, u.start,
              Some(u.jamaat), u.sessionLabel, u.timezone, source.confidence, u.evidence, Pending, [])
  }

  function UpsertKey(u: UpsertArgs): NaturalKey {
    NaturalKey(u.mosqueId, u.sourceId, u.date, u.prayer, u.session)
  }

  function ActiveTwins(candidates: map<Id, Candidate>, u: UpsertArgs): set<Id> {
    set id | id in candidates && Active(candidates[id])
             && NaturalKeyOf(candidates[id]) == Some(UpsertKey(u))
  }

  predicate SameContent(c: Candidate, u: UpsertArgs) {
    && c.start == u.start && c.jamaat == Some(u.jamaat) && c.sessionLabel == u.sessionLabel
    && c.timezone == u.timezone && c.runId == u.runId
  }

  // The existing row after an in-place update: new content, errors cleared, approval withdrawn.
  function Rewritten(c: Candidate, u: UpsertArgs): Candidate {
    c.(start := u.start, jamaat := Some(u.jamaat), sessionLabel := u.sessionLabel,
       timezone := u.timezone, evidence := u.evidence, errors := [],
       status := if c.status == Approved then Pending else c.status)
  }

  function UpsertOver(
    candidates: map<Id, Candidate>, existing: Id, u: UpsertArgs, freshId: Id, source: Source): map<Id, Candidate>
    requires existing in candidates
  {
    var c := candidates[existing];
    if SameContent(c, u) then candidates
    else if c.runId != u.runId then
      candidates[existing := c.(status := Superseded)][freshId := NewCandidate(u, source)]
    else candidates[existing := Rewritten(c, u)]
  }

  predicate UpsertStep(s: State, u: UpsertArgs, freshId: Id, s': State) {
    && RefersToRows(s, u)
    && freshId !in s.candidates
    && s' == s.(candidates := s'.candidates)
    && var twins := ActiveTwins(s.candidates, u);
       var source := s.sources[u.sourceId];
       if twins == {} then s'.candidates == s.candidates[freshId := NewCandidate(u, source)]
       else exists e :: e in twins && s'.candidates == UpsertOver(s.candidates, e, u, freshId, source)
  }

  // --- validate, approve, reject ---

  predicate ValidateSelected(s: State, v: Selection, id: Id) {
    id in s.candidates && Active(s.candidates[id]) && SelectedBy(v, s.candidates[id])
  }

  function Validated(s: State, id: Id, updateStatus: bool, cfg: Settings, clock: Clock): Candidate
    requires id in s.candidates && s.candidates[id].sourceId in s.sources
  {
    var c := s.candidates[id].(errors := ErrorsIn(s, id, cfg, clock));
    if updateStatus then c.(status := EvaluatedStatus(s, id, cfg, clock)) else c
  }

  // The candidate table once the rows in `done` have been re-evaluated; a row without a source is skipped.
  function ValidatedRows(s: State, done: set<Id>, updateStatus: bool, cfg: Settings, clock: Clock): map<Id, Candidate> {
    map id | id in s.candidates ::
      if id in done && s.candidates[id].sourceId in s.sources
      then Validated(s, id, updateStatus, cfg, clock)
      else s.candidates[id]
  }

  predicate ValidateStep(s: State, v: Selection, updateStatus: bool, cfg: Settings, clock: Clock, s': State) {
    var selected := set id | id in s.candidates && ValidateSelected(s, v, id);
    s' == s.(candidates := ValidatedRows(s, selected, updateStatus, cfg, clock))
  }

  predicate Approvable(s: State, id: Id, cfg: Settings, clock: Clock) {
    && id in s.candidates
    && s.candidates[id].sourceId in s.sources
    && PolicyAllows(s, id, cfg)
    && EvaluatedStatus(s, id, cfg, clock) == Approved
  }

  // A refused approval raises and changes nothing.
  predicate ApproveStep(s: State, id: Id, cfg: Settings, clock: Clock, s': State) {
    if Approvable(s, id, cfg, clock)
    then s' == s.(candidates := s.candidates[id := s.candidates[id].(status := Approved, errors := [])])
    else s' == s
  }

  predicate RejectStep(s: State, id: Id, s': State) {
    if id in s.candidates
    then s' == s.(candidates := s.candidates[id := s.candidates[id].(status := Rejected)])
    else s' == s
  }

  // --- publish ---

  predicate Publishable(s: State, id: Id, cfg: Settings, clock: Clock) {
    && id in s.candidates
    && var c := s.candidates[id];
       && c.mosqueId.Some? && c.mosqueId.value in s.mosques && c.sourceId in s.sources
       && PolicyAllows(s, id, cfg)
       && ErrorsIn(s, id, cfg, clock) == []
  }

  predicate PublishSelected(s: State, f: Filter, id: Id) {
    id in s.candidates && s.candidates[id].status == Approved && Selects(f, s.candidates[id])
  }

  function Batch(s: State, f: Filter, cfg: Settings, clock: Clock): set<Id> {
    set id | id in s.candidates && PublishSelected(s, f, id) && Publishable(s, id, cfg, clock)
  }

  predicate Ready(s: State, batch: set<Id>) {
    forall id :: id in batch ==>
      id in s.candidates && s.candidates[id].mosqueId.Some? && s.candidates[id].jamaat.Some?
      && s.candidates[id].sourceId in s.sources
  }

  function BatchKeys(s: State, batch: set<Id>): set<Key>
    requires Ready(s, batch)
  {
    set id | id in batch :: KeyOf(s.candidates[id])
  }

  // The rows of the latest version, read through the public-source filter.
  function PublicRows(rows: map<Key, Occurrence>, sources: map<Id, Source>): map<Key, Occurrence> {
    map k | k in rows && IsPublic(sources, rows[k].sourceId) :: rows[k]
  }

  function Latest(s: State): map<Key, Occurrence> {
    if s.versions == [] then map[] else s.versions[|s.versions| - 1].rows
  }

  function Previous(s: State): map<Key, Occurrence> {
    PublicRows(Latest(s), s.sources)
  }

  predicate Changed(previous: Occurrence, c: Candidate)
    requires c.jamaat.Some?
  {
    || previous.jamaat != c.jamaat.value
    || previous.start != c.start
    || previous.sessionLabel != c.sessionLabel
    || previous.timezone != c.timezone
    || previous.sourceId != c.sourceId
  }

  function Linkback(c: Candidate, source: Source): Option<string> {
    if c.evidence.linkbackUrl.Some? && c.evidence.linkbackUrl.value != ""
    then c.evidence.linkbackUrl
    else source.sourceUrl
  }

  predicate Unchanged(previous: map<Key, Occurrence>, c: Candidate)
    requires c.mosqueId.Some? && c.jamaat.Some?
  {
    KeyOf(c) in previous && !Changed(previous[KeyOf(c)], c)
  }

  function BatchRow(previous: map<Key, Occurrence>, id: Id, c: Candidate, source: Source): Occurrence
    requires c.mosqueId.Some? && c.jamaat.Some?
  {
    if Unchanged(previous, c) then previous[KeyOf(c)].(candidateId := id)
    else Occurrence(c.sourceId, id, c.start, c.jamaat.value, c.sessionLabel, c.timezone,
                    c.confidence, Linkback(c, source))
  }

  predicate DistinctKeys(s: State, batch: set<Id>)
    requires Ready(s, batch)
  {
    forall a, b :: a in batch && b in batch && KeyOf(s.candidates[a]) == KeyOf(s.candidates[b]) ==> a == b
  }

  // Rows outside the replace scope are inserted before the batch and can meet its keys.
  predicate NoScopeCollision(s: State, f: Filter, batch: set<Id>)
    requires Ready(s, batch)
  {
    forall id :: id in batch && KeyOf(s.candidates[id]) in Previous(s) ==>
      InReplaceScope(f, KeyOf(s.candidates[id]), Previous(s)[KeyOf(s.candidates[id])])
  }

  function CarriedKeys(s: State, f: Filter, batch: set<Id>): set<Key>
    requires Ready(s, batch)
  {
    if FiltersActive(f) then Previous(s).Keys - BatchKeys(s, batch) else {}
  }

  predicate Linked(sources: map<Id, Source>, id: Id) {
    id in sources && sources[id].mosqueId.Some?
  }

  // Recomputing the health of a source with rows in the new version raises when it has no mosque.
  predicate AllLinked(s: State, f: Filter, batch: set<Id>)
    requires Ready(s, batch)
  {
    && (forall id :: id in batch ==> Linked(s.sources, s.candidates[id].sourceId))
    && (forall k :: k in CarriedKeys(s, f, batch) ==> Linked(s.sources, Previous(s)[k].sourceId))
  }

  predicate Commits(s: State, f: Filter, batch: set<Id>)
    requires Ready(s, batch)
  {
    DistinctKeys(s, batch) && NoScopeCollision(s, f, batch) && AllLinked(s, f, batch)
  }

  // The row stored for one batch member.
  predicate RowFor(s: State, previous: map<Key, Occurrence>, id: Id, rows: map<Key, Occurrence>)
    requires Ready(s, {id})
  {
    var c := s.candidates[id];
    KeyOf(c) in rows && rows[KeyOf(c)] == BatchRow(previous, id, c, s.sources[c.sourceId])
  }

  predicate HasBatchRows(s: State, previous: map<Key, Occurrence>, batch: set<Id>, rows: map<Key, Occurrence>)
    requires Ready(s, batch)
  {
    forall id :: id in batch ==> RowFor(s, previous, id, rows)
  }

  predicate KeepsRows(previous: map<Key, Occurrence>, keys: set<Key>, rows: map<Key, Occurrence>) {
    forall k :: k in keys ==> k in previous && k in rows && rows[k] == previous[k]
  }

  predicate NewRows(s: State, f: Filter, batch: set<Id>, rows: map<Key, Occurrence>)
    requires Ready(s, batch)
  {
    && rows.Keys == BatchKeys(s, batch) + CarriedKeys(s, f, batch)
    && HasBatchRows(s, Previous(s), batch, rows)
    && KeepsRows(Previous(s), CarriedKeys(s, f, batch), rows)
  }

  // The events a publish owes: one per new or changed batch row, one per dropped previous row.
  function OwedEvents(s: State, f: Filter, batch: set<Id>): set<Event>
    requires Ready(s, batch)
  {
    (set id | id in batch && !Unchanged(Previous(s), s.candidates[id])
       :: Event(OccurrencePublished, KeyOf(s.candidates[id]), |s.versions|))
    + (set k | k in Previous(s).Keys - BatchKeys(s, batch) - CarriedKeys(s, f, batch)
         :: Event(OccurrenceRemoved, k, |s.versions|))
  }

  function WithSuperseded(candidates: map<Id, Candidate>, batch: set<Id>): map<Id, Candidate> {
    map id | id in candidates ::
      if id in batch then candidates[id].(status := Superseded) else candidates[id]
  }

  ghost predicate Published(s: State, f: Filter, batch: set<Id>, s': State)
    requires Ready(s, batch)
  {
    && s'.sources == s.sources && s'.mosques == s.mosques && s'.runs == s.runs
    && s'.candidates == WithSuperseded(s.candidates, batch)
    && |s'.versions| == |s.versions| + 1 && s'.versions[..|s.versions|] == s.versions
    && s'.versions[|s.versions|].publicAtWrite == (set id | id in s.sources && IsPublic(s.sources, id))
    && NewRows(s, f, batch, s'.versions[|s.versions|].rows)
    && |s.feed| <= |s'.feed| && s'.feed[..|s.feed|] == s.feed
    && Lists(s'.feed[|s.feed|..], OwedEvents(s, f, batch))
  }

  lemma BatchIsReady(s: State, f: Filter, cfg: Settings, clock: Clock)
    ensures Ready(s, Batch(s, f, cfg, clock))
  {
    forall id | id in Batch(s, f, cfg, clock)
      ensures s.candidates[id].jamaat.Some?
    {
      ErrorsExact(s.candidates[id], Duplicates(s.candidates, id), cfg, clock, MissingJamaat);
    }
  }

  // An empty batch writes nothing, and a publish that cannot commit is rolled back whole.
  ghost predicate PublishStep(s: State, f: Filter, cfg: Settings, clock: Clock, s': State) {
    BatchIsReady(s, f, cfg, clock);
    var batch := Batch(s, f, cfg, clock);
    if batch != {} && Commits(s, f, batch) then Published(s, f, batch, s') else s' == s
  }

  // --- the surroundings ---

  // Imports and operators may add rows and edit a source, but never its type or a run's kind.
  ghost predicate EnvironmentStep(s: State, s': State) {
    && s'.candidates == s.candidates && s'.versions == s.versions && s'.feed == s.feed
    && s.mosques <= s'.mosques
    && (forall id :: id in s.sources ==> id in s'.sources && s'.sources[id].sourceType == s.sources[id].sourceType)
    && (forall id :: id in s.runs ==> id in s'.runs && s'.runs[id] == s.runs[id])
  }

  datatype Op =
    | Upsert(u: UpsertArgs, freshId: Id)
    | Validate(selection: Selection, updateStatus: bool, clock: Clock)
    | Approve(id: Id, clock: Clock)
    | Reject(id: Id)
    | Publish(filter: Filter, clock: Clock)
    | Environment

  ghost predicate Step(cfg: Settings, op: Op, s: State, s': State) {
    match op
    case Upsert(u, freshId) => UpsertStep(s, u, freshId, s')
    case Validate(v, updateStatus, clock) => ValidateStep(s, v, updateStatus, cfg, clock, s')
    case Approve(id, clock) => ApproveStep(s, id, cfg, clock, s')
    case Reject(id) => RejectStep(s, id, s')
    case Publish(f, clock) => PublishStep(s, f, cfg, clock, s')
    case Environment => EnvironmentStep(s, s')
  }

  ghost predicate Initial(s: State) {
    s.candidates == map[] && s.versions == [] && s.feed == []
  }

  // A run: one state per point in time and the operation that leads to the next one.
  ghost predicate IsRun(cfg: Settings, states: seq<State>, ops: seq<Op>) {
    && |states| == |ops| + 1
    && Initial(states[0])
    && forall i :: 0 <= i < |ops| ==> Step(cfg, ops[i], states[i], states[i + 1])
  }
}
