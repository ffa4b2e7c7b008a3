/**
 The tables behind the schedule lifecycle (`models/core.py`, `domain.py`) and the pure
 predicates of `schedules/`: keys, validation flaws, the manual-approval rule and the
 publication gate.
 */
module ScheduleModel {
  import opened Wrappers

  type Id = nat

  // A calendar day as a proleptic ordinal: day 1 is a Monday.
  type Date = int

  // A time of day; only its order is used.
  type Time = nat

  datatype Prayer = Fajr | Dhuhr | Asr | Maghrib | Isha | Jumuah

  datatype Status = Pending | Approved | Rejected | Superseded

  datatype SourceType =
    | MyLocalMasjid | MosqueWebsite | OpenStreetMap | MuslimsInBritain | CharityRegister
    | OscrRegister | Community | ManualEntry | PartnerFeed

  datatype Policy = PublicRedistributionAllowed | PrivateUseOnly | UnknownPolicy | Blocked

  datatype ExtractionKind = Deterministic | Ocr | Ai | ManualRun

  datatype Confidence = Verified | OfficialImport | PartnerImport | CommunityLevel | Calculated

  datatype Source = Source(
    sourceType: SourceType, policy: Policy, mosqueId: Option<Id>, sourceUrl: Option<string>,
    confidence: Confidence)

  // The evidence entries that later steps read.
  datatype Evidence = Evidence(linkbackUrl: Option<string>, contract: Option<string>, gatePassed: bool)

  datatype ErrorCode =
    | InvalidTimezone | MissingMosque | MissingJamaat | InvalidSessionNumber | DateOutOfRange
    | JumuahNotFriday | JamaatBeforeStart | DuplicateSession

  datatype Candidate = Candidate(
    mosqueId: Option<Id>, sourceId: Id, runId: Option<Id>, date: Date, prayer: Prayer,
    session: int, start: Option<Time>, jamaat: Option<Time>, sessionLabel: Option<string>,
    timezone: string, confidence: Confidence, evidence: Evidence, status: Status,
    errors: seq<ErrorCode>)

  // What identifies a published row inside one version (the table's unique constraint).
  datatype Key = Key(mosqueId: Id, date: Date, prayer: Prayer, session: int)

  // What the duplicate check compares: unlike Key, it includes the source.
  datatype NaturalKey = NaturalKey(mosqueId: Id, sourceId: Id, date: Date, prayer: Prayer, session: int)

  // A published row; its mosque, date, prayer and session are the key it is stored under.
  datatype Occurrence = Occurrence(
    sourceId: Id, candidateId: Id, start: Option<Time>, jamaat: Time, sessionLabel: Option<string>,
    timezone: string, confidence: Confidence, sourceUrl: Option<string>)

  // `publicAtWrite` records which sources were public when the version was written.
  datatype Version = Version(rows: map<Key, Occurrence>, publicAtWrite: set<Id>)

  datatype EventKind = OccurrencePublished | OccurrenceRemoved

  // The row an event refers to is the row stored under `key` in version number `version`.
  datatype Event = Event(kind: EventKind, key: Key, version: nat)

  datatype Settings = Settings(pastDays: int, futureDays: int, publishAllowAi: bool, autoApprove: bool)

  // Today's date in every known time zone; a zone outside the map is unknown.
  type Clock = map<string, Date>

  datatype State = State(
    sources: map<Id, Source>, mosques: set<Id>, runs: map<Id, ExtractionKind>,
    candidates: map<Id, Candidate>, versions: seq<Version>, feed: seq<Event>)

  // --- keys ---

  predicate Active(c: Candidate) {
    c.status == Pending || c.status == Approved
  }

  function NaturalKeyOf(c: Candidate): Option<NaturalKey> {
    if c.mosqueId.None? then None
    else Some(NaturalKey(c.mosqueId.value, c.sourceId, c.date, c.prayer, c.session))
  }

  function KeyOf(c: Candidate): Key
    requires c.mosqueId.Some?
  {
    Key(c.mosqueId.value, c.date, c.prayer, c.session)
  }

  // The other active candidates for the same natural key: the pairwise definition of a duplicate.
  function Duplicates(candidates: map<Id, Candidate>, id: Id): set<Id>
    requires id in candidates
  {
    set d | d in candidates && d != id && Active(candidates[d])
            && NaturalKeyOf(candidates[d]).Some?
            && NaturalKeyOf(candidates[d]) == NaturalKeyOf(candidates[id])
  }

  // --- validation ---

  // Monday is 0, as for Python's date.weekday().
  function Weekday(d: Date): nat {
    (d + 6) % 7
  }

  const FRIDAY: nat := 4

  function TimezoneName(c: Candidate): string {
    if c.timezone == "" then "Europe/London" else c.timezone
  }

  predicate Flawed(code: ErrorCode, c: Candidate, duplicates: set<Id>, cfg: Settings, clock: Clock) {
    var tz := TimezoneName(c);
    match code
    case InvalidTimezone => tz !in clock
    case MissingMosque => c.mosqueId.None?
    case MissingJamaat => c.jamaat.None?
    case InvalidSessionNumber => c.session < 1
    case DateOutOfRange =>
      tz in clock && (c.date < clock[tz] - cfg.pastDays || c.date > clock[tz] + cfg.futureDays)
    case JumuahNotFriday => tz in clock && c.prayer == Jumuah && Weekday(c.date) != FRIDAY
    case JamaatBeforeStart =>
      tz in clock && c.start.Some? && c.jamaat.Some? && c.jamaat.value < c.start.value
    case DuplicateSession => duplicates != {}
  }

  function Append(errors: seq<ErrorCode>, flawed: bool, code: ErrorCode): seq<ErrorCode> {
    if flawed then errors + [code] else errors
  }

  function RowErrors(c: Candidate, cfg: Settings, clock: Clock): seq<ErrorCode> {
    var e := Append([], Flawed(InvalidTimezone, c, {}, cfg, clock), InvalidTimezone);
    var e := Append(e, Flawed(MissingMosque, c, {}, cfg, clock), MissingMosque);
    var e := Append(e, Flawed(MissingJamaat, c, {}, cfg, clock), MissingJamaat);
    Append(e, Flawed(InvalidSessionNumber, c, {}, cfg, clock), InvalidSessionNumber)
  }

  function DayErrors(e: seq<ErrorCode>, c: Candidate, cfg: Settings, clock: Clock): seq<ErrorCode> {
    var e := Append(e, Flawed(DateOutOfRange, c, {}, cfg, clock), DateOutOfRange);
    var e := Append(e, Flawed(JumuahNotFriday, c, {}, cfg, clock), JumuahNotFriday);
    Append(e, Flawed(JamaatBeforeStart, c, {}, cfg, clock), JamaatBeforeStart)
  }

  // The error list in the order the checks run.
  function ErrorsOf(c: Candidate, duplicates: set<Id>, cfg: Settings, clock: Clock): seq<ErrorCode> {
    var e := DayErrors(RowErrors(c, cfg, clock), c, cfg, clock);
    Append(e, Flawed(DuplicateSession, c, duplicates, cfg, clock), DuplicateSession)
  }

  lemma RowErrorsExact(c: Candidate, cfg: Settings, clock: Clock, code: ErrorCode)
    ensures code in RowErrors(c, cfg, clock) <==>
      (code.InvalidTimezone? || code.MissingMosque? || code.MissingJamaat? || code.InvalidSessionNumber?)
      && Flawed(code, c, {}, cfg, clock)
  {
  }

  lemma DayErrorsExact(e: seq<ErrorCode>, c: Candidate, cfg: Settings, clock: Clock, code: ErrorCode)
    ensures code in DayErrors(e, c, cfg, clock) <==>
      || code in e
      || ((code.DateOutOfRange? || code.JumuahNotFriday? || code.JamaatBeforeStart?)
          && Flawed(code, c, {}, cfg, clock))
  {
  }

  // An error is reported exactly when its flaw is present.
  lemma ErrorsExact(c: Candidate, duplicates: set<Id>, cfg: Settings, clock: Clock, code: ErrorCode)
    ensures code in ErrorsOf(c, duplicates, cfg, clock) <==> Flawed(code, c, duplicates, cfg, clock)
  {
    hide RowErrors, DayErrors;
    RowErrorsExact(c, cfg, clock, code);
    DayErrorsExact(RowErrors(c, cfg, clock), c, cfg, clock, code);
  }

  // --- policy ---

  predicate IsPublic(sources: map<Id, Source>, id: Id) {
    id in sources && sources[id].policy == PublicRedistributionAllowed
  }

  const REPO_CONTRACT := "repo_site_extractor/v1"

  predicate RequiresManualApproval(source: Source, kind: Option<ExtractionKind>, c: Candidate, cfg: Settings) {
    if kind == Some(Ai) then true
    else if source.sourceType == Community then true
    else if source.sourceType == MosqueWebsite then
      !cfg.autoApprove || c.evidence.contract != Some(REPO_CONTRACT) || !c.evidence.gatePassed
    else false
  }

  function StatusAfterValidation(errors: seq<ErrorCode>, manual: bool): Status {
    if errors != [] then Rejected else if manual then Pending else Approved
  }

  function KindOf(runs: map<Id, ExtractionKind>, c: Candidate): Option<ExtractionKind> {
    if c.runId.None? then None
    else if c.runId.value in runs then Some(runs[c.runId.value])
    else None
  }

  // --- filters ---

  datatype Filter = Filter(
    sourceId: Option<Id>, mosqueId: Option<Id>, dateFrom: Option<Date>, dateTo: Option<Date>)

  const NO_FILTER := Filter(None, None, None, None)

  predicate Selects(f: Filter, c: Candidate) {
    && (f.sourceId.Some? ==> c.sourceId == f.sourceId.value)
    && (f.mosqueId.Some? ==> c.mosqueId == Some(f.mosqueId.value))
    && (f.dateFrom.Some? ==> c.date >= f.dateFrom.value)
    && (f.dateTo.Some? ==> c.date <= f.dateTo.value)
  }

  // What a validation run selects; an empty set of sources restricts nothing.
  datatype Selection = Selection(filter: Filter, sourceIds: set<Id>)

  predicate SelectedBy(v: Selection, c: Candidate) {
    (v.sourceIds != {} ==> c.sourceId in v.sourceIds) && Selects(v.filter, c)
  }

  predicate FiltersActive(f: Filter) {
    f.sourceId.Some? || f.mosqueId.Some? || f.dateFrom.Some? || f.dateTo.Some?
  }

  predicate InReplaceScope(f: Filter, key: Key, row: Occurrence) {
    if !FiltersActive(f) then true
    else if f.mosqueId.Some? && key.mosqueId != f.mosqueId.value then false
    else if f.sourceId.Some? && row.sourceId != f.sourceId.value then false
    else if f.dateFrom.Some? && key.date < f.dateFrom.value then false
    else if f.dateTo.Some? && key.date > f.dateTo.value then false
    else true
  }
}
