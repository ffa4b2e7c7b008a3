/** Two whole runs, from empty tables, in which a publish does what its documentation does not say. */
module ScheduleRuns {
  import opened Wrappers
  import opened Listing
  import opened ScheduleModel
  import opened ScheduleSpec
  import opened ScheduleReplay

  const CFG := Settings(7, 400, false, true)
  const CLOCK: Clock := map["Europe/London" := 0]

  // The feed of one mosque, as MyLocalMasjid delivers it.
  function MosqueFeed(mosque: Id, policy: Policy): Source {
    Source(MyLocalMasjid, policy, Some(mosque), None, PartnerImport)
  }

  // Feed 1 of mosque 7 and feed 2 of the given mosque, each with its import run.
  function Tables(second: Id): State {
    State(map[1 := MosqueFeed(7, PublicRedistributionAllowed), 2 := MosqueFeed(second, PublicRedistributionAllowed)],
          {7, 8}, map[1 := Deterministic, 2 := Deterministic], map[], [], [])
  }

  const TIMEZONE := "Europe/London"

  // Fajr at five on the day of the clock.
  function Upload(mosque: Id, source: Id): UpsertArgs {
    UpsertArgs(mosque, source, Some(source), 0, Fajr, 1, None, 300, None, TIMEZONE, Evidence(None, None, false))
  }

  function Uploaded(mosque: Id, source: Id, status: Status): Candidate {
    Candidate(Some(mosque), source, Some(source), 0, Fajr, 1, None, Some(300), None, TIMEZONE, PartnerImport,
              Evidence(None, None, false), status, [])
  }

  function UploadKey(mosque: Id): Key {
    Key(mosque, 0, Fajr, 1)
  }

  function UploadRow(source: Id, id: Id): Occurrence {
    Occurrence(source, id, None, 300, None, TIMEZONE, PartnerImport, None)
  }

  // Two feeds, of which the first may have gone private; the feed uploads for its own mosque.
  predicate Feeds(s: State) {
    && s.sources.Keys == {1, 2} && s.mosques == {7, 8} && s.runs == map[1 := Deterministic, 2 := Deterministic]
    && (s.sources[1] == MosqueFeed(7, PublicRedistributionAllowed) || s.sources[1] == MosqueFeed(7, PrivateUseOnly))
    && (s.sources[2] == MosqueFeed(7, PublicRedistributionAllowed)
        || s.sources[2] == MosqueFeed(8, PublicRedistributionAllowed))
  }

  predicate UploadsFor(s: State, source: Id, mosque: Id) {
    Feeds(s) && source in {1, 2} && s.sources[source].mosqueId == Some(mosque)
  }

  // An import validates what its own source has.
  function Only(source: Id): Selection {
    Selection(NO_FILTER, {source})
  }

  predicate NoneActiveBut(s: State, id: Id) {
    forall d :: d in s.candidates && d != id ==> !Active(s.candidates[d])
  }

  // --- the three steps that bring a row from a source to approval ---

  lemma UploadStep(s: State, mosque: Id, source: Id, id: Id, s': State)
    requires UploadsFor(s, source, mosque) && id !in s.candidates && NoneActiveBut(s, id)
    requires s' == s.(candidates := s.candidates[id := Uploaded(mosque, source, Pending)])
    ensures Step(CFG, Upsert(Upload(mosque, source), id), s, s')
  {
    assert ActiveTwins(s.candidates, Upload(mosque, source)) == {};
  }

  lemma UploadIsSound(s: State, mosque: Id, source: Id, id: Id, status: Status)
    requires UploadsFor(s, source, mosque) && NoneActiveBut(s, id)
    requires id in s.candidates && s.candidates[id] == Uploaded(mosque, source, status)
    ensures ErrorsIn(s, id, CFG, CLOCK) == [] && EvaluatedStatus(s, id, CFG, CLOCK) == Approved
    ensures PolicyAllows(s, id, CFG) <==> IsPublic(s.sources, source)
  {
    assert Duplicates(s.candidates, id) == {};
  }

  lemma ValidateApproves(s: State, mosque: Id, source: Id, id: Id, s': State)
    requires UploadsFor(s, source, mosque) && NoneActiveBut(s, id)
    requires id in s.candidates && s.candidates[id] == Uploaded(mosque, source, Pending)
    requires s' == s.(candidates := s.candidates[id := Uploaded(mosque, source, Approved)])
    ensures Step(CFG, Validate(Only(source), true, CLOCK), s, s')
  {
    hide ErrorsIn, EvaluatedStatus;
    UploadIsSound(s, mosque, source, id, Pending);
    OnlyOneSelected(s, source, id);
    assert ValidatedRows(s, {id}, true, CFG, CLOCK) == s'.candidates;
  }

  lemma OnlyOneSelected(s: State, source: Id, id: Id)
    requires NoneActiveBut(s, id) && id in s.candidates && Active(s.candidates[id])
    requires s.candidates[id].sourceId == source
    ensures (set d | d in s.candidates && ValidateSelected(s, Only(source), d)) == {id}
  {
  }

  lemma BatchIsUpload(s: State, f: Filter, mosque: Id, source: Id, id: Id)
    requires UploadsFor(s, source, mosque) && NoneActiveBut(s, id) && IsPublic(s.sources, source)
    requires id in s.candidates && s.candidates[id] == Uploaded(mosque, source, Approved)
    requires Selects(f, s.candidates[id])
    ensures Batch(s, f, CFG, CLOCK) == {id} && Ready(s, {id}) && DistinctKeys(s, {id})
    ensures BatchKeys(s, {id}) == {UploadKey(mosque)}
  {
    hide ErrorsIn, EvaluatedStatus, PolicyAllows;
    UploadIsSound(s, mosque, source, id, Approved);
    assert Publishable(s, id, CFG, CLOCK);
    assert KeyOf(s.candidates[id]) == UploadKey(mosque);
  }

  // Nothing public is in the latest version: the upload alone makes the next one.
  function AfterPublish(s: State, mosque: Id, source: Id, id: Id): State {
    s.(candidates := s.candidates[id := Uploaded(mosque, source, Superseded)],
       versions := s.versions + [Version(map[UploadKey(mosque) := UploadRow(source, id)],
                                         set x | x in s.sources && IsPublic(s.sources, x))],
       feed := s.feed + [Event(OccurrencePublished, UploadKey(mosque), |s.versions|)])
  }

  predicate ReadyToPublish(s: State, mosque: Id, source: Id, id: Id) {
    && UploadsFor(s, source, mosque) && NoneActiveBut(s, id) && IsPublic(s.sources, source)
    && id in s.candidates && s.candidates[id] == Uploaded(mosque, source, Approved)
  }

  lemma UploadRows(s: State, mosque: Id, source: Id, id: Id)
    requires ReadyToPublish(s, mosque, source, id) && Previous(s) == map[]
    ensures Ready(s, {id}) && NewRows(s, NO_FILTER, {id}, map[UploadKey(mosque) := UploadRow(source, id)])
    ensures Commits(s, NO_FILTER, {id})
  {
    hide Previous, Batch;
    BatchIsUpload(s, NO_FILTER, mosque, source, id);
    assert RowFor(s, Previous(s), id, map[UploadKey(mosque) := UploadRow(source, id)]);
  }

  lemma UploadPublished(s: State, mosque: Id, source: Id, id: Id)
    requires ReadyToPublish(s, mosque, source, id) && Previous(s) == map[]
    ensures Ready(s, {id}) && Published(s, NO_FILTER, {id}, AfterPublish(s, mosque, source, id))
  {
    hide Previous, NewRows, OwedEvents, Commits, Lists;
    UploadRows(s, mosque, source, id);
    UploadIsOwed(s, mosque, source, id);
    var s' := AfterPublish(s, mosque, source, id);
    assert WithSuperseded(s.candidates, {id}) == s'.candidates;
    assert s'.feed[|s.feed|..] == [Event(OccurrencePublished, UploadKey(mosque), |s.versions|)];
  }

  lemma PublishesUpload(s: State, mosque: Id, source: Id, id: Id)
    requires ReadyToPublish(s, mosque, source, id) && Previous(s) == map[]
    ensures Step(CFG, Publish(NO_FILTER, CLOCK), s, AfterPublish(s, mosque, source, id))
  {
    hide Batch, Previous, Published, Commits, ReadyToPublish, AfterPublish;
    UploadMeansBatch(s, NO_FILTER, mosque, source, id);
    UploadRows(s, mosque, source, id);
    UploadPublished(s, mosque, source, id);
  }

  lemma UploadMeansBatch(s: State, f: Filter, mosque: Id, source: Id, id: Id)
    requires ReadyToPublish(s, mosque, source, id) && Selects(f, s.candidates[id])
    ensures Batch(s, f, CFG, CLOCK) == {id}
  {
    hide Batch;
    BatchIsUpload(s, f, mosque, source, id);
  }

  lemma UploadIsOwed(s: State, mosque: Id, source: Id, id: Id)
    requires Ready(s, {id}) && s.candidates[id] == Uploaded(mosque, source, Approved) && Previous(s) == map[]
    ensures
      var e := Event(OccurrencePublished, UploadKey(mosque), |s.versions|);
      OwedEvents(s, NO_FILTER, {id}) == {e} && Lists([e], OwedEvents(s, NO_FILTER, {id}))
  {
    hide Previous;
    var e := Event(OccurrencePublished, UploadKey(mosque), |s.versions|);
    assert !Unchanged(Previous(s), s.candidates[id]);
    forall x ensures x in OwedEvents(s, NO_FILTER, {id}) <==> x == e {
      assert id in {id} && KeyOf(s.candidates[id]) == UploadKey(mosque);
    }
    assert Elems([e]) == {e};
  }

  // --- the two runs ---

  function Withdrawn(s: State): State {
    s.(sources := s.sources[1 := MosqueFeed(7, PrivateUseOnly)])
  }

  // Both begin by publishing what source 1 says of mosque 7.
  function FirstStates(second: Id): seq<State> {
    var s0 := Tables(second);
    var s1 := s0.(candidates := map[0 := Uploaded(7, 1, Pending)]);
    var s2 := s0.(candidates := map[0 := Uploaded(7, 1, Approved)]);
    [s0, s1, s2, AfterPublish(s2, 7, 1, 0)]
  }

  function FirstOps(): seq<Op> {
    [Upsert(Upload(7, 1), 0), Validate(Only(1), true, CLOCK), Publish(NO_FILTER, CLOCK)]
  }

  lemma FirstSteps(second: Id)
    requires second in {7, 8}
    ensures forall i :: 0 <= i < 3 ==> Step(CFG, FirstOps()[i], FirstStates(second)[i], FirstStates(second)[i + 1])
  {
    hide Step, AfterPublish;
    var states := FirstStates(second);
    assert states[0].candidates[0 := Uploaded(7, 1, Pending)] == states[1].candidates;
    UploadStep(states[0], 7, 1, 0, states[1]);
    assert states[1].candidates[0 := Uploaded(7, 1, Approved)] == states[2].candidates;
    ValidateApproves(states[1], 7, 1, 0, states[2]);
    PublishesUpload(states[2], 7, 1, 0);
  }

  // The next upload, approved.
  function NextUpload(s: State, mosque: Id, status: Status): State {
    s.(candidates := s.candidates[1 := Uploaded(mosque, 2, status)])
  }

  lemma NextSteps(s: State, mosque: Id)
    requires UploadsFor(s, 2, mosque) && s.candidates == map[0 := Uploaded(7, 1, Superseded)]
    ensures Step(CFG, Upsert(Upload(mosque, 2), 1), s, NextUpload(s, mosque, Pending))
    ensures Step(CFG, Validate(Only(2), true, CLOCK), NextUpload(s, mosque, Pending), NextUpload(s, mosque, Approved))
    ensures ReadyToPublish(NextUpload(s, mosque, Approved), mosque, 2, 1)
  {
    hide Step;
    var s1, s2 := NextUpload(s, mosque, Pending), NextUpload(s, mosque, Approved);
    UploadStep(s, mosque, 2, 1, s1);
    assert s1.candidates[1 := Uploaded(mosque, 2, Approved)] == s2.candidates;
    ValidateApproves(s1, mosque, 2, 1, s2);
  }

  // Publishing source 2 alone is rolled back although its batch is in order: source 1 holds the key.
  lemma SourceFilterCanCollide() returns (states: seq<State>, ops: seq<Op>)
    ensures IsRun(CFG, states, ops) && |ops| == 6
    ensures
      var s, f := states[5], Filter(Some(2), None, None, None);
      && ops[5] == Publish(f, CLOCK) && states[6] == s
      && Batch(s, f, CFG, CLOCK) == {1} && Ready(s, {1}) && DistinctKeys(s, {1}) && !Commits(s, f, {1})
  {
    hide Step, Batch;
    var f := Filter(Some(2), None, None, None);
    var s3 := FirstStates(7)[3];
    var s4, s5 := NextUpload(s3, 7, Pending), NextUpload(s3, 7, Approved);
    states := FirstStates(7) + [s4, s5, s5];
    ops := FirstOps() + [Upsert(Upload(7, 2), 1), Validate(Only(2), true, CLOCK), Publish(f, CLOCK)];
    FirstSteps(7);
    FirstPublished(7);
    NextSteps(s3, 7);
    Collides(s5);
  }

  lemma FirstPublished(second: Id)
    requires second in {7, 8}
    ensures
      var s := FirstStates(second)[3];
      && Feeds(s) && s.sources == Tables(second).sources && s.candidates == map[0 := Uploaded(7, 1, Superseded)]
      && Latest(s) == map[UploadKey(7) := UploadRow(1, 0)] && |s.versions| == 1
      && s.feed == [Event(OccurrencePublished, UploadKey(7), 0)]
  {
  }

  lemma Collides(s: State)
    requires ReadyToPublish(s, 7, 2, 1) && Latest(s) == map[UploadKey(7) := UploadRow(1, 0)] && IsPublic(s.sources, 1)
    ensures
      var f := Filter(Some(2), None, None, None);
      && Step(CFG, Publish(f, CLOCK), s, s)
      && Batch(s, f, CFG, CLOCK) == {1} && Ready(s, {1}) && DistinctKeys(s, {1}) && !Commits(s, f, {1})
  {
    hide Batch;
    var f := Filter(Some(2), None, None, None);
    BatchIsUpload(s, f, 7, 2, 1);
    assert UploadKey(7) in Previous(s) && KeyOf(s.candidates[1]) == UploadKey(7);
    assert !NoScopeCollision(s, f, {1});
  }

  // After source 1 goes private, publishing another mosque drops its row without a word in the feed:
  // a reader of the feed still shows it.
  lemma WithdrawnRowIsDroppedSilently() returns (states: seq<State>, ops: seq<Op>)
    ensures IsRun(CFG, states, ops) && |ops| == 7
    ensures DropsSilently(CFG, ops[6], states[6], states[7])
    ensures UploadKey(7) in Latest(states[6]) && UploadKey(7) !in Latest(states[7])
    ensures forall e :: e in states[7].feed ==> e.kind == OccurrencePublished
    ensures !FeedRebuildsLatest(states[7])
  {
    hide Step, Batch, DropsSilently, FeedRebuildsLatest, Feeds, ReadyToPublish;
    var s3 := FirstStates(8)[3];
    var s4 := Withdrawn(s3);
    var s5, s6 := NextUpload(s4, 8, Pending), NextUpload(s4, 8, Approved);
    var s7 := AfterPublish(s6, 8, 2, 1);
    states := FirstStates(8) + [s4, s5, s6, s7];
    ops := FirstOps()
      + [Environment, Upsert(Upload(8, 2), 1), Validate(Only(2), true, CLOCK), Publish(NO_FILTER, CLOCK)];
    FirstSteps(8);
    FirstPublished(8);
    Withdraws(s3);
    NextSteps(s4, 8);
    PublishesUpload(s6, 8, 2, 1);
    Drops(s6, s7);
    StillShown(s6, s7);
  }

  lemma StillShown(s: State, s': State)
    requires s.feed == [Event(OccurrencePublished, UploadKey(7), 0)] && |s.versions| == 1
    requires Latest(s) == map[UploadKey(7) := UploadRow(1, 0)] && s' == AfterPublish(s, 8, 2, 1)
    ensures UploadKey(7) !in Latest(s') && !FeedRebuildsLatest(s')
    ensures forall e :: e in s'.feed ==> e.kind == OccurrencePublished
  {
    var first, second := s.feed[0], Event(OccurrencePublished, UploadKey(8), 1);
    assert s'.feed == [first, second] && [first, second][..1] == [first] && [first][..0] == [];
    assert s'.versions[0] == s.versions[0];
    var shown := Replayed(map[], s'.versions, [first]);
    assert Resolves(s'.versions, first) && UploadKey(7) in shown;
    assert Replayed(map[], s'.versions, s'.feed) == Applied(shown, s'.versions, second);
    assert UploadKey(7) !in Contents(Latest(s'));
  }

  lemma Withdraws(s: State)
    requires UploadsFor(s, 2, 8) && Latest(s) == map[UploadKey(7) := UploadRow(1, 0)]
    ensures Step(CFG, Environment, s, Withdrawn(s)) && UploadsFor(Withdrawn(s), 2, 8) && Previous(Withdrawn(s)) == map[]
  {
  }

  lemma Drops(s: State, s': State)
    requires ReadyToPublish(s, 8, 2, 1) && Previous(s) == map[] && UploadKey(7) in Latest(s)
    requires s' == AfterPublish(s, 8, 2, 1)
    ensures DropsSilently(CFG, Publish(NO_FILTER, CLOCK), s, s')
  {
    hide Batch, Previous;
    BatchIsReady(s, NO_FILTER, CFG, CLOCK);
    BatchIsUpload(s, NO_FILTER, 8, 2, 1);
    assert |s'.versions| == |s.versions| + 1;
    assert UploadKey(7) in SilentlyDropped(s, {1});
  }
}
