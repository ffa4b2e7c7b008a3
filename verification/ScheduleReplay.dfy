/**
 Replaying the change feed: setting a key on a publish event and deleting it on a removal
 rebuilds the latest snapshot, as long as no source loses its public policy in between.
 */
module ScheduleReplay {
  import opened Wrappers
  import opened Listing
  import opened ScheduleModel
  import opened ScheduleSpec
  import opened ScheduleInvariants
  import opened ScheduleFeed

  // What a reader of the feed reconstructs for a key: everything but the candidate it came from.
  datatype Content = Content(
    sourceId: Id, start: Option<Time>, jamaat: Time, sessionLabel: Option<string>, timezone: string,
    confidence: Confidence, sourceUrl: Option<string>)

  function ContentOf(row: Occurrence): Content {
    Content(row.sourceId, row.start, row.jamaat, row.sessionLabel, row.timezone, row.confidence, row.sourceUrl)
  }

  function Contents(rows: map<Key, Occurrence>): map<Key, Content> {
    map k | k in rows :: ContentOf(rows[k])
  }

  // A publish event refers to a row of its version; a removal names the key it deletes.
  predicate Resolves(versions: seq<Version>, e: Event) {
    e.version < |versions| && (e.kind == OccurrencePublished ==> e.key in versions[e.version].rows)
  }

  function Applied(m: map<Key, Content>, versions: seq<Version>, e: Event): map<Key, Content> {
    if !Resolves(versions, e) then m
    else match e.kind
      case OccurrencePublished => m[e.key := ContentOf(versions[e.version].rows[e.key])]
      case OccurrenceRemoved => m - {e.key}
  }

  function Replayed(m: map<Key, Content>, versions: seq<Version>, feed: seq<Event>): map<Key, Content> {
    if feed == [] then m
    else Applied(Replayed(m, versions, feed[..|feed| - 1]), versions, feed[|feed| - 1])
  }

  ghost predicate FeedResolves(s: State) {
    forall i :: 0 <= i < |s.feed| ==> Resolves(s.versions, s.feed[i])
  }

  ghost predicate FeedRebuildsLatest(s: State) {
    Replayed(map[], s.versions, s.feed) == Contents(Latest(s))
  }

  lemma {:induction false} ReplayedConcat(m: map<Key, Content>, versions: seq<Version>, a: seq<Event>, b: seq<Event>)
    ensures Replayed(m, versions, a + b) == Replayed(Replayed(m, versions, a), versions, b)
  {
    if b == [] {
      assert a + b == a;
    } else {
      ReplayedConcat(m, versions, a, b[..|b| - 1]);
      assert (a + b)[..|a + b| - 1] == a + b[..|b| - 1];
    }
  }

  // Adding versions does not change what the events already in the feed mean.
  lemma {:induction false} ReplayedStable(
    m: map<Key, Content>, versions: seq<Version>, more: seq<Version>, feed: seq<Event>)
    requires versions <= more
    requires forall i :: 0 <= i < |feed| ==> Resolves(versions, feed[i])
    ensures Replayed(m, more, feed) == Replayed(m, versions, feed)
  {
    if feed != [] {
      ReplayedStable(m, versions, more, feed[..|feed| - 1]);
      assert Resolves(versions, feed[|feed| - 1]);
    }
  }

  ghost predicate OnePerKey(events: seq<Event>) {
    forall i, j :: 0 <= i < j < |events| ==> events[i].key != events[j].key
  }

  // The last word on a key is the one event for it, or the map replayed over.
  lemma {:induction false} ReplayedAtKey(m: map<Key, Content>, versions: seq<Version>, events: seq<Event>, k: Key)
    requires OnePerKey(events) && forall i :: 0 <= i < |events| ==> Resolves(versions, events[i])
    ensures
      var r := Replayed(m, versions, events);
      && (forall i :: 0 <= i < |events| && events[i].key == k ==>
            match events[i].kind
            case OccurrencePublished =>
              Resolves(versions, events[i]) && k in r && r[k] == ContentOf(versions[events[i].version].rows[k])
            case OccurrenceRemoved => k !in r)
      && ((forall i :: 0 <= i < |events| ==> events[i].key != k) ==>
            (k in r <==> k in m) && (k in m ==> r[k] == m[k]))
  {
    if events != [] {
      var n := |events| - 1;
      var front := events[..n];
      assert forall i :: 0 <= i < n ==> front[i] == events[i];
      ReplayedAtKey(m, versions, front, k);
    }
  }

  // The news of one publish name each key at most once.
  lemma NewsOnePerKey(s: State, f: Filter, batch: set<Id>, s': State)
    requires Ready(s, batch) && Published(s, f, batch, s')
    ensures OnePerKey(News(s, s'))
    ensures forall i :: 0 <= i < |News(s, s')| ==> Resolves(s'.versions, News(s, s')[i])
  {
    hide NewRows, OwedEvents, WithSuperseded, Previous, Differs;
    var news := News(s, s');
    var n := |s.versions|;
    ListsDistinct(news, OwedEvents(s, f, batch));
    forall i | 0 <= i < |news|
      ensures news[i] in ExpectedEvents(Previous(s), Latest(s'), news[i].key, n)
    {
      EventExactlyOnDifference(s, f, batch, s', news[i]);
    }
  }

  // Rows of the latest version whose source is no longer public and whose key the batch does not
  // write: they leave the snapshot without an event.
  function SilentlyDropped(s: State, batch: set<Id>): set<Key>
    requires Ready(s, batch)
  {
    Latest(s).Keys - Previous(s).Keys - BatchKeys(s, batch)
  }

  lemma ReplayAfterPublishAt(s: State, f: Filter, batch: set<Id>, s': State, k: Key)
    requires Ready(s, batch) && Published(s, f, batch, s')
    ensures
      var r := Replayed(Contents(Latest(s)), s'.versions, News(s, s'));
      if k in SilentlyDropped(s, batch) then k in r && k !in Latest(s')
      else (k in r <==> k in Latest(s')) && (k in r ==> r[k] == ContentOf(Latest(s')[k]))
  {
    hide OwedEvents, WithSuperseded, Differs, Replayed, Published;
    var news, n := News(s, s'), |s.versions|;
    NewsOnePerKey(s, f, batch, s');
    ReplayedAtKey(Contents(Latest(s)), s'.versions, news, k);
    KeyStory(s, f, batch, s', k);
    EventExactlyOnDifference(s, f, batch, s', Event(OccurrencePublished, k, n));
    EventExactlyOnDifference(s, f, batch, s', Event(OccurrenceRemoved, k, n));
    assert Event(OccurrencePublished, k, n) in news || Event(OccurrenceRemoved, k, n) in news
      || forall i :: 0 <= i < |news| ==> news[i].key != k by {
      forall i | 0 <= i < |news| && news[i].key == k ensures news[i].version == n {
        EventExactlyOnDifference(s, f, batch, s', news[i]);
      }
    }
  }

  // Without an event, a key of the new version has the content it had before.
  lemma KeyStory(s: State, f: Filter, batch: set<Id>, s': State, k: Key)
    requires Ready(s, batch) && Published(s, f, batch, s')
    ensures |s'.versions| == |s.versions| + 1 && Latest(s') == s'.versions[|s.versions|].rows
    ensures k in SilentlyDropped(s, batch) ==> k !in Latest(s')
    ensures k in Latest(s') && k in Previous(s) && !Differs(Previous(s)[k], Latest(s')[k]) ==>
      k in Latest(s) && ContentOf(Latest(s')[k]) == ContentOf(Latest(s)[k])
    ensures k in Latest(s) && k !in Previous(s) && k !in SilentlyDropped(s, batch) ==> k in Latest(s')
  {
    hide OwedEvents, WithSuperseded, NewRows, BatchKeys, CarriedKeys, Previous, Differs, ContentOf;
    NewRowsKeys(s, f, batch, Latest(s'));
    CarriedWerePublic(s, f, batch);
    if k in BatchKeys(s, batch) {
      BatchContent(s, f, batch, Latest(s'), k);
    } else {
      CarriedContent(s, f, batch, Latest(s'), k);
    }
  }

  lemma CarriedWerePublic(s: State, f: Filter, batch: set<Id>)
    requires Ready(s, batch)
    ensures CarriedKeys(s, f, batch) <= Previous(s).Keys <= Latest(s).Keys
  {
    hide BatchKeys;
  }

  lemma BatchContent(s: State, f: Filter, batch: set<Id>, rows: map<Key, Occurrence>, k: Key)
    requires Ready(s, batch) && NewRows(s, f, batch, rows) && k in BatchKeys(s, batch) && k in rows
    ensures k in Previous(s) && !Differs(Previous(s)[k], rows[k]) ==>
      k in Latest(s) && ContentOf(rows[k]) == ContentOf(Latest(s)[k])
  {
    hide CarriedKeys, KeepsRows, Linkback;
    var id :| id in batch && KeyOf(s.candidates[id]) == k;
    RowOfBatch(s, f, batch, rows, id);
  }

  lemma CarriedContent(s: State, f: Filter, batch: set<Id>, rows: map<Key, Occurrence>, k: Key)
    requires Ready(s, batch) && NewRows(s, f, batch, rows) && k !in BatchKeys(s, batch)
    ensures k in rows ==> k in Latest(s) && rows[k] == Latest(s)[k]
  {
    hide BatchKeys, HasBatchRows;
    if k in rows { assert k in CarriedKeys(s, f, batch); }
  }

  lemma RowOfBatch(s: State, f: Filter, batch: set<Id>, rows: map<Key, Occurrence>, id: Id)
    requires Ready(s, batch) && NewRows(s, f, batch, rows) && id in batch
    ensures RowFor(s, Previous(s), id, rows)
  {
    hide RowFor, Previous;
  }

  // A publish keeps the feed and the snapshot in step exactly when it drops no row silently.
  lemma ReplayExactlyWithoutSilentDrops(s: State, f: Filter, batch: set<Id>, s': State)
    requires Ready(s, batch) && Published(s, f, batch, s') && FeedResolves(s) && FeedRebuildsLatest(s)
    ensures FeedResolves(s')
    ensures FeedRebuildsLatest(s') <==> SilentlyDropped(s, batch) == {}
  {
    hide SilentlyDropped, Latest, Replayed, OwedEvents, NewRows, Contents, WithSuperseded;
    var news := News(s, s');
    assert s'.feed == s.feed + news;
    assert s.versions <= s'.versions;
    NewsOnePerKey(s, f, batch, s');
    ReplayedStable(map[], s.versions, s'.versions, s.feed);
    ReplayedConcat(map[], s'.versions, s.feed, news);
    ReplayComparison(s, f, batch, s');
  }

  lemma ReplayComparison(s: State, f: Filter, batch: set<Id>, s': State)
    requires Ready(s, batch) && Published(s, f, batch, s')
    ensures Replayed(Contents(Latest(s)), s'.versions, News(s, s')) == Contents(Latest(s')) <==>
      SilentlyDropped(s, batch) == {}
  {
    hide SilentlyDropped, Latest, Replayed, Published;
    var r := Replayed(Contents(Latest(s)), s'.versions, News(s, s'));
    forall k
      ensures if k in SilentlyDropped(s, batch) then k in r && k !in Latest(s')
        else (k in r <==> k in Latest(s')) && (k in r ==> r[k] == ContentOf(Latest(s')[k]))
    {
      ReplayAfterPublishAt(s, f, batch, s', k);
    }
    if SilentlyDropped(s, batch) == {} {
      assert r == Contents(Latest(s'));
    } else {
      var k :| k in SilentlyDropped(s, batch);
      assert k in r && k !in Contents(Latest(s'));
    }
  }

  // --- runs ---

  ghost predicate InStep(s: State) {
    FeedResolves(s) && FeedRebuildsLatest(s)
  }

  // A publish that commits and drops a row without an event.
  ghost predicate DropsSilently(cfg: Settings, op: Op, s: State, s': State) {
    op.Publish? && s' != s && BatchDropsSilently(s, op.filter, cfg, op.clock)
  }

  ghost predicate BatchDropsSilently(s: State, f: Filter, cfg: Settings, clock: Clock) {
    BatchIsReady(s, f, cfg, clock);
    SilentlyDropped(s, Batch(s, f, cfg, clock)) != {}
  }

  // From a state in which feed and snapshot are in step, a step leads to another one exactly when
  // it drops nothing silently.
  lemma StepKeepsInStep(cfg: Settings, op: Op, s: State, s': State)
    requires Step(cfg, op, s, s') && InStep(s)
    ensures InStep(s') <==> !DropsSilently(cfg, op, s, s')
  {
    hide FeedResolves, FeedRebuildsLatest, Batch, Commits, SilentlyDropped, Published;
    if op.Publish? && s' != s {
      BatchIsReady(s, op.filter, cfg, op.clock);
      ReplayExactlyWithoutSilentDrops(s, op.filter, Batch(s, op.filter, cfg, op.clock), s');
    } else {
      SameFeedStaysInStep(cfg, op, s, s');
    }
  }

  lemma SameFeedStaysInStep(cfg: Settings, op: Op, s: State, s': State)
    requires Step(cfg, op, s, s') && (op.Publish? ==> s' == s) && InStep(s)
    ensures InStep(s')
  {
    hide ErrorsIn, EvaluatedStatus, Batch, Commits, Replayed, Contents, UpsertOver, ValidatedRows, Approvable;
    assert s'.versions == s.versions && s'.feed == s.feed;
  }

  lemma {:induction false} InStepWithoutDrops(cfg: Settings, states: seq<State>, ops: seq<Op>, i: nat)
    requires IsRun(cfg, states, ops) && i < |states|
    requires forall j :: 0 <= j < i ==> !DropsSilently(cfg, ops[j], states[j], states[j + 1])
    ensures InStep(states[i])
  {
    hide Step, DropsSilently;
    if i == 0 {
      assert Replayed(map[], states[0].versions, []) == map[];
    } else {
      hide InStep;
      InStepWithoutDrops(cfg, states, ops, i - 1);
      StepKeepsInStep(cfg, ops[i - 1], states[i - 1], states[i]);
    }
  }

  // Over any run whatever: folding the whole feed gives the latest snapshot at every point if and
  // only if no publish drops a row silently.
  lemma FeedRebuildsExactly(cfg: Settings, states: seq<State>, ops: seq<Op>)
    requires IsRun(cfg, states, ops)
    ensures (forall i :: 0 <= i < |states| ==> InStep(states[i]))
      <==> forall i :: 0 <= i < |ops| ==> !DropsSilently(cfg, ops[i], states[i], states[i + 1])
  {
    hide Step, InStep, DropsSilently;
    if forall i :: 0 <= i < |ops| ==> !DropsSilently(cfg, ops[i], states[i], states[i + 1]) {
      forall i | 0 <= i < |states| ensures InStep(states[i]) {
        InStepWithoutDrops(cfg, states, ops, i);
      }
    } else {
      var i :| 0 <= i < |ops| && DropsSilently(cfg, ops[i], states[i], states[i + 1]);
      if InStep(states[i]) {
        StepKeepsInStep(cfg, ops[i], states[i], states[i + 1]);
      }
    }
  }

  // --- runs in which no source loses its public policy ---

  ghost predicate PoliciesKept(s: State, s': State) {
    forall id :: IsPublic(s.sources, id) ==> IsPublic(s'.sources, id)
  }

  ghost predicate LatestIsPublic(s: State) {
    forall k :: k in Latest(s) ==> IsPublic(s.sources, Latest(s)[k].sourceId)
  }

  lemma StepKeepsLatestPublic(cfg: Settings, op: Op, s: State, s': State)
    requires Step(cfg, op, s, s') && SnapshotsSafe(s) && LatestIsPublic(s) && PoliciesKept(s, s')
    ensures LatestIsPublic(s')
  {
    hide ErrorsIn, EvaluatedStatus, Batch, Commits, NewRows, OwedEvents, WithSuperseded, SafeRow, UpsertOver,
      ValidatedRows, Approvable, SnapshotsSafe;
    if op.Publish? && s' != s {
      BatchIsReady(s, op.filter, cfg, op.clock);
      NewVersionIsSafe(s, op.filter, cfg, op.clock, Latest(s'));
    } else {
      assert s'.versions == s.versions;
      assert Latest(s') == Latest(s);
      forall k | k in Latest(s') ensures IsPublic(s'.sources, Latest(s')[k].sourceId) {
        assert IsPublic(s.sources, Latest(s)[k].sourceId);
      }
    }
  }

  lemma {:induction false} LatestStaysPublic(cfg: Settings, states: seq<State>, ops: seq<Op>, i: nat)
    requires IsRun(cfg, states, ops) && i < |states|
    requires forall j :: 0 <= j < |ops| ==> PoliciesKept(states[j], states[j + 1])
    ensures LatestIsPublic(states[i])
  {
    hide Step, SnapshotsSafe, PoliciesKept;
    if i > 0 {
      hide LatestIsPublic;
      LatestStaysPublic(cfg, states, ops, i - 1);
      EveryRunIsSafe(cfg, states, ops, i - 1);
      StepKeepsLatestPublic(cfg, ops[i - 1], states[i - 1], states[i]);
    }
  }

  lemma PublicLatestDropsNothing(cfg: Settings, op: Op, s: State, s': State)
    requires LatestIsPublic(s)
    ensures !DropsSilently(cfg, op, s, s')
  {
    hide Batch;
    if op.Publish? {
      BatchIsReady(s, op.filter, cfg, op.clock);
      assert Previous(s) == Latest(s);
    }
  }

  // So the feed always rebuilds the latest snapshot while no source loses its public policy.
  lemma FeedAlwaysRebuildsLatest(cfg: Settings, states: seq<State>, ops: seq<Op>, i: nat)
    requires IsRun(cfg, states, ops) && i < |states|
    requires forall j :: 0 <= j < |ops| ==> PoliciesKept(states[j], states[j + 1])
    ensures InStep(states[i])
  {
    hide Step, InStep, DropsSilently, PoliciesKept, LatestIsPublic;
    forall j | 0 <= j < |ops| ensures !DropsSilently(cfg, ops[j], states[j], states[j + 1]) {
      LatestStaysPublic(cfg, states, ops, j);
      PublicLatestDropsNothing(cfg, ops[j], states[j], states[j + 1]);
    }
    InStepWithoutDrops(cfg, states, ops, i);
  }
}
