/**
 What a publish does to the snapshot and the change feed, when it can commit at all, and why
 folding the whole feed rebuilds the latest snapshot.
 */
module ScheduleFeed {
  import opened Wrappers
  import opened Listing
  import opened ScheduleModel
  import opened ScheduleSpec
  import opened ScheduleInvariants

  // --- one publish: events, frame, conservation ---

  // The fields whose change makes a published row a new one.
  predicate Differs(a: Occurrence, b: Occurrence) {
    || a.jamaat != b.jamaat || a.start != b.start || a.sessionLabel != b.sessionLabel
    || a.timezone != b.timezone || a.sourceId != b.sourceId
  }

  function News(s: State, s': State): seq<Event> {
    if |s.feed| <= |s'.feed| then s'.feed[|s.feed|..] else []
  }

  // What a reader of the feed should learn about one key.
  function ExpectedEvents(before: map<Key, Occurrence>, after: map<Key, Occurrence>, k: Key, version: nat): set<Event> {
    if k in after && (k !in before || Differs(before[k], after[k])) then {Event(OccurrencePublished, k, version)}
    else if k in before && k !in after then {Event(OccurrenceRemoved, k, version)}
    else {}
  }

  lemma BatchRowDiffers(s: State, f: Filter, batch: set<Id>, rows: map<Key, Occurrence>, id: Id)
    requires Ready(s, batch) && NewRows(s, f, batch, rows) && id in batch
    ensures
      var k := KeyOf(s.candidates[id]);
      k in rows && (Unchanged(Previous(s), s.candidates[id]) <==> k in Previous(s) && !Differs(Previous(s)[k], rows[k]))
  {
    hide Previous, CarriedKeys, BatchKeys;
    assert RowFor(s, Previous(s), id, rows);
  }

  ghost predicate OwesPublished(s: State, batch: set<Id>, k: Key)
    requires Ready(s, batch)
  {
    exists id :: id in batch && KeyOf(s.candidates[id]) == k && !Unchanged(Previous(s), s.candidates[id])
  }

  lemma OwedEventKinds(s: State, f: Filter, batch: set<Id>, e: Event)
    requires Ready(s, batch)
    ensures e in OwedEvents(s, f, batch) <==>
      && e.version == |s.versions|
      && match e.kind
         case OccurrencePublished => OwesPublished(s, batch, e.key)
         case OccurrenceRemoved => e.key in Previous(s).Keys - BatchKeys(s, batch) - CarriedKeys(s, f, batch)
  {
    hide Previous, Unchanged, BatchKeys, CarriedKeys;
  }

  lemma OwesPublishedOnDifference(s: State, f: Filter, batch: set<Id>, rows: map<Key, Occurrence>, k: Key)
    requires Ready(s, batch) && NewRows(s, f, batch, rows)
    ensures OwesPublished(s, batch, k) <==> k in rows && (k !in Previous(s) || Differs(Previous(s)[k], rows[k]))
  {
    hide Previous, Unchanged, Differs, NewRows;
    NewRowsKeys(s, f, batch, rows);
    forall id | id in batch && KeyOf(s.candidates[id]) == k
      ensures Unchanged(Previous(s), s.candidates[id]) <==> k in Previous(s) && !Differs(Previous(s)[k], rows[k])
    {
      BatchRowDiffers(s, f, batch, rows, id);
    }
    if k in BatchKeys(s, batch) {
      var id :| id in batch && KeyOf(s.candidates[id]) == k;
    }
  }

  // A key gets an event exactly when it is new, gone, or a compared field changed.
  lemma EventExactlyOnDifference(s: State, f: Filter, batch: set<Id>, s': State, e: Event)
    requires Ready(s, batch) && Published(s, f, batch, s')
    ensures e in News(s, s') <==> e in ExpectedEvents(Previous(s), Latest(s'), e.key, |s.versions|)
  {
    hide Previous, Differs, NewRows, WithSuperseded, OwedEvents, OwesPublished, BatchKeys, CarriedKeys;
    var rows := Latest(s');
    assert e in News(s, s') <==> e in Elems(News(s, s'));
    NewRowsKeys(s, f, batch, rows);
    OwedEventKinds(s, f, batch, e);
    OwesPublishedOnDifference(s, f, batch, rows, e.key);
  }

  lemma NewRowsKeys(s: State, f: Filter, batch: set<Id>, rows: map<Key, Occurrence>)
    requires Ready(s, batch) && NewRows(s, f, batch, rows)
    ensures rows.Keys == BatchKeys(s, batch) + CarriedKeys(s, f, batch)
    ensures forall k :: k in CarriedKeys(s, f, batch) ==> !Differs(Previous(s)[k], rows[k])
    ensures forall id :: id in batch ==> KeyOf(s.candidates[id]) in rows
  {
    hide Previous, HasBatchRows;
  }

  // A published row links to the page its evidence names, or to that of its source if it names none.
  predicate IsLink(link: Option<string>, c: Candidate, source: Source) {
    match c.evidence.linkbackUrl
    case Some(url) => if |url| > 0 then link == Some(url) else link == source.sourceUrl
    case None => link == source.sourceUrl
  }

  // Every batch member is in the new version with the candidate's own times, label, zone and source;
  // its confidence and link are the candidate's only if one of those changed, else the old row's.
  lemma BatchIsPublishedAsApproved(s: State, f: Filter, batch: set<Id>, s': State, id: Id)
    requires Ready(s, batch) && Published(s, f, batch, s') && id in batch
    ensures
      var c := s.candidates[id];
      && KeyOf(c) in Latest(s')
      && var row := Latest(s')[KeyOf(c)];
         && Some(row.jamaat) == c.jamaat && row.start == c.start && row.sessionLabel == c.sessionLabel
         && row.timezone == c.timezone && row.sourceId == c.sourceId && row.candidateId == id
         && if Unchanged(Previous(s), c)
            then row.confidence == Previous(s)[KeyOf(c)].confidence && row.sourceUrl == Previous(s)[KeyOf(c)].sourceUrl
            else row.confidence == c.confidence && IsLink(row.sourceUrl, c, s.sources[c.sourceId])
  {
    hide Previous, WithSuperseded, OwedEvents, KeepsRows, BatchKeys, CarriedKeys;
    assert RowFor(s, Previous(s), id, Latest(s'));
  }

  // A filtered publish keeps every previous row the batch does not write, and removes nothing.
  lemma FilteredPublishKeepsTheRest(s: State, f: Filter, batch: set<Id>, s': State)
    requires Ready(s, batch) && Published(s, f, batch, s') && f != NO_FILTER
    ensures forall k :: k in Previous(s) && k !in BatchKeys(s, batch) ==>
      k in Latest(s') && Latest(s')[k] == Previous(s)[k]
    ensures forall e :: e in News(s, s') ==> e.kind == OccurrencePublished
  {
    hide Previous, HasBatchRows, Unchanged, WithSuperseded, BatchKeys;
    forall e | e in News(s, s') ensures e.kind == OccurrencePublished {
      assert e in Elems(News(s, s'));
    }
  }

  // An unfiltered publish has exactly the batch keys.
  lemma UnfilteredPublishReplacesAll(s: State, batch: set<Id>, s': State)
    requires Ready(s, batch) && Published(s, NO_FILTER, batch, s')
    ensures Latest(s').Keys == BatchKeys(s, batch)
  {
    hide Previous, HasBatchRows, Unchanged, WithSuperseded, BatchKeys, OwedEvents;
  }

  lemma {:induction false} DistinctKeysCount(s: State, batch: set<Id>)
    requires Ready(s, batch) && DistinctKeys(s, batch)
    ensures |BatchKeys(s, batch)| == |batch|
    decreases batch
  {
    if batch == {} {
      assert BatchKeys(s, batch) == {};
    } else {
      var id :| id in batch;
      var rest := batch - {id};
      DistinctKeysCount(s, rest);
      assert BatchKeys(s, batch) == BatchKeys(s, rest) + {KeyOf(s.candidates[id])};
      assert KeyOf(s.candidates[id]) !in BatchKeys(s, rest);
    }
  }

  // published + carried_forward is the number of rows of the new version.
  lemma RowsAreConserved(s: State, f: Filter, batch: set<Id>, s': State)
    requires Ready(s, batch) && DistinctKeys(s, batch) && Published(s, f, batch, s')
    ensures |Latest(s')| == |batch| + |CarriedKeys(s, f, batch)|
  {
    hide Previous, HasBatchRows, Unchanged, WithSuperseded, OwedEvents, DistinctKeys, BatchKeys, KeepsRows;
    DistinctKeysCount(s, batch);
    assert Latest(s').Keys == BatchKeys(s, batch) + CarriedKeys(s, f, batch);
    assert BatchKeys(s, batch) !! CarriedKeys(s, f, batch);
    assert |BatchKeys(s, batch) + CarriedKeys(s, f, batch)| == |BatchKeys(s, batch)| + |CarriedKeys(s, f, batch)|;
  }

  // --- when a publish collides with itself ---

  // With filters on mosque and dates only, a row out of scope never has a batch key.
  lemma ScopeNeverCollidesWithoutSource(s: State, f: Filter, cfg: Settings, clock: Clock)
    requires f.sourceId.None?
    ensures Ready(s, Batch(s, f, cfg, clock)) && NoScopeCollision(s, f, Batch(s, f, cfg, clock))
  {
    hide Publishable, Previous;
    BatchIsReady(s, f, cfg, clock);
  }

  // With a source filter it does exactly when the previous row belongs to another source.
  lemma SourceFilterCollidesExactly(s: State, f: Filter, cfg: Settings, clock: Clock)
    requires f.sourceId.Some?
    ensures Ready(s, Batch(s, f, cfg, clock))
    ensures NoScopeCollision(s, f, Batch(s, f, cfg, clock)) <==>
      forall id :: id in Batch(s, f, cfg, clock) && KeyOf(s.candidates[id]) in Previous(s) ==>
        Previous(s)[KeyOf(s.candidates[id])].sourceId == f.sourceId.value
  {
    hide Publishable, Previous;
    BatchIsReady(s, f, cfg, clock);
  }

  // In a reachable state two batch rows for one key come from different sources, so a publish
  // filtered on one source has distinct keys.
  lemma OneSourceHasDistinctKeys(s: State, f: Filter, cfg: Settings, clock: Clock)
    requires ActiveUnique(s) && f.sourceId.Some?
    ensures Ready(s, Batch(s, f, cfg, clock)) && DistinctKeys(s, Batch(s, f, cfg, clock))
  {
    hide Publishable;
    BatchIsReady(s, f, cfg, clock);
    var batch := Batch(s, f, cfg, clock);
    forall a, b | a in batch && b in batch && KeyOf(s.candidates[a]) == KeyOf(s.candidates[b]) ensures a == b {
      assert !Twins(s.candidates, a, b);
    }
  }
}
