/**
 Linking discovery records to mosques: `resolve_discovery_record` and the review decisions of
 `services/admin_identity.py`, over the tables of sources, mosques and match reviews.
 */
module Resolve {
  import opened Wrappers
  import opened Listing
  import opened Matching

  type Id = nat

  // A source is known by its type and external id.
  datatype Key = Key(sourceType: string, externalId: string)

  datatype Status = Pending | Accepted | Rejected

  datatype Reviewer = Nobody | Resolver | Admin

  datatype Review = Review(
    source: Option<Key>, status: Status, proposed: Option<Id>, decision: Decision, score: int,
    alternatives: seq<Id>, reviewer: Reviewer)

  // `sources` holds the mosque each source is linked to, if any.
  datatype State = State(sources: map<Key, Option<Id>>, mosques: set<Id>, reviews: map<Id, Review>)

  datatype Outcome = ExistingSourceLink | AutoLinkMatch | CreatedNeedsReview | LeftForReview

  datatype AcceptError = NotFound | NotPending | NoSource | SourceGone | TargetMissing | NotACandidate | MosqueGone

  predicate PendingFor(r: Review, key: Key) {
    r.status == Pending && r.source == Some(key)
  }

  predicate Linked(s: State, key: Key) {
    key in s.sources && s.sources[key].Some?
  }

  // --- what a step does to the tables ---

  function Ids(cs: seq<Scored>): seq<Id> {
    seq(|cs|, i requires 0 <= i < |cs| => cs[i].mosque)
  }

  function Filled(r: Review, m: Match): Review {
    r.(proposed := m.mosque, score := m.score, decision := m.decision, alternatives := Ids(m.alternatives))
  }

  function NewReview(key: Key): Review {
    Review(Some(key), Pending, None, NeedsReview, 0, [], Nobody)
  }

  function Closed(r: Review, mosque: Id, m: Match): Review {
    Filled(r, m).(proposed := Some(mosque), decision := AutoLink, status := Accepted, reviewer := Resolver)
  }

  // The match recorded when a source already has its mosque.
  function ExistingMatch(mosque: Id): Match {
    Match(AutoLink, Some(mosque), 0, [])
  }

  function PendingClosed(reviews: map<Id, Review>, key: Key, mosque: Id, m: Match): map<Id, Review> {
    map id | id in reviews :: if PendingFor(reviews[id], key) then Closed(reviews[id], mosque, m) else reviews[id]
  }

  ghost predicate Upserted(reviews: map<Id, Review>, key: Key, m: Match, unused: Id, after: map<Id, Review>) {
    if forall id :: id in reviews ==> !PendingFor(reviews[id], key)
    then after == reviews[unused := Filled(NewReview(key), m)]
    else exists id :: id in reviews && PendingFor(reviews[id], key) && after == reviews[id := Filled(reviews[id], m)]
  }

  ghost predicate ResolveStep(
    s: State, key: Key, m: Match, newMosque: Id, newReview: Id, s': State, mosque: Option<Id>, outcome: Outcome) {
    if Linked(s, key) then
      && mosque == s.sources[key] && outcome == ExistingSourceLink
      && s' == s.(reviews := PendingClosed(s.reviews, key, mosque.value, ExistingMatch(mosque.value)))
    else if m.decision.NeedsReview? then
      && mosque == None && outcome == LeftForReview
      && s'.sources == s.sources[key := None] && s'.mosques == s.mosques
      && Upserted(s.reviews, key, m, newReview, s'.reviews)
    else if m.decision.AutoLink? && m.mosque.Some? then
      && mosque == m.mosque && outcome == AutoLinkMatch
      && s' == s.(sources := s.sources[key := mosque], reviews := PendingClosed(s.reviews, key, mosque.value, m))
    else
      && mosque == Some(newMosque) && outcome == CreatedNeedsReview
      && s' == s.(sources := s.sources[key := mosque], mosques := s.mosques + {newMosque})
  }

  function CandidateSet(r: Review): set<Id> {
    (if r.proposed.Some? then {r.proposed.value} else {}) + Elems(r.alternatives)
  }

  // The mosque an accept is about: the one asked for, else the proposed, else the only candidate.
  ghost predicate IsTarget(r: Review, requested: Option<Id>, target: Option<Id>) {
    if requested.Some? then target == requested
    else if r.proposed.Some? then target == r.proposed
    else if |CandidateSet(r)| == 1 then target.Some? && CandidateSet(r) == {target.value}
    else target.None?
  }

  ghost predicate Accepts(s: State, id: Id, key: Key, target: Option<Id>, s': State, error: Option<AcceptError>)
    requires id in s.reviews
  {
    var r := s.reviews[id];
    if target.None? then error == Some(TargetMissing)
    else if target.value !in CandidateSet(r) then error == Some(NotACandidate)
    else if target.value !in s.mosques then error == Some(MosqueGone)
    else error.None? && s' == s.(
      sources := s.sources[key := target],
      reviews := s.reviews[id := r.(proposed := target, status := Accepted, reviewer := Admin)])
  }

  ghost predicate AcceptStep(s: State, id: Id, requested: Option<Id>, s': State, error: Option<AcceptError>) {
    && (error.Some? ==> s' == s)
    && if id !in s.reviews then error == Some(NotFound)
       else var r := s.reviews[id];
         if r.status != Pending then error == Some(NotPending)
         else if r.source.None? then error == Some(NoSource)
         else if r.source.value !in s.sources then error == Some(SourceGone)
         else exists target :: IsTarget(r, requested, target) && Accepts(s, id, r.source.value, target, s', error)
  }

  ghost predicate RejectStep(s: State, id: Id, s': State, error: Option<AcceptError>) {
    && (error.Some? ==> s' == s)
    && if id !in s.reviews then error == Some(NotFound)
       else if s.reviews[id].status != Pending then error == Some(NotPending)
       else error.None? && s' == s.(reviews := s.reviews[id := s.reviews[id].(status := Rejected, reviewer := Admin)])
  }

  lemma Singleton(xs: seq<Id>)
    requires |xs| <= 1
    ensures Lists(xs, Elems(xs) + Elems([]))
  {
    assert Elems(xs) == if xs == [] then {} else {xs[0]};
  }

  lemma CandidatesAre(r: Review, proposed: seq<Id>)
    requires proposed == if r.proposed.Some? then [r.proposed.value] else []
    ensures Elems(proposed) + Elems(r.alternatives) == CandidateSet(r)
  {
  }

  lemma Whole(xs: seq<Id>)
    ensures xs[..0] == [] && xs[..|xs|] == xs
  {
  }

  lemma OneMore(items: seq<Id>, xs: seq<Id>, i: nat, proposed: seq<Id>)
    requires i < |xs| && Lists(items, Elems(proposed) + Elems(xs[..i]))
    ensures Lists(if xs[i] in items then items else items + [xs[i]], Elems(proposed) + Elems(xs[..i + 1]))
  {
    var x := xs[i];
    assert xs[..i + 1] == xs[..i] + [x];
    ElemsOfConcat(xs[..i], [x]);
    ElemsOfConcat(items, [x]);
    assert Elems([x]) == {x};
    assert x in items <==> x in Elems(items);
  }

  // --- the store ---

  class IdentityStore {
    var sources: map<Key, Option<Id>>
    var mosques: set<Id>
    var reviews: map<Id, Review>

    ghost function Abs(): State
      reads this
    {
      State(sources, mosques, reviews)
    }

    constructor ()
      ensures Abs() == Start()
    {
      sources, mosques, reviews := map[], {}, map[];
    }

    method FindPending(key: Key) returns (found: Option<Id>)
      ensures found.Some? ==> found.value in reviews && PendingFor(reviews[found.value], key)
      ensures found.None? ==> forall id :: id in reviews ==> !PendingFor(reviews[id], key)
    {
      var todo: set<Id> := set id | id in reviews;
      while todo != {}
        invariant forall id :: id in todo ==> id in reviews
        invariant forall id :: id in reviews && id !in todo ==> !PendingFor(reviews[id], key)
        decreases |todo|
      {
        var id :| id in todo;
        if PendingFor(reviews[id], key) { return Some(id); }
        todo := todo - {id};
      }
      return None;
    }

    method UpsertMatchReview(key: Key, m: Match, unused: Id)
      modifies this`reviews
      ensures Upserted(old(reviews), key, m, unused, reviews)
    {
      var found := FindPending(key);
      if found.None? {
        reviews := reviews[unused := Filled(NewReview(key), m)];
      } else {
        reviews := reviews[found.value := Filled(reviews[found.value], m)];
      }
    }

    method AcceptPendingReviews(key: Key, mosque: Id, m: Match)
      modifies this`reviews
      ensures reviews == PendingClosed(old(reviews), key, mosque, m)
    {
      var todo: set<Id> := set id | id in reviews && PendingFor(reviews[id], key);
      ghost var was := reviews;
      while todo != {}
        invariant reviews.Keys == was.Keys
        invariant todo <= was.Keys && forall id :: id in todo ==> PendingFor(was[id], key)
        invariant forall id :: id in was ==>
          reviews[id] == if PendingFor(was[id], key) && id !in todo then Closed(was[id], mosque, m) else was[id]
        decreases |todo|
      {
        var id :| id in todo;
        reviews := reviews[id := Filled(reviews[id], m).(proposed := Some(mosque), decision := AutoLink,
                                                         status := Accepted, reviewer := Resolver)];
        todo := todo - {id};
      }
    }

    // `candidates` are the mosques scored against the record.
    method ResolveDiscoveryRecord(key: Key, candidates: seq<Scored>, newMosque: Id, newReview: Id)
      returns (mosque: Option<Id>, outcome: Outcome, ghost m: Match)
      modifies this
      ensures Decided(candidates, m)
      ensures ResolveStep(old(Abs()), key, m, newMosque, newReview, Abs(), mosque, outcome)
    {
      var decided := DecideMatch(candidates);
      m := decided;
      hide Decided;
      if key in sources && sources[key].Some? {
        mosque := sources[key];
        AcceptPendingReviews(key, mosque.value, ExistingMatch(mosque.value));
        return mosque, ExistingSourceLink, m;
      }
      if decided.decision.NeedsReview? {
        if key !in sources { sources := sources[key := None]; }
        UpsertMatchReview(key, decided, newReview);
        return None, LeftForReview, m;
      }
      if decided.decision.AutoLink? && decided.mosque.Some? {
        mosque, outcome := decided.mosque, AutoLinkMatch;
      } else {
        mosques := mosques + {newMosque};
        mosque, outcome := Some(newMosque), CreatedNeedsReview;
      }
      sources := sources[key := mosque];
      if outcome == AutoLinkMatch {
        AcceptPendingReviews(key, mosque.value, decided);
      }
    }

    // The proposed mosque, then the alternatives not met before.
    method CandidateItems(r: Review) returns (items: seq<Id>)
      ensures Lists(items, CandidateSet(r))
      ensures r.proposed.Some? ==> |items| > 0 && items[0] == r.proposed.value
    {
      hide Lists, Elems, CandidateSet;
      var proposed := if r.proposed.Some? then [r.proposed.value] else [];
      items := proposed;
      Singleton(proposed);
      CandidatesAre(r, proposed);
      var rest := r.alternatives;
      Whole(rest);
      for i := 0 to |rest|
        invariant Lists(items, Elems(proposed) + Elems(rest[..i]))
        invariant proposed <= items
      {
        OneMore(items, rest, i, proposed);
        if rest[i] !in items {
          items := items + [rest[i]];
        }
      }
    }

    method AcceptIdentityReview(id: Id, requested: Option<Id>) returns (error: Option<AcceptError>)
      modifies this
      ensures AcceptStep(old(Abs()), id, requested, Abs(), error)
    {
      if id !in reviews { return Some(NotFound); }
      var r := reviews[id];
      if r.status != Pending { return Some(NotPending); }
      if r.source.None? { return Some(NoSource); }
      if r.source.value !in sources { return Some(SourceGone); }
      var items := CandidateItems(r);
      var target := requested;
      if target.None? { target := r.proposed; }
      if target.None? && |items| == 1 {
        assert items == [items[0]];
        target := Some(items[0]);
      }
      assert IsTarget(r, requested, target);
      if target.None? { return Some(TargetMissing); }
      if target.value !in items { return Some(NotACandidate); }
      if target.value !in mosques { return Some(MosqueGone); }
      sources := sources[r.source.value := target];
      reviews := reviews[id := r.(proposed := target, status := Accepted, reviewer := Admin)];
      return None;
    }

    method RejectIdentityReview(id: Id) returns (error: Option<AcceptError>)
      modifies this
      ensures RejectStep(old(Abs()), id, Abs(), error)
    {
      if id !in reviews { return Some(NotFound); }
      if reviews[id].status != Pending { return Some(NotPending); }
      reviews := reviews[id := reviews[id].(status := Rejected, reviewer := Admin)];
      return None;
    }
  }

  // --- runs ---

  datatype Op =
    | ResolveRecord(key: Key, candidates: seq<Scored>, newMosque: Id, newReview: Id)
    | AcceptReview(review: Id, requested: Option<Id>)
    | RejectReview(review: Id)

  function Start(): State {
    State(map[], {}, map[])
  }

  ghost predicate Step(s: State, op: Op, s': State) {
    match op
    case ResolveRecord(key, candidates, newMosque, newReview) =>
      && newMosque !in s.mosques && newReview !in s.reviews
      && (forall c :: c in candidates ==> c.mosque in s.mosques)
      && exists m, mosque, outcome ::
           Decided(candidates, m) && ResolveStep(s, key, m, newMosque, newReview, s', mosque, outcome)
    case AcceptReview(id, requested) => exists error :: AcceptStep(s, id, requested, s', error)
    case RejectReview(id) => exists error :: RejectStep(s, id, s', error)
  }

  ghost predicate IsRun(states: seq<State>, ops: seq<Op>) {
    && |states| == |ops| + 1
    && states[0] == Start()
    && forall i :: 0 <= i < |ops| ==> Step(states[i], ops[i], states[i + 1])
  }

  // --- what every step keeps ---

  ghost predicate OnePending(reviews: map<Id, Review>) {
    forall a, b, key ::
      a in reviews && b in reviews && PendingFor(reviews[a], key) && PendingFor(reviews[b], key) ==> a == b
  }

  // Links, proposals and review sources name existing rows.
  ghost predicate RefersToRows(s: State) {
    && (forall key :: Linked(s, key) ==> s.sources[key].value in s.mosques)
    && (forall id :: id in s.reviews ==> CandidateSet(s.reviews[id]) <= s.mosques)
    && (forall id :: id in s.reviews ==> s.reviews[id].source.Some? && s.reviews[id].source.value in s.sources)
  }

  // The mosques a decision names are among the candidates.
  lemma DecisionNamesCandidates(candidates: seq<Scored>, m: Match, mosques: set<Id>)
    requires Decided(candidates, m) && forall c :: c in candidates ==> c.mosque in mosques
    ensures m.mosque.Some? ==> m.mosque.value in mosques
    ensures Elems(Ids(m.alternatives)) <= mosques
  {
    hide DecidingScore, Convincing, NameEvidence;
    if m.mosque.Some? {
      var c :| Winner(candidates, c) && m.mosque == Some(c.mosque);
      assert c in candidates;
    }
  }

  lemma UpsertKeepsOnePending(
    reviews: map<Id, Review>, key: Key, m: Match, unused: Id, after: map<Id, Review>)
    requires OnePending(reviews) && unused !in reviews && Upserted(reviews, key, m, unused, after)
    ensures OnePending(after)
  {
    hide Filled;
    assert forall r :: Filled(r, m).source == r.source && Filled(r, m).status == r.status by { FilledKeeps(m); }
  }

  lemma FilledKeeps(m: Match)
    ensures forall r :: Filled(r, m).source == r.source && Filled(r, m).status == r.status
  {
  }

  lemma ResolveKeepsOnePending(
    s: State, key: Key, m: Match, newMosque: Id, newReview: Id, s': State, mosque: Option<Id>, outcome: Outcome)
    requires ResolveStep(s, key, m, newMosque, newReview, s', mosque, outcome)
    requires OnePending(s.reviews) && newReview !in s.reviews
    ensures OnePending(s'.reviews)
  {
    if outcome == LeftForReview {
      UpsertKeepsOnePending(s.reviews, key, m, newReview, s'.reviews);
    }
  }

  lemma ResolveKeepsReferences(
    s: State, key: Key, m: Match, newMosque: Id, newReview: Id, s': State, mosque: Option<Id>, outcome: Outcome)
    requires ResolveStep(s, key, m, newMosque, newReview, s', mosque, outcome)
    requires RefersToRows(s) && newReview !in s.reviews
    requires m.mosque.Some? ==> m.mosque.value in s.mosques
    requires Elems(Ids(m.alternatives)) <= s.mosques
    ensures RefersToRows(s')
  {
    forall id | id in s'.reviews
      ensures CandidateSet(s'.reviews[id]) <= s'.mosques
      ensures s'.reviews[id].source.Some? && s'.reviews[id].source.value in s'.sources
    {
      if id in s.reviews {
        assert CandidateSet(s.reviews[id]) <= s.mosques;
      }
    }
  }

  lemma ReviewKeepsTables(s: State, id: Id, s': State)
    requires OnePending(s.reviews) && RefersToRows(s) && id in s.reviews && id in s'.reviews
    requires s'.reviews == s.reviews[id := s'.reviews[id]] && s'.reviews[id].status != Pending
    requires s'.reviews[id].source == s.reviews[id].source && s'.mosques == s.mosques
    requires CandidateSet(s'.reviews[id]) <= s.mosques
    requires s'.sources.Keys == s.sources.Keys
    requires forall k :: Linked(s', k) ==> s'.sources[k].value in s.mosques
    ensures OnePending(s'.reviews) && RefersToRows(s')
  {
    hide CandidateSet;
  }

  lemma AcceptKeepsTables(s: State, id: Id, requested: Option<Id>, s': State, error: Option<AcceptError>)
    requires AcceptStep(s, id, requested, s', error) && OnePending(s.reviews) && RefersToRows(s)
    ensures OnePending(s'.reviews) && RefersToRows(s')
  {
    hide OnePending, RefersToRows, CandidateSet, IsTarget;
    if error.None? {
      var key, target := AcceptDoes(s, id, requested, s');
      RefersIn(s, id);
      ProposedShown(s.reviews[id], s'.reviews[id], target);
      LinksAfter(s, key, target, s');
      ReviewKeepsTables(s, id, s');
    }
  }

  lemma AcceptDoes(s: State, id: Id, requested: Option<Id>, s': State) returns (key: Key, target: Id)
    requires AcceptStep(s, id, requested, s', None)
    ensures id in s.reviews && s.reviews[id].source == Some(key) && key in s.sources
    ensures target in CandidateSet(s.reviews[id]) && target in s.mosques
    ensures s' == s.(
      sources := s.sources[key := Some(target)],
      reviews := s.reviews[id := s.reviews[id].(proposed := Some(target), status := Accepted, reviewer := Admin)])
  {
    hide CandidateSet, IsTarget;
    key := s.reviews[id].source.value;
    var chosen :| IsTarget(s.reviews[id], requested, chosen) && Accepts(s, id, key, chosen, s', None);
    target := chosen.value;
  }

  lemma RefersIn(s: State, id: Id)
    requires RefersToRows(s) && id in s.reviews
    ensures CandidateSet(s.reviews[id]) <= s.mosques
  {
  }

  lemma ProposedShown(r: Review, r': Review, target: Id)
    requires target in CandidateSet(r) && r'.proposed == Some(target) && r'.alternatives == r.alternatives
    ensures CandidateSet(r') <= CandidateSet(r)
  {
  }

  lemma LinksAfter(s: State, key: Key, target: Id, s': State)
    requires RefersToRows(s) && target in s.mosques && s'.sources == s.sources[key := Some(target)]
    ensures forall k :: Linked(s', k) ==> s'.sources[k].value in s.mosques
  {
    hide CandidateSet;
  }

  lemma RejectKeepsTables(s: State, id: Id, s': State, error: Option<AcceptError>)
    requires RejectStep(s, id, s', error) && OnePending(s.reviews) && RefersToRows(s)
    ensures OnePending(s'.reviews) && RefersToRows(s')
  {
    if error.None? {
      assert CandidateSet(s.reviews[id]) <= s.mosques;
      hide OnePending;
      ReviewKeepsTables(s, id, s');
    }
  }

  lemma StepKeepsTables(s: State, op: Op, s': State)
    requires Step(s, op, s') && OnePending(s.reviews) && RefersToRows(s)
    ensures OnePending(s'.reviews) && RefersToRows(s')
  {
    hide ResolveStep, AcceptStep, RejectStep, Decided, RefersToRows, OnePending;
    match op {
      case ResolveRecord(key, candidates, newMosque, newReview) =>
        var m, mosque, outcome :| Decided(candidates, m) &&
          ResolveStep(s, key, m, newMosque, newReview, s', mosque, outcome);
        DecisionNamesCandidates(candidates, m, s.mosques);
        ResolveKeepsOnePending(s, key, m, newMosque, newReview, s', mosque, outcome);
        ResolveKeepsReferences(s, key, m, newMosque, newReview, s', mosque, outcome);
      case AcceptReview(id, requested) =>
        var error :| AcceptStep(s, id, requested, s', error);
        AcceptKeepsTables(s, id, requested, s', error);
      case RejectReview(id) =>
        var error :| RejectStep(s, id, s', error);
        RejectKeepsTables(s, id, s', error);
    }
  }

  // In every reachable state a source has at most one pending review, and every link, proposal
  // and alternative names a mosque that exists.
  lemma {:induction false} OnePendingReviewPerSource(states: seq<State>, ops: seq<Op>, i: nat)
    requires IsRun(states, ops) && i < |states|
    ensures OnePending(states[i].reviews) && RefersToRows(states[i])
  {
    if i > 0 {
      hide Step, OnePending, RefersToRows;
      OnePendingReviewPerSource(states, ops, i - 1);
      StepKeepsTables(states[i - 1], ops[i - 1], states[i]);
    }
  }

  // --- links ---

  // The resolver never changes a link already set, and touches no other source.
  lemma ResolverKeepsLinks(
    s: State, key: Key, m: Match, newMosque: Id, newReview: Id, s': State, mosque: Option<Id>, outcome: Outcome)
    requires ResolveStep(s, key, m, newMosque, newReview, s', mosque, outcome)
    ensures forall k :: Linked(s, k) ==> Linked(s', k) && s'.sources[k] == s.sources[k]
    ensures forall k :: k != key ==>
      (k in s'.sources <==> k in s.sources) && (k in s.sources ==> s'.sources[k] == s.sources[k])
    ensures mosque.Some? ==> s'.sources[key] == mosque
  {
  }

  // Resolving again, whatever the candidates are by then, gives the same mosque and creates none;
  // it closes every open review of the source, and from then on changes nothing.
  lemma ResolvingAgain(
    s: State, key: Key, m: Match, newMosque: Id, newReview: Id, s': State, mosque: Id, outcome: Outcome,
    m': Match, newMosque': Id, newReview': Id, s'': State, mosque': Option<Id>, outcome': Outcome)
    requires ResolveStep(s, key, m, newMosque, newReview, s', Some(mosque), outcome)
    requires ResolveStep(s', key, m', newMosque', newReview', s'', mosque', outcome')
    ensures mosque' == Some(mosque) && s''.mosques == s'.mosques && s''.sources == s'.sources
    ensures forall id :: id in s''.reviews ==> !PendingFor(s''.reviews[id], key)
    ensures ResolveStep(s'', key, m', newMosque', newReview', s'', mosque', ExistingSourceLink)
  {
    assert PendingClosed(s''.reviews, key, mosque, ExistingMatch(mosque)) == s''.reviews;
  }

  predicate IsOpen(reviews: map<Id, Review>, key: Key) {
    exists id :: id in reviews && PendingFor(reviews[id], key)
  }

  lemma UpsertOpens(reviews: map<Id, Review>, key: Key, m: Match, unused: Id, after: map<Id, Review>, k: Key)
    requires unused !in reviews && Upserted(reviews, key, m, unused, after)
    ensures IsOpen(after, k) <==> k == key || IsOpen(reviews, k)
  {
    FilledKeeps(m);
    hide Filled;
    var id :| id in after && PendingFor(after[id], key) && (id in reviews ==> PendingFor(reviews[id], key))
              && forall other :: other != id && other in after ==> other in reviews && after[other] == reviews[other];
    if IsOpen(reviews, k) && k != key {
      var other :| other in reviews && PendingFor(reviews[other], k);
      assert other in after && PendingFor(after[other], k);
    }
  }

  lemma ClosingCloses(reviews: map<Id, Review>, key: Key, mosque: Id, m: Match, k: Key)
    ensures IsOpen(PendingClosed(reviews, key, mosque, m), k) <==> k != key && IsOpen(reviews, k)
  {
    var after := PendingClosed(reviews, key, mosque, m);
    if IsOpen(reviews, k) && k != key {
      var id :| id in reviews && PendingFor(reviews[id], k);
      assert id in after && PendingFor(after[id], k);
    }
  }

  // A review of the source stays open only when the source is left for review, or when a mosque is
  // created for a source that already had one open. Reviews of other sources are untouched.
  lemma OpenReviewAfterResolve(
    s: State, key: Key, m: Match, newMosque: Id, newReview: Id, s': State, mosque: Option<Id>, outcome: Outcome, k: Key)
    requires ResolveStep(s, key, m, newMosque, newReview, s', mosque, outcome) && newReview !in s.reviews
    ensures IsOpen(s'.reviews, k) <==>
      if k == key then outcome == LeftForReview || (outcome == CreatedNeedsReview && IsOpen(s.reviews, k))
      else IsOpen(s.reviews, k)
  {
    hide Upserted, IsOpen, PendingClosed;
    if outcome == LeftForReview {
      UpsertOpens(s.reviews, key, m, newReview, s'.reviews, k);
    } else if outcome != CreatedNeedsReview {
      ClosingCloses(s.reviews, key, mosque.value, if Linked(s, key) then ExistingMatch(mosque.value) else m, k);
    }
  }
}
