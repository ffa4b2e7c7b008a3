/**
 When the link of a source can move: the resolver never moves one, accepting a stale review does.
 */
module ResolveLinks {
  import opened Wrappers
  import opened Matching
  import opened Scoring
  import opened Resolve

  // --- links one step moves ---

  predicate LinkMoves(s: State, s': State, k: Key) {
    Linked(s, k) && !(k in s'.sources && s'.sources[k] == s.sources[k])
  }

  // An accept of a pending review of the linked source, for a valid target other than its mosque.
  ghost predicate AcceptsElsewhere(s: State, op: Op, k: Key) {
    && op.AcceptReview? && op.review in s.reviews && PendingFor(s.reviews[op.review], k) && Linked(s, k)
    && exists target: Id ::
         && IsTarget(s.reviews[op.review], op.requested, Some(target)) && target in CandidateSet(s.reviews[op.review])
         && target in s.mosques && Some(target) != s.sources[k]
  }

  // A link moves exactly when such a review is accepted.
  lemma LinkMovesExactly(s: State, op: Op, s': State, k: Key)
    requires Step(s, op, s')
    ensures LinkMoves(s, s', k) <==> AcceptsElsewhere(s, op, k)
  {
    hide Decided, Upserted, PendingClosed, CandidateSet;
    match op {
      case ResolveRecord(key, candidates, newMosque, newReview) =>
        var m, mosque, outcome :| Decided(candidates, m) &&
          ResolveStep(s, key, m, newMosque, newReview, s', mosque, outcome);
        ResolverKeepsLinks(s, key, m, newMosque, newReview, s', mosque, outcome);
      case AcceptReview(id, requested) =>
        var error :| AcceptStep(s, id, requested, s', error);
        AcceptMoves(s, id, requested, s', error, k);
      case RejectReview(_) =>
    }
  }

  lemma AcceptMoves(s: State, id: Id, requested: Option<Id>, s': State, error: Option<AcceptError>, k: Key)
    requires AcceptStep(s, id, requested, s', error)
    ensures LinkMoves(s, s', k) <==> AcceptsElsewhere(s, AcceptReview(id, requested), k)
  {
    hide CandidateSet;
    if id in s.reviews && PendingFor(s.reviews[id], k) && k in s.sources {
      var chosen :| IsTarget(s.reviews[id], requested, chosen) && Accepts(s, id, k, chosen, s', error);
      OneTarget(s.reviews[id], requested, chosen);
    }
  }

  // The target of an accept is determined.
  lemma OneTarget(r: Review, requested: Option<Id>, target: Option<Id>)
    requires IsTarget(r, requested, target)
    ensures forall other :: IsTarget(r, requested, other) ==> other == target
  {
    hide CandidateSet;
    forall other | IsTarget(r, requested, other) ensures other == target {
      if requested.None? && r.proposed.None? && |CandidateSet(r)| == 1 {
        assert other.value in {target.value};
      }
    }
  }

  // --- when a decision creates a mosque ---

  // No candidate, or none good enough to look at.
  ghost predicate DecidesCreate(candidates: seq<Scored>) {
    candidates == [] || exists score :: DecidingScore(candidates, score) && score < 25
  }

  lemma CreatesExactly(candidates: seq<Scored>, m: Match)
    requires Decided(candidates, m)
    ensures m.decision.CreateNeedsReview? <==> DecidesCreate(candidates)
    ensures m.decision.AutoLink? ==> m.mosque.Some?
  {
    hide Winner, NameEvidence;
    if candidates != [] && DecidesCreate(candidates) {
      var score :| DecidingScore(candidates, score) && score < 25;
      assert score == m.score;
    }
  }

  // Every candidate was scored on some evidence about its mosque.
  ghost predicate FromScorer(candidates: seq<Scored>) {
    forall c :: c in candidates ==> IsScored(c)
  }

  ghost predicate IsScored(c: Scored) {
    exists e :: ScoredOn(e, c.mosque, c)
  }

  // The scorer passes on no candidate below 0.25, so for its candidates that means none at all.
  lemma CreatesFromNothing(candidates: seq<Scored>)
    requires FromScorer(candidates)
    ensures DecidesCreate(candidates) <==> candidates == []
  {
    hide NameEvidence, Read, Points;
    forall c | c in candidates ensures c.score >= 25 {
      assert IsScored(c);
    }
  }

  // --- the hazard ---

  // A linked source with an open review: accepting the review would move the link.
  predicate OpenThoughLinked(s: State, key: Key) {
    Linked(s, key) && IsOpen(s.reviews, key)
  }

  // A resolve that creates a mosque for an unlinked source whose review is still open.
  ghost predicate CreatesOverOpenReview(s: State, op: Op) {
    op.ResolveRecord? && !Linked(s, op.key) && IsOpen(s.reviews, op.key) && DecidesCreate(op.candidates)
  }

  lemma AcceptCloses(s: State, id: Id, requested: Option<Id>, s': State, error: Option<AcceptError>, k: Key)
    requires AcceptStep(s, id, requested, s', error) && OnePending(s.reviews)
    ensures OpenThoughLinked(s', k) ==> OpenThoughLinked(s, k)
    ensures error.None? ==> Linked(s', s.reviews[id].source.value) && !IsOpen(s'.reviews, s.reviews[id].source.value)
  {
  }

  // One step makes a linked source with an open review only by creating a mosque over the review.
  lemma StepOpensThoughLinked(s: State, op: Op, s': State, k: Key)
    requires Step(s, op, s') && OnePending(s.reviews) && RefersToRows(s)
    ensures OpenThoughLinked(s', k) ==> OpenThoughLinked(s, k) || (CreatesOverOpenReview(s, op) && op.key == k)
    ensures CreatesOverOpenReview(s, op) ==> OpenThoughLinked(s', op.key)
  {
    hide IsOpen, OnePending, Decided;
    match op {
      case ResolveRecord(key, candidates, newMosque, newReview) =>
        hide RefersToRows;
        var m, mosque, outcome :| Decided(candidates, m) &&
          ResolveStep(s, key, m, newMosque, newReview, s', mosque, outcome);
        CreatesExactly(candidates, m);
        hide DecidesCreate;
        OpenReviewAfterResolve(s, key, m, newMosque, newReview, s', mosque, outcome, key);
        OpenReviewAfterResolve(s, key, m, newMosque, newReview, s', mosque, outcome, k);
      case AcceptReview(id, requested) =>
        var error :| AcceptStep(s, id, requested, s', error);
        AcceptCloses(s, id, requested, s', error, k);
      case RejectReview(id) =>
        var error :| RejectStep(s, id, s', error);
        RejectCloses(s, id, s', error, k);
    }
  }

  lemma RejectCloses(s: State, id: Id, s': State, error: Option<AcceptError>, k: Key)
    requires RejectStep(s, id, s', error)
    ensures OpenThoughLinked(s', k) ==> OpenThoughLinked(s, k)
  {
  }

  // Over a run, a linked source has an open review at some point exactly when a mosque was created
  // for a source whose review was still open.
  lemma OpenThoughLinkedExactly(states: seq<State>, ops: seq<Op>)
    requires IsRun(states, ops)
    ensures (exists i, k :: 0 <= i < |states| && OpenThoughLinked(states[i], k))
      <==> exists i :: 0 <= i < |ops| && CreatesOverOpenReview(states[i], ops[i])
  {
    hide OpenThoughLinked, CreatesOverOpenReview, Step;
    if exists i, k :: 0 <= i < |states| && OpenThoughLinked(states[i], k) {
      var i, k :| 0 <= i < |states| && OpenThoughLinked(states[i], k);
      var j := WhenOpened(states, ops, i, k);
    }
    if exists i :: 0 <= i < |ops| && CreatesOverOpenReview(states[i], ops[i]) {
      var i :| 0 <= i < |ops| && CreatesOverOpenReview(states[i], ops[i]);
      OnePendingReviewPerSource(states, ops, i);
      CreatingOpens(states[i], ops[i], states[i + 1]);
    }
  }

  lemma CreatingOpens(s: State, op: Op, s': State)
    requires Step(s, op, s') && OnePending(s.reviews) && RefersToRows(s) && CreatesOverOpenReview(s, op)
    ensures exists k :: OpenThoughLinked(s', k)
  {
    hide OpenThoughLinked, Step, OnePending, RefersToRows;
    StepOpensThoughLinked(s, op, s', op.key);
  }

  lemma {:induction false} WhenOpened(states: seq<State>, ops: seq<Op>, i: nat, k: Key) returns (j: nat)
    requires IsRun(states, ops) && i < |states| && OpenThoughLinked(states[i], k)
    ensures j < i && CreatesOverOpenReview(states[j], ops[j])
  {
    hide CreatesOverOpenReview, Step, OnePending, RefersToRows;
    if i == 0 {
      assert false;
    } else {
      OnePendingReviewPerSource(states, ops, i - 1);
      StepOpensThoughLinked(states[i - 1], ops[i - 1], states[i], k);
      hide OpenThoughLinked;
      if OpenThoughLinked(states[i - 1], k) {
        j := WhenOpened(states, ops, i - 1, k);
      } else {
        j := i - 1;
      }
    }
  }

  // So in a run that never creates a mosque over an open review, no link ever moves.
  lemma LinksNeverMove(states: seq<State>, ops: seq<Op>, i: nat, k: Key)
    requires IsRun(states, ops) && i < |ops|
    requires forall j :: 0 <= j < |ops| ==> !CreatesOverOpenReview(states[j], ops[j])
    ensures !LinkMoves(states[i], states[i + 1], k)
  {
    hide CreatesOverOpenReview, Step;
    OpenThoughLinkedExactly(states, ops);
    assert !OpenThoughLinked(states[i], k);
    LinkMovesExactly(states[i], ops[i], states[i + 1], k);
  }

  // Without that proviso a link can move, with candidates as the scorer makes them: a source left
  // for review, then given a mosque of its own, then accepted for the candidate of the stale review.
  lemma AcceptCanMoveALink(first: Key, second: Key) returns (states: seq<State>, ops: seq<Op>)
    requires first != second
    ensures IsRun(states, ops) && |ops| == 4
    ensures forall i :: 0 <= i < |ops| && ops[i].ResolveRecord? ==> FromScorer(ops[i].candidates)
    ensures CreatesOverOpenReview(states[2], ops[2]) && LinkMoves(states[3], states[4], second)
    ensures states[3].sources == map[first := Some(0), second := Some(1)]
    ensures states[4].sources == map[first := Some(0), second := Some(0)]
  {
    hide Step, IsScored, PostcodeOnly, SamePostcode, DecidesCreate, CreatesOverOpenReview, Filled;
    var weak := PostcodeOnly();
    var review := Filled(NewReview(second), Match(NeedsReview, None, 35, [weak]));
    var s0 := Start();
    var s1 := State(map[first := Some(0)], {0}, map[]);
    var s2 := State(map[first := Some(0), second := None], {0}, map[0 := review]);
    var s3 := State(map[first := Some(0), second := Some(1)], {0, 1}, map[0 := review]);
    var s4 := State(map[first := Some(0), second := Some(0)], {0, 1},
                    map[0 := review.(proposed := Some(0), status := Accepted, reviewer := Admin)]);
    states := [s0, s1, s2, s3, s4];
    ops := [ResolveRecord(first, [], 0, 0), ResolveRecord(second, [weak], 1, 0),
            ResolveRecord(second, [], 1, 1), AcceptReview(0, None)];
    CreatesFirst(first, s0, s1);
    PostcodeOnlyIsScored();
    LeavesSecond(second, weak, s1, s2);
    CreatesSecond(second, s2, s3);
    StaysPending(second, weak);
    OnlyCandidateAccepted(s3, 0, second, 0, s4);
    OverOpenReview(s2, second, 1, 1);
    AcceptIsStep(s3, 0, None, s4);
  }

  lemma OverOpenReview(s: State, key: Key, newMosque: Id, newReview: Id)
    requires !Linked(s, key) && 0 in s.reviews && PendingFor(s.reviews[0], key)
    ensures CreatesOverOpenReview(s, ResolveRecord(key, [], newMosque, newReview))
  {
    NothingDecidesCreate();
  }

  lemma AcceptIsStep(s: State, id: Id, requested: Option<Id>, s': State)
    requires AcceptStep(s, id, requested, s', None)
    ensures Step(s, AcceptReview(id, requested), s')
  {
    hide AcceptStep;
  }

  lemma StaysPending(key: Key, c: Scored)
    ensures
      var review := Filled(NewReview(key), Match(NeedsReview, None, 35, [c]));
      PendingFor(review, key) && review.proposed.None? && review.alternatives == [c.mosque]
  {
  }

  lemma NothingDecidesCreate()
    ensures DecidesCreate([])
  {
  }

  // A record that shares its postcode with a mosque and nothing else.
  function SamePostcode(): Evidence {
    Evidence("AB1 2CD", "AB1 2CD", 0.0, [], "", "", "", "", None, Provenance(None, None, None), false)
  }

  function PostcodeOnly(): Scored {
    Scored(0, 35, [PostcodeMatch, Signals(1)])
  }

  lemma PostcodeOnlyIsScored()
    ensures IsScored(PostcodeOnly()) && PostcodeOnly().mosque == 0
    ensures Decided([PostcodeOnly()], Match(NeedsReview, None, 35, [PostcodeOnly()]))
  {
    hide ScoredOn;
    var c := PostcodeOnly();
    assert ScoredOn(SamePostcode(), 0, c) by { PostcodeScores(); }
    WeakIsReviewed(c);
  }

  lemma PostcodeScores()
    ensures ScoredOn(SamePostcode(), 0, PostcodeOnly())
  {
    var reasons := PostcodeOnly().reasons;
    assert reasons[1..] == [Signals(1)];
  }

  lemma WeakIsReviewed(c: Scored)
    requires c.score == 35 && forall r :: r in c.reasons ==> RatioOf(r).None?
    ensures Decided([c], Match(NeedsReview, None, 35, [c]))
  {
    assert c in [c];
    assert !NameEvidence(c.reasons);
    assert !Promotable([c], c);
  }

  lemma CreatesFirst(key: Key, s: State, s': State)
    requires s == Start() && s' == State(map[key := Some(0)], {0}, map[])
    ensures Step(s, ResolveRecord(key, [], 0, 0), s')
  {
    NothingMeansCreate();
    hide Decided;
    assert ResolveStep(s, key, Match(CreateNeedsReview, None, 0, []), 0, 0, s', Some(0), CreatedNeedsReview);
  }

  lemma LeavesSecond(key: Key, c: Scored, s: State, s': State)
    requires Decided([c], Match(NeedsReview, None, 35, [c])) && c.mosque in s.mosques
    requires key !in s.sources && s.reviews == map[]
    requires 1 !in s.mosques
    requires s' == s.(sources := s.sources[key := None],
      reviews := map[0 := Filled(NewReview(key), Match(NeedsReview, None, 35, [c]))])
    ensures Step(s, ResolveRecord(key, [c], 1, 0), s')
  {
    hide Decided;
    var m := Match(NeedsReview, None, 35, [c]);
    assert map[][0 := Filled(NewReview(key), m)] == s'.reviews;
    assert ResolveStep(s, key, m, 1, 0, s', None, LeftForReview);
  }

  lemma CreatesSecond(key: Key, s: State, s': State)
    requires key in s.sources && s.sources[key].None? && 1 !in s.mosques && 1 !in s.reviews
    requires s' == s.(sources := s.sources[key := Some(1)], mosques := s.mosques + {1})
    ensures Step(s, ResolveRecord(key, [], 1, 1), s')
  {
    NothingMeansCreate();
    hide Decided;
    assert ResolveStep(s, key, Match(CreateNeedsReview, None, 0, []), 1, 1, s', Some(1), CreatedNeedsReview);
  }

  // With nothing proposed and one candidate shown, accepting needs no further choice.
  lemma OnlyCandidateAccepted(s: State, id: Id, key: Key, mosque: Id, s': State)
    requires id in s.reviews && s.reviews[id].status == Pending && s.reviews[id].source == Some(key)
    requires s.reviews[id].proposed.None? && s.reviews[id].alternatives == [mosque]
    requires key in s.sources && mosque in s.mosques
    requires s' == State(s.sources[key := Some(mosque)], s.mosques,
      s.reviews[id := s.reviews[id].(proposed := Some(mosque), status := Accepted, reviewer := Admin)])
    ensures AcceptStep(s, id, None, s', None)
  {
    assert CandidateSet(s.reviews[id]) == {mosque};
    assert IsTarget(s.reviews[id], None, Some(mosque));
    assert Accepts(s, id, key, Some(mosque), s', None);
  }

  lemma NothingMeansCreate()
    ensures Decided([], Match(CreateNeedsReview, None, 0, []))
  {
  }
}
