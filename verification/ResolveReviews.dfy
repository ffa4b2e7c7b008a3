/**
 What a review holds: the candidates it shows, what choosing one of them leads to, and who closed it.
 */
module ResolveReviews {
  import opened Wrappers
  import opened Matching
  import opened Resolve

  // The review shows the match: one alternative for each candidate listed, in order.
  ghost predicate ShowsMatch(r: Review, m: Match) {
    && r.proposed == m.mosque && r.decision == m.decision && r.score == m.score
    && |r.alternatives| == |m.alternatives|
    && forall i :: 0 <= i < |m.alternatives| ==> r.alternatives[i] == m.alternatives[i].mosque
  }

  // A record left for review has a pending review that shows the whole match; it is the one that was
  // pending or a new one, and every other review stays as it was.
  lemma LeftForReviewShowsMatch(
    s: State, key: Key, m: Match, newMosque: Id, newReview: Id, s': State, mosque: Option<Id>, outcome: Outcome)
    returns (id: Id)
    requires ResolveStep(s, key, m, newMosque, newReview, s', mosque, outcome) && outcome == LeftForReview
    requires newReview !in s.reviews
    ensures id in s'.reviews && PendingFor(s'.reviews[id], key) && ShowsMatch(s'.reviews[id], m)
    ensures if id in s.reviews then PendingFor(s.reviews[id], key) else id == newReview
    ensures s'.reviews.Keys == s.reviews.Keys + {id}
    ensures forall other :: other in s.reviews && other != id ==> s'.reviews[other] == s.reviews[other]
  {
    if forall id :: id in s.reviews ==> !PendingFor(s.reviews[id], key) {
      id := newReview;
    } else {
      id :| id in s.reviews && PendingFor(s.reviews[id], key)
            && s'.reviews == s.reviews[id := Filled(s.reviews[id], m)];
    }
  }

  // Some candidate of the match is this mosque.
  ghost predicate Offered(m: Match, mosque: Id) {
    exists i :: 0 <= i < |m.alternatives| && m.alternatives[i].mosque == mosque
  }

  lemma ShownAre(r: Review, m: Match)
    requires ShowsMatch(r, m) && m.mosque.None?
    ensures forall x :: x in CandidateSet(r) <==> Offered(m, x)
  {
  }

  ghost predicate OnlyOffered(m: Match, x: Id) {
    forall y :: Offered(m, y) <==> y == x
  }

  // The source is linked to this mosque, the review is closed with it, and nothing else changes.
  ghost predicate LinkedBy(s: State, id: Id, key: Key, x: Id, s': State, error: Option<AcceptError>) {
    && error.None? && key in s'.sources && s'.sources[key] == Some(x) && s'.mosques == s.mosques
    && (forall k :: k != key ==> Lookup(s'.sources, k) == Lookup(s.sources, k))
    && id in s'.reviews && s'.reviews[id].status == Accepted && s'.reviews[id].proposed == Some(x)
    && s'.reviews[id].source == Some(key)
    && forall other :: other != id ==> Lookup(s'.reviews, other) == Lookup(s.reviews, other)
  }

  predicate Refused(s: State, s': State, error: Option<AcceptError>, because: AcceptError) {
    s' == s && error == Some(because)
  }

  // What accepting a pending review comes to, when every mosque it shows exists and none is proposed.
  lemma AcceptDecides(s: State, id: Id, key: Key, requested: Option<Id>, s': State, error: Option<AcceptError>)
    requires AcceptStep(s, id, requested, s', error)
    requires id in s.reviews && PendingFor(s.reviews[id], key) && key in s.sources
    requires CandidateSet(s.reviews[id]) <= s.mosques && s.reviews[id].proposed.None?
    ensures
      var shown := CandidateSet(s.reviews[id]);
      match requested
      case Some(x) =>
        if x in shown then LinkedBy(s, id, key, x, s', error) else Refused(s, s', error, NotACandidate)
      case None =>
        && (forall x :: shown == {x} ==> LinkedBy(s, id, key, x, s', error))
        && ((forall x :: shown != {x}) ==> Refused(s, s', error, TargetMissing))
  {
    hide CandidateSet;
    var shown := CandidateSet(s.reviews[id]);
    var target :| IsTarget(s.reviews[id], requested, target) && Accepts(s, id, key, target, s', error);
    forall x | shown == {x} ensures |shown| == 1 && (requested.None? ==> target == Some(x)) {
      assert x in {target.value} || target.None? || requested.Some?;
    }
  }

  // Accepting the review of a record just left for review links the source to the mosque chosen,
  // exactly when the match offered it; without a choice, exactly when the match offered a single
  // mosque. Otherwise nothing changes and the error says which of the two was wrong.
  lemma AcceptAfterReview(
    candidates: seq<Scored>, m: Match, s: State, key: Key, newMosque: Id, newReview: Id, s': State,
    mosque: Option<Id>, id: Id, requested: Option<Id>, s'': State, error: Option<AcceptError>)
    requires Decided(candidates, m) && (forall c :: c in candidates ==> c.mosque in s.mosques)
    requires OnePending(s.reviews) && newReview !in s.reviews
    requires ResolveStep(s, key, m, newMosque, newReview, s', mosque, LeftForReview)
    requires id in s'.reviews && PendingFor(s'.reviews[id], key)
    requires AcceptStep(s', id, requested, s'', error)
    ensures
      match requested
      case Some(x) =>
        if Offered(m, x) then LinkedBy(s', id, key, x, s'', error) else Refused(s', s'', error, NotACandidate)
      case None =>
        && (forall x: Id :: OnlyOffered(m, x) ==> LinkedBy(s', id, key, x, s'', error))
        && ((forall x: Id :: !OnlyOffered(m, x)) ==> Refused(s', s'', error, TargetMissing))
  {
    hide Decided, AcceptStep, CandidateSet, LinkedBy, Offered;
    var shows := LeftForReviewShowsMatch(s, key, m, newMosque, newReview, s', mosque, LeftForReview);
    ResolveKeepsOnePending(s, key, m, newMosque, newReview, s', mosque, LeftForReview);
    assert id == shows;
    OffersCandidates(candidates, m, s.mosques);
    ShownAre(s'.reviews[id], m);
    AcceptDecides(s', id, key, requested, s'', error);
    var shown := CandidateSet(s'.reviews[id]);
    forall x: Id ensures OnlyOffered(m, x) <==> shown == {x} {
      assert shown == {x} <==> forall y: Id :: y in shown <==> y == x;
    }
  }

  // A match left for review proposes nothing and offers only mosques among the candidates.
  lemma OffersCandidates(candidates: seq<Scored>, m: Match, mosques: set<Id>)
    requires Decided(candidates, m) && !m.decision.AutoLink?
    requires forall c :: c in candidates ==> c.mosque in mosques
    ensures m.mosque.None? && forall x :: Offered(m, x) ==> x in mosques
  {
    hide DecidingScore, Winner;
  }

  // --- who closed a review, and with what ---

  // A record linked by the resolver closes its pending reviews with that very link; a link found in
  // place is recorded without score or candidates.
  lemma ClosedShowsLink(
    s: State, key: Key, m: Match, newMosque: Id, newReview: Id, s': State, mosque: Option<Id>, outcome: Outcome,
    id: Id)
    requires ResolveStep(s, key, m, newMosque, newReview, s', mosque, outcome)
    requires outcome == ExistingSourceLink || outcome == AutoLinkMatch
    requires id in s.reviews && PendingFor(s.reviews[id], key)
    ensures id in s'.reviews && key in s'.sources && s'.sources[key] == mosque && mosque.Some?
    ensures
      var r := s'.reviews[id];
      && r.status == Accepted && r.reviewer == Resolver && r.decision == AutoLink && r.source == Some(key)
      && r.proposed == mosque
      && r.score == (if outcome == AutoLinkMatch then m.score else 0)
      && |r.alternatives| == (if outcome == AutoLinkMatch then |m.alternatives| else 0)
      && (outcome == AutoLinkMatch ==>
            forall i :: 0 <= i < |m.alternatives| ==> r.alternatives[i] == m.alternatives[i].mosque)
  {
  }

  // A pending review proposes nothing and nobody has decided it; an accepted one names its mosque and
  // who accepted it; only an admin rejects.
  predicate Signed(r: Review) {
    match r.status
    case Pending => r.reviewer == Nobody && r.proposed.None? && r.decision == NeedsReview
    case Accepted => r.proposed.Some? && (r.reviewer == Resolver || r.reviewer == Admin)
    case Rejected => r.reviewer == Admin && r.proposed.None?
  }

  ghost predicate AllSigned(reviews: map<Id, Review>) {
    forall id :: id in reviews ==> Signed(reviews[id])
  }

  lemma ResolveKeepsSigned(
    s: State, key: Key, m: Match, newMosque: Id, newReview: Id, s': State, mosque: Option<Id>, outcome: Outcome)
    requires ResolveStep(s, key, m, newMosque, newReview, s', mosque, outcome) && AllSigned(s.reviews)
    requires !m.decision.AutoLink? ==> m.mosque.None?
    ensures AllSigned(s'.reviews)
  {
  }

  lemma StepKeepsSigned(s: State, op: Op, s': State)
    requires Step(s, op, s') && AllSigned(s.reviews)
    ensures AllSigned(s'.reviews)
  {
    match op {
      case ResolveRecord(key, candidates, newMosque, newReview) =>
        hide AllSigned, ResolveStep, DecidingScore, Winner;
        var m, mosque, outcome :| Decided(candidates, m) &&
          ResolveStep(s, key, m, newMosque, newReview, s', mosque, outcome);
        ResolveKeepsSigned(s, key, m, newMosque, newReview, s', mosque, outcome);
      case AcceptReview(id, requested) =>
        hide CandidateSet, IsTarget;
        var error :| AcceptStep(s, id, requested, s', error);
        if error.None? {
          var key, target := AcceptDoes(s, id, requested, s');
        }
      case RejectReview(id) =>
    }
  }

  lemma {:induction false} EveryReviewIsSigned(states: seq<State>, ops: seq<Op>, i: nat)
    requires IsRun(states, ops) && i < |states|
    ensures AllSigned(states[i].reviews)
  {
    if i > 0 {
      hide Step, AllSigned;
      EveryReviewIsSigned(states, ops, i - 1);
      StepKeepsSigned(states[i - 1], ops[i - 1], states[i]);
    }
  }
}
