/**
 `ingest/discovery/matching.py`: scoring one mosque for a discovery record, and deciding between
 the scored candidates. Scores are hundredths.
 */
module Matching {
  import opened Wrappers

  const AUTO_LINK_THRESHOLD := 75
  const STRONG_NAME_RATIO := 92
  const NAME_OVERRIDE_RATIO := 85
  const NAME_OVERRIDE_MAX_GAP := 25
  const PARENT_ORG_PENALTY := 20

  datatype Reason =
    | PostcodeMatch
    | NameRatio(ratio: int)
    | AliasRatio(ratio: int)
    | DomainMatch
    | CityMatch
    | Distance(meters: int)
    | GeoIdentity
    | ParentOrgSource
    | Signals(n: nat)

  datatype Scored = Scored(mosque: nat, score: int, reasons: seq<Reason>)

  datatype Decision = AutoLink | CreateNeedsReview | NeedsReview

  datatype Match = Match(decision: Decision, mosque: Option<nat>, score: int, alternatives: seq<Scored>)

  // --- reasons ---

  function RatioOf(r: Reason): Option<int> {
    match r
    case NameRatio(ratio) => Some(ratio)
    case AliasRatio(ratio) => Some(ratio)
    case _ => None
  }

  function Max(a: int, b: int): int {
    if a < b then b else a
  }

  function Ratios(reasons: seq<Reason>): seq<int> {
    if reasons == [] then []
    else (if RatioOf(reasons[0]).Some? then [RatioOf(reasons[0]).value] else []) + Ratios(reasons[1..])
  }

  function MaxOf(ratios: seq<int>): int
    requires ratios != []
  {
    if |ratios| == 1 then ratios[0] else Max(ratios[0], MaxOf(ratios[1..]))
  }

  function HighestNameRatio(reasons: seq<Reason>): int {
    if Ratios(reasons) == [] then 0 else MaxOf(Ratios(reasons))
  }

  // Name evidence: some recorded ratio is high enough to override.
  ghost predicate NameEvidence(reasons: seq<Reason>) {
    exists r :: r in reasons && RatioOf(r).Some? && RatioOf(r).value >= NAME_OVERRIDE_RATIO
  }

  lemma {:induction false} MaxReaches(ratios: seq<int>, bound: int)
    requires ratios != []
    ensures MaxOf(ratios) >= bound <==> exists x :: x in ratios && x >= bound
  {
    assert ratios[0] in ratios;
    if |ratios| > 1 {
      MaxReaches(ratios[1..], bound);
      assert forall x :: x in ratios <==> x == ratios[0] || x in ratios[1..];
    }
  }

  lemma {:induction false} RatiosAre(reasons: seq<Reason>, x: int)
    ensures x in Ratios(reasons) <==> exists r :: r in reasons && RatioOf(r) == Some(x)
  {
    if reasons != [] {
      RatiosAre(reasons[1..], x);
      assert forall r :: r in reasons <==> r == reasons[0] || r in reasons[1..];
    }
  }

  lemma HighestRatioIsNameEvidence(reasons: seq<Reason>)
    ensures HighestNameRatio(reasons) >= NAME_OVERRIDE_RATIO <==> NameEvidence(reasons)
  {
    forall x ensures x in Ratios(reasons) <==> exists r :: r in reasons && RatioOf(r) == Some(x) {
      RatiosAre(reasons, x);
    }
    if Ratios(reasons) != [] {
      MaxReaches(Ratios(reasons), NAME_OVERRIDE_RATIO);
    }
    if NameEvidence(reasons) {
      var r :| r in reasons && RatioOf(r).Some? && RatioOf(r).value >= NAME_OVERRIDE_RATIO;
      assert RatioOf(r).value in Ratios(reasons);
    }
  }

  predicate StrongRatio(r: Reason) {
    RatioOf(r).Some? && RatioOf(r).value >= STRONG_NAME_RATIO
  }

  predicate StrongSignal(r: Reason) {
    r.PostcodeMatch? || r.Distance? || r.GeoIdentity? || r.DomainMatch? || StrongRatio(r)
  }

  function CountStrongSignals(reasons: seq<Reason>): nat {
    if reasons == [] then 0
    else One(StrongSignal(reasons[0])) + CountStrongSignals(reasons[1..])
  }

  predicate HasIdentitySignal(reasons: seq<Reason>) {
    exists r :: r in reasons && (r.DomainMatch? || r.GeoIdentity? || StrongRatio(r))
  }

  // --- the ranking ---

  predicate Descending(s: seq<Scored>) {
    forall i, j :: 0 <= i < j < |s| ==> s[i].score >= s[j].score
  }

  // Python's `sorted(..., reverse=True)`: descending, equal scores in their given order.
  function SortedByScore(s: seq<Scored>): seq<Scored> {
    if s == [] then [] else InsertByScore(s[0], SortedByScore(s[1..]))
  }

  function InsertByScore(c: Scored, s: seq<Scored>): seq<Scored> {
    if s == [] || s[0].score <= c.score then [c] + s else [s[0]] + InsertByScore(c, s[1..])
  }

  lemma {:induction false} InsertPermutes(c: Scored, s: seq<Scored>)
    ensures multiset(InsertByScore(c, s)) == multiset{c} + multiset(s)
  {
    if s != [] && s[0].score > c.score {
      InsertPermutes(c, s[1..]);
      assert s == [s[0]] + s[1..];
    }
  }

  lemma {:induction false} SortPermutes(s: seq<Scored>)
    ensures multiset(SortedByScore(s)) == multiset(s)
  {
    if s != [] {
      SortPermutes(s[1..]);
      InsertPermutes(s[0], SortedByScore(s[1..]));
      assert s == [s[0]] + s[1..];
    }
  }

  lemma {:induction false} InsertDescends(c: Scored, s: seq<Scored>)
    requires Descending(s)
    ensures Descending(InsertByScore(c, s))
    ensures InsertByScore(c, s) != [] && InsertByScore(c, s)[0] in [c] + s
  {
    if s != [] && s[0].score > c.score {
      InsertDescends(c, s[1..]);
      var rest := InsertByScore(c, s[1..]);
      assert rest[0].score <= s[0].score;
    }
  }

  lemma {:induction false} SortDescends(s: seq<Scored>)
    ensures Descending(SortedByScore(s))
  {
    if s != [] {
      SortDescends(s[1..]);
      InsertDescends(s[0], SortedByScore(s[1..]));
    }
  }

  function WithScore(s: seq<Scored>, score: int): seq<Scored> {
    if s == [] then [] else (if s[0].score == score then [s[0]] else []) + WithScore(s[1..], score)
  }

  lemma WithScoreOfCons(c: Scored, s: seq<Scored>, score: int)
    ensures WithScore([c] + s, score) == (if c.score == score then [c] else []) + WithScore(s, score)
  {
    assert ([c] + s)[1..] == s;
  }

  lemma {:induction false} InsertIsStable(c: Scored, s: seq<Scored>, score: int)
    ensures WithScore(InsertByScore(c, s), score) == (if c.score == score then [c] else []) + WithScore(s, score)
  {
    if s == [] || s[0].score <= c.score {
      WithScoreOfCons(c, s, score);
    } else {
      InsertIsStable(c, s[1..], score);
      assert s == [s[0]] + s[1..];
      WithScoreOfCons(s[0], s[1..], score);
      WithScoreOfCons(s[0], InsertByScore(c, s[1..]), score);
      hide WithScore, InsertByScore;
    }
  }

  // Candidates with the same score keep their order.
  lemma {:induction false} SortIsStable(s: seq<Scored>, score: int)
    ensures WithScore(SortedByScore(s), score) == WithScore(s, score)
  {
    if s != [] {
      SortIsStable(s[1..], score);
      InsertIsStable(s[0], SortedByScore(s[1..]), score);
    }
  }

  // --- the decision ---

  // The candidate promoted over the best-scoring one, if any: the first with name evidence, when
  // the best has none and leads it by no more than the allowed gap.
  ghost predicate IsPromotion(ranked: seq<Scored>, promoted: Option<nat>) {
    match promoted
    case Some(i) =>
      && 0 < i < |ranked| && FirstNamed(ranked, i)
      && ranked[0].score - ranked[i].score <= NAME_OVERRIDE_MAX_GAP
    case None =>
      || |ranked| == 0 || NameEvidence(ranked[0].reasons)
      || (forall j :: 0 <= j < |ranked| ==> !NameEvidence(ranked[j].reasons))
      || exists i ::
           && 0 < i < |ranked| && FirstNamed(ranked, i)
           && ranked[0].score - ranked[i].score > NAME_OVERRIDE_MAX_GAP
  }

  ghost predicate FirstNamed(ranked: seq<Scored>, i: nat)
    requires i < |ranked|
  {
    NameEvidence(ranked[i].reasons) && forall j :: 0 <= j < i ==> !NameEvidence(ranked[j].reasons)
  }

  method NameEvidenceOverride(ranked: seq<Scored>) returns (promoted: Option<nat>)
    ensures IsPromotion(ranked, promoted)
  {
    if |ranked| == 0 { return None; }
    HighestRatioIsNameEvidence(ranked[0].reasons);
    if |ranked| < 2 { return None; }
    if HighestNameRatio(ranked[0].reasons) >= NAME_OVERRIDE_RATIO { return None; }
    var i := 1;
    while i < |ranked|
      invariant 1 <= i <= |ranked|
      invariant forall j :: 0 <= j < i ==> !NameEvidence(ranked[j].reasons)
    {
      HighestRatioIsNameEvidence(ranked[i].reasons);
      if HighestNameRatio(ranked[i].reasons) >= NAME_OVERRIDE_RATIO {
        if ranked[0].score - ranked[i].score > NAME_OVERRIDE_MAX_GAP { return None; }
        return Some(i);
      }
      i := i + 1;
    }
    return None;
  }

  // What the decision is, said without mentioning the order of the candidates.

  ghost predicate Highest(cs: seq<Scored>, score: int) {
    (exists c :: c in cs && c.score == score) && forall c :: c in cs ==> c.score <= score
  }

  ghost predicate HighestNamed(cs: seq<Scored>, score: int) {
    && (exists c :: c in cs && NameEvidence(c.reasons) && c.score == score)
    && forall c :: c in cs && NameEvidence(c.reasons) ==> c.score <= score
  }

  // A candidate with name evidence that nobody leads by more than the allowed gap.
  ghost predicate Promotable(cs: seq<Scored>, d: Scored) {
    d in cs && NameEvidence(d.reasons) && forall c :: c in cs ==> c.score - d.score <= NAME_OVERRIDE_MAX_GAP
  }

  // The score the decision looks at: the best with name evidence if any is near the top, else the best.
  ghost predicate DecidingScore(cs: seq<Scored>, score: int) {
    if exists d :: Promotable(cs, d) then HighestNamed(cs, score) else Highest(cs, score)
  }

  // Strong on its own.
  predicate Convincing(c: Scored) {
    c.score >= AUTO_LINK_THRESHOLD && CountStrongSignals(c.reasons) >= 2 && HasIdentitySignal(c.reasons)
  }

  // The winner must be convincing, lead every other candidate by 0.1, and either carry name
  // evidence or lead every candidate that does by more than the gap.
  ghost predicate AutoLinkable(cs: seq<Scored>, i: int) {
    && 0 <= i < |cs| && Convincing(cs[i])
    && (forall j :: 0 <= j < |cs| && j != i ==> cs[i].score - cs[j].score >= 10)
    && (NameEvidence(cs[i].reasons)
        || forall d :: d in cs && NameEvidence(d.reasons) ==> cs[i].score - d.score > NAME_OVERRIDE_MAX_GAP)
  }

  ghost predicate Winner(cs: seq<Scored>, c: Scored) {
    exists i :: AutoLinkable(cs, i) && cs[i] == c
  }

  ghost predicate Decided(cs: seq<Scored>, m: Match) {
    if cs == [] then m == Match(CreateNeedsReview, None, 0, [])
    else
      && DecidingScore(cs, m.score)
      && (m.decision.CreateNeedsReview? <==> m.score < 25)
      && (m.decision.AutoLink? <==> exists c :: Winner(cs, c))
      && (m.decision.AutoLink? ==> exists c :: Winner(cs, c) && m.mosque == Some(c.mosque) && m.score == c.score)
      && (!m.decision.AutoLink? ==> m.mosque.None?)
      && |m.alternatives| == (if !m.decision.NeedsReview? then 0 else if |cs| < 3 then |cs| else 3)
      && (m.decision.NeedsReview? ==> m.alternatives[0].score == m.score)
      && (forall c :: c in m.alternatives ==> c in cs)
  }

  // The outcome for one order of the candidates is the outcome for every order.
  lemma OrderDoesNotMatter(cs: seq<Scored>, cs': seq<Scored>, m: Match)
    requires multiset(cs) == multiset(cs') && Decided(cs, m)
    ensures Decided(cs', m)
  {
    SameMembers(cs, cs');
    if cs != [] { SameDecidingScore(cs, cs', m.score); }
    forall c ensures Winner(cs, c) <==> Winner(cs', c) {
      if Winner(cs, c) { WinsInAnyOrder(cs, cs', c); }
      if Winner(cs', c) { WinsInAnyOrder(cs', cs, c); }
    }
    hide Winner, DecidingScore;
  }

  lemma SameDecidingScore(cs: seq<Scored>, cs': seq<Scored>, score: int)
    requires (forall c :: c in cs <==> c in cs') && DecidingScore(cs, score)
    ensures DecidingScore(cs', score)
  {
    hide NameEvidence;
    forall d ensures Promotable(cs, d) <==> Promotable(cs', d) {}
  }

  lemma SameMembers(cs: seq<Scored>, cs': seq<Scored>)
    requires multiset(cs) == multiset(cs')
    ensures forall c :: c in cs <==> c in cs'
    ensures |cs| == |cs'|
  {
    forall c ensures c in cs <==> c in cs' {
      assert c in multiset(cs) <==> c in multiset(cs');
    }
    assert |multiset(cs)| == |cs| && |multiset(cs')| == |cs'|;
  }

  lemma OnlyOne(s: seq<Scored>, i: nat)
    requires i < |s| && forall j :: 0 <= j < |s| && j != i ==> s[j] != s[i]
    ensures multiset(s)[s[i]] == 1
  {
    assert s == s[..i] + [s[i]] + s[i + 1..];
    assert s[i] !in s[..i] && s[i] !in s[i + 1..];
    assert s[i] !in multiset(s[..i]) && s[i] !in multiset(s[i + 1..]);
  }

  lemma AtLeastTwo(s: seq<Scored>, i: nat, j: nat)
    requires i < j < |s| && s[i] == s[j]
    ensures multiset(s)[s[i]] >= 2
  {
    assert s == s[..j] + s[j..];
    assert s[..j][i] == s[i] && s[j..][0] == s[i];
    assert s[i] in multiset(s[..j]) && s[i] in multiset(s[j..]);
  }

  lemma WinsInAnyOrder(cs: seq<Scored>, cs': seq<Scored>, c: Scored)
    requires multiset(cs) == multiset(cs') && Winner(cs, c)
    ensures Winner(cs', c)
  {
    hide Convincing, NameEvidence;
    SameMembers(cs, cs');
    var i :| AutoLinkable(cs, i) && cs[i] == c;
    assert c in cs';
    var k :| 0 <= k < |cs'| && cs'[k] == c;
    OnlyOne(cs, i);
    forall j | 0 <= j < |cs'| && j != k ensures c.score - cs'[j].score >= 10 {
      if cs'[j] == c {
        AtLeastTwo(cs', if j < k then j else k, if j < k then k else j);
      } else {
        assert cs'[j] in cs;
      }
    }
    assert AutoLinkable(cs', k);
  }

  // Decision, mosque and score are determined.
  lemma DecisionIsDetermined(cs: seq<Scored>, m: Match, m': Match)
    requires Decided(cs, m) && Decided(cs, m')
    ensures m.decision == m'.decision && m.mosque == m'.mosque && m.score == m'.score
  {
    hide NameEvidence, Convincing;
    if m.decision.AutoLink? {
      var c :| Winner(cs, c) && m.mosque == Some(c.mosque);
      var c' :| Winner(cs, c') && m'.mosque == Some(c'.mosque);
      var i :| AutoLinkable(cs, i) && cs[i] == c;
      var k :| AutoLinkable(cs, k) && cs[k] == c';
      assert i == k;
    }
  }

  lemma HeadDecides(ranked: seq<Scored>, promoted: Option<nat>)
    requires |ranked| > 0 && Descending(ranked) && IsPromotion(ranked, promoted)
    ensures DecidingScore(ranked, ranked[if promoted.Some? then promoted.value else 0].score)
  {
    hide NameEvidence;
    if promoted.Some? {
      assert Promotable(ranked, ranked[promoted.value]);
    } else if NameEvidence(ranked[0].reasons) {
      assert Promotable(ranked, ranked[0]);
    } else {
      forall d | d in ranked ensures !Promotable(ranked, d) {
        assert ranked[0] in ranked;
      }
    }
  }

  // A candidate that may be linked without review stands alone at the top, unpromoted.
  lemma LinkableStandsAlone(ranked: seq<Scored>, promoted: Option<nat>, c: Scored)
    requires Descending(ranked) && IsPromotion(ranked, promoted) && Winner(ranked, c)
    ensures ranked != [] && c == ranked[0] && promoted.None? && Convincing(c)
    ensures |ranked| > 1 ==> ranked[0].score - ranked[1].score >= 10
  {
    hide NameEvidence, Convincing;
    var i :| AutoLinkable(ranked, i) && ranked[i] == c;
    assert i == 0;
  }

  lemma LoneLeaderIsLinkable(ranked: seq<Scored>)
    requires |ranked| > 0 && Descending(ranked) && IsPromotion(ranked, None) && Convincing(ranked[0])
    requires |ranked| > 1 ==> ranked[0].score - ranked[1].score >= 10
    ensures Winner(ranked, ranked[0])
  {
    hide NameEvidence, Convincing;
    assert AutoLinkable(ranked, 0);
  }

  // The thresholds, applied to the ranking after any promotion.
  ghost predicate HeadTakes(ranked: seq<Scored>, m: Match)
    requires ranked != []
  {
    var best := ranked[0];
    var ambiguous := |ranked| > 1 && ranked[1].score >= 50 && best.score - ranked[1].score < 10;
    && m.score == best.score
    && m.decision == (if !ambiguous && Convincing(best) then AutoLink
                      else if ambiguous || best.score >= 25 then NeedsReview
                      else CreateNeedsReview)
    && m.mosque == (if m.decision.AutoLink? then Some(best.mosque) else None)
    && m.alternatives == (if m.decision.NeedsReview? then ranked[..if |ranked| < 3 then |ranked| else 3] else [])
  }

  lemma DecidedByHead(sorted: seq<Scored>, promoted: Option<nat>, ranked: seq<Scored>, m: Match)
    requires sorted != [] && Descending(sorted) && IsPromotion(sorted, promoted)
    requires |ranked| == |sorted| && forall c :: c in ranked <==> c in sorted
    requires match promoted
             case Some(i) => ranked[0] == sorted[i] && ranked[1] == sorted[0]
             case None => ranked == sorted
    requires HeadTakes(ranked, m)
    ensures Decided(sorted, m)
  {
    HeadDecides(sorted, promoted);
    forall c | Winner(sorted, c) ensures m.decision.AutoLink? {
      LinkableStandsAlone(sorted, promoted, c);
    }
    if m.decision.AutoLink? {
      assert promoted.None?;
      LoneLeaderIsLinkable(sorted);
    }
    hide NameEvidence, DecidingScore, Convincing, Winner, IsPromotion, Descending;
  }

  // The ranking with the promoted candidate in front.
  function Promoted(ranked: seq<Scored>, promoted: Option<nat>): seq<Scored>
    requires promoted.Some? ==> promoted.value < |ranked|
  {
    if promoted.None? then ranked
    else
      var i := promoted.value;
      [ranked[i]] + (ranked[..i] + ranked[i + 1..])
  }

  // A review shows the first three of that ranking.
  ghost predicate ShowsBest(cs: seq<Scored>, m: Match) {
    var ranked := SortedByScore(cs);
    m.decision.NeedsReview? ==> exists promoted ::
      && IsPromotion(ranked, promoted)
      && m.alternatives <= Promoted(ranked, promoted)
  }

  method MoveToFront(ranked: seq<Scored>, i: nat) returns (moved: seq<Scored>)
    requires 0 < i < |ranked|
    ensures moved == Promoted(ranked, Some(i))
    ensures |moved| == |ranked| && moved[0] == ranked[i] && moved[1] == ranked[0]
    ensures forall c :: c in moved <==> c in ranked
  {
    var popped := ranked[..i] + ranked[i + 1..];
    moved := [ranked[i]] + popped;
    assert ranked == ranked[..i] + [ranked[i]] + ranked[i + 1..];
  }

  lemma SortedFacts(candidates: seq<Scored>)
    ensures Descending(SortedByScore(candidates)) && multiset(SortedByScore(candidates)) == multiset(candidates)
    ensures |SortedByScore(candidates)| == |candidates|
  {
    SortPermutes(candidates);
    SortDescends(candidates);
    SameMembers(candidates, SortedByScore(candidates));
  }

  method DecideMatch(candidates: seq<Scored>) returns (m: Match)
    ensures Decided(candidates, m)
    ensures ShowsBest(candidates, m)
  {
    hide SortedByScore, NameEvidence, DecidingScore, Winner, IsPromotion, Descending, HasIdentitySignal,
      CountStrongSignals;
    if |candidates| == 0 { return Match(CreateNeedsReview, None, 0, []); }
    var ranked := SortedByScore(candidates);
    SortedFacts(candidates);
    var promoted := NameEvidenceOverride(ranked);
    ghost var sorted := ranked;
    PromotedIsInside(ranked, promoted);
    if promoted.Some? {
      ranked := MoveToFront(ranked, promoted.value);
    }
    var best := ranked[0];
    var shown := ranked[..if |ranked| < 3 then |ranked| else 3];
    if |ranked| > 1 && ranked[1].score >= 50 && best.score - ranked[1].score < 10 {
      m := Match(NeedsReview, None, best.score, shown);
    } else if best.score >= AUTO_LINK_THRESHOLD && CountStrongSignals(best.reasons) >= 2
              && HasIdentitySignal(best.reasons) {
      m := Match(AutoLink, Some(best.mosque), best.score, []);
    } else if best.score >= 25 {
      m := Match(NeedsReview, None, best.score, shown);
    } else {
      m := Match(CreateNeedsReview, None, best.score, []);
    }
    DecidedByHead(sorted, promoted, ranked, m);
    OrderDoesNotMatter(sorted, candidates, m);
    assert IsPromotion(sorted, promoted) && m.alternatives <= Promoted(sorted, promoted);
  }

  lemma PromotedIsInside(ranked: seq<Scored>, promoted: Option<nat>)
    requires IsPromotion(ranked, promoted)
    ensures promoted.Some? ==> 0 < promoted.value < |ranked|
  {
  }

  // A promotion over the best-scoring candidate never ends in a link without review.
  lemma PromotionNeverLinks(candidates: seq<Scored>, promoted: Option<nat>, m: Match)
    requires IsPromotion(SortedByScore(candidates), promoted) && promoted.Some? && Decided(candidates, m)
    ensures !m.decision.AutoLink?
  {
    var ranked := SortedByScore(candidates);
    SortPermutes(candidates);
    SortDescends(candidates);
    SameMembers(candidates, ranked);
    hide SortedByScore, NameEvidence, DecidingScore, Winner;
    OrderDoesNotMatter(candidates, ranked, m);
    forall c | Winner(ranked, c) ensures promoted.None? {
      LinkableStandsAlone(ranked, promoted, c);
    }
  }
}
