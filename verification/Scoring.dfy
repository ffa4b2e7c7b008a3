/**
 `score_mosque_candidate`: the evidence that one mosque is the place a discovery record describes.
 The fuzzy ratios and the distance are given; postcodes, domains and cities are already normalised
 (the empty string when missing).
 */
module Scoring {
  import opened Wrappers
  import opened Matching

  // What a record says about its own location and nature.
  datatype Provenance = Provenance(precision: Option<string>, confidence: Option<string>, recordClass: Option<string>)

  datatype Evidence = Evidence(
    recordPostcode: string, mosquePostcode: string,
    nameRatio: real, aliasRatios: seq<real>,
    recordDomain: string, mosqueDomain: string,
    recordCity: string, mosqueCity: string,
    distance: Option<real>, provenance: Provenance,
    parentOrgName: bool)

  predicate AllowsGeoIdentity(p: Provenance) {
    if p.precision == Some("approximate") || p.precision == Some("unknown") then false
    else if p.confidence == Some("low") then false
    else p.recordClass !in {Some("defunct"), Some("uncertain"), Some("multi_faith"), Some("other")}
  }

  // Python's `round`: halves go to the even neighbour.
  function RoundHalfEven(x: real): int {
    var f := x.Floor;
    var rest := x - f as real;
    if rest < 0.5 then f else if rest > 0.5 then f + 1 else if f % 2 == 0 then f else f + 1
  }

  // --- location ---

  datatype Geo = Geo(points: nat, signals: nat, reasons: seq<Reason>)

  function GeoScore(distance: Option<real>, allowIdentity: bool): Geo {
    if distance.None? then Geo(0, 0, [])
    else
      var d := distance.value;
      var near := [Distance(RoundHalfEven(d))];
      if d <= 25.0 then
        if allowIdentity then Geo(75, 2, near + [GeoIdentity]) else Geo(25, 1, near)
      else if d <= 50.0 then if allowIdentity then Geo(45, 1, near) else Geo(20, 0, near)
      else if d <= 100.0 then if allowIdentity then Geo(35, 1, near) else Geo(20, 0, near)
      else if d <= 150.0 then if allowIdentity then Geo(25, 1, near) else Geo(15, 0, near)
      else if d <= 500.0 then if allowIdentity then Geo(15, 0, near) else Geo(10, 0, near)
      else Geo(0, 0, [])
  }

  // Closer is never worse, and a trusted location never worse than a vague one.
  lemma GeoScoreMonotone(near: real, far: real, allowIdentity: bool)
    requires near <= far
    ensures GeoScore(Some(near), allowIdentity).points >= GeoScore(Some(far), allowIdentity).points
    ensures GeoScore(Some(near), allowIdentity).signals >= GeoScore(Some(far), allowIdentity).signals
    ensures GeoScore(Some(near), true).points >= GeoScore(Some(near), false).points
    ensures GeoScore(Some(far), allowIdentity).points >= GeoScore(None, allowIdentity).points
  {
  }

  // --- the evidence, in words ---

  predicate Agree(a: string, b: string) {
    a != "" && b != "" && a == b
  }

  predicate HasStrongAlias(e: Evidence) {
    exists i :: 0 <= i < |e.aliasRatios| && e.aliasRatios[i] >= 92.0
  }

  predicate AtTheSpot(e: Evidence) {
    e.distance.Some? && e.distance.value <= 25.0 && AllowsGeoIdentity(e.provenance)
  }

  predicate Nearby(e: Evidence) {
    e.distance.Some? && e.distance.value <= 500.0
  }

  // A parent organisation sharing the building: its name does not resemble the mosque's.
  predicate Penalised(e: Evidence) {
    e.parentOrgName && e.nameRatio < 85.0 && !HasStrongAlias(e)
  }

  function NamePoints(e: Evidence): nat {
    if e.nameRatio >= 92.0 then 30 else if e.nameRatio >= 85.0 then 15 else 0
  }

  function Points(e: Evidence): int {
    35 * One(Agree(e.recordPostcode, e.mosquePostcode))
    + NamePoints(e)
    + 20 * One(HasStrongAlias(e))
    + 25 * One(Agree(e.recordDomain, e.mosqueDomain))
    + 10 * One(Agree(e.recordCity, e.mosqueCity))
    + GeoScore(e.distance, AllowsGeoIdentity(e.provenance)).points
    - 20 * One(Penalised(e))
  }

  // The signals `decide_match` counts: any distance up to 500 m is one, and a name ratio counts
  // from 91.5 because it is read back rounded.
  function StrongSignals(e: Evidence): nat {
    One(Agree(e.recordPostcode, e.mosquePostcode)) + One(e.nameRatio >= 91.5) + One(HasStrongAlias(e))
    + One(Agree(e.recordDomain, e.mosqueDomain)) + One(Nearby(e)) + One(AtTheSpot(e))
  }

  predicate Identifies(e: Evidence) {
    Agree(e.recordDomain, e.mosqueDomain) || AtTheSpot(e) || e.nameRatio >= 91.5 || HasStrongAlias(e)
  }

  // The signals the scorer itself reports.
  function ReportedSignals(e: Evidence): nat {
    One(Agree(e.recordPostcode, e.mosquePostcode)) + One(e.nameRatio >= 92.0) + One(HasStrongAlias(e))
    + One(Agree(e.recordDomain, e.mosqueDomain)) + GeoScore(e.distance, AllowsGeoIdentity(e.provenance)).signals
  }

  // --- scoring ---

  lemma {:induction false} CountStrongOfConcat(a: seq<Reason>, b: seq<Reason>)
    ensures CountStrongSignals(a + b) == CountStrongSignals(a) + CountStrongSignals(b)
  {
    if a == [] {
      assert a + b == b;
    } else {
      assert (a + b)[1..] == a[1..] + b;
      CountStrongOfConcat(a[1..], b);
    }
  }

  // What the decision reads from the reasons of a candidate.
  datatype Reading = Reading(strong: nat, identity: bool, named: bool)

  ghost function Read(reasons: seq<Reason>): Reading {
    Reading(CountStrongSignals(reasons), HasIdentitySignal(reasons), NameEvidence(reasons))
  }

  lemma ReadNothing()
    ensures Read([]) == Reading(0, false, false)
  {
  }

  lemma ReadOneMore(before: seq<Reason>, r: Reason)
    ensures Read(before + [r]) == Reading(
      Read(before).strong + One(StrongSignal(r)),
      Read(before).identity || r.DomainMatch? || r.GeoIdentity? || StrongRatio(r),
      Read(before).named || (RatioOf(r).Some? && RatioOf(r).value >= NAME_OVERRIDE_RATIO))
  {
    CountStrongOfConcat(before, [r]);
    var after := before + [r];
    assert forall x :: x in after <==> x in before || x == r;
  }

  // Aliases are tried in order; the first strong one is recorded.
  predicate FirstStrong(ratios: seq<real>, i: nat) {
    i < |ratios| && ratios[i] >= 92.0 && forall j :: 0 <= j < i ==> ratios[j] < 92.0
  }

  // The evidence gives this reason.
  ghost predicate Gives(e: Evidence, r: Reason) {
    match r
    case PostcodeMatch => Agree(e.recordPostcode, e.mosquePostcode)
    case NameRatio(ratio) => e.nameRatio >= 85.0 && ratio == RoundHalfEven(e.nameRatio)
    case AliasRatio(ratio) => exists i: nat :: FirstStrong(e.aliasRatios, i) && ratio == RoundHalfEven(e.aliasRatios[i])
    case DomainMatch => Agree(e.recordDomain, e.mosqueDomain)
    case CityMatch => Agree(e.recordCity, e.mosqueCity)
    case Distance(meters) => Nearby(e) && meters == RoundHalfEven(e.distance.value)
    case GeoIdentity => AtTheSpot(e)
    case ParentOrgSource => Penalised(e)
    case Signals(n) => n == ReportedSignals(e)
  }

  // When in the course of scoring a reason is recorded.
  function Turn(r: Reason): nat {
    match r
    case PostcodeMatch => 0
    case NameRatio(_) => 1
    case AliasRatio(_) => 2
    case DomainMatch => 3
    case CityMatch => 4
    case Distance(_) => 5
    case GeoIdentity => 6
    case ParentOrgSource => 7
    case Signals(_) => 8
  }

  // The reasons recorded before this turn are those the evidence gives.
  ghost predicate Recorded(e: Evidence, reasons: seq<Reason>, turn: nat) {
    forall r :: r in reasons <==> Turn(r) < turn && Gives(e, r)
  }

  lemma RecordOne(e: Evidence, reasons: seq<Reason>, r: Reason)
    requires Recorded(e, reasons, Turn(r)) && Gives(e, r)
    ensures Recorded(e, reasons + [r], Turn(r) + 1)
  {
    hide Gives, Turn;
    OneAtATurn(e, r);
    assert forall x :: x in reasons + [r] <==> x in reasons || x == r;
  }

  lemma OneAtATurn(e: Evidence, r: Reason)
    requires Gives(e, r)
    ensures forall other :: Turn(other) == Turn(r) && Gives(e, other) ==> other == r
  {
    hide RoundHalfEven, Agree, Nearby, AtTheSpot, Penalised, ReportedSignals;
    if r.AliasRatio? {
      var i: nat :| FirstStrong(e.aliasRatios, i) && r.ratio == RoundHalfEven(e.aliasRatios[i]);
      assert forall j: nat :: FirstStrong(e.aliasRatios, j) ==> j == i;
    }
  }

  lemma RecordNone(e: Evidence, reasons: seq<Reason>, turn: nat)
    requires Recorded(e, reasons, turn) && forall r :: Turn(r) == turn ==> !Gives(e, r)
    ensures Recorded(e, reasons, turn + 1)
  {
    hide Gives, Turn;
  }

  lemma RecordNothing(e: Evidence)
    ensures Recorded(e, [], 0)
  {
  }

  lemma RecordPostcode(e: Evidence, before: seq<Reason>)
    requires Recorded(e, before, 0)
    ensures Recorded(e, if Agree(e.recordPostcode, e.mosquePostcode) then before + [PostcodeMatch] else before, 1)
  {
    hide Recorded, Agree;
    if Gives(e, PostcodeMatch) { RecordOne(e, before, PostcodeMatch); } else { RecordNone(e, before, 0); }
  }

  lemma RecordName(e: Evidence, before: seq<Reason>)
    requires Recorded(e, before, 1)
    ensures Recorded(e, if e.nameRatio >= 85.0 then before + [NameRatio(RoundHalfEven(e.nameRatio))] else before, 2)
  {
    hide Recorded, RoundHalfEven;
    var r := NameRatio(RoundHalfEven(e.nameRatio));
    if Gives(e, r) { RecordOne(e, before, r); } else { RecordNone(e, before, 1); }
  }

  lemma RecordAlias(e: Evidence, before: seq<Reason>, alias: Option<real>)
    requires Recorded(e, before, 2)
    requires alias.Some? ==> Gives(e, AliasRatio(RoundHalfEven(alias.value)))
    requires alias.None? ==> !HasStrongAlias(e)
    ensures Recorded(e, if alias.Some? then before + [AliasRatio(RoundHalfEven(alias.value))] else before, 3)
  {
    hide Recorded, RoundHalfEven;
    if alias.Some? { RecordOne(e, before, AliasRatio(RoundHalfEven(alias.value))); } else { RecordNone(e, before, 2); }
  }

  lemma RecordDomain(e: Evidence, before: seq<Reason>)
    requires Recorded(e, before, 3)
    ensures Recorded(e, if Agree(e.recordDomain, e.mosqueDomain) then before + [DomainMatch] else before, 4)
  {
    hide Recorded, Agree;
    if Gives(e, DomainMatch) { RecordOne(e, before, DomainMatch); } else { RecordNone(e, before, 3); }
  }

  lemma RecordCity(e: Evidence, before: seq<Reason>)
    requires Recorded(e, before, 4)
    ensures Recorded(e, if Agree(e.recordCity, e.mosqueCity) then before + [CityMatch] else before, 5)
  {
    hide Recorded, Agree;
    if Gives(e, CityMatch) { RecordOne(e, before, CityMatch); } else { RecordNone(e, before, 4); }
  }

  lemma RecordGeo(e: Evidence, before: seq<Reason>)
    requires Recorded(e, before, 5)
    ensures
      var geo := GeoScore(e.distance, AllowsGeoIdentity(e.provenance));
      Recorded(e, if geo.points > 0 then before + geo.reasons else before, 7)
  {
    hide Recorded, AllowsGeoIdentity, RoundHalfEven;
    if !Nearby(e) {
      RecordNone(e, before, 5);
      RecordNone(e, before, 6);
    } else {
      var near := Distance(RoundHalfEven(e.distance.value));
      RecordOne(e, before, near);
      if AtTheSpot(e) {
        RecordOne(e, before + [near], GeoIdentity);
        assert before + [near] + [GeoIdentity] == before + [near, GeoIdentity];
        assert [near] + [GeoIdentity] == [near, GeoIdentity];
      } else {
        RecordNone(e, before + [near], 6);
      }
    }
  }

  lemma RecordParent(e: Evidence, before: seq<Reason>)
    requires Recorded(e, before, 7)
    ensures Recorded(e, if Penalised(e) then before + [ParentOrgSource] else before, 8)
  {
    hide Recorded, Penalised;
    if Gives(e, ParentOrgSource) { RecordOne(e, before, ParentOrgSource); } else { RecordNone(e, before, 7); }
  }

  // What a candidate scored on this evidence looks like to the decision.
  ghost predicate ScoredOn(e: Evidence, mosque: nat, c: Scored) {
    && Points(e) >= 25
    && c.mosque == mosque
    && c.score == (if Points(e) < 100 then Points(e) else 100)
    && Read(c.reasons) == Reading(StrongSignals(e), Identifies(e), e.nameRatio >= 85.0 || HasStrongAlias(e))
    && Recorded(e, c.reasons, 9)
  }

  method FirstStrongAlias(ratios: seq<real>) returns (found: Option<real>)
    ensures found.Some? ==> exists i: nat :: FirstStrong(ratios, i) && found.value == ratios[i]
    ensures found.None? ==> forall i :: 0 <= i < |ratios| ==> ratios[i] < 92.0
  {
    for i := 0 to |ratios|
      invariant forall j :: 0 <= j < i ==> ratios[j] < 92.0
    {
      if ratios[i] >= 92.0 {
        assert FirstStrong(ratios, i);
        return Some(ratios[i]);
      }
    }
    return None;
  }

  // A ratio read back from its rounded reason is strong from 91.5, and evidence from 85.
  lemma RoundedRatio(x: real)
    ensures RoundHalfEven(x) >= STRONG_NAME_RATIO <==> x >= 91.5
    ensures x >= 85.0 ==> RoundHalfEven(x) >= NAME_OVERRIDE_RATIO
  {
  }

  // Postcode, name and aliases.
  method ScoreText(e: Evidence) returns (score: int, signals: nat, reasons: seq<Reason>)
    ensures
      var postcode, aliased := One(Agree(e.recordPostcode, e.mosquePostcode)), HasStrongAlias(e);
      && score == 35 * postcode + NamePoints(e) + 20 * One(aliased)
      && signals == postcode + One(e.nameRatio >= 92.0) + One(aliased)
      && Read(reasons) == Reading(
           postcode + One(e.nameRatio >= 91.5) + One(aliased), e.nameRatio >= 91.5 || aliased,
           e.nameRatio >= 85.0 || aliased)
    ensures Recorded(e, reasons, 3)
  {
    score, signals, reasons := 0, 0, [];
    ReadNothing();
    RecordNothing(e);
    RoundedRatio(e.nameRatio);
    hide Read, Recorded, RoundHalfEven, HasStrongAlias, Agree;
    ghost var postcode, aliased := One(Agree(e.recordPostcode, e.mosquePostcode)), HasStrongAlias(e);
    RecordPostcode(e, reasons);
    if Agree(e.recordPostcode, e.mosquePostcode) {
      score, signals := score + 35, signals + 1;
      ReadOneMore(reasons, PostcodeMatch);
      reasons := reasons + [PostcodeMatch];
    }
    assert score == 35 * postcode && signals == postcode && Read(reasons) == Reading(postcode, false, false);

    RecordName(e, reasons);
    if e.nameRatio >= 85.0 {
      if e.nameRatio >= 92.0 {
        score, signals := score + 30, signals + 1;
      } else {
        score := score + 15;
      }
      var r := NameRatio(RoundHalfEven(e.nameRatio));
      ReadOneMore(reasons, r);
      reasons := reasons + [r];
    }
    ghost var strong := postcode + One(e.nameRatio >= 91.5);
    ghost var signalsSoFar := postcode + One(e.nameRatio >= 92.0);
    assert score == 35 * postcode + NamePoints(e) && signals == signalsSoFar;
    assert Read(reasons) == Reading(strong, e.nameRatio >= 91.5, e.nameRatio >= 85.0);

    var alias := FirstStrongAlias(e.aliasRatios);
    AliasFound(e, alias);
    RecordAlias(e, reasons, alias);
    if alias.Some? {
      score, signals := score + 20, signals + 1;
      RoundedRatio(alias.value);
      var r := AliasRatio(RoundHalfEven(alias.value));
      ReadOneMore(reasons, r);
      reasons := reasons + [r];
    }
    strong, signalsSoFar := strong + One(aliased), signalsSoFar + One(aliased);
    assert score == 35 * postcode + NamePoints(e) + 20 * One(aliased) && signals == signalsSoFar;
    assert Read(reasons) == Reading(strong, e.nameRatio >= 91.5 || aliased, e.nameRatio >= 85.0 || aliased);
  }

  method ScoreCandidate(mosque: nat, e: Evidence) returns (scored: Option<Scored>)
    ensures scored.None? <==> Points(e) < 25
    ensures scored.Some? ==> ScoredOn(e, mosque, scored.value)
  {
    hide Read, Recorded, ScoredOn, HasStrongAlias, Agree, AllowsGeoIdentity, GeoScore, Nearby, AtTheSpot;
    hide HighestNameRatio, Points, StrongSignals, ReportedSignals, NamePoints;
    var score, signals, reasons := ScoreText(e);
    Totals(e);
    GeoShape(e);
    RecordDomain(e, reasons);
    if Agree(e.recordDomain, e.mosqueDomain) {
      score, signals := score + 25, signals + 1;
      ReadOneMore(reasons, DomainMatch);
      reasons := reasons + [DomainMatch];
    }
    RecordCity(e, reasons);
    if Agree(e.recordCity, e.mosqueCity) {
      score := score + 10;
      ReadOneMore(reasons, CityMatch);
      reasons := reasons + [CityMatch];
    }

    var geo := GeoScore(e.distance, AllowsGeoIdentity(e.provenance));
    RecordGeo(e, reasons);
    if geo.points > 0 {
      score, signals := score + geo.points, signals + geo.signals;
      ReadGeo(reasons, geo);
      reasons := reasons + geo.reasons;
    }
    assert signals == ReportedSignals(e);
    assert Read(reasons) == Reading(StrongSignals(e), Identifies(e), e.nameRatio >= 85.0 || HasStrongAlias(e));

    HighestIsNamed(reasons);
    RecordParent(e, reasons);
    if e.parentOrgName && HighestNameRatio(reasons) < NAME_OVERRIDE_RATIO {
      score := score - PARENT_ORG_PENALTY;
      ReadOneMore(reasons, ParentOrgSource);
      reasons := reasons + [ParentOrgSource];
    }
    assert score == Points(e);

    if score < 25 { return None; }
    var c := Scored(mosque, if score < 100 then score else 100, reasons + [Signals(signals)]);
    Conclude(e, mosque, reasons, c);
    return Some(c);
  }

  lemma ReadGeo(before: seq<Reason>, geo: Geo)
    requires geo.reasons != [] && geo.reasons[0].Distance? && |geo.reasons| <= 2
    requires |geo.reasons| > 1 ==> geo.reasons[1] == GeoIdentity
    ensures Read(before + geo.reasons) == Reading(
      Read(before).strong + |geo.reasons|, Read(before).identity || |geo.reasons| > 1, Read(before).named)
  {
    hide Read;
    var first := before + [geo.reasons[0]];
    ReadOneMore(before, geo.reasons[0]);
    if |geo.reasons| > 1 {
      ReadOneMore(first, GeoIdentity);
      assert before + geo.reasons == first + [GeoIdentity];
    } else {
      assert before + geo.reasons == first;
    }
  }

  lemma Totals(e: Evidence)
    ensures
      var postcode, domain, city := One(Agree(e.recordPostcode, e.mosquePostcode)),
        One(Agree(e.recordDomain, e.mosqueDomain)), One(Agree(e.recordCity, e.mosqueCity));
      var aliased, geo := HasStrongAlias(e), GeoScore(e.distance, AllowsGeoIdentity(e.provenance));
      && Points(e) == 35 * postcode + NamePoints(e) + 20 * One(aliased) + 25 * domain + 10 * city
           + geo.points - 20 * One(Penalised(e))
      && StrongSignals(e) == postcode + One(e.nameRatio >= 91.5) + One(aliased) + domain + |geo.reasons|
      && ReportedSignals(e) == postcode + One(e.nameRatio >= 92.0) + One(aliased) + domain + geo.signals
      && (Identifies(e) <==> e.nameRatio >= 91.5 || aliased || domain == 1 || |geo.reasons| > 1)
  {
  }

  lemma GeoShape(e: Evidence)
    ensures
      var geo := GeoScore(e.distance, AllowsGeoIdentity(e.provenance));
      && (geo.points > 0 <==> geo.reasons != [])
      && (geo.points == 0 ==> geo.signals == 0)
      && (geo.reasons != [] ==> geo.reasons[0].Distance? && |geo.reasons| <= 2)
      && (|geo.reasons| > 1 ==> geo.reasons[1] == GeoIdentity)
  {
  }

  lemma HighestIsNamed(reasons: seq<Reason>)
    ensures HighestNameRatio(reasons) >= NAME_OVERRIDE_RATIO <==> Read(reasons).named
  {
    HighestRatioIsNameEvidence(reasons);
  }

  lemma Conclude(e: Evidence, mosque: nat, reasons: seq<Reason>, c: Scored)
    requires Points(e) >= 25
    requires Read(reasons) == Reading(StrongSignals(e), Identifies(e), e.nameRatio >= 85.0 || HasStrongAlias(e))
    requires Recorded(e, reasons, 8)
    requires c == Scored(mosque, if Points(e) < 100 then Points(e) else 100, reasons + [Signals(ReportedSignals(e))])
    ensures ScoredOn(e, mosque, c)
  {
    hide Read, Recorded, Points, StrongSignals, Identifies, ReportedSignals;
    ReadOneMore(reasons, Signals(ReportedSignals(e)));
    RecordOne(e, reasons, Signals(ReportedSignals(e)));
  }

  lemma AliasFound(e: Evidence, alias: Option<real>)
    requires alias.Some? ==> exists i: nat :: FirstStrong(e.aliasRatios, i) && alias.value == e.aliasRatios[i]
    requires alias.None? ==> forall i :: 0 <= i < |e.aliasRatios| ==> e.aliasRatios[i] < 92.0
    ensures alias.Some? <==> HasStrongAlias(e)
    ensures alias.Some? ==> alias.value >= 92.0 && Gives(e, AliasRatio(RoundHalfEven(alias.value)))
  {
  }

  // --- what a link without review rests on ---

  // The scorer reports no more signals than the decision counts: the decision also counts a vague
  // or distant location, and a ratio that only rounds to 92.
  lemma ReportedAtMostCounted(e: Evidence)
    ensures ReportedSignals(e) <= StrongSignals(e)
    ensures ReportedSignals(e) == StrongSignals(e) <==>
      && !(91.5 <= e.nameRatio < 92.0)
      && (Nearby(e) ==> e.distance.value <= 25.0 || (e.distance.value <= 150.0 && AllowsGeoIdentity(e.provenance)))
  {
  }

  // A trusted location within 25 m suffices on its own, unless the record names a parent
  // organisation; then it takes two tenths of other evidence.
  lemma LocationAlone(e: Evidence, mosque: nat, c: Scored)
    requires AtTheSpot(e) && ScoredOn(e, mosque, c)
    ensures Convincing(c) <==> Points(e) >= 75
    ensures Points(e) >= 75 <==>
      (Penalised(e) ==>
         Agree(e.recordPostcode, e.mosquePostcode) || Agree(e.recordDomain, e.mosqueDomain))
  {
  }

  // Without a location a candidate is convincing exactly on one of these sets of evidence: the
  // postcode with a strong name and something else, with a similar name and the domain, with an
  // alias and the domain, or with a similar name, an alias and the city; or a strong name with an
  // alias and the domain.
  lemma WordsAlone(e: Evidence, mosque: nat, c: Scored)
    requires e.distance.None? && ScoredOn(e, mosque, c)
    ensures
      var postcode, domain, city := Agree(e.recordPostcode, e.mosquePostcode),
        Agree(e.recordDomain, e.mosqueDomain), Agree(e.recordCity, e.mosqueCity);
      var strong, similar, aliased := e.nameRatio >= 92.0, e.nameRatio >= 85.0, HasStrongAlias(e);
      Convincing(c) <==>
        || (postcode && strong && (aliased || domain || city))
        || (postcode && similar && domain)
        || (postcode && aliased && domain)
        || (postcode && similar && aliased && city)
        || (strong && aliased && domain)
  {
    hide CountStrongSignals, HasIdentitySignal, NameEvidence, HasStrongAlias, Agree;
  }

  // What each piece of evidence is worth, all else being equal.
  lemma LocationWorth(e: Evidence)
    requires e.distance.Some?
    ensures
      var d, p := e.distance.value, e.provenance;
      var trusted :=
        && p.precision !in {Some("approximate"), Some("unknown")} && p.confidence != Some("low")
        && p.recordClass !in {Some("defunct"), Some("uncertain"), Some("multi_faith"), Some("other")};
      Points(e) - Points(e.(distance := None)) ==
        if trusted then
          (if d <= 25.0 then 75 else if d <= 50.0 then 45 else if d <= 100.0 then 35 else if d <= 150.0 then 25
           else if d <= 500.0 then 15 else 0)
        else
          (if d <= 25.0 then 25 else if d <= 100.0 then 20 else if d <= 150.0 then 15 else if d <= 500.0 then 10
           else 0)
  {
  }

  lemma NameWorth(e: Evidence)
    ensures Points(e.(parentOrgName := false)) - Points(e) ==
      if e.parentOrgName && e.nameRatio < 85.0 && forall x :: x in e.aliasRatios ==> x < 92.0 then 20 else 0
    ensures
      var worth := Points(e.(parentOrgName := false)) - Points(e.(nameRatio := 0.0, parentOrgName := false));
      && (e.nameRatio >= 92.0 ==> worth == 30)
      && (85.0 <= e.nameRatio < 92.0 ==> worth == 15)
      && (e.nameRatio < 85.0 ==> worth == 0)
  {
    hide GeoScore, AllowsGeoIdentity, Agree;
    AliasesAre(e);
  }

  lemma FieldsWorth(e: Evidence)
    ensures Points(e) - Points(e.(recordCity := "")) ==
      if e.recordCity != "" && e.recordCity == e.mosqueCity then 10 else 0
    ensures Points(e) - Points(e.(recordDomain := "")) ==
      if e.recordDomain != "" && e.recordDomain == e.mosqueDomain then 25 else 0
    ensures Points(e) - Points(e.(recordPostcode := "")) ==
      if e.recordPostcode != "" && e.recordPostcode == e.mosquePostcode then 35 else 0
  {
    hide GeoScore, AllowsGeoIdentity;
  }

  lemma AliasWorth(e: Evidence)
    ensures Points(e) - Points(e.(aliasRatios := [], parentOrgName := false)) ==
      if exists x :: x in e.aliasRatios && x >= 92.0 then 20 else if Penalised(e) then -20 else 0
  {
    AliasesAre(e);
    AliasesAre(e.(aliasRatios := [], parentOrgName := false));
    hide HasStrongAlias;
  }

  lemma AliasesAre(e: Evidence)
    ensures HasStrongAlias(e) <==> exists x :: x in e.aliasRatios && x >= 92.0
  {
    if HasStrongAlias(e) {
      var i :| 0 <= i < |e.aliasRatios| && e.aliasRatios[i] >= 92.0;
      assert e.aliasRatios[i] in e.aliasRatios;
    }
  }

  // Python's `round` gives a nearest integer, and the even one of two.
  lemma RoundsToNearest(x: real)
    ensures -0.5 <= RoundHalfEven(x) as real - x <= 0.5
    ensures RoundHalfEven(x) as real - x in {-0.5, 0.5} ==> RoundHalfEven(x) % 2 == 0
  {
  }

  // Every mosque linked without review is identified by its domain, its exact place or its name,
  // has a second signal, and leads every other mosque considered by 0.1.
  lemma AutoLinkIsJustified(evidence: seq<Evidence>, mosques: seq<nat>, candidates: seq<Scored>, m: Match)
    requires |evidence| == |mosques| == |candidates|
    requires forall i :: 0 <= i < |candidates| ==> ScoredOn(evidence[i], mosques[i], candidates[i])
    requires Decided(candidates, m) && m.decision.AutoLink?
    ensures exists i :: 0 <= i < |candidates| && m.mosque == Some(mosques[i]) && JustifiedBy(evidence, i)
  {
    hide ScoredOn, NameEvidence;
    var c :| Winner(candidates, c) && m.mosque == Some(c.mosque);
    var i :| AutoLinkable(candidates, i) && candidates[i] == c;
    Justified(evidence, mosques, candidates, i);
  }

  ghost predicate JustifiedBy(evidence: seq<Evidence>, i: nat)
    requires i < |evidence|
  {
    var e := evidence[i];
    && Identifies(e) && StrongSignals(e) >= 2 && Points(e) >= 75
    && (forall j :: 0 <= j < |evidence| && j != i ==> Points(evidence[j]) <= Points(e) - 10)
    && (Penalised(e) ==> Agree(e.recordPostcode, e.mosquePostcode) || Agree(e.recordDomain, e.mosqueDomain))
  }

  lemma Justified(evidence: seq<Evidence>, mosques: seq<nat>, candidates: seq<Scored>, i: nat)
    requires |evidence| == |mosques| == |candidates| && i < |evidence|
    requires forall i :: 0 <= i < |candidates| ==> ScoredOn(evidence[i], mosques[i], candidates[i])
    requires AutoLinkable(candidates, i)
    ensures mosques[i] == candidates[i].mosque && JustifiedBy(evidence, i)
  {
    hide NameEvidence, CountStrongSignals, HasIdentitySignal;
    var e := evidence[i];
    assert ScoredOn(e, mosques[i], candidates[i]);
    forall j | 0 <= j < |evidence| && j != i ensures Points(evidence[j]) <= Points(e) - 10 {
      assert ScoredOn(evidence[j], mosques[j], candidates[j]);
    }
  }
}
