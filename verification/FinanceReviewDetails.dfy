/** A finance review in detail: which lanes are refused, what a folded decision shows, and when each reason is given. */
module FinanceReviewDetails {
  import opened Base
  import opened Canonical
  import opened CanonicalOrder
  import opened FinanceReview
  import opened FinanceReviewTheorems

  // ---- lanes ----------------------------------------------------------------------------------------

  ghost predicate ListDiffers(a: seq<string>, b: seq<string>, i: nat)
  {
    i < |a| && i < |b| && a[..i] == b[..i] && Precedes(a[i], b[i])
  }

  /** Lists in the same way as texts: a proper prefix first, else by the first place where they differ. */
  ghost predicate ListPrecedes(a: seq<string>, b: seq<string>)
  {
    (|a| < |b| && b[..|a|] == a) || exists i: nat :: ListDiffers(a, b, i)
  }

  /** The item is the first of the index under its reference. */
  predicate FirstUnder(evidence: seq<Evidence>, i: nat)
  {
    i < |evidence| && forall j :: 0 <= j < i ==> evidence[j].reference != evidence[i].reference
  }

  /** Some item under the reference is accepted, and the first one has a class the school may use. */
  ghost predicate Cites(a: Authority, evidence: seq<Evidence>, reference: string)
  {
    && (exists i :: 0 <= i < |evidence| && evidence[i].reference == reference && evidence[i].status == Accepted)
    && (exists i: nat :: FirstUnder(evidence, i) && evidence[i].reference == reference
                         && evidence[i].class_ in a.acceptedClasses)
  }

  ghost predicate AllCited(a: Authority, evidence: seq<Evidence>, references: seq<string>)
  {
    forall i :: 0 <= i < |references| ==> Cites(a, evidence, references[i])
  }

  /** Lists in order, evidence cited, and a closure only by a registered rule with evidence. */
  ghost predicate DecisionObeys(profile: Profile, a: Authority, evidence: seq<Evidence>, d: Decision)
  {
    && Ascends(d.evidence) && Ascends(d.invalidations) && Ascends(d.closureEvidence)
    && (forall i :: 0 <= i < |d.codes| ==> Ascends(d.codes[i]))
    && AllCited(a, evidence, d.evidence) && AllCited(a, evidence, d.closureEvidence)
    && (d.closureRule.Some? <==> d.closureEvidence != [])
    && (d.closureRule.Some? ==> d.closureRule.value in profile.closureRules)
  }

  ghost predicate Known(claims: seq<Claim>, id: string)
  {
    exists c :: 0 <= c < |claims| && claims[c].id == id
  }

  /** Known claims, evidence cited, and closed exactly when a registered rule and evidence close it. */
  ghost predicate ResidualObeys(profile: Profile, a: Authority, evidence: seq<Evidence>, claims: seq<Claim>, r: Residual)
  {
    && (forall i :: 0 <= i < |r.claims| ==> Known(claims, r.claims[i]))
    && AllCited(a, evidence, r.closureEvidence)
    && (r.closureRule.Some? <==> !r.open) && (r.closureEvidence != [] <==> !r.open)
    && (r.closureRule.Some? ==> r.closureRule.value in profile.closureRules)
  }

  /** Every claim is decided once, and nothing else is. */
  ghost predicate DecidesOnce(claims: seq<Claim>, decisions: seq<Decision>)
  {
    && (forall i, j :: 0 <= i < j < |decisions| ==> decisions[i].claim != decisions[j].claim)
    && (forall i :: 0 <= i < |decisions| ==> Known(claims, decisions[i].claim))
    && (forall c :: 0 <= c < |claims| ==> exists i :: 0 <= i < |decisions| && decisions[i].claim == claims[c].id)
  }

  /** Authority k of the profile is the first for the school. */
  predicate Speaks(profile: Profile, school: School, k: nat)
  {
    && k < |profile.schools| && profile.schools[k].school == school
    && forall j :: 0 <= j < k ==> profile.schools[j].school != school
  }

  /** Residuals by code, then by claims. */
  ghost predicate ResidualsInOrder(residuals: seq<Residual>)
  {
    forall i :: 0 <= i < |residuals| - 1 ==> ResidualPrecedes(residuals[i], residuals[i + 1])
  }

  ghost predicate ResidualPrecedes(r: Residual, s: Residual)
  {
    Precedes(r.code, s.code) || (r.code == s.code && ListPrecedes(r.claims, s.claims))
  }

  ghost predicate LaneObeys(profile: Profile, claims: seq<Claim>, evidence: seq<Evidence>, lane: Lane, k: nat)
  {
    && Speaks(profile, lane.school, k)
    && DecidesOnce(claims, lane.decisions)
    && (forall i :: 0 <= i < |lane.decisions| ==>
          DecisionObeys(profile, profile.schools[k], evidence, lane.decisions[i]))
    && (forall i :: 0 <= i < |lane.residuals| ==>
          ResidualObeys(profile, profile.schools[k], evidence, claims, lane.residuals[i]))
    && ResidualsInOrder(lane.residuals)
  }

  lemma SortedAscends(s: seq<string>)
    ensures Sorted(s) <==> Ascends(s)
  {
    forall i | 0 <= i < |s| - 1 ensures Before(s[i], s[i + 1]) <==> Precedes(s[i], s[i + 1]) {
      OrderIsByCodePoints(s[i], s[i + 1]);
    }
  }

  lemma ListDiffersLater(a: seq<string>, b: seq<string>, i: nat)
    requires a != [] && b != [] && a[0] == b[0]
    ensures ListDiffers(a, b, i + 1) <==> ListDiffers(a[1..], b[1..], i)
  {
    if ListDiffers(a, b, i + 1) {
      assert a[1..][..i] == a[..i + 1][1..] && b[1..][..i] == b[..i + 1][1..];
    }
    if ListDiffers(a[1..], b[1..], i) {
      assert a[..i + 1] == [a[0]] + a[1..][..i] && b[..i + 1] == [b[0]] + b[1..][..i];
    }
  }

  lemma ListPrefixLater(a: seq<string>, b: seq<string>)
    requires a != [] && b != [] && a[0] == b[0]
    ensures (|a| < |b| && b[..|a|] == a) <==> (|a[1..]| < |b[1..]| && b[1..][..|a| - 1] == a[1..])
  {
    if |a| < |b| {
      assert b[..|a|] == [b[0]] + b[1..][..|a| - 1] && a == [a[0]] + a[1..];
      assert b[1..][..|a| - 1] == b[..|a|][1..];
    }
  }

  lemma ListFirstPlace(a: seq<string>, b: seq<string>, i: nat)
    requires ListDiffers(a, b, i)
    ensures a[0] == b[0] || (i == 0 && Precedes(a[0], b[0]))
  {
    assert i > 0 ==> a[0] == a[..i][0] && b[0] == b[..i][0];
  }

  lemma ListPrefixAgrees(a: seq<string>, b: seq<string>)
    requires a != []
    ensures |a| < |b| && b[..|a|] == a ==> a[0] == b[0]
  {
    assert |a| < |b| ==> b[..|a|][0] == b[0];
  }

  lemma {:induction false} ListOrder(a: seq<string>, b: seq<string>)
    ensures ListBefore(a, b) <==> ListPrecedes(a, b)
    decreases |a|
  {
    hide Before, Precedes;
    if a == [] || b == [] {
      assert a == [] && b != [] ==> b[..|a|] == a;
    } else if a[0] != b[0] {
      OrderIsByCodePoints(a[0], b[0]);
      assert ListDiffers(a, b, 0) <==> Precedes(a[0], b[0]);
      forall i: nat | ListDiffers(a, b, i) ensures Precedes(a[0], b[0]) {
        ListFirstPlace(a, b, i);
      }
      ListPrefixAgrees(a, b);
    } else {
      BeforeIrreflexive(a[0]);
      OrderIsByCodePoints(a[0], a[0]);
      ListOrder(a[1..], b[1..]);
      ListPrefixLater(a, b);
      if i: nat :| ListDiffers(a[1..], b[1..], i) {
        ListDiffersLater(a, b, i);
      }
      if i: nat :| ListDiffers(a, b, i) {
        assert i > 0;
        ListDiffersLater(a, b, i - 1);
      }
    }
  }

  lemma BeforeIrreflexive(a: string)
    ensures !Before(a, a)
  {
    if Before(a, a) {
      BeforeAsymmetric(a, a);
    }
  }

  lemma {:induction false} FoundIsFirst(evidence: seq<Evidence>, reference: string)
    ensures match FindEvidence(evidence, reference)
            case None => forall i :: 0 <= i < |evidence| ==> evidence[i].reference != reference
            case Some(e) => exists i: nat :: FirstUnder(evidence, i) && evidence[i] == e && e.reference == reference
    decreases |evidence|
  {
    if evidence != [] {
      if evidence[0].reference == reference {
        assert FirstUnder(evidence, 0);
      } else {
        FoundIsFirst(evidence[1..], reference);
        if FindEvidence(evidence, reference).Some? {
          var i: nat :| FirstUnder(evidence[1..], i) && evidence[1..][i] == FindEvidence(evidence, reference).value;
          assert forall j :: 0 < j < i + 1 ==> evidence[j] == evidence[1..][j - 1];
          assert FirstUnder(evidence, i + 1);
        }
      }
    }
  }

  lemma OneFirst(evidence: seq<Evidence>, i: nat, j: nat)
    requires FirstUnder(evidence, i) && FirstUnder(evidence, j) && evidence[i].reference == evidence[j].reference
    ensures i == j
  {
  }

  lemma CitationIsExact(a: Authority, evidence: seq<Evidence>, reference: string)
    ensures CitationOk(a, evidence, reference) <==> Cites(a, evidence, reference)
  {
    FoundIsFirst(evidence, reference);
    assert reference in Admitted(evidence) <==>
      exists i :: 0 <= i < |evidence| && evidence[i].reference == reference && evidence[i].status == Accepted;
    if FindEvidence(evidence, reference).Some? {
      var e := FindEvidence(evidence, reference).value;
      var i: nat :| FirstUnder(evidence, i) && evidence[i] == e;
      forall j: nat | FirstUnder(evidence, j) && evidence[j].reference == reference ensures j == i {
        OneFirst(evidence, i, j);
      }
    }
  }

  lemma CitationsAreExact(a: Authority, evidence: seq<Evidence>, references: seq<string>)
    ensures (forall r :: r in references ==> CitationOk(a, evidence, r)) <==> AllCited(a, evidence, references)
  {
    forall r | r in references ensures CitationOk(a, evidence, r) <==> Cites(a, evidence, r) {
      CitationIsExact(a, evidence, r);
    }
  }

  lemma DecisionIsExact(profile: Profile, a: Authority, evidence: seq<Evidence>, d: Decision)
    ensures DecisionOk(profile, a, evidence, d) <==> DecisionObeys(profile, a, evidence, d)
  {
    SortedAscends(d.evidence);
    SortedAscends(d.invalidations);
    SortedAscends(d.closureEvidence);
    CitationsAreExact(a, evidence, d.evidence);
    CitationsAreExact(a, evidence, d.closureEvidence);
    forall i | 0 <= i < |d.codes| ensures Sorted(d.codes[i]) <==> Ascends(d.codes[i]) {
      SortedAscends(d.codes[i]);
    }
    hide Sorted, Ascends, CitationOk, AllCited;
  }

  lemma ResidualIsExact(profile: Profile, a: Authority, evidence: seq<Evidence>, claims: seq<Claim>, r: Residual)
    ensures ResidualOk(profile, a, evidence, ClaimIds(claims), r) <==> ResidualObeys(profile, a, evidence, claims, r)
  {
    CitationsAreExact(a, evidence, r.closureEvidence);
    forall i | 0 <= i < |r.claims| ensures r.claims[i] in ClaimIds(claims) <==> Known(claims, r.claims[i]) {
    }
    assert forall i :: 0 <= i < |r.claims| ==> r.claims[i] in r.claims;
    hide ClaimIds, CitationOk, AllCited;
  }

  lemma {:induction false} OnceMeansAsMany(decisions: seq<Decision>)
    requires forall i, j :: 0 <= i < j < |decisions| ==> decisions[i].claim != decisions[j].claim
    ensures |DecidedIds(decisions)| == |decisions|
    decreases |decisions|
  {
    if decisions != [] {
      var before, last := decisions[..|decisions| - 1], decisions[|decisions| - 1];
      OnceMeansAsMany(before);
      IdsGrow(before, last);
      assert before + [last] == decisions;
      assert last.claim !in DecidedIds(before);
    }
  }

  lemma DecidingIsExact(claims: seq<Claim>, decisions: seq<Decision>)
    ensures |DecidedIds(decisions)| == |decisions| && DecidedIds(decisions) == ClaimIds(claims) <==>
            DecidesOnce(claims, decisions)
  {
    if DecidesOnce(claims, decisions) {
      OnceMeansAsMany(decisions);
      forall x | x in DecidedIds(decisions) ensures x in ClaimIds(claims) {
        var i :| 0 <= i < |decisions| && decisions[i].claim == x;
        assert Known(claims, decisions[i].claim);
      }
      forall x | x in ClaimIds(claims) ensures x in DecidedIds(decisions) {
        var c :| 0 <= c < |claims| && claims[c].id == x;
      }
    }
    if |DecidedIds(decisions)| == |decisions| && DecidedIds(decisions) == ClaimIds(claims) {
      forall i, j | 0 <= i < j < |decisions| ensures decisions[i].claim != decisions[j].claim {
        DecidedOnce(decisions, i, j);
      }
      forall i | 0 <= i < |decisions| ensures Known(claims, decisions[i].claim) {
        assert decisions[i].claim in ClaimIds(claims);
      }
      forall c | 0 <= c < |claims| ensures exists i :: 0 <= i < |decisions| && decisions[i].claim == claims[c].id {
        assert claims[c].id in DecidedIds(decisions);
      }
    }
  }

  lemma {:induction false} SpeakerIsFirst(schools: seq<Authority>, school: School)
    ensures match FindAuthorityFrom(schools, school)
            case None => forall k :: 0 <= k < |schools| ==> schools[k].school != school
            case Some(a) =>
              exists k :: 0 <= k < |schools| && schools[k] == a && a.school == school
                          && forall j :: 0 <= j < k ==> schools[j].school != school
    decreases |schools|
  {
    if schools != [] {
      SpeakerIsFirst(schools[1..], school);
      if schools[0].school != school && FindAuthorityFrom(schools, school).Some? {
        var a := FindAuthorityFrom(schools, school).value;
        var k :| 0 <= k < |schools[1..]| && schools[1..][k] == a
                 && forall j :: 0 <= j < k ==> schools[1..][j].school != school;
        assert forall j :: 0 < j < k + 1 ==> schools[j] == schools[1..][j - 1];
        assert schools[k + 1] == a;
      }
    }
  }

  lemma AuthorityFound(profile: Profile, school: School, k: nat)
    requires Speaks(profile, school, k)
    ensures FindAuthority(profile, school) == Some(profile.schools[k])
  {
    SpeakerIsFirst(profile.schools, school);
  }

  lemma AuthorityMissing(profile: Profile, school: School) returns (k: nat)
    requires FindAuthority(profile, school).Some?
    ensures Speaks(profile, school, k)
  {
    SpeakerIsFirst(profile.schools, school);
    var a := FindAuthority(profile, school).value;
    k :| 0 <= k < |profile.schools| && profile.schools[k] == a
         && forall j :: 0 <= j < k ==> profile.schools[j].school != school;
  }

  lemma ResidualOrder(residuals: seq<Residual>)
    ensures (forall i :: 0 <= i < |residuals| - 1 ==> ResidualBefore(residuals[i], residuals[i + 1])) <==>
            ResidualsInOrder(residuals)
  {
    forall i | 0 <= i < |residuals| - 1
      ensures ResidualBefore(residuals[i], residuals[i + 1]) <==> ResidualPrecedes(residuals[i], residuals[i + 1])
    {
      OrderIsByCodePoints(residuals[i].code, residuals[i + 1].code);
      ListOrder(residuals[i].claims, residuals[i + 1].claims);
    }
  }

  /** A lane passes exactly when it obeys every rule, stated on its fields: so a citation of evidence that is not accepted
      or of a class the school may not use, an unregistered or unsupported closure, an unknown claim, a closed residual
      without a rule or an open one with it, a claim decided twice or never, and any list out of order refuses it. */
  lemma LaneIsExact(profile: Profile, claims: seq<Claim>, evidence: seq<Evidence>, lane: Lane)
    ensures LaneOk(profile, claims, evidence, lane) <==> exists k :: LaneObeys(profile, claims, evidence, lane, k)
  {
    DecidingIsExact(claims, lane.decisions);
    ResidualOrder(lane.residuals);
    forall k: nat | Speaks(profile, lane.school, k)
      ensures LaneOk(profile, claims, evidence, lane) <==> LaneObeys(profile, claims, evidence, lane, k)
    {
      AuthorityFound(profile, lane.school, k);
      LaneUnder(profile, claims, evidence, lane, k);
    }
    if LaneOk(profile, claims, evidence, lane) {
      var k := AuthorityMissing(profile, lane.school);
      assert LaneObeys(profile, claims, evidence, lane, k);
    }
  }

  lemma LaneUnder(profile: Profile, claims: seq<Claim>, evidence: seq<Evidence>, lane: Lane, k: nat)
    requires Speaks(profile, lane.school, k) && FindAuthority(profile, lane.school) == Some(profile.schools[k])
    requires |DecidedIds(lane.decisions)| == |lane.decisions| && DecidedIds(lane.decisions) == ClaimIds(claims) <==>
             DecidesOnce(claims, lane.decisions)
    requires (forall i :: 0 <= i < |lane.residuals| - 1 ==> ResidualBefore(lane.residuals[i], lane.residuals[i + 1])) <==>
             ResidualsInOrder(lane.residuals)
    ensures LaneOk(profile, claims, evidence, lane) <==> LaneObeys(profile, claims, evidence, lane, k)
  {
    var a := profile.schools[k];
    forall i | 0 <= i < |lane.decisions|
      ensures DecisionOk(profile, a, evidence, lane.decisions[i]) <==>
              DecisionObeys(profile, a, evidence, lane.decisions[i])
    {
      DecisionIsExact(profile, a, evidence, lane.decisions[i]);
    }
    forall i | 0 <= i < |lane.residuals|
      ensures ResidualOk(profile, a, evidence, ClaimIds(claims), lane.residuals[i]) <==>
              ResidualObeys(profile, a, evidence, claims, lane.residuals[i])
    {
      ResidualIsExact(profile, a, evidence, claims, lane.residuals[i]);
    }
    hide DecisionOk, DecisionObeys, ResidualOk, ResidualObeys, DecidesOnce, DecidedIds, ClaimIds, ResidualBefore,
         ResidualPrecedes, FindAuthority, Speaks;
  }

  // ---- rounds ----------------------------------------------------------------------------------------------

  ghost predicate HasLane(outputs: seq<Lane>, school: School)
  {
    exists i :: 0 <= i < |outputs| && outputs[i].school == school
  }

  /** Five lanes of this version, run and phase, and among them one of every school. */
  lemma RoundIsExact(runId: string, phase: Phase, outputs: seq<Lane>)
    ensures OutputSetOk(runId, phase, outputs) <==>
            && |outputs| == 5
            && (forall i :: 0 <= i < 5 ==>
                  outputs[i].version == "1.0" && outputs[i].runId == runId && outputs[i].phase == phase)
            && (forall school: School :: HasLane(outputs, school))
  {
    forall school: School ensures HasLane(outputs, school) <==> school in LaneSchools(outputs) {
    }
    forall school: School ensures school in SCHOOLS {
      EverySchool(school);
    }
    if |outputs| == 5 && forall school: School :: HasLane(outputs, school) {
      FiveOfFive(outputs);
    }
  }

  lemma FiveOfFive(outputs: seq<Lane>)
    requires |outputs| == 5 && forall school: School :: HasLane(outputs, school)
    ensures forall i, j :: 0 <= i < j < |outputs| ==> outputs[i].school != outputs[j].school
  {
    assert HasLane(outputs, FactorRiskModel) && HasLane(outputs, EventDriven) && HasLane(outputs, FundamentalSupplyChain)
           && HasLane(outputs, TrendTechnicalRegime) && HasLane(outputs, MarketMicrostructure);
  }

  // ---- folded decisions ---------------------------------------------------------------------------------------

  /** From the mildest to the most severe. */
  const SEVERITY: seq<Disposition> := [Clear, NotApplicable, InsufficientEvidence, Contradicted, Quarantined, Expired]

  predicate AtMost(a: Disposition, b: Disposition)
  {
    exists i, j :: 0 <= i <= j < 6 && SEVERITY[i] == a && SEVERITY[j] == b
  }

  lemma RankIsPlace(a: Disposition, b: Disposition)
    ensures SEVERITY[Rank(a)] == a
    ensures AtMost(a, b) <==> Rank(a) <= Rank(b)
  {
    assert SEVERITY[Rank(a)] == a && SEVERITY[Rank(b)] == b;
  }

  ghost predicate AcceptedRef(evidence: seq<Evidence>, reference: string)
  {
    exists i :: 0 <= i < |evidence| && evidence[i].reference == reference && evidence[i].status == Accepted
  }

  /** An objection that no registered rule closes with accepted evidence. */
  ghost predicate Stands(d: Dossier, x: Decision)
  {
    && x.disposition in {InsufficientEvidence, Contradicted, Quarantined, Expired}
    && !(&& x.closureRule.Some? && x.closureRule.value in d.profile.closureRules && x.closureEvidence != []
         && forall i :: 0 <= i < |x.closureEvidence| ==> AcceptedRef(d.evidence, x.closureEvidence[i]))
  }

  lemma StandingIsUnresolved(d: Dossier, x: Decision)
    ensures Unresolved(d.profile, Admitted(d.evidence), x) <==> Stands(d, x)
  {
    forall r ensures r in Admitted(d.evidence) <==> AcceptedRef(d.evidence, r) {
    }
    hide Admitted, AcceptedRef;
  }

  /** The school takes part in the claim. */
  predicate TakesPart(rule: Applicability)
  {
    rule.mode == Mandatory || (rule.mode == Conditional && rule.predicateResult == Some(true))
  }

  /** Decision j1 of lane i1 of the first round and j2 of i2 of the second are the school's on the claim. */
  predicate Pair(d: Dossier, c: nat, school: School, i1: nat, j1: nat, i2: nat, j2: nat)
  {
    && Concerns(d, d.r1, i1, j1, c) && Concerns(d, d.r2, i2, j2, c)
    && d.r1[i1].school == school && d.r2[i2].school == school
  }

  /** The folded decision of a claim and a school that takes part shows the most severe of the objections of the two
      rounds that stand, and is clear and does not block exactly when none does; where the school takes no part it shows
      not_applicable and does not block. */
  lemma FoldedShowsWorst(d: Dossier, folded: seq<Folded>, c: nat, s: nat, i1: nat, j1: nat, i2: nat, j2: nat)
    requires ClaimsOk(d.profile, d.claims) && LanesOk(d) && RoundsOk(d)
    requires FoldSpec(d.profile, d.claims, d.r1, d.r2, Admitted(d.evidence)) == Ok(folded)
    requires s < 5 && c < |d.claims| && Pair(d, c, SCHOOLS[s], i1, j1, i2, j2)
    ensures |folded| == 5 * |d.claims| && SCHOOLS[s] in d.claims[c].applicability
    ensures var f, rule := folded[5 * c + s], d.claims[c].applicability[SCHOOLS[s]];
            var first, second := d.r1[i1].decisions[j1], d.r2[i2].decisions[j2];
            && f.claim == d.claims[c].id && f.school == SCHOOLS[s] && f.mode == rule.mode
            && if TakesPart(rule) then
                 && (f.disposition == Clear <==> !Stands(d, first) && !Stands(d, second))
                 && (f.disposition != Clear ==>
                       || (Stands(d, first) && f.disposition == first.disposition)
                       || (Stands(d, second) && f.disposition == second.disposition))
                 && (Stands(d, first) ==> AtMost(first.disposition, f.disposition))
                 && (Stands(d, second) ==> AtMost(second.disposition, f.disposition))
                 && f.blocking == (f.disposition != Clear)
               else f.disposition == NotApplicable && !f.blocking
  {
    CellOfPair(d, folded, c, s, i1, j1, i2, j2);
    WorstIsShown(d, d.r1[i1].decisions[j1], d.r2[i2].decisions[j2]);
    hide FoldSpec, LanesOk, RoundsOk, ClaimsOk, DecisionOf, Stands, AtMost, Admitted, Worst;
  }

  /** The worse of two decisions is the more severe of those that stand. */
  lemma WorstIsShown(d: Dossier, first: Decision, second: Decision)
    ensures var worst := Worst(d.profile, Admitted(d.evidence), first, second);
            && (worst == Clear <==> !Stands(d, first) && !Stands(d, second))
            && (worst != Clear ==> (Stands(d, first) && worst == first.disposition)
                                   || (Stands(d, second) && worst == second.disposition))
            && (Stands(d, first) ==> AtMost(first.disposition, worst))
            && (Stands(d, second) ==> AtMost(second.disposition, worst))
  {
    var worst := Worst(d.profile, Admitted(d.evidence), first, second);
    StandingIsUnresolved(d, first);
    StandingIsUnresolved(d, second);
    RankIsPlace(first.disposition, worst);
    RankIsPlace(second.disposition, worst);
    StandsIsNotClear(d, first);
    StandsIsNotClear(d, second);
    hide Stands, Unresolved, AtMost, Admitted;
  }

  /** The cell of a claim and a school is folded from the school's decisions on the claim. */
  lemma CellOfPair(d: Dossier, folded: seq<Folded>, c: nat, s: nat, i1: nat, j1: nat, i2: nat, j2: nat)
    requires ClaimsOk(d.profile, d.claims) && LanesOk(d) && RoundsOk(d)
    requires FoldSpec(d.profile, d.claims, d.r1, d.r2, Admitted(d.evidence)) == Ok(folded)
    requires s < 5 && c < |d.claims| && Pair(d, c, SCHOOLS[s], i1, j1, i2, j2)
    ensures |folded| == 5 * |d.claims| && SCHOOLS[s] in d.claims[c].applicability
    ensures var f, rule := folded[5 * c + s], d.claims[c].applicability[SCHOOLS[s]];
            var worst := Worst(d.profile, Admitted(d.evidence), d.r1[i1].decisions[j1], d.r2[i2].decisions[j2]);
            f == if TakesPart(rule) then Folded(d.claims[c].id, SCHOOLS[s], rule.mode, worst, worst != Clear)
                 else Folded(d.claims[c].id, SCHOOLS[s], rule.mode, NotApplicable, false)
  {
    hide LaneOk, OutputSetOk, ClaimsOk, DecisionOf, Worst, FoldCell, TakesPart, Unresolved;
    DecisionIsUnique(d, d.r1[0].runId, R1, d.r1, i1, j1);
    DecisionIsUnique(d, d.r1[0].runId, R2, d.r2, i2, j2);
    CellIndex(c, s);
    FoldedCell(d, folded, 5 * c + s);
    hide FoldSpec, LanesOk, RoundsOk, Admitted;
    FoldOfTwo(d.profile, Admitted(d.evidence), d.claims[c], SCHOOLS[s], d.r1, d.r2, folded[5 * c + s]);
  }

  lemma FoldOfTwo(profile: Profile, admitted: set<string>, claim: Claim, school: School, r1: seq<Lane>, r2: seq<Lane>,
                  f: Folded)
    requires FoldCell(profile, admitted, claim, school, r1, r2) == Ok(f)
    ensures school in claim.applicability
    ensures DecisionOf(r1, school, claim.id).Some? && DecisionOf(r2, school, claim.id).Some?
    ensures var rule := claim.applicability[school];
            var worst := Worst(profile, admitted, DecisionOf(r1, school, claim.id).value,
                               DecisionOf(r2, school, claim.id).value);
            f == if TakesPart(rule) then Folded(claim.id, school, rule.mode, worst, worst != Clear)
                 else Folded(claim.id, school, rule.mode, NotApplicable, false)
  {
    hide DecisionOf, Worst;
  }

  lemma StandsIsNotClear(d: Dossier, x: Decision)
    ensures Stands(d, x) ==> x.disposition != Clear
  {
  }

  lemma FoldedCell(d: Dossier, folded: seq<Folded>, k: nat)
    requires FoldSpec(d.profile, d.claims, d.r1, d.r2, Admitted(d.evidence)) == Ok(folded) && k < 5 * |d.claims|
    ensures |folded| == 5 * |d.claims| && Cell(d, k) == Ok(folded[k])
  {
    assert CellAt(d.profile, Admitted(d.evidence), d.claims, d.r1, d.r2, k).Ok?;
  }

  // ---- reasons ---------------------------------------------------------------------------------------------------

  /** Some lane carries a material residual that is open. */
  ghost predicate LeavesOpen(lanes: seq<Lane>)
  {
    exists i, j :: 0 <= i < |lanes| && 0 <= j < |lanes[i].residuals|
                   && lanes[i].residuals[j].material && lanes[i].residuals[j].open
  }

  /** Some decision carries an invalidation. */
  ghost predicate Invalidates(lanes: seq<Lane>)
  {
    exists i, j :: 0 <= i < |lanes| && 0 <= j < |lanes[i].decisions| && lanes[i].decisions[j].invalidations != []
  }

  lemma {:induction false} OpenIsExact(lanes: seq<Lane>)
    ensures OpenMaterial(lanes) != {} <==> LeavesOpen(lanes)
    decreases |lanes|
  {
    if lanes != [] {
      var before, last := lanes[..|lanes| - 1], lanes[|lanes| - 1];
      OpenIsExact(before);
      NoneOpen(last.residuals);
      assert LeavesOpen(lanes) <==> LeavesOpen(before) || LaneOpen(last.residuals) != {} by {
        assert forall i :: 0 <= i < |before| ==> lanes[i] == before[i];
      }
      hide LeavesOpen, LaneOpen;
      EitherIsEmpty(OpenMaterial(before), LaneOpen(last.residuals));
    }
  }

  lemma EitherIsEmpty(a: set<string>, b: set<string>)
    ensures a + b == {} <==> a == {} && b == {}
  {
    assert a <= a + b && b <= a + b;
  }

  lemma {:induction false} InvalidIsExact(lanes: seq<Lane>)
    ensures Invalidations(lanes) != {} <==> Invalidates(lanes)
    decreases |lanes|
  {
    if lanes != [] {
      var before, last := lanes[..|lanes| - 1], lanes[|lanes| - 1];
      InvalidIsExact(before);
      NoneInvalid(last.decisions);
      assert Invalidates(lanes) <==> Invalidates(before) || LaneInvalidations(last.decisions) != {} by {
        assert forall i :: 0 <= i < |before| ==> lanes[i] == before[i];
      }
      hide Invalidates, LaneInvalidations;
      EitherIsEmpty(Invalidations(before), LaneInvalidations(last.decisions));
    }
  }

  /** Some lane of either round objects to a claim in which its school takes part by a rule of this mode. */
  ghost predicate Objects(d: Dossier, outputs: seq<Lane>, i: nat, j: nat, c: nat, mode: Mode)
  {
    && Concerns(d, outputs, i, j, c) && outputs[i].school in d.claims[c].applicability
    && d.claims[c].applicability[outputs[i].school].mode == mode
    && TakesPart(d.claims[c].applicability[outputs[i].school])
    && Stands(d, outputs[i].decisions[j])
  }

  ghost predicate Objected(d: Dossier, outputs: seq<Lane>, mode: Mode)
  {
    exists i: nat, j: nat, c: nat :: Objects(d, outputs, i, j, c, mode)
  }

  /** A cell that is not clear and blocks, under a rule of this mode. */
  predicate Blocks(f: Folded, mode: Mode)
  {
    f.mode == mode && f.blocking
  }

  lemma {:induction false} FoldGivesReasons(folded: seq<Folded>)
    requires forall k :: 0 <= k < |folded| && folded[k].mode == Mandatory ==>
                           folded[k].blocking == (folded[k].disposition != Clear)
    ensures MandatorySchoolNotClear in FoldReasons(folded) <==> exists k :: 0 <= k < |folded| && Blocks(folded[k], Mandatory)
    ensures ConditionalSchoolNotClear in FoldReasons(folded) <==>
            exists k :: 0 <= k < |folded| && Blocks(folded[k], Conditional)
    ensures forall r :: r in FoldReasons(folded) ==> r == MandatorySchoolNotClear || r == ConditionalSchoolNotClear
    decreases |folded|
  {
    if folded != [] {
      var n := |folded| - 1;
      FoldGivesReasons(folded[..n]);
      assert folded[..n] + [folded[n]] == folded;
      assert forall mode: Mode :: (exists k :: 0 <= k < |folded| && Blocks(folded[k], mode)) <==>
          (exists k :: 0 <= k < n && Blocks(folded[..n][k], mode)) || Blocks(folded[n], mode) by {
        assert forall k :: 0 <= k < n ==> folded[..n][k] == folded[k];
      }
    }
  }

  lemma ObjectionBlocks(d: Dossier, folded: seq<Folded>, i: nat, j: nat, c: nat, mode: Mode)
    returns (k: nat)
    requires ClaimsOk(d.profile, d.claims) && LanesOk(d) && RoundsOk(d)
    requires FoldSpec(d.profile, d.claims, d.r1, d.r2, Admitted(d.evidence)) == Ok(folded)
    requires Objects(d, d.r1, i, j, c, mode) || Objects(d, d.r2, i, j, c, mode)
    ensures k < |folded| && Blocks(folded[k], mode)
  {
    hide LaneOk, OutputSetOk, FoldSpec, ClaimsOk, DecisionOf, Admitted, AtMost;
    var school := if Objects(d, d.r1, i, j, c, mode) then d.r1[i].school else d.r2[i].school;
    EverySchool(school);
    var s :| 0 <= s < 5 && SCHOOLS[s] == school;
    var i1, j1 := RoundCell(d, d.r1[0].runId, R1, d.r1, c, school);
    var i2, j2 := RoundCell(d, d.r1[0].runId, R2, d.r2, c, school);
    hide LanesOk, RoundsOk, Stands;
    if Objects(d, d.r1, i, j, c, mode) {
      FoldedShowsWorst(d, folded, c, s, i, j, i2, j2);
    } else {
      FoldedShowsWorst(d, folded, c, s, i1, j1, i, j);
    }
    k := 5 * c + s;
  }

  lemma BlockIsObjection(d: Dossier, folded: seq<Folded>, k: nat, mode: Mode)
    requires ClaimsOk(d.profile, d.claims) && LanesOk(d) && RoundsOk(d)
    requires FoldSpec(d.profile, d.claims, d.r1, d.r2, Admitted(d.evidence)) == Ok(folded)
    requires k < |folded|
    ensures Blocks(folded[k], mode) ==> Objected(d, d.r1, mode) || Objected(d, d.r2, mode)
    ensures folded[k].mode == Mandatory ==> folded[k].blocking == (folded[k].disposition != Clear)
  {
    hide FoldSpec, LanesOk, RoundsOk, ClaimsOk, DecisionOf, Stands, Admitted, Objected, AtMost;
    var i1, j1, i2, j2 := PairOfCell(d, folded, k);
    var c, s := k / 5, k % 5;
    FoldedShowsWorst(d, folded, c, s, i1, j1, i2, j2);
    if Blocks(folded[k], mode) {
      assert Objects(d, d.r1, i1, j1, c, mode) || Objects(d, d.r2, i2, j2, c, mode);
      Witnessed(d, i1, j1, i2, j2, c, mode);
    }
  }

  lemma Witnessed(d: Dossier, i1: nat, j1: nat, i2: nat, j2: nat, c: nat, mode: Mode)
    requires Objects(d, d.r1, i1, j1, c, mode) || Objects(d, d.r2, i2, j2, c, mode)
    ensures Objected(d, d.r1, mode) || Objected(d, d.r2, mode)
  {
    hide Objects;
  }

  /** The decisions behind a cell. */
  lemma PairOfCell(d: Dossier, folded: seq<Folded>, k: nat) returns (i1: nat, j1: nat, i2: nat, j2: nat)
    requires ClaimsOk(d.profile, d.claims) && LanesOk(d) && RoundsOk(d)
    requires FoldSpec(d.profile, d.claims, d.r1, d.r2, Admitted(d.evidence)) == Ok(folded)
    requires k < |folded|
    ensures |folded| == 5 * |d.claims| && Pair(d, k / 5, SCHOOLS[k % 5], i1, j1, i2, j2)
  {
    assert |folded| == 5 * |d.claims|;
    hide FoldSpec, ClaimsOk;
    var c, school := k / 5, SCHOOLS[k % 5];
    assert school in SCHOOLS;
    i1, j1 := RoundCell(d, d.r1[0].runId, R1, d.r1, c, school);
    i2, j2 := RoundCell(d, d.r1[0].runId, R2, d.r2, c, school);
  }

  lemma BlocksAreObjections(d: Dossier, folded: seq<Folded>, mode: Mode)
    requires ClaimsOk(d.profile, d.claims) && LanesOk(d) && RoundsOk(d)
    requires FoldSpec(d.profile, d.claims, d.r1, d.r2, Admitted(d.evidence)) == Ok(folded)
    ensures (exists k :: 0 <= k < |folded| && Blocks(folded[k], mode)) <==>
            Objected(d, d.r1, mode) || Objected(d, d.r2, mode)
    ensures forall k :: 0 <= k < |folded| && folded[k].mode == Mandatory ==>
                          folded[k].blocking == (folded[k].disposition != Clear)
  {
    hide FoldSpec, LanesOk, RoundsOk, ClaimsOk, Admitted, Objects, Blocks;
    forall k | 0 <= k < |folded|
      ensures Blocks(folded[k], mode) ==> Objected(d, d.r1, mode) || Objected(d, d.r2, mode)
      ensures folded[k].mode == Mandatory ==> folded[k].blocking == (folded[k].disposition != Clear)
    {
      BlockIsObjection(d, folded, k, mode);
    }
    if i: nat, j: nat, c: nat :| Objects(d, d.r1, i, j, c, mode) {
      var k := ObjectionBlocks(d, folded, i, j, c, mode);
    }
    if i: nat, j: nat, c: nat :| Objects(d, d.r2, i, j, c, mode) {
      var k := ObjectionBlocks(d, folded, i, j, c, mode);
    }
  }

  /** The primary authority and the index give their four reasons each on its own condition. */
  lemma AuthorityGivesReasons(primary: Primary, evidence: seq<Evidence>)
    ensures var reasons := AuthorityReasons(primary, evidence);
            && (PrimaryNotAccepted in reasons <==> primary.status != Accepted)
            && (PrimaryExpired in reasons <==> Precedes(primary.expiry, primary.evaluation))
            && (PrimaryProvenanceIncomplete in reasons <==> !primary.provenance)
            && (EvidenceProvenanceIncomplete in reasons <==> exists i :: 0 <= i < |evidence| && !evidence[i].provenance)
            && reasons <= {PrimaryNotAccepted, PrimaryExpired, PrimaryProvenanceIncomplete, EvidenceProvenanceIncomplete}
  {
    OrderIsByCodePoints(primary.expiry, primary.evaluation);
    assert (exists e :: e in evidence && !e.provenance) <==> exists i :: 0 <= i < |evidence| && !evidence[i].provenance;
  }

  /** No two parts of a verdict give the same reason. */
  lemma ReasonsApart(primary: Primary, evidence: seq<Evidence>, folded: seq<Folded>, open: set<string>,
                     invalid: set<string>)
    requires forall r :: r in FoldReasons(folded) ==> r == MandatorySchoolNotClear || r == ConditionalSchoolNotClear
    requires AuthorityReasons(primary, evidence) <=
             {PrimaryNotAccepted, PrimaryExpired, PrimaryProvenanceIncomplete, EvidenceProvenanceIncomplete}
    ensures var all := Reasons(primary, evidence, folded, open, invalid);
            && (forall r :: r in {PrimaryNotAccepted, PrimaryExpired, PrimaryProvenanceIncomplete,
                                  EvidenceProvenanceIncomplete} ==>
                  (r in all <==> r in AuthorityReasons(primary, evidence)))
            && (forall r :: r in {MandatorySchoolNotClear, ConditionalSchoolNotClear} ==>
                  (r in all <==> r in FoldReasons(folded)))
            && (OpenMaterialResidual in all <==> open != {}) && (ActiveInvalidation in all <==> invalid != {})
            && InvalidNotApplicable !in all
  {
    hide AuthorityReasons, FoldReasons;
  }

  /** A verdict gives each reason exactly on its own condition, stated on the inputs, and publishes exactly when it gives
      none. */
  lemma ReasonsAreExact(d: Dossier)
    requires ClaimsOk(d.profile, d.claims) && ReviewSpec(d).Ok?
    ensures var p, lanes := ReviewSpec(d).value, d.r1 + d.r2;
            && (p.posture == PublishBounded <==> p.reasons == {})
            && (PrimaryNotAccepted in p.reasons <==> d.primary.status != Accepted)
            && (PrimaryExpired in p.reasons <==> Precedes(d.primary.expiry, d.primary.evaluation))
            && (PrimaryProvenanceIncomplete in p.reasons <==> !d.primary.provenance)
            && (EvidenceProvenanceIncomplete in p.reasons <==>
                  exists i :: 0 <= i < |d.evidence| && !d.evidence[i].provenance)
            && (MandatorySchoolNotClear in p.reasons <==> Objected(d, d.r1, Mandatory) || Objected(d, d.r2, Mandatory))
            && (ConditionalSchoolNotClear in p.reasons <==>
                  Objected(d, d.r1, Conditional) || Objected(d, d.r2, Conditional))
            && (OpenMaterialResidual in p.reasons <==> LeavesOpen(lanes))
            && (ActiveInvalidation in p.reasons <==> Invalidates(lanes))
            && InvalidNotApplicable !in p.reasons
  {
    VerdictExists(d);
    var admitted := Admitted(d.evidence);
    var folded := FoldSpec(d.profile, d.claims, d.r1, d.r2, admitted).value;
    var open, invalid := OpenMaterial(d.r1 + d.r2), Invalidations(d.r1 + d.r2);
    assert ReviewSpec(d).value.reasons == Reasons(d.primary, d.evidence, folded, open, invalid);
    assert ReviewSpec(d).value.posture == PublishBounded <==> ReviewSpec(d).value.reasons == {};
    hide ReviewSpec, FoldSpec, LanesOk, RoundsOk, ClaimsOk, Admitted, Objected, LeavesOpen, Invalidates, Precedes, Reasons,
         AuthorityReasons, FoldReasons, OpenMaterial, Invalidations, Blocks;
    BlocksAreObjections(d, folded, Mandatory);
    BlocksAreObjections(d, folded, Conditional);
    FoldGivesReasons(folded);
    AuthorityGivesReasons(d.primary, d.evidence);
    OpenIsExact(d.r1 + d.r2);
    InvalidIsExact(d.r1 + d.r2);
    ReasonsApart(d.primary, d.evidence, folded, open, invalid);
  }
}
