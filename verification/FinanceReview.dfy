/** The finance review verdict: lane validation, the conservative fold over two rounds and five schools, and posture. */
module FinanceReview {
  import opened Base
  import opened Canonical

  datatype School =
    | FactorRiskModel | EventDriven | FundamentalSupplyChain | TrendTechnicalRegime | MarketMicrostructure

  const SCHOOLS: seq<School> :=
    [FactorRiskModel, EventDriven, FundamentalSupplyChain, TrendTechnicalRegime, MarketMicrostructure]

  datatype Phase = R1 | R2

  datatype Disposition = Clear | NotApplicable | InsufficientEvidence | Contradicted | Quarantined | Expired

  datatype Mode = Mandatory | Conditional | OutOfScope

  datatype Applicability = Applicability(mode: Mode, predicateCode: Option<string>, predicateResult: Option<bool>)

  datatype Claim = Claim(id: string, text: string, classes: seq<string>, applicability: map<School, Applicability>)

  datatype Authority = Authority(school: School, acceptedClasses: seq<string>, forbiddenClasses: seq<string>)

  datatype Profile = Profile(schools: seq<Authority>, predicateCodes: seq<string>, closureRules: seq<string>)

  datatype EvidenceStatus = Accepted | DescriptiveOnly | QuarantinedEvidence | ExpiredEvidence | Rejected

  datatype Evidence = Evidence(reference: string, class_: string, status: EvidenceStatus, provenance: bool)

  datatype Primary = Primary(status: EvidenceStatus, provenance: bool, evaluation: string, expiry: string)

  /** One school's decision on one claim; `codes` holds its alternative, confounder, falsifier, limitation and
      missing-evidence codes, which nothing but their sorting depends on. */
  datatype Decision = Decision(
    claim: string, disposition: Disposition, evidence: seq<string>, codes: seq<seq<string>>,
    invalidations: seq<string>, closureRule: Option<string>, closureEvidence: seq<string>)

  datatype Residual = Residual(
    code: string, claims: seq<string>, material: bool, open: bool,
    closureRule: Option<string>, closureEvidence: seq<string>)

  datatype Lane = Lane(
    version: string, runId: string, phase: Phase, school: School, decisions: seq<Decision>, residuals: seq<Residual>)

  // ---- claims ---------------------------------------------------------------------

  predicate RuleOk(profile: Profile, rule: Applicability)
  {
    match rule.mode
    case Mandatory => rule.predicateCode.None? && rule.predicateResult == Some(true)
    case Conditional =>
      rule.predicateCode.Some? && rule.predicateCode.value in profile.predicateCodes && rule.predicateResult.Some?
    case OutOfScope => rule.predicateCode.None? && rule.predicateResult == Some(false)
  }

  predicate ClaimOk(profile: Profile, claim: Claim)
  {
    && claim.classes != []
    && (forall i :: 0 <= i < |profile.schools| ==>
          (exists j :: 0 <= j < |claim.classes| && claim.classes[j] in profile.schools[i].forbiddenClasses) ==>
            profile.schools[i].school in claim.applicability ==>
              claim.applicability[profile.schools[i].school].mode.OutOfScope?)
    && (forall school :: school in SCHOOLS ==>
          school in claim.applicability && RuleOk(profile, claim.applicability[school]))
  }

  predicate ClaimsOk(profile: Profile, claims: seq<Claim>)
  {
    && (forall i, j :: 0 <= i < j < |claims| ==> claims[i].id != claims[j].id)
    && (forall i :: 0 <= i < |claims| ==> ClaimOk(profile, claims[i]))
  }

  /** A school whose decision on the claim counts. */
  predicate Applicable(rule: Applicability)
  {
    rule.mode.Mandatory? || (rule.mode.Conditional? && rule.predicateResult == Some(true))
  }

  // ---- lanes ------------------------------------------------------------------------

  predicate Sorted(s: seq<string>)
  {
    forall i :: 0 <= i < |s| - 1 ==> Before(s[i], s[i + 1])
  }

  predicate ListBefore(a: seq<string>, b: seq<string>)
  {
    b != [] && (a == [] || Before(a[0], b[0]) || (a[0] == b[0] && ListBefore(a[1..], b[1..])))
  }

  predicate ResidualBefore(a: Residual, b: Residual)
  {
    Before(a.code, b.code) || (a.code == b.code && ListBefore(a.claims, b.claims))
  }

  function Admitted(evidence: seq<Evidence>): set<string>
  {
    set e | e in evidence && e.status.Accepted? :: e.reference
  }

  function FindAuthority(profile: Profile, school: School): Option<Authority>
  {
    FindAuthorityFrom(profile.schools, school)
  }

  function FindAuthorityFrom(schools: seq<Authority>, school: School): Option<Authority>
  {
    if schools == [] then None
    else if schools[0].school == school then Some(schools[0])
    else FindAuthorityFrom(schools[1..], school)
  }

  function FindEvidence(evidence: seq<Evidence>, reference: string): Option<Evidence>
  {
    if evidence == [] then None
    else if evidence[0].reference == reference then Some(evidence[0])
    else FindEvidence(evidence[1..], reference)
  }

  /** The reference is admitted, and the first item under it has a class the school may use. */
  predicate CitationOk(a: Authority, evidence: seq<Evidence>, reference: string)
  {
    && reference in Admitted(evidence)
    && FindEvidence(evidence, reference).Some?
    && FindEvidence(evidence, reference).value.class_ in a.acceptedClasses
  }

  predicate DecisionOk(profile: Profile, a: Authority, evidence: seq<Evidence>, d: Decision)
  {
    && Sorted(d.evidence) && Sorted(d.invalidations) && Sorted(d.closureEvidence)
    && (forall i :: 0 <= i < |d.codes| ==> Sorted(d.codes[i]))
    && (forall r :: r in d.evidence ==> CitationOk(a, evidence, r))
    && (forall r :: r in d.closureEvidence ==> CitationOk(a, evidence, r))
    && (if d.closureRule.Some? then d.closureRule.value in profile.closureRules && d.closureEvidence != []
        else d.closureEvidence == [])
  }

  predicate ResidualOk(profile: Profile, a: Authority, evidence: seq<Evidence>, claimIds: set<string>, r: Residual)
  {
    && (forall c :: c in r.claims ==> c in claimIds)
    && (forall e :: e in r.closureEvidence ==> CitationOk(a, evidence, e))
    && (r.closureRule.Some? ==> r.closureRule.value in profile.closureRules)
    && (if r.open then r.closureRule.None? && r.closureEvidence == []
        else r.closureRule.Some? && r.closureEvidence != [])
  }

  function ClaimIds(claims: seq<Claim>): set<string>
  {
    set i | 0 <= i < |claims| :: claims[i].id
  }

  function DecidedIds(decisions: seq<Decision>): set<string>
  {
    set i | 0 <= i < |decisions| :: decisions[i].claim
  }

  predicate LaneOk(profile: Profile, claims: seq<Claim>, evidence: seq<Evidence>, lane: Lane)
  {
    && FindAuthority(profile, lane.school).Some?
    && |DecidedIds(lane.decisions)| == |lane.decisions|
    && DecidedIds(lane.decisions) == ClaimIds(claims)
    && (forall i :: 0 <= i < |lane.residuals| - 1 ==> ResidualBefore(lane.residuals[i], lane.residuals[i + 1]))
    && var a := FindAuthority(profile, lane.school).value;
       && (forall i :: 0 <= i < |lane.decisions| ==> DecisionOk(profile, a, evidence, lane.decisions[i]))
       && (forall i :: 0 <= i < |lane.residuals| ==>
             ResidualOk(profile, a, evidence, ClaimIds(claims), lane.residuals[i]))
  }

  method ValidateLaneClaimsAndEvidence(profile: Profile, claims: seq<Claim>, evidence: seq<Evidence>, outputs: seq<Lane>)
    returns (ok: bool)
    ensures ok <==> forall i :: 0 <= i < |outputs| ==> LaneOk(profile, claims, evidence, outputs[i])
  {
    var expected := ClaimIds(claims);
    for n := 0 to |outputs|
      invariant forall i :: 0 <= i < n ==> LaneOk(profile, claims, evidence, outputs[i])
    {
      var output := outputs[n];
      var authority := FindAuthority(profile, output.school);
      if authority.None? {
        return false;
      }
      var actual := DecidedIds(output.decisions);
      if |actual| != |output.decisions| || actual != expected {
        return false;
      }
      if exists i :: 0 <= i < |output.residuals| - 1 && !ResidualBefore(output.residuals[i], output.residuals[i + 1]) {
        return false;
      }
      for k := 0 to |output.decisions|
        invariant forall i :: 0 <= i < k ==> DecisionOk(profile, authority.value, evidence, output.decisions[i])
      {
        if !DecisionOk(profile, authority.value, evidence, output.decisions[k]) {
          return false;
        }
      }
      for k := 0 to |output.residuals|
        invariant forall i :: 0 <= i < k ==> ResidualOk(profile, authority.value, evidence, expected, output.residuals[i])
      {
        if !ResidualOk(profile, authority.value, evidence, expected, output.residuals[k]) {
          return false;
        }
      }
    }
    return true;
  }

  /** Exactly the five schools, each once, in this run and phase. */
  predicate OutputSetOk(runId: string, phase: Phase, outputs: seq<Lane>)
  {
    && |outputs| == 5
    && (forall i :: 0 <= i < |outputs| ==>
          outputs[i].version == "1.0" && outputs[i].runId == runId && outputs[i].phase == phase)
    && (forall i, j :: 0 <= i < j < |outputs| ==> outputs[i].school != outputs[j].school)
    && (forall school :: school in SCHOOLS ==> school in LaneSchools(outputs))
  }

  function LaneSchools(outputs: seq<Lane>): set<School>
  {
    set i | 0 <= i < |outputs| :: outputs[i].school
  }

  method ValidateSchoolOutputSet(runId: string, phase: Phase, outputs: seq<Lane>) returns (ok: bool)
    ensures ok <==> OutputSetOk(runId, phase, outputs)
  {
    if |outputs| != 5 {
      return false;
    }
    var schools: set<School> := {};
    for n := 0 to |outputs|
      invariant schools == set i | 0 <= i < n :: outputs[i].school
      invariant forall i :: 0 <= i < n ==>
                  outputs[i].version == "1.0" && outputs[i].runId == runId && outputs[i].phase == phase
      invariant forall i, j :: 0 <= i < j < n ==> outputs[i].school != outputs[j].school
    {
      if outputs[n].version != "1.0" || outputs[n].runId != runId || outputs[n].phase != phase
         || outputs[n].school in schools {
        if outputs[n].school in schools {
          var i :| 0 <= i < n && outputs[i].school == outputs[n].school;
        }
        return false;
      }
      schools := schools + {outputs[n].school};
    }
    assert schools == LaneSchools(outputs);
    return forall school :: school in SCHOOLS ==> school in schools;
  }

  // ---- the fold -----------------------------------------------------------------------

  predicate Blocking(d: Disposition)
  {
    !d.Clear? && !d.NotApplicable?
  }

  function Rank(d: Disposition): nat
  {
    match d
    case Clear => 0
    case NotApplicable => 1
    case InsufficientEvidence => 2
    case Contradicted => 3
    case Quarantined => 4
    case Expired => 5
  }

  datatype Folded = Folded(claim: string, school: School, mode: Mode, disposition: Disposition, blocking: bool)

  /** A decision closed under a registered rule by evidence all of which is admitted. */
  predicate Closed(profile: Profile, admitted: set<string>, d: Decision)
  {
    && d.closureRule.Some? && d.closureRule.value in profile.closureRules
    && d.closureEvidence != []
    && forall r :: r in d.closureEvidence ==> r in admitted
  }

  predicate Unresolved(profile: Profile, admitted: set<string>, d: Decision)
  {
    Blocking(d.disposition) && !Closed(profile, admitted, d)
  }

  function FindDecision(decisions: seq<Decision>, claim: string): Option<Decision>
  {
    if decisions == [] then None
    else if decisions[0].claim == claim then Some(decisions[0])
    else FindDecision(decisions[1..], claim)
  }

  function FindLane(outputs: seq<Lane>, school: School): Option<Lane>
  {
    if outputs == [] then None
    else if outputs[0].school == school then Some(outputs[0])
    else FindLane(outputs[1..], school)
  }

  /** What a school decided on a claim in one round. */
  function DecisionOf(outputs: seq<Lane>, school: School, claim: string): Option<Decision>
  {
    match FindLane(outputs, school)
    case None => None
    case Some(lane) => FindDecision(lane.decisions, claim)
  }

  /** The worst unresolved disposition of the two rounds. */
  function Worst(profile: Profile, admitted: set<string>, first: Decision, second: Decision): Disposition
  {
    var one, two := Unresolved(profile, admitted, first), Unresolved(profile, admitted, second);
    if one && two then
      (if Rank(second.disposition) >= Rank(first.disposition) then second.disposition else first.disposition)
    else if one then first.disposition
    else if two then second.disposition
    else Clear
  }

  /** One cell of the fold: a claim, a school, two rounds. */
  function FoldCell(profile: Profile, admitted: set<string>, claim: Claim, school: School, r1: seq<Lane>, r2: seq<Lane>)
    : Result<Folded>
  {
    if school !in claim.applicability then Err
    else
      var rule := claim.applicability[school];
      var first, second := DecisionOf(r1, school, claim.id), DecisionOf(r2, school, claim.id);
      if first.None? || second.None? then Err
      else
        var absent := (first.value.disposition.NotApplicable?, second.value.disposition.NotApplicable?);
        if !Applicable(rule) then
          if absent.0 && absent.1 then Ok(Folded(claim.id, school, rule.mode, NotApplicable, false)) else Err
        else if absent.0 || absent.1 then Err
        else
          var worst := Worst(profile, admitted, first.value, second.value);
          Ok(Folded(claim.id, school, rule.mode, worst, !worst.Clear?))
  }

  /** The cells in order: claim by claim, and within a claim school by school. */
  function CellAt(profile: Profile, admitted: set<string>, claims: seq<Claim>, r1: seq<Lane>, r2: seq<Lane>, k: nat)
    : Result<Folded>
    requires k < 5 * |claims|
  {
    FoldCell(profile, admitted, claims[k / 5], SCHOOLS[k % 5], r1, r2)
  }

  function FoldSpec(profile: Profile, claims: seq<Claim>, r1: seq<Lane>, r2: seq<Lane>, admitted: set<string>)
    : Result<seq<Folded>>
  {
    if r1 == [] || !OutputSetOk(r1[0].runId, R1, r1) || !OutputSetOk(r1[0].runId, R2, r2) then Err
    else if exists k: nat :: k < 5 * |claims| && CellAt(profile, admitted, claims, r1, r2, k).Err? then Err
    else
      Ok(seq(5 * |claims|, k requires 0 <= k < 5 * |claims|
                             && CellAt(profile, admitted, claims, r1, r2, k).Ok? =>
               CellAt(profile, admitted, claims, r1, r2, k).value))
  }

  method ConservativeFold(profile: Profile, claims: seq<Claim>, r1: seq<Lane>, r2: seq<Lane>, admitted: set<string>)
    returns (r: Result<seq<Folded>>)
    ensures r == FoldSpec(profile, claims, r1, r2, admitted)
  {
    if r1 == [] {
      return Err;
    }
    var firstOk := ValidateSchoolOutputSet(r1[0].runId, R1, r1);
    var secondOk := ValidateSchoolOutputSet(r1[0].runId, R2, r2);
    if !firstOk || !secondOk {
      return Err;
    }
    var folded: seq<Folded> := [];
    for c := 0 to |claims|
      invariant |folded| == 5 * c
      invariant forall k: nat :: k < |folded| ==> CellAt(profile, admitted, claims, r1, r2, k) == Ok(folded[k])
    {
      for s := 0 to |SCHOOLS|
        invariant |folded| == 5 * c + s
        invariant forall k: nat :: k < |folded| ==> CellAt(profile, admitted, claims, r1, r2, k) == Ok(folded[k])
      {
        var cell := FoldCell(profile, admitted, claims[c], SCHOOLS[s], r1, r2);
        CellIndex(c, s);
        assert cell == CellAt(profile, admitted, claims, r1, r2, 5 * c + s);
        if cell.Err? {
          return Err;
        }
        folded := folded + [cell.value];
      }
    }
    ghost var spec := FoldSpec(profile, claims, r1, r2, admitted);
    assert spec.Ok? && |spec.value| == |folded|;
    assert forall k: nat :: k < |folded| ==> CellAt(profile, admitted, claims, r1, r2, k) == Ok(spec.value[k]);
    assert folded == spec.value;
    return Ok(folded);
  }

  lemma CellIndex(c: nat, s: nat)
    requires s < 5
    ensures (5 * c + s) / 5 == c && (5 * c + s) % 5 == s
  {
  }

  // ---- the posture ------------------------------------------------------------------------

  datatype Reason =
    | PrimaryNotAccepted | PrimaryExpired | PrimaryProvenanceIncomplete | EvidenceProvenanceIncomplete
    | MandatorySchoolNotClear | ConditionalSchoolNotClear | InvalidNotApplicable | OpenMaterialResidual
    | ActiveInvalidation

  datatype Posture = PublishBounded | Abstain

  datatype Publication = Publication(posture: Posture, reasons: set<Reason>)

  /** The reason a folded decision gives; the third arm is shadowed by the first. */
  function CellReasons(f: Folded): set<Reason>
  {
    if f.mode.Mandatory? && !f.disposition.Clear? then {MandatorySchoolNotClear}
    else if f.mode.Conditional? && f.blocking then {ConditionalSchoolNotClear}
    else if f.mode.Mandatory? && f.disposition.NotApplicable? then {InvalidNotApplicable}
    else {}
  }

  function FoldReasons(folded: seq<Folded>): set<Reason>
  {
    if folded == [] then {} else FoldReasons(folded[..|folded| - 1]) + CellReasons(folded[|folded| - 1])
  }

  function AuthorityReasons(primary: Primary, evidence: seq<Evidence>): set<Reason>
  {
    (if !primary.status.Accepted? then {PrimaryNotAccepted} else {})
    + (if Before(primary.expiry, primary.evaluation) then {PrimaryExpired} else {})
    + (if !primary.provenance then {PrimaryProvenanceIncomplete} else {})
    + (if exists e :: e in evidence && !e.provenance then {EvidenceProvenanceIncomplete} else {})
  }

  function Reasons(primary: Primary, evidence: seq<Evidence>, folded: seq<Folded>,
                   residuals: set<string>, invalidations: set<string>): set<Reason>
  {
    AuthorityReasons(primary, evidence)
    + FoldReasons(folded)
    + (if residuals != {} then {OpenMaterialResidual} else {})
    + (if invalidations != {} then {ActiveInvalidation} else {})
  }

  method SchoolReasons(folded: seq<Folded>) returns (reasons: set<Reason>)
    ensures reasons == FoldReasons(folded)
  {
    reasons := {};
    for n := 0 to |folded|
      invariant reasons == FoldReasons(folded[..n])
    {
      assert folded[..n + 1][..n] == folded[..n];
      var f := folded[n];
      if f.mode.Mandatory? && !f.disposition.Clear? {
        reasons := reasons + {MandatorySchoolNotClear};
      } else if f.mode.Conditional? && f.blocking {
        reasons := reasons + {ConditionalSchoolNotClear};
      } else if f.mode.Mandatory? && f.disposition.NotApplicable? {
        reasons := reasons + {InvalidNotApplicable};
      }
    }
    assert folded[..|folded|] == folded;
  }

  method AuthorityCheck(primary: Primary, evidence: seq<Evidence>) returns (reasons: set<Reason>)
    ensures reasons == AuthorityReasons(primary, evidence)
  {
    reasons := {};
    if !primary.status.Accepted? {
      reasons := reasons + {PrimaryNotAccepted};
    }
    if Before(primary.expiry, primary.evaluation) {
      reasons := reasons + {PrimaryExpired};
    }
    if !primary.provenance {
      reasons := reasons + {PrimaryProvenanceIncomplete};
    }
    if exists e :: e in evidence && !e.provenance {
      reasons := reasons + {EvidenceProvenanceIncomplete};
    }
  }

  method PublicationPosture(primary: Primary, evidence: seq<Evidence>, folded: seq<Folded>,
                            residuals: set<string>, invalidations: set<string>) returns (p: Publication)
    ensures p.reasons == Reasons(primary, evidence, folded, residuals, invalidations)
    ensures p.posture == if p.reasons == {} then PublishBounded else Abstain
  {
    var reasons := AuthorityCheck(primary, evidence);
    var schools := SchoolReasons(folded);
    reasons := reasons + schools;
    if residuals != {} {
      reasons := reasons + {OpenMaterialResidual};
    }
    if invalidations != {} {
      reasons := reasons + {ActiveInvalidation};
    }
    p := Publication(if reasons == {} then PublishBounded else Abstain, reasons);
  }

  // ---- the review --------------------------------------------------------------------------

  function LaneOpen(residuals: seq<Residual>): set<string>
  {
    if residuals == [] then {}
    else
      var r := residuals[|residuals| - 1];
      LaneOpen(residuals[..|residuals| - 1]) + (if r.material && r.open then {r.code} else {})
  }

  function Elements(s: seq<string>): set<string>
  {
    set c | c in s
  }

  function LaneInvalidations(decisions: seq<Decision>): set<string>
  {
    if decisions == [] then {}
    else
      LaneInvalidations(decisions[..|decisions| - 1])
      + Elements(decisions[|decisions| - 1].invalidations)
  }

  /** The codes of open material residuals, and of invalidations, anywhere in the lanes. */
  function OpenMaterial(lanes: seq<Lane>): set<string>
  {
    if lanes == [] then {} else OpenMaterial(lanes[..|lanes| - 1]) + LaneOpen(lanes[|lanes| - 1].residuals)
  }

  function Invalidations(lanes: seq<Lane>): set<string>
  {
    if lanes == [] then {} else Invalidations(lanes[..|lanes| - 1]) + LaneInvalidations(lanes[|lanes| - 1].decisions)
  }

  datatype Dossier = Dossier(
    profile: Profile, claims: seq<Claim>, evidence: seq<Evidence>, primary: Primary, r1: seq<Lane>, r2: seq<Lane>)

  predicate LanesOk(d: Dossier)
  {
    && (forall i :: 0 <= i < |d.r1| ==> LaneOk(d.profile, d.claims, d.evidence, d.r1[i]))
    && (forall i :: 0 <= i < |d.r2| ==> LaneOk(d.profile, d.claims, d.evidence, d.r2[i]))
  }

  function ReviewSpec(d: Dossier): Result<Publication>
  {
    if !LanesOk(d) then Err
    else match FoldSpec(d.profile, d.claims, d.r1, d.r2, Admitted(d.evidence))
      case Err => Err
      case Ok(folded) =>
        var reasons := Reasons(d.primary, d.evidence, folded, OpenMaterial(d.r1 + d.r2), Invalidations(d.r1 + d.r2));
        Ok(Publication(if reasons == {} then PublishBounded else Abstain, reasons))
  }

  method Review(d: Dossier) returns (r: Result<Publication>)
    ensures r == ReviewSpec(d)
  {
    var firstOk := ValidateLaneClaimsAndEvidence(d.profile, d.claims, d.evidence, d.r1);
    var secondOk := ValidateLaneClaimsAndEvidence(d.profile, d.claims, d.evidence, d.r2);
    if !firstOk || !secondOk {
      return Err;
    }
    var folded := ConservativeFold(d.profile, d.claims, d.r1, d.r2, Admitted(d.evidence));
    if folded.Err? {
      return Err;
    }
    var residuals, invalidations := Collect(d.r1 + d.r2);
    var p := PublicationPosture(d.primary, d.evidence, folded.value, residuals, invalidations);
    return Ok(p);
  }

  method Collect(lanes: seq<Lane>) returns (residuals: set<string>, invalidations: set<string>)
    ensures residuals == OpenMaterial(lanes) && invalidations == Invalidations(lanes)
  {
    residuals, invalidations := {}, {};
    for n := 0 to |lanes|
      invariant residuals == OpenMaterial(lanes[..n]) && invalidations == Invalidations(lanes[..n])
    {
      var lane := lanes[n];
      assert lanes[..n + 1][..n] == lanes[..n];
      for k := 0 to |lane.residuals|
        invariant residuals == OpenMaterial(lanes[..n]) + LaneOpen(lane.residuals[..k])
      {
        assert lane.residuals[..k + 1][..k] == lane.residuals[..k];
        var r := lane.residuals[k];
        if r.material && r.open {
          residuals := residuals + {r.code};
        }
      }
      assert lane.residuals[..|lane.residuals|] == lane.residuals;
      for k := 0 to |lane.decisions|
        invariant invalidations == Invalidations(lanes[..n]) + LaneInvalidations(lane.decisions[..k])
      {
        assert lane.decisions[..k + 1][..k] == lane.decisions[..k];
        invalidations := invalidations + Elements(lane.decisions[k].invalidations);
      }
      assert lane.decisions[..|lane.decisions|] == lane.decisions;
    }
    assert lanes[..|lanes|] == lanes;
  }
}
