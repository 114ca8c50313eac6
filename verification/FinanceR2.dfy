/** The anonymous second-round packet: what it shows of the first round, and what it hides. */
module FinanceR2 {
  import opened Base
  import opened Json
  import opened Canonical
  import opened CanonicalTheorems
  import opened Chars
  import opened FinanceReview
  import opened Sorting

  datatype Anonymous = Anonymous(claim: string, disposition: Disposition, evidence: seq<string>, residuals: seq<string>)

  datatype Contribution = Contribution(alias: string, decisions: seq<Anonymous>)

  datatype Corpus = Corpus(claims: seq<(string, string)>, contributions: seq<Contribution>)

  // ---- one output, projected ------------------------------------------------------------

  /** An evidence reference that names nothing but its content. */
  predicate AnonymousReference(r: string)
  {
    && |r| == 80 && r[..16] == "evidence:sha256:"
    && forall i :: 16 <= i < 80 ==> LowerHex(r[i])
  }

  /** The code once for each mention of the claim. */
  function Mentions(code: string, claims: seq<string>, claim: string): seq<string>
  {
    if claims == [] then []
    else
      Mentions(code, claims[..|claims| - 1], claim) + (if claims[|claims| - 1] == claim then [code] else [])
  }

  function CodesFor(residuals: seq<Residual>, claim: string): seq<string>
  {
    if residuals == [] then []
    else
      var r := residuals[|residuals| - 1];
      CodesFor(residuals[..|residuals| - 1], claim) + Mentions(r.code, r.claims, claim)
  }

  function ProjectDecision(residuals: seq<Residual>, d: Decision): Anonymous
  {
    Anonymous(d.claim, d.disposition, SortDedup(d.evidence), SortDedup(CodesFor(residuals, d.claim)))
  }

  function KeyedDecisions(residuals: seq<Residual>, decisions: seq<Decision>): seq<Keyed<Anonymous>>
  {
    seq(|decisions|, i requires 0 <= i < |decisions| =>
      Keyed(decisions[i].claim, ProjectDecision(residuals, decisions[i])))
  }

  function Values<T>(s: seq<Keyed<T>>): seq<T>
  {
    seq(|s|, i requires 0 <= i < |s| => s[i].value)
  }

  predicate ReferencesOk(decisions: seq<Decision>)
  {
    forall i, j :: 0 <= i < |decisions| && 0 <= j < |decisions[i].evidence| ==>
      AnonymousReference(decisions[i].evidence[j])
  }

  /** What the packet shows of a lane: no school, no route, no text, sorted by claim. */
  function Project(lane: Lane): Result<seq<Anonymous>>
  {
    if ReferencesOk(lane.decisions) then Ok(Values(Sort(KeyedDecisions(lane.residuals, lane.decisions)))) else Err
  }

  function Look(m: map<string, seq<string>>, claim: string): seq<string>
  {
    if claim in m then m[claim] else []
  }

  /** The map from claims to residual codes, filled residual by residual and claim by claim. */
  method ResidualsByClaim(residuals: seq<Residual>) returns (m: map<string, seq<string>>)
    ensures forall claim :: Look(m, claim) == CodesFor(residuals, claim)
  {
    m := map[];
    for n := 0 to |residuals|
      invariant forall claim :: Look(m, claim) == CodesFor(residuals[..n], claim)
    {
      assert residuals[..n + 1][..n] == residuals[..n];
      m := AddResidual(m, residuals[n]);
    }
    assert residuals[..|residuals|] == residuals;
  }

  method AddResidual(before: map<string, seq<string>>, r: Residual) returns (m: map<string, seq<string>>)
    ensures forall claim :: Look(m, claim) == Look(before, claim) + Mentions(r.code, r.claims, claim)
  {
    m := before;
    ghost var done: seq<string> := [];
    for k := 0 to |r.claims|
      invariant done == r.claims[..k]
      invariant forall claim :: Look(m, claim) == Look(before, claim) + Mentions(r.code, done, claim)
    {
      PushKeeps(before, m, r.code, done, r.claims[k]);
      m := Push(m, r.claims[k], r.code);
      done := done + [r.claims[k]];
    }
    assert done == r.claims;
  }

  function Push(m: map<string, seq<string>>, claim: string, code: string): map<string, seq<string>>
  {
    m[claim := Look(m, claim) + [code]]
  }

  lemma PushLooks(m: map<string, seq<string>>, claim: string, code: string, c: string)
    ensures Look(Push(m, claim, code), c) == Look(m, c) + (if claim == c then [code] else [])
  {
  }

  lemma MentionsGrow(code: string, done: seq<string>, claim: string, c: string)
    ensures Mentions(code, done + [claim], c) == Mentions(code, done, c) + (if claim == c then [code] else [])
  {
    assert (done + [claim])[..|done|] == done;
  }

  lemma PushKeeps(before: map<string, seq<string>>, m: map<string, seq<string>>, code: string, done: seq<string>, claim: string)
    requires forall c :: Look(m, c) == Look(before, c) + Mentions(code, done, c)
    ensures forall c :: Look(Push(m, claim, code), c) == Look(before, c) + Mentions(code, done + [claim], c)
  {
    forall c ensures Look(Push(m, claim, code), c) == Look(before, c) + Mentions(code, done + [claim], c) {
      PushLooks(m, claim, code, c);
      MentionsGrow(code, done, claim, c);
      Regroup(Look(m, c), Look(before, c), Mentions(code, done, c), if claim == c then [code] else []);
    }
  }

  lemma Regroup(whole: seq<string>, a: seq<string>, b: seq<string>, c: seq<string>)
    requires whole == a + b
    ensures whole + c == a + (b + c)
  {
  }

  method ProjectOutput(lane: Lane) returns (r: Result<seq<Anonymous>>)
    ensures r == Project(lane)
  {
    var residualByClaim := ResidualsByClaim(lane.residuals);
    var decisions: seq<Keyed<Anonymous>> := [];
    for n := 0 to |lane.decisions|
      invariant |decisions| == n && ReferencesOk(lane.decisions[..n])
      invariant forall i :: 0 <= i < n ==> decisions[i] == KeyedDecisions(lane.residuals, lane.decisions)[i]
    {
      var d := lane.decisions[n];
      if exists j :: 0 <= j < |d.evidence| && !AnonymousReference(d.evidence[j]) {
        return Err;
      }
      var codes := Look(residualByClaim, d.claim);
      decisions := decisions + [Keyed(d.claim, Anonymous(d.claim, d.disposition, SortDedup(d.evidence), SortDedup(codes)))];
    }
    assert lane.decisions[..|lane.decisions|] == lane.decisions;
    assert decisions == KeyedDecisions(lane.residuals, lane.decisions);
    return Ok(Values(Sort(decisions)));
  }

  // ---- the sort key ------------------------------------------------------------------------

  function DispositionName(d: Disposition): string
  {
    match d
    case Clear => "clear"
    case NotApplicable => "not_applicable"
    case InsufficientEvidence => "insufficient_evidence"
    case Contradicted => "contradicted"
    case Quarantined => "quarantined"
    case Expired => "expired"
  }

  function Strings(s: seq<string>): Json
  {
    Arr(seq(|s|, i requires 0 <= i < |s| => Str(s[i])))
  }

  function AnonymousJson(a: Anonymous): Json
  {
    Obj([Member("claim_id", Str(a.claim)), Member("disposition", Str(DispositionName(a.disposition))),
         Member("evidence_refs", Strings(a.evidence)), Member("residual_codes", Strings(a.residuals))])
  }

  function ContributionJson(decisions: seq<Anonymous>): Json
  {
    Obj([Member("decisions", Arr(seq(|decisions|, i requires 0 <= i < |decisions| => AnonymousJson(decisions[i]))))])
  }

  const CONTRIBUTION_DOMAIN := "quinte.r2-contribution.v2"

  function ContributionKey(hash: string -> string, decisions: seq<Anonymous>): string
  {
    hash(Preimage(CONTRIBUTION_DOMAIN, ContributionJson(decisions)))
  }

  // ---- the corpus ----------------------------------------------------------------------------

  predicate AllProject(r1: seq<Lane>)
  {
    forall i :: 0 <= i < |r1| ==> Project(r1[i]).Ok?
  }

  function KeyedContributions(hash: string -> string, r1: seq<Lane>): seq<Keyed<seq<Anonymous>>>
    requires AllProject(r1)
  {
    seq(|r1|, i requires 0 <= i < |r1| => Keyed(ContributionKey(hash, Project(r1[i]).value), Project(r1[i]).value))
  }

  function Aliased(sorted: seq<Keyed<seq<Anonymous>>>): seq<Contribution>
  {
    seq(|sorted|, i requires 0 <= i < |sorted| => Contribution("contributor-" + Decimal(i + 1), sorted[i].value))
  }

  function ClaimTexts(claims: seq<Claim>): seq<(string, string)>
  {
    seq(|claims|, i requires 0 <= i < |claims| => (claims[i].id, claims[i].text))
  }

  function CorpusSpec(hash: string -> string, claims: seq<Claim>, r1: seq<Lane>): Result<Corpus>
  {
    if AllProject(r1) then Ok(Corpus(ClaimTexts(claims), Aliased(Sort(KeyedContributions(hash, r1))))) else Err
  }

  method BuildCorpus(hash: string -> string, claims: seq<Claim>, r1: seq<Lane>) returns (r: Result<Corpus>)
    ensures r == CorpusSpec(hash, claims, r1)
  {
    var projected: seq<Keyed<seq<Anonymous>>> := [];
    for n := 0 to |r1|
      invariant |projected| == n
      invariant forall i :: 0 <= i < n ==>
                  Project(r1[i]).Ok?
                  && projected[i] == Keyed(ContributionKey(hash, Project(r1[i]).value), Project(r1[i]).value)
    {
      var decisions := ProjectOutput(r1[n]);
      if decisions.Err? {
        return Err;
      }
      projected := projected + [Keyed(ContributionKey(hash, decisions.value), decisions.value)];
    }
    assert projected == KeyedContributions(hash, r1);
    return Ok(Corpus(ClaimTexts(claims), Aliased(Sort(projected))));
  }

  // ---- the set of sources --------------------------------------------------------------------

  datatype Source = Source(family: string, revision: string, domain: string, exact: string, semantic: string)

  predicate Identifies(s: Source, candidates: seq<string>)
  {
    s.family == "school-lane-output" && s.revision == "1.0" && s.domain == "quinte.school-lane-output.v1"
    && s.exact in candidates
  }

  /** The first source that names the output; `exact` gives the output's two possible byte digests. */
  function Match(exact: Lane -> seq<string>, sources: seq<Source>, lane: Lane): (k: nat)
    ensures k <= |sources|
  {
    if sources == [] || Identifies(sources[0], exact(lane)) then 0 else 1 + Match(exact, sources[1..], lane)
  }

  /** Five sources, each the match of exactly one output, no two alike. */
  predicate SourcesOk(exact: Lane -> seq<string>, r1: seq<Lane>, sources: seq<Source>)
  {
    && |sources| == 5
    && (forall i :: 0 <= i < |r1| ==> Match(exact, sources, r1[i]) < |sources|)
    && (forall i, j :: 0 <= i < j < |r1| ==> Match(exact, sources, r1[i]) != Match(exact, sources, r1[j]))
    && |r1| == |sources|
    && NoTwins(sources)
  }

  predicate NoTwins(sources: seq<Source>)
  {
    forall i, j :: 0 <= i < j < |sources| ==>
      sources[i].exact != sources[j].exact || sources[i].semantic != sources[j].semantic
  }

  method ValidateSources(exact: Lane -> seq<string>, r1: seq<Lane>, sources: seq<Source>) returns (ok: bool)
    ensures ok <==> SourcesOk(exact, r1, sources)
  {
    if |sources| != 5 {
      return false;
    }
    var matched: seq<nat> := [];
    for n := 0 to |r1|
      invariant |matched| == n
      invariant forall i :: 0 <= i < n ==> matched[i] == Match(exact, sources, r1[i]) && matched[i] < |sources|
      invariant forall i, j :: 0 <= i < j < n ==> matched[i] != matched[j]
    {
      var index := Match(exact, sources, r1[n]);
      if index == |sources| || index in matched {
        assert index in matched ==> exists i :: 0 <= i < n && matched[i] == index;
        return false;
      }
      matched := matched + [index];
    }
    return |matched| == |sources| && NoTwins(sources);
  }
}
