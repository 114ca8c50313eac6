/** The verdict of a finance review is exactly what its inputs deserve. */
module FinanceReviewTheorems {
  import opened Base
  import opened Canonical
  import opened CanonicalOrder
  import opened FinanceReview

  // ---- finding lanes and decisions -----------------------------------------------------

  lemma {:induction false} FewIds(decisions: seq<Decision>)
    ensures |DecidedIds(decisions)| <= |decisions|
    decreases |decisions|
  {
    if decisions != [] {
      var before, last := decisions[..|decisions| - 1], decisions[|decisions| - 1];
      FewIds(before);
      IdsGrow(before, last);
      assert before + [last] == decisions;
    }
  }

  lemma IdsGrow(decisions: seq<Decision>, d: Decision)
    ensures DecidedIds(decisions + [d]) == DecidedIds(decisions) + {d.claim}
  {
    forall x | x in DecidedIds(decisions) + {d.claim} ensures x in DecidedIds(decisions + [d]) {
      if x == d.claim {
        assert (decisions + [d])[|decisions|].claim == x;
      } else {
        var i :| 0 <= i < |decisions| && decisions[i].claim == x;
        assert (decisions + [d])[i].claim == x;
      }
    }
  }

  /** As many claim ids as decisions means no claim is decided twice. */
  lemma {:induction false} DecidedOnce(decisions: seq<Decision>, i: nat, j: nat)
    requires |DecidedIds(decisions)| == |decisions| && i < j < |decisions|
    ensures decisions[i].claim != decisions[j].claim
    decreases |decisions|
  {
    var before, last := decisions[..|decisions| - 1], decisions[|decisions| - 1];
    IdsGrow(before, last);
    assert before + [last] == decisions;
    FewIds(before);
    if j == |decisions| - 1 {
      assert last.claim !in DecidedIds(before);
      assert before[i].claim in DecidedIds(before);
    } else {
      DecidedOnce(before, i, j);
    }
  }

  lemma {:induction false} FindsDecision(decisions: seq<Decision>, j: nat)
    requires j < |decisions|
    requires forall i :: 0 <= i < |decisions| && i != j ==> decisions[i].claim != decisions[j].claim
    ensures FindDecision(decisions, decisions[j].claim) == Some(decisions[j])
  {
    if j > 0 {
      assert decisions[0].claim != decisions[j].claim;
      forall i | 0 <= i < |decisions[1..]| && i != j - 1 ensures decisions[1..][i].claim != decisions[1..][j - 1].claim {
        assert decisions[1..][i] == decisions[i + 1];
      }
      FindsDecision(decisions[1..], j - 1);
    }
  }

  lemma {:induction false} FindsLane(outputs: seq<Lane>, i: nat)
    requires i < |outputs|
    requires forall k :: 0 <= k < |outputs| && k != i ==> outputs[k].school != outputs[i].school
    ensures FindLane(outputs, outputs[i].school) == Some(outputs[i])
  {
    if i > 0 {
      assert outputs[0].school != outputs[i].school;
      forall k | 0 <= k < |outputs[1..]| && k != i - 1 ensures outputs[1..][k].school != outputs[1..][i - 1].school {
        assert outputs[1..][k] == outputs[k + 1];
      }
      FindsLane(outputs[1..], i - 1);
    }
  }

  /** In a valid round, the decision the fold reads for a school and claim is the only one there is. */
  lemma DecisionIsUnique(d: Dossier, runId: string, phase: Phase, outputs: seq<Lane>, i: nat, j: nat)
    requires OutputSetOk(runId, phase, outputs)
    requires forall k :: 0 <= k < |outputs| ==> LaneOk(d.profile, d.claims, d.evidence, outputs[k])
    requires i < |outputs| && j < |outputs[i].decisions|
    ensures DecisionOf(outputs, outputs[i].school, outputs[i].decisions[j].claim) == Some(outputs[i].decisions[j])
  {
    var decisions := outputs[i].decisions;
    assert LaneOk(d.profile, d.claims, d.evidence, outputs[i]);
    FindsLane(outputs, i);
    forall k | 0 <= k < |decisions| && k != j ensures decisions[k].claim != decisions[j].claim {
      DecidedOnce(decisions, if k < j then k else j, if k < j then j else k);
    }
    FindsDecision(decisions, j);
  }

  /** In a valid round every school decides every claim. */
  lemma DecisionExists(d: Dossier, runId: string, phase: Phase, outputs: seq<Lane>, school: School, c: nat)
    returns (i: nat, j: nat)
    requires OutputSetOk(runId, phase, outputs)
    requires forall k :: 0 <= k < |outputs| ==> LaneOk(d.profile, d.claims, d.evidence, outputs[k])
    requires c < |d.claims| && school in SCHOOLS
    ensures i < |outputs| && outputs[i].school == school
    ensures j < |outputs[i].decisions| && outputs[i].decisions[j].claim == d.claims[c].id
    ensures DecisionOf(outputs, school, d.claims[c].id) == Some(outputs[i].decisions[j])
  {
    assert school in LaneSchools(outputs);
    i :| 0 <= i < |outputs| && outputs[i].school == school;
    assert LaneOk(d.profile, d.claims, d.evidence, outputs[i]);
    assert d.claims[c].id in DecidedIds(outputs[i].decisions);
    j :| 0 <= j < |outputs[i].decisions| && outputs[i].decisions[j].claim == d.claims[c].id;
    DecisionIsUnique(d, runId, phase, outputs, i, j);
  }

  // ---- the fold, cell by cell ------------------------------------------------------------

  /** The cell gives a verdict and no reason to abstain. */
  ghost predicate Quiet(d: Dossier, c: nat, school: School)
    requires c < |d.claims|
  {
    var cell := FoldCell(d.profile, Admitted(d.evidence), d.claims[c], school, d.r1, d.r2);
    cell.Ok? && CellReasons(cell.value) == {}
  }

  ghost predicate Folds(d: Dossier, c: nat, school: School)
    requires c < |d.claims|
  {
    FoldCell(d.profile, Admitted(d.evidence), d.claims[c], school, d.r1, d.r2).Ok?
  }

  lemma {:induction false} NoFoldReasons(folded: seq<Folded>)
    ensures FoldReasons(folded) == {} <==> forall k :: 0 <= k < |folded| ==> CellReasons(folded[k]) == {}
    decreases |folded|
  {
    if folded != [] {
      NoFoldReasons(folded[..|folded| - 1]);
    }
  }

  ghost predicate AllFold(d: Dossier)
  {
    forall c: nat, s: nat :: c < |d.claims| && s < |SCHOOLS| ==> Folds(d, c, SCHOOLS[s])
  }

  ghost predicate AllQuiet(d: Dossier)
  {
    forall c: nat, s: nat :: c < |d.claims| && s < |SCHOOLS| ==> Quiet(d, c, SCHOOLS[s])
  }

  /** Cell number k of the fold. */
  function Cell(d: Dossier, k: nat): Result<Folded>
    requires k < 5 * |d.claims|
  {
    CellAt(d.profile, Admitted(d.evidence), d.claims, d.r1, d.r2, k)
  }

  lemma CellsFold(d: Dossier)
    ensures AllFold(d) <==> forall k: nat :: k < 5 * |d.claims| ==> Cell(d, k).Ok?
    ensures AllQuiet(d) <==> forall k: nat :: k < 5 * |d.claims| ==> Cell(d, k).Ok? && CellReasons(Cell(d, k).value) == {}
  {
    var allOk := forall k: nat :: k < 5 * |d.claims| ==> Cell(d, k).Ok?;
    var allQuiet := forall k: nat :: k < 5 * |d.claims| ==> Cell(d, k).Ok? && CellReasons(Cell(d, k).value) == {};
    forall c: nat, s: nat | c < |d.claims| && s < |SCHOOLS|
      ensures allOk ==> Folds(d, c, SCHOOLS[s])
      ensures allQuiet ==> Quiet(d, c, SCHOOLS[s])
    {
      CellIndex(c, s);
      var k := 5 * c + s;
      assert allOk ==> Cell(d, k).Ok?;
      assert allQuiet ==> Cell(d, k).Ok? && CellReasons(Cell(d, k).value) == {};
    }
    forall k: nat | k < 5 * |d.claims|
      ensures AllFold(d) ==> Cell(d, k).Ok?
      ensures AllQuiet(d) ==> Cell(d, k).Ok? && CellReasons(Cell(d, k).value) == {}
    {
      var c, s := k / 5, k % 5;
      assert AllFold(d) ==> Folds(d, c, SCHOOLS[s]);
      assert AllQuiet(d) ==> Quiet(d, c, SCHOOLS[s]);
    }
  }

  predicate RoundsOk(d: Dossier)
  {
    d.r1 != [] && OutputSetOk(d.r1[0].runId, R1, d.r1) && OutputSetOk(d.r1[0].runId, R2, d.r2)
  }

  /** The fold succeeds exactly when every cell does, and then gives no reason exactly when every cell is quiet. */
  lemma FoldIsCellwise(d: Dossier)
    requires RoundsOk(d)
    ensures var r := FoldSpec(d.profile, d.claims, d.r1, d.r2, Admitted(d.evidence));
            && (r.Ok? <==> AllFold(d))
            && (r.Ok? ==> (FoldReasons(r.value) == {} <==> AllQuiet(d)))
  {
    CellsFold(d);
    var r := FoldSpec(d.profile, d.claims, d.r1, d.r2, Admitted(d.evidence));
    assert AllFold(d) ==> r.Ok? by {
      if r.Err? {
        var k: nat :| k < 5 * |d.claims| && CellAt(d.profile, Admitted(d.evidence), d.claims, d.r1, d.r2, k).Err?;
        assert Cell(d, k).Err?;
      }
    }
    if r.Ok? {
      assert |r.value| == 5 * |d.claims|;
      forall k: nat | k < |r.value| ensures Cell(d, k) == Ok(r.value[k]) {
        assert CellAt(d.profile, Admitted(d.evidence), d.claims, d.r1, d.r2, k).Ok?;
      }
      NoFoldReasons(r.value);
    }
  }

  // ---- the reference: what deserves publication ----------------------------------------------

  /** Decision j of lane i is on claim c. */
  predicate Concerns(d: Dossier, outputs: seq<Lane>, i: nat, j: nat, c: nat)
  {
    i < |outputs| && j < |outputs[i].decisions| && c < |d.claims| && outputs[i].decisions[j].claim == d.claims[c].id
  }

  /** The rule preregistered for the school of lane i on claim c. */
  function RuleFor(d: Dossier, outputs: seq<Lane>, i: nat, c: nat): Applicability
    requires i < |outputs| && c < |d.claims|
  {
    if outputs[i].school in d.claims[c].applicability then d.claims[c].applicability[outputs[i].school]
    else Applicability(OutOfScope, None, Some(false))
  }

  /** Schools answer not_applicable exactly where they do not apply. */
  ghost predicate RoundConsistent(d: Dossier, outputs: seq<Lane>)
  {
    forall i: nat, j: nat, c: nat :: Concerns(d, outputs, i, j, c) ==>
      (outputs[i].decisions[j].disposition.NotApplicable? <==> !Applicable(RuleFor(d, outputs, i, c)))
  }

  /** Every blocking decision of an applicable school is closed by a registered rule with admitted evidence. */
  ghost predicate RoundClosed(d: Dossier, outputs: seq<Lane>)
  {
    forall i: nat, j: nat, c: nat :: Concerns(d, outputs, i, j, c) && Applicable(RuleFor(d, outputs, i, c)) ==>
      Blocking(outputs[i].decisions[j].disposition) ==>
        Closed(d.profile, Admitted(d.evidence), outputs[i].decisions[j])
  }

  /** No lane carries an open material residual or an invalidation. */
  ghost predicate NothingOpen(outputs: seq<Lane>)
  {
    && (forall i, j :: 0 <= i < |outputs| && 0 <= j < |outputs[i].residuals| ==>
          !(outputs[i].residuals[j].material && outputs[i].residuals[j].open))
    && (forall i, j :: 0 <= i < |outputs| && 0 <= j < |outputs[i].decisions| ==>
          outputs[i].decisions[j].invalidations == [])
  }

  ghost predicate AuthorityOk(d: Dossier)
  {
    && d.primary.status.Accepted? && d.primary.provenance && !Precedes(d.primary.expiry, d.primary.evaluation)
    && forall e :: e in d.evidence ==> e.provenance
  }

  /** The reference verdict, stated on the inputs alone. */
  ghost predicate Publishable(d: Dossier)
  {
    && AuthorityOk(d)
    && RoundClosed(d, d.r1) && RoundClosed(d, d.r2)
    && NothingOpen(d.r1) && NothingOpen(d.r2)
  }

  lemma CellVerdict(d: Dossier, c: nat, school: School, first: Decision, second: Decision)
    requires c < |d.claims| && ClaimsOk(d.profile, d.claims) && school in SCHOOLS
    requires DecisionOf(d.r1, school, d.claims[c].id) == Some(first)
    requires DecisionOf(d.r2, school, d.claims[c].id) == Some(second)
    ensures school in d.claims[c].applicability
    ensures var rule := d.claims[c].applicability[school];
            && (Folds(d, c, school) <==>
                  && (first.disposition.NotApplicable? <==> !Applicable(rule))
                  && (second.disposition.NotApplicable? <==> !Applicable(rule)))
            && (Folds(d, c, school) ==>
                  (Quiet(d, c, school) <==>
                     (Applicable(rule) ==> !Unresolved(d.profile, Admitted(d.evidence), first)
                                           && !Unresolved(d.profile, Admitted(d.evidence), second))))
  {
    assert ClaimOk(d.profile, d.claims[c]);
    assert RuleOk(d.profile, d.claims[c].applicability[school]);
  }

  /** What one round contributes to a cell, read off its lanes. */
  lemma RoundCell(d: Dossier, runId: string, phase: Phase, outputs: seq<Lane>, c: nat, school: School)
    returns (i: nat, j: nat)
    requires ClaimsOk(d.profile, d.claims) && OutputSetOk(runId, phase, outputs)
    requires forall k :: 0 <= k < |outputs| ==> LaneOk(d.profile, d.claims, d.evidence, outputs[k])
    requires c < |d.claims| && school in SCHOOLS
    ensures Concerns(d, outputs, i, j, c) && outputs[i].school == school
    ensures DecisionOf(outputs, school, d.claims[c].id) == Some(outputs[i].decisions[j])
    ensures school in d.claims[c].applicability && RuleFor(d, outputs, i, c) == d.claims[c].applicability[school]
  {
    i, j := DecisionExists(d, runId, phase, outputs, school, c);
    assert ClaimOk(d.profile, d.claims[c]);
  }

  /** From the rounds to a cell. */
  lemma RoundsGiveCell(d: Dossier, c: nat, s: nat)
    requires ClaimsOk(d.profile, d.claims) && LanesOk(d) && RoundsOk(d) && c < |d.claims| && s < |SCHOOLS|
    ensures RoundConsistent(d, d.r1) && RoundConsistent(d, d.r2) ==> Folds(d, c, SCHOOLS[s])
    ensures RoundClosed(d, d.r1) && RoundClosed(d, d.r2) && Folds(d, c, SCHOOLS[s]) ==> Quiet(d, c, SCHOOLS[s])
  {
    var school := SCHOOLS[s];
    var i1, j1 := RoundCell(d, d.r1[0].runId, R1, d.r1, c, school);
    var i2, j2 := RoundCell(d, d.r1[0].runId, R2, d.r2, c, school);
    CellVerdict(d, c, school, d.r1[i1].decisions[j1], d.r2[i2].decisions[j2]);
  }

  /** From the cells to a decision of the first round. */
  lemma CellGivesFirst(d: Dossier, i: nat, j: nat, c: nat)
    requires ClaimsOk(d.profile, d.claims) && LanesOk(d) && RoundsOk(d) && Concerns(d, d.r1, i, j, c)
    requires Folds(d, c, d.r1[i].school)
    ensures d.r1[i].decisions[j].disposition.NotApplicable? <==> !Applicable(RuleFor(d, d.r1, i, c))
    ensures Quiet(d, c, d.r1[i].school) && Applicable(RuleFor(d, d.r1, i, c)) ==>
              !Unresolved(d.profile, Admitted(d.evidence), d.r1[i].decisions[j])
  {
    var school := d.r1[i].school;
    EverySchool(school);
    DecisionIsUnique(d, d.r1[0].runId, R1, d.r1, i, j);
    var i2, j2 := RoundCell(d, d.r1[0].runId, R2, d.r2, c, school);
    CellVerdict(d, c, school, d.r1[i].decisions[j], d.r2[i2].decisions[j2]);
  }

  lemma CellGivesSecond(d: Dossier, i: nat, j: nat, c: nat)
    requires ClaimsOk(d.profile, d.claims) && LanesOk(d) && RoundsOk(d) && Concerns(d, d.r2, i, j, c)
    requires Folds(d, c, d.r2[i].school)
    ensures d.r2[i].decisions[j].disposition.NotApplicable? <==> !Applicable(RuleFor(d, d.r2, i, c))
    ensures Quiet(d, c, d.r2[i].school) && Applicable(RuleFor(d, d.r2, i, c)) ==>
              !Unresolved(d.profile, Admitted(d.evidence), d.r2[i].decisions[j])
  {
    var school := d.r2[i].school;
    EverySchool(school);
    DecisionIsUnique(d, d.r1[0].runId, R2, d.r2, i, j);
    var i1, j1 := RoundCell(d, d.r1[0].runId, R1, d.r1, c, school);
    CellVerdict(d, c, school, d.r1[i1].decisions[j1], d.r2[i].decisions[j]);
  }

  lemma EverySchool(school: School)
    ensures exists s :: 0 <= s < |SCHOOLS| && SCHOOLS[s] == school
  {
    match school {
      case FactorRiskModel => assert SCHOOLS[0] == school;
      case EventDriven => assert SCHOOLS[1] == school;
      case FundamentalSupplyChain => assert SCHOOLS[2] == school;
      case TrendTechnicalRegime => assert SCHOOLS[3] == school;
      case MarketMicrostructure => assert SCHOOLS[4] == school;
    }
  }

  lemma FoldMeetsRounds(d: Dossier)
    requires ClaimsOk(d.profile, d.claims) && LanesOk(d) && RoundsOk(d)
    ensures AllFold(d) <==> RoundConsistent(d, d.r1) && RoundConsistent(d, d.r2)
    ensures AllFold(d) ==> (AllQuiet(d) <==> RoundClosed(d, d.r1) && RoundClosed(d, d.r2))
  {
    if AllFold(d) {
      forall i: nat, j: nat, c: nat | Concerns(d, d.r1, i, j, c)
        ensures d.r1[i].decisions[j].disposition.NotApplicable? <==> !Applicable(RuleFor(d, d.r1, i, c))
        ensures AllQuiet(d) && Applicable(RuleFor(d, d.r1, i, c)) ==>
                  !Unresolved(d.profile, Admitted(d.evidence), d.r1[i].decisions[j])
      {
        EverySchool(d.r1[i].school);
        CellGivesFirst(d, i, j, c);
      }
      forall i: nat, j: nat, c: nat | Concerns(d, d.r2, i, j, c)
        ensures d.r2[i].decisions[j].disposition.NotApplicable? <==> !Applicable(RuleFor(d, d.r2, i, c))
        ensures AllQuiet(d) && Applicable(RuleFor(d, d.r2, i, c)) ==>
                  !Unresolved(d.profile, Admitted(d.evidence), d.r2[i].decisions[j])
      {
        EverySchool(d.r2[i].school);
        CellGivesSecond(d, i, j, c);
      }
    }
    forall c, s | 0 <= c < |d.claims| && 0 <= s < |SCHOOLS|
      ensures RoundConsistent(d, d.r1) && RoundConsistent(d, d.r2) ==> Folds(d, c, SCHOOLS[s])
      ensures RoundClosed(d, d.r1) && RoundClosed(d, d.r2) && Folds(d, c, SCHOOLS[s]) ==> Quiet(d, c, SCHOOLS[s])
    {
      RoundsGiveCell(d, c, s);
    }
  }

  // ---- residuals and invalidations ----------------------------------------------------------

  lemma {:induction false} NoneOpen(residuals: seq<Residual>)
    ensures LaneOpen(residuals) == {} <==>
            forall j :: 0 <= j < |residuals| ==> !(residuals[j].material && residuals[j].open)
    decreases |residuals|
  {
    if residuals != [] {
      NoneOpen(residuals[..|residuals| - 1]);
      var r := residuals[|residuals| - 1];
      if r.material && r.open {
        assert r.code in LaneOpen(residuals);
      }
    }
  }

  lemma {:induction false} NoneInvalid(decisions: seq<Decision>)
    ensures LaneInvalidations(decisions) == {} <==>
            forall j :: 0 <= j < |decisions| ==> decisions[j].invalidations == []
    decreases |decisions|
  {
    if decisions != [] {
      NoneInvalid(decisions[..|decisions| - 1]);
      var d := decisions[|decisions| - 1];
      if d.invalidations != [] {
        assert d.invalidations[0] in Elements(d.invalidations);
      }
    }
  }

  lemma {:induction false} NothingOpenIsEmpty(lanes: seq<Lane>)
    ensures NothingOpen(lanes) <==> OpenMaterial(lanes) == {} && Invalidations(lanes) == {}
    decreases |lanes|
  {
    if lanes != [] {
      var before, last := lanes[..|lanes| - 1], lanes[|lanes| - 1];
      NothingOpenIsEmpty(before);
      NoneOpen(last.residuals);
      NoneInvalid(last.decisions);
      assert NothingOpen(lanes) <==> NothingOpen(before) && NothingOpen([last]) by {
        assert forall i :: 0 <= i < |before| ==> lanes[i] == before[i];
        assert [last][0] == last;
      }
    }
  }

  lemma NothingOpenBoth(a: seq<Lane>, b: seq<Lane>)
    ensures NothingOpen(a + b) <==> NothingOpen(a) && NothingOpen(b)
  {
    assert forall i :: 0 <= i < |a| ==> (a + b)[i] == a[i];
    assert forall i :: 0 <= i < |b| ==> (a + b)[|a| + i] == b[i];
  }

  // ---- the theorems ------------------------------------------------------------------------------

  /** A review reaches a verdict exactly when both lane sets are valid and every school answers not_applicable
      exactly where it does not apply. */
  lemma VerdictExists(d: Dossier)
    requires ClaimsOk(d.profile, d.claims)
    ensures ReviewSpec(d).Ok? <==>
            LanesOk(d) && RoundsOk(d) && RoundConsistent(d, d.r1) && RoundConsistent(d, d.r2)
  {
    if LanesOk(d) && RoundsOk(d) {
      FoldIsCellwise(d);
      FoldMeetsRounds(d);
    }
  }

  /** Soundness and completeness: on validated inputs the posture is PUBLISH_BOUNDED exactly when the authorities are
      good, every blocking decision of an applicable school in either round is closed, and nothing is left open. */
  lemma PostureIsExact(d: Dossier)
    requires ClaimsOk(d.profile, d.claims) && ReviewSpec(d).Ok?
    ensures ReviewSpec(d).value.posture.PublishBounded? <==> Publishable(d)
  {
    VerdictExists(d);
    FoldIsCellwise(d);
    FoldMeetsRounds(d);
    NothingOpenIsEmpty(d.r1 + d.r2);
    NothingOpenBoth(d.r1, d.r2);
    AuthorityIsExact(d);
    var folded := FoldSpec(d.profile, d.claims, d.r1, d.r2, Admitted(d.evidence)).value;
    NoReasons(d.primary, d.evidence, folded, OpenMaterial(d.r1 + d.r2), Invalidations(d.r1 + d.r2));
  }

  lemma NoReasons(primary: Primary, evidence: seq<Evidence>, folded: seq<Folded>,
                  residuals: set<string>, invalidations: set<string>)
    ensures Reasons(primary, evidence, folded, residuals, invalidations) == {} <==>
            AuthorityReasons(primary, evidence) == {} && FoldReasons(folded) == {}
            && residuals == {} && invalidations == {}
  {
    var reasons := Reasons(primary, evidence, folded, residuals, invalidations);
    assert AuthorityReasons(primary, evidence) <= reasons && FoldReasons(folded) <= reasons;
    assert residuals != {} ==> OpenMaterialResidual in reasons;
    assert invalidations != {} ==> ActiveInvalidation in reasons;
  }

  lemma AuthorityIsExact(d: Dossier)
    ensures AuthorityReasons(d.primary, d.evidence) == {} <==> AuthorityOk(d)
  {
    var reasons := AuthorityReasons(d.primary, d.evidence);
    OrderIsByCodePoints(d.primary.expiry, d.primary.evaluation);
    assert !d.primary.status.Accepted? ==> PrimaryNotAccepted in reasons;
    assert Before(d.primary.expiry, d.primary.evaluation) ==> PrimaryExpired in reasons;
    assert !d.primary.provenance ==> PrimaryProvenanceIncomplete in reasons;
    assert (exists e :: e in d.evidence && !e.provenance) ==> EvidenceProvenanceIncomplete in reasons;
  }

  /** The reason InvalidNotApplicable is never given: its arm is shadowed. */
  lemma {:induction false} NeverInvalidNotApplicable(folded: seq<Folded>)
    ensures InvalidNotApplicable !in FoldReasons(folded)
    decreases |folded|
  {
    if folded != [] {
      NeverInvalidNotApplicable(folded[..|folded| - 1]);
    }
  }

  // ---- worsening ---------------------------------------------------------------------------------

  /** No better in disposition, not newly closed, not freed of its invalidations. */
  ghost predicate WorseDecision(d: Dossier, a: Decision, b: Decision)
  {
    && a.claim == b.claim && Rank(a.disposition) <= Rank(b.disposition)
    && (Closed(d.profile, Admitted(d.evidence), b) ==> Closed(d.profile, Admitted(d.evidence), a))
    && (a.invalidations != [] ==> b.invalidations != [])
  }

  ghost predicate WorseLane(d: Dossier, a: Lane, b: Lane)
  {
    && a.school == b.school && |a.decisions| == |b.decisions|
    && (forall j :: 0 <= j < |a.decisions| ==> WorseDecision(d, a.decisions[j], b.decisions[j]))
    && (forall r :: r in a.residuals && r.material && r.open ==> r in b.residuals)
  }

  ghost predicate WorseRound(d: Dossier, a: seq<Lane>, b: seq<Lane>)
  {
    |a| == |b| && forall i :: 0 <= i < |a| ==> WorseLane(d, a[i], b[i])
  }

  lemma MemberIsClosed(lanes: seq<Lane>, i: nat, r: Residual)
    requires NothingOpen(lanes) && i < |lanes| && r in lanes[i].residuals
    ensures !(r.material && r.open)
  {
  }

  lemma WorseRoundOpens(d: Dossier, a: seq<Lane>, b: seq<Lane>)
    requires WorseRound(d, a, b) && NothingOpen(b)
    ensures NothingOpen(a)
  {
    forall i, j | 0 <= i < |a| && 0 <= j < |a[i].residuals|
      ensures !(a[i].residuals[j].material && a[i].residuals[j].open)
    {
      assert WorseLane(d, a[i], b[i]);
      if a[i].residuals[j] in b[i].residuals {
        MemberIsClosed(b, i, a[i].residuals[j]);
      }
    }
    forall i, j | 0 <= i < |a| && 0 <= j < |a[i].decisions| ensures a[i].decisions[j].invalidations == [] {
      assert WorseLane(d, a[i], b[i]) && WorseDecision(d, a[i].decisions[j], b[i].decisions[j]);
    }
  }

  lemma WorseRoundBlocks(d: Dossier, e: Dossier, a: seq<Lane>, b: seq<Lane>)
    requires e.profile == d.profile && e.claims == d.claims && e.evidence == d.evidence
    requires WorseRound(d, a, b) && RoundClosed(e, b)
    ensures RoundClosed(d, a)
  {
    forall i: nat, j: nat, c: nat | Concerns(d, a, i, j, c) && Applicable(RuleFor(d, a, i, c))
      ensures Blocking(a[i].decisions[j].disposition) ==> Closed(d.profile, Admitted(d.evidence), a[i].decisions[j])
    {
      assert WorseLane(d, a[i], b[i]) && WorseDecision(d, a[i].decisions[j], b[i].decisions[j]);
      assert Concerns(e, b, i, j, c) && RuleFor(e, b, i, c) == RuleFor(d, a, i, c);
      assert Blocking(a[i].decisions[j].disposition) ==> Rank(b[i].decisions[j].disposition) >= 2;
    }
  }

  /** Worsening any lane of either round never turns ABSTAIN into publication. */
  lemma WorseningNeverPublishes(d: Dossier, e: Dossier)
    requires e == d.(r1 := e.r1, r2 := e.r2) && WorseRound(d, d.r1, e.r1) && WorseRound(d, d.r2, e.r2)
    requires ClaimsOk(d.profile, d.claims) && ReviewSpec(d).Ok? && ReviewSpec(e).Ok?
    ensures ReviewSpec(d).value.posture.Abstain? ==> ReviewSpec(e).value.posture.Abstain?
  {
    PostureIsExact(d);
    PostureIsExact(e);
    if Publishable(e) {
      WorseRoundOpens(d, d.r1, e.r1);
      WorseRoundOpens(d, d.r2, e.r2);
      WorseRoundBlocks(d, e, d.r1, e.r1);
      WorseRoundBlocks(d, e, d.r2, e.r2);
    }
  }
}
