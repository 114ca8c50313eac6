/** What the second-round corpus keeps of the first round: every decision and every residual, under a neutral alias. */
module FinanceR2Contents {
  import opened Base
  import Json
  import opened Canonical
  import opened CanonicalOrder
  import opened FinanceReview
  import FinanceReviewTheorems
  import opened Sorting
  import opened FinanceR2
  import opened FinanceR2Theorems

  // ---- one lane -------------------------------------------------------------------------------------

  /** The entry shows the decision: its claim and disposition, the members of its evidence, and the codes that the lane's
      residuals carry for its claim, both lists in strict order. */
  ghost predicate Shows(lane: Lane, d: Decision, a: Anonymous)
  {
    && a.claim == d.claim && a.disposition == d.disposition
    && Ascends(a.evidence) && (forall r :: r in a.evidence <==> r in d.evidence)
    && Ascends(a.residuals) && (forall code :: code in a.residuals <==> Carries(lane.residuals, code, d.claim))
  }

  /** One entry for each decision and no other, in strict order of their claims. */
  ghost predicate ShowsLane(lane: Lane, entries: seq<Anonymous>)
  {
    && |entries| == |lane.decisions|
    && (forall i :: 0 <= i < |entries| - 1 ==> Precedes(entries[i].claim, entries[i + 1].claim))
    && (forall j :: 0 <= j < |lane.decisions| ==> Shown(lane, lane.decisions[j], entries))
    && (forall i :: 0 <= i < |entries| ==> Showing(lane, entries[i]))
  }

  ghost predicate Shown(lane: Lane, d: Decision, entries: seq<Anonymous>)
  {
    exists i :: 0 <= i < |entries| && Shows(lane, d, entries[i])
  }

  ghost predicate Showing(lane: Lane, a: Anonymous)
  {
    exists j :: 0 <= j < |lane.decisions| && Shows(lane, lane.decisions[j], a)
  }

  lemma StrictAscends(s: seq<string>)
    requires Strict(s)
    ensures Ascends(s)
  {
    forall i | 0 <= i < |s| - 1 ensures Precedes(s[i], s[i + 1]) {
      OrderIsByCodePoints(s[i], s[i + 1]);
    }
  }

  lemma ProjectionShows(lane: Lane, d: Decision)
    ensures Shows(lane, d, ProjectDecision(lane.residuals, d))
  {
    var a := ProjectDecision(lane.residuals, d);
    SortDedupStrict(d.evidence);
    StrictAscends(a.evidence);
    SortDedupStrict(CodesFor(lane.residuals, d.claim));
    StrictAscends(a.residuals);
    forall r ensures r in a.evidence <==> r in d.evidence {
      SortDedupElements(d.evidence, r);
    }
    forall code ensures code in a.residuals <==> Carries(lane.residuals, code, d.claim) {
      SortDedupElements(CodesFor(lane.residuals, d.claim), code);
      CodesMembers(lane.residuals, d.claim, code);
    }
  }

  /** A reference that is the prefix and 64 digits of a lower-case hexadecimal number. */
  predicate Neutral(r: string)
  {
    |r| == 80 && r[..16] == "evidence:sha256:"
    && forall i :: 16 <= i < 80 ==> '0' <= r[i] <= '9' || 'a' <= r[i] <= 'f'
  }

  lemma NeutralIsAnonymous(r: string)
    ensures AnonymousReference(r) <==> Neutral(r)
  {
  }

  lemma SortedHasAll<T>(s: seq<Keyed<T>>)
    ensures |Sort(s)| == |s| && forall x :: x in Sort(s) <==> x in s
  {
    SortPermutes(s);
    assert |multiset(Sort(s))| == |Sort(s)| && |multiset(s)| == |s|;
    forall x ensures x in Sort(s) <==> x in s {
      assert x in Sort(s) <==> x in multiset(Sort(s));
      assert x in s <==> x in multiset(s);
    }
  }

  /** Keys without repetition come out in strict order. */
  lemma SortedStrictly<T>(s: seq<Keyed<T>>)
    requires forall i, j :: 0 <= i < j < |s| ==> s[i].key != s[j].key
    ensures forall i :: 0 <= i < |Sort(s)| - 1 ==> Precedes(Sort(s)[i].key, Sort(s)[i + 1].key)
  {
    SortOrders(s);
    SortPermutes(s);
    var r := Sort(s);
    forall i | 0 <= i < |r| - 1 ensures Precedes(r[i].key, r[i + 1].key) {
      if r[i].key == r[i + 1].key {
        SameKeyTwice(s, r, i);
        assert false;
      }
      BeforeTotal(r[i].key, r[i + 1].key);
      OrderIsByCodePoints(r[i].key, r[i + 1].key);
    }
  }

  /** A permuted list with the same key at two places has it at two places before. */
  lemma SameKeyTwice<T>(s: seq<Keyed<T>>, r: seq<Keyed<T>>, i: nat)
    requires multiset(s) == multiset(r) && i + 1 < |r| && r[i].key == r[i + 1].key
    ensures !(forall i, j :: 0 <= i < j < |s| ==> s[i].key != s[j].key)
  {
    var perm := Arrangement(r, s);
    assert perm[i] != perm[i + 1];
    assert s[perm[i]].key == s[perm[i + 1]].key;
  }

  /** A permutation of a list, as the place each element comes from. */
  lemma {:induction false} Arrangement<T>(x: seq<T>, y: seq<T>) returns (perm: seq<nat>)
    requires multiset(x) == multiset(y)
    ensures |perm| == |x| == |y| && NoTwice(perm)
    ensures forall i :: 0 <= i < |perm| ==> perm[i] < |y| && x[i] == y[perm[i]]
    decreases |x|
  {
    assert |multiset(x)| == |x| && |multiset(y)| == |y|;
    if x == [] {
      perm := [];
    } else {
      var n := |x| - 1;
      assert x[n] in multiset(y);
      var j :| 0 <= j < |y| && y[j] == x[n];
      LastMultiset(x);
      Split(y, j);
      var rest := y[..j] + y[j + 1..];
      Cancel(multiset(x[..n]), multiset(rest), x[n]);
      var before := Arrangement(x[..n], rest);
      perm := Skips(before, j) + [j];
      SkipsOnce(before, j);
      PutBack(x, y, j, before);
    }
  }

  lemma PutBack<T>(x: seq<T>, y: seq<T>, j: nat, before: seq<nat>)
    requires |x| == |y| == |before| + 1 && j < |y| && y[j] == x[|before|]
    requires forall i :: 0 <= i < |before| ==> before[i] < |before| && x[i] == (y[..j] + y[j + 1..])[before[i]]
    ensures var perm := Skips(before, j) + [j];
            forall i :: 0 <= i < |perm| ==> perm[i] < |y| && x[i] == y[perm[i]]
  {
    forall i | 0 <= i < |before| ensures Skips(before, j)[i] < |y| && x[i] == y[Skips(before, j)[i]] {
      SkipAt(y, j, before[i]);
    }
  }

  /** A place in a list from which the element at j was taken, as a place in the whole list. */
  function Skip(k: nat, j: nat): nat
  {
    if k < j then k else k + 1
  }

  function Skips(ks: seq<nat>, j: nat): seq<nat>
  {
    seq(|ks|, i requires 0 <= i < |ks| => Skip(ks[i], j))
  }

  lemma SkipAt<T>(y: seq<T>, j: nat, k: nat)
    requires j < |y| && k < |y| - 1
    ensures Skip(k, j) < |y| && (y[..j] + y[j + 1..])[k] == y[Skip(k, j)]
  {
  }

  lemma SkipsOnce(ks: seq<nat>, j: nat)
    requires NoTwice(ks)
    ensures NoTwice(Skips(ks, j) + [j])
  {
  }

  ghost predicate AllNeutral(lane: Lane)
  {
    forall i, j :: 0 <= i < |lane.decisions| && 0 <= j < |lane.decisions[i].evidence| ==>
      Neutral(lane.decisions[i].evidence[j])
  }

  lemma ReferencesAreNeutral(lane: Lane)
    ensures ReferencesOk(lane.decisions) <==> AllNeutral(lane)
  {
    forall i, j | 0 <= i < |lane.decisions| && 0 <= j < |lane.decisions[i].evidence|
      ensures AnonymousReference(lane.decisions[i].evidence[j]) <==> Neutral(lane.decisions[i].evidence[j])
    {
      NeutralIsAnonymous(lane.decisions[i].evidence[j]);
    }
    hide AnonymousReference, Neutral;
  }

  lemma EntryShows(lane: Lane, i: nat)
    requires i < |Sort(KeyedDecisions(lane.residuals, lane.decisions))|
    ensures var sorted := Sort(KeyedDecisions(lane.residuals, lane.decisions));
            Showing(lane, sorted[i].value) && sorted[i].value.claim == sorted[i].key
  {
    var keyed := KeyedDecisions(lane.residuals, lane.decisions);
    SortedHasAll(keyed);
    var sorted := Sort(keyed);
    hide Sort, Shows;
    assert sorted[i] in sorted;
    var j :| 0 <= j < |keyed| && keyed[j] == sorted[i];
    ProjectionShows(lane, lane.decisions[j]);
  }

  lemma DecisionShown(lane: Lane, j: nat)
    requires j < |lane.decisions|
    ensures Shown(lane, lane.decisions[j], Values(Sort(KeyedDecisions(lane.residuals, lane.decisions))))
  {
    var keyed := KeyedDecisions(lane.residuals, lane.decisions);
    SortedHasAll(keyed);
    var sorted := Sort(keyed);
    hide Sort, Shows;
    assert keyed[j] in sorted;
    var i :| 0 <= i < |sorted| && sorted[i] == keyed[j];
    ProjectionShows(lane, lane.decisions[j]);
    assert Values(sorted)[i] == keyed[j].value;
  }

  /** A lane that decides no claim twice is projected exactly when its references are neutral, and then its projection
      shows it: one entry for each decision, in strict order of claims, with nothing of the decision changed or lost. */
  lemma LaneIsShown(lane: Lane)
    requires OneEach(lane.decisions)
    ensures Project(lane).Ok? <==> AllNeutral(lane)
    ensures Project(lane).Ok? ==> ShowsLane(lane, Project(lane).value)
  {
    ReferencesAreNeutral(lane);
    var keyed := KeyedDecisions(lane.residuals, lane.decisions);
    var sorted := Sort(keyed);
    SortedHasAll(keyed);
    SortedStrictly(keyed);
    hide AllNeutral, ReferencesOk, Sort, Shown, Showing, Precedes;
    forall i | 0 <= i < |sorted| ensures Showing(lane, sorted[i].value) && sorted[i].value.claim == sorted[i].key {
      EntryShows(lane, i);
    }
    forall j | 0 <= j < |lane.decisions| ensures Shown(lane, lane.decisions[j], Values(sorted)) {
      DecisionShown(lane, j);
    }
  }

  // ---- the corpus ------------------------------------------------------------------------------------

  /** The name is the neutral prefix and the number in decimal, without a leading zero. */
  ghost predicate Numbered(alias: string, n: nat)
  {
    && |alias| > 12 && alias[..12] == "contributor-" && alias[12] != '0'
    && (forall k :: 12 <= k < |alias| ==> '0' <= alias[k] <= '9')
    && Json.NatOf(alias[12..]) == n
  }

  lemma AliasIsNumbered(n: nat)
    requires n > 0
    ensures Numbered("contributor-" + Decimal(n), n)
  {
    DecimalValue(n);
    assert ("contributor-" + Decimal(n))[12..] == Decimal(n);
    assert ("contributor-" + Decimal(n))[..12] == "contributor-";
  }

  ghost predicate EachOnce(r1: seq<Lane>)
  {
    forall i :: 0 <= i < |r1| ==> OneEach(r1[i].decisions)
  }

  /** Contribution i shows lane perm[i], and every lane is shown once. */
  ghost predicate ShowsRound(r1: seq<Lane>, contributions: seq<Contribution>, perm: seq<nat>)
  {
    && |perm| == |contributions| == |r1| && NoTwice(perm)
    && (forall i :: 0 <= i < |perm| ==> perm[i] < |r1| && ShowsLane(r1[perm[i]], contributions[i].decisions))
    && (forall i :: 0 <= i < |perm| ==> Numbered(contributions[i].alias, i + 1))
  }

  /** A round whose lanes decide no claim twice has a corpus exactly when all its references are neutral: the claims are
      the given ids and texts in the given order, and the contributions, numbered from 1 in the order of their digests,
      show the lanes, each once and whole. */
  lemma CorpusShows(hash: string -> string, claims: seq<Claim>, r1: seq<Lane>) returns (perm: seq<nat>)
    requires EachOnce(r1)
    ensures CorpusSpec(hash, claims, r1).Ok? <==> forall i :: 0 <= i < |r1| ==> AllNeutral(r1[i])
    ensures CorpusSpec(hash, claims, r1).Ok? ==>
              var corpus := CorpusSpec(hash, claims, r1).value;
              && |corpus.claims| == |claims|
              && (forall i :: 0 <= i < |claims| ==> corpus.claims[i] == (claims[i].id, claims[i].text))
              && ShowsRound(r1, corpus.contributions, perm)
              && forall i :: 0 <= i < |r1| - 1 ==>
                   !Precedes(ContributionKey(hash, corpus.contributions[i + 1].decisions),
                             ContributionKey(hash, corpus.contributions[i].decisions))
  {
    perm := [];
    forall i | 0 <= i < |r1| ensures Project(r1[i]).Ok? <==> AllNeutral(r1[i]) {
      LaneIsShown(r1[i]);
    }
    hide AllNeutral, ShowsLane, Project, Precedes, Numbered, OneEach, ContributionKey;
    if AllProject(r1) {
      var keyed := KeyedContributions(hash, r1);
      SortPermutes(keyed);
      SortOrders(keyed);
      perm := Arrangement(Sort(keyed), keyed);
      SortedShows(hash, r1, Sort(keyed), perm);
    }
  }

  lemma SortedShows(hash: string -> string, r1: seq<Lane>, sorted: seq<Keyed<seq<Anonymous>>>, perm: seq<nat>)
    requires EachOnce(r1) && AllProject(r1) && Ordered(sorted)
    requires |perm| == |sorted| == |r1| && NoTwice(perm)
    requires forall i :: 0 <= i < |perm| ==> perm[i] < |r1| && sorted[i] == KeyedContributions(hash, r1)[perm[i]]
    ensures ShowsRound(r1, Aliased(sorted), perm)
    ensures forall i :: 0 <= i < |r1| - 1 ==>
              !Precedes(ContributionKey(hash, Aliased(sorted)[i + 1].decisions),
                        ContributionKey(hash, Aliased(sorted)[i].decisions))
  {
    hide AllNeutral, ShowsLane, Project, Precedes, Numbered, OneEach, ContributionKey;
    forall i | 0 <= i < |perm|
      ensures ShowsLane(r1[perm[i]], Aliased(sorted)[i].decisions) && Numbered(Aliased(sorted)[i].alias, i + 1)
      ensures sorted[i].key == ContributionKey(hash, Aliased(sorted)[i].decisions)
    {
      LaneIsShown(r1[perm[i]]);
      AliasIsNumbered(i + 1);
    }
    forall i | 0 <= i < |r1| - 1 ensures !Precedes(sorted[i + 1].key, sorted[i].key) {
      OrderIsByCodePoints(sorted[i + 1].key, sorted[i].key);
    }
  }

  // ---- what the corpus tells ----------------------------------------------------------------------------

  /** Every claim of a residual is decided. */
  ghost predicate Covers(lane: Lane)
  {
    forall k, claim :: 0 <= k < |lane.residuals| && claim in lane.residuals[k].claims ==>
      exists j :: 0 <= j < |lane.decisions| && lane.decisions[j].claim == claim
  }

  /** A lane that passed its validation decides every claim once and carries residuals on decided claims only. */
  lemma ValidLaneCovers(profile: Profile, claims: seq<Claim>, evidence: seq<Evidence>, lane: Lane)
    requires LaneOk(profile, claims, evidence, lane)
    ensures OneEach(lane.decisions) && Covers(lane)
  {
    forall i, j | 0 <= i < j < |lane.decisions| ensures lane.decisions[i].claim != lane.decisions[j].claim {
      FinanceReviewTheorems.DecidedOnce(lane.decisions, i, j);
    }
    forall k, claim | 0 <= k < |lane.residuals| && claim in lane.residuals[k].claims
      ensures exists j :: 0 <= j < |lane.decisions| && lane.decisions[j].claim == claim
    {
      assert claim in DecidedIds(lane.decisions);
    }
  }

  lemma EntryOf(lane: Lane, d: Decision, entries: seq<Anonymous>) returns (i: nat)
    requires Shown(lane, d, entries)
    ensures i < |entries| && Shows(lane, d, entries[i])
  {
    hide Shows;
    i :| 0 <= i < |entries| && Shows(lane, d, entries[i]);
  }

  lemma DecisionBehind(lane: Lane, a: Anonymous) returns (j: nat)
    requires Showing(lane, a)
    ensures j < |lane.decisions| && Shows(lane, lane.decisions[j], a)
  {
    hide Shows;
    j :| 0 <= j < |lane.decisions| && Shows(lane, lane.decisions[j], a);
  }

  lemma ShownAlike(a: Lane, b: Lane, j: nat, entries: seq<Anonymous>)
    requires ShowsLane(a, entries) && ShowsLane(b, entries) && j < |a.decisions|
    ensures Among(a.decisions[j], b.decisions)
  {
    hide Shown, Showing, Ascends, Carries;
    var i := EntryOf(a, a.decisions[j], entries);
    var k := DecisionBehind(b, entries[i]);
    assert SameDecision(a.decisions[j], b.decisions[k]);
  }

  lemma CarriedAlike(a: Lane, b: Lane, entries: seq<Anonymous>, code: string, claim: string)
    requires ShowsLane(a, entries) && ShowsLane(b, entries) && Covers(a) && Carries(a.residuals, code, claim)
    ensures Carries(b.residuals, code, claim)
  {
    var k :| 0 <= k < |a.residuals| && a.residuals[k].code == code && claim in a.residuals[k].claims;
    var j :| 0 <= j < |a.decisions| && a.decisions[j].claim == claim;
    hide Shown, Showing, Ascends, Carries;
    var i := EntryOf(a, a.decisions[j], entries);
    var l := DecisionBehind(b, entries[i]);
    assert code in entries[i].residuals;
  }

  /** Two valid lanes shown by the same entries have the same contents. */
  lemma EntriesTell(a: Lane, b: Lane, entries: seq<Anonymous>)
    requires OneEach(a.decisions) && Covers(a) && OneEach(b.decisions) && Covers(b)
    requires ShowsLane(a, entries) && ShowsLane(b, entries)
    ensures SameContents(a, b)
  {
    forall i | 0 <= i < |a.decisions| ensures Among(a.decisions[i], b.decisions) {
      ShownAlike(a, b, i, entries);
    }
    forall i | 0 <= i < |b.decisions| ensures Among(b.decisions[i], a.decisions) {
      ShownAlike(b, a, i, entries);
    }
    forall code, claim ensures Carries(a.residuals, code, claim) <==> Carries(b.residuals, code, claim) {
      if Carries(a.residuals, code, claim) {
        CarriedAlike(a, b, entries, code, claim);
      }
      if Carries(b.residuals, code, claim) {
        CarriedAlike(b, a, entries, code, claim);
      }
    }
  }

  /** The corpus tells everything but who and in what order: two valid rounds with the same corpus have the same contents,
      lane by lane, up to a permutation of the lanes. */
  lemma CorpusTells(hash: string -> string, profile: Profile, claims: seq<Claim>, evidence: seq<Evidence>,
                    a: seq<Lane>, b: seq<Lane>)
    returns (p: seq<nat>, q: seq<nat>)
    requires forall i :: 0 <= i < |a| ==> LaneOk(profile, claims, evidence, a[i])
    requires forall i :: 0 <= i < |b| ==> LaneOk(profile, claims, evidence, b[i])
    requires CorpusSpec(hash, claims, a).Ok? && CorpusSpec(hash, claims, a) == CorpusSpec(hash, claims, b)
    ensures |p| == |q| == |a| == |b| && NoTwice(p) && NoTwice(q)
    ensures forall i :: 0 <= i < |p| ==> p[i] < |a| && q[i] < |b| && SameContents(a[p[i]], b[q[i]])
  {
    forall i | 0 <= i < |a| ensures OneEach(a[i].decisions) && Covers(a[i]) {
      ValidLaneCovers(profile, claims, evidence, a[i]);
    }
    forall i | 0 <= i < |b| ensures OneEach(b[i].decisions) && Covers(b[i]) {
      ValidLaneCovers(profile, claims, evidence, b[i]);
    }
    hide CorpusSpec, LaneOk, Covers, OneEach, ShowsLane, SameContents;
    p := CorpusShows(hash, claims, a);
    q := CorpusShows(hash, claims, b);
    forall i | 0 <= i < |p| ensures p[i] < |a| && q[i] < |b| && SameContents(a[p[i]], b[q[i]]) {
      EntriesTell(a[p[i]], b[q[i]], CorpusSpec(hash, claims, a).value.contributions[i].decisions);
    }
  }

  // ---- the sources --------------------------------------------------------------------------------------

  /** A lane output of this revision and domain with one of the output's two digests. */
  predicate Names(s: Source, digests: seq<string>)
  {
    && s.family == "school-lane-output" && s.revision == "1.0" && s.domain == "quinte.school-lane-output.v1"
    && exists i :: 0 <= i < |digests| && digests[i] == s.exact
  }

  /** Source k is the first that names the output. */
  predicate FirstNaming(exact: Lane -> seq<string>, sources: seq<Source>, lane: Lane, k: nat)
  {
    k < |sources| && Names(sources[k], exact(lane)) && forall j :: 0 <= j < k ==> !Names(sources[j], exact(lane))
  }

  lemma {:induction false} MatchIsFirst(exact: Lane -> seq<string>, sources: seq<Source>, lane: Lane, k: nat)
    ensures FirstNaming(exact, sources, lane, k) <==> k == Match(exact, sources, lane) < |sources|
    decreases |sources|
  {
    if sources != [] && k > 0 {
      MatchIsFirst(exact, sources[1..], lane, k - 1);
      assert forall j :: 0 < j < k && j < |sources| ==> sources[j] == sources[1..][j - 1];
      assert FirstNaming(exact, sources, lane, k) ==> !Names(sources[0], exact(lane));
      assert k < |sources| && FirstNaming(exact, sources[1..], lane, k - 1) && !Names(sources[0], exact(lane)) ==>
        FirstNaming(exact, sources, lane, k);
      forall j | FirstNaming(exact, sources, lane, k) && 0 <= j < k - 1 ensures !Names(sources[1..][j], exact(lane)) {
        assert sources[1..][j] == sources[j + 1];
      }
    }
  }

  ghost predicate IsNamed(exact: Lane -> seq<string>, sources: seq<Source>, lane: Lane)
  {
    exists k: nat :: FirstNaming(exact, sources, lane, k)
  }

  /** A source set is accepted exactly when there are five sources for five outputs, each output has a first source that
      names it, no two outputs share theirs, and no two sources agree in both digests. */
  lemma SourcesAreExact(exact: Lane -> seq<string>, r1: seq<Lane>, sources: seq<Source>)
    ensures SourcesOk(exact, r1, sources) <==>
            && |sources| == 5 && |r1| == 5
            && (forall i :: 0 <= i < |r1| ==> IsNamed(exact, sources, r1[i]))
            && (forall i, j, k: nat :: 0 <= i < j < |r1| ==>
                  !(FirstNaming(exact, sources, r1[i], k) && FirstNaming(exact, sources, r1[j], k)))
            && (forall i, j :: 0 <= i < j < |sources| ==>
                  sources[i].exact != sources[j].exact || sources[i].semantic != sources[j].semantic)
  {
    forall i, k: nat | 0 <= i < |r1|
      ensures FirstNaming(exact, sources, r1[i], k) <==> k == Match(exact, sources, r1[i]) < |sources|
    {
      MatchIsFirst(exact, sources, r1[i], k);
    }
    hide FirstNaming, Match;
    forall i | 0 <= i < |r1| ensures IsNamed(exact, sources, r1[i]) <==> Match(exact, sources, r1[i]) < |sources| {
      assert FirstNaming(exact, sources, r1[i], Match(exact, sources, r1[i])) <==>
        Match(exact, sources, r1[i]) < |sources|;
    }
    hide IsNamed;
  }
}
