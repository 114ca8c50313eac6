/** The second-round corpus does not depend on who said what, nor on any order inside the first round. */
module FinanceR2Theorems {
  import opened Base
  import opened Json
  import opened Canonical
  import opened CanonicalTheorems
  import opened FinanceReview
  import opened Sorting
  import opened FinanceR2

  // ---- a contribution's key determines it ------------------------------------------------

  lemma StringsUnique(s: seq<string>)
    ensures Unique(Strings(s))
  {
  }

  lemma SameStrings(s: seq<string>, t: seq<string>)
    requires Equiv(Strings(s), Strings(t))
    ensures s == t
  {
    forall i | 0 <= i < |s| ensures s[i] == t[i] {
      assert Equiv(Strings(s).items[i], Strings(t).items[i]);
    }
  }

  lemma AnonymousUnique(a: Anonymous)
    ensures Unique(AnonymousJson(a))
  {
    var ms := AnonymousJson(a).members;
    StringsUnique(a.evidence);
    StringsUnique(a.residuals);
    assert ms[0].name == "claim_id" && ms[1].name == "disposition";
    assert ms[2].name == "evidence_refs" && ms[3].name == "residual_codes";
    assert |ms[0].name| == 8 && |ms[1].name| == 11 && |ms[2].name| == 13 && |ms[3].name| == 14;
  }

  /** Two objects with the same distinct names in the same order match member by member. */
  lemma MemberMatches(x: seq<Member>, y: seq<Member>, k: nat)
    requires |x| == |y| && k < |x| && DistinctNames(y)
    requires forall i :: 0 <= i < |x| ==> x[i].name == y[i].name
    requires MatchedIn(x[k], y)
    ensures Equiv(x[k].value, y[k].value)
  {
    var j :| 0 <= j < |y| && y[j].name == x[k].name && Equiv(x[k].value, y[j].value);
    assert y[j].name == y[k].name;
  }

  lemma DispositionNames(d: Disposition, e: Disposition)
    requires DispositionName(d) == DispositionName(e)
    ensures d == e
  {
    assert |"clear"| == 5 && |"not_applicable"| == 14 && |"insufficient_evidence"| == 21;
    assert |"contradicted"| == 12 && |"quarantined"| == 11 && |"expired"| == 7;
  }

  lemma AnonymousMember(a: Anonymous, b: Anonymous, k: nat)
    requires Equiv(AnonymousJson(a), AnonymousJson(b)) && k < 4
    ensures Equiv(AnonymousJson(a).members[k].value, AnonymousJson(b).members[k].value)
  {
    var x, y := AnonymousJson(a).members, AnonymousJson(b).members;
    AnonymousUnique(b);
    assert MatchedIn(x[k], y);
    MemberMatches(x, y, k);
  }

  lemma SameAnonymous(a: Anonymous, b: Anonymous)
    requires Equiv(AnonymousJson(a), AnonymousJson(b))
    ensures a == b
  {
    assert a.claim == b.claim by {
      AnonymousMember(a, b, 0);
    }
    assert a.disposition == b.disposition by {
      AnonymousMember(a, b, 1);
      DispositionNames(a.disposition, b.disposition);
    }
    assert a.evidence == b.evidence by {
      AnonymousMember(a, b, 2);
      SameStrings(a.evidence, b.evidence);
    }
    assert a.residuals == b.residuals by {
      AnonymousMember(a, b, 3);
      SameStrings(a.residuals, b.residuals);
    }
  }

  lemma ContributionUnique(a: seq<Anonymous>)
    ensures Unique(ContributionJson(a))
  {
    var items := ContributionJson(a).members[0].value.items;
    forall i | 0 <= i < |items| ensures Unique(items[i]) {
      AnonymousUnique(a[i]);
    }
    assert Unique(ContributionJson(a).members[0].value);
  }

  lemma SameContribution(a: seq<Anonymous>, b: seq<Anonymous>)
    requires Equiv(ContributionJson(a), ContributionJson(b))
    ensures a == b
  {
    var x, y := ContributionJson(a).members, ContributionJson(b).members;
    assert MatchedIn(x[0], y);
    MemberMatches(x, y, 0);
    forall i | 0 <= i < |a| ensures a[i] == b[i] {
      assert Equiv(x[0].value.items[i], y[0].value.items[i]);
      SameAnonymous(a[i], b[i]);
    }
  }

  /** Two contributions with the same key are the same, or exhibit a digest collision. */
  lemma KeyDeterminesContribution(hash: string -> string, a: seq<Anonymous>, b: seq<Anonymous>)
    requires ContributionKey(hash, a) == ContributionKey(hash, b)
    ensures a == b || Collision(hash, Preimage(CONTRIBUTION_DOMAIN, ContributionJson(a)),
                                Preimage(CONTRIBUTION_DOMAIN, ContributionJson(b)))
  {
    ContributionUnique(a);
    ContributionUnique(b);
    DigestSeparates(hash, CONTRIBUTION_DOMAIN, ContributionJson(a), CONTRIBUTION_DOMAIN, ContributionJson(b));
    if Equiv(ContributionJson(a), ContributionJson(b)) {
      SameContribution(a, b);
    }
  }

  // ---- mapping a permutation --------------------------------------------------------------

  function Map<A, B>(f: A -> B, s: seq<A>): (r: seq<B>)
    ensures |r| == |s|
  {
    if s == [] then [] else Map(f, s[..|s| - 1]) + [f(s[|s| - 1])]
  }

  lemma {:induction false} MapAt<A, B>(f: A -> B, s: seq<A>, i: nat)
    requires i < |s|
    ensures Map(f, s)[i] == f(s[i])
    decreases |s|
  {
    if i < |s| - 1 {
      MapAt(f, s[..|s| - 1], i);
    }
  }

  lemma {:induction false} MapAppend<A, B>(f: A -> B, s: seq<A>, t: seq<A>)
    ensures Map(f, s + t) == Map(f, s) + Map(f, t)
    decreases |t|
  {
    if t == [] {
      assert s + t == s;
    } else {
      var before := t[..|t| - 1];
      assert (s + t)[..|s + t| - 1] == s + before;
      MapAppend(f, s, before);
    }
  }

  lemma MapThree<A, B>(f: A -> B, a: seq<A>, x: A, b: seq<A>)
    ensures Map(f, a + [x] + b) == Map(f, a) + [f(x)] + Map(f, b)
  {
    MapAppend(f, a + [x], b);
    assert (a + [x])[..|a|] == a;
  }

  lemma Split<A>(t: seq<A>, j: nat)
    requires j < |t|
    ensures t == t[..j] + [t[j]] + t[j + 1..]
    ensures multiset(t) == multiset(t[..j] + t[j + 1..]) + multiset{t[j]}
  {
    assert t == t[..j] + [t[j]] + t[j + 1..];
  }

  /** Taking one element out of a sequence takes its image out of the mapped one. */
  lemma MapWithout<A, B>(f: A -> B, a: seq<A>, x: A, b: seq<A>)
    ensures multiset(Map(f, a + [x] + b)) == multiset(Map(f, a + b)) + multiset{f(x)}
  {
    MapThree(f, a, x, b);
    MapAppend(f, a, b);
  }

  lemma MapStep<A, B>(f: A -> B, s: seq<A>, t: seq<A>, a: seq<A>, b: seq<A>, c: seq<A>, e: seq<A>, x: A)
    requires s == a + [x] + b && t == c + [x] + e
    requires multiset(Map(f, a + b)) == multiset(Map(f, c + e))
    ensures multiset(Map(f, s)) == multiset(Map(f, t))
  {
    MapWithout(f, a, x, b);
    MapWithout(f, c, x, e);
  }

  lemma Cancel<A>(m: multiset<A>, n: multiset<A>, x: A)
    requires m + multiset{x} == n + multiset{x}
    ensures m == n
  {
    assert m == (m + multiset{x}) - multiset{x};
    assert n == (n + multiset{x}) - multiset{x};
  }

  lemma {:induction false} MapPermutes<A, B>(f: A -> B, s: seq<A>, t: seq<A>)
    requires multiset(s) == multiset(t)
    ensures multiset(Map(f, s)) == multiset(Map(f, t))
    decreases |s|
  {
    assert |s| == |multiset(s)| && |t| == |multiset(t)|;
    if s == [] {
      assert t == [];
    } else {
      var x := s[0];
      assert x in multiset(t);
      var j :| 0 <= j < |t| && t[j] == x;
      var rest, c, e := s[1..], t[..j], t[j + 1..];
      Split(s, 0);
      Split(t, j);
      assert s[..0] + rest == rest && s == [] + [x] + rest && [] + rest == rest;
      Cancel(multiset(rest), multiset(c + e), x);
      MapPermutes(f, rest, c + e);
      MapStep(f, s, t, [], rest, c, e, x);
    }
  }

  // ---- one lane -------------------------------------------------------------------------------

  /** Some residual of the list carries this code for this claim. */
  predicate Carries(residuals: seq<Residual>, code: string, claim: string)
  {
    exists k :: 0 <= k < |residuals| && residuals[k].code == code && claim in residuals[k].claims
  }

  lemma {:induction false} MentionsMembers(code: string, claims: seq<string>, claim: string, x: string)
    ensures x in Mentions(code, claims, claim) <==> x == code && claim in claims
    decreases |claims|
  {
    if claims != [] {
      MentionsMembers(code, claims[..|claims| - 1], claim, x);
      assert claims == claims[..|claims| - 1] + [claims[|claims| - 1]];
    }
  }

  lemma {:induction false} CodesMembers(residuals: seq<Residual>, claim: string, x: string)
    ensures x in CodesFor(residuals, claim) <==> Carries(residuals, x, claim)
    decreases |residuals|
  {
    if residuals != [] {
      var before, r := residuals[..|residuals| - 1], residuals[|residuals| - 1];
      CodesMembers(before, claim, x);
      MentionsMembers(r.code, r.claims, claim, x);
      CarriesGrow(before, r, x, claim);
      assert residuals == before + [r];
    }
  }

  lemma CarriesGrow(residuals: seq<Residual>, r: Residual, code: string, claim: string)
    ensures Carries(residuals + [r], code, claim) <==> Carries(residuals, code, claim) || (r.code == code && claim in r.claims)
  {
    if Carries(residuals, code, claim) {
      var k :| 0 <= k < |residuals| && residuals[k].code == code && claim in residuals[k].claims;
      assert (residuals + [r])[k] == residuals[k];
    }
    assert (residuals + [r])[|residuals|] == r;
  }

  ghost predicate OneEach(decisions: seq<Decision>)
  {
    forall i, j :: 0 <= i < j < |decisions| ==> decisions[i].claim != decisions[j].claim
  }

  /** The decisions agree in everything the corpus shows, up to the order of evidence. */
  ghost predicate SameDecision(a: Decision, b: Decision)
  {
    a.claim == b.claim && a.disposition == b.disposition && forall r :: r in a.evidence <==> r in b.evidence
  }

  ghost predicate Among(a: Decision, decisions: seq<Decision>)
  {
    exists j :: 0 <= j < |decisions| && SameDecision(a, decisions[j])
  }

  /** The lanes decide the same and carry the same residuals, in whatever order, under whatever school. */
  ghost predicate SameContents(a: Lane, b: Lane)
  {
    && OneEach(a.decisions) && OneEach(b.decisions)
    && (forall i :: 0 <= i < |a.decisions| ==> Among(a.decisions[i], b.decisions))
    && (forall i :: 0 <= i < |b.decisions| ==> Among(b.decisions[i], a.decisions))
    && (forall code, claim :: Carries(a.residuals, code, claim) <==> Carries(b.residuals, code, claim))
  }

  lemma SameProjection(a: Lane, b: Lane, d: Decision, e: Decision)
    requires SameContents(a, b) && SameDecision(d, e)
    ensures ProjectDecision(a.residuals, d) == ProjectDecision(b.residuals, e)
  {
    SortDedupIgnoresOrder(d.evidence, e.evidence);
    forall x ensures x in CodesFor(a.residuals, d.claim) <==> x in CodesFor(b.residuals, e.claim) {
      CodesMembers(a.residuals, d.claim, x);
      CodesMembers(b.residuals, e.claim, x);
    }
    SortDedupIgnoresOrder(CodesFor(a.residuals, d.claim), CodesFor(b.residuals, e.claim));
  }

  lemma SameReferences(a: Lane, b: Lane)
    requires SameContents(a, b) && ReferencesOk(b.decisions)
    ensures ReferencesOk(a.decisions)
  {
    forall i, k | 0 <= i < |a.decisions| && 0 <= k < |a.decisions[i].evidence|
      ensures AnonymousReference(a.decisions[i].evidence[k])
    {
      assert Among(a.decisions[i], b.decisions);
      var j :| 0 <= j < |b.decisions| && SameDecision(a.decisions[i], b.decisions[j]);
      assert a.decisions[i].evidence[k] in b.decisions[j].evidence;
    }
  }

  predicate NoTwice<T(==)>(s: seq<T>)
  {
    forall i, j :: 0 <= i < j < |s| ==> s[i] != s[j]
  }

  lemma {:induction false} CountOne<T>(s: seq<T>, x: T)
    requires NoTwice(s)
    ensures multiset(s)[x] == if x in s then 1 else 0
    decreases |s|
  {
    if s != [] {
      var before, last := s[..|s| - 1], s[|s| - 1];
      CountOne(before, x);
      LastMultiset(s);
      assert s == before + [last];
      assert last !in before;
    }
  }

  /** A sequence without repetitions is determined, up to order, by its members. */
  lemma MembersGiveMultiset<T>(s: seq<T>, t: seq<T>)
    requires NoTwice(s) && NoTwice(t) && forall x :: x in s <==> x in t
    ensures multiset(s) == multiset(t)
  {
    forall x ensures multiset(s)[x] == multiset(t)[x] {
      CountOne(s, x);
      CountOne(t, x);
    }
  }

  lemma KeyedMembers(a: Lane, b: Lane, i: nat)
    requires SameContents(a, b) && i < |a.decisions|
    ensures KeyedDecisions(a.residuals, a.decisions)[i] in KeyedDecisions(b.residuals, b.decisions)
  {
    assert Among(a.decisions[i], b.decisions);
    var j :| 0 <= j < |b.decisions| && SameDecision(a.decisions[i], b.decisions[j]);
    SameProjection(a, b, a.decisions[i], b.decisions[j]);
    assert KeyedDecisions(b.residuals, b.decisions)[j] == KeyedDecisions(a.residuals, a.decisions)[i];
  }

  /** A lane's projection depends on its contents only. */
  lemma ProjectIgnoresOrder(a: Lane, b: Lane)
    requires SameContents(a, b)
    ensures Project(a) == Project(b)
  {
    assert SameContents(b, a);
    if ReferencesOk(a.decisions) {
      SameReferences(b, a);
    }
    if ReferencesOk(b.decisions) {
      SameReferences(a, b);
    }
    KeyedAlike(a, b);
    SortIgnoresOrder(KeyedDecisions(a.residuals, a.decisions), KeyedDecisions(b.residuals, b.decisions));
  }

  lemma KeyedOnce(lane: Lane)
    requires OneEach(lane.decisions)
    ensures NoTwice(KeyedDecisions(lane.residuals, lane.decisions))
    ensures KeyDetermines(KeyedDecisions(lane.residuals, lane.decisions))
  {
  }

  lemma KeyedAlike(a: Lane, b: Lane)
    requires SameContents(a, b)
    ensures multiset(KeyedDecisions(a.residuals, a.decisions)) == multiset(KeyedDecisions(b.residuals, b.decisions))
    ensures KeyDetermines(KeyedDecisions(a.residuals, a.decisions))
  {
    var x, y := KeyedDecisions(a.residuals, a.decisions), KeyedDecisions(b.residuals, b.decisions);
    KeyedOnce(a);
    KeyedOnce(b);
    forall i | 0 <= i < |x| ensures x[i] in y {
      KeyedMembers(a, b, i);
    }
    forall i | 0 <= i < |y| ensures y[i] in x {
      KeyedMembers(b, a, i);
    }
    MembersGiveMultiset(x, y);
  }

  // ---- the corpus ------------------------------------------------------------------------------

  /** Two first-round contributions exhibit a collision of the digest that sorts them. */
  ghost predicate KeyCollision(hash: string -> string, r1: seq<Lane>)
  {
    exists i, j :: 0 <= i < |r1| && 0 <= j < |r1| && Project(r1[i]).Ok? && Project(r1[j]).Ok?
      && Collision(hash, Preimage(CONTRIBUTION_DOMAIN, ContributionJson(Project(r1[i]).value)),
                   Preimage(CONTRIBUTION_DOMAIN, ContributionJson(Project(r1[j]).value)))
  }

  function KeyedOf(hash: string -> string, p: Result<seq<Anonymous>>): Keyed<seq<Anonymous>>
  {
    if p.Ok? then Keyed(ContributionKey(hash, p.value), p.value) else Keyed("", [])
  }

  lemma KeysDetermine(hash: string -> string, r1: seq<Lane>)
    requires AllProject(r1) && !KeyCollision(hash, r1)
    ensures KeyDetermines(KeyedContributions(hash, r1))
  {
    var s := KeyedContributions(hash, r1);
    forall i, j | 0 <= i < |s| && 0 <= j < |s| && s[i].key == s[j].key ensures s[i] == s[j] {
      KeyDeterminesContribution(hash, Project(r1[i]).value, Project(r1[j]).value);
    }
  }

  lemma KeyedIsMapped(hash: string -> string, r1: seq<Lane>)
    requires AllProject(r1)
    ensures KeyedContributions(hash, r1) == Map(p => KeyedOf(hash, p), Map(Project, r1))
  {
    var f := p => KeyedOf(hash, p);
    forall i | 0 <= i < |r1| ensures KeyedContributions(hash, r1)[i] == Map(f, Map(Project, r1))[i] {
      MapAt(Project, r1, i);
      MapAt(f, Map(Project, r1), i);
    }
  }

  lemma ProjectedAlike(a: seq<Lane>, b: seq<Lane>)
    requires multiset(Map(Project, a)) == multiset(Map(Project, b)) && AllProject(a)
    ensures AllProject(b)
  {
    forall j | 0 <= j < |b| ensures Project(b[j]).Ok? {
      MapAt(Project, b, j);
      assert Map(Project, b)[j] in multiset(Map(Project, a));
      var i :| 0 <= i < |Map(Project, a)| && Map(Project, a)[i] == Map(Project, b)[j];
      MapAt(Project, a, i);
    }
  }

  /** The corpus is a function of the multiset of projected contributions alone. */
  lemma CorpusIsOfMultiset(hash: string -> string, claims: seq<Claim>, a: seq<Lane>, b: seq<Lane>)
    requires multiset(Map(Project, a)) == multiset(Map(Project, b)) && !KeyCollision(hash, a)
    ensures CorpusSpec(hash, claims, a) == CorpusSpec(hash, claims, b)
  {
    if AllProject(a) {
      ProjectedAlike(a, b);
      KeyedIsMapped(hash, a);
      KeyedIsMapped(hash, b);
      MapPermutes(p => KeyedOf(hash, p), Map(Project, a), Map(Project, b));
      KeysDetermine(hash, a);
      SortIgnoresOrder(KeyedContributions(hash, a), KeyedContributions(hash, b));
    } else if AllProject(b) {
      ProjectedAlike(b, a);
    }
  }

  /** Order-independence and anonymity: permuting the first-round outputs, then reordering decisions, evidence or
      residuals inside them or handing their contents to other schools, leaves the corpus unchanged, unless two
      contributions collide under the digest. */
  lemma CorpusIsAnonymous(hash: string -> string, claims: seq<Claim>, r1: seq<Lane>, permuted: seq<Lane>, other: seq<Lane>)
    requires multiset(r1) == multiset(permuted)
    requires |other| == |permuted| && forall i :: 0 <= i < |other| ==> SameContents(permuted[i], other[i])
    requires !KeyCollision(hash, r1)
    ensures CorpusSpec(hash, claims, r1) == CorpusSpec(hash, claims, other)
  {
    MapPermutes(Project, r1, permuted);
    forall i | 0 <= i < |other| ensures Map(Project, permuted)[i] == Map(Project, other)[i] {
      ProjectIgnoresOrder(permuted[i], other[i]);
      MapAt(Project, permuted, i);
      MapAt(Project, other, i);
    }
    assert Map(Project, permuted) == Map(Project, other);
    CorpusIsOfMultiset(hash, claims, r1, other);
  }

  // ---- the sources -----------------------------------------------------------------------------

  function ElementsOf<T(==)>(s: seq<T>): set<T>
  {
    set x | x in s
  }

  lemma {:induction false} CountedOnce<T>(s: seq<T>)
    requires NoTwice(s)
    ensures |ElementsOf(s)| == |s|
    decreases |s|
  {
    if s != [] {
      var before, last := s[..|s| - 1], s[|s| - 1];
      CountedOnce(before);
      assert s == before + [last];
      assert last !in before;
      assert ElementsOf(s) == ElementsOf(before) + {last};
    }
  }

  function Below(n: nat): set<nat>
  {
    if n == 0 then {} else Below(n - 1) + {n - 1}
  }

  lemma {:induction false} InBelow(n: nat, k: nat)
    ensures k in Below(n) <==> k < n
  {
    if n > 0 {
      InBelow(n - 1, k);
    }
  }

  lemma {:induction false} CountBelow(n: nat)
    ensures |Below(n)| == n
  {
    if n > 0 {
      CountBelow(n - 1);
      InBelow(n - 1, n - 1);
    }
  }

  lemma {:induction false} MatchNames(exact: Lane -> seq<string>, sources: seq<Source>, lane: Lane)
    requires Match(exact, sources, lane) < |sources|
    ensures Identifies(sources[Match(exact, sources, lane)], exact(lane))
    decreases |sources|
  {
    if !Identifies(sources[0], exact(lane)) {
      MatchNames(exact, sources[1..], lane);
    }
  }

  lemma SameSizeIsSame<T>(s: set<T>, t: set<T>)
    requires s <= t && |s| == |t|
    ensures s == t
  {
    assert t == s + (t - s);
  }

  /** An accepted source set binds each output once and nothing else: every source is some output's artifact. */
  lemma EverySourceIsAnOutput(exact: Lane -> seq<string>, r1: seq<Lane>, sources: seq<Source>, k: nat) returns (i: nat)
    requires SourcesOk(exact, r1, sources) && k < |sources|
    ensures i < |r1| && Match(exact, sources, r1[i]) == k && Identifies(sources[k], exact(r1[i]))
  {
    var matched: seq<nat> := seq(|r1|, n requires 0 <= n < |r1| => Match(exact, sources, r1[n]));
    CountedOnce(matched);
    CountBelow(|sources|);
    forall x | x in ElementsOf(matched) ensures x in Below(|sources|) {
      InBelow(|sources|, x);
    }
    SameSizeIsSame(ElementsOf(matched), Below(|sources|));
    InBelow(|sources|, k);
    i :| 0 <= i < |matched| && matched[i] == k;
    MatchNames(exact, sources, r1[i]);
  }
}
