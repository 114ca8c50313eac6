/** Launch admission: every start takes the launch lock, scans the run directories, and creates a run only when none is
    active, while workers advance runs and observers read them without any lock. */
module SingleActive {
  import opened Base
  import opened StoreModel
  import StoreProgress

  /** A run directory: without a manifest yet, with one that cannot be trusted, or published with a status. */
  datatype Entry = Partial | Broken | Published(status: Status)

  /** How far the start that holds the launch lock has come. */
  datatype Launch =
    | Scanning(visited: set<string>, sawActive: bool)
    | Clear
    | Making(id: string)

  datatype State = State(runs: map<string, Entry>, launch: Option<Launch>)

  datatype Step =
    | Lock                          // a start takes the launch lock; any other is refused while it is held
    | Visit(id: string)             // the scan reads one more directory
    | EndScan                       // ... and decides when it has read them all
    | MakeDirectory(id: string)     // a fresh directory, without its manifest
    | Publish                       // the first manifest, status queued
    | Discard                       // creation failed: the unpublished directory is removed
    | Unlock                        // the start ends, or its process dies
    | Advance(id: string, to: Status)  // a worker or a cancel request moves a run
    | Observe(id: string)           // an observer reads a run

  predicate Active(e: Entry)
  {
    e.Published? && !Terminal(e.status)
  }

  function Do(s: State, x: Step): State
  {
    match x
    case Lock => if s.launch.None? then s.(launch := Some(Scanning({}, false))) else s
    case Visit(id) =>
      if s.launch.Some? && s.launch.value.Scanning? && id in s.runs && id !in s.launch.value.visited then
        // a directory that cannot be trusted ends the start
        if !s.runs[id].Published? then s.(launch := None)
        else
          var l := s.launch.value;
          s.(launch := Some(Scanning(l.visited + {id}, l.sawActive || Active(s.runs[id]))))
      else s
    case EndScan =>
      if s.launch.Some? && s.launch.value.Scanning? && s.launch.value.visited == s.runs.Keys then
        s.(launch := if s.launch.value.sawActive then None else Some(Clear))
      else s
    case MakeDirectory(id) =>
      if s.launch == Some(Clear) && id !in s.runs then
        s.(runs := s.runs[id := Partial], launch := Some(Making(id)))
      else s
    case Publish =>
      if s.launch.Some? && s.launch.value.Making? && s.launch.value.id in s.runs && s.runs[s.launch.value.id].Partial? then
        s.(runs := s.runs[s.launch.value.id := Published(Queued)])
      else s
    case Discard =>
      if s.launch.Some? && s.launch.value.Making? && s.launch.value.id in s.runs && s.runs[s.launch.value.id].Partial? then
        State(map id | id in s.runs && id != s.launch.value.id :: s.runs[id], None)
      else s
    case Unlock => s.(launch := None)
    case Advance(id, to) =>
      if id in s.runs && Active(s.runs[id]) then s.(runs := s.runs[id := Published(to)]) else s
    case Observe(_) => s
  }

  function Run(runs: map<string, Entry>, steps: seq<Step>): State
  {
    if steps == [] then State(runs, None) else Do(Run(runs, steps[..|steps| - 1]), steps[|steps| - 1])
  }

  predicate AtMostOne(runs: map<string, Entry>)
  {
    forall a, b :: a in runs && b in runs && Active(runs[a]) && Active(runs[b]) ==> a == b
  }

  /** Every directory is published and finished. */
  predicate AllFinished(runs: map<string, Entry>)
  {
    forall id :: id in runs ==> runs[id].Published? && Terminal(runs[id].status)
  }

  /** A scan that has seen nothing active so far has read finished runs only, and they stay finished; while a run is
      being made, it is the only one that can be active. */
  ghost predicate Inv(s: State)
  {
    && AtMostOne(s.runs)
    && (s.launch.Some? ==>
          match s.launch.value
          case Scanning(visited, sawActive) =>
            && visited <= s.runs.Keys
            && (!sawActive ==> forall id :: id in visited ==> s.runs[id].Published? && Terminal(s.runs[id].status))
          case Clear => AllFinished(s.runs)
          case Making(id) =>
            forall other :: other in s.runs && other != id ==> s.runs[other].Published? && Terminal(s.runs[other].status))
  }

  lemma StepKeeps(s: State, x: Step)
    requires Inv(s)
    ensures Inv(Do(s, x))
  {
  }

  /** In every interleaving of starts, workers, observers and dying processes at most one run is active. */
  lemma {:induction false} AtMostOneActive(runs: map<string, Entry>, steps: seq<Step>)
    requires AtMostOne(runs)
    ensures Inv(Run(runs, steps)) && AtMostOne(Run(runs, steps).runs)
    decreases |steps|
  {
    if steps != [] {
      AtMostOneActive(runs, steps[..|steps| - 1]);
      StepKeeps(Run(runs, steps[..|steps| - 1]), steps[|steps| - 1]);
    }
  }

  /** A scan can be stale, but only on the safe side: what it saw finished is finished, so when it finds nothing active
      there is nothing active, at that moment and until the launch lock is released or a run is published under it. */
  lemma ClearScanIsTrue(runs: map<string, Entry>, steps: seq<Step>)
    requires AtMostOne(runs) && Run(runs, steps).launch == Some(Clear)
    ensures AllFinished(Run(runs, steps).runs)
  {
    AtMostOneActive(runs, steps);
  }

  /** Fail closed: a directory without a trustworthy manifest is not cleared by any scan, so no start creates a run
      beside it. */
  lemma UntrustedBlocksEveryStart(runs: map<string, Entry>, steps: seq<Step>, id: string)
    requires AtMostOne(runs) && id in Run(runs, steps).runs && !Run(runs, steps).runs[id].Published?
    ensures Run(runs, steps).launch != Some(Clear)
    ensures Run(runs, steps).launch.Some? && Run(runs, steps).launch.value.Making? ==>
              Run(runs, steps).launch.value.id == id
  {
    AtMostOneActive(runs, steps);
  }

  // ---- the scan as the code runs it ------------------------------------------------------------

  /** One directory entry: its name when it is a canonical run id, and what stands in it. */
  datatype Listing = Listing(isDirectory: bool, id: Option<string>, entry: Entry)

  predicate Trusted(l: Listing)
  {
    l.isDirectory && l.id.Some? && l.entry.Published?
  }

  function ActiveOf(ls: seq<Listing>): seq<string>
  {
    if ls == [] then []
    else
      var l := ls[|ls| - 1];
      ActiveOf(ls[..|ls| - 1]) + (if l.id.Some? && Active(l.entry) then [l.id.value] else [])
  }

  function ScanSpec(ls: seq<Listing>): Result<seq<string>>
  {
    if forall i :: 0 <= i < |ls| ==> Trusted(ls[i]) then Ok(ActiveOf(ls)) else Err
  }

  method ActiveManifests(ls: seq<Listing>) returns (r: Result<seq<string>>)
    ensures r == ScanSpec(ls)
  {
    var manifests: seq<string> := [];
    for n := 0 to |ls|
      invariant manifests == ActiveOf(ls[..n])
      invariant forall i :: 0 <= i < n ==> Trusted(ls[i])
    {
      assert ls[..n + 1][..n] == ls[..n];
      if !Trusted(ls[n]) {
        return Err;
      }
      if Active(ls[n].entry) {
        manifests := manifests + [ls[n].id.value];
      }
    }
    assert ls[..|ls|] == ls;
    return Ok(manifests);
  }

  /** The listing names every run of the store once. */
  ghost predicate Lists(runs: map<string, Entry>, ls: seq<Listing>)
  {
    && (forall i :: 0 <= i < |ls| ==> ls[i].isDirectory && ls[i].id.Some? && ls[i].id.value in runs
                                      && runs[ls[i].id.value] == ls[i].entry)
    && (forall i, j :: 0 <= i < j < |ls| ==> ls[i].id != ls[j].id)
    && (forall id :: id in runs ==> exists i :: 0 <= i < |ls| && ls[i].id == Some(id))
  }

  function Visits(ls: seq<Listing>): seq<Step>
  {
    if ls == [] then []
    else Visits(ls[..|ls| - 1]) + (if ls[|ls| - 1].id.Some? then [Visit(ls[|ls| - 1].id.value)] else [])
  }

  function DoAll(s: State, xs: seq<Step>): State
  {
    if xs == [] then s else Do(DoAll(s, xs[..|xs| - 1]), xs[|xs| - 1])
  }

  function Named(ls: seq<Listing>): set<string>
  {
    if ls == [] then {}
    else Named(ls[..|ls| - 1]) + (if ls[|ls| - 1].id.Some? then {ls[|ls| - 1].id.value} else {})
  }

  lemma {:induction false} NamedMembers(ls: seq<Listing>, id: string)
    ensures id in Named(ls) <==> exists i :: 0 <= i < |ls| && ls[i].id == Some(id)
    decreases |ls|
  {
    if ls != [] {
      var before, l := ls[..|ls| - 1], ls[|ls| - 1];
      NamedMembers(before, id);
      assert ls == before + [l];
      if id in Named(before) {
        var i :| 0 <= i < |before| && before[i].id == Some(id);
        assert ls[i].id == Some(id);
      }
      if l.id == Some(id) {
        assert ls[|ls| - 1].id == Some(id);
      }
    }
  }

  function ScanStart(runs: map<string, Entry>): State
  {
    State(runs, Some(Scanning({}, false)))
  }

  /** After visiting these directories the scan stands where their listing says. */
  ghost predicate ScanStands(runs: map<string, Entry>, ls: seq<Listing>)
  {
    DoAll(ScanStart(runs), Visits(ls)) ==
    State(runs, if ScanSpec(ls).Err? then None else Some(Scanning(Named(ls), ActiveOf(ls) != [])))
  }

  lemma ListingGrows(ls: seq<Listing>, l: Listing)
    requires l.id.Some?
    ensures Visits(ls + [l]) == Visits(ls) + [Visit(l.id.value)]
    ensures Named(ls + [l]) == Named(ls) + {l.id.value}
    ensures ActiveOf(ls + [l]) == ActiveOf(ls) + (if Active(l.entry) then [l.id.value] else [])
    ensures ScanSpec(ls + [l]).Ok? <==> ScanSpec(ls).Ok? && Trusted(l)
  {
    var whole := ls + [l];
    assert whole[..|ls|] == ls && whole[|ls|] == l;
    assert forall i :: 0 <= i < |ls| ==> whole[i] == ls[i];
  }

  lemma DoOneMore(s: State, xs: seq<Step>, x: Step)
    ensures DoAll(s, xs + [x]) == Do(DoAll(s, xs), x)
  {
    assert (xs + [x])[..|xs|] == xs;
  }

  lemma VisitStands(runs: map<string, Entry>, ls: seq<Listing>, l: Listing)
    requires ScanStands(runs, ls) && l.isDirectory && l.id.Some? && l.id.value in runs && runs[l.id.value] == l.entry
    requires l.id.value !in Named(ls)
    ensures ScanStands(runs, ls + [l])
  {
    ListingGrows(ls, l);
    DoOneMore(ScanStart(runs), Visits(ls), Visit(l.id.value));
  }

  lemma {:induction false} ScanSoFar(runs: map<string, Entry>, ls: seq<Listing>, n: nat)
    requires Lists(runs, ls) && n <= |ls|
    ensures ScanStands(runs, ls[..n])
  {
    if n > 0 {
      ScanSoFar(runs, ls, n - 1);
      NamedMembers(ls[..n - 1], ls[n - 1].id.value);
      VisitStands(runs, ls[..n - 1], ls[n - 1]);
      assert ls[..n - 1] + [ls[n - 1]] == ls[..n];
    }
  }

  /** A scan that nothing disturbs clears the launch exactly when it trusts every directory and finds none active. */
  lemma ScanDecides(runs: map<string, Entry>, ls: seq<Listing>)
    requires Lists(runs, ls)
    ensures var s := DoAll(ScanStart(runs), Visits(ls));
            Do(s, EndScan).launch == Some(Clear) <==> ScanSpec(ls) == Ok([])
  {
    ScanSoFar(runs, ls, |ls|);
    assert ls[..|ls|] == ls;
    forall id ensures id in Named(ls) <==> id in runs.Keys {
      NamedMembers(ls, id);
    }
    assert Named(ls) == runs.Keys;
  }

  /** A scan finds exactly the runs whose status is no end; one entry that is no directory, has no run id or no trustworthy
      manifest refuses it. */
  lemma {:induction false} ScanFindsExactly(ls: seq<Listing>, id: string)
    ensures ScanSpec(ls).Ok? <==>
            forall i :: 0 <= i < |ls| ==> ls[i].isDirectory && ls[i].id.Some? && ls[i].entry.Published?
    ensures id in ActiveOf(ls) <==> Runs(ls, id)
    decreases |ls|
  {
    if ls != [] {
      var before, l := ls[..|ls| - 1], ls[|ls| - 1];
      ScanFindsExactly(before, id);
      if l.entry.Published? {
        StoreProgress.EndsAndStops(l.entry.status);
      }
      hide Terminal, StoreProgress.ENDS;
      assert Runs(ls, id) <==> Runs(before, id) || RunsHere(l, id) by {
        assert forall i :: 0 <= i < |before| ==> ls[i] == before[i];
      }
    }
  }

  ghost predicate RunsHere(l: Listing, id: string)
  {
    l.id == Some(id) && l.entry.Published? && l.entry.status !in StoreProgress.ENDS
  }

  ghost predicate Runs(ls: seq<Listing>, id: string)
  {
    exists i :: 0 <= i < |ls| && RunsHere(ls[i], id)
  }

  /** A start that nothing disturbs, over a store whose runs have all ended, publishes its fresh run as queued; over any
      other it changes no run. */
  lemma StartPublishes(runs: map<string, Entry>, ls: seq<Listing>, id: string)
    requires Lists(runs, ls) && id !in runs
    ensures var scanned := Do(DoAll(Do(State(runs, None), Lock), Visits(ls)), EndScan);
            var after := Do(Do(Do(scanned, MakeDirectory(id)), Publish), Unlock);
            after == State(if forall other :: other in runs ==>
                                runs[other].Published? && runs[other].status in StoreProgress.ENDS
                           then runs[id := Published(Queued)] else runs, None)
  {
    var begun := DoAll(ScanStart(runs), Visits(ls));
    ScanDecides(runs, ls);
    ScanSoFar(runs, ls, |ls|);
    assert ls[..|ls|] == ls;
    EmptyMeansEnded(runs, ls);
    hide Visits, ScanSpec, ActiveOf, Named, Lists, StoreProgress.ENDS, DoAll;
    assert begun.runs == runs && (begun.launch.None? || begun.launch.value.Scanning?);
    ScanEnds(begun);
    hide Do;
    if Do(begun, EndScan).launch == Some(Clear) {
      Creates(runs, id);
    } else {
      CreatesNothing(Do(begun, EndScan), id);
    }
  }

  lemma ScanEnds(s: State)
    requires s.launch.None? || s.launch.value.Scanning?
    ensures var after := Do(s, EndScan);
            after.runs == s.runs && (after.launch.None? || after.launch.value.Scanning? || after.launch.value.Clear?)
  {
  }

  lemma Creates(runs: map<string, Entry>, id: string)
    requires id !in runs
    ensures Do(Do(Do(State(runs, Some(Clear)), MakeDirectory(id)), Publish), Unlock) ==
            State(runs[id := Published(Queued)], None)
  {
    assert runs[id := Partial][id := Published(Queued)] == runs[id := Published(Queued)];
  }

  lemma CreatesNothing(s: State, id: string)
    requires s.launch.None? || s.launch.value.Scanning?
    ensures Do(Do(Do(s, MakeDirectory(id)), Publish), Unlock) == State(s.runs, None)
  {
  }

  lemma EmptyMeansEnded(runs: map<string, Entry>, ls: seq<Listing>)
    requires Lists(runs, ls)
    ensures ScanSpec(ls) == Ok([]) <==>
            forall other :: other in runs ==> runs[other].Published? && runs[other].status in StoreProgress.ENDS
  {
    forall id ensures id in ActiveOf(ls) <==> Runs(ls, id) {
      ScanFindsExactly(ls, id);
    }
    ScanFindsExactly(ls, "");
    if ScanSpec(ls) == Ok([]) {
      forall other | other in runs ensures runs[other].Published? && runs[other].status in StoreProgress.ENDS {
        var i :| 0 <= i < |ls| && ls[i].id == Some(other);
        assert RunsHere(ls[i], other) ==> Runs(ls, other);
      }
    }
    if forall other :: other in runs ==> runs[other].Published? && runs[other].status in StoreProgress.ENDS {
      if ActiveOf(ls) != [] {
        assert ActiveOf(ls)[0] in ActiveOf(ls);
      }
    }
  }
}
