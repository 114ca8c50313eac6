# QUINTE in Dafny

QUINTE drives multi-agent reviews through durable state machines. This project models the parts of it where a mistake
would be silent: crash-consistent journals, hash-chained ledgers, cancellation races, a review verdict, an anonymised
packet, an unattended supervisor, and hand-written scanners. Imperative code keeps its form: files and fields are
class fields changed by methods, loops are loops, and each method is proved equal to a function of its inputs or of
the old state. The lemmas are then about those functions, over all inputs, all runs and all interleavings.

Durable files are fields. Replacing a file is one atomic step, an append may be cut anywhere, and power may be lost
between any two steps, inside recovery too: every operation takes the number of durable writes that complete.
Digests are an uninterpreted function, so a fact about a digest reads "it holds, or a collision is exhibited".

Modules:

- `Base`, `Chars`, `Sorting`, `Utf8`: options and results, character classes, Rust-ordered sorting, RFC 3629.
- `Json`, `Canonical`, `CanonicalTheorems`: the strict parser, the canonical writer, domain-separated digests. Keys sort
  in Rust string order and string escapes follow section 7 of RFC 8259; the duplicate rule is section 2.3 of RFC 7493.
- `CanonicalOrder`: what canonical text looks like: the order of names by code points, and its spelling.
- `FinanceModel`, `FinanceLedger`, `FinanceReplay`, `FinanceJournal`, `FinanceLifecycle`, `FinanceEvidence`: the finance
  run. `FinanceProgress` and `FinanceRecovery`: which transitions and recoveries are carried out, and what they leave.
- `FinanceReview`, `FinanceReviewTheorems`, `FinanceR2`, `FinanceR2Theorems`: the verdict and the second-round corpus.
  `FinanceReviewDetails` and `FinanceR2Contents`: the same, stated on the fields of the lanes.
- `StoreModel`, `RunLog`, `StoreJournal`, `StoreTheorems`, `SelfTransitions`, `StoreReaders`, `ReaderTheorems`: the
  generic run store. `StoreProgress` and `LogReading`: which requests are carried out, and what any log reads as.
- `Cancellation`, `CancellationProgress`, `SingleActive`, `CountingGate`: the concurrent protocols, as state machines over
  atomic steps.
- `Supervisor`, `SupervisorTheorems`, `SupervisorDecisions`: the one-shot campaign supervisor.
- `KeyParser`, `KeyCodes`, `BlockScanner`, `BlockTheorems`, `BlockKeys`, `TextRepair`, `TextRepairTheorems`,
  `RepairClasses`, `StrictText`, `EscapeTheorems`: the scanners.
- `Witnesses`: the assumptions on environment and codec can be met.

## Findings

Where the code does less than one would hope, it is kept as it is and the exact extent is proved.

- Recovery of a finance transition refuses, for a terminal target, unless the caller declared the phase it leaves:
  the event builder does not check it (`src/finance.rs:1877-1880`). `RecoveryIsExact` gives the exact condition under
  which recovery completes; `UndeclaredPhaseExample` is a target that obeys the other rules, is journaled, and whose
  recovery refuses after a loss of power at any moment.
- Finishing a finance run takes two transitions of four writes each. Power lost from the first write to the end of the
  first transition strands the run: recovery at best commits `merging`, which cannot be advanced
  (`src/finance.rs:2493`). `PowerLossStrands` says for every number of completed writes what every later advance does,
  and `FinishingResumesExactly` that some sequence of advances completes the run if and only if power was lost before
  the first write, or after the second record became durable with its append whole (and, unless it stopped between
  append and replacement, without a digest collision of the two manifests).
- Advancing a second round whose move to `merging` is accepted and whose move to `completed` is not leaves the run at
  `merging`, with no loss of power: `SecondRoundAdvances`.
- Evidence does not only grow by the rules of counts and phases: a run can obey them all and exchange an artifact,
  `ExchangedArtifactIsRefused`. `EvidenceOnlyGrows`: the artifact lists of an executed run grow if and only if no
  transition dropped or exchanged an accepted artifact, which is also when the stored ledger equals the one rebuilt from
  the final manifest (`ReplayAcceptsExactlyGrowth`). For a run driven by advancing that depends on the finaliser alone:
  its manifest must bind the artifacts that the second round already held, `DrivenEvidenceGrows`, and exactly then the
  lifecycle leaves the ledger that the finaliser rebuilds, `DormantEqualsOneShot`.
- A run-store transition to the status the run already has is taken by recovery for one that never started
  (`src/store.rs:523-526`), so its event is appended by the transition itself or never. `SelfTransitionLostExactly`:
  it is committed and then forgotten if and only if its manifest was replaced and its event not appended, whether power
  was lost in between or the event failed its schema (`src/store.rs:259-276`); a second cancel is such a transition.
  `SelfTransitionMayBeLost` gives the cases. Without lock-free readers every change of status is recorded exactly once
  when a load goes through: `ExactlyOnce`.
- Loading recovers without the manifest lock (`src/store.rs:131-140`), so a reader can take away the record of a change
  under way. `EventIsLostExactly`: a committed change of status that has no event never gets one if and only if a
  process without the lock removed its record, its writer lost power between the manifest and the event, and no reader
  is left that has read the record beside the new manifest. `ReaderMayLoseAChange` is such a schedule. Even with such
  readers nothing is logged twice and nothing that was not committed: `AtMostOnce`.
- A worker that dies between starting a child and registering it leaves an orphan that no cancel snapshot shows, and
  nothing else does: `SnapshotMissesExactly`, with a run in `OrphanExample`.
- The reason `InvalidNotApplicable` is shadowed by the arm before it and never given: `NeverInvalidNotApplicable`.
- The bare-key detector misses a key whose colon follows a vertical tab, which the repair quotes:
  `VerticalTabHidesKey`. The two agree if and only if the text has no bare key, or one with nothing but ASCII white
  space before its colon: `DetectorAgrees`.
- Control escaping covers DEL and the C1 controls as well, more than its comment says: `DelIsEscaped`.
- Some bytes stop the key parser for good: an ESC inside a paste that is no front of the end marker, and in either mode
  bytes that are no front of a UTF-8 encoding. `StuckIsExact` and `StreamStopsExactly` say that these are all;
  `StuckForGood` covers the timeout too, and `StuckExamples` gives two inputs.

## Assumptions

They are parameters or hypotheses of the theorems that need them. The first two can be met: `FaithfulEnvironment` and
`ValidCodec` in `Witnesses` give an environment and a codec.

- `FinanceModel.Env.Faithful`: serializing to a JSON value and to manifest bytes loses nothing and parses back, and the
  JSON value of an event is duplicate-free. Schema and artifact checks are arbitrary predicates.
- `StoreModel.Codec.Valid`: an event prints as one nonempty line that parses back, and no proper piece of it parses.
- `StoreTheorems.Disciplined`: transition ids are fresh (they are UUIDs), in-place saves keep the status on disk, a run
  begins with its saved manifest, and nobody else touches the run while an operation is under way.
- `StoreReaders`: transition ids are fresh, in-place saves take the manifest lock and keep the status on disk, and a run
  begins with its saved manifest. The two theorems about events that can still come assume that the event schema
  accepts them.
- `Cancellation`: finalisers check and publish, and lanes check and spawn, while holding `.active-pids.lock`.
- `SupervisorTheorems.SameCampaign`: for `OwnStatesValidate`, `NoSpuriousHalt`, `ActiveRunIsDecided` and
  `NextEntryIsDecided` only, all invocations share settings and plan. The theorems on launches and on what earns an
  acceptance need no assumption.
- `StoreProgress.RouteIsFollowed` and `FinanceProgress.LifecycleCompletes` are about schemas and checks that accept;
  `RequestIsDecided` and `TransitionIsDecided` say what happens under any manifest schema and artifact check.
- `SingleActive`: all launches take the launch lock, and a finished run stays finished, which is
  `StoreTheorems.TerminalIsAbsorbing`.

## Model

| member | source | states |
|---|---|---|
| Json.StrictParseIsUnique | src/finance.rs:3968-4051 | whatever the strict parser accepts is duplicate-free at every depth |
| CanonicalTheorems.Write | src/finance.rs:4053-4099 | the recursive writer, with its key sorting and lookups, appends exactly the canonical text of the value |
| CanonicalTheorems.ParserInvertsWriter | src/finance.rs:3968-4099 | strictly parsing the canonical text of a duplicate-free value gives it back with members in order |
| CanonicalTheorems.CanonicalIsInjective | src/finance.rs:4053-4099 | duplicate-free values have equal canonical texts exactly when they are equal up to member order at every depth |
| CanonicalTheorems.CanonicalBytesAreInjective | src/finance.rs:4053-4099 | the same for the UTF-8 bytes |
| CanonicalTheorems.DigestSeparates | src/finance.rs:4101-4110 | digests agree exactly for the same domain and equivalent values, or a collision of the framed preimages is exhibited |
| CanonicalOrder.OrderIsByCodePoints | src/finance.rs:4081-4082 | one name sorts before another exactly when it is a proper prefix of it, or has the smaller code point at the first place where they differ |
| CanonicalOrder.CanonicalTextIsInOrder | src/finance.rs:4053-4099 | canonical text of a duplicate-free value reads back as that value up to member order, with consecutive names ascending by code points in every object at every depth |
| CanonicalOrder.CharacterText | src/finance.rs:4053-4099 | one character is written as its short escape, as lower-case `\u00xx` below a space, or as itself |
| CanonicalOrder.StringText | src/finance.rs:4053-4099 | the text of a joined string is the texts of its parts joined inside one pair of quotation marks |
| CanonicalOrder.ArrayText | src/finance.rs:4053-4099 | one more item adds its text, after a comma unless it is the first, and nothing else |
| CanonicalOrder.ObjectText | src/finance.rs:4053-4099 | a member whose name comes last adds name, colon and value at the end, after a comma unless it is the first |
| CanonicalOrder.DigestIsTaken | src/finance.rs:4101-4110 | the digest is of the domain, a zero character and the canonical text, for nonempty ASCII domains without a zero and no others |
| FinanceLedger.ReadFinanceLedger | src/finance.rs:1721-1768 | the line-by-line reader computes the ledger the specification accepts, or refuses |
| FinanceLedger.ReaderAcceptsChains | src/finance.rs:1721-1768 | every well-linked chain is read back as its events, lines and digests |
| FinanceLedger.ReaderIsExact | src/finance.rs:1721-1768 | the reader accepts exactly the texts of well-linked chains |
| FinanceLedger.TornLineIsRefused | src/finance.rs:1721-1768 | a chain followed by a proper piece of a line is refused |
| FinanceLedger.TailDeterminesHistory | src/finance.rs:1702-1768 | two accepted ledgers with the same tail checkpoint are identical, or walking back finds a digest collision |
| FinanceReplay.ExpectedEventLedger | src/finance.rs:1591-1690 | the rebuilt ledger and checkpoint are those of executing the stages that the final manifest implies |
| FinanceReplay.ExecutionIsChained | src/finance.rs:1515-1582 | executing any run yields a well-linked chain whose tail the last manifest checkpoints |
| FinanceReplay.RankFalls | src/finance.rs:855-876 | along a legal run a phase rank strictly falls, so no phase is revisited and there are at most four events |
| FinanceReplay.EvidenceOnlyGrows | src/finance.rs:970-981 | for an executed run that obeys every rule, each event's artifact list is a prefix of the next one's exactly when no transition dropped or exchanged an accepted artifact, and exactly when the replay check accepts |
| FinanceEvidence.DrivenEvidenceGrows | src/finance.rs:2280-2494 | along a run driven by advancing the lists grow exactly when the finaliser's manifest binds the artifacts that the second round already held |
| FinanceReplay.ReplayRefinesExecution | src/finance.rs:1591-1690 | for every legal run, failed and cancelled ones included, the ledger rebuilt from the last manifest is the one appended step by step |
| FinanceReplay.ReplayAcceptsExactlyGrowth | src/finance.rs:1692-1700 | the replay check accepts a run's ledger exactly when its transitions dropped or exchanged no artifact |
| FinanceReplay.ExchangedArtifactIsRefused | src/finance.rs:1692-1700 | a run that obeys every rule but exchanges its packets: its lists do not grow, and the replay check refuses it |
| FinanceReplay.RelocationKeepsLedger | src/finance.rs:915-931 | references do not enter the ledger: relocating artifacts leaves the rebuilt ledger unchanged |
| FinanceReplay.StagedEqualsOneShot | src/finance.rs:3706-3724 | a run that obeys every rule, loses nothing and ends in a manifest with every reference moved below the terminal directory leaves the ledger and checkpoint rebuilt from that manifest without the move |
| FinanceEvidence.DormantEqualsOneShot | src/finance.rs:3706-3724 | when advancing finishes a run with the finaliser's manifest, the stored ledger and checkpoint are those the finaliser rebuilds from it exactly when it binds the artifacts already held |
| FinanceJournal.FinanceState.TransitionWithPending | src/finance.rs:1945-2022 | refuses without a trace, or performs record, append, replace, drop in order up to the power loss |
| FinanceJournal.FinanceState.ReconcilePending | src/finance.rs:2024-2081 | refuses without a trace, or performs exactly the writes still missing up to the power loss |
| FinanceJournal.CrashLeaves | src/finance.rs:1945-2022 | after any number of completed writes the files are the old run, the new run, or interrupted at a known stage |
| FinanceJournal.RecordValidates | src/finance.rs:1833-1943 | a written record validates exactly when the caller declared the phase a terminal target leaves |
| FinanceJournal.RecoveryIsExact | src/finance.rs:2024-2081 | recovery goes through exactly when the append was not torn, the phase was declared and no collision confuses the manifests; it plans exactly the missing writes |
| FinanceJournal.UndeclaredPhaseIsRefused | src/finance.rs:1877-1880 | a terminal target with another declared phase is journaled, and recovery refuses wherever power is lost in its transition |
| FinanceJournal.UndeclaredPhaseExample | src/finance.rs:1877-1880 | such a run and target, obeying the count and termination rules |
| FinanceJournal.RecoveryLeaves | src/finance.rs:2024-2081 | a recovery, itself interrupted or not, commits the transition or leaves it in flight |
| FinanceJournal.EveryRunIsConsistent | src/finance.rs:1945-2081 | over any sequence of transitions, recoveries and crashes the files are those of a committed run or of one with a single interrupted transition |
| FinanceJournal.ReconcileIdles | src/finance.rs:2024-2081 | corollary: a reconcile never touches a settled run |
| FinanceJournal.ReconcileSettles | src/finance.rs:2024-2081 | a finished reconcile leaves manifest and ledger both at the target, or refuses, under the exact condition, and changes no file |
| FinanceJournal.SettledRunsReplay | src/finance.rs:1692-1700 | whatever crashes a settled run has been through, its ledger is the one rebuilt from its manifest exactly when evidence only grew |
| FinanceRecovery.RecordIsChecked | src/finance.rs:1833-1943 | for any record, event and manifest: the record is accepted as theirs exactly when its digests, bytes, bindings, checkpoint, chain and operation all agree with them |
| FinanceRecovery.RecoveryIsDecided | src/finance.rs:2024-2081 | from any disk, sound or not, recovery is refused untouched, or writes exactly what is missing of line and manifest and then drops the record, by digests alone |
| FinanceProgress.TableIsSteps | src/finance.rs:855-876 | the transition table is the listed set of eleven steps |
| FinanceProgress.TransitionIsDecided | src/finance.rs:1945-2022 | a transition of a settled run is carried out exactly when its step is listed, it is of the same run, and the schemas accept what it writes; then manifest, line and checkpoint are as given field by field |
| FinanceProgress.CreationIsDecided | src/finance.rs:1945-2022 | the same for the creation of a run on empty files |
| FinanceProgress.RulesOfManifest | src/finance.rs:1006-1071 | the count and termination rules, as a table of sizes and as conditions on the termination's fields |
| FinanceLifecycle.DormantAdvance | src/finance.rs:2280-2494 | recover, check manifest and ledger, then journal the next transitions, each up to the power loss |
| FinanceLifecycle.AdvanceKeeps | src/finance.rs:2280-2494 | advancing, wherever it stops, keeps the files consistent |
| FinanceLifecycle.NothingToAdvance | src/finance.rs:2486-2493 | a run at merging, failed, cancelled or preflight is refused and not touched |
| FinanceLifecycle.PowerLossStrands | src/finance.rs:2478-2493 | for every number of writes completed while a run is being finished: what is left, and what every later advance with power to recover then does |
| FinanceLifecycle.FinishingResumesExactly | src/finance.rs:2478-2493 | later advances can leave some completed run exactly when power was lost before the first write, or after the second record was durable and its transition can be recovered; one advance with full power then completes this run |
| FinanceProgress.FinishedRunAnswers | src/finance.rs:2280-2494 | advancing a completed or degraded run answers by its checks and touches nothing |
| FinanceProgress.FirstRoundIsRefused | src/finance.rs:2280-2394 | a run in its first round is refused untouched without a finished round, when its graph check fails, or when the move does not join it |
| FinanceProgress.FirstRoundAdvances | src/finance.rs:2390-2394 | otherwise the manifest on disk has the round's outputs as R1 outputs, its packets as R2 packets and every other artifact as before, and the appended event lists policy, invocation, R1 packets, R2 packets and R1 outputs in this order |
| FinanceProgress.SecondRoundAdvances | src/finance.rs:2478-2494 | a run in its second round is refused untouched, left at merging, or completed, each exactly under its condition, and what merging and completed bind is given field by field |
| FinanceProgress.FinishingIsExact | src/finance.rs:2478-2494 | the hypothesis of the two theorems on finishing holds exactly when there is a finaliser's manifest, the checks pass and both last transitions join |
| FinanceProgress.LifecycleCompletes | src/finance.rs:2280-2494 | where every check accepts, a run is created, advanced twice and ends at completed, with exactly four chained lines whose events list what each manifest binds |
| FinanceReview.ValidateLaneClaimsAndEvidence | src/finance.rs:580-724 | accepts exactly the outputs whose decisions, residuals and citations obey every rule |
| FinanceReview.ValidateSchoolOutputSet | src/finance.rs:2836-2859 | accepts exactly one output per school, of this run and phase |
| FinanceReview.ConservativeFold | src/finance.rs:2879-2955 | the nested loops compute the fold cell by cell, or refuse when some cell does |
| FinanceReview.PublicationPosture | src/finance.rs:2957-3008 | the reasons are those of the inputs, and the posture abstains exactly when there is one |
| FinanceReview.Review | src/finance.rs:3535-3583 | validation of both rounds, fold, collection of residuals and invalidations, posture |
| FinanceReviewDetails.LaneIsExact | src/finance.rs:580-724 | a lane is accepted exactly when it obeys every rule on citations, closures, residuals, coverage and order, stated on its fields |
| FinanceReviewDetails.RoundIsExact | src/finance.rs:2836-2859 | a round is accepted exactly when it has five lanes of this version, run and phase and a lane of every school |
| FinanceReviewDetails.FoldedShowsWorst | src/finance.rs:2861-2955 | a folded cell shows the worst of the two decisions that stand unresolved, and blocks exactly when one does and the school takes part |
| FinanceReviewDetails.ReasonsAreExact | src/finance.rs:2957-3008 | each reason is given exactly under its own condition on lanes, claims, evidence and primary authority, and publication follows exactly when none is |
| FinanceReviewTheorems.FoldIsCellwise | src/finance.rs:2895-2954 | the fold succeeds exactly when every cell does and gives no reason exactly when every cell is quiet |
| FinanceReviewTheorems.VerdictExists | src/finance.rs:2879-2955 | a verdict is reached exactly when both rounds are valid and schools answer not_applicable exactly where they do not apply |
| FinanceReviewTheorems.PostureIsExact | src/finance.rs:2957-3008 | PUBLISH_BOUNDED exactly when authorities are good, every blocking decision of an applicable school in either round is closed, and nothing is left open |
| FinanceReviewTheorems.NeverInvalidNotApplicable | src/finance.rs:2977-2991 | the shadowed reason is never given |
| FinanceReviewTheorems.WorseningNeverPublishes | src/finance.rs:2861-3008 | worsening any lane of either round never turns ABSTAIN into publication |
| FinanceR2.ResidualsByClaim | src/finance.rs:2718-2736 | the map built residual by residual holds each claim's codes in order |
| FinanceR2.ProjectOutput | src/finance.rs:2717-2760 | an output is projected to sorted anonymous decisions, or refused for an identifying reference |
| FinanceR2.BuildCorpus | src/finance.rs:2716-2782 | projections sorted by digest key and numbered, behind the claim texts |
| FinanceR2.ValidateSources | src/finance.rs:2664-2710 | accepts exactly five sources matched one to one by the outputs, no two alike |
| FinanceR2Theorems.EverySourceIsAnOutput | src/finance.rs:2664-2697 | in an accepted source set every source is the artifact of some output |
| FinanceR2Theorems.KeyDeterminesContribution | src/finance.rs:2761-2768 | equal sort keys mean equal contributions, or a digest collision is exhibited |
| FinanceR2Theorems.ProjectIgnoresOrder | src/finance.rs:2717-2760 | a projection depends on the contents of a lane only, not on their order nor on its school |
| FinanceR2Theorems.CorpusIsOfMultiset | src/finance.rs:2716-2782 | without a key collision the corpus is a function of the multiset of projections |
| FinanceR2Theorems.CorpusIsAnonymous | src/finance.rs:2651-2782 | permuting outputs, reordering inside them or reassigning their contents among schools leaves the corpus unchanged |
| FinanceR2Contents.LaneIsShown | src/finance.rs:2717-2760 | a projection has exactly one entry for each decision, strictly ascending by claim, with its claim and disposition, its evidence and exactly the codes that residuals carry for its claim, both strictly ascending |
| FinanceR2Contents.CorpusShows | src/finance.rs:2716-2782 | the corpus holds the claim texts as given and, as contributor-1 to contributor-n in the order of their keys, exactly those projections, one for each lane |
| FinanceR2Contents.CorpusTells | src/finance.rs:2716-2782 | the converse of anonymity: accepted rounds with the same corpus have the same contents up to a permutation of the lanes |
| FinanceR2Contents.SourcesAreExact | src/finance.rs:2664-2710 | a source set is accepted exactly when each of five outputs has a first source naming it, no two share theirs, and no two sources agree in both digests |
| RunLog.DecodeComplete | src/store.rs:603-621 | the loop decodes the complete lines, skipping blank ones and refusing a bad one |
| RunLog.ReadRepairs | src/store.rs:603-649 | whatever a crash left at the end, reading yields the events the log holds and leaves the file whole |
| RunLog.TornAppend | src/util.rs:446-458 | an append cut anywhere leaves the old events or the new ones |
| LogReading.EveryTextSplits | src/store.rs:603-649 | any text is complete lines and a tail |
| LogReading.ReadingIsDecided | src/store.rs:603-649 | for any text: which events are read, when it is refused, and what the file is left as |
| LogReading.EventIsRecorded | src/store.rs:302-338 | for any log: an event is refused, found to be there already, or reads back as the last one with the next number, each exactly under its condition |
| StoreJournal.RunStore.ReadEvents | src/store.rs:603-649 | the read result and the one repairing write |
| StoreJournal.RunStore.EventAt | src/store.rs:302-338 | an event is appended with the next number, a known transition not at all |
| StoreJournal.RunStore.RecoverPendingTransition | src/store.rs:517-564 | drop, refuse or report, by comparing the manifest with the record |
| StoreJournal.RunStore.LoadManifest | src/store.rs:131-140 | loading recovers first |
| LogReading.LoadIsDecided | src/store.rs:517-564 | for any files, in order or not: what a load answers and what it leaves |
| StoreJournal.RunStore.Transition | src/store.rs:188-279 | load, flag, record, manifest, event, drop, in order up to the power loss, with cancellation overriding |
| StoreJournal.RunStore.SaveManifest | src/store.rs:142-155 | an in-place save yields to finished, cancelling and cancelled runs |
| StoreProgress.TableIsEdges | src/store.rs:651-682 | the transition table is the listed set of sixteen edges, and failing, cancelling or keeping the status of a run that has not ended |
| StoreProgress.RequestIsDecided | src/store.rs:188-279 | with full power any request is carried out exactly when the present status leads to what it comes to and the schema accepts: manifest, log, flag and record are then as given; otherwise manifest and log are as a load leaves them |
| StoreProgress.SaveIsDecided | src/store.rs:142-160 | an in-place save is made exactly when no end, running cancellation or request to cancel stands against it and the schema accepts |
| StoreProgress.RouteIsFollowed | src/store.rs:188-279 | requests along any route of edges end at its last status, with exactly those moves in the log and nothing pending |
| StoreProgress.NamedRoutes | src/store.rs:651-682 | the full lifecycle from queued to completed and its skips are such routes |
| StoreTheorems.EveryRunHolds | src/store.rs:188-338 | over every disciplined run with crashes anywhere the journal invariant holds |
| StoreTheorems.LogAtAnyMoment | src/store.rs:603-649 | at any moment the log reads as a numbered connected path that misses at most the last move |
| StoreTheorems.LoadedLogIsExact | src/store.rs:517-564 | after a load the log is a connected path from the first status to the manifest's, numbered from 1, reporting every move in order |
| StoreTheorems.ExactlyOnce | src/store.rs:302-338 | after a load each move has one event if it was committed and none otherwise |
| StoreTheorems.LoadIsSafe | src/store.rs:517-564 | loading settles the journal exactly when no outstanding move's event fails its schema |
| StoreTheorems.LoadSucceeds | src/store.rs:517-564 | after any disciplined run with crashes anywhere a load goes through when the event schema accepts every event |
| SelfTransitions.SelfTransitionLostExactly | src/store.rs:206-279 | for every transition that keeps the status, from any journal in order and with power lost anywhere or nowhere: after the next load it is committed exactly when its manifest was replaced, and logged exactly when its event was appended or cut at its line feed |
| SelfTransitions.SelfTransitionMayBeLost | src/store.rs:259-279 | power lost right after the manifest forgets it, a second cancel included, and so does an event that fails its schema, with no loss of power |
| StoreTheorems.TerminalIsAbsorbing | src/store.rs:188-204 | no operation moves a finished run, wherever power is lost |
| StoreTheorems.CancellationWins | src/store.rs:213-222 | with a cancellation on disk a run goes nowhere but to cancelling or cancelled |
| ReaderTheorems.EveryInterleavingHolds | src/store.rs:131-279 | the invariant of files, lock holder and readers in every interleaving of writers, lock-free loads and deaths |
| ReaderTheorems.AtMostOnce | src/store.rs:302-338 | in every interleaving with lock-free readers the log is numbered, repeats no change and reports only committed ones |
| ReaderTheorems.EventIsLostExactly | src/store.rs:517-564 | a committed change of status never gets its event exactly when its record was removed without the lock, its writer stopped before the event, and no reader is left to report it |
| ReaderTheorems.NoReaderNoLoss | src/store.rs:517-564 | while nobody removes its record without the lock, every committed change of status can still get its event |
| ReaderTheorems.ReaderMayLoseAChange | src/store.rs:131-140 | a schedule with one lock-free load that loses the event of a committed change for good |
| Cancellation.EveryInterleavingHolds | src/store.rs:356-396 | the lock and thread invariant over any number of threads and steps |
| Cancellation.SuccessIsClean | src/store.rs:366-396 | no interleaving ends in success with a cancellation accepted or the result deleted |
| Cancellation.SnapshotsCoverLiveChildren | src/store.rs:356-396 | outside the lock every live child is registered or an orphan, and a cancel snapshot shows all live children exactly when none is an orphan |
| Cancellation.SnapshotMissesExactly | src/store.rs:356-396 | a snapshot misses a live child exactly when the worker that started it died before registering it |
| Cancellation.OrphanExample | src/store.rs:356-364 | a run in which a snapshot misses a live child |
| Cancellation.AcceptedIsFinal | src/store.rs:374-396 | after a request is on disk no child is started and no success follows |
| CancellationProgress.MoveHappens | src/store.rs:188-279 | an undisturbed change of status that the present one leads to happens, and raises the flag when it asks to cancel |
| CancellationProgress.MoveIsRefused | src/store.rs:188-279 | any other changes nothing, but a request to cancel raises the flag of a run that has not ended |
| CancellationProgress.FinaliserFinishes | src/store.rs:366-372 | an undisturbed finaliser publishes its result and ends a merging run with it |
| CancellationProgress.FinaliserIsRefused | src/store.rs:366-372 | once the flag is up a finaliser publishes nothing |
| CancellationProgress.CancelSucceeds | src/store.rs:374-396 | a cancel of a run that has not ended raises the flag, withdraws a published result, takes a snapshot of the registered children and moves the run to cancelling and then to cancelled |
| CancellationProgress.CancelIsRefused | src/store.rs:374-396 | a cancel of a run that has ended changes nothing |
| CancellationProgress.SpawnRegisters | src/store.rs:356-364 | a child is started exactly while no cancellation is requested, registered before the lock is free, and unregistered once it has exited |
| Supervisor.Campaign.RunLocked | scripts/contest_supervisor.py:646-753 | one invocation performs exactly the specified saves and at most one start, up to its death |
| Supervisor.Campaign.ObserveActive | scripts/contest_supervisor.py:653-697 | status, inspect and acceptance, each saved before it is judged |
| Supervisor.Campaign.AdmitNext | scripts/contest_supervisor.py:699-753 | preflight, intent, start and run id, each saved in order |
| SupervisorTheorems.AtMostOneLaunchEach | scripts/contest_supervisor.py:646-753 | start number i is for sequence i + 1 and finds exactly its predecessors accepted, over any crashes and answers |
| SupervisorTheorems.HaltIsFinal | scripts/contest_supervisor.py:646-648 | once HALTED exists no invocation changes or starts anything |
| SupervisorTheorems.HaltIsLast | scripts/contest_supervisor.py:329-345 | corollary: within an invocation nothing follows HALTED |
| SupervisorTheorems.OwnStatesValidate | scripts/contest_supervisor.py:420-476 | every saved state passes the load checks exactly when it is not an unresolved launch intent |
| SupervisorTheorems.NoSpuriousHalt | scripts/contest_supervisor.py:646-661 | the supervisor's own writes never stop a later invocation |
| SupervisorDecisions.AcceptanceIsEarned | scripts/contest_supervisor.py:653-697 | for every acceptance on file some invocation met genuine status and inspect replies that name its run and brief and both report completed, and a verified, actionable, versioned result whose digest is the file's, the manifest's and the recorded one |
| SupervisorDecisions.LaunchIsEarned | scripts/contest_supervisor.py:699-753 | every start was issued by an invocation told to execute, whose preflight reply was genuine, ready and idle |
| SupervisorDecisions.ActiveIsBegun | scripts/contest_supervisor.py:699-753 | an active run with an id was begun by some invocation's start reply, genuine and for its brief |
| SupervisorDecisions.ActiveRunIsDecided | scripts/contest_supervisor.py:653-697 | what an invocation makes of the active run, by the replies' fields alone: only a proven completed run is accepted, a run that ended otherwise halts with the acceptances unchanged |
| SupervisorDecisions.NextEntryIsDecided | scripts/contest_supervisor.py:699-753 | what an invocation makes of the next entry: halt, dry run, or exactly one start, resolved or left as an intent with HALTED |
| SupervisorDecisions.FirstEntryIsDecided | scripts/contest_supervisor.py:646-753 | the same for the invocation that creates the state file |
| SupervisorDecisions.UntrustedHalts | scripts/contest_supervisor.py:420-476 | binary, plan and state file are trusted exactly under the stated conditions, and anything else halts and starts nothing |
| SupervisorDecisions.IdentifiersAreExact | scripts/contest_supervisor.py:156-294 | which texts are digests and which are run ids, character by character |
| Utf8.DecodesEncoded | src/repl.rs:245-261 | every encoded character is consumed as itself, whatever follows |
| Utf8.EncodesDecoded | src/repl.rs:245-261 | only the encoding of a character is consumed as it |
| Utf8.EncodingIsMarked | src/repl.rs:245-261 | the lengths and marks of section 3 of RFC 3629, and that the bits under the marks are the code point |
| KeyParser.ParseCsi | src/repl.rs:212-243 | the parameter loop finds the final byte or waits |
| KeyParser.Parser.Feed | src/repl.rs:116-119 | keys, leftover and paste mode are those of parsing pending bytes and input together |
| KeyParser.Parser.Flush | src/repl.rs:125-130 | a lone ESC is given up and the rest parsed again |
| KeyParser.Parser.Parse | src/repl.rs:132-209 | the loop computes the specified parse |
| KeyParser.NextIsStable | src/repl.rs:132-209 | more input never changes what has been decided |
| KeyParser.ChunksDoNotMatter | src/repl.rs:116-209 | any chunking gives the keys, pending bytes and paste mode of one chunk |
| KeyParser.LeftoverHoldsNoKey | src/repl.rs:132-209 | parsing leftover bytes again yields no key and changes nothing |
| KeyParser.TypedTextIsRead | src/repl.rs:196-204 | typed UTF-8 text comes out as its characters |
| KeyParser.PastedTextIsRead | src/repl.rs:137-158 | pasted text comes out as characters with line ends as spaces |
| KeyParser.PasteNeverSubmits | src/repl.rs:137-158 | of every input in paste mode, the keys up to the end marker are characters and no line ends |
| KeyCodes.ControlByteIsKey | src/repl.rs:178-198 | one control byte is its named key or none, whatever follows |
| KeyCodes.SequenceIsKey | src/repl.rs:212-243 | ESC [ or ESC O with parameters and a final byte is its named key or none, and parsing goes on with the rest |
| KeyCodes.StrayEscIsDropped | src/repl.rs:158-177 | an ESC that introduces no sequence is dropped and parsing goes on behind it |
| KeyCodes.MarkersSwitchMode | src/repl.rs:137-163 | the two paste markers begin and end a paste and are no keys |
| KeyCodes.UnfinishedSequenceWaits | src/repl.rs:212-243 | a sequence cut short yields nothing and waits |
| Utf8.BeginsIsExact | src/repl.rs:245-261 | bytes can still become a character exactly when they are the front of an encoding or have one in front |
| KeyParser.StuckIsExact | src/repl.rs:132-209 | no continuation decides what pending bytes mean exactly when they are a stray ESC inside a paste or malformed UTF-8 |
| KeyParser.StreamStopsExactly | src/repl.rs:132-209 | no further input yields another key exactly when the bytes left pending are stuck so |
| KeyParser.StuckForGood | src/repl.rs:116-130 | no sequence of feeds and flushes gets past stuck bytes |
| KeyParser.StuckExamples | src/repl.rs:143-158 | malformed UTF-8 in either mode and a stray ESC inside a paste are never passed |
| BlockScanner.LaneOutputObjectBlocks | src/adapters.rs:2010-2106 | the stack scanner returns the kept outermost members of the sorted family of key-bearing braces |
| BlockTheorems.FamilyIsExact | src/adapters.rs:2010-2090 | the collected blocks are exactly the key-bearing brace pairs and unclosed braces |
| BlockTheorems.FamilyIsLaminar | src/adapters.rs:2044-2062 | any two of them are nested or apart |
| BlockTheorems.BlocksAreExact | src/adapters.rs:2010-2106 | for every text the result is exactly the outermost members, sorted, apart, an unclosed one only last |
| BlockKeys.ObjectIsReturned | src/adapters.rs:2010-2126 | an object in prose, with any strings, escapes, arrays and objects inside it, is returned whole and alone when one of the seven names is a direct key of it, its mask being those names, and otherwise no block starts with it |
| BlockKeys.ObjectCloses | src/adapters.rs:2010-2090 | scanning such an object's text from outside a string closes its brace at its end, with exactly the bits of its direct keys |
| TextRepair.QuoteUnquotedObjectKeys | src/adapters.rs:1869-1933 | the character loop computes the token-wise repair |
| TextRepair.HasUnquotedIdentifierKey | src/adapters.rs:1813-1864 | the search loop computes the detector |
| TextRepair.EscapeRawControlChars | src/adapters.rs:1774-1803 | the character loop computes the escaping |
| TextRepairTheorems.RepairIsTokenwise | src/adapters.rs:1869-1933 | text and repair are spelled by the same tokens, only bare keys gaining a pair of quotes |
| TextRepairTheorems.RepairGrows | src/adapters.rs:1869-1933 | the repair changes a text exactly when it holds a bare key |
| TextRepairTheorems.DetectorIsExact | src/adapters.rs:1813-1864 | the detector reports exactly the texts with a bare key whose gap is ASCII white space without vertical tab |
| TextRepairTheorems.DetectorAgrees | src/adapters.rs:1813-1864 | the detector implies a change; the two agree exactly on texts without a bare key or with one whose gap is ASCII |
| TextRepairTheorems.PlainTextAgrees | src/adapters.rs:1813-1864 | in particular detector and repair agree on text whose white space is ASCII without vertical tab |
| TextRepairTheorems.VerticalTabHidesKey | src/adapters.rs:1844-1849 | a vertical tab before the colon hides a key from the detector but not from the repair |
| TextRepairTheorems.QuotingIsIdempotent | src/adapters.rs:1869-1933 | repairing twice is repairing once |
| RepairClasses.NameIsRepairedExactly | src/adapters.rs:1869-1933 | a brace, a name without a quotation mark, a colon and a value is repaired exactly when the name is of identifier form, by code points |
| RepairClasses.SpacedNameIsRepaired | src/adapters.rs:1813-1933 | any white space may stand before the colon for the repair, and ASCII white space for the detector |
| RepairClasses.ClassesAreExact | src/adapters.rs:1813-1933 | the four character classes of repair and detector, by code points |
| StrictText.StrictTextStands | src/adapters.rs:1869-1933 | every strict JSON text, of any number form and depth, is left unchanged |
| StrictText.ParsedTextIsStrict | src/adapters.rs:1869-1933 | in particular whatever the duplicate-free parser accepts |
| EscapeTheorems.NoRawStands | src/adapters.rs:1774-1803 | escaping changes a text exactly when a string of it holds a raw control character |
| EscapeTheorems.EscapingIsIdempotent | src/adapters.rs:1774-1803 | escaping twice is escaping once |
| EscapeTheorems.EscapingKeepsValues | src/adapters.rs:1774-1803 | each complete string keeps its decoded value and its closing quote |
| EscapeTheorems.DelIsEscaped | src/adapters.rs:1791-1796 | DEL inside a string is escaped too |
| RepairClasses.RawControlIsEscaped | src/adapters.rs:1774-1803 | which character becomes which escape inside a string, by code points |
| CountingGate.SharedGate.TryAcquire | src/adapters.rs:2804-2816 | one pass of the acquiring loop takes a slot exactly when one is free |
| CountingGate.SharedGate.Release | src/adapters.rs:2822-2832 | a slot is given back before the notification |
| CountingGate.HoldersWithinLimit | src/adapters.rs:2788-2833 | in every interleaving at most the limit hold a slot |
| CountingGate.NoLostWakeup | src/adapters.rs:2788-2833 | while anyone sleeps, slots held, threads woken and notifications to come make up the limit, so a sleeper beside a free slot has a wakeup on its way |
| CountingGate.WakeupIsUsed | src/adapters.rs:2804-2816 | corollary: a woken thread takes a free slot or finds every slot taken |
| CountingGate.SlotIsHandedOver | src/adapters.rs:2788-2833 | in every reachable state a slot given back goes to the sleeper that is notified, and the count is as before |
| SingleActive.ActiveManifests | src/host.rs:55-93 | the directory scan lists the active runs, or refuses when it cannot trust a directory |
| SingleActive.AtMostOneActive | src/host.rs:590-611 | in every interleaving of starts, workers, observers and dying processes at most one run is active |
| SingleActive.ClearScanIsTrue | src/host.rs:598-605 | a scan that finds nothing active is right, however stale its reads |
| SingleActive.UntrustedBlocksEveryStart | src/host.rs:76-87 | a directory without a trustworthy manifest blocks every start |
| SingleActive.ScanDecides | src/host.rs:55-93 | an undisturbed scan clears the launch exactly when it trusts every directory and finds none active |
| SingleActive.ScanFindsExactly | src/host.rs:55-93 | a scan finds exactly the runs whose status is no end, and is refused exactly by an entry that is no directory, has no run id or no trustworthy manifest |
| SingleActive.StartPublishes | src/host.rs:590-611 | an undisturbed start publishes its run as queued when every run has ended, and changes no run otherwise |

## Left out

- JSON numbers are integers in `Json` and `Canonical`: fractions, exponents, the 64-bit range and the writer's refusal of
  negative zero are not modelled there; `StrictText` does cover every number form.
- The nesting limit of the JSON library, schema validation, serde, SHA-256, base64, UUIDs and timestamps: abstract.
- Text is a sequence of Unicode characters; `Utf8` connects it to bytes. Scanner positions count characters, not bytes.
- File and directory syncing, permissions and temporary files: a replacement is one atomic durable step.
- FinanceJournal: the transition id, base64 fields and schema of the pending record are not modelled, because
  only its digests, bytes and bindings decide recovery.
- FinanceLifecycle.PowerLossStrands: whether the terminal bundle written by the first advance can be written again is
  not modelled; the finaliser's manifest is an input of each advance.
- FinanceLifecycle.DormantAdvance: the artifact-graph validation and the finaliser that produces the terminal bundle are
  arbitrary inputs; `dormant_init` is left out.
- FinanceReview.Review: the route, profile, primary and evidence digests that bind each output are left out, as are the
  arbiters, which change no decision.
- FinanceR2.BuildCorpus: the packet around the corpus (recipient, bindings, source-set digest, corpus digest) is left out.
- Cancellation: killing the process trees is left out. Phase changes are unconstrained but for the transition table.
- StoreReaders: which status a transition asks for, the cancellation flag and the manifest schema are left out there, as
  any allowed change may be journaled at any moment; `StoreJournal` has them.
- SingleActive.ActiveManifests: the order of the reported runs by creation time is left out, as are the receipts.
- Supervisor: the envelope checks of a host reply (parsed, version, operation, paths, pinned runtime) are one flag, and
  exceptions other than safety errors end an invocation without a trace.
- CountingGate: mutex poisoning and the environment variable that sets the limit are left out.
- The loop that discards a lone ESC on a timeout (`src/repl.rs:670-673`) depends on timing by design; chunk invariance
  is about feeding.
- HTTP and provider calls, process plumbing, terminal drawing, prompts and field tables would only add easy members.
