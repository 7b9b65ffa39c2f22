# Verified model of the K-Slide control and evidence logic

This project models parts of K-Slide in Dafny and proves what they are for.

- **Candidate revocation.** `RevocationModel`, `RevocationLedger` and `RevocationStore` model the signed, hash-chained
  ledger of revocations: what replay accepts, what recording appends, and what the active set means. `RevocationAnswers`
  says it field by field: the files, the answers, and how a caller goes on from an answer. `RevocationConcurrency`
  interleaves an unlocked reader with writers whose appends are separate file writes, with crashes between any two, and
  `RevocationProgress` says what undisturbed ones reach. `RolloutProtocol` puts the ledgers and the signed rollout state
  together as processes that take and release locks step by step and may fail anywhere; `RolloutMeaning` says what its
  transitions and admissions amount to, and `RolloutProgress` what an undisturbed process reaches.
- **Media traces.** `MediaPaths` and `MediaTraces` model the scanner that binds evidence, read and submit events to
  attempts; the two passes are proved equal to a declarative reading of the event sequence, which `MediaMeaning` states
  on the events and plans alone.
- **Bilingual review.** `BilingualReview` says what an accepted ledger of reviews and adjudications is, without
  counting. `BilingualCounting` proves that the counts taken by the checker are enough, and `BilingualWorks`,
  `BilingualRecords`, `BilingualAssistance`, `BilingualDecisions` and `BilingualChecker` are its loops, proved against
  that definition. `BilingualMeaning` says what accepted reviews, adjudications and decisions are. `BilingualPayload` is
  the contract document around the ledger and the release payload derived from it.
- **Candidate profiles and locks.** `CandidateYaml` and `CandidateYamlText` are the stack-based mapping parser and its
  round trip, and `CandidateYamlMeaning` its lines. `CandidateFactors` is the canonicalisation of identity factors,
  `CandidateFingerprint` what a second one makes of its result; `CandidateSurvival`, `CandidateOrders` and
  `CandidateWitnesses` say of which candidates it changes nothing, and `CandidateIgnored` which fields never matter;
  `CandidateMeaning` goes through the fields one by one. `DependencyLock` is the exact lock format, and
  `DependencyMeaning` its names and lines.
- **Scoring and release.** `ScorerGate` compares the scorer with the gate that reads its stored evidence;
  `ScorerMeaning` states their codes on the lists of the scene. `ReleaseLadder` composes the release states with the
  revocation gate.
- **Smaller cores.** `LineWrap` (greedy wrapping) and `KeyHandoff` (descriptor ownership). `Strings`, `Sorting`,
  `Collections` and `Wrappers` are shared.

Reading notes. SHA-256 and the HMAC are arbitrary functions (`Crypto`), and no theorem assumes that the hash has no
collisions: where an identity commits to its past, the theorem says that the pasts are equal or names the two documents
that collide. Times are integers. A file that is not canonical signed JSON of the expected
shape is one value, `Unusable` or `OtherDoc`. Where Python iterates a set, or an order does not matter, the order is a
parameter and the theorems hold for every order. System calls in `KeyHandoff` may fail or pick any free number.

Python's `==` is an arbitrary equivalence that only identifies a string, or None, with itself: 0, 0.0 and False may be
equal without being written alike.

Five findings about the code are stated as theorems.

- Identity factors do not always survive their own canonicalisation. An explicit null version is stored as the text
  "None" (`NullFails`); a version in an embedded candidate is stored unchecked beside a current `schema_version`
  (`HiddenFails`); and a field given under both its names with two unset markers or two spellings of one number may be
  stored differently at the top level and in the behavior configuration (`MixedMarkers`, `EqualNumbers`).
  `SurvivesAlways` is the exact condition on the candidate. One unset marker at the top level and another under the
  same name in the behavior configuration do no harm (`WithoutAliases`).
- The factors of one candidate may depend on the order in which a set of names is visited (`SameForEveryOrder`).
- With no required region the scorer alone reports an omission (`GateAgreesExactly`, `OptionalOnlyDiffers`).
- A payload whose metrics are NaN is accepted (`NaNIsAccepted`, `FiguresAreRight`).
- A crash while a temporary file is in the history directory blocks all later reads as well (`CrashOutcome`). A reader
  that merely meets such a file may still succeed when it is renamed before its test, and then returns what was
  committed (`FinishedRead`).

## Model

| member | source | states |
|---|---|---|
| RevocationModel.SortedIsCanonical | src/k_slide/candidate_revocation.py:372 | sorting a set of known categories gives a list that validation accepts as canonical and that has exactly the members of the set |
| RevocationModel.CanonicalIsKnown | src/k_slide/candidate_revocation.py:203-205 | a category list that validation accepts holds known categories only and equals the sorted form of its members |
| RevocationModel.InitialStateIsValid | src/k_slide/candidate_revocation.py:260-273 | the initial payload passes state validation for its own candidate |
| RevocationLedger.ChainAppend | src/k_slide/candidate_revocation.py:350-379 | a chain of events that replay accepts, followed by one more event, is accepted exactly when the event is valid and extends the last state: revision, expected revision, state identity, previous event identity, time and, for a recovery, active categories |
| RevocationLedger.ApplyIsValid | src/k_slide/candidate_revocation.py:444-468 | applying a valid event to a valid state gives a valid state whose active set is the old one plus the revoked or minus the recovered categories |
| RevocationLedger.StateAtIsValid | src/k_slide/candidate_revocation.py:340-381 | every state along an accepted chain is valid and its revision is its position |
| RevocationLedger.ActiveMeaning | src/k_slide/candidate_revocation.py:358-364 | after any number of events a category is active exactly when the last event naming it is a REVOKE |
| RevocationLedger.StatusMeaning | src/k_slide/candidate_revocation.py:458-462 | the status is REVOKED exactly when some category is active, and CLEAR exactly at revision 0 |
| RevocationLedger.ActiveUnderOwnAuthority | src/k_slide/candidate_revocation.py:206-219 | each active category was added by a REVOKE that names it alone, under the authority of that reason |
| RevocationLedger.OnlyRecoveryClears | src/k_slide/candidate_revocation.py:206-219 | if a category is active at one point of the history and not at a later one, a RECOVER of the qualification authority with a requalification attestation names it in between |
| RevocationLedger.RevisionsAndTimes | src/k_slide/candidate_revocation.py:350-356 | revisions run 1..n without gaps, each expected revision is one less, and timestamps never decrease from the genesis on |
| RevocationLedger.IdentityCommitsToPrefix | src/k_slide/candidate_revocation.py:350-381 | equal states after n events mean equal genesis and the same first n events, unless two different states or events of the two chains have one hash |
| RevocationLedger.IdentityCommitsToHistory | src/k_slide/candidate_revocation.py:124-125 | two accepted ledgers, even of different candidates, with one state identity have the same genesis and the same events, or hold two different states or events with one hash |
| RevocationLedger.AdmitsExtends | src/k_slide/candidate_revocation.py:440-461 | an event that recording appends leaves a chain that replay accepts, with every event ID occurring once |
| RevocationLedger.AtMostOnePerRevision | src/k_slide/candidate_revocation.py:440-441 | once an event is in the ledger, no event with the same expected revision is appended any more |
| RevocationStore.LayoutIsInjective | src/k_slide/candidate_revocation.py:308-382 | the files of a ledger determine its genesis and its events, whatever the hash function |
| RevocationStore.IdentityCommitsToDirectory | src/k_slide/candidate_revocation.py:124-125 | two readable directories with one state identity are the same, file by file, or hold two different states or events with one hash |
| RevocationStore.StatusIsValid | src/k_slide/candidate_revocation.py:129-158 | the status built from a valid state passes its own validation |
| RevocationStore.ReadableStep | src/k_slide/candidate_revocation.py:350-379 | one round of the replay loop: a directory whose first events have been replayed stays readable only if the next file is signed, valid and extends the chain |
| RevocationStore.Replay | src/k_slide/candidate_revocation.py:308-382 | the replay loop succeeds exactly on directories that hold a chain in the laid-out files, and returns the fold of genesis and history |
| RevocationStore.ReplayEvent | src/k_slide/candidate_revocation.py:350-379 | the body of the loop accepts a file exactly when it is a signed valid event extending the state, and updates categories, identities and time accordingly |
| RevocationStore.RunKeepsLedger | src/k_slide/candidate_revocation.py:414-483 | after every run of submissions the directory is readable, its chain extends the earlier one, and no event ID occurs twice |
| RevocationStore.UsedIdAppendsNothing | src/k_slide/candidate_revocation.py:433-439 | after any further run, submitting an event again is answered as a duplicate with the current status and changes nothing, and another event under its ID is refused |
| RevocationAnswers.GenesisFields | src/k_slide/candidate_revocation.py:260-273 | the genesis payload, field by field |
| RevocationAnswers.StateFields | src/k_slide/candidate_revocation.py:454-468 | the state after at least one event, field by field: the hashes of the state before and of the last event, actor, time and ID of that event, and what is active |
| RevocationAnswers.LedgerFiles | src/k_slide/candidate_revocation.py:454-481 | the files of a ledger, one by one: signed genesis, latest state, head with its identity, and one history file for each event |
| RevocationAnswers.AdmitsExactly | src/k_slide/candidate_revocation.py:440-450 | recording appends exactly the well-formed, authorised events that copy revision, state identity and last event identity, come no earlier, and recover active categories only |
| RevocationAnswers.AnswerMeaning | src/k_slide/candidate_revocation.py:430-483 | what recording answers: the ledger as it stands for a recorded event, the ledger with the event for an appended one, its identity being the hash of that event; everything else is refused |
| RevocationAnswers.NextIsAppended | src/k_slide/candidate_revocation.py:440-483 | an event with a fresh ID that copies revision, state identity and event identity from the answered status is appended by the next recording, whose answer reports it |
| RevocationStore.Store.Initialize | src/k_slide/candidate_revocation.py:385-405 | either every named candidate gets a new readable genesis ledger and all others are unchanged, or some named directory already existed |
| RevocationStore.Store.Create | src/k_slide/candidate_revocation.py:391-405 | the three genesis files are exactly the layout of an empty chain |
| RevocationStore.Store.ReadState | src/k_slide/candidate_revocation.py:308-382 | a read returns the fold of the chain on disk, and raises exactly when no chain is laid out there |
| RevocationStore.Store.Record | src/k_slide/candidate_revocation.py:414-483 | whole new store and answer for every signed file: unauthentic, missing or unreadable ledgers change nothing (a missing one leaves a bare directory), a known ID is a duplicate or a conflict, and otherwise exactly the admitted events are appended |
| RevocationStore.Store.Append | src/k_slide/candidate_revocation.py:430-483 | the part under the lock: compare-and-set against the state just read; with validation only, nothing is written |
| RevocationStore.Store.Write | src/k_slide/candidate_revocation.py:476-481 | event, state and head file written one after the other give the layout of the longer chain |
| RevocationStore.Store.FindEventId | src/k_slide/candidate_revocation.py:432-439 | the search through the history finds the event with the same ID, if there is one |
| RevocationConcurrency.ReadableIffSettled | src/k_slide/candidate_revocation.py:476-481 | between the file writes of an append the directory is readable exactly when no temporary file is there and state and head are those of the whole history |
| RevocationConcurrency.NextKeepsInv | src/k_slide/candidate_revocation.py:308-382 | every step of writer, reader, crash and cleanup keeps the invariant that relates disk, writer position, reader buffers and committed chain |
| RevocationConcurrency.FinishedRead | src/k_slide/candidate_revocation.py:308-382 | if the files a reader collected replay, the read gives exactly the chain committed when it listed the history, and at most a temporary file stood beside the files of that chain |
| RevocationConcurrency.ListingStep | src/k_slide/candidate_revocation.py:329-335 | what a reader remembers of its listing is what stood on disk in the step in which it listed |
| RevocationConcurrency.ReadsAreLinearizable | src/k_slide/candidate_revocation.py:308-382 | in every interleaving with writers and crashes, where listing the names and testing each of them are separate steps, an unlocked read raises or returns exactly the ledger committed at the step in which it listed the history |
| RevocationConcurrency.CrashOutcome | src/k_slide/candidate_revocation.py:476-481 | a crash during an append leaves a readable directory exactly when no file of the append had been touched |
| RevocationConcurrency.BrokenStays | src/k_slide/candidate_revocation.py:430-431 | a directory left unreadable by a crash stays as it is in every further run |
| RevocationConcurrency.KeptAll | src/k_slide/candidate_revocation.py:333 | a reader that lists a directory left by a crash finds every listed name again when it tests it |
| RevocationConcurrency.CutShortFailsClosed | src/k_slide/candidate_revocation.py:430-431 | after such a crash no later append passes its own read and no read that lists later succeeds, so the half-applied event is never observed |
| RevocationProgress.AppendCompletes | src/k_slide/candidate_revocation.py:476-481 | an admitted append that nothing disturbs puts its event, state and head on disk in five steps |
| RevocationProgress.ReadCompletes | src/k_slide/candidate_revocation.py:308-382 | an undisturbed reader of a settled directory opens every file and has exactly that directory in the end |
| RevocationProgress.ReadAfterAppend | src/k_slide/candidate_revocation.py:476-481 | after an undisturbed append an undisturbed reader has the longer ledger, and no other |
| RolloutProtocol.PositionsMatchLocks | src/k_slide/candidate_revocation.py:499-554 | each step of the apply, recovery, transition and admission code takes and frees exactly the locks its new position holds |
| RolloutProtocol.WritesAreGuarded | src/k_slide/candidate_revocation.py:574-636 | every write to a ledger or to the rollout state is made under its own lock, and a recovery only over a closed rollout of that candidate |
| RolloutProtocol.NextKeepsInv | src/k_slide/candidate_revocation.py:486-636 | every step of every process, with exceptions and deaths at any point, keeps the protocol invariant |
| RolloutProtocol.StartSatisfiesInv | src/k_slide/candidate_revocation.py:486-636 | every world without processes, with any rollout state and any well-formed ledgers, satisfies the invariant |
| RolloutProtocol.OnlyGuardedRecoveryClears | src/k_slide/candidate_revocation.py:602-613 | the only step that ends a revocation is a RECOVER appended while its process holds the rollout lock, with the rollout bound to this candidate, disabled, admissions off and no cohorts |
| RolloutProtocol.RevocationsAreClearedSafely | src/k_slide/candidate_revocation.py:574-636 | in every run, between a moment at which a candidate is revoked and a later one at which it is not, such a guarded recovery happened |
| RolloutProtocol.RevocationPrecedesTransition | src/k_slide/candidate_revocation.py:499-554 | a DISABLE or ROLLBACK issued for a REVOKE runs only after the event is in the ledger, and the event stays there if the transition fails |
| RolloutProtocol.RevocationClosesGate | src/k_slide/candidate_revocation.py:686-701 | the step that records a REVOKE closes the gate at once, whatever becomes of the rollout transition |
| RolloutProgress.RevocationCompletes | src/k_slide/candidate_revocation.py:505-554 | an admissible revocation of the active candidate that nothing disturbs ends in nine steps with the event recorded and the rollout closed, on the rollback target if that is unrevoked |
| RolloutProgress.RecoveryCompletes | src/k_slide/candidate_revocation.py:615-636 | a fitting recovery over a rolled back rollout that nothing disturbs ends in eleven steps with the event recorded and the primary candidate on a closed rollout |
| RolloutProtocol.WaitsForLock | src/k_slide/rollout.py:694-782 | a process is waiting exactly when the lock that its next step takes is not free |
| RolloutProtocol.LocksNeverDeadlock | src/k_slide/rollout.py:694-782 | whenever a rollout or ledger lock is held, some holder is not waiting: ledger locks are only ever taken after the rollout lock |
| RolloutProtocol.LedgerHolderRuns | src/k_slide/candidate_revocation.py:430-483 | a process that holds a ledger lock never waits for another lock, so the locks are never taken in the reverse order |
| RolloutProtocol.RecoveryNeverReopens | src/k_slide/candidate_revocation.py:602-636 | while admissions are on, the rollout has moved on since any recovery was recorded, so recovering alone never reopens a candidate |
| RolloutProtocol.AdmissionMeansUnrevoked | src/k_slide/rollout.py:485-519 | whoever is admitted, directly or after an earlier read of the status that a revocation may have followed, was let in by an enabled rollout of this candidate and a readable ledger without active revocation |
| RolloutMeaning.TransitionMeaning | src/k_slide/rollout.py:395-446 | a command of the current revision moves a consistent rollout on by one revision, to the state its action asks for, and anything else is refused |
| RolloutMeaning.AppliedTransition | src/k_slide/rollout.py:417-441 | in every run each written rollout state is what its command asks for; one written for a revocation is disabled, not enabled and without cohorts, on the active candidate or the rollback target |
| RolloutMeaning.AdmissionMeaning | src/k_slide/rollout.py:485-524 | in every run whoever is admitted belongs to a cohort of the stage of an enabled rollout of his candidate, whose ledger is readable and unrevoked |
| RolloutMeaning.CheckedBeforeWrite | src/k_slide/rollout.py:748-759 | in every run a process about to write a transition has found the ledger of the candidate it lets in clear, and the rollout has not changed since |
| RolloutMeaning.EnabledAfterCheck | src/k_slide/rollout.py:748-777 | in every run a rollout becomes enabled only after the ledger of its candidate was found clear, at the same rollout state |
| MediaPaths.JoinSplit | evals/opencode_events.py:225-237 | splitting a path at slashes and joining it again gives the path |
| MediaPaths.SamePathMeansSameComponents | evals/opencode_events.py:225-237 | the suffix test on normalised strings holds exactly when the components of the required path are the last components of the actual one |
| MediaTraces.Scan | evals/opencode_events.py:320-356 | the first pass over any event sequence collects exactly the declared attempts of every unit, lists each unit once, and records every read |
| MediaTraces.AttemptsAreNumbered | evals/opencode_events.py:336-349 | attempts of a unit are numbered 1..n in strictly increasing evidence order, and each submit lies strictly between its evidence and any later evidence of the unit |
| MediaTraces.RecordedSubmit | evals/opencode_events.py:350-356 | an attempt carries a submit exactly when it is the first submit of its unit after the evidence and before the next evidence |
| MediaTraces.SubmitBindsOneAttempt | evals/opencode_events.py:350-356 | a submit event binds at most one attempt, of any unit |
| MediaTraces.EveryEvidenceRecorded | evals/opencode_events.py:330-349 | every evidence event opens an attempt of its unit |
| MediaTraces.FirstRead | evals/opencode_events.py:363-367 | the smallest index among the reads in scope whose path matches, if there is one |
| MediaTraces.Score | evals/opencode_events.py:360-373 | an attempt is valid exactly when it planned something, was submitted, and each planned path was read strictly between evidence and submit |
| MediaTraces.ScoreMeansValid | evals/opencode_events.py:360-373 | the score of a collected record is the declared validity of the attempt its evidence event opens |
| MediaTraces.AllAttemptsMeansVerdict | evals/opencode_events.py:253 | all collected attempts pass exactly when there is an evidence event and every evidence event opens a valid attempt |
| MediaTraces.MediaCompliance | evals/opencode_events.py:240-258 | the verdict is true exactly when every attempt is valid, whatever came later; the number of attempts is the number of evidence events; the traces are those of the units with evidence |
| MediaMeaning.VerdictMeaning | evals/opencode_events.py:313-389 | the verdict is true exactly when there is an evidence event and each one is submitted later, its plan names a required context image or a crop with a path, and all of these were read in between |
| MediaMeaning.PlannedMeaning | evals/opencode_events.py:333-337 | a plan asks for its required context image and for every crop with a path, and for nothing else |
| MediaMeaning.UnitMeaning | evals/opencode_events.py:324-351 | an event belongs to the unit it names, else to that of the last evidence, submit or naming next event, else to the unbound unit |
| MediaMeaning.AttemptFields | evals/opencode_events.py:338-356 | the fields of a collected attempt are those of its evidence and submit events |
| MediaMeaning.NormalizeMeaning | evals/opencode_events.py:226-230 | normalising turns backslashes into slashes, then takes away leading "./" and leading slashes, and nothing else |
| BilingualWorks.CheckTruths | src/k_slide/bilingual_adjudication.py:210-215 | the truth-unit loop accepts exactly supported truth units that are new to the sample and distinct among themselves |
| BilingualWorks.CheckWorks | src/k_slide/bilingual_adjudication.py:184-219 | the work-unit loop and its closing tests accept exactly the samples with sorted, governed, distinct work units, consistent artifacts, globally distinct truth units, enough of both, and every metric |
| BilingualRecords.SameMembersSameList | src/k_slide/bilingual_adjudication.py:245-255 | two increasing lists with the same members are equal |
| BilingualRecords.CheckOutcomes | src/k_slide/bilingual_adjudication.py:245-255 | sorted, distinct and over the same identities: accepted exactly when the review judges each truth unit of its work unit once, in order, under its metric |
| BilingualRecords.CheckRecord | src/k_slide/bilingual_adjudication.py:231-258 | one review record is accepted exactly when it is well formed, human, bound to and covering one work unit, with increasing references to assistance |
| BilingualRecords.CheckReviews | src/k_slide/bilingual_adjudication.py:221-268 | the review loop, the total and the pair test together accept exactly when every work unit has its two reviews by different people |
| BilingualAssistance.CheckAssistanceRecord | src/k_slide/bilingual_adjudication.py:276-291 | a record of AI assistance is accepted exactly when it is a suggestion without authority for one review, bound to what that review is bound to |
| BilingualAssistance.CheckAssistance | src/k_slide/bilingual_adjudication.py:270-299 | the assistance loop and the comparison of references accept exactly records without replay whose identities are, review by review, the references of the reviews |
| BilingualAssistance.AssistanceIsCited | src/k_slide/bilingual_adjudication.py:297-299 | each record of assistance is cited by exactly the review it names, and nothing else is cited |
| BilingualCounting.Pigeonhole | src/k_slide/bilingual_adjudication.py:363-364 | distinct indices below n are all of them exactly when there are n |
| BilingualCounting.SumIsLength | src/k_slide/bilingual_adjudication.py:222-223 | the reviews of all work units together are all the reviews |
| BilingualCounting.CoverageByCounting | src/k_slide/bilingual_adjudication.py:222-268 | a total of 2N and a pair for each work unit that has reviews is the same as a pair for every work unit |
| BilingualCounting.AdjudicationsByCounting | src/k_slide/bilingual_adjudication.py:301-364 | finding one adjudication for each disagreement and as many adjudications as disagreements is the same as a one-to-one correspondence with nothing missing, spare or reused |
| BilingualDecisions.ReadSlot | src/k_slide/bilingual_adjudication.py:307-319 | for each truth unit the two reviews of its work unit are found, in the order of their identities, with the outcomes they gave |
| BilingualDecisions.CheckAdjudication | src/k_slide/bilingual_adjudication.py:326-344 | an adjudication is accepted exactly when it is a fresh human record that cites the two conflicting reviews of the truth unit |
| BilingualDecisions.DecideAll | src/k_slide/bilingual_adjudication.py:312-364 | the loop over the truth units succeeds exactly when disagreements and adjudications match by the counts, and yields the decision of each truth unit and the outcomes by metric |
| BilingualChecker.DecisionListUnique | src/k_slide/bilingual_adjudication.py:365 | whatever order the truth units are visited in, sorting the decisions gives one decision for each truth unit in document order |
| BilingualChecker.OutcomesSettled | src/k_slide/bilingual_adjudication.py:341-351 | every authoritative outcome is correct or incorrect and its metric is supported |
| BilingualChecker.MetricsCovered | src/k_slide/bilingual_adjudication.py:370-371 | the metrics found are exactly the ten supported ones, so the closing coverage test never fails |
| BilingualChecker.ValidateContract | src/k_slide/bilingual_adjudication.py:183-378 | a ledger is accepted exactly when its sample, reviews, assistance, adjudications and decision list are the declared ones; counts and rates are taken over all authoritative outcomes |
| BilingualChecker.TwoIndependentReviews | src/k_slide/bilingual_adjudication.py:222-268 | in an accepted contract exactly two reviews name a given work unit, by different people, each covering exactly its truth units |
| BilingualChecker.DecisionsDetermined | src/k_slide/bilingual_adjudication.py:365-368 | accepted contracts with the same sample, reviews and adjudications have the same decisions, whatever else they hold |
| BilingualMeaning.DecisionMeaning | src/k_slide/bilingual_adjudication.py:315-361 | in an accepted contract a decision on which its two reviews agree has their outcome and no adjudication; otherwise it has resolution and identity of an adjudication that names the truth unit and cites both reviews |
| BilingualMeaning.DecisionList | src/k_slide/bilingual_adjudication.py:315-368 | with accepted records, a contract is accepted exactly when its decision list is sorted, without repetition, and holds exactly the decisions that follow from reviews and adjudications |
| BilingualMeaning.MeasuredCounts | src/k_slide/bilingual_adjudication.py:372-377 | the six critical metrics are numbers of incorrect decisions, and each of the other four is the share of correct ones |
| BilingualMeaning.AcceptedSample | src/k_slide/bilingual_adjudication.py:183-223 | an accepted sample has at least 200 work units and 50 artifacts, all bound to active items by both hashes, and two reviews for each |
| BilingualMeaning.AcceptedReview | src/k_slide/bilingual_adjudication.py:231-265 | an accepted review is human, independent and by direct comparison, and is bound in every field to one work unit whose truth units it judges one by one |
| BilingualMeaning.AcceptedAssistance | src/k_slide/bilingual_adjudication.py:276-299 | accepted assistance is a suggestion without authority, bound to a review that cites it and to the work unit of that review |
| BilingualMeaning.AcceptedAdjudication | src/k_slide/bilingual_adjudication.py:323-349 | an accepted adjudication is human, names a truth unit on which two reviews differ, cites both, and settles it |
| BilingualMeaning.NothingTwice | src/k_slide/bilingual_adjudication.py:199-349 | in an accepted contract no work unit and no record occurs twice, no record copies identity, digest or artifact of another, and a shared artifact has one item and one content |
| BilingualMeaning.TruthsOnce | src/k_slide/bilingual_adjudication.py:210-215 | in an accepted contract a truth unit occurs at one place of the whole sample |
| BilingualPayload.ValidateDocument | src/k_slide/bilingual_adjudication.py:160-378 | a contract is accepted exactly when its header is well formed, under the policy in force and for one private corpus, and its ledger is acceptable |
| BilingualPayload.AcceptedHeader | src/k_slide/bilingual_adjudication.py:161-181 | the header of an accepted document, field by field |
| BilingualPayload.BoundToActive | src/k_slide/bilingual_adjudication.py:183-195 | each work unit of an accepted document has the hashes of the last active item of its identity in the manifest |
| BilingualPayload.ValidatePayload | src/k_slide/bilingual_adjudication.py:402-427 | a payload is accepted exactly when its contract is, its summary agrees with it, and each of the ten metrics is NaN or within the tolerance of what the decisions give |
| BilingualPayload.FiguresAreRight | src/k_slide/bilingual_adjudication.py:424-427 | a metric of an accepted payload is within the tolerance of what the decisions give exactly when it is not NaN |
| BilingualPayload.NaNIsAccepted | src/k_slide/bilingual_adjudication.py:426 | an accepted payload stays accepted when all its metrics are replaced by NaN |
| BilingualPayload.BuildPayload | src/k_slide/bilingual_adjudication.py:381-399 | every acceptable contract gives a payload, which is accepted and holds exactly the metrics of the decisions |
| BilingualPayload.AttestationCommits | src/k_slide/bilingual_adjudication.py:416 | accepted payloads with one attestation identity hold two different contracts with one digest, or are the same but for NaN and rounding in the metrics |
| BilingualPayload.AcceptedPayload | src/k_slide/bilingual_adjudication.py:409-424 | the fields of an accepted payload besides the metrics: version, purpose, policy, attestation, and the counts of at least 50 artifacts and 200 work units |
| BilingualPayload.AcceptedMetrics | src/k_slide/bilingual_adjudication.py:372-377 | an accepted payload has exactly ten metrics, each NaN or within 1e-12 of the number of incorrect decisions or of the share of correct ones |
| BilingualPayload.CleanMetric | src/k_slide/bilingual_adjudication.py:372-375 | a critical metric of zero in an accepted payload means that no decision of that metric is incorrect |
| Sorting.SortSorts | src/k_slide/bilingual_adjudication.py:123-126 | sorting rearranges its argument into the order of its key |
| Sorting.SortedFixed | src/k_slide/bilingual_adjudication.py:123-126 | a list equals its sorted form exactly when it is in order, which is the test made on every list of the contract |
| Sorting.SortedUnique | src/k_slide/bilingual_adjudication.py:365 | when no two different members compare equal, the sorted form of a collection is unique |
| CandidateYaml.TopIsParent | src/k_slide/certification.py:643-645 | after popping, the top of the stack is the nearest open line with less indentation |
| CandidateYaml.StackPopped | src/k_slide/certification.py:643-662 | the indentations on the stack stay strictly increasing, the root stays at the bottom, and the stack holds exactly the open mappings |
| CandidateYaml.HeapStep | src/k_slide/certification.py:654-662 | storing an entry keeps every opened node a dictionary with the entries of exactly its own lines |
| CandidateYaml.Append | src/k_slide/certification.py:646-650 | a list item is kept only by a list |
| CandidateYaml.CellsAreBlock | src/k_slide/certification.py:636-663 | what a reader sees of the nested dictionaries is the block structure of the lines |
| CandidateYaml.Feed | src/k_slide/certification.py:638-662 | one line is rejected exactly when it is a list item, since only mappings are ever opened, has no key, or has a value that cannot be read |
| CandidateYaml.Parse | src/k_slide/certification.py:638-663 | for every sequence of lines: rejected exactly when some line is; otherwise the dictionaries built with the stack read as the recursive block structure, later keys winning |
| Strings.StripMeaning | src/k_slide/certification.py:642 | stripping takes away white space at both ends, all of it and nothing else |
| CandidateYamlMeaning.LexMeaning | src/k_slide/certification.py:639-652 | what a line is, on its characters: passed over, list item, entry with indentation, key and text, or malformed |
| CandidateYamlText.LexEntry | src/k_slide/certification.py:651-657 | a rendered entry is read back as its indentation, its key and whatever follows the first colon |
| CandidateYamlText.RoundTrip | src/k_slide/certification.py:633-663 | for every finite nested mapping with plain keys and one-line values, its two-space rendering has that block structure, and a line is rejected only when its value cannot be read |
| Strings.SplitJoined | src/k_slide/certification.py:638 | splitting a text at its line breaks gives back the lines it was joined from |
| CandidateYamlText.ParseText | src/k_slide/certification.py:633-663 | for every text: rejected exactly when some of its lines is; otherwise the dictionaries read as the block structure of its lines |
| CandidateYamlText.ParseRendered | src/k_slide/certification.py:633-663 | parsing the text of the rendering fails exactly when one of its values cannot be read, and otherwise gives dictionaries that read as the mapping |
| CandidateFactors.MergedMeaning | src/k_slide/certification.py:740-747 | merging the values of a field succeeds exactly when the set ones are equal, though perhaps written differently, and gives one of them or the last unset one |
| CandidateFactors.MergeAll | src/k_slide/certification.py:727-760 | the loops over aliases succeed exactly when no field has two different set values, and leave in each field the merge of all that was said about it |
| CandidateFactors.CanonicalBehavior | src/k_slide/certification.py:679-697 | the behavior configuration is accepted exactly when it has behavior names only and aliases have equal values, and each canonical name gets the value visited last |
| CandidateFactors.RunUnique | src/k_slide/certification.py:717-784 | for given visiting orders a candidate has at most one canonical form |
| CandidateFactors.Canonicalize | src/k_slide/certification.py:1275-1282 | the canonicaliser returns this form, and raises exactly when there is none |
| CandidateFingerprint.SharedField | src/k_slide/certification.py:748-760 | a behavior field given at the top level is in the merged behavior configuration, and a set value is equal in both places |
| CandidateFingerprint.StoredAgain | src/k_slide/certification.py:1275-1282 | in whatever order stored factors are visited again, they are accepted exactly when the stored version is current, and give themselves exactly when no field is stored differently at the top level and in the configuration |
| CandidateSurvival.StoredVersion | src/k_slide/certification.py:1281 | the stored version is current exactly when the version of the candidate is: its own or embedded candidate_spec_version, else its schema_version, else the default |
| CandidateSurvival.SingleAgrees | src/k_slide/certification.py:748-760 | a behavior field with one name is always stored alike at the top level and in the configuration |
| CandidateSurvival.PairAgrees | src/k_slide/certification.py:727-760 | a behavior field with two names is stored alike exactly on a condition about the values and orders that the candidate gives |
| CandidateSurvival.AcceptedAgain | src/k_slide/certification.py:1275-1282 | stored factors are accepted again exactly when the version of the candidate is the current one |
| CandidateSurvival.CanonicalAgain | src/k_slide/certification.py:1275-1286 | for one order of the behavior names, the factors of an accepted candidate survive their own canonicalisation exactly when its version is current and each field with two names is stored alike |
| CandidateOrders.OtherRun | src/k_slide/certification.py:749 | for a field with two values that the configuration does not settle, another order of the behavior names is accepted too and keeps the other value |
| CandidateOrders.SameForEveryOrder | src/k_slide/certification.py:749 | the factors are the same for every order of the set of behavior names exactly when the configuration settles each such field |
| CandidateOrders.SurvivesAlways | src/k_slide/certification.py:1275-1286 | whatever the order of the behavior names, the factors survive exactly when the version is current, no field has two different values, both unset or both equal, that the configuration leaves open, and an alias that decides in the configuration says what the top level says |
| CandidateOrders.WithoutAliases | src/k_slide/certification.py:1275-1286 | without second names in the configuration and without two values of one field, the factors survive exactly when the version is current, whatever unset markers are used |
| CandidateWitnesses.HiddenFails | src/k_slide/certification.py:706-715 | a version 0.9 in the embedded candidate beside schema_version 1.1 is accepted and stored, and the stored factors are refused |
| CandidateWitnesses.NullFails | src/k_slide/certification.py:1281 | an explicit null version is accepted, and the stored factors are refused |
| CandidateWitnesses.TwinsFail | src/k_slide/certification.py:740-757 | a field given under both names with different values, both unset or both equal, is accepted, and for some order of the names its factors change |
| CandidateWitnesses.MixedMarkers | src/k_slide/certification.py:814-815 | such a candidate: generation is null and generation_settings is UNSET |
| CandidateWitnesses.EqualNumbers | src/k_slide/certification.py:740-757 | such a candidate: one temperature written as 0 and as 0.0 |
| CandidateWitnesses.AssumptionsHold | src/k_slide/certification.py:814-815 | there are policies that meet every assumption made of them here |
| CandidateIgnored.IgnoredFields | src/k_slide/certification.py:1275-1282 | manifest paths, termbase governance, certification outputs and experiment-only fields, also inside an embedded candidate or a configuration, never change the factors and never decide acceptance |
| CandidateMeaning.FieldMeaning | src/k_slide/certification.py:727-739 | each top-level field is an identity factor under its own or another name, passed over, or refused; the names are listed |
| CandidateMeaning.CheckedVersion | src/k_slide/certification.py:706-714 | which version is checked: the outer one if there is any, else that of the embedded candidate, and none at all passes |
| CandidateMeaning.AcceptedFields | src/k_slide/certification.py:717-739 | an accepted candidate, with what is embedded in it, has known fields only, no `retention_days`, and an accepted version |
| CandidateMeaning.PlainFactor | src/k_slide/certification.py:1275-1282 | a factor with one name is what the candidate says, and absent exactly when the candidate does not say it |
| CandidateMeaning.OtherFactors | src/k_slide/certification.py:1278-1281 | manifest path and governance are left out, the manifest hash is null unless given, the version is a text with its defaults, and the configuration is the canonical one |
| CandidateMeaning.PolicyFactor | src/k_slide/certification.py:766-783 | retention, model and corpus policies are stored in their canonical form |
| CandidateMeaning.RequestedModelFactor | src/k_slide/certification.py:740-747 | the requested model is given under one of its three names, and is a set value if any of them is |
| CandidateMeaning.DefaultsMeaning | src/k_slide/certification.py:761-764 | model and OCR provider of the configuration come from the top level exactly when the configuration lacks them |
| DependencyLock.AsciiLowering | src/k_slide/certification.py:266 | lower-casing of the letters of ASCII has the properties of lower-casing that the proofs use |
| DependencyLock.NameIsCanonical | src/k_slide/certification.py:265-266 | a canonical name is in lower case, has no other separator than single hyphens, and no surrounding white space |
| DependencyLock.CanonicalFixed | src/k_slide/certification.py:265-266 | the names in canonical form are exactly those that canonicalisation leaves alone, and canonicalisation is idempotent |
| DependencyLock.CanonicalInventory | src/k_slide/certification.py:310-333 | the inventory loop raises exactly on nameless, versionless, scanner or duplicate packages, and otherwise returns the deployed packages sorted by name |
| DependencyLock.InventorySorted | src/k_slide/certification.py:330-333 | the inventory is strictly sorted by name and is a rearrangement of the deployed packages |
| DependencyLock.OrderIndependent | src/k_slide/certification.py:310-333 | acceptance and inventory do not depend on the order of the packages |
| DependencyLock.InventoryFixed | src/k_slide/certification.py:310-333 | canonicalising an inventory gives the same inventory |
| DependencyLock.LockText | src/k_slide/certification.py:346-352 | the lock is printed exactly for acceptable non-empty inventories |
| DependencyLock.LoadLock | src/k_slide/certification.py:355-376 | the loader accepts exactly texts of exact requirements for an acceptable non-empty inventory, and returns that inventory |
| DependencyLock.LineOfItem | src/k_slide/certification.py:365-371 | a printed line is read back as its package |
| DependencyLock.LockRoundTrip | src/k_slide/certification.py:346-376 | for names normalised as in the section "Normalized Names" of PEP 503 and one-line versions without " @ ", the printed lock is accepted and gives back the inventory |
| DependencyLock.PrintAndLoad | src/k_slide/certification.py:346-376 | printing and loading returns the canonical inventory |
| DependencyMeaning.CollapseMeaning | src/k_slide/certification.py:265-266 | each maximal run of separators becomes one hyphen, and all other characters stay in order |
| DependencyMeaning.InventoryMeaning | src/k_slide/certification.py:310-333 | an inventory is refused for an unnamed, versionless or scanner item or for two deployed items of one name, and otherwise lists exactly the deployed packages |
| DependencyMeaning.LineMeaning | src/k_slide/certification.py:365-373 | a line is passed over when blank or a comment, and read as a package exactly when it is name, "==" at its first place and version, without " @ " or leading hyphen |
| ScorerGate.CheckClaim | evals/model_scorers.py:217-227 | the codes one expected claim adds, from the first claim of its kind; none exactly when that claim cites known evidence and says an accepted phrase |
| ScorerGate.ClaimScore | evals/model_scorers.py:210-228 | the claim codes are exactly those of the expected claims, there are none exactly when every expected claim is answered, and the score is the number of faults |
| ScorerGate.CheckTable | evals/model_scorers.py:360-384 | the codes one required table adds: a cardinality mismatch for missing, extra or repeated cells, the table if it is absent, else each missing cell |
| ScorerGate.TableFailures | evals/model_scorers.py:353-384 | the table loop reports exactly the cardinality mismatches, absent tables and missing cells of the required tables |
| ScorerGate.ProcessRelationScore | evals/model_scorers.py:189-207 | the score is below one exactly when there are failures, and there are none exactly when every expected relation is bound and observed |
| ScorerGate.ScoreTranslationPatch | evals/model_scorers.py:332-457 | the critical failures are exactly the declared ones, and the stored evidence is the declared reduction |
| ScorerGate.ScorerGateCodes | evals/model_results.py:107-141 | the gate codes are exactly those the stored evidence declares |
| ScorerGate.GateAgrees | evals/model_results.py:107-141 | the gate finds exactly the critical failures of the scorer and the table failures that name a table or cell; with no required region the omission has to be added back |
| ScorerGate.GateAgreesExactly | evals/model_results.py:107-141 | the lists agree exactly when some region is required or the chart matcher or the relation binder reports an omission |
| ScorerGate.OptionalOnlyDiffers | evals/model_scorers.py:339 | a unit with an optional region only fails for an omission in the scorer, and the gate finds nothing |
| ScorerGate.ScoreThenGate | evals/model_results.py:193-206 | scoring and then gating the stored evidence: the same codes but for named tables and cells, and but for the omission exactly when no region is required and no matcher reports one |
| ScorerGate.DeriveFindings | evals/model_results.py:176-206 | the findings are exactly the codes of each unit, the codes of the case that no unit accounts for, and the runtime codes |
| ScorerGate.NoFindings | evals/model_results.py:176-206 | a row has no findings exactly when no unit has a critical failure or gate code and the case adds none |
| ScorerGate.ScoredUnit | evals/model_results.py:193-206 | for a scored unit the codes in the findings are its critical failures and the tables and cells they name |
| ScorerMeaning.CriticalMeaning | evals/model_scorers.py:332-440 | the critical failures on the lists of the scene itself: required regions left out or carried last without a reason, tables and cells missing, extra or repeated, claims, relations, material regions resolved by mistake, repeated regions, and what the matchers report |
| ScorerMeaning.OmissionMeaning | evals/model_scorers.py:337 | a required region that no item carries, or whose last item is unresolved without a reason, fails scorer and gate; if some region is required and none is like that, an omission comes from the chart matcher or the relation binder only |
| ScorerMeaning.TableMeaning | evals/model_scorers.py:353-384 | the table codes on the lists of the scene: what the first patch table of the same identity gives, compared with the required cells |
| ScorerMeaning.ClaimMeaning | evals/model_scorers.py:210-228 | the claim codes on the lists of the scene: the first claim of the expected kind, what it cites and what it says |
| ScorerMeaning.FindingMeaning | evals/model_results.py:190-201 | a finding of a unit is one of its own critical failures or gate codes, under its identity if it has one |
| ReleaseLadder.SupportedHasEvidence | evals/release.py:352-353 | a supported state has all the evidence required of it and of the states below |
| ReleaseLadder.DeriveReleaseState | evals/release.py:488-503 | the derived state is the highest one up to the request whose named records, and those of each state below, exist without other blockers |
| ReleaseLadder.CandidateGate | src/k_slide/candidate_revocation.py:686-701 | the gate passes exactly when the ledger of the candidate can be read and the last event naming any category is not a REVOKE |
| ReleaseLadder.ReleaseLabel | evals/release.py:635-656 | the label is the highest state up to the request that is earned and, for a pilot or production state, passes the gate; PILOT_APPROVED and PRODUCTION_CERTIFIED mean that the gate passed and that security, reliability and governance records (for production the canary record too) exist; when one of the two is requested and the gate fails, the label is at most INTERNAL_VALIDATED and a blocker says so; no blockers means the request is met |
| ReleaseLadder.SupportedIsEarned | evals/release.py:339-353 | a state is supported exactly when it is earned: the records named for it and for each state below exist, and no other blocker stands |
| LineWrap.StaysAhead | evals/generator.py:47-61 | after as many lines, greedy lines hold at least as many words as those of any other wrapping |
| LineWrap.FullIsMinimal | evals/generator.py:47-61 | a wrapping in which no line could take the next word has as few lines as any |
| LineWrap.Wrap | evals/generator.py:47-61 | the lines hold exactly the words in order, each line fits or is a single word, and no other such division has fewer lines |
| LineWrap.LinesMeaning | evals/generator.py:47-61 | the lines, each followed by a blank, spell the words, each followed by a blank, and a line over the limit is one of the words |
| KeyHandoff.AccessKeyHandoff.Connect | src/k_slide/access_key_handoff.py:33-54 | for every failure of pipe, dup, dup2 or set-inheritable the descriptors are as before; on success the reserved one is the read end and a different one the write end of one new pipe |
| KeyHandoff.AccessKeyHandoff.Establish | src/k_slide/access_key_handoff.py:18-61 | a failed construction, also for a failing encoding, leaves the descriptors as before and no key in memory; a successful one adds exactly the two ends and keeps the encoded key |
| KeyHandoff.AccessKeyHandoff.WriteAll | src/k_slide/access_key_handoff.py:71-80 | the partial-write loop ends and has delivered the key in order, or a prefix of it on an error |
| KeyHandoff.AccessKeyHandoff.Send | src/k_slide/access_key_handoff.py:67-84 | on every exit the buffer is zeroed and the write end closed |
| KeyHandoff.AccessKeyHandoff.ClearAccessKey | src/k_slide/access_key_handoff.py:98-101 | every byte of the buffer is zero and no key is left |
| KeyHandoff.AccessKeyHandoff.Close | src/k_slide/access_key_handoff.py:86-91 | both descriptors are closed, nothing else is, and the buffer is zeroed |
| KeyHandoff.Session | src/k_slide/access_key_handoff.py:15-108 | a whole use restores the descriptor table whatever fails, and the pipe received the key or a prefix of it |

## Left out

- Key handling, file permissions, symlink and size checks, JSON canonicalisation, datetime parsing and command-line code: input and output.
- RevocationStore.Store.Record: the time zone rules and the key-length check of `_time` and `_key` are not modelled; times are integers and verification is equality with an arbitrary `mac`.
- RevocationStore.Store.ReadState: does not model two candidates whose directory names collide; directories are keyed by the candidate itself.
- RevocationConcurrency.ReadsAreLinearizable: taking the lock, reading and checking is one step of a writer, because no other writer of the same candidate runs meanwhile; reading the names of a directory is one step; one reader is followed, since readers do not affect each other.
- RolloutProtocol.NextKeepsInv: a process that dies under a lock may leave all that the lock protects unreadable, which allows more than the file writes do; rollout signatures, policy expiry and the rollout history are not modelled, and reading policy, state, head and history without the lock is one step: the read fails unless the head names the state, so what it returns is what the head named when it was read.
- MediaTraces.MediaCompliance: does not return the required, read and item lists of the latest attempts, the crop-recall ratio, the context-image flag or the forbidden tools; it returns the verdict, the traces and the number of attempts.
- MediaTraces.Scan: tool names and payload fields arrive extracted; how the plan is found in a result is not modelled.
- BilingualPayload.ValidateDocument: shapes are given by types, errors are not told apart, and the governance functions of corpora, canonical bytes included, are arbitrary.
- BilingualPayload.ValidatePayload: metrics that are numbers are exact reals; the rounding of floating-point division is not modelled.
- BilingualChecker.TwoIndependentReviews: independence is the difference of reviewer identities, as in the code.
- CandidateYamlText.ParseText: what a scalar means, and on which texts reading it raises, are arbitrary functions of its stripped text.
- CandidateFactors.Canonicalize: the nested policy and corpus canonicalisers, `str` and `==` are parameters, and `==` is an equivalence, which leaves out NaN; lists of pairs, and what else `dict` accepts, are one kind of value.
- CandidateSurvival.CanonicalAgain: states equality of the factors; the fingerprint is a hash of them.
- DependencyLock.CanonicalInventory: lower-casing is any function with the properties named `Lowering`; an item that is no mapping is refused as one without a name.
- ScorerGate.ScoreTranslationPatch: numeric, modality, Hangul, header and chart matchers are inputs; sorted duplicate-free lists are sets; scores other than coverage, claims and process relations are not computed.
- ScorerGate.ClaimScore: phrases and claim texts are in lower case already, a code carries its kind before upper-casing, and every claim is a mapping.
- ScorerGate.DeriveFindings: the runtime facts of a row are reduced to the codes they add, and a finding is its code and work unit.
- ReleaseLadder.DeriveReleaseState: the blockers that do not come from missing evidence are an arbitrary function of the state.
- LineWrap.Wrap: takes the words of the text, as `str.split` gives them.
- KeyHandoff.Session: closing a descriptor does not fail; inheritance by the child process and the interrupting of system calls are not modelled.
- Rollout, quality-policy and corpus-governance modules beyond what the above needs, GitHub capture, builds, OCR, fonts, image and slide drawing: plumbing or foreign libraries.
- Flat shape validators of evidence payloads: each is settled by reading it.
