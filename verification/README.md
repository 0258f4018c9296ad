# NightWarden: a verified model of the investigation core

NightWarden runs LLM investigations over one durable SQLite row per session. This project
models the parts of it whose correctness is not visible in any one function, and proves
what they keep.

## What is modelled

- **The session protocol.** `Transcript`, `SessionTables` and `TranscriptWrites` hold one
  session's row, its transcript and what each committed statement does to them. `Store`,
  `Dispatcher`, `RunState` and `HumanInput` are the imperative side: the tables as a class
  with one method a store operation, the dispatcher over it, a run's buffered transcript,
  and one request answering a gate. `Protocol` puts one session under every interleaving of
  its run, the people answering its gate, alert deliveries, crashes at any step and boot
  recovery; the `Protocol*` files prove what every history keeps, and `CrossedAnswers`,
  `CrossedClaims` and `CrossedReads` reach the states that break what only calm ones keep.
- **The turn and the evidence record.** `TurnPipeline` is the two-pass tool scheduler
  against a sequential interpreter, and `ReadBatches` when a batch's schedule shows. `Seed`
  cuts a damaged transcript back to a replayable conversation. `Evidence`, `RecordFinding`
  and `Record` are the citation trail and the append-only record; `EvidenceOfHistories` and
  `RecordOfHistories` carry them over whole histories. `Guardrails` bounds how often a run is
  sent back to work.
- **Self-contained algorithms.** `EditDistance`, `Diff`, `CapOutput`, `ToolSchema`, `Fleet`,
  `Reconciler` and `TargetResolution`.

## Reading the protocol

- One exported store operation is one step. The exceptions are stated at the head of
  `Protocol.dfy`: the two statements of `deletePendingHumanInput` are two steps, because
  boot recovery exists for the gap between them; a suspending run's park and its finalizer
  are one step; a route's "no gate pending" check and the claim behind it are one step; boot
  recovery reads a transcript and answers it in one step, because the server does not listen
  yet and no run holds that session. A run claims its session, reads the transcript for its
  handles and reads the next seq in three steps; a person's answer is stamped in one step and
  numbered in another. The router's look for a session and each alert's insert are two.
- `claimPendingHumanInput`, `appendRowsAndResolve` and `deletePendingHumanInput` test that
  *some* gate is set, not that it is the one the request read. Per-gate statements are
  therefore made per epoch, from one park to its clear. `gates`, `claims`, `starts`, `clears`
  and `slipped` in the state, and an author's `read`, `seen` and `crossed`, are history: no
  step's effect on a session depends on them. A *calm* history is one where every answer
  lands on the gate its author read and every resume finds no gate.
- An author is a run or a person writing rows. It is *crossed* when handles were committed
  between its read of the transcript and its read of the next seq.
- A write under a seq read before somebody appended repeats a stored one, so the primary key
  aborts its transaction. That keeps seqs 0..n-1 on every history. It does not compare
  handles, which is the first point below.

## What turned out false, and exactly when it holds

- *Every handle is issued once.* An author reads the transcript, which tells it the next
  handle, and then the next seq. If a row with handles commits in between, the seq is fresh,
  the key has nothing to say, and the author issues a handle that is taken
  (`CrossedReadsRepeatAHandle` reaches such a state). On every history the handles are e1 to
  eN, each once, if and only if no crossed author committed a row with a handle
  (`TranscriptStaysSound`); where answers land on the gate that was read and resumes find no
  gate, none does (`CalmStaysSound`).
- *Every reachable transcript gives a replayable seed.* False: a late answer can clear a
  later gate (`CrossedAnswersBreakTheSeed` reaches such a state). Each single clear answers
  the parked turn if and only if the gate it clears is the one its author read
  (`ClearAnswersIffGateWasRead`), and on histories where every answer lands that way and
  every resume finds no gate, the seed is replayable (`SeedStaysReplayable`).
- *An approved call starts at most once.* Each gate epoch has one start at most
  (`EachGateOnce`), but a claim tests only that some unclaimed gate is set, so a second
  reader of an answered gate can claim the next one and start the first call again
  (`CrossedClaimStartsTwice`). Two starts are of one call if and only if both their authors
  read the same gate, and a claim takes its own epoch's call if and only if the gate set is
  the one it read (`CallsStartOncePerReading`, `ClaimTakesItsCallIffGateWasRead`).
- *Every id stored on a finding names an answered call forever.* `answeredTurn` stamps the
  saved results again whenever an answer is written, so a crossed answer gives a call a
  second handle and the walk keeps only the last (`LateAnswerLosesACitation`). On every
  history a stored id resolves to exactly the calls whose last handle it is; and unless a
  crossed author committed a handle, that is its own call, if and only if no later result of
  it carries a handle (`FindingsResolveIff`). Where answers land on the gate that was read,
  it always is (`FindingsResolveForever`).
- *The report is behind exactly when something is new.* The count of approved writes can
  fall: a late rejection overwrites an approval (`LateRejectionUnreleases`). `BehindIff`
  says what the comparison tells on every history and exactly when it is right, and
  `UnreleasedIff` when a write is taken back; where answers land on the gate that was read,
  none is (`BehindMeansSomethingNew`).
- *A session that is not running always stores its derived status.* The router looks for a
  live session in one statement and inserts the alert in another, and `injectAlert` does not
  refresh the status. So the status is right if and only if the session is outside the gap
  of a continue gate's delete and no alert joined it while it was stored as `resolved` since
  its status was last written (`StatusStaysTold`; `LateAlertMisleads` reaches the failure).
- *No firing is open twice.* Dedup reads the table, which holds none of the delivery in hand,
  so it holds if and only if the firings that got through are distinct.
- *Any order of a read batch gives the same answers.* `RecordFinding` and `OpenCandidates`
  are declared reads and write to the record. A batch of quiet reads and of such calls gives
  the same answers and the same record under every schedule if and only if at most one of
  them records a finding, at most one opens any candidate, and the finding does not settle an
  id that the other opens, which the record's length and the inputs tell beforehand
  (`OrderIsUnseenIff`, and `RecordingBatchIff` for the two tools themselves;
  `RecordingReadsCanCross` and `SettlingBesideOpeningShows` are the two ways it fails).
- *Every null-free call has a form strict mode would send.* It has one if and only if no
  object in it, at any depth, leaves out an optional field that lists the values it takes
  (`PreimageIff`; `SomeValueHasNoPreimage` is such a call).
- *The range a refusal states is exact.* With soundly numbered handles, if and only if no
  call was answered again under another (`RefusalRangeIsExactIff`).
- *Recovery leaves every status right.* If and only if that of every session it passes over
  was: one that a late alert overtook is not stranded, and stays wrong
  (`RecoverySettlesAll`).

## Where the code and its own words differ

- `recover.ts` says a session waiting on no gate died just after its approved call ran. An
  approval clears its gate in the transaction that writes the answer and refreshes the
  status; only the gap inside deleting a continue gate leaves that state, and it runs no call.
- `report.ts` says a parent must exist already or have been opened earlier in the same call.
  The candidate's own id is added first, so naming itself is accepted
  (`SelfParentIsAccepted`).
- The sweep's three age bands suggest 15, 12 and 46 questions. The spacing carried over a
  band's edge forbids the 46th, so the exact bound is 72.

## Conventions

A handle "e<n>", a finding "f<n>" and a candidate "c<n>" are their numbers; a provider's
tool-call id is a number unique to its call. Ids the model cites arrive trimmed. Clocks,
random ids, LLM replies, tool outcomes and the wording of messages are parameters or
uninterpreted functions. `best * 5 > longer * 2` stands for the comparison with
`longer * 0.4`, which agrees in double precision. UTF-8 is RFC 3629, sections 3 and 4.
Schema validity is JSON Schema Validation 2020-12, sections 6.1.1, 6.1.2 and 6.5.3.
Stored JSON is taken as well-formed. `dafny verify dfyconfig.toml` checks the project.
A method whose contract speaks of the old state is proved against a function of it, and what
that function comes to is said of the tables, the rows and the inputs themselves by the
method's own clauses or by the lemmas listed beside it.

## Model

| member | source | states |
|---|---|---|
| `Transcript.HighestEvidenceNumber` | apps/api/src/agent/evidence-id.ts:15-24 | the walk over every part of every row returns the largest handle stamped anywhere, and 0 when there is none |
| `Transcript.ResultParts` | apps/api/src/agent/evidence-id.ts:28-45 | each answer becomes one part in order; the citable ones that did not fail take the next handles and no other does; the returned counter is past the last one issued |
| `Transcript.StampHandles` | apps/api/src/agent/evidence-id.ts:28-45 | the handles in a stamped answer are exactly from, from+1, ... in order, as many as there are citable answers |
| `Transcript.StampTells` | apps/api/src/agent/evidence-id.ts:28-45 | each answer keeps its call, text and flag in its own place, and takes a handle if and only if its call is citable and it did not fail |
| `Transcript.StampIds` | apps/api/src/agent/evidence-id.ts:28-45 | a stamped row answers exactly the calls it was handed and asks for nothing |
| `Transcript.NextSeqIsPast` | apps/api/src/session/transcript-store.ts:75-85 | the next seq is larger than every stored one, whatever the rows |
| `TranscriptWrites.StaleWriteCollides` | apps/api/src/session/transcript-store.ts:50-73 | rows numbered from a snapshot hit the primary key exactly when somebody appended since and there is something to write |
| `TranscriptWrites.FreshWriteExtends` | apps/api/src/session/transcript-store.ts:50-73 | a write computed from one reading of the transcript that does not hit the key keeps seqs 0..n-1 and handles e1..eN |
| `TranscriptWrites.BracketGrows` | apps/api/src/session/human-input.ts:126-146 | a row that asks only new calls, or answers all of the row before it, or leaves no call open, keeps the bracket that replaying needs |
| `TranscriptWrites.ReplayBrackets` | apps/api/src/session/recover.ts:70-115 | the replay row answers every open call at once, so it may stand away from its question |
| `Seed.ThroughLastAnsweredExchange` | apps/api/src/session/seed.ts:11-26 | the two loops cut at the first row holding a call no row answers |
| `Seed.UnwindIsSurvivors` | apps/api/src/session/seed.ts:36-53 | a row is dropped if and only if it is an error or some later error comes before any assistant turn without calls from that row on |
| `Seed.OneErrorDropsItsExchange` | apps/api/src/session/seed.ts:45-52 | where the one error is the last row, what is kept is the longest front that ends on an assistant turn without calls |
| `Seed.BuildSeed` | apps/api/src/session/seed.ts:39-55 | the push and pop loop leaves exactly the rows no error drops, in order, up to the first that asks a call none of them answers; an assistant row speaks for the assistant and every other for the user |
| `Seed.SeedIsReplayable` | apps/api/src/session/seed.ts:9-26 | for every bracketed transcript the seed has no error row and each of its calls is answered by a later row inside it |
| `Seed.SeedIsWhole` | apps/api/src/session/seed.ts:39-55 | the seed is the whole transcript if and only if no row is an error and no call is unanswered |
| `Seed.ReseedingIsIdempotent` | apps/api/src/session/seed.ts:39-55 | seeding again from the seed of a bracketed transcript changes nothing |
| `SessionTables.UnansweredIds` | apps/api/src/session/recover.ts:41-58 | the pending calls are exactly those asked somewhere and answered nowhere |
| `SessionTables.ExactMeans` | apps/api/src/session/status-store.ts:47-57 | the derived status of a row, case by case: a gate leads, then a recovery, then a stop, then an error at the end |
| `SessionTables.RecoverySettles` | apps/api/src/session/recover.ts:150-191 | whatever state a crash left and wherever recovery throws, a session neither running nor waiting without a gate is untouched; any other ends running exactly when it was resumed, never waiting without a gate, with its gate, claim and transcript kept and its status exact; unless it threw or was resumed it ends on the error row that says which of the two it was |
| `SessionTables.RecoveryReplaysIff` | apps/api/src/session/recover.ts:60-74 | a killed session's pending calls are answered if and only if every one of them reads or is idempotent; then one row holds each result in its call's place, with a handle exactly where its tool is citable and it did not fail; otherwise nothing is answered |
| `SessionTables.RecoveryResumesIff` | apps/api/src/session/recover.ts:117-126 | a session is dispatched again if and only if it was running, nothing threw, an alert of it is open, and its calls were just run again or its last row is at most fifteen minutes old |
| `Store.Database.CreateSession` | apps/api/src/session/store.ts:24-39 | inserts the row once; a second call changes nothing |
| `Store.ExactSays` | apps/api/src/session/status-store.ts:49-57 | over the tables: a session with no gate is resolved if and only if it owns an alert and none it owns is open, whatever its stop and its last row; and every status is exact if and only if each session not running says so |
| `Store.Database.RefreshSessionStatus` | apps/api/src/session/status-store.ts:68-78 | a session that is not running stores what the tables say of it, recovery before stop before error, and no other column and no other session changes; a running one keeps its status |
| `Store.Database.ClaimRun` | apps/api/src/session/status-store.ts:82-90 | succeeds exactly for an existing session that is not running; then it runs with its stop stamp cleared, and otherwise nothing changes |
| `Store.Database.ReleaseRun` | apps/api/src/session/status-store.ts:105-112 | only a running session changes, in its status alone, which then says what the tables say |
| `Store.Database.MarkDone` | apps/api/src/session/status-store.ts:157-163 | whatever the session was, its status and nothing else changes, and says what the tables say |
| `Store.Database.MarkStopped` | apps/api/src/session/status-store.ts:94-101 | stamps the stop; a session that is not running then says what the tables say, which is resolved when its alerts all cleared, and a running one keeps its status |
| `Store.Database.AppendTranscriptRows` | apps/api/src/session/transcript-store.ts:52-73 | all rows and a refreshed status, or nothing when a seq repeats or the session is missing |
| `Store.Database.AppendErrorMessage` | apps/api/src/session/transcript-store.ts:89-115 | one error row under the next seq, never colliding |
| `Store.Database.AppendRowsAndPark` | apps/api/src/session/transcript-store.ts:119-148 | rows, gate, action_required and no claim together, or nothing |
| `Store.Database.AppendRowsAndResolve` | apps/api/src/session/transcript-store.ts:152-185 | the answered turn, no gate, no claim and a status that says what the tables say together, exactly when a gate is set and no seq repeats; otherwise nothing, told apart as lost and aborted |
| `Store.Database.ClaimPendingHumanInput` | apps/api/src/session/gate-store.ts:59-70 | compare and swap on an unclaimed gate |
| `Store.Database.DeletePendingHumanInput` | apps/api/src/session/gate-store.ts:72-90 | clears a set gate and its claim and leaves a status that says what the tables say; otherwise nothing |
| `Store.Database.MarkAlertCleared` | apps/api/src/session/alerts-store.ts:88-111 | stamps exactly the open rows of that firing, queued ones included, returns exactly the sessions that owned one and refreshes no other; each of them not running then says what the tables say, resolved where none of its alerts is open any more, whoever ended its run |
| `Store.ClearingKeepsExact` | apps/api/src/session/alerts-store.ts:99-110 | refreshing only the owners of cleared rows is enough: every stored status stays exact |
| `Store.PassKeepsExact` | apps/api/src/dispatcher.ts:161-183 | a promotion pass rewrites no firing and no clear stamp, and keeps every status exact and every owner an existing session |
| `Store.EveryReplayable` | apps/api/src/session/recover.ts:62-74 | true exactly when every pending call names a registered tool that reads or is declared idempotent |
| `Store.Replay` | apps/api/src/session/recover.ts:78-98 | one result per pending call in call order, and exactly the citable calls marked |
| `Store.Database.AnswerPendingCalls` | apps/api/src/session/recover.ts:70-115 | one row answering every open call under the next handles if and only if each of them reads or is idempotent; otherwise no change |
| `Store.Database.RecoverDeadRuns` | apps/api/src/session/recover.ts:130-191 | every stranded session ends as one recovery pass leaves it, one that throws included and costing no other; every other is untouched; resumed counts those that run, and failed the rest that did not throw |
| `Store.RecoverySettlesAll` | apps/api/src/session/recover.ts:148-191 | after recovery, whatever threw, every status is exact if and only if that of each session it passed over was; every gate is as it was, and a seat is held only by a gated session or by a resumed one with an open alert |
| `Store.BootRunsAgainIff` | apps/api/src/session/recover.ts:60-126 | over the tables, after recovery a killed session has its pending calls answered if and only if each reads or is idempotent, and runs if and only if an alert it owns is open and it is fresh |
| `Dispatcher.EndingSettles` | apps/api/src/dispatcher.ts:69-155 | an ended run holds a seat if and only if a gate is set; otherwise it stores resolved when its alerts all cleared, else stopped when stopped, else failed when it failed or ends on an error, else completed; a failure is recorded with its kind, one more attempt and its error row, and any other ending clears it and writes no row |
| `Dispatcher.UncoveredInOrder` | apps/api/src/alerts/route-alert.ts:29-34 | dedup keeps the firings at exactly the places no open row has, in their order |
| `Dispatcher.JoinsTheCover` | apps/api/src/alerts/route-alert.ts:38-48 | a delivery joins the session that owns the first alert of its group and runs or waits: it gains the open rows, in order, its run the news, and nothing else moves |
| `Dispatcher.QueuesBehind` | apps/api/src/alerts/route-alert.ts:50-59 | where no session does, the firings queue behind every alert there is, and one promotion pass follows |
| `Dispatcher.RoutingKeepsOneOpen` | apps/api/src/alerts/route-alert.ts:19-59 | after a delivery handled alone no firing has two open rows, if and only if the firings that got through are distinct |
| `Dispatcher.RoutingKeepsExact` | apps/api/src/alerts/route-alert.ts:43-59 | injecting into a session that holds a seat, or queueing and promoting, leaves every status exact |
| `Dispatcher.Dispatcher.Start` | apps/api/src/dispatcher.ts:121-157 | a run starts exactly when the session exists and is not running, and the live handles stay the running sessions |
| `Dispatcher.Dispatcher.PromoteQueued` | apps/api/src/dispatcher.ts:161-183 | the loop terminates and leaves the tables the promotion pass describes |
| `Dispatcher.Dispatcher.FinishRun` | apps/api/src/dispatcher.ts:144-156 | the ending recorded, the seat given back, the inbox and the handle dropped, and then one promotion pass |
| `Dispatcher.Dispatcher.InjectAlert` | apps/api/src/dispatcher.ts:196-206 | the alert row first, then the run's inbox gains it at its end |
| `Dispatcher.Dispatcher.DrainInbox` | apps/api/src/dispatcher.ts:115-119 | everything that arrived, in order, once |
| `Dispatcher.Dispatcher.RouteDelivery` | apps/api/src/alerts/route-alert.ts:19-59 | counts exactly the uncovered firings and the rest, leaves the tables routing describes, and hands those firings, in order, to the inbox of the run that covers the group and to no other |
| `AlertTable.OldestWaiting` | apps/api/src/session/alerts-store.ts:167-178 | the waiting row first by arrival and then by id, or none exactly when nothing waits |
| `AlertTable.FactsMean` | apps/api/src/session/status-store.ts:26-47 | the counts a status reads say whether the session owns an alert and whether one it owns is open |
| `AlertTable.RowsAreConserved` | apps/api/src/session/alerts-store.ts:46-111 | under every interleaving of enqueueing, injecting, clearing and assigning, a row is never lost, moved or rewritten and gains an owner and a clear stamp at most once each |
| `AlertTable.AppendingFirings` | apps/api/src/session/alerts-store.ts:46-62 | appending rows of uncovered firings leaves one open row a firing if and only if they are distinct |
| `Promotion.PromotionTakesItsGroup` | apps/api/src/session/store.ts:43-68 | the new session owns exactly the waiting rows of the oldest row's group |
| `Promotion.PromotionShrinksTheQueue` | apps/api/src/dispatcher.ts:161-183 | each promotion leaves strictly fewer waiting rows, which is why the loop ends |
| `Promotion.PassFillsTheSeats` | apps/api/src/dispatcher.ts:161-183 | a pass that began within the limit never passes it, and stops only when seats are full or nothing waits |
| `Promotion.SeatsMean` | apps/api/src/dispatcher.ts:161-183 | the seats taken are the investigations that run or wait on a person |
| `Promotion.PassServesTheQueue` | apps/api/src/dispatcher.ts:161-183 | over a whole pass rows are conserved, a group is taken whole or left whole, no session gets two groups, and every taken group's oldest row stood before every row still waiting |
| `ProtocolWrites.TranscriptStaysSound` | apps/api/src/agent/loop/run-session.ts:183-190 | on every history of runs, people, crashes and recoveries row seqs are 0..n-1; and handles are e1..eN, each once and in row order, if and only if no author between whose two reads handles were committed went on to commit a row with a handle |
| `CrossedReads.CrossedReadsRepeatAHandle` | apps/api/src/session/human-input.ts:126-146 | a reachable history on which an answer stamped before another row was cited commits under a seq read after it: seqs are 0..n-1 and two calls share e1 |
| `ProtocolSeed.CalmStaysSound` | apps/api/src/session/human-input.ts:126-146 | where each answer lands on the gate that was read and each resume finds no gate, no read crosses: seqs are 0..n-1 and handles e1..eN, each once |
| `ProtocolStatus.StatusStaysTold` | apps/api/src/session/status-store.ts:49-112 | on every history a session that is not running stores exactly its derived status if and only if it does not wait on a gate that is gone and no alert joined it while it was stored as resolved since its status was last written; with the process up the first is a delete in progress, and exactly the running session has a live run |
| `ProtocolStatus.LateAlertMisleads` | apps/api/src/alerts/route-alert.ts:38-42 | a history with nothing left in progress ends in a session stored as resolved whose alert is open |
| `ProtocolStatus.BootIsRecovery` | apps/api/src/session/recover.ts:150-191 | the boot steps of a killed session compose to one recovery pass |
| `ProtocolStatus.ThrowIsRecovery` | apps/api/src/session/recover.ts:158-188 | where a session's recovery throws, the boot steps compose to the pass that stops there |
| `ProtocolStatus.EachGateOnce` | apps/api/src/session/human-input.ts:78-92 | on every history each gate epoch is claimed at most once, started at most once and cleared at most once |
| `ProtocolTrail.AnswersAreClears` | apps/api/src/session/transcript-store.ts:152-185 | on every history the rows people wrote are one to one, in order, the clears that committed: each answers exactly the calls of the gate its author read and decides the call that gate asked about |
| `ProtocolStatus.RefusedClaimNeverExecutes` | apps/api/src/session/human-input.ts:78-92 | in every later state of every history, no call was started for a request whose claim was found held, stale or not |
| `ProtocolSeed.CalmHistoriesKeep` | apps/api/src/session/human-input.ts:126-177 | on histories where each answer lands on the gate that was read and each resume finds no gate, wherever claims and deletes land, every reachable transcript is bracketed |
| `ProtocolSeed.SeedStaysReplayable` | apps/api/src/session/seed.ts:9-55 | on those histories every seed is replayable and its own seed |
| `ProtocolGates.ClaimTakesItsCallIffGateWasRead` | apps/api/src/session/gate-store.ts:59-70 | a claim takes the call of the gate it lands on if and only if that gate is the one its author read |
| `ProtocolGates.CallsStartOncePerReading` | apps/api/src/session/human-input.ts:284-334 | on every history two starts are of one call if and only if both their authors read the same gate; where each claim lands on the gate that was read, a call is started at most once over the whole session |
| `ProtocolGates.StartRepeatsIff` | apps/api/src/session/human-input.ts:323-334 | a call about to run was started before if and only if somebody who read the same gate started it |
| `CrossedClaims.CrossedClaimStartsTwice` | apps/api/src/session/gate-store.ts:59-70 | a reachable history starts one approved call twice, the second time under a claim of the next gate |
| `ProtocolSeed.ClearAnswersIffGateWasRead` | apps/api/src/session/transcript-store.ts:160-170 | the row a committed clear writes answers the turn the session is parked on if and only if the gate it cleared is the one its author read |
| `CrossedAnswers.CrossedAnswersBreakTheSeed` | apps/api/src/session/transcript-store.ts:160-170 | a reachable history on which a late answer clears a later gate leaves a transcript whose seed is not replayable |
| `HumanInput.UnpausedAnswersTheTurn` | apps/api/src/session/human-input.ts:126-211 | a settled gate is gone and its run started; one new row answers exactly the saved calls and the gated one under the next handles, and earlier rows stand |
| `HumanInput.AnsweredRowTells` | apps/api/src/session/human-input.ts:102-146 | the stored turn holds each saved result and the gated call's own in their places, each under a handle exactly where its call was made under a citable name and it did not fail, and the decision last |
| `HumanInput.SettleCall` | apps/api/src/session/human-input.ts:284-358 | past every refusal the stored turn holds the saved results and the gated call's own: a stale claim an error and an approval, a question what was said, an approval under a fresh claim what running the call brought, a rejection an error and a declined approval, with the status reported to match; only the third runs the call |
| `HumanInput.Respond` | apps/api/src/session/human-input.ts:213-358 | a request is turned away with 409 or 400 exactly where it meets no gate, no such call, a malformed reply or a claim within its ceiling, and changes nothing; any other leaves no gate and a running session, with the turn stored and the status reported as its decision asks; no other session changes |
| `RunStates.RunState.Stage` | apps/api/src/agent/loop/run-state.ts:75-88 | appends one row under the next seq and one message to the conversation, keeping the numbering |
| `RunStates.RunState.StageResults` | apps/api/src/agent/loop/run-state.ts:105-110 | appends the stamped answers and moves the handle counter past them, reporting whether any was citable |
| `RunStates.RunState.Flush` | apps/api/src/agent/loop/run-state.ts:90-101 | writes exactly the unwritten tail, with the gate when there is one; the tail counts as written even when the transaction aborts |
| `RunStates.FlushSoundly` | apps/api/src/agent/loop/run-state.ts:90-101 | a run in step with a sound transcript either aborts because somebody wrote first, or leaves the transcript sound and itself in step |
| `TurnPipeline.ClassifyPass` | apps/api/src/agent/loop/turn.ts:123-189 | the branching loop classifies each call as the rule for it alone says, given whether a gate was met |
| `TurnPipeline.GateMeans` | apps/api/src/agent/loop/turn.ts:137-184 | a call raises an approval gate if and only if the first tool offered under its name has policy approve for its input, and a clarification if and only if no tool is, an elicitation is, and its input is valid |
| `TurnPipeline.ClassifyMeans` | apps/api/src/agent/loop/turn.ts:123-189 | the gate is on the first call that needs a person: whose first-named tool has policy approve, or whose name is an elicitation's and its input valid; each call before it runs its own tool under policy auto, or is answered as invalid or unavailable; each after it is told it did not run; and the names refused are those nothing is offered under |
| `TurnPipeline.RunBatch` | apps/api/src/agent/loop/turn.ts:247-258 | whatever order the scheduler steps the calls in, each read answers as it would alone and the world is unchanged, when reads leave the world unchanged |
| `TurnPipeline.ExecutePass` | apps/api/src/agent/loop/turn.ts:226-259 | every step but a gate gets its own call's answer in its own place, and with quiet reads the pass equals running the steps in order |
| `TurnPipeline.TwoPassesAreOne` | apps/api/src/agent/loop/turn.ts:94-264 | deciding everything and then running it equals deciding and running one call at a time |
| `TurnPipeline.ProcessToolUses` | apps/api/src/agent/loop/turn.ts:98-264 | the turn suspends on the first call that needs a person and for what it needs, or not at all when none does; every other call gets one answer in emission order under any schedule; whatever the calls before it that have policy auto keep of the world, the turn keeps; with quiet reads it equals the sequential interpreter |
| `TurnPipeline.NothingRunsAfterTheGate` | apps/api/src/agent/loop/turn.ts:120-189 | the world a turn leaves is that of the calls before its gate that have a tool, each run once, in order, every one under policy auto; the calls behind the gate come back as errors naming it |
| `TurnPipeline.TurnAnswersItsCalls` | apps/api/src/agent/loop/run-turn.ts:91-112 | with distinct ids, the saved results and the gated call are together exactly the turn's calls, and apart |
| `ReadBatches.OrderIsUnseenIff` | apps/api/src/agent/loop/turn.ts:247-258 | a batch of quiet calls and of calls that record a finding or open candidates, whatever the finding settles or replaces, gives the same answers and the same record under every schedule if and only if at most one records, at most one opens any, and the finding does not settle an id opened beside it |
| `ReadBatches.EachSaysItsOwn` | apps/api/src/agent/loop/turn.ts:247-258 | where that holds, each call says what it would have said alone, under every schedule, and the record ends with each act done once |
| `ReadBatches.RecordingBatchIff` | apps/api/src/agent/tools/report.ts:149-171 | for the two recording tools themselves, whatever a batch brings and names, its schedule shows if and only if two record, two open, or one settles what another opens |
| `ReadBatches.SettlingBesideOpeningShows` | apps/api/src/agent/report.ts:373-392 | a finding and the candidate it settles in one batch: the schedule decides whether it is linked |
| `ReadBatches.RecordingReadsCanCross` | apps/api/src/agent/report.ts:369-392 | two findings recorded in one batch: two schedules tell the calls different ids |
| `EditDistance.TwoRowDistance` | apps/api/src/agent/loop/turn.ts:29-43 | the two-row loop computes the distance |
| `EditDistance.DistanceIsReached` | apps/api/src/agent/loop/turn.ts:29-43 | some insert, delete and substitute script from a to b costs exactly the distance |
| `EditDistance.NothingCheaper` | apps/api/src/agent/loop/turn.ts:29-43 | no script from a to b costs less |
| `EditDistance.DistanceIsAMetric` | apps/api/src/agent/loop/turn.ts:29-43 | symmetric, zero exactly on equal strings, and within the triangle inequality |
| `EditDistance.NearestOffered` | apps/api/src/agent/loop/turn.ts:47-61 | the first closest name, or none exactly when none is offered or five times the least distance exceeds twice the longer name |
| `Evidence.ToolCallsFrom` | apps/api/src/agent/report.ts:91-122 | the walk folds each part into the entry of its call |
| `Evidence.EntriesTellTheLast` | apps/api/src/agent/report.ts:91-122 | however often a call was answered, the walk makes one entry of it, which tells its name, its last handle, result and decision, and whether any result of it was an error |
| `Evidence.ResolvesToItsEnds` | apps/api/src/agent/report.ts:91-148 | however handles were issued, one resolves to exactly the calls whose last handle it is, and to one call at most if and only if one result at most ends on it |
| `Evidence.HandleResolvesIff` | apps/api/src/agent/report.ts:91-148 | where handles are numbered soundly, one on the trail resolves if and only if no later result of its call carries a handle, and then to exactly the call it was issued for, quoting its last result |
| `Evidence.HandleNamesOneCall` | apps/api/src/agent/report.ts:132-148 | where no call is answered twice, a number from 1 to N names exactly one call, and that call has answered; any other names none |
| `Evidence.CitationNamesIff` | apps/api/src/agent/report.ts:179-207 | however handles were issued and the transcript grows, a citation goes on naming the call it named if and only if the call was given no handle since, or last the same one |
| `Evidence.CitationStandsIff` | apps/api/src/agent/report.ts:179-207 | where handles are numbered soundly, a citation goes on naming its call if and only if the call is not answered again under a handle, and quotes the same result while it is not answered again |
| `Evidence.KnownCitations` | apps/api/src/agent/report.ts:132-148 | each id once, kept if and only if a handle was issued under it |
| `Evidence.RefusalRangeIsExactIff` | apps/api/src/agent/report.ts:150-165 | where handles are numbered soundly, the range a refusal states runs to the newest handle and holds every known id; it is exact if and only if no call was answered again under another handle |
| `Evidence.ResolveEvidence` | apps/api/src/agent/report.ts:185-207 | the loop collects the quotations of the cited and answered entries in call order |
| `Evidence.QuotedForItsCalls` | apps/api/src/agent/report.ts:185-207 | on any trail a handle is quoted for a call if and only if it is cited and is the last handle that call was given, and the quotation is that call's last result |
| `Evidence.EachCitationQuotedOnce` | apps/api/src/agent/report.ts:185-207 | where handles are numbered soundly, each is quoted once at most: if and only if it is cited and no later result of its call carries a handle |
| `Evidence.ReleasedMeans` | apps/api/src/agent/report.ts:211-233 | the count of approved writes is the number of calls with a result whose last decision is an approval |
| `Evidence.UnreleasedIff` | apps/api/src/agent/report.ts:230-233 | as the transcript grows a released write is released no more if and only if its last decision since is a rejection |
| `Evidence.CountMoves` | apps/api/src/agent/report.ts:230-233 | the count moves by the writes released since less those released no more |
| `EvidenceOfHistories.BracketedIsOrderly` | apps/api/src/session/human-input.ts:126-146 | a bracketed transcript of rows the writers make leaves a trail on which no call is answered twice |
| `EvidenceOfHistories.HandlesResolveIff` | apps/api/src/agent/report.ts:91-207 | on every history a handle resolves to exactly the calls whose last handle it is; unless a crossed author committed a handle, the trail carries e1 to eN, each on one result, and one resolves, to exactly its call, if and only if no later result of that call carries a handle |
| `EvidenceOfHistories.CitationsNameIff` | apps/api/src/agent/report.ts:179-207 | between any two states of a history, a citation goes on naming the call it named if and only if the rows since gave that call no handle, or last the same one |
| `EvidenceOfHistories.CitationsStandIff` | apps/api/src/agent/report.ts:179-207 | between any two states of a history on which no crossed author committed a handle, a citation goes on naming its call if and only if no row written since answers that call again under a handle |
| `EvidenceOfHistories.EveryHandleResolves` | apps/api/src/agent/report.ts:91-207 | on every history whose answers land on the gate that was read, each handle in range names exactly one answered call |
| `RecordFindings.RecordFinding` | apps/api/src/agent/report.ts:357-392 | recorded if and only if there is a citation and all of them name results; then the finding holds those ids, each once; otherwise the record is untouched |
| `RecordOfHistories.FindingsResolveIff` | apps/api/src/agent/report.ts:357-392 | on every history of runs, people, crashes and recorded findings, each id stored on a finding was issued on a result and resolves to exactly the calls whose last handle it is; unless a crossed author committed a handle, that is its call alone, if and only if no later result of it carries a handle |
| `RecordOfHistories.FindingsResolveForever` | apps/api/src/agent/report.ts:357-392 | where answers land on the gate that was read, a recorded finding stays on the record and each id it stores names exactly one answered call, whatever follows |
| `CrossedClaims.LateAnswerLosesACitation` | apps/api/src/session/human-input.ts:126-146 | a reachable history on which a recorded finding cites an id that no longer resolves |
| `Record.OpenCandidates` | apps/api/src/agent/report.ts:289-322 | the loop numbers candidates on, and keeps a parent only when it is known by then, itself included |
| `Record.OpenedMeans` | apps/api/src/agent/report.ts:294-312 | candidates are numbered on in order, and a parent is kept if and only if it names one that was there, an earlier one of the call, or the candidate itself |
| `Record.RecordedMeans` | apps/api/src/agent/report.ts:369-388 | a finding is kept as given under the next id; it settles what it names if and only if that is a candidate of the record, and replaces what it names if and only if that is a finding of it |
| `Record.ViewsAgree` | apps/api/src/session/transcript.ts:122-140 | the open list, the candidate board and the falsification turn agree on every candidate of every record, verdict included, and the board says reopened exactly where a finding that settled it is still on the record |
| `RecordOfHistories.BehindIff` | apps/api/src/agent/report.ts:237-248 | on every history the report is behind if and only if there is none, or a finding was recorded since, or the writes released since are not as many as those released no more; and exactly when that tells whether something is new |
| `RecordOfHistories.BehindMeansSomethingNew` | apps/api/src/agent/report.ts:211-248 | where answers land on the gate that was read, the report is behind if and only if there is none, or a finding was recorded or a write released on the transcript since it was composed |
| `CrossedClaims.LateRejectionUnreleases` | apps/api/src/agent/report.ts:230-248 | a reachable history on which a report is behind with nothing new, because a late rejection took back an approval it had counted |
| `Record.RecordIsAcyclic` | apps/api/src/agent/report.ts:357-392 | in every reachable record replacement never cycles, the newest finding stands, and no parent is later than its child |
| `Record.SelfParentIsAccepted` | apps/api/src/agent/report.ts:296-302 | a candidate that names itself is stored as its own parent |
| `Record.RankingSorts` | packages/shared/src/reports.ts:58-67 | one order of the findings is a sort by the comparator: every finding once, the better verdict first and the newer of equals |
| `Record.PrincipalMeans` | packages/shared/src/reports.ts:77-91 | whatever sorts by the comparator, the principal findings are exactly the standing ones of the best affirmative verdict, newest first |
| `Guardrails.FirstAllowed` | apps/api/src/agent/loop/guardrails.ts:22-32 | the first gap that had fewer than three pushbacks, and none exactly when every gap had three |
| `Guardrails.FinishGate.Ask` | apps/api/src/agent/loop/guardrails.ts:18-34 | pushes back for the first gap that had fewer than three and counts one more for that gap alone, or for nothing |
| `Guardrails.BarrenTurns.Turn` | apps/api/src/agent/loop/guardrails.ts:49-60 | the counter is the number of latest turns refused whole, and the verdict falls at three |
| `Guardrails.ThirdBarrenTurnEnds` | apps/api/src/agent/loop/guardrails.ts:36-60 | the verdict falls exactly when the last three tool-calling turns were each refused whole |
| `Guardrails.RecordDebt.Check` | apps/api/src/agent/loop/guardrails.ts:78-103 | asks exactly when an investigation with checks left has eight answers since its last claim or check, and spends one |
| `Guardrails.PushbacksAreBounded` | apps/api/src/agent/loop/run-session.ts:191-260 | over every run of a session at most three pushbacks a gap, one falsification turn and three record checks are sent, so at most seven tool-free turns loop again |
| `Guardrails.ToolFreeTurnSends` | apps/api/src/agent/loop/run-turn.ts:251-300 | a tool-free turn is sent back for the first gap with room, counted for that gap; with none, for the falsification turn, once and only with candidates; and otherwise ends the run |
| `Guardrails.ToolFreeTurnsRunOut` | apps/api/src/agent/loop/run-turn.ts:251-300 | a tool-free turn spends one of the allowance or ends the run, the latter exactly when nothing is left to ask, and reading the counts back restores none |
| `Guardrails.ComposeReportTurn` | apps/api/src/agent/loop/report-turn.ts:60-147 | asks at most five times, again only after a refusal; it ends with a report, as stopped or as failed exactly when its last attempt wrote one, was stopped or threw |
| `ToolSchema.Reduce` | apps/api/src/llm/tool-schema-dialects.ts:51-82 | the loops keep the allowed keywords at every depth, close every object and give it a required list |
| `ToolSchema.ReducingOnlyCloses` | apps/api/src/llm/tool-schema-dialects.ts:51-82 | a value is valid for the reduced schema if and only if it is valid for the schema and no object in it, at any depth, holds an undeclared field |
| `ToolSchema.ReducedIsFor` | apps/api/src/llm/tool-schema-dialects.ts:51-82 | at every depth exactly the allowed keywords are carried, every object is closed and has a required list, its own where it had one |
| `ToolSchema.OpenAIToolSchema` | apps/api/src/llm/tool-schema-dialects.ts:94-125 | the loops compute reducing and then widening |
| `ToolSchema.OpenAIIsStrict` | apps/api/src/llm/tool-schema-dialects.ts:92-125 | every object a value may reach in the schema OpenAI is sent is closed and requires every one of its properties |
| `ToolSchema.StrippingUndoesWidening` | apps/api/src/agent/tools/schema.ts:100-108 | at every depth, a value valid for the widened schema is valid for the original one once its nulls are gone |
| `ToolSchema.ToolCallIsAccepted` | apps/api/src/llm/tool-schema-dialects.ts:92-125 | what the schema sent to OpenAI accepts, stripped, is what the reduced schema accepts, and so the tool's own |
| `ToolSchema.FillingUndoesStripping` | apps/api/src/agent/tools/schema.ts:100-108 | a null-free value the closed schema accepts is the stripping of its filled form, which the widened schema accepts, when no object in it leaves out an optional field that lists its values |
| `ToolSchema.PreimageIff` | apps/api/src/llm/tool-schema-dialects.ts:94-125 | a null-free valid value is the stripping of some value the widened schema accepts if and only if no object in it, at any depth, leaves out an optional field that lists its values |
| `ToolSchema.CallCanBeMadeIff` | apps/api/src/llm/tool-schema-dialects.ts:92-125 | the same for the schema OpenAI is sent; all null-free calls can be made where optional fields list no values |
| `ToolSchema.SomeValueHasNoPreimage` | apps/api/src/llm/tool-schema-dialects.ts:111-114 | an object without its one optional listed field is valid, null-free and the stripping of nothing |
| `Diff.Flatten` | apps/api/src/sandbox/tools/diff.ts:16-56 | the lines follow the script, carry their line numbers on each side, and spell both sides |
| `Diff.WindowHunks` | apps/api/src/sandbox/tools/diff.ts:61-85 | the hunks are exactly the maximal runs of lines within three of a change, in order, with a dropped line between any two |
| `Diff.ComputeDiffHunks` | apps/api/src/sandbox/tools/diff.ts:16-85 | for every correct script, applying the hunks to the old lines at their recorded numbers rebuilds the new lines |
| `Diff.PatchRebuilds` | apps/api/src/sandbox/tools/diff.ts:59-85 | from any hunk on, patching the rest of the old lines gives the rest of the new ones |
| `CapOutput.RunnerCap` | packages/runner-core/src/redact.ts:81-106 | the runner's loops compute the capped output |
| `CapOutput.SandboxCap` | apps/api/src/sandbox/output.ts:3-38 | the sandbox's loops compute the same capped output, and flag exactly a cut |
| `CapOutput.CutKeepsBothEnds` | packages/runner-core/src/redact.ts:79-106 | on valid UTF-8 head and tail are each the longest valid piece in their half of the limit and never overlap; the number printed is the bytes past the limit, and the bytes gone are at least as many and at most seven more |
| `CapOutput.SevenMoreIsReached` | packages/runner-core/src/redact.ts:81-106 | seven more is reached |
| `CapOutput.BoundaryCuts` | packages/runner-core/src/redact.ts:95-106 | cutting where no continuation byte stands leaves valid text on both sides |
| `Fleet.EachCommandSettlesOnce` | apps/api/src/fleet/transport.ts:24-97 | in every history each id sent is pending or settled and never both, no pending command waits on a handled close or on a socket without a manifest, and a settled promise never changes |
| `Fleet.EachSettlesAsToldBy` | apps/api/src/fleet/transport.ts:35-97 | in every history a promise settles as its own event has it: with what its reply brought, by its time running out, or by the close of the socket it went out on |
| `Fleet.LateCloseSparesReplacement` | apps/api/src/fleet/connections.ts:82-88 | whatever happens in between, a displaced socket's close leaves its replacement registered |
| `Fleet.Transport.RegisterRunner` | apps/api/src/fleet/connections.ts:56-80 | a new connection takes the runner's place in the registry |
| `Fleet.Transport.ResolveCommand` | apps/api/src/fleet/transport.ts:35-53 | settles exactly the pending command it names, with the outcome it brings; a late or unknown reply changes nothing |
| `Fleet.Transport.RejectPendingForConnection` | apps/api/src/fleet/transport.ts:57-68 | rejects every command the socket carried and no other |
| `Fleet.Transport.HandleClose` | apps/api/src/fleet/server.ts:122-138 | the close event's table effect: its commands rejected, and itself unregistered only when it is the registered one |
| `Fleet.Transport.DispatchAll` | apps/api/src/fleet/transport.ts:130-138 | one pending command a connection, every earlier one kept |
| `Fleet.Transport.Envelope` | apps/api/src/fleet/transport.ts:140-157 | one entry a server asked, in order, with counts that sum to them and count exactly the fulfilled |
| `Reconciler.AtMost72Questions` | apps/api/src/verification/reconciler.ts:23-52 | while its alert stays open and the clock never runs backwards, one process asks about a session at most 72 times and never once it is a day old |
| `Reconciler.EagerAsks72` | apps/api/src/verification/reconciler.ts:23-52 | 72 questions are reached |
| `Reconciler.Reconciler.ForgetSettled` | apps/api/src/verification/reconciler.ts:54-58 | only open sessions are remembered |
| `Reconciler.Reconciler.RetryFailedRun` | apps/api/src/verification/reconciler.ts:90-110 | a run is retried exactly when its failure is transient, fewer than three are recorded, a seat is free and no run holds the session |
| `Reconciler.Reconciler.ReconcileRecovery` | apps/api/src/verification/reconciler.ts:62-86 | each open session that is due is stamped, every other open one keeps its stamp, settled ones are forgotten, and the runs started and the three counters are those of the sweep |
| `Reconciler.SweepKeepsSeats` | apps/api/src/verification/reconciler.ts:62-110 | a sweep that began within the seat limit ends within it, reports exactly the runs it started, and starts only open sessions still firing that failed on a transient error fewer than three times |
| `Reconciler.SweepCounts` | apps/api/src/verification/reconciler.ts:62-86 | a sweep counts as asked exactly the open sessions that are due, and as cleared exactly those of them confirmed |
| `Reconciler.SweepStarts` | apps/api/src/verification/reconciler.ts:66-110 | a sweep starts a run on an open session if and only if it is due and still firing, failed on a transient error fewer than three times, is not running, and a seat is left; every other session stays as it was |
| `TargetResolution.ParseInvertsPrint` | packages/shared/src/service-identity.ts:55-82 | a key parses to k if and only if k has three plain parts and the key is their printing |
| `TargetResolution.BelongsIffGenerated` | apps/api/src/alerts/resolve-target.ts:142-168 | a pod is accepted for a workload if and only if that kind's controller could have given it the name |
| `TargetResolution.OnePodOneWorkload` | apps/api/src/alerts/resolve-target.ts:142-168 | a pod name names at most one workload of each kind |
| `TargetResolution.OneWorkloadDescribed` | apps/api/src/alerts/resolve-target.ts:105-127 | labels describe at most one workload of each kind |
| `TargetResolution.K8sDescribedIff` | apps/api/src/alerts/resolve-target.ts:105-127 | labels describe a workload of their namespace: the one the first of their three workload labels names, of that kind, or else one whose controller could have named their pod |
| `TargetResolution.DockerDescribedIff` | apps/api/src/alerts/resolve-target.ts:68-95 | labels without a namespace describe a service by their two Compose labels where both are there, and otherwise by a container name that is both its project and its service |
| `TargetResolution.AllMatchesMean` | apps/api/src/alerts/resolve-target.ts:19-66 | the keys that match are exactly those under which a server of the fleet advertises a described service |
| `TargetResolution.ResolveAlertTarget` | apps/api/src/alerts/resolve-target.ts:19-42 | resolved if and only if a server advertises a service the labels describe and all such are one service, and then to exactly those keys, each once |
| `TargetResolution.OnceKeepsEach` | apps/api/src/alerts/resolve-target.ts:41-41 | the list holds the same keys, each once, in the order in which they first stood |
| `TargetResolution.SameServiceMeans` | apps/api/src/alerts/resolve-target.ts:45-48 | two well-formed keys are one service if and only if their scope and name agree |

## Left out

- ProtocolSeed.SeedStaysReplayable: the condition on histories is sufficient; a history with an answer that crossed can still end in a replayable seed, once a failure has unwound past it, so the equivalence is the one of ProtocolSeed.ClearAnswersIffGateWasRead, clear by clear.
- EvidenceOfHistories.EveryHandleResolves: on the same histories; EvidenceOfHistories.HandlesResolveIff is the statement for all.
- RecordOfHistories.FindingsResolveForever: on the same histories; RecordOfHistories.FindingsResolveIff is the statement for all.
- RecordOfHistories.BehindMeansSomethingNew: on the same histories; RecordOfHistories.BehindIff is the statement for all.
- ReadBatches.RecordingBatchIff: a reply is modelled by what it tells, not by its wording, and a call whose citations are refused is a quiet one.
- Dispatcher.Dispatcher.PromoteQueued: run alone. Two passes interleaved, or a resume dispatched without asking for a seat, may pass the limit, and no global seat bound is claimed.
- Evidence.RefusalRangeIsExactIff: on transcripts whose handles are numbered soundly; elsewhere Evidence.ResolvesToItsEnds says which ids are known.
- Dispatcher.JoinsTheCover: the query for a covering session names no order; the first row by id is taken.
- Dispatcher.Dispatcher.RouteDelivery: one delivery at a time; deliveries racing each other are not interleaved.
- HumanInput.Respond: a session that exists, and the request run alone; the request under every interleaving is in Protocol.dfy.
- Reconciler.Reconciler.ReconcileRecovery: what the metrics source says of each session is a parameter, and confirming a recovery clears no alert row here.
- Evidence.KnownCitations: two spellings of one id that differ in surrounding blanks are one id here.
- Guardrails.PushbacksAreBounded: the record-check turns are counted, not when eight answers have come in, which RecordDebt.Check states for one run.
- TurnPipeline.RunBatch: a call is a machine that takes finitely many steps; the per-call time ceiling is what makes that so.
- ToolSchema.Reduce: `const`, `anyOf`, `$ref` and `$defs` are carried as keywords without meaning, and the Anthropic list, which only differs in `minItems` and `format`, is not used.
- CapOutput.RunnerCap: the note's text is its number; the two ends and the number are what is stated.
- Diff.ComputeDiffHunks: the edit script comes from a library and any correct one is covered; splitting text into lines is outside the model.
- Fleet.Transport.Dispatch: a send that throws inside the promise executor is taken not to happen; a socket going away drops the message.
- Liveness of a resumed run after a crash, and anything a global clock would bound.
- The alert merge and the card states of `buildTranscript`, the session list and the queue band: reading views over the same tables.
- `amendRecord`'s refusal path and the `lastStatedCandidates` an empty record forgets: no property here depends on them.
- HTTP, SSE and WebSocket routes, the frontend, migrations and SQL syntax: only the table effect of each store call is modelled.
- LLM clients, prompts, titles, GitHub, Loki, Sentry and metrics clients, Docker and git calls.
- Sandbox provisioning and teardown, secrets, redaction rules and the egress proxy.
