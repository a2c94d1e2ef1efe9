# Fuse, verified

Fuse is a spend-control plane for AI agents: a parent budget with child accounts, a trip-once circuit per branch,
worst-case reservations released after payment, policy admission, anomaly scoring, and the evidence machinery of its
reliability runs: held lanes, crash-recoverable authorization, a polled settlement loop, and files that are published
once and never change.

This project models those parts in Dafny and proves what they keep over whole runs. Code that changes fields is a
class whose methods are proved against a function on values; loops are methods with invariants; what the code promises
is then proved about the functions, as lemmas over every run, every interleaving or every input. `dafny verify
dfyconfig.toml` checks everything.

How the outside world is represented:

- One `await` is one boundary between steps. The service is split at its provider call, the lock at its wait, and the
  publication protocols at every filesystem call; steps of different callers interleave freely and a caller can stop
  for good at any of them. A service restart exports and restores the state and loses the calls that were waiting. The
  filesystem is a map with exclusive create, link, rename and remove; a power loss drops any file that was not synced
  and ends the attempts under way, and later attempts can follow it.
- An error thrown is `Err(code)`, a refused call, or a `Failed` phase. Database answers, provider answers, clocks and
  crash points are parameters.
- SHA-256 and keccak are represented by their preimages: the facts are about the text that is hashed. A signature check
  is an abstract predicate. Date texts are the time they parse to, if they parse.
- Text that is escaped or compared is a sequence of UTF-16 code units. A locale comparison is any total preorder, so
  that different texts may tie; several results say exactly when that shows.

Where the code does less than its description, the exact condition is proved:

- The root check of the ledger is reachable exactly when the positive allocations exceed the root, which negative
  allocations allow (`Isolation.RootCheckReachableIff`). For any rule on which child may use which request ids, branches
  are isolated in every permitted run exactly when each id a drawing child may use is its own and nobody else's, and
  the drawing children's allocations fit in the root or there is only one (`IsolationLimits.PermittedIsolationIff`).
- Once a completion has been released, all later releases answer it in every continuation exactly when no other call
  for the request waits on an open circuit (`ReleaseAgreement.AnswersStayIff`, in every reachable state
  `ReleaseAgreement.ReachableAnswersStayIff`). Serialized calls never get there (`Service.SerialReleasesAgree`);
  two calls in flight do (`Service.DuplicateCallsBreakRelease`).
- Under a locale comparison, equal values have equal canonical texts exactly when no different keys or rows tie
  (`KeyOrder.TextIgnoresKeyOrderIff`, `Inventory.PreimageIgnoresRowOrderIff`).
- The order of one job's files survives every run, power losses included, exactly when the job is a locked chain or has
  a single file (`Publication.OrderSurvivesIff`); a checked pair does not keep it.
- The independent checker agrees with the settlement loop exactly when every poll started inside its window, so not
  after a failed poll (`Settlement.CheckerAgreesIff`).
- The strict outcome matrix is exactly the matrix of the settlement snapshot, rows about planned requests only, and per
  attempt: no repeated rows, exact amounts, the reservation respected, and reconciliation rows that fit the state
  (`OutcomeMatrix.MatricesAgreeIff`).
- A balance is the account's own fold plus the folds of the pairs whose key collides with its own
  (`FinancialLedger.BalanceSplits`); keys collide exactly as `FinancialLedger.KeysCollideIff` says.
- Branch maxima bind in every run exactly when the policy has workload classes, or its own limits let nothing through
  that costs anything (`Policy.BranchMaximaBindIff`).
- The result on siblings, its error included, is independent of their order exactly when no two of them fail differently
  (`SiblingDivergence.OrderMattersIff`); a receipt commitment, its error included, exactly when the receipts of the
  first shared sequence agree (`ReceiptOrder.BuildIgnoresOrderIff`).
- A terminal artifact survives every run exactly when no unguarded writer would write something else
  (`ReplaceFile.TerminalSurvivesIff`). An artifact in the write-once store keeps its bytes in every continuation exactly
  when nobody is writing it (`ArtifactStore.BytesStayIff`).

## Model

| member | source | states |
|---|---|---|
| `Circuit.TrippedIff` | src/core/circuit.ts:41-68 | a fresh circuit is tripped exactly when some call of its whole history broke the ceiling or two consecutive calls spiked; otherwise its baseline is the last cost |
| `Circuit.VerdictIs` | src/core/circuit.ts:41-68 | over every history not yet tripped, the answer to the next call: its status is how the circuit then stands, it trips exactly when the call breaks the ceiling or is the second leap in a row, the reason says which, and cost, baseline and violation count are those of the history |
| `Circuit.TrippedAbsorbs` | src/core/circuit.ts:42 | once tripped, every further evaluation is refused and the state never changes |
| `Circuit.BranchCircuit.EvaluateCall` | src/core/circuit.ts:41-68 | the method that updates the fields does exactly one step of the circuit whose whole history the two lemmas above are about |
| `Circuit.BranchCircuit.AssertOpen` | src/core/circuit.ts:78-80 | it throws exactly when tripped |
| `Circuit.BranchCircuit.FromState` | src/core/circuit.ts:30-39 | a restored circuit has the stored state |
| `Ledger.FreshConserved` | src/core/ledger.ts:44-55 | a new ledger's books balance, whatever the allocations |
| `Ledger.ReserveConserves` | src/core/ledger.ts:85-110 | reserving keeps root totals equal to the sums over children, each child's totals equal to the sums over its reservations, no account above its ceiling, and children's ceilings within the root |
| `Ledger.ReconcileConserves` | src/core/ledger.ts:112-132 | so does settling, including every error path |
| `Ledger.ReclaimConserves` | src/core/ledger.ts:134-140 | so does reclaiming |
| `Ledger.RootCoversChild` | src/core/ledger.ts:97-98 | in a funded ledger no child has more available than the root, so the root check follows from the child check |
| `LedgerAnswers.RootIsDrawnByAll` | src/core/ledger.ts:85-132 | in balanced books the root holds and has spent exactly what all reservations hold and have spent |
| `LedgerAnswers.ReserveAnswers` | src/core/ledger.ts:93-110 | a new reservation is made exactly when the child exists, the amount is positive, and it fits beside all that the child's reservations, and all reservations, hold and have spent; the first condition that fails gives the error |
| `LedgerAnswers.FundedReserveAnswers` | src/core/ledger.ts:95-98 | in a funded ledger the same without the root |
| `LedgerAnswers.RepeatedReserveAnswers` | src/core/ledger.ts:86-92 | a taken request id answers its reservation again or a conflict, and nothing moves |
| `LedgerAnswers.ReconcileAnswers` | src/core/ledger.ts:112-132 | an active reservation settles at every amount from nothing to its maximum and frees exactly the rest; a settled one repeats its own amount only |
| `LedgerAnswers.ReclaimAnswers` | src/core/ledger.ts:134-140 | reclaiming returns all of the child's authority that its reservations neither hold nor have spent |
| `Ledger.AuthorityMoves` | src/core/ledger.ts:134-148 | reserving and settling move no authority; reclaiming returns exactly the reclaimed amount to what the parent has unallocated |
| `Ledger.ReclaimedChildIsClosed` | src/core/ledger.ts:134-140 | a child just reclaimed can reserve nothing new |
| `Ledger.FundedRestores` | src/core/ledger.ts:58-72 | a funded exported state restores to itself, through the constructor's checks |
| `Ledger.FuseLedger.Total` | src/core/ledger.ts:41 | the loop adds up all allocations, in any order |
| `Ledger.FuseLedger.Create` | src/core/ledger.ts:38-56 | a ledger is made exactly when the root is positive and the allocations fit it, and is then fresh with nothing reserved |
| `Ledger.FuseLedger.FromState` | src/core/ledger.ts:58-72 | a state is restored exactly when the constructor's checks pass on its current authorizations, and then exactly as exported |
| `Ledger.FuseLedger.ReserveFor` | src/core/ledger.ts:85-110 | the account fields and the reservation map become those of the reservation that the conservation lemmas are about, with the same errors in the same order |
| `Ledger.FuseLedger.ReconcileRequest` | src/core/ledger.ts:112-132 | the same for settling |
| `Ledger.FuseLedger.ReclaimAvailable` | src/core/ledger.ts:134-140 | the same for reclaiming |
| `Isolation.RunKeepsBooks` | src/core/ledger.ts:85-140 | no run of ledger and circuit operations unbalances the books, overdraws the root or changes the root's ceiling |
| `Isolation.AuthorityIsConserved` | src/core/ledger.ts:134-148 | over every run the parent regains exactly what the reclaiming steps returned |
| `Isolation.ReachableStatesRestore` | src/core/ledger.ts:58-83 | every state reachable from a fresh funded ledger survives export and restore |
| `Isolation.FundedNeverHitsRoot` | src/core/ledger.ts:98 | with funded allocations no run ever answers ROOT_BUDGET_EXCEEDED |
| `Isolation.OverdrawingRun` | src/core/ledger.ts:97-98 | children that together want more than the root has can be run into the root check |
| `Isolation.RootCheckReachableIff` | src/core/ledger.ts:41-42 | some run hits the root check exactly when the positive allocations sum to more than the root |
| `Isolation.BranchIsolation` | src/core/ledger.ts:85-140 | two runs: deleting every step of one branch leaves the outcomes, accounts, circuits and reservations of all other branches unchanged, when request ids are not shared and allocations are funded |
| `IsolationLimits.PermittedIsolationIff` | src/core/ledger.ts:85-140 | for any allocations, any rule on which child may ask for which ids and any attribution of ids to branches: every branch is isolated from every other in every permitted run exactly when each id an active child may use is attributed to it and open to no other, and the active allocations fit in the root or only one child is active |
| `IsolationLimits.IsolationIff` | src/core/ledger.ts:85-140 | the case of ids kept apart: every branch is isolated in every run exactly when the positive allocations fit in the root or at most one child has one |
| `IsolationLimits.PermittedIsolates` | src/core/ledger.ts:85-140 | deleting a branch's steps from any permitted run leaves the others alone under that condition |
| `IsolationLimits.OneDrawsIsolates` | src/core/ledger.ts:95-98 | one drawing child is isolated from all others whatever the root is |
| `IsolationLimits.OverdrawnBreaks` | src/core/ledger.ts:97-98 | with ids apart, two or more active children and more allocated to them than the root has, some permitted run lets one branch block another through the root |
| `IsolationLimits.SharedIdBreaks` | src/core/ledger.ts:86-94 | for any allocations, an id of an active child that another child may use, or that is attributed to another branch, lets some permitted run show one branch to another |
| `IsolationLimits.SharedIdReaches` | src/core/ledger.ts:86-92 | in every state one child's reservation of an id turns every other child's request under it, whatever it would have been answered, into a conflict |
| `Decimal.ExactIsPrinted` | src/evidence/authoritativeEvidence.ts:103-106 | an exact decimal text denotes an amount exactly when it is that amount's printed form |
| `Pricing.UsdToMicrosIsCeiling` | src/core/pricing.ts:21-35 | a cost text is accepted exactly when it has the grammar and its exponent is at most 100 either way, and then gives the least integer that is at least its rational value in micros |
| `Pricing.UsdToMicrosDependsOnValue` | src/core/pricing.ts:21-35 | two accepted texts of the same number give the same amount, however written |
| `PriceTexts.UsdToMicrosIs` | src/core/pricing.ts:21-35 | a text of digits, at most one dot and an exponent gives the least number of micros at or above the number its digits denote, exactly when the exponent is at most 100 either way |
| `PriceTexts.UsdToMicrosOkIff` | src/core/pricing.ts:22-29 | no other text is accepted |
| `PriceTexts.TokenCostIs` | src/core/pricing.ts:37-40 | a safe token count at a price text of digits, or digits, a dot and one to six digits, costs the least number of micros at or above the count times the price |
| `PriceTexts.TokenCostOkIff` | src/core/pricing.ts:12-38 | nothing else has a cost: an unsafe count is refused first, then any other text |
| `PriceTexts.CostIs` | src/core/pricing.ts:42-45 | a call costs its input tokens at the input price and its output tokens at the output price, each rounded up on its own |
| `PriceTexts.CostOkIff` | src/core/pricing.ts:42-45 | a call has a cost exactly when both counts are safe and both texts are prices |
| `Pricing.CeilingOrder` | src/core/pricing.ts:17-19 | ceilings keep the order of the fractions |
| `Pricing.PrintedAmountParsesBack` | src/core/service.ts:62-66 | both parsers read a printed amount back exactly, for every non-negative amount |
| `Pricing.PrintedAmountsDiffer` | src/core/service.ts:62-66 | different amounts print differently |
| `Pricing.TokenCostMonotone` | src/core/pricing.ts:37-40 | more tokens never cost less, and fewer tokens are never refused |
| `Pricing.CostMonotone` | src/core/pricing.ts:42-52 | usage within its token bounds costs at most the reserved maximum |
| `Service.RunKeepsInv` | src/core/service.ts:139-212 | over every interleaving of calls split at the provider await: the books balance, every held completion has its reservation, and every released receipt states what the ledger settled |
| `ServiceAnswers.BeginAnswers` | src/core/service.ts:139-158 | in every reachable state a call is let through to the provider exactly when nothing is held for its request, its branch is open, its worst case has a price and the books have room for it; a held request is quoted its own cost again |
| `ServiceAnswers.FinishAnswers` | src/core/service.ts:167-180 | a provider's answer is quoted at the cost of its usage exactly when that has a price and the branch is open |
| `ServiceAnswers.ReceiptTellsItsCall` | src/core/service.ts:162-212 | over every interleaving each receipt is about one earlier provider answer: its response, tokens, quoted cost, settlement and the state its branch was in right after it |
| `ServiceAnswers.FirstReleaseReclaims` | src/core/service.ts:188-208 | over every interleaving the first release of a request carries its hash and its branch's state then, and leaves a branch that was then tripped nothing beyond what its reservations draw |
| `ServiceAnswers.TrippingAnswerIsTakenBack` | src/core/service.ts:168-208 | an answer that trips its open branch: the release of that request takes the branch's authority back and its receipt says TRIPPED |
| `ServiceAnswers.QuoteIsPaid` | src/core/service.ts:139-212 | in serialized runs each quote for a request, fresh or cached, is what its receipt prints and the ledger settles |
| `ServiceAnswers.QuotesAgree` | src/core/service.ts:140-148 | in serialized runs all quotes for a request agree |
| `ServiceAnswers.RestartForgetsOnlyCalls` | src/core/service.ts:112-137 | a funded service always restarts and forgets only the calls that were waiting: circuits stand as judged, under the demo ceiling, and every request gets the quote, completion or error it would have got before |
| `Service.EveryReceiptSettles` | src/core/service.ts:183-212 | each receipt ever returned states the ledger's settled amount for its request, each settled request was receipted, and the root's settled total is one settlement per request |
| `Service.TrippedBranchStaysClosed` | src/core/service.ts:150-158 | no step, in any state, creates a reservation on a tripped branch, and it stays tripped |
| `Service.TrippedRunStaysClosed` | src/core/service.ts:150-158 | over every continuation, restarts included, a tripped branch stays tripped and has no reservation it did not have before |
| `Service.ReleaseSucceedsIff` | src/core/service.ts:183-188 | exactly when a release answers with a completion, in every reachable state |
| `Service.TrippedReleaseReclaims` | src/core/service.ts:188-208 | releasing the call that tripped its branch leaves the branch nothing available, and the receipt states exactly the amount returned to the parent |
| `Service.SerialReleasesAgree` | src/core/service.ts:186 | in serialized runs every release of a request answers the same completion |
| `Service.PreparedReleasesSucceed` | src/core/service.ts:167-188 | in serialized runs whose provider respects the token bounds, releasing a prepared completion never fails |
| `Service.DuplicateCallsBreakRelease` | src/core/service.ts:162-174 | from every idle service: whenever two calls for one request are begun, the first is released untripped and the second then finishes, the next release throws or answers another receipt |
| `ReleaseAgreement.AnswersStayIff` | src/core/service.ts:167-212 | in any state in which a request has been released, every release in every continuation answers the same completion exactly when no call for the request waits on an open circuit |
| `ReleaseAgreement.ReachableAnswersStayIff` | src/core/service.ts:139-212 | the same for every state that any run reaches |
| `ReleaseAgreement.DuplicateOverwrites` | src/core/service.ts:167-188 | in every reachable state, after such a call finishes the next release answers that call's response if it cost exactly what was settled, and throws otherwise |
| `ServiceIsolation.ServiceIsolation` | src/core/service.ts:112-212 | two service runs, restarts included: deleting every step of one branch leaves the other steps' replies and receipts and the other branches' accounts, circuits, reservations, completions and calls unchanged |
| `Service.FuseService.BeginCall` | src/core/service.ts:139-160 | the code up to the await leaves the object, its ledger and its circuits in the state of the step machine's first half, and answers or throws alike |
| `Service.FuseService.EvaluateCircuit` | src/core/service.ts:168 | judging one branch's call changes that branch's circuit only, and nothing when it throws |
| `Service.FuseService.FinishCall` | src/core/service.ts:162-181 | the same for the code after the await |
| `Service.FuseService.ReleasePaidCompletion` | src/core/service.ts:183-212 | reconcile, reclaim when tripped, remember and answer the completion, or throw at the same points: the state and reply of the step machine's release |
| `HeldLane.RunKeeps` | src/evidence/reliabilityProtocolV2.ts:43-85 | every run keeps the hold, resume and failure invariants of a lane |
| `HeldLane.HoldIsOpenMembers` | src/evidence/reliabilityProtocolV2.ts:50-57 | over every run a non-empty hold is exactly the set of open members, and at most one hold is ever created |
| `HeldLane.HoldIsInOrder` | src/evidence/reliabilityProtocolV2.ts:53-81 | over every run the hold lists its members in ascending code unit order |
| `HeldLane.AnswerIs` | src/evidence/reliabilityProtocolV2.ts:50-84 | over every run, what the next operation answers, told from the operations accepted before it: which members are unknown, already closed, or not waiting for reconciliation |
| `HeldLane.GlobalFailureIff` | src/evidence/reliabilityProtocolV2.ts:61-79 | the lane has failed exactly when a member resolved unresolved or two distinct members claimed the allowance |
| `HeldLane.ResumeIsSetOnce` | src/evidence/reliabilityProtocolV2.ts:80-88 | the resume time is set only by the step that closes the hold without failure, to the first multiple of 300 strictly after it, and never changes |
| `HeldLane.HeldLane.EnterAmbiguity` | src/evidence/reliabilityProtocolV2.ts:50-57 | the method takes the fields through exactly one step of the machine that the run lemmas are about, with its result and errors |
| `HeldLane.HeldLane.Terminalize` | src/evidence/reliabilityProtocolV2.ts:58-60 | the method takes the fields through exactly one step of the machine that the run lemmas are about, with its result and errors |
| `HeldLane.HeldLane.Resolve` | src/evidence/reliabilityProtocolV2.ts:61-67 | the method takes the fields through exactly one step of the machine that the run lemmas are about, with its result and errors |
| `HeldLane.HeldLane.PreAmbiguityReject` | src/evidence/reliabilityProtocolV2.ts:68-71 | the method takes the fields through exactly one step of the machine that the run lemmas are about, with its result and errors |
| `CanonicalJson.ReadEscaped` | src/evidence/heldOutReliabilityV2.ts:282 | an escaped string reads back exactly, whatever follows it |
| `CanonicalForm.EscapeIsShortest` | src/evidence/heldOutReliabilityV2.ts:282 | no legal text that reads as a unit is shorter than the way it is written, lone surrogates apart |
| `CanonicalJson.ReadValue` | src/evidence/heldOutReliabilityV2.ts:278-285 | no value's text is a proper beginning of another's inside a larger text |
| `CanonicalJson.RenderIsInjective` | src/evidence/heldOutReliabilityV2.ts:278-285 | JSON text with its members in order determines the value |
| `KeyOrder.CanonicalTextDecides` | src/evidence/heldOutReliabilityV2.ts:278-285 | equal canonical text means equal up to key order at every depth; the converse holds when no keys tie |
| `CanonicalForm.NormalIsInOrder` | src/evidence/heldOutReliabilityV2.ts:278-285 | the value that is written has its members in ascending key order at every depth |
| `KeyOrder.TextIgnoresKeyOrderIff` | src/evidence/heldOutReliabilityV2.ts:281 | the text is independent of key order exactly when no two distinct keys of one object tie under the comparison |
| `KeyOrder.UnitTextsEqualIffSame` | src/evidence/authoritativeSettlement.ts:66-71 | sorted by code unit, equal text holds exactly for values equal up to key order |
| `Inventory.PreimageDecidesRows` | src/evidence/authoritativeSettlement.ts:73-80 | equal digest preimages mean the same tables with the same multisets of rows; the converse holds when no different rows tie |
| `CanonicalForm.RowsInOrder` | src/evidence/authoritativeSettlement.ts:73-80 | a table's rows are written in ascending order of their texts, each as often as it occurs |
| `Inventory.PreimageIgnoresRowOrderIff` | src/evidence/authoritativeSettlement.ts:76 | the preimage is independent of row order exactly when no two different rows of a table tie under the locale comparison |
| `Publication.FilesNeverChange` | src/evidence/writeOnce.ts:42-50 | over every run and continuation: durable files never change or go, and without a power loss in the continuation no published file does |
| `Publication.RunKeepsBelieved` | src/evidence/writeOnce.ts:52-89 | over every interleaving, crash, power loss and later attempt, each writer's record of what is placed and durable is true |
| `Publication.RunKeepsInv` | src/evidence/writeOnce.ts:52-89 | and, short of a power loss or with locked chains, every file on the disk is some writer's and stands with the members before it |
| `Publication.PowerLossKeepsInv` | src/evidence/beaconPlanPublicationV4.ts:80-88 | a locked chain syncs each member before the next, so a power loss keeps its order |
| `Publication.LaterFileNeedsEarlier` | src/evidence/beaconPlanPublicationV4.ts:80-88 | any file that exists stands with its writer's bytes, and so does every earlier member of that writer's chain, for locked chains also when attempts follow a power loss |
| `Publication.FinishedWritersAgree` | src/evidence/writeOnce.ts:42-50 | two writers that both finish, in any run with power losses and later attempts, published the same bytes at every shared path, durably |
| `Publication.CheckedPairLosesOrder` | src/evidence/writeOnce.ts:78-85 | for every checked job of two or more files some run ends, after a power loss, with only the last of them |
| `Publication.OrderSurvivesIff` | src/evidence/writeOnce.ts:78-85 | the order of a job's files survives every run, crashes and power losses included, exactly when it is a locked chain or has one file |
| `Publication.RetryFinishesIff` | src/evidence/writeOnce.ts:68-86 | whatever earlier attempts left, a writer alone finishes with all files durable exactly when each path is free or holds its bytes, and, for a locked chain, carries no lock; it then leaves exactly the locks it found |
| `Manifest.ContentsAdvance` | src/evidence/reliabilityProtocolV2.ts:222-232 | over any publishers and crashes, successive contents have consecutive sequence numbers and ever later states of claimed, admission started, awaiting outcome and terminal |
| `Manifest.AtMostFourValues` | src/evidence/reliabilityProtocolV2.ts:192-196 | a path takes at most four values, however many publishers there are |
| `Manifest.LonePublisherIff` | src/evidence/reliabilityProtocolV2.ts:199-244 | a publisher on its own completes exactly when its manifest is one of the four states under a safe positive sequence number and the path is absent, holds the same, or holds an earlier state under the number before; otherwise the content is as it was |
| `Manifest.FinalContentStays` | src/evidence/reliabilityProtocolV2.ts:224-228 | after every run, terminal or unparseable content never changes in any continuation |
| `Manifest.CompletedWasPublished` | src/evidence/reliabilityProtocolV2.ts:214-235 | a publisher that completes has had its manifest at the path |
| `Manifest.OrphanLockFreezes` | src/evidence/reliabilityProtocolV2.ts:236-244 | after every run, a publisher that failed or crashed while holding the lock freezes the path in every continuation |
| `ArtifactStore.NoLockMeansWhole` | src/evidence/reliabilityProtocolV2.ts:257-280 | with no lock file present the artifact is absent, as it was found, or complete, though a torn file can be seen |
| `ArtifactStore.FoundStays` | src/evidence/reliabilityProtocolV2.ts:266-275 | an artifact that is already there is never replaced or torn |
| `ArtifactStore.LonePublisherIff` | src/evidence/reliabilityProtocolV2.ts:257-280 | a publisher on its own completes and removes its lock exactly when the path is absent or holds the same bytes; otherwise the artifact stays and so does the lock |
| `ArtifactStore.BytesStayIff` | src/evidence/reliabilityProtocolV2.ts:266-275 | after every run, an artifact that exists keeps its bytes in every continuation exactly when no publisher is writing it |
| `ArtifactStore.PublishedBytesStay` | src/evidence/reliabilityProtocolV2.ts:266-275 | once a publisher completed, or no lock is left, the bytes never change in any continuation |
| `ArtifactStore.CompletedPublishersAgree` | src/evidence/reliabilityProtocolV2.ts:270-274 | two publishers that complete published the same bytes |
| `ReplaceFile.NothingFollowsTerminal` | src/evidence/durableArtifacts.ts:64-100 | with guarded writers only, over every interleaving, crash and error, nothing follows a document whose phase is complete or incomplete, or an unreadable one |
| `ReplaceFile.LoneWriterAnswers` | src/evidence/durableArtifacts.ts:64-100 | a guarded writer on its own replaces an absent artifact and every document in another phase, refuses the rest with the right error, and removes its lock either way |
| `ReplaceFile.GivesUpAfter500` | src/evidence/durableArtifacts.ts:49-62 | while another holds the lock a guarded writer tries five hundred times, then throws |
| `ReplaceFile.CompletedWasPlaced` | src/evidence/durableArtifacts.ts:85-99 | a writer that returns, guarded or not and among any others, has had its value at the path |
| `ReplaceFile.TerminalSurvivesIff` | src/evidence/durableArtifacts.ts:72-84 | a terminal artifact survives every run exactly when each unguarded writer would write the same artifact |
| `ReplaceFile.OrphanLockFreezes` | src/evidence/durableArtifacts.ts:49-99 | after every run, once the lock's owner crashed or could not remove it, whatever is placed in any continuation is an unguarded writer's |
| `Authorization.CommittedNeverChanges` | src/evidence/reliabilityRuntimeV2.ts:49 | once committed, every call answers with that decision and changes neither it nor the nonces |
| `Authorization.FirstCallCommits` | src/evidence/reliabilityRuntimeV2.ts:45-100 | a first call either changes nothing or commits what it alone would commit, wherever it crashes |
| `Authorization.RunFollowsFirst` | src/evidence/reliabilityRuntimeV2.ts:36-113 | over any calls and crashes the store follows the first committing call, and the receipt conflict never occurs |
| `Authorization.CrashesDoNotShow` | src/evidence/reliabilityRuntimeV2.ts:102-112 | recovery after any calls and crashes leaves exactly the store of the first committing call without a crash |
| `Authorization.NonceConsumedIffActive` | src/evidence/reliabilityRuntimeV2.ts:83 | the operator's nonce is consumed exactly when the committed decision is active |
| `Authorization.ActiveNeedsTwoAuthorities` | src/evidence/reliabilityRuntimeV2.ts:50-57 | a decision is active exactly when both artifacts verify and share neither actor nor issuer credential |
| `AuthorizationAnswers.SignatureIff` | src/evidence/reliabilityRuntimeV2.ts:136 | a signature text is letters, digits, plus and slash, then at most two equals signs |
| `AuthorizationAnswers.KeyIff` | src/evidence/reliabilityRuntimeV2.ts:132 | a pinned key is 64 lower-case hexadecimal digits |
| `AuthorizationAnswers.OperatorIff` | src/evidence/reliabilityRuntimeV2.ts:115-141 | exactly which operator artifacts verify: fields, capability, fingerprints, expiry, nonce, issuer, signature |
| `AuthorizationAnswers.ReconcilerIff` | src/evidence/reliabilityRuntimeV2.ts:115-141 | exactly which reconciliation artifacts verify |
| `AuthorizationAnswers.DecisionIs` | src/evidence/reliabilityRuntimeV2.ts:50-81 | the decision on any request: active exactly when both artifacts are accepted and come from two authorities, with what each receipt then says |
| `AuthorizationAnswers.LaterIsNoBetter` | src/evidence/reliabilityRuntimeV2.ts:130 | what is active at a time was active at every earlier one |
| `AuthorizationAnswers.FailureIs` | src/evidence/reliabilityRuntimeV2.ts:92-100 | a run that first commits a failure answers that inactive decision for good, with its reason and time, and consumes nothing |
| `AuthorizationAnswers.CommittedIs` | src/evidence/reliabilityRuntimeV2.ts:45-90 | a run that first commits a decision answers the decision on that request for good |
| `Authorization.AuthorizationDecisionStore.DecideOn` | src/evidence/reliabilityRuntimeV2.ts:45-90 | for each input and crash point, the fields and answer are those of the call that the crash lemmas are about |
| `Authorization.AuthorizationDecisionStore.FailBeforeDecision` | src/evidence/reliabilityRuntimeV2.ts:92-100 | the same for a failure before the decision |
| `Authorization.AuthorizationDecisionStore.RecoverDecision` | src/evidence/reliabilityRuntimeV2.ts:102-107 | the same for recovery |
| `Authorization.AuthorizationDecisionStore.PublishReceipt` | src/evidence/reliabilityRuntimeV2.ts:108-112 | the method publishes one receipt, or throws on a different one |
| `Burst.AllOrNothing` | src/evidence/reliabilityRuntimeV2.ts:181-193 | over every run either nothing is released or nothing is cancelled, a release covers every planned call, and no cancelled call enters the adapter |
| `Burst.EntryNeedsEveryToken` | src/evidence/reliabilityRuntimeV2.ts:181-193 | a call enters only after every planned call has its token |
| `Burst.ReadyIff` | src/evidence/reliabilityRuntimeV2.ts:181-184 | the barrier can release exactly when active, fully tokened and planned without repeats |
| `Burst.RunTells` | src/evidence/reliabilityRuntimeV2.ts:170-193 | over every run the tokens, releases, cancellations and entries are told from the operations alone: a token is a planned commit before any failure, a cancelled call one whose token a failure found unreleased |
| `Burst.AnswerIs` | src/evidence/reliabilityRuntimeV2.ts:175-193 | over every run, what the next operation answers, told from the operations before it |
| `Burst.BurstBarrier.Commit` | src/evidence/reliabilityRuntimeV2.ts:175-180 | the method takes the fields through exactly one step of the machine that the run lemmas are about, with its result and errors |
| `Burst.BurstBarrier.ReleaseAll` | src/evidence/reliabilityRuntimeV2.ts:181-184 | the loop releases exactly the planned calls, or throws |
| `Burst.BurstBarrier.FailAll` | src/evidence/reliabilityRuntimeV2.ts:185-189 | the method cancels exactly the tokens not released, once |
| `Burst.BurstBarrier.Enter` | src/evidence/reliabilityRuntimeV2.ts:190-193 | the method takes the fields through exactly one step of the machine that the run lemmas are about, with its result and errors |
| `Settlement.RunAuthoritativeSettlement` | src/evidence/authoritativeSettlement.ts:90-159 | for every clock and every pattern of database answers: it passes exactly when one of 25 polls, five seconds apart, was observed complete, began between its schedule and two minutes, and took at most thirty seconds; the first such poll gives the accepted offset and digest and ends the journal, each entry records what its poll observed, and the final snapshot is the last answered one |
| `Settlement.PollUntilComplete` | src/evidence/authoritativeSettlement.ts:105-147 | the loop appends one entry per poll and stops at the first complete one |
| `Settlement.JournalAnswers` | src/evidence/authoritativeSettlement.ts:98-158 | such a journal gives exactly the outcome that the database answers determine |
| `Settlement.TakePoll` | src/evidence/authoritativeSettlement.ts:105-146 | one poll's entry: schedule, times, digest and row count as observed, none when the database failed, eligible exactly when begun in its window and over in thirty seconds |
| `Settlement.JournalIsUnique` | src/evidence/authoritativeSettlement.ts:105-147 | clock and answers determine the journal |
| `Settlement.PassingMeetsDownstream` | src/evidence/authoritativeEvidence.ts:238-242 | every passing journal meets the report's offset and cardinality checks |
| `Settlement.CheckerAgreesIff` | src/evidence/reliabilityProtocolV2.ts:104-116 | the independent checker accepts the loop's journal, at the same offset, exactly when the loop passed and every poll started inside its window |
| `Settlement.LoopPassesCheckerRefuses` | src/evidence/reliabilityProtocolV2.ts:110 | on every run in which a poll fails before the first complete one, the loop passes and the checker refuses |
| `OutcomeMatrix.StrictRefinesClosure` | src/evidence/authoritativeEvidence.ts:140-187 | over all inventories the strict matrix, with one gate classification per attempt, implies the matrix of the settlement snapshot |
| `OutcomeMatrix.StrictIs` | src/evidence/authoritativeEvidence.ts:140-183 | the strict judgement on an attempt, state by state: which rows of which tables, with what in them, each outcome must show |
| `OutcomeMatrix.StrictAttemptIff` | src/evidence/authoritativeEvidence.ts:141-183 | for every attempt the strict judgement, with one gate classification, is exactly the other one and the residual conditions |
| `OutcomeMatrix.MatricesAgreeIff` | src/evidence/authoritativeEvidence.ts:140-187 | over all inventories the strict matrix is exactly the other one, the residual conditions per attempt and planned rows only |
| `OutcomeMatrix.OnlyStrictSees` | src/evidence/evidenceSettlementClosure.ts:153-184 | any inventory the snapshot matrix passes with a repeated execution row, or a usable cost above its reservation, fails the strict one |
| `OutcomeMatrix.ClosureTakesTwoRowsForNone` | src/evidence/evidenceSettlementClosure.ts:153-184 | wherever the snapshot matrix accepts no execution row it accepts any two put before the others, which the strict one refuses |
| `OutcomeMatrix.ClosureIgnoresReservation` | src/evidence/evidenceSettlementClosure.ts:161-167 | the snapshot matrix accepts any reservation text in place of any other, also one below a usable call's cost, which the strict one refuses |
| `OutcomeMatrix.CountsAddUp` | src/evidence/authoritativeEvidence.ts:271-276 | every attempt is counted in exactly one outcome group |
| `OutcomeMatrix.OneRowEach` | src/evidence/authoritativeEvidence.ts:184-186 | a table of planned rows, one per planned id, has exactly as many rows |
| `OutcomeMatrix.PassingReport` | src/evidence/authoritativeEvidence.ts:192-287 | a passing report means each of the 100 planned ids has exactly one attempt, execution, decision and token and the tables hold nothing else, at least 99 outcomes are usable, the known cost is the sum over attempts, and the snapshot matrix holds |
| `OutcomeMatrix.PassesIff` | src/evidence/authoritativeEvidence.ts:192-276 | exactly when the modelled report passes: a hundred requests with one attempt each, classified once and in order, every outcome known and 99 usable, cost texts the printed sums, the settlement at a multiple of five seconds with a poll for each; the allowance check follows from the others |
| `FinancialLedger.AcceptedIff` | src/domain/financialLedger.ts:29-52 | an append is accepted exactly when every field is given, every posting is valid, every asset balances and the id is new |
| `FinancialLedger.RunIsFaithful` | src/domain/financialLedger.ts:29-62 | after any run of appends, accepted or rejected, balances are the fold over the journal, ids are unique and every entry is well formed |
| `FinancialLedger.AcceptedOnce` | src/domain/financialLedger.ts:35 | an accepted id is refused ever after and changes nothing |
| `FinancialLedger.KeysCollideIff` | src/domain/financialLedger.ts:72-74 | two account and asset pairs share a key exactly when equal or when a separator in one account hides the split |
| `FinancialLedger.BalanceSplits` | src/domain/financialLedger.ts:54-66 | after any run a balance is the account's own fold plus the folds of the colliding pairs, and is the account's own exactly when those cancel out |
| `FinancialLedger.BalanceIsAccountTotal` | src/domain/financialLedger.ts:64-66 | a balance is the account's own fold unless another pair in the journal collides with it |
| `FinancialLedger.AssetSumsToZero` | src/domain/financialLedger.ts:50-59 | after any run each asset's balances over all accounts sum to zero, and each is the account's own fold, for account ids without the separator |
| `FinancialLedger.AllBalancesSumToZero` | src/domain/financialLedger.ts:50-59 | the sum over all keys is zero even with separators |
| `FinancialLedger.SeparatorMovesBalance` | src/domain/financialLedger.ts:72-74 | with a separator in an account id, an account that nothing was posted to has a balance |
| `FinancialLedger.FinancialLedger.Append` | src/domain/financialLedger.ts:29-62 | journal, ids and balances become those of the append that the run lemmas are about; a rejected one leaves everything as it was |
| `FinancialLedger.FinancialLedger.PostAll` | src/domain/financialLedger.ts:55-59 | the loop posts every posting |
| `FinancialLedger.FinancialLedger.BalanceOf` | src/domain/financialLedger.ts:64-66 | the balance read is the map's, or zero |
| `FinancialLedger.SumPostings` | src/domain/financialLedger.ts:38-49 | the loop computes debits and credits per asset in order of first occurrence, unless a posting is in error |
| `FinancialLedger.FindUnbalanced` | src/domain/financialLedger.ts:50-52 | the loop finds the first asset whose totals differ |
| `Policy.AllowsIff` | src/domain/policy.ts:225-248 | a call is allowed exactly when policy and input are valid, the policy is not paused, and no reason holds, or in a dry run no hard one |
| `PolicyConditions.PolicyValidIff` | src/domain/policy.ts:110-142 | exactly which policies pass validation |
| `PolicyConditions.InputValidIff` | src/domain/policy.ts:292-310 | exactly which calls pass validation |
| `PolicyConditions.GivenIff` | src/domain/policy.ts:159-223 | each reason is given exactly when its condition holds on the fields of policy and call |
| `PolicyConditions.ReasonsAre` | src/domain/policy.ts:159-223 | the reasons given are those that apply, in the source's order |
| `PolicyConditions.ReasonKinds` | src/domain/policy.ts:226-241 | no reason is hard exactly for an entitled call, none is soft exactly for one within the policy's own limits |
| `PolicyConditions.DecisionIs` | src/domain/policy.ts:144-249 | the whole decision on a valid call: outcome, what enforcement would say, whether it is enforced, and the reasons |
| `PolicyConditions.AllowsExactly` | src/domain/policy.ts:144-249 | a call is allowed exactly when policy and call are valid, the policy is not paused, the call is entitled (active unexpired mandate, agent, capability, branch, class, budgets) and, unless in a dry run, within every limit |
| `PolicyConditions.LaterIsNoBetter` | src/domain/policy.ts:161-196 | a later time never removes a reason |
| `Policy.EvaluatePolicy` | src/domain/policy.ts:144-249 | the method pushes exactly the reasons that hold, in order, and derives the decision |
| `Policy.Listed` | src/domain/policy.ts:159-223 | a reason is listed exactly when its condition holds |
| `Policy.LessIsNoWorse` | src/domain/policy.ts:169-223 | lowering costs, prior spend, counts or output tokens never adds a reason, so what is allowed stays allowed |
| `Policy.FewerTokensAddAReason` | src/domain/policy.ts:218-220 | lowering input tokens can add one |
| `Policy.DryRunAllowsMore` | src/domain/policy.ts:225-248 | both modes give the same reasons; what enforcement allows a dry run allows, and they differ exactly when all reasons are soft |
| `Policy.AllowedIsWithin` | src/domain/policy.ts:159-223 | an allowed call has an active unexpired mandate, an authorized agent with the capability, and fits the mandate's budget; with workload classes also an authorized unexpired branch and class and their budgets |
| `Policy.RunsStayWithin` | src/domain/policy.ts:178-217 | over any run of calls charged when allowed, mandate, branch and class spend and class invocations move only within their maxima, in a dry run as under enforcement |
| `Policy.BranchMaximaBindIff` | src/domain/policy.ts:188-201 | for a valid policy that is not paused, branch maxima bind in every run exactly when it has workload classes or its own limits let nothing through that costs anything |
| `Policy.NoClassesNoBranchLimit` | src/domain/policy.ts:188 | without workload classes a branch maximum does not bind |
| `SiblingDivergence.SignalsMatchRatios` | src/anomaly/siblingDivergence.ts:154-171 | each reported ratio, floored and clamped, is at or above the threshold exactly when its cross-multiplied signal fires |
| `SiblingDivergence.Positivity` | src/anomaly/siblingDivergence.ts:104-107 | no ratio divides by zero, so the error in the helpers never arises |
| `SiblingDivergence.BaselineIsBetween` | src/anomaly/siblingDivergence.ts:96-107 | the effective baseline lies between the class prior and the trimmed sibling mean, also after rounding |
| `SiblingAnswers.SpendsArePeers` | src/anomaly/siblingDivergence.ts:51-57 | the comparable candidates are the others with the same parent and class and enough observations |
| `SiblingAnswers.StatusIs` | src/anomaly/siblingDivergence.ts:58-150 | how many peers a report needs to be scored and to signal, and what it says without them |
| `SiblingAnswers.ScoreIs` | src/anomaly/siblingDivergence.ts:94-151 | a scored report is about the peers' spends in ascending order, of which from five on the ends do not count: aggregate, weight, baseline, ratios and signals |
| `SiblingAnswers.MoreSiblingsPullToMean` | src/anomaly/siblingDivergence.ts:99-107 | more siblings with the same mean move the baseline towards the mean |
| `SiblingAnswers.MoreConfidencePullsToPrior` | src/anomaly/siblingDivergence.ts:100-107 | more confidence moves it towards the prior |
| `SiblingDivergence.DivergenceNeedsOneFollowsFromBoth` | src/anomaly/siblingDivergence.ts:119-123 | the divergence signal follows when the target is at the threshold against both prior and siblings, and implies it against at least one |
| `SiblingDivergence.CandidateOrderDoesNotMatter` | src/anomaly/siblingDivergence.ts:51-151 | the whole result is the same for every permutation of valid candidates |
| `SiblingDivergence.OrderMattersIff` | src/anomaly/siblingDivergence.ts:51-57 | the result, errors included, is order-free exactly when no two candidates fail differently |
| `SiblingDivergence.OneSiblingCannotMoveTheMean` | src/anomaly/siblingDivergence.ts:94-98 | with five or more siblings one arbitrary spend cannot move the mean outside the range of the others |
| `SiblingDivergence.FourSiblingsCanBeMoved` | src/anomaly/siblingDivergence.ts:95 | with four, one spend moves the mean above any bound |
| `SiblingDivergence.RaisingSiblingsExcusesTarget` | src/anomaly/siblingDivergence.ts:94-129 | raising siblings' spends never switches the divergence signal on, nor the cohort signal off |
| `SiblingDivergence.RaisingTargetKeepsSignals` | src/anomaly/siblingDivergence.ts:78-129 | raising the target's spend never switches a signal off |
| `RejectionDraw.DrawsAreUnbiased` | src/evidence/heldOutReliabilityV2.ts:154-160 | for every range size up to 2^32 each value comes from exactly floor(2^32 / m) accepted words, and more than half of all words are accepted |
| `RejectionDraw.TooManyValues` | src/evidence/heldOutReliabilityV2.ts:156 | beyond 2^32 values nothing is accepted |
| `RejectionDraw.RejectionWordStream.Next` | src/evidence/heldOutReliabilityV2.ts:161-169 | the words are those of each digest in turn, until four bytes no longer hold the counter |
| `RejectionDraw.RejectionWordStream.Draw` | src/evidence/heldOutReliabilityV2.ts:154-160 | the loop ends; the first accepted word from here on decides, every word is used at most once, and it throws exactly when none is left |
| `PromiseLock.MutualExclusion` | src/persistence/schemaBootstrap.ts:11-16 | over any callers and failures at most one caller per key is past the wait |
| `PromiseLock.ArrivalOrder` | src/persistence/schemaBootstrap.ts:11-16 | callers of a key pass in order of arrival, each after the one before has left |
| `PromiseLock.EntryIff` | src/persistence/schemaBootstrap.ts:15-40 | the map has an entry for a key exactly while some caller of it has not left |
| `PromiseLock.ProceedsIffFirst` | src/persistence/schemaBootstrap.ts:14-16 | the awaited promise has resolved exactly when the caller is first in its queue |
| `PromiseLock.QueueMovesUp` | src/persistence/schemaBootstrap.ts:39 | no step moves a caller back, and each leaving caller moves the later ones up by one |
| `PromiseLock.NeverStuck` | src/persistence/schemaBootstrap.ts:11-41 | while a caller has not left, some caller of its key can go on |
| `PromiseLock.Drains` | src/persistence/schemaBootstrap.ts:30-41 | from every reachable state all callers can leave, and the map is then empty |
| `PromiseLock.BootstrapLock.Enter` | src/persistence/schemaBootstrap.ts:11-15 | the method queues the caller behind the promise it found and replaces the map entry |
| `PromiseLock.BootstrapLock.PassWait` | src/persistence/schemaBootstrap.ts:16 | the method marks a caller whose awaited promise resolved as past the wait, and nothing else |
| `PromiseLock.BootstrapLock.Release` | src/persistence/schemaBootstrap.ts:39-40 | the method releases, and removes the entry only if it is still its own |
| `ReceiptCommitment.BuildReceiptCommitment` | src/core/receiptCommitment.ts:36-58 | the loop with its seen-sets finds the first error of the sorted receipts, or totals them |
| `ReceiptCommitment.BuildsIff` | src/core/receiptCommitment.ts:20-47 | a commitment is built exactly when the mandate is named, every receipt has all its texts, safe counts, a sequence from one and a printed cost, and no two share a sequence or request id; it is a strictly ascending permutation of the input |
| `ReceiptCommitment.CommitmentIgnoresOrder` | src/core/receiptCommitment.ts:38-51 | whether it is built, the bundle and the total do not depend on the input order |
| `ReceiptCommitment.ErrorDependsOnOrder` | src/core/receiptCommitment.ts:41-45 | any two valid receipts and an invalid one with their sequence throw different errors in different orders |
| `ReceiptOrder.BuildIgnoresOrderIff` | src/core/receiptCommitment.ts:36-47 | commitment or error are the same for every order of the input exactly when, at each sequence with nothing wrong before it, the receipts of that sequence all fare alike or one passes and the rest are invalid for one reason |
| `ReceiptOrder.BuildAtTie` | src/core/receiptCommitment.ts:38-47 | the error of any input in which a sequence is shared: the first error below it, or what its first two receipts give |
| `ReceiptCommitment.TextDecidesCommitment` | src/core/receiptCommitment.ts:49-56 | two commitments have the same hashed text exactly when they have the same mandate and the same multiset of receipts |

## Left out

- HTTP routing, authentication, wiring, scripts, the database layer and its advisory locks, and the calls into Circle, x402, viem and drand: delegation and foreign code.
- Provider selection and the demo service's values.
- The circuit's reported `ratio`, the Clopper-Pearson and beta functions, and the Wilson interval: floating point.
- Hashes and signatures are not computed; the 24-character cut of a decision id is not modelled, its preimage is.
- Counts and sequence numbers that are not integers; amounts are unbounded integers, as bigint is.
- Lookups that a name such as `constructor` or `toString` would find on a plain object's prototype: child ids and manifest states are taken as map keys.
- The order in which an exported ledger lists reservations, and ledger snapshots for display.
- A request's messages and model are one opaque field; provider metadata in a response likewise.
- A JSON number is identified by its printed token, and undefined values are not values.
- Receipts are taken with their fields in declaration order when their committed text is compared; copies of entries and receipts stand for themselves, so aliasing between a caller's object and the stored one is not captured.
- The publication protocols are step machines over filesystem calls rather than classes, so that they interleave; temporary files under fresh names, permission bits and directory creation are not represented, and neither is the content of lock files.
- `writeOnceJson`, `acquireRunClaim` and `recordAttemptDurablyBeforeAssertions`: one exclusive create each, and an append; they would add only easy members.
- `ProtocolRuntime`, lane queues (`enqueue`, `dequeueAll`), lifecycles, stage transitions, artifact reconstruction and credential validation: table lookups and counters.
- The report's inventories of replays, receipts, claims, manifests, incidents and paths enter `OutcomeMatrix.PassingReport` as one list of further reasons; a settlement snapshot's sealed registry, replay matrix and schedule are not modelled.
- A failed poll has no start time, so no unit conversion gives it one; the checker's clock unit is a parameter, since it counts seconds where the loop counts milliseconds.
- The lock of `withSchemaBootstrapLock` is modelled for its in-process queue; the database lock inside is part of the operation, and returning the client to the pool is taken not to throw.
- Policy admission is charged with the estimate and never refunded within a run; the hourly, daily and per-minute windows enter as given sums, and a policy and its branch maxima do not change during a run.
- The plan builder, lane tables, schedules and call recipes: fixed tables; a draw is taken with min at most max, as every caller does.
- Microtask timing: a resolved promise lets its waiter go on at some later step.
