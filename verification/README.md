# Fidensur, modelled and proved

A treasury funds a round, commits to an encrypted policy, and has an enclave turn the policy into a table of
payments. Only a Merkle root, a total and a signature reach the chain; each recipient claims their own row with
a proof. This project models the three parts that have to agree, and proves what holds between them:

* the allocation engine (Go): validator, evaluator with its capped proportional split, tree builder, the
  handlers COMPUTE, DISCLOSE and ATTEST and the map they share;
* the round contract (Solidity): every state-changing entry point, the claim bitmap, the `outstanding` counters,
  value movement and the signature gate;
* the browser code that mirrors either side (TypeScript): policy preview, tree and proof, disclosure check,
  treasury figures, amount printing and parsing.

`claim` never compares what was claimed with what was allocated. That claims never exceed the allocation holds
only through Merkle soundness, the claim bitmap and the sum of the engine's table together; this is
`Runs.ClaimsNeverExceedAllocation`, for every run, and it is the centre of the project. Beside it stands
`Runs.ClaimFollowsPolicy`: whoever is paid is an entry of the policy the round committed to, and is paid exactly
what that policy's own fields say. Runs include calls
within calls: wherever the contract hands control to a token or, through the registry's refund, to the caller
before it has written, anything may happen in between. What that costs is told to the unit.

## How the modules fit

* `Options`, `Bytes` (32-byte words and their value), `Merkle` (tree, proofs, soundness), `EngineMerkle` and
  `FrontendMerkle` (the loops of both implementations, proved against `Merkle`).
* `WaterFill` (the capping process and its fixpoint), `Confluence` (any order of capping), `Policies` (both
  validators), `Allocate` (policy to table), `Terms` (what a policy's own terms give each entry, and that the table
  pays just that), `RowOrder` (what row order can change), `EngineAllocate` (the Go loops over arrays, proved
  against `Allocate`).
* `Bitmap`, `Rounds` (each entry point as a function from state to outcome), `Entries` (what each accepts and
  writes, told from the stored fields), `Books` (the money invariant),
  `Fidensur` (the contract as a class over storage fields, each method proved against `Rounds`), `TeeResult`
  (the signature gate).
* `Enclave` (what an enclave computes, stores and answers), `EngineService` (the engine object, each handler
  proved against `Enclave`).
* `Protocol` (contract, registry and any number of enclaves as one transition system), `Safety` (its invariant),
  `Tally` (what rounds that went on after a refund cost, told from the rounds), `History` (what only grows and
  what is written once), `Runs` (the main theorems), `Ledger` (money in and out over whole runs), `Authority` (who
  can bring what about), `Attestation` (agreement of results, disclosure to payment, and who is answered),
  `Scenarios` (runs that show what the conditions of the theorems are for),
  `Summary` and `Amounts` (browser figures).

## What is assumed

* Keccak is an arbitrary function from byte strings to 32 bytes. Where collisions matter the assumption is
  `CollisionFree` over a finite set of byte strings that the run, the tree or the proof verification actually
  hashed, and nothing wider; `Enclave.ForgeryIsCollision` states the same fact without the assumption, by naming
  the set in which a forged proof exhibits a collision.
* A result counts as signed only if an enclave of the system signed it, and every machine that signs runs this
  engine, so the address the owner registers belongs to such a machine or signs nothing. Signature recovery is a
  parameter.
* The registry answers with instruction ids it never answered before.
* A token moves exactly the amount asked for, or the call fails. A token address without code is outside this
  assumption: the transfer library takes its empty answer for success although nothing moves.
* Decryption and decoding are one function of the ciphertext; decoded numbers are in the range of their ABI
  fields. All enclaves of one deployment share that function.
* `fund` is two steps, before and after the token call, because `submitPolicy`, `requestCompute` and
  `finalizeRound` are not guarded and may be called in between. `requestCompute` is two steps, before and after
  the registry call, because the registry may refund the caller within it, who may then call any entry point,
  this one included; such calls nest. Everywhere else the call that hands over control is the last action, so a
  callback sees the state the call leaves behind, and the call is one step. The two checked additions of `fund`
  are decided in its first step: nothing admitted in between can change their operands. Time does not pass
  within a call. In two respects the model admits more than a chain does: waiting calls of different kinds may
  end in any order, and machines may work while calls wait.
* A deferred COMPUTE is one atomic step, as its write to the shared map is under a lock; deferred steps complete
  in any order, on any machine, any number of times, and machines may forget everything.
* DISCLOSE replies are signed ciphertext; nothing is assumed of what those bytes would decode to as a result.

## Where the code and its documentation disagree

* `extension/internal/engine/allocate.go:35-36` says that shuffling rows cannot change the root. In weighted mode
  the dust goes to the first row *as written* with room for it, so it can: `RowOrder.ShufflingCanChangeTheTable`
  gives two rows that show it, and `RowOrder.OrderMattersExactly` says exactly when it cannot. For the same
  reason "lowest-indexed recipient" on line 38 is the position in the policy, not the index in the table.
* `extension/internal/engine/engine.go:329-330` and `contracts/Fidensur.sol:666-670` offer ATTEST for finalizing
  a stuck round. Its data is the same, but its instruction id is its own, and `finalizeRound` compares ids:
  `Runs.OnlyComputeFinalizes`.
* `docs/architecture.md` section 9.2, item 7, bounds what closing sends by the allocation not claimed. The code
  sends the funding not claimed: `Books.CloseSweepsFunding` says exactly when the bound holds, and
  `Scenarios.SweepCanExceedAllocation` gives a run where it does not.
* `contracts/Fidensur.sol:400-403` says that at most one instruction can finalize a round, and lines 648-652 that
  `outstanding` makes excess exactly computable. `requestCompute` writes its three fields after the registry call
  and without looking at the round again, so a call made out of a refund can undo either.
  `Scenarios.CancelledWhileAsked` cancels the round meanwhile: it computes again although its funding is gone, and
  in `Scenarios.AnotherRoundPays` its recipient is paid out of another round's funding.
  `Scenarios.FinalizedWhileAsked` finalizes it meanwhile, and once more afterwards.
  `History.RecordedInOrderExactly` says when recording the answer is harmless: exactly if the round is still
  committed or computing. A round cancelled meanwhile and brought back is marked for good: it is swept and live
  (`Runs.RevivedIsReturned`). By how much the contract's counters are off because of such rounds is told to the unit
  (`Runs.BooksAlwaysBalance`, `Runs.OutstandingExactly`), and every theorem about money holds in all runs, with what
  such rounds owe or were claimed of as part of its statement. The theorems about status hold for every round whose
  answers were recorded in order.
* `docs/architecture.md` section 9.2, item 3, says that the balance covers the unclaimed allocations of unswept
  finalized rounds. In `Scenarios.PromisedBeyondBalance` it does not; `Runs.PromisesHeldExactly` says when it does.
* `docs/architecture.md` section 9.2, item 4, says that the root is set exactly once. `Scenarios.FinalizedWhileAsked`
  sets it twice. It never changes its value, nor do total, count and engine version (`Runs.ResultStands`); only
  the deadline moves.
* `contracts/Fidensur.sol:601-605` promises the organization its remainder once the claim window is over. In
  `Scenarios.RemainderStranded` a round that is due cannot be closed, nor could it be cancelled before
  (`Scenarios.AnotherRoundPays`): its subtraction underflows. `Runs.CloseExactly` and `Runs.CancelExactly` say
  when that is so.
* `frontend/lib/rounds.ts:127-133` says that the dashboard shows what the contract still holds. It leaves out every
  swept round, so claims of a round that was brought back are missing: `Scenarios.DashboardOverstates`. By how much
  is told by `Summary.HeldMatchesOutstanding`.

## Model

| member | source | states |
|---|---|---|
| Runs.ClaimsNeverExceedAllocation | contracts/Fidensur.sol:572-595 | after any run, a finalized or closed round's claimed total is the sum of its table over the claimed rows, at most the allocation, which is the table's sum and at most the funding; claimed indices are rows |
| Runs.ClaimFollowsPolicy | contracts/Fidensur.sol:572-595 | in every run whoever claims is an entry of the policy the round committed to, the ciphertext with the committed hash decrypts to it, and the claim is exactly what that policy's terms give the entry, within its floor and cap |
| Runs.AllocationFollowsPolicy | extension/internal/engine/engine.go:165-234 | after any run the table behind a finalized or closed round is the one its committed policy describes, entry by entry, and its total is within that policy's budget |
| Runs.PaidEntryCanClaim | contracts/Fidensur.sol:572-595 | conversely every entry that policy pays has a row of just that amount, which its recipient can claim in time if and only if it is outstanding |
| Runs.CloseExactly | contracts/Fidensur.sol:606-623 | after any run closing passes its checks or runs short exactly for an expired finalized round that was not swept, with no guard held; it then closes if and only if funded minus claimed is outstanding, that is, if what was claimed of rounds brought back is within what the other unswept rounds hold, and sends just that |
| Runs.CancelExactly | contracts/Fidensur.sol:630-646 | after any run the same for the organization cancelling a round that was not dispatched, which returns its whole funding |
| Runs.WindDownNeverPanics | contracts/Fidensur.sol:606-646 | after any run closing or cancelling finds enough to pay, and its subtraction fails only if something was claimed of a round of that token that was cancelled and brought back |
| Runs.ClaimNeverPanics | contracts/Fidensur.sol:587-592 | after any run a proved claim overflows nothing and finds enough to pay, and its subtraction fails only if the run brought back a cancelled round of that token |
| Runs.EveryRowIsClaimable | contracts/Fidensur.sol:572-595 | before the deadline the recipient of an unclaimed row of a finalized round can claim it with the generated proof if and only if its amount is outstanding, which it is unless the run brought back a cancelled round of that token; it is paid exactly its amount |
| Runs.ClaimIsOwnRowOnce | contracts/Fidensur.sol:582-585 | an accepted claim is its sender's own unclaimed row with its amount; afterwards that row is refused in every later state to everybody |
| Runs.NobodyElseCanClaim | contracts/libraries/AllocationMerkle.sol:61-73 | another sender with a row's own index, amount and proof is refused |
| Runs.BooksAlwaysBalance | contracts/Fidensur.sol:355-366 | after any run and for every token: what live rounds tie up is outstanding plus the funding of the rounds cancelled while the registry was asked, ever funded is outstanding plus paid out, and the balance covers outstanding |
| Ledger.MoneyIsConserved | contracts/Fidensur.sol:355-366 | after any run and for every token: all that fund collected is outstanding, was paid out or is about to be credited, and with stray value it is held, was paid out or was rescued |
| Ledger.FundingIsCollected | contracts/Fidensur.sol:355-366 | after any run a round's funding is exactly what fund collected for it, for every token and every top-up |
| Runs.OutstandingExactly | contracts/Fidensur.sol:355-366 | after any run outstanding is funded minus claimed over unswept rounds, less what was claimed of rounds that are swept and live |
| Runs.RevivedIsReturned | contracts/Fidensur.sol:423-427 | after any run the funding of the rounds cancelled while the registry was asked is that of the rounds now swept and live, all of them computing or finalized |
| Runs.BooksBalanceExactly | contracts/Fidensur.sol:423-427 | outstanding is what live rounds tie up if and only if no round of the token is swept and live, which is so if and only if no answer of the registry found a round of it cancelled |
| Runs.AfterSound | contracts/Fidensur.sol:423-427 | the books of all tokens and the sweep flags are right after a run if and only if no answer of the registry found its round cancelled |
| Runs.PromisesAreHeld | docs/architecture.md:787-787 | after any run the unclaimed allocations of all finalized rounds together are within outstanding plus what was revived, and outstanding is within the balance |
| Runs.PromisesOutstandingExactly | docs/architecture.md:787-787 | after any run those allocations are within outstanding if and only if what was revived is at most what live rounds tie up beyond their promises |
| Runs.PromisesHeldExactly | docs/architecture.md:787-787 | after any run the balance covers the unclaimed allocations of unswept finalized rounds if and only if what was claimed of rounds that are swept and live is within what unswept rounds hold beyond their promises and the balance beyond outstanding |
| Runs.ResultStands | docs/architecture.md:788-788 | in every run a root, total, count and engine version once set never change value, even where a round is finalized twice, and neither does the table behind them |
| Runs.RescueTakesOnlyExcess | contracts/Fidensur.sol:653-664 | after any run a rescue leaves what live rounds tie up less what was revived, and touches no round and no other token |
| Runs.OnlyComputeFinalizes | contracts/Fidensur.sol:486-488 | whatever finalizes a round was signed under a COMPUTE of a ciphertext with the committed hash and carries what that ciphertext computes to; an ATTEST result never does |
| Runs.ComputingRoundFinalizes | contracts/Fidensur.sol:454-519 | after any run a computing round whose ciphertext computes to a table of its own within its funding is finalized by the registered machine running its instruction and anyone relaying the result |
| Attestation.DisclosurePays | frontend/lib/merkle.ts:182-200 | a disclosure by any machine in any run names the on-chain root, passes the browser's check and has at most 12 siblings; sent as a claim it pays the disclosed amount if and only if that is outstanding |
| Attestation.CheckIsTheContracts | frontend/lib/merkle.ts:182-200 | the browser's check passes exactly when the disclosure names the root on the chain and the contract does not refuse its proof |
| Attestation.DisclosedToRequesterOnly | docs/architecture.md:797-797 | whatever a machine discloses in any run is, under the key of the request, the row of the account that sent the request |
| Attestation.OneResultPerCommitment | extension/internal/engine/engine.go:325-369 | all successful COMPUTE and ATTEST results for one commitment carry identical data, whatever the interleaving, machine or restart |
| Attestation.SelfCheckPassesInEveryRun | extension/internal/engine/engine.go:331-379 | in every run a machine attests exactly the rounds it holds, with their aggregates; each is coherent and passes its self-check |
| Attestation.ComputedIsAnswered | extension/internal/engine/engine.go:249-369 | in every run a machine that has run a COMPUTE answers for it until it restarts, whatever happens between: each recipient that asked is sent its own row with its proof, and each attestation request gets the aggregate signed |
| Attestation.MemoryIsBehind | extension/internal/engine/engine.go:165-234 | a machine that remembers a settled round's commitment remembers the very table and root behind it on the chain |
| Safety.RunKeepsInv | contracts/Fidensur.sol:454-646 | every run, calls within calls included, keeps the invariant that ties rounds, instructions, waiting calls, signed results, memories and claims together |
| Safety.StepKeepsInv | contracts/Fidensur.sol:332-664 | each single step keeps that invariant and moves the books by nothing, or by exactly what recording an answer revives |
| Safety.ClaimIsForARow | contracts/Fidensur.sol:583-585 | an accepted claim is a row of the table behind the round: index, sender and amount |
| Safety.FinalizeKeepsInv | contracts/Fidensur.sol:474-519 | a finalized round bears root, total and count of the table its committed ciphertext computes to |
| History.StepFollows | contracts/Fidensur.sol:378-646 | one step takes each round along one edge of the declared graph or not at all and keeps what earlier stages wrote, if and only if it does not record an answer for a round that is neither committed nor computing |
| History.RecordedInOrderExactly | contracts/Fidensur.sol:423-427 | recording an answer keeps right books right and obeys the graph if and only if the round is still committed or computing |
| History.RunGrows | contracts/Fidensur.sol:378-646 | in every run commitments stand, claims, payments, claimed totals and funding never shrink, and no old instruction returns to a round |
| History.RunFollows | contracts/Fidensur.sol:378-646 | a round whose answers are recorded in order follows the graph over the whole run, its root, totals and deadline written at most once, whatever happens to other rounds |
| History.ClaimedForever | contracts/Fidensur.sol:582-582 | a claimed row is refused in every later state |
| History.SupersededForever | contracts/Fidensur.sol:483-488 | a result for an issued instruction that is not the round's current one is refused in every later state |
| History.RetrySupersedes | contracts/Fidensur.sol:423-427 | once a retry's answer is recorded no earlier instruction finalizes the round, ever |
| History.FinalizedOnce | contracts/Fidensur.sol:478-480 | once a result finalized a round no result does again, as long as no answer for it is recorded out of order |
| Authority.StepByRight | contracts/Fidensur.sol:332-664 | in every step a commitment is made only by the round's organization, a round cancelled only by it, a dispatch asked only by it, a machine registered and excess rescued only by the owner, a row marked only by a claim of it; nothing else moves these |
| Authority.CommittedByOrganization | contracts/Fidensur.sol:378-389 | over any run the commitment of a round was submitted in an accepted call of its organization |
| Authority.RegisteredByOwner | contracts/Fidensur.sol:318-322 | over any run the machine registered was registered in an accepted call of the owner |
| Books.CloseSweepsFunding | docs/architecture.md:791-791 | closing sends funded minus claimed, which stays within the unclaimed allocation if and only if the whole funding was allocated |
| Books.RecordMoves | contracts/Fidensur.sol:423-427 | from any state, recording an answer leaves live rounds owing more than outstanding by exactly what a cancelled or closed round owed |
| Tally.AnswerFinds | contracts/Fidensur.sol:404-428 | in every run an answer finds its round funded and never open or closed; one cancelled meanwhile is unclaimed, one finalized meanwhile is before its deadline |
| Tally.RunTallied | contracts/Fidensur.sol:332-664 | every run, calls within calls included, keeps what live rounds tie up beyond outstanding equal, for every token, to the funding of the rounds that are swept and live |
| Books.RecordKeepsSoundExactly | contracts/Fidensur.sol:423-427 | right books stay right if and only if the round is neither cancelled nor closed when the registry answers |
| Scenarios.CancelledWhileAsked | contracts/Fidensur.sol:404-428 | a run in which the organization cancels out of the refund: the round computes again, its funding is gone and the books are short by it |
| Scenarios.AnotherRoundPays | contracts/Fidensur.sol:404-428 | that round goes on to pay its recipient out of another organization's funding, which then cannot be cancelled |
| Scenarios.PromisedBeyondBalance | docs/architecture.md:787-787 | the other organization goes on and its round is finalized: an unswept finalized round promises more than the contract holds |
| Scenarios.RemainderStranded | contracts/Fidensur.sol:601-623 | once its claim window is over that round passes every check of closing and cannot be closed |
| Scenarios.DashboardOverstates | frontend/lib/rounds.ts:160-166 | after that claim the dashboard shows more as held than is outstanding, by what was claimed of the round brought back |
| Scenarios.FinalizedWhileAsked | contracts/Fidensur.sol:400-428 | a run in which the first result is relayed out of a retry's refund: the round is finalized twice and its deadline moves |
| Scenarios.SweepCanExceedAllocation | docs/architecture.md:791-791 | a run from the start whose closing sends more than the unclaimed allocation |
| Scenarios.GrantsAreComputable | extension/internal/engine/engine.go:165-234 | the engine meets what these runs ask of the ciphertexts, under any hash that answers no zero for them |
| Books.RescueLeavesOutstanding | contracts/Fidensur.sol:653-664 | rescue leaves the balance equal to outstanding and keeps the books and every other token |
| Books.ClaimKeeps | contracts/Fidensur.sol:587-592 | a claim keeps the books of every token as right or wrong as they were |
| Books.FundSettleKeeps | contracts/Fidensur.sol:360-363 | crediting after the token call succeeds and keeps the books, whatever the round has become meanwhile |
| Books.CloseKeeps | contracts/Fidensur.sol:606-623 | closing keeps the books of every token |
| Books.CancelKeeps | contracts/Fidensur.sol:630-646 | cancelling keeps the books of every token |
| Books.ReceiveKeeps | contracts/Fidensur.sol:809-809 | stray value credits no round and keeps the books |
| Entries.CreateExactly | contracts/Fidensur.sol:332-344 | accepted exactly for windows between an hour and a year; the new round is the caller's, of the given token and window, empty and undecided, and no other is touched |
| Entries.FundExactly | contracts/Fidensur.sol:355-366 | a completed call raises funding of its round, outstanding and balance of its token by exactly the amount, and changes no other round or token |
| Entries.FundEnterExactly | contracts/Fidensur.sol:355-359 | accepted exactly for an open round, a positive amount, the value that the token calls for and room in both totals |
| Entries.FundSettleExactly | contracts/Fidensur.sol:360-363 | exactly what the lock names is credited to its round and token, whatever the round has become |
| Entries.SubmitExactly | contracts/Fidensur.sol:378-389 | accepted exactly from the round's organization, for an open funded round and a commitment that is not zero; writes that and the status alone |
| Entries.DispatchExactly | contracts/Fidensur.sol:404-421 | accepted exactly from the round's organization, with the committed ciphertext, first or half an hour after the last, when a machine is found |
| Entries.RecordExactly | contracts/Fidensur.sol:423-427 | the answer, the time and the status are written to the round of the innermost waiting call, and nothing else |
| Entries.DisclosureExactly | contracts/Fidensur.sol:538-557 | sent exactly while the round computes or is finalized and for a key of 33 or 65 bytes, naming the caller and the round's commitment |
| Entries.AttestationExactly | contracts/Fidensur.sol:671-686 | sent exactly while the round computes or is finalized, naming the round's commitment |
| Entries.FinalizeExactly | contracts/Fidensur.sol:454-519 | accepted exactly when signer, status, contract, round, instruction, commitment, root, count, total and clock are as the source asks; writes the result, the deadline and the status alone |
| Entries.ClaimExactly | contracts/Fidensur.sol:572-595 | accepted exactly in time, unclaimed, with a proof that leads to the root, for an amount outstanding and paid; marks that row alone and pays the sender |
| Entries.CloseAccepted | contracts/Fidensur.sol:606-623 | accepted exactly after the deadline of a finalized round not swept, when the remainder is outstanding and paid; ends that round alone and pays its organization |
| Entries.CancelAccepted | contracts/Fidensur.sol:630-646 | accepted exactly from the organization of an undispatched round whose funding is outstanding and paid back; ends that round alone |
| Entries.SetTeeExactly | contracts/Fidensur.sol:318-322 | accepted exactly from the owner and not for the zero address; writes nothing else |
| Entries.RescueExactly | contracts/Fidensur.sol:653-664 | accepted exactly from the owner, to a real address, when more is held than outstanding; sends just the excess of that token |
| Fidensur.Contract.Deploy | contracts/Fidensur.sol:274-286 | deployment refuses registries that are absent or without code, and otherwise starts in the initial state of the specification |
| Fidensur.Contract.constructor | contracts/Fidensur.sol:274-286 | fresh storage, with its empty bitmap, stands for the initial state of the specification |
| Fidensur.Contract.CreateRoundFor | contracts/Fidensur.sol:332-344 | storage moves as the specification says; the new id is the old counter |
| Fidensur.Contract.EnterFund | contracts/Fidensur.sol:355-360 | funding up to the token call: checks in order, value in, lock taken, else nothing changed |
| Fidensur.Contract.SettleFund | contracts/Fidensur.sol:362-363 | funding after the token call: round and outstanding credited by the same amount, lock released |
| Fidensur.Contract.Collect | contracts/libraries/SafeTransfer.sol:41-49 | native value must equal the amount, none may be attached to a token round, and the balance grows by exactly the amount |
| Fidensur.Contract.PayOutOf | contracts/libraries/SafeTransfer.sol:28-35 | zero moves nothing; otherwise balance and payment log move by the amount or nothing does |
| Fidensur.Contract.SubmitPolicyFor | contracts/Fidensur.sol:378-389 | commits once, by the organization, to a non-zero hash, of a funded open round |
| Fidensur.Contract.EnterComputeFor | contracts/Fidensur.sol:404-422 | dispatch or timed retry up to the registry call: every check in order, nothing written but that the call waits |
| Fidensur.Contract.RecordComputeFor | contracts/Fidensur.sol:423-427 | after the registry call: instruction, time and status written whatever the round has become |
| Fidensur.Contract.RequestDisclosureFor | contracts/Fidensur.sol:538-557 | what is sent names the caller, the round and the round's own commitment; sent only from computing on, with a key of either length; nothing is stored |
| Fidensur.Contract.RequestAttestationFor | contracts/Fidensur.sol:671-686 | what is sent names the round and its own commitment; sent only from computing on; nothing is stored |
| Fidensur.Contract.Finalize | contracts/Fidensur.sol:454-469 | registered machine, success and signer are checked before anything is applied |
| Fidensur.Contract.Apply | contracts/Fidensur.sol:474-519 | every check in order, then all six fields and the status in one go, else nothing changed |
| Fidensur.Contract.ClaimFor | contracts/Fidensur.sol:572-595 | bit, totals and payment move together or not at all; each refusal as specified |
| Fidensur.Contract.PerformClaim | contracts/Fidensur.sol:587-592 | effects before the payment; a failed payment leaves no trace |
| Fidensur.Contract.Mark | contracts/Fidensur.sol:790-795 | the stored words claim exactly one pair more |
| Fidensur.Contract.IsClaimedAt | contracts/Fidensur.sol:701-707 | the stored bit answers whether the pair was claimed |
| Fidensur.Contract.CloseRoundFor | contracts/Fidensur.sol:606-623 | only after the deadline and once: remainder out of outstanding and to the organization |
| Fidensur.Contract.CancelRoundFor | contracts/Fidensur.sol:630-646 | only by the organization and before computing: full refund |
| Fidensur.Contract.SetTee | contracts/Fidensur.sol:318-322 | owner only, never the zero address, nothing else changes |
| Fidensur.Contract.RescueFor | contracts/Fidensur.sol:653-664 | owner only, exactly the excess over outstanding, no round changes |
| Bitmap.ClaimAllFromEmpty | contracts/Fidensur.sol:701-707 | after any sequence of claims the bits set are exactly the pairs claimed, over all indices and rounds, and words stay within 256 bits |
| Bitmap.SetClaimedAdds | contracts/Fidensur.sol:790-795 | setting one claim adds that pair and no other, across words and rounds |
| Bitmap.SetBitSets | contracts/Fidensur.sol:704-706 | or-ing a shifted one sets that bit and no other |
| TeeResult.ViewAgreesWithFinalization | contracts/libraries/TeeResultVerifier.sol:94-138 | the non-reverting check says yes exactly when the reverting one passes; neither does for the zero address |
| TeeResult.AcceptedExactly | contracts/libraries/TeeResultVerifier.sol:94-163 | a signature is accepted exactly if it is over a success, has 65 bytes and a known parity, and recovers to the given machine, not the zero address |
| TeeResult.FinalizesWhenVerified | contracts/Fidensur.sol:461-468 | finalization applies a result exactly when a machine is registered and the signature check passes |
| TeeResult.DigestBinds | contracts/libraries/TeeResultVerifier.sol:57-76 | one signed digest covers one chain, result, instruction, tag and status, or two hashed strings collide |
| TeeResult.DigestLayout | contracts/libraries/TeeResultVerifier.sol:57-79 | what is hashed for a signature, byte by byte |
| Merkle.TreeSoundness | contracts/libraries/AllocationMerkle.sol:36-73 | a proof of any length that reaches the root starts at one of the tree's leaves, or two hashed strings collide |
| Merkle.Completeness | extension/internal/engine/merkle.go:77-104 | for every size and index the generated proof leads from the leaf to the root |
| Merkle.ProofLength | extension/internal/config/config.go:39-45 | a proof over at most 2^d leaves has at most d siblings |
| Merkle.LevelsBuildSplitTree | extension/internal/engine/merkle.go:48-68 | building by levels with promoted odd nodes gives the root of the recursive tree of section 2.1 of RFC 6962 |
| Merkle.HashPairCommutes | contracts/libraries/AllocationMerkle.sol:76-79 | pair hashing ignores the order of its operands |
| Merkle.PairBytesBindsBoth | contracts/libraries/AllocationMerkle.sol:76-88 | a node's bytes determine its two children up to order |
| Merkle.RowBytesInjective | extension/internal/engine/merkle.go:31-40 | a leaf's bytes determine round, index, recipient and amount |
| Merkle.RowBytesLayout | extension/internal/engine/merkle.go:31-40 | round, index, recipient and amount stand in this order, 32 bytes each, most significant byte first |
| Merkle.WordIsNoPair | contracts/libraries/AllocationMerkle.sol:36-45 | a leaf's outer hash is never a node's hash, or two hashed strings collide |
| Bytes.FirstDifferenceDecides | extension/internal/engine/merkle.go:131-138 | the first differing byte decides the numeric order of two words |
| EngineMerkle.BytesLess | extension/internal/engine/merkle.go:131-138 | byte-wise comparison is comparison of the numbers |
| EngineMerkle.NextLevelOf | extension/internal/engine/merkle.go:106-119 | the slot-filling loop builds the next level |
| EngineMerkle.BuildMerkleTree | extension/internal/engine/merkle.go:51-68 | no tree over no leaves, otherwise all levels of the specified tree |
| EngineMerkle.ProofOf | extension/internal/engine/merkle.go:77-94 | the specified proof inside the range, none outside it |
| EngineMerkle.VerifyProof | extension/internal/engine/merkle.go:98-104 | accepts exactly the proofs that lead to the root |
| FrontendMerkle.BuildTree | frontend/lib/merkle.ts:112-140 | the stride-two builder yields the same root and levels as the engine's |
| FrontendMerkle.BuildProof | frontend/lib/merkle.ts:143-160 | off any levels and for any index, the siblings that exist; off a tree's levels the same proofs as the engine's, and none below zero |
| FrontendMerkle.TraceProof | frontend/lib/merkle.ts:84-103 | each traced step starts where the last ended and hashes the pair in the order its flag shows; the verdict is the contract's |
| Enclave.TableSoundness | contracts/libraries/AllocationMerkle.sol:47-73 | a proof the contract accepts against a table's root is for a row of that table, when nothing hashed collides |
| Enclave.ForgeryIsCollision | contracts/libraries/AllocationMerkle.sol:47-73 | an accepted proof for anything else exhibits a collision within a named finite set |
| Enclave.RootBindsTable | extension/internal/engine/merkle.go:31-40 | one round and one root mean one table, rows in order, when nothing that building the two trees hashed collides |
| Merkle.ProofWithinTree | extension/internal/engine/merkle.go:77-94 | checking a generated proof hashes nothing that building the tree did not |
| Enclave.ComputeExactly | extension/internal/engine/engine.go:165-234 | a ciphertext computes to something if and only if it decrypts to a valid policy that pays somebody; then round and organization are the policy's and the table is the one that follows the policy's terms |
| Enclave.ComputedIsCoherent | extension/internal/engine/engine.go:165-234 | whatever ciphertext is sent, a computed round's table, tree, root, total and lookup fit together and fit the chain's number ranges |
| Enclave.SelfCheckNeverFails | extension/internal/engine/engine.go:331-379 | for the contract it serves the engine attests exactly the rounds it holds, with their aggregates: the self-check before re-signing passes for everything memory can hold |
| Merkle.StoredProof | extension/internal/engine/merkle.go:77-94 | a proof read off stored levels is the proof of the leaf |
| Enclave.DisclosureIsOwnRow | extension/internal/engine/engine.go:249-323 | a disclosure is the requester's own row and passes the browser's check |
| Enclave.DisclosureForRowsOnly | extension/internal/engine/engine.go:265-278 | a requester is answered if and only if the request is for the contract served and a round held under that commitment and number, and has a row in its table |
| EngineService.Engine.ProcessCompute | extension/internal/engine/engine.go:165-234 | stores and answers exactly what the ciphertext computes to, or counts a failure and stores nothing |
| EngineService.Engine.ProcessDisclose | extension/internal/engine/engine.go:249-323 | answers as specified from unchanged memory, and counts |
| EngineService.Engine.ProcessAttest | extension/internal/engine/engine.go:331-369 | answers as specified from unchanged memory, and counts |
| EngineService.Engine.Run | extension/internal/engine/engine.go:173-212 | decrypt, validate, evaluate and commit give the specified round |
| EngineService.Engine.Intact | extension/internal/engine/engine.go:372-379 | rebuilding the tree decides whether the stored root is the table's |
| WaterFill.SettleReachesFixpoint | extension/internal/engine/allocate.go:151-197 | the capping loop never overdraws, never runs out of passes, and halts where the uncapped weights are exactly those not over the cap at the final level, which has not fallen |
| WaterFill.PassRaisesLevel | extension/internal/engine/allocate.go:165-196 | one pass leaves the remainder non-negative and does not lower remaining over weight |
| WaterFill.ShareMonotone | extension/internal/engine/allocate.go:151-197 | a larger weight is never paid less before dust |
| WaterFill.DustBound | extension/internal/engine/allocate.go:208-226 | shares never exceed the budget; the dust is less than the number of uncapped positive weights, or the whole remainder when no weight is left |
| Confluence.AnyOrderSameResult | extension/internal/engine/allocate.go:151-197 | any two orders of single cappings that cannot go on end alike |
| Confluence.AnyOrderEndsWhereLoopEnds | extension/internal/engine/allocate.go:151-197 | capping one weight at a time in whatever order ends where the batch passes end |
| Confluence.SettleIgnoresOrder | extension/internal/engine/allocate.go:151-197 | permuted weights settle at the same level with the same weights uncapped |
| RowOrder.DirectModesIgnoreOrder | extension/internal/engine/allocate.go:35-36 | in explicit and tiered mode any arrangement of the rows evaluates to the identical table |
| RowOrder.WeightedSharesFollowRows | extension/internal/engine/allocate.go:151-206 | permuting weighted rows keeps what each weight is paid before dust and the total after it |
| RowOrder.OrderMattersExactly | extension/internal/engine/allocate.go:216-218 | a weighted policy's table is independent of row order if and only if at most one row has room for the dust or no such row survives the floor |
| RowOrder.ShufflingCanChangeTheTable | extension/internal/engine/allocate.go:35-36 | two orders of one weighted policy with different tables |
| Terms.EvaluateFollowsTerms | extension/internal/engine/allocate.go:42-245 | in every mode a table results if and only if some entry is paid something, and it has a row for an entry with an amount if and only if the policy's fields give the entry that amount, positive and not below the floor: the stated amount or that of its band cut to the cap, or its part of the split |
| Terms.SplitFollowsTerms | extension/internal/engine/allocate.go:141-245 | a weighted entry is paid its floored proportion of what is left when overpaid weights were given the cap one by one in any order, at most the cap, and the whole remainder on top if it is the first as written that can take it |
| Terms.TermsFixTable | extension/internal/engine/allocate.go:69-74 | there is one such table |
| Allocate.EvaluateGood | extension/internal/engine/allocate.go:42-85 | a valid policy fails only when no row survives the floor; otherwise the table is strictly ascending, indexed from zero, of distinct policy recipients, positive, within floor and cap, within the budget and the projected total |
| Allocate.WeightedTotal | extension/internal/engine/allocate.go:141-206 | weighted mode never errs, stays within budget and cap, and without a cap pays exactly the budget |
| Allocate.DustConserves | extension/internal/engine/allocate.go:219-245 | after dust no amount exceeds the cap and the total is the budget if and only if there was no dust or some row can absorb it |
| Allocate.DustGoesToFirst | extension/internal/engine/allocate.go:226-245 | the dust goes whole to the first row as written that can absorb it, and otherwise nowhere |
| Allocate.AmountsWithinPolicy | extension/internal/engine/allocate.go:88-206 | in every mode amounts respect cap, budget and projected total, with equality to the latter when there is no cap |
| Allocate.AscendingUnique | extension/internal/engine/allocate.go:69-74 | rows have one ascending arrangement, so any sort by address gives the same indices |
| EngineAllocate.FillLoop | extension/internal/engine/allocate.go:146-197 | neither the error branch nor the pass bound is ever taken; the slices end at the fixpoint, where every amount, capped early, late or never, is the smaller of the cap and the floored share at the final level |
| EngineAllocate.DistributeDust | extension/internal/engine/allocate.go:219-245 | the in-place loop adds the dust as specified |
| EngineAllocate.WeightedAmounts | extension/internal/engine/allocate.go:141-206 | the weighted loop over slices returns the specified shares or error |
| EngineAllocate.DirectRows | extension/internal/engine/allocate.go:102-131 | the explicit and tiered loops return each row's capped amount, or the error when a band index is out of range |
| EngineAllocate.EvaluatePolicy | extension/internal/engine/allocate.go:42-85 | the whole evaluation over slices returns the specified table or error |
| EngineAllocate.Total | extension/internal/engine/allocate.go:248-254 | the summing loop returns the table's total |
| Policies.ValidExactly | extension/internal/engine/allocate.go:266-393 | a policy is valid if and only if no fault of the list applies to it |
| Policies.Validate | extension/internal/engine/allocate.go:266-393 | accepts exactly the valid policies, and a refusal names a fault the policy has |
| Policies.ValidateMode | extension/internal/engine/allocate.go:330-393 | accepts exactly what the mode allows |
| Policies.ValidatePolicy | frontend/lib/policy.ts:163-252 | accepts exactly the well-formed policies, hence what the engine accepts but for contract and band count, and projects the total |
| Summary.SummarizeRounds | frontend/lib/rounds.ts:147-194 | the loop returns every sum and count, and the first round in flight |
| Summary.SummaryMeans | frontend/lib/rounds.ts:147-194 | each total is the running sum of its field over the rounds it is for, each count the number of places in the list of its kind |
| Summary.FirstInFlightExactly | frontend/lib/rounds.ts:174-180 | the active round is the first listed that is open, committed or computing, and none only if there is none |
| Summary.HeldMatchesOutstanding | frontend/lib/rounds.ts:147-194 | after any run, over the full list, the figure held is outstanding summed over the tokens in use plus what was claimed of rounds that are swept and live; so the two agree if and only if nothing was claimed of such a round |
| Amounts.PrintedExactly | frontend/lib/policy.ts:317-329 | an amount printed with a place for every decimal, or with more, is parsed back unchanged, for every value and number of decimals |
| Amounts.PrintedWithinPrecision | frontend/lib/contracts.ts:430-438 | at any precision the amount read back is short by less than one unit of the last printed place, and by nothing once every decimal has a place |
| Amounts.PrintedIsShort | frontend/lib/contracts.ts:430-438 | no more places than the precision, and no trailing zero |
| Amounts.TrimExactly | frontend/lib/policy.ts:317-318 | trimming takes off all white space at both ends and nothing else |
| Amounts.ParseAccepts | frontend/lib/policy.ts:317-326 | accepts, between white space, exactly digits with optionally a dot and at most the allowed further digits |
| Amounts.ParseReads | frontend/lib/policy.ts:328-328 | and reads them as the smallest units they stand for |

## Left out

- Protocol: the HTTP handlers, polling and the queue behind a deferred action are not modelled; the in-progress answer is a signed non-success, and a deferred COMPUTE is the step that completes it.
- EngineAllocate.EvaluatePolicy: absent big-integer pointers, which Go treats as zero or refuses, are not modelled; every policy field has a value.
- EngineAllocate.TabulateRows: the inside of the library sort is not modelled; `Allocate.AscendingUnique` makes any sort by address as good as another.
- Policies.ValidatePolicy: accepts or refuses and names faults, but the wording of the messages and the letter case of addresses are not modelled.
- Policies.Validate: which of several faults is reported first follows the code, but the contract only says that the fault reported is one.
- Enclave.ComputeRound: the policy's salt, the time stamp, log lines and the encrypted envelope of a disclosure are left out; none enters the root or the result.
- FrontendMerkle.BuildProof: indices beyond 31 bits, which the browser's bit operators cut, are not modelled.
- Fidensur.Contract.Deploy: the base contract's own refusals are not part of this model.
- Fidensur.Contract: events, gas, slot packing, ownership transfer, extension-id discovery and plain views are left out; fees forwarded to the registry pass through without touching the balance.
- Rounds.PayOut: a payment that a recipient's own code refuses is the argument `moved`; several payments inside one callback are several steps.
- Bitmap.SetBit: words are natural numbers and shifts are powers of two; `Bitmap.SetBitInWord` shows that they stay within 256 bits.
- Amounts.Parse: which characters count as white space is a parameter, required only to exclude digits and the dot where a printed amount is read back.
- The insides of keccak, curve recovery and encryption, and ABI encoding beyond fixed-width words.
- The recipient list parser, the ciphertext vault, verdicts about attestations, round stages and all pages: display code and small case splits.
