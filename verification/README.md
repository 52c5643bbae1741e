# ZK payroll contracts: verified models

This project models four on-chain components of a private payroll system and proves what they keep
over every run of calls:

- the **payroll run ledger** (`contracts/payroll`): preparing, finalizing, cancelling and executing
  payroll runs, fund reservations, run nonces, the configuration lock, emergency withdrawals, the
  asset list, run states and batch checkpoints;
- the **registry** (`contracts/payroll_registry`): the Stellar account strkey validator with its
  base32 decoder and CRC-16/XMODEM checksum, and the admin-to-company index;
- the **payment executor** (`contracts/payment_executor`): payroll periods, payments, nullifiers and
  batches;
- the **audit module** (`contracts/audit_module`): view-key delegation and recursive revocation.

`dafny verify dfyconfig.toml` checks everything.

## How it is organised

| files | content |
|---|---|
| `Common`, `Token`, `Words` | addresses, the call environment, sums over maps; the token as a balance map; bit-string words |
| `Base32`, `Crc16`, `CrcDistance`, `Wallet` | the strkey validator, loop by loop, and its error-detection theorems |
| `PayrollLedger` | payroll storage and the effect of each entry point; `Step` and `Run` |
| `PayrollInvariant`, `PayrollPreservation` | the records that must agree, and that every call keeps them |
| `PayrollRuns`, `PayrollNonces`, `PayrollRecords`, `PayrollStates`, `PayrollTreasury`, `PayrollFlows`, `PayrollNullifiers`, `PayrollEmergency`, `PayrollWitnesses` | theorems over whole runs, and the concrete runs that refute broader claims |
| `PayrollAcceptance` | exactly when each payroll call is accepted and what it leaves, in fields and numbers |
| `PayrollContract` | the entry points as loops and step-by-step writes, refining `PayrollLedger` |
| `Checkpoints`, `CompanyIndex` | batch checkpoints; company registration and admin rotation |
| `PaymentBooks`, `PaymentInvariant`, `PaymentReuse`, `PaymentAcceptance`, `PaymentBatch`, `PaymentExecutor` | the payment executor: effects, invariant, refusal of reuse, exact acceptance and faults, closed form of a batch, and the methods |
| `DelegateGraph`, `AuditDelegation`, `AuditRevocation`, `AuditAcceptance`, `AuditContract` | the delegate graph, revocation theorems, exact acceptance and access, and the recursive method |

Each component is a state machine. An entry point is a function from the stored state to the new
state or a failure; `Step` applies one call, `Run` a sequence of calls by anyone. Classes
(`Payroll`, `CheckpointStore`, `RegistryContract`, `Executor`, `AuditModule`) do the same work the way
the contracts do, writing storage step by step in loops, and are proved to leave exactly the state
the function gives. Their `Valid()` says that the stored state is one that some sequence of calls leads
to; constructors establish it and every entry point keeps it, so the theorems over runs hold of the
objects, and the entry points state what they mean for a caller.

## Assumptions

- A panic or an error return discards every write of the call. The fuzz target asserts this
  (`fuzz/fuzz_targets/fuzz_proof_validation.rs:457-463`).
- Arithmetic overflow aborts (`overflow-checks = true`, `Cargo.toml:31`); widths are written out.
- Authorisation is the set of addresses that authorised the call. Whether the pause manager reports a
  pause is an input of the call, and so is the ledger clock, which may take any value.
- Nothing limits who may authorise. In particular the contract's own address may, which the audit module
  needs for changing the policy of a key it generated itself (`contracts/audit_module/src/lib.rs:193`,
  `:372`); without it nobody ever delegates (`OnlySelfStartsDelegation`), and the run of
  `SelfDelegationUnrevocable` uses it.
- The payout token is a balance map whose transfer aborts on insufficient funds or a negative amount
  (the SEP-41 interface). Anyone may move their own tokens between calls.
- The proof verifier, the commitment contract and the registry as seen by the executor are oracles:
  their answers are inputs, and the theorems hold for every answer.
- Stored role proposals, review expiry and the storage version check of the payroll contract are
  inputs of the calls that read them.
- `add_locked_funds` and `subtract_locked_funds` are reached only from prepare, finalize and cancel.
- A character of a wallet string is one byte. Words of 8 and 16 bits are strings of bits, most
  significant first, so that shifts, masks and exclusive-or are what the source writes.

## Where the code differs from its documentation

- Finalizing is documented as executing payments (`contracts/payroll/src/lib.rs:2285`); the code
  transfers nothing. `BalanceAccounted` accounts for every balance without it, and `PreparedPaysNobody`
  says that no call about a prepared run, its finalization included, changes a balance although its total
  stays on record.
- `nonce_to_u256` reads the first sixteen of the 32 bytes (`contracts/payroll/src/lib.rs:976-985`).
  Nonces accepted under one admin still increase as 256-bit numbers (`NoncesIncrease`), but a larger one
  is accepted exactly when its first sixteen bytes are new (`NonceAdvancesIff`); `LargerNonceRefused` is one
  that is not.
- A batch records nullifiers made of the payments' positions alone (`contracts/payroll/src/lib.rs:2569-2585`)
  and the commitment contract refuses a used one (`contracts/salary_commitment/src/lib.rs:434-451`), so at
  most one batch is ever executed against one commitment contract (`AtMostOneBatch`), the first exactly when
  `BatchGoesThroughIff` says.
- Terminal run states are documented as immutable (`contracts/payroll/src/lib.rs:1671`). One is final
  exactly when its run has been resolved (`TerminalFinalIff`; the last 64-bit id, which neither call
  accepts, is the exception). `TerminalRewrittenIff` gives the calls that leave it, and
  `CancelledThenFinalized` is such a run.
- The configuration lock does not cover the admin handover (`contracts/payroll/src/lib.rs:3205`):
  `AdminChangesIff` says exactly when the admin changes under a pending run, `AdminSincePreparation` what
  that makes of the lock, and `AdminChangesWhilePending` is such a run.
- Preparation reserves without looking at the balance (`contracts/payroll/src/lib.rs:2273`):
  `PrepareCoversIff` gives the exact condition under which reservations stay covered, and
  `OverCommitted` a run in which they are not.
- Delegation does not exclude cycles (`contracts/audit_module/src/lib.rs:413`): revocation terminates
  exactly when no cycle is reachable (`RevocationTerminatesIff`), whoever is on a cycle or reaches one can
  never be revoked again (`CycleUnrevocable`), and `SelfDelegationUnrevocable` is such a run.
- A payment is keyed by employee and period number without the company
  (`contracts/payment_executor/src/lib.rs:420`), so an employee of two companies is paid by only one of
  them for a given period number: `AlreadyPaidIff`, with `SecondCompanyRefused` as such a run.
- An admin who accepts a second company loses the first from the index
  (`contracts/payroll_registry/src/lib.rs:629-664`): `AcceptCompleteIff` and `EntryLost`.

## Model

| member | source | states |
|---|---|---|
| Base32.DecodeCharInverts | contracts/payroll_registry/src/lib.rs:373-379 | decoding a character and table 3 of RFC 4648 are inverse to each other |
| Base32.ShiftBuffer | contracts/payroll_registry/src/lib.rs:347-367 | one turn of the decoder's buffer: the waiting bits and the new five bits are the byte written, if any, and the bits still waiting; no bit is lost in 16 |
| Base32.DecodeStellarBase32 | contracts/payroll_registry/src/lib.rs:339-371 | the loop succeeds exactly on strings over the alphabet and then has written the octets of their concatenated five-bit groups |
| Base32.DecodeOfEncode | contracts/payroll_registry/src/lib.rs:339-379 | decoding what the RFC 4648 encoder writes gives the bytes back |
| Base32.EncodeOfDecode | contracts/payroll_registry/src/lib.rs:339-379 | encoding what the decoder reads gives the string back |
| Base32.AlphabetIs | contracts/payroll_registry/src/lib.rs:373-379 | the 32 characters in order, written out |
| Base32.DecodeKeepsNumber | contracts/payroll_registry/src/lib.rs:339-371 | the number the string writes in base 32 is the number the bytes write in base 256 |
| Crc16.AddByte | contracts/payroll_registry/src/lib.rs:384-391 | exclusive-or at the top and eight turns of the inner loop are the same as feeding the byte's bits one by one |
| Crc16.InnerLoop | contracts/payroll_registry/src/lib.rs:385-391 | the inner loop, run any number of times, is that many turns of the register |
| Crc16.Crc16Xmodem | contracts/payroll_registry/src/lib.rs:381-394 | the nested loops compute the bit-serial checksum of all bytes |
| Crc16.CrcIsRemainder | contracts/payroll_registry/src/lib.rs:381-394 | a 16-bit word is the checksum exactly when message times x^16 plus it is q times x^16 + x^12 + x^5 + 1 over GF(2) for some q: the remainder, and the only one |
| Crc16.GeneratorIs | contracts/payroll_registry/src/lib.rs:388 | the generator's coefficients are those of x^16, x^12, x^5 and 1 |
| Crc16.FeedLinear | contracts/payroll_registry/src/lib.rs:381-394 | the checksum loop is linear over exclusive-or for inputs of one length |
| Crc16.RoundBijective | contracts/payroll_registry/src/lib.rs:385-391 | one turn of the inner loop is a bijection on 16-bit words |
| Crc16.FeedClears | contracts/payroll_registry/src/lib.rs:381-394 | at most sixteen bits clear the register exactly when the register holds those bits at its top |
| Crc16.WindowDetected | contracts/payroll_registry/src/lib.rs:381-394 | no nonzero error confined to sixteen neighbouring bits, wherever they are, goes unnoticed |
| Crc16.NeighbouringBytesDetermined | contracts/payroll_registry/src/lib.rs:381-394 | two payloads of one length that differ only within two neighbouring bytes have different checksums |
| Crc16.GappedBurstDetected | contracts/payroll_registry/src/lib.rs:381-394 | an eighteen-bit error with a gap where the generator has none is noticed as well |
| CrcDistance.OddNoticed | contracts/payroll_registry/src/lib.rs:381-394 | every error of an odd number of bits is noticed, at any length |
| CrcDistance.PairNoticed | contracts/payroll_registry/src/lib.rs:381-394 | every error of two bits within 282 is noticed: the register does not return to the top bit alone in 280 turns |
| CrcDistance.LightNoticed | contracts/payroll_registry/src/lib.rs:381-394 | so is every error of one, two or three bits |
| Wallet.EmployeeWalletFormatIsValid | contracts/payroll_registry/src/lib.rs:317-337 | the validator accepts exactly the account strkeys of SEP-0023, over all strings |
| Wallet.AcceptedInNumbers | contracts/payroll_registry/src/lib.rs:317-337 | a string is accepted exactly when it is 56 characters of the alphabet whose first byte is 48 and whose last two bytes, low byte first, are the checksum of the first 33 |
| Wallet.SecondCharacter | contracts/payroll_registry/src/lib.rs:330-332 | the second character of an accepted wallet is one of A to D |
| Wallet.AcceptedPassesCliCheck | cli/src/main.rs:252-277 | every accepted wallet has 56 characters, starts with G and passes the command line check |
| Wallet.DifferenceClears | contracts/payroll_registry/src/lib.rs:317-337 | the difference of two accepted wallets is itself a codeword |
| Wallet.ConfinedErrorDetected | contracts/payroll_registry/src/lib.rs:317-394 | an error confined to two neighbouring characters is noticed in the payload, across the seam of payload and checksum, and in the byte-swapped checksum |
| Wallet.NeighboursDetermined | contracts/payroll_registry/src/lib.rs:317-394 | accepted wallets that agree but for two neighbouring characters are equal |
| Wallet.SubstitutionRejected | contracts/payroll_registry/src/lib.rs:317-394 | changing any one character of an accepted wallet to any other gives a rejected string |
| Wallet.TranspositionRejected | contracts/payroll_registry/src/lib.rs:317-394 | swapping two different neighbouring characters gives a rejected string |
| Wallet.MinimumDistance | contracts/payroll_registry/src/lib.rs:317-394 | two different accepted wallets differ in at least four of their 280 bits |
| Token.PayAllFunded | contracts/payroll/src/lib.rs:2550-2593 | a series of transfers whose total is covered never fails on the way, pays each account what it receives and conserves the supply |
| Token.PayAllIff | contracts/payroll/src/lib.rs:2561-2593 | a series of transfers succeeds exactly when, on the starting balance, the payer can afford each payment in its turn, counting what came back to it |
| Token.AffordableTotal | contracts/payroll/src/lib.rs:2550-2556 | for a payer that is none of the payees that is to cover the total |
| Token.ReceivedDistinct | contracts/payroll/src/lib.rs:885-895 | with distinct payees each receives exactly its own amount, others nothing |
| PayrollPreservation.StepKeeps | contracts/payroll/src/lib.rs:2166-2615 | every call of every modelled entry point keeps the invariant: records partition the ids, counter, reservation, nonce index, sequences, asset list and states agree |
| PayrollPreservation.ReachableKeeps | contracts/payroll/src/lib.rs:2166-2615 | so the invariant holds in every reachable ledger |
| PayrollRuns.ReservationExact | contracts/payroll/src/lib.rs:3265-3298 | in every reachable ledger the reserved amount is the sum of the pending totals and the pending counter their number; nothing is reserved in other assets |
| PayrollRuns.ResolveAcceptedExactly | contracts/payroll/src/lib.rs:2298-2436 | finalizing and cancelling are accepted exactly for pending runs; the already-executed guard, the subtraction and `saturating_sub` never interfere |
| PayrollRuns.IdsPartitioned | contracts/payroll/src/lib.rs:1528-1539 | each id from 1 to the counter is in exactly one of pending, executed and cancelled, and no other id in any |
| PayrollRuns.ResolvedForever | contracts/payroll/src/lib.rs:2311-2421 | after any further calls a resolved run is still resolved and can be neither finalized nor cancelled |
| PayrollRuns.RunLocked | contracts/payroll/src/lib.rs:794-800 | a run pending now and later was pending after every call between; its record, the token, treasury, owner, allowlist, asset list and company state did not change |
| PayrollRuns.FrozenSincePreparation | contracts/payroll/src/lib.rs:2166-2278 | from preparation to resolution those settings keep the values they had before it, the company is active and the token allowed |
| PayrollRuns.AdminChangesIff | contracts/payroll/src/lib.rs:3205-3233 | while a run is pending the admin changes exactly by an unpaused, proposed and authorised handover, to its caller |
| PayrollRuns.AdminSincePreparation | contracts/payroll/src/lib.rs:3205-3233 | from preparation to resolution the admin is the caller of the last handover; with no handover to another address it is frozen too |
| PayrollRuns.SupportedAssetsExact | contracts/payroll/src/lib.rs:1413-1470 | after any calls the asset list has no duplicate and names exactly the allowed assets, stored or not |
| PayrollNonces.HistoryKept | contracts/payroll/src/lib.rs:913-985 | the index numbers the accepted nonces in order, and each employer's sequence counts its own acceptances, with increasing prefixes |
| PayrollNonces.IndexIsHistory | contracts/payroll/src/lib.rs:2191-2248 | the nonce index is exactly the acceptance history numbered from one, its length is the run counter and the sum of all sequences |
| PayrollNonces.IndexInjective | contracts/payroll/src/lib.rs:2242-2262 | the index is injective onto 1 to the counter and sends the nonce in every pending and executed run to that run's id |
| PayrollNonces.NoncesIncrease | contracts/payroll/src/lib.rs:913-985 | nonces accepted under one admin strictly increase as 256-bit big-endian numbers |
| PayrollNonces.NonceAdvancesIff | contracts/payroll/src/lib.rs:913-985 | a nonce is accepted after the last one exactly when it is larger as a 256-bit number and its first sixteen bytes differ |
| PayrollNonces.NonceNeverReused | contracts/payroll/src/lib.rs:2191-2195 | an accepted nonce is refused by preparation and by execution ever after, also once its run is cancelled |
| PayrollRecords.TermsPermanent | contracts/payroll/src/lib.rs:2298-2436 | through pending, finalized or cancelled, the id, total, head count and draft of a run stay what they were |
| PayrollRecords.BatchTermsPermanent | contracts/payroll/src/lib.rs:2250-2262 | a prepared or executed batch is recorded under the next id with its own total, head count and draft, for ever |
| PayrollStates.ResolvedWalks | contracts/payroll/src/lib.rs:1541-1586 | once a run is resolved, its state after any calls is reached by a walk along the transition table |
| PayrollStates.TerminalFinal | contracts/payroll/src/lib.rs:1588-1593 | Completed and Cancelled are final for resolved runs, and a cancelled run is Cancelled |
| PayrollStates.ReconciledFinal | contracts/payroll/src/lib.rs:2742-2800 | an executed run marked Reconciled is Completed and stays both for ever |
| PayrollStates.TerminalRewrittenIff | contracts/payroll/src/lib.rs:2298-2436 | a terminal state is left exactly by the admin's finalization of the pending run while not paused and not expired, or from Completed by the admin's cancellation with a reason |
| PayrollStates.TerminalFinalIff | contracts/payroll/src/lib.rs:1588-1593 | a terminal state survives all further calls exactly when its run is resolved or bears the last 64-bit id |
| PayrollTreasury.AcceptedBatchPays | contracts/payroll/src/lib.rs:2550-2593 | a batch succeeds exactly when its checks pass: no transfer in the loop can fail |
| PayrollTreasury.BatchPays | contracts/payroll/src/lib.rs:2443-2615 | a successful batch pays distinct employees exactly their amounts, lowers the treasury by the declared total, touches no one else and conserves the supply |
| PayrollTreasury.TreasuryAfterBatch | contracts/payroll/src/lib.rs:2443-2615 | when the treasury is itself an employee its own amount comes back |
| PayrollTreasury.RunConserves | contracts/payroll/src/lib.rs:2443-2615 | no sequence of calls creates or destroys a token |
| PayrollTreasury.DepositNeverReplayed | contracts/payroll/src/lib.rs:1472-1514 | a deposit credits the treasury by its amount, and its id is refused ever after |
| PayrollTreasury.ApprovalCovers | contracts/payroll/src/lib.rs:2084-2114 | an approved emergency withdrawal leaves the treasury at least the sum of all pending totals |
| PayrollTreasury.RunCovered | contracts/payroll/src/lib.rs:2298-2436 | any run of deposits, emergencies, finalizations, cancellations and settings keeps covered reservations covered |
| PayrollTreasury.PrepareCoversIff | contracts/payroll/src/lib.rs:2273 | preparation keeps reservations covered exactly when the treasury could also pay the new run |
| PayrollTreasury.ExecuteCoversIff | contracts/payroll/src/lib.rs:2550-2556 | a batch keeps them covered exactly when it leaves enough |
| PayrollTreasury.TokenMoveCoversIff | contracts/payroll/src/lib.rs:3273-3282 | moving treasury tokens outside the contract keeps them covered exactly when it leaves enough |
| PayrollEmergency.RequestIff | contracts/payroll/src/lib.rs:2038-2066 | a request is accepted exactly from the authorised owner while unpaused, none pending, for at least 1 and at most what the treasury holds beyond the pending totals |
| PayrollEmergency.ApproveIff | contracts/payroll/src/lib.rs:2084-2106 | an approval is accepted exactly from the authorised admin, with the treasury's authorisation, while unpaused, for a request still within what is spare |
| PayrollEmergency.WithdrawalPaysRecipient | contracts/payroll/src/lib.rs:2068-2111 | whatever happens between, short of ending the request, the approval pays exactly the amount requested to exactly the recipient named in the request, out of the treasury, and nobody else |
| PayrollEmergency.CancelRequestIff | contracts/payroll/src/lib.rs:2120-2146 | a request is cancelled exactly by the authorised admin or owner while unpaused |
| PayrollAcceptance.PrepareIff | contracts/payroll/src/lib.rs:2166-2273 | the exact conditions for preparing: admin, active company, 1 to 50 payments of matching lengths, distinct employees, positive amounts adding up, unused and advancing nonce, committed draft, allowed token, room in counter and reservation; neither funds nor an unpaused system |
| PayrollAcceptance.PrepareLeaves | contracts/payroll/src/lib.rs:2242-2273 | the pending record, state, nonce entry and sequence a preparation writes |
| PayrollAcceptance.ExecuteIff | contracts/payroll/src/lib.rs:2443-2590 | the exact conditions for executing: those of a batch, unpaused, nonzero digests, treasury authorised and funded, every payment's oracles passing |
| PayrollAcceptance.ExecuteLeaves | contracts/payroll/src/lib.rs:2479-2610 | the executed record an execution writes, and that exactly its draft is consumed |
| PayrollAcceptance.FinalizeIff | contracts/payroll/src/lib.rs:2298-2327 | finalizing is accepted exactly from the authorised admin, for a pending run, unpaused and not expired |
| PayrollAcceptance.FinalizeLeaves | contracts/payroll/src/lib.rs:2329-2356 | the executed record and state it writes |
| PayrollAcceptance.CancelIff | contracts/payroll/src/lib.rs:2374-2402 | cancelling is accepted exactly from the authorised admin, for a pending run, with a reason, paused or not |
| PayrollAcceptance.CancelLeaves | contracts/payroll/src/lib.rs:2404-2422 | the cancellation record and state it writes |
| PayrollAcceptance.TableIs | contracts/payroll/src/lib.rs:1541-1586 | the transition table listed by target state |
| PayrollAcceptance.TransitionIff | contracts/payroll/src/lib.rs:1892-1915 | a manual transition succeeds exactly for the unpaused admin, a known run and a listed move, and changes only that state |
| PayrollAcceptance.ReconcileIff | contracts/payroll/src/lib.rs:2742-2790 | the exact states from which each reconciliation status is accepted |
| PayrollAcceptance.ReconcileLeaves | contracts/payroll/src/lib.rs:2777-2791 | Reconciled completes the run, Unreconciled leaves it to be reconciled, Failed fails it, with that status on record |
| PayrollAcceptance.FreshRunReconciles | contracts/payroll/src/lib.rs:2742-2791 | a run just finalized or executed can be given any of the three statuses |
| PayrollAcceptance.CommitIff | contracts/payroll/src/lib.rs:2003-2026 | a nonzero digest is committed exactly by the unpaused admin, once |
| PayrollAcceptance.MetadataIff | contracts/payroll/src/lib.rs:1958-2000 | metadata is attached exactly to an executed run from a committed digest, which is consumed |
| PayrollAcceptance.InitializeOnce | contracts/payroll/src/lib.rs:689-717 | initialization stores roles and allows the token, and is refused after any further calls |
| PayrollAcceptance.StaysInitialized | contracts/payroll/src/lib.rs:689-717 | token and treasury address never change |
| PayrollAcceptance.SetAssetIff | contracts/payroll/src/lib.rs:1413-1420 | the allowlist changes exactly by the authorised admin while no run is pending |
| PayrollAcceptance.SetCompanyIff | contracts/payroll/src/lib.rs:3421-3432 | so does the company state |
| PayrollAcceptance.RolesPassIff | contracts/payroll/src/lib.rs:3002-3233 | roles pass exactly to the proposed, authorised caller while unpaused; rotations also need that nothing is pending |
| PayrollAcceptance.DepositIff | contracts/payroll/src/lib.rs:1472-1501 | a deposit is accepted exactly with depositor and owner authorised, a fresh nonzero id and the funds |
| PayrollAcceptance.DepositLeaves | contracts/payroll/src/lib.rs:1501 | it moves the amount from the depositor to the treasury and nothing else |
| PayrollFlows.BalanceAccounted | contracts/payroll/src/lib.rs:2298-2615 | after any run each balance is its start plus what executed batches, deposits, approved withdrawals and outside moves gave it; preparing, finalizing and cancelling pay nothing |
| PayrollFlows.PreparedPaysNobody | contracts/payroll/src/lib.rs:2298-2365 | neither preparing a run nor any later call about it, finalizing and cancelling included, changes anyone's balance, while its total stays on record |
| PayrollFlows.ExecutedPaysOnce | contracts/payroll/src/lib.rs:2443-2615 | executing a batch changes the balances by exactly its amounts and total, and no later call about it changes any |
| PayrollWitnesses.OverCommitted | contracts/payroll/src/lib.rs:2273 | a reachable ledger whose treasury does not cover its reservations |
| PayrollWitnesses.AdminChangesWhilePending | contracts/payroll/src/lib.rs:3205-3233 | in a reachable ledger with a pending run, accepting a handover succeeds and replaces the admin |
| PayrollWitnesses.CancelledThenFinalized | contracts/payroll/src/lib.rs:2298-2365 | a reachable run in state Cancelled that finalization accepts |
| PayrollWitnesses.LargerNonceRefused | contracts/payroll/src/lib.rs:976-985 | in a reachable ledger a nonce larger as a 256-bit number is refused |
| PayrollNullifiers.RecordAllIff | contracts/salary_commitment/src/lib.rs:434-451 | recording the nullifiers of the first n positions succeeds exactly when none is used, and then adds exactly those |
| PayrollNullifiers.BatchGoesThroughIff | contracts/payroll/src/lib.rs:2561-2593 | with the commitment contract a batch goes through exactly when its checks pass and its positions are unused |
| PayrollNullifiers.SecondBatchRefused | contracts/payroll/src/lib.rs:2569-2585 | after one executed batch every other is refused, whatever happens in between |
| PayrollNullifiers.AtMostOneBatch | contracts/payroll/src/lib.rs:2569-2585 | no run of calls executes more than one batch against one commitment contract |
| PayrollContract.NoDuplicates | contracts/payroll/src/lib.rs:885-895 | the pairwise scan accepts exactly the lists without duplicates |
| PayrollContract.SumAmounts | contracts/payroll/src/lib.rs:2211-2218 | the accumulating loop fails exactly on an amount that is not positive or a total beyond 128 bits, and otherwise returns the total |
| PayrollContract.NonceToU256 | contracts/payroll/src/lib.rs:976-985 | the sixteen shifts give the big-endian value of the first sixteen bytes; none loses a bit |
| PayrollContract.FindAsset | contracts/payroll/src/lib.rs:1435-1443 | the scan returns the first index of the asset, or the length |
| PayrollContract.Relist | contracts/payroll/src/lib.rs:1435-1443 | from a list without duplicates, one without duplicates that differs exactly in the asset |
| PayrollContract.Payroll.ValidateNonceMonotonicity | contracts/payroll/src/lib.rs:913-940 | accepts exactly the nonces that advance the employer's sequence |
| PayrollContract.Payroll.ValidateBatch | contracts/payroll/src/lib.rs:2175-2240 | the checks before the first write accept exactly the acceptable batches |
| PayrollContract.Payroll.ConsumeNonce | contracts/payroll/src/lib.rs:2242-2248 | counter, index and sequence advance together |
| PayrollContract.Payroll.PreparePayrollRun | contracts/payroll/src/lib.rs:2166-2278 | reserves exactly the batch total under the next id with the batch's terms, moves no token, and leaves a reachable ledger; otherwise changes nothing |
| PayrollContract.Payroll.FinalizePayrollRun | contracts/payroll/src/lib.rs:2298-2365 | accepted exactly for the admin's pending runs; lowers reservation and count by exactly that run, moves no token, keeps the run's terms, and leaves a reachable ledger |
| PayrollContract.Payroll.CancelPayrollRun | contracts/payroll/src/lib.rs:2374-2436 | the same with a reason, paused or not; the run is then on record as cancelled |
| PayrollContract.Payroll.PayEmployees | contracts/payroll/src/lib.rs:2561-2593 | the verify-and-transfer loop is the series of transfers, if every payment passes its oracles |
| PayrollContract.Payroll.BatchProcessPayroll | contracts/payroll/src/lib.rs:2443-2615 | succeeds exactly when its checks pass, and then every employee has its amount, the treasury lost the total and the supply is kept; a failure in mid-loop is undone |
| PayrollContract.Payroll.SetAsset | contracts/payroll/src/lib.rs:1413-1446 | afterwards the asset list names exactly the allowed assets, each once |
| PayrollContract.Payroll.UpdateReconciliationStatus | contracts/payroll/src/lib.rs:2742-2800 | accepted exactly from the listed states, leaving that status on record; a run marked Reconciled is Completed and Reconciled after any further calls; a refused transition undoes the record already rewritten |
| PayrollContract.Payroll.ApproveEmergencyWithdrawal | contracts/payroll/src/lib.rs:2084-2114 | accepted exactly under the listed conditions; pays the stored request to its recipient out of the treasury and nobody else, what is left covers every reservation; a failed transfer undoes the request already cleared |
| Checkpoints.RunAgrees | contracts/payroll/src/lib.rs:1681-1884 | in every run a record names its own key, and `completed` and `failed` hold exactly in the matching states |
| Checkpoints.RunLater | contracts/payroll/src/lib.rs:1735-1884 | records never disappear, indices and totals never decrease, and completed or failed records never change |
| Checkpoints.ResumesBounded | contracts/payroll/src/lib.rs:1821-1884 | the total counts the progress records, and resumes never exceed it since a progress record separates two resumes |
| Checkpoints.LatestRecorded | contracts/payroll/src/lib.rs:1681-1884 | in every run a record exists exactly when a call about its key succeeded, and holds the index and state the latest one asked for |
| Checkpoints.ProgressIff | contracts/payroll/src/lib.rs:1735-1791 | the exact records, indices and states for which progress is accepted |
| Checkpoints.ResumeIff | contracts/payroll/src/lib.rs:1821-1870 | the exact records and indices for which a resume is accepted |
| Checkpoints.CheckpointStore.BeginBatchExecution | contracts/payroll/src/lib.rs:1681-1732 | succeeds exactly for a new, nonzero key and starts its record at the given index; after any further calls the key is refused |
| Checkpoints.CheckpointStore.RecordProgress | contracts/payroll/src/lib.rs:1735-1805 | index and total never go back; a record completed or failed is the same after any further calls |
| Checkpoints.CheckpointStore.ResumeBatchExecution | contracts/payroll/src/lib.rs:1821-1884 | a resumed record cannot be resumed again before the next progress, and its total stays |
| CompanyIndex.RunSound | contracts/payroll_registry/src/lib.rs:399-434 | in every run each index entry names a company whose admin is that address, so no two addresses name one company |
| CompanyIndex.AcceptCompleteIff | contracts/payroll_registry/src/lib.rs:629-664 | accepting a role keeps every company indexed exactly when the new admin runs no other company |
| CompanyIndex.RunExact | contracts/payroll_registry/src/lib.rs:399-664 | in runs without such an acceptance the index is the exact inverse of the company table |
| CompanyIndex.EntryLost | contracts/payroll_registry/src/lib.rs:629-664 | a reachable registry in which an acceptance drops a company from the index |
| CompanyIndex.RegistryContract.RegisterCompany | contracts/payroll_registry/src/lib.rs:399-434 | adds exactly the company asked for under a fresh number; with a complete index it is refused exactly to those who run a company, and the index stays complete |
| CompanyIndex.RegistryContract.ProposeAdminRotation | contracts/payroll_registry/src/lib.rs:593-627 | accepted exactly from the company's authorised admin, with none pending; after it exactly the proposed holder can accept |
| CompanyIndex.RegistryContract.AcceptAdminRotation | contracts/payroll_registry/src/lib.rs:629-664 | the holder is admin and indexed; a complete index stays complete exactly when the holder runs no other company |
| CompanyIndex.RegistryContract.CancelAdminRotation | contracts/payroll_registry/src/lib.rs:666-689 | after it nobody can accept; companies and index are untouched |
| PaymentInvariant.StepKeeps | contracts/payment_executor/src/lib.rs:263-573 | every call keeps the invariant below |
| PaymentInvariant.RunKeeps | contracts/payment_executor/src/lib.rs:263-573 | in every run a company's periods are 1 up to the next id with all but the newest closed, each payment count is the number of its records, every payment is at most 604800 seconds after its period's creation, and nullifiers and payments correspond one to one |
| PaymentInvariant.ClosedForever | contracts/payment_executor/src/lib.rs:316-350 | a closed period never changes again |
| PaymentInvariant.TotalsExact | contracts/payment_executor/src/lib.rs:511-517 | a company's total paid is the sum of the amounts of all its executed payments |
| PaymentInvariant.TotalsTyped | contracts/payment_executor/src/lib.rs:511-517 | no total is negative or exceeds 128 bits |
| PaymentInvariant.RunExtends | contracts/payment_executor/src/lib.rs:485-517 | payment records and nullifiers are permanent, and every run conserves the token supply |
| PaymentReuse.AlreadyPaidIff | contracts/payment_executor/src/lib.rs:419-423 | a request fails as already paid exactly when its period is open and fresh, its nullifier unused, and any company has paid the employee for that period number |
| PaymentReuse.NeverPaidTwice | contracts/payment_executor/src/lib.rs:413-423 | a spent nullifier, or an employee already paid for that period number, is refused ever after |
| PaymentReuse.BatchNeverPaysTwice | contracts/payment_executor/src/lib.rs:529-573 | so is every batch that contains such a payment |
| PaymentReuse.SecondCompanyRefused | contracts/payment_executor/src/lib.rs:419-423 | reachable books in which either of two companies could pay an employee, and the second is refused once the first has |
| PaymentAcceptance.PayIff | contracts/payment_executor/src/lib.rs:363-517 | a payment is made exactly when the period is open and at most 604800 seconds old, nullifier and key are unused, both parties have authorised, the proof is good, token, decimals and amount are in order, the treasury has the amount and the counters have room |
| PaymentAcceptance.PayFaults | contracts/payment_executor/src/lib.rs:393-417 | the exact condition of each fault about the period and reuse |
| PaymentAcceptance.DecimalsFaults | contracts/payment_executor/src/lib.rs:470-483 | the exact condition of each fault about decimals, with the least amounts for 10 to 18 decimals written out |
| PaymentAcceptance.PayLeaves | contracts/payment_executor/src/lib.rs:486-517 | the record, nullifier, count and balances a payment leaves |
| PaymentAcceptance.DecimalsBounded | contracts/payment_executor/src/lib.rs:218-236 | no run configures more than eighteen decimals |
| PaymentAcceptance.BatchShape | contracts/payment_executor/src/lib.rs:541-553 | vectors of different lengths and an empty batch are refused as such |
| PaymentAcceptance.CreateLeaves | contracts/payment_executor/src/lib.rs:271-308 | the period a creation writes |
| PaymentAcceptance.CloseLeaves | contracts/payment_executor/src/lib.rs:339-345 | closing sets the end ledger and the flag, and nothing else |
| PaymentAcceptance.CloseFaults | contracts/payment_executor/src/lib.rs:329-341 | the exact condition of each fault of closing |
| PaymentBatch.BatchSucceedsIff | contracts/payment_executor/src/lib.rs:529-573 | the batch loop succeeds exactly when conditions on the books before it hold: period open and fresh, employees and nullifiers distinct and unused, terms met, each payment affordable in its turn on the starting balance, counters in range |
| PaymentBatch.FundedTotal | contracts/payment_executor/src/lib.rs:486-487 | for a treasury not on its own payroll the funding condition is to hold the batch total |
| PaymentBatch.BatchLeaves | contracts/payment_executor/src/lib.rs:485-573 | and then it leaves exactly the closed form: one record per employee, all nullifiers spent, count and total raised by the batch, the series of transfers made |
| PaymentBatch.BatchDistinct | contracts/payment_executor/src/lib.rs:413-424 | a successful batch has pairwise distinct employees and nullifiers, none used before, though nothing checks for duplicates |
| PaymentExecutor.Executor.OpenPeriod | contracts/payment_executor/src/lib.rs:263-313 | succeeds exactly when all the company's periods are closed (and authorised, and ids left); the new period is then its only open one |
| PaymentExecutor.Executor.EndPeriod | contracts/payment_executor/src/lib.rs:316-350 | closes the newest, the company's one open period; all are then closed and this one is the same after any further calls |
| PaymentExecutor.Executor.ExecutePayment | contracts/payment_executor/src/lib.rs:363-525 | accepted exactly under the listed conditions; a payment made is refused after any further calls and conserves the supply; a late fault undoes the writes already made |
| PaymentExecutor.Executor.ExecuteBatch | contracts/payment_executor/src/lib.rs:529-573 | the loop of mutating payments is the fold of single payments, with the same final books, records and fault; any failure undoes all of it |
| AuditRevocation.RevokeRemoves | contracts/audit_module/src/lib.rs:254-276 | a successful revocation removes the keys and lists of exactly the auditor and everyone reachable from it, and leaves all others as they were |
| AuditRevocation.RevocationTerminatesIff | contracts/audit_module/src/lib.rs:885-902 | the recursion terminates, within a call depth above the number of lists, exactly when no cycle is reachable; otherwise at no depth |
| AuditRevocation.RunKeepsParents | contracts/audit_module/src/lib.rs:413-460 | in every run each key that names a parent is in that parent's list |
| AuditRevocation.NoChainThroughRevoked | contracts/audit_module/src/lib.rs:254-276 | after a revocation no surviving parent chain passes through the revoked auditor or anyone below it |
| AuditRevocation.RevokedStayOut | contracts/audit_module/src/lib.rs:217-276 | those revoked have no access until someone grants them a key anew |
| AuditAcceptance.WithinIs | contracts/audit_module/src/lib.rs:904-912 | the order of the four scopes, written out |
| AuditAcceptance.AccessIff | contracts/audit_module/src/lib.rs:217-252 | an auditor has access exactly with an unexpired key that, if delegated, fits within its parent's scope and expiries |
| AuditAcceptance.DelegateIff | contracts/audit_module/src/lib.rs:413-432 | a delegation is accepted exactly from an auditor who has access and may delegate, no wider and no longer than its own key allows |
| AuditAcceptance.DelegateGives | contracts/audit_module/src/lib.rs:434-457 | the delegate's key has exactly the scope, maximum scope, expiry, granter and parent asked for, and no other key changes |
| AuditAcceptance.DelegatePassesOn | contracts/audit_module/src/lib.rs:413-457 | a delegate passes on exactly scopes no wider than the one it was given, for no longer than it was given |
| AuditAcceptance.ExtendIff | contracts/audit_module/src/lib.rs:472-511 | the exact conditions for extending a delegation |
| AuditAcceptance.RefreshIff | contracts/audit_module/src/lib.rs:312-350 | a key is refreshed exactly by its granter to a later expiry, and only key material and expiry change |
| AuditAcceptance.PolicyIff | contracts/audit_module/src/lib.rs:363-393 | a policy is set exactly by the granter, and only the policy changes |
| AuditAcceptance.RevokeIff | contracts/audit_module/src/lib.rs:254-276 | with enough call depth a revocation succeeds exactly for the granter and without a reachable cycle |
| AuditAcceptance.AuthoriseFaults | contracts/audit_module/src/lib.rs:601-636 | the exact condition of each fault of an auditor who may not act |
| AuditRevocation.DelegateHasAccessIff | contracts/audit_module/src/lib.rs:217-252 | what a delegation may grant is what access checks accept: the delegate has access exactly until its key expires |
| AuditRevocation.ExtendedHasAccessIff | contracts/audit_module/src/lib.rs:472-523 | after an accepted extension the delegate has access exactly until the new expiry |
| AuditRevocation.DelegationAcyclicIff | contracts/audit_module/src/lib.rs:413-460 | a delegation keeps the graph acyclic exactly when the delegate does not already reach the auditor |
| AuditRevocation.RunAcyclic | contracts/audit_module/src/lib.rs:413-460 | runs without such delegations stay acyclic |
| AuditRevocation.CarefulRevocationTerminates | contracts/audit_module/src/lib.rs:885-902 | so in them every revocation terminates |
| AuditRevocation.OnlySelfStartsDelegation | contracts/audit_module/src/lib.rs:191-215 | unless the contract's own address authorises a call, no run ever has a delegate, a parent or a key that may delegate |
| AuditRevocation.CycleUnrevocable | contracts/audit_module/src/lib.rs:885-902 | whoever is on a cycle of delegations, or reaches one, can never be revoked again, whatever is called in between |
| AuditRevocation.SelfDelegationUnrevocable | contracts/audit_module/src/lib.rs:413-460 | a reachable self-delegation that after any further calls no revocation removes, whoever asks and whatever the depth |
| AuditContract.AuditModule.RevokeDescendants | contracts/audit_module/src/lib.rs:885-902 | the loop that recurses while it removes keys and lists computes `Descend` |
| AuditContract.AuditModule.RevokeViewKey | contracts/audit_module/src/lib.rs:254-276 | on success nobody reachable from the auditor has access and no surviving key names one as parent; an exhausted call depth undoes the partial removal |
| AuditContract.AuditModule.DelegateViewKey | contracts/audit_module/src/lib.rs:413-460 | the delegate's key has exactly the scope and expiry asked for and access until then, no other key changes, every key stays in its parent's list, and an acyclic graph stays so unless the delegate already reaches the auditor |
| AuditContract.AuditModule.ExtendDelegatedAccess | contracts/audit_module/src/lib.rs:472-523 | the delegate has access exactly until the new expiry, which is later than the old one; no list changes |

## Left out

- Groth16 verification, SHA-256, Poseidon and key derivation: their results are inputs of the calls.
- Events, error messages, the command line database, RPC and scripts: input and output only.
- The pause manager: one boolean input.
- Payroll entry points with a single write (initialization, role acceptance, company state, drafts,
  metadata, deposits, requesting and cancelling an emergency withdrawal, manual state transitions) are
  functions of `PayrollLedger` covered by every theorem over runs, without a method of their own.
- The payroll contract's storage is one record-valued field of `Payroll`, as the source has one storage
  object; aliasing between contracts is not modelled.
- The per-depositor balance that deposits keep, and the abort when it would overflow
  (`contracts/payroll/src/lib.rs:1505-1507`): the model's deposits then succeed.
- Drafts and their amendment, reviews, compliance holds, archival markers, evidence pointers, quorum
  payloads, batch splits and reservation expiry: separate records that none of the modelled entry points
  read, apart from the inputs listed above.
- Generating a key, refreshing it and setting its delegation policy are functions of `AuditDelegation`
  covered by every theorem over runs, without a method of their own.
- Treasury rotation, employees and approval thresholds of the registry: they do not touch the index.
- The executor's configuration calls are one call that sets whether it is initialized, whether its token
  is allowed and the token's decimals; who may make it is not modelled.
- `amount_to_public_input`: its result is read only by the proof verifier.
- Audit logs, commitment checks and metadata exports of the audit module: they read keys only.
- PaymentBatch.BatchSucceedsIff: the registry gives one answer for the whole batch, because the batch is
  one transaction and nothing in it writes the registry; the stored total is a 128-bit value, as
  `TotalsTyped` shows of every reachable one.
