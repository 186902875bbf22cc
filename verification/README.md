# The on-chain card registry, modelled and proved

This project models the registry contracts of the membership-card protocol and the text layer that
feeds them, and proves what they guarantee over whole runs.

**The contracts.** A permanent *storage contract* holds cards, sub-cards, press authorizations,
offers, governance keysets, nonces, domains and the policy-address table. It accepts writes from one
address only, the current *logic contract*, and keeps a few facts permanent whatever that contract
does. Logic-contract *instances* can be replaced. Each runs thirty write operations behind two gates:
the press write gate (policy, active press, signature, op, sequence) and the governance quorum
(version, fresh nonce, distinct signers, quorum). The logic contract itself and each instance's
verifier module are replaced through timelocked propose, confirm and cancel operations.

**The text layer.** Both gates read their fields out of signed JSON with a scanner that is not a JSON
parser. The payloads come from canonical printers in TypeScript (RFC 8785) and from a command-line
builder in Rust.

## How it is built

| file | contents |
|---|---|
| `Wrappers`, `ProtocolTypes` | results, constants, revert reasons, the uninterpreted hash and signature check |
| `PayloadParser` | the field scanner: specification and loops |
| `FieldScan` | what the scanner finds, on every payload |
| `Storage`, `StorageCalls`, `StorageRuns` | the storage contract as a class, its calls as a function, what each demands and writes, and every run of calls |
| `Quorum` | the signature-counting loops and what acceptance means |
| `Registry` | the specification of every write operation: checks, gate, checks, effects, events |
| `LogicContract` | the instance as a class; every operation runs step by step and is proved to end as the specification says |
| `Signatures`, `Permissions`, `Outcomes`, `Refusals` | a second description of every operation, without the order of its checks: who must have signed what, which calls are accepted, what they change, and what each refusal says; proved to be exactly what `Registry` computes |
| `Worlds` | runs: deployments, calls to any instance, a clock, and the history of accepted calls |
| `Steps`, `Batches`, `Replay`, `HeadChains`, `SubCards`, `Conservation`, `Sequences`, `Governance`, `Upgrades`, `KeySchemes`, `Dns` | invariants of every run, and what follows |
| `Histories`, `PressKeys`, `DomainAdmins` | what stands behind each accepted call of a run: its votes, the authorization of its press, the registration of its domain |
| `PredecessorWalk` | the walk along forwards at a domain handoff |
| `Unicode`, `JsonText`, `KeySort`, `CanonicalJson`, `CanonicalBytes`, `PressSerialization` | the canonical printers, an inverse reader, and what the bytes determine |
| `Extraction`, `FlatObjects`, `PrintedObjects`, `Payloads`, `BuilderPayloads`, `CanonicalRequests` | printed objects read back by the field scanner; the builder's output is canonical |
| `Timestamps` | the calendar conversion of the builder |

An operation is computed by `Registry.Exec`, check by check in the order of the code. The class methods
in `LogicContract.dfy`, with their loops and storage writes, are proved equal to it, revert reasons
included, and `LogicContract.Transact` adds the chain's rollback. `Worlds.Step` applies it to a world
that holds any number of instances, so each invariant is proved over all interleavings of all callers
and instances: one lemma for a step that follows an arbitrary state satisfying the invariant, and one by
induction over the run. What the operations mean is said a second time, as plain conditions and plain
new values per operation (`Permissions.Allowed`, `Outcomes.Changes`, `Refusals.Reason`); that both
descriptions agree is `Permissions.AcceptedExactly`, `Outcomes.AcceptedChanges`,
`Outcomes.ChangesDecide` and `Refusals.RefusedForReason`.

Assumptions, all explicit: `keccak` and `verify` are arbitrary functions, and a lemma that needs a
collision-free hash says so; block timestamps are positive, do not decrease and stay 604800 below 2^64;
a run has fewer than 2^32 - 1 accepted calls. The last bound is what keeps the 32- and 64-bit counters
of the contracts from wrapping: their release profile checks no overflow, so the model wraps them.
Registry addresses and hashes are natural numbers, since the contracts only compare them.

## Where the code differs from what is said about it

- `deregistered_at` is called write-once (contracts/storage-contract/src/lib.rs:20 and :132). The setter
  only stops it from returning to zero; `StorageRuns.DeregisteredAtMovesExactly` says which calls move it.
  It is frozen when this code's logic contract makes the calls (`SubCards.DeadStaysDead`).
- The printers are said to sort keys by Unicode code point (wallet-service/src/canonicalize.ts:11).
  `Array.prototype.sort` compares UTF-16 code units, which is also what section 3.2.3 of RFC 8785 asks for.
  The two differ on U+10000 and U+E000 (`KeySort.UnitOrderIsNotPointOrder`); `KeySort.SortedByPointsExactly`
  says for which keys the printed order is the code-point order.
- The field scanner finds fields that are not there when the field name is one of the unquoted stretches
  between two strings, such as `,` or `:[`. `FlatObjects.ExactlyTheGapNames` says exactly which names; none
  of the seven names in use is one (`Payloads.NamesAreSafe`).
- `canonicalizeExcluding` promises to omit the specified keys. It also drops an own `__proto__` property,
  because assigning to that key creates none (`PressSerialization.OmitsExactlyTheExcluded`).
- `epoch_to_parts` counts years in 32 bits, and a 64-bit second can lie beyond them
  (`Timestamps.HorizonIsReached`). The documented `cargo run` builds with overflow checks, so it aborts
  there; a release build wraps and gives a wrong but valid date. `Timestamps.EpochToParts` covers both.
- The command-line builder escapes nothing, so a nonce or op with a bare quote or a lone backslash does not
  come back (`BuilderPayloads.BuilderPayloadComesBack`).
- `DeregisterDomain` is said to prevent new `SetPolicyAddress` submissions
  (specs/object_specs/registry_contract.md:1425). It zeroes the admin, and `set_policy_address` compares the
  admin it is given with the stored one, so a press of the DNS policy that names admin zero still passes
  (`DomainAdmins.DeregisteredStaysOpen` says exactly when, `DomainAdmins.PathWithoutAdmin` is a case).
- A domain registered anew is said not to inherit a clean fraud history
  (governance/DnsGovernanceBody/mandate.md:62); registration always writes normal risk and no suspension,
  as specs/object_specs/registry_contract.md:1416 asks (`DomainAdmins.RegistrationRights`).
- Domains are bounded in length but may hold NUL bytes, and then two (domain, path) pairs can share a
  table key (`Dns.PathTextCollisions`, `Dns.NulDomainsCollide`).

## Model

| member | source | states |
|---|---|---|
| `Storage.StorageContract.RequireLogicContract` | contracts/storage-contract/src/lib.rs:302-308 | only the current logic contract passes |
| `Storage.StorageContract.Initialize` | contracts/storage-contract/src/lib.rs:343-400 | one-time set-up: three 1-of-1 keysets and a non-zero logic address, or `InvalidAddress`; every other slot unchanged, and nothing changed on an error |
| `Storage.StorageContract.SetCardEntry` | contracts/storage-contract/src/lib.rs:558-587 | an existing card stays existing and keeps its forward; the CID bound; every other slot unchanged, and nothing changed on an error |
| `Storage.StorageContract.SetForwardTo` | contracts/storage-contract/src/lib.rs:595-610 | a forward is set once; every other slot unchanged, and nothing changed on an error |
| `Storage.StorageContract.UpdateCardHead` | contracts/storage-contract/src/lib.rs:618-635 | head and last press only; every other slot unchanged, and nothing changed on an error |
| `Storage.StorageContract.SetPressAuthEntry` | contracts/storage-contract/src/lib.rs:646-674 | the whole press entry; every other slot unchanged, and nothing changed on an error |
| `Storage.StorageContract.IncrementPressSequence` | contracts/storage-contract/src/lib.rs:680-700 | one more, in 64 bits; every other slot unchanged, and nothing changed on an error |
| `Storage.StorageContract.SetSubCardEntry` | contracts/storage-contract/src/lib.rs:708-745 | a non-zero deregistration time does not go back to zero; every other slot unchanged, and nothing changed on an error |
| `Storage.StorageContract.SetOpenOfferCount` | contracts/storage-contract/src/lib.rs:750-754 | the count; every other slot unchanged, and nothing changed on an error |
| `Storage.StorageContract.SetPolicyAuthorizerKey` | contracts/storage-contract/src/lib.rs:760-777 | 64-byte keys only; every other slot unchanged, and nothing changed on an error |
| `Storage.StorageContract.DeletePolicyAuthorizerKey` | contracts/storage-contract/src/lib.rs:787-800 | refused once deletes are disabled; every other slot unchanged, and nothing changed on an error |
| `Storage.StorageContract.SetGovernanceKeyset` | contracts/storage-contract/src/lib.rs:806-830 | key bytes and key count agree; every other slot unchanged, and nothing changed on an error |
| `Storage.StorageContract.MarkNonceUsed` | contracts/storage-contract/src/lib.rs:835-839 | the nonce is added; every other slot unchanged, and nothing changed on an error |
| `Storage.StorageContract.SetLogicContract` | contracts/storage-contract/src/lib.rs:848-856 | never address zero; every other slot unchanged, and nothing changed on an error |
| `Storage.StorageContract.SetPendingLogicUpgrade` | contracts/storage-contract/src/lib.rs:861-876 | the proposal; every other slot unchanged, and nothing changed on an error |
| `Storage.StorageContract.ClearPendingLogicUpgrade` | contracts/storage-contract/src/lib.rs:881-890 | nothing pending; every other slot unchanged, and nothing changed on an error |
| `Storage.StorageContract.SetKeySchemePhase` | contracts/storage-contract/src/lib.rs:895-899 | the phase; every other slot unchanged, and nothing changed on an error |
| `Storage.StorageContract.DisablePolicyDeletePermanently` | contracts/storage-contract/src/lib.rs:908-915 | one way; every other slot unchanged, and nothing changed on an error |
| `Storage.StorageContract.SetDomainEntry` | contracts/storage-contract/src/lib.rs:973-997 | a registered domain stays registered; every other slot unchanged, and nothing changed on an error |
| `Storage.StorageContract.SetPolicyAddress` | contracts/storage-contract/src/lib.rs:1006-1014 | one entry; every other slot unchanged, and nothing changed on an error |
| `Storage.StorageContract.SetDnsAdminCardKey` | contracts/storage-contract/src/lib.rs:1022-1038 | empty or 64 bytes; every other slot unchanged, and nothing changed on an error |
| `Storage.StorageContract.SetDnsGovernancePolicyAddress` | contracts/storage-contract/src/lib.rs:1045-1049 | the policy address; every other slot unchanged, and nothing changed on an error |
| `StorageRuns.RunKeeps` | contracts/storage-contract/src/lib.rs:558-915 | over every sequence of calls by any callers with any arguments: existing cards, set forwards, domain existence, used nonces, delete-disable, the recognized policies after it, and being initialized are permanent, and a non-zero deregistration time never returns to zero |
| `StorageRuns.NoReinitialization` | contracts/storage-contract/src/lib.rs:343-362 | after any run of calls, `initialize` is refused |
| `StorageRuns.OnlyLogicWrites` | contracts/storage-contract/src/lib.rs:302-308 | a caller other than the logic contract changes nothing, and only `set_logic_contract` names a new one |
| `StorageRuns.OutsidersArePowerless` | contracts/storage-contract/src/lib.rs:302-308 | the calls of an address that is not the logic contract at any point of a run can be struck out of it, its own attempts to become the logic contract included |
| `StorageRuns.NobodyPromotesItself` | contracts/storage-contract/src/lib.rs:302-308 | an address that nobody else names does not become the logic contract, whatever it asks |
| `StorageRuns.DeregisteredAtMovesExactly` | contracts/storage-contract/src/lib.rs:708-745 | a set deregistration time moves if and only if the logic contract writes that sub-card with another non-zero time and CIDs within bounds |
| `StorageRuns.DeregisteredAtCanMove` | contracts/storage-contract/src/lib.rs:720-729 | for every set time there is such a call, although lines 20 and 132 call it write-once |
| `PayloadParser.FindField` | contracts/protocol-types/src/lib.rs:528-574 | the scan loop finds the first key and reads its value, or aborts on a string ending in a lone backslash |
| `PayloadParser.ReadValue` | contracts/protocol-types/src/lib.rs:541-573 | string values up to the closing quote, bare values up to a comma, brace or space |
| `PayloadParser.ParseU64` | contracts/protocol-types/src/lib.rs:609-621 | exactly the digit strings whose value fits in 64 bits, and their value |
| `Quorum.FindKey` | contracts/logic-contract/src/write_gate.rs:300-315 | the inner loop finds the lowest key index that verifies |
| `Quorum.CountSigners` | contracts/logic-contract/src/write_gate.rs:282-334 | the nested loops with the duplicate table count the distinct first matches, or refuse with the same error |
| `Quorum.AcceptedExactly` | contracts/logic-contract/src/write_gate.rs:282-334 | a signature list is accepted if and only if every signature is 64 bytes and matched below index 50, no two have the same first match, and there are at least `quorum` |
| `Quorum.OrderIndependent` | contracts/logic-contract/src/write_gate.rs:282-334 | acceptance and the set of signers do not depend on the order of the signatures |
| `Quorum.DistinctKeysSign` | contracts/logic-contract/src/write_gate.rs:282-334 | an accepted list holds signatures under at least `quorum` different public-key byte strings, even when the keyset repeats keys |
| `Quorum.MajoritiesIntersect` | contracts/logic-contract/src/governance_ops.rs:376-396 | two accepted quorums of one majority keyset share a signing key |
| `LogicContracts.LogicContract.ValidateWriteGateOnly` | contracts/logic-contract/src/write_gate.rs:157-222 | the six checks in order, each with its own error; `Signatures.PressGateExactly` says when they pass and `Refusals.PressRefused` what each error says |
| `LogicContracts.LogicContract.RunWriteGate` | contracts/logic-contract/src/write_gate.rs:70-147 | the same checks, then exactly one more on that press's sequence |
| `LogicContracts.LogicContract.VerifyGovernanceQuorum` | contracts/logic-contract/src/write_gate.rs:237-343 | version, fresh nonce, quorum, then exactly that nonce is marked; `Signatures.QuorumGateExactly` says when it passes and `Refusals.VoteRefused` what each error says |
| `LogicContracts.LogicContract.VerifySingleSig` | contracts/logic-contract/src/write_gate.rs:347-366 | 64-byte key and signature and the verifier's answer |
| `LogicContracts.LogicContract.RegisterCard` | contracts/logic-contract/src/card_ops.rs:53-113 | ends as the specification of the whole call says: same state of storage and instance, same events, or the same revert reason |
| `LogicContracts.LogicContract.UpdateHead` | contracts/logic-contract/src/card_ops.rs:122-189 | ends as the specification of the whole call says: same state of storage and instance, same events, or the same revert reason |
| `LogicContracts.LogicContract.ClaimOpenOffer` | contracts/logic-contract/src/card_ops.rs:200-293 | ends as the specification of the whole call says: same state of storage and instance, same events, or the same revert reason |
| `LogicContracts.LogicContract.RegisterAddressForward` | contracts/logic-contract/src/card_ops.rs:318-393 | ends as the specification of the whole call says: same state of storage and instance, same events, or the same revert reason |
| `LogicContracts.LogicContract.BatchUpdateCardHeads` | contracts/logic-contract/src/card_ops.rs:408-514 | ends as the specification of the whole call says: same state of storage and instance, same events, or the same revert reason |
| `LogicContracts.LogicContract.RegisterSubCard` | contracts/logic-contract/src/subcard_ops.rs:62-196 | ends as the specification of the whole call says: same state of storage and instance, same events, or the same revert reason |
| `LogicContracts.LogicContract.DeregisterSubCard` | contracts/logic-contract/src/subcard_ops.rs:216-287 | ends as the specification of the whole call says: same state of storage and instance, same events, or the same revert reason |
| `LogicContracts.LogicContract.RegisterPolicy` | contracts/logic-contract/src/governance_ops.rs:56-100 | ends as the specification of the whole call says: same state of storage and instance, same events, or the same revert reason |
| `LogicContracts.LogicContract.DeregisterPolicy` | contracts/logic-contract/src/governance_ops.rs:127-161 | ends as the specification of the whole call says: same state of storage and instance, same events, or the same revert reason |
| `LogicContracts.LogicContract.AuthorizePress` | contracts/logic-contract/src/governance_ops.rs:175-230 | ends as the specification of the whole call says: same state of storage and instance, same events, or the same revert reason |
| `LogicContracts.LogicContract.RevokePress` | contracts/logic-contract/src/governance_ops.rs:242-293 | ends as the specification of the whole call says: same state of storage and instance, same events, or the same revert reason; `Outcomes.PressOutcome` and `PressKeys.RevocationHolds` say what is revoked |
| `LogicContracts.LogicContract.RotateAuthorizerKey` | contracts/logic-contract/src/governance_ops.rs:302-346 | ends as the specification of the whole call says: same state of storage and instance, same events, or the same revert reason |
| `LogicContracts.LogicContract.RotateGovernanceKeys` | contracts/logic-contract/src/governance_ops.rs:364-430 | ends as the specification of the whole call says: same state of storage and instance, same events, or the same revert reason |
| `LogicContracts.LogicContract.SetProtocolVersion` | contracts/logic-contract/src/governance_ops.rs:444-478 | ends as the specification of the whole call says: same state of storage and instance, same events, or the same revert reason |
| `LogicContracts.LogicContract.DisablePolicyDelete` | contracts/logic-contract/src/governance_ops.rs:490-520 | ends as the specification of the whole call says: same state of storage and instance, same events, or the same revert reason |
| `LogicContracts.LogicContract.ProposeLogicUpgrade` | contracts/logic-contract/src/upgrade_ops.rs:65-128 | ends as the specification of the whole call says: same state of storage and instance, same events, or the same revert reason |
| `LogicContracts.LogicContract.ConfirmLogicUpgrade` | contracts/logic-contract/src/upgrade_ops.rs:143-209 | ends as the specification of the whole call says: same state of storage and instance, same events, or the same revert reason; `Permissions.AcceptedExactly` says that body 0 signs it, `Upgrades.TimelockedAlways` what it rests on |
| `LogicContracts.LogicContract.CancelLogicUpgrade` | contracts/logic-contract/src/upgrade_ops.rs:218-251 | ends as the specification of the whole call says: same state of storage and instance, same events, or the same revert reason |
| `LogicContracts.LogicContract.ProposeVerifierUpgrade` | contracts/logic-contract/src/upgrade_ops.rs:259-308 | ends as the specification of the whole call says: same state of storage and instance, same events, or the same revert reason |
| `LogicContracts.LogicContract.ConfirmVerifierUpgrade` | contracts/logic-contract/src/upgrade_ops.rs:313-364 | ends as the specification of the whole call says: same state of storage and instance, same events, or the same revert reason |
| `LogicContracts.LogicContract.CancelVerifierUpgrade` | contracts/logic-contract/src/upgrade_ops.rs:369-394 | ends as the specification of the whole call says: same state of storage and instance, same events, or the same revert reason |
| `LogicContracts.LogicContract.RotateOnChainKeyScheme` | contracts/logic-contract/src/key_scheme_ops.rs:61-182 | ends as the specification of the whole call says: same state of storage and instance, same events, or the same revert reason |
| `LogicContracts.LogicContract.RegisterDomain` | contracts/logic-contract/src/dns_ops.rs:116-198 | ends as the specification of the whole call says: same state of storage and instance, same events, or the same revert reason |
| `LogicContracts.LogicContract.DeregisterDomain` | contracts/logic-contract/src/dns_ops.rs:212-263 | ends as the specification of the whole call says: same state of storage and instance, same events, or the same revert reason |
| `LogicContracts.LogicContract.SetPath` | contracts/logic-contract/src/dns_ops.rs:280-374 | ends as the specification of the whole call says: same state of storage and instance, same events, or the same revert reason; `DomainAdmins.PathRights` says who may set what |
| `LogicContracts.LogicContract.RemovePath` | contracts/logic-contract/src/dns_ops.rs:388-467 | ends as the specification of the whole call says: same state of storage and instance, same events, or the same revert reason |
| `LogicContracts.LogicContract.ClearDomainEntries` | contracts/logic-contract/src/dns_ops.rs:477-527 | ends as the specification of the whole call says: same state of storage and instance, same events, or the same revert reason |
| `LogicContracts.LogicContract.FlagDomainFraudRisk` | contracts/logic-contract/src/dns_ops.rs:539-593 | ends as the specification of the whole call says: same state of storage and instance, same events, or the same revert reason |
| `LogicContracts.LogicContract.GovernanceSetPath` | contracts/logic-contract/src/dns_ops.rs:605-659 | ends as the specification of the whole call says: same state of storage and instance, same events, or the same revert reason |
| `LogicContracts.LogicContract.SetDnsPolicy` | contracts/logic-contract/src/dns_ops.rs:672-716 | ends as the specification of the whole call says: same state of storage and instance, same events, or the same revert reason |
| `LogicContracts.LogicContract.CheckBatchItems` | contracts/logic-contract/src/card_ops.rs:421-489 | the nested validation loops accept exactly the valid items, and name the first fault |
| `LogicContracts.LogicContract.ApplyBatch` | contracts/logic-contract/src/card_ops.rs:491-511 | the apply loop writes every head in order and logs one event each |
| `LogicContracts.LogicContract.ClearPaths` | contracts/logic-contract/src/dns_ops.rs:500-527 | the clear loop: the table with the listed entries zeroed, and how many were set |
| `LogicContracts.LogicContract.CheckAdminSignature` | contracts/logic-contract/src/subcard_ops.rs:107-156 | the DNS-admin branch: the second signature, or the all-zero one |
| `LogicContracts.LogicContract.Transact` | contracts/logic-contract/src/lib.rs:591-1056 | dispatch of every write operation; a revert leaves storage, instance and log as they were |
| `Worlds.StepIsExec` | contracts/logic-contract/src/lib.rs:536-553 | a step of a run is what the specification of the call says |
| `Worlds.FirstStoreIsInitialized` | contracts/storage-contract/src/lib.rs:343-400 | runs start from the store that `initialize` leaves |
| `Worlds.OnlyCurrentLogicActs` | contracts/storage-contract/src/lib.rs:302-308 | every accepted call ran in the instance that storage named |
| `Worlds.GatedFrame` | contracts/logic-contract/src/write_gate.rs:70-147 | the gates touch press sequences and nonces only |
| `Batches.ValidItemsAreDistinct` | contracts/logic-contract/src/card_ops.rs:421-489 | what passes the nested loops has no card twice, and every card exists under the policy with the stated head |
| `Batches.ApplyLoopNeverFails` | contracts/logic-contract/src/card_ops.rs:491-511 | at every point of the apply loop the next storage write succeeds and changes that one card |
| `Batches.OrderFree` | contracts/logic-contract/src/card_ops.rs:491-511 | single head updates done in any order leave the same cards |
| `Batches.BatchOutcome` | contracts/logic-contract/src/card_ops.rs:408-511 | an accepted batch moves every listed head, no other card, and the press sequence by one |
| `Steps.CardsStep` | contracts/logic-contract/src/card_ops.rs:65-110 | only registrations and claims add a card, one each, and cards keep policy and set forward |
| `Steps.CardsExistAlways` | contracts/logic-contract/src/card_ops.rs:65-110 | in every reachable state every written card exists |
| `Replay.ReplaysStep` | contracts/logic-contract/src/card_ops.rs:89-110 | the events of one accepted call take the tables before it to the tables after it |
| `Replay.ReplaysBatch` | contracts/logic-contract/src/card_ops.rs:491-511 | the batch's head events, read one by one, give the batch's cards |
| `Replay.ReplaysDomain` | contracts/logic-contract/src/dns_ops.rs:166-195 | the domain events rebuild the domain table |
| `Replay.ReplayRebuilds` | press/src/context.ts:54-56 | after every run, folding the event log from empty rebuilds the card, sub-card, offer and domain tables exactly, and no event contradicts an earlier one |
| `HeadChains.EventsChain` | contracts/logic-contract/src/card_ops.rs:168-186 | the head events of a card chain: the first registers it, each later one names the head before it |
| `HeadChains.CardsEndTheirChains` | contracts/logic-contract/src/card_ops.rs:168-186 | a card exists if and only if it has a chain, and its head is the end of it |
| `SubCards.LivesStep` | contracts/logic-contract/src/subcard_ops.rs:171-277 | one call starts a sub-card, ends it at that moment, or leaves it |
| `SubCards.DatedAlways` | contracts/logic-contract/src/subcard_ops.rs:231-277 | registration comes before deregistration and neither is in the future |
| `SubCards.DeadStaysDead` | contracts/logic-contract/src/subcard_ops.rs:85-98 | over every continuation of every run: master, document, head and start never change, a dead sub-card never changes at all and is never active again |
| `SubCards.RegistrationHeads` | contracts/logic-contract/src/subcard_ops.rs:85-98 | the recorded registration head is one that the master had |
| `Conservation.BalancedAlways` | contracts/logic-contract/src/card_ops.rs:215-274 | the cards are as many as accepted registrations plus the sum of all offer counts, and each offer's count is the number of different cards from it |
| `Conservation.UseCountsRun` | contracts/logic-contract/src/card_ops.rs:256-274 | an offer's events count 1, 2, ..., n, where n is its stored count |
| `Conservation.OfferCap` | contracts/logic-contract/src/card_ops.rs:215-232 | if every accepted claim carried a limit, no more cards came from the offer than the largest of these limits |
| `Sequences.CountedAlways` | contracts/logic-contract/src/write_gate.rs:100-147 | the sequences accepted from a press since its last authorization are 0, 1, ..., n-1 and the next is n, revocations or not |
| `Sequences.PressGated` | contracts/logic-contract/src/write_gate.rs:70-147 | every press-gated operation carries the expected sequence and adds one |
| `Sequences.NotPressGated` | contracts/logic-contract/src/governance_ops.rs:203-219 | nothing else moves a sequence, except that an authorization restarts it at 0 |
| `Governance.PayloadsAreSingleUse` | contracts/logic-contract/src/write_gate.rs:260-272 | no payload bytes are accepted twice by any bodies and instances, and used nonces are as many as accepted governance operations |
| `Governance.NamedAlways` | contracts/logic-contract/src/governance_ops.rs:376-417 | each version of a body names one keyset, and the three bootstrapped bodies always have a majority one |
| `Governance.ActionsShareASigner` | contracts/logic-contract/src/governance_ops.rs:376-417 | two actions accepted by one of those bodies at one version share a signing key |
| `Governance.ActionsHaveDistinctSigners` | contracts/logic-contract/src/write_gate.rs:282-334 | every accepted action of a run has `quorum` different public keys behind it |
| `Upgrades.TimelockedAlways` | contracts/logic-contract/src/upgrade_ops.rs:143-209 | every confirmed logic or verifier upgrade of a run rests on a matching proposal at least 604800 or 172800 seconds older, each signed over its own payload by a root quorum of different keys, with nothing done to it and no root-key rotation since, and another nonce |
| `Upgrades.TouchIsSigned` | contracts/logic-contract/src/upgrade_ops.rs:65-394 | every accepted operation on an upgrade is signed by a quorum of body 0 |
| `Upgrades.OvertakenIsNeverConfirmed` | contracts/logic-contract/src/upgrade_ops.rs:168-180 | what is confirmed after a root-key rotation was proposed after it |
| `Upgrades.ConfirmLeavesNothing` | contracts/logic-contract/src/upgrade_ops.rs:185-209 | nothing is pending after a confirmation |
| `Upgrades.LogicChangesByConfirmation` | contracts/logic-contract/src/upgrade_ops.rs:185-209 | the logic address changes by a confirmation only, to the pending address |
| `Upgrades.VerifierChangesByConfirmation` | contracts/logic-contract/src/upgrade_ops.rs:313-364 | so does a verifier address, in the called instance only |
| `Upgrades.SupersededReverts` | contracts/storage-contract/src/lib.rs:302-308 | every write operation of an instance that storage does not name reverts |
| `Upgrades.SupersededIsFrozen` | contracts/logic-contract/src/write_gate.rs:336-340 | in every continuation of every run in which storage does not name it, an instance keeps its verifier, pending upgrade and version, and no accepted call comes from it |
| `Upgrades.UnaskedIsUnnamed` | contracts/logic-contract/src/upgrade_ops.rs:143-209 | without a confirmation that asks for it, storage does not name it again |
| `KeySchemes.RotationNeedsPhase` | contracts/logic-contract/src/key_scheme_ops.rs:90-99 | in phase 0 every key-scheme rotation reverts |
| `KeySchemes.PhaseZeroAlways` | contracts/logic-contract/src/key_scheme_ops.rs:90-99 | in every reachable state the phase is 0 and no key-scheme rotation was ever accepted |
| `Dns.PathTextCollisions` | contracts/logic-contract/src/dns_ops.rs:70-76 | exactly when two (domain, path) pairs share a key text |
| `Dns.PathTextInjective` | contracts/logic-contract/src/dns_ops.rs:70-76 | never, for domains without NUL bytes |
| `Dns.NulDomainsCollide` | contracts/logic-contract/src/dns_ops.rs:97-102 | the length check admits domains with NUL bytes, for which two pairs do share one |
| `Dns.OtherEntriesUntouched` | contracts/logic-contract/src/dns_ops.rs:345-361 | with a collision-free hash and NUL-free domains, a call changes no entry that it does not name |
| `Dns.NamesCardsAlways` | contracts/logic-contract/src/dns_ops.rs:605-648 | in every reachable state every set entry names an existing card |
| `Dns.ClearedExactly` | contracts/logic-contract/src/dns_ops.rs:500-527 | clearing zeroes exactly the listed entries |
| `Dns.ClearedCounts` | contracts/logic-contract/src/dns_ops.rs:500-527 | the reported count is the number of different listed keys that were set |
| `Dns.ClearedCountsPaths` | contracts/logic-contract/src/dns_ops.rs:500-527 | with a collision-free hash, the number of different listed paths that were set |
| `PredecessorWalk.VerifyPredecessorChain` | governance/scripts/admin-deactivation.ts:160-194 | true if and only if the admin is reached in 1 to maxHops steps, cycles included, each hop reading the registry and the documents as they are by then |
| `PredecessorWalk.TrueAnswersLast` | governance/scripts/admin-deactivation.ts:160-194 | a true answer along on-chain forwards stays true for a later walk, whatever calls reach the storage contract before and between its hops |
| `PredecessorWalk.TrueAnswersLastInRuns` | contracts/storage-contract/src/lib.rs:595-610 | and after any continuation of a run of the registry |
| `Timestamps.FindYear` | contracts/scripts/build_governance_payload.rs:57-64 | the year loop: the right year before the year 2^32, and from there an abort or, without overflow checks, a wrap |
| `Timestamps.FindMonth` | contracts/scripts/build_governance_payload.rs:65-73 | the month loop always ends inside the year |
| `Timestamps.EpochToParts` | contracts/scripts/build_governance_payload.rs:53-74 | before the year 2^32 a valid date that converts back to the same second; from there on an abort or, without overflow checks, a valid date of another second |
| `Timestamps.HorizonIsReached` | contracts/scripts/build_governance_payload.rs:53-74 | the first second of the year 2^32 is 135536014634284800, which is below 2^64 |
| `Timestamps.OrderPreserved` | contracts/scripts/build_governance_payload.rs:53-74 | dates are in calendar order exactly as their seconds, and equal seconds mean equal dates |
| `Timestamps.NextYear` | contracts/scripts/build_governance_payload.rs:59-60 | the closed form of the days before a year adds up the years' lengths |
| `Timestamps.YearZero` | contracts/scripts/build_governance_payload.rs:57-64 | it starts at 0 |
| `Unicode.EncodeInjective` | wallet-service/src/canonicalize.ts:14-16 | UTF-8 encoding loses nothing of a well-formed string |
| `JsonText.ReadQuoted` | wallet-service/src/canonicalize.ts:22-22 | a reader gets back every string from its quoted form, whatever follows |
| `JsonText.ReadPrintedInt` | wallet-service/src/canonicalize.ts:34-37 | and every integer |
| `KeySort.SortDependsOnSet` | wallet-service/src/canonicalize.ts:28-32 | the sorted keys depend on the set of keys only |
| `KeySort.UnitOrderIsNotPointOrder` | wallet-service/src/canonicalize.ts:11-11 | U+10000 is printed before U+E000, against code-point order |
| `KeySort.OrdersAgreeExactly` | wallet-service/src/canonicalize.ts:11-11 | the two orders agree on two strings if and only if it is not the case that, at the first code point where they differ, one is a surrogate pair and the units of the other lie above it |
| `KeySort.AbovePairWellFormed` | wallet-service/src/canonicalize.ts:11-11 | for well-formed strings that means a unit of at least 0xE000 |
| `KeySort.SortedByPointsExactly` | wallet-service/src/canonicalize.ts:28-32 | the keys come out in code-point order if and only if no two of them are such a pair |
| `CanonicalJson.ReadPrinted` | wallet-service/src/canonicalize.ts:18-26 | a reader gets back every value from its printed form, whatever follows |
| `CanonicalBytes.SameBytesSameValue` | wallet-service/src/canonicalize.ts:14-37 | two values have the same canonical bytes if and only if they are the same value |
| `CanonicalBytes.InsertionOrderFree` | wallet-service/src/canonicalize.ts:28-32 | the bytes do not depend on the order of insertion |
| `CanonicalBytes.TextWellFormed` | wallet-service/src/canonicalize.ts:14-16 | the printed text has no lone surrogate, so its encoding is lossless |
| `PressSerialization.CanonicalizeExcluding` | press/src/serialization.ts:15-27 | the loop leaves out the excluded keys and `__proto__` |
| `PressSerialization.ExcludedKeysDoNotMatter` | press/src/serialization.ts:15-27 | the bytes of two objects agree if and only if the objects agree outside the dropped keys |
| `PressSerialization.OmitsExactlyTheExcluded` | press/src/serialization.ts:15-27 | exactly the specified keys are omitted if and only if no own `__proto__` property was to be kept |
| `Extraction.SkipChunks` | contracts/protocol-types/src/lib.rs:528-574 | the scan passes over strings and stretches that are not the key, whatever text follows |
| `Extraction.StringValue` | contracts/protocol-types/src/lib.rs:553-566 | a quoted value is read as it stands if and only if it is escaped |
| `FlatObjects.FirstComesBack` | contracts/protocol-types/src/lib.rs:528-574 | the first field of a name comes back exactly as printed, whatever text follows it |
| `FlatObjects.TextComesBackExactly` | contracts/protocol-types/src/lib.rs:528-574 | a text put under a name without escaping comes back if and only if it is escaped as it stands |
| `FlatObjects.PresentField` | contracts/protocol-types/src/lib.rs:528-574 | a printed integer or string field comes back exactly as printed |
| `FlatObjects.AbsentField` | contracts/protocol-types/src/lib.rs:528-574 | a field that is not there is not found |
| `FlatObjects.ExactlyTheGapNames` | contracts/protocol-types/src/lib.rs:528-574 | a name is read correctly, and without an abort, in every printed flat object if and only if it is none of the stretches that can stand between two strings of one |
| `FlatObjects.MisreadWitness` | contracts/protocol-types/src/lib.rs:528-574 | for each such name, an object in which it is found although it is not there |
| `PrintedObjects.ObjectBytes` | governance/scripts/registry.ts:245-260 | the canonical bytes of a flat object are its fields in key order |
| `PrintedObjects.PropertyComesBack` | governance/scripts/registry.ts:245-260 | an integer or string property comes back from the canonical bytes exactly as printed when the properties printed before it are flat, whatever comes after |
| `PrintedObjects.AbsentProperty` | governance/scripts/registry.ts:245-260 | an absent one is not found |
| `Payloads.PayloadComesBack` | governance/scripts/registry.ts:269-286 | version, nonce and op of a built payload are what the gate extracts, unless the extra fields bring their own op |
| `Payloads.NamesAreSafe` | contracts/protocol-types/src/lib.rs:580-635 | none of the seven field names that the contracts look for can be misread |
| `Payloads.NumberComesBack` | contracts/protocol-types/src/lib.rs:580-626 | a printed integer property is extracted as the number it is, and a negative one as none |
| `Payloads.PressPayloadComesBack` | press/src/chain/registry.ts:363-379 | sequence and op of a built press payload are what the write gate extracts, also when nested fields follow |
| `Payloads.PlainNonce` | governance/scripts/registry.ts:269-286 | a nonce that needs no escaping, like the hex ones in use, is read as it is |
| `BuilderPayloads.BuilderPayloadComesBack` | contracts/scripts/build_governance_payload.rs:137-290 | from the payload of every operation of the command-line builder the version comes back, the nonce if and only if it is escaped, and then the op if and only if that is |
| `StorageCalls.AcceptedExactly` | contracts/storage-contract/src/lib.rs:343-1050 | every storage call is accepted if and only if its caller is the logic contract (or it is the first initialization) and its arguments fit, all 21 conditions written out |
| `StorageCalls.Written` | contracts/storage-contract/src/lib.rs:343-1050 | what a reader finds in every table and slot after each accepted storage call, and that the rest stays |
| `FieldScan.FieldExactly` | contracts/protocol-types/src/lib.rs:528-574 | on every payload: a text is found if and only if it stands as the value of the first key of that name, and the scan aborts if and only if that value breaks off in an escape |
| `Signatures.PressGateExactly` | contracts/logic-contract/src/write_gate.rs:157-222 | the write gate passes if and only if the policy is recognized, its press is active with a 64-byte key, the verifier accepts the signature over the hash of the payload under that key, and the payload states the op and the next sequence |
| `Signatures.QuorumGateExactly` | contracts/logic-contract/src/write_gate.rs:237-343 | the governance check passes if and only if the payload states the version of the body and an unused nonce, every signature is 64 bytes and verifies over the hash of the payload under a key of that body, no two under the same first key, and they are a quorum |
| `Signatures.DifferentKeysSigned` | contracts/logic-contract/src/write_gate.rs:282-334 | then at least a quorum of different 64-byte slices of the keyset each verify a signature over the payload |
| `Signatures.CoSignatureExactly` | contracts/logic-contract/src/card_ops.rs:352-376 | the co-signature of a forward passes if and only if an active press of the card's policy signed the payload for that op |
| `Signatures.AdminSignatureExactly` | contracts/logic-contract/src/subcard_ops.rs:107-156 | the admin check passes if and only if the stored admin key of the master verifies the admin payload, which has both fields, or there is no such key and signature and payload are the empty ones |
| `Signatures.KeySchemeExactly` | contracts/logic-contract/src/key_scheme_ops.rs:74-145 | the checks of a key-scheme rotation pass if and only if the ten stated conditions hold |
| `Permissions.AcceptedExactly` | contracts/logic-contract/src/lib.rs:591-1056 | each of the thirty operations is accepted if and only if storage names the instance, the right press or body has signed for it, and the registry is in order for it, all conditions written out per operation and without the order of the checks |
| `Permissions.GatesExactly` | contracts/logic-contract/src/lib.rs:591-1056 | the signature part of it: which press under which policy and for which op, or which body, must have signed each operation |
| `Permissions.BatchItemsExactly` | contracts/logic-contract/src/card_ops.rs:421-489 | the item loops accept exactly the items that are listed once, exist under the policy with the stated head, and fit |
| `Outcomes.AcceptedChanges` | contracts/logic-contract/src/lib.rs:591-1056 | what each of the thirty operations changes: every entry of every table, every slot, the instance and the events, with the new values written out, and nothing else |
| `Outcomes.ChangesDecide` | contracts/logic-contract/src/lib.rs:591-1056 | that description leaves nothing open: effects that fit it read the same as those of the call |
| `Outcomes.PressOutcome` | contracts/logic-contract/src/governance_ops.rs:175-290 | an authorization writes the stated key and hash, active from now; a revocation makes the entry inactive, dated now, all else kept; a press operation adds one to the sequence; any other call leaves it |
| `Outcomes.CardOutcome` | contracts/logic-contract/src/card_ops.rs:53-511 | what each call does to each card |
| `Outcomes.PolicyAddressOutcome` | contracts/logic-contract/src/dns_ops.rs:280-648 | what each call does to each entry of the policy-address table |
| `Outcomes.AdminKeyOutcome` | contracts/logic-contract/src/dns_ops.rs:166-258 | registration stores the admin key, deregistration clears that of the old admin, nothing else moves one |
| `Refusals.RefusedForReason` | contracts/logic-contract/src/lib.rs:591-1056 | whatever reason a refused call gives, what that reason says is so: of its caller, its signatures, its arguments or the registry |
| `Refusals.PressRefused` | contracts/logic-contract/src/write_gate.rs:157-222 | the same for each error of the write gate |
| `Refusals.VoteRefused` | contracts/logic-contract/src/write_gate.rs:237-343 | and for each error of the governance check |
| `Histories.AcceptsExactly` | contracts/logic-contract/src/lib.rs:591-1056 | within a run, exactly the allowed calls to known instances take effect |
| `Histories.LawfulAlways` | contracts/logic-contract/src/lib.rs:591-1056 | every accepted call of every run was allowed on the state that the one before left, and changed exactly what it had to |
| `Histories.VotesAlways` | contracts/logic-contract/src/write_gate.rs:282-334 | behind every governed call of a run stand a quorum of different keys of the keyset its body then had, each with a signature over that call's payload |
| `PressKeys.ActiveExactly` | contracts/logic-contract/src/governance_ops.rs:175-290 | after every run, a press entry is active if and only if some authorization of it has been neither replaced nor revoked, and then holds the key and hash which that named |
| `PressKeys.UsesRestOnAuthorizations` | contracts/logic-contract/src/write_gate.rs:70-147 | every accepted press operation and forward of a run is signed with a key that a quorum of body 1 authorized for that policy and press and that has not been revoked since |
| `PressKeys.RevocationHolds` | contracts/logic-contract/src/governance_ops.rs:242-293 | after an accepted revocation, until the pair is authorized again, the entry is inactive and no call of the run rests on it |
| `DomainAdmins.PathRights` | contracts/logic-contract/src/dns_ops.rs:280-374 | an accepted SetPath is for a registered, unsuspended domain, in the name of its admin and of no or an active sub-card of it, to an existing card, which the entry then holds |
| `DomainAdmins.RegistrationRights` | contracts/logic-contract/src/dns_ops.rs:116-198 | an accepted RegisterDomain gives a domain without admin to an existing card of the DNS policy, stores its key, and clears any fraud flag |
| `DomainAdmins.RemovalRights` | contracts/logic-contract/src/dns_ops.rs:388-648 | an accepted RemovePath zeroes a set entry of a registered domain, an accepted GovernanceSetPath writes one |
| `DomainAdmins.PathsRestOnRegistrations` | contracts/logic-contract/src/dns_ops.rs:280-374 | every path that a run sets in the name of a card is set in the name of the card for which a quorum of body 2 registered the domain and which is still its admin |
| `DomainAdmins.DeregisteredStaysOpen` | contracts/logic-contract/src/dns_ops.rs:280-374 | after a deregistration a press of the DNS policy can set a path of the domain if and only if it names admin zero, the domain is not suspended, and path, target and signature are in order |
| `DomainAdmins.SettableStaysSettable` | contracts/logic-contract/src/dns_ops.rs:212-263 | so every path that could be set before can be set afterwards |
| `DomainAdmins.PathWithoutAdmin` | contracts/logic-contract/src/dns_ops.rs:280-374 | a state and a call that show it |
| `PredecessorWalk.ReachesByWay` | governance/scripts/admin-deactivation.ts:160-194 | the admin is reached if and only if a way of existing cards leads to it, each hop by the forward or, without one, by the log document |
| `CanonicalRequests.BuilderIsCanonical` | contracts/scripts/build_governance_payload.rs:137-290 | what the command-line builder prints for each operation is the canonical form of that operation's request, all its properties written out, in any order, when no printed text needs escaping |
| `CanonicalRequests.RequestFits` | contracts/scripts/build_governance_payload.rs:137-290 | the printed fields are those properties one for one, in ascending order of their names |
| `Payloads.GovPayloadProperties` | governance/scripts/registry.ts:269-286 | each property of a built governance payload: the stamps win over the extra fields and those over the op |
| `Payloads.PressPayloadProperties` | press/src/chain/registry.ts:363-379 | the same for a press payload |

## Left out

- The hash, the signature precompile and ML-DSA: arbitrary functions here.
- Gas, ABI encoding, error selectors, storage layout, and the read-only view functions.
- Authorization of call arguments by payload fields: the gates authenticate payload bytes, not arguments, and so does the model.
- Instances of other code: after the storage contract names an address that runs something else, the run goes on only if that address is an instance of this code; `StorageRuns` covers arbitrary code.
- Replay of the policy-address table, policies and presses: `DomainEntriesCleared` carries a count instead of paths, so that table cannot be rebuilt from events.
- Calls that share a transaction: every call is its own transaction.
- Numbers other than integers up to 2^53 - 1 in absolute value in the canonical printers (number formatting of section 3.2.2.3 of RFC 8785), and values that make them throw.
- The round trip of array-valued fields through the field scanner: nothing in the contracts reads one.
- Payloads.PayloadComesBack: the extra fields that are printed up to the op are integers, strings or arrays of strings under keys that need no escaping, which is what the scripts pass; a nested object before the op could hold a field of the same name.
- Payloads.PressPayloadComesBack: the same up to the sequence; the conversion of a sequence beyond 2^53 - 1 to a JavaScript number is not modelled.
- CanonicalRequests.BuilderIsCanonical: the printed texts need no escaping, since the builder escapes nothing and the canonical form would; the version is one of 32 bits, as its argument is.
- BuilderPayloads.BuilderPayloadComesBack: the text arguments printed before the op are escaped; one that is not can stand for further fields. The raw array argument of clear_domain_entries is taken as the printed array it stands for; parsing of the command line, the random nonce and the clock are inputs.
- PredecessorWalk.VerifyPredecessorChain: a successor text that is no card address, and a registry read that fails, are not modelled.
- The rest of the domain handoff (requests, IPFS, press calls): input and output.
- The hex conversions, transaction submission and view calls of governance/scripts/registry.ts.
- Press-side checks, HTTP handlers, stores, relays, and configuration.
