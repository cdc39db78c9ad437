# Veritoken verification

Dafny models of the parts of this repository that keep state, run loops, do bounded arithmetic or parse bytes, with
proofs of what they guarantee. `dafny verify dfyconfig.toml` checks the whole project.

The contracts are modelled twice. A specification says what each entry point does to the state as one function, and runs
of calls are folds over it; the properties below are lemmas about those functions and runs. The entry points themselves
are methods that read, check and overwrite storage step by step, as the programs do, and each is proved to end in the
state the specification gives. A panicking call is rolled back by its host, so a call either fails and leaves the state
alone or succeeds; arithmetic overflow traps, because the contracts are built with overflow checks, except in
`checked_mul`, where it yields zero.

* **Deployment.** `Deployment` is the checkpointed orchestrator as a step system: files on disk, the memory of a running
  process, the network and a crash step. `DeploymentSafety` proves one invariant of every step, `DeploymentTheorems` the
  guarantees over whole runs, `DeploymentInitialize` what a lost initialize call does, `DeploymentLoss` that every one can
  be lost, `DeploymentResume` which stopped deployments can be finished, `DeploymentVerification` that nothing is
  published without a verification that succeeded. `DependencyOrder` is the dependency sort and the configuration check
  in front of it.
* **WebAssembly exports.** `Leb128`, `Utf8` and `WasmModule` hold an encoder next to the grammar that the reader accepts;
  `WasmReader` is the reader with its loops. `WasmFormat` states the numbers of the format that the others share.
* **Answers.** For each contract one module lists what every entry point checks, in which order, with which error and
  with which question to other contracts, and what a success changes, for every address and field: `InvoiceAnswers` and
  `InvoiceChanges`, `CarbonAnswers`, `ComplianceAnswers`. No list is stated through the function whose answers it gives:
  limits and texts are written out, and fees and shares are inequalities without a quotient. `Checklists` says what such
  a list means.
* **Invoice token.** `InvoiceModel`; `InvoiceStorage` (the storage keys and the records that they stand for) and
  `InvoiceContract` (the entry points over single keys, and the host's rollback); `InvoiceProofs` (lifecycle,
  conservation), `InvoiceSettlement` (dust, backing, batches, whole runs), `InvoiceProRata` (shares and caps),
  `InvoiceEntitlements` (caps across transfers and over runs), `InvoiceLedger` (dust and signs for all amounts),
  `InvoiceOverdraw`, `InvoiceRedeemable`, `InvoiceFullSettlement` and `InvoicePartialSettlement` (when redemptions can
  take out more than was settled).
* **Carbon credit token.** `CarbonModel`, `CarbonContract`, `CarbonProofs` (sums and the beneficiary index over whole
  runs), `CarbonBatches` (batches against single calls), `CarbonSigns` (negative amounts), `CarbonCertificates` (which
  receipts have a certificate). `Decimal`, `Json` and `Certificate` are its number and certificate printers with
  independent readers.
* **Compliance engine.** `ComplianceModel`, `ComplianceContract`, `MemberLists` (block and allow lists),
  `ComplianceProofs` (history, time lock, holder cap), `ComplianceDecision`.

Where the code does not have a property that it might be expected to have, a lemma gives an input that shows it and
another states exactly when the property holds:

* A deployment cannot always be resumed: a contract refuses to be initialized twice, so that a crash between an
  initialize call and its checkpoint stops the deployment for good (`DeploymentLoss.LostInitializeNeverPublishes`; exactly
  when: `DeploymentResume.ResumeCompletesExactly`, `DeploymentResume.FinishesExactly`).
* The invoice token does not check the sign of issued and burned amounts. Conservation fails only at the creation of an
  id under which a negative amount was burned before (`InvoiceProofs.NegativeBurnBreaksConservation`,
  `InvoiceProofs.CreateConserves`, `InvoiceSettlement.DriftIsForgotten`); a balance turns negative only through a negative
  issue (`InvoiceSettlement.NegativeIssueLeavesBalances`; exactly when: `InvoiceLedger.BalancesOverRun`).
* The entitlement stored at a transfer keeps the sum of all caps within the settlement only if the recipient's cap rises
  by no more than the slack and what the sender's gives up (`InvoiceEntitlements.StoredCapsOvershoot`,
  `InvoiceEntitlements.FeelessTransferMovesCaps`, `InvoiceEntitlements.TransferKeepsCapsExactly`).
* A stored entitlement never rises, but it is removed once it is redeemed in full, and its holder then has a share of the
  rest (`InvoiceEntitlements.UsedUpEntryIsForgotten`, `InvoiceEntitlements.EntryOverRun`).
* The dust can become negative, from every settled state exactly when it does not cover what it must
  (`InvoiceOverdraw.UnbackedOverdraws`, `InvoicePartialSettlement.SettledOverdrawsExactly`): the supply, while tokens
  move; what can be redeemed, and a first unit of it, when they do not (`InvoiceFullSettlement.SharedIsNotOverdrawn`).
* Dust and redemptions add up to the settlement exactly while their difference stays in range
  (`InvoiceLedger.DustSaturates`, `InvoiceLedger.DustLedger`).
* A fully backed redemption within the balance and any entitlement is refused as too large exactly when the 128-bit
  product overflows (`InvoiceOverdraw.OverflowLocksOut`, `InvoiceSettlement.FullyBackedRedemption`).
* `batch_retire` files no index entries, so the beneficiary index differs from a scan of the log exactly for addresses
  that used it (`CarbonProofs.BatchRetireIsNotIndexed`, `CarbonProofs.IndexIsFullScan`).
* A batch of retirements on behalf of others is not the single retirements in order: it refuses amounts that are not
  positive, empty memos and project ids that leave no room for a serial number, whose length nothing else limits, and it
  checks neither memo lengths nor compliance about the real amounts (`CarbonBatches.LongProjectFailsBatch`,
  `CarbonBatches.ZeroAmountFailsBatch`, `CarbonBatches.CappedBatchPasses`; exactly when:
  `CarbonBatches.BatchRefinesSingles`).
* The carbon token checks the sign of neither minted, transferred nor delegated amounts, so that balances can become
  negative and the retired total can fall (`CarbonSigns.NegativeTransferOverdraws`,
  `CarbonSigns.NegativeRetirementCreates`; exactly when: `CarbonSigns.BalancesOverRun`, `CarbonSigns.RetiredOverRun`).
* A certificate is printed exactly when every field has at most 128 bytes and no control byte other than
  `\b \t \n \f \r`: for the others the code copies four bytes into a six-byte slice, which traps, where
  a `\u00` escape is meant. Its documentation says that no stored field is longer, but the batches do not check
  (`CarbonCertificates.ControlByteIsNotCertified`, `CarbonCertificates.LongReasonIsNotCertified`; exactly when:
  `CarbonCertificates.EveryReceiptCertified`).
* `activate_rules` and direct registration do not validate the holder cap again
  (`ComplianceProofs.ActivationCanExceedCap`; exactly when: `ComplianceProofs.CapOverRunExactly`).
* The lockup view and the rule it reports on differ exactly at the last representable second of a saturated release time
  (`ComplianceDecision.SaturatedViewUnlocks`, `ComplianceDecision.LockupAgrees`).

## Model

| member | source | states |
|---|---|---|
| DeploymentSafety.KeepStep | scripts/deployment/orchestrator.py:146-326 | every start, resume, client answer and crash keeps the invariant that ties checkpoint, memory, published manifest and network together |
| DeploymentSafety.KeepBegin | scripts/deployment/orchestrator.py:151-196 | listing a contract and resolving its dependencies keeps the invariant, and the dependencies are all deployed by then |
| DeploymentSafety.KeepUploadReturned | scripts/deployment/orchestrator.py:198-211 | checkpointing an uploaded hash that equals the artifact hash keeps the invariant |
| DeploymentSafety.KeepDeploy | scripts/deployment/orchestrator.py:213-238 | a deploy call, a skipped one and a failed hash check keep the invariant |
| DeploymentSafety.KeepDeployReturned | scripts/deployment/orchestrator.py:222-231 | checkpointing a new contract id with its arguments keeps the invariant |
| DeploymentSafety.KeepInitializeReturned | scripts/deployment/orchestrator.py:240-257 | checkpointing an initialized contract keeps the invariant |
| DeploymentSafety.KeepFinish | scripts/deployment/orchestrator.py:259-326 | health checks, verification, publication and removal of the checkpoint keep the invariant |
| DeploymentSafety.KeepStart | scripts/deployment/orchestrator.py:100-144 | a new or resumed run starts in the invariant; a resume needs the same identity, account, network and configuration |
| DeploymentTheorems.PublishedContracts | scripts/deployment/orchestrator.py:146-326 | after any run with any crashes, every published contract runs the recorded artifact, is initialized where its mode asks for it, its arguments were resolved against the published ids, and no two contracts share an id |
| DeploymentTheorems.CheckpointedHashes | scripts/deployment/orchestrator.py:198-231 | at any moment a checkpointed WASM hash is the artifact hash, and a checkpointed id is a network contract running that code |
| DeploymentTheorems.DependencyErrorsUnreachable | scripts/deployment/orchestrator.py:184-194 | the loop never meets a dependency without a recorded id |
| DeploymentTheorems.StepKeepsId | scripts/deployment/orchestrator.py:213-231 | one step keeps a checkpointed id, or has just published it and removed the checkpoint |
| DeploymentTheorems.IdsNeverReplaced | scripts/deployment/orchestrator.py:146-257 | over any number of crashes and resumes a checkpointed id is never replaced |
| DeploymentTheorems.DeployCallsCounted | scripts/deployment/orchestrator.py:213-231 | deploy calls for a contract are exactly the saved one, the one in flight and one for each crash that lost an answer |
| DeploymentTheorems.DeployedAtMostOnce | scripts/deployment/orchestrator.py:213-231 | `deploy_contract` runs at most once per contract plus once per crash between that call and its checkpoint |
| DeploymentTheorems.ResumeRepublishesSameIds | scripts/deployment/orchestrator.py:311-326 | from a complete checkpoint on, resuming makes no upload, deploy or initialize call and republishes the same ids |
| DeploymentTheorems.CrashAfterPublishing | scripts/deployment/orchestrator.py:311-326 | a crash between publishing and unlinking leaves a complete checkpoint with the published ids |
| DeploymentResume.ResumeCompletes | scripts/deployment/orchestrator.py:146-326 | from every reachable state whose checkpoint has missed no initialize call, a resume with unchanged artifacts can finish, keeping every saved id |
| DeploymentResume.ResumeCompletesExactly | scripts/deployment/orchestrator.py:240-257 | crashing and resuming with unchanged artifacts can finish, keeping every saved id, exactly when no contract that the checkpoint takes for deployed only has been initialized on the network |
| DeploymentResume.FinishesExactly | scripts/deployment/orchestrator.py:146-326 | from every reachable state with a checkpoint, some continuation finishes, keeping every saved id, exactly when no contract is blocked |
| DeploymentInitialize.LostAnswerBlocks | scripts/deployment/orchestrator.py:246-257 | a crash between an initialize call and its checkpoint blocks the contract |
| DeploymentInitialize.BlockedForever | contracts/kyc-registry/src/lib.rs:195-197 | a blocked contract refuses every further initialize call: no start, resume, answer or crash publishes anything or removes the checkpoint |
| DeploymentInitialize.InitializeCallsCounted | scripts/deployment/orchestrator.py:240-257 | initialize calls that took effect are exactly the saved one, the one in flight and one for each crash that lost an answer |
| DeploymentInitialize.LostAtMostOnce | scripts/deployment/orchestrator.py:246-257 | at most one answer is ever lost, and then the contract is blocked |
| DeploymentInitialize.InitializedAtMostOnce | contracts/compliance-engine/src/lib.rs:268-271 | within one attempt a contract is initialized at most once |
| DeploymentLoss.LostInitializeNeverPublishes | scripts/deployment/orchestrator.py:240-257 | for every configuration and each of its contracts with an initialize call, a first run ended by one crash after which nothing is ever published |
| DeploymentVerification.PublishedMeansVerified | scripts/deployment/orchestrator.py:295-313 | over every run with any crashes and resumes, whatever is published was written by a process that had a verification succeed before |
| DeploymentVerification.FailedVerificationStops | scripts/deployment/orchestrator.py:303-310 | a failed verification ends the process and changes neither disk nor network |
| DeploymentVerification.FailedVerificationIsRepeated | scripts/deployment/orchestrator.py:303-313 | whatever is published after a failed verification has a later one that succeeded |
| DeploymentVerification.RefusedAnswerStops | scripts/deployment/orchestrator.py:198-257 | a refused upload, deployment, code comparison, initialize call or verification ends the process and changes neither disk nor network |
| DeploymentVerification.PublishedIsChecked | scripts/deployment/orchestrator.py:259-325 | what is published is marked as verified and its health checks mention published contracts only; when the checkpoint is removed the front end has every id under its key |
| DeploymentVerification.FrontendKeepsOthers | scripts/deployment/orchestrator.py:314-324 | keys of the front end that belong to no contract are never touched |
| DependencyOrder.Sorter.Visit | scripts/deployment/models.py:279-291 | a visit places the contract after its dependencies or reports a chain that ends in a real cycle |
| DependencyOrder.Sorter.VisitDependencies | scripts/deployment/models.py:287-288 | the loop of a visit places all dependencies, or reports a cycle |
| DependencyOrder.Sorter.Finish | scripts/deployment/models.py:289-291 | the end of a visit appends the contract and keeps the order valid |
| DependencyOrder.TopologicalOrder | scripts/deployment/models.py:271-295 | with known dependencies it fails exactly when the graph has a cycle and then names one; otherwise it returns each contract once after its dependencies, and an ordered input unchanged |
| DependencyOrder.OrderedMeansAcyclic | scripts/deployment/models.py:271-295 | a graph that has such an order has no cycle |
| DependencyOrder.Validate | scripts/deployment/models.py:225-243 | a configuration passes exactly when names and environment keys are unique, dependencies are known and there is no cycle; the sort then never misses a name |
| DependencyOrder.OrderedContracts | scripts/deployment/models.py:222-246 | a loaded configuration is ordered exactly when it is acceptable: once validated, the sort never fails |
| DependencyOrder.OrderIsOrdered | scripts/deployment/models.py:271-295 | what the sort returns lists each contract once after its dependencies, and every such list is the order of its own graph |
| DeploymentSafety.SortedIsValid | scripts/deployment/orchestrator.py:73 | configurations sorted by the dependency sort form the registry that the deployment theorems start from |
| Leb128.DecodeEncode | scripts/deployment/wasm_interface.py:19-31 | decoding inverts encoding for every natural number and every amount of padding |
| Leb128.EncodeDecode | scripts/deployment/wasm_interface.py:19-31 | only an encoding of a number decodes to it |
| Utf8.DecodeEncode | scripts/deployment/wasm_interface.py:68 | strict UTF-8 decoding inverts encoding |
| Utf8.EncodeDecode | scripts/deployment/wasm_interface.py:68 | only the encoding of a text decodes to it |
| WasmModule.ParseEncoded | scripts/deployment/wasm_interface.py:44-77 | every encoded well-formed module is accepted and read back |
| WasmModule.EncodeParsed | scripts/deployment/wasm_interface.py:44-77 | accepted data is the encoding of the module it is read as |
| WasmModule.SingleExportSection | scripts/deployment/wasm_interface.py:57-58 | with one export section its function names are the ones reported |
| WasmReader.ReadUleb128 | scripts/deployment/wasm_interface.py:19-31 | the bit loop terminates and computes the LEB128 value, or reports truncation exactly when the data ends early |
| WasmReader.ReadExport | scripts/deployment/wasm_interface.py:67-72 | one entry is read as the grammar says, with the same failures |
| WasmReader.ReadExportSection | scripts/deployment/wasm_interface.py:63-77 | the entry loop returns the names of the function exports of the section, or its failure |
| WasmReader.SortNames | scripts/deployment/wasm_interface.py:60 | the result is sorted and has the same names as often |
| WasmReader.WalkSections | scripts/deployment/wasm_interface.py:48-59 | the section loop reports the names of the last export section, or the first failure |
| WasmReader.ExtractFunctionExports | scripts/deployment/wasm_interface.py:34-60 | succeeds exactly on encodings of well-formed modules and then returns their sorted function exports |
| WasmFormat.ReportedAsOften | scripts/deployment/wasm_interface.py:63-77 | a name is reported exactly as often as there are entries of that name with kind byte zero |
| WasmFormat.LastSectionDecides | scripts/deployment/wasm_interface.py:46-59 | the names are those of the last export section |
| WasmFormat.FirstBytes | scripts/deployment/wasm_interface.py:14-16 | a module starts with 00 61 73 6D, and a section with byte seven exactly if it holds exports |
| WasmFormat.DecodedValue | scripts/deployment/wasm_interface.py:19-31 | an integer is read from groups of seven bits, the lowest first, up to the first byte below 128 |
| WasmFormat.DecodeFails | scripts/deployment/wasm_interface.py:23-24 | reading an integer fails exactly when no byte below 128 is left |
| WasmFormat.EncodedLengths | scripts/deployment/wasm_interface.py:68 | one text with characters of one to four bytes in UTF-8 |
| WasmFormat.OrderOfNames | scripts/deployment/wasm_interface.py:60 | names are compared by the first character that differs, a prefix first |
| WasmFormat.EntryFails | scripts/deployment/wasm_interface.py:67-72 | an export entry fails with the error of the first thing that is missing: the length, a name in UTF-8, the kind byte, the index |
| WasmFormat.EntriesFail | scripts/deployment/wasm_interface.py:63-74 | the entry loop fails with the error of the first entry that fails |
| WasmFormat.SectionFails | scripts/deployment/wasm_interface.py:63-77 | an export section fails without a count, at its first bad entry, or if its entries do not end where it does |
| WasmFormat.SectionsFail | scripts/deployment/wasm_interface.py:48-59 | the section loop fails at the first section without a size, past the end of the data, or with bad exports |
| WasmFormat.ModuleFails | scripts/deployment/wasm_interface.py:43-44 | data that is shorter than eight bytes or does not start with the magic number is told from malformed modules |
| WasmFormat.TransferIsReported | scripts/deployment/wasm_interface.py:34-77 | of a module of 31 bytes that exports a function and a memory exactly the function is reported |
| InvoiceContract.InvoiceToken.Invoke | contracts/invoice-token/src/lib.rs:502-531 | a call that fails leaves the contract as it was, whatever its entry point wrote before the failing check; one that succeeds ends in the specified state |
| InvoiceContract.InvoiceToken.TransitionStatus | contracts/invoice-token/src/lib.rs:1351-1381 | the journal and the status are two keys, and after both writes they are one recorded transition |
| InvoiceContract.InvoiceToken.ValidateReference | contracts/invoice-token/src/lib.rs:1439-1449 | an id is refused when empty or blank, and traps when it overruns its buffer |
| InvoiceContract.InvoiceToken.Create | contracts/invoice-token/src/lib.rs:1470-1529 | creation with all its checks ends in the specified record and lists the id, or fails with the specified error |
| InvoiceContract.InvoiceToken.UpdateMeta | contracts/invoice-token/src/lib.rs:378-390 | metadata is replaced only before settlement and after its checks |
| InvoiceContract.InvoiceToken.AppendJournal | contracts/invoice-token/src/lib.rs:452-489 | a custom entry keeps the status and needs a tag and an existing invoice |
| InvoiceContract.InvoiceToken.Issue | contracts/invoice-token/src/lib.rs:494-553 | issuing opens the lifecycle and adds to balance and supply up to the face value |
| InvoiceContract.InvoiceToken.Settle | contracts/invoice-token/src/lib.rs:556-607 | full settlement sets settlement and dust to the face value |
| InvoiceContract.InvoiceToken.PartialSettle | contracts/invoice-token/src/lib.rs:610-665 | a partial settlement of the face value is a full one; the amount becomes settlement and dust |
| InvoiceContract.InvoiceToken.TrySettle | contracts/invoice-token/src/lib.rs:1566-1627 | the batch helper returns an error code instead of panicking and then leaves the state alone |
| InvoiceContract.InvoiceToken.BatchSettle | contracts/invoice-token/src/lib.rs:689-704 | of the first ten items, each result is empty exactly when a single settlement would succeed in the state reached so far |
| InvoiceContract.InvoiceToken.Redeem | contracts/invoice-token/src/lib.rs:707-818 | redemption follows compliance, balance and cap, read from their keys, and then pays out |
| InvoiceContract.InvoiceToken.PayOut | contracts/invoice-token/src/lib.rs:773-818 | the writes of a redemption to five keys leave the specified record, or trap |
| InvoiceContract.InvoiceToken.FinishBurn | contracts/invoice-token/src/lib.rs:834-869 | the shared burn writes and the transition at zero supply |
| InvoiceContract.InvoiceToken.Burn | contracts/invoice-token/src/lib.rs:821-869 | burning follows compliance, balance and supply as specified |
| InvoiceContract.InvoiceToken.BurnFrom | contracts/invoice-token/src/lib.rs:872-936 | a delegated burn spends an unexpired, sufficient allowance first |
| InvoiceContract.InvoiceToken.Approve | contracts/invoice-token/src/lib.rs:1247-1275 | an allowance is replaced by a non-negative amount |
| InvoiceContract.InvoiceToken.MoveTokens | contracts/invoice-token/src/lib.rs:976-1086 | the fee, snapshot, balance and fee writes follow the specification for every aliasing of the three addresses, or report its failure |
| InvoiceContract.InvoiceToken.MoveBalance | contracts/invoice-token/src/lib.rs:1023-1047 | the recipient's balance is read after the debit was written, also when both are one address |
| InvoiceContract.InvoiceToken.CreditFee | contracts/invoice-token/src/lib.rs:1048-1081 | the fee recipient is checked, unless exempt, and credited after sender and recipient were written |
| InvoiceContract.InvoiceToken.Transfer | contracts/invoice-token/src/lib.rs:947-1086 | a transfer passes its checks and then moves tokens as specified |
| InvoiceContract.InvoiceToken.TransferFrom | contracts/invoice-token/src/lib.rs:1089-1245 | a delegated transfer spends the allowance and moves tokens as specified |
| InvoiceContract.ReportNext | contracts/invoice-token/src/lib.rs:699-702 | an item's error code is what the batch helper reports there, and empty exactly when the single call would succeed there |
| InvoiceAnswers.FirstFailedCheckDecides | contracts/invoice-token/src/lib.rs:313-1275 | every entry point fails with the error of the first check in its list that fails, and succeeds exactly when all pass; the lists name the limits, the questions put to registry and compliance, and the overflows that trap |
| InvoiceAnswers.FirstFailedCheckIsReported | contracts/invoice-token/src/lib.rs:1566-1627 | an item of a batch reports the error of the first of its own five checks that fails |
| InvoiceAnswers.FeeExactly | contracts/invoice-token/src/lib.rs:976-988 | the fee is the one number whose ten-thousandfold is at most amount times basis points, and less than one more would be |
| InvoiceAnswers.CapExactly | contracts/invoice-token/src/lib.rs:741-771 | an amount within the balance is within the cap exactly when it is within the stored entitlement or, without one, amount times supply is at most balance times settlement and nothing overflows |
| InvoiceChanges.TransferPays | contracts/invoice-token/src/lib.rs:976-1081 | between three addresses the fee recipient gains the rounded-down fee, the recipient the rest, and the sender loses the amount |
| InvoiceChanges.FeeOfTenThousand | contracts/invoice-token/src/lib.rs:981 | a transfer of 10000 at 250 basis points pays 9750 and 250 |
| InvoiceChanges.SuccessChanges | contracts/invoice-token/src/lib.rs:378-1275 | what each successful call other than creation does to every balance and allowance, the supply, the metadata, the status, the journal and the settlement |
| InvoiceChanges.Creates | contracts/invoice-token/src/lib.rs:1493-1513 | creation stores the metadata and starts supply, status and journal over; balances, allowances, entitlements and dust of the id stay |
| InvoiceChanges.EntryChanges | contracts/invoice-token/src/lib.rs:990-1021 | a transfer of a partially settled invoice fixes the sender's entitlement at the smaller of the old one and its share; a redemption uses it up; nothing else touches any |
| InvoiceChanges.DustChanges | contracts/invoice-token/src/lib.rs:582-810 | the dust is what was settled, less each redemption |
| InvoiceChanges.RisesOnlyIfAllowed | contracts/invoice-token/src/lib.rs:494-1245 | over every run: if an address has more tokens than before, one of the calls between gave it some, and registry or compliance allowed exactly that issue, transfer, fee or negative burn |
| InvoiceChanges.BatchOfTen | contracts/invoice-token/src/lib.rs:689-704 | a batch is the partial settlement of its first ten items in order |
| InvoiceProofs.LifecycleStep | contracts/invoice-token/src/lib.rs:1351-1381 | one call appends at most one entry; a change of status is one recorded step up from the old to the new status |
| InvoiceProofs.FeeBounds | contracts/invoice-token/src/lib.rs:976-988 | with the stored limit on basis points the fee lies between zero and the amount |
| InvoiceProofs.MoveConserves | contracts/invoice-token/src/lib.rs:1023-1081 | debit, credit and fee keep the sum of balances for every aliasing |
| InvoiceProofs.ConservationStep | contracts/invoice-token/src/lib.rs:515-548 | every call other than creation keeps the difference between the balances and the supply, for all amounts |
| InvoiceProofs.CreateConserves | contracts/invoice-token/src/lib.rs:1493-1513 | creation makes that difference the supply that the id had before, so it conserves exactly when nothing was minted under the id |
| InvoiceProofs.NegativeBurnBreaksConservation | contracts/invoice-token/src/lib.rs:834-855 | a negative burn before creation leaves balances that the supply forgets |
| InvoiceSettlement.DriftIsForgotten | contracts/invoice-token/src/lib.rs:1493-1513 | after any run, for all amounts, the balances of an id exceed its supply by exactly what was minted under it before its creation |
| InvoiceSettlement.LifecycleJournaled | contracts/invoice-token/src/lib.rs:1351-1381 | in every reachable state the journal chains from Created to the current status with at most four changes |
| InvoiceSettlement.StatusMonotone | contracts/invoice-token/src/lib.rs:452-489 | later calls only append to the journal and never lower the status |
| InvoiceSettlement.RedeemedIsFinal | contracts/invoice-token/src/lib.rs:812-814 | once redeemed, always redeemed, with zero supply and balances |
| InvoiceSettlement.BalancesPartitionSupply | contracts/invoice-token/src/lib.rs:515-548 | with non-negative issues and burns, balances are non-negative and sum to the supply in every reachable state |
| InvoiceSettlement.IssueKeepsNonNegative | contracts/invoice-token/src/lib.rs:524-533 | an issue keeps balances non-negative exactly when balance plus amount is |
| InvoiceSettlement.BurnAfterRedemption | contracts/invoice-token/src/lib.rs:834-865 | a burn never makes a balance negative, and keeps a redeemed supply at zero exactly for amount zero |
| InvoiceSettlement.NegativeIssueLeavesBalances | contracts/invoice-token/src/lib.rs:494-553 | a negative issue can end the lifecycle with a balance left |
| InvoiceSettlement.TryRefinesSingle | contracts/invoice-token/src/lib.rs:1566-1627 | the batch helper succeeds exactly when the single call does, with the same state |
| InvoiceSettlement.BatchIsRunOfSingles | contracts/invoice-token/src/lib.rs:689-704 | a batch ends where the single calls in order end, failures rolled back, repeated ids included |
| InvoiceLedger.DustLedger | contracts/invoice-token/src/lib.rs:801-810 | in every settled or redeemed state, for all amounts, the dust is the settlement less what was redeemed, saturated; the two add up to the settlement exactly when the difference is at least the least 128-bit number |
| InvoiceLedger.DustSaturates | contracts/invoice-token/src/lib.rs:801-810 | three redemptions of 2^126 units with negative burns between them, after which they no longer add up |
| InvoiceLedger.BalancesOverRun | contracts/invoice-token/src/lib.rs:494-553 | balances are non-negative at every moment of a run exactly when no issue takes its recipient below zero |
| InvoiceLedger.RedeemedOverRun | contracts/invoice-token/src/lib.rs:821-869 | once redeemed with nothing left, supply and balances stay zero exactly when no later burn burns anything other than zero |
| InvoiceSettlement.BackedDust | contracts/invoice-token/src/lib.rs:582-605 | a settlement that covered the supply always leaves at least the supply as dust |
| InvoiceSettlement.FullyBackedRedemption | contracts/invoice-token/src/lib.rs:752-771 | under full backing an amount within the balance is refused as too large exactly when it exceeds a stored entitlement or, without one, when the 128-bit product overflows |
| InvoiceOverdraw.OverflowLocksOut | contracts/invoice-token/src/lib.rs:752-767 | a holder of 2^96 units, all issued and fully settled, can redeem nothing |
| InvoiceOverdraw.ContinueRun | contracts/invoice-token/src/lib.rs:801-810 | without a new settlement write, no continuation lowers what the dust has beyond the supply |
| InvoiceOverdraw.UnbackedOverdraws | contracts/invoice-token/src/lib.rs:707-818 | a sole holder of more than a partial settlement redeems all of it and then one unit more |
| InvoiceFullSettlement.SafeRun | contracts/invoice-token/src/lib.rs:741-818 | from a state without transfers that make anything redeemable, and in which the settlement cannot be overdrawn, no call changes that |
| InvoiceRedeemable.SnapshotUsable | contracts/invoice-token/src/lib.rs:990-1021 | fixing the sender's entitlement before a transfer makes no more of its balance redeemable |
| InvoiceRedeemable.RedeemFree | contracts/invoice-token/src/lib.rs:741-798 | a redemption takes exactly its amount from what can ever be redeemed, and locks and unlocks nobody |
| InvoiceFullSettlement.ImmobileExactly | contracts/invoice-token/src/lib.rs:741-818 | the exact condition where no transfer makes anything redeemable: fully settled invoices, ids that the transfer check refuses, and whole fees for a locked recipient |
| InvoicePartialSettlement.OverdrawnExactlyWhenUncovered | contracts/invoice-token/src/lib.rs:707-1081 | in every reachable partially settled state whose transfer fee is below the whole amount, exactly when the dust does not cover the supply |
| InvoicePartialSettlement.WholeFeeOverdrawsExactly | contracts/invoice-token/src/lib.rs:976-1081 | where every transfer goes to the fee recipient as a whole, exactly when the dust does not cover what can be redeemed there |
| InvoicePartialSettlement.SettledOverdrawsExactly | contracts/invoice-token/src/lib.rs:707-1081 | in every reachable settled state, some continuation without a new settlement overdraws it exactly when the dust does not cover what it must |
| InvoiceFullSettlement.FullySettledOverdrawsExactly | contracts/invoice-token/src/lib.rs:741-818 | in every reachable fully settled state, whoever holds the tokens, some continuation overdraws the settlement exactly when the dust does not cover what is usable and a first unit has been redeemed or can be |
| InvoiceFullSettlement.SoleHolderOverdrawsExactly | contracts/invoice-token/src/lib.rs:741-818 | for a sole holder that condition is that the dust does not cover what the holder can redeem |
| InvoiceFullSettlement.SharedIsNotOverdrawn | contracts/invoice-token/src/lib.rs:752-767 | three holders of one unit each share a settlement of one: nobody can ever redeem more than it |
| InvoiceSettlement.DelegationRefinesTransfer | contracts/invoice-token/src/lib.rs:1089-1245 | a delegated transfer is the owner's transfer plus the spending of a valid allowance, and fails without one |
| InvoiceProRata.SharesBounds | contracts/invoice-token/src/lib.rs:752-765 | rounding all shares down loses less than one unit of supply for each positive balance |
| InvoiceProRata.SharesPartitionSettlement | contracts/invoice-token/src/lib.rs:752-765 | the pro-rata shares of one state sum to at most the settlement and fall short of it by less than the number of holders |
| InvoiceProRata.CapsAreAdjustedShares | contracts/invoice-token/src/lib.rs:741-771 | with any stored entitlements, all caps sum to the shares plus what each entitlement adds to or takes from its holder's share, and stay within the settlement exactly when those adjustments do |
| InvoiceProRata.CapsPartitionSettlement | contracts/invoice-token/src/lib.rs:741-771 | all caps of one state sum to at most the settlement whenever every stored entitlement is at most its holder's share; without stored entitlements they fall short of it by less than the number of holders |
| InvoiceEntitlements.ReachableDivisible | contracts/invoice-token/src/lib.rs:741-767 | every settled state with supply left, reached with non-negative issues and burns and free of overflow, is one of those that the rows above speak about |
| InvoiceEntitlements.TransferMovesCaps | contracts/invoice-token/src/lib.rs:976-1081 | a transfer changes the sum of all caps by rises that can be computed before it, for every aliasing and with fees |
| InvoiceEntitlements.FeelessTransferMovesCaps | contracts/invoice-token/src/lib.rs:990-1047 | without a fee the caps stay within the settlement exactly when the recipient's cap rises by no more than the slack and what the sender's cap gives up |
| InvoiceEntitlements.TransferKeepsCapsExactly | contracts/invoice-token/src/lib.rs:990-1047 | in every reachable state a transfer keeps the caps within the settlement exactly when the computed rises fit the slack |
| InvoiceEntitlements.EntryStep | contracts/invoice-token/src/lib.rs:786-798 | one call never raises a stored entitlement and removes it only by redeeming exactly what is left |
| InvoiceEntitlements.EntryOverRun | contracts/invoice-token/src/lib.rs:1005-1021 | the same over every continuation of every run |
| InvoiceEntitlements.StoredCapsOvershoot | contracts/invoice-token/src/lib.rs:990-1021 | after a half settlement of two holders and one transfer the caps sum to 55 of a settlement of 50 |
| InvoiceEntitlements.UsedUpEntryIsForgotten | contracts/invoice-token/src/lib.rs:786-798 | the holder redeems its whole entitlement, which is then forgotten, and can redeem again |
| CarbonContract.CarbonToken.Mint | contracts/carbon-credit-token/src/lib.rs:383-412 | minting adds to balance and supply after the compliance check |
| CarbonContract.CarbonToken.Transfer | contracts/carbon-credit-token/src/lib.rs:416-443 | a transfer debits and then credits, aliasing included |
| CarbonContract.CarbonToken.FileReceipt | contracts/carbon-credit-token/src/lib.rs:221-251 | the scan for duplicates never hits and the position is appended to the address's entries |
| CarbonContract.CarbonToken.RecordReceipt | contracts/carbon-credit-token/src/lib.rs:507-529 | a receipt is stored at the next position and filed under its beneficiary |
| CarbonContract.CarbonToken.BurnCredits | contracts/carbon-credit-token/src/lib.rs:485-505 | balance and supply fall and the retired total rises by the amount |
| CarbonContract.CarbonToken.Retire | contracts/carbon-credit-token/src/lib.rs:456-534 | a retirement burns and records under its checks |
| CarbonContract.CarbonToken.RetireOnBehalf | contracts/carbon-credit-token/src/lib.rs:543-618 | a retirement for another party needs that party approved and is filed under it; the sign is not checked |
| CarbonContract.CarbonToken.AppendReceipt | contracts/carbon-credit-token/src/lib.rs:631-690 | a receipt is recorded without a burn |
| CarbonContract.CarbonToken.BatchRetire | contracts/carbon-credit-token/src/lib.rs:695-789 | the total is burnt once and one receipt stored per item, none filed |
| CarbonContract.CarbonToken.StoreAll | contracts/carbon-credit-token/src/lib.rs:762-783 | the loop stores the receipts in order or traps when the counter is full |
| CarbonContract.CarbonToken.RecordAllRequests | contracts/carbon-credit-token/src/lib.rs:894-940 | the loop stores, files and numbers every request, or leaves the state alone |
| CarbonContract.CarbonToken.BatchRetireOnBehalf | contracts/carbon-credit-token/src/lib.rs:805-946 | the batch ends in the specified state and returns the serial numbers of consecutive positions |
| CarbonContract.CarbonToken.GetReceipts | contracts/carbon-credit-token/src/lib.rs:967-987 | a page is a slice of the log and its reads never fail |
| CarbonContract.CarbonToken.GetReceiptsByBeneficiary | contracts/carbon-credit-token/src/lib.rs:996-1028 | a page is a slice of the index, resolved in the log; its reads never fail |
| CarbonContract.CarbonToken.GetReceiptsByRetiree | contracts/carbon-credit-token/src/lib.rs:1114-1145 | the page is the first receipts of the retiree from a position on |
| CarbonContract.CarbonToken.VerifyReceipt | contracts/carbon-credit-token/src/lib.rs:1040-1106 | a receipt is valid exactly when it exists with positive amount and time; its serial number is given exactly when it fits its buffer |
| CarbonContract.SliceElements | contracts/carbon-credit-token/src/lib.rs:967-1028 | a page has the entries between its bounds, as far as there are any |
| CarbonContract.OfRetireeExactly | contracts/carbon-credit-token/src/lib.rs:1114-1145 | exactly the receipts of the retiree are listed, each as often as stored, in the order of the log |
| CarbonAnswers.FirstFailedCheckDecides | contracts/carbon-credit-token/src/lib.rs:383-946 | every call fails with the error of the first check in its list that fails, and succeeds exactly when all pass; the lists name the question put to compliance, the error for each denial, the limits and the overflows that trap |
| CarbonAnswers.DeniedLeavesAll | contracts/carbon-credit-token/src/lib.rs:383-431 | a transfer denied from its sender to its recipient, or a mint denied to its recipient, leaves the token as it was, with the error of that denial |
| CarbonAnswers.OneQuestion | contracts/carbon-credit-token/src/lib.rs:383-443 | hosts that give the same answer to that one question let the same transfer or mint through alike |
| CarbonAnswers.SenderIsAsked | contracts/carbon-credit-token/src/lib.rs:419 | a holder that must not send cannot transfer its credits, and can still be given some |
| CarbonAnswers.SuccessChanges | contracts/carbon-credit-token/src/lib.rs:383-946 | what each successful call does to every balance, the supply, the retired total and the log |
| CarbonAnswers.RaisedExactly | contracts/carbon-credit-token/src/lib.rs:383-618 | a call raises a balance exactly when it succeeds and gives the address credits with the approval of compliance |
| CarbonAnswers.RisesOnlyIfAllowed | contracts/carbon-credit-token/src/lib.rs:383-618 | over every run: if an address has more credits than before, one of the calls between gave it some, and compliance allowed exactly that |
| CarbonAnswers.SuccessFiles | contracts/carbon-credit-token/src/lib.rs:221-251 | in every reachable state a call files its receipts under exactly its beneficiaries, or the retiree, and `batch_retire` files none |
| CarbonProofs.CreditsConserved | contracts/carbon-credit-token/src/lib.rs:485-525 | in every reachable state balances sum to supply, supply and retired to minted, and receipts to retired and appended |
| CarbonProofs.DuplicateScanMisses | contracts/carbon-credit-token/src/lib.rs:225-241 | the position of a new receipt is never filed already |
| CarbonProofs.IndexAgreesWithScan | contracts/carbon-credit-token/src/lib.rs:221-251 | in every reachable state the index of an address lists, ascending, exactly its receipts outside `batch_retire` |
| CarbonProofs.IndexIsFullScan | contracts/carbon-credit-token/src/lib.rs:763-779 | the index equals a scan of the whole log exactly when none of the address's receipts came from `batch_retire` |
| CarbonProofs.BatchRetireIsNotIndexed | contracts/carbon-credit-token/src/lib.rs:763-779 | one `batch_retire` leaves the index of its address empty |
| CarbonSigns.BalanceSigns | contracts/carbon-credit-token/src/lib.rs:383-443 | a call keeps all balances non-negative exactly when what its recipient is given does not take it below zero |
| CarbonSigns.RetiredSign | contracts/carbon-credit-token/src/lib.rs:543-618 | a call lowers the retired total exactly when it retires a negative amount on behalf of another |
| CarbonSigns.BalancesOverRun | contracts/carbon-credit-token/src/lib.rs:383-443 | balances are non-negative at every moment of a run exactly when no mint or transfer ever takes its recipient below zero |
| CarbonSigns.RetiredOverRun | contracts/carbon-credit-token/src/lib.rs:583-590 | the retired total never falls between two moments of a run exactly when no call between them retires a negative amount |
| CarbonSigns.SignsOfNonNegativeRun | contracts/carbon-credit-token/src/lib.rs:383-618 | with non-negative amounts balances and the retired total are never negative |
| CarbonSigns.NegativeTransferReverses | contracts/carbon-credit-token/src/lib.rs:416-443 | a negative transfer takes credits from its recipient, whatever the recipient has |
| CarbonSigns.NegativeTransferOverdraws | contracts/carbon-credit-token/src/lib.rs:416-443 | a transfer of minus five on an empty token leaves a balance of minus five |
| CarbonSigns.NegativeRetirementCreates | contracts/carbon-credit-token/src/lib.rs:543-618 | retiring minus five on an empty token creates five credits and a retired total of minus five |
| CarbonBatches.EachIsTotal | contracts/carbon-credit-token/src/lib.rs:832-883 | retiring one by one succeeds exactly when the total is affordable, and then is one burn of the total |
| CarbonBatches.BatchRefinesSingles | contracts/carbon-credit-token/src/lib.rs:805-946 | for all requests and project ids, the batch succeeds and the single calls' own checks pass exactly when the single calls in order succeed and the batch's own checks pass; when both succeed they end in the same state |
| CarbonBatches.RecordAllIsEach | contracts/carbon-credit-token/src/lib.rs:894-940 | the recording pass succeeds exactly when the log and the last serial number have room |
| CarbonBatches.LongProjectFailsBatch | contracts/carbon-credit-token/src/lib.rs:915-919 | with a project id of 139 bytes a request fails in the batch and succeeds alone |
| CarbonBatches.ZeroAmountFailsBatch | contracts/carbon-credit-token/src/lib.rs:832-850 | a request of nothing, and one without a memo, fail in the batch and succeed alone |
| CarbonBatches.CappedBatchPasses | contracts/carbon-credit-token/src/lib.rs:821 | the batch asks compliance about one unit and passes where the single call is denied |
| CarbonBatches.BatchRetireRefinesSingles | contracts/carbon-credit-token/src/lib.rs:695-789 | the same for the other batch, for all items; when both succeed they differ in the index alone |
| CarbonBatches.EmptyBatch | contracts/carbon-credit-token/src/lib.rs:703-733 | the empty batch stores the balance it reads and fails exactly on a negative one |
| Decimal.ValueDigits | contracts/carbon-credit-token/src/lib.rs:1290-1317 | reading printed digits returns the number |
| Decimal.SignedRoundTrip | contracts/carbon-credit-token/src/lib.rs:1323-1355 | reading a printed signed number returns it |
| Decimal.MachineWidths | contracts/carbon-credit-token/src/lib.rs:1294-1331 | the digit buffers are wide enough for their types |
| Decimal.FillDigits | contracts/carbon-credit-token/src/lib.rs:1339-1345 | the right-to-left loop leaves exactly the digits at the end of the buffer |
| Decimal.PrintU32 | contracts/carbon-credit-token/src/lib.rs:1290-1302 | every u32 is printed in decimal |
| Decimal.PrintU64 | contracts/carbon-credit-token/src/lib.rs:1305-1317 | every u64 is printed in decimal |
| Decimal.PrintI128 | contracts/carbon-credit-token/src/lib.rs:1323-1355 | every i128 is printed in decimal, the least one included |
| Decimal.AppendDigits | contracts/carbon-credit-token/src/lib.rs:1079-1096 | the loop that writes digits backwards and reverses them in place prints the same digits, or traps when they do not fit |
| Decimal.PrintSerial | contracts/carbon-credit-token/src/lib.rs:915-933 | a serial is the project id, a dash and the digits, exactly when that fits 139 bytes |
| Decimal.SerialRoundTrip | contracts/carbon-credit-token/src/lib.rs:1079-1097 | a serial determines its project id and its index |
| Decimal.SerialInjective | contracts/carbon-credit-token/src/lib.rs:1079-1097 | different pairs of project id and index have different serials |
| Decimal.SerialFits | contracts/carbon-credit-token/src/lib.rs:1077-1097 | project ids of at most 128 bytes always fit with any 32-bit index |
| Decimal.LaterSerials | contracts/carbon-credit-token/src/lib.rs:1077-1097 | serials do not get shorter as the index grows |
| Decimal.Characters | contracts/carbon-credit-token/src/lib.rs:1079-1097 | digits are 0 to 9 without a leading zero, minus sign and dash are character 45, and a serial is the project id, the dash and the digits |
| Json.ReadEscaped | contracts/carbon-credit-token/src/lib.rs:109-154 | unescaping by section 7 of RFC 8259 returns the field that was escaped |
| Json.EscapeTable | contracts/carbon-credit-token/src/lib.rs:114-152 | the seven short escapes as bytes; other bytes from 32 on are written as they are and other control bytes not at all |
| Json.ObjectRoundTrip | contracts/carbon-credit-token/src/lib.rs:1212-1235 | a JSON reader returns the members of a printed object in order |
| Certificate.WriteEscape | contracts/carbon-credit-token/src/lib.rs:114-152 | one byte is written escaped, and traps exactly for control bytes without a short form |
| Certificate.WriteJsonEscaped | contracts/carbon-credit-token/src/lib.rs:109-154 | a field is written escaped, or traps exactly when it is longer than 128 bytes or holds such a byte |
| Certificate.ToCertificateJson | contracts/carbon-credit-token/src/lib.rs:1155-1236 | the printed text is the JSON object of the certificate, exactly when all fields print; the 8192-byte buffer is never overrun |
| Certificate.CertificateRoundTrip | contracts/carbon-credit-token/src/lib.rs:1155-1236 | reading a certificate returns every field |
| Certificate.CertificateSpelled | contracts/carbon-credit-token/src/lib.rs:1212-1235 | the text of a certificate, character by character around its fields |
| Certificate.PrintsExactly | contracts/carbon-credit-token/src/lib.rs:109-154 | a certificate prints exactly when its six texts have at most 128 bytes, none a control byte without a short escape |
| Certificate.CertificateInjective | contracts/carbon-credit-token/src/lib.rs:1155-1236 | different certificates have different texts |
| CarbonCertificates.EveryReceiptCertified | contracts/carbon-credit-token/src/lib.rs:1155-1236 | every receipt of a run is within the printer's types and has a certificate exactly when the metadata prints and so do the texts that each successful call stored |
| CarbonCertificates.ReceiptIsRead | contracts/carbon-credit-token/src/lib.rs:1155-1236 | a JSON reader gets every field of receipt and project from the certificate, each under its key |
| CarbonCertificates.ControlByteIsNotCertified | contracts/carbon-credit-token/src/lib.rs:141-147 | a retirement with a reason of one control byte is accepted and its receipt has no certificate |
| CarbonCertificates.LongReasonIsNotCertified | contracts/carbon-credit-token/src/lib.rs:695-789 | a batch accepts a reason of 129 bytes, and its receipt has no certificate |
| MemberLists.MemberList.Add | contracts/compliance-engine/src/lib.rs:469-498 | a new member gets the next slot |
| MemberLists.MemberList.Remove | contracts/compliance-engine/src/lib.rs:510-560 | the scan finds the slot without a failing read, and the last member takes it |
| MemberLists.MemberList.GetPage | contracts/compliance-engine/src/lib.rs:590-610 | a page is the slice of the members between its bounds |
| MemberLists.MemberList.Migrate | contracts/compliance-engine/src/lib.rs:1600-1631 | the migration loop appends the legacy addresses that are missing |
| MemberLists.MemberList.FlagMeansOneSlot | contracts/compliance-engine/src/lib.rs:469-608 | a flag is set exactly when the address sits in one slot below the size, and nothing is stored beyond |
| MemberLists.RemovedElements | contracts/compliance-engine/src/lib.rs:523-560 | swap-removal takes out exactly the address and keeps the others distinct |
| MemberLists.MigratedElements | contracts/compliance-engine/src/lib.rs:1599-1667 | the migrated list starts with the old one and holds exactly the union with the legacy list, each address once |
| MemberLists.PagesConcatenate | contracts/compliance-engine/src/lib.rs:590-610 | consecutive pages concatenate to the list |
| ComplianceContract.ComplianceEngine.constructor | contracts/compliance-engine/src/lib.rs:268-309 | initialization records version 0 of the default rules |
| ComplianceContract.ComplianceEngine.WritePolicyRecord | contracts/compliance-engine/src/lib.rs:1670-1745 | a record is appended unless it repeats the last one |
| ComplianceContract.ComplianceEngine.GetPolicyHistory | contracts/compliance-engine/src/lib.rs:1313-1333 | a page is a slice of the history |
| ComplianceContract.ComplianceEngine.SetRules | contracts/compliance-engine/src/lib.rs:399-412 | validated rules take effect and are recorded |
| ComplianceContract.ComplianceEngine.ProposeRules | contracts/compliance-engine/src/lib.rs:343-370 | a described, validated proposal is stored with its earliest activation time |
| ComplianceContract.ComplianceEngine.ActivateRules | contracts/compliance-engine/src/lib.rs:374-396 | the pending rules take effect once their time has come |
| ComplianceContract.ComplianceEngine.SetPaused | contracts/compliance-engine/src/lib.rs:429-465 | pausing and unpausing change that one rule and are recorded |
| ComplianceContract.ComplianceEngine.AppendPolicyRecord | contracts/compliance-engine/src/lib.rs:863-879 | a comment is recorded with the rules in force |
| ComplianceContract.ComplianceEngine.AddToBlocklist | contracts/compliance-engine/src/lib.rs:469-508 | an address is blocked once and the addition recorded |
| ComplianceContract.ComplianceEngine.RemoveFromBlocklist | contracts/compliance-engine/src/lib.rs:510-571 | an address is unblocked and the removal recorded |
| ComplianceContract.ComplianceEngine.AddToAllowlist | contracts/compliance-engine/src/lib.rs:614-665 | a blocked address is refused; others are allowed once and recorded |
| ComplianceContract.ComplianceEngine.RemoveFromAllowlist | contracts/compliance-engine/src/lib.rs:667-729 | an address is removed and the removal recorded |
| ComplianceContract.ComplianceEngine.MigrateLists | contracts/compliance-engine/src/lib.rs:1599-1667 | both legacy lists are moved and cleared |
| ComplianceContract.ComplianceEngine.MigrateSchema | contracts/compliance-engine/src/lib.rs:1516-1558 | migrations are described, sequential and logged; version 2 moves the lists |
| ComplianceContract.ComplianceEngine.UpdateHolderSince | contracts/compliance-engine/src/lib.rs:1188-1207 | only a positive time is written |
| ComplianceContract.ComplianceEngine.CheckLists | contracts/compliance-engine/src/lib.rs:899-933 | pause, blocklist and allowlist checks in order, on the entry flags |
| ComplianceContract.ComplianceEngine.EvaluateTransferInner | contracts/compliance-engine/src/lib.rs:886-1164 | the evaluation ends at the first rule that fails |
| ComplianceAnswers.FirstFailedCheckDecides | contracts/compliance-engine/src/lib.rs:343-1207 | every call fails with the error of the first check in its list that fails, and succeeds exactly when all pass |
| ComplianceAnswers.SuccessChanges | contracts/compliance-engine/src/lib.rs:343-1745 | what each successful call does to the rules in force, the history, the proposal, holders, lists, tier policies, settings and schema |
| ComplianceAnswers.FirstMigration | contracts/compliance-engine/src/lib.rs:1516-1558 | a new engine can be migrated to version 2 only |
| ComplianceProofs.GoodStep | contracts/compliance-engine/src/lib.rs:1670-1745 | every call keeps versions, last record, counters and lists right and extends the history by at most one record |
| ComplianceProofs.HistoryReplays | contracts/compliance-engine/src/lib.rs:1670-1745 | at every time the rules in force are those of the highest version activated by then |
| ComplianceProofs.HistoryOnlyGrows | contracts/compliance-engine/src/lib.rs:1731-1745 | records are never rewritten |
| ComplianceProofs.FirstRecord | contracts/compliance-engine/src/lib.rs:268-309 | every history starts with the record of initialization, with no rule in force |
| ComplianceProofs.PolicyHistory | contracts/compliance-engine/src/lib.rs:1299-1310 | from initialization on versions have no gaps, the last one holds the active rules, none repeats, and the history replays |
| ComplianceProofs.LatestProposal | contracts/compliance-engine/src/lib.rs:343-370 | what is pending was made by the latest successful proposal |
| ComplianceProofs.ActivationInstallsLatest | contracts/compliance-engine/src/lib.rs:374-396 | every activation installs the latest proposal, made at least the delay earlier |
| ComplianceProofs.HolderCap | contracts/compliance-engine/src/lib.rs:1051-1059 | counters equal what is stored, and a positive cap is never exceeded while joins are evaluated and rules validated |
| ComplianceProofs.ActivationAndCap | contracts/compliance-engine/src/lib.rs:374-396 | activation keeps the cap exactly when the proposed cap covers the holders at that time |
| ComplianceProofs.RegistrationAndCap | contracts/compliance-engine/src/lib.rs:1168-1186 | registering keeps the cap exactly when the address is a holder already or there is room |
| ComplianceProofs.CapStepExactly | contracts/compliance-engine/src/lib.rs:374-396 | a call keeps the cap exactly when an activated cap covers the holders and a direct registration has room |
| ComplianceProofs.CapOverRunExactly | contracts/compliance-engine/src/lib.rs:1051-1059 | the cap holds at every moment of a run exactly when every call of it does so |
| ComplianceProofs.HolderCapExactly | contracts/compliance-engine/src/lib.rs:268-309 | the same from initialization on, with no call left out |
| ComplianceProofs.ActivationCanExceedCap | contracts/compliance-engine/src/lib.rs:374-396 | a cap of one proposed early is exceeded when activated after two joins |
| ComplianceDecision.FirstBrokenRuleDecides | contracts/compliance-engine/src/lib.rs:886-1164 | a transfer is denied with a reason exactly when that rule is broken and no earlier one is, and allowed exactly when none is |
| ComplianceDecision.FoundPolicyGoverns | contracts/compliance-engine/src/lib.rs:1076-1102 | the policy found is stored for the most specific pair of tiers that matches - exact, any sender, any recipient, any pair - and none is found exactly when no pair matches |
| ComplianceDecision.ExactPolicyGoverns | contracts/compliance-engine/src/lib.rs:1076-1102 | a policy for exactly the two tiers governs, whatever the wildcards say |
| ComplianceDecision.ExactBlockDenies | contracts/compliance-engine/src/lib.rs:1103-1106 | a blocking one denies unless an earlier rule is broken |
| ComplianceDecision.BlockedPairOverridesAnyPair | contracts/compliance-engine/src/lib.rs:1076-1106 | a blocking policy for one pair against an open one for any pair |
| ComplianceDecision.NewEngineAllows | contracts/compliance-engine/src/lib.rs:268-309 | after initialization, whoever becomes a holder, every transfer between approved parties is allowed |
| ComplianceDecision.AllowNeedsApproval | contracts/compliance-engine/src/lib.rs:815-831 | the full evaluation allows exactly what `can_transfer` allows between two approved parties |
| ComplianceDecision.CanTransferIgnoresKyc | contracts/compliance-engine/src/lib.rs:815-831 | `can_transfer` does not depend on the KYC states of anyone |
| ComplianceDecision.CounterOnlySkips | contracts/compliance-engine/src/lib.rs:1061-1125 | in every reachable state skipping the lookup at counter zero gives the decision of always looking up |
| ComplianceDecision.SmallerAmountsAllowed | contracts/compliance-engine/src/lib.rs:1023-1119 | an allowed amount makes every smaller one allowed |
| ComplianceDecision.LockupAgrees | contracts/compliance-engine/src/lib.rs:1237-1276 | the view says locked exactly when the holding rule denies, except at the last second of a saturated release time |
| ComplianceDecision.SaturatedViewUnlocks | contracts/compliance-engine/src/lib.rs:1237-1276 | a holder registered near 2^64 seconds is shown as unlocked while the rule denies |
| ComplianceDecision.WaitIsLeast | contracts/compliance-engine/src/lib.rs:1237-1276 | the reported wait is the least one after which the rule stops denying |
| ComplianceDecision.DeadlineAgrees | contracts/compliance-engine/src/lib.rs:1039-1049 | the reported deadline is the first moment at which the recipient-side rule denies |
| ComplianceDecision.ReleaseAgrees | contracts/compliance-engine/src/lib.rs:1237-1276 | the reported release time is the first moment at which the sender-side rule no longer denies |

## Left out

- SettledOverdrawsExactly: like the other results on overdrawing, is about runs with non-negative issues and burns, since
  a negative burn gives its holder tokens to redeem at will.
- Authorization, event publishing and storage lifetime extension: host effects; callers are taken to be authorized and
  entries not to expire.
- The KYC registry and the shared token helpers: KYC states, tiers, jurisdictions and compliance answers are arbitrary
  functions of the call. Holder registration by a carbon mint or transfer is `ComplianceModel.Join`.
- Text validators (webhook, currency, document hash, project type, vintage): one flag stands for each group. Invoice ids
  are texts whose characters stand for bytes.
- The contract-level fee recipient role, the webhook setter, paged invoice lists, `present_value` and the metadata and
  version getters: they touch none of the state above.
- The setters of jurisdiction and risk settings are one call that replaces the settings; `evaluate_transfer_risk` and
  `deny_transfer` are not modelled.
- The orchestrator is a step system on values, so that a crash can fall between any two steps; that its record variable
  is a reference into the manifest dictionary shows in the model only as the order of the updates.
- Deployment generations, previous-manifest hashes, timestamps, paths, reports, legacy manifest keys and the field
  comparisons of `verify_manifest`: verification is an arbitrary outcome. Hashes are taken to be injective, atomic file
  writes to be one step, and the network never to hand out an id twice.
- The recursion limit of the interpreter in the dependency sort, and file access in the export reader.
- The sort of the export names is written as an insertion into a sorted list; the order of Python's `sorted` on equal
  names is not observable.
- The SDK, the front end, the TypeScript scripts and the network runner.
