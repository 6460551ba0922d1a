# Kokoro Agent, verified

Models of the parts of the Kokoro Agent service whose logic is hard, and proofs about
them, in Dafny 4.11. `dafny verify dfyconfig.toml` checks everything.

| area | files |
|---|---|
| Canonical peer paths and feature validation | `PeerPaths.dfy`, `Ordering.dfy` |
| Bounded ZIP reader: reader, byte accounting, round trip | `PackageArchive.dfy`, `ArchiveAccounting.dfy`, `ArchiveRoundTrip.dfy` |
| Model-call attempt ledger: transactions, invariants, runs, meaning, repository class | `ModelCallLedger.dfy`, `LedgerSafety.dfy`, `LedgerRuns.dfy`, `LedgerMeaning.dfy`, `LedgerRepository.dfy` |
| Artifact delivery under crashes and takeovers | `StorageDelivery.dfy`, `DeliverySafety.dfy`, `DeliveryOutcome.dfy` |
| Concurrent projection pump | `ProjectionPump.dfy`, `PumpOrder.dfy`, `PumpChannels.dfy`, `PumpSafety.dfy`, `PumpNesting.dfy`, `PumpText.dfy` |
| Chat sequence allocation with concurrent readers | `ChatSequences.dfy`, `ChatSafety.dfy`, `ChatDatabase.dfy` |
| Configuration: tree walk and event projection | `ConfigFile.dfy`, `ConfigProjection.dfy`, `ConfigScalars.dfy`, `ConfigReader.dfy` |
| Resume observation over the checkpoint forest | `ResumeObservation.dfy` |
| Canonical base64url and compact proofs | `Base64Url.dfy` |
| Canonical bindings of platform requests: projection, validator | `PythonText.dfy`, `RequestBinding.dfy`, `RequestFidelity.dfy` |
| Usage schema compiler: dialect, layout, reading it back, whole compiler | `UsageSchema.dfy`, `UsageLexer.dfy`, `UsageLayout.dfy`, `UsageReading.dfy`, `UsageSyntax.dfy`, `UsageCompilation.dfy`, `UsageContract.dfy` |
| Usage schema compiler: what the schema and the generated module mean | `UsageMeaning.dfy`, `UsagePython.dfy`, `UsageEvaluation.dfy`, `UsageExpressions.dfy`, `UsageForms.dfy`, `UsageNodes.dfy`, `UsageLeaves.dfy` |
| Usage schema compiler: fidelity and its exact condition | `UsageFidelity.dfy`, `UsageExactness.dfy`, `UsageConditions.dfy`, `UsageNames.dfy`, `UsageTaken.dfy` |
| Usage schema compiler: when the layout can be read, failing schemas | `UsageScan.dfy`, `UsagePieces.dfy`, `UsageJoints.dfy`, `UsageWidth.dfy`, `UsageWidthLimits.dfy`, `UsageCut.dfy`, `UsageLimits.dfy` |
| Token single flight and credential high-water marks | `TokenFlights.dfy`, `TokenSafety.dfy`, `TokenProvider.dfy` |

How the models are built:

- Code that updates variables in a loop is a method with a loop, proved against a
  specification function or a property. Code that changes an object in place is a class.
- A protocol with several actors is a state machine. Each await, or each SQL statement
  where transactions interleave, is a step of its own; schedules, crashes, clock readings,
  file contents and the answers of other services are arbitrary. The ledger's transactions
  are single steps.
- Uninterpreted operations are parameters: UTF-8 and NFC, CRC-32 and inflate (in
  `PackageArchive.Codec`), the signature check (in `Base64Url.VerifySigned`). A digest that
  the code uses as an identity is modelled by the value digested.
- Instants in the ledger are integers: clock readings in microseconds, rows in
  milliseconds, rounded as the `TIMESTAMPTZ(3)` columns round (`database/schema.sql`).

Nine findings, each with an exact condition and a concrete input. The failing definitions of
the usage compiler are added to an arbitrary schema that it accepts, such as the repository's
own `contract/usage/v2/schema.json`:

- A tree whose stored content contains bytes that pass the end-record test is refused when
  it is written and read back. `ArchiveRoundTrip.RoundTrip` and `ArchiveRoundTrip.ForeignEnd`
  give the condition, `ArchiveRoundTrip.EmbeddedEndRefused` a tree.
- Terminal closure can fail for an attempt prepared or dispatched in the second half of the
  current millisecond: the stored instant is rounded up, the closing instant truncated.
  `LedgerSafety.TerminateSucceeds` gives the condition,
  `LedgerMeaning.RoundedTimeBlocksClosure` a reachable ledger, and
  `LedgerMeaning.ClosureSucceedsSoon` shows that half a millisecond later it succeeds.
- The evidence validators accept a document with known token totals under an unknown
  outcome or an unsupported profile, and the evidence table's CHECK then refuses the row.
  `LedgerMeaning.TableRefusesUnclassified` shows that these are exactly the refused ones,
  `LedgerMeaning.UnclassifiedRefused` gives a reachable ledger and such a document.
- The HTTP projection takes the word null in any case for null, the tree only three
  spellings of it. `ConfigScalars.SettingTypes` gives the condition,
  `ConfigScalars.OddNullExists` the spelling `nULL`.
- The usage compiler writes a character outside the basic plane as two `\u` escapes, which
  Python reads as two surrogates, so the generated literal refuses the constant it should
  accept. `UsageLeaves.LiteralsFaithful` gives the condition,
  `UsageLimits.AstralConstantRefused` and `UsageLimits.AstralPatternRefused` instances.
- It joins the branches of a union with the operator that Python evaluates on import, and
  that operator raises when its first two operands are both `None`.
  `UsageConditions.UnionSplit` and `UsageNames.ImportsExactly` give the condition,
  `UsageLimits.TwoNullsRaise` a definition.
- Its layout wraps an argument that is too wide and has no bracket in parentheses, which is
  no Python when the argument is a keyword one. `UsageWidthLimits.StringNarrow` gives the
  condition for strings, `UsageWidthLimits.LongPatternUnreadable` shows that 71 letters are
  too many.
- The layout breaks an expression at its first bracket, also one inside a quoted constant of
  a union. `UsageJoints.UncutDecides` gives the condition, `UsageCut.CutLiteralUnreadable` a
  definition.
- A definition may take a name the annotations use (`str`, `list`, `Literal`, `Annotated`,
  `Field`, `bool`, `AfterValidator`) or the validators use (`len`, `int`, `re`, `datetime`)
  and then replaces it. `UsageNames.GeneratedAcceptsWhatConforms` needs only that no later
  node uses such a name. Where one does, `UsageExactness.FaithfulExactly` says when the
  module is faithful all the same, `UsageTaken` reads that off name by name, and
  `UsageLimits.TakenNameRefuses` and `UsageLimits.TakenCheckNameRefuses` give failing
  definitions for each.

Also worth knowing: `LedgerMeaning.LabelMeaning` shows that a run is labelled complete only
when none of its attempts was dispatched; a dispatched attempt is partial at best.

## Model

| member | source | states |
|---|---|---|
| `PeerPaths.ReachableAgents` | src/kokoro_agent/features/definition.py:55-63 | The growing set stops at exactly the agents that some walk of handoffs from the entry reaches. |
| `PeerPaths.ValidateFeature` | src/kokoro_agent/features/definition.py:22-69 | A feature is accepted if and only if it is structured and every agent is reachable; a refusal names the first check, in the order they are made, that the input fails, and for handoffs the first bad one. |
| `PeerPaths.CheckReachable` | src/kokoro_agent/features/definition.py:55-69 | The reachability check succeeds exactly when all agents are reachable and otherwise lists, sorted, exactly the unreachable ones. |
| `PeerPaths.ClosedSetContainsWalks` | src/kokoro_agent/features/definition.py:55-63 | A set that contains the entry and is closed under handoffs contains every walk. |
| `PeerPaths.SingleAgentReachable` | src/kokoro_agent/features/definition.py:55-55 | Skipping the check for a single agent is sound: it is the entry and reachable. |
| `PeerPaths.SortedAdjacency` | src/kokoro_agent/execution/runtime_profile_plan.py:391-395 | The adjacency lists have every agent as a key, hold exactly its handoff targets, and are each in ascending order. |
| `PeerPaths.CanonicalPeerPaths` | src/kokoro_agent/execution/runtime_profile_plan.py:389-414 | The search terminates and gives each agent the least walk from the entry, by length and then lexicographically, over all walks; for an accepted feature the final error is never raised. |
| `PeerPaths.ExpandPath` | src/kokoro_agent/execution/runtime_profile_plan.py:399-409 | One expansion of a frontier path keeps the search invariant and assigns or queues only what it must. |
| `PeerPaths.BeforeTotal` | src/kokoro_agent/execution/runtime_profile_plan.py:403-406 | Comparing (length, path) pairs is a strict total order on walks. |
| `PeerPaths.EarlierWalksSettled` | src/kokoro_agent/execution/runtime_profile_plan.py:398-410 | When the search is at a path, every walk before it already has its end assigned. |
| `PeerPaths.FirstAssignmentLeast` | src/kokoro_agent/execution/runtime_profile_plan.py:401-409 | The first path assigned to an agent is already its least walk. |
| `PeerPaths.NeverOverwritten` | src/kokoro_agent/execution/runtime_profile_plan.py:402-408 | An assigned path is never replaced: the comparison always continues for a known target. |
| `PeerPaths.CanonicalUnique` | src/kokoro_agent/execution/runtime_profile_plan.py:389-414 | The result is determined by the set of handoffs and the entry, so it does not depend on declaration order. |
| `PeerPaths.CanonicalPrefixClosed` | src/kokoro_agent/execution/runtime_profile_plan.py:389-414 | Every prefix of a canonical path is the canonical path of its own last agent. |
| `PeerPaths.CanonicalSimple` | src/kokoro_agent/execution/runtime_profile_plan.py:389-414 | No canonical path visits an agent twice. |
| `PeerPaths.SpliceWalk` | src/kokoro_agent/execution/runtime_profile_plan.py:401-401 | Cutting a cycle out of a walk leaves a walk with the same end. |
| `PeerPaths.BeforeSplice` | src/kokoro_agent/execution/runtime_profile_plan.py:403-406 | A walk with a cycle cut out comes before the original in the search order. |
| `Ordering.SortSorted` | src/kokoro_agent/execution/runtime_profile_plan.py:394-410 | The sort the search relies on returns an ascending sequence for any strict total order. |
| `PackageArchive.CheckExtra` | src/kokoro_agent/infrastructure/package_archive.py:47-59 | The loop over an extra field accepts exactly when the recursive description of tags and sizes does. |
| `ArchiveAccounting.ExtraIsBlocks` | src/kokoro_agent/infrastructure/package_archive.py:47-59 | An extra field is accepted if and only if it is a sequence of blocks with distinct tags, none of them 1 or 0x7075, that fills it exactly. |
| `PackageArchive.Ends` | src/kokoro_agent/infrastructure/package_archive.py:61-65 | The descending scan returns exactly the positions in its range whose comment runs to the end of the file. |
| `ArchiveAccounting.SoleEnd` | src/kokoro_agent/infrastructure/package_archive.py:61-67 | When the scan finds one end record, no other offset of the file passes its test, also outside the scanned range. |
| `PackageArchive.LocateEntry` | src/kokoro_agent/infrastructure/package_archive.py:146-180 | The checks of one entry between its name and its content, in the order they are made, compute the local span or the same error. |
| `PackageArchive.ReadEntry` | src/kokoro_agent/infrastructure/package_archive.py:87-198 | One round of the directory loop is the specified step on cursor, total, names, files and spans. |
| `PackageArchive.WalkDirectory` | src/kokoro_agent/infrastructure/package_archive.py:85-198 | The directory loop is the iterated step. |
| `PackageArchive.CheckTiling` | src/kokoro_agent/infrastructure/package_archive.py:201-207 | The final loop accepts exactly when the sorted spans are chained from 0 to the central directory. |
| `PackageArchive.ReadPackageArchive` | src/kokoro_agent/infrastructure/package_archive.py:30-208 | The whole reader returns what the specification says, on every byte string and with every error. |
| `ArchiveAccounting.AcceptedArchive` | src/kokoro_agent/infrastructure/package_archive.py:61-208 | An accepted archive accounts for each byte once: each byte lies in exactly one local span, central record or the end region, the end record is the only one, each entry ends exactly with its data or with the one descriptor that fits and repeats checksum and sizes, the central, local and content fields agree, the limits hold, and no file lies above another name. |
| `ArchiveAccounting.StepRecord` | src/kokoro_agent/infrastructure/package_archive.py:87-198 | One accepted round describes one record whose central, local, descriptor and content fields agree with each other and the bytes, with the exact end of its local span. |
| `ArchiveAccounting.TreeExtend` | src/kokoro_agent/infrastructure/package_archive.py:125-133 | Adding a name that conflicts with none keeps the tree free of files above other names. |
| `ArchiveAccounting.ListedExtend` | src/kokoro_agent/infrastructure/package_archive.py:193-197 | The file map lists exactly the members of the records followed so far. |
| `ArchiveAccounting.RegionsCover` | src/kokoro_agent/infrastructure/package_archive.py:199-207 | Chained local spans and central records together cover each byte once. |
| `ArchiveAccounting.CoverSort` | src/kokoro_agent/infrastructure/package_archive.py:202-202 | Sorting the spans changes no byte count. |
| `ArchiveRoundTrip.RoundTrip` | src/kokoro_agent/infrastructure/package_archive.py:30-208 | Every well-formed file tree within the limits, written as stored entries, is read back with the same names, contents and flags if no other offset passes the end-record test, and is refused as invalid otherwise. |
| `ArchiveRoundTrip.EmbeddedEndRefused` | src/kokoro_agent/infrastructure/package_archive.py:61-67 | A one-file tree whose content contains an end record is refused although it is well formed. |
| `ArchiveRoundTrip.ForeignEnd` | src/kokoro_agent/infrastructure/package_archive.py:61-67 | The archive of a well-formed tree is refused if and only if its entries and records hold, before the end record, a position that passes the end-record test with a comment reaching the end of the payload. |
| `ArchiveRoundTrip.TreeHolds` | src/kokoro_agent/infrastructure/package_archive.py:193-197 | The tree that is read back has each written member under its path. |
| `ArchiveRoundTrip.TreeOnly` | src/kokoro_agent/infrastructure/package_archive.py:193-197 | The tree that is read back has no other member. |
| `ArchiveRoundTrip.NameRead` | src/kokoro_agent/infrastructure/package_archive.py:106-133 | The name checks accept each written name and recover path and kind. |
| `ArchiveRoundTrip.LocalMatched` | src/kokoro_agent/infrastructure/package_archive.py:147-157 | A written local header agrees with its central record. |
| `ArchiveRoundTrip.EntryStepped` | src/kokoro_agent/infrastructure/package_archive.py:86-198 | Reading the next written entry moves the reader from its state before to its state after that entry. |
| `ArchiveRoundTrip.ChainSorted` | src/kokoro_agent/infrastructure/package_archive.py:201-205 | Spans that are chained stay in order when sorted. |
| `LedgerRepository.Repository.constructor` | database/schema.sql:35-39 | A newly claimed run has no attempts, no evidence and zero counters, and is a reached state. |
| `LedgerRepository.Repository.Prepare` | src/kokoro_agent/infrastructure/postgres_model_call_repository.py:618-757 | Preparing an attempt, or replaying it, changes the rows as specified and numbers it one above the largest ordinal of its call; a reached state stays one. |
| `LedgerRepository.Repository.BeginAuthorization` | src/kokoro_agent/infrastructure/postgres_model_call_repository.py:270-331 | Requesting an authorization does exactly its transaction: first request, replay, or conflict; a reached state stays one. |
| `LedgerRepository.Repository.GrantAuthorization` | src/kokoro_agent/infrastructure/postgres_model_call_repository.py:333-384 | Recording a grant does exactly its transaction; a reached state stays one. |
| `LedgerRepository.Repository.StartDispatch` | src/kokoro_agent/infrastructure/postgres_model_call_repository.py:386-438 | Starting a dispatch does exactly its transaction and reports whether it was the first; a reached state stays one. |
| `LedgerRepository.Repository.AppendEvidence` | src/kokoro_agent/infrastructure/postgres_model_call_evidence.py:30-126 | Appending evidence does exactly its transaction, with the replay branch and every refusal; a reached state stays one. |
| `LedgerRepository.Repository.CloseAttempts` | src/kokoro_agent/infrastructure/postgres_model_call_evidence.py:264-321 | The closure loop checks sealed heads and closes open attempts as the specification does, attempt by attempt. |
| `LedgerRepository.Repository.FinalizeTerminal` | src/kokoro_agent/infrastructure/postgres_run_leases.py:395-795 | Committing the terminal state closes every attempt, checks the counters and ends the lease, or leaves every row as it was; a reached state stays one. |
| `LedgerRepository.Repository.Recompute` | src/kokoro_agent/infrastructure/postgres_model_call_evidence.py:162-215 | The cached counters become a full recount. |
| `LedgerRepository.Repository.Renew` | src/kokoro_agent/infrastructure/postgres_run_leases.py:65-90 | A lease is extended only while it is the live one; a reached state stays one. |
| `LedgerRepository.Repository.Pause` | src/kokoro_agent/infrastructure/postgres_run_leases.py:114-133 | Pausing clears the expiry of the live lease; a reached state stays one. |
| `LedgerRepository.Repository.Adopt` | src/kokoro_agent/infrastructure/postgres_run_leases.py:92-112 | A paused run is picked up under the next generation; a reached state stays one. |
| `LedgerRepository.Repository.ReclaimExpired` | src/kokoro_agent/infrastructure/postgres_run_leases.py:135-162 | An expired run is taken over under the next generation; a reached state stays one. |
| `LedgerSafety.PrepareKeepsInv` | src/kokoro_agent/infrastructure/postgres_model_call_repository.py:686-757 | Preparing keeps every row invariant, the counters and the ordinals. |
| `LedgerSafety.NextOrdinal` | src/kokoro_agent/infrastructure/postgres_model_call_repository.py:691-703 | One above the largest ordinal extends the gapless numbering of a call. |
| `LedgerSafety.AppendKeepsInv` | src/kokoro_agent/infrastructure/postgres_model_call_evidence.py:43-122 | Appending keeps the chain, the head fields, the event ids and the counters. |
| `LedgerSafety.SealedChain` | src/kokoro_agent/infrastructure/postgres_model_call_evidence.py:60-122 | A bound row on top of a chain extends it: revisions stay 1..latest and each later one is a valid successor. |
| `LedgerSafety.QuietTransition` | src/kokoro_agent/infrastructure/postgres_model_call_repository.py:284-369 | Transitions that do not recount change nothing that is counted. |
| `LedgerSafety.HeadNeverMissing` | src/kokoro_agent/infrastructure/postgres_model_call_evidence.py:174-183 | A sealed attempt always has its own head row, so the missing-head case of the recount never arises. |
| `LedgerSafety.SealedHeadPasses` | src/kokoro_agent/infrastructure/postgres_model_call_evidence.py:345-413 | The check of a sealed head passes in every reachable state. |
| `LedgerSafety.ClosureBinds` | src/kokoro_agent/model/call_evidence.py:179-242 | The closing document of an open attempt passes its own validation exactly when the stored instants are not after the closing instant. |
| `LedgerSafety.TerminateSucceeds` | src/kokoro_agent/infrastructure/postgres_model_call_evidence.py:245-342 | Closure succeeds if and only if the caller may terminate and no open attempt was stored later than the closing instant. |
| `LedgerSafety.TerminateSeals` | src/kokoro_agent/infrastructure/postgres_model_call_evidence.py:264-342 | The first closure seals every attempt: dispatched ones as unknown, the others as not dispatched, and leaves sealed ones alone. |
| `LedgerSafety.TerminateKeepsInv` | src/kokoro_agent/infrastructure/postgres_model_call_evidence.py:245-342 | Closure keeps the invariant whether it succeeds or fails. |
| `LedgerSafety.SecondClosureChangesNothing` | src/kokoro_agent/infrastructure/postgres_model_call_evidence.py:266-324 | Closing a terminal run again succeeds and writes nothing. |
| `LedgerMeaning.RoundedTimeBlocksClosure` | src/kokoro_agent/model/call_evidence.py:200-200 | In a reachable ledger, a concrete attempt prepared in the same half millisecond as the closure makes it fail, because the database rounds to milliseconds and the closure truncates. |
| `ModelCallLedger.TerminalWritesNothing` | src/kokoro_agent/infrastructure/postgres_model_call_evidence.py:276-279 | Closing a terminal run inserts no row. |
| `LedgerRuns.StepKeepsInv` | src/kokoro_agent/infrastructure/postgres_model_call_repository.py:270-757 | Every transaction and lease movement keeps the invariant, so the cached counters always equal a full recount. |
| `LedgerRuns.RunKeepsInv` | src/kokoro_agent/infrastructure/postgres_model_call_evidence.py:162-215 | Every state of every run satisfies the invariant, as of any later clock reading. |
| `LedgerRuns.ReachedKeepsInv` | src/kokoro_agent/infrastructure/postgres_model_call_evidence.py:162-215 | Whatever rows a repository object holds after any of its methods satisfy every row invariant, and its cached counters equal a full recount; so does the same object at any later clock reading. |
| `LedgerRuns.StepGrows` | src/kokoro_agent/infrastructure/postgres_model_call_evidence.py:60-122 | No step loses or changes an attempt fact or an evidence row, and a terminal ledger is frozen. |
| `LedgerRuns.OnlyThePreparingLeaseAdvances` | src/kokoro_agent/infrastructure/postgres_model_call_repository.py:525-575 | Before closure, an attempt row changes only under the lease that prepared it, while that lease is live. |
| `LedgerRuns.DispatchedOnce` | src/kokoro_agent/infrastructure/postgres_model_call_repository.py:386-438 | Over a whole run at most one dispatch of an attempt is reported as newly started, and later reports name the same instant. |
| `LedgerRuns.DispatchAfterGrant` | src/kokoro_agent/infrastructure/postgres_model_call_repository.py:333-438 | Every dispatch is preceded by a recorded grant of the same request and admission to that attempt. |
| `LedgerRuns.OthersGrantNothing` | src/kokoro_agent/infrastructure/postgres_model_call_repository.py:333-384 | Only recording a grant makes an authorization granted. |
| `LedgerMeaning.ChainKeepsKnowledge` | src/kokoro_agent/model/usage_evidence_v2.py:146-220 | Between any two revisions of an attempt nothing that was known is lost or changed. |
| `LedgerMeaning.ChainIsLinked` | src/kokoro_agent/infrastructure/postgres_model_call_evidence.py:43-122 | Rows of an attempt exist exactly for revisions 1..latest, the first without predecessor, each later one naming the row before it. |
| `LedgerMeaning.AppendedWasDispatched` | src/kokoro_agent/model/call_evidence.py:69-176 | An appended document belongs to a dispatched attempt and never has the outcome not dispatched. |
| `LedgerMeaning.LaterEvidenceResolves` | src/kokoro_agent/infrastructure/postgres_model_call_evidence.py:162-215 | Replacing a head by a valid successor never raises the number of unknown attempts. |
| `LedgerMeaning.LabelMeaning` | src/kokoro_agent/infrastructure/postgres_model_call_evidence.py:199-207 | What each completeness label says about all attempts; complete means that no attempt was dispatched at all. |
| `LedgerMeaning.OrdinalsNumberAttempts` | src/kokoro_agent/infrastructure/postgres_model_call_repository.py:691-703 | The ordinals of a call are exactly 1..n for its n attempts, each used once. |
| `LedgerMeaning.TableConstraintsHold` | database/schema.sql:78-101 | Every row of a reachable ledger meets the CHECK constraints of its table, so no step violates one. |
| `LedgerMeaning.AttemptRowHolds` | database/schema.sql:329-353 | The same for one attempt row: state, times and head columns. |
| `LedgerMeaning.EvidenceRowHolds` | database/schema.sql:379-405 | The same for one evidence row. |
| `LedgerMeaning.TableRefusesUnclassified` | database/schema.sql:391-405 | An append that passes every validation is refused by the table exactly when it has known totals under an unknown outcome or an unsupported profile. |
| `LedgerMeaning.UnclassifiedRefused` | database/schema.sql:391-405 | A ledger that a run of four transactions reaches, with one dispatched attempt, and a document with three known totals under an unknown outcome: it passes every validation and the table refuses it. |
| `LedgerMeaning.TerminalIsFrozen` | src/kokoro_agent/infrastructure/postgres_model_call_repository.py:497-504 | Once a run is terminal no later step changes an attempt, an evidence row or a counter. |
| `LedgerMeaning.ClosureSucceedsSoon` | src/kokoro_agent/infrastructure/postgres_model_call_evidence.py:245-342 | From half a millisecond after the last step on, closure of any reachable run succeeds for whoever may terminate it. |
| `DeliverySafety.StepGrows` | src/kokoro_agent/infrastructure/postgres_run_effects.py:254-318 | Whatever happens next, no recorded delivery fact is lost or changed. |
| `DeliverySafety.JournalOnlyGrows` | src/kokoro_agent/infrastructure/postgres_run_effects.py:254-318 | Across any crashes, retries and lease takeovers the journaled intent only gains stages. |
| `DeliverySafety.RecordKeeps` | src/kokoro_agent/clients/storage_delivery.py:485-521 | After the journal accepted an intent, the publication holds exactly what is recorded. |
| `DeliverySafety.ResumeKeeps` | src/kokoro_agent/clients/storage_delivery.py:207-278 | A recovery goes on only with the journaled intent and its original command. |
| `DeliverySafety.StatusKeeps` | src/kokoro_agent/clients/storage_delivery.py:522-556 | Whatever status the owner reports, the next call of the delivery agrees with the journal. |
| `DeliverySafety.UploadAnswerKeeps` | src/kokoro_agent/clients/storage_delivery.py:567-639 | So does the next step after an answer to a creation, a transfer or a completion. |
| `DeliverySafety.StepKeepsInv` | src/kokoro_agent/clients/storage_delivery.py:440-646 | Every step of every delivery keeps the invariant between local state, journal and calls sent. |
| `DeliverySafety.RunKeepsInv` | src/kokoro_agent/clients/storage_delivery.py:190-646 | The invariant holds over every interleaving of deliveries, crashes and takeovers. |
| `DeliverySafety.StaleDeliveryIsFenced` | src/kokoro_agent/clients/storage_delivery.py:351-390 | A delivery of another generation, or of a lost lease, writes nothing and starts no new call. |
| `DeliverySafety.CompletionsAreJournaled` | src/kokoro_agent/clients/storage_delivery.py:102-338 | Every completion ever sent, by publication or recovery, carries the journaled upload id, source version and command. |
| `DeliverySafety.OneCompletion` | src/kokoro_agent/clients/storage_delivery.py:257-639 | Any two completions of one tool call are the same request. |
| `DeliverySafety.OneCreationOneTarget` | src/kokoro_agent/clients/storage_delivery.py:557-614 | Any two upload creations are the same request, and bytes are only ever put to one upload. |
| `DeliverySafety.SelectionComesFirst` | src/kokoro_agent/clients/storage_delivery.py:607-639 | Nothing is completed, scanned or published before the selected source version is durable. |
| `DeliveryOutcome.OneReceipt` | src/kokoro_agent/clients/storage_delivery.py:674-749 | With an owner that answers equal requests equally, every successful delivery of the tool call reports the same receipt. |
| `DeliveryOutcome.OneArtifact` | src/kokoro_agent/clients/storage_delivery.py:680-748 | Every artifact creation, and every finalization, is the same request. |
| `DeliveryOutcome.RecoveryDelivers` | src/kokoro_agent/clients/storage_delivery.py:190-349 | Once a source version is selected, a recovery alone delivers the artifact, without the workspace and whether or not the upload was completed. |
| `PumpText.EventQueue.PumpText` | src/kokoro_agent/execution/publish_agent_events.py:168-186 | The loop returns the joined text and puts one event per non-empty delta, in order. |
| `PumpText.EventQueue.PumpToolOutput` | src/kokoro_agent/execution/publish_agent_events.py:206-219 | The loop puts the specified output deltas and nothing else. |
| `PumpText.EventQueue.Put` | src/kokoro_agent/execution/publish_agent_events.py:54-54 | Putting appends to the queue. |
| `PumpText.DeltasJoin` | src/kokoro_agent/execution/publish_agent_events.py:168-186 | The text deltas on the wire join to the whole text. |
| `PumpText.OutputIsPrefix` | src/kokoro_agent/execution/publish_agent_events.py:206-219 | What is published of a tool output is its first 4000 characters. |
| `PumpText.CompletionRepeatsDeltas` | src/kokoro_agent/execution/publish_agent_events.py:146-164 | Without a final message the completed frame repeats exactly the deltas before it. |
| `PumpOrder.StepAdvances` | src/kokoro_agent/execution/publish_agent_events.py:87-111 | Any step of the concurrent tasks takes the next event of a channel or none, and a failure only cuts the rest off. |
| `PumpOrder.StepKeepsSingle` | src/kokoro_agent/execution/publish_agent_events.py:94-100 | Concurrent tasks never come to share a channel. |
| `PumpChannels.BracketsAreTraversal` | src/kokoro_agent/execution/publish_agent_events.py:254-265 | The brackets still to come are the depth-first traversal of the subagent tree. |
| `PumpChannels.DownToOwner` | src/kokoro_agent/execution/publish_agent_events.py:87-111 | In the whole tree of tasks a channel of one run is used by that run only. |
| `PumpChannels.RunText` | src/kokoro_agent/execution/publish_agent_events.py:114-165 | The message task of a run produces its text deltas and completions in order. |
| `PumpChannels.RunThinking` | src/kokoro_agent/execution/publish_agent_events.py:189-203 | The reasoning task of a run produces its thinking deltas in order. |
| `PumpChannels.RunTools` | src/kokoro_agent/execution/publish_agent_events.py:222-251 | The tool task of a run produces its tool events in order. |
| `PumpSafety.ActKeepsQueue` | src/kokoro_agent/execution/publish_agent_events.py:70-84 | The publisher takes exactly what was put, in order, and stops at the end mark that is put once. |
| `PumpSafety.WireIsTakenLessDropped` | src/kokoro_agent/execution/publish_agent_events.py:77-84 | The wire is what the publisher took, less exactly the events whose publication failed. |
| `PumpSafety.NothingDropped` | src/kokoro_agent/execution/publish_agent_events.py:77-84 | When no publication fails the wire is everything the publisher took. |
| `PumpSafety.BracketsAreDepthFirst` | src/kokoro_agent/execution/publish_agent_events.py:45-111 | In every schedule the started and finished events taken are a prefix of the depth-first traversal, and all of it when the pump ends without a failure. |
| `PumpSafety.TextInOrder` | src/kokoro_agent/execution/publish_agent_events.py:114-186 | In every schedule the text events of each run of the tree are a prefix of what it produces, and all of it at a regular end. |
| `PumpSafety.ThinkingInOrder` | src/kokoro_agent/execution/publish_agent_events.py:189-203 | The same for thinking events. |
| `PumpSafety.ToolsInOrder` | src/kokoro_agent/execution/publish_agent_events.py:206-251 | The same for tool events. |
| `PumpNesting.StepScoped` | src/kokoro_agent/execution/publish_agent_events.py:254-265 | A step of the tasks emits only events of the run in scope or of an open subagent, and opens and closes brackets accordingly. |
| `PumpNesting.EventsInsideBrackets` | src/kokoro_agent/execution/publish_agent_events.py:254-265 | In every schedule an event of a subagent comes after that subagent's start and before its end. |
| `PumpNesting.OpenMeans` | src/kokoro_agent/execution/publish_agent_events.py:260-265 | A subagent is open exactly when its last bracket so far is a start. |
| `ChatSafety.AllocateKeeps` | src/kokoro_agent/infrastructure/postgres_chat_repository.py:474-513 | Locking the sequence row and taking the next number keeps each scope dense as the transaction sees it. |
| `ChatSafety.InsertKeeps` | src/kokoro_agent/infrastructure/postgres_chat_repository.py:406-437 | Inserting the row under the allocated number keeps density. |
| `ChatSafety.CommitKeepsOther` | src/kokoro_agent/infrastructure/postgres_chat_repository.py:384-513 | A commit touches nothing that another open transaction has locked. |
| `ChatSafety.ActKeepsInv` | src/kokoro_agent/infrastructure/postgres_chat_repository.py:384-513 | Every statement, commit and abort keeps the invariant. |
| `ChatSafety.CommittedNumbersAreDense` | src/kokoro_agent/infrastructure/postgres_chat_repository.py:474-513 | At every moment of every interleaving the committed numbers of a conversation are exactly 1..n for each kind, each once. |
| `ChatSafety.InsertNeverCollides` | src/kokoro_agent/infrastructure/postgres_chat_repository.py:389-437 | An insert never meets a row with its identity or with its number. |
| `ChatSafety.ActGrows` | src/kokoro_agent/infrastructure/postgres_chat_repository.py:384-472 | Committed rows never change and counters never go down. |
| `ChatSafety.PageIsConsecutive` | src/kokoro_agent/infrastructure/postgres_chat_repository.py:283-311 | A page after a number holds the following numbers without a hole. |
| `ChatSafety.ReadPage` | src/kokoro_agent/infrastructure/postgres_chat_repository.py:283-340 | Adding a page to what was read keeps the reader gapless. |
| `ChatSafety.ReaderSeesEachOnce` | src/kokoro_agent/infrastructure/postgres_chat_repository.py:283-340 | A reader that pages by the last number, while transactions come and go, collects rows 1, 2, 3, ... each once. |
| `ChatSafety.CaughtUp` | src/kokoro_agent/infrastructure/postgres_chat_repository.py:283-340 | A reader that gets an empty page has seen every committed row of the conversation. |
| `ChatSafety.SavingAgainChangesNothing` | src/kokoro_agent/infrastructure/postgres_chat_repository.py:393-398 | A transaction that only saves projections already there, interleaved with any others, commits without changing a row or a counter. |
| `ChatSafety.DriftIsRefused` | src/kokoro_agent/infrastructure/postgres_chat_repository.py:602-617 | A projection that contradicts a saved row makes the transaction end without effect. |
| `ConfigProjection.SkipConsumes` | src/kokoro_agent/config_file.py:180-198 | Skipping a value consumes exactly that value's events. |
| `ConfigProjection.SkippedIsValue` | src/kokoro_agent/config_file.py:180-198 | Whatever skipping accepts is the event sequence of one value. |
| `ConfigProjection.ProjectShape` | src/kokoro_agent/config_file.py:201-234 | A projection that succeeds reads the mapping to its end and meets every key once. |
| `ConfigProjection.WalkOutside` | src/kokoro_agent/config_file.py:91-106 | Walking a subtree outside the HTTP paths sets no HTTP setting. |
| `ConfigProjection.ConstructedDistinct` | src/kokoro_agent/config_file.py:91-94 | Constructing a mapping whose keys differ keeps its entries in order. |
| `ConfigProjection.FieldsRefine` | src/kokoro_agent/config_file.py:201-234 | Entry by entry, the projected settings are the HTTP part of the walked ones. |
| `ConfigProjection.ProjectionIsRestriction` | src/kokoro_agent/config_file.py:91-234 | Whenever both readings of a document succeed, the projection equals the tree walk restricted to the HTTP settings. |
| `ConfigScalars.PlainTypes` | src/kokoro_agent/config_file.py:123-143 | The two readings type a plain scalar alike exactly unless it is the word null in a spelling other than `null`, `Null` and `NULL`. |
| `ConfigScalars.SettingTypes` | src/kokoro_agent/config_file.py:123-143 | So a setting of the HTTP service gets the same from both exactly unless it has such a spelling; then the tree sets it to that text and the projection leaves it unset. |
| `ConfigScalars.TypedProjection` | src/kokoro_agent/config_file.py:91-234 | A document of plain scalars without such a spelling, typed by each reading in its own way, is still projected to the HTTP part of the walk. |
| `ConfigReader.Reader.constructor` | src/kokoro_agent/config_file.py:237-244 | A new reader is at the start and has set nothing. |
| `ConfigReader.Reader.Next` | src/kokoro_agent/config_file.py:151-155 | Taking an event advances by one, or reports the early end. |
| `ConfigReader.Reader.SkipValue` | src/kokoro_agent/config_file.py:180-198 | The recursive loops over the iterator consume what the specification says. |
| `ConfigReader.Reader.ProjectValue` | src/kokoro_agent/config_file.py:217-234 | The value of one entry is set, descended into, skipped or refused as specified. |
| `ConfigReader.Reader.ProjectMapping` | src/kokoro_agent/config_file.py:201-234 | The loop over a mapping consumes and sets what the specification says. |
| `ConfigReader.AgentTableOk` | src/kokoro_agent/config_file.py:36-88 | The table in use meets the side conditions: no empty or dotted start, and no other path shares an HTTP environment name. |
| `ResumeObservation.ByParent` | src/kokoro_agent/infrastructure/checkpoint_interactions.py:642-646 | The children map groups the candidates by parent, in order. |
| `ResumeObservation.Walk` | src/kokoro_agent/infrastructure/checkpoint_interactions.py:647-696 | The walk terminates; it returns the unbranched attributed path from the checkpoint and why it stops there, and whether an error lies on it. |
| `ResumeObservation.WalkIsUnique` | src/kokoro_agent/infrastructure/checkpoint_interactions.py:647-696 | There is one such path and one reason to stop. |
| `ResumeObservation.LeafWalkIsEverything` | src/kokoro_agent/infrastructure/checkpoint_interactions.py:647-696 | A walk that ends at a leaf contains every line of descent from the checkpoint. |
| `ResumeObservation.ObserveTasks` | src/kokoro_agent/infrastructure/checkpoint_interactions.py:590-628 | The task loop accepts exactly when every vector is unambiguous and reports whether each matches its plan. |
| `ResumeObservation.ConsumedMeansAppended` | src/kokoro_agent/infrastructure/checkpoint_interactions.py:556-628 | With the plan that was prepared, a task counts as consumed exactly when its vector is the old one with the planned value appended, without error. |
| `ResumeObservation.ObserveGroup` | src/kokoro_agent/infrastructure/checkpoint_interactions.py:583-712 | A group is reported complete exactly when its tasks are consumed and its at most 256 candidates leave one attributed error-free chain that ends idle or at a new pause; a cycle is reported as corrupt. |
| `ResumeObservation.WalkDecides` | src/kokoro_agent/infrastructure/checkpoint_interactions.py:639-706 | The conditions on the chain can be read off the one walk. |
| `ResumeObservation.Observe` | src/kokoro_agent/infrastructure/checkpoint_interactions.py:573-735 | The observation is complete exactly when every group is. |
| `Base64Url.DecodeEncode` | src/kokoro_agent/execution/execution_proof_profile.py:96-136 | Every non-empty byte string survives encoding and decoding. |
| `Base64Url.DecodeMeans` | src/kokoro_agent/execution/execution_proof_profile.py:118-136 | Decoding accepts exactly the encodings of non-empty byte strings, and inverts them. |
| `Base64Url.DecodeAccepts` | src/kokoro_agent/execution/execution_proof_profile.py:118-136 | On the characters: only alphabet symbols, no lone last symbol, no unused bits set. |
| `Base64Url.OctetsOfSextets` | src/kokoro_agent/execution/execution_proof_profile.py:99-99 | Regrouping bytes into symbols and back loses nothing. |
| `Base64Url.SextetsOfOctets` | src/kokoro_agent/execution/execution_proof_profile.py:127-135 | Regrouping symbols into bytes and back gives the same symbols exactly when the unused bits were zero. |
| `Base64Url.SixteenBytes` | src/kokoro_agent/execution_proof_contract.py:55-55 | Decoding to 16 bytes is equivalent to the published identifier pattern. |
| `Base64Url.ThirtyTwoBytes` | src/kokoro_agent/execution_proof_contract.py:56-67 | Decoding to 32 bytes is equivalent to the published key pattern. |
| `Base64Url.JoinSplit` | src/kokoro_agent/execution/execution_proof_signer.py:125-128 | Splitting at dots loses nothing. |
| `Base64Url.AcceptedProof` | src/kokoro_agent/execution/execution_proof_signer.py:115-145 | A proof is accepted if and only if it is the three-part join of the expected header, the expected claims and a valid 64-byte signature, within the size limit. |
| `Base64Url.CompactIsInjective` | src/kokoro_agent/execution/execution_proof_signer.py:125-135 | The join determines its three parts. |
| `TokenFlights.CredentialFile.TakeSnapshotOf` | src/kokoro_agent/clients/platform_credentials.py:75-92 | A snapshot raises all high-water marks or none, and returns the credential of the tenant or fails. |
| `TokenFlights.CredentialFile.constructor` | src/kokoro_agent/clients/platform_credentials.py:69-73 | A new credential file has observed nothing. |
| `TokenSafety.LeaveKeeps` | src/kokoro_agent/clients/platform_tokens.py:102-109 | The final block of a waiting call keeps counts and registrations exact. |
| `TokenSafety.JoinKeeps` | src/kokoro_agent/clients/platform_tokens.py:91-95 | Joining or starting an exchange keeps them exact. |
| `TokenSafety.HappenKeeps` | src/kokoro_agent/clients/platform_tokens.py:82-175 | Every event keeps the flight invariant. |
| `TokenSafety.RegisteredFlightsAreAwaited` | src/kokoro_agent/clients/platform_tokens.py:91-109 | At every moment a registered flight has exactly as many waiters as callers are suspended on it, and at least one. |
| `TokenSafety.OneFlightPerCredential` | src/kokoro_agent/clients/platform_tokens.py:91-95 | Callers waiting for the same credential share one exchange. |
| `TokenSafety.CancelledByLastWaiterOrClosing` | src/kokoro_agent/clients/platform_tokens.py:102-175 | A running exchange is cancelled only by the leaving of its only waiter or by closing. |
| `TokenSafety.ReachedProper` | src/kokoro_agent/clients/platform_tokens.py:82-175 | Whatever a provider object holds after any of its methods has exact waiter counts, one registered flight per credential and returns whose credentials never go back. |
| `TokenSafety.SnapshotRaises` | src/kokoro_agent/clients/platform_credentials.py:75-92 | High-water marks only rise, and a successful snapshot is the mark of its tenant. |
| `TokenSafety.GenerationsNeverGoDown` | src/kokoro_agent/clients/platform_tokens.py:82-101 | In the order of their last credential check, returned tokens of one tenant stand for credentials that never go back, and equal generations for equal credentials. |
| `TokenSafety.ReturnsAreLogged` | src/kokoro_agent/clients/platform_tokens.py:84-101 | Every token a caller got is covered by that order. |
| `ChatDatabase.Chat.Append` | src/kokoro_agent/infrastructure/postgres_chat_repository.py:563-573 | A projection whose message is out of scope makes the transaction fail before it takes a lock; the lock and density invariant is kept. |
| `ChatDatabase.Chat.LockIdentity` | src/kokoro_agent/infrastructure/postgres_chat_repository.py:554-560 | The identity lock is taken exactly when no other open transaction holds it; the lock and density invariant is kept. |
| `ChatDatabase.Chat.FindExisting` | src/kokoro_agent/infrastructure/postgres_chat_repository.py:393-398 | An identity that is already saved is compared, not inserted again, and drift makes the transaction fail; the lock and density invariant is kept. |
| `ChatDatabase.Chat.NextSeq` | src/kokoro_agent/infrastructure/postgres_chat_repository.py:474-513 | The next number is handed out exactly when no other open transaction holds the sequence row; the lock and density invariant is kept. |
| `ChatDatabase.Chat.Insert` | src/kokoro_agent/infrastructure/postgres_chat_repository.py:400-431 | The row carries the allocated number and stays invisible to others; the lock and density invariant is kept. |
| `ChatDatabase.Chat.Commit` | src/kokoro_agent/infrastructure/postgres_chat_repository.py:269-275 | A commit publishes the rows and counters of its transaction and releases its locks; the lock and density invariant is kept. |
| `TokenProvider.PlatformTokens.constructor` | src/kokoro_agent/clients/platform_tokens.py:73-80 | A new provider over an unread credential file is the initial state, and reached. |
| `TokenProvider.PlatformTokens.Token` | src/kokoro_agent/clients/platform_tokens.py:82-97 | A call up to its await: refused when closed, served from the cache, or waiting on one shared exchange; a reached provider stays one. |
| `TokenProvider.PlatformTokens.Resume` | src/kokoro_agent/clients/platform_tokens.py:96-101 | A call after its await returns its token only if the provider is open and the credential is still current; a reached provider stays one. |
| `TokenProvider.PlatformTokens.Finally` | src/kokoro_agent/clients/platform_tokens.py:102-109 | The last waiter unregisters its exchange and cancels it while it runs; a reached provider stays one. |
| `TokenProvider.PlatformTokens.FinishExchange` | src/kokoro_agent/clients/platform_tokens.py:149-167 | An exchange caches its token only for a current credential with more than five seconds left; a reached provider stays one. |
| `TokenProvider.PlatformTokens.Close` | src/kokoro_agent/clients/platform_tokens.py:169-175 | Closing cancels exactly the registered running exchanges; a reached provider stays one. |
| `RequestFidelity.Utf8Order` | src/kokoro_agent/execution/platform_request_binding_values.py:112-118 | Comparing UTF-8 bytes, the order both sides sort sets by, is comparing code points. |
| `RequestFidelity.ProjectedIsValid` | src/kokoro_agent/execution/platform_request_binding_values.py:69-247 | Every projected field passes the check the contract has for its kind. |
| `RequestFidelity.ProjectionsAreTheValidOnes` | src/kokoro_agent/platform_binding_contract.py:300-388 | For every kind but the digest, a JSON member is the projection of some field if and only if it is valid and has no blank set item and no lone surrogate in the names that the validator leaves unchecked. |
| `RequestFidelity.PermutedSet` | src/kokoro_agent/execution/platform_request_binding_values.py:112-118 | Reordering the items of a set field changes neither its projection nor whether it is refused. |
| `RequestFidelity.ProjectionDistinguishes` | scripts/generate_platform_consumer.py:244-276 | Two accepted fields have the same projection exactly when they are equal, up to the order of a set. |
| `RequestFidelity.RequestIsValid` | src/kokoro_agent/platform_binding_contract.py:391-418 | Every binding that is made passes the contract's validator for its method. |
| `RequestFidelity.RequestsDistinguished` | src/kokoro_agent/execution/platform_request_binding.py:30-60 | Two requests of one tenant and method have the same binding if and only if id and all bound fields agree, up to the order of sets. |
| `RequestFidelity.MethodsDistinguished` | src/kokoro_agent/execution/platform_request_binding.py:47-53 | Requests of different methods, tenants or request ids never have the same binding. |
| `UsageLayout.SplitArguments` | src/kokoro_agent/model_usage_v2_contract.py:134-159 | The scanning loop computes the split by the fold over its four variables; `UsageReading.ArgumentsRead` and `UsageScan.ArgumentsOfShown` say what that split means. |
| `UsageReading.ArgumentsRead` | src/kokoro_agent/model_usage_v2_contract.py:134-159 | Splitting any readable text loses no token: its tokens are those of the parts with commas between. |
| `UsageReading.LayoutRestores` | src/kokoro_agent/model_usage_v2_contract.py:162-187 | Undoing the layout of any expression gives its tokens back if and only if the layout is tidy, and fails otherwise. |
| `UsageScan.ArgumentsOfShown` | src/kokoro_agent/model_usage_v2_contract.py:134-159 | Splitting printed arguments gives exactly the arguments that were printed. |
| `UsagePieces.PiecesCut` | src/kokoro_agent/model_usage_v2_contract.py:134-159 | In a union of several bracketed branches, what stands between the first bracket and the last is split into the pieces between the commas of all branches, some of which reach from one branch into the next. |
| `UsageJoints.UncutDecides` | src/kokoro_agent/model_usage_v2_contract.py:162-187 | Such a piece breaks no call, and it breaks a constant if and only if it is too wide where that constant is reached, the constants before it have no bracket, and its last character closes the first bracket of the constant. |
| `UsageWidth.WidthDecides` | src/kokoro_agent/model_usage_v2_contract.py:162-187 | On the expressions the compiler writes, tidiness of the layout is a condition read off the expression: whether its keyword arguments fit the width at the depth where they stand and no constant of a union is broken; and success of the layout is one on its literals and keyword arguments. |
| `UsageSyntax.PrintedReadsBack` | src/kokoro_agent/model_usage_v2_contract.py:162-187 | Printing, laying out and parsing an expression gives it back if and only if the layout is tidy. |
| `UsageExpressions.AnnotationShown` | src/kokoro_agent/model_usage_v2_contract.py:46-131 | The compiler writes exactly the printed form of the node's expression. |
| `UsageExpressions.LiteralValue` | src/kokoro_agent/model_usage_v2_contract.py:98-113 | A dumped text has, as a Python literal, the UTF-16 units of the text as its value. |
| `UsageExpressions.LiteralFaithful` | src/kokoro_agent/model_usage_v2_contract.py:98-113 | That value is the text if and only if no character lies outside the basic plane. |
| `UsageSchema.CompileFields` | src/kokoro_agent/model_usage_v2_contract.py:364-373 | The loop over the fields of a class writes what the specification says of all of them, or refuses. |
| `UsageSchema.CompileDefinition` | src/kokoro_agent/model_usage_v2_contract.py:341-376 | One round of the definition loop writes the specified statement, or refuses. |
| `UsageSchema.Compile` | src/kokoro_agent/model_usage_v2_contract.py:340-376 | The loop over the definitions writes the specified statements in order, each seeing the names before it, or refuses. |
| `UsageEvaluation.UnionEvaluates` | src/kokoro_agent/model_usage_v2_contract.py:55-61 | An annotation evaluates if and only if all its operands do and the first two are not both null, whatever stands at its operands. |
| `UsageEvaluation.UnionAccepts` | src/kokoro_agent/model_usage_v2_contract.py:46-131 | The value of an annotation that evaluates accepts exactly what one of its operands allows, although equal operands are merged. |
| `UsageEvaluation.LoadsExactly` | src/kokoro_agent/model_usage_v2_contract.py:340-376 | Importing the module succeeds if and only if each statement evaluates after those before it. |
| `UsageLeaves.TextReads` | src/kokoro_agent/model_usage_v2_contract.py:99-131 | The annotation of a string node without constant accepts what the names it uses stand for at that place, its dumped constraints and its validators admit together. |
| `UsageLeaves.LiteralsFaithful` | src/kokoro_agent/model_usage_v2_contract.py:92-98 | A compiled literal accepts its own constants, and only these, if and only if none has a character outside the basic plane. |
| `UsageFidelity.NodeFaithful` | src/kokoro_agent/model_usage_v2_contract.py:46-131 | If an annotation evaluates and each of its parts has kept its meaning, it accepts exactly the values that conform to the node, keyword by keyword. |
| `UsageFidelity.DefinitionFaithful` | src/kokoro_agent/model_usage_v2_contract.py:340-376 | So does the alias or class of a definition in an imported module, given the definitions before it. |
| `UsageExactness.ExactIsKept` | src/kokoro_agent/model_usage_v2_contract.py:46-131 | Conversely, an annotation whose parts each accept exactly what they allow has kept the meaning of each part. |
| `UsageExactness.FaithfulExactly` | src/kokoro_agent/model_usage_v2_contract.py:340-376 | For every schema that compiles: the module can be read and imported and each definition and each part of it accepts exactly what the schema allows, if and only if the lines are narrow, each statement evaluates and each part has kept its meaning. |
| `UsageConditions.NullExactly` | src/kokoro_agent/model_usage_v2_contract.py:340-376 | A name evaluates to null if and only if it is `None` or a chain of aliases in the schema leads from it to null. |
| `UsageConditions.UnionSplit` | src/kokoro_agent/model_usage_v2_contract.py:55-61 | An annotation evaluates if and only if its names can be used as they are and no union in it starts with two operands that are null. |
| `UsageNames.ImportsExactly` | src/kokoro_agent/model_usage_v2_contract.py:340-376 | In a schema that uses no name after it was taken, importing succeeds if and only if no union of an alias or a field, at any depth, starts with two operands that are null. |
| `UsageNames.GeneratedAcceptsWhatConforms` | src/kokoro_agent/model_usage_v2_contract.py:340-376 | Whenever a schema compiles, has no keyword argument wider than its line, no constant that is broken, no character outside the basic plane, no union that starts with two nulls and no node that uses a name a definition took before it (or, in a check, took anywhere), the module reads back, can be imported, and each definition accepts a value if and only if it conforms to the schema. |
| `UsageTaken.TakenRaises` | src/kokoro_agent/model_usage_v2_contract.py:76-131 | Where `list`, `Literal` or `Annotated` was taken before a part that subscripts it, or `Field` before a list, the module cannot be imported, in every schema. |
| `UsageTaken.TakenBool` | src/kokoro_agent/model_usage_v2_contract.py:64-66 | A boolean part after a definition that took `bool` keeps its meaning if and only if that definition allows the booleans and nothing else. |
| `UsageTaken.TakenStr` | src/kokoro_agent/model_usage_v2_contract.py:99-131 | A string part after a definition that took `str` keeps its meaning if and only if what that definition allows, under the constraints, is what the part allows. |
| `UsageTaken.OwnNameLost` | src/kokoro_agent/model_usage_v2_contract.py:356-373 | In a class named `bool` or `str` itself, a boolean part or a string part that allows some text has lost its meaning. |
| `UsageTaken.TakenField` | src/kokoro_agent/model_usage_v2_contract.py:99-131 | With `Field` taken and the module imported, a string part loses its constraints, and keeps its meaning if and only if its checks imply them. |
| `UsageTaken.TakenAfterValidator` | src/kokoro_agent/model_usage_v2_contract.py:114-131 | With `AfterValidator` taken and the module imported, a string part loses its checks, and keeps its meaning if and only if its constraints imply them. |
| `UsageTaken.TakenCheckRefuses` | src/kokoro_agent/model_usage_v2_contract.py:313-333 | A check that uses a taken `len`, `int`, `re` or `datetime` refuses every string unless `len` or `int` now calls `bool`; the part keeps its meaning if and only if it allows nothing anyway. |
| `UsageTaken.TakenCheckPasses` | src/kokoro_agent/model_usage_v2_contract.py:313-333 | If they call `bool`, the check passes, and the part keeps its meaning if and only if what is left of its conditions implies it. |
| `UsageContract.Generate` | src/kokoro_agent/model_usage_v2_contract.py:190-377 | The compiler over a list of definitions: the parts that are fixed, the loop, the root; it writes the specified lines or refuses. |
| `UsageContract.AcceptedAppend` | src/kokoro_agent/model_usage_v2_contract.py:218-377 | A schema the compiler accepts stays accepted with one more definition that compiles, and the lines of that definition are added at the end. |
| `UsageLimits.AstralConstantRefused` | src/kokoro_agent/model_usage_v2_contract.py:92-98 | Each accepted schema without `Note`, extended by the constant U+1F600 under that name, is accepted, and the generated definition refuses that constant. |
| `UsageLimits.AstralPatternRefused` | src/kokoro_agent/model_usage_v2_contract.py:100-113 | A pattern with a character outside the basic plane becomes another pattern, and some matching of expressions tells the two apart. |
| `UsageLimits.TwoNullsRaise` | src/kokoro_agent/model_usage_v2_contract.py:55-61 | Each accepted schema without `Note`, extended by a union of null and null under that name, is accepted and can still be read, but importing it raises, although the schema allows null. |
| `UsageLimits.NullPairRaises` | src/kokoro_agent/model_usage_v2_contract.py:55-61 | No schema with an alias for a union that starts with two names for null can be imported. |
| `UsageLimits.TakenNameRefuses` | src/kokoro_agent/model_usage_v2_contract.py:341-348 | For each of the seven names that annotations use and each accepted schema without it, taking the name for null and using it afterwards is accepted, and importing raises or a value that the schema allows is refused. |
| `UsageLimits.TakenCheckNameRefuses` | src/kokoro_agent/model_usage_v2_contract.py:313-333 | The same for the four names that the validators use, with a node that has such a check. |
| `UsageWidthLimits.StringNarrow` | src/kokoro_agent/model_usage_v2_contract.py:99-131 | A string node without constant reads back if and only if each of its length and pattern constraints fits its line eight columns in, or has a bracket, in which case a too wide one is refused by the compiler. |
| `UsageWidthLimits.LongPatternUnreadable` | src/kokoro_agent/model_usage_v2_contract.py:168-170 | Each accepted schema without `Note`, extended by a pattern of letters, is accepted whatever its length, and can be read if and only if it could be before and the pattern has at most 70 letters. |
| `UsageCut.CutLiteralUnreadable` | src/kokoro_agent/model_usage_v2_contract.py:168-177 | Each accepted schema without `Note`, extended by a union of a constant with a bracket and a list, is accepted; the constant is broken in two and the module cannot be read. |

## Left out

- SQL text, connection handling, pydantic row mapping, HTTP, object-store and model clients, metrics, logging and the command line.
- `LedgerRepository.Repository.Prepare`: the checks of the recipe and feature documents before the rows are written are not part of the model, nor are attempt ids of other runs.
- `LedgerRepository.Repository.AppendEvidence`: columns that repeat a field of the evidence document are that field; token counts and profiles other than the one supported source are abstract.
- `LedgerRepository.Repository.FinalizeTerminal`: the outbox, chat, receipts and usage totals committed in the same transaction are not modelled; whether a cancel or quarantine command is authorized is the caller's choice. The order in which attempts are visited is a parameter.
- `LedgerRuns.RunKeepsInv`: clock readings of later transactions are assumed not to be earlier.
- `DeliverySafety.RunKeepsInv`: one tool call of one run; malformed journal text cannot occur because only validated intents are written, so the branches that refuse it are not modelled. The workspace file is a request with arbitrary facts.
- `DeliveryOutcome.OneReceipt`: assumes an owner that names one asset per upload and one artifact per command, as the client does.
- `PumpNesting.EventsInsideBrackets`: subagents are identified by their place in the tree, which is what distinct call ids give; the wire may miss events whose publication failed.
- `PumpSafety.BracketsAreDepthFirst`: a cancelled or raising task may stop at any await; when its siblings stop after that is left open. Payload construction errors are such a failure.
- `ChatSafety.ActKeepsInv`: read-committed isolation is assumed; the run-claim row that the fenced variant also locks is not modelled, and a collision of advisory-lock hashes only adds waiting. The identity and sequence locks are held to the end of the transaction.
- `ConfigProjection.ProjectionIsRestriction`: scalar typing is the same abstract value in both readings; aliases, anchors and merge keys are excluded.
- `ConfigScalars.SettingTypes`: plain scalars without a tag. The projection reads every other one as a document of its own, which is taken to type it as the tree does; texts for which it does not, such as `---`, and tagged or quoted scalars are not modelled.
- `ResumeObservation.Observe`: which checkpoints and interrupts the runtime reports is input; the evidence document that is built from the answer is not modelled.
- `Base64Url.AcceptedProof`: canonical JSON output and Ed25519 itself.
- `TokenSafety.GenerationsNeverGoDown`: the startup validation that sets the marks anew is only the initial state; the token response's format checks are one success or failure.
- `TokenFlights.CredentialFile.TakeSnapshotOf`: reading and parsing the file is one arbitrary result.
- `RequestFidelity.RequestsDistinguished`: takes the digest of raw arguments to be without collisions. The canonical JSON output and the digest of the binding are not modelled, nor are the two requests of the MCP runtime (`src/kokoro_agent/execution/mcp_runtime_request_binding.py`); the kinds of the pinned table are a datatype, and the projector that the generator prints is the function it stands for.
- `UsageContract.Generate`: the version, identity and limits at the top level of the document, its check against the JSON Schema meta-schema, the JSON reader and the module's fixed header are not modelled. That reader refuses a repeated key, which is the condition `UsageFidelity.Distinct`.
- `UsageNames.GeneratedAcceptsWhatConforms`: expressions are read by a tokenizer and parser for the part of Python that annotations use, and evaluated by what `None`, `bool`, `str`, `list`, `Literal`, `Annotated`, `Field`, `AfterValidator` and the operator of unions document; the header line of a class and the blank lines stand for themselves. The validation library is taken to build a validator for every annotation that evaluates, to check strictly, and to match patterns as `re` does; limits of the interpreter (depth of brackets and recursion, digits of integers) are not modelled. Pattern matching, the calendar and the decimal bound are the same arbitrary predicates on both sides. Keys and source text contain no characters outside ASCII where a name or keyword is meant.
- `UsageTaken.TakenField`: an instance of a class that took the name `Field` is taken to have no effect as metadata.
- `UsageWidth.WidthDecides`: whether the layout of a union with several bracketed branches succeeds at all is not read off the expression; only whether what it writes can be read.
