# Verification of the NodeVault artifact index

A Dafny 4.11 model of the durable artifact index of NodeVault and of the algorithms that guard it, with
proofs over whole runs. `dafny verify dfyconfig.toml` checks everything.

## What is modelled

- **The index store and its fenced writer** (`IndexModel`, `Registration`, `StoreSteps`, `StoreObject`,
  `StoreRuns`, `StoreTheorems`, `StoreRules`). Any number of Store processes share one index file. Each holds a copy of the
  whole index and the generation it last saw. `StoreObject` writes the Store's methods as the program does:
  fields updated in place, appends, rollback by truncation; every method is proved equal to a step function
  in `StoreSteps`. `StoreRuns` interleaves those steps with process deaths, power losses and the failure of any
  file operation. The disk is the visible content plus every content a power loss may expose, which is
  everything the path has named since the last successful directory fsync. One inductive invariant carries the
  theorems in `StoreTheorems`. `StoreRules` spells out what one write, save, claim or registration does, and what
  that makes of lifecycle phases and keys over whole runs.
- **Sections of that file under their own operations** (`SharedFile`, `SectionHosts`). For validation requests,
  certification and referrer histories the store is one process's memory, the content it last saw, the file other
  Stores also write, and the contents a crash may bring back. A save is refused, or reloads a file that moved, or
  is renamed and left unsynced, or is synced. `SectionHosts` proves that this is what any one section sees of the
  saves, reloads, restarts and other Stores of the first part.
- **Registration semantics** (`Registration`, `RegistrationRules`). The fixed order of request-id, envelope and
  content checks, decided from the receipts and records on file, and what is on file after an accepted request.
- **Canonical identity** (`ByteOrder`, `CanonicalJson`, `CanonicalSpec`, `CanonicalForm`). Both canonicalizers,
  down to the JSON bytes that are sorted and hashed. The encoder is concrete, proved injective and proved to write a
  text of section 2 of RFC 8259 for each tree; `CanonicalForm` says which field stands under which key and reads
  specs back. Only the hash is taken to be collision-free.
- **Lexical arithmetic and Link headers** (`JsonNumber`, `LinkHeader`, `LinkRules`). The lexical test for the JSON number 2
  against exact decimal values (section 6 of RFC 8259), with Go's 64-bit wrap-around; and the splitter for Link
  fields (section 3 of RFC 8288, quoted-string of section 5.6.4 of RFC 9110), on well written fields and on any others.
- **Referrer search** (`ReferrerWitness`). The budgeted walk over a paginated listing, against any fixed registry.
- **Validation requests and enqueue retry** (`ValidationRequests`, `ValidationHosts`, `RetryBackoff`,
  `EnqueueRetry`, `EnqueueRounds`, `RequestRules`). Every write to a request record, in any order; what survives of it when saves
  fail, other Stores write, memory is reloaded and the process crashes; the backoff arithmetic; and the retry
  loop, whose passes work from snapshots while all of that happens before each of the pass's own operations.
  `RequestRules` lists the allowed moves and what each write leaves on the record.
- **Certification** (`Certification`, `CertificationIntake`, `CertificationHandlers`, `CertificationRules`). The startup retraction pass
  and every later intake, with the same saves, reloads, crashes and other Stores; and handlers side by side, which
  hold the store's lock only for each append, read and write by itself. `CertificationRules` says from the fields of
  the records what certifies and what proof an ACTIVE certification has.
- **Ranking and eviction** (`ReferrerRanking`, `CacheGc`).

`Wrappers` and `Sequences` hold what several of these share.

## How to read it

The modules called Rules state in plain conditions, field by field, what the functions of the others compute, so
that a reader need not trust the functions.

Functions say what one call computes; methods have the loops and the in-place updates of the program and are
proved equal to those functions or against a stated property; lemmas state what holds over several calls or
whole runs. `hide` statements in proofs only keep definitions a proof does not need out of the solver's sight.

Hashes compared for equality are replaced by the contents they identify. Clocks, replies from NodeSentinel,
registry answers and the fate of every file operation are parameters, so each theorem holds for all of them.
Zero is Go's zero time.

## Where the code and its descriptions part

- `cachegc` describes its loop as eviction down to 80% of the watermark. The starting usage is rounded down to
  whole MiB. The loop reaches 80% exactly when no oldest-first prefix leaves an amount above it by no more than
  that rounding dropped (`EightyPercentReachedExactly`, with `RoundingCanStopEarly` as an input), always for a
  usage of whole MiB (`WholeMiBReachesEightyPercent`). For watermarks whose 80-fold does not fit an int64 the
  target itself is wrong (`TargetIsEightyPercentExactly`).
- `backoff` describes a doubling capped at MaxBackoff. One doubling that ends one short of an odd cap is
  rounded up to the cap (`DelayIsDocumentedExactly`, `OddCapOvershoots`).
- A redelivered check record is answered as already recorded even when the save of its first delivery failed.
  What is then answered outlives a crash exactly when the first delivery was answered as stored, or a later save
  of this Store went through, or the process has restarted since, or another Store synced the file once the
  record had reached it (`DuplicateIsDurableExactly`). `RefusedDeliveryIsAnsweredDuplicate` is the family that
  fails, `UnsavedCheckIsAnsweredDuplicate` one of it.
- The intake handler reports "certified" from the check alone, also when the newest scan blocks the image
  (`ReportedCertifiedIsActiveExactly`; `BlockedCheckIsReportedCertified` is such a check).
- The startup retraction leaves every ACTIVE certification proven exactly when each unproven one is the first
  that its own key finds (`RetractionProvesExactly`). Distinct keys are enough, and fully keyed intakes keep them;
  with keyed and legacy records mixed an unproven certification can stay ACTIVE (`MixedKeysEscapeRetraction`).
- An intake that moves a certification to another casHash can leave an ACTIVE catalog entry without one
  (`MovedCertificationOrphansEntry`). It does so exactly when the certification it replaces was the only ACTIVE
  one with its casHash, the new one does not carry that casHash as ACTIVE, and an ACTIVE entry with it is not
  written anew; the intake writes an entry only once its certification is saved (`IntakeKeepsBackedExactly`). So
  can a crash between the two writes of a retraction, and the startup pass does not mend that
  (`RetractionCutShort`). `CatalogIsAlwaysBackedExactly` is the exact condition over whole runs.
- Handlers that overlap can certify from a check that is no longer stored: a scan's handler reads a check whose own
  save failed, a reload drops the check, and the certification is then written and saved
  (`UnsettledReadIsCertified`). Certifications stay proven exactly when each one is proven by the records in memory
  at the moment it is written (`HandlersAreSoundExactly`); it is enough that every check read for a scan has been
  saved (`SettledReadsProve`).
- The startup pass writes only the first catalog entry of a casHash. If a stored catalog repeats one, what is left
  ACTIVE is backed exactly when the later entries were backed as they stood (`CatalogIsBackedExactly`;
  `RepeatedEntryStaysActive` is one that is not).
- The envelope rule is skipped for an empty digest (`EmptyDigestEscapesEnvelopeRule`); `EnvelopeCheckExact` says
  when it admits a request.

## Model

| member | source | states |
|---|---|---|
| StoreTheorems.AcknowledgedIsDurable | pkg/index/store.go:1574-1696 | once any Store answers a registration with success, every content a power loss could expose, at every later moment of every run, is loadable and holds the receipt and exactly the returned record |
| StoreTheorems.AcknowledgementsAgree | pkg/index/store.go:1610-1682 | two successes under one request id, on any Stores and across failures, carried the same version, fingerprint and basis and returned the same record |
| StoreTheorems.EveryIndexWellFormed | pkg/index/store.go:1598-1683 | every content a run can show or expose keeps receipts unique by request id, records unique by casHash, each origin naming its record, one envelope per digest, and every receipt repeating the version, fingerprint and basis of its record's origin |
| StoreTheorems.EnvelopesAgreeFromEmpty | pkg/index/store.go:1781-1823 | from an empty directory, any two records under one digest have originating receipts with the same validation policy and environment hints |
| StoreTheorems.ReceiptsRepeatTheOrigin | pkg/index/store.go:1732-1782 | in every content a run can show, every receipt not exempt as older than versioned writes names the one record with its casHash, and the one receipt under that record's request id has the same known version, fingerprint and basis |
| StoreTheorems.StepCommits | pkg/index/store.go:2000-2100 | one step changes the file by what its answer says and nothing else: a write done is on disk, synced, after its Store's unsaved writes; a registration that adds a receipt or record has added it, after the unsaved writes it entered with, and is synced; a failure has committed the change or nothing of it, by whether the rename went through |
| StoreTheorems.SerialHistory | pkg/index/toolfunction_writer_fence.go:166-193 | no lost update: over every interleaving the file is the serial execution, in step order, of what each answer says its own Store committed |
| StoreTheorems.SerialThroughPowerLoss | pkg/index/store.go:2035-2100 | the same over runs with power losses from a synced file on: the file is the serial execution of a history, every content a power loss may expose is one of a prefix that holds everything committed before the last successful sync, and a power loss cuts the history to such a prefix |
| StoreTheorems.SyncedHistoryIsKept | pkg/index/store.go:2085-2098 | the part of the history before a successful sync is the beginning of every later history, power losses included |
| StoreTheorems.AnsweredWriteIsKept | pkg/index/store.go:2000-2023 | an ordinary write answered with success stays, right after what the file held before it, in the file and in every content any later power loss may expose |
| StoreTheorems.HistoryOnlyGrows | pkg/index/store.go:1654-1682 | while power stays on, each ToolFunction section of the file is a prefix of every later one |
| StoreTheorems.MemoryMatchesFile | pkg/index/store.go:2025-2100 | after any outcome, a Store's ToolFunction sections are those of its recorded generation and the rest of its memory is that generation plus its own unsaved writes |
| StoreTheorems.EpochsDistinct | pkg/index/toolfunction_writer_fence.go:83-140 | no two live Stores ever hold the same write epoch |
| StoreTheorems.FencedChangesNothing | pkg/index/store.go:2000-2012 | a superseded Store leaves the directory as it was on both write paths and acknowledges nothing |
| StoreTheorems.FencedForGood | pkg/index/toolfunction_writer_fence.go:83-140 | fencing is permanent: once the fence is above an epoch, no holder of it ever changes the directory again |
| StoreTheorems.ClaimSupersedes | pkg/index/toolfunction_writer_fence.go:116-140 | a successful claim puts the fence above every epoch handed out before |
| StoreTheorems.DecideSections | pkg/index/store.go:1598-1640 | a registration decision depends on nothing but the three ToolFunction sections |
| StoreRules.PhaseChange | pkg/index/store.go:341-381 | a phase change is accepted for a known entry along pending to active, active to retracted, retracted to active or deleted and nothing else, and sets the phase and its time alone |
| StoreRules.PhasesMoveAlongEdges | pkg/index/store.go:341-349 | every change of any history moves each entry's phase along one of these four edges or leaves it, and never moves or drops an entry |
| StoreRules.DeletedOnlyFromRetracted | pkg/index/store.go:327-349 | whatever the history, an entry found deleted was so from the start, was appended so, or was retracted right before the change that deleted it, and it then stays deleted |
| StoreRules.DeletedWasRetracted | pkg/index/store.go:327-349 | the same for every content any run can show, power losses included |
| StoreRules.KeysUniqueEverywhere | pkg/index/store.go:223-247 | no content any run can show has two entries under one casHash or two image records under one digest and build |
| StoreRules.EntryAppend | pkg/index/store.go:223-247 | an entry is appended exactly under a new, non-empty casHash, with missing times filled in |
| StoreRules.HealthSwap | pkg/index/store.go:514-533 | the health is swapped exactly when the entry still has the expected one, and nothing but it and its time changes |
| StoreRules.ImageAppend | pkg/index/store.go:680-697 | an image record is appended exactly with a digest and once for a digest and build |
| StoreRules.EpochIsVerified | pkg/index/toolfunction_writer_fence.go:83-115 | a Store with an epoch writes exactly while a readable fence of its profile and no newer schema names that epoch and, once it has committed, the file is not of an older schema; which of the failures is reported as fenced |
| StoreRules.EpochIsClaimed | pkg/index/toolfunction_writer_fence.go:116-140 | exactly when a claim succeeds, and then the fence has the next epoch, schema 7, the time of the first activation and of the claim, both files are synced and memory is the file |
| StoreRules.LoadEnds | pkg/index/store.go:1953-1982 | loading replaces memory exactly by a readable, parsable file of no newer schema, and how it fails otherwise |
| StoreRules.SaveEnds | pkg/index/store.go:2000-2100 | exactly when a save succeeds, ends renamed but unsynced, or reloads a file that moved, with the directory and memory each leaves; any other failure leaves the directory as it was |
| StoreRules.WriteEnds | pkg/index/store.go:680-712 | a write is done exactly when accepted and saved; failing before the rename it stays in memory for the next save, but for an image record, which is taken back |
| StoreRules.AdditionEnds | pkg/index/store.go:1654-1682 | a registration that was renamed in marks its Store as a committed writer, and as uncertain if the sync failed; before the rename it leaves no trace |
| StoreRules.RepairEnds | pkg/index/store.go:1685-1696 | an uncertain Store writes its memory again, synced, before it answers, and is certain exactly when that succeeded |
| StoreRules.IncompleteIsRefused | pkg/index/store.go:1577-1580 | an operation without id, version, fingerprint or basis is refused with nothing touched |
| StoreRules.HealthyRegistration | pkg/index/store.go:1574-1683 | when every file operation succeeds, a Store that holds the epoch or can claim one answers by the decision about the index it knows, and what that adds is in the file, synced |
| SectionHosts.SaveIsASectionCommit | pkg/index/store.go:2000-2023 | any save of the whole index, seen through any one section, is that section's commit with one of its outcomes or a reload, and is answered with success exactly when the section's commit is |
| SectionHosts.TheirSaveIsOutside | pkg/index/store.go:2000-2023 | another Store's save is, in any section of this Store, nothing or one content renamed in or synced |
| SectionHosts.TheirRegistrationIsOutside | pkg/index/store.go:1574-1683 | another Store's registration is at most three of these: the claim's sync, a repair and the addition |
| SectionHosts.PowerLossIsARestart | pkg/index/store.go:203-217 | a power loss and a new process that loads and syncs what is left is a restart on one of the section's exposed contents |
| SharedFile.WritingEnds | pkg/index/store.go:2000-2100 | memory, last seen content, file, exposed contents and answer of a section's write, for every fate of its save and every content of another Store met before it |
| StoreRuns.StepKeepsInv | pkg/index/store.go:1953-2100 | every step, with every failure of every file operation, keeps the system invariant |
| StoreRuns.RegisterStage | pkg/index/store.go:1574-1683 | a registration keeps the invariant, and its success is durable at once |
| StoreRuns.RepairStage | pkg/index/store.go:1685-1696 | after a successful repair the file is durable, the flag is cleared and no section has shrunk |
| StoreRuns.SaveStage | pkg/index/store.go:2000-2023 | an ordinary save keeps the invariant of the whole system; when it fails before the rename the directory is as it was |
| StoreRuns.RunKeepsInv | pkg/index/store.go:203-217 | the invariant holds in every state of every run |
| StoreObject.Store.Open | pkg/index/store.go:203-217 | opening loads the file and makes its directory entry durable, or fails |
| StoreObject.Store.Load | pkg/index/store.go:1953-1982 | memory becomes the file, or stays and the reason is returned |
| StoreObject.Store.PersistLocked | pkg/index/store.go:2035-2100 | the new disk and memory for every failure before, at and after the rename |
| StoreObject.Store.EnsureToolFunctionWriterLocked | pkg/index/toolfunction_writer_fence.go:83-140 | the epoch is verified or claimed, with the disk and memory every failure leaves |
| StoreObject.Store.BeginToolFunctionWriteLocked | pkg/index/toolfunction_writer_fence.go:184-193 | an owned epoch and a memory refreshed from a file that moved |
| StoreObject.Store.Save | pkg/index/store.go:2000-2023 | a save of a stale view is refused and reloads; a fenced one changes nothing |
| StoreObject.Store.Append | pkg/index/store.go:223-247 | a refused save leaves the new entry in memory |
| StoreObject.Store.SetLifecyclePhase | pkg/index/store.go:359-381 | the phase moves only along an allowed edge, in memory even if the save is refused |
| StoreObject.Store.CompareAndSetIntegrityHealth | pkg/index/store.go:514-533 | the health is set only if it still has the expected value |
| StoreObject.Store.AppendToolImageRecord | pkg/index/store.go:680-712 | a record that could not be written before the rename is taken back out of memory |
| StoreObject.Store.CheckToolFunctionEnvelopeLocked | pkg/index/store.go:1787-1823 | the loop over the records returns the same objection as the envelope rule |
| StoreObject.Store.RegisterToolFunctionAtomic | pkg/index/store.go:1574-1683 | the method with its appends and truncations is the registration step, answer included |
| Registration.RegistrationKeepsWellFormed | pkg/index/store.go:1634-1682 | every accepted registration keeps the five rules of the index |
| Registration.AcceptedIsOnFile | pkg/index/store.go:1598-1683 | what an accepted request returns is on file once its addition is made |
| Registration.OnFileDecides | pkg/index/store.go:1704-1728 | in any later index the same request replays the stored record unchanged, and the same request id with anything else is a conflict |
| Registration.OnFileTwiceAgrees | pkg/index/store.go:1704-1728 | one request id names one request and one result |
| RegistrationRules.KnownRequest | pkg/index/store.go:1704-1728 | a request id on file is decided by its first receipt: refused as legacy exactly when that is unreadable, as a conflict exactly when version, fingerprint, basis or casHash differ, as inconsistent exactly when the record is missing, and replayed otherwise |
| RegistrationRules.NamelessRecord | pkg/index/store.go:1606-1608 | a record without a casHash is refused whatever is on file, and no other is refused for that |
| RegistrationRules.NewRequest | pkg/index/store.go:1620-1632 | a new id that the envelope rule admits creates exactly when the casHash is not on file; when it is, the record is reused exactly when it is versioned and the receipt under its request id is readable with the same version, fingerprint and basis, and the identity is ambiguous otherwise |
| RegistrationRules.EnvelopeRefuses | pkg/index/store.go:1787-1823 | which refusal a new id gets: its own unreadable basis, or that of the first record under the digest not requested with the same policy and hints, by what is missing |
| RegistrationRules.EnvelopeMeans | pkg/index/store.go:1784-1823 | the envelope rule admits exactly an empty digest, or a readable basis when every record under the digest has a readable origin with the same policy and hints |
| RegistrationRules.ReuseLeaves | pkg/index/store.go:1855-1871 | a reuse adds one receipt with the request's own version, fingerprint, basis and time against the record as it is, and nothing else |
| RegistrationRules.CreationLeaves | pkg/index/store.go:1634-1656 | a creation adds the record with its unset fields filled in and every set one kept, its receipt, and its revision unless one with that id is there |
| RegistrationRules.SecondLabelIsAmbiguous | pkg/index/store.go:1767-1782 | the content of a record on file under a second fingerprint is refused as ambiguous, under the same one reused |
| Registration.EnvelopeCheckFrom | pkg/index/store.go:1787-1823 | the check accepts exactly when no record under the digest objects |
| Registration.EnvelopeCheckExact | pkg/index/store.go:1787-1823 | a request passes the envelope rule exactly when its digest is empty, or its basis is readable and no record under the digest objects |
| Registration.EmptyDigestEscapesEnvelopeRule | pkg/index/store.go:1787-1793 | two records with different policies are both accepted under one digest exactly when that digest is empty |
| Registration.ForeignRequestIdBreaksOrigin | pkg/index/store.go:1634-1640 | a caller that names a foreign request id in the record breaks the origin rule |
| JsonNumber.EqualsTwoExact | pkg/resolve/rawspec.go:123-155 | for every JSON number a Go string can hold, the lexical test is true exactly when its value is 2, exponents beyond an int and wrapping sums included |
| JsonNumber.EveryNumberIsALiteral | pkg/resolve/rawspec.go:123-155 | every text the number grammar of RFC 8259 allows is one of those literals |
| JsonNumber.EveryLiteralIsANumber | pkg/resolve/rawspec.go:123-155 | and each of them is such a text |
| JsonNumber.ValueRule | pkg/resolve/rawspec.go:123-155 | its value: what stands before and behind the point, times the power of ten, signed |
| JsonNumber.DecimalRule | pkg/resolve/rawspec.go:123-155 | each digit is worth its place |
| JsonNumber.PowerRule | pkg/resolve/rawspec.go:123-155 | each power of ten is ten of the one before, negative ones included |
| JsonNumber.NonNumbersRefused | pkg/resolve/rawspec.go:123-155 | any JSON value that is not a number is refused |
| JsonNumber.JsonNumberEqualsTwo | pkg/resolve/rawspec.go:123-155 | the loops compute that lexical test |
| CanonicalSpec.CanonicalV1Exact | pkg/catalog/toolfunction.go:761-829 | two accepted specs have one canonical tree exactly when they are equal up to the order of the nine set-like lists, companions inside reordered ports included |
| CanonicalSpec.RefusedExact | pkg/catalog/toolfunction.go:802-829 | a spec is refused exactly when one of its set-like lists repeats an element |
| CanonicalSpec.CanonicalV0Exact | pkg/catalog/toolfunction.go:835-943 | the replay-only canonicalizer tells any two different specs apart, order and absent messages included |
| CanonicalSpec.IdentityExact | pkg/catalog/toolfunction.go:728-746 | for a collision-free hash, two accepted registrations get one casHash exactly when base, image and spec agree up to set order |
| CanonicalForm.CommandSays | pkg/catalog/toolfunction.go:853-886 | every field of a command stands under its own key, absent exactly when empty, keys ascending |
| CanonicalForm.PortSays | pkg/catalog/toolfunction.go:888-904 | the same for ports |
| CanonicalForm.ParameterSays | pkg/catalog/toolfunction.go:906-920 | the same for parameters |
| CanonicalForm.PolicySays | pkg/catalog/toolfunction.go:922-931 | the same for intermediate file policies |
| CanonicalForm.ExecutionSays | pkg/catalog/toolfunction.go:933-948 | the same for execution environments |
| CanonicalForm.SpecSays | pkg/catalog/toolfunction.go:835-851 | the same for whole specs |
| CanonicalForm.CanonicalV0ReadsBack | pkg/catalog/toolfunction.go:835-948 | a reader written from the key names gets every spec back from its replay-only tree |
| CanonicalForm.CanonicalV1ReadsBack | pkg/catalog/toolfunction.go:761-829 | the tree of an accepted spec is the replay-only tree of that spec with its nine set-like lists sorted, so the same reader gets it back up to their order |
| CanonicalForm.EncodeDenotes | pkg/catalog/toolfunction.go:736-746 | the bytes of a tree are a JSON text for that tree, by the grammar of RFC 8259 |
| CanonicalForm.EscapesAsGo | pkg/catalog/toolfunction.go:736-746 | which characters the encoder writes as they are, by a short escape or by a code, for every character |
| CanonicalForm.DigestPreimages | pkg/catalog/toolfunction.go:728-746 | the exact bytes whose hashes are the tool function digest and the casHash |
| ByteOrder.LessExactly | pkg/catalog/toolfunction.go:802-829 | the order of the set-like lists is decided where two encodings first differ, a prefix coming first |
| CanonicalSpec.SetOfSpec | pkg/catalog/toolfunction.go:802-829 | an accepted list ascends strictly, is a permutation of the input, and acceptance means no repetition |
| CanonicalSpec.SortCanonicalSet | pkg/catalog/toolfunction.go:802-829 | the loop returns the sorted list or refuses at a repetition |
| CanonicalJson.EncodeInjective | pkg/catalog/toolfunction.go:736-746 | different canonical trees have different canonical bytes |
| LinkHeader.PiecesLoseNothing | pkg/registry/checker.go:614-648 | joining the pieces of any field with its separator gives the field back |
| LinkHeader.PiecesAreClosed | pkg/registry/checker.go:614-648 | cuts are exactly the separators outside quotes, angles and escapes, and complete means the last piece ends outside them too |
| LinkHeader.SplitRoundTrip | pkg/registry/checker.go:605-648 | closed parts with a last one that is not blank come back from a join as they went in, with complete true |
| LinkHeader.SplitUnquoted | pkg/registry/checker.go:614-648 | the one-pass loop computes the pieces and the completeness |
| LinkHeader.UnquoteInvertsQuoting | pkg/registry/checker.go:650-674 | unquoting inverts any quoting with backslash escapes, inside any white space |
| LinkHeader.UnquoteParamValue | pkg/registry/checker.go:653-674 | the loop computes the unquoted value |
| LinkHeader.NextRelationRoundTrip | pkg/registry/checker.go:676-701 | parameters are read as naming the next relation exactly when their first rel with a value names it, written as tokens, as quoted strings with anything inside, or without values, with blanks anywhere around them |
| LinkHeader.NoNextExact | pkg/registry/checker.go:531-592 | a listing is finished exactly when every Link field was read to its end and no entry says anything about a continuation |
| LinkHeader.LinkFieldRoundTrip | pkg/registry/checker.go:531-592 | for any list of properly written entries, blanks and token, missing or quoted values included, the walk continues to the first one meant as next, and ends if there is none |
| LinkHeader.NextPageURL | pkg/registry/checker.go:531-592 | the nested loops over fields and entries compute the continuation |
| LinkRules.CharacterRule | pkg/registry/checker.go:614-648 | what each character does in each state of the scanner, on any input, and when a separator cuts |
| LinkRules.SpaceRule | pkg/registry/checker.go:601-648 | the characters that count as white space |
| LinkRules.TrimRule | pkg/registry/checker.go:545-573 | trimming takes all white space off both ends and nothing else |
| LinkRules.ValueRule | pkg/registry/checker.go:653-674 | a value not in quotes is taken as it is; inside quotes each backslash goes and the next character stays, a dangling one goes |
| LinkRules.SpellingRule | pkg/registry/checker.go:650-674 | the spellings a quoted value may have: a backslash before any character, needed before a quote or backslash |
| LinkRules.NextWordRule | pkg/registry/checker.go:682-701 | a value names the next relation exactly when "next" stands in it, in any case, between white space or the ends |
| LinkRules.RelRule | pkg/registry/checker.go:682-701 | a piece is a rel parameter exactly when "rel", in any case and with white space around, stands before its first equals sign |
| LinkRules.FirstRelRule | pkg/registry/checker.go:676-701 | of any pieces the first rel parameter alone decides |
| LinkRules.EntryRule | pkg/registry/checker.go:540-580 | any entry says nothing exactly when its parameters do not declare the next relation; otherwise it advertises its target if it has one and a separator follows, and is malformed if not |
| LinkRules.WalkRule | pkg/registry/checker.go:531-592 | the first entry that declares the next relation decides the walk whatever follows it: followed if it has a target that resolves, unknown otherwise |
| LinkRules.EndRule | pkg/registry/checker.go:531-592 | with no such entry the walk ends exactly when every field was read to its end, and is unknown otherwise |
| ReferrerWitness.YesExactlyForWitnesses | pkg/registry/checker.go:314-452 | positive evidence is exactly a ToolSpec referrer for this entry with its payload present |
| ReferrerWitness.NoExactlyForSettled | pkg/registry/checker.go:314-452 | a descriptor is ruled out exactly when its digest is not the expected one, its decided kind is another, its manifest is confirmed gone or declares another kind without contradicting the listing, or its payload is confirmed gone or names another entry; never on a failed fetch |
| ReferrerWitness.SearchIsSound | pkg/registry/checker.go:200-278 | found only for a witness within the first sixteen pages; absent only after a confirmed 404 or a listing walked to its end in which every descriptor is confirmed not to witness this entry, with no manifest or payload that was needed left unread; so no witness is ever reported absent |
| ReferrerWitness.SearchIsExactWithinBudgets | pkg/registry/checker.go:200-278 | a listing of at most 16 pages and 32 candidates is answered found exactly when it holds a witness and absent exactly when every descriptor in it is confirmed not to be one |
| ReferrerWitness.WitnessInReachIsFound | pkg/registry/checker.go:200-278 | a witness within the first 16 pages whose candidates fit the 32 inspections is found, whatever else fails or follows |
| ReferrerWitness.BrokenListings | pkg/registry/checker.go:231-276 | a 404 for the first page is an absence; a listing that breaks off otherwise or does not end within 16 pages, with no witness in them, is indeterminate |
| ReferrerWitness.FailedFetchIsIndeterminate | pkg/registry/checker.go:397-401 | a listing of one descriptor whose manifest could not be fetched is answered as indeterminate |
| ReferrerWitness.AnsweredBeforeTheWalk | pkg/registry/checker.go:200-222 | what is answered without a walk: absent without an image or subject, indeterminate for an unusable reference or expected digest |
| ReferrerWitness.SpecReferrerWitness | pkg/registry/checker.go:200-278 | the loop computes the search with at most 16 pages and 32 inspections |
| ReferrerWitness.TriagePage | pkg/registry/checker.go:314-374 | the loop collects the candidates of a page and whether any descriptor stays unread |
| ReferrerWitness.ResolveCandidates | pkg/registry/checker.go:378-452 | candidates are fetched in order until one witnesses or the shared budget is gone |
| ValidationRequests.FirstVerdictWins | pkg/index/store.go:1404-1409 | on one ledger, in every ordering of creation, acks, recovery, retries, escalation and results, a request ends Succeeded or Failed exactly as the first terminal result that reached it alive says |
| ValidationRequests.TerminalIsFrozen | pkg/index/store.go:1477-1497 | no operation with any callback writes a terminal record again |
| ValidationRequests.NeverRegresses | pkg/index/store.go:1404-1409 | on one ledger, no run of operations moves a request back, and what an enqueue sends never changes |
| ValidationRequests.VerdictTakesEffect | pkg/index/store.go:1499-1549 | a terminal result that reaches a live request closes it in one critical section, from any live status |
| ValidationRequests.EffectIsLocal | pkg/index/store.go:1416-1549 | every operation acts on the record it names and leaves every other record as it was |
| ValidationRequests.RedeliveryHasNoEffect | pkg/index/store.go:843-862 | on one ledger, at any later point of any run a redelivery is answered as duplicate, or as conflict if its facts differ, and changes nothing |
| RequestRules.MoveRule | pkg/index/store.go:1404-1409 | a transition is accepted exactly along one of thirteen listed moves; refused or for an unknown id it changes nothing |
| RequestRules.AcknowledgementRule | pkg/build/service.go:405-415 | the acknowledgement of a first enqueue is accepted exactly from EnqueuePending or Unavailable and leaves the request Queued with that job and time, the rest as it was |
| RequestRules.RefusalRule | pkg/build/service.go:374-394 | its refusal is accepted exactly from EnqueuePending and leaves the request Unavailable with that reason and one attempt |
| RequestRules.RecoveryRule | pkg/reconcile/enqueue.go:263-275 | a recovery is accepted exactly from EnqueuePending and keeps the attempts |
| RequestRules.RetryAcceptedRule | pkg/reconcile/enqueue.go:349-368 | an accepted retry leaves the request Queued with its job, time and attempt and no reason or next attempt |
| RequestRules.RetryRefusedRule | pkg/reconcile/enqueue.go:380-401 | a refused retry is recorded exactly on an Unavailable request, which stays so |
| RequestRules.GiveUpRule | pkg/reconcile/enqueue.go:290-306 | a request is given up exactly when Unavailable, with reason and time |
| RequestRules.CreationRule | pkg/index/store.go:1308-1328 | a request is created exactly under a new, non-empty id, pending and dated unless it says otherwise |
| RequestRules.ResultRule | pkg/index/store.go:827-862 | a result is stored exactly under a new, non-empty check id and moves the one request it names as its status allows, status by status |
| RequestRules.RepeatedResultRule | pkg/index/store.go:843-862 | a check id on file is a duplicate or a conflict by the facts of the first record under it |
| RequestRules.StoreRule | pkg/index/store.go:1416-1430 | a refused operation touches nothing; an accepted one is written and answered as accepted exactly when the write was synced |
| RequestRules.EndsWithoutResult | pkg/index/store.go:1404-1409 | over any operations a request becomes EnqueueAbandoned only from Unavailable and Interrupted only from Queued or Running, by a transition that asks for it |
| ValidationHosts.FirstVerdictWinsEverywhere | pkg/index/store.go:2000-2023 | whatever saves fail or reload, whoever else writes and whenever the process crashes, memory, the file and every exposed content each show a request closed exactly as the first terminal result of the operations that made that content says |
| ValidationHosts.AcknowledgedProgressStays | pkg/index/store.go:2000-2023 | after any operation answered as stored, no reload, crash, failed save or other Store ever shows any request less far than it was then |
| ValidationHosts.AcknowledgedRedeliveryHasNoEffect | pkg/index/store.go:843-862 | once a delivery was answered as stored, a redelivery after any such events is a duplicate, or a conflict for other facts, and changes nothing |
| ValidationHosts.AcknowledgedVerdictSurvives | pkg/index/store.go:827-838 | a terminal result answered as stored holds in memory, in the file and in every content a crash could bring back, through all later failed saves, reloads, crashes and writes of other Stores |
| ValidationHosts.DuplicateIsDurableExactly | pkg/catalogrest/server.go:559-576 | at any later time, a result answered as duplicate is in every content a crash may bring back exactly when its first delivery was answered as stored, or since then this Store saved, the process restarted, or another Store synced a file that held it |
| ValidationHosts.RefusedDeliveryIsAnsweredDuplicate | pkg/catalogrest/server.go:559-576 | any first delivery whose save is refused is answered as duplicate when it comes again, saves nothing then, and is in no content a crash may bring back |
| ValidationHosts.UnsavedCheckIsAnsweredDuplicate | pkg/catalogrest/server.go:559-576 | the first check of an empty store, so delivered twice |
| ValidationRequests.RequestStore.CreateValidationRequestRecord | pkg/index/store.go:1308-1328 | memory, file, crash contents and answer of a creation, for every fate of its save, a reload included |
| ValidationRequests.RequestStore.TransitionValidationRequest | pkg/index/store.go:1416-1430 | memory, file, crash contents and answer of a transition, for every fate of its save |
| ValidationRequests.RequestStore.UpdateValidationRequestRetryState | pkg/index/store.go:1440-1461 | bookkeeping of an Unavailable request only, its status pinned, for every fate of its save |
| ValidationRequests.RequestStore.AppendToolCheckRecordCorrelated | pkg/index/store.go:827-862 | record and correlation change together or not at all, for every fate of the save |
| EnqueueRounds.NeverStranded | pkg/reconcile/enqueue.go:188-252 | with no re-arm, maxAttempts + 2 passes, each late enough to find the request due, drive every replayable request out of EnqueuePending and Unavailable, whatever is answered and whatever operations land before, during and between the passes |
| EnqueueRounds.NeverStrandedOnHost | pkg/reconcile/enqueue.go:188-252 | the same for the memory of the only Store that writes the file, whichever of its saves are refused or stay unsynced, over rounds of the loop's own passes |
| EnqueueRounds.SendsAreBounded | pkg/reconcile/enqueue.go:319-401 | over any passes, with any writes before, during and between them, a request is sent at most maxAttempts minus its attempts more times, and its count never passes the budget |
| EnqueueRounds.PassOnRecord | pkg/reconcile/enqueue.go:188-252 | one pass from stale snapshots costs a sent request an attempt, brings a due one closer to leaving, and undoes nothing another writer did |
| EnqueueRounds.TurnsOnListed | pkg/reconcile/enqueue.go:188-216 | a listed request is acted on once, from its snapshot, with outside drift before and after |
| EnqueueRounds.ActingTooLate | pkg/reconcile/enqueue.go:349-378 | when a request has moved on since it was listed, the loop's own write is refused and changes nothing |
| EnqueueRounds.SentOnceIfDue | pkg/reconcile/enqueue.go:319-347 | a pass sends a request once if it is due when listed, and not otherwise |
| EnqueueRounds.CrashLeavesItDue | pkg/reconcile/enqueue.go:319-347 | after a crash while a send is in flight, every content a restart may load shows the request moved on by outside writes or waiting where a later pass lists it; if nothing was unsaved when the pass began, it has moved on or is as listed and due again |
| EnqueueRounds.IdsStayUnique | pkg/index/store.go:1308-1328 | no operation makes two requests share an id |
| EnqueueRetry.RetryDue | pkg/reconcile/enqueue.go:188-252 | the two loops over snapshots, with other writers landing before each turn and a context that may be cancelled before any of them, compute the pass or its part, and its sends |
| EnqueueRetry.RetryOne | pkg/reconcile/enqueue.go:319-401 | the reply meets the store as other writers left it during the send |
| EnqueueRetry.PassInMemory | pkg/reconcile/enqueue.go:188-252 | what a pass of the only writing Store does to memory depends on the operations that landed and not on the fate of any save |
| RequestRules.PassRule | pkg/reconcile/enqueue.go:188-252 | what a pass asks for each listed request, from its status, attempts, replay fields, next attempt and age |
| RequestRules.InFlightIsLeftAlone | pkg/reconcile/enqueue.go:241-247 | a pending request no older than the send timeout is left alone |
| RequestRules.RetriesWaitForTheirDelay | pkg/reconcile/enqueue.go:380-420 | after a refused retry nothing is asked for the request until its next attempt, which is the doubled and capped delay later, give or take the jitter |
| RequestRules.SendsAreDueWork | pkg/reconcile/enqueue.go:319-347 | what a pass sends is exactly the due requests it lists, each under its id with all of its recorded work |
| RequestRules.CancelledPassStopsBetweenTurns | pkg/reconcile/enqueue.go:193-197 | a cancelled pass leaves the store as a whole pass has it between two turns |
| RetryBackoff.WithDefaults | pkg/reconcile/enqueue.go:86-121 | every configuration becomes usable, and each knob is fixed: kept if usable, else its default, with the backoff cap at least the base and the stale limit above the timeout |
| RetryBackoff.DelayIsDocumentedExactly | pkg/reconcile/enqueue.go:403-420 | the delay is base doubled per attempt up to the cap, except one unit more exactly when a doubling ends one short of the cap; never for an even cap |
| RetryBackoff.DelayIsMonotone | pkg/reconcile/enqueue.go:407-420 | the delay never shrinks with the attempt |
| RetryBackoff.DelayGrowsToTheCap | pkg/reconcile/enqueue.go:407-420 | the delay is never below the base and never above the cap |
| RetryBackoff.PlainDelay | pkg/reconcile/enqueue.go:407-420 | the doubling loop computes the delay and never holds a value above the cap |
| RetryBackoff.JitterIsBounded | pkg/reconcile/enqueue.go:420-425 | jitter keeps the result within the fraction asked for, non-negative and at most twice the delay |
| RequestRules.JitterIsAShare | pkg/reconcile/enqueue.go:420-425 | the jittered delay is the delay plus its share (2j - 1) of the fraction, cut off toward zero |
| RetryBackoff.OddCapOvershoots | pkg/reconcile/enqueue.go:409-415 | a cap of 5 and a base of 2 give 5 where 4 is documented |
| Certification.RetractionIsExact | pkg/certification/service.go:178-217 | when each unproven certification is the first its key finds, after the pass a certification is ACTIVE exactly when it was and the stored evidence proves it; provable ones are untouched and no key moves |
| CertificationRules.AdmissionRule | pkg/certification/service.go:38-76 | a check certifies at intake exactly when it succeeded, is of stage L5A, has a validation hash, a contract with all outputs present and a result of pass or passed, and is terminal; it is admissible exactly with all but the last |
| CertificationRules.FailedContractCertifiesNothing | pkg/certification/service.go:60-62 | a check whose outputs were not observed certifies neither by itself nor through any scan |
| CertificationRules.ProofRule | pkg/certification/service.go:156-176 | a certification is proven exactly when the first check under its check id is admissible and is terminal or the first scan under its scan id is a terminal L5B one |
| Certification.RetractionProvesExactly | pkg/certification/service.go:178-217 | for every store, after the pass every ACTIVE certification is proven exactly when each unproven one was the first its own key finds |
| Certification.SecondRunRetractsNothing | pkg/certification/service.go:178-250 | a second run retracts nothing exactly when each unproven certification was the first its key finds, and then it changes nothing |
| Certification.CatalogIsBacked | pkg/certification/service.go:186-285 | an entry whose casHash lost a certification is ACTIVE only if a surviving provable one backs it and its image; all others are as they were |
| Certification.CatalogIsBackedExactly | pkg/certification/service.go:186-285 | also for a stored catalog that repeats a casHash: what is ACTIVE after the pass although its casHash lost a certification is backed exactly when each entry behind another of its casHash was backed as it stood |
| CertificationRules.StartupRule | pkg/certification/service.go:191-250 | a pass that finds every ACTIVE certification proven touches nothing, any other leaves the swept records synced |
| CertificationRules.EntryRule | pkg/certification/service.go:223-285 | what the pass does with an ACTIVE entry: nothing unless an unproven certification has its casHash; retracted if no provable one has; rebuilt field by field from the first provable one exactly if it points at an unproven one's image |
| Certification.RepeatedEntryStaysActive | pkg/certification/service.go:223-248 | the only certification of a casHash is retracted and the second catalog entry with that casHash stays ACTIVE |
| Certification.UpsertKeepsKeysDistinct | pkg/index/store.go:1102-1127 | fully keyed certifications keep distinct keys under every upsert of a keyed one |
| Certification.MixedKeysAreNotTransitive | pkg/index/store.go:1122-1127 | two keyed records that differ both match one legacy record |
| Certification.MixedKeysEscapeRetraction | pkg/certification/service.go:191-217 | with mixed keys three upserts and the pass leave an unproven certification ACTIVE and lose a provable one |
| Certification.RetractUnprovenCertifications | pkg/certification/service.go:191-250 | a run without an error has swept memory, synced it to the file if anything was retracted, and returns the number retracted, whatever other Stores write meanwhile |
| Certification.RecordStore.UpsertCertifiedToolImageRecord | pkg/index/store.go:1102-1120 | the first record with the same key is replaced, or a new one appended, for every fate of the save, a reload included |
| CertificationIntake.EveryActiveCertificationIsProven | pkg/certification/service.go:84-148 | after the startup pass and any checks and scans, with any failed saves, reloads, crashes and sound writes of other Stores, every ACTIVE certification in memory, in the file and in every exposed content is proven, if the stored unproven ones came first under their keys; otherwise already the pass leaves one unproven |
| CertificationRules.ActiveAlwaysHaveProof | pkg/certification/service.go:84-176 | after the startup pass and any intakes every ACTIVE certification, in memory, in the file and in every exposed content, names a stored succeeded L5A check with a hash, all outputs and a passed contract, and a stored terminal L5B scan unless that check is terminal |
| CertificationRules.CheckDrives | pkg/certification/service.go:84-110 | an arriving check certifies exactly when admissible and terminal, with the newest scan of its image, the first stored of equally new ones |
| CertificationRules.ScanDrives | pkg/certification/service.go:128-148 | an arriving scan certifies exactly when it is a terminal L5B one or blocks, with the first stored admissible check of its image |
| CertificationRules.IntakeStores | pkg/index/store.go:843-862 | a check or scan is stored exactly under a new, non-empty id, at the end, and a check then drives only if it succeeded |
| CertificationRules.HandlerRule | pkg/catalogrest/server.go:559-604 | a handler certifies only after its append was saved, from the records then in memory |
| CertificationRules.HandlerMoveRule | pkg/catalogrest/server.go:559-604 | what each step of overlapping handlers does to the store and lets its handler do next |
| CertificationRules.CertificationLeaves | pkg/certification/service.go:290-377 | the certification and the catalog entry a check and scan leave, field by field, RETRACTED exactly when the scan blocks, in the place of the first under their key or at the end, and the errors for a missing name, version or image |
| CertificationIntake.PassIsSoundExactly | cmd/controlplane/main.go:226-233 | the startup pass leaves memory, file and exposed contents sound exactly when each unproven certification was the first its key finds |
| CertificationIntake.EventKeepsProofs | pkg/certification/service.go:84-148 | any one event, with any of its saves failing, keeps ids unique and every ACTIVE certification proven in memory, in the file and in every exposed content |
| CertificationIntake.KeyedRunsKeepKeysDistinct | pkg/certification/service.go:290-345 | intakes of fully keyed records keep keys distinct in every content, so the startup pass after any crash finds each unproven certification first |
| CertificationIntake.ReportedCertifiedIsActiveExactly | pkg/catalogrest/server.go:588-604 | a check reported as certified is stored and synced, ACTIVE exactly when the newest scan of its image does not block it |
| CertificationIntake.BlockedCheckIsReportedCertified | pkg/catalogrest/server.go:588-604 | a terminal admissible check is reported certified while what is stored is RETRACTED by the blocking scan of its image |
| CertificationIntake.EvaluateAfterCheck | pkg/certification/service.go:84-110 | a terminal admissible check is certified against the newest scan of its image, and nothing else is |
| CertificationIntake.EvaluateAfterScan | pkg/certification/service.go:128-148 | a terminal L5-b or blocking scan is certified against the first admissible check of its image |
| CertificationIntake.CertifyCheck | pkg/certification/service.go:290-377 | the certification and catalog entry written, for every fate of the two saves |
| CertificationIntake.IntakeKeepsBackedExactly | pkg/certification/service.go:290-377 | undisturbed by other Stores, an intake keeps every ACTIVE catalog entry backed by an ACTIVE certification exactly unless it replaces the only one behind an entry that it does not write anew |
| CertificationIntake.DecidedKeepsBackedExactly | pkg/certification/service.go:290-377 | the same for one certification alone, saved or not |
| CertificationIntake.MovedCertificationOrphansEntry | pkg/certification/service.go:320-345 | two checks of one tool and platform on images with different casHashes leave the first catalog entry ACTIVE with no certification |
| CertificationRules.UpsertIs | pkg/index/store.go:1102-1127 | a certification takes the place of the first one under its key, both fully keyed and of one tool and platform or else of one image, or goes to the end, dated now if undated |
| CertificationRules.UpsertEntryIs | pkg/index/store.go:1180-1205 | a catalog entry takes the place of the first one under its casHash or goes to the end, dated now if undated |
| CertificationHandlers.HandlersAreSoundExactly | pkg/certification/service.go:84-148 | over any interleaving of handlers, with failed saves, reloads, crashes and sound other Stores, every ACTIVE certification is proven at all times and in every content exactly when each one written and kept is proven by memory at that moment |
| CertificationRules.HandlersAlwaysHaveProof | pkg/certification/service.go:84-148 | under that condition every ACTIVE certification has the stored check and scan of ActiveAlwaysHaveProof at every moment of the run |
| CertificationHandlers.SettledReadsProve | pkg/certification/service.go:128-148 | that holds when every check read for a scan is stored everywhere and the other Stores build on the file they find |
| CertificationHandlers.OverlappingHandlersKeepProofs | pkg/certification/service.go:84-148 | so from the startup pass on, overlapping handlers keep every ACTIVE certification proven in every content |
| CertificationHandlers.UnsettledReadIsCertified | pkg/certification/service.go:128-148 | two handlers, one failed save and one write of another Store leave an ACTIVE certification whose check is not stored |
| CertificationHandlers.StepIsOneHandler | pkg/catalogrest/server.go:559-604 | an uninterrupted intake is the moves of one handler |
| CertificationHandlers.CatalogIsAlwaysBackedExactly | pkg/certification/service.go:290-377 | over any such run every ACTIVE entry is backed by an ACTIVE certification, at all times and in every content a crash may bring back, exactly when no certification written orphans an entry and no entry is written ACTIVE after its certification has gone |
| CertificationHandlers.RetractionCutShort | pkg/certification/service.go:336-377 | a crash between the two writes of a blocking scan leaves the image ACTIVE in the catalog, and the startup pass keeps it so |
| ReferrerRanking.HistoryIsRanked | pkg/index/store.go:405-471 | over any pushes the history is everything pushed, most recent first, ranked from 1, with exactly the first three ACTIVE |
| ReferrerRanking.RankingIgnoresPushOrder | pkg/index/store.go:398-426 | histories of the same pushes in different orders have the same ranking |
| ReferrerRanking.PushMoves | pkg/index/store.go:445-471 | a push moves a referrer down by at most one place and its mark follows from where it was and where it lands |
| ReferrerRanking.PushRule | pkg/index/store.go:445-471 | a newcomer goes behind every referrer that is not older, by validation time, observation time and digest, and every field of every referrer after the push |
| ReferrerRanking.RecordingRule | pkg/index/store.go:405-426 | recording replaces one entry's history and the digest it shows, the one of rank 1, and nothing else |
| ReferrerRanking.CandidateStays | pkg/index/store.go:456-470 | a collection candidate stays one over every later push, with the time it was first marked |
| ReferrerRanking.RankToolProfileReferrers | pkg/index/store.go:445-471 | the in-place sort and marking loop compute the stable ranking |
| ReferrerRanking.ProfileStore.RecordToolProfileReferrer | pkg/index/store.go:405-426 | the history is re-ranked with the new referrer and returned if the save went through; memory, file and answer for every fate of the save, and for a casHash without an entry |
| ReferrerRanking.RecordingKeepsRanked | pkg/index/store.go:405-426 | whatever becomes of the save, every content keeps every history ranked, with the observed digest the one of rank 1 |
| CacheGc.EvictionBound | pkg/cachegc/gc.go:103-151 | when deletions succeed, exactly the newest entries are left, less than 80% of the watermark plus one MiB, and no shorter oldest-first prefix would have done |
| CacheGc.EightyPercentReachedExactly | pkg/cachegc/gc.go:122-146 | when deletions succeed, 80% of the watermark is reached exactly when no oldest-first prefix leaves an amount over it by no more than the rounding dropped |
| CacheGc.WholeMiBReachesEightyPercent | pkg/cachegc/gc.go:122-146 | a starting usage of whole MiB is always evicted down to 80% |
| CacheGc.FailedDeletionsKeepTheBound | pkg/cachegc/gc.go:131-146 | with failing deletions the bound holds unless every entry was tried |
| CacheGc.RoundingCanStopEarly | pkg/cachegc/gc.go:122-129 | a directory for which rounding the starting usage leaves more than 80% of the watermark |
| CacheGc.TargetIsEightyPercentExactly | pkg/cachegc/gc.go:127 | the int64 target is 80% of the watermark exactly when the 80-fold of it in bytes fits |
| CacheGc.PassRule | pkg/cachegc/gc.go:122-146 | in numbers, where a pass stops: usage in whole 1048576-byte units less what was removed, against 80 in a hundred of the watermark |
| CacheGc.WrapRule | pkg/cachegc/gc.go:127 | the 64-bit value agrees up to a multiple of 2^64 |
| CacheGc.QuotientRule | pkg/cachegc/gc.go:127 | the quotient is cut off toward zero |
| CacheGc.CountRule | pkg/cachegc/gc.go:131-146 | what was removed counts in full, what could not be removed not at all |
| CacheGc.RunOnce | pkg/cachegc/gc.go:98-151 | under the watermark nothing happens; over it exactly the removable entries of an oldest-first prefix are gone |

## Left out

- Index entries other than the fields the writes touch, and the remaining ordinary writes (SetSpecReferrerDigest, SetIntegrityHealth, the build, check and scan appends as file writes): they take the save path already modelled.
- Two files that decode to the same index are one content in the store model; the real generation also tells white space and key order apart, which can only refuse more saves.
- A failed directory fsync exposes any content named since the last successful one; torn files and reordered renames are not modelled, nor is a failing temp-file write apart from a failing rename.
- Write epochs are unbounded integers; the int64 overflow of the epoch is not modelled.
- Binaries that rewrite the index without knowing the fence are modelled only through the schema check of a committed writer.
- StoreTheorems.SerialHistory: speaks of runs without a power loss but starts on any directory; SerialThroughPowerLoss covers power losses and starts on a synced one, since nothing orders the unsynced contents an earlier process left.
- The validators of ToolFunction specs, protobuf reflection, canonical trees of presentation, policy and hints, and invalid UTF-8 in canonical JSON.
- ParseRawSpecV1 beyond its number test, EffectiveProvenance and the schema texts.
- URL parsing, origin comparison, HTTP and authentication: they are the resolve parameter and the registry of the models.
- ReferrerWitness.SearchIsSound: is about the walk after the argument checks; without an image or a subject the source answers absent at once, as Witness does.
- Scan records take the same correlation path as check records and are not repeated in ValidationRequests.
- RetryBackoff.Backoff: takes real-number jitter; float64 rounding and the int64 range of a jittered delay close to the largest duration are not modelled.
- The attempt number and elapsed time inside failure reasons.
- Certification.RetractUnprovenCertifications: nothing is claimed after a run that ends in an error; the control plane then exits without serving.
- CertificationIntake.EveryActiveCertificationIsProven: intakes of one process follow one another; OverlappingHandlersKeepProofs is for those that do not. Other Stores that break the property themselves are not modelled.
- CertificationIntake.IntakeKeepsBackedExactly: one intake, undisturbed; CatalogIsAlwaysBackedExactly covers runs, other Stores and every content.
- EnqueueRounds.NeverStrandedOnHost: memory after the passes; a crash or a reload may bring an earlier content back, which CrashLeavesItDue covers for a crash during a send.
- LinkHeader.LinkFieldRoundTrip: empty elements between two commas of a field are not among the entries a sender writes.
- Display labels, categories and tags of catalog entries apart from the label.
- CacheGc.RunOnce: a directory unchanged by others during the pass, in which every entry can be read; a failed deletion removes nothing.
- Metrics, logging, environment variables, generated code and the command line.
