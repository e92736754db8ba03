# SubX core: a verified model

SubX pairs subtitle files with videos, renames or relocates them, converts between
subtitle formats and keeps a user configuration. This project models the parts of its
core where a mistake loses files or hangs, and proves what they guarantee: the match
pipeline (allocation of target paths, the two execution loops, the transactional
journal, the plan cache), the raw block splitter, the worker pool, the configuration
service, tag conversion, timing checks and the identifier generator.

`dafny verify dfyconfig.toml` checks everything.

## What is modelled, and how

- **Paths and files.** A path is a directory plus one final component, and a file
  system is a map from path to content. Path equality stands for file identity. New
  names are single components, as the write-back of only the file name requires.
- **Match pipeline.** `Operations` plans an operation and applies the archive rewrite,
  `Allocator` is the in-place allocator, `Filesystem` holds the rename, copy and backup
  tasks with their conflict fallbacks, `Journal` the write-sync-rename save, and
  `Execution` the two loops, both as functions over disk, journal and progress stream
  and as an imperative `Engine` proved equal to them. Every environment answer (task
  outcome, refused direct rename, leftover bytes of a failed task, failing call of a save
  or of its directory sync, cancellation) is a parameter, so each theorem is about all
  of them. The history of a run records every disk state, those inside a save included.
- **Line endings.** Characters stand for bytes; only `\r` and `\n` matter and both are
  single bytes in UTF-8.
- **Worker pool.** The two critical sections of `execute` and the swap in `shutdown`
  are atomic steps, and invariants hold for every interleaving.
- **Configuration.** Number syntax, URL syntax, white space and the library that merges
  the configuration sources are parameters (`Codec`, `Setup`). The laws assumed of them
  are exactly those of `Config.Lawful`: printed integers parse back, parsed numbers and
  the defaults survive printing, letters and digits are not white space, and the default
  address is an `https` one. A file is absent, a complete configuration, or broken.
- **Identifiers.** The clock is a sequence of readings; the timestamp layout is that of
  section 5.7 of RFC 9562.

## Where the code and its documentation part

The model follows the code. These are the places where a promise fails, each with the
lemma that shows it and, next to it, the exact condition under which it holds.

- Targets are unique exactly when no operation runs out of names
  (`UniqueExactlyWithoutExhaustion`, `ExhaustionExample`); a budget that can be checked
  in advance rules that out (`BudgetPreventsExhaustion`).
- The allocator is documented as idempotent. It is without exhaustion
  (`AllocateIdempotent`), but not always (`IdempotenceFails`); `IdempotentExactly` and
  `FixedExactly` say when.
- `movie.2` becoming `movie.3` rather than `movie.2.2` needs an extension:
  `NextAfterNumberedExtensionless`, and `NextNameExactly` for the exact condition.
- An operation may keep its own source as target so that a no-op rename keeps its name.
  The rename task sees an existing target and moves the file to a numbered name, while
  the journal records the planned one; a copy onto itself empties the file
  (`SelfTargetLeavesPlan`, `SelfRenameMovesAway`, `CopyKeepsExactly`, and `LandsExactly`
  for the exact condition).
- The skip policy is documented, and warns, that it skips an operation whose target
  exists. A copy goes ahead and overwrites the target instead: `SkipKeepsExactly` says
  when a content is lost. No other policy or mode loses one (`BatchKeepsContents`).
- The journal is promised to diverge from the files by at most one entry. A crash of the
  process keeps that (`JournalCrashConsistency`). The directory sync after the rename is
  best-effort and its failure is ignored, so a power loss keeps it exactly when those
  syncs succeed (`PowerLossBoundExactly`).
- A backup whose planned path is taken goes to a numbered name, while the journal records
  the planned path (`BackupRecordedExactly`).
- Under the copy mode a subtitle already beside its video gets no relocation target, and
  building its task panics (`PlannedOperationShape`, `StuckExactly`). The prompt policy
  announces automatic renaming and never returns (`StuckExactly`).
- Replaying a cached plan is described as resilient to an apply that was interrupted. It is
  for renames and moves (`ResumeCompletes`); completed copies are rebuilt and made again
  (`InterruptedPlan`).
- Tags survive SRT to ASS and back exactly when they nest in the order of the passes
  (`NestedTagRoundTrip`). The whole-subtitle conversions strip all of them, whether
  styling is to be preserved or not (`AssToSrt`, `TransformDropsTags`).
- With an entry of no duration the adjacent overlap check may report an overlap that is
  none (`EmptyEntryFalseAlarm`); `AdjacentCheckExactly` says when it does not.
- The pool limit is exceeded by one less than the number of concurrent callers
  (`PoolInvariant`), and that bound is reached (`BoundIsReached`).
- The tolerant load, meant to let every parsable file be repaired, refuses files that
  strict validation accepts (`StrictButNotRepairable`; `RepairableExactly` says which).
  Three of the four fractional settings have ranges that not-a-number passes
  (`FloatAcceptedExactly`). A set caches the file's configuration without the
  environment; `ReloadReadsExactly` and `ReloadConfirmsExactly` say when a reload agrees.
  The defaults pass strict validation exactly on machines with one to 64 processors
  (`DefaultStrictExactly`). The field table admits speech durations that strict validation
  caps at five seconds, so a set refuses them (`AcceptedExactly`).

## Model

| member | source | states |
|---|---|---|
| Operations.ApplyArchiveOriginRelocation | src/core/matcher/engine.rs:316-329 | the in-place rewrite changes exactly the archive-extracted operations that do not relocate yet, and each only in target, flag and mode |
| Operations.PlannedOperationShape | src/core/matcher/engine.rs:1620-1640 | planned and rewritten operations have agreeing flag and target, an archive's subtitle always relocates, by copy unless the caller's mode already relocates it, and the copy-mode hazard remains exactly for same-directory pairs not from an archive |
| Paths.KeyOrder | src/core/matcher/engine.rs:184-195 | the sort key comparison is a total order, so ties are equal keys |
| Paths.NameLeExactly | src/core/matcher/engine.rs:190-195 | names ascend by their first differing character, a prefix coming first |
| Paths.DirLeExactly | src/core/matcher/engine.rs:187-189 | directories ascend likewise by their first differing component |
| Paths.NumberedInjective | src/core/matcher/engine.rs:241 | different counters give different names |
| Paths.NumberedResplits | src/core/matcher/engine.rs:155-179 | a numbered name splits back into its base, counter and extension if and only if there is an extension or the base is empty |
| Paths.NextAfterNumbered | src/core/matcher/engine.rs:165-179 | with an extension, the name after `movie.n` is `movie.(n+1)` |
| Paths.NextAfterNumberedExtensionless | src/core/matcher/engine.rs:165-179 | without an extension, and with a base, the promise fails: `movie.n` is followed by `movie.2.n` |
| Paths.NextNameExactly | src/core/matcher/engine.rs:165-179 | the next name carries the next counter, which is two after zero and after the largest 32-bit number, if and only if there is an extension or the base is empty |
| Allocator.ProbeFindsLeast | src/core/matcher/engine.rs:239-252 | probing returns the least free counter and gives up exactly when its whole range is taken |
| Allocator.ProbePigeonhole | src/core/matcher/engine.rs:239-252 | a start counter that leaves room for one more name than there are taken paths in the directory always succeeds |
| Allocator.ResolveProperties | src/core/matcher/engine.rs:223-253 | a resolution stays in the directory, is taken exactly on exhaustion, never takes a path reserved by another operation, and when renumbered carries the least free counter from the start counter on |
| Allocator.ResolveTarget | src/core/matcher/engine.rs:236-253 | the probing loop computes the resolution that these properties are about |
| Allocator.OrderIsPermutation | src/core/matcher/engine.rs:183-195 | the processing order visits every operation exactly once |
| Allocator.ApplyUniqueTargetPaths | src/core/matcher/engine.rs:139-262 | the in-place loop over claimed and reserved paths yields the allocated batch all allocation theorems are about |
| Allocator.AllocatedAt | src/core/matcher/engine.rs:255-260 | each operation receives the path resolved on its turn, and only its name and relocation target change |
| AllocatorTheorems.UniqueExactlyWithoutExhaustion | src/core/matcher/engine.rs:197-261 | final targets are pairwise different and no foreign existing file if and only if no operation exhausts its names |
| AllocatorTheorems.BudgetPreventsExhaustion | src/core/matcher/engine.rs:230-253 | in each target directory, start counters plus twice the operations that go there plus the files there within 9999 exclude exhaustion |
| AllocatorTheorems.ExhaustionExample | src/core/matcher/engine.rs:248-252 | a lone operation asking for `m.9999.srt` is given an existing file |
| AllocatorTheorems.KeepsRequestedName | src/core/matcher/engine.rs:223-238 | an operation keeps its requested name exactly when the path is available to it and to no earlier operation asking for the same |
| AllocatorTheorems.NoSlotStolen | src/core/matcher/engine.rs:197-205 | a renumbered operation never lands on a path any operation asked for |
| AllocatorTheorems.UniqueBatchIsFixed | src/core/matcher/engine.rs:236-260 | a batch that is unique and fresh is left alone |
| AllocatorTheorems.FixedExactly | src/core/matcher/engine.rs:209-261 | a run leaves a batch alone if and only if each operation finds its target free on its turn or exhausts its names |
| AllocatorTheorems.AllocateIdempotent | src/core/matcher/engine.rs:1661-1666 | after a run without exhaustion a second run changes nothing |
| AllocatorTheorems.IdempotentExactly | src/core/matcher/engine.rs:1661-1666 | the exact condition, for every batch, under which a second run changes nothing |
| AllocatorTheorems.IdempotenceFails | src/core/matcher/engine.rs:1661-1666 | a planned pair of operations on existing files that a second run renames again |
| AllocatorTheorems.SortedIsOrdered | src/core/matcher/engine.rs:181-195 | processing is ascending by target directory and relative path and covers the batch |
| AllocatorTheorems.ProcessingOrder | src/core/matcher/engine.rs:181-195 | operations are processed by directory, then relative path, and with equal keys in batch order |
| AllocatorTheorems.FirstNameKeepsTarget | src/core/matcher/engine.rs:181-238 | of the operations asking for one path available to them, the one whose relative path has the smaller first differing character, or is a prefix, keeps it, and every other one is renumbered |
| AllocatorTheorems.AllocateIgnoresInputOrder | src/core/matcher/engine.rs:181-195 | with distinct sort keys, permuting the batch gives every operation the same final target |
| Filesystem.FreeName | src/core/parallel/task.rs:28-59 | an exclusive create never lands on an existing file, and uses the target itself when it is absent |
| Filesystem.FreeFrom | src/core/parallel/task.rs:44-58 | a numbered conflict name is the first free one, and the search fails exactly when all 999 are taken |
| Filesystem.MadeUpNames | src/core/matcher/engine.rs:2289-2299 | a file `stem.ext` is backed up as `stem.ext.backup`, and its conflict names are `stem.n.ext` |
| Filesystem.MadeUpNamesPlain | src/core/parallel/task.rs:37-50 | without an extension, or with an empty one, the conflict number comes last |
| Filesystem.RenameOutcomes | src/core/parallel/task.rs:540-576 | the outcomes of a rename over all faults are exactly these: the content on the first free name and the source gone, or a failure that changes nothing or leaves something on that name |
| Filesystem.BackupOutcomes | src/core/parallel/task.rs:512-537 | the same for a backup, whose source stays |
| Filesystem.CopyOutcomes | src/core/fs_util.rs:22-26 | the same for a copy, which overwrites its target and empties a file copied onto itself |
| Filesystem.RenameTouches | src/core/parallel/task.rs:540-576 | a rename overwrites no existing file, and its source disappears exactly on success |
| Filesystem.RenameKeeps | src/core/parallel/task.rs:540-576 | a rename loses no content, whatever exists at its target and however it fails |
| Filesystem.BackupKeeps | src/core/parallel/task.rs:512-537 | a backup loses no content |
| Filesystem.SelfRenameMovesAway | src/core/parallel/task.rs:553-572 | renaming a file to its own name moves it to a numbered one |
| Filesystem.CopyKeepsExactly | src/core/fs_util.rs:22-26 | a copy, failed or not, keeps every content if and only if its target was absent, untouched or ends up as it was, or another file holds what it held |
| Journal.SaveIsAtomic | src/core/matcher/journal.rs:73-120 | at every instant of a save the journal is the old one or the complete synced new one, also after a power loss; the new one alone survives a power loss when the directory sync succeeds |
| Execution.Engine.Save | src/core/matcher/journal.rs:99-112 | the imperative save goes through exactly the specified disk states for every failing call, the ignored directory sync included |
| Execution.Engine.Perform | src/core/matcher/engine.rs:1851-1963 | backup, primary task, entry and save of one operation, step by step on the engine's state |
| Execution.Engine.ExecuteOperations | src/core/matcher/engine.rs:1769-1982 | the aborting loop produces the run the theorems are about; a dry run changes nothing |
| Execution.Engine.ExecuteOperationsAudit | src/core/matcher/engine.rs:1990-2197 | the audited loop produces the audited run; a dry run yields one unapplied outcome per operation |
| ExecutionTheorems.StuckExactly | src/core/matcher/engine.rs:2213-2320 | exactly when building a task panics or never returns |
| ExecutionTheorems.StuckStops | src/core/matcher/engine.rs:1851-1963 | either loop stops without return, records and announces nothing more, exactly at an operation that was backed up and whose task cannot be built |
| ExecutionTheorems.RecordedExactly | src/core/matcher/engine.rs:1877-1947 | for every plan, policy and fault, what the entry of a success says: a relocation that does not skip is recorded at a path that was absent and then holds the content; kind, size and backup follow the operation |
| ExecutionTheorems.ExecStreamContract | src/core/matcher/engine.rs:1838-1981 | one Started, Advanced 1..k, one Finished(k, total); k falls short exactly on an error |
| JournalTheorems.JournalCrashConsistency | src/core/matcher/engine.rs:1918-1963 | for both loops, all batches and all disk states, a crash of the process leaves the previous journal or a complete record of the first m successes, at most one behind; a power loss leaves some such record; in the aborting loop those are the leading operations |
| JournalTheorems.PowerLossBoundExactly | src/core/matcher/journal.rs:106-112 | after a power loss at any instant of either loop at most the last success is missing, if and only if every save but the last was followed by a successful directory sync |
| ExecutionTheorems.AttemptCarriesOut | src/core/matcher/engine.rs:1851-1963 | a planned operation never meets an existing target; it lands exactly there or leaves at most a leftover on that fresh path |
| ExecutionTheorems.AllocatedPlanIsGood | src/core/matcher/engine.rs:139-262 | allocation without exhaustion establishes what execution relies on |
| ExecutionTheorems.PlanThenExecuteConserves | src/core/matcher/engine.rs:1851-1971 | at every instant of executing an allocated plan the files are the initial ones with exactly the completed operations carried out, and the journal records those in order with kind, paths and size |
| ExecutionTheorems.LandsExactly | src/core/parallel/task.rs:540-576 | with every call succeeding, an operation lands as planned if and only if its target is not its own source, an empty file copied onto itself aside |
| ExecutionTheorems.SelfTargetLeavesPlan | src/core/matcher/engine.rs:223-229 | an in-place self-target loses its name while the journal records it |
| ExecutionTheorems.BackupRecordedExactly | src/core/matcher/engine.rs:1854-1866 | after a successful move the recorded backup path holds the file's content if and only if it was free before or held that content |
| ExecutionTheorems.BatchKeepsContents | src/core/matcher/engine.rs:1851-1971 | neither loop ever loses a content unless a batch copies under the skip policy, with any fault, backups on or off, allocated or not |
| ExecutionTheorems.SkipKeepsExactly | src/core/matcher/engine.rs:2213-2286 | a copy under the skip policy, failed or not, keeps every content if and only if its target was absent, untouched or ends up as it was, or another file holds what it held |
| JournalTheorems.AttemptEntries | src/core/matcher/engine.rs:2157-2165 | the journal grows by one entry naming the subtitle exactly when the primary task succeeds |
| AuditTheorems.AuditContract | src/core/matcher/engine.rs:2028-2197 | stream, outcomes, padding, cancellation point and journal of the audited loop, for every environment, a failed save included |
| AuditTheorems.AuditConserves | src/core/matcher/engine.rs:2049-2189 | auditing a good plan carries out, and records, exactly the operations reported applied, and after a failed save the one it was for; at every instant exactly the operations applied so far |
| AuditTheorems.PlanThenAuditConserves | src/core/matcher/engine.rs:2049-2189 | the same from an allocated batch: failures do not disturb the other operations |
| PlanCache.SaveFileListCache | src/core/matcher/engine.rs:2448-2518 | the method writes the saved form that the round trip and the freshness theorems are about |
| PlanCache.SavedModeExactly | src/core/matcher/engine.rs:2505-2518 | the recorded mode name tells the three modes apart |
| PlanCache.SnapshotExactly | src/core/matcher/engine.rs:2467-2503 | the snapshot holds exactly the planned files present, each once, with size and time, in order of first mention |
| PlanCache.BuildSnapshot | src/core/matcher/engine.rs:2467-2503 | the loop over seen paths yields the snapshot the freshness theorems are about |
| PlanCache.ReconstructOperations | src/core/matcher/engine.rs:2672-2756 | exactly the entries whose two files exist come back, in order, planned afresh |
| PlanCache.CheckFileListCache | src/core/matcher/engine.rs:2351-2445 | the method answers what the lookup of the round trip answers |
| PlanCache.SavedIsFound | src/core/matcher/engine.rs:2351-2518 | the round trip: a check finds a saved plan if and only if it asks for the key it was saved under, and then as the operations whose files still exist, one by one with their targets |
| PlanCache.OnlyCurrentIsFound | src/core/matcher/engine.rs:2351-2362 | whatever was stored, it is found if and only if its schema version is 2.0 and its key agrees |
| PlanCache.RebuiltMedia | src/core/matcher/engine.rs:2686-2730 | a rebuilt file sorts by its name, its extension is the text after the last dot, and its backup is its name with `.backup` appended |
| PlanCache.ValidateSnapshot | src/core/matcher/cache.rs:116-168 | the stale list holds each diverging entry with its first reason, in order |
| PlanCache.StaleReasonExactly | src/core/matcher/cache.rs:116-168 | which reason is reported: no path, then missing, then size, then time |
| PlanCache.StaleListExactly | src/core/matcher/cache.rs:116-168 | the stale list names exactly the diverging entries with their reasons |
| PlanCache.ValidateTargetPaths | src/core/matcher/cache.rs:178-199 | the conflict list holds each existing target other than the entry's own subtitle |
| PlanCache.ConflictListExactly | src/core/matcher/cache.rs:178-199 | the conflict list names exactly the existing targets, beside the subtitle when no mode was recorded and beside the video otherwise, but for own subtitles |
| PlanCache.AllocationKeepsShape | src/core/matcher/engine.rs:255-260 | allocation keeps operations in the shape the planner gives them |
| PlanCache.CachedPlanAgrees | src/core/matcher/engine.rs:2672-2756 | rebuilding a saved plan at any later time gives the same final targets for all entries still present, still distinct without exhaustion |
| PlanCache.SnapshotCheckExact | src/core/matcher/cache.rs:110-168 | the snapshot check is empty if and only if every planned file once present still has its size and modification time |
| PlanCache.ConflictsOfPlan | src/core/matcher/cache.rs:170-199 | the target check is empty if and only if no final target of the plan is a foreign existing file |
| PlanCache.UnchangedDiskPassesChecks | src/core/matcher/cache.rs:116-199 | with the disk unchanged since allocation both checks come back empty |
| Replay.CheckedReplayIsGood | src/core/matcher/engine.rs:2632-2657 | a rebuilt plan whose target check is empty, without targetless copies and self-targets, meets every precondition of execution |
| Replay.CheckedReplayConserves | src/core/matcher/engine.rs:2649-2657 | replaying such a plan conserves files at every instant like the original run |
| Replay.InterruptedPlan | src/core/matcher/engine.rs:2667-2684 | after an interruption a rebuild finds the operations still to come, preceded by the copies already made; completed operations are skipped if and only if none was a copy |
| Replay.ResumeCompletes | src/core/matcher/engine.rs:2649-2684 | replaying a plan without copies after an interruption at any point rebuilds exactly the rest, and completing it leaves the files as an uninterrupted run would |
| LineEndings.NormalizeIsCollapse | src/core/formats/line_endings.rs:28-34 | the fast path and the two replacements equal a single pass turning every CRLF and other CR into LF |
| LineEndings.RawBlocks.FindSeparator | src/core/formats/line_endings.rs:70-94 | the scanning loop finds the first pair of adjacent terminators |
| LineEndings.RawBlocks.Next | src/core/formats/line_endings.rs:65-99 | each call hands out the next remaining block and advances; it ends exactly when none remain |
| LineEndings.CollectRawBlocks | src/core/formats/line_endings.rs:54-100 | iterating terminates and yields all blocks in order |
| LineEndings.ScanRefinesSplit | src/core/formats/line_endings.rs:72-94 | at every scanner position, splitting the normalised text is in the corresponding state |
| LineEndings.RawBlocksRefineSplit | src/core/formats/line_endings.rs:43-60 | blocks correspond one to one to the pieces of the normalised text, each normalises to its piece and is no shorter, and no cut falls inside a CRLF |
| LineEndings.GapsAreBlankLines | src/core/formats/line_endings.rs:84-99 | the blocks cover the text but for exactly two terminators between neighbours |
| Styling.SrtToAssTags | src/core/formats/styling.rs:38-52 | on structured text every tag, however nested, becomes its ASS form and nothing else changes |
| Styling.TagsWritten | src/core/formats/styling.rs:40-42 | the six replacements, literally |
| Styling.FontBecomesColour | src/core/formats/styling.rs:43-50 | a font tag around text becomes a colour override without the hashes, and its close resets the colour |
| Styling.AssPasses | src/core/formats/styling.rs:61-72 | which tags the three ordered passes bring back, on any structured text |
| Styling.NestedTagRoundTrip | src/core/formats/styling.rs:38-72 | SRT to ASS and back is the identity if and only if tags nest in pass order |
| Styling.StripReachesFixedPoint | src/core/formats/styling.rs:54-72 | stripping leaves no `{` with a later `}`, is idempotent, changes a text exactly when it has such a pair, and makes tag conversion the identity |
| Styling.SrtToAss | src/core/formats/transformers.rs:53-76 | every entry is converted in place, its styling extracted from the text before conversion |
| Styling.StylingExactly | src/core/formats/styling.rs:20-35 | for any text each style is set if and only if its tag, in lower or upper case, occurs |
| Styling.PreservedStyling | src/core/formats/transformers.rs:67-72 | on structured text a converted entry carries exactly the styles of its tags, at any depth; without preservation its styling is kept |
| Styling.AssToSrt | src/core/formats/transformers.rs:79-89 | every entry is stripped in place, the same for both values of the preserve flag |
| Styling.TransformDropsTags | src/core/formats/transformers.rs:53-89 | whole-subtitle conversion to ASS and back keeps the words and drops every tag |
| WorkerPool.Pool.Execute | src/core/parallel/worker.rs:71-100 | an uninterrupted call is accepted exactly below the limit and adds its worker |
| WorkerPool.Pool.TakeAll | src/core/parallel/worker.rs:145-147 | shutdown takes every worker at once |
| WorkerPool.Pool.GetWorkerStats | src/core/parallel/worker.rs:123-142 | the counting loop is exact per type, and the three counts sum to the total |
| WorkerPool.RunInvariant | src/core/parallel/worker.rs:76-96 | every interleaving keeps the pool bound and accounts for every handle exactly once |
| WorkerPool.PoolInvariant | src/core/parallel/worker.rs:71-157 | from an empty pool, map plus calls between check and insert stay within limit - 1 + callers; serial callers never exceed the limit |
| WorkerPool.WorkersMatchTasks | src/core/parallel/worker.rs:71-110 | in every interleaving the worker a call leaves in the map is CPU bound exactly for `convert` and I/O bound exactly for `match` and `validate` |
| WorkerPool.BoundIsReached | src/core/parallel/worker.rs:76-96 | for every limit and number of callers some interleaving reaches that bound |
| Timing.Subtitle.SortEntries | src/core/formats/types.rs:262-269 | the entries become the sorted and renumbered ones |
| Timing.Subtitle.HasOverlaps | src/core/formats/types.rs:249-256 | the window loop reports exactly an entry starting before its predecessor ends |
| Timing.SortEntriesIsStable | src/core/formats/types.rs:258-269 | sorting is a start-ordered permutation, stable on ties, numbered from one |
| Timing.AdjacentCheckIsComplete | src/core/formats/types.rs:245-256 | in start order the adjacent check misses no overlapping pair at any distance; with valid timing it is exact |
| Timing.AdjacentCheckExactly | src/core/formats/types.rs:245-256 | in start order the check is exact on every stretch of entries if and only if each reported entry ends after its predecessor starts |
| Timing.SortedOverlapCheck | src/core/formats/types.rs:249-269 | after sorting entries with valid timing the check is exact |
| Timing.EmptyEntryFalseAlarm | src/core/formats/types.rs:409-424 | without valid timing the check can report an overlap that is none |
| Uuidv7.TimestampRoundTrip | src/core/uuidv7.rs:77-88 | reading the timestamp inverts its big-endian placement, both ways |
| Uuidv7.Generator.NextId | src/core/uuidv7.rs:45-61 | a call returns the first reading later than the last identifier and remembers it |
| Uuidv7.GenerateIds | src/core/uuidv7.rs:68-75 | the loop yields the specified sequence of identifiers |
| Uuidv7.GeneratedIncreases | src/core/uuidv7.rs:39-75 | for every clock the identifiers have strictly increasing timestamps and are pairwise different |
| Uuidv7.RetriesAtMostOnce | src/core/uuidv7.rs:49-54 | when a sleep lasts as long as asked, a call retries at most once, and a shorter sleep would not do |
| Config.LawfulExists | src/config/field_validator.rs:72-269 | the laws assumed of number and URL syntax can be met |
| Config.NormalizeIdempotent | src/config/field_validator.rs:52-59 | canonicalising a provider twice is canonicalising it once |
| Config.ProviderNormalized | src/config/field_validator.rs:52-59 | surrounding white space and letter case do not matter, and `ollama` is the local provider |
| Config.DefaultFieldsOk | src/config/field_validator.rs:284-372 | every default passes its own field check, the worker count on machines with one to 64 processors |
| Config.DefaultStrictExactly | src/config/validator.rs:32-44 | the defaults pass strict validation if and only if there are one to 64 processors |
| ConfigService.ProductionConfigService.Get | src/config/service.rs:779-799 | returns the cache when filled, else loads strictly and fills it only on success |
| ConfigService.ProductionConfigService.ReloadConfig | src/config/service.rs:801-815 | the cache is dropped even when the fresh load fails |
| ConfigService.ProductionConfigService.CheckAllFields | src/config/field_validator.rs:284-372 | accepts exactly when every printed settable field passes its check |
| ConfigService.ProductionConfigService.Load | src/config/service.rs:895-947 | the tolerant load reads the file alone and leaves the cache untouched |
| ConfigService.ProductionConfigService.SetConfigValue | src/config/service.rs:850-880 | new file, cache and reply of a set, for every write outcome |
| ConfigService.ProductionConfigService.ResetToDefaults | src/config/service.rs:882-893 | new file, cache and reply of a reset, for every write outcome |
| ConfigService.CacheAlwaysStrict | src/config/service.rs:779-947 | in every sequence of commands the cache is empty or passes strict validation |
| ConfigService.StoredFieldOk | src/config/service.rs:519-681 | a value that passes its check is stored without a failed unwrap and prints back to an acceptable text |
| ConfigService.StoresExactly | src/config/service.rs:520-681 | an accepted set reads back as the value given, for every type of setting, and every other setting is unchanged |
| ConfigService.SetGuarantees | src/config/service.rs:850-880 | a set never crashes; turned down it changes neither file nor cache; accepted and written, file and cache are what was there with exactly the one setting given, strictly valid, and the next tolerant load returns the file unchanged, also when restricting its permissions fails; the cache follows exactly on success |
| ConfigAcceptance.AcceptedExactly | src/config/service.rs:492-518 | from a strictly valid configuration a set accepts exactly the values of one table per setting, the joint effect of the field rules and of the strict rules of its section; from any other it accepts no more |
| ConfigAcceptance.SetAcceptedExactly | src/config/service.rs:850-880 | the same for the whole set: it succeeds if and only if the file loads, the value is in that table and the write completes |
| ConfigAcceptance.FirstSetExactly | src/config/service.rs:850-947 | without a configuration file a set starts from the defaults, and succeeds exactly for the values they accept |
| ConfigAcceptance.StrictExactly | src/config/validator.rs:32-300 | strict validation is one condition per setting and the demands of the canonical provider on key, version, address and token limit |
| ConfigRuns.CacheFollowsReplies | src/config/service.rs:779-893 | in every run what is cached, and hence served, is determined by the replies alone: the last configuration answered, until a failed reload or reset forgets it |
| ConfigRuns.FreshAnswers | src/config/service.rs:779-893 | with nothing cached, and after a reload or a written reset, the answer is the strict load of the file as it is then |
| ConfigRuns.FileStaysSound | src/config/service.rs:850-947 | in every run, with any write faults, the file is as found, broken, at its defaults, or strictly valid and loadable for repair |
| ConfigRuns.ResetWrites | src/config/service.rs:882-893 | a written reset leaves the documented defaults, whatever was there |
| ConfigRuns.MergeSeesExactly | src/config/service.rs:268-321 | loading tells two situations apart, through some merge, if and only if they differ in the file or in a prefixed variable |
| ConfigRuns.IncompleteMerge | src/config/service.rs:268-321 | an incomplete merge contributes the four AI settings it has, and every other setting is at its default |
| ConfigService.StrictButNotRepairable | src/config/service.rs:895-947 | a strictly valid file asking for `DropOldest` is refused by the tolerant load, so no set can change it |
| ConfigService.RepairableExactly | src/config/field_validator.rs:284-372 | which files that are strictly valid once their provider is canonical the tolerant load accepts: the conditions, field by field, that strict validation leaves open |
| ConfigAcceptance.LoadsForRepairExactly | src/config/field_validator.rs:284-372 | any complete file, strictly valid or not, is taken by the tolerant load if and only if each setting on its own is within its table |
| ConfigService.FloatAcceptedExactly | src/config/validation.rs:137-216 | a set accepts a value for a fractional setting if and only if it lies in the range or, for all but the sensitivity, is not-a-number |
| ConfigService.ReloadReadsExactly | src/config/service.rs:850-880 | for every merge and environment, what a set leaves in the cache reads the same as a reload if and only if the merge adds nothing elsewhere and, for each provider setting, whatever has the last word agrees |
| ConfigService.ReloadConfirmsExactly | src/config/service.rs:322-432 | when the merge carries no more than the prefixed provider variables, that is so if and only if the variables in force agree with the configuration |
| ConfigService.LocalPrecedence | src/config/service.rs:346-378 | a selected local provider stays selected, and its address and key follow the documented precedence |
| ConfigService.EnvironmentNonInterference | src/config/service.rs:329-432 | hosted-provider variables cannot influence a local configuration, nor the local ones a hosted one |

## Left out

- AI clients, prompts, HTTP, audio, encoding detection, archive extraction and the command line.
- Subtitle parsers and serialisers, and the identity or single-pass VTT conversions; format dispatch.
- How media files are discovered, how new names are generated, and `FileManager`, whose rollback does not restore removed files.
- A video path without a parent, which leaves an archive operation untouched: every modelled path has a directory.
- `n + 1` on the largest 32-bit counter: modelled as wrapping, as an optimised build does; a debug build panics there.
- Symbolic links and other second names of one file; permission and write-target checks of the tasks appear only as task failures.
- Changes to the disk by other processes during a run, and operating-system locks.
- I/O errors of the engine's exclusive-create probe other than an existing file; they would panic like an exhausted one.
- Disk states inside one rename, copy or backup task; a task is one step of the history, with any leftover of a failed one kept.
- `PlanThenExecuteConserves`: assumes backups off, because a backup may take a path the plan counts on; `BatchKeepsContents` and `JournalCrashConsistency` allow backups.
- What a power loss does to the media files: the tasks sync no directory, and the histories count the successes the process saw.
- `PowerLossBoundExactly`: assumes that no earlier journal carries this batch's id and creation time.
- `SaveIsAtomic`: a crash loses unsynced bytes whole; partial loss is the same to a reader of the journal.
- Journal entry status, which is always completed, and modification times of entries; the batch id is opaque.
- Cache keys and configuration hashes are opaque strings; confidence and reasoning of cached operations are not carried.
- Lower-casing of extensions in rebuilt media files, which only names backups.
- Error values and messages, reports other than progress events, and dry-run preview lines.
- Which workers have finished: the pool never removes a worker but by shutdown, so the model does not either.
- Identifiers of workers and handles are issued by counters; that random identifiers do not repeat is assumed.
- `NextId`: the clock is a finite sequence of readings, and a call that exhausts it has not returned.
- Upper-case SRT tags and colours, apart from the `<font>` pass being modelled; `PlainRuns` excludes text that itself contains `<` or `{`.
- Splitting a dotted key string into its parts, the read-back table for single values, `save_config`, and settings no command can change.
- Configuration fields not settable one by one; they take no part in any modelled check.
