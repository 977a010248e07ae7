# Grimmore, modelled and proved in Dafny

Grimmore keeps a local, searchable index of a directory of Markdown notes (a
"vault"), serves it to an Obsidian plugin over a private framed channel, and
lets the plugin propose note replacements that a person reviews before they are
written. This project models the parts of it that keep state and proves what
they are for. Everything is stated for all inputs, all runs or all reachable
states.

| file | component |
|---|---|
| `VaultTree.dfy` | the vault on disk: directories, files, links; the pruned walk and the per-path classification |
| `Storage.dfy` | the note table and the inverted index its three triggers keep |
| `NoteSearch.dfy` | the two-stage ranked statement over that index |
| `QueryCompiler.dfy` | the text a user types, made into a full-text query |
| `VaultIndex.dfy` | the full index and the incremental reconcile over the table |
| `VaultWatcher.dfy` | event callback, bounded queue, overflow flag, batch loop and concurrent initial index |
| `PointerJournal.dfy`, `PointerSwitch.dfy` | the macOS write-ahead journal and the pointer switch under crashes |
| `PointerRuns.dfy`, `PointerLoss.dfy` | whole runs of the macOS scripts, and exactly which power losses they survive |
| `LinuxInstall.dfy`, `WindowsInstall.dfy` | the simpler installers of the other two platforms |
| `Transcript.dfy`, `Handshake.dfy` | the authenticated byte string and the mutual handshake |
| `Framing.dfy`, `PluginClient.dfy` | length-prefixed frames and the plugin's end of the session |
| `InFlight.dfy` | the companion's end: request loop, workers, cancellation |
| `UnifiedDiff.dfy`, `PatchReview.dfy` | the review diff and the reviewed, revision-checked write |

Objects that the source updates in place are classes whose methods are proved
against functions on their state; concurrent code is a state machine whose steps
are the points at which the source can be interleaved; the remaining code is
functions, with the loops of the source as methods. Library code enters as
function parameters: the content hash, the tokenizer, the ranking score, JSON
parsing, UTF-8 widths and Unicode classes. Lemmas that need such a function to
be injective or otherwise faithful say so in a `requires`.

## What the proofs found

Where a property is false of the code, the code was kept. For each, a concrete
run or input shows the failure, and an equivalence says exactly when the
property holds.

- **A stranded hint.** The watcher's callback tries the queue and then stores the
  overflow flag. Between the two the batch may swap the flag, and the hint is
  left behind an empty queue: `VaultWatcher.SplitCallbackStrandsAHint`. The store
  strands the flag exactly when by then nothing is queued or on its way and no
  batch is open: `VaultWatcher.StoreStrandsIff`.
- **A failed batch is dropped with its hints.** A note that arrives together with
  an unreadable one gets no row, even after the unreadable one is gone:
  `VaultWatcher.FailedBatchDropsItsHints`. Exactly which batches fail on which
  disk, and when that leaves the rows wrong, is `VaultWatcher.FailedBatchIsDropped`.
- **A link into an excluded directory** lets an event hint index a note that no
  full scan yields: `VaultTree.LinkIntoTrashIndexesHiddenNote`; exactly which
  hints do is `VaultTree.HintReportsHiddenNoteIff`.
- **Recovery trusts a journal it has not made durable.** A process kill between
  the journal's rename and its barrier, then a recovery, then a power loss that
  keeps a later rename and loses the earlier one, leaves both pointers equal and
  no journal: `PointerSwitch.UnorderedLossAfterKillBreaksThePair`.
- **A version found in place is never synced.** An install killed between the
  rename of a version directory and the barrier of `versions/` leaves it for the
  next install to find; that one switches to it and syncs only the root, so a
  power loss can take the version from under `current`:
  `PointerRuns.UnsyncedVersionIsLost`. For both of these, in every run a power loss
  is harmless if and only if no surviving change needs a lost one and no lost
  version is named by what survives: `PointerLoss.LossIsGoodIffHarmless`.
- **The Linux links can become equal**, exactly by a crash between the two
  replacements (`LinuxInstall.KillSplitsIffBetween`), and a rollback killed there
  forgets a version for good (`LinuxInstall.KilledRollbackForgets`).
- **The text submitted is not compared with the text proposed.** A companion that
  answers another text has that text written (`PatchReview.OtherTextIsWritten`);
  in every run the text written is the one submitted exactly when the answer
  carried it: `PatchReview.WrittenIsSubmittedIffEchoes`.
- **A restarted child inherits old bytes.** When a child has exited but not yet
  closed, the plugin starts another and keeps the bytes of the first, which
  spoils the framing of a correct peer: `PluginClient.RespawnKeepsOldBytes`. A
  child is served exactly when no bytes were left: `PluginClient.ServedIffNothingLeft`.
- **A request id used twice.** In the plugin the next id collides exactly when a
  pending request is a whole number of id cycles old, and the older request is
  then never settled (`PluginClient.NextIdCollides`,
  `PluginClient.OverwrittenIsLost`, `PluginClient.LostStaysLost`). In the
  companion an id reused after a cancellation loses its table entry to the first
  worker (`InFlight.ReusedIdLosesItsEntry`); over a run the books hold under every
  schedule of the workers exactly when no frame is admitted under the id of a
  worker that has not left (`InFlight.BooksInEverySchedule`).
- **A response too large for a frame is dropped without a word** while the
  connection goes on (`InFlight.OversizedResponseIsDropped`, and
  `InFlight.OversizedResponseExists` with a title as long as a note may be). An
  uncancelled request on a connection that stayed writable has its response
  exactly when that response is a legal frame: `InFlight.ExactlyOneResponse`.
- **The last handshake message carries no proof.** A client can complete with any
  expiry while no server has completed: `Handshake.ReadyCanBeForged`. It holds its
  server's expiry exactly when the message it was handed is one that server wrote:
  `Handshake.ExpiryAgreesIff`.

## Model

| member | source | states |
|---|---|---|
| VaultTree.WalkExact | crates/grimmored/src/vault_index/mod.rs:484-513 | The recursive walk visits exactly the nodes that no pruned directory hides, wherever it starts. |
| VaultTree.WalkDistinct | crates/grimmored/src/vault_index/mod.rs:484-513 | No path is visited twice. |
| VaultTree.WalkYieldsLiveNotes | crates/grimmored/src/vault_index/mod.rs:484-651 | Over every directory tree the walk's notes are exactly the regular Markdown files with no excluded component, each with its own file. |
| VaultTree.NotesSpelledOut | crates/grimmored/src/vault_index/mod.rs:620-634 | Spelled out: the notes of the walk are the regular files named something and `.md` in either case that lie through none of `.git`, `.obsidian` and `.trash`. |
| VaultTree.ReadNote | crates/grimmored/src/vault_index/mod.rs:580-618 | A file becomes a note iff it is at most 4 MiB and is text; the note's revision is the hash of its body. |
| VaultTree.RelativeParts | crates/grimmored/src/vault_index/mod.rs:524-544 | The loop over the components of a hinted path computes the relative path, or that it is to be skipped or is ambiguous. |
| VaultTree.ScanChangedPath | crates/grimmored/src/vault_index/mod.rs:515-578 | The per-path scan with its early returns is the classification ScanHint. |
| VaultTree.HintOutcome | crates/grimmored/src/vault_index/mod.rs:515-618 | For every hint, what it asks for: the first component that is no plain name outside the three directories decides, else what a lookup of the path ends at, the name and the file's size and text; a note read has the title the rule gives, the text, its hash, and the file's time and size. |
| VaultTree.LookupFollowsTheRoute | crates/grimmored/src/vault_index/mod.rs:546-557 | A lookup passes exactly the directories and link targets the path leads through, and finds, misses or is stopped by a file as the last of them says. |
| VaultTree.PerPathAgreesWithWalk | crates/grimmored/src/vault_index/mod.rs:515-578 | Under no link, a change carries exactly what the full walk would index, a directory asks for a full rescan, an ignored path is never live, and every live path is a change. |
| VaultTree.HintReportsHiddenNoteIff | crates/grimmored/src/vault_index/mod.rs:515-578 | A hint reports a note the walk does not yield iff no component of the hint is excluded and the path it leads to, links followed, is a readable Markdown file with an excluded component. |
| VaultTree.LinkIntoTrashIndexesHiddenNote | crates/grimmored/src/vault_index/mod.rs:546-578 | A concrete vault in which a hint through a link reports a note the walk never yields. |
| VaultTree.ScanGivesWayIff | crates/grimmored/src/vault_index/mod.rs:515-578 | Under no link and whatever else is on disk, a hint is settled iff its path is not the root, a directory, through a file or an unreadable note; settled, it carries the note a full scan would read there. |
| Storage.Transaction.Upsert | crates/grimmored/src/vault_index/mod.rs:354-373 | An upsert takes a fresh row id or keeps the old one, and leaves the inverted index consistent with the table. |
| Storage.Transaction.Delete | crates/grimmored/src/vault_index/mod.rs:335-338 | A delete removes that row only and leaves the inverted index consistent. |
| Storage.InsertKeepsIndexExact | crates/grimmored/src/storage/mod.rs:44-47 | After the insert trigger the postings are those rebuilt from the table. |
| Storage.DeleteKeepsIndexExact | crates/grimmored/src/storage/mod.rs:49-52 | After the delete trigger the postings are those rebuilt from the table. |
| Storage.UpdateKeepsIndexExact | crates/grimmored/src/storage/mod.rs:54-59 | After the update trigger the postings are those rebuilt from the table. |
| Storage.TriggersKeepIndexExact | crates/grimmored/src/storage/mod.rs:35-59 | After any sequence of inserts, updates and deletes the postings, with column and position, equal the rebuilt ones. |
| NoteSearch.PostingsAgreeWithText | crates/grimmored/src/vault_index/mod.rs:400-420 | A row's id matches a non-empty phrase in the postings iff the phrase stands consecutively in the tokens of the row's title, of its body or of its path. |
| NoteSearch.ColumnsOfTheIndex | crates/grimmored/src/storage/mod.rs:35-59 | The postings of a consistent index are, for every row, token and position, those of its title, its body and its path in columns 0, 1 and 2, and no others. |
| NoteSearch.IndexFindsWhatAScanFinds | crates/grimmored/src/vault_index/mod.rs:400-420 | A conjunctive phrase query on the index finds exactly the notes a scan of titles, bodies and paths finds. |
| NoteSearch.ReorderingIsStable | crates/grimmored/src/vault_index/mod.rs:400-433 | Sorting the first rows again in the outer statement gives the same rows in the same order. |
| NoteSearch.RejoinIsExact | crates/grimmored/src/vault_index/mod.rs:400-433 | Joining the ranked ids back to the notes neither loses, adds nor duplicates a row. |
| NoteSearch.SearchIsTopOfFullScan | crates/grimmored/src/vault_index/mod.rs:377-439 | A search is refused exactly for a limit outside 1 to 50, an unknown vault or a negative revision; otherwise it returns the first `limit` of the notes a full scan matches, each no higher in score than the next and in path order where scores are equal, and all that is left out comes after all that is kept. |
| QueryCompiler.TermsAreTheRuns | crates/grimmored/src/vault_index/mod.rs:672-675 | The terms are exactly the maximal runs of word characters of the query, in order, none missed. |
| QueryCompiler.CompileRoundTrip | crates/grimmored/src/vault_index/mod.rs:668-687 | For every accepted query the compiled text, read as quoted strings joined by AND, gives back exactly the maximal word runs; no term contains a quote. |
| QueryCompiler.JoinRoundTrip | crates/grimmored/src/vault_index/mod.rs:682-686 | Quoting and joining is undone by the query reader, which honours doubled quotes. |
| QueryCompiler.CompiledSize | crates/grimmored/src/vault_index/mod.rs:668-687 | With k terms the output is at most the query's bytes + 6k - 4, hence at most 604. |
| QueryCompiler.WhatIsRefused | crates/grimmored/src/vault_index/mod.rs:668-681 | A query is refused as too long iff it is over 512 bytes; within that, as empty iff it has no word character, and as having too many terms iff it has more than 16 maximal runs. |
| QueryCompiler.TextSearchFindsItsWords | crates/grimmored/src/vault_index/mod.rs:377-439 | A text search succeeds exactly when vault id, limit and text pass their tests and the vault is indexed, whatever else the text holds; its hits are the best `limit` of the notes that hold every maximal word run of the text in title, body or path. |
| VaultIndex.ReconcileNote | crates/grimmored/src/vault_index/mod.rs:318-375 | One scanned path against its row: the row becomes what the scan says, an equal revision is left alone, the inverted index stays exact, and exactly one class is counted. |
| VaultIndex.Index.ConsumeNote | crates/grimmored/src/vault_index/mod.rs:164-195 | The full index's closure does the same for a note that was read, against the revisions read at the start. |
| VaultIndex.Index.VisitNote | crates/grimmored/src/vault_index/mod.rs:164-195 | One note of the walk, added to what the walk has met: rows, counts and the revisions not yet met all move together. |
| VaultIndex.Index.DeleteUnmet | crates/grimmored/src/vault_index/mod.rs:197-203 | The rows the walk did not meet are deleted and counted. |
| VaultIndex.Index.IndexVisits | crates/grimmored/src/vault_index/mod.rs:146-203 | The walk and the deletion together bring every path of the vault to what the disk holds, or fail on the first unreadable note. |
| VaultIndex.Index.IndexVault | crates/grimmored/src/vault_index/mod.rs:126-231 | A full index succeeds exactly when the vault id is valid, the root is a readable directory and the stored revision is sound; then the rows are the disk's, other vaults are untouched, the vault row holds root, next revision and time, and the report counts them; on failure nothing changes and the error tells the first fault. |
| VaultIndex.Index.ScanAllHints | crates/grimmored/src/vault_index/mod.rs:253-258 | Hints are scanned in order into one change per path; the first failure is the result. |
| VaultIndex.Index.ApplyChanges | crates/grimmored/src/vault_index/mod.rs:277-286 | The loop over the changes reconciles each path once and keeps the rest. |
| VaultIndex.Index.ReconcileVaultPaths | crates/grimmored/src/vault_index/mod.rs:238-316 | An incremental reconcile fails exactly for the listed reasons and then leaves the table unchanged; otherwise exactly the hinted paths are brought up to date in one transaction, and the vault row gets its next revision and the time iff a note changed. |
| VaultIndex.RefusalIsFirstFault | crates/grimmored/src/vault_index/mod.rs:238-316 | Each refusal by what is wrong while all before it is right: the letters of the id, the root, a hint that is not settled, an unknown vault, another root, a negative revision. |
| VaultIndex.FirstFailureWins | crates/grimmored/src/vault_index/mod.rs:253-258 | A failing hint decides the outcome whatever hints follow it. |
| VaultIndex.HintsCarryTheDisk | crates/grimmored/src/vault_index/mod.rs:253-258 | Link-free hints that scan without failure carry exactly the disk's notes and cover every note path they name. |
| VaultIndex.OneHintCarriesTheDisk | crates/grimmored/src/vault_index/mod.rs:515-578 | The same of a single hint. |
| VaultIndex.IncrementalRefinesFull | crates/grimmored/src/vault_index/mod.rs:126-375 | Incremental and full form agree iff the changes include every path where rows and disk differ. |
| VaultIndex.ReconcileEqualsFullIndex | crates/grimmored/src/vault_index/mod.rs:126-375 | From the same table and disk, hints that name every differing path leave the rows of a full index, ids aside; the condition is exact. |
| VaultIndex.FullIndexLeavesNotePaths | crates/grimmored/src/vault_index/mod.rs:126-231 | A full index leaves only rows of note paths. |
| VaultIndex.IndexedBodiesAreTheDisk | crates/grimmored/src/vault_index/mod.rs:164-195 | With an injective hash every row's text after a full index is the disk's, although rows of equal revision are skipped. |
| VaultIndex.WrittenRowsAreTheFile | crates/grimmored/src/vault_index/mod.rs:164-195 | After a full index each row is of a live note, and is the row as it stood if that had the file's revision, else the file's own text, time and size with the title the rule gives that text at that path. |
| VaultIndex.ReconcileIsIdempotent | crates/grimmored/src/vault_index/mod.rs:277-375 | Reconciling the same hints again changes no row and counts nothing but unchanged paths. |
| VaultIndex.SecondReconcileKeepsRevision | crates/grimmored/src/vault_index/mod.rs:288-303 | A second reconcile of the same hints keeps the index revision. |
| VaultIndex.CommitRaisesRevision | crates/grimmored/src/vault_index/mod.rs:205-219 | A commit never lowers a vault's revision and keeps it only if it changed none of its notes. |
| VaultIndex.RevisionIsVersion | crates/grimmored/src/vault_index/mod.rs:205-303 | Over any run of commits to any vaults, two states that report the same revision of a vault hold the same notes of it. |
| VaultIndex.ClassesPartition | crates/grimmored/src/vault_index/mod.rs:318-375 | Created, updated, unchanged and deleted partition the examined paths. |
| VaultIndex.RowCountMoves | crates/grimmored/src/vault_index/mod.rs:318-375 | The new number of rows is the old one plus created minus deleted. |
| VaultIndex.ReportAddsUp | crates/grimmored/src/vault_index/mod.rs:277-316 | A reconcile's report adds up: examined is the sum of the classes, and the row count moves by created minus deleted. |
| VaultIndex.FullReportAddsUp | crates/grimmored/src/vault_index/mod.rs:197-231 | A full index's report adds up, and the rows left number the notes scanned. |
| VaultWatcher.WatchBatch.Absorb | crates/grimmored/src/vault_watcher.rs:117-142 | After an event every path it may have touched is in the batch or a full rescan is asked for; one is asked for by it exactly when it may have touched a path it does not name. |
| VaultWatcher.BatchCoversWhatWasTouched | crates/grimmored/src/vault_watcher.rs:117-142 | For any events: every path that one of them may have touched is named by the batch or covered by its full rescan. File events touch the paths they name; name, folder and unspecific events all that lies under one; errors, rescan notices and events without paths may touch anything. |
| VaultWatcher.BatchKeepsEveryHint | crates/grimmored/src/vault_watcher.rs:117-142 | A batch asks for a rescan, or names a path, iff some event in it did. |
| VaultWatcher.CollectBatch | crates/grimmored/src/vault_watcher.rs:153-176 | One pass of the loop yields the events absorbed in order, with a rescan also when the overflow flag was set. |
| VaultWatcher.ReconcileBatch | crates/grimmored/src/vault_watcher.rs:202-247 | A batch that asks for no rescan is committed incrementally if that is not refused; any other ends in a full index, or fails exactly when that is impossible and then changes nothing. |
| VaultWatcher.EventsAreNotLost | crates/grimmored/src/vault_watcher.rs:62-68 | A pending event for a path stays pending, in the queue or as the flag, until a batch has taken it and has yet to scan. |
| VaultWatcher.StepKeepsCover | crates/grimmored/src/vault_watcher.rs:144-247 | Every step keeps each path on which rows and disk differ covered by a pending event, the flag, a batch or a scan still due to commit the disk's value, although an incremental scan runs before the lock is taken. |
| VaultWatcher.InvHolds | crates/grimmored/src/vault_watcher.rs:51-247 | The cover holds in every interleaving of disk changes, callbacks, batches and the concurrent initial index. |
| VaultWatcher.RestingIndexIsTheDisk | crates/grimmored/src/main.rs:196-215 | At rest, with the flag clear and no failed batch since the last full index, the rows are the disk's. |
| VaultWatcher.FailedUntilWalk | crates/grimmored/src/vault_watcher.rs:178-200 | In every run a batch counts as failed exactly when it met an unreadable note and no full index of the worker was completed since. |
| VaultWatcher.FailedInitialIndexEndsIt | crates/grimmored/src/main.rs:196-215 | Once the initial index has failed nothing but the disk ever changes again. |
| VaultWatcher.FlagIsNeverForgotten | crates/grimmored/src/vault_watcher.rs:152-199 | With send and store in one step, a set flag always has an event on its way or a batch that will still take it. |
| VaultWatcher.InternalStepDecreases | crates/grimmored/src/vault_watcher.rs:152-199 | Every step of the companion itself lowers a well-founded measure and leaves the disk alone. |
| VaultWatcher.NeverStuck | crates/grimmored/src/vault_watcher.rs:152-199 | Unless everything is at rest, or a failed initial index has ended the process, some step of the companion is enabled. |
| VaultWatcher.EveryScheduleConverges | crates/grimmored/src/vault_watcher.rs:144-247 | Once the disk is still and readable every schedule comes to rest, with the rows of the disk and the flag clear if the flag had an event or a batch to take it, and with the flag set for good if not. |
| VaultWatcher.RestingStateAgrees | crates/grimmored/src/vault_watcher.rs:144-247 | A resting state that keeps the invariant, with the flag clear and no failed batch, has the disk's rows. |
| VaultWatcher.SplitCallbackStrandsAHint | crates/grimmored/src/vault_watcher.rs:62-68 | A run with the two halves of the callback split rests with the flag set and a note not indexed. |
| VaultWatcher.StoreStrandsIff | crates/grimmored/src/vault_watcher.rs:62-68 | On a still disk, whatever the schedule, a stored flag is never taken iff at the store nothing was queued or on its way and no batch was open; otherwise it is, and the rows become the disk's. |
| VaultWatcher.FailedBatchDropsItsHints | crates/grimmored/src/vault_watcher.rs:194-198 | A run from the fresh state in which a batch fails at an unreadable note; after that note is deleted and everything rests, on a readable disk, the note that came with it still has no row. |
| VaultWatcher.FailedBatchIsDropped | crates/grimmored/src/vault_watcher.rs:178-247 | The last batch, under every schedule: it fails iff something is unreadable and the batch asks for a rescan, takes the flag, finds the root gone, or names a path that is unreadable, a directory or through a file; the rows at rest are the disk's iff it is no such batch or no path it covers differs. |
| VaultWatcher.FailIsAnUnreadableNote | crates/grimmored/src/vault_index/mod.rs:126-135 | Something is unreadable in the machine's sense exactly when the root is not a directory or the full index must fail at a note. |
| VaultWatcher.CommitPathsIsReconcile | crates/grimmored/src/vault_index/mod.rs:277-304 | The machine's incremental commit is what a reconcile does to the revisions. |
| VaultWatcher.CommitWalkIsFullIndex | crates/grimmored/src/vault_index/mod.rs:164-219 | The machine's full commit is what a full index does to the revisions. |
| VaultWatcher.ScanPathIsClassification | crates/grimmored/src/vault_index/mod.rs:515-578 | On any disk, readable or not, the machine's scan of a path is the classification of a link-free hint naming it: it reads the disk's revision, and gives way exactly where the classification fails or asks for a full rescan. |
| PointerJournal.TargetHasNoNewline | installers/macos/release-common.sh:807-816 | A valid pointer target fits on one line. |
| PointerJournal.VersionIsSpelledOut | installers/macos/release-common.sh:807-816 | A version is three numbers between dots, and after them nothing or a dash and at least one letter, digit, dot or dash. |
| PointerJournal.ReadLines | installers/macos/release-common.sh:868-870 | The shell loop fills the array with the newline-terminated lines and the unterminated rest. |
| PointerJournal.JournalLines | installers/macos/release-common.sh:850 | The written journal is exactly three lines and 26 bytes longer than its targets. |
| PointerJournal.InstallableJournalReadsBack | installers/macos/release-common.sh:807-882 | Whatever two installed versions the writer accepts, the journal it writes is within the reader's size limit and reads back as the same pair. |
| PointerJournal.JournalIsTakenIff | installers/macos/release-common.sh:857-882 | A journal is taken for a switch iff it is the text written for that switch, with or without its last newline, of at most 1024 bytes, between two distinct ready versions. |
| PointerSwitch.PlanAdvances | installers/macos/release-common.sh:884-937 | From any stage of a switch or a recovery the next action keeps every cut of the unsynced changes recoverable. |
| PointerSwitch.SwitchesOnlyBetweenReady | installers/macos/release-common.sh:837-937 | Of any directory, sound or not: the pair is switched iff there is no journal and current and destination are distinct ready versions; a first link is made only where neither link is. |
| PointerSwitch.RecoversOnlyItsOwnSwitch | installers/macos/release-common.sh:857-898 | Of any directory: recovery acts on a journal iff it reads as a switch and current is one of its two versions; otherwise the script stops. |
| PointerSwitch.StepKeepsInv | installers/macos/release-common.sh:818-937 | Every step, kill, power loss or new run keeps: a journal (from, to) means current is one of them, and current = to means previous = from. |
| PointerSwitch.EveryCrashIsRecoverable | installers/macos/release-common.sh:818-937 | Crashes at any point, any number of times, also inside recovery, leave a directory recovery can start from, as long as unsynced changes survive in order and no version in place is lost. |
| PointerSwitch.PlanChangesMeaningOnce | installers/macos/release-common.sh:922-937 | Only the journal's rename changes the pair the directory stands for, from one with `from` current to (to, from). |
| PointerSwitch.AdvanceMovesMeaning | installers/macos/install.sh:112-194 | Only a switch being carried out moves the pair, to the first version installed or to one whose previous is the old current; recovery and staging never do. |
| PointerSwitch.SwitchIsAtomic | installers/macos/release-common.sh:884-937 | In a synced directory, a switch cut at any point means the old pair or (to, from), never a third. |
| PointerLoss.UnkilledRunsNeedNoOrder | installers/macos/install.sh:156-194 | Without process kills at most one change is unsynced at a time, and every power loss is harmless whatever it keeps and takes. |
| PointerSwitch.UnorderedLossAfterKillBreaksThePair | installers/macos/release-common.sh:884-920 | From any settled installation: kill, recovery and an out-of-order power loss leave equal links and no journal. |
| PointerLoss.LossIsGoodIffHarmless | installers/macos/release-common.sh:818-937 | In every run, kills included, and for whatever a power loss keeps and takes: it leaves a directory recovery can start from iff no surviving change needs a lost one (previous needs the journal, the journal a first link) and no lost version is named by a surviving link or journal. |
| PointerLoss.SoundRunsAreSteady | installers/macos/release-common.sh:818-937 | Runs whose power losses are harmless in this sense, in any order of writes, keep the journal invariant at every point. |
| PointerLoss.InOrderIsHarmless | installers/macos/release-common.sh:116-134 | Survival in the order of writing, with every version in place, is harmless. |
| PointerRuns.SwitchSurvivesEveryCrash | installers/macos/release-common.sh:884-937 | From the decision to switch, through any kills, restarts and every power loss that leaves a recoverable directory, in whatever order changes survive, also inside recovery, to the next decision: every cut means a pair it could mean at the decision or (to, from), and after recovery the links are one of these and differ. |
| PointerRuns.LossKeepsCuts | installers/macos/release-common.sh:818-937 | A harmless power loss leaves a pair that some cut already stood for, never a new one. |
| PointerRuns.UnsyncedVersionIsLost | installers/macos/install.sh:112-186 | From any settled installation: an install killed between its version's rename and its barrier, a second one left alone and a power loss leave `current` naming a version that is gone. |
| PointerRuns.OldPairOrNewPair | installers/macos/release-common.sh:884-937 | From a settled start: the old pair or (to, from) at every cut, and after every recovery the links themselves are one of the two, without a journal. |
| PointerRuns.PreviousIsLastNamed | installers/macos/install.sh:172-194 | Over every run without power loss, kills included, `previous` is the version `current` last named and differs from it. |
| PointerRuns.CommandCompletes | installers/macos/release-common.sh:884-937 | From every state a run can leave, whatever kill came before: a command left alone finishes the switch the journal tells of, puts its version in place and ends, with no journal and the links as the command intends them on the pair the directory meant. |
| PointerRuns.RollbackExchanges | installers/macos/rollback.sh:50-89 | A rollback left alone on a settled installation exchanges the links and syncs them. |
| PointerRuns.RollbackTwice | installers/macos/rollback.sh:50-89 | Two rollbacks restore both links, and all else is as it was. |
| LinuxInstall.InstallRoot.SetLink | installers/linux/install.sh:73-81 | A link is replaced by one rename. |
| LinuxInstall.InstallRoot.Stage | installers/linux/install.sh:297-393 | The version directory is checked if marked ready and made anew otherwise, marker last; success says that the checks passed, and then the version is complete. |
| LinuxInstall.InstallRoot.Point | installers/linux/install.sh:396-406 | The links are written as planned, previous first; refused iff current is set and names no ready version. |
| LinuxInstall.InstallRoot.Install | installers/linux/install.sh:297-407 | The script performs exactly the planned writes; it reports success iff a version marked ready is whole and matches, or another is healthy, and current is unset, already names the version or names a ready one. |
| LinuxInstall.InstallRoot.Rollback | installers/linux/rollback.sh:118-132 | The script succeeds iff both links name ready versions and the older one is healthy, and then exchanges the links; a refused one changes nothing. |
| LinuxInstall.PlanIsSafe | installers/linux/install.sh:297-407 | In every prefix of either script's writes, links are set only to complete versions, version directories in use are never touched, and the links are equal only between the two link writes. |
| LinuxInstall.PlanWritesSafe | installers/linux/install.sh:297-407 | The same safety of writes from any root a crash may have left, links equal or not. |
| LinuxInstall.StepKeepsSound | installers/linux/install.sh:198-205 | Launch, write, kill (also in the middle of removing a tree) and the exit trap keep both links on complete versions. |
| LinuxInstall.VersionsAreWhole | installers/linux/install.sh:198-205 | In every run without a kill, whatever command fails where, the exit trap leaves no half-made version: between scripts every version directory is whole. Removals are taken to succeed. |
| LinuxInstall.CurrentIsAlwaysComplete | installers/linux/install.sh:297-407 | At every crash point of any run `current`, once set, stays set and names a version with its whole payload and marker. |
| LinuxInstall.PairIsDistinct | installers/linux/install.sh:395-407 | Without a crash between the links, they differ whenever no script stands between them, and are equal when one does. |
| LinuxInstall.KillSplitsIffBetween | installers/linux/install.sh:401-406 | A kill leaves equal links iff it falls between the two link writes. |
| LinuxInstall.CompletedMovesThePair | installers/linux/install.sh:395-407 | A completed command keeps the pair or makes the old current the previous; an install whose checks pass makes its version current. |
| LinuxInstall.InstallSucceedsIff | installers/linux/install.sh:133-407 | From any root: a completed install makes its version current iff it already was, or the version passes its check and current is unset or ready; the old link then becomes previous, and the version directory is whole, untouched or gone as the checks say. |
| LinuxInstall.RollbackMovesIff | installers/linux/rollback.sh:118-132 | From any root: a rollback exchanges the links iff both name ready versions and the older is healthy, and otherwise leaves everything. |
| LinuxInstall.PreviousIsLastNamed | installers/linux/install.sh:395-407 | Over any completed commands `previous` is the version `current` last named, and differs from it. |
| LinuxInstall.RollbackTwice | installers/linux/rollback.sh:118-132 | Two rollbacks restore the installation. |
| LinuxInstall.KilledRollbackForgets | installers/linux/rollback.sh:131-132 | A rollback killed between its links leaves a pair from which no rollback returns to the other version. |
| WindowsInstall.InstallRoot.SwitchPointerState | installers/windows/release-common.psm1:839-879 | The pointer file is replaced and its old content becomes the previous state in one step; refused only when a previous state stands without a current one. |
| WindowsInstall.InstallRoot.Install | installers/windows/install.ps1:57-136 | The script performs exactly the planned writes; it succeeds iff the version is in place or staged, is verified, and the current pointer is verified and holds its hash or none was ever written. |
| WindowsInstall.InstallRoot.Rollback | installers/windows/rollback.ps1:21-63 | The script succeeds iff both pointers are of distinct verified versions and hold their hashes, and then exchanges the states, hashes included; a refused one changes nothing. |
| WindowsInstall.PlanIsSafe | installers/windows/install.ps1:57-136 | Every write of either script names an installed version with its launcher's hash, and a replacement always moves to another version. |
| WindowsInstall.PairSurvivesEveryCrash | installers/windows/release-common.psm1:839-879 | Whatever crashes: both pointers name installed versions, they differ, and `previous` is the pointer `current` last held. |
| WindowsInstall.RollbackTwice | installers/windows/rollback.ps1:21-63 | Two rollbacks restore both pointer files, hashes included. |
| WindowsInstall.InstallSucceedsIff | installers/windows/install.ps1:107-136 | From any root: a completed installation makes its version current iff it already was, or its checks pass and the current pointer is verified and holds its hash, or no pointer was ever written; the pair moves in one step and the new pointer holds the hash in place. |
| WindowsInstall.RollbackMovesIff | installers/windows/rollback.ps1:21-63 | From any root: a rollback exchanges the pointers iff they are of distinct verified versions and hold their hashes, and otherwise leaves everything. |
| Transcript.BigEndianRoundTrip | crates/grimmore-core/src/auth.rs:99-103 | A length that fits its field is recovered from its big-endian bytes. |
| Transcript.FieldsInjective | crates/grimmore-core/src/auth.rs:99-103 | Length-prefixed fields encode injectively, whatever they hold and however many there are. |
| Transcript.Feed | crates/grimmore-core/src/auth.rs:84-103 | Feeding the MAC field by field feeds it the nine length-prefixed fields in their order: domain, side, version, client version, role, client nonce, server version, session and server nonce. |
| Transcript.EncodeInjective | crates/grimmore-core/src/auth.rs:65-103 | Equal authenticated bytes mean the same side and the same transcript, field by field. |
| Handshake.AuthenticateClient | crates/grimmore-core/src/session.rs:51-115 | The client's reads, checks and writes on a stream, with every early return. |
| Handshake.AuthenticateServer | crates/grimmore-core/src/session.rs:117-194 | The server's reads, checks and writes on a stream, with every early return. |
| Handshake.ClientCompletesIff | crates/grimmore-core/src/session.rs:51-115 | A client writes its proof for a version 1 challenge that proves its own transcript and for nothing else, completes iff a ready message for its session and role follows, and ends with each error exactly when due. |
| Handshake.ServerCompletesIff | crates/grimmore-core/src/session.rs:117-194 | A server challenges a version 1 hello only, completes iff the answer is for its session and proves this transcript as the client, and writes and ends with each refusal exactly when due. |
| Handshake.FaithfulNetworkCompletes | crates/grimmore-core/src/session.rs:51-194 | Over a faithful network both sides complete on the same session, role and expiry. |
| Handshake.ChallengeComesFromServer | crates/grimmore-core/src/session.rs:75-86 | A challenge that verifies was made by a server run on exactly this transcript. |
| Handshake.AnswerComesFromClient | crates/grimmore-core/src/session.rs:163-179 | An answer that verifies was made by a client run on exactly this transcript. |
| Handshake.InvHolds | crates/grimmore-core/src/session.rs:51-194 | In every run against a network that reorders, replays and alters messages, every proof in circulation is explained by an honest run. |
| Handshake.ServerAgreement | crates/grimmore-core/src/session.rs:117-194 | A server that completes agrees with exactly one client run on role, versions, nonces and session id, and no other server run shares them. |
| Handshake.ClientAgreement | crates/grimmore-core/src/session.rs:51-115 | A client that completes has verified the challenge of exactly one server run, made for its own hello. |
| Handshake.RunsAreTheMethods | crates/grimmore-core/src/session.rs:51-194 | On the hostile network each run is one call of its side's method: given what it was delivered, the method writes and returns what the run stands for, so the agreement results speak of the two methods. |
| Handshake.ReadyCanBeForged | crates/grimmore-core/src/session.rs:96-111 | For any role, versions, tokens and expiry, a run of four steps completes a client with that expiry while its server has not completed and has written no ready message. |
| Handshake.ExpiryAgreesIff | crates/grimmore-core/src/session.rs:96-194 | In every run, a completed client and the server it verified hold the same expiry iff the ready message the client read is one that server wrote. |
| Framing.Reader.ReadExact | crates/grimmore-core/src/framing.rs:26-37 | The exact number of bytes is taken, or the stream has ended. |
| Framing.ReadJson | crates/grimmore-core/src/framing.rs:21-39 | A read fails exactly on a short stream, a bad length or an unparsable payload, and otherwise leaves what follows the frame unread. |
| Framing.ReadOutcome | crates/grimmore-core/src/framing.rs:21-39 | On any bytes: what a read answers follows from the four length bytes, the 4 MiB limit, the bytes that are there and the parser. |
| Framing.WriteJson | crates/grimmore-core/src/framing.rs:41-59 | A payload is written as one frame iff its size is legal; otherwise nothing is written. |
| Framing.CutOfFrame | crates/grimmore-core/src/framing.rs:21-59 | Cutting a written frame off a buffer gives the payload and what followed it. |
| Framing.CutOfMore | apps/obsidian-plugin/src/companion/plugin-session-client.ts:179-189 | What is cut off a buffer does not depend on bytes that arrive later. |
| Framing.FramesRoundTrip | crates/grimmore-core/src/framing.rs:21-59 | Every sequence of messages written frame by frame is read back in order, with the tail unread. |
| PluginClient.PluginSessionClient.FailConnection | apps/obsidian-plugin/src/companion/plugin-session-client.ts:225-237 | A failure forgets child and bytes and rejects every pending request once. |
| PluginClient.PluginSessionClient.AllocateRequestId | apps/obsidian-plugin/src/companion/plugin-session-client.ts:218-223 | Ids count up and wrap to 1 after the largest safe integer. |
| PluginClient.PluginSessionClient.EnterRequest | apps/obsidian-plugin/src/companion/plugin-session-client.ts:78-111 | A request enters the table iff the child runs, its input is writable, fewer than 32 are pending and its frame is of legal size. |
| PluginClient.PluginSessionClient.AcceptStdout | apps/obsidian-plugin/src/companion/plugin-session-client.ts:171-216 | A chunk that takes the buffer over 4 MiB and 4 bytes for each pending request, or for one if none is, fails the connection; otherwise the loop settles what Drain settles. |
| PluginClient.DrainSplit | apps/obsidian-plugin/src/companion/plugin-session-client.ts:178-216 | Draining what is there and then the rest is draining it all. |
| PluginClient.ChunksDoNotMatter | apps/obsidian-plugin/src/companion/plugin-session-client.ts:171-216 | Settled requests, leftover bytes and the outcome depend only on the concatenated bytes, not on the chunks, while the cap is not what fails. |
| PluginClient.CapHasRoom | apps/obsidian-plugin/src/companion/plugin-session-client.ts:172-178 | Bytes that are whole legal frames answering different pending requests fit under the cap. |
| PluginClient.DrainKeepsPeer | apps/obsidian-plugin/src/companion/plugin-session-client.ts:179-216 | Draining never fails a correct peer and leaves it correct for the answers still due. |
| PluginClient.CorrectPeerIsServed | apps/obsidian-plugin/src/companion/plugin-session-client.ts:171-216 | For every chunking of a correct peer's stream the cap holds, the connection lives and each frame settles its own request. |
| PluginClient.RequestKeepsPeer | apps/obsidian-plugin/src/companion/plugin-session-client.ts:78-126 | Requests entered between chunks keep the peer correct, and it may answer those too. |
| PluginClient.EachGetsItsOwn | apps/obsidian-plugin/src/companion/plugin-session-client.ts:203-214 | Served by a correct peer, each request is settled by the response with its id and by nothing else. |
| PluginClient.StepKeepsInv | apps/obsidian-plugin/src/companion/plugin-session-client.ts:78-237 | Every event keeps the table's books: bound, own ids, live timers, and one settlement for each request out of the table. |
| PluginClient.StepGrows | apps/obsidian-plugin/src/companion/plugin-session-client.ts:171-237 | No event forgets a request or takes back how it was settled. |
| PluginClient.WhatEndsTheConnection | apps/obsidian-plugin/src/companion/plugin-session-client.ts:106-237 | A timeout, a failed write, a close or the end of the current child's output rejects exactly the pending requests and forgets child and bytes; requests already settled stay as they were. |
| PluginClient.OldChildrenAreIgnored | apps/obsidian-plugin/src/companion/plugin-session-client.ts:128-169 | What a child that is no longer current writes, and how it ends, changes nothing. |
| PluginClient.SettledExactlyOnce | apps/obsidian-plugin/src/companion/plugin-session-client.ts:78-237 | In every run of requests, chunks, timeouts, write failures, exits and closes, at most 32 are pending and each request that entered is pending and unsettled, or settled once for all by its own response or a failure. |
| PluginClient.PendingCanSettle | apps/obsidian-plugin/src/companion/plugin-session-client.ts:106-111 | A pending request has a live timer, and that timer settles it. |
| PluginClient.NextIdCollides | apps/obsidian-plugin/src/companion/plugin-session-client.ts:218-223 | The next id is already pending iff some entry is a whole number of id cycles old; never while fewer than 2^53 - 1 ids were allocated since the oldest. |
| PluginClient.OverwrittenIsLost | apps/obsidian-plugin/src/companion/plugin-session-client.ts:106-111 | Entering a request keeps the books iff its id is free; otherwise an older request leaves the table unsettled. |
| PluginClient.LostStaysLost | apps/obsidian-plugin/src/companion/plugin-session-client.ts:225-237 | A request so lost is never settled by any later event. |
| PluginClient.RespawnKeepsOldBytes | apps/obsidian-plugin/src/companion/plugin-session-client.ts:128-169 | Two runs of seven events from the start, alike but for three bytes the first child left: in the one the second child's correct answer to the request written to it settles it, in the other the connection fails. |
| PluginClient.ServedIffNothingLeft | apps/obsidian-plugin/src/companion/plugin-session-client.ts:128-216 | For every correct stream and every chunking, a child's answers all settle their requests iff the buffer was empty when it started. |
| InFlight.SharedTable.Enter | crates/grimmored/src/ipc/connection.rs:73-95 | A request is admitted iff its id is free and fewer than 32 are in flight; otherwise the table is unchanged. |
| InFlight.SharedTable.CancelRequest | crates/grimmored/src/ipc/connection.rs:129-149 | A cancellation removes the entry and cancels its token, and says whether there was one. |
| InFlight.SharedTable.CancelAll | crates/grimmored/src/ipc/connection.rs:151-161 | The table is drained and every token it held is cancelled. |
| InFlight.SharedTable.Finish | crates/grimmored/src/ipc/connection.rs:114 | A finished worker removes the entry under its request's id. |
| InFlight.StepKeepsBooks | crates/grimmored/src/ipc/connection.rs:45-161 | Every step keeps the table equal to the live requests, provided a leaving worker removes its own entry. |
| InFlight.LeaveKeepsBooksIff | crates/grimmored/src/ipc/connection.rs:109-115 | That proviso is exact. |
| InFlight.BooksInEverySchedule | crates/grimmored/src/ipc/connection.rs:45-161 | Over any run the table equals the live requests, at every point and under every further schedule of the workers, iff no frame is ever admitted under the id of a worker that has not left. |
| InFlight.TableIsExact | crates/grimmored/src/ipc/connection.rs:45-161 | If ids are used once, in every run the keys are exactly the dispatched, unfinished, uncancelled ids, each held by its own frame. |
| InFlight.TableIsBounded | crates/grimmored/src/ipc/connection.rs:85-95 | Whatever the client does, the table never holds more than 32 entries. |
| InFlight.MailHolds | crates/grimmored/src/ipc/connection.rs:45-127 | In every run each frame is with its worker, with the loop, has had its response tried, is cancelled, or the connection is broken; and the bytes on the wire are the tried responses that fit a frame. |
| InFlight.ReceiptDecides | crates/grimmored/src/ipc/connection.rs:45-195 | A frame gets a worker iff it came before the session's expiry, in version 2.0, for the configured vault, grant and scope, with a deadline after now and at most 30 s away, is no cancellation, and its id is free and fewer than 32 are in flight; every other frame is answered at once with the error of the first test it failed. |
| InFlight.OnlyEntitledAreServed | crates/grimmored/src/ipc/connection.rs:45-266 | In every run: a frame that ever has a worker, gets a result or a confirmed cancellation was so entitled at the moment it came; every other response is the error of the first failing test, and a worker's answer is what the services said at the moment it was taken up. |
| InFlight.OneRefusalEach | crates/grimmored/src/ipc/connection.rs:163-195 | A request that is not entitled has exactly one refusal, and an entitled one none. |
| InFlight.AtMostOneResponse | crates/grimmored/src/ipc/connection.rs:45-127 | Every request frame gets at most one response, with its id, and only one that its own fields and the moment it came allow. |
| InFlight.ExactlyOneResponse | crates/grimmored/src/ipc/connection.rs:45-127 | Once all is quiet, a frame never cancelled on a connection that stayed writable was given one response, which went out iff its JSON is a legal frame. |
| InFlight.ClientReadsTheAnswers | crates/grimmore-core/src/framing.rs:21-59 | In every run the client reads off the wire exactly the responses that went out, in order, with nothing left over. |
| InFlight.OversizedResponseIsDropped | crates/grimmored/src/ipc/connection.rs:100-127 | For any services: a run in which a response over the limit is dropped, its request neither answered nor cancelled, while the next request on the same connection is answered. |
| InFlight.OversizedResponseExists | crates/grimmored/src/vault_index/mod.rs:653-659 | Such a response exists: a hit whose title is as long as a note may be. |
| InFlight.ReadersGetNoProposal | crates/grimmored/src/ipc/connection.rs:197-266 | In every run a read-only session's proposal requests are answered by errors only. |
| InFlight.WhoCancels | crates/grimmored/src/ipc/connection.rs:129-161 | A token is cancelled only by an entitled cancellation of the entry that holds it, or by the end of the connection. |
| InFlight.OnlyAnOrderlyEndCancels | crates/grimmored/src/ipc/connection.rs:45-72 | The loop ends at the end of the stream, a broken frame, an expiry notice or an own response that cannot be written; only the first and an expiry notice that went out cancel, and then all that is in flight. |
| InFlight.ReusedIdLosesItsEntry | crates/grimmored/src/ipc/connection.rs:100-149 | A run in which an id reused after a cancellation loses its entry to the first worker while still being worked on. |
| UnifiedDiff.JoinSplit | apps/obsidian-plugin/src/vault/patch-review.ts:117-118 | Splitting a text at newlines and joining gives it back. |
| UnifiedDiff.SplitJoin | apps/obsidian-plugin/src/vault/patch-review.ts:175 | Joining lines and splitting gives them back. |
| UnifiedDiff.HeaderRoundTrip | apps/obsidian-plugin/src/vault/patch-review.ts:148-156 | The printed hunk header reads back as its four numbers. |
| UnifiedDiff.PrefixLoop | apps/obsidian-plugin/src/vault/patch-review.ts:119-126 | The loop computes the common prefix. |
| UnifiedDiff.SuffixLoop | apps/obsidian-plugin/src/vault/patch-review.ts:127-135 | The loop computes the common suffix of what follows the prefix. |
| UnifiedDiff.CommonPrefixIsLongest | apps/obsidian-plugin/src/vault/patch-review.ts:119-126 | That prefix agrees and could not be a line longer. |
| UnifiedDiff.CommonSuffixIsLongest | apps/obsidian-plugin/src/vault/patch-review.ts:127-135 | That suffix agrees and could not be a line longer. |
| UnifiedDiff.BuildUnifiedPreview | apps/obsidian-plugin/src/vault/patch-review.ts:111-186 | Refused iff the two texts are over 512 KiB or 10000 lines together; otherwise the printed preview. |
| UnifiedDiff.TrailingContextAgrees | apps/obsidian-plugin/src/vault/patch-review.ts:161-163 | The trailing context, taken from the new text, is also the old text's. |
| UnifiedDiff.HunkIsAPatch | apps/obsidian-plugin/src/vault/patch-review.ts:137-164 | For any agreeing prefix and suffix the hunk takes the old lines to the new and back, and its counts are the numbers of its lines. |
| UnifiedDiff.PreviewRoundTrip | apps/obsidian-plugin/src/vault/patch-review.ts:111-176 | Parsing the printed preview, end-of-file remarks included, gives back its hunk. |
| UnifiedDiff.PreviewIsAPatch | apps/obsidian-plugin/src/vault/patch-review.ts:111-176 | For all texts the printed preview, read and applied to the note, gives the replacement, and undone gives the note. |
| UnifiedDiff.ContextIsThreeLines | apps/obsidian-plugin/src/vault/patch-review.ts:137-164 | The hunk shows the changed part whole, with up to three unchanged lines before it and after it, and starts at the first of them. |
| UnifiedDiff.PreviewNamesTheNote | apps/obsidian-plugin/src/vault/patch-review.ts:148-176 | The preview names the note on both sides, and remarks on the last newline exactly when just one of the texts has it. |
| UnifiedDiff.HeaderCountsLines | apps/obsidian-plugin/src/vault/patch-review.ts:148-156 | The header's counts are the numbers of old and new lines printed. |
| UnifiedDiff.DifferenceIsShown | apps/obsidian-plugin/src/vault/patch-review.ts:137-164 | A changed line is printed iff the texts differ. |
| PatchReview.PreparePatchReview | apps/obsidian-plugin/src/vault/patch-review.ts:53-75 | A review is shown or refused with the first failing check; whatever the method shows has the guarantees that ShownReviewGuarantees lists. |
| PatchReview.SafePathIsWritable | apps/obsidian-plugin/src/vault/patch-review.ts:88-109 | A path is safe iff it ends in `.md`, is of at most 1024 bytes, has no backslash, control character or drive, and every stretch between slashes is non-empty and does not start with a dot. |
| PatchReview.ProposalIsTakenIff | apps/obsidian-plugin/src/vault/patch-review.ts:20-51 | A proposal is taken iff it has the four fields with two content revisions, is for this very note at a safe path, and its text has the revision it names; else the error tells the first fault. |
| PatchReview.ReviewIsShownIff | apps/obsidian-plugin/src/vault/patch-review.ts:53-75 | A review is shown iff, besides, the note still has the expected revision, the text changes and both texts fit the screen; else the error tells the first fault. |
| PatchReview.ShownReviewGuarantees | apps/obsidian-plugin/src/vault/patch-review.ts:53-75 | A review on the screen is of the proposal that was sent, for this note; its diff takes the text read to the replacement and back and prints a changed line; and the write it can lead to happens for the text that was read and for no other. |
| PatchReview.WritableIsInVault | apps/obsidian-plugin/src/vault/patch-review.ts:88-109 | Every path the plugin will write is one the companion accepts. |
| PatchReview.RequestIsAnsweredIff | crates/grimmored/src/vault_index/mod.rs:441-471 | For every request and index: a proposal is answered iff the path is Markdown below the vault with no empty, `.` or `..` component, the replacement is at most 4 MiB and the index holds that note at the expected revision; else the error tells the first fault. |
| PatchReview.HonestProposalIsShown | crates/grimmored/src/vault_index/mod.rs:441-471 | For every request, index and note: an honest answer is shown iff the note kept its path, the plugin may write it, the index holds the revision of the text read, the text changes and both fit; it then carries what was typed. |
| PatchReview.Vault.Process | apps/obsidian-plugin/src/vault/vault-process-writer.ts:32-37 | The read-modify-write replaces the text iff its revision is the expected one; otherwise the vault is unchanged. |
| PatchReview.Vault.ApplyRevisionCheckedPatch | apps/obsidian-plugin/src/vault/vault-process-writer.ts:26-43 | Succeeds iff the proposal is valid for the note's path and the note has the expected revision; then exactly that note holds exactly the replacement; the written-revision error cannot arise. |
| PatchReview.AllBacked | apps/obsidian-plugin/src/main.ts:97-134 | In every run whatever a review holds was read, submitted, answered and approved by earlier events, the last two while the note had the path of the proposal. |
| PatchReview.ShownIsIndexed | apps/obsidian-plugin/src/main.ts:97-134 | In every run with an honest companion, whatever is shown or about to be written was answered when the index of that moment held that note at the revision of the text read, and carries the submitted text. |
| PatchReview.WhoChangesText | apps/obsidian-plugin/src/vault/vault-process-writer.ts:32-37 | Only an outside change, or a queued approved write that finds its revision, changes a note's text. |
| PatchReview.WrittenIsReviewed | apps/obsidian-plugin/src/main.ts:97-134 | For any interleaving of reviews and outside writers, every other change of a note replaces exactly the text the displayed diff was computed from by exactly the proposed text, after the user approved that diff, and the diff applied to the one text gives the other, both ways. |
| PatchReview.SubmittedIsWritten | apps/obsidian-plugin/src/main.ts:97-134 | With a companion whose answers are its index's, moment by moment, the text written is the text the user submitted. |
| PatchReview.WrittenIsSubmittedIffEchoes | apps/obsidian-plugin/src/main.ts:97-134 | In every run a reviewed write has exactly one submission and one answer before it, and writes the submitted text iff the answer carried it. |
| PatchReview.OtherTextIsWritten | apps/obsidian-plugin/src/main.ts:97-134 | A concrete answer with another text than the one submitted is shown, approved and written. |
| PatchReview.UnloadStopsReviews | apps/obsidian-plugin/src/main.ts:97-134 | Once the plugin is unloaded no review starts or gets further: each stays or ends, and only writes queued before still run. |
| PatchReview.ApprovedWriteRuns | apps/obsidian-plugin/src/main.ts:117-134 | An approved write stays queued through every other event, unloading included, until it runs. |

## Left out

- Library code (SHA-256, HMAC, base64, JSON, random numbers, the tokenizer, the ranking score, Unicode tables): function parameters; the MAC is ideal and nonces are fresh.
- Sockets, pipes, peer credentials, file permissions, access lists, the keyring and code signing: no visible semantics here, or a yes/no verdict on a version.
- Modals, settings, notices, metrics, command-line parsing, tool routing and generated types: user interface and wrappers.
- Clocks: deadlines and expiry are compared with a time that each event brings; timers are events that may fire while they are set.
- The retry loop of `index-reconciliation.ts`: a review may be answered by any reply, which covers it.
- The wording of error messages and log lines.
- File names that are not valid Unicode, and links that lead outside the vault: the former are absent, the latter dangle.
- The title rule of a note: a function of text and path, so that titles cannot differ for equal revisions and paths.
- Modification times of rows whose revision did not change: the source skips such rows, so nothing is claimed of them.
- In the watcher machine a hint is a plain path of the vault under no link; hints outside it, with parent components or through links are in `VaultTree` and `VaultIndex`.
- Failures of the database itself (SQLite errors, a poisoned lock): a batch, a full index and an initial index fail only over what is on disk or in the table.
- macOS staging of a version: the script fills, marks and syncs a private tree and renames it as a whole, so the model publishes a version in the one step of that rename.
- The journal's temporary file is synced before its rename, so the model has no torn journal; a pointer's temporary link is not modelled.
- Linux power loss: the script syncs nothing, so its crashes are process kills and failing commands.
- Windows `File.Replace` and directory moves are taken as single atomic steps, as the script relies on them to be.
- The spelling of version names on Linux and Windows: a version is any string, since the scripts refuse a bad one before they write.
- Stable launcher links and `PATH`: written before the pointers and not read by them.
- Killing the child after a failed connection, and its standard error: not visible in the table.
- `parseJsonRpcResponse`, `parseHealthResult`: one parser parameter that either gives a response with an integer id or nothing.
- Process exit, unloading of the whole companion and several connections at once: connections share nothing but the storage.
- VaultWatcher.RestingIndexIsTheDisk: assumes that no batch failed since the last full index, because a failed batch is dropped with its hints.
- VaultWatcher.EveryScheduleConverges: assumes a readable disk and no batch failed before it, because a failed batch is dropped with its hints.
- PluginClient.ServedIffNothingLeft: assumes payloads of JSON in UTF-8 (no zero byte, none above 0xF7) that do not parse when cut short, as printed JSON objects do not.
- VaultIndex.ReconcileEqualsFullIndex: assumes hints under no symbolic link, because a link can report a note the walk does not yield.
- PointerSwitch.EveryCrashIsRecoverable: assumes unsynced changes survive in order and versions in place are not lost; the exact condition is PointerLoss.LossIsGoodIffHarmless.
- PointerRuns.PreviousIsLastNamed: assumes no power loss, because a power loss takes back moves the process had already seen.
- InFlight.TableIsExact: assumes ids are used once on a connection, because the table is keyed by id alone; the exact condition is InFlight.BooksInEverySchedule.
- PatchReview.WrittenIsReviewed: assumes an injective content hash, as the check compares revisions only.
- PatchReview.HonestProposalIsShown: assumes that the hash of a text has the form of a content revision, as a printed SHA-256 has.
- LinuxInstall.VersionsAreWhole: assumes no kill and removals that succeed, because a half-made version directory stays until the next install of that version.
