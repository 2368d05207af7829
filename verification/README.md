# A verified model of a peer-to-peer folder synchroniser

This project models the state machines on which the synchroniser's guarantees rest and proves the guarantees
over every run. `dafny verify dfyconfig.toml` checks the whole project.

- **Causal register** (`Clocks`, `Register`, `Lattice`, `Causality`). Each path holds a set of concurrent
  heads, a version vector with a content each. Joins form a semilattice, and version vectors decide causality
  because every edit is issued on top of everything its replica has observed.
- **Share engine** (`Paths`, `Ordering`, `Index`, `Effects`, `Scans`, `Choices`, `ApplyOrder`, `ShareStore`). The index
  tables and every decision of a scan, a review, a choice, a merge and an application. `ShareStore.Share` is
  the imperative form with its paging loops and rolled-back transactions; each method is proved against the
  functions of `Index`.
- **Network** (`Network`, `CausalSafety`, `ExchangeSafety`, `Theorems`, `Growth`, `Sessions`). Any number of devices with scans,
  reviews, choices, applications, half-finished sessions, checkpoints and index rollbacks. A log per path
  records what was truly issued and on top of what; two invariants are kept by every step, and the theorems
  follow for every reachable state. `Growth` says what a device's heads take in over a stretch of a run, and
  `Sessions` follows whole sessions, with whatever both peers scan, edit and apply meanwhile, to the heads they leave.
- **Folder journal** (`FolderHistory`, `RootJournal`, `Applications`). Names and inodes, a crash between any two calls, and a user
  who may edit, replace or remove any visible file between any two calls. `Applications` joins the journal to the
  index: an application cut off anywhere never makes the next scan invent a revision.
- **Central commands** (`Central`, `Fleet`). The server's queue, the agent's journal, and a link that may lose,
  delay and repeat requests, with agents that stop between any two journal statements.
- **Index replacement** (`IndexReplacement`). The restartable swap of a share's index by a prepared one.
- **Archive framing** (`Archive`). The byte-level printer and parser of a device archive.
- **Verified receive** (`Blocks`, `Install`). The resumable block transfer, and the crash-safe installation of
  the received file.

## Reading the model

- A replica's name is its epoch: the source names a replica by the device identity and the first 16 characters
  of the epoch, and each rollback draws a new epoch, so names are taken to be fresh.
- Revision identifiers and block hashes are injective functions, and JSON is a codec with a length
  (`Register.Codec`, `Archive.Codec`, `Blocks.Injective`). The limits of 64 KiB and 128 heads are error results.
- SQLite tables are maps and sets; a transaction that fails restores the tables (`ShareStore.Share.Restore`).
  In `Network` a transaction is a sequence of steps for single paths, so every run of the source is a run of
  the model.
- The archive writer bounds no manifest and the reader does, so `Archive.RoundTrip` states when a written archive
  can be read; the only caller reads every manifest through the reader's limit first.
- Archive paths are byte strings: an accepted path is ASCII, so the refusal of invalid UTF-8 adds nothing.
- Durability is taken at each call: a write followed by a sync is one step. Random names and ids are fresh.
- `ensures` clauses that speak of `quiet` hold when nobody but the program touches the folder; the others hold
  for every interleaving with the user. Clauses that speak of `reliable` say what happens when no call is refused
  for a reason outside the model and the process lives; the others hold for every failure and crash.
- `RootJournal.Root.trace` records every change of the folder's names, every link that was refused, and which files
  somebody else wrote into. The program's own calls must be lawful (they replace no name and drop no file), so
  `NothingLost` says who took a file away; and `own` lists exactly what the program itself did, whoever else acted.
  That only `Others` writes other people's entries can be read off the methods; their contracts exclude it for the
  program itself only when `quiet` holds.
- Methods are proved against functions on the tables, and what those functions mean is stated a second time on the
  rows alone (`ScanTaken`, `MergeTaken`, `StageTaken`, `SendsRows`, `Shown`, `ReviewTaken`, `ChoiceTaken`, `PollTaken`).
- `Blocks.Receiver` and `Install.Receiver` are two halves of the one receiver in `src/storage.rs`: the first has its
  part file and manifest, the second its names in the destination directory.

## Where the code is less than its intent

- `choose` saves its revision before the row's `observed` catches up. If the application does not follow, because
  the process died or because the folder refuses a directory in place of a file or the reverse, the replica no
  longer knows its own past. `Choices.InterruptedChoiceReusesItsCounter` says for every reachable state what the
  next scan does about it: it repairs the row exactly when it finds what was chosen (nothing, for a deletion);
  finding the earlier content, or nothing without approval, leaves the row as it is, to the same choice at the
  next scan; anything else issues the choice's own counter a second time. Where all heads had been observed such
  a scan is refused (`Choices.InterruptedChoiceCanBlockScans`). Of the other operations, applying the row, as the
  next commit does, and a further choice repair it, a merge alone does not, and a deletion approved after a review
  issues the counter a second time (`Choices.InterruptedChoiceOtherRoutes`). In `Network` a choice is one step.
- A block that `missing_from` lists may already be complete when it returns, because a later reused block
  leaves a gap of zeros before it; `Blocks.Receiver.MissingFrom` therefore promises that every incomplete block
  is listed, not that every listed one is incomplete.

## Model

| member | source | states |
|---|---|---|
| Clocks.Merge | src/versions.rs:53-60 | The merge loop yields, for every device of either clock, the larger counter. |
| Clocks.RelationOf | src/versions.rs:61-76 | The flag loop decides the relation of the two clocks as points of a product order. |
| Clocks.Advance | src/versions.rs:43-52 | Only the given device moves, by one; an invalid device name or an exhausted counter is an error. |
| Clocks.CompareIsPointwise | src/versions.rs:61-76 | Before, After, Equal and Concurrent are exactly the cases of the pointwise order; swapping the arguments swaps Before and After. |
| Clocks.EqualClocksAreIdentical | src/versions.rs:30-42 | On validated clocks (positive counters) Equal means identical. |
| Clocks.ZeroCountersBreakIdentity | src/versions.rs:30-42 | Without positive counters two different clocks compare Equal: a concrete pair. |
| Clocks.MergeIsLeastUpperBound | src/versions.rs:53-60 | The merge is above both clocks and below every common upper bound. |
| Clocks.AdvanceIsLater | src/versions.rs:43-52 | An advanced clock is strictly later, valid, and differs at one device only. |
| Clocks.LeqTransitive | src/versions.rs:61-76 | The clock order is transitive. |
| Register.Join | src/model.rs:49-100 | The push, sort, dedup and survivor loops return the maximal revisions of both sets in identifier order, with every error of the source in its order. |
| Register.Identify | src/model.rs:59-72 | Every revision is checked in turn; the first defect is the error returned. |
| Register.DedupById | src/model.rs:73-74 | After sorting, exactly one candidate per identifier remains. |
| Register.Conflicting | src/model.rs:75-82 | The pairwise loop finds a clash exactly when two candidates with equal clocks differ in content. |
| Register.SupersededAt | src/model.rs:83-91 | The inner loop finds whether some candidate is causally later. |
| Register.Survivors | src/model.rs:83-91 | What is kept are exactly the causally maximal candidates, in identifier order. |
| Register.Edit | src/model.rs:36-48 | An edit folds the clocks of all its heads, advances once, and is validated by a join. |
| Register.Select | src/model.rs:101-110 | The shown revision: files before directories before deletions, then the smallest identifier. |
| Lattice.NormalForm | src/share/backup/validate.rs:3-18 | A version set passes the validator exactly when it is valid, mutually concurrent, sorted, free of clashes and within the limits. |
| Lattice.JoinedHeads | src/model.rs:49-100 | A successful join holds exactly the maximal revisions of the union. |
| Lattice.JoinIsNormal | src/model.rs:49-100 | Every successful join passes the validator. |
| Lattice.JoinSucceedsUnlessTooLarge | src/model.rs:49-100 | Well-formed sets without a clash can fail to join on the size limits only. |
| Lattice.JoinSucceedsExactly | src/model.rs:49-100 | A join succeeds exactly when both sets and the result are within 128 heads and 64 KiB, every revision is valid, and revisions with the same counters for every device agree in content. |
| Lattice.JoinCommutes | src/model.rs:49-100 | Successful joins commute. |
| Lattice.JoinAssociates | src/model.rs:49-100 | Successful joins associate. |
| Lattice.JoinIsIdempotent | src/model.rs:49-100 | Joining a well-formed set with itself changes nothing. |
| Lattice.JoinIsLeastUpperBound | src/model.rs:49-100 | The join is the least upper bound in the causal order on version sets. |
| Lattice.BelowAntisymmetric | src/model.rs:49-100 | Well-formed sets that cover each other are the same list. |
| Lattice.JoinAbsorbs | src/model.rs:49-100 | A set absorbs whatever it already covers. |
| Lattice.MaximalAbsorbs | src/model.rs:83-91 | Dropping superseded revisions early does not change the outcome. |
| Lattice.JoinedAllHeads | src/model.rs:49-100 | Folding a family of sets yields the maximal revisions of them all. |
| Lattice.DeliveryOrderIsIrrelevant | src/model.rs:49-100 | Folding a family in any order and with any repetition yields one value. |
| Lattice.KnowledgeIsLeast | src/model.rs:36-47 | The fold over the head clocks is their least upper bound. |
| Lattice.EditSupersedesItsBase | src/model.rs:36-48 | The edit is causally after every head it was made on. |
| Lattice.SelectedIsBest | src/model.rs:101-110 | No head is preferred over the selected one: a file if there is one, else a directory if there is one, and among those of its kind the smallest identifier. |
| Lattice.DeletionNeverHidesContent | src/model.rs:101-110 | A deletion is shown only when every head is a deletion. |
| Causality.ClocksDecideCausality | src/versions.rs:61-76 | In a causally closed log, Before holds exactly for the causal past and Equal exactly for the same revision. |
| Causality.IssuedRevisionsAreConsistent | src/model.rs:75-82 | Equal clocks never carry different contents. |
| Causality.IssueIsFresh | src/share.rs:311-313 | A replica that has observed all it issued never reuses a counter. |
| Causality.IssueKeepsClosed | src/model.rs:36-47 | Issuing on top of known heads that include all own revisions keeps the log causally closed. |
| Causality.StaleBaseBreaksClosure | src/share.rs:806-816 | Conversely, issuing from heads that miss an own revision leaves a log whose clocks mislead. |
| Causality.SupersededIsObserved | src/share.rs:558-566 | A revision is superseded by an edit exactly when the edit had observed it. |
| Causality.EditKeepsUnseenHeads | src/share.rs:558-566 | The heads after an edit are the edit and precisely the heads not covered by what was observed. |
| Index.SaveKeepsSound | src/share.rs:349-388 | Writing a row keeps the validator conditions and object closure. |
| Index.ScanKeepsSound | src/share.rs:485-618 | Whatever is on disk, scanning a path keeps the index well-formed and its objects present. |
| Index.AcknowledgeKeepsSound | src/share.rs:746-773 | Acknowledging an application keeps the index well-formed. |
| Index.ResolveKeepsSound | src/share.rs:775-816 | Recording a choice keeps the index well-formed. |
| Index.StageKeepsSound | src/share.rs:624-645 | Staging keeps the index well-formed; every staged file is present or requested. |
| Index.CommitKeepsSound | src/share.rs:672-714 | With no object outstanding, committing a row keeps the index well-formed and closed under objects. |
| Index.ReceivedKeepsSound | src/share.rs:663-671 | Receiving an object keeps the index well-formed. |
| Index.EditedHeads | src/model.rs:36-48 | A successful edit is the well-formed set of one valid revision. |
| Effects.ScanEffect | src/share.rs:526-608 | A scan either issues on top of what was observed, and a deletion only when approved and absent, or leaves the heads alone. |
| Effects.IssueEffect | src/share.rs:558-566 | An issue observes the new revision, covers the old heads and renumbers the row past every cursor. |
| Effects.ChooseEffect | src/share.rs:775-816 | A completed choice replaces all heads by one revision that supersedes them and is observed. |
| Effects.CommitMoves | src/share.rs:672-714 | A committed row covers both its old heads and the staged ones and invents nothing. |
| Effects.AcknowledgeMoves | src/share.rs:746-773 | An application leaves the heads and makes them observed. |
| Scans.RescanIssuesNothing | src/share.rs:526-608 | Scanning the same disk a second time issues nothing and renumbers nothing. |
| Scans.PublicationGapInventsNothing | src/share.rs:526-557 | A scan between folder change and acknowledgement issues nothing, whichever content it sees. |
| Scans.RecoveryIssuesOnlyUnknownBytes | src/share.rs:681-724 | After a rollback has merged remote metadata, known bytes issue nothing and unknown bytes issue one fresh revision beside every unobserved head. |
| Scans.SupersessionShape | src/share.rs:558-566 | The heads left by an issue, stated on the row itself. |
| Scans.ScanBecomes | src/share.rs:526-608 | Every case of a scan, on the row alone: a found content that the row neither shows nor awaits becomes one new revision after everything observed, beside every head it does not supersede; a missing path becomes a deletion only with approval and is put under review otherwise; in every other case the heads stay and only what is shown and observed is brought up to date. |
| Choices.InterruptedIsHazard | src/share.rs:806-816 | In any run, a choice recorded but not acknowledged leaves the only head unobserved, with the own counter that the next edit would use. |
| Choices.ScanOfHazardDecides | src/share.rs:526-607 | For whatever the next scan finds, with or without approval: it adopts exactly the chosen content, keeps exactly the earlier one, reviews exactly an unapproved absence, and otherwise issues. |
| Choices.ScanRestoresExactlyTheChosen | src/share.rs:526-607 | After a successful scan the replica knows its own past again if and only if the scan found what was chosen. |
| Choices.QuietScanKeepsHazard | src/share.rs:526-607 | A scan that keeps or reviews leaves the hazard in place for a later edit. |
| Choices.IssuingScanReusesTheCounter | src/share.rs:558-600 | A scan that issues repeats the choice's counter and leaves a history whose clocks no longer decide causality. |
| Choices.HazardCanBlockScans | src/model.rs:75-82 | If the choice added only its own counter, a scan of other bytes is refused as an equal clock. |
| Choices.InterruptedChoiceReusesItsCounter | src/share.rs:806-816 | For every reachable state, every find and both approval values: repaired exactly by the chosen content, left in place by the earlier content or an unapproved absence, counter reused by everything else. |
| Choices.InterruptedChoiceCanBlockScans | src/share.rs:806-816 | In a reachable state with every head observed, a third content is refused after an interrupted choice. |
| Choices.ApplyingRepairs | src/share.rs:746-773 | The row is a candidate unless it is under review, and applying it, as the next commit does, makes the replica know its own past again. |
| Choices.CommittingThenApplyingRepairs | src/share.rs:683-720 | Merging remote heads alone does not repair the row, whatever they are; applying the merged row does. |
| Choices.ChoosingAgainRepairs | src/share.rs:775-817 | A further choice that is carried through repairs the row. |
| Choices.ApprovingReusesTheCounter | src/share.rs:831-860 | A deletion approved after the row was reviewed issues the choice's counter a second time, breaks the log's closure and still misses the choice. |
| Choices.InterruptedChoiceOtherRoutes | src/share.rs:672-860 | For every reachable state, every operation but a scan: an application repairs the row, before or after a merge, and so does a further choice; a merge alone does not; an approved deletion reuses the counter. |
| Applications.ChooseOtherKind | src/root.rs:274-290 | Choosing a directory over a file or a file over a directory always fails to apply, and the scan that follows leaves the hazard. |
| CausalSafety.NextKeepsCausalInv | src/share.rs:311-313 | Every step of every device, rollbacks included, keeps causal closure, counter freshness and the validator conditions. |
| CausalSafety.RollbackKeepsInv | src/share/backup.rs:435-453 | Restoring any checkpoint under a fresh epoch keeps the invariant. |
| CausalSafety.ResolvedKeepsInv | src/share.rs:775-816 | A completed choice keeps the invariant. |
| ExchangeSafety.NextKeepsExchangeInv | src/sync.rs:171-236 | Every step keeps what cursors and sessions promise: rows up to the cursor are covered, requested objects are held by the sender. |
| ExchangeSafety.BeginIsOk | src/sync.rs:65-72 | A session may start from the cursor because everything up to it is already covered. |
| ExchangeSafety.SendIsOk | src/sync.rs:65-84 | Sending rows in sequence order loses none, though the sender's rows keep moving. |
| ExchangeSafety.SentFlow | src/sync.rs:74-82 | Reading the lowest row past the last one keeps everything read so far covered, staged or on the wire. |
| ExchangeSafety.StageIsOk | src/share.rs:624-645 | Staging takes the next record off the wire without losing coverage. |
| ExchangeSafety.CommitDoneIsOk | src/share.rs:672-714 | After the commit every row the sender had up to its hello is covered. |
| ExchangeSafety.SetCursorIsOk | src/sync.rs:222-234 | Advancing the cursor to the hello's sequence is justified. |
| Theorems.RunsAreSafe | src/share.rs:311-313 | Both invariants hold at the end of every run. |
| Theorems.VersionVectorsDecideCausality | src/versions.rs:61-76 | In every reachable state clocks decide the true causal past, for any two revisions issued on a path. |
| Theorems.JoinsNeverConflict | src/model.rs:75-82 | The equal-clock rejection never fires between version sets of any devices; only the size limits can. |
| Theorems.EditsAreFresh | src/share.rs:311-313 | A local edit is never before or equal to any revision issued anywhere on its path. |
| Theorems.EditSupersedesExactlyWhatWasObserved | src/share.rs:558-566 | After an edit or approved deletion in any reachable state: the new revision plus precisely the heads not below what was observed. |
| Theorems.DeltaRefinesFull | src/sync.rs:65-84 | In every reachable state, joining the rows past the cursor gives the same heads as joining all rows. |
| Theorems.CursorsNeverOverrun | src/sync.rs:66-72 | The refusal of a cursor beyond the sender's sequence never fires. |
| Theorems.SessionsAreServable | src/sync.rs:117-162 | The receiver's order check never fires, and every object it may ask for is held by the sender. |
| Theorems.SessionConverges | src/sync.rs:171-236 | In one reachable state, what the two directions would join agrees, and joining it again changes nothing. |
| Growth.StepGrows | src/share.rs:349-381 | Unless rolled back, one step leaves a device's heads above the old ones and what it issued, drawn from those and, for a commit, the staged heads. |
| Growth.RunGrows | src/share.rs:349-381 | Over any stretch of any run without a rollback, a device's heads stay above everything it held and everything it has issued since. |
| Growth.HeadsAreMaximal | src/model.rs:83-91 | Well-formed heads drawn from issued revisions and above all of them are exactly their maximal ones. |
| Sessions.SessionGathers | src/sync.rs:171-236 | One direction of a session, with scans, edits, choices, reviews and applications of both peers at any time: the receiver ends with nothing invented and nothing of its own lost, and, unless the sender edited the path before the commit, with exactly the maximal revisions of what both held and what it issued itself. |
| Sessions.SessionGathersBothWays | src/sync.rs:171-236 | When both peers commit, each ends with the maximal revisions of what both held and what it issued itself once the commits had begun. |
| Sessions.DeltaSessionRefinesFull | src/sync.rs:171-236 | Run step by step from the cursor, scans and applications included, a committed session leaves at every path that nobody edited the join of all that both held, whatever other devices do meanwhile. |
| Sessions.SessionEndsAtTheJoin | src/sync.rs:171-236 | When both peers have committed, whatever they scanned and applied, both hold at every path that neither edited the join of their heads before the session. |
| Sessions.RetriedSessionsGather | src/sync.rs:222-234 | After any number of sessions given up anywhere, with either side committed or applied and with local edits at any time, a completed session leaves each peer with the maximal revisions of what both held originally and all that was issued on the way. |
| Sessions.RetriedSessionsEndAtTheJoin | src/sync.rs:222-234 | In particular, where nothing was issued, a completed session after any attempts ends at the join of the original heads. |
| Sessions.StepGathers | src/sync.rs:65-114 | Before the commits, what is staged or on the wire at a path is what the sender held or has issued, and an unedited row stays within the number its hello announced. |
| Sessions.EndedIsStaged | src/sync.rs:65-84 | When the sender has nothing left to send, its announced row is covered by what the receiver holds or has staged. |
| Sessions.TrailingRowStep | src/share.rs:672-714 | During the commits, applications, scans and edits keep the receiver above what was staged, and only what arrived or was issued comes in. |
| Sessions.CommittedIsCovered | src/share.rs:672-714 | The commit ends only when everything staged is covered by the heads. |
| Sessions.AttemptsInventNothing | src/sync.rs:171-236 | During any attempts neither peer holds, stages or is sent anything but what both held originally and have issued since. |
| Sessions.AttemptsLoseNothing | src/sync.rs:171-236 | After any attempts both peers together still know all of it. |
| Theorems.DeletionsAreExplicit | src/share.rs:580-608 | A step that issues a deletion is an approving scan, a review of a pending path with unchanged versions, or a choice of a deletion. |
| Theorems.DeletionsStemFromRequests | src/share.rs:580-608 | Every deletion in any log of any run was issued at a step that is an approving scan of a missing path, a review of a pending path as it stands, or a choice of a deletion. |
| Theorems.DeletionsHaveExplicitCauses | src/share.rs:831-861 | The log entry of every deletion names an approving scan, a review or a choice. |
| Theorems.RecoveredScansIssueOnlyUnknownBytes | src/share.rs:681-724 | In every reachable state whose row is not yet acknowledged, known bytes issue nothing and unknown bytes one fresh revision beside every unobserved head. |
| Theorems.ScansIssueExactlyEdits | src/share.rs:526-608 | In every reachable state a scan changes the heads of a path if and only if what it finds is news to the row (with approval, if it is missing), and then to one fresh revision beside every head not yet observed. |
| Theorems.ReachableTablesValidate | src/share/backup/validate.rs:124-189 | Every index and checkpoint of every run passes the validator's relational conditions. |
| Theorems.RunsRemember | src/share.rs:349-388 | Unless it is rolled back, a device's heads only move up, and its history, objects and numbering only grow. |
| Theorems.HeadsStayInHistory | src/share.rs:358-368 | Whatever was ever a head stays in history with its bytes in the cache. |
| ApplyOrder.CreationsBeforeRemovals | src/share.rs:728-737 | In the order of apply_pending all creations come before all removals. |
| ApplyOrder.ParentsFirst | src/share.rs:728-737 | A directory is created before what is inside it. |
| ApplyOrder.DescendantsRemovedFirst | src/share.rs:728-737 | A directory is removed after everything to be removed inside it. |
| ApplyOrder.RowsInOrder | src/share.rs:728-737 | Rows handled by increasing order: creations first, the shallower before the deeper, then removals, the deeper first. |
| Ordering.SelectFirst | src/share.rs:389-413 | ORDER BY with LIMIT: the first rows of the one increasing listing. |
| Ordering.ListingResumes | src/share.rs:507-520 | A query for what follows the last row returned resumes the listing without loss or repetition. |
| ShareStore.Share.SaveRow | src/share.rs:349-388 | Retains old and new heads in history and renumbers the row exactly when the heads changed; on a full sequence nothing changes. |
| ShareStore.Share.IssueRevision | src/share.rs:558-566 | Edits on top of observed and joins with the row; on any error the tables are unchanged. |
| ShareStore.Share.ScanRow | src/share.rs:519-608 | One path of a scan is the one decision that `Scans.ScanBecomes` spells out; on an error nothing changes. |
| ShareStore.Share.ScanPresent | src/share.rs:506-568 | The paged first loop visits every file on disk once, in path order. |
| ShareStore.Share.ScanAbsent | src/share.rs:569-609 | The paged second loop visits every recorded path that is missing once. |
| ShareStore.Share.ScanInner | src/share.rs:485-618 | The whole scan transaction, or nothing: afterwards every path on disk and every recorded missing path has had exactly its own case of a scan, whatever the pages, and no other row has changed. |
| ShareStore.Share.Scan | src/share.rs:463-469 | Refused, with no change, while a restored index awaits reconciliation; otherwise every path has had its own case of a scan. |
| ShareStore.Share.Stage | src/share.rs:624-645 | A page is staged whole or not at all, exactly when it has at most 256 records and each validates; afterwards the staged heads of a path are those of its last record, and what they name is present or requested. |
| ShareStore.Share.ReadMetadata | src/sync.rs:87-116 | A session is accepted exactly when its pages are nonempty and bounded, its sequences strictly rise within the ceiling and every record validates; whatever was accepted is staged, the last record of a path counting. |
| ShareStore.Share.CommitRow | src/share.rs:699-711 | Joins the staged heads into the row, keeping what is materialized and observed. |
| ShareStore.Share.MergeIncoming | src/share.rs:685-714 | Every staged path ends with exactly the maximal revisions of its old and its staged heads, with what is shown and observed as before; every other row is unchanged and the staging table is emptied; or nothing changes. |
| ShareStore.Share.ApplyLocal | src/share.rs:746-773 | On success the disk shows the content of the preferred head and the row is acknowledged; on failure nothing changed. It succeeds only where the folder admits the change, and always then if its calls succeed. |
| ShareStore.Share.ApplyPending | src/share.rs:727-745 | One ordered pass despite pages: every row handled is shown on disk with the content of its preferred head, also when a later one fails; pending paths, other rows and other files are untouched; success leaves no row unapplied, and a failure names a row that the folder does not admit. |
| ShareStore.Share.ApplyNext | src/share.rs:738-742 | The next candidate is shown on disk, acknowledged and leaves the list, or nothing changes. |
| ShareStore.Share.CommitIncoming | src/share.rs:672-726 | Scan, merge, apply, or, after a rollback, merge, scan, apply and lift the recovery flag, each with the effect its own row states; refused while objects are missing. With calls that succeed it fails only where the scan or the merge does, or at a row that the folder does not admit. |
| ShareStore.Share.Records | src/share.rs:389-413 | At most the limit of rows past a sequence, each with its own versions and number, in sequence order, fewer only when there are no more. |
| ShareStore.Share.SendMetadata | src/sync.rs:58-86 | Every record sent carries its row's versions and number, and every row numbered past the cursor up to the hello's sequence is sent exactly once, in order. |
| ShareStore.Share.PullObjects | src/sync.rs:117-141 | Each round shrinks what is needed, so the loop ends; what arrived is what was asked for, and all of it if the peer delivers. |
| ShareStore.Share.ApproveDeletion | src/share.rs:831-861 | After its scan, a deletion on top of what was observed is issued exactly for a pending, absent path whose versions are the reviewed ones; otherwise the tables stay. |
| ShareStore.Share.ChooseRevision | src/share.rs:775-817 | An eligible head or retained revision becomes the one head, later than every former one, and is then applied; a failed application leaves it unobserved. With calls that succeed it fails only where no such revision can be recorded or the folder does not admit it. |
| ShareStore.ScannedSound | src/share.rs:485-618 | A whole scan keeps the index well-formed. |
| ShareStore.ScannedBecomes | src/share.rs:485-618 | A whole scan does to every path exactly what its own case of a scan says, in whatever order the pages come. |
| ShareStore.MergedJoins | src/share.rs:685-714 | A whole merge leaves every staged path with the maximal revisions of its old and its staged heads and every other row as it was. |
| ShareStore.StageEachTakes | src/share.rs:624-645 | Staging records in turn leaves the heads of the last record of each path and requests exactly the named objects that are missing. |
| ShareStore.StageEachAccepts | src/share.rs:624-645 | Staging fails exactly when some record names no revision, an invalid or clashing one, or too many. |
| ShareStore.SentAreTheRows | src/sync.rs:65-84 | The records of a session are the rows past the cursor, each once, with its versions and number. |
| ShareStore.MergedSound | src/share.rs:685-714 | A whole merge keeps the index well-formed. |
| ShareStore.AppliedExtends | src/share.rs:727-745 | Every handled row leaves the candidates and the rest keep their order. |
| ShareStore.PageResumes | src/share.rs:507-520 | A page query after the last path of the previous page continues the listing. |
| ShareStore.SequencePageResumes | src/share.rs:389-413 | Because sequences are unique, a page query after the last sequence loses and repeats nothing. |
| ShareStore.SentRecordsRise | src/sync.rs:94-114 | What is sent always passes the receiver's order check. |
| FolderHistory.LawfulTracesAccount | src/root.rs:352-372 | A file visible at any moment is visible later, kept as a previous, or was taken out of sight by somebody else. |
| FolderHistory.LawfulLosesNothing | src/root.rs:352-372 | A lawful history accounts for every file visible at any moment since a call began, and no change of the program replaced a name or dropped a file. |
| FolderHistory.FileIsSomewhere | src/root.rs:262-427 | What a call's contract says of one file: it is somewhere, or somebody else removed it; with nobody else acting it is somewhere. |
| RootJournal.Root.Link | src/root.rs:362-372 | Publication never replaces a name; a link that is refused changes nothing and is recorded. |
| RootJournal.Root.Displace | src/root.rs:352-355 | A visible file is only ever renamed into its transaction's previous. |
| RootJournal.Root.RemoveDirectory | src/root.rs:288-297 | Only an empty directory is removed. |
| RootJournal.Root.WriteIncoming | src/root.rs:327-337 | The staged copy holds the requested bytes, or the application fails. |
| RootJournal.Root.TakeAside | src/root.rs:352-361 | Whoever else acts, the old file is moved into the transaction; done means that it is the one expected, and otherwise it was linked back unless the system refused; cut off anywhere the path is recoverable. |
| RootJournal.Root.ApplyToDirectory | src/root.rs:278-297 | A directory is made only where nothing is and removed only when empty; otherwise nothing changes. |
| RootJournal.Root.FinishRecord | src/root.rs:69-78 | The done mark and the dropped staging link, and no change of names; previous stays. |
| RootJournal.Root.PrepareReady | src/root.rs:324-351 | Cut off anywhere while staging, the path is recoverable; when done, it is ready to publish. |
| RootJournal.Root.Prepare | src/root.rs:324-351 | Staging and recording touch nothing visible, and what is staged is what was asked for unless somebody wrote into it since. |
| RootJournal.Root.Publish | src/root.rs:352-378 | From a recorded intent: displaced, checked, published or put back, with the path recoverable at every exit; whoever else acts, done means that the expected file was taken aside and the staged one linked, and a failure that the old file was linked back or refused. |
| RootJournal.Root.Apply | src/root.rs:262-379 | Whoever else acts: the program changes the path only if it showed `before` when it was read, done means exactly the requested change by its own calls (or nothing to change), a failure that it changed nothing or put the old file back, every file visible since the call began is accounted for, and no name was replaced. Undisturbed, the path ends at the new content or is recoverable, other paths are untouched, a clash of kinds changes nothing, and, if no call fails, it is done exactly when the folder admits the change. |
| RootJournal.Root.RecoverOne | src/root.rs:386-425 | Whoever else acts: ambiguous, with the transaction left as it is, whenever the path shows neither the old nor the new content and there is no displaced file to restore to an empty name; otherwise finished without a change of names, or restored by one link. Never ambiguous when nobody interfered. |
| RootJournal.Root.Recover | src/root.rs:380-427 | Done means that every transaction unfinished at the start was decidable when its turn came and is finished; undisturbed, a third content at a path with no other transaction always stops it. When all are finished it changes nothing; whoever else acts, no file is lost and no name replaced. |
| RootJournal.Root.Live | src/root.rs:262-427 | Over any run of applications, recoveries, crashes and user edits, every file visible at any moment is visible at the end, in some previous, or was removed by somebody else after that moment, and the program replaced no name. |
| RootJournal.Root.ApplyThroughCrashes | src/root.rs:262-427 | After one application and any number of crashing recoveries, a completed recovery leaves the path before or after. |
| RootJournal.ReadyIsRecoverable | src/root.rs:341-352 | A recorded, untouched transaction is recoverable. |
| RootJournal.DisplacedIsCleared | src/root.rs:352-361 | After the displacement the old content is held by the transaction. |
| RootJournal.ExposedIsPublished | src/root.rs:362-378 | After the link the new content stands and only the mark is missing. |
| RootJournal.FinishedIsSettled | src/root.rs:69-78 | After the mark the transaction is settled with the new content in place. |
| RootJournal.FinishingKeepsRecoverable | src/root.rs:409-414 | Finishing during recovery keeps every interrupted change recoverable. |
| RootJournal.LinkingKeepsRecoverable | src/root.rs:415-418 | Restoring during recovery keeps every interrupted change recoverable. |
| Applications.ApplyCutOff | src/share.rs:746-773 | An application cut off anywhere, recovered after any number of crashes and scanned, leaves the heads and the sequence as they were; a published one is acknowledged. |
| Central.Store.Poll | src/central/store.rs:121-184 | Every delivered command of the device takes the first outcome reported for it; acknowledged are exactly the reported commands that are now answered; an idle approved device is handed its first command still waiting, marked delivered, and nothing else changes. |
| Central.Store.Deliver | src/central/store.rs:170-182 | The first open command in queue order is marked delivered and sent, or there is none. |
| Central.Store.QueueOne | src/central/store.rs:222-240 | Admitted exactly for an approved device with fewer than 256 open commands. |
| Central.Store.Queue | src/central/store.rs:222-240 | All the commands of a call, in order and queued for their devices, or none. |
| Central.Store.Cancel | src/central/store.rs:241-250 | The queued command of that id becomes cancelled with id, device and body kept; every other row is unchanged; anything not queued is refused. |
| Central.Store.SetDevice | src/central/store.rs:188-208 | Revoking leaves no queued command of the device: each is cancelled and keeps id, device and body; every other row is unchanged. |
| Central.PolledMeans | src/central/store.rs:121-184 | A poll in terms of single rows: who takes which outcome, what is acknowledged, which row is handed out. |
| Central.FirstForIsFirst | src/central/store.rs:158-169 | The outcome a command takes is the earliest reported one, if any. |
| Central.OpenCountCounts | src/central/store.rs:222-240 | The counting loop counts the queued and delivered rows of the device. |
| Central.AdmissionMeans | src/central/store.rs:222-240 | Admitted if and only if the device is approved and has fewer than 256 queued or delivered rows. |
| Central.ReportedKeepsAnswers | src/central/store.rs:158-169 | Recording a result changes no answer given before. |
| Central.Journal.Open | src/central/agent.rs:164-189 | Reopening marks exactly the interrupted executions uncertain. |
| Central.Journal.Finish | src/central/agent.rs:190-200 | The outcome is kept unacknowledged, so something is reported until it is acknowledged; oversized output becomes a failure; no other entry changes. |
| Central.Journal.Start | src/central/agent.rs:210-235 | True exactly for an unknown id; a known id with different content is an error. |
| Central.Journal.Results | src/central/agent.rs:201-209 | At most one unacknowledged result, none exactly when there is none. |
| Central.Runner.Handle | src/central/agent.rs:298-319 | Acknowledges, checks, and spawns a worker exactly for a command the journal did not know. |
| Fleet.NextKeepsInv | src/central/agent.rs:237-320 | Every step of server, agents and link keeps the delivery invariant and only moves command rows forward. |
| Fleet.ServingMoves | src/central/store.rs:158-183 | A served poll, however late, moves rows forward, finishes commands only with the journal's outcomes and overtakes nothing. |
| Fleet.DeliveringKeepsSequential | src/central/store.rs:170-182 | Handing out the first open command keeps dispatch order. |
| Fleet.StartsStayInOrder | src/central/agent.rs:304-319 | A command that starts now was queued after every command started before. |
| Fleet.AtMostOnce | src/central/agent.rs:210-235 | No command id starts executing twice. |
| Fleet.StartsFollowTheQueue | src/central/agent.rs:237-320 | Executions start in queue order, on their own device, with the queued body, and after all earlier commands are closed. |
| Fleet.ExecutionsNeverOverlap | src/central/agent.rs:237-320 | When a command starts, everything started before it has a recorded outcome. |
| Fleet.OneOutstanding | src/central/store.rs:170-182 | Nothing open precedes a dispatched command of the same device. |
| Fleet.CancelledNeverStarts | src/central/store.rs:241-250 | A command that is ever cancelled is in no agent's executions, before or after. |
| Fleet.WithdrawnNeverStarts | src/central/store.rs:188-208 | What a cancellation or the revocation of its device withdraws while queued is cancelled and is in no agent's executions for the rest of the run, even if the device is approved again. |
| Fleet.ClosedStatusesAreFinal | src/central/store.rs:158-169 | A terminal or cancelled status never changes again, and rows keep id, device and body. |
| Fleet.CompletedMeansExecutedOnce | src/central/store.rs:158-169 | Completed implies exactly one execution, whose worker returned Ok. |
| Fleet.RepliesAreNeverRejected | src/central/agent.rs:304-309 | The agent's checks for an unexpected command and for a reused id never fire. |
| Fleet.ServedResultsAreRecorded | src/central/store.rs:158-169 | Every result of a served request is acknowledged and is the command's final outcome. |
| IndexReplacement.Folder.Finish | src/share/backup.rs:482-553 | From any interrupted state: done means fully replaced, otherwise it can still be resumed; the generation and configuration checks never fail. |
| IndexReplacement.Folder.PublishCandidate | src/share/backup.rs:500-535 | Displacement and no-clobber publication, resumable at every point; the published index is never displaced. |
| IndexReplacement.Folder.DisplaceAll | src/share/backup.rs:509-527 | The displacement loop archives each part once, sidecars before the index. |
| IndexReplacement.Folder.Conclude | src/share/backup.rs:536-553 | Checks the published index, replaces the settings and removes the intent. |
| IndexReplacement.Folder.Resume | src/share/backup.rs:474-481 | Resuming completes or stays resumable; without an intent it changes nothing. |
| IndexReplacement.Folder.RepairObjects | src/share/backup.rs:409-428 | Intact objects are kept, corrupt ones are archived, and every object of the checkpoint is present at the end. |
| IndexReplacement.Folder.Prepare | src/share/backup.rs:392-464 | Nothing that counts changes before the intent appears; once it appears the replacement is in progress. |
| IndexReplacement.Folder.PublishIntent | src/share/backup.rs:465-473 | The intent appears whole or not at all. |
| IndexReplacement.Folder.Recover | src/share/backup.rs:378-391 | A completed recovery has replaced the index by the prepared one under the new epoch. |
| IndexReplacement.Folder.Grant | src/share.rs:111-141 | Grants are refused, with no change, while a replacement is unfinished. |
| IndexReplacement.Folder.ResumeThroughCrashes | src/share/backup.rs:474-553 | Any mix of crashes, failed resumptions and grant attempts ends, once one completes, in the same replaced state with the same peers. |
| IndexReplacement.SidecarsNeverMeetTheNewIndex | src/share/backup.rs:509-531 | No sidecar of the old index is ever beside the new one. |
| IndexReplacement.NothingIsLost | src/share/backup.rs:509-527 | Every replaced file is in exactly one of directory and archive. |
| IndexReplacement.ConfigStaysCompatible | src/share/backup.rs:488-497 | The check that settings did not change during recovery cannot fail. |
| IndexReplacement.ArchivingKeepsProgress | src/share/backup.rs:509-527 | Archiving the next part keeps the replacement resumable. |
| Archive.Encode | src/device/archive.rs:46-90 | The nested loops print the magic, the length and the header, every file of every folder and the end marker; refused exactly for a long header or an object not named by a hash. |
| Archive.WriteRecord | src/device/archive.rs:33-45 | Path length, path, content length, content. |
| Archive.Reader.Record | src/device/archive.rs:111-143 | One turn of the extraction loop. |
| Archive.Reader.Header | src/device/archive.rs:96-106 | Magic, bounded length, decodable and valid header. |
| Archive.Extract | src/device/archive.rs:96-149 | Succeeds exactly on streams that parse, and creates exactly the parsed files. |
| Archive.RoundTrip | src/device/archive.rs:46-149 | Reading what was written gives the same header and files exactly when the header is valid and every manifest is at most 128 KiB. |
| Archive.AcceptedStreamsWerePrinted | src/device/archive.rs:96-149 | Every accepted stream is the print of what was read: no trailing bytes, no other reading; its header is bounded, and each entry is once a manifest of at most 128 KiB, an index, or an object named by a hash, of a folder in the header. |
| Archive.FittingPathsAreDistinct | src/device/archive.rs:136-138 | No accepted archive names a path twice. |
| Archive.FilesAreTheEntries | src/device/archive.rs:137-143 | The files created are exactly the entries read. |
| Archive.AcceptedIsPrinted | src/device/archive.rs:120-129 | The accepted paths are exactly the ones that can be printed for the header's folders. |
| Archive.PathsAreDistinct | src/device/archive.rs:63-86 | Different files of a device print different paths. |
| Archive.PathsSpelled | src/device/archive.rs:63-86 | The printed paths, letter by letter. |
| Archive.EntriesAreTheStagedFiles | src/device/archive.rs:63-88 | An archive holds every staged file of every folder under its path, and nothing else. |
| Archive.RoundTripFiles | src/device/archive.rs:46-149 | What is extracted from a written archive is exactly the staged files, each under its path. |
| Archive.PrintedPathsFit | src/device/archive.rs:112-117 | Every printed path is nonempty and within the 256-byte limit. |
| Archive.ParsesPrintedRecords | src/device/archive.rs:111-148 | Printed records parse back to themselves exactly when each fits. |
| Archive.ValueOfBigEndian | src/device/archive.rs:91-95 | Reading a printed number gives the number. |
| Archive.BigEndianOfValue | src/device/archive.rs:91-95 | Printing a read number gives its bytes. |
| Archive.BytesOfU32 | src/device/archive.rs:37-37 | A length is printed as four bytes, the most significant first. |
| Archive.BytesOfU64 | src/device/archive.rs:39-39 | A size is printed as eight bytes, the most significant first. |
| Blocks.BlocksTile | src/storage.rs:85-88 | For a validated manifest block_len never underflows and the blocks tile the file. |
| Blocks.UnvalidatedUnderflows | src/storage.rs:85-88 | Exactly where an unvalidated manifest makes the subtraction underflow. |
| Blocks.ContentIsUnique | src/storage.rs:72-84 | At most one content within the size has the manifest's block hashes. |
| Blocks.ManifestDescribes | src/storage.rs:45-71 | The manifest computed from a file is valid and the file is complete for it. |
| Blocks.FromFile | src/storage.rs:45-71 | The block loop computes the manifest; a file over the limit is refused. |
| Blocks.ManifestBlocks | src/storage.rs:45-71 | Block k is the hash of the bytes from k mebibytes to the next mebibyte or the end of the file. |
| Blocks.WritingCompletesOneBlock | src/storage.rs:391-405 | A positioned write of a fitting block completes it and disturbs no other. |
| Blocks.Receiver.Put | src/storage.rs:391-405 | Accepted exactly for a block in range with the right length and hash. |
| Blocks.Receiver.MissingFrom | src/storage.rs:353-390 | Every incomplete block is listed, in order; a listed one was complete neither in the part file nor in the destination, or the basis if there is no destination. |
| Blocks.Receiver.Fetch | src/storage.rs:353-405 | After putting each listed block the part file is the one content the manifest describes. |
| Install.Receiver.RecoverInstall | src/storage.rs:211-255 | Puts a displaced original back or accepts a published file; without outside edits it never reports a local change. |
| Install.Receiver.Open | src/storage.rs:269-348 | Reopening finds the original or the incoming content and never fails without outside edits. |
| Install.Receiver.SaveVersion | src/storage.rs:424-465 | A verified copy is kept under the version name; a torn or stale one is moved aside, never overwritten. |
| Install.Receiver.PrepareInstall | src/storage.rs:163-208 | The displaced original stays linked, and the intent says so, at every point. |
| Install.Receiver.Publish | src/storage.rs:490-507 | Links the part file in without replacing anything, then removes intent, part and journal in that order. |
| Install.Receiver.Finish | src/storage.rs:410-508 | Fails only on an incomplete part file, changing nothing; otherwise installs with the original kept. |
| Install.Receiver.ReceiveThroughCrashes | src/storage.rs:269-508 | Over any number of attempts cut off anywhere: the destination is original or incoming, and once installed a verified copy of the original is kept. |
| Install.StartIsSafe | src/storage.rs:269-348 | Any destination without leftovers is a valid start. |
| Install.DisplacingIsSafe | src/storage.rs:204-208 | The displacement keeps the destination recoverable. |
| Install.PublishingIsSafe | src/storage.rs:490-498 | The publication keeps the destination recoverable. |

## Left out

- Theorems.DeltaRefinesFull: direction modes are fixed and let rows flow, because a session advances the cursor even when modes suppress the rows.
- Theorems.VersionVectorsDecideCausality: a choice is one step; what becomes of one cut off inside, or refused by the folder, is in `Choices`.
- Sessions.SessionEndsAtTheJoin: neither peer edits the path during the session, is rolled back, or exchanges with a third device; with edits `Sessions.SessionGathers` says what each ends with, and `Sessions.RetriedSessionsGather` what the next session brings of an edit made too late to be sent.
- Install.Receiver.Finish: no outside edits and no failing hard link; the branches that report a concurrent local change are not part of it.
- IndexReplacement.Folder.Finish: read-only openings of the index that might recreate SQLite sidecars are not part of it.
- RootJournal.Root.Apply: a directory is one inode with an empty flag, so a subtree removed or moved by the user is one change; parent directories are taken to exist, here and in `ShareStore.Share.ApplyLocal`.
- Central.Store.Poll: credentials, device reports and timestamps are not part of it.
- Central.Journal.Results: which unacknowledged result is sent first is left open, as the query has no order.
- ShareStore.Share.Scan: the folder does not change while it is scanned; alias collisions, scan counts and the mount check are not part of it.
- ShareStore.Share.ChooseRevision: the check that a retained object is not corrupt is not part of it.
- ShareStore.Share.CommitIncoming: authorization of the peer is not part of it.
- Network: the refusal to scan while recovery is pending and the refusal to recover from a receive-only peer restrict runs further and are not part of it; neither is file content, only its hash.
- Archive.Encode: encryption, a checkpoint that changes during encoding, and the checks of keys and certificates (one opaque predicate) are not part of it.
- Path syntax and Unicode aliases (`validate_path`, `collision_key`), permissions, symbolic links and handle identity.
- TLS, tokens, HTTP, the web interface, command-line parsing, installers, service adapters, timeouts and block pipelining.
- Torn writes of small journal files: a half-written record makes the source stop on a parse error. A torn saved version is modelled.
- `reconcile` in `src/versions.rs`, `src/index.rs` and `src/jobs.rs`, which would only add easy members.
- Device import and activation (`import`, `activate_device` in `src/share/backup.rs`).
- Termination of `Blocks.Receiver` transfers that are cut off by the network; liveness in general.
