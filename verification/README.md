# Verification model of the document-classification pipeline

This project models, in Dafny, the two-job document classifier: a walker that enumerates a
document source and queues work, and a processor that takes one message, classifies the document
behind it and records the result in the `documents` table. Check it with
`dafny verify dfyconfig.toml`.

## What is modelled

**The work protocol** (`Protocol`, `Safety`, `Ledger`, `Dispatch`, `Results`, `Redelivery`,
`Scenarios`). The table, the queue, the `processing_log`, the walker's position inside one item and the program
counter of every processor form one state. Each database commit, queue send, queue delete, crash and
operator action is one event, and events of different processes interleave freely. Row and message
ids are positions. Per row there is also some history (`Book`): outcomes and resets committed,
hashes accepted, and whether work was lost in a known way.

**The jobs themselves** (`Shared`, `Processors`, `Enqueuers`, `FullWalk`, `DeltaWalk`). The classes
`Processor`, `Enqueuer`, `FullWalker` and `DeltaWalker` update the shared `World` in place, one
commit at a time. Between any two of their steps an arbitrary environment runs, and any driver call
may raise. Each method is proved to contribute exactly the events that its contract names, so what
is proved about runs of events holds for the methods under every interleaving.

**Convergence** (`Pipeline`, `Delivery`, `Convergence`, `Draining`, `Enumeration`). `Judge` is the
decision part of one delivery, and `Delivery` says which outcome each answer of the outside world
warrants and what has to follow it. `Convergence` puts a changing source next to the protocol and proves that draining
the queue, walking once more and draining again settles every listed item. `Draining` shows that a
walk that gets to its end is such a walk, and that such a drain exists where nothing fails for good.

**The delta walk** (`Delta`, `DeltaWalk`). Page chains, the two saved tokens, and what any sequence
of completed, interrupted or crashed walks adds up to. The links are those of OData Version 4.0
Part 1: Protocol, sections 11.2.5.7 (nextLink) and 11.3 (deltaLink).

**The category file and the label set** (`Text`, `Categories`, `Rendering`, `Jev`). The three line
patterns, the parser, its inverse, and the answer space built from its result.

**Locators and hashes** (`Paths`, `Locators`). What a full-enumeration walker stores as id and hash
of a file or blob, and what the retrieval side makes of them.

## Assumptions

- There is one walker, and rows are never deleted.
- A message is held by one processor at a time and becomes visible again only after that processor
  has stopped. `receive()` is called without a visibility timeout (src/processor.py:111), so the
  model supplies this: the holder's program counter is stored with the message.
- A saved link keeps naming the same page, a chain is finite, and links are non-empty strings,
  because `or` treats an empty token as none (src/walker.py:149, src/graph_client.py:141).
- Hashes are collision free; classification and extraction are functions that may fail.
- Recording a failure is one commit (row, retry count and log row together), and the row it is
  computed from is the one at the moment of the commit.
- Operators set an override or reset a row to `pending`; they do not clear an override.
- `Convergence` further assumes what its predicate `Permitted` lists: no send is lost, an item's
  contents do not change and a row's override is not set while a delivery of that item or row is in
  progress (others may be), contents never return to an earlier hash of the same item, and the MIME
  type is a function of the item. A walker may look a row up after the bytes it read have changed;
  the final sweep counts only looks with current bytes (`Quiet`). `ListedBlobServes` adds that a stored digest is that of the blob's
  bytes.

## What does not hold

`Scenarios` gives a reachable state against each of five expectations; beside it stands the exact
condition under which the code does what is expected:

- At most one message per row (`TwoMessagesForOneRow`). A visit leads to a second message exactly
  when the row is due although an undeleted message names it (`SecondMessageExactly`). That is so for
  a `failed` row whose content changes, for a `pending` one whose message is still there, and for a
  `skipped` or `completed` one whose message is recorded but not yet deleted.
- An outcome or a reset between two sends of a row (`SettledBeforeTheSend`: the old message of a
  failed row is settled between commit and send). After a send the next one waits for an outcome or a
  reset exactly when the row is still in flight (`Dispatch.NextSendIsPaidExactly`). Between two
  commits there always is one (`Dispatch.BetweenTwoCommits`).
- A change seen by the walker is picked up (`ChangeInFlightIsDropped`, `ChangeIsPickedUpExactly`).
- A skipped row is queued again (`SkippedAndForgotten`, `RowAtRestIsResentExactly`).
- A successful delivery completes its row (`SucceededButStillProcessing`, `VerdictCompletes`).

`StaleVerdictWins` shows why an item's contents must not change in the middle of a delivery that a
reset overtakes; `StaleUpsertExactly` says when an UPSERT leaves a verdict beside another hash.

Where code and documentation differ, the model follows the code:

- The commit-before-send comment promises "never a duplicate message" (src/enqueuer.py:114-117); a
  `failed` row whose content changes does get a second one.
- A hash mismatch is described as a skip (src/processor.py:10-12, src/processor.py:197-198). Its commit
  stands inside the `try`, so if it raises, the handler records a failure and the row ends `failed`
  (`MismatchRecordedAsFailure`); the other skips do not behave so.
- The skip reason says that the walker will enqueue the row again (src/processor.py:140); it does so
  only if the content differs from the hash already stored.
- The malformed-heading message speaks of a missing space (src/categories.py:92), but since the
  pattern may give hashes back, `### Sub` is refused as well (`MalformedExactly`).
- `_resolve` is described as refusing locators that leave the root through `..`
  (src/content_source.py:91-95); one that leaves it and comes back by the same names is accepted
  (`AcceptedExactly`).
- Blob names with doubled slashes share an id with their single-slash spelling
  (`DoubledSlashCollides`).

## Model

| member | source | states |
|---|---|---|
| Protocol.Find | src/enqueuer.py:80-87 | the look-up by (sync_state_id, drive_item_id) yields a row with that key, and nothing only if no row has it |
| Safety.IdentityKept | src/enqueuer.py:132-163 | every single step keeps keys unique and every queued message and walker position naming exactly its row's key |
| Safety.CommitKeepsIdentity | src/enqueuer.py:119-121 | committing a candidate, new or known, never creates a second row for a key, and the message built names the row it was built from |
| Safety.UpsertNeverInserts | src/writer.py:94-125 | in every reachable state the UPSERT hits the conflict branch on the very row the processor loaded, and loading never misses |
| Safety.CoveredKept | src/processor.py:103-150 | every single step keeps the cover: a queued, processing or failed row has an open message, is about to be sent, or is in a tracked gap |
| Safety.NoLostWork | src/processor.py:103-150 | over all interleavings no row waits for work that nobody will deliver, except in a tracked gap |
| Safety.GapsAreTracked | src/enqueuer.py:111-122 | a gap opens only when a send is lost after the commit or an override blocks an UPSERT that is then logged |
| Safety.OrphansStayLost | src/enqueuer.py:96-102 | a row in flight with no message left gets no new message and never changes status until that row is reset |
| Safety.MailStepFrame | src/processor.py:118-188 | a processor step touches no other row and no other message |
| Ledger.DeletionDiscipline | src/processor.py:103-116 | a deleted message left a completed or skipped log row with the dequeue count of the deleting delivery; one delivery logs at most once; a failed delivery cannot delete |
| Ledger.RetryConservation | src/processor.py:204-222 | in every reachable state `retry_count` is the number of failed log rows of the row |
| Ledger.SendDiscipline | src/enqueuer.py:89-122 | in total, counted from the start, messages sent for a row never exceed one plus the outcomes and resets committed for it, and not even that one when the row is not in flight |
| Dispatch.CommitDiscipline | src/enqueuer.py:89-121 | over any run from any safe state, the commits that queue a row are paid for by outcomes and resets recorded in that run, but for one while the row is in flight and not chosen again |
| Dispatch.BetweenTwoCommits | src/enqueuer.py:89-121 | between two commits that queue the same row an outcome or a reset is recorded for it |
| Dispatch.CreditExactly | src/processor.py:159-211 | outcomes and resets of a row are counted once each: a skip, a failure, an unblocked UPSERT, a reset, and nothing else |
| Dispatch.HistoryExactly | src/enqueuer.py:132-143 | the accepted hashes of a row grow by the committed hash exactly when it is new; a gap ends only by a send or a reset |
| Dispatch.SendsAreCommitted | src/enqueuer.py:111-122 | over any run every send of a row has a commit of its own |
| Dispatch.NextSendIsPaidExactly | src/enqueuer.py:96-122 | between items, the next send of a row needs an outcome or a reset first if and only if the row is in flight |
| Ledger.HashHistory | src/enqueuer.py:124-143 | content and previous hash are the last two entries of the row's sequence of distinct successive hashes, so they never coincide |
| Ledger.CommitBalanced | src/enqueuer.py:124-143 | committing a candidate rotates the hash exactly on a change and keeps the send, retry and hash accounts of every row |
| Ledger.LogStep | src/processor.py:159-222 | a processor step logs at most one row, for its own row and dequeue count, and only when it leaves the unlogged part of the delivery |
| Results.OverrideImmunity | src/writer.py:101-125 | neither job writes the override, and once it is set category, confidence, classifier and raw response are frozen over any run, even for a processor that loaded the row before |
| Results.ResultStep | src/writer.py:111-125 | one step changes result columns only as an UPSERT on a row without override, and then to the decided verdict |
| Results.OutcomeCommits | src/processor.py:190-222 | an override skip, a skip and a failure each commit their status columns and one log row with the delivery's count, and nothing else |
| Results.VerdictCommits | src/processor.py:159-182 | the UPSERT fills exactly the result columns, unless overridden, and the completed log row carries the verdict's category and confidence |
| Results.OtherStepsCommitNothing | src/processor.py:118-132 | marking sets one status; no other processor step commits anything |
| Results.OperatorCommits | src/writer.py:101-103 | setting an override and resetting a row change that column of that row alone |
| Results.VerdictCompletes | src/writer.py:121-125 | for every row, whatever its status, an UPSERT is applied if and only if no override is set at that moment; otherwise it changes nothing, and an uncompleted row stays uncompleted |
| Results.LabelsStayClosed | src/processor.py:159-172 | if every verdict lies in a label set with confidence in [0, 1], so does everything ever stored in table or log |
| Results.DeliveriesStayMidway | src/processor.py:118-188 | crashed, failed or repeated deliveries of one message, while everybody else works on other rows, keep its row on the way from its first state to that of one success, and by themselves touch nothing else |
| Results.RedeliveryIsIdempotent | src/processor.py:103-188 | two delivery histories of one message that both end in its deletion leave the same row up to retry and error columns, whatever happens to other rows meanwhile |
| Redelivery.SuccessIsARun | src/processor.py:103-188 | from every safe state an available message can be delivered to deletion in one go, whatever non-failure outcome is decided |
| Redelivery.AsAfterOneSuccess | src/processor.py:103-188 | after any number of crashed, failed or repeated deliveries, with other rows changing freely, the row equals that of one clean success, up to retry and error columns |
| Scenarios.TwoMessagesForOneRow | src/enqueuer.py:96-102 | a reachable state in which one row has two messages on the queue |
| Scenarios.SecondMessageExactly | src/enqueuer.py:89-122 | from at most one undeleted message per row, a visit leads to more if and only if its row exists, is due and is named by an undeleted message |
| Scenarios.SettledBeforeTheSend | src/enqueuer.py:121-122 | a reachable send after which the row can be sent again with nothing recorded in between |
| Scenarios.ChangeInFlightIsDropped | src/enqueuer.py:98-99 | a reachable state in which the walker sees a new hash and nothing at all happens |
| Scenarios.ChangeIsPickedUpExactly | src/enqueuer.py:96-102 | a visit brings the row to the seen hash if and only if the row is absent, not in flight, or already there |
| Scenarios.SkippedAndForgotten | src/processor.py:139-141 | a reachable drained state with a skipped, unclassified row that a visit with its stored hash leaves alone |
| Scenarios.RowAtRestIsResentExactly | src/enqueuer.py:102 | a row neither in flight nor pending is sent again if and only if the seen hash differs from the stored one |
| Scenarios.SucceededButStillProcessing | src/writer.py:121-125 | a reachable state whose delivery is logged completed and deleted while the row stays processing for good |
| Scenarios.StaleVerdictWins | src/processor.py:152-172 | a reachable drained state in which a late UPSERT left an old verdict beside the new hash |
| Scenarios.StaleUpsertExactly | src/writer.py:111-125 | an UPSERT puts its verdict beside another hash than its message's if and only if no override is set and the row carries another hash |
| Scenarios.MismatchRecordedAsFailure | src/processor.py:136-149 | a reachable state in which a stale message whose skip could not be committed left a failed row and log row |
| Interleaving.ForeignKeepsPc | src/message_queue.py:96-121 | no event of another process moves the program counter of a held message or of the walker |
| Shared.World.Select | src/enqueuer.py:80-87 | the scan of the table finds the row with the given key |
| Processors.Processor.LoadDocument | src/processor.py:152-157 | loading moves the invocation to what the row's override column says |
| Processors.Processor.MarkProcessing | src/processor.py:131-132 | marking is one commit that changes the status of that row alone |
| Processors.Processor.RecordOverride | src/processor.py:190-195 | the override branch completes the row and logs a skip in one commit, leaving the label alone |
| Processors.Processor.RecordSkipped | src/processor.py:197-202 | a skip sets the status and logs the reason in one commit |
| Processors.Processor.RecordFailure | src/processor.py:204-211 | a failure sets status and error, bumps the retry count and logs, in one commit |
| Processors.Processor.Write | src/writer.py:146-153 | the guarded UPSERT is one atomic step of the protocol |
| Processors.Processor.AppendSuccess | src/processor.py:173-182 | the completed log row is a second commit after the UPSERT |
| Processors.Processor.SkipAttempt | src/processor.py:138-149 | a skip is one commit; if that commit raises, a hash-mismatch skip goes on to record the failure of the attempt, an unsupported-type skip ends there |
| Processors.Processor.RunPipeline | src/processor.py:134-150 | after marking, the process contributes decide and record events of the outcome `Judge` gives, up to the first failing call; a hash-mismatch skip whose commit raises is followed by recording that failure, unless this raises as well |
| Processors.Processor.Process | src/processor.py:118-150 | the process contributes the script of an overridden or of an ordinary row up to the first failing call, or the recorded failure of a hash-mismatch skip that could not be committed |
| Processors.Processor.RunOnce | src/processor.py:103-116 | however others interleave, one invocation contributes one delivery script up to its first failing call, or, when the commit of a hash-mismatch skip raises, the script with that failure decided and recorded instead; it decides only what the answers of source, extractor and classifier warrant, records what it decided and leaves out nothing due; a failed hash re-check never skips, upserts or deletes; the message is deleted exactly when it returns normally |
| Delivery.JudgeIsWarranted | src/processor.py:136-149 | the outcome is the one the answers warrant: stale exactly on another hash, the error of the first call that fails, a skip only for an unsupported type, the classification of the text of the downloaded bytes otherwise |
| Delivery.WarrantIsUnique | src/processor.py:136-149 | the answers warrant no second outcome |
| Delivery.DeliveryIsSound | src/processor.py:103-188 | whatever raises, a delivery records only what it decided, and every decision is recorded, logged and acknowledged unless the call for it raises |
| Delivery.FailedRecheckKeepsMessage | src/processor.py:137-149 | after a failed hash re-check nothing is skipped, upserted or deleted, and the failure carries that error |
| Delivery.StaleExactly | src/processor.py:138-141 | a delivery that decides is a hash-mismatch skip if and only if the source has another hash, and then upserts nothing |
| Delivery.UpsertIsOfTheBytes | src/processor.py:142-150 | an UPSERT is of the classification of the text extracted from the bytes downloaded after an equal hash |
| Delivery.ErrorIsRecorded | src/processor.py:147-149 | an error of re-check, download, extraction or classifier is decided as that error and recorded unless this raises |
| Enqueuers.Enqueuer.Decide | src/enqueuer.py:76-102 | the decision is one read of the current row |
| Enqueuers.Enqueuer.CommitQueued | src/enqueuer.py:119-143 | row changes and message construction take effect in one commit |
| Enqueuers.Enqueuer.QueueDocument | src/enqueuer.py:104-122 | commit comes before send; a failed commit sends nothing and a failed send is never repeated |
| Enqueuers.Enqueuer.EnqueueIfNeeded | src/enqueuer.py:68-78 | under any interleaving one candidate is looked at once and then left alone or queued in commit-send order; alone and without failures the effect is that of `Visit` |
| Enumeration.VisitEffect | src/enqueuer.py:68-143 | one visit changes only its own key's row and sends exactly one message with the candidate's data, exactly when the decision says so |
| Enumeration.VisitSendsExactly | src/enqueuer.py:89-102 | a visit sends if and only if the file is new, its row is pending, or its row is neither queued nor processing and has another hash |
| Enumeration.VisitedColumns | src/enqueuer.py:124-163 | a visit that sends writes the candidate's data, rotates the previous hash on a change, keeps every other column, and the message carries the candidate's data under the producer's origin |
| Enumeration.WalkSettles | src/enqueuer.py:89-102 | after a walk every listed candidate is declined, and at most one message per item was sent |
| Enumeration.WalkFixpoint | src/filesystem_walker.py:78-81 | for every listing, repeats included, one enumeration sends at most one message per item and an immediate second one changes nothing |
| Enumeration.WalkByItem | src/blob_walker.py:66-70 | with distinct items each row depends on its own candidate alone, and the messages are those of the accepted candidates |
| Enumeration.OrderDoesNotMatter | src/filesystem_walker.py:78-81 | listings of the same distinct files leave the same rows and messages up to row ids, in whatever order |
| FullWalk.FullWalker.Walk | src/filesystem_walker.py:72-101 | under any interleaving the supported entries are looked at in listing order up to where the walk stopped: at an entry whose listing or read raises, at a candidate whose enqueueing raises, at a failing closing commit, or at the end; `completed` is stamped only then, the tokens are never touched; every look is under the walker's own sync row, drive and source; alone and without driver failures the effect is that of the specified enumeration so far |
| FullWalk.LookedOne | src/blob_walker.py:66-70 | each candidate handed to the enqueuer is looked at exactly once |
| Convergence.HistoryServes | src/processor.py:134-150 | over any permitted history, in which walkers may look a row up after the bytes they read have changed, a row with the current hash carries a human label, the verdict of the current bytes, or no completion if their type has no extractor; or else work for exactly these bytes is on its way |
| Convergence.ChangeKept | src/content_source.py:34-41 | a change of an item to a new hash keeps that invariant, whatever is being delivered of other items |
| Convergence.SweepHandles | src/enqueuer.py:89-102 | after an item's drain, a sweep that looks at it leaves it with a row for its current hash, however deliveries and changes of other items mix in |
| Convergence.ItemConverges | src/filesystem_walker.py:72-81 | drain an item's messages, look at it, drain again: while this item is quiet and whatever happens to others, it ends with a row at rest with the current hash and an override, or skipped if its type has no extractor, or with the classification of the current bytes |
| Convergence.Converges | src/filesystem_walker.py:72-81 | the same for the whole source: drain, one full walk, drain again |
| Draining.CompletedWalkSweeps | src/filesystem_walker.py:72-85 | a walk that got to its end, whatever ran in between, has looked at every listed item, as the convergence theorem asks |
| Draining.DrainFrom | src/processor.py:103-116 | from between two walks, for any choice of items whose messages are for overridden rows or have no failing outcome, these messages can all be deleted |
| Draining.SettlingIsPossible | src/filesystem_walker.py:72-81 | after any permitted history and for any choice of readable items with deliverable messages, drain, walk and drain can be carried out and settle them all, whatever hangs on other items |
| Delta.ContentHashIsTheFirst | src/graph_client.py:73-89 | an item's hash is the first non-empty one in the order quickXor, sha256, crc32 |
| Delta.ChainIsUnique | src/graph_client.py:141-149 | a start link determines the whole page chain |
| Delta.FirstWalkStarts | src/walker.py:146-149 | the first walk starts at the non-empty resume token, else the non-empty delta token, else the initial URL |
| Delta.NextWalkStarts | src/walker.py:146-170 | in any sequence of walks, the one after a finished walk starts at its deltaLink, the one after a cut at the next link, the one after a dead walk where that one started |
| Delta.CutResumes | src/walker.py:160-170 | after an interruption the next walk starts at the rest of the same chain |
| Delta.ResumeRefines | src/walker.py:115-170 | interrupted walks and a final complete one take together exactly the pages and items of one uninterrupted walk, each once and in order, end with the same tokens, and are at most as many as the pages |
| Delta.CutsAreBounded | src/walker.py:126-134 | every interruption moves the saved position strictly forward, so fewer interruptions than pages are possible |
| Delta.ResumeTokenIsSafe | src/walker.py:160-170 | with crashes included, a new resume token is the next link of a page up to which every item was handed over, and the delta token has not moved |
| Delta.CrashTolerantCoverage | src/walker.py:151-158 | when a walk finishes, every item of the chain from the previous start point was handed over at least once, whatever interruptions and crashes came before |
| Delta.DeltaMovesAtTheEnd | src/walker.py:151-170 | in any sequence of walks the delta token changes only when a walk finishes |
| Delta.EveryFinishIsCovered | src/walker.py:151-158 | in any sequence of walks, with any number of finished ones, whenever one finishes every item of the chain from the start point after the previous finish was handed over in between |
| Delta.EveryResumeIsSafe | src/walker.py:160-170 | at every point of any sequence of walks a resume token saved since the last finish follows pages whose items were all handed over since then |
| DeltaWalk.DeltaWalker.ProcessItem | src/walker.py:172-193 | a live file with a non-empty hash reaches the enqueuer once, as its id, first non-empty hash, name, MIME type and parent path, under this drive's sync row; tombstones and items without file, hashes or a non-empty hash reach nobody |
| DeltaWalk.DeltaWalker.Complete | src/walker.py:151-158 | completion stores the deltaLink and clears the resume token |
| DeltaWalk.DeltaWalker.Interrupt | src/walker.py:160-170 | interruption stores the resume link and nothing else |
| DeltaWalk.DeltaWalker.Pages | src/walker.py:125-134 | the page loop hands over whole pages in order and stops after the last page, after the first page at which the budget is spent, or at a failing request of the page it had come to or a failing call of the enqueuer |
| DeltaWalk.DeltaWalker.Walk | src/walker.py:115-134 | the first link requested is the non-empty resume token, else the non-empty delta token, else the initial URL; every walk ends in one of three ways with exactly the prescribed tokens and items: at the end of the chain, after the first page at which the budget is spent, or dead with the tokens unchanged, and then at a failing request of the page it had come to, a failing call of the enqueuer, a missing deltaLink or a failing closing commit |
| Text.PayloadIsTheMatch | src/categories.py:27 | the group computed for `\s+(.+?)\s*$` is the one greedy space and lazy text determine among all splits, and there is none exactly when nothing matches |
| Text.MalformedExactly | src/categories.py:28 | a line is malformed if and only if it starts with two hashes and a non-space follows, and such a line is never a heading |
| Text.HeadingExactly | src/categories.py:27 | a heading is two hashes followed by a match of the group, and nothing else is |
| Text.BulletExactly | src/categories.py:29 | a bullet is white space, one of the three signs, and a match of the group, and nothing else is |
| Text.LowerExactly | src/categories.py:72 | two names lower to the same string if and only if they are equal up to the case of letters |
| Text.StripExactly | src/categories.py:106-107 | stripping takes the white space off both ends and nothing else |
| Text.SplitUnlines | src/categories.py:87 | splitting inverts joining for lines without newline |
| Text.SplitLinesExactly | src/categories.py:87 | the lines of any text, terminated again, are that text; an unterminated last line counts |
| Categories.SplitIntoBlocks | src/categories.py:84-95 | succeeds if and only if no line is malformed and then returns the sections in order; otherwise reports the first malformed line |
| Categories.BuildCategory | src/categories.py:98-110 | fails if and only if there is no bullet; the description is the text before the first bullet, the examples are all bullets |
| Categories.ParseCategories | src/categories.py:67-81 | succeeds if and only if no line is malformed, some section is not `unknown`, names differ ignoring case and each has a bullet; returns exactly these sections in order; two headings differing in letter case only are refused, and a heading spelling `unknown` in any case yields no category while every other one does; a malformed error names the first malformed line, a duplicate or example error the first section at fault |
| Categories.AcceptedIgnoresCase | src/categories.py:71-78 | in an acceptable file headings are distinct up to letter case except for spellings of `unknown`, which are exactly the ones without a category |
| Rendering.ParseInvertsRender | src/categories.py:67-110 | parsing inverts the canonical rendering of every well-formed category set |
| Rendering.PreambleIsIgnored | src/categories.py:93-94 | lines before the first heading change nothing |
| Rendering.BodyGrows | src/categories.py:98-110 | each further line of a body adds a bullet text to the examples, a trimmed line to the description after one space if no bullet came before, or nothing |
| Rendering.UnknownLinesAreIgnored | src/categories.py:71-74 | in any file, acceptable or not, a section named `unknown` in any case, with any lines below it, may be inserted before any heading or at the end without changing what the file means |
| Rendering.UnknownSectionIsIgnored | src/categories.py:71-74 | the same for the joined texts |
| Jev.ClosedLabelSet | src/categories.py:47-55 | for every file that parses the enum has no repeats and `unknown` is its last member |
| Jev.AnswerSpace | src/jev.py:64-67 | the enum is the category names in order and `unknown`; its members are exactly the keys of the criteria; each category carries its own description or none, and `unknown` the fixed one |
| Jev.JevClassifier.constructor | src/jev.py:59-68 | filling the dictionary category by category gives these criteria |
| Jev.JevClassifier.Classify | src/jev.py:70-90 | returns a classification if and only if the text is short enough, the client answers, and the answer is an option with a probability in [0, 1]; it is that answer |
| Jev.Answer | src/jev.py:77-90 | what the adapter returns is always an option, with a confidence in [0, 1] |
| Jev.PersistedLabelsAreEnumMembers | src/processor.py:159-182 | for every file that parses and every run that classifies with the adapter built from that file, whatever the client answers from one delivery to the next, every label stored in table or log is a member of the file's enum with a confidence in [0, 1] |
| Paths.FollowNormal | src/content_source.py:100-101 | resolution goes up as far as the normal form says, stopping at the file system's root, and then down |
| Paths.ParentUndoes | src/content_source.py:100 | anywhere in a path a name followed by `..` leads nowhere |
| Paths.PrintedBack | src/blob_walker.py:100-106 | parsing and printing a path give the string back if and only if no segment is dropped |
| Locators.IdResolvesBack | src/content_source.py:88-104 | the id stored for a file resolves to that very file |
| Locators.RootExactly | src/content_source.py:100-101 | an absolute root is taken from the top, a relative one from where the job was started |
| Locators.FileIdsDiffer | src/filesystem_walker.py:110-113 | different files below the root have different ids |
| Locators.AcceptedExactly | src/content_source.py:97-104 | a locator is accepted if and only if it is relative and its normal form stays under the root or comes back through the names it left; what is accepted lies at or under the root |
| Locators.ClimbsExactly | src/content_source.py:97-104 | a locator that climbs k levels and descends is accepted if and only if the descent begins with the names it left |
| Locators.FolderAndName | src/filesystem_walker.py:110-118 | folder path and file name are the two halves of the stored id, without a folder exactly at the root, and the MIME type is that of the name |
| Locators.FileHashAgrees | src/content_source.py:78-86 | on an unchanged tree retrieval reads the bytes the walker hashed and hashes them alike, and fails exactly when the walker does |
| Locators.AsPosixExactly | src/blob_walker.py:100-106 | the id of a blob is its name after the prefix if and only if that name is canonical |
| Locators.AnchorExactly | src/blob_walker.py:100 | one leading slash, exactly two, and three or more are printed as one, two and one |
| Locators.BlobHashAgrees | src/blob_source.py:84-92 | prefix plus id leads back to the listed blob, with the same hash rule, in every container if and only if the name after the prefix is canonical |
| Locators.BlobHashExactly | src/blob_walker.py:107 | without a non-empty digest both sides use the hash of the blob's own bytes, with one both use the digest |
| Locators.BlobDocumentExactly | src/blob_walker.py:100-111 | a blob with a plain name is a document if and only if what follows the last slash is supported; folder and file name make up its id |
| Locators.BlobIdsDiffer | src/blob_walker.py:105-106 | canonical names have distinct ids |
| Locators.DoubledSlashCollides | src/blob_walker.py:100-106 | two blob names that share one id |
| Locators.FreshIsNotStale | src/processor.py:138-141 | a delivery whose message carries the retrieved hash is never skipped as stale |
| Locators.UnchangedFilePasses | src/filesystem_walker.py:103-118 | an unchanged file always passes the hash re-check |
| Locators.UnchangedBlobPasses | src/blob_walker.py:94-111 | an unchanged blob with a canonical name always passes the hash re-check |
| Locators.ChangedBlobIsStale | src/processor.py:138-141 | a changed blob without a digest makes its message stale |
| Locators.ChangedFileIsStale | src/processor.py:138-141 | a changed file makes its message stale |
| Locators.MountedFileServes | src/content_source.py:78-86 | a mounted file is a source item as the convergence theorem wants it |
| Locators.ListedBlobServes | src/blob_source.py:84-89 | a blob with a canonical name and a truthful stored digest is retrieved as the convergence theorem wants, and listed so if and only if its content type, or the table's, is the item's |

## Left out

- Timestamps, `enqueued_at`, `graph_modified_at`, token counts and costs: no decision reads them.
- Creation of the `sync_state` row and failures of its first commit; a walk starts on an existing row.
- A failing look-up query in the enqueuer: the walk then ends before the item, which the delta theorems cover as a dead walk.
- The ORM session's cache and transaction snapshots: every read sees the latest commit.
- Sends that are delivered although the client reports a failure, and deletes that succeed but report one.
- Malformed queue bodies and poison messages: no code acts on the dequeue count beyond logging it.
- Clearing an override: the operator only sets one or resets the status.
- Convergence.Converges: states nothing for the delta walk, because a change seen in flight is dropped there for good; that contents never return to an earlier hash is needed, as `SkippedAndForgotten` shows.
- Results.RedeliveryIsIdempotent: timestamps and log rows are not compared, since they do differ.
- Locators.AcceptedExactly: no symbolic links; resolution is lexical.
- Text.PayloadIsTheMatch: white space is space and tab, and lower-casing is that of ASCII letters; other Unicode spaces, case folding and line separators besides the newline are not modelled.
- Jev.JevClassifier.Classify: a probability that is not a number is not modelled, confidences being reals.
- Rendering.ParseInvertsRender: a category's description is one line, because the parser joins several with spaces.
- The quotes that `repr` puts around the MIME type in a skip reason.
- Suffix and MIME tables and the order in which a source lists: the listing, the supported-suffix test and the MIME function are parameters.
- Hashing, extraction, HTTP, the storage, database and inference client libraries: opaque functions or atomic steps.
- Graph retrieval by item id, settings, credentials, factories, argument parsing, logging, exit codes and migrations: no property beyond plumbing.
- `iter_delta`: the flat view of the same pages; `_initial_delta_url` is a constant of the walker.
