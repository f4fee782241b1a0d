# Rat Things: verified models of its protocols, formats and lifecycles

Rat Things runs coding agents in Linux workspaces, on this computer or in an AWS account. This
project models, in Dafny, the parts of the repository whose correctness depends on reasoning across
steps, and proves what they promise. `dafny verify dfyconfig.toml` checks everything.

**The native root archive** (`runtime/native/archive-root.py`). `Newc` is the newc (070701) format with
a reader of its own, `NewcLayout` where its bytes lie; `Archive` is the object that streams one entry at a
time into a bounded output, `RootWalk` the sorted walk, the additions of a normalized archive and the trailer. The reader is the
inverse of the writer (`NewcReader`, `Reproducible`); archives of trees that differ only in listing order,
times and the numbering of inodes are the same bytes (`Reproducible`); links carry no bytes and every
digest is that of what a reader gets by following the inode (`HardLinks`); paths are distinct and
parents come first (`RootPaths`); `RootReads` says both of the exported bytes and in terms of the root
directory itself; `RootWitness` exhibits the exception. `RootMembers` says which paths of a tree are
exported and in what order, `RootExports` what the inventory records of them and when there is an export.

**The desktop console** (`desktop/src/app.rs`, `desktop/src/session_copy.rs`). Numbered requests are
completed by workers in any order, refused when a queue is full, or forgotten when the workspace is
switched. `ConsoleState` states what every step keeps; `ConsoleBrowse`, `ConsoleReceive` and `ConsoleLocal`
are the steps; `ConsoleRun` the runs, in any interleaving; `ConsoleProperties` what holds in all of them.
`ConsoleRequests` and `ConsoleViews` say in one table each which requests every event leads to and what is
shown after it; `ConsolePages`, `ConsoleChanges` and `ConsoleCopies` what follows for a list served in
pages, for runtime changes and for session copies from the events alone; `ConsoleErrors` when a request is
shown as failed. `ConsoleObject` is the console as the mutable object it is, each of whose methods is proved
equal to its step. `SessionCopy` is the draft from which a copy is reviewed. The state carries records that
the source does not keep: what was sent, answered, refused for good, and what pages were accepted.

**Markdown** (`desktop/src/markdown.rs`). `MarkdownEvents` proves that well-nested event streams are
exactly the spellings of trees. `MarkdownFilter` is the link, image and HTML filter;
`MarkdownItems`, `MarkdownBlocks` and `MarkdownTree` are the restructuring of task lists, proved to
conserve every event but the markers that items show.

**The AWS quickstart** (`scripts/aws-quickstart.ts`). `Teardown` is the pure selection of what a destroy
must account for. `QuickstartWorld` holds the files, the Terraform state and the cloud resources;
`Quickstart` is setup and destroy, each cut off after any number of steps, any number of times, each in
whatever account its profile or environment denotes then;
`QuickstartSchedule` lets any number of them overlap and decides from the order of their steps alone
whether a secret is orphaned.

**Byte and tree consumers.** `Pagination` is the cursor loop of `desktop/src/api.rs`; `OpenPgp` the packet
walk of `runtime/native/package-inventory.py` (sections 4.2.1, 4.2.2 and 12.2 of RFC 4880); `NativeIo` the
framing, the whole writes and the bounded log of `runtime/native/main.swift`; `Inspector` the recursive
bundle inspector of `runtime/local/verify-runtime.swift`. Each loop is proved equal to a short
declarative function.

Where the code does not meet what one would expect of it, the model keeps the code as it is and says
exactly when it does:

- An entry named `TRAILER!!!` in the root directory ends the archive early for every reader
  (`RootReads.TrailerFileEndsArchive`), and nothing else does: `RootReads.ExportReadsBackExactly`.
- A `.dockerenv` directory with contents is skipped by a normalized export but still entered, so its
  contents have no parent entry: `RootWitness.DockerEnvLeavesOrphan`, and exactly when in
  `RootPaths.ParentsPrecedeExactly`.
- `destroy` with the credentials of another account, by a profile or from the environment, finds no
  secret there and still records the deployment as destroyed: `QuickstartWorld.ForeignDestroyOrphans`,
  and exactly when not, over any number of commands in any accounts, in
  `Quickstart.OrphansOverLifetime`. Its checks see that account too, so that what was made may live on:
  `Quickstart.ForeignDestroyLeavesKey`; in the deployment's own account a destroyed result means that all
  is gone (`Quickstart.Deployer.Destroy`).
- Nothing keeps two setups from overlapping, and then the second forgets the first's secret:
  `QuickstartWorld.OverlappingSetupsOrphan`. A setup with an operator's own secret writes its context a
  second time all the same, and so forgets the secret that another setup has made since:
  `QuickstartWorld.SecondContextOrphans`. For any number of overlapping setups and destroys,
  `QuickstartSchedule.OrphansExactly` says from the order of their steps alone whether a secret is
  orphaned; commands that do not overlap are safe (`QuickstartSchedule.SequentialIsOrderly`).
- An old-format packet header cut off inside its length octets is accepted, as an empty packet, exactly
  when every length octet there is is zero: `OpenPgp.TruncatedOldHeader`, and exactly what else is
  accepted in `OpenPgp.WalkExactly`.

## Model

| member | source | states |
|---|---|---|
| Newc.HexRoundTrip | runtime/native/archive-root.py:49 | every 32-bit field written as eight hexadecimal digits is read back |
| Newc.ReadEncoded | runtime/native/archive-root.py:43-72 | the reader recovers header, name and content of one written member at any aligned position, and what follows it |
| Newc.HeadersAligned | runtime/native/archive-root.py:51-72 | the bytes of any sequence of members have a length divisible by four, so every header starts at such a position |
| NewcReader.RoundTrip | runtime/native/archive-root.py:49-72 | reading the bytes of consistent members and the trailer gives the members back, in order, stopping at the trailer, if and only if no member is named like the trailer |
| NewcLayout.MemberLayout | runtime/native/archive-root.py:43-72 | a member is the magic, thirteen fields of eight lower-case hexadecimal digits that denote the header's values in the order of the format, the name and a zero octet, and the content, both filled up with zeros to a multiple of four |
| NewcLayout.TrailerLayout | runtime/native/archive-root.py:112-115 | the trailer is 124 octets: no field but one link and the length of its name is set, the name, and zeros |
| Archive.Exporter.Write | runtime/native/archive-root.py:25-30 | data is counted and written exactly when the limit is not exceeded; the output never exceeds it even in a run that fails |
| Archive.Exporter.CopyFile | runtime/native/archive-root.py:57-71 | a file's content is streamed whole, or the export fails because it changed or the limit was reached |
| Archive.Exporter.Entry | runtime/native/archive-root.py:36-84 | one entry succeeds exactly when its specification does and then reaches its state: inode, hard-link elision, padding, digest and record |
| Archive.EmitAllConcat | runtime/native/archive-root.py:86-102 | emitting two runs of entries one after the other is emitting their concatenation |
| RootWalk.TakeTree | runtime/native/archive-root.py:86-102 | the walk visits a tree in the specified sorted order and stops where the specification fails |
| RootWalk.WriteTrailer | runtime/native/archive-root.py:112-115 | the trailer is appended exactly when it fits |
| RootWalk.ExportRoot | runtime/native/archive-root.py:10-116 | the whole export returns exactly the specified result, its output is the bytes of that result, and no run writes more than the limit |
| Reproducible.ExportReadsBack | runtime/native/archive-root.py:25-116 | the reported byte count is the output's length and within the limit; a reader gets back the exported members if and only if none of them is named like the trailer |
| RootReads.TrailerExported | runtime/native/archive-root.py:86-111 | some exported path is the trailer's name if and only if the root directory lists that name |
| RootReads.ExportReadsBackExactly | runtime/native/archive-root.py:10-116 | a reader gets back every exported header, name and content, and stops behind the trailer, if and only if the root directory lists nothing named like the trailer |
| RootReads.TrailerFileEndsArchive | runtime/native/archive-root.py:112-115 | an empty file named like the trailer is exported and then not read back |
| Reproducible.SortedIsOrdered | runtime/native/archive-root.py:87-88 | sorting a listing orders it by name and keeps its entries |
| Reproducible.WalksAgree | runtime/native/archive-root.py:86-102 | trees that differ in listing order, times, inode numbers and what is below excluded directories are walked alike |
| Reproducible.RunsAgree | runtime/native/archive-root.py:36-84 | emitting entries that differ in times and an injective renaming of inodes gives the same members and inventory |
| Reproducible.NormalizedExportsAgree | runtime/native/archive-root.py:10-116 | with normalization two trees that differ only in listing order, times, an injective renaming of device and inode pairs, the sizes of what is no regular file, emptied files, skipped entries and the contents of excluded directories export to the same bytes and inventory |
| HardLinks.RunKeeps | runtime/native/archive-root.py:36-84 | after any entries members, inodes, digests and inventory describe the entries one by one |
| HardLinks.LinksShareInodes | runtime/native/archive-root.py:39-42 | entries share an inode number exactly when they share device and inode, and a later regular entry of an inode carries no bytes |
| HardLinks.DigestsMatchReader | runtime/native/archive-root.py:52-78 | each regular record's digest is the hash of what a reader obtains for it by following the inode, which is the file's content |
| RootReads.RecordsDescribeWhatIsRead | runtime/native/archive-root.py:10-116 | for a root whose stats agree per inode, a reader of the exported bytes finds each record's entry; its digest is that of the bytes read by following the inode, those are the bytes of the file the walk met, and a further name of a file has none of its own |
| RootPaths.RenderInjective | runtime/native/archive-root.py:93 | different paths have different names |
| RootPaths.PathsDistinct | runtime/native/archive-root.py:86-111 | no path is emitted twice, additions included |
| RootPaths.ParentsPrecede | runtime/native/archive-root.py:86-111 | every directory's entry precedes those of its contents, unless a `.dockerenv` directory with contents is normalized |
| RootPaths.ParentMissing | runtime/native/archive-root.py:94-95 | and then some entry has no parent entry |
| RootWitness.DockerEnvLeavesOrphan | runtime/native/archive-root.py:86-111 | a root with a `.dockerenv` directory that holds one empty file is exported with normalization, and the file's entry has no parent entry |
| RootPaths.ParentsPrecedeExactly | runtime/native/archive-root.py:86-111 | parents come first if and only if no `.dockerenv` directory with contents is normalized |
| RootMembers.WalkExactly | runtime/native/archive-root.py:86-102 | the walk stops at a path if and only if a node stands there in the tree, no directory above it is excluded and it is not skipped; the stop is that node's own |
| RootMembers.NameLeIs | runtime/native/archive-root.py:87-88 | names are compared byte by byte, a prefix before what it begins |
| RootMembers.SiblingsInOrder | runtime/native/archive-root.py:86-102 | what the walk stops at in one directory comes directories first and then in the order of the names |
| RootMembers.PathsByName | runtime/native/archive-root.py:18-98 | the excluded, the skipped and the emptied paths are exactly those written so, spelled in full |
| RootExports.InventoryIs | runtime/native/archive-root.py:10-116 | the inventory of an export is one record, as the tree says it, for every node in no excluded directory and not skipped, then exactly what normalizing adds, in the order of its names with the devices last, and nothing else |
| RootExports.RunSucceeds | runtime/native/archive-root.py:25-84 | a run of entries succeeds if and only if every field fits, every file is found unchanged, and count and bytes, headers and padding included, are within the limits |
| RootExports.ExportSucceeds | runtime/native/archive-root.py:10-116 | there is an export if and only if the date it needs is given, everything met and added can be written, and its bytes with the trailer are within the limit; and that is how many bytes it has |
| SessionCopy.CopyDraft.Sync | desktop/src/session_copy.rs:64-77 | a new destination drops catalog, choice, request and error; a new source drops the choice |
| SessionCopy.CopyDraft.Finish | desktop/src/session_copy.rs:79-114 | only the awaited reply counts, and only if it matches the destination entered now and lists models |
| SessionCopy.CopyDraft.Review | desktop/src/session_copy.rs:116-137 | a review names the current source, a destination that matches the one entered now, and the chosen model of the held catalog |
| SessionCopy.ReviewIsCurrent | desktop/src/session_copy.rs:63-138 | there is a review exactly when nothing is awaited or failed and a model of the held catalog is chosen; it binds the current source, a destination matching the current input, and a model the server listed in answer to a request for that input |
| SessionCopy.ReviewOfPlan | desktop/src/session_copy.rs:212-217 | a plan matches at most one review |
| ConsoleData.UpsertAll | desktop/src/app.rs:973-981 | merging a page adds exactly its ids and keeps ids distinct |
| ConsoleData.Replace | desktop/src/app.rs:1031-1037 | replacing a row in place changes no id |
| ConsoleData.Retain | desktop/src/app.rs:982-995 | filtering by an index keeps exactly the ids inside, or outside, it |
| ConsoleData.ChainGrows | desktop/src/app.rs:960-966 | a page asked for behind the last row of a page that says there are more continues the unbroken chain |
| ConsoleState.SubmitKeeps | desktop/src/app.rs:683-694 | a submission, accepted or refused, keeps every invariant that is not about its own kind of request |
| ConsoleBrowse.NavigateKeeps | desktop/src/app.rs:696-708 | changing the collection keeps every invariant of the console |
| ConsoleBrowse.ReselectKeeps | desktop/src/app.rs:710-723 | dropping or replacing the selection keeps every invariant: outstanding requests of the old one are outdated |
| ConsoleBrowse.RefreshListKeeps | desktop/src/app.rs:725-738 | a new page request outdates earlier ones and is the only current one, whether or not it is refused |
| ConsoleBrowse.SelectKeeps | desktop/src/app.rs:740-754 | selecting keeps every invariant |
| ConsoleBrowse.SelectionAskedKeeps | desktop/src/app.rs:757-810 | a request for the selected resource takes its free slot and keeps every invariant |
| ConsoleBrowse.LoadPastKeeps | desktop/src/app.rs:1232-1241 | loading on past hidden sessions keeps every invariant |
| ConsoleReceive.AcceptPageKeeps | desktop/src/app.rs:959-1003 | an accepted page keeps rows distinct and the chain unbroken; the next cursor is the last row of a page that says there are more, and none where the chain ends; when it is the last page of Sessions the rows are exactly the chain's ids |
| ConsoleReceive.SnapshotAccepted | desktop/src/app.rs:1013-1044 | a current snapshot shows the selected resource and keeps every invariant |
| ConsoleReceive.RelabelKeeps | desktop/src/app.rs:1164-1172 | relabeling the selected session outdates its outstanding snapshot and strands no slot |
| ConsoleReceive.MutationDoneKeeps | desktop/src/app.rs:1062-1185 | the effects of every kind of mutation keep every invariant |
| ConsoleReceive.ReceiveBrowsingKeeps | desktop/src/app.rs:851-1060 | a completion of a browsing request, current or outdated, successful or not, keeps every invariant |
| ConsoleLocal.StartChangeKeeps | desktop/src/app.rs:2371-2403 | starting or retrying a runtime change keeps every invariant |
| ConsoleLocal.ReceiveChangeTracked | desktop/src/app.rs:183-222 | a reply about a runtime change, rejection included, keeps it tracked: not accepted only if no submission can have been accepted, accepted only in the state of its own receipt |
| ConsoleLocal.CopyRequestKeeps | desktop/src/app.rs:2461-2491 | a copy request keeps every invariant, and is sent only from the local workspace while it is not being switched |
| ConsoleLocal.ReceiveCopyKeeps | desktop/src/app.rs:2266-2312 | a reply about a copy keeps every invariant, so an execution of unknown outcome is never lost |
| ConsoleLocal.ConnectWorkspaceKeeps | desktop/src/app.rs:1873-1890 | switching starts only where nothing in flight can be lost |
| ConsoleLocal.ResetWorkspaceKeeps | desktop/src/app.rs:1827-1867 | a reset keeps every invariant, forgetting outstanding requests |
| ConsoleLocal.ReceiveWorkspaceKeeps | desktop/src/app.rs:889-916 | the completion of a switch, with the session to open, keeps every invariant |
| ConsoleRun.StartIsValid | desktop/src/app.rs:548-558 | the first frame leaves a valid state |
| ConsoleRun.ForgottenKeeps | desktop/src/app.rs:852-855 | a completion of a request that a reset forgot keeps every invariant |
| ConsoleProperties.EveryStateValid | desktop/src/app.rs:683-1241 | in every run, under any order of completions, refusals and resets, every state is valid |
| ConsoleProperties.SelectionFence | desktop/src/app.rs:710-810 | in every state of every run what is shown belongs to the selected id, and the snapshot, detail and list slots name a request exactly when one of the current generation is outstanding |
| ConsoleProperties.ChainIsDelivered | desktop/src/app.rs:959-1004 | the recorded chain is the pages delivered since the last one that starts the list anew, computed from the events alone |
| ConsoleProperties.PageChain | desktop/src/app.rs:959-1004 | when the last page of Sessions arrives the rows are exactly the ids delivered since the list was last begun, each once, and every later one of those pages was asked for behind the last row of the page before it, which said that there are more |
| ConsoleProperties.AnswerShown | desktop/src/app.rs:851-1060 | in every run an outdated answer to a browsing request leaves selection and list as they are, and a current, successful one with a snapshot or a resource is what is shown then |
| ConsoleRequests.RequestsSent | desktop/src/app.rs:683-1241 | in every run, exactly which requests every event leads to, answers included, and that each is sent under the next number unless the queue is full for it |
| ConsoleRequests.FirstRequests | desktop/src/app.rs:548-558 | the first frame asks for the first page of Sessions and for the workspace |
| ConsoleViews.ShownExactly | desktop/src/app.rs:696-1185 | in every run, exactly which collection, resource and snapshot are shown after every event, and what becomes of the rows unless a page of them arrives |
| ConsoleViews.ChangeGone | desktop/src/app.rs:1827-1867 | in every run a change goes away if and only if it is dismissed, not having been accepted, or the workspace has been switched |
| ConsolePages.ChainIsPrefix | desktop/src/app.rs:959-966 | an unbroken chain of pages of one list without duplicates is that list up to where the last page ends, and the whole list exactly if that page says so |
| ConsolePages.ListIsServed | desktop/src/app.rs:959-1004 | when the last page arrives in a run against a server that pages one list, the pages are a prefix of it, the ids shown are theirs, each once, and they are all ids of the list if and only if the last page says that there are no more |
| ConsolePages.FreshList | desktop/src/app.rs:967-995 | pages of distinct rows accepted one after another build up exactly those rows in their order |
| ConsoleChanges.SubmissionsAnswered | desktop/src/app.rs:2151-2192 | a submission counts as answered, and as refused for good, exactly if an event of the run answered it so |
| ConsoleChanges.ReceiptsAreReports | desktop/src/app.rs:196-221 | in every run the receipts kept are the last states that current, successful answers with the change's own id and action report, computed from the events |
| ConsoleChanges.BegunAre | desktop/src/app.rs:158-167 | the changes taken for begun are those that were current since the last switch of the workspace |
| ConsoleChanges.ChangeProgress | desktop/src/app.rs:158-222 | in every state the current change is accepted in a state exactly if that is the last one reported of it, not accepted exactly if every submission of it was refused, and being submitted exactly if one submission awaits its answer and all others were refused |
| ConsoleChanges.ChangeIdentity | desktop/src/app.rs:158-222 | in every state each change begun since the last switch is over, by its last report or because every submission was refused, unless it is the current one, whose submissions are all of its action |
| ConsoleChanges.NewChangeIdentity | desktop/src/app.rs:2371-2403 | another change becomes current if and only if one is begun while there is none or the current one is over; then all begun before are over, it is of the action asked for, and its id was in no submission |
| ConsoleCopies.OpenAre | desktop/src/app.rs:2266-2312 | the plans taken for open are those of which an execution was sent and no event settled the outcome since |
| ConsoleCopies.UncertainCopy | desktop/src/app.rs:2228-2314 | while the outcome of an execution is unknown the transfer shown is its plan and no execution or review is sent; the console is uncertain exactly if there is such a plan and all its executions were answered |
| ConsoleCopies.ExecutionSent | desktop/src/app.rs:2461-2527 | an execution is sent if and only if it is asked for in the local workspace while nothing is being switched, asked or uncertain, the plan shown is ready or failed and names both models, and the queue has room |
| ConsoleCopies.ReviewBinding | desktop/src/app.rs:2266-2296 | the transfer shown changes only to a plan that was asked for by its id, or to one whose source, models and destination are those of the very review that was sent |
| ConsoleCopies.PlanShown | desktop/src/app.rs:2278-2296 | an answer that brings such a plan shows it and settles the request |
| ConsoleErrors.CopyMarked | desktop/src/app.rs:2266-2312 | in every run, exactly when the last request about copies is shown as failed, and when the copy shown is to be read again |
| ConsoleErrors.ChangeMarked | desktop/src/app.rs:190-221 | in every run, exactly when the last request about the current change is shown as failed |
| ConsoleObject.DrainKeeps | desktop/src/app.rs:851-855 | draining the arrived completions in any order keeps every invariant |
| ConsoleObject.ConsoleApp.Submit | desktop/src/app.rs:683-694 | the table and the number of a request, or a refusal that only uses up the number |
| ConsoleObject.ConsoleApp.UpsertRow | desktop/src/app.rs:974-980 | the search and the replacement or push equal the specified merge |
| ConsoleObject.ConsoleApp.Filter | desktop/src/app.rs:984-995 | the retaining loop equals the specified filter |
| ConsoleObject.ConsoleApp.TakePage | desktop/src/app.rs:959-1003 | the page is taken as specified, in Sessions and elsewhere, appended or not |
| ConsoleObject.ConsoleApp.MutationDone | desktop/src/app.rs:1062-1185 | the console's fields after a mutation are those of the specified step |
| ConsoleObject.ConsoleApp.StartRuntimeChange | desktop/src/app.rs:2371-2403 | the fields after starting a change are those of the specified step |
| ConsoleObject.ConsoleApp.ReceiveLocal | desktop/src/app.rs:2178-2192 | rejection and receipt are applied in the specified way |
| ConsoleObject.ConsoleApp.ReviewDraft | desktop/src/app.rs:2037-2048 | exactly the review the draft holds now is sent, if a copy may start |
| ConsoleObject.ConsoleApp.ReceiveTransfer | desktop/src/app.rs:2266-2312 | the copy's fields after a reply are those of the specified step |
| ConsoleObject.ConsoleApp.ResetWorkspace | desktop/src/app.rs:1827-1867 | the fields after a reset are those of the specified step |
| ConsoleObject.ConsoleApp.ReceiveOne | desktop/src/app.rs:851-1060 | one completion changes the fields as specified |
| ConsoleObject.ConsoleApp.Receive | desktop/src/app.rs:851-1060 | draining the queue changes the fields as specified for any completions and leaves a valid state |
| ConsoleObject.ConsoleApp.Perform | desktop/src/app.rs:548-578 | any event, in place, leaves the state that the protocol prescribes, and it is valid |
| MarkdownEvents.WellNestedSpellsForest | desktop/src/markdown.rs:32-47 | an event stream is well-nested exactly when it spells a forest, which can be read back |
| MarkdownEvents.ParseFlat | desktop/src/markdown.rs:32-47 | the forest is unique |
| MarkdownFilter.SafeEvents | desktop/src/markdown.rs:196-211 | the filter loop equals the specified filter; on a well-nested stream it is the filter of the tree |
| MarkdownFilter.FilterKeepsNesting | desktop/src/markdown.rs:196-211 | a well-nested stream stays well-nested, with links and images nested in any way |
| MarkdownFilter.FilterKeepsProse | desktop/src/markdown.rs:197-211 | on any stream no image, HTML or disallowed link is left, every allowed link is, and all other events stay in order |
| MarkdownItems.ScanOwn | desktop/src/markdown.rs:71-97 | scanning an item takes its first own marker, reads its label, and keeps all other events |
| MarkdownItems.ScanItem | desktop/src/markdown.rs:71-97 | the loop over an item's events equals the specified scan |
| MarkdownItems.TitleIsLabel | desktop/src/markdown.rs:82-92 | an item's title is the text, code and breaks of it that are in no list nested in it, in order |
| MarkdownBlocks.MatchIsUnique | desktop/src/markdown.rs:32-47 | a start has at most one matching end |
| MarkdownBlocks.NodeMatches | desktop/src/markdown.rs:32-47 | the matching end of an element's start is the last of its events |
| MarkdownBlocks.MatchingEnd | desktop/src/markdown.rs:32-47 | the loop returns the matching end and never runs off the stream |
| MarkdownBlocks.Blocks | desktop/src/markdown.rs:49-117 | the loops and the recursion build the blocks of the tree that the events spell, and end |
| MarkdownBlocks.Items | desktop/src/markdown.rs:65-106 | the items of a list are built from their trees |
| MarkdownTree.OwnIsByItem | desktop/src/markdown.rs:76-79 | where lists hold only items and only lists hold items, the markers outside nested lists are those whose innermost enclosing item this is |
| MarkdownTree.CheckedMarks | desktop/src/markdown.rs:71-80 | where lists hold only items, each item shows its first marker that is in no list nested in it |
| MarkdownTree.CheckedAsExpected | desktop/src/markdown.rs:71-80 | where besides only lists hold items, each item shows the first marker whose innermost enclosing item it is |
| MarkdownTree.StrayItem | desktop/src/markdown.rs:71-80 | an item directly in an item would lose its marker to the outer one |
| MarkdownTree.Conserved | desktop/src/markdown.rs:49-117 | flattening the blocks gives the input without exactly those markers |
| MarkdownTree.TreeConserves | desktop/src/markdown.rs:49-117 | where lists hold only items, every event but the shown markers is kept in order; the markers are those kept with those shown, and an item shows the first that is in no list nested in it; lists that hold a marker are the task lists, and text between them is grouped; where besides only lists hold items, the markers shown are the first by innermost item |
| MarkdownTree.Restructure | desktop/src/markdown.rs:49-117 | every well-nested stream whose lists hold only items is restructured as specified |
| Teardown.ResourcesAtAnyDepth | scripts/aws-quickstart.ts:1290-1307 | the walk over modules finds exactly the resources at any depth and throws exactly on malformed trees |
| Teardown.UniqueTargetIs | scripts/aws-quickstart.ts:1316-1324 | a target is given exactly when every value is that one valid identifier and one is given |
| Teardown.NoWhiteSpace | scripts/aws-quickstart.ts:1319 | an identifier is any nonempty text without white space |
| Teardown.TargetsAtAnyDepth | scripts/aws-quickstart.ts:1266-1288 | the targets are these if and only if the state is readable and each is the ARN of every managed image, or the id of every managed key, at any depth, the resource's own id standing in for a missing one, and no target stands where there is no such resource |
| Teardown.CheckpointMerges | scripts/aws-quickstart.ts:1326-1355 | another attempt keeps what earlier ones saved and adds what the state shows, and refuses exactly when they disagree, are malformed, or belong to different deployments |
| Teardown.CheckpointStarts | scripts/aws-quickstart.ts:1326-1355 | the first attempt saves what the state shows |
| Teardown.CheckpointExactly | scripts/aws-quickstart.ts:1326-1355 | the checkpoint is this one if and only if the deployment is named, what was saved is readable and of this deployment, and each target is what the state shows, what was saved, or both, where they agree |
| QuickstartWorld.DeletionReaches | scripts/aws-quickstart.ts:1055-1080 | deleting the recorded secret leaves none if and only if none is in another account |
| QuickstartWorld.OverlappingSetupsOrphan | scripts/aws-quickstart.ts:486-563 | two overlapping setups orphan a secret |
| QuickstartWorld.SecondContextOrphans | scripts/aws-quickstart.ts:556-564 | a setup that makes no secret writes its context again and so orphans the secret that an overlapping setup has made |
| QuickstartWorld.ForeignDestroyOrphans | scripts/aws-quickstart.ts:739-754 | a destroy in another account orphans a secret |
| Quickstart.CheckpointCovers | scripts/aws-quickstart.ts:755-762 | after the checkpoint is written it names everything the deployment ever made and everything earlier checkpoints named |
| Quickstart.ChecksProveGone | scripts/aws-quickstart.ts:783-798 | an empty state, no active MicroVM and no live key of the deployment's account mean that nothing it ever made is left running |
| Quickstart.ForeignDestroyLeavesKey | scripts/aws-quickstart.ts:772-798 | a destroy in another account drops the key from the state, finds it not live there, and records the deployment as destroyed while it lives on |
| Quickstart.SecretDeletedReaches | scripts/aws-quickstart.ts:1055-1080 | deleting the managed secret changes no record, and leaves no secret if and only if none is in another account |
| Quickstart.SetupSecure | scripts/aws-quickstart.ts:467-652 | a setup cut off anywhere orphans no secret |
| Quickstart.DestroySecure | scripts/aws-quickstart.ts:723-833 | a destroy cut off anywhere orphans a secret if and only if it gets to the end in another account than the secret is in |
| Quickstart.FinishesExactly | scripts/aws-quickstart.ts:723-833 | a destroy has a plan that goes to the end if and only if there is a record and either no state, result or checkpoint, or all targets of the state and the checkpoint agree, a completed deployment has both, and what is left after removing shows no resource, no active MicroVM and no live key |
| Quickstart.Deployer.Setup | scripts/aws-quickstart.ts:467-652 | cut off after any step, a setup has done exactly the first steps of its plan, orphans no secret and forgets nothing it made; it finishes if and only if it is not cut off and nothing is there or the last deployment was destroyed, and then the records, the state and the secret are those of the run |
| Quickstart.Deployer.RemoveAll | scripts/aws-quickstart.ts:755-782 | checkpoint, termination and Terraform happen in that order, so that before anything is removed all of it is checkpointed |
| Quickstart.Deployer.Check | scripts/aws-quickstart.ts:783-798 | the checks pass exactly on an empty state and on no active MicroVM and no live key as the account of the run shows them; in the deployment's account all is gone then |
| Quickstart.Deployer.Destroy | scripts/aws-quickstart.ts:723-833 | cut off after any step, a destroy has done exactly the first steps of its plan and loses no checkpointed identifier; it finishes if and only if it is not cut off and can finish, and then the deployment is torn down; a destroyed result means that all is gone where it acted in the deployment's account, and orphans a secret exactly where the secret is in another account |
| Quickstart.OrphansOverLifetime | scripts/aws-quickstart.ts:467-833 | over any number of commands, each cut off anywhere and in any account, no secret is ever orphaned if and only if no destroy gets to the end in another account than the secret is in |
| Quickstart.Lifetime | scripts/aws-quickstart.ts:467-833 | over any number of commands, each cut off anywhere and in any account, every step was the planned one, nothing made is forgotten, a destroy keeps every checkpointed identifier, and what a destroy in the deployment's account records as destroyed is gone and stays so |
| QuickstartSchedule.ReadsAlone | scripts/aws-quickstart.ts:486-492 | a command that reads its files one after another, each in a move of its own, while nothing changes makes the plan that it makes alone |
| QuickstartSchedule.UndisturbedDoes | scripts/aws-quickstart.ts:467-833 | after any moves whatever, a command that is begun and not interfered with reads at most five times and then does, step by step, what it does alone |
| QuickstartSchedule.InForceNext | scripts/aws-quickstart.ts:527-652 | a step takes the record in force away from a command exactly if it writes another result, another context where there is no result, or drops the result over another's context |
| QuickstartSchedule.SecretsNext | scripts/aws-quickstart.ts:558-567 | the secrets in the cloud are those that some step made and no later one deleted in their account |
| QuickstartSchedule.NamedInForce | scripts/aws-quickstart.ts:723-732 | the record that a destroy would read names a secret exactly if the setup that made the secret put that record |
| QuickstartSchedule.OrphansExactly | scripts/aws-quickstart.ts:467-833 | however the reads and steps of setups and destroys overlap, in whatever accounts, and wherever they crash, no secret is orphaned at any point if and only if, in the order of their steps, every secret is made while its own setup's record is in force and no step takes effect against that record before the secret is deleted in its account |
| QuickstartSchedule.SecondSecretOrphans | scripts/aws-quickstart.ts:527-567 | two setups that both make a secret orphan one in every interleaving, unless a destroy deletes the first before the second is made |
| QuickstartSchedule.SequentialIsOrderly | scripts/aws-quickstart.ts:467-833 | commands that do not overlap, each cut off anywhere, orphan nothing if destroys delete secrets in the accounts they are in |
| Pagination.OccurrencesAre | desktop/src/api.rs:384-388 | the first occurrences of rows are every id once, each the earliest with its id |
| Pagination.Pages | desktop/src/api.rs:359-403 | against any server at most 1000 requests, no cursor used twice, and on success the first occurrences of the pages in order |
| Pagination.PagedListReturned | desktop/src/api.rs:359-403 | a server that pages a fixed list without duplicates gets exactly its list returned, if and only if the pages within the limit reach its end |
| OpenPgp.HeadReads | runtime/native/package-inventory.py:51-71 | a header in any of the six definite forms is read back wherever it stands |
| OpenPgp.PacketsReadBack | runtime/native/package-inventory.py:50-76 | packets in any forms able to hold them are read back, all and in order |
| OpenPgp.HeadWritten | runtime/native/package-inventory.py:51-71 | a header that is read and not cut off is written in one of the six forms |
| OpenPgp.TruncatedOldHeader | runtime/native/package-inventory.py:63-68 | an old header cut off inside its length octets is accepted exactly when all octets behind it are zero, and then is the last packet and empty |
| OpenPgp.WalkExactly | runtime/native/package-inventory.py:50-76 | the walk returns these packets if and only if the data is these packets, each in one of the six forms, or all but the last of them and then, for an empty one, an old header cut off within zero length octets |
| OpenPgp.PacketsInRange | runtime/native/package-inventory.py:50-76 | on any bytes the walk ends; each packet reported stands right behind the one before, has the tag and length its header says, and its body is that slice of the data, all in range |
| OpenPgp.TruncatedOldHeaderAccepted | runtime/native/package-inventory.py:63-68 | one octet of an old header alone reads as an empty packet while one of a new header is refused |
| OpenPgp.SortedIsUnique | runtime/native/package-inventory.py:82 | a strictly sorted sequence is determined by its elements |
| OpenPgp.DecodeHeader | runtime/native/package-inventory.py:51-71 | the branches on the header octet compute the specified tag, size and position or fail |
| OpenPgp.PayloadKeys | runtime/native/package-inventory.py:49-79 | the packet loop finds the keys of the specified walk |
| OpenPgp.Fingerprints | runtime/native/package-inventory.py:40-82 | both loops together return the specified report |
| OpenPgp.InputOctets | runtime/native/package-inventory.py:80 | what is hashed is the octet 0x99, the two octets of the body's length, and the body |
| OpenPgp.UnreadablePayload | runtime/native/package-inventory.py:50-76 | a payload that consists of no packets leaves no report |
| OpenPgp.ReportOfPackets | runtime/native/package-inventory.py:40-82 | for any payloads that consist of packets, in any forms or cut off as the walk allows, there is a report exactly when there is a key and every key is a version 4 key, and it is the sorted set of the hashes of 0x99, the length in two octets and the body |
| NativeIo.FramedAre | runtime/native/main.swift:135-151 | the framed lines are exactly the newline-terminated ones before the first that reaches the limit |
| NativeIo.ControllerInput | runtime/native/main.swift:135-151 | however standard input is split into reads the same lines are delivered, and the process exits only at the end or for a line that reaches the limit |
| NativeIo.WriteAll | runtime/native/main.swift:23-34 | however writes are cut and interrupted a prefix is written, and the result is true exactly for the whole |
| NativeIo.BoundedSerialLog.Handle | runtime/native/main.swift:163-175 | the log holds the first mebibyte of its input, or a prefix of that after a failed write |
| Inspector.LimitsAreOrdered | runtime/local/verify-runtime.swift:26-41 | accepted limits are positive, below their ceilings and ordered, so the byte count is never compared with a negative number |
| Inspector.LimitsExactly | runtime/local/verify-runtime.swift:26-41 | the arguments give limits if and only if the first six are positive numbers of at most sixteen digits and, each cut at its ceiling, are ordered |
| Inspector.BoundedConcat | runtime/local/verify-runtime.swift:196-254 | a bundle is within bounds exactly when its parts are, together |
| Inspector.Inventory.AdmitFile | runtime/local/verify-runtime.swift:232-252 | the checks on a file, in the source's order, amount to the predicate on it and the byte bound |
| Inspector.Inventory.Admit | runtime/local/verify-runtime.swift:207-253 | one item is admitted exactly when the bundle met so far with it is within bounds |
| Inspector.Inventory.InspectDirectory | runtime/local/verify-runtime.swift:196-254 | the recursion accepts exactly the trees within bounds and tallies them |
| Inspector.Verify | runtime/local/verify-runtime.swift:289-293 | walk and final guard accept exactly the bundles that meet the predicate |
| Inspector.RowsAre | runtime/local/verify-runtime.swift:196-254 | the walk meets an item at a path if and only if it stands there in the tree, within directories |
| Inspector.AcceptedExactly | runtime/local/verify-runtime.swift:196-293 | a bundle is accepted if and only if its items and bytes are within the limits, each item in the tree is as demanded by name, place, size and kind, no two paths differ only in case, and every executable and required file is there |
| Inspector.RereadRows | runtime/local/verify-runtime.swift:196-254 | listings permuted at every depth yield the same items, each as often |
| Inspector.OrderDoesNotMatter | runtime/local/verify-runtime.swift:196-254 | two bundles whose directories list the same entries in any order, at every depth, are both accepted or neither |

## Left out

- The console's drawing, focus, popups, search text, notices, forms, artifact downloads, model and template catalogs, sign-in and the list of saved copies: they have no part in the properties; where they could block a step the model allows it.
- Clocks: whether a poll is due is left open, so every poll may happen at any time its other guards allow.
- Fresh change ids are modelled by a counter; the source draws random UUIDs and relies on their not repeating.
- HTTP, JSON and URL parsing: replies are parsed records, and whether a URL denotes a destination or a link is allowed is a parameter.
- The console's properties assume a server that answers about the id it was asked for and lists no id twice on one page (`ConsoleState.Honest`), and that each sent request is answered at most once.
- ConsoleObject.ConsoleApp.Perform: groups the source's fields in six records and takes the worker's refusals as a given function of the request number.
- MarkdownBlocks.Blocks: stands a text block for the slice of events that the source hands to a serializer; CommonMark parsing and serialization are foreign libraries. It assumes what the parser guarantees: balanced events and only items in lists.
- RootWalk.ExportRoot: takes the directory tree with its metadata as a value, consistent per inode where HardLinks needs it; a file that changes during the export is a failure. Errors of the walk itself are not modelled, and all kinds of errors are one.
- SHA-256 and SHA-1 are parameters; a digest is the number its hexadecimal form writes, since digests of one length sort alike.
- Quickstart.Deployer.Destroy: the account a command acts in is an input, since profiles and the environment may denote another one each time; so is what another account answers about the image and the key. Within one command it is one account.
- Quickstart.Deployer.Setup: packaging, preflight, the proof run and the contents of configuration files do not matter to the records; each file write and each cloud call is one step, and Terraform records what it makes. The two contexts that a setup writes are one value, since the secret's ARN and its name denote the same secret; a call or write that fails is a command cut off before it.
- QuickstartSchedule.OrphansExactly: is about secrets; the teardown records of overlapping commands are not modelled. `status`, `sync-auth` and the evidence written with a destroyed result are not modelled.
- The termination script for MicroVMs: it may stop any of them; destroy's own check decides.
- OpenPgp.Fingerprints: starts from decoded payloads; armor and base64 are not modelled.
- NativeIo.WriteAll: assumes that a write is not interrupted for ever, without which the source would not return either; write sizes beyond what was offered, which no system makes, count as failures.
- Inspector.Verify: takes the fixed set of executables, Unicode lower case, normalization and UTF-8 lengths as parameters, and folds the checks on owner, mode, device and identity of one item into one flag; code signatures and the manifest's contents are not part of this model.
- Machine integers: counters are unbounded; the source's counters are 64 bits wide.
- The remaining command line, site, scene, proxy and executor files: they pass values on to foreign libraries and services or validate single values, and share no state with what is modelled here.
