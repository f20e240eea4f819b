# Verified model of rpi-acp, rpi-codemode and rpi-edit-diagnostics

This Dafny project models nine pieces of the repository (and, for one of them, the catalog parser of
rpi-extcore) whose correctness is decided by visible code,
and proves what each is for. Text is a sequence of characters in which every character stands for one
byte. Straight-line code, recursion and expressions are functions; code that changes state is a method
or a class proved equal to a function of the old state, and the promises are lemmas about these
functions; concurrent code is a step relation in which any enabled event of any task may come next.

| module | models |
|---|---|
| `Wrappers` | an optional value |
| `JsoncScan`, `JsoncLocality`, `JsoncTree` | the index scanners over commented JSON, how they behave on a prefix, and syntax trees that print to such documents |
| `JsoncSplice`, `JsoncMemberText`, `JsoncSecondRun`, `JsoncRegister`, `JsoncDocuments`, `JsoncMeaning`, `JsoncEdits` | splicing the agent into the editor's settings, running it twice, and what the edited file is and means |
| `RequestTable`, `WriterStream` | the output stream, its mutex and closed flag, and request correlation |
| `Ingress` | standard input, the bounded request queue and the dispatcher |
| `Decimal`, `CivilDate` | decimal text, and UTC timestamps |
| `BridgeCalls`, `BridgeOutput`, `Bridge`, `Catalog` | the tool-call bridge between a guest program and the host |
| `Heap` | the guest's bounded allocator |
| `ConfigGate`, `ConfigSessions` | delivery of the configuration to the client, and the sessions' watchers |
| `ModelSelect`, `ModelCatalog` | the model selector, and the catalog that it is made from |
| `Json`, `JsonStrings`, `JsonReader` | JSON values, their text, and reading it back |
| `Envelope`, `EnvelopeReads`, `Redact` | the result envelope and what the host reads off it, and redaction |
| `Subscriptions` | live subscriptions |
| `DiffPairs` | pairing of changed lines in edit diagnostics |

Where the intended property does not hold of the code, the code is modelled as it is, the exact
condition is proved, and a lemma gives an input that fails:

- Registering twice is a no-op, and the edited file is well formed, if and only if the comma test looked
  at a token: a line comment in front of the brace after a value, or a block comment where no comma is
  missing, breaks both (`JsoncDocuments.DocumentLaw`, `JsoncEdits.LaunchesExactly`,
  `JsoncDocuments.CommentBreaksSecondRun`). The repository expects a second run to be a no-op
  (packages/rpi-acp/src/zed.rs:524).
- Redaction removes a non-empty key from all texts if and only if the key does not clash with the mark
  "[redacted]". They clash when the key can begin inside a mark, that is when of the key and some end of
  the mark one begins with the other, or when the key can run into a mark, that is when the front of the
  key can stand before an occurrence and the remainder and the mark fit in the same way
  (`Redact.SafeExactly`, `Redact.TreesSafeExactly`). Keys without brackets clash exactly when they are
  part of the word "redacted" (`Redact.SafeKeys`); "x[" is a key that runs into the mark
  (`Redact.BracketKeyFails`).

## Model

| member | source | states |
|---|---|---|
| JsoncTree.SkipTriviaAt | packages/rpi-acp/src/zed.rs:236-258 | skipping printed blanks and comments leads exactly where skipping from behind them leads |
| JsoncTree.SkipStringAt | packages/rpi-acp/src/zed.rs:261-274 | a printed string literal is skipped to just past its closing quote, and the text between the quotes is its content |
| JsoncTree.SkipValueAt | packages/rpi-acp/src/zed.rs:334-347 | a printed value of any shape is skipped exactly to its end; a scalar must not be glued to what follows |
| JsoncTree.ScanItems | packages/rpi-acp/src/zed.rs:277-307 | printed members or elements leave a count of one delimiter kind where it was, whatever strings, comments and other brackets they hold |
| JsoncTree.MatchAt | packages/rpi-acp/src/zed.rs:277-307 | counting one delimiter kind finds the true closing delimiter of every printed object or array |
| JsoncTree.LookupItems | packages/rpi-acp/src/zed.rs:310-331 | the member lookup on a printed object finds exactly the keys of the tree, never text in strings, comments or nested values |
| JsoncTree.FindAt | packages/rpi-acp/src/zed.rs:310-331 | the position found for a key is where that member's printed value stands |
| JsoncTree.WalkItems | packages/rpi-acp/src/zed.rs:310-331 | on a printed object cut behind its last token the member walk reaches the cut, in the state that the tree says |
| JsoncScan.SkipTriviaLoop | packages/rpi-acp/src/zed.rs:236-258 | the loop over blanks and comments, in bounds and terminating, computes the recursive scanner |
| JsoncScan.SkipStringLoop | packages/rpi-acp/src/zed.rs:261-274 | the string loop computes the recursive scanner, escapes past the end included |
| JsoncScan.MatchingDelimLoop | packages/rpi-acp/src/zed.rs:277-307 | the depth-counting loop computes the recursive delimiter scan |
| JsoncScan.SkipValueLoop | packages/rpi-acp/src/zed.rs:334-347 | the value skipper computes the recursive one |
| JsoncScan.MemberValueLoop | packages/rpi-acp/src/zed.rs:310-331 | the member loop computes the recursive lookup |
| JsoncLocality.SkipTriviaExtends | packages/rpi-acp/src/zed.rs:236-258 | how a trivia scan that ran to the end of a prefix continues in any longer text |
| JsoncLocality.ScanExtends | packages/rpi-acp/src/zed.rs:277-307 | a delimiter scan of a longer text is decided by its prefix, or resumes at the prefix's end at the depth and state reached there |
| JsoncLocality.LookupExtends | packages/rpi-acp/src/zed.rs:310-331 | a member lookup in a longer text is decided by its prefix, or resumes at its end in the state that the walk over the prefix reached |
| JsoncSplice.SpliceReplaces | packages/rpi-acp/src/zed.rs:198-224 | a splice replaces only the white space directly before the brace; every other byte stays, in order |
| JsoncSplice.UpdateOnlyInserts | packages/rpi-acp/src/zed.rs:147-224 | an update of any document changes nothing but the white space before one closing brace, where it adds the member with its line breaks and at most one comma |
| JsoncSplice.TrimEnd | packages/rpi-acp/src/zed.rs:207 | trimming keeps a prefix, drops only bytes of white-space characters, and leaves no Unicode white space at the end |
| JsoncSplice.SpliceObject | packages/rpi-acp/src/zed.rs:198-224 | building the body piece by piece gives kept text, comma, member and suffix |
| JsoncSplice.EnsureRegisteredInText | packages/rpi-acp/src/zed.rs:147-190 | the whole procedure computes the specified outcome, with each of its refusals |
| JsoncMemberText.MemberItem | packages/rpi-acp/src/zed.rs:68-88 | the inserted member text is one well-formed object member named `rpi`, whatever the command line contains |
| JsoncMemberText.BlockItem | packages/rpi-acp/src/zed.rs:174-188 | the inserted top-level block is one well-formed member `agent_servers` holding that object |
| JsoncMemberText.ServerValueText | packages/rpi-acp/src/zed.rs:68-88 | the member prints the text of a well-formed object for every command line |
| JsonStrings.StringReads | packages/rpi-acp/src/zed.rs:70-77 | for every string, quotes, backslashes and control characters included, the literal that is written means that string under the escapes of section 7 of RFC 8259 |
| JsoncMeaning.LaunchObjectWritten | packages/rpi-acp/src/zed.rs:68-88 | the object that is written means `type` custom with exactly the given command and arguments, for every command line |
| JsoncSecondRun.SecondLookup | packages/rpi-acp/src/zed.rs:147-224 | the lookup of the inserted key in the new text finds it exactly when the comma was placed rightly |
| JsoncSecondRun.ScanSpliced | packages/rpi-acp/src/zed.rs:198-224 | the inserted text returns the delimiter scan to the depth it entered at, so the edited object still closes at the same brace |
| JsoncRegister.SecondRunAtRoot | packages/rpi-acp/src/zed.rs:147-224 | after a new `agent_servers` was added a second run changes nothing if and only if the comma test was right |
| JsoncRegister.SecondRunNested | packages/rpi-acp/src/zed.rs:147-224 | the same when the member was added to existing agent servers |
| JsoncRegister.SecondRunIsNoOp | packages/rpi-acp/src/zed.rs:147-224 | for every document that the first run changes and whose walk is delimited: the second run leaves the text alone if and only if the comma test was right |
| JsoncRegister.UpdatedHasSite | packages/rpi-acp/src/zed.rs:147-190 | the first run changes a document exactly when it has an insertion site |
| JsoncRegister.RefusedExactly | packages/rpi-acp/src/zed.rs:147-190 | each of the three refusals is given exactly for its own defect of the document |
| JsoncDocuments.DocParts | packages/rpi-acp/src/zed.rs:227-233 | in every printed document with anything behind it the root object is found where it is, and its members are those of the tree |
| JsoncDocuments.DocumentLaw | packages/rpi-acp/src/zed.rs:147-224 | for every printed document: the exact outcome of the first run by what the tree holds, and the second run is a no-op if and only if the comma test was right |
| JsoncDocuments.CommentBreaksSecondRun | packages/rpi-acp/src/zed.rs:210-217 | a document with a line comment before the brace for which a second run is not a no-op |
| JsoncEdits.EditedObject | packages/rpi-acp/src/zed.rs:198-224 | splicing a member into a printed object, in any text, gives the print of a well-formed object with that member added and every other key unchanged, if the comma test was right |
| JsoncEdits.EditedDocument | packages/rpi-acp/src/zed.rs:147-224 | the updated text is then a well-formed document with the same text around its root object, in which every other setting and every other agent has its old value and the agent means exactly the given command line |
| JsoncEdits.LaunchesExactly | packages/rpi-acp/src/zed.rs:147-224 | an update leaves a well-formed document that launches the agent with the given command line if and only if the comma test was right |
| WriterStream.OutKept | packages/rpi-acp/src/protocol.rs:230-260 | every event keeps: whole frames of different tasks, then at most one torn piece, and the stream closed before the mutex is free after a tear |
| WriterStream.OutAlways | packages/rpi-acp/src/protocol.rs:230-260 | the same over every run of writers, closes, errors and dropped futures |
| WriterStream.NothingFollows | packages/rpi-acp/src/protocol.rs:481-491 | once a frame is left incomplete no byte is ever written again |
| WriterStream.ClosedBeforeReleased | packages/rpi-acp/src/protocol.rs:234-243 | when the task that tore a frame no longer holds its guard the stream is closed |
| WriterStream.ClosedIsFinal | packages/rpi-acp/src/protocol.rs:400-405 | closing is sticky and silences every task that is not in the middle of a frame |
| WriterStream.ClientReadsFrames | packages/rpi-acp/src/protocol.rs:230-260 | splitting the output at line breaks yields exactly whole frames, one per task, finished ones in order |
| WriterStream.OpenStreamWrites | packages/rpi-acp/src/protocol.rs:230-260 | on an open stream with a free mutex a queued frame goes out whole, byte for byte, and the mutex is free again |
| WriterStream.RequestsAlways | packages/rpi-acp/src/protocol.rs:355-405 | in every reachable state: closed implies nothing pending, at most 64 pending, ids are unique and never reused, every entry belongs to a live request, and every waiting request is pending, answered or on a closed stream |
| WriterStream.AdmissionIs | packages/rpi-acp/src/protocol.rs:361-376 | a request is admitted exactly on an open stream with fewer than 64 pending; otherwise it ends with the reason that applies and changes nothing |
| WriterStream.RepliesReachTheirRequest | packages/rpi-acp/src/protocol.rs:467-477 | only a reply to a pending id delivers; it reaches the one request issued that id, unchanged if it is a failure or within the budget and as an error if it is over, and never twice |
| WriterStream.PendingIsAnswered | packages/rpi-acp/src/protocol.rs:454-477 | every reply to a pending id, and every cancellation of one, is handed over |
| WriterStream.DeliveredForGood | packages/rpi-acp/src/protocol.rs:467-477 | a delivered answer is never replaced in any continuation |
| WriterStream.EndedLeavesNothing | packages/rpi-acp/src/protocol.rs:493-501 | a request that ended in any way has no entry |
| WriterStream.NoneLeftBehind | packages/rpi-acp/src/protocol.rs:493-501 | when all requests are over the table is empty |
| WriterStream.ReceivedIsDelivered | packages/rpi-acp/src/protocol.rs:377-386 | a request is told its own answer, and is told of a disconnect only on a closed stream |
| RequestTable.AdmitKeeps | packages/rpi-acp/src/protocol.rs:363-376 | admission keeps the table within 64 entries and empty when closed, and refuses exactly a closed stream and a full table, each with its own reason |
| RequestTable.Writer.Close | packages/rpi-acp/src/protocol.rs:400-405 | sets the closed flag and empties the table |
| RequestTable.Writer.NextId | packages/rpi-acp/src/protocol.rs:361 | takes an id that no entry has and counts on |
| RequestTable.Writer.AdmitRequest | packages/rpi-acp/src/protocol.rs:363-376 | admits below 64 on an open stream and otherwise reports why not, changing nothing |
| RequestTable.Writer.ResolveChecked | packages/rpi-acp/src/protocol.rs:467-477 | removes the entry and hands over a failure or a success within the budget unchanged, and a success over it as too large; other ids change nothing |
| RequestTable.Writer.CancelRequest | packages/rpi-acp/src/protocol.rs:454-458 | removes the entry and hands over a cancellation |
| RequestTable.Writer.DropRequest | packages/rpi-acp/src/protocol.rs:493-501 | removes the entry if it is still there |
| Ingress.DispatchedInOrder | packages/rpi-acp/src/protocol.rs:975-1053 | dispatched messages are a prefix of what the input forwards, at most 64 wait, and every response read has been routed whatever the queue holds |
| Ingress.LinesAreConsumed | packages/rpi-acp/src/protocol.rs:984-1052 | what was consumed is, in order, every line that the run was given while the stream was open and the host ran |
| Ingress.TurnTakesOldest | packages/rpi-acp/src/protocol.rs:1118-1137 | with the stream open and the host running, a turn with work takes the oldest message, and one without leaves |
| Ingress.PendingWaits | packages/rpi-acp/src/protocol.rs:984-1052 | input that is not there yet makes the reader wait and takes nothing |
| Ingress.WakeGoesOn | packages/rpi-acp/src/protocol.rs:984-1052 | a reader that waited goes on unless the stream was closed or the host stopped |
| Ingress.StreamCloses | packages/rpi-acp/src/protocol.rs:984-1052 | the events that close the stream, and no others do |
| Ingress.EofDrains | packages/rpi-acp/src/protocol.rs:1118-1137 | a dispatcher that leaves undisturbed has dispatched all of the input; otherwise the stream was closed or the host stopped |
| Ingress.CleanEofDrainsAll | packages/rpi-acp/src/protocol.rs:989-999 | input that ends cleanly with nobody stopping or closing is dispatched to the last message, and the exit code is 0 |
| Ingress.UndisturbedLeaves | packages/rpi-acp/src/protocol.rs:1118-1137 | leaving the loop without stop or close happens only after the end of input, with everything dispatched |
| Ingress.ExitCodes | packages/rpi-acp/src/protocol.rs:1916-1922 | the exit code is 2 exactly after a read failure or a queue overflow, and 0 otherwise |
| Ingress.OverflowExactly | packages/rpi-acp/src/protocol.rs:1035-1046 | the queue overflows exactly at the 65th waiting message, which closes the stream |
| Ingress.Connection.IngressRound | packages/rpi-acp/src/protocol.rs:984-1052 | one round of the ingress loop does the specified step and keeps the invariant |
| Ingress.Connection.DispatchTurn | packages/rpi-acp/src/protocol.rs:1118-1137 | one turn of the dispatcher takes the oldest message or leaves |
| CivilDate.YearFound | packages/rpi-acp/src/session_list.rs:53-56 | the closed form finds the March-based year in which the day of an era lies |
| CivilDate.DateFound | packages/rpi-acp/src/session_list.rs:52-61 | the computed date exists and is the one with that day number in the recursive leap-year calendar |
| CivilDate.Fields | packages/rpi-acp/src/session_list.rs:45-69 | every accepted millisecond becomes a valid date with a year of four digits that counts back to exactly that millisecond |
| CivilDate.EveryDateIsReached | packages/rpi-acp/src/session_list.rs:46-48 | every valid date and time is the image of an accepted millisecond, so the accepted range is exactly the four-digit years |
| CivilDate.EpochDay | packages/rpi-acp/src/session_list.rs:49-52 | millisecond 0 is the start of 1 January 1970 |
| CivilDate.EarlierIffLess | packages/rpi-acp/src/session_list.rs:45-69 | calendar order is the order of milliseconds, both ways |
| CivilDate.DatesSort | packages/rpi-acp/src/session_list.rs:62-68 | the strings sort chronologically, and no two milliseconds share one |
| CivilDate.UtcDate | packages/rpi-acp/src/session_list.rs:45-69 | exactly the accepted range prints, in the date-time form of section 5.6 of RFC 3339, and the text reads back to that millisecond |
| CivilDate.FormatReads | packages/rpi-acp/src/session_list.rs:62-68 | the formatted text has the fixed wire form, and reading its fields gives the date back |
| BridgeCalls.StartCases | packages/rpi-codemode/src/engine.rs:194-254 | a start reaches the host exactly for an unfailed bridge with room, a known tool and valid arguments; otherwise at most the latch changes |
| BridgeCalls.HostAnswer | packages/rpi-codemode/src/engine.rs:210-254 | a start is accepted exactly with a new id and a regular status; a new id is pending in either case, and every refusal is latched |
| BridgeCalls.RefusalLatches | packages/rpi-codemode/src/engine.rs:194-209 | a start that is kept from the host latches a failure exactly for arguments over the limit and for one call too many |
| BridgeCalls.StepKeeps | packages/rpi-codemode/src/engine.rs:194-350 | every start, latch, poll pass and cleanup keeps the budgets and the account of ids |
| BridgeCalls.CallsAreBounded | packages/rpi-codemode/src/engine.rs:194-254 | over every run recorded plus pending calls are at most the started ones, those at most 128, and at most 8 are pending |
| BridgeCalls.DisposedExactlyOnce | packages/rpi-codemode/src/engine.rs:336-350 | after cleanup every accepted request id has been disposed exactly once and no other ever, each right after a finished poll or a cancel of its own |
| BridgeCalls.CleanupTwice | packages/rpi-codemode/src/engine.rs:345-350 | the second cleanup, when the bridge is dropped, does nothing |
| BridgeCalls.CleanupIs | packages/rpi-codemode/src/engine.rs:336-343 | cleanup cancels, disposes, releases and records each pending call under its name, in order, and changes nothing else |
| BridgeCalls.NoStartAfterFailure | packages/rpi-codemode/src/engine.rs:179-258 | once a failure is latched no further start reaches the host and the latch stays, whatever the guest does |
| BridgeCalls.StartsAreCounted | packages/rpi-codemode/src/engine.rs:210-216 | the counter is the number of starts that the host saw |
| BridgeCalls.PassVisits | packages/rpi-codemode/src/engine.rs:778-824 | a poll pass visits each pending call at most once, last first, and exactly once if it is not cut short; then exactly the running calls stay, in order |
| BridgeCalls.PollLaw | packages/rpi-codemode/src/engine.rs:784-820 | one poll by the host's answer alone: it goes on exactly behind a running call or a result that was handed over, ends the program exactly at a retained and disposed terminating result, and stops otherwise; a settled call is recorded as an error exactly if it failed or says so |
| BridgeCalls.PassEnds | packages/rpi-codemode/src/engine.rs:778-824 | a pass ends at the first answer that does not let it go on, with that answer's verdict, records the settled calls in the order of the visits, and keeps exactly the others |
| BridgeCalls.TerminalExactly | packages/rpi-codemode/src/engine.rs:804-809 | over every run the bridge remembers a terminating result exactly when some pass ended at one |
| Bridge.FailureIsFinal | packages/rpi-codemode/src/engine.rs:430-453 | after a latched failure no call is started and the final status is not completed |
| Bridge.FinalOfRun | packages/rpi-codemode/src/engine.rs:430-522 | over every run and all output: terminated exactly if a pass met a terminating result, then cancelled, then timed out, and completed exactly for a clean return whose content can join the output, unless attachments were lost |
| Bridge.Bridge.StartTool | packages/rpi-codemode/src/engine.rs:194-254 | the method does the specified start and keeps the invariant |
| Bridge.Bridge.PollAll | packages/rpi-codemode/src/engine.rs:778-824 | the reverse loop with removal in place does the specified pass |
| Bridge.Bridge.CleanUpCalls | packages/rpi-codemode/src/engine.rs:336-343 | draining the pending calls does the specified cleanup |
| Bridge.Bridge.EmitBlocks | packages/rpi-codemode/src/engine.rs:269-307 | an emission succeeds as specified, or latches a failure and leaves the output alone |
| Bridge.Bridge.SelectOwn | packages/rpi-codemode/src/engine.rs:308-335 | a selection succeeds as specified, or latches a failure |
| Bridge.Bridge.BudgetOutput | packages/rpi-codemode/src/engine/references.rs:132-149 | room is taken exactly when parts, blocks and encoded bytes stay within their limits |
| BridgeOutput.EncodedSize | packages/rpi-codemode/src/engine.rs:289-299 | the size of a JSON array is its elements plus commas plus brackets |
| BridgeOutput.EmitIsExact | packages/rpi-codemode/src/engine.rs:269-307 | an emission appends just its blocks, keeps the counter exact, and is refused exactly when the encoded array or the output would grow too large |
| BridgeOutput.OthersExactly | packages/rpi-codemode/src/engine.rs:269-335 | emitting a reference and the two selections succeed exactly when valid, with room and without an output of the other kind, and change nothing else |
| BridgeOutput.OutputStaysExact | packages/rpi-codemode/src/engine.rs:269-335 | after every sequence of output operations the counter is the exact encoded size, within 1 MiB |
| BridgeOutput.RecheckNeverFires | packages/rpi-codemode/src/engine.rs:515-522 | the later byte check can never find accepted or promoted output too large |
| BridgeOutput.StatusExactly | packages/rpi-codemode/src/engine.rs:430-522 | the exact condition of each final status and the exact selected blocks |
| BridgeOutput.CompletedMeansClean | packages/rpi-codemode/src/engine.rs:430-453 | for output of any kind, completed excludes failure, cancellation, deadline and memory failure, and terminated needs a terminating result |
| Catalog.ListPage | packages/rpi-codemode/src/engine.rs:84-134 | a page is accepted exactly when it is well formed, within the requested number of tools and 1024, and ends the catalog or leads on to a larger offset up to 1024 |
| Catalog.LoadCatalog | packages/rpi-codemode/src/engine.rs:592-616 | against every host the page loop ends, its offsets rise strictly from 0, an accepted catalog is all tools of all pages, at most 1024 in 1 MiB, and it is refused only when the check fails or the last page breaks a limit |
| Heap.ChargeIsCost | packages/rpi-codemode/src/heap.rs:61-66 | the checked arithmetic refuses exactly the sizes that cannot be laid out and otherwise gives the true cost |
| Heap.ReplacementIsExact | packages/rpi-codemode/src/heap.rs:68-73 | the replaced counter is the exact sum and exists exactly when it stays within the limit |
| Heap.CallLaw | packages/rpi-codemode/src/heap.rs:85-163 | every legal call does what the table of live blocks says: counter exact and within the limit, refused calls change only the latch |
| Heap.ShrinkIsGranted | packages/rpi-codemode/src/heap.rs:136-163 | giving a block no more than it has is never refused by the budget |
| Heap.AllocThenFree | packages/rpi-codemode/src/heap.rs:85-135 | freeing what was just allocated restores table and counter |
| Heap.RunLaw | packages/rpi-codemode/src/heap.rs:54-163 | over every legal run the counter is the cost of the live blocks, and the latch is set exactly if some request was refused or it was set before |
| Heap.GuestHeap.Alloc | packages/rpi-codemode/src/heap.rs:85-102 | the method does the specified step and keeps the accounting |
| Heap.GuestHeap.Calloc | packages/rpi-codemode/src/heap.rs:103-123 | the same, with the checked multiplication |
| Heap.GuestHeap.Dealloc | packages/rpi-codemode/src/heap.rs:124-135 | the same; neither the addition nor the subtraction leaves the machine word |
| Heap.GuestHeap.Realloc | packages/rpi-codemode/src/heap.rs:136-163 | the same, with null and zero as allocation and release |
| ConfigGate.StepKeeps | packages/rpi-acp/src/configuration.rs:144-233 | every event of runtime, watcher and setter keeps the gate's invariant |
| ConfigGate.ClientNeverGoesBack | packages/rpi-acp/src/configuration.rs:144-233 | the revisions that the client sees over response, setter responses and notifications never decrease |
| ConfigGate.QuiescentIsCurrent | packages/rpi-acp/src/configuration.rs:168-185 | whenever the watcher has no unseen change and the stream is open, the recorded snapshot is the latest one and the last options that the client saw are its options |
| ConfigGate.FramesAndRecords | packages/rpi-acp/src/configuration.rs:57-68 | what the client is sent is what is recorded, failed writes are not recorded, and equal options are recorded without a frame |
| ConfigGate.FramesExactly | packages/rpi-acp/src/configuration.rs:57-68 | the client is sent exactly the snapshots that are notified or answered, and each is recorded |
| ConfigGate.NotificationsAreNews | packages/rpi-acp/src/configuration.rs:168-185 | over every run, a notification tells options that differ from the last ones shown |
| ConfigGate.EnterDecides | packages/rpi-acp/src/configuration.rs:57-68 | an old revision is skipped, a new one with equal options is recorded without a frame, and one with other options is notified |
| ConfigGate.ChangeIsShown | packages/rpi-acp/src/configuration.rs:168-185 | an unseen change with new options is noticed, sent and recorded, and the gate is free again |
| ConfigGate.SetIsAnswered | packages/rpi-acp/src/configuration.rs:187-233 | a refused set request leaves everything as it was; one that is carried out is answered with the returned snapshot, which is recorded |
| ConfigGate.StopEnds | packages/rpi-acp/src/configuration.rs:144-166 | once the watcher is stopped only set requests reach the client |
| ConfigGate.StreamCloses | packages/rpi-acp/src/configuration.rs:57-68 | the gate closes the stream exactly when a write of its own fails |
| ConfigGate.Projection.Forward | packages/rpi-acp/src/configuration.rs:168-185 | a pass of the watcher skips, records or notifies by revision and options |
| ConfigSessions.StepKeeps | packages/rpi-acp/src/protocol.rs:1282-1695 | opening, loading, resuming, closing and setting keep: every open session with a runtime has a watcher, and the client of every watcher was sent options first |
| ConfigSessions.LoadIs | packages/rpi-acp/src/protocol.rs:1505-1626 | what loading or resuming leaves in both tables, for open and new sessions, a failed replay and a watcher that cannot drain |
| ConfigSessions.SetFindsShownGate | packages/rpi-acp/src/protocol.rs:1664-1695 | on every connection a set request finds the gate of its session in the table, with options already shown; the branch that prepares a gate without a frame is never taken |
| ConfigSessions.EveryGateIsCurrent | packages/rpi-acp/src/protocol.rs:905-916 | over every run of a connection each watcher without an unseen change has shown the client the latest options, as long as the stream is open |
| ConfigSessions.Dispatcher.Open | packages/rpi-acp/src/protocol.rs:1289-1337 | a new session is entered, with a watcher exactly if it has a runtime |
| ConfigSessions.Dispatcher.Reload | packages/rpi-acp/src/protocol.rs:1505-1626 | a loaded or resumed session replaces its watcher, after the old one has stopped |
| ConfigSessions.Dispatcher.Stop | packages/rpi-acp/src/protocol.rs:1769-1782 | session and watcher go together, and a watcher that cannot drain ends the connection |
| ConfigSessions.Dispatcher.SetConfigOption | packages/rpi-acp/src/protocol.rs:1664-1695 | the method does the specified step and, on a reachable connection, leaves the table of watchers as it was |
| ModelSelect.CollisionAdvertisesNothing | packages/rpi-acp/src/configuration.rs:15-24 | a catalog with two equal spellings advertises no model |
| ModelSelect.OfferedValues | packages/rpi-acp/src/configuration.rs:15-35 | otherwise exactly the spellings of the models with an id are advertised |
| ModelSelect.GroupsPartition | packages/rpi-acp/src/protocol.rs:1996-2030 | each provider has one non-empty group with exactly its models, in catalog order |
| ModelSelect.GroupShows | packages/rpi-acp/src/protocol.rs:1998-2030 | a group offers exactly its provider's models with an id, spelled with the provider in front, with their names and contexts |
| ModelSelect.SelectShape | packages/rpi-acp/src/protocol.rs:2032-2060 | the selector is left out without a model, flat for one provider, and grouped otherwise |
| ModelSelect.ValueResolves | packages/rpi-acp/src/configuration.rs:196-214 | the setter finds exactly the identity that it is given the spelling of |
| ModelSelect.ResolvesExactly | packages/rpi-acp/src/configuration.rs:196-214 | a value is unknown exactly when no model is spelled so, ambiguous exactly when two are, and otherwise finds the one |
| ModelSelect.ValuesRoundTrip | packages/rpi-acp/src/configuration.rs:8-55 | all advertised values lead back to their identities if and only if no model with an id has an empty provider |
| ModelSelect.EmptyProviderFails | packages/rpi-extcore/src/configuration.rs:278-284 | why the parser must read an empty provider as none: otherwise two models could share an advertised value unnoticed |
| ModelSelect.HasCollision | packages/rpi-acp/src/configuration.rs:19-24 | the loop over a set of spellings decides whether two are equal |
| ModelSelect.BuildGroups | packages/rpi-acp/src/protocol.rs:1998-2030 | the grouping loop computes the groups |
| ModelCatalog.EntriesAreClean | packages/rpi-extcore/src/configuration.rs:317-352 | an accepted catalog keeps one model for each entry, with no empty id, no empty provider and no identity twice |
| ModelCatalog.AcceptedExactly | packages/rpi-extcore/src/configuration.rs:317-352 | a catalog is accepted exactly when it has at most 1024 readable entries that name different models, and it then holds just those, in order |
| ModelCatalog.CatalogsRoundTrip | packages/rpi-extcore/src/configuration.rs:317-352 | for every accepted catalog: with a spelling collision nothing is advertised, and otherwise every model is, and every advertised value leads the setter back to its model |
| ModelCatalog.ParseModels | packages/rpi-extcore/src/configuration.rs:317-352 | the loop over the entries reads the specified catalog, or refuses |
| Json.EncodedTwice | packages/rpi-codemode/src/lib.rs:168-186 | writing encoded JSON as a string at most doubles it |
| JsonReader.ReadsBack | packages/rpi-codemode/src/lib.rs:160-187 | a reader after the grammar of RFC 8259 reads every written value back |
| Envelope.EnvelopeFits | packages/rpi-codemode/src/lib.rs:115-187 | every envelope of a value that the engine produces, other than the reference hand-off, fits in 1 MiB |
| Envelope.EnvelopeKeeps | packages/rpi-codemode/src/lib.rs:115-187 | no such envelope loses the termination request or reports a failure as success, and what does not fit is reported as an error |
| Decimal.WordDigits | packages/rpi-codemode/src/engine.rs:568 | the duration, a 64-bit number, is written with at most 20 digits |
| Envelope.ToolResult | packages/rpi-codemode/src/lib.rs:115-187 | taking the native fields out one by one builds the specified envelope |
| EnvelopeReads.HostReads | packages/rpi-codemode/src/lib.rs:115-187 | the text means one value, which reads as the hand-off, the full envelope or the compact form, each exactly when it applies |
| EnvelopeReads.FullReads | packages/rpi-codemode/src/lib.rs:130-165 | what the host reads at content, details and contentParts in each shape, in terms of the invocation's own fields |
| EnvelopeReads.CompactReads | packages/rpi-codemode/src/lib.rs:168-186 | the compact form names the limit, keeps duration and termination, and keeps logs and calls exactly while its details are within a quarter of the limit |
| EnvelopeReads.HandoffReads | packages/rpi-codemode/src/lib.rs:116-128 | exactly a valid reference of a successful invocation is handed off, alone |
| EnvelopeReads.BoundedIsCut | packages/rpi-codemode/src/engine.rs:352-358 | the reason is the longest front of the message within the limit that does not cut a character |
| Redact.ReplaceFrees | packages/rpi-codemode/src/lib.rs:98 | no replaced text contains a non-empty key that does not clash with the mark |
| Redact.SafeExactly | packages/rpi-codemode/src/lib.rs:98 | for every non-empty key: no replaced text contains it if and only if key and mark do not clash; every clash has a text in which the key reappears |
| Redact.SafeKeys | packages/rpi-codemode/src/lib.rs:98 | for keys without brackets, to clash is to be part of the word in the mark |
| Redact.BracketKeyFails | packages/rpi-codemode/src/lib.rs:98 | a key with a bracket that reappears |
| Redact.RedactFrees | packages/rpi-codemode/src/lib.rs:96-114 | without a clash no string and no property name at any depth of the redacted tree contains the key |
| Redact.TreesSafeExactly | packages/rpi-codemode/src/lib.rs:96-114 | all redacted trees are free of a non-empty key if and only if it does not clash with the mark |
| Redact.FreeIsKept | packages/rpi-codemode/src/lib.rs:96-114 | a tree without the key is left as it is |
| Redact.ReplaceKeepsRest | packages/rpi-codemode/src/lib.rs:98 | the text is pieces joined by the key, as found from the left, and the replaced text is the same pieces joined by the mark |
| Redact.ItemsStay | packages/rpi-codemode/src/lib.rs:107-111 | an array keeps its length, and each place its own item, redacted |
| Redact.RedactTwice | packages/rpi-codemode/src/lib.rs:96-114 | without a clash redacting twice equals redacting once |
| Redact.SiblingsStay | packages/rpi-codemode/src/lib.rs:100-106 | properties that stay keep their names and order, and each holds its own old value, redacted |
| Redact.RedactValue | packages/rpi-codemode/src/lib.rs:96-114 | the recursive rewriting computes the redacted tree |
| Subscriptions.StepKeeps | packages/rpi-acp/src/tool_program_live.rs:126-261 | every event of dispatcher and tasks keeps the registry's invariant |
| Subscriptions.SubscriptionsAlways | packages/rpi-acp/src/tool_program_live.rs:126-261 | in every reachable state at most 16 entries live, each of an unfinished task of its own id, and each task's one snapshot precedes its updates |
| Subscriptions.FinishRemovesOwn | packages/rpi-acp/src/tool_program_live.rs:233-241 | a finishing task removes its own entry and no other, also after a new subscription to the id |
| Subscriptions.CancelHitsOwn | packages/rpi-acp/src/tool_program_live.rs:302-308 | whatever other tasks do between the unlisting and the removal, on an open stream the task that a cancelled request signals is the one it started, or that task is gone and nothing is removed |
| Subscriptions.NothingToCancel | packages/rpi-acp/src/tool_program_live.rs:243-246 | a cancel that finds no entry finds no task of that id that could still write |
| Subscriptions.NoFrameAfterCancel | packages/rpi-acp/src/tool_program_live.rs:243-261 | after a cancellation has returned no new frame of its subscription ever begins |
| Subscriptions.AnswersAreTold | packages/rpi-acp/src/tool_program_live.rs:170-217 | in every reachable state snapshots and updates began only for subscriptions that were granted, and errors only for refused ones |
| Subscriptions.AnswerGoesOut | packages/rpi-acp/src/tool_program_live.rs:159-217 | on an open stream the answer to a task that nobody cancelled goes out, a snapshot or an error |
| Subscriptions.UpdatesGoOut | packages/rpi-acp/src/tool_program_live.rs:183-205 | a snapshot that went out is followed by one frame for each item |
| Subscriptions.CancelledEnds | packages/rpi-acp/src/tool_program_live.rs:161-167 | a task cancelled before its answer goes to its end without a frame |
| Subscriptions.CancelledSaysNothing | packages/rpi-acp/src/tool_program_live.rs:170-174 | a task that learns of its cancellation or of the closed stream before it decides says nothing |
| Subscriptions.FinishedReturns | packages/rpi-acp/src/tool_program_live.rs:228-261 | a task that finishes gives its entry back, and the cancellation that waited for it returns |
| Subscriptions.UnsubscribeTakes | packages/rpi-acp/src/tool_program_live.rs:243-261 | an unsubscription takes the live entry and signals its task, and without an entry it changes nothing |
| Subscriptions.ReturnsExactly | packages/rpi-acp/src/tool_program_live.rs:243-261 | a cancellation returns exactly when its task is done or the stream was closed for it |
| Subscriptions.SubscriptionRegistry.Insert | packages/rpi-acp/src/tool_program_live.rs:126-156 | an entry is made exactly below 16 and for a free id, with a fresh token |
| Subscriptions.SubscriptionRegistry.List | packages/rpi-acp/src/tool_program_live.rs:154-157 | the request is listed with its subscription and its task |
| Subscriptions.SubscriptionRegistry.TakePending | packages/rpi-acp/src/tool_program_live.rs:302-308 | the request is taken out of the list and its subscription told, if it was there |
| Subscriptions.SubscriptionRegistry.RemoveEntry | packages/rpi-acp/src/tool_program_live.rs:243-245 | takes the entry out and tells its token |
| Subscriptions.SubscriptionRegistry.FinishTask | packages/rpi-acp/src/tool_program_live.rs:233-241 | removes the entry only under the same token |
| DiffPairs.PairingKeeps | packages/rpi-edit-diagnostics/src/edit_diagnostics.rs:295-325 | the paired list is a permutation that keeps the order of deletions and the order of insertions |
| DiffPairs.PairsStandTogether | packages/rpi-edit-diagnostics/src/edit_diagnostics.rs:305-325 | a rewritten run keeps its place, with its k-th insertion right behind its k-th deletion |
| DiffPairs.EverythingIsAccounted | packages/rpi-edit-diagnostics/src/edit_diagnostics.rs:327-346 | shown plus omitted lines are all lines |
| DiffPairs.OrderChanges | packages/rpi-edit-diagnostics/src/edit_diagnostics.rs:297-325 | the nested run loops compute the paired list |
| DiffPairs.DifferingLines | packages/rpi-edit-diagnostics/src/edit_diagnostics.rs:275-346 | the listing shows the first eight paired lines in order and counts the rest |
| DiffPairs.LinesList | packages/rpi-edit-diagnostics/src/edit_diagnostics.rs:165-193 | expanding the listed counts gives the positions back, neighbours differ, and at most eight are shown with the rest counted |

## Left out

- JsoncRegister.SecondRunIsNoOp: assumes that the member walk does not run off the kept text inside a string, bracket or block comment, and that the root's delimiter scan reaches the edited object outside strings and comments; both hold for every printed document, where `JsoncDocuments.DocumentLaw` needs neither.
- JsoncSecondRun.SecondLookup: assumes that the member walk does not run off the kept text inside a string, bracket or block comment.
- JsoncRegister.SecondRunAtRoot: makes the same assumption about the root object.
- JsoncRegister.SecondRunNested: makes the same assumption about the edited object, and that the root's delimiter scan reaches it.
- JsoncDocuments.DocumentLaw: covers documents printed from syntax trees in which no scalar is glued to a comment and every line comment ends in a line break.
- RequestTable.Writer.NextId: ids are unbounded; the wrap of the 64-bit counter after 2^64 requests is not modelled.
- CivilDate.UtcDate: integers are unbounded; every intermediate value of the accepted range is far below the 64-bit limit.
- BridgeOutput.EmitIsExact: sizes are unbounded; the saturating additions of the source never saturate below the limits they are compared with.
- Timers, timeouts and dropped futures are events that may happen at any step, not time.
- Output blocking, flushing and the operating system's pipes: bytes leave in pieces of any size.
- The file backup and atomic rename around the registration, and finding the settings file.
- The guest runtime and the guest's scripts: the guest is an arbitrary caller of the bridge.
- Reading, measuring and releasing result references, and the validation of content blocks: their outcomes are parameters.
- The log budget of the bridge and the request parameters of the tool: one-line bounds.
- The configuration runtime itself: it publishes strictly increasing revisions, and a setter returns a published snapshot no older than what was published before the call.
- The thinking selector, the current value of the model selector and the legacy selection of older hosts.
- The mapping of events and questions to notifications, authentication and command-line flags.
- The difference algorithm and the candidate search of the edit diagnostics: the list of changes is an arbitrary input; labels and column widths of the printed lines.
- The order of properties that the serializer chooses: objects keep the order in which they were built.
- The error flag of an execution's summary and the references it hands over: they depend on the references, which are parameters.
