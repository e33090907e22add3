# Verified models of the UMAA service library

These Dafny modules model the stateful parts of the library and prove what they are for. Every object the library edits
in place is a class whose methods are proved against functions on values; the results about runs, round trips and
graphs are lemmas about those functions.

**Large Collections** (`LargeList*.dfy`, `LargeSet*.dfy`). A writer keeps a linked list or a set and publishes each
changed node as a keyed sample; a reader folds the samples into a table and rebuilds the collection from it. The main
results are the round trips, the absence of torn reads, the exact meaning of rebuilding from any table, and what
insertion and popBack read back as. The writer's methods also say what is left behind when any single send fails.

**The command protocol** (`Command*.dfy`). A provider with five policies for commands that come while others are active,
its sessions, and a consumer. Callbacks, senders and readers may answer anything; the answers are parameters. A session
keeps the trail of the statuses published for it, a provider keeps the sessions it has destroyed, the order of arrivals
and the order of activations, and a consumer keeps every sample it has taken and all it has sent, as ghost history.
`CommandEffects.dfy` and `ConsumerEffects.dfy` say what each call comes to in those terms.

**Conditionals** (`Conditional*.dfy`, `ReportStore.dfy`, `ActiveConstraints.dfy`). The search for circular dependencies,
the evaluation of what is built, the report with its payload topics, the bounded wait for a payload, and the cache of
active constraints.

**Supports** (`RingBuffer.dfy`, `Segments.dfy`). The ring buffer that carries samples and segment intersection.

Identifiers are numbers of which only equality and order matter, and a fresh one differs from all that were issued. The
clock never goes back. A topic is a sequence of samples in the order sent; a failed send puts nothing on it.

## Where the code and its documentation differ

The model follows the code. Each case below is proved. Where the code sometimes does what is documented, the exact
condition is given, except for the search, where it is given for one kind of conditional:

- Insertion of one value places the node before the predecessor locally; at position 1 the list can then not be read
  (`LargeListReads.InsertReadsBack`). Insertion of several values keeps them in reverse locally, but reads back in order.
- popBack relinks the node it then disposes instead of the one before it (`LargeListReads.PopBackReadsBack`).
- Two entries of a set can fall together when an update takes a value that another entry holds
  (`LargeSetModel.AgreementExact`).
- COMPLETE_EXISTING publishes a completion whatever state the session is in (`CommandTrails.CompletionExact`,
  `CommandTrails.OvertakenTooEarly`).
- The search for circular dependencies may not end (`ConditionalGraph.BothOperandsItself`,
  `ConditionalSearch.SecondItselfExact`); it does whenever no conjunction or disjunction has both operands leading back
  to it (`ConditionalSearch.ConflictDecided`). When it ends, it is right.
- A reader may return a list that never was, under metadata it was given earlier: whenever that has no timestamp, as
  after a removal, or the clock still shows its timestamp, as right after an update; and never otherwise
  (`LargeListAnnounced.NeverTornExact`).
- A maximum of 2^32 - 1 waiting cycles is never exceeded (`ConditionalAdding.EndlessWait`).

## Model

| member | source | states |
|---|---|---|
| LargeListModel.GenerateExact | include/umaa/LargeList.h:152-207 | for any element table, however corrupt, and a non-zero size: the list is valid if and only if the links from the start form a repeat-free chain to nil, all in the table, none newer than the metadata, of exactly the announced size; the payloads are then those of the chain, in order; any other outcome is INVALID_LIST |
| LargeListModel.WalkIsChain | include/umaa/LargeList.h:164-201 | what the marked walk finds is a chain of the table that meets no marked node |
| LargeListModel.ChainIsWalked | include/umaa/LargeList.h:164-201 | every chain is found by the walk, so the walk is complete as well as sound |
| LargeListOps.TableFollows | include/umaa/LargeListWriter.h:80-400 | for every operation, the ones with unusual local order included: a reader's table that matches the writer's elements still matches after the samples of the operation |
| LargeListOrder.OrderFollows | include/umaa/LargeListWriter.h:80-210 | update, prepend, append, popFront, inner remove and clear keep the elements linked in order and change the payloads as the operation on a plain sequence would |
| LargeListOrder.MetadataFollows | include/umaa/LargeListWriter.h:517-531 | after every operation the metadata describes the list: size, start, and a timestamp no element exceeds |
| LargeListOrder.ReadsBack | include/umaa/LargeList.h:152-207 | a reader with exactly the writer's elements and metadata rebuilds exactly the writer's payload sequence |
| LargeListProtocol.RunsStayConsistent | include/umaa/LargeListReader.h:50-141 | over every run of every operation, whatever the reader does, whichever announced metadata reaches it and however many samples have arrived: delivering what is pending leaves only the writer's elements in the table, and every cached list has the size of the latest metadata; unless the reader removed the list while that had elements, the table then is exactly the writer's elements |
| LargeListProtocol.RunsStaySequenced | include/umaa/LargeListWriter.h:80-400 | over every run of the order-keeping operations the writer's payloads are those the reference operations give on a plain sequence |
| LargeListProtocol.DrainedRead | include/umaa/LargeListReader.h:82-141 | one drain of at most 60 pending samples and the metadata give the writer's contents |
| LargeListProtocol.RoundTrip | include/umaa/LargeListWriter.h:80-400 | the round trip: after any run of order-keeping operations the caught-up reader, if it has not removed the list, returns exactly the sequence the operations describe, or EMPTY_LIST |
| LargeListReads.NoTornReads | include/umaa/LargeList.h:164-201 | with any part of one order-keeping operation's samples delivered, a VALID_LIST is the contents before or after the operation, under the old and under the new metadata |
| LargeListReads.ReaderNotTorn | include/umaa/LargeList.h:67-124 | the same for a reader with a cache, whichever call it makes |
| LargeListAnnounced.NeverTornExact | include/umaa/LargeList.h:164-201 | no torn reads over runs, exactly: to a caught-up reader the metadata of a non-empty list admits only that list, in every run and with any samples arrived, if and only if it carries a timestamp and the clock has moved on from it; if not, a prepend and an update lead to a VALID_LIST the list never was |
| LargeListAnnounced.NeverTorn | include/umaa/LargeList.h:164-201 | in a single run, if every later stamp is later than the metadata, whatever is returned as valid under it is the list it announced |
| LargeListAnnounced.LastWriteUnsettled | include/umaa/LargeListWriter.h:517-531 | right after an update, and for good after a removal, the metadata is not of that kind, so the torn reads can be reached |
| LargeListReads.RemovedReadsBack | include/umaa/LargeListReader.h:66-76 | a reader that removes the writer's list loses what it had taken: only an empty list reads back after it |
| LargeListReads.InsertReadsBack | include/umaa/LargeListWriter.h:216-301 | an insertion inside the list reads back as one, except exactly for one value at position 1, which reads back as INVALID_LIST |
| LargeListReads.PopBackReadsBack | include/umaa/LargeListWriter.h:305-330 | popBack reads back as an invalid list unless the list had exactly one element, then as an empty one |
| LargeListWriting.LargeListWriter.Update | include/umaa/LargeListWriter.h:80-96 | the list, metadata and topic after an update, or after its failed send; a position outside the list changes nothing |
| LargeListWriting.LargeListWriter.Prepend | include/umaa/LargeListWriter.h:101-142 | a batch cut short by a failed send leaves the prepend of the values that went through |
| LargeListWriting.LargeListWriter.Append | include/umaa/LargeListWriter.h:148-210 | an append in full, or exactly what a failed send number k leaves behind |
| LargeListWriting.LargeListWriter.Insert | include/umaa/LargeListWriter.h:216-301 | the dispatch to append and prepend at the ends, else an insertion with its odd local order, in full or cut at any send |
| LargeListWriting.LargeListWriter.PopBack | include/umaa/LargeListWriter.h:305-330 | the last element is relinked and then disposed, in full or cut at any send |
| LargeListWriting.LargeListWriter.PopFront | include/umaa/LargeListWriter.h:334-348 | the first element is disposed and dropped, or nothing changes |
| LargeListWriting.LargeListWriter.Remove | include/umaa/LargeListWriter.h:353-389 | the dispatch to popFront and popBack, else the relinking of the predecessor and the disposal, in full or cut at any send |
| LargeListWriting.LargeListWriter.Clear | include/umaa/LargeListWriter.h:394-400 | the list is emptied from the front up to the first failed send |
| LargeListWriting.CallIsStep | include/umaa/LargeListWriter.h:80-400 | a successful call on the object is a step of the protocol, so the results about runs are about calls |
| LargeListEffects.DispatchKeepsMeaning | include/umaa/LargeListWriter.h:216-389 | carrying out an insertion or removal at an end by the operation for that end means the same on a plain sequence |
| LargeListEffects.LocalOrder | include/umaa/LargeListWriter.h:216-301 | locally an insertion puts one value before the predecessor and several after it in reverse |
| LargeListEffects.MetadataNamesLast | include/umaa/LargeListWriter.h:517-531 | the metadata names the element published or disposed last, with its time or none, and the size |
| LargeListEffects.InterruptExact | include/umaa/LargeListWriter.h:80-400 | after a failed send the reader still has the writer's elements if and only if the operation had not linked a neighbour it could not send and had not sent elements it then does not insert; the metadata is as it was |
| LargeListEffects.RefusedExact | include/umaa/LargeList.h:104-124 | metadata for another list or older than the reader's is refused and changes nothing; any other is taken and read |
| LargeListEffects.NewestIsKept | include/umaa/LargeList.h:104-124 | of dated metadata in any order the reader keeps the newest |
| LargeListEffects.ReadsAgain | include/umaa/LargeListReader.h:50-61 | what was read for metadata is what is read by ID until other metadata comes |
| LargeListEffects.DrainExact | include/umaa/LargeListReader.h:103-141 | one call takes at most sixty samples, and all if there are no more |
| LargeListReading.LargeList.GetList | include/umaa/LargeList.h:67-80 | the cached list, an empty list for size zero, or a rebuilt one |
| LargeListReading.LargeList.Receive | include/umaa/LargeList.h:89-98 | a sample of this list replaces the element of its ID; one of another list is refused |
| LargeListReading.LargeList.ReceiveMetadata | include/umaa/LargeList.h:104-124 | stale or foreign metadata is refused; otherwise the cache is dropped and the list rebuilt |
| LargeListReading.LargeList.Dispose | include/umaa/LargeList.h:129-143 | a dispose removes the element of its ID if there is one |
| LargeListReading.LargeList.GenerateList | include/umaa/LargeList.h:152-207 | the loop over the links ends on every table and returns what the walk gives |
| LargeListReading.LargeListReader.UpdateListElements | include/umaa/LargeListReader.h:103-141 | the oldest samples, at most 60 of them in batches of 10, are folded into the table of lists in order |
| LargeListReading.LargeListReader.GetListFromMetadata | include/umaa/LargeListReader.h:82-91 | the drain, then the metadata handed to a new or known list |
| LargeListReading.LargeListReader.GetListById | include/umaa/LargeListReader.h:50-61 | the drain, then the list of that ID, or INVALID_LIST |
| LargeListReading.LargeListReader.RemoveListById | include/umaa/LargeListReader.h:66-76 | the drain, then the removal of the list if it is known |
| LargeSetModel.AgreementExact | include/umaa/LargeSetWriter.h:83-252 | the two indexes stay in agreement under an operation if and only if an insertion's ID is fresh and an update's new value is held by no other entry |
| LargeSetModel.RunsStayConsistent | include/umaa/LargeSetWriter.h:83-252 | over every run of such operations the indexes agree, the keys are those of the reference operations on a plain set, and delivering what is pending mirrors the writer's elements |
| LargeSetModel.SetRoundTrip | include/umaa/LargeSet.h:106-197 | the round trip: a reader with nothing pending returns the set the operations describe, or EMPTY_SET |
| LargeSetModel.BatchKeepsAgreement | include/umaa/LargeSetWriter.h:158-199 | agreement of the indexes through a batch of operations of which each is clean when its turn comes |
| LargeSetModel.DistinctInsertsAreClean | include/umaa/LargeSetWriter.h:158-199 | distinct IDs that are not in use make a batch of insertions clean |
| LargeSetModel.BatchIsRun | include/umaa/LargeSetWriter.h:158-252 | a batch or a clear on the object is a run of the protocol, so the results about runs are about calls |
| LargeSetModel.ReadsBack | include/umaa/LargeSet.h:163-197 | a table that mirrors the writer's elements rebuilds exactly the keys |
| LargeSetModel.GenerateExact | include/umaa/LargeSet.h:163-197 | for any table and a non-zero size: the set is valid if and only if nothing is newer than the metadata and the distinct values number exactly the size; it then has exactly those values; any other outcome is INVALID_SET |
| LargeSetModel.MetadataNamesLast | include/umaa/LargeSetWriter.h:83-221 | the metadata names the element published or disposed last, with its time or none, and the size |
| LargeSetModel.NewestIsKept | include/umaa/LargeSet.h:106-126 | of dated metadata in any order the reader keeps the newest |
| LargeSetObjects.LargeSetWriter.Insert | include/umaa/LargeSetWriter.h:125-151 | both indexes, the metadata and the topic after an insertion; a value already there, a missing ID or a failed send changes nothing |
| LargeSetObjects.LargeSetWriter.InsertAll | include/umaa/LargeSetWriter.h:158-199 | a batch that stops part-way has inserted exactly the values before the one that failed, under IDs that all differ when generated; then, or when the supplied IDs are distinct and unused, the indexes stay in agreement |
| LargeSetObjects.LargeSetWriter.Update | include/umaa/LargeSetWriter.h:83-106 | the entry moves to its new value in both indexes, or nothing changes |
| LargeSetObjects.LargeSetWriter.Remove | include/umaa/LargeSetWriter.h:204-221 | the entry leaves both indexes, or nothing changes |
| LargeSetObjects.LargeSetWriter.Clear | include/umaa/LargeSetWriter.h:237-252 | every value is tried; success is reported exactly when none is left; the indexes stay in agreement |
| LargeSetObjects.LargeSet.GenerateSet | include/umaa/LargeSet.h:163-197 | the loop over the table returns the set for the latest metadata and caches a valid one |
| LargeSetObjects.LargeSet.ReceiveMetadata | include/umaa/LargeSet.h:106-126 | foreign and stale metadata are told apart and refused and leave the cached set; otherwise it is dropped, the set is rebuilt, and a valid one cached |
| CommandStates.CommandStateMachine.AdvanceState | src/umaa/CommandStateMachine.cpp:30-38 | moves along the success path from every non-final state, by a documented transition |
| CommandStates.CommandStateMachine.Update | src/umaa/CommandStateMachine.cpp:40-47 | goes back to ISSUED from every non-final state, by a documented transition |
| CommandStates.CommandStateMachine.Cancel | src/umaa/CommandStateMachine.cpp:49-56 | cancels from every non-final state, by a documented transition |
| CommandStates.CommandStateMachine.Fail | src/umaa/CommandStateMachine.cpp:58-91 | succeeds if and only if the documented table has that failure for the current state |
| CommandModel.Rounds | include/umaa/services/base/CommandProviderBase.h:130-136 | a session is cycled at least once and at most four times less its rank |
| CommandModel.CyclingRises | include/umaa/services/base/CommandProviderBase.h:373-393 | cycling a session never takes it back to an earlier state |
| CommandEffects.IssuedEffect | include/umaa/services/base/CommandProviderBase.h:612-644 | an issued session fails if it is not valid or on an error, becomes COMMANDED on ADVANCE and stays otherwise; what is published and reported for each answer of the senders |
| CommandEffects.CommandedEffect | include/umaa/services/base/CommandProviderBase.h:651-683 | a commanded session fails on an error, becomes EXECUTING on ADVANCE and stays otherwise, with what is published |
| CommandEffects.ExecutingEffect | include/umaa/services/base/CommandProviderBase.h:685-716 | an error counts before a failure, a failure the table admits before completion, completion before carrying on, with what is published |
| CommandEffects.CancelEffect | include/umaa/services/base/CommandProviderBase.h:756-822 | a session that has not ended is canceled, or failed, with what is published; the callback comes before the sends |
| CommandEffects.UpdateEffect | include/umaa/services/base/CommandProviderBase.h:576-605 | an update gives the session the new command and the phase ISSUED for the reason UPDATED and goes on as issued, unless it has ended, the callback fails or the status is not sent |
| CommandEffects.SweepExact | include/umaa/services/base/CommandProviderBase.h:127-137 | an operation on all sessions goes in the order of their identifiers up to the first failure and leaves those behind it as they are |
| CommandEffects.DriveEffect | include/umaa/services/base/CommandProviderBase.h:127-137 | a session whose service goes on is driven through all states to COMPLETED, publishing each once |
| CommandEffects.DrivenEffect | include/umaa/services/base/CommandProviderBase.h:124-142 | when no session fails, those that ended are destroyed and the others are as driving left them |
| CommandEffects.IdleEffect | include/umaa/services/base/CommandProviderBase.h:449-565 | an idle provider makes a new command its only active session, whatever the policy |
| CommandEffects.AmendEffect | include/umaa/services/base/CommandProviderBase.h:449-461 | a command for an active session updates that one and no other |
| CommandEffects.ConcurrentEffect | include/umaa/services/base/CommandProviderBase.h:462-465 | ACCEPT_CONCURRENT: the new session joins the active ones, which are unchanged |
| CommandEffects.CancelExistingEffect | include/umaa/services/base/CommandProviderBase.h:466-481 | CANCEL_EXISTING: only the new session is active; the former ones are destroyed in the order of their identifiers, canceled with that as the last status published unless they had ended |
| CommandEffects.CompleteExistingEffect | include/umaa/services/base/CommandProviderBase.h:482-498 | COMPLETE_EXISTING: only the new session is active; the former ones are destroyed with a completion published last |
| CommandEffects.ReplaceFails | include/umaa/services/base/CommandProviderBase.h:466-498 | if a session cannot be ended, no former session stays active and the new one is not taken |
| CommandEffects.RejectEffect | include/umaa/services/base/CommandProviderBase.h:499-516 | REJECT_INCOMING: the active and waiting sessions are unchanged; the new one is announced as issued and failed and destroyed |
| CommandEffects.QueueEffect | include/umaa/services/base/CommandProviderBase.h:517-533 | QUEUE_INCOMING: the active sessions are unchanged and the new one waits behind all others |
| CommandEffects.DisposedActive | include/umaa/services/base/CommandProviderBase.h:419-428 | a dispose cancels the active session of that ID and destroys it if that succeeds, and lets the first waiting one in |
| CommandEffects.DisposedOusted | include/umaa/services/base/CommandProviderBase.h:419-428 | if that one has the same ID, it goes with the canceled session |
| CommandEffects.DisposedWaiting | include/umaa/services/base/CommandProviderBase.h:429-447 | a dispose cancels the first waiting session of that ID and destroys it, and changes nothing else |
| CommandEffects.NothingToHandle | include/umaa/services/base/CommandProviderBase.h:401-447 | a dispose for no session and a read without data change nothing; a failed read fails the handling |
| CommandEffects.FailingCycle | include/umaa/services/base/CommandProviderBase.h:91-115 | when the service or the handling fails, every active session fails, with that published last unless it had ended, and is destroyed |
| CommandEffects.SmoothCycle | include/umaa/services/base/CommandProviderBase.h:89-153 | a command that comes to an idle provider whose service goes on is completed in one cycle and published as ISSUED, COMMANDED, EXECUTING and COMPLETED |
| CommandProviding.CommandProvider.HandleUpdate | include/umaa/services/base/CommandProviderBase.h:576-605 | an update in full, or what is left when the session has ended, the callback fails or the status is not sent |
| CommandProviding.CommandProvider.HandleIssued | include/umaa/services/base/CommandProviderBase.h:612-644 | validation, the callback's verdict and the step to COMMANDED |
| CommandProviding.CommandProvider.HandleCommanded | include/umaa/services/base/CommandProviderBase.h:651-683 | the callback's verdict and the step to EXECUTING |
| CommandProviding.CommandProvider.HandleExecuting | include/umaa/services/base/CommandProviderBase.h:685-716 | failure before completion before the execution status, in that order |
| CommandProviding.CommandProvider.HandleCompleted | include/umaa/services/base/CommandProviderBase.h:722-750 | completion of an executing session, announced unless the callback or a send fails |
| CommandProviding.CommandProvider.HandleCancel | include/umaa/services/base/CommandProviderBase.h:756-784 | cancellation; an ended session is left alone and counts as handled |
| CommandProviding.CommandProvider.HandleFailure | include/umaa/services/base/CommandProviderBase.h:791-822 | failure for a reason the state machine admits |
| CommandProviding.CommandProvider.Drive | include/umaa/services/base/CommandProviderBase.h:127-137 | the do-while over one session ends within four rounds, and the session is marked for erasing exactly if it ended without an error |
| CommandProviding.CommandProvider.VisitAll | include/umaa/services/base/CommandProviderBase.h:127-137 | the active sessions are visited in the order of their IDs up to the first failure, whichever operation is applied |
| CommandProviding.CommandProvider.CancelActive | include/umaa/services/base/CommandProviderBase.h:419-428 | cancellation of an active session after the first waiting one was let in, with the case of equal identifiers |
| CommandProviding.CommandProvider.CancelQueued | include/umaa/services/base/CommandProviderBase.h:429-443 | cancellation of a waiting session |
| CommandProviding.CommandProvider.Replace | include/umaa/services/base/CommandProviderBase.h:466-498 | all active sessions end, canceled or reported as completed, before the new one is admitted |
| CommandProviding.CommandProvider.Reject | include/umaa/services/base/CommandProviderBase.h:499-516 | the incoming command is reported as issued and as failed, and nothing else changes |
| CommandProviding.CommandProvider.Enqueue | include/umaa/services/base/CommandProviderBase.h:517-533 | the incoming command is reported as issued and waits at the end of the queue |
| CommandProviding.CommandProvider.Admit | include/umaa/services/base/CommandProviderBase.h:541-565 | the incoming command's session becomes active and is reported and acknowledged |
| CommandProviding.CommandProvider.HandleIncomingCommand | include/umaa/services/base/CommandProviderBase.h:401-567 | the sessions after any read: dispose, update, and new command under each of the five policies |
| CommandProviding.CommandProvider.Cycle | include/umaa/services/base/CommandProviderBase.h:89-153 | one cycle takes the provider's sessions exactly where the function of the cycle says, whatever callbacks and sends answer |
| CommandSafety.AtMostOneActive | include/umaa/services/base/CommandProviderBase.h:419-567 | under each policy but ACCEPT_CONCURRENT, at most one session is active after every cycle of every run, whatever fails |
| CommandSafety.SuccessfulCycleLeavesNoneOver | include/umaa/services/base/CommandProviderBase.h:124-152 | a cycle that returns true leaves no active session in a final state |
| CommandTrails.RunKeeps | include/umaa/services/base/CommandProviderBase.h:89-153 | an induction principle: what each single-session operation keeps holds of every active, waiting and destroyed session after every run |
| CommandTrails.TrailsAreDocumented | include/umaa/CommandStateMachine.h:32-46 | when statuses are delivered, the statuses published for each session start at ISSUED and follow the documented table with its reasons, for all interleavings; only COMPLETE_EXISTING may add a completion |
| CommandTrails.CompletionExact | include/umaa/services/base/CommandProviderBase.h:482-498 | a forced completion follows the table if and only if the last status published was EXECUTING, and comes after a terminal status if and only if that was terminal |
| CommandTrails.OvertakenTooEarly | include/umaa/services/base/CommandProviderBase.h:482-498 | a run of two cycles in which COMPLETE_EXISTING publishes ISSUED and then COMPLETED |
| CommandTrails.NothingAfterTheEnd | include/umaa/services/base/CommandProviderBase.h:576-822 | under every other policy, whatever fails, nothing is published for a session after a terminal status |
| CommandQueue.NoSessionLost | include/umaa/services/base/CommandProviderBase.h:401-567 | in every run, under any policy and whatever fails, each session made is active, waiting or destroyed, as often as it was made |
| CommandFifo.ArrivalsAreRead | include/umaa/services/base/CommandProviderBase.h:449-533 | the history of arrivals grows exactly by the new commands read |
| CommandFifo.FirstInFirstOut | include/umaa/services/base/CommandProviderBase.h:144-150 | QUEUE_INCOMING with distinct identifiers and no failing callback or send: the sessions activated, then those waiting, are in order the arrivals without those canceled while waiting; and a session waits only while another is active |
| CommandConsuming.CommandConsumer.SendCommand | include/umaa/services/base/CommandConsumerBase.h:83-113 | a send, with the check for termination and the opening of a session it may need |
| CommandConsuming.CommandConsumer.ReadStatusMessage | include/umaa/services/base/CommandConsumerBase.h:174-212 | the loop over the status reader up to the first status for this session; a terminal one ends the command and closes an open session |
| CommandConsuming.CommandConsumer.HasTerminated | include/umaa/services/base/CommandConsumerBase.h:271-286 | reading on until the command has ended or no status is left |
| CommandConsuming.CommandConsumer.OpenSession | include/umaa/services/base/CommandConsumerBase.h:290-313 | a session is opened only if none is open and the last command has ended; a failed set-up leaves the nil identifier |
| CommandConsuming.CommandConsumer.CloseSession | include/umaa/services/base/CommandConsumerBase.h:318-337 | the session is closed only if its dispose was sent |
| ConsumerEffects.ReadsOn | include/umaa/services/base/CommandConsumerBase.h:174-212 | a status of the session that is not terminal is returned and changes neither the command nor the session; samples for others are skipped |
| ConsumerEffects.ReadsTheEnd | include/umaa/services/base/CommandConsumerBase.h:174-212 | a terminal status ends the command and closes an open session if hook and dispose succeed, else the read reports an error |
| ConsumerEffects.ReadsNothing | include/umaa/services/base/CommandConsumerBase.h:174-212 | without a status for the session everything up to the end of the data is skipped |
| ConsumerEffects.TerminationExact | include/umaa/services/base/CommandConsumerBase.h:271-286 | the command is let go of if and only if a terminal status of its session is there to be read |
| ConsumerEffects.SendsFromRest | include/umaa/services/base/CommandConsumerBase.h:83-113 | from rest a send opens a session under the new ID and sends the command in it, unless set-up or send fails |
| ConsumerEffects.SendExact | include/umaa/services/base/CommandConsumerBase.h:83-113 | a send succeeds only by sending the command last, in the open session it leaves alive; otherwise no command was sent |
| ConsumerEffects.SendsUpdate | include/umaa/services/base/CommandConsumerBase.h:83-113 | as long as no terminal status waits, a send is an update in the open session |
| CommandComposition.OpensAfterTheEnd | include/umaa/services/base/CommandConsumerBase.h:174-337 | in every run, between a command and a session opened after it, a sample was read that carries COMPLETED, CANCELED or FAILED for the command's session from its provider, and the command's dispose was sent |
| CommandComposition.NeverOvertakes | include/umaa/services/base/CommandConsumerBase.h:83-113 | in every run of one consumer and one provider over an ordered channel, with any policy and whatever fails, a command under a new identifier is read only when the provider has no session at all |
| CommandComposition.PolicyIsIrrelevant | include/umaa/services/base/CommandProviderBase.h:462-533 | so any two policies give the same run of the two |
| ConditionalGraph.ConflictExact | src/umaa/conditionals/ConditionalFactory.cpp:219-238 | started with empty marks on a dependency-closed graph: the search ends without conflict if and only if no cycle can be reached, leaves no marks, and a depth of the number of nodes is enough; any answer it gives is right |
| ConditionalGraph.NoConflictGrounds | src/umaa/conditionals/ConditionalFactory.cpp:219-238 | whatever is marked, an answer without conflict has followed every path to its end |
| ConditionalGraph.AcyclicSearch | src/umaa/conditionals/ConditionalFactory.cpp:219-238 | without a cycle the search ends, finds nothing and leaves the marks as they were |
| ConditionalGraph.BothOperandsItself | src/umaa/conditionals/ConditionalFactory.cpp:222-224 | a conditional whose operands are both itself sends the search round without end |
| ConditionalSearch.ConflictDecided | src/umaa/conditionals/ConditionalFactory.cpp:219-238 | if no conjunction or disjunction that can be reached has two operands leading back to it, the search ends and its answer is exact |
| ConditionalSearch.SecondItselfExact | src/umaa/conditionals/ConditionalFactory.cpp:219-238 | with itself as second operand: the search ends if and only if the first operand does not lead back and the search from it ends |
| ConditionalSearch.OrderDecides | src/umaa/conditionals/ConditionalFactory.cpp:219-238 | which operands lead back does not decide it: with the same two operands, both leading back, the search ends in one order and not in the other |
| ConditionalBuilding.CollectedIsFirst | src/umaa/conditionals/ConditionalFactory.cpp:35-152 | of conditionals under one identifier the first one counts |
| ConditionalBuilding.ConditionalFactory.SearchConflict | src/umaa/conditionals/ConditionalFactory.cpp:219-238 | the recursive search on the shared marks does what the function says |
| ConditionalBuilding.ListedIsList | src/umaa/conditionals/ConditionalFactory.cpp:211-216 | the list of a graph has each conditional once, under its identifier, in ascending order, and nothing else |
| ConditionalBuilding.ConditionalFactory.CreateConditionals | src/umaa/conditionals/ConditionalFactory.cpp:31-217 | conditionals are built only if all can be made, all references resolve and there is no cycle, and then each is returned once under its identifier and in ascending order; they are refused only otherwise; the search is kept from ending only if all can be made and resolve and there is a cycle or the depth is too small; the shared marks never accumulate |
| ConditionalBuilding.StrictReading | include/umaa/conditionals/LogicalANDConditional.h:79-96 | evaluation of every acyclic AND/OR/NOT graph is the strict three-valued reading: no value if and only if some leaf that can be reached has none, else the truth of the Boolean formula |
| ConditionalBuilding.BuiltCanBeEvaluated | src/umaa/conditionals/ConditionalFactory.cpp:155-217 | each conditional that is returned can be evaluated to the end, with that reading |
| ReportStore.AddExact | include/umaa/services/ConditionalReportProvider.h:99-129 | adding keeps conditionals and payload instances in one-to-one correspondence if and only if the payload's topic and ID are unused |
| ReportStore.UpdateExact | include/umaa/services/ConditionalReportProvider.h:144-181 | updating keeps the correspondence if and only if the payload's topic and ID are unchanged or unused |
| ReportStore.SupersedeKeepsIntegrity | src/umaa/services/ConditionalAddProvider.cpp:195-254 | replacing a conditional by an upsert, which sends before it disposes, keeps the correspondence |
| ReportStore.NeglectBreaksIntegrity | src/umaa/services/ConditionalReportProvider.cpp:199-210 | a dispose that fails, which the code only logs, leaves a payload instance behind without a conditional |
| ReportStore.DroppedFromReport | src/umaa/services/ConditionalReportProvider.cpp:199-210 | whichever disposes fail, the conditionals that were to go, and no others, are gone from the report |
| ReportStore.DeleteAllLeavesNothing | src/umaa/services/ConditionalDeleteProvider.cpp:59-68 | deleting all leaves neither conditionals nor payload instances |
| ReportStore.RunsKeepIntegrity | src/umaa/services/ConditionalReportProvider.cpp:185-210 | over every run of add, update, upsert, delete-one and delete-all with successful sends: correspondence with equal timestamps, and unique conditional IDs |
| ReportStore.AddIsStep | include/umaa/services/ConditionalReportProvider.h:99-129 | a successful add is an allowed step of such a run, under a new ID or one not in use on its topic |
| ReportStore.UpdateIsStep | include/umaa/services/ConditionalReportProvider.h:144-181 | so is a successful update that lost no dispose |
| ReportStore.UpsertIsStep | src/umaa/services/ConditionalAddProvider.cpp:195-254 | so is a successful upsert that lost no dispose |
| ReportStore.DeletionsAreSteps | src/umaa/services/ConditionalDeleteProvider.cpp:44-76 | and so are deleting one and deleting all when no dispose is lost |
| ReportStore.EveryConditionalResolves | include/umaa/SpecializationCache.h:42-72 | after any such run, a cache that has taken all samples of a topic resolves every reported conditional of the topic to its live payload |
| ReportStore.ResolveExact | include/umaa/SpecializationCache.h:63-72 | a drained cache resolves any conditional if and only if its payload instance is alive with the conditional's timestamp, and then to that |
| ReportStore.AddedIsLive | include/umaa/services/ConditionalReportProvider.h:99-129 | what was sent for a conditional that was added is its live payload, content included |
| ReportStore.UpdatedIsLive | include/umaa/services/ConditionalReportProvider.h:144-181 | so is what was sent for one that was updated; the old payload is gone and no other is touched |
| ReportStore.SupersededIsLive | src/umaa/services/ConditionalAddProvider.cpp:195-254 | and so is what superseded another |
| ConditionalReporting.SpecializationCache.Update | include/umaa/SpecializationCache.h:42-57 | the loop takes samples in up to the first failed or empty read |
| ConditionalReporting.ReadyExact | include/umaa/SpecializationCache.h:42-57 | what an update takes ends exactly before the first sample that brings no data or an error |
| ConditionalReporting.SpecializationCache.GetSpecialization | include/umaa/SpecializationCache.h:63-72 | a payload of the right ID and timestamp, or none |
| ConditionalReporting.ConditionalReportProvider.GetConditionalById | src/umaa/services/ConditionalReportProvider.cpp:88-95 | the conditional of that ID, found if and only if the report has one |
| ConditionalReporting.ConditionalReportProvider.UpdateConditional | src/umaa/services/ConditionalReportProvider.cpp:185-193 | the conditional of the same ID is replaced, or nothing changes |
| ConditionalReporting.ConditionalReportProvider.AddSpecialization | include/umaa/services/ConditionalReportProvider.h:99-129 | payload first, conditional second, with one timestamp, under an ID supplied or new; a failure adds no conditional and leaves at most the payload sent |
| ConditionalReporting.ConditionalReportProvider.UpdateSpecialization | include/umaa/services/ConditionalReportProvider.h:144-181 | the old payload is disposed if its key changes, then payload and conditional are replaced; a failure leaves the old conditional, before or after the new payload went out |
| ConditionalReporting.ConditionalReportProvider.RemoveSpecialization | src/umaa/services/ConditionalReportProvider.cpp:199-210 | payload and conditional go together; after a failure the conditional stays and its payload only if the dispose failed; an unknown ID changes nothing |
| ConditionalReporting.ConditionalReportProvider.SendReport | src/umaa/services/ConditionalReportProvider.cpp:73-77 | the report is announced by the metadata of its set as it is now |
| ConditionalReporting.ConditionalReportProvider.ResolveAndPublish | src/umaa/services/ConditionalAddProvider.cpp:195-254 | a resolved payload is re-published under a fresh ID for a new or superseded conditional and the report announced; ADVANCE if and only if that was sent; the state after each failure |
| ConditionalReporting.ConditionalReportProvider.DeleteAll | src/umaa/services/ConditionalDeleteProvider.cpp:59-68 | the conditionals are removed one by one up to the first failure, whichever disposes are lost |
| ConditionalReporting.ConditionalReportProvider.Delete | src/umaa/services/ConditionalDeleteProvider.cpp:44-76 | a delete command for one or all: the report is announced if and only if everything asked for was removed and that was sent; the report after each failure |
| ConditionalAdding.WaitIsBounded | src/umaa/services/ConditionalAddProvider.cpp:84-106 | whatever happens to the command, updates included, and whatever sends fail: by its executing cycle number maxWaitCycles + 1 the session has ended, if the maximum is below the counter's largest value; an ended session has no pending entry |
| ConditionalAdding.EndlessWait | src/umaa/services/ConditionalAddProvider.cpp:98-106 | with the largest 32-bit maximum the counter wraps and the session may wait for any number of cycles |
| ConditionalAdding.AddRunIsRun | src/umaa/services/ConditionalAddProvider.cpp:50-61 | the provider with its own callbacks, cycle by cycle, is a run of the queueing command provider |
| ConditionalAdding.EntriesAreActive | src/umaa/services/ConditionalAddProvider.cpp:84-145 | over every run of the provider, whatever fails: at most one session is active, its entry goes with its life, and every pending entry is under the identifier of an active session that has not ended |
| ConditionalAdding.NoSessionWaitsLonger | src/umaa/services/ConditionalAddProvider.cpp:84-106 | over every run of the provider, however commands, updates, cancellations and failures follow each other: no session ever made active has more than maxWaitCycles + 1 executing cycles, and one with so many has ended |
| ConditionalAdding.ExecutingEnds | src/umaa/services/ConditionalAddProvider.cpp:84-106 | an executing cycle completes the session if its payload was resolved and published, fails it on an error, fails it with TIMEOUT exactly in executing cycle number maxWaitCycles + 1, and otherwise leaves it waiting |
| ConditionalAdding.CycleConcludes | src/umaa/services/ConditionalAddProvider.cpp:84-145 | in any run of the provider, a cycle with a valid active session and delivered sends takes it to that end and destroys it with that as its last published status, or leaves it executing with one more wait counted |
| ConditionalAdding.ConditionalAddProvider.IsCommandValid | src/umaa/services/ConditionalAddProvider.cpp:62-82 | valid if and only if the ID is not nil and the topic is known and, unless every topic is accepted, supported |
| ConditionalAdding.ConditionalAddProvider.OnExecuting | src/umaa/services/ConditionalAddProvider.cpp:84-106 | the entry and the verdict of one executing cycle |
| ConditionalAdding.ConditionalAddProvider.ExecutingCycle | src/umaa/services/ConditionalAddProvider.cpp:84-145 | one executing cycle, callbacks and all, goes on with the session's life as described and leaves other entries alone |
| ActiveConstraints.MatchesAreNamed | src/umaa/services/ActiveConstraintsControlProvider.cpp:85-94 | with distinct identifiers the first matches are all the report's named conditionals in its order, and what is missing is what the report lacks |
| ActiveConstraints.AppliedAreNamed | src/umaa/services/ActiveConstraintsControlProvider.cpp:32-113 | in every reachable state with the dirty flag clear, a report with distinct identifiers and a command: the applied constraints are the report's conditionals that the command names, in report order, and the last to be announced |
| ActiveConstraints.ReactivatedWhenReported | src/umaa/services/ActiveConstraintsControlProvider.cpp:96-113 | under a standing session a conditional that is reported again under its identifier is applied again |
| ActiveConstraints.ValidExact | src/umaa/services/ActiveConstraintsControlProvider.cpp:47-58 | a command is valid if and only if the latest report has every conditional it names; else the reason says so |
| ActiveConstraints.CompletedExact | src/umaa/services/ActiveConstraintsControlProvider.cpp:75-113 | a check completes the command if and only if the session is not standing and the latest report has all it names; else it says what failed and applies nothing |
| ActiveConstraints.CommandIsApplied | src/umaa/services/ActiveConstraintsControlProvider.cpp:60-113 | a check after a command was taken up applies exactly what the latest report has of the constraints the command names |
| ActiveConstraints.ValidCompletes | src/umaa/services/ActiveConstraintsControlProvider.cpp:47-113 | a command found valid and taken up completes at the next check |
| ActiveConstraints.AfterDisposesExact | src/umaa/services/ActiveConstraintsControlProvider.cpp:37-45 | exactly the disposes in front of the next command are skipped |
| ActiveConstraints.ActiveConstraintsControlProvider.IsCommandValid | src/umaa/services/ActiveConstraintsControlProvider.cpp:47-58 | valid if and only if every named conditional is in the latest report |
| ActiveConstraints.ActiveConstraintsControlProvider.IsCommandCompleted | src/umaa/services/ActiveConstraintsControlProvider.cpp:75-113 | the cache and the verdict after a check, standing or not |
| ActiveConstraints.ActiveConstraintsControlProvider.Read | src/umaa/services/ActiveConstraintsControlProvider.cpp:37-45 | a standing session does not see the disposes in front of the next command |
| RingBuffer.DataRingBuffer.Push | include/common/DataRingBuffer.h:44-56 | the contents become the newest items that fit, the pushed one last |
| RingBuffer.DataRingBuffer.Get | include/common/DataRingBuffer.h:61-72 | the oldest item is returned and leaves |
| RingBuffer.DataRingBuffer.Pop | include/common/DataRingBuffer.h:123-130 | the oldest item leaves |
| RingBuffer.DataRingBuffer.Back | include/common/DataRingBuffer.h:98-120 | item number i counted from the newest |
| RingBuffer.DataRingBuffer.Size | include/common/DataRingBuffer.h:155-169 | the number of unread items |
| RingBuffer.QueueHoldsNewest | include/common/DataRingBuffer.h:44-72 | after any run, the contents are the newest of all items ever pushed, in order, and never more than fit |
| RingBuffer.LocalReaderSender.ReadInstance | test-utils/include/LocalReaderSender.h:129-167 | exactly the first equal sample is taken out and the others keep their order; without one nothing changes |
| RingBuffer.LocalReaderSender.ReadUpToN | test-utils/include/LocalReaderSender.h:105-121 | the oldest samples, at most n, are taken out in order |
| RingBuffer.LocalReaderSender.ReadLatest | test-utils/include/LocalReaderSender.h:82-98 | the newest sample is returned and the queue is emptied |
| Segments.IntersectsIffShare | include/algorithms/GeographicUtils.h:359-426 | over exact reals, the test is true if and only if the closed segments share a point, collinear, touching and degenerate cases included |

## Left out

- LargeListWriting.LargeListWriter.Append: excludes a batch on an empty list, where the code reads the last element of a list that has none (include/umaa/LargeListWriter.h:190).
- LargeListWriting.LargeListWriter.Insert: excludes the same batch on an empty list.
- LargeListWriting.LargeListWriter.Remove: excludes a position equal to the size, where the code advances past the end (include/umaa/LargeListWriter.h:354).
- LargeSetReader: its read loop is that of LargeListReader with sets for lists; the set protocol delivers any number of samples per step instead.
- Collection destructors, iterators, and the look-up of set entries by element ID.
- The sample payloads of acknowledgments and execution statuses, and the disposes a session sends when it is destroyed; that each session is destroyed exactly once is CommandQueue.NoSessionLost.
- Changing the policy in mid-run, setCmdHeader and setCmdDestination, reading acknowledgments and execution statuses at the consumer, and the destination filter of the command reader.
- CommandFifo.FirstInFirstOut: assumes that no identifier is used for two sessions; an update of a waiting command makes a second session under the same identifier.
- ConditionalSearch.ConflictDecided: gives a sufficient condition for the search to end; beyond it, which operands lead back does not decide it, as ConditionalSearch.OrderDecides shows, and only operands that are the conditional itself are decided exactly.
- Conditionals are linked by identifier instead of weak pointers, so a conditional that was destroyed is not modelled.
- ConstraintViolatedConditional with a duration, which uses one timer for all conditionals; without one it is a negation.
- Sensor conditionals are leaves with any reading; their getters, observers and the ladders over topics are parameters.
- DataRingBuffer::front(i), whose index is not wrapped; and the 32-bit width of the ring's indexes.
- The polygon test and the trigonometry of GeographicUtils, and the rounding of floating point.
- DDS readers, senders and quality of service, threads, logging, configuration, health status and UDP.
- The standalone enumeration machines for tasks and objectives, which are finite tables.
