# Verified model of the sake bouncer

sake keeps a user connected to IRC networks while the user's own clients come and go. It logs what it
hears, forwards it, replays what a client missed, and speaks for several clients on one upstream connection.
This project models the parts of it that are hardest to get right and proves, for every input and every run,
what they do. `dafny verify dfyconfig.toml` checks the whole project.

One user's events are handled by one goroutine, so protocols are state machines over single steps. An object
that the program updates in place is a class here, whose methods are proved against functions on values; the
main theorems are about those functions, and about whole runs of the methods.

| module | what it is about |
|---|---|
| `Delivery`, `DeliveryNetwork` | cursors per target and client name, live forwarding with PING and PONG, replay after reconnecting |
| `DeliveryHistory`, `DeliveryLimits` | what a run of events says about who missed what, and the stores and connects that break the guarantee |
| `FsStore`, `FsForward`, `FsCursors`, `FsLoads`, `FsInOrder` | the log files, read backwards and forwards day by day, byte-offset cursors into them, and what is loaded from a cursor, in general and if stamps are in order |
| `DeliveryFs`, `DeliveryDisk`, `DeliveryDiskRuns`, `DeliveryDiskInOrder` | the log files as the store of the delivery protocol, its steps and runs on them, and runs in which clocks agree |
| `MemoryStore`, `Ring` | ring buffers |
| `Around`, `AroundFs` | the loads of CHATHISTORY, AROUND as one window of a log, and AROUND on the log files |
| `LabeledResponse` | labelled commands, buffering and batches, and the client's own reading of the wire |
| `PendingCommands` | queues of upstream commands whose replies do not say who asked |
| `NetworkTable` | creating, updating and deleting networks under a quota, with live clients |
| `Isupport`, `Monitor` | keeping a view on the other side in step by sending differences |
| `ZncLog`, `Quoting`, `ChannelModes`, `Memberships`, `Sasl`, `JoinPacking` | printers and the parsers that must undo them |
| `Text`, `Sorting`, `Positions` | the functions of the Go library that these rely on, and positions in a log |

## Where the code departs from what one would expect

The code is modelled as it is. Each departure has an exact condition, and where the failure is not plain from
the condition, a lemma that exhibits it.

- At-least-once delivery needs a store whose last ID never points past the last message and whose loads leave nothing
  out. For every store that lacks one of these some run breaks it, and for every other none does
  (`DeliveryLimits.GuaranteeIffStore`).
- The in-memory store's last message ID is one too far once a buffer exists, so the next message is skipped
  (`MemoryStore.LastIdIff`, `DeliveryLimits.MemoryLoses`).
- The log files leave messages out of a backlog without an error, and the client's cursor passes over them
  (`DeliveryFs.BacklogOnDisk`, `DeliveryLimits.IncompleteLoadLoses`). A message loads from a cursor under a condition on
  its own day and place (`FsLoads.LoadLatestIDIff`). It does not if it is stamped on a day before the cursor's, as a
  server's slow clock has it after midnight (`FsLoads.BackdatedMissed`); if it, or one before it in its file, is stamped
  now or later, as a fast clock has it (`FsLoads.SecondMissed`); or behind 100 days in a row without a match
  (`FsLoads.SilenceMissed`). In the other direction, what was read before is sent again if it is stamped on a later day
  than the cursor (`FsLoads.LaterDayRepeated`). In a run in which clocks agree only the silence is left
  (`DeliveryDiskInOrder.DeliveredInOrder`).
- A client name with a CHATHISTORY connection open gets no replay when a plain client of that name connects
  (`DeliveryHistory.MixedConnectIff`, `DeliveryLimits.MixedNamesLose`).
- A backlog that cannot be loaded, or is over the limit, is passed over by the cursor (`Delivery.RunLosslessIff`).
- The walk over log files gives up after 100 days in a row without a match, backwards (`FsStore.WalkIff`) and
  forwards; forwards it also misses messages stamped 00:00:00 on a later day (`FsForward.LoadAfterTimeIff`).
- A failed load is answered with an error, except for AROUND, which answers with an empty history: the error it sets
  is a variable of its own (`Around.ChatHistory`). AROUND would also repeat messages if times were finer than the
  milliseconds of a time tag (`Around.AroundIff`, `Around.AroundRepeats`). No store here has such times for messages
  with a tag: the tag is read with milliseconds (upstream.go:723), SQLite keeps those (database/sqlite.go:27) and log
  files seconds, for which `Around.AroundWhole` holds.
- AROUND on log files misses what either walk does, so also messages at midnight (`AroundFs.AroundFsIff`,
  `AroundFs.AroundMidnight`).
- Enqueueing after a timeout shifts the queue without shortening it: the new command is doubled and nothing is
  sent until a reply comes in, which is then taken for one to a command that was not sent
  (`PendingCommands.StaleEnqueue`, `PendingCommands.EnqueueIff`, `PendingCommands.TimeoutStops`).
- A list of prefixes or channel modes that cannot be parsed makes the receiver drop the rest of its ISUPPORT message
  (`Isupport.InSyncIff`, `Isupport.BehindBadPrefix`).
- A mode letter beyond ASCII is printed as two bytes and read as two modes. E9 never comes back, and the few letters
  that can do so if the other byte does no harm (`ChannelModes.RoundTripIff`, `ChannelModes.AccentLost`).
- A nick to be regained that no client monitors is put on the MONITOR list and taken off again by turns
  (`Monitor.IdealIff`, `Monitor.Oscillates`).
- A network is not found by its own name if an earlier one has that name for an address
  (`NetworkTable.FoundByNameIff`). An update with the limit enforced is refused at the quota even if the network
  was enabled already, which is why callers enforce it only for networks that were not
  (`NetworkTable.User.ChangeNetwork`).
- An ACTION whose command is not in upper case is logged as plain text, and becomes an ACTION when the log is read
  (`ZncLog.NormalStableIff`).
- Words with unprintable runes do not survive quoting (`Quoting.RoundTripIff`).

## Model

| member | source | states |
|---|---|---|
| Delivery.AtLeastOnce | upstream.go:2287-2370 | Over every interleaving of messages, acknowledgements, connects, disconnects, detaching and restarts, with a store whose last ID is never ahead and whose loads leave nothing out, a client name with a cursor and an open backlog connection has been queued every PRIVMSG and NOTICE since that cursor was made, or a recorded decision says why not: withheld, load failed, over the limit |
| Delivery.EveryMessageDecided | upstream.go:2287-2370 | With loads that may leave messages out, the same once that is counted as a decision |
| Delivery.StepKeeps | upstream.go:2346-2370 | Every enabled step keeps the invariant: nothing before a cursor or after a PINGed message is undecided, for live and stored cursors alike |
| Delivery.ConnectLosslessIff | downstream.go:1845-1875 | Connecting loses a message exactly if some backlog with unread messages fails to load, is over the limit, or is loaded with some left out |
| Delivery.RunLosslessIff | downstream.go:1891-1925 | A run loses nothing exactly if every backlog that is read can be read whole and fits the limit |
| Delivery.EveryMessageDelivered | downstream.go:1845-1925 | In such runs every message is queued, or withheld on purpose (detached, ignored, blocked, own echo) |
| Delivery.EveryMessageQueued | upstream.go:2346-2370 | Without reasons to withhold, every message is queued |
| Delivery.AcknowledgedNotReplayed | downstream.go:680-732 | A message sent to a backlog connection can be acknowledged on it, and after that a reconnection replays nothing of the target |
| DeliveryHistory.UnaccountedIff | downstream.go:1845-1925 | For any store and any sequence of events: nothing was decided on a message for a client name exactly if an event logged it while no connection of that name was open, and no connect after it replayed it from a cursor at or before it |
| DeliveryHistory.GuaranteeIff | upstream.go:2287-2370 | So the guarantee holds at the end of any sequence of events exactly if no owed message was missed in this sense |
| DeliveryHistory.MixedConnectIff | downstream.go:1848-1854 | A plain connect keeps the guarantee exactly if no CHATHISTORY connection of that name is open, or the events before it let the name miss no owed message |
| DeliveryHistory.NothingUnreadKeeps | downstream.go:1854-1872 | A connect keeps the guarantee if there is no PRIVMSG or NOTICE behind any cursor of the name |
| DeliveryLimits.MixedNamesLose | downstream.go:1848-1854 | A reachable state in which mixing them loses a message |
| DeliveryLimits.AheadLoses | downstream.go:1860-1871 | For every store whose last ID points past the last message of some log, a run that breaks the guarantee |
| DeliveryLimits.FirstLoses | upstream.go:2316-2331 | The same if that log is empty, by the first message of a target |
| DeliveryLimits.MemoryLoses | msgstore/memory.go:75-82 | A run with the in-memory store that breaks the guarantee |
| DeliveryLimits.IncompleteLoadLoses | downstream.go:1891-1925 | For every store whose loads may leave messages out, a run that breaks it |
| DeliveryLimits.GuaranteeIffStore | downstream.go:1845-1925 | For every store, all runs keep the guarantee exactly when its last ID never points past the last message and its loads leave nothing out |
| DeliveryNetwork.DeliveredStore.HasTarget | user.go:131-133 | Whether some client has a cursor on the target |
| DeliveryNetwork.DeliveredStore.LoadID | user.go:135-141 | The cursor of a client on a target, if there is one |
| DeliveryNetwork.DeliveredStore.StoreID | user.go:143-150 | Exactly one cursor changes |
| DeliveryNetwork.DeliveredStore.StoreAll | upstream.go:2328-2330 | Every given client gets the cursor and nothing else changes |
| DeliveryNetwork.DeliveredStore.ClientNames | user.go:158-169 | The names of all clients with a cursor anywhere |
| DeliveryNetwork.Network.IntroduceTarget | upstream.go:2316-2331 | The first message of a target gives every known client a cursor at the last ID; a failed lookup changes nothing |
| DeliveryNetwork.Network.AppendLog | upstream.go:2287-2340 | The log, cursors and message position are those of the recording step |
| DeliveryNetwork.Network.ForwardTo | upstream.go:2346-2370 | One connection: the message is written unless withheld, and if it was kept the decision is recorded and the PING sent |
| DeliveryNetwork.Network.ForwardAll | upstream.go:2346-2370 | The same for all connections in order, for messages that are not kept too |
| DeliveryNetwork.Network.Produce | upstream.go:2346-2370 | Refines the producing step: logged, then written or withheld on every open connection, with its PINGs; what is written is exactly the message to those it is not withheld from |
| DeliveryNetwork.Network.HandlePong | downstream.go:702-732 | Refines the acknowledgement step |
| DeliveryNetwork.HistoryIff | downstream.go:1891-1925 | A position is in the backlog exactly if it is an unread PRIVMSG or NOTICE that the load does not leave out, with fewer than the limit behind it |
| DeliveryNetwork.FateLoaded | downstream.go:1891-1925 | What the protocol decides on an unread message is what the loaded backlog says: written, withheld, left out or too old |
| DeliveryNetwork.Network.LoadLatestID | downstream.go:1902-1910 | The store's answer: an error, or the backlog |
| DeliveryNetwork.Network.WriteHistory | downstream.go:1912-1924 | Writes the loaded messages that are not to be withheld, in order |
| DeliveryNetwork.Network.SendTargetBacklog | downstream.go:1891-1925 | Loads and writes the backlog of one target; the decisions, taken from what was loaded and written, are those of the protocol for every unread message |
| DeliveryNetwork.Network.Welcome | downstream.go:1845-1875 | Refines the connect step: replay and fast-forward of every target, for the first client of a name only |
| DeliveryNetwork.Network.ReplayAll | downstream.go:1854-1872 | The loop over targets replays and fast-forwards each of them once |
| DeliveryNetwork.DeliveredStore.Load | user.go:749-760 | The cursors are exactly the receipts read back |
| DeliveryNetwork.Network.SaveClient | user.go:538-558 | What is stored for one client is replaced by its cursors; other clients keep theirs |
| DeliveryNetwork.Network.Leave | user.go:905-914 | Refines the disconnect step with its stored receipts |
| DeliveryNetwork.Network.SaveAll | user.go:1036-1046 | The same for every client with a cursor |
| DeliveryNetwork.Network.Restart | user.go:749-760 | Refines the restart step, clean or after a crash |
| DeliveryNetwork.HandleAll | upstream.go:2346-2370 | Over any run the objects go through the states of the protocol |
| DeliveryNetwork.Serve | downstream.go:1845-1875 | At-least-once delivery of the objects over any run, with such a store; every message decided as queued was written |
| FsStore.FillRing | msgstore/fs.go:228-269 | The loop over a day's lines leaves in the ring exactly what the scan of the day selects |
| FsStore.ParseMessagesBefore | msgstore/fs.go:228-285 | The last so many messages of one day strictly between two times, through any number of ring wraps |
| FsStore.GetBeforeTime | msgstore/fs.go:322-355 | Refines the backwards walk, filling the result from its end; terminates by remaining messages and tries |
| FsStore.LoadLatestID | msgstore/fs.go:399-447 | An ID of another network or entity is refused; otherwise refines the backwards walk from now down to a cursor |
| FsStore.WalkIff | msgstore/fs.go:322-355 | The walk finds exactly the last so many messages of all days unless, and only unless, 100 silent days in a row hide some |
| FsStore.WalkFinds | msgstore/fs.go:322-355 | In any case the walk finds the last so many messages of the days behind the one it stops at: that before the first day, one with enough messages behind it, or the first with 100 silent days and too few messages behind it |
| FsStore.ReachedIff | msgstore/fs.go:322-355 | A day with too few messages behind it is reached exactly if no 100 silent days in a row come behind it |
| FsStore.ScanSorted | msgstore/fs.go:228-275 | On lines in the order of time, stopping early loses nothing |
| FsStore.LoadBeforeTimeIff | msgstore/fs.go:322-359 | For sorted day files, the last min(limit, k) matching messages strictly between the bounds, oldest first, exactly if no run of 100 silent days hides one |
| FsStore.MatchingElsewhere | msgstore/fs.go:322-355 | Outside the days the walk covers there is nothing to find |
| FsForward.ParseMessagesAfter | msgstore/fs.go:287-320 | Refines the forward scan of one day |
| FsForward.GetAfterTime | msgstore/fs.go:361-393 | Refines the forward walk |
| FsForward.LoadAfterTimeIff | msgstore/fs.go:361-397 | For sorted day files, the first so many matching messages, exactly if none of them is at midnight of a later day and no 100 silent days come in between |
| FsForward.ResultCleanOfMidnight | msgstore/fs.go:304 | No message at midnight of a later day is ever returned |
| FsForward.MidnightMissed | msgstore/fs.go:386 | A log whose only match is at such a midnight, for which the answer is wrong |
| FsCursors.FsLog.WriteLine | msgstore/fs.go:201-211 | One line is appended to its day's file, whatever the day, and the ID points just behind it |
| FsCursors.FsLog.Append | msgstore/fs.go:143-212 | Logs the message by the day of its time tag unless its line is empty; the ID points behind it |
| FsCursors.FsLog.LastMsgID | msgstore/fs.go:132-141 | Points behind everything logged for that day |
| FsCursors.AppendStored | msgstore/fs.go:201-211 | The files are the log's lines, day by day, after every append |
| FsCursors.PointsAtKept | msgstore/fs.go:124-130 | An ID keeps its place whatever is appended, on any day |
| FsCursors.LinesBehind | msgstore/fs.go:228-275 | Reading from any byte of a line and dropping the rest of it yields the lines behind it |
| FsLoads.DayRead | msgstore/fs.go:228-275 | What is read of one day: on the day of the ID the PRIVMSG and NOTICE messages logged behind it, on any other all of them, up to the first stamped now or later |
| FsLoads.LoadLatestIDIff | msgstore/fs.go:399-447 | For messages with any days and times: from an ID exactly those PRIVMSG and NOTICE messages load, each read back as it was logged, that are behind it on its day or on a later day, have no message stamped now or later at or before them in what is read of their day, no 100 silent days behind them before the limit is reached, and fewer than the limit behind them; day by day, as they were logged |
| FsInOrder.LoadsInOrder | msgstore/fs.go:399-447 | If stamps are in order, a message loads exactly if it is behind the ID or on a later day, on the day of the ID or later, stamped before now, with fewer than the limit of such messages logged after it and no 100 days in a row without one |
| FsInOrder.InOrderIff | msgstore/fs.go:399-447 | So from an ID the last so many PRIVMSG and NOTICE messages logged after it load, and nothing else, exactly if each of them is stamped on the day of the ID or later, before now, and not before 100 silent days; and those are as many as fit, or every message from before that is stamped on a later day is before 100 silent days |
| FsInOrder.PunctualIff | msgstore/fs.go:399-447 | If besides no message before the ID is stamped on a later day, and every one behind it on its day or later and before now, exactly if no wanted message is before 100 silent days |
| FsLoads.AheadMissed | msgstore/fs.go:251-259 | A message stamped now or later, the only one in the log, is not loaded |
| FsLoads.SecondMissed | msgstore/fs.go:251-259 | Nor is one behind the cursor of another message |
| FsLoads.BackdatedMissed | msgstore/fs.go:143-168 | Nor is one stamped on a day before that of the cursor |
| FsLoads.LaterDayRepeated | msgstore/fs.go:132-141 | One logged before the cursor and stamped on a later day is loaded again |
| FsLoads.SilenceMissed | msgstore/fs.go:419-435 | Nor is one that is followed by 100 days without a match |
| FsInOrder.AppendAll | msgstore/fs.go:143-212 | A series of appends with any time tags logs all of them |
| FsInOrder.AppendAndLoad | msgstore/fs.go:143-212 | The run as a whole: the ID returned by an append, after any series of appends with any time tags, loads exactly the messages that load from it, and if stamps are in order the last so many of that series exactly under the condition of InOrderIff |
| FsInOrder.LastAndLoad | msgstore/fs.go:132-141 | The same for the ID of LastMsgID at any time |
| DeliveryFs.BacklogOnDisk | msgstore/fs.go:399-447 | Of the unread messages, what the log files load from a cursor is the backlog of the delivery protocol that leaves out those that do not load; none is left out exactly if every unread message loads or as many later ones as fit do; in the same order if stamps are in order and nothing read before loads |
| DeliveryDisk.NamesOne | msgstore/fs.go:124-130 | No two messages of a target have the same ID |
| DeliveryDisk.MatchesOne | downstream.go:702-732 | Every input of a network on log files, with byte-offset IDs and loads by the walk, is one event of the protocol and no other: a message, the acknowledgement of the one message with that ID, a connect that leaves out what does not load, a disconnect, a change of a channel, a restart |
| DeliveryDisk.StepRefines | upstream.go:2287-2370 | Its step leads to the state of the protocol after that event: the log is what is in the files, cursors are where the IDs point, and connections and PINGs are the same |
| DeliveryDisk.FateIs | downstream.go:1891-1925 | What the protocol decides on an unread message at a connect is what becomes of it on disk: unreadable if the load fails, queued or withheld if it loads, too old if as many as fit load after it, and otherwise left out |
| DeliveryDisk.JoinSends | downstream.go:1902-1925 | For every target that can be read, a connect writes one batch: all messages that load and are not withheld for a detached channel, each once and day by day as they were logged |
| DeliveryDiskRuns.RunRefines | downstream.go:1845-1925 | Every run of inputs has the run of the protocol that consists of their events, one by one, and its states belong to those of the protocol |
| DeliveryDiskRuns.StepSettles | upstream.go:2346-2370 | Whatever the protocol decides, the input did: a message that came in was written to an open connection of the name or withheld from each, or an unread message met its fate on disk at a connect, with the batch it was written in |
| DeliveryDiskRuns.DeliveredFromDisk | downstream.go:1845-1925 | At-least-once delivery on log files, in terms of the inputs: for every logged PRIVMSG or NOTICE and every name that has had an ID on its target ever since and a backlog connection at the end, the message itself found a connection of the name open and was written to it or withheld, or at a later connect of the name it was behind the cursor and was written in the batch of all that load, withheld for a detached channel, unreadable for a failed load, too old with as many as fit loaded after it, or did not load |
| DeliveryDiskInOrder.DeliveredInOrder | downstream.go:1845-1925 | If messages are stamped in order, on no day before the program's own and in the past of later inputs, and no 100 days without a message come between this one and a connect of the name, the last case does not occur |
| Ring.Read | msgstore/fs.go:271-284 | The ring in order: the last messages, however often it wrapped |
| Ring.HoldsPush | msgstore/memory.go:139-145 | Writing at the count modulo the capacity keeps the ring the tail of everything written |
| MemoryStore.MessageRingBuffer.Append | msgstore/memory.go:139-145 | The abstract log grows by the message, whose ID is its count |
| MemoryStore.MessageRingBuffer.LoadLatestSeq | msgstore/memory.go:147-171 | The messages after an ID in terms of the unbounded log, or an error for an ID from the future |
| MemoryStore.Conversation.Append | msgstore/memory.go:84-102 | Only PRIVMSG and NOTICE are kept and get an ID |
| MemoryStore.Conversation.LastMsgID | msgstore/memory.go:75-82 | Zero without a buffer, and the next number with one |
| MemoryStore.Conversation.LoadLatestID | msgstore/memory.go:104-121 | Nothing without a buffer, an error for events, otherwise the messages after the ID |
| MemoryStore.AppendIdExact | msgstore/memory.go:123-171 | From an ID given out by Append: exactly the last min(since, capacity, limit) messages after it |
| MemoryStore.LastIdIff | msgstore/memory.go:75-82 | From a last ID that holds exactly if there was no buffer, nothing came since, or more than fits |
| MemoryStore.LastIdSkips | msgstore/memory.go:154-155 | Two messages for which it does not |
| Around.AroundIff | downstream.go:3202-3231 | The reply is one contiguous window, the larger half of the limit before the time and the smaller half from it on, exactly if nothing is to be loaded after it or no message before it is stamped after the printed time of the last one there (and before now) |
| Around.AroundRepeats | downstream.go:3215-3218 | A message stamped between two milliseconds, the last before the time, is answered twice |
| Around.AroundWhole | downstream.go:3202-3231 | With whole milliseconds always, and never more than the limit |
| Around.InsideSlice | msgstore/msgstore.go:58-67 | What the store contract selects from a sorted log is one piece of it |
| Around.ChatHistory | downstream.go:3192-3268 | BEFORE, LATEST, AFTER and BETWEEN answer with a failure exactly if the load fails, and otherwise with what it selects; AROUND never does, answers with nothing if a load fails, and as promised exactly if none does |
| AroundFs.LoadAround | downstream.go:3202-3231 | The two loads of AROUND on log files refine the backward walk and the forward walk from its last message |
| AroundFs.AroundFsIff | downstream.go:3202-3231 | Over sorted log files the answer is the last messages before the time and the first from it on, before now, exactly if no 100 silent days cut off either half, and no message of the second is at midnight of a day after that of the last earlier message |
| AroundFs.AroundMidnight | msgstore/fs.go:386 | A log whose only message is at such a midnight, for which the answer is wrong |
| LabeledResponse.FilterFair | downstream.go:547-611 | Whatever the capabilities, a message inside a batch is treated like the same one outside, and the brackets of a batch reach a client that knows batches unchanged |
| LabeledResponse.Downstream.SendMessage | downstream.go:547-655 | Held-back message, batch and output stand for the messages sent so far and this one |
| LabeledResponse.Downstream.SendBatch | downstream.go:657-677 | The same for a batch of any contents, with a reference of its own |
| LabeledResponse.Downstream.FlushBatch | downstream.go:518-537 | Completes the output to the response |
| LabeledResponse.Downstream.Handle | downstream.go:741-773 | One command adds exactly the response to what its handler sent, or what was written so far if the handler fails for good |
| LabeledResponse.AnsweredOnce | downstream.go:518-677 | A client that knows only the batch rules reads everything sent, in order and in its place: under a label an acknowledgement (nothing sent), the message labelled (one), or one labelled batch around all of it; references are fresh, batches nest, and nothing stays open |
| LabeledResponse.OneLabel | downstream.go:518-655 | Exactly one thing read carries the label |
| LabeledResponse.BatchReads | downstream.go:657-677 | A batch nested anywhere is read back whole, and the reference of the labelled batch is never that of a batch inside it |
| LabeledResponse.DecimalInjective | downstream.go:617-659 | Different batch numbers print differently |
| LabeledResponse.Serve | downstream.go:734-773 | Over any run of commands on a connection, the client reads the answers to all completed ones in order, and of the one that ended the connection a beginning |
| PendingCommands.EnqueueIff | upstream.go:556-594 | The first entry, and no other, is with the server after an enqueue exactly if the entry there has not timed out |
| PendingCommands.StaleEnqueue | upstream.go:576-589 | After a timeout the head is dropped, the new command is doubled, and nothing is sent |
| PendingCommands.TimeoutStops | upstream.go:556-594 | After that, whatever is asked and whoever leaves, nothing of the kind is sent until the server replies to one |
| PendingCommands.RunFollows | upstream.go:544-628 | Over every run without timeouts the queue is the unanswered part of one order and what was sent is the part up to its first entry: first come, first sent, one at a time |
| PendingCommands.ReplyToSender | upstream.go:605-616 | The k-th final reply is attributed to the command sent as the k-th |
| PendingCommands.NothingLost | upstream.go:618-628 | A client that does not leave has all its commands in the order, in the order it asked |
| PendingCommands.SentStays | upstream.go:618-628 | What is with the server is never cancelled |
| PendingCommands.Upstream.SendNextPendingCommand | upstream.go:544-554 | Sends and stamps the first entry of one queue; other queues do not change |
| PendingCommands.Upstream.EnqueueCommand | upstream.go:556-594 | Refines the enqueue of one queue, timeouts included |
| PendingCommands.Upstream.CurrentPendingCommand | upstream.go:596-603 | The client of the first entry, if it is still connected, and its message |
| PendingCommands.Upstream.DequeueCommand | upstream.go:605-616 | Returns these, drops the first entry and sends the next |
| PendingCommands.Upstream.CancelPendingCommandsByDownstreamID | upstream.go:618-628 | Drops a client's entries from every queue except the first of each |
| PendingCommands.CopyDown | upstream.go:587-589 | Copying down within the slice leaves its length and its last entries |
| PendingCommands.Serve | upstream.go:544-628 | The connection over any run does what the queues do, for all kinds of commands at once |
| NetworkTable.User.GetNetwork | user.go:686-696 | The first network at an address or under a name |
| NetworkTable.FoundByNameIff | user.go:686-696 | A network is found by the name it goes by exactly if none before it has that name for an address |
| NetworkTable.User.GetNetworkByID | user.go:698-705 | The network with the ID, or none has it |
| NetworkTable.User.AddNetwork | user.go:1115-1123 | Puts the network in its place by ID and keeps the table ordered and unique |
| NetworkTable.User.RemoveNetwork | user.go:1125-1142 | Stops the network, closes its clients and no others, and takes it out; it is always there |
| NetworkTable.User.CanEnableNewNetwork | user.go:1144-1162 | Whether the enabled networks are fewer than the maximum, if there is one |
| NetworkTable.User.CheckNetwork | user.go:1164-1215 | Accepts exactly an allowed address and name that no other network has |
| NetworkTable.User.CreateNetwork | user.go:1217-1244 | Refused exactly for the quota, the address, the name or the database; otherwise one more network in an ordered table with distinct names, within the quota if enforced |
| NetworkTable.User.UpdateNetwork | user.go:1246-1332 | Refused exactly for the same reasons, without a trace; otherwise the new object takes the old one's place in the table and under its clients, closes none, carries on its delivery receipts, channels, ignore list, push targets and, if enabled, last error, and the message store is told of a new name |
| NetworkTable.User.ChangeNetwork | downstream.go:3645-3662 | An unknown ID is refused; enforcing the limit only for networks that were not enabled keeps the quota, unless an administrator overrules it |
| NetworkTable.User.ChangeIdentity | downstream.go:2105-2117 | Changing a nick or realname without looking at the limit keeps the quota too |
| NetworkTable.User.DeleteNetwork | user.go:1334-1357 | The network leaves the table, its clients are closed and no others |
| NetworkTable.SamePlace | user.go:1300-1325 | Removing a network and adding one with its ID changes nothing else in the table |
| NetworkTable.Run | user.go:1115-1357 | After any run of creates, changes, deletes, connects and disconnects: IDs ordered and unique, names unique, every open client on no network or one in the table, and the quota kept if no administrator overruled it |
| Isupport.DecodeEncode | xirc/xirc.go:143-150 | Unescaping undoes escaping, for every value |
| Isupport.Receiver.HandleIsupport | upstream.go:1074-1141 | Applies the tokens in order, up to and including the first whose list of modes or prefixes cannot be parsed |
| Isupport.TokenEffect | upstream.go:1078-1101 | The token of a normalised name sets or removes that name and nothing else |
| Isupport.NameArrivesIff | upstream.go:1078-1101 | A name, with a value or without, can be sent and arrives under that name exactly if it is normalised, and not empty unless it has a value |
| Isupport.Downstream.Diff | downstream.go:1376-1393 | The changes are the names that differ with their new value, and a dash before those that are gone |
| Isupport.GenerateIsupport | xirc/genmsg.go:85-122 | The messages are the tokens of the map, each once, sorted and then escaped; no message is empty or has more than 15 parameters |
| Isupport.InSync | downstream.go:1369-1398 | A view equal to the old map becomes exactly the new map, for normalised names and any order of tokens |
| Isupport.InSyncIff | upstream.go:1078-1141 | For a receiver that gives up on messages with bad values, it does exactly if no bad value has a token behind it in its message |
| Isupport.BehindBadPrefix | upstream.go:2050-2062 | Whatever comes behind a bad list of prefixes in its message is lost |
| Isupport.Downstream.UpdateIsupport | downstream.go:1369-1398 | Nothing before registration without the capability; otherwise every token is fit to be sent, and whoever held what was announced before holds the latest map afterwards exactly if no message is given up on |
| Isupport.Follow | downstream.go:1369-1398 | Over any series of maps with good values, before and after registration, the receiver stays in step |
| Monitor.GenerateMonitor | xirc/genmsg.go:146-174 | Every target is in some message, in order, and a message of several targets is within 512 bytes |
| Monitor.ClearRemovesAll | upstream.go:2460-2465 | Clearing does what removing each name would |
| Monitor.ReceivePacked | xirc/genmsg.go:146-174 | Packed into any number of messages, targets have the effect of one list |
| Monitor.Upstream.UpdateMonitor | upstream.go:2415-2480 | If the lists agree, the messages make the server's list what the clients want without the service, plus a nick to regain that was not on it |
| Monitor.Upstream.HandleStatus | upstream.go:1816-1859 | Every named target is set to the status; the desired nick is asked for exactly if it is named as offline and not held; every client is told of the names on its list and no others |
| Monitor.Upstream.Sync | upstream.go:2415-2480 | After the server's replies both lists are that list |
| Monitor.IdealIff | upstream.go:2440-2456 | That is the wanted list exactly if no nick is to be regained, a client wants it, or it was not on the list |
| Monitor.Oscillates | upstream.go:2440-2456 | Otherwise the nick is on the list after every other update |
| Monitor.Follow | upstream.go:2415-2480 | With the nick held, over any series of changes both lists are the union of the clients' lists without the service |
| ZncLog.RoundTripIff | msgstore/znclog/reader.go:16-162 | For every message of the nine kinds, reading back its log line gives its normal form and time of day exactly if its names fit the line format |
| ZncLog.EventIff | msgstore/znclog/reader.go:29-111 | The same for the body of each kind of event |
| ZncLog.ChatIff | msgstore/znclog/reader.go:112-149 | The same for PRIVMSG, NOTICE and CTCP ACTION |
| ZncLog.EventsSkipped | msgstore/znclog/reader.go:29-112 | Without events, event lines are ignored and messages are read back the same |
| ZncLog.NormalStableIff | msgstore/znclog/writer.go:23-67 | The normal form is logged as the very same line, unless, and only unless, the message is an ACTION with a command that is not in upper case |
| ZncLog.NormalKeeps | msgstore/znclog/writer.go:23-67 | The normal form keeps command and sender |
| ZncLog.ActionStable | xirc/xirc.go:58-76 | An action's text survives being wrapped and parsed again |
| Sorting.Sort | xirc/genmsg.go:63-83 | A permutation in the given order, for every weak order |
| JoinPacking.LessOrder | xirc/genmsg.go:72-78 | Keyed channels first and then by name is such an order |
| JoinPacking.GenerateJoin | xirc/genmsg.go:12-61 | The messages render consecutive groups of the sorted channels, and paired up again give the multiset of channels and keys; only a lone channel may exceed 512 bytes, and no group could have taken the first channel of the next |
| JoinPacking.ParseRender | downstream.go:2151-2168 | A group with keyed channels first is paired up again exactly |
| JoinPacking.PairingPreserved | downstream.go:2151-2168 | Pairing up all messages gives exactly the multiset of channels and keys |
| JoinPacking.UnsortedMispairs | xirc/genmsg.go:72-78 | Without that order a key would go to another channel |
| ChannelModes.UpstreamChannel.ApplyChannelModes | irc.go:89-155 | Refines the step function over the mode string, stopping at the first error with what was done |
| ChannelModes.StepsSane | irc.go:89-155 | In every state reached, stored modes are of types B, C and D and values only of B and C |
| ChannelModes.Format | irc.go:157-171 | Modes with a value first, in any order of iteration, and their values in the same order |
| ChannelModes.RoundTripIff | upstream.go:1556-1560 | For a table of modes, applying the printed form of every map a server can have to an empty one restores it, in any order, withheld arguments included, and touches no member, exactly if each letter is in ASCII, or one of the two bytes it is printed as while the other is no mode, or a list that takes no printed argument |
| ChannelModes.AccentLost | irc.go:157-171 | A setting with the letter E9 does not come back |
| ChannelModes.UnsetModes | irc.go:89-155 | Unsetting modes takes exactly those away and consumes the arguments they have |
| Memberships.MembershipSet.Add | xirc/xirc.go:107-131 | The list stays the members in order of rank, with one more |
| Memberships.MembershipSet.Remove | xirc/xirc.go:133-141 | The list stays the members in order of rank, without one |
| Memberships.FormatMemberPrefix | irc.go:183-195 | The prefixes of all memberships in order of rank; without multi-prefix the highest alone, as a rune, which is the prefix exactly if that is in ASCII |
| Memberships.ParseMembershipPrefix | upstream.go:630-643 | Refines the reading of prefixes in order of rank |
| Memberships.ParseFormatIff | upstream.go:630-643 | Reading prefixes followed by a nick gives both back exactly if the nick does not begin with a prefix that could still follow |
| Sasl.Base64Inverse | downstream.go:1183-1189 | Decoding undoes encoding (section 4 of RFC 4648) |
| Sasl.GenerateSASL | xirc/genmsg.go:216-239 | Refines the cutting into chunks of 400, with a bare plus after a full last one |
| Sasl.ChunksFit | xirc/genmsg.go:216-239 | No chunk is empty or over 400 |
| Sasl.Reassembler.Feed | downstream.go:1164-1190 | Refines the reassembly step |
| Sasl.ResponseReceived | downstream.go:1164-1190 | The response comes out at the last chunk and nothing before, up to 7680 bytes, and beyond that an error |
| Sasl.Exchange | downstream.go:1164-1190 | Feeding a receiver what is generated: it asks for more at every message but the last and has the response with that one, up to 7680 bytes, and beyond that an error |
| Quoting.QuoteWords | cmd/sakectl/main.go:102-111 | Refines the quoting of a list of words |
| Quoting.SplitWords | service.go:77-128 | Refines the splitting automaton, with its two errors |
| Quoting.SplitQuoted | service.go:77-128 | Splitting a quoted list never fails and gives one word for each, with escapes read as their letters |
| Quoting.RoundTripIff | service.go:77-128 | The words come back exactly if all their runes are printed as they are or escaped by a backslash alone |
| Quoting.LineFeedLost | cmd/sakectl/main.go:102-111 | A word that does not come back |

## Left out

- Sockets, TLS, HTTP, metrics, the SQL drivers and their schemas, web push, file uploads and the web admin: I/O and foreign code.
- Case mapping: targets, nicks and channel names are taken as already mapped, under one mapping that does not change.
- Strings are sequences of characters; upper and lower case are those of ASCII.
- Message IDs are positions or pairs of day and offset; their byte encoding is a library's.
- Time zones: a day is a fixed number of nanoseconds. Clocks, database results and failures are parameters.
- Delivery: replay on re-attaching a channel, and tag-only messages beyond being recorded or not.
- DeliveryNetwork.Network.Restart: refills the store of cursors in place, where the program makes a new one.
- FsCursors.FsLog.Append: does not model the bound on open files, nor lines with line breaks, which no parsed message has.
- FsLoads.LoadLatestIDIff: is not about messages stamped in or before the first day of the year 1, the zero time; neither is what builds on it.
- FsInOrder.InOrderIff: is stated for stamps in order, since a copy of a lost message could otherwise stand in for it; FsLoads.LoadLatestIDIff says what is loaded without that.
- DeliveryDiskRuns.DeliveredFromDisk: models the network as a value and not in place, which DeliveryNetwork does; of what one input writes, the order is left out between targets and connections. A line that is logged can be read back.
- AroundFs.AroundFsIff: is not about times in or before the first second of the year 1.
- FsStore.ParseMessagesBefore: does not model the scanner's limit on the length of a line, because no IRC line reaches it.
- MemoryStore.MessageRingBuffer.Append: sequence numbers do not wrap around at 64 bits.
- LabeledResponse.Downstream.Handle: a label that is handed on to the upstream server while a command is handled, which ends the local response.
- LabeledResponse.FilterFair: a JOIN without parameters is left as it is, where the program would stop; it sends none.
- LabeledResponse.Downstream.SendBatch: a batch has no tags but that of the batch around it, as every caller has it.
- PendingCommands.Upstream.EnqueueCommand: replies to clients when the upstream connection is lost (abortPendingCommands) would only add easy members.
- Isupport.Downstream.UpdateIsupport: does not model the batch around the messages, which LabeledResponse.Downstream.SendBatch is about.
- Isupport.Receiver.HandleIsupport: what the values of CASEMAPPING, CHANMODES, CHANTYPES, STATUSMSG, PREFIX and SAFERATE are used for, beyond being refused.
- JoinPacking.GenerateJoin: channels have a name, because the JOIN handler refuses one without (downstream.go:2170-2176). The bound counts words and single spaces, without CRLF and without a colon before a last parameter, as the code does.
- NetworkTable.User.UpdateNetwork: ending the upstream connection and telling clients about the new state.
- Monitor.Upstream.UpdateMonitor: the server's own limit on the list, and the cache of user information.
- Sasl.Base64Inverse: the decoder's skipping of line breaks, which no IRC parameter contains.
- WHO and WHOIS caches, highlights, search, retention and the importers.
