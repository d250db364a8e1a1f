# Biome terminal server: protocol models and proofs

This project models the concurrent parts of the terminal server and its clients, and proves
what they guarantee. It has four protocols and three smaller machines.

**The pane output stream.** One reader thread per pane parses a chunk, then logs it, then
broadcasts it. Any number of WebSocket subscribers replay the log, drop duplicates by sequence
number, and recover from a lag with a full screen and a new subscription; a `screen_diff`
subscriber then sends diffs against a moving baseline. `StreamProtocol` is the step machine, with
every shared access a step of its own; `StreamInvariants` what each step keeps; `StreamTheorems`
the results over all runs; `StreamSubscription` what each read of the shared state sees, and when a
receiver is overrun; `StreamReplay` what a `screen_diff` stream starts with; `StreamProgress` that
the drained states these results speak of are reached; `StreamWitnesses` runs that reach the bad
cases; `StreamHandler` the read loop and `handle_ws` as loops over mutable state, each proved to
take only steps of the machine. The terminal is abstract: a blank screen, a `process` function, and
a `patch` function for a diff that meets a screen it was not computed from. `EventLog` is the log
below all this, and the polling interface over it.

**Pane registry and lifecycle stream.** Create inserts and announces; delete removes, kills, and
announces or reinserts; read loops and shutdown compete for the child handle. `PaneRegistry` is
the step machine, `LifecycleHandlers` the handlers over it. `LifecycleStream` and
`LifecycleSocket` are the WebSocket that sends a snapshot, then events, then a snapshot again after
a lag. Two clients follow it: `GuiFollower` and `GuiApp` (the desktop client, which refetches the
list on every event), and `FoldFollower` (a client that folds the events into a set).
`LifecycleProgress` shows that the quiet states are reached in which the clients are compared with
the registry; `LifecycleWitnesses` has the runs in which they end up wrong.

**Heartbeat.** `Heartbeat` is the pane socket's two timers, with nonces, tokens and a mailbox of
possibly old messages in any order; `HeartbeatReplies` says exactly which messages are answered, and
what a disconnect ends. Ping and Pong are those of sections 5.5.2 and 5.5.3 of
RFC 6455, and the close code is in the private range of its section 7.4.2.

**Throughput window.** `Throughput` is the incremental five-second byte counter.

**Smaller machines.** `LiveView` is the selection, subscription and buffer state of the browser
view, and `LiveScreens` which screen it holds and shows for each pane; `PaneSizes` the three copies
of a pane's size, the defaults, and name resolution; `ConcurrentResize` any number of resizes of
one pane at the same time.

All interleavings are covered by running a list of labels from the initial state, a label that is
not enabled changing nothing. `history`, `firstSeq`, `basePos`, `recoveries`, `since`, `owner`,
`takes`, `reached`, `undone` and `missed` only record the run.

## What turned out differently

- A lag recovery reads the log's latest seq S, then the screen at parser position p, and
  resubscribes only afterwards, at broadcast position b. A `screen_diff` client that is drained
  while the writer is idle shows that snapshot instead of the current screen exactly when p < b and
  nothing was broadcast after b (`DiffConverges`). On a terminal that forgets nothing it is then
  wrong, and only then (`DrainedDiffAgreesIff`); whatever the capacities, a run loses the last chunk
  this way (`DiffCanMissTheTail`).
- For the same reason a raw client can lose the last chunk (`RawCanMissTheTail`) or apply one twice
  (`RawCanApplyTwice`). It shows the right screen from a recovery on when p = max(S, b)
  (`RawReplicaAgrees`); on a terminal that forgets nothing, a drained client is right only then
  (`DrainedRawAgreesIff`), and `RawReplicaAgreesIff` has the condition for every state.
- A delete whose kill fails reinserts the pane without announcing it. A listing that read the pane's
  shard in between misses the pane, and nothing corrects that until the next listing
  (`GuiCanMissAnUndonePane`). The refetching client ends up wrong about exactly the listed panes its
  last listing missed like this, and never keeps a dead pane (`GuiConvergesIff`, `GuiConverges`).
- `Deleted` can be broadcast before `Created` of the same pane. The refetching client is not
  affected; a folding client keeps the dead pane when it replays such a pair's `Created` on its last
  snapshot (`FoldCanKeepADeadPane`). It is wrong about a pane exactly then, or when its last snapshot
  missed the pane for an undone delete and no `Created` followed (`FoldConvergesIff`).
- A log with `max_events` 0 keeps one event.
- `update_config` stores the new event limit even when it then refuses the size.
- `docs/api.md:267` and `server/src/handlers/resize.rs:25` say that a resize replaces the parser with
  a fresh instance; `server/src/pane.rs:216-219` resizes the screen of the existing one, and the
  model follows that.
- `new_pane` asks for no group and then selects the new pane. With a group selected in the browser
  view, the pane is therefore selected and hidden until the next refresh (`NewPaneIsHidden`,
  `NewPaneCanBeHidden`); `SelectionListedIff` says for every event exactly when it leaves the
  selection listed.
- A create that fails answers without an id, and `new_pane` then selects nothing, although panes are
  listed (`FailedCreateClearsSelection`); `SelectionNoneIff` says for every event exactly when it
  leaves the selection none if and only if there are no panes.
- `resize_pane` sets the PTY, the parser and the recorded size in three critical sections. Two
  resizes that overlap can leave the three sizes different for good (`OverlapCanDisagree`). They
  agree whenever one request was last in all three sections, and, unless two requests ask for the
  same size, only then (`AgreeIff`); requests that do not overlap always agree (`OneByOneAgrees`).
- `end_heartbeat` keeps the nonce. A tick that has fired before the disconnect, and is delivered
  after it, still pings and goes on ticking (`DisconnectedCanPing`); without such a tick nothing is
  answered until the next connect (`AnswersAfterDisconnectIff`).
- The desktop client ignores a failed list request. Its list then stays as it is until the server
  announces something (`StaleStays`).

## Model

| member | source | states |
|---|---|---|
| EventLogs.LogRefinesHistory | server/src/event.rs:38-54 | after any pushes the log holds exactly the last min(pushed, max(1, max_events)) events of the unbounded history, consecutively numbered up to next_seq - 1 |
| EventLogs.SinceAnswersFromHistory | server/src/event.rs:58-64 | filtering the retained events by seq > after gives the history from max(evicted, after) on |
| EventLogs.LatestSeqCountsHistory | server/src/event.rs:72-74 | the latest seq is the number of pushes, and is never absent after the first push |
| EventLogs.EventLog.WithMaxEvents | server/src/event.rs:30-36 | a new log is empty, and the next seq is 1 |
| EventLogs.EventLog.PushEvent | server/src/event.rs:38-54 | push extends the history by the chunk, returns its number in it, and leaves the log of that history |
| EventLogs.EventLog.PartitionPoint | server/src/event.rs:62 | the binary search finds the boundary: all seqs before it are at most `after`, all from it on greater |
| EventLogs.EventLog.Since | server/src/event.rs:58-64 | the partition-point lookup equals the plain filter, and the tail of the history from max(evicted, after) |
| EventLogs.EventLog.OldestSeq | server/src/event.rs:67-69 | the oldest retained seq is one more than the number of evicted events |
| EventLogs.EventLog.Latest | server/src/event.rs:72-74 | the latest seq equals the number of events ever pushed |
| EventLogs.PollResponse | server/src/handlers/events.rs:53-65 | a response continues where the last one ended, minus what was evicted; its first seq is above after + 1 exactly when something was evicted unseen |
| EventLogs.PollingDeliversExactly | server/src/handlers/events.rs:53-65 | over every run of polls, the client gets strictly increasing, genuine events, and exactly those not evicted before the first poll after their push |
| EventLogs.PollingIsLosslessIff | server/src/handlers/events.rs:53-65 | polling rebuilds the whole history if and only if at most max(1, max_events) events are pushed between polls |
| StreamInvariants.WriterKeepsInv | server/src/pane.rs:167-183 | at every point of parse, log, broadcast: the screen is that of all chunks, the log that of the logged ones, the channel a prefix at most one behind |
| StreamInvariants.StepKeepsInv | server/src/handlers/stream.rs:95-201 | every step of the writer or any subscriber keeps the invariant of the whole system |
| StreamInvariants.RunKeepsInv | server/src/handlers/stream.rs:95-201 | the invariant holds after every interleaving |
| StreamTheorems.FramesAreOrdered | server/src/handlers/stream.rs:107-178 | in both formats, frame seqs never decrease, frames other than resyncs strictly increase, no event is sent twice, and each raw frame carries the chunk of its seq |
| StreamTheorems.BaselineIsNeverLost | server/src/handlers/stream.rs:146-149 | the exit for a lost baseline is never taken |
| StreamTheorems.SentOnlyGrows | server/src/handlers/stream.rs:203-220 | whatever happens later, the frames sent so far stay the first frames sent |
| StreamSubscription.ServerIsTheWriters | server/src/pane.rs:162-194 | in every run the server is what its writer's steps alone make of it: no subscriber holds it up, changes it or loses one of its steps |
| StreamSubscription.ReadsSeeThePresent | server/src/handlers/stream.rs:98-106 | in every state: a subscription begins at the end of the channel, the replay is the whole retained log, a snapshot is the number of events logged at its first half and the screen of all chunks parsed at its second, a new subscription is at the end again, a diff leads to the screen of all chunks parsed |
| StreamSubscription.ReceiverStays | server/src/handlers/stream.rs:99 | a receiver never moves back, and one that subscribes once c events are broadcast is never behind c |
| StreamSubscription.SubscriptionStays | server/src/handlers/stream.rs:99 | a subscription begins exactly at the end of the channel, and its cursor never goes back behind that |
| StreamSubscription.RecoversIffOverrun | server/src/handlers/stream.rs:162-178 | in every state the recoveries done, and the one under way, are exactly as many as the receives that found more events waiting than the channel keeps |
| StreamSubscription.OverrunNeedsEvents | server/src/handlers/stream.rs:162-178 | an overrun takes more events than the channel keeps since the subscription, and since the new subscription of the last recovery |
| StreamSubscription.NoRecoveryWithin | server/src/handlers/stream.rs:162-178 | as long as no more events are broadcast after it connected than the channel keeps, a subscriber never recovers |
| StreamTheorems.DiffReplicaAgrees | server/src/handlers/stream.rs:115-178 | in every state of a live screen_diff stream, the client shows the baseline, which is the screen at a parser position between last_sent_seq and the chunks parsed |
| StreamTheorems.DiffConverges | server/src/handlers/stream.rs:132-178 | drained and with the writer idle, the client shows the current screen, or, exactly when the last recovery resubscribed past its snapshot and nothing followed, that snapshot |
| StreamTheorems.RawTranscript | server/src/handlers/stream.rs:98-178 | the frames of a raw subscriber are determined: a contiguous run, then per recovery one full screen and a contiguous run from max(S, b) on; with no lag, one contiguous run across history and live events |
| StreamTheorems.RawCoverage | server/src/handlers/stream.rs:98-178 | each seq from the first retained one to last_sent_seq was sent raw, or is at most S or in (S, b] of a recovery whose full screen was sent |
| StreamTheorems.RawReachesTheEnd | server/src/handlers/stream.rs:128-178 | drained and with the writer idle, last_sent_seq is the last event, or, exactly when the last recovery resubscribed past its seq and nothing followed, that seq |
| StreamTheorems.RawReplicaAgrees | server/src/handlers/stream.rs:138-178 | with no eviction before the history read, or after a recovery with p = max(S, b), the raw client shows the screen at last_sent_seq, whatever was lost before |
| StreamTheorems.RawReplicaAgreesIff | server/src/handlers/stream.rs:138-178 | on a terminal that records every chunk, in any state: the client shows the screen at last_sent_seq if and only if it started from the screen at max(S, b), or at last_sent_seq as long as nothing was sent since |
| StreamTheorems.DrainedRawAgreesIff | server/src/handlers/stream.rs:128-178 | on that terminal, a drained raw client with the writer idle is up to date if and only if nothing was evicted before its history read or p = max(S, b) at its last recovery |
| StreamTheorems.DrainedDiffAgreesIff | server/src/handlers/stream.rs:128-178 | on that terminal, a drained screen_diff client with the writer idle is up to date if and only if its last recovery did not miss the tail |
| StreamReplay.HistoryIsReplayed | server/src/handlers/stream.rs:98-126 | from its read of the log on, in every state, a screen_diff stream has sent the events retained then, in order and without a gap, as far as it got, then one full screen, and no raw frame after it |
| StreamReplay.LiveStreamHasReplayed | server/src/handlers/stream.rs:98-126 | past its initial screen, it has sent exactly the raw frames of the seqs retained at the read, then a full screen |
| StreamProgress.DrainIsReached | server/src/handlers/stream.rs:95-201 | from every state of every run, without any more output, the writer gets idle and a subscriber that has not gone away drained, so that the convergence results apply |
| StreamWitnesses.DiffCanMissTheTail | server/src/handlers/stream.rs:162-178 | for every channel capacity and log limit, a run after which a drained screen_diff client lacks the last chunk |
| StreamWitnesses.RawCanMissTheTail | server/src/handlers/stream.rs:162-178 | the same for a drained raw client |
| StreamWitnesses.RawCanApplyTwice | server/src/handlers/stream.rs:239-253 | for every channel capacity and log limit, a run after which a drained raw client has one chunk more on its screen than was ever printed |
| StreamHandler.Pane.Publish | server/src/pane.rs:167-182 | one chunk goes through parser, log and channel and leaves all three in agreement |
| StreamHandler.Pane.HandleRead | server/src/pane.rs:165-192 | bytes are published, an interrupted read is ignored, end of file and every other error end the loop |
| StreamHandler.Pane.ReadLoop | server/src/pane.rs:162-194 | every chunk read is parsed, logged and broadcast in order and exactly once, up to the read that ends the loop |
| StreamHandler.Handler.ReadLatestSeq | server/src/handlers/stream.rs:243-246 | the seq of a snapshot is the number of events logged by then |
| StreamHandler.Handler.CurrentScreenSnapshot | server/src/handlers/stream.rs:239-253 | with the writer running in between, the two reads are steps of the protocol, seq first, screen second |
| StreamHandler.Handler.TakeScreen | server/src/handlers/stream.rs:272-276 | the screen of the step just taken becomes the baseline, and the diff still to be sent is from the old one to it |
| StreamHandler.Handler.SendScreenResync | server/src/handlers/stream.rs:255-264 | one full-screen frame with the snapshot's seq and screen is sent, or the send failed |
| StreamHandler.Handler.SendScreenDiff | server/src/handlers/stream.rs:266-286 | the baseline moves to the screen of the step just taken; one diff from the old to the new baseline is sent unless they are equal |
| StreamHandler.Handler.ReadHistory | server/src/handlers/stream.rs:98-106 | the subscription is at the end of the channel as it is when the stream begins, or later, and comes before the read of the log, with the writer running in between |
| StreamHandler.Handler.SendHistory | server/src/handlers/stream.rs:107-113 | exactly the raw frames of the first events are appended, in order, and of all of them unless a send fails; last_sent_seq is the event tried last |
| StreamHandler.Handler.InitialResync | server/src/handlers/stream.rs:115-126 | exactly one full screen is sent, which becomes the baseline, and last_sent_seq rises to its seq |
| StreamHandler.Handler.RecoverFromLag | server/src/handlers/stream.rs:162-178 | exactly one full screen is sent, which becomes the baseline if there was one, last_sent_seq rises to its seq, and the new subscription starts at the end of the channel |
| StreamHandler.Handler.ForwardRaw | server/src/handlers/stream.rs:138-160 | a live event is sent as one raw frame and last_sent_seq rises to it |
| StreamHandler.Handler.ForwardDiff | server/src/handlers/stream.rs:145-160 | one diff from the old to the new baseline is sent unless they are equal, and last_sent_seq rises to the event's seq either way |
| StreamHandler.Handler.ReceiveEvent | server/src/handlers/stream.rs:132-161 | the cursor moves by one; an event at or below last_sent_seq changes nothing else, any other is sent in the stream's format and last_sent_seq rises to it, unless the send fails |
| StreamHandler.Handler.Receive | server/src/handlers/stream.rs:130-181 | each turn either finds nothing to receive and changes nothing, or moves the cursor on |
| StreamHandler.Handler.HandleWs | server/src/handlers/stream.rs:95-201 | whatever the writer does in between: it does all of that and nothing else, a send fails only once the socket takes no more frames, and the frames on the wire are those of a protocol run, so they are ordered, a screen_diff client shows the baseline, a raw client got the transcript of its recoveries, there is none of these while no more is broadcast than the channel keeps, a drained client is up to date unless it missed the tail, and it is drained once the writer has done nothing for long enough |
| PaneRegistry.RegistryStepKeepsInv | server/src/handlers/delete.rs:27-46 | every step of any request keeps: one owner per pane, announcements matching the stages reached, takes matching the handles gone |
| PaneRegistry.RegistryRunKeepsInv | server/src/handlers/create.rs:76-79 | that invariant holds over all interleavings of creates, deletes, failed deletes, read loops and shutdown |
| PaneRegistry.AnnouncedAtMostOnce | server/src/handlers/delete.rs:37-39 | each id has at most one Created and at most one Deleted in the channel |
| PaneRegistry.GoneStaysGone | server/src/handlers/delete.rs:32-39 | a pane whose delete was announced stays gone whatever follows |
| PaneRegistry.DeletedMeansGoneForGood | server/src/handlers/delete.rs:27-39 | once Deleted is broadcast, the id is not in the registry and never will be again |
| PaneRegistry.ChildTakenExactlyOnce | server/src/pane.rs:225-229 | the child handle is taken at most once, and exactly once as soon as read loop, delete or shutdown reaches its take |
| LifecycleHandlers.AppState.RemovePane | server/src/state.rs:122-124 | for a resolved id: found exactly if it is listed, and not listed afterwards |
| LifecycleHandlers.AppState.TakeChild | server/src/pane.rs:225-229 | whoever comes first gets the handle, and afterwards it is gone |
| LifecycleHandlers.Runtime.UndoDelete | server/src/handlers/delete.rs:32-35 | after a failed kill the pane is listed again and nothing is announced |
| LifecycleHandlers.Runtime.FinishDelete | server/src/handlers/delete.rs:37-46 | after a successful kill the delete is in the channel exactly once, the handle is taken and the pane gone for good, whatever runs in between |
| LifecycleHandlers.Runtime.CreatePaneHandler | server/src/handlers/create.rs:76-79 | whatever runs in between, all of which is done, the spawned pane is inserted and then announced exactly once |
| LifecycleHandlers.Runtime.DeletePaneHandler | server/src/handlers/delete.rs:27-48 | for a resolved id, whatever runs in between: success means gone for good, announced exactly once and reaped; an internal error means the kill failed and the pane is listed again; not found means it is not listed |
| LifecycleHandlers.TasksTakeEveryStep | server/src/handlers/delete.rs:27-46 | when every request is in some task's hands, the tasks take exactly the steps of the registry, so that runs of tasks and runs of the registry are the same |
| FoldFollower.FreshReplay | server/src/handlers/lifecycle.rs:39-45 | what replaying any suffix of the channel on a listing ends with, for every pane not just being announced: the present panes but for missed ones no Created restores, and the dead ones whose inverted pair is replayed |
| FoldFollower.StepKeepsInv | server/src/handlers/lifecycle.rs:20-68 | every step keeps that prediction of what the folding client will end up with, stale events after lag snapshots and undone deletes included |
| FoldFollower.RunKeepsInv | server/src/handlers/lifecycle.rs:20-68 | that prediction holds over all runs |
| FoldFollower.FoldConvergesIff | server/src/handlers/lifecycle.rs:22-48 | when everything is quiet, the folding client agrees with the registry on a pane if and only if no inverted pair was replayed on its last snapshot, and that snapshot did not miss the pane for an undone delete with no Created after it |
| FoldFollower.FoldConverges | server/src/handlers/lifecycle.rs:22-48 | with successful kills and each Created before its Deleted, the folding client ends with exactly the registry's panes through any number of lags |
| LifecycleSocket.Connection.Receive | server/src/handlers/lifecycle.rs:31-46 | the next event in order, or a lag exactly when more than the capacity is waiting, after which the oldest retained event is next |
| LifecycleSocket.Connection.SendSnapshot | server/src/handlers/lifecycle.rs:70-78 | one snapshot frame, listed shard by shard while other requests run |
| LifecycleSocket.Connection.TakeTurn | server/src/handlers/lifecycle.rs:29-47 | a turn sends nothing when nothing is waiting, the next event, or a snapshot when the client was overtaken, without resubscribing |
| LifecycleSocket.Connection.HandleWs | server/src/handlers/lifecycle.rs:20-68 | the first frame is a snapshot; all turns are taken, with all that the other tasks do in them; for every pane not just being announced it is exactly determined whether the frames on the wire followed by the waiting events fold to it; and every event is sent once the other tasks have done nothing for long enough |
| GuiFollower.StepKeepsInv | gui_client_rs/src/main.rs:1125-1152 | for every pane, its creation is still to be announced, or an announcement, a frame or a fetch is under way, or the list is right but for what its listing missed |
| GuiFollower.GuiConvergesIff | gui_client_rs/src/main.rs:1125-1152 | when everything is quiet and the last fetch succeeded, the GUI is wrong about a pane exactly if the pane is in the registry and the listing on display read its shard while a delete request had it out |
| GuiFollower.MissedWasUndone | server/src/handlers/delete.rs:32-35 | in every state, a pane of the registry that the listing on display missed was put back by a failed delete |
| GuiFollower.GuiConverges | gui_client_rs/src/main.rs:1125-1152 | when everything is quiet and the last fetch succeeded, the GUI keeps no dead pane, agrees on every pane never put back, and equals the registry if and only if its listing missed no listed pane, whatever the order of Created and Deleted and through any lags |
| GuiFollower.SelectionIsListed | gui_client_rs/src/main.rs:313-332 | in every state, streams run only for listed panes and the selection has a running stream |
| GuiFollower.SelectedIff | gui_client_rs/src/main.rs:313-332 | over every run, a pane is selected exactly if it was clicked on while listed, has been listed ever since, and no other listed pane was clicked on since |
| GuiFollower.StreamedIff | gui_client_rs/src/main.rs:173-201 | over every run, a pane's stream runs exactly if the pane was clicked on while listed and has been listed ever since |
| GuiApp.App.PanesUpdated | gui_client_rs/src/main.rs:313-332 | the list is replaced, exactly the streams of panes no longer listed are aborted and dropped, the others kept, and the selection is kept if its pane is listed and cleared otherwise |
| GuiApp.App.Select | gui_client_rs/src/main.rs:173-201 | a click on a listed pane selects it and starts its stream, as the given task, unless it is running; all other streams are kept |
| GuiApp.LifecycleTask.Fetch | gui_client_rs/src/main.rs:1139-1143 | a list request read shard by shard; if it fails the list stays as it is and is stale, otherwise it is fresh and has, of each shard, the panes that were in the registry when that shard was read |
| GuiApp.LifecycleTask.TakeTurn | gui_client_rs/src/main.rs:1134-1148 | the frame taken is the first of those that have arrived; a snapshot's panes become the list, any other frame has the list fetched, and without a frame nothing changes |
| GuiApp.LifecycleTask.RunTask | gui_client_rs/src/main.rs:1125-1152 | lifecycle_task as a loop that takes all turns, with all that happens besides it: once all requests are over, the stream drained and the last fetch successful, the pane list is the registry's but for exactly the panes its listing missed, all of them put back by failed deletes; and no frame is waiting once nothing else has happened for long enough |
| GuiApp.AllIsDone | gui_client_rs/src/main.rs:1125-1152 | what happens besides lifecycle_task is all done: the statements of the server's tasks, the clicks and, once the stream is open, the steps of its server end, each kind in its order |
| LifecycleProgress.FoldGetsQuiet | server/src/handlers/lifecycle.rs:20-68 | every run can be continued, without a new request, until all requests are over, the stream is drained and the folding client has read everything |
| LifecycleProgress.GuiGetsQuiet | gui_client_rs/src/main.rs:1125-1152 | the same for the desktop client, and with its last fetch successful if it was before or something that has it fetch again was under way |
| LifecycleProgress.StaleStays | gui_client_rs/src/main.rs:1139-1143 | a stale list with nothing under way stays stale and unchanged over any run, for as long as the server announces nothing |
| LifecycleWitnesses.GuiCanMissAnUndonePane | server/src/handlers/delete.rs:32-35 | for every capacity and number of shards, a quiet run with no failed fetch after which the GUI lacks a listed pane, because a failed delete was undone silently |
| LifecycleWitnesses.FoldCanKeepADeadPane | server/src/handlers/create.rs:76-79 | for every capacity and number of shards, a quiet run with no failed kill after which a folding client keeps a dead pane |
| Heartbeat.StepKeepsInv | client/lib/terminal_ui/pane_socket.ex:22-138 | every callback keeps the structural invariant, however late and in whatever order messages arrive |
| Heartbeat.HeartbeatStructure | client/lib/terminal_ui/pane_socket.ex:153-209 | at most one tick per nonce is armed or queued; a token is pending iff a timeout reference is kept, which is then a matching timeout, armed or queued |
| Heartbeat.LastActivityIsTracked | client/lib/terminal_ui/pane_socket.ex:172-178 | the recorded activity time is that of the last connect or inbound message processed |
| Heartbeat.CloseOnlyAfterSilence | client/lib/terminal_ui/pane_socket.ex:92-110 | under any delay and reordering, a heartbeat close happens only 10 s or more after the last processed activity, and only by the kept timeout |
| Heartbeat.StaleForever | client/lib/terminal_ui/pane_socket.ex:63-110 | an older nonce and a cleared token never become current again |
| Heartbeat.StaleMessagesAreInert | client/lib/terminal_ui/pane_socket.ex:63-98 | a message of an older nonce or a cleared token never pings, closes or changes the socket's state |
| HeartbeatReplies.AnswersIff | client/lib/terminal_ui/pane_socket.ex:63-110 | in every state: a ping goes out exactly when the current tick is delivered with no ping unanswered and nothing inbound for 5 s, which is exactly when a token becomes pending; a close exactly when the kept timeout is delivered |
| HeartbeatReplies.DisconnectEnds | client/lib/terminal_ui/pane_socket.ex:114-115 | after every disconnect no timer is armed and no timer reference or token kept, whatever came before |
| HeartbeatReplies.AnswersAfterDisconnectIff | client/lib/terminal_ui/pane_socket.ex:161-168 | between a disconnect and the next connect, some message can be answered with a ping or a close if and only if the current tick was already in the mailbox |
| HeartbeatReplies.DisconnectedCanPing | client/lib/terminal_ui/pane_socket.ex:161-168 | a run in which a disconnected socket pings |
| Heartbeat.ClosesOnTime | client/lib/terminal_ui/pane_socket.ex:63-110 | with prompt timers, a socket connected or last active at a is closed at a time in [a + 10000, a + 15000) ms fixed by its next tick, and at a + 10000 after a connect; never earlier, and time does not pass it without the close |
| Heartbeat.CloseIsReached | client/lib/terminal_ui/pane_socket.ex:63-110 | every silent stretch with prompt timers can be continued to that close |
| Heartbeat.ClosesAfterTenSeconds | client/lib/terminal_ui/pane_socket.ex:63-110 | the lower bound is reached |
| Heartbeat.ClosesAfterAlmostFifteenSeconds | client/lib/terminal_ui/pane_socket.ex:63-110 | a close 14 999 ms after the last activity happens, so the upper bound is tight |
| Throughput.ThroughputWindow.PruneStale | gui_client_rs/src/main.rs:72-81 | exactly the leading stale samples are popped, the total stays the exact sum, so the saturating subtraction never saturates |
| Throughput.ThroughputWindow.RecordBytes | gui_client_rs/src/main.rs:56-65 | a sample is added unless it is empty, then the window pruned; pops never exceed pushes |
| Throughput.ThroughputWindow.BytesPerSecond | gui_client_rs/src/main.rs:67-70 | five times the rate is the exact sum of the retained samples |
| Throughput.WindowRefinesHistory | gui_client_rs/src/main.rs:56-81 | in every orderly run the queue is a suffix of the non-empty samples ever recorded, everything dropped is out of the window, and the total is its sum |
| Throughput.QueryEqualsBruteForce | gui_client_rs/src/main.rs:67-81 | at every query of an orderly run the total is the plain sum of the bytes of all samples ever recorded that are at most 5 000 000 000 ns old |
| Throughput.FrontIsFresh | gui_client_rs/src/main.rs:72-81 | after every call, a sample left in front of the queue is at most 5 s old |
| LiveView.SyncBuffersCovers | client/lib/terminal_ui_web/live/terminal_live.ex:372-378 | every listed pane has a buffer afterwards, and existing buffers are kept |
| LiveView.SelectPaneEstablishes | client/lib/terminal_ui_web/live/terminal_live.ex:226-237 | after a selection, the view is subscribed to exactly that pane and shows its buffer |
| LiveView.SyncPanesSyncs | client/lib/terminal_ui_web/live/terminal_live.ex:357-387 | after a sync, buffers are those of the listed panes, and the selection is none iff there are no panes, the old one if still listed, else the first |
| LiveView.RefreshSyncs | client/lib/terminal_ui_web/live/terminal_live.ex:423-470 | the same after a full refresh, which reads the selected screen again |
| LiveView.SubscriptionFollowsSelection | client/lib/terminal_ui_web/live/terminal_live.ex:514-536 | across all events of a connected view, the subscribed topics are exactly the selected pane's, once, and what is shown is its buffer |
| LiveView.RefreshedSelection | client/lib/terminal_ui_web/live/terminal_live.ex:648-668 | after every refresh of any run, selection and buffers agree with the listed panes, whatever stale updates came before |
| LiveView.RegroupedSelection | client/lib/terminal_ui_web/live/terminal_live.ex:150-157 | the same after a change of group, for the panes of the new group |
| LiveView.SelectionListedIff | client/lib/terminal_ui_web/live/terminal_live.ex:160-197 | for every event, exactly when it leaves the selection listed or none: after a click if the pane is listed, after new_pane if none came of it or the group filter shows it, always after a refresh |
| LiveView.NewPaneIsHidden | client/lib/terminal_ui_web/live/terminal_live.ex:181-197 | with a group selected, a new pane is selected and not listed, after any run |
| LiveView.NewPaneCanBeHidden | client/lib/terminal_ui_web/live/terminal_live.ex:181-197 | a run in which that happens, for every group |
| LiveView.SelectionNoneIff | client/lib/terminal_ui_web/live/terminal_live.ex:160-197 | for every event, exactly when it leaves the selection none if and only if no panes are listed: always after a refresh or a change of group; after new_pane if it fails with nothing listed or succeeds with something listed |
| LiveView.FailedCreateClearsSelection | client/lib/terminal_ui_web/live/terminal_live.ex:181-197 | a run after which a pane is listed, and a failed create has cleared the selection and the screen |
| LiveScreens.HoldsLastScreen | client/lib/terminal_ui_web/live/terminal_live.ex:568-594 | in every run, the view holds for each pane the last screen pushed or successfully fetched for that pane since a list last came without it, and shows that of the selected pane |
| LiveScreens.ScreenCameFromPane | client/lib/terminal_ui_web/live/terminal_live.ex:57-58 | whatever is held for a pane was pushed for, or fetched from, that pane |
| LiveScreens.FollowsEvents | client/lib/terminal_ui_web/live/terminal_live.ex:150-197 | in every run, the group is the one chosen last, the list the last answer through that filter, and the selection follows from clicks, created panes and lists alone |
| LiveScreens.FilterLists | client/lib/terminal_ui_web/live/terminal_live.ex:445-449 | as many panes are listed as pass the group filter, each at the place it has among those |
| PaneSizes.Pane.Resize | server/src/pane.rs:201-223 | all three sizes change together, or none does, with the error that tells why |
| ConcurrentResize.SizesAreRequested | server/src/pane.rs:201-223 | with any number of resizes overlapping, in every state each copy of the size is positive and that of the request that passed its section last; idle, the same requests have passed all three |
| ConcurrentResize.AgreeIff | server/src/pane.rs:201-223 | the three sizes agree if one request was last in all three sections, and only then unless sizes repeat |
| ConcurrentResize.OneByOneAgrees | server/src/pane.rs:201-223 | any number of requests that do not overlap leave all three sizes those of the last one accepted |
| ConcurrentResize.OverlapCanDisagree | server/src/pane.rs:201-223 | any two different sizes, requested at the same time, can leave the PTY and the record with one and the parser with the other |
| PaneSizes.AppState.constructor | server/src/state.rs:48-62 | no panes, and 220 by 50 as the default size |
| PaneSizes.AppState.CreatePane | server/src/handlers/create.rs:56-88 | a pane whose cols and rows are each the requested or else the default ones, everything else as before; an invalid size or a failed spawn changes nothing |
| PaneSizes.AppState.ResizePane | server/src/handlers/resize.rs:41-62 | only the named pane changes, and only on success; the error tells an unknown pane, an invalid size and a PTY failure apart |
| PaneSizes.AppState.ApplyToExisting | server/src/handlers/config.rs:91-102 | stopping at the k-th pane, exactly the first k - 1 have been resized |
| PaneSizes.AppState.UpdateConfig | server/src/handlers/config.rs:72-109 | the new defaults, the panes resized and the result, for every combination of fields and failures; the event limit is stored even when the size is refused |
| PaneSizes.AppState.ResolvePaneId | server/src/state.rs:90-108 | a listed UUID wins; otherwise a result is the only pane of that name, not found means none, and several are refused |

## Left out

- Pane resize in the stream model: it changes the server's screen without an event; sizes are covered on their own.
- The emulator's internals: that a full frame overrides any screen, that a diff applied to its own base gives its target, and that a diff is empty exactly between equal screens are part of the definitions.
- Timestamps: the logged and the broadcast copy of an event take theirs separately; seq and data are compared.
- The 64-bit limit of sequence numbers.
- Receivers in the broadcast channel are cursors into the list of all sends; a send nobody is subscribed to counts as a position like any other, since no cursor is below it.
- `RecvError::Closed` on a stream, failed sends on the lifecycle socket, and messages from the client: the subscriber just stops.
- Locks and map internals: each critical section is one step; a listing reads the registry shard by shard.
- The UI's message queue: a pane list that lifecycle_task sends is taken over by the window at once, in order.
- A GUI reconnect, which starts afresh with a new client and an empty list.
- Freshness of UUIDs and of Erlang references is assumed: ids and references are drawn from a supply.
- WebSocket reconnect timing: connects, disconnects and inbound frames may come in any order.
- The pane lookup of `handle_disconnect`, which only decides about reconnecting, and the screen fetch of `handle_frame`.
- Starting and stopping of pane sockets by the browser view.
- Throughput.ThroughputWindow.BytesPerSecond: over real numbers; rounding to floating point and rate formatting are not modelled.
- PaneSizes.AppState.ResizePane: over one request after the other; resizes of a pane that overlap are those of ConcurrentResize, which does not repeat the lookup of the pane.
- PaneSizes.AppState.ResolvePaneId: the text is looked up as a whole string; how a UUID is parsed is a parameter.
- LifecycleHandlers.AppState.TakeChild: the kill and wait system calls behind the handle are not modelled.
- LifecycleHandlers.Runtime.CreatePaneHandler: starts once the pane is spawned; the size, its refusal and a failed spawn are those of PaneSizes.AppState.CreatePane.
- LifecycleHandlers.Runtime.DeletePaneHandler: starts from a resolved id; the resolution is PaneSizes.AppState.ResolvePaneId.
- StreamHandler.Pane.ReadLoop: ends with the loop; the take of the child after it is a step of PaneRegistry.
- Idle times, snippets, name and group edits, size forms, sidebars and all rendering.
- Authentication, environment, HTTP, JSON and base64, the command line, generated documentation and the Rust transport.
