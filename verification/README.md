# SocketLens in Dafny

SocketLens is a desktop application for watching WebSocket traffic: it opens connections, can sit
between a client and a server as a proxy, keeps the captured packets and sessions in stores, and
analyses, groups, exports and imports them. This project models its stateful and algorithmic core
and proves what every run, every input or every interleaving keeps.

`dafny verify dfyconfig.toml` checks the whole project.

## How the model is laid out

| files | part of the application |
|---|---|
| `ConnectionStore`, `ConnectionSafety`, `ConnectionAnswers` | the WebSocket connection store as a step machine over user actions, socket events and resumed continuations, with the class that performs the steps |
| `ProxyManager`, `ProxyProtocol`, `ProxyAnswers`, `ProxyForwarding`, `ProxyCaptures` | the native proxy: the runtime record under its lock, the session registry, listener and handler tasks interleaving freely, and the two message forwarders of a connection |
| `PacketStore`, `PacketClearing`, `SessionStore`, `SessionAnswers` | the batched stores and the unbatched ones they refine |
| `PacketRelationships`, `RelationshipBuilder`, `RelationshipFacts`, `RelationshipMeaning` | the relationship index: its definition, the imperative builder, what it says of the packets |
| `FlowAnalysis`, `FlowRuns` | the worklist search for connected packets and what its components are |
| `Runs`, `PacketGrouping`, `GroupingMeaning` | the timeline cut into runs and folded into groups |
| `Json`, `PacketAnnotations`, `SessionFile`, `SessionFileRoundTrip` | session files at the level of JSON trees |
| `SessionImport`, `RelationshipRenaming`, `SessionMerging` | importing a file under fresh ids |
| `SocketIo` | the Socket.IO frame parser |
| `Environment` | masking of secret values |
| `DocumentKeys`, `AsyncApi`, `DocumentMeaning` | the AsyncAPI export: keys, references and counts |
| `Sequences`, `Grouping`, `Strings`, `Decimals`, `Models` | arrays, `Map` grouping, strings, numerals and the records |

Code that changes state is a class or a method with its loops, proved equal to a function of its inputs
or of the old state; the results are lemmas about those functions. Ids are strings; timestamps, sizes and
other JavaScript numbers are reals. Sorting is the stable sort ECMAScript asks for; `Sequences.SortSpec`
shows that "sorted, ties in order" determines it.

What the surroundings decide is a parameter or an event: which event comes next, the clock, what a
browser's `close` refuses, the ids that are handed out, what a payload decodes to, how names collate and
how a date parses.

## Results that go against expectation

* A browser that follows section 3 of the WHATWG WebSockets Standard refuses `close` with codes 1001 and
  1011. The store swallows that, so disposing of an open socket leaves it open
  (`ConnectionSafety.DisposeCanLeakASocket`); `SocketLeaksIffCloseRefused` gives the exact condition.
* `connect` can overwrite a session it never closes (`ConnectionSafety.ConnectCanOrphanASession`);
  `SessionOrphanedIffOverwritten` gives the exact condition.
* A leftover proxy handler can lower the next generation's connection count
  (`ProxyProtocol.LeftoverHandlerLowersCount`). `StepStaysExactIff` says exactly which steps make an exact
  counter wrong; in every run the bounds of `ActiveConnectionsBounds` hold.
* Packets with equal timestamps are ordered by how they were batched (`PacketStore.TiesDependOnBatching`):
  the stored list depends on batching exactly when such a tie is kept (`BatchIndependentIffNoTieIsKept`).
* Importing a file of several sessions makes one session of them, which can relate packets that were not
  related (`SessionMerging.MergedSessionsCanAddRelationships`) and undo a pair
  (`PairOfOneSessionDisappears`). `ImportKeepsEdgesIff` gives the exact condition.
* Masking does not hide a secret that begins or ends with `*` or contains `****`
  (`Environment.SecretsAreHiddenIffSafe`).
* A note cut at 2,000 characters can end in white space, and such a file does not read back to itself
  (`SessionFileRoundTrip.SomeAcceptedFileDoesNotReadBack`).

## Model

| member | source | states |
|---|---|---|
| `ConnectionSafety.EveryRun` | apps/desktop/src/store/connection-store.ts:128-549 | on every browser and in every interleaving, the socket with handlers attached is the store's socket and no other; connected implies a socket and an active session; the active session has not ended |
| `ConnectionSafety.EndedSessionsStayEnded` | apps/desktop/src/store/connection-store.ts:336-548 | after a session is marked closed or failed, no later call of the store marks it again or records a packet into it |
| `ConnectionSafety.AtMostOneLiveSocket` | apps/desktop/src/store/connection-store.ts:1159-1197 | if every `close` is accepted, at most one socket is connecting or open in any run |
| `ConnectionSafety.SocketLeaksIffCloseRefused` | apps/desktop/src/store/connection-store.ts:1167-1197 | a step lets go of a live socket exactly when it closes the store's open socket with a code the browser refuses |
| `ConnectionSafety.DisposeCanLeakASocket` | apps/desktop/src/store/connection-store.ts:595-644 | a concrete run in which code 1001 is refused and two sockets are live at once |
| `ConnectionSafety.SessionOrphanedIffOverwritten` | apps/desktop/src/store/connection-store.ts:177-335 | a step leaves a session without an end exactly when a successful `connect` overwrites the active session |
| `ConnectionSafety.ConnectCanOrphanASession` | apps/desktop/src/store/connection-store.ts:177-335 | a concrete run that does: the second `connect` finds the first one's socket closing |
| `ConnectionSafety.StepKeepsInvariant` | apps/desktop/src/store/connection-store.ts:128-938 | each of the fifteen kinds of step keeps the inductive invariant behind those results |
| `ConnectionSafety.RunKeepsInvariant` | apps/desktop/src/store/connection-store.ts:128-938 | so does every sequence of steps |
| `ConnectionSafety.NothingAfterTheEnd` | apps/desktop/src/store/connection-store.ts:433-548 | reading the calls to the other stores in order, none names a session after the call that ended it |
| `ConnectionAnswers.SessionsStartFirst` | apps/desktop/src/store/connection-store.ts:177-548 | in every run each session is started exactly once, before any other call names it |
| `ConnectionAnswers.ConnectedIsEarned` | apps/desktop/src/store/connection-store.ts:336-374 | the store shows a connection only after it marked the active session as connected |
| `ConnectionAnswers.CloseAnswers` | apps/desktop/src/store/connection-store.ts:433-501 | after any run, the close event of the store's closed socket fails the session and the connection iff its code is 1006 or a failure was already shown, and otherwise ends both cleanly; the journal grows by exactly that mark |
| `ConnectionAnswers.OpenAnswers` | apps/desktop/src/store/connection-store.ts:336-374 | an accepted open makes the connection connected, resets the attempts and marks the session connected |
| `ConnectionAnswers.ErrorAnswers` | apps/desktop/src/store/connection-store.ts:502-548 | an error of the store's socket gives it up with 1011 and fails session and connection |
| `ConnectionAnswers.StaleEventsChangeNothing` | apps/desktop/src/store/connection-store.ts:336-548 | no event of any other socket changes anything in any run |
| `ConnectionAnswers.ReceiveAnswers` | apps/desktop/src/store/connection-store.ts:375-385 | a message of the store's socket waits to be normalised, behind those that wait already |
| `ConnectionAnswers.NormalizeAnswers` | apps/desktop/src/store/connection-store.ts:375-432 | a normalised message is recorded as inbound for the active session iff normalising succeeded and its socket is still the store's |
| `ConnectionAnswers.SendAnswers` | apps/desktop/src/store/connection-store.ts:825-930 | what is sent is recorded as outbound; nothing happens iff the text is blank, the socket is not open or the connection unknown; a throwing send fails the session |
| `ConnectionAnswers.DisconnectAnswers` | apps/desktop/src/store/connection-store.ts:554-594 | the socket alone is given up with 1000, the active session closed, the fields cleared |
| `ConnectionAnswers.DisposeAnswers` | apps/desktop/src/store/connection-store.ts:595-644 | the same with 1001, and idle stays idle |
| `ConnectionAnswers.ConnectAnswers` | apps/desktop/src/store/connection-store.ts:128-335 | refused in demo mode and beside a live socket; otherwise one new socket for one new session, or a failure that starts no session and ends none |
| `ConnectionAnswers.ReconnectAnswers` | apps/desktop/src/store/connection-store.ts:646-712 | turned away without a target, while connecting and within 900 ms; otherwise counted, and a connection to the target is ended first |
| `ConnectionAnswers.ResumeAnswers` | apps/desktop/src/store/connection-store.ts:706-712 | a reconnect that waited connects on whatever state it then finds, and is no longer waiting |
| `ConnectionAnswers.BookkeepingAnswers` | apps/desktop/src/store/connection-store.ts:719-810 | saving, removing and selecting connections touch no socket and no session |
| `ConnectionAnswers.CooldownHolds` | apps/desktop/src/store/connection-store.ts:646-712 | of two attempts within the cooldown the second changes nothing |
| `ConnectionStore.ConnectionStoreObject.DoConnect` | apps/desktop/src/store/connection-store.ts:128-335 | the new state after `connect`: refusal while a socket is live, cleanup of a closing one, the failure state, or the new socket, session and handlers |
| `ConnectionStore.ConnectionStoreObject.DoDisconnect` | apps/desktop/src/store/connection-store.ts:554-594 | closes the socket with 1000, marks the active session closed, clears the connection fields |
| `ConnectionStore.ConnectionStoreObject.DoDispose` | apps/desktop/src/store/connection-store.ts:595-644 | the same with 1001, keeping an idle status idle |
| `ConnectionStore.ConnectionStoreObject.DoReconnect` | apps/desktop/src/store/connection-store.ts:646-712 | target, refusals and cooldown; disconnect and wait, or connect at once |
| `ConnectionStore.ConnectionStoreObject.ResumeReconnect` | apps/desktop/src/store/connection-store.ts:706-712 | the continuation after the delay runs `connect` on whatever state it finds |
| `ConnectionStore.ConnectionStoreObject.DoSendMessage` | apps/desktop/src/store/connection-store.ts:825-930 | what is refused, what is recorded, and the teardown when `send` throws |
| `ConnectionStore.ConnectionStoreObject.OnOpen` | apps/desktop/src/store/connection-store.ts:336-374 | a stale socket is cleaned up, the current one becomes the connection |
| `ConnectionStore.ConnectionStoreObject.ResumeNormalize` | apps/desktop/src/store/connection-store.ts:375-432 | a normalised message is recorded only if its socket is still current |
| `ConnectionStore.ConnectionStoreObject.OnClose` | apps/desktop/src/store/connection-store.ts:433-501 | which session is ended and how, and what is cleared |
| `ConnectionStore.ConnectionStoreObject.OnError` | apps/desktop/src/store/connection-store.ts:502-548 | a current socket is torn down with 1011 and its session marked failed |
| `ConnectionStore.ConnectionStoreObject.CleanupSocket` | apps/desktop/src/store/connection-store.ts:1167-1170 | detaches the four handlers, then closes; a refused code leaves the socket open |
| `ConnectionStore.ConnectionStoreObject.CloseSocket` | apps/desktop/src/store/connection-store.ts:1179-1197 | what `close` does in each ready state, and that a throw changes nothing else |
| `ConnectionStore.ConnectionStoreObject.DoSaveConnection` | apps/desktop/src/store/connection-store.ts:725-810 | a rejected save sets the error status even while connected |
| `ConnectionStore.ConnectionStoreObject.DoRemoveConnection` | apps/desktop/src/store/connection-store.ts:719-724 | forgets the id where it is active or selected and keeps the socket |
| `ProxyProtocol.RunningStateIsConsistent` | apps/desktop/src-tauri/src/proxy.rs:133-247 | whenever the lock is free the six fields of a running proxy are all set or all unset, and an un-signalled listener that no pending `stop` is about to signal is the running generation's |
| `ProxyProtocol.LateMarkStoppedIsHarmless` | apps/desktop/src-tauri/src/proxy.rs:232-247 | a `mark_stopped` at the end of a listener changes at most the counter, below the last generation number |
| `ProxyManager.MarkStoppedChangesNothing` | apps/desktop/src-tauri/src/proxy.rs:232-247 | it changes nothing iff it comes from another generation or finds nothing to clear |
| `ProxyProtocol.ActiveConnectionsBounds` | apps/desktop/src-tauri/src/proxy.rs:222-230 | the counter never exceeds the handlers counted since it was last set to zero, and is short of them by at most the stale decrements |
| `ProxyProtocol.ActiveConnectionsExact` | apps/desktop/src-tauri/src/proxy.rs:222-230 | with no unfinished handler at the last start or stop it equals the handlers between increment and decrement |
| `ProxyProtocol.StepStaysExactIff` | apps/desktop/src-tauri/src/proxy.rs:133-247 | an exact counter survives a step, of any kind, iff the step is not the decrement of a handler counted before the counter was last set to zero, while the counter is above zero |
| `ProxyProtocol.RunStaysExact` | apps/desktop/src-tauri/src/proxy.rs:133-247 | so it is exact after every run without such a step |
| `ProxyProtocol.LeftoverHandlerLowersCount` | apps/desktop/src-tauri/src/proxy.rs:334-410 | a concrete run in which the counter is 0 with one live connection |
| `ProxyProtocol.ActiveSessionsExact` | apps/desktop/src-tauri/src/session.rs:82-128 | `active_sessions` equals the sessions opened and not closed, so closing one never saturates |
| `ProxyProtocol.SessionIdsDistinct` | apps/desktop/src-tauri/src/session.rs:82-104 | two session ids coincide iff the 64-bit counter wrapped around between them |
| `ProxyProtocol.StepKeepsInvariant` | apps/desktop/src-tauri/src/proxy.rs:133-410 | every atomic step of managers, listeners and handlers keeps the invariant behind those results |
| `ProxyProtocol.RunKeepsInvariant` | apps/desktop/src-tauri/src/proxy.rs:133-410 | so does every interleaving |
| `ProxyAnswers.UrlsAreOfTheLastStart` | apps/desktop/src-tauri/src/proxy.rs:133-185 | in every run, a running proxy forwards to the URL that the last successful start asked for and listens where that one was bound |
| `ProxyAnswers.StartAnswers` | apps/desktop/src-tauri/src/proxy.rs:133-185 | a start succeeds iff the request is valid, nothing runs and the bind works; it then spawns one accepting listener of the next generation |
| `ProxyAnswers.StopAnswers` | apps/desktop/src-tauri/src/proxy.rs:187-220 | a stop clears a running proxy and takes the newest listener's sender |
| `ProxyAnswers.ShutdownIsOrdered` | apps/desktop/src-tauri/src/proxy.rs:205-220 | in every run a stop signals the connections, then its listener, then aborts it; a listener leaves only signalled or aborted, and is aborted only by a stop |
| `ProxyAnswers.StopReachesItsListener` | apps/desktop/src-tauri/src/proxy.rs:205-220 | the three signals of a stop, sent in order from any state, leave its listener signalled and aborted |
| `ProxyAnswers.HandlerAnswers` | apps/desktop/src-tauri/src/proxy.rs:334-410 | a step moves only its own handler, from count to number to session or refusal to end, in that order |
| `ProxyAnswers.ListenerAnswers` | apps/desktop/src-tauri/src/proxy.rs:268-320 | an accepting listener spawns one handler per connection; a listener that leaves clears the runtime iff that is of its generation |
| `ProxyAnswers.TotalSessionsExact` | apps/desktop/src-tauri/src/session.rs:82-104 | until the lock is poisoned, `total_sessions` counts the handlers past opening a session, and none was refused |
| `ProxyAnswers.IdAnswers` | apps/desktop/src-tauri/src/session.rs:82-104 | ids are taken one after another and wrap around after the last 64-bit one |
| `ProxyManager.ProxyManagerObject.Start` | apps/desktop/src-tauri/src/proxy.rs:133-185 | refusals and their order, and the runtime after a start, with the saturating generation |
| `ProxyManager.ProxyManagerObject.Stop` | apps/desktop/src-tauri/src/proxy.rs:187-220 | the critical section: what is taken, what is cleared, and what is returned |
| `ProxyManager.ProxyManagerObject.MarkStopped` | apps/desktop/src-tauri/src/proxy.rs:232-247 | clears everything iff the generation is still the current one |
| `ProxyManager.ProxyManagerObject.DecrementActiveConnections` | apps/desktop/src-tauri/src/proxy.rs:227-230 | subtracts one, stopping at zero |
| `ProxyManager.SessionRegistryObject.OpenProxySession` | apps/desktop/src-tauri/src/session.rs:82-104 | counts the session and names it, or fails when the lock is poisoned |
| `ProxyManager.SessionRegistryObject.CloseProxySession` | apps/desktop/src-tauri/src/session.rs:107-128 | saturating decrement, or failure when the lock is poisoned |
| `ProxyForwarding.ForwardMessages` | apps/desktop/src-tauri/src/proxy.rs:462-508 | the loop with its waits, against every order of what the runtime can do |
| `ProxyForwarding.ForwardingIsFaithful` | apps/desktop/src-tauri/src/proxy.rs:475-507 | written is what was read, missing at most the last message, or with one final Close after everything; captures are exactly those of the messages read, in order; nothing is read after a Close; a forwarded Close means all was written |
| `ProxyForwarding.ProxiedConnectionIsFaithful` | apps/desktop/src-tauri/src/proxy.rs:453-459 | both directions stay faithful when one finishes first and drops the other, and the result is the finisher's |
| `ProxyCaptures.CapturesShowWhatWasRead` | apps/desktop/src-tauri/src/proxy.rs:510-582 | in every run there is one capture per message read, none for Close and raw frames: a text with its own content and size, JSON iff it is; a binary frame whose preview reads back to its bytes; ping and pong under their own names |
| `ProxyCaptures.PreviewIsReadBack` | apps/desktop/src-tauri/src/proxy.rs:567-581 | reading the digit pairs of a preview gives its bytes back, with or without the ellipsis |
| `ProxyCaptures.WhyItEnds` | apps/desktop/src-tauri/src/proxy.rs:475-507 | the outcome says what ended the forwarder, and a forwarded Close gives its reason |
| `ProxyCaptures.WhenItEnds` | apps/desktop/src-tauri/src/proxy.rs:475-507 | exactly which events end it in each phase |
| `ProxyCaptures.WhatItReads` | apps/desktop/src-tauri/src/proxy.rs:471-484 | only a forwarder that waits reads a message or hears of the shutdown |
| `ProxyCaptures.SidesRunOnTheirOwn` | apps/desktop/src-tauri/src/proxy.rs:433-459 | each side goes where its own events take it until one finishes, and the other is dropped where it stands |
| `PacketStore.MergePacketsByTimestamp` | apps/desktop/src/store/packet-store.ts:157-188 | the index-driven loop is the merge of the two lists, the left one first on ties |
| `PacketStore.MergeOfSorts` | apps/desktop/src/store/packet-store.ts:153-188 | merging two sorted batches is one stable sort of their concatenation |
| `PacketStore.TakeOfMerge` | apps/desktop/src/store/packet-store.ts:190-203 | cutting the stored list early does not change what survives the cut |
| `PacketStore.RunKeepsGood` | apps/desktop/src/store/packet-store.ts:44-151 | always newest first and within the limit; pending is non-empty exactly when the timer is armed, and below 500 |
| `PacketStore.FlushedListIsOneSort` | apps/desktop/src/store/packet-store.ts:134-203 | the exact list after any operations and a flush, ties included: one stable sort of the batches, newest batch first, cut at the limit |
| `PacketStore.BatchedLogContents` | apps/desktop/src/store/packet-store.ts:44-69 | batching neither loses nor invents a packet |
| `PacketStore.FlushedTimestamps` | apps/desktop/src/store/packet-store.ts:44-203 | between clears and however additions are batched, the flushed timestamps are the first L of all added timestamps sorted descending |
| `PacketStore.FlushedPacketsAreBatchIndependent` | apps/desktop/src/store/packet-store.ts:44-203 | with distinct timestamps the packet list itself does not depend on batching |
| `PacketStore.BatchIndependentIffNoTieIsKept` | apps/desktop/src/store/packet-store.ts:134-203 | all ways of batching the same additions store the same list iff no two different packets share a timestamp of which the retention cut keeps a packet |
| `PacketStore.TiesDependOnBatching` | apps/desktop/src/store/packet-store.ts:153-170 | the two orders for two packets that tie: as added in one batch, the later first across two |
| `PacketClearing.BatchedRefinesUnbatched` | apps/desktop/src/store/packet-store.ts:44-203 | over any run, clears and cuts included, with different timestamps the flushed store is the store that merges each packet as it comes |
| `PacketClearing.RunContents` | apps/desktop/src/store/packet-store.ts:44-203 | over any run with clears nothing is held that was not added and not cleared since, and nothing else is missing while no more were added than the limit allows |
| `PacketClearing.ClearAnswers` | apps/desktop/src/store/packet-store.ts:71-81 | clearing a session leaves exactly the flushed packets of the others, in order and multiplicity; clearing none, or the empty id, leaves nothing, pending ones included |
| `PacketClearing.AddAnswers` | apps/desktop/src/store/packet-store.ts:60-69 | a packet waits until it is the 500th, then all that waited is merged |
| `PacketStore.PacketStoreObject.Add` | apps/desktop/src/store/packet-store.ts:60-69 | the batch grows and arms the timer, or is flushed at 500 |
| `PacketStore.PacketStoreObject.AddMany` | apps/desktop/src/store/packet-store.ts:44-58 | flushes first, then merges the added packets |
| `PacketStore.PacketStoreObject.FlushPending` | apps/desktop/src/store/packet-store.ts:134-151 | disarms the timer and merges the sorted batch |
| `PacketStore.PacketStoreObject.ClearSession` | apps/desktop/src/store/packet-store.ts:71-81 | flushes, then drops one session's packets or all |
| `SessionStore.BatchedRefinesImmediate` | apps/desktop/src/store/session-store.ts:58-147 | for every trace, flushing the batched store gives the sessions of applying each packet at once |
| `SessionStore.RunKeepsTimerMatchesBatch` | apps/desktop/src/store/session-store.ts:151-189 | pending packets exist exactly when the timer is armed, and fewer than 500 |
| `SessionStore.CountersSinceAdded` | apps/desktop/src/store/session-store.ts:65-128 | each retained session's counters are its starting counters plus the packets recorded for it since it was added |
| `SessionStore.CreditAllTotals` | apps/desktop/src/models/session.ts:50-64 | crediting packets one by one adds up their totals by direction |
| `SessionAnswers.ToldSinceAdded` | apps/desktop/src/store/session-store.ts:58-147 | after any run a session shows the last status it was given, an end iff that is final, the last close details and the last name that is not blank, whatever happened to the others |
| `SessionAnswers.CreatedIsTidy` | apps/desktop/src/models/session.ts:31-48 | a new session is connecting, without an end or close details, and has counted nothing |
| `SessionAnswers.RunKeepsTidy` | apps/desktop/src/store/session-store.ts:58-147 | at most twenty sessions, each with an end iff it is closed or failed, in every run |
| `SessionAnswers.ListAnswers` | apps/desktop/src/store/session-store.ts:58-115 | a new session goes to the front and the twenty-first falls off; an import replaces its namesake; removal takes out just the one |
| `SessionAnswers.RecordAnswers` | apps/desktop/src/store/session-store.ts:65-89 | packets wait until 500 of them do |
| `SessionStore.SessionStoreObject.FlushPending` | apps/desktop/src/store/session-store.ts:162-189 | the nested flush loop credits every pending packet to its session and empties the batch |
| `SessionStore.SessionStoreObject.RecordMany` | apps/desktop/src/store/session-store.ts:76-89 | an empty list does nothing; otherwise the batch grows, and is flushed at 500 |
| `SessionStore.SessionStoreObject.EditSession` | apps/desktop/src/store/session-store.ts:97-147 | renaming and status changes, after a flush |
| `Grouping.GroupBy` | apps/desktop/src/lib/packet-relationships.ts:194-206 | the get-or-create, push, set loop: keys in order of first occurrence, each group the items with its key in order |
| `RelationshipBuilder.BuildPacketRelationshipIndex` | apps/desktop/src/lib/packet-relationships.ts:59-132 | the imperative construction with its maps and sets is the index as defined |
| `RelationshipBuilder.Builder.AddRelationship` | apps/desktop/src/lib/packet-relationships.ts:71-94 | the closure accepts an edge iff its ends are different packets of one session and it is not there yet |
| `RelationshipBuilder.Builder.AddReplayRelationships` | apps/desktop/src/lib/packet-relationships.ts:165-186 | proposes the replay edges, in order |
| `RelationshipBuilder.Builder.AddExplicitCorrelationRelationships` | apps/desktop/src/lib/packet-relationships.ts:188-234 | proposes one edge per group of exactly two with opposite directions |
| `RelationshipBuilder.Builder.AddReplyToRelationships` | apps/desktop/src/lib/packet-relationships.ts:236-280 | proposes an edge where exactly one earlier packet has the replied-to identity |
| `RelationshipBuilder.Builder.AddSequentialFlowRelationships` | apps/desktop/src/lib/packet-relationships.ts:282-322 | proposes an edge per near pair of neighbours, session by session |
| `RelationshipFacts.IndexAgreesWithEdges` | apps/desktop/src/lib/packet-relationships.ts:71-131 | edges are duplicate-free, loop-free and within one session; a packet has an entry iff an edge touches it; the entry is a permutation of exactly those edges, other end newest first |
| `RelationshipFacts.CorrelationEdgeMeaning` | apps/desktop/src/lib/packet-relationships.ts:188-234 | a correlation edge joins two packets of one session with one token and opposite directions, and no third packet of the session has the token |
| `RelationshipFacts.CorrelationEdgesAreAMatching` | apps/desktop/src/lib/packet-relationships.ts:188-234 | two correlation edges that share a packet are the same edge |
| `RelationshipFacts.ExplicitEdgesExactly` | apps/desktop/src/lib/packet-relationships.ts:165-280 | the explicit edges are exactly the acceptable ones some packet or pair calls for |
| `RelationshipFacts.ReplyEdgeMeaning` | apps/desktop/src/lib/packet-relationships.ts:236-280 | a reply edge leads from the one packet, no later than the reply, that carries the identity the reply names; both are of one session |
| `RelationshipFacts.RepliesAreJoined` | apps/desktop/src/lib/packet-relationships.ts:236-280 | and every such pair of packets of one session has that edge |
| `RelationshipMeaning.IndexIsExact` | apps/desktop/src/lib/packet-relationships.ts:59-322 | for packets with different ids, said of the packets alone: an edge is in the index iff a replay, a pair, a reply or a flow calls for it between two packets of one session |
| `RelationshipMeaning.ReplayEdgesExactly` | apps/desktop/src/lib/packet-relationships.ts:165-186 | the replay edges lead exactly from a packet to a replay of it in its session |
| `RelationshipMeaning.CorrelationEdgesExactly` | apps/desktop/src/lib/packet-relationships.ts:188-234 | the correlation edges lead exactly from the earlier to the later of the only two packets of a session that share a token, in opposite directions, with the reason their events and field give |
| `RelationshipMeaning.FlowEdgesExactly` | apps/desktop/src/lib/packet-relationships.ts:282-322 | the auth (reconnect) edges lead exactly from a packet of the flow to the next one of its session, if that comes within 5,000 (10,000) ms |
| `RelationshipRenaming.ImportCommutesWithIndexing` | apps/desktop/src/models/session-file.ts:252-266 | for packets of one session, in any order and with any ids, the index of the imported packets is the original index with every id, replay sources included, mapped |
| `RelationshipRenaming.DraftsRename` | apps/desktop/src/lib/packet-relationships.ts:96-107 | each of the five rules proposes the renamed edges on renamed packets |
| `RelationshipRenaming.AcceptingRenames` | apps/desktop/src/lib/packet-relationships.ts:71-94 | and the same proposals are accepted |
| `FlowAnalysis.CollectConnectedPacketIds` | apps/desktop/src/lib/flow-analysis.ts:216-268 | the worklist ends, and returns exactly the components of the chosen edge kind: no duplicates, disjoint, and two ids share one iff a walk joins them (never through the empty id, which the search drops) |
| `FlowAnalysis.CollectComponent` | apps/desktop/src/lib/flow-analysis.ts:239-260 | one search collects exactly the ids its start reaches, and only unvisited ones |
| `FlowAnalysis.BuildAdjacency` | apps/desktop/src/lib/flow-analysis.ts:220-229 | the adjacency map holds a pair iff an edge of the kind joins it, in either direction |
| `FlowRuns.FlowsAreRuns` | apps/desktop/src/lib/packet-relationships.ts:282-322 | the components of the auth (reconnect) edges are exactly the maximal runs: two ids share one iff both are such packets of one session, every gap between them, in time order, is within 5,000 (10,000) ms, and no packet from the one to the other has an empty id |
| `FlowRuns.JoinedIffChained` | apps/desktop/src/lib/flow-analysis.ts:216-268 | within a session, two places are joined iff every gap between is near and no id among them is empty; one wide gap separates |
| `FlowRuns.IndexLinksRuns` | apps/desktop/src/lib/packet-relationships.ts:304-321 | the accepted edges of the kind are exactly the links between near neighbours |
| `Runs.CutIsMaximal` | apps/desktop/src/lib/packet-grouping.ts:66-114 | runs put together give the list back, each has one key, and the key changes at every cut |
| `Runs.MaximalCutIsUnique` | apps/desktop/src/lib/packet-grouping.ts:66-114 | and there is only one such cut |
| `PacketGrouping.GroupTimelinePackets` | apps/desktop/src/lib/packet-grouping.ts:54-117 | the loops over index and cursor produce the timeline of those runs |
| `PacketGrouping.CollectRun` | apps/desktop/src/lib/packet-grouping.ts:74-92 | the inner loop stops exactly where the key changes |
| `PacketGrouping.GroupingIsLossless` | apps/desktop/src/lib/packet-grouping.ts:94-111 | expanding gives back the packets in order, whatever the thresholds and whichever groups are open |
| `PacketGrouping.GroupsAreExactlyTheLongRuns` | apps/desktop/src/lib/packet-grouping.ts:172-215 | a group is there iff a maximal run is long enough for its kind; count, bytes, time bounds and directions are folds over the run |
| `PacketGrouping.NewerPacketsKeepGroupIds` | apps/desktop/src/lib/packet-grouping.ts:192-206 | putting any newer packets in front keeps every group id, and the old group's packets end the new one's |
| `GroupingMeaning.GroupsAreStretches` | apps/desktop/src/lib/packet-grouping.ts:54-215 | said of the packets alone: every group shows a longest stretch of packets that belong together, of at least the size asked for its kind, with that stretch's figures |
| `GroupingMeaning.StretchesAreGroups` | apps/desktop/src/lib/packet-grouping.ts:54-215 | and every such stretch is shown by a group |
| `GroupingMeaning.SameKeyIffAlike` | apps/desktop/src/lib/packet-grouping.ts:126-170 | two packets belong together iff they are of one kind by the order of the tests, and repeated events also of one direction, payload kind, status and name |
| `SocketIo.ParseSocketIoFrame` | apps/desktop/src/extensions/packet-decoder.ts:810-889 | the parser, with its cursor, reads the frame as defined piece by piece |
| `SocketIo.ReadNamespace` | apps/desktop/src/extensions/packet-decoder.ts:851-863 | the namespace up to the comma or the end, and where the cursor is left |
| `SocketIo.ReadAttachments` | apps/desktop/src/extensions/packet-decoder.ts:842-849 | digits count only before a dash, and only on binary types |
| `SocketIo.ParsingUndoesEncoding` | apps/desktop/src/extensions/packet-decoder.ts:468-889 | every packet encoded as section "Packet encoding" of the Socket.IO protocol, revision 5, asks is recognised and read back to its own fields, also with white space around it |
| `SocketIo.EnginePacketsAreReadBack` | apps/desktop/src/extensions/packet-decoder.ts:810-889 | packets of the other Engine.IO types are read back to their type and data |
| `SocketIo.OnlyBinaryPacketsHaveAttachments` | apps/desktop/src/extensions/packet-decoder.ts:842-849 | a frame of any text has a number of attachments only if it is a binary event or acknowledgement |
| `SocketIo.UnknownMessagesAreKept` | apps/desktop/src/extensions/packet-decoder.ts:810-889 | a message of a missing or unknown type is kept whole |
| `SocketIo.WhatLooksLikeAFrame` | apps/desktop/src/extensions/packet-decoder.ts:468-502 | a text looks like a frame iff it reads as a bare ping or pong, as an open packet with an object, or as a message of a known type whose rest can follow one |
| `SocketIo.NothingIsDropped` | apps/desktop/src/extensions/packet-decoder.ts:839-873 | any message is its pieces with the dash and the comma put back |
| `PacketAnnotations.NormalizeAnnotationTags` | apps/desktop/src/models/packet.ts:114-126 | the loop over the tags gives the first twelve distinct normal forms |
| `PacketAnnotations.TagsAnswer` | apps/desktop/src/models/packet.ts:114-126 | the normalised tags are the first twelve different normal forms that are not empty, in the order of first occurrence |
| `PacketAnnotations.TagAnswers` | apps/desktop/src/models/packet.ts:114-126 | a tag's normal form has a dash for every run of white space inside it and is cut at 32 characters |
| `PacketAnnotations.TagsAreKeptIff` | apps/desktop/src/models/packet.ts:114-126 | normalising yields canonical tags and keeps exactly the canonical lists, so it is idempotent |
| `PacketAnnotations.NoteIsKeptIff` | apps/desktop/src/models/packet.ts:110-112 | a note is kept iff it is short enough and has no white space at its ends |
| `SessionFile.ParsePacketList` | apps/desktop/src/models/session-file.ts:509-541 | the loop returns the error of the first bad entry, or all packets newest first |
| `SessionFileRoundTrip.AcceptedFilesReadBackIff` | apps/desktop/src/models/session-file.ts:165-235 | every accepted file reads back to itself after it is written iff no note's cut left white space at its end |
| `SessionFileRoundTrip.FileReadsBackIff` | apps/desktop/src/models/session-file.ts:165-235 | a file reads back to itself iff it is in normal form: metadata, packet count, order, packets, session |
| `SessionFileRoundTrip.PacketReadsBackIff` | apps/desktop/src/models/session-file.ts:543-603 | a packet reads back iff its ids are not empty, its annotations are canonical, and a replay source comes with a send source |
| `SessionFileRoundTrip.PacketsReadBackIff` | apps/desktop/src/models/session-file.ts:509-541 | a packet list reads back iff its packets do and it is newest first |
| `SessionFileRoundTrip.AnnotationsReadBackIff` | apps/desktop/src/models/packet.ts:75-99 | annotations read back iff note and tags are canonical and something is annotated |
| `SessionFileRoundTrip.RedactionReadsBackIff` | apps/desktop/src/models/session-file.ts:411-449 | redaction notes read back iff their time and replacement are not empty |
| `SessionFileRoundTrip.CreatedFilesReadBackIff` | apps/desktop/src/models/session-file.ts:97-122 | a file made from a session reads back iff the session and its packets are in normal form; order and count always are |
| `SessionFileRoundTrip.SomeAcceptedFileDoesNotReadBack` | apps/desktop/src/models/packet.ts:110-112 | a concrete accepted file that does not read back to itself |
| `SessionImport.ImportedSessionIsConsistent` | apps/desktop/src/models/session-file.ts:237-290 | an imported session is over and has an end, owns its packets, which stay newest first, and its counters are what recording them from nothing gives |
| `SessionImport.ImportedSessionSays` | apps/desktop/src/models/session-file.ts:237-290 | its status, times, close details, endpoint and name are those of the file's session, made over; without one they span the packets, or fall back on the metadata and the time of the import |
| `SessionImport.NewIdsAreFresh` | apps/desktop/src/models/session-file.ts:252 | the id map built from new ids covers every packet, is one to one, and meets no id of the file |
| `SessionImport.ImportKeepsRelationships` | apps/desktop/src/models/session-file.ts:237-290 | importing a file of one session keeps the whole relationship index, under the new ids |
| `SessionMerging.ImportKeepsEdgesIff` | apps/desktop/src/models/session-file.ts:252-266 | for a file of any sessions, the import's edges are the file's edges under the new ids iff no rule sees packets of different sessions together: no replay or reply joins two, no token of several sessions is on a pair in one of them or in all together, and neighbours in a flow that are near are of one session |
| `SessionMerging.MergingKeepsEdgesIff` | apps/desktop/src/lib/packet-relationships.ts:59-322 | the same for putting all packets into one session without renaming them |
| `SessionMerging.MergedSessionsCanAddRelationships` | apps/desktop/src/models/session-file.ts:252-266 | a file of two sessions, without relationships, whose import has one: two JSON packets with one correlation id, for every analyser that finds it |
| `SessionMerging.PairOfOneSessionDisappears` | apps/desktop/src/lib/packet-relationships.ts:188-234 | a pair of one session whose token another session also carries loses its edge in the import, unless the token is on a pair overall |
| `Environment.RedactEnvironmentSecrets` | apps/desktop/src/models/environment.ts:290-302 | the loop masks the non-empty secrets one after another, and does nothing without an environment |
| `Environment.SecretsAreHiddenIffSafe` | apps/desktop/src/models/environment.ts:290-302 | every secret is hidden in every text, in any order and for any choice of variables, iff none begins or ends with `*` or contains `****`; so always when none contains `*` |
| `Environment.SafeSecretsAreHidden` | apps/desktop/src/models/environment.ts:290-302 | a safe secret never survives, whatever the other variables, their order, overlap or nesting |
| `Environment.OneSecretIsHiddenIffSafe` | apps/desktop/src/models/environment.ts:290-302 | for a single secret the condition is exact, with a leaking text for each way to fail |
| `Environment.OtherTextIsKept` | apps/desktop/src/models/environment.ts:290-302 | text that shows no secret is not changed |
| `Environment.RedactionReplacesInOrder` | apps/desktop/src/models/environment.ts:290-302 | redaction replaces every occurrence of each secret, from the left, one secret after another, and keeps every other character |
| `DocumentKeys.CreateUniqueKey` | apps/desktop/src/lib/asyncapi-export.ts:339-350 | the loop ends with a key that is neither in the record nor inherited by it |
| `DocumentKeys.UniqueKeyIsFirstUnused` | apps/desktop/src/lib/asyncapi-export.ts:339-350 | it is the first unused one of base, base_2, base_3, … and the only such name |
| `DocumentKeys.FewTries` | apps/desktop/src/lib/asyncapi-export.ts:344-347 | at most one more name is tried than there are taken ones |
| `DocumentKeys.SanitizedIsClean` | apps/desktop/src/lib/asyncapi-export.ts:352-360 | sanitised keys have only key characters, no underscore at an end and never two in a row |
| `DocumentKeys.SanitizedIsItsWords` | apps/desktop/src/lib/asyncapi-export.ts:352-360 | a sanitised key is the words of the name, stretches of letters, digits and dashes, with single underscores between them |
| `AsyncApi.CreateEventGroups` | apps/desktop/src/lib/asyncapi-export.ts:173-207 | the counting loop and the sort give one group per direction and event name that occurs, with its first packet as example |
| `AsyncApi.CountsAddUp` | apps/desktop/src/lib/asyncapi-export.ts:173-207 | the groups' packet counts add up to the packets grouped |
| `AsyncApi.GroupsAreOrdered` | apps/desktop/src/lib/asyncapi-export.ts:200-206 | most packets first, then by name |
| `AsyncApi.CreateAsyncApiDocument` | apps/desktop/src/lib/asyncapi-export.ts:69-171 | the key loop over the first 80 groups writes one entry per group under its key, and counts over all groups |
| `AsyncApi.OneEntryPerGroup` | apps/desktop/src/lib/asyncapi-export.ts:87-135 | channels, messages and operations each have exactly one entry per exported group, none under an inherited name |
| `AsyncApi.EveryReferenceResolves` | apps/desktop/src/lib/asyncapi-export.ts:93-115 | every message and channel reference leads to the entry of the same group |
| `AsyncApi.DocumentedCountsAddUpIffNothingIsCut` | apps/desktop/src/lib/asyncapi-export.ts:87-158 | the counts written at the entries add up to the document's count iff there are at most 80 groups |
| `AsyncApi.CreateAsyncApiDraftExport` | apps/desktop/src/lib/asyncapi-export.ts:35-67 | event and packet counts agree between the export and its document, and count exactly the session's packets |
| `DocumentMeaning.EventsAreDocumented` | apps/desktop/src/lib/asyncapi-export.ts:87-135 | each of the first 80 events has a channel at its name, an operation that receives what came in and sends what went out, and the message they lead to, under keys made from its name, with its number of packets and its first packet |
| `DocumentMeaning.GroupsShowEvents` | apps/desktop/src/lib/asyncapi-export.ts:173-207 | every group counts exactly the packets with its direction and event name, an empty name counting as unknown, and shows the first of them |
| `DocumentMeaning.EventsAreGrouped` | apps/desktop/src/lib/asyncapi-export.ts:173-207 | and every event among the packets has such a group |
| `DocumentMeaning.OnlyTheSession` | apps/desktop/src/lib/asyncapi-export.ts:42-44 | what is grouped are exactly the session's packets, oldest first |
| `DocumentMeaning.AtMostEighty` | apps/desktop/src/lib/asyncapi-export.ts:87 | the first 80 groups are written, and all if there are no more |

## Left out

- ConnectionStore.ConnectionStoreObject.DoSaveConnection: validating and naming the endpoint is an event's answer, and the list of saved connections is not modelled, because no safety property depends on it.
- ProxyProtocol.SessionIdsDistinct: the registry's `fetch_add` is one atomic step, which is all its relaxed ordering promises for one counter.
- ProxyManager.ProxyManagerObject.IncrementActiveConnections: the width of the counter is not modelled, because it would take 2^64 connections to overflow.
- RelationshipRenaming.ImportCommutesWithIndexing: an edge's id is the tuple of its fields, because as text the separators inside ids could collide.
- RelationshipMeaning.IndexIsExact: for packets with different ids, which every packet the application creates has.
- SessionMerging.ImportKeepsEdgesIff: for files whose packets have different ids, as everything the application records does; reading a file does not check that.
- PacketGrouping.NewerPacketsKeepGroupIds: a group's id is the tuple of kind, key and last packet id, for the same reason.
- SocketIo.ParseSocketIoFrame: the parsed data, event name and preview derived from `rawData` are not modelled; numbers from 2^53 on are read through an unspecified rounding.
- PacketAnnotations.NoteIsKeptIff: characters are Unicode characters, while the cut in the source counts UTF-16 units and could split one outside the basic plane.
- SessionFileRoundTrip.FileReadsBackIff: works on JSON trees; that `JSON.stringify` and `JSON.parse` agree on them is the library's.
- SessionFile.ParsePacketList: an absent and a null replay source are one value, because every reader treats them alike.
- AsyncApi.CreateAsyncApiDocument: payload schemas, examples' trimming and the texts of summaries are not modelled, only keys, references, counts and the example's packet.
- PacketStore.PacketStoreObject.Trim: the retention warning and the retention limit changing during a run are not modelled.
- `updatePacketAnnotations` of the packet store, which edits packets in place without moving them.
- What a payload decodes to (event names, statuses, tokens): a function of payload and payload kind about which nothing is assumed.
- Actual sockets, TCP accept and the WebSocket handshake of the proxy, timers and clocks: they are events in any order.
- Liveness of a proxy shutdown: handlers subscribe after they are spawned and can miss the signal.
- Repeated-event flows, flow titles, deduplication and the order of flows.
- `interpolateEnvironmentVariables`, settings, filters, diagnostics, plugins, demo scripts and all of the user interface.
- YAML text, file names and URL parsing in the exports.
