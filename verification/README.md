# Verified model of the mosquitto broker core

This Dafny project models the MQTT broker that the repository bundles (mosquitto 1.3.5,
MQTT 3.1 and 3.1.1) and two smaller cores beside it, and proves what they guarantee. Run
`dafny verify dfyconfig.toml` to check it.

The parts, from the bottom up:

- **Topics and filters** (`Topics`, `TopicScan`): tokeniser, wildcard checks and the level
  rule of section 4.7 of MQTT 3.1.1, and the character scan used for access control, with
  the exact set of cases in which it is stricter than the rule.
- **Subscription tree** (`Hierarchy`, `HierarchyLaws`, `HierarchySearch`, `SubTree`,
  `SubHier`): the walks over the tree as functions on values, their refinement of a flat
  table of subscriptions and retained messages over all runs, and the linked nodes edited in
  place, proved to do what those functions say.
- **Queues and message store**. `Queues` and `Broker` say what each entry point does to the
  data; `Database` does it imperatively, loop by loop, and is proved equal (`Release`: its PUBREL
  loop ends in every state). `Rules` writes out, as comparisons and states, when a client takes a
  message, in which state an entry enters a queue, and what each event makes of it; `Delivery`,
  `Publishes`, `Subscribes`, `Acks`, `Handovers`, `Writes` and `SessionLaws` prove what each entry
  point comes to in terms of these rules, of `Matches`, and of the tables of subscriptions and
  retained messages, and `Steps` puts it together: every step of every run does exactly that.
  `BrokerLaws` and `BrokerOps` keep one invariant through every step, and `BrokerRuns`,
  `DeliveryRuns`, `Pubrel` and `RunData` draw from it what holds after every run: the in-flight
  limit, exact reference counts, exactly-once hand-over of QoS 2 messages, no duplicate inserts,
  the order of PUBLISH, PUBREC and PUBREL with the DUP flag, agreement of the counters, distinct
  client ids, and texts and flags of what is stored. `BrokerEdges` gives the exact conditions
  where these guarantees end, and `BrokerWitness` and `WriteWitness` runs that meet them.
- **Wire** (`Wire`, `Packets`, `Streams`, `Connections`): the length field and PUBLISH as
  round trips; packet buffers; the resumable reader and writer, proved independent of how the
  socket cuts the stream, and put together end to end.
- **Persistence** (`PersistFormat`, `Persist`, `PersistLaws`, `PersistTree`,
  `PersistTheorem`, `PersistNames`, `PersistRuns`, `PersistDamage`, `PersistWrite`,
  `PersistRead`): the file format and what is made of damaged files, backup and restore, the
  theorem that a restore rebuilds the lasting data, which filters keep their names in it, a
  restart after any run of the broker and the queues its clients resume, and the writers and
  readers that work field by field.
- **Sessions** (`Sessions`): contexts, slots, the client-id index and the owners of leaves,
  through accept, takeover, disconnect, expiry and cleanup.
- **Dictionary and energy** (`Dictionary`, `Energy`): the array dictionary of iniparser as a
  finite map, and the wrapping RAPL package counters as a conservation law.

Where the code falls short of the obvious claim, the claim is proved with its exact condition:
`TopicMatchesSub` (less the missed cases), `RetainQueueExact` (less the skipped paths),
`PubrecKeepsBound`, `PublishOnceNeedsFreshId`, `ReconnectAt` with `ReconnectSurprises`,
`WriteMeetsNoTopic` with `ReconnectMeetsNoTopic`, `WriteAgain`, `PurgeCountsIff` with
`PurgesNothing`, `ScheduleFreeIff`, `DeclaredIsExact`, `RestartKeepsFilters`, `SampleTracks` and
`EnergyCounted`. Concrete inputs, as whole runs where the broker's state matters, are in
`ScanIsStricter`, `RetainQueueCanMiss`, `PubrecCanBreakBound`, `ReusedIdIsMet`, `NoTopicIsMet`,
`SecondPassLetsIn` and `ZeroCommandDependsOnSchedule`. The comment above
`dictionary_set` says that setting a value to NULL deletes the variable and that a key without
value is impossible; the code keeps such a key with a NULL value, and so does the model.

Runs of the broker (`BrokerRuns.Event`) are sequences of connects, takeovers, disconnects,
expiries, subscriptions, publishes, acknowledgements, writes, retries and store sweeps, each
with any access rules. The clients are held to two rules of the protocol only: no QoS 1
PUBLISH under a packet id with an open QoS 2 handshake, and no PUBREC for a message that was
not published. A client whose connection is closed sends nothing until it connects again; a
refused QoS 2 message that finds no room in the window closes it, as the main loop does on the
code handed up to it (`BrokerRuns.RefusalFails`). A CONNECT under a known client id is a
takeover, and a run ends where the code would stop at the assertion on a missing topic. Access
checks, the outcome of each call on a socket, the entries whose retry time has come, and the
time of a restore are parameters. Allocation succeeds, and a freed message is one that is no
longer in the store.

## Model

| member | source | states |
|---|---|---|
| Topics.Tokenise | powmon/lib/mosquitto-1.3.5/src/subs.c:154-243 | One pass over the characters yields the levels of the string between its '/' characters, led by an empty token unless it starts with '$'. |
| Topics.TokensInjective | powmon/lib/mosquitto-1.3.5/src/subs.c:154-243 | Different strings have different token lists, so a filter is known by its path in the tree. |
| Topics.JoinOfSplit | powmon/lib/mosquitto-1.3.5/src/subs.c:154-243 | Joining the levels gives the string back, and no level holds a '/'. |
| Topics.SplitOfJoin | powmon/lib/mosquitto-1.3.5/src/subs.c:154-243 | Levels without '/' survive joining and splitting. |
| Topics.WildcardLenCheck | powmon/lib/mosquitto-1.3.5/lib/util_mosq.c:163-176 | Accepts exactly the topics of at most 65535 characters in which no level holds a wildcard. |
| Topics.WildcardPosCheck | powmon/lib/mosquitto-1.3.5/lib/util_mosq.c:183-204 | Accepts exactly the filters of at most 65535 characters in which a wildcard fills its level and '#' stands last. |
| Topics.MatchesIsByPosition | powmon/lib/mosquitto-1.3.5/src/subs.c:353-383 | The recursive level rule equals the positional reading of section 4.7 of MQTT 3.1.1: levels pair up, '+' takes any one, a final '#' any rest, also none. |
| TopicScan.TopicMatchesSub | powmon/lib/mosquitto-1.3.5/lib/util_mosq.c:207-282 | For well-formed filter and topic the character scan answers true exactly when the level rule matches and the case is none of the two it misses; an empty topic never matches a non-empty filter, and two empty strings leave the answer untouched. |
| TopicScan.ScanAnswers | powmon/lib/mosquitto-1.3.5/lib/util_mosq.c:230-276 | The loop, from any point of filter and topic on, decides the level rule less the missed cases. |
| TopicScan.ScanIsStricter | powmon/lib/mosquitto-1.3.5/lib/util_mosq.c:207-282 | Both missed families exist: `a/#` on `a/`, and `+/#` on `a`. |
| HierarchyLaws.AddLookup | powmon/lib/mosquitto-1.3.5/src/subs.c:245-304 | `_sub_add` changes what is found at its own path for its own client, and nothing at any other path or for any other client. |
| HierarchyLaws.AddCounts | powmon/lib/mosquitto-1.3.5/src/subs.c:245-304 | The number of leaves grows by one exactly when the client was not subscribed there; no retained message is touched. |
| HierarchyLaws.RemoveLookup | powmon/lib/mosquitto-1.3.5/src/subs.c:306-351 | `_sub_remove`, with its pruning, drops one client at one path and changes no other subscription or retained message. |
| HierarchyLaws.RemoveCounts | powmon/lib/mosquitto-1.3.5/src/subs.c:306-351 | The number of leaves falls by one exactly when there was a subscription to remove. |
| HierarchyLaws.CleanLookup | powmon/lib/mosquitto-1.3.5/src/subs.c:503-553 | `_subs_clean_session` drops every leaf of the client at every path and nothing else. |
| HierarchyLaws.CleanPrunes | powmon/lib/mosquitto-1.3.5/src/subs.c:503-553 | After a clean every node below holds a subscription or a retained message somewhere in its subtree. |
| HierarchySearch.VisitsExact | powmon/lib/mosquitto-1.3.5/src/subs.c:353-383 | A publish search serves a leaf at path p once if p matches the topic levels and the leaf is there, and otherwise never. |
| HierarchySearch.RetainsLookup | powmon/lib/mosquitto-1.3.5/src/subs.c:353-383 | The search stores or clears the retained message at the topic's own node only. |
| HierarchySearch.RecallExact | powmon/lib/mosquitto-1.3.5/src/subs.c:625-666 | `_retain_search` finds each matching retained message once, except at the paths that the two blind spots of the walk skip. |
| SubTree.SubAddEffect | powmon/lib/mosquitto-1.3.5/src/subs.c:385-437 | Subscribing sets one entry of the table (filter, client) to QoS, leaves retained messages alone, and keeps the tree well formed and both counters exact. |
| SubTree.SubRemoveEffect | powmon/lib/mosquitto-1.3.5/src/subs.c:439-467 | Unsubscribing deletes one entry of that table and nothing else. |
| SubTree.CleanSessionEffect | powmon/lib/mosquitto-1.3.5/src/subs.c:557-568 | Cleaning a session deletes exactly the client's entries and leaves no dead node below the tops. |
| SubTree.RetainPublishEffect | powmon/lib/mosquitto-1.3.5/src/subs.c:469-501 | A retained publish changes the retained message of its own topic and of no other; an empty payload clears it. |
| SubTree.RetainPublishCounts | powmon/lib/mosquitto-1.3.5/src/subs.c:87-107 | The tree's references to each message, and `retained_count`, move with that one node. |
| SubTree.SubsKeepRetained | powmon/lib/mosquitto-1.3.5/src/subs.c:385-568 | Subscribing, unsubscribing and cleaning never change how often a message is retained. |
| SubTree.SubAddReaches | powmon/lib/mosquitto-1.3.5/src/subs.c:385-437 | After subscribing, the filter's node exists, as the retained search needs. |
| SubTree.RouteExact | powmon/lib/mosquitto-1.3.5/src/subs.c:469-501 | On any valid tree, a publish serves the subscription at path p exactly once if p matches the topic and never otherwise. |
| SubTree.RetainQueueExact | powmon/lib/mosquitto-1.3.5/src/subs.c:668-695 | On subscribe each matching retained message that is not skipped is queued once, and no other. |
| SubTree.NothingSkipped | powmon/lib/mosquitto-1.3.5/src/subs.c:625-666 | Nothing that matches is skipped when the filter is in the tree and does not hold both '+' and '#'. |
| SubTree.RetainQueueCanMiss | powmon/lib/mosquitto-1.3.5/src/subs.c:625-666 | After messages were retained under `a` and `b`, a subscription to `+/#` is not sent the matching message of `a`. |
| SubTree.ApplyRefines | powmon/lib/mosquitto-1.3.5/src/subs.c:385-568 | Each operation on the tree is one edit of a flat table of subscriptions and retained messages. |
| SubTree.RunRefines | powmon/lib/mosquitto-1.3.5/src/subs.c:385-568 | After any run of operations the tree holds exactly what the flat table holds. |
| SubTree.RunRoutesExactly | powmon/lib/mosquitto-1.3.5/src/subs.c:353-501 | After any run, a publish serves a subscription exactly once when its filter matches by the level rule and the table has it, and otherwise never. |
| SubHier.Node.FindChild | powmon/lib/mosquitto-1.3.5/src/subs.c:282-290 | The loop finds the first child with the token, or the end of the list. |
| SubHier.Node.Add | powmon/lib/mosquitto-1.3.5/src/subs.c:245-304 | In place, on linked nodes: the new subtree is that of the value-level walk, and the result tells whether the leaf is new. |
| SubHier.Node.PutSubscriber | powmon/lib/mosquitto-1.3.5/src/subs.c:252-276 | The leaf list gets the leaf at its end, or a new QoS for a leaf it has. |
| SubHier.Node.Remove | powmon/lib/mosquitto-1.3.5/src/subs.c:306-351 | In place: the new subtree is that of the value-level walk, and the result tells whether a leaf went. |
| SubHier.Node.Prune | powmon/lib/mosquitto-1.3.5/src/subs.c:336-345 | A child is unlinked exactly if it has no children, no leaves and no retained message. |
| SubHier.Node.Clean | powmon/lib/mosquitto-1.3.5/src/subs.c:503-553 | In place, with unlinking inside the loop: the cleaned subtree, and by how much `subscription_count` falls. |
| SubHier.Node.Search | powmon/lib/mosquitto-1.3.5/src/subs.c:353-383 | The loop over the children visits what the value-level search visits, in that order, and leaves the tree it leaves. |
| SubHier.Node.Process | powmon/lib/mosquitto-1.3.5/src/subs.c:87-107 | Stores or clears the retained message only on the topic's own node, and reports the change of `retained_count`. |
| SubHier.Node.RetainSearch | powmon/lib/mosquitto-1.3.5/src/subs.c:625-666 | The loop finds what the value-level search finds, and its flag is set exactly for `#` with children. |
| SubHier.Tree.constructor | powmon/lib/mosquitto-1.3.5/src/database.c:62-104 | Two tops, for ordinary topics and for `$SYS`, and zero counters. |
| SubHier.Tree.SubAdd | powmon/lib/mosquitto-1.3.5/src/subs.c:385-437 | The heap tree after subscribing is the value-level one, counters included; a missing top is linked in front. |
| SubHier.Tree.SubRemove | powmon/lib/mosquitto-1.3.5/src/subs.c:439-467 | The heap tree after unsubscribing is the value-level one, counters included. |
| SubHier.Tree.CleanSession | powmon/lib/mosquitto-1.3.5/src/subs.c:557-568 | The heap tree after a clean is the value-level one, counters included. |
| SubHier.Tree.MessagesQueue | powmon/lib/mosquitto-1.3.5/src/subs.c:469-501 | The nodes a publish stops at, in order, and the tree and counters it leaves. |
| SubHier.Tree.RetainQueue | powmon/lib/mosquitto-1.3.5/src/subs.c:668-695 | The retained messages queued for a new subscription. |
| Queues.WindowBounds | powmon/lib/mosquitto-1.3.5/src/database.c:285-337 | A list that splits as described has at most max_inflight outbound entries above QoS 0 in flight. |
| Queues.AppendKeepsOk | powmon/lib/mosquitto-1.3.5/src/database.c:346-368 | Appending keeps counts, tail pointer and window, if the entry is queued or finds room. |
| Queues.DropKeepsOk | powmon/lib/mosquitto-1.3.5/src/database.c:166-195 | Unlinking any entry keeps counts, tail pointer and window. |
| Queues.EditKeepsOk | powmon/lib/mosquitto-1.3.5/src/database.c:197-242 | A state change keeps them unless it puts a queued outbound entry beyond the window in flight. |
| Queues.LawfulMeans | powmon/lib/mosquitto-1.3.5/src/database.c:779-835 | In a lawful wire history no PUBLISH follows a handled PUBREC without a reconnect between, and DUP is set on every PUBLISH but the first. |
| Rules.PlacedOut | powmon/lib/mosquitto-1.3.5/src/database.c:285-337 | When a client takes an outbound message and in which state, as comparisons: connected with room in the window it is sent at once (PublishQos0, 1 or 2 by QoS), without room it is queued below the limit; not connected it is queued below the limit, at QoS 0 only if that is configured; else it is not taken. |
| Rules.PlacedIn | powmon/lib/mosquitto-1.3.5/src/database.c:285-337 | The same for an inbound message, which waits for PUBREL if there is room and is queued otherwise. |
| Rules.ChosenIs | powmon/lib/mosquitto-1.3.5/src/subs.c:119-128 | The QoS sent is that of the subscription where upgrading is configured, and otherwise the smaller of message and subscription. |
| Rules.PromotedIs | powmon/lib/mosquitto-1.3.5/src/database.c:209-230 | A queued entry that moves into the window: outbound a PUBLISH of its QoS to send, inbound at QoS 2 waiting for PUBREL. |
| Rules.ResetIs | powmon/lib/mosquitto-1.3.5/src/database.c:571-604 | An entry at a reconnect: an outbound handshake that waits for PUBCOMP goes on with PUBREL, any other outbound entry in flight starts over, queued and inbound ones stay. |
| Rules.TimedOutIs | powmon/lib/mosquitto-1.3.5/src/database.c:648-668 | An entry whose answer is late: what waits for PUBACK, PUBREC, PUBREL or PUBCOMP is to be sent again, with DUP. |
| Rules.IdsDiffer | powmon/lib/mosquitto-1.3.5/lib/util_mosq.c:149-157 | Packet ids come in turn: two drawn k draws apart are equal exactly if 65535 divides k, and none is 0. |
| BrokerLaws.ExchangeKeepsInv | powmon/lib/mosquitto-1.3.5/src/database.c:166-400 | What replacing one client's list and one stored message must satisfy to keep counts, references, windows and the exactly-once account. |
| BrokerLaws.EntryIsStored | powmon/lib/mosquitto-1.3.5/src/database.c:869-903 | Every queue entry refers to a message that is still stored. |
| BrokerOps.InsertKeepsInv | powmon/lib/mosquitto-1.3.5/src/database.c:244-400 | Insert keeps the invariant, for outbound messages always and for inbound ones under a packet id not in use; what it does: `Delivery.SendHere`, `Publishes.PublishWaits`. |
| BrokerOps.DistributeKeepsInv | powmon/lib/mosquitto-1.3.5/src/subs.c:469-501 | Routing keeps the invariant and only appends outbound entries. |
| BrokerOps.KeepCounts | powmon/lib/mosquitto-1.3.5/src/subs.c:94-106 | The reference counts and the tree change together when a retained message changes hands. |
| BrokerOps.StoreMessageKeepsInv | powmon/lib/mosquitto-1.3.5/src/database.c:459-531 | A message is stored under an id that is not in use and that no queue entry or tree node refers to, and the invariant is kept. |
| BrokerOps.HandlePublishKeepsInv | powmon/lib/mosquitto-1.3.5/src/read_handle.c:231-286 | PUBLISH keeps the invariant, duplicates and refused messages included; what it does: `Publishes.PublishHands`, `Publishes.PublishWaits`. |
| BrokerOps.DeleteKeepsInv | powmon/lib/mosquitto-1.3.5/src/database.c:197-242 | PUBACK and PUBCOMP, with the promotion of queued entries, keep the invariant. |
| BrokerOps.HandlePubrecKeepsInv | powmon/lib/mosquitto-1.3.5/src/database.c:402-416 | PUBREC for a published message keeps the invariant. |
| BrokerOps.ReleaseKeepsInv | powmon/lib/mosquitto-1.3.5/src/database.c:680-745 | PUBREL, routing into the list it runs over, keeps the invariant. |
| BrokerOps.ResetRecounts | powmon/lib/mosquitto-1.3.5/src/database.c:554-606 | With inbound entries of QoS 2 only, the first pass skips no entry and ends with the counters it would compute afresh. |
| BrokerOps.ReconnectResetKeepsInv | powmon/lib/mosquitto-1.3.5/src/database.c:554-631 | Reconnect keeps the invariant, the in-flight window included. |
| BrokerOps.DiscardKeepsInv | powmon/lib/mosquitto-1.3.5/src/context.c:141-190 | Discarding a session keeps the invariant; what it does: `SessionLaws.DiscardEffect`. |
| BrokerOps.TimeoutKeepsInv | powmon/lib/mosquitto-1.3.5/src/database.c:633-678 | The retry pass keeps the invariant; what it does: `SessionLaws.TimeoutRetries`. |
| BrokerOps.WriteKeepsInv | powmon/lib/mosquitto-1.3.5/src/database.c:747-867 | The write loop keeps the invariant however many packets the connection takes, also where it goes on behind a message without a topic; what it does: `Writes.WritePass`. |
| BrokerOps.StoreCleanKeepsInv | powmon/lib/mosquitto-1.3.5/src/database.c:869-903 | A sweep frees exactly the messages without a reference and keeps the invariant. |
| BrokerOps.HandleSubscribeKeepsInv | powmon/lib/mosquitto-1.3.5/src/read_handle_server.c:577-716 | SUBSCRIBE with its retained messages keeps the invariant; what it does: `Subscribes.SubscribeRecalls`. |
| BrokerOps.HandleUnsubscribeKeepsInv | powmon/lib/mosquitto-1.3.5/src/read_handle_server.c:718-764 | UNSUBSCRIBE keeps the invariant. |
| BrokerOps.TakeOverKeepsInv | powmon/lib/mosquitto-1.3.5/src/read_handle_server.c:391-433 | Session takeover, clean or persistent, keeps the invariant; what it does: `SessionLaws.CleanTakeOver`, `SessionLaws.PersistentTakeOver`. |
| BrokerRuns.NextKeepsInv | powmon/lib/mosquitto-1.3.5/src/read_handle.c:47-86 | Every event of the runs keeps the invariant. |
| BrokerRuns.InFlightBound | powmon/lib/mosquitto-1.3.5/src/database.c:285-337 | After every run no client has more than max_inflight outbound messages above QoS 0 in flight. |
| BrokerRuns.ReferencesExact | powmon/lib/mosquitto-1.3.5/src/database.c:346-368 | After every run each reference count is the number of queue entries and tree nodes with the message, and nothing refers to a freed message. |
| BrokerRuns.AcceptedOnce | powmon/lib/mosquitto-1.3.5/src/read_handle.c:231-266 | After every run an accepted QoS 2 message is queued once, or was handed to the tree once, or went with its session, or was refused; a client has at most one handshake per packet id. |
| BrokerRuns.InsertedOnce | powmon/lib/mosquitto-1.3.5/src/database.c:262-271 | With duplicates off, a message is inserted at most once per client id, however many of its filters overlap. |
| BrokerRuns.OutboundHistory | powmon/lib/mosquitto-1.3.5/src/database.c:779-835 | After every run: no PUBLISH behind a handled PUBREC unless the client reconnected between, DUP clear on the first PUBLISH and set on all later ones. |
| BrokerRuns.CountersAgree | powmon/lib/mosquitto-1.3.5/src/database.c:554-606 | After every run the two counters and the tail pointer agree with the list, inbound entries have QoS 2, and the reconnect pass skips none. |
| Pubrel.PubrelHandsOver | powmon/lib/mosquitto-1.3.5/lib/read_handle_shared.c:147-195 | PUBREL hands the message of its handshake to the tree, which had not got it before, and leaves no handshake under the id. |
| Release.ReleasedLeft | powmon/lib/mosquitto-1.3.5/src/database.c:680-745 | In any state, reachable or not: ending a handshake leaves at least one fewer under its packet id at its place or behind it, although routing changes the list meanwhile. |
| Pubrel.ReleaseEmpties | powmon/lib/mosquitto-1.3.5/src/database.c:680-745 | When the release loop ends no inbound entry with the packet id is left. |
| BrokerEdges.PubrecKeepsBound | powmon/lib/mosquitto-1.3.5/src/database.c:402-416 | The in-flight limit survives a PUBREC exactly unless the window is full and the named entry is still queued. |
| BrokerWitness.PubrecCanBreakBound | powmon/lib/mosquitto-1.3.5/src/database.c:402-416 | After a run of connect, subscribe, two QoS 2 messages and one write, a PUBREC for the message not yet sent exceeds the limit. |
| BrokerEdges.ReusedIdRoutesAgain | powmon/lib/mosquitto-1.3.5/src/read_handle.c:231-262 | A QoS 1 PUBLISH under the id of an open handshake hands that handshake's message over a second time. |
| BrokerWitness.ReusedIdIsMet | powmon/lib/mosquitto-1.3.5/src/read_handle.c:231-262 | After connect and a QoS 2 PUBLISH the id is in use, and a QoS 1 PUBLISH under it breaks the exactly-once account. |
| BrokerEdges.PublishOnceNeedsFreshId | powmon/lib/mosquitto-1.3.5/src/read_handle.c:231-266 | PUBLISH keeps the exactly-once account exactly when it is refused or keeps the rule about packet ids in use. |
| BrokerEdges.ReconnectAt | powmon/lib/mosquitto-1.3.5/src/database.c:554-631 | A reconnect removes no entry and changes each by itself, as a function of the entry and its place. |
| BrokerEdges.ReconnectSurprises | powmon/lib/mosquitto-1.3.5/src/database.c:576-628 | An inbound entry is made a PUBLISH to send exactly if it was queued within the window; a handshake about to repeat PUBREL starts over with PUBLISH. |
| BrokerEdges.WriteMeetsNoTopic | powmon/lib/mosquitto-1.3.5/src/database.c:765-814 | On a connection that takes every packet the write loop comes to a message without a topic, which the encoder asserts not to get, exactly if an entry in a PUBLISH state refers to one. |
| BrokerEdges.ReconnectMeetsNoTopic | powmon/lib/mosquitto-1.3.5/src/database.c:554-631 | After a reconnect it does so exactly if the reconnect left such a message in a PUBLISH state; of inbound entries these are the refused ones that were queued within the window. |
| BrokerWitness.NoTopicIsMet | powmon/lib/mosquitto-1.3.5/lib/send_mosq.c:110-111 | With a window of one, two QoS 2 messages are refused; the second has to wait, and its return code makes the broker close the connection. The client comes back, releases the first and comes back once more: the write loop comes to the second, which has no topic. |
| BrokerEdges.PurgeKeepsRefs | powmon/lib/mosquitto-1.3.5/src/read_handle_server.c:441-466 | The purge at CONNECT keeps the reference counts exact. |
| BrokerEdges.PurgeCountsIff | powmon/lib/mosquitto-1.3.5/src/read_handle_server.c:441-466 | The purge keeps counters and tail pointer right exactly when it unlinks nothing. |
| BrokerEdges.PurgesNothing | powmon/lib/mosquitto-1.3.5/src/read_handle_server.c:441-466 | It unlinks nothing exactly when no outbound message is denied to the client. |
| SessionLaws.PurgeLeaves | powmon/lib/mosquitto-1.3.5/src/read_handle_server.c:441-466 | The purge leaves exactly the entries the client may still have, in their order, with counters and tail pointer as they were. |
| Delivery.LeavesMet | powmon/lib/mosquitto-1.3.5/src/subs.c:353-383 | The leaves a publish meets are exactly the subscriptions whose filter matches the topic. |
| Delivery.MakePathEffect | powmon/lib/mosquitto-1.3.5/src/subs.c:484-490 | Making the path of a retained topic subscribes nobody and keeps the tree valid. |
| Delivery.NotServed | powmon/lib/mosquitto-1.3.5/src/subs.c:108-150 | A client none of whose leaves is met, or which may not read the topic, is left exactly as it was. |
| Delivery.SendHere | powmon/lib/mosquitto-1.3.5/src/database.c:244-400 | One message sent to a client that has not got it: one entry more behind its queue, in the state the rules tell, exactly if the rules say that it takes it. |
| Delivery.SendDraws | powmon/lib/mosquitto-1.3.5/src/subs.c:130-134 | A packet id is drawn for every message above QoS 0, also for one that is not taken; the entry has it. |
| Delivery.Served | powmon/lib/mosquitto-1.3.5/src/subs.c:108-150 | The loop over leaves brings a client that may read an entry for the first leaf it has room for, or with duplicates for each it has room for when its turn comes, in the order of the leaves. |
| Delivery.LookedMeans | powmon/lib/mosquitto-1.3.5/src/subs.c:108-150 | A client is looked at through a leaf only if it is subscribed to the topic with its QoS; and through every such leaf, as long as no access check ends in an error. |
| Delivery.LookedOnce | powmon/lib/mosquitto-1.3.5/src/subs.c:353-383 | As long as no access check ends in an error, a publish looks at one leaf for each subscription whose filter matches the topic, and at no other. |
| Delivery.MessageShares | powmon/lib/mosquitto-1.3.5/src/subs.c:469-501 | A message handed to the tree lengthens each client's queue by its share and by nothing else: nothing for a client that may not read the topic or that has the message and shall not get it twice. |
| Delivery.ShareOnce | powmon/lib/mosquitto-1.3.5/src/subs.c:469-501 | With duplicates off and no failing check, the share is one entry, of the QoS and state the rules tell for one of the client's matching subscriptions, exactly if it may read the topic and has one it has room for; otherwise it is nothing. |
| Publishes.TreeKeeps | powmon/lib/mosquitto-1.3.5/src/subs.c:87-107 | With the retain flag the message (nothing, if it has no payload) is what is retained at its topic, if the tree has the top of the topic; at every other path, and for every subscription, nothing changes. |
| Publishes.MessageHanded | powmon/lib/mosquitto-1.3.5/src/subs.c:469-501 | Both together: every client gets its share and the tree keeps the message. |
| Publishes.FindsHandshake | powmon/lib/mosquitto-1.3.5/src/database.c:533-550 | The search for a stored message finds the handshake that is open under the packet id, exactly if there is one. |
| Publishes.PublishHands | powmon/lib/mosquitto-1.3.5/src/read_handle.c:244-250 | A PUBLISH of QoS 0 or 1, under a packet id with no open handshake, is stored as it came under a new id and handed to the tree at once. |
| Publishes.PublishHandsOld | powmon/lib/mosquitto-1.3.5/src/read_handle.c:231-250 | At QoS 1 under the id of an open handshake it is the message of that handshake that is handed to the tree. |
| Publishes.PublishWaits | powmon/lib/mosquitto-1.3.5/src/read_handle.c:251-286 | A PUBLISH of QoS 2 puts one inbound entry behind the sender's queue if it has room, changes no other client and nothing in the tree, and is stored as it came, or without topic if it was refused; its repetition changes nothing. |
| Publishes.RefusedVanishes | powmon/lib/mosquitto-1.3.5/src/read_handle.c:267-286 | A refused PUBLISH of QoS 0 or 1 changes nothing. |
| Subscribes.RetainQueueRecalls | powmon/lib/mosquitto-1.3.5/src/subs.c:625-695 | The search finds every retained message whose topic matches the filter, but for those it skips, each once. |
| Subscribes.SubscribeRecalls | powmon/lib/mosquitto-1.3.5/src/read_handle_server.c:577-716 | SUBSCRIBE sets the QoS of one client and filter; the retained messages that match and are not skipped come behind the queue of the client, each once, flagged as retained, with the smaller QoS of the two and in the state the rules tell, as far as it may read them and has room; no other client and no retained message changes. |
| Subscribes.RecallsAll | powmon/lib/mosquitto-1.3.5/src/subs.c:601-623 | With no limit to the queue every matching message the client may read stands there in exactly one place, and no other does. |
| Subscribes.UnsubscribeRemoves | powmon/lib/mosquitto-1.3.5/src/read_handle_server.c:718-764 | UNSUBSCRIBE deletes the subscription of one client and filter and changes nothing else. |
| SessionLaws.DiscardEffect | powmon/lib/mosquitto-1.3.5/src/context.c:141-190 | A discarded session has an empty queue, zero counters and no subscription; each message gives up as many references as the queue had entries with it; nothing else changes. |
| SessionLaws.CleanTakeOver | powmon/lib/mosquitto-1.3.5/src/read_handle_server.c:391-433 | CONNECT with a clean session under a known id: the client is connected with an empty queue, zero counters and no subscription; other clients, subscriptions and retained messages are as before. |
| SessionLaws.PersistentTakeOver | powmon/lib/mosquitto-1.3.5/src/read_handle_server.c:391-433 | CONNECT with the session kept: the client is connected, each entry is restarted where it stands, and nothing else changes. |
| SessionLaws.ExpireRemoves | powmon/lib/mosquitto-1.3.5/src/loop.c:218-235 | A session that ends goes from the table, with its subscriptions and references; the others stay in their order. |
| SessionLaws.PubrecConfirms | powmon/lib/mosquitto-1.3.5/src/database.c:402-416 | PUBREC makes the first outbound entry with its id wait for PUBCOMP, and changes nothing else. |
| SessionLaws.TimeoutRetries | powmon/lib/mosquitto-1.3.5/src/database.c:633-678 | The retry pass makes every late entry of every client sendable again, with DUP, and changes nothing else. |
| SessionLaws.SweepKeepsUsed | powmon/lib/mosquitto-1.3.5/src/database.c:869-903 | The sweep keeps exactly the messages that a queue entry or a tree node refers to, as they are. |
| Writes.WritePass | powmon/lib/mosquitto-1.3.5/src/database.c:747-867 | What one pass leaves of each entry when the connection takes a number of packets: QoS 0 is gone, PublishQos1 waits for PUBACK, PublishQos2 for PUBREC, SendPubrec for PUBREL, ResendPubrel for PUBCOMP, a queued inbound entry within the window is let in, the others, and all behind the last packet taken, are as they were; the order is kept. |
| Writes.WriteAgain | powmon/lib/mosquitto-1.3.5/src/database.c:747-867 | A second pass right behind one in which the connection took everything changes no entry but queued inbound ones, and changes nothing at all exactly if none of those has fewer than the window's inbound entries up to it. |
| WriteWitness.SecondPassLetsIn | powmon/lib/mosquitto-1.3.5/src/database.c:766-769 | It can change something: after a run of connect, subscribe, three messages for the client and two it publishes, with a window of three, the first pass lets in one of the two and the second pass the other, because the first counts the entry it lets in twice. |
| Handovers.PubrelReleases | powmon/lib/mosquitto-1.3.5/lib/read_handle_shared.c:147-195 | All that PUBREL does: for an open handshake every other client gets its share of the message, the tree keeps it if flagged so, and in the client's own queue, which may get a share too, the handshake is gone and queued entries within the window come into it; a refused message goes without a trace; with no handshake open only the window is filled. |
| Handovers.PubrelBrings | powmon/lib/mosquitto-1.3.5/src/database.c:680-745 | The case of an open handshake whose message has a topic. |
| Acks.AckExact | powmon/lib/mosquitto-1.3.5/src/database.c:197-242 | Whatever the number of entries with the packet id, PUBACK or PUBCOMP removes the first one it names, and of the others those with at most max_inflight unnamed entries before them; it keeps the order of the rest and makes sendable exactly the queued ones that now stand within the window. |
| Acks.AckOne | powmon/lib/mosquitto-1.3.5/src/database.c:197-242 | If one entry is named, that entry goes and no other. |
| Acks.AckUnknown | powmon/lib/mosquitto-1.3.5/src/database.c:197-242 | An acknowledgement whose packet id, other than 0, names nothing removes nothing, but still promotes queued entries. |
| Acks.AckElsewhere | powmon/lib/mosquitto-1.3.5/src/database.c:197-242 | No other client and nothing of the tree changes. |
| Acks.AckAcknowledges | powmon/lib/mosquitto-1.3.5/lib/read_handle_shared.c:80-116 | All that PUBACK and PUBCOMP do to clients and tree: the above, and nothing for packet id 0. |
| DeliveryRuns.IdsDistinct | powmon/lib/mosquitto-1.3.5/src/read_handle_server.c:391-434 | After every run no two clients have the same id. |
| DeliveryRuns.NewMessageShares | powmon/lib/mosquitto-1.3.5/src/subs.c:469-501 | After every run a will or a message of the broker itself brings every client its share. |
| Steps.StepDoes | powmon/lib/mosquitto-1.3.5/src/read_handle.c:47-86 | Each step of each run does what the rules tell: one statement for CONNECT, takeover, disconnect, expiry, SUBSCRIBE, UNSUBSCRIBE, PUBLISH at each QoS and refused, wills, PUBACK, PUBCOMP, PUBREC, PUBREL, writing, retrying and sweeping, of the whole state behind the step. |
| Steps.RefusalOverruns | powmon/lib/mosquitto-1.3.5/src/read_handle.c:281-291 | A refused PUBLISH costs its client the connection exactly if it has QoS 2, is no repetition, and does not fit the window. |
| Steps.PublishReaches | powmon/lib/mosquitto-1.3.5/src/read_handle.c:231-250 | In every run, without duplicates and failing checks: a PUBLISH of QoS 0 or 1 brings a client one entry, with QoS and state as the rules tell, exactly if it may read the topic and has a matching subscription for which it has room; and nothing otherwise. |
| RunData.RunDataOk | powmon/lib/mosquitto-1.3.5/src/subs.c:87-107 | After every run each retained message stands at its own topic, with its retain flag and a payload; the tree holds only filters that passed the check; and an inbound entry has the retain flag of its message. |
| Delivery.UnsubscribeStops | powmon/lib/mosquitto-1.3.5/src/read_handle_server.c:718-764 | After UNSUBSCRIBE the client is subscribed to a topic only through its other filters and other clients as before; if none of the others matches, a publish to the topic leaves the client as it was. |
| Database.Database.constructor | powmon/lib/mosquitto-1.3.5/src/database.c:46-107 | An empty store and the tree with its two tops. |
| Database.Database.Remove | powmon/lib/mosquitto-1.3.5/src/database.c:166-195 | Unlinks one entry, gives up its reference, and moves counters and tail pointer as the specification says. |
| Database.Database.Delete | powmon/lib/mosquitto-1.3.5/src/database.c:197-242 | The loop with promotion and early exit leaves what the recursive specification computes. |
| Database.Database.HandlePubackComp | powmon/lib/mosquitto-1.3.5/lib/read_handle_shared.c:80-116 | PUBACK or PUBCOMP: the new data equal the specification's. |
| Database.Database.HandlePubrec | powmon/lib/mosquitto-1.3.5/lib/read_handle_shared.c:118-145 | The first outbound entry with the id waits for PUBCOMP; all else stays. |
| Database.Database.Insert | powmon/lib/mosquitto-1.3.5/src/database.c:244-400 | The entry is placed, queued or rejected as the specification says, with the same return code. |
| Database.Database.SentBefore | powmon/lib/mosquitto-1.3.5/src/database.c:262-271 | The loop over `dest_ids` finds the id exactly if it is there. |
| Database.Database.SendToLeaves | powmon/lib/mosquitto-1.3.5/src/subs.c:108-150 | The loop over a node's leaves, with access check and QoS choice, leaves the specified data. |
| Database.Database.QueueMessage | powmon/lib/mosquitto-1.3.5/src/subs.c:469-501 | Retained message and deliveries together leave the specified data. |
| Database.Database.StoreFind | powmon/lib/mosquitto-1.3.5/src/database.c:533-550 | The loop returns the first inbound entry's message with the packet id. |
| Database.Database.HandlePublish | powmon/lib/mosquitto-1.3.5/src/read_handle.c:231-295 | All QoS cases, duplicates and refused messages leave the specified data. |
| Database.Database.HandlePubrel | powmon/lib/mosquitto-1.3.5/lib/read_handle_shared.c:147-195 | The release loop, which routes into the list it runs over, ends and leaves the specified data. |
| Database.Database.ReconnectReset | powmon/lib/mosquitto-1.3.5/src/database.c:554-631 | Both passes leave the specified data. |
| Database.Database.MessagesDelete | powmon/lib/mosquitto-1.3.5/src/database.c:418-438 | The queue is emptied and each entry's reference given up. |
| Database.Database.DiscardSession | powmon/lib/mosquitto-1.3.5/src/context.c:141-190 | Subscriptions and messages of the session go. |
| Database.Database.TakeOver | powmon/lib/mosquitto-1.3.5/src/read_handle_server.c:391-433 | The session is discarded or reset, and connected. |
| Database.Database.Purge | powmon/lib/mosquitto-1.3.5/src/read_handle_server.c:441-466 | The purge loop leaves the specified data. |
| Database.Database.TimeoutCheck | powmon/lib/mosquitto-1.3.5/src/database.c:633-678 | The nested loops leave the specified data. |
| Database.Database.Write | powmon/lib/mosquitto-1.3.5/src/database.c:747-867 | The loop, which looks at a promoted inbound entry twice, ends and leaves the specified data. |
| Database.Database.CleanStore | powmon/lib/mosquitto-1.3.5/src/database.c:869-903 | The sweep keeps exactly the messages with a reference. |
| Database.Database.SendRetained | powmon/lib/mosquitto-1.3.5/src/subs.c:601-623 | The retained messages found are inserted with the smaller QoS, where access is granted. |
| Database.Database.HandleSubscribe | powmon/lib/mosquitto-1.3.5/src/read_handle_server.c:577-716 | The filter is added before the retained messages are looked up. |
| Wire.LengthBytesMinimal | powmon/lib/mosquitto-1.3.5/lib/util_mosq.c:50-83 | The length encoding has its value, is never longer than any other field of that value, and fits four bytes exactly up to 268435455 (section 2.2.3 of MQTT 3.1.1). |
| Wire.LengthBytesInjective | powmon/lib/mosquitto-1.3.5/lib/util_mosq.c:50-83 | Different lengths have different encodings. |
| Wire.BodyFills | powmon/lib/mosquitto-1.3.5/lib/send_mosq.c:255-289 | The encoder fills the buffer it asked for exactly when the topic fits its 16-bit length. |
| Wire.PublishRoundTrip | powmon/lib/mosquitto-1.3.5/lib/read_handle.c:86-126 | Every PUBLISH within the limits is decoded to the same DUP, QoS, RETAIN, topic, id and payload. |
| Wire.DecodeRoundTrip | powmon/lib/mosquitto-1.3.5/lib/read_handle.c:86-126 | What is decoded is sendable, and encodes to the bytes it came from exactly when its topic field held no zero byte. |
| Wire.DecodeRefuses | powmon/lib/mosquitto-1.3.5/lib/read_handle.c:86-126 | A PUBLISH is refused exactly when topic or id is missing, cut short or empty, or the QoS is 3. |
| Wire.PublishHeader | powmon/lib/mosquitto-1.3.5/lib/send_mosq.c:262-266 | The first byte has the type 3 in its upper half, then DUP, two bits of QoS, and RETAIN (section 3.3.1 of MQTT 3.1.1). |
| Wire.PublishLayout | powmon/lib/mosquitto-1.3.5/lib/send_mosq.c:255-289 | Behind it come the length of the rest, the topic behind its length with the high byte first, above QoS 0 the packet id likewise, and the payload. |
| Packets.Packet.Alloc | powmon/lib/mosquitto-1.3.5/lib/util_mosq.c:50-83 | Command and length digits at the front of a buffer of the right size, or an error exactly above 268435455. |
| Packets.Packet.Digits | powmon/lib/mosquitto-1.3.5/lib/util_mosq.c:61-71 | The digit loop yields the length encoding; a fifth digit appears exactly above the limit. |
| Packets.Packet.WriteByte | powmon/lib/mosquitto-1.3.5/lib/net_mosq.c:517-524 | The byte goes behind what is written; the position moves by one. |
| Packets.Packet.WriteBytes | powmon/lib/mosquitto-1.3.5/lib/net_mosq.c:537-544 | The bytes go behind what is written. |
| Packets.Packet.WriteString | powmon/lib/mosquitto-1.3.5/lib/net_mosq.c:568-573 | A 16-bit length and as many bytes go behind what is written. |
| Packets.Packet.WriteUint16 | powmon/lib/mosquitto-1.3.5/lib/net_mosq.c:592-596 | The high byte, then the low byte. |
| Packets.Packet.ReadByte | powmon/lib/mosquitto-1.3.5/lib/net_mosq.c:506-515 | The next byte, or a protocol error exactly at the end. |
| Packets.Packet.ReadBytes | powmon/lib/mosquitto-1.3.5/lib/net_mosq.c:526-535 | The next bytes, or a protocol error exactly if there are fewer. |
| Packets.Packet.ReadString | powmon/lib/mosquitto-1.3.5/lib/net_mosq.c:546-566 | A string succeeds exactly if its length and its bytes are there, and is those bytes. |
| Packets.Packet.ReadUint16 | powmon/lib/mosquitto-1.3.5/lib/net_mosq.c:575-590 | The word of the next two bytes, or a protocol error exactly if there are fewer. |
| Packets.Packet.HandlePublish | powmon/lib/mosquitto-1.3.5/lib/read_handle.c:77-126 | Moving through the packet yields what the decoder of the byte sequence yields. |
| Packets.RealPublish | powmon/lib/mosquitto-1.3.5/lib/send_mosq.c:255-289 | The packet holds the encoding of the message, fails exactly above the size limit, and is full exactly when the topic fits. |
| Packets.CommandWithMid | powmon/lib/mosquitto-1.3.5/lib/send_mosq.c:207-231 | The command with its DUP bit set if asked for and its other bits kept, the length 2, and the packet id fill the buffer. |
| Streams.PacketReadRefines | powmon/lib/mosquitto-1.3.5/lib/net_mosq.c:820-970 | Whatever the socket grants, one call of the reader takes some bytes and ends as if they had come one by one; a protocol error is returned exactly when those bytes are faulty. |
| Streams.StreamCut | powmon/lib/mosquitto-1.3.5/lib/net_mosq.c:820-970 | Of a well-formed stream cut anywhere, exactly the packets that are whole are handed over, in order. |
| Streams.EveryScheduleReads | powmon/lib/mosquitto-1.3.5/lib/net_mosq.c:820-970 | For every schedule of partial reads over any number of calls, the packets handed over are exactly those completed so far, in order, and no fault is found. |
| Streams.EveryScheduleStops | powmon/lib/mosquitto-1.3.5/lib/net_mosq.c:820-970 | With a packet handler that may fail, and so end the connection, every schedule still hands over exactly the packets completed so far, up to and with the first one the handler fails on; only there do the calls end early. |
| Streams.EveryPublishArrives | powmon/lib/mosquitto-1.3.5/lib/net_mosq.c:820-970 | Encoded messages arrive under every schedule as the same messages in the same order. |
| Streams.ScheduleFreeIff | powmon/lib/mosquitto-1.3.5/lib/net_mosq.c:846-911 | For packets with right length fields, any two schedules that take the stream or end in a fault hand over the same packets if and only if no packet has the command 0. |
| Streams.ZeroCommandDependsOnSchedule | powmon/lib/mosquitto-1.3.5/lib/net_mosq.c:846-911 | The shortest such packet with a payload: one call hands it over, one byte a call does not. |
| Streams.FirstMustConnect | powmon/lib/mosquitto-1.3.5/lib/net_mosq.c:846-858 | A client that has not sent CONNECT and starts with another packet gets nothing through, whatever the schedule, and the first byte taken ends the connection with a protocol error. |
| Streams.FiveDigits | powmon/lib/mosquitto-1.3.5/lib/net_mosq.c:874-913 | A length field of more than four digits is a protocol error at the fifth. |
| Streams.NoByteNoChange | powmon/lib/mosquitto-1.3.5/lib/net_mosq.c:820-970 | A call that finds no byte leaves the reader as it was and returns success, lost or failed by what it met. |
| Connections.Incoming.NetRead | powmon/lib/mosquitto-1.3.5/lib/net_mosq.c:598-644 | At most the bytes asked for, or what kept the socket from bringing any. |
| Connections.Incoming.PacketRead | powmon/lib/mosquitto-1.3.5/lib/net_mosq.c:820-970 | The three resumable phases leave the state, and return the code, of the specification. |
| Connections.Incoming.ReadLength | powmon/lib/mosquitto-1.3.5/lib/net_mosq.c:874-913 | The digit loop of at most four bytes. |
| Connections.Incoming.ReadPayload | powmon/lib/mosquitto-1.3.5/lib/net_mosq.c:914-969 | The payload loop; a complete packet is handed over and every field starts afresh. |
| Connections.Outgoing.PacketQueue | powmon/lib/mosquitto-1.3.5/lib/net_mosq.c:150-191 | The packet is queued last; bytes sent followed by bytes pending stay the queued packets in order. |
| Connections.Outgoing.PacketWrite | powmon/lib/mosquitto-1.3.5/lib/net_mosq.c:694-818 | What is sent only grows, sent followed by pending is kept, and a socket that takes something each time leaves nothing pending. |
| Connections.Outgoing.SendCurrent | powmon/lib/mosquitto-1.3.5/lib/net_mosq.c:716-741 | Only the current packet is sent from, the account of sent and pending bytes is kept, and a socket that takes something each time takes all of it. |
| Connections.QueuedArrives | powmon/lib/mosquitto-1.3.5/lib/net_mosq.c:694-970 | From end to end: packets queued on one side are handed over on the other in order, each once, as far as their bytes have come. |
| PersistFormat.NumberRead | powmon/lib/mosquitto-1.3.5/src/persist.c:100-156 | A number that fits its width is read back, in network order and in host order. |
| PersistFormat.FieldsRead | powmon/lib/mosquitto-1.3.5/src/persist.c:596-660 | A list of fields that fit is read back as written, and nothing more is read. |
| PersistFormat.DeclaredIsExact | powmon/lib/mosquitto-1.3.5/src/persist.c:100-341 | The declared chunk length is the number of bytes that follow exactly when every string fits its 16-bit length. |
| PersistFormat.ChunkRead | powmon/lib/mosquitto-1.3.5/src/persist.c:784-826 | Every chunk is read back as written. |
| PersistFormat.FileRead | powmon/lib/mosquitto-1.3.5/src/persist.c:746-842 | A file of version 3 holds exactly the chunks it was written from. |
| PersistDamage.FileCut | powmon/lib/mosquitto-1.3.5/src/persist.c:746-842 | A backup that was cut off is refused, unless at most one byte of a chunk is left; then it gives the chunks before it. |
| PersistDamage.OtherFile | powmon/lib/mosquitto-1.3.5/src/persist.c:763-783 | A file without the mark of the broker, or of a version above 3, is refused. |
| PersistDamage.UnknownSkipped | powmon/lib/mosquitto-1.3.5/src/persist.c:822-826 | A chunk of unknown kind is passed over by its length, wherever it stands. |
| PersistDamage.OldClient | powmon/lib/mosquitto-1.3.5/src/persist.c:517-521 | A client chunk of version 2 counts as disconnected now. |
| PersistLaws.StoreStage | powmon/lib/mosquitto-1.3.5/src/persist.c:596-677 | The message chunks rebuild the store in reverse order, with `$SYS` retain flags cleared. |
| PersistLaws.ClientStage | powmon/lib/mosquitto-1.3.5/src/persist.c:437-594 | The client chunks rebuild the lasting clients with their queues in order, and every queue entry is counted. |
| PersistTree.SavedNameIsFilter | powmon/lib/mosquitto-1.3.5/src/persist.c:275-341 | A filter is saved under its own name exactly when it starts with neither '/' nor '$'. |
| PersistTree.KidChunksSound | powmon/lib/mosquitto-1.3.5/src/persist.c:275-354 | Every subscription or retain chunk written stands for a lasting subscription or a retained message of the tree. |
| PersistTree.KidChunksComplete | powmon/lib/mosquitto-1.3.5/src/persist.c:275-354 | Every lasting subscription and every retained message outside `$SYS` has its chunk. |
| PersistTheorem.RetainCounts | powmon/lib/mosquitto-1.3.5/src/persist.c:679-701 | Restoring a retained message moves one reference and keeps the counts exact. |
| PersistTheorem.TreeStage | powmon/lib/mosquitto-1.3.5/src/persist.c:679-744 | The tree chunks never put anything into the new tree that the old one had not, and put in everything they name. |
| PersistTheorem.BackupFits | powmon/lib/mosquitto-1.3.5/src/persist.c:356-435 | Every chunk of a backup fits its fields and declares the length it has. |
| PersistTheorem.BackupRestores | powmon/lib/mosquitto-1.3.5/src/persist.c:746-842 | A backup, read back by a starting broker, restores the last id, the messages with recounted references, the lasting clients with their queues, their subscriptions, and the messages retained outside the '$' trees, and nothing else; the index finds exactly these clients in their slots, and the tree is valid with exact counters. |
| PersistNames.RestartRenames | powmon/lib/mosquitto-1.3.5/src/persist.c:275-341 | Whatever the filters: each lasting subscription is found again under the path of its saved name, and no other subscription is found; the messages, and the lasting clients with their queues and index entries, come back. |
| PersistNames.RestartKeepsFilters | powmon/lib/mosquitto-1.3.5/src/persist.c:275-341 | A backup and restore leave the lasting subscriptions as they were exactly when no lasting filter starts with '/' or '$'. |
| PersistWrite.Writer.WriteMessage | powmon/lib/mosquitto-1.3.5/src/persist.c:173-229 | One message chunk, field by field. |
| PersistWrite.Writer.WriteStore | powmon/lib/mosquitto-1.3.5/src/persist.c:159-236 | The loop over the store writes its chunks in list order. |
| PersistWrite.Writer.WriteQueue | powmon/lib/mosquitto-1.3.5/src/persist.c:100-156 | The loop over a client's queue writes its chunks in order. |
| PersistWrite.Writer.WriteClients | powmon/lib/mosquitto-1.3.5/src/persist.c:238-273 | The loop over the table writes the lasting clients, each followed by its queue. |
| PersistWrite.Writer.WriteLeaves | powmon/lib/mosquitto-1.3.5/src/persist.c:294-316 | The loop over a node's leaves writes the lasting ones. |
| PersistWrite.Writer.WriteRetained | powmon/lib/mosquitto-1.3.5/src/persist.c:317-329 | A retain chunk, unless the message is one of the broker's own. |
| PersistWrite.Writer.WriteNode | powmon/lib/mosquitto-1.3.5/src/persist.c:275-341 | The walk writes a node before its children, under the name built on the way. |
| PersistWrite.Writer.WriteBackup | powmon/lib/mosquitto-1.3.5/src/persist.c:356-435 | The finished file is the header followed by the chunks of the specification. |
| PersistRuns.RunIsWritable | powmon/lib/mosquitto-1.3.5/src/persist.c:356-435 | Whatever the run: if names and sizes fit the fields of the file, the data the run leaves meet the premises of the restore theorems. |
| PersistRuns.RestartAfterRun | powmon/lib/mosquitto-1.3.5/src/persist.c:746-842 | A broker stopped after any run and started again has its lasting subscriptions exactly when none of their filters starts with '/' or '$', and then all its lasting data are back. |
| PersistRuns.ResumesWhereItStood | powmon/lib/mosquitto-1.3.5/src/persist.c:437-546 | After any run, backup and restore, a lasting client is found under its id with its queue; once it connects again, its queue has the entries, order and states, the counters and the last packet id that the reset at a reconnect would have given it had the broker never stopped. |
| PersistRead.RestoreFromIsApply | powmon/lib/mosquitto-1.3.5/src/persist.c:784-826 | Carrying chunks out as they are read comes to reading all of them first. |
| PersistRead.Restorer.FindOrAddContext | powmon/lib/mosquitto-1.3.5/src/persist.c:55-98 | The first context with the id, or a new one in the first free slot. |
| PersistRead.Restorer.RestoreMsg | powmon/lib/mosquitto-1.3.5/src/persist.c:437-486 | The entry is appended to its client's queue and its message counted, or the restore fails for an unknown message. |
| PersistRead.Restorer.RestoreClient | powmon/lib/mosquitto-1.3.5/src/persist.c:488-546 | The client's last id and disconnect time are set and its id indexed. |
| PersistRead.Restorer.RestoreRetained | powmon/lib/mosquitto-1.3.5/src/persist.c:679-701 | The message is put at its topic if it still has its retain flag. |
| PersistRead.Restorer.ReadMessage | powmon/lib/mosquitto-1.3.5/src/persist.c:596-650 | Field by field, the chunk the specification reads, or failure exactly where the file ends. |
| PersistRead.Restorer.ReadQueued | powmon/lib/mosquitto-1.3.5/src/persist.c:548-580 | Field by field, the chunk the specification reads, or failure exactly where the file ends. |
| PersistRead.Restorer.ReadSub | powmon/lib/mosquitto-1.3.5/src/persist.c:703-735 | Field by field, the chunk the specification reads, or failure exactly where the file ends. |
| PersistRead.Restorer.ReadClient | powmon/lib/mosquitto-1.3.5/src/persist.c:488-525 | Field by field, with the current time for a file of version 2. |
| PersistRead.Restorer.Restore | powmon/lib/mosquitto-1.3.5/src/persist.c:746-842 | Succeeds exactly when the specification does, and leaves its data; unknown chunks are skipped by their length. |
| Sessions.Sessions.Accept | powmon/lib/mosquitto-1.3.5/src/net.c:188-207 | A new context takes the first free slot and knows it; no other slot changes. |
| Sessions.Sessions.Disconnect | powmon/lib/mosquitto-1.3.5/src/context.c:196-215 | Only the socket goes: id, index and subscriptions stay. |
| Sessions.Sessions.Cleanup | powmon/lib/mosquitto-1.3.5/src/context.c:101-194 | The socket, the id with its index entry, and for a clean session all leaves of the context go. |
| Sessions.Sessions.TakeOver | powmon/lib/mosquitto-1.3.5/src/read_handle_server.c:391-433 | The known session keeps its id and index entry, loses its leaves exactly if clean, and the new context is left without socket and id. |
| Sessions.Sessions.Connect | powmon/lib/mosquitto-1.3.5/src/read_handle_server.c:391-479 | The client id leads to one session afterwards, connected exactly if nothing failed; other ids keep theirs. After a late refusal a new context keeps the id and stays in the phase of a new one, without a socket. |
| Sessions.Sessions.Subscribe | powmon/lib/mosquitto-1.3.5/src/read_handle_server.c:577-716 | A leaf that points at the context, under the id it carries. |
| Sessions.Sessions.Unsubscribe | powmon/lib/mosquitto-1.3.5/src/read_handle_server.c:718-764 | Exactly the leaf of that client id and filter goes. |
| Sessions.Sessions.Collect | powmon/lib/mosquitto-1.3.5/src/loop.c:218-235 | A slot is emptied exactly if its context has no socket and is clean or expired; its leaves and index entry go with it. |
| Sessions.Sessions.CollectAll | powmon/lib/mosquitto-1.3.5/src/loop.c:218-235 | After the pass exactly the due slots are empty, and exactly the leaves and index entries of their contexts are gone. |
| Sessions.Sessions.ClientIsOwner | powmon/lib/mosquitto-1.3.5/src/context.c:101-194 | In every valid state each leaf points at a held context, found under its client id; leaves share a context exactly if they share the id. |
| Dictionary.DictionaryHash | powmon/lib/iniparser/src/dictionary.c:88-104 | The loop computes the 32-bit hash with wrap-around and signed characters. |
| Dictionary.FreeSlot | powmon/lib/iniparser/src/dictionary.c:266-268 | While fewer slots are taken than exist, one is free. |
| Dictionary.TablePut | powmon/lib/iniparser/src/dictionary.c:269-273 | Writing a slot that is free, or has the key, sets one key of the map. |
| Dictionary.TableClear | powmon/lib/iniparser/src/dictionary.c:314-321 | Emptying a slot deletes its key from the map. |
| Dictionary.Dictionary.constructor | powmon/lib/iniparser/src/dictionary.c:117-132 | An empty map in at least 128 slots. |
| Dictionary.Dictionary.Get | powmon/lib/iniparser/src/dictionary.c:175-193 | The value of the key, or the default exactly if the map has no such key. |
| Dictionary.Dictionary.Set | powmon/lib/iniparser/src/dictionary.c:221-275 | The map gets the value under the key, after replacing, growing or probing; no key is an error. |
| Dictionary.Dictionary.Unset | powmon/lib/iniparser/src/dictionary.c:288-323 | The map loses the key, if it has it. |
| Dictionary.Dictionary.Grow | powmon/lib/iniparser/src/dictionary.c:247-262 | Doubling keeps the map and the count. |
| Dictionary.Dictionary.Probe | powmon/lib/iniparser/src/dictionary.c:266-268 | The wrap-around probe from slot n ends at a free slot. |
| Dictionary.Dictionary.Find | powmon/lib/iniparser/src/dictionary.c:228-244 | The search, hash test included, finds the key exactly if the map has it. |
| Energy.SampleTracks | energy-app/sensor_read_lib.c:74-78 | A sample keeps the energy account exactly when the counter advanced by less than 2^32 since the last one, apart from multiples of 2^64. |
| Energy.EnergyCounted | energy-app/sensor_read_lib.c:74-78 | 2^32 times the overflow count plus the difference of the registers is the energy used since the start, exactly as long as the register wrapped less than 2^32 times. |
| Energy.EnergyLaw | energy-app/pow_mon.c:99-102 | After any number of samples with small steps the fields hold the energy used, and the reported 32-bit difference is its residue. |
| Energy.SysData.InitMsrData | energy-app/sensor_read_lib.c:145-188 | Each package that is read starts from its register, with no overflow; package 1 is read exactly if the number of cores is even. |
| Energy.SysData.ReadMsrEnergy | energy-app/sensor_read_lib.c:55-97 | With an even number of cores the loop samples each of the two packages exactly once; with an odd one package 1 never, and package 0 twice if there is more than one core. |
| Energy.SysData.FinalMsrEnergy | energy-app/sensor_read_lib.c:98-143 | The same for the last reading, which is kept. |

## Left out

- Bridges (`WITH_BRIDGE`): their leaves, topic mapping and lazy queues are not modelled.
- The client library's own message queue (`lib/messages_mosq.c`): its inbound and outbound lists share one in-flight counter, so the window property does not hold there.
- Sockets, TLS, polling, threads, signals, logging, `$SYS` statistics, configuration and password files: a call on the network is a parameter that says what it meets.
- Contexts in the tree and in the queues are named by client id; that this names one held context is what `Sessions.Sessions.ClientIsOwner` proves. The two are not joined in one state.
- `Database.Database` keeps the subscription tree as a value (`subs`); `SubHier.Tree` does the same operations on linked nodes, and the two are not joined in one heap.
- Order inside one publish: the retained message changes hands before the deliveries, where the code does it when the walk meets the node; the resulting data are the same, the order of writes is not modelled.
- History fields: `accepted`, `routed`, `swept`, `denied` and `inserted` of a stored message and `history` of an entry are kept by the model to state what happened; the code has no such fields.
- `Broker.ReleaseFrom` carries a bound `left` on the handshakes still to end; `Database.Database.HandlePubrel` runs without it and is proved equal in every state.
- TopicScan.TopicMatchesSub: promises nothing for a filter with a misplaced wildcard or a topic that holds one, which the handlers refuse before they get here.
- BrokerOps.WriteKeepsInv: where the loop comes to a message without a topic the code stops at an assertion, and the model goes on; `BrokerEdges.WriteMeetsNoTopic` says exactly when, and no run of `BrokerRuns` goes on from there.
- Database.Database.Write: the same.
- Writes.WritePass: the same; `Steps.StepDoes` speaks of runs only, where it does not happen.
- BrokerRuns.NextKeepsInv: the purge inside CONNECT and a restore are no events of the runs, for the reasons given below.
- Time stamps: the entries whose retry time has come are a parameter of the retry pass.
- The purge at CONNECT is modelled (`BrokerEdges.PurgeFrom`) but is not an event of the runs, because it leaves the counters wrong whenever it unlinks something.
- PersistTheorem.BackupRestores: says nothing of a client's message counters, which are not in the file; `PersistRuns.ResumesWhereItStood` says what they are once the client connects again.
- PersistRuns.RunIsWritable: payloads, sources, times and the order of the store and of the context table are the image's own (`Persist.Image`), as the states of the runs do not have them; `Shows` ties everything else of the two together.
- A restore is not an event of the runs: it leaves the message counters at zero until the client reconnects, when `mqtt3_db_message_reconnect_reset` counts afresh.
- Messages stored without a topic (refused QoS 2 messages) cannot be backed up: the code passes the missing topic to `strncmp`. `Persist.StoredMsg` always has a topic, and so `PersistRuns.Shows` covers runs that leave no such message behind.
- A QoS above 2 in a subscription chunk, which no backup writes, counts as a failed restore.
- Host byte order is taken to be little-endian, and characters outside ASCII to be signed, where the file format and the hash depend on the machine.
- File handling around the backup (temporary name, rename, read errors other than a short file).
- Packets.RealPublish: sizes at or above 2^32 are excluded, because the size is computed in 32 bits and its callers limit topic and payload far below that.
- The rest of CONNECT (protocol name, flags, wills, credentials): the outcome of these checks is a parameter of `Sessions.Sessions.Connect`.
- `mqtt3_db_close`, `mqtt3_db_vacuum`, tree printing and client counting: they free, print or count.
- Single-socket hosts, and the DRAM counters, which the code overwrites with zero unless the support code is 2.
- `iniparser.c`, the MSR files, power and frequency formulas, the MPI wrapper and the scripts: parsing by `sscanf`, device access, floating-point formatting.
