# A verified model of the MQTT 3.1.1 broker

This project models the delivery core of an MQTT 3.1.1 broker for the ESP32 and the data structures
under it, and proves what they are for: no message is lost or freed too early, no socket that has
something to send is forgotten, and the tables and tries behave as the maps they stand for.

`dafny verify dfyconfig.toml` checks everything.

## How it is built

The broker consists of two tasks and two queues. The select task (`main/main.cpp`) accepts connections
and watches sockets; the worker (`main/worker.cpp`) handles one socket at a time.

* **Protocol, Delivery**: the records of the worker, and what each handler does to them, as functions.
* **Workers** (class `Worker`), **TcpServers** (class `TcpServer`): the two tasks in place, with the loops
  of the code. Every method is proved to do what the functions of module Delivery, or the steps of module
  EventLoop, say; so the theorems about those hold for the classes. The worker keeps its messages in the
  hash table of class `PublishStore`, whose preconditions follow from the invariants of a turn.
* **Conservation, ConservationSteps, Links**: reference counts, and the links between clients and sockets.
* **Wakeup, EventLoop**: read and write interest as it travels between the tasks.
* **Exchange, FanOuts, Retained, RetainedDeliveries, Births, Sessions, Progress**: the QoS exchanges, the
  result of one publication, retained messages and what a SUBSCRIBE gets of them, where deliveries and their
  bytes come from, client sessions, and the rank that shows that deliveries finish.
* **TurnEffects, Reading**: what a turn must do, kind by kind - which frame is written, who is answered, who gets
  a delivery, whose session changes - and what its requests come to: sockets are read again, answers are
  written, closed sockets are not watched.
* **Runs, Histories**: what holds in every state that any interleaving of the two tasks can reach.
* **PublishStores, ChainedMaps, ChainedIterators, Subscriptions, Topics**: the message store, the chained
  table and its iterator, and the subscription trie, on arrays and linked nodes.
* **MyVectors, FixedHeader, Subacks**: the growable array and the Remaining Length field.
* **PublishStoreAsWritten, SubscriptionsAsWritten, ZeroIdentifiers, AsWritten, Faults**, and the last
  sections of Topics, Subacks, FixedHeader, Exchange, EventLoop and ChainedMaps: the code as it stands where
  the model repairs it or the theorems exclude it, with exact conditions.
* **Scenes, LostWakeups, Witnesses**: runs from power-on that lead to what the theorems exclude.

### Repairs

The code departs from its own intent in several places. The model repairs each as little as possible, says
so in the module that does it, and proves beside it when the code as it stands is right.

| place | as it stands | repair | what is proved of the code as it stands |
|---|---|---|---|
| main/Publishhashmap.cpp:16, :45, main/includes/Publishhashmap.hpp:28 | the probe advances `id`, not `cur_id`, so two slots are looked at | walk once around the table | `FoundExactly`, `RehashExactly`, `AddExactly`, `AddNewExactly`, `TwoSlotsSuffice`, `ThirdMessageReplacesSecond` |
| main/worker.cpp:460 and :100 | a retained PUBLISH is stored twice | stored once, with two references | `StoredTwiceIsNeverRight`, `StoredTwiceExactly`, `StoredTwiceAfterErase` |
| main/worker.cpp:523, :561 with main/Publishhashmap.cpp:10-32 | an acknowledgement with identifier 0 finds a free slot of the message store | it finds no message | `ZeroAckExactly` |
| main/includes/myhashmap.hpp:68 | `rehash` stops at a size that is 0 | stop at the old capacity | `RehashBoundExactly`, `RehashAsWritten` |
| main/includes/myhashmap.hpp:80, :95 | `rehash` hashes the empty key | bucket 0, as everywhere else | (the code reads before the key) |
| main/Subscription.cpp:9, :35, :54 | a scan stops at the separator it starts at | start one character later | `SplitAsWrittenExactly`, `AddAsWrittenExactly`, `LookAsWrittenFindsNothing`, `DeleteAsWrittenExactly` |
| main/Subscription.cpp:80-94, :61-62 | `delete_sub` stays at the root and follows null | go down; an absent topic is left alone | with the scan repaired: `OneSegmentExactly`, `DeleteExactly`, `TwoSegmentsExactly`, `DeleteAbsentExactly` |
| main/worker.cpp:363-396 | a client that connects again keeps its old socket | the new socket is recorded | `ReconnectExactly`, `ReconnectedIsNotReached` |
| main/worker.cpp:695-713 | the SUBACK length is written through a pointer that an insert can invalidate | write at an index | `SubackExactly`, `SubackFails` |

Not repaired, but stated exactly; the last column names an example, or a run from power-on that gets there:

| what | stated in | example or run |
|---|---|---|
| the 16-bit Remaining Length, and the end of the buffer it is read into | `RoundTripExactly`, `MisreadExactly`, `ReadLength` | `MisreadExample` |
| the table that a dropped connection leaves behind | `DropLeavesTable`, `HandshakeAwakeExactly` | `WakeupIsLost` |
| the 8-bit reference count | `SubscribeOneConserves` | `CountWraps` |
| the table index -1 for an offline subscriber | `FanOutFaultsExactly`, `HandleFaultsExactly` | `OfflineIndex` |
| turns that the code does not answer | `HeardExactly` | `UnansweredTurn` |
| a write turn whose request is lost | `WriteTurnAwakeExactly` | |
| a message of the select task that a full queue refuses | `RefusedReadExactly`, `RefusedWriteExactly` | |
| the QoS of a PUBLISH that is repeated | `IllFormedPubackExactly`, `HandleFitsExactly` | `PromotingPuback` |
| the identifier of a PUBLISH that is in use | `AddStoredExactly`, `CollidingAddExactly` | `CollidingExample` |

### What is asked of the environment

New message identifiers, of a PUBLISH or a will, are not 0 and not those of a stored message, since one store
serves all senders; acknowledgements may carry any identifier, 0 included.
A message's count stays below 256; only a SUBSCRIBE can bring it there. No fan-out reaches an offline
subscriber. The wake-up theorem also asks that queue sends succeed and that a handshake completes on a
table with nothing to send; conservation holds whatever sends and writes fail. The bytes read, the
results of writes and TLS steps, random identifiers and the failing sends are inputs of each turn.

## Model

| member | source | states |
|---|---|---|
| `Runs.AlwaysGood` | main/worker.cpp:60-147 | in every state of every run, whatever sends and writes fail, each stored message's count is the number of live entries over all sockets in sendpublish, getpuback or getpubrec with its id plus one for each topic that retains it; clients and sockets name each other |
| `Runs.PowerOnGood` | main/worker.cpp:180-198 | the state at power-on has all the invariants, for any listening socket |
| `Runs.NeverDangles` | main/worker.cpp:837-848 | at any point of any run from power-on the message of an entry that needs it is stored with a count above zero |
| `Runs.AlwaysAwake` | main/main.cpp:106-168 | under every interleaving, a live socket with an entry in a send state has a write message pending, is in the write set with no delall on its way, or has a write request on its way that no delall follows |
| `Runs.AlwaysHeard` | main/main.cpp:106-168 | likewise no live socket is left without any turn on its way, as long as every turn is answered |
| `Runs.AlwaysRetained` | main/worker.cpp:456-478 | after any run, the retained slot of each topic leads to a stored message with the bytes of the last retained PUBLISH on that topic, and there are no other slots |
| `Runs.AlwaysConforms` | main/includes/worker.hpp:44-55 | over any run, ill-formed acknowledgements included but for a PUBACK that has its message written again at QoS 2, the packets exchanged for a live entry are a prefix of PUBLISH, PUBLISH-PUBACK or PUBLISH-PUBREC-PUBREL-PUBCOMP in its role, and its state tells which (sections 4.3.1 to 4.3.3) |
| `Histories.AlwaysPublished` | main/worker.cpp:60-147 | over any run, every stored message has the bytes that a PUBLISH or a will brought last under its identifier; the history is kept by these packets alone |
| `Histories.AlwaysCarries` | main/worker.cpp:60-147 | over any run, what is stored for a delivery are the bytes that a client had published last under its identifier when it was born |
| `Histories.WritesWhatWasPublished` | main/worker.cpp:837-848 | so the PUBLISH that a write turn writes after any run has those bytes, with the delivery's QoS and RETAIN bit |
| `Histories.RepeatsWhatWasPublished` | main/worker.cpp:524-534 | and so has the PUBLISH written again after an ill-formed PUBACK or PUBREC, with the message's QoS |
| `Runs.DeliveriesFinish` | main/worker.cpp:503-635 | without new PUBLISH, SUBSCRIBE or dropped connections, the number of turns that serve an entry plus the work left is at most the work at the start |
| `Reading.ReadAgain` | main/worker.cpp:851-855 | while nothing is added to its table, a live socket that has taken one write turn more than it has entries to send is in the read set, is to be put there, or has a read message waiting, under every interleaving |
| `Reading.AnswerIsWritten` | main/worker.cpp:776-856 | and each PUBACK, PUBREC, PUBREL or PUBCOMP that it is owed is on the wire, to it and under its identifier, after as many write turns as there are entries to send up to it |
| `Reading.StepRank` | main/worker.cpp:776-856 | every write turn brings the socket nearer to being read, and no step of either task takes it away from it |
| `Reading.WriteTurnComes` | main/worker.cpp:851-855 | an accepted write turn serves one entry, and the socket comes into the read set if and only if it was coming already or none but the last entry waits, so whenever nothing does |
| `Reading.OtherTurnSpares` | main/worker.cpp:202-857 | a turn for another socket queues a delivery for this one or leaves table and requests alone, unless a CONNECT takes its client away |
| `Reading.ClosedExactly` | main/worker.cpp:149-178 | a turn closes a socket if and only if it drops its own connection, ends it by DISCONNECT, or takes over the client of another |
| `Reading.ClosedIsUnwatched` | main/worker.cpp:377-388 | a socket that is closed, also one that a client had before, is in neither select set once the queues are applied |
| `Conservation.FanOutConserves` | main/worker.cpp:107-142 | the books stay balanced while a fan-out runs, with exactly one extra reference for it |
| `Conservation.FinishConserves` | main/worker.cpp:143-146 | giving that reference back balances the books, and the node goes exactly when it was the last |
| `Conservation.PublishByTopicConserves` | main/worker.cpp:97-147 | a whole publication keeps the books balanced, for a new message and for one just retained |
| `Conservation.StoreRetainedConserves` | main/worker.cpp:456-478 | the retained slot's change takes exactly one reference from the old message |
| `Conservation.NothingDangles` | main/worker.cpp:60-95 | balanced books guarantee that a counted entry's message is stored |
| `Conservation.FanOutIsBounded` | main/worker.cpp:107-142 | one fan-out makes at most 64 deliveries, so it cannot overflow the counter |
| `ConservationSteps.PublishEntryConserves` | main/worker.cpp:60-95 | writing a message keeps the books balanced, at every QoS and also when the write fails |
| `ConservationSteps.WriteEventConserves` | main/worker.cpp:776-856 | a write event keeps the books balanced |
| `ConservationSteps.AckConserves` | main/worker.cpp:503-581 | PUBACK and PUBREC, well formed or not, keep the books balanced |
| `ConservationSteps.FinalAckConserves` | main/worker.cpp:582-635 | PUBREL and PUBCOMP keep the books balanced |
| `ConservationSteps.SubscribeOneConserves` | main/worker.cpp:676-692 | a retained delivery keeps the books balanced if and only if the 8-bit count was below 255 |
| `ConservationSteps.DropConserves` | main/worker.cpp:149-178 | dropping a connection, with or without a will, keeps the books balanced |
| `ConservationSteps.HandleConserves` | main/worker.cpp:202-857 | so does every turn of the worker |
| `Links.DropTidy` | main/worker.cpp:165-175 | after a connection is dropped clients and connections still name each other one to one |
| `Links.AcceptTidy` | main/worker.cpp:354-408 | and so they do after an accepted CONNECT, also of a client that was connected elsewhere |
| `Links.HandleTidy` | main/worker.cpp:202-857 | every turn keeps clients and connections linked one to one, within the range that select watches |
| `Wakeup.WriteRequestStands` | main/main.cpp:147-167 | a socket ends in the write set if and only if a write request for it stands unrevoked, or it was there and nothing took it out |
| `Wakeup.ReadRequestStands` | main/main.cpp:147-167 | and in the read set if and only if a read request stands that neither delread nor delall follows, or it was there and neither came |
| `Wakeup.WriteEventLive` | main/worker.cpp:776-856 | a write event strands nothing: afterwards nothing is left to send or another write turn is asked for |
| `Wakeup.ServeLive` | main/worker.cpp:797-849 | serving an entry leaves nothing to send in its slot, which needs the message of a delivery to be stored |
| `Wakeup.FanOutLive` | main/worker.cpp:127-140 | a fan-out puts no socket to sleep, the subscribers it queues deliveries for included, and makes none unheard |
| `Wakeup.OnTlsLive` | main/worker.cpp:211-278 | what a TLS step leaves asleep or unheard |
| `Wakeup.HandleLive` | main/worker.cpp:202-857 | no turn puts a socket to sleep, and the socket whose message was taken has its next turn coming unless the code leaves the turn unanswered |
| `EventLoop.StepGood` | main/main.cpp:106-168 | every step of either task keeps conservation, links and the watched range |
| `EventLoop.MainKeepsWatch` | main/main.cpp:130-167 | moving messages between queues and sets loses no request |
| `EventLoop.StepKeepsAwake` | main/worker.cpp:202-857 | every step of either task keeps the no-lost-wake-up invariant |
| `EventLoop.HeardExactly` | main/worker.cpp:524-534 | a turn leaves its socket unheard if and only if the code does not answer it and no other turn is on its way |
| `EventLoop.HandshakeAwakeExactly` | main/worker.cpp:258-265 | a completed handshake loses a wake-up if and only if the table left by the last connection has something to send and no write turn is on its way |
| `EventLoop.WriteTurnAwakeExactly` | main/worker.cpp:851-855 | a write turn strands its socket if and only if something is left to send, its request for the next turn is lost, and no other write turn is on its way |
| `EventLoop.RefusedReadExactly` | main/main.cpp:134-139 | a readable socket whose message is refused is left without any turn if and only if it is live, no message for it waits, nothing on its way brings it into the read set, and it does not stay in or come into the write set; nothing to send is forgotten by it |
| `EventLoop.RefusedWriteExactly` | main/main.cpp:140-145 | a writable socket whose message is refused loses its wake-up if and only if it has something to send, no write message for it waits and no write request for it stands |
| `Exchange.WriteEventMoves` | main/worker.cpp:797-849 | a write event writes one frame, for the first pending entry, and it is the next packet of that entry's exchange |
| `Exchange.PublishAckMoves` | main/worker.cpp:503-581 | a well-formed PUBACK or PUBREC is accepted if and only if an entry waits for it, and moves that entry on by that packet |
| `Exchange.HandleMoves` | main/worker.cpp:202-857 | in one turn every entry of every socket stays, is born, ends, or moves on by the packet that passed; an ill-formed acknowledgement leaves its entry or, if the PUBLISH cannot be repeated, frees it |
| `Exchange.HandleFitsExactly` | main/worker.cpp:524-534 | a turn leaves every entry in a state of its exchange if and only if it is not an ill-formed PUBACK for which a message published at QoS 2 is written again |
| `Exchange.AckKeepsOppositeRole` | main/worker.cpp:509-516 | an acknowledgement never moves an entry of the opposite role with the same id |
| `Exchange.IllFormedPubackExactly` | main/worker.cpp:524-534 | after an ill-formed PUBACK every entry fits its exchange if and only if the message could not be written again or was published at QoS 1, and the entry is unchanged if and only if it was written again at QoS 1 |
| `Exchange.IllFormedPubrecExactly` | main/worker.cpp:562-571 | after an ill-formed PUBREC every entry fits its exchange, and the entry is unchanged if and only if the message could be written again |
| `Births.HandleBirths` | main/worker.cpp:202-857 | every delivery after a turn was there before or is of a message the turn offers: the one published, one that a topic of the SUBSCRIBE retains, or the will of the connection that is dropped |
| `Births.HandleKeeps` | main/worker.cpp:202-857 | a turn changes neither bytes nor QoS of what stays stored, and stores nothing but what it offers |
| `Births.HandleBounded` | main/worker.cpp:112-119 | no delivery is ever at a higher QoS than its message was published with |
| `FanOuts.PublishDelivers` | main/worker.cpp:97-147 | a publication gives exactly the connected clients subscribed to the topic one sendpublish entry at the lower of the two QoS, and changes no other connection (section 3.8.4) |
| `FanOuts.PublishDeliversIfAsked` | main/worker.cpp:127-140 | whichever requests the queue refuses, each connected subscriber gains its delivery if and only if its write request was accepted, and nothing is done to or asked for anyone else |
| `FanOuts.PublishStores` | main/worker.cpp:97-147 | afterwards the message is stored with one reference for each delivery, besides the retained slot's; with none it is gone |
| `FanOuts.FanOutFaultsExactly` | main/worker.cpp:110-126 | the table is indexed with -1 if and only if a client kept while offline has subscribed to the topic |
| `Faults.HandleFaultsExactly` | main/worker.cpp:107-126 | a turn indexes the table with -1 if and only if it publishes, or drops a connection with a will, on a topic with a subscriber kept while offline, the owner of the will included |
| `FanOuts.AddEntryKeeps` | main/worker.cpp:25-44 | a new entry is in the table and no live entry is disturbed |
| `FanOuts.WireImageFields` | main/worker.cpp:60-69 | the bytes written differ from the stored ones only in the QoS bits, which are the delivery's, and the RETAIN bit, kept only for a new subscription |
| `TurnEffects.WriteTurnSends` | main/worker.cpp:781-850 | a write turn sends the first entry that waits, the frame of its state with its identifier to its socket, and takes it to its next state; nothing else changes, and it asks for another write turn if and only if the table goes on |
| `TurnEffects.WriteTurnRests` | main/worker.cpp:851-855 | with nothing to send it changes nothing and asks for a read turn |
| `TurnEffects.PublishTurn` | main/worker.cpp:409-502 | a PUBLISH owes its sender exactly a PUBACK at QoS 1, a PUBREC at QoS 2 and nothing at QoS 0, under its identifier, and gives every connected subscriber of the topic one delivery at the lower QoS, the sender included, and nobody else anything |
| `TurnEffects.PublishTurnIfAsked` | main/worker.cpp:479-500 | with requests refused, the answer is owed if and only if its own was accepted, and likewise each delivery |
| `TurnEffects.AddEntryExactly` | main/worker.cpp:25-44 | a table gains an entry in its first free slot or, when it has none, at its end, and is otherwise as before |
| `TurnEffects.AckTurn` | main/worker.cpp:535-634 | a well-formed acknowledgement for an entry that waits frees the first such entry or takes it to its next state, gives the reference back for PUBACK and PUBREC, asks for the next turn, and changes nothing else |
| `TurnEffects.AckTurnStays` | main/worker.cpp:517-622 | the connection stays if and only if an entry waits and the packet is well formed, or is a PUBACK or PUBREC of a message |
| `TurnEffects.RepeatTurn` | main/worker.cpp:524-571 | an ill-formed PUBACK or PUBREC has the message written again as it is stored, takes the entry where a PUBLISH at that QoS leads, and asks for nothing |
| `TurnEffects.UnsubscribeTurn` | main/worker.cpp:725-754 | an UNSUBSCRIBE takes exactly its topics from its own session, the empty one excepted, and leaves all other sessions, tables and the store alone |
| `TurnEffects.SubscribeTurn` | main/worker.cpp:660-693 | a SUBSCRIBE gives its own session each topic at the QoS of its last filter, at most 2, and leaves its other subscriptions and all other sessions alone |
| `TurnEffects.DropsExactly` | main/worker.cpp:202-775 | which turns drop the connection |
| `TurnEffects.DropTurn` | main/worker.cpp:149-178 | they free the socket and no other, and end a clean session or keep it off line |
| `TurnEffects.WillTurn` | main/worker.cpp:155-164 | the will, if it has bytes, gives every other connected subscriber of its topic one delivery at the lower QoS and nobody else anything; without one no table changes |
| `TurnEffects.DisconnectTurn` | main/worker.cpp:769-774 | a DISCONNECT ends the session, a kept one too, frees the socket, and sends the will to nobody |
| `TurnEffects.ConnectTurn` | main/worker.cpp:354-408 | an accepted CONNECT puts its client on this socket with the flag and will it asks for, closes the socket it had before, and asks for the next turn |
| `TurnEffects.RefusedTurn` | main/worker.cpp:354-362 | anything else before it closes the connection, and changes no client and no table |
| `TurnEffects.TlsTurn` | main/worker.cpp:211-278 | a TLS step that does not fail sets the phase and asks for the turn that the transport needs |
| `TurnEffects.IdleTurn` | main/worker.cpp:755-775 | a PINGREQ asks for a read turn; a second CONNECT and what is unknown do nothing |
| `Retained.ReplaceRetained` | main/worker.cpp:462-476 | replacing a retained message releases exactly one reference of the old one, which stays stored while deliveries of it are in flight |
| `Retained.HandleSame` | main/worker.cpp:202-857 | a turn without a retained PUBLISH changes no retained slot and no stored bytes |
| `Retained.HandleHolds` | main/worker.cpp:456-478 | after a turn each slot leads to what was retained last |
| `RetainedDeliveries.SubscribeDelivers` | main/worker.cpp:660-693 | a SUBSCRIBE adds to its own connection's table the deliveries due to it, in the order of the filters, each if and only if its write request was accepted, and changes no other connection (section 3.8.4) |
| `RetainedDeliveries.DueIs` | main/worker.cpp:676-692 | due is one delivery for each filter whose topic retains a message, of its bytes, at the lower of the two QoS and with the RETAIN bit kept, and nothing else (section 3.3.1.3) |
| `RetainedDeliveries.SubscribeSendsLatest` | main/worker.cpp:660-693 | so after any run a subscriber gets the bytes of the latest retained PUBLISH on each topic it asks for, as far as the queue takes the requests |
| `Sessions.AcceptSession` | main/worker.cpp:354-408 | an accepted CONNECT leaves its client on this socket and on no other, with its subscriptions unless its earlier session was clean and still connected, and changes no other session |
| `Sessions.DropSession` | main/worker.cpp:149-178 | a dropped connection ends a clean session, keeps another off line with its subscriptions, and changes no other session whatever its will causes |
| `Sessions.SubscribeSession` | main/worker.cpp:660-693 | a SUBSCRIBE changes the subscriptions of its own client and nothing else of any session |
| `Sessions.LastFilterCounts` | main/worker.cpp:669-675 | a topic's QoS afterwards is that of the last filter for it, at most 2, and without one what it was |
| `Sessions.UnsubscribedExactly` | main/worker.cpp:742-750 | the topics that are left after an UNSUBSCRIBE; `UnsubscribeTurn` says that a turn leaves them |
| `Progress.NoWorkLeft` | main/includes/worker.hpp:44-55 | the rank is zero if and only if every slot of every table is free |
| `Progress.WriteEventWorks` | main/worker.cpp:781-850 | a write event lowers the rank if and only if it finds something to send |
| `Progress.PublishAckWorks` | main/worker.cpp:503-581 | a well-formed PUBACK or PUBREC is accepted if and only if an entry waits for it, and lowers the rank |
| `Progress.ReleaseAckWorks` | main/worker.cpp:582-635 | so is a well-formed PUBREL or PUBCOMP |
| `Progress.QuietTurnWorks` | main/worker.cpp:202-857 | a turn without new work never raises the rank |
| `Workers.Worker.AddPacketId` | main/worker.cpp:25-44 | the loop with its flag fills the first free slot or grows the table |
| `Workers.Worker.PublishMessage` | main/worker.cpp:60-95 | what writing a message does to entry, store and wire |
| `Workers.Worker.PublishToSubscribers` | main/worker.cpp:97-147 | a publication as the theorems have it, on the hash table |
| `Workers.Worker.VisitClients` | main/worker.cpp:107-142 | the loop over the clients, which stops at an offline subscriber |
| `Workers.Worker.Wake` | main/worker.cpp:127-140 | delread, then write; on a lost write request read again and no entry |
| `Workers.Worker.OnWrite` | main/worker.cpp:776-856 | the loop over the table with its three flags is the write event of `WriteTurnSends` and `WriteTurnRests`: it serves the first pending entry only, and asks for a write turn exactly when the table goes on after it |
| `Workers.Worker.DropConn` | main/worker.cpp:149-178 | the drop of `DropTurn` and `WillTurn`: the will goes out while its client counts as offline; the table is left as it is |
| `Workers.Worker.OnConnect` | main/worker.cpp:354-408 | new client, known client, client connected elsewhere |
| `Workers.Worker.OnPublishPacket` | main/worker.cpp:409-502 | the PUBLISH of `PublishTurn`: retained slot, answer, fan-out, in this order |
| `Workers.Worker.OnPubackPacket` | main/worker.cpp:503-543 | the PUBACK of `AckTurn` and `RepeatTurn`: not found: dropped; ill formed: sent again; otherwise entry and reference go |
| `Workers.Worker.OnPubrecPacket` | main/worker.cpp:544-581 | as PUBACK, but the entry goes on to PUBREL |
| `Workers.Worker.OnPubcompPacket` | main/worker.cpp:582-608 | the entry is freed |
| `Workers.Worker.OnPubrelPacket` | main/worker.cpp:609-635 | the entry goes on to PUBCOMP |
| `Workers.Worker.OnSubscribe` | main/worker.cpp:660-693 | the loop over the filters subscribes and queues retained messages, in order |
| `Workers.Worker.OnUnsubscribe` | main/worker.cpp:742-750 | the loop over the topics is the UNSUBSCRIBE of `UnsubscribeTurn` and removes each of them |
| `Workers.Worker.OnHandshake` | main/worker.cpp:211-278 | the outcomes of a TLS step |
| `Workers.Worker.Turn` | main/worker.cpp:202-857 | one message from pending_socks, as the theorems about turns have it; conservation and links hold again afterwards, so the class needs nothing else from one turn to the next |
| `TcpServers.SelectKeeps` | main/main.cpp:106-168 | any number of steps of the select task keep conservation and both wake-up invariants |
| `TcpServers.TcpServer.Accept` | main/main.cpp:112-129 | an accepted socket gets a write message and widens the watched range; one above 63 is refused |
| `TcpServers.TcpServer.Scan` | main/main.cpp:130-146 | every ready socket in range except the listening one gets exactly its messages and leaves its sets; it is a run of the steps of the model |
| `TcpServers.TcpServer.Drain` | main/main.cpp:147-167 | the queue is emptied and the sets are what its messages make of them, in order |
| `TcpServers.TcpServer.Pass` | main/main.cpp:106-168 | a pass of the loop is a run of the model's steps and keeps its invariants |
| `AsWritten.ReconnectExactly` | main/worker.cpp:363-394 | as the code stands, client and connection name each other after a CONNECT if and only if the client is new |
| `AsWritten.ReconnectedIsNotReached` | main/worker.cpp:375-392 | otherwise no publication reaches it on its new socket |
| `AsWritten.DropLeavesTable` | main/worker.cpp:149-178 | dropping a connection leaves its whole table for the next one on the socket |
| `LostWakeups.WakeupIsLost` | main/worker.cpp:149-178 | a run from power-on with every send accepted and the select task's steps in the order of its passes - connect, subscribe, publish, close, accept, handshake - after which a live socket has something to send and no write turn on its way |
| `Witnesses.UnansweredTurn` | main/worker.cpp:769-775 | such a run to a socket without any turn on its way, by a packet of unknown type |
| `Witnesses.OfflineIndex` | main/worker.cpp:121-126 | such a run to a PUBLISH that indexes the table with -1 |
| `Witnesses.PromotingPuback` | main/worker.cpp:524-534 | such a run to an ill-formed PUBACK that takes its entry out of its exchange |
| `Witnesses.CountWraps` | main/worker.cpp:676-692 | such a run, with 254 filters in one SUBSCRIBE, to a SUBSCRIBE that takes a stored and referenced message's count to 0 |
| `PublishStores.KnuthHashInRange` | main/includes/Publishhashmap.hpp:8-13 | for every id and every exponent up to 32 the hash is an index of a table of two to that power |
| `PublishStores.Probe` | main/Publishhashmap.cpp:14-26 | the cyclic walk finds the nearest slot that matches, or tells that no slot does |
| `PublishStores.PublishStore.constructor` | main/Publishhashmap.cpp:3-8 | an empty map on a table whose capacity is a power of two |
| `PublishStores.PublishStore.Get` | main/Publishhashmap.cpp:10-32 | the node last stored under the id, or nothing, although deletion leaves no tombstones |
| `PublishStores.PublishStore.Add` | main/Publishhashmap.cpp:34-64 | the map gains exactly this node; it fails exactly when there is no memory for the larger table that is needed or for the bytes, and then the map is as before |
| `PublishStores.PublishStore.Rehash` | main/includes/Publishhashmap.hpp:14-47 | the table doubles and the map stays |
| `PublishStores.PublishStore.SizeBound` | main/Publishhashmap.cpp:36-40 | there are never more nodes than slots, so a table that is not full has a free one |
| `PublishStores.PublishStore.PowerIsBelow16` | main/includes/Publishhashmap.hpp:17-19 | a full table has less than 2^16 slots, so the exponent stays in range |
| `PublishStores.PublishStore.Erase` | main/Publishhashmap.cpp:66-76 | the map loses exactly this id |
| `PublishStores.PublishStore.Release` | main/worker.cpp:143-146 | one reference less, and the node goes exactly at zero |
| `PublishStoreAsWritten.Get` | main/Publishhashmap.cpp:10-32 | as it stands the lookup sees the home slot and the next one |
| `PublishStoreAsWritten.Slot` | main/Publishhashmap.cpp:41-55 | as it stands `add` takes the home slot or the next one, free or not |
| `PublishStoreAsWritten.FoundExactly` | main/Publishhashmap.cpp:10-32 | that lookup is right if and only if the node, if any, is in one of the two |
| `PublishStoreAsWritten.Rehash` | main/includes/Publishhashmap.hpp:20-43 | the loop of `rehash` as it stands moves every node to one of its two new slots, free or not |
| `PublishStoreAsWritten.RehashExactly` | main/includes/Publishhashmap.hpp:14-47 | it keeps every message if and only if each one, as it is moved, finds one of the two free |
| `PublishStoreAsWritten.AddExactly` | main/Publishhashmap.cpp:34-64 | `add` as it stands, rehash included, leaves the intended map if and only if the table it looks in has lost nothing but this id and has room in one of the two slots, or has lost nothing and holds the id in the slot that is taken |
| `PublishStoreAsWritten.AddNewExactly` | main/Publishhashmap.cpp:34-64 | so a new id is added beside all others if and only if one of its two slots is free and, where there was a rehash, every message moved found room |
| `PublishStoreAsWritten.AddStoredExactly` | main/Publishhashmap.cpp:41-62 | and without a rehash an id that is stored replaces its message if and only if that lies in the slot that is taken |
| `PublishStoreAsWritten.AddTwiceHoldsNothing` | main/Publishhashmap.cpp:34-64 | a second node for a stored id, also where the repaired walk would put it, leaves a table that stores no map |
| `PublishStoreAsWritten.CollidingAddExactly` | main/worker.cpp:100-101 | of a PUBLISH with an id in use the lookup finds the new bytes if and only if the old node is not in its home slot |
| `PublishStoreAsWritten.CollidingExample` | main/Publishhashmap.cpp:34-64 | ids 1 and 22: after 1 is gone and 22 is published again its old deliveries get the new bytes |
| `PublishStoreAsWritten.TwoSlotsSuffice` | main/Publishhashmap.cpp:10-64 | as long as each add finds room the loops as they stand refine the map; by `RehashExactly` a rehash that finds room does too |
| `PublishStoreAsWritten.ThirdMessageReplacesSecond` | main/Publishhashmap.cpp:41-62 | ids 1, 22 and 56 in the 32 slots at power-on: the second message is lost |
| `PublishStoreAsWritten.StoredTwiceIsNeverRight` | main/worker.cpp:456-460 | whatever is stored, released in between or rehashed, a retained message added twice never ends up as the one node with two references |
| `PublishStoreAsWritten.StoredTwiceExactly` | main/worker.cpp:456-500 | with the first slot free for either add, from the start or by the release of the topic's old message, there are two nodes and the table stores no map; otherwise one reference is missing, and the rest is intact if and only if the slot after it was free |
| `PublishStoreAsWritten.StoredTwiceAfterErase` | main/worker.cpp:143-146 | after the node that is found is erased the id is still found if and only if the first slot was free for either add |
| `ZeroIdentifiers.ZeroAckExactly` | main/worker.cpp:503-635 | as the code stands an acknowledgement with id 0 does harm if and only if it is a PUBACK or PUBREC, some slot of the connection's table was freed in the state it waits for, and one of the two store slots looked at is free |
| `ZeroIdentifiers.ZeroAckExample` | main/worker.cpp:535-538 | after one acknowledged delivery a PUBACK with id 0 takes a slot of the empty store out of use |
| `ChainedMaps.Fnv1a` | main/includes/myhashmap.hpp:23-40 | the loop computes the 32-bit hash of the outer characters |
| `ChainedMaps.RehashBoundExactly` | main/includes/myhashmap.hpp:58-109 | relinking the first `size` buckets keeps all nodes if and only if the others are empty; with 0, if and only if there are none |
| `ChainedMaps.MoveBucket` | main/includes/myhashmap.hpp:70-107 | moving a chain node by node from its tail empties the bucket; every node is in one of the tables all the time |
| `ChainedMaps.State.LoadIsBounded` | main/includes/myhashmap.hpp:293-296 | the load bound kept by `add` and `erase` means at most five keys for each bucket |
| `ChainedMaps.State.KeyInBucket` | main/includes/myhashmap.hpp:186-207 | a key has a node if and only if its own bucket holds one, and only one |
| `ChainedMaps.ChainedMap.Get` | main/includes/myhashmap.hpp:186-232 | the data of the key, or nothing |
| `ChainedMaps.State.AddExactly` | main/includes/myhashmap.hpp:281-297 | chaining a node behind the others of its bucket leaves a map if and only if its key is new |
| `ChainedMaps.ChainedMap.Add` | main/includes/myhashmap.hpp:252-299 | the map gains exactly this key; the load bound is kept although only collisions rehash; a new table is at least twice as large |
| `ChainedMaps.ChainedMap.Rehash` | main/includes/myhashmap.hpp:58-109 | the map, the nodes and the count stay, every node in its new bucket |
| `ChainedMaps.ChainedMap.RehashAsWritten` | main/includes/myhashmap.hpp:58-109 | as it stands all keys are lost and the count is not |
| `ChainedMaps.ChainedMap.Update` | main/includes/myhashmap.hpp:301-326 | new data for a key that is there, no change otherwise |
| `ChainedMaps.ChainedMap.Erase` | main/includes/myhashmap.hpp:328-350 | the map loses exactly this key, and the count and the load bound stay right |
| `ChainedIterators.EachNodeOnce` | main/includes/myhashmap.hpp:114-182 | the order of iteration lists every node of the table, no other, and none twice |
| `ChainedIterators.Iterator.Next` | main/includes/myhashmap.hpp:132-153 | `operator++` moves to the next node of that order, across empty buckets |
| `ChainedIterators.Visit` | main/includes/myhashmap.hpp:171-182 | a loop from begin to end ends, having seen exactly that order |
| `Topics.SplitJoins` | main/Subscription.cpp:7-26 | the segments put together are the topic, none is empty, and a separator only begins one |
| `Topics.SplitInjective` | main/Subscription.cpp:7-26 | distinct topics have distinct paths |
| `Topics.SplitAsWrittenExactly` | main/Subscription.cpp:9-12 | the scan as it stands reaches the end of the topic if and only if that has no separator |
| `Topics.SameWithoutSeparator` | main/Subscription.cpp:9-12 | on those topics it finds the segment that the repaired one finds |
| `Subscriptions.Subscriptions.IsSubscribedTo` | main/Subscription.cpp:31-45 | the walk returns the topic's QoS in the map the trie stands for, or EMPTY_QOS |
| `Subscriptions.Subscriptions.AddSub` | main/Subscription.cpp:5-29 | the map gets the QoS for exactly this path, and no dead branch appears |
| `Subscriptions.Subscriptions.DeleteSub` | main/Subscription.cpp:47-96 | the map loses exactly this path, nothing if it is absent, and no dead branch is left |
| `Subscriptions.Subscriptions.Seek` | main/Subscription.cpp:49-95 | the one-pass bookkeeping: every node strictly below `del_parent` down to the last but one has one child and no QoS |
| `Subscriptions.Subscriptions.OnChain` | main/Subscription.cpp:84-93 | below such a chain there is nothing else |
| `Subscriptions.Subscriptions.PruneChain` | main/Subscription.cpp:67-76 | so cutting it takes away one subscription and leaves the parent needed: the chain is maximal |
| `Subscriptions.AddedTopic` | main/Subscription.cpp:5-29 | in terms of topics: the new QoS for this topic, every other lookup as before |
| `Subscriptions.DeletedTopic` | main/Subscription.cpp:47-96 | EMPTY_QOS for this topic, every other lookup as before |
| `Subscriptions.SubscribeRefines` | main/Client.cpp:10-14 | so the trie goes on standing for the client's topic map after a SUBSCRIBE |
| `Subscriptions.UnsubscribeRefines` | main/Client.cpp:22-25 | and after an UNSUBSCRIBE |
| `SubscriptionsAsWritten.AddAsWrittenExactly` | main/Subscription.cpp:5-29 | `add_sub` as it stands comes to its end if and only if the topic has no separator and a node or memory for one; with a separator it makes nodes until memory is gone and fails |
| `SubscriptionsAsWritten.LookAsWrittenFindsNothing` | main/Subscription.cpp:31-45 | `is_subed_to` as it stands finds no topic with a separator, in any trie |
| `SubscriptionsAsWritten.DeleteAsWrittenExactly` | main/Subscription.cpp:47-96 | `delete_sub` as it stands ends on a topic with a separator if and only if the root lacks the first or the empty segment, and changes nothing then |
| `SubscriptionsAsWritten.OneSegmentExactly` | main/Subscription.cpp:58-78 | as it stands a topic of one segment is deleted as intended if and only if it has a node; otherwise the code follows null |
| `SubscriptionsAsWritten.DeleteExactly` | main/Subscription.cpp:58-94 | with the scan repaired, a subscription of several segments is deleted as intended if and only if the root has a node for every segment, the last one's without children, the dead chain found at the root begins before the last segment and hangs where the path begins, and the path is a dead chain with a leaf from there on |
| `SubscriptionsAsWritten.TwoSegmentsExactly` | main/Subscription.cpp:58-94 | spelled out for two segments |
| `SubscriptionsAsWritten.DeleteAbsentExactly` | main/Subscription.cpp:58-94 | with the scan repaired, a topic nobody subscribes to is left alone if and only if the root lacks a segment before the last, or the last one's node has children and no mark, or the last busy node lacks the segment after it and has another child in that bucket; with an empty bucket the erase follows null |
| `MyVectors.MyVector.PushBack` | main/myvector.ipp:102-115 | appends, growing by two when full; without memory nothing changes |
| `MyVectors.MyVector.Insert` | main/myvector.ipp:156-181 | inserts before `pos`; the array is replaced exactly when it was full |
| `MyVectors.MyVector.Reserve` | main/myvector.ipp:128-141 | the contents stay and the room is as asked for; without memory nothing changes; with less room than is in use the code copies behind the new array |
| `MyVectors.MyVector.Equal` | main/myvector.ipp:150-154 | tells whether the contents are this sequence |
| `FixedHeader.ReadLength` | main/worker.cpp:297-326 | over any stream the loop yields the field's value modulo 2^16 and the header size, or a failed read if the stream ends first; it writes behind the 1024-byte buffer if and only if the stream goes on and none of its first 1023 bytes ends the field |
| `FixedHeader.EncodedFits` | main/worker.cpp:297-326 | no length of the standard does that |
| `FixedHeader.EncodeIsField` | main/worker.cpp:697-713 | an encoded length is one field, whatever follows it, and stands for the length (section 2.2.3) |
| `FixedHeader.DecodeEncode` | main/worker.cpp:297-326 | reading undoes encoding modulo 2^16 for every length of the standard, with the right header size |
| `FixedHeader.RoundTripExactly` | main/worker.cpp:309-312 | the length comes back if and only if it is below 2^16, so for all up to 16383 |
| `FixedHeader.MisreadExactly` | main/worker.cpp:312-326 | which packets the size limit lets through, and which of them are misread |
| `FixedHeader.MisreadExample` | main/worker.cpp:309-321 | a packet of 65546 bytes is taken for one of 10 |
| `Subacks.Suback` | main/worker.cpp:646-719 | the frame is 0x90, the encoded length 2+k, the packet id, and k codes in order (section 3.9) |
| `Subacks.FrameRoundTrip` | main/worker.cpp:297-326 | the header loop reads that frame back: length 2+k, and behind the header the id and the codes |
| `Subacks.SubackAsWritten` | main/worker.cpp:646-719 | the frame the code sends, with writes through a stale pointer lost |
| `Subacks.SubackExactly` | main/worker.cpp:695-713 | it is the right frame if and only if 2+k < 128, or 2+k < 16384 and k is even |
| `Subacks.SubackFails` | main/worker.cpp:695-713 | with 127 filters the second length byte stays zero |

## Left out

- Wildcard subscriptions: the repository's README claims them, but no function implements them.
- TLS, sockets, Wi-Fi, certificates and logging: foreign code; reads, writes and TLS steps are inputs of a turn.
- Passwords and CONNECT parsing: a CONNECT is accepted or not, with its client identifier, session flag and will.
- Keep-alive: it is parsed and never used.
- Offline queueing: the code indexes its table with -1 there; the model records that as a fault, and the theorems are about runs without one.
- Will framing: the code passes the bare payload where a PUBLISH packet is meant; the model passes it on as it is.
- Allocation failure where the code does not return cleanly: it is assumed not to happen, also in class Worker; the message store, the chained table's rehash and the array model it.
- The capacity of the queues: a send of the worker may fail at any point, but in the runs the select task's sends to pending_socks succeed; EventLoop.RefusedReadExactly and RefusedWriteExactly say what a refused one does, and after a refused one for an accepted socket that is never served.
- The phases of a select pass: in module EventLoop a watched socket may be found ready between any two steps, which includes what select reports.
- A turn's messages reach the queue one by one, but the turn's changes to the tables are made at once: the select task does not see the tables.
- The order in which a fan-out visits clients is the order in which they came, not that of the chained table; no theorem depends on it.
- Workers.Worker: the retained topics, the clients and each client's subscriptions are maps and sequences here, not the objects of ChainedMaps and Subscriptions, which refine such maps; the messages are in the hash table.
- Subscriptions.Subscriptions: a node's children are a map, not an object of class ChainedMap; a failing allocation inside add_sub is not modelled.
- Subscriptions.Subscriptions.DeleteSub: the empty topic is never deleted, as the code finds no child for it.
- ChainedMaps.ChainedMap.Erase: asks that the key's bucket is in use, since the code reads its first node without looking.
- ChainedMaps.ChainedMap.Add: asks that the key is new, as all callers look first; ChainedMaps.State.AddExactly says that a second node for a key leaves no map.
- PublishStores.PublishStore: an initial capacity of 1, for which the code shifts by 32, is excluded; nothing is added under identifier 0, which marks a free slot.
- PublishStoreAsWritten.StoredTwiceExactly: speaks of adds without a rehash and of a topic whose old message has another identifier, as does StoredTwiceAfterErase; StoredTwiceIsNeverRight covers the rehash.
- PublishStoreAsWritten.AddStoredExactly: without a rehash; AddExactly covers the other case in terms of the table after it.
- Runs.AlwaysConforms: excludes the one turn that breaks an exchange, an ill-formed PUBACK for which a message published at QoS 2 is written again; Exchange.HandleFitsExactly says that it does.
- Runs.AlwaysRetained: a retained PUBLISH without payload is kept like any other, as the code does; section 3.3.1.3 says it should clear the slot.
- Runs.DeliveriesFinish: bounds the effective turns; that turns happen at all is up to the scheduler and the clients.
- Reading.ReadAgain: about stretches in which nothing is added to the socket's table, its sends are accepted and it is not read; a socket that is sent to without end is read only in between, as in the code.
- TurnEffects.PublishTurn: for turns whose requests are accepted and topics without an offline subscriber; PublishTurnIfAsked covers refused requests, and Faults.HandleFaultsExactly says when the code goes wrong. The same holds for WillTurn.
- UNSUBSCRIBE with wrong reserved bits: the code drops the connection and goes on reading the packet; not modelled.
- UNSUBACK, CONNACK and PINGRESP frames: a few bytes each.
