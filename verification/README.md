# Store-and-forward vehicle telemetry: a verified model

The firmware reads vehicle and GPS data, assembles 54-byte packets, queues them, spills them to a file
stack on an SD card while the uplink is slow, and publishes them with its own MQTT client over a GSM/PPP
link. This project models the state and the arithmetic between those parts and proves what they promise:
the file stack is a LIFO stack although it stores no index, no interleaving of the tasks loses or
duplicates a packet except in two named ways, each packet carries the latest readings, every packet taken from the queue reaches each of its topics
exactly once over any sequence of network failures, the packet codec round-trips, a PUBLISH that arrives in
pieces is delivered whole, acknowledgements are counted right exactly as long as every step is one the
accounting can bear, the modem's start-up ends within its budget, and a disconnect request that returns has
been served, and can return exactly as long as somebody is left to serve it.

One module per component, each in a file of its name:

| file | module | component |
|---|---|---|
| Bytes.dfy | Bytes | bytes as bounded integers and the C operators on them |
| Packets.dfy | Packets | the packet, its 54-byte image, what a GPS fix adds to it |
| Stack.dfy | Stacks | the abstract stack that file and pipeline are compared with |
| FileStack.dfy | FileStacks | the file stack, its start-up scan and its repair |
| RmcParser.dfy | RmcParser | the GPS sentence parser |
| Pipeline.dfy | Pipeline | parse, card and MQTT tasks as one state machine over all schedules, for any packets |
| PacketAssembly.dfy | PacketAssembly | what messages do to the packet under assembly, and what its flags mean |
| CollectorTasks.dfy | CollectorTasks | the parse and card tasks as code over the queues and the real file stack |
| RetryTask.dfy | RetryTask | the publishing task with its retry and reconnect logic |
| Delivery.dfy | Delivery | pipeline and publishing task as one machine, joined at the outgoing queue |
| MqttPackets.dfy | MqttPackets | packet layouts and the fixed header |
| MqttBuilders.dfy | MqttBuilders | the packet builders over one bounded buffer |
| MqttDecoders.dfy | MqttDecoders | the decoders and the PUBLISH round trip |
| ConnectParser.dfy | ConnectParser | readers of CONNECT, SUBSCRIBE and UNSUBSCRIBE written from MQTT 3.1.1 |
| Reassembly.dfy | Reassembly | delivery of a PUBLISH that arrives in pieces |
| Outbox.dfy | Outboxes | the outbox, its eviction and its 32-bit clock |
| PendingAcks.dfy | PendingAcks | slot, counter and outbox of unacknowledged requests |
| GsmInit.dfy | GsmInit | the modem initialisation loop |
| Handshake.dfy | Handshake | the disconnect handshake |
| WebSocket.dfy | WebSocket | writing a WebSocket frame |

Where the source changes state in place the model does too: classes with the source's fields, arrays for its
buffers, loops where it loops. Each such method is proved against a function of the old state, and the
promises are lemmas about runs of that function. Code that runs in several tasks is cut at its atomic steps
(a queue call, a section under the mutex, a file operation); schedules are arbitrary sequences of steps, and
a task written as code takes what the others do between and during its calls as such a sequence.

Reads, writes, modem answers, the clock, random draws and the order of task switches are parameters: every
statement holds for all of them. A string is a sequence of bytes without its terminator; an absent string and
an empty one are the same, as they are to the code. `|=` on flag bits not yet set is written as addition.
Queue calls and mutex sections are taken as atomic, and a mutex is taken as always obtained.

What the proofs show about the code that a reader might not expect:

- The card task tests OutQueue before it pops, but its send comes later; when the queue fills in between and
  stays full for the timeout, the popped packet is gone. `Pipeline.DropCause` says exactly when a step drops a
  packet, and `Pipeline.CardTaskCanDrop` reaches this case from every start.
- The start-up scan counts from the last `#` to the end of the file, so blank records left by pops are
  counted as stored ones (`FileStacks.StartupDepth`), and its remainder counts blanks as broken bytes too. The
  repair clears one byte more than that remainder: the records below the broken bytes survive exactly when
  more bytes were broken than the remainder says and those it does not reach are zero
  (`FileStacks.RepairKeepsRecords`). Even a good repair of records without `#` reports failure
  (`FileStacks.GoodRepairReportsFailure`).
- Whatever went wrong before, a publishing task that runs and does not hang can still deliver everything that was
  emitted and not dropped (`Delivery.EverythingCanArrive`).
- A packet whose remaining length exceeds 16383 gets a header that announces another length
  (`MqttPackets.RemainingLengthIsRight`).
- The id of a QoS 1 or 2 PUBLISH reads as 0 exactly when the length asked about ends with the header, as it can
  for an empty payload (`MqttDecoders.PublishIdReadBack`).
- The builder emits CONNECT packets that MQTT 3.1.1 forbids for a password without a user name or a will QoS
  of 3 (`ConnectParser.ConnectRoundTrip`).
- A second acknowledgement of the same request can be accepted and then hides an open one
  (`PendingAcks.SecondAckMiscounts`); `PendingAcks.CountIsOpenRequests` gives the exact condition.
- The initialisation sends at most 29 commands: twenty-one failures and eight successes when it gives up,
  nine successes and twenty failures when it succeeds (`GsmInit.InitialiseModem`); both happen
  (`GsmInit.FailuresAfterEight`, `GsmInit.TwentyFailuresFirst`).
- A disconnect request need not return: the client waits for ever exactly when its request stands and the task is
  gone or leaving, or when all of the service passed before its first look (`Handshake.ReturnsUnlessLost`). Each
  of these is reachable, and as long as the client is in its first wait its request can still get lost
  (`Handshake.FirstWaitCanLose`). After ppposInit the link can come up by itself exactly when the task was not just
  leaving (`Handshake.InitComesUpUnlessLeaving`).
- A WebSocket payload over 65535 bytes goes out with a truncated length (`WebSocket.FrameRoundTrip`), and a
  failed write leaves the caller's buffer masked (`WebSocket.Write`).

## Model

| member | source | states |
|---|---|---|
| FileStacks.ImageInjective | components/stack_utils.c:19-26 | the bytes of the file alone determine the stack, so no index needs to be stored |
| FileStacks.FileStack.FindTop | components/stack_utils.c:19-26 | the backward scan ends just past the last nonzero byte |
| FileStacks.FileStack.Pop | components/stack_utils.c:72-95 | answers the newest record byte for byte, blanks it in place, keeps the file's length, and leaves everything alone on an empty stack |
| FileStacks.FileStack.Push | components/stack_utils.c:97-106 | puts the record on top, reusing blank bytes, and extends the file only when they run out |
| FileStacks.FileStack.Run | components/stack_utils.c:72-106 | any run of pushes and pops answers what an abstract stack answers; the file is always sentinel, records, blanks, and its size is set by the greatest depth reached |
| Stacks.LastInFirstOut | components/include/stack_utils.h:33-45 | a pop answers the record of its matching push whatever balanced traffic ran in between, and restores the stack |
| FileStacks.FileStack.FindDepth | components/stack_utils.c:28-70 | reports the whole records between the last `#` and the end of the file; with a remainder, repairs once by that remainder and reports what the rescan from the new top finds |
| FileStacks.StartupDepth | components/stack_utils.c:28-43 | when the reported depth is the true one: exactly when the last `#` lies within one record below the height of the blank part; without a `#` in a record, exactly when there are no blanks |
| FileStacks.FileStack.ClearBroken | components/stack_utils.c:48-53 | the exact bytes the repair loop clears, one more than the broken ones, also where the seek fails at the start of the file |
| FileStacks.FileStack.Rescan | components/stack_utils.c:55-69 | counts from just above the new top to the last `#`, and reports a success exactly for whole records |
| FileStacks.RepairKeepsRecords | components/stack_utils.c:45-53 | the cleared file holds the records below the broken bytes exactly when count + 1 broken bytes were there and those not reached are zero, with the count the scan takes |
| FileStacks.GoodRepairReportsFailure | components/stack_utils.c:55-69 | the rescan of a file of whole records without `#` in them finds the true depth and a remainder of one |
| Packets.BytesRoundTrip | components/include/elm327.h:52-61 | the 54-byte image gives the packet back, each member at its place in the struct |
| Packets.FixFlags | components/parse_utils.c:145-179 | LAT and LONG are set exactly for a position, TIME exactly for a time, every other flag stays |
| RmcParser.ParseGps | components/parse_utils.c:113-194 | for every printed RMC sentence the parser stays inside it; latitude, longitude and time become what the sentence prints, when it prints them, with their flags, and every other reading and flag stays |
| RmcParser.ParsePosition | components/parse_utils.c:137-173 | fixed offsets recover latitude and longitude as printed; with or without a position the index ends at the date |
| Pipeline.EveryRunIsSafe | components/can_collector_utils.c:121-223 | over every interleaving each emitted packet is in exactly one place, queues hold at most five, and the card task's depth is the file's |
| Pipeline.EverywhereInEveryRun | components/can_collector_utils.c:121-223 | what messages and send attempts keep of a packet holds in every run of every packet queued, stored or held |
| Pipeline.DropCause | components/can_collector_utils.c:175-221 | a step drops a packet exactly when the parse task finds storeQueue full after OutQueue, or the card task's send times out on a full OutQueue |
| Pipeline.ParseTaskCanDrop | components/can_collector_utils.c:178-188 | from every start a run leads to both queues full at an emission |
| Pipeline.CardTaskCanDrop | components/can_collector_utils.c:206-211 | and one to a popped packet whose send finds OutQueue full |
| Pipeline.NoBacklogMeansFifo | components/can_collector_utils.c:178-188 | while no send finds OutQueue full, packets leave in emission order and nothing is stored or dropped |
| Pipeline.RefillsComeFromTheStack | components/can_collector_utils.c:205-221 | over every interleaving the spilled packets are pushed oldest first and what the card task sends on or gives up is what the pops of that stack answer, so refills are last in, first out |
| PacketAssembly.AbsorbReadings | components/can_collector_utils.c:135-168 | each kind of message sets its own reading to the value it carries and leaves every other one as it was |
| PacketAssembly.ReadingsAreLatest | components/can_collector_utils.c:130-191 | in every run each reading of the packet is the one in the last message taken that carries it, or the initial one; sending keeps the readings |
| PacketAssembly.EmittedHoldsLatest | components/can_collector_utils.c:175-191 | a step emits a packet exactly when packetREADY is tested and has been raised since the last emission; the packet has the latest readings and the flags of the new ones |
| PacketAssembly.AbsorbFlags | components/can_collector_utils.c:135-168 | each kind of message raises its own flags and touches no other |
| PacketAssembly.MiscEverywhere | components/can_collector_utils.c:128-190 | in every run each packet queued, stored or held has the MISC bit |
| PacketAssembly.FlagsAreFresh | components/can_collector_utils.c:130-191 | in every run a packet's flags are MISC and exactly those of the messages taken since the last emission |
| CollectorTasks.Collector.CardPop | components/can_collector_utils.c:206-211 | popping through the real file stack is the state machine's pop |
| CollectorTasks.Collector.CardPush | components/can_collector_utils.c:215-220 | pushing through the real file stack is the state machine's push, and the MISC bit meets the stack's demand |
| CollectorTasks.Collector.SendToOut | components/can_collector_utils.c:211-211 | the blocking send, whatever runs while it waits, puts the popped packet in OutQueue or drops it |
| CollectorTasks.Collector.RunCard | components/can_collector_utils.c:205-223 | the card task's loop, whatever the others do between and during its calls, is a run of the state machine in which it begins one turn after another, and its private depth is the file's after each |
| CollectorTasks.Collector.RunParse | components/can_collector_utils.c:130-194 | the parse task's loop, likewise, taking exactly its messages in order |
| CollectorTasks.Collector.Schedule | components/can_collector_utils.c:121-223 | any schedule over the real file stack is a run of the state machine |
| RetryTask.EachPacketOnce | components/mqtt_client.c:914-1078 | over any failures, accepted data writes are the packets taken, once each and in order, and GPS writes those with a fix, the last packet possibly pending |
| RetryTask.TakenOnlyWhenSettled | components/mqtt_client.c:1018-1061 | a packet is taken only when all earlier ones are on every topic they belong to |
| RetryTask.WritesAfter | components/mqtt_client.c:951-1046 | which writes a turn makes, and that a write counts as accepted exactly when the transport answers a positive count |
| RetryTask.GoodTurnSettles | components/mqtt_client.c:951-1061 | a connected turn with good writes settles the packet in hand or takes and settles the next |
| RetryTask.PhaseAfter | components/mqtt_client.c:914-1078 | which phase each turn ends in, in terms of the answers it got, and when the task stops or hangs |
| RetryTask.TicksAfter | components/mqtt_client.c:287-297 | an abort stores the reconnect timeout and the clock; the keep-alive tick moves exactly when a due ping was written |
| RetryTask.AttemptAfter | components/mqtt_client.c:943-1018 | the attempt number is 1 for a packet just taken and one more for each retry and each refused handshake |
| RetryTask.TurnBefore | components/mqtt_client.c:914-1078 | after each turn of a run the task is connected exactly when the turn kept the connection or made it |
| RetryTask.ConnectedSinceHandshake | components/mqtt_client.c:914-1078 | over every run a task is connected exactly when it has a transport, some turn shook hands, and every later turn had PPP up and was idle or had no failed read and wrote a due ping |
| RetryTask.HandshakeThenGoodTurn | components/mqtt_client.c:930-1061 | a handshake and a good turn settle the packet in hand or take and settle the next |
| RetryTask.DeliversIffRunning | components/mqtt_client.c:914-1078 | from every reachable state a running task can deliver what it has and any next packet; a stopped or hung one never takes one again |
| RetryTask.BackOff | components/mqtt_client.c:287-297 | after an abort, with PPP up, no new attempt before the reconnect timeout is over |
| RetryTask.MqttTask.PublishTurn | components/mqtt_client.c:951-1061 | the retry branches do what the state machine says |
| RetryTask.MqttTask.Task | components/mqtt_client.c:914-1078 | the loop over any answers of the network is a run of the state machine and keeps its invariant |
| Delivery.TurnTakesTheHead | components/mqtt_client.c:1034-1046 | a turn that reaches its receive takes the head of the outgoing queue, if there is one, and no other turn takes anything |
| Delivery.HandshakeThenHead | components/mqtt_client.c:930-1061 | in every joint run a handshake and a good turn take and deliver the head of the queue, or settle the packet in hand first |
| Delivery.EverythingCanArrive | components/mqtt_client.c:914-1078 | from every reachable joint state with a running task some continuation, without another drop, delivers every packet emitted and not dropped |
| Delivery.EmittedIsAccountedFor | components/mqtt_client.c:914-1078 | over joint runs of all tasks every emitted packet is accepted once, still somewhere, or dropped, and none is accepted more often than emitted |
| MqttPackets.RemainingLengthIsRight | components/lib/mqtt_msg.c:106-127 | the header announces the true remaining length exactly up to 16383 |
| MqttBuilders.Connection.AppendString | components/lib/mqtt_msg.c:63-74 | appends the string with its true length, or refuses exactly when it does not fit |
| MqttBuilders.Connection.AppendMessageId | components/lib/mqtt_msg.c:76-91 | appends the given id or a nonzero draw, or refuses |
| MqttBuilders.Connection.Fini | components/lib/mqtt_msg.c:106-127 | places the header against the body, wherever its size makes it start |
| MqttBuilders.Connection.Connect | components/lib/mqtt_msg.c:292-360 | the CONNECT packet if the client id is nonempty and everything fits, else length 0; never outside the buffer |
| MqttBuilders.Connection.Publish | components/lib/mqtt_msg.c:362-386 | the PUBLISH packet if the topic is nonempty and everything fits, else length 0, and the id used |
| MqttBuilders.Connection.Subscribe | components/lib/mqtt_msg.c:420-438 | the SUBSCRIBE packet or length 0, and the id used |
| MqttBuilders.Connection.Unsubscribe | components/lib/mqtt_msg.c:440-454 | the UNSUBSCRIBE packet or length 0, and the id used |
| MqttBuilders.Connection.Acknowledge | components/lib/mqtt_msg.c:388-418 | the four acknowledgement packets |
| MqttBuilders.Connection.Bare | components/lib/mqtt_msg.c:456-472 | the three packets without a body |
| MqttDecoders.ReadTotalLength | components/lib/mqtt_msg.c:136-153 | the loop sums the length bytes and the header they make |
| MqttDecoders.ReadPublishTopic | components/lib/mqtt_msg.c:155-182 | the loop and the bound tests find the topic |
| MqttDecoders.ReadPublishData | components/lib/mqtt_msg.c:184-228 | the loop and the bound tests find the payload present |
| MqttDecoders.ReadId | components/lib/mqtt_msg.c:230-290 | the separate scan finds the id |
| MqttDecoders.ScanReadBack | components/lib/mqtt_msg.c:136-153 | every scan stops at the end of the fixed header with the packet's total length |
| MqttDecoders.PublishReadBack | components/lib/mqtt_msg.c:136-228 | type, QoS, retain, total length, topic and the payload received so far come back from any prefix that holds the header |
| MqttDecoders.PublishIdReadBack | components/lib/mqtt_msg.c:237-270 | from any prefix that holds the header, the id is the packet's for QoS 1 and 2 when the given length goes past it, and 0 otherwise |
| MqttDecoders.PartialReadBack | components/lib/mqtt_msg.c:155-270 | before the header is complete only the topic comes back, as soon as it is there |
| MqttDecoders.TopicFoundIff | components/lib/mqtt_msg.c:155-182 | for any bytes, when the topic is found |
| MqttDecoders.NoIdOtherwise | components/lib/mqtt_msg.c:230-290 | packets of other kinds have id 0 |
| MqttDecoders.AcknowledgementIdReadBack | components/lib/mqtt_msg.c:271-285 | the id of an acknowledgement or SUBSCRIBE comes back with a one-byte length, else 0 |
| ConnectParser.ConnectRoundTrip | components/lib/mqtt_msg.c:292-360 | a reader for section 3.1 of MQTT 3.1.1 recovers exactly the settings, and rejects exactly those that break its rules |
| ConnectParser.FlagsReadBack | components/lib/mqtt_msg.c:314-357 | every flag bit reads back as the setting it was raised for |
| ConnectParser.TopicRequestRoundTrip | components/lib/mqtt_msg.c:420-454 | id, topic and QoS of SUBSCRIBE and UNSUBSCRIBE come back, except a QoS that does not exist |
| Reassembly.Client.FollowingEvents | components/mqtt_client.c:517-556 | the reads after the first give the following payload bytes, until complete or a read fails |
| Reassembly.Client.DeliverPublish | components/mqtt_client.c:510-559 | event data concatenates to the payload read, offsets and totals are true, nothing behind the packet is taken, complete exactly when no read failed |
| Reassembly.Client.ReceivePublish | components/mqtt_client.c:652-656 | the same from the first read on, with the message length found by the decoder |
| Reassembly.FirstTotalIsExact | components/mqtt_client.c:519-525 | the first event announces the true total exactly when the first read held header, topic and id |
| Outboxes.Outbox.Delete | components/lib/mqtt_outbox.c:57-71 | removes the first item with this id and type, exactly when there is one |
| Outboxes.SizeAdds | components/lib/mqtt_outbox.c:123-131 | the size is the sum of the lengths |
| Outboxes.TickAgeIsTrueAge | components/lib/mqtt_outbox.c:113-113 | the wrapped difference of truncated clocks is the truncated true age |
| Outboxes.YoungParts | components/lib/mqtt_outbox.c:109-121 | what expiry keeps is decided item by item, in order, by the true age |
| Outboxes.ExpiryTest | components/lib/mqtt_outbox.c:109-121 | for which true ages of any size the test says expired |
| Outboxes.Outbox.DeleteExpired | components/lib/mqtt_outbox.c:109-121 | keeps, in order, exactly the items whose true age is within the timeout |
| Outboxes.EvictParts | components/lib/mqtt_outbox.c:133-145 | eviction keeps all pending items and a suffix of the others, in order |
| Outboxes.Outbox.Cleanup | components/lib/mqtt_outbox.c:133-145 | evicts the fewest oldest non-pending items that bring the size within the limit, or all of them; it fails exactly when the pending items alone exceed the limit |
| PendingAcks.StepKeepsAccountIff | components/mqtt_client.c:561-594 | a request keeps the account exactly when its key is not open yet, an acknowledgement exactly when its key is open or it is refused |
| PendingAcks.CountIsOpenRequests | components/mqtt_client.c:561-594 | the count is the number of open requests above its initial value, each in the slot or the outbox, all along a run exactly when each of its steps is such a step |
| PendingAcks.OrderlyIsBearable | components/mqtt_client.c:1125-1201 | distinct keys in flight with one acknowledgement each make such a run |
| PendingAcks.AcceptedIffOpen | components/mqtt_client.c:561-577 | in such a run exactly the acknowledgements of open requests are accepted |
| PendingAcks.AcknowledgeTakesOut | components/mqtt_client.c:567-570 | an acknowledgement found in the outbox takes out the first item with its key and no other |
| PendingAcks.SecondAckMiscounts | components/mqtt_client.c:571-574 | a repeated acknowledgement is accepted from the slot and makes a later true one fail |
| PendingAcks.Client.SendRequest | components/mqtt_client.c:1125-1201 | the slot moves to the outbox, the new request takes it, the count rises even if the request did not fit or the write failed |
| PendingAcks.MovedExpires | components/mqtt_client.c:579-594 | a request in the outbox expires by the true time since it was moved there |
| PendingAcks.Client.IsValid | components/mqtt_client.c:561-577 | accepts and removes from the outbox first, then from the slot |
| GsmInit.Initialise | components/libGSM.c:584-619 | for any commands, budget and answers: flags stay a prefix, the loop ends, and normal exit means each command still to do succeeded once in order |
| GsmInit.InitialiseModem | components/libGSM.c:489-619 | nine commands and a budget of twenty: at most 29 commands are sent |
| GsmInit.TwentyFailuresFirst | components/libGSM.c:584-619 | a success that takes 29 commands |
| GsmInit.FailuresAfterEight | components/libGSM.c:584-619 | a failure that takes 29 commands |
| Handshake.TaskMovesIff | components/libGSM.c:575-757 | exactly when and by which step the task goes where: initialisation, modem loop, lost link, service of a request, exit |
| Handshake.ReturnMeansServed | components/libGSM.c:655-713 | when a request has returned, PPP was since closed, seen down, disconnected, and IDLE and 0 stored, in this order |
| Handshake.ReturningStep | components/libGSM.c:820-849 | the zero that ends the wait is the one its own service stored |
| Handshake.ConnectedIffUpSince | components/libGSM.c:571-752 | in every run the status says connected exactly when the last word on it was the callback's that the link is up |
| Handshake.ServedThenIdle | components/libGSM.c:690-713 | after a service the status is idle and a further request returns at its test |
| Handshake.ReturnsUnlessLost | components/libGSM.c:820-849 | from any reachable state a waiting client can still return exactly when its request is not lost |
| Handshake.RunKeepsLost | components/libGSM.c:837-848 | once it is lost every continuation leaves the client waiting |
| Handshake.FirstWaitCanLose | components/libGSM.c:837-842 | from every reachable state in the first wait some run loses the request |
| Handshake.InitComesUpUnlessLeaving | components/libGSM.c:759-817 | from every reachable state with the client outside, ppposInit sets the flag, and then task and callback alone can bring the link up exactly when the task was not leaving |
| Handshake.CanComeUpAgain | components/libGSM.c:759-817 | from every reachable state with the client outside the link can come up again |
| Handshake.ReconnectsIffAsked | components/libGSM.c:700-707 | in every run the task's wait for a reconnect request ends exactly when a later ppposInit or end request has written the flag |
| Handshake.LostWithoutATask | components/libGSM.c:820-842 | a run from the start that loses a request: no PPP task |
| Handshake.LostToALeavingTask | components/libGSM.c:715-752 | and one: the task's new initialisation fails during the client's delay |
| Handshake.LostThoughServed | components/libGSM.c:655-713 | and one: the whole service passes before the client's first look |
| Handshake.Link.PpposInit | components/libGSM.c:759-817 | the flag is set and a missing task started before the wait; it answers that the link is up or the task gone only when it saw so |
| Handshake.Link.PpposDisconnect | components/libGSM.c:820-849 | both polling loops, whatever task and callback do in between: on return the request has been served in full |
| Handshake.Link.ServeRequest | components/libGSM.c:653-713 | the request branch of the modem loop with its two waits: it exits only for a request to end the task, having served it in full |
| WebSocket.FrameRoundTrip | components/lib/transport_ws.c:124-147 | a reader for sections 5.2 and 5.3 of RFC 6455 finds one final binary frame with the original bytes in the shortest form, exactly up to 65535 bytes |
| WebSocket.MaskedBits | components/lib/transport_ws.c:140-142 | a masked byte differs from the original exactly in the bits of its key byte |
| WebSocket.Write | components/lib/transport_ws.c:112-148 | builds that header, masks exactly the payload in place, bit by bit with the key in turn, and reports the transport's answers |
| Bytes.OrBit | components/parse_utils.c:146-179 | the modelled `|` sets exactly the bits of either operand |
| Bytes.XorBit | components/lib/transport_ws.c:140-142 | the modelled `^` sets exactly the bits in which the operands differ |
| Bytes.XorTwice | components/lib/transport_ws.c:140-142 | masking twice with one key gives the byte back |

## Left out

- UART, GPIO, sockets, TLS, SNTP, NVS, lwIP and logging: foreign or input and output; their answers are parameters.
- SD mounting and file creation in stack_init: the model starts from an initialised file.
- FileStacks.FileStack.FindDepth: "broken" is the exact remainder; the source compares a single-precision quotient with the depth, which is the same for files up to 16 MiB.
- FileStacks.FileStack.Pop: the source negates an unsigned record size as a file offset; this is taken as minus 54, as it is with 32-bit offsets.
- RmcParser.ParseGps: sentences outside the printed form, on which the source reads past the buffer.
- Packets.Packet: a value, not an object; the source mutates one struct and copies it at queue and file calls.
- Outboxes.Outbox: the linked list is a sequence that the methods reassign; node addresses, item buffers and sums beyond 32 bits are not captured, nor are outbox_delete_msgid, outbox_delete_msgtype and outbox_set_pending.
- MqttDecoders.ReadTotalLength: shifts by 35 bits and more, undefined in C, are unbounded here; they need at least six length bytes.
- MqttBuilders.Connection.AppendMessageId: the loop over random draws is its first nonzero draw, which the source keeps below 65535.
- Reassembly.Client.ReceivePublish: the PUBACK or PUBREC written before delivery, reads that hold more than one packet, and topic pointers of later events.
- QoS 2 completion: the source looks for a pending type that no entry ever has.
- PendingAcks.Client.SendRequest: the bytes copied to the outbox, which are whatever was sent last; id and type of a request that does not fit are parameters.
- RetryTask.MqttTask: message formatting; whether a packet formats with a GPS fix is a function of the packet, and a write counts as accepted when the transport answers a positive count.
- RetryTask.MqttTask.PublishTurn: the outbox_delete_expired and outbox_cleanup calls that end a good turn, which touch only the outbox, and a ppposInit that does not return, which ends a run.
- Handshake.Link: timing, so that a client may miss the pick-up however short its polling interval; the task outside the request branch is the state machine only.
- CollectorTasks.Collector: rxQueue and the query task; packetREADY is cleared with the send that it follows.
- The masked path of ws_read and frames split over reads.
- SMS functions, OTA update, VIN offsets, ELM327 commands and transport dispatch: easy or plumbing.
