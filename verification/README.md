# Verified model of the multiplayer kit

A Dafny model of the parts of the multiplayer kit where independent tasks, bounded queues and raw
byte streams meet, with proofs of what holds in every reachable state and over every run. Users,
channel types, messages, room configurations and actors are arbitrary; a game's codec is assumed only
to decode what it encoded, on the message's own channel, and to name each channel type by an id byte.
An actor is any pure function of its state.

| module | file | subject |
|---|---|---|
| `Framing` | `Framing.dfy` | length-prefixed frames, the one-shot reading of a stream, the incremental buffer |
| `ServerReads` | `ServerReads.dfy` | a server channel task's two read phases |
| `ClientChannel` | `ClientChannel.dfy` | a client channel task |
| `Uplink` | `Uplink.dfy` | a client task's writes as a server task's reads |
| `LobbyStream` | `LobbyStream.dfy` | the browser's lobby reader |
| `ActorTables` | `ActorTables.dfy` | the three tables shared by the channel tasks of a room |
| `Connections` | `Connections.dfy` | all channel tasks of a room interleaved; what holds for any clients |
| `Discipline` | `Discipline.dfy` | clients with one channel per type: uniqueness and alternation |
| `Announcements` | `Announcements.dfy` | the order in which decisions reach the actor |
| `Arrivals` | `Arrivals.dfy` | continuing a run by a new task |
| `Reconnect` | `Reconnect.dfy` | when "all channels up" means "connected", exactly |
| `Repeats` | `Repeats.dfy` | what a repeated channel type breaks |
| `Routing` | `Routing.dfy` | addressing of outputs and the bounded queues |
| `Delivery` | `Delivery.dfy` | one channel from `route_outputs` to the client's decoder |
| `ServerActors` | `ServerActors.dfy` | the server actor's event loop |
| `EndToEnd` | `EndToEnd.dfy` | actor turns, transport writes and client reads of one channel, interleaved |
| `ClientPipeline` | `ClientPipeline.dfy` | channel tasks, bridge loop and connector on the client |
| `Runtime` | `Runtime.dfy` | the client runtime: `poll`, `step`, `run` |
| `Seats` | `Seats.dfy` | who sits in a room |
| `Rooms` | `Rooms.dfy` | the room manager as a value, its invariants, admission and expiry |
| `Sweeps` | `Sweeps.dfy` | a lifecycle check with other operations between its removals |
| `LostChannels` | `LostChannels.dfy` | channels opened after a room's handler is gone |
| `RoomManagers` | `RoomManagers.dfy` | the room manager as a class, and the REST handlers |
| `LobbyLog` | `LobbyLog.dfy` | the lobby's event log |
| `LobbyReplica` | `LobbyReplica.dfy` | a lobby subscriber's copy of the room list |

`Wrappers`, `Ids` and `Codecs` hold shared definitions.

## How to read it

Code that changes state in the repository is a class or a method with loops here, proved against
functions on values; the laws are lemmas about those functions. Tasks that interleave are a state with
a set of enabled steps, and "reachable" means reached by a list of enabled steps. A step is the code
one task runs between two `.await`s. The blocks that check a table and then change it rely on this
(`helpers/src/server_actor/channel.rs:66-82`, `helpers/src/server_actor/channel.rs:124-139`,
`server/src/room.rs:381-418`); no finer interleaving is claimed.

Main results, by area:

* Streams. Reading a byte stream has exactly one outcome (`Framing.ParseUnique`). The buffer
  computes it for any chunking (`Framing.MessageBuffer.Drain`), and so do both server phases
  (`ServerReads.ReadChannel`) and the client task (`ClientChannel.RunChannel`). The round trip holds
  exactly for payloads within the limit (`Framing.RoundTrip`). After a bad length the server's loop
  can depend on chunking, and does exactly if a complete frame starts where a chunk could begin
  (`ServerReads.ChunkingMattersExactly`).
* Server connections. For any clients: the tables never outlive the tasks
  (`Connections.TablesFollowTasks`, `Connections.LastTaskLeavesNothing`), and no decision is lost or
  sent twice (`Connections.DecisionsBalance`). For a user with one channel per type, whatever other
  clients do: connected, it has exactly one live channel of each type, and ready and gone decisions
  about it alternate (`Discipline.ConnectedHasOneLiveChannelEach`, `Discipline.DecisionsAlternate`,
  `Discipline.OneTaskPerTypeIsOrderly`). A single repeated type is enough to break the first
  (`Repeats.RepeatedTypeBreaksUniqueness`), and repeating all types breaks the second
  (`Repeats.RepeatedTypesBreakAlternation`).
* What the actor hears. The decisions alternate, but they are sent in a later step than they are
  taken, and an orderly client's first word can be `UserGone` (`Announcements.GoneCanBeToldFirst`).
  They are sent in the order taken as long as nobody decides about a user while an earlier decision is
  still owed, and at any point where somebody does they can be sent in the wrong order
  (`Announcements.UnpromptDecisionCanOvertake`). With that condition the actor hears them in strict
  alternation (`ServerActors.ActorHearsAlternately`).
* End to end. Whatever is dropped on full queues and however the bytes are cut, a client decodes the
  surviving messages of a channel in output order (`EndToEnd.ClientDecodesSurvivorsInOrder`), and a
  server task forwards what the client wrote (`Uplink.ServerReadsClient`); on the client side the actor
  sees a beginning of `Connected Message* Disconnected` with each channel's messages in decode order,
  is told of every loss in the end (`ClientPipeline.LossIsToldInTheEnd`), and is shut down at most
  once, with nothing handled after (`Runtime.ActorRuntime.Run`, `Runtime.WholeClientSpeaksInOrder`).
* Rooms and lobby. The count, the channel sets and the cap agree over every run
  (`Rooms.EveryRunIsSound`), closes are idempotent and commute (`Seats.CloseIsIdempotent`,
  `Seats.CloseOrderDoesNotMatter`), and a WebSocket lobby subscriber converges to the rooms there are
  (`LobbyReplica.SubscribeThenSnapshotConverges`) and shows each as it was last announced
  (`LobbyReplica.SubscriberShowsTheRoom`).

## Where the code and its documentation differ

The model follows the code.

* The connection flow says that when a channel closes all the user's channels are closed
  (`README.md:345`). The code takes the user out of the tables but leaves the other tasks running
  (`Reconnect.CloseLeavesSiblingsRunning`).
* It also says that a user is connected once all channels have identified themselves
  (`README.md:344`). That holds from a clean start (`Reconnect.ConnectedExactlyWhenAllUp`), but after
  a close it goes on to hold only if the close ended the user's last task
  (`Reconnect.OnlyTheLastCloseIsHarmless`): a close forgets what a user has collected and leaves its
  other tasks running, so that all types can be up again and the user not connected. Of well-behaved
  clients the rule holds in all runs only in games with one channel type
  (`Reconnect.RuleHoldsOnlyForOneType`); `Reconnect.AgreementIsSynced` says at which points of a run
  it holds from then on.
* An emptied room is said to live for five more minutes (`README.md:405`). An empty room older than
  the first-connect timeout goes at the next check (`Rooms.GraceEndsWithFirstConnect`,
  `Rooms.NoGraceAfterFiveMinutes`).
* `run()` is said to run until disconnected (`helpers/src/client_actor/runtime.rs:110`). A local
  message before the first `Connected` ends it too, because `poll` answers by the flag
  (`Runtime.LocalMessageEndsRun`): a step ends the run exactly if the bridge is closed, a disconnect is
  queued, or the runtime is not connected and no `Connected` is queued (`Runtime.ActorRuntime.Step`,
  `Runtime.RunStopsUnconnected`).

## Model

| member | source | states |
|---|---|---|
| `Framing.BigEndianRoundTrip` | helpers/src/utils/framing.rs:31 | the value of the big-endian bytes of a number that fits is that number |
| `Framing.BigEndianOfValue` | helpers/src/utils/framing.rs:88-93 | the big-endian bytes of the value of some bytes are those bytes, so the header is a bijection |
| `Framing.U32ToBytes` | helpers/src/utils/framing.rs:31 | the length prefix is read back as the length cut to 32 bits |
| `Framing.BytesOfTheHeader` | helpers/src/utils/framing.rs:30-36 | the header is the length cut to 32 bits, its most significant byte first, and the payload follows |
| `Framing.HeadPayload` | helpers/src/utils/framing.rs:107-108 | a complete frame at the front splits the stream into the frame of its payload and the rest |
| `Framing.FrameReadBack` | helpers/src/utils/framing.rs:30-36 | a framed payload in front of any bytes is read back, with those bytes left over, if and only if it is within the size limit |
| `Framing.FramesConcat` | helpers/src/utils/framing.rs:30-36 | the frames of a concatenated list are the concatenated frames |
| `Framing.Parse` | helpers/src/utils/framing.rs:83-110 | the one-shot reader splits every stream into frames within the limit and a tail that starts with no complete frame |
| `Framing.ParseUnique` | helpers/src/utils/framing.rs:83-110 | there is only one such reading of a stream |
| `Framing.ParseAppend` | helpers/src/utils/framing.rs:77-80 | more bytes continue the reading from its tail: one-shot and incremental reading agree |
| `Framing.ParseBehindCorrupt` | helpers/src/utils/framing.rs:95-100 | nothing behind a bad length changes what was read before it |
| `Framing.ParseOfPrefix` | helpers/src/utils/framing.rs:83-110 | any prefix of well-formed frames yields a beginning of the payloads, leaves the beginning of the next frame, and never a bad length |
| `Framing.PrefixYieldsCompleteFrames` | helpers/src/utils/framing.rs:83-110 | the payloads a prefix yields are exactly those whose frames lie in it |
| `Framing.RoundTrip` | helpers/src/utils/framing.rs:30-110 | reading the frames of a list gives the list and an empty rest, if and only if every payload is within the limit |
| `Framing.RetainedIsBounded` | helpers/src/utils/framing.rs:83-104 | a buffer that waits for more holds at most the limit plus three bytes |
| `Framing.MessageBuffer.Push` | helpers/src/utils/framing.rs:77-80 | pushing appends; extraction is left to the iterator |
| `Framing.MessageBuffer.TryExtract` | helpers/src/utils/framing.rs:83-110 | a frame is taken off the front, a bad length empties the buffer and is reported with its value, an incomplete frame changes nothing; every result shrinks the buffer |
| `Framing.MessageBuffer.Drain` | helpers/src/utils/framing.rs:77-138 | pushing and draining gives the one-shot reading of what was held and what came, up to the first bad length, and keeps its bounded tail |
| `Codecs.DecodeAllConcat` | helpers/src/utils/channel_message.rs:69-74 | decoding payload by payload, skipping failures, distributes over concatenation |
| `Codecs.DecodeAllOfOne` | helpers/src/utils/channel_message.rs:69-74 | a payload that fails to decode is skipped and one that decodes is kept |
| `ServerReads.FirstItemIsStable` | helpers/src/server_actor/channel.rs:38-63 | the first item of a stream, once complete, does not change with more bytes |
| `ServerReads.OneKnownByteIdentifies` | helpers/src/server_actor/channel.rs:40-57 | a first frame of one byte that names a channel type identifies the channel; one of any other length, or of an unknown byte, is refused, whatever follows |
| `ServerReads.VerdictWithoutFrame` | helpers/src/server_actor/channel.rs:33-64 | a length above the limit is refused as soon as the header is there; before a whole first frame the channel is only closed |
| `ServerReads.Identify` | helpers/src/server_actor/channel.rs:33-64 | the verdict on a channel's first item is that of the whole stream for any chunking, it falls with the chunk that completes the item, and the bytes behind the id frame stay in the buffer |
| `ServerReads.Serve` | helpers/src/server_actor/channel.rs:95-122 | the message loop forwards what it decodes of each chunk's frames, and gives up only the current chunk on a bad length |
| `ServerReads.ServedIsParse` | helpers/src/server_actor/channel.rs:95-122 | the frames served begin with those of the stream's one-shot reading, and are exactly those if it meets no bad length |
| `ServerReads.BehindIdFrame` | helpers/src/server_actor/channel.rs:33-64 | the stream's reading is the id frame followed by the reading of what the buffer kept and what came later |
| `ServerReads.ReadChannel` | helpers/src/server_actor/channel.rs:33-122 | nothing is forwarded before a chunk after the one that completes the id frame; then exactly what the loop serves of the kept bytes and the later chunks: the frames behind the id frame, none lost or repeated, up to the first bad length |
| `ServerReads.ServedAsOne` | helpers/src/server_actor/channel.rs:95-122 | bytes with no complete frame at or behind any cut behind their bad length are served as in one piece, however they are cut |
| `ServerReads.ResumedInTwo` | helpers/src/server_actor/channel.rs:116-119 | bytes behind a bad length are lost in the same chunk and read from their start in a chunk of their own |
| `ServerReads.ChunkingMattersExactly` | helpers/src/server_actor/channel.rs:95-122 | for all bytes, and whatever the buffer held: all chunkings are served alike if and only if the bytes have no bad length or no complete frame starts at a place behind its header where a chunk can begin |
| `ClientChannel.RunChannel` | helpers/src/client_actor/channel.rs:44-142 | the id frame is written first. A task that the end of the stream, a read error or a failed write ends reports the messages decoded from what it read and then one disconnect; one whose handle is closed reports the messages and no disconnect; a bad length ends it with a disconnect; otherwise it goes on. Writes go out in order until then |
| `ClientChannel.FirstWake` | helpers/src/client_actor/channel.rs:101-140 | what each wake contributes, before any others: a chunk its bytes, a successful write its data; the end of the stream, a read error or a failed write is a loss, a closed handle is not |
| `ClientChannel.WakesConcat` | helpers/src/client_actor/channel.rs:94-142 | wakes that end nothing contribute what they read and write in order, and the rest decides how the task ends |
| `ClientChannel.StopDecides` | helpers/src/client_actor/channel.rs:101-140 | nothing behind the wake that ends the task is read or written, and that wake alone decides between loss and quiet end |
| `ClientChannel.WrittenInOrder` | helpers/src/client_actor/channel.rs:129-138 | the data of a write is at the place in the output that the writes before it leave |
| `ClientChannel.WritesCount` | helpers/src/client_actor/channel.rs:129-138 | there are as many frames written as wakes for one |
| `ClientChannel.ChunkingDoesNotMatter` | helpers/src/client_actor/channel.rs:104-121 | any chunking of the same bytes, with or without a bad length, reports the same events |
| `Uplink.WrittenIsOpening` | helpers/src/client_actor/channel.rs:53-138 | what a client task given the frames of some messages has written is its id frame and the frames of a beginning of them |
| `Uplink.VerdictOnOpening` | helpers/src/server_actor/channel.rs:38-63 | any beginning of those bytes is read as the client's channel type, or as not yet identified |
| `Uplink.ServerReadsClient` | helpers/src/server_actor/channel.rs:33-122 | however those bytes are cut and however many have arrived, the server task has identified the client's type or waits for it, and has forwarded a beginning of the messages; once all have arrived it has forwarded all of them if a chunk follows the one that completes the id frame, and none otherwise |
| `LobbyStream.RecvStream.Fill` | client/src/transport/webtransport.rs:428-435 | reading a chunk neither loses nor reorders what can still be read; an empty chunk or a failure marks the stream as disconnected |
| `LobbyStream.RecvStream.RecvMessage` | client/src/transport/webtransport.rs:426-457 | a message is received exactly if one can still be completed; it is the first, and surplus bytes stay for the next call |
| `LobbyStream.RecvStream.ReceiveAll` | client/src/transport/webtransport.rs:426-457 | receiving until the end yields all messages of the readable bytes, then the reason the stream ended for |
| `LobbyStream.StopsReading` | client/src/transport/webtransport.rs:428-435 | an empty chunk or a failed read ends the stream behind the chunks before it, whatever follows; only the failed read is an error |
| `LobbyStream.ReaderInvertsWriter` | server/src/quic.rs:277-286 | the reader returns what the writer wrote, for all messages shorter than 2^32 bytes, and leaves what follows |
| `LobbyStream.AgreesWithMessageBuffer` | client/src/transport/webtransport.rs:426-457 | on a stream without a length above the limit it yields the messages `MessageBuffer` yields |
| `LobbyStream.ReceiveWhatWasSent` | client/src/transport/webtransport.rs:426-457 | from any non-empty chunks of the bytes of some lobby messages, these messages are received as sent, and then the stream is closed |
| `ActorTables.SharedTables.Register` | helpers/src/server_actor/channel.rs:66-82 | registration adds the entry and collects the type; it makes the user ready exactly if the collected types reach the expected number, moving it from pending to connected |
| `ActorTables.SharedTables.Cleanup` | helpers/src/server_actor/channel.rs:124-139 | cleanup removes the entry; a connected user goes with all its other entries, and what it has collected meanwhile stays; any other user's collection is forgotten, and its other entries stay |
| `Connections.StepKeepsCover` | helpers/src/server_actor/channel.rs:66-139 | no step makes a user's table memberships outnumber its registered tasks |
| `Connections.StepKeepsEntriesLive` | helpers/src/server_actor/channel.rs:66-139 | no step leaves a routing entry whose task is not registered with that user and type |
| `Connections.TablesFollowTasks` | helpers/src/server_actor/channel.rs:66-139 | in every reachable state, for any clients, a user has at least as many registered tasks as memberships in connected and pending, and every routing entry belongs to a registered task of its user and type |
| `Connections.LastTaskLeavesNothing` | helpers/src/server_actor/channel.rs:124-139 | a user without a registered task is in none of the three tables |
| `Connections.StepKeepsBalance` | helpers/src/server_actor/channel.rs:84-150 | deciding and sending keep decided equal to sent plus owed |
| `Connections.StepKeepsLog` | helpers/src/server_actor/channel.rs:68-150 | a step keeps "connected exactly if the last decision was ready" and gone plus connected at most ready |
| `Connections.DecisionsBalance` | helpers/src/server_actor/channel.rs:68-150 | in every reachable state, for any clients: each decision has been sent or is owed by exactly as many tasks as are missing; a user is connected exactly if its last decision was ready; gone decisions plus connected never exceed ready decisions |
| `Discipline.CompleteUserHasAll` | helpers/src/server_actor/channel.rs:74-79 | a user that reaches the expected number has every type collected, each with its entry |
| `Discipline.StepKeepsWhole` | helpers/src/server_actor/channel.rs:66-139 | whatever the others do, every step at which this user is orderly keeps its entries unique, complete while connected, and its collection routed; it never becomes ready while connected |
| `Discipline.StepKeepsAlternation` | helpers/src/server_actor/channel.rs:68-139 | and they keep a user's decisions alternating |
| `Discipline.OrderlyRunsAreSound` | helpers/src/server_actor/channel.rs:66-139 | both hold for every user that has been orderly, in every run, with any other clients |
| `Discipline.ConnectedHasOneLiveChannelEach` | helpers/src/server_actor/channel.rs:66-139 | an orderly user that is connected has, for every channel type, exactly one routing entry, and its task is live and of that type, with any other clients in the room |
| `Discipline.DecisionsAlternate` | helpers/src/server_actor/channel.rs:68-139 | ready and gone decisions about an orderly user alternate strictly, ready first, across closes and reconnects and with any other clients, and the user is connected exactly between them |
| `Discipline.OneTaskPerTypeIsOrderly` | helpers/src/client_actor/bridge.rs:83-107 | a user that at no moment of a run has two live tasks of one type has been orderly all along it |
| `Announcements.StepKeepsToldInOrder` | helpers/src/server_actor/channel.rs:84-150 | a step that decides only when nothing is owed keeps what was sent equal to what was decided, but for at most one, the last |
| `Announcements.PromptRunsTellInOrder` | helpers/src/server_actor/channel.rs:84-150 | so in every run without overlapping decisions a user's decisions are sent in the order taken |
| `Announcements.PromptOrderlyRunsTellAlternately` | helpers/src/server_actor/channel.rs:84-150 | in such runs, what was sent about an orderly user alternates strictly, and so does any beginning of it |
| `Announcements.NextDecisionDiffers` | helpers/src/server_actor/channel.rs:74-139 | the next decision about an orderly user is never the same as its last |
| `Announcements.UnpromptDecisionCanOvertake` | helpers/src/server_actor/channel.rs:84-150 | wherever an orderly user is decided about while a decision is owed, sending the new one next is possible and what was sent is then no beginning of what was decided |
| `Announcements.GoneCanBeToldFirst` | helpers/src/server_actor/channel.rs:84-150 | for any two channel types, an orderly run after which the only thing sent is that the user is gone |
| `Reconnect.SyncedMeansConnectedWhenAllUp` | README.md:343-344 | while a user's tables agree with its live tasks, connected is the same as all types up |
| `Reconnect.StepKeepsSynced` | helpers/src/server_actor/channel.rs:66-82 | every step keeps a user in agreement, but for its own closes and repeated types |
| `Reconnect.CloseKeepsSyncedOnlyAtTheEnd` | helpers/src/server_actor/channel.rs:124-139 | a close keeps the tables in agreement with the live tasks if and only if it ends the user's last task |
| `Reconnect.CloseLeavesSiblingsRunning` | helpers/src/server_actor/channel.rs:126-135 | a close of a connected user's channel removes the user and all its entries and leaves its other tasks registered |
| `Reconnect.ConnectedExactlyWhenAllUp` | README.md:341-344 | a user that starts without tasks and closes none is connected exactly when all its types are up, in any order and whatever others do |
| `Reconnect.StallLasts` | helpers/src/server_actor/channel.rs:66-139 | from any state in which a live task's type has been forgotten, bringing up the missing types ends with all of them up and the user not connected |
| `Reconnect.OnlyTheLastCloseIsHarmless` | helpers/src/server_actor/channel.rs:124-139 | after a close by a user in agreement, "connected exactly when all its types are up" holds in every continuation without its further closes or repeats if and only if the close ended the user's last task |
| `Reconnect.AgreementIsSynced` | helpers/src/server_actor/channel.rs:66-139 | at any point of any run of an orderly user that rule holds from then on if and only if the user is connected, or it has collected exactly what it has up and that is not everything |
| `Reconnect.OneTypeNeverStalls` | helpers/src/server_actor/channel.rs:66-139 | with one channel type, an orderly user's tables agree with its one task in every run |
| `Reconnect.RuleHoldsOnlyForOneType` | README.md:344 | the documented rule holds for orderly users in all runs if and only if the game has exactly one channel type |
| `Repeats.DoubledEntryConnects` | helpers/src/server_actor/channel.rs:66-82 | from any state with a doubled entry, some continuation leaves the user connected with two channels of that type |
| `Repeats.RepeatedTypeBreaksUniqueness` | helpers/src/server_actor/channel.rs:66-82 | so from every state an orderly user is in, one registration of a type it has an entry for can lead there |
| `Repeats.ReadyOnceMore` | helpers/src/server_actor/channel.rs:74-79 | whatever a user's state, registering just the types it has not collected, one task each, decides ready, once more if it already was |
| `Repeats.CloseAndCollection` | helpers/src/server_actor/channel.rs:126-138 | a close by a connected user leaves what the user has collected; any other close forgets it |
| `Repeats.ComingBackAcrossClose` | helpers/src/server_actor/channel.rs:66-139 | when an old channel of a connected user closes while the user comes back, the types brought up again count: gone is decided, and ready after exactly one more task for each type that was missing |
| `Repeats.RepeatedTypesBreakAlternation` | helpers/src/server_actor/channel.rs:68-82 | from every state in which an orderly user is connected, registering its types again leads to decisions that do not alternate |
| `Repeats.OneRepeatIsReadyAgain` | helpers/src/server_actor/channel.rs:68-82 | a single repeated registration by a connected, orderly user decides ready again if and only if there is one channel type |
| `Routing.MessagesFor` | helpers/src/server_actor/actor.rs:184-208 | the messages addressed to a channel all encode and are of the channel's type |
| `Routing.MessagesForOne` | helpers/src/server_actor/actor.rs:184-214 | an encodable broadcast is addressed to every channel of its type and no other, a message for a user to that user's channels of the type, an internal message to none |
| `Routing.MessagesForConcat` | helpers/src/server_actor/actor.rs:173-217 | and several outputs to what each of them is, in output order |
| `Routing.InternalsOfOne` | helpers/src/server_actor/actor.rs:212-214 | an internal message, and nothing else, is for the actor itself |
| `Routing.InternalsConcat` | helpers/src/server_actor/actor.rs:173-217 | in output order |
| `Routing.OfferOneMore` | server/src/room.rs:212-218 | a bounded queue offered a list takes a beginning of it, whole items only |
| `Routing.OfferedUpToCapacity` | server/src/room.rs:197-218 | a queue takes everything if it fits and is filled otherwise; what it holds stays in front, and what it takes is a beginning of what it is offered |
| `Routing.Outbox.SendTo` | server/src/room.rs:212-218 | each named open channel with room in its queue gets exactly the data at its end; every other queue stays as it is |
| `Routing.RouteOne` | helpers/src/server_actor/actor.rs:184-211 | an encodable broadcast goes to the end of the queue, if it has room, of every open channel of the message's type, a message for a user of that user's; every other queue stays as it is, and all do for an internal message or one without a channel type or encoding |
| `Routing.RouteOutputs` | helpers/src/server_actor/actor.rs:173-217 | every channel's queue is offered the frames of the messages addressed to it, in output order, and the actor's own queue its internal messages; a single broadcast gives exactly its frame to every queue of its type that has room and nothing to the others, a single internal message only reaches the own queue |
| `Routing.OneCopyPerConnectedUser` | helpers/src/server_actor/actor.rs:186-196 | a message to a connected, orderly user is addressed to exactly one channel, a live one of that user |
| `Delivery.DecodeInvertsEncode` | helpers/src/utils/channel_message.rs:69-74 | the payloads of a channel's messages decode to those messages |
| `Delivery.RouteConserves` | helpers/src/server_actor/actor.rs:184-211 | routing adds what the queue accepts behind what is on its way |
| `Delivery.ReadingOwed` | helpers/src/client_actor/channel.rs:104-121 | reading a beginning of the bytes on their way decodes a beginning of the messages, and the rest stays on its way |
| `Delivery.ReadConserves` | helpers/src/client_actor/channel.rs:70-121 | a client's read loses nothing, wherever it cuts |
| `Delivery.StepConserves` | server/src/quic.rs:259-263 | nor does a transport's write of a whole frame, or any other step |
| `Delivery.SurvivorsArriveInOrder` | helpers/src/server_actor/actor.rs:184-211 | over every run, the client has decoded a beginning of the accepted messages in output order and met no bad length; with queue and wire empty it has decoded exactly those and holds no bytes |
| `EndToEnd.QueueAfterTurn` | helpers/src/server_actor/actor.rs:184-211 | a turn of the actor loop offers a channel's queue exactly the frames of the messages it addresses to the channel |
| `EndToEnd.StepConserves` | server/src/quic.rs:259-263 | turns, writes and reads keep what is owed to the client held, on the wire and queued, in order |
| `EndToEnd.ClientDecodesSurvivorsInOrder` | helpers/src/server_actor/actor.rs:93-211 | over all interleavings of actor turns, transport writes and client reads, the client decodes a beginning of the accepted messages, which are a subsequence of those addressed to its channel in output order, and all of them once queue and wire are empty |
| `ServerActors.ServerActor.Deliver` | helpers/src/server_actor/actor.rs:173-217 | routing an actor's outputs appends what fits to its own queue of 64 and offers every channel its frames |
| `ServerActors.LettersSayWhatHappened` | helpers/src/server_actor/actor.rs:116-151 | the actor is told of readiness as a connection, of its end as a disconnection, and of a message with its sender |
| `ServerActors.TakenOfOne` | helpers/src/server_actor/actor.rs:212-214 | an internal message gets into the self queue exactly while there is room, and no other output does |
| `ServerActors.ServerActor.Handle` | helpers/src/server_actor/actor.rs:118-160 | each letter gives the actor's next state and then all its outputs to their queues; the self queue has been handled in order up to what it holds |
| `ServerActors.ServerActor.NextEvent` | helpers/src/server_actor/actor.rs:116-151 | the oldest event is taken off its queue and handled |
| `ServerActors.ServerActor.NextOwn` | helpers/src/server_actor/actor.rs:153-162 | the actor's oldest message to itself is taken off its queue and handled |
| `ServerActors.ServerActor.TakeTurn` | helpers/src/server_actor/actor.rs:93-164 | one turn handles the oldest event or the oldest message to itself and routes its outputs by the table of that moment, or shuts down on closing, or ends without a shutdown when the room is gone |
| `ServerActors.ServerActor.Run` | helpers/src/server_actor/actor.rs:93-164 | the loop leaves what its turns leave one by one; events are handled in arrival order, none lost or repeated; it goes on exactly through turns that are neither a closing nor the loss of the room, and ends at the first closing with the one shutdown, or at the first loss without |
| `ServerActors.HearsInOrder` | helpers/src/server_actor/actor.rs:118-151 | the arrivals and departures the actor has handled are a beginning of those reported to it |
| `ServerActors.ActorHearsAlternately` | helpers/src/server_actor/actor.rs:118-141 | fed with what the channel tasks sent, the actor handles connected and disconnected of an orderly user with prompt tasks in strict alternation, with any other clients |
| `ClientPipeline.StepKeepsSpeaking` | helpers/src/client_actor/connector.rs:24-53 | every step of tasks, bridge, connector and runtime keeps what is given to the runtime a beginning of `Connected Message* Disconnected` |
| `ClientPipeline.StepKeepsOrder` | helpers/src/client_actor/bridge.rs:109-142 | every step keeps what is handled and on its way a beginning of what was decoded, and all of it while bridge and connector are there |
| `ClientPipeline.EveryRunSpeaksInOrder` | helpers/src/client_actor/bridge.rs:73-143 | both hold in every reachable state |
| `ClientPipeline.HandledIsGrammatical` | helpers/src/client_actor/connector.rs:19-54 | the server events handled are a beginning of `Connected Message* Disconnected` |
| `ClientPipeline.HandledInDecodeOrder` | helpers/src/client_actor/bridge.rs:132-142 | each channel's messages are handled in decode order without gaps |
| `ClientPipeline.EndIsTold` | helpers/src/client_actor/connector.rs:40-43 | a connector that ends on a disconnect or on the end of the bridge loop gives the runtime a disconnect as the last event |
| `ClientPipeline.EveryRunTells` | helpers/src/client_actor/bridge.rs:87-142 | in every reachable state: a bridge loop that has ended has said so last, and a connector that has ended has too, unless it quit; a loss stays queued until it ends the bridge loop; without a loss no disconnect is anywhere |
| `ClientPipeline.LossIsToldInTheEnd` | helpers/src/client_actor/bridge.rs:73-143 | over all interleavings in which nobody quits, once all is forwarded and handled: the actor has handled a disconnect, as the last event, exactly if a channel was lost or failed to open, and otherwise it has handled every message decoded |
| `ClientPipeline.BridgeSaysGoodbye` | helpers/src/client_actor/connector.rs:40 | the connector never finds the bridge loop ended without having been told |
| `Runtime.ActorRuntime.Dispatch` | helpers/src/client_actor/runtime.rs:159-167 | handling a message gives the actor's next state; its outputs to the server and to itself are appended to their queues in order, none lost |
| `Runtime.ActorRuntime.Send` | helpers/src/client_actor/runtime.rs:161-166 | the sink is drained in order, each output to its queue |
| `Runtime.OutputsOfOne` | helpers/src/client_actor/runtime.rs:161-166 | an output for the server goes to the server queue only, one for the actor itself to its own queue only |
| `Runtime.ActorRuntime.HandleBridgeEvent` | helpers/src/client_actor/runtime.rs:135-153 | connected raises the flag; a disconnect lowers it, is handled, and shuts the actor down after that |
| `Runtime.EventsAreToldAsTheyAre` | helpers/src/client_actor/runtime.rs:135-153 | the actor handles each bridge event as what it is, from the server, and a disconnect is followed by the shutdown |
| `Runtime.ActorRuntime.DrainBridge` | helpers/src/client_actor/runtime.rs:73-77 | bridge events are handled in order up to and including the first disconnect, and all if there is none: exactly `BridgeEntries` of the queue |
| `Runtime.ActorRuntime.DrainSelf` | helpers/src/client_actor/runtime.rs:78-80 | self-sent messages are handled in order, also those sent meanwhile, until none is left or the fuel is used up |
| `Runtime.MoreFuelIsTheSame` | helpers/src/client_actor/runtime.rs:78-80 | a drain that ends with some fuel ends the same way with more, so the source's unbounded loop, where it ends at all, has one outcome |
| `Runtime.DrivenToTheEnd` | helpers/src/client_actor/runtime.rs:78-80 | handling what comes next as long as the fuel lasts or something is left gives exactly the entries the fuel determines |
| `Runtime.ActorRuntime.DrainLocal` | helpers/src/client_actor/runtime.rs:81-83 | all local messages are handled in order |
| `Runtime.ActorRuntime.Poll` | helpers/src/client_actor/runtime.rs:72-85 | bridge events first, and after a disconnect nothing else; then self-sent messages until all ever sent are handled; then local messages; the answer is the flag |
| `Runtime.ActorRuntime.Step` | helpers/src/client_actor/runtime.rs:88-108 | the waking message is handled first, then bridge events up to a disconnect, then self-sent messages to the last, then local ones, exactly in this order; the answer is disconnected if and only if the bridge is closed, a disconnect is queued, or the runtime is not connected and no connected is queued, all before the call |
| `Runtime.ActorRuntime.TakeTurn` | helpers/src/client_actor/runtime.rs:88-113 | arrivals go to the back of their queues; a turn whose queue is empty does nothing; any other handles exactly what a step handles, takes it off the queues, and stops the run exactly in the cases of a step's disconnected answer |
| `Runtime.EventThatWakesIsFirst` | helpers/src/client_actor/runtime.rs:88-101 | a turn woken by the bridge handles the oldest queued event first; if that is a disconnect it handles nothing else but the shutdown and ends the run |
| `Runtime.MessageThatWakesIsFirst` | helpers/src/client_actor/runtime.rs:88-108 | a turn woken by a self-sent or local message handles the oldest of that queue first; a closed bridge ends the run with nothing handled |
| `Runtime.ActorRuntime.Run` | helpers/src/client_actor/runtime.rs:111-113 | the run is a chain of such turns, each from the queues and log the one before left, and stops at the first that is answered disconnected; the actor is shut down at most once, after a disconnect, with nothing handled later |
| `Runtime.RunStopsUnconnected` | helpers/src/client_actor/runtime.rs:110-113 | a run that has handled something without a disconnect or the end of the bridge has stopped if and only if it was not connected and no connected has come |
| `Runtime.LocalMessageEndsRun` | helpers/src/client_actor/runtime.rs:103-113 | a runtime that has handled nothing and is woken by a local message handles it and its run stops without any server event, unless the actor keeps its self queue busy beyond the fuel; of an actor that puts out nothing it always stops |
| `Runtime.ShutDownStaysInTime` | helpers/src/client_actor/runtime.rs:72-113 | stretches of handling compose: a shutdown exactly if a disconnect was handled, once, at the very end |
| `Runtime.ProgressAgain` | helpers/src/client_actor/runtime.rs:72-113 | and what each stretch took off the queues adds up |
| `Runtime.HandlingSpeaks` | helpers/src/client_actor/runtime.rs:135-153 | of a well-formed stream of bridge events the actor has handled a well-formed beginning; the flag is up exactly in the middle of it, and the actor was shut down exactly if it has ended |
| `Runtime.WholeClientSpeaksInOrder` | helpers/src/client_actor/runtime.rs:72-153 | whatever tasks, bridge and connector did, the runtime's actor sees a beginning of `Connected Message* Disconnected`, and on each channel a beginning of what was decoded |
| `Seats.TakenIsConsistent` | server/src/room.rs:399-418 | opening a channel keeps the count equal to the users, their sets non-empty, disjoint and covering the open channels, and all ids below the next |
| `Seats.WithoutIsConsistent` | server/src/room.rs:440-457 | and so does closing any set of channels |
| `Seats.CloseUndoesOpen` | server/src/room.rs:399-457 | closing the channel just opened restores the tables |
| `Seats.CloseEachClosesSet` | server/src/room.rs:440-457 | closing channels one by one comes to closing the set of them |
| `Seats.CloseIsIdempotent` | server/src/room.rs:440-457 | a second close changes nothing; a close changes nothing if and only if the channel is not open |
| `Seats.CloseOrderDoesNotMatter` | server/src/quic.rs:185-209 | any order, and any repetition, of closes of the same channels leaves the same tables |
| `Seats.ClosingAllEmpties` | server/src/quic.rs:205-209 | after all open channels are closed the tables are empty and the count is zero |
| `Seats.RoomShared.TrackOpen` | server/src/room.rs:399-418 | the new channel is entered for its user, who is counted if new |
| `Seats.RoomShared.TrackClose` | server/src/room.rs:440-457 | the channel leaves both tables; the count stays the number of users, so the decrement never wraps |
| `Seats.DropFromUsers` | server/src/room.rs:446-453 | the scan that stops at the first emptied user finds the one user that leaves, if any, and misses no other change |
| `Rooms.JoinableMeansAdmitted` | server/src/room.rs:463-479 | the joinable flag is the admission check for newcomers if and only if the cap cut to 32 bits does not come between |
| `Rooms.SmallCapIsShownExactly` | server/src/room.rs:463-479 | in particular for every cap below 2^32 |
| `Rooms.InfoTellsTheRoom` | server/src/room.rs:463-479 | the info has the room's id, count and config, and for caps below 2^32 the cap and whether the count is below it; a room without a cap is joinable |
| `Rooms.RefusedExactlyWhenFull` | server/src/room.rs:380-389 | a user present in a room is never refused; a newcomer is refused if and only if the room has a cap and the count has reached it |
| `Rooms.OccupiedRoomStays` | server/src/room.rs:535-538 | a room with users in it stays if and only if its lifetime has not run out |
| `Rooms.EmptyRoomStays` | server/src/room.rs:535-546 | an empty one stays if and only if neither lifetime nor first-connect nor empty timeout has |
| `Rooms.IdleClauseMatters` | server/src/room.rs:535-546 | when activity is noted at most some slack before creation, as `create_room` may do, some room is removed for its idle time alone if and only if the empty timeout is below both the first-connect timeout and the lifetime, each with the slack |
| `Rooms.GraceEndsWithFirstConnect` | server/src/room.rs:540-546 | an empty room within its empty timeout is kept if and only if its age is within the first-connect timeout and the lifetime |
| `Rooms.NoGraceAfterFiveMinutes` | server/src/lib.rs:155-157 | creating a room, joining it and leaving it after 301 seconds gives, with the default settings, an empty room that is due one second later |
| `Rooms.SeatedIsSound` | server/src/room.rs:381-418 | admitting a user keeps the room consistent and within its cap, and the new channel's id was not open |
| `Rooms.OpenedIsSound` | server/src/room.rs:377-432 | opening keeps every room sound, also when the handler is gone; the tables change whenever the user is let in |
| `Rooms.OnlySeatsChange` | server/src/room.rs:374-460 | opening and closing change of a room only its seats, next channel and last activity, and no other room |
| `Rooms.LetInHoldsNext` | server/src/room.rs:391-432 | a user let in holds the next channel besides what everybody holds already; only a channel whose handler is there counts as activity |
| `Rooms.ClosedIsHeldByNobody` | server/src/room.rs:438-460 | a close takes the channel from whoever holds it, leaves all others, and is activity |
| `Rooms.NewRoomIsAsAsked` | server/src/room.rs:285-338 | a new room is empty and has the config, creator and times given; other rooms stay, and an invalid config changes nothing |
| `Rooms.DeletedByItsCreator` | server/src/room.rs:341-370 | a room goes if and only if its creator asks, and no other room does |
| `Rooms.StepKeepsSound` | server/src/room.rs:285-562 | every operation keeps every room sound |
| `Rooms.StaysSound` | server/src/room.rs:285-562 | so from any sound registry, any operations keep every room sound |
| `Rooms.EveryRunIsSound` | server/src/room.rs:285-562 | over every run: count equals users, channel sets partition the open channels, ids stay below the next, the cap is kept |
| `Rooms.RoomIdsAreNotReused` | server/src/room.rs:289 | a room id that no longer names a room never does again |
| `Rooms.ChannelIdsAreNotReused` | server/src/room.rs:391 | a channel id of a room that was given out and is closed stays closed for good |
| `Rooms.SurvivorsRemain` | server/src/room.rs:550-561 | removing the expired rooms leaves exactly the others, unchanged and sound |
| `Sweeps.WhereChannelsComeFrom` | server/src/room.rs:391-432 | after any operations, every open channel of a room was open before them or was opened by one of them |
| `Sweeps.SweptWithUsers` | server/src/room.rs:525-561 | a room that was empty when a check listed it has users when it is removed if and only if, in between, somebody was let in on a channel that is still open |
| `Sweeps.UninterruptedSweepIsCheck` | server/src/room.rs:550-561 | listing the expired rooms and removing them one by one with nothing in between is the uninterrupted check |
| `LostChannels.StepKeepsAccounts` | server/src/room.rs:391-432 | every channel id of a room was returned to a caller or lost with its handler, and all lost ones stay open |
| `LostChannels.ClosingAllReturned` | server/src/room.rs:424-432 | closing every channel ever returned leaves exactly the lost ones open: the room is empty again if and only if its handler was there each time a user was let in |
| `Rooms.QuickplayRoomLetsAnyoneIn` | server/src/room.rs:495-522 | a room that quickplay finds would let in any user in the same state |
| `LobbyLog.Lobby.Notify` | server/src/lobby.rs:24-36 | an event is appended to the log |
| `RoomManagers.RoomManager.CreateRoom` | server/src/room.rs:285-338 | a valid config gets the next id and an empty room, an invalid one changes nothing |
| `RoomManagers.RoomManager.DeleteRoom` | server/src/room.rs:341-370 | exactly the creator can delete a room, and only that room goes |
| `RoomManagers.RoomManager.OpenChannel` | server/src/room.rs:374-435 | with the handler there, a user present in the room always gets a channel, and a newcomer unless the room has a cap and the count has reached it; the channel is new; `None` leaves the tables alone if and only if the user was not let in |
| `RoomManagers.RoomManager.CloseChannel` | server/src/room.rs:438-460 | the channel leaves its room's tables, other rooms stay as they are, and every room stays sound |
| `RoomManagers.RoomManager.GetRoomInfo` | server/src/room.rs:463-479 | the info reports the count, the cut cap and the joinable flag of an existing room |
| `RoomManagers.RoomManager.FindQuickplayRoom` | server/src/room.rs:495-522 | the room returned is below its cap, matches the request and passes the filter; if none is returned, every matching room fails the filter or is full |
| `RoomManagers.RoomManager.RunLifecycleChecks` | server/src/room.rs:525-562 | a room with users stays if and only if its lifetime has not run out, one without if and only if none of the three times has; all that stay are unchanged and all that go are announced once |
| `RoomManagers.RoomManager.Expired` | server/src/room.rs:525-548 | the scan lists, each once, exactly the rooms past their lifetime and the empty ones past the first-connect or the empty timeout |
| `RoomManagers.PostRoom` | server/src/rest.rs:135-147 | a room is announced as created exactly if it was, with its id, its config and no players |
| `RoomManagers.DeleteRoomRequest` | server/src/rest.rs:180-183 | a deletion is announced exactly if the room existed and the requester created it |
| `RoomManagers.Quickplay` | server/src/rest.rs:255-290 | an existing room is returned, with nothing changed, if and only if an eligible one existed |
| `RoomManagers.QuickCreate` | server/src/rest.rs:263-290 | otherwise the default config's room is created for the user and announced, or, without a valid one, nothing changes; quickplay is not enabled exactly without a default |
| `LobbyReplica.ReplayFollowsLastWord` | server/src/ws.rs:325-338 | after replaying events a replica lists a room exactly if the last event about it says so, or it did before and none is about it |
| `LobbyReplica.StepAnnounces` | server/src/rest.rs:135-183 | every block that adds or removes a room announces it, and no announcement is false |
| `LobbyReplica.EventsCarryTheState` | server/src/quic.rs:176-179 | an announcement of a room that is there carries its state right after the step |
| `LobbyReplica.EventsSinceIsLog` | server/src/lobby.rs:19-36 | a receiver gets the part of the log after its subscription |
| `LobbyReplica.EventsTellTheDifference` | server/src/lobby.rs:24-36 | between any two moments, the last event about a room says whether it exists now; silence means nothing changed |
| `LobbyReplica.SubscribeThenSnapshotConverges` | server/src/ws.rs:349-412 | a subscriber that takes its snapshot any time after subscribing lists, after all its events, exactly the rooms there are |
| `LobbyReplica.SnapshotThenSubscribeConverges` | server/src/quic.rs:105-110 | one that takes its snapshot before subscribing does if and only if every room that came or went in between is mentioned again |
| `LobbyReplica.ShownAsLastMentioned` | server/src/ws.rs:325-338 | a replica shows each room as it was at the last event about it, or as in the snapshot if there was none |
| `LobbyReplica.SubscriberShowsTheRoom` | server/src/ws.rs:349-412 | such a subscriber shows a room, with its player count, as it is now if and only if the room looks as it did at the last event about it, or at the snapshot without one; so it does unless a channel was opened or closed since |

## Left out

- The interleaving of single table operations inside a block without `.await`: blocks are taken as atomic, as under cooperative scheduling.
- `Connections`: the forwarding of messages is not a step of the machine; nothing in the code ties messages to the time between `UserConnected` and `UserDisconnected`, and nothing of the kind is claimed.
- User data besides the id: which of a user's values ends up in `UserReady` (the first registrant's) is not modelled.
- Backpressure of the 256-place event queue on the server: a send is one step that may be delayed for as long as one likes.
- `ServerActors`: the handler's task for a new channel is the `Accept` step of `Connections`; the loop's own turn for it changes nothing.
- `Delivery` and `EndToEnd`: one channel at a time, over an ordered byte stream; WebSocket reads, which cut frames above 64 KiB, are outside.
- Payloads above the frame limit: `Framing.FrameReadBack` and `Framing.RoundTrip` say that they are not read back; what a client then does is `ClientChannel.RunChannel`'s bad-length case.
- `ClientPipeline`: bridge loop and connector are steps on a value, not classes, since their interleaving is the point; update in place is not captured there.
- Forwarding of outgoing messages from the client runtime to its channels.
- Runtime.ActorRuntime.DrainSelf: stops after `fuel` messages even if some are left; that more fuel changes no finished drain is `Runtime.MoreFuelIsTheSame`.
- Runtime.ActorRuntime.Poll: handling at most `fuel` self-sent messages per poll, because an actor that keeps writing to itself keeps `poll` from returning; every poll that returns is covered by a large enough `fuel`.
- Events that arrive in the middle of a poll count as arriving before or after it.
- `state_mut` and manual polling after a disconnect.
- Rooms.NeverOverflows: no room has 2^32 - 1 users at once; 64-bit id counters do not wrap.
- RoomManagers.RoomManager.OpenChannel: the wait for a full handler queue between the registration and the last-activity update is not a separate step.
- RoomManagers.RoomManager.RunLifecycleChecks: the method runs uninterrupted, although the code yields before each removal; `Sweeps` says what interruptions change.
- RoomManagers.RoomManager.DeleteRoom: the yield between the shutdown signal and the removal, and the signals themselves.
- `LobbyReplica`: receivers that lag behind by more than 256 events miss some; a channel that ends on its own over WebTransport is announced only when its connection ends, so until then player counts can be stale as `LobbyReplica.SubscriberShowsTheRoom` says.
- LobbyStream.RecvStream.Fill: the failure to get at a chunk's value, which reports an error without clearing the connected flag.
- `get_all_rooms` as a loop over the rooms: the snapshot is one step.
- Authentication, tickets, TLS, JSON and binary encodings, heartbeats, logging, CORS, spawners, builders, the browser bindings and the chat example.
