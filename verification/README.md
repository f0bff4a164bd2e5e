# CipherChat relay: a verified model

CipherChat relays chat and files between clients through a threaded server. A sender seals a
file into an envelope and cuts it into chunks; the server renames each transfer from
`(sender, source id)` to a fresh outbound id in a fixed slot table and queues the frames to the
target; the target reassembles, opens and saves the file. This project models that path and
proves what it promises over whole runs.

Check everything with `dafny verify dfyconfig.toml`.

## Main results

* **Stream grammar.** For every run of logins, frames, disconnects, overflows and other traffic,
  the file frames queued to a client under one outbound id form
  `(BEGIN CHUNK* (END | ERROR))*`, never more bytes than declared, END only at exactly the
  declared size, one terminal frame per session; a session is open exactly while a live route
  feeds it. Handlers that are not interrupted need no assumption
  (`SerialRelay.SerialRunsKeepGrammar`). With handlers interrupted at every lock the grammar holds
  after every prefix of a run if and only if no BEGIN is queued while another thread still owes
  the same target the terminal frame of an older session with the same outbound id
  (`RelayRuns.GrammarIffNothingOvertakes`; all clauses in `RelayRuns.RunsKeepGrammar`).
* **Every way out of a handler.** For every frame and every state of its transfer `RelayOutcomes`
  says what becomes of the key and which client is queued which frame; everybody else's log stays
  as it is. A malformed, repeated or excess frame ends the transfer and tells its receiver, under
  the id it knows, and its sender once each; a BEGIN or CHUNK that cannot be delivered leaves a
  discarded key and one notice. A departure tells the other side of every live route exactly once
  (`RelayDepartures.DepartureIsTold`).
* **Messages are authentic.** Whoever is queued a CIPHERTEXT frame, it came under the key that its
  sender registered, for that client's name (`ChatOutcomes.CiphertextIsAuthentic`); a registered key
  is what every later reply carries (`ChatOutcomes.KeyIsServed`).
* **No stale routes.** Under every interleaving at lock granularity, whatever the ids, once
  handlers and sweeps are done every route's sender and every live route's target is registered
  (`RelayOwners.NoStaleRoutes`).
* **End to end.** A file is sent if and only if it is sendable: valid names, at most 16 MiB, read
  completely, sealed by the box (`Sender.SendsExactly`). Given a free slot and a target with room,
  every sendable file reaches the receiver's directory byte for byte, whatever else the server and
  the receiver do in between (`EndToEnd.FileArrives`), also when both TLS streams are cut and
  retried in any way (`EndToEnd.FileArrivesByWire`); such runs exist at every size
  (`RelayCarries.AlternatingCarries`).
* **Slots refine maps.** The slot arrays of the route table, the client registry and the
  receiver are classes whose every method equals an operation on a map, and the frame handlers
  over them equal the specified handler (`ServerFiles.Server.RouteFileFrame`).
* **Worker loop.** Input is what a one-shot decoder finds in the stream, output is conserved
  byte for byte, TLS retries are disciplined, the event mask is never empty, and no wake-up is
  lost (`WorkerTheorems`).
* **Receiver.** Every download is authentic and temporaries are accounted for; no existing file
  changes as long as no failed `mkstemp` clobbers one (`InboxRuns`).
* **Key requests.** Client and server together never waste a reply: the j-th key reply for a name
  meets the j-th package waiting for it (`KeyExchange.EveryReplyMatches`).

`Deployment` instantiates these at the sizes of the program: 100 clients, 400 routes, 16 files.

### Properties the code does not have

* **The grammar under interleaving.** `finish_file_route` frees the outbound id before its caller
  queues END. If that thread is delayed while the counter goes round once, the id is given out
  again and the new BEGIN overtakes the old END. No run with at most 2^32 - 1 accepted begins does
  this (`RelayShortRuns.ShortRunsDoNotOvertake`); `RelayOvertaking.GrammarCanBreak` builds one with
  exactly 2^32 from the empty server, so the bound is tight. The exact condition is the one above.
* **Queued frames are watched for.** The comment at `server_worker.c:90-91` has a read that waits
  for writability finish before an application write starts. If a frame is loaded while such a
  read is pending and the read then asks for readability instead, the worker blocks polling the
  socket for reading only: the frame in its buffer, and all frames behind it, wait until the peer
  sends something or another frame is queued. `WorkerTheorems.FramesCanStrand` exhibits the run
  from every starting state; `WorkerTheorems.WatchedUnlessDeferred` proves that the frame in the
  buffer is watched for at every poll if and only if the TLS layer never gives that answer.
* **Existing files are left alone.** When `mkstemp` fails, the slot is discarded with whatever name
  `mkstemp` left in the template, and that name is unlinked (`client_file_receiver.c:96-115`). If it
  is the name of a file that exists, the file is gone: `InboxSpec.DownloadCanVanish`. A frame
  leaves all files intact if and only if this does not happen (`InboxSpec.IntactIffNoClobber`).

## How the model is organised

| files | contents |
|---|---|
| `Bytes`, `FileProtocol`, `FileBuffers`, `WireFormat`, `Framing`, `Connection` | integers, codecs, the format spelled out, frame streams, blocking I/O |
| `RouteSpec`, `RouteTable`, `Counting` | routes as a map; the slot table that refines it |
| `RegistrySpec`, `Registry`, `RegistryRuns` | clients and queues as a map; the client array; runs |
| `LinkedList`, `OutgoingQueue`, `Mail` | lists with head, tail and count; a client's outgoing queue; what queued frames do to the logs |
| `Sessions`, `RelaySpec`, `ServerFiles` | the grammar, the frame handlers cut at their locks, the handlers as code |
| `Relay`, `RelayEnds`, `RelayProof`, `RelayRoutes`, `RelayTheorems`, `RelayOwners` | all threads interleaved, invariants, every step |
| `RelayRuns`, `RelayShortRuns`, `RelayOvertaking` | whole interleaved runs: the exact condition, the bound, the run that breaks |
| `SerialRelay`, `RelayOutcomes`, `RelayDepartures`, `RelayKeys`, `RelayTransfer`, `RelayCarries` | uninterrupted handlers: grammar, outcomes, frame conditions, one transfer |
| `WorkerSpec`, `WorkerRuns`, `WorkerTheorems`, `Worker` | the worker loop: state, steps, theorems, code |
| `FileCrypto`, `Sender`, `InboxSpec`, `InboxRuns`, `InboxOutcomes`, `InboxTransfer`, `Receiver`, `EndToEnd` | both ends of a transfer |
| `ChatSpec`, `Chat`, `ChatOutcomes`, `Pending`, `KeyExchange` | private messages, key requests, the pending list, both sides together |
| `Deployment` | the main results at the program's sizes |

Modelling decisions: client ids are unbounded (64-bit ids do not wrap); outbound and source ids
are 32 bits with explicit wrap-around; capacities are parameters with `N + 2 <= 2^32` slots. The
public-key box is any record of functions that satisfies `FileCrypto.Lawful`, that is, what is
sealed opens again, with the sizes of the wire format. TLS answers, file-system answers and
other threads are arbitrary. Texts sent to a user are one-byte tags, one per kind of notice.

## Model

| member | source | states |
|---|---|---|
| FileProtocol.BeginCodec | file_protocol.c:118-233 | a frame decodes to a begin record exactly when it is that valid record's encoding: round trip and uniqueness |
| FileProtocol.ChunkCodec | file_protocol.c:235-290 | the same for chunks |
| FileProtocol.ControlCodec | file_protocol.c:292-336 | the same for end and error frames |
| FileProtocol.ReencodeBegin | server_files.c:258-275 | after a successful decode the server's re-encoding cannot fail and fits its buffer |
| FileProtocol.ReencodeChunk | server_files.c:368-384 | the same for chunks |
| WireFormat.BigEndian16 | file_protocol.c:33-38 | byte i of a written integer is the value divided by 256^(1-i), modulo 256 |
| WireFormat.BigEndian32 | file_protocol.c:40-45 | the same for four bytes |
| WireFormat.BigEndian64 | file_protocol.c:47-51 | the same for eight bytes |
| WireFormat.FrameLayout | common.c:125-155 | length of type and payload, type, payload |
| WireFormat.BeginLayout | file_protocol.c:118-179 | every field of a begin frame at its offset |
| WireFormat.ControlLayout | file_protocol.c:235-312 | type, id and data of the other file frames |
| WireFormat.EnvelopeLayout | client_file_sender.c:244-286 | magic, key, nonce and box at their offsets; magic, name length, name and data in the box |
| WireFormat.PeerNames | file_protocol.c:71-90 | the valid user names are those of 1 to 31 bytes without blanks and control bytes |
| WireFormat.Filenames | file_protocol.c:92-116 | the valid filenames are those of 1 to 255 bytes without slash, backslash and control bytes, except dot and dot-dot |
| WireFormat.DecodedNamesAreSafe | file_protocol.c:181-233 | no bytes on the wire decode to any other names |
| FileBuffers.CheckPeerName | file_protocol.c:71-90 | the index loop accepts exactly the valid peer names |
| FileBuffers.CheckFilename | file_protocol.c:92-116 | the index loop accepts exactly the valid filenames |
| FileBuffers.WriteBegin | file_protocol.c:118-179 | the buffer holds the encoding and nothing else changed, or nothing changed at all; exactly when each |
| FileBuffers.WriteChunk | file_protocol.c:235-262 | likewise for chunks |
| FileBuffers.WriteControl | file_protocol.c:292-312 | likewise for control frames |
| RouteSpec.AllocationSucceeds | server_file_routes.c:373-400 | from every counter value and every valid table allocation returns the first unused nonzero candidate within N + 1 attempts; ID_UNAVAILABLE is unreachable |
| RouteSpec.TriedAreDistinct | server_file_routes.c:373-400 | the candidates tried are pairwise distinct modulo 2^32 |
| RouteSpec.AddValid | server_file_routes.c:47-104 | adding keeps live ids distinct and nonzero, and never fails for lack of an id |
| RouteSpec.QuarantineValid | server_file_routes.c:107-151 | quarantining keeps the table valid |
| RouteSpec.AcceptChunkValid | server_file_routes.c:154-199 | accepting a chunk never forwards more than declared |
| RouteSpec.AbortValid | server_file_routes.c:261-324 | the abort sweep keeps the table valid |
| RouteSpec.AbortLeavesNoTrace | server_file_routes.c:261-324 | after the sweep no entry names the client and no other entry changed |
| RouteSpec.AllGoneMeansEmpty | server_file_routes.c:261-324 | when all clients in the table have been swept it is empty |
| RouteTable.RouteTable.Find | server_file_routes.c:346-359 | the scan finds the slot of a key exactly when the map has it |
| RouteTable.RouteTable.FindFree | server_file_routes.c:362-370 | a free slot is found exactly when the map is smaller than the array |
| RouteTable.RouteTable.IdInUse | server_file_routes.c:386-394 | the inner scan decides whether a live route uses the id |
| RouteTable.RouteTable.AllocateId | server_file_routes.c:373-400 | the loop computes the specified allocation and counter |
| RouteTable.RouteTable.MakeDiscard | server_file_routes.c:403-414 | writes a tombstone for exactly one key |
| RouteTable.RouteTable.Add | server_file_routes.c:47-104 | commutes with Add on the map, including result and endpoints |
| RouteTable.RouteTable.Quarantine | server_file_routes.c:107-151 | commutes with Quarantine on the map |
| RouteTable.RouteTable.AcceptChunk | server_file_routes.c:154-199 | commutes with AcceptChunk on the map |
| RouteTable.RouteTable.MarkForwardFailed | server_file_routes.c:202-221 | commutes with MarkForwardFailed on the map |
| RouteTable.RouteTable.Finish | server_file_routes.c:224-258 | commutes with Finish on the map |
| RouteTable.RouteTable.AbortClient | server_file_routes.c:261-324 | the sweep yields the aborted map and, in slot order, the first `limit` actions |
| RouteTable.SweepIsOrder | server_file_routes.c:261-324 | the sweep acts once, in slot order, on exactly the live routes whose other endpoint must be told |
| ServerFiles.SweepFits | server_files.c:100-126 | at the capacity used no action is dropped |
| RegistrySpec.LoginValid | client_manager.c:68-114 | login keeps ids fresh and names unique |
| RegistrySpec.LoginOutcome | client_manager.c:68-114 | a login succeeds exactly for a free valid name while a place is free; fresh id, empty queue, nobody else changed; which refusal when |
| RegistrySpec.FindIsExact | client_manager.c:191-209 | the id found is that of the one activated client with the name |
| RegistrySpec.QueueValid | client_manager.c:387-471 | queueing keeps queues bounded and each a suffix of its own log |
| RegistrySpec.TakeValid | client_manager.c:472-515 | dequeuing keeps the registry valid |
| Registry.Registry.AddClient | client_manager.c:68-114 | commutes with Login on the map, although a reused slot's queue is not reset |
| Registry.Registry.ActivateClient | client_manager.c:116-132 | commutes with Activate |
| Registry.Registry.RemoveClient | client_manager.c:134-175 | commutes with Remove and leaves an empty, unfailed slot without a key |
| Registry.Registry.FindClientId | client_manager.c:191-209 | returns the one activated client with that name, or 0 |
| Registry.Registry.RegisterPublicKey | client_manager.c:211-231 | a key is stored or confirmed, never replaced |
| Registry.Registry.GetPublicKey | client_manager.c:233-247 | returns the key of an activated client, if any |
| Registry.Registry.QueueFrame | client_manager.c:387-471 | appends, or fails the client when its queue is full, or does nothing |
| Registry.Registry.TakeOutgoingFrame | client_manager.c:472-515 | removes the oldest frame of an unfailed client |
| LinkedList.List.Append | client_manager.c:454-461 | links a node at the tail; head, tail and count stay consistent |
| LinkedList.List.Unlink | client.c:330-347 | unlinks any node, moving the tail when it was the last |
| LinkedList.List.RemoveHead | client_manager.c:495-504 | unlinks the oldest node, resetting the tail of an emptied list |
| OutgoingQueue.OutgoingQueue.QueueFrame | client_manager.c:387-471 | the linked queue, its bound and failure flag change as the registry says |
| OutgoingQueue.OutgoingQueue.TakeFrame | client_manager.c:472-515 | likewise for dequeuing |
| RegistryRuns.OwnFramesOnly | client_manager.c:37-175 | over every run: what a client took plus its queue is what was queued to its own id; names unique, queues bounded |
| RegistryRuns.GoneStaysGone | client_manager.c:37-45 | an id once removed never comes back |
| RegistryRuns.KeyNeverChanges | client_manager.c:211-231 | a registered key never changes while the client is there |
| RegistryRuns.NameNeverChanges | client_manager.c:68-114 | neither does its name |
| RegistryRuns.OverflowIsFinal | client_manager.c:443-452 | a client whose queue of 128 overflowed is queued nothing more and hands out nothing more, whatever happens |
| Mail.PostDelivers | client_manager.c:387-471 | of a list of frames every client with room gains exactly those addressed to it, in order; any other a first part of them |
| Sessions.OneTerminalPerSession | server_files.c:128-567 | a log that keeps to the grammar has one terminal frame per begin, except for one open session |
| ServerFiles.Server.RouteFileFrame | server_files.c:54-98 | the handler over the real arrays has exactly the specified effect on registry, queues and routes |
| ServerFiles.Server.HandleBegin | server_files.c:128-299 | likewise for begin frames |
| ServerFiles.Server.HandleChunk | server_files.c:301-407 | likewise for chunks |
| ServerFiles.Server.HandleEnd | server_files.c:409-503 | likewise for end frames |
| ServerFiles.Server.HandleError | server_files.c:505-567 | likewise for error frames |
| ServerFiles.Server.RejectKnownTransfer | server_files.c:640-662 | quarantine, one error to the receiver of a live route, one notice |
| ServerFiles.Server.SendReceiverError | server_files.c:588-611 | one error frame to a valid endpoint, nothing to the invalid one; success exactly when it was queued |
| ServerFiles.Server.NotifySender | server_files.c:613-617 | one notice to the sender, nothing else |
| ServerFiles.Server.AbortFileRoutes | server_files.c:100-126 | every action of the sweep is carried out in slot order |
| ServerFiles.Server.Depart | server.c:180-183 | removal, then sweep, as one departure of the specification |
| RelayTheorems.StepKeepsInvariant | server_files.c:128-567 | every micro-step of every thread keeps the system invariant, unless it queues a BEGIN ahead of an owed terminal frame |
| RelayTheorems.OvertakingBreaks | server_file_routes.c:224-258 | a step that does so breaks the target's log at once |
| RelayRuns.GrammarIffNothingOvertakes | server_files.c:128-567 | for every interleaved run: the logs keep to the grammar after every prefix if and only if no step overtakes |
| RelayRuns.RunsKeepGrammar | server_files.c:128-567 | over every interleaved run in which nothing overtakes: grammar, one terminal per session, and when quiet the open sessions are exactly the live routes |
| RelayRuns.QuietSessionsAreRoutes | server_files.c:128-567 | in a quiet state sessions at accepting clients are exactly the live routes, sizes included |
| RelayOvertaking.GrammarCanBreak | server_file_routes.c:224-258 | from the empty server there is a run with exactly 2^32 accepted begins after which a log is broken |
| RelayShortRuns.ShortRunsDoNotOvertake | server_file_routes.c:373-400 | a run with at most 2^32 - 1 accepted begins never overtakes |
| RelayOwners.NoStaleRoutes | server.c:180-183 | under every interleaving, in a quiet state all endpoints of routes are registered |
| RelayOwners.EmptyServerHasNoRoutes | server.c:180-183 | a quiet server without clients has no routes |
| SerialRelay.HandleFrameKeepsInvariant | server_files.c:54-98 | an uninterrupted handler keeps the invariant with no assumption on ids |
| SerialRelay.DepartKeepsInvariant | server.c:180-183 | so does a departure |
| SerialRelay.SerialRunsKeepGrammar | server_files.c:54-567 | over every run, however often the counter wraps: grammar, one terminal per session, sessions are exactly the live routes |
| RelayOutcomes.CasesAreComplete | server_files.c:54-98 | every frame falls under one of the cases below |
| RelayOutcomes.UselessFrame | server_files.c:54-98 | a frame that is empty, too large, too short, of another type or from an invalid user changes no route; who is told |
| RelayOutcomes.MalformedFrame | server_files.c:640-662 | a file frame that encodes nothing buries (BEGIN, CHUNK) or frees (END, ERROR) the key it names; one ERROR under the old outbound id to the receiver of a live route, one notice to the sender |
| RelayOutcomes.BeginTwice | server_files.c:128-299 | a source id in use is buried; its receiver and the sender are told |
| RelayOutcomes.BeginWhenFull | server_files.c:128-299 | with no free slot one notice and nothing else |
| RelayOutcomes.BeginToNobody | server_files.c:128-299 | a transfer to nobody or to oneself is buried with one notice |
| RelayOutcomes.BeginToPeer | server_files.c:128-299 | with room at the target: a live route under an unused id and the renamed BEGIN; without: buried and one notice |
| RelayOutcomes.ChunkOfNothing | server_files.c:301-407 | a chunk without transfer buries its key with one notice; a chunk of a discarded one changes nothing |
| RelayOutcomes.ChunkTooMuch | server_files.c:301-407 | a chunk beyond the declared size buries the key; receiver and sender are told |
| RelayOutcomes.ChunkOfRoute | server_files.c:301-407 | with room at the target: counted and queued under the outbound id; without: buried and one notice |
| RelayOutcomes.EndOfTransfer | server_files.c:409-503 | END frees the key; who is told what for a missing, discarded, short, complete and undeliverable transfer |
| RelayOutcomes.ErrorOfTransfer | server_files.c:505-567 | ERROR frees the key and reaches the receiver of a live route under its outbound id |
| RelayDepartures.DepartureIsTold | server_file_routes.c:261-324 | every other client gains one frame per live route between it and the client that left: ERROR under the outbound id to a receiver, a notice to a sender; nobody gains anything else |
| RelayDepartures.OneErrorPerRoute | server_file_routes.c:261-324 | exactly one ERROR for each session that the departure ended |
| RelayDepartures.DepartureBuries | server_file_routes.c:261-324 | routes of the client are gone, live routes to it are discarded, all others are as before |
| RelayKeys.OtherKeysUntouched | server_files.c:54-567 | a frame changes no key but the one it names |
| RelayKeys.DiscardedIsSilent | server_files.c:128-407 | frames of a discarded key reach no receiver and keep it discarded |
| RelayKeys.DiscardedStays | server_file_routes.c:403-414 | over every run a discarded key stays so, and each of its frames queues no file frame to anybody, until END, ERROR or disconnection |
| RelayTransfer.HandleSpares | server_files.c:54-567 | frames about other keys leave a live route and the frames of its outbound id alone |
| RelayTransfer.DepartSpares | server_files.c:100-126 | so do departures of other clients |
| RelayCarries.RelayCarriesTransfer | server_files.c:258-407 | mixed with any other events the target is queued exactly the sender's frames under an unused outbound id |
| RelayCarries.AlternatingCarries | server_files.c:258-407 | for a file of every size, frames and dequeues in turn are such a run, from one free place in the target's queue |
| Framing.DecodeAllSound | server_worker.c:120-165 | what decodes is the encoding of its frames followed by an unfinished rest |
| Framing.DecodeAllComplete | server_worker.c:120-165 | every list of frames survives encoding and decoding |
| Framing.DecodeMore | server_worker.c:120-165 | decoding may stop anywhere and go on with only the unfinished rest |
| Connection.Connection.RecvAll | common.c:157-223 | exactly the next bytes of the stream, or a short count at its end, or an error |
| Connection.Connection.ReceiveFrame | common.c:273-323 | returns a frame exactly when the one-shot decoder finds one that fits, consumes nothing behind it, clean end only on a boundary |
| Connection.Connection.SendAll | common.c:30-95 | succeeds exactly when the link takes all the bytes, and otherwise sends exactly the part it takes |
| Connection.Connection.SendFrame | common.c:125-155 | the same for the encoding of a frame; nothing for a frame that does not fit |
| Connection.HealthyHasNoLimit | common.c:30-95 | a link whose writes all succeed, however short and however often retried, takes everything |
| WorkerSpec.GotIsDecoding | server_worker.c:120-154 | each read step acts exactly when the decoder would, and never holds more than one frame |
| WorkerRuns.StepKeepsInvariant | server_worker.c:57-196 | every step of the worker and of the threads that queue to it keeps all five invariants |
| WorkerTheorems.EveryFragmentation | server_worker.c:120-165 | dispatched frames, refusals and clean ends are those of the one-shot decoder, for every fragmentation |
| WorkerTheorems.OutputIsConserved | server_worker.c:70-116 | encoding of all queued frames = written + rest of buffer + encoding of queue; bounds hold |
| WorkerTheorems.PeerSeesTheQueue | server_worker.c:70-116 | the peer decodes the queued frames in order, all of them once drained |
| WorkerTheorems.ServerSeesTheSender | server_worker.c:120-165 | what a client sent is dispatched in order |
| WorkerTheorems.RetriesAreDisciplined | server_worker.c:88-177 | identical retries, no interruption, no mutual blocking, nonzero event mask |
| WorkerTheorems.NoWakeUpIsLost | client_manager.c:419-464 | blocked with failed output: counter positive; blocked with a queue: counter positive or a frame in the buffer |
| WorkerTheorems.WatchedUnlessDeferred | server_worker.c:88-177 | the buffered frame is watched for at every poll if and only if no deferred write meets a read that turns to readability |
| WorkerTheorems.FramesCanStrand | server_worker.c:88-177 | a run that blocks with unsent frames, no wake-up and only readability polled |
| Worker.Worker.LoadFrame | server_worker.c:76-85 | the buffer holds the frame's encoding; it never overflows |
| Worker.Worker.Load | server_worker.c:70-86 | has exactly the effect of the load step |
| Worker.Worker.Write | server_worker.c:92-116 | has exactly the effect of the write step |
| Worker.Worker.TakeInput | server_worker.c:127-154 | has exactly the effect of taking in bytes read |
| Worker.Worker.Read | server_worker.c:120-166 | has exactly the effect of the read step |
| Worker.Worker.PollEvents | server_worker.c:173-179 | a worker about to block polls the socket for something: for the pending write if there is one, otherwise for the read; a watched frame is polled for |
| FileCrypto.AcceptableSizeExact | client_file_receiver.c:226-231 | the size test accepts exactly the sizes a sender can produce for that filename |
| FileCrypto.OpenEnvelope | client_file_receiver.c:372-443 | the one size bound keeps every offset in range; the data has the size the envelope leaves |
| FileCrypto.EnvelopeRoundTrip | client_file_sender.c:244-286 | every file up to 16 MiB comes out of its envelope unchanged and passes the size test |
| FileCrypto.OpensExactly | client_file_receiver.c:393-421 | exactly the authenticated plaintexts with the announced filename are taken |
| Sender.CutIsExact | client_file_sender.c:299-313 | cutting loses nothing and makes only valid chunks, all but the last of 900 bytes |
| Sender.PathBasename | client_file_sender.c:84-94 | the part after the last slash |
| Sender.BuildPlaintext | client_file_sender.c:244-265 | the plaintext layout |
| Sender.BuildEnvelope | client_file_sender.c:272-283 | the envelope layout, of the announced length |
| Sender.SendsExactly | client_file_sender.c:187-286 | frames are sent if and only if both names are valid, the file is regular and read completely, has at most 16 MiB and the box seals it; and they are the frames of that file |
| Sender.Sender.CreateTransferId | client_file_sender.c:41-54 | the next nonzero value of a wrapping counter |
| Sender.Sender.SendTransfer | client_file_sender.c:288-321 | begin, chunks at a running offset and end go out whole, and it succeeds, exactly when the link takes them; otherwise the part it takes |
| Sender.Sender.SendFile | client_file_sender.c:187-344 | a sendable file goes out as one transfer under a fresh id, whole exactly when the link takes it all; any other file sends nothing |
| InboxSpec.HandleValid | client_file_receiver.c:204-574 | every frame keeps sizes, ids, temporaries and kept files consistent |
| InboxOutcomes.BeginOutcome | client_file_receiver.c:204-311 | exactly when a transfer is opened, with what; otherwise no transfer and no file changes but for mkstemp's own name |
| InboxOutcomes.ChunkOutcome | client_file_receiver.c:313-370 | a chunk within the declared size is appended to the staged bytes; any other ends the transfer and its temporary |
| InboxOutcomes.EndOutcome | client_file_receiver.c:445-537 | END always ends the transfer; exactly when its file appears, with which bytes |
| InboxOutcomes.ErrorOutcome | client_file_receiver.c:539-574 | ERROR ends the transfer and its temporary and nothing else |
| InboxSpec.IntactIffNoClobber | client_file_receiver.c:204-311 | a frame leaves kept files and the temporaries of other transfers intact if and only if no failed mkstemp left behind the name of one |
| InboxSpec.DownloadCanVanish | client_file_receiver.c:96-115 | a saved file is removed by a begin frame whose mkstemp fails on its name |
| InboxSpec.CleanupIsComplete | client_file_receiver.c:117-138 | cleanup removes exactly the temporaries |
| InboxSpec.CleanupValid | client_file_receiver.c:117-138 | cleanup keeps the inbox consistent, whatever cannot be removed |
| InboxRuns.DownloadsAreAuthentic | client_file_receiver.c:204-574 | over every run in which no failed mkstemp clobbers a file: no file that was there changes and every new one is authentic, a temporary under way, or could not be removed |
| InboxRuns.StagingIsConsistent | client_file_receiver.c:60-138 | staged length = received size <= declared size, temporaries distinct, slots bounded |
| InboxRuns.RunFollows | client_file_receiver.c:313-370 | while the grammar holds an active transfer is the open session, byte for byte |
| InboxTransfer.TransferIsReceived | client_file_receiver.c:313-537 | the frames of a transfer among any others leave the file in the directory |
| Receiver.DecryptEnvelope | client_file_receiver.c:372-443 | the offsets of the code compute OpenEnvelope |
| Receiver.Receiver.CreateIncoming | client_file_receiver.c:74-94 | a slot is claimed, with nothing but its id, exactly when the id is new and one is free |
| Receiver.Receiver.DiscardIncoming | client_file_receiver.c:96-115 | removes the transfer and its temporary |
| Receiver.Receiver.ReceiveBegin | client_file_receiver.c:204-311 | claiming, staging and giving up a slot commute with ReceiveBegin on the map, including the unlink after a failed mkstemp |
| Receiver.Receiver.ReceiveChunk | client_file_receiver.c:313-370 | commutes with ReceiveChunk |
| Receiver.Receiver.ReceiveEnd | client_file_receiver.c:445-537 | commutes with ReceiveEnd |
| Receiver.Receiver.ReceiveError | client_file_receiver.c:539-574 | commutes with ReceiveError |
| Receiver.Receiver.HandleFrame | client_file_receiver.c:576-606 | commutes with Handle; an undecodable frame changes nothing |
| Receiver.Receiver.CleanupIncoming | client_file_receiver.c:117-138 | the loop removes every removable temporary and clears all slots |
| EndToEnd.FileArrives | client_file_sender.c:187-321 | for all histories every sendable file is sent and the receiver's saved bytes equal it |
| EndToEnd.FileArrivesByWire | server_worker.c:57-196 | the same composed with both workers: from the bytes the sender wrote to the bytes the receiver read |
| ChatSpec.SizesAgree | client.c:217-253 | every accepted message passes the server's checks and fits |
| ChatSpec.ForwardedLengthNeverFires | server.c:259-265 | the forwarded-length check is dead for login names |
| ChatSpec.ReaddressingIsExact | server.c:236-276 | nonce, key and ciphertext are forwarded unchanged |
| ChatSpec.ChatArrives | client.c:254-301 | the recipient opens the message under the sender's login name |
| ChatSpec.ReplyNamesThePeer | server.c:217-234 | a key reply reads back as the requested name, with the key exactly when there is one |
| Chat.CopyPeerName | server.c:187-199 | accepts exactly the valid peer names and leaves them NUL-terminated in the buffer, which is untouched otherwise |
| Chat.HandleEncryptedChat | server.c:201-282 | has exactly the effect of the specification on the registry |
| ChatOutcomes.ParsesExactly | server.c:236-253 | exactly the payloads of a valid name and an encrypted part of possible length parse |
| ChatOutcomes.MessageOutcome | server.c:236-282 | forwarded only under the registered key, to the client of that name, if it has room; one complaint otherwise, and nothing to anybody else |
| ChatOutcomes.NoMessageOutcome | server.c:236-253 | a payload that is no message draws one complaint |
| ChatOutcomes.RegistrationOutcome | server.c:209-215 | exactly when a key is stored; it is then the client's key; no other key changes |
| ChatOutcomes.RequestOutcome | server.c:217-234 | one reply with the name and the key of the activated client of that name |
| ChatOutcomes.CiphertextIsAuthentic | server.c:254-282 | any CIPHERTEXT frame queued to anybody carries the key registered for its sender and went to the client named in it, unchanged |
| ChatOutcomes.KeyIsServed | client_manager.c:211-247 | over every run a registered key is what replies for that name carry, exactly while the client accepts frames |
| ChatOutcomes.ReceivesExactly | client.c:254-301 | the client shows exactly the messages that open, under the name in them |
| ChatOutcomes.ReadsRepliesExactly | client.c:302-381 | the client takes exactly the replies of a name and nothing or one key |
| Pending.PendingList.Enqueue | client.c:572-604 | appends within the bound; head, tail, count and links stay consistent |
| Pending.PendingList.Take | client.c:330-347 | removes the first match, order of the others preserved |
| Pending.RemoveFirstTakesOldest | client.c:330-347 | the oldest package of the name goes, other names are undisturbed |
| Pending.RunsAreBalanced | client.c:572-604 | over every interleaving matched + waiting = accepted, per name and in order; never more than 128 |
| Pending.RefusedOnlyWhenFull | client.c:572-604 | a package whose request went out is refused if and only if 128 accepted ones are unmatched |
| Pending.RepliesMatchInOrder | client.c:302-381 | in every interleaving, solicited or not, the j-th reply that finds a package is matched to the j-th package of its name |
| Pending.AnsweredIffAllMatch | client.c:302-381 | no reply is ignored if and only if replies never run ahead of requests |
| KeyExchange.EveryReplyMatches | server.c:201-282 | with the server's one reply per request, in order, every reply is matched, the j-th to the j-th |
| Deployment.NewServer | server_file_routes.h:10 | a server of 100 clients and 400 routes starts in the state all runs start from |
| Deployment.NewReceiver | client_files.h:11 | a client of 16 incoming files starts consistent |
| Deployment.ServerAsBuilt | client_manager.h:11 | the grammar condition, its tight bound and the absence of stale routes at the program's sizes |
| Deployment.ServerUninterrupted | client_manager.h:11 | the unconditional results for uninterrupted handlers at those sizes |
| Deployment.ReceiverAsBuilt | client_files.h:11 | at most 16 transfers at a time, and a final cleanup leaves only what is kept or could not be removed |

## Left out

- Network setup, certificates, handshakes, timeouts and shutdown (`network.c`), thread creation, signals and the accept loop.
- The command parser, texts of notices, `/list`, `/help`, broadcasts and terminal display; they would only add formatting. A truncated `/list` is not claimed to hold whole names.
- Failures of memory allocation, of the event counter's and poll's own system calls, and reported error codes.
- Secrecy and unforgeability: the box is only required to open what it sealed. The sender's public key is taken to be the one of its secret key.
- RelayRuns.RunsKeepGrammar: assumes that no BEGIN overtakes, which RelayRuns.GrammarIffNothingOvertakes proves to be the exact condition for the grammar.
- InboxRuns.DownloadsAreAuthentic: assumes that no failed mkstemp clobbers a file, which InboxSpec.IntactIffNoClobber proves to be the exact condition.
- Registry.Registry.QueueFrame: a slot of the client array holds its queue's contents as a sequence with a counter; the links are verified apart from the array, in OutgoingQueue.
- Registry.Registry.TakeOutgoingFrame: likewise.
- Worker.Worker.Read: the endless loop of `run_client_worker` appears as the steps of `WorkerRuns`, because other threads run between its system calls; the class has one method per segment.
- Receiver.Receiver.ReceiveBegin: path lengths are not modelled, since the download directory is a fixed short name.
- At-most-once notices on the BEGIN failure path: the code ignores whether the quarantine found a live route (`server_files.c:283-294`).
