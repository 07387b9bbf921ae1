# A verified model of carlo's streaming stack

carlo is two layers. `streaming_transmit` turns one connection into a concurrent
request/reply multiplexer: senders append frames to a queue, a write loop takes the
queue in batches, a read loop routes each frame to the request that carries its number
or to a handler, and a supervisor joins the two loops and fails what is left.
`streaming_rpc` runs streams over such a connection: packets with counted lists and
maps, chunked bodies, a table of streams with one-shot wakeups, and an index of who
offers which service. This project models both layers and proves what they promise.

| component | files |
|---|---|
| bytes, integers, identifiers | `Basics`, `Seqno` |
| the write half of a connection, as a step machine | `Writer`, `WriterProofs` |
| the whole connection, any number of callers | `Mux`, `MuxInv`, `MuxProofs`, `MuxCallProofs`, `MuxEffects`, `MuxTheorems`, `MuxLost`, `MuxFaults`, `MuxZero`, `MuxErrors`, `MuxVerdicts` |
| two connections joined back to back | `Link`, `LinkOrder` |
| the connection's code, on its own fields and arrays | `ConnSteps`, `ConnCode`, `PoolCode` |
| framing and encryption | `Session` (meaning), `SessionCode` (buffers re-sliced in place) |
| packet formats | `Packets`, `ServicePackets`, `DataPackets`, `Handshakes` (meaning), `PacketCode` (loops), `WireLayout` (where each field stands) |
| streams | `Messages`, `Streams` (the table as a value), `StreamOutcomes` (what each operation on it does), `Traces` (what a sender sends), `Demux`, `EndToEnd`, `ProviderRuns`, `ProviderTheorems` |
| streams over two joined connections | `Stack` |
| stream code | `ContextCode`, `HandlerCode`, `ProviderCode` |
| service index, client pool, counters | `Registry`, `ProvidersCode`, `ClientCode`, `Metrics`, `MetricsTheorems` |

## How it is modelled

Concurrency is a step machine. One step is one critical section of a mutex, one
`wg.Done`, one `conn.Read` or `conn.Write`, or one wakeup; a run is any sequence of
enabled steps, so a statement about `After(ts)` or about every state of `IsRun` is about
every interleaving. `conn.Write`, `Flush`, `SetWriteDeadline` and the peer's bytes are
arbitrary. A pool is a set of object numbers; a use after release, or a `wg.Done` that
takes a wait group below zero, sets a fault and is never assumed away.

Code that changes things in place is written with classes, arrays and loops, and each
method's new state is equated with the corresponding function of the old one:
`ConnCode.Conn` keeps a run of the machine as a ghost field and its fields are always the
state that run ends in; `ProviderCode.Provider` is tied to `Streams.Table`;
`SessionCode` works on windows of one array; `ClientCode.Client` filters one array in
place. What the source promises is then proved of the machines and functions.

## What turned out not to hold

Each of these is proved with the exact condition, or with a concrete input.

- A refused `Request` calls `wg.Done` before it deletes its entry
  (`streaming_transmit/conn.go:119-125`). If `close` finds the entry in between, or the
  request was completed before, the wait group goes below zero and Go panics:
  `MuxFaults.PanicsExactlyWhen` (if and only if), `MuxTheorems.RefusedRequestCanFault`
  (a run).
- If `readLoop` has taken a refused request's entry, for a message of the peer, but not
  yet filled its object, the object can be released and acquired by another request. That
  one is then filled with the stranger's bytes and returns them without an error:
  `MuxFaults.MisdeliversExactlyWhen` (if and only if), `MuxFaults.RequestCanGetAnothersReply`
  (a run). The machine stops at both kinds of step (`MuxFaults.FaultIsEither`); up to there
  accepted requests are never completed twice, and between two ends of this program the
  second kind does not occur (`Link.FaultsComeFromClose`).
- A server's sequence number is 0 at every 2^31-th call (`Seqno.ServerNumbers`), and 0
  marks a frame as no reply. After 2^31 calls numbers also repeat, and a new request
  overwrites the entry of an old one. `MuxLost.LostExactlyWhen` says which accepted
  requests nobody has any more (if and only if), by what happened to their entries before
  or after they were accepted; `MuxLost.LostForever` that no later step, `close` included,
  completes one, and `MuxZero.NumberZeroIsLost` a run of the server end that reaches it.
- The service request decoder indexes out of range on exactly 4 bytes
  (`streaming_rpc/servicerequestpacket.go:52`). It is `Panics` in `ServicePackets.DecodeRequest`,
  and `PacketCode.UnmarshalRequest` shows that it is the only such input.
- The data packet decoder compares lengths as 16-bit integers: it refuses some complete
  buffers (`DataPackets.RefusedThoughComplete`, if and only if).
- A body that reads as (0, nil) makes `Push` send a premature terminator
  (`Traces.PushTraceIsAccepted`, if and only if).
- `NextStream` writes its id into the table without a test, and `CloseStreamWithError`
  deletes by id: if the peer uses an id of this end, a `Push` can wait for ever
  (`ProviderRuns.StepKeepsStreams`, if and only if; `ProviderTheorems.SharedIdStrandsAPush`).
- A served request on a connection whose peer gave no id dereferences a nil pointer
  (`streaming_rpc/streamnode.go:479`): `Streams.PanicsExactlyWhen` (if and only if, with the
  decoder's panic), `Streams.TenBytesPanic` (a frame).
- `SessionConn.Read` returns the plaintext cut to `len(b)` though it admits `cap(b)` bytes
  of ciphertext, and `SessionConn.Write` returns the ciphertext's length
  (`streaming_transmit/session.go:50-97`); both are so in the contracts.
- When a read of the body fails, `Push` closes its own stream and tells the peer nothing
  (`streaming_rpc/provider.go:127-132`): the peer's pipe gets what was read and is never
  closed (`Traces.PushTraceIsAccepted`, `EndToEnd.EachPipeGetsItsSendersBytes`).

## Model

| member | source | states |
|---|---|---|
| Basics.BE32RoundTrip | streaming_transmit/io.go:49-51 | what is appended as a 32-bit length is read back modulo 2^32, with the rest untouched |
| Basics.BE64RoundTrip | streaming_transmit/session.go:78 | a nonce counter is read back modulo 2^64 |
| Seqno.ClientNumbers | streaming_transmit/conn.go:247-257 | client sequence numbers are 1, 3, 5, ... modulo 2^32, and two calls get the same one if and only if they are a multiple of 2^31 calls apart |
| Seqno.ServerNumbers | streaming_transmit/conn.go:247-257 | server numbers are 2, 4, 6, ... modulo 2^32, 0 exactly at every 2^31-th call, and repeat exactly every 2^31 calls |
| Seqno.FirstNumbers | streaming_transmit/conn.go:247-257 | the first 2^31 - 1 numbers of either end are non-zero, of its parity and distinct |
| Seqno.StreamIds | streaming_rpc/provider.go:33-34 | stream ids keep their parity through wraparound, repeat exactly every 2^31 streams, and never meet the other end's |
| WriterProofs.RunKeepsInv | streaming_transmit/conn.go:259-329 | every interleaving of senders, waiters, writer and close keeps queue, batch, verdicts and object ownership consistent, without a use after release |
| WriterProofs.StepRefinesFifo | streaming_transmit/conn.go:259-329 | each step of the batching writer is a step of a plain FIFO, or invisible to it |
| WriterProofs.WrittenIsPrefixOfAccepted | streaming_transmit/conn.go:172-189 | in every run the frames written are the first accepted ones in order, a verdict is nil exactly for those, and a waiting Send that returned was told the verdict of its own frame |
| WriterProofs.VerdictsAreFinal | streaming_transmit/conn.go:287-312 | no step revokes a verdict or gives more than one: each accepted write is completed at most once |
| WriterProofs.CloseLeavesNothing | streaming_transmit/conn.go:395-409 | when close has walked the queue every accepted write has been completed |
| WriterProofs.PooledIsUnused | streaming_transmit/pendingwritepool.go:22-41 | a pendingWrite that is queued, in the rest of a batch or waited for is out of the pool; each accepted write and its buffer go back exactly once, when its last user is done |
| WriterProofs.UnfinishedWritesShareNothing | streaming_transmit/conn.go:138-189 | no two unfinished writes share a pooled object or a byte buffer |
| WriterProofs.SleepsOnlyWhenIdle | streaming_transmit/conn.go:264-268 | no lost wakeup: while the writer sleeps the queue is empty, the writer is not shut, and all that was accepted is written and flushed |
| WriterProofs.DrainedForever | streaming_transmit/conn.go:176-196 | after a full drain no continuation of the run accepts or writes anything |
| WriterProofs.NilMeansDrained | streaming_transmit/conn.go:280-329 | when writeLoop returns nil every frame ever accepted has been written, flushed and reported, and none is accepted later |
| MuxTheorems.RunKeepsInv | streaming_transmit/conn.go:52-131 | the invariant of the whole connection holds in every run of callers, writer, reader, handler and supervisor |
| MuxTheorems.HandleJoinsBothLoops | streaming_transmit/conn.go:52-98 | whichever branch Handle takes, both loops have ended and the writer is shut before close runs, and close is given an error and can always start its walk |
| MuxErrors.HandleReturnsTheFirst | streaming_transmit/conn.go:69-97 | in every run the error of Handle is that of readLoop if Handle saw readLoop end first; else that of writeLoop if it had one, and else that of readLoop; close works with that same error to its end |
| MuxErrors.FirstIsFirst | streaming_transmit/conn.go:284-328 | the error of a loop is what the first of its failing calls returned, and it has none if and only if none failed |
| MuxErrors.ReaderStopsAtTheFirst | streaming_transmit/conn.go:343-386 | in every run readLoop has ended with an error if and only if that was the first of its failed reads, messages of fewer than 4 bytes and refusals of the handler |
| MuxErrors.HandlerDecides | streaming_transmit/conn.go:369-375 | a handler that returns an error ends readLoop with it; one that returns none lets it read on |
| MuxErrors.StoppedForever | streaming_transmit/conn.go:370-374 | after the first failure no continuation of the run reads a message or calls the handler again |
| MuxVerdicts.VerdictsAre | streaming_transmit/conn.go:287-312 | in every run the verdict of each write is nil if conn.Write took it, the error of writeLoop if writeLoop failed it, and the error of Handle if close found it waiting; a Send that returned was told that verdict |
| MuxVerdicts.ClosedRequestsAreTold | streaming_transmit/conn.go:411-417 | a request that close completed was completed once, with the error of Handle, and returns it |
| MuxVerdicts.RefusedRequestsAreTold | streaming_transmit/conn.go:176-178 | a request whose frame was refused returns that the node is shut down |
| MuxTheorems.AcceptedIsCompletedOnce | streaming_transmit/conn.go:103-131 | an accepted request is completed at most once, never by itself, and returns what completed it, even in runs that panic and however many numbers were issued |
| MuxTheorems.AcceptedIsNotStranded | streaming_transmit/conn.go:362-383 | until it is completed an accepted request is in reqs under its own number or in readLoop's hands, and close has not finished |
| MuxTheorems.CloseCompletesEveryAccepted | streaming_transmit/conn.go:395-420 | when close has returned every accepted request was completed exactly once, by whichever of readLoop and close took its entry |
| MuxTheorems.FaultMeansRefusedTwice | streaming_transmit/conn.go:119-125 | the machine stops at a wg.Done too many if and only if a refused request is completed twice |
| MuxFaults.PanicsExactlyWhen | streaming_transmit/conn.go:119-128 | in every run the next step takes a counter below zero if and only if it is a refused request's own Done after another's, close's Done between that Done and the delete, or a delivery to a completed request whose object nobody else awaits |
| MuxFaults.MisdeliversExactlyWhen | streaming_transmit/conn.go:113-131 | in every run the next step fills another request's object and releases it with a stranger's bytes and no error if and only if it delivers to a refused request that has completed itself and whose object a waiting request has acquired since |
| MuxFaults.FaultIsEither | streaming_transmit/conn.go:377-383 | the machine stops at exactly these two kinds of step, which exclude each other |
| MuxFaults.RequestCanGetAnothersReply | streaming_transmit/pendingrequestpool.go:19-37 | a run of two requests in which the second is about to be given what was meant for the first |
| MuxTheorems.RefusedRequestCanFault | streaming_transmit/conn.go:119-125 | a concrete run of one refused request and close that panics |
| MuxLost.LostExactlyWhen | streaming_transmit/conn.go:113-128 | in every run, however many numbers were issued, an accepted, uncompleted request is one nobody has if and only if some step, before or after its acceptance, took its entry for a message numbered 0, or replaced or deleted it for another request with the same number |
| MuxLost.AcceptanceLosesExactlyWhen | streaming_transmit/conn.go:113-117 | its own acceptance leaves a request to nobody if and only if its entry has gone by then and readLoop does not have it in hand |
| MuxLost.LostForever | streaming_transmit/conn.go:362-417 | no continuation of a run completes such a request: neither readLoop nor close, so its caller never returns |
| MuxLost.CloseLeavesOnlyTheLost | streaming_transmit/conn.go:395-420 | however many numbers were issued, when close has returned each accepted request was completed exactly once by whoever took its entry, or is such a one |
| MuxLost.DeliveredUnlessZero | streaming_transmit/conn.go:362-383 | a listed request whose number a message carries is taken from reqs; it is delivered the message if and only if its number is not 0, and else the handler gets it and the request is lost |
| MuxZero.NumberZeroIsLost | streaming_transmit/conn.go:247-257 | a run of the server end in which 2^31 - 1 requests are made, written, answered and returned one after the other, the next is accepted under number 0, and four zero bytes from the peer lose it for ever |
| MuxEffects.RouteEffect | streaming_transmit/conn.go:362-375 | routing delivers the message to the request found under its number if there is one and the number is not 0, and else calls the handler with it; a found entry goes in either case, and nothing the peer sees changes |
| Link.EveryRequestGetsItsReply | streaming_transmit/conn.go:103-131 | in every interleaving of a client and a server, a Request that returns without error returns exactly the bytes the peer's handler replied to that same request's payload |
| Link.NothingIsMistaken | streaming_transmit/conn.go:359-383 | no request of the peer is taken for a reply, no reply for a request, and each message reaches the handler at most once |
| Link.FaultsComeFromClose | streaming_transmit/conn.go:119-125 | between two such ends a panic comes only from close finding a refused request |
| LinkOrder.PlainMessagesArriveInOrder | streaming_transmit/conn.go:362-375 | in every interleaving of two ends each handler gets exactly the frames numbered 0 that the other end accepted, in that order, up to what it has read |
| LinkOrder.PlainAreHandled | streaming_transmit/conn.go:331-387 | whatever the peer sends, a handler gets its messages numbered 0, all of them and in order, up to what readLoop has dealt with |
| Link.RunKeepsInv | streaming_transmit/client.go:14-15 | the two ends' invariants and what each knows of the other hold in every joint run |
| ConnCode.Conn.Next | streaming_transmit/conn.go:247-257 | the field seq after the call is the number handed out, as the machine's step gives it |
| ConnCode.Conn.CloseWriter | streaming_transmit/conn.go:191-196 | sets writerDone and is the machine's shut step |
| ConnCode.Conn.SendFrame | streaming_transmit/conn.go:172-189 | Send and SendNoWait: refused and unchanged exactly when the writer is shut; else a frame numbered 0 is appended, as the machine's accept step |
| ConnCode.Conn.SendNumbered | streaming_transmit/conn.go:149-189 | the frame of a request under its number: refused and unchanged exactly when the writer is shut, else appended, as the machine's step |
| ConnCode.Conn.Request | streaming_transmit/conn.go:103-126 | with nobody else moving, Request enters its object under the next number and has its frame accepted, or, exactly when the writer is shut, takes everything back without a panic |
| ConnCode.Conn.Awaited | streaming_transmit/conn.go:128-131 | after the wait Request returns what completed it and releases its object, as the machine says |
| ConnCode.Conn.TakeBatch | streaming_transmit/conn.go:263-282 | the reused buffer, grown if needed, begins with exactly the queue snapshot, the queue is left empty, and it sleeps or exits exactly when it should |
| ConnCode.Conn.Complete | streaming_transmit/conn.go:305-311 | one completion: a waiter is told the verdict and its counter goes down by one, other objects are recycled with their buffer, and no other object changes |
| ConnCode.Conn.FailPass | streaming_transmit/conn.go:287-298 | after a deadline error every write of the batch is told that error or recycled, and nothing is written |
| ConnCode.Conn.WritePass | streaming_transmit/conn.go:301-312 | writes until the first error, tells each write the first error up to its own, and hands conn.Write exactly the machine's frames |
| ConnCode.Conn.Iterate | streaming_transmit/conn.go:263-322 | one whole iteration of writeLoop: it sleeps, leaves, or makes just the machine's steps for its batch and leaves at the first error of deadline, pass or flush |
| ConnCode.Conn.Route | streaming_transmit/conn.go:362-375 | takes the entry and says whether a request gets the message, as the machine routes it |
| ConnCode.Conn.CloseWrites | streaming_transmit/conn.go:399-409 | every waiting object of the queue is told the error close was given, every other one is recycled, nothing is written, and the queue is left empty |
| ConnCode.Conn.CloseRequests | streaming_transmit/conn.go:411-417 | gives every listed request the error close was given and deletes entries until reqs is empty, or panics exactly when the machine faults |
| ConnCode.Conn.Close | streaming_transmit/conn.go:395-420 | both walks and the reset of seq, as the machine's steps: every queued write and, without a panic, every listed request is told the error of Handle, with queue and reqs left empty; it is cut short by a panic exactly when the machine faults |
| ConnCode.Conn.Deliver | streaming_transmit/conn.go:377-382 | readLoop panics exactly if the counter is at zero; else the object has the bytes and its counter one less, whosever it is by now |
| PoolCode.PendingWritePool.Acquire | streaming_transmit/pendingwritepool.go:22-35 | a fresh or pooled object with the caller's buffer and flag and no old error, counted as the one or the other |
| PoolCode.PendingWritePool.Release | streaming_transmit/pendingwritepool.go:37-41 | the object is back without an error and counted |
| PoolCode.PendingRequestPool.Acquire | streaming_transmit/pendingrequestpool.go:19-30 | a fresh or pooled object with the caller's buffer and no old error |
| PoolCode.PendingRequestPool.Release | streaming_transmit/pendingrequestpool.go:32-37 | the object is back with neither buffer nor error |
| PoolCode.PoolMetrics.SetMetrics | streaming_transmit/poolmetrics.go:36-40 | each live counter is added to its total and zeroed |
| Session.FramesAreReceived | streaming_transmit/session.go:50-97 | for any writes whose ciphertext fits, the peer's reads from the same nonce give the same plaintexts with the same boundaries and leave what follows |
| Session.FrameIsReceived | streaming_transmit/session.go:50-97 | one frame is received as its plaintext, with the rest of the stream intact |
| Session.NoncesDiffer | streaming_transmit/session.go:78-82 | two frames of one direction share a nonce if and only if they are a multiple of 2^64 frames apart |
| WireLayout.FrameLayout | streaming_transmit/session.go:76-97 | a frame is the length of the ciphertext in four bytes and what was sealed under the counter in 8 bytes and zeros |
| WireLayout.BlockIsRead | streaming_transmit/io.go:29-45 | a block behind its length is read whole, with the rest left, if and only if it is within the limit, and never from a stream that ends in it |
| SessionCode.SessionConn.Write | streaming_transmit/session.go:76-97 | one frame under the current nonce goes out, the nonce moves on, and the in-place buffer stays usable |
| SessionCode.SessionConn.Read | streaming_transmit/session.go:50-74 | succeeds exactly when the stream starts with a frame of the current nonce that fits, however the stream is split, and gives its plaintext cut to the buffer's length; the nonce moves on exactly if a block was read, opened or not |
| SessionCode.ReadSized | streaming_transmit/io.go:29-45 | reads the length and then the block into one buffer, exactly when it is all there and not too long |
| SessionCode.WriteSized | streaming_transmit/io.go:47-55 | writes the length and then the data though the length is put behind the data; what has gone out when a write fails |
| Packets.TableIsTaken | streaming_rpc/servicerequestpacket.go:24-34 | a header table encoded in any iteration order is read back as the same map, nil as empty, with what follows untouched |
| Packets.TableIsEncoding | streaming_rpc/servicerequestpacket.go:70-104 | bytes read as a header table are an encoding of the stored map in some order if and only if no name is listed twice |
| Packets.EntriesAreStored | streaming_rpc/servicerequestpacket.go:78-103 | storing a map's entries one by one in any order gives the map |
| ServicePackets.RequestRoundTrip | streaming_rpc/servicerequestpacket.go:15-107 | for every packet, header order and trailing bytes, decoding the encoding gives the packet back, nil headers as empty, if and only if it is within the limits of its length fields |
| ServicePackets.ResponseRoundTrip | streaming_rpc/serviceresponsepacket.go:15-86 | the same for service responses |
| ServicePackets.RequestIsEncoding | streaming_rpc/servicerequestpacket.go:39-107 | an accepted buffer starts with an encoding of the decoded packet if and only if its header names are distinct |
| ServicePackets.ResponseIsEncoding | streaming_rpc/serviceresponsepacket.go:36-86 | the same, if and only if also the flag byte is 0 or 1 |
| DataPackets.DataIsEncoding | streaming_rpc/datapacket.go:21-34 | an accepted buffer starts with the encoding of the decoded packet, so a short buffer is never accepted |
| DataPackets.DataRoundTrip | streaming_rpc/datapacket.go:14-34 | with any bytes after it, decoding the encoding gives the packet back if and only if its data fits 16 bits of length and the truncated length still covers it |
| DataPackets.EncodingIsAccepted | streaming_rpc/datapacket.go:14-34 | every encoding alone is accepted; its data comes back whole if and only if it is at most 65535 bytes |
| DataPackets.RefusedThoughComplete | streaming_rpc/datapacket.go:29-31 | complete buffers are refused if and only if 65536 or more bytes follow the header and the truncated length is too small |
| Handshakes.HandshakeRoundTrip | streaming_rpc/handshakepacket.go:28-100 | with and without an id, for any id codec that inverts prefixes and any trailing bytes, decoding gives the packet back if and only if its services are within limits |
| Handshakes.HandshakeIsEncoding | streaming_rpc/handshakepacket.go:46-100 | an accepted buffer starts with the encoding of the decoded packet if and only if its first byte is 0 or 1 |
| Handshakes.TooFewForServices | streaming_rpc/handshakepacket.go:73-75 | the early size test rejects only what the service loop would reject |
| WireLayout.IntegersAreBigEndian | streaming_transmit/io.go:49-51 | lengths, ids and the nonce counter are the big-endian digits of the number modulo 2^16, 2^32 and 2^64 |
| WireLayout.RequestLayout | streaming_rpc/servicerequestpacket.go:15-37 | the id, the number of services, each service and each header stand where the format says, one after the other |
| WireLayout.ResponseLayout | streaming_rpc/serviceresponsepacket.go:15-34 | the id, 1 for handled and else 0, and each header in its place |
| WireLayout.DataLayout | streaming_rpc/datapacket.go:14-19 | the id, the length cut to 16 bits, and the data, and nothing else |
| WireLayout.HandshakeLayout | streaming_rpc/handshakepacket.go:28-44 | 1 and the id or 0, the number of services, each service in its place, and with an id 64 bytes of signature at the end |
| PacketCode.AppendRequest | streaming_rpc/servicerequestpacket.go:15-37 | appends the encoding, in the order the map is iterated in |
| PacketCode.AppendResponse | streaming_rpc/serviceresponsepacket.go:15-34 | appends the encoding, in the order the map is iterated in |
| PacketCode.AppendData | streaming_rpc/datapacket.go:14-19 | appends the encoding |
| PacketCode.AppendHandshake | streaming_rpc/handshakepacket.go:28-44 | appends the encoding |
| PacketCode.UnmarshalRequest | streaming_rpc/servicerequestpacket.go:39-107 | the loops compute the decoding, and slice out of range only where it says the program panics |
| PacketCode.UnmarshalResponse | streaming_rpc/serviceresponsepacket.go:36-86 | the loops compute the decoding and never slice out of range |
| PacketCode.UnmarshalData | streaming_rpc/datapacket.go:21-34 | computes the decoding and never slices out of range |
| PacketCode.UnmarshalHandshake | streaming_rpc/handshakepacket.go:46-100 | with its early size test, computes the decoding that has none, and never slices out of range |
| Messages.ReceivedAsSent | streaming_rpc/streamnode.go:408-415 | a frame is read as the message it encodes if and only if the message is within its limits |
| Streams.PanicsExactlyWhen | streaming_rpc/streamnode.go:445-518 | the dispatcher panics if and only if the frame is a service request of exactly 4 bytes, or would be served and the peer has announced no id |
| Streams.IdMattersToServingOnly | streaming_rpc/streamnode.go:478-480 | but for that panic a frame has the same effect and outcome with an id as without |
| Streams.AnonymousRequestPanics | streaming_rpc/streamnode.go:479 | every encoding of a request for an offered service under a fresh id is served to a peer with an id and panics for one without |
| Streams.TenBytesPanic | streaming_rpc/streamnode.go:479 | a concrete frame that does |
| StreamOutcomes.RequestOutcome | streaming_rpc/streamnode.go:466-518 | a request is served by the handler of the first of its services that is offered, and is answered as not handled and without headers if and only if its id is fresh and none is offered |
| StreamOutcomes.RequestStream | streaming_rpc/provider.go:55-75 | an id in use is refused with nothing changed; else exactly one new stream is listed under it |
| StreamOutcomes.FirstOfferedIsFirst | streaming_rpc/streamnode.go:472-476 | the loop over the services stops at the first that is offered, and finds none if and only if none is |
| StreamOutcomes.ResponseOutcome | streaming_rpc/streamnode.go:519-538 | the header reaches the stream listed under its id, whose waiter is released at most once, and no other; an unknown id is an error |
| StreamOutcomes.DataOutcome | streaming_rpc/streamnode.go:540-587 | bytes reach the pipe if and only if there are 1 to 2048, the stream is listed and the pipe is open; else the pipe keeps what it has and the stream is closed, released and dropped, with an error unless the packet was empty |
| StreamOutcomes.FrameOutcome | streaming_rpc/streamnode.go:408-420 | what becomes of an empty frame, of each opcode, and of a frame whose packet cannot be decoded |
| StreamOutcomes.RequestFrameOutcome | streaming_rpc/streamnode.go:445-511 | a frame that encodes a request under a fresh id is served by the first offered service the request lists |
| StreamOutcomes.CloseAllOutcome | streaming_rpc/provider.go:89-103 | Provider.Close closes and releases the listed streams because of the disconnect, keeping an earlier reason, and touches no other |
| Traces.ChunksAreTheData | streaming_rpc/context.go:68-84 | the chunks join to the data and are of 1 to 2048 bytes, all but the last of exactly 2048 |
| Traces.ResponseGrammar | streaming_rpc/context.go:48-87 | every handler run sends one header alone, or one header, then chunks of 1 to 2048 bytes joining to all it wrote, then one empty packet; the header carries what was set before the first byte |
| Traces.HandlerTraceIsAccepted | streaming_rpc/streamnode.go:478-508 | a handler's run is a sequence a receiver accepts, its payload is all that was written, and it ends unless that is nothing |
| Traces.PushTraceIsAccepted | streaming_rpc/provider.go:125-147 | a Push sends all bytes it reads up to the end or a failed read; a receiver accepts every packet, and sees an end exactly if no read failed, if and only if the body never reads as (0, nil) |
| ContextCode.Context.WriteHeader | streaming_rpc/context.go:43-45 | sets one response header and nothing else |
| ContextCode.Context.Write | streaming_rpc/context.go:48-87 | nothing for no bytes; else the header if still due and then the chunks, all of them or up to the first refused send, and the count returned |
| HandlerCode.RunHandler | streaming_rpc/streamnode.go:483 | any run over a Context, whatever its calls return, leaves the Context and the wire as the run's trace says |
| HandlerCode.ContextPool.Acquire | streaming_rpc/contextpool.go:17-31 | a pooled context starts again with no header sent and no response headers |
| HandlerCode.ContextPool.Release | streaming_rpc/contextpool.go:33-39 | empties the response headers and clears the flag before the context is pooled |
| HandlerCode.Serve | streaming_rpc/streamnode.go:478-508 | acquire, run, finish and release: the wire carries exactly the handler's trace if no send is refused, and a prefix of it if refusals are permanent; the result says whether the last send was refused |
| HandlerCode.SendRequest | streaming_rpc/provider.go:107-147 | the request and one packet for each read are sent, all of them or up to the first refused send; which result is returned, and that NotAvailable means nothing was sent |
| Demux.EveryInterleavingIsDemultiplexed | streaming_rpc/streamnode.go:408-587 | in every interleaving of senders' traces, while this end opens streams too, no message is refused, each opened id stands for one stream, its pipe got exactly its own messages' bytes in order, it has its own header, and it is closed and out of the table exactly after its own terminator |
| EndToEnd.FramesAreTheirMessages | streaming_rpc/streamnode.go:408-587 | frames with their headers in any order do what their messages say |
| EndToEnd.SenderIsAccepted | streaming_rpc/streamnode.go:478-518 | what a handler, a Push, even one whose body breaks off, or a refusal sends is accepted, carries what was meant, and ends exactly if the sender says so |
| EndToEnd.OrderedDeliveryInterleaves | streaming_transmit/conn.go:362-375 | a connection that delivers in the order of acceptance, and accepts each stream's messages in the order they are sent, gives an interleaving of the senders |
| EndToEnd.EachPipeGetsItsSendersBytes | streaming_rpc/streamnode.go:540-587 | for any number of streams whose frames interleave in any way, every pipe holds a prefix of its own sender's bytes, all of them once it is closed or all frames arrived, and it is closed only by its own sender's terminator, which a Push whose body broke off never sends |
| Stack.EveryPipeOverALink | streaming_rpc/streamnode.go:540-587 | in every run of two joined connections whose plain frames are stream messages, the dispatcher fed by one end's read loop refuses none, and every pipe gets its own sender's bytes, as above |
| ProviderRuns.StepKeepsStreams | streaming_rpc/provider.go:27-103 | a step leaves every stream in the table or released and closed if and only if the id it takes or drops is not another live stream's |
| ProviderRuns.CloseAllKeeps | streaming_rpc/provider.go:89-103 | after Provider.Close every stream made before it is released and closed |
| ProviderTheorems.RunKeepsInv | streaming_rpc/provider.go:107-160 | the invariant of table, wait groups and Pushes holds in every run in which the peer keeps to its parity |
| ProviderTheorems.StreamsOfPushesAreKept | streaming_rpc/provider.go:77-103 | in every such run each stream a Push opened is in the table or released and closed, and each wait group is released at most once, across response, stream close and provider close |
| ProviderTheorems.NoPushIsStranded | streaming_rpc/provider.go:107-160 | once the connection is gone every waiting Push can wake, a Push whose stream was made later has its header refused because the writer was shut first, and each Push that returned had its stream released |
| ProviderTheorems.SharedIdStrandsAPush | streaming_rpc/provider.go:33-44 | a concrete run in which the peer uses an id of this end and a Push is left waiting after the disconnect |
| ProviderTheorems.StrandedForever | streaming_rpc/provider.go:149 | no step ever releases such a Push |
| ProviderCode.Provider.NextStream | streaming_rpc/provider.go:27-45 | makes a stream under the counter's id and counts on, in the table and nowhere else |
| ProviderCode.Provider.StartPush | streaming_rpc/provider.go:107-147 | a Push sends its request and body under the id of a new stream of its own, all of it or up to the first refused send; the stream is listed if and only if all was sent, else it is closed, released and dropped, because of the body if a read failed and of the send if one was refused; no other stream changes |
| ProviderTheorems.PushSucceedsExactlyWhen | streaming_rpc/provider.go:149-159 | in every run a Push that wakes succeeds if and only if the peer answered its stream while it was listed and handled the request by the last such answer |
| ProviderTheorems.FailedPushNeverWaits | streaming_rpc/provider.go:107-147 | in every run a Push whose header or body was refused, or whose body could not be read, never waits or succeeds from then on, and when it returns its stream has been released and closed |
| ProviderCode.Provider.RegisterStream | streaming_rpc/provider.go:55-75 | the stream already under the id, or a new one |
| ProviderCode.Provider.RunService | streaming_rpc/streamnode.go:478-508 | the whole goroutine of a served request: its body is always closed; if its last send was refused the stream is closed for that, unless it was before, released once and dropped, else the table, the waiter and its release stay as they were; no other stream changes |
| ProviderCode.Provider.CloseStreamWithError | streaming_rpc/provider.go:77-87 | closes the pipe, releases the waiter once and drops the id, for that stream object only |
| ProviderCode.Provider.Close | streaming_rpc/provider.go:89-103 | the loop over the table closes and releases exactly the listed streams, whatever its order, and empties the table |
| ProviderCode.Provider.HandleServiceRequest | streaming_rpc/streamnode.go:445-518 | a used id is refused; else a new stream and the first offered service, or an unhandled response: the outcomes of `StreamOutcomes.RequestOutcome` |
| ProviderCode.Provider.HandleServiceResponse | streaming_rpc/streamnode.go:519-538 | the header is stored and the waiter released, or an error for an unknown id |
| ProviderCode.Provider.HandleData | streaming_rpc/streamnode.go:540-587 | the outcomes of `StreamOutcomes.DataOutcome` on the stream objects, and the one stream each changes |
| ProviderCode.Provider.HandleMessage | streaming_rpc/streamnode.go:408-602 | the dispatcher's effect on the stream objects is that of its value model, for every frame |
| Registry.IndexIsDetermined | streaming_rpc/providers.go:54-107 | the table of providers leaves the service index no choice |
| Registry.OffersAreHistory | streaming_rpc/providers.go:54-107 | after any history a connection offers a service if and only if it was registered for it and not deregistered since |
| Registry.NamedExactlyWhen | streaming_rpc/providers.go:73-74 | after any history a connection is a provider if and only if the last operation on it registered it, and named if and only if that one gave an id |
| ProvidersCode.Providers.IsNamed | streaming_rpc/providers.go:24-28 | whether a connection is a provider, and whether the id its handlers are given is there |
| ProvidersCode.Providers.RegisterProvider | streaming_rpc/providers.go:54-84 | the services are added to what the connection offers, its id replaces the last, nothing else changes, and the index agrees again |
| ProvidersCode.Providers.DeregisterProvider | streaming_rpc/providers.go:86-107 | the connection is gone from the table and from every list, empty lists are pruned, and the provider is closed |
| ProvidersCode.Providers.GetProviders | streaming_rpc/providers.go:30-52 | never a nil provider, and each provider exactly once for every requested service it offers |
| ClientCode.Client.GetClientConn | streaming_transmit/client.go:192-219 | the first idle connection; else, if all are busy, a new one if and only if there are fewer than the maximum set, or than 4 if none is; else the first of least load; the pool never exceeds that number |
| ClientCode.Client.NewClientConn | streaming_transmit/client.go:131-144 | one new connection at the end of the pool |
| ClientCode.Client.DeleteClientConn | streaming_transmit/client.go:116-129 | filtering one array in place leaves the list without that connection |
| ClientCode.WithoutIsRemoval | streaming_transmit/client.go:116-129 | from distinct connections exactly that one goes and the order stays |
| MetricsTheorems.CountsAreConserved | streaming_transmit/poolmetrics.go:36-40 | with any interleaving, live plus in transit plus accumulated is the number of events modulo 2^32, and exactly it if and only if no interval between swaps saw 2^32 events |
| MetricsTheorems.AcquiresLessPutsAreOut | streaming_transmit/poolmetrics.go:11-13 | with no acquire or release under way, acquires less puts are the objects still out |

## Left out

- Sockets, dialling, timers, reconnect backoff, address resolution and `Bootstrap` (`streaming_rpc/streamnode.go:86-162`): input and output.
- The cipher itself, key exchange and the handshake of keys: any pair that obeys `Session.Lawful` (opening inverts sealing under the same nonce) stands for it, and nothing is claimed across the two directions.
- Kademlia ids, signatures, routing tables and find-node packets: an id codec is a parameter of `Handshakes`, and the dispatcher's find-node and handshake branches are the outcome `Elsewhere`.
- `HandshakePacket.Validate`: UTF-8 and signature checks of another library.
- Liveness: no claim that every stream closes. An unhandled request leaves its stream registered, and a handler that writes nothing sends no terminator (`SaysWhenDone` in `EndToEnd` is exact about which senders do).
- `io.Pipe` internals: a pipe is the bytes handed to it and why it was closed, so a write that a reader's close interrupts half way counts as refused whole.
- A reader that closes early is a step of `ProviderRuns` but not an event of `Demux`: there it makes the dispatcher refuse the next chunk and end the connection.
- Demux.EveryInterleavingIsDemultiplexed: assumes a peer that opens ids of its own parity only and answers only what was asked, and a peer that has announced an id; otherwise the dispatcher refuses the message or panics, as `Streams.HandleRequest` says.
- Link.EveryRequestGetsItsReply: assumes fewer than 2^31 - 1 requests a side, as `MuxTheorems.AcceptedIsNotStranded` and `MuxTheorems.CloseCompletesEveryAccepted` do of one end (`MuxLost` says what happens beyond), and a handler that replies at most once and before it returns, which is how `Mux` runs it.
- ConnCode.Conn.Iterate: like `Request` and `Close` of the same class, says what the method does when nobody else moves between its critical sections; the machine of `Mux`, whose steps its pieces are, has all interleavings.
- NumOfPendingWrites is read once for each connection while it may be changing: `GetClientConn` is given the values it reads.
- The pools are modelled for one connection. The program shares them between all connections of a process, so the request that a misdelivery reaches may be another connection's.
- Pooled objects in the connection machines are numbered cells of a heap, because their use by several threads is the point; `PoolCode` has them as objects, one caller at a time.
- A refused `SendNoWait` or `Request` leaves its byte buffer to the garbage collector instead of returning it to the pool, and a read buffer that grows is not tracked.
- Sequence offsets and deltas other than the client's and server's defaults, and the getters of defaults.
- `Flush` errors come after completions: a nil result of `Send` means handed to `conn.Write`, as `WrittenIsPrefixOfAccepted` states it, not flushed.
- The retry over providers in `StreamNode.Push` and its shuffle, `ProvidersFor`, logging and the metrics string: nothing hard to state.
- Errors are modelled by their kind, not by their text, and a decoder's partly filled packet on an error is not modelled.
