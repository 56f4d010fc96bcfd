# Verified model of an SFTP client and server

The repository is a client and server for version 3 of the SSH File Transfer Protocol
(draft-ietf-secsh-filexfer-02). This project models its five hardest parts in Dafny and proves
what they promise.

- **Concurrent file transfer in the client.** `ReadAt`, `WriteAt`, `ReadFrom` and `WriteTo` cut a
  transfer into chunks, request them in order, let replies come in any order, and reduce them to
  one result. `pipeline.dfy` is the slice/map/reduce machine three of them share: every goroutine
  step, reply, cancel and choice of a `select` is an event, and a run is any sequence of enabled
  events. `readat.dfy`, `writeat.dfy`, `readfrom.dfy` and `writeto.dfy` add the buffer, the server's
  file and the channel chain, `writetopool.dfy` the reuse of buffers beside it; they
  model the sequential twins as methods with the source's loops, and prove that the concurrent
  forms refine them.
- **Response order, close barrier and page pool of the server.** `allocator.dfy` and
  `packetmanager.dfy` are the two classes; `server.dfy` is a whole session: reader, dispatcher,
  eight read/write workers, command worker and controller, joined by bounded channels.
- **Request matching in the client.** `clientconn.dfy` is the connection class, `pool.dfy` the two
  pools, `matching.dfy` the races of reply, send failure, late dispatch and shutdown.
- **The in-memory file system.** `paths.dfy` has Go's path functions over components, `memfile.dfy`
  the file, `memtree.dfy` the flat map of paths that must stay a tree, `memmove.dfy` the walk that
  moves a subtree and the names it leaves, `memlist.dfy` the order of a listing, and `memfs.dfy` the
  operations: symlinks, hard links, opening, and renaming while the map is being walked.
- **The wire codec.** `wire.dfy`, `filestat.dfy` (the error-returning attribute codec), `buffer.dfy`
  and `attrs.dfy` (the one with a sticky error), `packets.dfy`, `framing.dfy`, and `listing.dfy`,
  which composes codec, batching and the client's READDIR loop.

## How to read it

A protocol is a `State`, an `Event`, a guard `Enabled`, a step `Apply` and a predicate `Run` or
`Reachable`; theorems speak of every run. Fields that only record history (who took a chunk, what
was handled, what was sent for a request) say so in their comments. A method that changes state is
proved against a specification function, and the lemmas speak of that function.

Assumptions, beyond what the source demands of its callers:

- Server files are fixed while a transfer reads them; packet size and server clamp are at least 1.
- A DATA reply is no longer than the packet size asked for: the concurrent `WriteTo` cuts its pooled
  buffer to the length received, which panics on a longer one.
- Transfers end below 2^63; request ids and order ids do not wrap round, so ids in use are distinct.
- Every handler calls `readyPacket`, and no two packets of one session get the same order id.
- A critical section under a mutex is one step.
- A path is given as splitting its text at the slashes yields it: `Path(true, [])` is "/" and
  `Path(false, [])` is "", no other path stands for these, and a relative path has no empty first part.
- Walking a Go map visits each key once in any order; keys inserted on the way are visited or not,
  a bounded number of times.

## Where the code does less than one might expect

- The concurrent reads need `maxPacket` to be at most the server's clamp, or the file to end within
  one clamp. Otherwise `ReadAt` takes a mid-file short reply for the end of the file
  (`ReadAt.ConcurrentReadRefinesSequential`, at an input `ReadAt.ShortReadTakenForEnd`), and `WriteTo`
  leaves a gap after it and goes on, ending without an error (`WriteTo.WriterGetsTheFile`,
  `WriteTo.BytesLeftOut`). The sequential reads do not need it.
- After a concurrent `WriteTo` the file offset is the start of the chunk that reported the end, which
  can lie past the end of the file (`WriteTo.OffsetAfterSuccess`, `WriteTo.OffsetPastEnd`).
- A rename of "/" or of a directory below itself destroys the tree (`MemFileSystem.Root.MoveEntry`,
  at inputs of both kinds `RootMoved` and `LostTree`).
- A file created through a dangling symlink is found through it afterwards if and only if the end of
  the chain of link texts is the canonical name the file was created under, that is, a clean absolute
  path in a directory that is no symlink (`MemFileSystem.Root.OpenFile`, `CanonicalItself`;
  `StillDangling` is an input where it is not). Creation takes link texts as they stand, so a relative
  one, which following a link would resolve from the link's directory, is always refused
  (`RelativeLinkRefused`).
- The one-part form of a DATA packet differs from the two-part form when its length is short of its
  data (`Packets.OnePieceIsTwoPieces`), though both decode alike.
- `ReadFrom` without concurrency returns nil although a write was refused, if and only if the refused
  piece is the last one and the reader gave it together with `io.EOF`, or the reader gave no error
  beside it and the server's refusal is itself an end-of-file status (`ReadFrom.LostInSilence`, a
  condition on the reader's calls, the number of writes accepted and the refusal; at both inputs
  `ReadFrom.LostWrite`). The concurrent form reports every refusal.

## Model

| member | source | states |
|---|---|---|
| `TransferPipeline.StepKeepsInv` | client.go:1134-1276 | each step of slicer, workers, reducer, server or cancel, in any order, keeps: chunks are handed out in order and once, a worker holds the one chunk it took, and the verdict is the least of the faults received so far |
| `TransferPipeline.RunKeepsInv` | client.go:1134-1276 | the invariant holds after every run, whatever the schedule |
| `TransferPipeline.ReturnedDrained` | client.go:1255-1276 | when the reducer returns every dispatched and handed-out request has been received and every fault reported, so none is missed by returning early |
| `TransferPipeline.ReturnedSettles` | client.go:1255-1276 | at the return the verdict is no error and everything done, or the least fault with all before it done |
| `TransferPipeline.SettledStops` | client.go:1255-1276 | at the return there is an m with the first m chunks complete, and the verdict is chunk m's own error at the bytes kept of it, or the slicer's once all chunks are complete, or none |
| `TransferPipeline.EarliestFault` | client.go:1156-1276 | for arbitrary replies and any moment of cancelling, the offset reported is the minimum failing offset and every chunk wholly below it was dispatched, received and completed |
| `TransferPipeline.CompletedBefore` | client.go:1255-1276 | no chunk before the one with the least fault is missing or failed, although later chunks may never have been dispatched |
| `TransferPipeline.NeverStuck` | client.go:1134-1276 | before the reducer returns some goroutine can move, or an outstanding request is unanswered: unbuffered channels and cancel never deadlock |
| `TransferPipeline.StepDecreases` | client.go:1134-1276 | every step brings the return nearer by a fixed measure |
| `TransferPipeline.EveryRunEnds` | client.go:1134-1276 | no run is longer than 9 steps a chunk, 2 a worker and 8 more before the reducer returns |
| `TransferPipeline.ChunksTile` | client.go:1156-1192 | the slicing loop's chunks add up to the buffer, and a buffer larger than a packet starts with a full packet |
| `TransferPipeline.ChunksDisjoint` | client.go:1606-1643 | two chunks of one transfer never overlap |
| `TransferPipeline.Locate` | client.go:1606-1643 | every position of the buffer lies in a chunk |
| `ReadAt.Remote.Get` | request.go:395-414 | the server's answer to a READ: the clamped range of the file, an end-of-file status only when nothing was read |
| `ReadAt.ServeFacts` | packet.go:826-840 | what a non-empty read gets: file bytes up to length, clamp and end, end of file exactly at or past the end |
| `ReadAt.ReadChunkAt` | client.go:1053-1085 | re-asking after short replies, it reads exactly what the file holds of the range, reports end of file exactly when that is short, and leaves the rest of the buffer alone; it terminates |
| `ReadAt.ReadAtSequential` | client.go:1087-1105 | the io.ReaderAt promise: count, error and the whole buffer are those of an ideal read of the file, for every packet size and server clamp |
| `ReadAt.StepKeepsFilled` | client.go:1195-1253 | copying chunks in the order replies arrive, each chunk's part of the buffer holds its reply's data and its old bytes beyond it |
| `ReadAt.ConcurrentReadReportsEarliest` | client.go:1134-1276 | for arbitrary replies, the count returned is that of the m complete chunks before the first failing one and of what was kept of it, the error is that chunk's own, and every chunk wholly below the count was received and copied |
| `ReadAt.StatusEndsRead` | client.go:1195-1276 | a chunk answered with any status, all before it being complete, ends the read at its start with that status as the error |
| `ReadAt.HarmlessOutcome` | client.go:1195-1253 | without a harmful clamp each worker gets all the file holds of its chunk and end of file exactly when that is short |
| `ReadAt.HarmfulResult` | packet.go:826-830 | with a packet size above the server's clamp, and file left beyond the clamp, a mid-file short reply is taken for the end: the count returned is the clamp, less than the file holds |
| `ReadAt.ConcurrentReadRefinesSequential` | client.go:1119-1277 | for every interleaving against a fixed file, the concurrent read gives the count, error and buffer of the sequential one if and only if maxPacket is at most the server's clamp or the file ends within one clamp of the offset |
| `ReadAt.ConcurrentReadCompletes` | client.go:1119-1277 | every concurrent read of a file has a completed run in which all replies are the file's own, so with the bound on every run no other outcome is possible |
| `ReadAt.FileRunGoesOn` | client.go:1134-1276 | from every state of a read that has not returned, a run with the file's own replies reaches the return |
| `ReadAt.ShortReadTakenForEnd` | packet.go:826-830 | a file of three bytes, packets of two and a clamp of one: a completed concurrent read returns one byte and end of file, the sequential one all three |
| `WriteAt.Target.WriteChunkAt` | client.go:1555-1579 | a write request is applied whole, or refused with a count of zero, the server's own error, whatever it is, and any part of it from the front in the file |
| `WriteAt.SendPiece` | client.go:1737-1748 | one turn of the loop: what is in the file is a longer piece of the buffer from its front |
| `WriteAt.WriteChunks` | client.go:1732-1751 | the loop over the chunks of a buffer larger than a packet: what was sent, counted and landed, and the server's own error when it refuses |
| `WriteAt.WriteAtSequential` | client.go:1720-1751 | for every server that refuses after any number of writes: without an error the file is what one write of the whole buffer leaves; with one the count is that of the chunks accepted, everything below it is written, and the file holds a piece of the buffer from its front; it errs exactly when there are more chunks than writes accepted |
| `WriteAt.ConcurrentWriteSettles` | client.go:1583-1702 | for every order of applying the chunks, wholly or partly when they fail: below the reported offset every byte is written, and outside the buffer's range nothing changes |
| `WriteAt.AllWritten` | client.go:1583-1702 | a file with every byte of the buffer in place and none changed outside is the file the sequential loop leaves |
| `WriteAt.ConcurrentWriteRefinesSequential` | client.go:1583-1702 | without a failure every order of applying the chunks leaves the sequential writer's file and the full count; with one the count is that of the m complete chunks before the first failing one, the error is that chunk's own, and every byte below the count is written |
| `WriteAt.WriteGoesOn` | client.go:1583-1702 | from every state without a failure so far, a run in which each chunk lands whole before it is answered reaches the return without an error |
| `WriteAt.ConcurrentWriteCompletes` | client.go:1583-1702 | every concurrent write has a run that succeeds and leaves the file one write of the buffer leaves |
| `WriteAt.RefusedAtOnce` | client.go:1583-1702 | refused at the first chunk after any part of it has landed, a write counts nothing and returns that refusal |
| `WriteAt.FaultBelowEnd` | client.go:1645-1702 | a reported fault lies inside the buffer, so a failed write never returns the full count |
| `ReadFrom.LensSum` | client.go:1800-1841 | the chunks sent, one for each call of the reader that gave data, add up to the stream |
| `ReadFrom.File.WriteGift` | client.go:1992-1999 | after each call the file holds a piece of the stream from its front, the offset has passed only what is in it, and a refusal is the server's own error, end of file included |
| `ReadFrom.File.ReadFromSequential` | client.go:1982-2012 | for every reader and every server that refuses after any number of writes with any error: the file holds a piece of the stream from its front and the offset has passed exactly the pieces accepted; the count returned is of those and one more; the error is the reader's if all were accepted or the refused piece is the last and came with that error, else the refusal, an end of file from either counting as none: all told by the calls, the number accepted and the refusal |
| `ReadFrom.LossReported` | client.go:1992-2008 | the offset falls short of what was read if and only if there are more pieces than writes accepted, and nil is then returned if and only if the refused piece is the last one and came with end of file, or the refusal is an end of file and no reader error came with that piece |
| `ReadFrom.CopyLengths` | client.go:1982-2012 | call by call, as many pieces go through as are accepted, and one more is read |
| `ReadFrom.LostWrite` | client.go:1992-2008 | two concrete losses: the one byte of a stream comes with end of file, or the server refuses it with an end-of-file status; nil is returned and the offset stays |
| `ReadFrom.ConcurrentUploadSettles` | client.go:1769-1913 | for every reader, chunk sizes and interleaving: the offset ends past exactly the m pieces before the first failing one, or past all, no further than was read, and everything up to it is written; the error is that piece's own, or the reader's other than end of file once all pieces went through, and without one the whole stream is in the file |
| `ReadFrom.ConcurrentUploadCompletes` | client.go:1769-1913 | for every reader that ends without an error there is a run that succeeds, with the whole stream in the file and the offset past it |
| `ReadFrom.FaultWithinCut` | client.go:1800-1912 | the failing offset never lies beyond what the reader had given |
| `WriteTo.Sink.Write` | client.go:1280-1309 | any writer: it takes a front of the bytes, and reports some error, end of file included, at least whenever that is not all |
| `WriteTo.File.WriteToSequential` | client.go:1280-1309 | for every writer: it gets the rest of the file as far as it takes it, its error is returned as it is, and on success the offset has moved by exactly what was written |
| `WriteTo.NeverStuck` | client.go:1388-1510 | in every reachable state before the reducer returns a step is enabled, given replies: the lowest undelivered chunk is with a worker or a worker is free to take it |
| `WriteTo.EveryRunStops` | client.go:1369-1511 | against a fixed file no run is longer than 5 steps a packet, 4 a worker and 4 more before the reducer stops |
| `WriteTo.SuccessfulRun` | client.go:1369-1511 | for every file, packet size, clamp and number of workers there is a run that ends without an error |
| `WriteTo.WriterFails` | client.go:1483-1510 | a writer can fail at any byte of the first chunk with any error; that error is returned and what the writer took is all that was written |
| `WriteTo.WriterGetsPrefix` | client.go:1369-1511 | at every moment of every run the writer has been given a prefix of the rest of the file: in order, no gap, no repeat, whatever order replies come in |
| `WriteTo.ReturnedError` | client.go:1483-1510 | for arbitrary replies and any writer: if the last delivery met an error of the writer that is returned, otherwise the error of the chunk delivered last, end of file as none; the writer got the chunks before it and what it took of it, and the offset is past it |
| `WriteTo.WriterGetsTheFile` | client.go:1369-1511 | a run that ends without an error gave the writer exactly the rest of the file, as the sequential form does, if and only if the server's clamp is harmless |
| `WriteTo.LastChunk` | client.go:1481-1511 | the chunk that reports the end is the first one at or past the end of the file, and the offset is set to its start |
| `WriteTo.OffsetAfterSuccess` | client.go:1481-1511 | after success the offset equals start plus bytes written if and only if the rest of the file is a whole number of packets; otherwise it lies past the end of the file by less than a packet |
| `WriteTo.OffsetPastEnd` | client.go:1481-1511 | three bytes in packets of two: a successful run writes all of them and leaves the offset at four |
| `WriteTo.HarmfulGathered` | packet.go:826-830 | with a harmful clamp the bytes gathered are always short of the file |
| `WriteToBuffers.StepKeepsBuffers` | client.go:1354-1511 | every step keeps that each buffer is in the pool or with one chunk received and not yet written, whose reply's data it holds |
| `WriteToBuffers.NoBufferShared` | client.go:1436-1509 | in every reachable state no buffer in the pool is held by a worker or for the reducer, and no two chunks share one |
| `WriteToBuffers.BufferHasReply` | client.go:1436-1509 | however often buffers are used again, the one the reducer writes from holds the data of that chunk's own reply |
| `WriteTo.BytesLeftOut` | packet.go:826-830 | the same file behind a clamp of one byte: a run ends without an error and bytes are missing |
| `MemFiles.WriteBytesAt` | request-example.go:604-622 | where each byte of a written file comes from: the data, the old content, or zero in a gap |
| `MemFiles.WriteBytesSplit` | request-example.go:604-622 | writing a buffer in two adjacent pieces is writing it at once |
| `MemFiles.MemFile.ReadAt` | request-example.go:580-602 | fills the front of the buffer from the content, tells the end of the file exactly when short, and leaves the rest of the buffer |
| `MemFiles.MemFile.WriteAt` | request-example.go:604-622 | the content after a write, grown with zeros where needed; refused once a transfer error is set |
| `MemFiles.MemFile.Truncate` | request-example.go:624-640 | the content cut or extended with zeros to the size |
| `Paths.CleanIsClean` | request-example.go:487-500 | cleaning an absolute path leaves names only, and cleaning again changes nothing |
| `Paths.ResolveOneMore` | request-example.go:487-500 | to a clean absolute path a name adds a level, an empty part and '.' add none, and '..' takes one away or stays at the top |
| `Allocators.UsedCountRemove` | allocator.go:72-81 | the count of used pages does not depend on the order in which the map is walked |
| `Allocators.GetPageOk` | allocator.go:25-49 | a page handed out was under no order id and not available, is then under exactly the one asked for, and used plus available still equals pages created |
| `Allocators.ReleasePagesOk` | allocator.go:52-60 | release moves exactly the pages of one order id back to the available ones and keeps the count |
| `Allocators.Allocator.Get` | allocator.go:25-49 | the page returned belongs to the order id asked for and to no other |
| `Allocators.Allocator.Release` | allocator.go:52-60 | the pool after release, pages of other order ids untouched |
| `Allocators.Allocator.Free` | allocator.go:64-70 | every page forgotten |
| `Allocators.Allocator.CountUsedPages` | allocator.go:72-81 | the used pages are those created less those available, whatever order the map is walked in |
| `PacketManagers.SortByIdSorted` | packet-manager.go:86-90 | sorting orders the queue by order id |
| `PacketManagers.SortByIdPermutes` | packet-manager.go:86-90 | sorting loses and adds no packet |
| `PacketManagers.SortAppended` | packet-manager.go:153-165 | appending to a sorted queue and sorting puts the packet in its place and moves no other |
| `PacketManagers.FlushOk` | packet-manager.go:172-201 | sending eagerly appends to what was sent the next order ids only and leaves no head that could be sent |
| `PacketManagers.OnRequestOk` | packet-manager.go:156-160 | taking the next request in turn keeps the queues sorted, disjoint from what was sent, and eager |
| `PacketManagers.OnResponseOk` | packet-manager.go:161-165 | taking a response in any order, even before its request, keeps the same |
| `PacketManagers.HeadIsDue` | packet-manager.go:172-201 | a response to the next request due stands at the head of its queue |
| `PacketManagers.NothingStranded` | packet-manager.go:172-201 | once every received request has its response with the controller, both queues are empty and all was sent |
| `PacketManagers.PacketManager.MaybeSendPackets` | packet-manager.go:172-201 | the loop that pops both heads sends exactly the due responses, in order, and releases exactly their pages |
| `PacketManagers.PacketManager.HandleRequest` | packet-manager.go:153-168 | the controller's whole state after a request |
| `PacketManagers.PacketManager.HandleResponse` | packet-manager.go:153-168 | the controller's whole state after a response |
| `ServerPipeline.StepKeepsInv` | packet-manager.go:94-168 | every step of reader, dispatcher, workers and controller keeps the session invariant |
| `ServerPipeline.ResponsesInOrder` | packet-manager.go:127-201 | in every reachable state the responses sent are exactly those to packets 1 to k in that order, even when a response overtakes its request on the channels |
| `ServerPipeline.NoneStranded` | packet-manager.go:153-201 | with both channels empty and every registered request answered, nothing waits in the queues and everything was sent |
| `ServerPipeline.CloseWaitsForEarlier` | packet-manager.go:115-147 | while a Close is handled, every packet that arrived before it has finished its handler |
| `ServerPipeline.CommandsInOrder` | packet-manager.go:115-147 | packets that are neither reads nor writes are handled by one worker in arrival order, each after all such before it are handled |
| `ServerPipeline.OneCommandAtATime` | packet-manager.go:115-147 | no two workers ever handle such packets at once |
| `ServerPipeline.WorkerByKind` | packet-manager.go:94-147 | every handler runs in one of nine workers, in one of the first eight if and only if its packet is a read or a write, and no other worker has that packet |
| `ServerPipeline.ReadsAndWritesStarted` | packet-manager.go:115-147 | whatever was handled was started by one of the first eight workers if and only if it is a read or a write |
| `ServerPipeline.PagesExclusive` | request-server.go:146-175 | a page handed out belongs to one order id whose response is not sent yet and is not available; used plus available equals created |
| `ServerPipeline.PageKeptUntilSent` | packet-manager.go:183-189 | from one step to the next a page stays with its packet until exactly the step that sends the response |
| `ServerPipeline.PageRequestedBeforeSent` | packet.go:826-840 | no page is asked for a packet already answered, and the page handed out was free |
| `ServerPipeline.NeverStalls` | packet-manager.go:94-168 | while a numbered packet is unanswered some goroutine can move without the client: full channels and the barrier never deadlock |
| `ServerPipeline.StepLowersRank` | packet-manager.go:94-201 | nothing but a packet from the client raises a fixed measure of what is under way: every other step, page requests included, leaves it or lowers it, and each that moves a packet on lowers it |
| `ServerPipeline.AnsweredWithoutClient` | packet-manager.go:94-201 | in every run without a packet from the client, from every reachable state and with pages requested at any point, packets are moved on at most 192 times; when none can be moved on any more every packet the reader numbered has been answered, in order |
| `ServerPipeline.SessionGoesOn` | packet-manager.go:94-201 | from every state a run reaches the answer to the whole stream of the client |
| `ServerPipeline.SessionCompletes` | packet-manager.go:94-201 | every stream of packets has a run that answers all of it, in order |
| `ClientConns.ClientConn.PutChannel` | conn.go:94-108 | registers the channel, or once closed delivers the lost-connection error on it instead |
| `ClientConns.ClientConn.BroadcastErr` | conn.go:165-181 | walked in any order, every channel in flight gets one error and is replaced by a dummy, no other channel changes, and no send needs room it has not |
| `ClientConns.BroadcastBuf` | conn.go:165-181 | the broadcast adds one error to each channel in flight and nothing to any other |
| `RequestMatching.StepKeepsInv` | conn.go:69-181 | every step of caller, sender, receive loop and shutdown, in any order, keeps that each unanswered request's channel is held by exactly one party and that waiting requests and the pool share no channel |
| `RequestMatching.AtMostOneResult` | conn.go:69-118 | in every reachable state a request was sent at most one result, its channel holds that and nothing else, and a reply carries the request's own id |
| `RequestMatching.FailureIsOwn` | conn.go:69-118 | in every run a failure a request gets is the error its own send met, unless the connection was lost, and a reply was received under its id |
| `RequestMatching.ExactlyOneOnceClosed` | conn.go:149-181 | once the connection is closed a registered request has exactly one result if and only if its own sender is not between taking the channel back and sending the error on it |
| `RequestMatching.ClosedIsOneStepAway` | conn.go:94-108 | a request still without a result at the close gets it from its sender's own next step |
| `RequestMatching.ReplyArrives` | conn.go:69-147 | there is a run in which a request gets its own reply |
| `RequestMatching.FailureArrives` | conn.go:69-118 | for any error there is a run in which a failed send gives its caller that error |
| `RequestMatching.LossArrives` | conn.go:149-181 | for any error of the receive loop there is a run in which the request gets the lost-connection error |
| `RequestMatching.NoSendBlocks` | conn.go:165-181 | every delivery, the broadcast's under the lock included, goes to an empty channel, and the broadcast meets no channel twice |
| `RequestMatching.PoolNotInFlight` | pool.go:59-79 | a channel in the reuse pool is empty and can no longer be sent on by map, receive loop or failing sender, nor is it waited on |
| `ClientPools.UsableIsSuffix` | pool.go:17-36 | the retry loop drops exactly the undersized buffers in front |
| `ClientPools.BufPool.Get` | pool.go:17-36 | a full-length buffer, the first large enough pooled one or a new one, and never one still in the pool; with only suitable buffers kept it is the first one |
| `ClientPools.BufPool.Put` | pool.go:38-57 | keeps only buffers of suitable capacity, and not beyond the depth |
| `MemTrees.AncestorIsDirectory` | request-example.go:487-500 | in a tree every ancestor of a key is a directory |
| `MemTrees.NothingBelow` | request-example.go:196-233 | a key below a path makes it a directory that has a child, so what is not one, or is an empty one, has nothing below it |
| `MemTrees.AddedIsTree` | request-example.go:65-83 | a new key in an existing directory keeps the tree |
| `MemTrees.RemovedIsTree` | request-example.go:286-310 | removing a file or an empty directory keeps the tree |
| `MemTrees.RelocatedIsTree` | request-example.go:235-252 | moving a subtree to a place in a directory outside it keeps the tree |
| `MemTrees.RelocatedSuffix` | request-example.go:235-252 | for every suffix s what was at from/s is at to/s and nothing is left at from/s |
| `MemTrees.MovingStep` | request-example.go:240-248 | one turn of the walk, on any key it may visit, moves one more entry of the subtree onto a free key and disturbs no other |
| `MemTrees.SafeMove` | request-example.go:235-252 | after a walk in any order, inserted keys revisited or not, the result is a tree, the subtree is relocated, and the key count drops only by a replaced target |
| `MemTrees.NotTree` | request-example.go:240-252 | files left below a path that is gone are no tree: what a directory moved below itself ends in |
| `MemMoves.NamesStep` | request-example.go:240-248 | one turn of the walk gives the file its new key as its name and leaves every other name alone |
| `MemMoves.NamesDone` | request-example.go:237-252 | after a move each file with a key that was at or below the old path goes by one of its keys at or below the new one, and every other file by its old name |
| `MemMoves.SingleKeyName` | request-example.go:240-252 | a moved file without other links goes by exactly the key it was moved to |
| `MemListing.SortedListing` | request-example.go:407-417 | sorting a listing keeps each entry once and puts them in the order of their names |
| `MemListing.TextOrder` | request-example.go:411-415 | a text comes before its continuations, and otherwise the first difference decides |
| `MemFileSystem.Root.Fetch` | request-example.go:513-537 | symlinks are followed at most five times, relative ones from the link's own directory |
| `MemFileSystem.Root.FiveFollows` | request-example.go:513-537 | a chain of up to five symlinks leads to its end, and a longer one is refused |
| `MemFileSystem.Root.RelativeLink` | request-example.go:525-528 | a link in directory d with a relative text of names t leads to d/t |
| `MemFileSystem.Root.LinkUpward` | request-example.go:525-528 | a link in directory d with the text '../x' leads to x beside d |
| `MemFileSystem.Root.CanonName` | request-example.go:487-500 | the canonical name goes through the directory's own name |
| `MemFileSystem.Root.CanonicalOk` | request-example.go:487-500 | in a tree a canonical name, whatever the text, is the root, an existing directory, or a name in one |
| `MemFileSystem.Root.PutFile` | request-example.go:65-83 | a new entry at the canonical name and nothing else, or the exact error and no change; the tree is kept |
| `MemFileSystem.Root.FollowDangling` | request-example.go:94-109 | where creation through dangling symlinks ends, or why it is refused |
| `MemFileSystem.Root.FiveLinks` | request-example.go:94-109 | creation goes through up to five links by their texts, and is refused for more |
| `MemFileSystem.Root.CanonicalItself` | request-example.go:487-500 | a free name is its own canonical name, so that a file created through a link to it is found again, if and only if it is clean and absolute and its parent is a directory and no symlink |
| `MemFileSystem.Root.RelativeLinkRefused` | request-example.go:94-121 | through a dangling link with a relative text nothing is ever created: it is refused as not existing |
| `MemFileSystem.Root.StillDangling` | request-example.go:94-121 | opening a link to '/a/../b' creates '/b', and the link still leads nowhere |
| `MemFileSystem.Root.OpenFile` | request-example.go:85-141 | opens what the path leads to, emptied on request, or creates an empty file at the canonical name of the end of the symlink chain, or gives the exact error; the created file is found under the path opened if and only if that end is canonical; no other content or name changes; the tree is kept |
| `MemFileSystem.Root.Mkdir` | request-example.go:277-284 | a new empty directory entry or the exact error; the tree is kept |
| `MemFileSystem.Root.Rmdir` | request-example.go:286-310 | removes exactly the directory if nothing is in it; the exact error otherwise; the tree is kept |
| `MemFileSystem.Root.Link` | request-example.go:312-323 | one more key for the same file object, which goes by it from now on, never for a directory; every other name stays and the tree is kept |
| `MemFileSystem.Root.Symlink` | request-example.go:327-334 | a new entry holding the text given; the tree is kept |
| `MemFileSystem.Root.Unlink` | request-example.go:336-354 | removes exactly one key of a file, its other links staying; the tree is kept |
| `MemFileSystem.Root.Exists` | request-example.go:502-511 | whether the canonical name is taken |
| `MemFileSystem.Root.MoveChildren` | request-example.go:237-249 | for every order of the map and any revisiting of inserted keys, the walk ends with the whole subtree moved and the count kept, or, into itself, with something still below the old path |
| `MemFileSystem.Root.MoveEntry` | request-example.go:235-255 | the changes of a rename keep the tree if and only if the path moved is not the root and the new name does not lie strictly below it, and then relocate the subtree exactly; each file moved goes by one of its new keys and every other by its old name |
| `MemFileSystem.Root.PlanFindsPlace` | request-example.go:202-233 | what the checks before a rename leave: a canonical place in a directory, with nothing below it |
| `MemFileSystem.Root.Rename` | request-example.go:196-255 | by what stands at the two paths: nothing is done without an error if and only if it is the same file; onto nothing, a file onto a file, and a directory onto an empty one the file is moved, exact in entries and names; every other case is refused with its own error and changes nothing; the tree is kept if and only if the move is safe |
| `MemFileSystem.Root.LostTree` | request-example.go:196-255 | renaming a directory '/a' to '/a/b' is granted and ends in something that is no tree |
| `MemFileSystem.Root.RootMoved` | request-example.go:196-255 | renaming '/' to a new name at the top is granted and ends in something that is no tree |
| `MemFileSystem.Root.Readdir` | request-example.go:399-420 | every file whose key lies in the directory, each key once and no other, in the order of the files' own base names |
| `MemFileSystem.Root.SetSize` | request-example.go:153-163 | the file the path leads to has the size, old bytes kept and zeros beyond them, or the exact error; no other content and no name or entry changes |
| `MemFileSystem.Root.RenameNew` | request-example.go:165-172 | onto a name that is taken it is an error and changes nothing; otherwise it is the rename |
| `MemFileSystem.Root.ChangeEntry` | request-example.go:174-190 | removing, making and linking change exactly the one key named, the entry made is what was asked for and goes by its key, no other name changes, and the error is exact |
| `MemFileSystem.Root.Filecmd` | request-example.go:143-194 | each request does what its method promises to entries, names and contents, opens and size changes included, and no other changes contents; it keeps the tree unless it is a rename that moves the root or a directory below itself, and then it does not |
| `MemFileSystem.Root.Check` | request-example.go:202-233 | the precondition of renames can be checked before the call |
| `MemFileSystem.Root.Run` | request-example.go:143-194 | every run of requests keeps the tree up to the first rename that fails the precondition |
| `Wire.MarshalUint32` | packet.go:28-30 | the four shifted bytes are the big-endian form |
| `Wire.MarshalUint64` | packet.go:32-34 | the two halves one after the other are the eight-byte form |
| `Wire.MarshalString` | packet.go:36-38 | length cut to 32 bits, then all the bytes |
| `Wire.OrOfShifted` | packet.go:132-135 | the number read from four bytes is those bytes shifted to their places and joined bit by bit |
| `Wire.Uint32Inverse` | packet.go:137-144 | a checked read gives v and the rest if and only if the bytes are v's encoding and the rest |
| `Wire.Uint64Inverse` | packet.go:152-159 | the same for 64 bits |
| `Wire.StringInverse` | packet.go:166-175 | a checked read gives s if and only if s is shorter than 4 GiB and its encoding stands in front |
| `FileStats.MarshalFileStat` | packet.go:63-89 | the flagged fields in the draft's order, then the counted pairs |
| `FileStats.UnmarshalFileStat` | packet.go:185-248 | the decoder with its early returns is the composition of the field decoders |
| `FileStats.UnmarshalPairs` | packet.go:221-243 | the loop over the pairs decodes the counted list or fails as a whole |
| `FileStats.PairsInverse` | packet.go:221-243 | a list is decoded exactly from its encoding, for every count |
| `FileStats.StatInverse` | packet.go:63-248 | for all flags and bytes the decoder yields fs and rest if and only if fs is plain for the flags and the bytes are its encoding and rest: each of encoder and decoder inverts the other |
| `FileStats.FieldOrder` | packet.go:63-89 | with all flags set the fields follow one another as size, owner and group, mode, times and counted pairs |
| `FileStats.SizeAlone` | packet.go:63-66 | flag 1 alone is the size in eight bytes, and no flag nothing |
| `FileStats.OwnerAlone` | packet.go:67-70 | flag 2 alone is owner and group |
| `FileStats.ModeAlone` | packet.go:71-73 | flag 4 alone is the mode |
| `FileStats.TimesAlone` | packet.go:74-77 | flag 8 alone is access and modification time |
| `FileStats.PairsAlone` | packet.go:79-86 | flag 0x80000000 alone is the number of pairs and the pairs |
| `FileStats.PairBytes` | packet.go:79-86 | one pair in bytes |
| `Buffers.Buffer.ConsumeUint8` | internal/encoding/ssh/filexfer/buffer.go:89-103 | one byte, or the sticky error and nothing left |
| `Buffers.Buffer.ConsumeUint16` | internal/encoding/ssh/filexfer/buffer.go:128-142 | two bytes as a number |
| `Buffers.Buffer.ConsumeUint32` | internal/encoding/ssh/filexfer/buffer.go:161-175 | what the checked read of packet.go yields, or the sticky error and nothing left; with an error set, zero and no change |
| `Buffers.Buffer.ConsumeUint64` | internal/encoding/ssh/filexfer/buffer.go:200-214 | eight bytes at once are the two halves packet.go reads |
| `Buffers.Buffer.ConsumeInt64` | internal/encoding/ssh/filexfer/buffer.go:232-234 | the same number in two's complement |
| `Buffers.Buffer.ConsumeByteSlice` | internal/encoding/ssh/filexfer/buffer.go:250-268 | a string if its length fits what is there, as the checked read of packet.go |
| `Buffers.Buffer.AppendUint32` | internal/encoding/ssh/filexfer/buffer.go:178-185 | the four-byte form appended |
| `Buffers.Buffer.AppendUint64` | internal/encoding/ssh/filexfer/buffer.go:217-228 | the eight-byte form appended |
| `Buffers.Buffer.AppendInt64` | internal/encoding/ssh/filexfer/buffer.go:237-239 | the two's complement form appended |
| `Buffers.Buffer.AppendByteSlice` | internal/encoding/ssh/filexfer/buffer.go:293-296 | the length-prefixed form appended |
| `Buffers.Buffer.StartPacket` | internal/encoding/ssh/filexfer/buffer.go:62-69 | room for the length, then type and request id, earlier contents and errors gone |
| `Buffers.Buffer.PutLength` | internal/encoding/ssh/filexfer/buffer.go:315-321 | the length put over the first four bytes, padded if the buffer is shorter |
| `Buffers.Buffer.Packet` | internal/encoding/ssh/filexfer/buffer.go:81-85 | header and payload together are one length-prefixed string |
| `Buffers.NumberRoundTrip` | internal/encoding/ssh/filexfer/buffer.go:128-151 | reading n bytes undoes writing a number in n bytes |
| `Buffers.Int64RoundTrip` | internal/encoding/ssh/filexfer/buffer.go:230-239 | a signed number survives the unsigned encoding |
| `AttributeCodec.Attributes.Len` | internal/encoding/ssh/filexfer/attrs.go:88-116 | the number of bytes the encoder writes, for all flags and extensions |
| `AttributeCodec.Attributes.MarshalInto` | internal/encoding/ssh/filexfer/attrs.go:119-147 | appends the flags and the encoding packet.go produces |
| `AttributeCodec.Attributes.UnmarshalByFlags` | internal/encoding/ssh/filexfer/attrs.go:168-204 | it takes the bytes packet.go's decoder takes and fails when that does, sets the flagged fields to the same values and keeps the others, and with an error already set consumes nothing |
| `AttributeCodec.Attributes.UnmarshalFrom` | internal/encoding/ssh/filexfer/attrs.go:159-163 | the same with the flags read first |
| `AttributeCodec.Attributes.UnmarshalList` | internal/encoding/ssh/filexfer/attrs.go:194-201 | the list filled in place, carrying on after an error, ends as the checked decoder would |
| `AttributeCodec.OntoIsDecoding` | internal/encoding/ssh/filexfer/attrs.go:168-204 | decoding onto old attributes differs from decoding from nothing only in the fields not flagged |
| `AttributeCodec.DecodersAgree` | internal/encoding/ssh/filexfer/attrs.go:168-204 | run on any flags and bytes, the one decoder succeeds exactly when the other ends without an error, with equal flagged fields, equal extensions and equal bytes left |
| `AttributeCodec.EncodersAgree` | internal/encoding/ssh/filexfer/attrs.go:119-147 | run on any attributes, the two encoders write the same bytes, as many as Len says |
| `AttributeCodec.AttrsInverse` | packet.go:177-183 | flags and attributes are decoded exactly from their encoding |
| `AttributeCodec.EntryInverse` | internal/encoding/ssh/filexfer/attrs.go:255-291 | a directory entry is decoded exactly from its encoding |
| `AttributeCodec.NameEntry.Len` | internal/encoding/ssh/filexfer/attrs.go:262-264 | the length of the encoded entry |
| `AttributeCodec.NameEntry.MarshalInto` | internal/encoding/ssh/filexfer/attrs.go:267-272 | the entry's encoding appended |
| `AttributeCodec.NameEntry.UnmarshalFrom` | internal/encoding/ssh/filexfer/attrs.go:284-291 | the names and attributes the checked decoder finds, or the sticky error |
| `Framing.SendPacket` | packet.go:279-305 | for every writer: the whole frame is written, or an error comes after some front of it, possibly all |
| `Framing.Reader.RecvPacket` | packet.go:307-344 | the packet in front, or which of the five refusals, from the bytes to the end of the stream |
| `Framing.FrameReceived` | packet.go:279-344 | what becomes of a frame of any size; a non-empty body is received as sent if and only if it is at most 262144 bytes long |
| `Framing.FrameBytes` | packet.go:279-305 | a frame of two bytes in bytes |
| `Framing.StreamReceived` | packet.go:279-344 | any sequence of sendable packets is received in order with nothing left over |
| `Framing.CutStream` | packet.go:307-344 | a stream cut at any byte delivers exactly the packets whole before the cut, and ends cleanly only between packets |
| `Framing.WholeIsMost` | packet.go:307-344 | those packets fit before the cut and one more does not |
| `Framing.WholeWritten` | packet.go:279-344 | when k packets have been written and at most one more in part, k or k + 1 of them are whole |
| `Packets.MarshalInit` | packet.go:372-388 | header of INIT with all its extension pairs |
| `Packets.MarshalRead` | packet.go:793-806 | header of READ |
| `Packets.MarshalWrite` | packet.go:911-925 | header of WRITE, its data passed through as the payload |
| `Packets.MarshalSetstat` | packet.go:1001-1012 | header of SETSTAT, raw attributes as the payload |
| `Packets.MarshalSetstatOf` | packet.go:1001-1023 | header of SETSTAT, a FileStat encoded as the payload |
| `Packets.MarshalRename` | packet.go:850-862 | header of RENAME |
| `Packets.MarshalDataPacket` | packet.go:1151-1161 | header of DATA, its data passed through as the payload |
| `Packets.InitBytes` | packet.go:372-388 | a INIT packet in bytes |
| `Packets.ReadBytes` | packet.go:793-806 | a READ packet in bytes |
| `Packets.WriteBytes` | packet.go:911-925 | a WRITE packet in bytes |
| `Packets.SetstatBytes` | packet.go:1001-1012 | a SETSTAT packet in bytes |
| `Packets.RenameBytes` | packet.go:850-862 | a RENAME packet in bytes |
| `Packets.DataBytes` | packet.go:1151-1161 | a DATA packet in bytes |
| `Packets.PacketRoundTrip` | packet.go:784-948 | a packet is decoded from its own fields if and only if its strings are shorter than 4 GiB and its data is as long as its length field says |
| `Packets.DecodedIsWellFormed` | packet.go:808-948 | whatever bytes are decoded, the packet is well-formed |
| `Packets.SetstatRoundTrip` | packet.go:1001-1082 | attributes sent with SETSTAT are found again by the server if and only if they are plain for the flags |
| `Packets.SessionRoundTrip` | packet.go:279-344 | well-formed packets of sendable size, sent one after the other, are received and decoded as they were, in order, and then the stream ends |
| `Packets.SendAll` | packet.go:279-305 | packets marshalled and sent one after the other are on the stream in order up to the first write error, with at most a front of the next |
| `Packets.ReceiveLoop` | packet.go:307-344 | receiving until the stream ends or is refused decodes exactly the packets of the stream |
| `Packets.Exchange` | packet.go:279-344 | well-formed packets of sendable size, sent over any writer and received: all of them as they were when every send succeeded, otherwise those before the failure and perhaps that one, then a clean or an unexpected end |
| `Packets.CopyUp` | packet.go:1168-1171 | the overlapping copy within one array moves every byte as if there were no overlap |
| `Packets.MarshalData` | packet.go:1168-1176 | with room it works in the data's own array, else in a new one leaving the old alone; both give the same bytes after the length |
| `Packets.OnePieceIsTwoPieces` | packet.go:1151-1176 | the in-place form puts the bytes of the two-part form on the wire if and only if every data byte from the length field on equals the one thirteen further on; always when the length covers the data |
| `Packets.OnePieceDiffers` | packet.go:1168-1176 | a concrete packet with its length short of its data for which the two forms differ |
| `Packets.OnePieceDecodes` | packet.go:1178-1190 | both forms are decoded alike, as the first Length bytes |
| `Listing.Lister.ListAt` | request-example.go:359-369 | the batch from the offset on, the end told exactly when it falls short |
| `Listing.ListRequest.FileList` | request.go:512-547 | a NAME with the next batch and the offset moved past it, the end status only when nothing is left |
| `Listing.MarshalEntries` | packet.go:690-710 | count and entries of a NAME packet |
| `Listing.UnmarshalEntries` | client.go:357-374 | for any bytes: the entries they hold other than the dot ones, in order, or the first failure, an attribute error or a panic on a name that is cut off, with nothing returned |
| `Listing.EntriesInverse` | client.go:357-374 | n entries are read from exactly the bytes that encode them, and none from others |
| `Listing.ReadDir` | client.go:335-387 | against that server the loop ends after one round a batch and one more, without an error, and returns every entry but the dot ones once and in order |
| `Listing.BatchesRoundUp` | client.go:343-386 | the number of batches is the listing's length over the batch size, rounded up |
| `Listing.VisibleIsAll` | client.go:370-373 | a listing of proper names is returned as it is, entry by entry |
| `Listing.DotsLeftOut` | client.go:370-373 | of names without a slash exactly the bytes of '.' and '..' are left out |
| `Listing.BaseNameIs` | client.go:373 | an entry is shown by what follows the last slash of its name, slashes at the end not counting |

## Left out

- Framing.Reader.RecvPacket: reads from the bytes up to the end of the stream; blocking in the middle of a packet is not modelled.
- Wire.MarshalUint32: slices are values here, so appending in place into spare capacity is not captured; `Packets.MarshalData` models the one place where that matters.
- Buffers.Buffer.ConsumeByteSlice: returns a value, so the promise that returned slices do not overlap is not captured; `ConsumeByteSliceCopy`, `MarshalBinary` and `UnmarshalBinary` of the buffer are copies with nothing further to say.
- MemFileSystem.Root.Run: stops at the first rename that fails the precondition instead of carrying on without a tree.
- MemFileSystem.Root.Filecmd: sizes are not negative (the source converts an unsigned 64-bit size); the test hook `returnErr` and modification times are left out.
- MemFileSystem.Root.Readdir: files with the same name, which hard links can be, are listed in one order here and in any order by the source.
- Listing.ReadDir: a batch whose NAME frame exceeds 256 KiB would be refused by the client; frames are taken to fit.
- ClientPools.BufPool.Get: a buffer is an identity, a length and a capacity; that its user `WriteTo` does not touch a buffer it gave back is `WriteToBuffers.NoBufferShared`, where receiving, writing and giving back are one step of the reducer.
- ServerPipeline.AnsweredWithoutClient: counts the steps that move packets on; that a handler asks for finitely many pages and that the Go scheduler lets goroutines move are not part of it.
- ReadAt.ConcurrentReadRefinesSequential: a reply with status OK to a READ is accepted by the code as an empty success; the file server here never sends one.
- Delivery of responses after the controller is told to stop: `working.Done` runs after a buffered send, so the last responses may be dropped, and no claim is made.
- Closing of files, contexts and their cancellation by the caller, `Stat` before `WriteTo`, the choice of a concurrency level, and the read-only gate of `server.go`.
- SSH transport, `os` and `syscall` calls, error-code translation, `toLocalPath`: foreign calls.
- The remaining packet types of packet.go and the filexfer packages, `marshal` by reflection, `runLs` and mode bits: they follow from the primitives proved here and add only easy members.
- `Glob`, `Match`, `Walk`, `RemoveAll`, `MkdirAll`: the hard part is library code that is not part of this model.
