# A model of the reconnecting transport

et-go's client keeps one encrypted packet connection alive over any number of TCP links. Its
promise is exactly-once, in-order delivery in both directions while the network may cut a link at
any byte: inside a frame, inside the handshake, inside the catchup. This project models that
transport against the server in internal/etservertest and proves the promise for every run. Two
supporting layers carry it down to bytes (framing and packets, the nonce counter), and the
console's streaming UTF-8/UTF-16 transcoders are proved equal to their one-shot meaning.

## How it is built

- **Values and steps.** `Outbound` and `Inbound` are the client's two halves as values, with one
  function per locked region. `Protocol` is the step relation over the client, the server and
  every link dialed so far: 36 kinds of step, each one locked region, one handshake message, one
  piece of a write or one hand-over, so a cut can fall between any two of them and at any byte of
  the stream. The log of everything ever sealed is kept for both directions; a position is an
  index into it.
- **Invariant and safety.** `Invariant` states what holds in every reachable state, `ClientSteps`
  and `ServerSteps` prove that each step keeps it, and `Safety` draws the promises from it for all
  runs. `Flow` shows that a committed link that stays up must deliver everything, `Stalls` when a
  session between links can deliver nothing more, and `Progress` exactly when it can deliver all.
  `LateTakeOver` and the end of `Progress` are concrete runs in which a promise fails (see below).
- **Classes.** `Ring.Ring`, `Conn.Conn`, `FakeServer.Server`, `Sealing.Stream`,
  `Transcoders.Utf8Encoder` and `Transcoders.Utf16Decoder` have the source's fields and change them
  in place. Each method's contract is a step function of the layer above, so the classes refine the
  protocol. Where the source waits in a select, or a write may fail, the outcome is a parameter or
  a nondeterministic choice.
- **Concurrency.** `Exchange` is the recover exchange byte by byte over two pipes of any capacity;
  `Backpressure` is the signalling between any number of blocked writers, the link writer and the
  prober, with the backlog of `Outbound`.
- **The box.** secretbox is an ideal box: it opens at the nonce it was sealed at and at no other
  (`Sealing.Ideal`). `IdealBox` constructs one, so no theorem about it is vacuous. Sequence numbers
  stay within int64, as in the source.

## What is not as one might expect

- **An honest box can be refused.** `takeOver` follows the order links reach it, not the order they
  connected (server.go:75-77 says so). If the NEW_CLIENT link reaches it after the client has
  already recovered on another link, its reader meets packets it has accepted before and the box
  does not open. `Safety.ServerRefusesOnlyLate` proves that this is the only way: the server refuses
  a box if and only if it reads it on a NEW_CLIENT link that took over when the server had already
  accepted something. `LateTakeOver.LateTakeOverRefusesHonestBox` gives the run. Nothing is lost,
  repeated or reordered even then: exactly-once needs no such condition. The run needs a link that
  buffers what is written before the server reads, as TCP does; over the in-memory network of
  etservertest (network.go:17), which is net.Pipe, a write to a link not yet taken over waits.
- **An oversized packet from the server ends the client.** The server's `Send` has no size check.
  Its writer can never put such a packet on the stream, but a catchup can carry it, and the client
  fails with an integrity error. `Safety.ClientRefusesOnlyOversized` is the exact condition, and
  `Progress.OversizedCatchupEndsClient` the run, for any such packet that fits a handshake message.
  One that does not stalls the session instead (`Progress.HugePacketStalls`).
- **A backlog above 128 MiB cannot be resumed.** A catchup is one handshake message, and
  internal/wire/message.go:18 refuses to write a larger one. A client backlog above that ends the Conn
  (recover.go:188-192); a server backlog above that makes the server give every new link up, and the
  client redials for ever. `Progress.ArrivesExactly` makes the condition exact: a session between
  links can still deliver everything if and only if nothing is left to send, or the Conn has not
  ended, both positions fit int32, the server's is retained, both catchups fit a message, and no
  entry the server has still to deliver exceeds a frame. `Stalls.NothingMoreArrives` is the other
  side, whatever anyone does. A link that stays up has no such limit
  (`Flow.CommittedLinkDelivers`).
- **A held position may outlive its allowance.** While the ring is held, entries before the hold
  are trimmed at one limit and those after it at two, oldest first, so what lies before the hold can
  stay longer than it is promised to. `Outbound.StatedPosition` is exact for positions at or after
  the hold, and `Safety.RefusedOnlyWhenLost` shows that an honest server's always are.
- **Truncation.** The comment in recover.go:156-159 puts a truncated position at least 2^31 below
  its true value. The distance is in fact a non-zero multiple of 2^32;
  `Outbound.TruncationIsRefused` uses that, and the server's own header, which unlike the client's
  is not checked before it is cut to int32, is covered by it.

## Model

| member | source | states |
|---|---|---|
| Safety.StepInv | internal/etcp/link.go:50-298 | every step of every interleaving of callers, reader, writer, watcher, supervisor, server and network keeps the whole invariant |
| Safety.RunInv | internal/etcp/recover.go:18-127 | the invariant holds in every state of every run |
| Safety.ClientToServerExactlyOnce | internal/etservertest/server.go:222-250 | in every reachable state the server has accepted exactly the first recvSeq packets the client sealed, in order |
| Safety.ServerToClientExactlyOnce | internal/etcp/conn.go:47-61 | what ReadPacket returned, then the inbox, then the packet outside it (at most one) are exactly the first recvSeq packets the server sealed; the next header states that count, so an abandoned catchup is asked for again from the right place |
| Safety.TailIsReturned | internal/etcp/conn.go:119-148 | once the readers have stopped, reading on returns everything received, a packet left by a dead link included |
| Safety.ReadTailIsReachable | internal/etcp/conn.go:119-148 | reading the tail is a run of the protocol that changes nothing else and ends with nothing left to read |
| Safety.ClientRefusesOnlyOversized | internal/etcp/link.go:114-140 | the client refuses an entry of an honest catchup if and only if it exceeds the frame limit, and never refuses an honest frame |
| Safety.BrokenOnlyByOversized | internal/etservertest/server.go:304-315 | a client that failed with an integrity error was sent, by Send, a packet too large for a frame |
| Safety.ServerRefusesOnlyLate | internal/etservertest/server.go:71-121 | the server refuses an honest frame if and only if its link is a NEW_CLIENT link taken over after packets were accepted; a catchup entry never |
| LateTakeOver.LateTakeOverRefusesHonestBox | internal/etservertest/server.go:145-158 | a reachable state in which an honest box was refused |
| Safety.RefusedOnlyWhenLost | internal/etcp/recover.go:174-185 | at the snapshot an honest peer is refused if and only if int32 cannot state its position, or more than its allowance was written after it, or what was sealed after it does not fit one message; otherwise its true position was found and the catchup is everything sealed after it |
| Safety.ReaderIsConcurrent | internal/etcp/recover.go:84-96 | the exchange's reader takes what the server has sent as soon as it is there, whatever was written |
| Safety.RefusesIsAStep | internal/etcp/recover.go:182-193 | that refusal is the step that ends the Conn, at the snapshot or right after it |
| Safety.SnapshotHolds | internal/etcp/recover.go:111-122 | between snapshot and commit nothing is trimmed: the catchup is still that slice of the log, and all the commit sums is retained |
| Safety.HoldEndsAfterCatchup | internal/etcp/link.go:156-169 | everything the server may still ask for lies at or after the hold, the hold is released only once the server has accepted the whole catchup, and no client header is ever wrapped |
| Flow.CommittedLinkDelivers | internal/etcp/link.go:50-247 | in every reachable state with a committed link that both sides still serve: whichever of the steps they owe are taken, in whatever order, everything both have sealed arrives, echoes included |
| Flow.OwedStepCounts | internal/etcp/link.go:50-247 | every owed step keeps such a link going and makes a fixed measure smaller |
| Flow.OwedUntilArrived | internal/etservertest/server.go:199-276 | and until everything has arrived there is one to take |
| Stalls.NothingMoreArrives | internal/etcp/recover.go:160-198 | between links, when the Conn has ended, a position cannot be stated or is not retained, or a catchup does not fit one message: whatever anyone does, the server accepts nothing more and the client receives nothing more |
| Progress.ArrivesExactly | internal/etcp/recover.go:18-198 | a session between links, whose server has refused nothing, can still deliver all that was sealed if and only if nothing is left to send, or none of these holds and no entry the server has still to deliver exceeds a frame |
| Progress.EverythingCanArrive | internal/etcp/recover.go:18-127 | and from every reachable live state some continuation delivers everything, when the counts fit int32, the server's position is retained, and both backlogs fit a message, with room for the echoes still to come |
| Progress.ReadyArrives | internal/etcp/recover.go:76-198 | one dial, one exchange and what follows on its link are enough |
| Progress.Committed | internal/etcp/recover.go:76-127 | the exchange itself: the new link starts at the snapshot, with the client's catchup written and exactly the server's catchup to deliver |
| Progress.ClosedArrives | internal/etcp/conn.go:150-159 | with nothing left to send, Close and reading the tail return everything |
| Progress.LetGo | internal/etservertest/server.go:145-158 | from any live state the client can let go of its link and the server of all of its, keeping what is needed to resume |
| Progress.ReceivesOnlyFitting | internal/etcp/link.go:114-132 | the client's position moves one entry at a time and only past one that fits a frame |
| Progress.OversizedCatchupEndsClient | internal/etcp/link.go:114-119 | for every packet too large for a frame that fits a message there is a run in which the server seals it, the catchup carries it and the client fails |
| Progress.HugePacketStalls | internal/wire/message.go:16-20 | for a packet that does not fit a message no continuation commits a link, receives anything or fails |
| Messages.EntryAdds | internal/protocol/proto/ET.proto:38-40 | an entry adds itself, a tag byte and one to four bytes of length, by its size, to a catchup |
| Messages.VarintSizeIs | internal/protocol/proto/ET.proto:38-40 | a varint has as many bytes as its number has base-128 digits |
| Safety.HeldUntilHeard | internal/etcp/recover.go:114-117 | while a client runs a link the ring is held if and only if it is a recovered link on which the server has not been heard, and then from the position that server stated |
| Safety.UnheardIsRetained | internal/etcp/recover.go:74-75 | until the server is heard, any position from the one it stated on is retained with up to two limits written after it, so a catchup can be asked for again |
| Safety.HoldOutlivesLink | internal/etcp/link.go:156-169 | a hold outlives its link: only another exchange changes it and only a frame of the server's ends it |
| Safety.HeardIsTrimmed | internal/etcp/link.go:156-169 | once the server is heard nothing is held and written bytes are within one limit |
| Safety.CallersAreServed | internal/etcp/conn.go:84-147 | when exactly a caller's packet can be queued, and when exactly one can be read |
| Safety.WatcherProbes | internal/etcp/link.go:278-294 | when exactly the watcher may probe, and that a probe is sealed and queued unless one waits |
| Safety.FirstExchangeDecides | internal/etcp/dialer.go:137-142 | a first exchange that fails ends the Conn, a later one is tried again |
| Safety.LinkCarriesLog | internal/etcp/link.go:185-247 | the bytes of all passes on a link are a prefix of the frames from the link's start position, and its catchup is the slice before that position |
| Safety.MemoryBounded | internal/etcp/dialer.go:96-112 | in every reachable state: written bytes within one limit, two while held; the backlog within the limit, one packet and one queued probe; the ring within three limits and two entries |
| Safety.ProbesDisciplined | internal/etcp/conn.go:161-182 | sequence 0 is never a probe, and at most one probe is at or after flushed, across reconnects |
| Safety.ProbeBehindIsExact | internal/etcp/link.go:249-261 | in the middle of any pass probeBehind is true if and only if the latest probe is unflushed and no byte of its frame is on the link |
| ClientSteps.InitInv | internal/etcp/dialer.go:150-189 | the state of a new Conn satisfies the invariant, whatever the server sealed before |
| ClientSteps.ConnectInv | internal/etcp/dialer.go:202-296 | a dialed and admitted link, new or returning, keeps it |
| ClientSteps.SnapshotInv | internal/etcp/recover.go:174-185 | so does the snapshot, for a peer position that was cut to int32 |
| ClientSteps.CommitInv | internal/etcp/recover.go:111-127 | so does the commit: the new writer starts at the snapshot, the reader at the peer's catchup |
| ClientSteps.LinkDownInv | internal/etcp/link.go:131-140 | so does a link that fails with a packet in the reader's hands or a committed exchange unused |
| ClientSteps.DeliverFrameInv | internal/etcp/link.go:84-106 | the next frame of a link is the next packet the server sealed, and opens |
| ClientSteps.SendInv | internal/etcp/link.go:223-237 | any part of a batch may reach the link |
| ClientSteps.FlushInv | internal/etcp/link.go:238-245 | a batch written whole advances flushed past exactly its entries |
| ServerSteps.TakeOverInv | internal/etservertest/server.go:145-158 | a takeover of any waiting link, in any order, keeps the invariant |
| ServerSteps.HearInv | internal/etservertest/server.go:172-188 | the server's catchup runs from the position the client states to the start of its stream |
| ServerSteps.AcceptOutcome | internal/etservertest/server.go:222-250 | what accept does with an honest entry sealed at any position: opened if and only if the server is at that position |
| ServerSteps.AcceptExactly | internal/etservertest/server.go:222-250 | for any bytes: which the server counts and queues, which only advance its stream, and that exactly a KEEP_ALIVE is echoed |
| ServerSteps.ReadOutcome | internal/etservertest/server.go:207-220 | the next frame the server reads is the client's next entry, and is accepted unless the link took over late |
| ServerSteps.ServerWriteInv | internal/etservertest/server.go:252-276 | a frame written whole or cut anywhere keeps the invariant |
| Outbound.TrimRetainsAllowance | internal/etcp/ring.go:26-44 | trim keeps, of the positions in the window, exactly those followed by no more written bytes than their allowance |
| Outbound.ReplayWindow | internal/etcp/ring.go:52-61 | over all history, a position with at most limit bytes written after it (twice that when held and at or after hold) is retained, and since returns exactly everything sealed from it |
| Outbound.EnqueueOk | internal/etcp/conn.go:92-99 | a write admitted with the backlog at or below the limit keeps the outbound invariant |
| Outbound.ProbeOk | internal/etcp/conn.go:168-182 | a probe past the limit keeps it, because only one can wait |
| Outbound.TrimOk | internal/etcp/conn.go:193-199 | trimming to any later flushed keeps the history of what was dropped and bounds what is written |
| Outbound.FlushOk | internal/etcp/link.go:238-242 | the end of a pass keeps it |
| Outbound.CommitHolds | internal/etcp/recover.go:111-121 | a commit holds the peer's position and keeps exactly what has at most two limits written after it from there on, one before |
| Outbound.ReleaseEnds | internal/etcp/link.go:162-169 | the end of a hold leaves nothing held, and exactly what has at most one limit written after it |
| Outbound.Int32Is | internal/etservertest/server.go:167-168 | the int32 with the same low 32 bits |
| Outbound.CommitOk | internal/etcp/recover.go:111-121 | so does a commit at any snapshot, for any peer position not yet dropped |
| Outbound.ReleaseOk | internal/etcp/link.go:162-169 | so does the end of a hold |
| Outbound.RingBounded | internal/etcp/dialer.go:96-112 | bytes and number of entries in the ring are bounded by three limits and two entries |
| Outbound.TruncationIsRefused | internal/etcp/recover.go:150-185 | a position cut to int32 lies in the window only if it was not changed by the cut; one above 2^31-1 is always refused |
| Outbound.StatedPosition | internal/etcp/recover.go:174-185 | what a peer that states its position gets: everything after it, or a refusal; and, at or after the hold, a refusal if and only if one of two causes holds |
| Inbound.DeliverExactly | internal/etcp/link.go:114-132 | for any bytes: which are counted, which only advance the stream, and which end the Conn |
| Inbound.DeliverExact | internal/etcp/link.go:114-132 | the next honest entry opens and is counted; it is refused only for its size |
| Inbound.HandOverExact | internal/etcp/link.go:142-154 | a packet handed over, or kept when the link ends first, is neither lost nor repeated nor reordered |
| Inbound.HandPendingExact | internal/etcp/link.go:70-77 | nor is the kept packet when the next link hands it over |
| Inbound.ReadPendingExact | internal/etcp/conn.go:138-145 | nor when ReadPacket takes it after the inbox |
| Ring.Ring.Push | internal/etcp/ring.go:21-24 | appends to the window and keeps the byte count exact |
| Ring.Ring.Trim | internal/etcp/ring.go:26-44 | the loop drops exactly what the window's specification drops, given the size of the backlog |
| Ring.Ring.AppendRange | internal/etcp/ring.go:46-50 | a retained range is that slice of everything ever pushed |
| Ring.Ring.Since | internal/etcp/ring.go:52-61 | that slice, or nothing when the range is outside the window |
| Ring.Ring.BytesBetween | internal/etcp/ring.go:63-71 | the total size of that slice |
| Conn.Conn.constructor | internal/etcp/dialer.go:150-189 | a new Conn stands for the initial outbound and inbound state |
| Conn.Conn.EnqueueLocked | internal/etcp/conn.go:184-191 | seals once, at count seq+1, and queues that entry |
| Conn.Conn.TryWrite | internal/etcp/conn.go:85-101 | one turn of the loop queues if and only if the payload fits, the Conn lives and the backlog is at or below the limit |
| Conn.Conn.WritePacket | internal/etcp/conn.go:74-111 | whatever ends its waits, and whatever writes, probes, batches, exchanges, hold releases and deliveries other threads do meanwhile: the packet is queued once, in a state with the backlog at or below the limit, or not at all; a writer that still waits saw no room |
| Conn.Conn.Watch | internal/etcp/link.go:263-298 | whatever other threads do between its looks: the link is dead at the second of two quiet timer periods in a row and never earlier, not before the first packet, and after the first a probe is queued unless one waits |
| Conn.Conn.ProbeOnce | internal/etcp/conn.go:168-182 | queues the probe unless one is unwritten |
| Conn.Conn.ReleaseLocked | internal/etcp/conn.go:193-199 | trims at flushed and reports room |
| Conn.Conn.ReleaseHold | internal/etcp/link.go:162-169 | ends a hold and trims: nothing is held after it, and written bytes are within one limit |
| Conn.Conn.TakeBatch | internal/etcp/link.go:191-194 | the entries from flushed on, at most maxBatchEntries |
| Conn.Conn.FinishBatch | internal/etcp/link.go:238-245 | flushed and unsent move past the batch |
| Conn.Conn.FramePass | internal/etcp/link.go:191-221 | the framed batch is the greedy batch of the whole backlog, with its bytes, size and the probe's offset |
| Conn.Conn.WritePass | internal/etcp/link.go:190-246 | a whole pass on a link that fails after any number of bytes, with packets and probes queued during it: the link gets the frames of one greedy batch of the whole backlog or a prefix, flushed moves only if it got all, and the pass counts as life if and only if some piece went out before the frame of the probe, as it then was, began |
| Conn.Conn.Snapshot | internal/etcp/recover.go:174-181 | next, and the retained entries from the peer's position to it |
| Conn.Conn.Commit | internal/etcp/recover.go:111-122 | accounting and trim of a finished exchange; the peer's position is held and the link starts at the snapshot |
| Conn.Conn.Recover | internal/etcp/recover.go:76-198 | which of success and the two errors it ends with, the size of the catchup included; until it succeeds only what callers wrote meanwhile was queued; then the new link has exactly that left to send |
| Conn.Conn.Deliver | internal/etcp/link.go:114-140 | opens, counts and hands over one entry, or keeps it when the link ends, or fails the Conn |
| Conn.Conn.HandPending | internal/etcp/link.go:70-76 | the kept packet goes to the inbox |
| Conn.Conn.ReadPacket | internal/etcp/conn.go:119-148 | whichever ready branch of its selects is taken: the inbox goes before the kept packet, that one only when every reader has stopped, an error returns nothing, and the Conn's own error only when nothing is left |
| Conn.Conn.ReceiveCatchup | internal/etcp/link.go:78-82 | a catchup is received entry by entry up to where the link ends or an entry is too large, and such an entry is never passed |
| Conn.Conn.ReceiveFrames | internal/etcp/link.go:83-106 | frames until stream or link ends: all counted, in order, and the hold ends if and only if one came; then written bytes are within one limit |
| Conn.Conn.ReadLoop | internal/etcp/link.go:66-106 | a reader's whole life: kept packet, catchup, frames; wherever it ends, everything opened is in one place and in order, a frame has ended the hold, on a link that stays up all there is was taken, and the Conn fails only on an entry or frame that is too large |
| FakeServer.Server.Admit | internal/etservertest/server.go:123-143 | NEW_CLIENT exactly once, then RETURNING_CLIENT; the two rejections |
| FakeServer.Server.EnqueueLocked | internal/etservertest/server.go:278-281 | seals at count seq+1 and records the entry |
| FakeServer.Server.Accept | internal/etservertest/server.go:222-250 | refines the protocol's accept, its two errors and the echo included, also after an earlier refusal |
| FakeServer.Server.AcceptCatchup | internal/etservertest/server.go:199-204 | accepts entry by entry up to the first refusal |
| FakeServer.HonestCatchupAccepted | internal/etservertest/server.go:199-204 | an honest catchup at the server's position is accepted whole, in order |
| FakeServer.Server.CatchupFrom | internal/etservertest/server.go:177-185 | the catchup is exactly what a client at that position lacks: it opens there, entry after entry, to all the packets sealed since, and the link's writer starts where it ends; nothing outside [0, sent] |
| FakeServer.Server.WriteBacklog | internal/etservertest/server.go:252-276 | on a link cut anywhere: the frames up to one too large to write, or a prefix of their bytes; the position moves only past all of them |
| FakeServer.Server.Recv | internal/etservertest/server.go:283-302 | each accepted packet once, in order |
| Backpressure.NoLostWakeup | internal/etcp/conn.go:74-111 | in every run, a writer parked with room on a live Conn has its wakeup in the channel, owed, or with a writer yet to check; a link waiting with a backlog has its own |
| Backpressure.ParkedWriterRechecks | internal/etcp/link.go:185-247 | while a link is up and a writer is parked, in every run: whichever of the steps the Conn's own threads owe are taken, in whatever order, a parked writer wakes and checks again |
| Backpressure.OwedStepsEnd | internal/etcp/link.go:185-247 | every owed step but that wakeup makes a fixed measure smaller |
| Backpressure.SomeOwedStep | internal/etcp/conn.go:103-109 | and there is always one to take |
| Backpressure.TokenWakesOne | internal/etcp/conn.go:103-104 | one token wakes one writer |
| Backpressure.TurnIsPassedWithRoom | internal/etcp/conn.go:94-99 | a writer that has queued wakes the link, and passes its turn on if and only if it left room |
| Backpressure.CancelledLeaves | internal/etcp/conn.go:105-108 | a caller that gives up waiting takes nothing with it |
| Backpressure.EndedQueuesNothing | internal/etcp/conn.go:86-91 | nothing is queued on a Conn that has ended |
| Backpressure.LockTracks | internal/etcp/conn.go:92-99 | the backlog of this model is the outbound state's when a packet is queued, and the signal for room is decided on it |
| Backpressure.ProbeTracks | internal/etcp/conn.go:172-182 | likewise for a probe |
| Backpressure.SentTracks | internal/etcp/link.go:238-245 | likewise for a written batch |
| Backpressure.LinkUpTracks | internal/etcp/recover.go:111-125 | likewise for a committed exchange |
| Exchange.ConcurrentNeverStuck | internal/etcp/recover.go:65-103 | with the concurrent reader no unfinished state is stuck, over pipes of any capacity and messages of any length |
| Exchange.ConcurrentFinishes | internal/etcp/recover.go:65-103 | from every reachable state the exchange runs to its end |
| Exchange.StepKeepsValid | internal/etservertest/server.go:162-205 | every step leaves fewer bytes to move |
| Exchange.DoneMeansDone | internal/etcp/recover.go:102-103 | finished is when no byte is left to write or read |
| Exchange.DeadlockExactly | internal/etcp/recover.go:65-75 | the exchange can deadlock if and only if it is done in sequence and both headers, or both catchups, exceed what the pipes hold |
| Writer.BatchCapIsInvisible | internal/etcp/link.go:23-27 | capping a pass at maxBatchEntries sends the same entries as filling the buffer from the whole backlog |
| Writer.BatchIsUnique | internal/etcp/link.go:171-176 | there is one batch, and only a single large entry makes it exceed the buffer |
| Writer.BatchIsLongest | internal/etcp/link.go:171-176 | and it is the longest start of the backlog that is one entry or fits the buffer |
| Writer.FrameBatch | internal/etcp/link.go:203-221 | the framing loop takes that batch, its bytes and size, and the offset of the probe's frame |
| Writer.ProbeBehindMeans | internal/etcp/link.go:249-261 | probeBehind, wherever the probe is, in terms of the bytes written |
| Writer.SendPieces | internal/etcp/link.go:223-237 | the pieces join to a prefix of the batch, and count as life exactly when a probe, read anew after each, is behind one |
| Frames.AppendFrame | internal/wire/frame.go:11-23 | the length and the frame after what was there, in place when there is room, or nothing |
| Frames.HeaderIs | internal/wire/frame.go:21 | the four bytes of a length, most significant first |
| Frames.ReadOneExactly | internal/wire/frame.go:44-74 | a frame is read if and only if the stream starts with one within the limit, a length above it is refused whatever follows, and only an empty stream ends cleanly |
| Frames.ReadOneOfPrefix | internal/wire/frame.go:44-74 | any prefix of a frame and more reads as the frame, as cut, or as a clean end |
| Frames.CutStreamDecodesToPrefix | internal/wire/frame.go:44-74 | a stream of frames cut at any byte decodes to exactly the frames wholly before the cut, and ends cleanly if and only if the cut is on a boundary |
| Frames.WholeFramesIsMaximal | internal/wire/frame.go:44-74 | which frames those are: as many as fit before the cut |
| Frames.NextFrame | internal/wire/frame.go:44-74 | a reader that has consumed k entries of a link can only be given entry k next |
| Reader.ReadFull | internal/wire/wire.go:55-69 | io.ReadFull over any pieces: exactly the bytes there are, and the error it maps |
| Reader.Grow | internal/wire/wire.go:88-102 | the next step's size, and a buffer in proportion to what has arrived; a replaced one at least doubles, up to its cap |
| Reader.ReadBody | internal/wire/wire.go:71-110 | exactly the next n bytes or the error, for any pieces and any reused buffer; every buffer allocated has capacity at most max(4*received, 2*growChunk) and at most max(n, growChunk) |
| Reader.ReadFrame | internal/wire/frame.go:44-74 | the frame, clean end, cut or oversize the bytes contain, whatever the pieces |
| Reader.ReadFrames | internal/wire/frame.go:44-74 | a reader's loop gets exactly the frames of the stream, whatever the pieces |
| Packets.AppendPacket | internal/wire/packet.go:9-32 | the packet after what was there, with the payload's original bytes even when it overlaps the place it goes to |
| Packets.ParseUndoesAppend | internal/wire/packet.go:21-42 | parsing what was appended gives it back, and where flag, header and payload are |
| Packets.AppendUndoesParse | internal/wire/packet.go:34-42 | everything of two bytes or more parses, and any flag but 0 means encrypted |
| Nonces.NonceValue | internal/seal/seal.go:99-108 | after n increments the 24 bytes are d*256^23 + n modulo 256^24, for every n |
| Nonces.IncrementAddsOne | internal/seal/seal.go:99-108 | one increment of any byte string adds one, modulo 256 to its length |
| Nonces.NoncesNeverRepeat | internal/seal/seal.go:55-68 | below 256^23 steps the direction byte is intact, no nonce repeats and the directions never meet |
| Sealing.OpensOnlyInStep | internal/seal/seal.go:80-97 | an honest box opens if and only if direction and position agree |
| Sealing.OpensToItself | internal/seal/seal.go:80-97 | at any count it opens to what was sealed in it or not at all |
| Sealing.IncrementBytes | internal/seal/seal.go:99-108 | the in-place loop is the increment |
| Sealing.Stream.constructor | internal/seal/seal.go:55-68 | a new stream is at count 0 of its direction |
| Sealing.Stream.Seal | internal/seal/seal.go:70-78 | seals at the next count |
| Sealing.Stream.Open | internal/seal/seal.go:80-97 | advances whether or not the box opens |
| Utf.DecodeEncoded | internal/console/utf16.go:60-66 | what a scalar encodes to decodes to it, whatever follows |
| Utf.EncodeDecoded | internal/console/utf16.go:60-66 | what decodes as anything but an invalid byte is the encoding of a scalar, and a byte is invalid only if no encoding starts there |
| Utf.EncodingIs | internal/console/utf16.go:20-32 | the bits of each byte of an encoding, by its length |
| Utf.UnitsAre | internal/console/utf16.go:68-80 | a rune is its own unit, or a pair of its upper and lower ten bits |
| Utf.IncompleteExactly | internal/console/utf16.go:60 | bytes wait for more if and only if they are the beginning of some scalar's encoding |
| Utf.FourBytesDecide | internal/console/utf16.go:54-56 | four bytes are enough to finish or reject a sequence |
| Transcoders.EncodeSplit | internal/console/utf16.go:41-82 | splitting the input anywhere changes neither output nor carry |
| Transcoders.StreamingEncodesWhole | internal/console/utf16.go:41-82 | any number of calls equal one call on the whole, in output and carry |
| Transcoders.CarryIsIncomplete | internal/console/utf16.go:47-48 | the carry is below four bytes, and empty or the beginning of some scalar's encoding |
| Transcoders.EncodeMeetsReference | internal/console/utf16.go:41-46 | output plus one U+FFFD per carried byte is the conversion defined by looking for scalars, one U+FFFD per invalid byte |
| Transcoders.Utf8Encoder.Append | internal/console/utf16.go:51-82 | the two loops and the carry buffer compute that conversion of carry and input |
| Transcoders.DecodeSplit | internal/console/utf16.go:9-39 | splitting the units anywhere changes nothing |
| Transcoders.StreamingDecodesWhole | internal/console/utf16.go:9-39 | any number of calls equal one call on the whole |
| Transcoders.DecodeRepairs | internal/console/utf16.go:9-39 | the output is the UTF-8 of the input with each unpaired surrogate, position by position, replaced by one U+FFFD |
| Transcoders.Utf16Decoder.Append | internal/console/utf16.go:17-39 | the loop with its carried surrogate computes that decoding |
| Transcoders.RoundTrip | internal/console/utf16.go:9-82 | on valid text encoder and decoder are inverse, with nothing carried |
| Transcoders.ChunkLen | internal/console/utf16.go:84-100 | the longest chunk within the limit that does not end inside a pair, and never zero for a non-empty input |
| Transcoders.ChunksRejoin | internal/console/utf16.go:84-88 | repeated chunks end and rejoin to the input |
| Transcoders.ChunksFit | internal/console/utf16.go:84-88 | none is empty or above the limit |
| Transcoders.NoChunkSplitsAPair | internal/console/utf16.go:84-88 | no boundary falls inside a surrogate pair |

## Left out

- Conn.Conn.TryWrite: one turn of the WritePacket loop; `Conn.Conn.WritePacket` is the loop.
- Conn.Conn.WritePacket: what ends each wait is a parameter, and what other threads do between its turns is a choice; the tokens are in `Backpressure`.
- Conn.Conn.WritePass: what is queued during a pass is queued between its pieces; other regions in between are in `Protocol`, where a pass is three kinds of step.
- Conn.Conn.ReadLoop: an honest server's link, as a sequence of its regions; what callers do meanwhile is that they may take packets when the inbox is full. Every interleaving is in `Protocol`.
- Conn.Conn.Recover: the two goroutines of the exchange are one sequence here, and where it fails is a parameter; their interleaving is in `Protocol` and their blocking in `Exchange`.
- Conn.Conn.ReadPacket: the error's cause is not modelled, only whose context ended.
- Conn.Conn.Watch: the periods are timer events, not time.
- Progress.EverythingCanArrive: some continuation, and a condition that is enough; it leaves out a Conn in its Dial's first exchange. It is exact between links (`Progress.ArrivesExactly`) and a matter of course on a link that stays up (`Flow.CommittedLinkDelivers`).
- Progress.ArrivesExactly: a server that has refused a box is left out; its stream is out of step.
- Flow.CommittedLinkDelivers: the caller's reads are among the owed steps, and nobody writes meanwhile.
- Backpressure.ParkedWriterRechecks: some parked writer, as the token goes to whichever takes it; and no new callers enter meanwhile.
- Conn.Conn.Deliver: opened packets and channels are values; the inbox is a sequence of at most 64.
- Transcoders.ChunkLen: a limit below 2 panics in the source and is a precondition here.
- Transcoders.Utf8Encoder.Append: the destination slice is a value that is extended; its reuse of capacity is not modelled.
- Writer.FrameBatch: the reused write buffer is a value; `Frames.AppendFrame` has the appending in place.
- Safety.ServerRefusesOnlyLate: a client that dials again after a failed first connect is a new Conn; the links of the earlier attempt are not in its state.
- Real cryptography: the ideal box stands for it, and nobody but the two parties seals.
- Hostile peers: the network cuts, it does not alter bytes.
- Protobuf: the handshake messages are an int and a list of byte strings, whole or absent; of the encoding only the size of a catchup is modelled.
- Handshake statuses that end the Conn (rejected, other version, session ended): the step that ends it.
- Real time: timers, dial timeouts and deadlines may fire at any step of `Protocol`; backoff delays are not modelled.
- Which of two errors a failed exchange reports (`readerErrWins`), error wording, logging and redaction.
- Panics on misuse: a nil key or an unknown direction in `seal.New`, a wrong passkey length in `NewServer`.
- The encoding and length prefix of internal/wire/message.go, internal/etcp/backoff.go, internal/session, internal/bootstrap, cmd, rules and the console's system calls.
