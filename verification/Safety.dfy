/** What holds in every reachable state of the transport. */
module Safety {
  import opened Bytes
  import opened Frames
  import opened Messages
  import opened Nonces
  import opened Packets
  import opened Sealing
  import opened Outbound
  import opened Inbound
  import opened Writer
  import opened Protocol
  import opened Invariant
  import opened ClientSteps
  import opened ServerSteps

  lemma ClientStepInv(cfg: Config, y: System, step: Step, z: System)
    requires ValidConfig(cfg) && Inv(cfg, y) && Next(cfg, y, step, z)
    requires !ByServer(step)
    ensures Inv(cfg, z)
  {
    hide Inv, ValidConfig, CanWrite, DoWrite, CanWatch, DoWatch, CanProbe, DoProbe, DoEnd, CanRead, DoRead,
         CanConnect, DoConnect, CanWriteHeader, DoWriteHeader, CanReadHeader, DoReadHeader, CanSnapshot,
         DoSnapshot, CanRefuse, DoRefuse, CanWriteCatchup, DoWriteCatchup, CanReadCatchup, DoReadCatchup,
         CanCommit, DoCommit, CanAbandon, DoAbandon, CanStop, DoStop, CanHandPending, DoHandPending,
         CanDeliverCatchup, DoDeliverCatchup, CanReleaseHold, DoReleaseHold, CanDeliverFrame, DoDeliverFrame,
         CanHandOver, DoHandOver, CanTake, DoTake, CanSend, DoSend, CanFlush, DoFlush, CanLinkDown, DoLinkDown,
         DoServerSend, DoEcho, CanTakeOver, DoTakeOver, CanGreet, DoGreet, CanHear, DoHear, CanAnswer,
         DoAnswer, CanListen, DoListen, CanAccept, DoAccept, CanStream, DoStream, CanServerRead, DoServerRead,
         CanServerWrite, DoServerWrite, CanClose, DoClose;
    match step
    case Write(p) => WriteInv(cfg, y, p);
    case Watch => WatchInv(cfg, y);
    case Probe => ProbeInv(cfg, y);
    case End => EndInv(cfg, y);
    case Read => ReadInv(cfg, y);
    case Connect => ConnectInv(cfg, y);
    case WriteHeader => WriteHeaderInv(cfg, y);
    case ReadHeader => ReadHeaderInv(cfg, y);
    case TakeSnapshot => SnapshotInv(cfg, y);
    case Refuse => RefuseInv(cfg, y);
    case WriteCatchup => WriteCatchupInv(cfg, y);
    case ReadCatchup => ReadCatchupInv(cfg, y);
    case Commit => CommitInv(cfg, y);
    case Abandon => AbandonInv(cfg, y);
    case Stop => StopInv(cfg, y);
    case HandPending => HandPendingInv(cfg, y);
    case DeliverCatchup => DeliverCatchupInv(cfg, y);
    case ReleaseHold => ReleaseHoldInv(cfg, y);
    case DeliverFrame => DeliverFrameInv(cfg, y);
    case HandOver => HandOverInv(cfg, y);
    case TakeBatch(sent) => TakeInv(cfg, y, sent);
    case SendPart(n) => SendInv(cfg, y, n);
    case FlushBatch => FlushInv(cfg, y);
    case LinkDown => LinkDownInv(cfg, y);
    case _ => assert false;
  }

  ghost predicate ByServer(step: Step)
  {
    || step.ServerSend? || step.Echo? || step.TakeOver? || step.Greet? || step.Hear? || step.Answer?
    || step.Listen? || step.AcceptNext? || step.StartStream? || step.ServerRead? || step.ServerWrite?
    || step.CloseLink?
  }

  lemma ServerStepInv(cfg: Config, y: System, step: Step, z: System)
    requires ValidConfig(cfg) && Inv(cfg, y) && Next(cfg, y, step, z)
    requires ByServer(step)
    ensures Inv(cfg, z)
  {
    hide Inv, ValidConfig, CanWrite, DoWrite, CanWatch, DoWatch, CanProbe, DoProbe, DoEnd, CanRead, DoRead,
         CanConnect, DoConnect, CanWriteHeader, DoWriteHeader, CanReadHeader, DoReadHeader, CanSnapshot,
         DoSnapshot, CanRefuse, DoRefuse, CanWriteCatchup, DoWriteCatchup, CanReadCatchup, DoReadCatchup,
         CanCommit, DoCommit, CanAbandon, DoAbandon, CanStop, DoStop, CanHandPending, DoHandPending,
         CanDeliverCatchup, DoDeliverCatchup, CanReleaseHold, DoReleaseHold, CanDeliverFrame, DoDeliverFrame,
         CanHandOver, DoHandOver, CanTake, DoTake, CanSend, DoSend, CanFlush, DoFlush, CanLinkDown, DoLinkDown,
         DoServerSend, DoEcho, CanTakeOver, DoTakeOver, CanGreet, DoGreet, CanHear, DoHear, CanAnswer,
         DoAnswer, CanListen, DoListen, CanAccept, DoAccept, CanStream, DoStream, CanServerRead, DoServerRead,
         CanServerWrite, DoServerWrite, CanClose, DoClose;
    match step
    case ServerSend(p) => ServerSendInv(cfg, y, p);
    case Echo(on) => EchoInv(cfg, y, on);
    case TakeOver(i) => TakeOverInv(cfg, y, i);
    case Greet => GreetInv(cfg, y);
    case Hear => HearInv(cfg, y);
    case Answer => AnswerInv(cfg, y);
    case Listen => ListenInv(cfg, y);
    case AcceptNext => AcceptInv(cfg, y);
    case StartStream => StreamInv(cfg, y);
    case ServerRead => ServerReadInv(cfg, y);
    case ServerWrite(n) => ServerWriteInv(cfg, y, n);
    case CloseLink(i) => CloseInv(cfg, y, i);
    case _ => assert false;
  }

  /** Every step of every interleaving keeps the invariant. */
  lemma StepInv(cfg: Config, y: System, step: Step, z: System)
    requires ValidConfig(cfg) && Inv(cfg, y) && Next(cfg, y, step, z)
    ensures Inv(cfg, z)
  {
    hide Inv, ValidConfig, Next;
    if ByServer(step) { ServerStepInv(cfg, y, step, z); } else { ClientStepInv(cfg, y, step, z); }
  }

  /** The invariant holds throughout every run. */
  lemma {:induction false} RunInv(cfg: Config, run: seq<System>, steps: seq<Step>, i: nat)
    requires ValidConfig(cfg) && IsRun(cfg, run, steps) && i < |run|
    ensures Inv(cfg, run[i])
  {
    hide Inv, ValidConfig, Next, Init;
    if i == 0 {
      InitInv(cfg, run[0]);
    } else {
      RunInv(cfg, run, steps, i - 1);
      StepInv(cfg, run[i - 1], steps[i - 1], run[i]);
    }
  }

  ghost predicate Reachable(cfg: Config, y: System)
  {
    exists run, steps :: IsRun(cfg, run, steps) && y == run[|run| - 1]
  }

  lemma InitReachable(cfg: Config, y: System)
    requires Init(cfg, y)
    ensures Reachable(cfg, y)
  {
    hide Init;
    var run, steps: seq<Step> := [y], [];
    assert IsRun(cfg, run, steps);
    assert y == run[|run| - 1];
  }

  lemma ReachableInv(cfg: Config, y: System)
    requires ValidConfig(cfg) && Reachable(cfg, y)
    ensures Inv(cfg, y)
  {
    hide Inv, ValidConfig;
    var run, steps :| IsRun(cfg, run, steps) && y == run[|run| - 1];
    RunInv(cfg, run, steps, |run| - 1);
  }

  // ---------------------------------------------------------------- exactly once, in order

  /** What the server has accepted is exactly the first recvSeq packets the client sealed. */
  lemma ClientToServerExactlyOnce(cfg: Config, y: System)
    requires ValidConfig(cfg) && Reachable(cfg, y)
    ensures y.s.recvSeq <= |y.c.sent| && y.s.accepted == y.c.sent[..y.s.recvSeq]
  {
    hide Reachable;
    ReachableInv(cfg, y);
  }

  /** What ReadPacket has returned, then the inbox, then the packet a dead link left behind or
      the reader is handing over, are exactly the first recvSeq packets the server sealed. At
      most one packet is outside the inbox, and recvSeq is the position the next header states. */
  lemma ServerToClientExactlyOnce(cfg: Config, y: System)
    requires ValidConfig(cfg) && Reachable(cfg, y)
    ensures y.c.inb.recvSeq <= |y.s.sent| && y.c.inb.All() == y.s.sent[..y.c.inb.recvSeq]
    ensures |y.c.inb.pending| + (if y.c.inb.holding.Some? then 1 else 0) <= 1
    ensures CanWriteHeader(y) ==> Cur(DoWriteHeader(y)).cHeader == Some(|y.c.inb.All()|)
  {
    hide Reachable;
    ReachableInv(cfg, y);
  }

  ghost function ReadTail(y: System): System
    decreases |y.c.inb.inbox| + |y.c.inb.pending|
  {
    if CanRead(y) then ReadTail(DoRead(y)) else y
  }

  lemma {:induction false} ReadTailIsReachable(cfg: Config, y: System)
    requires Reachable(cfg, y)
    ensures Reachable(cfg, ReadTail(y)) && ReadTail(y).s == y.s
    ensures ReadTail(y) == y.(c := ReadTail(y).c) && ReadTail(y).c == y.c.(inb := ReadTail(y).c.inb)
    ensures ReadTail(y).c.inb.recvSeq == y.c.inb.recvSeq && !CanRead(ReadTail(y))
    decreases |y.c.inb.inbox| + |y.c.inb.pending|
  {
    hide Reachable;
    if CanRead(y) {
      ReachableStep(cfg, y, Step.Read, DoRead(y));
      ReadTailIsReachable(cfg, DoRead(y));
    }
  }

  /** After the Conn has ended nothing received is lost: reading on returns all of it. */
  lemma TailIsReturned(cfg: Config, y: System)
    requires ValidConfig(cfg) && Reachable(cfg, y) && y.c.phase.Stopped?
    ensures y.c.inb.recvSeq <= |y.s.sent|
    ensures ReadTail(y).c.inb.returned == y.s.sent[..y.c.inb.recvSeq]
  {
    hide Reachable, ReadTail;
    ReadTailIsReachable(cfg, y);
    ReachableInv(cfg, ReadTail(y));
  }

  lemma ReachableStep(cfg: Config, y: System, step: Step, z: System)
    requires Reachable(cfg, y) && Next(cfg, y, step, z)
    ensures Reachable(cfg, z)
  {
    hide Next, Init;
    var run, steps :| IsRun(cfg, run, steps) && y == run[|run| - 1];
    var run', steps' := run + [z], steps + [step];
    assert IsRun(cfg, run', steps');
    assert z == run'[|run'| - 1];
  }

  // ---------------------------------------------------------------- callers

  /** When a caller's packet can be queued, and when a packet can be read: a live Conn with the
      backlog at or below the limit; the inbox at any time, pending only when every reader has
      stopped. */
  lemma CallersAreServed(cfg: Config, y: System, p: Packet)
    ensures (exists z :: Next(cfg, y, Write(p), z)) <==>
              && !y.c.ended && |p.payload| <= MAX_PAYLOAD
              && y.c.out.Unsent() <= y.c.out.ring.limit && y.c.out.Next() < MAX_SEQ
    ensures (exists z :: Next(cfg, y, Step.Read, z)) <==>
              y.c.inb.inbox != [] || (y.c.phase.Stopped? && y.c.inb.pending != [])
  {
    hide Entry, Size;
    if CanWrite(cfg, y, p) { assert Next(cfg, y, Write(p), DoWrite(cfg, y, p)); }
    if CanRead(y) { assert Next(cfg, y, Step.Read, DoRead(y)); }
  }

  /** When the watcher may look, and when it may probe: on a running link, and once it has seen that
      something was sealed. A probe is sealed and queued unless one waits. */
  lemma WatcherProbes(cfg: Config, y: System)
    ensures (exists z :: Next(cfg, y, Watch, z)) <==> y.c.phase.Running? && y.c.out.Next() > 0
    ensures (exists z :: Next(cfg, y, Step.Probe, z)) <==> y.c.phase.Running? && y.c.watched && y.c.out.Next() < MAX_SEQ
    ensures forall z :: Next(cfg, y, Step.Probe, z) ==>
              z.c.sent == y.c.sent + if y.c.out.lastProbe >= y.c.out.flushed then [] else [cfg.probe]
  {
    hide Entry, Size;
    if CanWatch(y) { assert Next(cfg, y, Watch, DoWatch(y)); }
    if CanProbe(y) { assert Next(cfg, y, Step.Probe, DoProbe(cfg, y)); }
  }

  /** A first exchange that fails ends the Dial, and with it the Conn; a later one is tried again. */
  lemma FirstExchangeDecides(cfg: Config, y: System, z: System)
    requires Next(cfg, y, Abandon, z) && !y.c.ended
    ensures z.c.ended <==> |y.links| == 1
    ensures if z.c.ended then z.c.phase.Stopped? else z.c.phase.Idle?
  {
  }

  // ---------------------------------------------------------------- no honest box is refused

  /** The client refuses an honest entry exactly when it exceeds the frame limit; only a catchup
      can carry one, because the server never writes such a frame. */
  lemma ClientRefusesOnlyOversized(cfg: Config, y: System)
    requires ValidConfig(cfg) && Reachable(cfg, y)
    ensures CanDeliverCatchup(y) ==>
              (DoDeliverCatchup(cfg, y).c.inb.broken <==> |y.c.phase.todo[0]| > MAX_FRAME_SIZE)
    ensures CanDeliverFrame(y) ==> !DoDeliverFrame(cfg, y).c.inb.broken
  {
    hide Reachable;
    ReachableInv(cfg, y);
    hide Framed, FrameBytes, ReadOne, Entry, Size, Ok, WriterOk, RecoveringOk, Exact, Sealed, Delivered;
    if CanDeliverCatchup(y) { DeliveredOk(cfg, y, y.c.phase.todo[0]); }
    if CanDeliverFrame(y) {
      FrameClientOk(y, 0);
      DeliveredOk(cfg, y, y.s.log[y.c.inb.recvSeq]);
    }
  }

  lemma BrokenOnlyByOversized(cfg: Config, y: System)
    requires ValidConfig(cfg) && Reachable(cfg, y) && y.c.inb.broken
    ensures exists i :: 0 <= i < |y.s.sent| && |y.s.sent[i].payload| > MAX_PAYLOAD
  {
    hide Reachable;
    ReachableInv(cfg, y);
    var i :| 0 <= i < |y.s.log| && |y.s.log[i]| > MAX_FRAME_SIZE;
    EntrySize(cfg.cipher, ServerToClient, i, y.s.sent[i]);
  }

  /** The server refuses an honest box exactly when the NEW_CLIENT link was taken over late:
      after the client had already recovered on another link and packets were accepted. */
  lemma ServerRefusesOnlyLate(cfg: Config, y: System)
    requires ValidConfig(cfg) && Reachable(cfg, y)
    ensures !y.s.refused && CanServerRead(y) ==> (DoServerRead(cfg, y).s.refused <==> Served(y).late)
    ensures !y.s.refused && CanAccept(y) ==> !DoAccept(cfg, y).s.refused
    ensures y.s.refused ==> y.links != [] && y.links[0].isNew && y.links[0].late
  {
    hide Reachable;
    ReachableInv(cfg, y);
    hide Framed, FrameBytes, ReadOne, Entry, Size, Ok, WriterOk, ReaderOk, RecoveringOk, Exact, ClientOk, Accept, Ideal;
    if CanServerRead(y) { ReadOutcome(cfg, y); }
    if CanAccept(y) {
      var l, pos := Served(y), y.s.recvSeq;
      assert l.server.todo[0] == Clog(y)[pos] == Entry(cfg.cipher, ClientToServer, pos, y.c.sent[pos]);
      AcceptOutcome(cfg, y.s, pos, y.c.sent[pos]);
    }
  }

  // ---------------------------------------------------------------- the recover exchange

  /** The client's reader runs beside its writer: it takes what the server has sent as soon as it is
      there, whatever the client has written. */
  lemma ReaderIsConcurrent(cfg: Config, y: System)
    requires OnLink(y) && y.c.phase.Recovering?
    ensures (exists z :: Next(cfg, y, ReadHeader, z)) <==> y.c.phase.peer.None? && Cur(y).sHeader.Some?
    ensures (exists z :: Next(cfg, y, ReadCatchup, z)) <==>
              y.c.phase.peer.Some? && y.c.phase.theirs.None? && Cur(y).sCatchup.Some?
  {
    if CanReadHeader(y) { assert Next(cfg, y, ReadHeader, DoReadHeader(y)); }
    if CanReadCatchup(y) { assert Next(cfg, y, ReadCatchup, DoReadCatchup(y)); }
  }

  /** The exchange ends the Conn with ErrReplayExceeded here or at its next step. */
  ghost predicate Refuses(y: System)
    requires AtSnapshot(y)
  {
    Since(y).None? || !Fits(Since(y).value)
  }

  lemma RefusesIsAStep(cfg: Config, y: System)
    requires ValidConfig(cfg) && Reachable(cfg, y) && AtSnapshot(y)
    ensures Refuses(y) <==> CanRefuse(y) || (CanSnapshot(y) && CanRefuse(DoSnapshot(y)))
  {
    hide Reachable;
    ReachableInv(cfg, y);
    hide Framed, FrameBytes, ReadOne, Entry, WriterOk, ReaderOk, Exact, Sealed, Size, Int32, Fits, Ok, LinkOk;
  }

  /** When the client takes its snapshot, an honest peer is refused exactly when int32 cannot
      state its position, or more than its allowance was written after it, or what was sealed
      after it does not fit one message. Otherwise the position found is the true one and the
      catchup is everything sealed after it. */
  lemma RefusedOnlyWhenLost(cfg: Config, y: System)
    requires ValidConfig(cfg) && Reachable(cfg, y) && AtSnapshot(y)
    ensures var p, o := Cur(y).sPos, y.c.out;
            && p <= y.s.recvSeq <= o.Next() && o.flushed <= o.Next()
            && (Refuses(y) <==>
                  || p > MAX_INT32
                  || (p < o.flushed && Size(o.ring.log, p, o.flushed) > o.ring.Allowance(p))
                  || CatchupSize(o.ring.log[p..]) > MAX_MESSAGE_SIZE)
            && (Since(y).Some? ==> y.c.phase.peer.value == p && Since(y).value == o.ring.log[p..])
  {
    hide Reachable;
    ReachableInv(cfg, y);
    hide Framed, FrameBytes, ReadOne, Entry, WriterOk, ReaderOk, Exact, Sealed, Size, Int32, CatchupSize;
    StatedPosition(y.c.out, Cur(y).sPos);
  }

  /** Between the snapshot and the commit callers keep writing and nothing is trimmed: every
      entry the commit sums is retained, and what was not yet replayed starts at the snapshot. */
  lemma SnapshotHolds(cfg: Config, y: System)
    requires ValidConfig(cfg) && Reachable(cfg, y) && y.c.phase.Recovering? && y.c.phase.snap.Some?
    ensures var o, snap := y.c.out, y.c.phase.snap.value;
            && o.ring.first <= o.flushed <= snap.next <= o.Next()
            && y.c.phase.peer.Some? && o.ring.first <= y.c.phase.peer.value <= snap.next
            && snap.ours == o.ring.log[y.c.phase.peer.value..snap.next]
            && Size(o.ring.log, o.flushed, o.Next())
               == Size(o.ring.log, o.flushed, snap.next) + Size(o.ring.log, snap.next, o.Next())
  {
    hide Reachable;
    ReachableInv(cfg, y);
    SizeSplit(y.c.out.ring.log, y.c.out.flushed, y.c.phase.snap.value.next, y.c.out.Next());
  }

  /** The header a client sends is never wrapped. Everything the server may still ask for lies at or
      after the hold, and the hold is released only once the server has accepted the catchup. */
  lemma HoldEndsAfterCatchup(cfg: Config, y: System)
    requires ValidConfig(cfg) && Reachable(cfg, y)
    ensures forall i :: 0 <= i < |y.links| && y.links[i].cHeader.Some? ==> 0 <= y.links[i].cHeader.value <= MAX_INT32
    ensures y.c.out.ring.held ==> y.c.out.ring.hold <= y.s.recvSeq
    ensures CanReleaseHold(y) && !Cur(y).isNew ==> y.s.recvSeq >= Cur(y).cStart
  {
    hide Reachable;
    ReachableInv(cfg, y);
    hide Framed, FrameBytes, Entry, Size, Ok, WriterOk, RecoveringOk, Exact, Sealed;
  }

  lemma HoldWithin(cfg: Config, y: System)
    requires Inv(cfg, y)
    ensures HoldOk(y.c.out.ring, y.s.recvSeq) && y.c.out.ring.limit == cfg.limit
  {
    hide Ok, ClientOk, LogsOk, LinksOk, ServerOk, CurOk, Exact;
  }

  /** While a client runs a link: the ring is held exactly on a recovered link on which the server has
      not been heard, and then from the position that server stated. */
  lemma HeldUntilHeard(cfg: Config, y: System)
    requires ValidConfig(cfg) && Reachable(cfg, y) && y.c.phase.Running?
    ensures OnLink(y) && (y.c.out.ring.held <==> !Cur(y).isNew && !y.c.phase.released)
    ensures y.c.out.ring.held ==> y.c.out.ring.hold == Cur(y).sPos <= y.s.recvSeq
  {
    hide Reachable, Inv;
    ReachableInv(cfg, y);
    OutboundOk(cfg, y);
    HoldWithin(cfg, y);
    hide Framed, Size, Ok, WriterOk, ReaderOk;
  }

  /** So what the server may ask for again is there: until it is heard, any position from the one it
      stated on is retained with up to two limits written after it. */
  lemma UnheardIsRetained(cfg: Config, y: System, p: nat)
    requires ValidConfig(cfg) && Reachable(cfg, y)
    requires OnLink(y) && y.c.phase.Running? && !Cur(y).isNew && !y.c.phase.released
    requires Cur(y).sPos <= p <= y.c.out.Next()
    requires p >= y.c.out.flushed
             || (y.c.out.flushed <= y.c.out.Next() && Size(Clog(y), p, y.c.out.flushed) <= 2 * cfg.limit)
    ensures y.c.out.ring.Since(p, y.c.out.Next()) == Some(Clog(y)[p..])
  {
    hide Reachable, Inv, Size, ClientOk;
    HeldUntilHeard(cfg, y);
    ReachableInv(cfg, y);
    OutboundOk(cfg, y);
    HoldWithin(cfg, y);
    ReplayWindow(y.c.out, p);
  }

  /** A hold outlives its link: only another exchange changes it, and only a frame of the server's
      ends it. */
  lemma HoldOutlivesLink(cfg: Config, y: System, step: Step, z: System)
    requires Next(cfg, y, step, z) && y.c.out.ring.held
    ensures || (z.c.out.ring.held && z.c.out.ring.hold == y.c.out.ring.hold)
            || (y.c.phase.Recovering? && z.c.phase.Running?)
            || FrameReady(y)
  {
    hide Entry, IsBatch, ReadOne, Framed, FrameBytes, Fits, Accept, Inbound.Deliver, Window.TrimPoint;
  }

  /** Once the server is heard, written bytes are back within one limit. */
  lemma HeardIsTrimmed(cfg: Config, y: System)
    requires ValidConfig(cfg) && Reachable(cfg, y)
    requires OnLink(y) && y.c.phase.Running? && (Cur(y).isNew || y.c.phase.released)
    ensures !y.c.out.ring.held
    ensures y.c.out.ring.first <= y.c.out.flushed <= y.c.out.Next()
    ensures Size(Clog(y), y.c.out.ring.first, y.c.out.flushed) <= cfg.limit
  {
    hide Reachable, Inv, Size, ClientOk;
    HeldUntilHeard(cfg, y);
    ReachableInv(cfg, y);
    OutboundOk(cfg, y);
    HoldWithin(cfg, y);
  }

  /** Each link carries, from where the exchange left the client, each entry once and in order,
      whatever the batches and wherever the writes were cut. */
  lemma LinkCarriesLog(cfg: Config, y: System, i: nat)
    requires ValidConfig(cfg) && Reachable(cfg, y) && i < |y.links|
    ensures var l := y.links[i];
            && l.cStart <= |Clog(y)| && l.cWire <= Framed(Clog(y)[l.cStart..])
            && (l.cCatchup.Some? ==> l.sPos <= l.cStart && l.cCatchup.value == Clog(y)[l.sPos..l.cStart])
  {
    hide Reachable;
    ReachableInv(cfg, y);
  }

  // ---------------------------------------------------------------- memory and probes

  /** Written bytes stay within one limit, two while held; the backlog within the limit, one
      packet and one probe; the ring within three limits and two entries. */
  lemma MemoryBounded(cfg: Config, y: System)
    requires ValidConfig(cfg) && Reachable(cfg, y)
    ensures var o := y.c.out;
            && o.ring.first <= o.flushed <= o.Next()
            && Size(o.ring.log, o.ring.first, o.flushed) <= (if o.ring.held then 2 else 1) * cfg.limit
            && o.Unsent() <= cfg.limit + MAX_FRAME_SIZE + QueuedProbe(o)
            && Size(o.ring.log, o.ring.first, o.Next()) <= 3 * cfg.limit + 2 * MAX_FRAME_SIZE
  {
    hide Reachable;
    ReachableInv(cfg, y);
    RingBounded(y.c.out);
  }

  /** Sequence 0 is never a probe, and at most one probe is at or after `flushed`. */
  lemma ProbesDisciplined(cfg: Config, y: System)
    requires ValidConfig(cfg) && Reachable(cfg, y)
    ensures 0 !in y.c.out.probes
    ensures var o := y.c.out;
            forall p, q :: p in o.probes && q in o.probes && p >= o.flushed && q >= o.flushed ==> p == q
  {
    hide Reachable;
    ReachableInv(cfg, y);
  }

  /** The latest probe is not yet flushed, and no byte of its frame is in what the link has
      carried. */
  ghost predicate ProbeUnsent(o: Outbound, l: Link)
  {
    && l.cStart <= o.flushed <= o.lastProbe < o.Next()
    && |l.cWire| <= |Framed(o.ring.log[l.cStart..o.lastProbe])|
  }

  lemma ProbeBehindAtWriter(o: Outbound, l: Link, w: WriterState)
    requires o.flushed <= o.Next() && WriterOk(o, l, w) && w.Sending? && o.lastProbe < o.Next()
    ensures ProbeBehind(o.lastProbe, w.base + w.sent, w.probeAt, w.written) <==> ProbeUnsent(o, l)
  {
    hide FrameBytes;
    ProbeBehindMeans(o.ring.log, w.base, w.sent, o.lastProbe, w.written);
    if o.lastProbe >= o.flushed { FramedSplit(o.ring.log, l.cStart, w.base, o.lastProbe); }
  }

  lemma OutboundOk(cfg: Config, y: System)
    requires Inv(cfg, y)
    ensures Ok(y.c.out) && ClientOk(y.c.out, y.c.inb.recvSeq, y.s.log, y.links, y.c.phase)
  {
    hide Ok, ClientOk, LogsOk, LinksOk, ServerOk, CurOk, Exact;
  }

  /** In the middle of any pass, probeBehind is true exactly when the probe is still unsent,
      whatever was queued since the pass began. */
  lemma ProbeBehindIsExact(cfg: Config, y: System)
    requires ValidConfig(cfg) && Reachable(cfg, y) && y.c.phase.Running? && y.c.phase.writer.Sending?
    ensures var w := y.c.phase.writer;
            OnLink(y) &&
            (ProbeBehind(y.c.out.lastProbe, w.base + w.sent, w.probeAt, w.written) <==> ProbeUnsent(y.c.out, Cur(y)))
  {
    hide Reachable, Inv, WriterOk, ReaderOk, OnlyOldDropped, WrittenBounded, BacklogBounded, ProbeBehind, ProbeUnsent;
    ReachableInv(cfg, y);
    OutboundOk(cfg, y);
    ProbeBehindAtWriter(y.c.out, Cur(y), y.c.phase.writer);
  }
}
