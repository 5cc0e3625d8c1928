/** A committed link that stays up delivers everything: whichever of the steps the two sides owe
    are taken, in whatever order, a measure goes down, and one can be taken until all has arrived. */
module Flow {
  import opened Bytes
  import opened Frames
  import opened Messages
  import opened Nonces
  import opened Packets
  import opened Sealing
  import opened Outbound
  import opened Inbound
  import opened Writer
  import opened Protocol
  import opened Invariant
  import opened ClientSteps
  import opened ServerSteps
  import opened Safety
  import opened Paths

  /** The client runs a link, and the server, having decoded or about to decode its catchup, serves
      the same one; neither has given up on it, and what the server still has to deliver fits
      frames. */
  ghost predicate Flowing(y: System)
  {
    && y.c.phase.Running? && !y.c.ended && !y.s.refused
    && OnLink(y) && y.s.cur == Some(|y.links| - 1) && !Cur(y).late
    && (Cur(y).server.Listening? || Cur(y).server.Accepting?
        || (Cur(y).server.Streaming? && Cur(y).server.reading && Cur(y).server.writing))
    && y.c.out.flushed <= y.c.out.Next()
    && y.c.inb.recvSeq <= |y.s.log| && Framable(y.s.log[y.c.inb.recvSeq..])
  }

  /** The steps of the reader, the writer and the caller that reads; of the server's two loops, whose
      writes are whole while the link is up. */
  ghost predicate Owed(y: System, step: Step)
  {
    match step
    case Read => true
    case HandPending => true
    case DeliverCatchup => true
    case ReleaseHold => true
    case DeliverFrame => true
    case HandOver => true
    case TakeBatch(_) => true
    case SendPart(_) => true
    case FlushBatch => true
    case Listen => true
    case AcceptNext => true
    case StartStream => true
    case ServerRead => true
    case ServerWrite(n) => CanServerWrite(y, n) && n == |FrameBytes(y.s.log[Served(y).server.next])|
    case _ => false
  }

  /** The server has accepted all the client sealed, and ReadPacket returned all the server did. */
  ghost predicate Arrived(y: System)
  {
    y.s.accepted == y.c.sent && y.c.inb.returned == y.s.sent
  }

  // ---------------------------------------------------------------- what is left

  function Minus(a: nat, b: nat): nat { if a > b then a - b else 0 }

  /** Bytes of the backlog not yet on the link. */
  function BytesLeft(o: Outbound, w: WriterState): nat
    requires o.flushed <= o.Next()
  {
    Minus(|Framed(o.ring.log[o.flushed..])|, if w.Sending? then w.written else 0)
  }

  function WriterLeft(o: Outbound, w: WriterState): nat
    requires o.flushed <= o.Next()
  {
    BytesLeft(o, w) + 2 * (o.Next() - o.flushed) + (if w.Parked? then 1 else 0)
  }

  function ReaderLeft(i: Inbound, sealed: nat, released: bool): nat
  {
    3 * Minus(sealed, i.recvSeq) + 2 * (|i.pending| + if i.holding.Some? then 1 else 0) + |i.inbox|
    + if released then 0 else 1
  }

  function ServerLeft(ph: ServerPhase, sealed: nat): nat
  {
    match ph
    case Listening(next) => 2 + Minus(sealed, next)
    case Accepting(_, next) => 1 + Minus(sealed, next)
    case Streaming(_, _, next, _, _) => Minus(sealed, next)
    case _ => 0
  }

  /** Accepting one entry counts for more than the echo it may add. */
  ghost function Left(y: System): nat
    requires Flowing(y)
  {
    5 * Minus(y.c.out.Next(), y.s.recvSeq)
    + WriterLeft(y.c.out, y.c.phase.writer)
    + ReaderLeft(y.c.inb, |y.s.log|, y.c.phase.released)
    + ServerLeft(Cur(y).server, |y.s.log|)
  }

  // ---------------------------------------------------------------- each owed step counts

  /** What every owed step keeps. */
  ghost predicate Onward(y: System, z: System)
  {
    z.c.sent == y.c.sent && y.s.sent <= z.s.sent
  }

  ghost predicate Counts(y: System, z: System)
    requires Flowing(y)
  {
    Flowing(z) && Left(z) < Left(y) && Onward(y, z)
  }

  lemma ReadCounts(y: System)
    requires Flowing(y) && CanRead(y)
    ensures Counts(y, DoRead(y))
  {
    hide Framable, WriterLeft, ServerLeft;
  }

  lemma HandPendingCounts(y: System)
    requires Flowing(y) && CanHandPending(y)
    ensures Counts(y, DoHandPending(y))
  {
    hide Framable, WriterLeft, ServerLeft;
  }

  lemma HandOverCounts(y: System)
    requires Flowing(y) && CanHandOver(y)
    ensures Counts(y, DoHandOver(y))
  {
    hide Framable, WriterLeft, ServerLeft;
  }

  lemma ReleaseHoldCounts(cfg: Config, y: System)
    requires Inv(cfg, y) && Flowing(y) && CanReleaseHold(y)
    ensures Counts(y, DoReleaseHold(y))
  {
    hide Inv, Framable, ServerLeft, FrameReady, Framed, Window.TrimPoint;
  }

  /** Delivering the entry at the client's own position, which fits a frame. */
  lemma DeliveryCounts(cfg: Config, y: System, todo: seq<Bytes>, off: nat)
    requires ValidConfig(cfg) && Inv(cfg, y) && Flowing(y) && ReaderFree(y) && y.c.inb.recvSeq < |y.s.log|
    ensures var b := y.s.log[y.c.inb.recvSeq];
            var c := Delivered(cfg, y.c, b);
            && !c.inb.broken && c.inb.recvSeq == y.c.inb.recvSeq + 1
            && Counts(y, y.(c := c.(phase := y.c.phase.(todo := todo, off := off))))
  {
    hide Inv, WriterLeft, ServerLeft, Inbound.Deliver;
    var k := y.c.inb.recvSeq;
    var b := y.s.log[k];
    assert b == y.s.log[k..][0] && y.s.log[k..][1..] == y.s.log[k + 1..];
    DeliveredOk(cfg, y, b);
    DeliverKeeps(cfg, y.c.inb, b);
  }

  lemma DeliverKeeps(cfg: Config, i: Inbound, b: Bytes)
    ensures var n := i.Deliver(cfg.cipher, b);
            n.pending == i.pending && n.inbox == i.inbox && n.returned == i.returned
  {
    hide Unseal;
  }

  lemma ReaderMeans(cfg: Config, y: System)
    requires Inv(cfg, y) && Flowing(y)
    ensures var l, r := Cur(y), y.c.inb.recvSeq;
            && |y.s.log| == |y.s.sent| && l.sStart <= |y.s.log|
            && (if r < l.sStart then y.c.phase.todo == y.s.log[r..l.sStart]
                else y.c.phase.todo == [] && y.c.phase.off == |Framed(y.s.log[l.sStart..r])| <= |l.sWire|)
  {
    hide Framed, LinkOk, ServerOk, CurOk, Ok, Entry, WriterOk;
  }

  lemma DeliverCatchupCounts(cfg: Config, y: System)
    requires ValidConfig(cfg) && Inv(cfg, y) && Flowing(y) && CanDeliverCatchup(y)
    ensures Counts(y, DoDeliverCatchup(cfg, y))
  {
    hide Inv, ValidConfig, Framable, Delivered, Counts, Framed;
    ReaderMeans(cfg, y);
    DeliveryCounts(cfg, y, y.c.phase.todo[1..], y.c.phase.off);
  }

  lemma DeliverFrameCounts(cfg: Config, y: System)
    requires ValidConfig(cfg) && Inv(cfg, y) && Flowing(y) && CanDeliverFrame(y)
    ensures Counts(y, DoDeliverFrame(cfg, y))
  {
    hide Inv, ValidConfig, Framable, Delivered, Counts, Framed, FrameBytes, ReadOne;
    LinksAndClientOk(cfg, y);
    FrameClientOk(y, 0);
    var f := ReadOne(Cur(y).sWire[y.c.phase.off..]).body;
    DeliveryCounts(cfg, y, y.c.phase.todo, y.c.phase.off + |FrameBytes(f)|);
  }

  lemma LinksAndClientOk(cfg: Config, y: System)
    requires Inv(cfg, y)
    ensures LinksOk(Clog(y), y.s.log, y.s.recvSeq, y.links)
    ensures ClientOk(y.c.out, y.c.inb.recvSeq, y.s.log, y.links, y.c.phase)
    ensures |Clog(y)| == |y.c.sent| && |y.s.log| == |y.s.sent| && y.s.recvSeq <= |y.c.sent|
    ensures y.s.accepted == y.c.sent[..y.s.recvSeq] && (!y.c.ended ==> !y.c.inb.broken)
    ensures Exact(y.c.inb, y.s.sent)
  {
    hide LinksOk, ClientOk, Entry, Ok, Exact;
  }

  lemma WriterMeans(cfg: Config, y: System)
    requires Inv(cfg, y) && Flowing(y)
    ensures WriterOk(y.c.out, Cur(y), y.c.phase.writer)
  {
    hide Framed, LinkOk, ServerOk, CurOk, Ok, Entry, WriterOk, ReaderOk, Exact;
  }

  lemma TakeCounts(y: System, sent: nat)
    requires Flowing(y) && CanTake(y, sent)
    ensures Counts(y, DoTake(y, sent))
  {
    hide Framable, ServerLeft, Framed, IsBatch;
  }

  lemma SendCounts(cfg: Config, y: System, n: nat)
    requires Inv(cfg, y) && Flowing(y) && CanSend(y, n)
    ensures Counts(y, DoSend(y, n))
  {
    hide Inv, Framable, ServerLeft, Framed, ReaderLeft;
    WriterMeans(cfg, y);
    BatchWithin(y.c.out, y.c.phase.writer, Cur(y));
  }

  /** The batch is the front of the backlog. */
  lemma BatchWithin(o: Outbound, w: WriterState, l: Link)
    requires o.flushed <= o.Next() && WriterOk(o, l, w) && w.Sending?
    ensures o.flushed + w.sent <= o.Next() && w.sent > 0
    ensures |Framed(o.ring.log[o.flushed..])| == |w.buf| + |Framed(o.ring.log[o.flushed + w.sent..])|
  {
    hide Framed;
    FramedSplit(o.ring.log, o.flushed, o.flushed + w.sent, o.Next());
    assert o.ring.log[o.flushed..] == o.ring.log[o.flushed..o.Next()];
    assert o.ring.log[o.flushed + w.sent..] == o.ring.log[o.flushed + w.sent..o.Next()];
  }

  lemma FlushCounts(cfg: Config, y: System)
    requires Inv(cfg, y) && Flowing(y) && CanFlush(y)
    ensures Counts(y, DoFlush(y))
  {
    hide Inv, Framable, ServerLeft, Framed, ReaderLeft, Window.TrimPoint;
    WriterMeans(cfg, y);
    BatchWithin(y.c.out, y.c.phase.writer, Cur(y));
  }

  lemma ListenCounts(y: System)
    requires Flowing(y) && CanListen(y)
    ensures Counts(y, DoListen(y))
  {
    hide Framable, WriterLeft, ReaderLeft;
  }

  lemma StreamCounts(y: System)
    requires Flowing(y) && CanStream(y)
    ensures Counts(y, DoStream(y))
  {
    hide Framable, WriterLeft, ReaderLeft;
  }

  lemma ServerWriteCounts(y: System, n: nat)
    requires Flowing(y) && CanServerWrite(y, n) && n == |FrameBytes(y.s.log[Served(y).server.next])|
    ensures Counts(y, DoServerWrite(y, n))
  {
    hide Framable, WriterLeft, ReaderLeft, FrameBytes;
  }

  /** An accepted entry, with the echo it may add. */
  lemma AcceptedCounts(cfg: Config, y: System, p: Packet, ph: ServerPhase)
    requires ValidConfig(cfg) && Inv(cfg, y) && Flowing(y) && y.s.recvSeq < y.c.out.Next()
    requires (Cur(y).server.Accepting? && ph.Accepting? && ph.next == Cur(y).server.next)
             || (Cur(y).server.Streaming? && ph.Streaming? && ph.next == Cur(y).server.next && ph.reading && ph.writing)
    ensures var z := SetServed(y, Served(y).(server := ph)).(s := Echoed(cfg, Opened(y.s, p), p));
            Counts(y, z)
  {
    hide Inv, WriterLeft, Entry, Ideal;
    EntrySize(cfg.cipher, ServerToClient, |y.s.log|, Packet(KEEP_ALIVE, []));
    var s := Echoed(cfg, Opened(y.s, p), p);
    var k := y.c.inb.recvSeq;
    forall i | 0 <= i < |s.log[k..]| ensures |s.log[k..][i]| <= MAX_FRAME_SIZE {
      if k + i < |y.s.log| { assert s.log[k..][i] == y.s.log[k..][i]; }
    }
  }

  lemma AcceptCounts(cfg: Config, y: System)
    requires ValidConfig(cfg) && Inv(cfg, y) && Flowing(y) && CanAccept(y)
    ensures Counts(y, DoAccept(cfg, y))
  {
    hide Inv, ValidConfig, Accept, Entry, Counts, Framable, Left, Echoed, Opened;
    AcceptedEntry(cfg, y);
    var pos, l := y.s.recvSeq, Served(y);
    IdealOf(cfg);
    AcceptOutcome(cfg, y.s, pos, y.c.sent[pos]);
    EchoMoves(cfg, y.s, y.c.sent[pos]);
    AcceptedCounts(cfg, y, y.c.sent[pos], l.server.(todo := l.server.todo[1..]));
  }

  lemma IdealOf(cfg: Config)
    requires ValidConfig(cfg)
    ensures Ideal(cfg.cipher)
  {
    hide Ideal;
  }

  lemma EchoMoves(cfg: Config, s: Server, p: Packet)
    ensures Echoed(cfg, Opened(s, p), p).recvSeq == s.recvSeq + 1
  {
  }

  lemma AcceptedEntry(cfg: Config, y: System)
    requires Inv(cfg, y) && CanAccept(y) && !y.s.refused
    ensures y.s.recvSeq == y.s.count < |y.c.sent| == y.c.out.Next() && y.s.count <= MAX_SEQ
    ensures Served(y).server.todo[0] == Entry(cfg.cipher, ClientToServer, y.s.recvSeq, y.c.sent[y.s.recvSeq])
  {
    hide Framed, LinkOk, Ok, Exact, ClientOk, Entry;
  }

  lemma ServerReadCounts(cfg: Config, y: System)
    requires ValidConfig(cfg) && Inv(cfg, y) && Flowing(y) && CanServerRead(y)
    ensures Counts(y, DoServerRead(cfg, y))
  {
    hide Inv, ValidConfig, Accept, Entry, Counts, Framable, Framed, Left, Echoed, Opened, Refused, ReadOne, FrameBytes,
         LinksOk, ClientOk, Exact;
    ReadOutcome(cfg, y);
    ReadPosition(cfg, y);
    LinksAndClientOk(cfg, y);
    var p, l := y.c.sent[y.s.recvSeq], Served(y);
    EchoMoves(cfg, y.s, p);
    var ph := l.server.(read := l.server.read + 1, off := l.server.off + |FrameBytes(ServerFrame(y))|);
    assert DoServerRead(cfg, y) == SetServed(y, l.(server := ph)).(s := Echoed(cfg, Opened(y.s, p), p));
    AcceptedCounts(cfg, y, p, ph);
  }

  /** Every owed step takes something off what is left. */
  lemma OwedStepCounts(cfg: Config, y: System, step: Step, z: System)
    requires ValidConfig(cfg) && Inv(cfg, y) && Flowing(y) && Owed(y, step) && Next(cfg, y, step, z)
    ensures Inv(cfg, z) && Counts(y, z)
  {
    hide Inv, ValidConfig, Flowing, Counts;
    StepInv(cfg, y, step, z);
    match step
    case Read => ReadCounts(y);
    case HandPending => HandPendingCounts(y);
    case DeliverCatchup => DeliverCatchupCounts(cfg, y);
    case ReleaseHold => ReleaseHoldCounts(cfg, y);
    case DeliverFrame => DeliverFrameCounts(cfg, y);
    case HandOver => HandOverCounts(y);
    case TakeBatch(sent) => TakeCounts(y, sent);
    case SendPart(n) => SendCounts(cfg, y, n);
    case FlushBatch => FlushCounts(cfg, y);
    case Listen => ListenCounts(y);
    case AcceptNext => AcceptCounts(cfg, y);
    case StartStream => StreamCounts(y);
    case ServerRead => ServerReadCounts(cfg, y);
    case ServerWrite(n) => ServerWriteCounts(y, n);
    case _ => assert false;
  }

  // ---------------------------------------------------------------- something is always owed

  ghost predicate SomethingOwed(cfg: Config, y: System)
  {
    exists step, z :: Owed(y, step) && Next(cfg, y, step, z)
  }

  lemma Owing(cfg: Config, y: System, step: Step, z: System)
    requires Owed(y, step) && Next(cfg, y, step, z)
    ensures SomethingOwed(cfg, y)
  {
    hide Owed, Next;
  }

  /** The client's reader and its caller have nothing to do. */
  ghost predicate ReaderIdle(y: System)
  {
    && y.c.inb.inbox == [] && y.c.inb.pending == [] && y.c.inb.holding.None?
    && y.c.phase.Running? && y.c.phase.todo == [] && OnLink(y) && !FrameReady(y)
  }

  lemma PacketOwed(cfg: Config, y: System)
    requires Inv(cfg, y) && Flowing(y)
    requires y.c.inb.inbox != [] || y.c.inb.pending != [] || y.c.inb.holding.Some?
    ensures SomethingOwed(cfg, y)
  {
    hide Inv, Framable, SomethingOwed, FrameBytes, Framed;
    if y.c.inb.inbox != [] {
      Owing(cfg, y, Step.Read, DoRead(y));
    } else if y.c.inb.holding.Some? {
      Owing(cfg, y, Step.HandOver, DoHandOver(y));
    } else {
      Owing(cfg, y, Step.HandPending, DoHandPending(y));
    }
  }

  lemma EntryOwed(cfg: Config, y: System)
    requires Inv(cfg, y) && Flowing(y) && ReaderFree(y) && (y.c.phase.todo != [] || FrameReady(y))
    ensures SomethingOwed(cfg, y)
  {
    hide Inv, Framable, SomethingOwed, FrameBytes, ReadOne, Framed;
    if y.c.phase.todo != [] {
      Owing(cfg, y, DeliverCatchup, DoDeliverCatchup(cfg, y));
    } else if !y.c.phase.released {
      Owing(cfg, y, Step.ReleaseHold, DoReleaseHold(y));
    } else {
      Owing(cfg, y, DeliverFrame, DoDeliverFrame(cfg, y));
    }
  }

  lemma ReaderOwes(cfg: Config, y: System)
    requires Inv(cfg, y) && Flowing(y) && !ReaderIdle(y)
    ensures SomethingOwed(cfg, y)
  {
    hide Inv, Framable, SomethingOwed, FrameBytes, ReadOne, Framed, LinksOk, ClientOk, Exact;
    LinksAndClientOk(cfg, y);
    if y.c.inb.inbox != [] || y.c.inb.pending != [] || y.c.inb.holding.Some? {
      PacketOwed(cfg, y);
    } else {
      EntryOwed(cfg, y);
    }
  }

  /** The writer has nothing to send and has flushed it all. */
  ghost predicate WriterIdle(y: System)
  {
    y.c.phase.Running? && y.c.phase.writer.Parked? && y.c.out.flushed == y.c.out.Next()
  }

  lemma WriterOwes(cfg: Config, y: System)
    requires Inv(cfg, y) && Flowing(y) && !WriterIdle(y)
    ensures SomethingOwed(cfg, y)
  {
    hide Inv, Framable, SomethingOwed, Framed;
    WriterMeans(cfg, y);
    var o, w := y.c.out, y.c.phase.writer;
    if w.Parked? {
      var backlog := o.ring.log[o.flushed..];
      var batch := BatchExists(backlog, 1);
      Owing(cfg, y, TakeBatch(batch), DoTake(y, batch));
    } else if w.written < |w.buf| {
      Owing(cfg, y, SendPart(1), DoSend(y, 1));
    } else {
      Owing(cfg, y, FlushBatch, DoFlush(y));
    }
  }

  lemma ServerMeans(cfg: Config, y: System)
    requires Inv(cfg, y) && Flowing(y)
    ensures var l := Cur(y);
            && ServerPhaseOk(Clog(y), y.s.log, y.s.recvSeq, l)
            && (l.server.Listening? ==> l.cCatchup.Some?)
            && (l.server.Streaming? ==> l.server.read == y.s.recvSeq)
  {
    hide Framed, FromServerOk, Ok, Exact, Entry, WriterOk, ReaderOk;
  }

  lemma CatchupOwed(cfg: Config, y: System)
    requires Inv(cfg, y) && Flowing(y) && !Cur(y).server.Streaming?
    ensures SomethingOwed(cfg, y)
  {
    hide Inv, SomethingOwed, Framable, FrameBytes, ReadOne, Framed;
    ServerMeans(cfg, y);
    if Served(y).server.Listening? {
      Owing(cfg, y, Listen, DoListen(y));
    } else if Served(y).server.todo != [] {
      Owing(cfg, y, AcceptNext, DoAccept(cfg, y));
    } else {
      Owing(cfg, y, StartStream, DoStream(y));
    }
  }

  /** With reader and writer idle, all of the client's log is on the link, and the reader has read
      all the server wrote. */
  lemma ServerOwes(cfg: Config, y: System)
    requires ValidConfig(cfg) && Inv(cfg, y) && Flowing(y) && ReaderIdle(y) && WriterIdle(y) && !Arrived(y)
    requires Cur(y).server.Streaming?
    ensures SomethingOwed(cfg, y)
  {
    hide Inv, ValidConfig, SomethingOwed, Framable, Framed, FrameBytes, ReadOne, Arrived, WriterIdle, ReaderIdle;
    var l := Served(y);
    if l.server.next < |y.s.log| {
      NextFits(cfg, y);
      var n := |FrameBytes(y.s.log[l.server.next])|;
      Owing(cfg, y, ServerWrite(n), DoServerWrite(y, n));
    } else {
      ServerWithin(cfg, y);
      AllReceived(cfg, y);
      NextClientFrameReady(cfg, y);
      Owing(cfg, y, ServerRead, DoServerRead(cfg, y));
    }
  }

  lemma ServerWithin(cfg: Config, y: System)
    requires Inv(cfg, y) && Flowing(y) && Cur(y).server.Streaming?
    ensures Cur(y).server.next <= |y.s.log|
  {
    hide Inv, Framed;
    ServerMeans(cfg, y);
  }

  /** What the server writes next is not yet received, so it fits a frame. */
  lemma NextFits(cfg: Config, y: System)
    requires Inv(cfg, y) && Flowing(y) && Served(y).server.Streaming? && Served(y).server.next < |y.s.log|
    ensures |y.s.log[Served(y).server.next]| <= MAX_FRAME_SIZE
  {
    hide Inv, FrameBytes, ReadOne, Framed;
    ServerMeans(cfg, y);
    ReaderMeans(cfg, y);
    var l, r := Served(y), y.c.inb.recvSeq;
    if r > l.server.next { LongerStream(y.s.log, l.sStart, l.server.next, r); }
    assert y.s.log[r..][l.server.next - r] == y.s.log[l.server.next];
  }

  /** An idle reader has received all that is on the link. */
  lemma AllReceived(cfg: Config, y: System)
    requires Inv(cfg, y) && Flowing(y) && ReaderIdle(y) && Served(y).server.Streaming?
    requires Served(y).server.next == |y.s.log|
    ensures y.c.inb.recvSeq == |y.s.sent| && y.c.inb.returned == y.s.sent
  {
    hide Inv, FrameBytes, ReadOne, Framed;
    ServerMeans(cfg, y);
    ReaderMeans(cfg, y);
    LinksAndClientOk(cfg, y);
    hide LinksOk, ClientOk;
    var l, r, log := Served(y), y.c.inb.recvSeq, y.s.log;
    if r < |log| {
      assert log[r..][0] == log[r] && log[l.sStart..l.server.next] == log[l.sStart..];
      FrameStarts(log, l.sStart, r, l.sWire);
    }
  }

  /** On a link that carries all frames from `start` on, the next one can be read. */
  lemma FrameStarts(log: seq<Bytes>, start: nat, k: nat, wire: Bytes)
    requires start <= k < |log| && wire == Framed(log[start..]) && |log[k]| <= MAX_FRAME_SIZE
    ensures |Framed(log[start..k])| <= |wire| && ReadOne(wire[|Framed(log[start..k])|..]).Frame?
  {
    hide ReadOne, FrameBytes;
    assert log[start..] == log[start..k] + log[k..];
    StreamConcat(log[start..k], log[k..]);
    var seen := wire[|Framed(log[start..k])|..];
    assert seen == Framed(log[k..]);
    ReadOneOfPrefix(log[k], Framed(log[k + 1..]), seen);
    assert log[k..][1..] == log[k + 1..];
  }

  /** Everything received and nothing to read for the server: then everything is accepted. */
  lemma NextClientFrameReady(cfg: Config, y: System)
    requires ValidConfig(cfg) && Inv(cfg, y) && Flowing(y) && WriterIdle(y) && Served(y).server.Streaming?
    requires y.c.inb.returned == y.s.sent && !Arrived(y)
    ensures CanServerRead(y)
  {
    hide Inv, FrameBytes, ReadOne, Framed;
    ServerMeans(cfg, y);
    WriterMeans(cfg, y);
    LinksAndClientOk(cfg, y);
    hide LinksOk, ClientOk, Exact;
    var l, p := Served(y), y.s.recvSeq;
    assert y.c.sent[..|y.c.sent|] == y.c.sent;
    assert Clog(y)[l.cStart..y.c.out.flushed] == Clog(y)[l.cStart..];
    ClientEntriesFit(cfg, y);
    FrameStarts(Clog(y), l.cStart, p, l.cWire);
  }

  lemma ClientEntriesFit(cfg: Config, y: System)
    requires Inv(cfg, y)
    ensures forall i :: 0 <= i < |Clog(y)| ==> |Clog(y)[i]| <= MAX_FRAME_SIZE
  {
    hide LogsOk, LinksOk, ServerOk, CurOk, ClientOk, Exact, OnlyOldDropped, WrittenBounded, BacklogBounded;
  }

  lemma OwedUntilArrived(cfg: Config, y: System)
    requires ValidConfig(cfg) && Inv(cfg, y) && Flowing(y) && !Arrived(y)
    ensures SomethingOwed(cfg, y)
  {
    hide ValidConfig, Inv, Flowing, Arrived, SomethingOwed, ReaderIdle, WriterIdle;
    if !ReaderIdle(y) {
      ReaderOwes(cfg, y);
    } else if !WriterIdle(y) {
      WriterOwes(cfg, y);
    } else {
      ServerIsServing(y);
      if Cur(y).server.Streaming? { ServerOwes(cfg, y); } else { CatchupOwed(cfg, y); }
    }
  }

  lemma ServerIsServing(y: System)
    requires Flowing(y)
    ensures OnLink(y) && Serving(y) && Served(y) == Cur(y)
  {
  }

  // ---------------------------------------------------------------- everything must arrive

  /** Whichever owed steps are taken, in whatever order, everything arrives. */
  ghost predicate MustArrive(cfg: Config, y: System)
    requires ValidConfig(cfg) && Inv(cfg, y) && Flowing(y)
    decreases Left(y)
  {
    Arrived(y) ||
    (SomethingOwed(cfg, y) &&
     forall step, z :: Owed(y, step) && Next(cfg, y, step, z) ==>
       (OwedStepCounts(cfg, y, step, z); MustArrive(cfg, z)))
  }

  lemma {:induction false} FlowingMustArrive(cfg: Config, y: System)
    requires ValidConfig(cfg) && Inv(cfg, y) && Flowing(y)
    ensures MustArrive(cfg, y)
    decreases Left(y)
  {
    hide ValidConfig, Inv, Flowing, Arrived, SomethingOwed, Owed, Next, Left;
    if !Arrived(y) {
      OwedUntilArrived(cfg, y);
      forall step, z | Owed(y, step) && Next(cfg, y, step, z)
        ensures Inv(cfg, z) && Flowing(z) && Left(z) < Left(y) && MustArrive(cfg, z)
      {
        OwedStepCounts(cfg, y, step, z);
        FlowingMustArrive(cfg, z);
      }
    }
  }

  /** In every run, from the moment a link is committed: if it stays up, everything must arrive. */
  lemma CommittedLinkDelivers(cfg: Config, y: System)
    requires ValidConfig(cfg) && Reachable(cfg, y) && Flowing(y)
    ensures Inv(cfg, y) && MustArrive(cfg, y)
  {
    hide ValidConfig, Inv, Flowing, Reachable, MustArrive;
    ReachableInv(cfg, y);
    FlowingMustArrive(cfg, y);
  }

  /** And so it can. */
  lemma {:induction false} FlowingArrives(cfg: Config, y: System) returns (z: System)
    requires ValidConfig(cfg) && Inv(cfg, y) && Flowing(y)
    ensures LeadsTo(cfg, y, z) && Arrived(z) && Onward(y, z)
    decreases Left(y)
  {
    hide ValidConfig, Inv, Flowing, Arrived, Owed, Next, Left, LeadsTo;
    Stay(cfg, y);
    if Arrived(y) {
      z := y;
    } else {
      OwedUntilArrived(cfg, y);
      var step, w :| Owed(y, step) && Next(cfg, y, step, w);
      OwedStepCounts(cfg, y, step, w);
      Go(cfg, y, y, step, w);
      z := FlowingArrives(cfg, w);
      Join(cfg, y, w, z);
    }
  }
}
