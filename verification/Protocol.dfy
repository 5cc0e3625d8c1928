/** The reconnecting transport as a step relation over the client, the server and every link
    dialed so far. A link is a pair of one-way channels: handshake messages arrive whole or not
    at all, stream bytes arrive in order, and whatever the receiver has not read when it stops
    is lost with the link. A step is one locked region, one message or one piece of a write, so
    a cut can fall between any two and at any byte. */
module Protocol {
  import opened Bytes
  import opened Frames
  import opened Messages
  import opened Nonces
  import opened Packets
  import opened Sealing
  import opened Outbound
  import opened Inbound
  import opened Writer

  datatype Config = Config(cipher: Cipher, probe: Packet, limit: nat)

  /** What Dial accepts, and the ideal box. */
  ghost predicate ValidConfig(cfg: Config)
  {
    Ideal(cfg.cipher) && |cfg.probe.payload| <= MAX_PAYLOAD && cfg.limit <= MAX_REPLAY_LIMIT
  }

  // ---------------------------------------------------------------- state

  datatype Snapshot = Snapshot(next: nat, ours: seq<Bytes>)

  /** writeLoop: parked, or part-way through sending a batch. */
  datatype WriterState =
    | Parked
    | Sending(base: nat, sent: nat, probeAt: int, buf: Bytes, written: nat)

  datatype ClientPhase =
    | Idle                                // between links
    | Recovering(wroteHeader: bool, peer: Option<int>, snap: Option<Snapshot>,
                 wroteCatchup: bool, theirs: Option<seq<Bytes>>)
    | Running(todo: seq<Bytes>, off: nat, released: bool, writer: WriterState)
    | Stopped                             // supervise has returned: readerDone is closed

  datatype Client = Client(
    out: Outbound,
    sent: seq<Packet>,       // every packet sealed
    inb: Inbound,
    watched: bool,           // the watcher saw that something was sealed
    phase: ClientPhase,
    ended: bool              // the Conn's context is done
  )

  /** Streaming.read is the sequence number of the next frame the server reads, .next of the
      next it writes; its two loops can stop one before the other. */
  datatype ServerPhase =
    | Waiting                                     // admitted, takeOver not reached
    | Greeting                                    // to write the SequenceHeader
    | Greeted                                     // to read the client's
    | Answering(catchup: seq<Bytes>, next: nat)   // to write the catchup
    | Listening(next: nat)                        // to read the client's catchup
    | Accepting(todo: seq<Bytes>, next: nat)      // accepting it, entry by entry
    | Streaming(read: nat, off: nat, next: nat, reading: bool, writing: bool)
    | Closed

  datatype Link = Link(
    isNew: bool,                     // admitted as NEW_CLIENT: no recover exchange
    server: ServerPhase,
    cHeader: Option<int>, cCatchup: Option<seq<Bytes>>, cWire: Bytes,   // client to server
    sHeader: Option<int>, sCatchup: Option<seq<Bytes>>, sWire: Bytes,   // server to client
    // history, not read by either side
    cStart: nat,                     // where the client's stream starts
    sStart: nat, sBegun: nat,        // where the server's starts, and the frames it began
    sPos: nat,                       // the position the server's header states
    late: bool                       // a NEW_CLIENT link taken over after packets were accepted
  )

  datatype Server = Server(
    known: bool,
    log: seq<Bytes>,         // `sent` in the source: every sealed packet
    sent: seq<Packet>,       // the packets in it
    count: nat,              // boxes opened
    recvSeq: nat,
    accepted: seq<Packet>,   // everything ever queued for Recv
    echo: bool,
    cur: Option<nat>,        // the link that took over last
    refused: bool            // an accept has failed
  )

  datatype System = System(c: Client, s: Server, links: seq<Link>)

  /** Links exist only as Dial and reconnect make them; a server that already knows the client
      and packets it sealed before the first connect are allowed. */
  ghost predicate Init(cfg: Config, y: System)
  {
    && y.links == []
    && y.c == Client(Initial(cfg.limit), [], EMPTY, false, Idle, false)
    && (exists log, sent, known, echo :: y.s == Server(known, log, sent, 0, 0, [], echo, None, false))
    && Sealed(cfg.cipher, ServerToClient, y.s.log, y.s.sent)
  }

  /** log holds the entries of packets, each sealed at its own position. */
  ghost predicate Sealed(k: Cipher, d: Direction, log: seq<Bytes>, packets: seq<Packet>)
  {
    && |log| == |packets|
    && forall i :: 0 <= i < |log| ==> log[i] == Entry(k, d, i, packets[i])
  }

  // ---------------------------------------------------------------- client: callers and watcher

  ghost function SealOut(cfg: Config, c: Client, p: Packet): Bytes
  {
    Entry(cfg.cipher, ClientToServer, c.out.Next(), p)
  }

  ghost predicate CanWrite(cfg: Config, y: System, p: Packet)
  {
    && !y.c.ended && |p.payload| <= MAX_PAYLOAD
    && y.c.out.Unsent() <= y.c.out.ring.limit && y.c.out.Next() < MAX_SEQ
  }

  ghost function DoWrite(cfg: Config, y: System, p: Packet): System
  {
    y.(c := y.c.(out := y.c.out.Enqueue(SealOut(cfg, y.c, p)), sent := y.c.sent + [p]))
  }

  ghost predicate CanWatch(y: System) { y.c.phase.Running? && y.c.out.Next() > 0 }

  ghost function DoWatch(y: System): System { y.(c := y.c.(watched := true)) }

  ghost predicate CanProbe(y: System)
  {
    y.c.phase.Running? && y.c.watched && y.c.out.Next() < MAX_SEQ
  }

  ghost function DoProbe(cfg: Config, y: System): System
  {
    var c := y.c;
    var out := c.out.Probe(SealOut(cfg, c, cfg.probe));
    var sent := if c.out.lastProbe >= c.out.flushed then c.sent else c.sent + [cfg.probe];
    y.(c := c.(out := out, sent := sent, watched := false))
  }

  /** Close, or any failure that ends the Conn. */
  ghost function DoEnd(y: System): System { y.(c := y.c.(ended := true)) }

  ghost predicate CanRead(y: System)
  {
    y.c.inb.inbox != [] || (y.c.phase.Stopped? && y.c.inb.pending != [])
  }

  /** ReadPacket: the inbox first; pending only once every reader has stopped. */
  ghost function DoRead(y: System): System
    requires CanRead(y)
  {
    y.(c := y.c.(inb := if y.c.inb.inbox != [] then y.c.inb.ReadInbox() else y.c.inb.ReadPending()))
  }

  // ---------------------------------------------------------------- client: connecting

  ghost predicate CanConnect(y: System) { y.c.phase.Idle? && !y.c.ended }

  ghost function NewLink(isNew: bool): Link
  {
    Link(isNew, Waiting, None, None, [], None, None, [], 0, 0, 0, 0, false)
  }

  /** Dial a link; the server admits it and the client reads the answer. */
  ghost function DoConnect(y: System): System
  {
    var isNew := !y.s.known;
    var phase := if isNew then Running([], 0, false, Parked) else Recovering(false, None, None, false, None);
    System(y.c.(phase := phase), y.s.(known := true), y.links + [NewLink(isNew)])
  }

  ghost predicate OnLink(y: System) { |y.links| > 0 }

  ghost function Cur(y: System): Link requires OnLink(y) { y.links[|y.links| - 1] }

  ghost function SetCur(y: System, l: Link): System
    requires OnLink(y)
  {
    y.(links := y.links[|y.links| - 1 := l])
  }

  /** writeRecover refuses to state a count that int32 cannot hold. */
  ghost predicate CanWriteHeader(y: System)
  {
    OnLink(y) && y.c.phase.Recovering? && !y.c.phase.wroteHeader && y.c.inb.recvSeq <= MAX_INT32
  }

  ghost function DoWriteHeader(y: System): System
    requires CanWriteHeader(y)
  {
    SetCur(y, Cur(y).(cHeader := Some(y.c.inb.recvSeq)))
      .(c := y.c.(phase := y.c.phase.(wroteHeader := true)))
  }

  ghost predicate CanReadHeader(y: System)
  {
    OnLink(y) && y.c.phase.Recovering? && y.c.phase.peer.None? && Cur(y).sHeader.Some?
  }

  ghost function DoReadHeader(y: System): System
    requires CanReadHeader(y)
  {
    y.(c := y.c.(phase := y.c.phase.(peer := Cur(y).sHeader)))
  }

  ghost predicate AtSnapshot(y: System)
  {
    && OnLink(y) && y.c.phase.Recovering? && y.c.phase.wroteHeader
    && y.c.phase.peer.Some? && y.c.phase.snap.None?
  }

  ghost function Since(y: System): Option<seq<Bytes>>
    requires AtSnapshot(y)
  {
    y.c.out.ring.Since(y.c.phase.peer.value, y.c.out.Next())
  }

  ghost predicate CanSnapshot(y: System) { AtSnapshot(y) && Since(y).Some? }

  ghost function DoSnapshot(y: System): System
    requires CanSnapshot(y)
  {
    var next := y.c.out.Next();
    SetCur(y, Cur(y).(cStart := next))
      .(c := y.c.(phase := y.c.phase.(snap := Some(Snapshot(next, Since(y).value)))))
  }

  /** ErrReplayExceeded, fatal: the peer's position is not retained, the catchup is too large for
      one message, or our count cannot be stated. */
  ghost predicate CanRefuse(y: System)
  {
    || (AtSnapshot(y) && Since(y).None?)
    || (y.c.phase.Recovering? && y.c.phase.snap.Some? && !y.c.phase.wroteCatchup && !Fits(y.c.phase.snap.value.ours))
    || (y.c.phase.Recovering? && !y.c.phase.wroteHeader && y.c.inb.recvSeq > MAX_INT32)
  }

  ghost function DoRefuse(y: System): System { y.(c := y.c.(phase := Stopped, ended := true)) }

  ghost predicate CanWriteCatchup(y: System)
  {
    && OnLink(y) && y.c.phase.Recovering? && y.c.phase.snap.Some? && !y.c.phase.wroteCatchup
    && Fits(y.c.phase.snap.value.ours)
  }

  ghost function DoWriteCatchup(y: System): System
    requires CanWriteCatchup(y)
  {
    SetCur(y, Cur(y).(cCatchup := Some(y.c.phase.snap.value.ours)))
      .(c := y.c.(phase := y.c.phase.(wroteCatchup := true)))
  }

  ghost predicate CanReadCatchup(y: System)
  {
    && OnLink(y) && y.c.phase.Recovering? && y.c.phase.peer.Some?
    && y.c.phase.theirs.None? && Cur(y).sCatchup.Some?
  }

  ghost function DoReadCatchup(y: System): System
    requires CanReadCatchup(y)
  {
    y.(c := y.c.(phase := y.c.phase.(theirs := Cur(y).sCatchup)))
  }

  ghost predicate CanCommit(y: System)
  {
    && OnLink(y) && y.c.phase.Recovering? && y.c.phase.wroteCatchup && y.c.phase.theirs.Some?
    && y.c.phase.snap.Some? && y.c.phase.peer.Some? && y.c.phase.snap.value.next <= y.c.out.Next()
  }

  ghost function DoCommit(y: System): System
    requires CanCommit(y)
  {
    var ph := y.c.phase;
    y.(c := y.c.(out := y.c.out.Commit(ph.snap.value.next, ph.peer.value),
                 phase := Running(ph.theirs.value, 0, false, Parked)))
  }

  /** The exchange fails anywhere before its commit. A first connect that fails ends the Dial. */
  ghost predicate CanAbandon(y: System) { y.c.phase.Recovering? }

  ghost function DoAbandon(y: System): System
  {
    if |y.links| == 1 || y.c.ended then y.(c := y.c.(phase := Stopped, ended := true))
    else y.(c := y.c.(phase := Idle))
  }

  ghost predicate CanStop(y: System) { y.c.phase.Idle? && y.c.ended }

  ghost function DoStop(y: System): System { y.(c := y.c.(phase := Stopped)) }

  // ---------------------------------------------------------------- client: reader

  ghost predicate ReaderFree(y: System)
  {
    && OnLink(y) && y.c.phase.Running?
    && y.c.inb.pending == [] && y.c.inb.holding.None? && !y.c.inb.broken
  }

  ghost predicate CanHandPending(y: System)
  {
    && y.c.phase.Running? && y.c.inb.holding.None?
    && y.c.inb.pending != [] && |y.c.inb.inbox| < INBOX_SIZE
  }

  ghost function DoHandPending(y: System): System
    requires CanHandPending(y)
  {
    y.(c := y.c.(inb := y.c.inb.HandPending()))
  }

  /** deliver: a refused packet ends the Conn. */
  ghost function Delivered(cfg: Config, c: Client, b: Bytes): Client
  {
    var inb := c.inb.Deliver(cfg.cipher, b);
    c.(inb := inb, ended := c.ended || inb.broken)
  }

  ghost predicate CanDeliverCatchup(y: System) { ReaderFree(y) && y.c.phase.todo != [] }

  ghost function DoDeliverCatchup(cfg: Config, y: System): System
    requires CanDeliverCatchup(y)
  {
    var todo, c := y.c.phase.todo, Delivered(cfg, y.c, y.c.phase.todo[0]);
    y.(c := if c.inb.broken then c else c.(phase := y.c.phase.(todo := todo[1..])))
  }

  ghost predicate FrameReady(y: System)
  {
    && ReaderFree(y) && y.c.phase.todo == [] && y.c.phase.off <= |Cur(y).sWire|
    && ReadOne(Cur(y).sWire[y.c.phase.off..]).Frame?
  }

  ghost predicate CanReleaseHold(y: System) { FrameReady(y) && !y.c.phase.released }

  ghost function DoReleaseHold(y: System): System
    requires CanReleaseHold(y) && y.c.out.flushed <= y.c.out.Next()
  {
    y.(c := y.c.(out := y.c.out.ReleaseHold(), phase := y.c.phase.(released := true)))
  }

  ghost predicate CanDeliverFrame(y: System) { FrameReady(y) && y.c.phase.released }

  ghost function DoDeliverFrame(cfg: Config, y: System): System
    requires CanDeliverFrame(y)
  {
    var f := ReadOne(Cur(y).sWire[y.c.phase.off..]).body;
    y.(c := Delivered(cfg, y.c, f).(phase := y.c.phase.(off := y.c.phase.off + |FrameBytes(f)|)))
  }

  ghost predicate CanHandOver(y: System)
  {
    y.c.phase.Running? && y.c.inb.holding.Some? && |y.c.inb.inbox| < INBOX_SIZE
  }

  ghost function DoHandOver(y: System): System
    requires CanHandOver(y)
  {
    y.(c := y.c.(inb := y.c.inb.HandOver()))
  }

  // ---------------------------------------------------------------- client: writer

  ghost function SetWriter(y: System, w: WriterState): System
    requires y.c.phase.Running?
  {
    y.(c := y.c.(phase := y.c.phase.(writer := w)))
  }

  /** A framed batch of the entries from `flushed` on, noting where the latest probe's frame is. */
  ghost function Taken(o: Outbound, sent: nat): WriterState
    requires o.flushed + sent <= o.Next()
  {
    var log, base, probe := o.ring.log, o.flushed, o.lastProbe;
    Sending(base, sent, ProbeAt(log, base, sent, probe), Framed(log[base..base + sent]), 0)
  }

  ghost predicate CanTake(y: System, sent: nat)
  {
    && y.c.phase.Running? && y.c.phase.writer.Parked? && y.c.out.flushed < y.c.out.Next()
    && IsBatch(y.c.out.ring.log[y.c.out.flushed..], sent)
  }

  ghost function DoTake(y: System, sent: nat): System
    requires CanTake(y, sent)
  {
    SetWriter(y, Taken(y.c.out, sent))
  }

  ghost function SentOn(l: Link, w: WriterState, n: nat): Link
    requires w.Sending? && w.written + n <= |w.buf|
  {
    l.(cWire := l.cWire + w.buf[w.written..w.written + n])
  }

  ghost predicate CanSend(y: System, n: nat)
  {
    && OnLink(y) && y.c.phase.Running? && y.c.phase.writer.Sending?
    && var w := y.c.phase.writer; 0 < n && w.written + n <= |w.buf|
  }

  /** Part of the batch, cut anywhere, reaches the link. */
  ghost function DoSend(y: System, n: nat): System
    requires CanSend(y, n)
  {
    var w := y.c.phase.writer;
    SetCur(SetWriter(y, w.(written := w.written + n)), SentOn(Cur(y), w, n))
  }

  ghost predicate CanFlush(y: System)
  {
    && y.c.phase.Running? && y.c.phase.writer.Sending?
    && var w := y.c.phase.writer;
       w.written == |w.buf| && y.c.out.flushed + w.sent <= y.c.out.Next()
  }

  ghost function DoFlush(y: System): System
    requires CanFlush(y)
  {
    y.(c := y.c.(out := y.c.out.Flush(y.c.phase.writer.sent),
                 phase := y.c.phase.(writer := Parked)))
  }

  ghost predicate CanLinkDown(y: System) { y.c.phase.Running? }

  /** The link fails at any point; reader, writer and watcher are joined. */
  ghost function DoLinkDown(y: System): System
  {
    y.(c := y.c.(phase := if y.c.ended then Stopped else Idle, inb := y.c.inb.Park(), watched := false))
  }

  // ---------------------------------------------------------------- server

  ghost function Send(cfg: Config, s: Server, p: Packet): Server
  {
    s.(log := s.log + [Entry(cfg.cipher, ServerToClient, |s.log|, p)], sent := s.sent + [p])
  }

  ghost function Opened(s: Server, p: Packet): Server
  {
    s.(count := s.count + 1, recvSeq := s.recvSeq + 1, accepted := s.accepted + [p])
  }

  /** accept: open, count, queue; KEEP_ALIVE is echoed. */
  ghost function Accept(cfg: Config, s: Server, b: Bytes): Server
  {
    var parsed := ParsePacket(b);
    if parsed.Short? || !parsed.encrypted then s.(refused := true)
    else
      match Unseal(cfg.cipher, ClientToServer, s.count, b)
      case None => s.(count := s.count + 1, refused := true)
      case Some(p) =>
        if p.header == KEEP_ALIVE && s.echo then Send(cfg, Opened(s, p), Packet(KEEP_ALIVE, []))
        else Opened(s, p)
  }

  ghost function DoServerSend(cfg: Config, y: System, p: Packet): System { y.(s := Send(cfg, y.s, p)) }

  ghost function DoEcho(y: System, on: bool): System { y.(s := y.s.(echo := on)) }

  /** takeOver waits for the previous link's Serve to finish. */
  ghost predicate CanTakeOver(y: System, i: nat)
  {
    && i < |y.links| && y.links[i].server.Waiting?
    && (y.s.cur.Some? ==> y.s.cur.value < |y.links| && y.links[y.s.cur.value].server.Closed?)
  }

  ghost function TakenOver(l: Link, pos: nat): Link
  {
    if l.isNew then l.(server := Streaming(0, 0, 0, true, true), late := pos > 0)
    else l.(server := Greeting)
  }

  ghost function DoTakeOver(y: System, i: nat): System
    requires CanTakeOver(y, i)
  {
    y.(s := y.s.(cur := Some(i)), links := y.links[i := TakenOver(y.links[i], y.s.recvSeq)])
  }

  ghost predicate Serving(y: System) { y.s.cur.Some? && y.s.cur.value < |y.links| }

  ghost function Served(y: System): Link requires Serving(y) { y.links[y.s.cur.value] }

  ghost function SetServed(y: System, l: Link): System
    requires Serving(y)
  {
    y.(links := y.links[y.s.cur.value := l])
  }

  ghost predicate CanGreet(y: System) { Serving(y) && Served(y).server.Greeting? }

  /** The server states its position, cut to int32. */
  ghost function DoGreet(y: System): System
    requires CanGreet(y)
  {
    SetServed(y, Served(y).(server := Greeted, sHeader := Some(Int32(y.s.recvSeq)), sPos := y.s.recvSeq))
  }

  ghost predicate CanHear(y: System)
  {
    Serving(y) && Served(y).server.Greeted? && Served(y).cHeader.Some?
  }

  ghost function DoHear(y: System): System
    requires CanHear(y)
  {
    var l, from, next := Served(y), Served(y).cHeader.value, |y.s.log|;
    SetServed(y, if 0 <= from <= next
                 then l.(server := Answering(y.s.log[from..], next), sStart := next, sBegun := next)
                 else l.(server := Closed))
  }

  /** The catchup is one message, or the server gives the link up. */
  ghost predicate CanAnswer(y: System)
  {
    Serving(y) && Served(y).server.Answering? && Fits(Served(y).server.catchup)
  }

  ghost function DoAnswer(y: System): System
    requires CanAnswer(y)
  {
    var l := Served(y);
    SetServed(y, l.(server := Listening(l.server.next), sCatchup := Some(l.server.catchup)))
  }

  ghost predicate CanListen(y: System)
  {
    Serving(y) && Served(y).server.Listening? && Served(y).cCatchup.Some?
  }

  ghost function DoListen(y: System): System
    requires CanListen(y)
  {
    var l := Served(y);
    SetServed(y, l.(server := Accepting(l.cCatchup.value, l.server.next)))
  }

  ghost predicate CanAccept(y: System)
  {
    Serving(y) && Served(y).server.Accepting? && Served(y).server.todo != []
  }

  ghost function DoAccept(cfg: Config, y: System): System
    requires CanAccept(y)
  {
    var l := Served(y);
    var s := Accept(cfg, y.s, l.server.todo[0]);
    SetServed(y, l.(server := if s.recvSeq == y.s.recvSeq then Closed
                              else l.server.(todo := l.server.todo[1..])))
      .(s := s)
  }

  ghost predicate CanStream(y: System)
  {
    Serving(y) && Served(y).server.Accepting? && Served(y).server.todo == []
  }

  ghost function DoStream(y: System): System
    requires CanStream(y)
  {
    var l := Served(y);
    SetServed(y, l.(server := Streaming(l.cStart, 0, l.server.next, true, true)))
  }

  ghost predicate CanServerRead(y: System)
  {
    && Serving(y) && Served(y).server.Streaming? && Served(y).server.reading
    && Served(y).server.off <= |Served(y).cWire|
    && ReadOne(Served(y).cWire[Served(y).server.off..]).Frame?
  }

  ghost function ServerFrame(y: System): Bytes
    requires CanServerRead(y)
  {
    ReadOne(Served(y).cWire[Served(y).server.off..]).body
  }

  ghost function DoServerRead(cfg: Config, y: System): System
    requires CanServerRead(y)
  {
    var l, f := Served(y), ServerFrame(y);
    var s := Accept(cfg, y.s, f);
    SetServed(y, l.(server := if s.recvSeq == y.s.recvSeq then l.server.(reading := false)
                              else l.server.(read := l.server.read + 1, off := l.server.off + |FrameBytes(f)|)))
      .(s := s)
  }

  ghost predicate CanServerWrite(y: System, n: nat)
  {
    && Serving(y) && Served(y).server.Streaming? && Served(y).server.writing
    && Served(y).server.next < |y.s.log|
    && |y.s.log[Served(y).server.next]| <= MAX_FRAME_SIZE
    && n <= |FrameBytes(y.s.log[Served(y).server.next])|
  }

  /** WriteFrame: the whole frame, or any part of it and the writer is done. */
  ghost function Wrote(l: Link, slog: seq<Bytes>, n: nat): Link
    requires l.server.Streaming? && l.server.next < |slog| && n <= |FrameBytes(slog[l.server.next])|
  {
    var f := FrameBytes(slog[l.server.next]);
    l.(sWire := l.sWire + f[..n], sBegun := l.server.next + 1,
       server := if n == |f| then l.server.(next := l.server.next + 1)
                 else l.server.(writing := false))
  }

  ghost function DoServerWrite(y: System, n: nat): System
    requires CanServerWrite(y, n)
  {
    SetServed(y, Wrote(Served(y), y.s.log, n))
  }

  ghost predicate CanClose(y: System, i: nat)
  {
    i < |y.links| && !(y.links[i].server.Accepting? && y.links[i].server.todo != [])
  }

  /** Serve returns: the link failed or was replaced, or a frame is too large to write. */
  ghost function DoClose(y: System, i: nat): System
    requires CanClose(y, i)
  {
    y.(links := y.links[i := y.links[i].(server := Closed)])
  }

  // ---------------------------------------------------------------- runs

  datatype Step =
    | Write(p: Packet) | Watch | Probe | End | Read
    | Connect | WriteHeader | ReadHeader | TakeSnapshot | Refuse | WriteCatchup | ReadCatchup
    | Commit | Abandon | Stop
    | HandPending | DeliverCatchup | ReleaseHold | DeliverFrame | HandOver
    | TakeBatch(sent: nat) | SendPart(n: nat) | FlushBatch | LinkDown
    | ServerSend(p: Packet) | Echo(on: bool) | TakeOver(i: nat)
    | Greet | Hear | Answer | Listen | AcceptNext | StartStream | ServerRead
    | ServerWrite(n: nat) | CloseLink(i: nat)

  ghost predicate Next(cfg: Config, y: System, step: Step, z: System)
  {
    match step
    case Write(p) => CanWrite(cfg, y, p) && z == DoWrite(cfg, y, p)
    case Watch => CanWatch(y) && z == DoWatch(y)
    case Probe => CanProbe(y) && z == DoProbe(cfg, y)
    case End => z == DoEnd(y)
    case Read => CanRead(y) && z == DoRead(y)
    case Connect => CanConnect(y) && z == DoConnect(y)
    case WriteHeader => CanWriteHeader(y) && z == DoWriteHeader(y)
    case ReadHeader => CanReadHeader(y) && z == DoReadHeader(y)
    case TakeSnapshot => CanSnapshot(y) && z == DoSnapshot(y)
    case Refuse => CanRefuse(y) && z == DoRefuse(y)
    case WriteCatchup => CanWriteCatchup(y) && z == DoWriteCatchup(y)
    case ReadCatchup => CanReadCatchup(y) && z == DoReadCatchup(y)
    case Commit => CanCommit(y) && z == DoCommit(y)
    case Abandon => CanAbandon(y) && z == DoAbandon(y)
    case Stop => CanStop(y) && z == DoStop(y)
    case HandPending => CanHandPending(y) && z == DoHandPending(y)
    case DeliverCatchup => CanDeliverCatchup(y) && z == DoDeliverCatchup(cfg, y)
    case ReleaseHold => CanReleaseHold(y) && y.c.out.flushed <= y.c.out.Next() && z == DoReleaseHold(y)
    case DeliverFrame => CanDeliverFrame(y) && z == DoDeliverFrame(cfg, y)
    case HandOver => CanHandOver(y) && z == DoHandOver(y)
    case TakeBatch(sent) => CanTake(y, sent) && z == DoTake(y, sent)
    case SendPart(n) => CanSend(y, n) && z == DoSend(y, n)
    case FlushBatch => CanFlush(y) && z == DoFlush(y)
    case LinkDown => CanLinkDown(y) && z == DoLinkDown(y)
    case ServerSend(p) => z == DoServerSend(cfg, y, p)
    case Echo(on) => z == DoEcho(y, on)
    case TakeOver(i) => CanTakeOver(y, i) && z == DoTakeOver(y, i)
    case Greet => CanGreet(y) && z == DoGreet(y)
    case Hear => CanHear(y) && z == DoHear(y)
    case Answer => CanAnswer(y) && z == DoAnswer(y)
    case Listen => CanListen(y) && z == DoListen(y)
    case AcceptNext => CanAccept(y) && z == DoAccept(cfg, y)
    case StartStream => CanStream(y) && z == DoStream(y)
    case ServerRead => CanServerRead(y) && z == DoServerRead(cfg, y)
    case ServerWrite(n) => CanServerWrite(y, n) && z == DoServerWrite(y, n)
    case CloseLink(i) => CanClose(y, i) && z == DoClose(y, i)
  }

  /** A run: the states it goes through, one more than its steps. */
  ghost predicate IsRun(cfg: Config, run: seq<System>, steps: seq<Step>)
  {
    && |run| == |steps| + 1
    && Init(cfg, run[0])
    && forall i :: 0 <= i < |steps| ==> Next(cfg, run[i], steps[i], run[i + 1])
  }
}
