/** Every step of the client keeps the invariant. */
module ClientSteps {
  import opened Bytes
  import opened Frames
  import opened Nonces
  import opened Packets
  import opened Sealing
  import opened Outbound
  import opened Inbound
  import opened Writer
  import opened Protocol
  import opened Invariant

  lemma InitInv(cfg: Config, y: System)
    requires Init(cfg, y)
    ensures Inv(cfg, y)
  {
  }

  lemma EndInv(cfg: Config, y: System)
    requires Inv(cfg, y)
    ensures Inv(cfg, DoEnd(y))
  {
    hide Framed, FrameBytes, ReadOne, Entry, Size;
  }

  lemma WatchInv(cfg: Config, y: System)
    requires Inv(cfg, y) && CanWatch(y)
    ensures Inv(cfg, DoWatch(y))
  {
    hide Framed, FrameBytes, ReadOne, Entry, Size;
  }

  lemma StopInv(cfg: Config, y: System)
    requires Inv(cfg, y) && CanStop(y)
    ensures Inv(cfg, DoStop(y))
  {
    hide Framed, FrameBytes, ReadOne, Entry, Size;
  }

  lemma RefuseInv(cfg: Config, y: System)
    requires Inv(cfg, y) && CanRefuse(y)
    ensures Inv(cfg, DoRefuse(y))
  {
    hide Framed, FrameBytes, ReadOne, Entry, Size;
  }

  lemma AbandonInv(cfg: Config, y: System)
    requires Inv(cfg, y) && CanAbandon(y)
    ensures Inv(cfg, DoAbandon(y))
  {
    hide Framed, FrameBytes, ReadOne, Entry, Size;
  }

  lemma ReadInv(cfg: Config, y: System)
    requires Inv(cfg, y) && CanRead(y)
    ensures Inv(cfg, DoRead(y))
  {
    hide Framed, FrameBytes, ReadOne, Entry, Size;
    if y.c.inb.inbox != [] {
      ReadInboxExact(y.c.inb, y.s.sent);
    } else {
      ReadPendingExact(y.c.inb, y.s.sent);
    }
  }

  lemma HandOverInv(cfg: Config, y: System)
    requires Inv(cfg, y) && CanHandOver(y)
    ensures Inv(cfg, DoHandOver(y))
  {
    hide Framed, FrameBytes, ReadOne, Entry, Size;
    HandOverExact(y.c.inb, y.s.sent);
  }

  lemma HandPendingInv(cfg: Config, y: System)
    requires Inv(cfg, y) && CanHandPending(y)
    ensures Inv(cfg, DoHandPending(y))
  {
    hide Framed, FrameBytes, ReadOne, Entry, Size;
    HandPendingExact(y.c.inb, y.s.sent);
  }

  lemma LinkDownInv(cfg: Config, y: System)
    requires Inv(cfg, y) && CanLinkDown(y)
    ensures Inv(cfg, DoLinkDown(y))
  {
    hide Framed, FrameBytes, ReadOne, Entry, Size;
    if y.c.inb.holding.Some? { HandOverExact(y.c.inb, y.s.sent); }
  }

  lemma ReadHeaderInv(cfg: Config, y: System)
    requires Inv(cfg, y) && CanReadHeader(y)
    ensures Inv(cfg, DoReadHeader(y))
  {
    hide Framed, FrameBytes, ReadOne, Entry, Size;
  }

  lemma ReadCatchupInv(cfg: Config, y: System)
    requires Inv(cfg, y) && CanReadCatchup(y)
    ensures Inv(cfg, DoReadCatchup(y))
  {
    hide Framed, FrameBytes, ReadOne, Entry, Size;
  }

  lemma WriteHeaderInv(cfg: Config, y: System)
    requires Inv(cfg, y) && CanWriteHeader(y)
    ensures Inv(cfg, DoWriteHeader(y))
  {
    hide Framed, FrameBytes, ReadOne, Entry, Size;
    ReplaceLink(y, |y.links| - 1, Cur(y).(cHeader := Some(y.c.inb.recvSeq)));
  }

  lemma WriteCatchupInv(cfg: Config, y: System)
    requires Inv(cfg, y) && CanWriteCatchup(y)
    ensures Inv(cfg, DoWriteCatchup(y))
  {
    hide Framed, FrameBytes, ReadOne, Entry, Size;
    ReplaceLink(y, |y.links| - 1, Cur(y).(cCatchup := Some(y.c.phase.snap.value.ours)));
  }

  lemma SnapshotInv(cfg: Config, y: System)
    requires ValidConfig(cfg) && Inv(cfg, y) && CanSnapshot(y)
    ensures Inv(cfg, DoSnapshot(y))
  {
    hide Framed, FrameBytes, ReadOne, Entry, Size;
    TruncationIsRefused(y.c.out, Cur(y).sPos);
    ReplaceLink(y, |y.links| - 1, Cur(y).(cStart := y.c.out.Next()));
  }

  lemma WriteInv(cfg: Config, y: System, p: Packet)
    requires ValidConfig(cfg) && Inv(cfg, y) && CanWrite(cfg, y, p)
    ensures Inv(cfg, DoWrite(cfg, y, p))
  {
    hide Framed, FrameBytes, ReadOne, Entry, Size;
    var data := SealOut(cfg, y.c, p);
    ClientSeals(cfg, y, p);
    EnqueueOk(y.c.out, data);
    ClientGrows(y.c.out, y.c.out.Enqueue(data), data, y.c.inb.recvSeq, y.s.log, y.links, y.c.phase);
  }

  lemma ProbeInv(cfg: Config, y: System)
    requires ValidConfig(cfg) && Inv(cfg, y) && CanProbe(y)
    ensures Inv(cfg, DoProbe(cfg, y))
  {
    hide Framed, FrameBytes, ReadOne, Entry, Size;
    var data := SealOut(cfg, y.c, cfg.probe);
    if y.c.out.lastProbe < y.c.out.flushed {
      ClientSeals(cfg, y, cfg.probe);
      ProbeOk(y.c.out, data);
      ClientGrows(y.c.out, y.c.out.Probe(data), data, y.c.inb.recvSeq, y.s.log, y.links, y.c.phase);
    }
  }

  lemma NewLinkOk(clog: seq<Bytes>, slog: seq<Bytes>, pos: nat, isNew: bool)
    ensures LinkOk(clog, slog, pos, NewLink(isNew))
  {
  }

  lemma ConnectLinksOk(y: System)
    requires LinksOk(Clog(y), y.s.log, y.s.recvSeq, y.links) && ServerOk(y.s, y.c.sent, y.links)
    requires CurOk(Clog(y), y.s.recvSeq, y.s.cur, y.links) && (y.links != [] ==> y.s.known)
    ensures var links := y.links + [NewLink(!y.s.known)];
            && LinksOk(Clog(y), y.s.log, y.s.recvSeq, links) && ServerOk(y.s, y.c.sent, links)
            && CurOk(Clog(y), y.s.recvSeq, y.s.cur, links)
  {
    hide LinkOk, ServedOk;
    var links := y.links + [NewLink(!y.s.known)];
    NewLinkOk(Clog(y), y.s.log, y.s.recvSeq, !y.s.known);
    assert forall i :: 0 <= i < |y.links| ==> links[i] == y.links[i];
  }

  /** A client on a NEW_CLIENT link starts with nothing written and nothing read. */
  lemma ConnectClientOk(o: Outbound, recvSeq: nat, slog: seq<Bytes>, links: seq<Link>, isNew: bool)
    requires o.flushed <= o.Next() && recvSeq <= |slog| && (isNew ==> o.flushed == recvSeq == 0 && !o.ring.held)
    ensures ClientOk(o, recvSeq, slog, links + [NewLink(isNew)],
                     if isNew then Running([], 0, false, Parked) else Recovering(false, None, None, false, None))
  {
    var l := NewLink(isNew);
    assert (links + [l])[|links + [l]| - 1] == l;
    assert o.ring.log[0..0] == [] && slog[0..0] == [];
  }

  lemma ConnectInv(cfg: Config, y: System)
    requires Inv(cfg, y) && CanConnect(y)
    ensures Inv(cfg, DoConnect(y))
  {
    hide Exact, Ok, LogsOk, LinksOk, ServerOk, CurOk, ClientOk, BrokenOk, HoldOk;
    ConnectLinksOk(y);
    OutAndClientOk(cfg, y);
    ConnectClientOk(y.c.out, y.c.inb.recvSeq, y.s.log, y.links, !y.s.known);
    ConnectServerOk(y);
  }

  lemma ConnectServerOk(y: System)
    ensures ServerOk(y.s, y.c.sent, DoConnect(y).links) ==> ServerOk(DoConnect(y).s, y.c.sent, DoConnect(y).links)
    ensures BrokenOk(y.c, y.s.log) ==> BrokenOk(DoConnect(y).c, y.s.log)
  {
  }

  lemma OutAndClientOk(cfg: Config, y: System)
    requires Inv(cfg, y)
    ensures y.c.out.flushed <= y.c.out.Next() && y.c.inb.recvSeq <= |y.s.log|
  {
    hide Exact, Ok, LogsOk, LinksOk, ServerOk, CurOk;
  }

  /** At the commit the new link's writer starts at the snapshot and its reader at the peer's
      catchup, both where the exchange said. */
  lemma CommittedOk(o: Outbound, recvSeq: nat, slog: seq<Bytes>, links: seq<Link>, ph: ClientPhase)
    requires ClientOk(o, recvSeq, slog, links, ph) && ph.Recovering? && Shape(o)
    requires ph.wroteCatchup && ph.theirs.Some?
    requires links[|links| - 1].sStart <= |slog|
    requires CatchupOk(slog, links[|links| - 1])
    ensures o.flushed <= ph.snap.value.next <= o.Next() && o.ring.first <= ph.peer.value
    ensures ClientOk(o.Commit(ph.snap.value.next, ph.peer.value), recvSeq, slog, links,
                     Running(ph.theirs.value, 0, false, Parked))
  {
    var l := links[|links| - 1];
    var snap := ph.snap.value.next;
    assert o.ring.log[snap..snap] == [];
    assert slog[l.sStart..l.sStart] == [];
  }

  lemma CommitInv(cfg: Config, y: System)
    requires Inv(cfg, y) && CanCommit(y)
    ensures Inv(cfg, DoCommit(y))
  {
    hide Framed, FrameBytes, ReadOne, Entry, Size, WriterOk, ReaderOk, Sealed;
    var ph := y.c.phase;
    CommittedOk(y.c.out, y.c.inb.recvSeq, y.s.log, y.links, ph);
    CommitOk(y.c.out, ph.snap.value.next, ph.peer.value);
  }

  lemma ReleaseHoldInv(cfg: Config, y: System)
    requires Inv(cfg, y) && CanReleaseHold(y)
    ensures Inv(cfg, DoReleaseHold(y))
  {
    hide Framed, FrameBytes, ReadOne, Entry, Size;
    ReleaseOk(y.c.out);
  }

  lemma TakenOk(o: Outbound, l: Link, sent: nat)
    requires o.flushed <= o.Next() && WriterOk(o, l, Parked) && 0 < sent && o.flushed + sent <= o.Next()
    ensures WriterOk(o, l, Taken(o, sent))
  {
    var buf := Framed(o.ring.log[o.flushed..o.flushed + sent]);
    assert l.cWire + buf[..0] == l.cWire;
  }

  /** Only the writer moved: the rest of the state is untouched. */
  lemma WriterMoved(cfg: Config, y: System, w: WriterState)
    requires Inv(cfg, y) && y.c.phase.Running? && WriterOk(y.c.out, Cur(y), w)
    ensures Inv(cfg, SetWriter(y, w))
  {
  }

  lemma TakeInv(cfg: Config, y: System, sent: nat)
    requires Inv(cfg, y) && CanTake(y, sent)
    ensures Inv(cfg, DoTake(y, sent))
  {
    hide Framed, FrameBytes, ReadOne, Entry, Size;
    TakenOk(y.c.out, Cur(y), sent);
    WriterMoved(cfg, y, Taken(y.c.out, sent));
  }

  lemma FlushedOk(o: Outbound, l: Link, w: WriterState)
    requires o.flushed <= o.Next() && WriterOk(o, l, w) && w.Sending? && w.written == |w.buf|
    ensures WriterOk(o.Flush(w.sent), l, Parked)
  {
    var log := o.ring.log;
    assert w.buf[..w.written] == w.buf;
    assert log[l.cStart..w.base + w.sent] == log[l.cStart..w.base] + log[w.base..w.base + w.sent];
    StreamConcat(log[l.cStart..w.base], log[w.base..w.base + w.sent]);
  }

  lemma FlushInv(cfg: Config, y: System)
    requires Inv(cfg, y) && CanFlush(y)
    ensures Inv(cfg, DoFlush(y))
  {
    hide Framed, FrameBytes, ReadOne, Entry, Size;
    FlushedOk(y.c.out, Cur(y), y.c.phase.writer);
    FlushOk(y.c.out, y.c.phase.writer.sent);
  }

  lemma SentOk(o: Outbound, l: Link, w: WriterState, n: nat)
    requires o.flushed <= o.Next() && WriterOk(o, l, w) && w.Sending? && w.written + n <= |w.buf|
    ensures WriterOk(o, SentOn(l, w, n), w.(written := w.written + n))
    ensures l.cWire <= SentOn(l, w, n).cWire <= Framed(o.ring.log[l.cStart..])
  {
    hide Framed;
    SentIsPrefix(o.ring.log, l.cStart, w.base, w.sent, w.written + n);
    assert w.buf[..w.written] + w.buf[w.written..w.written + n] == w.buf[..w.written + n];
  }

  lemma SentLinkOk(clog: seq<Bytes>, slog: seq<Bytes>, pos: nat, l: Link, wire: Bytes)
    requires LinkOk(clog, slog, pos, l) && l.cWire <= wire <= Framed(clog[l.cStart..])
    requires l.isNew || l.cCatchup.Some?
    ensures LinkOk(clog, slog, pos, l.(cWire := wire))
    ensures pos <= |clog| && ServedOk(clog, pos, l) ==> ServedOk(clog, pos, l.(cWire := wire))
  {
  }

  lemma SentClientOk(o: Outbound, recvSeq: nat, slog: seq<Bytes>, links: seq<Link>, ph: ClientPhase, n: nat)
    requires ClientOk(o, recvSeq, slog, links, ph) && ph.Running? && ph.writer.Sending?
    requires ph.writer.written + n <= |ph.writer.buf|
    ensures var l := links[|links| - 1];
            var l' := SentOn(l, ph.writer, n);
            && ClientOk(o, recvSeq, slog, links[|links| - 1 := l'],
                        ph.(writer := ph.writer.(written := ph.writer.written + n)))
            && l.cWire <= l'.cWire <= Framed(o.ring.log[l.cStart..])
            && (l.isNew || l.cCatchup.Some?)
  {
    SentOk(o, links[|links| - 1], ph.writer, n);
  }

  lemma SendInv(cfg: Config, y: System, n: nat)
    requires Inv(cfg, y) && CanSend(y, n)
    ensures Inv(cfg, DoSend(y, n))
  {
    hide Framed, FrameBytes, ReadOne, Entry, Size, WriterOk, ReaderOk, RecoveringOk, LinkOk, ServedOk, Ok, Exact,
         Sealed;
    var l' := SentOn(Cur(y), y.c.phase.writer, n);
    SentClientOk(y.c.out, y.c.inb.recvSeq, y.s.log, y.links, y.c.phase, n);
    SentLinkOk(Clog(y), y.s.log, y.s.recvSeq, Cur(y), l'.cWire);
    assert l' == Cur(y).(cWire := l'.cWire);
    ReplaceLink(y, |y.links| - 1, l');
  }

  lemma SentIsPrefix(log: seq<Bytes>, start: nat, base: nat, sent: nat, n: nat)
    requires start <= base && base + sent <= |log| && n <= |Framed(log[base..base + sent])|
    ensures Framed(log[start..base]) + Framed(log[base..base + sent])[..n] <= Framed(log[start..])
  {
    assert log[start..] == log[start..base] + log[base..];
    StreamConcat(log[start..base], log[base..]);
    assert log[base..] == log[base..base + sent] + log[base + sent..];
    StreamConcat(log[base..base + sent], log[base + sent..]);
  }

  // ---------------------------------------------------------------- deliveries

  lemma DeliveredOk(cfg: Config, y: System, b: Bytes)
    requires ValidConfig(cfg) && Inv(cfg, y) && ReaderFree(y)
    requires y.c.inb.recvSeq < |y.s.log| && b == y.s.log[y.c.inb.recvSeq]
    ensures var c := Delivered(cfg, y.c, b);
            && Exact(c.inb, y.s.sent) && BrokenOk(c, y.s.log)
            && c.inb.recvSeq == (if |b| > MAX_FRAME_SIZE then y.c.inb.recvSeq else y.c.inb.recvSeq + 1)
            && c.inb.broken == (|b| > MAX_FRAME_SIZE)
  {
    DeliverExact(cfg.cipher, y.c.inb, y.s.sent);
  }

  lemma DeliverCatchupInv(cfg: Config, y: System)
    requires ValidConfig(cfg) && Inv(cfg, y) && CanDeliverCatchup(y)
    ensures Inv(cfg, DoDeliverCatchup(cfg, y))
  {
    hide Framed, FrameBytes, ReadOne, Entry, Size;
    var l, k, todo := Cur(y), y.c.inb.recvSeq, y.c.phase.todo;
    assert todo == y.s.log[k..l.sStart];
    DeliveredOk(cfg, y, todo[0]);
    CaughtUp(y.s.log, k, l, todo, y.c.phase.off);
  }

  lemma CaughtUp(slog: seq<Bytes>, k: nat, l: Link, todo: seq<Bytes>, off: nat)
    requires l.sStart <= |slog| && k < |slog| && todo != [] && ReaderOk(slog, k, l, todo, off)
    ensures ReaderOk(slog, k + 1, l, todo[1..], off)
  {
    if k + 1 == l.sStart {
      assert slog[l.sStart..k + 1] == [];
    }
  }

  /** Taking the next frame off the link: it is the entry at the client's own position. */
  lemma FrameClientOk(y: System, recvSeq: nat)
    requires LinksOk(Clog(y), y.s.log, y.s.recvSeq, y.links)
    requires ClientOk(y.c.out, y.c.inb.recvSeq, y.s.log, y.links, y.c.phase)
    requires y.c.phase.Running? && FrameReady(y)
    ensures var f := ReadOne(Cur(y).sWire[y.c.phase.off..]).body;
            var off := y.c.phase.off + |FrameBytes(f)|;
            && y.c.inb.recvSeq < |y.s.log| && f == y.s.log[y.c.inb.recvSeq] && |f| <= MAX_FRAME_SIZE
            && (recvSeq == y.c.inb.recvSeq + 1 ==>
                  ClientOk(y.c.out, recvSeq, y.s.log, y.links, y.c.phase.(off := off)))
  {
    hide Framed, FrameBytes, ReadOne, WriterOk, RecoveringOk, ServerPhaseOk, FromClientOk;
    var l, k := Cur(y), y.c.inb.recvSeq;
    assert ReaderOk(y.s.log, k, l, [], y.c.phase.off);
    NextServerFrame(y.s.log, l, k);
  }

  lemma DeliverFrameInv(cfg: Config, y: System)
    requires ValidConfig(cfg) && Inv(cfg, y) && CanDeliverFrame(y)
    ensures Inv(cfg, DoDeliverFrame(cfg, y))
  {
    hide Framed, FrameBytes, ReadOne, Entry, Size, Ok, LogsOk, LinksOk, ServerOk, CurOk, ClientOk, Exact,
         Inbound.Deliver, ValidConfig;
    FrameClientOk(y, y.c.inb.recvSeq + 1);
    DeliveredOk(cfg, y, y.s.log[y.c.inb.recvSeq]);
  }

  lemma LongerStream(log: seq<Bytes>, a: nat, b: nat, c: nat)
    requires a <= b < c <= |log|
    ensures |Framed(log[a..b])| < |Framed(log[a..c])|
  {
    assert log[a..c] == log[a..b] + log[b..c];
    StreamConcat(log[a..b], log[b..c]);
  }

  /** The client's next frame is the entry at its own position, and it fits a frame. */
  lemma NextServerFrame(slog: seq<Bytes>, l: Link, k: nat)
    requires l.sStart <= l.sBegun <= |slog| && Framable(slog[l.sStart..l.sBegun])
    requires l.sWire <= Framed(slog[l.sStart..l.sBegun]) && l.sStart <= k <= |slog|
    requires |Framed(slog[l.sStart..k])| <= |l.sWire|
    requires ReadOne(l.sWire[|Framed(slog[l.sStart..k])|..]).Frame?
    ensures k < |slog| && ReadOne(l.sWire[|Framed(slog[l.sStart..k])|..]).body == slog[k]
    ensures |slog[k]| <= MAX_FRAME_SIZE
    ensures |Framed(slog[l.sStart..k + 1])| == |Framed(slog[l.sStart..k])| + |FrameBytes(slog[k])| <= |l.sWire|
  {
    if k > l.sBegun { LongerStream(slog, l.sStart, l.sBegun, k); }
    var log := slog[..l.sBegun];
    assert log[l.sStart..] == slog[l.sStart..l.sBegun];
    assert log[l.sStart..k] == slog[l.sStart..k];
    var rest := log[k..];
    forall i | 0 <= i < |rest| ensures |rest[i]| <= MAX_FRAME_SIZE {
      assert rest[i] == slog[l.sStart..l.sBegun][k - l.sStart + i];
    }
    NextFrame(log, l.sStart, k, l.sWire);
    assert log[l.sStart..k + 1] == slog[l.sStart..k + 1];
    assert rest[0] == slog[k];
  }
}
