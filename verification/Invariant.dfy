/** The invariant of the transport: what holds in every reachable state. */
module Invariant {
  import opened Bytes
  import opened Frames
  import opened Nonces
  import opened Packets
  import opened Sealing
  import opened Outbound
  import opened Inbound
  import opened Writer
  import opened Protocol

  ghost function Clog(y: System): seq<Bytes> { y.c.out.ring.log }

  /** The logs hold the packets in order, each sealed at its own sequence number. */
  ghost predicate LogsOk(cfg: Config, clog: seq<Bytes>, csent: seq<Packet>, slog: seq<Bytes>, ssent: seq<Packet>)
  {
    && Sealed(cfg.cipher, ClientToServer, clog, csent)
    && Sealed(cfg.cipher, ServerToClient, slog, ssent)
    && |clog| <= MAX_SEQ
  }

  // ---------------------------------------------------------------- one link

  /** What the client has put on the link, given everything it ever sealed. */
  ghost predicate FromClientOk(clog: seq<Bytes>, pos: nat, l: Link)
  {
    && l.cStart <= |clog| && l.cWire <= Framed(clog[l.cStart..])
    && (l.isNew ==> l.cStart == 0)
    && (l.cHeader.Some? ==> 0 <= l.cHeader.value <= MAX_INT32)
    && (!l.isNew && l.cCatchup.None? ==> l.cWire == [])
    && (l.sHeader.None? ==> l.cCatchup.None?)
    && (l.sHeader.Some? ==> l.sPos <= pos && l.sHeader.value == Int32(l.sPos))
    && (l.cCatchup.Some? ==> l.sPos <= l.cStart && l.cCatchup.value == clog[l.sPos..l.cStart])
  }

  /** The server's catchup runs from the position the client's header states. */
  ghost predicate CatchupOk(slog: seq<Bytes>, l: Link)
    requires l.sStart <= |slog|
  {
    l.sCatchup.Some? ==>
      && l.cHeader.Some? && 0 <= l.cHeader.value <= l.sStart
      && l.sCatchup.value == slog[l.cHeader.value..l.sStart]
  }

  /** What the server has put on the link. It speaks on a recovered link only after it has
      accepted the client's whole catchup. */
  ghost predicate FromServerOk(slog: seq<Bytes>, pos: nat, l: Link)
  {
    && l.sStart <= l.sBegun <= |slog|
    && Framable(slog[l.sStart..l.sBegun]) && l.sWire <= Framed(slog[l.sStart..l.sBegun])
    && (l.isNew ==> l.sStart == 0)
    && CatchupOk(slog, l)
    && (l.sWire != [] && !l.isNew ==> l.cCatchup.Some? && l.cStart <= pos)
  }

  ghost predicate ServerPhaseOk(clog: seq<Bytes>, slog: seq<Bytes>, pos: nat, l: Link)
  {
    match l.server
    case Waiting => l.sHeader.None? && l.sCatchup.None? && l.sBegun == l.sStart && !l.late
    case Greeting => !l.isNew && l.sHeader.None? && l.sCatchup.None? && l.sBegun == l.sStart
    case Greeted => !l.isNew && l.sHeader.Some? && l.sCatchup.None? && l.sBegun == l.sStart
    case Answering(catchup, next) =>
      && !l.isNew && l.sHeader.Some? && l.sCatchup.None?
      && next == l.sStart == l.sBegun && l.cHeader.Some? && 0 <= l.cHeader.value <= next <= |slog|
      && catchup == slog[l.cHeader.value..next]
    case Listening(next) =>
      !l.isNew && l.sHeader.Some? && l.sCatchup.Some? && next == l.sStart == l.sBegun
    case Accepting(_, next) =>
      && !l.isNew && l.sHeader.Some? && l.sCatchup.Some? && l.cCatchup.Some?
      && next == l.sStart == l.sBegun
    case Streaming(read, off, next, _, writing) =>
      && l.cStart <= read <= |clog| && off == |Framed(clog[l.cStart..read])| <= |l.cWire|
      && (writing ==> l.sStart <= next == l.sBegun <= |slog| && l.sWire == Framed(slog[l.sStart..next]))
      && (!l.isNew ==> l.sHeader.Some? && l.sCatchup.Some? && l.cCatchup.Some? && l.cStart <= pos)
    case Closed => true
  }

  ghost predicate LinkOk(clog: seq<Bytes>, slog: seq<Bytes>, pos: nat, l: Link)
  {
    FromClientOk(clog, pos, l) && FromServerOk(slog, pos, l) && ServerPhaseOk(clog, slog, pos, l)
    && (l.late ==> l.isNew)
  }

  lemma FromClientGrows(clog: seq<Bytes>, cmore: seq<Bytes>, pos: nat, pos': nat, l: Link)
    requires FromClientOk(clog, pos, l) && pos <= pos'
    ensures FromClientOk(clog + cmore, pos', l)
  {
    StreamGrows(clog, cmore, l.cStart, l.cWire);
    if l.cCatchup.Some? { assert (clog + cmore)[l.sPos..l.cStart] == clog[l.sPos..l.cStart]; }
  }

  lemma FromServerGrows(slog: seq<Bytes>, smore: seq<Bytes>, pos: nat, pos': nat, l: Link)
    requires FromServerOk(slog, pos, l) && pos <= pos'
    ensures FromServerOk(slog + smore, pos', l)
  {
    var s := slog + smore;
    assert s[l.sStart..l.sBegun] == slog[l.sStart..l.sBegun];
    if l.sCatchup.Some? { assert s[l.cHeader.value..l.sStart] == slog[l.cHeader.value..l.sStart]; }
  }

  lemma PhaseGrows(clog: seq<Bytes>, slog: seq<Bytes>, pos: nat, l: Link,
                   cmore: seq<Bytes>, smore: seq<Bytes>, pos': nat)
    requires ServerPhaseOk(clog, slog, pos, l) && pos <= pos'
    ensures ServerPhaseOk(clog + cmore, slog + smore, pos', l)
  {
    match l.server
    case Answering(_, next) =>
      assert (slog + smore)[l.cHeader.value..next] == slog[l.cHeader.value..next];
    case Streaming(read, _, next, _, writing) =>
      assert (clog + cmore)[l.cStart..read] == clog[l.cStart..read];
      if writing { assert (slog + smore)[l.sStart..next] == slog[l.sStart..next]; }
    case _ =>
  }

  lemma LinksGrow(clog: seq<Bytes>, slog: seq<Bytes>, pos: nat, links: seq<Link>,
                  cmore: seq<Bytes>, smore: seq<Bytes>, pos': nat)
    requires LinksOk(clog, slog, pos, links) && pos <= pos'
    ensures LinksOk(clog + cmore, slog + smore, pos', links)
  {
    forall i | 0 <= i < |links|
      ensures LinkOk(clog + cmore, slog + smore, pos', links[i])
    {
      FromClientGrows(clog, cmore, pos, pos', links[i]);
      FromServerGrows(slog, smore, pos, pos', links[i]);
      PhaseGrows(clog, slog, pos, links[i], cmore, smore, pos');
    }
  }

  ghost predicate LinksOk(clog: seq<Bytes>, slog: seq<Bytes>, pos: nat, links: seq<Link>)
  {
    && (forall i :: 0 <= i < |links| ==> LinkOk(clog, slog, pos, links[i]))
    && (forall i :: 0 < i < |links| ==> !links[i].isNew)
  }

  // ---------------------------------------------------------------- the server

  ghost predicate ServerOk(s: Server, csent: seq<Packet>, links: seq<Link>)
  {
    && s.recvSeq <= |csent| && s.accepted == csent[..s.recvSeq]
    && (!s.refused ==> s.count == s.recvSeq)
    && (s.refused ==> |links| > 0 && links[0].late && !StillReading(links[0]))
  }

  ghost predicate StillReading(l: Link) { l.server.Streaming? && l.server.reading }

  /** The link being served, against the server's position. */
  ghost predicate ServedOk(clog: seq<Bytes>, pos: nat, l: Link)
    requires pos <= |clog|
  {
    match l.server
    case Greeted => l.sPos == pos
    case Answering(_, _) => l.sPos == pos
    case Listening(_) => l.sPos == pos
    case Accepting(todo, _) => pos <= l.cStart <= |clog| && todo == clog[pos..l.cStart]
    case Streaming(read, _, _, _, _) => if l.late then read == 0 < pos else read == pos
    case _ => true
  }

  ghost predicate Resting(l: Link) { l.server.Waiting? || l.server.Closed? }

  ghost predicate CurOk(clog: seq<Bytes>, pos: nat, cur: Option<nat>, links: seq<Link>)
  {
    && pos <= |clog|
    && (forall i :: 0 <= i < |links| && cur != Some(i) ==> Resting(links[i]))
    && (cur.Some? ==> cur.value < |links| && ServedOk(clog, pos, links[cur.value]))
  }

  // ---------------------------------------------------------------- the client

  ghost predicate WriterOk(o: Outbound, l: Link, w: WriterState)
    requires o.flushed <= o.Next()
  {
    var log := o.ring.log;
    && l.cStart <= o.flushed
    && match w
       case Parked => l.cWire == Framed(log[l.cStart..o.flushed])
       case Sending(base, sent, probeAt, buf, written) =>
         && base == o.flushed && 0 < sent && base + sent <= |log|
         && buf == Framed(log[base..base + sent]) && written <= |buf|
         && l.cWire == Framed(log[l.cStart..base]) + buf[..written]
         && probeAt == ProbeAt(log, base, sent, o.lastProbe)
  }

  /** The reader has consumed exactly the received packets of this link. */
  ghost predicate ReaderOk(slog: seq<Bytes>, recvSeq: nat, l: Link, todo: seq<Bytes>, off: nat)
    requires l.sStart <= |slog| && recvSeq <= |slog|
  {
    if recvSeq < l.sStart then todo == slog[recvSeq..l.sStart] && off == 0
    else todo == [] && off == |Framed(slog[l.sStart..recvSeq])| <= |l.sWire|
  }

  ghost predicate RecoveringOk(o: Outbound, recvSeq: nat, l: Link, ph: ClientPhase)
    requires ph.Recovering?
  {
    && !l.isNew && l.cWire == []
    && (if ph.wroteHeader then l.cHeader == Some(recvSeq) && recvSeq <= MAX_INT32 else l.cHeader.None?)
    && (ph.peer.Some? ==> l.sHeader == ph.peer)
    && (l.sHeader.Some? && o.ring.held ==> o.ring.hold <= l.sPos)
    && (ph.snap.Some? ==>
          var s := ph.snap.value;
          && ph.wroteHeader && ph.peer.Some? && ph.peer.value == l.sPos
          && s.next == l.cStart && o.flushed <= s.next <= o.Next()
          && o.ring.first <= l.sPos <= s.next && s.ours == o.ring.log[l.sPos..s.next])
    && (ph.wroteCatchup ==> ph.snap.Some?)
    && (ph.wroteCatchup <==> l.cCatchup.Some?)
    && (ph.theirs.Some? ==> ph.peer.Some? && l.sCatchup == ph.theirs)
  }

  /** On a recovered link, until the server is heard: everything from the position it stated is held.
      On the first link, and from the server's first frame on, nothing is. */
  ghost predicate HeldFor(w: Window, l: Link, released: bool)
  {
    if l.isNew || released then !w.held else w.held && w.hold == l.sPos
  }

  ghost predicate ClientOk(o: Outbound, recvSeq: nat, slog: seq<Bytes>, links: seq<Link>, ph: ClientPhase)
  {
    && o.flushed <= o.Next() && recvSeq <= |slog|
    && match ph
       case Idle => true
       case Stopped => true
       case Recovering(_, _, _, _, _) =>
         |links| > 0 && RecoveringOk(o, recvSeq, links[|links| - 1], ph)
       case Running(todo, off, released, writer) =>
         && |links| > 0
         && var l := links[|links| - 1];
            && (!l.isNew ==> l.cCatchup.Some? && l.sCatchup.Some?)
            && l.sStart <= |slog| && ReaderOk(slog, recvSeq, l, todo, off)
            && WriterOk(o, l, writer) && HeldFor(o.ring, l, released)
  }

  ghost predicate HoldOk(w: Window, pos: nat) { w.held ==> w.hold <= pos }

  /** An integrity failure has one cause: an entry too large for a frame. */
  ghost predicate BrokenOk(c: Client, slog: seq<Bytes>)
  {
    c.inb.broken ==> c.ended && exists i :: 0 <= i < |slog| && |slog[i]| > MAX_FRAME_SIZE
  }

  /** Between links no packet is in the reader's hands, and no watcher runs. */
  ghost predicate ThreadsOk(c: Client)
  {
    && (!c.phase.Running? ==> c.inb.holding.None? && !c.watched)
    && (c.watched ==> c.out.Next() > 0)
  }

  /** Before the first link nothing was written, read or accepted. */
  ghost predicate FirstOk(y: System)
  {
    if y.links == [] then
      && y.c.inb.recvSeq == y.c.out.flushed == y.s.recvSeq == 0
      && !y.c.phase.Running? && !y.c.phase.Recovering? && !y.c.out.ring.held
    else y.s.known
  }

  ghost predicate Inv(cfg: Config, y: System)
  {
    && LogsOk(cfg, Clog(y), y.c.sent, y.s.log, y.s.sent)
    && Ok(y.c.out) && y.c.out.ring.limit == cfg.limit
    && Exact(y.c.inb, y.s.sent)
    && LinksOk(Clog(y), y.s.log, y.s.recvSeq, y.links)
    && ServerOk(y.s, y.c.sent, y.links)
    && CurOk(Clog(y), y.s.recvSeq, y.s.cur, y.links)
    && ClientOk(y.c.out, y.c.inb.recvSeq, y.s.log, y.links, y.c.phase)
    && HoldOk(y.c.out.ring, y.s.recvSeq)
    && BrokenOk(y.c, y.s.log) && ThreadsOk(y.c) && FirstOk(y)
  }

  /** Replacing one link by another that is well-formed and served alike. */
  lemma ReplaceLink(y: System, i: nat, l: Link)
    requires LinksOk(Clog(y), y.s.log, y.s.recvSeq, y.links)
    requires CurOk(Clog(y), y.s.recvSeq, y.s.cur, y.links)
    requires ServerOk(y.s, y.c.sent, y.links)
    requires i < |y.links| && LinkOk(Clog(y), y.s.log, y.s.recvSeq, l)
    requires l.isNew == y.links[i].isNew && (y.links[i].late ==> l.late)
    requires y.s.cur == Some(i) ==> ServedOk(Clog(y), y.s.recvSeq, l)
    requires y.s.cur != Some(i) ==> Resting(l)
    requires StillReading(l) ==> StillReading(y.links[i]) || !y.s.refused || i != 0
    ensures LinksOk(Clog(y), y.s.log, y.s.recvSeq, y.links[i := l])
    ensures CurOk(Clog(y), y.s.recvSeq, y.s.cur, y.links[i := l])
    ensures ServerOk(y.s, y.c.sent, y.links[i := l])
  {
  }

  /** Sealing one more client packet. */
  lemma ClientSeals(cfg: Config, y: System, p: Packet)
    requires ValidConfig(cfg) && Inv(cfg, y) && |Clog(y)| < MAX_SEQ && |p.payload| <= MAX_PAYLOAD
    ensures var data := SealOut(cfg, y.c, p);
            var clog := Clog(y) + [data];
            && MIN_ENTRY <= |data| <= MAX_FRAME_SIZE
            && LogsOk(cfg, clog, y.c.sent + [p], y.s.log, y.s.sent)
            && LinksOk(clog, y.s.log, y.s.recvSeq, y.links)
            && ServerOk(y.s, y.c.sent + [p], y.links)
            && CurOk(clog, y.s.recvSeq, y.s.cur, y.links)
  {
    hide Framed, FrameBytes, Size, PacketBytes, Ideal, Exact, ClientOk, LinkOk, ServedOk, Ok;
    var data, pos := SealOut(cfg, y.c, p), y.s.recvSeq;
    EntrySize(cfg.cipher, ClientToServer, |Clog(y)|, p);
    LinksGrow(Clog(y), y.s.log, pos, y.links, [data], [], pos);
    assert y.s.log + [] == y.s.log;
    assert (y.c.sent + [p])[..pos] == y.c.sent[..pos];
    if y.s.cur.Some? { ServedGrows(Clog(y), data, pos, y.links[y.s.cur.value]); }
  }

  lemma ServedGrows(clog: seq<Bytes>, data: Bytes, pos: nat, l: Link)
    requires pos <= |clog| && ServedOk(clog, pos, l)
    ensures ServedOk(clog + [data], pos, l)
  {
    if l.server.Accepting? { assert (clog + [data])[pos..l.cStart] == clog[pos..l.cStart]; }
  }

  lemma WriterGrows(o: Outbound, o': Outbound, data: Bytes, l: Link, w: WriterState)
    requires o.flushed <= o.Next() && WriterOk(o, l, w)
    requires o'.ring.log == o.ring.log + [data] && o'.flushed == o.flushed
    requires o'.lastProbe == o.lastProbe || (o.lastProbe < o.flushed && o'.lastProbe == |o.ring.log|)
    ensures WriterOk(o', l, w)
  {
    hide Framed;
    var log, log' := o.ring.log, o'.ring.log;
    assert log'[l.cStart..o.flushed] == log[l.cStart..o.flushed];
    if w.Sending? {
      assert log'[w.base..w.base + w.sent] == log[w.base..w.base + w.sent];
      if w.base <= o.lastProbe < w.base + w.sent {
        assert log'[w.base..o.lastProbe] == log[w.base..o.lastProbe];
      }
    }
  }

  /** The client's own state when the log grows and nothing it refers to by position moves. */
  lemma ClientGrows(o: Outbound, o': Outbound, data: Bytes, recvSeq: nat, slog: seq<Bytes>, links: seq<Link>,
                    ph: ClientPhase)
    requires ClientOk(o, recvSeq, slog, links, ph)
    requires o'.ring == o.ring.Push(data) && o'.flushed == o.flushed
    requires o'.lastProbe == o.lastProbe || (o.lastProbe < o.flushed && o'.lastProbe == |o.ring.log|)
    ensures ClientOk(o', recvSeq, slog, links, ph)
  {
    hide Framed, WriterOk, ReaderOk;
    match ph
    case Recovering(_, _, snap, _, _) =>
      if snap.Some? {
        var l := links[|links| - 1];
        assert o'.ring.log[l.sPos..snap.value.next] == o.ring.log[l.sPos..snap.value.next];
      }
    case Running(_, _, _, w) => WriterGrows(o, o', data, links[|links| - 1], w);
    case _ =>
  }
}
