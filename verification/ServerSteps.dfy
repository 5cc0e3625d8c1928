/** Every step of the server keeps the invariant. */
module ServerSteps {
  import opened Bytes
  import opened Frames
  import opened Nonces
  import opened Packets
  import opened Sealing
  import opened Outbound
  import opened Inbound
  import opened Writer
  import opened Protocol
  import opened Invariant

  lemma EchoInv(cfg: Config, y: System, on: bool)
    requires Inv(cfg, y)
    ensures Inv(cfg, DoEcho(y, on))
  {
    hide Framed, FrameBytes, ReadOne, Entry, Size, Ok, Sealed;
  }

  /** The server seals one more packet. */
  lemma ServerSeals(cfg: Config, slog: seq<Bytes>, ssent: seq<Packet>, p: Packet, y: System)
    requires slog == y.s.log && ssent == y.s.sent && Inv(cfg, y)
    ensures var data := Entry(cfg.cipher, ServerToClient, |slog|, p);
            && LogsOk(cfg, Clog(y), y.c.sent, slog + [data], ssent + [p])
            && Exact(y.c.inb, ssent + [p])
            && LinksOk(Clog(y), slog + [data], y.s.recvSeq, y.links)
            && ClientOk(y.c.out, y.c.inb.recvSeq, slog + [data], y.links, y.c.phase)
            && BrokenOk(y.c, slog + [data])
  {
    hide Framed, FrameBytes, ReadOne, Size, Ok, PacketBytes;
    var data := Entry(cfg.cipher, ServerToClient, |slog|, p);
    ExactGrows(y.c.inb, ssent, [p]);
    LinksGrow(Clog(y), slog, y.s.recvSeq, y.links, [], [data], y.s.recvSeq);
    assert Clog(y) + [] == Clog(y);
    ServerLogGrows(y.c.out, y.c.inb.recvSeq, slog, data, y.links, y.c.phase);
    if y.c.inb.broken {
      var i :| 0 <= i < |slog| && |slog[i]| > MAX_FRAME_SIZE;
      assert (slog + [data])[i] == slog[i];
    }
  }

  lemma ServerLogGrows(o: Outbound, recvSeq: nat, slog: seq<Bytes>, data: Bytes, links: seq<Link>, ph: ClientPhase)
    requires ClientOk(o, recvSeq, slog, links, ph)
    ensures ClientOk(o, recvSeq, slog + [data], links, ph)
  {
    hide Framed, FrameBytes, WriterOk, RecoveringOk;
    if ph.Running? {
      var l := links[|links| - 1];
      if recvSeq < l.sStart {
        assert (slog + [data])[recvSeq..l.sStart] == slog[recvSeq..l.sStart];
      } else {
        assert (slog + [data])[l.sStart..recvSeq] == slog[l.sStart..recvSeq];
      }
    }
  }

  lemma ServerSendInv(cfg: Config, y: System, p: Packet)
    requires Inv(cfg, y)
    ensures Inv(cfg, DoServerSend(cfg, y, p))
  {
    hide Framed, FrameBytes, ReadOne, Entry, Size, Ok, Sealed, WriterOk, ReaderOk, RecoveringOk, LinkOk, ServedOk;
    ServerSeals(cfg, y.s.log, y.s.sent, p, y);
  }

  lemma TakeOverLinkOk(clog: seq<Bytes>, slog: seq<Bytes>, pos: nat, l: Link)
    requires LinkOk(clog, slog, pos, l) && l.server.Waiting? && pos <= |clog|
    ensures LinkOk(clog, slog, pos, TakenOver(l, pos)) && ServedOk(clog, pos, TakenOver(l, pos)) && !l.late
  {
    assert clog[0..0] == [] && slog[0..0] == [];
  }

  lemma TakeOverInv(cfg: Config, y: System, i: nat)
    requires Inv(cfg, y) && CanTakeOver(y, i)
    ensures Inv(cfg, DoTakeOver(y, i))
  {
    hide Framed, FrameBytes, ReadOne, Entry, Size, Ok, Sealed, WriterOk, ReaderOk, RecoveringOk, Exact, LinkOk,
         ServedOk;
    TakeOverLinkOk(Clog(y), y.s.log, y.s.recvSeq, y.links[i]);
    TakenOverClient(y, i);
  }

  /** Taking a link over changes nothing the client relies on. */
  lemma TakenOverClient(y: System, i: nat)
    requires ClientOk(y.c.out, y.c.inb.recvSeq, y.s.log, y.links, y.c.phase) && i < |y.links|
    ensures ClientOk(y.c.out, y.c.inb.recvSeq, y.s.log, y.links[i := TakenOver(y.links[i], y.s.recvSeq)], y.c.phase)
  {
    hide Framed, FrameBytes, ReadOne;
  }

  /** One link of the server's changes, and the client relies on none of what changed. */
  lemma ServedStep(cfg: Config, y: System, l: Link)
    requires Inv(cfg, y) && Serving(y) && !Resting(Served(y))
    requires LinkOk(Clog(y), y.s.log, y.s.recvSeq, l) && ServedOk(Clog(y), y.s.recvSeq, l)
    requires l.isNew == Served(y).isNew && l.late == Served(y).late
    requires StillReading(l) ==> StillReading(Served(y)) || !l.late
    requires ClientOk(y.c.out, y.c.inb.recvSeq, y.s.log, y.links[y.s.cur.value := l], y.c.phase)
    ensures Inv(cfg, SetServed(y, l))
  {
    hide Framed, FrameBytes, ReadOne, Entry, Size, Ok, Sealed, WriterOk, ReaderOk, RecoveringOk, Exact, LinkOk,
         ServedOk, ClientOk;
    ReplaceLink(y, y.s.cur.value, l);
  }

  /** The client's view of a link whose server side only adds to it. */
  lemma ClientSees(o: Outbound, recvSeq: nat, slog: seq<Bytes>, links: seq<Link>, ph: ClientPhase, i: nat, l: Link)
    requires ClientOk(o, recvSeq, slog, links, ph) && i < |links|
    requires l.isNew == links[i].isNew && l.cWire == links[i].cWire && l.cHeader == links[i].cHeader
    requires l.cCatchup == links[i].cCatchup && l.cStart == links[i].cStart
    requires if links[i].sHeader.Some? then l.sHeader == links[i].sHeader && l.sPos == links[i].sPos
             else l.sHeader.Some? ==> HoldOk(o.ring, l.sPos)
    requires links[i].sCatchup.Some? ==> l.sCatchup == links[i].sCatchup
    requires (l.isNew || links[i].sCatchup.Some?) ==> l.sStart == links[i].sStart
    requires links[i].sWire <= l.sWire
    requires links[i].sHeader.None? ==> links[i].cCatchup.None?
    ensures ClientOk(o, recvSeq, slog, links[i := l], ph)
  {
    hide Framed, FrameBytes;
  }

  lemma GreetInv(cfg: Config, y: System)
    requires Inv(cfg, y) && CanGreet(y)
    ensures Inv(cfg, DoGreet(y))
  {
    hide Framed, FrameBytes, ReadOne, Entry, Size, Ok, Sealed, WriterOk, ReaderOk, RecoveringOk, Exact, ClientOk;
    var l := Served(y).(server := Greeted, sHeader := Some(Int32(y.s.recvSeq)), sPos := y.s.recvSeq);
    ClientSees(y.c.out, y.c.inb.recvSeq, y.s.log, y.links, y.c.phase, y.s.cur.value, l);
    ServedStep(cfg, y, l);
  }

  lemma HearInv(cfg: Config, y: System)
    requires Inv(cfg, y) && CanHear(y)
    ensures Inv(cfg, DoHear(y))
  {
    hide FrameBytes, ReadOne, Entry, Size, Ok, Sealed, WriterOk, ReaderOk, RecoveringOk, Exact, ClientOk;
    var l := DoHear(y).links[y.s.cur.value];
    assert y.s.log[|y.s.log|..|y.s.log|] == [];
    ClientSees(y.c.out, y.c.inb.recvSeq, y.s.log, y.links, y.c.phase, y.s.cur.value, l);
    ServedStep(cfg, y, l);
  }

  lemma AnswerInv(cfg: Config, y: System)
    requires Inv(cfg, y) && CanAnswer(y)
    ensures Inv(cfg, DoAnswer(y))
  {
    hide Framed, FrameBytes, ReadOne, Entry, Size, Ok, Sealed, WriterOk, ReaderOk, RecoveringOk, Exact, ClientOk;
    var l := DoAnswer(y).links[y.s.cur.value];
    ClientSees(y.c.out, y.c.inb.recvSeq, y.s.log, y.links, y.c.phase, y.s.cur.value, l);
    ServedStep(cfg, y, l);
  }

  lemma ListenInv(cfg: Config, y: System)
    requires Inv(cfg, y) && CanListen(y)
    ensures Inv(cfg, DoListen(y))
  {
    hide Framed, FrameBytes, ReadOne, Entry, Size, Ok, Sealed, WriterOk, ReaderOk, RecoveringOk, Exact, ClientOk;
    var l := DoListen(y).links[y.s.cur.value];
    ClientSees(y.c.out, y.c.inb.recvSeq, y.s.log, y.links, y.c.phase, y.s.cur.value, l);
    ServedStep(cfg, y, l);
  }

  /** The catchup is accepted whole: the server's position is where the client's stream starts. */
  lemma StreamInv(cfg: Config, y: System)
    requires Inv(cfg, y) && CanStream(y)
    ensures Inv(cfg, DoStream(y))
  {
    hide FrameBytes, ReadOne, Entry, Size, Ok, Sealed, WriterOk, ReaderOk, RecoveringOk, Exact, ClientOk;
    var l := Served(y);
    assert Clog(y)[l.cStart..l.cStart] == [] && y.s.log[l.sStart..l.sStart] == [];
    var l' := DoStream(y).links[y.s.cur.value];
    ClientSees(y.c.out, y.c.inb.recvSeq, y.s.log, y.links, y.c.phase, y.s.cur.value, l');
    ServedStep(cfg, y, l');
  }

  // ---------------------------------------------------------------- accepting

  ghost function Refused(s: Server): Server { s.(count := s.count + 1, refused := true) }

  ghost function Echoed(cfg: Config, s: Server, p: Packet): Server
  {
    if p.header == KEEP_ALIVE && s.echo then Send(cfg, s, Packet(KEEP_ALIVE, [])) else s
  }

  /** An honest entry is accepted as what it is, or refused. In step it is accepted; out of
      step, within int64 counts, it is refused. */
  lemma AcceptOutcome(cfg: Config, s: Server, pos: nat, p: Packet)
    requires Ideal(cfg.cipher) && pos <= MAX_SEQ
    ensures Accept(cfg, s, Entry(cfg.cipher, ClientToServer, pos, p))
            in {Refused(s), Echoed(cfg, Opened(s, p), p)}
    ensures s.count == pos ==>
              Accept(cfg, s, Entry(cfg.cipher, ClientToServer, pos, p)) == Echoed(cfg, Opened(s, p), p)
    ensures s.count != pos && s.count <= MAX_SEQ ==>
              Accept(cfg, s, Entry(cfg.cipher, ClientToServer, pos, p)) == Refused(s)
  {
    OpensToItself(cfg.cipher, ClientToServer, pos, s.count, p);
    if s.count <= MAX_SEQ {
      OpensOnlyInStep(cfg.cipher, ClientToServer, pos, ClientToServer, s.count, p);
    }
    ParseUndoesAppend(true, p.header, cfg.cipher.seal(Nonce(ClientToServer, pos + 1), p.payload));
  }

  /** Which entries the server counts, for any bytes: as on the client, without the size limit. */
  lemma AcceptExactly(cfg: Config, s: Server, b: Bytes)
    ensures var t := Accept(cfg, s, b);
            var sealed := |b| >= 2 && b[0] != 0;
            var plain := if sealed then cfg.cipher.open(Nonce(ClientToServer, s.count + 1), b[2..]) else None;
            && t.count == s.count + (if sealed then 1 else 0)
            && t.recvSeq == s.recvSeq + (if plain.Some? then 1 else 0)
            && t.refused == (s.refused || plain.None?)
            && t.accepted == s.accepted + (if plain.Some? then [Packet(b[1], plain.value)] else [])
            && t.sent == s.sent + (if plain.Some? && b[1] == KEEP_ALIVE && s.echo then [Packet(KEEP_ALIVE, [])] else [])
  {
    hide Entry;
  }

  ghost function ServedAs(y: System, s: Server, l: Link): System
    requires Serving(y)
  {
    System(y.c, s, y.links[y.s.cur.value := l])
  }

  /** What accepting may change of a link. */
  ghost predicate OnlyPhase(l: Link, l': Link) { l' == l.(server := l'.server) }

  lemma OtherPhaseOk(clog: seq<Bytes>, slog: seq<Bytes>, pos: nat, l: Link, l': Link)
    requires LinkOk(clog, slog, pos, l) && OnlyPhase(l, l') && ServerPhaseOk(clog, slog, pos, l')
    ensures LinkOk(clog, slog, pos, l')
  {
    hide ServerPhaseOk, Framed;
  }

  /** The server's position moves on by the packet at that position. */
  lemma OpenedInv(cfg: Config, y: System, l: Link)
    requires Inv(cfg, y) && Serving(y) && !Resting(Served(y)) && y.s.recvSeq < |Clog(y)|
    requires OnlyPhase(Served(y), l) && (StillReading(l) ==> StillReading(Served(y)))
    requires ServerPhaseOk(Clog(y), y.s.log, y.s.recvSeq + 1, l) && ServedOk(Clog(y), y.s.recvSeq + 1, l)
    ensures Inv(cfg, ServedAs(y, Opened(y.s, y.c.sent[y.s.recvSeq]), l))
  {
    hide LogsOk, Ok, Exact, LinksOk, ServerOk, CurOk, ClientOk, BrokenOk, ServerPhaseOk, ServedOk;
    SamePhase(y, y.s.cur.value, l);
    SealedLengths(cfg, y);
    OpenedLinksOk(y, l);
  }

  lemma SealedLengths(cfg: Config, y: System)
    requires LogsOk(cfg, Clog(y), y.c.sent, y.s.log, y.s.sent)
    ensures |Clog(y)| == |y.c.sent|
  {
    hide Entry;
  }

  /** The links, when the served one moves on by the packet at the server's position. */
  lemma OpenedLinksOk(y: System, l: Link)
    requires LinksOk(Clog(y), y.s.log, y.s.recvSeq, y.links) && ServerOk(y.s, y.c.sent, y.links)
    requires CurOk(Clog(y), y.s.recvSeq, y.s.cur, y.links) && Serving(y)
    requires y.s.recvSeq < |Clog(y)| == |y.c.sent|
    requires OnlyPhase(Served(y), l) && (StillReading(l) ==> StillReading(Served(y)))
    requires ServerPhaseOk(Clog(y), y.s.log, y.s.recvSeq + 1, l) && ServedOk(Clog(y), y.s.recvSeq + 1, l)
    ensures var z := ServedAs(y, Opened(y.s, y.c.sent[y.s.recvSeq]), l);
            && LinksOk(Clog(z), z.s.log, z.s.recvSeq, z.links) && ServerOk(z.s, z.c.sent, z.links)
            && CurOk(Clog(z), z.s.recvSeq, z.s.cur, z.links)
  {
    hide LinkOk, ServedOk, ServerPhaseOk;
    var pos := y.s.recvSeq;
    LinksGrow(Clog(y), y.s.log, pos, y.links, [], [], pos + 1);
    assert Clog(y) + [] == Clog(y) && y.s.log + [] == y.s.log;
    OtherPhaseOk(Clog(y), y.s.log, pos + 1, Served(y), l);
    assert y.c.sent[..pos + 1] == y.c.sent[..pos] + [y.c.sent[pos]];
  }

  lemma SamePhase(y: System, i: nat, l: Link)
    requires ClientOk(y.c.out, y.c.inb.recvSeq, y.s.log, y.links, y.c.phase)
    requires i < |y.links| && OnlyPhase(y.links[i], l)
    ensures ClientOk(y.c.out, y.c.inb.recvSeq, y.s.log, y.links[i := l], y.c.phase)
  {
    hide Framed, FrameBytes;
  }

  /** The served link stops reading, and the refusal is put down to the late link. */
  lemma RefusedLinksOk(y: System, l: Link)
    requires LinksOk(Clog(y), y.s.log, y.s.recvSeq, y.links) && ServerOk(y.s, y.c.sent, y.links)
    requires CurOk(Clog(y), y.s.recvSeq, y.s.cur, y.links) && Serving(y)
    requires OnlyPhase(Served(y), l) && !StillReading(l)
    requires ServerPhaseOk(Clog(y), y.s.log, y.s.recvSeq, l) && ServedOk(Clog(y), y.s.recvSeq, l)
    requires y.s.refused || (y.s.cur.value == 0 && Served(y).late)
    ensures var z := ServedAs(y, Refused(y.s), l);
            && LinksOk(Clog(z), z.s.log, z.s.recvSeq, z.links) && ServerOk(z.s, z.c.sent, z.links)
            && CurOk(Clog(z), z.s.recvSeq, z.s.cur, z.links)
  {
    hide LinkOk, ServedOk, ServerPhaseOk;
    OtherPhaseOk(Clog(y), y.s.log, y.s.recvSeq, Served(y), l);
    ReplaceLink(y, y.s.cur.value, l);
  }

  lemma RefusedInv(cfg: Config, y: System, l: Link)
    requires Inv(cfg, y) && Serving(y) && !Resting(Served(y))
    requires OnlyPhase(Served(y), l) && !StillReading(l)
    requires ServerPhaseOk(Clog(y), y.s.log, y.s.recvSeq, l) && ServedOk(Clog(y), y.s.recvSeq, l)
    requires y.s.refused || (y.s.cur.value == 0 && Served(y).late)
    ensures Inv(cfg, ServedAs(y, Refused(y.s), l))
  {
    hide LogsOk, Ok, Exact, LinksOk, ServerOk, CurOk, ClientOk, HoldOk, BrokenOk, ServerPhaseOk, ServedOk;
    SamePhase(y, y.s.cur.value, l);
    RefusedLinksOk(y, l);
  }

  lemma EchoedInv(cfg: Config, y: System, p: Packet)
    requires Inv(cfg, y)
    ensures Inv(cfg, y.(s := Echoed(cfg, y.s, p)))
  {
    hide Framed, FrameBytes, ReadOne, Entry, Size, Ok, Sealed, WriterOk, ReaderOk, RecoveringOk, Exact, ClientOk,
         LinkOk, Inv;
    if p.header == KEEP_ALIVE && y.s.echo { ServerSendInv(cfg, y, Packet(KEEP_ALIVE, [])); }
  }

  /** One entry of the client's catchup. */
  lemma AcceptInv(cfg: Config, y: System)
    requires ValidConfig(cfg) && Inv(cfg, y) && CanAccept(y)
    ensures Inv(cfg, DoAccept(cfg, y))
  {
    hide Framed, FrameBytes, ReadOne, Entry, Size, Ok, WriterOk, ReaderOk, RecoveringOk, Exact, ClientOk, Accept, Ideal;
    var l, pos, clog := Served(y), y.s.recvSeq, Clog(y);
    var p := y.c.sent[pos];
    assert l.server.todo == clog[pos..l.cStart];
    assert l.server.todo[0] == clog[pos] == Entry(cfg.cipher, ClientToServer, pos, p);
    AcceptOutcome(cfg, y.s, pos, p);
    var s := Accept(cfg, y.s, l.server.todo[0]);
    if s == Refused(y.s) {
      RefusedInv(cfg, y, l.(server := Closed));
    } else {
      var l' := l.(server := l.server.(todo := l.server.todo[1..]));
      assert clog[pos..l.cStart][1..] == clog[pos + 1..l.cStart];
      OpenedInv(cfg, y, l');
      EchoedInv(cfg, ServedAs(y, Opened(y.s, p), l'), p);
    }
  }

  lemma NextClientEntry(clog: seq<Bytes>, l: Link)
    requires forall i :: 0 <= i < |clog| ==> |clog[i]| <= MAX_FRAME_SIZE
    requires l.server.Streaming? && l.cStart <= l.server.read <= |clog|
    requires l.server.off == |Framed(clog[l.cStart..l.server.read])| <= |l.cWire|
    requires l.cWire <= Framed(clog[l.cStart..]) && ReadOne(l.cWire[l.server.off..]).Frame?
    ensures l.server.read < |clog| && ReadOne(l.cWire[l.server.off..]).body == clog[l.server.read]
    ensures |Framed(clog[l.cStart..l.server.read + 1])|
            == l.server.off + |FrameBytes(clog[l.server.read])| <= |l.cWire|
  {
    hide Framed, ReadOne, FrameBytes;
    var rest := clog[l.server.read..];
    forall i | 0 <= i < |rest| ensures |rest[i]| <= MAX_FRAME_SIZE {
      assert rest[i] == clog[l.server.read + i];
    }
    NextFrame(clog, l.cStart, l.server.read, l.cWire);
  }

  /** The next frame on the served link is the client's entry at the link's read position. */
  lemma NextClientFrame(cfg: Config, y: System)
    requires ValidConfig(cfg) && Inv(cfg, y) && CanServerRead(y)
    ensures var l := Served(y);
            && l.server.read < |Clog(y)| && ServerFrame(y) == Clog(y)[l.server.read]
            && |Framed(Clog(y)[l.cStart..l.server.read + 1])|
               == l.server.off + |FrameBytes(ServerFrame(y))| <= |l.cWire|
  {
    hide Framed, FrameBytes, ReadOne, Entry, Size, WriterOk, ReaderOk, RecoveringOk, Exact, ClientOk, Sealed, Ideal;
    NextClientEntry(Clog(y), Served(y));
  }

  /** Where the served link's next frame stands against the server's position: at it, unless
      the link was taken over late; then nothing has been refused yet, and the frame is old. */
  lemma ReadPosition(cfg: Config, y: System)
    requires Inv(cfg, y) && CanServerRead(y)
    ensures var l := Served(y);
            if l.late
            then y.s.cur == Some(0) && !y.s.refused && l.server.read == 0 < y.s.recvSeq == y.s.count <= MAX_SEQ
            else l.server.read == y.s.recvSeq
  {
    hide Framed, FrameBytes, ReadOne, Entry, Size, Ok, WriterOk, ReaderOk, RecoveringOk, Exact, ClientOk;
  }

  lemma ReadOnPhase(clog: seq<Bytes>, slog: seq<Bytes>, pos: nat, l: Link)
    requires ServerPhaseOk(clog, slog, pos, l) && l.server.Streaming? && l.server.read < |clog| && pos <= |clog|
    requires var off := |Framed(clog[l.cStart..l.server.read + 1])|; off <= |l.cWire|
    ensures var off := |Framed(clog[l.cStart..l.server.read + 1])|;
            var l' := l.(server := l.server.(read := l.server.read + 1, off := off));
            && ServerPhaseOk(clog, slog, pos + 1, l')
            && (!l.late && l.server.read == pos < |clog| ==> ServedOk(clog, pos + 1, l'))
  {
  }

  /** What the frame read is, and what accepting it does. */
  lemma ReadOutcome(cfg: Config, y: System)
    requires ValidConfig(cfg) && Inv(cfg, y) && CanServerRead(y)
    ensures Served(y).server.read < |y.c.sent|
    ensures var p := y.c.sent[Served(y).server.read];
            var s := Accept(cfg, y.s, ServerFrame(y));
            && s in {Refused(y.s), Echoed(cfg, Opened(y.s, p), p)}
            && (Served(y).late ==> s == Refused(y.s))
            && (!Served(y).late && !y.s.refused ==> s == Echoed(cfg, Opened(y.s, p), p))
  {
    hide Framed, FrameBytes, ReadOne, Entry, Size, Ok, WriterOk, ReaderOk, RecoveringOk, Exact, ClientOk, Accept,
         Ideal, LinkOk, ServedOk;
    NextClientFrame(cfg, y);
    ReadPosition(cfg, y);
    var k := Served(y).server.read;
    assert ServerFrame(y) == Entry(cfg.cipher, ClientToServer, k, y.c.sent[k]);
    AcceptOutcome(cfg, y.s, k, y.c.sent[k]);
  }

  /** One frame of the client's stream. */
  lemma ServerReadInv(cfg: Config, y: System)
    requires ValidConfig(cfg) && Inv(cfg, y) && CanServerRead(y)
    ensures Inv(cfg, DoServerRead(cfg, y))
  {
    hide Framed, FrameBytes, ReadOne, Entry, Size, Ok, WriterOk, ReaderOk, RecoveringOk, Exact, ClientOk, Accept,
         Ideal, LinkOk, ServedOk;
    NextClientFrame(cfg, y);
    ReadPosition(cfg, y);
    ReadOutcome(cfg, y);
    if Accept(cfg, y.s, ServerFrame(y)) == Refused(y.s) {
      ReadRefusedInv(cfg, y);
    } else {
      ReadOpenedInv(cfg, y);
    }
  }

  lemma ReadRefusedInv(cfg: Config, y: System)
    requires Inv(cfg, y) && CanServerRead(y) && Accept(cfg, y.s, ServerFrame(y)) == Refused(y.s)
    requires Served(y).server.read < |Clog(y)| && (y.s.refused || (y.s.cur == Some(0) && Served(y).late))
    ensures Inv(cfg, DoServerRead(cfg, y))
  {
    hide Framed, FrameBytes, ReadOne, Entry, Size, Ok, Sealed, WriterOk, ReaderOk, RecoveringOk, Exact, ClientOk,
         Accept, ServerPhaseOk, ServedOk;
    StoppedPhase(Clog(y), y.s.log, y.s.recvSeq, Served(y));
    RefusedInv(cfg, y, Served(y).(server := Served(y).server.(reading := false)));
  }

  lemma StoppedPhase(clog: seq<Bytes>, slog: seq<Bytes>, pos: nat, l: Link)
    requires ServerPhaseOk(clog, slog, pos, l) && l.server.Streaming? && pos <= |clog|
    ensures var l' := l.(server := l.server.(reading := false));
            ServerPhaseOk(clog, slog, pos, l') && (ServedOk(clog, pos, l) ==> ServedOk(clog, pos, l'))
  {
  }

  lemma ServedPhase(cfg: Config, y: System)
    requires Inv(cfg, y) && Serving(y)
    ensures ServerPhaseOk(Clog(y), y.s.log, y.s.recvSeq, Served(y))
    ensures y.s.recvSeq <= |Clog(y)| == |y.c.sent|
  {
    hide Framed, ServerPhaseOk, FromClientOk, FromServerOk, ServedOk, Ok, Exact, ClientOk, ServerOk, Entry;
  }

  lemma ReadOpenedInv(cfg: Config, y: System)
    requires Inv(cfg, y) && CanServerRead(y)
    requires Served(y).server.read == y.s.recvSeq < |y.c.sent| && !Served(y).late
    requires var p := y.c.sent[y.s.recvSeq]; Accept(cfg, y.s, ServerFrame(y)) == Echoed(cfg, Opened(y.s, p), p)
    requires |Framed(Clog(y)[Served(y).cStart..Served(y).server.read + 1])|
             == Served(y).server.off + |FrameBytes(ServerFrame(y))| <= |Served(y).cWire|
    ensures Inv(cfg, DoServerRead(cfg, y))
  {
    hide Inv, Framed, FrameBytes, ReadOne, Accept, ServerPhaseOk, ServedOk;
    ServedPhase(cfg, y);
    var l, p := Served(y), y.c.sent[y.s.recvSeq];
    ReadOnPhase(Clog(y), y.s.log, y.s.recvSeq, l);
    var l' := l.(server := l.server.(read := l.server.read + 1, off := l.server.off + |FrameBytes(ServerFrame(y))|));
    OpenedInv(cfg, y, l');
    EchoedInv(cfg, ServedAs(y, Opened(y.s, p), l'), p);
  }

  lemma ServerWriteLinkOk(clog: seq<Bytes>, slog: seq<Bytes>, pos: nat, l: Link, n: nat)
    requires LinkOk(clog, slog, pos, l) && l.server.Streaming? && l.server.writing
    requires l.server.next < |slog| && |slog[l.server.next]| <= MAX_FRAME_SIZE
    requires n <= |FrameBytes(slog[l.server.next])|
    ensures LinkOk(clog, slog, pos, Wrote(l, slog, n))
    ensures pos <= |clog| && ServedOk(clog, pos, l) ==> ServedOk(clog, pos, Wrote(l, slog, n))
  {
    hide BigEndian, Framed, FrameBytes;
    var f := FrameBytes(slog[l.server.next]);
    StreamPushFrom(slog, l.sStart, l.server.next);
    assert f[..|f|] == f;
    assert slog[l.sStart..l.server.next + 1] == slog[l.sStart..l.server.next] + [slog[l.server.next]];
  }

  lemma ServerWriteInv(cfg: Config, y: System, n: nat)
    requires Inv(cfg, y) && CanServerWrite(y, n)
    ensures Inv(cfg, DoServerWrite(y, n))
  {
    hide Framed, FrameBytes, ReadOne, Entry, Size, Ok, WriterOk, ReaderOk, RecoveringOk, Exact, ClientOk, ServedOk,
         LinkOk;
    var l, l' := Served(y), Wrote(Served(y), y.s.log, n);
    ServerWriteLinkOk(Clog(y), y.s.log, y.s.recvSeq, l, n);
    WroteMore(Clog(y), y.s.log, y.s.recvSeq, l, n);
    ClientSees(y.c.out, y.c.inb.recvSeq, y.s.log, y.links, y.c.phase, y.s.cur.value, l');
    ServedStep(cfg, y, l');
  }

  lemma WroteMore(clog: seq<Bytes>, slog: seq<Bytes>, pos: nat, l: Link, n: nat)
    requires LinkOk(clog, slog, pos, l) && l.server.Streaming? && l.server.next < |slog|
    requires n <= |FrameBytes(slog[l.server.next])|
    ensures l.sWire <= Wrote(l, slog, n).sWire
    ensures l.sHeader.None? ==> l.cCatchup.None?
  {
    hide Framed, FrameBytes;
  }

  lemma CloseInv(cfg: Config, y: System, i: nat)
    requires Inv(cfg, y) && CanClose(y, i)
    ensures Inv(cfg, DoClose(y, i))
  {
    hide Framed, FrameBytes, ReadOne, Entry, Size, Ok, Sealed, WriterOk, ReaderOk, RecoveringOk, Exact, ClientOk;
    SamePhase(y, i, y.links[i].(server := Closed));
    ReplaceLink(y, i, y.links[i].(server := Closed));
  }
}
