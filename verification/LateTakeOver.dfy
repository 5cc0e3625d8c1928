/** A run in which the server refuses an honest box. takeOver follows the order links reach it,
    not the order they connected (internal/etservertest/server.go:75-77), so the first link can
    take over after the client has recovered on a second one. The run needs a link that buffers
    what is written before the server reads, as TCP does; over net.Pipe such a write waits. */
module LateTakeOver {
  import opened Bytes
  import opened Frames
  import opened Messages
  import opened Nonces
  import opened Packets
  import opened Sealing
  import opened Outbound
  import opened Inbound
  import opened Writer
  import opened Protocol
  import opened Invariant
  import opened ServerSteps
  import opened Safety

  const FIRST := Packet(1, [])

  ghost function FirstEntry(cfg: Config): Bytes { Entry(cfg.cipher, ClientToServer, 0, FIRST) }

  ghost function Start(cfg: Config): System
  {
    System(Client(Initial(cfg.limit), [], EMPTY, false, Idle, false),
           Server(false, [], [], 0, 0, [], true, None, false), [])
  }

  ghost function Written(cfg: Config): Outbound
  {
    Outbound(Window([FirstEntry(cfg)], 0, cfg.limit, false, 0), 0, -1, {})
  }

  /** The first link after the client wrote its only packet on it; not yet taken over. */
  ghost function FirstLink(cfg: Config): Link
  {
    NewLink(true).(cWire := Framed([FirstEntry(cfg)]))
  }

  lemma OneEntryBatch(e: Bytes)
    requires |e| == MIN_ENTRY
    ensures IsBatch([e], 1) && |Framed([e])| == 4 + MIN_ENTRY
    ensures ReadOne(Framed([e])) == Frame(e, [])
  {
    assert [e][..1] == [e];
    StreamOfHead(e, []);
    assert [e] + [] == [e];
    ReadOneOfPrefix(e, [], Framed([e]));
  }

  lemma FirstWrite(cfg: Config)
    requires ValidConfig(cfg)
    ensures Reachable(cfg, BeforePass(cfg))
  {
    hide Reachable, Framed, FrameBytes, Entry, Ideal;
    var y0 := Start(cfg);
    InitReachable(cfg, y0);
    var y1 := DoConnect(y0);
    ReachableStep(cfg, y0, Connect, y1);
    assert y1.links == [NewLink(true)];
    var y2 := DoWrite(cfg, y1, FIRST);
    ReachableStep(cfg, y1, Write(FIRST), y2);
    assert y2.c.out == Written(cfg) && y2.c.sent == [FIRST] && y2.links == [NewLink(true)];
  }

  ghost function BeforePass(cfg: Config): System
  {
    System(Client(Written(cfg), [FIRST], EMPTY, false, Running([], 0, false, Parked), false),
           Start(cfg).s.(known := true), [NewLink(true)])
  }

  ghost function InPass(cfg: Config): System
  {
    var c := BeforePass(cfg).c;
    BeforePass(cfg).(c := c.(phase := Running([], 0, false, Sending(0, 1, -1, Framed([FirstEntry(cfg)]), 0))))
  }

  lemma FirstPass(cfg: Config)
    requires ValidConfig(cfg)
    ensures Reachable(cfg, InPass(cfg))
    ensures Framed([FirstEntry(cfg)]) != []
  {
    hide Reachable, Framed, FrameBytes, Entry, Ideal, ReadOne, IsBatch, Size;
    var e, y2 := FirstEntry(cfg), BeforePass(cfg);
    FirstWrite(cfg);
    EntrySize(cfg.cipher, ClientToServer, 0, FIRST);
    OneEntryBatch(e);
    assert [e][0..] == [e] && [e][0..1] == [e];
    ReachableStep(cfg, y2, TakeBatch(1), DoTake(y2, 1));
  }

  /** The client writes its first packet on the first link, and the link fails. */
  lemma FirstLinkWritten(cfg: Config)
    requires ValidConfig(cfg)
    ensures Reachable(cfg, AfterFirst(cfg))
  {
    hide Reachable, Framed, FrameBytes, Entry, Ideal, ReadOne, IsBatch, Size;
    FirstPass(cfg);
    var buf := Framed([FirstEntry(cfg)]);
    var y3 := InPass(cfg);
    var y4 := DoSend(y3, |buf|);
    ReachableStep(cfg, y3, SendPart(|buf|), y4);
    var y5 := DoLinkDown(y4);
    ReachableStep(cfg, y4, LinkDown, y5);
    assert buf[0..|buf|] == buf && [] + buf == buf;
    assert y5 == AfterFirst(cfg);
  }

  ghost function AfterFirst(cfg: Config): System
  {
    System(Client(Written(cfg), [FIRST], EMPTY, false, Idle, false), Start(cfg).s.(known := true), [FirstLink(cfg)])
  }

  ghost function SecondLink(cfg: Config): Link
  {
    NewLink(false).(server := Greeted, cHeader := Some(0), cCatchup := Some([FirstEntry(cfg)]), cStart := 1,
                    sHeader := Some(0))
  }

  ghost function AfterExchange(cfg: Config): System
  {
    System(Client(Written(cfg), [FIRST], EMPTY, false,
                  Recovering(true, Some(0), Some(Snapshot(1, [FirstEntry(cfg)])), true, None), false),
           Start(cfg).s.(known := true, cur := Some(1)), [FirstLink(cfg), SecondLink(cfg)])
  }

  ghost function Greeting2(cfg: Config): System
  {
    System(Client(Written(cfg), [FIRST], EMPTY, false, Recovering(true, None, None, false, None), false),
           Start(cfg).s.(known := true, cur := Some(1)),
           [FirstLink(cfg), NewLink(false).(server := Greeted, cHeader := Some(0), sHeader := Some(0))])
  }

  lemma SecondLinkGreets(cfg: Config)
    requires ValidConfig(cfg)
    ensures Reachable(cfg, Greeting2(cfg))
  {
    hide Reachable, Framed, FrameBytes, Entry, Ideal, ReadOne, Size;
    FirstLinkWritten(cfg);
    var y0 := AfterFirst(cfg);
    var y1 := DoConnect(y0);
    ReachableStep(cfg, y0, Connect, y1);
    var y2 := DoWriteHeader(y1);
    ReachableStep(cfg, y1, WriteHeader, y2);
    var y3 := DoTakeOver(y2, 1);
    ReachableStep(cfg, y2, TakeOver(1), y3);
    var y4 := DoGreet(y3);
    ReachableStep(cfg, y3, Greet, y4);
    assert y4 == Greeting2(cfg);
  }

  lemma FirstFits(cfg: Config)
    requires ValidConfig(cfg)
    ensures Fits([FirstEntry(cfg)]) && Fits([])
  {
    hide Ideal, Entry;
    EntrySize(cfg.cipher, ClientToServer, 0, FIRST);
    CatchupSizePush([], FirstEntry(cfg));
    assert [] + [FirstEntry(cfg)] == [FirstEntry(cfg)];
  }

  /** It recovers on a second link, up to its catchup. */
  lemma SecondLinkRecovers(cfg: Config)
    requires ValidConfig(cfg)
    ensures Reachable(cfg, AfterExchange(cfg))
  {
    hide Reachable, Framed, FrameBytes, Entry, Ideal, ReadOne, Size, Fits;
    SecondLinkGreets(cfg);
    var y4 := Greeting2(cfg);
    var y5 := DoReadHeader(y4);
    ReachableStep(cfg, y4, ReadHeader, y5);
    assert [FirstEntry(cfg)][0..1] == [FirstEntry(cfg)];
    FirstFits(cfg);
    var y6 := DoSnapshot(y5);
    ReachableStep(cfg, y5, TakeSnapshot, y6);
    var y7 := DoWriteCatchup(y6);
    ReachableStep(cfg, y6, WriteCatchup, y7);
    assert y7 == AfterExchange(cfg);
  }

  ghost function AfterCatchup(cfg: Config): System
  {
    var y, e := AfterExchange(cfg), FirstEntry(cfg);
    y.(links := [FirstLink(cfg), SecondLink(cfg).(server := Accepting([e], 0), sCatchup := Some([]))])
  }

  lemma CatchupArrives(cfg: Config)
    requires ValidConfig(cfg)
    ensures Reachable(cfg, AfterCatchup(cfg))
  {
    hide Reachable, Framed, FrameBytes, Entry, Ideal, ReadOne, Size, Fits;
    SecondLinkRecovers(cfg);
    FirstFits(cfg);
    var y0 := AfterExchange(cfg);
    var y1 := DoHear(y0);
    ReachableStep(cfg, y0, Hear, y1);
    var y2 := DoAnswer(y1);
    ReachableStep(cfg, y1, Answer, y2);
    var y3 := DoListen(y2);
    ReachableStep(cfg, y2, Listen, y3);
    assert y3 == AfterCatchup(cfg);
  }

  ghost function AfterAccept(cfg: Config): System
  {
    var y := AfterCatchup(cfg);
    y.(s := Opened(y.s, FIRST),
       links := [FirstLink(cfg), SecondLink(cfg).(server := Accepting([], 0), sCatchup := Some([]))])
  }

  lemma CatchupAccepted(cfg: Config)
    requires ValidConfig(cfg)
    ensures Reachable(cfg, AfterAccept(cfg))
  {
    hide Reachable, Framed, FrameBytes, Entry, Ideal, ReadOne, Size, Accept, Unseal;
    CatchupArrives(cfg);
    var y0 := AfterCatchup(cfg);
    AcceptOutcome(cfg, y0.s, 0, FIRST);
    var y1 := DoAccept(cfg, y0);
    ReachableStep(cfg, y0, AcceptNext, y1);
    assert y1.s == Opened(y0.s, FIRST) && [FirstEntry(cfg)][1..] == [];
    assert y1 == AfterAccept(cfg);
  }

  /** The second link fails, and the first one takes over. */
  ghost function AfterTakeOver(cfg: Config): System
  {
    var y := AfterAccept(cfg);
    System(y.c, y.s.(cur := Some(0)), [FirstLink(cfg).(server := Streaming(0, 0, 0, true, true), late := true),
                                       SecondLink(cfg).(server := Closed, sCatchup := Some([]))])
  }

  lemma FirstTakesOver(cfg: Config)
    requires ValidConfig(cfg)
    ensures Reachable(cfg, AfterTakeOver(cfg))
  {
    hide Reachable, Framed, FrameBytes, Entry, Ideal, ReadOne, Size;
    CatchupAccepted(cfg);
    var y1 := AfterAccept(cfg);
    var y2 := DoClose(y1, 1);
    ReachableStep(cfg, y1, CloseLink(1), y2);
    var y3 := DoTakeOver(y2, 0);
    ReachableStep(cfg, y2, TakeOver(0), y3);
    assert y3 == AfterTakeOver(cfg);
  }

  /** Its reader finds the packet the server has accepted already, and the box does not open. */
  lemma LateTakeOverRefusesHonestBox(cfg: Config)
    requires ValidConfig(cfg)
    ensures exists y :: Reachable(cfg, y) && y.s.refused && y.s.accepted == y.c.sent == [FIRST]
  {
    hide Reachable, Framed, FrameBytes, Entry, Ideal, ReadOne, Size, Accept;
    FirstTakesOver(cfg);
    var y3, e := AfterTakeOver(cfg), FirstEntry(cfg);
    EntrySize(cfg.cipher, ClientToServer, 0, FIRST);
    OneEntryBatch(e);
    assert Served(y3).cWire[0..] == Served(y3).cWire == Framed([e]);
    AcceptOutcome(cfg, y3.s, 0, FIRST);
    var y4 := DoServerRead(cfg, y3);
    ReachableStep(cfg, y3, ServerRead, y4);
    assert y4.s == Refused(y3.s);
  }
}
