/** The transport can go on: exactly when a session between links can still deliver everything, and
    when any live one can. */
module Progress {
  import opened Bytes
  import opened Frames
  import opened Messages
  import opened Nonces
  import opened Packets
  import opened Sealing
  import opened Outbound
  import opened Inbound
  import opened Writer
  import opened Protocol
  import opened Invariant
  import opened ClientSteps
  import opened ServerSteps
  import opened Safety
  import opened Paths
  import opened Flow
  import opened Stalls

  /** Between links, with what a recover exchange needs. */
  ghost predicate Ready(y: System)
  {
    && y.c.phase.Idle? && y.s.known && CanResume(y)
    && (y.s.cur.Some? ==> y.s.cur.value < |y.links| && y.links[y.s.cur.value].server.Closed?)
    && y.s.recvSeq <= |y.c.sent| == |Clog(y)| && y.c.inb.recvSeq <= |y.s.log|
  }

  // ---------------------------------------------------------------- a whole recover exchange

  /** y, idle, with one more link. */
  ghost function With(y: System, out: Outbound, ph: ClientPhase, s: Server, l: Link): System
  {
    System(y.c.(out := out, phase := ph), s, y.links + [l])
  }

  ghost function Takeover(y: System): Server { y.s.(cur := Some(|y.links|)) }

  lemma LastLink(y: System, out: Outbound, ph: ClientPhase, s: Server, l: Link, l': Link)
    ensures SetCur(With(y, out, ph, s, l), l') == With(y, out, ph, s, l')
    ensures s.cur == Some(|y.links|) ==> SetServed(With(y, out, ph, s, l), l') == With(y, out, ph, s, l')
  {
    assert (y.links + [l])[|y.links| := l'] == y.links + [l'];
  }

  ghost function GreetedLink(y: System): Link
  {
    NewLink(false).(server := Greeted, cHeader := Some(y.c.inb.recvSeq),
                    sHeader := Some(y.s.recvSeq), sPos := y.s.recvSeq)
  }

  /** Connect, take over, and both headers written. */
  lemma HeadersCross(cfg: Config, y: System)
    requires Ready(y)
    ensures LeadsTo(cfg, y, With(y, y.c.out, Recovering(true, None, None, false, None), Takeover(y), GreetedLink(y)))
  {
    hide LeadsTo, Framed, FrameBytes, ReadOne, Entry, Size, Accept, IsBatch, Framable, Delivered, Window.TrimPoint,
         Fits;
    var o, r := y.c.out, y.c.inb.recvSeq;
    var fresh0 := NewLink(false);
    Stay(cfg, y);
    var y1 := With(y, o, Recovering(false, None, None, false, None), y.s, fresh0);
    assert DoConnect(y) == y1;
    Go(cfg, y, y, Connect, y1);
    var l2 := fresh0.(cHeader := Some(r));
    LastLink(y, o, Recovering(false, None, None, false, None), y.s, fresh0, l2);
    var y2 := With(y, o, Recovering(true, None, None, false, None), y.s, l2);
    assert DoWriteHeader(y1) == y2;
    Go(cfg, y, y1, WriteHeader, y2);
    TakesOver(cfg, y, y2, l2);
  }

  lemma TakesOver(cfg: Config, y: System, y2: System, l2: Link)
    requires Ready(y) && LeadsTo(cfg, y, y2) && l2 == NewLink(false).(cHeader := Some(y.c.inb.recvSeq))
    requires y2 == With(y, y.c.out, Recovering(true, None, None, false, None), y.s, l2)
    ensures LeadsTo(cfg, y, With(y, y.c.out, Recovering(true, None, None, false, None), Takeover(y), GreetedLink(y)))
  {
    hide LeadsTo, Framed, FrameBytes, ReadOne, Entry, Size, Accept, IsBatch, Framable, Delivered, Window.TrimPoint,
         Fits;
    var o, n, ph, l3 := y.c.out, |y.links|, Recovering(true, None, None, false, None), l2.(server := Greeting);
    LastLink(y, o, ph, y.s, l2, l3);
    var y3 := With(y, o, ph, Takeover(y), l3);
    assert y2.links[n] == l2 && DoTakeOver(y2, n) == y3;
    Go(cfg, y, y2, TakeOver(n), y3);
    Greets(cfg, y, y3, l3);
  }

  lemma Greets(cfg: Config, y: System, y3: System, l3: Link)
    requires Ready(y) && LeadsTo(cfg, y, y3)
    requires l3 == NewLink(false).(cHeader := Some(y.c.inb.recvSeq), server := Greeting)
    requires y3 == With(y, y.c.out, Recovering(true, None, None, false, None), Takeover(y), l3)
    ensures LeadsTo(cfg, y, With(y, y.c.out, Recovering(true, None, None, false, None), Takeover(y), GreetedLink(y)))
  {
    hide LeadsTo, Framed, FrameBytes, ReadOne, Entry, Size, Accept, IsBatch, Framable, Delivered, Window.TrimPoint,
         Fits;
    var o, ph, l4 := y.c.out, Recovering(true, None, None, false, None), GreetedLink(y);
    LastLink(y, o, ph, Takeover(y), l3, l4);
    assert Served(y3) == l3 && Int32(y.s.recvSeq) == y.s.recvSeq;
    assert DoGreet(y3) == With(y, o, ph, Takeover(y), l4);
    Go(cfg, y, y3, Greet, With(y, o, ph, Takeover(y), l4));
  }

  lemma HeaderRead(cfg: Config, y: System)
    requires Ready(y)
    ensures LeadsTo(cfg, y, With(y, y.c.out, Recovering(true, Some(y.s.recvSeq), None, false, None),
                                 Takeover(y), GreetedLink(y)))
  {
    hide LeadsTo, Framed, FrameBytes, ReadOne, Entry, Size, Accept, IsBatch, Framable, Delivered, Window.TrimPoint,
         Fits;
    HeadersCross(cfg, y);
    var ph, l := Recovering(true, None, None, false, None), GreetedLink(y);
    var y4 := With(y, y.c.out, ph, Takeover(y), l);
    var y5 := With(y, y.c.out, ph.(peer := Some(y.s.recvSeq)), Takeover(y), l);
    assert DoReadHeader(y4) == y5;
    Go(cfg, y, y4, ReadHeader, y5);
  }

  ghost function Ours(y: System): seq<Bytes>
    requires y.s.recvSeq <= |Clog(y)|
  {
    Clog(y)[y.s.recvSeq..]
  }

  ghost function CaughtUpLink(y: System): Link
    requires y.s.recvSeq <= |Clog(y)|
  {
    GreetedLink(y).(cStart := |Clog(y)|, cCatchup := Some(Ours(y)))
  }

  ghost function Snapped(y: System, wrote: bool, theirs: Option<seq<Bytes>>): ClientPhase
    requires y.s.recvSeq <= |Clog(y)|
  {
    Recovering(true, Some(y.s.recvSeq), Some(Snapshot(|Clog(y)|, Ours(y))), wrote, theirs)
  }

  /** The snapshot, and the client's catchup. */
  lemma CatchupSent(cfg: Config, y: System)
    requires Ready(y)
    ensures LeadsTo(cfg, y, With(y, y.c.out, Snapped(y, true, None), Takeover(y), CaughtUpLink(y)))
  {
    hide LeadsTo, Framed, FrameBytes, ReadOne, Entry, Size, Accept, IsBatch, Framable, Delivered, Window.TrimPoint,
         Fits;
    HeaderRead(cfg, y);
    var o, s, p := y.c.out, Takeover(y), y.s.recvSeq;
    var ph := Recovering(true, Some(p), None, false, None);
    var l5, l6, l7 := GreetedLink(y), GreetedLink(y).(cStart := |Clog(y)|), CaughtUpLink(y);
    var y5 := With(y, o, ph, s, l5);
    LastLink(y, o, ph, s, l5, l6);
    assert Clog(y)[p..|Clog(y)|] == Ours(y);
    var ph6 := Snapped(y, false, None);
    var y6 := With(y, o, ph6, s, l6);
    assert DoSnapshot(y5) == y6;
    Go(cfg, y, y5, TakeSnapshot, y6);
    LastLink(y, o, ph6, s, l6, l7);
    var y7 := With(y, o, Snapped(y, true, None), s, l7);
    assert DoWriteCatchup(y6) == y7;
    Go(cfg, y, y6, WriteCatchup, y7);
  }

  ghost function Theirs(y: System): seq<Bytes>
    requires y.c.inb.recvSeq <= |y.s.log|
  {
    y.s.log[y.c.inb.recvSeq..]
  }

  ghost function AnsweredLink(y: System): Link
    requires y.s.recvSeq <= |Clog(y)| && y.c.inb.recvSeq <= |y.s.log|
  {
    CaughtUpLink(y).(server := Listening(|y.s.log|), sStart := |y.s.log|, sBegun := |y.s.log|,
                     sCatchup := Some(Theirs(y)))
  }

  /** The server's catchup. */
  lemma CatchupAnswered(cfg: Config, y: System)
    requires Ready(y)
    ensures LeadsTo(cfg, y, With(y, y.c.out, Snapped(y, true, None), Takeover(y), AnsweredLink(y)))
  {
    hide LeadsTo, Framed, FrameBytes, ReadOne, Entry, Size, Accept, IsBatch, Framable, Delivered, Window.TrimPoint,
         Fits;
    CatchupSent(cfg, y);
    var o, s, ph, n := y.c.out, Takeover(y), Snapped(y, true, None), |y.s.log|;
    var l7, l9 := CaughtUpLink(y), AnsweredLink(y);
    var l8 := l7.(server := Answering(Theirs(y), n), sStart := n, sBegun := n);
    var y7, y8, y9 := With(y, o, ph, s, l7), With(y, o, ph, s, l8), With(y, o, ph, s, l9);
    LastLink(y, o, ph, s, l7, l8);
    assert Served(y7) == l7 && DoHear(y7) == y8;
    Go(cfg, y, y7, Hear, y8);
    LastLink(y, o, ph, s, l8, l9);
    assert Served(y8) == l8 && DoAnswer(y8) == y9;
    Go(cfg, y, y8, Answer, y9);
  }

  lemma CatchupRead(cfg: Config, y: System)
    requires Ready(y)
    ensures LeadsTo(cfg, y, With(y, y.c.out, Snapped(y, true, Some(Theirs(y))), Takeover(y), AnsweredLink(y)))
  {
    hide LeadsTo, Framed, FrameBytes, ReadOne, Entry, Size, Accept, IsBatch, Framable, Delivered, Window.TrimPoint,
         Fits;
    CatchupAnswered(cfg, y);
    var y9 := With(y, y.c.out, Snapped(y, true, None), Takeover(y), AnsweredLink(y));
    var y10 := With(y, y.c.out, Snapped(y, true, Some(Theirs(y))), Takeover(y), AnsweredLink(y));
    assert DoReadCatchup(y9) == y10;
    Go(cfg, y, y9, ReadCatchup, y10);
  }

  /** The commit. */
  lemma Committed(cfg: Config, y: System) returns (z: System)
    requires Ready(y)
    ensures LeadsTo(cfg, y, z)
    ensures z == With(y, y.c.out.Commit(|Clog(y)|, y.s.recvSeq), Running(Theirs(y), 0, false, Parked), Takeover(y),
                      AnsweredLink(y))
  {
    hide LeadsTo, Outbound.Commit, Framed, FrameBytes, ReadOne, Entry, Size, Accept, IsBatch, Framable, Delivered,
         Window.TrimPoint, Fits;
    CatchupRead(cfg, y);
    var s, l := Takeover(y), AnsweredLink(y);
    var y10 := With(y, y.c.out, Snapped(y, true, Some(Theirs(y))), s, l);
    z := With(y, y.c.out.Commit(|Clog(y)|, y.s.recvSeq), Running(Theirs(y), 0, false, Parked), s, l);
    assert DoCommit(y10) == z;
    Go(cfg, y, y10, Commit, z);
  }

  // ---------------------------------------------------------------- everything arrives

  lemma CommittedFlows(y: System, z: System)
    requires Ready(y) && !y.s.refused && Framable(After(y.s.log, y.c.inb.recvSeq))
    requires z == With(y, y.c.out.Commit(|Clog(y)|, y.s.recvSeq), Running(Theirs(y), 0, false, Parked), Takeover(y),
                       AnsweredLink(y))
    ensures Flowing(z) && Onward(y, z)
  {
    hide Framable, Fits, Window.TrimPoint;
  }

  /** One exchange, and what follows on its link. */
  lemma ReadyArrives(cfg: Config, y: System) returns (z: System)
    requires ValidConfig(cfg) && Inv(cfg, y) && Ready(y) && !y.s.refused
    requires Framable(After(y.s.log, y.c.inb.recvSeq))
    ensures LeadsTo(cfg, y, z) && Arrived(z) && Onward(y, z)
  {
    hide LeadsTo, Inv, ValidConfig, Next, Outbound.Commit, Framable, Flowing, Arrived, Ready;
    var a := Committed(cfg, y);
    LeadsToInv(cfg, y, a);
    CommittedFlows(y, a);
    z := FlowingArrives(cfg, a);
    Join(cfg, y, a, z);
  }

  /** Nothing is left to send either way; it may still have to be read. */
  ghost predicate NothingLeft(y: System)
  {
    y.s.recvSeq == |y.c.sent| && y.c.inb.recvSeq == |y.s.sent|
  }

  lemma {:induction false} ReadTailLeads(cfg: Config, y: System)
    ensures LeadsTo(cfg, y, ReadTail(y))
    decreases |y.c.inb.inbox| + |y.c.inb.pending|
  {
    hide LeadsTo;
    Stay(cfg, y);
    if CanRead(y) {
      Go(cfg, y, y, Step.Read, DoRead(y));
      ReadTailLeads(cfg, DoRead(y));
      Join(cfg, y, DoRead(y), ReadTail(y));
    }
  }

  /** After Close the tail is read. */
  lemma ClosedArrives(cfg: Config, y: System) returns (z: System)
    requires ValidConfig(cfg) && Reachable(cfg, y) && y.c.phase.Idle? && NothingLeft(y)
    ensures LeadsTo(cfg, y, z) && Arrived(z) && Onward(y, z)
  {
    hide LeadsTo, Reachable, ValidConfig, ReadTail;
    Stay(cfg, y);
    var a := DoEnd(y);
    Go(cfg, y, y, End, a);
    ReachableStep(cfg, y, End, a);
    var b := DoStop(a);
    Go(cfg, y, a, Stop, b);
    ReachableStep(cfg, a, Stop, b);
    z := ReadTail(b);
    ReadTailLeads(cfg, b);
    Join(cfg, y, b, z);
    TailIsReturned(cfg, b);
    ReadTailIsReachable(cfg, b);
    ClientToServerExactlyOnce(cfg, b);
    assert y.c.sent[..|y.c.sent|] == y.c.sent && y.s.sent[..|y.s.sent|] == y.s.sent;
  }

  /** All that y's two sides have sealed has arrived in z. */
  ghost predicate AllArrived(y: System, z: System)
  {
    y.c.sent <= z.s.accepted && y.s.sent <= z.c.inb.returned
  }

  lemma ArrivedMeansAll(y: System, z: System)
    requires Arrived(z) && Onward(y, z)
    ensures AllArrived(y, z)
  {
  }

  lemma SettledReady(cfg: Config, y: System)
    requires Inv(cfg, y) && Settled(y) && CanResume(y)
    ensures Ready(y)
  {
    hide LinksOk, ClientOk, Exact, Ok, Entry, Fits, ServedOk;
    ExactMeans(y.c.inb, y.s.sent);
  }

  // ---------------------------------------------------------------- an entry that never fits

  lemma OthersReceiveNothing(cfg: Config, y: System, step: Step, z: System)
    requires Next(cfg, y, step, z) && !step.DeliverCatchup? && !step.DeliverFrame?
    ensures z.c.inb.recvSeq == y.c.inb.recvSeq
  {
    hide ReadOne, Framed, FrameBytes, Accept, Entry, IsBatch, Fits, Window.Trim;
  }

  /** Receiving moves on by one entry, and only past one that fits a frame. */
  lemma ReceivesOnlyFitting(cfg: Config, y: System, step: Step, z: System)
    requires ValidConfig(cfg) && Inv(cfg, y) && Next(cfg, y, step, z)
    ensures z.c.inb.recvSeq != y.c.inb.recvSeq ==>
              && z.c.inb.recvSeq == y.c.inb.recvSeq + 1 <= |y.s.log|
              && |y.s.log[y.c.inb.recvSeq]| <= MAX_FRAME_SIZE
  {
    if step.DeliverCatchup? {
      hide Inv, ValidConfig, Delivered, Entry;
      CatchupEntry(cfg, y);
      DeliveredOk(cfg, y, y.c.phase.todo[0]);
    } else if step.DeliverFrame? {
      hide Inv, ValidConfig, Delivered, ReadOne, Framed, FrameBytes, Entry, LinksOk, ClientOk, Exact;
      LinksAndClientOk(cfg, y);
      FrameClientOk(y, 0);
      DeliveredOk(cfg, y, y.s.log[y.c.inb.recvSeq]);
    } else {
      hide Inv, Next;
      OthersReceiveNothing(cfg, y, step, z);
    }
  }

  lemma CatchupEntry(cfg: Config, y: System)
    requires Inv(cfg, y) && CanDeliverCatchup(y)
    ensures y.c.inb.recvSeq < |y.s.log| && y.c.phase.todo[0] == y.s.log[y.c.inb.recvSeq]
  {
    hide Framed, LinkOk, ServerOk, CurOk, Ok, Entry, WriterOk, Exact;
  }

  /** An entry too large for a frame is never passed. */
  lemma {:induction false} NeverPast(cfg: Config, path: seq<System>, steps: seq<Step>, n: nat, j: nat)
    requires ValidConfig(cfg) && IsPath(cfg, path, steps) && n <= |steps| && Inv(cfg, path[0])
    requires j < |path[0].s.log| && |path[0].s.log[j]| > MAX_FRAME_SIZE && path[0].c.inb.recvSeq <= j
    ensures Inv(cfg, path[n]) && path[n].c.inb.recvSeq <= j && path[0].s.log <= path[n].s.log
  {
    hide ValidConfig, Inv, Next;
    if n > 0 {
      NeverPast(cfg, path, steps, n - 1, j);
      StepInv(cfg, path[n - 1], steps[n - 1], path[n]);
      ReceivesOnlyFitting(cfg, path[n - 1], steps[n - 1], path[n]);
      SentGrowsNext(cfg, path[n - 1], steps[n - 1], path[n]);
    }
  }

  lemma ReturnedIs(cfg: Config, y: System)
    requires Inv(cfg, y)
    ensures |y.c.inb.returned| <= y.c.inb.recvSeq <= |y.s.sent| == |y.s.log|
  {
    hide LinksOk, ClientOk, ServerOk, CurOk, Ok, Entry;
  }

  lemma OversizedNeverArrives(cfg: Config, y: System, z: System)
    requires ValidConfig(cfg) && Inv(cfg, y) && LeadsTo(cfg, y, z)
    requires y.c.inb.recvSeq <= |y.s.log| && !Framable(After(y.s.log, y.c.inb.recvSeq))
    ensures !AllArrived(y, z)
  {
    hide ValidConfig, Inv, Next;
    var rest := After(y.s.log, y.c.inb.recvSeq);
    var i :| 0 <= i < |rest| && |rest[i]| > MAX_FRAME_SIZE;
    var path, steps :| IsPath(cfg, path, steps) && path[0] == y && path[|path| - 1] == z;
    NeverPast(cfg, path, steps, |steps|, y.c.inb.recvSeq + i);
    ReturnedIs(cfg, y);
    ReturnedIs(cfg, z);
  }

  // ---------------------------------------------------------------- exactly when

  lemma StalledNeverArrives(cfg: Config, y: System, z: System)
    requires ValidConfig(cfg) && Reachable(cfg, y) && Settled(y) && !CanResume(y) && !NothingLeft(y)
    requires LeadsTo(cfg, y, z)
    ensures !AllArrived(y, z)
  {
    hide ValidConfig, Reachable, Settled, CanResume, LeadsTo, Inv;
    NothingMoreArrives(cfg, y, z);
    ReachableInv(cfg, y);
    LeadsToInv(cfg, y, z);
    AcceptedIs(cfg, y);
    ReturnedIs(cfg, y);
    ReturnedIs(cfg, z);
  }

  /** Exactly when a session between links, whose server has refused nothing, can still deliver all
      that was sealed: there is nothing left to send, or an exchange can succeed and no entry the
      server has still to deliver is too large for a frame. All of it can be checked before
      dialing. */
  lemma ArrivesExactly(cfg: Config, y: System)
    requires ValidConfig(cfg) && Reachable(cfg, y) && Settled(y) && !y.s.refused
    ensures (exists z :: LeadsTo(cfg, y, z) && AllArrived(y, z))
            <==> NothingLeft(y) || (CanResume(y) && Framable(After(y.s.log, y.c.inb.recvSeq)))
  {
    hide ValidConfig, Reachable, CanResume, LeadsTo, Inv, Framable, AllArrived, Arrived;
    ReachableInv(cfg, y);
    ReturnedIs(cfg, y);
    if NothingLeft(y) {
      var z := ClosedArrives(cfg, y);
      ArrivedMeansAll(y, z);
    } else if CanResume(y) && Framable(After(y.s.log, y.c.inb.recvSeq)) {
      SettledReady(cfg, y);
      var z := ReadyArrives(cfg, y);
      ArrivedMeansAll(y, z);
    } else {
      forall z | LeadsTo(cfg, y, z) ensures !AllArrived(y, z) {
        if CanResume(y) { OversizedNeverArrives(cfg, y, z); } else { StalledNeverArrives(cfg, y, z); }
      }
    }
  }

  // ---------------------------------------------------------------- from any live state

  const ECHO_SIZE: nat := 1 + 1 + MIN_ENTRY

  /** What the server has still to send fits one message, with room for the echoes of what it has
      still to accept; and each entry fits a frame. */
  ghost predicate Roomy(y: System)
  {
    && y.s.recvSeq <= |Clog(y)| && y.c.inb.recvSeq <= |y.s.log|
    && Fits(After(Clog(y), y.s.recvSeq)) && Framable(After(y.s.log, y.c.inb.recvSeq))
    && CatchupSize(After(y.s.log, y.c.inb.recvSeq)) + ECHO_SIZE * (|Clog(y)| - y.s.recvSeq) <= MAX_MESSAGE_SIZE
  }

  /** The Conn has been dialed, or not yet, and lives; nothing was refused, the counts fit the int32 a
      header states, the server's position is retained, and both backlogs fit. */
  ghost predicate CanGoOn(y: System)
  {
    && !y.c.ended && !y.s.refused
    && (y.c.phase.Idle? || y.c.phase.Running? || (y.c.phase.Recovering? && |y.links| > 1))
    && |y.c.sent| <= MAX_INT32 && y.c.inb.recvSeq <= MAX_INT32 && y.c.out.ring.first <= y.s.recvSeq
    && Roomy(y)
  }

  /** The Conn between links; what it holds is what it held. */
  ghost predicate LetGoOf(y: System, z: System)
  {
    && z.c.phase.Idle? && !z.c.ended && z.c.out == y.c.out && z.c.sent == y.c.sent
    && z.c.inb.recvSeq == y.c.inb.recvSeq && z.s.known
  }

  /** The server, meanwhile, has only accepted, and echoed. */
  ghost predicate MovedOn(y: System, z: System)
  {
    z.c == y.c && z.s.known && !z.s.refused && y.s.recvSeq <= z.s.recvSeq && y.s.sent <= z.s.sent && Roomy(z)
  }

  lemma ClientLetsGo(cfg: Config, y: System) returns (z: System)
    requires ValidConfig(cfg) && Inv(cfg, y) && CanGoOn(y)
    ensures LeadsTo(cfg, y, z) && Inv(cfg, z) && LetGoOf(y, z) && z.s == y.s.(known := true) && Roomy(z)
  {
    hide LeadsTo, Inv, ValidConfig, Roomy;
    Stay(cfg, y);
    z := y;
    if y.c.phase.Idle? && !y.s.known {
      z := DoConnect(y);
      Go(cfg, y, y, Connect, z);
    }
    if z.c.phase.Running? {
      var w := DoLinkDown(z);
      Go(cfg, y, z, LinkDown, w);
      z := w;
    } else if z.c.phase.Recovering? {
      var w := DoAbandon(z);
      Go(cfg, y, z, Abandon, w);
      z := w;
    }
    LeadsToInv(cfg, y, z);
    KnownAfterLinks(cfg, y);
    SameRoom(y, z);
  }

  lemma KnownAfterLinks(cfg: Config, y: System)
    requires Inv(cfg, y)
    ensures y.links != [] ==> y.s.known
    ensures y.links == [] ==> y.c.phase.Idle? || y.c.phase.Stopped?
  {
    hide LinksOk, ClientOk, LogsOk, Ok, Exact, ServerOk, CurOk, BrokenOk;
  }

  lemma SameRoom(y: System, z: System)
    requires Roomy(y) && z.c.out == y.c.out && z.c.inb.recvSeq == y.c.inb.recvSeq
    requires z.s.log == y.s.log && z.s.recvSeq == y.s.recvSeq
    ensures Roomy(z)
  {
  }

  /** Accepting one entry leaves room: its echo, if any, was counted. */
  lemma AcceptLeavesRoom(cfg: Config, y: System, z: System, p: Packet)
    requires ValidConfig(cfg) && Roomy(y) && y.s.recvSeq < |Clog(y)|
    requires z.c == y.c && z.s == Echoed(cfg, Opened(y.s, p), p)
    ensures Roomy(z)
  {
    hide Entry, Ideal, CatchupSize;
    var echo := Entry(cfg.cipher, ServerToClient, |y.s.log|, Packet(KEEP_ALIVE, []));
    EntrySize(cfg.cipher, ServerToClient, |y.s.log|, Packet(KEEP_ALIVE, []));
    CatchupShrinks(Clog(y), y.s.recvSeq, y.s.recvSeq + 1);
    var r, rest := y.c.inb.recvSeq, After(y.s.log, y.c.inb.recvSeq);
    if z.s.log != y.s.log {
      assert After(z.s.log, r) == rest + [echo];
      CatchupSizePush(rest, echo);
    }
  }

  /** The server accepts the entries it has decoded, one after the other. */
  lemma {:induction false} AcceptRest(cfg: Config, y: System) returns (z: System)
    requires ValidConfig(cfg) && Inv(cfg, y) && Serving(y) && Served(y).server.Accepting?
    requires !y.s.refused && Roomy(y) && y.s.known
    ensures LeadsTo(cfg, y, z) && Inv(cfg, z) && MovedOn(y, z)
    ensures z.s.cur == y.s.cur && |z.links| == |y.links|
    ensures Serving(z) && Served(z).server.Accepting? && Served(z).server.todo == []
    decreases |Served(y).server.todo|
  {
    hide LeadsTo, Next, Inv, ValidConfig, Accept, Entry, Roomy;
    Stay(cfg, y);
    z := y;
    if Served(y).server.todo != [] {
      var y' := AcceptOne(cfg, y);
      z := AcceptRest(cfg, y');
      Join(cfg, y, y', z);
    }
  }

  lemma AcceptOne(cfg: Config, y: System) returns (z: System)
    requires ValidConfig(cfg) && Inv(cfg, y) && CanAccept(y) && !y.s.refused && Roomy(y) && y.s.known
    ensures LeadsTo(cfg, y, z) && Inv(cfg, z) && MovedOn(y, z)
    ensures z.s.cur == y.s.cur && |z.links| == |y.links|
    ensures Serving(z) && Served(z).server.Accepting? && |Served(z).server.todo| == |Served(y).server.todo| - 1
  {
    hide LeadsTo, Inv, ValidConfig, Accept, Entry, Roomy;
    z := DoAccept(cfg, y);
    AcceptedEntry(cfg, y);
    IdealOf(cfg);
    hide Ideal;
    var p := y.c.sent[y.s.recvSeq];
    AcceptOutcome(cfg, y.s, y.s.recvSeq, p);
    Stay(cfg, y);
    Go(cfg, y, y, AcceptNext, z);
    LeadsToInv(cfg, y, z);
    AcceptLeavesRoom(cfg, y, z, p);
  }

  /** Links not yet taken over are, one after the other, and found dead. */
  lemma {:induction false} CloseRest(cfg: Config, y: System, n: nat) returns (z: System)
    requires ValidConfig(cfg) && Inv(cfg, y) && n <= |y.links|
    requires forall i :: 0 <= i < |y.links| ==> if i < n then y.links[i].server.Closed? else Resting(y.links[i])
    requires y.s.cur.Some? ==> y.s.cur.value < |y.links| && y.links[y.s.cur.value].server.Closed?
    ensures LeadsTo(cfg, y, z) && Inv(cfg, z) && z.c == y.c && z.s == y.s.(cur := z.s.cur)
    ensures |z.links| == |y.links| && forall i :: 0 <= i < |z.links| ==> z.links[i].server.Closed?
    decreases |y.links| - n
  {
    hide LeadsTo, Inv, ValidConfig;
    Stay(cfg, y);
    z := y;
    if n < |y.links| {
      var w := y;
      if y.links[n].server.Waiting? {
        w := TakeOverAndClose(cfg, y, n);
      }
      z := CloseRest(cfg, w, n + 1);
      Join(cfg, y, w, z);
    }
  }

  lemma TakeOverAndClose(cfg: Config, y: System, n: nat) returns (z: System)
    requires ValidConfig(cfg) && Inv(cfg, y) && CanTakeOver(y, n)
    ensures LeadsTo(cfg, y, z) && Inv(cfg, z) && z.c == y.c && z.s == y.s.(cur := Some(n))
    ensures |z.links| == |y.links| && z.links[n].server.Closed?
    ensures forall i :: 0 <= i < |y.links| && i != n ==> z.links[i] == y.links[i]
  {
    hide LeadsTo, Inv, ValidConfig;
    Stay(cfg, y);
    var a := DoTakeOver(y, n);
    Go(cfg, y, y, TakeOver(n), a);
    z := DoClose(a, n);
    Go(cfg, y, a, CloseLink(n), z);
    LeadsToInv(cfg, y, z);
  }

  lemma OthersRest(cfg: Config, y: System)
    requires Inv(cfg, y)
    ensures y.s.cur.Some? ==> y.s.cur.value < |y.links|
    ensures forall i :: 0 <= i < |y.links| && y.s.cur != Some(i) ==> Resting(y.links[i])
  {
    hide LinksOk, ClientOk, LogsOk, Ok, Exact, ServerOk, BrokenOk, ServedOk;
  }

  /** The link goes down, the server accepts what it has decoded, and every link is closed. */
  lemma LetGo(cfg: Config, y: System) returns (z: System)
    requires ValidConfig(cfg) && Inv(cfg, y) && CanGoOn(y)
    ensures LeadsTo(cfg, y, z) && Inv(cfg, z) && Settled(z) && CanResume(z) && !z.s.refused && Onward(y, z)
    ensures Framable(After(z.s.log, z.c.inb.recvSeq))
  {
    hide LeadsTo, Inv, ValidConfig, Roomy;
    var a := ClientLetsGo(cfg, y);
    OthersRest(cfg, a);
    var b := a;
    Stay(cfg, a);
    if a.s.cur.Some? {
      b := ServedLetsGo(cfg, a);
      Join(cfg, y, a, b);
    }
    OthersRest(cfg, b);
    z := CloseRest(cfg, b, 0);
    Join(cfg, y, b, z);
    SameRoom(b, z);
    RoomyResumes(cfg, y, z);
  }

  lemma ServedLetsGo(cfg: Config, y: System) returns (z: System)
    requires ValidConfig(cfg) && Inv(cfg, y) && Serving(y) && !y.s.refused && Roomy(y) && y.s.known
    ensures LeadsTo(cfg, y, z) && Inv(cfg, z) && MovedOn(y, z) && Serving(z) && Served(z).server.Closed?
  {
    hide LeadsTo, Inv, ValidConfig, Roomy;
    Stay(cfg, y);
    var b := y;
    if Served(y).server.Accepting? {
      b := AcceptRest(cfg, y);
    }
    z := DoClose(b, b.s.cur.value);
    Go(cfg, y, b, CloseLink(b.s.cur.value), z);
    LeadsToInv(cfg, y, z);
    SameRoom(b, z);
  }

  lemma RoomyResumes(cfg: Config, y: System, z: System)
    requires Inv(cfg, z) && CanGoOn(y) && LetGoOf(y, z) && Roomy(z) && y.s.recvSeq <= z.s.recvSeq
    ensures CanResume(z) && Framable(After(z.s.log, z.c.inb.recvSeq))
  {
    hide LinksOk, ClientOk, Exact, Ok, Entry, ServerOk, CurOk;
  }

  /** From every reachable live state with room, some continuation delivers everything, both ways. */
  lemma EverythingCanArrive(cfg: Config, y: System)
    requires ValidConfig(cfg) && Reachable(cfg, y) && CanGoOn(y)
    ensures exists z :: LeadsTo(cfg, y, z) && AllArrived(y, z)
  {
    hide LeadsTo, Inv, ValidConfig, Reachable, CanGoOn, CanResume, Settled, Framable, Arrived;
    ReachableInv(cfg, y);
    var a := LetGo(cfg, y);
    SettledReady(cfg, a);
    var z := ReadyArrives(cfg, a);
    Join(cfg, y, a, z);
    ArrivedMeansAll(y, z);
  }

  // ---------------------------------------------------------------- an oversized catchup

  /** A server that sealed p before the client first connects to it. */
  ghost function OversizedStart(cfg: Config, p: Packet): System
  {
    System(Client(Initial(cfg.limit), [], EMPTY, false, Idle, false),
           Server(true, [Entry(cfg.cipher, ServerToClient, 0, p)], [p], 0, 0, [], true, None, false), [])
  }

  lemma OversizedStartReady(cfg: Config, p: Packet)
    requires ValidConfig(cfg)
    ensures Reachable(cfg, OversizedStart(cfg, p)) && Settled(OversizedStart(cfg, p))
    ensures Fits([Entry(cfg.cipher, ServerToClient, 0, p)]) <==> CanResume(OversizedStart(cfg, p))
    ensures CanResume(OversizedStart(cfg, p)) ==> Ready(OversizedStart(cfg, p))
  {
    hide Reachable, Entry;
    InitReachable(cfg, OversizedStart(cfg, p));
    assert [Entry(cfg.cipher, ServerToClient, 0, p)][0..] == [Entry(cfg.cipher, ServerToClient, 0, p)];
  }

  /** The server seals a packet too large for a frame that still fits a message; the catchup of the
      next link carries it, and the client fails with an integrity error. */
  lemma OversizedCatchupEndsClient(cfg: Config, p: Packet)
    requires ValidConfig(cfg) && |p.payload| > MAX_PAYLOAD && Fits([Entry(cfg.cipher, ServerToClient, 0, p)])
    ensures exists y :: Reachable(cfg, y) && y.c.inb.broken && y.c.ended && y.s.sent == [p]
  {
    hide LeadsTo, Framed, FrameBytes, ReadOne, Entry, Size, Accept, Reachable, Outbound.Commit, Ideal, Fits, Ready;
    var y := OversizedStart(cfg, p);
    OversizedStartReady(cfg, p);
    var z := Committed(cfg, y);
    assert z.c.phase.todo == [Entry(cfg.cipher, ServerToClient, 0, p)];
    EntrySize(cfg.cipher, ServerToClient, 0, p);
    var w := DoDeliverCatchup(cfg, z);
    assert w.c.inb.broken;
    Go(cfg, y, z, DeliverCatchup, w);
    ReachableOn(cfg, y, w);
  }

  /** One too large even for a message stalls the session instead: no link ever commits, nothing is
      received, and the client does not fail by it. */
  lemma HugePacketStalls(cfg: Config, p: Packet, z: System)
    requires ValidConfig(cfg) && !Fits([Entry(cfg.cipher, ServerToClient, 0, p)])
    requires LeadsTo(cfg, OversizedStart(cfg, p), z)
    ensures z.c.inb.recvSeq == 0 && !z.c.inb.broken && !z.c.phase.Running?
  {
    hide LeadsTo, Entry, Reachable, Fits, CanResume, Settled, ValidConfig;
    OversizedStartReady(cfg, p);
    NothingMoreArrives(cfg, OversizedStart(cfg, p), z);
  }
}
