/** When a session between links cannot go on: then, whatever happens, nothing more arrives. */
module Stalls {
  import opened Bytes
  import opened Frames
  import opened Messages
  import opened Nonces
  import opened Packets
  import opened Sealing
  import opened Outbound
  import opened Inbound
  import opened Writer
  import opened Protocol
  import opened Invariant
  import opened ClientSteps
  import opened ServerSteps
  import opened Safety
  import opened Paths

  /** Between links, with nothing of an earlier one left to take over. */
  ghost predicate Settled(y: System)
  {
    y.c.phase.Idle? && y.s.known && forall i :: 0 <= i < |y.links| ==> y.links[i].server.Closed?
  }

  /** Everything sealed after position p. */
  function After(log: seq<Bytes>, p: nat): seq<Bytes> { if p <= |log| then log[p..] else [] }

  /** The client will not get as far as writing its catchup. */
  ghost predicate ClientBlocked(y: System)
  {
    || y.c.ended || y.s.recvSeq > MAX_INT32 || y.c.inb.recvSeq > MAX_INT32
    || y.c.out.ring.first > y.s.recvSeq || !Fits(After(Clog(y), y.s.recvSeq))
  }

  /** The server will not be able to write its own. */
  ghost predicate ServerBlocked(y: System) { !Fits(After(y.s.log, y.c.inb.recvSeq)) }

  /** A recover exchange can succeed: the Conn has not ended, both positions can be stated, the
      server's is retained, and both catchups fit one message. */
  ghost predicate CanResume(y: System) { !ClientBlocked(y) && !ServerBlocked(y) }

  /** A link dialed since, on which neither catchup that is blocked was written. */
  ghost predicate StuckLink(y: System, l: Link)
  {
    && !l.isNew
    && (l.server.Waiting? || l.server.Greeting? || l.server.Greeted? || l.server.Answering?
        || l.server.Listening? || l.server.Closed?)
    && (l.server.Answering? ==> l.server.next >= |y.s.log|)
    && (l.sHeader.Some? ==> l.sPos == y.s.recvSeq)
    && (l.cHeader.Some? ==> l.cHeader.value == y.c.inb.recvSeq)
    && (ClientBlocked(y) ==> l.cCatchup.None?)
    && (ServerBlocked(y) ==> l.sCatchup.None?)
  }

  ghost predicate StuckLinks(y: System, links: seq<Link>)
  {
    && |y.links| <= |links|
    && (forall i :: 0 <= i < |y.links| ==> links[i].server.Closed?)
    && (forall i :: |y.links| <= i < |links| ==> StuckLink(y, links[i]))
  }

  ghost predicate StuckClient(y: System, c: Client)
  {
    && Clog(y) <= c.out.ring.log && c.out.ring.first == y.c.out.ring.first
    && c.inb.recvSeq == y.c.inb.recvSeq && c.inb.broken == y.c.inb.broken
    && !c.phase.Running? && (y.c.ended ==> c.ended && !c.phase.Recovering?)
    && (c.phase.Recovering? && c.phase.snap.Some? ==> c.phase.snap.value.next >= |Clog(y)|)
  }

  ghost predicate StuckServer(y: System, s: Server)
  {
    s.known && s.recvSeq == y.s.recvSeq && y.s.log <= s.log
  }

  /** What every continuation of y keeps. */
  ghost predicate Stalled(y: System, z: System)
  {
    && y.s.recvSeq <= |Clog(y)| && y.c.inb.recvSeq <= |y.s.log|
    && StuckClient(y, z.c) && StuckServer(y, z.s) && StuckLinks(y, z.links)
    && (z.c.phase.Recovering? ==> |z.links| > |y.links|)
  }

  lemma CurrentLink(cfg: Config, z: System)
    requires Inv(cfg, z) && z.c.phase.Recovering?
    ensures OnLink(z) && RecoveringOk(z.c.out, z.c.inb.recvSeq, Cur(z), z.c.phase)
    ensures FromClientOk(Clog(z), z.s.recvSeq, Cur(z))
  {
    hide Framed, FromClientOk, FromServerOk, ServerPhaseOk, RecoveringOk, ServerOk, Ok, Exact, Entry;
  }

  lemma ServedLink(cfg: Config, z: System)
    requires Inv(cfg, z) && Serving(z)
    ensures ServerPhaseOk(Clog(z), z.s.log, z.s.recvSeq, Served(z))
  {
    hide Framed, FromClientOk, FromServerOk, ServerPhaseOk, ClientOk, ServerOk, Ok, Exact, Entry, ServedOk;
  }

  // ---------------------------------------------------------------- the client's steps

  /** A client that has a snapshot is not blocked, unless by the size of its catchup. */
  lemma SnapshotMeans(cfg: Config, y: System, z: System)
    requires Inv(cfg, z) && Stalled(y, z) && z.c.phase.Recovering? && z.c.phase.snap.Some?
    ensures ClientBlocked(y) ==> !Fits(z.c.phase.snap.value.ours)
  {
    hide Inv, Ok, Framed;
    CurrentLink(cfg, z);
    var l, snap, p := Cur(z), z.c.phase.snap.value, y.s.recvSeq;
    hide Fits;
    assert StuckLink(y, l);
    assert l.sPos == p && Int32(p) == p;
    var upto := Clog(z)[..snap.next];
    assert upto[p..] == Clog(z)[p..snap.next] && Clog(y) <= upto;
    if !Fits(Clog(y)[p..]) { StillTooLarge(Clog(y), upto, p); }
  }

  lemma StillTooLarge(log: seq<Bytes>, grown: seq<Bytes>, from: nat)
    requires log <= grown && from <= |log| && !Fits(log[from..])
    ensures !Fits(grown[from..])
  {
    CatchupGrows(log, grown, from);
  }

  /** One link of the client's replaced. */
  lemma CurStuck(y: System, z: System, l: Link)
    requires StuckLinks(y, z.links) && |z.links| > |y.links| && StuckLink(y, l)
    ensures StuckLinks(y, SetCur(z, l).links)
  {
    hide StuckLink;
  }

  lemma WriteStalls(cfg: Config, y: System, z: System, p: Packet)
    requires Stalled(y, z)
    ensures Stalled(y, DoWrite(cfg, z, p))
  {
    hide StuckLinks, Entry;
  }

  lemma ConnectStalls(y: System, z: System)
    requires Stalled(y, z) && CanConnect(z)
    ensures Stalled(y, DoConnect(z))
  {
    hide Fits;
    var links := z.links + [NewLink(false)];
    assert forall i :: 0 <= i < |z.links| ==> links[i] == z.links[i];
    assert links[|z.links|] == NewLink(false);
  }

  lemma WriteHeaderStalls(y: System, z: System)
    requires Stalled(y, z) && CanWriteHeader(z)
    ensures Stalled(y, DoWriteHeader(z))
  {
    hide Fits;
    CurStuck(y, z, Cur(z).(cHeader := Some(z.c.inb.recvSeq)));
  }

  lemma SnapshotStalls(y: System, z: System)
    requires Stalled(y, z) && CanSnapshot(z)
    ensures Stalled(y, DoSnapshot(z))
  {
    hide Fits;
    CurStuck(y, z, Cur(z).(cStart := z.c.out.Next()));
  }

  lemma WriteCatchupStalls(cfg: Config, y: System, z: System)
    requires Inv(cfg, z) && Stalled(y, z) && CanWriteCatchup(z)
    ensures Stalled(y, DoWriteCatchup(z))
  {
    hide Inv, Fits;
    SnapshotMeans(cfg, y, z);
    CurStuck(y, z, Cur(z).(cCatchup := Some(z.c.phase.snap.value.ours)));
  }

  /** With either catchup blocked there is no commit. */
  lemma NoCommit(cfg: Config, y: System, z: System)
    requires Inv(cfg, z) && Stalled(y, z) && !CanResume(y)
    ensures !CanCommit(z)
  {
    hide Inv, Fits, Framed, Ok;
    if z.c.phase.Recovering? {
      CurrentLink(cfg, z);
      assert StuckLink(y, Cur(z));
    }
  }

  lemma ClientStalls(cfg: Config, y: System, z: System, step: Step, w: System)
    requires Inv(cfg, z) && Stalled(y, z) && !CanResume(y) && Next(cfg, z, step, w) && !ByServer(step)
    ensures Stalled(y, w)
  {
    hide Inv, CanResume, DoWriteHeader, DoSnapshot, DoWriteCatchup, DoWrite, DoConnect, StuckLinks, Fits, ClientBlocked,
         ServerBlocked;
    if step.Write? {
      WriteStalls(cfg, y, z, step.p);
    } else if step.Connect? {
      ConnectStalls(y, z);
    } else if step.WriteHeader? {
      WriteHeaderStalls(y, z);
    } else if step.TakeSnapshot? {
      SnapshotStalls(y, z);
    } else if step.WriteCatchup? {
      WriteCatchupStalls(cfg, y, z);
    } else if step.Commit? {
      NoCommit(cfg, y, z);
    }
  }

  // ---------------------------------------------------------------- the server's steps

  lemma ServedStuck(y: System, z: System, i: nat, l: Link)
    requires StuckLinks(y, z.links) && i < |z.links|
    requires if i < |y.links| then l.server.Closed? else StuckLink(y, l)
    ensures StuckLinks(y, z.links[i := l])
  {
    hide StuckLink;
  }

  lemma ServedIsNew(y: System, z: System)
    requires StuckLinks(y, z.links) && Serving(z) && !Served(z).server.Closed?
    ensures z.s.cur.value >= |y.links| && StuckLink(y, Served(z))
  {
    hide StuckLink;
  }

  lemma TakeOverStalls(y: System, z: System, i: nat)
    requires Stalled(y, z) && CanTakeOver(z, i)
    ensures Stalled(y, DoTakeOver(z, i))
  {
    hide Fits, ClientBlocked, ServerBlocked;
    ServedStuck(y, z, i, TakenOver(z.links[i], z.s.recvSeq));
  }

  lemma GreetStalls(y: System, z: System)
    requires Stalled(y, z) && CanGreet(z)
    ensures Stalled(y, DoGreet(z))
  {
    hide Fits, ClientBlocked, ServerBlocked;
    ServedIsNew(y, z);
    ServedStuck(y, z, z.s.cur.value,
                Served(z).(server := Greeted, sHeader := Some(Int32(z.s.recvSeq)), sPos := z.s.recvSeq));
  }

  lemma HearStalls(y: System, z: System)
    requires Stalled(y, z) && CanHear(z)
    ensures Stalled(y, DoHear(z))
  {
    hide Fits, ClientBlocked, ServerBlocked;
    ServedIsNew(y, z);
    ServedStuck(y, z, z.s.cur.value, DoHear(z).links[z.s.cur.value]);
  }

  /** An answer is everything sealed after the client's position, and more. */
  lemma AnswerStalls(cfg: Config, y: System, z: System)
    requires Inv(cfg, z) && Stalled(y, z) && CanAnswer(z)
    ensures Stalled(y, DoAnswer(z))
  {
    hide Inv, Fits, ClientBlocked;
    ServedIsNew(y, z);
    ServedLink(cfg, z);
    var l, r := Served(z), y.c.inb.recvSeq;
    hide Framed;
    var upto := z.s.log[..l.server.next];
    assert upto[r..] == z.s.log[r..l.server.next] && y.s.log <= upto;
    if !Fits(y.s.log[r..]) { StillTooLarge(y.s.log, upto, r); }
    ServedStuck(y, z, z.s.cur.value, l.(server := Listening(l.server.next), sCatchup := Some(l.server.catchup)));
  }

  /** With either catchup blocked the server gets neither to read one nor to stream. */
  lemma NoListen(cfg: Config, y: System, z: System)
    requires Inv(cfg, z) && Stalled(y, z) && !CanResume(y) && Serving(z)
    ensures !CanListen(z) && !Served(z).server.Accepting? && !Served(z).server.Streaming?
  {
    hide Inv, Fits, Framed, ClientBlocked, ServerBlocked;
    if !Served(z).server.Closed? {
      ServedIsNew(y, z);
      ServedLink(cfg, z);
    }
  }

  lemma NoStream(cfg: Config, y: System, z: System, step: Step, w: System)
    requires Inv(cfg, z) && Stalled(y, z) && !CanResume(y)
    requires step.Listen? || step.AcceptNext? || step.StartStream? || step.ServerRead? || step.ServerWrite?
    ensures !Next(cfg, z, step, w)
  {
    hide Inv, Stalled, CanResume, Framed, ReadOne, FrameBytes, DoListen, DoAccept, DoStream, DoServerRead,
         DoServerWrite;
    if Serving(z) { NoListen(cfg, y, z); }
  }

  lemma CloseStalls(y: System, z: System, i: nat)
    requires Stalled(y, z) && CanClose(z, i)
    ensures Stalled(y, DoClose(z, i))
  {
    hide Fits, ClientBlocked, ServerBlocked;
    ServedStuck(y, z, i, z.links[i].(server := Closed));
  }

  lemma SendStalls(cfg: Config, y: System, z: System, step: Step, w: System)
    requires Stalled(y, z) && Next(cfg, z, step, w) && (step.ServerSend? || step.Echo?)
    ensures Stalled(y, w)
  {
    hide StuckLinks, StuckClient, Entry;
  }

  lemma ServerStalls(cfg: Config, y: System, z: System, step: Step, w: System)
    requires Inv(cfg, z) && Stalled(y, z) && !CanResume(y) && Next(cfg, z, step, w) && ByServer(step)
    ensures Stalled(y, w)
  {
    hide Inv, CanResume, Stalled, DoTakeOver, DoGreet, DoHear, DoAnswer, DoClose;
    if step.TakeOver? {
      TakeOverStalls(y, z, step.i);
    } else if step.Greet? {
      GreetStalls(y, z);
    } else if step.Hear? {
      HearStalls(y, z);
    } else if step.Answer? {
      AnswerStalls(cfg, y, z);
    } else if step.CloseLink? {
      CloseStalls(y, z, step.i);
    } else if step.ServerSend? || step.Echo? {
      SendStalls(cfg, y, z, step, w);
    } else {
      NoStream(cfg, y, z, step, w);
    }
  }

  // ---------------------------------------------------------------- runs

  lemma {:induction false} PathStalls(cfg: Config, path: seq<System>, steps: seq<Step>, n: nat)
    requires ValidConfig(cfg) && IsPath(cfg, path, steps) && n <= |steps|
    requires Inv(cfg, path[0]) && Settled(path[0]) && !CanResume(path[0])
    ensures Inv(cfg, path[n]) && Stalled(path[0], path[n])
  {
    hide ValidConfig, Inv, Next, Stalled, Settled, CanResume;
    if n == 0 {
      StartStalled(cfg, path[0]);
    } else {
      PathStalls(cfg, path, steps, n - 1);
      StepInv(cfg, path[n - 1], steps[n - 1], path[n]);
      if ByServer(steps[n - 1]) {
        ServerStalls(cfg, path[0], path[n - 1], steps[n - 1], path[n]);
      } else {
        ClientStalls(cfg, path[0], path[n - 1], steps[n - 1], path[n]);
      }
    }
  }

  lemma StartStalled(cfg: Config, y: System)
    requires Inv(cfg, y) && Settled(y)
    ensures Stalled(y, y)
  {
    hide LinksOk, Exact, Fits, OnlyOldDropped, WrittenBounded, BacklogBounded, Entry, ServedOk;
  }

  /** A session between links that cannot resume never will, whatever anyone does: nothing more is
      accepted by the server or received by the client. */
  lemma NothingMoreArrives(cfg: Config, y: System, z: System)
    requires ValidConfig(cfg) && Reachable(cfg, y) && Settled(y) && !CanResume(y) && LeadsTo(cfg, y, z)
    ensures z.s.accepted == y.s.accepted && z.c.inb.recvSeq == y.c.inb.recvSeq
    ensures z.c.inb.broken == y.c.inb.broken && !z.c.phase.Running?
  {
    hide ValidConfig, Inv, Next, Settled, CanResume, Reachable, StuckLinks;
    ReachableInv(cfg, y);
    var path, steps :| IsPath(cfg, path, steps) && path[0] == y && path[|path| - 1] == z;
    PathStalls(cfg, path, steps, |steps|);
    AcceptedIs(cfg, y);
    AcceptedIs(cfg, z);
    SentGrows(cfg, path, steps, |steps|);
  }

  lemma AcceptedIs(cfg: Config, y: System)
    requires Inv(cfg, y)
    ensures y.s.recvSeq <= |y.c.sent| && y.s.accepted == y.c.sent[..y.s.recvSeq]
  {
    hide LinksOk, ClientOk, Entry, Ok, Exact, CurOk;
  }

  /** Nobody forgets what was sealed. */
  lemma {:induction false} SentGrows(cfg: Config, path: seq<System>, steps: seq<Step>, n: nat)
    requires IsPath(cfg, path, steps) && n <= |steps|
    ensures path[0].c.sent <= path[n].c.sent && path[0].s.sent <= path[n].s.sent
  {
    hide Next;
    if n > 0 {
      SentGrows(cfg, path, steps, n - 1);
      SentGrowsNext(cfg, path[n - 1], steps[n - 1], path[n]);
    }
  }

  lemma AcceptGrows(cfg: Config, s: Server, b: Bytes)
    ensures s.sent <= Accept(cfg, s, b).sent && s.log <= Accept(cfg, s, b).log
  {
    hide Unseal, Entry;
  }

  lemma ExchangeKeepsNext(cfg: Config, y: System, step: Step, z: System)
    requires Next(cfg, y, step, z) && (step.Greet? || step.Hear? || step.Answer? || step.Listen? || step.StartStream?)
    ensures z.c == y.c && z.s == y.s
  {
    hide Fits, Served, CanGreet, CanHear, CanAnswer, CanListen, CanStream;
  }

  lemma LinkKeepsNext(cfg: Config, y: System, step: Step, z: System)
    requires Next(cfg, y, step, z) && (step.Echo? || step.TakeOver? || step.ServerWrite? || step.CloseLink?)
    ensures z.c == y.c && z.s.sent == y.s.sent && z.s.log == y.s.log
  {
    hide FrameBytes, Wrote, TakenOver, Served, CanTakeOver, CanServerWrite, CanClose;
  }

  lemma ServerGrowsNext(cfg: Config, y: System, step: Step, z: System)
    requires Next(cfg, y, step, z) && ByServer(step)
    ensures z.c == y.c && y.s.sent <= z.s.sent && y.s.log <= z.s.log
  {
    hide Accept, Entry, ReadOne, Framed, FrameBytes, Fits;
    if step.AcceptNext? {
      AcceptGrows(cfg, y.s, Served(y).server.todo[0]);
    } else if step.ServerRead? {
      AcceptGrows(cfg, y.s, ServerFrame(y));
    } else if step.Greet? || step.Hear? || step.Answer? || step.Listen? || step.StartStream? {
      hide Next;
      ExchangeKeepsNext(cfg, y, step, z);
    } else if !step.ServerSend? {
      hide Next;
      LinkKeepsNext(cfg, y, step, z);
    }
  }

  lemma ClientGrowsNext(cfg: Config, y: System, step: Step, z: System)
    requires Next(cfg, y, step, z) && !ByServer(step)
    ensures y.c.sent <= z.c.sent && z.s == y.s.(known := z.s.known)
  {
    hide Entry, IsBatch, ReadOne, Framed, FrameBytes, Fits, Window.Trim, Inbound.Deliver;
  }

  lemma SentGrowsNext(cfg: Config, y: System, step: Step, z: System)
    requires Next(cfg, y, step, z)
    ensures y.c.sent <= z.c.sent && y.s.sent <= z.s.sent && y.s.log <= z.s.log
  {
    hide Next;
    if ByServer(step) { ServerGrowsNext(cfg, y, step, z); } else { ClientGrowsNext(cfg, y, step, z); }
  }
}
