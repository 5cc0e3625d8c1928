/** Waiting on `space` and `wake`: any number of writers, the watcher's probes, and one link
    after another (internal/etcp/conn.go:74-111, link.go:185-247, recover.go:111-125). A channel
    of capacity 1 holds at most one token, a send into a full one is dropped, and a thread that
    has released the lock still owes the signals it decided on under it. */
module Backpressure {
  import opened Bytes
  import opened Outbound

  /** Locking: about to lock and check for room. OweWake: has queued, owes `wake`, and then
      `space` if it left room. */
  datatype WriterThread = Away | Locking | Parked | OweWake(room: bool) | OweSpace

  /** Signalling: the backlog was drained to the limit or below, `space` is owed. A link comes up
      by a recover's commit; only a Conn's first can be up from the start. */
  datatype LinkThread = Down | Checking | Waiting | Sending(n: nat) | Signalling

  datatype State = State(
    unsent: nat, limit: nat, space: bool, wake: bool, live: bool,
    writers: seq<WriterThread>, link: LinkThread, probeOwesWake: bool)

  datatype Step =
    | Enter(i: nat) | Lock(i: nat, size: nat) | SignalWake(i: nat) | SignalSpace(i: nat)
    | TakeSpace(i: nat) | Cancel(i: nat)
    | LinkUp(n: nat) | LinkCheck(n: nat) | LinkTakeWake | LinkSent | LinkSignal | LinkDown
    | Probe(size: nat) | ProbeWake | End

  predicate Writer(s: State, i: nat, t: WriterThread) { i < |s.writers| && s.writers[i] == t }

  predicate Enabled(s: State, step: Step)
  {
    match step
    case Enter(i) => Writer(s, i, Away)
    case Lock(i, size) => Writer(s, i, Locking) && size > 0
    case SignalWake(i) => i < |s.writers| && s.writers[i].OweWake?
    case SignalSpace(i) => Writer(s, i, OweSpace)
    case TakeSpace(i) => Writer(s, i, Parked) && s.space
    case Cancel(i) => Writer(s, i, Parked)
    case LinkUp(n) => s.link.Down? && n <= s.unsent
    case LinkCheck(n) => s.link.Checking? && (if s.unsent == 0 then n == 0 else 0 < n <= s.unsent)
    case LinkTakeWake => s.link.Waiting? && s.wake
    case LinkSent => s.link.Sending? && s.link.n <= s.unsent
    case LinkSignal => s.link.Signalling?
    case LinkDown => s.link.Checking? || s.link.Waiting? || s.link.Sending?
    case Probe(size) => size > 0 && !s.probeOwesWake
    case ProbeWake => s.probeOwesWake
    case End => true
  }

  function SetWriter(s: State, i: nat, t: WriterThread): State
    requires i < |s.writers|
  {
    s.(writers := s.writers[i := t])
  }

  /** Drained: n bytes left the backlog; signal if it is at the limit or below. */
  function Drained(s: State, n: nat): State
    requires n <= s.unsent
  {
    s.(unsent := s.unsent - n, link := if s.unsent - n <= s.limit then Signalling else Checking)
  }

  function Apply(s: State, step: Step): State
    requires Enabled(s, step)
  {
    match step
    case Enter(i) => SetWriter(s, i, Locking)
    case Lock(i, size) =>
      if !s.live then SetWriter(s, i, Away)
      else if s.unsent <= s.limit
      then SetWriter(s.(unsent := s.unsent + size), i, OweWake(s.unsent + size <= s.limit))
      else SetWriter(s, i, Parked)
    case SignalWake(i) => SetWriter(s.(wake := true), i, if s.writers[i].room then OweSpace else Away)
    case SignalSpace(i) => SetWriter(s.(space := true), i, Away)
    case TakeSpace(i) => SetWriter(s.(space := false), i, Locking)
    case Cancel(i) => SetWriter(s, i, Away)
    case LinkUp(n) => Drained(s, n)
    case LinkCheck(n) => s.(link := if s.unsent == 0 then Waiting else Sending(n))
    case LinkTakeWake => s.(wake := false, link := Checking)
    case LinkSent => Drained(s, s.link.n)
    case LinkSignal => s.(space := true, link := Checking)
    case LinkDown => s.(link := Down)
    case Probe(size) => s.(unsent := s.unsent + size, probeOwesWake := true)
    case ProbeWake => s.(wake := true, probeOwesWake := false)
    case End => s.(live := false)
  }

  ghost predicate Init(s: State)
  {
    && s.unsent == 0 && !s.space && !s.wake && s.live && (s.link.Down? || s.link.Checking?)
    && !s.probeOwesWake
    && forall i :: 0 <= i < |s.writers| ==> s.writers[i] == Away
  }

  ghost predicate AnyParked(writers: seq<WriterThread>)
  {
    exists i :: 0 <= i < |writers| && writers[i].Parked?
  }

  ghost predicate AnyWillPass(writers: seq<WriterThread>)
  {
    exists i :: 0 <= i < |writers| && WillPass(writers[i])
  }

  ghost predicate AnyOwesWake(writers: seq<WriterThread>)
  {
    exists i :: 0 <= i < |writers| && writers[i].OweWake?
  }

  predicate WillPass(t: WriterThread) { t.Locking? || t.OweSpace? || (t.OweWake? && t.room) }

  /** The wakeup of a parked writer is somewhere: in the channel, owed, or with a writer that
      was woken or is new and has not checked yet. */
  ghost predicate SpaceComing(s: State) { s.space || s.link.Signalling? || AnyWillPass(s.writers) }

  ghost predicate SomeoneParked(s: State) { AnyParked(s.writers) }

  ghost predicate WakeComing(s: State) { s.wake || s.probeOwesWake || AnyOwesWake(s.writers) }

  /** Nothing in flight is larger than the backlog: only the link takes from it. */
  ghost predicate Inv(s: State)
  {
    && (s.live && SomeoneParked(s) && s.unsent <= s.limit ==> SpaceComing(s))
    && (s.link.Waiting? && s.unsent > 0 ==> WakeComing(s))
    && (s.link.Sending? ==> 0 < s.link.n <= s.unsent)
  }

  lemma WriterStepInv(s: State, step: Step)
    requires Inv(s) && Enabled(s, step)
    requires step.Enter? || step.Lock? || step.SignalWake? || step.SignalSpace? || step.TakeSpace? || step.Cancel?
    ensures Inv(Apply(s, step))
  {
    var i, t := step.i, Apply(s, step);
    assert forall j :: 0 <= j < |s.writers| && j != i ==> t.writers[j] == s.writers[j];
    if t.live && SomeoneParked(t) && t.unsent <= t.limit {
      var p :| 0 <= p < |t.writers| && t.writers[p].Parked?;
      if WillPass(t.writers[i]) {
      } else if p != i {
        assert s.writers[p].Parked?;
        if !s.space && !s.link.Signalling? && s.unsent <= s.limit {
          var k :| 0 <= k < |s.writers| && WillPass(s.writers[k]);
          assert k != i ==> WillPass(t.writers[k]);
        }
      }
    }
    if t.link.Waiting? && t.unsent > 0 && !t.wake && !t.probeOwesWake {
      if t.writers[i].OweWake? {
      } else {
        var k :| 0 <= k < |s.writers| && s.writers[k].OweWake?;
        assert t.writers[k].OweWake?;
      }
    }
  }

  lemma StepInv(s: State, step: Step)
    requires Inv(s) && Enabled(s, step)
    ensures Inv(Apply(s, step))
  {
    if step.Enter? || step.Lock? || step.SignalWake? || step.SignalSpace? || step.TakeSpace? || step.Cancel? {
      hide Inv, Enabled, Apply;
      WriterStepInv(s, step);
    } else {
      hide AnyParked, AnyWillPass, AnyOwesWake, SetWriter;
    }
  }

  ghost predicate IsRun(run: seq<State>, steps: seq<Step>)
  {
    && |run| == |steps| + 1 && Init(run[0])
    && forall i :: 0 <= i < |steps| ==> Enabled(run[i], steps[i]) && run[i + 1] == Apply(run[i], steps[i])
  }

  lemma {:induction false} RunInv(run: seq<State>, steps: seq<Step>, i: nat)
    requires IsRun(run, steps) && i < |run|
    ensures Inv(run[i])
  {
    if i > 0 {
      RunInv(run, steps, i - 1);
      StepInv(run[i - 1], steps[i - 1]);
    }
  }

  /** No lost wakeup, in any run: while the Conn is live, a parked writer with room has its
      wakeup on the way; and a link that waits with a backlog has its own. */
  lemma NoLostWakeup(run: seq<State>, steps: seq<Step>, i: nat)
    requires IsRun(run, steps) && i < |run|
    ensures run[i].live && SomeoneParked(run[i]) && run[i].unsent <= run[i].limit ==> SpaceComing(run[i])
    ensures run[i].link.Waiting? && run[i].unsent > 0 ==> WakeComing(run[i])
  {
    RunInv(run, steps, i);
  }

  /** The steps the Conn's own threads owe; the rest are the callers', the network's, timers'. */
  predicate Owed(step: Step)
  {
    || step.Lock? || step.SignalWake? || step.SignalSpace? || step.TakeSpace?
    || step.LinkCheck? || step.LinkTakeWake? || step.LinkSent? || step.LinkSignal? || step.ProbeWake?
  }

  /** With a parked writer and a link some owed step can be taken, at the latest the link's next
      write. */
  lemma SomeOwedStep(s: State)
    requires Inv(s) && s.live && !s.link.Down? && SomeoneParked(s)
    ensures exists step :: Owed(step) && Enabled(s, step)
  {
    var p :| 0 <= p < |s.writers| && s.writers[p].Parked?;
    if s.link.Signalling? {
      assert Enabled(s, LinkSignal);
    } else if s.link.Sending? {
      assert Enabled(s, LinkSent);
    } else if s.link.Checking? {
      assert Enabled(s, LinkCheck(if s.unsent == 0 then 0 else 1));
    } else if s.wake {
      assert Enabled(s, LinkTakeWake);
    } else if s.probeOwesWake {
      assert Enabled(s, ProbeWake);
    } else if s.space {
      assert Enabled(s, TakeSpace(p));
    } else if s.unsent > 0 {
      var k :| 0 <= k < |s.writers| && s.writers[k].OweWake?;
      assert Enabled(s, SignalWake(k));
    } else {
      var k :| 0 <= k < |s.writers| && WillPass(s.writers[k]);
      assert Enabled(s, if s.writers[k].Locking? then Lock(k, 1)
                        else if s.writers[k].OweSpace? then SignalSpace(k) else SignalWake(k));
    }
  }

  // ---------------------------------------------------------------- owed steps come to an end

  function Rank(t: WriterThread): nat
  {
    match t
    case Locking => 3
    case OweWake(_) => 2
    case OweSpace => 1
    case _ => 0
  }

  function Ranks(writers: seq<WriterThread>): nat
  {
    if writers == [] then 0 else Rank(writers[0]) + Ranks(writers[1..])
  }

  function LinkRank(t: LinkThread): nat { if t.Signalling? then 2 else if t.Checking? then 1 else 0 }

  lemma {:induction false} RanksUpdate(writers: seq<WriterThread>, i: nat, t: WriterThread)
    requires i < |writers|
    ensures Ranks(writers[i := t]) + Rank(writers[i]) == Ranks(writers) + Rank(t)
  {
    if i == 0 {
      assert writers[0 := t][1..] == writers[1..];
    } else {
      assert writers[i := t][1..] == writers[1..][i - 1 := t];
      RanksUpdate(writers[1..], i - 1, t);
    }
  }

  /** Debts of the writers, then the prober's, then the backlog, the wake token, the link. */
  predicate Smaller(t: State, s: State)
  {
    if Ranks(t.writers) != Ranks(s.writers) then Ranks(t.writers) < Ranks(s.writers)
    else if t.probeOwesWake != s.probeOwesWake then s.probeOwesWake
    else if t.unsent != s.unsent then t.unsent < s.unsent
    else if t.wake != s.wake then s.wake
    else LinkRank(t.link) < LinkRank(s.link)
  }

  /** Every owed step but a parked writer's wakeup takes something away for good. */
  lemma OwedStepsEnd(s: State, step: Step)
    requires Inv(s) && Enabled(s, step) && Owed(step) && !step.TakeSpace?
    ensures Inv(Apply(s, step)) && Smaller(Apply(s, step), s)
    ensures Apply(s, step).live == s.live && (SomeoneParked(s) ==> SomeoneParked(Apply(s, step)))
    ensures !s.link.Down? ==> !Apply(s, step).link.Down?
  {
    hide Inv;
    StepInv(s, step);
    var t := Apply(s, step);
    if step.Lock? || step.SignalWake? || step.SignalSpace? {
      RanksUpdate(s.writers, step.i, t.writers[step.i]);
    } else {
      assert t.writers == s.writers;
      SentSomething(s);
    }
    if p :| 0 <= p < |s.writers| && s.writers[p].Parked? {
      assert t.writers[p].Parked?;
    }
  }

  lemma SentSomething(s: State)
    requires Inv(s)
    ensures s.link.Sending? ==> 0 < s.link.n <= s.unsent
  {
  }

  /** Whichever owed steps are taken, in whatever order, a parked writer wakes and checks again:
      there is always one to take, and without a wakeup they come to an end. */
  ghost predicate MustRecheck(s: State)
    requires Inv(s)
    decreases Ranks(s.writers), s.probeOwesWake, s.unsent, s.wake, LinkRank(s.link)
  {
    && (exists step :: Owed(step) && Enabled(s, step))
    && (forall step :: Owed(step) && Enabled(s, step) && !step.TakeSpace? ==>
          (OwedStepsEnd(s, step); MustRecheck(Apply(s, step))))
  }

  lemma {:induction false} ParkedMustRecheck(s: State)
    requires Inv(s) && s.live && !s.link.Down? && SomeoneParked(s)
    ensures MustRecheck(s)
    decreases Ranks(s.writers), s.probeOwesWake, s.unsent, s.wake, LinkRank(s.link)
  {
    hide Inv, Enabled, Apply, Ranks, SomeoneParked;
    SomeOwedStep(s);
    forall step | Owed(step) && Enabled(s, step) && !step.TakeSpace?
      ensures Inv(Apply(s, step)) && MustRecheck(Apply(s, step))
    {
      OwedStepsEnd(s, step);
      ParkedMustRecheck(Apply(s, step));
    }
  }

  /** So no writer is parked for good while a link is up, in any run. */
  lemma ParkedWriterRechecks(run: seq<State>, steps: seq<Step>, i: nat)
    requires IsRun(run, steps) && i < |run|
    requires run[i].live && !run[i].link.Down? && SomeoneParked(run[i])
    ensures Inv(run[i]) && MustRecheck(run[i])
  {
    hide Inv, Enabled, Apply, SomeoneParked, MustRecheck;
    RunInv(run, steps, i);
    ParkedMustRecheck(run[i]);
  }

  // ---------------------------------------------------------------- the tokens

  /** One token wakes one writer: the next has to wait for another signal. */
  lemma TokenWakesOne(s: State, i: nat, j: nat)
    requires Enabled(s, TakeSpace(i))
    ensures Apply(s, TakeSpace(i)).writers[i] == Locking && !Enabled(Apply(s, TakeSpace(i)), TakeSpace(j))
  {
  }

  /** A writer that has queued wakes the link, and passes its turn on exactly if it left room. */
  lemma TurnIsPassedWithRoom(s: State, i: nat)
    requires Enabled(s, SignalWake(i))
    ensures var t := Apply(s, SignalWake(i));
            && t.wake && t.space == s.space && t.unsent == s.unsent
            && (Enabled(t, SignalSpace(i)) <==> s.writers[i].room)
  {
  }

  /** A caller that gives up waiting takes nothing with it, and does not come back by itself. */
  lemma CancelledLeaves(s: State, i: nat)
    requires Enabled(s, Cancel(i))
    ensures var t := Apply(s, Cancel(i)); t == s.(writers := t.writers) && t.writers == s.writers[i := Away]
  {
  }

  /** Nothing is queued on a Conn that has ended. */
  lemma EndedQueuesNothing(s: State, i: nat, size: nat)
    requires Enabled(s, Lock(i, size)) && !s.live
    ensures var t := Apply(s, Lock(i, size)); t.unsent == s.unsent && t.writers[i] == Away
  {
  }

  // ---------------------------------------------------------------- the backlog is the Conn's

  /** The backlog here is that of the outbound state, whose steps the Conn's methods take. */
  ghost predicate Tracks(s: State, o: Outbound)
  {
    o.flushed <= |o.ring.log| && s.unsent == o.Unsent() && s.limit == o.ring.limit
  }

  /** Queueing a packet, and whether it left room. */
  lemma LockTracks(s: State, i: nat, o: Outbound, data: Bytes)
    requires Enabled(s, Lock(i, |data|)) && Tracks(s, o) && s.live && s.unsent <= s.limit
    ensures var t := Apply(s, Lock(i, |data|));
            Tracks(t, o.Enqueue(data)) && t.writers[i] == OweWake(o.Enqueue(data).Unsent() <= o.ring.limit)
  {
    SizePush(o.ring.log, data, o.flushed);
  }

  lemma ProbeTracks(s: State, o: Outbound, data: Bytes)
    requires Enabled(s, Probe(|data|)) && Tracks(s, o) && o.lastProbe < o.flushed
    ensures Tracks(Apply(s, Probe(|data|)), o.Probe(data))
  {
    SizePush(o.ring.log, data, o.flushed);
  }

  /** A written batch, and whether `space` is owed for it. */
  lemma SentTracks(s: State, o: Outbound, sent: nat)
    requires Tracks(s, o) && o.flushed + sent <= |o.ring.log|
    requires s.link == Sending(Size(o.ring.log, o.flushed, o.flushed + sent))
    ensures Enabled(s, LinkSent) && Tracks(Apply(s, LinkSent), o.Flush(sent))
    ensures Apply(s, LinkSent).link.Signalling? <==> o.Flush(sent).Unsent() <= o.ring.limit
  {
    hide Window.TrimPoint;
    SizeSplit(o.ring.log, o.flushed, o.flushed + sent, |o.ring.log|);
  }

  /** A committed exchange, likewise. */
  lemma LinkUpTracks(s: State, o: Outbound, snap: nat, peer: nat)
    requires Tracks(s, o) && o.flushed <= snap <= |o.ring.log| && s.link.Down?
    ensures var up := LinkUp(Size(o.ring.log, o.flushed, snap));
            && Enabled(s, up) && Tracks(Apply(s, up), o.Commit(snap, peer))
            && (Apply(s, up).link.Signalling? <==> o.Commit(snap, peer).Unsent() <= o.ring.limit)
  {
    hide Window.TrimPoint;
    SizeSplit(o.ring.log, o.flushed, snap, |o.ring.log|);
  }
}
