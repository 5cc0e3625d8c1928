/** The client's outbound state as a value: what the ring, `flushed` and `lastProbe` of a Conn
    stand for, and what each locked region does to it (internal/etcp/ring.go, conn.go). The log
    is everything ever pushed; the ring itself only keeps the entries from `first` on. */
module Outbound {
  import opened Bytes
  import opened Frames
  import opened Sealing

  const MIN_ENTRY: nat := 2 + OVERHEAD
  const MAX_PAYLOAD: nat := MAX_FRAME_SIZE - 2 - OVERHEAD
  const MAX_REPLAY_LIMIT: nat := 0x400_0000
  const MAX_INT32: nat := 0x7FFF_FFFF

  datatype Window = Window(log: seq<Bytes>, first: nat, limit: nat, held: bool, hold: int) {
    function Next(): nat { |log| }

    function Push(data: Bytes): Window { this.(log := log + [data]) }

    /** The written bytes that may follow position p before p is dropped. */
    function Allowance(p: nat): nat { if held && p >= hold then 2 * limit else limit }

    ghost predicate Droppable(keep: nat, p: nat)
      requires keep <= |log|
    {
      p < keep && Size(log, p, keep) > Allowance(p)
    }

    ghost function TrimPoint(keep: nat, p: nat): (r: nat)
      requires keep <= |log|
      ensures p <= r && !Droppable(keep, r)
      ensures r > p ==> r <= keep && Droppable(keep, r - 1)
      decreases keep - p
    {
      if Droppable(keep, p) then TrimPoint(keep, p + 1) else p
    }

    /** trim: drop entries written before `keep`, oldest first, while they may be dropped. */
    ghost function Trim(keep: nat): Window
      requires keep <= |log|
    {
      this.(first := TrimPoint(keep, first))
    }

    function Since(from: int, till: int): Option<seq<Bytes>>
    {
      if first <= from <= till <= |log| then Some(log[from..till]) else None
    }
  }

  lemma {:induction false} DroppableBefore(w: Window, keep: nat, from: nat, p: nat)
    requires keep <= |w.log| && from <= p < w.TrimPoint(keep, from)
    ensures w.Droppable(keep, p)
    decreases keep - from
  {
    if from < p { DroppableBefore(w, keep, from + 1, p); }
  }

  /** What trim keeps, without its loop: of the positions in the window, exactly those followed
      by no more written bytes than their allowance. */
  lemma TrimRetainsAllowance(w: Window, keep: nat, p: nat)
    requires w.first <= p <= keep <= |w.log|
    ensures w.Trim(keep).first <= p <==> Size(w.log, p, keep) <= w.Allowance(p)
  {
    var q := w.TrimPoint(keep, w.first);
    if p < q {
      DroppableBefore(w, keep, w.first, p);
    } else {
      SizeSplit(w.log, q, p, keep);
    }
  }

  datatype Outbound = Outbound(ring: Window, flushed: nat, lastProbe: int, probes: set<nat>) {
    function Next(): nat { |ring.log| }

    function Unsent(): nat { Size(ring.log, flushed, |ring.log|) }

    function Enqueue(data: Bytes): Outbound { this.(ring := ring.Push(data)) }

    /** probeOnce: nothing while the last probe is still unwritten. */
    function Probe(data: Bytes): Outbound
    {
      if lastProbe >= flushed then this
      else this.(ring := ring.Push(data), lastProbe := Next(), probes := probes + {Next()})
    }

    /** A batch of `sent` entries was written: advance and trim. */
    ghost function Flush(sent: nat): Outbound
      requires flushed + sent <= |ring.log|
    {
      this.(flushed := flushed + sent, ring := ring.Trim(flushed + sent))
    }

    /** A recover exchange succeeded: the new link starts at snap; hold everything from the
        position the peer stated. */
    ghost function Commit(snap: nat, peer: int): Outbound
      requires snap <= |ring.log|
    {
      this.(flushed := snap, ring := ring.(held := true, hold := peer).Trim(snap))
    }

    ghost function ReleaseHold(): Outbound
      requires flushed <= |ring.log|
    {
      if ring.held then this.(ring := ring.(held := false).Trim(flushed)) else this
    }
  }

  function Initial(limit: nat): Outbound
  {
    Outbound(Window([], 0, limit, false, 0), 0, -1, {})
  }

  ghost predicate Shape(o: Outbound)
  {
    && o.ring.first <= o.flushed <= |o.ring.log|
    && o.ring.hold >= 0
    && forall i :: 0 <= i < |o.ring.log| ==> MIN_ENTRY <= |o.ring.log[i]| <= MAX_FRAME_SIZE
  }

  /** Whatever was dropped had more than its allowance written after it. */
  ghost predicate OnlyOldDropped(o: Outbound)
    requires Shape(o)
  {
    var w := o.ring;
    w.first > 0 ==>
      && Size(w.log, w.first - 1, o.flushed) > w.limit
      && (w.held && w.first > w.hold ==> Size(w.log, w.first - 1, o.flushed) > 2 * w.limit)
  }

  ghost predicate WrittenBounded(o: Outbound)
    requires Shape(o)
  {
    Size(o.ring.log, o.ring.first, o.flushed) <= if o.ring.held then 2 * o.ring.limit else o.ring.limit
  }

  /** Sequence 0 is never a probe, and only the last probe can still be unwritten. */
  ghost predicate ProbeDiscipline(o: Outbound)
  {
    && -1 <= o.lastProbe < |o.ring.log|
    && (o.lastProbe >= 0 ==> o.lastProbe in o.probes)
    && (forall p :: p in o.probes ==> 0 < p <= o.lastProbe)
    && (forall p :: p in o.probes && p != o.lastProbe ==> p < o.flushed)
  }

  /** Size of the probe in the backlog, if there is one. */
  function QueuedProbe(o: Outbound): nat
  {
    if o.flushed <= o.lastProbe < |o.ring.log| then |o.ring.log[o.lastProbe]| else 0
  }

  ghost predicate BacklogBounded(o: Outbound)
    requires Shape(o)
  {
    o.Unsent() <= o.ring.limit + MAX_FRAME_SIZE + QueuedProbe(o)
  }

  ghost predicate Ok(o: Outbound)
  {
    Shape(o) && OnlyOldDropped(o) && WrittenBounded(o) && ProbeDiscipline(o) && BacklogBounded(o)
  }

  lemma PushOk(o: Outbound, data: Bytes)
    requires Shape(o) && OnlyOldDropped(o) && WrittenBounded(o)
    requires MIN_ENTRY <= |data| <= MAX_FRAME_SIZE
    ensures var n := o.(ring := o.ring.Push(data));
            && Shape(n) && OnlyOldDropped(n) && WrittenBounded(n)
            && n.Unsent() == o.Unsent() + |data|
  {
    var w := o.ring;
    SizeExtend(w.log, [data], w.first, o.flushed);
    if w.first > 0 { SizeExtend(w.log, [data], w.first - 1, o.flushed); }
    SizePush(w.log, data, o.flushed);
  }

  /** A writer enqueues only with the backlog at or below the limit. */
  lemma EnqueueOk(o: Outbound, data: Bytes)
    requires Ok(o) && o.Unsent() <= o.ring.limit
    requires MIN_ENTRY <= |data| <= MAX_FRAME_SIZE
    ensures Ok(o.Enqueue(data))
  {
    PushOk(o, data);
  }

  /** A probe bypasses the limit, but only one can wait. */
  lemma ProbeOk(o: Outbound, data: Bytes)
    requires Ok(o) && o.Next() > 0
    requires MIN_ENTRY <= |data| <= MAX_FRAME_SIZE
    ensures Ok(o.Probe(data))
  {
    PushOk(o, data);
    PushOk(o.(lastProbe := o.Next(), probes := o.probes + {o.Next()}), data);
  }

  /** Trimming keeps the history invariant and bounds what is written. */
  lemma TrimOk(o: Outbound, w: Window, till: nat)
    requires Shape(o) && OnlyOldDropped(o)
    requires w.log == o.ring.log && w.limit == o.ring.limit && w.first == o.ring.first
    requires w.hold >= 0 && o.flushed <= till <= |w.log|
    requires w.held ==> (o.ring.held && w.hold == o.ring.hold) || w.first <= w.hold
    ensures var n := o.(flushed := till, ring := w.Trim(till));
            Shape(n) && OnlyOldDropped(n) && WrittenBounded(n)
  {
    var q := w.TrimPoint(till, w.first);
    if q == w.first && q > 0 { SizeSplit(w.log, q - 1, o.flushed, till); }
  }

  lemma BacklogShrinks(o: Outbound, till: nat)
    requires Ok(o) && o.flushed <= till <= |o.ring.log|
    ensures Size(o.ring.log, till, |o.ring.log|) <=
              o.ring.limit + MAX_FRAME_SIZE + QueuedProbe(o.(flushed := till))
  {
    var log, n := o.ring.log, |o.ring.log|;
    SizeSplit(log, o.flushed, till, n);
    if o.flushed <= o.lastProbe < till {
      SizeSplit(log, o.flushed, o.lastProbe, till);
      SizeHead(log, o.lastProbe, till);
    }
  }

  lemma FlushOk(o: Outbound, sent: nat)
    requires Ok(o) && o.flushed + sent <= |o.ring.log|
    ensures Ok(o.Flush(sent))
  {
    TrimOk(o, o.ring, o.flushed + sent);
    BacklogShrinks(o, o.flushed + sent);
  }

  lemma CommitOk(o: Outbound, snap: nat, peer: int)
    requires Ok(o) && o.flushed <= snap <= |o.ring.log| && o.ring.first <= peer
    ensures Ok(o.Commit(snap, peer))
  {
    TrimOk(o, o.ring.(held := true, hold := peer), snap);
    BacklogShrinks(o, snap);
  }

  lemma ReleaseOk(o: Outbound)
    requires Ok(o)
    ensures Ok(o.ReleaseHold())
  {
    if o.ring.held {
      TrimOk(o, o.ring.(held := false), o.flushed);
      BacklogShrinks(o, o.flushed);
    }
  }

  /** What a commit leaves: the peer's position held, the link at the snapshot, nothing sealed lost;
      of the positions in the window, exactly those followed by at most two limits of written bytes
      from the peer's on, and one limit before it. */
  lemma CommitHolds(o: Outbound, snap: nat, peer: nat, p: nat)
    requires o.ring.first <= p <= snap <= |o.ring.log|
    ensures var n := o.Commit(snap, peer);
            && n.ring.held && n.ring.hold == peer && n.flushed == snap
            && n.ring.log == o.ring.log && n.lastProbe == o.lastProbe
            && (n.ring.first <= p <==>
                  Size(o.ring.log, p, snap) <= if p >= peer then 2 * o.ring.limit else o.ring.limit)
  {
    hide Size, Window.TrimPoint;
    TrimRetainsAllowance(o.ring.(held := true, hold := peer), snap, p);
  }

  /** The end of a hold: nothing is held, and of the positions in the window exactly those followed
      by at most one limit of written bytes stay. */
  lemma ReleaseEnds(o: Outbound, p: nat)
    requires Ok(o) && o.ring.first <= p <= o.flushed
    ensures var n := o.ReleaseHold();
            && !n.ring.held && n.ring.log == o.ring.log && n.flushed == o.flushed
            && Size(n.ring.log, n.ring.first, n.flushed) <= o.ring.limit
            && (n.ring.first <= p <==> Size(o.ring.log, p, o.flushed) <= o.ring.limit)
  {
    ReleaseOk(o);
    hide Size, Window.TrimPoint;
    if o.ring.held {
      TrimRetainsAllowance(o.ring.(held := false), o.flushed, p);
    } else {
      SizeSplit(o.ring.log, o.ring.first, p, o.flushed);
    }
  }

  /** The replay window over all history: a position is retained as long as no more than its
      allowance was written after it, and there `Since` returns that slice of everything ever
      sealed. Positions not yet written to a link are always retained. */
  lemma ReplayWindow(o: Outbound, p: nat)
    requires Ok(o) && p <= o.Next()
    requires p >= o.flushed || Size(o.ring.log, p, o.flushed) <= o.ring.Allowance(p)
    ensures o.ring.Since(p, o.Next()) == Some(o.ring.log[p..])
  {
    var w := o.ring;
    if p < w.first {
      SizeSplit(w.log, p, w.first - 1, o.flushed);
    }
    assert w.log[p..|w.log|] == w.log[p..];
  }

  /** The memory bound: three limits and two entries, of at least 18 bytes each. */
  lemma RingBounded(o: Outbound)
    requires Ok(o)
    ensures Size(o.ring.log, o.ring.first, o.Next()) <= 3 * o.ring.limit + 2 * MAX_FRAME_SIZE
    ensures MIN_ENTRY * (o.Next() - o.ring.first) <= 3 * o.ring.limit + 2 * MAX_FRAME_SIZE
  {
    SizeSplit(o.ring.log, o.ring.first, o.flushed, o.Next());
    SizeAtLeast(o.ring.log, o.ring.first, o.Next(), MIN_ENTRY);
  }

  /** Go's conversion of an int64 to int32. */
  function Int32(n: int): int { (n + 0x8000_0000) % 0x1_0000_0000 - 0x8000_0000 }

  /** The int32 with the same low 32 bits. */
  lemma Int32Is(n: int) returns (k: int)
    ensures -0x8000_0000 <= Int32(n) <= MAX_INT32 && n == Int32(n) + k * 0x1_0000_0000
  {
    k := (n + 0x8000_0000) / 0x1_0000_0000;
  }

  /** A truncated sequence number is always refused: the only position a peer at p can state
      that lies in the window is p itself. */
  lemma TruncationIsRefused(o: Outbound, p: nat)
    requires Ok(o) && o.ring.limit <= MAX_REPLAY_LIMIT && p <= o.Next()
    ensures o.ring.Since(Int32(p), o.Next()).Some? ==> Int32(p) == p
    ensures p > MAX_INT32 ==> o.ring.Since(Int32(p), o.Next()) == None
  {
    RingBounded(o);
    assert Int32(p) == p || Int32(p) <= p - 0x1_0000_0000;
  }

  /** What a peer at p gets when it states p cut to int32: everything sealed after p, or a
      refusal; and it is refused exactly when int32 cannot state p or more than its allowance was
      written after it. (While held, positions before the hold may outlive their allowance.) */
  lemma StatedPosition(o: Outbound, p: nat)
    requires Ok(o) && o.ring.limit <= MAX_REPLAY_LIMIT && p <= o.Next()
    ensures var r := o.ring.Since(Int32(p), o.Next());
            var lost := p > MAX_INT32 || (p < o.flushed && Size(o.ring.log, p, o.flushed) > o.ring.Allowance(p));
            && (r.Some? ==> Int32(p) == p && r.value == o.ring.log[p..])
            && (r.None? ==> lost)
            && (lost && (o.ring.held ==> o.ring.hold <= p) ==> r.None?)
  {
    TruncationIsRefused(o, p);
    assert p <= MAX_INT32 ==> Int32(p) == p;
    if p <= MAX_INT32 {
      if p >= o.flushed || Size(o.ring.log, p, o.flushed) <= o.ring.Allowance(p) {
        ReplayWindow(o, p);
      } else if o.ring.first <= p {
        SizeSplit(o.ring.log, o.ring.first, p, o.flushed);
      }
    }
    assert o.ring.log[p..|o.ring.log|] == o.ring.log[p..];
  }
}
