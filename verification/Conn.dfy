/** The Conn, changed in place (internal/etcp/conn.go, link.go, recover.go): each method is one
    region under c.mu, one hand-over of the reader, or one of the loops over them. What a region
    does is stated by the step functions of Outbound and Inbound, which are the steps of the
    protocol. Where the source waits in a select, the outcome is a parameter or a choice. */
module Conn {
  import opened Bytes
  import opened Frames
  import opened Messages
  import opened Nonces
  import opened Packets
  import opened Sealing
  import opened Outbound
  import opened Inbound
  import opened Reader
  import opened Writer
  import R = Ring

  /** Full: no room yet, the writer waits. */
  datatype WriteResult = PayloadTooLarge | CallerEnded | Ended | Full | Queued(room: bool)

  /** What ends a wait for room: a token, by when there may be room and the Conn may have ended; the
      caller's context; or the Conn's. */
  datatype Wakeup = Space(room: bool, ended: bool) | CallerEnds | ConnEnds

  ghost predicate EndsIn(waits: seq<Wakeup>) { exists w :: w in waits && (w.ConnEnds? || (w.Space? && w.ended)) }

  datatype ReadResult = Got(p: Packet) | ReaderEnded | ConnEnded | Waits

  /** What the watcher's select sees: progress, or its timer. */
  datatype WatchEvent = Alive | Timer(delivering: bool)

  datatype RecoverResult = ReplayExceeded | ExchangeFailed | Recovered(catchup: seq<Bytes>)

  /** Why the reader stopped: the link ended while a packet was handed over, its stream did, or an
      entry was too large. */
  datatype ReaderEnd = LinkEnded | StreamEnded | TooLargeEntry

  /** A timer period without progress that counts. */
  predicate IsQuiet(events: seq<WatchEvent>, k: int) { 0 <= k < |events| && events[k] == Timer(false) }

  /** The states around one event of the watcher: as it looks whether anything was sealed, as it
      queues its probe, and after. */
  datatype Tick = Tick(before: Outbound, at: Outbound, after: Outbound)

  /** A quiet period that counts: something had been sealed. */
  ghost predicate Armed(events: seq<WatchEvent>, ticks: seq<Tick>, k: int)
  {
    IsQuiet(events, k) && k < |ticks| && ticks[k].before.Next() > 0
  }

  /** Piece i of a pass of `size` bytes from `base` on counts as life: it went out whole, and no byte
      of the frame of the latest probe in the state then is in it or before it. */
  ghost predicate CountsAsLife(mids: seq<Outbound>, base: nat, size: nat, cut: nat, i: int)
  {
    && 0 <= i < |mids| && i * PROGRESS_CHUNK < size && PieceEnd(size, i) <= cut
    && base <= mids[i].lastProbe < |mids[i].ring.log|
    && PieceEnd(size, i) <= |Framed(mids[i].ring.log[base..mids[i].lastProbe])|
  }

  /** A later state of the outbound side, as far as a pass in progress sees it. */
  ghost predicate Grown(o: Outbound, o': Outbound)
  {
    && o.ring.log <= o'.ring.log && o'.flushed == o.flushed && o'.ring.first == o.ring.first
    && o'.lastProbe < |o'.ring.log|
    && (o'.lastProbe == o.lastProbe || (o.lastProbe < o.flushed && o'.lastProbe >= |o.ring.log|))
  }

  /** A declared length was too large, or the stream's own error says so. */
  predicate EndsTooLarge(src: Source, d: Decoded) { d.end.TooLarge? || src.end == ErrTooLarge }

  /** Entries a run of writes added behind everything else. */
  function Behind(o: Outbound, more: seq<Bytes>): Outbound
  {
    o.(ring := o.ring.(log := o.ring.log + more))
  }

  /** entries are what the server sealed from position `from` on. */
  ghost predicate HonestFrom(k: Cipher, sealed: seq<Packet>, from: nat, entries: seq<Bytes>)
  {
    && from + |entries| <= |sealed|
    && forall j :: 0 <= j < |entries| ==> entries[j] == Entry(k, ServerToClient, from + j, sealed[from + j])
  }

  lemma HonestAt(k: Cipher, sealed: seq<Packet>, from: nat, entries: seq<Bytes>, j: nat)
    requires HonestFrom(k, sealed, from, entries) && j < |entries|
    ensures HonestFrom(k, sealed, from + j, [entries[j]])
  {
    hide Entry;
  }

  lemma NextOf(frames: seq<Bytes>, k: nat, frame: Bytes, rest: seq<Bytes>)
    requires k <= |frames| && frames[k..] == [frame] + rest
    ensures k < |frames| && frames[k] == frame && frames[k + 1..] == rest
  {
    assert |frames[k..]| == 1 + |rest| && frames[k] == frames[k..][0];
    assert frames[k + 1..] == frames[k..][1..];
  }

  /** The batch a pass frames from its capped copy, in terms of the whole backlog. */
  lemma PassFraming(log: seq<Bytes>, base: nat, cap: nat, sent: nat)
    requires base <= |log| && cap == Min(|log| - base, MAX_BATCH_ENTRIES)
    requires forall i :: 0 <= i < |log| ==> |log[i]| >= MIN_ENTRY
    requires IsBatch(log[base..][..cap], sent)
    ensures IsBatch(log[base..], sent) && base + sent <= |log| && sent <= cap
    ensures log[base..][..cap][..sent] == log[base..][..sent] == log[base..base + sent]
    ensures Framed(log[base..][..sent]) != []
    ensures Size(log[base..][..cap], 0, sent) == Size(log, base, base + sent)
  {
    hide Framed;
    BatchCapIsInvisible(log[base..], sent);
    assert log[base..][..cap] == log[base..base + cap];
    SizeSlice(log, base, base + cap, 0, sent);
    StreamPush(log[base..], sent - 1);
  }

  /** The probe's offset in the framed batch, in terms of the log. */
  lemma FramingProbeAt(log: seq<Bytes>, base: nat, batch: seq<Bytes>, sent: nat, probe: int)
    requires base + sent <= |log| && sent <= |batch| && batch[..sent] == log[base..base + sent]
    ensures ProbeAt(log, base, sent, probe)
            == if base <= probe < base + sent then |Framed(batch[..probe - base])| else -1
  {
    hide Framed;
    if base <= probe < base + sent {
      assert batch[..probe - base] == batch[..sent][..probe - base] == log[base..probe];
    }
  }

  /** A batch stays what it is when entries are queued behind it, and a probe among them is not in
      it. */
  lemma GrownBatch(log: seq<Bytes>, grown: seq<Bytes>, base: nat, sent: nat, probe: int, later: int)
    requires base + sent <= |log| && log <= grown
    requires later == probe || (probe < base && later >= |log|)
    ensures grown[base..base + sent] == log[base..base + sent]
    ensures Size(grown, base, base + sent) == Size(log, base, base + sent)
    ensures ProbeAt(grown, base, sent, later) == ProbeAt(log, base, sent, probe)
  {
    hide Framed;
    assert grown == log + grown[|log|..];
    SizeExtend(log, grown[|log|..], base, base + sent);
    if base <= probe < base + sent { assert grown[base..probe] == log[base..probe]; }
  }

  lemma LifeIsPieces(o: Outbound, sent: nat, end: int, seen: seq<int>, mids: seq<Outbound>, size: nat, cut: nat,
                     probeAt: int)
    requires end == o.flushed + sent <= |o.ring.log| && size == |Framed(o.ring.log[o.flushed..o.flushed + sent])|
    requires probeAt == ProbeAt(o.ring.log, o.flushed, sent, o.lastProbe) && |seen| == |mids|
    requires forall i :: 0 <= i < |mids| ==> Grown(o, mids[i]) && seen[i] == mids[i].lastProbe
    ensures (exists i :: PieceCounts(size, cut, seen, end, probeAt, i))
            <==> exists i :: CountsAsLife(mids, o.flushed, size, cut, i)
  {
    forall i: int
      ensures PieceCounts(size, cut, seen, end, probeAt, i) == CountsAsLife(mids, o.flushed, size, cut, i)
    {
      hide Framed;
      if 0 <= i < |mids| {
        var log := mids[i].ring.log;
        GrownBatch(o.ring.log, log, o.flushed, sent, o.lastProbe, mids[i].lastProbe);
        ProbeBehindMeans(log, o.flushed, sent, mids[i].lastProbe, PieceEnd(size, i));
      }
    }
  }

  class Conn {
    const ring: R.Ring
    const out: Stream
    const inn: Stream
    const probe: Packet
    var flushed: int
    var unsent: int
    var lastProbe: int
    var recvSeq: int
    var pending: seq<Packet>
    var inbox: seq<Packet>    // the channel, oldest first
    var failed: bool
    ghost var probes: set<nat>
    ghost var returned: seq<Packet>

    ghost predicate Valid()
      reads this, ring, out, out.nonce, inn, inn.nonce
    {
      && ring.Valid() && out.Valid() && inn.Valid()
      && out != inn && out.nonce != inn.nonce
      && out.direction == ClientToServer && inn.direction == ServerToClient
      && out.cipher == inn.cipher
      && out.count == |ring.log|
      && ring.first <= flushed <= |ring.log| && unsent == Size(ring.log, flushed, |ring.log|)
      && recvSeq >= 0
    }

    ghost function Out(): Outbound
      requires Valid()
      reads this, ring, out, out.nonce, inn, inn.nonce
    {
      Outbound(ring.View(), flushed, lastProbe, probes)
    }

    ghost function Inb(): Inbound
      requires Valid()
      reads this, ring, out, out.nonce, inn, inn.nonce
    {
      Inbound(inn.count, recvSeq, returned, inbox, pending, None, failed)
    }

    constructor (cipher: Cipher, probe: Packet, limit: nat)
      ensures Valid() && fresh(ring) && fresh(out) && fresh(out.nonce) && fresh(inn) && fresh(inn.nonce)
      ensures Out() == Initial(limit) && Inb() == EMPTY && this.probe == probe && out.cipher == cipher
    {
      var r := new R.Ring(limit);
      var o := new Stream(cipher, ClientToServer);
      var i := new Stream(cipher, ServerToClient);
      ring, out, inn := r, o, i;
      this.probe := probe;
      flushed, unsent, lastProbe, recvSeq, failed := 0, 0, -1, 0, false;
      pending, inbox, probes, returned := [], [], {}, [];
    }

    /** enqueueLocked: seal once, at the count that matches the sequence number, and push. */
    method EnqueueLocked(p: Packet)
      requires Valid()
      modifies this`unsent, ring, out, out.nonce
      ensures Valid() && Inb() == old(Inb())
      ensures Out() == old(Out()).Enqueue(Entry(out.cipher, ClientToServer, |old(ring.log)|, p))
    {
      hide Size, Nonce;
      ghost var log, box := ring.log, out.cipher.seal(Nonce(ClientToServer, |ring.log| + 1), p.payload);
      var data := out.Seal(PacketBytes(true, p.header, []), p.payload);
      assert PacketBytes(true, p.header, []) + box == PacketBytes(true, p.header, box);
      SizePush(log, data, flushed);
      ring.Push(data);
      unsent := unsent + |data|;
    }

    /** One turn of WritePacket: it queues only with the backlog at or below the limit. */
    method TryWrite(p: Packet, ended: bool) returns (r: WriteResult)
      requires Valid()
      modifies this`unsent, ring, out, out.nonce
      ensures Valid() && Inb() == old(Inb())
      ensures r == if |p.payload| > MAX_PAYLOAD then PayloadTooLarge
                   else if ended then Ended
                   else if old(Out()).Unsent() > ring.limit then Full
                   else Queued(Out().Unsent() <= ring.limit)
      ensures Out() == if r.Queued? then old(Out()).Enqueue(Entry(out.cipher, ClientToServer, |old(ring.log)|, p))
                       else old(Out())
    {
      hide Size, Nonce;
      if |p.payload| > MAX_PAYLOAD {
        return PayloadTooLarge;
      }
      if ended {
        return Ended;
      }
      if unsent <= ring.limit {
        EnqueueLocked(p);
        return Queued(unsent <= ring.limit);
      }
      return Full;
    }

    /** What one other thread may do meanwhile: another write, a probe, a written batch, a finished
        exchange, the end of a hold. */
    method OutboundTurn(which: nat, p: Packet, n: nat, peer: nat)
      requires Valid()
      modifies this`flushed, this`unsent, this`lastProbe, this`probes, ring, out, out.nonce
      ensures Valid() && Inb() == old(Inb()) && old(ring.log) <= ring.log && old(flushed) <= flushed
    {
      hide Size, Nonce, Window.TrimPoint, Entry;
      if which == 0 {
        var _ := TryWrite(p, false);
      } else if which == 1 {
        ProbeOnce();
      } else if which == 2 && flushed + n <= ring.Next() {
        var size := ring.BytesBetween(flushed, flushed + n);
        var _ := FinishBatch(n, size);
      } else if which == 3 && flushed + n <= ring.Next() {
        var _ := Commit(flushed + n, peer);
      } else if which == 4 {
        ReleaseHold();
      }
    }

    /** Or what the reader and its callers may do: an entry delivered, a packet handed over or read. */
    method InboundTurn(which: nat, b: Bytes, linkEnds: bool)
      requires Valid()
      modifies this`recvSeq, this`pending, this`inbox, this`failed, this`returned, inn, inn.nonce
      ensures Valid() && Out() == old(Out())
    {
      hide Size, Nonce;
      if which == 0 && !failed && pending == [] && (linkEnds || |inbox| < INBOX_SIZE) {
        var _ := Deliver(b, linkEnds);
      } else if which == 1 && pending != [] && |inbox| < INBOX_SIZE {
        HandPending();
      } else if which == 2 {
        var _ := ReadPacket(false, false, false);
      }
    }

    /** Any number of turns of other threads. */
    method Meanwhile()
      requires Valid()
      modifies this`flushed, this`unsent, this`lastProbe, this`probes, ring, out, out.nonce,
               this`recvSeq, this`pending, this`inbox, this`failed, this`returned, inn, inn.nonce
      ensures Valid() && old(ring.log) <= ring.log && old(flushed) <= flushed
    {
      hide Size, Nonce, Stream.Valid, R.Ring.Valid;
      var n: nat :| n >= 0;
      for i := 0 to n
        invariant Valid() && old(ring.log) <= ring.log && old(flushed) <= flushed
      {
        var which: nat, p: Packet, m: nat, peer: nat := *, *, *, *;
        OutboundTurn(which, p, m, peer);
        var what: nat, b: Bytes, linkEnds: bool := *, *, *;
        InboundTurn(what, b, linkEnds);
      }
    }

    /** WritePacket, with what ends each of its waits as a parameter. The packet is queued once, in
        a state with the backlog at or below the limit, or not at all: `at` is the state it was
        queued in, or the last one seen. A writer that still waits saw no room. */
    method WritePacket(p: Packet, callerEnded: bool, ended: bool, waits: seq<Wakeup>)
      returns (r: WriteResult, ghost at: Outbound)
      requires Valid()
      modifies this`flushed, this`unsent, this`lastProbe, this`probes, ring, out, out.nonce,
               this`recvSeq, this`pending, this`inbox, this`failed, this`returned, inn, inn.nonce
      ensures Valid() && old(ring.log) <= at.ring.log && at.ring.limit == ring.limit
      ensures waits == [] ==> at == old(Out()) && Inb() == old(Inb())
      ensures r.PayloadTooLarge? <==> |p.payload| > MAX_PAYLOAD
      ensures callerEnded || r.PayloadTooLarge? ==> !r.Queued? && at == old(Out())
      ensures r.CallerEnded? <== callerEnded && !r.PayloadTooLarge?
      ensures r.CallerEnded? ==> callerEnded || CallerEnds in waits
      ensures r.Ended? <== ended && !callerEnded && !r.PayloadTooLarge?
      ensures r.Ended? ==> ended || EndsIn(waits)
      ensures r.Full? ==> forall w :: w in waits ==> w == Space(false, false)
      ensures r.Queued? ==> at.flushed <= |at.ring.log| && at.Unsent() <= ring.limit
                            && r.room == (Out().Unsent() <= ring.limit)
      ensures r.Full? ==> at.flushed <= |at.ring.log| && at.Unsent() > ring.limit
      ensures Out() == if r.Queued? then at.Enqueue(Entry(out.cipher, ClientToServer, |at.ring.log|, p)) else at
    {
      hide Size, Nonce, Window.TrimPoint, Entry;
      at := Out();
      if |p.payload| > MAX_PAYLOAD {
        return PayloadTooLarge, at;
      }
      if callerEnded {
        return CallerEnded, at;
      }
      var over, i := ended, 0;
      while true
        invariant Valid() && at == Out() && old(ring.log) <= ring.log && i <= |waits|
        invariant i == 0 ==> at == old(Out()) && Inb() == old(Inb()) && over == ended
        invariant ended ==> i == 0 && over
        invariant over ==> ended || EndsIn(waits)
        invariant forall j :: 0 <= j < i ==> waits[j].Space? && (waits[j].ended ==> over)
        invariant forall j :: 0 <= j < i && waits[j].room ==> j == i - 1 && unsent <= ring.limit
        decreases |waits| - i
      {
        r := TryWrite(p, over);
        if !r.Full? || i == |waits| {
          return;
        }
        if waits[i].CallerEnds? {
          return CallerEnded, at;
        }
        if waits[i].ConnEnds? {
          return Ended, at;
        }
        Woken(waits[i].room);
        over := waits[i].ended;
        i := i + 1;
        at := Out();
      }
    }

    /** What has happened when a waiting writer wakes, and whether there is room by then. */
    method Woken(room: bool)
      requires Valid()
      modifies this`flushed, this`unsent, this`lastProbe, this`probes, ring, out, out.nonce,
               this`recvSeq, this`pending, this`inbox, this`failed, this`returned, inn, inn.nonce
      ensures Valid() && old(ring.log) <= ring.log && (room ==> unsent <= ring.limit)
    {
      hide Size, Nonce, Window.TrimPoint;
      Meanwhile();
      if room && unsent > ring.limit {
        var size := ring.BytesBetween(flushed, ring.Next());
        SizeNone(ring.log, |ring.log|);
        var _ := FinishBatch(ring.Next() - flushed, size);
      }
    }

    /** probeOnce: at most one probe waits. */
    method ProbeOnce()
      requires Valid()
      modifies this`unsent, this`lastProbe, this`probes, ring, out, out.nonce
      ensures Valid() && Inb() == old(Inb())
      ensures Out() == old(Out()).Probe(Entry(out.cipher, ClientToServer, |old(ring.log)|, probe))
    {
      hide Size, Nonce;
      if lastProbe >= flushed {
        return;
      }
      lastProbe := ring.Next();
      probes := probes + {|ring.log|};
      EnqueueLocked(probe);
    }

    method SealedNone() returns (none: bool)
      requires Valid()
      ensures none == (Out().Next() == 0)
    {
      none := ring.Next() == 0;
    }

    /** One look of the watcher. */
    method Look(event: WatchEvent, probed: bool) returns (dead: bool, waiting: bool, ghost t: Tick)
      requires Valid()
      modifies this`flushed, this`unsent, this`lastProbe, this`probes, ring, out, out.nonce,
               this`recvSeq, this`pending, this`inbox, this`failed, this`returned, inn, inn.nonce
      ensures Valid() && old(ring.log) <= ring.log && t.before.ring.log <= t.at.ring.log
      ensures var armed := event == Timer(false) && t.before.Next() > 0;
              && dead == (armed && probed) && waiting == (armed && !probed)
              && t.after == if waiting then t.at.Probe(ProbeEntry(t.at)) else t.at
    {
      hide Size, Nonce, Entry, Stream.Valid, R.Ring.Valid;
      Meanwhile();
      dead, waiting, t := false, false, Tick(Out(), Out(), Out());
      if event == Timer(false) {
        var none := SealedNone();
        if !none {
          if probed {
            dead := true;
          } else {
            Meanwhile();
            t := t.(at := Out());
            ProbeOnce();
            waiting, t := true, t.(after := Out());
          }
        }
      }
    }

    /** watch, for what its select sees, with anything other threads do between its looks: the link
        is dead at the second of two timer periods in a row without progress, not counting those
        spent delivering or before the first packet, and never before; a probe is queued, unless one
        waits, after the first. */
    method Watch(events: seq<WatchEvent>) returns (deadAt: Option<nat>, ghost ticks: seq<Tick>)
      requires Valid()
      modifies this`flushed, this`unsent, this`lastProbe, this`probes, ring, out, out.nonce,
               this`recvSeq, this`pending, this`inbox, this`failed, this`returned, inn, inn.nonce
      ensures Valid() && old(ring.log) <= ring.log
      ensures if deadAt.Some? then deadAt.value < |events| && |ticks| == deadAt.value + 1 else |ticks| == |events|
      ensures deadAt.Some? ==> Armed(events, ticks, deadAt.value - 1) && Armed(events, ticks, deadAt.value)
      ensures forall k :: 0 <= k < (if deadAt.Some? then deadAt.value else |events|) ==>
                && ticks[k].before.ring.log <= ticks[k].at.ring.log
                && !(Armed(events, ticks, k - 1) && Armed(events, ticks, k))
                && ticks[k].after == if Armed(events, ticks, k) then ticks[k].at.Probe(ProbeEntry(ticks[k].at))
                                     else ticks[k].at
    {
      hide Size, Nonce, Entry, Stream.Valid, R.Ring.Valid, Outbound.Probe;
      var probed := false;
      ticks := [];
      for i := 0 to |events|
        invariant Valid() && old(ring.log) <= ring.log && |ticks| == i
        invariant probed <==> Armed(events, ticks, i - 1)
        invariant forall k :: 0 <= k < i ==>
                    && ticks[k].before.ring.log <= ticks[k].at.ring.log
                    && !(Armed(events, ticks, k - 1) && Armed(events, ticks, k))
                    && ticks[k].after == if Armed(events, ticks, k) then ticks[k].at.Probe(ProbeEntry(ticks[k].at))
                                         else ticks[k].at
      {
        ghost var was := ticks;
        var dead, waiting, t := Look(events[i], probed);
        ticks := ticks + [t];
        assert forall k :: k < i ==> Armed(events, ticks, k) == Armed(events, was, k);
        if dead {
          return Some(i), ticks;
        }
        probed := waiting;
      }
      deadAt := None;
    }

    /** The entry of a probe queued in a state. */
    ghost function ProbeEntry(o: Outbound): Bytes
    {
      Entry(out.cipher, ClientToServer, |o.ring.log|, probe)
    }

    /** Written bytes are within what the ring may keep: one limit, or two while held. */
    ghost predicate WithinHold()
      reads this`flushed, ring
    {
      && 0 <= ring.first && 0 <= flushed <= |ring.log|
      && Size(ring.log, ring.first, flushed) <= if ring.held then 2 * ring.limit else ring.limit
    }

    /** releaseLocked: trim after flushed, unsent or the hold changed. */
    method ReleaseLocked() returns (room: bool)
      requires Valid()
      modifies ring`first, ring`entries, ring`bytes
      ensures Valid() && Inb() == old(Inb()) && ring.View() == old(ring.View()).Trim(flushed)
      ensures WithinHold()
      ensures room == (unsent <= ring.limit)
    {
      hide Size, Nonce, Window.TrimPoint;
      SizeNone(ring.log, flushed);
      ring.Trim(flushed, unsent);
      assert ring.first <= flushed;
      room := unsent <= ring.limit;
    }

    /** releaseHold, on the link's first frame. */
    method ReleaseHold()
      requires Valid()
      modifies ring`first, ring`entries, ring`bytes, ring`held
      ensures Valid() && Inb() == old(Inb()) && Out() == old(Out()).ReleaseHold()
      ensures !ring.held && (old(WithinHold()) ==> WithinHold())
    {
      hide Size, Nonce, Window.TrimPoint;
      if ring.held {
        ring.held := false;
        var _ := ReleaseLocked();
      }
    }

    /** The top of a writer pass: the entries from `flushed` on, at most MAX_BATCH_ENTRIES. */
    method TakeBatch() returns (base: int, probeSeq: int, batch: seq<Bytes>)
      requires Valid()
      ensures base == flushed && probeSeq == lastProbe
      ensures batch == ring.log[flushed..][..Min(|ring.log| - flushed, MAX_BATCH_ENTRIES)]
    {
      base, probeSeq := flushed, lastProbe;
      batch := ring.AppendRange([], base, Min(ring.Next(), base + MAX_BATCH_ENTRIES));
      assert [] + batch == batch;
    }

    /** The end of a writer pass: `sent` entries of n bytes are on the link. */
    method FinishBatch(sent: nat, n: nat) returns (room: bool)
      requires Valid() && flushed + sent <= |ring.log| && n == Size(ring.log, flushed, flushed + sent)
      modifies this`flushed, this`unsent, ring`first, ring`entries, ring`bytes
      ensures Valid() && Inb() == old(Inb()) && Out() == old(Out()).Flush(sent)
      ensures room == (Out().Unsent() <= ring.limit)
    {
      hide Size, Nonce, Window.TrimPoint;
      SizeSplit(ring.log, flushed, flushed + sent, |ring.log|);
      flushed := flushed + sent;
      unsent := unsent - n;
      room := ReleaseLocked();
    }

    /** The first half of a pass: the frames of one batch of the whole backlog. */
    method FramePass() returns (f: Framing)
      requires Valid() && flushed < |ring.log| && Shape(Out())
      ensures f.Framing? && IsBatch(ring.log[flushed..], f.sent) && flushed + f.sent <= |ring.log|
      ensures f.buf == Framed(ring.log[flushed..flushed + f.sent]) && f.buf != []
      ensures f.size == Size(ring.log, flushed, flushed + f.sent)
      ensures f.probeAt == ProbeAt(ring.log, flushed, f.sent, lastProbe)
    {
      hide Size, Nonce, Window.TrimPoint, Framed;
      var base, probeSeq, batch := TakeBatch();
      f := FrameBatch(batch, base, probeSeq);
      PassFraming(ring.log, flushed, Min(|ring.log| - flushed, MAX_BATCH_ENTRIES), f.sent);
      FramingProbeAt(ring.log, flushed, batch, f.sent, lastProbe);
    }

    /** While a pass of `size` bytes is sent, before each piece counts, callers may write and the
        watcher queue its probe: others[i] says what, for piece i. */
    method QueueMeanwhile(size: nat, others: seq<(seq<Packet>, bool)>)
      returns (seen: seq<int>, ghost mids: seq<Outbound>)
      requires Valid() && lastProbe < |ring.log| && size > 0
      modifies this`unsent, this`lastProbe, this`probes, ring, out, out.nonce
      ensures Valid() && Inb() == old(Inb())
      ensures |mids| == |seen| > 0 && size <= |seen| * PROGRESS_CHUNK && Out() == mids[|mids| - 1]
      ensures forall i :: 0 <= i < |mids| ==> Grown(old(Out()), mids[i]) && seen[i] == mids[i].lastProbe
    {
      hide Size, Nonce, Entry, Stream.Valid;
      seen, mids := [], [];
      while |seen| * PROGRESS_CHUNK < size
        invariant Valid() && Inb() == old(Inb()) && |mids| == |seen|
        invariant Out() == if mids == [] then old(Out()) else mids[|mids| - 1]
        invariant Grown(old(Out()), Out())
        invariant forall i :: 0 <= i < |mids| ==> Grown(old(Out()), mids[i]) && seen[i] == mids[i].lastProbe
        decreases size - |seen| * PROGRESS_CHUNK
      {
        if |seen| < |others| {
          ghost var _ := CallersWrite(others[|seen|].0);
          if others[|seen|].1 {
            ProbeOnce();
          }
        }
        seen, mids := seen + [lastProbe], mids + [Out()];
      }
    }

    /** A writer pass on a link that fails after `cut` more bytes, with what others queue while it is
        sent. The link gets exactly the frames of one batch of the backlog, from `flushed` on, or a
        prefix of them; flushed moves only when it got them all. The pass counts as life exactly when
        some piece went out whole with no byte of the frame of the probe, as it then was, sent yet. */
    method WritePass(cut: nat, others: seq<(seq<Packet>, bool)>)
      returns (wire: Bytes, ghost sent: nat, ok: bool, alive: bool, ghost mids: seq<Outbound>)
      requires Valid() && flushed < |ring.log| && Shape(Out()) && lastProbe < |ring.log|
      modifies this`flushed, this`unsent, this`lastProbe, this`probes, ring, out, out.nonce
      ensures Valid() && Inb() == old(Inb())
      ensures IsBatch(old(ring.log[flushed..]), sent) && old(flushed) + sent <= |old(ring.log)|
      ensures var all := Framed(old(ring.log)[old(flushed)..old(flushed) + sent]);
              && wire == all[..Min(cut, |all|)] && ok == (|all| <= cut)
              && (alive <==> exists i :: CountsAsLife(mids, old(flushed), |all|, cut, i))
      ensures |mids| > 0
      ensures forall i :: 0 <= i < |mids| ==>
                Grown(old(Out()), mids[i]) && mids[i].flushed + sent <= |mids[i].ring.log|
      ensures Out() == if ok then mids[|mids| - 1].Flush(sent) else mids[|mids| - 1]
    {
      hide Size, Nonce, Window.TrimPoint, Framed, IsBatch, Entry, Stream.Valid;
      var framing := FramePass();
      sent := framing.sent;
      ghost var start := Out();
      var seen;
      seen, mids := QueueMeanwhile(|framing.buf|, others);
      wire, ok, alive := SendPieces(framing.buf, cut, seen, flushed + framing.sent, framing.probeAt);
      LifeIsPieces(start, sent, flushed + sent, seen, mids, |framing.buf|, cut, framing.probeAt);
      GrownBatch(start.ring.log, ring.log, start.flushed, sent, start.lastProbe, lastProbe);
      if ok {
        var _ := FinishBatch(framing.sent, framing.size);
      }
    }

    /** writeRecover's locked region: read the send sequence once and copy the catchup. */
    method Snapshot(peer: int) returns (snap: int, ours: Option<seq<Bytes>>)
      requires Valid()
      ensures snap == Out().Next() && ours == Out().ring.Since(peer, snap)
    {
      snap := ring.Next();
      ours := ring.Since(peer, snap);
    }

    /** recover's commit, for a snapshot nothing was trimmed since. */
    method Commit(snap: int, peer: nat) returns (room: bool)
      requires Valid() && flushed <= snap <= |ring.log|
      modifies this`flushed, this`unsent, ring`first, ring`entries, ring`bytes, ring`held, ring`hold
      ensures Valid() && Inb() == old(Inb()) && Out() == old(Out()).Commit(snap, peer)
      ensures ring.held && ring.hold == peer && flushed == snap && WithinHold()
      ensures room == (Out().Unsent() <= ring.limit)
    {
      hide Size, Nonce, Window.TrimPoint;
      SizeSplit(ring.log, flushed, snap, |ring.log|);
      var replayed := ring.BytesBetween(flushed, snap);
      unsent := unsent - replayed;
      flushed := snap;
      ring.held, ring.hold := true, peer;
      room := ReleaseLocked();
    }

    /** Callers write while the exchange runs: each packet is queued if there is room, and
        whatever is queued goes behind what was there. */
    method CallersWrite(packets: seq<Packet>) returns (ghost more: seq<Bytes>)
      requires Valid()
      modifies this`unsent, ring, out, out.nonce
      ensures Valid() && Inb() == old(Inb()) && Out() == Behind(old(Out()), more)
    {
      hide Size, Nonce, Entry;
      more := [];
      assert ring.log + more == ring.log;
      for i := 0 to |packets|
        invariant Valid() && Inb() == old(Inb()) && Out() == Behind(old(Out()), more)
      {
        ghost var log := ring.log;
        var r := TryWrite(packets[i], false);
        if r.Queued? {
          ghost var e := Entry(out.cipher, ClientToServer, |log|, packets[i]);
          assert old(ring.log) + more + [e] == old(ring.log) + (more + [e]);
          more := more + [e];
        }
      }
    }

    /** recover: what the link carries and what the peer answers are parameters (None and false
        where it fails first), as are the packets callers write after the snapshot. Only a whole
        exchange changes anything but the backlog: then the new link starts at the snapshot, and
        what was written since is still to be sent, once. */
    method Recover(header: bool, peer: Option<int>, written: seq<Packet>, catchup: bool, theirs: Option<seq<Bytes>>)
      returns (r: RecoverResult, ours: Option<seq<Bytes>>, ghost more: seq<Bytes>)
      requires Valid()
      modifies this`flushed, this`unsent, ring, out, out.nonce
      ensures Valid() && Inb() == old(Inb())
      ensures var found := if peer.Some? then old(Out()).ring.Since(peer.value, |old(ring.log)|) else None;
              r == if recvSeq > MAX_INT32 then ReplayExceeded
                   else if !header || peer.None? then ExchangeFailed
                   else if found.None? || CatchupSize(found.value) > MAX_MESSAGE_SIZE then ReplayExceeded
                   else if !catchup || theirs.None? then ExchangeFailed
                   else Recovered(theirs.value)
      ensures !r.Recovered? ==> Out() == Behind(old(Out()), more)
      ensures r.Recovered? ==>
                && 0 <= peer.value <= |old(ring.log)| && ours == Some(old(ring.log)[peer.value..])
                && Out() == Behind(old(Out()), more).Commit(|old(ring.log)|, peer.value)
                && ring.log[flushed..] == more && ring.held && ring.hold == peer.value && WithinHold()
    {
      hide Size, Nonce, Window.TrimPoint, CatchupSize;
      more := [];
      assert ring.log + more == ring.log;
      ours := None;
      if recvSeq > MAX_INT32 {
        return ReplayExceeded, None, more;
      }
      if !header || peer.None? {
        return ExchangeFailed, None, more;
      }
      var snap, entries := Snapshot(peer.value);
      if entries.None? {
        return ReplayExceeded, None, more;
      }
      ours := entries;
      assert ring.log[peer.value..|ring.log|] == ring.log[peer.value..];
      more := CallersWrite(written);
      if !Fits(ours.value) {
        return ReplayExceeded, ours, more;
      }
      if !catchup || theirs.None? {
        return ExchangeFailed, ours, more;
      }
      var _ := Commit(snap, peer.value);
      return Recovered(theirs.value), ours, more;
    }

    /** deliver: open one entry and hand it over, or keep it when the link ends first. */
    method Deliver(b: Bytes, linkEnds: bool) returns (ok: bool)
      requires Valid() && !failed && pending == [] && (linkEnds || |inbox| < INBOX_SIZE)
      modifies this`recvSeq, this`pending, this`inbox, this`failed, inn, inn.nonce
      ensures Valid() && Out() == old(Out())
      ensures var after := old(Inb()).Deliver(inn.cipher, b);
              Inb() == if after.holding.None? then after
                       else if linkEnds then after.Park() else after.HandOver()
      ensures ok == (!failed && !linkEnds)
    {
      hide Size, Nonce;
      if |b| > MAX_FRAME_SIZE {
        failed := true;
        return false;
      }
      var parsed := ParsePacket(b);
      if parsed.Short? || !parsed.encrypted {
        failed := true;
        return false;
      }
      var plain := inn.Open(parsed.payload);
      if plain.None? {
        failed := true;
        return false;
      }
      recvSeq := recvSeq + 1;
      var p := Packet(parsed.header, plain.value);
      if linkEnds {
        pending := pending + [p];
        return false;
      }
      inbox := inbox + [p];
      return true;
    }

    /** The next link's reader hands the pending packet over first. */
    method HandPending()
      requires Valid() && pending != [] && |inbox| < INBOX_SIZE
      modifies this`pending, this`inbox
      ensures Valid() && Out() == old(Out()) && Inb() == old(Inb()).HandPending()
    {
      inbox := inbox + [pending[0]];
      pending := pending[1..];
    }

    /** ReadPacket, for what its selects can see: whether the caller's context and the Conn's are
        done, and whether every reader has stopped. Any branch that is ready may be taken; the inbox
        always goes before pending, and pending is read only once every reader has stopped. */
    method ReadPacket(callerEnded: bool, ended: bool, readersDone: bool) returns (r: ReadResult)
      requires Valid()
      modifies this`pending, this`inbox, this`returned
      ensures Valid() && Out() == old(Out())
      ensures r.Got? && old(inbox) != [] ==> r.p == old(inbox)[0] && Inb() == old(Inb()).ReadInbox()
      ensures r.Got? && old(inbox) == [] ==> ended && readersDone && old(pending) != [] && r.p == old(pending)[0]
                                             && Inb() == old(Inb()).ReadPending()
      ensures !r.Got? ==> Inb() == old(Inb())
      ensures r.ReaderEnded? ==> callerEnded
      ensures r.ConnEnded? ==> ended && readersDone && inbox == [] && pending == []
      ensures r.Waits? ==> !callerEnded && !(ended && readersDone) && (inbox == [] || ended)
    {
      var pick: nat := *;
      if inbox != [] && (pick == 0 || !(callerEnded || ended)) {
        r := TakeInbox();
        return;
      }
      if callerEnded && (pick == 1 || !ended) {
        return ReaderEnded;
      }
      if !ended {
        return Waits;
      }
      if !readersDone || (callerEnded && pick == 2) {
        return if callerEnded then ReaderEnded else Waits;
      }
      if inbox != [] {
        r := TakeInbox();
        return;
      }
      if pending != [] {
        r := Got(pending[0]);
        returned := returned + [pending[0]];
        pending := pending[1..];
        return;
      }
      return ConnEnded;
    }

    method TakeInbox() returns (r: ReadResult)
      requires Valid() && inbox != []
      modifies this`inbox, this`returned
      ensures Valid() && Out() == old(Out()) && r == Got(old(inbox)[0]) && Inb() == old(Inb()).ReadInbox()
    {
      r := Got(inbox[0]);
      returned := returned + [inbox[0]];
      inbox := inbox[1..];
    }

    /** The select in handOver, with the inbox full: the caller takes a packet, or the link ends, if it
        is not one that stays up. */
    method AwaitRoom(staysUp: bool) returns (linkEnds: bool)
      requires Valid() && |inbox| <= INBOX_SIZE
      modifies this`pending, this`inbox, this`returned
      ensures Valid() && Out() == old(Out()) && pending == old(pending)
      ensures if linkEnds then !staysUp else |inbox| < INBOX_SIZE
      ensures Inb() == old(Inb()) || (old(inbox) != [] && Inb() == old(Inb()).ReadInbox())
    {
      linkEnds := *;
      linkEnds := linkEnds && !staysUp;
      if !linkEnds && |inbox| == INBOX_SIZE {
        var _ := ReadPacket(false, false, false);
      }
    }

    /** deliver and handOver of the next honest entry: refused only for its size. */
    method Receive(b: Bytes, staysUp: bool, ghost sealed: seq<Packet>) returns (ok: bool)
      requires Valid() && Ideal(inn.cipher) && Exact(Inb(), sealed) && !failed && pending == []
      requires HonestFrom(inn.cipher, sealed, recvSeq, [b])
      modifies this`recvSeq, this`pending, this`inbox, this`failed, this`returned, inn, inn.nonce
      ensures Valid() && Out() == old(Out()) && Exact(Inb(), sealed)
      ensures failed == (|b| > MAX_FRAME_SIZE) && recvSeq == old(recvSeq) + (if failed then 0 else 1)
      ensures ok ==> !failed && pending == []
      ensures staysUp && !failed ==> ok
    {
      hide Size, Nonce, Exact, Ideal, Entry, Unseal;
      ExactMeans(Inb(), sealed);
      if inbox != [] { ReadInboxExact(Inb(), sealed); }
      var linkEnds := AwaitRoom(staysUp);
      assert b == [b][0] == Entry(inn.cipher, ServerToClient, recvSeq + 0, sealed[recvSeq + 0]);
      DeliverExact(inn.cipher, Inb(), sealed);
      if |b| <= MAX_FRAME_SIZE { HandOverExact(Inb().Deliver(inn.cipher, b), sealed); }
      ok := Deliver(b, linkEnds);
    }

    /** readLoop's first loop: the packet an earlier link left, or nothing moves. */
    method HandOlder(staysUp: bool, ghost sealed: seq<Packet>) returns (ok: bool)
      requires Valid() && Exact(Inb(), sealed)
      modifies this`pending, this`inbox, this`returned
      ensures Valid() && Exact(Inb(), sealed) && Out() == old(Out()) && (ok ==> pending == []) && (staysUp ==> ok)
    {
      hide Size, Nonce, Exact;
      ok := true;
      ExactMeans(Inb(), sealed);
      if pending != [] {
        if inbox != [] { ReadInboxExact(Inb(), sealed); }
        var linkEnds := AwaitRoom(staysUp);
        if linkEnds {
          return false;
        }
        HandPendingExact(Inb(), sealed);
        HandPending();
      }
    }

    /** readLoop's second loop: the catchup, up to where the link ends or an entry is too large. */
    method ReceiveCatchup(catchup: seq<Bytes>, staysUp: bool, ghost sealed: seq<Packet>) returns (ok: bool)
      requires Valid() && Ideal(inn.cipher) && Exact(Inb(), sealed) && !failed && pending == []
      requires HonestFrom(inn.cipher, sealed, recvSeq, catchup)
      modifies this`recvSeq, this`pending, this`inbox, this`failed, this`returned, inn, inn.nonce
      ensures Valid() && Exact(Inb(), sealed) && Out() == old(Out())
      ensures old(recvSeq) <= recvSeq <= old(recvSeq) + |catchup|
      ensures Framable(catchup[..recvSeq - old(recvSeq)])
      ensures failed ==> recvSeq < old(recvSeq) + |catchup| && |catchup[recvSeq - old(recvSeq)]| > MAX_FRAME_SIZE
      ensures ok ==> !failed && recvSeq == old(recvSeq) + |catchup| && pending == []
      ensures staysUp && !failed ==> ok
    {
      hide Size, Nonce, Exact, Ideal, Entry, Unseal, HonestFrom, Inb, Stream.Valid, R.Ring.Valid;
      ghost var start := recvSeq;
      for i := 0 to |catchup|
        invariant Valid() && Exact(Inb(), sealed) && !failed && pending == []
        invariant recvSeq == start + i && Out() == old(Out()) && Framable(catchup[..i])
      {
        HonestAt(inn.cipher, sealed, start, catchup, i);
        ok := Receive(catchup[i], staysUp, sealed);
        if !ok {
          return;
        }
      }
      ok := true;
    }

    /** The body of readLoop's last loop, for a frame just read. */
    method ReceiveFrame(frame: Bytes, released: bool, staysUp: bool, ghost sealed: seq<Packet>) returns (ok: bool)
      requires Valid() && Ideal(inn.cipher) && Exact(Inb(), sealed) && !failed && pending == []
      requires HonestFrom(inn.cipher, sealed, recvSeq, [frame]) && |frame| <= MAX_FRAME_SIZE
      modifies this`recvSeq, this`pending, this`inbox, this`failed, this`returned, inn, inn.nonce,
               ring`first, ring`entries, ring`bytes, ring`held
      ensures Valid() && Exact(Inb(), sealed) && !failed && recvSeq == old(recvSeq) + 1
      ensures Out() == (if released then old(Out()) else old(Out()).ReleaseHold()) && (ok ==> pending == [])
      ensures staysUp ==> ok
      ensures released ==> unchanged(ring)
      ensures !released ==> !ring.held && (old(WithinHold()) ==> WithinHold())
    {
      hide Size, Nonce, Exact, Ideal, Entry, Unseal, Outbound.ReleaseHold, WithinHold;
      if !released {
        ReleaseHold();
      }
      ok := Receive(frame, staysUp, sealed);
    }

    /** fail with ErrIntegrity: the Conn ends, what was received stays. */
    method Fail(ghost sealed: seq<Packet>)
      requires Valid() && Exact(Inb(), sealed)
      modifies this`failed
      ensures Valid() && Exact(Inb(), sealed) && Out() == old(Out()) && failed
    {
      hide Exact;
      ExactFailing(Inb(), sealed);
      failed := true;
    }

    /** readLoop's last loop: frames until the stream or the link ends, or a length is too large; the
        first frame ends the hold. */
    method ReceiveFrames(src: Source, staysUp: bool, ghost sealed: seq<Packet>) returns (why: ReaderEnd)
      requires Valid() && Ideal(inn.cipher) && Exact(Inb(), sealed) && !failed && pending == []
      requires HonestFrom(inn.cipher, sealed, recvSeq, ReadAll(src.rest).frames)
      modifies this`recvSeq, this`pending, this`inbox, this`failed, this`returned, inn, inn.nonce, src,
               ring`first, ring`entries, ring`bytes, ring`held
      ensures Valid() && Exact(Inb(), sealed) && failed == why.TooLargeEntry?
      ensures old(recvSeq) <= recvSeq <= old(recvSeq) + |ReadAll(old(src.rest)).frames|
      ensures Out() == if recvSeq > old(recvSeq) then old(Out()).ReleaseHold() else old(Out())
      ensures staysUp ==> !why.LinkEnded?
      ensures recvSeq > old(recvSeq) ==>
                !ring.held && (old(WithinHold()) ==> WithinHold())
      ensures !why.LinkEnded? ==> recvSeq == old(recvSeq) + |ReadAll(old(src.rest)).frames| && pending == []
      ensures !why.LinkEnded? ==> why.TooLargeEntry? == EndsTooLarge(src, ReadAll(old(src.rest)))
    {
      hide Size, Nonce, Exact, Ideal, Entry, Unseal, ReadAll, ReadOne, Outbound.ReleaseHold, HonestFrom, Inb,
           Stream.Valid, R.Ring.Valid, WithinHold;
      ghost var all, start, k := ReadAll(src.rest), recvSeq, 0;
      var buf, released := new Byte[4](_ => 0), false;
      while true
        invariant fresh(buf)
        invariant Valid() && Exact(Inb(), sealed) && !failed && pending == []
        invariant k <= |all.frames| && recvSeq == start + k
        invariant ReadAll(src.rest) == Decoded(all.frames[k..], all.end)
        invariant released == (k > 0)
        invariant if released then !ring.held && (old(WithinHold()) ==> WithinHold())
                  else unchanged(ring)
        invariant Out() == if released then old(Out()).ReleaseHold() else old(Out())
        decreases |all.frames| - k
      {
        ReadAllSteps(src.rest);
        FrameFits(src.rest);
        var out, r := ReadFrame(src, buf);
        buf := out;
        if r.Failed? {
          if r.err == ErrTooLarge {
            Fail(sealed);
            return TooLargeEntry;
          }
          return StreamEnded;
        }
        NextOf(all.frames, k, buf[..r.n], ReadAll(src.rest).frames);
        HonestAt(inn.cipher, sealed, start, all.frames, k);
        var ok := ReceiveFrame(buf[..r.n], released, staysUp, sealed);
        released := true;
        k := k + 1;
        if !ok {
          return LinkEnded;
        }
      }
    }

    /** readLoop on an honest server's link. Whatever ends it, everything it opened is in one place
        and in order; the hold ends with the first frame, not before; on a link that stays up it takes all there
        is; and the Conn fails only on a
        catchup entry, or a frame, that is too large. */
    method ReadLoop(catchup: seq<Bytes>, src: Source, staysUp: bool, ghost sealed: seq<Packet>) returns (why: ReaderEnd)
      requires Valid() && Ideal(inn.cipher) && Exact(Inb(), sealed) && !failed
      requires HonestFrom(inn.cipher, sealed, recvSeq, catchup)
      requires HonestFrom(inn.cipher, sealed, recvSeq + |catchup|, ReadAll(src.rest).frames)
      modifies this`recvSeq, this`pending, this`inbox, this`failed, this`returned, inn, inn.nonce, src,
               ring`first, ring`entries, ring`bytes, ring`held
      ensures Valid() && Exact(Inb(), sealed) && failed == why.TooLargeEntry?
      ensures old(recvSeq) <= recvSeq <= old(recvSeq) + |catchup| + |ReadAll(old(src.rest)).frames|
      ensures Out() == if recvSeq > old(recvSeq) + |catchup| then old(Out()).ReleaseHold() else old(Out())
      ensures staysUp ==> !why.LinkEnded?
      ensures recvSeq > old(recvSeq) + |catchup| ==>
                !ring.held && (old(WithinHold()) ==> WithinHold())
      ensures why.StreamEnded? ==>
                && recvSeq == old(recvSeq) + |catchup| + |ReadAll(old(src.rest)).frames| && pending == []
                && Framable(catchup) && !EndsTooLarge(src, ReadAll(old(src.rest)))
      ensures why.TooLargeEntry? ==>
                if recvSeq < old(recvSeq) + |catchup| then |catchup[recvSeq - old(recvSeq)]| > MAX_FRAME_SIZE
                else EndsTooLarge(src, ReadAll(old(src.rest)))
    {
      hide Size, Nonce, Exact, Ideal, Entry, Unseal, ReadAll, Outbound.ReleaseHold, HonestFrom, WithinHold;
      ghost var start := recvSeq;
      var ok := HandOlder(staysUp, sealed);
      if ok {
        ok := ReceiveCatchup(catchup, staysUp, sealed);
      }
      if !ok {
        return if failed then TooLargeEntry else LinkEnded;
      }
      assert catchup[..recvSeq - start] == catchup;
      why := ReceiveFrames(src, staysUp, sealed);
    }
  }
}
