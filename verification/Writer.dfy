/** How the writer batches ring entries into one write (internal/etcp/link.go). */
module Writer {
  import opened Bytes
  import opened Frames
  import opened Outbound

  const WRITE_BUF_SIZE: nat := 0x1_0000
  const MAX_BATCH_ENTRIES: nat := WRITE_BUF_SIZE / (4 + MIN_ENTRY) + 1

  /** `sent` entries are what a pass sends of a backlog: at least one, then as many as keep the
      buffer within WRITE_BUF_SIZE, and no fewer. */
  ghost predicate IsBatch(backlog: seq<Bytes>, sent: nat)
  {
    && 0 < sent <= |backlog|
    && (sent == 1 || |Framed(backlog[..sent])| <= WRITE_BUF_SIZE)
    && (sent == |backlog| || |Framed(backlog[..sent + 1])| > WRITE_BUF_SIZE)
  }

  lemma StreamPushFrom(frames: seq<Bytes>, start: nat, k: nat)
    requires start <= k < |frames|
    ensures Framed(frames[start..k + 1]) == Framed(frames[start..k]) + FrameBytes(frames[k])
  {
    assert frames[start..k + 1] == frames[start..k] + [frames[k]];
    StreamConcat(frames[start..k], [frames[k]]);
    StreamOfHead(frames[k], []);
    assert [frames[k]] + [] == [frames[k]];
  }

  lemma StreamPush(frames: seq<Bytes>, k: nat)
    requires k < |frames|
    ensures Framed(frames[..k + 1]) == Framed(frames[..k]) + FrameBytes(frames[k])
  {
    StreamPushFrom(frames, 0, k);
    assert frames[0..k + 1] == frames[..k + 1] && frames[0..k] == frames[..k];
  }

  lemma {:induction false} StreamLength(frames: seq<Bytes>, a: nat, b: nat)
    requires a <= b <= |frames|
    requires forall i :: 0 <= i < |frames| ==> |frames[i]| >= MIN_ENTRY
    ensures |Framed(frames[..b])| >= |Framed(frames[..a])| + (b - a) * (4 + MIN_ENTRY)
    decreases b
  {
    if a < b {
      StreamLength(frames, a, b - 1);
      StreamPush(frames, b - 1);
    }
  }

  /** Taking no more than MAX_BATCH_ENTRIES entries of the backlog sends exactly what filling
      the buffer from the whole backlog would. */
  lemma BatchCapIsInvisible(backlog: seq<Bytes>, sent: nat)
    requires forall i :: 0 <= i < |backlog| ==> |backlog[i]| >= MIN_ENTRY
    ensures IsBatch(backlog[..Min(|backlog|, MAX_BATCH_ENTRIES)], sent) <==> IsBatch(backlog, sent)
  {
    var cap := Min(|backlog|, MAX_BATCH_ENTRIES);
    var few := backlog[..cap];
    if 0 < sent <= |backlog| {
      if sent <= cap { assert few[..sent] == backlog[..sent]; }
      if sent + 1 <= cap { assert few[..sent + 1] == backlog[..sent + 1]; }
      if cap < |backlog| && sent >= cap {
        StreamLength(backlog, 0, cap);
        StreamLength(backlog, cap, sent);
        assert |Framed(backlog[..sent])| > WRITE_BUF_SIZE;
        assert sent > 1;
      }
    }
  }

  /** There is exactly one batch, and only a single large entry makes it exceed the buffer. */
  lemma BatchIsUnique(backlog: seq<Bytes>, sent: nat, other: nat)
    requires forall i :: 0 <= i < |backlog| ==> |backlog[i]| >= MIN_ENTRY
    requires IsBatch(backlog, sent) && IsBatch(backlog, other)
    ensures sent == other
    ensures |Framed(backlog[..sent])| > WRITE_BUF_SIZE ==> sent == 1
  {
    if sent < other { StreamLength(backlog, sent + 1, other); }
    if other < sent { StreamLength(backlog, other + 1, sent); }
  }

  /** Every backlog has a batch. */
  lemma {:induction false} BatchExists(backlog: seq<Bytes>, sent: nat) returns (batch: nat)
    requires 0 < sent <= |backlog| && (sent == 1 || |Framed(backlog[..sent])| <= WRITE_BUF_SIZE)
    ensures IsBatch(backlog, batch)
    decreases |backlog| - sent
  {
    if sent < |backlog| && |Framed(backlog[..sent + 1])| <= WRITE_BUF_SIZE {
      batch := BatchExists(backlog, sent + 1);
    } else {
      batch := sent;
    }
  }

  /** The batch is the longest start of the backlog that is one entry or fits the buffer. */
  lemma BatchIsLongest(backlog: seq<Bytes>, sent: nat, m: nat)
    requires forall i :: 0 <= i < |backlog| ==> |backlog[i]| >= MIN_ENTRY
    requires IsBatch(backlog, sent) && 0 < m <= |backlog|
    ensures m <= sent <==> m == 1 || |Framed(backlog[..m])| <= WRITE_BUF_SIZE
  {
    hide Framed;
    if m <= sent {
      StreamLength(backlog, m, sent);
    } else {
      StreamLength(backlog, sent + 1, m);
    }
  }

  datatype Framing = Framing(buf: Bytes, sent: nat, size: nat, probeAt: int) | Oversized

  /** The framing loop of a pass: entries of `batch` (sequence numbers from base on) into one
      buffer, and the offset of the probe's frame if it is among them. */
  method FrameBatch(batch: seq<Bytes>, base: nat, probe: int) returns (r: Framing)
    requires batch != []
    ensures r.Oversized? ==> exists i :: 0 <= i < |batch| && |batch[i]| > MAX_FRAME_SIZE
    ensures r.Framing? ==>
              && IsBatch(batch, r.sent)
              && Framable(batch[..r.sent])
              && r.buf == Framed(batch[..r.sent])
              && r.size == Size(batch, 0, r.sent)
              && r.probeAt == if base <= probe < base + r.sent then |Framed(batch[..probe - base])| else -1
  {
    var buf: Bytes, sent, size, probeAt := [], 0, 0, -1;
    assert batch[..0] == [];
    while sent < |batch|
      invariant sent <= |batch|
      invariant Framable(batch[..sent])
      invariant buf == Framed(batch[..sent]) && size == Size(batch, 0, sent)
      invariant sent > 1 ==> |buf| <= WRITE_BUF_SIZE
      invariant probeAt == if base <= probe < base + sent then |Framed(batch[..probe - base])| else -1
      decreases |batch| - sent
    {
      var f := batch[sent];
      StreamPush(batch, sent);
      if sent > 0 && |buf| + 4 + |f| > WRITE_BUF_SIZE {
        break;
      }
      if base + sent == probe {
        probeAt := |buf|;
      }
      if |f| > MAX_FRAME_SIZE {
        return Oversized;
      }
      buf := buf + FrameBytes(f);
      size := size + |f|;
      sent := sent + 1;
    }
    r := Framing(buf, sent, size, probeAt);
  }

  const PROGRESS_CHUNK: nat := 0x1000

  /** probeBehind, as the writer computes it after `written` bytes of a batch that ends before
      sequence number `end`. */
  predicate ProbeBehind(lastProbe: int, end: int, probeAt: int, written: nat)
  {
    if probeAt >= 0 then written <= probeAt else lastProbe >= end
  }

  lemma FramedSplit(log: seq<Bytes>, a: nat, b: nat, c: nat)
    requires a <= b <= c <= |log|
    ensures |Framed(log[a..c])| == |Framed(log[a..b])| + |Framed(log[b..c])|
  {
    assert log[a..c] == log[a..b] + log[b..c];
    StreamConcat(log[a..b], log[b..c]);
  }

  /** The offset of the probe's frame in a batch of `sent` entries from base on, or -1. */
  function ProbeAt(log: seq<Bytes>, base: nat, sent: nat, probe: int): int
    requires base + sent <= |log|
  {
    if base <= probe < base + sent then |Framed(log[base..probe])| else -1
  }

  /** Wherever the latest probe is, probeBehind is true exactly when no byte of its frame is
      among the first `written` bytes from base on. */
  lemma ProbeBehindMeans(log: seq<Bytes>, base: nat, sent: nat, lastProbe: int, written: nat)
    requires base + sent <= |log| && lastProbe < |log| && written <= |Framed(log[base..base + sent])|
    ensures ProbeBehind(lastProbe, base + sent, ProbeAt(log, base, sent, lastProbe), written)
            <==> lastProbe >= base && written <= |Framed(log[base..lastProbe])|
  {
    hide Framed;
    if lastProbe >= base + sent { FramedSplit(log, base, base + sent, lastProbe); }
  }

  /** Where piece i of a buffer ends. */
  function PieceEnd(size: nat, i: nat): (end: nat)
    ensures end <= size && end <= (i + 1) * PROGRESS_CHUNK
    ensures end == size || end == (i + 1) * PROGRESS_CHUNK
  {
    Min((i + 1) * PROGRESS_CHUNK, size)
  }

  /** Piece i went out whole, on a link that takes `cut` bytes, and a probe still waited behind it
      when it had; seen[i] is the latest probe as read then. */
  predicate PieceCounts(size: nat, cut: nat, seen: seq<int>, end: int, probeAt: int, i: int)
  {
    && 0 <= i < |seen| && i * PROGRESS_CHUNK < size && PieceEnd(size, i) <= cut
    && ProbeBehind(seen[i], end, probeAt, PieceEnd(size, i))
  }

  /** The sending loop of a pass, on a link that takes `cut` bytes and then fails. The pieces join to
      the buffer; the link counts as alive exactly when some piece counts. */
  method SendPieces(buf: Bytes, cut: nat, seen: seq<int>, end: int, probeAt: int)
    returns (wire: Bytes, ok: bool, alive: bool)
    requires buf != [] && |buf| <= |seen| * PROGRESS_CHUNK
    ensures wire == buf[..Min(cut, |buf|)] && ok == (|buf| <= cut)
    ensures alive <==> exists i :: PieceCounts(|buf|, cut, seen, end, probeAt, i)
  {
    wire, alive := [], false;
    var i := 0;
    while |wire| < |buf|
      invariant 0 <= i <= |seen| && |wire| == Min(i * PROGRESS_CHUNK, |buf|) <= cut && wire <= buf
      invariant alive <==> exists j :: j < i && PieceCounts(|buf|, cut, seen, end, probeAt, j)
      decreases |buf| - |wire|
    {
      var stop := Min(|buf|, |wire| + PROGRESS_CHUNK);
      assert stop == PieceEnd(|buf|, i);
      if cut < stop {
        wire := buf[..cut];
        return wire, false, alive;
      }
      wire := buf[..stop];
      if ProbeBehind(seen[i], end, probeAt, |wire|) {
        assert PieceCounts(|buf|, cut, seen, end, probeAt, i);
        alive := true;
      }
      i := i + 1;
    }
    ok := true;
  }
}
