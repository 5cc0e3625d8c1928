/** Reading frames from a stream that returns bytes in pieces of any size and ends anywhere
    (internal/wire/wire.go, frame.go). */
module Reader {
  import opened Bytes
  import opened Frames

  const GROW_CHUNK: nat := 0x1_0000

  /** EOF and an error wrapping it both satisfy errors.Is(err, io.EOF). */
  datatype Error = EOF | WrappedEOF | UnexpectedEOF | ErrTooLarge | OtherError {
    predicate IsEOF() { EOF? || WrappedEOF? }
  }

  /** An io.Reader: the bytes still to come, and the error after them. It may return nothing and
      no error, `idle` times at most, or a caller that insists would never end. */
  class Source {
    var rest: Bytes
    var idle: nat
    const end: Error

    /** Any number of bytes; the error comes with the last bytes or after them. */
    method Read(max: nat) returns (chunk: Bytes, err: Option<Error>)
      requires max > 0
      modifies this
      ensures |chunk| <= max && old(rest) == chunk + rest && idle <= old(idle)
      ensures err.Some? ==> rest == [] && err.value == end
      ensures err.None? && chunk == [] ==> idle < old(idle)
    {
      var nothing: bool := *;
      if nothing && idle > 0 {
        idle := idle - 1;
        return [], None;
      }
      if rest == [] {
        return [], Some(end);
      }
      var most := Min(max, |rest|);
      var k :| 1 <= k <= most;
      chunk := rest[..k];
      rest := rest[k..];
      var early: bool := *;
      err := if early && rest == [] then Some(end) else None;
    }
  }

  method Copy(buf: array<Byte>, at: nat, chunk: Bytes)
    requires at + |chunk| <= buf.Length
    modifies buf
    ensures buf[..at + |chunk|] == old(buf[..at]) + chunk
  {
    forall i | 0 <= i < |chunk| { buf[at + i] := chunk[i]; }
  }

  /** io.ReadFull into buf[from..till]. */
  method ReadFull(src: Source, buf: array<Byte>, from: nat, till: nat) returns (m: nat, err: Option<Error>)
    requires from <= till <= buf.Length
    modifies src, buf
    ensures m == Min(till - from, |old(src.rest)|) && src.rest == old(src.rest)[m..]
    ensures buf[..from + m] == old(buf[..from]) + old(src.rest)[..m]
    ensures err == if m == till - from then None
                   else Some(if m > 0 && src.end == EOF then UnexpectedEOF else src.end)
  {
    ghost var all, head := src.rest, buf[..from];
    m, err := 0, None;
    while m < till - from && err.None?
      invariant m <= till - from
      invariant m <= |all| && src.rest == all[m..] && buf[..from + m] == head + all[..m]
      invariant err.Some? ==> m == |all| && err.value == src.end
      decreases till - from - m, err.None?, src.idle
    {
      var chunk, e := src.Read(till - from - m);
      Copy(buf, from + m, chunk);
      Extended(all, m, chunk, src.rest);
      m := m + |chunk|;
      err := e;
    }
    if m == till - from {
      err := None;
    } else if m > 0 && err == Some(EOF) {
      err := Some(UnexpectedEOF);
    }
  }

  lemma Extended(all: Bytes, m: nat, chunk: Bytes, rest: Bytes)
    requires m <= |all| && all[m..] == chunk + rest
    ensures m + |chunk| <= |all| && all[..m + |chunk|] == all[..m] + chunk && all[m + |chunk|..] == rest
  {
    assert all == all[..m] + chunk + rest;
  }

  function HeaderErr(n: nat, err: Error): Error
  {
    if !err.IsEOF() then err else if n == 0 then EOF else UnexpectedEOF
  }

  function BodyErr(err: Error): Error { HeaderErr(1, err) }

  /** How a reader sees a stream that ended with `end` before or inside what it wanted. */
  function EndOf(partial: bool, end: Error): (e: Error)
    ensures end.EOF? || end.WrappedEOF? ==> e == if partial then UnexpectedEOF else EOF
    ensures end.UnexpectedEOF? || end.ErrTooLarge? || end.OtherError? ==> e == end
  {
    if !end.IsEOF() then end else if partial then UnexpectedEOF else EOF
  }

  /** A buffer allocated after `received` body bytes had arrived. */
  datatype Allocation = Allocation(received: nat, capacity: nat)

  ghost predicate InProportion(a: Allocation, n: nat)
  {
    a.capacity <= Max(4 * a.received, 2 * GROW_CHUNK) && a.capacity <= Max(n, GROW_CHUNK)
  }

  /** Room for the next read step: a buffer too small for it is replaced by one of twice its
      size or the step, whichever is larger, but never past max(n, GROW_CHUNK). */
  method Grow(buf: array<Byte>, len: nat, n: nat)
    returns (out: array<Byte>, next: nat, ghost allocations: seq<Allocation>)
    requires len <= buf.Length && len < n && (len == 0 ==> buf.Length < n)
    ensures len < next <= out.Length && next == Min(n, Max(2 * len, GROW_CHUNK))
    ensures out[..len] == buf[..len] && (out == buf || fresh(out))
    ensures out != buf ==> buf.Length < next && out.Length == Min(Max(next, 2 * buf.Length), Max(n, GROW_CHUNK))
    ensures forall a :: a in allocations ==> a.received == len && InProportion(a, n)
  {
    next := Min(n, Max(2 * len, GROW_CHUNK));
    out, allocations := buf, [];
    if buf.Length < next {
      var capacity := Min(Max(next, 2 * buf.Length), Max(n, GROW_CHUNK));
      out := new Byte[capacity](_ => 0);
      forall i | 0 <= i < len { out[i] := buf[i]; }
      allocations := [Allocation(len, capacity)];
    }
  }

  /** readBody: exactly the next n bytes, or the error; what it allocates is in proportion to
      what has arrived, whatever length was declared. */
  method ReadBody(src: Source, buf: array<Byte>, n: nat)
    returns (out: array<Byte>, err: Option<Error>, ghost allocations: seq<Allocation>)
    modifies src, buf
    ensures (out == buf || fresh(out)) && (buf.Length >= n ==> out == buf && allocations == [])
    ensures err == if |old(src.rest)| >= n then None else Some(EndOf(true, src.end))
    ensures err.None? ==> n <= out.Length && out[..n] == old(src.rest)[..n] && src.rest == old(src.rest)[n..]
    ensures forall a :: a in allocations ==> a.received <= |old(src.rest)| && InProportion(a, n)
  {
    ghost var all := src.rest;
    out, err, allocations := buf, None, [];
    if buf.Length >= n {
      var _, e := ReadFull(src, buf, 0, n);
      err := if e.Some? then Some(BodyErr(e.value)) else None;
      return;
    }
    var len: nat := 0;
    while len < n
      invariant len <= n && len <= out.Length && len <= |all|
      invariant out == buf || fresh(out)
      invariant src.rest == all[len..] && out[..len] == all[..len]
      invariant len == 0 ==> out == buf
      invariant forall a :: a in allocations ==> a.received <= |all| && InProportion(a, n)
      decreases n - len
    {
      hide InProportion;
      var b, next, more := Grow(out, len, n);
      allocations, out := allocations + more, b;
      var m, e := ReadFull(src, out, len, next);
      Joined(all, len, m);
      len := len + m;
      if e.Some? {
        err := Some(BodyErr(e.value));
        return;
      }
    }
  }

  lemma Joined(all: Bytes, len: nat, m: nat)
    requires len + m <= |all|
    ensures all[..len] + all[len..][..m] == all[..len + m] && all[len..][m..] == all[len + m..]
  {
  }

  datatype Outcome = Body(n: nat) | Failed(err: Error)

  /** ReadFrame: the next frame of the stream, for any pieces and any reused buffer. */
  method ReadFrame(src: Source, buf: array<Byte>) returns (out: array<Byte>, r: Outcome)
    modifies src, buf
    ensures (out == buf || fresh(out))
    ensures match ReadOne(old(src.rest))
            case Frame(body, rest) =>
              r == Body(|body|) && |body| <= out.Length && out[..|body|] == body && src.rest == rest
            case CleanEnd => r == Failed(EndOf(false, src.end))
            case CutEnd => r == Failed(EndOf(true, src.end))
            case TooLarge(_) => r == Failed(ErrTooLarge)
  {
    ghost var all := src.rest;
    var b := buf;
    if b.Length < 4 {
      var grown: nat :| 4 <= grown <= 8;
      b := new Byte[grown](_ => 0);
    }
    var m, e := ReadFull(src, b, 0, 4);
    if e.Some? {
      return b, Failed(HeaderErr(m, e.value));
    }
    assert b[..4] == b[..0] + all[..4] == all[..4];
    var n := FromBigEndian(b[..4]);
    if n > MAX_FRAME_SIZE {
      return b, Failed(ErrTooLarge);
    }
    var body, err, _ := ReadBody(src, b, n);
    out := body;
    if err.Some? {
      return out, Failed(err.value);
    }
    assert all[4..][..n] == all[4..4 + n] && all[4..][n..] == all[4 + n..];
    r := Body(n);
  }

  lemma FrameFits(stream: Bytes)
    ensures ReadOne(stream).Frame? ==> |ReadOne(stream).body| <= MAX_FRAME_SIZE
  {
  }

  lemma ReadAllSteps(stream: Bytes)
    ensures match ReadOne(stream)
            case Frame(body, rest) => ReadAll(stream) == Decoded([body] + ReadAll(rest).frames, ReadAll(rest).end)
            case end => ReadAll(stream) == Decoded([], end)
  {
    hide ReadOne;
  }

  /** A reader's loop until it fails: the frames it gets are those of ReadAll, whatever the
      pieces, and with CutStreamDecodesToPrefix those wholly before a cut. */
  method ReadFrames(src: Source, buf: array<Byte>) returns (frames: seq<Bytes>, err: Error)
    modifies src, buf
    ensures frames == ReadAll(old(src.rest)).frames
    ensures err == match ReadAll(old(src.rest)).end
                   case TooLarge(_) => ErrTooLarge
                   case CutEnd => EndOf(true, src.end)
                   case _ => EndOf(false, src.end)
  {
    ghost var all := src.rest;
    var b := buf;
    frames := [];
    while true
      invariant b == buf || fresh(b)
      invariant frames + ReadAll(src.rest).frames == ReadAll(all).frames
      invariant ReadAll(src.rest).end == ReadAll(all).end
      decreases |src.rest|
    {
      hide ReadAll, ReadOne;
      ReadAllSteps(src.rest);
      var out, r := ReadFrame(src, b);
      if r.Failed? {
        err := r.err;
        return;
      }
      frames := frames + [out[..r.n]];
      b := out;
    }
  }
}
