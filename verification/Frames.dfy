/** Stream framing: a 4-byte big-endian length, then the frame (internal/wire/frame.go). */
module Frames {
  import opened Bytes

  const MAX_FRAME_SIZE: nat := 0x100_0000

  /** The low `width` bytes of n, most significant first: binary.BigEndian.AppendUint32 of
      uint32(n) for width 4 (the conversion keeps the low 32 bits). */
  function BigEndian(n: nat, width: nat): (r: Bytes)
    ensures |r| == width
  {
    if width == 0 then [] else BigEndian(n / 256, width - 1) + [n % 256]
  }

  function FromBigEndian(b: Bytes): nat
  {
    if b == [] then 0 else FromBigEndian(b[..|b| - 1]) * 256 + b[|b| - 1]
  }

  lemma {:induction false} BigEndianRoundTrip(n: nat, width: nat)
    requires n < Pow256(width)
    ensures FromBigEndian(BigEndian(n, width)) == n
  {
    if width > 0 {
      BigEndianRoundTrip(n / 256, width - 1);
      assert BigEndian(n, width)[..width - 1] == BigEndian(n / 256, width - 1);
    }
  }

  function FrameBytes(frame: Bytes): (r: Bytes)
    ensures |r| == 4 + |frame|
  {
    BigEndian(|frame|, 4) + frame
  }

  /** AppendFrame to the slice dst[..n]: in its spare capacity if there is room, else in a new
      array; a frame above the limit changes nothing. */
  method AppendFrame(dst: array<Byte>, n: nat, frame: Bytes) returns (out: array<Byte>, len: nat, ok: bool)
    requires n <= dst.Length
    modifies dst
    ensures ok == (|frame| <= MAX_FRAME_SIZE) && len <= out.Length
    ensures out[..len] == old(dst[..n]) + if ok then FrameBytes(frame) else []
    ensures !ok || out != dst ==> dst[..] == old(dst[..])
    ensures out == dst || (ok && fresh(out) && dst.Length < len)
  {
    ghost var head := dst[..n];
    if |frame| > MAX_FRAME_SIZE {
      return dst, n, false;
    }
    var added := FrameBytes(frame);
    out, len, ok := dst, n + |added|, true;
    if dst.Length < len {
      out := new Byte[len](_ => 0);
      forall i | 0 <= i < n { out[i] := dst[i]; }
    }
    forall i | 0 <= i < |added| { out[n + i] := added[i]; }
    assert out[..len] == head + added;
  }

  /** The bytes of a list of frames written one after the other. */
  function Framed(frames: seq<Bytes>): Bytes
  {
    if frames == [] then [] else FrameBytes(frames[0]) + Framed(frames[1..])
  }

  lemma {:induction false} StreamConcat(a: seq<Bytes>, b: seq<Bytes>)
    ensures Framed(a + b) == Framed(a) + Framed(b)
  {
    if a == [] {
      assert a + b == b;
    } else {
      StreamConcat(a[1..], b);
      assert (a + b)[1..] == a[1..] + b;
    }
  }

  /** What one ReadFrame call sees of the bytes that still arrive before the stream ends. */
  datatype ReadResult =
    | Frame(body: Bytes, rest: Bytes)
    | CleanEnd                       // io.EOF: the stream ended between frames
    | CutEnd                         // io.ErrUnexpectedEOF: it ended inside a frame
    | TooLarge(declared: nat)

  function ReadOne(stream: Bytes): ReadResult
  {
    if stream == [] then CleanEnd
    else if |stream| < 4 then CutEnd
    else
      var n := FromBigEndian(stream[..4]);
      if n > MAX_FRAME_SIZE then TooLarge(n)
      else if |stream| - 4 < n then CutEnd
      else Frame(stream[4..4 + n], stream[4 + n..])
  }

  /** The length of a frame, most significant byte first. */
  lemma HeaderIs(n: nat)
    requires n < 0x1_0000_0000
    ensures BigEndian(n, 4) == [n / 0x100_0000, n / 0x1_0000 % 256, n / 0x100 % 256, n % 256]
  {
    var n1, n2, n3 := n / 256, n / 256 / 256, n / 256 / 256 / 256;
    assert n3 < 256 && n3 / 256 == 0;
    assert BigEndian(n3, 1) == [n3];
    assert BigEndian(n2, 2) == [n3, n2 % 256];
    assert BigEndian(n1, 3) == [n3, n2 % 256, n1 % 256];
    assert n2 == n / 0x1_0000 && n3 == n / 0x100_0000;
  }

  lemma {:induction false} FromBigEndianOnly(b: Bytes)
    ensures FromBigEndian(b) < Pow256(|b|) && BigEndian(FromBigEndian(b), |b|) == b
  {
    if b != [] {
      FromBigEndianOnly(b[..|b| - 1]);
      assert b == b[..|b| - 1] + [b[|b| - 1]];
    }
  }

  /** What one read sees, without reading: a frame if and only if the stream starts with one within
      the limit; too large whatever follows the length; a clean end only of an empty stream. */
  lemma ReadOneExactly(stream: Bytes)
    ensures forall body, rest :: ReadOne(stream) == Frame(body, rest) <==>
              |body| <= MAX_FRAME_SIZE && stream == FrameBytes(body) + rest
    ensures forall n: nat :: ReadOne(stream) == TooLarge(n) <==>
              MAX_FRAME_SIZE < n < Pow256(4) && BigEndian(n, 4) <= stream
    ensures ReadOne(stream).CleanEnd? <==> stream == []
  {
    hide BigEndian, FromBigEndian, Pow256;
    forall body: Bytes, rest | |body| <= MAX_FRAME_SIZE && stream == FrameBytes(body) + rest
      ensures ReadOne(stream) == Frame(body, rest)
    {
      ReadOneOfPrefix(body, rest, stream);
      assert stream[4 + |body|..] == rest;
    }
    if |stream| >= 4 {
      FromBigEndianOnly(stream[..4]);
      var n := FromBigEndian(stream[..4]);
      if n <= MAX_FRAME_SIZE && |stream| - 4 >= n {
        assert stream == stream[..4] + stream[4..4 + n] + stream[4 + n..];
      }
    }
    forall n: nat | MAX_FRAME_SIZE < n < Pow256(4) && BigEndian(n, 4) <= stream
      ensures ReadOne(stream) == TooLarge(n)
    {
      BigEndianRoundTrip(n, 4);
      assert stream[..4] == BigEndian(n, 4);
    }
  }

  ghost predicate Framable(frames: seq<Bytes>)
  {
    forall i :: 0 <= i < |frames| ==> |frames[i]| <= MAX_FRAME_SIZE
  }

  /** Any prefix of a frame followed by more frames reads as that frame, or as a cut. */
  lemma ReadOneOfPrefix(f: Bytes, tail: Bytes, seen: Bytes)
    requires |f| <= MAX_FRAME_SIZE && seen <= FrameBytes(f) + tail
    ensures |seen| >= 4 + |f| ==> ReadOne(seen) == Frame(f, seen[4 + |f|..])
    ensures 0 < |seen| < 4 + |f| ==> ReadOne(seen) == CutEnd
    ensures |seen| == 0 ==> ReadOne(seen) == CleanEnd
  {
    var whole := FrameBytes(f) + tail;
    if |seen| >= 4 {
      assert seen[..4] == whole[..4] == BigEndian(|f|, 4);
      BigEndianRoundTrip(|f|, 4);
      if |seen| >= 4 + |f| {
        assert seen[4..4 + |f|] == whole[4..4 + |f|] == f;
      }
    }
  }

  /** Every frame of a stream cut at an arbitrary byte, and how the stream ended. */
  datatype Decoded = Decoded(frames: seq<Bytes>, end: ReadResult)

  function ReadAll(stream: Bytes): Decoded
    decreases |stream|
  {
    match ReadOne(stream)
    case Frame(body, rest) =>
      var d := ReadAll(rest);
      Decoded([body] + d.frames, d.end)
    case e => Decoded([], e)
  }

  /** The number of frames that lie wholly within the first `cut` bytes. */
  function WholeFrames(frames: seq<Bytes>, cut: nat): nat
  {
    if frames == [] || cut < |FrameBytes(frames[0])| then 0
    else 1 + WholeFrames(frames[1..], cut - |FrameBytes(frames[0])|)
  }

  /** WholeFrames is the largest count whose bytes fit before the cut. */
  lemma {:induction false} WholeFramesIsMaximal(frames: seq<Bytes>, cut: nat, k: nat)
    requires k <= |frames|
    ensures WholeFrames(frames, cut) <= |frames|
    ensures k <= WholeFrames(frames, cut) <==> |Framed(frames[..k])| <= cut
  {
    if frames != [] {
      var head := |FrameBytes(frames[0])|;
      if k > 0 {
        assert frames[..k][1..] == frames[1..][..k - 1];
        if head <= cut {
          WholeFramesIsMaximal(frames[1..], cut - head, k - 1);
        }
      } else if head <= cut {
        WholeFramesIsMaximal(frames[1..], cut - head, 0);
      }
    }
  }

  lemma ReadAllOfPrefix(f: Bytes, tail: Bytes, seen: Bytes)
    requires |f| <= MAX_FRAME_SIZE && seen <= FrameBytes(f) + tail
    ensures |seen| >= 4 + |f| ==>
              && ReadAll(seen).frames == [f] + ReadAll(seen[4 + |f|..]).frames
              && ReadAll(seen).end == ReadAll(seen[4 + |f|..]).end
    ensures |seen| < 4 + |f| ==>
              ReadAll(seen) == Decoded([], if seen == [] then CleanEnd else CutEnd)
  {
    ReadOneOfPrefix(f, tail, seen);
  }

  lemma ReadAllOfNothing()
    ensures ReadAll([]) == Decoded([], CleanEnd)
  {
  }

  /** A stream cut at any byte decodes to exactly the frames wholly before the cut; it ends
      cleanly if and only if the cut falls on a frame boundary. */
  lemma {:induction false} CutStreamDecodesToPrefix(frames: seq<Bytes>, cut: nat)
    requires Framable(frames) && cut <= |Framed(frames)|
    ensures WholeFrames(frames, cut) <= |frames|
    ensures ReadAll(Framed(frames)[..cut]).frames == frames[..WholeFrames(frames, cut)]
    ensures ReadAll(Framed(frames)[..cut]).end ==
            if |Framed(frames[..WholeFrames(frames, cut)])| == cut then CleanEnd else CutEnd
    decreases |frames|
  {
    hide ReadOne, BigEndian, FromBigEndian;
    var seen := Framed(frames)[..cut];
    if frames == [] {
      assert seen == [];
      ReadAllOfNothing();
    } else {
      var f, rest, head := frames[0], frames[1..], 4 + |frames[0]|;
      ReadAllOfPrefix(f, Framed(rest), seen);
      if head <= cut {
        var w, tail := WholeFrames(rest, cut - head), Framed(rest)[..cut - head];
        CutStreamDecodesToPrefix(rest, cut - head);
        assert seen[head..] == tail;
        assert frames[..1 + w] == [f] + rest[..w];
        StreamOfHead(f, rest[..w]);
        assert WholeFrames(frames, cut) == 1 + w;
        assert |Framed(frames[..1 + w])| == head + |Framed(rest[..w])|;
      } else {
        assert frames[..0] == [];
      }
    }
  }

  lemma StreamOfHead(f: Bytes, rest: seq<Bytes>)
    ensures Framed([f] + rest) == FrameBytes(f) + Framed(rest)
  {
    assert ([f] + rest)[1..] == rest;
  }

  /** A reader that has consumed log[start..k) from a link whose writer sends log[start..]
      can only be given log[k] next. */
  lemma NextFrame(log: seq<Bytes>, start: nat, k: nat, wire: Bytes)
    requires start <= k <= |log|
    requires wire <= Framed(log[start..]) && |Framed(log[start..k])| <= |wire|
    requires Framable(log[k..])
    ensures var r := ReadOne(wire[|Framed(log[start..k])|..]);
            !r.TooLarge? &&
            (r.Frame? ==>
               && k < |log| && r.body == log[k]
               && |Framed(log[start..k + 1])| == |Framed(log[start..k])| + |FrameBytes(log[k])| <= |wire|)
  {
    var off := |Framed(log[start..k])|;
    assert log[start..] == log[start..k] + log[k..];
    StreamConcat(log[start..k], log[k..]);
    var seen := wire[off..];
    assert seen <= Framed(log[k..]);
    if k == |log| {
      assert seen == [];
    } else {
      ReadOneOfPrefix(log[k], Framed(log[k + 1..]), seen);
      assert log[k..][1..] == log[k + 1..];
      assert log[start..k + 1] == log[start..k] + [log[k]];
      StreamConcat(log[start..k], [log[k]]);
      StreamOfHead(log[k], []);

      assert [log[k]] + [] == [log[k]];
    }
  }

  /** Growing the log keeps what was written a prefix of what the link carries. */
  lemma StreamGrows(log: seq<Bytes>, more: seq<Bytes>, start: nat, wire: Bytes)
    requires start <= |log| && wire <= Framed(log[start..])
    ensures wire <= Framed((log + more)[start..])
  {
    assert (log + more)[start..] == log[start..] + more;
    StreamConcat(log[start..], more);
  }
}
