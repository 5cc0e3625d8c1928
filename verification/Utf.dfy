/** UTF-8 (section 4 of RFC 3629) and UTF-16 (section 2.2 of RFC 2781), as the Go library the
    transcoders call defines them on arbitrary input. */
module Utf {
  import opened Bytes

  type Unit = u: int | 0 <= u < 0x1_0000
  type Rune = int

  const REPLACEMENT: Unit := 0xFFFD

  predicate IsHigh(u: int) { 0xD800 <= u < 0xDC00 }

  predicate IsLow(u: int) { 0xDC00 <= u < 0xE000 }

  predicate IsScalar(r: Rune) { 0 <= r < 0xD800 || 0xE000 <= r <= 0x10_FFFF }

  /** utf8.AppendRune of a scalar value. */
  function EncodeRune(r: Rune): (b: Bytes)
    requires IsScalar(r)
    ensures 1 <= |b| <= 4
  {
    if r < 0x80 then [r]
    else if r < 0x800 then [0xC0 + r / 64, 0x80 + r % 64]
    else if r < 0x1_0000 then [0xE0 + r / 4096, 0x80 + r / 64 % 64, 0x80 + r % 64]
    else [0xF0 + r / 0x4_0000, 0x80 + r / 4096 % 64, 0x80 + r / 64 % 64, 0x80 + r % 64]
  }

  /** utf16.AppendRune of a scalar value. */
  function Units(r: Rune): (u: seq<Unit>)
    requires IsScalar(r)
    ensures 1 <= |u| <= 2
  {
    if r < 0x1_0000 then [r]
    else [0xD800 + (r - 0x1_0000) / 1024, 0xDC00 + (r - 0x1_0000) % 1024]
  }

  /** utf16.DecodeRune of a surrogate pair. */
  function Paired(high: Unit, low: Unit): (r: Rune)
    requires IsHigh(high) && IsLow(low)
    ensures 0x1_0000 <= r <= 0x10_FFFF
  {
    (high - 0xD800) * 1024 + (low - 0xDC00) + 0x1_0000
  }

  /** Byte b is the mark with the bits of v below it. */
  predicate Low(b: int, mark: int, room: int, v: int) { 0 <= v < room && b == mark + v }

  /** The bits of an encoding, by its length: section 3 of RFC 3629. */
  lemma EncodingIs(r: Rune)
    requires IsScalar(r)
    ensures var e := EncodeRune(r);
            && (|e| == 1 ==> r < 0x80 && e[0] == r)
            && (|e| == 2 ==> 0x80 <= r < 0x800 && Low(e[0], 0xC0, 0x20, r / 64) && Low(e[1], 0x80, 0x40, r % 64))
            && (|e| == 3 ==> 0x800 <= r < 0x1_0000 && Low(e[0], 0xE0, 0x10, r / 4096)
                             && Low(e[1], 0x80, 0x40, r / 64 % 64) && Low(e[2], 0x80, 0x40, r % 64))
            && (|e| == 4 ==> 0x1_0000 <= r && Low(e[0], 0xF0, 0x08, r / 0x4_0000)
                             && Low(e[1], 0x80, 0x40, r / 4096 % 64) && Low(e[2], 0x80, 0x40, r / 64 % 64)
                             && Low(e[3], 0x80, 0x40, r % 64))
  {
    if r < 0x80 {
    } else if r < 0x800 {
      Digits2(r);
    } else if r < 0x1_0000 {
      Digits3(r);
    } else {
      Digits4(r);
    }
  }

  /** The units of a rune: itself, or a surrogate pair of its ten upper and ten lower bits. */
  lemma UnitsAre(r: Rune)
    requires IsScalar(r)
    ensures var u := Units(r);
            if r < 0x1_0000 then u == [r]
            else && |u| == 2 && IsHigh(u[0]) && IsLow(u[1])
                 && Low(u[0], 0xD800, 0x400, (r - 0x1_0000) / 1024) && Low(u[1], 0xDC00, 0x400, (r - 0x1_0000) % 1024)
  {
  }

  lemma UnitsPair(r: Rune)
    requires IsScalar(r) && r >= 0x1_0000
    ensures IsHigh(Units(r)[0]) && IsLow(Units(r)[1]) && Paired(Units(r)[0], Units(r)[1]) == r
  {
  }

  lemma PairUnits(high: Unit, low: Unit)
    requires IsHigh(high) && IsLow(low)
    ensures Units(Paired(high, low)) == [high, low]
  {
    var h, l := high - 0xD800, low - 0xDC00;
    assert (h * 1024 + l) / 1024 == h && (h * 1024 + l) % 1024 == l;
  }

  // ---------------------------------------------------------------- decoding a prefix

  /** The length a leading byte announces, and the range of its second byte; length 1 also
      for bytes that lead nothing. */
  datatype Lead = Lead(size: nat, low: Byte, high: Byte)

  function LeadOf(b: Byte): Lead
  {
    if b < 0xC2 then Lead(1, 0, 0)
    else if b < 0xE0 then Lead(2, 0x80, 0xBF)
    else if b == 0xE0 then Lead(3, 0xA0, 0xBF)
    else if b == 0xED then Lead(3, 0x80, 0x9F)
    else if b < 0xF0 then Lead(3, 0x80, 0xBF)
    else if b == 0xF0 then Lead(4, 0x90, 0xBF)
    else if b < 0xF4 then Lead(4, 0x80, 0xBF)
    else if b == 0xF4 then Lead(4, 0x80, 0x8F)
    else Lead(1, 0, 0)
  }

  predicate Continues(b: Byte) { 0x80 <= b <= 0xBF }

  /** utf8.FullRune: p begins with a whole encoding, or with something that cannot become one. */
  predicate FullRune(p: Bytes)
  {
    p != [] &&
    var x := LeadOf(p[0]);
    || |p| >= x.size
    || (|p| > 1 && !(x.low <= p[1] <= x.high))
    || (|p| > 2 && !Continues(p[2]))
  }

  datatype Decoded = Decoded(rune: Rune, size: nat)

  const INVALID := Decoded(REPLACEMENT, 1)

  /** utf8.DecodeRune of a non-empty p: an invalid byte is U+FFFD of size 1. */
  function DecodeRune(p: Bytes): (d: Decoded)
    requires p != []
    ensures 1 <= d.size <= 4 && d.size <= |p|
  {
    var x := LeadOf(p[0]);
    var b0: int := p[0];
    if x.size == 1 then (if b0 < 0x80 then Decoded(b0, 1) else INVALID)
    else if |p| < x.size || !(x.low <= p[1] <= x.high) then INVALID
    else
      var b1: int := p[1];
      if x.size == 2 then Decoded((b0 - 0xC0) * 64 + (b1 - 0x80), 2)
      else if !Continues(p[2]) then INVALID
      else
        var b2: int := p[2];
        if x.size == 3 then Decoded((b0 - 0xE0) * 4096 + (b1 - 0x80) * 64 + (b2 - 0x80), 3)
        else if !Continues(p[3]) then INVALID
        else
          var b3: int := p[3];
          Decoded((b0 - 0xF0) * 0x4_0000 + (b1 - 0x80) * 4096 + (b2 - 0x80) * 64 + (b3 - 0x80), 4)
  }

  lemma Digits2(r: nat)
    requires r < 0x800
    ensures r == r / 64 * 64 + r % 64 && r / 64 < 32
  {
  }

  lemma Digits3(r: nat)
    requires r < 0x1_0000
    ensures r == r / 4096 * 4096 + r / 64 % 64 * 64 + r % 64 && r / 4096 < 16
  {
    assert r / 64 == r / 64 / 64 * 64 + r / 64 % 64;
    assert r / 64 / 64 == r / 4096;
  }

  lemma Digits4(r: nat)
    requires r <= 0x10_FFFF
    ensures r == r / 0x4_0000 * 0x4_0000 + r / 4096 % 64 * 4096 + r / 64 % 64 * 64 + r % 64 && r / 0x4_0000 <= 4
  {
    var q := r / 64;
    assert q / 64 == r / 4096 && q / 64 / 64 == r / 0x4_0000;
    assert q == q / 64 * 64 + q % 64;
    assert q / 64 == q / 64 / 64 * 64 + q / 64 % 64;
  }

  /** What a scalar encodes to decodes to it, whatever follows; so no encoding is a prefix of
      another, and encodings are unique. */
  lemma DecodeEncoded(r: Rune, p: Bytes)
    requires IsScalar(r) && EncodeRune(r) <= p
    ensures FullRune(p) && DecodeRune(p) == Decoded(r, |EncodeRune(r)|)
  {
    var e := EncodeRune(r);
    assert forall i :: 0 <= i < |e| ==> p[i] == e[i];
    if r < 0x80 {
    } else if r < 0x800 {
      Digits2(r);
    } else if r < 0x1_0000 {
      Digits3(r);
    } else {
      Digits4(r);
    }
  }

  /** Conversely, what decodes as anything but an invalid byte is the encoding of a scalar. */
  lemma EncodeDecoded(p: Bytes)
    requires p != []
    ensures var d := DecodeRune(p);
            if d == INVALID then !exists r :: IsScalar(r) && EncodeRune(r) <= p
            else IsScalar(d.rune) && EncodeRune(d.rune) == p[..d.size]
  {
    var d := DecodeRune(p);
    if d == INVALID {
      if r :| IsScalar(r) && EncodeRune(r) <= p {
        DecodeEncoded(r, p);
      }
    } else if d.size == 2 {
      DecodedDigits2(p[0], p[1]);
    } else if d.size == 3 {
      DecodedDigits3(p[0], p[1], p[2]);
    } else if d.size == 4 {
      DecodedDigits4(p[0], p[1], p[2], p[3]);
    }
  }

  lemma DecodedDigits2(b0: int, b1: int)
    requires 0xC2 <= b0 < 0xE0 && 0x80 <= b1 <= 0xBF
    ensures var r := (b0 - 0xC0) * 64 + (b1 - 0x80);
            0x80 <= r < 0x800 && EncodeRune(r) == [b0, b1]
  {
  }

  lemma DecodedDigits3(b0: int, b1: int, b2: int)
    requires 0xE0 <= b0 < 0xF0 && LeadOf(b0).low <= b1 <= LeadOf(b0).high && 0x80 <= b2 <= 0xBF
    ensures var r := (b0 - 0xE0) * 4096 + (b1 - 0x80) * 64 + (b2 - 0x80);
            0x800 <= r < 0x1_0000 && IsScalar(r) && EncodeRune(r) == [b0, b1, b2]
  {
    var r := (b0 - 0xE0) * 4096 + (b1 - 0x80) * 64 + (b2 - 0x80);
    assert r / 64 == (b0 - 0xE0) * 64 + (b1 - 0x80);
    assert r / 4096 == b0 - 0xE0;
  }

  lemma DecodedDigits4(b0: int, b1: int, b2: int, b3: int)
    requires 0xF0 <= b0 <= 0xF4 && LeadOf(b0).low <= b1 <= LeadOf(b0).high
    requires 0x80 <= b2 <= 0xBF && 0x80 <= b3 <= 0xBF
    ensures var r := (b0 - 0xF0) * 0x4_0000 + (b1 - 0x80) * 4096 + (b2 - 0x80) * 64 + (b3 - 0x80);
            0x1_0000 <= r <= 0x10_FFFF && EncodeRune(r) == [b0, b1, b2, b3]
  {
    var r := (b0 - 0xF0) * 0x4_0000 + (b1 - 0x80) * 4096 + (b2 - 0x80) * 64 + (b3 - 0x80);
    assert r / 64 == (b0 - 0xF0) * 4096 + (b1 - 0x80) * 64 + (b2 - 0x80);
    assert r / 4096 == (b0 - 0xF0) * 64 + (b1 - 0x80);
    assert r / 0x4_0000 == b0 - 0xF0;
  }

  /** Four bytes, or all there are, decide; more of them change nothing. */
  lemma FourBytesDecide(p: Bytes, q: Bytes)
    requires q <= p && (|q| >= 4 || q == p)
    ensures FullRune(q) == FullRune(p)
    ensures q != [] ==> DecodeRune(q) == DecodeRune(p)
  {
    assert forall i :: 0 <= i < |q| ==> q[i] == p[i];
  }

  /** A full prefix stays full and decodes alike whatever follows; fewer than four bytes are
      not full only if they may still become an encoding. */
  lemma FullIsStable(p: Bytes, more: Bytes)
    requires FullRune(p)
    ensures FullRune(p + more) && DecodeRune(p + more) == DecodeRune(p)
  {
    assert forall i :: 0 <= i < |p| ==> (p + more)[i] == p[i];
  }

  /** p is the beginning of an encoding, and not all of it. */
  ghost predicate Begins(p: Bytes)
  {
    exists r :: IsScalar(r) && p < EncodeRune(r)
  }

  lemma BeginsIsIncomplete(p: Bytes, r: Rune)
    requires p != [] && IsScalar(r) && p < EncodeRune(r)
    ensures !FullRune(p)
  {
    var e := EncodeRune(r);
    assert forall i :: 0 <= i < |p| ==> p[i] == e[i];
    DecodeEncoded(r, e);
  }

  /** Completed with the lowest bytes that may follow, an incomplete prefix is an encoding. */
  lemma IncompleteBegins(p: Bytes)
    requires p != [] && !FullRune(p)
    ensures Begins(p)
  {
    var x := LeadOf(p[0]);
    var filler: Bytes := [x.low, 0x80, 0x80][|p| - 1..x.size - 1];
    var q := p + filler;
    assert DecodeRune(q) != INVALID;
    EncodeDecoded(q);
    assert q[..DecodeRune(q).size] == q;
    assert p < EncodeRune(DecodeRune(q).rune);
  }

  /** Exactly what may still become an encoding is not full. */
  lemma IncompleteExactly(p: Bytes)
    requires p != []
    ensures !FullRune(p) <==> Begins(p)
  {
    hide FullRune;
    if !FullRune(p) {
      IncompleteBegins(p);
    } else if r :| IsScalar(r) && p < EncodeRune(r) {
      BeginsIsIncomplete(p, r);
    }
  }

  /** An incomplete prefix is short, none of it encodes anything, and all but its first byte
      are continuation bytes. */
  lemma IncompletePrefix(p: Bytes)
    requires p != [] && !FullRune(p)
    ensures |p| < 4 && DecodeRune(p) == INVALID
    ensures forall i :: 1 <= i < |p| ==> Continues(p[i])
  {
  }
}
