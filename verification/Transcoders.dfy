/** The streaming transcoders of internal/console/utf16.go and what they compute on a whole
    input: the same output and the same carry, however the input is split into calls. */
module Transcoders {
  import opened Bytes
  import opened Utf

  // ---------------------------------------------------------------- UTF-8 to UTF-16

  datatype Encoding = Encoding(units: seq<Unit>, carry: Bytes)

  /** The units of a rune as decoded: a replacement is a scalar too. */
  function RuneUnits(p: Bytes): seq<Unit>
    requires p != []
  {
    var d := DecodeRune(p);
    if IsScalar(d.rune) then Units(d.rune) else [REPLACEMENT]
  }

  /** One call on the whole of p with nothing carried. */
  function Encode(p: Bytes): Encoding
    decreases |p|
  {
    if !FullRune(p) then Encoding([], p)
    else
      var rest := Encode(p[DecodeRune(p).size..]);
      Encoding(RuneUnits(p) + rest.units, rest.carry)
  }

  /** Splitting the input anywhere changes nothing: carry on from the first part's carry. */
  lemma {:induction false} EncodeSplit(a: Bytes, b: Bytes)
    ensures Encode(a + b).units == Encode(a).units + Encode(Encode(a).carry + b).units
    ensures Encode(a + b).carry == Encode(Encode(a).carry + b).carry
    decreases |a|
  {
    hide DecodeRune, Encode, LeadOf;
    if FullRune(a) {
      var s := DecodeRune(a).size;
      FullIsStable(a, b);
      EncodeSplit(a[s..], b);
      assert (a + b)[s..] == a[s..] + b;
      EncodeNext(a);
      EncodeNext(a + b);
    } else {
      EncodeIncomplete(a);
    }
  }

  /** What may be carried: nothing, or the beginning of some scalar's encoding. */
  ghost predicate Carriable(p: Bytes) { p == [] || Begins(p) }

  lemma CarriableIsIncomplete(p: Bytes)
    ensures Carriable(p) <==> !FullRune(p)
  {
    if p != [] {
      hide FullRune, Begins;
      IncompleteExactly(p);
    }
  }

  lemma {:induction false} CarryIsIncomplete(p: Bytes)
    ensures |Encode(p).carry| < 4 && Carriable(Encode(p).carry)
    decreases |p|
  {
    CarriableIsIncomplete(p);
    hide Begins;
    if FullRune(p) {
      CarryIsIncomplete(p[DecodeRune(p).size..]);
    } else if p != [] {
      IncompletePrefix(p);
    }
  }

  /** A sequence of calls, from what the first one carries in. */
  function EncodeCalls(carry: Bytes, calls: seq<Bytes>): Encoding
    decreases |calls|
  {
    if calls == [] then Encoding([], carry)
    else
      var first := Encode(carry + calls[0]);
      var rest := EncodeCalls(first.carry, calls[1..]);
      Encoding(first.units + rest.units, rest.carry)
  }

  function Concat<T>(parts: seq<seq<T>>): seq<T>
  {
    if parts == [] then [] else parts[0] + Concat(parts[1..])
  }

  lemma EncodeNothing()
    ensures Encode([]) == Encoding([], [])
  {
  }

  lemma EncodeIncomplete(p: Bytes)
    requires !FullRune(p)
    ensures Encode(p) == Encoding([], p)
  {
  }

  /** The next rune of a full prefix, and the rest. */
  lemma EncodeNext(p: Bytes)
    requires FullRune(p)
    ensures Encode(p).units == RuneUnits(p) + Encode(p[DecodeRune(p).size..]).units
    ensures Encode(p).carry == Encode(p[DecodeRune(p).size..]).carry
  {
    hide DecodeRune, RuneUnits;
  }

  /** Streaming equals the one-shot conversion, for every input and every splitting. */
  lemma {:induction false} StreamingEncodesWhole(carry: Bytes, calls: seq<Bytes>)
    requires Carriable(carry)
    ensures EncodeCalls(carry, calls) == Encode(carry + Concat(calls))
    decreases |calls|
  {
    hide FullRune, Encode, Carriable;
    CarriableIsIncomplete(carry);
    if calls == [] {
      assert carry + [] == carry;
      EncodeIncomplete(carry);
    } else {
      var c := Encode(carry + calls[0]).carry;
      CarryIsIncomplete(carry + calls[0]);
      StreamingEncodesWhole(c, calls[1..]);
      assert carry + Concat(calls) == (carry + calls[0]) + Concat(calls[1..]);
      EncodeSplit(carry + calls[0], Concat(calls[1..]));
    }
  }

  ghost predicate StartsWithRune(p: Bytes) { exists r :: IsScalar(r) && EncodeRune(r) <= p }

  /** The conversion without any decoder: the longest way to say it is to look for a scalar
      value whose encoding starts the input; an input that starts with none has an invalid
      first byte, which becomes one U+FFFD. */
  ghost function Reference(p: Bytes): seq<Unit>
    decreases |p|
  {
    if p == [] then []
    else if StartsWithRune(p) then
      var r :| IsScalar(r) && EncodeRune(r) <= p;
      Units(r) + Reference(p[|EncodeRune(r)|..])
    else [REPLACEMENT] + Reference(p[1..])
  }

  function Replacements(n: nat): (u: seq<Unit>) { seq(n, _ => REPLACEMENT) }

  lemma {:induction false} ReferenceOfContinuations(p: Bytes)
    requires forall i :: 0 <= i < |p| ==> Continues(p[i])
    ensures Reference(p) == Replacements(|p|)
    decreases |p|
  {
    if p != [] {
      EncodeDecoded(p);
      ReferenceOfContinuations(p[1..]);
    }
  }

  /** One step of the reference: the rune the decoder sees, or one U+FFFD for the first byte. */
  lemma ReferenceNext(p: Bytes)
    requires p != []
    ensures Reference(p) == RuneUnits(p) + Reference(p[DecodeRune(p).size..])
  {
    hide DecodeRune, FullRune, LeadOf, EncodeRune;
    EncodeDecoded(p);
    var d := DecodeRune(p);
    if d != INVALID {
      assert EncodeRune(d.rune) <= p;
      var r :| IsScalar(r) && EncodeRune(r) <= p && Reference(p) == Units(r) + Reference(p[|EncodeRune(r)|..]);
      DecodeEncoded(r, p);
    }
  }

  /** The output, plus one U+FFFD for each byte still carried, is the reference conversion. */
  lemma {:induction false} EncodeMeetsReference(p: Bytes)
    ensures Encode(p).units + Replacements(|Encode(p).carry|) == Reference(p)
    decreases |p|
  {
    hide DecodeRune, RuneUnits, Reference, Encode, Continues;
    if p == [] {
      EncodeNothing();
      ReferenceOfContinuations(p);
    } else if !FullRune(p) {
      EncodeIncomplete(p);
      IncompletePrefix(p);
      ReferenceNext(p);
      InvalidUnits(p);
      ReferenceOfContinuations(p[1..]);
    } else {
      EncodeNext(p);
      EncodeMeetsReference(p[DecodeRune(p).size..]);
      ReferenceNext(p);
    }
  }

  lemma InvalidUnits(p: Bytes)
    requires p != [] && DecodeRune(p) == INVALID
    ensures RuneUnits(p) == [REPLACEMENT]
  {
    hide DecodeRune;
  }

  class Utf8Encoder {
    const carry: array<Byte>
    var n: nat

    ghost predicate Valid()
      reads this
    {
      carry.Length == 4 && n < 4
    }

    ghost function Carried(): Bytes
      requires Valid()
      reads this, carry
    {
      carry[..n]
    }

    constructor ()
      ensures Valid() && fresh(carry) && Carried() == []
    {
      carry := new Byte[4](_ => 0);
      n := 0;
    }

    /** append: encode p after what is carried, carry an incomplete end. */
    method Append(dst: seq<Unit>, p: Bytes) returns (out: seq<Unit>)
      requires Valid()
      modifies this, carry
      ensures Valid()
      ensures out == dst + Encode(old(Carried()) + p).units && Carried() == Encode(old(Carried()) + p).carry
      ensures Carriable(Carried())
    {
      hide FullRune, DecodeRune, RuneUnits, Encode, Carriable;
      CarryIsIncomplete(Carried() + p);
      ghost var carried := carry[..n];
      ghost var whole := carried + p;
      var rest := p;
      out := dst;
      if n > 0 {
        var k := Min(|p|, 4);
        var joined := carry[..n] + p[..k];
        var used := 0;
        assert whole[0..] == whole;
        while used < n
          invariant used <= |joined| && n == |carried| && joined == carried + p[..k]
          invariant out + Encode(whole[used..]).units == dst + Encode(whole).units
          invariant Encode(whole[used..]).carry == Encode(whole).carry
          decreases |joined| - used
        {
          var q := joined[used..];
          JoinedDecides(carried, p, k, used);
          if !FullRune(q) {
            IncompletePrefix(q);
            EncodeIncomplete(q);
            Save(q);
            return;
          }
          EncodeNext(whole[used..]);
          out := out + RuneUnits(q);
          used := used + DecodeRune(q).size;
        }
        assert whole[used..] == p[used - n..];
        rest := p[used - n..];
        n := 0;
      } else {
        assert whole == p;
      }
      while rest != []
        invariant n == 0
        invariant out + Encode(rest).units == dst + Encode(whole).units
        invariant Encode(rest).carry == Encode(whole).carry
        decreases |rest|
      {
        if !FullRune(rest) {
          IncompletePrefix(rest);
          EncodeIncomplete(rest);
          Save(rest);
          return;
        }
        EncodeNext(rest);
        out := out + RuneUnits(rest);
        rest := rest[DecodeRune(rest).size..];
      }
      EncodeNothing();
    }

    method Save(q: Bytes)
      requires Valid() && |q| < 4
      modifies this, carry
      ensures Valid() && Carried() == q
    {
      forall i | 0 <= i < |q| { carry[i] := q[i]; }
      n := |q|;
    }
  }

  /** While carried bytes remain, the joined bytes decide as the whole rest does, and when they
      are incomplete they are the whole rest. */
  lemma JoinedDecides(carried: Bytes, p: Bytes, k: nat, used: nat)
    requires k == Min(|p|, 4) && used < |carried|
    ensures var q, rest := (carried + p[..k])[used..], (carried + p)[used..];
            && FullRune(q) == FullRune(rest)
            && (!FullRune(q) ==> q == rest)
            && (FullRune(q) ==>
                  && DecodeRune(q) == DecodeRune(rest) && RuneUnits(q) == RuneUnits(rest)
                  && rest[DecodeRune(q).size..] == (carried + p)[used + DecodeRune(q).size..])
  {
    hide LeadOf;
    var q, rest := (carried + p[..k])[used..], (carried + p)[used..];
    assert q == rest[..|q|];
    if k == |p| { assert p[..k] == p; }
    FourBytesDecide(rest, q);
    if !FullRune(q) { IncompletePrefix(q); }
  }

  // ---------------------------------------------------------------- UTF-16 to UTF-8

  const REPLACEMENT_BYTES: Bytes := EncodeRune(REPLACEMENT)

  /** `high` is empty or the high surrogate the input ends in. */
  datatype Decoding = Decoding(bytes: Bytes, high: seq<Unit>)

  /** The units of the first character: none when the input ends before it does. */
  function CharLen(u: seq<Unit>): (n: nat)
    ensures n <= |u|
  {
    if u == [] || (IsHigh(u[0]) && |u| == 1) then 0
    else if IsHigh(u[0]) && IsLow(u[1]) then 2
    else 1
  }

  /** A surrogate pair is one character, any other surrogate one U+FFFD. */
  function CharBytes(u: seq<Unit>): Bytes
    requires CharLen(u) > 0
  {
    if CharLen(u) == 2 then EncodeRune(Paired(u[0], u[1]))
    else if IsHigh(u[0]) || IsLow(u[0]) then REPLACEMENT_BYTES
    else EncodeRune(u[0])
  }

  /** One call on the whole of u with nothing carried. */
  function Decode(u: seq<Unit>): Decoding
    decreases |u|
  {
    if CharLen(u) == 0 then Decoding([], u)
    else
      var rest := Decode(u[CharLen(u)..]);
      Decoding(CharBytes(u) + rest.bytes, rest.high)
  }

  lemma DecodeNext(u: seq<Unit>)
    requires CharLen(u) > 0
    ensures Decode(u).bytes == CharBytes(u) + Decode(u[CharLen(u)..]).bytes
    ensures Decode(u).high == Decode(u[CharLen(u)..]).high
  {
    hide CharBytes;
  }

  /** What comes after a whole character does not change it. */
  lemma CharIsStable(a: seq<Unit>, b: seq<Unit>)
    requires CharLen(a) > 0
    ensures CharLen(a + b) == CharLen(a) && CharBytes(a + b) == CharBytes(a)
  {
    hide EncodeRune, Paired;
  }

  lemma {:induction false} DecodeSplit(a: seq<Unit>, b: seq<Unit>)
    ensures Decode(a + b).bytes == Decode(a).bytes + Decode(Decode(a).high + b).bytes
    ensures Decode(a + b).high == Decode(Decode(a).high + b).high
    decreases |a|
  {
    hide CharLen, CharBytes, Decode;
    var n := CharLen(a);
    if n == 0 {
      DecodeEnd(a);
    } else {
      CharIsStable(a, b);
      DecodeSplit(a[n..], b);
      assert (a + b)[n..] == a[n..] + b;
      DecodeNext(a);
      DecodeNext(a + b);
    }
  }

  lemma {:induction false} HighIsOne(u: seq<Unit>)
    ensures Decode(u).high == [] || (|Decode(u).high| == 1 && IsHigh(Decode(u).high[0]))
    decreases |u|
  {
    hide CharBytes;
    if CharLen(u) > 0 { HighIsOne(u[CharLen(u)..]); }
  }

  function DecodeCalls(high: seq<Unit>, calls: seq<seq<Unit>>): Decoding
    decreases |calls|
  {
    if calls == [] then Decoding([], high)
    else
      var first := Decode(high + calls[0]);
      var rest := DecodeCalls(first.high, calls[1..]);
      Decoding(first.bytes + rest.bytes, rest.high)
  }

  /** Streaming equals the one-shot conversion, for every input and every splitting. */
  lemma {:induction false} StreamingDecodesWhole(high: seq<Unit>, calls: seq<seq<Unit>>)
    requires high == [] || (|high| == 1 && IsHigh(high[0]))
    ensures DecodeCalls(high, calls) == Decode(high + Concat(calls))
    decreases |calls|
  {
    hide Decode, CharBytes;
    if calls == [] {
      DecodeEnd(high);
      assert high + [] == high;
    } else {
      hide CharLen;
      HighIsOne(high + calls[0]);
      StreamingDecodesWhole(Decode(high + calls[0]).high, calls[1..]);
      assert high + Concat(calls) == (high + calls[0]) + Concat(calls[1..]);
      DecodeSplit(high + calls[0], Concat(calls[1..]));
    }
  }

  class Utf16Decoder {
    var high: Unit   // pending high surrogate, 0 if none

    ghost predicate Valid()
      reads this
    {
      high == 0 || IsHigh(high)
    }

    ghost function Pending(): seq<Unit>
      reads this
    {
      if high == 0 then [] else [high]
    }

    constructor ()
      ensures Valid() && Pending() == []
    {
      high := 0;
    }

    /** append: the loop over the units with one carried surrogate. */
    method Append(dst: Bytes, units: seq<Unit>) returns (out: Bytes)
      requires Valid()
      modifies this
      ensures Valid()
      ensures out == dst + Decode(old(Pending()) + units).bytes
      ensures Pending() == Decode(old(Pending()) + units).high
    {
      hide EncodeRune, Paired, Decode;
      ghost var whole := Pending() + units;
      out := dst;
      for i := 0 to |units|
        invariant Valid()
        invariant out + Decode(Pending() + units[i..]).bytes == dst + Decode(whole).bytes
        invariant Decode(Pending() + units[i..]).high == Decode(whole).high
      {
        var u := units[i];
        ghost var rest := units[i..];
        assert rest[1..] == units[i + 1..] && [] + rest == rest && [] + rest[1..] == rest[1..];
        if high != 0 {
          NextUnit(out, high, rest);
          var h := high;
          high := 0;
          if IsLow(u) {
            out := out + EncodeRune(Paired(h, u));
            continue;
          }
          out := out + REPLACEMENT_BYTES;
        }
        FirstUnit(out, rest);
        if IsHigh(u) {
          high := u;
        } else if IsLow(u) {
          out := out + REPLACEMENT_BYTES;
        } else {
          out := out + EncodeRune(u);
        }
      }
      DecodeEnd(Pending());
      assert Pending() + units[|units|..] == Pending();
    }
  }

  lemma DecodeEnd(u: seq<Unit>)
    requires CharLen(u) == 0
    ensures Decode(u) == Decoding([], u)
  {
  }

  /** One unit more, after `out`, with nothing pending. */
  lemma FirstUnit(out: Bytes, units: seq<Unit>)
    requires units != []
    ensures var u, rest := units[0], units[1..];
            if IsHigh(u) then [u] + rest == units
            else && Decode(units).high == Decode(rest).high
                 && out + Decode(units).bytes
                    == (out + if IsLow(u) then REPLACEMENT_BYTES else EncodeRune(u)) + Decode(rest).bytes
  {
    hide EncodeRune, Paired, Decode;
    if !IsHigh(units[0]) { DecodeNext(units); }
  }

  /** One unit more with a high surrogate pending. */
  lemma NextUnit(out: Bytes, high: Unit, units: seq<Unit>)
    requires IsHigh(high) && units != []
    ensures Decode([high] + units).high == Decode(if IsLow(units[0]) then units[1..] else units).high
    ensures out + Decode([high] + units).bytes
            == if IsLow(units[0]) then (out + EncodeRune(Paired(high, units[0]))) + Decode(units[1..]).bytes
               else (out + REPLACEMENT_BYTES) + Decode(units).bytes
  {
    hide EncodeRune, Paired, Decode;
    var v := [high] + units;
    assert v[1..] == units && v[2..] == units[1..];
    DecodeNext(v);
  }

  // ---------------------------------------------------------------- round trip

  function Utf8(runes: seq<Rune>): Bytes
    requires forall i :: 0 <= i < |runes| ==> IsScalar(runes[i])
  {
    if runes == [] then [] else EncodeRune(runes[0]) + Utf8(runes[1..])
  }

  function Utf16(runes: seq<Rune>): seq<Unit>
    requires forall i :: 0 <= i < |runes| ==> IsScalar(runes[i])
  {
    if runes == [] then [] else Units(runes[0]) + Utf16(runes[1..])
  }

  /** On valid text the two are inverse to each other, with nothing carried either way. */
  lemma {:induction false} RoundTrip(runes: seq<Rune>)
    requires forall i :: 0 <= i < |runes| ==> IsScalar(runes[i])
    ensures Encode(Utf8(runes)) == Encoding(Utf16(runes), [])
    ensures Decode(Utf16(runes)) == Decoding(Utf8(runes), [])
  {
    hide DecodeRune, FullRune, EncodeRune;
    if runes == [] {
      EncodeNothing();
    } else {
      var r, p, u := runes[0], Utf8(runes), Utf16(runes);
      RoundTrip(runes[1..]);
      DecodeEncoded(r, p);
      assert p[|EncodeRune(r)|..] == Utf8(runes[1..]);
      EncodeNext(p);
      assert u[|Units(r)|..] == Utf16(runes[1..]);
      if r >= 0x1_0000 { UnitsPair(r); }
    }
  }

  /** Unit i is half of a surrogate pair: its other half is next to it. */
  predicate InPair(u: seq<Unit>, i: nat)
    requires i < |u|
  {
    || (IsHigh(u[i]) && i + 1 < |u| && IsLow(u[i + 1]))
    || (IsLow(u[i]) && i > 0 && IsHigh(u[i - 1]))
  }

  function RepairedAt(u: seq<Unit>, i: nat): Unit
    requires i < |u|
  {
    if (IsHigh(u[i]) || IsLow(u[i])) && !InPair(u, i) then REPLACEMENT else u[i]
  }

  /** The well-formed text nearest to u: each unpaired surrogate replaced, where it stands. */
  function Repaired(u: seq<Unit>): seq<Unit>
  {
    seq(|u|, i requires 0 <= i < |u| => RepairedAt(u, i))
  }

  /** Position by position, dropping a whole first character changes nothing behind it. */
  lemma RepairedRest(u: seq<Unit>, n: nat)
    requires 0 < n == CharLen(u)
    ensures Repaired(u)[n..] == Repaired(u[n..])
  {
    forall i | 0 <= i < |u| - n ensures RepairedAt(u[n..], i) == RepairedAt(u, n + i) {
      assert u[n..][i] == u[n + i];
      if i > 0 { assert u[n..][i - 1] == u[n + i - 1]; }
      if n + i + 1 < |u| { assert u[n..][i + 1] == u[n + i + 1]; }
    }
  }

  lemma RepairedHead(u: seq<Unit>) returns (r: Rune)
    requires CharLen(u) > 0
    ensures IsScalar(r) && Units(r) == Repaired(u)[..CharLen(u)] && CharBytes(u) == EncodeRune(r)
  {
    hide EncodeRune;
    if CharLen(u) == 2 {
      r := Paired(u[0], u[1]);
      PairUnits(u[0], u[1]);
      assert InPair(u, 0) && InPair(u, 1);
    } else {
      r := if IsHigh(u[0]) || IsLow(u[0]) then REPLACEMENT else u[0];
      assert !InPair(u, 0);
    }
  }

  /** Decoding any units gives the text whose UTF-16 form is the input with each unpaired
      surrogate replaced by one U+FFFD, up to a final high surrogate still waiting. */
  lemma {:induction false} DecodeRepairs(u: seq<Unit>) returns (runes: seq<Rune>, k: nat)
    ensures (forall i :: 0 <= i < |runes| ==> IsScalar(runes[i])) && k <= |Repaired(u)| == |u|
    ensures Decode(u) == Decoding(Utf8(runes), u[k..])
    ensures Utf16(runes) == Repaired(u)[..k]
    decreases |u|
  {
    hide CharLen, CharBytes, EncodeRune, Units, InPair, Decode;
    var n := CharLen(u);
    if n == 0 {
      runes, k := [], 0;
      DecodeEnd(u);
    } else {
      var r := RepairedHead(u);
      var rest, j := DecodeRepairs(u[n..]);
      k := n + j;
      assert u[n..][j..] == u[k..];
      assert Repaired(u)[..k] == Repaired(u)[..n] + Repaired(u)[n..][..j];
      RepairedRest(u, n);
      runes := [r] + rest;
      assert runes[1..] == rest;
      DecodeNext(u);
    }
  }

  // ---------------------------------------------------------------- chunks for the console

  /** Position m falls between the halves of a surrogate pair. */
  predicate InsidePair(units: seq<Unit>, m: nat)
  {
    0 < m < |units| && IsHigh(units[m - 1]) && IsLow(units[m])
  }

  /** The longest chunk within the limit that does not end inside a pair. */
  function ChunkLen(units: seq<Unit>, limit: nat): (n: nat)
    requires limit >= 2
    ensures n <= |units| && n <= limit && (units != [] ==> n > 0)
    ensures !InsidePair(units, n)
    ensures forall m :: n < m <= |units| && m <= limit ==> InsidePair(units, m)
  {
    if |units| <= limit then |units|
    else if IsHigh(units[limit - 1]) && IsLow(units[limit]) then limit - 1
    else limit
  }

  function Chunks(units: seq<Unit>, limit: nat): seq<seq<Unit>>
    requires limit >= 2
    decreases |units|
  {
    if units == [] then []
    else
      var n := ChunkLen(units, limit);
      [units[..n]] + Chunks(units[n..], limit)
  }

  lemma ConcatHead<T>(first: seq<T>, rest: seq<seq<T>>)
    ensures Concat([first] + rest) == first + Concat(rest)
  {
    assert ([first] + rest)[1..] == rest;
  }

  /** Chunk by chunk the units rejoin. */
  lemma {:induction false} ChunksRejoin(units: seq<Unit>, limit: nat)
    requires limit >= 2
    ensures Concat(Chunks(units, limit)) == units
    decreases |units|
  {
    hide ChunkLen, Concat;
    if units == [] {
      ConcatNothing<Unit>();
    } else {
      var n := ChunkLen(units, limit);
      ChunksRejoin(units[n..], limit);
      ConcatHead(units[..n], Chunks(units[n..], limit));
      assert units == units[..n] + units[n..];
    }
  }

  lemma ConcatNothing<T>()
    ensures Concat<T>([]) == []
  {
  }

  /** None is empty or longer than one write may be. */
  lemma {:induction false} ChunksFit(units: seq<Unit>, limit: nat, i: nat)
    requires limit >= 2 && i < |Chunks(units, limit)|
    ensures 0 < |Chunks(units, limit)[i]| <= limit
    decreases |units|
  {
    if i > 0 {
      ChunksFit(units[ChunkLen(units, limit)..], limit, i - 1);
    }
  }

  /** Position k of the input is a boundary between chunks. */
  predicate Boundary(units: seq<Unit>, limit: nat, k: nat)
    requires limit >= 2
    decreases |units|
  {
    units != [] &&
    var n := ChunkLen(units, limit);
    k == n || (k > n && Boundary(units[n..], limit, k - n))
  }

  /** No boundary falls between the halves of a surrogate pair. */
  lemma {:induction false} NoChunkSplitsAPair(units: seq<Unit>, limit: nat, k: nat)
    requires limit >= 2 && 0 < k < |units| && Boundary(units, limit, k)
    ensures !(IsHigh(units[k - 1]) && IsLow(units[k]))
    decreases |units|
  {
    var n := ChunkLen(units, limit);
    if k > n { NoChunkSplitsAPair(units[n..], limit, k - n); }
  }
}
