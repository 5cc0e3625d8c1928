/** One direction of the encrypted stream (internal/seal/seal.go) over an ideal box. */
module Sealing {
  import opened Bytes
  import opened Nonces
  import opened Packets

  const OVERHEAD: nat := 16

  /** Sequence numbers are int64 in the source. */
  const MAX_SEQ: nat := 0x7FFF_FFFF_FFFF_FFFF

  /** secretbox.Seal and secretbox.Open under the session key, as functions of the nonce. */
  datatype Cipher = Cipher(seal: (Bytes, Bytes) -> Bytes, open: (Bytes, Bytes) -> Option<Bytes>)

  /** The box opens at the nonce it was sealed at, and at no other. */
  ghost predicate Ideal(k: Cipher)
  {
    && (forall n: Bytes, p: Bytes :: |k.seal(n, p)| == |p| + OVERHEAD)
    && (forall n: Bytes, p: Bytes :: k.open(n, k.seal(n, p)) == Some(p))
    && (forall d: Direction, i: nat, p: Bytes, m: Bytes {:trigger k.open(m, k.seal(Nonce(d, i), p))} ::
          i <= MAX_SEQ + 1 && m != Nonce(d, i) ==> k.open(m, k.seal(Nonce(d, i), p)) == None)
  }

  /** The bytes of the packet with sequence number seq: sealed at count pos + 1. */
  function Entry(k: Cipher, d: Direction, pos: nat, p: Packet): Bytes
  {
    PacketBytes(true, p.header, k.seal(Nonce(d, pos + 1), p.payload))
  }

  /** What a receiver that has opened `count` boxes makes of entry b, or None if it is refused. */
  function Unseal(k: Cipher, d: Direction, count: nat, b: Bytes): Option<Packet>
  {
    match ParsePacket(b)
    case Short => None
    case Parsed(encrypted, header, payload) =>
      if !encrypted then None
      else match k.open(Nonce(d, count + 1), payload)
           case None => None
           case Some(plain) => Some(Packet(header, plain))
  }

  lemma EntrySize(k: Cipher, d: Direction, pos: nat, p: Packet)
    requires Ideal(k)
    ensures |Entry(k, d, pos, p)| == 2 + OVERHEAD + |p.payload|
  {
  }

  lemma CountsFit()
    ensures MAX_SEQ + 2 < Pow256(8) <= Pow256(NONCE_SIZE - 1)
  {
    Pow256Grows(8, NONCE_SIZE - 1);
  }

  /** An honest box opens exactly when the receiver is at its position: whatever the
      directions and counts, within int64 sequence numbers. */
  lemma OpensOnlyInStep(k: Cipher, d: Direction, pos: nat, e: Direction, count: nat, p: Packet)
    requires Ideal(k) && pos <= MAX_SEQ && count <= MAX_SEQ
    ensures Unseal(k, e, count, Entry(k, d, pos, p))
            == if d == e && pos == count then Some(p) else None
  {
    CountsFit();
    NoncesNeverRepeat(d, pos + 1, e, count + 1);
    ParseUndoesAppend(true, p.header, k.seal(Nonce(d, pos + 1), p.payload));
  }

  lemma OpensInStep(k: Cipher, d: Direction, pos: nat, p: Packet)
    requires Ideal(k)
    ensures Unseal(k, d, pos, Entry(k, d, pos, p)) == Some(p)
  {
    ParseUndoesAppend(true, p.header, k.seal(Nonce(d, pos + 1), p.payload));
  }

  /** The carry runs through the first i bytes, all 255, and stops at byte i. */
  lemma {:induction false} IncrementedAt(b: Bytes, i: nat)
    requires i <= |b| && forall j :: 0 <= j < i ==> b[j] == 255
    requires i < |b| ==> b[i] != 255
    ensures forall j :: 0 <= j < |b| ==>
              Incremented(b)[j] == if j < i then 0 else if j == i then b[j] + 1 else b[j]
  {
    if i > 0 {
      IncrementedAt(b[1..], i - 1);
    }
  }

  /** Whatever its count, a receiver opens an honest box to the packet sealed in it, or not
      at all. */
  lemma OpensToItself(k: Cipher, d: Direction, pos: nat, count: nat, p: Packet)
    requires Ideal(k) && pos <= MAX_SEQ
    ensures Unseal(k, d, count, Entry(k, d, pos, p)) in {None, Some(p)}
  {
    ParseUndoesAppend(true, p.header, k.seal(Nonce(d, pos + 1), p.payload));
    if Nonce(d, count + 1) != Nonce(d, pos + 1) {
      assert k.open(Nonce(d, count + 1), k.seal(Nonce(d, pos + 1), p.payload)) == None;
    }
  }

  /** Add one to a little-endian number in place, stopping at the first byte that does not
      wrap to zero. */
  method IncrementBytes(nonce: array<Byte>)
    modifies nonce
    ensures nonce[..] == Incremented(old(nonce[..]))
  {
    ghost var was := nonce[..];
    for i := 0 to nonce.Length
      invariant forall j :: 0 <= j < i ==> was[j] == 255 && nonce[j] == 0
      invariant forall j :: i <= j < nonce.Length ==> nonce[j] == was[j]
    {
      var v: int := nonce[i];
      nonce[i] := (v + 1) % 256;
      if nonce[i] != 0 {
        IncrementedAt(was, i);
        return;
      }
    }
    IncrementedAt(was, nonce.Length);
  }

  /** A Stream: the cipher, the direction, and the nonce, changed in place. */
  class Stream {
    const cipher: Cipher
    const direction: Direction
    const nonce: array<Byte>
    ghost var count: nat   // seals or opens so far

    ghost predicate Valid()
      reads this, nonce
    {
      nonce[..] == Nonce(direction, count)
    }

    constructor (cipher: Cipher, direction: Direction)
      ensures Valid() && fresh(nonce)
      ensures this.cipher == cipher && this.direction == direction && count == 0
    {
      this.cipher, this.direction, this.count := cipher, direction, 0;
      var n := new Byte[NONCE_SIZE](_ => 0);
      n[NONCE_SIZE - 1] := direction.Mark();
      nonce := n;
      new;
      InitialNonce(direction);
      assert nonce[..] == nonce[..NONCE_SIZE - 1] + [nonce[NONCE_SIZE - 1]];
      assert nonce[..] == seq(NONCE_SIZE - 1, _ => 0) + [direction.Mark()];
    }

    method Increment()
      requires Valid()
      modifies this, nonce
      ensures Valid() && count == old(count) + 1
    {
      NonceStep(direction, count);
      IncrementBytes(nonce);
      count := count + 1;
    }

    /** Seal appends the box of plaintext, sealed at the next count, to dst. */
    method Seal(dst: Bytes, plaintext: Bytes) returns (out: Bytes)
      requires Valid()
      modifies this, nonce
      ensures Valid() && count == old(count) + 1
      ensures out == dst + cipher.seal(Nonce(direction, old(count) + 1), plaintext)
    {
      Increment();
      out := dst + cipher.seal(nonce[..], plaintext);
    }

    /** Open advances the count whether or not the box opens. */
    method Open(box: Bytes) returns (out: Option<Bytes>)
      requires Valid()
      modifies this, nonce
      ensures Valid() && count == old(count) + 1
      ensures out == cipher.open(Nonce(direction, old(count) + 1), box)
    {
      Increment();
      out := cipher.open(nonce[..], box);
    }
  }

  lemma {:induction false} ZeroBytes(width: nat)
    ensures LittleEndian(0, width) == seq(width, _ => 0)
  {
    if width > 0 { ZeroBytes(width - 1); }
  }

  lemma InitialNonce(d: Direction)
    ensures Nonce(d, 0) == seq(NONCE_SIZE - 1, _ => 0) + [d.Mark()]
  {
    TopByte(d.ServerToClient?, 0, NONCE_SIZE - 1);
    ZeroBytes(NONCE_SIZE - 1);
  }
}
