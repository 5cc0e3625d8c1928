/** An ideal box exists, so what is proved about one is not vacuous: a box that carries, in the
    16 bytes it adds, the count and the direction it was sealed at. */
module IdealBox {
  import opened Bytes
  import opened Nonces
  import opened Sealing

  const COUNT_SIZE: nat := 8
  const GAP: nat := NONCE_SIZE - 1 - COUNT_SIZE

  function Zeros(n: nat): (z: Bytes) { seq(n, _ => 0) }

  /** A nonce whose count fits its first 8 bytes. */
  predicate Small(n: Bytes)
  {
    |n| == NONCE_SIZE && n[COUNT_SIZE..NONCE_SIZE - 1] == Zeros(GAP)
  }

  function Tag(n: Bytes): (t: Bytes)
    ensures |t| == OVERHEAD
  {
    if Small(n) then n[..COUNT_SIZE] + [n[NONCE_SIZE - 1]] + Zeros(7) else seq(OVERHEAD, _ => 255)
  }

  function Seal(n: Bytes, p: Bytes): Bytes { Tag(n) + p }

  function Open(n: Bytes, b: Bytes): Option<Bytes>
  {
    if |b| >= OVERHEAD && b[..OVERHEAD] == Tag(n) then Some(b[OVERHEAD..]) else None
  }

  const TAGGED := Cipher(Seal, Open)

  lemma {:induction false} PaddedCount(n: nat, width: nat, gap: nat)
    requires n < Pow256(width)
    ensures LittleEndian(n, width + gap) == LittleEndian(n, width) + Zeros(gap)
    decreases width
  {
    if width == 0 {
      ZeroBytes(gap);
    } else {
      PaddedCount(n / 256, width - 1, gap);
    }
  }

  lemma StreamNonceIsSmall(d: Direction, i: nat)
    requires i <= MAX_SEQ + 1
    ensures Small(Nonce(d, i))
  {
    CountsFit();
    TopByte(d.ServerToClient?, i, NONCE_SIZE - 1);
    PaddedCount(i, COUNT_SIZE, GAP);
    assert Nonce(d, i) == LittleEndian(i, COUNT_SIZE) + Zeros(GAP) + [d.Mark()];
  }

  /** A small nonce is determined by its tag. */
  lemma TagTells(n: Bytes, m: Bytes)
    requires Small(n) && Tag(n) == Tag(m)
    ensures n == m
  {
    assert Tag(n)[OVERHEAD - 1] == 0;
    assert Small(m);
    assert n[..COUNT_SIZE] == Tag(n)[..COUNT_SIZE] == m[..COUNT_SIZE];
    assert n[NONCE_SIZE - 1] == Tag(n)[COUNT_SIZE] == m[NONCE_SIZE - 1];
    assert n == n[..COUNT_SIZE] + n[COUNT_SIZE..NONCE_SIZE - 1] + [n[NONCE_SIZE - 1]];
    assert m == m[..COUNT_SIZE] + m[COUNT_SIZE..NONCE_SIZE - 1] + [m[NONCE_SIZE - 1]];
  }

  lemma TaggedIsIdeal()
    ensures Ideal(TAGGED)
  {
    forall n: Bytes, p: Bytes
      ensures |TAGGED.seal(n, p)| == |p| + OVERHEAD && TAGGED.open(n, TAGGED.seal(n, p)) == Some(p)
    {
      assert Seal(n, p)[..OVERHEAD] == Tag(n) && Seal(n, p)[OVERHEAD..] == p;
    }
    forall d: Direction, i: nat, p: Bytes, m: Bytes | i <= MAX_SEQ + 1 && m != Nonce(d, i)
      ensures TAGGED.open(m, TAGGED.seal(Nonce(d, i), p)) == None
    {
      StreamNonceIsSmall(d, i);
      assert Seal(Nonce(d, i), p)[..OVERHEAD] == Tag(Nonce(d, i));
      if Tag(Nonce(d, i)) == Tag(m) { TagTells(Nonce(d, i), m); }
    }
  }
}
