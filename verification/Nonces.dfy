/** The 24-byte counter nonce of internal/seal: little-endian, the stream direction in the
    last byte, incremented before every seal and every open. */
module Nonces {
  import opened Bytes

  const NONCE_SIZE: nat := 24

  datatype Direction = ClientToServer | ServerToClient {
    function Mark(): Byte { if ClientToServer? then 0 else 1 }
  }

  /** The number a little-endian byte string stands for. */
  function Value(b: Bytes): nat
  {
    if b == [] then 0 else b[0] + 256 * Value(b[1..])
  }

  /** The low `width` bytes of n, least significant first. */
  function LittleEndian(n: nat, width: nat): (r: Bytes)
    ensures |r| == width
  {
    if width == 0 then [] else [n % 256] + LittleEndian(n / 256, width - 1)
  }

  function Start(d: Direction): nat
  {
    if d.ServerToClient? then Pow256(NONCE_SIZE - 1) else 0
  }

  /** The nonce after `count` increments of the initial one, whose only non-zero byte is the
      last: the direction. */
  function Nonce(d: Direction, count: nat): (r: Bytes)
    ensures |r| == NONCE_SIZE
  {
    LittleEndian(Start(d) + count, NONCE_SIZE)
  }

  /** Add one with carry, from byte 0 up; the carry out of the last byte is dropped. */
  function Incremented(b: Bytes): (r: Bytes)
    ensures |r| == |b|
  {
    if b == [] then []
    else if b[0] == 255 then [0] + Incremented(b[1..])
    else [b[0] + 1] + b[1..]
  }

  lemma {:induction false} IncrementedIsSuccessor(n: nat, width: nat)
    ensures Incremented(LittleEndian(n, width)) == LittleEndian(n + 1, width)
  {
    if width > 0 {
      var b := LittleEndian(n, width);
      assert b[1..] == LittleEndian(n / 256, width - 1);
      if n % 256 == 255 {
        assert (n + 1) / 256 == n / 256 + 1 && (n + 1) % 256 == 0;
        IncrementedIsSuccessor(n / 256, width - 1);
      } else {
        assert (n + 1) / 256 == n / 256 && (n + 1) % 256 == n % 256 + 1;
      }
    }
  }

  /** One increment adds one to the number, modulo 256 to the number of bytes. */
  lemma {:induction false} IncrementAddsOne(b: Bytes)
    ensures Value(b) < Pow256(|b|)
    ensures Value(Incremented(b)) == if Value(b) + 1 == Pow256(|b|) then 0 else Value(b) + 1
  {
    if b != [] {
      IncrementAddsOne(b[1..]);
      assert Incremented(b)[1..] == if b[0] == 255 then Incremented(b[1..]) else b[1..];
    }
  }

  lemma DivMod(n: nat, m: nat)
    requires m > 0
    ensures n == m * (n / m) + n % m && 0 <= n % m < m
  {
  }

  lemma MulGap(m: nat, a: nat, q: nat)
    requires a < q
    ensures m * a + m <= m * q
  {
    var k := q - a - 1;
    assert m * (a + 1 + k) == m * a + m + m * k;
  }

  lemma DivModUnique(m: nat, a: nat, r: nat, q: nat, t: nat)
    requires r < m && t < m && m * a + r == m * q + t
    ensures r == t
  {
    if a < q { MulGap(m, a, q); }
    if q < a { MulGap(m, q, a); }
  }

  lemma SuccessorUnique(m: nat, q: nat, r: nat, q': nat, r': nat)
    requires r < m && r' < m && m * q + r + 1 == m * q' + r'
    ensures r' == if r + 1 == m then 0 else r + 1
  {
    if r + 1 == m {
      assert m * (q + 1) == m * q + m;
      DivModUnique(m, q + 1, 0, q', r');
    } else {
      DivModUnique(m, q, r + 1, q', r');
    }
  }

  lemma ModSuccessor(n: nat, m: nat)
    requires m > 0
    ensures (n + 1) % m == if n % m + 1 == m then 0 else n % m + 1
  {
    DivMod(n, m);
    DivMod(n + 1, m);
    SuccessorUnique(m, n / m, n % m, (n + 1) / m, (n + 1) % m);
  }

  /** A fixed number of bytes counts modulo 256 to that number. */
  lemma {:induction false} ValueIsModulo(n: nat, width: nat)
    ensures Value(LittleEndian(n, width)) == n % Pow256(width)
    decreases n
  {
    if n == 0 {
      SmallValue(0, width);
    } else {
      ValueIsModulo(n - 1, width);
      IncrementedIsSuccessor(n - 1, width);
      IncrementAddsOne(LittleEndian(n - 1, width));
      ModSuccessor(n - 1, Pow256(width));
    }
  }

  /** After n increments the 24 bytes are the little-endian form of d * 256^23 + n, modulo
      256^24. Nothing is assumed about n, so wrap-around is covered. */
  lemma NonceValue(d: Direction, n: nat, size: nat)
    requires size == NONCE_SIZE
    ensures Value(Nonce(d, n)) == (Start(d) + n) % Pow256(size)
  {
    hide Value, LittleEndian;
    ValueIsModulo(Start(d) + n, size);
  }

  lemma NonceStep(d: Direction, n: nat)
    ensures Incremented(Nonce(d, n)) == Nonce(d, n + 1)
  {
    IncrementedIsSuccessor(Start(d) + n, NONCE_SIZE);
  }

  lemma {:induction false} SmallValue(n: nat, width: nat)
    requires n < Pow256(width)
    ensures Value(LittleEndian(n, width)) == n
  {
    if width > 0 {
      SmallValue(n / 256, width - 1);
      assert LittleEndian(n, width)[1..] == LittleEndian(n / 256, width - 1);
    }
  }

  lemma {:induction false} TopByte(mark: bool, n: nat, width: nat)
    requires n < Pow256(width)
    ensures LittleEndian((if mark then Pow256(width) else 0) + n, width + 1)
            == LittleEndian(n, width) + [if mark then 1 else 0]
    decreases width
  {
    var top, x := if mark then 1 else 0, (if mark then Pow256(width) else 0) + n;
    if width == 0 {
      assert x == top;
      assert LittleEndian(x / 256, 0) == [];
    } else {
      TopByte(mark, n / 256, width - 1);
      assert x % 256 == n % 256 && x / 256 == (if mark then Pow256(width - 1) else 0) + n / 256;
      assert LittleEndian(x, width + 1) == [n % 256] + (LittleEndian(n / 256, width - 1) + [top]);
    }
  }

  /** Below 256^23 steps the direction byte is intact, no nonce repeats, and the two
      directions never meet. */
  lemma NoncesNeverRepeat(d: Direction, i: nat, e: Direction, j: nat)
    requires i < Pow256(NONCE_SIZE - 1) && j < Pow256(NONCE_SIZE - 1)
    ensures Nonce(d, i)[NONCE_SIZE - 1] == d.Mark() == if d.ClientToServer? then 0 else 1
    ensures Nonce(d, i) == Nonce(e, j) <==> d == e && i == j
  {
    hide Pow256, LittleEndian;
    MarkedNeverRepeat(d.ServerToClient?, i, e.ServerToClient?, j, NONCE_SIZE - 1);
  }

  lemma MarkedNeverRepeat(mark: bool, i: nat, other: bool, j: nat, width: nat)
    requires i < Pow256(width) && j < Pow256(width)
    ensures var p := Pow256(width);
            var a := LittleEndian((if mark then p else 0) + i, width + 1);
            var b := LittleEndian((if other then p else 0) + j, width + 1);
            a[width] == (if mark then 1 else 0) && (a == b <==> mark == other && i == j)
  {
    TopByte(mark, i, width);
    TopByte(other, j, width);
    var p := Pow256(width);
    var a := LittleEndian((if mark then p else 0) + i, width + 1);
    var b := LittleEndian((if other then p else 0) + j, width + 1);
    if a == b {
      assert LittleEndian(i, width) == a[..width] == b[..width] == LittleEndian(j, width);
      SmallValue(i, width);
      SmallValue(j, width);
    }
  }
}
