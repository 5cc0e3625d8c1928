/** The size of a handshake message that carries a catchup (internal/wire/message.go): a protobuf
    CatchupBuffer is, for each entry, a tag byte, the entry's length as a varint, and the entry. */
module Messages {
  import opened Bytes

  const MAX_MESSAGE_SIZE: nat := 0x800_0000

  function VarintSize(n: nat): (r: nat)
    ensures r >= 1
  {
    if n < 128 then 1 else 1 + VarintSize(n / 128)
  }

  function CatchupSize(entries: seq<Bytes>): nat
  {
    if entries == [] then 0
    else CatchupSize(entries[..|entries| - 1]) + 1 + VarintSize(|entries[|entries| - 1]|) + |entries[|entries| - 1]|
  }

  /** WriteMessage refuses a larger one. */
  predicate Fits(entries: seq<Bytes>) { CatchupSize(entries) <= MAX_MESSAGE_SIZE }

  lemma CatchupSizePush(entries: seq<Bytes>, e: Bytes)
    ensures CatchupSize(entries + [e]) == CatchupSize(entries) + 1 + VarintSize(|e|) + |e|
  {
    assert (entries + [e])[..|entries|] == entries;
  }

  lemma {:induction false} CatchupSizeSplit(a: seq<Bytes>, b: seq<Bytes>)
    ensures CatchupSize(a + b) == CatchupSize(a) + CatchupSize(b)
    decreases |b|
  {
    if b == [] {
      assert a + b == a;
    } else {
      var last := |b| - 1;
      CatchupSizeSplit(a, b[..last]);
      assert (a + b)[..|a + b| - 1] == a + b[..last];
    }
  }

  function Pow128(k: nat): (r: nat)
    ensures r > 0
  {
    if k == 0 then 1 else 128 * Pow128(k - 1)
  }

  /** A varint is as long as the number of base-128 digits it takes. */
  lemma {:induction false} VarintSizeIs(n: nat)
    ensures n < Pow128(VarintSize(n))
    ensures VarintSize(n) > 1 ==> n >= Pow128(VarintSize(n) - 1)
  {
    if n < 128 {
      assert Pow128(1) == 128;
    } else {
      VarintSizeIs(n / 128);
      assert Pow128(VarintSize(n)) == 128 * Pow128(VarintSize(n / 128));
      if n / 128 < 128 {
        assert Pow128(1) == 128;
      } else {
        assert Pow128(VarintSize(n) - 1) == 128 * Pow128(VarintSize(n / 128) - 1);
      }
    }
  }

  /** What an entry adds to the size of a catchup: itself, a tag, and its length in one to four bytes. */
  lemma EntryAdds(entries: seq<Bytes>, e: Bytes)
    requires |e| < 0x1000_0000
    ensures CatchupSize(entries + [e]) ==
            CatchupSize(entries) + |e| + 1
            + if |e| < 128 then 1 else if |e| < 0x4000 then 2 else if |e| < 0x20_0000 then 3 else 4
    ensures CatchupSize([]) == 0
  {
    CatchupSizePush(entries, e);
    var n: nat := |e|;
    if n >= 128 {
      assert VarintSize(n) == 1 + VarintSize(n / 128);
      if n >= 0x4000 {
        assert n / 128 >= 128 && VarintSize(n / 128) == 1 + VarintSize(n / 128 / 128);
        if n >= 0x20_0000 {
          assert n / 128 / 128 >= 128 && VarintSize(n / 128 / 128) == 1 + VarintSize(n / 128 / 128 / 128);
        }
      }
    }
  }

  /** A catchup only grows while nothing of it arrives. */
  lemma CatchupGrows(log: seq<Bytes>, grown: seq<Bytes>, from: nat)
    requires log <= grown && from <= |log|
    ensures CatchupSize(log[from..]) <= CatchupSize(grown[from..])
  {
    assert grown[from..] == log[from..] + grown[|log|..];
    CatchupSizeSplit(log[from..], grown[|log|..]);
  }

  /** And what has arrived comes off it. */
  lemma CatchupShrinks(log: seq<Bytes>, from: nat, later: nat)
    requires from <= later <= |log|
    ensures CatchupSize(log[later..]) <= CatchupSize(log[from..])
  {
    assert log[from..] == log[from..later] + log[later..];
    CatchupSizeSplit(log[from..later], log[later..]);
  }
}
