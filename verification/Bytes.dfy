/** Byte strings, and the total size of a run of them. */
module Bytes {
  type Byte = b: int | 0 <= b < 256
  type Bytes = seq<Byte>

  datatype Option<+T> = None | Some(value: T)

  function Max(a: int, b: int): int { if a < b then b else a }

  function Min(a: int, b: int): int { if a < b then a else b }

  function Pow256(n: nat): (r: nat)
    ensures r > 0
  {
    if n == 0 then 1 else 256 * Pow256(n - 1)
  }

  lemma {:induction false} Pow256Grows(a: nat, b: nat)
    requires a <= b
    ensures Pow256(a) <= Pow256(b)
  {
    if a < b { Pow256Grows(a, b - 1); }
  }

  /** Total length of log[from..till). */
  function Size(log: seq<Bytes>, from: nat, till: nat): nat
    requires till <= |log|
    decreases till
  {
    if till <= from then 0 else Size(log, from, till - 1) + |log[till - 1]|
  }

  lemma SizeNone(log: seq<Bytes>, at: nat)
    requires at <= |log|
    ensures Size(log, at, at) == 0
  {
  }

  lemma {:induction false} SizeSplit(log: seq<Bytes>, a: nat, b: nat, c: nat)
    requires a <= b <= c <= |log|
    ensures Size(log, a, c) == Size(log, a, b) + Size(log, b, c)
    decreases c
  {
    if b < c { SizeSplit(log, a, b, c - 1); }
  }

  /** Growing the log leaves the size of what was there alone. */
  lemma {:induction false} SizeExtend(log: seq<Bytes>, more: seq<Bytes>, from: nat, till: nat)
    requires till <= |log|
    ensures Size(log + more, from, till) == Size(log, from, till)
    decreases till
  {
    if from < till { SizeExtend(log, more, from, till - 1); }
  }

  lemma SizeHead(log: seq<Bytes>, a: nat, c: nat)
    requires a < c <= |log|
    ensures Size(log, a, c) == |log[a]| + Size(log, a + 1, c)
  {
    SizeSplit(log, a, a + 1, c);
  }

  lemma SizePush(log: seq<Bytes>, data: Bytes, from: nat)
    requires from <= |log|
    ensures Size(log + [data], from, |log| + 1) == Size(log, from, |log|) + |data|
  {
    SizeExtend(log, [data], from, |log|);
  }

  lemma {:induction false} SizeSlice(log: seq<Bytes>, a: nat, b: nat, from: nat, till: nat)
    requires a <= b <= |log| && from <= till <= b - a
    ensures Size(log[a..b], from, till) == Size(log, a + from, a + till)
    decreases till
  {
    if from < till { SizeSlice(log, a, b, from, till - 1); }
  }

  lemma {:induction false} SizeAtLeast(log: seq<Bytes>, from: nat, till: nat, unit: nat)
    requires from <= till <= |log|
    requires forall i :: from <= i < till ==> |log[i]| >= unit
    ensures Size(log, from, till) >= unit * (till - from)
    decreases till
  {
    if from < till {
      SizeAtLeast(log, from, till - 1, unit);
      assert unit * (till - from) == unit * (till - 1 - from) + unit;
    }
  }
}
