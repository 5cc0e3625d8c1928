/** The replay ring, changed in place (internal/etcp/ring.go). Its fields are the source's; `log`
    is everything ever pushed, and View() is the window the protocol reasons about. */
module Ring {
  import opened Bytes
  import opened Outbound

  /** One entry of the written part of a window: its size, and what dropping it does. */
  lemma TrimStep(w: Window, keep: nat, q: nat)
    requires q < keep <= |w.log|
    ensures Size(w.log, q, |w.log|) == |w.log[q]| + Size(w.log, q + 1, |w.log|)
    ensures Size(w.log, q, |w.log|) - Size(w.log, keep, |w.log|) == Size(w.log, q, keep)
    ensures w.Droppable(keep, q) ==> w.TrimPoint(keep, q) == w.TrimPoint(keep, q + 1)
    ensures !w.Droppable(keep, q) ==> w.TrimPoint(keep, q) == q
  {
    SizeHead(w.log, q, |w.log|);
    SizeSplit(w.log, q, keep, |w.log|);
  }

  lemma TrimEnd(w: Window, keep: nat, q: nat)
    requires q <= keep <= |w.log|
    ensures Size(w.log, q, |w.log|) - Size(w.log, keep, |w.log|) == Size(w.log, q, keep)
    ensures !w.Droppable(keep, q) ==> w.TrimPoint(keep, q) == q
  {
    SizeSplit(w.log, q, keep, |w.log|);
  }

  class Ring {
    var first: int
    var entries: seq<Bytes>
    var bytes: int
    const limit: nat
    var held: bool
    var hold: int
    ghost var log: seq<Bytes>

    ghost predicate Valid()
      reads this
    {
      && 0 <= first <= |log| && entries == log[first..]
      && bytes == Size(log, first, |log|)
    }

    ghost function View(): Window
      requires Valid()
      reads this
    {
      Window(log, first, limit, held, hold)
    }

    constructor (limit: nat)
      ensures Valid() && View() == Initial(limit).ring
    {
      this.limit := limit;
      first, entries, bytes, held, hold, log := 0, [], 0, false, 0, [];
    }

    function Next(): (n: int)
      requires Valid()
      reads this
      ensures n == |log|
    {
      first + |entries|
    }

    method Push(data: Bytes)
      requires Valid()
      modifies this
      ensures Valid() && View() == old(View()).Push(data)
    {
      SizePush(log, data, first);
      log := log + [data];
      entries := entries + [data];
      bytes := bytes + |data|;
    }

    /** The loop drops what the window's TrimPoint says, for the size of the backlog the caller
        passes; log and hold stay. */
    method Trim(keep: int, unsent: int)
      requires Valid() && first <= keep <= |log| && unsent == Size(log, keep, |log|)
      modifies this`first, this`entries, this`bytes
      ensures Valid() && View() == old(View()).Trim(keep)
    {
      hide Size, Window.TrimPoint;
      ghost var w, start := View(), first;
      var n := 0;
      while n < |entries| && bytes - unsent > limit && first + n < keep
        invariant first == start && entries == w.log[start..]
        invariant 0 <= n && start + n <= keep
        invariant bytes == Size(w.log, start + n, |w.log|)
        invariant w.TrimPoint(keep, start + n) == w.TrimPoint(keep, start)
      {
        TrimStep(w, keep, start + n);
        if held && first + n >= hold && bytes - unsent <= 2 * limit {
          break;
        }
        bytes := bytes - |entries[n]|;
        n := n + 1;
      }
      TrimEnd(w, keep, start + n);
      assert w.log[start..][n..] == w.log[start + n..];
      entries := entries[n..];
      first := first + n;
    }

    /** appendRange: the caller guarantees the range is retained. */
    method AppendRange(dst: seq<Bytes>, from: int, till: int) returns (r: seq<Bytes>)
      requires Valid() && first <= from <= till <= |log|
      ensures r == dst + log[from..till]
    {
      assert entries[from - first..till - first] == log[from..till];
      r := dst + entries[from - first..till - first];
    }

    method Since(from: int, till: int) returns (r: Option<seq<Bytes>>)
      requires Valid()
      ensures r == View().Since(from, till)
    {
      if from < first || from > till || till > Next() {
        return None;
      }
      var copy := AppendRange([], from, till);
      assert [] + log[from..till] == log[from..till];
      return Some(copy);
    }

    method BytesBetween(from: int, till: int) returns (n: int)
      requires Valid() && first <= from <= till <= |log|
      ensures n == Size(log, from, till)
    {
      n := 0;
      for i := from - first to till - first
        invariant n == Size(log, from, first + i)
      {
        n := n + |entries[i]|;
      }
    }
  }
}
