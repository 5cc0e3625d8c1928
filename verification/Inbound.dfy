/** The client's inbound state as a value: what the stream position, `recvSeq`, `pending` and
    the inbox channel stand for (internal/etcp/link.go, conn.go). */
module Inbound {
  import opened Bytes
  import opened Frames
  import opened Nonces
  import opened Packets
  import opened Sealing

  const INBOX_SIZE: nat := 64

  datatype Inbound = Inbound(
    count: nat,                // boxes opened
    recvSeq: nat,
    returned: seq<Packet>,     // everything ReadPacket has returned
    inbox: seq<Packet>,
    pending: seq<Packet>,
    holding: Option<Packet>,   // opened and counted; the reader is blocked handing it over
    broken: bool               // a packet was refused: the Conn fails with ErrIntegrity
  ) {
    /** deliver up to the hand-over: check the size, open, count. */
    function Deliver(k: Cipher, b: Bytes): Inbound
    {
      if |b| > MAX_FRAME_SIZE then this.(broken := true)
      else
        var parsed := ParsePacket(b);
        if parsed.Short? || !parsed.encrypted then this.(broken := true)
        else match Unseal(k, ServerToClient, count, b)
             case None => this.(count := count + 1, broken := true)
             case Some(p) => this.(count := count + 1, recvSeq := recvSeq + 1, holding := Some(p))
    }

    /** The select in handOver took the inbox branch. */
    function HandOver(): Inbound
      requires holding.Some?
    {
      this.(inbox := inbox + [holding.value], holding := None)
    }

    /** The link ended first: the packet waits for the next link. */
    function Park(): Inbound
    {
      match holding
      case None => this
      case Some(p) => this.(pending := pending + [p], holding := None)
    }

    function HandPending(): Inbound
      requires pending != []
    {
      this.(inbox := inbox + [pending[0]], pending := pending[1..])
    }

    function ReadInbox(): Inbound
      requires inbox != []
    {
      this.(returned := returned + [inbox[0]], inbox := inbox[1..])
    }

    function ReadPending(): Inbound
      requires pending != []
    {
      this.(returned := returned + [pending[0]], pending := pending[1..])
    }

    /** All packets received so far, oldest first. */
    function All(): seq<Packet>
    {
      returned + inbox + pending + (if holding.Some? then [holding.value] else [])
    }
  }

  const EMPTY := Inbound(0, 0, [], [], [], None, false)

  /** Exactly the first recvSeq packets of what the server sealed, each in one place. */
  ghost predicate Exact(i: Inbound, sealed: seq<Packet>)
  {
    && i.count == i.recvSeq <= |sealed|
    && i.All() == sealed[..i.recvSeq]
    && |i.inbox| <= INBOX_SIZE
    && |i.pending| <= 1
    && (i.holding.Some? ==> i.pending == [])
  }

  /** Moving a packet along never loses, repeats or reorders one. */
  lemma HandOverExact(i: Inbound, sealed: seq<Packet>)
    requires Exact(i, sealed) && i.holding.Some?
    ensures |i.inbox| < INBOX_SIZE ==> Exact(i.HandOver(), sealed)
    ensures Exact(i.Park(), sealed)
  {
    var p := [i.holding.value];
    assert i.returned + (i.inbox + p) == i.returned + i.inbox + p;
  }

  /** Which entries the client counts, and which merely advance the stream's count. */
  lemma DeliverExactly(k: Cipher, i: Inbound, b: Bytes)
    requires i.holding.None? && !i.broken
    ensures var n := i.Deliver(k, b);
            var sealed := 2 <= |b| <= MAX_FRAME_SIZE && b[0] != 0;
            var plain := if sealed then k.open(Nonce(ServerToClient, i.count + 1), b[2..]) else None;
            && n.count == i.count + (if sealed then 1 else 0)
            && n.recvSeq == i.recvSeq + (if plain.Some? then 1 else 0)
            && n.broken == plain.None?
            && n.holding == (if plain.Some? then Some(Packet(b[1], plain.value)) else None)
            && n.inbox == i.inbox && n.pending == i.pending && n.returned == i.returned
  {
  }

  lemma ExactMeans(i: Inbound, sealed: seq<Packet>)
    requires Exact(i, sealed)
    ensures |i.inbox| <= INBOX_SIZE && |i.pending| <= 1 && i.recvSeq <= |sealed|
  {
  }

  lemma ExactFailing(i: Inbound, sealed: seq<Packet>)
    requires Exact(i, sealed)
    ensures Exact(i.(broken := true), sealed)
  {
  }

  lemma HandPendingExact(i: Inbound, sealed: seq<Packet>)
    requires Exact(i, sealed) && i.pending != [] && |i.inbox| < INBOX_SIZE
    ensures Exact(i.HandPending(), sealed)
  {
    assert i.pending == [i.pending[0]] && i.pending[1..] == [];
    assert i.returned + (i.inbox + i.pending) == i.returned + i.inbox + i.pending;
  }

  lemma ReadInboxExact(i: Inbound, sealed: seq<Packet>)
    requires Exact(i, sealed) && i.inbox != []
    ensures Exact(i.ReadInbox(), sealed)
  {
    assert i.inbox == [i.inbox[0]] + i.inbox[1..];
    assert i.returned + [i.inbox[0]] + i.inbox[1..] == i.returned + i.inbox;
  }

  lemma ReadPendingExact(i: Inbound, sealed: seq<Packet>)
    requires Exact(i, sealed) && i.inbox == [] && i.pending != []
    ensures Exact(i.ReadPending(), sealed)
  {
    assert i.pending == [i.pending[0]] && i.pending[1..] == [];
    assert i.returned + i.inbox + i.pending == i.returned + i.pending;
  }

  /** The next honest entry always opens; it is refused only for its size. */
  lemma DeliverExact(k: Cipher, i: Inbound, sealed: seq<Packet>)
    requires Ideal(k) && Exact(i, sealed) && i.recvSeq < |sealed|
    requires i.holding.None? && i.pending == [] && !i.broken
    ensures var b := Entry(k, ServerToClient, i.recvSeq, sealed[i.recvSeq]);
            var n := i.Deliver(k, b);
            && Exact(n, sealed)
            && n.broken == (|b| > MAX_FRAME_SIZE)
            && n.recvSeq == (if n.broken then i.recvSeq else i.recvSeq + 1)
            && n.pending == []
            && (n.holding.Some? <==> !n.broken)
  {
    OpensInStep(k, ServerToClient, i.recvSeq, sealed[i.recvSeq]);
  }

  lemma ExactGrows(i: Inbound, sealed: seq<Packet>, more: seq<Packet>)
    requires Exact(i, sealed)
    ensures Exact(i, sealed + more)
  {
    assert (sealed + more)[..i.recvSeq] == sealed[..i.recvSeq];
  }
}
