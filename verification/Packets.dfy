/** The serialized packet: encrypted flag, header, payload (internal/wire/packet.go). */
module Packets {
  import opened Bytes

  datatype Packet = Packet(header: Byte, payload: Bytes)

  const KEEP_ALIVE: Byte := 0

  datatype Parsed = Short | Parsed(encrypted: bool, header: Byte, payload: Bytes)

  function ParsePacket(b: Bytes): Parsed
  {
    if |b| < 2 then Short else Parsed(b[0] != 0, b[1], b[2..])
  }

  function PacketBytes(encrypted: bool, header: Byte, payload: Bytes): Bytes
  {
    [if encrypted then 1 else 0, header] + payload
  }

  lemma ParseUndoesAppend(encrypted: bool, header: Byte, payload: Bytes)
    ensures ParsePacket(PacketBytes(encrypted, header, payload)) == Parsed(encrypted, header, payload)
    ensures var b := PacketBytes(encrypted, header, payload);
            |b| == 2 + |payload| && b[0] == (if encrypted then 1 else 0) && b[1] == header && b[2..] == payload
  {
    assert PacketBytes(encrypted, header, payload)[2..] == payload;
  }

  /** Everything of two bytes or more parses, and any flag but 0 reads as 1. */
  lemma AppendUndoesParse(b: Bytes)
    ensures ParsePacket(b).Short? <==> |b| < 2
    ensures |b| >= 2 ==>
              var p := ParsePacket(b);
              PacketBytes(p.encrypted, p.header, p.payload) == b[0 := if b[0] == 0 then 0 else 1]
  {
  }

  /** AppendPacket to the slice b[..n] of payload[at..at + len]. The payload may be a part of
      b itself, overlapping the two prefix bytes or not: it is copied before they are written.
      Without room in b the packet goes to a new array. */
  method AppendPacket(b: array<Byte>, n: nat, encrypted: bool, header: Byte,
                      payload: array<Byte>, at: nat, len: nat)
    returns (out: array<Byte>)
    requires n <= b.Length && at + len <= payload.Length
    modifies b
    ensures n + 2 + len <= out.Length
    ensures out[..n + 2 + len] == old(b[..n]) + PacketBytes(encrypted, header, old(payload[at..at + len]))
    ensures out == b || (fresh(out) && b[..] == old(b[..]))
    ensures b.Length >= n + 2 + len ==> out == b
  {
    ghost var head, body := b[..n], payload[at..at + len];
    if b.Length >= n + 2 + len {
      out := b;
    } else {
      out := new Byte[n + 2 + len](_ => 0);
      forall i | 0 <= i < n { out[i] := b[i]; }
    }
    assert forall i :: 0 <= i < n ==> out[i] == head[i];
    assert forall i :: 0 <= i < len ==> payload[at + i] == body[i];
    forall i | 0 <= i < len { out[n + 2 + i] := payload[at + i]; }
    assert forall i :: n + 2 <= i < n + 2 + len ==> out[i] == body[i - n - 2];
    out[n] := if encrypted then 1 else 0;
    out[n + 1] := header;
    ghost var want := head + PacketBytes(encrypted, header, body);
    assert forall i :: 0 <= i < n + 2 + len ==> out[i] == want[i];
  }
}
