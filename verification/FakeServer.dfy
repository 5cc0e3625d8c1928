/** The server, changed in place (internal/etservertest/server.go): each method is one region
    under s.mu or one loop of a link, stated by the server's steps of the protocol. */
module FakeServer {
  import opened Bytes
  import opened Frames
  import opened Nonces
  import opened Packets
  import opened Sealing
  import opened Writer
  import P = Protocol

  /** Accepting entries one after the other, up to the first that is refused: the position shows
      which, as only an accepted entry moves it. */
  ghost function AcceptAll(cfg: P.Config, s: P.Server, entries: seq<Bytes>): P.Server
    decreases |entries|
  {
    if entries == [] then s
    else
      var t := P.Accept(cfg, s, entries[0]);
      if t.recvSeq == s.recvSeq then t else AcceptAll(cfg, t, entries[1..])
  }

  lemma AcceptMoves(cfg: P.Config, s: P.Server, b: Bytes)
    ensures P.Accept(cfg, s, b).recvSeq in {s.recvSeq, s.recvSeq + 1}
  {
    hide Unseal;
  }

  lemma AcceptNone(cfg: P.Config, s: P.Server)
    ensures AcceptAll(cfg, s, []) == s
  {
  }

  /** All i entries accepted, or the last state is already final. */
  lemma {:induction false} AcceptNext(cfg: P.Config, s: P.Server, entries: seq<Bytes>, i: nat)
    requires i <= |entries|
    ensures var t := AcceptAll(cfg, s, entries[..i]);
            && s.recvSeq <= t.recvSeq <= s.recvSeq + i
            && (t.recvSeq < s.recvSeq + i ==> AcceptAll(cfg, s, entries) == t)
            && (t.recvSeq == s.recvSeq + i && i < |entries| ==>
                  AcceptAll(cfg, s, entries[..i + 1]) == P.Accept(cfg, t, entries[i]))
    decreases i
  {
    hide P.Accept;
    if i > 0 {
      var t := P.Accept(cfg, s, entries[0]);
      AcceptMoves(cfg, s, entries[0]);
      assert entries[..i][1..] == entries[1..][..i - 1];
      if i < |entries| { assert entries[..i + 1][1..] == entries[1..][..i]; }
      if t.recvSeq != s.recvSeq { AcceptNext(cfg, t, entries[1..], i - 1); }
    } else if entries != [] {
      assert entries[..1][1..] == [];
    }
  }

  /** The entries of packets sealed one after the other from position pos on. */
  ghost function SealedFrom(k: Cipher, pos: nat, packets: seq<Packet>): seq<Bytes>
  {
    seq(|packets|, i requires 0 <= i < |packets| => Entry(k, ClientToServer, pos + i, packets[i]))
  }

  /** An honest catchup is accepted whole: from the server's position, the packets sealed there. */
  lemma {:induction false} HonestCatchupAccepted(cfg: P.Config, s: P.Server, packets: seq<Packet>)
    requires Ideal(cfg.cipher) && s.count == s.recvSeq
    ensures var after := AcceptAll(cfg, s, SealedFrom(cfg.cipher, s.recvSeq, packets));
            && after.accepted == s.accepted + packets && after.refused == s.refused
            && after.count == after.recvSeq == s.recvSeq + |packets|
    decreases |packets|
  {
    hide Entry, Unseal, Ideal;
    var entries := SealedFrom(cfg.cipher, s.recvSeq, packets);
    if packets == [] {
      assert s.accepted + packets == s.accepted;
    } else {
      var next := P.Accept(cfg, s, entries[0]);
      EntryParses(cfg.cipher, s.recvSeq, packets[0]);
      OpensInStep(cfg.cipher, ClientToServer, s.recvSeq, packets[0]);
      HonestCatchupAccepted(cfg, next, packets[1..]);
      assert entries[1..] == SealedFrom(cfg.cipher, next.recvSeq, packets[1..]);
      assert s.accepted + packets == (s.accepted + [packets[0]]) + packets[1..];
    }
  }

  lemma EntryParses(k: Cipher, pos: nat, p: Packet)
    ensures var parsed := ParsePacket(Entry(k, ClientToServer, pos, p)); parsed.Parsed? && parsed.encrypted
  {
  }

  /** How many frames WriteFrame takes before one that is too large. */
  function FramableCount(frames: seq<Bytes>): (n: nat)
    ensures n <= |frames|
  {
    if frames == [] || |frames[0]| > MAX_FRAME_SIZE then 0 else 1 + FramableCount(frames[1..])
  }

  lemma {:induction false} FramableCountIs(frames: seq<Bytes>, n: nat)
    requires n <= |frames| && Framable(frames[..n]) && (n < |frames| ==> |frames[n]| > MAX_FRAME_SIZE)
    ensures FramableCount(frames) == n
    decreases n
  {
    if n > 0 {
      assert |frames[..n][0]| <= MAX_FRAME_SIZE;
      assert frames[1..][..n - 1] == frames[..n][1..];
      FramableCountIs(frames[1..], n - 1);
    }
  }

  /** The frames before any framable one are among those written. */
  lemma {:induction false} FramablePrefix(frames: seq<Bytes>, i: nat)
    requires i <= |frames| && Framable(frames[..i])
    ensures i <= FramableCount(frames)
    ensures Framed(frames[..i]) <= Framed(frames[..FramableCount(frames)])
    decreases i
  {
    hide FrameBytes;
    if i > 0 {
      assert |frames[..i][0]| <= MAX_FRAME_SIZE;
      assert frames[1..][..i - 1] == frames[..i][1..];
      FramablePrefix(frames[1..], i - 1);
      var n := FramableCount(frames);
      assert frames[1..][..n - 1] == frames[..n][1..];
    } else {
      assert frames[..0] == [];
    }
  }

  datatype Status = NewClient | ReturningClient | InvalidKey | MismatchedProtocol

  class Server {
    const out: Stream
    const inn: Stream
    var registered: bool
    var known: bool
    var echo: bool
    var sent: seq<Bytes>
    var recvSeq: int
    var queue: seq<Packet>
    var cur: Option<nat>
    ghost var packets: seq<Packet>    // the packets in `sent`
    ghost var taken: seq<Packet>      // everything Recv has returned
    ghost var refused: bool

    ghost predicate Valid()
      reads this, out, out.nonce, inn, inn.nonce
    {
      && out.Valid() && inn.Valid() && out != inn && out.nonce != inn.nonce
      && out.direction == ServerToClient && inn.direction == ClientToServer && out.cipher == inn.cipher
      && out.count == |sent| && recvSeq >= 0
      && P.Sealed(out.cipher, ServerToClient, sent, packets)
    }

    ghost function View(): P.Server
      requires Valid()
      reads this, out, out.nonce, inn, inn.nonce
    {
      P.Server(known, sent, packets, inn.count, recvSeq, taken + queue, echo, cur, refused)
    }

    constructor (cipher: Cipher)
      ensures Valid() && fresh(out) && fresh(out.nonce) && fresh(inn) && fresh(inn.nonce)
      ensures View() == P.Server(false, [], [], 0, 0, [], true, None, false) && out.cipher == cipher
    {
      var o := new Stream(cipher, ServerToClient);
      var i := new Stream(cipher, ClientToServer);
      out, inn := o, i;
      registered, known, echo, sent, recvSeq, queue, cur := true, false, true, [], 0, [], None;
      packets, taken, refused := [], [], false;
    }

    /** admit: only the first admitted connect is answered NEW_CLIENT. */
    method Admit(sameVersion: bool, sameId: bool) returns (status: Status)
      requires Valid()
      modifies this`known
      ensures Valid() && View() == old(View()).(known := old(known) || status == NewClient)
      ensures status == NewClient <==> sameVersion && sameId && registered && !old(known)
      ensures status == ReturningClient <==> sameVersion && sameId && registered && old(known)
      ensures status == MismatchedProtocol <==> !sameVersion
    {
      if !sameVersion {
        return MismatchedProtocol;
      }
      if !sameId || !registered {
        return InvalidKey;
      }
      if !known {
        known := true;
        return NewClient;
      }
      return ReturningClient;
    }

    /** takeOver: the link becomes the current one; the one to wait for is the one before. */
    method TakeOver(link: nat) returns (prev: Option<nat>)
      requires Valid()
      modifies this`cur
      ensures Valid() && View() == old(View()).(cur := Some(link)) && prev == old(cur)
    {
      prev := cur;
      cur := Some(link);
    }

    method EnqueueLocked(ghost cfg: P.Config, p: Packet)
      requires Valid() && cfg.cipher == out.cipher
      modifies this`sent, this`packets, out, out.nonce
      ensures Valid() && View() == P.Send(cfg, old(View()), p)
    {
      hide Nonce;
      var sealed := out.Seal([], p.payload);
      assert sealed == out.cipher.seal(Nonce(ServerToClient, |sent| + 1), p.payload);
      sent := sent + [PacketBytes(true, p.header, sealed)];
      packets := packets + [p];
    }

    /** accept: open, count, queue, echo a KEEP_ALIVE; also on a link after one that was refused. */
    method Accept(ghost cfg: P.Config, b: Bytes) returns (ok: bool)
      requires Valid() && cfg.cipher == out.cipher
      modifies this`recvSeq, this`queue, this`refused, this`sent, this`packets, out, out.nonce, inn, inn.nonce
      ensures Valid() && View() == P.Accept(cfg, old(View()), b) && ok == (recvSeq == old(recvSeq) + 1)
    {
      hide Nonce;
      var parsed := ParsePacket(b);
      if parsed.Short? || !parsed.encrypted {
        refused := true;
        return false;
      }
      var plain := inn.Open(parsed.payload);
      if plain.None? {
        refused := true;
        return false;
      }
      recvSeq := recvSeq + 1;
      var p := Packet(parsed.header, plain.value);
      assert taken + (queue + [p]) == taken + queue + [p];
      queue := queue + [p];
      if p.header == KEEP_ALIVE && echo {
        EnqueueLocked(cfg, Packet(KEEP_ALIVE, []));
      }
      return true;
    }

    /** recover's locked region, for the position the client states. The catchup is exactly what a
        client at that position lacks: its entries open one after the other, from there on, to all
        the packets sealed since, and the link's writer starts where it ends. */
    method CatchupFrom(from: int) returns (catchup: Option<seq<Bytes>>, flushed: nat)
      requires Valid()
      ensures flushed == |packets|
      ensures catchup.Some? <==> 0 <= from <= |packets|
      ensures catchup.Some? ==> from + |catchup.value| == flushed
      ensures catchup.Some? && Ideal(out.cipher) ==>
                forall j :: 0 <= j < |catchup.value| ==>
                  Unseal(out.cipher, ServerToClient, from + j, catchup.value[j]) == Some(packets[from + j])
    {
      hide Entry, Unseal, Ideal;
      flushed := |sent|;
      if from < 0 || from > |sent| {
        return None, flushed;
      }
      catchup := Some(sent[from..]);
      forall j | Ideal(out.cipher) && 0 <= j < |catchup.value|
        ensures Unseal(out.cipher, ServerToClient, from + j, catchup.value[j]) == Some(packets[from + j])
      {
        assert catchup.value[j] == sent[from + j];
        OpensInStep(out.cipher, ServerToClient, from + j, packets[from + j]);
      }
    }

    /** recover's last loop: accept the client's catchup, up to the first refusal. */
    method AcceptCatchup(ghost cfg: P.Config, entries: seq<Bytes>) returns (ok: bool)
      requires Valid() && cfg.cipher == out.cipher
      modifies this`recvSeq, this`queue, this`refused, this`sent, this`packets, out, out.nonce, inn, inn.nonce
      ensures Valid() && View() == AcceptAll(cfg, old(View()), entries)
      ensures ok == (recvSeq == old(recvSeq) + |entries|)
    {
      hide P.Accept, AcceptAll;
      ghost var start := View();
      ok := true;
      AcceptNone(cfg, start);
      assert entries[..0] == [];
      for i := 0 to |entries|
        invariant Valid() && ok && recvSeq == old(recvSeq) + i
        invariant View() == AcceptAll(cfg, start, entries[..i])
      {
        AcceptNext(cfg, start, entries, i);
        ok := Accept(cfg, entries[i]);
        AcceptNext(cfg, start, entries, i + 1);
        if !ok {
          return;
        }
      }
      assert entries[..|entries|] == entries;
    }

    /** writeLoop's pass over the backlog, on a link that takes `cut` more bytes: the frames up to
        one too large to write, or a prefix of their bytes; the position moves only past them all. */
    method WriteBacklog(flushed: nat, cut: nat) returns (wire: Bytes, next: nat, ok: bool)
      requires Valid() && flushed <= |sent|
      ensures var todo := sent[flushed..];
              var all := Framed(todo[..FramableCount(todo)]);
              && wire == all[..Min(cut, |all|)]
              && ok == (FramableCount(todo) == |todo| && |all| <= cut)
      ensures next == if ok then |sent| else flushed
    {
      var todo := sent[flushed..];
      wire, next := [], flushed;
      assert todo[..0] == [];
      for i := 0 to |todo|
        invariant wire == Framed(todo[..i]) && |wire| <= cut && Framable(todo[..i])
      {
        StreamPush(todo, i);
        if |todo[i]| > MAX_FRAME_SIZE {
          FramableCountIs(todo, i);
          return wire, flushed, false;
        }
        var f := FrameBytes(todo[i]);
        FramablePrefix(todo, i + 1);
        if |wire| + |f| > cut {
          wire := wire + f[..cut - |wire|];
          return wire, flushed, false;
        }
        wire := wire + f;
      }
      assert todo[..|todo|] == todo;
      FramableCountIs(todo, |todo|);
      return wire, |sent|, true;
    }

    /** Recv: each accepted packet once, in order. */
    method Recv() returns (p: Option<Packet>)
      requires Valid()
      modifies this`queue, this`taken
      ensures Valid() && View() == old(View())
      ensures p == (if old(queue) == [] then None else Some(old(queue)[0]))
      ensures taken == old(taken) + (if p.Some? then [p.value] else [])
    {
      if queue == [] {
        return None;
      }
      p := Some(queue[0]);
      assert queue == [queue[0]] + queue[1..];
      taken := taken + [queue[0]];
      queue := queue[1..];
    }
  }
}
