/**
 The client side of the transport: one socket kept open across requests and closed after every failure,
 so that an answer can never be taken for the answer to a different request.
 */
module TcpClient {
  import opened Common
  import opened Packets
  import opened TcpServer

  /** The peer answers every request with exactly one well-formed packet. */
  ghost predicate Answering(handler: PacketHandler)
  {
    forall ps :: ps != [] ==> handler(ps).Some? && Framed(handler(ps).value)
  }

  // ---- what a server connection puts on the wire ----

  lemma {:induction false} AnswersExtend(handler: PacketHandler, first: seq<Packet>, second: seq<Packet>)
    ensures Answers(handler, first) <= Answers(handler, first + second)
    decreases |second|
  {
    if second == [] {
      assert first + second == first;
    } else {
      var n := |second| - 1;
      assert (first + second)[..|first| + n] == first + second[..n];
      AnswersExtend(handler, first, second[..n]);
    }
  }

  lemma StreamExtends(host: Host, first: seq<Packet>, all: seq<Packet>)
    requires first <= all
    ensures Stream(host, first) <= Stream(host, all)
  {
    StreamConcat(host, first, all[|first|..]);
    assert first + all[|first|..] == all;
  }

  /** Whatever a server connection has sent after receiving only part of what the client wrote is a prefix
      of the encoded answers to everything the client wrote.  The first two requirements are what
      Connection.Valid and Connection.Quiescent say. */
  lemma ServerIsHonest(host: Host, handler: PacketHandler, received: seq<Byte>, later: seq<Byte>,
                       delivered: seq<Packet>, sent: seq<Byte>, queue: seq<seq<Byte>>)
    requires sent + Flatten(queue) == Stream(host, Answers(handler, delivered))
    requires Clean(host, received) ==> Drain(host, received).packets == delivered
    requires Clean(host, received + later)
    ensures sent <= Stream(host, Answers(handler, Drain(host, received + later).packets))
  {
    hide Stream, Answers, Drain, Clean;
    DrainInTwo(host, received, later);
    var more := Drain(host, Drain(host, received).left + later).packets;
    AnswersExtend(handler, delivered, more);
    StreamExtends(host, Answers(handler, delivered), Answers(handler, delivered + more));
  }

  // ---- the client's socket ----

  /** All a peer can have answered to what was sent to it. */
  function Produced(host: Host, handler: PacketHandler, sent: seq<Byte>): seq<Byte>
  {
    Stream(host, Answers(handler, Drain(host, sent).packets))
  }

  /** A connected socket as the client sees it.  `patience` bounds how often poll reports readiness
      before it reports a timeout or an error. */
  class Wire {
    const host: Host
    const handler: PacketHandler
    var patience: nat
    var sent: seq<Byte>
    var taken: seq<Byte>
    ghost var failed: bool // a timeout, an error or the end of the stream has been reported

    constructor (host: Host, handler: PacketHandler, patience: nat)
      ensures this.host == host && this.handler == handler && sent == [] && taken == [] && !failed
    {
      this.host, this.handler, this.patience, sent, taken, failed := host, handler, patience, [], [], false;
    }

    method Poll() returns (ready: bool)
      modifies this`patience, this`failed
      ensures ready ==> patience < old(patience) && failed == old(failed)
      ensures !ready ==> failed
    {
      ready := patience > 0;
      if ready { patience := patience - 1; } else { failed := true; }
    }

    method Transmit(data: seq<Byte>) returns (r: Send)
      modifies this`sent, this`failed
      ensures r.Accepts? ==> r.count <= |data| && sent == old(sent) + data[..r.count]
      ensures r.SendFailed? ==> sent == old(sent)
      ensures failed == (old(failed) || (r.SendFailed? && !r.errno.EINTR?))
    {
      r := *;
      r := Limited(r, |data|);
      if r.Accepts? { sent := sent + data[..r.count]; }
      failed := failed || (r.SendFailed? && !r.errno.EINTR?);
    }

    /** Some of the bytes answered but not yet taken; no bytes at all when the peer has closed. */
    method Receive() returns (r: Recv)
      requires taken <= Produced(host, handler, sent)
      modifies this`taken, this`failed
      ensures failed == (old(failed) || (r.Bytes? && r.data == []) || (r.RecvFailed? && !r.errno.EINTR?))
      ensures taken <= Produced(host, handler, sent) && taken == old(taken) + if r.Bytes? then r.data else []
    {
      hide Produced;
      r := *;
      if r.Bytes? {
        var count: int := *;
        var pending := Produced(host, handler, sent)[|taken|..];
        assert Produced(host, handler, sent) == taken + pending;
        r := Bytes(if 0 <= count <= |pending| then pending[..count] else pending);
        taken := taken + r.data;
      }
      failed := failed || (r.Bytes? && r.data == []) || (r.RecvFailed? && !r.errno.EINTR?);
    }
  }

  /** A prefix of one encoded answer is extracted only when it is the whole of it, and never mistaken for garbage. */
  lemma OnlyTheAnswer(host: Host, answer: Packet, buffer: seq<Byte>)
    requires Framed(answer) && buffer <= EncodePacket(host, answer)
    ensures !WrongMagic(buffer)
    ensures forall p, left ::
              Framed(p) && buffer == EncodePacket(host, p) + left ==>
                p == answer && left == [] && buffer == EncodePacket(host, answer)
  {
    hide EncodePacket, Extract;
    var encoded := EncodePacket(host, answer);
    var rest := encoded[|buffer|..];
    assert encoded == encoded + [] == buffer + rest;
    ExtractExactly(host, encoded, answer, []);
    BadMagicOnTheWire(host, buffer);
    if Extract(host, buffer).BadMagic? { WrongMagicStays(host, buffer, rest); }
    forall p, left | Framed(p) && buffer == EncodePacket(host, p) + left
      ensures p == answer && left == [] && buffer == encoded
    {
      Regroup(EncodePacket(host, p), left, rest);
      ExtractExactly(host, encoded, p, left + rest);
      assert |left + rest| == 0;
      assert buffer + [] == buffer;
    }
  }

  /** Asking one more framed request makes the peer produce exactly one more answer. */
  lemma OneMoreAnswer(host: Host, handler: PacketHandler, asked: seq<Packet>, request: Packet, answer: Packet)
    requires AllFramed(asked) && Framed(request) && handler(asked + [request]) == Some(answer)
    ensures AllFramed(asked + [request])
    ensures Stream(host, asked + [request]) == Stream(host, asked) + EncodePacket(host, request)
    ensures Stream(host, Answers(handler, asked + [request]))
         == Stream(host, Answers(handler, asked)) + EncodePacket(host, answer)
    ensures Drain(host, Stream(host, asked + [request])).packets == asked + [request]
  {
    hide EncodePacket, Drain;
    var all := asked + [request];
    assert all[..|asked|] == asked;
    StreamConcat(host, asked, [request]);
    StreamConcat(host, Answers(handler, asked), [answer]);
    assert Stream(host, [request]) == EncodePacket(host, request)
      && Stream(host, [answer]) == EncodePacket(host, answer);
    DrainStream(host, all, []);
    assert Stream(host, all) + [] == Stream(host, all);
  }

  class PersistentTcpClient {
    const host: Host
    const peers: nat -> Option<PacketHandler> // who answers the n-th dial, if anybody
    var dials: nat
    var wire: Wire?
    ghost var asked: seq<Packet> // the requests answered on the open socket

    constructor (host: Host, peers: nat -> Option<PacketHandler>)
      requires forall n :: peers(n).Some? ==> Answering(peers(n).value)
      ensures Valid() && wire == null && dials == 0
    {
      this.host, this.peers, dials, wire, asked := host, peers, 0, null, [];
    }

    /** Between calls an open socket has no outstanding bytes: every request written on it has been
        answered, every byte of the answers has been taken, and no failure has been reported. */
    ghost predicate Valid()
      reads this, wire
    {
      && (forall n :: peers(n).Some? ==> Answering(peers(n).value))
      && (wire == null ==> asked == [])
      && (wire != null ==> Settled())
    }

    ghost predicate Settled()
      requires wire != null
      reads this, wire
    {
      && wire.host == host && !wire.failed && Answering(wire.handler) && AllFramed(asked)
      && wire.sent == Stream(host, asked)
      && wire.taken == Stream(host, Answers(wire.handler, asked))
    }

    method Close()
      modifies this`wire, this`asked
      ensures wire == null && asked == []
    {
      wire, asked := null, [];
    }

    /** EnsureConnected: an open socket is kept; without one the peer is dialled once, and the call succeeds
        exactly when somebody answers. */
    method EnsureConnected() returns (ok: bool)
      requires Valid()
      modifies this
      ensures Valid() && (ok <==> wire != null) && asked == old(asked)
      ensures old(wire) != null ==> wire == old(wire) && dials == old(dials)
      ensures old(wire) == null ==> dials == old(dials) + 1 && (ok <==> peers(old(dials)).Some?)
      ensures old(wire) == null && ok ==> fresh(wire) && wire.handler == peers(old(dials)).value
    {
      if wire != null { return true; }
      var peer := peers(dials);
      dials := dials + 1;
      ok := peer.Some?;
      if ok {
        var patience: nat := *;
        wire := new Wire(host, peer.value, patience);
      }
    }

    /** WritePacket: true when every byte of the request has gone out, false when the kernel has reported a
        failure. */
    method WritePacket(request: Packet) returns (ok: bool)
      requires wire != null
      modifies wire`patience, wire`sent, wire`failed
      ensures ok ==> wire.failed == old(wire.failed)
      ensures !ok ==> wire.failed
      ensures ok ==> wire.sent == old(wire.sent) + EncodePacket(wire.host, request)
    {
      hide EncodePacket;
      var encoded := EncodePacket(wire.host, request);
      var writtenTotal := 0;
      while writtenTotal < |encoded|
        invariant wire.failed == old(wire.failed)
        invariant writtenTotal <= |encoded| && wire.sent == old(wire.sent) + encoded[..writtenTotal]
        decreases wire.patience
      {
        var ready := wire.Poll();
        if !ready { return false; }
        var r := wire.Transmit(encoded[writtenTotal..]);
        match r {
          case SendFailed(errno) => if errno != EINTR { return false; }
          case Accepts(count) =>
            assert encoded[..writtenTotal] + encoded[writtenTotal..][..count] == encoded[..writtenTotal + count];
            writtenTotal := writtenTotal + count;
        }
      }
      assert encoded[..writtenTotal] == encoded;
      ok := true;
    }

    /** ReadPacket: true when exactly the outstanding answer has been taken off the wire, false when the
        kernel has reported a failure. */
    method ReadPacket(ghost before: seq<Byte>, ghost answer: Packet) returns (ok: bool, response: Packet)
      requires wire != null && Framed(answer)
      requires wire.taken == before
      requires Produced(wire.host, wire.handler, wire.sent) == before + EncodePacket(wire.host, answer)
      modifies wire`patience, wire`taken, wire`failed
      ensures ok ==> wire.failed == old(wire.failed)
      ensures !ok ==> wire.failed
      ensures ok ==> response == answer && wire.taken == before + EncodePacket(wire.host, answer)
    {
      hide EncodePacket, Produced;
      ghost var encoded := EncodePacket(wire.host, answer);
      response := Packet(Header(MAGIC, 1, 0, 0, 0), []);
      var buffer: seq<Byte> := [];
      while true
        invariant Produced(wire.host, wire.handler, wire.sent) == before + encoded && buffer <= encoded
        invariant wire.taken == before + buffer && wire.failed == old(wire.failed)
        decreases wire.patience
      {
        var found, left;
        OnlyTheAnswer(wire.host, answer, buffer);
        found, response, left := TryExtractPacket(wire.host, buffer, response);
        if found { return true, response; }
        buffer := left;

        var ready := wire.Poll();
        if !ready { return false, response; }
        var r := wire.Receive();
        match r {
          case Bytes(data) =>
            if data == [] { return false, response; }
            assert before + buffer + data <= before + encoded;
            buffer := buffer + data;
            assert buffer == (before + buffer)[|before|..] && encoded == (before + encoded)[|before|..];
          case RecvFailed(errno) => if errno != EINTR { return false, response; }
        }
      }
    }

    /** SendAndReceive: a call succeeds exactly when there is a socket, or somebody answers the dial, and no
        failure is reported on it; it then returns the peer's answer to this very request.  After any failure
        the socket is closed, so nothing is left for the next caller to trip over. `used` is the socket of
        the call. */
    method SendAndReceive(request: Packet) returns (ok: bool, response: Packet, ghost used: Wire?)
      requires Valid() && Framed(request)
      modifies this, wire
      ensures Valid()
      ensures dials == old(dials) + if old(wire) == null then 1 else 0
      ensures used == null <==> old(wire) == null && peers(old(dials)).None?
      ensures old(wire) != null ==> used == old(wire)
      ensures old(wire) == null && used != null ==> fresh(used) && used.handler == peers(old(dials)).value
      ensures ok <==> used != null && !used.failed
      ensures ok ==> wire == used && asked == old(asked) + [request] && wire.handler(asked) == Some(response)
      ensures !ok ==> wire == null
    {
      hide EncodePacket, Stream, Answers, Drain;
      response := Packet(Header(MAGIC, 1, 0, 0, 0), []);
      ok := EnsureConnected();
      used := wire;
      if !ok { return; }
      ghost var all := asked + [request];
      ghost var answer := wire.handler(all).value;
      ghost var before := wire.taken;
      OneMoreAnswer(host, wire.handler, asked, request, answer);
      ok := WritePacket(request);
      if !ok {
        Close();
        return;
      }
      ok, response := ReadPacket(before, answer);
      if !ok {
        Close();
        return;
      }
      asked := all;
    }
  }
}
