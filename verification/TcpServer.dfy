/**
 The event-driven server side of the transport: reassembling packets from whatever pieces the kernel
 delivers, queueing encoded answers and pushing them out as far as the kernel accepts them, and giving
 every accepted connection a number of its own.
 */
module TcpServer {
  import opened Common
  import opened Packets

  // ---- draining a buffer ----

  datatype Drained = Drained(packets: seq<Packet>, left: seq<Byte>)

  /** Extract packets until none is left; each takes at least a header's worth of bytes. */
  function Drain(host: Host, buffer: seq<Byte>): Drained
    decreases |buffer|
  {
    match Extract(host, buffer)
    case Incomplete => Drained([], buffer)
    case BadMagic => Drained([], [])
    case Found(p, rest) =>
      var tail := Drain(host, rest);
      Drained([p] + tail.packets, tail.left)
  }

  /** No wrong magic turns up, unless as the very last header. */
  predicate Clean(host: Host, buffer: seq<Byte>)
    decreases |buffer|
  {
    match Extract(host, buffer)
    case Incomplete => true
    case BadMagic => |buffer| == HEADER_SIZE
    case Found(_, rest) => Clean(host, rest)
  }

  /** The encodings of a list of packets, one after the other. */
  function Stream(host: Host, ps: seq<Packet>): seq<Byte>
  {
    if ps == [] then [] else EncodePacket(host, ps[0]) + Stream(host, ps[1..])
  }

  lemma {:induction false} StreamConcat(host: Host, first: seq<Packet>, second: seq<Packet>)
    ensures Stream(host, first + second) == Stream(host, first) + Stream(host, second)
  {
    if first == [] {
      assert first + second == second;
    } else {
      assert (first + second)[1..] == first[1..] + second;
      StreamConcat(host, first[1..], second);
    }
  }

  lemma StreamCons(host: Host, p: Packet, ps: seq<Packet>)
    ensures Stream(host, [p] + ps) == EncodePacket(host, p) + Stream(host, ps)
  {
    assert ([p] + ps)[1..] == ps;
  }

  predicate AllFramed(ps: seq<Packet>)
  {
    forall i :: 0 <= i < |ps| ==> Framed(ps[i])
  }

  /** Draining the encodings of framed packets and an incomplete tail hands over exactly those packets
      and keeps exactly the tail. */
  lemma {:induction false} DrainStream(host: Host, ps: seq<Packet>, tail: seq<Byte>)
    requires AllFramed(ps) && Extract(host, tail).Incomplete?
    ensures Drain(host, Stream(host, ps) + tail) == Drained(ps, tail)
    ensures Clean(host, Stream(host, ps) + tail)
  {
    hide EncodePacket, Extract;
    if ps == [] {
      assert Stream(host, ps) + tail == tail;
    } else {
      var rest := Stream(host, ps[1..]) + tail;
      Regroup(EncodePacket(host, ps[0]), Stream(host, ps[1..]), tail);
      ExtractExactly(host, EncodePacket(host, ps[0]) + rest, ps[0], rest);
      DrainStream(host, ps[1..], tail);
      assert ps == [ps[0]] + ps[1..];
    }
  }

  lemma AccountCons(host: Host, p: Packet, tail: Drained, lost: seq<Byte>)
    ensures Stream(host, [p] + tail.packets) + tail.left + lost
         == EncodePacket(host, p) + (Stream(host, tail.packets) + tail.left + lost)
    ensures Framed(p) && AllFramed(tail.packets) ==> AllFramed([p] + tail.packets)
  {
    hide EncodePacket;
    StreamCons(host, p, tail.packets);
    Regroup(EncodePacket(host, p), Stream(host, tail.packets), tail.left);
    Regroup(EncodePacket(host, p), Stream(host, tail.packets) + tail.left, lost);
  }

  /** What a drain throws away. */
  function Lost(host: Host, buffer: seq<Byte>): seq<Byte>
    decreases |buffer|
  {
    match Extract(host, buffer)
    case Incomplete => []
    case BadMagic => buffer
    case Found(_, rest) => Lost(host, rest)
  }

  /** What is kept is the beginning of a packet still to come. */
  lemma {:induction false} LeftIsIncomplete(host: Host, buffer: seq<Byte>)
    ensures Extract(host, Drain(host, buffer).left).Incomplete?
    ensures Extract(host, buffer).Incomplete? ==> Drain(host, buffer) == Drained([], buffer)
    decreases |buffer|
  {
    assert Extract(host, []).Incomplete?;
    hide Extract;
    var r := Extract(host, buffer);
    if r.Found? { LeftIsIncomplete(host, r.rest); }
  }

  lemma DrainGoesOn(host: Host, buffer: seq<Byte>, p: Packet, rest: seq<Byte>)
    requires Extract(host, buffer) == Found(p, rest)
    ensures Drain(host, buffer) == Drained([p] + Drain(host, rest).packets, Drain(host, rest).left)
    ensures Lost(host, buffer) == Lost(host, rest) && Clean(host, buffer) == Clean(host, rest)
  {
    hide Extract;
  }

  lemma DrainStops(host: Host, buffer: seq<Byte>)
    requires !Extract(host, buffer).Found?
    ensures Drain(host, buffer).packets == [] && Drain(host, buffer).left + Lost(host, buffer) == buffer
  {
    hide Extract;
  }

  /** Bytes are thrown away only because a whole header with the wrong magic had arrived, and then
      everything received is. */
  lemma {:induction false} LostToWrongMagic(host: Host, buffer: seq<Byte>)
    ensures Lost(host, buffer) == [] || (WrongMagic(Lost(host, buffer)) && Drain(host, buffer).left == [])
    decreases |buffer|
  {
    BadMagicOnTheWire(host, buffer);
    hide Extract, WrongMagic;
    var r := Extract(host, buffer);
    if r.Found? { LostToWrongMagic(host, r.rest); }
  }

  /** Every byte is accounted for: it belongs to a framed packet handed over, is kept, or was lost. */
  lemma {:induction false} DrainAccounts(host: Host, buffer: seq<Byte>)
    ensures AllFramed(Drain(host, buffer).packets)
    ensures buffer == Stream(host, Drain(host, buffer).packets) + Drain(host, buffer).left + Lost(host, buffer)
    decreases |buffer|
  {
    assert AllFramed([]) && Stream(host, []) == [];
    hide EncodePacket, Extract, AllFramed, Stream, Drain, Lost;
    var r := Extract(host, buffer);
    if r.Found? {
      DrainGoesOn(host, buffer, r.packet, r.rest);
      ExtractExactly(host, buffer, r.packet, r.rest);
      DrainAccounts(host, r.rest);
      AccountCons(host, r.packet, Drain(host, r.rest), Lost(host, r.rest));
    } else {
      DrainStops(host, buffer);
      Regroup([], Drain(host, buffer).left, Lost(host, buffer));
    }
  }

  function Joined(first: Drained, second: Drained): Drained
  {
    Drained(first.packets + second.packets, second.left)
  }

  lemma WrongMagicStays(host: Host, a: seq<Byte>, b: seq<Byte>)
    requires Extract(host, a).BadMagic?
    ensures Extract(host, a + b).BadMagic? && |a| >= HEADER_SIZE
  {
    hide Extract;
    BadMagicOnTheWire(host, a);
    BadMagicOnTheWire(host, a + b);
    assert (a + b)[..4] == a[..4];
  }

  lemma DrainEnds(host: Host, buffer: seq<Byte>)
    requires !Extract(host, buffer).Found?
    ensures Drain(host, buffer) == Drained([], if Extract(host, buffer).Incomplete? then buffer else [])
    ensures Clean(host, buffer) <==> Extract(host, buffer).Incomplete? || |buffer| == HEADER_SIZE
  {
    hide Extract;
  }

  /** Draining what has arrived and later draining the rest together with the leftover is draining it all. */
  lemma {:induction false} DrainInTwo(host: Host, a: seq<Byte>, b: seq<Byte>)
    requires Clean(host, a + b)
    ensures Clean(host, a) && Clean(host, Drain(host, a).left + b)
    ensures Drain(host, a + b) == Joined(Drain(host, a), Drain(host, Drain(host, a).left + b))
    decreases |a|
  {
    assert Extract(host, []).Incomplete?;
    hide Extract, EncodePacket, Drain, Clean;
    match Extract(host, a)
    case Incomplete =>
      DrainEnds(host, a);
    case BadMagic =>
      WrongMagicStays(host, a, b);
      DrainEnds(host, a);
      DrainEnds(host, a + b);
      DrainEnds(host, []);
      assert a + b == a && [] + b == b == [];
    case Found(p, rest) =>
      DrainGoesOn(host, a, p, rest);
      ExtractExactly(host, a, p, rest);
      Regroup(EncodePacket(host, p), rest, b);
      ExtractExactly(host, a + b, p, rest + b);
      DrainGoesOn(host, a + b, p, rest + b);
      DrainInTwo(host, rest, b);
      Regroup([p], Drain(host, rest).packets, Drain(host, Drain(host, rest).left + b).packets);
  }

  /** One wakeup after another: each drains what was left before and what has just arrived. */
  function Feed(host: Host, left: seq<Byte>, chunks: seq<seq<Byte>>): Drained
    decreases |chunks|
  {
    if chunks == [] then Drained([], left)
    else
      var now := Drain(host, left + chunks[0]);
      Joined(now, Feed(host, now.left, chunks[1..]))
  }

  lemma {:induction false} FeedIsDrain(host: Host, left: seq<Byte>, chunks: seq<seq<Byte>>)
    requires Extract(host, left).Incomplete? && Clean(host, left + Flatten(chunks))
    ensures Feed(host, left, chunks) == Drain(host, left + Flatten(chunks))
    decreases |chunks|
  {
    hide Extract;
    if chunks == [] {
      assert left + Flatten(chunks) == left;
    } else {
      var a, b := left + chunks[0], Flatten(chunks[1..]);
      assert left + Flatten(chunks) == a + b;
      DrainInTwo(host, a, b);
      LeftIsIncomplete(host, a);
      FeedIsDrain(host, Drain(host, a).left, chunks[1..]);
    }
  }

  lemma {:induction false} DirtyLosesAll(host: Host, s: seq<Byte>)
    requires !Clean(host, s)
    ensures |s| > 0 && Drain(host, s).left == [] && Drain(host, s[..|s| - 1]).left == []
    decreases |s|
  {
    BadMagicOnTheWire(host, s);
    hide Extract, EncodePacket;
    match Extract(host, s)
    case BadMagic =>
      BadMagicOnTheWire(host, s[..|s| - 1]);
      assert s[..|s| - 1][..4] == s[..4];
    case Found(p, rest) =>
      hide WrongMagic;
      ExtractExactly(host, s, p, rest);
      DirtyLosesAll(host, rest);
      var shorter := rest[..|rest| - 1];
      assert s[..|s| - 1] == EncodePacket(host, p) + shorter;
      ExtractExactly(host, s[..|s| - 1], p, shorter);
  }

  lemma FeedTwo(host: Host, first: seq<Byte>, last: seq<Byte>)
    requires Drain(host, first).left == [] && |last| == 1
    ensures Flatten([first, last]) == first + last
    ensures Feed(host, [], [first, last]).left == last
  {
    var both, one: seq<seq<Byte>> := [first, last], [last];
    assert both[1..] == one && one[1..] == [];
    assert [] + first == first && [] + last == last;
    assert Drain(host, last) == Drained([], last);
    hide Extract;
    assert Flatten(one) == last;
    assert Feed(host, [], one).left == last;
  }

  /** How a stream is cut into reads is irrelevant exactly when no wrong magic turns up before its last
      24 bytes: the server clears everything it holds at that moment, and how much that is depends on
      the cut. */
  lemma ChunkingIndependentExactly(host: Host, s: seq<Byte>)
    ensures (forall chunks: seq<seq<Byte>> :: Flatten(chunks) == s ==> Feed(host, [], chunks) == Drain(host, s))
       <==> Clean(host, s)
  {
    hide Feed, Drain, Clean, Flatten;
    if Clean(host, s) {
      assert Extract(host, []).Incomplete?;
      forall chunks: seq<seq<Byte>> | Flatten(chunks) == s ensures Feed(host, [], chunks) == Drain(host, s) {
        assert [] + Flatten(chunks) == s;
        FeedIsDrain(host, [], chunks);
      }
    } else {
      DirtyLosesAll(host, s);
      var first, last: seq<Byte> := s[..|s| - 1], [s[|s| - 1]];
      FeedTwo(host, first, last);
      assert Flatten([first, last]) == s;
    }
  }

  /** The promise of the transport: framed packets followed by an incomplete tail, cut up in any way,
      arrive as exactly those packets, and exactly the tail is kept. */
  lemma PacketsArrive(host: Host, ps: seq<Packet>, tail: seq<Byte>, chunks: seq<seq<Byte>>)
    requires AllFramed(ps) && Extract(host, tail).Incomplete?
    requires Flatten(chunks) == Stream(host, ps) + tail
    ensures Feed(host, [], chunks) == Drained(ps, tail)
  {
    hide Drain, Feed, Clean;
    DrainStream(host, ps, tail);
    assert [] + Flatten(chunks) == Flatten(chunks);
    FeedIsDrain(host, [], chunks);
  }

  // ---- the kernel's side of a connection ----

  datatype Errno = EAGAIN | EINTR | Fatal

  datatype Recv = Bytes(data: seq<Byte>) | RecvFailed(errno: Errno)

  datatype Send = Accepts(count: nat) | SendFailed(errno: Errno)

  /** The kernel never accepts more than it is offered. */
  function Limited(r: Send, size: nat): Send
  {
    if r.Accepts? && r.count > size then Accepts(size) else r
  }

  /** Why a round of writes ends. */
  datatype Stop = Emptied | Blocked | Broken

  datatype Flush = Flush(queue: seq<seq<Byte>>, stop: Stop)

  /** What is left of the queue after a round of writes, and why the round ends: the queue is empty, the
      socket would block or took only part of a piece, or the socket failed. */
  function Flushed(queue: seq<seq<Byte>>, writable: seq<Send>): Flush
    decreases |writable|
  {
    if queue == [] then Flush(queue, Emptied)
    else if writable == [] then Flush(queue, Blocked)
    else
      match Limited(writable[0], |queue[0]|)
      case SendFailed(EAGAIN) => Flush(queue, Blocked)
      case SendFailed(EINTR) => Flushed(queue, writable[1..])
      case SendFailed(Fatal) => Flush(queue, Broken)
      case Accepts(count) =>
        if count == |queue[0]| then Flushed(queue[1..], writable[1..])
        else Flush(queue[0 := queue[0][count..]], Blocked)
  }

  /** How many of these reports accept something. */
  function AcceptedIn(writable: seq<Send>): nat
  {
    if writable == [] then 0 else (if writable[0].Accepts? then 1 else 0) + AcceptedIn(writable[1..])
  }

  /** Report i is an interruption, or takes the whole of the piece whose turn it is. */
  predicate TakesOne(queue: seq<seq<Byte>>, writable: seq<Send>, i: nat)
    requires i < |writable|
  {
    match writable[i]
    case SendFailed(errno) => errno.EINTR?
    case Accepts(count) => AcceptedIn(writable[..i]) < |queue| && count >= |queue[AcceptedIn(writable[..i])]|
  }

  /** A round of writes, by position: the first n reports take one piece each, interruptions aside.  Then the
      queue is empty, or nothing more is reported, or report n is EAGAIN, an error, or takes only part of a
      piece; `left` is what remains of the queue. */
  ghost predicate Sends(queue: seq<seq<Byte>>, writable: seq<Send>, n: nat, left: seq<seq<Byte>>, stop: Stop)
  {
    && n <= |writable| && (forall i :: 0 <= i < n ==> TakesOne(queue, writable, i))
    && var k := AcceptedIn(writable[..n]);
       && k <= |queue|
       && if k == |queue| then stop == Emptied && left == []
          else if n == |writable| || writable[n] == SendFailed(EAGAIN) then stop == Blocked && left == queue[k..]
          else if writable[n].SendFailed? then writable[n].errno.Fatal? && stop == Broken && left == queue[k..]
          else writable[n].count < |queue[k]| && stop == Blocked
               && left == [queue[k][writable[n].count..]] + queue[k + 1..]
  }

  /** The reports behind the first one, when that takes a piece or is an interruption. */
  lemma SendsOn(queue: seq<seq<Byte>>, writable: seq<Send>, n: nat, left: seq<seq<Byte>>, stop: Stop)
    requires queue != [] && writable != [] && TakesOne(queue, writable, 0)
    requires Sends(if writable[0].Accepts? then queue[1..] else queue, writable[1..], n, left, stop)
    ensures Sends(queue, writable, n + 1, left, stop)
  {
    var rest, later := if writable[0].Accepts? then queue[1..] else queue, writable[1..];
    forall i | 0 <= i <= n ensures AcceptedIn(writable[..i + 1]) == AcceptedIn(later[..i]) + (|queue| - |rest|) {
      assert writable[..i + 1][1..] == later[..i];
    }
    forall i | 0 <= i < n + 1 ensures TakesOne(queue, writable, i) {
      if i > 0 { assert TakesOne(rest, later, i - 1) && later[i - 1] == writable[i]; }
    }
  }

  /** A round that its first report ends, or that has nothing to do. */
  lemma SendsNone(queue: seq<seq<Byte>>, writable: seq<Send>)
    requires queue == [] || writable == [] || !TakesOne(queue, writable, 0)
    ensures var flush := Flushed(queue, writable); Sends(queue, writable, 0, flush.queue, flush.stop)
  {
    assert writable[..0] == [];
  }

  lemma FlushedOn(queue: seq<seq<Byte>>, writable: seq<Send>)
    requires queue != [] && writable != [] && TakesOne(queue, writable, 0)
    ensures Flushed(queue, writable) == Flushed(if writable[0].Accepts? then queue[1..] else queue, writable[1..])
  {
    assert writable[..0] == [];
  }

  /** What the round leaves is what the reports say, read by position. */
  lemma {:induction false} FlushedSends(queue: seq<seq<Byte>>, writable: seq<Send>) returns (n: nat)
    ensures var flush := Flushed(queue, writable); Sends(queue, writable, n, flush.queue, flush.stop)
    decreases |writable|
  {
    hide Flushed, Sends, TakesOne;
    if queue == [] || writable == [] || !TakesOne(queue, writable, 0) {
      n := 0;
      SendsNone(queue, writable);
    } else {
      FlushedOn(queue, writable);
      n := FlushedSends(if writable[0].Accepts? then queue[1..] else queue, writable[1..]);
      var flush := Flushed(queue, writable);
      SendsOn(queue, writable, n, flush.queue, flush.stop);
      n := n + 1;
    }
  }

  /** A kernel that accepts every piece whole gets the whole queue. */
  lemma {:induction false} WillingTakesAll(queue: seq<seq<Byte>>, writable: seq<Send>)
    requires Willing(writable, queue)
    ensures Flushed(queue, writable) == Flush([], Emptied)
    decreases |queue|
  {
    if queue != [] {
      assert writable[0].Accepts? && writable[0].count >= |queue[0]|;
      WillingTakesAll(queue[1..], writable[1..]);
    }
  }

  /** The kernel is about to accept every queued piece whole. */
  predicate Willing(writable: seq<Send>, queue: seq<seq<Byte>>)
  {
    |queue| <= |writable| && forall i :: 0 <= i < |queue| ==> writable[i].Accepts? && writable[i].count >= |queue[i]|
  }

  /** A non-blocking socket.  `readable` and `writable` are what the kernel is going to report; when
      nothing is left to report it says EAGAIN. */
  class Socket {
    var readable: seq<Recv>
    var writable: seq<Send>
    var wantsWrite: bool // EPOLLOUT is registered
    ghost var received: seq<Byte>
    ghost var sent: seq<Byte>
    ghost var unregistered: bool // epoll_ctl has failed

    constructor (readable: seq<Recv>, writable: seq<Send>)
      ensures this.readable == readable && this.writable == writable && !wantsWrite
      ensures received == [] && sent == [] && !unregistered
    {
      this.readable, this.writable, wantsWrite := readable, writable, false;
      received, sent, unregistered := [], [], false;
    }

    method Receive() returns (r: Recv)
      modifies this`readable, this`received
      ensures old(readable) == [] ==> r == RecvFailed(EAGAIN) && readable == []
      ensures old(readable) != [] ==> r == old(readable)[0] && readable == old(readable)[1..]
      ensures received == old(received) + if r.Bytes? then r.data else []
    {
      if readable == [] {
        r := RecvFailed(EAGAIN);
      } else {
        r, readable := readable[0], readable[1..];
      }
      if r.Bytes? { received := received + r.data; }
    }

    /** The kernel takes a prefix of the data, possibly all of it. */
    method Transmit(data: seq<Byte>) returns (r: Send)
      modifies this`writable, this`sent
      ensures old(writable) == [] ==> r == SendFailed(EAGAIN) && writable == []
      ensures old(writable) != [] ==> writable == old(writable)[1..] && r == Limited(old(writable)[0], |data|)
      ensures r.Accepts? ==> r.count <= |data| && sent == old(sent) + data[..r.count]
      ensures r.SendFailed? ==> sent == old(sent)
    {
      if writable == [] {
        r := SendFailed(EAGAIN);
      } else {
        r, writable := writable[0], writable[1..];
      }
      r := Limited(r, |data|);
      if r.Accepts? { sent := sent + data[..r.count]; }
    }

    method Register(write: bool) returns (ok: bool)
      modifies this`wantsWrite, this`unregistered
      ensures ok ==> wantsWrite == write && unregistered == old(unregistered)
      ensures !ok ==> wantsWrite == old(wantsWrite) && unregistered
    {
      ok := *;
      if ok { wantsWrite := write; } else { unregistered := true; }
    }
  }

  // ---- a connection ----

  /** What a round of reads yields before it blocks, and whether the connection is still good. */
  datatype Arrival = Arrival(data: seq<Byte>, open: bool)

  function Arriving(script: seq<Recv>): Arrival
  {
    if script == [] then Arrival([], true)
    else
      match script[0]
      case Bytes(data) =>
        if data == [] then Arrival([], false)
        else
          var later := Arriving(script[1..]);
          Arrival(data + later.data, later.open)
      case RecvFailed(EAGAIN) => Arrival([], true)
      case RecvFailed(EINTR) => Arriving(script[1..])
      case RecvFailed(Fatal) => Arrival([], false)
  }

  /** The bytes these reports hold, in order. */
  function BytesOf(script: seq<Recv>): seq<Byte>
  {
    if script == [] then [] else (if script[0].Bytes? then script[0].data else []) + BytesOf(script[1..])
  }

  /** Reports that do not end a round of reads. */
  predicate Passes(r: Recv)
  {
    (r.Bytes? && r.data != []) || r == RecvFailed(EINTR)
  }

  /** A round of reads, by position: `data` are the bytes before the first report n that ends the round, and
      the connection is good exactly if nothing ends it but EAGAIN.  An end of stream or an error before the
      socket blocks is the end of the connection. */
  ghost predicate Receives(script: seq<Recv>, n: nat, data: seq<Byte>, open: bool)
  {
    && n <= |script| && (forall i :: 0 <= i < n ==> Passes(script[i])) && (n < |script| ==> !Passes(script[n]))
    && data == BytesOf(script[..n])
    && (open <==> n < |script| ==> script[n] == RecvFailed(EAGAIN))
  }

  lemma {:induction false} ArrivingReceives(script: seq<Recv>) returns (n: nat)
    ensures Receives(script, n, Arriving(script).data, Arriving(script).open)
    decreases |script|
  {
    n := 0;
    assert script[..0] == [];
    if script != [] && Passes(script[0]) {
      n := ArrivingReceives(script[1..]);
      assert script[..n + 1][1..] == script[1..][..n];
      n := n + 1;
    }
  }

  /** Only one round can be read from a script. */
  lemma ReceivesOnce(script: seq<Recv>, n: nat, data: seq<Byte>, open: bool, n': nat, data': seq<Byte>, open': bool)
    requires Receives(script, n, data, open) && Receives(script, n', data', open')
    ensures n == n' && data == data' && open == open'
  {
  }

  /** What the packet handler answers to a packet; it may depend on all packets of the connection so far. */
  type PacketHandler = seq<Packet> -> Option<Packet>

  /** The answers to a list of packets, in order. */
  function Answers(handler: PacketHandler, ps: seq<Packet>): seq<Packet>
  {
    if ps == [] then []
    else
      var r := handler(ps);
      Answers(handler, ps[..|ps| - 1]) + if r.Some? then [r.value] else []
  }

  /** Queueing the encoded answer to one more packet, or nothing, keeps sent and queued bytes in step
      with the answers. */
  lemma AnswerConserved(host: Host, handler: PacketHandler, seen: seq<Packet>, p: Packet, sent: seq<Byte>,
                        queue: seq<seq<Byte>>)
    requires sent + Flatten(queue) == Stream(host, Answers(handler, seen))
    ensures var r := handler(seen + [p]);
            var queue' := if r.Some? then queue + [EncodePacket(host, r.value)] else queue;
            sent + Flatten(queue') == Stream(host, Answers(handler, seen + [p]))
  {
    hide EncodePacket;
    var r := handler(seen + [p]);
    assert (seen + [p])[..|seen|] == seen;
    if r.Some? {
      var encoded := EncodePacket(host, r.value);
      FlattenConcat(queue, [encoded]);
      assert Flatten([encoded]) == encoded;
      Regroup(sent, Flatten(queue), encoded);
      StreamConcat(host, Answers(handler, seen), [r.value]);
      assert Stream(host, [r.value]) == encoded;
    } else {
      assert Answers(handler, seen) + [] == Answers(handler, seen);
    }
  }

  lemma SentWhole(sent: seq<Byte>, queue: seq<seq<Byte>>)
    requires queue != []
    ensures sent + queue[0] + Flatten(queue[1..]) == sent + Flatten(queue)
  {
  }

  lemma SentPart(sent: seq<Byte>, queue: seq<seq<Byte>>, count: nat)
    requires queue != [] && count <= |queue[0]|
    ensures sent + queue[0][..count] + Flatten(queue[0 := queue[0][count..]]) == sent + Flatten(queue)
  {
    assert queue[0] == queue[0][..count] + queue[0][count..];
    Regroup(queue[0][..count], queue[0][count..], Flatten(queue[1..]));
  }

  class Connection {
    const host: Host
    const socket: Socket
    const handler: PacketHandler
    var readBuffer: seq<Byte>
    var writeQueue: seq<seq<Byte>>
    var delivered: seq<Packet> // all the packet handler has been shown, its answers may depend on it

    constructor (host: Host, socket: Socket, handler: PacketHandler)
      requires socket.received == [] && socket.sent == []
      ensures Valid() && Quiescent() && delivered == []
      ensures this.host == host && this.socket == socket && this.handler == handler
    {
      this.host, this.socket, this.handler := host, socket, handler;
      readBuffer, writeQueue, delivered := [], [], [];
    }

    /** Write-side conservation: what the kernel has taken and what is queued are together the encodings
        of all answers to the packets handed over so far; a non-empty queue waits for EPOLLOUT. */
    ghost predicate Valid()
      reads this, socket
    {
      && socket.sent + Flatten(writeQueue) == Stream(host, Answers(handler, delivered))
      && (writeQueue != [] && !socket.unregistered ==> socket.wantsWrite)
    }

    /** Between wakeups the packets handed over and the bytes kept are what one drain of everything
        received would give. */
    ghost predicate Quiescent()
      reads this, socket
    {
      && Extract(host, readBuffer).Incomplete?
      && (Clean(host, socket.received) ==> Drain(host, socket.received) == Drained(delivered, readBuffer))
    }

    /** Queue the encoded answer and ask to be told when the socket is writable. */
    method QueueResponse(p: Packet)
      modifies this`writeQueue, socket`wantsWrite, socket`unregistered
      ensures writeQueue == old(writeQueue) + [EncodePacket(host, p)]
      ensures socket.unregistered || socket.wantsWrite
      ensures old(socket.unregistered) ==> socket.unregistered
    {
      writeQueue := writeQueue + [EncodePacket(host, p)];
      var ok := socket.Register(true);
    }

    /** Hand one packet to the handler and queue its answer, if there is one. */
    method Deliver(p: Packet)
      requires Valid()
      modifies this`writeQueue, this`delivered, socket`wantsWrite, socket`unregistered
      ensures Valid() && delivered == old(delivered) + [p]
    {
      hide EncodePacket, Stream, Answers, Flatten;
      AnswerConserved(host, handler, delivered, p, socket.sent, writeQueue);
      delivered := delivered + [p];
      var response := handler(delivered);
      if response.Some? {
        QueueResponse(response.value);
      }
    }

    /** Receive until the socket blocks.  False when the peer has closed or the socket failed. */
    method ReadAvailable() returns (open: bool, ghost got: seq<Byte>)
      modifies this`readBuffer, socket`readable, socket`received
      ensures exists n: nat :: Receives(old(socket.readable), n, got, open)
      ensures socket.received == old(socket.received) + got && readBuffer == old(readBuffer) + got
    {
      ghost var script := Arriving(socket.readable);
      ghost var n := ArrivingReceives(socket.readable);
      got := [];
      while true
        invariant script == Arrival(got + Arriving(socket.readable).data, Arriving(socket.readable).open)
        invariant socket.received == old(socket.received) + got && readBuffer == old(readBuffer) + got
        decreases |socket.readable|
      {
        var r := socket.Receive();
        assert got + [] == got;
        match r {
          case Bytes(data) =>
            if data == [] { return false, got; }
            readBuffer := readBuffer + data;
            got := got + data;
          case RecvFailed(EAGAIN) => return true, got;
          case RecvFailed(EINTR) =>
          case RecvFailed(Fatal) => return false, got;
        }
      }
    }

    /** HandleRead: receive until the socket blocks, then hand over every complete packet.  When the
        connection is to be closed nothing is handed over, not even packets that are complete. */
    method HandleRead() returns (keep: bool, ghost got: seq<Byte>)
      requires Valid() && Quiescent()
      modifies this, socket`readable, socket`received, socket`wantsWrite, socket`unregistered
      ensures Valid() && exists n: nat :: Receives(old(socket.readable), n, got, keep)
      ensures socket.received == old(socket.received) + got
      ensures !keep ==> delivered == old(delivered) && writeQueue == old(writeQueue)
      ensures keep ==> Quiescent()
      ensures keep ==>
                var now := Drain(host, old(readBuffer) + got);
                delivered == old(delivered) + now.packets && readBuffer == now.left
    {
      hide Extract, EncodePacket, Drain, Clean, Answers, Stream;
      ghost var before, kept := delivered, readBuffer;
      keep, got := ReadAvailable();
      if keep {
        HandOver();
        if Clean(host, socket.received) {
          DrainInTwo(host, old(socket.received), got);
        }
      }
    }

    /** Hand over every complete packet of the buffer. */
    method HandOver()
      requires Valid()
      modifies this, socket`wantsWrite, socket`unregistered
      ensures Valid() && Extract(host, readBuffer).Incomplete?
      ensures delivered == old(delivered) + Drain(host, old(readBuffer)).packets
      ensures readBuffer == Drain(host, old(readBuffer)).left
    {
      hide Extract, EncodePacket, Answers, Stream;
      ghost var all, done: seq<Packet> := Drain(host, readBuffer), [];
      var packet := Packet(Header(MAGIC, 1, 0, 0, 0), []);
      var found := true;
      while found
        invariant Valid() && delivered == old(delivered) + done
        invariant all == Joined(Drained(done, []), Drain(host, readBuffer))
        invariant !found ==> Extract(host, readBuffer).Incomplete? && Drain(host, readBuffer) == Drained([], readBuffer)
        decreases |readBuffer|, found
      {
        ghost var buffer := readBuffer;
        var left;
        found, packet, left := TryExtractPacket(host, readBuffer, packet);
        readBuffer := left;
        if found {
          Deliver(packet);
          done := done + [packet];
        } else {
          LeftIsIncomplete(host, buffer);
          LeftIsIncomplete(host, left);
        }
      }
    }

    /** HandleWrite: send from the front of the queue until it is empty or the socket stops accepting. */
    method HandleWrite() returns (keep: bool, ghost stop: Stop)
      requires Valid()
      modifies this`writeQueue, socket`writable, socket`sent, socket`wantsWrite, socket`unregistered
      ensures Valid() && old(socket.sent) <= socket.sent
      ensures exists n: nat :: Sends(old(writeQueue), old(socket.writable), n, writeQueue, stop)
      ensures (stop.Blocked? ==> keep) && (stop.Broken? ==> !keep)
      ensures stop.Emptied? ==> if keep then !socket.wantsWrite else socket.unregistered
    {
      hide Stream, Answers, Flatten;
      stop := Flushed(writeQueue, socket.writable).stop;
      ghost var n := FlushedSends(writeQueue, socket.writable);
      while writeQueue != []
        invariant Valid() && old(socket.sent) <= socket.sent
        invariant socket.unregistered == old(socket.unregistered)
        invariant Flushed(old(writeQueue), old(socket.writable)) == Flushed(writeQueue, socket.writable)
        decreases |socket.writable|
      {
        var current := writeQueue[0];
        ghost var sent := socket.sent;
        var r := socket.Transmit(current);
        match r {
          case SendFailed(EAGAIN) => return true, stop;
          case SendFailed(EINTR) =>
          case SendFailed(Fatal) => return false, stop;
          case Accepts(count) =>
            if count == |current| {
              assert current[..count] == current;
              SentWhole(sent, writeQueue);
              writeQueue := writeQueue[1..];
            } else {
              SentPart(sent, writeQueue, count);
              writeQueue := writeQueue[0 := current[count..]];
              return true, stop;
            }
        }
      }
      keep := socket.Register(false);
    }
  }

  // ---- the table of connections ----

  datatype Accept = Accepted(fd: int, nonBlocking: bool, registered: bool) | AcceptFailed(errno: Errno)

  /** How many accepts succeed before the first one that fails. */
  function Successes(script: seq<Accept>): (n: nat)
    ensures n <= |script| && (forall i :: 0 <= i < n ==> script[i].Accepted?)
    ensures n < |script| ==> script[n].AcceptFailed?
  {
    if script == [] || script[0].AcceptFailed? then 0 else 1 + Successes(script[1..])
  }

  /** The open connections by descriptor.  Descriptors are reused by the kernel, connection ids are not. */
  class EpollTcpServer {
    var connections: map<int, nat>
    var nextConnectionId: nat

    constructor ()
      ensures Valid() && connections == map[] && nextConnectionId == 1
    {
      connections, nextConnectionId := map[], 1;
    }

    predicate Valid()
      reads this
    {
      && 0 < nextConnectionId
      && (forall fd :: fd in connections ==> 0 < connections[fd] < nextConnectionId)
      && (forall a, b :: a in connections && b in connections && a != b ==> connections[a] != connections[b])
    }

    /** AcceptConnections: open connections stay as they are and new ones get ids never used before. */
    method AcceptConnections(script: seq<Accept>) returns (ok: bool)
      requires Valid()
      modifies this
      ensures Valid() && nextConnectionId >= old(nextConnectionId)
      ensures forall fd :: fd in old(connections) ==> fd in connections && connections[fd] == old(connections)[fd]
      ensures forall fd :: fd in connections && fd !in old(connections) ==>
                connections[fd] >= old(nextConnectionId) && Accepted(fd, true, true) in script
      ensures forall i ::
                0 <= i < Successes(script) && script[i].nonBlocking && script[i].registered ==>
                  script[i].fd in connections
      ensures ok <==> Successes(script) < |script| ==> script[Successes(script)].errno.EAGAIN?
    {
      for i := 0 to |script|
        invariant Valid() && nextConnectionId >= old(nextConnectionId)
        invariant forall fd :: fd in old(connections) ==> fd in connections && connections[fd] == old(connections)[fd]
        invariant forall fd :: fd in connections && fd !in old(connections) ==>
                    connections[fd] >= old(nextConnectionId) && Accepted(fd, true, true) in script
        invariant i <= Successes(script)
        invariant forall j ::
                  0 <= j < i && script[j].nonBlocking && script[j].registered ==> script[j].fd in connections
      {
        match script[i] {
          case AcceptFailed(errno) => return errno.EAGAIN?;
          case Accepted(fd, nonBlocking, registered) =>
            if nonBlocking {
              var id := nextConnectionId;
              nextConnectionId := nextConnectionId + 1;
              if registered && fd !in connections {
                connections := connections[fd := id];
              }
            }
        }
      }
      ok := true;
    }

    /** CloseConnection: the id handed to the disconnect handler is the one this descriptor had, and no
        other connection has it. */
    method CloseConnection(fd: int) returns (disconnected: Option<nat>)
      requires Valid()
      modifies this`connections
      ensures Valid() && connections == old(connections) - {fd}
      ensures disconnected == if fd in old(connections) then Some(old(connections)[fd]) else None
      ensures disconnected.Some? ==> forall other :: other in connections ==> connections[other] != disconnected.value
    {
      if fd !in connections { return None; }
      disconnected := Some(connections[fd]);
      connections := connections - {fd};
    }
  }
}
