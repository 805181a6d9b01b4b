/**
 The wire format: a 24-byte header of four 32-bit words and one 64-bit word, then the body.  The
 header is copied to and from memory, so what a number's bytes are depends on the host's byte order;
 both orders are modelled.
 */
module Packets {
  import opened Common

  type U32 = x: int | 0 <= x < 0x1_0000_0000
  type U64 = x: int | 0 <= x < 0x1_0000_0000_0000_0000

  datatype Host = LittleEndian | BigEndian

  datatype Header = Header(magic: U32, version: U32, msgId: U32, bodyLen: U32, requestId: U64)

  datatype Packet = Packet(header: Header, body: seq<Byte>)

  const MAGIC: U32 := 0x4D47424B
  const HEADER_SIZE := 24

  // ---- numbers in memory ----

  /** The four bytes of a word, most significant first. */
  function Big32(x: U32): (s: seq<Byte>)
    ensures |s| == 4
  {
    [x / 0x100 / 0x100 / 0x100, x / 0x100 / 0x100 % 0x100, x / 0x100 % 0x100, x % 0x100]
  }

  function FromBig32(s: seq<Byte>): U32
    requires |s| == 4
  {
    ((s[0] as int * 0x100 + s[1]) * 0x100 + s[2]) * 0x100 + s[3]
  }

  function Reverse4(s: seq<Byte>): (r: seq<Byte>)
    requires |s| == 4
    ensures |r| == 4
  {
    [s[3], s[2], s[1], s[0]]
  }

  /** How the host stores a 32-bit word, and how it reads one. */
  function Store32(host: Host, x: U32): (s: seq<Byte>)
    ensures |s| == 4
  {
    if host.BigEndian? then Big32(x) else Reverse4(Big32(x))
  }

  function Load32(host: Host, s: seq<Byte>): U32
    requires |s| == 4
  {
    FromBig32(if host.BigEndian? then s else Reverse4(s))
  }

  function High(x: U64): U32 { x / 0x1_0000_0000 }

  function Low(x: U64): U32 { x % 0x1_0000_0000 }

  function Join(high: U32, low: U32): U64 { high * 0x1_0000_0000 + low }

  function Store64(host: Host, x: U64): (s: seq<Byte>)
    ensures |s| == 8
  {
    if host.BigEndian? then Store32(host, High(x)) + Store32(host, Low(x))
    else Store32(host, Low(x)) + Store32(host, High(x))
  }

  function Load64(host: Host, s: seq<Byte>): U64
    requires |s| == 8
  {
    if host.BigEndian? then Join(Load32(host, s[..4]), Load32(host, s[4..]))
    else Join(Load32(host, s[4..]), Load32(host, s[..4]))
  }

  /** htonl, and ntohl, which is the same function. */
  function Htonl(host: Host, x: U32): U32
  {
    if host.BigEndian? then x else FromBig32(Reverse4(Big32(x)))
  }

  /** HostToNetwork64 and NetworkToHost64: convert each half and exchange the halves, on every host. */
  function SwapHalves(host: Host, x: U64): U64
  {
    Join(Htonl(host, Low(x)), Htonl(host, High(x)))
  }

  lemma Big32RoundTrip(x: U32)
    ensures FromBig32(Big32(x)) == x
  {
  }

  lemma Big32Onto(s: seq<Byte>)
    requires |s| == 4
    ensures Big32(FromBig32(s)) == s
  {
    var x := FromBig32(s);
    assert x % 0x100 == s[3] && x / 0x100 == (s[0] as int * 0x100 + s[1]) * 0x100 + s[2];
    assert x / 0x100 % 0x100 == s[2] && x / 0x100 / 0x100 == s[0] as int * 0x100 + s[1];
  }

  lemma HtonlTwice(host: Host, x: U32)
    ensures Htonl(host, Htonl(host, x)) == x
  {
    if host.LittleEndian? {
      Big32Onto(Reverse4(Big32(x)));
      Big32RoundTrip(x);
    }
  }

  /** After htonl a word lies in memory most significant byte first, whatever the host. */
  lemma StoredHtonl(host: Host, x: U32)
    ensures Store32(host, Htonl(host, x)) == Big32(x)
  {
    if host.LittleEndian? {
      Big32Onto(Reverse4(Big32(x)));
    }
  }

  lemma Load32Stored(host: Host, x: U32)
    ensures Load32(host, Store32(host, x)) == x
  {
    Big32RoundTrip(x);
  }

  lemma JoinHalves(high: U32, low: U32)
    ensures High(Join(high, low)) == high && Low(Join(high, low)) == low
  {
  }

  lemma SwapHalvesTwice(host: Host, x: U64)
    ensures SwapHalves(host, SwapHalves(host, x)) == x
  {
    JoinHalves(Htonl(host, Low(x)), Htonl(host, High(x)));
    HtonlTwice(host, Low(x));
    HtonlTwice(host, High(x));
  }

  lemma Load64Stored(host: Host, x: U64)
    ensures Load64(host, Store64(host, x)) == x
  {
    Load32Stored(host, High(x));
    Load32Stored(host, Low(x));
    assert Store64(host, x)[..4] + Store64(host, x)[4..] == Store64(host, x);
    assert Store64(host, x)[..4] == if host.BigEndian? then Store32(host, High(x)) else Store32(host, Low(x));
    assert Store64(host, x)[4..] == if host.BigEndian? then Store32(host, Low(x)) else Store32(host, High(x));
  }

  // ---- encoding ----

  /** EncodePacket: the header after conversion, as it lies in memory, then the body. */
  function EncodeHeader(host: Host, h: Header): (s: seq<Byte>)
    ensures |s| == HEADER_SIZE
  {
    Store32(host, Htonl(host, h.magic)) + Store32(host, Htonl(host, h.version)) +
    Store32(host, Htonl(host, h.msgId)) + Store32(host, Htonl(host, h.bodyLen)) +
    Store64(host, SwapHalves(host, h.requestId))
  }

  function EncodePacket(host: Host, p: Packet): (s: seq<Byte>)
    ensures |s| == HEADER_SIZE + |p.body|
  {
    EncodeHeader(host, p.header) + p.body
  }

  function DecodeHeader(host: Host, s: seq<Byte>): Header
    requires |s| == HEADER_SIZE
  {
    Header(Htonl(host, Load32(host, s[0..4])), Htonl(host, Load32(host, s[4..8])), Htonl(host, Load32(host, s[8..12])),
           Htonl(host, Load32(host, s[12..16])), SwapHalves(host, Load64(host, s[16..24])))
  }

  /** Where the five fields of an encoded header lie. */
  lemma HeaderLayout(host: Host, h: Header)
    ensures var s := EncodeHeader(host, h);
            && s[0..4] == Store32(host, Htonl(host, h.magic)) && s[4..8] == Store32(host, Htonl(host, h.version))
            && s[8..12] == Store32(host, Htonl(host, h.msgId)) && s[12..16] == Store32(host, Htonl(host, h.bodyLen))
            && s[16..24] == Store64(host, SwapHalves(host, h.requestId))
  {
    hide Store32, Store64, Htonl, SwapHalves;
  }

  /** Every header survives encoding and decoding on the same host, for the full range of all fields. */
  lemma HeaderRoundTrip(host: Host, h: Header)
    ensures DecodeHeader(host, EncodeHeader(host, h)) == h
  {
    hide Store32, Load32, Store64, Load64, Htonl, SwapHalves, EncodeHeader;
    HeaderLayout(host, h);
    Load32Stored(host, Htonl(host, h.magic));
    Load32Stored(host, Htonl(host, h.version));
    Load32Stored(host, Htonl(host, h.msgId));
    Load32Stored(host, Htonl(host, h.bodyLen));
    Load64Stored(host, SwapHalves(host, h.requestId));
    HtonlTwice(host, h.magic);
    HtonlTwice(host, h.version);
    HtonlTwice(host, h.msgId);
    HtonlTwice(host, h.bodyLen);
    SwapHalvesTwice(host, h.requestId);
  }

  /** The header in network order, as a little-endian host writes it. */
  function NetworkHeader(h: Header): seq<Byte>
  {
    Big32(h.magic) + Big32(h.version) + Big32(h.msgId) + Big32(h.bodyLen)
    + Big32(High(h.requestId)) + Big32(Low(h.requestId))
  }

  /** The request id on the wire: most significant half first from a little-endian host, last from the other. */
  lemma StoredId(host: Host, id: U64)
    ensures Store64(host, SwapHalves(host, id)) ==
              if host.LittleEndian? then Big32(High(id)) + Big32(Low(id)) else Big32(Low(id)) + Big32(High(id))
  {
    hide Store32, Big32, Htonl;
    JoinHalves(Htonl(host, Low(id)), Htonl(host, High(id)));
    StoredHtonl(host, High(id));
    StoredHtonl(host, Low(id));
  }

  lemma EncodedFields(host: Host, h: Header)
    ensures EncodeHeader(host, h) ==
              Big32(h.magic) + Big32(h.version) + Big32(h.msgId) + Big32(h.bodyLen)
              + Store64(host, SwapHalves(host, h.requestId))
  {
    hide Store32, Big32, Htonl, Store64, SwapHalves;
    StoredHtonl(host, h.magic);
    StoredHtonl(host, h.version);
    StoredHtonl(host, h.msgId);
    StoredHtonl(host, h.bodyLen);
  }

  /** A little-endian host puts every field on the wire in network order.  A big-endian host writes the
      two halves of the request id the other way round, so the two agree exactly on request ids whose
      halves are equal. */
  lemma WireOrder(h: Header)
    ensures EncodeHeader(LittleEndian, h) == NetworkHeader(h)
    ensures EncodeHeader(BigEndian, h) == NetworkHeader(h) <==> High(h.requestId) == Low(h.requestId)
  {
    hide EncodeHeader, Store64, SwapHalves, Big32, FromBig32, High, Low;
    var id := h.requestId;
    var front, high, low := Big32(h.magic) + Big32(h.version) + Big32(h.msgId) + Big32(h.bodyLen),
                            Big32(High(id)), Big32(Low(id));
    EncodedFields(LittleEndian, h);
    EncodedFields(BigEndian, h);
    StoredId(LittleEndian, id);
    StoredId(BigEndian, id);
    Regroup(front, high, low);
    assert EncodeHeader(BigEndian, h)[16..20] == low && NetworkHeader(h)[16..20] == high;
    Big32RoundTrip(High(id));
    Big32RoundTrip(Low(id));
  }

  // ---- extraction ----

  /** A packet whose header tells the truth about it. */
  predicate Framed(p: Packet)
  {
    p.header.magic == MAGIC && p.header.bodyLen == |p.body|
  }

  datatype Extraction = Incomplete | BadMagic | Found(packet: Packet, rest: seq<Byte>)

  function Extract(host: Host, buffer: seq<Byte>): (r: Extraction)
    ensures r.Found? ==> |buffer| == HEADER_SIZE + |r.packet.body| + |r.rest|
  {
    if |buffer| < HEADER_SIZE then Incomplete
    else
      var h := DecodeHeader(host, buffer[..HEADER_SIZE]);
      if h.magic != MAGIC then BadMagic
      else if |buffer| < HEADER_SIZE + h.bodyLen then Incomplete
      else Found(Packet(h, buffer[HEADER_SIZE..HEADER_SIZE + h.bodyLen]), buffer[HEADER_SIZE + h.bodyLen..])
  }

  lemma Store32Loaded(host: Host, s: seq<Byte>)
    requires |s| == 4
    ensures Store32(host, Load32(host, s)) == s
  {
    Big32Onto(if host.BigEndian? then s else Reverse4(s));
  }

  lemma Store64Loaded(host: Host, s: seq<Byte>)
    requires |s| == 8
    ensures Store64(host, Load64(host, s)) == s
  {
    Store32Loaded(host, s[..4]);
    Store32Loaded(host, s[4..]);
    var first, second := Load32(host, s[..4]), Load32(host, s[4..]);
    JoinHalves(first, second);
    JoinHalves(second, first);
    assert s == s[..4] + s[4..];
  }

  /** Any 24 bytes are the encoding of the header they decode to. */
  lemma HeaderOnto(host: Host, s: seq<Byte>)
    requires |s| == HEADER_SIZE
    ensures EncodeHeader(host, DecodeHeader(host, s)) == s
  {
    hide Store32, Load32, Store64, Load64, Htonl, SwapHalves;
    Store32Loaded(host, s[0..4]);
    Store32Loaded(host, s[4..8]);
    Store32Loaded(host, s[8..12]);
    Store32Loaded(host, s[12..16]);
    Store64Loaded(host, s[16..24]);
    HtonlTwice(host, Load32(host, s[0..4]));
    HtonlTwice(host, Load32(host, s[4..8]));
    HtonlTwice(host, Load32(host, s[8..12]));
    HtonlTwice(host, Load32(host, s[12..16]));
    SwapHalvesTwice(host, Load64(host, s[16..24]));
    assert s == s[0..4] + s[4..8] + s[8..12] + s[12..16] + s[16..24];
  }

  /** A whole header has arrived and its first four bytes are not the magic in network order. */
  predicate WrongMagic(buffer: seq<Byte>)
  {
    |buffer| >= HEADER_SIZE && FromBig32(buffer[..4]) != MAGIC
  }

  /** Both byte orders agree on which headers carry the magic. */
  lemma BadMagicOnTheWire(host: Host, buffer: seq<Byte>)
    ensures Extract(host, buffer).BadMagic? <==> WrongMagic(buffer)
  {
    if |buffer| >= HEADER_SIZE {
      var s := buffer[..HEADER_SIZE][0..4];
      assert s == buffer[..4];
      assert Htonl(host, Load32(host, s)) == FromBig32(s) by {
        if host.LittleEndian? { Big32Onto(Reverse4(s)); }
      }
    }
  }

  /** What extraction does to the encoding of any packet with the right magic, truthful or not. */
  lemma ExtractEncoded(host: Host, p: Packet, rest: seq<Byte>)
    requires p.header.magic == MAGIC
    ensures Extract(host, EncodePacket(host, p) + rest) ==
              if |p.body + rest| < p.header.bodyLen then Incomplete
              else Found(Packet(p.header, (p.body + rest)[..p.header.bodyLen]), (p.body + rest)[p.header.bodyLen..])
  {
    hide EncodeHeader, DecodeHeader;
    var s := EncodePacket(host, p) + rest;
    assert s[..HEADER_SIZE] == EncodeHeader(host, p.header);
    assert s[HEADER_SIZE..] == p.body + rest;
    HeaderRoundTrip(host, p.header);
    if |p.body + rest| >= p.header.bodyLen {
      assert s[HEADER_SIZE..HEADER_SIZE + p.header.bodyLen] == (p.body + rest)[..p.header.bodyLen];
      assert s[HEADER_SIZE + p.header.bodyLen..] == (p.body + rest)[p.header.bodyLen..];
    }
  }

  /** Extraction succeeds exactly on buffers that start with the encoding of a framed packet, and
      then takes exactly that encoding away. */
  lemma ExtractExactly(host: Host, buffer: seq<Byte>, p: Packet, rest: seq<Byte>)
    ensures Extract(host, buffer) == Found(p, rest) <==> Framed(p) && buffer == EncodePacket(host, p) + rest
  {
    hide EncodeHeader, DecodeHeader;
    if Framed(p) && buffer == EncodePacket(host, p) + rest {
      ExtractEncoded(host, p, rest);
      assert (p.body + rest)[..|p.body|] == p.body && (p.body + rest)[|p.body|..] == rest;
    }
    if Extract(host, buffer) == Found(p, rest) {
      HeaderOnto(host, buffer[..HEADER_SIZE]);
      assert buffer == buffer[..HEADER_SIZE] + p.body + rest;
    }
  }

  /** A packet with the right magic comes back from its own encoding, whatever follows, exactly when its
      header states the length of its body. */
  lemma PacketRoundTrip(host: Host, p: Packet)
    requires p.header.magic == MAGIC
    ensures (forall rest: seq<Byte> :: Extract(host, EncodePacket(host, p) + rest) == Found(p, rest))
       <==> p.header.bodyLen == |p.body|
  {
    hide EncodePacket, Extract;
    if p.header.bodyLen == |p.body| {
      forall rest: seq<Byte> ensures Extract(host, EncodePacket(host, p) + rest) == Found(p, rest) {
        ExtractExactly(host, EncodePacket(host, p) + rest, p, rest);
      }
    } else {
      ExtractExactly(host, EncodePacket(host, p) + [], p, []);
      assert Extract(host, EncodePacket(host, p) + []) != Found(p, []);
    }
  }

  /** TryExtractPacket: the buffer loses an extracted packet, and everything when the magic is wrong. */
  method TryExtractPacket(host: Host, buffer: seq<Byte>, into: Packet)
    returns (found: bool, packet: Packet, left: seq<Byte>)
    ensures found ==> Framed(packet) && buffer == EncodePacket(host, packet) + left
    ensures !found ==> packet == into && forall p, rest :: !(Framed(p) && buffer == EncodePacket(host, p) + rest)
    ensures !found ==> left == if WrongMagic(buffer) then [] else buffer
    ensures found <==> Extract(host, buffer) == Found(packet, left)
    ensures !found ==> Extract(host, buffer) == if WrongMagic(buffer) then BadMagic else Incomplete
  {
    found, packet, left := false, into, buffer;
    BadMagicOnTheWire(host, buffer);
    if |buffer| >= HEADER_SIZE {
      var header := DecodeHeader(host, buffer[..HEADER_SIZE]);
      if header.magic != MAGIC {
        left := [];
      } else {
        var total := HEADER_SIZE + header.bodyLen;
        if |buffer| >= total {
          packet := Packet(header, buffer[HEADER_SIZE..total]);
          left := buffer[total..];
          found := true;
          ExtractExactly(host, buffer, packet, left);
        }
      }
    }
    if !found {
      forall p, rest ensures !(Framed(p) && buffer == EncodePacket(host, p) + rest) {
        ExtractExactly(host, buffer, p, rest);
      }
    }
  }
}
