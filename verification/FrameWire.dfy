/** QUIC frames byte by byte (section 19 of RFC 9000): what `Frame::from_bytes` makes of
    bytes put together field by field, without the encoder. */
module FramesOnTheWire {
  import opened Base
  import opened Codec
  import opened Ranges
  import opened PacketTypes
  import opened Frames

  /** The eight STREAM types: which fields are present, and whether the stream ends. */
  function StreamType(off: bool, len: bool, fin: bool): nat
  {
    0x08 + (if off then 4 else 0) + (if len then 2 else 0) + (if fin then 1 else 0)
  }

  function StreamBytes(off: bool, len: bool, fin: bool, id: nat, offset: nat, length: nat, tail: Bytes): Bytes
    requires V(id) && V(offset) && V(length)
  {
    var afterOffset := if len then WriteVarint(length, tail) else tail;
    var afterId := if off then WriteVarint(offset, afterOffset) else afterOffset;
    WriteVarint(StreamType(off, len, fin), WriteVarint(id, afterId))
  }

  /** Every STREAM frame, whichever fields it carries: without an offset it starts the stream,
      without a length it takes all that is left. */
  lemma StreamOnTheWire(off: bool, len: bool, fin: bool, id: nat, offset: nat, data: Bytes, rest: Bytes,
                        pkt: PacketType)
    requires V(id) && V(offset) && V(|data|) && pkt in {ZeroRTT, OneRTT}
    requires (!off ==> offset == 0) && (!len ==> rest == [])
    requires offset + |data| < MAX_STREAM_SIZE
    ensures Decode(StreamBytes(off, len, fin, id, offset, |data|, data + rest), pkt)
         == Ok((Stream(id, offset, |data|, fin, data), rest))
  {
    hide WriteVarint; hide ReadVarint; hide EncodeVarintLen; hide Read; hide ReadBody;
    var tail := data + rest;
    TypeBits(off, len, fin);
    TakesData(data, rest);
    StreamFields(off, len, fin, id, offset, |data|, tail);
    StreamBody(StreamType(off, len, fin), off, len, fin, id, offset, |data|, tail);
  }

  /** A STREAM frame whose end would pass the limit is refused, and one that announces more
      data than there is is too short. */
  lemma BadStreamOnTheWire(off: bool, fin: bool, id: nat, offset: nat, length: nat, tail: Bytes, pkt: PacketType)
    requires V(id) && V(offset) && V(length) && (!off ==> offset == 0)
    ensures offset + length >= MAX_STREAM_SIZE ==>
      Decode(StreamBytes(off, true, fin, id, offset, length, tail), pkt) == Err(FrameEncodingError)
    ensures offset + length < MAX_STREAM_SIZE && length > |tail| ==>
      Decode(StreamBytes(off, true, fin, id, offset, length, tail), pkt) == Err(BufferTooShort)
  {
    hide WriteVarint; hide ReadVarint; hide EncodeVarintLen; hide ReadBody;
    TypeBits(off, true, fin);
    StreamFields(off, true, fin, id, offset, length, tail);
    StreamBody(StreamType(off, true, fin), off, true, fin, id, offset, length, tail);
  }

  lemma TypeBits(off: bool, len: bool, fin: bool)
    ensures
      var t := StreamType(off, len, fin);
      0x08 <= t <= 0x0f && (t / 4 % 2 == 1 <==> off) && (t / 2 % 2 == 1 <==> len) && (t % 2 == 1 <==> fin)
  {
  }

  lemma TakesData(data: Bytes, rest: Bytes)
    ensures Read(data + rest, |data|) == Ok((data, rest))
  {
    assert (data + rest)[..|data|] == data;
  }

  /** What follows the type of a STREAM frame. */
  function AfterType(off: bool, len: bool, id: nat, offset: nat, length: nat, tail: Bytes): Bytes
    requires V(id) && V(offset) && V(length)
  {
    var afterOffset := if len then WriteVarint(length, tail) else tail;
    WriteVarint(id, if off then WriteVarint(offset, afterOffset) else afterOffset)
  }

  lemma StreamFields(off: bool, len: bool, fin: bool, id: nat, offset: nat, length: nat, tail: Bytes)
    requires V(id) && V(offset) && V(length)
    ensures ReadVarint(StreamBytes(off, len, fin, id, offset, length, tail))
         == Ok((StreamType(off, len, fin), AfterType(off, len, id, offset, length, tail)))
  {
    hide WriteVarint; hide ReadVarint; hide EncodeVarintLen;
  }

  lemma StreamBody(t: nat, off: bool, len: bool, fin: bool, id: nat, offset: nat, length: nat, tail: Bytes)
    requires V(id) && V(offset) && V(length) && (!off ==> offset == 0) && (!len ==> length == |tail|)
    requires 0x08 <= t <= 0x0f && (t / 4 % 2 == 1 <==> off) && (t / 2 % 2 == 1 <==> len) && (t % 2 == 1 <==> fin)
    ensures ReadBody(t, AfterType(off, len, id, offset, length, tail)) ==
      if offset + length >= MAX_STREAM_SIZE then Err(FrameEncodingError)
      else if length > |tail| then Err(BufferTooShort)
      else
        var (data, rest) := Read(tail, length).value;
        Ok((Stream(id, offset, length, fin, data), rest))
  {
    hide WriteVarint; hide ReadVarint; hide EncodeVarintLen;
  }

  // -------------------------------------------------------------- fields in a row

  lemma NoFieldsOnTheWire(rest: Bytes)
    ensures Decode(WriteVarint(0x01, rest), OneRTT) == Ok((Ping(None), rest))
    ensures Decode(WriteVarint(0x1e, rest), OneRTT) == Ok((HandshakeDone, rest))
  {
    hide WriteVarint; hide ReadVarint; hide EncodeVarintLen;
  }

  lemma OneIntegerOnTheWire(n: nat, rest: Bytes)
    requires V(n)
    ensures Decode(WriteVarint(0x10, WriteVarint(n, rest)), OneRTT) == Ok((MaxData(n), rest))
    ensures Decode(WriteVarint(0x12, WriteVarint(n, rest)), OneRTT) == Ok((MaxStreams(true, n), rest))
    ensures Decode(WriteVarint(0x13, WriteVarint(n, rest)), OneRTT) == Ok((MaxStreams(false, n), rest))
    ensures Decode(WriteVarint(0x14, WriteVarint(n, rest)), OneRTT) == Ok((DataBlocked(n), rest))
    ensures Decode(WriteVarint(0x16, WriteVarint(n, rest)), OneRTT) == Ok((StreamsBlocked(true, n), rest))
    ensures Decode(WriteVarint(0x17, WriteVarint(n, rest)), OneRTT) == Ok((StreamsBlocked(false, n), rest))
    ensures Decode(WriteVarint(0x19, WriteVarint(n, rest)), OneRTT) == Ok((RetireConnectionId(n), rest))
  {
    hide Decode; hide WriteVarint;
    OneRttDecodes(0x10, n, MaxData(n), rest);
    OneRttDecodes(0x12, n, MaxStreams(true, n), rest);
    OneRttDecodes(0x13, n, MaxStreams(false, n), rest);
    OneRttDecodes(0x14, n, DataBlocked(n), rest);
    OneRttDecodes(0x16, n, StreamsBlocked(true, n), rest);
    OneRttDecodes(0x17, n, StreamsBlocked(false, n), rest);
    OneRttDecodes(0x19, n, RetireConnectionId(n), rest);
  }

  lemma OneRttDecodes(t: nat, n: nat, f: Frame, rest: Bytes)
    requires V(n)
    requires
      || (t == 0x10 && f == MaxData(n)) || (t == 0x12 && f == MaxStreams(true, n))
      || (t == 0x13 && f == MaxStreams(false, n)) || (t == 0x14 && f == DataBlocked(n))
      || (t == 0x16 && f == StreamsBlocked(true, n)) || (t == 0x17 && f == StreamsBlocked(false, n))
      || (t == 0x19 && f == RetireConnectionId(n))
    ensures Decode(WriteVarint(t, WriteVarint(n, rest)), OneRTT) == Ok((f, rest))
  {
    hide WriteVarint; hide ReadVarint; hide EncodeVarintLen;
  }

  lemma TwoIntegersOnTheWire(a: nat, b: nat, rest: Bytes)
    requires V(a) && V(b)
    ensures Decode(WriteVarint(0x05, WriteVarint(a, WriteVarint(b, rest))), OneRTT) == Ok((StopSending(a, b), rest))
    ensures Decode(WriteVarint(0x11, WriteVarint(a, WriteVarint(b, rest))), OneRTT) == Ok((MaxStreamData(a, b), rest))
    ensures Decode(WriteVarint(0x15, WriteVarint(a, WriteVarint(b, rest))), OneRTT)
         == Ok((StreamDataBlocked(a, b), rest))
  {
    hide WriteVarint; hide ReadVarint; hide EncodeVarintLen;
  }

  lemma ThreeIntegersOnTheWire(a: nat, b: nat, c: nat, rest: Bytes)
    requires V(a) && V(b) && V(c)
    ensures Decode(WriteVarint(0x04, WriteVarint(a, WriteVarint(b, WriteVarint(c, rest)))), OneRTT)
         == Ok((ResetStream(a, b, c), rest))
    ensures Decode(WriteVarint(0x15228c06, WriteVarint(a, WriteVarint(b, WriteVarint(c, rest)))), OneRTT)
         == Ok((PathStatus(a, b, c), rest))
  {
    hide WriteVarint; hide ReadVarint; hide EncodeVarintLen;
  }

  /** Frames that carry a byte string with its length in front. */
  lemma LengthAndBytesOnTheWire(a: nat, s: Bytes, rest: Bytes)
    requires V(a) && V(|s|)
    ensures
      var blob := WriteVarint(|s|, s + rest);
      && Decode(WriteVarint(0x06, WriteVarint(a, blob)), OneRTT) == Ok((Crypto(a, |s|, s), rest))
      && Decode(WriteVarint(0x07, blob), OneRTT) == Ok((NewToken(s), rest))
      && Decode(WriteVarint(0x1d, WriteVarint(a, blob)), OneRTT) == Ok((ApplicationClose(a, s), rest))
  {
    hide WriteVarint; hide ReadVarint; hide EncodeVarintLen; hide Read;
    TakesData(s, rest);
  }

  lemma CodesAndBytesOnTheWire(a: nat, b: nat, s: Bytes, rest: Bytes)
    requires V(a) && V(b) && V(|s|)
    ensures
      var blob := WriteVarint(|s|, s + rest);
      && Decode(WriteVarint(0x1c, WriteVarint(a, WriteVarint(b, blob))), OneRTT)
         == Ok((ConnectionClose(a, b, s), rest))
      && Decode(WriteVarint(0x15228c05, WriteVarint(a, WriteVarint(b, blob))), OneRTT)
         == Ok((PathAbandon(a, b, s), rest))
  {
    hide WriteVarint; hide ReadVarint; hide EncodeVarintLen; hide Read;
    TakesData(s, rest);
  }

  /** Frames with byte strings of known size. */
  lemma FixedBytesOnTheWire(n: nat, r: nat, s: Bytes, cid: Bytes, token: Bytes, rest: Bytes)
    requires V(n) && V(r) && |s| == 8 && |cid| <= MAX_CID_LEN && |token| == 16
    ensures Decode(WriteVarint(0x1a, s + rest), OneRTT) == Ok((PathChallenge(s), rest))
    ensures Decode(WriteVarint(0x1b, s + rest), OneRTT) == Ok((PathResponse(s), rest))
    ensures Decode(WriteVarint(0x18, WriteVarint(n, WriteVarint(r, [|cid|] + (cid + (token + rest))))), OneRTT)
         == Ok((NewConnectionId(n, r, cid, token), rest))
  {
    hide WriteVarint; hide ReadVarint; hide EncodeVarintLen; hide Read; hide ReadWithU8Length;
    TakesData(s, rest);
    TakesData(token, rest);
    TakesCid(cid, token + rest);
  }

  lemma TakesCid(cid: Bytes, rest: Bytes)
    requires |cid| <= MAX_CID_LEN
    ensures ReadWithU8Length([|cid|] + (cid + rest)) == Ok((cid, rest)) && Cid(cid) == cid
  {
    var b := [|cid|] + (cid + rest);
    assert b[..1] == [|cid|] && b[1..] == cid + rest;
    assert FromBigEndian([|cid|]) == |cid|;
    TakesData(cid, rest);
  }

  // ------------------------------------------------------------------------- ACKs

  /** An ACK of one range: the largest number, and how many below it. */
  lemma OneRangeOnTheWire(largest: nat, delay: nat, len: nat, rest: Bytes)
    requires V(largest) && V(delay) && len <= largest
    ensures
      var b := WriteVarint(0x02, WriteVarint(largest, WriteVarint(delay, WriteVarint(0, WriteVarint(len, rest)))));
      Decode(b, OneRTT)
        == Ok((Ack(delay, AckRanges(map[largest - len := largest + 1], U64_MAX), None), rest))
  {
    hide WriteVarint; hide ReadVarint; hide EncodeVarintLen; hide Inserted;
    OneInserted(largest - len, largest + 1);
  }

  lemma OneInserted(s: nat, e: nat)
    requires s < e
    ensures InsertAll(map[], Cons(Range(s, e), Nil)) == map[s := e]
  {
    InsertClear(map[], U64_MAX, s, e);
    hide Inserted;
    assert InsertAll(map[s := e], Nil) == map[s := e];
  }

  /** A second range, `gap + 1` missing numbers further down, and the ECN counts of the other
      ACK type. */
  lemma TwoRangesOnTheWire(largest: nat, delay: nat, len: nat, gap: nat, more: nat, e0: nat, e1: nat, ce: nat,
                           rest: Bytes)
    requires V(largest) && V(delay) && V(e0) && V(e1) && V(ce) && len + gap + 2 + more <= largest
    ensures
      var b := WriteVarint(0x03, WriteVarint(largest, WriteVarint(delay, WriteVarint(1, WriteVarint(len,
        WriteVarint(gap, WriteVarint(more, WriteVarint(e0, WriteVarint(e1, WriteVarint(ce, rest))))))))));
      var top := largest - len - gap - 2;
      Decode(b, OneRTT)
        == Ok((Ack(delay, AckRanges(map[largest - len := largest + 1, top - more := top + 1], U64_MAX),
                   Some(EcnCounts(e0, e1, ce))), rest))
  {
    hide WriteVarint; hide ReadVarint; hide EncodeVarintLen; hide Inserted; hide InsertAll;
    var smallest := largest - len;
    var top := smallest - gap - 2;
    var behind := WriteVarint(e0, WriteVarint(e1, WriteVarint(ce, rest)));
    assert ReadEcn(3, behind) == Ok((Some(EcnCounts(e0, e1, ce)), rest));
    OnePairReads(smallest, gap, more, behind);
    hide ReadEcn; hide ReadAckPairs;
    var ranges := Cons(Range(smallest, largest + 1), Cons(Range(top - more, top + 1), Nil));
    assert ReadAck(3, WriteVarint(largest, WriteVarint(delay, WriteVarint(1, WriteVarint(len,
      WriteVarint(gap, WriteVarint(more, behind)))))))
      == Ok((AckFields(delay, ranges, Some(EcnCounts(e0, e1, ce))), rest));
    hide ReadAck;
    TwoInserted(smallest, largest + 1, top - more, top + 1);
  }

  lemma OnePairReads(smallest: nat, gap: nat, more: nat, rest: Bytes)
    requires V(gap) && V(more) && gap + 2 + more <= smallest
    ensures
      var top := smallest - gap - 2;
      ReadAckPairs(1, smallest, WriteVarint(gap, WriteVarint(more, rest)))
        == Ok((Cons(Range(top - more, top + 1), Nil), rest))
  {
    hide WriteVarint; hide ReadVarint; hide EncodeVarintLen;
    assert ReadAckPairs(0, smallest - gap - 2 - more, rest) == Ok((Nil, rest));
  }

  lemma TwoInserted(s: nat, e: nat, s': nat, e': nat)
    requires s' < e' < s < e
    ensures InsertAll(map[], Cons(Range(s, e), Cons(Range(s', e'), Nil))) == map[s := e, s' := e']
  {
    var one: Map := map[s := e];
    InsertClear(map[], U64_MAX, s, e);
    InsertClear(one, U64_MAX, s', e');
    assert |one| == 1;
    hide Inserted; hide Canonical;
    assert InsertAll(map[], Cons(Range(s, e), Cons(Range(s', e'), Nil))) == InsertAll(one, Cons(Range(s', e'), Nil));
    assert InsertAll(one[s' := e'], Nil) == one[s' := e'];
  }

  /** Ranges that would reach below zero are refused. */
  lemma BadAckOnTheWire(largest: nat, delay: nat, count: nat, len: nat, rest: Bytes, pkt: PacketType)
    requires V(largest) && V(delay) && V(count) && V(len) && largest < len
    ensures
      var b := WriteVarint(0x02, WriteVarint(largest, WriteVarint(delay, WriteVarint(count, WriteVarint(len, rest)))));
      Decode(b, pkt) == Err(FrameEncodingError)
  {
    hide WriteVarint; hide ReadVarint; hide EncodeVarintLen;
  }

  // -------------------------------------------------------------------- what is refused

  /** Types without a frame are refused, whatever follows and in every packet. */
  lemma UnknownTypeRefused(t: nat, rest: Bytes, pkt: PacketType)
    requires 0x1e < t <= VINT_MAX && t != 0x15228c05 && t != 0x15228c06
    ensures Decode(WriteVarint(t, rest), pkt) == Err(FrameEncodingError)
  {
    hide WriteVarint; hide ReadVarint; hide EncodeVarintLen;
  }

  /** Initial and Handshake packets carry what the handshake needs and no more; 0-RTT packets
      nothing that answers the peer; 1-RTT packets everything (section 12.4 of RFC 9000, as
      the source has it). */
  lemma PermittedPackets(f: Frame, rest: Bytes)
    requires Encodable(f) && Delimited(f, rest)
    ensures Decode(Encode(f, rest), OneRTT) == Ok((f, rest))
    ensures Decode(Encode(f, rest), ZeroRTT) ==
      if f.Ack? || f.Crypto? || f.HandshakeDone? || f.NewToken? || f.PathResponse? || f.RetireConnectionId?
         || f.ConnectionClose?
      then Err(InvalidPacket) else Ok((f, rest))
    ensures forall pkt | pkt in {Initial, Handshake, Retry, VersionNegotiation} ::
      Decode(Encode(f, rest), pkt) ==
        if f.Paddings? || f.Ping? || f.Ack? || f.Crypto? || f.ConnectionClose? then Ok((f, rest))
        else Err(InvalidPacket)
  {
    hide Decode; hide Encode;
    forall pkt: PacketType
      ensures Decode(Encode(f, rest), pkt) == if ValidFrame(pkt, f) then Ok((f, rest)) else Err(InvalidPacket)
    {
      FrameRoundTrip(f, rest, pkt);
    }
  }
}
