/** Packet headers bit by bit and byte by byte (section 17 of RFC 9000 and section 5.4.1 of
    RFC 9001): which bits protection touches, and what is made of headers put together
    without the encoder. */
module HeadersOnTheWire {
  import opened Base
  import opened Codec
  import opened PacketTypes
  import opened PacketHeaders
  import Bits

  // ------------------------------------------------------------------ protected bits

  /** The bits of a first byte that are protected: four of a long header, five of a short. */
  function ProtectedBitCount(first: byte): nat { if first >= 128 then 4 else 5 }

  /** Protection flips bit `i` of the first byte exactly when that bit of the mask is set and
      is one of the four or five protected ones; packet number byte `j` is xor-ed with mask
      byte `j + 1`; nothing else changes. The mask is that of the sixteen bytes four bytes
      behind the start of the packet number. */
  lemma ProtectFlips(pkt: Bytes, off: nat, pnLen: nat, mask: MaskFunction, i: nat, k: nat)
    requires 1 <= off && 1 <= pnLen <= 4 && off + 4 + 16 <= |pkt| && i < 8 && k < |pkt|
    ensures
      var m := mask(pkt[off + 4..off + 4 + 16]);
      var p := Protect(pkt, off, pnLen, mask);
      && (Bits.Bit(p[0], i) != Bits.Bit(pkt[0], i) <==> Bits.Bit(m[0], i) && i < ProtectedBitCount(pkt[0]))
      && (0 < k ==> p[k] == if off <= k < off + pnLen then Bits.Xor(pkt[k], m[k - off + 1]) else pkt[k])
  {
    hide MaskFirst; hide Bits.Xor;
    MaskFirstFlips(pkt[0], mask(Sample(pkt, off)), i);
  }

  lemma MaskFirstFlips(first: byte, m: Mask, i: nat)
    requires i < 8
    ensures Bits.Bit(MaskFirst(first, m), i) != Bits.Bit(first, i)
       <==> Bits.Bit(m[0], i) && i < ProtectedBitCount(first)
  {
    hide LongHeader; hide XorByte; hide Bits.Xor; hide Bits.Bit;
    LongHeaderIs(first);
    assert Bits.Pow2(4) == 16 && Bits.Pow2(5) == 32;
    var n := ProtectedBitCount(first);
    Bits.BitOfMod(m[0], n, i);
    Bits.BitOfXor(first, m[0] % Bits.Pow2(n), i);
  }

  /** Removing protection flips the same bits, judged by the byte that arrived, and then reads
      the number length from the two low bits and the key phase from the third. A buffer that
      cannot hold the sample is refused. */
  lemma UnprotectFlips(pkt: Bytes, off: nat, h: Header, mask: MaskFunction, i: nat, k: nat)
    requires 1 <= off && i < 8
    ensures Unprotect(pkt, off, h, mask, false).Err? <==> |pkt| < off + 4 + 16
    ensures Unprotect(pkt, off, h, mask, false).Ok? && k < |pkt| ==>
      var m := mask(pkt[off + 4..off + 4 + 16]);
      var (clear, r) := Unprotect(pkt, off, h, mask, false).value;
      && |clear| == |pkt|
      && (Bits.Bit(clear[0], i) != Bits.Bit(pkt[0], i) <==> Bits.Bit(m[0], i) && i < ProtectedBitCount(pkt[0]))
      && (0 < k ==> clear[k] == if off <= k < off + r.pktNumLen then Bits.Xor(pkt[k], m[k - off + 1]) else pkt[k])
      && FieldsOf(clear, off, h, r)
  {
    hide MaskFirst; hide Bits.Xor; hide FieldsOf;
    if off + 20 <= |pkt| {
      var m := mask(Sample(pkt, off));
      MaskFirstFlips(pkt[0], m, i);
      RevealReads(Unprotect(pkt, off, h, mask, false).value.0, off, h);
    }
  }

  /** Without protection the packet is left alone, and four bytes behind the header suffice. */
  lemma PlaintextReads(pkt: Bytes, off: nat, h: Header, mask: MaskFunction)
    requires 1 <= off
    ensures
      var u := Unprotect(pkt, off, h, mask, true);
      && (u.Err? <==> |pkt| < off + 4)
      && (u.Ok? ==> u.value.0 == pkt && FieldsOf(pkt, off, h, u.value.1))
  {
    hide FieldsOf;
    if off + 4 <= |pkt| { RevealReads(pkt, off, h); }
  }

  /** The fields `r` of a header `h` read off an unprotected packet. */
  predicate FieldsOf(clear: Bytes, off: nat, h: Header, r: Header)
    requires off + 4 <= |clear|
  {
    var len := 1 + (if Bits.Bit(clear[0], 0) then 1 else 0) + (if Bits.Bit(clear[0], 1) then 2 else 0);
    r == h.(pktNumLen := len,
            pktNum := FromBigEndian(clear[off..off + len]),
            keyPhase := if h.pktType.OneRTT? then Bits.Bit(clear[0], 2) else h.keyPhase)
  }

  lemma RevealReads(clear: Bytes, off: nat, h: Header)
    requires off + 4 <= |clear|
    ensures FieldsOf(clear, off, h, Reveal(clear, off, h))
  {
    hide FromBigEndian;
    LowBitsOf(clear[0]);
  }

  lemma LowBitsOf(first: byte)
    ensures first % 4 == (if Bits.Bit(first, 0) then 1 else 0) + (if Bits.Bit(first, 1) then 2 else 0)
    ensures Bits.Bit(first, 2) <==> first / 4 % 2 == 1
  {
    hide Bits.Bit;
    Bits.BitStep(first, 0);
    Bits.BitStep(first, 1);
    Bits.BitStep(first / 2, 0);
    Bits.BitOfFourth(first, 0);
    Bits.BitStep(first / 4, 0);
  }

  // ------------------------------------------------------------------- headers written

  /** The first byte of each header: form, fixed bit, type or key phase, and number length. */
  lemma FirstByteWritten(h: Header, rest: Bytes)
    requires Encodable(h) && !h.pktType.VersionNegotiation?
    ensures EncodeHeader(h, rest).Ok? && EncodeHeader(h, rest).value != []
    ensures
      var low := if h.pktNumLen == 0 then 0 else h.pktNumLen - 1;
      EncodeHeader(h, rest).value[0] ==
        match h.pktType
        case OneRTT => (if h.keyPhase then 0x44 else 0x40) + low
        case Initial => 0xC0 + low
        case ZeroRTT => 0xD0 + low
        case Handshake => 0xE0 + low
        case _ => 0xF0 + low
  {
    hide AfterFirst;
  }

  // ---------------------------------------------------------------------- headers read

  /** A connection ID with its length in front: more than 20 bytes are refused in version 1. */
  lemma CidReads(cid: Bytes, rest: Bytes, version: nat)
    requires |cid| < 256
    ensures ReadCid([|cid|] + (cid + rest), version)
         == if version == 1 && |cid| > 20 then Err(InvalidPacket) else Ok((cid, rest))
  {
    var b := [|cid|] + (cid + rest);
    assert b[..1] == [|cid|] && b[1..] == cid + rest;
    assert FromBigEndian([|cid|]) == |cid|;
    assert (cid + rest)[..|cid|] == cid;
  }

  function LongBytes(first: byte, version: nat, dcid: Bytes, scid: Bytes, tail: Bytes): Bytes
    requires |dcid| < 256 && |scid| < 256
  {
    [first] + (BigEndian(version, 4) + ([|dcid|] + (dcid + ([|scid|] + (scid + tail)))))
  }

  /** The connection IDs of a long header: refused in version 1 if either is longer than 20
      bytes, and kept to 20 bytes in other versions. */
  lemma LongHeaderOnTheWire(first: byte, version: nat, dcid: Bytes, scid: Bytes, tail: Bytes, dcidLen: nat)
    requires 128 <= first && version < 0x1_0000_0000 && |dcid| < 256 && |scid| < 256
    ensures
      var t := TypeOnTheWire(first, version);
      DecodeHeader(LongBytes(first, version, dcid, scid, tail), dcidLen) ==
        if version == 1 && (|dcid| > 20 || |scid| > 20) then Err(InvalidPacket)
        else
          var token := ReadToken(t, tail);
          if token.Err? then Err(token.error)
          else Ok((Header(t, version, Kept(dcid), Kept(scid), 0, 0, token.value.0, false), token.value.1))
  {
    hide LongHeader; hide BigEndian; hide ReadCid; hide ReadToken; hide FromBigEndian; hide Pow256;
    LongHeaderIs(first);
    PacketNumbers4();
    var behind := [|scid|] + (scid + tail);
    var b := LongBytes(first, version, dcid, scid, tail);
    assert b[1..] == BigEndian(version, 4) + ([|dcid|] + (dcid + behind));
    TypeIsOnTheWire(first, version);
    hide TypeOf; hide TypeOnTheWire;
    VersionReads(version, [|dcid|] + (dcid + behind));
    CidReads(dcid, behind, version);
    CidReads(scid, tail, version);
  }

  function Kept(cid: Bytes): Bytes { if |cid| <= 20 then cid else cid[..20] }

  function TypeOnTheWire(first: byte, version: nat): PacketType
  {
    if version == 0 then VersionNegotiation
    else if Bits.Bit(first, 5) then if Bits.Bit(first, 4) then Retry else Handshake
    else if Bits.Bit(first, 4) then ZeroRTT else Initial
  }

  lemma PacketNumbers4()
    ensures Pow256(4) == 0x1_0000_0000
  {
  }

  lemma VersionReads(version: nat, rest: Bytes)
    requires version < 0x1_0000_0000
    ensures ReadUint(BigEndian(version, 4) + rest, 4) == Ok((version, rest))
  {
    hide FromBigEndian; hide BigEndian;
    PacketNumbers4();
    BigEndianExact(version, 4);
    var b := BigEndian(version, 4) + rest;
    assert b[..4] == BigEndian(version, 4) && b[4..] == rest;
  }

  lemma TypeIsOnTheWire(first: byte, version: nat)
    ensures TypeOf(first, version) == TypeOnTheWire(first, version)
  {
    hide Bits.Bit;
    Bits.BitOfFourth(first, 2);
    Bits.BitOfFourth(first / 4, 0);
    Bits.BitOfFourth(first, 3);
    Bits.BitOfFourth(first / 4, 1);
    assert first / 16 == first / 4 / 4;
    var high := first / 16;
    Bits.BitStep(high, 0);
    Bits.BitStep(high, 1);
    Bits.BitStep(high / 2, 0);
  }

  /** The token of an Initial packet has a length in front, and none is read as no token; that
      of a Retry packet is all but the last sixteen bytes, which must be there. */
  lemma TokenOnTheWire(token: Bytes, rest: Bytes, b: Bytes)
    requires |token| <= VINT_MAX
    ensures ReadToken(Initial, WriteVarint(|token|, token + rest))
         == Ok((if token == [] then None else Some(token), rest))
    ensures |rest| == 16 ==> ReadToken(Retry, token + rest) == Ok((Some(token), rest))
    ensures |b| < 16 ==> ReadToken(Retry, b) == Err(InvalidPacket)
    ensures ReadToken(ZeroRTT, b) == ReadToken(Handshake, b) == ReadToken(VersionNegotiation, b) == Ok((None, b))
  {
    hide WriteVarint; hide ReadVarint; hide EncodeVarintLen;
    assert (token + rest)[..|token|] == token && (token + rest)[|token|..] == rest;
  }

  /** A short header is a connection ID of the agreed length behind one byte. */
  lemma ShortHeaderOnTheWire(first: byte, dcid: Bytes, rest: Bytes)
    requires first < 128 && |dcid| <= 20
    ensures DecodeHeader([first] + (dcid + rest), |dcid|)
         == Ok((Header(OneRTT, 0, dcid, [], 0, 0, None, false), rest))
  {
    hide LongHeader;
    LongHeaderIs(first);
    var b := [first] + (dcid + rest);
    assert b[1..] == dcid + rest;
    assert (dcid + rest)[..|dcid|] == dcid;
  }
}
