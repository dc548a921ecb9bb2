/** Packet headers and header protection (src/packet.rs; section 17 of RFC 9000 and
    section 5.4.1 of RFC 9001). The 5-byte mask is any function of the 16-byte sample. */
module PacketHeaders {
  import opened Base
  import opened Codec
  import opened PacketTypes
  import PacketNumbers
  import Bits

  const MAX_PKT_NUM_LEN: nat := 4
  const SAMPLE_LEN: nat := 16
  const TAG_LEN: nat := 16
  const VERSION_1: nat := 1

  datatype Header = Header(
    pktType: PacketType,
    version: nat,
    dcid: Bytes,
    scid: Bytes,
    pktNumLen: nat,
    pktNum: nat,
    token: Option<Bytes>,
    keyPhase: bool)

  // ------------------------------------------------------------------------ encoding

  /** `first & 0x80 != 0` */
  predicate LongHeader(first: byte) { Bits.And(first, Bits.Pow2(7)) != 0 }

  lemma LongHeaderIs(first: byte)
    ensures LongHeader(first) <==> first >= 128
  {
    Bits.SingleBitMask(first, 7);
    Bits.BitIsParity(first, 7);
    assert Bits.Pow2(7) == 128;
  }

  /** The packet type bits of a long header. */
  function TypeBits(t: PacketType): (r: Result<nat>)
    ensures r.Ok? ==> r.value < 4
  {
    match t
    case Initial => Ok(0)
    case ZeroRTT => Ok(1)
    case Handshake => Ok(2)
    case Retry => Ok(3)
    case _ => Err(InternalError)
  }

  /** The form, fixed, type and key phase bits of the first byte. */
  function HighBits(h: Header): (r: Result<byte>)
    ensures r.Ok? ==> r.value % 4 == 0
  {
    if h.pktType.OneRTT? then Ok(if h.keyPhase then 0x44 else 0x40)
    else
      var t :- TypeBits(h.pktType);
      Ok(0xC0 + t * 16)
  }

  /** Or-ing the packet number length into the free low bits. */
  function WithLow(high: byte, low: nat): (r: byte)
    requires high % 4 == 0 && low < 4
    ensures r == high + low
  {
    Bits.OrHigh(low, high / 4, 2);
    Bits.Or(low, high)
  }

  /** What follows the first byte: the connection IDs, and version and token if long. The
      Length and Packet Number fields are not part of it. */
  function AfterFirst(h: Header, rest: Bytes): Bytes
    requires Encodable(h)
  {
    if h.pktType.OneRTT? then Write(h.dcid, rest)
    else
      WriteUint(h.version, 4,
        WriteUint(|h.dcid|, 1, Write(h.dcid,
          WriteUint(|h.scid|, 1, Write(h.scid, AfterCids(h, rest))))))
  }

  function AfterCids(h: Header, rest: Bytes): Bytes
    requires Encodable(h)
  {
    match h.pktType
    case Initial =>
      if h.token.None? then WriteVarint(0, rest)
      else WriteVarint(|h.token.value|, Write(h.token.value, rest))
    case Retry => Write(h.token.value, rest)
    case _ => rest
  }

  /** `pkt_num_len.saturating_sub(1)` */
  function LowBits(h: Header): nat { if h.pktNumLen == 0 then 0 else h.pktNumLen - 1 }

  /** `PacketHeader::to_bytes` in front of `rest`. */
  function EncodeHeader(h: Header, rest: Bytes): Result<Bytes>
    requires Encodable(h)
  {
    var high :- HighBits(h);
    Ok([WithLow(high, LowBits(h))] + AfterFirst(h, rest))
  }

  /** The field sizes a `PacketHeader` can have; Retry packets carry a token. */
  predicate Encodable(h: Header)
  {
    && h.pktNumLen <= 4 && h.version < 0x1_0000_0000
    && |h.dcid| <= MAX_CID_LEN && |h.scid| <= MAX_CID_LEN
    && (h.token.Some? ==> |h.token.value| <= VINT_MAX)
    && (h.pktType.Retry? ==> h.token.Some?)
  }

  // ------------------------------------------------------------------------ decoding

  function TypeOf(first: byte, version: nat): PacketType
  {
    if version == 0 then VersionNegotiation else
    match first / 16 % 4
    case 0 => Initial
    case 1 => ZeroRTT
    case 2 => Handshake
    case _ => Retry
  }

  function ReadCid(b: Bytes, version: nat): (r: Result<(Bytes, Bytes)>)
  {
    var (k, b1) :- ReadUint(b, 1);
    if version == VERSION_1 && k > MAX_CID_LEN then Err(InvalidPacket) else
    Read(b1, k)
  }

  function ReadToken(t: PacketType, b: Bytes): (r: Result<(Option<Bytes>, Bytes)>)
  {
    match t
    case Initial =>
      var (k, b1) :- ReadVarint(b);
      if k == 0 then Ok((None, b1)) else
      var (token, b2) :- Read(b1, k);
      Ok((Some(token), b2))
    case Retry =>
      if |b| < TAG_LEN then Err(InvalidPacket) else
      var (token, b1) :- Read(b, |b| - TAG_LEN);
      Ok((Some(token), b1))
    case _ => Ok((None, b))
  }

  /** `PacketHeader::from_bytes`: the header and the bytes behind it. */
  function DecodeHeader(b: Bytes, dcidLen: nat): (r: Result<(Header, Bytes)>)
  {
    if b == [] then Err(BufferTooShort) else
    var first, b0 := b[0], b[1..];
    if !LongHeader(first) then
      var (dcid, b1) :- Read(b0, dcidLen);
      Ok((Header(OneRTT, 0, Cid(dcid), [], 0, 0, None, false), b1))
    else DecodeLong(first, b0)
  }

  function DecodeLong(first: byte, b: Bytes): (r: Result<(Header, Bytes)>)
  {
    var (version, b1) :- ReadUint(b, 4);
    var t := TypeOf(first, version);
    var (dcid, b2) :- ReadCid(b1, version);
    var (scid, b3) :- ReadCid(b2, version);
    var (token, b4) :- ReadToken(t, b3);
    Ok((Header(t, version, Cid(dcid), Cid(scid), 0, 0, token, false), b4))
  }

  /** What a receiver can know of `h` before header protection is removed. */
  function Visible(h: Header): Header
  {
    if h.pktType.OneRTT? then Header(OneRTT, 0, h.dcid, [], 0, 0, None, false)
    else h.(pktNumLen := 0, pktNum := 0, keyPhase := false,
            token := if (h.pktType.Initial? && h.token != Some([])) || h.pktType.Retry? then h.token else None)
  }

  /** Parsing the header gives the visible fields and stops right behind it, whatever the
      protected bits of the first byte look like. */
  lemma HeaderRoundTrip(h: Header, first: byte, rest: Bytes)
    requires Encodable(h) && HighBits(h).Ok?
    requires h.pktType.OneRTT? ==> first / 32 == HighBits(h).value / 32
    requires !h.pktType.OneRTT? ==> first / 16 == HighBits(h).value / 16 && h.version != 0
    requires h.pktType.Retry? ==> |rest| == TAG_LEN
    ensures DecodeHeader([first] + AfterFirst(h, rest), |h.dcid|) == Ok((Visible(h), rest))
  {
    hide WriteUint; hide ReadUint; hide WriteVarint; hide ReadVarint; hide Read; hide Write; hide LongHeader;
    var b := AfterFirst(h, rest);
    assert ([first] + b)[1..] == b;
    LongHeaderIs(first);
    if !h.pktType.OneRTT? { LongRoundTrip(h, first, rest); }
  }

  /** The headers that read back as they look: a long header has a version other than 0, and
      a Retry packet is followed by its integrity tag alone. */
  predicate Arrives(h: Header, rest: Bytes)
  {
    && (!h.pktType.OneRTT? ==> h.version != 0)
    && (h.pktType.Retry? ==> |rest| == TAG_LEN)
  }

  /** What the encoder writes parses to the visible fields if and only if it is a header
      that arrives; with version 0 it is taken for Version Negotiation and the parser stops
      behind the connection IDs. Only Version Negotiation itself has no encoding here. */
  lemma EncodedHeaderParses(h: Header, rest: Bytes)
    requires Encodable(h)
    ensures EncodeHeader(h, rest).Err? <==> h.pktType.VersionNegotiation?
    ensures EncodeHeader(h, rest).Ok? ==>
      var r := DecodeHeader(EncodeHeader(h, rest).value, |h.dcid|);
      && (r == Ok((Visible(h), rest)) <==> Arrives(h, rest))
      && (!h.pktType.OneRTT? && h.version == 0 ==>
            r == Ok((Visible(h).(pktType := VersionNegotiation, token := None), AfterCids(h, rest))))
  {
    hide DecodeHeader; hide AfterFirst; hide Encodable; hide AfterCids;
    if !h.pktType.VersionNegotiation? {
      FirstByteForm(h);
      hide HighBits; hide WithLow; hide LowBits;
      var first := WithLow(HighBits(h).value, LowBits(h));
      if Arrives(h, rest) {
        HeaderRoundTrip(h, first, rest);
      } else {
        LongHeaderReads(h, first, rest);
        if h.version != 0 { RetryLost(h, rest); }
      }
    }
  }

  /** Reading a long header, whatever its version and what follows. */
  lemma LongHeaderReads(h: Header, first: byte, rest: Bytes)
    requires Encodable(h) && !h.pktType.OneRTT? && HighBits(h).Ok? && first / 16 == HighBits(h).value / 16
    ensures
      var t := if h.version == 0 then VersionNegotiation else h.pktType;
      var token := ReadToken(t, AfterCids(h, rest));
      DecodeHeader([first] + AfterFirst(h, rest), |h.dcid|) ==
        if token.Err? then Err(token.error)
        else Ok((h.(pktType := t, pktNumLen := 0, pktNum := 0, token := token.value.0, keyPhase := false),
                 token.value.1))
  {
    hide LongHeader; hide AfterFirst; hide DecodeLong; hide ReadToken; hide AfterCids;
    var b := AfterFirst(h, rest);
    assert ([first] + b)[1..] == b;
    LongHeaderIs(first);
    HighForm(h, first);
    hide HighBits;
    LongReads(h, first, rest);
  }

  lemma HighForm(h: Header, first: byte)
    requires !h.pktType.OneRTT? && HighBits(h).Ok? && first / 16 == HighBits(h).value / 16
    ensures first >= 128
  {
  }

  lemma RetryLost(h: Header, rest: Bytes)
    requires Encodable(h) && h.pktType.Retry? && |rest| != TAG_LEN
    ensures ReadToken(Retry, AfterCids(h, rest)).Ok? ==> ReadToken(Retry, AfterCids(h, rest)).value.1 != rest
  {
    hide Write; hide Read;
  }

  lemma FirstByteForm(h: Header)
    requires Encodable(h) && HighBits(h).Ok?
    ensures LowBits(h) < 4
    ensures
      var first := WithLow(HighBits(h).value, LowBits(h));
      first / 16 == HighBits(h).value / 16 && first / 32 == HighBits(h).value / 32
  {
    hide WithLow;
  }

  lemma LongRoundTrip(h: Header, first: byte, rest: Bytes)
    requires Encodable(h) && !h.pktType.OneRTT? && HighBits(h).Ok?
    requires first / 16 == HighBits(h).value / 16 && h.version != 0
    requires h.pktType.Retry? ==> |rest| == TAG_LEN
    ensures DecodeLong(first, AfterFirst(h, rest)) == Ok((Visible(h), rest))
  {
    hide DecodeLong; hide AfterFirst; hide AfterCids; hide ReadToken; hide HighBits;
    TokenRoundTrip(h, rest);
    LongReads(h, first, rest);
  }

  lemma LongReads(h: Header, first: byte, rest: Bytes)
    requires Encodable(h) && !h.pktType.OneRTT? && HighBits(h).Ok? && first / 16 == HighBits(h).value / 16
    ensures
      var t := if h.version == 0 then VersionNegotiation else h.pktType;
      var token := ReadToken(t, AfterCids(h, rest));
      DecodeLong(first, AfterFirst(h, rest)) ==
        if token.Err? then Err(token.error)
        else Ok((h.(pktType := t, pktNumLen := 0, pktNum := 0, token := token.value.0, keyPhase := false),
                 token.value.1))
  {
    hide WriteUint; hide ReadUint; hide Read; hide Write; hide AfterCids; hide ReadToken; hide HighBits; hide Pow256;
    PacketNumbers.WindowSizes();
    TypeSurvives(h, first);
    CidRoundTrip(h.scid, AfterCids(h, rest), h.version);
    CidRoundTrip(h.dcid, WriteUint(|h.scid|, 1, Write(h.scid, AfterCids(h, rest))), h.version);
    hide ReadCid;
  }

  lemma TypeSurvives(h: Header, first: byte)
    requires !h.pktType.OneRTT? && HighBits(h).Ok? && first / 16 == HighBits(h).value / 16
    ensures TypeOf(first, h.version) == if h.version == 0 then VersionNegotiation else h.pktType
  {
  }

  lemma CidRoundTrip(cid: Bytes, rest: Bytes, version: nat)
    requires |cid| <= MAX_CID_LEN
    ensures ReadCid(WriteUint(|cid|, 1, Write(cid, rest)), version) == Ok((cid, rest)) && Cid(cid) == cid
  {
    hide WriteUint; hide ReadUint; hide Read; hide Write; hide Pow256;
    PacketNumbers.WindowSizes();
  }

  lemma TokenRoundTrip(h: Header, rest: Bytes)
    requires Encodable(h) && !h.pktType.OneRTT? && HighBits(h).Ok?
    requires h.pktType.Retry? ==> |rest| == TAG_LEN
    ensures ReadToken(h.pktType, AfterCids(h, rest)) == Ok((Visible(h).token, rest))
  {
    hide WriteVarint; hide ReadVarint;
  }

  // ---------------------------------------------------------------------- protection

  type Mask = m: Bytes | |m| == 5 witness [0, 0, 0, 0, 0]

  /** `aead.new_mask`: any function from samples to masks. */
  type MaskFunction = Bytes -> Mask

  function XorByte(a: byte, b: byte): (r: byte)
    ensures r == Bits.Xor(a, b)
  {
    Bits.XorBound(a, b, 8);
    Bits.Xor(a, b)
  }

  /** The four low bits of a long header, the five low bits of a short one. */
  function MaskFirst(first: byte, m: Mask): byte
  {
    XorByte(first, if LongHeader(first) then m[0] % 16 else m[0] % 32)
  }

  /** The sample starts four bytes after the start of the Packet Number field. */
  function Sample(pkt: Bytes, pnOffset: nat): Bytes
    requires pnOffset + MAX_PKT_NUM_LEN + SAMPLE_LEN <= |pkt|
  {
    pkt[pnOffset + MAX_PKT_NUM_LEN..pnOffset + MAX_PKT_NUM_LEN + SAMPLE_LEN]
  }

  /** The packet with `first` as first byte and the packet number bytes xor-ed with the
      rest of the mask. */
  function Masked(pkt: Bytes, first: byte, pnOffset: nat, pnLen: nat, m: Mask): (r: Bytes)
    requires 1 <= pnOffset && pnLen <= 4 && pnOffset + pnLen <= |pkt|
    ensures |r| == |pkt|
  {
    seq(|pkt|, i requires 0 <= i < |pkt| =>
      if i == 0 then first
      else if pnOffset <= i < pnOffset + pnLen then XorByte(pkt[i], m[i - pnOffset + 1])
      else pkt[i])
  }

  /** The packet with only the packet number bytes xor-ed. */
  function NumberMasked(pkt: Bytes, pnOffset: nat, pnLen: nat, m: Mask): (r: Bytes)
    requires pnLen <= 4 && pnOffset + pnLen <= |pkt|
    ensures |r| == |pkt|
  {
    seq(|pkt|, i requires 0 <= i < |pkt| =>
      if pnOffset <= i < pnOffset + pnLen then XorByte(pkt[i], m[i - pnOffset + 1]) else pkt[i])
  }

  lemma MaskedInTwoSteps(pkt: Bytes, first: byte, pnOffset: nat, pnLen: nat, m: Mask)
    requires 1 <= pnOffset && pnLen <= 4 && pnOffset + pnLen <= |pkt|
    ensures Masked(pkt, first, pnOffset, pnLen, m) == NumberMasked(pkt, pnOffset, pnLen, m)[0 := first]
    ensures pnLen > 0 ==> Masked(pkt, first, pnOffset, pnLen, m) == NumberMasked(pkt[0 := first], pnOffset, pnLen, m)
  {
  }

  function Protect(pkt: Bytes, pnOffset: nat, pnLen: nat, mask: MaskFunction): (r: Bytes)
    requires 1 <= pnOffset && 1 <= pnLen <= 4 && pnOffset + MAX_PKT_NUM_LEN + SAMPLE_LEN <= |pkt|
    ensures |r| == |pkt|
  {
    var m := mask(Sample(pkt, pnOffset));
    Masked(pkt, MaskFirst(pkt[0], m), pnOffset, pnLen, m)
  }

  /** `decrypt_header`: the unprotected packet and the header with the fields that were
      hidden. With `plaintext` nothing is protected and no sample is needed. */
  function Unprotect(pkt: Bytes, pnOffset: nat, h: Header, mask: MaskFunction, plaintext: bool)
    : (r: Result<(Bytes, Header)>)
    requires 1 <= pnOffset
  {
    if |pkt| < pnOffset + MAX_PKT_NUM_LEN + (if plaintext then 0 else SAMPLE_LEN) then Err(BufferTooShort)
    else if plaintext then Ok((pkt, Reveal(pkt, pnOffset, h)))
    else
      var m := mask(Sample(pkt, pnOffset));
      var first := MaskFirst(pkt[0], m);
      var clear := Masked(pkt, first, pnOffset, first % 4 + 1, m);
      Ok((clear, Reveal(clear, pnOffset, h)))
  }

  /** The header fields read from an unprotected packet. */
  function Reveal(pkt: Bytes, pnOffset: nat, h: Header): Header
    requires pnOffset + MAX_PKT_NUM_LEN <= |pkt|
  {
    var len := pkt[0] % 4 + 1;
    h.(pktNumLen := len,
       pktNum := FromBigEndian(pkt[pnOffset..pnOffset + len]),
       keyPhase := if h.pktType.OneRTT? then pkt[0] / 4 % 2 == 1 else h.keyPhase)
  }

  lemma MaskFirstTwice(first: byte, m: Mask)
    ensures MaskFirst(MaskFirst(first, m), m) == first
    ensures LongHeader(MaskFirst(first, m)) <==> LongHeader(first)
    ensures if LongHeader(first) then MaskFirst(first, m) / 16 == first / 16 else MaskFirst(first, m) / 32 == first / 32
  {
    hide LongHeader; hide XorByte; hide Bits.Xor;
    var p := if LongHeader(first) then 16 else 32;
    XorLowBits(first, m[0] % p, p);
    SameForm(first, XorByte(first, m[0] % p), p);
  }

  lemma SameForm(a: byte, b: byte, p: nat)
    requires (p == 16 || p == 32) && a / p == b / p
    ensures LongHeader(a) <==> LongHeader(b)
  {
    hide LongHeader;
    LongHeaderIs(a);
    LongHeaderIs(b);
  }

  lemma XorLowBits(first: byte, low: byte, p: nat)
    requires (p == 16 || p == 32) && low < p
    ensures XorByte(XorByte(first, low), low) == first
    ensures XorByte(first, low) / p == first / p
  {
    assert Bits.Pow2(4) == 16 && Bits.Pow2(5) == 32;
    Bits.XorTwice(first, low);
    Bits.XorLow(first, low, if p == 16 then 4 else 5);
  }

  /** Only the first byte and the packet number bytes change, so both sides sample the
      same bytes. */
  lemma SampleUntouched(pkt: Bytes, pnOffset: nat, pnLen: nat, mask: MaskFunction)
    requires 1 <= pnOffset && 1 <= pnLen <= 4 && pnOffset + MAX_PKT_NUM_LEN + SAMPLE_LEN <= |pkt|
    ensures Sample(Protect(pkt, pnOffset, pnLen, mask), pnOffset) == Sample(pkt, pnOffset)
  {
    hide MaskFirst;
  }

  lemma MaskedTwice(pkt: Bytes, hidden: byte, pnOffset: nat, pnLen: nat, m: Mask)
    requires 1 <= pnOffset && pnLen <= 4 && pnOffset + pnLen <= |pkt|
    ensures Masked(Masked(pkt, hidden, pnOffset, pnLen, m), pkt[0], pnOffset, pnLen, m) == pkt
  {
    var p := Masked(pkt, hidden, pnOffset, pnLen, m);
    forall i | pnOffset <= i < pnOffset + pnLen ensures XorByte(p[i], m[i - pnOffset + 1]) == pkt[i] {
      Bits.XorTwice(pkt[i], m[i - pnOffset + 1]);
    }
  }

  /** Removing header protection restores every byte of the packet, for long and short
      headers and every mask, even though the receiver learns the packet number length
      only from the byte it has just unmasked. */
  lemma UnprotectRestores(pkt: Bytes, pnOffset: nat, h: Header, mask: MaskFunction)
    requires 1 <= pnOffset && pnOffset + MAX_PKT_NUM_LEN + SAMPLE_LEN <= |pkt|
    ensures Unprotect(Protect(pkt, pnOffset, pkt[0] % 4 + 1, mask), pnOffset, h, mask, false)
         == Ok((pkt, Reveal(pkt, pnOffset, h)))
  {
    hide MaskFirst; hide Masked;
    var len := pkt[0] % 4 + 1;
    var m := mask(Sample(pkt, pnOffset));
    SampleUntouched(pkt, pnOffset, len, mask);
    MaskFirstTwice(pkt[0], m);
    var p := Protect(pkt, pnOffset, len, mask);
    MaskedFirst(pkt, MaskFirst(pkt[0], m), pnOffset, len, m);
    MaskedTwice(pkt, MaskFirst(pkt[0], m), pnOffset, len, m);
  }

  lemma MaskedFirst(pkt: Bytes, first: byte, pnOffset: nat, pnLen: nat, m: Mask)
    requires 1 <= pnOffset && pnLen <= 4 && pnOffset + pnLen <= |pkt|
    ensures Masked(pkt, first, pnOffset, pnLen, m)[0] == first
    ensures Masked(pkt, first, pnOffset, pnLen, m)[1..pnOffset] == pkt[1..pnOffset]
    ensures Masked(pkt, first, pnOffset, pnLen, m)[pnOffset + pnLen..] == pkt[pnOffset + pnLen..]
  {
  }

  // ---------------------------------------------------------------------- end to end

  /** The bytes of a packet before protection: header, any fields in between (the Length
      field of a long header), truncated packet number, payload. */
  function Assemble(h: Header, between: Bytes, pn: nat, payload: Bytes): (r: Result<Bytes>)
    requires Encodable(h)
  {
    EncodeHeader(h, between + (BigEndian(pn, h.pktNumLen) + payload))
  }

  /** Where the packet number starts. */
  function PnOffset(h: Header, between: Bytes, pn: nat, payload: Bytes): int
    requires Encodable(h) && Assemble(h, between, pn, payload).Ok?
  {
    |Assemble(h, between, pn, payload).value| - h.pktNumLen - |payload|
  }

  lemma AfterFirstPrepend(h: Header, rest: Bytes)
    requires Encodable(h)
    ensures AfterFirst(h, rest) == AfterFirst(h, []) + rest
  {
    hide WriteUint; hide Write; hide ReadUint; hide Read; hide AfterCids; hide Pow256;
    AfterCidsPrepend(h, rest);
    WritesPrepend(rest);
  }

  lemma AfterCidsPrepend(h: Header, rest: Bytes)
    requires Encodable(h)
    ensures AfterCids(h, rest) == AfterCids(h, []) + rest
  {
    hide Write; hide WriteVarint; hide ReadVarint; hide Read; hide EncodeVarintLen;
    WritesPrepend(rest);
  }

  lemma Layout(h: Header, between: Bytes, pn: nat, payload: Bytes)
    requires 1 <= h.pktNumLen && Encodable(h) && Assemble(h, between, pn, payload).Ok?
    ensures
      var pkt, off := Assemble(h, between, pn, payload).value, PnOffset(h, between, pn, payload);
      && HighBits(h).Ok? && |pkt| > 0 && pkt[0] == HighBits(h).value + h.pktNumLen - 1
      && pkt[1..] == AfterFirst(h, []) + (between + (BigEndian(pn, h.pktNumLen) + payload))
      && off == 1 + |AfterFirst(h, [])| + |between|
      && off + h.pktNumLen <= |pkt|
      && pkt[off..off + h.pktNumLen] == BigEndian(pn, h.pktNumLen)
  {
    hide AfterFirst; hide WithLow; hide HighBits;
    var inner := between + (BigEndian(pn, h.pktNumLen) + payload);
    AfterFirstPrepend(h, inner);
    var pkt, off := Assemble(h, between, pn, payload).value, PnOffset(h, between, pn, payload);
    Sections(pkt, AfterFirst(h, []), between, BigEndian(pn, h.pktNumLen), payload);
  }

  lemma Sections(pkt: Bytes, x: Bytes, between: Bytes, num: Bytes, payload: Bytes)
    requires pkt != [] && pkt == [pkt[0]] + (x + (between + (num + payload)))
    ensures pkt[1..] == x + (between + (num + payload))
    ensures
      var off := 1 + |x| + |between|;
      && |pkt| == off + |num| + |payload|
      && pkt[1..off] == x + between && pkt[off..off + |num|] == num
  {
  }

  /** A protected packet is again a header followed by bytes: only the first byte and the
      packet number differ. */
  lemma ProtectedLayout(h: Header, between: Bytes, pn: nat, payload: Bytes, mask: MaskFunction)
    requires 1 <= h.pktNumLen && Encodable(h) && Assemble(h, between, pn, payload).Ok?
    requires MAX_PKT_NUM_LEN + SAMPLE_LEN <= h.pktNumLen + |payload|
    ensures
      var pkt, off := Assemble(h, between, pn, payload).value, PnOffset(h, between, pn, payload);
      && 1 <= off && off + MAX_PKT_NUM_LEN + SAMPLE_LEN <= |pkt|
      && var p := Protect(pkt, off, h.pktNumLen, mask);
         var rest := between + p[off..];
         && p == [p[0]] + AfterFirst(h, rest)
         && |p| == off + |rest| - |between|
  {
    hide AfterFirst; hide MaskFirst; hide Assemble;
    Layout(h, between, pn, payload);
    var pkt, off := Assemble(h, between, pn, payload).value, PnOffset(h, between, pn, payload);
    var x := AfterFirst(h, []);
    HeadTail(pkt);
    Sections(pkt, x, between, BigEndian(pn, h.pktNumLen), payload);
    var m := mask(Sample(pkt, off));
    MaskedFirst(pkt, MaskFirst(pkt[0], m), off, h.pktNumLen, m);
    var p := Protect(pkt, off, h.pktNumLen, mask);
    AfterFirstPrepend(h, between + p[off..]);
    Rejoin(p, x, between, off);
  }

  lemma HeadTail(s: Bytes)
    requires s != []
    ensures s == [s[0]] + s[1..]
  {
  }

  lemma Rejoin(p: Bytes, x: Bytes, between: Bytes, off: nat)
    requires 1 <= off <= |p| && p[1..off] == x + between
    ensures p == [p[0]] + (x + (between + p[off..]))
  {
    assert p == [p[0]] + (p[1..off] + p[off..]);
    assert x + between + p[off..] == x + (between + p[off..]);
  }

  lemma ProtectedParses(h: Header, between: Bytes, pn: nat, payload: Bytes, mask: MaskFunction)
    requires 1 <= h.pktNumLen && Encodable(h) && Assemble(h, between, pn, payload).Ok? && !h.pktType.Retry?
    requires h.pktType.OneRTT? || h.version != 0
    requires MAX_PKT_NUM_LEN + SAMPLE_LEN <= h.pktNumLen + |payload|
    ensures
      var pkt, off := Assemble(h, between, pn, payload).value, PnOffset(h, between, pn, payload);
      && 1 <= off && off + MAX_PKT_NUM_LEN + SAMPLE_LEN <= |pkt|
      && var p := Protect(pkt, off, h.pktNumLen, mask);
         DecodeHeader(p, |h.dcid|) == Ok((Visible(h), between + p[off..]))
  {
    hide Protect; hide DecodeHeader; hide AfterFirst; hide Assemble; hide LongHeader; hide HighBits; hide Visible;
    var pkt, off := Assemble(h, between, pn, payload).value, PnOffset(h, between, pn, payload);
    Layout(h, between, pn, payload);
    ProtectedLayout(h, between, pn, payload, mask);
    var p := Protect(pkt, off, h.pktNumLen, mask);
    ProtectedFirst(pkt, off, h.pktNumLen, mask);
    LongHeaderIs(pkt[0]);
    HighBitsSay(h);
    HeaderRoundTrip(h, p[0], between + p[off..]);
  }

  lemma ProtectedReveals(h: Header, between: Bytes, pn: nat, payload: Bytes, mask: MaskFunction)
    requires 1 <= h.pktNumLen && Encodable(h) && Assemble(h, between, pn, payload).Ok?
    requires MAX_PKT_NUM_LEN + SAMPLE_LEN <= h.pktNumLen + |payload|
    ensures
      var pkt, off := Assemble(h, between, pn, payload).value, PnOffset(h, between, pn, payload);
      && 1 <= off && off + MAX_PKT_NUM_LEN + SAMPLE_LEN <= |pkt|
      && Unprotect(Protect(pkt, off, h.pktNumLen, mask), off, Visible(h), mask, false) == Ok((pkt, Revealed(h, pn)))
  {
    hide Protect; hide Unprotect; hide Assemble; hide HighBits; hide AfterFirst; hide PnOffset; hide Encodable;
    hide Visible; hide Reveal; hide Revealed;
    var pkt, off := Assemble(h, between, pn, payload).value, PnOffset(h, between, pn, payload);
    Layout(h, between, pn, payload);
    LayoutLength(h, between, pn, payload);
    HighBitsSay(h);
    UnprotectRestores(pkt, off, Visible(h), mask);
    RevealsFields(h, pn, pkt, off);
  }

  lemma LayoutLength(h: Header, between: Bytes, pn: nat, payload: Bytes)
    requires Encodable(h) && Assemble(h, between, pn, payload).Ok?
    ensures |Assemble(h, between, pn, payload).value| == PnOffset(h, between, pn, payload) + h.pktNumLen + |payload|
    ensures 0 < h.pktNumLen ==> h.pktNumLen <= 4
  {
  }

  lemma RevealsFields(h: Header, pn: nat, pkt: Bytes, off: nat)
    requires HighBits(h).Ok? && 1 <= h.pktNumLen <= 4 && 1 <= off && off + MAX_PKT_NUM_LEN <= |pkt|
    requires pkt[0] == HighBits(h).value + h.pktNumLen - 1
    requires pkt[off..off + h.pktNumLen] == BigEndian(pn, h.pktNumLen)
    ensures Reveal(pkt, off, Visible(h)) == Revealed(h, pn)
  {
    hide HighBits; hide BigEndian; hide FromBigEndian;
    HighBitsSay(h);
    BigEndianRoundTrip(pn, h.pktNumLen);
  }

  /** What a receiver knows of `h` once header protection is removed. */
  function Revealed(h: Header, pn: nat): Header
  {
    Visible(h).(pktNumLen := h.pktNumLen, pktNum := pn % Pow256(h.pktNumLen),
                keyPhase := h.pktType.OneRTT? && h.keyPhase)
  }

  /** A packet of any numbered type, protected with any mask function, parses to its visible
      fields with the packet number where the sender put it; removing protection restores
      the packet and reveals length, truncated number and key phase. */
  lemma ProtectedRoundTrip(h: Header, between: Bytes, pn: nat, payload: Bytes, mask: MaskFunction)
    requires 1 <= h.pktNumLen && Encodable(h) && Assemble(h, between, pn, payload).Ok? && !h.pktType.Retry?
    requires h.pktType.OneRTT? || h.version != 0
    requires MAX_PKT_NUM_LEN + SAMPLE_LEN <= h.pktNumLen + |payload|
    ensures
      var pkt, off := Assemble(h, between, pn, payload).value, PnOffset(h, between, pn, payload);
      && 1 <= off && off + MAX_PKT_NUM_LEN + SAMPLE_LEN <= |pkt|
      && var p := Protect(pkt, off, h.pktNumLen, mask);
         && DecodeHeader(p, |h.dcid|) == Ok((Visible(h), between + p[off..]))
         && Unprotect(p, off, Visible(h), mask, false) == Ok((pkt, Revealed(h, pn)))
  {
    hide Protect; hide Unprotect; hide DecodeHeader; hide Assemble; hide PnOffset; hide Visible; hide Revealed;
    ProtectedParses(h, between, pn, payload, mask);
    ProtectedReveals(h, between, pn, payload, mask);
  }

  lemma HighBitsSay(h: Header)
    requires HighBits(h).Ok? && 1 <= h.pktNumLen <= 4
    ensures
      var f := HighBits(h).value + h.pktNumLen - 1;
      && f < 256 && f % 4 + 1 == h.pktNumLen && (f >= 128 <==> !h.pktType.OneRTT?)
      && f / 16 == HighBits(h).value / 16 && f / 32 == HighBits(h).value / 32
      && (h.pktType.OneRTT? ==> (f / 4 % 2 == 1 <==> h.keyPhase))
  {
  }

  lemma ProtectedFirst(pkt: Bytes, off: nat, pnLen: nat, mask: MaskFunction)
    requires 1 <= off && 1 <= pnLen <= 4 && off + MAX_PKT_NUM_LEN + SAMPLE_LEN <= |pkt|
    ensures var f := Protect(pkt, off, pnLen, mask)[0];
      if LongHeader(pkt[0]) then f / 16 == pkt[0] / 16 else f / 32 == pkt[0] / 32
  {
    hide MaskFirst; hide LongHeader;
    var m := mask(Sample(pkt, off));
    MaskFirstTwice(pkt[0], m);
  }

  /** The whole way of a 1-RTT packet number: truncated by the sender, hidden by header
      protection, found by the receiver without knowing its length, and decoded in full. */
  lemma OneRttEndToEnd(dcid: Bytes, keyPhase: bool, pn: nat, largestAcked: Option<nat>,
                       largest: nat, payload: Bytes, mask: MaskFunction)
    requires |dcid| <= MAX_CID_LEN && pn < PacketNumbers.TWO_62
    requires PacketNumbers.Unacked(pn, largestAcked) < 0x8000_0000
    requires largestAcked.Some? ==> largestAcked.value < pn && largestAcked.value <= largest
    requires largest + 1 < pn + Pow256(PacketNumbers.PacketNumLen(pn, largestAcked)) / 2
    requires MAX_PKT_NUM_LEN + SAMPLE_LEN <= PacketNumbers.PacketNumLen(pn, largestAcked) + |payload|
    ensures
      var len := PacketNumbers.PacketNumLen(pn, largestAcked);
      var h := Header(OneRTT, 0, dcid, [], len, pn, None, keyPhase);
      && Encodable(h) && Assemble(h, [], pn, payload).Ok?
      && var pkt, off := Assemble(h, [], pn, payload).value, 1 + |dcid|;
         && off + MAX_PKT_NUM_LEN + SAMPLE_LEN <= |pkt|
         && var p := Protect(pkt, off, len, mask);
            && DecodeHeader(p, |dcid|).Ok?
            && var (seen, rest) := DecodeHeader(p, |dcid|).value;
               && seen.dcid == dcid && |p| - |rest| == off
               && Unprotect(p, off, seen, mask, false).Ok?
               && var (clear, full) := Unprotect(p, off, seen, mask, false).value;
                  && clear == pkt && full.keyPhase == keyPhase && full.pktNumLen == len
                  && PacketNumbers.DecodePacketNum(largest, full.pktNum, full.pktNumLen) == pn
  {
    hide Protect; hide Unprotect; hide DecodeHeader; hide PacketNumbers.DecodePacketNum;
    var len := PacketNumbers.PacketNumLen(pn, largestAcked);
    PacketNumbers.PacketNumRoundTrip(pn, largestAcked, largest);
    BigEndianRoundTrip(pn, len);
    var h := Header(OneRTT, 0, dcid, [], len, pn, None, keyPhase);
    assert PnOffset(h, [], pn, payload) == 1 + |dcid|;
    ProtectedRoundTrip(h, [], pn, payload, mask);
    var p := Protect(Assemble(h, [], pn, payload).value, 1 + |dcid|, len, mask);
    assert [] + p[1 + |dcid|..] == p[1 + |dcid|..];
    assert Visible(h).dcid == dcid;
  }

  // ------------------------------------------------------------------ in the buffer

  /** The loop both directions run over the packet number bytes. */
  method XorNumber(buf: array<byte>, pnOffset: nat, pnLen: nat, m: Mask)
    requires pnLen <= 4 && pnOffset + pnLen <= buf.Length
    modifies buf
    ensures buf[..] == NumberMasked(old(buf[..]), pnOffset, pnLen, m)
  {
    hide XorByte;
    ghost var pkt := buf[..];
    for i := 0 to pnLen
      invariant forall j | 0 <= j < buf.Length ::
        buf[j] == if pnOffset <= j < pnOffset + i then XorByte(pkt[j], m[j - pnOffset + 1]) else pkt[j]
    {
      buf[pnOffset + i] := XorByte(buf[pnOffset + i], m[i + 1]);
    }
  }

  /** `encrypt_header` on a packet buffer whose header ends at `hdrLen`. */
  method EncryptHeader(buf: array<byte>, hdrLen: nat, pnLen: nat, mask: MaskFunction)
    requires 1 <= pnLen <= 4 && pnLen < hdrLen
    requires hdrLen - pnLen + MAX_PKT_NUM_LEN + SAMPLE_LEN <= buf.Length
    modifies buf
    ensures buf[..] == Protect(old(buf[..]), hdrLen - pnLen, pnLen, mask)
  {
    hide MaskFirst; hide NumberMasked; hide Masked;
    var start := hdrLen + (MAX_PKT_NUM_LEN - pnLen);
    var m := mask(buf[start..start + SAMPLE_LEN]);
    ghost var pkt, off := buf[..], hdrLen - pnLen;
    assert buf[start..start + SAMPLE_LEN] == Sample(pkt, off);
    buf[0] := MaskFirst(buf[0], m);
    assert buf[..] == pkt[0 := MaskFirst(pkt[0], m)];
    XorNumber(buf, hdrLen - pnLen, pnLen, m);
    MaskedInTwoSteps(pkt, MaskFirst(pkt[0], m), off, pnLen, m);
  }

  /** `decrypt_header`: unmasks in place and completes the parsed header. */
  method DecryptHeader(buf: array<byte>, pnOffset: nat, h: Header, mask: MaskFunction, plaintext: bool)
    returns (r: Result<Header>)
    requires 1 <= pnOffset
    modifies buf
    ensures r.Err? <==> Unprotect(old(buf[..]), pnOffset, h, mask, plaintext).Err?
    ensures r.Err? ==> buf[..] == old(buf[..])
    ensures r.Ok? ==> Unprotect(old(buf[..]), pnOffset, h, mask, plaintext) == Ok((buf[..], r.value))
  {
    hide MaskFirst; hide FromBigEndian; hide NumberMasked; hide Masked;
    var min := if plaintext then pnOffset + MAX_PKT_NUM_LEN else pnOffset + MAX_PKT_NUM_LEN + SAMPLE_LEN;
    if buf.Length < min { return Err(BufferTooShort); }
    ghost var pkt, clear := buf[..], buf[..];
    var first := buf[0];
    var pnLen := first % 4 + 1;
    if !plaintext {
      var start := pnOffset + MAX_PKT_NUM_LEN;
      var m := mask(buf[start..start + SAMPLE_LEN]);
      assert buf[start..start + SAMPLE_LEN] == Sample(pkt, pnOffset);
      first := MaskFirst(first, m);
      pnLen := first % 4 + 1;
      XorNumber(buf, pnOffset, pnLen, m);
      clear := Masked(pkt, first, pnOffset, pnLen, m);
      MaskedInTwoSteps(pkt, first, pnOffset, pnLen, m);
    }
    ghost var before := buf[..];
    assert before[0 := first] == clear;
    assert Unprotect(pkt, pnOffset, h, mask, plaintext) == Ok((clear, Reveal(clear, pnOffset, h)));
    hide Unprotect;
    var pktNum := FromBigEndian(buf[pnOffset..pnOffset + pnLen]);
    buf[0] := first;
    assert buf[..] == clear;
    assert before[pnOffset..pnOffset + pnLen] == clear[pnOffset..pnOffset + pnLen];
    r := Ok(h.(pktNumLen := pnLen, pktNum := pktNum,
               keyPhase := if h.pktType.OneRTT? then first / 4 % 2 == 1 else h.keyPhase));
  }
}
