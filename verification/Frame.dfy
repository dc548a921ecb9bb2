/** QUIC frames (src/frame.rs; section 19 of RFC 9000): what `Frame::to_bytes` writes,
    what `Frame::from_bytes` reads, and why a payload is self-delimiting. */
module Frames {
  import opened Base
  import opened Codec
  import opened Ranges
  import opened PacketTypes

  const MAX_STREAM_SIZE: nat := 0x4000_0000_0000_0000

  datatype EcnCounts = EcnCounts(ect0: nat, ect1: nat, ce: nat)

  /** The `RangeSet` of an ACK: two are equal only if their capacities are. */
  datatype AckRanges = AckRanges(ranges: Map, capacity: nat)

  datatype Frame =
    | Paddings(len: nat)
    | Ping(pmtuProbe: Option<(nat, nat)>)
    | Ack(ackDelay: nat, ackRanges: AckRanges, ecnCounts: Option<EcnCounts>)
    | ResetStream(streamId: nat, errorCode: nat, finalSize: nat)
    | StopSending(streamId: nat, errorCode: nat)
    | Crypto(offset: nat, length: nat, data: Bytes)
    | NewToken(token: Bytes)
    | Stream(streamId: nat, offset: nat, length: nat, fin: bool, data: Bytes)
    | MaxData(max: nat)
    | MaxStreamData(streamId: nat, max: nat)
    | MaxStreams(bidi: bool, max: nat)
    | DataBlocked(max: nat)
    | StreamDataBlocked(streamId: nat, max: nat)
    | StreamsBlocked(bidi: bool, max: nat)
    | NewConnectionId(seqNum: nat, retirePriorTo: nat, connId: Bytes, resetToken: Bytes)
    | RetireConnectionId(seqNum: nat)
    | PathChallenge(data: Bytes)
    | PathResponse(data: Bytes)
    | ConnectionClose(errorCode: nat, frameType: nat, reason: Bytes)
    | ApplicationClose(errorCode: nat, reason: Bytes)
    | HandshakeDone
    | PathAbandon(dcidSeqNum: nat, errorCode: nat, reason: Bytes)
    | PathStatus(dcidSeqNum: nat, seqNum: nat, status: nat)

  predicate V(n: nat) { n <= VINT_MAX }

  /** A non-empty canonical set of packet numbers, all of them varints. */
  ghost predicate AckSet(m: Map)
  {
    m != map[] && Canonical(m) && forall k | k in m :: m[k] <= VINT_MAX + 1
  }

  /** The frames the encoder can write: integers fit a varint, an ACK is not empty, and
      fixed-size fields have their size. */
  ghost predicate Writable(f: Frame)
  {
    match f
    case Paddings(_) => true
    case Ping(_) => true
    case Ack(d, m, ecn) => V(d) && AckSet(m.ranges) && EcnFits(ecn)
    case ResetStream(s, e, z) => V(s) && V(e) && V(z)
    case StopSending(s, e) => V(s) && V(e)
    case Crypto(o, _, _) => V(o)
    case NewToken(t) => V(|t|)
    case Stream(s, o, _, _, _) => V(s) && V(o)
    case MaxData(m) => V(m)
    case MaxStreamData(s, m) => V(s) && V(m)
    case MaxStreams(_, m) => V(m)
    case DataBlocked(m) => V(m)
    case StreamDataBlocked(s, m) => V(s) && V(m)
    case StreamsBlocked(_, m) => V(m)
    case NewConnectionId(n, r, c, t) => V(n) && V(r) && |c| <= MAX_CID_LEN && |t| == 16
    case RetireConnectionId(n) => V(n)
    case PathChallenge(d) => |d| == 8
    case PathResponse(d) => |d| == 8
    case ConnectionClose(e, t, r) => V(e) && V(t) && V(|r|)
    case ApplicationClose(e, r) => V(e) && V(|r|)
    case HandshakeDone => true
    case PathAbandon(n, e, r) => V(n) && V(e) && V(|r|)
    case PathStatus(n, s, t) => V(n) && V(s) && V(t)
  }

  /** The frames that arrive as they were: a CRYPTO or STREAM length matches its data and
      fits the two bytes reserved for it, a stream does not outgrow its limit, a PADDING run
      is not empty, a PING carries no local metadata and an ACK has the default capacity. */
  ghost predicate Encodable(f: Frame)
  {
    && Writable(f)
    && match f
       case Paddings(len) => 0 < len
       case Ping(p) => p.None?
       case Ack(_, m, _) => m.capacity == U64_MAX
       case Crypto(_, l, d) => l == |d| <= 16383
       case Stream(_, o, l, _, d) => l == |d| <= 16383 && o + l < MAX_STREAM_SIZE
       case _ => true
  }

  // ---------------------------------------------------------------------- ACK ranges

  datatype List = Nil | Cons(head: Range, tail: List)

  function Length(rs: List): nat
  {
    match rs case Nil => 0 case Cons(_, tail) => 1 + Length(tail)
  }

  function Append(rs: List, ts: List): List
  {
    match rs case Nil => ts case Cons(r, tail) => Cons(r, Append(tail, ts))
  }

  /** The ranges of a set, highest first: what `iter().rev()` yields. */
  function Descending(m: Map): (rs: List)
    ensures Length(rs) == |m|
    decreases m.Keys
  {
    if m == map[] then Nil else
    var k := Greatest(m.Keys);
    assert (m - {k}).Keys == m.Keys - {k};
    Cons(Range(k, m[k]), Descending(m - {k}))
  }

  /** Ranges in descending order, each non-empty and ending below `smallest` with at
      least one number missing in between. */
  predicate Chain(rs: List, smallest: nat)
  {
    rs.Cons? ==> rs.head.start < rs.head.end < smallest && Chain(rs.tail, rs.head.start)
  }

  /** The (gap, length) pairs of the ACK frame. The subtractions cannot underflow because
      the ranges form a chain. */
  function WriteAckPairs(rs: List, smallest: nat, rest: Bytes): (r: Bytes)
    requires Chain(rs, smallest) && smallest <= VINT_MAX
    ensures |r| == AckPairsLen(rs, smallest) + |rest|
  {
    match rs
    case Nil => rest
    case Cons(r, tail) =>
      WriteVarint(smallest - r.end - 1, WriteVarint(r.end - 1 - r.start, WriteAckPairs(tail, r.start, rest)))
  }

  function AckPairsLen(rs: List, smallest: nat): nat
    requires Chain(rs, smallest) && smallest <= VINT_MAX
  {
    match rs
    case Nil => 0
    case Cons(r, tail) =>
      EncodeVarintLen(smallest - r.end - 1) + EncodeVarintLen(r.end - 1 - r.start) + AckPairsLen(tail, r.start)
  }

  function ReadAckPairs(count: nat, smallest: nat, b: Bytes): (r: Result<(List, Bytes)>)
    ensures r.Ok? ==> Length(r.value.0) == count && Chain(r.value.0, smallest) && |r.value.1| <= |b|
  {
    if count == 0 then Ok((Nil, b)) else
    var (gap, b1) :- ReadVarint(b);
    if smallest < 2 + gap then Err(FrameEncodingError) else
    var largest := smallest - gap - 2;
    var (len, b2) :- ReadVarint(b1);
    if largest < len then Err(FrameEncodingError) else
    var (rs, b3) :- ReadAckPairs(count - 1, largest - len, b2);
    Ok((Cons(Range(largest - len, largest + 1), rs), b3))
  }

  /** Reading back what was written restores exactly the ranges. */
  lemma {:induction false} AckPairsRoundTrip(rs: List, smallest: nat, rest: Bytes)
    requires Chain(rs, smallest) && smallest <= VINT_MAX
    ensures ReadAckPairs(Length(rs), smallest, WriteAckPairs(rs, smallest, rest)) == Ok((rs, rest))
  {
    hide EncodeVarintLen; hide WriteVarint; hide ReadVarint; hide AckPairsLen;
    if rs.Cons? {
      AckPairsRoundTrip(rs.tail, rs.head.start, rest);
    }
  }

  /** Inserting the ranges one by one, as the ACK parser does. */
  function InsertAll(acc: Map, rs: List): Map
    decreases rs
  {
    match rs
    case Nil => acc
    case Cons(r, tail) => InsertAll(Inserted(acc, U64_MAX, r.start, r.end), tail)
  }

  ghost predicate AckAbove(acc: Map, smallest: nat)
  {
    Canonical(acc) && forall k | k in acc :: smallest <= k && acc[k] <= VINT_MAX + 1
  }

  lemma InsertBelow(acc: Map, r: Range, smallest: nat)
    requires AckAbove(acc, smallest) && r.start < r.end < smallest <= VINT_MAX + 2
    ensures Inserted(acc, U64_MAX, r.start, r.end) == acc[r.start := r.end]
    ensures r.start !in acc && AckAbove(acc[r.start := r.end], r.start)
  {
    assert Touched(acc, r.start, r.end) == {};
    NothingTouched(acc, r.start, r.end);
    CountBelow(acc.Keys, VINT_MAX + 1);
    AddClear(acc, r.start, r.end);
  }

  /** Inserting a descending chain never merges: it adds one range per element, and the
      result lists the chain again. */
  lemma {:induction false} InsertAllChain(acc: Map, rs: List, smallest: nat)
    requires AckAbove(acc, smallest) && Chain(rs, smallest) && smallest <= VINT_MAX + 2
    ensures AckAbove(InsertAll(acc, rs), 0)
    ensures Descending(InsertAll(acc, rs)) == Append(Descending(acc), rs)
    decreases rs
  {
    match rs
    case Nil =>
      AppendNil(Descending(acc));
    case Cons(r, tail) =>
      InsertBelow(acc, r, smallest);
      InsertAllChain(acc[r.start := r.end], tail, r.start);
      DescendingAdd(acc, r, smallest);
      AppendAssoc(Descending(acc), Cons(r, Nil), tail);
  }

  lemma {:induction false} AppendNil(rs: List)
    ensures Append(rs, Nil) == rs
  {
    if rs.Cons? { AppendNil(rs.tail); }
  }

  lemma {:induction false} AppendAssoc(a: List, b: List, c: List)
    ensures Append(Append(a, b), c) == Append(a, Append(b, c))
  {
    if a.Cons? { AppendAssoc(a.tail, b, c); }
  }

  lemma {:induction false} DescendingAdd(acc: Map, r: Range, smallest: nat)
    requires AckAbove(acc, smallest) && r.start < r.end < smallest
    ensures Descending(acc[r.start := r.end]) == Append(Descending(acc), Cons(r, Nil))
    decreases acc.Keys
  {
    var m := acc[r.start := r.end];
    if acc == map[] {
      GreatestIs(m.Keys, r.start);
      assert m - {r.start} == map[];
    } else {
      var k := Greatest(acc.Keys);
      GreatestIs(m.Keys, k);
      DescendingAdd(acc - {k}, r, smallest);
      RemoveAfterUpdate(acc, r.start, r.end, k);
    }
  }

  lemma RemoveAfterUpdate(m: Map, a: nat, b: nat, k: nat)
    requires a != k
    ensures m[a := b] - {k} == (m - {k})[a := b]
  {
  }

  /** The ranges of a canonical set form a chain below anything above the set. */
  lemma {:induction false} DescendingChain(m: Map, smallest: nat)
    requires Canonical(m) && forall k | k in m :: m[k] < smallest
    ensures Chain(Descending(m), smallest)
    decreases m.Keys
  {
    if m != map[] {
      DescendingChain(m - {Greatest(m.Keys)}, Greatest(m.Keys));
    }
  }

  /** A set is determined by the list of its ranges. */
  lemma {:induction false} DescendingDetermines(a: Map, b: Map)
    requires Descending(a) == Descending(b)
    ensures a == b
    decreases a.Keys
  {
    hide Greatest;
    if a != map[] {
      var k := Greatest(a.Keys);
      DescendingDetermines(a - {k}, b - {k});
      PutBack(a, k);
      PutBack(b, k);
    }
  }

  lemma PutBack(m: Map, k: nat)
    requires k in m
    ensures m == (m - {k})[k := m[k]]
  {
  }

  // ------------------------------------------------------------------------- writing

  function Zeros(n: nat, rest: Bytes): (r: Bytes)
    ensures |r| == n + |rest|
  {
    if n == 0 then rest else [0] + Zeros(n - 1, rest)
  }

  /** The fields of an ACK frame whose ranges are `rs`, highest first. */
  function WriteAck(d: nat, rs: List, ecn: Option<EcnCounts>, rest: Bytes): (b: Bytes)
    requires V(d) && rs.Cons? && Chain(rs, VINT_MAX + 2) && Length(rs.tail) <= VINT_MAX && EcnFits(ecn)
    ensures |b| == AckLen(d, rs, ecn) + |rest|
  {
    var r := rs.head;
    WriteVarint(r.end - 1,
      WriteVarint(d,
        WriteVarint(Length(rs.tail),
          WriteVarint(r.end - 1 - r.start,
            WriteAckPairs(rs.tail, r.start, WriteEcn(ecn, rest))))))
  }

  function AckLen(d: nat, rs: List, ecn: Option<EcnCounts>): nat
    requires V(d) && rs.Cons? && Chain(rs, VINT_MAX + 2) && Length(rs.tail) <= VINT_MAX && EcnFits(ecn)
  {
    var r := rs.head;
    EncodeVarintLen(r.end - 1) + EncodeVarintLen(d) + EncodeVarintLen(Length(rs.tail))
      + EncodeVarintLen(r.end - 1 - r.start) + AckPairsLen(rs.tail, r.start)
      + (if ecn.None? then 0
         else EncodeVarintLen(ecn.value.ect0) + EncodeVarintLen(ecn.value.ect1) + EncodeVarintLen(ecn.value.ce))
  }

  predicate EcnFits(ecn: Option<EcnCounts>)
  {
    ecn.Some? ==> V(ecn.value.ect0) && V(ecn.value.ect1) && V(ecn.value.ce)
  }

  /** The ranges of an ACK: a non-empty chain of varints with fewer than 2^62 ranges. */
  function AckList(m: Map): (rs: List)
    requires AckSet(m)
    ensures rs == Descending(m) && rs.Cons? && Chain(rs, VINT_MAX + 2) && Length(rs.tail) <= VINT_MAX
  {
    DescendingChain(m, VINT_MAX + 2);
    CountBelow(m.Keys, VINT_MAX + 1);
    Descending(m)
  }

  function WriteEcn(ecn: Option<EcnCounts>, rest: Bytes): Bytes
    requires EcnFits(ecn)
  {
    match ecn
    case None => rest
    case Some(c) => WriteVarint(c.ect0, WriteVarint(c.ect1, WriteVarint(c.ce, rest)))
  }

  /** A byte string with its length in front. */
  function WriteBlob(s: Bytes, rest: Bytes): (r: Bytes)
    requires V(|s|)
    ensures ReadWithVarintLength(r) == Ok((s, rest))
    ensures |r| == EncodeVarintLen(|s|) + |s| + |rest|
  {
    WriteVarint(|s|, Write(s, rest))
  }

  /** The type a frame is written with. */
  function TypeOf(f: Frame): (t: nat)
    ensures V(t) && (t == 0 <==> f.Paddings?) && EncodeVarintLen(t) == if f.PathAbandon? || f.PathStatus? then 4 else 1
  {
    match f
    case Paddings(_) => 0x00
    case Ping(_) => 0x01
    case Ack(_, _, ecn) => if ecn.None? then 0x02 else 0x03
    case ResetStream(_, _, _) => 0x04
    case StopSending(_, _) => 0x05
    case Crypto(_, _, _) => 0x06
    case NewToken(_) => 0x07
    case Stream(_, _, _, fin, _) => if fin then 0x0f else 0x0e
    case MaxData(_) => 0x10
    case MaxStreamData(_, _) => 0x11
    case MaxStreams(bidi, _) => if bidi then 0x12 else 0x13
    case DataBlocked(_) => 0x14
    case StreamDataBlocked(_, _) => 0x15
    case StreamsBlocked(bidi, _) => if bidi then 0x16 else 0x17
    case NewConnectionId(_, _, _, _) => 0x18
    case RetireConnectionId(_) => 0x19
    case PathChallenge(_) => 0x1a
    case PathResponse(_) => 0x1b
    case ConnectionClose(_, _, _) => 0x1c
    case ApplicationClose(_, _) => 0x1d
    case HandshakeDone => 0x1e
    case PathAbandon(_, _, _) => 0x15228c05
    case PathStatus(_, _, _) => 0x15228c06
  }

  /** The frames that carry byte strings besides integers. */
  predicate CarriesBytes(f: Frame)
  {
    || f.Crypto? || f.NewToken? || f.Stream? || f.NewConnectionId? || f.PathChallenge? || f.PathResponse?
    || f.ConnectionClose? || f.ApplicationClose? || f.PathAbandon?
  }

  function WriteByteFields(f: Frame, rest: Bytes): Bytes
    requires Writable(f) && CarriesBytes(f)
  {
    match f
    case Crypto(o, l, d) => WriteVarint(o, WriteVarintWithLen(l, 2, Write(d, rest)))
    case NewToken(t) => WriteBlob(t, rest)
    case Stream(s, o, l, _, d) => WriteVarint(s, WriteVarint(o, WriteVarintWithLen(l, 2, Write(d, rest))))
    case NewConnectionId(n, r, c, t) => WriteVarint(n, WriteVarint(r, WriteUint(|c|, 1, Write(c, Write(t, rest)))))
    case PathChallenge(d) => Write(d, rest)
    case PathResponse(d) => Write(d, rest)
    case ConnectionClose(e, t, r) => WriteVarint(e, WriteVarint(t, WriteBlob(r, rest)))
    case ApplicationClose(e, r) => WriteVarint(e, WriteBlob(r, rest))
    case PathAbandon(n, e, r) => WriteVarint(n, WriteVarint(e, WriteBlob(r, rest)))
  }

  /** The frames that carry integers only. */
  predicate CarriesInts(f: Frame)
  {
    || f.ResetStream? || f.StopSending? || f.MaxData? || f.MaxStreamData? || f.MaxStreams? || f.DataBlocked?
    || f.StreamDataBlocked? || f.StreamsBlocked? || f.RetireConnectionId? || f.PathStatus?
  }

  function WriteIntFields(f: Frame, rest: Bytes): Bytes
    requires Writable(f) && CarriesInts(f)
  {
    match f
    case ResetStream(s, e, z) => WriteVarint(s, WriteVarint(e, WriteVarint(z, rest)))
    case StopSending(s, e) => WriteVarint(s, WriteVarint(e, rest))
    case MaxData(m) => WriteVarint(m, rest)
    case MaxStreamData(s, m) => WriteVarint(s, WriteVarint(m, rest))
    case MaxStreams(_, m) => WriteVarint(m, rest)
    case DataBlocked(m) => WriteVarint(m, rest)
    case StreamDataBlocked(s, m) => WriteVarint(s, WriteVarint(m, rest))
    case StreamsBlocked(_, m) => WriteVarint(m, rest)
    case RetireConnectionId(n) => WriteVarint(n, rest)
    case PathStatus(n, s, t) => WriteVarint(n, WriteVarint(s, WriteVarint(t, rest)))
  }

  /** What follows the type: for PADDING, the other zero bytes. */
  function WriteFields(f: Frame, rest: Bytes): Bytes
    requires Writable(f)
  {
    if f.Paddings? then Zeros(Since(f.len, 1), rest)
    else if f.Ack? then WriteAck(f.ackDelay, AckList(f.ackRanges.ranges), f.ecnCounts, rest)
    else if CarriesBytes(f) then WriteByteFields(f, rest)
    else if CarriesInts(f) then WriteIntFields(f, rest)
    else rest
  }

  /** The bytes `Frame::to_bytes` writes for `f`, in front of `rest`: a PADDING run of length
      0 is nothing. */
  function Encode(f: Frame, rest: Bytes): Bytes
    requires Writable(f)
  {
    if f == Paddings(0) then rest else WriteVarint(TypeOf(f), WriteFields(f, rest))
  }

  /** `Frame::wire_len`. */
  function WireLen(f: Frame): nat
    requires Writable(f)
  {
    match f
    case Paddings(len) => len
    case Ping(_) => 1
    case Ack(d, m, ecn) => 1 + AckLen(d, AckList(m.ranges), ecn)
    case ResetStream(s, e, z) => 1 + EncodeVarintLen(s) + EncodeVarintLen(e) + EncodeVarintLen(z)
    case StopSending(s, e) => 1 + EncodeVarintLen(s) + EncodeVarintLen(e)
    case Crypto(o, _, d) => 1 + EncodeVarintLen(o) + 2 + |d|
    case NewToken(t) => 1 + EncodeVarintLen(|t|) + |t|
    case Stream(s, o, _, _, d) => 1 + EncodeVarintLen(s) + EncodeVarintLen(o) + 2 + |d|
    case MaxData(m) => 1 + EncodeVarintLen(m)
    case MaxStreamData(s, m) => 1 + EncodeVarintLen(s) + EncodeVarintLen(m)
    case MaxStreams(_, m) => 1 + EncodeVarintLen(m)
    case DataBlocked(m) => 1 + EncodeVarintLen(m)
    case StreamDataBlocked(s, m) => 1 + EncodeVarintLen(s) + EncodeVarintLen(m)
    case StreamsBlocked(_, m) => 1 + EncodeVarintLen(m)
    case NewConnectionId(n, r, c, t) => 1 + EncodeVarintLen(n) + EncodeVarintLen(r) + 1 + |c| + |t|
    case RetireConnectionId(n) => 1 + EncodeVarintLen(n)
    case PathChallenge(_) => 1 + 8
    case PathResponse(_) => 1 + 8
    case ConnectionClose(e, t, r) => 1 + EncodeVarintLen(e) + EncodeVarintLen(t) + EncodeVarintLen(|r|) + |r|
    case ApplicationClose(e, r) => 1 + EncodeVarintLen(e) + EncodeVarintLen(|r|) + |r|
    case HandshakeDone => 1
    case PathAbandon(n, e, r) => 4 + EncodeVarintLen(n) + EncodeVarintLen(e) + EncodeVarintLen(|r|) + |r|
    case PathStatus(n, s, t) => 4 + EncodeVarintLen(n) + EncodeVarintLen(s) + EncodeVarintLen(t)
  }

  /** Every frame occupies exactly `wire_len` bytes. */
  lemma EncodedLength(f: Frame, rest: Bytes)
    requires Writable(f)
    ensures |Encode(f, rest)| == WireLen(f) + |rest|
  {
    hide WriteVarint; hide WriteByteFields; hide WriteIntFields; hide WriteAck; hide AckLen; hide Zeros; hide AckList;
    hide ReadVarint; hide TypeOf; hide EncodeVarintLen;
    if CarriesBytes(f) { ByteFieldsLength(f, rest); } else if CarriesInts(f) { IntFieldsLength(f, rest); }
  }

  lemma ByteFieldsLength(f: Frame, rest: Bytes)
    requires Writable(f) && CarriesBytes(f)
    ensures EncodeVarintLen(TypeOf(f)) + |WriteByteFields(f, rest)| == WireLen(f) + |rest|
  {
    hide WireLen; hide WriteByteFields; hide TypeOf; hide EncodeVarintLen;
    if f.NewToken? || f.ConnectionClose? || f.ApplicationClose? || f.PathAbandon? {
      BlobFieldsLength(f, rest);
    } else {
      DataFieldsLength(f, rest);
    }
  }

  lemma BlobFieldsLength(f: Frame, rest: Bytes)
    requires Writable(f) && (f.NewToken? || f.ConnectionClose? || f.ApplicationClose? || f.PathAbandon?)
    ensures EncodeVarintLen(TypeOf(f)) + |WriteByteFields(f, rest)| == WireLen(f) + |rest|
  {
    hide WriteVarint; hide WriteBlob; hide ReadVarint; hide TypeOf; hide EncodeVarintLen; hide ReadWithVarintLength;
    hide AckLen; hide AckList;
  }

  lemma DataFieldsLength(f: Frame, rest: Bytes)
    requires Writable(f)
    requires f.Crypto? || f.Stream? || f.NewConnectionId? || f.PathChallenge? || f.PathResponse?
    ensures EncodeVarintLen(TypeOf(f)) + |WriteByteFields(f, rest)| == WireLen(f) + |rest|
  {
    hide WriteVarint; hide WriteVarintWithLen; hide WriteUint; hide Write; hide ReadVarint; hide Read; hide TypeOf;
    hide EncodeVarintLen; hide ReadUint; hide Pow256; hide VarintLimit; hide AckLen; hide AckList;
  }

  lemma IntFieldsLength(f: Frame, rest: Bytes)
    requires Writable(f) && CarriesInts(f)
    ensures EncodeVarintLen(TypeOf(f)) + |WriteIntFields(f, rest)| == WireLen(f) + |rest|
  {
    hide WriteVarint; hide ReadVarint; hide TypeOf; hide EncodeVarintLen;
  }

  // ------------------------------------------------------------------------- reading

  /** The number of zero bytes at the front of `b`, and what follows them. */
  function SkipZeros(b: Bytes): (r: (nat, Bytes))
    ensures r.0 + |r.1| == |b| && (r.1 == [] || r.1[0] != 0)
  {
    if b == [] || b[0] != 0 then (0, b) else
    var (n, rest) := SkipZeros(b[1..]);
    (n + 1, rest)
  }

  datatype AckFields = AckFields(delay: nat, ranges: List, ecn: Option<EcnCounts>)

  function ReadAck(frameType: nat, b: Bytes): (r: Result<(AckFields, Bytes)>)
    ensures r.Ok? ==> r.value.0.ranges.Cons? && Chain(r.value.0.ranges, VINT_MAX + 2)
    ensures r.Ok? ==> V(r.value.0.delay) && EcnFits(r.value.0.ecn) && |r.value.1| <= |b|
  {
    var (largest, b1) :- ReadVarint(b);
    var (delay, b2) :- ReadVarint(b1);
    var (count, b3) :- ReadVarint(b2);
    var (len, b4) :- ReadVarint(b3);
    if largest < len then Err(FrameEncodingError) else
    var (rs, b5) :- ReadAckPairs(count, largest - len, b4);
    var (ecn, b6) :- ReadEcn(frameType, b5);
    Ok((AckFields(delay, Cons(Range(largest - len, largest + 1), rs), ecn), b6))
  }

  function ReadEcn(frameType: nat, b: Bytes): (r: Result<(Option<EcnCounts>, Bytes)>)
    ensures r.Ok? ==> EcnFits(r.value.0) && |r.value.1| <= |b|
  {
    if frameType % 2 == 0 then Ok((None, b)) else
    var (ect0, b1) :- ReadVarint(b);
    var (ect1, b2) :- ReadVarint(b1);
    var (ce, b3) :- ReadVarint(b2);
    Ok((Some(EcnCounts(ect0, ect1, ce)), b3))
  }

  function ReadStream(first: nat, b: Bytes): (r: Result<(Frame, Bytes)>)
    ensures r.Ok? ==> |r.value.1| <= |b|
  {
    var (id, b1) :- ReadVarint(b);
    var (offset, b2) :- if first / 4 % 2 == 1 then ReadVarint(b1) else Ok((0, b1));
    var (length, b3) :- if first / 2 % 2 == 1 then ReadVarint(b2) else Ok((|b2|, b2));
    if offset + length >= MAX_STREAM_SIZE then Err(FrameEncodingError) else
    var (data, b4) :- Read(b3, length);
    Ok((Stream(id, offset, length, first % 2 == 1, data), b4))
  }

  /** The frame of the given type at the front of `b`, and the bytes behind it. */
  function ReadBody(t: nat, b: Bytes): (r: Result<(Frame, Bytes)>)
    ensures r.Ok? ==> |r.value.1| <= |b|
  {
    if t == 0x00 then
      var (n, b1) := SkipZeros(b);
      Ok((Paddings(1 + n), b1))
    else if t == 0x01 then Ok((Ping(None), b))
    else if t == 0x02 || t == 0x03 then
      var (a, b1) :- ReadAck(t, b);
      Ok((Ack(a.delay, AckRanges(InsertAll(map[], a.ranges), U64_MAX), a.ecn), b1))
    else if t == 0x04 then
      var (s, b1) :- ReadVarint(b);
      var (e, b2) :- ReadVarint(b1);
      var (z, b3) :- ReadVarint(b2);
      Ok((ResetStream(s, e, z), b3))
    else if t == 0x05 then
      var (s, b1) :- ReadVarint(b);
      var (e, b2) :- ReadVarint(b1);
      Ok((StopSending(s, e), b2))
    else if t == 0x06 then
      var (o, b1) :- ReadVarint(b);
      var (l, b2) :- ReadVarint(b1);
      var (d, b3) :- Read(b2, l);
      Ok((Crypto(o, l, d), b3))
    else if t == 0x07 then
      var (tok, b1) :- ReadWithVarintLength(b);
      Ok((NewToken(tok), b1))
    else if 0x08 <= t <= 0x0f then ReadStream(t, b)
    else if t == 0x10 || t == 0x12 || t == 0x13 || t == 0x14 || t == 0x16 || t == 0x17 || t == 0x19 then
      var (n, b1) :- ReadVarint(b);
      Ok((if t == 0x10 then MaxData(n)
          else if t == 0x12 then MaxStreams(true, n)
          else if t == 0x13 then MaxStreams(false, n)
          else if t == 0x14 then DataBlocked(n)
          else if t == 0x16 then StreamsBlocked(true, n)
          else if t == 0x17 then StreamsBlocked(false, n)
          else RetireConnectionId(n), b1))
    else if t == 0x11 || t == 0x15 then
      var (s, b1) :- ReadVarint(b);
      var (n, b2) :- ReadVarint(b1);
      Ok((if t == 0x11 then MaxStreamData(s, n) else StreamDataBlocked(s, n), b2))
    else if t == 0x18 then
      var (n, b1) :- ReadVarint(b);
      var (r, b2) :- ReadVarint(b1);
      var (c, b3) :- ReadWithU8Length(b2);
      var (tok, b4) :- Read(b3, 16);
      Ok((NewConnectionId(n, r, Cid(c), tok), b4))
    else if t == 0x1a || t == 0x1b then
      var (d, b1) :- Read(b, 8);
      Ok((if t == 0x1a then PathChallenge(d) else PathResponse(d), b1))
    else if t == 0x1c then
      var (e, b1) :- ReadVarint(b);
      var (ft, b2) :- ReadVarint(b1);
      var (r, b3) :- ReadWithVarintLength(b2);
      Ok((ConnectionClose(e, ft, r), b3))
    else if t == 0x1d then
      var (e, b1) :- ReadVarint(b);
      var (r, b2) :- ReadWithVarintLength(b1);
      Ok((ApplicationClose(e, r), b2))
    else if t == 0x1e then Ok((HandshakeDone, b))
    else if t == 0x15228c05 then
      var (n, b1) :- ReadVarint(b);
      var (e, b2) :- ReadVarint(b1);
      var (r, b3) :- ReadWithVarintLength(b2);
      Ok((PathAbandon(n, e, r), b3))
    else if t == 0x15228c06 then
      var (n, b1) :- ReadVarint(b);
      var (s, b2) :- ReadVarint(b1);
      var (st, b3) :- ReadVarint(b2);
      Ok((PathStatus(n, s, st), b3))
    else Err(FrameEncodingError)
  }

  /** Which frames a packet type may carry. */
  predicate ValidFrame(pkt: PacketType, f: Frame)
  {
    match f
    case Paddings(_) => true
    case Ping(_) => true
    case Ack(_, _, _) => pkt != ZeroRTT
    case Crypto(_, _, _) => pkt != ZeroRTT
    case ConnectionClose(_, _, _) => pkt != ZeroRTT
    case HandshakeDone => pkt == OneRTT
    case NewToken(_) => pkt == OneRTT
    case PathResponse(_) => pkt == OneRTT
    case RetireConnectionId(_) => pkt == OneRTT
    case _ => pkt == OneRTT || pkt == ZeroRTT
  }

  /** `Frame::from_bytes`: the frame at the front of the buffer and the bytes it took. */
  function Decode(b: Bytes, pkt: PacketType): (r: Result<(Frame, Bytes)>)
    ensures r.Ok? ==> |r.value.1| < |b| && ValidFrame(pkt, r.value.0)
  {
    var (t, b1) :- ReadVarint(b);
    var (f, b2) :- ReadBody(t, b1);
    if ValidFrame(pkt, f) then Ok((f, b2)) else Err(InvalidPacket)
  }

  // --------------------------------------------------------------------- round trips

  lemma AckListRestores(m: Map)
    requires AckSet(m)
    ensures InsertAll(map[], AckList(m)) == m
  {
    InsertAllChain(map[], AckList(m), VINT_MAX + 2);
    DescendingDetermines(InsertAll(map[], AckList(m)), m);
  }

  lemma AckRoundTrip(d: nat, rs: List, ecn: Option<EcnCounts>, rest: Bytes)
    requires V(d) && rs.Cons? && Chain(rs, VINT_MAX + 2) && Length(rs.tail) <= VINT_MAX && EcnFits(ecn)
    ensures ReadAck(if ecn.None? then 2 else 3, WriteAck(d, rs, ecn, rest)) == Ok((AckFields(d, rs, ecn), rest))
  {
    hide WriteVarint; hide ReadVarint; hide WriteAckPairs; hide ReadAckPairs; hide EncodeVarintLen; hide AckPairsLen;
    hide AckLen; hide WriteEcn; hide ReadEcn;
    EcnRoundTrip(ecn, rest);
    AckPairsRoundTrip(rs.tail, rs.head.start, WriteEcn(ecn, rest));
  }

  lemma EcnRoundTrip(ecn: Option<EcnCounts>, rest: Bytes)
    requires EcnFits(ecn)
    ensures ReadEcn(if ecn.None? then 2 else 3, WriteEcn(ecn, rest)) == Ok((ecn, rest))
  {
    hide WriteVarint; hide ReadVarint; hide EncodeVarintLen;
  }

  lemma {:induction false} ZerosRoundTrip(n: nat, rest: Bytes)
    requires rest == [] || rest[0] != 0
    ensures SkipZeros(Zeros(n, rest)) == (n, rest)
  {
    if n > 0 {
      ZerosRoundTrip(n - 1, rest);
      assert Zeros(n, rest)[1..] == Zeros(n - 1, rest);
    }
  }

  lemma ReadZeroVarint(b: Bytes)
    requires b != [] && b[0] == 0
    ensures ReadVarint(b) == Ok((0, b[1..]))
  {
    assert b[..1] == [0];
    assert FromBigEndian([0]) == 0;
  }

  lemma OneFieldRoundTrip(f: Frame, rest: Bytes)
    requires Encodable(f)
    requires f.Ping? || f.MaxData? || f.MaxStreams? || f.DataBlocked? || f.StreamsBlocked? || f.RetireConnectionId?
          || f.HandshakeDone?
    ensures ReadBody(TypeOf(f), WriteFields(f, rest)) == Ok((f, rest))
  {
    hide EncodeVarintLen; hide WriteVarint; hide ReadVarint; hide WriteVarintWithLen; hide Read; hide Write;
  }

  lemma MoreFieldsRoundTrip(f: Frame, rest: Bytes)
    requires Encodable(f)
    requires f.ResetStream? || f.StopSending? || f.MaxStreamData? || f.StreamDataBlocked? || f.PathStatus?
    ensures ReadBody(TypeOf(f), WriteFields(f, rest)) == Ok((f, rest))
  {
    hide EncodeVarintLen; hide WriteVarint; hide ReadVarint; hide WriteVarintWithLen; hide Read; hide Write;
  }

  lemma DataRoundTrip(f: Frame, rest: Bytes)
    requires Encodable(f)
    requires f.Crypto? || f.Stream? || f.PathChallenge? || f.PathResponse?
    ensures ReadBody(TypeOf(f), WriteFields(f, rest)) == Ok((f, rest))
  {
    hide EncodeVarintLen; hide WriteVarint; hide ReadVarint; hide WriteVarintWithLen; hide Read; hide Write;
  }

  lemma BlobRoundTrip(f: Frame, rest: Bytes)
    requires Encodable(f)
    requires f.NewToken? || f.ConnectionClose? || f.ApplicationClose? || f.PathAbandon?
    ensures ReadBody(TypeOf(f), WriteFields(f, rest)) == Ok((f, rest))
  {
    hide EncodeVarintLen; hide WriteVarint; hide ReadVarint; hide WriteBlob; hide ReadWithVarintLength;
  }

  lemma NewConnectionIdRoundTrip(f: Frame, rest: Bytes)
    requires f.NewConnectionId? && Encodable(f)
    ensures ReadBody(TypeOf(f), WriteFields(f, rest)) == Ok((f, rest))
  {
    hide EncodeVarintLen; hide WriteVarint; hide ReadVarint; hide WriteUint; hide ReadUint; hide Read; hide Write;
    assert Pow256(1) == 256;
  }

  lemma PaddingsRoundTrip(f: Frame, rest: Bytes)
    requires f.Paddings? && Encodable(f) && (rest == [] || rest[0] != 0)
    ensures ReadBody(TypeOf(f), WriteFields(f, rest)) == Ok((f, rest))
  {
    ZerosRoundTrip(f.len - 1, rest);
  }

  lemma AckFrameRoundTrip(f: Frame, rest: Bytes)
    requires f.Ack? && Encodable(f)
    ensures ReadBody(TypeOf(f), WriteFields(f, rest)) == Ok((f, rest))
  {
    hide ReadBody; hide WriteFields;
    AckRead(f, rest);
  }

  /** PADDING is followed by something else. */
  predicate Delimited(f: Frame, rest: Bytes)
  {
    f.Paddings? ==> rest == [] || rest[0] != 0
  }

  lemma BodyRoundTrip(f: Frame, rest: Bytes)
    requires Encodable(f) && Delimited(f, rest)
    ensures ReadBody(TypeOf(f), WriteFields(f, rest)) == Ok((f, rest))
  {
    hide ReadBody; hide WriteFields; hide TypeOf; hide Encodable;
    if f.Paddings? {
      PaddingsRoundTrip(f, rest);
    } else if f.Ack? {
      AckFrameRoundTrip(f, rest);
    } else if f.Ping? || f.MaxData? || f.MaxStreams? || f.DataBlocked? || f.StreamsBlocked? || f.RetireConnectionId?
              || f.HandshakeDone? {
      OneFieldRoundTrip(f, rest);
    } else if f.ResetStream? || f.StopSending? || f.MaxStreamData? || f.StreamDataBlocked? || f.PathStatus? {
      MoreFieldsRoundTrip(f, rest);
    } else if f.Crypto? || f.Stream? || f.PathChallenge? || f.PathResponse? {
      DataRoundTrip(f, rest);
    } else if f.NewConnectionId? {
      NewConnectionIdRoundTrip(f, rest);
    } else {
      BlobRoundTrip(f, rest);
    }
  }

  /** One encodable frame, followed by anything (by a non-zero byte after PADDING), reads
      back if the packet type allows it and is refused otherwise. */
  lemma FrameRoundTrip(f: Frame, rest: Bytes, pkt: PacketType)
    requires Encodable(f) && Delimited(f, rest)
    ensures Decode(Encode(f, rest), pkt) == if ValidFrame(pkt, f) then Ok((f, rest)) else Err(InvalidPacket)
  {
    BodyRoundTrip(f, rest);
    hide WriteVarint; hide ReadVarint; hide ReadBody; hide WriteFields; hide Encodable; hide TypeOf; hide ValidFrame;
  }

  /** A two-byte length that survives is the length of the data and fits. */
  lemma LengthSurvives(l: nat, d: Bytes, rest: Bytes)
    requires
      var b := WriteVarintWithLen(l, 2, Write(d, rest));
      ReadVarint(b).Ok? && ReadVarint(b).value.0 == l && Read(ReadVarint(b).value.1, l) == Ok((d, rest))
    ensures l == |d| <= 16383
  {
    hide WriteVarintWithLen; hide ReadVarint; hide Write; hide Read;
    LongVarint(WriteVarintWithLen(l, 2, Write(d, rest)));
  }

  lemma CryptoLost(f: Frame, rest: Bytes)
    requires f.Crypto? && Writable(f) && ReadBody(TypeOf(f), WriteFields(f, rest)) == Ok((f, rest))
    ensures f.length == |f.data| <= 16383
  {
    hide WriteVarintWithLen; hide ReadVarint; hide Write; hide Read; hide WriteVarint; hide EncodeVarintLen;
    LengthSurvives(f.length, f.data, rest);
  }

  lemma StreamLost(f: Frame, rest: Bytes)
    requires f.Stream? && Writable(f) && ReadBody(TypeOf(f), WriteFields(f, rest)) == Ok((f, rest))
    ensures f.length == |f.data| <= 16383 && f.offset + f.length < MAX_STREAM_SIZE
  {
    hide WriteVarintWithLen; hide ReadVarint; hide Write; hide Read; hide WriteVarint; hide EncodeVarintLen;
    LengthSurvives(f.length, f.data, rest);
  }

  lemma AckRead(f: Frame, rest: Bytes)
    requires f.Ack? && Writable(f)
    ensures ReadBody(TypeOf(f), WriteFields(f, rest))
         == Ok((f.(ackRanges := AckRanges(f.ackRanges.ranges, U64_MAX)), rest))
  {
    hide WriteAck; hide ReadAck; hide InsertAll;
    AckRoundTrip(f.ackDelay, AckList(f.ackRanges.ranges), f.ecnCounts, rest);
    AckListRestores(f.ackRanges.ranges);
  }

  lemma {:induction false} ZerosAbsorb(n: nat, rest: Bytes)
    ensures SkipZeros(Zeros(n, rest)) == (n + SkipZeros(rest).0, SkipZeros(rest).1)
  {
    if n > 0 {
      ZerosAbsorb(n - 1, rest);
      assert Zeros(n, rest)[1..] == Zeros(n - 1, rest);
    }
  }

  lemma OnlyEncodableArrives(f: Frame, rest: Bytes)
    requires Writable(f) && ReadBody(TypeOf(f), WriteFields(f, rest)) == Ok((f, rest))
    ensures Encodable(f) && Delimited(f, rest)
  {
    if f.Crypto? {
      CryptoLost(f, rest);
    } else if f.Stream? {
      StreamLost(f, rest);
    } else if f.Ack? {
      AckRead(f, rest);
      hide ReadBody; hide WriteFields;
    } else if f.Paddings? {
      ZerosAbsorb(Since(f.len, 1), rest);
    } else {
      hide WriteFields;
    }
  }

  /** For every frame the encoder can write: it reads back if and only if it is encodable,
      the packet type allows it and a PADDING run is followed by something else. */
  lemma FrameRoundTripIff(f: Frame, rest: Bytes, pkt: PacketType)
    requires Writable(f)
    ensures Decode(Encode(f, rest), pkt) == Ok((f, rest)) <==> Encodable(f) && Delimited(f, rest) && ValidFrame(pkt, f)
  {
    hide WriteVarint; hide ReadVarint; hide ReadBody; hide WriteFields; hide Encodable; hide TypeOf; hide ValidFrame;
    if Encodable(f) && Delimited(f, rest) {
      FrameRoundTrip(f, rest, pkt);
    } else if ReadBody(TypeOf(f), WriteFields(f, rest)) == Ok((f, rest)) {
      OnlyEncodableArrives(f, rest);
    }
  }

  // ----------------------------------------------------------------- whole payloads

  ghost predicate AllWritable(fs: seq<Frame>)
  {
    fs != [] ==> Writable(fs[0]) && AllWritable(fs[1..])
  }

  ghost predicate AllEncodable(fs: seq<Frame>)
    ensures AllEncodable(fs) ==> AllWritable(fs)
  {
    fs != [] ==> Encodable(fs[0]) && AllEncodable(fs[1..])
  }

  /** The frames of a packet one after the other. */
  ghost function EncodeAll(fs: seq<Frame>): Bytes
    requires AllWritable(fs)
  {
    if fs == [] then [] else Encode(fs[0], EncodeAll(fs[1..]))
  }

  /** Reads frames until the payload is used up. */
  function DecodeAll(b: Bytes, pkt: PacketType): Result<seq<Frame>>
    decreases |b|
  {
    if b == [] then Ok([]) else
    var (f, rest) :- Decode(b, pkt);
    var fs :- DecodeAll(rest, pkt);
    Ok([f] + fs)
  }

  predicate AllValid(fs: seq<Frame>, pkt: PacketType)
  {
    fs != [] ==> ValidFrame(pkt, fs[0]) && AllValid(fs[1..], pkt)
  }

  predicate StartsWithTwoPaddings(fs: seq<Frame>)
  {
    1 < |fs| && fs[0].Paddings? && fs[1].Paddings?
  }

  /** No two PADDING runs in a row. */
  predicate PaddingsApart(fs: seq<Frame>)
  {
    fs != [] ==> !StartsWithTwoPaddings(fs) && PaddingsApart(fs[1..])
  }

  /** The payload with PADDING runs in a row taken together. */
  function Merged(fs: seq<Frame>): seq<Frame>
    decreases |fs|
  {
    if fs == [] then []
    else if StartsWithTwoPaddings(fs) then Merged(JoinPaddings(fs))
    else [fs[0]] + Merged(fs[1..])
  }

  function JoinPaddings(fs: seq<Frame>): (r: seq<Frame>)
    requires StartsWithTwoPaddings(fs)
    ensures |r| == |fs| - 1 && r[0] == Paddings(fs[0].len + fs[1].len) && r[1..] == fs[2..]
  {
    [Paddings(fs[0].len + fs[1].len)] + fs[2..]
  }

  /** Only PADDING starts with a zero byte. */
  lemma FirstByte(f: Frame, rest: Bytes)
    requires Writable(f) && !f.Paddings?
    ensures Encode(f, rest) != [] && Encode(f, rest)[0] != 0
  {
    hide WriteVarint; hide ReadVarint; hide WriteFields; hide TypeOf; hide Writable;
    var b := Encode(f, rest);
    assert ReadVarint(b).value.0 != 0;
    if b[0] == 0 { ReadZeroVarint(b); }
  }

  lemma {:induction false} ZerosAdd(a: nat, b: nat, rest: Bytes)
    ensures Zeros(a, Zeros(b, rest)) == Zeros(a + b, rest)
  {
    if a > 0 { ZerosAdd(a - 1, b, rest); }
  }

  lemma PaddingsEncode(n: nat, rest: Bytes)
    ensures Encode(Paddings(n), rest) == Zeros(n, rest)
  {
    assert BigEndian(0, 1) == [0];
    assert VarintBytes(0, 1) == [0];
  }

  lemma JoinedBytes(fs: seq<Frame>)
    requires AllEncodable(fs) && StartsWithTwoPaddings(fs)
    ensures AllEncodable(JoinPaddings(fs)) && EncodeAll(JoinPaddings(fs)) == EncodeAll(fs)
  {
    hide Encode;
    var a, b, rest := fs[0].len, fs[1].len, fs[2..];
    assert fs[1..][1..] == rest && fs[1..][0] == fs[1];
    var bytes := EncodeAll(rest);
    PaddingsEncode(a + b, bytes);
    PaddingsEncode(b, bytes);
    PaddingsEncode(a, Zeros(b, bytes));
    ZerosAdd(a, b, bytes);
  }

  lemma JoinedValid(fs: seq<Frame>, pkt: PacketType)
    requires StartsWithTwoPaddings(fs)
    ensures AllValid(JoinPaddings(fs), pkt) <==> AllValid(fs, pkt)
  {
    assert fs[1..][1..] == fs[2..] && fs[1..][0] == fs[1];
  }

  /** For every list of encodable frames, what the peer reads is known exactly: an error if
      the packet type forbids one of them, and otherwise the same frames, with PADDING
      runs in a row taken together. */
  lemma {:induction false} PayloadReads(fs: seq<Frame>, pkt: PacketType)
    requires AllEncodable(fs)
    ensures
      var r := DecodeAll(EncodeAll(fs), pkt);
      if AllValid(fs, pkt) then r == Ok(Merged(fs)) else r.Err?
    decreases |fs|
  {
    hide Encode; hide Decode; hide Encodable; hide ValidFrame; hide WireLen;
    if fs == [] {
    } else if StartsWithTwoPaddings(fs) {
      JoinedBytes(fs);
      JoinedValid(fs, pkt);
      PayloadReads(JoinPaddings(fs), pkt);
    } else {
      var f, tail := fs[0], fs[1..];
      PayloadReads(tail, pkt);
      if f.Paddings? && tail != [] { TailFirstByte(tail); }
      FrameRoundTrip(f, EncodeAll(tail), pkt);
      NotEmpty(f, EncodeAll(tail));
    }
  }

  lemma NotEmpty(f: Frame, rest: Bytes)
    requires Encodable(f)
    ensures Encode(f, rest) != []
  {
    hide WriteVarint; hide WriteFields; hide TypeOf;
  }

  lemma TailFirstByte(fs: seq<Frame>)
    requires AllEncodable(fs) && fs != [] && !fs[0].Paddings?
    ensures EncodeAll(fs) != [] && EncodeAll(fs)[0] != 0
  {
    FirstByte(fs[0], EncodeAll(fs[1..]));
  }

  lemma {:induction false} MergedIs(fs: seq<Frame>)
    ensures |Merged(fs)| <= |fs|
    ensures PaddingsApart(fs) ==> Merged(fs) == fs
    ensures !PaddingsApart(fs) ==> |Merged(fs)| < |fs|
    decreases |fs|
  {
    if fs != [] {
      if StartsWithTwoPaddings(fs) {
        MergedIs(JoinPaddings(fs));
      } else {
        MergedIs(fs[1..]);
        assert [fs[0]] + fs[1..] == fs;
      }
    }
  }

  lemma EncodablePayload(fs: seq<Frame>, pkt: PacketType)
    requires AllEncodable(fs)
    ensures DecodeAll(EncodeAll(fs), pkt) == Ok(fs) <==> AllValid(fs, pkt) && PaddingsApart(fs)
  {
    hide DecodeAll; hide EncodeAll; hide AllEncodable; hide Merged; hide PaddingsApart; hide AllValid;
    PayloadReads(fs, pkt);
    MergedIs(fs);
  }

  /** After any zeros comes a byte a frame type can begin with. */
  predicate CleanStart(b: Bytes)
  {
    var r := SkipZeros(b).1;
    r != [] ==> r[0] < 64 || r[0] == 0x95
  }

  lemma TypeByte(f: Frame, rest: Bytes)
    requires Writable(f) && !f.Paddings?
    ensures Encode(f, rest) != [] && (Encode(f, rest)[0] < 64 || Encode(f, rest)[0] == 0x95)
  {
    hide WriteVarint; hide WriteFields;
    VarintFirstByte(TypeOf(f), WriteFields(f, rest));
  }

  lemma {:induction false} EncodedStartsClean(fs: seq<Frame>)
    requires AllWritable(fs)
    ensures CleanStart(EncodeAll(fs))
  {
    hide Encode;
    if fs != [] {
      var f, rest := fs[0], EncodeAll(fs[1..]);
      if f.Paddings? {
        EncodedStartsClean(fs[1..]);
        PaddingsEncode(f.len, rest);
        ZerosAbsorb(f.len, rest);
      } else {
        TypeByte(f, rest);
        FirstByte(f, rest);
      }
    }
  }

  /** A zero run followed by the high byte of a length of 32768 or 49152: what would have to
      follow data of that length to be misread as more of it. */
  predicate Misread(b: Bytes)
  {
    && 6 <= |b| && b[0] == 0 == b[1]
    && (b[2] == 0x80 || (b[2] == 0 == b[3] && b[4] == 0xC0))
  }

  lemma MisreadIsNotClean(b: Bytes)
    requires Misread(b)
    ensures !CleanStart(b)
  {
    SkipZero(b);
    SkipZero(b[1..]);
    assert b[1..][1..] == b[2..];
    if b[2] == 0 {
      SkipZero(b[2..]);
      SkipZero(b[3..]);
      assert b[2..][1..] == b[3..] && b[3..][1..] == b[4..];
    }
  }

  lemma SkipZero(b: Bytes)
    requires b != []
    ensures if b[0] == 0 then SkipZeros(b).1 == SkipZeros(b[1..]).1 else SkipZeros(b).1 == b
  {
  }

  /** If `d` is `d` shifted by six with `rest` behind it, every byte of it is one of the
      first six, and `rest` goes on with them. */
  lemma {:induction false} Periodic(d: Bytes, rest: Bytes, i: nat)
    requires 6 <= |d| && |d| <= |d[6..] + rest| && d == (d[6..] + rest)[..|d|] && i < |d|
    ensures d[i] == d[i % 6]
  {
    if i >= 6 {
      Periodic(d, rest, i - 6);
      assert d[i - 6] == (d[6..] + rest)[i - 6] == d[i];
    }
  }

  lemma PeriodicRest(d: Bytes, rest: Bytes, j: nat)
    requires 6 <= |d| && |d| <= |d[6..] + rest| && d == (d[6..] + rest)[..|d|] && j < 6
    ensures 6 <= |rest| && rest[j] == d[(|d| + j) % 6]
  {
    var i := |d| - 6 + j;
    Periodic(d, rest, i);
    assert d[i] == (d[6..] + rest)[i] == rest[j];
    assert (|d| + j) % 6 == i % 6;
  }

  /** Data whose length does not fit two bytes is read as itself only if what follows is what
      no frame begins with. */
  lemma LongDataShifts(l: nat, d: Bytes, rest: Bytes, r: Bytes)
    requires 16383 < l < 65536
    requires
      var b := WriteVarintWithLen(l, 2, Write(d, rest));
      ReadVarint(b).Ok? && ReadVarint(b).value.0 == l && Read(ReadVarint(b).value.1, l) == Ok((d, r))
    ensures Misread(rest)
  {
    hide WriteVarintWithLen; hide ReadVarint; hide SkipZeros;
    var b := WriteVarintWithLen(l, 2, Write(d, rest));
    TwoByteLength(l, Write(d, rest));
    assert Write(d, rest) == d + rest;
    EightByteShift(l, d + rest);
    assert (d + rest)[6..] == d[6..] + rest;
    PeriodicRest(d, rest, 0);
    PeriodicRest(d, rest, 1);
    PeriodicRest(d, rest, 2);
    PeriodicRest(d, rest, 3);
    PeriodicRest(d, rest, 4);
  }

  /** Fields whose data does not reach 64 kbyte, as none that fits a datagram does. */
  predicate DataBelow64K(f: Frame) { f.Crypto? || f.Stream? ==> |f.data| < 65536 }

  predicate AllBelow64K(fs: seq<Frame>)
  {
    fs != [] ==> DataBelow64K(fs[0]) && AllBelow64K(fs[1..])
  }

  lemma LongCryptoShifts(f: Frame, rest: Bytes, r: Bytes)
    requires f.Crypto? && Writable(f) && !DataFits(f) && DataBelow64K(f)
    requires ReadBody(TypeOf(f), WriteFields(f, rest)) == Ok((f, r))
    ensures Misread(rest)
  {
    hide WriteVarintWithLen; hide ReadVarint; hide Write; hide Read; hide WriteVarint; hide EncodeVarintLen;
    LongDataShifts(f.length, f.data, rest, r);
  }

  lemma LongStreamShifts(f: Frame, rest: Bytes, r: Bytes)
    requires f.Stream? && Writable(f) && !DataFits(f) && DataBelow64K(f)
    requires ReadBody(TypeOf(f), WriteFields(f, rest)) == Ok((f, r))
    ensures Misread(rest)
  {
    hide WriteVarintWithLen; hide ReadVarint; hide Write; hide Read; hide WriteVarint; hide EncodeVarintLen;
    LongDataShifts(f.length, f.data, rest, r);
  }

  lemma PaddingsReadsItself(f: Frame, rest: Bytes, r: Bytes)
    requires f.Paddings? && Encodable(f) && ReadBody(TypeOf(f), WriteFields(f, rest)) == Ok((f, r))
    ensures Delimited(f, rest)
  {
    ZerosAbsorb(Since(f.len, 1), rest);
  }

  /** A frame that is read as itself from the bytes of a payload was followed by what is left,
      and is encodable. */
  lemma ReadsItself(f: Frame, rest: Bytes, r: Bytes)
    requires Writable(f) && f != Paddings(0) && DataBelow64K(f) && CleanStart(rest)
    requires ReadBody(TypeOf(f), WriteFields(f, rest)) == Ok((f, r))
    ensures Encodable(f) && r == rest
  {
    hide ReadBody; hide WriteFields; hide TypeOf; hide Encodable; hide Writable; hide CleanStart; hide Misread;
    ParsedIsEncodable(TypeOf(f), WriteFields(f, rest));
    if DataFits(f) {
      if f.Paddings? { PaddingsReadsItself(f, rest, r); }
      BodyRoundTrip(f, rest);
    } else {
      if f.Crypto? { LongCryptoShifts(f, rest, r); } else { LongStreamShifts(f, rest, r); }
      MisreadIsNotClean(rest);
    }
  }

  lemma DecodesItself(f: Frame, rest: Bytes, r: Bytes, pkt: PacketType)
    requires Writable(f) && DataBelow64K(f) && CleanStart(rest) && Decode(Encode(f, rest), pkt) == Ok((f, r))
    ensures Encodable(f) && r == rest
  {
    hide ReadBody; hide WriteFields; hide TypeOf; hide Encodable; hide Writable; hide CleanStart; hide ReadVarint;
    hide WriteVarint;
    if f == Paddings(0) {
      NoEmptyPaddings(rest, pkt);
    } else {
      ReadsItself(f, rest, r);
    }
  }

  lemma NoEmptyPaddings(b: Bytes, pkt: PacketType)
    ensures Decode(b, pkt).Ok? ==> Decode(b, pkt).value.0 != Paddings(0)
  {
    hide ReadBody; hide ReadVarint; hide Writable;
    if Decode(b, pkt).Ok? {
      var (t, b1) := ReadVarint(b).value;
      ParsedIsEncodable(t, b1);
    }
  }

  /** A list of frames that reads back has encodable frames only. */
  lemma {:induction false} OnlyEncodableReadsBack(fs: seq<Frame>, pkt: PacketType)
    requires AllWritable(fs) && AllBelow64K(fs) && DecodeAll(EncodeAll(fs), pkt) == Ok(fs)
    ensures AllEncodable(fs)
  {
    hide Encode; hide Decode; hide Encodable; hide Writable; hide CleanStart; hide DataBelow64K;
    if fs != [] {
      var f, tail := fs[0], fs[1..];
      var rest := EncodeAll(tail);
      var (g, r) := Decode(EncodeAll(fs), pkt).value;
      var gs := DecodeAll(r, pkt).value;
      assert [g] + gs == fs;
      assert g == ([g] + gs)[0] == f && gs == ([g] + gs)[1..] == tail;
      EncodedStartsClean(tail);
      DecodesItself(f, rest, r, pkt);
      OnlyEncodableReadsBack(tail, pkt);
    }
  }

  /** A payload of any frames the encoder can write reads back as the list that was written,
      and is used up, if and only if every frame is encodable and allowed in the packet type
      and no two PADDING runs touch. */
  lemma PayloadRoundTrip(fs: seq<Frame>, pkt: PacketType)
    requires AllWritable(fs) && AllBelow64K(fs)
    ensures DecodeAll(EncodeAll(fs), pkt) == Ok(fs) <==> AllEncodable(fs) && AllValid(fs, pkt) && PaddingsApart(fs)
  {
    hide DecodeAll; hide EncodeAll; hide AllEncodable; hide PaddingsApart; hide AllValid; hide AllBelow64K;
    if AllEncodable(fs) {
      EncodablePayload(fs, pkt);
    } else if DecodeAll(EncodeAll(fs), pkt) == Ok(fs) {
      OnlyEncodableReadsBack(fs, pkt);
    }
  }

  /** A CRYPTO frame with one byte more than its length field can say does not come back. */
  lemma LongCryptoIsLost(data: Bytes, rest: Bytes, pkt: PacketType)
    requires |data| == 16384
    ensures
      var f := Crypto(0, 16384, data);
      Writable(f) && !Encodable(f) && Decode(Encode(f, rest), pkt) != Ok((f, rest))
  {
    hide Decode; hide Encode;
    FrameRoundTripIff(Crypto(0, 16384, data), rest, pkt);
  }

  /** Two touching PADDING runs come back as one. */
  lemma TouchingPaddingsMerge(pkt: PacketType)
    ensures
      var fs := [Paddings(1), Paddings(1)];
      AllEncodable(fs) && DecodeAll(EncodeAll(fs), pkt) == Ok([Paddings(2)])
  {
    hide DecodeAll; hide EncodeAll;
    var fs := [Paddings(1), Paddings(1)];
    assert fs[1..] == [Paddings(1)] && fs[1..][1..] == [];
    PayloadReads(fs, pkt);
    assert JoinPaddings(fs) == [Paddings(2)];
    assert [Paddings(2)][1..] == [];
  }

  lemma {:induction false} AckPairsPrepend(rs: List, smallest: nat, a: Bytes, rest: Bytes)
    requires Chain(rs, smallest) && smallest <= VINT_MAX
    ensures WriteAckPairs(rs, smallest, a + rest) == WriteAckPairs(rs, smallest, a) + rest
  {
    hide WriteVarint; hide ReadVarint; hide EncodeVarintLen;
    if rs.Cons? {
      var r := rs.head;
      AckPairsPrepend(rs.tail, r.start, a, rest);
      TwoPrepend(smallest - r.end - 1, r.end - 1 - r.start, WriteAckPairs(rs.tail, r.start, a), rest);
    }
  }

  lemma {:induction false} ZerosPrepend(n: nat, rest: Bytes)
    ensures Zeros(n, rest) == Zeros(n, []) + rest
  {
    if n > 0 { ZerosPrepend(n - 1, rest); }
  }

  lemma EcnPrepend(ecn: Option<EcnCounts>, rest: Bytes)
    requires EcnFits(ecn)
    ensures WriteEcn(ecn, rest) == WriteEcn(ecn, []) + rest
  {
    hide WriteVarint;
    if ecn.Some? { ThreePrepend(ecn.value.ect0, ecn.value.ect1, ecn.value.ce, [], rest); }
  }

  lemma AckPrepend(d: nat, rs: List, ecn: Option<EcnCounts>, rest: Bytes)
    requires V(d) && rs.Cons? && Chain(rs, VINT_MAX + 2) && Length(rs.tail) <= VINT_MAX && EcnFits(ecn)
    ensures WriteAck(d, rs, ecn, rest) == WriteAck(d, rs, ecn, []) + rest
  {
    hide WriteVarint; hide ReadVarint; hide WriteAckPairs; hide WriteEcn; hide EncodeVarintLen; hide AckLen;
    var r := rs.head;
    EcnPrepend(ecn, rest);
    AckPairsPrepend(rs.tail, r.start, WriteEcn(ecn, []), rest);
    var pairs := WriteAckPairs(rs.tail, r.start, WriteEcn(ecn, []));
    FourPrepend(r.end - 1, d, Length(rs.tail), r.end - 1 - r.start, pairs, rest);
  }

  lemma FourPrepend(a: nat, b: nat, c: nat, d: nat, x: Bytes, rest: Bytes)
    requires V(a) && V(b) && V(c) && V(d)
    ensures WriteVarint(a, WriteVarint(b, WriteVarint(c, WriteVarint(d, x + rest))))
         == WriteVarint(a, WriteVarint(b, WriteVarint(c, WriteVarint(d, x)))) + rest
  {
    hide WriteVarint; hide ReadVarint; hide EncodeVarintLen;
    TwoPrepend(c, d, x, rest);
    TwoPrepend(a, b, WriteVarint(c, WriteVarint(d, x)), rest);
  }

  lemma BlobPrepend(s: Bytes, rest: Bytes)
    requires V(|s|)
    ensures WriteBlob(s, rest) == WriteBlob(s, []) + rest
  {
    WritesPrepend(rest);
  }

  lemma TwoPrepend(a: nat, b: nat, x: Bytes, rest: Bytes)
    requires V(a) && V(b)
    ensures WriteVarint(a, WriteVarint(b, x + rest)) == WriteVarint(a, WriteVarint(b, x)) + rest
  {
    hide WriteVarint; hide ReadVarint; hide EncodeVarintLen;
    VarintPrepends(b, x, rest);
    VarintPrepends(a, WriteVarint(b, x), rest);
  }

  lemma ThreePrepend(a: nat, b: nat, c: nat, x: Bytes, rest: Bytes)
    requires V(a) && V(b) && V(c)
    ensures WriteVarint(a, WriteVarint(b, WriteVarint(c, x + rest)))
         == WriteVarint(a, WriteVarint(b, WriteVarint(c, x))) + rest
    ensures [] + rest == rest
  {
    hide WriteVarint; hide ReadVarint; hide EncodeVarintLen;
    VarintPrepends(c, x, rest);
    TwoPrepend(a, b, WriteVarint(c, x), rest);
  }

  lemma BlobFieldsPrepend(f: Frame, rest: Bytes)
    requires Writable(f) && (f.NewToken? || f.ConnectionClose? || f.ApplicationClose? || f.PathAbandon?)
    ensures WriteByteFields(f, rest) == WriteByteFields(f, []) + rest
  {
    hide WriteVarint; hide ReadVarint; hide EncodeVarintLen; hide WriteBlob;
    var s := if f.NewToken? then f.token else f.reason;
    BlobPrepend(s, rest);
    match f
    case ConnectionClose(e, t, _) => TwoPrepend(e, t, WriteBlob(s, []), rest);
    case PathAbandon(n, e, _) => TwoPrepend(n, e, WriteBlob(s, []), rest);
    case ApplicationClose(e, _) => VarintPrepends(e, WriteBlob(s, []), rest);
    case NewToken(_) =>
  }

  lemma DataFieldsPrepend(f: Frame, rest: Bytes)
    requires Writable(f)
    requires f.Crypto? || f.Stream? || f.NewConnectionId? || f.PathChallenge? || f.PathResponse?
    ensures WriteByteFields(f, rest) == WriteByteFields(f, []) + rest
  {
    hide WriteVarint; hide ReadVarint; hide EncodeVarintLen; hide WriteVarintWithLen; hide WriteUint; hide Write;
    WritesPrepend(rest);
  }

  lemma VarintFieldsPrepend(f: Frame, rest: Bytes)
    requires Writable(f) && CarriesInts(f)
    ensures WriteIntFields(f, rest) == WriteIntFields(f, []) + rest
  {
    hide WriteVarint; hide ReadVarint; hide EncodeVarintLen;
    assert [] + rest == rest;
    match f
    case ResetStream(s, e, z) => ThreePrepend(s, e, z, [], rest);
    case PathStatus(n, s, t) => ThreePrepend(n, s, t, [], rest);
    case StopSending(s, e) => TwoPrepend(s, e, [], rest);
    case MaxStreamData(s, m) => TwoPrepend(s, m, [], rest);
    case StreamDataBlocked(s, m) => TwoPrepend(s, m, [], rest);
    case MaxData(m) => VarintPrepends(m, [], rest);
    case MaxStreams(_, m) => VarintPrepends(m, [], rest);
    case DataBlocked(m) => VarintPrepends(m, [], rest);
    case StreamsBlocked(_, m) => VarintPrepends(m, [], rest);
    case RetireConnectionId(n) => VarintPrepends(n, [], rest);
  }

  lemma AckFieldsPrepend(f: Frame, rest: Bytes)
    requires f.Ack? && Writable(f)
    ensures WriteFields(f, rest) == WriteFields(f, []) + rest
  {
    hide WriteAck; hide AckList;
    AckPrepend(f.ackDelay, AckList(f.ackRanges.ranges), f.ecnCounts, rest);
  }

  /** What is written for a frame does not depend on what follows: a payload is the
      concatenation of its frames' own bytes. */
  lemma EncodePrepend(f: Frame, rest: Bytes)
    requires Writable(f)
    ensures Encode(f, rest) == Encode(f, []) + rest
  {
    hide WriteVarint; hide TypeOf; hide WriteAck; hide Zeros; hide WriteByteFields; hide WriteIntFields; hide AckList;
    if f.Paddings? {
      ZerosPrepend(Since(f.len, 1), rest);
    } else if f.Ack? {
      AckFieldsPrepend(f, rest);
    } else if f.NewToken? || f.ConnectionClose? || f.ApplicationClose? || f.PathAbandon? {
      BlobFieldsPrepend(f, rest);
    } else if CarriesBytes(f) {
      DataFieldsPrepend(f, rest);
    } else if CarriesInts(f) {
      VarintFieldsPrepend(f, rest);
    } else {
      assert [] + rest == rest;
    }
    if f != Paddings(0) { VarintPrepends(TypeOf(f), WriteFields(f, []), rest); }
  }

  /** The ACK Range Count field, behind the largest number and the delay. */
  function RangeCount(b: Bytes): Result<nat>
  {
    var (_, b1) :- ReadVarint(b);
    var (_, b2) :- ReadVarint(b1);
    var (count, _) :- ReadVarint(b2);
    Ok(count)
  }

  /** Whatever ACK parses yields a canonical set with one range more than its range
      count, and the set lists the ranges in the order they were read. */
  lemma ParsedAckIsCanonical(t: nat, b: Bytes)
    requires ReadAck(t, b).Ok?
    ensures
      var rs := ReadAck(t, b).value.0.ranges;
      var m := InsertAll(map[], rs);
      && AckSet(m) && Descending(m) == rs
      && RangeCount(b).Ok? && |m| == Length(rs) == RangeCount(b).value + 1
  {
    hide ReadAck; hide RangeCount;
    var rs := ReadAck(t, b).value.0.ranges;
    CountRead(t, b);
    AckAboveNothing();
    InsertAllChain(map[], rs, VINT_MAX + 2);
    hide AckAbove; hide Append;
    ChainListed(rs);
  }

  lemma AckAboveNothing()
    ensures AckAbove(map[], VINT_MAX + 2)
  {
  }

  lemma CountRead(t: nat, b: Bytes)
    requires ReadAck(t, b).Ok?
    ensures RangeCount(b).Ok? && Length(ReadAck(t, b).value.0.ranges) == RangeCount(b).value + 1
  {
    hide ReadVarint; hide ReadEcn; hide ReadAckPairs; hide Chain;
  }

  lemma ChainListed(rs: List)
    requires rs.Cons? && AckAbove(InsertAll(map[], rs), 0)
    requires Descending(InsertAll(map[], rs)) == Append(Descending(map[]), rs)
    ensures var m := InsertAll(map[], rs); AckSet(m) && Descending(m) == rs && |m| == Length(rs)
  {
    hide InsertAll; hide Inserted;
    assert Descending(map[]) == Nil;
  }

  /** The data of a CRYPTO or STREAM frame fits the two-byte length field of the encoder. */
  predicate DataFits(f: Frame) { f.Crypto? || f.Stream? ==> |f.data| <= 16383 }

  /** Every frame that parses can be written again, and parses to itself if and only if its
      data fits the encoder's length field (and a PADDING run is followed by something
      else). */
  lemma ReparseIsStable(b: Bytes, pkt: PacketType, rest: Bytes)
    requires Decode(b, pkt).Ok?
    ensures
      var f := Decode(b, pkt).value.0;
      && Writable(f)
      && (Decode(Encode(f, rest), pkt) == Ok((f, rest)) <==> DataFits(f) && Delimited(f, rest))
  {
    hide ReadVarint; hide ReadBody; hide Encodable; hide Writable; hide Encode;
    var (t, b1) := ReadVarint(b).value;
    var f := Decode(b, pkt).value.0;
    ParsedIsEncodable(t, b1);
    hide Decode;
    FrameRoundTripIff(f, rest, pkt);
  }

  lemma ParsedIsEncodable(t: nat, b: Bytes)
    requires ReadBody(t, b).Ok?
    ensures var f := ReadBody(t, b).value.0; Writable(f) && (Encodable(f) <==> DataFits(f))
  {
    hide ReadBody; hide Encodable; hide Writable;
    if t == 0x02 || t == 0x03 {
      ParsedAckIsEncodable(t, b);
    } else if t < 0x10 {
      ParsedDataIsEncodable(t, b);
    } else {
      ParsedOtherIsEncodable(t, b);
    }
  }

  lemma ParsedAckIsEncodable(t: nat, b: Bytes)
    requires ReadBody(t, b).Ok? && (t == 0x02 || t == 0x03)
    ensures var f := ReadBody(t, b).value.0; Writable(f) && Encodable(f) && DataFits(f)
  {
    hide ReadAck; hide InsertAll; hide AckSet;
    ParsedAckIsCanonical(t, b);
  }

  lemma ParsedDataIsEncodable(t: nat, b: Bytes)
    requires ReadBody(t, b).Ok? && t < 0x10 && t != 0x02 && t != 0x03
    ensures var f := ReadBody(t, b).value.0; Writable(f) && (Encodable(f) <==> DataFits(f))
  {
    hide ReadVarint; hide ReadWithVarintLength; hide ReadUint; hide Read; hide ReadAck; hide InsertAll; hide AckSet;
    hide SkipZeros;
  }

  lemma ParsedOtherIsEncodable(t: nat, b: Bytes)
    requires ReadBody(t, b).Ok? && 0x10 <= t
    ensures var f := ReadBody(t, b).value.0; Writable(f) && Encodable(f) && DataFits(f)
  {
    hide ReadVarint; hide ReadWithVarintLength; hide ReadUint; hide Read; hide ReadAck; hide InsertAll; hide AckSet;
    hide SkipZeros;
  }

  // ----------------------------------------------------- the loops of the source

  /** Parsing the remaining `count` pairs and inserting them into `acc`. */
  function ParseRanges(count: nat, smallest: nat, acc: Map, b: Bytes): Result<(Map, Bytes)>
  {
    var (rs, rest) :- ReadAckPairs(count, smallest, b);
    Ok((InsertAll(acc, rs), rest))
  }

  /** `parse_ack_frame`: the ranges go into a `RangeSet` one by one while `smallest`
      moves down. */
  method ParseAckFrame(frameType: nat, buf: Bytes) returns (r: Result<(Frame, Bytes)>)
    ensures ReadAck(frameType, buf).Err? ==> r == Err(ReadAck(frameType, buf).error)
    ensures ReadAck(frameType, buf).Ok? ==>
      var (a, rest) := ReadAck(frameType, buf).value;
      r == Ok((Ack(a.delay, AckRanges(InsertAll(map[], a.ranges), U64_MAX), a.ecn), rest))
  {
    hide ReadVarint; hide Inserted; hide ReadEcn;
    var ranges := new RangeSet(U64_MAX);
    var largestAck :- ReadVarint(buf);
    var ackDelay :- ReadVarint(largestAck.1);
    var rangeCount :- ReadVarint(ackDelay.1);
    var firstLen :- ReadVarint(rangeCount.1);
    if largestAck.0 < firstLen.0 { return Err(FrameEncodingError); }
    var smallest, b := largestAck.0 - firstLen.0, firstLen.1;
    InsertedCanonical(map[], U64_MAX, smallest, largestAck.0 + 1);
    ranges.Insert(smallest, largestAck.0 + 1);
    ghost var whole := ParseRanges(rangeCount.0, smallest, ranges.ranges, b);
    var left := rangeCount.0;
    while left > 0
      invariant ranges.capacity == U64_MAX && Canonical(ranges.ranges)
      invariant ParseRanges(left, smallest, ranges.ranges, b) == whole
    {
      var gap :- ReadVarint(b);
      if smallest < 2 + gap.0 { return Err(FrameEncodingError); }
      var largest := smallest - gap.0 - 2;
      var len :- ReadVarint(gap.1);
      if largest < len.0 { return Err(FrameEncodingError); }
      InsertedCanonical(ranges.ranges, U64_MAX, largest - len.0, largest + 1);
      ranges.Insert(largest - len.0, largest + 1);
      smallest, b, left := largest - len.0, len.1, left - 1;
    }
    var ecn :- ReadEcn(frameType, b);
    return Ok((Ack(ackDelay.0, AckRanges(ranges.ranges, ranges.capacity), ecn.0), ecn.1));
  }

  /** The range loop of `to_bytes`: writes the pairs after `written`. */
  method WriteAckLoop(rs: List, first: nat, written: Bytes) returns (out: Bytes)
    requires Chain(rs, first) && first <= VINT_MAX
    ensures out == written + WriteAckPairs(rs, first, [])
  {
    hide WriteVarint; hide ReadVarint; hide EncodeVarintLen; hide AckPairsLen;
    out := written;
    var it := rs;
    var smallest: nat := first;
    while it.Cons?
      invariant Chain(it, smallest) && smallest <= VINT_MAX
      invariant out + WriteAckPairs(it, smallest, []) == written + WriteAckPairs(rs, first, [])
      decreases it
    {
      var r := it.head;
      var gap, len := WriteVarint(smallest - r.end - 1, []), WriteVarint(r.end - 1 - r.start, []);
      OnePairPrepend(it, smallest, out);
      out := out + gap + len;
      it, smallest := it.tail, r.start;
    }
    assert out + [] == out;
  }

  lemma OnePairPrepend(rs: List, smallest: nat, out: Bytes)
    requires rs.Cons? && Chain(rs, smallest) && smallest <= VINT_MAX
    ensures
      var r := rs.head;
      out + WriteVarint(smallest - r.end - 1, []) + WriteVarint(r.end - 1 - r.start, [])
        + WriteAckPairs(rs.tail, r.start, [])
        == out + WriteAckPairs(rs, smallest, [])
  {
    hide WriteVarint; hide ReadVarint; hide EncodeVarintLen;
    var r := rs.head;
    var tail := WriteAckPairs(rs.tail, r.start, []);
    var g, l := WriteVarint(smallest - r.end - 1, []), WriteVarint(r.end - 1 - r.start, []);
    VarintPrepends(r.end - 1 - r.start, [], tail);
    VarintPrepends(smallest - r.end - 1, [], l + tail);
    assert [] + tail == tail && [] + (l + tail) == l + tail;
    Assoc(out, g, l, tail);
  }

  lemma Assoc(a: Bytes, b: Bytes, c: Bytes, d: Bytes)
    ensures a + b + c + d == a + (b + (c + d))
  {
  }

  /** The PADDING loop of `from_bytes`. */
  method ReadPaddings(buf: Bytes) returns (len: nat, rest: Bytes)
    ensures (len, rest) == (1 + SkipZeros(buf).0, SkipZeros(buf).1)
  {
    len, rest := 1, buf;
    while rest != [] && rest[0] == 0
      invariant len + SkipZeros(rest).0 == 1 + SkipZeros(buf).0
      invariant SkipZeros(rest).1 == SkipZeros(buf).1
      decreases |rest|
    {
      rest, len := rest[1..], len + 1;
    }
  }

  /** The PADDING loop of `to_bytes`. */
  method WritePaddings(len: nat, written: Bytes) returns (out: Bytes)
    ensures out == written + Zeros(len, [])
  {
    out := written;
    var left: nat := len;
    while left > 0
      invariant left <= len && out + Zeros(left, []) == written + Zeros(len, [])
    {
      out, left := out + [0], left - 1;
    }
    assert out + [] == out;
  }
}
