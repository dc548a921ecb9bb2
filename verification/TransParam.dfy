/** Transport parameters (src/trans_param.rs; section 18 of RFC 9000): what one endpoint
    encodes and the other decodes. */
module TransParams {
  import opened Base
  import opened Codec

  const MAX_STREAMS_PER_TYPE: nat := 0x1000_0000_0000_0000
  const MULTIPATH: nat := 0x0f739bbc1b666d05
  const NO_ENCRYPTION: nat := 0xbaad

  datatype Address = Address(ip: Bytes, port: nat)

  /** `SocketAddrV6`: flow information and scope belong to the address but are not sent. */
  datatype AddressV6 = AddressV6(address: Address, flowInfo: nat, scopeId: nat)

  datatype PreferredAddress = PreferredAddress(
    v4: Option<Address>,
    v6: Option<AddressV6>,
    cid: Bytes,
    token: Bytes)

  /** The connection IDs of the handshake. */
  datatype Cids = Cids(original: Option<Bytes>, initialSource: Option<Bytes>, retrySource: Option<Bytes>)

  /** Initial flow control and stream limits. */
  datatype Limits = Limits(data: nat, bidiLocal: nat, bidiRemote: nat, uni: nat, streamsBidi: nat, streamsUni: nat)

  datatype Timing = Timing(idleTimeout: nat, udpPayload: nat, ackDelayExponent: nat, maxAckDelay: nat, cidLimit: nat)

  datatype Flags = Flags(noMigration: bool, multipath: bool, noEncryption: bool)

  datatype Params = Params(
    cids: Cids,
    timing: Timing,
    limits: Limits,
    flags: Flags,
    resetToken: Option<nat>,
    preferred: Option<PreferredAddress>)

  const DEFAULT := Params(
    Cids(None, None, None),
    Timing(0, 65527, 3, 25, 2),
    Limits(0, 0, 0, 0, 0, 0),
    Flags(false, false, false),
    None,
    None)

  // --------------------------------------------------------------- preferred address

  const ZERO4: Bytes := [0, 0, 0, 0]
  const ZERO6: Bytes := [0, 0, 0, 0, 0, 0, 0, 0, 0, 0, 0, 0, 0, 0, 0, 0]

  function WriteAddress(a: Option<Address>, zero: Bytes, rest: Bytes): Bytes
  {
    match a
    case Some(x) => Write(x.ip, WriteUint(x.port, 2, rest))
    case None => Write(zero, WriteUint(0, 2, rest))
  }

  function WritePreferred(p: PreferredAddress, rest: Bytes): Bytes
  {
    WriteAddress(p.v4, ZERO4,
      WriteAddress(Sent(p.v6), ZERO6,
        WriteUint(|p.cid|, 1, Write(p.cid, Write(p.token, rest)))))
  }

  /** The part of an IPv6 socket address that is sent. */
  function Sent(a: Option<AddressV6>): Option<Address>
  {
    match a case None => None case Some(x) => Some(x.address)
  }

  /** The IPv6 socket address built from what was received. */
  function Received(a: Option<Address>): Option<AddressV6>
  {
    match a case None => None case Some(x) => Some(AddressV6(x, 0, 0))
  }

  function ReadAddress(b: Bytes, size: nat, zero: Bytes): (r: Result<(Option<Address>, Bytes)>)
  {
    var (ip, b1) :- Read(b, size);
    var (port, b2) :- ReadUint(b1, 2);
    Ok((if ip == zero && port == 0 then None else Some(Address(ip, port)), b2))
  }

  function ReadPreferred(b: Bytes): (r: Result<PreferredAddress>)
  {
    var (v4, b1) :- ReadAddress(b, 4, ZERO4);
    var (v6, b2) :- ReadAddress(b1, 16, ZERO6);
    var (k, b3) :- ReadUint(b2, 1);
    var (cid, b4) :- Read(b3, k);
    var (token, _) :- Read(b4, 16);
    Ok(PreferredAddress(v4, Received(v6), Cid(cid), token))
  }

  predicate AddressFits(a: Option<Address>, size: nat)
  {
    a.Some? ==> |a.value.ip| == size && a.value.port < 65536
  }

  predicate PreferredFits(p: PreferredAddress)
  {
    AddressFits(p.v4, 4) && AddressFits(Sent(p.v6), 16) && |p.cid| <= MAX_CID_LEN && |p.token| == 16
  }

  /** An all-zero address means no address. */
  function NormalAddress(a: Option<Address>, zero: Bytes): Option<Address>
  {
    if a == Some(Address(zero, 0)) then None else a
  }

  function NormalPreferred(p: PreferredAddress): PreferredAddress
  {
    p.(v4 := NormalAddress(p.v4, ZERO4), v6 := Received(NormalAddress(Sent(p.v6), ZERO6)))
  }

  lemma AddressRoundTrip(a: Option<Address>, size: nat, zero: Bytes, rest: Bytes)
    requires AddressFits(a, size) && |zero| == size
    ensures ReadAddress(WriteAddress(a, zero, rest), size, zero) == Ok((NormalAddress(a, zero), rest))
  {
    hide WriteUint; hide ReadUint; hide Write; hide Read;
    assert Pow256(2) == 65536;
  }

  lemma PreferredRoundTrip(p: PreferredAddress, rest: Bytes)
    requires PreferredFits(p)
    ensures ReadPreferred(WritePreferred(p, rest)) == Ok(NormalPreferred(p))
  {
    hide WriteUint; hide ReadUint; hide Write; hide Read; hide ReadAddress; hide WriteAddress;
    var b2 := WriteUint(|p.cid|, 1, Write(p.cid, Write(p.token, rest)));
    AddressRoundTrip(Sent(p.v6), 16, ZERO6, b2);
    AddressRoundTrip(p.v4, 4, ZERO4, WriteAddress(Sent(p.v6), ZERO6, b2));
    assert Pow256(1) == 256;
  }

  // -------------------------------------------------------------- a single parameter

  datatype Value = VCid(cid: Bytes) | VInt(n: nat) | VToken(token: nat) | VAddress(address: PreferredAddress) | VFlag

  /** Parameters only a server may send. */
  predicate ServerOnly(id: nat) { id == 0x00 || id == 0x02 || id == 0x0d || id == 0x10 }

  predicate IntParam(id: nat) { id == 0x01 || 0x03 <= id <= 0x0b || id == 0x0e }

  /** The range checks on integer parameters. */
  predicate IntAllowed(id: nat, n: nat)
  {
    && (id == 0x03 ==> 1200 <= n)
    && (id == 0x08 || id == 0x09 ==> n <= MAX_STREAMS_PER_TYPE)
    && (id == 0x0a ==> n <= 20)
    && (id == 0x0b ==> n < 0x4000)
    && (id == 0x0e ==> 2 <= n)
  }

  /** Reads one parameter value as the endpoint with role `isServer`. */
  function Interpret(id: nat, val: Bytes, isServer: bool): (r: Result<Value>)
  {
    if ServerOnly(id) && isServer then Err(TransportParameterError)
    else if id == 0x00 || id == 0x0f || id == 0x10 then Ok(VCid(Cid(val)))
    else if id == 0x02 then
      var (token, _) :- Read(val, 16);
      Ok(VToken(FromBigEndian(token)))
    else if id == 0x0d then
      var p :- ReadPreferred(val);
      Ok(VAddress(p))
    else if IntParam(id) then
      var (n, _) :- ReadVarint(val);
      if IntAllowed(id, n) then Ok(VInt(n)) else Err(TransportParameterError)
    else Ok(VFlag)
  }

  /** Stores a value; parameters the endpoint does not know are ignored. */
  function Store(tp: Params, id: nat, v: Value): Params
  {
    match v
    case VCid(c) =>
      if id == 0x00 then tp.(cids := tp.cids.(original := Some(c)))
      else if id == 0x0f then tp.(cids := tp.cids.(initialSource := Some(c)))
      else tp.(cids := tp.cids.(retrySource := Some(c)))
    case VToken(t) => tp.(resetToken := Some(t))
    case VAddress(p) => tp.(preferred := Some(p))
    case VInt(n) => StoreInt(tp, id, n)
    case VFlag =>
      if id == 0x0c then tp.(flags := tp.flags.(noMigration := true))
      else if id == MULTIPATH then tp.(flags := tp.flags.(multipath := true))
      else if id == NO_ENCRYPTION then tp.(flags := tp.flags.(noEncryption := true))
      else tp
  }

  function StoreInt(tp: Params, id: nat, n: nat): Params
  {
    if id == 0x01 then tp.(timing := tp.timing.(idleTimeout := n))
    else if id == 0x03 then tp.(timing := tp.timing.(udpPayload := n))
    else if id == 0x04 then tp.(limits := tp.limits.(data := n))
    else if id == 0x05 then tp.(limits := tp.limits.(bidiLocal := n))
    else if id == 0x06 then tp.(limits := tp.limits.(bidiRemote := n))
    else if id == 0x07 then tp.(limits := tp.limits.(uni := n))
    else if id == 0x08 then tp.(limits := tp.limits.(streamsBidi := n))
    else if id == 0x09 then tp.(limits := tp.limits.(streamsUni := n))
    else if id == 0x0a then tp.(timing := tp.timing.(ackDelayExponent := n))
    else if id == 0x0b then tp.(timing := tp.timing.(maxAckDelay := n))
    else tp.(timing := tp.timing.(cidLimit := n))
  }

  // -------------------------------------------------------------------- the TLV list

  datatype List = Nil | Cons(id: nat, val: Bytes, tail: List)

  /** Varint-framed parameters. */
  function WriteParams(ps: List): Bytes
    requires Framed(ps)
  {
    match ps
    case Nil => []
    case Cons(id, val, tail) => WriteVarint(id, WriteVarint(|val|, Write(val, WriteParams(tail))))
  }

  predicate Framed(ps: List)
  {
    ps.Cons? ==> ps.id <= VINT_MAX && |ps.val| <= VINT_MAX && Framed(ps.tail)
  }

  /** The decode loop: `found` holds the ids seen so far. */
  function DecodeLoop(tp: Params, found: set<nat>, b: Bytes, isServer: bool): Result<Params>
    decreases |b|
  {
    if b == [] then Ok(tp) else
    var (id, b1) :- ReadVarint(b);
    if id in found then Err(TransportParameterError) else
    var (val, b2) :- ReadWithVarintLength(b1);
    var v :- Interpret(id, val, isServer);
    DecodeLoop(Store(tp, id, v), found + {id}, b2, isServer)
  }

  function Decode(b: Bytes, isServer: bool): Result<Params>
  {
    DecodeLoop(DEFAULT, {}, b, isServer)
  }

  /** The same loop on the list of parameters. */
  function ApplyAll(tp: Params, found: set<nat>, ps: List, isServer: bool): Result<Params>
    decreases ps
  {
    match ps
    case Nil => Ok(tp)
    case Cons(id, val, tail) =>
      if id in found then Err(TransportParameterError) else
      var v :- Interpret(id, val, isServer);
      ApplyAll(Store(tp, id, v), found + {id}, tail, isServer)
  }

  lemma {:induction false} DecodeReadsList(tp: Params, found: set<nat>, ps: List, isServer: bool)
    requires Framed(ps)
    ensures DecodeLoop(tp, found, WriteParams(ps), isServer) == ApplyAll(tp, found, ps, isServer)
    decreases ps
  {
    hide WriteVarint; hide ReadVarint; hide Write; hide Read; hide Interpret; hide Store;
    match ps
    case Nil =>
    case Cons(id, val, tail) =>
      var v := Interpret(id, val, isServer);
      if v.Ok? { DecodeReadsList(Store(tp, id, v.value), found + {id}, tail, isServer); }
  }

  // ---------------------------------------------------------------------- any order

  predicate Same(a: Result<Params>, b: Result<Params>) { a == b || (a.Err? && b.Err?) }

  datatype Param = Param(id: nat, val: Bytes)

  function Elements(ps: List): multiset<Param>
  {
    match ps case Nil => multiset{} case Cons(id, val, tail) => multiset{Param(id, val)} + Elements(tail)
  }

  /** `ps` without the first occurrence of `p`. */
  function Without(ps: List, p: Param): List
    requires p in Elements(ps)
  {
    if Param(ps.id, ps.val) == p then ps.tail else Cons(ps.id, ps.val, Without(ps.tail, p))
  }

  lemma {:induction false} WithoutElements(ps: List, p: Param)
    requires p in Elements(ps)
    ensures Elements(Without(ps, p)) == Elements(ps) - multiset{p}
  {
    if Param(ps.id, ps.val) != p { WithoutElements(ps.tail, p); }
  }

  /** Values of different parameters are stored independently of each other. */
  lemma StoreCommutes(tp: Params, i: nat, v: Value, j: nat, w: Value)
    requires i != j && Typed(i, v) && Typed(j, w)
    ensures Store(Store(tp, i, v), j, w) == Store(Store(tp, j, w), i, v)
  {
    if v.VInt? && w.VInt? { IntsCommute(tp, i, v.n, j, w.n); }
    else if v.VInt? || w.VInt? { IntAndOtherCommute(tp, i, v, j, w); }
  }

  lemma IntsCommute(tp: Params, i: nat, m: nat, j: nat, n: nat)
    requires i != j && IntParam(i) && IntParam(j)
    ensures StoreInt(StoreInt(tp, i, m), j, n) == StoreInt(StoreInt(tp, j, n), i, m)
  {
  }

  lemma IntAndOtherCommute(tp: Params, i: nat, v: Value, j: nat, w: Value)
    requires i != j && Typed(i, v) && Typed(j, w) && (v.VInt? != w.VInt?)
    ensures Store(Store(tp, i, v), j, w) == Store(Store(tp, j, w), i, v)
  {
    if v.VInt? { IntMoves(tp, i, v.n, j, w); } else { IntMoves(tp, j, w.n, i, v); }
  }

  /** An integer is stored in the timing or the limits, anything else elsewhere. */
  lemma IntMoves(tp: Params, i: nat, n: nat, j: nat, w: Value)
    requires !w.VInt?
    ensures Store(StoreInt(tp, i, n), j, w) == StoreInt(Store(tp, j, w), i, n)
  {
    hide StoreInt;
    IntKeeps(tp, i, n);
    IntKeeps(Store(tp, j, w), i, n);
    IntDepends(tp, Store(tp, j, w), i, n);
  }

  lemma IntKeeps(tp: Params, i: nat, n: nat)
    ensures var r := StoreInt(tp, i, n); r == tp.(timing := r.timing, limits := r.limits)
  {
  }

  lemma IntDepends(a: Params, b: Params, i: nat, n: nat)
    requires a.timing == b.timing && a.limits == b.limits
    ensures StoreInt(a, i, n).timing == StoreInt(b, i, n).timing && StoreInt(a, i, n).limits == StoreInt(b, i, n).limits
  {
  }

  /** The kind of value each parameter has. */
  predicate Typed(id: nat, v: Value)
  {
    match v
    case VCid(_) => id == 0x00 || id == 0x0f || id == 0x10
    case VToken(_) => id == 0x02
    case VAddress(_) => id == 0x0d
    case VInt(_) => IntParam(id)
    case VFlag => true
  }

  lemma InterpretTyped(id: nat, val: Bytes, isServer: bool)
    requires Interpret(id, val, isServer).Ok?
    ensures Typed(id, Interpret(id, val, isServer).value)
  {
  }

  /** Two parameters with different ids can trade places. */
  lemma Swap(tp: Params, found: set<nat>, p: Param, q: Param, tail: List, isServer: bool)
    ensures Same(ApplyAll(tp, found, Cons(p.id, p.val, Cons(q.id, q.val, tail)), isServer),
                 ApplyAll(tp, found, Cons(q.id, q.val, Cons(p.id, p.val, tail)), isServer))
  {
    hide Interpret; hide Store;
    var v, w := Interpret(p.id, p.val, isServer), Interpret(q.id, q.val, isServer);
    if p.id != q.id && v.Ok? && w.Ok? {
      InterpretTyped(p.id, p.val, isServer);
      InterpretTyped(q.id, q.val, isServer);
      StoreCommutes(tp, p.id, v.value, q.id, w.value);
      assert found + {p.id} + {q.id} == found + {q.id} + {p.id};
    }
  }

  lemma {:induction false} MoveToFront(tp: Params, found: set<nat>, ps: List, p: Param, isServer: bool)
    requires p in Elements(ps)
    ensures Same(ApplyAll(tp, found, ps, isServer), ApplyAll(tp, found, Cons(p.id, p.val, Without(ps, p)), isServer))
    decreases ps
  {
    hide Interpret; hide Store;
    var q := Param(ps.id, ps.val);
    if q != p {
      var v := Interpret(q.id, q.val, isServer);
      if q.id !in found && v.Ok? {
        MoveToFront(Store(tp, q.id, v.value), found + {q.id}, ps.tail, p, isServer);
      }
      Swap(tp, found, q, p, Without(ps.tail, p), isServer);
    }
  }

  lemma TailElements(ps: List, qs: List)
    requires ps.Cons? && Elements(ps) == Elements(qs)
    ensures Param(ps.id, ps.val) in Elements(qs)
    ensures Elements(ps.tail) == Elements(Without(qs, Param(ps.id, ps.val)))
  {
    var p := Param(ps.id, ps.val);
    assert p in Elements(qs);
    WithoutElements(qs, p);
    assert Elements(ps.tail) == Elements(ps) - multiset{p};
  }

  /** The order of the parameters does not matter: any permutation fails as well, or gives
      the same record. */
  lemma {:induction false} OrderIrrelevant(tp: Params, found: set<nat>, ps: List, qs: List, isServer: bool)
    requires Elements(ps) == Elements(qs)
    ensures Same(ApplyAll(tp, found, ps, isServer), ApplyAll(tp, found, qs, isServer))
    decreases ps
  {
    hide Interpret; hide Store;
    match ps
    case Nil =>
    case Cons(id, val, tail) =>
      var p := Param(id, val);
      TailElements(ps, qs);
      hide Elements;
      MoveToFront(tp, found, qs, p, isServer);
      var v := Interpret(id, val, isServer);
      if v.Ok? { OrderIrrelevant(Store(tp, id, v.value), found + {id}, tail, Without(qs, p), isServer); }
  }

  lemma DecodingOrderIrrelevant(ps: List, qs: List, isServer: bool)
    requires Framed(ps) && Framed(qs) && Elements(ps) == Elements(qs)
    ensures Same(Decode(WriteParams(ps), isServer), Decode(WriteParams(qs), isServer))
  {
    DecodeReadsList(DEFAULT, {}, ps, isServer);
    DecodeReadsList(DEFAULT, {}, qs, isServer);
    OrderIrrelevant(DEFAULT, {}, ps, qs, isServer);
  }

  function Ids(ps: List): multiset<nat>
  {
    match ps case Nil => multiset{} case Cons(id, _, tail) => multiset{id} + Ids(tail)
  }

  /** Every duplicate is rejected, wherever it stands and even if the id is unknown. */
  lemma {:induction false} DuplicateRejected(tp: Params, found: set<nat>, ps: List, isServer: bool, id: nat)
    requires (id in found && 0 < Ids(ps)[id]) || 1 < Ids(ps)[id]
    ensures ApplyAll(tp, found, ps, isServer).Err?
    decreases ps
  {
    hide Interpret; hide Store;
    if ps.Cons? {
      var v := Interpret(ps.id, ps.val, isServer);
      if ps.id !in found && v.Ok? {
        DuplicateRejected(Store(tp, ps.id, v.value), found + {ps.id}, ps.tail, isServer, id);
      }
    }
  }

  // ------------------------------------------------------------- encode, then decode

  /** Field `k` in the order the encoder writes them. */
  function FieldId(k: nat): nat
  {
    if k <= 16 then k else if k == 17 then MULTIPATH else NO_ENCRYPTION
  }

  function IntField(tp: Params, k: nat): nat
  {
    match k
    case 1 => tp.timing.idleTimeout
    case 3 => tp.timing.udpPayload
    case 4 => tp.limits.data
    case 5 => tp.limits.bidiLocal
    case 6 => tp.limits.bidiRemote
    case 7 => tp.limits.uni
    case 8 => tp.limits.streamsBidi
    case 9 => tp.limits.streamsUni
    case 10 => tp.timing.ackDelayExponent
    case 11 => tp.timing.maxAckDelay
    case _ => tp.timing.cidLimit
  }

  predicate FitsVarints(tp: Params)
  {
    forall k | 0 <= k < 19 && IntParam(k) :: IntField(tp, k) <= VINT_MAX
  }

  predicate CidFits(c: Option<Bytes>) { c.Some? ==> |c.value| <= MAX_CID_LEN }

  /** The values a `TransportParams` record can hold and the codec can write. */
  predicate Encodable(tp: Params)
  {
    && FitsVarints(tp)
    && CidFits(tp.cids.original) && CidFits(tp.cids.initialSource) && CidFits(tp.cids.retrySource)
    && (tp.resetToken.Some? ==> tp.resetToken.value < Pow256(16))
    && (tp.preferred.Some? ==> PreferredFits(tp.preferred.value))
  }

  /** What is written for field `k`, if anything. */
  function FieldValue(tp: Params, k: nat, isServer: bool): Option<Bytes>
    requires Encodable(tp) && k < 19
  {
    if IntParam(k) then
      var n := IntField(tp, k);
      if n == 0 || (k == 14 && n < 2) then None else Some(WriteVarint(n, []))
    else match k
      case 0 => if isServer then tp.cids.original else None
      case 2 => if isServer && tp.resetToken.Some? then Some(BigEndian(tp.resetToken.value, 16)) else None
      case 12 => if tp.flags.noMigration then Some([]) else None
      case 13 => if tp.preferred.Some? then Some(WritePreferred(tp.preferred.value, [])) else None
      case 15 => tp.cids.initialSource
      case 16 => if isServer then tp.cids.retrySource else None
      case 17 => if tp.flags.multipath then Some([]) else None
      case _ => if tp.flags.noEncryption then Some([]) else None
  }

  /** The fields from `k` on. */
  function FieldsFrom(tp: Params, k: nat, isServer: bool): List
    requires Encodable(tp) && k <= 19
    decreases 19 - k
  {
    if k == 19 then Nil else
    var v := FieldValue(tp, k, isServer);
    var rest := FieldsFrom(tp, k + 1, isServer);
    if v.None? then rest else Cons(FieldId(k), v.value, rest)
  }

  /** `TransportParams::encode`. */
  function Encode(tp: Params, isServer: bool): Bytes
    requires Encodable(tp)
  {
    FieldsFramed(tp, 0, isServer);
    WriteParams(FieldsFrom(tp, 0, isServer))
  }

  lemma {:induction false} FieldsFramed(tp: Params, k: nat, isServer: bool)
    requires Encodable(tp) && k <= 19
    ensures Framed(FieldsFrom(tp, k, isServer))
    decreases 19 - k
  {
    hide FieldValue; hide Encodable; hide FieldId;
    if k < 19 {
      FieldsFramed(tp, k + 1, isServer);
      FieldFits(tp, k, isServer);
    }
  }

  lemma FieldFits(tp: Params, k: nat, isServer: bool)
    requires Encodable(tp) && k < 19
    ensures FieldId(k) <= VINT_MAX
    ensures FieldValue(tp, k, isServer).Some? ==> |FieldValue(tp, k, isServer).value| <= VINT_MAX
  {
    hide WriteVarint; hide ReadVarint; hide Write; hide WriteUint; hide BigEndian; hide FitsVarints;
    hide EncodeVarintLen; hide WritePreferred;
    if k == 13 && tp.preferred.Some? { PreferredLength(tp.preferred.value); }
    if IntParam(k) { IntFits(tp, k); }
  }

  lemma IntFits(tp: Params, k: nat)
    requires FitsVarints(tp) && k < 19 && IntParam(k)
    ensures IntField(tp, k) <= VINT_MAX && EncodeVarintLen(IntField(tp, k)) <= 8
  {
  }

  lemma PreferredLength(p: PreferredAddress)
    requires PreferredFits(p)
    ensures |WritePreferred(p, [])| == 41 + |p.cid|
  {
    hide Write; hide WriteUint; hide Read; hide ReadUint;
  }

  /** The peer refuses field `k`. */
  predicate Refused(tp: Params, k: nat, isServer: bool)
    requires k < 19
  {
    if IntParam(k) then IntField(tp, k) != 0 && !(k == 14 && IntField(tp, k) < 2) && !IntAllowed(k, IntField(tp, k))
    else k == 13 && tp.preferred.Some? && !isServer
  }

  /** The record the peer reads: absent integers and an unusable connection ID limit fall
      back to the defaults, a client's server-only fields are not sent, all-zero
      addresses are dropped, and IPv6 flow information and scope are zeroed. */
  function Normal(tp: Params, isServer: bool): Params
  {
    Params(
      Cids(if isServer then tp.cids.original else None,
           tp.cids.initialSource,
           if isServer then tp.cids.retrySource else None),
      Timing(tp.timing.idleTimeout,
             if tp.timing.udpPayload == 0 then 65527 else tp.timing.udpPayload,
             if tp.timing.ackDelayExponent == 0 then 3 else tp.timing.ackDelayExponent,
             if tp.timing.maxAckDelay == 0 then 25 else tp.timing.maxAckDelay,
             if tp.timing.cidLimit < 2 then 2 else tp.timing.cidLimit),
      tp.limits,
      tp.flags,
      if isServer then tp.resetToken else None,
      if tp.preferred.Some? then Some(NormalPreferred(tp.preferred.value)) else None)
  }

  /** The record after the first `k` fields have been read. */
  function Upto(n: Params, k: nat): Params
  {
    Params(
      Cids(if k > 0 then n.cids.original else None,
           if k > 15 then n.cids.initialSource else None,
           if k > 16 then n.cids.retrySource else None),
      Timing(if k > 1 then n.timing.idleTimeout else 0,
             if k > 3 then n.timing.udpPayload else 65527,
             if k > 10 then n.timing.ackDelayExponent else 3,
             if k > 11 then n.timing.maxAckDelay else 25,
             if k > 14 then n.timing.cidLimit else 2),
      Limits(if k > 4 then n.limits.data else 0,
             if k > 5 then n.limits.bidiLocal else 0,
             if k > 6 then n.limits.bidiRemote else 0,
             if k > 7 then n.limits.uni else 0,
             if k > 8 then n.limits.streamsBidi else 0,
             if k > 9 then n.limits.streamsUni else 0),
      Flags(k > 12 && n.flags.noMigration, k > 17 && n.flags.multipath, k > 18 && n.flags.noEncryption),
      if k > 2 then n.resetToken else None,
      if k > 13 then n.preferred else None)
  }

  /** Reading field `k` moves the record on by exactly that field. */
  lemma FieldStep(tp: Params, k: nat, isServer: bool)
    requires Encodable(tp) && k < 19
    ensures
      var n, v := Normal(tp, isServer), FieldValue(tp, k, isServer);
      if v.None? then !Refused(tp, k, isServer) && Upto(n, k + 1) == Upto(n, k)
      else
        var r := Interpret(FieldId(k), v.value, !isServer);
        if Refused(tp, k, isServer) then r.Err?
        else r.Ok? && Store(Upto(n, k), FieldId(k), r.value) == Upto(n, k + 1)
  {
    hide Interpret; hide Store; hide Upto; hide Normal; hide FieldValue;
    if IntParam(k) { IntStep(tp, k, isServer); }
    else if k == 2 { TokenStep(tp, isServer); }
    else if k == 13 { PreferredStep(tp, isServer); }
    else if k == 12 || k == 17 || k == 18 { FlagStep(tp, k, isServer); }
    else { CidStep(tp, k, isServer); }
  }

  lemma IntStep(tp: Params, k: nat, isServer: bool)
    requires Encodable(tp) && k < 19 && IntParam(k)
    ensures
      var n, v := Normal(tp, isServer), FieldValue(tp, k, isServer);
      if v.None? then !Refused(tp, k, isServer) && Upto(n, k + 1) == Upto(n, k)
      else
        var r := Interpret(FieldId(k), v.value, !isServer);
        if Refused(tp, k, isServer) then r.Err?
        else r.Ok? && Store(Upto(n, k), FieldId(k), r.value) == Upto(n, k + 1)
  {
    hide WriteVarint; hide ReadVarint;
  }

  lemma TokenStep(tp: Params, isServer: bool)
    requires Encodable(tp)
    ensures
      var n, v := Normal(tp, isServer), FieldValue(tp, 2, isServer);
      if v.None? then Upto(n, 3) == Upto(n, 2)
      else
        var r := Interpret(2, v.value, !isServer);
        r.Ok? && Store(Upto(n, 2), 2, r.value) == Upto(n, 3)
  {
    if tp.resetToken.Some? {
      var t := tp.resetToken.value;
      BigEndianExact(t, 16);
      assert BigEndian(t, 16)[..16] == BigEndian(t, 16);
    }
  }

  lemma PreferredStep(tp: Params, isServer: bool)
    requires Encodable(tp)
    ensures
      var n, v := Normal(tp, isServer), FieldValue(tp, 13, isServer);
      if v.None? then !Refused(tp, 13, isServer) && Upto(n, 14) == Upto(n, 13)
      else
        var r := Interpret(13, v.value, !isServer);
        if Refused(tp, 13, isServer) then r.Err?
        else r.Ok? && Store(Upto(n, 13), 13, r.value) == Upto(n, 14)
  {
    hide WritePreferred; hide ReadPreferred;
    if tp.preferred.Some? { PreferredRoundTrip(tp.preferred.value, []); }
  }

  lemma CidStep(tp: Params, k: nat, isServer: bool)
    requires Encodable(tp) && (k == 0 || k == 15 || k == 16)
    ensures
      var n, v := Normal(tp, isServer), FieldValue(tp, k, isServer);
      if v.None? then Upto(n, k + 1) == Upto(n, k)
      else
        var r := Interpret(k, v.value, !isServer);
        r.Ok? && Store(Upto(n, k), k, r.value) == Upto(n, k + 1)
  {
    hide WritePreferred; hide ReadPreferred; hide WriteVarint; hide ReadVarint; hide FitsVarints;
  }

  lemma FlagStep(tp: Params, k: nat, isServer: bool)
    requires Encodable(tp) && (k == 12 || k == 17 || k == 18)
    ensures
      var n, v := Normal(tp, isServer), FieldValue(tp, k, isServer);
      if v.None? then Upto(n, k + 1) == Upto(n, k)
      else
        var r := Interpret(FieldId(k), v.value, !isServer);
        r.Ok? && Store(Upto(n, k), FieldId(k), r.value) == Upto(n, k + 1)
  {
    hide WritePreferred; hide ReadPreferred; hide WriteVarint; hide ReadVarint; hide FitsVarints;
  }

  /** The peer refuses one of the fields from `k` on. */
  predicate RefusedFrom(tp: Params, k: nat, isServer: bool)
    requires k <= 19
    decreases 19 - k
  {
    k < 19 && (Refused(tp, k, isServer) || RefusedFrom(tp, k + 1, isServer))
  }

  lemma {:induction false} FieldsRoundTrip(tp: Params, k: nat, found: set<nat>, isServer: bool)
    requires Encodable(tp) && k <= 19
    requires forall j | k <= j < 19 :: FieldId(j) !in found
    ensures
      var r := ApplyAll(Upto(Normal(tp, isServer), k), found, FieldsFrom(tp, k, isServer), !isServer);
      if RefusedFrom(tp, k, isServer) then r.Err? else r == Ok(Upto(Normal(tp, isServer), 19))
    decreases 19 - k
  {
    hide Interpret; hide Store; hide Upto; hide Normal; hide FieldValue; hide Refused; hide Encodable;
    if k < 19 {
      FieldStep(tp, k, isServer);
      var v := FieldValue(tp, k, isServer);
      FieldsRoundTrip(tp, k + 1, if v.None? then found else found + {FieldId(k)}, isServer);
    }
  }

  /** For every record and role, the peer's reading of what was written is known exactly:
      an error if a field is out of range (or a client sends a preferred address), and the
      normal form otherwise. */
  lemma DecodeAfterEncode(tp: Params, isServer: bool)
    requires Encodable(tp)
    ensures
      var r := Decode(Encode(tp, isServer), !isServer);
      if RefusedFrom(tp, 0, isServer) then r.Err? else r == Ok(Normal(tp, isServer))
  {
    FieldsFramed(tp, 0, isServer);
    DecodeReadsList(DEFAULT, {}, FieldsFrom(tp, 0, isServer), !isServer);
    FieldsRoundTrip(tp, 0, {}, isServer);
    UptoEnds(Normal(tp, isServer));
  }

  lemma UptoEnds(n: Params)
    ensures Upto(n, 0) == DEFAULT && Upto(n, 19) == n
  {
  }

  /** Addresses that survive: not all zero, and no flow information or scope to lose. */
  predicate AddressKept(p: PreferredAddress)
  {
    && p.v4 != Some(Address(ZERO4, 0))
    && (p.v6.Some? ==> p.v6.value.address != Address(ZERO6, 0) && p.v6.value.flowInfo == 0 && p.v6.value.scopeId == 0)
  }

  /** The records a role can send unchanged. */
  predicate Sendable(tp: Params, isServer: bool)
  {
    && 1200 <= tp.timing.udpPayload && 1 <= tp.timing.ackDelayExponent <= 20 && 1 <= tp.timing.maxAckDelay < 0x4000
    && 2 <= tp.timing.cidLimit
    && tp.limits.streamsBidi <= MAX_STREAMS_PER_TYPE && tp.limits.streamsUni <= MAX_STREAMS_PER_TYPE
    && (!isServer ==> tp.cids.original.None? && tp.cids.retrySource.None? && tp.resetToken.None? && tp.preferred.None?)
    && (tp.preferred.Some? ==> AddressKept(tp.preferred.value))
  }

  lemma RefusedIs(tp: Params, isServer: bool)
    ensures RefusedFrom(tp, 0, isServer) <==> exists k :: 0 <= k < 19 && Refused(tp, k, isServer)
  {
    RefusedFromIs(tp, 0, isServer);
  }

  lemma {:induction false} RefusedFromIs(tp: Params, k: nat, isServer: bool)
    requires k <= 19
    ensures RefusedFrom(tp, k, isServer) <==> exists j :: k <= j < 19 && Refused(tp, j, isServer)
    decreases 19 - k
  {
    hide Refused;
    if k < 19 { RefusedFromIs(tp, k + 1, isServer); }
  }

  /** The round trip is the identity exactly on the sendable records. */
  lemma RoundTripIffSendable(tp: Params, isServer: bool)
    requires Encodable(tp)
    ensures Decode(Encode(tp, isServer), !isServer) == Ok(tp) <==> Sendable(tp, isServer)
  {
    hide Decode; hide Encode;
    DecodeAfterEncode(tp, isServer);
    RefusedIs(tp, isServer);
    if Sendable(tp, isServer) {
      assert forall k | 0 <= k < 19 :: !Refused(tp, k, isServer);
    } else if Normal(tp, isServer) == tp {
      assert Refused(tp, 3, isServer) || Refused(tp, 8, isServer) || Refused(tp, 9, isServer)
          || Refused(tp, 10, isServer) || Refused(tp, 11, isServer) || Refused(tp, 13, isServer);
    }
  }

  const ZERO_EXPONENT := DEFAULT.(timing := DEFAULT.timing.(ackDelayExponent := 0))

  /** A server that wants an acknowledgement delay exponent of 0 is read as wanting the
      default of 3, since a zero is not sent. */
  lemma ZeroExponentIsLost()
    ensures Encodable(ZERO_EXPONENT) && !Sendable(ZERO_EXPONENT, true)
    ensures Decode(Encode(ZERO_EXPONENT, true), false) == Ok(DEFAULT)
  {
    ZeroExponentFits();
    ZeroExponentNormal();
    hide Decode; hide Encode; hide Encodable; hide Refused; hide RefusedFrom; hide Normal; hide Sendable;
    DecodeAfterEncode(ZERO_EXPONENT, true);
    NothingRefused();
  }

  lemma ZeroExponentNormal()
    ensures Normal(ZERO_EXPONENT, true) == DEFAULT && !Sendable(ZERO_EXPONENT, true)
  {
  }

  lemma NothingRefused()
    ensures !RefusedFrom(ZERO_EXPONENT, 0, true)
  {
    hide Refused; hide RefusedFrom;
    RefusedIs(ZERO_EXPONENT, true);
    forall k | 0 <= k < 19 ensures !Refused(ZERO_EXPONENT, k, true) { ZeroExponentAllowed(k); }
  }

  lemma ZeroExponentFits()
    ensures Encodable(ZERO_EXPONENT)
  {
    hide Pow256; hide PreferredFits;
    forall k | 0 <= k < 19 && IntParam(k) ensures IntField(ZERO_EXPONENT, k) <= VINT_MAX { ZeroExponentInt(k); }
  }

  lemma ZeroExponentInt(k: nat)
    ensures IntField(ZERO_EXPONENT, k) <= 65527
  {
  }

  lemma ZeroExponentAllowed(k: nat)
    requires k < 19
    ensures !Refused(ZERO_EXPONENT, k, true)
  {
    ZeroExponentInt(k);
  }

  // ------------------------------------------------------------------- the loop

  /** The loop of `TransportParams::decode`. */
  method DecodeParams(buf: Bytes, isServer: bool) returns (r: Result<Params>)
    ensures r == Decode(buf, isServer)
  {
    hide Interpret; hide Store; hide ReadVarint; hide ReadWithVarintLength;
    var tp, b := DEFAULT, buf;
    var found: set<nat> := {};
    while b != []
      invariant DecodeLoop(tp, found, b, isServer) == Decode(buf, isServer)
      decreases |b|
    {
      var id :- ReadVarint(b);
      if id.0 in found { return Err(TransportParameterError); }
      found := found + {id.0};
      var val :- ReadWithVarintLength(id.1);
      var v :- Interpret(id.0, val.0, isServer);
      tp := Store(tp, id.0, v);
      b := val.1;
    }
    return Ok(tp);
  }
}
