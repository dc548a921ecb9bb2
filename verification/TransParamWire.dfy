/** Transport parameters one by one (section 18.2 of RFC 9000): what `TransportParams::decode`
    makes of values put together without the encoder. */
module TransParamsOnTheWire {
  import opened Base
  import opened Codec
  import opened TransParams

  /** The record after a single parameter has been read into `tp`. */
  function ReadOne(tp: Params, id: nat, val: Bytes, isServer: bool): Result<Params>
  {
    ApplyAll(tp, {}, Cons(id, val, Nil), isServer)
  }

  lemma ReadOneIs(tp: Params, id: nat, val: Bytes, isServer: bool)
    ensures ReadOne(tp, id, val, isServer) ==
      var v := Interpret(id, val, isServer);
      if v.Err? then Err(v.error) else Ok(Store(tp, id, v.value))
  {
    hide Interpret; hide Store;
    if Interpret(id, val, isServer).Ok? {
      var g := Store(tp, id, Interpret(id, val, isServer).value);
      assert ApplyAll(g, {} + {id}, Nil, isServer) == Ok(g);
    }
  }

  /** Nothing sent means the defaults. */
  lemma EmptyIsDefault(isServer: bool)
    ensures Decode([], isServer) == Ok(Params(
      Cids(None, None, None),
      Timing(0, 65527, 3, 25, 2),
      Limits(0, 0, 0, 0, 0, 0),
      Flags(false, false, false),
      None,
      None))
  {
  }

  /** The integers, each with its identifier and its range; what follows the varint inside the
      value is ignored. */
  lemma TimingOnTheWire(tp: Params, n: nat, junk: Bytes, isServer: bool)
    requires n <= VINT_MAX
    ensures
      var val := WriteVarint(n, junk);
      && ReadOne(tp, 0x01, val, isServer) == Ok(tp.(timing := tp.timing.(idleTimeout := n)))
      && ReadOne(tp, 0x03, val, isServer)
         == (if n < 1200 then Err(TransportParameterError) else Ok(tp.(timing := tp.timing.(udpPayload := n))))
      && ReadOne(tp, 0x0a, val, isServer)
         == (if n > 20 then Err(TransportParameterError) else Ok(tp.(timing := tp.timing.(ackDelayExponent := n))))
      && ReadOne(tp, 0x0b, val, isServer)
         == (if n >= 16384 then Err(TransportParameterError) else Ok(tp.(timing := tp.timing.(maxAckDelay := n))))
      && ReadOne(tp, 0x0e, val, isServer)
         == (if n < 2 then Err(TransportParameterError) else Ok(tp.(timing := tp.timing.(cidLimit := n))))
  {
    hide WriteVarint; hide ReadVarint; hide EncodeVarintLen; hide ReadOne;
    var val := WriteVarint(n, junk);
    ReadOneIs(tp, 0x01, val, isServer);
    ReadOneIs(tp, 0x03, val, isServer);
    ReadOneIs(tp, 0x0a, val, isServer);
    ReadOneIs(tp, 0x0b, val, isServer);
    ReadOneIs(tp, 0x0e, val, isServer);
  }

  lemma LimitsOnTheWire(tp: Params, n: nat, junk: Bytes, isServer: bool)
    requires n <= VINT_MAX
    ensures
      var val := WriteVarint(n, junk);
      && ReadOne(tp, 0x04, val, isServer) == Ok(tp.(limits := tp.limits.(data := n)))
      && ReadOne(tp, 0x05, val, isServer) == Ok(tp.(limits := tp.limits.(bidiLocal := n)))
      && ReadOne(tp, 0x06, val, isServer) == Ok(tp.(limits := tp.limits.(bidiRemote := n)))
      && ReadOne(tp, 0x07, val, isServer) == Ok(tp.(limits := tp.limits.(uni := n)))
      && ReadOne(tp, 0x08, val, isServer)
         == (if n > 0x1000_0000_0000_0000 then Err(TransportParameterError)
             else Ok(tp.(limits := tp.limits.(streamsBidi := n))))
      && ReadOne(tp, 0x09, val, isServer)
         == (if n > 0x1000_0000_0000_0000 then Err(TransportParameterError)
             else Ok(tp.(limits := tp.limits.(streamsUni := n))))
  {
    hide WriteVarint; hide ReadVarint; hide EncodeVarintLen; hide ReadOne;
    var val := WriteVarint(n, junk);
    ReadOneIs(tp, 0x04, val, isServer);
    ReadOneIs(tp, 0x05, val, isServer);
    ReadOneIs(tp, 0x06, val, isServer);
    ReadOneIs(tp, 0x07, val, isServer);
    ReadOneIs(tp, 0x08, val, isServer);
    ReadOneIs(tp, 0x09, val, isServer);
  }

  /** The flags are set by their identifier alone, whatever the value, and identifiers without
      a meaning change nothing. */
  lemma FlagsOnTheWire(tp: Params, val: Bytes, isServer: bool, id: nat)
    ensures ReadOne(tp, 0x0c, val, isServer) == Ok(tp.(flags := tp.flags.(noMigration := true)))
    ensures ReadOne(tp, 0x0f739bbc1b666d05, val, isServer) == Ok(tp.(flags := tp.flags.(multipath := true)))
    ensures ReadOne(tp, 0xbaad, val, isServer) == Ok(tp.(flags := tp.flags.(noEncryption := true)))
    ensures 0x10 < id && id != 0x0f739bbc1b666d05 && id != 0xbaad ==> ReadOne(tp, id, val, isServer) == Ok(tp)
  {
    hide ReadOne;
    ReadOneIs(tp, 0x0c, val, isServer);
    ReadOneIs(tp, 0x0f739bbc1b666d05, val, isServer);
    ReadOneIs(tp, 0xbaad, val, isServer);
    ReadOneIs(tp, id, val, isServer);
  }

  /** The connection IDs, kept to 20 bytes. Only the initial source connection ID may come from
      a client. */
  lemma CidsOnTheWire(tp: Params, val: Bytes)
    ensures
      var cid := if |val| <= 20 then val else val[..20];
      && ReadOne(tp, 0x00, val, false) == Ok(tp.(cids := tp.cids.(original := Some(cid))))
      && ReadOne(tp, 0x10, val, false) == Ok(tp.(cids := tp.cids.(retrySource := Some(cid))))
      && ReadOne(tp, 0x0f, val, false) == Ok(tp.(cids := tp.cids.(initialSource := Some(cid))))
      && ReadOne(tp, 0x0f, val, true) == ReadOne(tp, 0x0f, val, false)
  {
    hide ReadOne;
    ReadOneIs(tp, 0x00, val, false);
    ReadOneIs(tp, 0x10, val, false);
    ReadOneIs(tp, 0x0f, val, false);
    ReadOneIs(tp, 0x0f, val, true);
  }

  /** The stateless reset token takes sixteen bytes, which must be there. */
  lemma ResetTokenOnTheWire(tp: Params, token: Bytes, junk: Bytes, short: Bytes)
    requires |token| == 16 && |short| < 16
    ensures ReadOne(tp, 0x02, token + junk, false) == Ok(tp.(resetToken := Some(FromBigEndian(token))))
    ensures ReadOne(tp, 0x02, short, false) == Err(BufferTooShort)
  {
    hide ReadOne; hide FromBigEndian;
    ReadOneIs(tp, 0x02, token + junk, false);
    ReadOneIs(tp, 0x02, short, false);
    assert (token + junk)[..16] == token;
  }

  /** A preferred address: IPv4 address and port, IPv6 address and port, connection ID with its
      length in front, and token. */
  lemma PreferredOnTheWire(tp: Params, ip4: Bytes, port4: nat, ip6: Bytes, port6: nat, cid: Bytes, token: Bytes)
    requires |ip4| == 4 && |ip6| == 16 && |token| == 16 && |cid| <= 20 && port4 < 65536 && port6 < 65536
    requires (exists i :: 0 <= i < 4 && ip4[i] != 0) && (exists i :: 0 <= i < 16 && ip6[i] != 0)
    ensures
      var val := ip4 + (BigEndian(port4, 2) + (ip6 + (BigEndian(port6, 2) + ([|cid|] + (cid + (token + []))))));
      ReadOne(tp, 0x0d, val, false) == Ok(tp.(preferred := Some(PreferredAddress(
        Some(Address(ip4, port4)), Some(AddressV6(Address(ip6, port6), 0, 0)), cid, token))))
  {
    hide ReadOne; hide WriteUint; hide Write; hide WritePreferred; hide ReadPreferred; hide BigEndian;
    hide FromBigEndian;
    var p := PreferredAddress(Some(Address(ip4, port4)), Some(AddressV6(Address(ip6, port6), 0, 0)), cid, token);
    var val := ip4 + (BigEndian(port4, 2) + (ip6 + (BigEndian(port6, 2) + ([|cid|] + (cid + (token + []))))));
    Spelled(p, ip4, port4, ip6, port6);
    PreferredRoundTrip(p, []);
    ReadOneIs(tp, 0x0d, val, false);
  }

  lemma Spelled(p: PreferredAddress, ip4: Bytes, port4: nat, ip6: Bytes, port6: nat)
    requires p.v4 == Some(Address(ip4, port4)) && p.v6 == Some(AddressV6(Address(ip6, port6), 0, 0)) && |p.cid| < 256
    ensures WritePreferred(p, [])
         == ip4 + (BigEndian(port4, 2) + (ip6 + (BigEndian(port6, 2) + ([|p.cid|] + (p.cid + (p.token + []))))))
  {
    hide FromBigEndian;
    assert BigEndian(|p.cid|, 1) == [|p.cid|];
    hide BigEndian;
  }

  // ---------------------------------------------------------------- whole lists

  predicate Holds(ps: List, id: nat)
  {
    ps.Cons? && (ps.id == id || Holds(ps.tail, id))
  }

  /** A server refuses every list in which a client sent what only servers may send, wherever it
      stands and whatever else is in the list. */
  lemma ServerOnlyRefused(ps: List, id: nat)
    requires Framed(ps) && Holds(ps, id) && (id == 0x00 || id == 0x02 || id == 0x0d || id == 0x10)
    ensures Decode(WriteParams(ps), true).Err?
  {
    DecodeReadsList(DEFAULT, {}, ps, true);
    ServerRefuses(DEFAULT, {}, ps, id);
  }

  lemma {:induction false} ServerRefuses(tp: Params, found: set<nat>, ps: List, id: nat)
    requires Holds(ps, id) && (id == 0x00 || id == 0x02 || id == 0x0d || id == 0x10)
    ensures ApplyAll(tp, found, ps, true).Err?
    decreases ps
  {
    hide Store;
    var v := Interpret(ps.id, ps.val, true);
    if ps.id == id {
      assert v.Err?;
    } else if v.Ok? {
      hide Interpret;
      ServerRefuses(Store(tp, ps.id, v.value), found + {ps.id}, ps.tail, id);
    }
  }

  lemma {:induction false} FoundElsewhere(tp: Params, found: set<nat>, ps: List, id: nat, isServer: bool)
    requires !Holds(ps, id)
    ensures ApplyAll(tp, found + {id}, ps, isServer) == ApplyAll(tp, found, ps, isServer)
    decreases ps
  {
    hide Interpret; hide Store;
    if ps.Cons? {
      var v := Interpret(ps.id, ps.val, isServer);
      assert found + {id} + {ps.id} == found + {ps.id} + {id};
      if v.Ok? { FoundElsewhere(Store(tp, ps.id, v.value), found + {ps.id}, ps.tail, id, isServer); }
    }
  }

  /** A parameter without a meaning makes no difference to a list that does not repeat it. */
  lemma UnknownIgnored(id: nat, val: Bytes, ps: List, isServer: bool)
    requires Framed(Cons(id, val, ps)) && !Holds(ps, id)
    requires 0x10 < id && id != 0x0f739bbc1b666d05 && id != 0xbaad
    ensures Decode(WriteParams(Cons(id, val, ps)), isServer) == Decode(WriteParams(ps), isServer)
  {
    hide Interpret; hide Store; hide DecodeLoop; hide WriteParams;
    DecodeReadsList(DEFAULT, {}, Cons(id, val, ps), isServer);
    DecodeReadsList(DEFAULT, {}, ps, isServer);
    MeansNothing(id, val, isServer);
    FoundElsewhere(DEFAULT, {}, ps, id, isServer);
  }

  lemma MeansNothing(id: nat, val: Bytes, isServer: bool)
    requires 0x10 < id && id != 0x0f739bbc1b666d05 && id != 0xbaad
    ensures Interpret(id, val, isServer) == Ok(VFlag) && Store(DEFAULT, id, VFlag) == DEFAULT
  {
  }
}
