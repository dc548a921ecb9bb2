/** Integers on the wire (src/codec.rs; section 16 of RFC 9000).

    A writer is modelled by the bytes it leaves in front of the rest of the buffer, a
    reader by the value it takes and the bytes it leaves behind. */
module Codec {
  import Bits

  type byte = x: int | 0 <= x < 256
  type Bytes = seq<byte>

  datatype Error =
    | BufferTooShort
    | FrameEncodingError
    | InvalidPacket
    | InternalError
    | TransportParameterError

  datatype Result<+T> = Ok(value: T) | Err(error: Error) {
    predicate IsFailure() { Err? }
    function PropagateFailure<U>(): Result<U> requires Err? { Err(error) }
    function Extract(): T requires Ok? { value }
  }

  const VINT_MAX: nat := 4_611_686_018_427_387_903

  // ------------------------------------------------------------ big-endian integers

  function Pow256(k: nat): (p: nat)
    ensures 0 < p
  {
    if k == 0 then 1 else 256 * Pow256(k - 1)
  }

  /** The `k` low bytes of `n`, most significant first. */
  function BigEndian(n: nat, k: nat): (s: Bytes)
    ensures |s| == k
  {
    if k == 0 then [] else BigEndian(n / 256, k - 1) + [n % 256]
  }

  function FromBigEndian(s: Bytes): (n: nat)
    ensures n < Pow256(|s|)
  {
    if s == [] then 0 else FromBigEndian(s[..|s| - 1]) * 256 + s[|s| - 1]
  }

  /** Writing keeps the low `k` bytes: reading them back gives `n` reduced. */
  lemma {:induction false} BigEndianRoundTrip(n: nat, k: nat)
    ensures FromBigEndian(BigEndian(n, k)) == n % Pow256(k)
  {
    if k > 0 {
      BigEndianRoundTrip(n / 256, k - 1);
      assert BigEndian(n, k)[..k - 1] == BigEndian(n / 256, k - 1);
      ModSplit(n, Pow256(k - 1));
    }
  }

  lemma ModSplit(n: nat, p: nat)
    requires 0 < p
    ensures n / 256 % p * 256 + n % 256 == n % (256 * p)
  {
    var q, r := n / 256 / p, n / 256 % p;
    assert n / 256 == q * p + r;
    assert n == q * (256 * p) + (r * 256 + n % 256);
    Bits.DivModUnique(n, 256 * p, q, r * 256 + n % 256);
  }

  function WriteUint(n: nat, k: nat, rest: Bytes): (r: Bytes)
    ensures ReadUint(r, k) == Ok((n % Pow256(k), rest))
    ensures |r| == k + |rest|
  {
    BigEndianRoundTrip(n, k);
    assert (BigEndian(n, k) + rest)[..k] == BigEndian(n, k);
    BigEndian(n, k) + rest
  }

  function ReadUint(b: Bytes, k: nat): (r: Result<(nat, Bytes)>)
    ensures r.Ok? <==> k <= |b|
    ensures r.Ok? ==> r.value.0 < Pow256(k) && r.value.1 == b[k..]
  {
    if |b| < k then Err(BufferTooShort) else Ok((FromBigEndian(b[..k]), b[k..]))
  }

  // ------------------------------------------------------------------------- varint

  function EncodeVarintLen(n: nat): (k: nat)
    requires n <= VINT_MAX
    ensures k in {1, 2, 4, 8} && n < VarintLimit(k)
    ensures forall j | j in {1, 2, 4, 8} && j < k :: VarintLimit(j) <= n
  {
    if n <= 63 then 1
    else if n <= 16383 then 2
    else if n <= 1_073_741_823 then 4
    else 8
  }

  /** The values a `k`-byte varint can hold: two bits go to the length. */
  function VarintLimit(k: nat): nat
    requires k in {1, 2, 4, 8}
  {
    match k
    case 1 => 0x40
    case 2 => 0x4000
    case 4 => 0x4000_0000
    case _ => 0x4000_0000_0000_0000
  }

  function DecodeVarintLen(first: byte): nat
  {
    match first / 64
    case 0 => 1
    case 1 => 2
    case 2 => 4
    case _ => 8
  }

  /** The two top bits of a `k`-byte varint, as a number of the first byte's 64s. */
  function Prefix(k: nat): nat
    requires k in {1, 2, 4, 8}
  {
    match k
    case 1 => 0
    case 2 => 1
    case 4 => 2
    case _ => 3
  }

  /** `k` bytes of `n` with the length bits or-ed into the first byte. */
  function VarintBytes(n: nat, k: nat): (s: Bytes)
    requires k in {1, 2, 4, 8}
    ensures |s| == k
  {
    var be := BigEndian(n, k);
    OrByte(be[0], Prefix(k));
    [Bits.Or(be[0], 64 * Prefix(k))] + be[1..]
  }

  lemma OrByte(b: byte, h: nat)
    requires h < 4
    ensures Bits.Or(b, 64 * h) < 256
    ensures b < 64 ==> Bits.Or(b, 64 * h) == b + 64 * h
  {
    OrBelow(b, 64 * h, 8);
    if b < 64 { Bits.OrHigh(b, h, 6); }
  }

  lemma {:induction false} OrBelow(a: nat, b: nat, k: nat)
    requires a < Bits.Pow2(k) && b < Bits.Pow2(k)
    ensures Bits.Or(a, b) < Bits.Pow2(k)
    decreases k
  {
    if k > 0 && a != 0 { OrBelow(a / 2, b / 2, k - 1); }
  }

  /** Writes `n` as a varint of exactly `k` bytes in front of `rest`. */
  function WriteVarintWithLen(n: nat, k: nat, rest: Bytes): (r: Bytes)
    requires k in {1, 2, 4, 8}
    ensures |r| == k + |rest|
    ensures n < VarintLimit(k) ==> ReadVarint(r) == Ok((n, rest))
  {
    if n < VarintLimit(k) then VarintRoundTrip(n, k, rest); VarintBytes(n, k) + rest
    else VarintBytes(n, k) + rest
  }

  /** Writes `n` as the shortest varint that holds it, in front of `rest`. */
  function WriteVarint(n: nat, rest: Bytes): (r: Bytes)
    requires n <= VINT_MAX
    ensures |r| == EncodeVarintLen(n) + |rest|
    ensures ReadVarint(r) == Ok((n, rest))
  {
    WriteVarintWithLen(n, EncodeVarintLen(n), rest)
  }

  function ReadVarint(b: Bytes): (r: Result<(nat, Bytes)>)
    ensures r.Ok? ==> r.value.0 <= VINT_MAX && |r.value.1| < |b|
  {
    if |b| < 1 then Err(BufferTooShort) else
    var k := DecodeVarintLen(b[0]);
    if |b| < k then Err(BufferTooShort) else
    Ok((FromBigEndian(b[..k]) % VarintLimit(k), b[k..]))
  }

  lemma VarintRoundTrip(n: nat, k: nat, rest: Bytes)
    requires k in {1, 2, 4, 8} && n < VarintLimit(k)
    ensures ReadVarint(VarintBytes(n, k) + rest) == Ok((n, rest))
  {
    var v := VarintBytes(n, k);
    VarintValue(n, k);
    assert (v + rest)[..k] == v && (v + rest)[k..] == rest;
  }

  lemma VarintValue(n: nat, k: nat)
    requires k in {1, 2, 4, 8} && n < VarintLimit(k)
    ensures DecodeVarintLen(VarintBytes(n, k)[0]) == k
    ensures FromBigEndian(VarintBytes(n, k)) % VarintLimit(k) == n
  {
    hide BigEndian; hide FromBigEndian; hide Pow256; hide Bits.Or;
    var be := BigEndian(n, k);
    FirstByteSmall(n, k);
    OrByte(be[0], Prefix(k));
    TopByte(VarintBytes(n, k), be, Prefix(k));
    BigEndianExact(n, k);
    PrefixDrops(n, k);
  }

  /** What a length that does not fit its two bytes reads back as: cut to 14 bits, unless its
      bit 15 makes the field look like an eight-byte varint. */
  lemma TwoByteLength(n: nat, rest: Bytes)
    ensures n / 0x8000 % 2 == 0 ==> ReadVarint(WriteVarintWithLen(n, 2, rest)) == Ok((n % 0x4000, rest))
    ensures n / 0x8000 % 2 == 1 ==> DecodeVarintLen(WriteVarintWithLen(n, 2, rest)[0]) == 8
  {
    hide WriteVarintWithLen; hide ReadVarint;
    var first := SetBit6(n / 256 % 256);
    TwoBytesWritten(n, rest);
    ReadTwoBytes(first, n % 256, rest);
    LowBits(n);
    Cut14(n / 256 % 256, n % 256);
  }

  function SetBit6(b: byte): byte { b % 64 + 64 * (b / 128 * 2 + 1) }

  lemma TwoBytesWritten(n: nat, rest: Bytes)
    ensures WriteVarintWithLen(n, 2, rest) == [SetBit6(n / 256 % 256), n % 256] + rest
  {
    hide Bits.Or; hide BigEndian;
    TwoBytes(n);
    OrBit6(n / 256 % 256);
  }

  lemma Cut14(hi: byte, lo: byte)
    ensures hi / 128 == 0 ==> SetBit6(hi) / 64 == 1 && (SetBit6(hi) * 256 + lo) % 0x4000 == hi % 64 * 256 + lo
    ensures hi / 128 == 1 ==> SetBit6(hi) / 64 == 3
  {
  }

  lemma LowBits(n: nat)
    ensures n / 0x8000 % 2 == n / 256 % 256 / 128
    ensures n % 0x4000 == n / 256 % 256 % 64 * 256 + n % 256
  {
    var m := n / 256;
    Bits.DivModUnique(n, 0x4000, m / 64, m % 64 * 256 + n % 256);
    Bits.DivModUnique(n, 0x8000, m / 128, m % 128 * 256 + n % 256);
    HighHalf(m);
  }

  lemma HighHalf(m: nat)
    ensures m / 128 % 2 == m % 256 / 128 && m % 64 == m % 256 % 64
  {
    Bits.DivModUnique(m, 256, m / 128 / 2, m / 128 % 2 * 128 + m % 128);
    Bits.DivModUnique(m, 256, m / 64 / 4, m / 64 % 4 * 64 + m % 64);
  }

  lemma ReadTwoBytes(first: byte, lo: byte, rest: Bytes)
    ensures first / 64 == 1 ==> ReadVarint([first, lo] + rest) == Ok(((first * 256 + lo) % 0x4000, rest))
  {
    var b := [first, lo] + rest;
    assert b[..2] == [first, lo] && b[2..] == rest;
    TwoBytesValue(first, lo);
  }

  lemma TwoBytes(n: nat)
    ensures BigEndian(n, 2) == [n / 256 % 256, n % 256]
  {
    assert BigEndian(n / 256, 1) == [n / 256 % 256];
  }

  lemma TwoBytesValue(a: byte, b: byte)
    ensures FromBigEndian([a, b]) == a * 256 + b
  {
    assert [a, b][..1] == [a];
    assert FromBigEndian([a]) == a;
  }

  /** Or-ing 64 into a byte sets bit 6 and nothing else. */
  lemma OrBit6(b: byte)
    ensures Bits.Or(b, 64) == SetBit6(b)
  {
    hide Bits.Or;
    Bits.OrEighth(b, 8);
    Bits.OrEighth(b / 8, 1);
    Bits.OrOne(b / 8 / 8);
    Bits.DivModUnique(b, 64, b / 8 / 8, b / 8 % 8 * 8 + b % 8);
  }

  /** The first byte a varint of one or four bytes begins with. */
  lemma VarintFirstByte(n: nat, rest: Bytes)
    requires n < 64 || n / 0x100_0000 == 0x15
    ensures WriteVarint(n, rest)[0] == if n < 64 then n else 0x95
  {
    hide BigEndian; hide Bits.Or;
    var k := EncodeVarintLen(n);
    assert k == if n < 64 then 1 else 4;
    TopIs(n, k);
    assert Pow256(0) == 1 && Pow256(3) == 0x100_0000;
    OrByte(BigEndian(n, k)[0], Prefix(k));
  }

  lemma {:induction false} BigEndianOf(s: Bytes)
    ensures BigEndian(FromBigEndian(s), |s|) == s
  {
    if s != [] {
      var init, last := s[..|s| - 1], s[|s| - 1];
      BigEndianOf(init);
      var n := FromBigEndian(s);
      assert n / 256 == FromBigEndian(init) && n % 256 == last;
      assert init + [last] == s;
    }
  }

  /** A byte string is less than its first byte, plus one, allows. */
  lemma {:induction false} FromBound(s: Bytes, top: nat)
    requires s != [] && s[0] < top
    ensures FromBigEndian(s) < top * Pow256(|s| - 1)
  {
    if |s| == 1 {
      assert s[..0] == [];
    } else {
      FromBound(s[..|s| - 1], top);
      var p := Pow256(|s| - 2);
      assert Pow256(|s| - 1) == 256 * p;
      assert top * (256 * p) == 256 * (top * p);
    }
  }

  /** When a two-byte length below 2^16 is misread as an eight-byte varint of the same value:
      the bytes behind it spell that value, and it is 32768 or 49152. */
  lemma EightByteShift(l: nat, b: Bytes)
    requires 16383 < l < 65536
    requires var w := WriteVarintWithLen(l, 2, b); ReadVarint(w).Ok? && ReadVarint(w).value.0 == l
    ensures (l == 32768 || l == 49152) && 6 <= |b|
    ensures b[0] == b[1] == b[2] == b[3] == 0 && b[4] == l / 256
    ensures ReadVarint(WriteVarintWithLen(l, 2, b)).value.1 == b[6..]
  {
    hide WriteVarintWithLen; hide ReadVarint; hide FromBigEndian; hide SetBit6; hide DecodeVarintLen;
    var hi: byte, lo: byte := l / 256 % 256, l % 256;
    assert hi == l / 256;
    TwoByteLength(l, b);
    TwoBytesWritten(l, b);
    Cut14(hi, lo);
    LowBits(l);
    ReadEightBytes(SetBit6(hi), lo, b);
    EightBytesSpell([SetBit6(hi), lo] + b[..6], l);
    SpelledLength(l, hi, lo, b[..6]);
  }

  lemma ReadEightBytes(first: byte, lo: byte, b: Bytes)
    requires 192 <= first && ReadVarint([first, lo] + b).Ok?
    ensures 6 <= |b|
    ensures ReadVarint([first, lo] + b).value == (FromBigEndian([first, lo] + b[..6]) % VarintLimit(8), b[6..])
  {
    hide FromBigEndian;
    var w := [first, lo] + b;
    assert w[..8] == [first, lo] + b[..6] && w[8..] == b[6..];
  }

  lemma SpelledLength(l: nat, hi: byte, lo: byte, b: Bytes)
    requires 16383 < l < 65536 && |b| == 6 && hi == l / 256 && lo == l % 256 && 128 <= hi
    requires [SetBit6(hi), lo] + b == [192, 0, 0, 0, 0, 0, l / 256, l % 256]
    ensures (l == 32768 || l == 49152) && b[0] == b[1] == b[2] == b[3] == 0 && b[4] == l / 256
  {
    var w := [SetBit6(hi), lo] + b;
    assert w[0] == SetBit6(hi) && w[1] == lo;
    assert w[2] == b[0] && w[3] == b[1] && w[4] == b[2] && w[5] == b[3] && w[6] == b[4];
  }

  lemma EightBytesSpell(v: Bytes, l: nat)
    requires |v| == 8 && 192 <= v[0] && FromBigEndian(v) % VarintLimit(8) == l < 65536
    ensures v == [192, 0, 0, 0, 0, 0, l / 256, l % 256]
  {
    var be := [v[0] - 192] + v[1..];
    TopByte(v, be, 3);
    FromBound(be, 64);
    assert Pow256(7) == 0x100_0000_0000_0000;
    assert FromBigEndian(be) < VarintLimit(8);
    assert FromBigEndian(v) == FromBigEndian(be) + 3 * VarintLimit(8);
    Bits.DivModUnique(FromBigEndian(v), VarintLimit(8), 3, FromBigEndian(be));
    BigEndianOf(be);
    SmallInEight(l);
    assert v == [v[0]] + v[1..];
  }

  lemma SmallInEight(l: nat)
    requires l < 65536
    ensures BigEndian(l, 8) == [0, 0, 0, 0, 0, 0, l / 256, l % 256]
  {
    TwoBytes(l);
    BigEndianZero(6);
    BigEndianSteps(l);
  }

  lemma {:induction false} BigEndianZero(k: nat)
    ensures BigEndian(0, k) == seq(k, _ => 0)
  {
    if k > 0 { BigEndianZero(k - 1); }
  }

  lemma BigEndianSteps(l: nat)
    requires l < 65536
    ensures BigEndian(l, 8) == BigEndian(0, 6) + [l / 256, l % 256]
  {
    assert BigEndian(l / 256, 7) == BigEndian(0, 6) + [l / 256];
  }

  /** A varint of at least 2^14 takes at least four bytes. */
  lemma LongVarint(b: Bytes)
    requires ReadVarint(b).Ok?
    ensures ReadVarint(b).value.0 < 0x4000 || |ReadVarint(b).value.1| + 4 <= |b|
  {
  }

  lemma BigEndianExact(n: nat, k: nat)
    requires n < Pow256(k)
    ensures FromBigEndian(BigEndian(n, k)) == n
  {
    BigEndianRoundTrip(n, k);
    Bits.DivModUnique(n, Pow256(k), 0, n);
  }

  /** A value within the limit leaves the two top bits free. */
  lemma FirstByteSmall(n: nat, k: nat)
    requires k in {1, 2, 4, 8} && n < VarintLimit(k)
    ensures BigEndian(n, k)[0] < 64
    ensures n < Pow256(k)
  {
    hide BigEndian; hide Pow256;
    LimitIs(k);
    TopIs(n, k);
    QuotientBelow(n, Pow256(k - 1), 64);
  }

  lemma QuotientBelow(n: nat, p: nat, c: nat)
    requires 0 < p && n < c * p
    ensures n / p < c
  {
    Multiples(c, n / p, p);
  }

  lemma Multiples(c: nat, q: nat, p: nat)
    requires 0 < p && q * p < c * p
    ensures q < c
  {
    assert (c - q) * p > 0;
  }

  lemma {:induction false} TopIs(n: nat, k: nat)
    requires 0 < k
    ensures BigEndian(n, k)[0] == n / Pow256(k - 1) % 256
  {
    if k > 1 {
      TopIs(n / 256, k - 1);
      DivDiv(n, Pow256(k - 2));
    }
  }

  lemma DivDiv(n: nat, p: nat)
    requires 0 < p
    ensures n / 256 / p == n / (256 * p)
  {
    var q, r := n / 256 / p, n / 256 % p;
    assert n == q * (256 * p) + (r * 256 + n % 256);
    Bits.DivModUnique(n, 256 * p, q, r * 256 + n % 256);
  }

  /** Adding `64 * h` to the first byte adds `h` times the top quarter to the value. */
  lemma {:induction false} TopByte(v: Bytes, be: Bytes, h: nat)
    requires 0 < |v| == |be| && v[0] == be[0] + 64 * h && v[1..] == be[1..]
    ensures FromBigEndian(v) == FromBigEndian(be) + 64 * h * Pow256(|v| - 1)
  {
    var n := |v| - 1;
    if n > 0 {
      assert v[n] == v[1..][n - 1] == be[1..][n - 1] == be[n];
      assert v[..n][1..] == v[1..][..n - 1] && be[..n][1..] == be[1..][..n - 1];
      TopByte(v[..n], be[..n], h);
      Scale(64 * h, Pow256(n - 1));
    } else {
      assert v == [v[0]] && be == [be[0]];
    }
  }

  lemma Scale(a: nat, p: nat)
    ensures a * p * 256 == a * (256 * p)
  {
  }

  lemma LimitIs(k: nat)
    requires k in {1, 2, 4, 8}
    ensures 64 * Pow256(k - 1) == VarintLimit(k) && Pow256(k) == 4 * VarintLimit(k)
  {
    assert Pow256(3) == 0x100_0000;
    assert Pow256(7) == 0x100_0000 * 256 * Pow256(3);
  }

  lemma PrefixDrops(n: nat, k: nat)
    requires k in {1, 2, 4, 8} && n < VarintLimit(k)
    ensures (n + 64 * Prefix(k) * Pow256(k - 1)) % VarintLimit(k) == n
  {
    LimitIs(k);
    var h, limit := Prefix(k), VarintLimit(k);
    assert 64 * h * Pow256(k - 1) == h * limit;
    Bits.DivModUnique(n + h * limit, limit, h, n);
  }

  // -------------------------------------------------------------------- byte strings

  function Read(b: Bytes, k: nat): (r: Result<(Bytes, Bytes)>)
    ensures r.Ok? <==> k <= |b|
    ensures r.Ok? ==> |r.value.0| == k && b == r.value.0 + r.value.1
  {
    if |b| < k then Err(BufferTooShort) else Ok((b[..k], b[k..]))
  }

  function Write(s: Bytes, rest: Bytes): (r: Bytes)
    ensures Read(r, |s|) == Ok((s, rest))
    ensures |r| == |s| + |rest|
  {
    assert (s + rest)[..|s|] == s;
    s + rest
  }

  function ReadWithVarintLength(b: Bytes): (r: Result<(Bytes, Bytes)>)
    ensures r.Ok? ==> |r.value.0| <= VINT_MAX && |r.value.1| <= |b|
  {
    var (k, b1) :- ReadVarint(b);
    Read(b1, k)
  }

  function ReadWithU8Length(b: Bytes): (r: Result<(Bytes, Bytes)>)
    ensures r.Ok? ==> |r.value.1| <= |b|
  {
    var (k, b1) :- ReadUint(b, 1);
    Read(b1, k)
  }

  // ----------------------------------------------------------------- connection IDs

  const MAX_CID_LEN: nat := 20

  /** `ConnectionId::new`: at most 20 bytes are kept. */
  function Cid(s: Bytes): (c: Bytes)
    ensures |c| <= MAX_CID_LEN && c <= s
  {
    if |s| <= MAX_CID_LEN then s else s[..MAX_CID_LEN]
  }

  /** Writing in front of a longer buffer puts the same bytes in front. */
  lemma WritesPrepend(rest: Bytes)
    ensures [] + rest == rest
    ensures forall n: nat, a: Bytes | n <= VINT_MAX :: WriteVarint(n, a + rest) == WriteVarint(n, a) + rest
    ensures forall n: nat, k: nat, a: Bytes | k in {1, 2, 4, 8} ::
      WriteVarintWithLen(n, k, a + rest) == WriteVarintWithLen(n, k, a) + rest
    ensures forall n: nat, k: nat, a: Bytes :: WriteUint(n, k, a + rest) == WriteUint(n, k, a) + rest
    ensures forall s: Bytes, a: Bytes :: Write(s, a + rest) == Write(s, a) + rest
  {
    forall s: Bytes, a: Bytes ensures s + (a + rest) == s + a + rest { }
  }

  lemma VarintPrepends(n: nat, a: Bytes, rest: Bytes)
    requires n <= VINT_MAX
    ensures WriteVarint(n, a + rest) == WriteVarint(n, a) + rest
  {
    WritesPrepend(rest);
  }
}
