/** Packet types (src/packet.rs). */
module PacketTypes {
  datatype PacketType = VersionNegotiation | Initial | ZeroRTT | Handshake | Retry | OneRTT
}

/** Truncated packet numbers (src/packet.rs; appendices A.2 and A.3 of RFC 9000). */
module PacketNumbers {
  import opened Base
  import opened Bits
  import opened Codec

  const TWO_62: nat := 0x4000_0000_0000_0000
  const TWO_63: nat := 0x8000_0000_0000_0000

  /** Packet numbers the peer may still be waiting for, including this one. */
  function Unacked(pn: nat, largestAcked: Option<nat>): nat
  {
    match largestAcked
    case Some(a) => if a < pn then pn - a else 0
    case None => if pn < U64_MAX then pn + 1 else U64_MAX
  }

  function PacketNumLen(pn: nat, largestAcked: Option<nat>): nat
  {
    (Width(Unacked(pn, largestAcked)) + 1 + 7) / 8
  }

  /** The candidate next to the expected number, moved by one window if it is more than
      half a window away and the packet number space allows it. */
  function Nearest(candidate: nat, expected: nat, win: nat): nat
  {
    if candidate + win / 2 <= expected && candidate < TWO_62 - win then candidate + win
    else if candidate > expected + win / 2 && candidate >= win then candidate - win
    else candidate
  }

  function RoundDown(e: nat, win: nat): (r: nat)
    requires 0 < win
    ensures r == e / win * win && r <= e < r + win
  {
    assert e == e / win * win + e % win;
    e - e % win
  }

  /** `!n` in a 64-bit word. */
  function Not64(n: nat): nat { U64_MAX - n % (U64_MAX + 1) }

  /** `decode_packet_num`. */
  function DecodePacketNum(largest: nat, truncated: nat, len: nat): nat
  {
    var expected, win := largest + 1, Pow256(len);
    var mask := win - 1;
    Nearest(Or(And(expected, Not64(mask)), truncated), expected, win)
  }

  // ------------------------------------------------------------------ the least length

  lemma {:induction false} WidthBounds(n: nat)
    ensures n < Pow2(Width(n))
    ensures 0 < n ==> 0 < Width(n) && Pow2(Width(n) - 1) <= n
  {
    if n > 0 { WidthBounds(n / 2); }
  }

  lemma {:induction false} Pow256IsPow2(k: nat)
    ensures Pow256(k) == Pow2(8 * k)
  {
    if k > 0 {
      Pow256IsPow2(k - 1);
      assert Pow2(8 * k) == 2 * Pow2(8 * k - 1) == 4 * Pow2(8 * k - 2) == 8 * Pow2(8 * k - 3) == 16 * Pow2(8 * k - 4);
      assert Pow2(8 * k - 4) == 2 * Pow2(8 * k - 5) == 4 * Pow2(8 * k - 6)
          == 8 * Pow2(8 * k - 7) == 16 * Pow2(8 * k - 8);
    }
  }

  /** `n` is above everything acknowledged. */
  predicate Unacknowledged(largestAcked: Option<nat>, n: nat)
  {
    largestAcked.Some? ==> largestAcked.value < n
  }

  /** The numbers below `b` that the peer has not acknowledged. */
  function Pending(largestAcked: Option<nat>, b: nat): set<nat>
  {
    set n: nat | n < b && Unacknowledged(largestAcked, n)
  }

  /** The unacknowledged span counts the packet numbers above the largest acknowledged one
      (all of them, if none is) up to the one being sent. */
  lemma {:induction false} UnackedCounts(pn: nat, largestAcked: Option<nat>)
    requires pn < U64_MAX
    ensures Unacked(pn, largestAcked) == |Pending(largestAcked, pn + 1)|
  {
    if pn == 0 {
      assert Pending(largestAcked, 0) == {};
    } else {
      UnackedCounts(pn - 1, largestAcked);
    }
    assert Pending(largestAcked, pn + 1)
        == Pending(largestAcked, pn) + if Unacknowledged(largestAcked, pn) then {pn} else {};
  }

  /** The chosen length is the least one whose window exceeds twice the unacknowledged
      span. */
  lemma LenIsLeast(pn: nat, largestAcked: Option<nat>)
    ensures
      var n, len := Unacked(pn, largestAcked), PacketNumLen(pn, largestAcked);
      && 1 <= len
      && 2 * n < Pow256(len)
      && (forall k :: 1 <= k < len ==> Pow256(k) <= 2 * n)
  {
    assert Width(0) == 0;
    hide Pow2; hide Pow256; hide Width; hide Unacked;
    var n := Unacked(pn, largestAcked);
    var w, len := Width(n), PacketNumLen(pn, largestAcked);
    WidthBounds(n);
    Pow256IsPow2(len);
    Pow2Step(8 * len);
    Pow2Mono(w, 8 * len - 1);
    forall k | 1 <= k < len ensures Pow256(k) <= 2 * n {
      Pow256IsPow2(k);
      Pow2Step(8 * k);
      Pow2Mono(8 * k - 1, w - 1);
    }
  }

  // ---------------------------------------------------------------------- decoding

  /** Decoding returns `pn` exactly when it lies in the window around the expected number,
      or when it lies outside but the correction that would move the candidate is blocked
      by an end of the packet number space. The bound on `largest` keeps every u64
      operation exact. */
  lemma DecodeExactlyWhen(largest: nat, pn: nat, len: nat)
    requires 1 <= len <= 7 && pn < TWO_62 && largest < TWO_63
    ensures
      var e, win := largest + 1, Pow256(len);
      DecodePacketNum(largest, pn % win, len) == pn <==>
        || (e < pn + win / 2 && pn <= e + win / 2)
        || (e / win == pn / win && pn + win / 2 <= e && TWO_62 - win <= pn)
        || (e / win == pn / win && pn > e + win / 2 && pn < win)
  {
    hide Nearest; hide RoundDown; hide Pow256; hide And; hide Or; hide Not64;
    EvenWindow(len);
    CandidateIs(largest + 1, pn % Pow256(len), len);
    NearestExactly(pn, largest + 1, Pow256(len));
  }

  /** `(expected & !mask) | truncated` puts the truncated bits under the high bits of the
      expected number. */
  lemma CandidateIs(e: nat, t: nat, len: nat)
    requires 1 <= len <= 7 && e <= U64_MAX && t < Pow256(len)
    ensures Or(And(e, Not64(Pow256(len) - 1)), t) == RoundDown(e, Pow256(len)) + t
  {
    hide And; hide Or; hide RoundDown; hide Pow2; hide Pow256;
    var win, high := Pow256(len), RoundDown(e, Pow256(len));
    Pow256IsPow2(len);
    Pow256IsPow2(8);
    Pow2Mono(8 * len, 56);
    WordSize();
    AndHigh(e, 8 * len, 64);
    assert e == e / win * win + e % win;
    OrHigh(t, e / win, 8 * len);
    OrCommutes(high, t);
  }

  lemma WordSize()
    ensures Pow256(8) == U64_MAX + 1 && Pow2(56) <= U64_MAX
  {
    Pow256IsPow2(7);
    assert Pow256(7) == 0x100_0000_0000_0000;
  }

  lemma EvenWindow(len: nat)
    requires 1 <= len
    ensures Pow256(len) % 2 == 0
  {
    assert Pow256(len) == 2 * (128 * Pow256(len - 1));
  }

  lemma NearestExactly(pn: nat, e: nat, win: nat)
    requires 0 < win && win % 2 == 0 && pn < TWO_62
    ensures
      Nearest(RoundDown(e, win) + pn % win, e, win) == pn <==>
        || (e < pn + win / 2 && pn <= e + win / 2)
        || (e / win == pn / win && pn + win / 2 <= e && TWO_62 - win <= pn)
        || (e / win == pn / win && pn > e + win / 2 && pn < win)
  {
    hide Nearest; hide RoundDown;
    var b, c := RoundDown(e, win), RoundDown(pn, win);
    Remainder(pn, win);
    Blocks(e / win, pn / win, win);
    NearestBlock(pn, e, win, b, c);
  }

  lemma Remainder(n: nat, win: nat)
    requires 0 < win
    ensures n % win == n - RoundDown(n, win)
  {
  }

  /** Two multiples of `win` are equal, neighbours, or at least two windows apart. */
  lemma Blocks(i: nat, j: nat, win: nat)
    requires 0 < win
    ensures i == j <==> i * win == j * win
    ensures i * win == j * win || i * win == j * win + win || j * win == i * win + win
         || i * win >= j * win + 2 * win || j * win >= i * win + 2 * win
  {
    if j <= i { BlocksApart(j, i - j, win); } else { BlocksApart(i, j - i, win); }
  }

  lemma BlocksApart(j: nat, k: nat, win: nat)
    requires 0 < win
    ensures (j + k) * win == j * win + k * win
    ensures k * win == 0 <==> k == 0
    ensures k == 1 ==> k * win == win
    ensures k >= 2 ==> k * win >= 2 * win
  {
    if k >= 2 { assert k * win == 2 * win + (k - 2) * win; }
  }

  lemma NearestBlock(pn: nat, e: nat, win: nat, b: nat, c: nat)
    requires 0 < win && win % 2 == 0 && pn < TWO_62
    requires b <= e < b + win && c <= pn < c + win
    requires b == c || b == c + win || c == b + win || b >= c + 2 * win || c >= b + 2 * win
    ensures
      Nearest(b + (pn - c), e, win) == pn <==>
        || (e < pn + win / 2 && pn <= e + win / 2)
        || (b == c && pn + win / 2 <= e && TWO_62 - win <= pn)
        || (b == c && pn > e + win / 2 && pn < win)
  {
  }

  lemma WindowSizes()
    ensures Pow256(1) == 0x100 && Pow256(2) == 0x1_0000 && Pow256(3) == 0x100_0000 && Pow256(4) == 0x1_0000_0000
  {
  }

  /** The number a sender truncates reaches any receiver that has not run further ahead
      than half the window: it comes back whole. */
  lemma PacketNumRoundTrip(pn: nat, largestAcked: Option<nat>, largest: nat)
    requires pn < TWO_62 && Unacked(pn, largestAcked) < 0x8000_0000
    requires largestAcked.Some? ==> largestAcked.value < pn && largestAcked.value <= largest
    requires largest + 1 < pn + Pow256(PacketNumLen(pn, largestAcked)) / 2
    ensures
      var len := PacketNumLen(pn, largestAcked);
      && 1 <= len <= 4
      && DecodePacketNum(largest, FromBigEndian(BigEndian(pn, len)), len) == pn
  {
    var n, len := Unacked(pn, largestAcked), PacketNumLen(pn, largestAcked);
    LenIsLeast(pn, largestAcked);
    WindowSizes();
    assert len <= 4;
    BigEndianRoundTrip(pn, len);
    DecodeExactlyWhen(largest, pn, len);
  }
}
