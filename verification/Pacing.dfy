/** `Pacer` (src/congestion_control/pacing.rs; section 7.7 of RFC 9002): a token bucket.
    Times and durations are nanoseconds, rates bytes per second. */
module Pacing {
  import opened Base

  const MIN_BURST_PACKET_NUM: nat := 10
  const MAX_BURST_PACKET_NUM: nat := 128
  const NANOS: nat := 1_000_000_000
  const TWO_64: nat := 0x1_0000_0000_0000_0000

  datatype Bucket = Bucket(
    enabled: bool,
    capacity: nat,
    tokens: nat,
    lastCwnd: nat,
    lastSched: nat,
    granularity: nat)

  /** What the caller passes to `schedule`. */
  datatype Request = Request(bytes: nat, rate: nat, srtt: nat, cwnd: nat, mtu: nat)

  /** The burst a bucket may hold; the quotient is cast to u64 before it is clamped. */
  function Capacity(granularity: nat, cwnd: nat, srtt: nat, mtu: nat): (c: nat)
    ensures MIN_BURST_PACKET_NUM * mtu <= c <= MAX_BURST_PACKET_NUM * mtu
  {
    var c := cwnd * granularity / Max(srtt, 1_000_000) % TWO_64;
    Max(MIN_BURST_PACKET_NUM * mtu, Min(c, MAX_BURST_PACKET_NUM * mtu))
  }

  function New(enabled: bool, srtt: nat, cwnd: nat, mtu: nat, now: nat, granularity: nat): Bucket
  {
    var c := Capacity(granularity, cwnd, srtt, mtu);
    Bucket(enabled, c, c, cwnd, now, granularity)
  }

  /** Requests that are not paced at all. */
  predicate Unpaced(p: Bucket, q: Request)
  {
    !p.enabled || q.srtt == 0 || q.cwnd == 0 || q.rate == 0
  }

  /** The bucket with its capacity brought up to date with the congestion window. */
  function Resized(p: Bucket, q: Request): Bucket
  {
    if q.cwnd == p.lastCwnd then p else
    var c := Capacity(p.granularity, q.cwnd, q.srtt, q.mtu);
    p.(capacity := c, tokens := Min(c, p.tokens), lastCwnd := q.cwnd)
  }

  /** The tokens earned in `elapsed` nanoseconds, cast to u64. */
  function Earned(rate: nat, elapsed: nat): nat
  {
    rate * elapsed / NANOS % TWO_64
  }

  /** The bucket refilled at time `now`; the addition saturates at u64. */
  function Refilled(p: Bucket, rate: nat, now: nat): Bucket
  {
    p.(tokens := Min(Min(p.tokens + Earned(rate, Since(now, p.lastSched)), TWO_64 - 1), p.capacity), lastSched := now)
  }

  /** When `schedule` would let the request go. */
  function WaitUntil(b: Bucket, q: Request, now: nat): nat
    requires 0 < q.rate && b.tokens < q.bytes
  {
    now + (q.bytes - b.tokens) * NANOS / q.rate
  }

  /** `schedule`: the new bucket, and when to send if not at once. */
  function Schedule(p: Bucket, q: Request, now: nat): (Bucket, Option<nat>)
  {
    if Unpaced(p, q) then (p, None) else
    var r := Resized(p, q);
    if q.bytes <= r.tokens then (r, None) else
    var f := Refilled(r, q.rate, now);
    if q.bytes <= f.tokens then (f, None) else
    (f, Some(WaitUntil(f, q, now)))
  }

  function OnSent(p: Bucket, bytes: nat): Bucket
  {
    if p.enabled then p.(tokens := if bytes < p.tokens then p.tokens - bytes else 0) else p
  }

  // -------------------------------------------------------------- what one call does

  /** The burst is what the window sends in one granularity at its own rate (one window per
      round trip, of at least a millisecond), rounded down, unless that is less than ten or
      more than 128 packets. */
  lemma CapacityIsBurst(granularity: nat, cwnd: nat, srtt: nat, mtu: nat)
    requires cwnd * granularity / Max(srtt, 1_000_000) < TWO_64
    ensures
      var c := Capacity(granularity, cwnd, srtt, mtu);
      var rtt := Max(srtt, 1_000_000);
      var amount := cwnd * granularity;
      && (amount < 10 * mtu * rtt ==> c == 10 * mtu)
      && (10 * mtu * rtt <= amount < (128 * mtu + 1) * rtt ==> c * rtt <= amount < (c + 1) * rtt)
      && ((128 * mtu + 1) * rtt <= amount ==> c == 128 * mtu)
  {
    var rtt := Max(srtt, 1_000_000);
    var amount := cwnd * granularity;
    var c := Capacity(granularity, cwnd, srtt, mtu);
    assert c == Max(10 * mtu, Min(amount / rtt, 128 * mtu)) by { ModBelow(amount / rtt, TWO_64); }
    hide Capacity;
    DivBounds(amount, rtt);
    DivAtLeast(amount, rtt, 10 * mtu);
    DivAtLeast(amount, rtt, 128 * mtu + 1);
    assert rtt * (amount / rtt) == amount / rtt * rtt;
    assert rtt * (amount / rtt + 1) == (amount / rtt + 1) * rtt;
  }

  lemma ModBelow(n: nat, d: nat)
    requires n < d
    ensures n % d == n
  {
  }

  /** A concrete burst: 600000 bytes of window, 100 ms of round trip and a granularity of 10 ms
      make 60000 bytes. */
  lemma BurstExample()
    ensures Capacity(10_000_000, 600_000, 100_000_000, 1200) == 60_000
  {
    assert 600_000 * 10_000_000 / 100_000_000 == 60_000;
  }

  /** Without pacing, or without a round trip, window or rate to go by, every request is
      granted and nothing changes. */
  lemma UnpacedCall(p: Bucket, q: Request, now: nat)
    requires !p.enabled || q.srtt == 0 || q.cwnd == 0 || q.rate == 0
    ensures Schedule(p, q, now) == (p, None)
  {
  }

  /** A paced call: the capacity follows the window whenever that has changed; the tokens, cut
      to the new capacity, are refilled only if they do not suffice, by the whole bytes earned
      since the last refill; and what is sent is what is consumed. */
  lemma PacedCall(p: Bucket, q: Request, now: nat, earned: nat)
    requires p.enabled && 0 < q.srtt && 0 < q.cwnd && 0 < q.rate && p.lastSched <= now
    requires p.tokens <= p.capacity < TWO_64 && Capacity(p.granularity, q.cwnd, q.srtt, q.mtu) < TWO_64
    requires earned * NANOS <= q.rate * (now - p.lastSched) < (earned + 1) * NANOS && earned < TWO_64
    ensures
      var (b, wait) := Schedule(p, q, now);
      var capacity := if q.cwnd == p.lastCwnd then p.capacity else Capacity(p.granularity, q.cwnd, q.srtt, q.mtu);
      var held := Min(p.tokens, capacity);
      && b.enabled && b.granularity == p.granularity && b.lastCwnd == q.cwnd && b.capacity == capacity
      && (q.bytes <= held ==> b.tokens == held && b.lastSched == p.lastSched && wait.None?)
      && (held < q.bytes ==>
            && b.tokens == Min(held + earned, capacity) && b.lastSched == now
            && (wait.None? <==> q.bytes <= b.tokens))
      && (wait.None? ==> OnSent(b, q.bytes) == b.(tokens := b.tokens - q.bytes))
  {
    EarnedIs(q.rate, now - p.lastSched, earned);
    hide Earned; hide Capacity;
  }

  /** A clock that has gone back earns nothing, and is taken over. */
  lemma BackwardsClock(p: Bucket, q: Request, now: nat)
    requires p.enabled && 0 < q.srtt && 0 < q.cwnd && 0 < q.rate && q.cwnd == p.lastCwnd && now < p.lastSched
    requires p.tokens <= p.capacity < TWO_64
    ensures
      var (b, wait) := Schedule(p, q, now);
      if q.bytes <= p.tokens then b == p && wait.None? else b == p.(lastSched := now) && wait.Some?
  {
    EarnedIs(q.rate, 0, 0);
    hide Earned; hide Capacity;
  }

  lemma EarnedIs(rate: nat, elapsed: nat, earned: nat)
    requires earned * NANOS <= rate * elapsed < (earned + 1) * NANOS && earned < TWO_64
    ensures Earned(rate, elapsed) == earned
  {
    var x := rate * elapsed;
    DivAtLeast(x, NANOS, earned);
    DivAtLeast(x, NANOS, earned + 1);
    ModBelow(earned, TWO_64);
  }

  /** A new bucket is full. */
  lemma NewIsFull(enabled: bool, srtt: nat, cwnd: nat, mtu: nat, now: nat, granularity: nat)
    ensures
      var b := New(enabled, srtt, cwnd, mtu, now, granularity);
      && b.capacity == Capacity(granularity, cwnd, srtt, mtu) == b.tokens
      && b.enabled == enabled && b.lastCwnd == cwnd && b.lastSched == now && b.granularity == granularity
  {
  }

  /** Sending more than is held, or without pacing, leaves nothing or everything. */
  lemma SendingConsumes(p: Bucket, bytes: nat)
    ensures
      OnSent(p, bytes) == p.(tokens :=
        if !p.enabled then p.tokens else if p.tokens <= bytes then 0 else p.tokens - bytes)
  {
  }

  // ------------------------------------------------------------ rate bound over runs

  /** One call of `schedule`; when it grants the request, the packet is sent. */
  datatype Call = Call(request: Request, now: nat)

  datatype Run = Created(bucket: Bucket) | Then(prefix: Run, call: Call)

  function Final(r: Run): Bucket
  {
    match r
    case Created(b) => b
    case Then(p, c) =>
      var (b, wait) := Schedule(Final(p), c.request, c.now);
      if wait.None? then OnSent(b, c.request.bytes) else b
  }

  /** Bytes sent in a run. */
  function Sent(r: Run): nat
  {
    match r
    case Created(_) => 0
    case Then(p, c) => Sent(p) + if Schedule(Final(p), c.request, c.now).1.None? then c.request.bytes else 0
  }

  function Start(r: Run): Bucket
  {
    match r case Created(b) => b case Then(p, _) => Start(p)
  }

  /** The clock after the run. */
  function Clock(r: Run): nat
  {
    match r case Created(b) => b.lastSched case Then(_, c) => c.now
  }

  /** Pacing is on, the clock is monotone and no rate exceeds `rate`. */
  predicate Paced(r: Run, rate: nat)
  {
    match r
    case Created(b) => b.enabled && b.tokens == b.capacity
    case Then(p, c) =>
      && Paced(p, rate)
      && 0 < c.request.srtt && 0 < c.request.cwnd && 0 < c.request.rate <= rate
      && Clock(p) <= c.now
  }

  lemma EarnedAtMost(rate: nat, elapsed: nat, limit: nat)
    requires rate <= limit
    ensures Earned(rate, elapsed) * NANOS <= limit * elapsed
  {
    var x := rate * elapsed;
    assert x / NANOS * NANOS <= x;
    assert Earned(rate, elapsed) <= x / NANOS;
    assert x <= limit * elapsed;
  }

  /** The bucket never holds more than its capacity, and what was sent plus what is left
      is covered by the initial burst and the time up to the last refill. */
  lemma {:induction false} TokensAccounted(r: Run, rate: nat)
    requires Paced(r, rate)
    ensures Final(r).enabled && Final(r).tokens <= Final(r).capacity
    ensures Start(r).lastSched <= Final(r).lastSched <= Clock(r)
    ensures (Sent(r) + Final(r).tokens) * NANOS
         <= Start(r).capacity * NANOS + rate * (Final(r).lastSched - Start(r).lastSched)
  {
    match r
    case Created(_) =>
    case Then(p, c) =>
      TokensAccounted(p, rate);
      CallAccounted(Final(p), c, rate, Sent(p), Start(r).capacity, Start(r).lastSched);
  }

  lemma CallAccounted(b: Bucket, c: Call, rate: nat, sent: nat, initial: nat, start: nat)
    requires b.enabled && b.tokens <= b.capacity && start <= b.lastSched <= c.now
    requires 0 < c.request.srtt && 0 < c.request.cwnd && 0 < c.request.rate <= rate
    requires (sent + b.tokens) * NANOS <= initial * NANOS + rate * (b.lastSched - start)
    ensures
      var (b', wait) := Schedule(b, c.request, c.now);
      var sent' := sent + if wait.None? then c.request.bytes else 0;
      var after := if wait.None? then OnSent(b', c.request.bytes) else b';
      && after.enabled && after.tokens <= after.capacity
      && start <= after.lastSched <= c.now
      && (sent' + after.tokens) * NANOS <= initial * NANOS + rate * (after.lastSched - start)
  {
    hide Refilled; hide Capacity;
    var r := Resized(b, c.request);
    MulMono(NANOS, sent + r.tokens, sent + b.tokens);
    RefillAccounted(r, c, rate, sent, initial, start);
  }

  lemma RefillAccounted(r: Bucket, c: Call, rate: nat, sent: nat, initial: nat, start: nat)
    requires start <= r.lastSched <= c.now && c.request.rate <= rate
    requires (sent + r.tokens) * NANOS <= initial * NANOS + rate * (r.lastSched - start)
    ensures
      var f := Refilled(r, c.request.rate, c.now);
      && f.tokens <= f.capacity && f.enabled == r.enabled && f.lastSched == c.now
      && (sent + f.tokens) * NANOS <= initial * NANOS + rate * (c.now - start)
  {
    hide Earned;
    var elapsed := c.now - r.lastSched;
    var earned := Earned(c.request.rate, elapsed);
    EarnedAtMost(c.request.rate, elapsed, rate);
    MulMono(NANOS, sent + Refilled(r, c.request.rate, c.now).tokens, sent + r.tokens + earned);
    assert rate * (r.lastSched - start) + rate * elapsed == rate * (c.now - start);
  }

  /** Over every run, the bytes sent never exceed the initial burst plus the highest rate
      times the elapsed time. */
  lemma RateBound(r: Run, rate: nat)
    requires Paced(r, rate)
    ensures Sent(r) * NANOS <= Start(r).capacity * NANOS + rate * (Clock(r) - Start(r).lastSched)
  {
    hide Final; hide Sent; hide Start; hide Clock; hide Paced;
    TokensAccounted(r, rate);
    MulMono(rate, Final(r).lastSched - Start(r).lastSched, Clock(r) - Start(r).lastSched);
    MulMono(NANOS, Sent(r), Sent(r) + Final(r).tokens);
  }

  lemma MulMono(a: nat, x: int, y: int)
    requires x <= y
    ensures a * x <= a * y
  {
  }

  // -------------------------------------------------------------------- waiting time

  /** A refused request: the bucket it leaves, with the request larger than its tokens. */
  ghost predicate Refused(b: Bucket, q: Request, now: nat)
  {
    && !Unpaced(b, q) && q.cwnd == b.lastCwnd && b.lastSched == now
    && b.tokens < q.bytes <= b.capacity < TWO_64
  }

  /** A call that returns a time has refused the request, whatever the bucket was before. */
  lemma ScheduleRefuses(p: Bucket, q: Request, now: nat, b: Bucket, t: nat)
    requires Schedule(p, q, now) == (b, Some(t)) && q.bytes <= b.capacity < TWO_64
    ensures Refused(b, q, now) && t == WaitUntil(b, q, now)
  {
  }

  /** Asked again at any later time, a refused request is granted exactly when the bytes
      earned since, as u64, make up what is missing. */
  lemma GrantedIff(b: Bucket, q: Request, now: nat, later: nat)
    requires Refused(b, q, now) && now <= later
    ensures Schedule(b, q, later).1.None? <==> q.bytes - b.tokens <= Earned(q.rate, later - now)
  {
    hide Earned;
  }

  lemma DivAtLeast(x: nat, d: nat, k: nat)
    requires 0 < d
    ensures k <= x / d <==> k * d <= x
  {
    assert x == x / d * d + x % d;
    if k <= x / d { MulMono(d, k, x / d); } else { MulMono(d, x / d + 1, k); }
  }

  lemma DivBounds(x: nat, d: nat)
    requires 0 < d
    ensures d * (x / d) <= x < d * (x / d + 1)
  {
    assert x == x / d * d + x % d;
  }

  /** The time `schedule` returns is tight: the same request is refused at every time
      before it and granted at every time after it, up to where the earned bytes no longer
      fit u64; at the time itself it is granted if and only if the rate divides the
      missing amount (the quotient is rounded down). */
  lemma WaitIsTight(p: Bucket, q: Request, now: nat, b: Bucket, t: nat, later: nat)
    requires Schedule(p, q, now) == (b, Some(t)) && q.bytes <= b.capacity < TWO_64 && now <= later
    ensures later < t ==> Schedule(b, q, later).1.Some?
    ensures later == t ==> (Schedule(b, q, later).1.None? <==> (q.bytes - b.tokens) * NANOS % q.rate == 0)
    ensures t < later && q.rate * (later - now) / NANOS < TWO_64 ==> Schedule(b, q, later).1.None?
    ensures Schedule(b, q, later).1.None? <==> q.bytes - b.tokens <= Earned(q.rate, later - now)
  {
    hide Schedule; hide Earned;
    ScheduleRefuses(p, q, now, b, t);
    var missing, elapsed := q.bytes - b.tokens, later - now;
    GrantedIff(b, q, now, later);
    EarnedReaches(q.rate, elapsed, missing);
    WaitBounds(missing, q.rate, elapsed);
  }

  /** What the elapsed time must amount to, with and without truncation to u64. */
  lemma EarnedReaches(rate: nat, elapsed: nat, missing: nat)
    requires 0 < missing < TWO_64
    ensures missing <= Earned(rate, elapsed) ==> missing * NANOS <= rate * elapsed
    ensures rate * elapsed / NANOS < TWO_64 ==>
      (missing <= Earned(rate, elapsed) <==> missing * NANOS <= rate * elapsed)
    ensures rate * elapsed <= missing * NANOS ==> rate * elapsed / NANOS < TWO_64
  {
    var x := rate * elapsed;
    assert Earned(rate, elapsed) == x / NANOS % TWO_64;
    hide Earned;
    AtMost(x / NANOS, TWO_64);
    DivAtLeast(x, NANOS, missing);
    if x <= missing * NANOS { DivAtMost(x, NANOS, missing); }
  }

  lemma AtMost(n: nat, d: nat)
    requires 0 < d
    ensures n % d <= n && (n < d ==> n % d == n)
  {
  }

  lemma DivAtMost(x: nat, d: nat, k: nat)
    requires 0 < d && x <= k * d
    ensures x / d <= k
  {
    DivAtLeast(x, d, k + 1);
    assert (k + 1) * d == k * d + d;
  }

  /** Where `rate * elapsed` stands to the missing amount before, at and after the quotient. */
  lemma WaitBounds(missing: nat, rate: nat, elapsed: nat)
    requires 0 < rate
    ensures
      var amount := missing * NANOS;
      var w := amount / rate;
      && (elapsed < w ==> rate * elapsed < amount)
      && (elapsed == w ==> rate * elapsed <= amount && (amount <= rate * elapsed <==> amount % rate == 0))
      && (w < elapsed ==> amount < rate * elapsed)
  {
    var amount := missing * NANOS;
    var w := amount / rate;
    DivBounds(amount, rate);
    if elapsed < w { MulMono(rate, elapsed + 1, w); }
    if w < elapsed { MulMono(rate, w + 1, elapsed); }
    assert amount == rate * w + amount % rate;
  }

  /** Retries at the given times, each refused or granted on the bucket the last left. */
  datatype Retries = First | Again(before: Retries, at: nat)

  function AfterRetries(b: Bucket, q: Request, rs: Retries): Bucket
  {
    match rs case First => b case Again(before, at) => Schedule(AfterRetries(b, q, before), q, at).0
  }

  /** Retry times that never go back and all lie before `limit`. */
  predicate Before(rs: Retries, now: nat, limit: nat)
  {
    match rs
    case First => now <= limit
    case Again(before, at) => Before(before, now, limit) && LastTry(before, now) <= at < limit
  }

  function LastTry(rs: Retries, now: nat): nat
  {
    match rs case First => now case Again(_, at) => at
  }

  /** However often the caller retries before the returned time, every retry is refused. */
  lemma RetriesRefused(p: Bucket, q: Request, now: nat, b: Bucket, t: nat, rs: Retries)
    requires Schedule(p, q, now) == (b, Some(t)) && q.bytes <= b.capacity < TWO_64
    requires Before(rs, now, t) && rs.Again?
    ensures Schedule(AfterRetries(b, q, rs.before), q, rs.at).1.Some?
  {
    hide Schedule; hide WaitUntil; hide AfterRetries;
    ScheduleRefuses(p, q, now, b, t);
    RetriesAccounted(b, q, now, rs.before);
    RetryRefused(b, AfterRetries(b, q, rs.before), q, now, LastTry(rs.before, now), rs.at);
  }

  lemma {:induction false} RetriesAccounted(b: Bucket, q: Request, now: nat, rs: Retries)
    requires Refused(b, q, now)
    requires Before(rs, now, WaitUntil(b, q, now))
    ensures
      var c := AfterRetries(b, q, rs);
      && Refused(c, q, LastTry(rs, now)) && now <= LastTry(rs, now)
      && c.tokens * NANOS <= b.tokens * NANOS + q.rate * (LastTry(rs, now) - now)
  {
    hide Schedule;
    if rs.Again? {
      RetriesAccounted(b, q, now, rs.before);
      var c := AfterRetries(b, q, rs.before);
      RetryRefused(b, c, q, now, LastTry(rs.before, now), rs.at);
    }
  }

  lemma RetryRefused(b: Bucket, c: Bucket, q: Request, now: nat, last: nat, at: nat)
    requires Refused(b, q, now) && Refused(c, q, last) && now <= last <= at
    requires at < WaitUntil(b, q, now)
    requires c.tokens * NANOS <= b.tokens * NANOS + q.rate * (last - now)
    ensures
      var d := Schedule(c, q, at).0;
      && Refused(d, q, at) && Schedule(c, q, at).1.Some?
      && d.tokens * NANOS <= b.tokens * NANOS + q.rate * (at - now)
  {
    EarnedAtMost(q.rate, at - last, q.rate);
    var earned := Earned(q.rate, at - last);
    StillShort(q.bytes, q.rate, b.tokens, c.tokens, earned, now, last, at);
    var f := Refilled(c, q.rate, at);
    assert f.tokens <= c.tokens + earned;
    MulMono(NANOS, f.tokens, c.tokens + earned);
  }

  lemma StillShort(bytes: nat, rate: nat, tokens: nat, later: nat, earned: nat, now: nat, last: nat, at: nat)
    requires 0 < rate && tokens < bytes && now <= last <= at < now + (bytes - tokens) * NANOS / rate
    requires later * NANOS <= tokens * NANOS + rate * (last - now)
    requires earned * NANOS <= rate * (at - last)
    ensures later + earned < bytes
    ensures (later + earned) * NANOS <= tokens * NANOS + rate * (at - now)
  {
    var missing := (bytes - tokens) * NANOS;
    assert rate * (last - now) + rate * (at - last) == rate * (at - now);
    DivBounds(missing, rate);
    MulMono(rate, at - now + 1, missing / rate);
    assert rate * (at - now + 1) == rate * (at - now) + rate;
  }

  /** Retries `gap` nanoseconds apart. */
  function Poll(now: nat, gap: nat, times: nat): Retries
  {
    if times == 0 then First else Again(Poll(now, gap, times - 1), now + gap * times)
  }

  /** The answer to the poll after `times` polls. */
  function PollAnswer(b: Bucket, q: Request, now: nat, gap: nat, times: nat): Option<nat>
  {
    Schedule(AfterRetries(b, q, Poll(now, gap, times)), q, now + gap * (times + 1)).1
  }

  /** One poll adds exactly what a single gap earns: the fraction of a byte is lost. */
  lemma PollOnce(b: Bucket, q: Request, at: nat, gap: nat)
    requires Refused(b, q, at)
    ensures
      var r := Schedule(b, q, at + gap);
      if b.tokens + Earned(q.rate, gap) < q.bytes
      then r.1.Some? && r.0 == b.(tokens := b.tokens + Earned(q.rate, gap), lastSched := at + gap)
      else r.1.None?
  {
    hide Earned;
  }

  lemma {:induction false} PollsAddUp(b: Bucket, q: Request, now: nat, gap: nat, times: nat)
    requires Refused(b, q, now) && b.tokens + times * Earned(q.rate, gap) < q.bytes
    ensures AfterRetries(b, q, Poll(now, gap, times))
         == b.(tokens := b.tokens + times * Earned(q.rate, gap), lastSched := now + gap * times)
  {
    hide Earned; hide Schedule;
    if times > 0 {
      var e := Earned(q.rate, gap);
      assert times * e == (times - 1) * e + e;
      PollsAddUp(b, q, now, gap, times - 1);
      var c := b.(tokens := b.tokens + (times - 1) * e, lastSched := now + gap * (times - 1));
      assert now + gap * times == c.lastSched + gap;
      PollOnce(c, q, c.lastSched, gap);
    }
  }

  lemma PollAnswered(b: Bucket, q: Request, now: nat, gap: nat, times: nat)
    requires Refused(b, q, now) && b.tokens + times * Earned(q.rate, gap) < q.bytes
    ensures PollAnswer(b, q, now, gap, times).None? <==> q.bytes <= b.tokens + (times + 1) * Earned(q.rate, gap)
  {
    hide Earned; hide Schedule;
    var e := Earned(q.rate, gap);
    PollsAddUp(b, q, now, gap, times);
    var c := b.(tokens := b.tokens + times * e, lastSched := now + gap * times);
    assert now + gap * (times + 1) == c.lastSched + gap;
    assert (times + 1) * e == times * e + e;
    PollOnce(c, q, c.lastSched, gap);
  }

  /** Polling at a fixed spacing: if one gap earns whole bytes, the poll that makes up the
      missing bytes with them is the first to be granted. */
  lemma FirstGrantedPoll(b: Bucket, q: Request, now: nat, gap: nat)
    requires Refused(b, q, now) && 0 < Earned(q.rate, gap)
    ensures
      var n := (q.bytes - b.tokens - 1) / Earned(q.rate, gap);
      && PollAnswer(b, q, now, gap, n).None?
      && forall m: nat | m < n :: PollAnswer(b, q, now, gap, m).Some?
  {
    hide Earned; hide Schedule; hide PollAnswer;
    var e := Earned(q.rate, gap);
    var n := (q.bytes - b.tokens - 1) / e;
    DivBounds(q.bytes - b.tokens - 1, e);
    assert e * n == n * e && e * (n + 1) == (n + 1) * e;
    PollAnswered(b, q, now, gap, n);
    forall m: nat | m < n ensures PollAnswer(b, q, now, gap, m).Some? {
      MulMono(e, m + 1, n);
      MulMono(e, m, n);
      PollAnswered(b, q, now, gap, m);
    }
  }

  /** Polling at a fixed spacing is ever granted if and only if one gap earns a byte. A
      spacing that earns none (too short, or a multiple of 2^64 bytes long) resets the
      clock each time, so the request is refused forever. */
  lemma PollingGrantedIff(b: Bucket, q: Request, now: nat, gap: nat)
    requires Refused(b, q, now)
    ensures (exists n: nat :: PollAnswer(b, q, now, gap, n).None?) <==> Earned(q.rate, gap) > 0
  {
    hide Earned; hide PollAnswer;
    if Earned(q.rate, gap) > 0 {
      FirstGrantedPoll(b, q, now, gap);
    } else {
      forall n: nat ensures PollAnswer(b, q, now, gap, n).Some? {
        assert n * Earned(q.rate, gap) == 0 == (n + 1) * Earned(q.rate, gap);
        PollAnswered(b, q, now, gap, n);
      }
    }
  }

  const EMPTY := Bucket(true, 12000, 0, 12000, 0, 1)
  const PACKET := Request(1000, 1_000_000, 1, 12000, 1200)

  /** A path at 1 Mbyte/s polled every microsecond less a nanosecond: 1000 bytes short,
      refused forever although the returned time is one millisecond away. */
  lemma FastPollingStarves(n: nat)
    ensures Refused(EMPTY, PACKET, 0) && WaitUntil(EMPTY, PACKET, 0) == 1_000_000
    ensures PollAnswer(EMPTY, PACKET, 0, 999, n).Some?
  {
    hide PollAnswer;
    NothingEarned();
    hide Earned;
    PollingGrantedIff(EMPTY, PACKET, 0, 999);
  }

  /** The bucket of that case is one a pacer reaches: created full, with one burst sent and
      the request refused. */
  lemma EmptyIsReached()
    ensures
      var full := New(true, 1, 12000, 1200, 0, 1);
      && full.tokens == 12000
      && Schedule(OnSent(full, 12000), PACKET, 0) == (EMPTY, Some(1_000_000))
  {
    hide Capacity; hide Earned;
    FullBucket();
    EarnedAtMost(PACKET.rate, 0, PACKET.rate);
  }

  lemma FullBucket()
    ensures Capacity(1, 12000, 1, 1200) == 12000
  {
    assert 12000 * 1 / 1_000_000 % TWO_64 == 0;
  }

  /** The returned time can be too early by the rounding: 1000 bytes at 3 bytes/s take a
      third of a nanosecond longer than returned, and at the returned time the request is
      refused. */
  lemma RefusedAtReturnedTime()
    ensures
      var q := PACKET.(rate := 3);
      var t := 333_333_333_333;
      && Schedule(EMPTY, q, 0) == (EMPTY, Some(t))
      && Schedule(EMPTY, q, t).1.Some?
  {
    hide Capacity;
    var q := PACKET.(rate := 3);
    WaitIsTight(EMPTY, q, 0, EMPTY, 333_333_333_333, 333_333_333_333);
  }

  lemma NothingEarned()
    ensures Earned(PACKET.rate, 999) == 0
  {
  }

  // --------------------------------------------------------------------- the object

  class Pacer {
    var enabled: bool
    var capacity: nat
    var tokens: nat
    var lastCwnd: nat
    var lastSched: nat
    var granularity: nat

    function Abs(): Bucket
      reads this
    {
      Bucket(enabled, capacity, tokens, lastCwnd, lastSched, granularity)
    }

    constructor (enabled: bool, srtt: nat, cwnd: nat, mtu: nat, now: nat, granularity: nat)
      ensures Abs() == New(enabled, srtt, cwnd, mtu, now, granularity)
    {
      this.enabled := enabled;
      capacity, tokens := 0, 0;
      lastCwnd := cwnd;
      lastSched := now;
      this.granularity := granularity;
      new;
      UpdateCapacity(cwnd, srtt, mtu);
      tokens := capacity;
    }

    method UpdateCapacity(cwnd: nat, srtt: nat, mtu: nat)
      modifies this`capacity
      ensures capacity == Capacity(granularity, cwnd, srtt, mtu)
    {
      var c := cwnd * granularity / Max(srtt, 1_000_000) % TWO_64;
      capacity := Max(MIN_BURST_PACKET_NUM * mtu, Min(c, MAX_BURST_PACKET_NUM * mtu));
    }

    method Send(bytes: nat)
      modifies this`tokens
      ensures Abs() == OnSent(old(Abs()), bytes)
    {
      if enabled {
        tokens := if bytes < tokens then tokens - bytes else 0;
      }
    }

    method Ask(q: Request, now: nat) returns (wait: Option<nat>)
      modifies this
      ensures (Abs(), wait) == Schedule(old(Abs()), q, now)
    {
      hide Earned; hide Capacity; hide Since;
      if !enabled || q.srtt == 0 || q.cwnd == 0 || q.rate == 0 { return None; }
      if q.cwnd != lastCwnd {
        UpdateCapacity(q.cwnd, q.srtt, q.mtu);
        tokens := Min(capacity, tokens);
        lastCwnd := q.cwnd;
      }
      assert Abs() == Resized(old(Abs()), q);
      if tokens >= q.bytes { return None; }
      var elapsed := Since(now, lastSched);
      tokens := Min(Min(tokens + Earned(q.rate, elapsed), TWO_64 - 1), capacity);
      lastSched := now;
      assert Abs() == Refilled(Resized(old(Abs()), q), q.rate, now);
      if q.bytes <= tokens { return None; }
      var toWait := (q.bytes - tokens) * NANOS / q.rate;
      return Some(lastSched + toWait);
    }
  }
}
