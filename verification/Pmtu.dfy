/** `Dplpmtud` (src/connection/pmtu.rs; section 14.3 of RFC 9000, RFC 8899): the search
    for the largest datagram a path carries. */
module Pmtu {
  import opened Base
  import opened Bits

  const BASE: nat := 1200
  const MAX_PACKET_SIZE_IPV4: nat := 1472
  const MAX_PACKET_SIZE_IPV6: nat := 1452
  const MAX_PROBE_COUNT: nat := 3

  datatype Search = Search(
    shouldProbe: bool,
    current: nat,
    probe: Option<nat>,
    probeCount: nat,
    failed: nat,
    maxPmtu: nat)

  function New(enable: bool, maxPmtu: nat, isIpv6: bool): Search
  {
    var m := if maxPmtu != BASE then maxPmtu else if isIpv6 then MAX_PACKET_SIZE_IPV6 else MAX_PACKET_SIZE_IPV4;
    Search(enable, BASE, None, 0, 0, m)
  }

  /** The upper limit of the probe size. */
  function Ceiling(s: Search, peer: nat): nat
  {
    Min(if s.failed > 0 then s.failed else s.maxPmtu, peer)
  }

  function ProbeSize(s: Search, peer: nat): nat
  {
    var c := Ceiling(s, peer);
    if s.failed == 0 && c < 1500 then c else (s.current + c) / 2
  }

  /** The validated size is within one percent of the ceiling. */
  predicate Finished(s: Search, peer: nat)
  {
    s.current >= Ceiling(s, peer) || 100 * s.current >= 99 * Ceiling(s, peer)
  }

  function WithProbe(s: Search, peer: nat): Search
  {
    if s.probe.Some? then s else s.(probe := Some(ProbeSize(s, peer)))
  }

  function OnSent(s: Search): Search { s.(shouldProbe := false) }

  function OnAcked(s: Search, size: nat, peer: nat): Search
  {
    var t := s.(current := if s.current < size then size else s.current, probeCount := 0);
    t.(probe := Some(ProbeSize(t, peer)), shouldProbe := !Finished(t, peer))
  }

  function OnLost(s: Search, size: nat, peer: nat): Search
  {
    if s.probe != Some(size) then s
    else if s.probeCount + 1 < MAX_PROBE_COUNT then s.(probeCount := s.probeCount + 1, shouldProbe := true)
    else
      var t := s.(failed := size, probeCount := 0);
      t.(probe := Some(ProbeSize(t, peer)), shouldProbe := !Finished(t, peer))
  }

  // ----------------------------------------------------------------- one probe round

  datatype Outcome = Acked | Lost

  /** One round: the probe is sized, sent, and then acknowledged or lost. */
  function Round(s: Search, peer: nat, o: Outcome): Search
  {
    var t := OnSent(WithProbe(s, peer));
    if o.Acked? then OnAcked(t, t.probe.value, peer) else OnLost(t, t.probe.value, peer)
  }

  /** The size probed in the next round. */
  function NextSize(s: Search, peer: nat): nat { WithProbe(s, peer).probe.value }

  /** What holds between rounds of a search that still wants to probe. */
  predicate Searching(s: Search, peer: nat)
  {
    && s.shouldProbe && BASE <= s.current && s.probeCount < MAX_PROBE_COUNT
    && s.current <= Ceiling(s, peer)
    && NextSize(s, peer) == ProbeSize(s, peer)
    && ((s.failed == 0 && Ceiling(s, peer) < 1500) || !Finished(s, peer))
  }

  /** The distance still to search, less one. */
  function Gap(s: Search, peer: nat): nat
  {
    if s.current < Ceiling(s, peer) then Ceiling(s, peer) - s.current - 1 else 0
  }

  /** Rounds left at most: three tries for each halving of the gap, and three for the
      first shot at the ceiling. */
  function Rank(s: Search, peer: nat): int
  {
    3 * (Width(Gap(s, peer)) + (if s.failed == 0 then 1 else 0)) + 3 - s.probeCount
  }

  /** A probe that is settled (acknowledged, or lost for the third time) halves the gap, or
      was the first shot at the ceiling. */
  lemma SettledGap(s: Search, peer: nat, o: Outcome)
    requires Searching(s, peer) && (o.Acked? || s.probeCount + 1 == MAX_PROBE_COUNT)
    ensures var t := Round(s, peer, o);
      t.shouldProbe ==>
        && Searching(t, peer) && t.probeCount == 0
        && (if s.failed == 0 && t.failed > 0 then Gap(t, peer) <= Gap(s, peer)
            else (t.failed == 0 <==> s.failed == 0) && 0 < Gap(s, peer) && Gap(t, peer) <= Gap(s, peer) / 2)
  {
  }

  /** Every round either ends the search or lowers its rank, whatever the outcome. */
  lemma RoundProgress(s: Search, peer: nat, o: Outcome)
    requires Searching(s, peer)
    ensures var t := Round(s, peer, o);
      t.shouldProbe ==> Searching(t, peer) && 0 < Rank(t, peer) < Rank(s, peer)
  {
    var t := Round(s, peer, o);
    if o.Acked? || s.probeCount + 1 == MAX_PROBE_COUNT {
      SettledGap(s, peer, o);
      if t.shouldProbe {
        if s.failed == 0 && t.failed > 0 { WidthMono(Gap(t, peer), Gap(s, peer)); }
        else { WidthMono(Gap(t, peer), Gap(s, peer) / 2); }
      }
    }
  }

  // --------------------------------------------------------------------- whole runs

  datatype Outcomes = Nil | Cons(head: Outcome, tail: Outcomes)

  function Length(os: Outcomes): nat
  {
    match os case Nil => 0 case Cons(_, tail) => 1 + Length(tail)
  }

  /** Rounds with the given outcomes, until the search stops. */
  function Play(s: Search, peer: nat, os: Outcomes): Search
    decreases os
  {
    if !s.shouldProbe || os.Nil? then s else Play(Round(s, peer, os.head), peer, os.tail)
  }

  lemma NewSearches(maxPmtu: nat, isIpv6: bool, peer: nat)
    requires BASE <= maxPmtu && BASE <= peer
    ensures Searching(New(true, maxPmtu, isIpv6), peer)
  {
  }

  lemma {:induction false} PlayStops(s: Search, peer: nat, os: Outcomes)
    requires Searching(s, peer) && Rank(s, peer) <= Length(os)
    ensures !Play(s, peer, os).shouldProbe
    decreases os
  {
    if os.Cons? {
      RoundProgress(s, peer, os.head);
      var t := Round(s, peer, os.head);
      if t.shouldProbe { PlayStops(t, peer, os.tail); }
    }
  }

  /** A search whose ceiling is below the base size: it probes that ceiling only. */
  predicate BelowBase(s: Search, peer: nat)
  {
    && s.shouldProbe && s.failed == 0 && s.probeCount < MAX_PROBE_COUNT && s.current == BASE
    && NextSize(s, peer) == Ceiling(s, peer) < BASE
  }

  lemma {:induction false} BelowBaseStops(s: Search, peer: nat, os: Outcomes)
    requires BelowBase(s, peer) && 3 - s.probeCount <= Length(os)
    ensures !Play(s, peer, os).shouldProbe
    decreases os
  {
    if os.Cons? {
      var t := Round(s, peer, os.head);
      if t.shouldProbe { BelowBaseStops(t, peer, os.tail); }
    }
  }

  /** Every search ends, whatever the limits and whatever happens to its probes: three
      tries for each halving of the distance to the ceiling, and six more. */
  lemma SearchTerminates(enable: bool, maxPmtu: nat, isIpv6: bool, peer: nat, os: Outcomes)
    requires var s := New(enable, maxPmtu, isIpv6);
      3 * Width(Gap(s, peer)) + 6 <= Length(os)
    ensures !Play(New(enable, maxPmtu, isIpv6), peer, os).shouldProbe
  {
    var s := New(enable, maxPmtu, isIpv6);
    if enable {
      if BASE <= maxPmtu && BASE <= peer {
        NewSearches(maxPmtu, isIpv6, peer);
        PlayStops(s, peer, os);
      } else {
        BelowBaseStops(s, peer, os);
      }
    }
  }

  /** Acknowledgements come only for sizes up to `limit`; sizes up to `limit` may still be
      lost by chance. */
  predicate Lossy(s: Search, peer: nat, limit: nat, os: Outcomes)
    decreases os
  {
    s.shouldProbe && os.Cons? ==>
      && (os.head.Acked? ==> NextSize(s, peer) <= limit)
      && Lossy(Round(s, peer, os.head), peer, limit, os.tail)
  }

  /** The path carries exactly the sizes up to `limit`. */
  predicate OnPath(s: Search, peer: nat, limit: nat, os: Outcomes)
    decreases os
  {
    s.shouldProbe && os.Cons? ==>
      && (os.head.Acked? <==> NextSize(s, peer) <= limit)
      && OnPath(Round(s, peer, os.head), peer, limit, os.tail)
  }

  /** The validated size was acknowledged, so the path and both ends allow it. */
  predicate Sound(s: Search, peer: nat, limit: nat)
  {
    && BASE <= s.current <= Min(limit, Min(s.maxPmtu, peer)) && s.failed <= s.maxPmtu
    && (s.shouldProbe ==> Searching(s, peer)) && (!s.shouldProbe ==> Finished(s, peer))
  }

  lemma RoundSound(s: Search, peer: nat, limit: nat, o: Outcome)
    requires Searching(s, peer) && Sound(s, peer, limit)
    requires o.Acked? ==> NextSize(s, peer) <= limit
    ensures Sound(Round(s, peer, o), peer, limit) && Round(s, peer, o).maxPmtu == s.maxPmtu
    ensures s.current <= Round(s, peer, o).current
    ensures o.Lost? && limit < NextSize(s, peer) && (s.failed == 0 || limit < s.failed) ==>
      Round(s, peer, o).failed == 0 || limit < Round(s, peer, o).failed
    ensures o.Acked? ==> Round(s, peer, o).failed == s.failed
  {
    RoundProgress(s, peer, o);
  }

  lemma {:induction false} StaysSound(s: Search, peer: nat, limit: nat, os: Outcomes)
    requires Sound(s, peer, limit) && Lossy(s, peer, limit, os)
    ensures var t := Play(s, peer, os);
      Sound(t, peer, limit) && s.current <= t.current && t.maxPmtu == s.maxPmtu
    decreases os
  {
    if s.shouldProbe && os.Cons? {
      RoundSound(s, peer, limit, os.head);
      StaysSound(Round(s, peer, os.head), peer, limit, os.tail);
    }
  }

  // ------------------------------------------------------------------ any interleaving

  /** What can happen to a search at any time: it is asked for a probe size, or a probe is
      sent, acknowledged or lost, however late. */
  datatype Event = AskSize | ProbeSent | ProbeAcked(size: nat) | ProbeLost(size: nat)

  /** A search and the sizes it was ever asked to probe. */
  datatype History = History(search: Search, probed: set<nat>)

  function Happens(h: History, peer: nat, e: Event): History
  {
    match e
    case AskSize =>
      var t := WithProbe(h.search, peer);
      History(t, h.probed + {t.probe.value})
    case ProbeSent => h.(search := OnSent(h.search))
    case ProbeAcked(size) => h.(search := OnAcked(h.search, size, peer))
    case ProbeLost(size) => h.(search := OnLost(h.search, size, peer))
  }

  /** Only sizes ever probed are acknowledged or lost, and no size above `limit` gets
      through; anything may be lost. */
  predicate Possible(h: History, limit: nat, e: Event)
  {
    match e
    case ProbeAcked(size) => size in h.probed && size <= limit
    case ProbeLost(size) => size in h.probed
    case _ => true
  }

  datatype Trace = Begin | Then(before: Trace, event: Event)

  function After(s: Search, peer: nat, t: Trace): History
  {
    match t case Begin => History(s, {}) case Then(b, e) => Happens(After(s, peer, b), peer, e)
  }

  predicate PossibleTrace(s: Search, peer: nat, limit: nat, t: Trace)
  {
    t.Then? ==> PossibleTrace(s, peer, limit, t.before) && Possible(After(s, peer, t.before), limit, t.event)
  }

  /** Everything stays below what both ends allow, and the validated size below the path. */
  ghost predicate WithinLimits(h: History, peer: nat, limit: nat)
  {
    var s := h.search;
    var bound := Min(s.maxPmtu, peer);
    && BASE <= s.current <= Min(limit, bound) && s.failed <= s.maxPmtu
    && (s.probe.Some? ==> s.probe.value <= bound)
    && (forall size | size in h.probed :: size <= bound)
  }

  lemma HappensWithinLimits(h: History, peer: nat, limit: nat, e: Event)
    requires WithinLimits(h, peer, limit) && Possible(h, limit, e)
    ensures WithinLimits(Happens(h, peer, e), peer, limit)
    ensures h.search.current <= Happens(h, peer, e).search.current
    ensures Happens(h, peer, e).search.maxPmtu == h.search.maxPmtu
  {
  }

  /** At no point of any interleaving, with probes acknowledged or lost however late, does
      a search settle on a size that the path, the local limit or the peer's limit forbids;
      and it never gives up a size it has validated. */
  lemma {:induction false} NeverTooLarge(maxPmtu: nat, isIpv6: bool, peer: nat, limit: nat, t: Trace)
    requires BASE <= maxPmtu && BASE <= peer && BASE <= limit
    requires PossibleTrace(New(true, maxPmtu, isIpv6), peer, limit, t)
    ensures
      var s := New(true, maxPmtu, isIpv6);
      var h := After(s, peer, t);
      && h.search.maxPmtu == s.maxPmtu && WithinLimits(h, peer, limit)
      && BASE <= h.search.current <= Min(limit, Min(s.maxPmtu, peer))
      && (t.Then? ==> After(s, peer, t.before).search.current <= h.search.current)
  {
    if t.Then? {
      NeverTooLarge(maxPmtu, isIpv6, peer, limit, t.before);
      HappensWithinLimits(After(New(true, maxPmtu, isIpv6), peer, t.before), peer, limit, t.event);
    }
  }

  // ------------------------------------------------------------- what settles a probe

  /** How often in a row the size being probed has been lost since it was chosen. */
  function LossesInARow(s: Search, peer: nat, t: Trace): nat
  {
    match t
    case Begin => 0
    case Then(b, e) =>
      var before := LossesInARow(s, peer, b);
      match e
      case ProbeAcked(_) => 0
      case ProbeLost(size) =>
        if After(s, peer, b).search.probe != Some(size) then before
        else if before == 2 then 0
        else before + 1
      case _ => before
  }

  /** The event settles the size being probed: an acknowledgement, or its third loss in a row. */
  predicate Settles(s: Search, peer: nat, t: Trace)
    requires t.Then?
  {
    || t.event.ProbeAcked?
    || (t.event.ProbeLost? && After(s, peer, t.before).search.probe == Some(t.event.size)
        && LossesInARow(s, peer, t.before) == 2)
  }

  lemma {:induction false} CountIsLossesInARow(enable: bool, maxPmtu: nat, isIpv6: bool, peer: nat, t: Trace)
    ensures
      var s := New(enable, maxPmtu, isIpv6);
      After(s, peer, t).search.probeCount == LossesInARow(s, peer, t) <= 2
  {
    if t.Then? { CountIsLossesInARow(enable, maxPmtu, isIpv6, peer, t.before); }
  }

  /** In every trace, a size is marked as failed exactly when it is lost for the third time in a
      row; its first and second loss ask for another probe of it, and losses of other sizes
      change nothing. */
  lemma FailedAfterThreeLosses(enable: bool, maxPmtu: nat, isIpv6: bool, peer: nat, t: Trace)
    requires t.Then?
    ensures
      var s := New(enable, maxPmtu, isIpv6);
      var before, after := After(s, peer, t.before).search, After(s, peer, t).search;
      if t.event.ProbeLost? && before.probe == Some(t.event.size) then
        if LossesInARow(s, peer, t.before) == 2 then after.failed == t.event.size
        else
          && after.failed == before.failed && after.probe == before.probe
          && after.current == before.current && after.shouldProbe
      else
        && after.failed == before.failed
        && (t.event.ProbeLost? ==> after == before)
  {
    CountIsLossesInARow(enable, maxPmtu, isIpv6, peer, t.before);
  }

  /** Once a probe is settled, the search goes on exactly while the validated size is more than
      one percent below the ceiling (the failed size or, if none, the maximum; and the peer's
      limit); it then probes the ceiling itself if nothing has failed and it is below 1500,
      and otherwise half way. */
  lemma SettledSearch(enable: bool, maxPmtu: nat, isIpv6: bool, peer: nat, t: Trace)
    requires t.Then? && Settles(New(enable, maxPmtu, isIpv6), peer, t)
    ensures
      var after := After(New(enable, maxPmtu, isIpv6), peer, t).search;
      var ceiling := Min(if after.failed == 0 then after.maxPmtu else after.failed, peer);
      && (after.shouldProbe <==> 100 * after.current < 99 * ceiling)
      && after.probe == Some(
           if after.failed == 0 && ceiling < 1500 then ceiling else (after.current + ceiling) / 2)
  {
    CountIsLossesInARow(enable, maxPmtu, isIpv6, peer, t.before);
  }

  /** Asking for a size and sending a probe settle nothing: the size stays the one being probed
      (the first is chosen when first asked for), and a sent probe is not sent again until it
      is lost. */
  lemma AskingAndSending(enable: bool, maxPmtu: nat, isIpv6: bool, peer: nat, t: Trace)
    requires t.Then? && (t.event.AskSize? || t.event.ProbeSent?)
    ensures
      var before := After(New(enable, maxPmtu, isIpv6), peer, t.before).search;
      var after := After(New(enable, maxPmtu, isIpv6), peer, t).search;
      && (t.event.ProbeSent? ==> after == before.(shouldProbe := false))
      && (t.event.AskSize? ==> after == before.(probe := after.probe) && after.probe.Some?)
      && (t.event.AskSize? && before.probe.Some? ==> after.probe == before.probe)
  {
  }

  /** Without a configured maximum the search starts at 1200 and aims for what an Ethernet frame
      of 1500 bytes leaves after the IP and UDP headers. */
  lemma DefaultLimits(enable: bool, peer: nat)
    ensures New(enable, 1200, false) == Search(enable, 1200, None, 0, 0, 1500 - 20 - 8)
    ensures New(enable, 1200, true) == Search(enable, 1200, None, 0, 0, 1500 - 40 - 8)
    ensures forall maxPmtu: nat, v6: bool | maxPmtu != 1200 ::
      New(enable, maxPmtu, v6) == Search(enable, 1200, None, 0, 0, maxPmtu)
  {
  }

  /** A ceiling below 1500 that the path carries is found with a single probe. */
  lemma OneShot(maxPmtu: nat, isIpv6: bool, peer: nat)
    requires BASE <= maxPmtu && BASE <= peer
    ensures
      var s := New(true, maxPmtu, isIpv6);
      var ceiling := Min(s.maxPmtu, peer);
      ceiling < 1500 ==>
        NextSize(s, peer) == ceiling && Round(s, peer, Acked).current == ceiling && !Round(s, peer, Acked).shouldProbe
  {
  }

  lemma {:induction false} FailedIsTooLarge(s: Search, peer: nat, limit: nat, os: Outcomes)
    requires Sound(s, peer, limit) && OnPath(s, peer, limit, os) && (s.failed == 0 || limit < s.failed)
    ensures var t := Play(s, peer, os); t.failed == 0 || limit < t.failed
    ensures Lossy(s, peer, limit, os)
    decreases os
  {
    if s.shouldProbe && os.Cons? {
      RoundSound(s, peer, limit, os.head);
      FailedIsTooLarge(Round(s, peer, os.head), peer, limit, os.tail);
    }
  }

  /** On a path that carries exactly the sizes up to `limit`, the search stops within one
      percent of the largest size that path and both ends allow, and never above it. */
  lemma SearchIsAccurate(maxPmtu: nat, isIpv6: bool, peer: nat, limit: nat, os: Outcomes)
    requires BASE <= maxPmtu && BASE <= peer && BASE <= limit
    requires var s := New(true, maxPmtu, isIpv6);
      OnPath(s, peer, limit, os) && 3 * Width(Gap(s, peer)) + 6 <= Length(os)
    ensures
      var s := New(true, maxPmtu, isIpv6);
      var t := Play(s, peer, os);
      var best := Min(limit, Min(s.maxPmtu, peer));
      !t.shouldProbe && t.current <= best && 99 * best <= 100 * t.current
  {
    var s := New(true, maxPmtu, isIpv6);
    NewSearches(maxPmtu, isIpv6, peer);
    SearchTerminates(true, maxPmtu, isIpv6, peer, os);
    FailedIsTooLarge(s, peer, limit, os);
    StaysSound(s, peer, limit, os);
  }

  // --------------------------------------------------------------------- the object

  class Dplpmtud {
    var shouldProbe: bool
    var current: nat
    var probe: Option<nat>
    var probeCount: nat
    var failed: nat
    var maxPmtu: nat

    function Abs(): Search
      reads this
    {
      Search(shouldProbe, current, probe, probeCount, failed, maxPmtu)
    }

    constructor (enable: bool, maxPmtu: nat, isIpv6: bool)
      ensures Abs() == New(enable, maxPmtu, isIpv6)
    {
      var m := maxPmtu;
      if m == BASE {
        m := if isIpv6 then MAX_PACKET_SIZE_IPV6 else MAX_PACKET_SIZE_IPV4;
      }
      shouldProbe, current, probe, probeCount, failed := enable, BASE, None, 0, 0;
      this.maxPmtu := m;
    }

    method GetProbeSize(peer: nat) returns (size: nat)
      modifies this`probe
      ensures Abs() == WithProbe(old(Abs()), peer) && probe == Some(size)
    {
      if probe.Some? { return probe.value; }
      size := ProbeSize(Abs(), peer);
      probe := Some(size);
    }

    method OnProbeSent()
      modifies this`shouldProbe
      ensures Abs() == OnSent(old(Abs()))
    {
      shouldProbe := false;
    }

    method OnProbeAcked(size: nat, peer: nat)
      modifies this
      ensures Abs() == OnAcked(old(Abs()), size, peer)
    {
      if current < size { current := size; }
      probeCount := 0;
      probe := Some(ProbeSize(Abs(), peer));
      shouldProbe := !Finished(Abs(), peer);
    }

    method OnProbeLost(size: nat, peer: nat)
      modifies this
      ensures Abs() == OnLost(old(Abs()), size, peer)
    {
      if Some(size) != probe { return; }
      probeCount := probeCount + 1;
      if probeCount < MAX_PROBE_COUNT {
        shouldProbe := true;
        return;
      }
      failed := size;
      probe := Some(ProbeSize(Abs(), peer));
      probeCount := 0;
      shouldProbe := !Finished(Abs(), peer);
    }
  }
}
