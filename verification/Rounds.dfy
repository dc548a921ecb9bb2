/** Packet-timed round trips of BBR (src/congestion_control/bbr.rs) over the delivery
    counter and per-packet snapshots (src/congestion_control/delivery_rate.rs). */
module Rounds {
  import opened Base

  /** What a `SentPacket` remembers: its size, the delivery counter when it was sent, and
      whether `delivered_time` is still set (it has not been acknowledged). `sentAt` is
      the event at which it was sent. */
  datatype Packet = Packet(size: nat, delivered: nat, pending: bool, sentAt: nat)

  /** The fields that count rounds. */
  datatype Counter = Counter(
    delivered: nat,
    nextRoundDelivered: nat,
    roundCount: nat,
    isRoundStart: bool,
    packetDelivered: nat,
    packetConservation: bool,
    inRecovery: bool)

  const NEW := Counter(0, 0, 0, false, 0, false, false)

  /** `on_packet_sent`: the packet takes a snapshot of the delivery counter. */
  function Stamp(c: Counter, size: nat, now: nat): Packet { Packet(size, c.delivered, true, now) }

  /** `begin_ack`. */
  function BeginAck(c: Counter): Counter { c.(packetDelivered := 0) }

  /** `on_ack`: counts the packet once and remembers the largest snapshot. */
  function OnAck(c: Counter, p: Packet): Counter
  {
    c.(delivered := if p.pending then c.delivered + p.size else c.delivered,
       packetDelivered := Max(c.packetDelivered, p.delivered))
  }

  /** `on_congestion_event`: entering recovery restarts the round. */
  function OnCongestion(c: Counter, enter: bool): Counter
  {
    if enter && !c.inRecovery
    then c.(nextRoundDelivered := c.delivered, packetConservation := true, inRecovery := true)
    else c
  }

  predicate StartsRound(c: Counter) { c.packetDelivered >= c.nextRoundDelivered }

  function UpdateRound(c: Counter): Counter
  {
    if StartsRound(c)
    then c.(nextRoundDelivered := c.delivered, roundCount := c.roundCount + 1, isRoundStart := true,
            packetConservation := false)
    else c.(isRoundStart := false)
  }

  /** `end_ack`: recovery may end, the round is updated, and ProbeRTT may restart it. */
  function EndAck(c: Counter, exitRecovery: bool, probeRtt: bool): Counter
  {
    var d := if exitRecovery && c.inRecovery then c.(packetConservation := false, inRecovery := false) else c;
    var e := UpdateRound(d);
    if probeRtt then e.(nextRoundDelivered := e.delivered) else e
  }

  // ---------------------------------------------------------------------------- runs

  datatype Event =
    | Send(id: nat, size: nat)
    | Begin
    | Ack(id: nat)
    | Congestion(enter: bool)
    | End(exitRecovery: bool, probeRtt: bool)

  /** The sender, and what an observer of the run writes down: the number of events, the
      batch of acknowledgements being processed (its packets and the counter when it
      began), when the current round started (event and counter), and when the sentinel
      was last set. */
  datatype System = System(
    counter: Counter,
    packets: map<nat, Packet>,
    clock: nat,
    inBatch: bool,
    batch: set<nat>,
    beganAt: nat,
    startedAt: nat,
    mark: nat,
    sentinelAt: nat)

  const INITIAL := System(NEW, map[], 0, false, {}, 0, 0, 0, 0)

  /** What can happen next: packet numbers are not reused, packets are not sent in the middle
      of a batch, sent packets are acknowledged, and a batch ends only if it acknowledged
      something for the first time. */
  predicate Enabled(s: System, e: Event)
  {
    match e
    case Send(id, size) => !s.inBatch && id !in s.packets
    case Begin => !s.inBatch
    case Ack(id) => s.inBatch && id in s.packets
    case Congestion(_) => true
    case End(_, _) => s.inBatch && s.beganAt < s.counter.delivered
  }

  function Step(s: System, e: Event): System
    requires Enabled(s, e)
  {
    var t := s.(clock := s.clock + 1);
    match e
    case Send(id, size) => t.(packets := s.packets[id := Stamp(s.counter, size, s.clock)])
    case Begin => t.(counter := BeginAck(s.counter), inBatch := true, batch := {}, beganAt := s.counter.delivered)
    case Ack(id) =>
      t.(counter := OnAck(s.counter, s.packets[id]),
         packets := s.packets[id := s.packets[id].(pending := false)],
         batch := s.batch + {id})
    case Congestion(enter) =>
      t.(counter := OnCongestion(s.counter, enter),
         sentinelAt := if enter && !s.counter.inRecovery then s.clock else s.sentinelAt)
    case End(x, r) =>
      t.(counter := EndAck(s.counter, x, r),
         inBatch := false,
         startedAt := if StartsRound(s.counter) then s.clock else s.startedAt,
         mark := if StartsRound(s.counter) then s.counter.delivered else s.mark,
         sentinelAt := if StartsRound(s.counter) || r then s.clock else s.sentinelAt)
  }

  datatype Run = Start | Then(prefix: Run, event: Event)

  predicate ValidRun(r: Run)
    decreases r, 0
  {
    match r case Start => true case Then(p, e) => ValidRun(p) && Enabled(Final(p), e)
  }

  function Final(r: Run): System
    requires ValidRun(r)
    decreases r, 1
  {
    match r case Start => INITIAL case Then(p, e) => Step(Final(p), e)
  }

  // ---------------------------------------------------------------------- invariants

  ghost predicate Inv(s: System)
  {
    && s.mark <= s.counter.nextRoundDelivered <= s.counter.delivered
    && (0 < s.counter.roundCount ==> 0 < s.mark)
    && s.beganAt <= s.counter.delivered
    // Snapshots never run ahead of the counter, nor of the running batch.
    && (forall i | i in s.packets :: s.packets[i].delivered <= s.counter.delivered)
    && (s.inBatch ==> forall i | i in s.packets :: s.packets[i].delivered <= s.beganAt)
    // Packets sent before the current round started carry older snapshots.
    && (0 < s.counter.roundCount ==> s.startedAt < s.clock)
    && (forall i | i in s.packets :: s.packets[i].sentAt < s.clock)
    && (0 < s.counter.roundCount ==>
          forall i | i in s.packets && s.packets[i].sentAt <= s.startedAt :: s.packets[i].delivered < s.mark)
    // Packets sent after the sentinel was set have reached it.
    && (forall i | i in s.packets && s.packets[i].sentAt > s.sentinelAt ::
          s.packets[i].delivered >= s.counter.nextRoundDelivered)
    // The largest snapshot of the batch belongs to one of its packets.
    && (forall i | i in s.batch ::
          i in s.packets && (s.inBatch ==> s.packets[i].delivered <= s.counter.packetDelivered))
    && (s.inBatch && 0 < s.counter.packetDelivered ==>
          exists i :: i in s.batch && i in s.packets && s.packets[i].delivered == s.counter.packetDelivered)
  }

  lemma StepKeepsInv(s: System, e: Event)
    requires Inv(s) && Enabled(s, e)
    ensures Inv(Step(s, e))
  {
    match e
    case Ack(id) => AckKeepsInv(s, id);
    case End(x, r) => EndKeepsInv(s, x, r);
    case Send(_, _) => SendKeepsInv(s, e);
    case _ =>
  }

  lemma SendKeepsInv(s: System, e: Event)
    requires Inv(s) && e.Send? && Enabled(s, e)
    ensures Inv(Step(s, e))
  {
  }

  lemma EndKeepsInv(s: System, exitRecovery: bool, probeRtt: bool)
    requires Inv(s) && Enabled(s, End(exitRecovery, probeRtt))
    ensures Inv(Step(s, End(exitRecovery, probeRtt)))
  {
  }

  lemma AckKeepsInv(s: System, id: nat)
    requires Inv(s) && Enabled(s, Ack(id))
    ensures Inv(Step(s, Ack(id)))
  {
    var t := Step(s, Ack(id));
    if 0 < t.counter.packetDelivered {
      if s.counter.packetDelivered <= s.packets[id].delivered {
        assert id in t.batch && t.packets[id].delivered == t.counter.packetDelivered;
      } else {
        var i :| i in s.batch && i in s.packets && s.packets[i].delivered == s.counter.packetDelivered;
        assert i in t.batch && t.packets[i].delivered == t.counter.packetDelivered;
      }
    }
  }

  lemma {:induction false} EveryRunKeepsInv(r: Run)
    requires ValidRun(r)
    ensures Inv(Final(r))
  {
    if r.Then? {
      EveryRunKeepsInv(r.prefix);
      StepKeepsInv(Final(r.prefix), r.event);
    }
  }

  /** Rounds are real round trips: in every run, the batch that starts a new round
      acknowledges a packet whose snapshot reached the sentinel, and every such packet was
      sent after the batch that started the current round, whatever recovery and ProbeRTT
      did to the sentinel in between. */
  lemma RoundsAreRoundTrips(r: Run)
    requires ValidRun(r) && Enabled(Final(r), End(false, false))
    requires StartsRound(Final(r).counter) && 0 < Final(r).counter.roundCount
    ensures
      var s := Final(r);
      && (exists i :: i in s.batch && i in s.packets && s.packets[i].delivered >= s.counter.nextRoundDelivered)
      && (forall i | i in s.batch && i in s.packets && s.packets[i].delivered >= s.counter.nextRoundDelivered ::
            s.packets[i].sentAt > s.startedAt)
  {
    EveryRunKeepsInv(r);
  }

  /** And no round trip is missed: a batch starts a round exactly when it acknowledges a
      packet that reached the sentinel (or none was ever set), and every packet sent
      after the sentinel was set has reached it. */
  lemma EveryRoundTripCounts(r: Run)
    requires ValidRun(r) && Enabled(Final(r), End(false, false))
    ensures
      var s := Final(r);
      && (StartsRound(s.counter) <==>
            || s.counter.nextRoundDelivered == 0
            || exists i :: i in s.batch && i in s.packets && s.packets[i].delivered >= s.counter.nextRoundDelivered)
      && (forall i | i in s.batch && i in s.packets && s.packets[i].sentAt > s.sentinelAt :: StartsRound(s.counter))
  {
    EveryRunKeepsInv(r);
  }

  // ------------------------------------------------------------ read off the run alone

  /** Whether packet `id` has been sent, and with what size. */
  function SizeOf(r: Run, id: nat): Option<nat>
  {
    match r
    case Start => None
    case Then(p, e) => if e.Send? && e.id == id then Some(e.size) else SizeOf(p, id)
  }

  predicate WasAcked(r: Run, id: nat)
  {
    r.Then? && (r.event == Ack(id) || WasAcked(r.prefix, id))
  }

  /** The bytes acknowledged so far, every packet once. */
  function AckedBytes(r: Run): nat
  {
    match r
    case Start => 0
    case Then(p, e) =>
      AckedBytes(p) + if e.Ack? && !WasAcked(p, e.id) && SizeOf(p, e.id).Some? then SizeOf(p, e.id).value else 0
  }

  /** What had been acknowledged when packet `id` was sent. */
  function AckedBefore(r: Run, id: nat): nat
  {
    match r
    case Start => 0
    case Then(p, e) => if e.Send? && e.id == id then AckedBytes(p) else AckedBefore(p, id)
  }

  predicate InRecovery(r: Run)
  {
    match r
    case Start => false
    case Then(p, e) =>
      match e
      case Congestion(enter) => enter || InRecovery(p)
      case End(exit, _) => InRecovery(p) && !exit
      case _ => InRecovery(p)
  }

  /** Packet `id` was acknowledged in the batch being processed. */
  predicate InBatch(r: Run, id: nat)
  {
    r.Then? && !r.event.Begin? && !r.event.End? && (r.event == Ack(id) || InBatch(r.prefix, id))
  }

  /** What had been acknowledged when the sentinel was last set: by entering recovery, by the
      batch that started the round, or by ProbeRTT. */
  ghost function Sentinel(r: Run): nat
    decreases r, 0
  {
    match r
    case Start => 0
    case Then(p, e) =>
      match e
      case Congestion(enter) => if enter && !InRecovery(p) then AckedBytes(p) else Sentinel(p)
      case End(_, probeRtt) => if EndsRound(p) || probeRtt then AckedBytes(p) else Sentinel(p)
      case _ => Sentinel(p)
  }

  /** The batch ends the round: it acknowledged a packet sent when everything up to the sentinel
      had been acknowledged (or the sentinel was never moved). */
  ghost predicate EndsRound(r: Run)
    decreases r, 1
  {
    Sentinel(r) == 0 || exists id :: InBatch(r, id) && AckedBefore(r, id) >= Sentinel(r)
  }

  /** The rounds that have ended. */
  ghost function RoundsEnded(r: Run): nat
  {
    match r
    case Start => 0
    case Then(p, e) => RoundsEnded(p) + if e.End? && EndsRound(p) then 1 else 0
  }

  /** Packets are conserved from entering recovery until a round ends or recovery is left. */
  ghost predicate Conserving(r: Run)
  {
    match r
    case Start => false
    case Then(p, e) =>
      match e
      case Congestion(enter) => (enter && !InRecovery(p)) || Conserving(p)
      case End(exit, _) => Conserving(p) && !(exit && InRecovery(p)) && !EndsRound(p)
      case _ => Conserving(p)
  }

  /** The packets the sender remembers are those of the run. */
  ghost predicate PacketsMatch(r: Run, s: System)
  {
    && (forall i :: i in s.packets <==> SizeOf(r, i).Some?)
    && (forall i | i in s.packets ::
          && s.packets[i].size == SizeOf(r, i).value && s.packets[i].delivered == AckedBefore(r, i)
          && (s.packets[i].pending <==> !WasAcked(r, i)))
    && (forall i | WasAcked(r, i) :: i in s.packets)
    && (s.inBatch ==> forall i :: i in s.batch <==> InBatch(r, i))
  }

  /** The fields of the sender say of the run what they should. */
  ghost predicate Reports(r: Run, c: Counter)
  {
    && c.delivered == AckedBytes(r) && c.nextRoundDelivered == Sentinel(r)
    && c.inRecovery == InRecovery(r) && c.packetConservation == Conserving(r)
    && c.roundCount == RoundsEnded(r)
  }

  lemma {:induction false} PacketsOfRun(r: Run)
    requires ValidRun(r)
    ensures PacketsMatch(r, Final(r)) && Final(r).counter.delivered == AckedBytes(r)
  {
    if r.Then? {
      PacketsOfRun(r.prefix);
      match r.event
      case Send(id, size) => SendMatches(r);
      case Ack(id) => AckMatches(r);
      case Begin => BeginMatches(r);
      case _ => QuietMatches(r);
    }
  }

  lemma SendMatches(r: Run)
    requires ValidRun(r) && r.Then? && r.event.Send?
    requires PacketsMatch(r.prefix, Final(r.prefix)) && Final(r.prefix).counter.delivered == AckedBytes(r.prefix)
    ensures PacketsMatch(r, Final(r)) && Final(r).counter.delivered == AckedBytes(r)
  {
    hide AckedBytes;
    assert AckedBytes(r) == AckedBytes(r.prefix) by { AckedOnlyByAck(r); }
  }

  lemma AckMatches(r: Run)
    requires ValidRun(r) && r.Then? && r.event.Ack?
    requires PacketsMatch(r.prefix, Final(r.prefix)) && Final(r.prefix).counter.delivered == AckedBytes(r.prefix)
    ensures PacketsMatch(r, Final(r)) && Final(r).counter.delivered == AckedBytes(r)
  {
  }

  lemma BeginMatches(r: Run)
    requires ValidRun(r) && r.Then? && r.event.Begin?
    requires PacketsMatch(r.prefix, Final(r.prefix)) && Final(r.prefix).counter.delivered == AckedBytes(r.prefix)
    ensures PacketsMatch(r, Final(r)) && Final(r).counter.delivered == AckedBytes(r)
  {
  }

  lemma QuietMatches(r: Run)
    requires ValidRun(r) && r.Then? && (r.event.Congestion? || r.event.End?)
    requires PacketsMatch(r.prefix, Final(r.prefix)) && Final(r.prefix).counter.delivered == AckedBytes(r.prefix)
    ensures PacketsMatch(r, Final(r)) && Final(r).counter.delivered == AckedBytes(r)
  {
    hide AckedBytes; hide EndAck; hide OnCongestion;
    QuietCounts(r);
    assert AckedBytes(r) == AckedBytes(r.prefix) by { AckedOnlyByAck(r); }
  }

  lemma QuietCounts(r: Run)
    requires ValidRun(r) && r.Then? && (r.event.Congestion? || r.event.End?)
    ensures Final(r).counter.delivered == Final(r.prefix).counter.delivered
  {
  }

  lemma AckedOnlyByAck(r: Run)
    requires r.Then? && !r.event.Ack?
    ensures AckedBytes(r) == AckedBytes(r.prefix)
  {
  }

  /** A batch starts a round by the counters exactly when it ends one by the run. */
  lemma StartsIffEnds(r: Run)
    requires ValidRun(r) && Final(r).inBatch && Final(r).counter.nextRoundDelivered == Sentinel(r)
    requires PacketsMatch(r, Final(r)) && Inv(Final(r))
    ensures StartsRound(Final(r).counter) <==> EndsRound(r)
  {
    hide Final; hide Sentinel; hide InBatch; hide AckedBefore; hide WasAcked; hide SizeOf; hide ValidRun;
    var s := Final(r);
    if EndsRound(r) && Sentinel(r) > 0 {
      var id :| InBatch(r, id) && AckedBefore(r, id) >= Sentinel(r);
      assert id in s.batch && s.packets[id].delivered == AckedBefore(r, id);
    }
    if StartsRound(s.counter) && Sentinel(r) > 0 {
      var i :| i in s.batch && i in s.packets && s.packets[i].delivered == s.counter.packetDelivered;
      assert InBatch(r, i) && AckedBefore(r, i) == s.packets[i].delivered;
    }
  }

  /** In every run the fields report what can be read off the run alone: the bytes acknowledged,
      the sentinel, recovery, packet conservation and the number of rounds ended. */
  lemma {:induction false} EveryFieldReports(r: Run)
    requires ValidRun(r)
    ensures Reports(r, Final(r).counter)
  {
    PacketsOfRun(r);
    if r.Then? {
      EveryFieldReports(r.prefix);
      PacketsOfRun(r.prefix);
      EveryRunKeepsInv(r.prefix);
      if r.event.End? { StartsIffEnds(r.prefix); }
      FieldsStep(r);
    }
  }

  lemma FieldsStep(r: Run)
    requires ValidRun(r) && r.Then? && Reports(r.prefix, Final(r.prefix).counter)
    requires Final(r).counter.delivered == AckedBytes(r)
    requires r.event.End? ==> (StartsRound(Final(r.prefix).counter) <==> EndsRound(r.prefix))
    ensures Reports(r, Final(r).counter)
  {
    hide EndsRound; hide AckedBytes;
    if !r.event.Ack? { AckedOnlyByAck(r); }
  }

  /** The answer the rest of BBR reads: after every processed batch of every run,
      `is_round_start` holds exactly if the batch ended the round, and the round count has grown
      by one exactly then; between batches neither changes. */
  lemma RoundStartReported(r: Run)
    requires ValidRun(r) && r.Then?
    ensures
      var before, after := Final(r.prefix).counter, Final(r).counter;
      if r.event.End?
      then
        && (after.isRoundStart <==> EndsRound(r.prefix))
        && after.roundCount == before.roundCount + if EndsRound(r.prefix) then 1 else 0
      else after.isRoundStart == before.isRoundStart && after.roundCount == before.roundCount
  {
    hide EndsRound; hide Sentinel; hide Inv; hide PacketsMatch; hide AckedBytes; hide InRecovery; hide Conserving;
    if r.event.End? {
      EveryFieldReports(r.prefix);
      PacketsOfRun(r.prefix);
      EveryRunKeepsInv(r.prefix);
      StartsIffEnds(r.prefix);
    }
  }

  // --------------------------------------------------------------------- the object

  class Bbr {
    var delivered: nat
    var nextRoundDelivered: nat
    var roundCount: nat
    var isRoundStart: bool
    var packetDelivered: nat
    var packetConservation: bool
    var inRecovery: bool

    function Abs(): Counter
      reads this
    {
      Counter(delivered, nextRoundDelivered, roundCount, isRoundStart, packetDelivered, packetConservation, inRecovery)
    }

    constructor ()
      ensures Abs() == NEW
    {
      delivered, nextRoundDelivered, roundCount, packetDelivered := 0, 0, 0, 0;
      isRoundStart, packetConservation, inRecovery := false, false, false;
    }

    method OnPacketSent(size: nat, now: nat) returns (p: Packet)
      ensures p == Stamp(Abs(), size, now)
    {
      p := Packet(size, delivered, true, now);
    }

    method Begin()
      modifies this`packetDelivered
      ensures Abs() == BeginAck(old(Abs()))
    {
      packetDelivered := 0;
    }

    /** `update_rate_sample`, then the acknowledgement state. */
    method OnPacketAcked(p: Packet) returns (q: Packet)
      modifies this`delivered, this`packetDelivered
      ensures Abs() == OnAck(old(Abs()), p) && q == p.(pending := false)
    {
      q := p;
      if q.pending {
        delivered := delivered + q.size;
        q := q.(pending := false);
      }
      if packetDelivered < q.delivered { packetDelivered := q.delivered; }
    }

    method OnCongestionEvent(enter: bool)
      modifies this
      ensures Abs() == OnCongestion(old(Abs()), enter)
    {
      if enter && !inRecovery {
        packetConservation := true;
        inRecovery := true;
        nextRoundDelivered := delivered;
      }
    }

    method Update()
      modifies this
      ensures Abs() == UpdateRound(old(Abs()))
    {
      if packetDelivered >= nextRoundDelivered {
        nextRoundDelivered := delivered;
        roundCount := roundCount + 1;
        isRoundStart := true;
        packetConservation := false;
      } else {
        isRoundStart := false;
      }
    }

    method End(exitRecovery: bool, probeRtt: bool)
      modifies this
      ensures Abs() == EndAck(old(Abs()), exitRecovery, probeRtt)
    {
      if exitRecovery && inRecovery {
        packetConservation := false;
        inRecovery := false;
      }
      Update();
      if probeRtt { nextRoundDelivered := delivered; }
    }
  }
}
