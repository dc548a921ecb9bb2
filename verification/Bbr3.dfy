/** The BBRv3 state machine (src/congestion_control/bbr3.rs): Startup, Drain, the ProbeBW
    cycle and ProbeRTT, with its rounds and phase clock. Measured rates are inputs, and
    volumes enter through the tests made on them; every outcome is considered. */
module Bbr3Machine {
  import opened Base

  datatype State = Startup | Drain | ProbeBwDown | ProbeBwCruise | ProbeBwRefill | ProbeBwUp | ProbeRTT

  datatype AckPhase = Init | Stopping | Refilling | Starting | Feedback

  const PROBE_BW_MAX_ROUNDS: nat := 63

  /** The configured loss budget of a volume in flight and growth expected of a bandwidth,
      the rounds without growth and the loss events that count as a full pipe, and the
      ProbeRTT duration. */
  datatype Config = Config(
    budget: nat -> nat,
    growth: nat -> nat,
    fullBwCount: nat,
    fullLossCount: nat,
    probeRttDuration: nat)

  datatype Gains = Gains(pacing: real, cwnd: real)

  /** Packet-timed rounds: the delivery counter, the sentinel, whether the current ACK
      started a round, the largest snapshot among the packets acknowledged together, and
      the largest of all. */
  datatype Round = Round(delivered: nat, next: nat, start: bool, largest: nat, prior: nat)

  /** The phase clock of ProbeBW. */
  datatype Cycle = Cycle(stamp: nat, wait: nat, rounds: nat)

  /** The random choices of `pick_probe_wait`. */
  datatype Pick = Pick(wait: nat, rounds: nat)

  /** Bandwidth probing. `reactions` and `upEntries` are written by an observer: reactions
      to excessive loss outside Startup, and entries into ProbeBW_UP. */
  datatype Probing = Probing(ackPhase: AckPhase, samples: bool, reactions: nat, upEntries: nat)

  datatype Losses = Losses(
    roundStart: bool,
    roundDelivered: nat,
    inRecovery: bool,
    events: nat,
    lost: nat,
    txInFlight: nat)

  datatype RttProbe = RttProbe(expired: bool, idleRestart: bool, doneStamp: Option<nat>, roundDone: bool)

  datatype Flow = Flow(
    state: State,
    filledPipe: bool,
    fullBw: nat,
    fullBwCount: nat,
    gains: Gains,
    appLimited: bool,
    round: Round,
    cycle: Cycle,
    probing: Probing,
    losses: Losses,
    rtt: RttProbe)

  /** What a processed ACK measures, or the outcome of the tests it makes on volumes. */
  datatype AckTests = AckTests(
    now: nat,
    exitRecovery: bool,
    bubbleAcked: bool,
    sampleAppLimited: bool,
    maxBw: nat,
    rate: nat,
    withinBdp: bool,
    headroom: bool,
    targetInflight: nat,
    minRtt: nat,
    queueHigh: bool,
    probeRttExpired: bool,
    inflightSmall: bool,
    pick: Pick)

  // --------------------------------------------------------------------- transitions

  /** The table of gains of section 4.6 of the BBR draft with the BBRv3 changes. */
  function GainsOf(s: State): Gains
  {
    match s
    case Startup => Gains(2.77, 2.0)
    case Drain => Gains(0.5, 2.0)
    case ProbeBwDown => Gains(0.9, 2.0)
    case ProbeBwCruise => Gains(1.0, 2.0)
    case ProbeBwRefill => Gains(1.0, 2.0)
    case ProbeBwUp => Gains(1.25, 2.25)
    case ProbeRTT => Gains(1.0, 0.5)
  }

  function UpdateGains(f: Flow): Flow { f.(gains := GainsOf(f.state)) }

  function Enter(f: Flow, s: State): Flow { UpdateGains(f.(state := s)) }

  /** `start_round`: the sentinel moves up to the delivery counter. */
  function StartRound(f: Flow): Flow { f.(round := f.round.(next := f.round.delivered)) }

  function StartDown(f: Flow, now: nat, pick: Pick): Flow
  {
    StartRound(f).(cycle := Cycle(now, pick.wait, pick.rounds),
                   probing := f.probing.(ackPhase := Stopping),
                   state := ProbeBwDown)
  }

  function StartRefill(f: Flow): Flow
  {
    StartRound(f).(probing := f.probing.(ackPhase := Refilling), state := ProbeBwRefill)
  }

  /** The bandwidth samples of the probe count from here on. */
  function StartUp(f: Flow, now: nat, rate: nat): Flow
  {
    StartRound(f).(fullBw := rate,
                   cycle := f.cycle.(stamp := now),
                   probing := f.probing.(ackPhase := Starting, samples := true, upEntries := f.probing.upEntries + 1),
                   state := ProbeBwUp)
  }

  predicate InProbeBw(s: State) { s.ProbeBwDown? || s.ProbeBwCruise? || s.ProbeBwRefill? || s.ProbeBwUp? }

  predicate TooHigh(c: Config, f: Flow) { f.losses.lost > c.budget(f.losses.txInFlight) }

  /** `handle_inflight_too_high`: reacts once per bandwidth probe. */
  function HandleTooHigh(f: Flow, now: nat, pick: Pick): (r: Flow)
    ensures Sound(f) && (f.probing.samples || f.state.Startup?) ==> Carries(f, r)
  {
    var p := f.probing;
    var g := f.(probing := p.(samples := false, reactions := p.reactions + if f.state.Startup? then 0 else 1));
    if g.state.ProbeBwUp? then StartDown(g, now, pick) else g
  }

  function CheckFullBandwidth(c: Config, f: Flow, a: AckTests): (r: Flow)
    ensures OnlyFills(f, r)
  {
    if f.filledPipe || !f.round.start || a.sampleAppLimited then f
    else if a.maxBw >= c.growth(f.fullBw) then f.(fullBw := a.maxBw, fullBwCount := 0)
    else f.(fullBwCount := f.fullBwCount + 1, filledPipe := f.fullBwCount + 1 >= c.fullBwCount)
  }

  function CheckHighLoss(c: Config, f: Flow): (r: Flow)
    ensures OnlyFills(f, r)
  {
    var l := f.losses;
    var events := if l.lost > 0 && l.events < 0xf then l.events + 1 else l.events;
    f.(filledPipe := f.filledPipe || (l.roundStart && l.inRecovery && events >= c.fullLossCount && TooHigh(c, f)),
       losses := l.(events := if l.roundStart then 0 else events))
  }

  function CheckStartupDone(c: Config, f: Flow, a: AckTests): (r: Flow)
    ensures Sound(f) ==> Carries(f, r)
  {
    var g := CheckHighLoss(c, CheckFullBandwidth(c, f, a));
    if g.state.Startup? && g.filledPipe then Enter(g, Drain) else g
  }

  function CheckDrain(f: Flow, a: AckTests): (r: Flow)
    ensures Sound(f) ==> Carries(f, r)
  {
    if f.state.Drain? && a.withinBdp then StartDown(f, a.now, a.pick) else f
  }

  /** `adapt_upper_bounds`, as far as the probing state goes. */
  function AdaptUpperBounds(c: Config, f: Flow, a: AckTests): (r: Flow)
    ensures Sound(f) ==> Carries(f, r)
  {
    var p := f.probing;
    var g := f.(probing :=
      if p.ackPhase.Starting? && f.round.start then p.(ackPhase := Feedback)
      else if p.ackPhase.Stopping? && f.round.start then p.(samples := false, ackPhase := Init)
      else p);
    if TooHigh(c, g) && g.probing.samples then HandleTooHigh(g, a.now, a.pick) else g
  }

  /** `check_time_to_probe_bw`: the wait is over, or as many rounds have passed as a Reno
      flow would take. */
  predicate TimeToProbe(f: Flow, a: AckTests)
  {
    || a.now > f.cycle.stamp + f.cycle.wait
    || f.cycle.rounds >= Min(a.targetInflight, PROBE_BW_MAX_ROUNDS)
  }

  /** `check_time_to_cruise`: headroom is left and the queue is drained. */
  predicate TimeToCruise(a: AckTests) { a.headroom && a.withinBdp }

  /** ProbeBW_UP has lasted a round trip and built a queue. */
  predicate ProbedEnough(f: Flow, a: AckTests) { a.now > f.cycle.stamp + a.minRtt && a.queueHigh }

  /** The ProbeBW cycle itself. */
  function CyclePhase(g: Flow, a: AckTests): (r: Flow)
    ensures Sound(g) ==> Carries(g, r)
  {
    match g.state
    case ProbeBwDown =>
      if TimeToProbe(g, a) then StartRefill(g)
      else if TimeToCruise(a) then g.(state := ProbeBwCruise)
      else g
    case ProbeBwCruise => if TimeToProbe(g, a) then StartRefill(g) else g
    case ProbeBwRefill => if g.round.start then StartUp(g, a.now, a.rate) else g
    case ProbeBwUp => if ProbedEnough(g, a) then StartDown(g, a.now, a.pick) else g
    case _ => g
  }

  function UpdateCyclePhase(c: Config, f: Flow, a: AckTests): (r: Flow)
    ensures Sound(f) ==> Carries(f, r)
  {
    if !f.filledPipe then f else CyclePhase(AdaptUpperBounds(c, f, a), a)
  }

  function ExitProbeRtt(f: Flow, now: nat, pick: Pick): (r: Flow)
    ensures Sound(f) ==> Carries(f, r)
  {
    if f.filledPipe then StartDown(f, now, pick).(state := ProbeBwCruise) else Enter(f, Startup)
  }

  function CheckProbeRttDone(f: Flow, now: nat, pick: Pick): (r: Flow)
    ensures Sound(f) ==> Carries(f, r)
  {
    if f.rtt.doneStamp.Some? && now > f.rtt.doneStamp.value then ExitProbeRtt(f, now, pick) else f
  }

  /** ProbeRTT with its end already scheduled: leave after one round and the duration. */
  function WaitInProbeRtt(f: Flow, a: AckTests): (r: Flow)
    ensures Sound(f) ==> Carries(f, r)
  {
    var g := if f.round.start then f.(rtt := f.rtt.(roundDone := true)) else f;
    if g.rtt.roundDone then CheckProbeRttDone(g, a.now, a.pick) else g
  }

  function HandleProbeRtt(c: Config, f: Flow, a: AckTests): (r: Flow)
    ensures Sound(f) ==> Carries(f, r)
  {
    var g := f.(appLimited := true);
    if g.rtt.doneStamp.Some? then WaitInProbeRtt(g, a)
    else if a.inflightSmall
    then StartRound(g).(rtt := g.rtt.(doneStamp := Some(a.now + c.probeRttDuration), roundDone := false))
    else g
  }

  function EnterProbeRtt(f: Flow): (r: Flow)
    ensures Sound(f) ==> Carries(f, r)
  {
    if !f.state.ProbeRTT? && f.rtt.expired && !f.rtt.idleRestart
    then StartRound(Enter(f, ProbeRTT)).(rtt := f.rtt.(doneStamp := None), probing := f.probing.(ackPhase := Stopping))
    else f
  }

  function CheckProbeRtt(c: Config, f: Flow, a: AckTests): (r: Flow)
    ensures Sound(f) ==> Carries(f, r)
  {
    var g := EnterProbeRtt(f);
    var h := if g.state.ProbeRTT? then HandleProbeRtt(c, g, a) else g;
    if h.round.delivered > 0 then h.(rtt := h.rtt.(idleRestart := false)) else h
  }

  /** The acknowledged packets reached the sentinel. */
  predicate StartsRound(f: Flow) { f.round.largest >= f.round.next }

  /** `update_latest_delivery_signals` and `update_round`. */
  function SignalsUpdated(f: Flow): Flow
  {
    var lossStart := f.round.prior >= f.losses.roundDelivered;
    f.(losses := f.losses.(roundStart := lossStart,
                           roundDelivered := if lossStart then f.round.delivered else f.losses.roundDelivered),
       round := f.round.(start := StartsRound(f), next := if StartsRound(f) then f.round.delivered else f.round.next),
       cycle := f.cycle.(rounds := f.cycle.rounds + if StartsRound(f) then 1 else 0))
  }

  /** The Startup, Drain and ProbeBW steps of `update_model_and_state`. */
  function CheckPipe(c: Config, f: Flow, a: AckTests): (r: Flow)
    ensures Sound(f) ==> Carries(f, r)
  {
    UpdateCyclePhase(c, CheckDrain(CheckStartupDone(c, f, a), a), a)
  }

  /** `update_min_rtt`. */
  function MinRttUpdated(f: Flow, a: AckTests): Flow { f.(rtt := f.rtt.(expired := a.probeRttExpired)) }

  /** `update_model_and_state`. */
  function UpdateModel(c: Config, f: Flow, a: AckTests): (r: Flow)
    ensures Sound(f) ==> Carries(f, r)
  {
    CheckProbeRtt(c, MinRttUpdated(CheckPipe(c, SignalsUpdated(f), a), a), a)
  }

  // -------------------------------------------------------------------------- events

  datatype Event =
    | Sent(now: nat, idle: bool, pick: Pick)
    | BeginAck
    | AckPacket(size: nat, snapshot: nat, first: bool)
    | EndAck(tests: AckTests)
    | LossEvent(loss: Loss)

  /** A lost packet: what was in flight when it was sent and lost since, the volume
      `inflight_hi_from_lost_packet` puts in its place, and whether recovery begins. */
  datatype Loss = Loss(
    now: nat,
    txInFlight: nat,
    lost: nat,
    appLimited: bool,
    corrected: nat,
    enterRecovery: bool,
    pick: Pick)

  /** `on_sent`: a flow that restarts from idle while application-limited may leave ProbeRTT. */
  function OnSent(f: Flow, now: nat, idle: bool, pick: Pick): (r: Flow)
    ensures Sound(f) ==> Carries(f, r)
  {
    if !idle || !f.appLimited then f else
    var g := f.(rtt := f.rtt.(idleRestart := true));
    if !InProbeBw(g.state) && g.state.ProbeRTT? then CheckProbeRttDone(g, now, pick) else g
  }

  function OnBeginAck(f: Flow): Flow
  {
    f.(round := f.round.(largest := 0), losses := f.losses.(txInFlight := 0, lost := 0))
  }

  /** `on_ack`: a packet is counted as delivered the first time. */
  function OnAckPacket(f: Flow, size: nat, snapshot: nat, first: bool): Flow
  {
    f.(round := f.round.(delivered := if first then f.round.delivered + size else f.round.delivered,
                         prior := if first then Max(f.round.prior, snapshot) else f.round.prior,
                         largest := Max(f.round.largest, snapshot)))
  }

  /** The rate sample is generated, and recovery may end. */
  function RecoveryChecked(f: Flow, a: AckTests): Flow
  {
    f.(appLimited := f.appLimited && !a.bubbleAcked,
       losses := f.losses.(inRecovery := f.losses.inRecovery && !a.exitRecovery))
  }

  function OnEndAck(c: Config, f: Flow, a: AckTests): (r: Flow)
    ensures Sound(f) ==> Carries(f, r)
    ensures r.gains == GainsOf(r.state)
  {
    UpdateGains(UpdateModel(c, RecoveryChecked(f, a), a))
  }

  /** `handle_lost_packet`. */
  function HandleLostPacket(c: Config, f: Flow, l: Loss): (r: Flow)
    ensures Sound(f) ==> Carries(f, r)
  {
    if !f.probing.samples && !f.state.Startup? then f else
    var g := f.(losses := f.losses.(txInFlight := l.txInFlight, lost := l.lost), appLimited := l.appLimited);
    if TooHigh(c, g) then HandleTooHigh(g.(losses := g.losses.(txInFlight := l.corrected)), l.now, l.pick) else g
  }

  /** `on_congestion_event`. */
  function OnLoss(c: Config, f: Flow, l: Loss): (r: Flow)
    ensures Sound(f) ==> Carries(f, r)
  {
    var g := HandleLostPacket(c, f, l);
    if l.enterRecovery && !g.losses.inRecovery then StartRound(g).(losses := g.losses.(inRecovery := true)) else g
  }

  function Step(c: Config, f: Flow, e: Event): (r: Flow)
    ensures Sound(f) ==> Carries(f, r)
  {
    match e
    case Sent(now, idle, pick) => OnSent(f, now, idle, pick)
    case BeginAck => OnBeginAck(f)
    case AckPacket(size, snapshot, first) => OnAckPacket(f, size, snapshot, first)
    case EndAck(a) => OnEndAck(c, f, a)
    case LossEvent(l) => OnLoss(c, f, l)
  }

  /** A flow after `init`. */
  const NEW := Flow(
    Startup, false, 0, 0, GainsOf(Startup), false,
    Round(0, 0, false, 0, 0),
    Cycle(0, 0, 0),
    Probing(Init, false, 0, 0),
    Losses(false, 0, false, 0, 0, 0),
    RttProbe(false, false, None, false))

  datatype Run = Start | Then(prefix: Run, event: Event)

  function Final(c: Config, r: Run): Flow
  {
    match r case Start => NEW case Then(p, e) => Step(c, Final(c, p), e)
  }

  // ---------------------------------------------------------------------- invariants

  /** The state agrees with the full-pipe flag. */
  predicate PipeAgrees(f: Flow)
  {
    && (f.state.Startup? ==> !f.filledPipe)
    && (f.state.Drain? || InProbeBw(f.state) ==> f.filledPipe)
  }

  /** Every reaction outside Startup used up one bandwidth probe. */
  predicate ProbesAccounted(f: Flow)
  {
    f.probing.reactions + (if f.probing.samples then 1 else 0) <= f.probing.upEntries
  }

  predicate Sound(f: Flow) { PipeAgrees(f) && ProbesAccounted(f) }

  /** `g` is sound and has not forgotten a filled pipe. */
  predicate Carries(f: Flow, g: Flow) { Sound(g) && (f.filledPipe ==> g.filledPipe) }

  /** The full-pipe tests do no more than set the flag. */
  predicate OnlyFills(f: Flow, g: Flow)
  {
    && g.state == f.state && g.probing == f.probing
    && (f.filledPipe ==> g.filledPipe)
  }

  /** In every reachable state: Startup means the pipe was never filled, Drain and ProbeBW
      mean it was; and there were at most as many reactions outside Startup as bandwidth
      probes. */
  lemma {:induction false} EveryRunAgrees(c: Config, r: Run)
    ensures Sound(Final(c, r))
  {
    if r.Then? {
      EveryRunAgrees(c, r.prefix);
    }
  }

  lemma ReactsOncePerProbe(c: Config, r: Run)
    ensures Final(c, r).probing.reactions <= Final(c, r).probing.upEntries
  {
    EveryRunAgrees(c, r);
  }

  /** `r` goes on from `p`. */
  predicate Extends(r: Run, p: Run)
  {
    r == p || (r.Then? && Extends(r.prefix, p))
  }

  lemma {:induction false} FilledForever(c: Config, p: Run, r: Run)
    requires Extends(r, p) && Final(c, p).filledPipe
    ensures Final(c, r).filledPipe
  {
    if r != p {
      FilledForever(c, p, r.prefix);
      EveryRunAgrees(c, r.prefix);
    }
  }

  /** Once Drain or ProbeBW has been entered, Startup is never entered again. */
  lemma NoWayBackToStartup(c: Config, p: Run, r: Run)
    requires Extends(r, p) && (Final(c, p).state.Drain? || InProbeBw(Final(c, p).state))
    ensures !Final(c, r).state.Startup?
  {
    EveryRunAgrees(c, p);
    FilledForever(c, p, r);
    EveryRunAgrees(c, r);
  }

  /** After every processed ACK the gains are those of the state. */
  lemma GainsAfterAck(c: Config, r: Run, a: AckTests)
    ensures var f := Final(c, Then(r, EndAck(a))); f.gains == GainsOf(f.state)
  {
  }

  predicate Lagging(f: Flow) { f.gains != GainsOf(f.state) }

  /** The two events that change the state and leave the gains behind: sending after idle
      leaves ProbeRTT for ProbeBW, or a loss ends ProbeBW_UP. */
  predicate StartsLag(c: Config, f: Flow, e: Event)
  {
    || (e.Sent? && e.idle && f.appLimited && f.state.ProbeRTT? && f.filledPipe
        && f.rtt.doneStamp.Some? && e.now > f.rtt.doneStamp.value)
    || (e.LossEvent? && f.state.ProbeBwUp? && f.probing.samples && e.loss.lost > c.budget(e.loss.txInFlight))
  }

  /** One of the two has happened since the last processed ACK. */
  predicate LagSinceAck(c: Config, r: Run)
  {
    r.Then? && !r.event.EndAck? && (LagSinceAck(c, r.prefix) || StartsLag(c, Final(c, r.prefix), r.event))
  }

  /** In every run, the gains lag behind the state if and only if one of the two events
      has happened since the last processed ACK. */
  lemma {:induction false} GainsLagExactlyWhen(c: Config, r: Run)
    ensures Lagging(Final(c, r)) <==> LagSinceAck(c, r)
    ensures Lagging(Final(c, r)) ==> Final(c, r).state.ProbeBwDown? || Final(c, r).state.ProbeBwCruise?
  {
    hide Step;
    if r.Then? {
      GainsLagExactlyWhen(c, r.prefix);
      var f := Final(c, r.prefix);
      if r.event.EndAck? { GainsAfterAck(c, r.prefix, r.event.tests); } else { LagStep(c, f, r.event); }
    }
  }

  /** What one event other than an ACK does to the lag. */
  lemma LagStep(c: Config, f: Flow, e: Event)
    requires !e.EndAck? && (Lagging(f) ==> f.state.ProbeBwDown? || f.state.ProbeBwCruise?)
    ensures
      var g := Step(c, f, e);
      && (Lagging(g) <==> Lagging(f) || StartsLag(c, f, e))
      && (Lagging(g) ==> g.state.ProbeBwDown? || g.state.ProbeBwCruise?)
  {
    match e
    case Sent(now, idle, pick) => SentGains(f, now, idle, pick);
    case LossEvent(l) => LossGains(c, f, l);
    case AckPacket(_, _, _) =>
    case BeginAck =>
  }

  lemma SentGains(f: Flow, now: nat, idle: bool, pick: Pick)
    requires Lagging(f) ==> f.state.ProbeBwDown? || f.state.ProbeBwCruise?
    ensures
      var g := OnSent(f, now, idle, pick);
      && (Lagging(g) <==>
            || Lagging(f)
            || (idle && f.appLimited && f.state.ProbeRTT? && f.filledPipe
                && f.rtt.doneStamp.Some? && now > f.rtt.doneStamp.value))
      && (Lagging(g) ==> g.state.ProbeBwDown? || g.state.ProbeBwCruise?)
  {
  }

  lemma LossGains(c: Config, f: Flow, l: Loss)
    requires Lagging(f) ==> f.state.ProbeBwDown? || f.state.ProbeBwCruise?
    ensures
      var g := OnLoss(c, f, l);
      && (Lagging(g) <==> Lagging(f) || (f.state.ProbeBwUp? && f.probing.samples && l.lost > c.budget(l.txInFlight)))
      && (Lagging(g) ==> g.state.ProbeBwDown? || g.state.ProbeBwCruise?)
  {
  }

  // ---------------------------------------------------------------- a run that lags

  /** The default configuration: 2% loss, 25% growth, three rounds, six loss events, 200 ms. */
  const DEFAULTS := Config(n => n * 2 / 100, n => n * 5 / 4, 3, 6, 200_000_000)

  /** A batch that acknowledges one packet of 1200 bytes, sent with the given snapshot. */
  function Batch(r: Run, snapshot: nat, a: AckTests): Run
  {
    Then(Then(Then(r, BeginAck), AckPacket(1200, snapshot, true)), EndAck(a))
  }

  /** What a flow measures that sends one such packet per round trip of 12 ms: 100 kbyte/s,
      1200 bytes of target inflight and nothing left in flight; the ProbeBW wait picked is
      2.5 s. */
  function Measured(now: nat): AckTests
  {
    AckTests(now, false, false, false, 100_000, 100_000, true, true, 1200, 12_000_000, false, false, false,
             Pick(2_500_000_000, 0))
  }

  /** Four round trips: one of growth and three without. Each batch acknowledges a packet
      sent after the batch before it. */
  const FILLED: Run :=
    Batch(Batch(Batch(Batch(Start, 0, Measured(12_000_000)),
      1200, Measured(24_000_000)),
      2400, Measured(36_000_000)),
      3600, Measured(48_000_000))

  /** After a pause of 4 s, one round trip that ends the wait and one that refills the pipe. */
  const PROBING: Run :=
    Batch(Batch(FILLED, 4800, Measured(4_060_000_000)), 6000, Measured(4_072_000_000))

  /** The last of ten packets sent together is lost. */
  const LOSS := LossEvent(Loss(4_100_000_000, 10800, 1200, false, 10800, true, Pick(2_500_000_000, 0)))

  /** What the flow looks like between batches: nothing lost, and the next round starts with
      the next packet sent. */
  predicate Calm(f: Flow, delivered: nat)
  {
    && f.round.delivered == delivered == f.round.next && f.round.prior <= delivered
    && f.losses.roundDelivered <= delivered
    && !f.losses.inRecovery && f.losses.events == 0 && !f.rtt.expired && f.gains == GainsOf(f.state)
  }

  function AfterBatch(f: Flow, snapshot: nat, a: AckTests): Flow
  {
    OnEndAck(DEFAULTS, OnAckPacket(OnBeginAck(f), 1200, snapshot, true), a)
  }

  /** The flow when the ACK of such a batch reaches the tests on the pipe. */
  function Measuring(f: Flow, a: AckTests): Flow
  {
    SignalsUpdated(RecoveryChecked(OnAckPacket(OnBeginAck(f), 1200, f.round.delivered, true), a))
  }

  lemma CalmMeasuring(f: Flow, d: nat, now: nat)
    requires Calm(f, d)
    ensures
      var g := Measuring(f, Measured(now));
      && g.round.start && g.round.next == g.round.delivered == d + 1200 && g.round.prior == d
      && g.losses == Losses(true, d + 1200, false, 0, 0, 0)
      && g.cycle == f.cycle.(rounds := f.cycle.rounds + 1)
      && g.state == f.state && g.filledPipe == f.filledPipe && g.fullBw == f.fullBw && g.fullBwCount == f.fullBwCount
      && g.probing == f.probing && g.rtt == f.rtt
  {
  }

  /** Without losses and without ProbeRTT, a batch does what the tests on the pipe do. */
  lemma CalmBatch(f: Flow, d: nat, now: nat)
    requires Calm(f, d) && !f.state.ProbeRTT?
    ensures
      var a := Measured(now);
      var p := CheckPipe(DEFAULTS, Measuring(f, a), a);
      !p.state.ProbeRTT? ==>
        var g := AfterBatch(f, d, a);
        && g.state == p.state && g.filledPipe == p.filledPipe && g.fullBw == p.fullBw && g.fullBwCount == p.fullBwCount
        && g.round == p.round && g.cycle == p.cycle && g.probing == p.probing && g.losses == p.losses
        && g.gains == GainsOf(g.state) && !g.rtt.expired
  {
    hide CheckPipe; hide SignalsUpdated; hide Sound; hide Carries;
    var a := Measured(now);
    var p := CheckPipe(DEFAULTS, Measuring(f, a), a);
    if !p.state.ProbeRTT? { NoProbeRtt(MinRttUpdated(p, a), a); }
  }

  lemma NoProbeRtt(f: Flow, a: AckTests)
    requires !f.state.ProbeRTT? && !f.rtt.expired
    ensures var g := CheckProbeRtt(DEFAULTS, f, a); g == f.(rtt := g.rtt) && !g.rtt.expired
  {
    hide HandleProbeRtt; hide Sound; hide Carries;
  }

  predicate Stalling(f: Flow, n: nat, d: nat)
  {
    Calm(f, d) && f.state.Startup? && !f.filledPipe && f.fullBw == 100_000 && f.fullBwCount == n
  }

  lemma GrowingBatch(now: nat)
    ensures Stalling(AfterBatch(NEW, 0, Measured(now)), 0, 1200)
  {
    hide AfterBatch; hide Measuring;
    CalmMeasuring(NEW, 0, now);
    CalmBatch(NEW, 0, now);
  }

  lemma StallingBatch(f: Flow, n: nat, d: nat, now: nat)
    requires Stalling(f, n, d) && n < 2
    ensures Stalling(AfterBatch(f, d, Measured(now)), n + 1, d + 1200)
  {
    hide AfterBatch; hide Measuring;
    CalmMeasuring(f, d, now);
    CalmBatch(f, d, now);
  }

  /** In ProbeBW_CRUISE, with the wait picked at `stamp`. */
  predicate Cruising(f: Flow, d: nat, stamp: nat)
  {
    Calm(f, d) && f.state.ProbeBwCruise? && f.filledPipe && f.cycle == Cycle(stamp, 2_500_000_000, 0)
  }

  /** The pipe is full and nothing is left in flight, so the flow passes through Drain and
      ProbeBW_DOWN at once; the wait has just begun, so it does not probe yet. */
  lemma FillingBatch(f: Flow, d: nat, now: nat)
    requires Stalling(f, 2, d)
    ensures Cruising(AfterBatch(f, d, Measured(now)), d + 1200, now)
  {
    hide AfterBatch; hide Measuring;
    CalmMeasuring(f, d, now);
    CalmBatch(f, d, now);
  }

  lemma WaitingBatch(f: Flow, d: nat, stamp: nat, now: nat)
    requires Cruising(f, d, stamp) && now > stamp + 2_500_000_000
    ensures
      var g := AfterBatch(f, d, Measured(now));
      Calm(g, d + 1200) && g.state.ProbeBwRefill? && g.filledPipe
  {
    hide AfterBatch; hide Measuring;
    CalmMeasuring(f, d, now);
    CalmBatch(f, d, now);
  }

  lemma RefilledBatch(f: Flow, d: nat, now: nat)
    requires Calm(f, d) && f.state.ProbeBwRefill? && f.filledPipe
    ensures
      var g := AfterBatch(f, d, Measured(now));
      g.state.ProbeBwUp? && g.probing.samples && g.gains == GainsOf(ProbeBwUp)
  {
    hide AfterBatch; hide Measuring;
    CalmMeasuring(f, d, now);
    CalmBatch(f, d, now);
  }

  lemma BatchIs(r: Run, snapshot: nat, a: AckTests)
    ensures Final(DEFAULTS, Batch(r, snapshot, a)) == AfterBatch(Final(DEFAULTS, r), snapshot, a)
  {
    hide OnEndAck;
    var begun := Then(r, BeginAck);
    var acked := Then(begun, AckPacket(1200, snapshot, true));
    assert Final(DEFAULTS, begun) == OnBeginAck(Final(DEFAULTS, r));
    assert Final(DEFAULTS, acked) == OnAckPacket(Final(DEFAULTS, begun), 1200, snapshot, true);
  }

  lemma FilledRun()
    ensures Cruising(Final(DEFAULTS, FILLED), 4800, 48_000_000)
  {
    assert Final(DEFAULTS, Start) == NEW;
    hide AfterBatch; hide Batch; hide Final; hide Measured; hide Stalling; hide Cruising;
    var one := Batch(Start, 0, Measured(12_000_000));
    var two := Batch(one, 1200, Measured(24_000_000));
    var three := Batch(two, 2400, Measured(36_000_000));
    BatchIs(Start, 0, Measured(12_000_000));
    BatchIs(one, 1200, Measured(24_000_000));
    BatchIs(two, 2400, Measured(36_000_000));
    BatchIs(three, 3600, Measured(48_000_000));
    GrowingBatch(12_000_000);
    StallingBatch(Final(DEFAULTS, one), 0, 1200, 24_000_000);
    StallingBatch(Final(DEFAULTS, two), 1, 2400, 36_000_000);
    FillingBatch(Final(DEFAULTS, three), 3600, 48_000_000);
  }

  lemma ProbingRun()
    ensures
      var f := Final(DEFAULTS, PROBING);
      f.state.ProbeBwUp? && f.probing.samples && f.gains == GainsOf(ProbeBwUp)
  {
    hide AfterBatch; hide Batch; hide Final; hide Measured; hide Cruising; hide Calm;
    var five := Batch(FILLED, 4800, Measured(4_060_000_000));
    FilledRun();
    BatchIs(FILLED, 4800, Measured(4_060_000_000));
    BatchIs(five, 6000, Measured(4_072_000_000));
    WaitingBatch(Final(DEFAULTS, FILLED), 4800, 48_000_000, 4_060_000_000);
    RefilledBatch(Final(DEFAULTS, five), 6000, 4_072_000_000);
  }

  /** The lag is reachable: six round trips lead to ProbeBW_UP, and the loss of one of ten
      packets then sends the flow to ProbeBW_DOWN with the gains of ProbeBW_UP. */
  lemma LagIsReachable()
    ensures
      var f := Final(DEFAULTS, Then(PROBING, LOSS));
      && Final(DEFAULTS, PROBING).state.ProbeBwUp?
      && f.state.ProbeBwDown? && f.gains == GainsOf(ProbeBwUp) && Lagging(f)
  {
    hide Step;
    ProbingRun();
    LossEndsUp(Final(DEFAULTS, PROBING));
  }

  lemma LossEndsUp(f: Flow)
    requires f.state.ProbeBwUp? && f.probing.samples && f.gains == GainsOf(ProbeBwUp)
    ensures var g := Step(DEFAULTS, f, LOSS); g.state.ProbeBwDown? && g.gains == f.gains
  {
  }

  /** The state became ProbeBW_UP, or an entry was counted. */
  predicate EntersUp(f: Flow, g: Flow)
  {
    (g.state.ProbeBwUp? && !f.state.ProbeBwUp?) || g.probing.upEntries != f.probing.upEntries
  }

  /** ProbeBW_UP is entered from ProbeBW_REFILL only, at the start of a round, and each
      entry is counted once. */
  lemma UpOnlyFromRefill(c: Config, f: Flow, e: Event)
    ensures
      var g := Step(c, f, e);
      EntersUp(f, g) ==>
        && e.EndAck? && f.state.ProbeBwRefill? && StartsRound(f)
        && g.probing.upEntries == f.probing.upEntries + 1
  {
    if e.EndAck? { ModelEntersUp(c, RecoveryChecked(f, e.tests), e.tests); }
  }

  lemma ModelEntersUp(c: Config, f: Flow, a: AckTests)
    ensures
      var g := UpdateModel(c, f, a);
      EntersUp(f, g) ==> f.state.ProbeBwRefill? && StartsRound(f) && g.probing.upEntries == f.probing.upEntries + 1
  {
    hide CheckProbeRtt; hide CheckPipe; hide Sound; hide Carries;
    var g := SignalsUpdated(f);
    PipeMoves(c, g, a);
    ProbeRttMoves(c, MinRttUpdated(CheckPipe(c, g, a), a), a);
  }

  lemma PipeMoves(c: Config, f: Flow, a: AckTests)
    ensures
      var g := CheckPipe(c, f, a);
      if f.state.ProbeBwRefill? && f.round.start && g.state.ProbeBwUp?
      then g.probing.upEntries == f.probing.upEntries + 1
      else (g.state.ProbeBwUp? ==> f.state.ProbeBwUp?) && g.probing.upEntries == f.probing.upEntries
  {
    hide CheckStartupDone; hide AdaptUpperBounds; hide Sound; hide Carries;
    StartupMoves(c, f, a);
    BoundsMove(c, CheckDrain(CheckStartupDone(c, f, a), a), a);
  }

  lemma StartupMoves(c: Config, f: Flow, a: AckTests)
    ensures
      var g := CheckStartupDone(c, f, a);
      && (g.state == f.state || (f.state.Startup? && g.state.Drain?)) && g.probing == f.probing
      && g.round == f.round && g.cycle == f.cycle && (f.filledPipe ==> g.filledPipe)
      && g.losses.lost == f.losses.lost && g.losses.inRecovery == f.losses.inRecovery
  {
    hide Sound; hide Carries;
  }

  lemma BoundsMove(c: Config, f: Flow, a: AckTests)
    ensures var g := AdaptUpperBounds(c, f, a);
      && (g.state == f.state || g.state.ProbeBwDown?)
      && g.probing.upEntries == f.probing.upEntries && g.round.start == f.round.start
  {
  }

  lemma ProbeRttMoves(c: Config, f: Flow, a: AckTests)
    ensures
      var g := CheckProbeRtt(c, f, a);
      (g.state.ProbeBwUp? ==> f.state.ProbeBwUp?) && g.probing.upEntries == f.probing.upEntries
  {
    hide Sound; hide Carries; hide HandleProbeRtt;
    if EnterProbeRtt(f).state.ProbeRTT? { HandlingMoves(c, EnterProbeRtt(f), a); }
  }

  lemma HandlingMoves(c: Config, f: Flow, a: AckTests)
    requires f.state.ProbeRTT?
    ensures var g := HandleProbeRtt(c, f, a); !g.state.ProbeBwUp? && g.probing.upEntries == f.probing.upEntries
  {
    hide Sound; hide Carries;
  }

  /** The clock an event carries. */
  function TimeOf(e: Event): nat
  {
    match e
    case Sent(now, _, _) => now
    case EndAck(a) => a.now
    case LossEvent(l) => l.now
    case _ => 0
  }

  /** Once the end of ProbeRTT is scheduled, an event leaves ProbeRTT only after that time
      (and, when it is an ACK, after a round), and otherwise does not move it. */
  lemma ProbeRttStep(c: Config, f: Flow, e: Event)
    requires f.state.ProbeRTT? && f.rtt.doneStamp.Some?
    ensures
      var g := Step(c, f, e);
      if g.state.ProbeRTT? then g.rtt.doneStamp == f.rtt.doneStamp
      else TimeOf(e) > f.rtt.doneStamp.value && (e.EndAck? ==> f.rtt.roundDone || StartsRound(f))
  {
    if e.EndAck? {
      hide CheckProbeRtt; hide CheckPipe; hide Sound; hide Carries;
      var a := e.tests;
      var g := SignalsUpdated(RecoveryChecked(f, a));
      BeforeProbeRtt(c, g, a);
      ProbeRttAck(c, MinRttUpdated(CheckPipe(c, g, a), a), a);
    }
  }

  lemma BeforeProbeRtt(c: Config, f: Flow, a: AckTests)
    requires f.state.ProbeRTT?
    ensures var g := CheckPipe(c, f, a);
      g.state.ProbeRTT? && g.rtt == f.rtt && g.round == f.round
  {
  }

  lemma ProbeRttAck(c: Config, f: Flow, a: AckTests)
    requires f.state.ProbeRTT? && f.rtt.doneStamp.Some?
    ensures
      var g := CheckProbeRtt(c, f, a);
      if g.state.ProbeRTT? then g.rtt.doneStamp == f.rtt.doneStamp
      else a.now > f.rtt.doneStamp.value && (f.rtt.roundDone || f.round.start)
  {
  }

  /** `r` goes on from `p` without leaving ProbeRTT. */
  predicate StaysInProbeRtt(c: Config, p: Run, r: Run)
  {
    Final(c, r).state.ProbeRTT? && (r == p || (r.Then? && StaysInProbeRtt(c, p, r.prefix)))
  }

  /** In every run, ProbeRTT lasts until the time scheduled when the flight became small
      enough: no later event before it leaves the state. */
  lemma {:induction false} ProbeRttLasts(c: Config, p: Run, r: Run, e: Event)
    requires StaysInProbeRtt(c, p, r) && Final(c, p).rtt.doneStamp.Some?
    ensures Final(c, r).rtt.doneStamp == Final(c, p).rtt.doneStamp
    ensures !Final(c, Then(r, e)).state.ProbeRTT? ==> TimeOf(e) > Final(c, p).rtt.doneStamp.value
    decreases r
  {
    hide Step;
    if r != p { ProbeRttLasts(c, p, r.prefix, r.event); ProbeRttStep(c, Final(c, r.prefix), r.event); }
    ProbeRttStep(c, Final(c, r), e);
  }

  // --------------------------------------------------------------------- the object

  class Bbr3 {
    const config: Config
    var state: State
    var filledPipe: bool
    var fullBw: nat
    var fullBwCount: nat
    var gains: Gains
    var appLimited: bool
    var round: Round
    var cycle: Cycle
    var ackPhase: AckPhase
    var samples: bool
    ghost var reactions: nat
    ghost var upEntries: nat
    var losses: Losses
    var rtt: RttProbe

    ghost function Abs(): Flow
      reads this
    {
      Flow(state, filledPipe, fullBw, fullBwCount, gains, appLimited, round, cycle,
           Probing(ackPhase, samples, reactions, upEntries), losses, rtt)
    }

    constructor (config: Config)
      ensures Abs() == NEW && this.config == config
    {
      this.config := config;
      state, gains := Startup, GainsOf(Startup);
      filledPipe, fullBw, fullBwCount, appLimited := false, 0, 0, false;
      round, cycle := Round(0, 0, false, 0, 0), Cycle(0, 0, 0);
      ackPhase, samples, reactions, upEntries := Init, false, 0, 0;
      losses := Losses(false, 0, false, 0, 0, 0);
      rtt := RttProbe(false, false, None, false);
    }

    method EnterState(s: State)
      modifies this`state, this`gains
      ensures Abs() == Enter(old(Abs()), s)
    {
      state := s;
      gains := GainsOf(state);
    }

    method BeginRound()
      modifies this`round
      ensures Abs() == StartRound(old(Abs()))
    {
      round := round.(next := round.delivered);
    }

    method StartProbeBwDown(now: nat, pick: Pick)
      modifies this`round, this`cycle, this`ackPhase, this`state
      ensures Abs() == StartDown(old(Abs()), now, pick)
    {
      cycle := Cycle(now, pick.wait, pick.rounds);
      ackPhase := Stopping;
      BeginRound();
      state := ProbeBwDown;
    }

    method StartProbeBwRefill()
      modifies this`round, this`ackPhase, this`state
      ensures Abs() == StartRefill(old(Abs()))
    {
      ackPhase := Refilling;
      BeginRound();
      state := ProbeBwRefill;
    }

    method StartProbeBwUp(now: nat, rate: nat)
      modifies this`round, this`cycle, this`ackPhase, this`state, this`fullBw, this`samples, this`upEntries
      ensures Abs() == StartUp(old(Abs()), now, rate)
    {
      samples := true;
      ackPhase := Starting;
      BeginRound();
      fullBw := rate;
      cycle := cycle.(stamp := now);
      state := ProbeBwUp;
      upEntries := upEntries + 1;
    }

    method ReactToTooHigh(now: nat, pick: Pick)
      modifies this
      ensures Abs() == HandleTooHigh(old(Abs()), now, pick)
    {
      samples := false;
      if state != Startup { reactions := reactions + 1; }
      if state == ProbeBwUp { StartProbeBwDown(now, pick); }
    }

    method CheckStartupFullBandwidth(a: AckTests)
      modifies this
      ensures Abs() == CheckFullBandwidth(config, old(Abs()), a)
    {
      if filledPipe || !round.start || a.sampleAppLimited { return; }
      if a.maxBw >= config.growth(fullBw) {
        fullBw := a.maxBw;
        fullBwCount := 0;
        return;
      }
      fullBwCount := fullBwCount + 1;
      if fullBwCount >= config.fullBwCount { filledPipe := true; }
    }

    method CheckStartupHighLoss()
      modifies this
      ensures Abs() == CheckHighLoss(config, old(Abs()))
    {
      if losses.lost > 0 && losses.events < 0xf { losses := losses.(events := losses.events + 1); }
      if losses.roundStart && losses.inRecovery && losses.events >= config.fullLossCount
         && losses.lost > config.budget(losses.txInFlight) {
        filledPipe := true;
      }
      if losses.roundStart { losses := losses.(events := 0); }
    }

    method CheckStartup(a: AckTests)
      modifies this
      ensures Abs() == CheckStartupDone(config, old(Abs()), a)
    {
      hide CheckFullBandwidth; hide CheckHighLoss;
      CheckStartupFullBandwidth(a);
      CheckStartupHighLoss();
      if state == Startup && filledPipe { EnterState(Drain); }
    }

    method AdaptBounds(a: AckTests)
      modifies this
      ensures Abs() == AdaptUpperBounds(config, old(Abs()), a)
    {
      if ackPhase == Starting && round.start { ackPhase := Feedback; }
      if ackPhase == Stopping && round.start {
        samples := false;
        ackPhase := Init;
      }
      if losses.lost > config.budget(losses.txInFlight) {
        if samples { ReactToTooHigh(a.now, a.pick); }
      }
    }

    method UpdateProbeBwCyclePhase(a: AckTests)
      modifies this
      ensures Abs() == UpdateCyclePhase(config, old(Abs()), a)
    {
      hide AdaptUpperBounds; hide StartDown; hide StartRefill; hide StartUp;
      if !filledPipe { return; }
      AdaptBounds(a);
      match state
      case ProbeBwDown =>
        if a.now > cycle.stamp + cycle.wait || cycle.rounds >= Min(a.targetInflight, PROBE_BW_MAX_ROUNDS) {
          StartProbeBwRefill();
          return;
        }
        if a.headroom && a.withinBdp { state := ProbeBwCruise; }
      case ProbeBwCruise =>
        if a.now > cycle.stamp + cycle.wait || cycle.rounds >= Min(a.targetInflight, PROBE_BW_MAX_ROUNDS) {
          StartProbeBwRefill();
        }
      case ProbeBwRefill =>
        if round.start { StartProbeBwUp(a.now, a.rate); }
      case ProbeBwUp =>
        if a.now > cycle.stamp + a.minRtt && a.queueHigh { StartProbeBwDown(a.now, a.pick); }
      case _ =>
    }

    method CheckRttProbeDone(now: nat, pick: Pick)
      modifies this
      ensures Abs() == CheckProbeRttDone(old(Abs()), now, pick)
    {
      if rtt.doneStamp.Some? && now > rtt.doneStamp.value {
        if filledPipe {
          StartProbeBwDown(now, pick);
          state := ProbeBwCruise;
        } else {
          EnterState(Startup);
        }
      }
    }

    method HandleRttProbe(a: AckTests)
      modifies this
      ensures Abs() == HandleProbeRtt(config, old(Abs()), a)
    {
      hide CheckProbeRttDone;
      appLimited := true;
      if rtt.doneStamp.Some? {
        if round.start { rtt := rtt.(roundDone := true); }
        if rtt.roundDone { CheckRttProbeDone(a.now, a.pick); }
      } else if a.inflightSmall {
        rtt := rtt.(doneStamp := Some(a.now + config.probeRttDuration), roundDone := false);
        BeginRound();
      }
    }

    method CheckRttProbe(a: AckTests)
      modifies this
      ensures Abs() == CheckProbeRtt(config, old(Abs()), a)
    {
      hide HandleProbeRtt; hide Sound; hide Carries;
      if state != ProbeRTT && rtt.expired && !rtt.idleRestart {
        EnterState(ProbeRTT);
        rtt := rtt.(doneStamp := None);
        ackPhase := Stopping;
        BeginRound();
      }
      assert Abs() == EnterProbeRtt(old(Abs()));
      if state == ProbeRTT { HandleRttProbe(a); }
      if round.delivered > 0 { rtt := rtt.(idleRestart := false); }
    }

    method CheckQueueDrained(a: AckTests)
      modifies this
      ensures Abs() == CheckDrain(old(Abs()), a)
    {
      if state == Drain && a.withinBdp { StartProbeBwDown(a.now, a.pick); }
    }

    method UpdateSignals()
      modifies this`round, this`cycle, this`losses
      ensures Abs() == SignalsUpdated(old(Abs()))
    {
      losses := losses.(roundStart := false);
      if round.prior >= losses.roundDelivered {
        losses := losses.(roundDelivered := round.delivered, roundStart := true);
      }
      if round.largest >= round.next {
        BeginRound();
        cycle := cycle.(rounds := cycle.rounds + 1);
        round := round.(start := true);
      } else {
        round := round.(start := false);
      }
    }

    method UpdateModelAndState(a: AckTests)
      modifies this
      ensures Abs() == UpdateModel(config, old(Abs()), a)
    {
      hide CheckPipe; hide CheckProbeRtt; hide SignalsUpdated; hide Sound; hide Carries;
      UpdateSignals();
      CheckStartupDrainAndProbeBw(a);
      rtt := rtt.(expired := a.probeRttExpired);
      assert Abs() == MinRttUpdated(CheckPipe(config, SignalsUpdated(old(Abs())), a), a);
      CheckRttProbe(a);
    }

    method CheckStartupDrainAndProbeBw(a: AckTests)
      modifies this
      ensures Abs() == CheckPipe(config, old(Abs()), a)
    {
      hide CheckStartupDone; hide CheckDrain; hide UpdateCyclePhase; hide Sound; hide Carries;
      CheckStartup(a);
      CheckQueueDrained(a);
      UpdateProbeBwCyclePhase(a);
    }

    method Begin()
      modifies this`round, this`losses
      ensures Abs() == OnBeginAck(old(Abs()))
    {
      round := round.(largest := 0);
      losses := losses.(txInFlight := 0, lost := 0);
    }

    method PacketAcked(size: nat, snapshot: nat, first: bool)
      modifies this`round
      ensures Abs() == OnAckPacket(old(Abs()), size, snapshot, first)
    {
      if first {
        round := round.(delivered := round.delivered + size);
        if snapshot > round.prior { round := round.(prior := snapshot); }
      }
      round := round.(largest := Max(round.largest, snapshot));
    }

    method End(a: AckTests)
      modifies this
      ensures Abs() == OnEndAck(config, old(Abs()), a)
    {
      hide UpdateModel;
      if a.bubbleAcked { appLimited := false; }
      if a.exitRecovery { losses := losses.(inRecovery := false); }
      assert Abs() == RecoveryChecked(old(Abs()), a);
      UpdateModelAndState(a);
      gains := GainsOf(state);
    }

    method PacketSent(now: nat, idle: bool, pick: Pick)
      modifies this
      ensures Abs() == OnSent(old(Abs()), now, idle, pick)
    {
      hide CheckProbeRttDone;
      if idle && appLimited {
        rtt := rtt.(idleRestart := true);
        if !InProbeBw(state) && state == ProbeRTT { CheckRttProbeDone(now, pick); }
      }
    }

    method LostPacket(l: Loss)
      modifies this
      ensures Abs() == HandleLostPacket(config, old(Abs()), l)
    {
      hide HandleTooHigh;
      if !samples && state != Startup { return; }
      losses := losses.(txInFlight := l.txInFlight, lost := l.lost);
      appLimited := l.appLimited;
      if losses.lost > config.budget(losses.txInFlight) {
        losses := losses.(txInFlight := l.corrected);
        ReactToTooHigh(l.now, l.pick);
      }
    }

    method CongestionEvent(l: Loss)
      modifies this
      ensures Abs() == OnLoss(config, old(Abs()), l)
    {
      hide HandleLostPacket;
      LostPacket(l);
      if l.enterRecovery && !losses.inRecovery {
        losses := losses.(inRecovery := true);
        BeginRound();
      }
    }
  }
}
